/**
 * The page-break estimator of the classic template. The measurement of the rendered
 * preview is an input: `None` when the preview element is not mounted yet.
 */
module ClassicTemplate {
  import opened ResumeTypes
  import opened Pagination

  /**
   * `calculatePageBreaks`: returns the breaks to store, or `None` when there is no
   * preview to measure (the stored breaks are then left as they were).
   */
  method CalculatePageBreaks(content: Option<Layout>) returns (update: Option<seq<nat>>)
    ensures content.None? ==> update.None?
    ensures content.Some? ==> update == Some(Breaks(content.value.heights, Budget(content.value.header)))
    ensures update.Some? ==> Increasing(update.value)
    ensures update.Some? ==> forall k :: 0 <= k < |update.value| ==> update.value[k] < |content.value.heights|
  {
    if content.None? {
      return None;
    }
    var headerHeight := if content.value.header.Some? then content.value.header.value else 0;
    var availableHeight := PageHeight - headerHeight;
    var sections := content.value.heights;
    var currentHeight := 0;
    var breaks: seq<nat> := [];
    var index := 0;
    while index < |sections|
      invariant index <= |sections|
      invariant ScanState(breaks, currentHeight) == Scan(sections, availableHeight, index)
    {
      var sectionHeight := sections[index];
      if currentHeight + sectionHeight > availableHeight {
        breaks := breaks + [index];
        currentHeight := sectionHeight;
      } else {
        currentHeight := currentHeight + sectionHeight;
      }
      index := index + 1;
    }
    return Some(breaks);
  }
}
