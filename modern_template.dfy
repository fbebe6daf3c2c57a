/**
 * The page-break estimator of the modern template: the same accumulate-and-break
 * walk as the classic template, so both produce the same breaks for the same layout.
 */
module ModernTemplate {
  import opened ResumeTypes
  import opened Pagination

  /** `calculatePageBreaks`: the same result as `ClassicTemplate.CalculatePageBreaks`. */
  method CalculatePageBreaks(content: Option<Layout>) returns (update: Option<seq<nat>>)
    ensures content.None? ==> update.None?
    ensures content.Some? ==> update == Some(Breaks(content.value.heights, Budget(content.value.header)))
    ensures content.Some? && SumRange(content.value.heights, 0, |content.value.heights|) <= Budget(content.value.header)
      ==> update == Some([])
  {
    if content.None? {
      return None;
    }
    var headerHeight := content.value.header.GetOr(0);
    var availableHeight := PageHeight - headerHeight;
    var sections := content.value.heights;
    var currentHeight := 0;
    var breaks: seq<nat> := [];
    for index := 0 to |sections|
      invariant ScanState(breaks, currentHeight) == Scan(sections, availableHeight, index)
    {
      var sectionHeight := sections[index];
      if currentHeight + sectionHeight > availableHeight {
        breaks := breaks + [index];
        currentHeight := sectionHeight;
      } else {
        currentHeight := currentHeight + sectionHeight;
      }
    }
    NoBreaksWhenAllFit(sections, availableHeight);
    return Some(breaks);
  }
}
