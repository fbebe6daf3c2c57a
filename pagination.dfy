/**
 * The page-break estimate of the resume preview. A page holds 1056 layout units
 * less the height of the header block; sections are walked in order, and a section
 * that would push the running total past that budget opens a new page.
 * Measured heights are inputs here: reading them from the rendered page is not modelled.
 */
module Pagination {
  import opened ResumeTypes

  /** Height of one page, in layout units (11 inches at 96 units per inch). */
  const PageHeight: int := 1056

  /** What the measurement of the rendered preview yields: the header height, if a header was found, and each section's height in order. */
  datatype Layout = Layout(header: Option<nat>, heights: seq<nat>)

  /** `PAGE_HEIGHT - (header?.clientHeight || 0)`: a missing header counts as zero. */
  function Budget(header: Option<nat>): (b: int)
    ensures b <= PageHeight
    ensures header.None? ==> b == PageHeight
    ensures header.Some? ==> b + header.value == PageHeight
  {
    PageHeight - header.GetOr(0)
  }

  /** The breaks recorded so far and the height of the page being filled. */
  datatype ScanState = ScanState(breaks: seq<nat>, run: int)

  predicate Increasing(s: seq<nat>) {
    forall a, b :: 0 <= a < b < |s| ==> s[a] < s[b]
  }

  /**
   * The state after the first `n` sections: section `n - 1` is a break exactly when the
   * running total plus its height exceeds the budget; the total then restarts at its height.
   */
  function Scan(hs: seq<nat>, budget: int, n: nat): (st: ScanState)
    requires n <= |hs|
    ensures Increasing(st.breaks)
    ensures forall k :: 0 <= k < |st.breaks| ==> st.breaks[k] < n
    ensures |st.breaks| <= n
    decreases n
  {
    if n == 0 then ScanState([], 0)
    else
      var prev := Scan(hs, budget, n - 1);
      if prev.run + hs[n - 1] > budget then ScanState(prev.breaks + [n - 1], hs[n - 1])
      else ScanState(prev.breaks, prev.run + hs[n - 1])
  }

  /** The indices of the sections that start a new page. */
  function Breaks(hs: seq<nat>, budget: int): seq<nat> {
    Scan(hs, budget, |hs|).breaks
  }

  /** Height of sections lo .. hi-1. */
  function SumRange(hs: seq<nat>, lo: nat, hi: nat): int
    requires lo <= hi <= |hs|
    decreases hi - lo
  {
    if lo == hi then 0 else SumRange(hs, lo, hi - 1) + hs[hi - 1]
  }

  /** Where the page being filled began: the last break, or the first section. */
  function PageStart(breaks: seq<nat>): nat {
    if breaks == [] then 0 else breaks[|breaks| - 1]
  }

  /** The breaks found in a prefix are the first breaks of the whole; later ones lie past the prefix. */
  lemma {:induction false} PrefixScan(hs: seq<nat>, budget: int, n: nat, m: nat)
    requires n <= m <= |hs|
    ensures var p, b := Scan(hs, budget, n).breaks, Scan(hs, budget, m).breaks;
      |p| <= |b| && b[..|p|] == p && forall j :: |p| <= j < |b| ==> b[j] >= n
    decreases m - n
  {
    if n < m {
      PrefixScan(hs, budget, n, m - 1);
    }
  }

  /** The running total is the height of the current page, and it fits unless that page holds one section. */
  lemma {:induction false} ScanInvariant(hs: seq<nat>, budget: int, n: nat)
    requires n <= |hs|
    ensures var st := Scan(hs, budget, n);
      && PageStart(st.breaks) <= n
      && st.run == SumRange(hs, PageStart(st.breaks), n)
      && (st.run <= budget || n - PageStart(st.breaks) <= 1)
  {
    if n > 0 {
      ScanInvariant(hs, budget, n - 1);
      var prev := Scan(hs, budget, n - 1);
      if prev.run + hs[n - 1] > budget {
        assert Scan(hs, budget, n).breaks == prev.breaks + [n - 1];
        assert SumRange(hs, n - 1, n) == hs[n - 1];
      }
    }
  }

  /**
   * Section i starts a page exactly when the height of the page before it plus its own
   * height exceeds the budget; the page being filled then measures h_i, else it grows by h_i.
   */
  lemma BreakRule(hs: seq<nat>, budget: int, i: nat)
    requires i < |hs|
    ensures var before := Scan(hs, budget, i).run;
      && (i in Breaks(hs, budget) <==> before + hs[i] > budget)
      && Scan(hs, budget, i + 1).run == (if before + hs[i] > budget then hs[i] else before + hs[i])
  {
    var b := Breaks(hs, budget);
    var p := Scan(hs, budget, i + 1).breaks;
    PrefixScan(hs, budget, i + 1, |hs|);
    if i in b {
      var j :| 0 <= j < |b| && b[j] == i;
      assert j < |p|;
      assert p[j] == i;
    }
    if Scan(hs, budget, i).run + hs[i] > budget {
      assert p[|p| - 1] == i;
      assert b[|p| - 1] == i;
    }
  }

  /** The first section starts a new page only when it is taller than the budget on its own. */
  lemma FirstBreak(hs: seq<nat>, budget: int)
    requires |hs| > 0
    ensures 0 in Breaks(hs, budget) <==> hs[0] > budget
  {
    BreakRule(hs, budget, 0);
  }

  /** While everything seen so far fits, there is no break and the total is the sum. */
  lemma {:induction false} FitsNoBreaks(hs: seq<nat>, budget: int, n: nat)
    requires n <= |hs|
    requires SumRange(hs, 0, n) <= budget
    ensures Scan(hs, budget, n) == ScanState([], SumRange(hs, 0, n))
  {
    if n > 0 {
      FitsNoBreaks(hs, budget, n - 1);
    }
  }

  /** If all sections together fit in the budget there are no breaks; no sections, no breaks. */
  lemma NoBreaksWhenAllFit(hs: seq<nat>, budget: int)
    ensures SumRange(hs, 0, |hs|) <= budget ==> Breaks(hs, budget) == []
    ensures hs == [] ==> Breaks(hs, budget) == []
  {
    if SumRange(hs, 0, |hs|) <= budget {
      FitsNoBreaks(hs, budget, |hs|);
    }
  }

  /** First section of page k: 0 for the first page, else the (k-1)-th break. */
  function PageFirst(b: seq<nat>, k: nat): nat
    requires k <= |b|
  {
    if k == 0 then 0 else b[k - 1]
  }

  /** One past the last section of page k: the k-th break, or the end for the last page. */
  function PageEnd(b: seq<nat>, k: nat, n: nat): nat
    requires k <= |b|
  {
    if k < |b| then b[k] else n
  }

  /**
   * Every page the breaks delimit either fits in the budget or holds at most one
   * section, which then overflows the page on its own.
   */
  lemma PagesFit(hs: seq<nat>, budget: int, k: nat)
    requires k <= |Breaks(hs, budget)|
    ensures var b := Breaks(hs, budget);
      var lo, hi := PageFirst(b, k), PageEnd(b, k, |hs|);
      lo <= hi <= |hs| && (SumRange(hs, lo, hi) <= budget || hi - lo <= 1)
  {
    var b := Breaks(hs, budget);
    if k < |b| {
      var m := b[k];
      var p := Scan(hs, budget, m).breaks;
      PrefixScan(hs, budget, m, |hs|);
      // the breaks before b[k] are exactly the breaks found in the first m sections
      assert forall j :: 0 <= j < |p| ==> b[j] < m;
      assert forall j :: 0 <= j < k ==> b[j] < m;
      assert |p| < |b| ==> b[|p|] >= m;
      assert |p| == k;
      assert p == b[..k];
      ScanInvariant(hs, budget, m);
    } else {
      ScanInvariant(hs, budget, |hs|);
    }
  }
}
