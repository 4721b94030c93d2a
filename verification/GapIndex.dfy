/** The index of gaps, one summary per region of the bitmask, and the search for a gap in it. */
module GapIndex {
  import opened Wrappers
  import opened Layout
  import opened BitRuns
  import opened BitScan

  const U16 := 0x1_0000

  /** The first block of region `r`, or the size of `r` regions. */
  function RegionStart(regionBlocks: nat, r: nat): nat {
    r * regionBlocks
  }

  lemma StartNext(regionBlocks: nat, r: nat)
    ensures RegionStart(regionBlocks, r + 1) == RegionStart(regionBlocks, r) + regionBlocks
    ensures RegionStart(regionBlocks, 0) == 0
  {
  }

  lemma StartAdd(regionBlocks: nat, a: nat, b: nat)
    ensures RegionStart(regionBlocks, a + b) == RegionStart(regionBlocks, a) + RegionStart(regionBlocks, b)
  {
  }

  lemma StartOrder(regionBlocks: nat, a: nat, b: nat)
    requires a <= b
    ensures RegionStart(regionBlocks, a) <= RegionStart(regionBlocks, b)
  {
    MulMonotone(a, b, regionBlocks);
  }

  /** A window of regions, from `start` up to but not including `end`. */
  datatype Window = Window(start: nat, end: nat)

  /**
   The regions strictly inside the window are all free, and with the ends make `numBlocks`. The ends are
   added as `u16`.
   */
  predicate WindowFits(gaps: seq<RegionGaps>, start: nat, size: nat, regionBlocks: nat, numBlocks: nat)
    requires 2 <= size && start + size <= |gaps|
  {
    && (forall i :: start < i < start + size - 1 ==> gaps[i].max == regionBlocks)
    && (gaps[start].trailing + gaps[start + size - 1].leading) % U16 + RegionStart(regionBlocks, size - 2) >= numBlocks
  }

  function FindMergedGap(gaps: seq<RegionGaps>, from: nat, size: nat, regionBlocks: nat, numBlocks: nat):
    (r: Option<Window>)
    requires 2 <= size
    ensures r.Some? ==>
              && r.value.end == r.value.start + size <= |gaps| && from <= r.value.start
              && WindowFits(gaps, r.value.start, size, regionBlocks, numBlocks)
              && forall i: nat :: from <= i < r.value.start ==> !WindowFits(gaps, i, size, regionBlocks, numBlocks)
    ensures r.None? ==>
              forall i: nat :: from <= i && i + size <= |gaps| ==> !WindowFits(gaps, i, size, regionBlocks, numBlocks)
    decreases |gaps| - from
  {
    if from + size > |gaps| then None
    else if WindowFits(gaps, from, size, regionBlocks, numBlocks) then Some(Window(from, from + size))
    else FindMergedGap(gaps, from + 1, size, regionBlocks, numBlocks)
  }

  function FindMaxGap(gaps: seq<RegionGaps>, from: nat, numBlocks: nat): (r: Option<Window>)
    ensures r.Some? ==>
              && from <= r.value.start && r.value.end == r.value.start + 1 <= |gaps|
              && gaps[r.value.start].max >= numBlocks
              && forall i: nat :: from <= i < r.value.start ==> gaps[i].max < numBlocks
    ensures r.None? ==> forall i :: from <= i < |gaps| ==> gaps[i].max < numBlocks
    decreases |gaps| - from
  {
    if from >= |gaps| then None
    else if gaps[from].max >= numBlocks then Some(Window(from, from + 1))
    else FindMaxGap(gaps, from + 1, numBlocks)
  }

  /** The window of regions in which a gap of `numBlocks` is to be found. */
  function FindFittingGap(gaps: seq<RegionGaps>, regionBlocks: nat, numBlocks: nat): Option<Window>
    requires regionBlocks > 0 && numBlocks > 0
  {
    if |gaps| == 1 then
      if gaps[0].max >= numBlocks then Some(Window(0, 1)) else None
    else
      var needed := DivCeil(numBlocks, regionBlocks);
      var inFewest :=
        if needed == 1 then FindMaxGap(gaps, 0, numBlocks)
        else assert needed >= 2 by { NeedsSome(numBlocks, regionBlocks); }
             FindMergedGap(gaps, 0, needed, regionBlocks, numBlocks);
      if inFewest.Some? then inFewest
      else assert needed >= 1 by { NeedsSome(numBlocks, regionBlocks); }
           FindMergedGap(gaps, 0, needed + 1, regionBlocks, numBlocks)
  }

  lemma NeedsSome(n: nat, d: nat)
    requires d > 0 && n > 0
    ensures DivCeil(n, d) >= 1
  {
  }

  /**
   The free blocks at the very end: the trailing gaps, backwards, up to and including the first that is
   not a whole region.
   */
  function TrailingFreeBlocks(gaps: seq<RegionGaps>, regionBlocks: nat): nat {
    if gaps == [] then 0
    else
      var last := gaps[|gaps| - 1].trailing;
      last + if last == regionBlocks then TrailingFreeBlocks(gaps[..|gaps| - 1], regionBlocks) else 0
  }

  // ---------------------------------------------------------------------------------------
  // Agreement with the bits
  // ---------------------------------------------------------------------------------------

  /** The bits of one region. */
  function Region(bits: seq<bool>, regionBlocks: nat, r: nat): seq<bool>
    requires RegionStart(regionBlocks, r) + regionBlocks <= |bits|
  {
    bits[RegionStart(regionBlocks, r)..RegionStart(regionBlocks, r) + regionBlocks]
  }

  /** Every summary is the truth about the bits of its region. */
  ghost predicate Agrees(gaps: seq<RegionGaps>, bits: seq<bool>, regionBlocks: nat) {
    && |bits| == RegionStart(regionBlocks, |gaps|)
    && forall r: nat :: r < |gaps| ==> AgreesAt(gaps, bits, regionBlocks, r)
  }

  ghost predicate AgreesAt(gaps: seq<RegionGaps>, bits: seq<bool>, regionBlocks: nat, r: nat)
    requires r < |gaps|
  {
    RegionStart(regionBlocks, r) + regionBlocks <= |bits| && Summarizes(gaps[r], Region(bits, regionBlocks, r))
  }

  /** What a true summary of the `size` bits from `first` on says of them in their own positions. */
  ghost predicate TrueOf(g: RegionGaps, bits: seq<bool>, first: nat, size: nat) {
    && first + size <= |bits|
    && g.leading <= size && FreeRun(bits, first, g.leading) && (g.leading < size ==> bits[first + g.leading])
    && g.trailing <= size && FreeRun(bits, first + size - g.trailing, g.trailing)
    && (g.trailing < size ==> bits[first + size - g.trailing - 1])
    && g.max <= size && RunWithin(bits, g.max, first, first + size)
    && (forall s: nat, n: nat :: first <= s && s + n <= first + size && FreeRun(bits, s, n) ==> n <= g.max)
  }

  ghost predicate RunWithin(bits: seq<bool>, n: nat, from: nat, to: nat) {
    exists s: nat :: from <= s && s + n <= to && FreeRun(bits, s, n)
  }

  lemma SummaryIsTrue(g: RegionGaps, bits: seq<bool>, first: nat, size: nat)
    requires first + size <= |bits| && Summarizes(g, bits[first..first + size])
    ensures TrueOf(g, bits, first, size)
  {
    var region := bits[first..first + size];
    assert forall k :: first <= k < first + size ==> bits[k] == region[k - first];
    var s: nat :| FreeRun(region, s, g.max);
    assert FreeRun(bits, first + s, g.max);
    assert g.leading < size ==> region[g.leading];
    assert g.trailing < size ==> region[size - g.trailing - 1];
    forall s: nat, n: nat | first <= s && s + n <= first + size && FreeRun(bits, s, n) ensures n <= g.max {
      assert FreeRun(region, s - first, n) by {
        forall k | s - first <= k < s - first + n ensures !region[k] {
          assert !bits[first + k];
        }
      }
    }
  }

  lemma RegionFacts(gaps: seq<RegionGaps>, bits: seq<bool>, regionBlocks: nat, r: nat)
    requires Agrees(gaps, bits, regionBlocks) && r < |gaps|
    ensures RegionStart(regionBlocks, r + 1) == RegionStart(regionBlocks, r) + regionBlocks <= |bits|
    ensures TrueOf(gaps[r], bits, RegionStart(regionBlocks, r), regionBlocks)
  {
    hide Summarizes, TrueOf, RegionStart;
    StartNext(regionBlocks, r);
    StartOrder(regionBlocks, r + 1, |gaps|);
    assert AgreesAt(gaps, bits, regionBlocks, r);
    SummaryIsTrue(gaps[r], bits, RegionStart(regionBlocks, r), regionBlocks);
  }

  // ---------------------------------------------------------------------------------------
  // The search is sound
  // ---------------------------------------------------------------------------------------

  lemma JoinRuns(bits: seq<bool>, a: nat, b: nat, c: nat)
    requires a <= b <= c && FreeRun(bits, a, b - a) && FreeRun(bits, b, c - b)
    ensures FreeRun(bits, a, c - a)
  {
  }

  lemma FitsIsRun(gaps: seq<RegionGaps>, bits: seq<bool>, regionBlocks: nat, start: nat, size: nat, n: nat)
    requires regionBlocks > 0 && Agrees(gaps, bits, regionBlocks)
    requires 2 <= size && start + size <= |gaps| && WindowFits(gaps, start, size, regionBlocks, n)
    ensures RunWithin(bits, n, RegionStart(regionBlocks, start), RegionStart(regionBlocks, start + size))
  {
    hide RegionStart, Agrees, Summarizes, FreeRun;
    var last := start + size - 1;
    RegionFacts(gaps, bits, regionBlocks, start);
    RegionFacts(gaps, bits, regionBlocks, last);
    var a, b := RegionStart(regionBlocks, start + 1), RegionStart(regionBlocks, last);
    var from, end := a - gaps[start].trailing, b + gaps[last].leading;
    StartAdd(regionBlocks, start + 1, size - 2);
    MiddleIsFree(gaps, bits, regionBlocks, start + 1, last);
    JoinRuns(bits, from, a, b);
    JoinRuns(bits, from, b, end);
    ShrinkRun(bits, from, end - from, n);
    assert from + n <= RegionStart(regionBlocks, last + 1);
  }

  lemma {:induction false} MiddleIsFree(gaps: seq<RegionGaps>, bits: seq<bool>, regionBlocks: nat, lo: nat, hi: nat)
    requires Agrees(gaps, bits, regionBlocks) && lo <= hi <= |gaps|
    requires forall i :: lo <= i < hi ==> gaps[i].max == regionBlocks
    ensures RegionStart(regionBlocks, lo) <= RegionStart(regionBlocks, hi) <= |bits|
    ensures FreeRun(bits, RegionStart(regionBlocks, lo), RegionStart(regionBlocks, hi) - RegionStart(regionBlocks, lo))
    decreases hi
  {
    StartOrder(regionBlocks, lo, hi);
    StartOrder(regionBlocks, hi, |gaps|);
    hide RegionStart, Summarizes;
    if lo < hi {
      MiddleIsFree(gaps, bits, regionBlocks, lo, hi - 1);
      RegionFacts(gaps, bits, regionBlocks, hi - 1);
    }
  }

  /** The search is sound: the window it finds holds a run that is long enough. */
  lemma FoundIsRun(gaps: seq<RegionGaps>, bits: seq<bool>, regionBlocks: nat, n: nat)
    requires regionBlocks > 0 && n > 0 && Agrees(gaps, bits, regionBlocks)
    requires FindFittingGap(gaps, regionBlocks, n).Some?
    ensures var w := FindFittingGap(gaps, regionBlocks, n).value;
            && w.start < w.end <= |gaps|
            && RunWithin(bits, n, RegionStart(regionBlocks, w.start), RegionStart(regionBlocks, w.end))
  {
    hide RegionStart, Agrees, Summarizes, WindowFits, DivCeil;
    var w := FindFittingGap(gaps, regionBlocks, n).value;
    NeedsSome(n, regionBlocks);
    if w.end == w.start + 1 {
      RegionFacts(gaps, bits, regionBlocks, w.start);
      var first := RegionStart(regionBlocks, w.start);
      var s: nat :| first <= s && s + gaps[w.start].max <= first + regionBlocks && FreeRun(bits, s, gaps[w.start].max);
      ShrinkRun(bits, s, gaps[w.start].max, n);
    } else {
      FitsIsRun(gaps, bits, regionBlocks, w.start, w.end - w.start, n);
    }
  }

  // ---------------------------------------------------------------------------------------
  // The search is complete exactly when two regions cannot overflow a u16
  // ---------------------------------------------------------------------------------------

  const LARGEST_SAFE_REGION := 0x7FFF

  /** The run of `n` blocks at `s` starts in region `i` and ends in region `j`. */
  predicate Spans(regionBlocks: nat, s: nat, n: nat, i: nat, j: nat) {
    && i <= j
    && RegionStart(regionBlocks, i) <= s < RegionStart(regionBlocks, i + 1)
    && RegionStart(regionBlocks, j) < s + n <= RegionStart(regionBlocks, j + 1)
  }

  /** A run that spans several regions makes their window fit. */
  lemma SpanFits(gaps: seq<RegionGaps>, bits: seq<bool>, regionBlocks: nat, s: nat, n: nat, i: nat, j: nat)
    requires 0 < regionBlocks <= LARGEST_SAFE_REGION && Agrees(gaps, bits, regionBlocks) && FreeRun(bits, s, n)
    requires i < j < |gaps| && Spans(regionBlocks, s, n, i, j)
    ensures WindowFits(gaps, i, j - i + 1, regionBlocks, n)
  {
    hide RegionStart, Agrees, Summarizes;
    RegionFacts(gaps, bits, regionBlocks, i);
    RegionFacts(gaps, bits, regionBlocks, j);
    StartOrder(regionBlocks, i + 1, j);
    forall r | i < r < j ensures gaps[r].max == regionBlocks {
      MiddleRegionIsFree(gaps, bits, regionBlocks, s, n, i, j, r);
    }
    StartAdd(regionBlocks, i + 1, j - i - 1);
  }

  lemma MiddleRegionIsFree(
    gaps: seq<RegionGaps>, bits: seq<bool>, regionBlocks: nat, s: nat, n: nat, i: nat, j: nat, r: nat)
    requires Agrees(gaps, bits, regionBlocks) && FreeRun(bits, s, n)
    requires i < r < j < |gaps| && Spans(regionBlocks, s, n, i, j)
    ensures gaps[r].max == regionBlocks
  {
    hide RegionStart, Agrees, Summarizes;
    StartOrder(regionBlocks, i + 1, r);
    StartOrder(regionBlocks, r + 1, j);
    RegionFacts(gaps, bits, regionBlocks, r);
    assert FreeRun(bits, RegionStart(regionBlocks, r), regionBlocks);
  }

  lemma RegionOf(k: nat, regionBlocks: nat, count: nat) returns (r: nat)
    requires regionBlocks > 0 && k < RegionStart(regionBlocks, count)
    ensures r < count && RegionStart(regionBlocks, r) <= k < RegionStart(regionBlocks, r + 1)
  {
    r := k / regionBlocks;
    assert k == regionBlocks * r + k % regionBlocks;
    if r >= count {
      MulMonotone(count, r, regionBlocks);
    }
  }

  /** A run of `n` blocks spans as many regions as it needs, or one more. */
  lemma SpanSize(regionBlocks: nat, s: nat, n: nat, i: nat, j: nat)
    requires regionBlocks > 0 && n > 0 && Spans(regionBlocks, s, n, i, j)
    ensures var needed := DivCeil(n, regionBlocks); j - i + 1 == needed || j - i + 1 == needed + 1
  {
    var needed := DivCeil(n, regionBlocks);
    assert n <= RegionStart(regionBlocks, needed) < n + regionBlocks;
    hide RegionStart, DivCeil;
    StartNext(regionBlocks, i);
    StartNext(regionBlocks, j);
    if j - i + 1 < needed {
      StartNext(regionBlocks, needed - 1);
      StartOrder(regionBlocks, j - i + 1, needed - 1);
      StartAdd(regionBlocks, i, j - i + 1);
    } else if needed < j - i {
      StartAdd(regionBlocks, i + 1, j - i - 1);
      StartOrder(regionBlocks, needed, j - i - 1);
    }
  }

  lemma RunIsFound(gaps: seq<RegionGaps>, bits: seq<bool>, regionBlocks: nat, n: nat)
    requires 0 < regionBlocks <= LARGEST_SAFE_REGION && n > 0
    requires Agrees(gaps, bits, regionBlocks) && HasRun(bits, n)
    ensures FindFittingGap(gaps, regionBlocks, n).Some?
  {
    hide RegionStart, Summarizes, WindowFits, DivCeil, Agrees;
    AgreeingLength(gaps, bits, regionBlocks);
    var s: nat :| FreeRun(bits, s, n);
    var i := RegionOf(s, regionBlocks, |gaps|);
    var j := RegionOf(s + n - 1, regionBlocks, |gaps|);
    assert i <= j by {
      if j < i { StartOrder(regionBlocks, j + 1, i); }
    }
    NeedsSome(n, regionBlocks);
    SpanSize(regionBlocks, s, n, i, j);
    if i == j {
      RegionFacts(gaps, bits, regionBlocks, i);
    } else {
      SpanFits(gaps, bits, regionBlocks, s, n, i, j);
    }
  }

  // ---------------------------------------------------------------------------------------
  // Which run is found
  // ---------------------------------------------------------------------------------------

  /** The `size` regions from `w` on hold a run of `n` free blocks. */
  ghost predicate HoldsRun(bits: seq<bool>, regionBlocks: nat, n: nat, w: nat, size: nat) {
    RunWithin(bits, n, RegionStart(regionBlocks, w), RegionStart(regionBlocks, w + size))
  }

  /** The first window with a run among those of as few regions as `n` blocks need, or else of one more. */
  ghost predicate FirstWindow(bits: seq<bool>, regionBlocks: nat, n: nat, w: Window)
    requires regionBlocks > 0
  {
    var size, needed: nat := w.end - w.start, DivCeil(n, regionBlocks);
    && (size == needed || (size == needed + 1 && forall i: nat :: !HoldsRun(bits, regionBlocks, n, i, needed)))
    && HoldsRun(bits, regionBlocks, n, w.start, size)
    && forall i: nat :: i < w.start ==> !HoldsRun(bits, regionBlocks, n, i, size)
  }

  /** `s` is the first place for `n` blocks in the first window that has one. */
  ghost predicate IsPlace(bits: seq<bool>, regionBlocks: nat, n: nat, w: Window, s: nat)
    requires regionBlocks > 0
  {
    var from, end := RegionStart(regionBlocks, w.start), RegionStart(regionBlocks, w.end);
    && FirstWindow(bits, regionBlocks, n, w)
    && from <= s && s + n <= end && FreeRun(bits, s, n)
    && forall t: nat :: from <= t && t + n <= end && FreeRun(bits, t, n) ==> s <= t
  }

  ghost predicate Chosen(bits: seq<bool>, regionBlocks: nat, n: nat, s: nat)
    requires regionBlocks > 0
  {
    exists w :: IsPlace(bits, regionBlocks, n, w, s)
  }

  /** There is one such place at most. */
  lemma ChosenIsUnique(bits: seq<bool>, regionBlocks: nat, n: nat, s: nat, t: nat)
    requires regionBlocks > 0 && Chosen(bits, regionBlocks, n, s) && Chosen(bits, regionBlocks, n, t)
    ensures s == t
  {
    hide HoldsRun, DivCeil;
    var v :| IsPlace(bits, regionBlocks, n, v, s);
    var w :| IsPlace(bits, regionBlocks, n, w, t);
    assert v == w;
  }

  /** A window of the right size that holds a run has summaries that fit. */
  lemma HolderFits(gaps: seq<RegionGaps>, bits: seq<bool>, regionBlocks: nat, n: nat, w: nat, size: nat)
    requires 0 < regionBlocks <= LARGEST_SAFE_REGION && n > 0 && Agrees(gaps, bits, regionBlocks)
    requires HoldsRun(bits, regionBlocks, n, w, size)
    requires size == DivCeil(n, regionBlocks)
             || (size == DivCeil(n, regionBlocks) + 1
                 && forall i: nat :: !HoldsRun(bits, regionBlocks, n, i, DivCeil(n, regionBlocks)))
    ensures w + size <= |gaps| && size > 0
    ensures if size == 1 then gaps[w].max >= n else WindowFits(gaps, w, size, regionBlocks, n)
  {
    hide RegionStart, Summarizes, WindowFits, DivCeil, Agrees;
    AgreeingLength(gaps, bits, regionBlocks);
    var s: nat :| RegionStart(regionBlocks, w) <= s && s + n <= RegionStart(regionBlocks, w + size) &&
      FreeRun(bits, s, n);
    var i, j := SpanOf(regionBlocks, s, n, |gaps|);
    NeedsSome(n, regionBlocks);
    SpanSize(regionBlocks, s, n, i, j);
    SpanInside(regionBlocks, s, n, i, j, w, size);
    if j - i + 1 == DivCeil(n, regionBlocks) {
      assert HoldsRun(bits, regionBlocks, n, i, j - i + 1);
    }
    assert w == i && w + size == j + 1;
    if i == j {
      RegionFacts(gaps, bits, regionBlocks, i);
    } else {
      SpanFits(gaps, bits, regionBlocks, s, n, i, j);
    }
  }

  lemma SpanOf(regionBlocks: nat, s: nat, n: nat, count: nat) returns (i: nat, j: nat)
    requires regionBlocks > 0 && n > 0 && s + n <= RegionStart(regionBlocks, count)
    ensures i <= j < count && Spans(regionBlocks, s, n, i, j)
  {
    hide RegionStart;
    i := RegionOf(s, regionBlocks, count);
    j := RegionOf(s + n - 1, regionBlocks, count);
    if j < i {
      StartOrder(regionBlocks, j + 1, i);
    }
  }

  lemma SpanInside(regionBlocks: nat, s: nat, n: nat, i: nat, j: nat, w: nat, size: nat)
    requires regionBlocks > 0 && n > 0 && Spans(regionBlocks, s, n, i, j)
    requires RegionStart(regionBlocks, w) <= s && s + n <= RegionStart(regionBlocks, w + size)
    ensures w <= i && j + 1 <= w + size
  {
    hide RegionStart;
    if i < w {
      StartOrder(regionBlocks, i + 1, w);
    }
    if w + size <= j {
      StartOrder(regionBlocks, w + size, j);
    }
  }

  /** The window that the index finds is the first that the bits have. */
  lemma FoundIsFirst(gaps: seq<RegionGaps>, bits: seq<bool>, regionBlocks: nat, n: nat)
    requires 0 < regionBlocks <= LARGEST_SAFE_REGION && n > 0 && Agrees(gaps, bits, regionBlocks)
    requires FindFittingGap(gaps, regionBlocks, n).Some?
    ensures FirstWindow(bits, regionBlocks, n, FindFittingGap(gaps, regionBlocks, n).value)
  {
    hide RegionStart, Summarizes, WindowFits, DivCeil, Agrees, HoldsRun;
    var w, needed := FindFittingGap(gaps, regionBlocks, n).value, DivCeil(n, regionBlocks);
    var size := w.end - w.start;
    NeedsSome(n, regionBlocks);
    FoundIsRun(gaps, bits, regionBlocks, n);
    HoldsIs(bits, regionBlocks, n, w.start, size);
    SizeIsLeast(gaps, bits, regionBlocks, n);
    forall i: nat | HoldsRun(bits, regionBlocks, n, i, needed) ensures size == needed && w.start <= i {
      HolderFits(gaps, bits, regionBlocks, n, i, needed);
    }
    forall i: nat | i < w.start && size == needed + 1 ensures !HoldsRun(bits, regionBlocks, n, i, size) {
      if HoldsRun(bits, regionBlocks, n, i, size) {
        HolderFits(gaps, bits, regionBlocks, n, i, size);
      }
    }
  }

  /** The window has as many regions as needed or one more; a lone region is enough for what it holds. */
  lemma SizeIsLeast(gaps: seq<RegionGaps>, bits: seq<bool>, regionBlocks: nat, n: nat)
    requires regionBlocks > 0 && n > 0 && Agrees(gaps, bits, regionBlocks)
    requires FindFittingGap(gaps, regionBlocks, n).Some?
    ensures var w, needed := FindFittingGap(gaps, regionBlocks, n).value, DivCeil(n, regionBlocks);
            w.end == w.start + needed || (w.end == w.start + needed + 1 && |gaps| != 1)
  {
    hide RegionStart, Summarizes, WindowFits, Agrees;
    if |gaps| == 1 {
      RegionFacts(gaps, bits, regionBlocks, 0);
      OneRegionIsEnough(n, regionBlocks);
    }
  }

  lemma OneRegionIsEnough(n: nat, d: nat)
    requires 0 < n <= d
    ensures DivCeil(n, d) == 1
  {
    if DivCeil(n, d) >= 2 {
      MulMonotone(2, DivCeil(n, d), d);
    }
  }

  lemma HoldsIs(bits: seq<bool>, regionBlocks: nat, n: nat, w: nat, size: nat)
    ensures HoldsRun(bits, regionBlocks, n, w, size) <==>
            RunWithin(bits, n, RegionStart(regionBlocks, w), RegionStart(regionBlocks, w + size))
  {
  }

  /** The search finds a window whenever the bits have a run, for every bitmask and request. */
  ghost predicate Complete(regionBlocks: nat)
    requires regionBlocks > 0
  {
    forall gaps, bits, n: nat ::
      n > 0 && Agrees(gaps, bits, regionBlocks) && HasRun(bits, n) ==> FindFittingGap(gaps, regionBlocks, n).Some?
  }

  /** Two free regions that together overflow a `u16`: their run is not found. */
  lemma OverflowHidesRun(regionBlocks: nat)
    requires LARGEST_SAFE_REGION < regionBlocks < U16
    ensures var gaps, bits := [AllFreeGaps(regionBlocks), AllFreeGaps(regionBlocks)], seq(2 * regionBlocks, _ => false);
            && Agrees(gaps, bits, regionBlocks) && HasRun(bits, 2 * regionBlocks)
            && FindFittingGap(gaps, regionBlocks, 2 * regionBlocks).None?
  {
    var gaps, bits := [AllFreeGaps(regionBlocks), AllFreeGaps(regionBlocks)], seq(2 * regionBlocks, _ => false);
    forall r: nat | r < 2 ensures AgreesAt(gaps, bits, regionBlocks, r) {
      FreeRegion(Region(bits, regionBlocks, r));
    }
    assert FreeRun(bits, 0, 2 * regionBlocks);
    TwoRegions(regionBlocks);
  }

  lemma TwoRegions(regionBlocks: nat)
    requires regionBlocks > 0
    ensures DivCeil(2 * regionBlocks, regionBlocks) == 2 && RegionStart(regionBlocks, 2) == 2 * regionBlocks
    ensures RegionStart(regionBlocks, 0) == 0 && RegionStart(regionBlocks, 1) == regionBlocks
  {
    var needed := DivCeil(2 * regionBlocks, regionBlocks);
    if needed >= 3 {
      MulMonotone(3, needed, regionBlocks);
    } else if needed <= 1 {
      MulMonotone(needed, 1, regionBlocks);
    }
  }

  lemma FreeRegion(region: seq<bool>)
    requires forall k :: 0 <= k < |region| ==> !region[k]
    ensures Summarizes(AllFreeGaps(|region|), region)
  {
    PrefixIs(region, false, |region|);
    SuffixIs(region, false, |region|);
    assert FreeRun(region, 0, |region|);
  }

  lemma CompleteIffNoOverflow(regionBlocks: nat)
    requires 0 < regionBlocks < U16
    ensures Complete(regionBlocks) <==> regionBlocks <= LARGEST_SAFE_REGION
  {
    if regionBlocks <= LARGEST_SAFE_REGION {
      forall gaps, bits, n: nat | n > 0 && Agrees(gaps, bits, regionBlocks) && HasRun(bits, n)
        ensures FindFittingGap(gaps, regionBlocks, n).Some?
      {
        RunIsFound(gaps, bits, regionBlocks, n);
      }
    } else {
      OverflowHidesRun(regionBlocks);
    }
  }

  // ---------------------------------------------------------------------------------------
  // Trailing free blocks
  // ---------------------------------------------------------------------------------------

  lemma {:induction false} TrailingFreeIsSuffix(gaps: seq<RegionGaps>, bits: seq<bool>, regionBlocks: nat)
    requires Agrees(gaps, bits, regionBlocks)
    ensures TrailingFreeBlocks(gaps, regionBlocks) == SuffixOf(bits, false)
    decreases |gaps|
  {
    hide RegionStart, Summarizes, Agrees;
    if gaps == [] {
      StartNext(regionBlocks, 0);
      assert |bits| == 0 by { AgreeingLength(gaps, bits, regionBlocks); }
    } else {
      var n := |gaps| - 1;
      RegionFacts(gaps, bits, regionBlocks, n);
      AgreeingLength(gaps, bits, regionBlocks);
      var cut := RegionStart(regionBlocks, n);
      FewerAgree(gaps, bits, regionBlocks);
      TrailingFreeIsSuffix(gaps[..n], bits[..cut], regionBlocks);
      if gaps[n].trailing == regionBlocks {
        assert forall k :: cut <= k < |bits| ==> !bits[k];
        SuffixPastZeros(bits, cut);
      } else {
        SuffixIs(bits, false, gaps[n].trailing);
      }
    }
  }

  lemma AgreeingLength(gaps: seq<RegionGaps>, bits: seq<bool>, regionBlocks: nat)
    requires Agrees(gaps, bits, regionBlocks)
    ensures |bits| == RegionStart(regionBlocks, |gaps|)
  {
  }

  lemma FewerAgree(gaps: seq<RegionGaps>, bits: seq<bool>, regionBlocks: nat)
    requires Agrees(gaps, bits, regionBlocks) && gaps != []
    ensures RegionStart(regionBlocks, |gaps| - 1) <= |bits|
    ensures Agrees(gaps[..|gaps| - 1], bits[..RegionStart(regionBlocks, |gaps| - 1)], regionBlocks)
  {
    hide RegionStart, Summarizes;
    var n := |gaps| - 1;
    StartOrder(regionBlocks, n, n + 1);
    var cut := RegionStart(regionBlocks, n);
    forall r: nat | r < n ensures AgreesAt(gaps[..n], bits[..cut], regionBlocks, r) {
      assert gaps[..n][r] == gaps[r] && AgreesAt(gaps, bits, regionBlocks, r);
      StartNext(regionBlocks, r);
      StartOrder(regionBlocks, r + 1, n);
      assert Region(bits[..cut], regionBlocks, r) == Region(bits, regionBlocks, r);
    }
  }
}
