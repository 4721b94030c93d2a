/** The bitmask of used blocks together with its index of gaps, updated in place. */
module BlockBitmask {
  import opened Wrappers
  import opened Layout
  import opened BitRuns
  import opened BitScan
  import opened GapIndex

  datatype Range = Range(start: nat, end: nat)

  function SetRange(bits: seq<bool>, lo: nat, hi: nat, used: bool): (r: seq<bool>)
    ensures |r| == |bits|
    ensures forall i :: 0 <= i < |bits| ==> r[i] == if lo <= i < hi then used else bits[i]
  {
    seq(|bits|, i requires 0 <= i < |bits| => if lo <= i < hi then used else bits[i])
  }

  predicate InSome(ranges: seq<Range>, base: nat, i: nat) {
    exists k :: 0 <= k < |ranges| && base + ranges[k].start <= i < base + ranges[k].end
  }

  /** `after` is `before` with exactly the blocks of the ranges, which are relative to `base`, set to `used`. */
  ghost predicate Marked(before: seq<bool>, after: seq<bool>, base: nat, ranges: seq<Range>, used: bool) {
    && |after| == |before|
    && forall i: nat :: i < |before| ==> after[i] == if InSome(ranges, base, i) then used else before[i]
  }

  /** The regions that a range of blocks touches. */
  function RegionsOf(lo: nat, hi: nat, regionBlocks: nat): (s: set<nat>)
    requires regionBlocks > 0
    ensures forall r: nat :: r in s <==> lo / regionBlocks <= r < DivCeil(hi, regionBlocks)
  {
    Below(DivCeil(hi, regionBlocks)) - Below(lo / regionBlocks)
  }

  ghost predicate AgreesExcept(gaps: seq<RegionGaps>, bits: seq<bool>, regionBlocks: nat, dirty: set<nat>) {
    && |bits| == RegionStart(regionBlocks, |gaps|)
    && (forall r: nat :: r < |gaps| && r !in dirty ==> AgreesAt(gaps, bits, regionBlocks, r))
    && (forall r :: r in dirty ==> r < |gaps|)
  }

  lemma RangeTouchesRegions(gaps: seq<RegionGaps>, bits: seq<bool>, regionBlocks: nat, dirty: set<nat>, lo: nat,
                            hi: nat, used: bool)
    requires regionBlocks > 0 && lo <= hi <= |bits| && AgreesExcept(gaps, bits, regionBlocks, dirty)
    ensures AgreesExcept(gaps, SetRange(bits, lo, hi, used), regionBlocks, dirty + RegionsOf(lo, hi, regionBlocks))
  {
    hide RegionStart, DivCeil, Summarizes, AgreesAt;
    var touched, after := RegionsOf(lo, hi, regionBlocks), SetRange(bits, lo, hi, used);
    RangeBounds(regionBlocks, lo, hi, |gaps|);
    forall r: nat | r < |gaps| && r !in dirty + touched ensures AgreesAt(gaps, after, regionBlocks, r) {
      assert AgreesAt(gaps, bits, regionBlocks, r);
      RegionUntouched(gaps, bits, regionBlocks, lo, hi, used, r, lo / regionBlocks, DivCeil(hi, regionBlocks));
    }
  }

  lemma RangeBounds(regionBlocks: nat, lo: nat, hi: nat, count: nat)
    requires regionBlocks > 0 && lo <= hi <= RegionStart(regionBlocks, count)
    ensures RegionStart(regionBlocks, lo / regionBlocks) <= lo
    ensures hi <= RegionStart(regionBlocks, DivCeil(hi, regionBlocks))
    ensures DivCeil(hi, regionBlocks) <= count
  {
    assert lo == regionBlocks * (lo / regionBlocks) + lo % regionBlocks;
    var end := DivCeil(hi, regionBlocks);
    assert hi <= RegionStart(regionBlocks, end) < hi + regionBlocks;
    hide RegionStart, DivCeil;
    if end > count {
      StartNext(regionBlocks, end - 1);
      StartOrder(regionBlocks, count, end - 1);
    }
  }

  lemma RegionUntouched(gaps: seq<RegionGaps>, bits: seq<bool>, regionBlocks: nat, lo: nat, hi: nat, used: bool, r: nat,
                        first: nat, end: nat)
    requires regionBlocks > 0 && lo <= hi <= |bits| && r < |gaps| && AgreesAt(gaps, bits, regionBlocks, r)
    requires RegionStart(regionBlocks, first) <= lo && hi <= RegionStart(regionBlocks, end)
    requires r < first || end <= r
    ensures AgreesAt(gaps, SetRange(bits, lo, hi, used), regionBlocks, r)
  {
    hide RegionStart, Summarizes;
    if r < first {
      StartNext(regionBlocks, r);
      StartOrder(regionBlocks, r + 1, first);
    } else {
      StartOrder(regionBlocks, end, r);
    }
    assert Region(SetRange(bits, lo, hi, used), regionBlocks, r) == Region(bits, regionBlocks, r);
  }

  lemma MarkedOneMore(before: seq<bool>, after: seq<bool>, base: nat, ranges: seq<Range>, n: nat, used: bool)
    requires n < |ranges| && Marked(before, after, base, ranges[..n], used)
    ensures Marked(before, SetRange(after, base + ranges[n].start, base + ranges[n].end, used),
                   base, ranges[..n + 1], used)
  {
    forall i: nat ensures InSome(ranges[..n + 1], base, i) <==>
      InSome(ranges[..n], base, i) || base + ranges[n].start <= i < base + ranges[n].end
    {
      if InSome(ranges[..n], base, i) {
        var k :| 0 <= k < n && base + ranges[..n][k].start <= i < base + ranges[..n][k].end;
        assert ranges[..n + 1][k] == ranges[k];
      }
      if base + ranges[n].start <= i < base + ranges[n].end {
        assert ranges[..n + 1][n] == ranges[n];
      }
    }
  }

  lemma WindowIsWholeWords(regionBlocks: nat, a: nat, b: nat)
    requires regionBlocks % 64 == 0 && a <= b
    ensures RegionStart(regionBlocks, a) <= RegionStart(regionBlocks, b)
    ensures (RegionStart(regionBlocks, b) - RegionStart(regionBlocks, a)) % 64 == 0
  {
    var k := regionBlocks / 64;
    StartOrder(regionBlocks, a, b);
    assert RegionStart(regionBlocks, b) - RegionStart(regionBlocks, a) == 64 * (k * (b - a));
  }

  /** The page that holds a block of the bitmask, and the block's offset in it. */
  function Translate(offset: nat, pageBlocks: nat): (r: (nat, nat))
    requires pageBlocks > 0
    ensures r.1 < pageBlocks && r.0 * pageBlocks + r.1 == offset
  {
    (offset / pageBlocks, offset % pageBlocks)
  }

  lemma ExtendAgrees(gaps: seq<RegionGaps>, bits: seq<bool>, regionBlocks: nat, n: nat)
    requires Agrees(gaps, bits, regionBlocks)
    ensures var more := seq(RegionStart(regionBlocks, n), _ => false);
            Agrees(gaps + seq(n, _ => AllFreeGaps(regionBlocks)), bits + more, regionBlocks)
  {
    hide RegionStart, Summarizes;
    StartAdd(regionBlocks, |gaps|, n);
    var after := gaps + seq(n, _ => AllFreeGaps(regionBlocks));
    var all := bits + seq(RegionStart(regionBlocks, n), _ => false);
    forall r: nat | r < |after| ensures AgreesAt(after, all, regionBlocks, r) {
      StartNext(regionBlocks, r);
      StartOrder(regionBlocks, r + 1, |after|);
      if r < |gaps| {
        assert AgreesAt(gaps, bits, regionBlocks, r);
        assert Region(all, regionBlocks, r) == Region(bits, regionBlocks, r);
      } else {
        StartOrder(regionBlocks, |gaps|, r);
        FreeRegion(Region(all, regionBlocks, r));
      }
    }
  }

  lemma NoBits(regionBlocks: nat)
    ensures Agrees([], [], regionBlocks)
  {
  }

  predicate WholePages(c: Config, blocks: nat)
    requires c.blockBytes > 0
  {
    c.PageBlocks() > 0 && blocks % c.PageBlocks() == 0
  }

  /** How many regions a whole number of pages holds. */
  lemma RegionsIn(c: Config, blocks: nat)
    requires c.Valid() && WholePages(c, blocks)
    ensures RegionStart(c.regionBlocks, blocks / c.regionBlocks) == blocks
  {
    PageIsWholeRegions(c);
    var k, m := blocks / c.PageBlocks(), c.PageBlocks() / c.regionBlocks;
    assert blocks == (c.regionBlocks * m) * k;
    MulAssociative(c.regionBlocks, m, k);
    QuotientIs(blocks, c.regionBlocks, m * k);
  }

  class Bitmask {
    const config: Config
    /** One bit per block of every page: set when the block is used. */
    var bits: seq<bool>
    var gaps: seq<RegionGaps>

    /** The index is the truth about the bits, which cover whole pages. */
    ghost predicate Valid()
      reads this
    {
      && config.Valid() && config.regionBlocks % 64 == 0
      && WholePages(config, |bits|)
      && Agrees(gaps, bits, config.regionBlocks)
    }

    constructor (config: Config)
      requires config.Valid() && config.regionBlocks % 64 == 0
      ensures Valid() && this.config == config
      ensures bits == seq(config.PageBlocks(), _ => false)
    {
      this.config := config;
      var numRegions := config.PageBlocks() / config.regionBlocks;
      PageIsWholeRegions(config);
      bits := seq(config.PageBlocks(), _ => false);
      gaps := seq(numRegions, _ => AllFreeGaps(config.regionBlocks));
      new;
      RegionsIn(config, config.PageBlocks());
      NoBits(config.regionBlocks);
      ExtendAgrees([], [], config.regionBlocks, numRegions);
      assert [] + bits == bits && [] + gaps == gaps;
    }

    method UpdateRegionGaps(dirtyRegions: set<nat>)
      requires config.Valid() && config.regionBlocks % 64 == 0
      requires AgreesExcept(gaps, bits, config.regionBlocks, dirtyRegions)
      modifies this`gaps
      ensures Agrees(gaps, bits, config.regionBlocks)
    {
      hide RegionStart, Summarizes;
      var dirty := dirtyRegions;
      while dirty != {}
        invariant AgreesExcept(gaps, bits, config.regionBlocks, dirty)
        decreases |dirty|
      {
        var r :| r in dirty;
        var first := RegionStart(config.regionBlocks, r);
        StartNext(config.regionBlocks, r);
        StartOrder(config.regionBlocks, r + 1, |gaps|);
        var found := CalculateGaps(bits[first..first + config.regionBlocks]);
        ghost var before := gaps;
        gaps := gaps[r := found];
        forall x: nat | x < |gaps| && x !in dirty - {r} ensures AgreesAt(gaps, bits, config.regionBlocks, x) {
          if x != r {
            assert AgreesAt(before, bits, config.regionBlocks, x);
          }
        }
        dirty := dirty - {r};
      }
    }

    /** Marks ranges of blocks, relative to a page, and brings the index up to date once. */
    method MarkBlocksBatch(page: nat, ranges: seq<Range>, used: bool)
      requires Valid()
      requires forall k :: 0 <= k < |ranges| ==>
                 ranges[k].start <= ranges[k].end && page * config.PageBlocks() + ranges[k].end <= |bits|
      modifies this`bits, this`gaps
      ensures Valid() && Marked(old(bits), bits, page * config.PageBlocks(), ranges, used)
    {
      hide RegionStart, Summarizes, DivCeil, SetRange, RegionsOf;
      var base := page * config.PageBlocks();
      var dirtyRegions: set<nat> := {};
      var n := 0;
      while n < |ranges|
        invariant n <= |ranges| && |bits| == |old(bits)| && gaps == old(gaps)
        invariant AgreesExcept(gaps, bits, config.regionBlocks, dirtyRegions)
        invariant Marked(old(bits), bits, base, ranges[..n], used)
      {
        var lo, hi := base + ranges[n].start, base + ranges[n].end;
        RangeTouchesRegions(gaps, bits, config.regionBlocks, dirtyRegions, lo, hi, used);
        MarkedOneMore(old(bits), bits, base, ranges, n, used);
        bits := SetRange(bits, lo, hi, used);
        dirtyRegions := dirtyRegions + RegionsOf(lo, hi, config.regionBlocks);
        n := n + 1;
      }
      assert ranges[..n] == ranges;
      UpdateRegionGaps(dirtyRegions);
    }

    method MarkBlocks(page: nat, block: nat, numBlocks: nat, used: bool)
      requires Valid() && page * config.PageBlocks() + block + numBlocks <= |bits|
      modifies this`bits, this`gaps
      ensures Valid()
      ensures var lo := page * config.PageBlocks() + block;
              bits == SetRange(old(bits), lo, lo + numBlocks, used)
    {
      var ranges := [Range(block, block + numBlocks)];
      MarkBlocksBatch(page, ranges, used);
      var lo := page * config.PageBlocks() + block;
      assert forall i: nat :: InSome(ranges, page * config.PageBlocks(), i) <==> lo <= i < lo + numBlocks by {
        assert ranges[0] == Range(block, block + numBlocks);
      }
    }

    /** Extends the bits and the index to cover another page of free blocks. */
    method CoverNewPage()
      requires Valid()
      modifies this`bits, this`gaps
      ensures Valid() && bits == old(bits) + seq(config.PageBlocks(), _ => false)
    {
      hide RegionStart, Summarizes, Agrees, Config.PageBlocks;
      ghost var before, count := bits, |gaps|;
      AgreeingLength(gaps, bits, config.regionBlocks);
      RegionsIn(config, |bits|);
      PageIsWholeRegions(config);
      NextPage(|bits|, config.PageBlocks());
      bits := bits + seq(config.PageBlocks(), _ => false);
      RegionsIn(config, |bits|);
      var expected := |bits| / config.regionBlocks;
      var newRegions := SaturatingSub(expected, |gaps|);
      NewRegions(config.regionBlocks, count, |before|, expected, |bits|);
      ExtendAgrees(gaps, before, config.regionBlocks, newRegions);
      assert before + seq(RegionStart(config.regionBlocks, newRegions), _ => false) == bits;
      gaps := gaps + seq(newRegions, _ => AllFreeGaps(config.regionBlocks));
    }

    /**
     A page and block where `numBlocks` blocks in a row are free, possibly running into the next
     pages. Provided the region is not so large that the index can overflow, nothing is found exactly
     when there is no such run, and what is found is the first place in the first window of regions.
     */
    method FindAvailableBlocks(numBlocks: nat) returns (found: Option<(nat, nat)>)
      requires Valid() && numBlocks > 0
      ensures found.Some? ==>
                && found.value.1 < config.PageBlocks()
                && FreeRun(bits, found.value.0 * config.PageBlocks() + found.value.1, numBlocks)
      ensures config.regionBlocks <= LARGEST_SAFE_REGION ==>
                match found
                case None => !HasRun(bits, numBlocks)
                case Some((page, block)) =>
                  Chosen(bits, config.regionBlocks, numBlocks, page * config.PageBlocks() + block)
    {
      hide RegionStart, Summarizes, Agrees, FindFittingGap, FreeRun, NoneBefore, HasRun, RunWithin, Translate,
        FirstWindow, Chosen, Config.PageBlocks;
      var window := FindFittingGap(gaps, config.regionBlocks, numBlocks);
      if window.None? {
        if config.regionBlocks <= LARGEST_SAFE_REGION && HasRun(bits, numBlocks) {
          RunIsFound(gaps, bits, config.regionBlocks, numBlocks);
        }
        return None;
      }
      FoundIsRun(gaps, bits, config.regionBlocks, numBlocks);
      AgreeingLength(gaps, bits, config.regionBlocks);
      StartOrder(config.regionBlocks, window.value.end, |gaps|);
      StartOrder(config.regionBlocks, window.value.start, window.value.end);
      var from := RegionStart(config.regionBlocks, window.value.start);
      var upTo := RegionStart(config.regionBlocks, window.value.end);
      WindowIsWholeWords(config.regionBlocks, window.value.start, window.value.end);
      var local := FindAvailableBlocksInSlice(bits[from..upTo], numBlocks);
      RunInSlice(bits, from, upTo, numBlocks);
      SliceRun(bits, from, upTo, local.value, numBlocks);
      PageIsWholeRegions(config);
      if config.regionBlocks <= LARGEST_SAFE_REGION {
        FoundIsFirst(gaps, bits, config.regionBlocks, numBlocks);
        SliceIsPlace(bits, config.regionBlocks, numBlocks, window.value, local.value);
      }
      return Some(Translate(local.value + from, config.PageBlocks()));
    }

    method GetTrailingFreeBlocks() returns (n: nat)
      requires Valid()
      ensures n == SuffixOf(bits, false)
    {
      TrailingFreeIsSuffix(gaps, bits, config.regionBlocks);
      n := TrailingFreeBlocks(gaps, config.regionBlocks);
    }
  }

  lemma NextPage(blocks: nat, pageBlocks: nat)
    requires pageBlocks > 0 && blocks % pageBlocks == 0
    ensures (blocks + pageBlocks) % pageBlocks == 0
  {
    QuotientIs(blocks + pageBlocks, pageBlocks, blocks / pageBlocks + 1);
  }

  lemma NewRegions(regionBlocks: nat, count: nat, before: nat, expected: nat, after: nat)
    requires regionBlocks > 0 && before <= after
    requires RegionStart(regionBlocks, count) == before && RegionStart(regionBlocks, expected) == after
    ensures count <= expected && RegionStart(regionBlocks, expected - count) == after - before
  {
    if expected < count {
      StartAdd(regionBlocks, expected, count - expected);
      MulMonotone(1, count - expected, regionBlocks);
    }
    StartAdd(regionBlocks, count, expected - count);
  }

  lemma RunInSlice(bits: seq<bool>, from: nat, end: nat, n: nat)
    requires from <= end <= |bits| && RunWithin(bits, n, from, end)
    ensures HasRun(bits[from..end], n)
  {
    var s: nat :| from <= s && s + n <= end && FreeRun(bits, s, n);
    assert FreeRun(bits[from..end], s - from, n);
  }

  /** The first place in the slice of the first window is the chosen one. */
  lemma SliceIsPlace(bits: seq<bool>, regionBlocks: nat, n: nat, w: Window, s: nat)
    requires regionBlocks > 0 && FirstWindow(bits, regionBlocks, n, w)
    requires RegionStart(regionBlocks, w.start) <= RegionStart(regionBlocks, w.end) <= |bits|
    requires var slice := bits[RegionStart(regionBlocks, w.start)..RegionStart(regionBlocks, w.end)];
             FreeRun(slice, s, n) && NoneBefore(slice, n, s)
    ensures Chosen(bits, regionBlocks, n, s + RegionStart(regionBlocks, w.start))
  {
    hide FirstWindow, RegionStart;
    var from, end := RegionStart(regionBlocks, w.start), RegionStart(regionBlocks, w.end);
    SliceRun(bits, from, end, s, n);
    forall t: nat | from <= t && t + n <= end && FreeRun(bits, t, n) ensures from + s <= t {
      assert FreeRun(bits[from..end], t - from, n);
    }
    assert IsPlace(bits, regionBlocks, n, w, s + from);
  }

  lemma SliceRun(bits: seq<bool>, from: nat, end: nat, s: nat, n: nat)
    requires from <= end <= |bits| && FreeRun(bits[from..end], s, n)
    ensures FreeRun(bits, from + s, n)
  {
    assert forall k :: from <= k < end ==> bits[k] == bits[from..end][k - from];
  }
}
