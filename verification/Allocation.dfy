/** Finding space for a value, creating pages when there is none, while a flusher may free blocks. */
module Allocation {
  import opened Wrappers
  import opened Layout
  import opened BitRuns
  import opened BitScan
  import opened GapIndex
  import opened BlockBitmask
  import opened PagedStore
  import opened GridTrace

  /** What a flusher frees in one go: ranges of blocks relative to a page. */
  datatype Batch = Batch(page: nat, ranges: seq<Range>)

  predicate BatchFits(c: Config, b: Batch, blocks: nat)
    requires c.blockBytes > 0
  {
    forall k :: 0 <= k < |b.ranges| ==>
      b.ranges[k].start <= b.ranges[k].end && b.page * c.PageBlocks() + b.ranges[k].end <= blocks
  }

  /** `bits` has the blocks of `before`, none of them newly used, followed by free ones. */
  ghost predicate Grown(before: seq<bool>, bits: seq<bool>, blocks: nat) {
    && |bits| == |before| + blocks
    && (forall b: nat :: b < |before| && bits[b] ==> before[b])
    && (forall b: nat :: |before| <= b < |bits| ==> !bits[b])
  }

  /**
   After that many pages, the blocks that were free at the end and those of the new pages form a run
   that is long enough, whatever was freed in between.
   */
  lemma PagesSuffice(c: Config, before: seq<bool>, bits: seq<bool>, n: nat, pages: nat)
    requires c.Valid()
    requires var trailing := SuffixOf(before, false);
             var missing := if n > trailing then n - trailing else 0;
             pages == DivCeil(missing * c.blockBytes, c.pageBytes)
    requires Grown(before, bits, TimesPages(c.PageBlocks(), pages))
    ensures HasRun(bits, n)
  {
    var trailing := SuffixOf(before, false);
    var missing := if n > trailing then n - trailing else 0;
    assert TimesPages(c.PageBlocks(), pages) >= missing by {
      hide SuffixOf, Grown;
      PagesCover(c, missing, pages);
    }
    var start := |before| - (if trailing < n then trailing else n);
    assert FreeRun(bits, start, n) by {
      hide TimesPages, DivCeil, SuffixOf;
      forall k | start <= k < start + n ensures !bits[k] {
        assert k < |before| ==> !before[k];
      }
    }
  }

  lemma PagesCover(c: Config, missing: nat, pages: nat)
    requires c.Valid() && pages == DivCeil(missing * c.blockBytes, c.pageBytes)
    ensures TimesPages(c.PageBlocks(), pages) >= missing
  {
    PageIsWholeRegions(c);
    assert missing * c.blockBytes <= pages * c.pageBytes;
    MulAssociative(pages, c.PageBlocks(), c.blockBytes);
    var blocks := TimesPages(c.PageBlocks(), pages);
    assert missing * c.blockBytes <= blocks * c.blockBytes;
    assert (blocks + 1) * c.blockBytes == blocks * c.blockBytes + c.blockBytes;
    if blocks < missing {
      MulMonotone(blocks + 1, missing, c.blockBytes);
    }
  }

  /** With one page less than were created, the blocks that were there would have had no run. */
  ghost predicate NoPageTooMany(c: Config, before: seq<bool>, n: nat, created: nat)
    requires c.blockBytes > 0
  {
    created > 0 ==> !HasRun(before + Zeros(TimesPages(c.PageBlocks(), created - 1)), n)
  }

  lemma NoPageIsFew(c: Config, before: seq<bool>, n: nat)
    requires c.blockBytes > 0
    ensures NoPageTooMany(c, before, n, 0)
  {
  }

  lemma FewerPagesFail(c: Config, before: seq<bool>, n: nat, pages: nat)
    requires c.Valid() && !HasRun(before, n)
    requires var trailing := SuffixOf(before, false);
             var missing := if n > trailing then n - trailing else 0;
             pages == DivCeil(missing * c.blockBytes, c.pageBytes)
    ensures NoPageTooMany(c, before, n, pages)
  {
    hide Config.PageBlocks, TimesPages, DivCeil;
    var trailing := SuffixOf(before, false);
    if pages > 0 {
      var missing := if n > trailing then n - trailing else 0;
      PagesAreLeast(c, missing, pages);
      NoLongerRun(before, TimesPages(c.PageBlocks(), pages - 1), n);
    }
  }

  lemma PagesAreLeast(c: Config, missing: nat, pages: nat)
    requires c.Valid() && pages == DivCeil(missing * c.blockBytes, c.pageBytes) && pages > 0
    ensures TimesPages(c.PageBlocks(), pages - 1) < missing
  {
    PageIsWholeRegions(c);
    assert pages * c.pageBytes < missing * c.blockBytes + c.pageBytes;
    assert pages * c.pageBytes == (pages - 1) * c.pageBytes + c.pageBytes;
    MulAssociative(pages - 1, c.PageBlocks(), c.blockBytes);
    var blocks := TimesPages(c.PageBlocks(), pages - 1);
    assert blocks * c.blockBytes < missing * c.blockBytes;
    if missing <= blocks {
      MulMonotone(missing, blocks, c.blockBytes);
    }
  }

  /** Free blocks at the end lengthen only the run that is there. */
  lemma NoLongerRun(before: seq<bool>, more: nat, n: nat)
    requires !HasRun(before, n) && SuffixOf(before, false) + more < n
    ensures !HasRun(before + Zeros(more), n)
  {
    var bits, trailing := before + Zeros(more), SuffixOf(before, false);
    forall s: nat ensures !FreeRun(bits, s, n) {
      if s + n <= |before| {
        assert !FreeRun(before, s, n);
        var k :| s <= k < s + n && before[k];
        assert bits[k];
      } else if s + n <= |bits| {
        assert bits[|before| - 1 - trailing];
      }
    }
  }

  /** `create_new_page`. */
  method CreateNewPage(bitmask: Bitmask, pages: Pages)
    requires bitmask.Valid() && pages.Valid() && bitmask.config == pages.config
    modifies bitmask`bits, bitmask`gaps, pages`pages
    ensures bitmask.Valid() && pages.Valid()
    ensures bitmask.bits == old(bitmask.bits) + Zeros(bitmask.config.PageBlocks())
    ensures |pages.pages| == |old(pages.pages)| + 1
    ensures pages.Bytes() == old(pages.Bytes()) + ZeroBytes(pages.config.pageBytes)
  {
    pages.AttachPage();
    bitmask.CoverNewPage();
  }

  /** A flusher thread that gets hold of the bitmask between two uses of it by a put. */
  method FreeInBetween(bitmask: Bitmask, batches: seq<Batch>, ghost before: seq<bool>, ghost blocks: nat)
    requires bitmask.Valid() && Grown(before, bitmask.bits, blocks)
    requires forall i :: 0 <= i < |batches| ==> BatchFits(bitmask.config, batches[i], |before|)
    modifies bitmask`bits, bitmask`gaps
    ensures bitmask.Valid() && Grown(before, bitmask.bits, blocks)
    ensures batches == [] ==> bitmask.bits == old(bitmask.bits)
  {
    for i := 0 to |batches|
      invariant bitmask.Valid() && Grown(before, bitmask.bits, blocks)
      invariant i == 0 ==> bitmask.bits == old(bitmask.bits)
    {
      ghost var was := bitmask.bits;
      assert BatchFits(bitmask.config, batches[i], |before|);
      bitmask.MarkBlocksBatch(batches[i].page, batches[i].ranges, false);
      FreeKeepsGrown(before, was, bitmask.bits, blocks, batches[i].page * bitmask.config.PageBlocks(),
        batches[i].ranges);
    }
  }

  lemma FreeKeepsGrown(before: seq<bool>, was: seq<bool>, bits: seq<bool>, blocks: nat, base: nat, ranges: seq<Range>)
    requires Grown(before, was, blocks) && Marked(was, bits, base, ranges, false)
    ensures Grown(before, bits, blocks)
  {
    hide InSome;
  }

  /**
   Space for `numBlocks` blocks, in new pages if need be. `freed(k)` is what a flusher frees while the
   bitmask is not locked for the `k`-th time. The result is `None` when the code's last `expect` fails;
   whatever is freed, that takes regions so large that the index overflows.
   */
  method FindOrCreateAvailableBlocks(bitmask: Bitmask, pages: Pages, numBlocks: nat, freed: nat -> seq<Batch>)
    returns (found: Option<(nat, nat)>, ghost created: nat)
    requires bitmask.Valid() && pages.Valid() && bitmask.config == pages.config && numBlocks > 0
    requires forall k, i :: 0 <= i < |freed(k)| ==> BatchFits(bitmask.config, freed(k)[i], |bitmask.bits|)
    modifies bitmask`bits, bitmask`gaps, pages`pages
    ensures bitmask.Valid() && pages.Valid()
    ensures found.Some? ==>
              && found.value.1 < bitmask.config.PageBlocks()
              && FreeRun(bitmask.bits, found.value.0 * bitmask.config.PageBlocks() + found.value.1, numBlocks)
    ensures found.None? ==> bitmask.config.regionBlocks > LARGEST_SAFE_REGION
    ensures bitmask.config.regionBlocks <= LARGEST_SAFE_REGION ==>
              && found.Some?
              && Chosen(bitmask.bits, bitmask.config.regionBlocks, numBlocks,
                        found.value.0 * bitmask.config.PageBlocks() + found.value.1)
              && (HasRun(old(bitmask.bits), numBlocks) ==> created == 0 && bitmask.bits == old(bitmask.bits))
              && NoPageTooMany(bitmask.config, old(bitmask.bits), numBlocks, created)
    ensures |pages.pages| == |old(pages.pages)| + created
    ensures Grown(old(bitmask.bits), bitmask.bits, TimesPages(bitmask.config.PageBlocks(), created))
    ensures (forall k :: freed(k) == []) ==>
              bitmask.bits == old(bitmask.bits) + Zeros(TimesPages(bitmask.config.PageBlocks(), created))
    ensures pages.Bytes() == old(pages.Bytes()) + ZeroBytes(TimesPages(pages.config.pageBytes, created))
  {
    hide Grown, TimesPages, FreeRun, HasRun, Chosen, NoPageTooMany, SuffixOf, DivCeil, Config.PageBlocks, BatchFits;
    var c := bitmask.config;
    ghost var before, bytes := bitmask.bits, pages.Bytes();
    created := 0;
    NothingGrown(before);
    PagesNext(c.PageBlocks(), 0);
    PagesNext(c.pageBytes, 0);
    assert before + Zeros(0) == before && bytes + ZeroBytes(0) == bytes;
    found := bitmask.FindAvailableBlocks(numBlocks);
    if found.Some? {
      NoPageIsFew(c, before, numBlocks);
      return;
    }
    var trailing := bitmask.GetTrailingFreeBlocks();
    var missing := if numBlocks > trailing then numBlocks - trailing else 0;
    var numPages := DivCeil(missing * c.blockBytes, c.pageBytes);
    for i := 0 to numPages
      invariant bitmask.Valid() && pages.Valid()
      invariant Grown(before, bitmask.bits, TimesPages(c.PageBlocks(), i))
      invariant (forall k :: freed(k) == []) ==> bitmask.bits == before + Zeros(TimesPages(c.PageBlocks(), i))
      invariant |pages.pages| == |old(pages.pages)| + i
      invariant pages.Bytes() == bytes + ZeroBytes(TimesPages(c.pageBytes, i))
    {
      FreeInBetween(bitmask, freed(i), before, TimesPages(c.PageBlocks(), i));
      ghost var was := bitmask.bits;
      CreateNewPage(bitmask, pages);
      PagesNext(c.PageBlocks(), i);
      PagesNext(c.pageBytes, i);
      GrowMore(before, was, TimesPages(c.PageBlocks(), i), c.PageBlocks());
      ZerosAdd(before, TimesPages(c.PageBlocks(), i), c.PageBlocks());
      ZeroBytesAdd(bytes, TimesPages(c.pageBytes, i), c.pageBytes);
    }
    created := numPages;
    FreeInBetween(bitmask, freed(numPages), before, TimesPages(c.PageBlocks(), numPages));
    PagesSuffice(c, before, bitmask.bits, numBlocks, numPages);
    if !HasRun(before, numBlocks) {
      FewerPagesFail(c, before, numBlocks, numPages);
    }
    found := bitmask.FindAvailableBlocks(numBlocks);
  }

  lemma NothingGrown(before: seq<bool>)
    ensures Grown(before, before, 0)
  {
  }

  lemma GrowMore(before: seq<bool>, was: seq<bool>, blocks: nat, more: nat)
    requires Grown(before, was, blocks)
    ensures Grown(before, was + Zeros(more), blocks + more)
  {
  }

  // ---------------------------------------------------------------------------------------
  // The `expect` is safe exactly when two regions cannot overflow a u16
  // ---------------------------------------------------------------------------------------

  /** How many pages the code creates for a request that it cannot place. */
  function PagesToCreate(c: Config, gaps: seq<RegionGaps>, n: nat): nat
    requires c.Valid()
  {
    var trailing := TrailingFreeBlocks(gaps, c.regionBlocks);
    DivCeil((if n > trailing then n - trailing else 0) * c.blockBytes, c.pageBytes)
  }

  function PageRegions(c: Config): nat
    requires c.blockBytes > 0 && c.regionBlocks > 0
  {
    c.PageBlocks() / c.regionBlocks
  }

  /** The index after `pages` new pages. */
  function WithPages(c: Config, gaps: seq<RegionGaps>, pages: nat): seq<RegionGaps>
    requires c.blockBytes > 0 && c.regionBlocks > 0
  {
    gaps + seq(TimesPages(PageRegions(c), pages), _ => AllFreeGaps(c.regionBlocks))
  }

  /** A request that is not placed at once is placed after the new pages. */
  ghost predicate ExpectHolds(c: Config, gaps: seq<RegionGaps>, n: nat)
    requires c.Valid() && n > 0
  {
    FindFittingGap(gaps, c.regionBlocks, n).None? ==>
      FindFittingGap(WithPages(c, gaps, PagesToCreate(c, gaps, n)), c.regionBlocks, n).Some?
  }

  ghost predicate AlwaysExpected(c: Config)
    requires c.Valid()
  {
    forall gaps, bits, n: nat :: n > 0 && Agrees(gaps, bits, c.regionBlocks) ==> ExpectHolds(c, gaps, n)
  }

  lemma RegionsInPages(c: Config, pages: nat)
    requires c.Valid()
    ensures var k := PageRegions(c);
            && k > 0 && c.PageBlocks() == RegionStart(c.regionBlocks, k)
            && RegionStart(c.regionBlocks, TimesPages(k, pages)) == TimesPages(c.PageBlocks(), pages)
  {
    PageIsWholeRegions(c);
    var k := PageRegions(c);
    assert c.PageBlocks() == c.regionBlocks * k;
    MulAssociative(pages, k, c.regionBlocks);
  }

  lemma ExpectIsSafe(c: Config, gaps: seq<RegionGaps>, bits: seq<bool>, n: nat)
    requires c.Valid() && c.regionBlocks <= LARGEST_SAFE_REGION && n > 0 && Agrees(gaps, bits, c.regionBlocks)
    ensures ExpectHolds(c, gaps, n)
  {
    hide Agrees, FindFittingGap, TimesPages, RegionStart, TrailingFreeBlocks, SuffixOf, Config.PageBlocks;
    var pages := PagesToCreate(c, gaps, n);
    TrailingFreeIsSuffix(gaps, bits, c.regionBlocks);
    RegionsInPages(c, pages);
    var k := TimesPages(PageRegions(c), pages);
    ExtendAgrees(gaps, bits, c.regionBlocks, k);
    NothingGrown(bits);
    GrowMore(bits, bits, 0, RegionStart(c.regionBlocks, k));
    PagesSuffice(c, bits, bits + Zeros(RegionStart(c.regionBlocks, k)), n, pages);
    assert seq(RegionStart(c.regionBlocks, k), _ => false) == Zeros(RegionStart(c.regionBlocks, k));
    RunIsFound(WithPages(c, gaps, pages), bits + Zeros(RegionStart(c.regionBlocks, k)), c.regionBlocks, n);
  }

  /** Only free regions, and so many blocks wanted that the ends of every window wrap: none fits. */
  lemma WrappedWindowsFail(gaps: seq<RegionGaps>, regionBlocks: nat, k: nat)
    requires LARGEST_SAFE_REGION < regionBlocks < U16 && k > 0
    requires forall i :: 0 <= i < |gaps| ==> gaps[i] == AllFreeGaps(regionBlocks)
    ensures RegionStart(regionBlocks, k + 1) > 0
    ensures FindFittingGap(gaps, regionBlocks, RegionStart(regionBlocks, k + 1)).None?
  {
    var n := RegionStart(regionBlocks, k + 1);
    StartNext(regionBlocks, k);
    StartNext(regionBlocks, k - 1);
    StartOrder(regionBlocks, 0, k - 1);
    WholeRegionsNeeded(regionBlocks, k + 1);
    assert (regionBlocks + regionBlocks) % U16 == regionBlocks + regionBlocks - U16;
    hide RegionStart, DivCeil;
    forall i: nat, size: nat | (size == k + 1 || size == k + 2) && i + size <= |gaps|
      ensures !WindowFits(gaps, i, size, regionBlocks, n)
    {
      assert gaps[i].trailing == regionBlocks && gaps[i + size - 1].leading == regionBlocks;
    }
  }

  lemma WholeRegionsNeeded(regionBlocks: nat, k: nat)
    requires regionBlocks > 0
    ensures DivCeil(RegionStart(regionBlocks, k), regionBlocks) == k
  {
    var needed := DivCeil(RegionStart(regionBlocks, k), regionBlocks);
    if needed > k {
      MulMonotone(k + 1, needed, regionBlocks);
    } else if needed < k {
      MulMonotone(needed + 1, k, regionBlocks);
    }
  }

  /** On a new store, a request for one region more than a page has fails, in every configuration with such regions. */
  lemma NewStoreFails(c: Config)
    requires c.Valid() && c.regionBlocks > LARGEST_SAFE_REGION
    ensures var gaps := WithPages(c, [], 1);
            && Agrees(gaps, Zeros(c.PageBlocks()), c.regionBlocks)
            && c.PageBlocks() + c.regionBlocks > 0 && !ExpectHolds(c, gaps, c.PageBlocks() + c.regionBlocks)
  {
    var k := PageRegions(c);
    RegionsInPages(c, 1);
    PagesNext(k, 0);
    PagesNext(c.PageBlocks(), 0);
    StartNext(c.regionBlocks, k);
    NoBits(c.regionBlocks);
    ExtendAgrees([], [], c.regionBlocks, k);
    var gaps := WithPages(c, [], 1);
    assert gaps == [] + seq(k, _ => AllFreeGaps(c.regionBlocks));
    assert Zeros(c.PageBlocks()) == [] + seq(RegionStart(c.regionBlocks, k), _ => false);
    hide RegionStart, TimesPages, Agrees, FindFittingGap, TrailingFreeBlocks, DivCeil, Config.PageBlocks;
    WrappedWindowsFail(gaps, c.regionBlocks, k);
    WrappedWindowsFail(WithPages(c, gaps, PagesToCreate(c, gaps, c.PageBlocks() + c.regionBlocks)), c.regionBlocks, k);
  }

  /** The `expect` holds for every state and request if and only if two gaps cannot overflow. */
  lemma ExpectIffNoOverflow(c: Config)
    requires c.Valid()
    ensures AlwaysExpected(c) <==> c.regionBlocks <= LARGEST_SAFE_REGION
  {
    hide ExpectHolds, Agrees, Config.PageBlocks, WithPages;
    if c.regionBlocks <= LARGEST_SAFE_REGION {
      forall gaps, bits, n: nat | n > 0 && Agrees(gaps, bits, c.regionBlocks) ensures ExpectHolds(c, gaps, n) {
        ExpectIsSafe(c, gaps, bits, n);
      }
    } else {
      NewStoreFails(c);
    }
  }
}
