/** The two word-at-a-time scans of the bitmask. */
module BitScan {
  import opened Wrappers
  import opened BitRuns

  /**
   The least start of `numBlocks` consecutive zero bits, if there is one. Words whose zeros in the
   middle cannot be enough are passed over by looking only at their two ends.
   */
  method FindAvailableBlocksInSlice(bits: seq<bool>, numBlocks: nat) returns (found: Option<nat>)
    requires |bits| % 64 == 0
    ensures found.Some? ==> FreeRun(bits, found.value, numBlocks) && NoneBefore(bits, numBlocks, found.value)
    ensures found.None? ==> !HasRun(bits, numBlocks)
  {
    hide FreeRun, NoneBefore, HasRun, ShowsRight, ShowsLeft, IsZero, IsAllOnes, WordAt, ShiftRight,
      TrailingZeros, LeadingZeros, TrailingOnes, SaturatingSub;
    var currentSize: nat, currentStart: nat, numShifts: nat := 0, 0, 0;
    assert FreeRun(bits, 0, 0) && NoneBefore(bits, numBlocks, 0) by { NothingBefore(bits, numBlocks); }
    var index := 0;
    while index < |bits| / 64
      invariant index <= |bits| / 64 && numShifts == 0
      invariant currentStart + currentSize == WordStart(index)
      invariant FreeRun(bits, currentStart, currentSize)
      invariant NoneBefore(bits, numBlocks, currentStart)
    {
      ghost var base := WordStart(index);
      var chunk := WordAt(bits, index);
      WordShows(bits, index);
      index := index + 1;
      if IsZero(chunk) {
        ZerosRight(bits, base, 0, chunk, currentStart);
        currentSize := currentSize + WORD_BITS;
        continue;
      }
      if IsAllOnes(chunk) {
        if currentSize >= numBlocks {
          ShrinkRun(bits, currentStart, currentSize, numBlocks);
          return Some(currentStart);
        }
        SkipFullWord(bits, base, chunk, numBlocks, currentStart);
        currentSize := 0;
        currentStart := WordStart(index);
        continue;
      }
      var leading := TrailingZeros(chunk);
      var trailing := LeadingZeros(chunk);
      EndsApart(chunk);
      var maxPossibleMiddleGap := SaturatingSub(WORD_BITS - leading - trailing, 2);
      if numBlocks > maxPossibleMiddleGap {
        ZerosRight(bits, base, 0, chunk, currentStart);
        currentSize := currentSize + leading;
        if currentSize >= numBlocks {
          ShrinkRun(bits, currentStart, currentSize, numBlocks);
          return Some(currentStart);
        }
        ShrinkRun(bits, currentStart, currentSize, currentSize - leading);
        SkipWordRight(bits, base, chunk, numBlocks, currentStart);
        currentSize := trailing;
        currentStart := WordStart(index - 1) + WORD_BITS - trailing;
        continue;
      }
      while !IsZero(chunk)
        invariant ShowsRight(bits, base, numShifts, chunk) && numShifts <= WORD_BITS && !IsAllOnes(chunk)
        invariant currentStart + currentSize == base + numShifts
        invariant FreeRun(bits, currentStart, currentSize)
        invariant NoneBefore(bits, numBlocks, currentStart)
        decreases WORD_BITS - numShifts
      {
        var numZeros := TrailingZeros(chunk);
        ZerosRight(bits, base, numShifts, chunk, currentStart);
        currentSize := currentSize + numZeros;
        if currentSize >= numBlocks {
          ShrinkRun(bits, currentStart, currentSize, numBlocks);
          return Some(currentStart);
        }
        ShiftShowsRight(bits, base, numShifts, chunk, numZeros);
        chunk := ShiftRight(chunk, numZeros);
        numShifts := numShifts + numZeros;
        var numOnes := TrailingOnes(chunk);
        SkipOnesRight(bits, base, numShifts, chunk, numBlocks, currentStart);
        if numOnes < WORD_BITS {
          chunk := ShiftRight(chunk, numOnes);
        } else {
          chunk := ShiftRight(chunk, WORD_BITS);
        }
        numShifts := numShifts + numOnes;
        currentSize := 0;
        currentStart := WordStart(index - 1) + numShifts;
      }
      ZerosRight(bits, base, numShifts, chunk, currentStart);
      currentSize := currentSize + (WORD_BITS - numShifts);
      numShifts := 0;
    }
    if currentSize >= numBlocks {
      ShrinkRun(bits, currentStart, currentSize, numBlocks);
      return Some(currentStart);
    }
    NoRoom(bits, numBlocks, currentStart);
    return None;
  }

  lemma NothingBefore(bits: seq<bool>, n: nat)
    ensures FreeRun(bits, 0, 0) && NoneBefore(bits, n, 0)
  {
  }

  lemma SkipFullWord(bits: seq<bool>, base: nat, chunk: Word, n: nat, start: nat)
    requires ShowsRight(bits, base, 0, chunk) && IsAllOnes(chunk)
    requires start <= base && NoneBefore(bits, n, start) && base - start < n
    ensures FreeRun(bits, base + WORD_BITS, 0) && NoneBefore(bits, n, base + WORD_BITS)
  {
    forall k | base <= k < base + WORD_BITS ensures bits[k] {
      assert chunk[k - base];
    }
    SkipOneBits(bits, n, start, base, base + WORD_BITS);
  }

  /** The ones at the low end of a shifted word end a run that is too short. */
  lemma SkipOnesRight(bits: seq<bool>, base: nat, shifts: nat, chunk: Word, n: nat, start: nat)
    requires ShowsRight(bits, base, shifts, chunk) && shifts < WORD_BITS && bits[base + shifts]
    requires start <= base + shifts && NoneBefore(bits, n, start) && base + shifts - start < n
    ensures var o := TrailingOnes(chunk);
            && 0 < o && shifts + o <= WORD_BITS && ShowsRight(bits, base, shifts + o, ShiftRight(chunk, o))
            && !IsAllOnes(ShiftRight(chunk, o))
            && FreeRun(bits, base + shifts + o, 0) && NoneBefore(bits, n, base + shifts + o)
  {
    var o := TrailingOnes(chunk);
    OnesRight(bits, base, shifts, chunk);
    assert chunk[0];
    ShiftShowsRight(bits, base, shifts, chunk, o);
    assert !ShiftRight(chunk, o)[WORD_BITS - 1];
    SkipOneBits(bits, n, start, base + shifts, base + shifts + o);
  }

  // ---------------------------------------------------------------------------------------
  // The summary of a region
  // ---------------------------------------------------------------------------------------

  /** The longest run of free blocks in a region and the runs at its two ends; each is stored as a `u16`. */
  datatype RegionGaps = RegionGaps(max: nat, leading: nat, trailing: nat)

  function AllFreeGaps(blocks: nat): RegionGaps {
    RegionGaps(blocks, blocks, blocks)
  }

  /** `g` is the truth about `region`, bit by bit. */
  ghost predicate Summarizes(g: RegionGaps, region: seq<bool>) {
    && g.leading == PrefixOf(region, false)
    && g.trailing == SuffixOf(region, false)
    && HasRun(region, g.max) && NoLonger(region, 0, g.max)
  }

  /** Adds up `trailing_zeros` of the words from `index` on, up to and including the first that is not zero. */
  function SumFromStart(region: seq<bool>, index: nat): nat
    requires |region| % 64 == 0 && WordStart(index) <= |region|
    decreases |region| - WordStart(index)
  {
    if WordStart(index) == |region| then 0
    else
      var word := WordAt(region, index);
      TrailingZeros(word) + if IsZero(word) then SumFromStart(region, index + 1) else 0
  }

  /** Adds up `leading_zeros` of the words before `index`, backwards, down to the first that is not zero. */
  function SumFromEnd(region: seq<bool>, index: nat): nat
    requires |region| % 64 == 0 && WordStart(index) <= |region|
    decreases index
  {
    if index == 0 then 0
    else
      var word := WordAt(region, index - 1);
      LeadingZeros(word) + if IsZero(word) then SumFromEnd(region, index - 1) else 0
  }

  lemma {:induction false} SumFromStartIsPrefix(region: seq<bool>, index: nat)
    requires |region| % 64 == 0 && WordStart(index) <= |region|
    ensures SumFromStart(region, index) == PrefixOf(region[WordStart(index)..], false)
    decreases |region| - WordStart(index)
  {
    if WordStart(index) < |region| {
      var word, rest := WordAt(region, index), region[WordStart(index)..];
      assert word == rest[..WORD_BITS];
      if IsZero(word) {
        SumFromStartIsPrefix(region, index + 1);
        assert region[WordStart(index + 1)..] == rest[WORD_BITS..];
        PrefixPastZeros(rest, WORD_BITS);
      } else {
        PrefixWithin(rest, WORD_BITS);
      }
    }
  }

  lemma PrefixPastZeros(s: seq<bool>, n: nat)
    requires n <= |s| && IsZero(s[..n])
    ensures PrefixOf(s[..n], false) == n && PrefixOf(s, false) == n + PrefixOf(s[n..], false)
  {
    hide PrefixOf;
    PrefixIs(s[..n], false, n);
    var z := PrefixOf(s[n..], false);
    assert forall k :: 0 <= k < n ==> s[k] == s[..n][k];
    assert forall k :: n <= k < |s| ==> s[k] == s[n..][k - n];
    PrefixIs(s, false, n + z);
  }

  lemma PrefixWithin(s: seq<bool>, n: nat)
    requires n <= |s| && !IsZero(s[..n])
    ensures PrefixOf(s[..n], false) == PrefixOf(s, false)
  {
    hide PrefixOf;
    var z := PrefixOf(s[..n], false);
    assert forall k :: 0 <= k < n ==> s[k] == s[..n][k];
    PrefixIs(s, false, z);
  }

  lemma {:induction false} SumFromEndIsSuffix(region: seq<bool>, index: nat)
    requires |region| % 64 == 0 && WordStart(index) <= |region|
    ensures SumFromEnd(region, index) == SuffixOf(region[..WordStart(index)], false)
  {
    if index > 0 {
      var word, rest := WordAt(region, index - 1), region[..WordStart(index)];
      var cut := WordStart(index - 1);
      assert word == rest[cut..];
      if IsZero(word) {
        SumFromEndIsSuffix(region, index - 1);
        assert region[..cut] == rest[..cut];
        SuffixPastZeros(rest, cut);
      } else {
        SuffixWithin(rest, cut);
      }
    }
  }

  lemma SuffixPastZeros(s: seq<bool>, n: nat)
    requires n <= |s| && IsZero(s[n..])
    ensures SuffixOf(s[n..], false) == |s| - n && SuffixOf(s, false) == |s| - n + SuffixOf(s[..n], false)
  {
    hide SuffixOf;
    SuffixIs(s[n..], false, |s| - n);
    var z := SuffixOf(s[..n], false);
    assert forall k :: n <= k < |s| ==> s[k] == s[n..][k - n];
    assert forall k :: 0 <= k < n ==> s[k] == s[..n][k];
    SuffixIs(s, false, |s| - n + z);
  }

  lemma SuffixWithin(s: seq<bool>, n: nat)
    requires n <= |s| && !IsZero(s[n..])
    ensures SuffixOf(s[n..], false) == SuffixOf(s, false)
  {
    var z := SuffixOf(s[n..], false);
    assert forall k :: n <= k < |s| ==> s[k] == s[n..][k - n];
    SuffixIs(s, false, z);
  }

  // ---------------------------------------------------------------------------------------
  // Scanning backwards
  // ---------------------------------------------------------------------------------------

  /**
   The zeros that `current` counts start at `from` and end at a one or at the end; `max` is the maximum
   behind them.
   */
  ghost predicate Scanned(bits: seq<bool>, from: nat, current: nat, max: nat) {
    && FreeRun(bits, from, current)
    && (from + current == |bits| || bits[from + current])
    && HasRun(bits, max) && NoLonger(bits, from + current, max)
  }

  lemma ScanNothing(bits: seq<bool>)
    ensures Scanned(bits, |bits|, 0, 0)
  {
    assert FreeRun(bits, 0, 0);
  }

  lemma ExtendScan(bits: seq<bool>, from: nat, current: nat, max: nat, more: nat)
    requires Scanned(bits, from, current, max) && more <= from
    requires forall k :: from - more <= k < from ==> !bits[k]
    ensures Scanned(bits, from - more, current + more, max)
  {
  }

  /** Ones before the current run complete it. */
  lemma CloseScan(bits: seq<bool>, from: nat, current: nat, max: nat, to: nat)
    requires Scanned(bits, from, current, max) && to < from
    requires forall k :: to <= k < from ==> bits[k]
    ensures Scanned(bits, to, 0, Max(max, current))
  {
    CloseRun(bits, from, current, max);
    AddOnes(bits, to, from, Max(max, current));
    assert FreeRun(bits, from, current);
  }

  lemma FinishScan(bits: seq<bool>, current: nat, max: nat)
    requires Scanned(bits, 0, current, max)
    ensures HasRun(bits, Max(max, current)) && NoLonger(bits, 0, Max(max, current))
    ensures Max(max, current) <= |bits|
  {
    CloseRun(bits, 0, current, max);
    assert FreeRun(bits, 0, current);
    var s: nat :| FreeRun(bits, s, max);
  }

  lemma ZeroWordLeft(bits: seq<bool>, base: nat, shifts: nat, chunk: Word, current: nat, max: nat)
    requires ShowsLeft(bits, base, shifts, chunk) && IsZero(chunk)
    requires Scanned(bits, base + WORD_BITS - shifts, current, max)
    ensures Scanned(bits, base, current + (WORD_BITS - shifts), max)
  {
    forall k | base <= k < base + WORD_BITS - shifts ensures !bits[k] {
      assert !chunk[k - base + shifts];
    }
    ExtendScan(bits, base + WORD_BITS - shifts, current, max, WORD_BITS - shifts);
  }

  lemma FullWordLeft(bits: seq<bool>, base: nat, chunk: Word, current: nat, max: nat)
    requires ShowsLeft(bits, base, 0, chunk) && IsAllOnes(chunk)
    requires Scanned(bits, base + WORD_BITS, current, max)
    ensures Scanned(bits, base, 0, Max(max, current))
  {
    forall k | base <= k < base + WORD_BITS ensures bits[k] {
      assert chunk[k - base];
    }
    CloseScan(bits, base + WORD_BITS, current, max, base);
  }

  /** The zeros at the high end of a shifted word extend the current run. */
  lemma ZerosLeft(bits: seq<bool>, base: nat, shifts: nat, chunk: Word, current: nat, max: nat)
    requires ShowsLeft(bits, base, shifts, chunk) && !IsZero(chunk)
    requires Scanned(bits, base + WORD_BITS - shifts, current, max)
    ensures var z := LeadingZeros(chunk);
            && shifts + z < WORD_BITS && ShowsLeft(bits, base, shifts + z, ShiftLeft(chunk, z))
            && ShiftLeft(chunk, z)[WORD_BITS - 1]
            && Scanned(bits, base + WORD_BITS - (shifts + z), current + z, max)
  {
    var z := LeadingZeros(chunk);
    assert z < WORD_BITS && chunk[WORD_BITS - z - 1];
    forall k | base + WORD_BITS - shifts - z <= k < base + WORD_BITS - shifts ensures !bits[k] {
      assert !chunk[k - base + shifts];
    }
    ExtendScan(bits, base + WORD_BITS - shifts, current, max, z);
    ShiftShowsLeft(bits, base, shifts, chunk, z);
  }

  /** The ones at the high end of a shifted word complete it. */
  lemma OnesLeft(bits: seq<bool>, base: nat, shifts: nat, chunk: Word, current: nat, max: nat)
    requires ShowsLeft(bits, base, shifts, chunk) && chunk[WORD_BITS - 1]
    requires Scanned(bits, base + WORD_BITS - shifts, current, max)
    ensures var o := LeadingOnes(chunk);
            && 0 < o && shifts + o <= WORD_BITS
            && ShowsLeft(bits, base, shifts + o, ShiftLeft(chunk, o)) && !IsAllOnes(ShiftLeft(chunk, o))
            && Scanned(bits, base + WORD_BITS - (shifts + o), 0, Max(max, current))
  {
    var o := LeadingOnes(chunk);
    var e := base + WORD_BITS - shifts;
    if shifts > 0 {
      assert !chunk[shifts - 1];
    }
    forall k | e - o <= k < e ensures bits[k] {
      assert chunk[k - base + shifts];
    }
    CloseScan(bits, e, current, max, e - o);
    ShiftShowsLeft(bits, base, shifts, chunk, o);
    assert !ShiftLeft(chunk, o)[0];
  }

  /** A word whose zeros in the middle cannot beat the maximum is passed over by looking at its ends only. */
  lemma SkipWordLeft(bits: seq<bool>, base: nat, chunk: Word, current: nat, max: nat)
    requires ShowsLeft(bits, base, 0, chunk) && !IsZero(chunk)
    requires Scanned(bits, base + WORD_BITS, current, max)
    requires max > SaturatingSub(WORD_BITS - LeadingZeros(chunk) - TrailingZeros(chunk), 2)
    ensures Scanned(bits, base, TrailingZeros(chunk), Max(max, current + LeadingZeros(chunk)))
  {
    var l, t := LeadingZeros(chunk), TrailingZeros(chunk);
    var first, last := base + t, base + WORD_BITS - l - 1;
    EndsApart(chunk);
    assert chunk[t] && chunk[WORD_BITS - l - 1];
    forall k | base <= k < base + WORD_BITS && (k < first || last < k) ensures !bits[k] {
      assert !chunk[k - base];
    }
    ExtendScan(bits, base + WORD_BITS, current, max, l);
    CloseScan(bits, last + 1, current + l, max, last);
    AddShortGaps(bits, first, last, Max(max, current + l));
  }

  /** The gaps of a region, scanning its words backwards. */
  method CalculateGaps(region: seq<bool>) returns (gaps: RegionGaps)
    requires |region| % 64 == 0
    ensures Summarizes(gaps, region) && gaps.max <= |region|
  {
    hide FreeRun, NoLonger, HasRun, ShowsRight, ShowsLeft, IsZero, IsAllOnes, WordAt, ShiftLeft,
      TrailingZeros, LeadingZeros, LeadingOnes, SaturatingSub, Scanned, SumFromStart, SumFromEnd;
    var max: nat, current: nat, numShifts: nat := 0, 0, 0;
    ScanNothing(region);
    var index: nat := |region| / 64;
    while index > 0
      invariant index <= |region| / 64 && numShifts == 0
      invariant Scanned(region, WordStart(index), current, max)
    {
      index := index - 1;
      ghost var base := WordStart(index);
      var chunk := WordAt(region, index);
      WordShows(region, index);
      if IsZero(chunk) {
        ZeroWordLeft(region, base, 0, chunk, current, max);
        current := current + WORD_BITS;
        continue;
      }
      if IsAllOnes(chunk) {
        FullWordLeft(region, base, chunk, current, max);
        max := Max(max, current);
        current := 0;
        continue;
      }
      var leading := LeadingZeros(chunk);
      var trailing := TrailingZeros(chunk);
      EndsApart(chunk);
      var maxPossibleMiddleGap := SaturatingSub(WORD_BITS - leading - trailing, 2);
      if max > maxPossibleMiddleGap {
        SkipWordLeft(region, base, chunk, current, max);
        current := current + leading;
        max := Max(max, current);
        current := trailing;
        continue;
      }
      while !IsZero(chunk)
        invariant numShifts <= WORD_BITS && ShowsLeft(region, base, numShifts, chunk) && !IsAllOnes(chunk)
        invariant Scanned(region, base + WORD_BITS - numShifts, current, max)
        decreases WORD_BITS - numShifts
      {
        ZerosLeft(region, base, numShifts, chunk, current, max);
        var numZeros := LeadingZeros(chunk);
        OnesLeft(region, base, numShifts + numZeros, ShiftLeft(chunk, numZeros), current + numZeros, max);
        current := current + numZeros;
        max := Max(max, current);
        current := 0;
        chunk := ShiftLeft(chunk, numZeros);
        numShifts := numShifts + numZeros;
        var numOnes := LeadingOnes(chunk);
        if numOnes < WORD_BITS {
          chunk := ShiftLeft(chunk, numOnes);
        } else {
          chunk := ShiftLeft(chunk, WORD_BITS);
        }
        numShifts := numShifts + numOnes;
      }
      ZeroWordLeft(region, base, numShifts, chunk, current, max);
      current := current + (WORD_BITS - numShifts);
      numShifts := 0;
    }
    FinishScan(region, current, max);
    max := Max(max, current);
    var first, last;
    if max == |region| {
      WholeRegion(region, max);
      first, last := max, max;
    } else {
      SumFromStartIsPrefix(region, 0);
      SumFromEndIsSuffix(region, |region| / 64);
      assert region[WordStart(0)..] == region == region[..WordStart(|region| / 64)];
      first, last := SumFromStart(region, 0), SumFromEnd(region, |region| / 64);
    }
    gaps := RegionGaps(max, first, last);
  }

  lemma WholeRegion(region: seq<bool>, max: nat)
    requires HasRun(region, max) && max == |region|
    ensures PrefixOf(region, false) == SuffixOf(region, false) == max
  {
    var s: nat :| FreeRun(region, s, max);
    PrefixIs(region, false, max);
    SuffixIs(region, false, max);
  }
}
