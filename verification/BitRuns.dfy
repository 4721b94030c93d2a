/** Runs of zero bits in a bit sequence, and the word operations that the scans of the bitmask use. */
module BitRuns {
  import opened Wrappers

  /** The `n` bits from `start` on exist and are all zero: these blocks are free. */
  ghost predicate FreeRun(bits: seq<bool>, start: nat, n: nat) {
    start + n <= |bits| && forall k :: start <= k < start + n ==> !bits[k]
  }

  ghost predicate HasRun(bits: seq<bool>, n: nat) {
    exists s: nat :: FreeRun(bits, s, n)
  }

  /** No run of `n` zeros starts before `start`. */
  ghost predicate NoneBefore(bits: seq<bool>, n: nat, start: nat) {
    forall s: nat :: FreeRun(bits, s, n) ==> start <= s
  }

  /** No run of zeros that starts at `from` or later is longer than `max`. */
  ghost predicate NoLonger(bits: seq<bool>, from: nat, max: nat) {
    forall s: nat, n: nat :: FreeRun(bits, s, n) && from <= s ==> n <= max
  }

  // ---------------------------------------------------------------------------------------
  // Words: bit `i` of a machine word is element `i`, least significant first
  // ---------------------------------------------------------------------------------------

  const WORD_BITS := 64

  type Word = w: seq<bool> | |w| == WORD_BITS witness seq(WORD_BITS, _ => false)

  predicate IsZero(w: seq<bool>) {
    forall k :: 0 <= k < |w| ==> !w[k]
  }

  predicate IsAllOnes(w: seq<bool>) {
    forall k :: 0 <= k < |w| ==> w[k]
  }

  /** The number of equal elements `b` that `s` begins with; `trailing_zeros` and `trailing_ones` of a word. */
  function PrefixOf(s: seq<bool>, b: bool): (z: nat)
    ensures z <= |s| && (forall k :: 0 <= k < z ==> s[k] == b) && (z < |s| ==> s[z] != b)
  {
    if s == [] || s[0] != b then 0
    else
      var z := PrefixOf(s[1..], b);
      assert forall k :: 0 < k <= z ==> s[k] == s[1..][k - 1];
      1 + z
  }

  /** The number of equal elements `b` that `s` ends with; `leading_zeros` and `leading_ones` of a word. */
  function SuffixOf(s: seq<bool>, b: bool): (z: nat)
    ensures z <= |s| && (forall k :: |s| - z <= k < |s| ==> s[k] == b) && (z < |s| ==> s[|s| - z - 1] != b)
  {
    if s == [] || s[|s| - 1] != b then 0 else 1 + SuffixOf(s[..|s| - 1], b)
  }

  lemma PrefixIs(s: seq<bool>, b: bool, z: nat)
    requires z <= |s| && (forall k :: 0 <= k < z ==> s[k] == b) && (z < |s| ==> s[z] != b)
    ensures PrefixOf(s, b) == z
  {
  }

  lemma SuffixIs(s: seq<bool>, b: bool, z: nat)
    requires z <= |s| && (forall k :: |s| - z <= k < |s| ==> s[k] == b) && (z < |s| ==> s[|s| - z - 1] != b)
    ensures SuffixOf(s, b) == z
  {
  }

  function TrailingZeros(w: seq<bool>): nat { PrefixOf(w, false) }

  function LeadingZeros(w: seq<bool>): nat { SuffixOf(w, false) }

  function TrailingOnes(w: seq<bool>): nat { PrefixOf(w, true) }

  function LeadingOnes(w: seq<bool>): nat { SuffixOf(w, true) }

  lemma EndsApart(w: Word)
    requires !IsZero(w)
    ensures TrailingZeros(w) + LeadingZeros(w) < WORD_BITS
  {
    assert TrailingZeros(w) < WORD_BITS && w[TrailingZeros(w)];
  }

  function ShiftRight(w: Word, k: nat): (r: Word)
    requires k <= WORD_BITS
    ensures forall i :: 0 <= i < WORD_BITS ==> r[i] == (i + k < WORD_BITS && w[i + k])
  {
    seq(WORD_BITS, i requires 0 <= i => i + k < WORD_BITS && w[i + k])
  }

  function ShiftLeft(w: Word, k: nat): (r: Word)
    requires k <= WORD_BITS
    ensures forall i :: 0 <= i < WORD_BITS ==> r[i] == (i >= k && w[i - k])
  {
    seq(WORD_BITS, i requires 0 <= i < WORD_BITS => i >= k && w[i - k])
  }

  /** The first bit of the word with this index. */
  function WordStart(index: nat): nat {
    64 * index
  }

  function WordAt(bits: seq<bool>, index: nat): Word
    requires WordStart(index + 1) <= |bits|
  {
    bits[WordStart(index)..WordStart(index + 1)]
  }

  function SaturatingSub(a: nat, b: nat): (r: nat)
    ensures r + b == Max(a, b)
  {
    if a >= b then a - b else 0
  }

  // ---------------------------------------------------------------------------------------
  // Moving the start of the current run past ones
  // ---------------------------------------------------------------------------------------

  /** A run too short for `n` that ends in ones at `first` and `last`, with no room between them, holds none. */
  lemma SkipOnes(bits: seq<bool>, n: nat, start: nat, first: nat, last: nat)
    requires NoneBefore(bits, n, start)
    requires start <= first <= last < |bits| && bits[first] && bits[last]
    requires first - start < n && last - first <= n
    ensures NoneBefore(bits, n, last + 1)
  {
    forall s: nat | FreeRun(bits, s, n) ensures last + 1 <= s {
      assert bits[first] && bits[last];
    }
  }

  lemma SkipOneBits(bits: seq<bool>, n: nat, start: nat, first: nat, end: nat)
    requires NoneBefore(bits, n, start)
    requires start <= first < end <= |bits| && (forall k :: first <= k < end ==> bits[k])
    requires first - start < n
    ensures NoneBefore(bits, n, end)
  {
    forall s: nat | s < end ensures !FreeRun(bits, s, n) {
      if start <= s {
        NotFree(bits, s, n, if s <= first then first else s);
      }
    }
  }

  lemma NotFree(bits: seq<bool>, s: nat, n: nat, one: nat)
    requires s <= one < s + n && one < |bits| && bits[one]
    ensures !FreeRun(bits, s, n)
  {
  }

  // ---------------------------------------------------------------------------------------
  // The longest run, found backwards
  // ---------------------------------------------------------------------------------------

  /** The current run of `current` zeros at `from` is complete: it counts towards the maximum. */
  lemma CloseRun(bits: seq<bool>, from: nat, current: nat, max: nat)
    requires NoLonger(bits, from + current, max) && from + current <= |bits|
    requires from + current == |bits| || bits[from + current]
    ensures NoLonger(bits, from, Max(max, current))
  {
    forall s: nat, n: nat | FreeRun(bits, s, n) && from <= s ensures n <= Max(max, current) {
      assert from + current == |bits| || bits[from + current];
    }
  }

  lemma AddOnes(bits: seq<bool>, to: nat, from: nat, max: nat)
    requires NoLonger(bits, from, max) && to <= from <= |bits|
    requires forall k :: to <= k < from ==> bits[k]
    ensures NoLonger(bits, to, max)
  {
    forall s: nat, n: nat | FreeRun(bits, s, n) && to <= s ensures n <= max {
      assert s < from ==> bits[s];
    }
  }

  lemma AddShortGaps(bits: seq<bool>, first: nat, last: nat, max: nat)
    requires NoLonger(bits, last + 1, max) && first <= last < |bits| && bits[first] && bits[last]
    requires last - first <= max + 1
    ensures NoLonger(bits, first, max)
  {
    forall s: nat, n: nat | FreeRun(bits, s, n) && first <= s ensures n <= max {
      assert bits[first] && bits[last];
    }
  }

  // ---------------------------------------------------------------------------------------
  // Shifted words and the bits they show
  // ---------------------------------------------------------------------------------------

  /** `chunk` is the word at bit `base` shifted right by `shifts`. */
  ghost predicate ShowsRight(bits: seq<bool>, base: nat, shifts: nat, chunk: Word) {
    && base + WORD_BITS <= |bits| && shifts <= WORD_BITS
    && (forall i :: 0 <= i < WORD_BITS ==> chunk[i] == (i < WORD_BITS - shifts && bits[base + shifts + i]))
  }

  lemma WordShows(bits: seq<bool>, index: nat)
    requires WordStart(index + 1) <= |bits|
    ensures ShowsRight(bits, WordStart(index), 0, WordAt(bits, index))
    ensures ShowsLeft(bits, WordStart(index), 0, WordAt(bits, index))
  {
  }

  lemma ShiftShowsRight(bits: seq<bool>, base: nat, shifts: nat, chunk: Word, more: nat)
    requires ShowsRight(bits, base, shifts, chunk) && shifts + more <= WORD_BITS
    ensures ShowsRight(bits, base, shifts + more, ShiftRight(chunk, more))
  {
  }

  /** The zeros at the low end of a shifted word extend the run before them up to the next one. */
  lemma ZerosRight(bits: seq<bool>, base: nat, shifts: nat, chunk: Word, start: nat)
    requires ShowsRight(bits, base, shifts, chunk) && start <= base + shifts
    requires FreeRun(bits, start, base + shifts - start)
    ensures var z := TrailingZeros(chunk);
            if IsZero(chunk) then FreeRun(bits, start, base + WORD_BITS - start)
            else shifts + z < WORD_BITS && FreeRun(bits, start, base + shifts + z - start) && bits[base + shifts + z]
  {
    var z := TrailingZeros(chunk);
    if !IsZero(chunk) {
      assert z < WORD_BITS && chunk[z];
    }
    var end := if IsZero(chunk) then WORD_BITS else shifts + z;
    forall k | base + shifts <= k < base + end ensures !bits[k] {
      assert !chunk[k - base - shifts];
    }
  }

  lemma OnesRight(bits: seq<bool>, base: nat, shifts: nat, chunk: Word)
    requires ShowsRight(bits, base, shifts, chunk)
    ensures var o := TrailingOnes(chunk);
            shifts + o <= WORD_BITS && forall k :: base + shifts <= k < base + shifts + o ==> bits[k]
  {
    var o := TrailingOnes(chunk);
    if shifts > 0 {
      assert !chunk[WORD_BITS - shifts];
    }
    forall k | base + shifts <= k < base + shifts + o ensures bits[k] {
      assert chunk[k - base - shifts];
    }
  }

  /** `chunk` is the word at bit `base` shifted left by `shifts`. */
  ghost predicate ShowsLeft(bits: seq<bool>, base: nat, shifts: nat, chunk: Word) {
    && base + WORD_BITS <= |bits| && shifts <= WORD_BITS
    && (forall i :: 0 <= i < WORD_BITS ==> chunk[i] == (i >= shifts && bits[base + i - shifts]))
  }

  lemma ShiftShowsLeft(bits: seq<bool>, base: nat, shifts: nat, chunk: Word, more: nat)
    requires ShowsLeft(bits, base, shifts, chunk) && shifts + more <= WORD_BITS
    ensures ShowsLeft(bits, base, shifts + more, ShiftLeft(chunk, more))
  {
  }

  lemma ShrinkRun(bits: seq<bool>, start: nat, n: nat, fewer: nat)
    requires FreeRun(bits, start, n) && fewer <= n
    ensures FreeRun(bits, start, fewer)
  {
  }

  lemma NoRoom(bits: seq<bool>, n: nat, start: nat)
    requires NoneBefore(bits, n, start) && start + n > |bits|
    ensures !HasRun(bits, n)
  {
  }

  /** A word that is passed over by looking at its ends only: no run of `n` fits between its first and last one. */
  lemma SkipWordRight(bits: seq<bool>, base: nat, chunk: Word, n: nat, start: nat)
    requires ShowsRight(bits, base, 0, chunk) && !IsZero(chunk)
    requires start <= base && FreeRun(bits, start, base - start) && NoneBefore(bits, n, start)
    requires base + TrailingZeros(chunk) - start < n
    requires n > SaturatingSub(WORD_BITS - TrailingZeros(chunk) - LeadingZeros(chunk), 2)
    ensures var t := LeadingZeros(chunk);
            t < WORD_BITS && FreeRun(bits, base + WORD_BITS - t, t) && NoneBefore(bits, n, base + WORD_BITS - t)
  {
    var l, t := TrailingZeros(chunk), LeadingZeros(chunk);
    assert l < WORD_BITS && chunk[l];
    assert t < WORD_BITS && chunk[WORD_BITS - t - 1];
    SkipOnes(bits, n, start, base + l, base + WORD_BITS - t - 1);
    forall k | base + WORD_BITS - t <= k < base + WORD_BITS ensures !bits[k] {
      assert !chunk[k - base];
    }
  }
}
