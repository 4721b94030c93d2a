/**
 Binary quantized vectors, packed into words, scored against queries whose bits are transposed.

 A word is the sequence of its bits, least significant first; `w` is the number of bits in a word.
 */
module BinaryScore {
  import opened Wrappers

  type Word = seq<bool>

  // ---------------------------------------------------------------------------------------
  // Shifts and weighted sums
  // ---------------------------------------------------------------------------------------

  function Shl(x: nat, b: nat): nat {
    if b == 0 then x else 2 * Shl(x, b - 1)
  }

  function Shr(x: nat, b: nat): nat {
    if b == 0 then x else Shr(x, b - 1) / 2
  }

  function One(b: bool): nat {
    if b then 1 else 0
  }

  lemma {:induction false} ShlAdds(x: nat, y: nat, b: nat)
    ensures Shl(x + y, b) == Shl(x, b) + Shl(y, b)
  {
    if b > 0 {
      ShlAdds(x, y, b - 1);
    }
  }

  /** The first `b` counts, each shifted to its place. */
  function Weighted(counts: seq<nat>, b: nat): nat
    requires b <= |counts|
  {
    if b == 0 then 0 else Weighted(counts, b - 1) + Shl(counts[b - 1], b - 1)
  }

  lemma {:induction false} WeightedAdds(sum: seq<nat>, left: seq<nat>, right: seq<nat>, b: nat)
    requires |sum| == |left| == |right| && b <= |sum|
    requires forall i :: 0 <= i < |sum| ==> sum[i] == left[i] + right[i]
    ensures Weighted(sum, b) == Weighted(left, b) + Weighted(right, b)
  {
    if b > 0 {
      WeightedAdds(sum, left, right, b - 1);
      ShlAdds(left[b - 1], right[b - 1], b - 1);
    }
  }

  lemma {:induction false} WeightedZeros(counts: seq<nat>, b: nat)
    requires b <= |counts| && forall i :: 0 <= i < |counts| ==> counts[i] == 0
    ensures Weighted(counts, b) == 0
  {
    if b > 0 {
      WeightedZeros(counts, b - 1);
      ShlAdds(0, 0, b - 1);
    }
  }

  function BitsOf(q: nat, k: nat): (r: seq<nat>)
    ensures |r| == k
  {
    seq(k, b requires 0 <= b < k => Shr(q, b) % 2)
  }

  /** The bits of a number, shifted to their places, and what is above them. */
  lemma {:induction false} BitsSum(q: nat, k: nat, b: nat)
    requires b <= k
    ensures Weighted(BitsOf(q, k), b) + Shl(Shr(q, b), b) == q
  {
    if b > 0 {
      BitsSum(q, k, b - 1);
      var r := Shr(q, b - 1);
      ShlAdds(r % 2, r / 2 + r / 2, b - 1);
      ShlAdds(r / 2, r / 2, b - 1);
    }
  }

  lemma BitsAreNumber(q: nat, k: nat)
    requires q < Shl(1, k)
    ensures Weighted(BitsOf(q, k), k) == q
  {
    BitsSum(q, k, k);
    var rest := Shr(q, k);
    if rest > 0 {
      ShlAdds(1, rest - 1, k);
    } else {
      ShlAdds(0, 0, k);
    }
  }

  // ---------------------------------------------------------------------------------------
  // One lane: a bit of the vector against all bits of a query entry
  // ---------------------------------------------------------------------------------------

  function Differ(v: bool, bits: seq<nat>): (r: seq<nat>)
    ensures |r| == |bits|
  {
    seq(|bits|, b requires 0 <= b < |bits| => One(v != (bits[b] == 1)))
  }

  lemma {:induction false} FlippedSum(bits: seq<nat>, b: nat)
    requires b <= |bits| && forall i :: 0 <= i < |bits| ==> bits[i] < 2
    ensures Weighted(Differ(true, bits), b) + Weighted(bits, b) + 1 == Shl(1, b)
  {
    if b > 0 {
      FlippedSum(bits, b - 1);
      ShlAdds(Differ(true, bits)[b - 1], bits[b - 1], b - 1);
    }
  }

  /** What one entry adds to the score: the distance of `q` from all ones or from all zeros. */
  function Term(v: bool, q: nat, k: nat): int {
    if v then Shl(1, k) - 1 - q else q
  }

  lemma LaneIsTerm(v: bool, q: nat, k: nat)
    requires q < Shl(1, k)
    ensures Weighted(Differ(v, BitsOf(q, k)), k) == Term(v, q, k)
  {
    BitsAreNumber(q, k);
    if v {
      FlippedSum(BitsOf(q, k), k);
    } else {
      assert Differ(false, BitsOf(q, k)) == BitsOf(q, k);
    }
  }

  // ---------------------------------------------------------------------------------------
  // One word of the vector against the bit planes of its chunk of the query
  // ---------------------------------------------------------------------------------------

  function CountOnes(x: Word): nat {
    if |x| == 0 then 0 else CountOnes(x[..|x| - 1]) + One(x[|x| - 1])
  }

  function Xor(x: Word, y: Word): (r: Word)
    requires |x| == |y|
    ensures |r| == |x|
  {
    seq(|x|, i requires 0 <= i < |x| => x[i] != y[i])
  }

  predicate Words(words: seq<Word>, w: nat) {
    forall c :: 0 <= c < |words| ==> |words[c]| == w
  }

  function PlaneCounts(x: Word, planes: seq<Word>): (r: seq<nat>)
    requires Words(planes, |x|)
    ensures |r| == |planes|
  {
    seq(|planes|, b requires 0 <= b < |planes| => CountOnes(Xor(x, planes[b])))
  }

  /** The entries of a chunk, `qs`, are spread over the planes. */
  predicate Transposed(planes: seq<Word>, w: nat, qs: seq<nat>) {
    && Words(planes, w) && |qs| <= w
    && forall b: nat, s: nat {:trigger planes[b][s]} :: b < |planes| && s < w ==>
         (planes[b][s] <==> s < |qs| && Shr(qs[s], b) % 2 == 1)
  }

  /** The entries of a chunk of the vector, followed by zeros. */
  predicate Padded(x: Word, bits: seq<bool>) {
    |bits| <= |x| && forall s :: 0 <= s < |x| ==> (x[s] <==> s < |bits| && bits[s])
  }

  function TermSum(bits: seq<bool>, qs: seq<nat>, k: nat): int
    requires |bits| == |qs|
  {
    if |bits| == 0 then 0
    else TermSum(bits[..|bits| - 1], qs[..|qs| - 1], k) + Term(bits[|bits| - 1], qs[|qs| - 1], k)
  }

  predicate Small(qs: seq<nat>, k: nat) {
    forall i :: 0 <= i < |qs| ==> qs[i] < Shl(1, k)
  }

  function Shorter(planes: seq<Word>, w: nat): (r: seq<Word>)
    requires Words(planes, w) && w > 0
    ensures |r| == |planes| && Words(r, w - 1)
    ensures forall b :: 0 <= b < |r| ==> r[b] == planes[b][..w - 1]
  {
    seq(|planes|, b requires 0 <= b < |planes| => planes[b][..w - 1])
  }

  /** In which planes a lane differs from the vector's bit. */
  function LaneCounts(x: Word, planes: seq<Word>, lane: nat): (r: seq<nat>)
    requires lane < |x| && Words(planes, |x|)
    ensures |r| == |planes|
  {
    seq(|planes|, b requires 0 <= b < |planes| => One(x[lane] != planes[b][lane]))
  }

  lemma LastLaneApart(x: Word, planes: seq<Word>)
    requires |x| > 0 && Words(planes, |x|)
    ensures var w, k := |x|, |planes|;
            Weighted(PlaneCounts(x, planes), k)
            == Weighted(PlaneCounts(x[..w - 1], Shorter(planes, w)), k) + Weighted(LaneCounts(x, planes, w - 1), k)
  {
    var w, k := |x|, |planes|;
    var y, rest := x[..w - 1], Shorter(planes, w);
    forall b | 0 <= b < k
      ensures PlaneCounts(x, planes)[b] == PlaneCounts(y, rest)[b] + LaneCounts(x, planes, w - 1)[b]
    {
      assert Xor(x, planes[b])[..w - 1] == Xor(y, rest[b]);
    }
    hide Weighted;
    WeightedAdds(PlaneCounts(x, planes), PlaneCounts(y, rest), LaneCounts(x, planes, w - 1), k);
  }

  lemma LastLaneIsTerm(x: Word, planes: seq<Word>, bits: seq<bool>, qs: seq<nat>, k: nat)
    requires |planes| == k && |bits| == |qs| && Small(qs, k) && |x| > 0
    requires Padded(x, bits) && Transposed(planes, |x|, qs)
    ensures var w := |x|;
            Weighted(LaneCounts(x, planes, w - 1), k) == if |bits| == w then Term(bits[w - 1], qs[w - 1], k) else 0
  {
    var w := |x|;
    var counts := LaneCounts(x, planes, w - 1);
    if |bits| == w {
      assert counts == Differ(bits[w - 1], BitsOf(qs[w - 1], k));
      LaneIsTerm(bits[w - 1], qs[w - 1], k);
    } else {
      assert !x[w - 1] && forall b: nat :: b < k ==> !planes[b][w - 1];
      WeightedZeros(counts, k);
    }
  }

  /** The planes of one word add up, lane by lane, to the terms of its entries; padding adds nothing. */
  lemma {:induction false} ChunkIsTerms(x: Word, planes: seq<Word>, bits: seq<bool>, qs: seq<nat>, k: nat)
    requires |planes| == k && |bits| == |qs| && Small(qs, k)
    requires Padded(x, bits) && Transposed(planes, |x|, qs)
    ensures Weighted(PlaneCounts(x, planes), k) == TermSum(bits, qs, k)
  {
    hide Weighted, Shr, LaneCounts, Term;
    var w := |x|;
    if w == 0 {
      WeightedZeros(PlaneCounts(x, planes), k);
    } else {
      LastLaneApart(x, planes);
      LastLaneIsTerm(x, planes, bits, qs, k);
      if |bits| == w {
        ChunkIsTerms(x[..w - 1], Shorter(planes, w), bits[..w - 1], qs[..w - 1], k);
      } else {
        ChunkIsTerms(x[..w - 1], Shorter(planes, w), bits, qs, k);
      }
    }
  }

  // ---------------------------------------------------------------------------------------
  // The whole score
  // ---------------------------------------------------------------------------------------

  /** `w * c` and `k * c`: where a chunk starts. */
  function ChunkStart(size: nat, c: nat): nat {
    size * c
  }

  lemma ChunkStartNext(size: nat, c: nat)
    ensures ChunkStart(size, c + 1) == ChunkStart(size, c) + size && ChunkStart(size, 0) == 0
  {
  }

  lemma {:induction false} ChunkStartOrder(size: nat, b: nat, c: nat)
    requires b <= c
    ensures ChunkStart(size, b) <= ChunkStart(size, c)
  {
    if b < c {
      ChunkStartOrder(size, b, c - 1);
    }
  }

  /** The part of a sequence that falls into a chunk of `w`. */
  function Part<T>(s: seq<T>, w: nat, c: nat): (r: seq<T>)
    ensures |r| <= w
    ensures |r| == Min(ChunkStart(w, c + 1), |s|) - Min(ChunkStart(w, c), |s|)
    ensures forall i :: 0 <= i < |r| ==> ChunkStart(w, c) + i < |s| && r[i] == s[ChunkStart(w, c) + i]
  {
    ChunkStartNext(w, c);
    s[Min(ChunkStart(w, c), |s|)..Min(ChunkStart(w, c + 1), |s|)]
  }

  function Planes(query: seq<Word>, k: nat, c: nat): (r: seq<Word>)
    requires ChunkStart(k, c + 1) <= |query|
    ensures |r| == k && forall b :: 0 <= b < k ==> r[b] == query[ChunkStart(k, c) + b]
  {
    ChunkStartNext(k, c);
    query[ChunkStart(k, c)..ChunkStart(k, c + 1)]
  }

  /** The vector's bits, packed into words and followed by zeros. */
  ghost predicate Packed(words: seq<Word>, w: nat, bits: seq<bool>) {
    && Words(words, w) && |bits| <= ChunkStart(w, |words|)
    && forall c: nat :: c < |words| ==> Padded(words[c], Part(bits, w, c))
  }

  /** The query's entries, transposed word by word into `k` planes each. */
  ghost predicate Transposes(query: seq<Word>, w: nat, k: nat, chunks: nat, qs: seq<nat>) {
    && Words(query, w) && |query| == ChunkStart(k, chunks)
    && forall c: nat :: c < chunks ==> ChunkTransposed(query, w, k, c, qs)
  }

  predicate ChunkTransposed(query: seq<Word>, w: nat, k: nat, c: nat, qs: seq<nat>) {
    ChunkStart(k, c + 1) <= |query| && Transposed(Planes(query, k, c), w, Part(qs, w, c))
  }

  /** The sum that the loops compute over the first `n` words. */
  function Score(vector: seq<Word>, query: seq<Word>, w: nat, k: nat, n: nat): nat
    requires Words(vector, w) && Words(query, w) && n <= |vector| && ChunkStart(k, n) <= |query|
  {
    if n == 0 then 0
    else
      ChunkStartNext(k, n - 1);
      Score(vector, query, w, k, n - 1) + Weighted(PlaneCounts(vector[n - 1], Planes(query, k, n - 1)), k)
  }

  lemma {:induction false} TermSumSplits(bits: seq<bool>, qs: seq<nat>, k: nat, m: nat)
    requires |bits| == |qs| && m <= |bits|
    ensures TermSum(bits, qs, k) == TermSum(bits[..m], qs[..m], k) + TermSum(bits[m..], qs[m..], k)
  {
    var last := |bits| - 1;
    if m < |bits| {
      TermSumSplits(bits[..last], qs[..last], k, m);
      assert bits[..last][..m] == bits[..m] && qs[..last][..m] == qs[..m];
      assert bits[m..][..last - m] == bits[..last][m..] && qs[m..][..last - m] == qs[..last][m..];
    } else {
      assert bits[..m] == bits && qs[..m] == qs;
    }
  }

  lemma {:induction false} ScoreUpTo(vector: seq<Word>, query: seq<Word>, w: nat, k: nat, bits: seq<bool>,
                                     qs: seq<nat>, n: nat)
    requires |bits| == |qs| && Small(qs, k) && n <= |vector|
    requires Packed(vector, w, bits) && Transposes(query, w, k, |vector|, qs) && ChunkStart(k, n) <= |query|
    ensures var m := Min(ChunkStart(w, n), |bits|);
            Score(vector, query, w, k, n) == TermSum(bits[..m], qs[..m], k)
  {
    hide ChunkStart, Weighted, PlaneCounts, Padded, Transposed, Term;
    if n == 0 {
      ChunkStartNext(w, 0);
    } else {
      var c := n - 1;
      ChunkStartNext(w, c);
      ChunkStartNext(k, c);
      ScoreUpTo(vector, query, w, k, bits, qs, c);
      assert ChunkTransposed(query, w, k, c, qs);
      var m0, m1 := Min(ChunkStart(w, c), |bits|), Min(ChunkStart(w, n), |bits|);
      ChunkIsTerms(vector[c], Planes(query, k, c), Part(bits, w, c), Part(qs, w, c), k);
      TermSumSplits(bits[..m1], qs[..m1], k, m0);
      assert bits[..m1][..m0] == bits[..m0] && qs[..m1][..m0] == qs[..m0];
      assert bits[..m1][m0..] == Part(bits, w, c) && qs[..m1][m0..] == Part(qs, w, c);
    }
  }

  /**
   The transposed score is the sum, over all entries, of how far the query's entry is from all ones
   where the vector has a one, and from zero where it has a zero.
   */
  lemma ScoreIsTermSum(vector: seq<Word>, query: seq<Word>, w: nat, k: nat, bits: seq<bool>, qs: seq<nat>)
    requires |bits| == |qs| && Small(qs, k)
    requires Packed(vector, w, bits) && Transposes(query, w, k, |vector|, qs)
    ensures ChunkStart(k, |vector|) <= |query|
    ensures Score(vector, query, w, k, |vector|) == TermSum(bits, qs, k)
  {
    ScoreUpTo(vector, query, w, k, bits, qs, |vector|);
    assert bits[..|bits|] == bits && qs[..|qs|] == qs;
  }

  method XorPopcntScalar(vector: seq<Word>, query: seq<Word>, queryBitsCount: nat, ghost w: nat) returns (result: nat)
    requires Words(vector, w) && Words(query, w) && |query| >= ChunkStart(queryBitsCount, |vector|)
    ensures result == Score(vector, query, w, queryBitsCount, |vector|)
  {
    hide ChunkStart, Shl, CountOnes, Xor;
    result := 0;
    ChunkStartNext(queryBitsCount, 0);
    for c := 0 to |vector|
      invariant ChunkStart(queryBitsCount, c) <= |query|
      invariant result == Score(vector, query, w, queryBitsCount, c)
    {
      ChunkStartNext(queryBitsCount, c);
      ChunkStartOrder(queryBitsCount, c + 1, |vector|);
      var b1, b2Chunk := vector[c], Planes(query, queryBitsCount, c);
      ghost var before, counts := result, PlaneCounts(b1, b2Chunk);
      for i := 0 to |b2Chunk|
        invariant result == before + Weighted(counts, i)
      {
        result := result + Shl(CountOnes(Xor(b1, b2Chunk[i])), i);
      }
    }
  }

  // ---------------------------------------------------------------------------------------
  // Queries stored like vectors
  // ---------------------------------------------------------------------------------------

  method XorPopcnt(v1: seq<Word>, v2: seq<Word>, ghost w: nat) returns (result: nat)
    requires Words(v1, w) && Words(v2, w) && |v1| == |v2|
    ensures ChunkStart(1, |v1|) == |v2| && result == Score(v1, v2, w, 1, |v1|)
  {
    result := 0;
    for c := 0 to |v1|
      invariant result == Score(v1, v2, w, 1, c)
    {
      hide CountOnes, Xor;
      result := result + CountOnes(Xor(v1[c], v2[c]));
      OnePlane(v1[c], v2, c);
    }
  }

  lemma OnePlane(x: Word, query: seq<Word>, c: nat)
    requires c < |query| && |query[c]| == |x|
    ensures Words(Planes(query, 1, c), |x|)
    ensures Weighted(PlaneCounts(x, Planes(query, 1, c)), 1) == CountOnes(Xor(x, query[c]))
  {
    hide CountOnes, Xor;
    var planes := Planes(query, 1, c);
    assert planes == [query[c]];
    assert Weighted(PlaneCounts(x, planes), 0) == 0;
  }

  function Numbers(bits: seq<bool>): (r: seq<nat>)
    ensures |r| == |bits|
  {
    seq(|bits|, i requires 0 <= i < |bits| => One(bits[i]))
  }

  function Hamming(a: seq<bool>, b: seq<bool>): nat
    requires |a| == |b|
  {
    if |a| == 0 then 0 else Hamming(a[..|a| - 1], b[..|b| - 1]) + One(a[|a| - 1] != b[|b| - 1])
  }

  lemma {:induction false} TermSumIsHamming(a: seq<bool>, b: seq<bool>)
    requires |a| == |b|
    ensures TermSum(a, Numbers(b), 1) == Hamming(a, b)
  {
    if |a| > 0 {
      var last := |a| - 1;
      TermSumIsHamming(a[..last], b[..last]);
      assert Numbers(b)[..last] == Numbers(b[..last]);
      assert Shl(1, 1) == 2 by {
        assert Shl(1, 0) == 1;
      }
    }
  }

  lemma PackedIsTransposed(words: seq<Word>, w: nat, bits: seq<bool>)
    requires Packed(words, w, bits)
    ensures Transposes(words, w, 1, |words|, Numbers(bits)) && Small(Numbers(bits), 1)
  {
    assert Shl(1, 0) == 1;
    forall c: nat | c < |words| ensures ChunkTransposed(words, w, 1, c, Numbers(bits)) {
      assert Padded(words[c], Part(bits, w, c));
      hide ChunkStart;
      ChunkStartNext(1, c);
      OneStart(c);
      OneStart(c + 1);
      var planes, part := Planes(words, 1, c), Part(Numbers(bits), w, c);
      forall b: nat, s: nat {:trigger planes[b][s]} | b < |planes| && s < w
        ensures planes[b][s] <==> s < |part| && Shr(part[s], b) % 2 == 1
      {
        assert planes[0] == words[c] && b == 0;
      }
    }
    OneStart(|words|);
  }

  lemma OneStart(c: nat)
    ensures ChunkStart(1, c) == c
  {
  }

  /** The number of ones in the word-wise exclusive or is the number of bits that differ. */
  lemma PopcntIsHamming(v1: seq<Word>, v2: seq<Word>, w: nat, a: seq<bool>, b: seq<bool>)
    requires |v1| == |v2| && |a| == |b| && Packed(v1, w, a) && Packed(v2, w, b)
    ensures ChunkStart(1, |v1|) == |v2| && Score(v1, v2, w, 1, |v1|) == Hamming(a, b)
  {
    PackedIsTransposed(v2, w, b);
    ScoreIsTermSum(v1, v2, w, 1, a, Numbers(b));
    TermSumIsHamming(a, b);
  }
}
