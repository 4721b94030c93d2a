/** What the bits of a vector, the entries of a query and their score mean. */
module BinaryMeaning {
  import opened Wrappers
  import opened Layout
  import opened BinaryScore
  import opened BinaryEncoding

  // ---------------------------------------------------------------------------------------
  // Bits of a vector
  // ---------------------------------------------------------------------------------------

  lemma QuotientBounds(x: real, d: real, bound: real)
    requires d > 0.0
    ensures x / d <= bound <==> x <= bound * d
    ensures x / d < bound <==> x < bound * d
  {
    var q := x / d;
    assert x == q * d;
    if q < bound {
      assert (bound - q) * d > 0.0;
    } else {
      assert (q - bound) * d >= 0.0;
    }
    if q > bound {
      assert (q - bound) * d > 0.0;
    }
  }

  /**
   The two bits of a value: without statistics both are its sign, with hardly any deviation the first is,
   and else they tell on which side of two thirds of a deviation below and above the mean it lies.
   */
  lemma TwoBitsAre(value: real, stats: Option<ElementStats>)
    ensures stats.None? ==> TwoBitsValue(value, stats) == (value > 0.0, value > 0.0)
    ensures stats.Some? && stats.value.stddev < 1.0 / 8388608.0 ==> TwoBitsValue(value, stats) == (value > 0.0, false)
    ensures stats.Some? && stats.value.stddev >= 1.0 / 8388608.0 ==>
              var (first, second) := TwoBitsValue(value, stats);
              && (!first <==> 3.0 * (value - stats.value.mean) <= -2.0 * stats.value.stddev)
              && (second <==> 3.0 * (value - stats.value.mean) >= 2.0 * stats.value.stddev)
  {
    if stats.Some? && stats.value.stddev >= 1.0 / 8388608.0 {
      var x, d := value - stats.value.mean, stats.value.stddev;
      QuotientBounds(x, d, -(2.0 / 3.0));
      QuotientBounds(x, d, 2.0 / 3.0);
    }
  }

  lemma SignBits(vector: seq<real>, stats: Option<seq<ElementStats>>)
    ensures var bits := VectorBits(vector, stats, OneBit);
            |bits| == |vector| && forall i :: 0 <= i < |vector| ==> (bits[i] <==> vector[i] > 0.0)
  {
  }

  /** Both bits of every element, by its own statistics: the first bits, then the second bits. */
  lemma BothBits(vector: seq<real>, stats: Option<seq<ElementStats>>, i: nat)
    requires i < |vector| && (stats.Some? ==> |stats.value| >= |vector|)
    ensures var bits := VectorBits(vector, stats, TwoBits);
            && |bits| == |vector| + |vector|
            && TwoBitsValue(vector[i], if stats.Some? then Some(stats.value[i]) else None)
               == (bits[i], bits[|vector| + i])
  {
    assert TwoBitsValue(vector[i], StatsAt(stats, i)) == (First(vector, stats, i), Second(vector, stats, i));
  }

  /** The first bit of every element, then one for every two that is set when a second bit of theirs is. */
  lemma SharedBits(vector: seq<real>, stats: Option<seq<ElementStats>>, i: nat)
    requires i < |vector| && (stats.Some? ==> |stats.value| >= |vector|)
    ensures var bits := VectorBits(vector, stats, OneAndHalfBits);
            && |bits| == |vector| + (|vector| + 1) / 2
            && var (first, second) := TwoBitsValue(vector[i], if stats.Some? then Some(stats.value[i]) else None);
               bits[i] == first && (second ==> bits[|vector| + i / 2])
    ensures var bits := VectorBits(vector, stats, OneAndHalfBits);
            bits[|vector| + i / 2] ==>
              exists j: nat :: j < |vector| && j / 2 == i / 2 &&
                TwoBitsValue(vector[j], if stats.Some? then Some(stats.value[j]) else None).1
  {
    HalfOf(|vector|);
    hide DivCeil, TwoBitsValue;
    assert TwoBitsValue(vector[i], StatsAt(stats, i)) == (First(vector, stats, i), Second(vector, stats, i));
    var p := i / 2;
    assert i == 2 * p || i == 2 * p + 1;
    assert VectorBits(vector, stats, OneAndHalfBits)[|vector| + p] <==>
      Second(vector, stats, 2 * p) || (2 * p + 1 < |vector| && Second(vector, stats, 2 * p + 1));
  }

  lemma HalfOf(n: nat)
    ensures DivCeil(3 * n, 2) == n + (n + 1) / 2 && DivCeil(n, 2) == (n + 1) / 2
  {
  }

  /** In every encoding, raising elements never clears a bit. */
  lemma BitsGrow(low: seq<real>, high: seq<real>, stats: Option<seq<ElementStats>>, encoding: Encoding, b: nat)
    requires |low| == |high| && forall i :: 0 <= i < |low| ==> low[i] <= high[i]
    requires b < |VectorBits(low, stats, encoding)| && VectorBits(low, stats, encoding)[b]
    ensures b < |VectorBits(high, stats, encoding)| && VectorBits(high, stats, encoding)[b]
  {
    hide TwoBitsValue;
    forall i | 0 <= i < |low|
      ensures First(low, stats, i) ==> First(high, stats, i)
      ensures Second(low, stats, i) ==> Second(high, stats, i)
    {
      TwoBitsGrow(low[i], high[i], StatsAt(stats, i));
    }
  }

  // ---------------------------------------------------------------------------------------
  // Entries of a query
  // ---------------------------------------------------------------------------------------

  /** The query stands once or twice, and the larger of every two entries for a shared bit. */
  lemma ExtendedIs(query: seq<real>)
    ensures ExtendedQuery(query, OneBit) == query
    ensures ExtendedQuery(query, TwoBits) == query + query
    ensures |ExtendedQuery(query, OneAndHalfBits)| == |query| + (|query| + 1) / 2
    ensures ExtendedQuery(query, OneAndHalfBits)[..|query|] == query
  {
    HalfOf(|query|);
  }

  lemma SharedEntry(query: seq<real>, i: nat)
    requires i < |query|
    ensures var extended := ExtendedQuery(query, OneAndHalfBits);
            && |query| + i / 2 < |extended| && query[i] <= extended[|query| + i / 2]
            && exists j: nat :: j < |query| && j / 2 == i / 2 && extended[|query| + i / 2] == query[j]
  {
    ExtendedIs(query);
    HalfOf(|query|);
    hide DivCeil;
    var p := i / 2;
    assert i == 2 * p || i == 2 * p + 1;
    var j := if 2 * p + 1 < |query| && query[2 * p] < query[2 * p + 1] then 2 * p + 1 else 2 * p;
    assert j / 2 == p && ExtendedQuery(query, OneAndHalfBits)[|query| + p] == query[j];
  }

  /** A query that is nearly zero has no entries but zeros. */
  lemma NearlyZeroIsZero(query: seq<real>, k: nat, w: nat, i: nat)
    requires k > 0 && i < |query| && Delta(query, k) <= 1.0 / 8388608.0
    ensures Quantized(query, k, w)[i] == 0
  {
    QuantizedAt(query, k, w, i);
    ShlIsPositive(k);
    hide MaxAbs, Delta, Shl, Quantized;
    SmallModulo(0, Shl(1, k));
  }

  lemma PowerDoubles(k: nat)
    requires k > 0
    ensures Shl(1, k) == 2 * Shl(1, k - 1) && Shl(1, k - 1) > 0
  {
    ShlIsPositive(k - 1);
  }

  /** In any other query an entry is in the upper half of the numbers exactly when it is not negative. */
  lemma UpperHalfIsSign(query: seq<real>, k: nat, w: nat, i: nat)
    requires 0 < k <= w && i < |query| && Delta(query, k) > 1.0 / 8388608.0
    ensures query[i] >= 0.0 <==> 2 * Quantized(query, k, w)[i] >= Shl(1, k)
  {
    ShlIsPositive(k);
    PowerDoubles(k);
    DeltaTimes(query, k);
    QuantizedAt(query, k, w, i);
    ShlOrder(k, w);
    var max, delta, x := MaxAbs(query), Delta(query, k), query[i] + MaxAbs(query);
    hide MaxAbs, Delta, Shl, Rounded, BinaryEncoding.Times, Quantized;
    ScaledInRange(x, delta, Shl(1, k) - 1);
    QuantizeIs(query[i], -max, x, delta, k);
    HalfWay(x, max, delta, Shl(1, k) - 1);
    var half := Shl(1, k - 1);
    assert (x / delta + 0.5).Floor >= half <==> x / delta + 0.5 >= half as real;
  }

  lemma HalfWay(x: real, max: real, d: real, ranges: nat)
    requires d > 0.0 && BinaryEncoding.Times(d, ranges as real) == max + max
    ensures x >= max <==> x / d >= ranges as real / 2.0
  {
    var half := ranges as real / 2.0;
    QuotientBounds(x, d, half);
    assert half * d == max;
  }

  // ---------------------------------------------------------------------------------------
  // Scores
  // ---------------------------------------------------------------------------------------

  /** Bits that tell which entries are in the upper half score less than all others. */
  lemma {:induction false} MatchIsLeast(bits: seq<bool>, others: seq<bool>, qs: seq<nat>, k: nat)
    requires k > 0 && |bits| == |others| == |qs| && Small(qs, k)
    requires forall i :: 0 <= i < |bits| ==> (bits[i] <==> 2 * qs[i] >= Shl(1, k))
    ensures TermSum(bits, qs, k) <= TermSum(others, qs, k)
    ensures TermSum(bits, qs, k) == TermSum(others, qs, k) ==> bits == others
    decreases |bits|
  {
    if |bits| > 0 {
      var last := |bits| - 1;
      PowerDoubles(k);
      MatchIsLeast(bits[..last], others[..last], qs[..last], k);
      assert bits == bits[..last] + [bits[last]] && others == others[..last] + [others[last]];
      assert Term(bits[last], qs[last], k) <= Term(others[last], qs[last], k);
    }
  }

  /**
   With one bit an element, no vector scores less against a query than one whose elements have the signs
   of the query, and only those with the same bits score as little.
   */
  lemma SameSignsScoreLeast(vector: seq<real>, query: seq<real>, other: seq<real>, stats: Option<seq<ElementStats>>,
                            k: nat, w: nat)
    requires 0 < k <= w && |vector| == |query| == |other| && Delta(query, k) > 1.0 / 8388608.0
    requires forall i :: 0 <= i < |vector| ==> vector[i] * query[i] > 0.0
    ensures var qs := Quantized(ExtendedQuery(query, OneBit), k, w);
            var bits, others := VectorBits(vector, stats, OneBit), VectorBits(other, stats, OneBit);
            && TermSum(bits, qs, k) <= TermSum(others, qs, k)
            && (TermSum(bits, qs, k) == TermSum(others, qs, k) ==>
                  forall i :: 0 <= i < |other| ==> (other[i] > 0.0 <==> vector[i] > 0.0))
  {
    var qs := Quantized(query, k, w);
    SignBits(vector, stats);
    SignBits(other, stats);
    ExtendedIs(query);
    hide Delta, Quantized, VectorBits, ExtendedQuery, TermSum, Shl;
    var bits, others := VectorBits(vector, stats, OneBit), VectorBits(other, stats, OneBit);
    forall i | 0 <= i < |bits| ensures bits[i] <==> 2 * qs[i] >= Shl(1, k) {
      UpperHalfIsSign(query, k, w, i);
      assert vector[i] * query[i] > 0.0;
    }
    MatchIsLeast(bits, others, qs, k);
  }
}
