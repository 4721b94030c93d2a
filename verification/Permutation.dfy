/** An in-place shuffle that is undone by running its random number generator backwards. */
module ShufflePermutation {
  import opened Wrappers
  import opened Layout

  const A: nat := 6_364_136_223_846_793_005
  const C: nat := 1_442_695_040_888_963_407
  const A_INV: nat := 13_877_824_140_714_322_085

  type U64 = n: nat | n < 0x1_0000_0000_0000_0000

  // ---------------------------------------------------------------------------------------
  // The generator, forwards and backwards, with wrapping arithmetic
  // ---------------------------------------------------------------------------------------

  function Step(state: U64): U64 {
    (state * A + C) % 0x1_0000_0000_0000_0000
  }

  function StepBack(state: U64): U64 {
    (state - C) % 0x1_0000_0000_0000_0000 * A_INV % 0x1_0000_0000_0000_0000
  }

  /** The product of the multiplier and its inverse is one more than this multiple of 2^64. */
  const QUOTIENT: nat := 4_787_856_489_426_250_814

  lemma {:induction false} StepBackUndoesStep(state: U64)
    ensures StepBack(Step(state)) == state
  {
    var m: nat := 0x1_0000_0000_0000_0000;
    var z := (Step(state) - C) % m;
    var t := (state * A + C) / m + (Step(state) - C) / m;
    assert z == state * A - m * t;
    assert A * A_INV == m * QUOTIENT + 1;
    assert z * A_INV == state * (A * A_INV) - m * (t * A_INV);
    Remainder(z * A_INV, m, state * QUOTIENT - t * A_INV, state);
  }

  class ReversibleLcg {
    var state: U64

    constructor (seed: U64)
      ensures state == seed
    {
      state := seed;
    }

    method Next() returns (r: U64)
      modifies this
      ensures r == state == Step(old(state))
    {
      state := (state * A + C) % 0x1_0000_0000_0000_0000;
      r := state;
    }

    method NextBack() returns (r: U64)
      modifies this
      ensures r == old(state) && state == StepBack(old(state))
    {
      r := state;
      state := (state - C) % 0x1_0000_0000_0000_0000 * A_INV % 0x1_0000_0000_0000_0000;
    }
  }

  /** The state after `n` steps; the `n`-th draw. */
  function Draw(seed: U64, n: nat): U64 {
    if n == 0 then seed else Step(Draw(seed, n - 1))
  }

  function BoundedRand(val: U64, bound: nat): (r: nat)
    requires bound > 0
    ensures r < bound
  {
    val / 0x1_0000_0000 % bound
  }

  /** A draw below a bound is what is left when the bound is taken from the upper half of the state. */
  lemma BoundedRandIs(val: U64, bound: nat) returns (upper: nat, lower: nat, times: nat)
    requires bound > 0
    ensures val == upper * 0x1_0000_0000 + lower && lower < 0x1_0000_0000
    ensures upper == times * bound + BoundedRand(val, bound) && BoundedRand(val, bound) < bound
  {
    upper, lower := val / 0x1_0000_0000, val % 0x1_0000_0000;
    times := upper / bound;
  }

  function Pow(b: nat, n: nat): nat {
    if n == 0 then 1 else b * Pow(b, n - 1)
  }

  /** `1 + b + b^2 + ...`, with `n` terms. */
  function PowerSum(b: nat, n: nat): nat {
    if n == 0 then 0 else b * PowerSum(b, n - 1) + 1
  }

  /** The `n`-th draw in closed form. */
  lemma {:induction false} DrawIs(seed: U64, n: nat)
    ensures var a, c := 6_364_136_223_846_793_005, 1_442_695_040_888_963_407;
            Draw(seed, n) == (Pow(a, n) * seed + c * PowerSum(a, n)) % 0x1_0000_0000_0000_0000
  {
    if n > 0 {
      DrawIs(seed, n - 1);
      StepOfSum(Draw(seed, n - 1), Pow(A, n - 1), seed, PowerSum(A, n - 1));
    }
  }

  lemma StepOfSum(state: U64, p: nat, seed: nat, g: nat)
    requires state == (p * seed + C * g) % 0x1_0000_0000_0000_0000
    ensures Step(state) == ((A * p) * seed + C * (A * g + 1)) % 0x1_0000_0000_0000_0000
  {
    var m: nat := 0x1_0000_0000_0000_0000;
    var x := p * seed + C * g;
    var t := x / m;
    assert (A * p) * seed + C * (A * g + 1) == x * A + C by {
      assert (A * p) * seed == p * seed * A;
    }
    assert x * A + C == (state * A + C) + m * (t * A);
    Remainder(x * A + C, m, (state * A + C) / m + t * A, Step(state));
  }

  // ---------------------------------------------------------------------------------------
  // The shuffle
  // ---------------------------------------------------------------------------------------

  function Swap<T>(s: seq<T>, i: nat, j: nat): (r: seq<T>)
    requires i < |s| && j < |s|
    ensures |r| == |s|
  {
    s[i := s[j]][j := s[i]]
  }

  lemma SwapTwice<T>(s: seq<T>, i: nat, j: nat)
    requires i < |s| && j < |s|
    ensures Swap(Swap(s, i, j), i, j) == s
    ensures multiset(Swap(s, i, j)) == multiset(s)
  {
  }

  /** The place that the `n`-th draw swaps with place `count - n`. */
  function Partner(seed: U64, count: nat, n: nat): (r: nat)
    requires 1 <= n < count
    ensures r <= count - n
  {
    BoundedRand(Draw(seed, n), count - n + 1)
  }

  /** The first `n` swaps of the shuffle. */
  function Shuffled<T>(seed: U64, s: seq<T>, n: nat): (r: seq<T>)
    requires n == 0 || n < |s|
    ensures |r| == |s|
  {
    if n == 0 then s else Swap(Shuffled(seed, s, n - 1), |s| - n, Partner(seed, |s|, n))
  }

  /** The same swaps the other way round, from the `n`-th back to the first. */
  function Unshuffled<T>(seed: U64, s: seq<T>, n: nat): (r: seq<T>)
    requires n == 0 || n < |s|
    ensures |r| == |s|
    decreases n
  {
    if n == 0 then s else Unshuffled(seed, Swap(s, |s| - n, Partner(seed, |s|, n)), n - 1)
  }

  function Swaps(count: nat): nat {
    if count == 0 then 0 else count - 1
  }

  function Permuted<T>(seed: U64, s: seq<T>): seq<T> {
    Shuffled(seed, s, Swaps(|s|))
  }

  function Unpermuted<T>(seed: U64, s: seq<T>): seq<T> {
    Unshuffled(seed, s, Swaps(|s|))
  }

  lemma {:induction false} UnshuffleUndoesShuffle<T>(seed: U64, s: seq<T>, n: nat)
    requires n == 0 || n < |s|
    ensures Unshuffled(seed, Shuffled(seed, s, n), n) == s
    ensures multiset(Shuffled(seed, s, n)) == multiset(s)
  {
    hide Partner, Swap;
    if n > 0 {
      SwapTwice(Shuffled(seed, s, n - 1), |s| - n, Partner(seed, |s|, n));
      UnshuffleUndoesShuffle(seed, s, n - 1);
    }
  }

  lemma {:induction false} ShuffleUndoesUnshuffle<T>(seed: U64, s: seq<T>, n: nat)
    requires n == 0 || n < |s|
    ensures Shuffled(seed, Unshuffled(seed, s, n), n) == s
    decreases n
  {
    hide Partner, Swap;
    if n > 0 {
      var t := Swap(s, |s| - n, Partner(seed, |s|, n));
      SwapTwice(s, |s| - n, Partner(seed, |s|, n));
      ShuffleUndoesUnshuffle(seed, t, n - 1);
    }
  }

  /** For every seed, length and contents the inverse restores the sequence, on either side, and no element is lost. */
  lemma PermutationIsReversible<T>(seed: U64, s: seq<T>)
    ensures Unpermuted(seed, Permuted(seed, s)) == s && Permuted(seed, Unpermuted(seed, s)) == s
    ensures multiset(Permuted(seed, s)) == multiset(s)
  {
    UnshuffleUndoesShuffle(seed, s, Swaps(|s|));
    ShuffleUndoesUnshuffle(seed, s, Swaps(|s|));
  }

  // ---------------------------------------------------------------------------------------
  // What the shuffle does: each draw picks one of the elements that are left for the last free place
  // ---------------------------------------------------------------------------------------

  /** The elements that are left when the one at `j` is picked: the last one takes its place. */
  function Left<T>(s: seq<T>, j: nat): (r: seq<T>)
    requires j < |s|
    ensures |r| == |s| - 1
  {
    s[j := s[|s| - 1]][..|s| - 1]
  }

  predicate Choices(picks: seq<nat>, count: nat) {
    && |picks| == Swaps(count)
    && forall k :: 0 <= k < |picks| ==> picks[k] < count - k
  }

  /** The order in which the picks put the elements, from the last place to the first. */
  function Picked<T>(picks: seq<nat>, s: seq<T>): (r: seq<T>)
    requires Choices(picks, |s|)
    ensures |r| == |s|
    decreases |s|
  {
    if |s| <= 1 then s else Picked(picks[1..], Left(s, picks[0])) + [s[picks[0]]]
  }

  /** The picks that a seed draws: each the upper half of a state, reduced to the number of elements left. */
  function DrawnPicks(seed: U64, count: nat): (r: seq<nat>)
    ensures Choices(r, count)
  {
    seq(Swaps(count), k requires 0 <= k < Swaps(count) => Draw(seed, k + 1) / 0x1_0000_0000 % (count - k))
  }

  /** The first `size` elements in the order of the picks, and the others where they are. */
  function Finished<T>(picks: seq<nat>, u: seq<T>, size: nat): seq<T>
    requires size <= |u| && Choices(picks, size)
  {
    Picked(picks, u[..size]) + u[size..]
  }

  /** What comes of the elements after `n` swaps when the picks that are left order the others. */
  function FinishedAfter<T>(seed: U64, s: seq<T>, n: nat): seq<T>
    requires n == 0 || n < |s|
  {
    DrawnAt(seed, |s|, n);
    Finished(DrawnPicks(seed, |s|)[n..], Shuffled(seed, s, n), |s| - n)
  }

  /** After any number of swaps the last places are final, and the picks that are left order the others. */
  lemma {:induction false} ShuffledIsPicked<T>(seed: U64, s: seq<T>, n: nat)
    requires n == 0 || n < |s|
    ensures Picked(DrawnPicks(seed, |s|), s) == FinishedAfter(seed, s, n)
    decreases n
  {
    hide FinishedAfter, DrawnPicks, Picked, Choices;
    if n == 0 {
      NothingFinished(seed, s);
    } else {
      ShuffledIsPicked(seed, s, n - 1);
      NextFinished(seed, s, n);
    }
  }

  lemma NextFinished<T>(seed: U64, s: seq<T>, n: nat)
    requires 0 < n < |s|
    ensures FinishedAfter(seed, s, n) == FinishedAfter(seed, s, n - 1)
  {
    DrawnAt(seed, |s|, n - 1);
    DrawnAt(seed, |s|, n);
    NextShuffled(seed, s, n);
    var left := DrawnPicks(seed, |s|)[n - 1..];
    hide Partner, DrawnPicks, Shuffled, Finished, Picked, Swap, Choices;
    PickOne(left, Shuffled(seed, s, n - 1), |s| - n + 1);
  }

  lemma NothingFinished<T>(seed: U64, s: seq<T>)
    ensures FinishedAfter(seed, s, 0) == Picked(DrawnPicks(seed, |s|), s)
  {
    DrawnAt(seed, |s|, 0);
    assert s[..|s|] == s && s[|s|..] == [];
  }

  /** The picks that are left after `n` of them. */
  lemma DrawnAt(seed: U64, count: nat, n: nat)
    requires n == 0 || n < count
    ensures var picks := DrawnPicks(seed, count);
            && n <= |picks| && Choices(picks[n..], count - n)
            && (n < |picks| ==> picks[n..][0] == Partner(seed, count, n + 1) && picks[n..][1..] == picks[n + 1..])
            && (n == 0 ==> picks[n..] == picks)
  {
    var picks := DrawnPicks(seed, count);
    if n < |picks| {
      assert picks[n] == Partner(seed, count, n + 1);
    }
  }

  lemma NoneShuffled<T>(seed: U64, s: seq<T>)
    ensures Shuffled(seed, s, 0) == s
  {
  }

  lemma SwapIs<T>(s: seq<T>, t: seq<T>, i: nat, j: nat)
    requires i < |s| == |t| && j < |s| && t[i] == s[j] && t[j] == s[i]
    requires forall k :: 0 <= k < |s| && k != i && k != j ==> t[k] == s[k]
    ensures t == Swap(s, i, j)
  {
  }

  lemma NextShuffled<T>(seed: U64, s: seq<T>, n: nat)
    requires 0 < n < |s|
    ensures Shuffled(seed, s, n) == Swap(Shuffled(seed, s, n - 1), |s| - n, Partner(seed, |s|, n))
  {
  }

  lemma PickOne<T>(picks: seq<nat>, u: seq<T>, size: nat)
    requires 1 < size <= |u| && Choices(picks, size)
    ensures var v := Swap(u, size - 1, picks[0]);
            && Choices(picks[1..], size - 1)
            && Finished(picks, u, size) == Finished(picks[1..], v, size - 1)
  {
    var v := Swap(u, size - 1, picks[0]);
    assert v[..size - 1] == Left(u[..size], picks[0]);
    assert v[size - 1..] == [u[..size][picks[0]]] + u[size..];
  }

  /** The shuffle puts the elements in the order of the picks that its seed draws. */
  lemma PermutedIsPicked<T>(seed: U64, s: seq<T>)
    ensures Permuted(seed, s) == Picked(DrawnPicks(seed, |s|), s)
    ensures |s| > 1 ==> Permuted(seed, s)[|s| - 1] == s[Draw(seed, 1) / 0x1_0000_0000 % |s|]
  {
    ShuffledIsPicked(seed, s, Swaps(|s|));
    AllFinished(seed, s);
  }

  lemma AllFinished<T>(seed: U64, s: seq<T>)
    ensures FinishedAfter(seed, s, Swaps(|s|)) == Permuted(seed, s)
  {
    var n, u := Swaps(|s|), Permuted(seed, s);
    DrawnAt(seed, |s|, n);
    hide DrawnPicks, Shuffled;
    assert u[..|s| - n] + u[|s| - n..] == u;
  }

  /** Different picks give different orders of elements that differ. */
  lemma {:induction false} PicksAreTold<T>(picks: seq<nat>, others: seq<nat>, s: seq<T>)
    requires Distinct(s) && Choices(picks, |s|) && Choices(others, |s|)
    requires Picked(picks, s) == Picked(others, s)
    ensures picks == others
    decreases |s|
  {
    if |s| > 1 {
      var a, b := Picked(picks[1..], Left(s, picks[0])), Picked(others[1..], Left(s, others[0]));
      assert (a + [s[picks[0]]])[|s| - 1] == (b + [s[others[0]]])[|s| - 1];
      assert a == (a + [s[picks[0]]])[..|s| - 1] == (b + [s[others[0]]])[..|s| - 1] == b;
      LeftIsDistinct(s, picks[0]);
      PicksAreTold(picks[1..], others[1..], Left(s, picks[0]));
      assert picks == [picks[0]] + picks[1..] && others == [others[0]] + others[1..];
    }
  }

  lemma LeftIsDistinct<T>(s: seq<T>, j: nat)
    requires Distinct(s) && j < |s|
    ensures Distinct(Left(s, j))
  {
  }

  lemma LeftLosesOne<T>(s: seq<T>, j: nat)
    requires j < |s|
    ensures multiset(Left(s, j)) == multiset(s) - multiset{s[j]}
  {
    var last := |s| - 1;
    var moved := s[j := s[last]];
    assert moved == moved[..last] + [moved[last]];
    assert s == s[..last] + [s[last]];
  }

  /** Every order of the elements is that of some picks. */
  lemma {:induction false} EveryOrderIsPicked<T>(s: seq<T>, t: seq<T>) returns (picks: seq<nat>)
    requires multiset(s) == multiset(t)
    ensures Choices(picks, |s|) && Picked(picks, s) == t
    decreases |s|
  {
    assert |s| == |multiset(s)| == |multiset(t)| == |t|;
    if |s| <= 1 {
      picks := [];
      assert |s| == 1 ==> s[0] in multiset(t);
    } else {
      var j := LastIsPicked(s, t);
      var rest := EveryOrderIsPicked(Left(s, j), t[..|t| - 1]);
      hide Left, Picked;
      PickFirst(rest, s, j);
      assert t == t[..|t| - 1] + [t[|t| - 1]];
      picks := [j] + rest;
    }
  }

  lemma LastIsPicked<T>(s: seq<T>, t: seq<T>) returns (j: nat)
    requires multiset(s) == multiset(t) && |s| == |t| > 0
    ensures j < |s| && s[j] == t[|t| - 1] && multiset(Left(s, j)) == multiset(t[..|t| - 1])
  {
    var last := t[|t| - 1];
    assert last in multiset(s);
    j :| 0 <= j < |s| && s[j] == last;
    assert t == t[..|t| - 1] + [last];
    LeftLosesOne(s, j);
  }

  lemma PickFirst<T>(rest: seq<nat>, s: seq<T>, j: nat)
    requires j < |s| && |s| > 1 && Choices(rest, |s| - 1)
    ensures Choices([j] + rest, |s|) && Picked([j] + rest, s) == Picked(rest, Left(s, j)) + [s[j]]
  {
    assert ([j] + rest)[1..] == rest;
  }

  /** A seed, a length and, when built for reversing, the state of the generator after all draws. */
  datatype Permutation = Permutation(seed: U64, count: nat, endState: Option<U64>) {

    predicate Valid() {
      endState.Some? ==> endState.value == Draw(seed, Swaps(count))
    }

    static method CalculateEndState(seed: U64, count: nat) returns (r: U64)
      ensures r == Draw(seed, Swaps(count))
    {
      var rng := new ReversibleLcg(seed);
      var i := 1;
      while i < count
        invariant 1 <= i && (i <= count || i == 1)
        invariant rng.state == Draw(seed, i - 1)
      {
        var _ := rng.Next();
        i := i + 1;
      }
      return rng.state;
    }

    static method NewReversible(seed: U64, count: nat) returns (p: Permutation)
      ensures p.Valid() && p.seed == seed && p.count == count && p.endState.Some?
    {
      var end := CalculateEndState(seed, count);
      p := Permutation(seed, count, Some(end));
    }

    static method NewOneWay(seed: U64, count: nat) returns (p: Permutation)
      ensures p.Valid() && p.seed == seed && p.count == count && p.endState.None?
    {
      p := Permutation(seed, count, None);
    }

    method Permute(arr: array<real>)
      requires Valid() && arr.Length == count
      modifies arr
      ensures arr[..] == Permuted(seed, old(arr[..]))
    {
      hide Shuffled, Swap, Step;
      var rng := new ReversibleLcg(seed);
      ghost var before := arr[..];
      NoneShuffled(seed, before);
      var i: int := count - 1;
      while i >= 1
        invariant (count == 0 && i == -1) || 0 <= i < count
        invariant rng.state == Draw(seed, if count == 0 then 0 else count - 1 - i)
        invariant arr[..] == Shuffled(seed, before, if count == 0 then 0 else count - 1 - i)
      {
        var rand := rng.Next();
        ghost var n := count - i;
        var j := BoundedRand(rand, i + 1);
        assert j == Partner(seed, count, n);
        ghost var was := arr[..];
        arr[i], arr[j] := arr[j], arr[i];
        SwapIs(was, arr[..], i, j);
        NextShuffled(seed, before, n);
        i := i - 1;
      }
    }

    method Unpermute(arr: array<real>)
      requires Valid() && arr.Length == count
      modifies arr
      ensures arr[..] == Unpermuted(seed, old(arr[..]))
    {
      hide Step, StepBack, Swap;
      ghost var before := arr[..];
      var end;
      if endState.Some? {
        end := endState.value;
      } else {
        end := CalculateEndState(seed, count);
      }
      var rng := new ReversibleLcg(end);
      var i := 1;
      while i < count
        invariant 1 <= i && (i <= count || count == 0)
        invariant rng.state == Draw(seed, if count == 0 then 0 else count - i)
        invariant count > 0 ==> Unshuffled(seed, arr[..], count - i) == Unpermuted(seed, before)
        invariant count == 0 ==> arr[..] == before
      {
        ghost var n := count - i;
        StepBackUndoesStep(Draw(seed, n - 1));
        var rand := rng.NextBack();
        var j := BoundedRand(rand, i + 1);
        assert j == Partner(seed, count, n);
        ghost var was := arr[..];
        arr[i], arr[j] := arr[j], arr[i];
        SwapIs(was, arr[..], i, j);
        i := i + 1;
      }
    }
  }
}
