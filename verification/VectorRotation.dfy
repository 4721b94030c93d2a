/** The whole rotation of a vector and its inverse, and what the rotation is for: it preserves dot products. */
module VectorRotation {
  import opened Wrappers
  import opened ShufflePermutation
  import opened WalshHadamard

  /** The factor that `1 / sqrt(n)` stands for, for the sizes of chunks. */
  ghost predicate Normalizes(norm: nat -> real) {
    forall n: nat :: PowerOfTwo(n) ==> norm(n) * norm(n) * (n as real) == 1.0
  }

  /** Divides by the root once for every doubling. */
  function RootNorm(root: real, n: nat): real
    requires root != 0.0
  {
    if n <= 1 then 1.0 else RootNorm(root, n / 2) / root
  }

  lemma {:induction false} RootNormalizes(root: real, n: nat)
    requires root * root == 2.0 && PowerOfTwo(n)
    ensures root != 0.0 && RootNorm(root, n) * RootNorm(root, n) * (n as real) == 1.0
  {
    if n > 1 {
      RootNormalizes(root, n / 2);
      HalvedNorm(RootNorm(root, n / 2), root, (n / 2) as real);
    }
  }

  lemma HalvedNorm(c: real, root: real, h: real)
    requires root * root == 2.0 && c * c * h == 1.0
    ensures root != 0.0 && (c / root) * (c / root) * (2.0 * h) == 1.0
  {
    var d := c / root;
    assert d * root == c;
    assert c * c == (d * d) * (root * root) by {
      assert (d * root) * (d * root) == (d * d) * (root * root);
    }
  }

  /** One square root, that of two, is enough to normalize all chunks. */
  lemma SomeNormNormalizes(root: real) returns (norm: nat -> real)
    requires root * root == 2.0
    ensures Normalizes(norm)
  {
    assert root != 0.0;
    norm := (n: nat) => RootNorm(root, n);
    forall n: nat | PowerOfTwo(n) ensures norm(n) * norm(n) * (n as real) == 1.0 {
      RootNormalizes(root, n);
    }
  }

  // ---------------------------------------------------------------------------------------
  // Chunks
  // ---------------------------------------------------------------------------------------

  /** `1 << bits.ilog2()`. */
  function HighestPower(bits: nat): (r: nat)
    requires bits > 0
    ensures PowerOfTwo(r) && r <= bits < 2 * r
  {
    if bits == 1 then 1 else 2 * HighestPower(bits / 2)
  }

  function ChunkSizes(bits: nat): seq<nat> {
    if bits == 0 then [] else [HighestPower(bits)] + ChunkSizes(bits - HighestPower(bits))
  }

  function Sum(s: seq<nat>): nat {
    if s == [] then 0 else s[0] + Sum(s[1..])
  }

  /** The chunks are distinct powers of two, largest first, and cover the dimension exactly. */
  lemma {:induction false} ChunksTile(dim: nat)
    ensures Sum(ChunkSizes(dim)) == dim
    ensures forall i :: 0 <= i < |ChunkSizes(dim)| ==> PowerOfTwo(ChunkSizes(dim)[i]) && ChunkSizes(dim)[i] <= dim
    ensures forall i, j :: 0 <= i < j < |ChunkSizes(dim)| ==> ChunkSizes(dim)[i] > ChunkSizes(dim)[j]
  {
    if dim > 0 {
      var h := HighestPower(dim);
      ChunksTile(dim - h);
      assert ChunkSizes(dim)[1..] == ChunkSizes(dim - h);
    }
  }

  /** Takes the highest bit off until none is left; clearing it by exclusive or is subtracting it. */
  method ComputeChunkSizes(dim: nat) returns (sizes: seq<nat>)
    ensures sizes == ChunkSizes(dim)
  {
    hide HighestPower, PowerOfTwo, ChunkSizes;
    sizes := [];
    NoSizes(sizes);
    var bits: nat := dim;
    while bits != 0
      invariant bits <= dim
      invariant sizes + ChunkSizes(bits) == ChunkSizes(dim)
    {
      var highest := HighestPower(bits);
      NextSize(sizes, bits);
      bits := bits - highest;
      sizes := sizes + [highest];
    }
    NoSizes(sizes);
  }

  lemma NoSizes(sizes: seq<nat>)
    ensures sizes + ChunkSizes(0) == sizes && [] + sizes == sizes
  {
  }

  lemma NextSize(sizes: seq<nat>, bits: nat)
    requires bits > 0
    ensures var h := HighestPower(bits); (sizes + [h]) + ChunkSizes(bits - h) == sizes + ChunkSizes(bits)
  {
    hide HighestPower;
  }

  /** Each chunk transformed and normalized. */
  function NormalizedChunks(x: Vec, norm: nat -> real): (r: Vec)
    ensures |r| == |x|
    decreases |x|
  {
    if x == [] then []
    else
      var h := HighestPower(|x|);
      Scale(norm(h), Wht(x[..h])) + NormalizedChunks(x[h..], norm)
  }

  /**
   Element `i` of chunk `k`: the factor for the size of the chunk, times the sum of the chunk's elements
   with the signs of row `i`.
   */
  lemma {:induction false} ChunkEntry(x: Vec, norm: nat -> real, k: nat, i: nat)
    requires k < |ChunkSizes(|x|)| && i < ChunkSizes(|x|)[k]
    ensures var sizes := ChunkSizes(|x|);
            var first := Sum(sizes[..k]);
            && first + sizes[k] <= |x|
            && NormalizedChunks(x, norm)[first + i] == norm(sizes[k]) * SignedSum(i, x[first..][..sizes[k]], 0)
    decreases k
  {
    hide HighestPower, NormalizedChunks, Wht, Scale, SignedSum, PowerOfTwo, ChunkSizes, Sum;
    var sizes := ChunkSizes(|x|);
    FirstChunk(|x|, sizes);
    if k == 0 {
      NoneBefore(sizes);
      FirstEntry(x, norm, i);
    } else {
      ChunkEntry(x[sizes[0]..], norm, k - 1, i);
      OneMoreBefore(sizes, k);
      LaterEntry(x, norm, Sum(sizes[1..][..k - 1]), i);
    }
  }

  lemma FirstEntry(x: Vec, norm: nat -> real, i: nat)
    requires x != [] && i < HighestPower(|x|)
    ensures var h := HighestPower(|x|); NormalizedChunks(x, norm)[i] == norm(h) * SignedSum(i, x[0..][..h], 0)
  {
    hide HighestPower, NormalizedChunks, Wht, SignedSum, PowerOfTwo;
    UnfoldChunks(x, norm);
    var first := x[..HighestPower(|x|)];
    assert x[0..] == x;
    WhtIs(first, i);
    EntryOf(Scale(norm(|first|), Wht(first)), NormalizedChunks(x[|first|..], norm), i);
  }

  lemma LaterEntry(x: Vec, norm: nat -> real, before: nat, i: nat)
    requires x != [] && HighestPower(|x|) + before + i < |x|
    ensures var h := HighestPower(|x|);
            && NormalizedChunks(x, norm)[h + before + i] == NormalizedChunks(x[h..], norm)[before + i]
            && x[h + before..] == x[h..][before..]
  {
    hide HighestPower, NormalizedChunks, Wht, Scale, PowerOfTwo;
    UnfoldChunks(x, norm);
    var h := HighestPower(|x|);
    DropTwice(x, h, before);
    EntryOf(Scale(norm(h), Wht(x[..h])), NormalizedChunks(x[h..], norm), h + before + i);
  }

  lemma DropTwice(x: Vec, h: nat, before: nat)
    requires h + before <= |x|
    ensures x[h + before..] == x[h..][before..]
  {
  }

  lemma EntryOf(a: Vec, b: Vec, i: nat)
    requires i < |a| + |b|
    ensures (a + b)[i] == if i < |a| then a[i] else b[i - |a|]
  {
  }

  lemma NoneBefore(sizes: seq<nat>)
    ensures Sum(sizes[..0]) == 0
  {
  }

  lemma OneMoreBefore(sizes: seq<nat>, k: nat)
    requires 0 < k <= |sizes|
    ensures Sum(sizes[..k]) == sizes[0] + Sum(sizes[1..][..k - 1])
  {
    assert sizes[..k][1..] == sizes[1..][..k - 1];
  }

  lemma TimesTwice(a: real, b: real, v: real)
    ensures Times(a, Times(b, v)) == Times(a * b, v)
  {
  }

  lemma ScaleTwice(a: real, b: real, x: Vec)
    ensures Scale(a, Scale(b, x)) == Scale(a * b, x)
  {
    var l, r := Scale(a, Scale(b, x)), Scale(a * b, x);
    hide Times;
    forall i | 0 <= i < |x| ensures l[i] == r[i] {
      TimesTwice(a, b, x[i]);
    }
  }

  lemma ScaleOne(x: Vec)
    ensures Scale(1.0, x) == x
  {
  }

  lemma Reassociate(c: real, n: real, d: real)
    requires c * c * n == 1.0 && d == c * n
    ensures c * d == 1.0
  {
  }

  lemma ChunkTwice(c: real, x: Vec)
    requires PowerOfTwo(|x|) && c * c * (|x| as real) == 1.0
    ensures Scale(c, Wht(Scale(c, Wht(x)))) == x
  {
    hide Wht, Scale, Times;
    var n := |x| as real;
    var d := c * n;
    Reassociate(c, n, d);
    WhtScales(c, Wht(x));
    WhtTwice(x);
    ScaleTwice(c, n, x);
    ScaleTwice(c, d, x);
    ScaleOne(x);
    calc {
      Scale(c, Wht(Scale(c, Wht(x))));
      Scale(c, Scale(c, Scale(n, x)));
      Scale(c, Scale(d, x));
      Scale(1.0, x);
      x;
    }
  }

  lemma {:induction false} NormalizedTwice(x: Vec, norm: nat -> real)
    requires Normalizes(norm)
    ensures NormalizedChunks(NormalizedChunks(x, norm), norm) == x
    decreases |x|
  {
    hide Wht, Scale;
    if x != [] {
      var h := HighestPower(|x|);
      var c := norm(h);
      var first, rest := Scale(c, Wht(x[..h])), NormalizedChunks(x[h..], norm);
      assert (first + rest)[..h] == first && (first + rest)[h..] == rest;
      ChunkTwice(c, x[..h]);
      NormalizedTwice(x[h..], norm);
      assert x == x[..h] + x[h..];
    }
  }

  method ScaleInPlace(arr: array<real>, lo: nat, n: nat, c: real)
    requires lo + n <= arr.Length
    modifies arr
    ensures Part(arr, lo, n) == Scale(c, old(Part(arr, lo, n)))
    ensures arr[..lo] == old(arr[..lo]) && arr[lo + n..] == old(arr[lo + n..])
  {
    ghost var was := arr[..];
    var i := 0;
    while i < n
      invariant i <= n
      invariant forall k :: 0 <= k < arr.Length ==> arr[k] == if lo <= k < lo + i then Times(c, was[k]) else was[k]
    {
      arr[lo + i] := c * arr[lo + i];
      i := i + 1;
    }
  }

  method WhtNormalizedChunks(arr: array<real>, norm: nat -> real)
    modifies arr
    ensures arr[..] == NormalizedChunks(old(arr[..]), norm)
  {
    hide Wht, Scale, ChunkSizes, NormalizedChunks, HighestPower, PowerOfTwo;
    ghost var goal := NormalizedChunks(arr[..], norm);
    var sizes := ComputeChunkSizes(arr.Length);
    var offset, k := 0, 0;
    assert arr[..0] + NormalizedChunks(arr[0..], norm) == goal by { assert arr[0..] == arr[..]; }
    while k < |sizes|
      invariant k <= |sizes| && 0 <= offset <= arr.Length && sizes[k..] == ChunkSizes(arr.Length - offset)
      invariant arr[..offset] + NormalizedChunks(arr[offset..], norm) == goal
      decreases |sizes| - k
    {
      FirstChunk(arr.Length - offset, sizes[k..]);
      var size := sizes[k];
      WhtNextChunk(arr, offset, size, norm);
      offset := offset + size;
      assert sizes[k + 1..] == sizes[k..][1..];
      k := k + 1;
    }
    NoChunks(arr.Length - offset, norm);
  }

  /** Transforms and normalizes the chunk at `offset`. */
  method WhtNextChunk(arr: array<real>, offset: nat, size: nat, norm: nat -> real)
    requires offset < arr.Length && size == HighestPower(arr.Length - offset)
    modifies arr
    ensures offset + size <= arr.Length
    ensures arr[..offset + size] + NormalizedChunks(arr[offset + size..], norm) ==
            old(arr[..offset]) + NormalizedChunks(old(arr[offset..]), norm)
  {
    hide Wht, Scale, NormalizedChunks, HighestPower, PowerOfTwo;
    ghost var done, rest := arr[..offset], arr[offset..];
    assert Part(arr, offset, size) == rest[..size];
    InPlaceWalshHadamard(arr, offset, size);
    ScaleInPlace(arr, offset, size, norm(size));
    NextChunk(done, rest, norm);
    AfterChunk(done + rest, arr[..], offset, size);
    assert (done + rest)[..offset] == done;
    assert arr[offset + size..] == rest[size..];
  }

  lemma FirstChunk(bits: nat, sizes: seq<nat>)
    requires sizes == ChunkSizes(bits) && sizes != []
    ensures bits > 0 && sizes[0] == HighestPower(bits) && sizes[1..] == ChunkSizes(bits - sizes[0])
  {
  }

  lemma NoChunks(bits: nat, norm: nat -> real)
    ensures ChunkSizes(bits) == [] ==> bits == 0
    ensures NormalizedChunks([], norm) == []
  {
  }

  lemma NextChunk(done: Vec, rest: Vec, norm: nat -> real)
    requires rest != []
    ensures var h := HighestPower(|rest|);
            (done + Scale(norm(h), Wht(rest[..h]))) + NormalizedChunks(rest[h..], norm) ==
              done + NormalizedChunks(rest, norm)
  {
    var h := HighestPower(|rest|);
    UnfoldChunks(rest, norm);
    hide Wht, Scale, NormalizedChunks, HighestPower, PowerOfTwo;
    ConcatIsAssociative(done, Scale(norm(h), Wht(rest[..h])), NormalizedChunks(rest[h..], norm));
  }

  lemma UnfoldChunks(x: Vec, norm: nat -> real)
    requires x != []
    ensures var h := HighestPower(|x|);
            NormalizedChunks(x, norm) == Scale(norm(h), Wht(x[..h])) + NormalizedChunks(x[h..], norm)
  {
    hide Wht, Scale;
  }

  lemma ConcatIsAssociative(a: Vec, b: Vec, c: Vec)
    ensures (a + b) + c == a + (b + c)
  {
  }

  lemma AfterChunk(was: Vec, now: Vec, offset: nat, size: nat)
    requires |was| == |now| && offset + size <= |was|
    requires now[..offset] == was[..offset] && now[offset + size..] == was[offset + size..]
    ensures now[..offset + size] == was[..offset] + now[offset..offset + size]
    ensures now[offset + size..] == was[offset..][size..]
  {
    assert now[..offset + size] == now[..offset] + now[offset..offset + size];
  }

  // ---------------------------------------------------------------------------------------
  // The rotation
  // ---------------------------------------------------------------------------------------

  /** Shuffle and transform, once per seed. */
  function Rounds(x: Vec, seeds: seq<U64>, norm: nat -> real): (r: Vec)
    ensures |r| == |x|
    decreases |seeds|
  {
    if seeds == [] then x
    else
      var n := |seeds| - 1;
      var before := Rounds(x, seeds[..n], norm);
      var shuffled := Permuted(seeds[n], before);
      assert |shuffled| == |before|;
      NormalizedChunks(shuffled, norm)
  }

  /** Unshuffle and transform, once per seed, the last seed first. */
  function InverseRounds(y: Vec, seeds: seq<U64>, norm: nat -> real): (r: Vec)
    ensures |r| == |y|
    decreases |seeds|
  {
    if seeds == [] then y
    else
      var n := |seeds| - 1;
      InverseRounds(NormalizedChunks(Unpermuted(seeds[n], y), norm), seeds[..n], norm)
  }

  function Rotated(x: Vec, seeds: seq<U64>, norm: nat -> real): Vec {
    Rounds(NormalizedChunks(x, norm), seeds, norm)
  }

  function InverseRotated(y: Vec, seeds: seq<U64>, norm: nat -> real): Vec {
    InverseRounds(NormalizedChunks(y, norm), seeds, norm)
  }

  lemma {:induction false} InverseRoundsUndo(x: Vec, seeds: seq<U64>, norm: nat -> real)
    requires Normalizes(norm)
    ensures InverseRounds(NormalizedChunks(Rounds(x, seeds, norm), norm), seeds, norm) == NormalizedChunks(x, norm)
    decreases |seeds|
  {
    hide NormalizedChunks, Permuted, Unpermuted, Normalizes;
    if seeds != [] {
      var n := |seeds| - 1;
      var before := Rounds(x, seeds[..n], norm);
      NormalizedTwice(Permuted(seeds[n], before), norm);
      PermutationIsReversible(seeds[n], before);
      InverseRoundsUndo(x, seeds[..n], norm);
    }
  }

  /** For every dimension and all seeds the inverse rotation restores the vector. */
  lemma RotationIsReversible(x: Vec, seeds: seq<U64>, norm: nat -> real)
    requires Normalizes(norm)
    ensures InverseRotated(Rotated(x, seeds, norm), seeds, norm) == x
  {
    InverseRoundsUndo(NormalizedChunks(x, norm), seeds, norm);
    NormalizedTwice(x, norm);
  }

  method ApplyRotation(arr: array<real>, permutations: seq<Permutation>, norm: nat -> real)
    requires forall k :: 0 <= k < |permutations| ==> permutations[k].Valid() && permutations[k].count == arr.Length
    modifies arr
    ensures arr[..] == Rotated(old(arr[..]), SeedsOf(permutations), norm)
  {
    hide NormalizedChunks, Permuted;
    WhtNormalizedChunks(arr, norm);
    ghost var x, seeds := arr[..], SeedsOf(permutations);
    var k := 0;
    while k < |permutations|
      invariant k <= |permutations|
      invariant arr[..] == Rounds(x, seeds[..k], norm)
    {
      permutations[k].Permute(arr);
      WhtNormalizedChunks(arr, norm);
      assert seeds[..k + 1][..k] == seeds[..k] && seeds[..k + 1][k] == permutations[k].seed;
      k := k + 1;
    }
    assert seeds[..k] == seeds;
  }

  method ApplyInverseRotation(arr: array<real>, permutations: seq<Permutation>, norm: nat -> real)
    requires forall k :: 0 <= k < |permutations| ==> permutations[k].Valid() && permutations[k].count == arr.Length
    modifies arr
    ensures arr[..] == InverseRotated(old(arr[..]), SeedsOf(permutations), norm)
  {
    hide NormalizedChunks, Unpermuted;
    WhtNormalizedChunks(arr, norm);
    ghost var y, seeds := arr[..], SeedsOf(permutations);
    var k: nat := |permutations|;
    assert seeds[..k] == seeds;
    while k > 0
      invariant k <= |permutations|
      invariant InverseRounds(arr[..], seeds[..k], norm) == InverseRounds(y, seeds, norm)
    {
      k := k - 1;
      assert seeds[..k + 1][..k] == seeds[..k] && seeds[..k + 1][k] == permutations[k].seed;
      permutations[k].Unpermute(arr);
      WhtNormalizedChunks(arr, norm);
    }
  }

  const PERMUTATION_SEEDS: seq<U64> :=
    [654_605_292_835_415_893, 8_636_605_637_963_351_413, 1_775_280_196_666_917_949]

  /** Of two elements, the first permutation changes nothing and the others each swap them. */
  lemma TwoElements(a: real, b: real)
    ensures Permuted(PERMUTATION_SEEDS[0], [a, b]) == [a, b]
    ensures Permuted(PERMUTATION_SEEDS[1], [a, b]) == Permuted(PERMUTATION_SEEDS[2], [a, b]) == [b, a]
  {
    hide Permuted;
    PermutedTwo(PERMUTATION_SEEDS[0], a, b);
    PermutedTwo(PERMUTATION_SEEDS[1], a, b);
    PermutedTwo(PERMUTATION_SEEDS[2], a, b);
    assert Step(PERMUTATION_SEEDS[0]) == 8_205_316_134_714_480_192;
    assert Step(PERMUTATION_SEEDS[1]) == 14_458_459_564_604_096_992;
    assert Step(PERMUTATION_SEEDS[2]) == 17_025_607_302_977_782_536;
  }

  lemma PermutedTwo(seed: U64, a: real, b: real)
    ensures Permuted(seed, [a, b]) == if Step(seed) / 0x1_0000_0000 % 2 == 1 then [a, b] else [b, a]
  {
    assert Draw(seed, 0) == seed;
    assert Shuffled(seed, [a, b], 0) == [a, b];
    hide Step;
    assert Partner(seed, 2, 1) == Step(seed) / 0x1_0000_0000 % 2;
  }

  /** One permutation for each seed; only reversible ones know their end states. */
  method NewPermutations(count: nat, reversible: bool) returns (permutations: seq<Permutation>)
    ensures SeedsOf(permutations) == PERMUTATION_SEEDS
    ensures forall k :: 0 <= k < |permutations| ==> permutations[k].Valid() && permutations[k].count == count
    ensures forall k :: 0 <= k < |permutations| ==> (permutations[k].endState.Some? <==> reversible)
  {
    permutations := [];
    for i := 0 to |PERMUTATION_SEEDS|
      invariant |permutations| == i
      invariant forall k :: 0 <= k < i ==>
                  && permutations[k].Valid() && permutations[k].count == count
                  && permutations[k].seed == PERMUTATION_SEEDS[k] && (permutations[k].endState.Some? <==> reversible)
    {
      var p;
      if reversible {
        p := Permutation.NewReversible(PERMUTATION_SEEDS[i], count);
      } else {
        p := Permutation.NewOneWay(PERMUTATION_SEEDS[i], count);
      }
      permutations := permutations + [p];
    }
  }

  method RandomVectorRotation(x: array<real>, norm: nat -> real)
    modifies x
    ensures x[..] == Rotated(old(x[..]), PERMUTATION_SEEDS, norm)
  {
    var permutations := NewPermutations(x.Length, false);
    ApplyRotation(x, permutations, norm);
  }

  method RandomVectorRotationInverse(y: array<real>, norm: nat -> real)
    modifies y
    ensures y[..] == InverseRotated(old(y[..]), PERMUTATION_SEEDS, norm)
  {
    var permutations := NewPermutations(y.Length, true);
    ApplyInverseRotation(y, permutations, norm);
  }

  /** A vector that is rotated in place and back is as it was. */
  method RotateAndBack(x: array<real>, norm: nat -> real)
    requires Normalizes(norm)
    modifies x
    ensures x[..] == old(x[..])
  {
    hide Rotated, InverseRotated, Normalizes;
    RotationIsReversible(x[..], PERMUTATION_SEEDS, norm);
    RandomVectorRotation(x, norm);
    RandomVectorRotationInverse(x, norm);
  }

  /** So is one rotated by any permutations and back by the same. */
  method ApplyAndBack(arr: array<real>, permutations: seq<Permutation>, norm: nat -> real)
    requires forall k :: 0 <= k < |permutations| ==> permutations[k].Valid() && permutations[k].count == arr.Length
    requires Normalizes(norm)
    modifies arr
    ensures arr[..] == old(arr[..])
  {
    hide Rotated, InverseRotated, Normalizes;
    RotationIsReversible(arr[..], SeedsOf(permutations), norm);
    ApplyRotation(arr, permutations, norm);
    ApplyInverseRotation(arr, permutations, norm);
  }

  /** Every permutation is applied in its turn: each adds a shuffle by its own seed and a transform. */
  lemma RotatedByEach(x: Vec, before: seq<Permutation>, last: Permutation, norm: nat -> real)
    ensures Rotated(x, SeedsOf([]), norm) == NormalizedChunks(x, norm)
    ensures Rotated(x, SeedsOf(before + [last]), norm) ==
            NormalizedChunks(Permuted(last.seed, Rotated(x, SeedsOf(before), norm)), norm)
  {
    SeedsOfMore(before, last);
    hide NormalizedChunks, Permuted, SeedsOf;
    assert (SeedsOf(before) + [last.seed])[..|before|] == SeedsOf(before);
  }

  /** And is undone in its turn, the last one first. */
  lemma InverseRotatedByEach(y: Vec, before: seq<Permutation>, last: Permutation, norm: nat -> real)
    ensures InverseRotated(y, SeedsOf([]), norm) == NormalizedChunks(y, norm)
    ensures InverseRotated(y, SeedsOf(before + [last]), norm) ==
            InverseRotated(Unpermuted(last.seed, NormalizedChunks(y, norm)), SeedsOf(before), norm)
  {
    SeedsOfMore(before, last);
    hide NormalizedChunks, Unpermuted, SeedsOf;
    assert (SeedsOf(before) + [last.seed])[..|before|] == SeedsOf(before);
  }

  lemma SeedsOfMore(before: seq<Permutation>, last: Permutation)
    ensures SeedsOf([]) == [] && |SeedsOf(before)| == |before|
    ensures SeedsOf(before + [last]) == SeedsOf(before) + [last.seed]
  {
  }

  function SeedsOf(permutations: seq<Permutation>): seq<U64> {
    seq(|permutations|, k requires 0 <= k < |permutations| => permutations[k].seed)
  }

  // ---------------------------------------------------------------------------------------
  // Dot products
  // ---------------------------------------------------------------------------------------

  function Dot(x: Vec, y: Vec): real
    requires |x| == |y|
  {
    if x == [] then 0.0 else Times(x[0], y[0]) + Dot(x[1..], y[1..])
  }

  lemma {:induction false} DotConcat(a: Vec, b: Vec, p: Vec, q: Vec)
    requires |a| == |p| && |b| == |q|
    ensures Dot(a + b, p + q) == Dot(a, p) + Dot(b, q)
    decreases |a|
  {
    hide Times;
    if a == [] {
      assert a + b == b && p + q == q;
    } else {
      assert (a + b)[1..] == a[1..] + b && (p + q)[1..] == p[1..] + q;
      DotConcat(a[1..], b, p[1..], q);
    }
  }

  lemma TimesScaled(c: real, u: real, v: real)
    ensures Times(Times(c, u), Times(c, v)) == Times(c * c, Times(u, v))
  {
    assert (c * u) * (c * v) == (c * c) * (u * v) by {
      assert (c * u) * (c * v) == c * (u * (c * v)) == c * (c * (u * v));
    }
  }

  lemma {:induction false} DotScale(c: real, x: Vec, y: Vec)
    requires |x| == |y|
    ensures Dot(Scale(c, x), Scale(c, y)) == Times(c * c, Dot(x, y))
  {
    if x == [] {
    } else {
      assert Scale(c, x)[1..] == Scale(c, x[1..]) && Scale(c, y)[1..] == Scale(c, y[1..]);
      DotScale(c, x[1..], y[1..]);
      TimesScaled(c, x[0], y[0]);
      Distribute(c * c, Times(x[0], y[0]), Dot(x[1..], y[1..]));
      hide Times;
    }
  }

  lemma Polarize(l: real, r: real, p: real, q: real)
    ensures Times(l + r, p + q) + Times(l - r, p - q) == 2.0 * Times(l, p) + 2.0 * Times(r, q)
  {
  }

  lemma {:induction false} DotAddSub(l: Vec, r: Vec, p: Vec, q: Vec)
    requires |l| == |r| == |p| == |q|
    ensures Dot(Add(l, r), Add(p, q)) + Dot(Sub(l, r), Sub(p, q)) == 2.0 * Dot(l, p) + 2.0 * Dot(r, q)
  {
    hide Times;
    if l != [] {
      Polarize(l[0], r[0], p[0], q[0]);
      DotAddSub(l[1..], r[1..], p[1..], q[1..]);
      AddHalves(l, r, 1);
      AddHalves(p, q, 1);
    }
  }

  lemma DotOfBlocks(l: Vec, r: Vec, p: Vec, q: Vec)
    requires |l| == |r| == |p| == |q|
    ensures Dot(Block(l + r, |l|), Block(p + q, |l|)) == 2.0 * Dot(l, p) + 2.0 * Dot(r, q)
  {
    hide Block, Add, Sub, Dot;
    BlockHalves(l, r);
    BlockHalves(p, q);
    Halves(Block(l + r, |l|), |l|);
    Halves(Block(p + q, |l|), |l|);
    DotConcat(Add(l, r), Sub(l, r), Add(p, q), Sub(p, q));
    DotAddSub(l, r, p, q);
  }

  lemma {:induction false} WhtDot(x: Vec, y: Vec)
    requires |x| == |y| && PowerOfTwo(|x|)
    ensures Dot(Wht(x), Wht(y)) == Times(|x| as real, Dot(x, y))
    decreases |x|
  {
    if |x| == 1 {
      WhtDotOne(x, y);
    } else {
      hide Wht, Dot, Times;
      var h := |x| / 2;
      WhtDot(x[..h], y[..h]);
      WhtDot(x[h..], y[h..]);
      WhtDotHalves(x, y, h);
    }
  }

  lemma WhtDotOne(x: Vec, y: Vec)
    requires |x| == |y| == 1
    ensures Dot(Wht(x), Wht(y)) == Times(|x| as real, Dot(x, y))
  {
    assert Wht(x) == x && Wht(y) == y;
  }

  lemma WhtDotHalves(x: Vec, y: Vec, h: nat)
    requires |x| == |y| == 2 * h && h > 0 && PowerOfTwo(|x|)
    requires Dot(Wht(x[..h]), Wht(y[..h])) == Times(h as real, Dot(x[..h], y[..h]))
    requires Dot(Wht(x[h..]), Wht(y[h..])) == Times(h as real, Dot(x[h..], y[h..]))
    ensures Dot(Wht(x), Wht(y)) == Times(|x| as real, Dot(x, y))
  {
    hide Wht, Block, Dot, Times, PowerOfTwo;
    WhtHalves(x);
    WhtHalves(y);
    DotOfBlocks(Wht(x[..h]), Wht(x[h..]), Wht(y[..h]), Wht(y[h..]));
    Halves(x, h);
    Halves(y, h);
    DotConcat(x[..h], x[h..], y[..h], y[h..]);
    DoubleDot(h as real, |x| as real, Dot(x[..h], y[..h]), Dot(x[h..], y[h..]));
  }

  lemma DoubleDot(h: real, n: real, a: real, b: real)
    requires n == 2.0 * h
    ensures 2.0 * Times(h, a) + 2.0 * Times(h, b) == Times(n, a + b)
  {
  }

  lemma ThreeFactors(c: real, n: real, d: real)
    requires c * c * n == 1.0
    ensures Times(c * c, Times(n, d)) == d
  {
    assert (c * c) * (n * d) == ((c * c) * n) * d;
  }

  lemma ChunkDot(c: real, x: Vec, y: Vec)
    requires |x| == |y| && PowerOfTwo(|x|) && c * c * (|x| as real) == 1.0
    ensures Dot(Scale(c, Wht(x)), Scale(c, Wht(y))) == Dot(x, y)
  {
    hide Wht, Scale, Dot, Times, PowerOfTwo;
    WhtDot(x, y);
    DotScale(c, Wht(x), Wht(y));
    ThreeFactors(c, |x| as real, Dot(x, y));
  }

  lemma {:induction false} NormalizedDot(x: Vec, y: Vec, norm: nat -> real)
    requires |x| == |y| && Normalizes(norm)
    ensures Dot(NormalizedChunks(x, norm), NormalizedChunks(y, norm)) == Dot(x, y)
    decreases |x|
  {
    hide Wht, Scale, Dot;
    if x != [] {
      var h := HighestPower(|x|);
      ChunkDot(norm(h), x[..h], y[..h]);
      NormalizedDot(x[h..], y[h..], norm);
      DotConcat(Scale(norm(h), Wht(x[..h])), NormalizedChunks(x[h..], norm),
                Scale(norm(h), Wht(y[..h])), NormalizedChunks(y[h..], norm));
      DotConcat(x[..h], x[h..], y[..h], y[h..]);
      Halves(x, h);
      Halves(y, h);
    } else {
      assert NormalizedChunks(x, norm) == x && NormalizedChunks(y, norm) == y;
    }
  }

  lemma {:induction false} DotUpdate(x: Vec, y: Vec, i: nat, a: real, b: real)
    requires |x| == |y| && i < |x|
    ensures Dot(x[i := a], y[i := b]) == Dot(x, y) - Times(x[i], y[i]) + Times(a, b)
    decreases |x|
  {
    hide Times;
    if i == 0 {
      assert x[i := a][1..] == x[1..] && y[i := b][1..] == y[1..];
    } else {
      assert x[i := a][1..] == x[1..][i - 1 := a] && y[i := b][1..] == y[1..][i - 1 := b];
      DotUpdate(x[1..], y[1..], i - 1, a, b);
    }
  }

  lemma SwapDot(x: Vec, y: Vec, i: nat, j: nat)
    requires |x| == |y| && i < |x| && j < |x|
    ensures Dot(Swap(x, i, j), Swap(y, i, j)) == Dot(x, y)
  {
    hide Dot, Times;
    DotUpdate(x, y, i, x[j], y[j]);
    DotUpdate(x[i := x[j]], y[i := y[j]], j, x[i], y[i]);
  }

  lemma {:induction false} ShuffleDot(seed: U64, x: Vec, y: Vec, n: nat)
    requires |x| == |y| && (n == 0 || n < |x|)
    ensures Dot(Shuffled(seed, x, n), Shuffled(seed, y, n)) == Dot(x, y)
  {
    hide Dot, Swap, Partner;
    if n > 0 {
      ShuffleDot(seed, x, y, n - 1);
      SwapDot(Shuffled(seed, x, n - 1), Shuffled(seed, y, n - 1), |x| - n, Partner(seed, |x|, n));
    }
  }

  lemma {:induction false} RoundsDot(x: Vec, y: Vec, seeds: seq<U64>, norm: nat -> real)
    requires |x| == |y| && Normalizes(norm)
    ensures Dot(Rounds(x, seeds, norm), Rounds(y, seeds, norm)) == Dot(x, y)
    decreases |seeds|
  {
    hide Dot, NormalizedChunks, Normalizes;
    if seeds != [] {
      var n := |seeds| - 1;
      var a, b := Rounds(x, seeds[..n], norm), Rounds(y, seeds[..n], norm);
      RoundsDot(x, y, seeds[..n], norm);
      ShuffleDot(seeds[n], a, b, Swaps(|a|));
      NormalizedDot(Permuted(seeds[n], a), Permuted(seeds[n], b), norm);
    }
  }

  /** Rotating two vectors the same way changes no dot product, hence no length and no angle. */
  lemma RotationPreservesDot(x: Vec, y: Vec, seeds: seq<U64>, norm: nat -> real)
    requires |x| == |y| && Normalizes(norm)
    ensures |Rotated(x, seeds, norm)| == |Rotated(y, seeds, norm)|
    ensures Dot(Rotated(x, seeds, norm), Rotated(y, seeds, norm)) == Dot(x, y)
  {
    NormalizedDot(x, y, norm);
    RoundsDot(NormalizedChunks(x, norm), NormalizedChunks(y, norm), seeds, norm);
  }
}
