/**
 The randomized rotation of vectors: Walsh-Hadamard transforms of power-of-two chunks between
 shuffles. Elements are real numbers; the factor that makes a transform of `n` elements preserve
 lengths is a parameter `norm` with `norm(n) * norm(n) * n == 1`.
 */
module WalshHadamard {
  import opened Wrappers

  type Vec = seq<real>

  function Add(a: Vec, b: Vec): (r: Vec)
    requires |a| == |b|
    ensures |r| == |a| && forall i :: 0 <= i < |a| ==> r[i] == a[i] + b[i]
  {
    seq(|a|, i requires 0 <= i < |a| == |b| => a[i] + b[i])
  }

  function Sub(a: Vec, b: Vec): (r: Vec)
    requires |a| == |b|
    ensures |r| == |a| && forall i :: 0 <= i < |a| ==> r[i] == a[i] - b[i]
  {
    seq(|a|, i requires 0 <= i < |a| == |b| => a[i] - b[i])
  }

  function Times(c: real, x: real): real {
    c * x
  }

  function Scale(c: real, a: Vec): (r: Vec)
    ensures |r| == |a| && forall i :: 0 <= i < |a| ==> r[i] == Times(c, a[i])
  {
    seq(|a|, i requires 0 <= i < |a| => Times(c, a[i]))
  }

  // ---------------------------------------------------------------------------------------
  // The transform, defined by halves
  // ---------------------------------------------------------------------------------------

  /** One butterfly over a block of two halves. */
  function Block(x: Vec, h: nat): (r: Vec)
    requires |x| == 2 * h
    ensures |r| == |x|
  {
    seq(|x|, i requires 0 <= i < |x| => BlockAt(x, h, i))
  }

  function BlockAt(x: Vec, h: nat, i: nat): real
    requires |x| == 2 * h && i < |x|
  {
    if i < h then x[i] + x[i + h] else x[i - h] - x[i]
  }

  function Wht(x: Vec): (r: Vec)
    requires PowerOfTwo(|x|)
    ensures |r| == |x|
    decreases |x|
  {
    if |x| == 1 then x
    else
      var h := |x| / 2;
      Block(Wht(x[..h]) + Wht(x[h..]), h)
  }

  lemma AddHalves(x: Vec, y: Vec, h: nat)
    requires |x| == |y| && h <= |x|
    ensures Add(x, y)[..h] == Add(x[..h], y[..h]) && Add(x, y)[h..] == Add(x[h..], y[h..])
    ensures Sub(x, y)[..h] == Sub(x[..h], y[..h]) && Sub(x, y)[h..] == Sub(x[h..], y[h..])
  {
  }

  lemma ScaleHalves(c: real, x: Vec, h: nat)
    requires h <= |x|
    ensures Scale(c, x)[..h] == Scale(c, x[..h]) && Scale(c, x)[h..] == Scale(c, x[h..])
  {
    hide Times;
  }

  /** The transform of two halves, in terms of the transforms of each. */
  lemma WhtHalves(x: Vec)
    requires PowerOfTwo(|x|) && |x| > 1
    ensures var h := |x| / 2;
            PowerOfTwo(h) && |x| == 2 * h && Wht(x) == Block(Wht(x[..h]) + Wht(x[h..]), h)
  {
  }

  lemma {:induction false} WhtAdds(x: Vec, y: Vec)
    requires |x| == |y| && PowerOfTwo(|x|)
    ensures Wht(Add(x, y)) == Add(Wht(x), Wht(y)) && Wht(Sub(x, y)) == Sub(Wht(x), Wht(y))
    decreases |x|
  {
    if |x| == 1 {
    } else {
      var h := |x| / 2;
      WhtAdds(x[..h], y[..h]);
      WhtAdds(x[h..], y[h..]);
      AddHalves(x, y, h);
      WhtHalves(x);
      WhtHalves(y);
      WhtHalves(Add(x, y));
      WhtHalves(Sub(x, y));
      hide Wht, Block, Add, Sub;
      BlockAdds(Wht(x[..h]), Wht(x[h..]), Wht(y[..h]), Wht(y[h..]));
    }
  }

  lemma BlockAdds(a: Vec, b: Vec, p: Vec, q: Vec)
    requires |a| == |b| == |p| == |q|
    ensures Block(Add(a, p) + Add(b, q), |a|) == Add(Block(a + b, |a|), Block(p + q, |a|))
    ensures Block(Sub(a, p) + Sub(b, q), |a|) == Sub(Block(a + b, |a|), Block(p + q, |a|))
  {
    var h, x, y := |a|, a + b, p + q;
    AddHalves(x, y, h);
    assert x[..h] == a && x[h..] == b && y[..h] == p && y[h..] == q;
    Halves(Add(x, y), h);
    Halves(Sub(x, y), h);
    BlockIsLinear(x, y, h);
  }

  lemma Halves(x: Vec, h: nat)
    requires h <= |x|
    ensures x == x[..h] + x[h..]
  {
  }

  lemma BlockIsLinear(x: Vec, y: Vec, h: nat)
    requires |x| == |y| == 2 * h
    ensures Block(Add(x, y), h) == Add(Block(x, h), Block(y, h)) && Block(Sub(x, y), h) == Sub(Block(x, h), Block(y, h))
  {
    forall i | 0 <= i < |x|
      ensures Block(Add(x, y), h)[i] == Block(x, h)[i] + Block(y, h)[i]
      ensures Block(Sub(x, y), h)[i] == Block(x, h)[i] - Block(y, h)[i]
    {
    }
  }

  lemma {:induction false} WhtScales(c: real, x: Vec)
    requires PowerOfTwo(|x|)
    ensures Wht(Scale(c, x)) == Scale(c, Wht(x))
    decreases |x|
  {
    if |x| == 1 {
      assert Wht(x) == x && Wht(Scale(c, x)) == Scale(c, x);
    } else {
      var h := |x| / 2;
      WhtScales(c, x[..h]);
      WhtScales(c, x[h..]);
      ScaleHalves(c, x, h);
      WhtHalves(x);
      WhtHalves(Scale(c, x));
      hide Wht, Block, Scale;
      BlockScales(c, Wht(x[..h]), Wht(x[h..]));
    }
  }

  lemma BlockScales(c: real, a: Vec, b: Vec)
    requires |a| == |b|
    ensures Block(Scale(c, a) + Scale(c, b), |a|) == Scale(c, Block(a + b, |a|))
  {
    var h, x := |a|, a + b;
    ScaleHalves(c, x, h);
    assert x[..h] == a && x[h..] == b;
    Halves(Scale(c, x), h);
    BlockOfScaled(c, x, h);
  }

  lemma BlockOfScaled(c: real, x: Vec, h: nat)
    requires |x| == 2 * h
    ensures Block(Scale(c, x), h) == Scale(c, Block(x, h))
  {
    hide Times;
    forall i | 0 <= i < |x| ensures BlockAt(Scale(c, x), h, i) == Times(c, BlockAt(x, h, i)) {
      if i < h { Distribute(c, x[i], x[i + h]); } else { Distribute(c, x[i - h], x[i]); }
    }
  }

  lemma Distribute(c: real, x: real, y: real)
    ensures Times(c, x + y) == Times(c, x) + Times(c, y) && Times(c, x - y) == Times(c, x) - Times(c, y)
  {
  }

  // ---------------------------------------------------------------------------------------
  // The transform, element by element
  // ---------------------------------------------------------------------------------------

  /** In how many binary digits both numbers have a one. */
  function CommonOnes(i: nat, j: nat): nat {
    if i == 0 || j == 0 then 0 else (if i % 2 == 1 && j % 2 == 1 then 1 else 0) + CommonOnes(i / 2, j / 2)
  }

  function Signed(i: nat, j: nat, v: real): real {
    if CommonOnes(i, j) % 2 == 0 then v else -v
  }

  /** The sum of the elements, of which the first has number `from`, with the signs of row `i` of the matrix. */
  function SignedSum(i: nat, x: Vec, from: nat): real
    decreases |x|
  {
    if x == [] then 0.0 else Signed(i, from, x[0]) + SignedSum(i, x[1..], from + 1)
  }

  lemma SumNext(i: nat, x: Vec, from: nat)
    ensures SignedSum(i, x, from) ==
            if x == [] then 0.0 else Signed(i, from, x[0]) + SignedSum(i, x[1..], from + 1)
  {
  }

  lemma {:induction false} TopDigit(i: nat, j: nat, h: nat)
    requires PowerOfTwo(h) && i < h && j < h
    ensures CommonOnes(i + h, j) == CommonOnes(i, j + h) == CommonOnes(i, j)
    ensures CommonOnes(i + h, j + h) == CommonOnes(i, j) + 1
    decreases h
  {
    if h > 1 {
      TopDigit(i / 2, j / 2, h / 2);
      assert (i + h) / 2 == i / 2 + h / 2 && (j + h) / 2 == j / 2 + h / 2;
    }
  }

  lemma SignsOfHalves(row: nat, j: nat, h: nat, v: real)
    requires PowerOfTwo(h) && row < h && j < h
    ensures Signed(row + h, j, v) == Signed(row, j + h, v) == Signed(row, j, v)
    ensures Signed(row + h, j + h, v) == -Signed(row, j, v)
  {
    TopDigit(row, j, h);
    hide CommonOnes, PowerOfTwo;
  }

  lemma {:induction false} SumSplits(i: nat, x: Vec, from: nat, h: nat)
    requires h <= |x|
    ensures SignedSum(i, x, from) == SignedSum(i, x[..h], from) + SignedSum(i, x[h..], from + h)
    decreases h
  {
    hide SignedSum, Signed;
    SumNext(i, x, from);
    SumNext(i, x[..h], from);
    if h == 0 {
      assert x[0..] == x;
    } else {
      SumSplits(i, x[1..], from + 1, h - 1);
      assert x[..h][1..] == x[1..][..h - 1] && x[1..][h - 1..] == x[h..];
    }
  }

  /** A further top digit changes the signs where both numbers have it, and only there. */
  lemma {:induction false} SumsOfHalves(row: nat, h: nat, x: Vec, from: nat)
    requires PowerOfTwo(h) && row < h && from + |x| <= h
    ensures SignedSum(row + h, x, from) == SignedSum(row, x, from + h) == SignedSum(row, x, from)
    ensures SignedSum(row + h, x, from + h) == -SignedSum(row, x, from)
    decreases |x|
  {
    hide SignedSum, Signed, PowerOfTwo;
    SumNext(row, x, from);
    SumNext(row + h, x, from);
    SumNext(row, x, from + h);
    SumNext(row + h, x, from + h);
    if x != [] {
      SignsOfHalves(row, from, h, x[0]);
      SumsOfHalves(row, h, x[1..], from + 1);
    }
  }

  /** Every element is the sum of all, with the sign that the common ones of the two numbers give. */
  lemma {:induction false} WhtIs(x: Vec, i: nat)
    requires PowerOfTwo(|x|) && i < |x|
    ensures Wht(x)[i] == SignedSum(i, x, 0)
    decreases |x|
  {
    hide CommonOnes, SignedSum, Signed, PowerOfTwo, Block, Wht;
    if |x| == 1 {
      WhtOfOne(x);
    } else {
      WhtHalves(x);
      var h := |x| / 2;
      var l, r, row := x[..h], x[h..], if i < h then i else i - h;
      WhtIs(l, row);
      WhtIs(r, row);
      SumSplits(i, x, 0, h);
      SumsOfHalves(row, h, l, 0);
      SumsOfHalves(row, h, r, 0);
      BlockEntry(Wht(l), Wht(r), i);
    }
  }

  lemma WhtOfOne(x: Vec)
    requires |x| == 1
    ensures Wht(x) == x && x[0] == SignedSum(0, x, 0)
  {
    assert SignedSum(0, x[1..], 1) == 0.0;
  }

  lemma BlockEntry(l: Vec, r: Vec, i: nat)
    requires |l| == |r| && i < |l| + |r|
    ensures Block(l + r, |l|)[i] == if i < |l| then l[i] + r[i] else l[i - |l|] - r[i - |l|]
  {
  }

  /** The transform is its own inverse up to the factor `n`. */
  lemma {:induction false} WhtTwice(x: Vec)
    requires PowerOfTwo(|x|)
    ensures Wht(Wht(x)) == Scale(|x| as real, x)
    decreases |x|
  {
    if |x| == 1 {
    } else {
      var h := |x| / 2;
      var l, r := Wht(x[..h]), Wht(x[h..]);
      WhtTwice(x[..h]);
      WhtTwice(x[h..]);
      WhtHalves(x);
      WhtHalves(Wht(x));
      BlockTwice(x, l, r);
    }
  }

  lemma BlockTwice(x: Vec, l: Vec, r: Vec)
    requires PowerOfTwo(|l|) && |l| == |r| && |x| == 2 * |l|
    requires Wht(l) == Scale(|l| as real, x[..|l|]) && Wht(r) == Scale(|l| as real, x[|l|..])
    ensures var b := Block(l + r, |l|); Block(Wht(b[..|l|]) + Wht(b[|l|..]), |l|) == Scale(|x| as real, x)
  {
    hide Wht, Block, Add, Sub, Scale;
    var h, b := |l|, Block(l + r, |l|);
    BlockHalves(l, r);
    WhtAdds(l, r);
    DoubleBlock(x, h);
  }

  lemma BlockHalves(l: Vec, r: Vec)
    requires |l| == |r|
    ensures Block(l + r, |l|)[..|l|] == Add(l, r) && Block(l + r, |l|)[|l|..] == Sub(l, r)
  {
  }

  lemma DoubleBlock(x: Vec, h: nat)
    requires |x| == 2 * h
    ensures var p, q := Scale(h as real, x[..h]), Scale(h as real, x[h..]);
            Block(Add(p, q) + Sub(p, q), h) == Scale(|x| as real, x)
  {
    var c := h as real;
    var p, q := Scale(c, x[..h]), Scale(c, x[h..]);
    assert |x| as real == 2.0 * c;
    var y := Add(p, q) + Sub(p, q);
    forall i | 0 <= i < |x| ensures Block(y, h)[i] == Times(|x| as real, x[i]) {
      Twice(c, x[i]);
      assert i < h ==> y[i] == p[i] + q[i] && y[i + h] == p[i] - q[i];
      assert i >= h ==> y[i - h] == p[i - h] + q[i - h] && y[i] == p[i - h] - q[i - h];
    }
  }

  lemma Twice(c: real, x: real)
    ensures Times(2.0 * c, x) == Times(c, x) + Times(c, x)
  {
  }

  // ---------------------------------------------------------------------------------------
  // The in-place loops
  // ---------------------------------------------------------------------------------------

  predicate Tiles(n: nat, h: nat) {
    n == 0 || (h > 0 && n >= h && Tiles(n - h, h))
  }

  lemma {:induction false} TilesAdd(a: nat, b: nat, h: nat)
    requires Tiles(a, h) && Tiles(b, h)
    ensures Tiles(a + b, h)
    decreases a
  {
    if a > 0 { TilesAdd(a - h, b, h); }
  }

  lemma {:induction false} PowersTile(n: nat, h: nat)
    requires PowerOfTwo(n) && PowerOfTwo(h) && h <= n
    ensures Tiles(n, h) && (h < n ==> 2 * h <= n && PowerOfTwo(2 * h))
    decreases n
  {
    if h < n {
      if n / 2 < h {
        PowersApart(n / 2, h);
      }
      PowersTile(n / 2, h);
      TilesAdd(n / 2, n / 2, h);
    }
  }

  /** There is no power of two strictly between one and its double. */
  lemma {:induction false} PowersApart(a: nat, b: nat)
    requires PowerOfTwo(a) && PowerOfTwo(b) && a < b
    ensures 2 * a <= b
    decreases b
  {
    if a > 1 { PowersApart(a / 2, b / 2); }
  }

  /** Each block of `h` elements transformed. */
  function Stage(x: Vec, h: nat): (r: Vec)
    requires PowerOfTwo(h) && Tiles(|x|, h)
    ensures |r| == |x|
    decreases |x|
  {
    if x == [] then [] else Wht(x[..h]) + Stage(x[h..], h)
  }

  /** A butterfly over each block of `2 * h` elements. */
  function Butterfly(x: Vec, h: nat): (r: Vec)
    requires Tiles(|x|, 2 * h)
    ensures |r| == |x|
    decreases |x|
  {
    if x == [] then [] else Block(x[..2 * h], h) + Butterfly(x[2 * h..], h)
  }

  lemma {:induction false} StageOne(x: Vec)
    ensures Tiles(|x|, 1) && Stage(x, 1) == x
    decreases |x|
  {
    if x != [] { StageOne(x[1..]); }
  }

  lemma {:induction false} TilesHalf(n: nat, h: nat)
    requires Tiles(n, 2 * h)
    ensures Tiles(n, h)
  {
    if n > 0 { TilesHalf(n - 2 * h, h); }
  }

  lemma {:induction false} ButterflyDoublesStage(x: Vec, h: nat)
    requires PowerOfTwo(h) && PowerOfTwo(2 * h) && Tiles(|x|, 2 * h) && Tiles(|x|, h)
    ensures Butterfly(Stage(x, h), h) == Stage(x, 2 * h)
    decreases |x|
  {
    hide Wht, Block;
    if x != [] {
      var rest := x[2 * h..];
      TilesHalf(|rest|, h);
      ButterflyDoublesStage(rest, h);
      var l, r := Wht(x[..h]), Wht(x[h..][..h]);
      TwoStages(x, h);
      Joined(l, r, Stage(rest, h));
      assert x[..2 * h][..h] == x[..h] && x[..2 * h][h..] == x[h..][..h];
      assert Stage(x, 2 * h) == Wht(x[..2 * h]) + Stage(rest, 2 * h);
      WhtHalves(x[..2 * h]);
    }
  }

  lemma TwoStages(x: Vec, h: nat)
    requires PowerOfTwo(h) && Tiles(|x|, h) && |x| >= 2 * h && Tiles(|x| - 2 * h, h)
    ensures Stage(x, h) == Wht(x[..h]) + (Wht(x[h..][..h]) + Stage(x[2 * h..], h))
  {
    hide Wht;
    assert x[h..][h..] == x[2 * h..];
  }

  lemma Joined(l: Vec, r: Vec, rest: Vec)
    requires |l| == |r|
    ensures var s := l + (r + rest); s[..2 * |l|] == l + r && s[2 * |l|..] == rest
  {
  }

  /** The part of `arr` from `lo` on, `n` long. */
  function Part(arr: array<real>, lo: nat, n: nat): Vec
    requires lo + n <= arr.Length
    reads arr
  {
    arr[lo..lo + n]
  }

  /** The butterflies of one block, element by element. */
  method BlockInPlace(arr: array<real>, lo: nat, h: nat)
    requires lo + 2 * h <= arr.Length
    modifies arr
    ensures Part(arr, lo, 2 * h) == Block(old(Part(arr, lo, 2 * h)), h)
    ensures arr[..lo] == old(arr[..lo]) && arr[lo + 2 * h..] == old(arr[lo + 2 * h..])
  {
    ghost var s := arr[..];
    var j := lo;
    while j < lo + h
      invariant lo <= j <= lo + h
      invariant forall k :: 0 <= k < arr.Length ==> arr[k] == PartBlock(s, lo, h, j, k)
    {
      var a := arr[j];
      var b := arr[j + h];
      arr[j] := a + b;
      arr[j + h] := a - b;
      j := j + 1;
    }
    PartIsBlock(s, arr[..], lo, h);
  }

  lemma PartIsBlock(s: Vec, t: Vec, lo: nat, h: nat)
    requires lo + 2 * h <= |s| == |t|
    requires forall k :: 0 <= k < |s| ==> t[k] == PartBlock(s, lo, h, lo + h, k)
    ensures t[lo..lo + 2 * h] == Block(s[lo..lo + 2 * h], h)
    ensures t[..lo] == s[..lo] && t[lo + 2 * h..] == s[lo + 2 * h..]
  {
    var before, after := s[lo..lo + 2 * h], t[lo..lo + 2 * h];
    forall i | 0 <= i < 2 * h ensures after[i] == BlockAt(before, h, i) {
      assert after[i] == t[lo + i];
    }
  }

  /** Element `k` when the butterflies from `lo` up to `j` are done. */
  ghost function PartBlock(s: Vec, lo: nat, h: nat, j: nat, k: nat): real
    requires lo + 2 * h <= |s| && lo <= j <= lo + h && k < |s|
  {
    if lo <= k < j then s[k] + s[k + h] else if lo + h <= k < j + h then s[k - h] - s[k] else s[k]
  }

  /** `in_place_walsh_hadamard_transform` of the `n` elements from `lo` on. */
  method InPlaceWalshHadamard(arr: array<real>, lo: nat, n: nat)
    requires lo + n <= arr.Length && PowerOfTwo(n)
    modifies arr
    ensures Part(arr, lo, n) == Wht(old(Part(arr, lo, n)))
    ensures arr[..lo] == old(arr[..lo]) && arr[lo + n..] == old(arr[lo + n..])
  {
    hide Wht, Block;
    ghost var x := Part(arr, lo, n);
    var h := 1;
    StageOne(x);
    while h < n
      invariant PowerOfTwo(h) && h <= n && Tiles(n, h)
      invariant Part(arr, lo, n) == Stage(x, h)
      invariant arr[..lo] == old(arr[..lo]) && arr[lo + n..] == old(arr[lo + n..])
      decreases n - h
    {
      PowersTile(n, h);
      PowersTile(n, 2 * h);
      ButterfliesInPlace(arr, lo, n, h);
      ButterflyDoublesStage(x, h);
      h := h * 2;
    }
    StageAll(x);
  }

  lemma StageAll(x: Vec)
    requires PowerOfTwo(|x|)
    ensures Tiles(|x|, |x|) && Stage(x, |x|) == Wht(x)
  {
    hide Wht;
    assert x[..|x|] == x && x[|x|..] == [];
    assert Tiles(0, |x|);
  }

  /** One pass of the outer loop: the butterflies of every block of `2 * h` elements. */
  method ButterfliesInPlace(arr: array<real>, lo: nat, n: nat, h: nat)
    requires lo + n <= arr.Length && h > 0 && Tiles(n, 2 * h)
    modifies arr
    ensures Part(arr, lo, n) == Butterfly(old(Part(arr, lo, n)), h)
    ensures arr[..lo] == old(arr[..lo]) && arr[lo + n..] == old(arr[lo + n..])
  {
    hide Block, Butterfly, Progress;
    ghost var first, goal := arr[..], Butterfly(Part(arr, lo, n), h);
    var i := 0;
    ProgressStarts(arr[..], lo, n, h);
    while i < n
      invariant i <= n && Progress(first, arr[..], lo, n, i, h, goal)
    {
      ghost var was := arr[..];
      ProgressRoom(first, arr[..], lo, n, i, h, goal);
      BlockInPlace(arr, lo + i, h);
      ProgressStep(first, was, arr[..], lo, n, i, h, goal);
      i := i + 2 * h;
    }
    ProgressEnds(first, arr[..], lo, n, h, goal);
  }

  /** The first `i` elements from `lo` on are done, and finishing the rest reaches the goal. */
  ghost predicate Progress(first: Vec, now: Vec, lo: nat, n: nat, i: nat, h: nat, goal: Vec) {
    && i <= n && lo + n <= |first| == |now| && Tiles(n - i, 2 * h)
    && now[lo..lo + i] + Butterfly(now[lo + i..lo + n], h) == goal
    && now[..lo] == first[..lo] && now[lo + n..] == first[lo + n..]
  }

  lemma ProgressStarts(now: Vec, lo: nat, n: nat, h: nat)
    requires lo + n <= |now| && Tiles(n, 2 * h)
    ensures Progress(now, now, lo, n, 0, h, Butterfly(now[lo..lo + n], h))
  {
    hide Butterfly;
  }

  lemma ProgressRoom(first: Vec, now: Vec, lo: nat, n: nat, i: nat, h: nat, goal: Vec)
    requires Progress(first, now, lo, n, i, h, goal) && i < n
    ensures i + 2 * h <= n
  {
  }

  lemma ProgressStep(first: Vec, was: Vec, now: Vec, lo: nat, n: nat, i: nat, h: nat, goal: Vec)
    requires Progress(first, was, lo, n, i, h, goal) && h > 0 && i + 2 * h <= n && |was| == |now|
    requires now[lo + i..lo + i + 2 * h] == Block(was[lo + i..lo + i + 2 * h], h)
    requires now[..lo + i] == was[..lo + i] && now[lo + i + 2 * h..] == was[lo + i + 2 * h..]
    ensures Progress(first, now, lo, n, i + 2 * h, h, goal)
  {
    hide Block, Butterfly;
    AfterBlock(was, now, lo, n, i, h);
    var rest := was[lo + i..lo + n];
    assert rest[..2 * h] == was[lo + i..lo + i + 2 * h];
    NextBlock(was[lo..lo + i], rest, h);
  }

  lemma ProgressEnds(first: Vec, now: Vec, lo: nat, n: nat, h: nat, goal: Vec)
    requires Progress(first, now, lo, n, n, h, goal)
    ensures now[lo..lo + n] == goal && now[..lo] == first[..lo] && now[lo + n..] == first[lo + n..]
  {
    NoBlocks(h);
    assert now[lo + n..lo + n] == [];
  }

  lemma NoBlocks(h: nat)
    ensures Tiles(0, 2 * h) && Butterfly([], h) == []
  {
  }

  lemma NextBlock(done: Vec, rest: Vec, h: nat)
    requires h > 0 && Tiles(|rest|, 2 * h) && rest != []
    ensures |rest| >= 2 * h && Tiles(|rest| - 2 * h, 2 * h)
    ensures (done + Block(rest[..2 * h], h)) + Butterfly(rest[2 * h..], h) == done + Butterfly(rest, h)
  {
    assert Butterfly(rest, h) == Block(rest[..2 * h], h) + Butterfly(rest[2 * h..], h);
    hide Block, Butterfly;
  }

  lemma AfterBlock(was: Vec, now: Vec, lo: nat, n: nat, i: nat, h: nat)
    requires lo + n <= |was| == |now| && i + 2 * h <= n
    requires now[..lo + i] == was[..lo + i] && now[lo + i + 2 * h..] == was[lo + i + 2 * h..]
    ensures now[lo..lo + i + 2 * h] == was[lo..lo + i] + now[lo + i..lo + i + 2 * h]
    ensures now[lo + i + 2 * h..lo + n] == was[lo + i..lo + n][2 * h..]
    ensures now[..lo] == was[..lo] && now[lo + n..] == was[lo + n..]
  {
    assert forall k :: 0 <= k < lo + i ==> now[k] == now[..lo + i][k] == was[..lo + i][k] == was[k];
    var e := lo + i + 2 * h;
    assert forall k :: e <= k < |now| ==> now[k] == now[e..][k - e] == was[e..][k - e] == was[k];
  }
}
