/** How vectors and queries become the words that are scored against each other. */
module BinaryEncoding {
  import opened Wrappers
  import opened Layout
  import opened BinaryScore

  // ---------------------------------------------------------------------------------------
  // Sizes
  // ---------------------------------------------------------------------------------------

  /** The type of the words: `u8` or `u128`. */
  datatype Store = ByteStore | WideStore {
    function Bits(): (r: nat)
      ensures r > 0
    {
      if ByteStore? then 8 else 128
    }
  }

  datatype Encoding = OneBit | TwoBits | OneAndHalfBits

  /** Bytes are stored in groups so that wide loads can read them. */
  function GroupBytes(size: nat): (r: nat)
    ensures r > 0
  {
    if size > 128 then 16 else if size > 64 then 8 else if size > 32 then 4 else 1
  }

  function GetStorageSize(store: Store, size: nat): nat {
    match store
    case ByteStore => DivCeil(size, 8 * GroupBytes(size)) * GroupBytes(size)
    case WideStore => DivCeil(size, 128)
  }

  /** The words hold all bits, in whole groups, with less than a group to spare. */
  lemma StorageFits(store: Store, size: nat)
    ensures var words := GetStorageSize(store, size);
            var group := if store.ByteStore? then GroupBytes(size) else 1;
            && words % group == 0
            && size <= store.Bits() * words < size + store.Bits() * group
  {
    if store.ByteStore? {
      GroupsFit(size, GroupBytes(size));
    }
  }

  /** In bytes: groups of 16 for more than 128 bits and for wide words, of 8 for more than 64, of 4 for more than 32. */
  lemma StorageIsGrouped(store: Store, size: nat)
    ensures var bytes := store.Bits() / 8 * GetStorageSize(store, size);
            var group := if store.WideStore? || size > 128 then 16 else if size > 64 then 8
                         else if size > 32 then 4 else 1;
            bytes % group == 0 && size <= 8 * bytes < size + 8 * group
  {
    StorageFits(store, size);
    hide GetStorageSize;
    if store.WideStore? {
      var words := GetStorageSize(store, size);
      assert 16 * words % 16 == 0;
    }
  }

  lemma GroupsFit(size: nat, group: nat)
    requires group == 16 || group == 8 || group == 4 || group == 1
    ensures var words := DivCeil(size, 8 * group) * group;
            words % group == 0 && size <= 8 * words < size + 8 * group
  {
    var n := DivCeil(size, 8 * group);
    hide DivCeil;
    if group == 16 {
      assert n * group == 16 * n;
    } else if group == 8 {
      assert n * group == 8 * n;
    } else if group == 4 {
      assert n * group == 4 * n;
    }
  }

  function ExtendedDim(dim: nat, encoding: Encoding): nat {
    match encoding
    case OneBit => dim
    case TwoBits => dim * 2
    case OneAndHalfBits => DivCeil(dim * 3, 2)
  }

  // ---------------------------------------------------------------------------------------
  // Bits of a vector
  // ---------------------------------------------------------------------------------------

  datatype ElementStats = ElementStats(mean: real, stddev: real)

  const EPSILON: real := 1.0 / 8388608.0
  const SIGMAS: real := 2.0 / 3.0

  function TwoBitsValue(value: real, stats: Option<ElementStats>): (bool, bool) {
    if stats.None? then (value > 0.0, value > 0.0)
    else if stats.value.stddev < EPSILON then (value > 0.0, false)
    else
      var z := (value - stats.value.mean) / stats.value.stddev;
      if z <= -SIGMAS then (false, false) else if z < SIGMAS then (true, false) else (true, true)
  }

  lemma QuotientOrder(x: real, y: real, d: real)
    requires x <= y && d > 0.0
    ensures x / d <= y / d
  {
  }

  /** A greater value never loses a bit, and the second bit is only set with the first. */
  lemma TwoBitsGrow(v: real, u: real, stats: Option<ElementStats>)
    requires v <= u
    ensures TwoBitsValue(v, stats).0 ==> TwoBitsValue(u, stats).0
    ensures TwoBitsValue(v, stats).1 ==> TwoBitsValue(u, stats).1 && TwoBitsValue(v, stats).0
  {
    if stats.Some? && stats.value.stddev >= EPSILON {
      QuotientOrder(v - stats.value.mean, u - stats.value.mean, stats.value.stddev);
    }
  }

  function StatsAt(stats: Option<seq<ElementStats>>, i: nat): Option<ElementStats> {
    if stats.Some? && i < |stats.value| then Some(stats.value[i]) else None
  }

  function First(vector: seq<real>, stats: Option<seq<ElementStats>>, i: nat): bool
    requires i < |vector|
  {
    TwoBitsValue(vector[i], StatsAt(stats, i)).0
  }

  function Second(vector: seq<real>, stats: Option<seq<ElementStats>>, i: nat): bool
    requires i < |vector|
  {
    TwoBitsValue(vector[i], StatsAt(stats, i)).1
  }

  /** The bits of a vector: signs, both bits of every element, or one second bit for every two elements. */
  function VectorBits(vector: seq<real>, stats: Option<seq<ElementStats>>, encoding: Encoding): (r: seq<bool>)
    ensures |r| == ExtendedDim(|vector|, encoding)
  {
    var n := |vector|;
    match encoding
    case OneBit => seq(n, i requires 0 <= i < n => vector[i] > 0.0)
    case TwoBits =>
      seq(2 * n, i requires 0 <= i < 2 * n => if i < n then First(vector, stats, i) else Second(vector, stats, i - n))
    case OneAndHalfBits =>
      seq(DivCeil(3 * n, 2), i requires 0 <= i < DivCeil(3 * n, 2) =>
        if i < n then First(vector, stats, i)
        else Second(vector, stats, 2 * (i - n)) || (2 * (i - n) + 1 < n && Second(vector, stats, 2 * (i - n) + 1)))
  }

  // ---------------------------------------------------------------------------------------
  // Packing
  // ---------------------------------------------------------------------------------------

  /** Exactly the bits at the marked positions are set. */
  ghost predicate Marks(words: seq<Word>, w: nat, marked: set<nat>) {
    && Words(words, w)
    && forall c: nat, s: nat :: c < |words| && s < w ==> (words[c][s] <==> Position(w, c, s) in marked)
  }

  function Position(w: nat, c: nat, s: nat): nat {
    ChunkStart(w, c) + s
  }

  lemma PositionIsUnique(w: nat, c: nat, s: nat, j: nat)
    requires s < w
    ensures Position(w, j / w, j % w) == j
    ensures Position(w, c, s) == j <==> c == j / w && s == j % w
  {
    var q := j / w;
    assert j == w * q + j % w;
    if c < q {
      ChunkStartOrder(w, c + 1, q);
      ChunkStartNext(w, c);
    } else if q < c {
      ChunkStartOrder(w, q + 1, c);
      ChunkStartNext(w, q);
    }
  }

  lemma PositionFits(w: nat, words: nat, j: nat)
    requires w > 0 && j < ChunkStart(w, words)
    ensures j / w < words
  {
    if words <= j / w {
      PositionIsUnique(w, 0, 0, j);
      ChunkStartOrder(w, words, j / w);
    }
  }

  method SetBit(encoded: array<Word>, w: nat, j: nat, ghost marked: set<nat>)
    requires w > 0 && Marks(encoded[..], w, marked) && j < ChunkStart(w, encoded.Length)
    modifies encoded
    ensures Marks(encoded[..], w, marked + {j})
  {
    PositionFits(w, encoded.Length, j);
    ghost var before := encoded[..];
    encoded[j / w] := encoded[j / w][j % w := true];
    MarkOne(before, encoded[..], w, j, marked);
  }

  lemma MarkOne(before: seq<Word>, after: seq<Word>, w: nat, j: nat, marked: set<nat>)
    requires w > 0 && Marks(before, w, marked) && j / w < |before|
    requires after == before[j / w := before[j / w][j % w := true]]
    ensures Marks(after, w, marked + {j})
  {
    hide Position;
    forall c: nat, s: nat | c < |after| && s < w
      ensures |after[c]| == w && (after[c][s] <==> Position(w, c, s) in marked + {j})
    {
      PositionIsUnique(w, c, s, j);
    }
  }

  /** Marks that stand for bits are the packed bits. */
  lemma MarksArePacked(words: seq<Word>, w: nat, marked: set<nat>, bits: seq<bool>)
    requires Marks(words, w, marked) && |bits| <= ChunkStart(w, |words|)
    requires forall j: nat :: j in marked <==> j < |bits| && bits[j]
    ensures Packed(words, w, bits)
  {
    forall c: nat | c < |words| ensures Padded(words[c], Part(bits, w, c)) {
      ChunkStartNext(w, c);
      var part := Part(bits, w, c);
      forall s: nat | s < w ensures words[c][s] <==> s < |part| && part[s] {
        assert words[c][s] <==> Position(w, c, s) in marked;
      }
    }
  }

  method EncodeOneBitVector(vector: seq<real>, encoded: array<Word>, w: nat)
    requires w > 0 && Marks(encoded[..], w, {}) && |vector| <= ChunkStart(w, encoded.Length)
    modifies encoded
    ensures Packed(encoded[..], w, VectorBits(vector, None, OneBit))
  {
    hide Marks, ChunkStart;
    ghost var marked: set<nat> := {};
    for i := 0 to |vector|
      invariant Marks(encoded[..], w, marked)
      invariant forall j: nat :: j in marked <==> j < i && vector[j] > 0.0
    {
      if vector[i] > 0.0 {
        SetBit(encoded, w, i, marked);
        marked := marked + {i};
      }
    }
    MarksArePacked(encoded[..], w, marked, VectorBits(vector, None, OneBit));
  }

  method EncodeTwoBitsVector(vector: seq<real>, encoded: array<Word>, stats: Option<seq<ElementStats>>, w: nat)
    requires w > 0 && Marks(encoded[..], w, {}) && 2 * |vector| <= ChunkStart(w, encoded.Length)
    requires stats.Some? ==> |stats.value| >= |vector|
    modifies encoded
    ensures Packed(encoded[..], w, VectorBits(vector, stats, TwoBits))
  {
    hide Marks, ChunkStart, First, Second;
    var n := |vector|;
    ghost var marked: set<nat> := {};
    for i := 0 to n
      invariant Marks(encoded[..], w, marked)
      invariant forall j: nat :: j in marked <==>
                  (j < i && First(vector, stats, j)) || (n <= j < n + i && Second(vector, stats, j - n))
    {
      var b1, b2 := First(vector, stats, i), Second(vector, stats, i);
      if b1 {
        SetBit(encoded, w, i, marked);
        marked := marked + {i};
      }
      if b2 {
        var j := n + i;
        SetBit(encoded, w, j, marked);
        marked := marked + {j};
      }
    }
    MarksArePacked(encoded[..], w, marked, VectorBits(vector, stats, TwoBits));
  }

  method EncodeOneAndHalfBitsVector(vector: seq<real>, encoded: array<Word>, stats: Option<seq<ElementStats>>, w: nat)
    requires w > 0 && Marks(encoded[..], w, {}) && DivCeil(3 * |vector|, 2) <= ChunkStart(w, encoded.Length)
    requires stats.Some? ==> |stats.value| >= |vector|
    modifies encoded
    ensures Packed(encoded[..], w, VectorBits(vector, stats, OneAndHalfBits))
  {
    hide Marks, ChunkStart, First, Second;
    var n := |vector|;
    ghost var marked: set<nat> := {};
    for i := 0 to n
      invariant Marks(encoded[..], w, marked)
      invariant forall j: nat :: j in marked <==>
                  if j < n then j < i && First(vector, stats, j) else SharedBit(vector, stats, i, j - n)
    {
      var b1, b2 := First(vector, stats, i), Second(vector, stats, i);
      if b1 {
        SetBit(encoded, w, i, marked);
        marked := marked + {i};
      }
      if b2 {
        var j := n + i / 2;
        SetBit(encoded, w, j, marked);
        marked := marked + {j};
      }
    }
    MarksArePacked(encoded[..], w, marked, VectorBits(vector, stats, OneAndHalfBits));
  }

  /** The bit that elements `2p` and `2p + 1` share, as far as the first `i` elements set it. */
  predicate SharedBit(vector: seq<real>, stats: Option<seq<ElementStats>>, i: nat, p: nat)
    requires i <= |vector|
  {
    (2 * p < i && Second(vector, stats, 2 * p)) || (2 * p + 1 < i && Second(vector, stats, 2 * p + 1))
  }

  method EncodeVector(vector: seq<real>, stats: Option<seq<ElementStats>>, encoding: Encoding, store: Store)
    returns (words: seq<Word>)
    requires stats.Some? ==> |stats.value| >= |vector|
    ensures |words| == GetStorageSize(store, Max(ExtendedDim(|vector|, encoding), 1))
    ensures Packed(words, store.Bits(), VectorBits(vector, stats, encoding))
  {
    hide Marks, ChunkStart, GetStorageSize, VectorBits;
    var w, dim := store.Bits(), ExtendedDim(|vector|, encoding);
    var size := GetStorageSize(store, Max(dim, 1));
    WordsFit(store, Max(dim, 1));
    var encoded := new Word[size](_ => seq(w, _ => false));
    NothingMarked(encoded[..], w);
    match encoding {
      case OneBit =>
        SignsNeedNoStats(vector, stats);
        EncodeOneBitVector(vector, encoded, w);
      case TwoBits => EncodeTwoBitsVector(vector, encoded, stats, w);
      case OneAndHalfBits => EncodeOneAndHalfBitsVector(vector, encoded, stats, w);
    }
    return encoded[..];
  }

  lemma WordsFit(store: Store, size: nat)
    ensures size <= ChunkStart(store.Bits(), GetStorageSize(store, size))
  {
    StorageFits(store, size);
  }

  lemma NothingMarked(words: seq<Word>, w: nat)
    requires forall c :: 0 <= c < |words| ==> words[c] == seq(w, _ => false)
    ensures Marks(words, w, {})
  {
  }

  lemma SignsNeedNoStats(vector: seq<real>, stats: Option<seq<ElementStats>>)
    ensures VectorBits(vector, stats, OneBit) == VectorBits(vector, None, OneBit)
  {
  }

  // ---------------------------------------------------------------------------------------
  // Queries
  // ---------------------------------------------------------------------------------------

  function Abs(x: real): real {
    if x < 0.0 then -x else x
  }

  function MaxAbs(query: seq<real>): (r: real)
    ensures r >= 0.0
    ensures forall i :: 0 <= i < |query| ==> -r <= query[i] <= r
    ensures r == 0.0 || exists i :: 0 <= i < |query| && (query[i] == r || query[i] == -r)
  {
    if |query| == 0 then 0.0
    else
      var last := |query| - 1;
      var r, x := MaxAbs(query[..last]), Abs(query[last]);
      assert r != 0.0 ==> exists i :: 0 <= i < last && (query[..last][i] == r || query[..last][i] == -r);
      if r < x then x else r
  }

  function Delta(query: seq<real>, k: nat): real
    requires k > 0
  {
    ShlIsPositive(k);
    (MaxAbs(query) + MaxAbs(query)) / ((Shl(1, k) - 1) as real)
  }

  lemma {:induction false} ShlIsPositive(k: nat)
    ensures Shl(1, k) > k
  {
    if k > 0 {
      ShlIsPositive(k - 1);
    }
  }

  /** Rounding a scaled entry to the nearest step, as a machine integer, wrapped to `k` bits. */
  function Rounded(value: real, min: real, delta: real, k: nat): (r: nat)
    ensures r < Shl(1, k)
  {
    ShlIsPositive(k);
    var scaled := if delta > EPSILON then (value - min) / delta else 0.0;
    var rounded := (scaled + 0.5).Floor;
    (if rounded < 0 then 0 else rounded) % Shl(1, k)
  }

  /** A quantized entry as a word of `w` bits; one that does not fit becomes zero. */
  function Quantize(value: real, min: real, delta: real, k: nat, w: nat): (r: nat)
    ensures r < Shl(1, k)
  {
    ShlIsPositive(k);
    var r := Rounded(value, min, delta, k);
    if r < Shl(1, w) then r else 0
  }

  function Quantized(query: seq<real>, k: nat, w: nat): (r: seq<nat>)
    requires k > 0
    ensures |r| == |query| && Small(r, k)
  {
    seq(|query|, i requires 0 <= i < |query| => Quantize(query[i], -MaxAbs(query), Delta(query, k), k, w))
  }

  function Times(x: real, y: real): real {
    x * y
  }

  /** The value in the middle of the step that a quantized entry names. */
  function Restored(q: nat, min: real, delta: real): real {
    Times(q as real, delta) + min
  }

  predicate Within(x: real, y: real, d: real) {
    y - d / 2.0 <= x <= y + d / 2.0
  }

  /** Unless the query is nearly zero, no entry wraps or fails to fit, and each is within half a step of its value. */
  lemma QuantizedIsNear(query: seq<real>, k: nat, w: nat, i: nat)
    requires 0 < k <= w && i < |query| && Delta(query, k) > 1.0 / 8388608.0
    ensures Within(Restored(Quantized(query, k, w)[i], -MaxAbs(query), Delta(query, k)), query[i], Delta(query, k))
  {
    ShlIsPositive(k);
    DeltaTimes(query, k);
    QuantizedAt(query, k, w, i);
    ShlOrder(k, w);
    hide MaxAbs, Delta, Shl, Rounded, Restored, Within, Times, Quantized;
    QuantizeNear(query[i], MaxAbs(query), Delta(query, k), k);
  }

  lemma {:induction false} ShlOrder(k: nat, w: nat)
    requires k <= w
    ensures Shl(1, k) <= Shl(1, w)
  {
    if k < w {
      ShlOrder(k, w - 1);
    }
  }

  lemma QuantizedAt(query: seq<real>, k: nat, w: nat, i: nat)
    requires k > 0 && i < |query|
    ensures Quantized(query, k, w)[i] == Quantize(query[i], -MaxAbs(query), Delta(query, k), k, w)
  {
    hide MaxAbs, Delta, Quantize;
  }

  lemma QuantizeNear(value: real, max: real, delta: real, k: nat)
    requires delta > EPSILON && -max <= value <= max && Shl(1, k) > 1
    requires Times(delta, (Shl(1, k) - 1) as real) == max + max
    ensures Within(Restored(Rounded(value, -max, delta, k), -max, delta), value, delta)
  {
    hide Shl, Rounded;
    var x := value + max;
    ScaledInRange(x, delta, Shl(1, k) - 1);
    QuantizeIs(value, -max, x, delta, k);
    hide Times;
    NearTimes((x / delta + 0.5).Floor as real, x / delta, delta);
  }

  lemma QuantizeIs(value: real, min: real, x: real, delta: real, k: nat)
    requires delta > EPSILON && x == value - min && 0 <= (x / delta + 0.5).Floor < Shl(1, k)
    ensures Rounded(value, min, delta, k) == (x / delta + 0.5).Floor
  {
    hide Shl;
    SmallModulo((x / delta + 0.5).Floor, Shl(1, k));
  }

  lemma SmallModulo(a: nat, b: nat)
    requires a < b
    ensures a % b == a
  {
  }

  lemma DeltaTimes(query: seq<real>, k: nat)
    requires k > 0 && Shl(1, k) > 1
    ensures Times(Delta(query, k), (Shl(1, k) - 1) as real) == MaxAbs(query) + MaxAbs(query)
  {
    hide MaxAbs, Shl;
  }

  lemma ScaledInRange(x: real, d: real, ranges: nat)
    requires 0.0 <= x <= Times(d, ranges as real) && d > 0.0
    ensures 0.0 <= x / d <= ranges as real && Times(x / d, d) == x
    ensures 0 <= (x / d + 0.5).Floor <= ranges
  {
    QuotientOrder(0.0, x, d);
    QuotientOrder(x, Times(d, ranges as real), d);
  }

  lemma NearTimes(q: real, x: real, d: real)
    requires x - 0.5 <= q <= x + 0.5 && d > 0.0
    ensures Within(Times(q, d), Times(x, d), d)
  {
    assert q * d - x * d == (q - x) * d;
    assert (q - x) * d <= 0.5 * d && (q - x) * d >= -0.5 * d;
  }


  /** The query that stands for the extended bits: repeated, or with the larger of every two entries. */
  function ExtendedQuery(query: seq<real>, encoding: Encoding): (r: seq<real>)
    ensures |r| == ExtendedDim(|query|, encoding)
  {
    match encoding
    case OneBit => query
    case TwoBits => query + query
    case OneAndHalfBits =>
      query + seq(DivCeil(|query|, 2), p requires 0 <= p < DivCeil(|query|, 2) =>
        if 2 * p + 1 < |query| && query[2 * p] < query[2 * p + 1] then query[2 * p + 1] else query[2 * p])
  }

  /** In the order of the loops: by chunk, then by lane, then by plane. */
  predicate Before(c: nat, s: nat, b: nat, c0: nat, s0: nat, b0: nat) {
    c < c0 || (c == c0 && (s < s0 || (s == s0 && b < b0)))
  }

  predicate QueryBit(qs: seq<nat>, w: nat, c: nat, s: nat, b: nat) {
    Position(w, c, s) < |qs| && Shr(qs[Position(w, c, s)], b) % 2 == 1
  }

  predicate Lane(encoded: seq<Word>, k: nat, c: nat, s: nat, b: nat) {
    Position(k, c, b) < |encoded| && s < |encoded[Position(k, c, b)]| && encoded[Position(k, c, b)][s]
  }

  /** The planes hold the bits of the entries that come before a point of the loops, and zeros. */
  ghost predicate Filled(encoded: seq<Word>, w: nat, k: nat, chunks: nat, qs: seq<nat>, c0: nat, s0: nat, b0: nat) {
    && Words(encoded, w) && |encoded| == ChunkStart(k, chunks)
    && forall c: nat, s: nat, b: nat {:trigger Lane(encoded, k, c, s, b)} :: c < chunks && s < w && b < k ==>
         (Lane(encoded, k, c, s, b) <==> QueryBit(qs, w, c, s, b) && Before(c, s, b, c0, s0, b0))
  }

  lemma PositionInside(k: nat, chunks: nat, c: nat, b: nat)
    requires c < chunks && b < k
    ensures Position(k, c, b) < ChunkStart(k, chunks)
  {
    ChunkStartNext(k, c);
    ChunkStartOrder(k, c + 1, chunks);
  }

  lemma NothingFilled(encoded: seq<Word>, w: nat, k: nat, chunks: nat, qs: seq<nat>)
    requires |encoded| == ChunkStart(k, chunks) && forall p :: 0 <= p < |encoded| ==> encoded[p] == seq(w, _ => false)
    ensures Filled(encoded, w, k, chunks, qs, 0, 0, 0)
  {
  }

  lemma FillOne(encoded: seq<Word>, after: seq<Word>, w: nat, k: nat, chunks: nat, qs: seq<nat>, c0: nat, s0: nat,
                b0: nat)
    requires Filled(encoded, w, k, chunks, qs, c0, s0, b0) && c0 < chunks && s0 < w && b0 < k
    requires var p := Position(k, c0, b0);
             p < |encoded| && after == encoded[p := encoded[p][s0 := encoded[p][s0] || QueryBit(qs, w, c0, s0, b0)]]
    ensures Filled(after, w, k, chunks, qs, c0, s0, b0 + 1)
  {
    hide Position, QueryBit;
    var p := Position(k, c0, b0);
    forall c: nat, s: nat, b: nat | c < chunks && s < w && b < k
      ensures Lane(after, k, c, s, b) <==> QueryBit(qs, w, c, s, b) && Before(c, s, b, c0, s0, b0 + 1)
    {
      assert Lane(encoded, k, c, s, b) <==> QueryBit(qs, w, c, s, b) && Before(c, s, b, c0, s0, b0);
      PositionInside(k, chunks, c, b);
      PositionIsUnique(k, c, b, p);
      PositionIsUnique(k, c0, b0, p);
    }
  }

  lemma NextLane(encoded: seq<Word>, w: nat, k: nat, chunks: nat, qs: seq<nat>, c0: nat, s0: nat)
    requires Filled(encoded, w, k, chunks, qs, c0, s0, k)
    ensures Filled(encoded, w, k, chunks, qs, c0, s0 + 1, 0)
  {
  }

  lemma NextChunk(encoded: seq<Word>, w: nat, k: nat, chunks: nat, qs: seq<nat>, c0: nat, s0: nat)
    requires Filled(encoded, w, k, chunks, qs, c0, s0, 0)
    requires s0 >= w || Position(w, c0, s0) >= |qs|
    ensures Filled(encoded, w, k, chunks, qs, c0 + 1, 0, 0)
  {
  }

  lemma FilledIsTransposed(encoded: seq<Word>, w: nat, k: nat, chunks: nat, qs: seq<nat>, c0: nat)
    requires Filled(encoded, w, k, chunks, qs, c0, 0, 0) && |qs| <= ChunkStart(w, c0)
    ensures Transposes(encoded, w, k, chunks, qs)
  {
    forall c: nat | c < chunks ensures ChunkTransposed(encoded, w, k, c, qs) {
      FilledChunk(encoded, w, k, chunks, qs, c0, c);
    }
  }

  lemma FilledChunk(encoded: seq<Word>, w: nat, k: nat, chunks: nat, qs: seq<nat>, c0: nat, c: nat)
    requires Filled(encoded, w, k, chunks, qs, c0, 0, 0) && |qs| <= ChunkStart(w, c0) && c < chunks
    ensures ChunkTransposed(encoded, w, k, c, qs)
  {
    ChunkStartNext(k, c);
    ChunkStartNext(w, c);
    ChunkStartOrder(k, c + 1, chunks);
    if c >= c0 {
      ChunkStartOrder(w, c0, c);
    }
    var planes, part := Planes(encoded, k, c), Part(qs, w, c);
    hide ChunkStart, Shr;
    forall b: nat, s: nat {:trigger planes[b][s]} | b < |planes| && s < w
      ensures planes[b][s] <==> s < |part| && Shr(part[s], b) % 2 == 1
    {
      assert Lane(encoded, k, c, s, b) <==> QueryBit(qs, w, c, s, b) && Before(c, s, b, c0, 0, 0);
      assert Lane(encoded, k, c, s, b) <==> planes[b][s];
    }
    assert Words(planes, w);
    assert Transposed(planes, w, part);
  }

  /** The code shifts words by less than `k`, so that `k` may not exceed their width. */
  method EncodeScalarQueryVector(query: seq<real>, k: nat, store: Store) returns (encoded: seq<Word>)
    requires 0 < k <= store.Bits()
    ensures Transposes(encoded, store.Bits(), k, GetStorageSize(store, Max(|query|, 1)),
                       Quantized(query, k, store.Bits()))
  {
    hide Filled, ChunkStart, GetStorageSize, Quantize, Delta, MaxAbs;
    var w, chunks := store.Bits(), GetStorageSize(store, Max(|query|, 1));
    WordsFit(store, Max(|query|, 1));
    ghost var qs := Quantized(query, k, w);
    encoded := seq(ChunkStart(k, chunks), _ => seq(w, _ => false));
    NothingFilled(encoded, w, k, chunks, qs);
    var min, delta := -MaxAbs(query), Delta(query, k);
    for chunkIndex := 0 to DivCeil(|query|, w)
      invariant Filled(encoded, w, k, chunks, qs, chunkIndex, 0, 0)
    {
      var chunk := Part(query, w, chunkIndex);
      for shift := 0 to |chunk|
        invariant Filled(encoded, w, k, chunks, qs, chunkIndex, shift, 0)
      {
        var quantized := Quantize(chunk[shift], min, delta, k, w);
        assert quantized == qs[Position(w, chunkIndex, shift)];
        for b := 0 to k
          invariant Filled(encoded, w, k, chunks, qs, chunkIndex, shift, b)
        {
          ChunkInside(w, |query|, chunks, chunkIndex);
          PositionInside(k, chunks, chunkIndex, b);
          var p, bit := ChunkStart(k, chunkIndex) + b, Shr(quantized, b) % 2 == 1;
          FilledHasLane(encoded, w, k, chunks, qs, chunkIndex, shift, b, p);
          ghost var before := encoded;
          encoded := encoded[p := encoded[p][shift := encoded[p][shift] || bit]];
          FillOne(before, encoded, w, k, chunks, qs, chunkIndex, shift, b);
        }
        NextLane(encoded, w, k, chunks, qs, chunkIndex, shift);
      }
      ChunkEnds(w, |query|, chunkIndex, |chunk|);
      NextChunk(encoded, w, k, chunks, qs, chunkIndex, |chunk|);
    }
    ChunksCover(w, |query|);
    FilledIsTransposed(encoded, w, k, chunks, qs, DivCeil(|query|, w));
  }

  lemma ChunksCover(w: nat, n: nat)
    requires w > 0
    ensures n <= ChunkStart(w, DivCeil(n, w)) < n + w
  {
  }

  lemma ChunkInside(w: nat, n: nat, chunks: nat, c: nat)
    requires w > 0 && n <= ChunkStart(w, chunks) && c < DivCeil(n, w)
    ensures c < chunks
  {
    ChunksCover(w, n);
    if chunks <= c {
      ChunkStartOrder(w, chunks + 1, DivCeil(n, w));
      ChunkStartNext(w, chunks);
    }
  }

  lemma ChunkEnds(w: nat, n: nat, c: nat, size: nat)
    requires size == Min(ChunkStart(w, c + 1), n) - Min(ChunkStart(w, c), n)
    ensures size >= w || Position(w, c, size) >= n
  {
    ChunkStartNext(w, c);
  }

  lemma FilledHasLane(encoded: seq<Word>, w: nat, k: nat, chunks: nat, qs: seq<nat>, c0: nat, s0: nat, b0: nat, p: nat)
    requires Filled(encoded, w, k, chunks, qs, c0, s0, b0) && p < ChunkStart(k, chunks)
    ensures p < |encoded| && |encoded[p]| == w
  {
  }

  /** From reals to the score: encoding both sides and scoring gives the sum over the extended entries. */
  method ScoreEncoded(vector: seq<real>, query: seq<real>, stats: Option<seq<ElementStats>>, encoding: Encoding,
                      k: nat, store: Store)
    returns (score: nat)
    requires 0 < k <= store.Bits() && |vector| == |query| && (stats.Some? ==> |stats.value| >= |vector|)
    ensures score == TermSum(VectorBits(vector, stats, encoding),
                             Quantized(ExtendedQuery(query, encoding), k, store.Bits()), k)
  {
    hide Packed, Transposes, VectorBits, Quantized, ExtendedQuery, GetStorageSize, Term;
    var words := EncodeVector(vector, stats, encoding, store);
    var extended := ExtendedQuery(query, encoding);
    var planes := EncodeScalarQueryVector(extended, k, store);
    ghost var bits, qs := VectorBits(vector, stats, encoding), Quantized(extended, k, store.Bits());
    ScoreIsTermSum(words, planes, store.Bits(), k, bits, qs);
    EncodedAreWords(words, planes, store.Bits(), k, bits, qs);
    score := XorPopcntScalar(words, planes, k, store.Bits());
  }

  lemma EncodedAreWords(words: seq<Word>, planes: seq<Word>, w: nat, k: nat, bits: seq<bool>, qs: seq<nat>)
    requires Packed(words, w, bits) && Transposes(planes, w, k, |words|, qs)
    ensures Words(words, w) && Words(planes, w)
  {
  }
}
