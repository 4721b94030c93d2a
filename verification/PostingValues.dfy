/** How the values attached to ids are stored: in place, or as cuts of one buffer of bytes. */
module PostingValues {
  import opened Wrappers
  import opened Layout

  const U32_MAX := 0xFFFF_FFFF

  /** Fixed-size values are stored as they are; others as bytes, found by where they start. */
  datatype Handler<!V> = SizedHandler | UnsizedHandler(toBytes: V -> Value, fromBytes: Value -> V)

  /** What stands beside an id. */
  datatype Cell<V> = Inline(value: V) | At(start: nat)

  datatype Processed<V> = Processed(cells: seq<Cell<V>>, varData: Value)

  ghost predicate Reads<V(!new)>(h: Handler<V>) {
    h.UnsizedHandler? ==> forall v: V :: h.fromBytes(h.toBytes(v)) == v
  }

  /** Where the bytes of the `k`-th value start when the values are laid out one after the other. */
  function Start<V>(toBytes: V -> Value, values: seq<V>, k: nat): nat
    requires k <= |values|
  {
    if k == 0 then 0 else Start(toBytes, values, k - 1) + |toBytes(values[k - 1])|
  }

  lemma {:induction false} StartOrder<V>(toBytes: V -> Value, values: seq<V>, j: nat, k: nat)
    requires j <= k <= |values|
    ensures Start(toBytes, values, j) <= Start(toBytes, values, k)
  {
    if j < k {
      StartOrder(toBytes, values, j, k - 1);
    }
  }

  predicate TooLong<V>(h: Handler<V>, values: seq<V>) {
    h.UnsizedHandler? && Start(h.toBytes, values, |values|) >= 0x1_0000_0000
  }

  predicate BytesAt<V>(toBytes: V -> Value, values: seq<V>, varData: Value, k: nat)
    requires k < |values|
  {
    var start := Start(toBytes, values, k);
    start + |toBytes(values[k])| <= |varData| && varData[start..start + |toBytes(values[k])|] == toBytes(values[k])
  }

  /** The cells and bytes hold exactly the values, in their order. */
  ghost predicate Stored<V>(h: Handler<V>, values: seq<V>, cells: seq<Cell<V>>, varData: Value) {
    && |cells| == |values|
    && match h
       case SizedHandler => varData == [] && forall k :: 0 <= k < |values| ==> cells[k] == Inline(values[k])
       case UnsizedHandler(toBytes, _) =>
         && |varData| == Start(toBytes, values, |values|)
         && (forall k: nat :: k < |values| ==> cells[k] == At(Start(toBytes, values, k)))
         && (forall k: nat :: k < |values| ==> BytesAt(toBytes, values, varData, k))
  }

  predicate BytesUpTo<V>(toBytes: V -> Value, values: seq<V>, varData: Value, n: nat)
    requires n <= |values|
  {
    forall k: nat :: k < n ==> BytesAt(toBytes, values, varData, k)
  }

  /** Writing the next value leaves the earlier ones alone. */
  lemma WriteNext<V>(toBytes: V -> Value, values: seq<V>, varData: Value, i: nat)
    requires i < |values| && |varData| == Start(toBytes, values, |values|) && BytesUpTo(toBytes, values, varData, i)
    ensures Start(toBytes, values, i) + |toBytes(values[i])| == Start(toBytes, values, i + 1) <= |varData|
    ensures BytesUpTo(toBytes, values, Splice(varData, Start(toBytes, values, i), toBytes(values[i])), i + 1)
  {
    var start, value := Start(toBytes, values, i), toBytes(values[i]);
    StartOrder(toBytes, values, i + 1, |values|);
    assert start + |value| == Start(toBytes, values, i + 1);
    var next := Splice(varData, start, value);
    SplicePuts(varData, start, value);
    forall k: nat | k < i ensures BytesAt(toBytes, values, next, k) {
      assert BytesAt(toBytes, values, varData, k);
      StartOrder(toBytes, values, k + 1, i);
      SpliceLeaves(varData, start, value, Start(toBytes, values, k), Start(toBytes, values, k + 1));
    }
  }

  ghost predicate OffsetsUpTo<V>(toBytes: V -> Value, values: seq<V>, offsets: seq<nat>) {
    |offsets| <= |values| && forall k: nat :: k < |offsets| ==> offsets[k] == Start(toBytes, values, k)
  }

  /** The result is `None` when the code stops because the bytes outgrow 32-bit offsets. */
  method ProcessValues<V>(h: Handler<V>, values: seq<V>) returns (r: Option<Processed<V>>)
    ensures r.None? <==> TooLong(h, values)
    ensures r.Some? ==> Stored(h, values, r.value.cells, r.value.varData)
  {
    hide BytesUpTo, OffsetsUpTo;
    if h.SizedHandler? {
      return Some(Processed(seq(|values|, i requires 0 <= i < |values| => Inline(values[i])), []));
    }
    var laidOut := LayOut(h.toBytes, values);
    if laidOut.None? {
      return None;
    }
    var offsets, currentOffset := laidOut.value.0, laidOut.value.1;
    var varData := WriteValues(h.toBytes, values, offsets, currentOffset);
    r := Some(Processed(seq(|offsets|, i requires 0 <= i < |offsets| => At(offsets[i])), varData));
    AllWritten(h.toBytes, h.fromBytes, values, offsets, r.value);
  }

  /** The start of every value and the end of the last one. */
  method LayOut<V>(toBytes: V -> Value, values: seq<V>) returns (r: Option<(seq<nat>, nat)>)
    ensures r.None? <==> Start(toBytes, values, |values|) > U32_MAX
    ensures r.Some? ==> OffsetsUpTo(toBytes, values, r.value.0) && |r.value.0| == |values|
    ensures r.Some? ==> r.value.1 == Start(toBytes, values, |values|)
  {
    var offsets: seq<nat> := [];
    var currentOffset := 0;
    for i := 0 to |values|
      invariant |offsets| == i && currentOffset == Start(toBytes, values, i) <= U32_MAX
      invariant OffsetsUpTo(toBytes, values, offsets)
    {
      offsets := offsets + [currentOffset];
      var valueLen := |toBytes(values[i])|;
      StartOrder(toBytes, values, i + 1, |values|);
      if valueLen > U32_MAX || currentOffset + valueLen > U32_MAX {
        return None;
      }
      currentOffset := currentOffset + valueLen;
    }
    return Some((offsets, currentOffset));
  }

  method WriteValues<V>(toBytes: V -> Value, values: seq<V>, offsets: seq<nat>, currentOffset: nat)
    returns (varData: Value)
    requires OffsetsUpTo(toBytes, values, offsets) && |offsets| == |values|
    requires currentOffset == Start(toBytes, values, |values|)
    ensures |varData| == currentOffset && BytesUpTo(toBytes, values, varData, |values|)
  {
    varData := seq(currentOffset, _ => 0);
    for i := 0 to |values|
      invariant |varData| == currentOffset && BytesUpTo(toBytes, values, varData, i)
    {
      hide BytesUpTo, Splice;
      var end := if i + 1 < |offsets| then offsets[i + 1] else currentOffset;
      WriteNext(toBytes, values, varData, i);
      assert offsets[i] + |toBytes(values[i])| == end;
      varData := Splice(varData, offsets[i], toBytes(values[i]));
    }
  }

  lemma AllWritten<V>(toBytes: V -> Value, fromBytes: Value -> V, values: seq<V>, offsets: seq<nat>, p: Processed<V>)
    requires OffsetsUpTo(toBytes, values, offsets) && |offsets| == |values|
    requires |p.cells| == |offsets| && forall k :: 0 <= k < |offsets| ==> p.cells[k] == At(offsets[k])
    requires |p.varData| == Start(toBytes, values, |values|) && BytesUpTo(toBytes, values, p.varData, |values|)
    ensures Stored(UnsizedHandler(toBytes, fromBytes), values, p.cells, p.varData)
  {
  }

  lemma SplicePuts(bytes: Value, first: nat, value: Value)
    requires first + |value| <= |bytes|
    ensures Splice(bytes, first, value)[first..first + |value|] == value
  {
  }

  lemma SpliceLeaves(bytes: Value, first: nat, value: Value, lo: nat, hi: nat)
    requires first + |value| <= |bytes| && lo <= hi <= |bytes| && (hi <= first || first + |value| <= lo)
    ensures Splice(bytes, first, value)[lo..hi] == bytes[lo..hi]
  {
  }

  /** The slice that a cell and its successor cut out lies inside the buffer. */
  predicate CanCut<V>(h: Handler<V>, cell: Cell<V>, next: Option<Cell<V>>, varData: Value) {
    match h
    case SizedHandler => cell.Inline?
    case UnsizedHandler(_, _) =>
      && cell.At? && (next.Some? ==> next.value.At? && cell.start <= next.value.start <= |varData|)
      && cell.start <= |varData|
  }

  function GetValue<V>(h: Handler<V>, cell: Cell<V>, next: Option<Cell<V>>, varData: Value): V
    requires CanCut(h, cell, next, varData)
  {
    match h
    case SizedHandler => cell.value
    case UnsizedHandler(_, fromBytes) =>
      fromBytes(varData[cell.start..if next.Some? then next.value.start else |varData|])
  }

  /** A cell and the one after it, or the end, give back the value. */
  lemma CutIsValue<V(!new)>(h: Handler<V>, values: seq<V>, cells: seq<Cell<V>>, varData: Value, k: nat)
    requires Reads(h) && Stored(h, values, cells, varData) && k < |values|
    ensures var next := if k + 1 < |cells| then Some(cells[k + 1]) else None;
            CanCut(h, cells[k], next, varData) && GetValue(h, cells[k], next, varData) == values[k]
  {
    if h.UnsizedHandler? {
      var toBytes := h.toBytes;
      assert BytesAt(toBytes, values, varData, k);
      assert Start(toBytes, values, k + 1) == Start(toBytes, values, k) + |toBytes(values[k])|;
    }
  }
}
