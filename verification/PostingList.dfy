/** The chunked, compressed list of ids with values, and how it is built. */
module PostingList {
  import opened Wrappers
  import opened Layout
  import opened PostingValues

  type Id = x: int | 0 <= x < 0x1_0000_0000

  // ---------------------------------------------------------------------------------------
  // The compressor of blocks of 128 ids
  // ---------------------------------------------------------------------------------------

  /** `numBits`, `compress` and `decompress` take the first id of the block as a base. */
  datatype Packer = Packer(
    numBits: (Id, seq<Id>) -> nat,
    compress: (Id, seq<Id>, nat) -> Value,
    decompress: (Id, Value, nat) -> seq<Id>)

  predicate Sorted(ids: seq<Id>) {
    forall i, j :: 0 <= i < j < |ids| ==> ids[i] <= ids[j]
  }

  predicate Increasing(ids: seq<Id>) {
    forall i, j :: 0 <= i < j < |ids| ==> ids[i] < ids[j]
  }

  ghost predicate IsBlock(ids: seq<Id>) {
    |ids| == 128 && Sorted(ids)
  }

  function Packed(p: Packer, ids: seq<Id>): Value
    requires |ids| > 0
  {
    p.compress(ids[0], ids, p.numBits(ids[0], ids))
  }

  /** What the compressor promises for one block. */
  ghost predicate PacksBlock(p: Packer, ids: seq<Id>)
    requires |ids| > 0
  {
    var bits := p.numBits(ids[0], ids);
    bits <= 32 && |Packed(p, ids)| == 16 * bits && p.decompress(ids[0], Packed(p, ids), bits) == ids
  }

  ghost predicate Packs(p: Packer) {
    forall ids: seq<Id> :: IsBlock(ids) ==> PacksBlock(p, ids)
  }

  function LittleEndian(id: Id): (r: Value)
    ensures |r| == 4
  {
    var id1 := id / 256;
    var id2 := id1 / 256;
    [id % 256, id1 % 256, id2 % 256, id2 / 256]
  }

  function FromLittleEndian(b0: int, b1: int, b2: int, b3: int): Id
    requires 0 <= b0 < 256 && 0 <= b1 < 256 && 0 <= b2 < 256 && 0 <= b3 < 256
  {
    b0 + 256 * (b1 + 256 * (b2 + 256 * b3))
  }

  function PlainCompress(ids: seq<Id>): (r: Value)
    ensures |r| == 4 * |ids|
  {
    if ids == [] then [] else LittleEndian(ids[0]) + PlainCompress(ids[1..])
  }

  function PlainDecompress(bytes: Value): seq<Id> {
    if |bytes| < 4 then []
    else [FromLittleEndian(bytes[0], bytes[1], bytes[2], bytes[3])] + PlainDecompress(bytes[4..])
  }

  lemma {:induction false} PlainRoundTrip(ids: seq<Id>)
    ensures PlainDecompress(PlainCompress(ids)) == ids
  {
    if ids != [] {
      PlainRoundTrip(ids[1..]);
      var first, rest := LittleEndian(ids[0]), PlainCompress(ids[1..]);
      LittleEndianRoundTrip(ids[0]);
      hide LittleEndian, FromLittleEndian;
      assert (first + rest)[4..] == rest;
    }
  }

  lemma LittleEndianRoundTrip(id: Id)
    ensures var b := LittleEndian(id); FromLittleEndian(b[0], b[1], b[2], b[3]) == id
  {
  }

  /** The promises can be kept: 32 bits an id are always enough. */
  lemma SomePackerPacks() returns (p: Packer)
    ensures Packs(p)
  {
    p := Packer((_, _) => 32, (_, ids, _) => PlainCompress(ids), (_, bytes, _) => PlainDecompress(bytes));
    forall ids: seq<Id> | IsBlock(ids) ensures PacksBlock(p, ids) {
      PlainRoundTrip(ids);
    }
  }

  // ---------------------------------------------------------------------------------------
  // The list
  // ---------------------------------------------------------------------------------------

  datatype Element<V> = Element(id: Id, value: V)

  datatype Chunk<V> = Chunk(initialId: Id, offset: nat, sizedValues: seq<Cell<V>>)

  datatype Remainder<V> = Remainder(id: Id, value: Cell<V>)

  datatype PostingList<V> = PostingList(
    idData: Value,
    varData: Value,
    chunks: seq<Chunk<V>>,
    remainders: seq<Remainder<V>>,
    lastId: Option<Id>)
  {
    function Len(): nat {
      |chunks| * 128 + |remainders|
    }
  }

  function Ids<V>(elements: seq<Element<V>>): (r: seq<Id>)
    ensures |r| == |elements| && forall i :: 0 <= i < |r| ==> r[i] == elements[i].id
  {
    seq(|elements|, i requires 0 <= i < |elements| => elements[i].id)
  }

  function Values<V>(elements: seq<Element<V>>): (r: seq<V>)
    ensures |r| == |elements| && forall i :: 0 <= i < |r| ==> r[i] == elements[i].value
  {
    seq(|elements|, i requires 0 <= i < |elements| => elements[i].value)
  }

  /** Where the compressed bytes of a chunk end: where the next chunk's start, or at the end of all. */
  function EndOffset<V>(chunks: seq<Chunk<V>>, idData: Value, c: nat): nat
    requires c < |chunks|
  {
    if c + 1 < |chunks| then chunks[c + 1].offset else |idData|
  }

  predicate InPlace<V>(chunks: seq<Chunk<V>>, idData: Value, c: nat)
    requires c < |chunks|
  {
    chunks[c].offset <= EndOffset(chunks, idData, c) <= |idData|
  }

  function CompressedSize<V>(chunks: seq<Chunk<V>>, idData: Value, c: nat): (r: nat)
    requires c < |chunks| && InPlace(chunks, idData, c)
  {
    EndOffset(chunks, idData, c) - chunks[c].offset
  }

  /** The bit width is read back from the size of the compressed bytes and kept in a byte. */
  function ChunkBits(compressedSize: nat): nat {
    compressedSize * 8 / 128 % 256
  }

  function Decompressed<V>(p: Packer, list: PostingList<V>, c: nat): seq<Id>
    requires c < |list.chunks| && InPlace(list.chunks, list.idData, c)
  {
    var size := CompressedSize(list.chunks, list.idData, c);
    var offset := list.chunks[c].offset;
    p.decompress(list.chunks[c].initialId, list.idData[offset..offset + size], ChunkBits(size))
  }

  predicate ChunkStored<V>(p: Packer, list: PostingList<V>, ids: seq<Id>, c: nat)
    requires c < |list.chunks| && 128 * c + 128 <= |ids|
  {
    && list.chunks[c].initialId == ids[128 * c]
    && InPlace(list.chunks, list.idData, c)
    && Decompressed(p, list, c) == ids[128 * c..128 * c + 128]
  }

  ghost predicate IdsStored<V>(p: Packer, list: PostingList<V>, ids: seq<Id>) {
    && |list.chunks| == |ids| / 128 && |list.remainders| == |ids| % 128
    && list.lastId == (if |ids| == 0 then None else Some(ids[|ids| - 1]))
    && (forall c: nat :: c < |list.chunks| ==> ChunkStored(p, list, ids, c))
    && (forall r: nat :: r < |list.remainders| ==> list.remainders[r].id == ids[128 * |list.chunks| + r])
  }

  ghost predicate CellsStored<V>(list: PostingList<V>, cells: seq<Cell<V>>) {
    && |list.chunks| == |cells| / 128 && |list.remainders| == |cells| % 128
    && (forall c: nat :: c < |list.chunks| ==> list.chunks[c].sizedValues == cells[128 * c..128 * c + 128])
    && (forall r: nat :: r < |list.remainders| ==> list.remainders[r].value == cells[128 * |list.chunks| + r])
  }

  /** The list holds exactly `elements`, in their order, with `cells` beside the ids. */
  ghost predicate Holds<V>(p: Packer, h: Handler<V>, list: PostingList<V>, elements: seq<Element<V>>,
                           cells: seq<Cell<V>>)
  {
    && Sorted(Ids(elements))
    && IdsStored(p, list, Ids(elements))
    && Stored(h, Values(elements), cells, list.varData)
    && CellsStored(list, cells)
  }

  ghost predicate Represents<V(!new)>(p: Packer, h: Handler<V>, list: PostingList<V>, elements: seq<Element<V>>) {
    exists cells :: Holds(p, h, list, elements, cells)
  }

  // ---------------------------------------------------------------------------------------
  // Building
  // ---------------------------------------------------------------------------------------

  function Block(ids: seq<Id>, c: nat): (r: seq<Id>)
    requires 128 * c + 128 <= |ids|
    ensures |r| == 128
  {
    ids[128 * c..128 * c + 128]
  }

  /** Where the bytes of the `c`-th block start. */
  function BlockStart(p: Packer, ids: seq<Id>, c: nat): nat
    requires 128 * c <= |ids|
  {
    if c == 0 then 0
    else
      var block := Block(ids, c - 1);
      BlockStart(p, ids, c - 1) + 16 * p.numBits(block[0], block)
  }

  lemma {:induction false} BlockStartOrder(p: Packer, ids: seq<Id>, b: nat, c: nat)
    requires b <= c && 128 * c <= |ids|
    ensures BlockStart(p, ids, b) <= BlockStart(p, ids, c)
  {
    if b < c {
      BlockStartOrder(p, ids, b, c - 1);
    }
  }

  /** The offset of some chunk does not fit in 32 bits. */
  ghost predicate TooManyBytes(p: Packer, ids: seq<Id>) {
    exists c: nat :: 128 * c + 128 <= |ids| && BlockStart(p, ids, c) >= 0x1_0000_0000
  }

  ghost predicate BlockWritten(p: Packer, ids: seq<Id>, idData: Value, c: nat)
    requires 128 * c + 128 <= |ids|
  {
    var start, end := BlockStart(p, ids, c), BlockStart(p, ids, c + 1);
    start <= end <= |idData| && idData[start..end] == Packed(p, Block(ids, c))
  }

  ghost predicate BlocksWritten(p: Packer, ids: seq<Id>, idData: Value, n: nat)
    requires 128 * n <= |ids|
  {
    forall c: nat :: c < n ==> BlockWritten(p, ids, idData, c)
  }

  lemma BlockPacks(p: Packer, ids: seq<Id>, c: nat)
    requires Packs(p) && Sorted(ids) && 128 * c + 128 <= |ids|
    ensures PacksBlock(p, Block(ids, c)) && Block(ids, c)[0] == ids[128 * c]
    ensures BlockStart(p, ids, c + 1) == BlockStart(p, ids, c) + |Packed(p, Block(ids, c))|
  {
    assert IsBlock(Block(ids, c));
  }

  lemma WriteNextBlock(p: Packer, ids: seq<Id>, idData: Value, c: nat)
    requires Packs(p) && Sorted(ids) && 128 * c + 128 <= |ids|
    requires |idData| == BlockStart(p, ids, |ids| / 128) && BlocksWritten(p, ids, idData, c)
    ensures BlockStart(p, ids, c) + |Packed(p, Block(ids, c))| == BlockStart(p, ids, c + 1) <= |idData|
    ensures BlocksWritten(p, ids, Splice(idData, BlockStart(p, ids, c), Packed(p, Block(ids, c))), c + 1)
  {
    var start, value := BlockStart(p, ids, c), Packed(p, Block(ids, c));
    BlockPacks(p, ids, c);
    BlockStartOrder(p, ids, c + 1, |ids| / 128);
    var next := Splice(idData, start, value);
    hide Packs, Splice, BlockStart, Packed, Block;
    SplicePuts(idData, start, value);
    forall b: nat | b < c ensures BlockWritten(p, ids, next, b) {
      assert BlockWritten(p, ids, idData, b);
      BlockStartOrder(p, ids, b + 1, c);
      SpliceLeaves(idData, start, value, BlockStart(p, ids, b), BlockStart(p, ids, b + 1));
    }
  }

  ghost predicate ChunksMade<V>(p: Packer, ids: seq<Id>, cells: seq<Cell<V>>, chunks: seq<Chunk<V>>) {
    && |cells| == |ids| && 128 * |chunks| <= |ids|
    && forall c: nat :: c < |chunks| ==>
         chunks[c] == Chunk(ids[128 * c], BlockStart(p, ids, c), cells[128 * c..128 * c + 128])
  }

  /** A written block decompresses to its ids: the width read back from the size is the one it was packed with. */
  lemma WrittenIsStored<V>(p: Packer, list: PostingList<V>, ids: seq<Id>, cells: seq<Cell<V>>, c: nat)
    requires Packs(p) && Sorted(ids) && ChunksMade(p, ids, cells, list.chunks)
    requires |list.chunks| == |ids| / 128 && |list.idData| == BlockStart(p, ids, |list.chunks|)
    requires c < |list.chunks| && BlockWritten(p, ids, list.idData, c)
    ensures ChunkStored(p, list, ids, c)
  {
    hide Packs, Sorted, BlockStart, ChunkBits, ChunksMade;
    BlockPacks(p, ids, c);
    ChunkPlaced(p, list, ids, cells, c);
    BitsReadBack(p.numBits(ids[128 * c], Block(ids, c)));
  }

  lemma ChunkPlaced<V>(p: Packer, list: PostingList<V>, ids: seq<Id>, cells: seq<Cell<V>>, c: nat)
    requires ChunksMade(p, ids, cells, list.chunks)
    requires |list.chunks| == |ids| / 128 && |list.idData| == BlockStart(p, ids, |list.chunks|)
    requires c < |list.chunks|
    ensures list.chunks[c].initialId == ids[128 * c] && list.chunks[c].offset == BlockStart(p, ids, c)
    ensures EndOffset(list.chunks, list.idData, c) == BlockStart(p, ids, c + 1)
  {
    hide BlockStart;
  }

  lemma BitsReadBack(bits: nat)
    requires bits <= 32
    ensures ChunkBits(16 * bits) == bits
  {
  }

  lemma BuiltHolds<V(!new)>(p: Packer, h: Handler<V>, list: PostingList<V>, elements: seq<Element<V>>,
                     cells: seq<Cell<V>>)
    requires Packs(p) && Sorted(Ids(elements)) && ChunksMade(p, Ids(elements), cells, list.chunks)
    requires |list.chunks| == |elements| / 128 && |list.idData| == BlockStart(p, Ids(elements), |list.chunks|)
    requires BlocksWritten(p, Ids(elements), list.idData, |list.chunks|)
    requires Stored(h, Values(elements), cells, list.varData)
    requires RemaindersMade(Ids(elements), cells, list.remainders)
    requires list.lastId == if |elements| > 0 then Some(elements[|elements| - 1].id) else None
    ensures Holds(p, h, list, elements, cells)
  {
    var ids := Ids(elements);
    forall c: nat | c < |list.chunks| ensures ChunkStored(p, list, ids, c) {
      hide Stored, Sorted, Packs, BlockStart, ChunkStored;
      WrittenIsStored(p, list, ids, cells, c);
    }
    hide Stored, Sorted, Packs, BlockStart, ChunkStored, BlocksWritten;
  }

  /** The blocks are compressed with as few bits as the compressor asks for, one after the other without gaps. */
  ghost predicate IsPacked<V>(p: Packer, list: PostingList<V>, ids: seq<Id>) {
    && (if list.chunks == [] then list.idData == [] else list.chunks[0].offset == 0)
    && 128 * |list.chunks| <= |ids|
    && forall c: nat :: c < |list.chunks| ==> ChunkPacked(p, list, ids, c)
  }

  predicate ChunkPacked<V>(p: Packer, list: PostingList<V>, ids: seq<Id>, c: nat)
    requires c < |list.chunks| && 128 * c + 128 <= |ids|
  {
    var block := ids[128 * c..128 * c + 128];
    && InPlace(list.chunks, list.idData, c)
    && list.idData[list.chunks[c].offset..EndOffset(list.chunks, list.idData, c)]
       == p.compress(block[0], block, p.numBits(block[0], block))
  }

  lemma BuiltIsPacked<V>(p: Packer, list: PostingList<V>, ids: seq<Id>, cells: seq<Cell<V>>)
    requires ChunksMade(p, ids, cells, list.chunks)
    requires |list.chunks| == |ids| / 128 && |list.idData| == BlockStart(p, ids, |list.chunks|)
    requires BlocksWritten(p, ids, list.idData, |list.chunks|)
    ensures IsPacked(p, list, ids)
  {
    assert BlockStart(p, ids, 0) == 0;
    hide BlockStart;
    forall c: nat | c < |list.chunks| ensures ChunkPacked(p, list, ids, c) {
      ChunkPlaced(p, list, ids, cells, c);
      assert BlockWritten(p, ids, list.idData, c);
    }
  }

  ghost predicate RemaindersMade<V>(ids: seq<Id>, cells: seq<Cell<V>>, remainders: seq<Remainder<V>>) {
    && |cells| == |ids| && |remainders| == |ids| % 128
    && forall r: nat :: r < |remainders| ==>
         remainders[r] == Remainder(ids[128 * (|ids| / 128) + r], cells[128 * (|ids| / 128) + r])
  }

  /** Collects elements; `Build` consumes them. */
  class PostingBuilder<V(==, !new)> {
    var elements: seq<Element<V>>

    constructor ()
      ensures elements == []
    {
      elements := [];
    }

    method Add(id: Id, value: V)
      modifies this
      ensures elements == old(elements) + [Element(id, value)]
    {
      elements := elements + [Element(id, value)];
    }

    /**
     `sorted` stands for what the unstable sort leaves: any order of the elements by id. The result
     is `None` when the code stops because an offset does not fit in 32 bits.
     */
    method Build(p: Packer, h: Handler<V>, sorted: seq<Element<V>>) returns (r: Option<PostingList<V>>)
      requires Packs(p)
      requires multiset(sorted) == multiset(elements) && Sorted(Ids(sorted))
      ensures r.None? <==> TooLong(h, Values(sorted)) || TooManyBytes(p, Ids(sorted))
      ensures r.Some? ==> Represents(p, h, r.value, sorted) && IsPacked(p, r.value, Ids(sorted))
    {
      hide Packs, TooLong, TooManyBytes, ChunksMade, BlocksWritten, BlockStart, Sorted, IsPacked;
      var ids, values := Ids(sorted), Values(sorted);
      var processed := ProcessValues(h, values);
      if processed.None? {
        return None;
      }
      var cells := processed.value.cells;
      var made := MakeChunks(p, ids, cells);
      if made.None? {
        return None;
      }
      var chunks, idDataSize := made.value.0, made.value.1;
      var remainders := MakeRemainders(ids, cells);
      var idData := CompressIds(p, ids, cells, chunks, idDataSize);
      var lastId := if |ids| > 0 then Some(ids[|ids| - 1]) else None;
      var list := PostingList(idData, processed.value.varData, chunks, remainders, lastId);
      BuiltHolds(p, h, list, sorted, cells);
      BuiltIsPacked(p, list, ids, cells);
      return Some(list);
    }
  }

  method MakeChunks<V(!new)>(p: Packer, ids: seq<Id>, cells: seq<Cell<V>>) returns (r: Option<(seq<Chunk<V>>, nat)>)
    requires Packs(p) && Sorted(ids) && |cells| == |ids|
    ensures r.None? <==> TooManyBytes(p, ids)
    ensures r.Some? ==> ChunksMade(p, ids, cells, r.value.0) && |r.value.0| == |ids| / 128
    ensures r.Some? ==> r.value.1 == BlockStart(p, ids, |ids| / 128)
  {
    var chunks: seq<Chunk<V>> := [];
    var idDataSize := 0;
    for c := 0 to |ids| / 128
      invariant |chunks| == c && idDataSize == BlockStart(p, ids, c)
      invariant ChunksMade(p, ids, cells, chunks)
      invariant forall b: nat :: b < c ==> BlockStart(p, ids, b) <= U32_MAX
    {
      hide Packs, Sorted;
      var block := Block(ids, c);
      var initial := block[0];
      var chunkSize := 16 * p.numBits(initial, block);
      if idDataSize > U32_MAX {
        return None;
      }
      chunks := chunks + [Chunk(initial, idDataSize, cells[128 * c..128 * c + 128])];
      idDataSize := idDataSize + chunkSize;
    }
    return Some((chunks, idDataSize));
  }

  method MakeRemainders<V>(ids: seq<Id>, cells: seq<Cell<V>>) returns (remainders: seq<Remainder<V>>)
    requires |cells| == |ids|
    ensures RemaindersMade(ids, cells, remainders)
  {
    remainders := [];
    var first := 128 * (|ids| / 128);
    for i := first to |ids|
      invariant |remainders| == i - first
      invariant forall r: nat :: r < |remainders| ==> remainders[r] == Remainder(ids[first + r], cells[first + r])
    {
      remainders := remainders + [Remainder(ids[i], cells[i])];
    }
  }

  method CompressIds<V>(p: Packer, ids: seq<Id>, ghost cells: seq<Cell<V>>, chunks: seq<Chunk<V>>, idDataSize: nat)
    returns (idData: Value)
    requires Packs(p) && Sorted(ids) && ChunksMade(p, ids, cells, chunks) && |chunks| == |ids| / 128
    requires idDataSize == BlockStart(p, ids, |ids| / 128)
    ensures |idData| == idDataSize && BlocksWritten(p, ids, idData, |chunks|)
  {
    idData := seq(idDataSize, _ => 0);
    for c := 0 to |chunks|
      invariant |idData| == idDataSize && BlocksWritten(p, ids, idData, c)
    {
      hide BlocksWritten, Splice;
      var block := Block(ids, c);
      BlockPacks(p, ids, c);
      WriteNextBlock(p, ids, idData, c);
      BlockStartOrder(p, ids, c + 1, |chunks|);
      var size := CompressedSize(chunks, idData, c);
      BitsReadBack(p.numBits(block[0], block));
      assert size == |Packed(p, block)| && ChunkBits(size) == p.numBits(block[0], block);
      idData := Splice(idData, chunks[c].offset, p.compress(chunks[c].initialId, block, ChunkBits(size)));
    }
  }
}
