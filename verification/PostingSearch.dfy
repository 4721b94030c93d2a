/** Reading a posting list: searching, fetching by offset, and iterating with skips. */
module PostingSearch {
  import opened Wrappers
  import opened PostingValues
  import opened PostingList

  // ---------------------------------------------------------------------------------------
  // Searching on values
  // ---------------------------------------------------------------------------------------

  datatype SearchResult = Found(at: nat) | Missing(at: nat)

  /** Any place where `id` is, or the place where it would have to be inserted. */
  ghost predicate Locates(s: seq<Id>, id: Id, r: SearchResult) {
    match r
    case Found(at) => at < |s| && s[at] == id
    case Missing(at) =>
      && at <= |s|
      && (forall k :: 0 <= k < at ==> s[k] < id)
      && (forall k :: at <= k < |s| ==> id < s[k])
  }

  method BinarySearch(s: seq<Id>, id: Id) returns (r: SearchResult)
    requires Sorted(s)
    ensures Locates(s, id, r)
  {
    var lo, hi := 0, |s|;
    while lo < hi
      invariant 0 <= lo <= hi <= |s|
      invariant forall k :: 0 <= k < lo ==> s[k] < id
      invariant forall k :: hi <= k < |s| ==> id < s[k]
    {
      var mid := (lo + hi) / 2;
      if s[mid] < id {
        lo := mid + 1;
      } else if id < s[mid] {
        hi := mid;
      } else {
        return Found(mid);
      }
    }
    return Missing(lo);
  }

  /** At most one offset from `from` on has the id. */
  predicate Once(ids: seq<Id>, from: nat, id: Id) {
    forall j: nat, k: nat :: from <= j < k < |ids| && ids[j] == id ==> ids[k] != id
  }

  /** `r` is the first offset from `from` on whose id is at least `id`, as documented. */
  ghost predicate IsFirst(ids: seq<Id>, from: nat, id: Id, r: Option<nat>) {
    match r
    case None => forall k: nat :: from <= k < |ids| ==> ids[k] < id
    case Some(at) => from <= at < |ids| && id <= ids[at] && forall k: nat :: from <= k < at ==> ids[k] < id
  }

  /**
   `r` is an offset of the least id from `from` on that is at least `id`, and the first such offset
   when `id` is not repeated.
   */
  ghost predicate FirstAtLeast(ids: seq<Id>, from: nat, id: Id, r: Option<nat>) {
    && (match r
        case None => forall k: nat :: from <= k < |ids| ==> ids[k] < id
        case Some(at) =>
          && from <= at < |ids| && id <= ids[at]
          && (forall k: nat :: from <= k < |ids| && id <= ids[k] ==> ids[at] <= ids[k]))
    && (Once(ids, from, id) ==> IsFirst(ids, from, id, r))
  }

  lemma SplitIsFirst(ids: seq<Id>, from: nat, at: nat, id: Id)
    requires Sorted(ids) && from <= at < |ids|
    requires ids[at] == id || (id <= ids[at] && (at == from || ids[at - 1] < id))
    ensures FirstAtLeast(ids, from, id, Some(at))
  {
    if at > from && ids[at - 1] < id {
      assert forall k: nat :: from <= k < at ==> ids[k] <= ids[at - 1];
    }
  }

  // ---------------------------------------------------------------------------------------
  // The answers that the code may give, for any binary search that keeps its contract
  // ---------------------------------------------------------------------------------------

  function ChunkCount(ids: seq<Id>): (m: nat)
    ensures 128 * m <= |ids| < 128 * m + 128
  {
    |ids| / 128
  }

  /** The ids past the last full chunk. */
  function Rest(ids: seq<Id>): (r: seq<Id>)
    ensures |r| == |ids| - 128 * ChunkCount(ids)
    ensures forall i :: 0 <= i < |r| ==> r[i] == ids[128 * ChunkCount(ids) + i]
  {
    ids[128 * ChunkCount(ids)..]
  }

  /** The first ids of the chunks from `start` on. */
  function Initials(ids: seq<Id>, start: nat): (r: seq<Id>)
    requires start <= ChunkCount(ids)
    ensures |r| == ChunkCount(ids) - start && forall i :: 0 <= i < |r| ==> r[i] == ids[128 * (start + i)]
  {
    seq(ChunkCount(ids) - start, i requires 0 <= i < ChunkCount(ids) - start => ids[128 * (start + i)])
  }

  function ChunkOf(start: nat, found: SearchResult): Option<nat> {
    match found
    case Found(at) => Some(start + at)
    case Missing(at) => if at > 0 then Some(start + (at - 1)) else None
  }

  /** What `find_chunk` may return. */
  ghost predicate MayFind(ids: seq<Id>, start: nat, id: Id, c: Option<nat>) {
    var m := ChunkCount(ids);
    if 128 * m < |ids| && ids[128 * m] <= id then c.None?
    else if m <= start then c.None?
    else if start + 1 < m && ids[128 * start] <= id < ids[128 * (start + 1)] then c == Some(start)
    else exists found :: Locates(Initials(ids, start), id, found) && c == ChunkOf(start, found)
  }

  function OffsetInChunk(ids: seq<Id>, c: nat, found: SearchResult): Option<nat> {
    if found.Missing? && found.at >= 128 then
      if (c + 1) * 128 < |ids| then Some((c + 1) * 128) else None
    else Some(found.at + c * 128)
  }

  function OffsetInRest(ids: seq<Id>, found: SearchResult): Option<nat> {
    if found.Missing? && found.at >= |Rest(ids)| then None else Some(found.at + ChunkCount(ids) * 128)
  }

  /** What the search in the chunk found, or in the remainders if none, may return. */
  ghost predicate MayReturn(ids: seq<Id>, id: Id, c: Option<nat>, r: Option<nat>) {
    match c
    case Some(c) =>
      c < ChunkCount(ids) && exists found :: Locates(Block(ids, c), id, found) && r == OffsetInChunk(ids, c, found)
    case None => exists found :: Locates(Rest(ids), id, found) && r == OffsetInRest(ids, found)
  }

  /** Where the first id of the start chunk is; past the chunks it is that of the remainders. */
  function StartOffset(ids: seq<Id>, start: nat): nat {
    128 * if start < ChunkCount(ids) then start else ChunkCount(ids)
  }

  /** What `search_greater_or_equal` may return. */
  ghost predicate MayAnswer(ids: seq<Id>, start: nat, id: Id, r: Option<nat>) {
    var first := StartOffset(ids, start);
    if |ids| <= first then r.None?
    else if id <= ids[first] then r == Some(start * 128)
    else if ids[|ids| - 1] < id then r.None?
    else exists c: Option<nat> :: MayFind(ids, start, id, c) && MayReturn(ids, id, c, r)
  }

  /** The chunk is the only one from `start` on that may hold `id`, or it begins with it. */
  ghost predicate MayHold(ids: seq<Id>, start: nat, id: Id, c: nat) {
    && start <= c < ChunkCount(ids) && ids[128 * c] <= id
    && (ids[128 * c] == id || 128 * c + 128 >= |ids| || id < ids[128 * c + 128])
  }

  lemma FoundMayHold(ids: seq<Id>, start: nat, id: Id, c: Option<nat>)
    requires Sorted(ids) && start <= ChunkCount(ids) && MayFind(ids, start, id, c)
    requires 128 * start < |ids| && ids[128 * start] <= id
    ensures match c
            case Some(c) => MayHold(ids, start, id, c)
            case None => 128 * ChunkCount(ids) < |ids| && ids[128 * ChunkCount(ids)] <= id
  {
    var m := ChunkCount(ids);
    if (128 * m < |ids| && ids[128 * m] <= id) || m <= start {
    } else if start + 1 < m && ids[128 * start] <= id < ids[128 * (start + 1)] {
    } else {
      var found :| Locates(Initials(ids, start), id, found) && c == ChunkOf(start, found);
      SearchLandsIn(ids, start, id, found);
    }
  }

  lemma SearchLandsIn(ids: seq<Id>, start: nat, id: Id, found: SearchResult)
    requires start < ChunkCount(ids) && Locates(Initials(ids, start), id, found) && ids[128 * start] <= id
    requires 128 * ChunkCount(ids) < |ids| ==> id < ids[128 * ChunkCount(ids)]
    ensures ChunkOf(start, found).Some? && MayHold(ids, start, id, ChunkOf(start, found).value)
  {
    var at, initials := found.at, Initials(ids, start);
    hide Initials, ChunkCount;
    assert initials[0] == ids[128 * start];
    if at > 0 {
      assert initials[at - 1] == ids[128 * (start + (at - 1))];
    }
    if at < |initials| {
      assert initials[at] == ids[128 * (start + at)];
    }
  }

  /** Every answer is an offset of the least id that is at least the target. */
  lemma AnswerIsLeast(ids: seq<Id>, start: nat, id: Id, r: Option<nat>)
    requires Sorted(ids) && start <= ChunkCount(ids) && MayAnswer(ids, start, id, r)
    ensures FirstAtLeast(ids, 128 * start, id, r)
  {
    if |ids| <= 128 * start || ids[|ids| - 1] < id {
    } else if id <= ids[128 * start] {
      SplitIsFirst(ids, 128 * start, 128 * start, id);
    } else {
      var c: Option<nat> :| MayFind(ids, start, id, c) && MayReturn(ids, id, c, r);
      FoundMayHold(ids, start, id, c);
      hide FirstAtLeast, MayFind, MayAnswer;
      if c.Some? {
        var found :| Locates(Block(ids, c.value), id, found) && r == OffsetInChunk(ids, c.value, found);
        ChunkAnswerIsLeast(ids, 128 * start, id, c.value, found);
      } else {
        var found :| Locates(Rest(ids), id, found) && r == OffsetInRest(ids, found);
        RestAnswerIsLeast(ids, 128 * start, id, found);
      }
    }
  }

  lemma ChunkAnswerIsLeast(ids: seq<Id>, from: nat, id: Id, c: nat, found: SearchResult)
    requires Sorted(ids) && from <= 128 * c && |ids| > 0 && id <= ids[|ids| - 1]
    requires MayHold(ids, 0, id, c) && Locates(Block(ids, c), id, found)
    ensures FirstAtLeast(ids, from, id, OffsetInChunk(ids, c, found))
  {
    var block := Block(ids, c);
    hide FirstAtLeast;
    if found.Missing? && found.at >= 128 {
      assert block[127] == ids[128 * c + 127];
      SplitIsFirst(ids, from, (c + 1) * 128, id);
    } else {
      var at := found.at + c * 128;
      assert ids[at] == block[found.at];
      if found.Missing? {
        assert block[0] == ids[128 * c];
        assert ids[at - 1] == block[found.at - 1];
      }
      SplitIsFirst(ids, from, at, id);
    }
  }

  lemma RestAnswerIsLeast(ids: seq<Id>, from: nat, id: Id, found: SearchResult)
    requires Sorted(ids) && from <= 128 * ChunkCount(ids) < |ids| && id <= ids[|ids| - 1]
    requires ids[128 * ChunkCount(ids)] <= id && Locates(Rest(ids), id, found)
    ensures FirstAtLeast(ids, from, id, OffsetInRest(ids, found))
  {
    var first, rest := 128 * ChunkCount(ids), Rest(ids);
    hide FirstAtLeast, ChunkCount, Rest;
    assert rest[0] == ids[first] && rest[|rest| - 1] == ids[|ids| - 1];
    var at := first + found.at;
    assert ids[at] == rest[found.at];
    if found.at > 0 {
      assert ids[at - 1] == rest[found.at - 1];
    }
    SplitIsFirst(ids, from, at, id);
  }

  /** A later place of a repeated id that some conforming binary searches lead to. */
  lemma LaterAnswer(ids: seq<Id>, start: nat, id: Id, j: nat, k: nat) returns (r: nat)
    requires Sorted(ids) && start <= ChunkCount(ids) && 128 * start <= j < k < |ids|
    requires ids[128 * start] < id && ids[j] == ids[k] == id
    ensures j < r < |ids| && MayAnswer(ids, start, id, Some(r))
  {
    var m := ChunkCount(ids);
    assert id <= ids[|ids| - 1];
    if 128 * m < |ids| && ids[128 * m] <= id {
      r := if k < 128 * m then 128 * m else k;
      assert Rest(ids)[r - 128 * m] == ids[r];
      assert Locates(Rest(ids), id, Found(r - 128 * m));
      assert MayReturn(ids, id, None, Some(r)) && MayFind(ids, start, id, None);
    } else {
      var c;
      c, r := LaterInChunk(ids, start, id, k);
      hide MayFind, MayReturn;
      assert MayFind(ids, start, id, Some(c)) && MayReturn(ids, id, Some(c), Some(r));
    }
  }

  lemma LaterInChunk(ids: seq<Id>, start: nat, id: Id, k: nat) returns (c: nat, r: nat)
    requires Sorted(ids) && start <= ChunkCount(ids) && 128 * start <= k < |ids|
    requires ids[128 * start] < id && ids[k] == id
    requires 128 * ChunkCount(ids) < |ids| ==> id < ids[128 * ChunkCount(ids)]
    ensures k <= r < |ids| && MayFind(ids, start, id, Some(c)) && MayReturn(ids, id, Some(c), Some(r))
  {
    var m, d := ChunkCount(ids), k / 128;
    assert k < 128 * m && start <= d < m;
    c, r := d, k;
    if start + 1 < m && id < ids[128 * (start + 1)] {
      FastPathFinds(ids, start, id);
    } else if d + 1 < m && ids[128 * (d + 1)] == id {
      c, r := d + 1, 128 * (d + 1);
      BeginningFinds(ids, start, id, c);
    } else if ids[128 * d] == id {
      BeginningFinds(ids, start, id, c);
    } else {
      MissingAfter(ids, start, id, d);
      SearchFinds(ids, start, id, Missing(d - start + 1));
    }
    hide MayFind, MayReturn;
    FoundReturns(ids, id, c, r);
  }

  lemma BeginningFinds(ids: seq<Id>, start: nat, id: Id, c: nat)
    requires start <= c < ChunkCount(ids) && ids[128 * c] == id
    requires 128 * ChunkCount(ids) < |ids| ==> id < ids[128 * ChunkCount(ids)]
    requires start + 1 < ChunkCount(ids) ==> ids[128 * (start + 1)] <= id
    ensures MayFind(ids, start, id, Some(c))
  {
    assert Initials(ids, start)[c - start] == ids[128 * c];
    SearchFinds(ids, start, id, Found(c - start));
  }

  lemma FoundReturns(ids: seq<Id>, id: Id, c: nat, r: nat)
    requires c < ChunkCount(ids) && 128 * c <= r < 128 * c + 128 && ids[r] == id
    ensures MayReturn(ids, id, Some(c), Some(r))
  {
    var found := Found(r - 128 * c);
    assert Block(ids, c)[found.at] == id;
    assert Locates(Block(ids, c), id, found) && OffsetInChunk(ids, c, found) == Some(r);
  }

  lemma FastPathFinds(ids: seq<Id>, start: nat, id: Id)
    requires start + 1 < ChunkCount(ids) && ids[128 * start] <= id < ids[128 * (start + 1)]
    requires 128 * ChunkCount(ids) < |ids| ==> id < ids[128 * ChunkCount(ids)]
    ensures MayFind(ids, start, id, Some(start))
  {
  }

  lemma SearchFinds(ids: seq<Id>, start: nat, id: Id, found: SearchResult)
    requires start < ChunkCount(ids) && Locates(Initials(ids, start), id, found)
    requires 128 * ChunkCount(ids) < |ids| ==> id < ids[128 * ChunkCount(ids)]
    requires start + 1 < ChunkCount(ids) ==> !(ids[128 * start] <= id < ids[128 * (start + 1)])
    ensures MayFind(ids, start, id, ChunkOf(start, found))
  {
  }

  lemma MissingAfter(ids: seq<Id>, start: nat, id: Id, d: nat)
    requires Sorted(ids) && start <= d < ChunkCount(ids) && ids[128 * d] < id
    requires d + 1 < ChunkCount(ids) ==> id < ids[128 * (d + 1)]
    ensures Locates(Initials(ids, start), id, Missing(d - start + 1))
    ensures ChunkOf(start, Missing(d - start + 1)) == Some(d)
  {
    var initials := Initials(ids, start);
    forall i | 0 <= i < d - start + 1 ensures initials[i] < id {
      assert ids[128 * (start + i)] <= ids[128 * d];
    }
    forall i | d - start + 1 <= i < |initials| ensures id < initials[i] {
      assert ids[128 * (d + 1)] <= ids[128 * (start + i)];
    }
  }

  /**
   The documented promise: every answer is the first offset if and only if the start chunk begins
   with an id that is large enough, or the target is not repeated from the start chunk on.
   */
  lemma FirstIffNotRepeated(ids: seq<Id>, start: nat, id: Id)
    requires Sorted(ids) && start <= ChunkCount(ids)
    ensures (forall r: Option<nat> :: MayAnswer(ids, start, id, r) ==> IsFirst(ids, 128 * start, id, r))
            <==> (128 * start < |ids| && id <= ids[128 * start]) || Once(ids, 128 * start, id)
  {
    forall r: Option<nat> | MayAnswer(ids, start, id, r)
      ensures FirstAtLeast(ids, 128 * start, id, r)
    {
      AnswerIsLeast(ids, start, id, r);
    }
    if !Once(ids, 128 * start, id) && ids[128 * start] < id {
      var j: nat, k: nat :| 128 * start <= j < k < |ids| && ids[j] == id && ids[k] == id;
      var r := LaterAnswer(ids, start, id, j, k);
      assert !IsFirst(ids, 128 * start, id, Some(r));
    }
  }

  /**
   When the target is repeated from within one chunk into the next, no answer is the first offset,
   whatever the binary search picks.
   */
  lemma RepeatIsMissed(ids: seq<Id>, start: nat, c: nat, id: Id, r: nat)
    requires Sorted(ids) && start < c && 128 * c < |ids|
    requires ids[128 * (c - 1)] < id && ids[128 * c - 1] == ids[128 * c] == id
    requires MayAnswer(ids, start, id, Some(r))
    ensures 128 * c - 1 < r
  {
    assert ids[128 * start] <= ids[128 * (c - 1)] && id <= ids[|ids| - 1];
    var found: Option<nat> :| MayFind(ids, start, id, found) && MayReturn(ids, id, found, Some(r));
    hide MayFind, MayAnswer, Sorted;
    FoundMayHold(ids, start, id, found);
    if found.Some? {
      HoldsLater(ids, start, c, id, found.value);
    }
  }

  lemma HoldsLater(ids: seq<Id>, start: nat, c: nat, id: Id, d: nat)
    requires Sorted(ids) && start < c && 128 * c < |ids| && ids[128 * (c - 1)] < id && ids[128 * c] == id
    requires MayHold(ids, start, id, d)
    ensures d >= c
  {
  }

  /** One id and then 128 times another: the search for the other misses the offset 1. */
  lemma FirstIsMissed() returns (ids: seq<Id>)
    ensures Sorted(ids) && IsFirst(ids, 0, 2, Some(1))
    ensures MayAnswer(ids, 0, 2, Some(128)) && !IsFirst(ids, 0, 2, Some(128))
    ensures forall r: nat :: MayAnswer(ids, 0, 2, Some(r)) ==> r != 1
  {
    ids := seq(129, i => if i == 0 then 1 else 2);
    assert Rest(ids)[0] == 2 && Locates(Rest(ids), 2, Found(0));
    assert MayFind(ids, 0, 2, None) && MayReturn(ids, 2, None, Some(128));
    forall r: nat | MayAnswer(ids, 0, 2, Some(r)) ensures r > 127 {
      RepeatIsMissed(ids, 0, 1, 2, r);
    }
  }

  function InitialIds<V>(chunks: seq<Chunk<V>>): (r: seq<Id>)
    ensures |r| == |chunks| && forall i :: 0 <= i < |r| ==> r[i] == chunks[i].initialId
  {
    seq(|chunks|, i requires 0 <= i < |chunks| => chunks[i].initialId)
  }

  function RemainderIds<V>(remainders: seq<Remainder<V>>): (r: seq<Id>)
    ensures |r| == |remainders| && forall i :: 0 <= i < |r| ==> r[i] == remainders[i].id
  {
    seq(|remainders|, i requires 0 <= i < |remainders| => remainders[i].id)
  }

  function IdsRange<V>(list: PostingList<V>, startChunk: nat): Option<(Id, Id)> {
    if list.lastId.None? then None
    else if startChunk < |list.chunks| then Some((list.chunks[startChunk].initialId, list.lastId.value))
    else if |list.remainders| > 0 then Some((list.remainders[0].id, list.lastId.value))
    else None
  }

  /** The range from an existing chunk on, or else from the remainders on, is that of the ids there. */
  lemma IdsRangeIsRange<V>(p: Packer, list: PostingList<V>, ids: seq<Id>, startChunk: nat)
    requires IdsStored(p, list, ids) && Sorted(ids)
    ensures var first := StartOffset(ids, startChunk);
            IdsRange(list, startChunk) == if first < |ids| then Some((ids[first], ids[|ids| - 1])) else None
  {
    if startChunk < |list.chunks| {
      assert ChunkStored(p, list, ids, startChunk);
    }
  }

  method FindChunk<V>(list: PostingList<V>, id: Id, startChunk: Option<nat>, ghost p: Packer, ghost ids: seq<Id>)
    returns (r: Option<nat>)
    requires IdsStored(p, list, ids) && Sorted(ids)
    ensures MayFind(ids, if startChunk.Some? then startChunk.value else 0, id, r)
  {
    RestOfIds(p, list, ids);
    var start := if startChunk.Some? then startChunk.value else 0;
    if |list.remainders| > 0 && id >= list.remainders[0].id {
      return None;
    }
    if start > |list.chunks| {
      return None;
    }
    var slice := list.chunks[start..];
    if |slice| == 0 {
      return None;
    }
    InitialsAre(p, list, ids, start, InitialIds(slice));
    r := FindInSlice(slice, id, start, ids);
  }

  method FindInSlice<V>(slice: seq<Chunk<V>>, id: Id, start: nat, ghost ids: seq<Id>) returns (r: Option<nat>)
    requires start < ChunkCount(ids) && InitialIds(slice) == Initials(ids, start) && Sorted(InitialIds(slice))
    requires 128 * ChunkCount(ids) < |ids| ==> id < ids[128 * ChunkCount(ids)]
    ensures MayFind(ids, start, id, r)
  {
    hide Sorted, Locates, MayFind, ChunkCount, Rest;
    var initials := InitialIds(slice);
    if |slice| > 1 {
      var id0, id1 := slice[0].initialId, slice[1].initialId;
      assert id0 == initials[0] && id1 == initials[1];
      if id0 <= id && id < id1 {
        FastPathFinds(ids, start, id);
        return Some(start);
      }
    }
    var found := BinarySearch(initials, id);
    SearchFinds(ids, start, id, found);
    if found.Found? {
      return Some(start + found.at);
    }
    if found.at > 0 {
      return Some(start + (found.at - 1));
    }
    return None;
  }

  lemma InitialsAre<V>(p: Packer, list: PostingList<V>, ids: seq<Id>, start: nat, initials: seq<Id>)
    requires IdsStored(p, list, ids) && Sorted(ids) && start < |list.chunks|
    requires initials == InitialIds(list.chunks[start..])
    ensures Sorted(initials) && initials == Initials(ids, start)
  {
    forall i | 0 <= i < |initials| ensures initials[i] == ids[128 * (start + i)] {
      assert ChunkStored(p, list, ids, start + i);
    }
  }

  lemma RestOfIds<V>(p: Packer, list: PostingList<V>, ids: seq<Id>)
    requires IdsStored(p, list, ids)
    ensures |list.chunks| == ChunkCount(ids) && RemainderIds(list.remainders) == Rest(ids)
    ensures |list.remainders| == |ids| - 128 * |list.chunks|
    ensures |list.remainders| > 0 ==> list.remainders[0].id == ids[128 * |list.chunks|]
  {
  }

  lemma RestIsSorted(ids: seq<Id>)
    requires Sorted(ids)
    ensures Sorted(Rest(ids))
  {
  }

  lemma RestReturns(ids: seq<Id>, id: Id, found: SearchResult)
    requires Locates(Rest(ids), id, found)
    ensures found.Missing? && found.at >= |Rest(ids)| ==> MayReturn(ids, id, None, None)
    ensures !(found.Missing? && found.at >= |Rest(ids)|) ==>
              MayReturn(ids, id, None, Some(found.at + ChunkCount(ids) * 128))
  {
  }

  lemma FoundExists(ids: seq<Id>, start: nat, id: Id, c: Option<nat>)
    requires MayFind(ids, start, id, c) && c.Some?
    ensures c.value < ChunkCount(ids)
  {
  }

  // ---------------------------------------------------------------------------------------
  // The visitor
  // ---------------------------------------------------------------------------------------

  /** `r` is what the list of elements has at an offset. */
  function ElementAt<V>(elements: seq<Element<V>>, offset: nat): Option<Element<V>> {
    if offset < |elements| then Some(elements[offset]) else None
  }

  function CellAt<V>(list: PostingList<V>, k: nat): Option<Cell<V>> {
    if k / 128 < |list.chunks| then
      if k % 128 < |list.chunks[k / 128].sizedValues| then Some(list.chunks[k / 128].sizedValues[k % 128]) else None
    else if k % 128 < |list.remainders| && k / 128 == |list.chunks| then Some(list.remainders[k % 128].value)
    else None
  }

  lemma CellAtIsCell<V>(list: PostingList<V>, cells: seq<Cell<V>>, k: nat)
    requires CellsStored(list, cells)
    ensures CellAt(list, k) == if k < |cells| then Some(cells[k]) else None
  {
    var c := k / 128;
    if c < |list.chunks| {
      assert list.chunks[c].sizedValues == cells[128 * c..128 * c + 128];
    }
  }

  /** The cell after one in a chunk: in the chunk, the first of the next chunk, or the first remainder. */
  function NextInChunk<V>(list: PostingList<V>, c: nat, i: nat): Option<Cell<V>>
    requires c < |list.chunks|
  {
    if i + 1 < |list.chunks[c].sizedValues| then Some(list.chunks[c].sizedValues[i + 1])
    else if c + 1 < |list.chunks| && |list.chunks[c + 1].sizedValues| > 0 then Some(list.chunks[c + 1].sizedValues[0])
    else if |list.remainders| > 0 then Some(list.remainders[0].value)
    else None
  }

  function NextInRemainders<V>(list: PostingList<V>, i: nat): Option<Cell<V>> {
    if i + 1 < |list.remainders| then Some(list.remainders[i + 1].value) else None
  }

  lemma NextIsCellAt<V>(list: PostingList<V>, cells: seq<Cell<V>>, k: nat)
    requires CellsStored(list, cells) && k < |cells|
    ensures k / 128 < |list.chunks| ==> NextInChunk(list, k / 128, k % 128) == CellAt(list, k + 1)
    ensures k / 128 >= |list.chunks| ==> NextInRemainders(list, k % 128) == CellAt(list, k + 1)
  {
    var c := k / 128;
    assert forall b: nat :: b < |list.chunks| ==> |list.chunks[b].sizedValues| == 128;
    if k % 128 == 127 {
      assert (k + 1) / 128 == c + 1 && (k + 1) % 128 == 0;
    } else {
      assert (k + 1) / 128 == c && (k + 1) % 128 == k % 128 + 1;
    }
  }

  /** What a cell and the one the code takes for its successor cut out is the value `v`. */
  predicate Cuts<V(==)>(h: Handler<V>, list: PostingList<V>, cell: Cell<V>, next: Option<Cell<V>>, v: V) {
    CanCut(h, cell, next, list.varData) && GetValue(h, cell, next, list.varData) == v
  }

  lemma CellCuts<V(!new)>(p: Packer, h: Handler<V>, list: PostingList<V>, elements: seq<Element<V>>, k: nat)
    requires Reads(h) && Represents(p, h, list, elements) && k < |elements|
    ensures var c, i := k / 128, k % 128;
            if c < |list.chunks| then
              && i < |list.chunks[c].sizedValues|
              && Cuts(h, list, list.chunks[c].sizedValues[i], NextInChunk(list, c, i), elements[k].value)
            else
              && i < |list.remainders| && list.remainders[i].id == elements[k].id
              && Cuts(h, list, list.remainders[i].value, NextInRemainders(list, i), elements[k].value)
  {
    var cells :| Holds(p, h, list, elements, cells);
    if k / 128 >= |list.chunks| {
      RemainderIdIs(p, list, Ids(elements), k);
    }
    hide CanCut, GetValue, Represents, Reads, Stored, Sorted, IdsStored, NextInChunk, NextInRemainders, Cuts;
    CellCutsAt(h, list, Values(elements), cells, k);
    NextIsCellAt(list, cells, k);
    hide CellsStored;
  }

  lemma CellCutsAt<V(!new)>(h: Handler<V>, list: PostingList<V>, values: seq<V>, cells: seq<Cell<V>>, k: nat)
    requires Reads(h) && Stored(h, values, cells, list.varData) && CellsStored(list, cells) && k < |values|
    ensures |cells| == |values| && CellAt(list, k) == Some(cells[k])
    ensures Cuts(h, list, cells[k], CellAt(list, k + 1), values[k])
  {
    CutIsValue(h, values, cells, list.varData, k);
    hide CanCut, GetValue, Reads;
    assert |cells| == |values|;
    hide Stored;
    CellAtIsCell(list, cells, k);
    CellAtIsCell(list, cells, k + 1);
  }

  lemma RemainderIdIs<V>(p: Packer, list: PostingList<V>, ids: seq<Id>, k: nat)
    requires IdsStored(p, list, ids) && k < |ids| && k / 128 >= |list.chunks|
    ensures k % 128 < |list.remainders| && list.remainders[k % 128].id == ids[k]
  {
  }

  class PostingVisitor<V(==, !new)> {
    const list: PostingList<V>
    const packer: Packer
    const handler: Handler<V>
    ghost const elements: seq<Element<V>>

    var decompressedChunkIdx: Option<nat>
    const decompressedChunk: array<Id>

    /** The cached ids are those of the chunk they are cached for. */
    ghost predicate Valid()
      reads this, decompressedChunk
    {
      && decompressedChunk.Length == 128
      && Reads(handler) && Represents(packer, handler, list, elements)
      && |list.chunks| == |elements| / 128
      && (decompressedChunkIdx.Some? ==>
            decompressedChunkIdx.value < |list.chunks|
            && decompressedChunk[..] == Block(Ids(elements), decompressedChunkIdx.value))
    }

    constructor (list: PostingList<V>, packer: Packer, handler: Handler<V>, ghost elements: seq<Element<V>>)
      requires Reads(handler) && Represents(packer, handler, list, elements)
      ensures Valid() && fresh(decompressedChunk) && this.list == list && this.elements == elements
    {
      this.list := list;
      this.packer := packer;
      this.handler := handler;
      this.elements := elements;
      decompressedChunkIdx := None;
      decompressedChunk := new Id[128](_ => 0);
    }

    lemma Stores()
      requires Valid()
      ensures Sorted(Ids(elements)) && IdsStored(packer, list, Ids(elements)) && list.Len() == |elements|
    {
      var cells :| Holds(packer, handler, list, elements, cells);
    }

    /** Fills the cache unless it already holds the chunk. */
    method DecompressedChunk(chunkIdx: nat)
      requires Valid() && chunkIdx < |list.chunks|
      modifies this, decompressedChunk
      ensures Valid() && decompressedChunkIdx == Some(chunkIdx)
      ensures decompressedChunk[..] == Block(Ids(elements), chunkIdx)
    {
      if decompressedChunkIdx != Some(chunkIdx) {
        Stores();
        assert ChunkStored(packer, list, Ids(elements), chunkIdx);
        var ids := Decompressed(packer, list, chunkIdx);
        forall i | 0 <= i < 128 {
          decompressedChunk[i] := ids[i];
        }
        assert decompressedChunk[..] == ids;
        decompressedChunkIdx := Some(chunkIdx);
      }
    }

    /**
     The search begins with the chunk of the start offset. From every start that lies in a chunk or in
     the remainders the answer is an offset of the least id that is large enough.
     */
    method SearchGreaterOrEqual(id: Id, startFromOffset: Option<nat>) returns (r: Option<nat>)
      requires Valid()
      modifies this, decompressedChunk
      ensures Valid()
      ensures var startChunk := if startFromOffset.Some? then startFromOffset.value / 128 else 0;
              && MayAnswer(Ids(elements), startChunk, id, r)
              && (startChunk <= |list.chunks| ==> FirstAtLeast(Ids(elements), 128 * startChunk, id, r))
    {
      var startChunk := if startFromOffset.Some? then startFromOffset.value / 128 else 0;
      Stores();
      r := SearchFromChunk(id, startChunk);
      if startChunk <= |list.chunks| {
        AnswerIsLeast(Ids(elements), startChunk, id, r);
      }
    }

    method SearchFromChunk(id: Id, startChunk: nat) returns (r: Option<nat>)
      requires Valid()
      modifies this, decompressedChunk
      ensures Valid() && MayAnswer(Ids(elements), startChunk, id, r)
    {
      Stores();
      hide Represents, Reads;
      ghost var ids := Ids(elements);
      RestOfIds(packer, list, ids);
      var range := IdsRange(list, startChunk);
      IdsRangeIsRange(packer, list, ids, startChunk);
      hide Sorted, IdsRange, MayFind, MayReturn;
      if range.None? {
        return None;
      }
      if range.value.0 >= id {
        return Some(startChunk * 128);
      }
      if range.value.1 < id {
        return None;
      }
      var chunkIndex := FindChunk(list, id, Some(startChunk), packer, ids);
      if chunkIndex.Some? {
        FoundExists(ids, startChunk, id, chunkIndex);
        r := SearchInChunk(id, chunkIndex.value);
      } else {
        r := SearchInRemainders(id);
      }
      assert MayFind(ids, startChunk, id, chunkIndex) && MayReturn(ids, id, chunkIndex, r);
    }

    method SearchInChunk(id: Id, chunkIndex: nat) returns (r: Option<nat>)
      requires Valid() && chunkIndex < |list.chunks|
      modifies this, decompressedChunk
      ensures Valid() && MayReturn(Ids(elements), id, Some(chunkIndex), r)
    {
      Stores();
      hide Represents, Reads;
      ghost var ids := Ids(elements);
      DecompressedChunk(chunkIndex);
      var found := BinarySearch(decompressedChunk[..], id);
      if found.Missing? && found.at >= 128 {
        var nextOffset := (chunkIndex + 1) * 128;
        return if nextOffset < list.Len() then Some(nextOffset) else None;
      }
      return Some(found.at + chunkIndex * 128);
    }

    method SearchInRemainders(id: Id) returns (r: Option<nat>)
      requires Valid()
      ensures MayReturn(Ids(elements), id, None, r)
    {
      ghost var ids := Ids(elements);
      hide Represents, Reads, IdsStored, ChunkCount, Rest, Sorted, Locates, RemainderIds, MayReturn, OffsetInRest;
      Stores();
      RestOfIds(packer, list, ids);
      RestIsSorted(ids);
      var found := BinarySearch(RemainderIds(list.remainders), id);
      RestReturns(ids, id, found);
      if found.Missing? && found.at >= |list.remainders| {
        return None;
      }
      return Some(found.at + |list.chunks| * 128);
    }

    method Contains(id: Id) returns (r: bool)
      requires Valid()
      modifies this, decompressedChunk
      ensures Valid()
      ensures r <==> id in Ids(elements)
    {
      hide Represents, Reads, Locates, ChunkCount, Rest, RemainderIds, IdsRange, IdsStored, Sorted, MayFind;
      Stores();
      ghost var ids := Ids(elements);
      IdsRangeIsRange(packer, list, ids, 0);
      RestOfIds(packer, list, ids);
      RestIsSorted(ids);
      NotInRange(ids, id);
      var range := IdsRange(list, 0);
      if range.None? || !(range.value.0 <= id <= range.value.1) {
        return false;
      }
      var chunkIndex := FindChunk(list, id, None, packer, ids);
      FoundMayHold(ids, 0, id, chunkIndex);
      if chunkIndex.Some? {
        r := ContainsInChunk(id, chunkIndex.value);
        return;
      }
      var found := BinarySearch(RemainderIds(list.remainders), id);
      RestDecides(ids, id, found);
      return found.Found?;
    }

    method ContainsInChunk(id: Id, c: nat) returns (r: bool)
      requires Valid() && MayHold(Ids(elements), 0, id, c)
      modifies this, decompressedChunk
      ensures Valid() && (r <==> id in Ids(elements))
    {
      Stores();
      hide Represents, Reads, Locates;
      ghost var ids := Ids(elements);
      assert ChunkStored(packer, list, ids, c);
      if list.chunks[c].initialId == id {
        return true;
      }
      DecompressedChunk(c);
      var found := BinarySearch(decompressedChunk[..], id);
      BlockDecides(ids, c, id, found);
      return found.Found?;
    }

    /** The `k`-th element for every offset, and nothing past the end. */
    method GetByOffset(offset: nat) returns (r: Option<Element<V>>)
      requires Valid()
      modifies this, decompressedChunk
      ensures Valid()
      ensures r == ElementAt(elements, offset)
    {
      Stores();
      var chunkIdx, localOffset := offset / 128, offset % 128;
      if offset >= list.Len() {
        return None;
      }
      CellCuts(packer, handler, list, elements, offset);
      hide Represents, Reads, IdsStored, GetValue, CanCut, NextInChunk, NextInRemainders, CellAt;
      if chunkIdx < |list.chunks| {
        DecompressedChunk(chunkIdx);
        var id := decompressedChunk[..][localOffset];
        var sizedValue := list.chunks[chunkIdx].sizedValues[localOffset];
        var value := GetValue(handler, sizedValue, NextInChunk(list, chunkIdx, localOffset), list.varData);
        return Some(Element(id, value));
      }
      var e := list.remainders[localOffset];
      return Some(Element(e.id, GetValue(handler, e.value, NextInRemainders(list, localOffset), list.varData)));
    }
  }

  /** An id that no chunk begins with is in the list when it is in the chunk that may hold it. */
  lemma BlockDecides(ids: seq<Id>, c: nat, id: Id, found: SearchResult)
    requires Sorted(ids) && MayHold(ids, 0, id, c) && ids[128 * c] != id
    requires Locates(Block(ids, c), id, found)
    ensures found.Found? <==> id in ids
  {
    var block := Block(ids, c);
    forall k: nat | k < |ids| && ids[k] == id ensures id in block {
      assert 128 * c <= k < 128 * c + 128;
      assert block[k - 128 * c] == id;
    }
  }

  lemma NotInRange(ids: seq<Id>, id: Id)
    requires Sorted(ids)
    ensures StartOffset(ids, 0) == 0
    ensures id in ids ==> |ids| > 0 && ids[0] <= id <= ids[|ids| - 1]
  {
  }

  lemma RestDecides(ids: seq<Id>, id: Id, found: SearchResult)
    requires Sorted(ids) && 128 * ChunkCount(ids) < |ids| && ids[128 * ChunkCount(ids)] <= id
    requires Locates(Rest(ids), id, found)
    ensures found.Found? <==> id in ids
  {
    var first, rest := 128 * ChunkCount(ids), Rest(ids);
    hide ChunkCount, Rest;
    assert rest[0] == ids[first];
    if found.Found? {
      assert ids[first + found.at] == id;
    } else {
      forall k: nat | k < |ids| ensures ids[k] != id {
        if k >= first {
          assert ids[k] == rest[k - first];
        } else {
          assert ids[k] <= ids[first];
        }
      }
    }
  }

  // ---------------------------------------------------------------------------------------
  // The iterator
  // ---------------------------------------------------------------------------------------

  class PostingIterator<V(==, !new)> {
    const visitor: PostingVisitor<V>
    var currentElem: Option<Element<V>>
    var offset: nat

    /** Where the iterator stands: at the current element, or before the element to come. */
    ghost var position: nat

    ghost predicate Valid()
      reads this, visitor, visitor.decompressedChunk
    {
      && visitor.Valid()
      && offset <= |visitor.elements|
      && match currentElem
         case Some(e) =>
           && position < |visitor.elements| && e == visitor.elements[position]
           && position <= offset <= position + 1
         case None => position == offset && (offset == 0 || offset == |visitor.elements|)
    }

    constructor (visitor: PostingVisitor<V>)
      requires visitor.Valid()
      ensures Valid() && this.visitor == visitor && offset == position == 0 && currentElem == None
    {
      this.visitor := visitor;
      currentElem := None;
      offset := 0;
      position := 0;
    }

    /** The current element already reaches the target, so that an advance returns it at once. */
    predicate AtTarget(targetId: Id)
      reads this
    {
      currentElem.Some? && currentElem.value.id >= targetId
    }

    /** The current element was returned by `Next`, which moved the offset past it. */
    ghost predicate PastCurrent()
      reads this
    {
      offset == position + 1
    }

    /** The element at the offset, which moves past it. */
    method Next() returns (r: Option<Element<V>>)
      requires Valid()
      modifies this, visitor, visitor.decompressedChunk
      ensures Valid()
      ensures r == currentElem == ElementAt(visitor.elements, old(offset))
      ensures offset == if r.Some? then old(offset) + 1 else old(offset)
      ensures position == old(offset)
    {
      r := visitor.GetByOffset(offset);
      position := offset;
      if r.Some? {
        offset := offset + 1;
      }
      currentElem := r;
    }

    /**
     The least id not before the iterator that is at least the target, and the first element with
     such an id when ids do not repeat. The iterator never moves back.
     */
    method AdvanceUntilGreaterOrEqual(targetId: Id) returns (r: Option<Element<V>>)
      requires Valid()
      modifies this, visitor, visitor.decompressedChunk
      ensures Valid()
      ensures position >= old(position) && offset >= old(offset)
      ensures r.Some? ==> r == currentElem
      ensures r.Some? ==> FirstAtLeast(Ids(visitor.elements), old(position), targetId, Some(position))
      ensures r.None? ==> FirstAtLeast(Ids(visitor.elements), old(position), targetId, None)
      ensures r.None? ==> offset == |visitor.elements|
      ensures old(AtTarget(targetId)) ==>
                r == currentElem == old(currentElem) && offset == old(offset) && position == old(position)
      ensures !old(AtTarget(targetId)) && old(offset) >= |visitor.elements| ==>
                r.None? && currentElem == old(currentElem)
      ensures !old(AtTarget(targetId)) && old(offset) < |visitor.elements| ==>
                && r == currentElem && offset == position
                && MayAnswer(Ids(visitor.elements), old(offset) / 128, targetId,
                             if r.Some? then Some(position) else None)
    {
      visitor.Stores();
      hide AllBelow, FirstAtLeast, Sorted, IdsStored, Represents, Reads;
      ghost var ids := Ids(visitor.elements);
      if currentElem.Some? && currentElem.value.id >= targetId {
        SplitIsFirst(ids, position, position, targetId);
        return currentElem;
      }
      if offset >= visitor.list.Len() {
        NoneAfterEnd(ids, position, targetId);
        return None;
      }
      PassedAreBelow(ids, offset, position, targetId);
      hide MayAnswer;
      var found := visitor.SearchGreaterOrEqual(targetId, Some(offset));
      NotBefore(ids, 128 * (offset / 128), offset, position, targetId, found);
      r := MoveTo(found);
    }

    /**
     A call of `Next` after an advance returns the same element once more, unless the advance returned
     the current element at once and that one came from `Next`: then it returns the one after it.
     */
    method AdvanceThenNext(targetId: Id) returns (a: Option<Element<V>>, b: Option<Element<V>>, ghost at: nat)
      requires Valid()
      modifies this, visitor, visitor.decompressedChunk
      ensures Valid()
      ensures a.Some? ==> a == ElementAt(visitor.elements, at) && b == ElementAt(visitor.elements, position)
      ensures a.Some? ==> position == if old(AtTarget(targetId) && PastCurrent()) then at + 1 else at
      ensures a.Some? && Increasing(Ids(visitor.elements)) ==>
                (b == a <==> !old(AtTarget(targetId) && PastCurrent()))
      ensures a.None? ==> b.None?
    {
      hide FirstAtLeast, MayAnswer, Represents, Reads;
      a := AdvanceUntilGreaterOrEqual(targetId);
      at := position;
      b := Next();
      if a.Some? && Increasing(Ids(visitor.elements)) && at + 1 < |visitor.elements| {
        assert Ids(visitor.elements)[at] < Ids(visitor.elements)[at + 1];
      }
    }

    method MoveTo(found: Option<nat>) returns (r: Option<Element<V>>)
      requires Valid() && (found.Some? ==> found.value < |visitor.elements|)
      modifies this, visitor, visitor.decompressedChunk
      ensures Valid() && r == currentElem
      ensures r == if found.Some? then Some(visitor.elements[found.value]) else None
      ensures position == offset == if found.Some? then found.value else |visitor.elements|
    {
      hide Sorted, Represents, Reads;
      if found.None? {
        visitor.Stores();
        currentElem := None;
        offset := visitor.list.Len();
        position := offset;
        return None;
      }
      r := visitor.GetByOffset(found.value);
      currentElem := r;
      offset := found.value;
      position := offset;
    }
  }

  /** All that lies between the beginning of the chunk and where the iterator stands is below the target. */
  ghost predicate AllBelow(ids: seq<Id>, lo: nat, hi: nat, id: Id) {
    forall k: nat :: lo <= k < hi && k < |ids| ==> ids[k] < id
  }

  lemma PassedAreBelow(ids: seq<Id>, offset: nat, position: nat, id: Id)
    requires Sorted(ids) && position <= offset <= position + 1 && offset < |ids|
    requires ids[position] < id || offset == position == 0
    ensures AllBelow(ids, 128 * (offset / 128), offset, id) && AllBelow(ids, position, 128 * (offset / 128), id)
    ensures offset > 0 ==> AllBelow(ids, position, position + 1, id)
  {
  }

  /**
   From where the iterator stands, every element that an advance may search for is the first one if and
   only if the chunk of the offset begins with an id that is large enough, or the target is not repeated.
   */
  lemma AdvanceFirstIff(ids: seq<Id>, offset: nat, position: nat, id: Id)
    requires Sorted(ids) && position <= offset <= position + 1 && offset < |ids|
    requires ids[position] < id || offset == position == 0
    ensures (forall r: Option<nat> :: MayAnswer(ids, offset / 128, id, r) ==> IsFirst(ids, position, id, r))
            <==> id <= ids[128 * (offset / 128)] || Once(ids, position, id)
  {
    var start := offset / 128;
    var from := 128 * start;
    PassedAreBelow(ids, offset, position, id);
    FirstIffNotRepeated(ids, start, id);
    hide MayAnswer, Sorted;
    assert Once(ids, from, id) <==> Once(ids, position, id) by {
      SameOnce(ids, from, position, id);
    }
    forall r: Option<nat> ensures IsFirst(ids, from, id, r) <==> IsFirst(ids, position, id, r) {
      SameFirst(ids, from, position, id, r);
    }
  }

  lemma SameOnce(ids: seq<Id>, from: nat, position: nat, id: Id)
    requires AllBelow(ids, from, position, id) && AllBelow(ids, position, from, id)
    ensures Once(ids, from, id) <==> Once(ids, position, id)
  {
  }

  lemma SameFirst(ids: seq<Id>, from: nat, position: nat, id: Id, r: Option<nat>)
    requires AllBelow(ids, from, position, id) && AllBelow(ids, position, from, id)
    ensures IsFirst(ids, from, id, r) <==> IsFirst(ids, position, id, r)
  {
  }

  lemma NoneAfterEnd(ids: seq<Id>, position: nat, id: Id)
    requires position >= |ids| || (position == |ids| - 1 && ids[position] < id)
    ensures FirstAtLeast(ids, position, id, None)
  {
  }

  /** Searching from the beginning of the chunk finds the same as from where the iterator stands. */
  lemma NotBefore(ids: seq<Id>, from: nat, offset: nat, position: nat, id: Id, r: Option<nat>)
    requires FirstAtLeast(ids, from, id, r)
    requires from <= offset && position <= offset
    requires AllBelow(ids, from, offset, id) && AllBelow(ids, position, from, id)
    ensures FirstAtLeast(ids, position, id, r)
    ensures r.Some? ==> offset <= r.value < |ids|
  {
  }
}
