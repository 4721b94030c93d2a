/**
 The pointer tracker: for every point offset the persisted pointer, and the updates that
 have not been flushed yet.

 `PointerUpdates` is a value (it is cloned into a flusher and compared), so it is a datatype
 whose operations return the new value. `Slot` is what the tracker knows about one point, and
 `TrackerView` is the whole tracker as a value. The class `Tracker` is the object the source
 updates in place; each of its methods is proved against a function on `TrackerView`.
 */
module PointerTracker {
  import opened Wrappers

  type PointOffset = nat

  datatype ValuePointer = ValuePointer(page: nat, block: nat, length: nat)

  /** The elements of `s` that are not in `gone`, in order. */
  function Without(s: seq<ValuePointer>, gone: seq<ValuePointer>): (r: seq<ValuePointer>)
    ensures forall p :: p in r <==> p in s && p !in gone
  {
    if s == [] then []
    else if s[0] in gone then Without(s[1..], gone)
    else [s[0]] + Without(s[1..], gone)
  }

  datatype PointerUpdates = PointerUpdates(current: Option<ValuePointer>, toFree: seq<ValuePointer>) {

    predicate IsEmpty() {
      current.None? && toFree == []
    }

    /** Every pointer mentioned by these updates. */
    predicate Mentions(p: ValuePointer) {
      current == Some(p) || p in toFree
    }

    function Set(p: ValuePointer): PointerUpdates {
      if current == Some(p) then this
      else PointerUpdates(Some(p), if current.Some? then toFree + [current.value] else toFree)
    }

    function Unset(p: ValuePointer): PointerUpdates {
      var stray := if current.Some? && current.value != p then [current.value] else [];
      PointerUpdates(None, toFree + stray + [p])
    }

    function Drain(persisted: PointerUpdates): PointerUpdates {
      if this == persisted then NO_UPDATES
      else
        var kept := if current.Some? && current == persisted.current then None else current;
        PointerUpdates(kept, Without(toFree, persisted.toFree))
    }
  }

  const NO_UPDATES := PointerUpdates(None, [])

  // ---------------------------------------------------------------------------------------
  // One point
  // ---------------------------------------------------------------------------------------

  /** What the tracker holds for one point: the persisted pointer and the pending updates. */
  datatype Slot = Slot(raw: Option<ValuePointer>, pending: Option<PointerUpdates>) {

    function Get(): Option<ValuePointer> {
      if pending.Some? && !pending.value.IsEmpty() then pending.value.current else raw
    }

    function Entry(): PointerUpdates {
      if pending.Some? then pending.value else NO_UPDATES
    }

    function Set(p: ValuePointer): Slot {
      this.(pending := Some(Entry().Set(p)))
    }

    function Unset(): Slot {
      if Get().None? then this else this.(pending := Some(Entry().Unset(Get().value)))
    }

    /** One iteration of `write_pending`, for the updates `snap` captured earlier. */
    function Write(snap: PointerUpdates): Slot {
      var left := if pending.Some? then Some(pending.value.Drain(snap)) else None;
      Slot(snap.current, if left.Some? && left.value.IsEmpty() then None else left)
    }

    /** The pointers that one iteration of `write_pending` hands back for freeing. */
    function Released(snap: PointerUpdates): seq<ValuePointer> {
      (if snap.current.Some? && raw.Some? then [raw.value] else []) + snap.toFree
    }

    predicate Mentions(p: ValuePointer) {
      raw == Some(p) || (pending.Some? && pending.value.Mentions(p))
    }

    /** The invariant of a slot; it includes every debug assertion of `PointerUpdates`. */
    predicate Good() {
      pending.Some? ==>
        && !pending.value.IsEmpty()
        && Distinct(pending.value.toFree)
        && (pending.value.current.Some? ==>
              pending.value.current.value !in pending.value.toFree && pending.value.current != raw)
    }

    /** This slot is what a slot holding `snap` has become after some sets and unsets. */
    ghost predicate Follows(snap: PointerUpdates) {
      && pending.Some?
      && !snap.IsEmpty()
      && snap.toFree <= pending.value.toFree
      && var since := pending.value.toFree[|snap.toFree|..];
      && (snap.current.Some? ==>
            if since == [] then pending.value.current == snap.current else since[0] == snap.current.value)
      && (forall p :: p in since ==> p !in snap.toFree && raw != Some(p))
    }
  }

  lemma SetKeepsSlot(s: Slot, p: ValuePointer)
    requires s.Good() && !s.Mentions(p)
    ensures s.Set(p).Good() && s.Set(p).Get() == Some(p)
    ensures forall x :: s.Set(p).Mentions(x) <==> s.Mentions(x) || x == p
    ensures forall snap :: s.Follows(snap) ==> s.Set(p).Follows(snap)
  {
    var a, b := s.Entry().toFree, s.Set(p).Entry().toFree;
    forall snap | s.Follows(snap) ensures s.Set(p).Follows(snap) {
      var n := |snap.toFree|;
      assert b[n..] == a[n..] + b[|a|..];
    }
  }

  lemma UnsetKeepsSlot(s: Slot)
    requires s.Good()
    ensures s.Unset().Good() && s.Unset().Get().None?
    ensures forall x :: s.Unset().Mentions(x) <==> s.Mentions(x)
    ensures s.Get().Some? ==>
              s.Unset().pending.Some? && s.Get().value in s.Unset().pending.value.toFree
    ensures forall snap :: s.Follows(snap) ==> s.Unset().Follows(snap)
    ensures forall snap :: s.Follows(snap) && s.Get().Some? ==> s.Get().value !in snap.toFree
  {
    if s.Get().Some? {
      var a, b := s.Entry().toFree, s.Unset().Entry().toFree;
      assert b == a + [s.Get().value];
      forall snap | s.Follows(snap) ensures s.Unset().Follows(snap) {
        var n := |snap.toFree|;
        assert b[n..] == a[n..] + [s.Get().value];
      }
    }
  }

  lemma WithoutKeepsDistinct(s: seq<ValuePointer>, gone: seq<ValuePointer>)
    requires Distinct(s)
    ensures Distinct(Without(s, gone))
  {
    if s != [] {
      WithoutKeepsDistinct(s[1..], gone);
      assert s[0] !in s[1..];
    }
  }

  /** Draining an earlier snapshot removes everything or leaves exactly what came after it. */
  lemma DrainLeavesTheRest(s: Slot, snap: PointerUpdates)
    requires s.Good() && s.Follows(snap)
    ensures var latest, left := s.pending.value, s.pending.value.Drain(snap);
            if latest == snap then left == NO_UPDATES
            else
              && left.current == latest.current && !left.IsEmpty() && Distinct(left.toFree)
              && forall p :: p in left.toFree <==> p in latest.toFree[|snap.toFree|..]
  {
    var latest := s.pending.value;
    var since := latest.toFree[|snap.toFree|..];
    assert latest.toFree == snap.toFree + since;
    if latest != snap {
      WithoutKeepsDistinct(latest.toFree, snap.toFree);
      assert forall p :: p in since ==> p in latest.toFree && p in Without(latest.toFree, snap.toFree);
      if since == [] {
        assert latest.toFree == snap.toFree;
      } else {
        assert since[0] in since;
      }
    }
  }

  /** Writing an earlier snapshot persists exactly it and changes nothing a reader can see. */
  lemma WriteKeepsSlot(s: Slot, snap: PointerUpdates)
    requires s.Good() && s.Follows(snap)
    ensures s.Write(snap).Good()
    ensures s.Write(snap).Get() == s.Get()
    ensures s.Write(snap).raw == snap.current
  {
    var latest := s.pending.value;
    var since := latest.toFree[|snap.toFree|..];
    assert latest.toFree == snap.toFree + since;
    DrainLeavesTheRest(s, snap);
    if latest != snap && snap.current.Some? {
      assert since != [] && since[0] in since;
    }
  }

  /**
   Where the pointers of a slot go when a snapshot is written: each is either still mentioned, or
   handed back for freeing, or, when a persisted pointer is replaced by nothing without having been
   unset, forgotten.
   */
  lemma WriteSplitsPointers(s: Slot, snap: PointerUpdates, p: ValuePointer)
    requires s.Good() && s.Follows(snap)
    ensures s.Write(snap).Mentions(p) ==> s.Mentions(p) && p !in s.Released(snap)
    ensures p in s.Released(snap) ==> s.Mentions(p)
    ensures (s.Mentions(p) && !s.Write(snap).Mentions(p) && p !in s.Released(snap))
              <==> (s.raw == Some(p) && snap.current.None? && p !in snap.toFree)
  {
    var latest := s.pending.value;
    var since := latest.toFree[|snap.toFree|..];
    assert latest.toFree == snap.toFree + since;
    assert p in latest.toFree <==> p in snap.toFree || p in since;
    DrainLeavesTheRest(s, snap);
    assert p in s.Released(snap) <==> (snap.current.Some? && s.raw == Some(p)) || p in snap.toFree;
    if latest == snap {
      assert s.Write(snap).Mentions(p) <==> snap.current == Some(p);
    } else {
      assert s.Write(snap).Mentions(p) <==>
             snap.current == Some(p) || latest.current == Some(p) || p in since;
      if snap.current.Some? {
        assert since != [];
        assert since[0] in since;
      }
    }
  }

  // ---------------------------------------------------------------------------------------
  // The whole tracker as a value
  // ---------------------------------------------------------------------------------------

  datatype TrackerView = TrackerView(raw: map<PointOffset, ValuePointer>, pending: map<PointOffset, PointerUpdates>) {

    function At(q: PointOffset): Slot {
      Slot(Lookup(raw, q), Lookup(pending, q))
    }

    function Get(q: PointOffset): Option<ValuePointer> {
      At(q).Get()
    }

    function Set(q: PointOffset, p: ValuePointer): TrackerView {
      this.(pending := pending[q := At(q).Entry().Set(p)])
    }

    function Unset(q: PointOffset): TrackerView {
      if Get(q).None? then this else this.(pending := pending[q := At(q).Entry().Unset(Get(q).value)])
    }

    /** All iterations of `write_pending`, in any order. */
    function Write(snap: map<PointOffset, PointerUpdates>): TrackerView {
      TrackerView(
        map q | q in raw.Keys + snap.Keys && (q in snap ==> snap[q].current.Some?)
          :: if q in snap then snap[q].current.value else raw[q],
        map q | q in pending && (q in snap ==> !pending[q].Drain(snap[q]).IsEmpty())
          :: if q in snap then pending[q].Drain(snap[q]) else pending[q])
    }

    /** `p` is handed back for freeing when `snap` is written. */
    ghost predicate Releases(snap: map<PointOffset, PointerUpdates>, p: ValuePointer) {
      exists q :: q in snap && p in At(q).Released(snap[q])
    }

    ghost predicate Good() {
      forall q: PointOffset :: At(q).Good()
    }
  }

  lemma SameEverywhere(v: TrackerView, w: TrackerView)
    requires forall q: PointOffset :: v.At(q) == w.At(q)
    ensures v == w
  {
    forall q: PointOffset
      ensures Lookup(v.raw, q) == Lookup(w.raw, q) && Lookup(v.pending, q) == Lookup(w.pending, q)
    {
      assert v.At(q) == w.At(q);
    }
    SameLookups(v.raw, w.raw);
    SameLookups(v.pending, w.pending);
  }

  lemma SetAt(v: TrackerView, q: PointOffset, p: ValuePointer)
    ensures v.Set(q, p).At(q) == v.At(q).Set(p)
    ensures forall x: PointOffset :: x != q ==> v.Set(q, p).At(x) == v.At(x)
  {
  }

  lemma SetIsRead(v: TrackerView, q: PointOffset, p: ValuePointer)
    ensures v.Set(q, p).Get(q) == Some(p)
  {
  }

  lemma UnsetAt(v: TrackerView, q: PointOffset)
    ensures v.Unset(q).At(q) == v.At(q).Unset()
    ensures forall x: PointOffset :: x != q ==> v.Unset(q).At(x) == v.At(x)
  {
  }

  lemma WriteAt(v: TrackerView, snap: map<PointOffset, PointerUpdates>, q: PointOffset)
    ensures v.Write(snap).At(q) == if q in snap then v.At(q).Write(snap[q]) else v.At(q)
  {
  }

  // ---------------------------------------------------------------------------------------
  // Histories
  // ---------------------------------------------------------------------------------------

  datatype TrackerOp = SetPoint(point: PointOffset, pointer: ValuePointer) | UnsetPoint(point: PointOffset)

  function Apply(v: TrackerView, op: TrackerOp): TrackerView {
    match op
    case SetPoint(q, p) => v.Set(q, p)
    case UnsetPoint(q) => v.Unset(q)
  }

  function ApplyAll(v: TrackerView, ops: seq<TrackerOp>): TrackerView
    decreases |ops|
  {
    if ops == [] then v else ApplyAll(Apply(v, ops[0]), ops[1..])
  }

  /** No set reuses a pointer that its point still mentions: the allocator only hands out free blocks. */
  ghost predicate FreshSets(v: TrackerView, ops: seq<TrackerOp>)
    decreases |ops|
  {
    ops == [] ||
    ((ops[0].SetPoint? ==> !v.At(ops[0].point).Mentions(ops[0].pointer)) && FreshSets(Apply(v, ops[0]), ops[1..]))
  }

  ghost predicate FollowsAll(v: TrackerView, snap: map<PointOffset, PointerUpdates>) {
    forall q: PointOffset :: q in snap ==> v.At(q).Follows(snap[q])
  }

  lemma ApplyKeeps(v: TrackerView, op: TrackerOp, snap: map<PointOffset, PointerUpdates>)
    requires v.Good() && FollowsAll(v, snap) && FreshSets(v, [op])
    ensures Apply(v, op).Good() && FollowsAll(Apply(v, op), snap) && Apply(v, op).raw == v.raw
  {
    var q := op.point;
    match op {
      case SetPoint(_, p) => SetAt(v, q, p); SetKeepsSlot(v.At(q), p);
      case UnsetPoint(_) => UnsetAt(v, q); UnsetKeepsSlot(v.At(q));
    }
    var w := Apply(v, op);
    forall x: PointOffset ensures w.At(x).Good() && (x in snap ==> w.At(x).Follows(snap[x])) {
      assert v.At(x).Good();
      if x != q { assert w.At(x) == v.At(x); }
    }
  }

  lemma {:induction false} HistoryKeeps(v: TrackerView, ops: seq<TrackerOp>, snap: map<PointOffset, PointerUpdates>)
    requires v.Good() && FollowsAll(v, snap) && FreshSets(v, ops)
    ensures ApplyAll(v, ops).Good() && FollowsAll(ApplyAll(v, ops), snap) && ApplyAll(v, ops).raw == v.raw
    decreases |ops|
  {
    if ops != [] {
      assert FreshSets(Apply(v, ops[0]), ops[1..]);
      assert FreshSets(Apply(v, ops[0]), []);
      ApplyKeeps(v, ops[0], snap);
      HistoryKeeps(Apply(v, ops[0]), ops[1..], snap);
    }
  }

  lemma SnapshotFollowsItself(v: TrackerView)
    requires v.Good()
    ensures FollowsAll(v, v.pending)
  {
    forall q | q in v.pending ensures v.At(q).Follows(v.pending[q]) {
      assert v.At(q).Good();
    }
  }

  /**
   A flush is invisible and exact: take a snapshot of the pending updates, let any sets and unsets
   happen, then write the snapshot. Every point reads as before the write, no empty pending entry is
   left, and what is now persisted is the mapping as it was read when the snapshot was taken.
   */
  lemma FlushIsInvisibleAndExact(v: TrackerView, ops: seq<TrackerOp>)
    requires v.Good() && FreshSets(v, ops)
    ensures var before := ApplyAll(v, ops); var after := before.Write(v.pending);
            && after.Good()
            && (forall q: PointOffset :: after.Get(q) == before.Get(q))
            && (forall q: PointOffset :: Lookup(after.raw, q) == v.Get(q))
            && (forall q: PointOffset :: q in after.pending ==> !after.pending[q].IsEmpty())
  {
    SnapshotFollowsItself(v);
    HistoryKeeps(v, ops, v.pending);
    var before := ApplyAll(v, ops);
    var after := before.Write(v.pending);
    WriteIsInvisible(before, v.pending);
    forall q: PointOffset ensures Lookup(after.raw, q) == v.Get(q) {
      assert v.At(q).Good();
      assert v.At(q).raw == Lookup(v.raw, q);
    }
    forall q | q in after.pending ensures !after.pending[q].IsEmpty() {
      assert after.At(q).Good();
    }
  }

  // ---------------------------------------------------------------------------------------
  // The tracker object
  // ---------------------------------------------------------------------------------------

  const HEADER_BYTES := 4
  const ENTRY_BYTES := 16

  /** The number of whole entries in a tracker file of `len` bytes. */
  function EntriesIn(len: nat): nat
    requires len > HEADER_BYTES
  {
    (len - HEADER_BYTES) / ENTRY_BYTES
  }

  function NextPowerOfTwo(n: nat): (r: nat)
    ensures r >= n && r >= 1
    decreases n
  {
    if n <= 1 then 1 else 2 * NextPowerOfTwo((n + 1) / 2)
  }

  /** It is a power of two, and its half is not enough. */
  lemma {:induction false} NextPowerIsLeast(n: nat)
    ensures PowerOfTwo(NextPowerOfTwo(n)) && (n > 1 ==> NextPowerOfTwo(n) < 2 * n)
    decreases n
  {
    if n > 1 {
      NextPowerIsLeast((n + 1) / 2);
    }
  }

  function RawOf(file: seq<Option<ValuePointer>>): map<PointOffset, ValuePointer> {
    map q: nat | q < |file| && file[q].Some? :: file[q].value
  }

  /** Only the updates of the points in `done`. */
  function Restrict(snap: map<PointOffset, PointerUpdates>, done: set<PointOffset>): map<PointOffset, PointerUpdates> {
    map q | q in snap && q in done :: snap[q]
  }

  class Tracker {
    /** The point count stored in the file header. */
    var header: nat
    /** The entries of the memory-mapped file, and the file's length in bytes. */
    var file: seq<Option<ValuePointer>>
    var fileLen: nat
    var pending: map<PointOffset, PointerUpdates>
    var nextPointerOffset: PointOffset

    ghost predicate Valid()
      reads this
    {
      && fileLen > HEADER_BYTES && |file| == EntriesIn(fileLen)
      && forall q: PointOffset :: View().Get(q).Some? ==> q < nextPointerOffset
    }

    ghost function View(): TrackerView
      reads this
    {
      TrackerView(RawOf(file), pending)
    }

    constructor (sizeHint: nat)
      requires NextPowerOfTwo(sizeHint) > HEADER_BYTES
      ensures Valid() && View() == TrackerView(map[], map[]) && nextPointerOffset == header == 0
      ensures fileLen == NextPowerOfTwo(sizeHint)
    {
      fileLen := NextPowerOfTwo(sizeHint);
      file := seq(EntriesIn(NextPowerOfTwo(sizeHint)), _ => None);
      pending, nextPointerOffset, header := map[], 0, 0;
    }

    function GetRaw(q: PointOffset): (r: Option<ValuePointer>)
      requires fileLen > HEADER_BYTES && |file| == EntriesIn(fileLen)
      reads this
      ensures r == Lookup(View().raw, q)
    {
      if HEADER_BYTES + q * ENTRY_BYTES + ENTRY_BYTES > fileLen then None else file[q]
    }

    function Get(q: PointOffset): (r: Option<ValuePointer>)
      requires Valid()
      reads this
      ensures r == View().Get(q)
    {
      if q in pending && !pending[q].IsEmpty() then pending[q].current else GetRaw(q)
    }

    /** Pending updates take precedence; the entries of the others are read together afterwards. */
    method GetBatch(offsets: seq<PointOffset>) returns (result: seq<Option<ValuePointer>>)
      requires Valid()
      ensures |result| == |offsets| && forall i :: 0 <= i < |offsets| ==> result[i] == View().Get(offsets[i])
    {
      result := seq(|offsets|, _ => None);
      var entries: seq<nat> := [];
      for i := 0 to |offsets|
        invariant |result| == |offsets| && forall j :: i <= j < |offsets| ==> result[j] == None
        invariant forall j :: 0 <= j < i && j !in entries ==> result[j] == View().Get(offsets[j])
        invariant forall j :: j in entries ==>
                    j < i && View().Get(offsets[j]) == GetRaw(offsets[j]) && offsets[j] < |file|
      {
        var q := offsets[i];
        if q in pending && !pending[q].IsEmpty() {
          result := result[i := pending[q].current];
          continue;
        }
        if HEADER_BYTES + q * ENTRY_BYTES + ENTRY_BYTES > fileLen {
          continue;
        }
        entries := entries + [i];
      }
      for t := 0 to |entries|
        invariant |result| == |offsets|
        invariant forall j :: 0 <= j < |offsets| && (j !in entries || j in entries[..t]) ==>
                    result[j] == View().Get(offsets[j])
      {
        var i := entries[t];
        assert i in entries && GetRaw(offsets[i]) == file[offsets[i]];
        result := result[i := file[offsets[i]]];
        assert entries[..t + 1] == entries[..t] + [i];
      }
      assert entries[..|entries|] == entries;
    }

    /**
     Writes one entry, growing the file when it is too short. An empty pointer past the end of the
     file is not written: it compares the point with the length in bytes, so it may still grow the
     file needlessly, and an entry that is not there already reads as empty.
     */
    method PersistPointer(q: PointOffset, p: Option<ValuePointer>)
      requires fileLen > HEADER_BYTES && |file| == EntriesIn(fileLen)
      modifies this`file, this`fileLen
      ensures fileLen > HEADER_BYTES && |file| == EntriesIn(fileLen)
      ensures View().raw == if p.Some? then old(View().raw)[q := p.value] else old(View().raw) - {q}
      ensures fileLen == if old(fileLen) >= 16 * q + 20 || (p.None? && q >= old(fileLen)) then old(fileLen)
                         else NextPowerOfTwo(16 * q + 20)
    {
      if p.None? && q >= fileLen {
        return;
      }
      var end := HEADER_BYTES + q * ENTRY_BYTES + ENTRY_BYTES;
      if fileLen < end {
        var newLen := NextPowerOfTwo(end);
        file := file + seq(EntriesIn(newLen) - |file|, _ => None);
        fileLen := newLen;
      }
      file := file[q := p];
    }

    method Set(q: PointOffset, p: ValuePointer)
      requires Valid()
      modifies this`pending, this`nextPointerOffset
      ensures Valid() && View() == old(View()).Set(q, p)
      ensures nextPointerOffset == if q < old(nextPointerOffset) then old(nextPointerOffset) else q + 1
    {
      ghost var before := View();
      var entry := if q in pending then pending[q] else NO_UPDATES;
      pending := pending[q := entry.Set(p)];
      nextPointerOffset := if q + 1 > nextPointerOffset then q + 1 else nextPointerOffset;
      assert View() == before.Set(q, p);
      SetAt(before, q, p);
      assert forall x: PointOffset :: x != q ==> View().At(x) == before.At(x) && View().Get(x) == before.Get(x);
    }

    method Unset(q: PointOffset) returns (r: Option<ValuePointer>)
      requires Valid()
      modifies this`pending
      ensures Valid() && View() == old(View()).Unset(q) && r == old(View()).Get(q)
    {
      ghost var before := View();
      r := Get(q);
      if r.Some? {
        var entry := if q in pending then pending[q] else NO_UPDATES;
        pending := pending[q := entry.Unset(r.value)];
        UnsetAt(before, q);
        assert View() == before.Unset(q);
        assert forall x: PointOffset :: x != q ==> View().At(x) == before.At(x) && View().Get(x) == before.Get(x);
      }
    }

    /** One round of `write_pending`: persists the updates of one point and drains them. */
    method WriteOne(q: PointOffset, updates: PointerUpdates) returns (released: seq<ValuePointer>)
      requires fileLen > HEADER_BYTES && |file| == EntriesIn(fileLen)
      modifies this`file, this`fileLen, this`pending
      ensures fileLen > HEADER_BYTES && |file| == EntriesIn(fileLen)
      ensures View() == old(View()).Write(map[q := updates])
      ensures released == old(View()).At(q).Released(updates)
    {
      ghost var before := View();
      released := [];
      match updates.current {
        case Some(newPointer) =>
          var raw := GetRaw(q);
          if raw.Some? {
            released := released + [raw.value];
          }
          PersistPointer(q, Some(newPointer));
        case None =>
          PersistPointer(q, None);
      }
      released := released + updates.toFree;
      assert Lookup(View().raw, q) == updates.current && pending == before.pending;
      assert forall x: PointOffset :: x != q ==> Lookup(View().raw, x) == Lookup(before.raw, x);
      if q in pending {
        var drained := pending[q].Drain(updates);
        pending := if drained.IsEmpty() then pending - {q} else pending[q := drained];
      }
      WriteOneIs(before, View(), q, updates);
    }

    /**
     Persists a snapshot of the pending updates, in the arbitrary order in which a hash map yields
     them, and removes from the pending updates what is now persisted.
     */
    method WritePending(snap: map<PointOffset, PointerUpdates>) returns (oldPointers: seq<ValuePointer>)
      requires Valid()
      requires View().Good() && FollowsAll(View(), snap)
      modifies this
      ensures Valid() && View() == old(View()).Write(snap) && View().Good()
      ensures forall q: PointOffset :: View().Get(q) == old(View()).Get(q)
      ensures forall p :: p in oldPointers <==> old(View()).Releases(snap, p)
      ensures header == nextPointerOffset == old(nextPointerOffset)
    {
      ghost var before := View();
      oldPointers := WriteAll(snap);
      header := nextPointerOffset;
      hide TrackerView.Write, TrackerView.Releases;
      WriteIsInvisible(before, snap);
    }

    method WriteAll(snap: map<PointOffset, PointerUpdates>) returns (oldPointers: seq<ValuePointer>)
      requires fileLen > HEADER_BYTES && |file| == EntriesIn(fileLen)
      modifies this`file, this`fileLen, this`pending
      ensures fileLen > HEADER_BYTES && |file| == EntriesIn(fileLen)
      ensures View() == old(View()).Write(snap)
      ensures forall p :: p in oldPointers <==> old(View()).Releases(snap, p)
    {
      ghost var before := View();
      oldPointers := [];
      var todo, done := snap.Keys, {};
      WriteNothing(before, snap);
      hide Restrict, TrackerView.Write, TrackerView.Releases, EntriesIn;
      while todo != {}
        invariant fileLen > HEADER_BYTES && |file| == EntriesIn(fileLen)
        invariant todo !! done && todo + done == snap.Keys
        invariant View() == before.Write(Restrict(snap, done))
        invariant forall p :: p in oldPointers <==> before.Releases(Restrict(snap, done), p)
      {
        var q :| q in todo;
        var released := WriteOne(q, snap[q]);
        oldPointers := oldPointers + released;
        WriteOneMore(before, snap, done, q);
        ReleasesOneMore(before, snap, done, q);
        todo, done := todo - {q}, done + {q};
      }
      RestrictAll(snap, done);
    }
  }

  lemma RestrictAll(snap: map<PointOffset, PointerUpdates>, done: set<PointOffset>)
    requires done == snap.Keys
    ensures Restrict(snap, done) == snap
  {
  }

  lemma WriteNothing(v: TrackerView, snap: map<PointOffset, PointerUpdates>)
    ensures v.Write(Restrict(snap, {})) == v && forall p :: !v.Releases(Restrict(snap, {}), p)
  {
    var none := Restrict(snap, {});
    forall q: PointOffset ensures v.Write(none).At(q) == v.At(q) {
      WriteAt(v, none, q);
    }
    SameEverywhere(v.Write(none), v);
  }

  /** A view that differs from another as writing one point does is what writing it gives. */
  lemma WriteOneIs(v: TrackerView, w: TrackerView, q: PointOffset, updates: PointerUpdates)
    requires w.At(q) == v.At(q).Write(updates)
    requires forall x: PointOffset :: x != q ==> w.At(x) == v.At(x)
    ensures w == v.Write(map[q := updates])
  {
    forall x: PointOffset ensures w.At(x) == v.Write(map[q := updates]).At(x) {
      WriteAt(v, map[q := updates], x);
    }
    SameEverywhere(w, v.Write(map[q := updates]));
  }

  lemma WriteOneMore(v: TrackerView, snap: map<PointOffset, PointerUpdates>, done: set<PointOffset>, q: PointOffset)
    requires q in snap && q !in done
    ensures var w := v.Write(Restrict(snap, done));
            && w.Write(map[q := snap[q]]) == v.Write(Restrict(snap, done + {q}))
            && w.At(q) == v.At(q)
  {
    var some, more, one := Restrict(snap, done), Restrict(snap, done + {q}), map[q := snap[q]];
    var w := v.Write(some);
    forall x: PointOffset ensures w.Write(one).At(x) == v.Write(more).At(x) {
      WriteAt(w, one, x);
      WriteAt(v, more, x);
      WriteAt(v, some, x);
    }
    SameEverywhere(w.Write(one), v.Write(more));
    WriteAt(v, some, q);
  }

  lemma ReleasesOneMore(v: TrackerView, snap: map<PointOffset, PointerUpdates>, done: set<PointOffset>, q: PointOffset)
    requires q in snap
    ensures forall p :: v.Releases(Restrict(snap, done + {q}), p) <==>
                        v.Releases(Restrict(snap, done), p) || p in v.At(q).Released(snap[q])
  {
    var one, more := Restrict(snap, done), Restrict(snap, done + {q});
    forall p ensures v.Releases(more, p) <==> v.Releases(one, p) || p in v.At(q).Released(snap[q]) {
      if p in v.At(q).Released(snap[q]) {
        assert q in more && p in v.At(q).Released(more[q]);
      }
      if v.Releases(one, p) {
        var x :| x in one && p in v.At(x).Released(one[x]);
        assert x in more && p in v.At(x).Released(more[x]);
      }
      if v.Releases(more, p) {
        var x :| x in more && p in v.At(x).Released(more[x]);
        assert x == q || x in one;
      }
    }
  }

  lemma WriteIsInvisible(v: TrackerView, snap: map<PointOffset, PointerUpdates>)
    requires v.Good() && FollowsAll(v, snap)
    ensures v.Write(snap).Good()
    ensures forall q: PointOffset :: v.Write(snap).Get(q) == v.Get(q)
    ensures forall q: PointOffset :: q in snap ==> Lookup(v.Write(snap).raw, q) == snap[q].current
    ensures forall q: PointOffset :: q !in snap ==> Lookup(v.Write(snap).raw, q) == Lookup(v.raw, q)
  {
    var w := v.Write(snap);
    forall q: PointOffset
      ensures w.At(q).Good() && w.Get(q) == v.Get(q)
      ensures w.At(q).raw == if q in snap then snap[q].current else v.At(q).raw
    {
      WriteAt(v, snap, q);
      assert v.At(q).Good();
      if q in snap {
        WriteKeepsSlot(v.At(q), snap[q]);
      }
    }
    forall q: PointOffset
      ensures q in snap ==> Lookup(w.raw, q) == snap[q].current
      ensures q !in snap ==> Lookup(w.raw, q) == Lookup(v.raw, q)
    {
      assert w.At(q).raw == Lookup(w.raw, q) && v.At(q).raw == Lookup(v.raw, q);
    }
  }
}
