/**
 The invariant of the store's state machine, kept by every step, and the refinement of the
 crash-tolerant map: each step of the store is a step of the map that shows the same event.
 */
module GridInvariant {
  import opened Wrappers
  import opened PointerTracker
  import opened Layout
  import opened CrashMap
  import opened GridMachine

  // ---------------------------------------------------------------------------------------
  // The invariant
  // ---------------------------------------------------------------------------------------

  predicate CoversByte(c: Config, p: ValuePointer, a: nat)
    requires c.blockBytes > 0
  {
    c.FirstByte(p) <= a < c.FirstByte(p) + p.length
  }

  /** The used blocks are exactly those of the owned pointers, which are pairwise apart, and the leaked ones. */
  ghost predicate BlocksOk(c: Config, bits: seq<bool>, ptrs: Pointers, leaked: set<nat>)
    requires c.blockBytes > 0
  {
    && (forall p :: p in ptrs ==> c.Fits(p, |bits|) && AllUsed(c, bits, p))
    && (forall p, r :: p in ptrs && r in ptrs && p != r ==> c.Apart(p, r))
    && (forall b: nat :: b < |bits| && bits[b] ==> b in leaked || exists p :: p in ptrs && c.Covers(p, b))
    && (forall b :: b in leaked ==> b < |bits| && bits[b])
    && (forall b, p :: b in leaked && p in ptrs ==> !c.Covers(p, b))
  }

  type Owners = map<ValuePointer, Owner>

  function ReleasedBy(f: Flusher): Pointers {
    if f.Flusher? && (f.phase.FlushingTracker? || f.phase.TrackerFlushed?) then f.phase.released else {}
  }

  predicate OwnerOk(v: TrackerView, p: ValuePointer, o: Owner, op: Operation, released: Pointers) {
    match o
    case Tracked(q) => v.At(q).Mentions(p)
    case Releasing(_) => p in released
    case Lost(_) => true
    case Writing(q) => op.Marked? && op.pointer == p && op.point == q
  }

  /** Every pointer held anywhere has one owner, and every owner holds its pointer. */
  ghost predicate OwnersOk(v: TrackerView, owner: Owners, op: Operation, released: Pointers) {
    && (forall q: PointOffset, p :: v.At(q).Mentions(p) ==> p in owner && owner[p] == Tracked(q))
    && (forall p :: p in owner ==> OwnerOk(v, p, owner[p], op, released))
    && (forall p :: p in released ==> p in owner && owner[p].Releasing?)
    && (op.Marked? ==> op.pointer in owner && owner[op.pointer] == Writing(op.point))
  }

  ghost predicate TrackerOk(v: TrackerView, f: Flusher) {
    && v.Good()
    && (BeforeWrite(f) ==> FollowsAll(v, f.snap))
  }

  datatype Files = Files(bytes: seq<Byte>, diskBits: seq<bool>, diskBytes: seq<Byte>)

  function FilesOf(s: Store): Files {
    Files(s.bytes, s.diskBits, s.diskBytes)
  }

  ghost predicate SameBytes(c: Config, bytes: seq<Byte>, diskBytes: seq<Byte>, p: ValuePointer)
    requires c.blockBytes > 0
  {
    forall a: nat :: CoversByte(c, p, a) && a < |bytes| && a < |diskBytes| ==> diskBytes[a] == bytes[a]
  }

  ghost predicate Durable(c: Config, f: Files, p: ValuePointer)
    requires c.blockBytes > 0
  {
    AllUsed(c, f.diskBits, p) && SameBytes(c, f.bytes, f.diskBytes, p)
  }

  predicate OwnedFor(owner: Owners, q: PointOffset, p: ValuePointer) {
    p in owner && owner[p].point == q
  }

  ghost predicate DurableMap(c: Config, files: Files, owner: Owners, m: PointerMap)
    requires c.blockBytes > 0
  {
    forall q :: q in m ==> OwnedFor(owner, q, m[q]) && Durable(c, files, m[q])
  }

  /** Until the flush of the tracker ends, each entry on disk is the new or the previous one. */
  ghost predicate EntriesOk(raw: PointerMap, diskRaw: PointerMap, f: Flusher) {
    forall q: PointOffset ::
      Lookup(diskRaw, q) == Lookup(raw, q) ||
      (SavingTracker(f) && q !in f.phase.synced && Lookup(diskRaw, q) == Lookup(f.phase.before, q))
  }

  ghost predicate DiskOk(c: Config, files: Files, raw: PointerMap, owner: Owners, f: Flusher)
    requires c.blockBytes > 0
  {
    DurableMap(c, files, owner, raw) && DurableMap(c, files, owner, SavedPointers(raw, f))
  }

  /** How far the outstanding flusher has brought a pointer that it is about to write. */
  ghost predicate Flushed(c: Config, files: Files, phase: Phase, p: ValuePointer)
    requires c.blockBytes > 0
  {
    match phase
    case FlushingBits(synced) =>
      forall b: nat :: c.Covers(p, b) && b < |files.diskBits| && b in synced ==> files.diskBits[b]
    case BitsFlushed => AllUsed(c, files.diskBits, p)
    case FlushingPages(synced) =>
      && AllUsed(c, files.diskBits, p)
      && (forall a: nat :: CoversByte(c, p, a) && a < |files.bytes| && a < |files.diskBytes| && a in synced ==>
                             files.diskBytes[a] == files.bytes[a])
    case PagesFlushed => Durable(c, files, p)
    case _ => true
  }

  ghost predicate PhaseOk(c: Config, files: Files, f: Flusher, inflight: PointerMap)
    requires c.blockBytes > 0
  {
    BeforeWrite(f) ==> forall q :: q in inflight ==> Flushed(c, files, f.phase, inflight[q])
  }

  /** What is known of the put or delete in progress. */
  ghost predicate OpOk(c: Config, bits: seq<bool>, bytes: seq<Byte>, v: TrackerView, f: Flusher, op: Operation)
    requires c.blockBytes > 0
  {
    match op
    case Idle => true
    case Allocated(q, w, p) => c.Fits(p, |bits|) && p.length == |w| && AllFree(c, bits, p)
    case Written(q, w, p) => c.Fits(p, |bits|) && p.length == |w| && AllFree(c, bits, p) && Read(c, bytes, p) == w
    case Marked(q, w, p) => Read(c, bytes, p) == w
    case Deleting(q, p) =>
      && v.At(q).pending.Some? && p in v.At(q).pending.value.toFree
      && (BeforeWrite(f) && q in f.snap ==> p !in f.snap[q].toFree)
  }

  ghost predicate Inv(c: Config, s: Store) {
    && c.Valid() && Sized(c, s)
    && BlocksOk(c, s.bits, s.owner.Keys, s.leaked)
    && OwnersOk(s.tracker, s.owner, s.op, ReleasedBy(s.flusher))
    && TrackerOk(s.tracker, s.flusher)
    && EntriesOk(s.tracker.raw, s.diskRaw, s.flusher)
    && DiskOk(c, FilesOf(s), s.tracker.raw, s.owner, s.flusher)
    && PhaseOk(c, FilesOf(s), s.flusher, InflightPointers(s.tracker, s.flusher))
    && OpOk(c, s.bits, s.bytes, s.tracker, s.flusher, s.op)
  }

  /** What each step must establish. */
  ghost predicate Good(c: Config, s: Store, a: Action)
    requires Inv(c, s) && Enabled(c, s, a)
  {
    Inv(c, Next(c, s, a)) && SpecStep(Abs(c, s), Observe(c, s, a), Abs(c, Next(c, s, a)))
  }

  // ---------------------------------------------------------------------------------------
  // Reading
  // ---------------------------------------------------------------------------------------

  lemma SameRead(c: Config, a: seq<Byte>, b: seq<Byte>, p: ValuePointer)
    requires c.blockBytes > 0 && c.FirstByte(p) + p.length <= |a| <= |b|
    requires SameBytes(c, a, b, p)
    ensures Read(c, a, p) == Read(c, b, p)
  {
    var first := c.FirstByte(p);
    forall x: nat | first <= x < first + p.length ensures a[x] == b[x] {
      assert CoversByte(c, p, x);
    }
    assert a[first..first + p.length] == b[first..first + p.length];
  }

  lemma SameImage(c: Config, blocks: nat, a: seq<Byte>, b: seq<Byte>, m: PointerMap)
    requires c.blockBytes > 0 && |a| == blocks * c.blockBytes <= |b|
    requires forall q :: q in m ==> c.Fits(m[q], blocks) && SameBytes(c, a, b, m[q])
    ensures Image(c, a, m) == Image(c, b, m)
  {
    forall q | q in m ensures Read(c, a, m[q]) == Read(c, b, m[q]) {
      BytesInBlocks(c, m[q], blocks);
      SameRead(c, a, b, m[q]);
    }
  }

  predicate Within(m: PointerMap, ptrs: Pointers) {
    forall q :: q in m ==> m[q] in ptrs
  }

  lemma LiveIsOwned(v: TrackerView, owner: Owners, op: Operation, released: Pointers)
    requires OwnersOk(v, owner, op, released)
    ensures Within(LivePointers(v), owner.Keys)
  {
    forall q | q in LivePointers(v) ensures LivePointers(v)[q] in owner {
      assert v.At(q).Mentions(LivePointers(v)[q]);
    }
  }

  /** What the outstanding flusher will write is still tracked for the same point. */
  lemma InflightIsTracked(v: TrackerView, f: Flusher, q: PointOffset)
    requires TrackerOk(v, f) && q in InflightPointers(v, f)
    ensures v.At(q).Mentions(InflightPointers(v, f)[q])
  {
    if BeforeWrite(f) && q in f.snap {
      var snap, latest := f.snap[q], v.At(q).pending.value;
      assert v.At(q).Follows(snap);
      if latest.toFree[|snap.toFree|..] != [] {
        assert latest.toFree[|snap.toFree|] == InflightPointers(v, f)[q];
      }
    }
  }

  lemma InflightIsOwned(v: TrackerView, owner: Owners, op: Operation, f: Flusher)
    requires OwnersOk(v, owner, op, ReleasedBy(f)) && TrackerOk(v, f)
    ensures Within(InflightPointers(v, f), owner.Keys)
  {
    forall q | q in InflightPointers(v, f) ensures InflightPointers(v, f)[q] in owner {
      InflightIsTracked(v, f, q);
    }
  }

  lemma SavedIsOwned(c: Config, files: Files, raw: PointerMap, owner: Owners, f: Flusher)
    requires c.blockBytes > 0 && DiskOk(c, files, raw, owner, f)
    ensures Within(raw, owner.Keys) && Within(SavedPointers(raw, f), owner.Keys)
  {
  }

  lemma AllIsOwned(c: Config, s: Store)
    requires Inv(c, s)
    ensures Within(LivePointers(s.tracker), s.owner.Keys)
    ensures Within(SavedPointers(s.tracker.raw, s.flusher), s.owner.Keys)
    ensures Within(InflightPointers(s.tracker, s.flusher), s.owner.Keys)
    ensures Within(s.tracker.raw, s.owner.Keys) && Within(s.diskRaw, s.owner.Keys)
  {
    LiveIsOwned(s.tracker, s.owner, s.op, ReleasedBy(s.flusher));
    SavedIsOwned(c, FilesOf(s), s.tracker.raw, s.owner, s.flusher);
    InflightIsOwned(s.tracker, s.owner, s.op, s.flusher);
    hide BlocksOk, OwnersOk, TrackerOk, DiskOk, PhaseOk, OpOk, InflightPointers, LivePointers;
    forall q | q in s.diskRaw ensures s.diskRaw[q] in s.owner {
      assert Lookup(s.diskRaw, q) == Some(s.diskRaw[q]);
    }
  }

  /** Bytes that agree on all owned pointers give the same images. */
  lemma SameImages(c: Config, s: Store, bytes: seq<Byte>)
    requires Inv(c, s) && |s.bytes| <= |bytes|
    requires forall p :: p in s.owner ==> SameBytes(c, s.bytes, bytes, p)
    ensures Image(c, bytes, LivePointers(s.tracker)) == Image(c, s.bytes, LivePointers(s.tracker))
    ensures var m := SavedPointers(s.tracker.raw, s.flusher); Image(c, bytes, m) == Image(c, s.bytes, m)
    ensures var m := InflightPointers(s.tracker, s.flusher); Image(c, bytes, m) == Image(c, s.bytes, m)
  {
    AllIsOwned(c, s);
    assert forall p :: p in s.owner.Keys ==> c.Fits(p, |s.bits|);
    hide BlocksOk, OwnersOk, TrackerOk, EntriesOk, DiskOk, PhaseOk, OpOk, Image, LivePointers, SavedPointers,
      InflightPointers, SameBytes;
    SameImage(c, |s.bits|, s.bytes, bytes, LivePointers(s.tracker));
    SameImage(c, |s.bits|, s.bytes, bytes, SavedPointers(s.tracker.raw, s.flusher));
    SameImage(c, |s.bits|, s.bytes, bytes, InflightPointers(s.tracker, s.flusher));
  }

  /** A pointer into free blocks is apart from every owned one. */
  lemma FreeIsApart(c: Config, bits: seq<bool>, ptrs: Pointers, leaked: set<nat>, p: ValuePointer, r: ValuePointer)
    requires c.blockBytes > 0 && BlocksOk(c, bits, ptrs, leaked)
    requires p in ptrs && c.Fits(r, |bits|) && AllFree(c, bits, r)
    ensures p != r && c.Apart(p, r)
  {
    BytesInBlocks(c, p, |bits|);
    BytesInBlocks(c, r, |bits|);
    var b := if c.FirstBlock(p) <= c.FirstBlock(r) then c.FirstBlock(r) else c.FirstBlock(p);
    assert !(c.Covers(p, b) && c.Covers(r, b));
  }
}
