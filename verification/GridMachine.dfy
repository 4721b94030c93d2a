/**
 The store as a state machine.

 Its state holds, for the bitmask, the pages and the tracker file, both what memory shows and what
 is on disk. `put_value` and `delete_value` are cut into the steps between which a flusher thread may
 run; a flusher is cut into its phases; the kernel may write back any part of any file at any time;
 and the process may crash at any time, after which the store runs on with what is on disk.

 Flushing a file is modelled by what `msync` promises: between the start and the end of the flush
 every address is written back at least once, unless it was clean. Which addresses have been is
 recorded in the phase (`synced`), and the end of the flush waits for all of them.

 `owner` and `leaked` are bookkeeping for the proof: no step depends on them.
 */
module GridMachine {
  import opened Wrappers
  import opened PointerTracker
  import opened Layout
  import opened CrashMap

  type Pointers = set<ValuePointer>
  type PointerMap = map<PointOffset, ValuePointer>

  /** Who is responsible for a pointer, and for which point it was put. */
  datatype Owner =
    | Tracked(point: PointOffset)   // persisted or pending for the point
    | Releasing(point: PointOffset) // in the list that the flusher will free
    | Lost(point: PointOffset)      // replaced by nothing without ever being listed
    | Writing(point: PointOffset)   // blocks marked, pointer not yet set

  datatype Operation =
    | Idle
    | Allocated(point: PointOffset, value: Value, pointer: ValuePointer)
    | Written(point: PointOffset, value: Value, pointer: ValuePointer)
    | Marked(point: PointOffset, value: Value, pointer: ValuePointer)
    | Deleting(point: PointOffset, pointer: ValuePointer)

  datatype Phase =
    | Created
    | FlushingBits(synced: set<nat>)
    | BitsFlushed
    | FlushingPages(synced: set<nat>)
    | PagesFlushed
    | FlushingTracker(synced: set<nat>, released: Pointers, before: PointerMap)
    | TrackerFlushed(released: Pointers)
    | FlushingFreed

  datatype Flusher = NoFlusher | Flusher(snap: map<PointOffset, PointerUpdates>, phase: Phase)

  datatype Store = Store(
    bits: seq<bool>, diskBits: seq<bool>,
    bytes: seq<Byte>, diskBytes: seq<Byte>,
    tracker: TrackerView, diskRaw: PointerMap,
    op: Operation, flusher: Flusher,
    owner: map<ValuePointer, Owner>, leaked: set<nat>)

  datatype Action =
    | Grow
    | Allocate(point: PointOffset, value: Value, pointer: ValuePointer)
    | WriteValue
    | MarkUsed
    | SetPointer
    | BeginDelete(point: PointOffset)
    | EndDelete
    | CreateFlusher
    | DropFlusher
    | BeginFlushBits
    | EndFlushBits
    | BeginFlushPages
    | EndFlushPages
    | WritePending
    | EndFlushTracker
    | FreeBlocks
    | EndFlushFreed
    | WriteBackBits(addresses: set<nat>)
    | WriteBackBytes(addresses: set<nat>)
    | WriteBackTracker(addresses: set<nat>)
    | Crash

  // ---------------------------------------------------------------------------------------
  // Reading and writing
  // ---------------------------------------------------------------------------------------

  function Mark(c: Config, bits: seq<bool>, p: ValuePointer): (r: seq<bool>)
    requires c.blockBytes > 0
    ensures |r| == |bits|
  {
    seq(|bits|, b requires 0 <= b < |bits| => bits[b] || c.Covers(p, b))
  }

  ghost function Unmark(c: Config, bits: seq<bool>, released: Pointers): (r: seq<bool>)
    requires c.blockBytes > 0
    ensures |r| == |bits|
  {
    seq(|bits|, b requires 0 <= b < |bits| => bits[b] && !(exists p :: p in released && c.Covers(p, b)))
  }

  /** The disk after the addresses in `which` have been written back. */
  function WrittenBack<T>(memory: seq<T>, disk: seq<T>, which: set<nat>): (r: seq<T>)
    requires |disk| == |memory|
    ensures |r| == |memory|
  {
    seq(|memory|, i requires 0 <= i < |memory| == |disk| => if i in which then memory[i] else disk[i])
  }

  function WrittenBackMap(memory: PointerMap, disk: PointerMap, which: set<nat>): PointerMap {
    map q | q in memory.Keys + disk.Keys && (if q in which then q in memory else q in disk)
      :: if q in which then memory[q] else disk[q]
  }

  /** The addresses from `from` on where the disk shows what memory shows. */
  function Clean<T(==)>(memory: seq<T>, disk: seq<T>, from: nat): set<nat>
    requires |disk| == |memory|
  {
    set i: nat | from <= i < |memory| && memory[i] == disk[i]
  }

  function CleanMap(memory: PointerMap, disk: PointerMap): set<nat> {
    set q: nat | q in memory.Keys + disk.Keys && Lookup(memory, q) == Lookup(disk, q)
  }

  predicate AllFree(c: Config, bits: seq<bool>, p: ValuePointer)
    requires c.blockBytes > 0
  {
    forall b: nat :: c.Covers(p, b) && b < |bits| ==> !bits[b]
  }

  predicate AllUsed(c: Config, bits: seq<bool>, p: ValuePointer)
    requires c.blockBytes > 0
  {
    forall b: nat :: c.Covers(p, b) && b < |bits| ==> bits[b]
  }

  // ---------------------------------------------------------------------------------------
  // Steps
  // ---------------------------------------------------------------------------------------

  predicate Sized(c: Config, s: Store) {
    && |s.diskBits| == |s.bits|
    && |s.bytes| == |s.bits| * c.blockBytes
    && |s.diskBytes| == |s.bytes|
  }

  predicate InPhase(s: Store, phase: Phase) {
    s.flusher.Flusher? && s.flusher.phase == phase
  }

  ghost predicate Enabled(c: Config, s: Store, a: Action)
    requires c.Valid() && Sized(c, s)
  {
    match a
    case Grow => s.op.Idle?
    case Allocate(q, v, p) => s.op.Idle? && p.length == |v| && c.Fits(p, |s.bits|) && AllFree(c, s.bits, p)
    case WriteValue => s.op.Allocated? && c.FirstByte(s.op.pointer) + |s.op.value| <= |s.bytes|
    case MarkUsed => s.op.Written?
    case SetPointer => s.op.Marked?
    case BeginDelete(q) => s.op.Idle?
    case EndDelete => s.op.Deleting?
    case CreateFlusher => s.op.Idle? && s.flusher.NoFlusher?
    case DropFlusher => InPhase(s, Created)
    case BeginFlushBits => InPhase(s, Created)
    case EndFlushBits =>
      s.flusher.Flusher? && s.flusher.phase.FlushingBits? &&
      forall i: nat :: i < |s.bits| ==> i in s.flusher.phase.synced
    case BeginFlushPages => InPhase(s, BitsFlushed)
    case EndFlushPages =>
      s.flusher.Flusher? && s.flusher.phase.FlushingPages? &&
      forall i: nat :: i < |s.bytes| ==> i in s.flusher.phase.synced
    case WritePending => InPhase(s, PagesFlushed)
    case EndFlushTracker =>
      && s.flusher.Flusher? && s.flusher.phase.FlushingTracker?
      && s.tracker.raw.Keys + s.diskRaw.Keys <= s.flusher.phase.synced
    case FreeBlocks => s.flusher.Flusher? && s.flusher.phase.TrackerFlushed?
    case EndFlushFreed => InPhase(s, FlushingFreed)
    case WriteBackBits(_) => true
    case WriteBackBytes(_) => true
    case WriteBackTracker(_) => true
    case Crash => true
  }

  function WithPhase(s: Store, phase: Phase): Store
    requires s.flusher.Flusher?
  {
    s.(flusher := s.flusher.(phase := phase))
  }

  /** The pointers whose owner changes when a snapshot is written. */
  ghost function OwnersAfterWrite(s: Store): map<ValuePointer, Owner>
    requires s.flusher.Flusher?
  {
    var after := s.tracker.Write(s.flusher.snap);
    map p | p in s.owner ::
      if s.owner[p].Tracked? && !after.At(s.owner[p].point).Mentions(p) then
        if s.tracker.Releases(s.flusher.snap, p) then Releasing(s.owner[p].point) else Lost(s.owner[p].point)
      else s.owner[p]
  }

  ghost function ReleasedPointers(v: TrackerView, snap: map<PointOffset, PointerUpdates>): Pointers {
    set q, p | q in snap && p in v.At(q).Released(snap[q]) :: p
  }

  ghost function OwnersAfterCrash(s: Store): map<ValuePointer, Owner> {
    map p | p in s.owner && Lookup(s.diskRaw, s.owner[p].point) == Some(p) :: Tracked(s.owner[p].point)
  }

  ghost function LeakedByCrash(c: Config, s: Store): set<nat>
    requires c.blockBytes > 0
  {
    set b: nat | b < |s.diskBits| && s.diskBits[b] && !(exists p :: p in OwnersAfterCrash(s) && c.Covers(p, b))
  }

  ghost function Next(c: Config, s: Store, a: Action): Store
    requires c.Valid() && Sized(c, s) && Enabled(c, s, a)
  {
    match a
    case Grow =>
      var moreBits := seq(c.PageBlocks(), _ => false);
      var moreBytes := seq(c.PageBlocks() * c.blockBytes, _ => 0);
      var t := s.(bits := s.bits + moreBits, diskBits := s.diskBits + moreBits,
                  bytes := s.bytes + moreBytes, diskBytes := s.diskBytes + moreBytes);
      if !s.flusher.Flusher? then t
      else if s.flusher.phase.FlushingBits? then
        WithPhase(t, FlushingBits(s.flusher.phase.synced + Clean(t.bits, t.diskBits, |s.bits|)))
      else if s.flusher.phase.FlushingPages? then
        WithPhase(t, FlushingPages(s.flusher.phase.synced + Clean(t.bytes, t.diskBytes, |s.bytes|)))
      else t
    case Allocate(q, v, p) => s.(op := Allocated(q, v, p))
    case WriteValue =>
      var Allocated(q, v, p) := s.op;
      s.(bytes := Splice(s.bytes, c.FirstByte(p), v), op := Written(q, v, p))
    case MarkUsed =>
      var Written(q, v, p) := s.op;
      s.(bits := Mark(c, s.bits, p), op := Marked(q, v, p), owner := s.owner[p := Writing(q)])
    case SetPointer =>
      var Marked(q, v, p) := s.op;
      s.(tracker := s.tracker.Set(q, p), op := Idle, owner := s.owner[p := Tracked(q)])
    case BeginDelete(q) =>
      if s.tracker.Get(q).None? then s
      else s.(tracker := s.tracker.Unset(q), op := Deleting(q, s.tracker.Get(q).value))
    case EndDelete => s.(op := Idle)
    case CreateFlusher => s.(flusher := Flusher(s.tracker.pending, Created))
    case DropFlusher => s.(flusher := NoFlusher)
    case BeginFlushBits => WithPhase(s, FlushingBits(Clean(s.bits, s.diskBits, 0)))
    case EndFlushBits => WithPhase(s, BitsFlushed)
    case BeginFlushPages => WithPhase(s, FlushingPages(Clean(s.bytes, s.diskBytes, 0)))
    case EndFlushPages => WithPhase(s, PagesFlushed)
    case WritePending =>
      var after := s.tracker.Write(s.flusher.snap);
      var released := ReleasedPointers(s.tracker, s.flusher.snap);
      WithPhase(s, FlushingTracker(CleanMap(after.raw, s.diskRaw), released, s.tracker.raw))
        .(tracker := after, owner := OwnersAfterWrite(s))
    case EndFlushTracker =>
      if s.flusher.phase.released == {} then s.(flusher := NoFlusher)
      else WithPhase(s, TrackerFlushed(s.flusher.phase.released))
    case FreeBlocks =>
      var released := s.flusher.phase.released;
      WithPhase(s, FlushingFreed).(bits := Unmark(c, s.bits, released), owner := s.owner - released)
    case EndFlushFreed => s.(flusher := NoFlusher)
    case WriteBackBits(which) =>
      var t := s.(diskBits := WrittenBack(s.bits, s.diskBits, which));
      if s.flusher.Flusher? && s.flusher.phase.FlushingBits? then
        WithPhase(t, FlushingBits(s.flusher.phase.synced + which))
      else t
    case WriteBackBytes(which) =>
      var t := s.(diskBytes := WrittenBack(s.bytes, s.diskBytes, which));
      if s.flusher.Flusher? && s.flusher.phase.FlushingPages? then
        WithPhase(t, FlushingPages(s.flusher.phase.synced + which))
      else t
    case WriteBackTracker(which) =>
      var t := s.(diskRaw := WrittenBackMap(s.tracker.raw, s.diskRaw, which));
      if s.flusher.Flusher? && s.flusher.phase.FlushingTracker? then
        WithPhase(t, s.flusher.phase.(synced := s.flusher.phase.synced + which))
      else t
    case Crash =>
      Store(s.diskBits, s.diskBits, s.diskBytes, s.diskBytes, TrackerView(s.diskRaw, map[]), s.diskRaw,
            Idle, NoFlusher, OwnersAfterCrash(s), LeakedByCrash(c, s))
  }

  /** A new store: one page of free blocks and an empty tracker. */
  function Init(c: Config): Store
    requires c.Valid()
  {
    var bits := seq(c.PageBlocks(), _ => false);
    var bytes := seq(c.PageBlocks() * c.blockBytes, _ => 0);
    Store(bits, bits, bytes, bytes, TrackerView(map[], map[]), map[], Idle, NoFlusher, map[], {})
  }

  // ---------------------------------------------------------------------------------------
  // What the store means
  // ---------------------------------------------------------------------------------------

  function Image(c: Config, bytes: seq<Byte>, ptrs: PointerMap): PlainMap
    requires c.blockBytes > 0
  {
    map q | q in ptrs :: Read(c, bytes, ptrs[q])
  }

  /** The pointers that a reader follows. */
  function LivePointers(v: TrackerView): PointerMap {
    map q | q in v.raw.Keys + v.pending.Keys && v.Get(q).Some? :: v.Get(q).value
  }

  predicate BeforeWrite(f: Flusher) {
    f.Flusher? &&
    (f.phase.Created? || f.phase.FlushingBits? || f.phase.BitsFlushed? || f.phase.FlushingPages? ||
      f.phase.PagesFlushed?)
  }

  predicate SavingTracker(f: Flusher) {
    f.Flusher? && f.phase.FlushingTracker?
  }

  /** The pointers that the last completed flush left in the tracker file. */
  function SavedPointers(raw: PointerMap, f: Flusher): PointerMap {
    if SavingTracker(f) then f.phase.before else raw
  }

  /** The pointers that the outstanding flush will leave, or has just written, in the tracker file. */
  function InflightPointers(v: TrackerView, f: Flusher): PointerMap {
    if BeforeWrite(f) then v.Write(f.snap).raw else v.raw
  }

  function Abs(c: Config, s: Store): Spec
    requires c.blockBytes > 0
  {
    Spec(
      Image(c, s.bytes, LivePointers(s.tracker)),
      Image(c, s.bytes, SavedPointers(s.tracker.raw, s.flusher)),
      if BeforeWrite(s.flusher) || SavingTracker(s.flusher) then
        Some(Image(c, s.bytes, InflightPointers(s.tracker, s.flusher)))
      else None,
      SavingTracker(s.flusher),
      if s.op.Deleting? then Some(Read(c, s.bytes, s.op.pointer)) else None)
  }

  /** What a step shows, computed the way the code computes its results. */
  function Observe(c: Config, s: Store, a: Action): Event
    requires c.blockBytes > 0
  {
    match a
    case SetPointer =>
      if s.op.Marked? then Put(s.op.point, s.op.value, s.tracker.Get(s.op.point).Some?) else Silent
    case BeginDelete(q) => Remove(q, s.tracker.Get(q).Some?)
    case EndDelete => if s.op.Deleting? then ReturnDeleted(Read(c, s.bytes, s.op.pointer)) else Silent
    case CreateFlusher => TakeSnapshot
    case DropFlusher => DropSnapshot
    case WritePending => StartSaving
    case EndFlushTracker => FinishSaving
    case Crash => Recover(Image(c, s.diskBytes, s.diskRaw))
    case _ => Silent
  }

}
