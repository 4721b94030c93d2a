/** Runs of the machine that make up one call of the store. */
module GridTrace {
  import opened Wrappers
  import opened PointerTracker
  import opened Layout
  import opened CrashMap
  import opened GridMachine
  import opened GridInvariant
  import opened GridRefinement

  /** What the store has done since it was created. */
  datatype Trace = Trace(run: seq<Store>, actions: seq<Action>) {
    ghost predicate Runs(c: Config) {
      StoreRun(c, run, actions)
    }

    function Last(): Store
      requires |run| > 0
    {
      run[|run| - 1]
    }

    predicate Before(later: Trace) {
      run <= later.run && actions <= later.actions
    }
  }

  lemma TraceKeepsInvariant(c: Config, t: Trace)
    requires t.Runs(c)
    ensures |t.run| > 0 && Inv(c, t.Last())
  {
    hide Inv, Enabled;
    RunKeepsInvariant(c, t.run, t.actions, |t.actions|);
  }

  lemma Step(c: Config, t: Trace, a: Action) returns (u: Trace)
    requires t.Runs(c) && |t.run| > 0 && Inv(c, t.Last()) && Enabled(c, t.Last(), a)
    ensures u.Runs(c) && |u.run| > 0 && t.Before(u)
    ensures u.Last() == Next(c, t.Last(), a) && Inv(c, u.Last())
    ensures SpecStep(Abs(c, t.Last()), Observe(c, t.Last(), a), Abs(c, u.Last()))
  {
    var s := t.Last();
    hide Inv, Enabled, Next, Abs, Observe, SpecStep;
    StepIsGood(c, s, a);
    u := Trace(t.run + [Next(c, s, a)], t.actions + [a]);
    assert t.run[|t.run| - 1] == u.run[|t.actions|];
    forall i | 0 <= i < |u.actions| ensures StoreStep(c, u.run[i], u.actions[i], u.run[i + 1]) {
      if i < |t.actions| {
        assert StoreStep(c, t.run[i], t.actions[i], t.run[i + 1]);
      }
    }
  }

  /** A step that shows nothing. */
  lemma SilentStep(c: Config, t: Trace, a: Action) returns (u: Trace)
    requires t.Runs(c) && |t.run| > 0 && Inv(c, t.Last()) && Enabled(c, t.Last(), a) &&
               Observe(c, t.Last(), a) == Silent
    ensures u.Runs(c) && |u.run| > 0 && t.Before(u)
    ensures u.Last() == Next(c, t.Last(), a) && Inv(c, u.Last()) && Abs(c, u.Last()) == Abs(c, t.Last())
  {
    hide Inv, Enabled, Next, Abs, Observe, StoreRun;
    u := Step(c, t, a);
  }

  /** The bits, bytes and tracker that the program sees. */
  predicate Shows(s: Store, bits: seq<bool>, bytes: seq<Byte>, tracker: TrackerView) {
    s.bits == bits && s.bytes == bytes && s.tracker == tracker
  }

  function Zeros(n: nat): (r: seq<bool>)
    ensures |r| == n && forall i :: 0 <= i < n ==> !r[i]
  {
    seq(n, _ => false)
  }

  function ZeroBytes(n: nat): (r: seq<Byte>)
    ensures |r| == n && forall i :: 0 <= i < n ==> r[i] == 0
  {
    seq(n, _ => 0)
  }

  /** `k` pages in blocks, or in bytes. */
  function TimesPages(size: nat, k: nat): nat {
    k * size
  }

  lemma PagesNext(size: nat, k: nat)
    ensures TimesPages(size, k + 1) == TimesPages(size, k) + size && TimesPages(size, 0) == 0
  {
  }

  // ---------------------------------------------------------------------------------------
  // What single steps do
  // ---------------------------------------------------------------------------------------

  lemma GrowStep(c: Config, s: Store)
    requires Inv(c, s) && s.op.Idle?
    ensures c.Valid() && Enabled(c, s, Grow) && Observe(c, s, Grow) == Silent
    ensures var n := Next(c, s, Grow);
            && Shows(n, s.bits + Zeros(c.PageBlocks()), s.bytes + ZeroBytes(c.pageBytes), s.tracker)
            && n.op == s.op && (Outside(s.flusher) ==> n.flusher == s.flusher)
  {
    hide BlocksOk, OwnersOk, TrackerOk, EntriesOk, DiskOk, PhaseOk, Clean, Config.PageBlocks;
    PageIsWholeRegions(c);
  }

  lemma AllocateStep(c: Config, s: Store, q: PointOffset, v: Value, p: ValuePointer)
    requires Inv(c, s) && s.op.Idle? && p.length == |v| && c.Fits(p, |s.bits|) && AllFree(c, s.bits, p)
    ensures var a := Allocate(q, v, p);
            Enabled(c, s, a) && Observe(c, s, a) == Silent && Next(c, s, a) == s.(op := Allocated(q, v, p))
  {
    hide BlocksOk, OwnersOk, TrackerOk, EntriesOk, DiskOk, PhaseOk, AllFree, Config.Fits;
  }

  lemma WriteValueStep(c: Config, s: Store)
    requires Inv(c, s) && s.op.Allocated? && c.FirstByte(s.op.pointer) + |s.op.value| <= |s.bytes|
    ensures Enabled(c, s, WriteValue) && Observe(c, s, WriteValue) == Silent
    ensures Next(c, s, WriteValue) == s.(bytes := Splice(s.bytes, c.FirstByte(s.op.pointer), s.op.value),
                                        op := Written(s.op.point, s.op.value, s.op.pointer))
  {
    hide BlocksOk, OwnersOk, TrackerOk, EntriesOk, DiskOk, PhaseOk, Splice;
  }

  lemma MarkUsedStep(c: Config, s: Store)
    requires Inv(c, s) && s.op.Written?
    ensures Enabled(c, s, MarkUsed) && Observe(c, s, MarkUsed) == Silent
    ensures Next(c, s, MarkUsed) == s.(bits := Mark(c, s.bits, s.op.pointer),
                                      op := Marked(s.op.point, s.op.value, s.op.pointer),
                                      owner := s.owner[s.op.pointer := Writing(s.op.point)])
  {
    hide BlocksOk, OwnersOk, TrackerOk, EntriesOk, DiskOk, PhaseOk, Mark;
  }

  lemma SetPointerStep(c: Config, s: Store)
    requires Inv(c, s) && s.op.Marked?
    ensures Enabled(c, s, SetPointer)
    ensures Observe(c, s, SetPointer) == Put(s.op.point, s.op.value, s.tracker.Get(s.op.point).Some?)
    ensures Next(c, s, SetPointer) == s.(tracker := s.tracker.Set(s.op.point, s.op.pointer), op := Idle,
                                        owner := s.owner[s.op.pointer := Tracked(s.op.point)])
  {
    hide BlocksOk, OwnersOk, TrackerOk, EntriesOk, DiskOk, PhaseOk, TrackerView.Set;
  }

  lemma BeginDeleteStep(c: Config, s: Store, q: PointOffset)
    requires Inv(c, s) && s.op.Idle?
    ensures var a := BeginDelete(q);
            && Enabled(c, s, a) && Observe(c, s, a) == Remove(q, s.tracker.Get(q).Some?)
            && Next(c, s, a) == if s.tracker.Get(q).None? then s
                                else s.(tracker := s.tracker.Unset(q), op := Deleting(q, s.tracker.Get(q).value))
  {
    hide BlocksOk, OwnersOk, TrackerOk, EntriesOk, DiskOk, PhaseOk, TrackerView.Unset;
  }

  lemma EndDeleteStep(c: Config, s: Store)
    requires Inv(c, s) && s.op.Deleting?
    ensures Enabled(c, s, EndDelete) && Next(c, s, EndDelete) == s.(op := Idle)
    ensures Observe(c, s, EndDelete) == ReturnDeleted(Read(c, s.bytes, s.op.pointer))
  {
    hide BlocksOk, OwnersOk, TrackerOk, EntriesOk, DiskOk, PhaseOk, Read;
  }

  // ---------------------------------------------------------------------------------------
  // Puts and deletes
  // ---------------------------------------------------------------------------------------

  /** `u` continues `t` and ends between operations. */
  ghost predicate Continues(c: Config, t: Trace, u: Trace) {
    && u.Runs(c) && t.Before(u)
    && |u.run| > 0 && Inv(c, u.Last())
  }

  /** Adding `k` pages. */
  lemma {:induction false} GrowSteps(c: Config, t: Trace, k: nat) returns (u: Trace)
    requires t.Runs(c) && |t.run| > 0 && Inv(c, t.Last()) && t.Last().op.Idle?
    ensures Continues(c, t, u)
    ensures Shows(u.Last(), t.Last().bits + Zeros(TimesPages(c.PageBlocks(), k)),
                  t.Last().bytes + ZeroBytes(TimesPages(c.pageBytes, k)), t.Last().tracker)
    ensures u.Last().op.Idle? && Abs(c, u.Last()) == Abs(c, t.Last())
    ensures Outside(t.Last().flusher) ==> u.Last().flusher == t.Last().flusher
  {
    hide Inv, Abs, StoreRun, Next, Enabled, Observe, TimesPages, Config.PageBlocks;
    GrowStep(c, t.Last());
    PagesNext(c.PageBlocks(), 0);
    PagesNext(c.pageBytes, 0);
    if k == 0 {
      u := t;
    } else {
      var m := GrowSteps(c, t, k - 1);
      GrowStep(c, m.Last());
      u := SilentStep(c, m, Grow);
      PagesNext(c.PageBlocks(), k - 1);
      PagesNext(c.pageBytes, k - 1);
      ZerosAdd(t.Last().bits, TimesPages(c.PageBlocks(), k - 1), c.PageBlocks());
      ZeroBytesAdd(t.Last().bytes, TimesPages(c.pageBytes, k - 1), c.pageBytes);
    }
  }

  lemma ZerosAdd(s: seq<bool>, m: nat, n: nat)
    ensures s + Zeros(m) + Zeros(n) == s + Zeros(m + n)
  {
  }

  lemma ZeroBytesAdd(s: seq<Byte>, m: nat, n: nat)
    ensures s + ZeroBytes(m) + ZeroBytes(n) == s + ZeroBytes(m + n)
  {
  }

  /** The steps of a put into free blocks. */
  lemma PutSteps(c: Config, t: Trace, q: PointOffset, v: Value, p: ValuePointer) returns (u: Trace)
    requires t.Runs(c) && |t.run| > 0 && Inv(c, t.Last()) && t.Last().op.Idle?
    requires p.length == |v| && c.Fits(p, |t.Last().bits|) && AllFree(c, t.Last().bits, p)
    ensures Continues(c, t, u)
    ensures c.FirstByte(p) + |v| <= |t.Last().bytes|
    ensures Shows(u.Last(), Mark(c, t.Last().bits, p), Splice(t.Last().bytes, c.FirstByte(p), v),
              t.Last().tracker.Set(q, p))
    ensures u.Last().op.Idle? && u.Last().flusher == t.Last().flusher
    ensures var before, after := Abs(c, t.Last()), Abs(c, u.Last());
            after == before.(live := before.live[q := v]) && (t.Last().tracker.Get(q).Some? <==> q in before.live)
  {
    var s := t.Last();
    PutFits(c, s, p);
    hide Inv, Abs, StoreRun, AllFree, Config.Fits, Splice, Mark, Next, Enabled, Observe, TrackerView.Set,
      TrackerView.Get,
      Config.FirstByte;
    u := WriteSteps(c, t, q, v, p);
    SetPointerStep(c, u.Last());
    u := Step(c, u, SetPointer);
  }

  /** A put up to the point where the blocks are marked: no reader sees any of it. */
  lemma WriteSteps(c: Config, t: Trace, q: PointOffset, v: Value, p: ValuePointer) returns (u: Trace)
    requires t.Runs(c) && |t.run| > 0 && Inv(c, t.Last()) && t.Last().op.Idle?
    requires p.length == |v| && c.Fits(p, |t.Last().bits|) && AllFree(c, t.Last().bits, p)
    requires c.FirstByte(p) + |v| <= |t.Last().bytes|
    ensures Continues(c, t, u)
    ensures Shows(u.Last(), Mark(c, t.Last().bits, p), Splice(t.Last().bytes, c.FirstByte(p), v), t.Last().tracker)
    ensures u.Last().op == Marked(q, v, p) && u.Last().flusher == t.Last().flusher
    ensures Abs(c, u.Last()) == Abs(c, t.Last())
  {
    hide Inv, Abs, StoreRun, AllFree, Config.Fits, Splice, Mark, Next, Enabled, Observe, Config.FirstByte;
    AllocateStep(c, t.Last(), q, v, p);
    u := SilentStep(c, t, Allocate(q, v, p));
    WriteValueStep(c, u.Last());
    u := SilentStep(c, u, WriteValue);
    MarkUsedStep(c, u.Last());
    u := SilentStep(c, u, MarkUsed);
  }

  lemma PutFits(c: Config, s: Store, p: ValuePointer)
    requires Inv(c, s) && c.Fits(p, |s.bits|)
    ensures c.FirstByte(p) + p.length <= |s.bytes|
  {
    BytesInBlocks(c, p, |s.bits|);
  }

  /** The steps of a delete; they leave the bits and bytes alone and show the value that was there. */
  lemma DeleteSteps(c: Config, t: Trace, q: PointOffset) returns (u: Trace)
    requires t.Runs(c) && |t.run| > 0 && Inv(c, t.Last()) && t.Last().op.Idle?
    ensures Continues(c, t, u)
    ensures Shows(u.Last(), t.Last().bits, t.Last().bytes, t.Last().tracker.Unset(q))
    ensures u.Last().op.Idle? && u.Last().flusher == t.Last().flusher
    ensures var s := t.Last(); var before, after := Abs(c, s), Abs(c, u.Last());
            && after.live == before.live - {q} && after.saved == before.saved && after.inflight == before.inflight
            && after.saving == before.saving
            && Lookup(before.live, q) ==
              if s.tracker.Get(q).Some? then Some(Read(c, s.bytes, s.tracker.Get(q).value)) else None
  {
    var s := t.Last();
    GetReadsLive(c, s, q);
    hide Inv, Abs, StoreRun, TrackerView.Unset, TrackerView.Get, Read, Next, Enabled, Observe, SpecStep;
    BeginDeleteStep(c, s, q);
    u := Step(c, t, BeginDelete(q));
    RemoveKeeps(Abs(c, s), q, s.tracker.Get(q).Some?, Abs(c, u.Last()));
    if s.tracker.Get(q).Some? {
      EndDeleteStep(c, u.Last());
      hide SpecStep;
      var m := u.Last();
      u := Step(c, u, EndDelete);
      ReturnKeeps(Abs(c, m), Read(c, m.bytes, m.op.pointer), Abs(c, u.Last()));
    } else {
      UnsetNothing(s.tracker, q);
    }
  }

  lemma RemoveKeeps(s: Spec, q: PointOffset, found: bool, t: Spec)
    requires SpecStep(s, Remove(q, found), t)
    ensures t.live == s.live - {q} && t.saved == s.saved && t.inflight == s.inflight && t.saving == s.saving
  {
    if !found {
      assert s.live - {q} == s.live;
    }
  }

  lemma ReturnKeeps(s: Spec, v: Value, t: Spec)
    requires SpecStep(s, ReturnDeleted(v), t)
    ensures t.live == s.live && t.saved == s.saved && t.inflight == s.inflight && t.saving == s.saving
  {
  }

  lemma UnsetNothing(v: TrackerView, q: PointOffset)
    requires v.Get(q).None?
    ensures v.Unset(q) == v
  {
    UnsetAt(v, q);
    SameEverywhere(v.Unset(q), v);
  }

  /** No file is being flushed. */
  predicate Outside(f: Flusher) {
    f.Flusher? ==> !(f.phase.FlushingBits? || f.phase.FlushingPages? || f.phase.FlushingTracker?)
  }

  predicate IsWriteBack(a: Action) {
    a.WriteBackBits? || a.WriteBackBytes? || a.WriteBackTracker?
  }

  lemma IsStep(c: Config, s: Store, a: Action)
    requires Inv(c, s) && Enabled(c, s, a)
    ensures StoreStep(c, s, a, Next(c, s, a))
  {
    hide Enabled, Next;
  }

  lemma WriteBackStep(c: Config, s: Store, a: Action)
    requires Inv(c, s) && IsWriteBack(a) && Outside(s.flusher)
    ensures Enabled(c, s, a) && Observe(c, s, a) == Silent
    ensures var n := Next(c, s, a);
            Shows(n, s.bits, s.bytes, s.tracker) && n.op == s.op && n.flusher == s.flusher
  {
    hide BlocksOk, OwnersOk, TrackerOk, EntriesOk, DiskOk, PhaseOk, OpOk, WrittenBack, WrittenBackMap;
  }

  // ---------------------------------------------------------------------------------------
  // Flushing
  // ---------------------------------------------------------------------------------------

  lemma FlushBitsStep(c: Config, s: Store, a: Action)
    requires Inv(c, s) && s.flusher.Flusher?
    requires (a == BeginFlushBits && s.flusher.phase == Created)
             || (a == WriteBackBits(Below(|s.bits|)) && s.flusher.phase.FlushingBits?)
             || (a == EndFlushBits && s.flusher.phase.FlushingBits? && Below(|s.bits|) <= s.flusher.phase.synced)
    ensures Enabled(c, s, a) && Observe(c, s, a) == Silent
    ensures var n := Next(c, s, a);
            && Shows(n, s.bits, s.bytes, s.tracker) && n.op == s.op
            && n.flusher.Flusher? && n.flusher.snap == s.flusher.snap
            && (a == BeginFlushBits ==> n.flusher.phase.FlushingBits?)
            && (a.WriteBackBits? ==> n.flusher.phase.FlushingBits? && Below(|s.bits|) <= n.flusher.phase.synced)
            && (a == EndFlushBits ==> n.flusher.phase == BitsFlushed)
  {
    hide BlocksOk, OwnersOk, TrackerOk, EntriesOk, DiskOk, PhaseOk, OpOk, Clean, WrittenBack;
  }

  lemma FlushPagesStep(c: Config, s: Store, a: Action)
    requires Inv(c, s) && s.flusher.Flusher?
    requires (a == BeginFlushPages && s.flusher.phase == BitsFlushed)
             || (a == WriteBackBytes(Below(|s.bytes|)) && s.flusher.phase.FlushingPages?)
             || (a == EndFlushPages && s.flusher.phase.FlushingPages? && Below(|s.bytes|) <= s.flusher.phase.synced)
    ensures Enabled(c, s, a) && Observe(c, s, a) == Silent
    ensures var n := Next(c, s, a);
            && Shows(n, s.bits, s.bytes, s.tracker) && n.op == s.op
            && n.flusher.Flusher? && n.flusher.snap == s.flusher.snap
            && (a == BeginFlushPages ==> n.flusher.phase.FlushingPages?)
            && (a.WriteBackBytes? ==> n.flusher.phase.FlushingPages? && Below(|s.bytes|) <= n.flusher.phase.synced)
            && (a == EndFlushPages ==> n.flusher.phase == PagesFlushed)
  {
    hide BlocksOk, OwnersOk, TrackerOk, EntriesOk, DiskOk, PhaseOk, OpOk, Clean, WrittenBack;
  }

  /** Flushing the bitmask; the program sees no change. */
  lemma FlushBitsSteps(c: Config, t: Trace) returns (u: Trace)
    requires t.Runs(c) && |t.run| > 0 && Inv(c, t.Last()) && InPhase(t.Last(), Created)
    ensures Continues(c, t, u)
    ensures Shows(u.Last(), t.Last().bits, t.Last().bytes, t.Last().tracker) && u.Last().op == t.Last().op
    ensures u.Last().flusher == Flusher(t.Last().flusher.snap, BitsFlushed) && Abs(c, u.Last()) == Abs(c, t.Last())
  {
    hide Inv, Abs, StoreRun, Next, Enabled, Observe, Below;
    FlushBitsStep(c, t.Last(), BeginFlushBits);
    u := SilentStep(c, t, BeginFlushBits);
    FlushBitsStep(c, u.Last(), WriteBackBits(Below(|u.Last().bits|)));
    u := SilentStep(c, u, WriteBackBits(Below(|u.Last().bits|)));
    FlushBitsStep(c, u.Last(), EndFlushBits);
    u := SilentStep(c, u, EndFlushBits);
  }

  /** Flushing the pages. */
  lemma FlushPagesSteps(c: Config, t: Trace) returns (u: Trace)
    requires t.Runs(c) && |t.run| > 0 && Inv(c, t.Last()) && InPhase(t.Last(), BitsFlushed)
    ensures Continues(c, t, u)
    ensures Shows(u.Last(), t.Last().bits, t.Last().bytes, t.Last().tracker) && u.Last().op == t.Last().op
    ensures u.Last().flusher == Flusher(t.Last().flusher.snap, PagesFlushed) && Abs(c, u.Last()) == Abs(c, t.Last())
  {
    hide Inv, Abs, StoreRun, Next, Enabled, Observe, Below;
    FlushPagesStep(c, t.Last(), BeginFlushPages);
    u := SilentStep(c, t, BeginFlushPages);
    FlushPagesStep(c, u.Last(), WriteBackBytes(Below(|u.Last().bytes|)));
    u := SilentStep(c, u, WriteBackBytes(Below(|u.Last().bytes|)));
    FlushPagesStep(c, u.Last(), EndFlushPages);
    u := SilentStep(c, u, EndFlushPages);
  }

  lemma CreateFlusherStep(c: Config, s: Store)
    requires Inv(c, s) && s.op.Idle? && s.flusher.NoFlusher?
    ensures Enabled(c, s, CreateFlusher) && Observe(c, s, CreateFlusher) == TakeSnapshot
    ensures Next(c, s, CreateFlusher) == s.(flusher := Flusher(s.tracker.pending, Created))
  {
    hide BlocksOk, OwnersOk, TrackerOk, EntriesOk, DiskOk, PhaseOk, OpOk;
  }

  lemma SnapshotSteps(c: Config, t: Trace) returns (u: Trace)
    requires t.Runs(c) && |t.run| > 0 && Inv(c, t.Last()) && t.Last().op.Idle? && t.Last().flusher.NoFlusher?
    ensures Continues(c, t, u)
    ensures u.Last() == t.Last().(flusher := Flusher(t.Last().tracker.pending, Created))
    ensures Abs(c, u.Last()) == Abs(c, t.Last()).(inflight := Some(Abs(c, t.Last()).live))
  {
    hide Inv, Abs, StoreRun, Next, Enabled, Observe;
    CreateFlusherStep(c, t.Last());
    u := Step(c, t, CreateFlusher);
  }

  lemma WritePendingStep(c: Config, s: Store)
    requires Inv(c, s) && InPhase(s, PagesFlushed)
    ensures Enabled(c, s, WritePending) && Observe(c, s, WritePending) == StartSaving
    ensures var n := Next(c, s, WritePending);
            && Shows(n, s.bits, s.bytes, s.tracker.Write(s.flusher.snap)) && n.op == s.op
            && n.flusher.Flusher? && n.flusher.phase.FlushingTracker?
            && n.flusher.phase.released == ReleasedPointers(s.tracker, s.flusher.snap)
  {
    hide BlocksOk, OwnersOk, TrackerOk, EntriesOk, DiskOk, PhaseOk, OpOk, CleanMap, OwnersAfterWrite, ReleasedPointers,
      TrackerView.Write;
  }

  lemma WriteBackTrackerStep(c: Config, s: Store)
    requires Inv(c, s) && s.flusher.Flusher? && s.flusher.phase.FlushingTracker?
    ensures var a := WriteBackTracker(s.tracker.raw.Keys + s.diskRaw.Keys);
            && Enabled(c, s, a) && Observe(c, s, a) == Silent
            && var n := Next(c, s, a);
            && Shows(n, s.bits, s.bytes, s.tracker) && n.op == s.op
            && n.flusher.Flusher? && n.flusher.phase.FlushingTracker?
            && n.flusher.phase.released == s.flusher.phase.released
            && n.tracker.raw.Keys + n.diskRaw.Keys <= n.flusher.phase.synced
  {
    hide BlocksOk, OwnersOk, TrackerOk, EntriesOk, DiskOk, PhaseOk, OpOk;
  }

  lemma EndFlushTrackerStep(c: Config, s: Store)
    requires Inv(c, s) && s.flusher.Flusher? && s.flusher.phase.FlushingTracker?
    requires s.tracker.raw.Keys + s.diskRaw.Keys <= s.flusher.phase.synced
    ensures Enabled(c, s, EndFlushTracker) && Observe(c, s, EndFlushTracker) == FinishSaving
    ensures Next(c, s, EndFlushTracker) ==
            if s.flusher.phase.released == {} then s.(flusher := NoFlusher)
            else s.(flusher := Flusher(s.flusher.snap, TrackerFlushed(s.flusher.phase.released)))
  {
    hide BlocksOk, OwnersOk, TrackerOk, EntriesOk, DiskOk, PhaseOk, OpOk;
  }

  /** Writing the snapshot to the tracker and flushing it saves the map as it was when the flusher was created. */
  lemma FlushTrackerSteps(c: Config, t: Trace) returns (u: Trace)
    requires t.Runs(c) && |t.run| > 0 && Inv(c, t.Last()) && InPhase(t.Last(), PagesFlushed)
    ensures Continues(c, t, u)
    ensures Shows(u.Last(), t.Last().bits, t.Last().bytes, t.Last().tracker.Write(t.Last().flusher.snap))
    ensures u.Last().op == t.Last().op
    ensures var released := ReleasedPointers(t.Last().tracker, t.Last().flusher.snap);
            if released == {} then u.Last().flusher.NoFlusher?
            else u.Last().flusher.Flusher? && u.Last().flusher.phase == TrackerFlushed(released)
    ensures var before, after := Abs(c, t.Last()), Abs(c, u.Last());
            before.inflight.Some? && after == before.(saved := before.inflight.value, inflight := None, saving := false)
  {
    hide Inv, Abs, StoreRun, Next, Enabled, Observe, TrackerView.Write, ReleasedPointers;
    WritePendingStep(c, t.Last());
    u := Step(c, t, WritePending);
    WriteBackTrackerStep(c, u.Last());
    u := SilentStep(c, u, WriteBackTracker(u.Last().tracker.raw.Keys + u.Last().diskRaw.Keys));
    EndFlushTrackerStep(c, u.Last());
    u := Step(c, u, EndFlushTracker);
  }

  lemma FreeBlocksStep(c: Config, s: Store)
    requires Inv(c, s) && s.flusher.Flusher? && s.flusher.phase.TrackerFlushed?
    ensures Enabled(c, s, FreeBlocks) && Observe(c, s, FreeBlocks) == Silent
    ensures var n := Next(c, s, FreeBlocks);
            && Shows(n, Unmark(c, s.bits, s.flusher.phase.released), s.bytes, s.tracker) && n.op == s.op
            && InPhase(n, FlushingFreed)
    ensures forall p :: p in s.flusher.phase.released ==> c.Fits(p, |s.bits|)
  {
    hide TrackerOk, EntriesOk, DiskOk, PhaseOk, OpOk, Unmark;
  }

  lemma EndFlushFreedStep(c: Config, s: Store)
    requires Inv(c, s) && InPhase(s, FlushingFreed)
    ensures Enabled(c, s, EndFlushFreed) && Observe(c, s, EndFlushFreed) == Silent
    ensures Next(c, s, EndFlushFreed) == s.(flusher := NoFlusher)
  {
    hide BlocksOk, OwnersOk, TrackerOk, EntriesOk, DiskOk, PhaseOk, OpOk;
  }

  /** Freeing the released blocks changes nothing that a reader sees. */
  lemma FreeSteps(c: Config, t: Trace) returns (u: Trace)
    requires t.Runs(c) && |t.run| > 0 && Inv(c, t.Last())
    requires t.Last().flusher.Flusher? && t.Last().flusher.phase.TrackerFlushed?
    ensures Continues(c, t, u)
    ensures Shows(u.Last(), Unmark(c, t.Last().bits, t.Last().flusher.phase.released), t.Last().bytes, t.Last().tracker)
    ensures u.Last().op == t.Last().op && u.Last().flusher.NoFlusher? && Abs(c, u.Last()) == Abs(c, t.Last())
    ensures forall p :: p in t.Last().flusher.phase.released ==> c.Fits(p, |t.Last().bits|)
  {
    hide Inv, Abs, StoreRun, Next, Enabled, Observe, Unmark, Config.Fits;
    FreeBlocksStep(c, t.Last());
    u := SilentStep(c, t, FreeBlocks);
    EndFlushFreedStep(c, u.Last());
    u := SilentStep(c, u, EndFlushFreed);
  }

  // ---------------------------------------------------------------------------------------
  // A run that strands a pointer
  // ---------------------------------------------------------------------------------------

  /** From the creation of a flusher to the end of the flush of the tracker's files before it is written. */
  lemma BeginFlushSteps(c: Config, t: Trace) returns (u: Trace)
    requires t.Runs(c) && |t.run| > 0 && Inv(c, t.Last()) && t.Last().op.Idle? && t.Last().flusher.NoFlusher?
    ensures Continues(c, t, u)
    ensures Shows(u.Last(), t.Last().bits, t.Last().bytes, t.Last().tracker) && u.Last().op == t.Last().op
    ensures u.Last().flusher == Flusher(t.Last().tracker.pending, PagesFlushed)
  {
    hide Inv, Abs, StoreRun;
    u := SnapshotSteps(c, t);
    u := FlushBitsSteps(c, u);
    u := FlushPagesSteps(c, u);
  }

  /** Two pages of free blocks. */
  lemma TwoPages(c: Config) returns (t: Trace)
    requires c.Valid()
    ensures t.Runs(c) && |t.run| > 0 && Inv(c, t.Last())
    ensures t.Last().op.Idle? && t.Last().flusher.NoFlusher? && t.Last().tracker == TrackerView(map[], map[])
    ensures t.Last().bits == Zeros(c.PageBlocks() + c.PageBlocks())
  {
    var first := Trace([Init(c)], []);
    InitIsGood(c);
    hide Inv, Abs;
    t := GrowSteps(c, first, 1);
    PagesNext(c.PageBlocks(), 0);
    ZerosAdd([], c.PageBlocks(), c.PageBlocks());
    assert Init(c).bits == [] + Zeros(c.PageBlocks());
  }

  /** The first block of a page, for a value of one byte. */
  function InPage(page: nat): ValuePointer {
    ValuePointer(page, 0, 1)
  }

  lemma BothFit(c: Config, bits: seq<bool>)
    requires c.Valid() && bits == Zeros(c.PageBlocks() + c.PageBlocks())
    ensures c.Fits(InPage(0), |bits|) && AllFree(c, bits, InPage(0))
    ensures c.Fits(InPage(1), |bits|) && AllFree(c, Mark(c, bits, InPage(0)), InPage(1))
  {
    PageIsWholeRegions(c);
    assert c.BlocksFor(1) == 1;
  }

  /**
   Exact conservation fails: on every configuration, putting a value, flushing it, overwriting it and
   deleting it before the next flush leads to a store in which its first blocks are stranded.
   */
  lemma SomeRunStrands(c: Config, q: PointOffset) returns (t: Trace)
    requires c.Valid()
    ensures t.Runs(c) && |t.run| > 0 && Stranded(t.Last(), InPage(0))
  {
    hide Inv, Abs, StoreRun, Mark, AllFree, Config.Fits, Config.PageBlocks, Config.FirstByte, Splice, TrackerView.Write,
      ReleasedPointers;
    t := TwoPages(c);
    BothFit(c, t.Last().bits);
    var bits := t.Last().bits;
    t := PutSteps(c, t, q, [0], InPage(0));
    FirstFlush(t.Last().tracker, q);
    t := BeginFlushSteps(c, t);
    t := FlushTrackerSteps(c, t);
    assert t.Last().bits == Mark(c, bits, InPage(0));
    t := PutSteps(c, t, q, [0], InPage(1));
    t := DeleteSteps(c, t, q);
    t := BeginFlushSteps(c, t);
    WritePendingStep(c, t.Last());
    hide Next, Enabled;
    OnlyTheseStepsLoseSpace(c, t.Last(), WritePending);
    assert StrandedAt(t.Last(), q, InPage(0));
    var s := t.Last();
    t := Step(c, t, WritePending);
  }

  /** Flushing a first put persists its pointer, releases nothing and leaves nothing pending. */
  lemma FirstFlush(v: TrackerView, q: PointOffset)
    requires v == TrackerView(map[], map[]).Set(q, InPage(0))
    ensures v.Write(v.pending) == TrackerView(map[q := InPage(0)], map[]) && ReleasedPointers(v, v.pending) == {}
  {
    assert v.pending == map[q := PointerUpdates(Some(InPage(0)), [])];
    assert v.Write(v.pending).raw == map[q := InPage(0)];
    assert v.Write(v.pending).pending == map[];
  }
}
