/** What holds of every run of the store: it refines the crash-tolerant map, and its blocks are isolated. */
module GridRefinement {
  import opened Wrappers
  import opened PointerTracker
  import opened Layout
  import opened CrashMap
  import opened GridMachine
  import opened GridInvariant
  import opened GridSteps
  import opened GridFlush

  lemma InitIsGood(c: Config)
    requires c.Valid()
    ensures Inv(c, Init(c)) && Abs(c, Init(c)) == EMPTY
  {
    var s := Init(c);
    CrashLive(map[]);
    assert OwnersOk(s.tracker, s.owner, s.op, ReleasedBy(s.flusher));
  }

  lemma StepIsGood(c: Config, s: Store, a: Action)
    requires Inv(c, s) && Enabled(c, s, a)
    ensures Good(c, s, a)
  {
    hide Inv, Good, Enabled;
    match a {
      case Grow => GrowIsGood(c, s);
      case Allocate(q, v, p) => AllocateIsGood(c, s, q, v, p);
      case WriteValue => WriteValueIsGood(c, s);
      case MarkUsed => MarkUsedIsGood(c, s);
      case SetPointer => SetPointerIsGood(c, s);
      case BeginDelete(q) => BeginDeleteIsGood(c, s, q);
      case EndDelete => EndDeleteIsGood(c, s);
      case CreateFlusher => CreateFlusherIsGood(c, s);
      case DropFlusher => StopIsGood(c, s, a);
      case BeginFlushBits => FlushFilesIsGood(c, s, a);
      case EndFlushBits => FlushFilesIsGood(c, s, a);
      case BeginFlushPages => FlushFilesIsGood(c, s, a);
      case EndFlushPages => FlushFilesIsGood(c, s, a);
      case WritePending => WritePendingIsGood(c, s);
      case EndFlushTracker => EndFlushTrackerIsGood(c, s);
      case FreeBlocks => FreeBlocksIsGood(c, s);
      case EndFlushFreed => StopIsGood(c, s, a);
      case WriteBackBits(_) => WriteBackFileIsGood(c, s, a);
      case WriteBackBytes(_) => WriteBackFileIsGood(c, s, a);
      case WriteBackTracker(which) => WriteBackTrackerIsGood(c, s, which);
      case Crash => CrashIsGood(c, s);
    }
  }

  // ---------------------------------------------------------------------------------------
  // Runs
  // ---------------------------------------------------------------------------------------

  ghost predicate StoreStep(c: Config, s: Store, a: Action, t: Store) {
    c.Valid() && Sized(c, s) && Enabled(c, s, a) && t == Next(c, s, a)
  }

  /** `run` is a run of a new store that takes `actions`, in any interleaving that the steps allow. */
  ghost predicate StoreRun(c: Config, run: seq<Store>, actions: seq<Action>) {
    && c.Valid()
    && |run| == |actions| + 1 && run[0] == Init(c)
    && forall i :: 0 <= i < |actions| ==> StoreStep(c, run[i], actions[i], run[i + 1])
  }

  lemma {:induction false} RunKeepsInvariant(c: Config, run: seq<Store>, actions: seq<Action>, n: nat)
    requires StoreRun(c, run, actions) && n <= |actions|
    ensures Inv(c, run[n])
  {
    if n == 0 {
      InitIsGood(c);
    } else {
      RunKeepsInvariant(c, run, actions, n - 1);
      assert StoreStep(c, run[n - 1], actions[n - 1], run[n]);
      hide Inv, Enabled;
      StepIsGood(c, run[n - 1], actions[n - 1]);
    }
  }

  function AbsOf(c: Config, run: seq<Store>): seq<Spec>
    requires c.blockBytes > 0
  {
    seq(|run|, i requires 0 <= i < |run| => Abs(c, run[i]))
  }

  function EventsOf(c: Config, run: seq<Store>, actions: seq<Action>): seq<Event>
    requires c.blockBytes > 0 && |run| >= |actions|
  {
    seq(|actions|, i requires 0 <= i < |actions| <= |run| => Observe(c, run[i], actions[i]))
  }

  /**
   The store refines the crash-tolerant map: whatever the interleaving of puts, deletes, flusher
   phases, write-backs and crashes, what it shows is what the map shows.
   */
  lemma StoreRefinesMap(c: Config, run: seq<Store>, actions: seq<Action>)
    requires StoreRun(c, run, actions)
    ensures SpecRun(AbsOf(c, run), EventsOf(c, run, actions)) && AbsOf(c, run)[0] == EMPTY
  {
    InitIsGood(c);
    forall i | 0 <= i < |actions|
      ensures SpecStep(AbsOf(c, run)[i], EventsOf(c, run, actions)[i], AbsOf(c, run)[i + 1])
    {
      RunKeepsInvariant(c, run, actions, i);
      assert StoreStep(c, run[i], actions[i], run[i + 1]);
      hide Inv, Enabled, SpecStep, Abs, Observe;
      StepIsGood(c, run[i], actions[i]);
    }
  }

  /** `get_value`, up to decoding. */
  function GetValue(c: Config, s: Store, q: PointOffset): Option<Value>
    requires c.blockBytes > 0
  {
    match s.tracker.Get(q)
    case Some(p) => Some(Read(c, s.bytes, p))
    case None => None
  }

  lemma GetReadsLive(c: Config, s: Store, q: PointOffset)
    requires c.blockBytes > 0
    ensures GetValue(c, s, q) == Lookup(Abs(c, s).live, q)
  {
    LiveLookup(s.tracker, q);
  }

  /** Every read returns what a plain map holds after the same puts, removes and recoveries. */
  lemma GetAgreesWithPlainMap(c: Config, run: seq<Store>, actions: seq<Action>, q: PointOffset)
    requires StoreRun(c, run, actions)
    ensures GetValue(c, run[|actions|], q) == Lookup(Replay(map[], EventsOf(c, run, actions)), q)
  {
    hide Abs, SpecStep, Observe;
    StoreRefinesMap(c, run, actions);
    LiveIsReplay(AbsOf(c, run), EventsOf(c, run, actions));
    GetReadsLive(c, run[|actions|], q);
  }

  // ---------------------------------------------------------------------------------------
  // Crash safety
  // ---------------------------------------------------------------------------------------

  /**
   At every moment of every run, whatever the kernel has written back, each pointer in the tracker
   file on disk names a value whose bytes on disk are those that a completed or running flush saves
   for its point, in blocks that the bitmask on disk marks used; and what a restart would read is,
   point by point, the map saved by the last completed flush or the one being saved.
   */
  lemma CrashIsSafe(c: Config, run: seq<Store>, actions: seq<Action>, n: nat)
    requires StoreRun(c, run, actions) && n <= |actions|
    ensures var s := run[n]; var a := Abs(c, s);
            && (forall q :: q in s.diskRaw ==>
                  c.Fits(s.diskRaw[q], |s.diskBits|) && AllUsed(c, s.diskBits, s.diskRaw[q]))
            && (forall q, r :: q in s.diskRaw && r in s.diskRaw && q != r ==> c.Apart(s.diskRaw[q], s.diskRaw[r]))
            && (forall q: PointOffset :: var found := Lookup(Image(c, s.diskBytes, s.diskRaw), q);
                  found == Lookup(a.saved, q) || (a.saving && found == Lookup(a.inflight.value, q)))
  {
    RunKeepsInvariant(c, run, actions, n);
    var s := run[n];
    hide OwnersOk, TrackerOk, EntriesOk, DiskOk, PhaseOk, OpOk, Abs, Image;
    DiskIsApart(c, s);
    hide BlocksOk;
    CrashRecovers(c, s);
  }

  lemma DiskIsApart(c: Config, s: Store)
    requires Inv(c, s)
    ensures forall q :: q in s.diskRaw ==>
              c.Fits(s.diskRaw[q], |s.diskBits|) && AllUsed(c, s.diskBits, s.diskRaw[q])
    ensures forall q, r :: q in s.diskRaw && r in s.diskRaw && q != r ==> c.Apart(s.diskRaw[q], s.diskRaw[r])
  {
    hide OwnersOk, TrackerOk, EntriesOk, DiskOk, PhaseOk, OpOk, Abs;
    DiskIsDurable(c, s);
    forall q, r | q in s.diskRaw && r in s.diskRaw && q != r ensures c.Apart(s.diskRaw[q], s.diskRaw[r]) {
      assert OwnedFor(s.owner, q, s.diskRaw[q]) && OwnedFor(s.owner, r, s.diskRaw[r]);
    }
  }

  predicate EndsFlusher(a: Action) {
    a.CreateFlusher? || a.DropFlusher? || a.EndFlushTracker? || a.Crash?
  }

  lemma EventOf(c: Config, s: Store, a: Action)
    requires c.blockBytes > 0
    ensures EndsSnapshot(Observe(c, s, a)) ==> EndsFlusher(a)
    ensures Observe(c, s, a).StartSaving? ==> a.WritePending?
    ensures Observe(c, s, a).Recover? ==> a.Crash?
  {
  }

  /**
   A flusher created at step `i` that has flushed the tracker at step `j`: until another one writes the
   tracker, a crash at step `n` makes every point read as it did when the flusher was created, whatever
   was put, deleted or written back in between.
   */
  lemma FlushedValuesSurviveCrash(c: Config, run: seq<Store>, actions: seq<Action>, i: nat, j: nat, n: nat,
                                  q: PointOffset)
    requires StoreRun(c, run, actions) && i < j < n < |actions|
    requires actions[i] == CreateFlusher && actions[j] == EndFlushTracker && actions[n] == Crash
    requires forall k :: i < k < j ==> !EndsFlusher(actions[k])
    requires forall k :: j < k < n ==> !actions[k].WritePending? && !actions[k].Crash?
    ensures GetValue(c, run[n + 1], q) == GetValue(c, run[i], q)
  {
    var events := EventsOf(c, run, actions);
    StoreRefinesMap(c, run, actions);
    hide StoreRun, Abs, SpecStep, EndsSnapshot, EndsFlusher;
    forall k: nat | k < |actions|
      ensures EndsSnapshot(events[k]) ==> EndsFlusher(actions[k])
      ensures events[k].StartSaving? ==> actions[k].WritePending?
      ensures events[k].Recover? ==> actions[k].Crash?
    {
      EventOf(c, run[k], actions[k]);
    }
    CompletedFlushSurvivesCrash(AbsOf(c, run), events, i, j, n, Image(c, run[n].diskBytes, run[n].diskRaw));
    CrashShowsDisk(c, run, actions, n);
    GetReadsLive(c, run[n + 1], q);
    GetReadsLive(c, run[i], q);
  }

  lemma CrashShowsDisk(c: Config, run: seq<Store>, actions: seq<Action>, n: nat)
    requires StoreRun(c, run, actions) && n < |actions| && actions[n] == Crash
    ensures Abs(c, run[n + 1]).live == Image(c, run[n].diskBytes, run[n].diskRaw)
  {
    hide Abs, Image;
    StoreRefinesMap(c, run, actions);
    assert SpecStep(AbsOf(c, run)[n], EventsOf(c, run, actions)[n], AbsOf(c, run)[n + 1]);
  }

  // ---------------------------------------------------------------------------------------
  // Block isolation and space
  // ---------------------------------------------------------------------------------------

  /** `p` is held by the tracker, by the flusher or by the put in progress. */
  ghost predicate Held(s: Store, p: ValuePointer) {
    || (exists q: PointOffset :: s.tracker.At(q).Mentions(p))
    || p in ReleasedBy(s.flusher)
    || (s.op.Marked? && s.op.pointer == p)
  }

  ghost predicate Stranded(s: Store, p: ValuePointer) {
    p in s.owner && s.owner[p].Lost?
  }

  lemma HeldIsOwned(s: Store, p: ValuePointer)
    requires OwnersOk(s.tracker, s.owner, s.op, ReleasedBy(s.flusher))
    ensures p in s.owner <==> Held(s, p) || Stranded(s, p)
    ensures !(Held(s, p) && Stranded(s, p))
  {
    if p in s.owner {
      assert OwnerOk(s.tracker, p, s.owner[p], s.op, ReleasedBy(s.flusher));
    }
  }

  /**
   In every reachable state the pointers held anywhere cover pairwise separate blocks, all marked
   used, and a block is used exactly when a held pointer, a stranded pointer or a crash accounts for it.
   */
  lemma BlocksAreIsolated(c: Config, run: seq<Store>, actions: seq<Action>, n: nat)
    requires StoreRun(c, run, actions) && n <= |actions|
    ensures var s := run[n];
            && (forall p :: Held(s, p) ==> c.Fits(p, |s.bits|) && AllUsed(c, s.bits, p))
            && (forall p, r :: Held(s, p) && Held(s, r) && p != r ==> c.Apart(p, r))
            && (forall b: nat :: b < |s.bits| ==>
                  (s.bits[b] <==> b in s.leaked || exists p :: (Held(s, p) || Stranded(s, p)) && c.Covers(p, b)))
  {
    RunKeepsInvariant(c, run, actions, n);
    var s := run[n];
    hide TrackerOk, EntriesOk, DiskOk, PhaseOk, OpOk, OwnersOk, Held, Stranded;
    forall p ensures p in s.owner.Keys <==> Held(s, p) || Stranded(s, p) {
      HeldIsOwned(s, p);
    }
    forall b: nat | b < |s.bits| && s.bits[b]
      ensures b in s.leaked || exists p :: (Held(s, p) || Stranded(s, p)) && c.Covers(p, b)
    {
      if b !in s.leaked {
        var p :| p in s.owner.Keys && c.Covers(p, b);
        assert Held(s, p) || Stranded(s, p);
      }
    }
  }

  /** No point shares a pointer with another point, or with the list that the flusher will free. */
  lemma PointersAreUnshared(c: Config, run: seq<Store>, actions: seq<Action>, n: nat, q: PointOffset, p: ValuePointer)
    requires StoreRun(c, run, actions) && n <= |actions|
    requires run[n].tracker.At(q).Mentions(p)
    ensures p !in ReleasedBy(run[n].flusher)
    ensures forall r: PointOffset :: r != q ==> !run[n].tracker.At(r).Mentions(p)
  {
    hide BlocksOk, EntriesOk, DiskOk, PhaseOk, OpOk, Image, Enabled, Next;
    RunKeepsInvariant(c, run, actions, n);
  }

  /** The flusher writes an empty pointer over `p`, which the updates of its point do not list. */
  predicate StrandedAt(s: Store, q: PointOffset, p: ValuePointer) {
    && s.flusher.Flusher? && q in s.flusher.snap && s.flusher.snap[q].current.None?
    && Lookup(s.tracker.raw, q) == Some(p) && p !in s.flusher.snap[q].toFree
  }

  /**
   Space is lost in two ways only: a crash leaks what is marked but not yet persisted, and writing a
   snapshot strands exactly the persisted pointers of points whose updates end in nothing without
   listing them.
   */
  lemma OnlyTheseStepsLoseSpace(c: Config, s: Store, a: Action)
    requires Inv(c, s) && Enabled(c, s, a)
    ensures Next(c, s, a).leaked <= s.leaked || a == Crash
    ensures forall p :: Stranded(Next(c, s, a), p) && !Stranded(s, p) <==>
              a == WritePending && exists q: PointOffset :: StrandedAt(s, q, p)
  {
    hide BlocksOk, OwnersOk, TrackerOk, EntriesOk, DiskOk, PhaseOk, OpOk, Image, StrandedAt, OwnersAfterWrite;
    if a == WritePending {
      assert Next(c, s, a).owner == OwnersAfterWrite(s);
      forall p ensures (exists q: PointOffset :: StrandedAt(s, q, p)) <==>
        p in OwnersAfterWrite(s) && OwnersAfterWrite(s)[p].Lost? && !Stranded(s, p)
      {
        WriteStrands(c, s, p);
      }
    } else {
      hide OwnersAfterWrite;
      OthersStrandNone(c, s, a);
    }
  }

  lemma OthersStrandNone(c: Config, s: Store, a: Action)
    requires Inv(c, s) && Enabled(c, s, a) && a != WritePending
    ensures forall p :: Stranded(Next(c, s, a), p) ==> Stranded(s, p)
  {
    hide BlocksOk, OwnersOk, TrackerOk, EntriesOk, DiskOk, PhaseOk, OpOk, Image;
  }

  lemma WriteStrands(c: Config, s: Store, p: ValuePointer)
    requires Inv(c, s) && s.flusher.Flusher? && s.flusher.phase == PagesFlushed
    ensures (exists q: PointOffset :: StrandedAt(s, q, p)) <==>
            p in OwnersAfterWrite(s) && OwnersAfterWrite(s)[p].Lost? && !Stranded(s, p)
  {
    hide StrandedAt, Inv, ReleasedPointers;
    if p in OwnersAfterWrite(s) && OwnersAfterWrite(s)[p].Lost? && !Stranded(s, p) {
      StrandedByWrite(c, s, p);
    }
    if q: PointOffset :| StrandedAt(s, q, p) {
      StrandedIsLost(c, s, q, p);
    }
  }

  /** The pointer that an empty one replaces without being listed is neither tracked nor released afterwards. */
  lemma StrandedIsLost(c: Config, s: Store, q: PointOffset, p: ValuePointer)
    requires Inv(c, s) && s.flusher.Flusher? && s.flusher.phase == PagesFlushed && StrandedAt(s, q, p)
    ensures p in s.owner && s.owner[p] == Tracked(q)
    ensures p in OwnersAfterWrite(s) && OwnersAfterWrite(s)[p] == Lost(q)
  {
    hide BlocksOk, EntriesOk, DiskOk, PhaseOk, OpOk, TrackerView.Write;
    StrandedIsDropped(s.tracker, s.owner, s.op, s.flusher, q, p);
  }

  lemma StrandedIsDropped(v: TrackerView, owner: Owners, op: Operation, f: Flusher, q: PointOffset, p: ValuePointer)
    requires TrackerOk(v, f) && BeforeWrite(f) && OwnersOk(v, owner, op, {})
    requires q in f.snap && f.snap[q].current.None? && Lookup(v.raw, q) == Some(p) && p !in f.snap[q].toFree
    ensures p in owner && owner[p] == Tracked(q)
    ensures !v.Write(f.snap).At(q).Mentions(p) && !v.Releases(f.snap, p)
  {
    hide TrackerView.Write, TrackerView.At, Slot.Mentions, Slot.Released;
    SlotDrops(v, f, q, p);
    assert owner[p] == Tracked(q);
    forall x: PointOffset | x in f.snap && x != q ensures p !in v.At(x).Released(f.snap[x]) {
      SlotAfterWrite(v, f, x, p);
      assert v.At(x).Mentions(p) ==> owner[p] == Tracked(x);
    }
  }

  lemma SlotDrops(v: TrackerView, f: Flusher, q: PointOffset, p: ValuePointer)
    requires TrackerOk(v, f) && BeforeWrite(f)
    requires q in f.snap && f.snap[q].current.None? && Lookup(v.raw, q) == Some(p) && p !in f.snap[q].toFree
    ensures v.At(q).Mentions(p) && !v.Write(f.snap).At(q).Mentions(p) && p !in v.At(q).Released(f.snap[q])
  {
    hide TrackerView.Write;
    assert v.At(q).raw == Some(p);
    assert v.At(q).Good() && v.At(q).Follows(f.snap[q]);
    WriteAt(v, f.snap, q);
    hide Slot.Write;
    WriteSplitsPointers(v.At(q), f.snap[q], p);
  }

  lemma StrandedByWrite(c: Config, s: Store, p: ValuePointer)
    requires Inv(c, s) && s.flusher.Flusher? && s.flusher.phase == PagesFlushed
    requires p in s.owner && !s.owner[p].Lost? && OwnersAfterWrite(s)[p].Lost?
    ensures StrandedAt(s, s.owner[p].point, p)
  {
    hide BlocksOk, EntriesOk, DiskOk, PhaseOk, OpOk;
    var v, f, q := s.tracker, s.flusher, s.owner[p].point;
    assert OwnerOk(v, p, s.owner[p], s.op, ReleasedBy(f));
    WriteAt(v, f.snap, q);
    assert q in f.snap;
    assert v.At(q).Good() && v.At(q).Follows(f.snap[q]);
    WriteSplitsPointers(v.At(q), f.snap[q], p);
  }

  /** Exact conservation fails: overwriting a persisted point and deleting it before the next flush strands it. */
  lemma OverwriteThenDeleteStrands(persisted: ValuePointer, newer: ValuePointer)
    requires persisted != newer
    ensures var s := Slot(Some(persisted), None).Set(newer).Unset();
            var snap := s.pending.value;
            && s.Good() && s.Follows(snap)
            && persisted !in s.Released(snap) && s.Write(snap) == Slot(None, None)
  {
    var s := Slot(Some(persisted), None).Set(newer).Unset();
    assert s.pending.value.toFree == [newer];
    assert s.pending.value.Drain(s.pending.value) == NO_UPDATES;
  }
}
