/** The flusher's steps, the kernel's write-backs and the crash keep the invariant and refine the map. */
module GridFlush {
  import opened Wrappers
  import opened PointerTracker
  import opened Layout
  import opened CrashMap
  import opened GridMachine
  import opened GridInvariant
  import opened GridSteps

  // ---------------------------------------------------------------------------------------
  // Creating and dropping a flusher
  // ---------------------------------------------------------------------------------------

  lemma SnapshotIsLive(v: TrackerView)
    requires v.Good()
    ensures InflightPointers(v, Flusher(v.pending, Created)) == LivePointers(v)
  {
    var m := InflightPointers(v, Flusher(v.pending, Created));
    forall q: PointOffset ensures Lookup(m, q) == Lookup(LivePointers(v), q) {
      LiveLookup(v, q);
      assert v.At(q).Good();
    }
    SameLookups(m, LivePointers(v));
  }

  lemma CreateKeepsTracker(v: TrackerView, f: Flusher)
    requires TrackerOk(v, f)
    ensures TrackerOk(v, Flusher(v.pending, Created))
    ensures InflightPointers(v, Flusher(v.pending, Created)) == LivePointers(v)
  {
    SnapshotFollowsItself(v);
    SnapshotIsLive(v);
  }

  lemma CreateFlusherIsGood(c: Config, s: Store)
    requires Inv(c, s) && Enabled(c, s, CreateFlusher)
    ensures Good(c, s, CreateFlusher)
  {
    hide BlocksOk, OwnersOk, TrackerOk, EntriesOk, LivePointers, InflightPointers, DiskOk, Image;
    CreateKeepsTracker(s.tracker, s.flusher);
    SameEntries(s.tracker.raw, s.diskRaw, s.flusher, Next(c, s, CreateFlusher).flusher);
    SameDisk(c, FilesOf(s), s.tracker.raw, s.owner, s.flusher, Next(c, s, CreateFlusher).flusher);
  }

  lemma SameDisk(c: Config, files: Files, raw: PointerMap, owner: Owners, f: Flusher, g: Flusher)
    requires c.blockBytes > 0 && (SavedPointers(raw, f) == SavedPointers(raw, g) || SavedPointers(raw, g) == raw)
    ensures DiskOk(c, files, raw, owner, f) ==> DiskOk(c, files, raw, owner, g)
  {
  }

  /** A flusher that has not reached the tracker, or is done with it, may stop: nothing depends on it. */
  lemma StopKeepsTracker(v: TrackerView, f: Flusher, g: Flusher)
    requires TrackerOk(v, f) && !BeforeWrite(g)
    ensures TrackerOk(v, g)
  {
  }

  lemma StopIsGood(c: Config, s: Store, a: Action)
    requires a == DropFlusher || a == EndFlushFreed
    requires Inv(c, s) && Enabled(c, s, a)
    ensures Good(c, s, a)
  {
    hide BlocksOk, OwnersOk, TrackerOk, EntriesOk, LivePointers, InflightPointers, DiskOk, Image;
    StopKeepsTracker(s.tracker, s.flusher, NoFlusher);
    SameEntries(s.tracker.raw, s.diskRaw, s.flusher, NoFlusher);
    SameDisk(c, FilesOf(s), s.tracker.raw, s.owner, s.flusher, NoFlusher);
  }

  // ---------------------------------------------------------------------------------------
  // Flushing the bitmask and the pages
  // ---------------------------------------------------------------------------------------

  predicate FlushesFiles(a: Action) {
    a == BeginFlushBits || a == EndFlushBits || a == BeginFlushPages || a == EndFlushPages
  }

  lemma FlushMovesOn(c: Config, s: Store, a: Action, p: ValuePointer)
    requires c.Valid() && Sized(c, s) && FlushesFiles(a) && Enabled(c, s, a)
    requires c.Fits(p, |s.bits|) && AllUsed(c, s.bits, p) && Flushed(c, FilesOf(s), s.flusher.phase, p)
    ensures Flushed(c, FilesOf(s), Next(c, s, a).flusher.phase, p)
  {
    BytesInBlocks(c, p, |s.bits|);
  }

  lemma BlocksUsed(c: Config, bits: seq<bool>, ptrs: Pointers, leaked: set<nat>)
    requires c.blockBytes > 0 && BlocksOk(c, bits, ptrs, leaked)
    ensures forall p :: p in ptrs ==> c.Fits(p, |bits|) && AllUsed(c, bits, p)
  {
  }

  lemma FlushFilesIsGood(c: Config, s: Store, a: Action)
    requires FlushesFiles(a)
    requires Inv(c, s) && Enabled(c, s, a)
    ensures Good(c, s, a)
  {
    hide BlocksOk, OwnersOk, TrackerOk, EntriesOk, LivePointers, InflightPointers, DiskOk, Image, Flushed, AllUsed,
      Clean,
      Mark, Unmark, WrittenBack, WrittenBackMap, CleanMap, OwnersAfterWrite, OwnersAfterCrash,
      LeakedByCrash, ReleasedPointers, Splice, Read, TrackerView.Set, TrackerView.Unset, TrackerView.Write,
      TrackerView.Get;
    var t := Next(c, s, a);
    AllIsOwned(c, s);
    BlocksUsed(c, s.bits, s.owner.Keys, s.leaked);
    SameInflight(s.tracker, s.flusher, t.flusher);
    SameTracker(s.tracker, s.flusher, t.flusher);
    SameEntries(s.tracker.raw, s.diskRaw, s.flusher, t.flusher);
    SameDisk(c, FilesOf(s), s.tracker.raw, s.owner, s.flusher, t.flusher);
    var m := InflightPointers(s.tracker, s.flusher);
    forall q | q in m ensures Flushed(c, FilesOf(t), t.flusher.phase, m[q]) {
      FlushMovesOn(c, s, a, m[q]);
    }
  }

  // ---------------------------------------------------------------------------------------
  // The kernel
  // ---------------------------------------------------------------------------------------

  lemma WriteBackBitsKeeps(c: Config, s: Store, which: set<nat>, p: ValuePointer)
    requires c.Valid() && Sized(c, s) && c.Fits(p, |s.bits|) && AllUsed(c, s.bits, p)
    ensures var t := Next(c, s, WriteBackBits(which));
            && (Durable(c, FilesOf(s), p) ==> Durable(c, FilesOf(t), p))
            && (s.flusher.Flusher? && Flushed(c, FilesOf(s), s.flusher.phase, p) ==>
                  Flushed(c, FilesOf(t), t.flusher.phase, p))
  {
  }

  lemma WriteBackBytesKeeps(c: Config, s: Store, which: set<nat>, p: ValuePointer)
    requires c.Valid() && Sized(c, s)
    ensures var t := Next(c, s, WriteBackBytes(which));
            && (Durable(c, FilesOf(s), p) ==> Durable(c, FilesOf(t), p))
            && (s.flusher.Flusher? && Flushed(c, FilesOf(s), s.flusher.phase, p) ==>
                  Flushed(c, FilesOf(t), t.flusher.phase, p))
  {
  }

  /** If every owned pointer keeps its standing, so does everything that is said of the disk. */
  lemma FilesKept(c: Config, s: Store, t: Store)
    requires Inv(c, s) && t.tracker == s.tracker && t.owner == s.owner
    requires s.flusher == t.flusher || SameSide(s.flusher, t.flusher)
    requires SavingTracker(t.flusher) ==> s.flusher == t.flusher
    requires SavingTracker(s.flusher) ==> s.flusher == t.flusher
    requires forall p :: p in s.owner.Keys ==> (Durable(c, FilesOf(s), p) ==> Durable(c, FilesOf(t), p))
    requires forall p :: p in s.owner.Keys && s.flusher.Flusher? && Flushed(c, FilesOf(s), s.flusher.phase, p) ==>
                Flushed(c, FilesOf(t), t.flusher.phase, p)
    ensures DiskOk(c, FilesOf(t), t.tracker.raw, t.owner, t.flusher)
    ensures PhaseOk(c, FilesOf(t), t.flusher, InflightPointers(t.tracker, t.flusher))
  {
    hide BlocksOk, OwnersOk, TrackerOk, EntriesOk, LivePointers, InflightPointers, Flushed, Durable, OpOk, FilesOf,
      Sized;
    AllIsOwned(c, s);
    SameInflight(s.tracker, s.flusher, t.flusher);
  }

  lemma WriteBackFileIsGood(c: Config, s: Store, a: Action)
    requires a.WriteBackBits? || a.WriteBackBytes?
    requires Inv(c, s) && Enabled(c, s, a)
    ensures Good(c, s, a)
  {
    hide BlocksOk, OwnersOk, TrackerOk, EntriesOk, LivePointers, InflightPointers, Image, Flushed, Durable, AllUsed,
      WrittenBack, DiskOk, PhaseOk;
    var t := Next(c, s, a);
    BlocksUsed(c, s.bits, s.owner.Keys, s.leaked);
    forall p | p in s.owner.Keys
      ensures Durable(c, FilesOf(s), p) ==> Durable(c, FilesOf(t), p)
      ensures s.flusher.Flusher? && Flushed(c, FilesOf(s), s.flusher.phase, p) ==>
                Flushed(c, FilesOf(t), t.flusher.phase, p)
    {
      if a.WriteBackBits? { WriteBackBitsKeeps(c, s, a.addresses, p); }
      else { WriteBackBytesKeeps(c, s, a.addresses, p); }
    }
    FilesKept(c, s, t);
    SameInflight(s.tracker, s.flusher, t.flusher);
    SameTracker(s.tracker, s.flusher, t.flusher);
    SameEntries(s.tracker.raw, s.diskRaw, s.flusher, t.flusher);
  }

  lemma WriteBackTrackerKeeps(raw: PointerMap, diskRaw: PointerMap, f: Flusher, g: Flusher, which: set<nat>)
    requires EntriesOk(raw, diskRaw, f)
    requires g == if SavingTracker(f) then f.(phase := f.phase.(synced := f.phase.synced + which)) else f
    ensures EntriesOk(raw, WrittenBackMap(raw, diskRaw, which), g)
  {
    var after := WrittenBackMap(raw, diskRaw, which);
    assert forall q: PointOffset :: Lookup(after, q) == if q in which then Lookup(raw, q) else Lookup(diskRaw, q);
  }

  lemma WriteBackTrackerIsGood(c: Config, s: Store, which: set<nat>)
    requires Inv(c, s) && Enabled(c, s, WriteBackTracker(which))
    ensures Good(c, s, WriteBackTracker(which))
  {
    hide BlocksOk, OwnersOk, TrackerOk, EntriesOk, LivePointers, InflightPointers, Image, DiskOk, WrittenBackMap, OpOk;
    var t := Next(c, s, WriteBackTracker(which));
    WriteBackTrackerKeeps(s.tracker.raw, s.diskRaw, s.flusher, t.flusher, which);
    SameInflight(s.tracker, s.flusher, t.flusher);
    SameTracker(s.tracker, s.flusher, t.flusher);
    SameDisk(c, FilesOf(s), s.tracker.raw, s.owner, s.flusher, t.flusher);
    SameOp(c, s.bits, s.bytes, s.tracker, s.flusher, t.flusher, s.op);
  }

  lemma SameOp(c: Config, bits: seq<bool>, bytes: seq<Byte>, v: TrackerView, f: Flusher, g: Flusher, op: Operation)
    requires c.blockBytes > 0 && (f == g || SameSide(f, g) || !BeforeWrite(g))
    ensures OpOk(c, bits, bytes, v, f, op) ==> OpOk(c, bits, bytes, v, g, op)
  {
  }

  // ---------------------------------------------------------------------------------------
  // Writing the tracker
  // ---------------------------------------------------------------------------------------

  lemma SlotAfterWrite(v: TrackerView, f: Flusher, q: PointOffset, p: ValuePointer)
    requires TrackerOk(v, f) && BeforeWrite(f)
    ensures v.Write(f.snap).At(q).Mentions(p) ==> v.At(q).Mentions(p)
    ensures q in f.snap && p in v.At(q).Released(f.snap[q]) ==>
              v.At(q).Mentions(p) && !v.Write(f.snap).At(q).Mentions(p)
  {
    WriteAt(v, f.snap, q);
    assert v.At(q).Good();
    if q in f.snap {
      assert v.At(q).Follows(f.snap[q]);
      WriteSplitsPointers(v.At(q), f.snap[q], p);
    }
  }

  /** The owner of a tracked pointer after the write depends on where the write leaves it. */
  lemma OwnerAfterWrite(s: Store, q: PointOffset, p: ValuePointer)
    requires BeforeWrite(s.flusher) && TrackerOk(s.tracker, s.flusher)
    requires p in s.owner && s.owner[p] == Tracked(q)
    ensures var v, snap := s.tracker, s.flusher.snap;
            var o := OwnersAfterWrite(s)[p];
            && (v.Write(snap).At(q).Mentions(p) ==> o == Tracked(q))
            && (p in ReleasedPointers(v, snap) && !v.Write(snap).At(q).Mentions(p) ==> o == Releasing(q))
            && (o.Tracked? ==> v.Write(snap).At(q).Mentions(p))
            && (o.Releasing? ==> p in ReleasedPointers(v, snap))
  {
    hide TrackerView.Write, Slot.Mentions, Slot.Released, TrackerOk;
  }

  lemma ReleasedIsTracked(s: Store, p: ValuePointer) returns (q: PointOffset)
    requires BeforeWrite(s.flusher) && TrackerOk(s.tracker, s.flusher)
    requires OwnersOk(s.tracker, s.owner, s.op, {})
    requires p in ReleasedPointers(s.tracker, s.flusher.snap)
    ensures p in s.owner && s.owner[p] == Tracked(q) && !s.tracker.Write(s.flusher.snap).At(q).Mentions(p)
  {
    hide TrackerView.Write, TrackerView.At, Slot.Mentions, Slot.Released, TrackerOk;
    q :| q in s.flusher.snap && p in s.tracker.At(q).Released(s.flusher.snap[q]);
    SlotAfterWrite(s.tracker, s.flusher, q, p);
  }

  lemma WriteKeepsOwners(s: Store)
    requires BeforeWrite(s.flusher) && TrackerOk(s.tracker, s.flusher)
    requires OwnersOk(s.tracker, s.owner, s.op, {})
    ensures OwnersOk(s.tracker.Write(s.flusher.snap), OwnersAfterWrite(s), s.op,
                     ReleasedPointers(s.tracker, s.flusher.snap))
    ensures OwnersAfterWrite(s).Keys == s.owner.Keys
    ensures forall p :: p in s.owner ==> OwnersAfterWrite(s)[p].point == s.owner[p].point
  {
    var v, snap := s.tracker, s.flusher.snap;
    var w, owner, released := v.Write(snap), OwnersAfterWrite(s), ReleasedPointers(v, snap);
    UntrackedKeepOwner(s);
    hide TrackerView.Write, TrackerView.At, Slot.Mentions, Slot.Released, TrackerOk, OwnersAfterWrite, ReleasedPointers;
    forall q: PointOffset, p | w.At(q).Mentions(p) ensures p in owner && owner[p] == Tracked(q) {
      SlotAfterWrite(v, s.flusher, q, p);
      OwnerAfterWrite(s, q, p);
    }
    forall p | p in owner ensures OwnerOk(w, p, owner[p], s.op, released) {
      assert OwnerOk(v, p, s.owner[p], s.op, {});
      if s.owner[p].Tracked? { OwnerAfterWrite(s, s.owner[p].point, p); }
    }
    forall p | p in released ensures p in owner && owner[p].Releasing? {
      var q := ReleasedIsTracked(s, p);
      OwnerAfterWrite(s, q, p);
    }
  }

  lemma UntrackedKeepOwner(s: Store)
    requires s.flusher.Flusher?
    ensures OwnersAfterWrite(s).Keys == s.owner.Keys
    ensures forall p :: p in s.owner ==> OwnersAfterWrite(s)[p].point == s.owner[p].point
    ensures forall p :: p in s.owner && !s.owner[p].Tracked? ==> OwnersAfterWrite(s)[p] == s.owner[p]
  {
    hide TrackerView.Write, TrackerView.At, Slot.Mentions, Slot.Released;
  }

  lemma WriteKeepsTracker(v: TrackerView, f: Flusher, g: Flusher)
    requires TrackerOk(v, f) && BeforeWrite(f) && !BeforeWrite(g)
    ensures TrackerOk(v.Write(f.snap), g)
    ensures LivePointers(v.Write(f.snap)) == LivePointers(v)
    ensures InflightPointers(v.Write(f.snap), g) == v.Write(f.snap).raw == InflightPointers(v, f)
  {
    WriteIsInvisible(v, f.snap);
    var w := v.Write(f.snap);
    forall q: PointOffset ensures Lookup(LivePointers(w), q) == Lookup(LivePointers(v), q) {
      LiveLookup(v, q);
      LiveLookup(w, q);
    }
    SameLookups(LivePointers(w), LivePointers(v));
  }

  lemma WriteKeepsOp(c: Config, bits: seq<bool>, bytes: seq<Byte>, v: TrackerView, f: Flusher, g: Flusher,
                     op: Operation)
    requires c.blockBytes > 0 && TrackerOk(v, f) && BeforeWrite(f) && !BeforeWrite(g)
    requires OpOk(c, bits, bytes, v, f, op)
    ensures OpOk(c, bits, bytes, v.Write(f.snap), g, op)
  {
    if op.Deleting? {
      var q := op.point;
      WriteAt(v, f.snap, q);
      assert v.At(q).Good();
      if q in f.snap {
        var snap, latest := f.snap[q], v.At(q).pending.value;
        assert v.At(q).Follows(snap);
        assert latest.toFree == snap.toFree + latest.toFree[|snap.toFree|..];
        DrainLeavesTheRest(v.At(q), snap);
      }
    }
  }

  lemma WriteKeepsDisk(c: Config, files: Files, v: TrackerView, owner: Owners, after: Owners, f: Flusher, g: Flusher,
                       op: Operation)
    requires c.blockBytes > 0 && TrackerOk(v, f) && f.Flusher? && f.phase == PagesFlushed
    requires SavingTracker(g) && g.phase.before == v.raw
    requires DiskOk(c, files, v.raw, owner, f) && PhaseOk(c, files, f, InflightPointers(v, f))
    requires OwnersOk(v, owner, op, {})
    requires forall p :: p in owner ==> p in after && after[p].point == owner[p].point
    ensures DiskOk(c, files, v.Write(f.snap).raw, after, g)
  {
    var m := InflightPointers(v, f);
    hide Durable, TrackerOk;
    assert m == v.Write(f.snap).raw;
    forall q | q in m ensures OwnedFor(after, q, m[q]) && Durable(c, files, m[q]) {
      InflightIsTracked(v, f, q);
      assert Flushed(c, files, f.phase, m[q]);
    }
  }

  lemma WriteKeepsEntries(raw: PointerMap, diskRaw: PointerMap, after: PointerMap, f: Flusher, g: Flusher)
    requires EntriesOk(raw, diskRaw, f) && !SavingTracker(f)
    requires SavingTracker(g) && g.phase.before == raw && g.phase.synced == CleanMap(after, diskRaw)
    ensures EntriesOk(after, diskRaw, g)
  {
  }

  lemma WritePendingIsGood(c: Config, s: Store)
    requires Inv(c, s) && Enabled(c, s, WritePending)
    ensures Good(c, s, WritePending)
  {
    hide BlocksOk, OwnersOk, TrackerOk, EntriesOk, LivePointers, InflightPointers, Image, DiskOk, OpOk,
      TrackerView.Write, OwnersAfterWrite, ReleasedPointers, CleanMap;
    var t := Next(c, s, WritePending);
    WriteKeepsOwners(s);
    WriteKeepsTracker(s.tracker, s.flusher, t.flusher);
    WriteKeepsOp(c, s.bits, s.bytes, s.tracker, s.flusher, t.flusher, s.op);
    WriteKeepsDisk(c, FilesOf(s), s.tracker, s.owner, t.owner, s.flusher, t.flusher, s.op);
    WriteKeepsEntries(s.tracker.raw, s.diskRaw, t.tracker.raw, s.flusher, t.flusher);
  }

  lemma FlushedTrackerIsOnDisk(raw: PointerMap, diskRaw: PointerMap, f: Flusher, g: Flusher)
    requires EntriesOk(raw, diskRaw, f) && SavingTracker(f) && raw.Keys + diskRaw.Keys <= f.phase.synced
    ensures EntriesOk(raw, diskRaw, g)
  {
    forall q: PointOffset ensures Lookup(diskRaw, q) == Lookup(raw, q) {
      if q in raw.Keys + diskRaw.Keys { assert q in f.phase.synced; }
    }
  }

  lemma EndFlushTrackerIsGood(c: Config, s: Store)
    requires Inv(c, s) && Enabled(c, s, EndFlushTracker)
    ensures Good(c, s, EndFlushTracker)
  {
    hide BlocksOk, OwnersOk, TrackerOk, EntriesOk, LivePointers, Image, DiskOk, OpOk, TrackerView.Write;
    var t := Next(c, s, EndFlushTracker);
    FlushedTrackerIsOnDisk(s.tracker.raw, s.diskRaw, s.flusher, t.flusher);
    SameDisk(c, FilesOf(s), s.tracker.raw, s.owner, s.flusher, t.flusher);
    SameOp(c, s.bits, s.bytes, s.tracker, s.flusher, t.flusher, s.op);
    StopKeepsTracker(s.tracker, s.flusher, t.flusher);
  }

  // ---------------------------------------------------------------------------------------
  // Freeing the old blocks
  // ---------------------------------------------------------------------------------------

  lemma UnmarkKeepsBlocks(c: Config, bits: seq<bool>, ptrs: Pointers, leaked: set<nat>, released: Pointers)
    requires c.blockBytes > 0 && BlocksOk(c, bits, ptrs, leaked) && released <= ptrs
    ensures BlocksOk(c, Unmark(c, bits, released), ptrs - released, leaked)
  {
    var after, left := Unmark(c, bits, released), ptrs - released;
    forall p | p in left ensures AllUsed(c, after, p) {
      forall b: nat | c.Covers(p, b) && b < |after| ensures after[b] {
        forall r | r in released ensures !c.Covers(r, b) {
          assert c.Apart(p, r);
        }
      }
    }
    forall b: nat | b < |after| && after[b] ensures b in leaked || exists p :: p in left && c.Covers(p, b) {
      if b !in leaked {
        var p :| p in ptrs && c.Covers(p, b);
        assert p in left;
      }
    }
  }

  lemma FreeKeepsOwners(v: TrackerView, owner: Owners, op: Operation, released: Pointers)
    requires OwnersOk(v, owner, op, released)
    ensures released <= owner.Keys
    ensures OwnersOk(v, owner - released, op, {})
  {
    var after := owner - released;
    forall p | p in after ensures OwnerOk(v, p, after[p], op, {}) {
      assert OwnerOk(v, p, owner[p], op, released);
    }
  }

  lemma FreeKeepsDisk(c: Config, files: Files, v: TrackerView, owner: Owners, op: Operation, f: Flusher, g: Flusher)
    requires c.blockBytes > 0 && DiskOk(c, files, v.raw, owner, f) && OwnersOk(v, owner, op, ReleasedBy(f))
    requires SavedPointers(v.raw, g) == v.raw
    ensures DiskOk(c, files, v.raw, owner - ReleasedBy(f), g)
  {
    forall q | q in v.raw ensures OwnedFor(owner - ReleasedBy(f), q, v.raw[q]) {
      assert v.At(q).Mentions(v.raw[q]);
    }
  }

  lemma FreeKeepsOp(c: Config, s: Store, released: Pointers, g: Flusher)
    requires c.blockBytes > 0 && OpOk(c, s.bits, s.bytes, s.tracker, s.flusher, s.op) && !BeforeWrite(g)
    ensures OpOk(c, Unmark(c, s.bits, released), s.bytes, s.tracker, g, s.op)
  {
  }

  lemma FreeBlocksIsGood(c: Config, s: Store)
    requires Inv(c, s) && Enabled(c, s, FreeBlocks)
    ensures Good(c, s, FreeBlocks)
  {
    hide BlocksOk, OwnersOk, TrackerOk, EntriesOk, LivePointers, Image, DiskOk, OpOk, TrackerView.Write, Unmark;
    var t := Next(c, s, FreeBlocks);
    var released := s.flusher.phase.released;
    FreeKeepsOwners(s.tracker, s.owner, s.op, released);
    UnmarkKeepsBlocks(c, s.bits, s.owner.Keys, s.leaked, released);
    assert t.owner.Keys == s.owner.Keys - released;
    FreeKeepsDisk(c, FilesOf(s), s.tracker, s.owner, s.op, s.flusher, t.flusher);
    FreeKeepsOp(c, s, released, t.flusher);
    SameEntries(s.tracker.raw, s.diskRaw, s.flusher, t.flusher);
    SameTracker(s.tracker, s.flusher, t.flusher);
  }

  // ---------------------------------------------------------------------------------------
  // Crash
  // ---------------------------------------------------------------------------------------

  /** Every pointer on disk is owned for its point, durable, and named by no other point. */
  lemma DiskIsDurable(c: Config, s: Store)
    requires Inv(c, s)
    ensures DurableMap(c, FilesOf(s), s.owner, s.diskRaw)
  {
    hide BlocksOk, OwnersOk, TrackerOk, PhaseOk, OpOk, Durable;
    forall q | q in s.diskRaw ensures OwnedFor(s.owner, q, s.diskRaw[q]) && Durable(c, FilesOf(s), s.diskRaw[q]) {
      assert Lookup(s.diskRaw, q) == Some(s.diskRaw[q]);
    }
  }

  lemma CrashKeepsBlocks(c: Config, s: Store)
    requires c.Valid() && Sized(c, s) && BlocksOk(c, s.bits, s.owner.Keys, s.leaked)
    requires DurableMap(c, FilesOf(s), s.owner, s.diskRaw)
    ensures BlocksOk(c, s.diskBits, OwnersAfterCrash(s).Keys, LeakedByCrash(c, s))
  {
    var after := OwnersAfterCrash(s);
    forall p | p in after.Keys ensures p in s.owner.Keys && AllUsed(c, s.diskBits, p) {
      assert s.diskRaw[s.owner[p].point] == p;
    }
    forall b: nat | b < |s.diskBits| && s.diskBits[b]
      ensures b in LeakedByCrash(c, s) || exists p :: p in after.Keys && c.Covers(p, b)
    {
      if b !in LeakedByCrash(c, s) {
        var p :| p in after && c.Covers(p, b);
        assert p in after.Keys;
      }
    }
  }

  lemma CrashKeepsOwners(c: Config, s: Store)
    requires c.blockBytes > 0 && DurableMap(c, FilesOf(s), s.owner, s.diskRaw)
    ensures OwnersOk(TrackerView(s.diskRaw, map[]), OwnersAfterCrash(s), Idle, {})
    ensures forall q :: q in s.diskRaw ==> OwnedFor(OwnersAfterCrash(s), q, s.diskRaw[q])
  {
    hide Durable;
    var v, after := TrackerView(s.diskRaw, map[]), OwnersAfterCrash(s);
    forall q: PointOffset, p | v.At(q).Mentions(p) ensures p in after && after[p] == Tracked(q) {
      assert q in s.diskRaw && s.diskRaw[q] == p;
    }
  }

  lemma CrashKeepsDisk(c: Config, files: Files, owner: Owners, diskRaw: PointerMap, after: Owners)
    requires c.blockBytes > 0 && DurableMap(c, files, owner, diskRaw)
    requires forall q :: q in diskRaw ==> OwnedFor(after, q, diskRaw[q])
    ensures DiskOk(c, Files(files.diskBytes, files.diskBits, files.diskBytes), diskRaw, after, NoFlusher)
  {
  }

  lemma CrashLive(diskRaw: PointerMap)
    ensures LivePointers(TrackerView(diskRaw, map[])) == diskRaw
  {
  }

  lemma ImageOnDisk(c: Config, s: Store)
    requires Inv(c, s)
    ensures Image(c, s.diskBytes, s.diskRaw) == Image(c, s.bytes, s.diskRaw)
  {
    hide BlocksOk, OwnersOk, TrackerOk, PhaseOk, OpOk, DiskOk, EntriesOk, InflightPointers, LivePointers, SavedPointers;
    AllIsOwned(c, s);
    DiskIsDurable(c, s);
    BlocksFit(c, s.bits, s.owner.Keys, s.leaked);
    SameImage(c, |s.bits|, s.bytes, s.diskBytes, s.diskRaw);
  }

  lemma ImageLookup(c: Config, bytes: seq<Byte>, m: PointerMap, n: PointerMap, q: PointOffset)
    requires c.blockBytes > 0 && Lookup(m, q) == Lookup(n, q)
    ensures Lookup(Image(c, bytes, m), q) == Lookup(Image(c, bytes, n), q)
  {
  }

  /** What is read back after a crash is, point by point, what a flush saved or is saving. */
  lemma CrashRecovers(c: Config, s: Store)
    requires Inv(c, s)
    ensures SpecStep(Abs(c, s), Recover(Image(c, s.diskBytes, s.diskRaw)), Abs(c, Next(c, s, Crash)))
  {
    hide BlocksOk, OwnersOk, TrackerOk, PhaseOk, OpOk, DiskOk, LivePointers, Image, OwnersAfterCrash, LeakedByCrash;
    ImageOnDisk(c, s);
    CrashLive(s.diskRaw);
    var raw, saved := s.tracker.raw, SavedPointers(s.tracker.raw, s.flusher);
    var m, a := Image(c, s.diskBytes, s.diskRaw), Abs(c, s);
    forall q: PointOffset
      ensures Lookup(m, q) == Lookup(a.saved, q) || (a.saving && Lookup(m, q) == Lookup(a.inflight.value, q))
    {
      if Lookup(s.diskRaw, q) == Lookup(raw, q) {
        ImageLookup(c, s.bytes, s.diskRaw, raw, q);
      } else {
        ImageLookup(c, s.bytes, s.diskRaw, saved, q);
      }
    }
  }

  lemma CrashIsGood(c: Config, s: Store)
    requires Inv(c, s) && Enabled(c, s, Crash)
    ensures Good(c, s, Crash)
  {
    hide BlocksOk, OwnersOk, DiskOk, SpecStep, Abs, OwnersAfterCrash, LeakedByCrash, LivePointers, PhaseOk;
    DiskIsDurable(c, s);
    CrashKeepsBlocks(c, s);
    CrashKeepsOwners(c, s);
    CrashKeepsDisk(c, FilesOf(s), s.owner, s.diskRaw, OwnersAfterCrash(s));
    CrashRecovers(c, s);
    CrashPhase(c, s);
  }

  lemma CrashPhase(c: Config, s: Store)
    requires c.Valid() && Sized(c, s)
    ensures var t := Next(c, s, Crash); PhaseOk(c, FilesOf(t), t.flusher, InflightPointers(t.tracker, t.flusher))
  {
  }
}
