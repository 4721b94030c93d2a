/** Every step of the store keeps the invariant and is a step of the crash-tolerant map. */
module GridSteps {
  import opened Wrappers
  import opened PointerTracker
  import opened Layout
  import opened GridMachine
  import opened GridInvariant

  // ---------------------------------------------------------------------------------------
  // The steps of put
  // ---------------------------------------------------------------------------------------

  lemma GrowKeepsBlocks(c: Config, bits: seq<bool>, n: nat, ptrs: Pointers, leaked: set<nat>)
    requires c.blockBytes > 0 && BlocksOk(c, bits, ptrs, leaked)
    ensures BlocksOk(c, bits + seq(n, _ => false), ptrs, leaked)
  {
  }

  lemma GrowKeepsDurable(c: Config, a: Files, b: Files, blocks: nat, p: ValuePointer)
    requires c.blockBytes > 0 && c.Fits(p, blocks) && |a.diskBits| == blocks &&
               |a.bytes| == |a.diskBytes| == blocks * c.blockBytes
    requires a.bytes <= b.bytes && a.diskBits <= b.diskBits && a.diskBytes <= b.diskBytes
    requires Durable(c, a, p)
    ensures Durable(c, b, p)
  {
    BytesInBlocks(c, p, blocks);
  }

  lemma GrowKeepsFlushed(c: Config, a: Files, b: Files, blocks: nat, phase: Phase, after: Phase, p: ValuePointer)
    requires c.blockBytes > 0 && c.Fits(p, blocks) && |a.diskBits| == blocks &&
               |a.bytes| == |a.diskBytes| == blocks * c.blockBytes
    requires a.bytes <= b.bytes && a.diskBits <= b.diskBits && a.diskBytes <= b.diskBytes
    requires Flushed(c, a, phase, p)
    requires after == phase
      || (phase.FlushingBits? && after.FlushingBits? && forall i: nat :: i < |a.diskBits| && i in after.synced ==>
        i in phase.synced)
      || (phase.FlushingPages? && after.FlushingPages? && forall i: nat :: i < |a.bytes| && i in after.synced ==>
        i in phase.synced)
    ensures Flushed(c, b, after, p)
  {
    BytesInBlocks(c, p, blocks);
  }

  lemma BlocksFit(c: Config, bits: seq<bool>, ptrs: Pointers, leaked: set<nat>)
    requires c.blockBytes > 0 && BlocksOk(c, bits, ptrs, leaked)
    ensures forall p :: p in ptrs ==> c.Fits(p, |bits|)
  {
  }

  lemma GrowIsGood(c: Config, s: Store)
    requires Inv(c, s) && Enabled(c, s, Grow)
    ensures Good(c, s, Grow)
  {
    hide BlocksOk, OwnersOk, TrackerOk, EntriesOk, Image, LivePointers, InflightPointers, SameBytes, Flushed, Durable,
      Mark, Unmark, WrittenBack, WrittenBackMap, CleanMap, OwnersAfterWrite, OwnersAfterCrash,
      LeakedByCrash, ReleasedPointers, Splice, Read, TrackerView.Set, TrackerView.Unset, TrackerView.Write,
      TrackerView.Get;
    var t := Next(c, s, Grow);
    var n := c.PageBlocks();
    AllIsOwned(c, s);
    SumTimes(|s.bits|, n, c.blockBytes);
    hide Config.PageBlocks;
    BlocksFit(c, s.bits, s.owner.Keys, s.leaked);
    GrowKeepsBlocks(c, s.bits, n, s.owner.Keys, s.leaked);
    var a, b := FilesOf(s), FilesOf(t);
    forall p | p in s.owner.Keys
      ensures Durable(c, a, p) ==> Durable(c, b, p)
      ensures s.flusher.Flusher? && Flushed(c, a, s.flusher.phase, p) ==> Flushed(c, b, t.flusher.phase, p)
      ensures SameBytes(c, s.bytes, t.bytes, p)
    {
      if Durable(c, a, p) { GrowKeepsDurable(c, a, b, |s.bits|, p); }
      if s.flusher.Flusher? && Flushed(c, a, s.flusher.phase, p) {
        GrowKeepsFlushed(c, a, b, |s.bits|, s.flusher.phase, t.flusher.phase, p);
      }
      GrowKeepsBytes(c, s.bytes, t.bytes, p);
    }
    SameImages(c, s, t.bytes);
    assert InflightPointers(t.tracker, t.flusher) == InflightPointers(s.tracker, s.flusher) by {
      SameInflight(s.tracker, s.flusher, t.flusher);
    }
    SameEntries(s.tracker.raw, s.diskRaw, s.flusher, t.flusher);
    SameTracker(s.tracker, s.flusher, t.flusher);
  }

  lemma SumTimes(a: nat, b: nat, c: nat)
    ensures (a + b) * c == a * c + b * c
  {
  }

  lemma GrowKeepsBytes(c: Config, a: seq<Byte>, b: seq<Byte>, p: ValuePointer)
    requires c.blockBytes > 0 && a <= b
    ensures SameBytes(c, a, b, p)
  {
  }

  // A flusher that only moves on within the phases before, or after, it writes the tracker means the same.

  predicate SameSide(f: Flusher, g: Flusher) {
    f.Flusher? && g.Flusher? && f.snap == g.snap && BeforeWrite(f) == BeforeWrite(g)
  }

  lemma SameInflight(v: TrackerView, f: Flusher, g: Flusher)
    requires f == g || SameSide(f, g)
    ensures InflightPointers(v, f) == InflightPointers(v, g)
  {
  }

  lemma SameTracker(v: TrackerView, f: Flusher, g: Flusher)
    requires f == g || SameSide(f, g)
    ensures TrackerOk(v, f) == TrackerOk(v, g)
  {
  }

  lemma SameEntries(raw: PointerMap, diskRaw: PointerMap, f: Flusher, g: Flusher)
    requires f == g || (!SavingTracker(f) && !SavingTracker(g))
    ensures EntriesOk(raw, diskRaw, f) == EntriesOk(raw, diskRaw, g)
  {
  }

  lemma AllocateIsGood(c: Config, s: Store, q: PointOffset, v: Value, p: ValuePointer)
    requires Inv(c, s) && Enabled(c, s, Allocate(q, v, p))
    ensures Good(c, s, Allocate(q, v, p))
  {
    hide BlocksOk, TrackerOk, EntriesOk, DiskOk, PhaseOk, Image, LivePointers, SavedPointers, InflightPointers;
    var t := Next(c, s, Allocate(q, v, p));
    assert OwnersOk(t.tracker, t.owner, t.op, ReleasedBy(t.flusher));
  }

  lemma SpliceReads(c: Config, bytes: seq<Byte>, p: ValuePointer, v: Value)
    requires c.blockBytes > 0 && p.length == |v| && c.FirstByte(p) + |v| <= |bytes|
    ensures Read(c, Splice(bytes, c.FirstByte(p), v), p) == v
  {
  }

  lemma SpliceKeepsOthers(c: Config, bytes: seq<Byte>, p: ValuePointer, v: Value, r: ValuePointer, blocks: nat)
    requires c.blockBytes > 0 && p.length == |v| && c.FirstByte(p) + |v| <= |bytes|
    requires c.Fits(p, blocks) && c.Fits(r, blocks) && c.Apart(r, p)
    ensures SameBytes(c, bytes, Splice(bytes, c.FirstByte(p), v), r)
  {
    ApartInBytes(c, r, p, blocks);
  }

  lemma WriteKeepsDurable(c: Config, a: Files, b: Files, p: ValuePointer)
    requires c.blockBytes > 0 && |a.bytes| == |b.bytes| && a.diskBits == b.diskBits && a.diskBytes == b.diskBytes
    requires SameBytes(c, a.bytes, b.bytes, p)
    ensures Durable(c, a, p) ==> Durable(c, b, p)
    ensures forall phase :: Flushed(c, a, phase, p) ==> Flushed(c, b, phase, p)
  {
  }

  lemma WriteValueIsGood(c: Config, s: Store)
    requires Inv(c, s) && Enabled(c, s, WriteValue)
    ensures Good(c, s, WriteValue)
  {
    hide BlocksOk, TrackerOk, EntriesOk, Image, LivePointers, InflightPointers, SameBytes, Flushed, Durable;
    var t := Next(c, s, WriteValue);
    var p := s.op.pointer;
    AllIsOwned(c, s);
    BlocksFit(c, s.bits, s.owner.Keys, s.leaked);
    var a, b := FilesOf(s), FilesOf(t);
    forall r | r in s.owner.Keys
      ensures SameBytes(c, s.bytes, t.bytes, r)
      ensures Durable(c, a, r) ==> Durable(c, b, r)
      ensures forall phase :: Flushed(c, a, phase, r) ==> Flushed(c, b, phase, r)
    {
      FreeIsApart(c, s.bits, s.owner.Keys, s.leaked, r, p);
      SpliceKeepsOthers(c, s.bytes, p, s.op.value, r, |s.bits|);
      WriteKeepsDurable(c, a, b, r);
    }
    SpliceReads(c, s.bytes, p, s.op.value);
    SameImages(c, s, t.bytes);
    assert OwnersOk(t.tracker, t.owner, t.op, ReleasedBy(t.flusher));
  }

  lemma MarkKeepsBlocks(c: Config, bits: seq<bool>, ptrs: Pointers, leaked: set<nat>, p: ValuePointer)
    requires c.blockBytes > 0 && BlocksOk(c, bits, ptrs, leaked)
    requires c.Fits(p, |bits|) && AllFree(c, bits, p)
    ensures p !in ptrs && BlocksOk(c, Mark(c, bits, p), ptrs + {p}, leaked)
  {
    var after, more := Mark(c, bits, p), ptrs + {p};
    forall r | r in ptrs ensures r != p && c.Apart(r, p) {
      FreeIsApart(c, bits, ptrs, leaked, r, p);
    }
    forall b: nat | b < |after| && after[b] ensures b in leaked || exists r :: r in more && c.Covers(r, b) {
      if c.Covers(p, b) {
        assert p in more;
      } else if b !in leaked {
        var r :| r in ptrs && c.Covers(r, b);
        assert r in more;
      }
    }
  }

  /** What is durable stays so when owners only gain pointers or keep their points. */
  lemma MoreOwners(c: Config, files: Files, raw: PointerMap, owner: Owners, after: Owners, f: Flusher)
    requires c.blockBytes > 0 && DiskOk(c, files, raw, owner, f)
    requires forall p :: p in owner ==> p in after && after[p].point == owner[p].point
    ensures DiskOk(c, files, raw, after, f)
  {
  }

  lemma MarkUsedIsGood(c: Config, s: Store)
    requires Inv(c, s) && Enabled(c, s, MarkUsed)
    ensures Good(c, s, MarkUsed)
  {
    hide BlocksOk, TrackerOk, EntriesOk, Image, LivePointers, InflightPointers, PhaseOk, Durable;
    var t := Next(c, s, MarkUsed);
    MarkKeepsBlocks(c, s.bits, s.owner.Keys, s.leaked, s.op.pointer);
    assert t.owner.Keys == s.owner.Keys + {s.op.pointer};
    assert OwnersOk(t.tracker, t.owner, t.op, ReleasedBy(t.flusher));
    MoreOwners(c, FilesOf(s), s.tracker.raw, s.owner, t.owner, s.flusher);
  }

  /** Setting a pointer does not disturb what the flusher is about to write. */
  lemma SetKeepsTracker(v: TrackerView, f: Flusher, q: PointOffset, p: ValuePointer)
    requires TrackerOk(v, f) && !v.At(q).Mentions(p)
    ensures TrackerOk(v.Set(q, p), f)
    ensures InflightPointers(v.Set(q, p), f) == InflightPointers(v, f)
    ensures LivePointers(v.Set(q, p)) == LivePointers(v)[q := p]
    ensures v.Set(q, p).raw == v.raw
  {
    var w := v.Set(q, p);
    SetAt(v, q, p);
    assert v.At(q).Good();
    SetKeepsSlot(v.At(q), p);
    forall x: PointOffset ensures w.At(x).Good() && (BeforeWrite(f) && x in f.snap ==> w.At(x).Follows(f.snap[x])) {
      assert v.At(x).Good();
      if x != q { assert w.At(x) == v.At(x); }
    }
    forall x: PointOffset ensures Lookup(LivePointers(w), x) == Lookup(LivePointers(v)[q := p], x) {
      LiveLookup(v, x);
      LiveLookup(w, x);
      if x != q { assert w.At(x) == v.At(x); }
    }
    SameLookups(LivePointers(w), LivePointers(v)[q := p]);
  }

  lemma LiveLookup(v: TrackerView, q: PointOffset)
    ensures Lookup(LivePointers(v), q) == v.Get(q)
  {
  }

  lemma SetKeepsOwners(v: TrackerView, f: Flusher, owner: Owners, released: Pointers, q: PointOffset, w: Value,
                       p: ValuePointer)
    requires TrackerOk(v, f) && OwnersOk(v, owner, Marked(q, w, p), released)
    ensures !v.At(q).Mentions(p)
    ensures OwnersOk(v.Set(q, p), owner[p := Tracked(q)], Idle, released)
  {
    SetAt(v, q, p);
    assert v.At(q).Good();
    SetKeepsSlot(v.At(q), p);
    var after := owner[p := Tracked(q)];
    forall r | r in after ensures OwnerOk(v.Set(q, p), r, after[r], Idle, released) {
      if r != p {
        assert OwnerOk(v, r, owner[r], Marked(q, w, p), released);
        if owner[r].Tracked? && owner[r].point != q {
          assert v.Set(q, p).At(owner[r].point) == v.At(owner[r].point);
        }
      }
    }
    forall x: PointOffset, r | v.Set(q, p).At(x).Mentions(r) ensures r in after && after[r] == Tracked(x) {
      if x != q { assert v.Set(q, p).At(x) == v.At(x); }
      assert r == p || v.At(x).Mentions(r);
    }
  }

  lemma SetPointerIsGood(c: Config, s: Store)
    requires Inv(c, s) && Enabled(c, s, SetPointer)
    ensures Good(c, s, SetPointer)
  {
    hide BlocksOk, OwnersOk, TrackerOk, EntriesOk, LivePointers, InflightPointers, PhaseOk, Durable, DiskOk, Image,
      TrackerView.Set, TrackerView.Get;
    var t := Next(c, s, SetPointer);
    var Marked(q, v, p) := s.op;
    SetKeepsOwners(s.tracker, s.flusher, s.owner, ReleasedBy(s.flusher), q, v, p);
    SetKeepsTracker(s.tracker, s.flusher, q, p);
    LiveLookup(s.tracker, q);
    ImageSet(c, s.bytes, LivePointers(s.tracker), q, p);
    ImageKeys(c, s.bytes, LivePointers(s.tracker));
    MarkedIsOwned(s);
    assert t.owner.Keys == s.owner.Keys;
    MoreOwners(c, FilesOf(s), s.tracker.raw, s.owner, t.owner, s.flusher);
  }

  lemma MarkedIsOwned(s: Store)
    requires s.op.Marked? && OwnersOk(s.tracker, s.owner, s.op, ReleasedBy(s.flusher))
    ensures OwnedFor(s.owner, s.op.point, s.op.pointer)
  {
  }

  // ---------------------------------------------------------------------------------------
  // The steps of delete
  // ---------------------------------------------------------------------------------------

  lemma UnsetKeepsTracker(v: TrackerView, f: Flusher, q: PointOffset)
    requires TrackerOk(v, f) && v.Get(q).Some?
    ensures TrackerOk(v.Unset(q), f)
    ensures InflightPointers(v.Unset(q), f) == InflightPointers(v, f)
    ensures LivePointers(v.Unset(q)) == LivePointers(v) - {q}
    ensures v.Unset(q).raw == v.raw
  {
    var w := v.Unset(q);
    UnsetAt(v, q);
    assert v.At(q).Good();
    UnsetKeepsSlot(v.At(q));
    forall x: PointOffset ensures w.At(x).Good() && (BeforeWrite(f) && x in f.snap ==> w.At(x).Follows(f.snap[x])) {
      assert v.At(x).Good();
      if x != q { assert w.At(x) == v.At(x); }
    }
    forall x: PointOffset ensures Lookup(LivePointers(w), x) == Lookup(LivePointers(v) - {q}, x) {
      LiveLookup(v, x);
      LiveLookup(w, x);
      if x != q { assert w.At(x) == v.At(x); }
    }
    SameLookups(LivePointers(w), LivePointers(v) - {q});
  }

  lemma UnsetKeepsOwners(v: TrackerView, f: Flusher, owner: Owners, released: Pointers, q: PointOffset)
    requires TrackerOk(v, f) && v.Get(q).Some? && OwnersOk(v, owner, Idle, released)
    ensures OwnersOk(v.Unset(q), owner, Deleting(q, v.Get(q).value), released)
  {
    var op := Deleting(q, v.Get(q).value);
    UnsetAt(v, q);
    assert v.At(q).Good();
    UnsetKeepsSlot(v.At(q));
    assert forall x: PointOffset, p :: v.Unset(q).At(x).Mentions(p) <==> v.At(x).Mentions(p);
    forall p | p in owner ensures OwnerOk(v.Unset(q), p, owner[p], op, released) {
      assert OwnerOk(v, p, owner[p], Idle, released);
    }
  }

  lemma UnsetStartsDelete(c: Config, bits: seq<bool>, bytes: seq<Byte>, v: TrackerView, f: Flusher, q: PointOffset)
    requires c.blockBytes > 0 && TrackerOk(v, f) && v.Get(q).Some?
    ensures OpOk(c, bits, bytes, v.Unset(q), f, Deleting(q, v.Get(q).value))
  {
    UnsetAt(v, q);
    assert v.At(q).Good();
    UnsetKeepsSlot(v.At(q));
    if BeforeWrite(f) && q in f.snap {
      assert v.At(q).Follows(f.snap[q]);
    }
  }

  lemma BeginDeleteIsGood(c: Config, s: Store, q: PointOffset)
    requires Inv(c, s) && Enabled(c, s, BeginDelete(q))
    ensures Good(c, s, BeginDelete(q))
  {
    hide BlocksOk, OwnersOk, TrackerOk, EntriesOk, LivePointers, InflightPointers, PhaseOk, DiskOk, Image, OpOk,
      TrackerView.Unset, TrackerView.Get;
    var v := s.tracker;
    LiveLookup(v, q);
    ImageRemove(c, s.bytes, LivePointers(v), q);
    if v.Get(q).Some? {
      UnsetKeepsTracker(v, s.flusher, q);
      UnsetKeepsOwners(v, s.flusher, s.owner, ReleasedBy(s.flusher), q);
      UnsetStartsDelete(c, s.bits, s.bytes, v, s.flusher, q);
    }
  }

  lemma EndDeleteIsGood(c: Config, s: Store)
    requires Inv(c, s) && Enabled(c, s, EndDelete)
    ensures Good(c, s, EndDelete)
  {
    hide BlocksOk, TrackerOk, EntriesOk, LivePointers, InflightPointers, PhaseOk, DiskOk, Image;
    var t := Next(c, s, EndDelete);
    assert OwnersOk(t.tracker, t.owner, t.op, ReleasedBy(t.flusher));
  }

  lemma ImageRemove(c: Config, bytes: seq<Byte>, m: PointerMap, q: PointOffset)
    requires c.blockBytes > 0
    ensures Image(c, bytes, m).Keys == m.Keys
    ensures Image(c, bytes, m - {q}) == Image(c, bytes, m) - {q}
    ensures q in m ==> Image(c, bytes, m)[q] == Read(c, bytes, m[q])
  {
  }

  lemma ImageSet(c: Config, bytes: seq<Byte>, m: PointerMap, q: PointOffset, p: ValuePointer)
    requires c.blockBytes > 0
    ensures Image(c, bytes, m[q := p]) == Image(c, bytes, m)[q := Read(c, bytes, p)]
  {
  }

  lemma ImageKeys(c: Config, bytes: seq<Byte>, m: PointerMap)
    requires c.blockBytes > 0
    ensures Image(c, bytes, m).Keys == m.Keys
  {
  }
}
