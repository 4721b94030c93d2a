/** The store: a map from points to values, put together from the tracker, the bitmask and the pages. */
module Gridstore {
  import opened Wrappers
  import opened PointerTracker
  import opened Layout
  import opened BitRuns
  import opened GapIndex
  import opened BlockBitmask
  import opened PagedStore
  import opened CrashMap
  import opened GridMachine
  import opened GridInvariant
  import opened GridRefinement
  import opened GridSteps
  import opened GridTrace
  import opened Allocation

  /** Turning a value into bytes and compressing them, and the way back. */
  datatype Codec<!V> = Codec(toBytes: V -> Value, fromBytes: Value -> V, compress: Value -> Value,
                             decompress: Value -> Value) {
    function Encode(v: V): Value {
      compress(toBytes(v))
    }

    function Decode(bytes: Value): V {
      fromBytes(decompress(bytes))
    }
  }

  /** Values and bytes come back as they were, and no encoded value is empty. */
  ghost predicate RoundTrips<V(!new)>(c: Codec<V>) {
    && (forall v: V :: c.fromBytes(c.toBytes(v)) == v && |c.compress(c.toBytes(v))| > 0)
    && (forall b: Value :: c.decompress(c.compress(b)) == b)
  }

  /** The map of values that a map of encoded values stands for. */
  function Decoded<V>(c: Codec<V>, m: PlainMap): map<PointOffset, V> {
    map q | q in m :: c.Decode(m[q])
  }

  lemma DecodedPut<V(!new)>(c: Codec<V>, m: PlainMap, q: PointOffset, v: V)
    requires RoundTrips(c)
    ensures Decoded(c, m[q := c.Encode(v)]) == Decoded(c, m)[q := v]
  {
  }

  lemma DecodedDelete<V>(c: Codec<V>, m: PlainMap, q: PointOffset)
    ensures Decoded(c, m - {q}) == Decoded(c, m) - {q}
    ensures Lookup(Decoded(c, m), q) == if q in m then Some(c.Decode(m[q])) else None
  {
  }

  /** The arrival order in which the sections of a value come one after the other. */
  function OneByOne(n: nat): (r: seq<nat>)
    ensures |r| == n && Distinct(r) && forall k: nat :: k in r <==> k < n
  {
    var r := seq(n, i requires 0 <= i < n => i);
    CountsUp(r);
    r
  }

  lemma CountsUp(r: seq<nat>)
    requires forall i :: 0 <= i < |r| ==> r[i] == i
    ensures forall k: nat :: k in r <==> k < |r|
  {
    forall k: nat | k < |r| ensures k in r {
      assert r[k] == k;
    }
  }

  lemma FitsInPages(c: Config, p: ValuePointer, pages: nat)
    requires c.Valid() && c.Fits(p, TimesPages(c.PageBlocks(), pages))
    ensures InPages(c, p, pages)
  {
    FitsStarts(c, p, pages);
    PageIsWholeRegions(c);
    FlatAddress(c, p);
    BytesInBlocks(c, p, TimesPages(c.PageBlocks(), pages));
    PagesInBytes(c, pages);
  }

  lemma PagesInBytes(c: Config, pages: nat)
    requires c.Valid()
    ensures TimesPages(c.PageBlocks(), pages) * c.blockBytes == pages * c.pageBytes
  {
    PageIsWholeRegions(c);
    MulAssociative(pages, c.PageBlocks(), c.blockBytes);
  }

  lemma FitsStarts(c: Config, p: ValuePointer, pages: nat)
    requires c.Valid() && c.Fits(p, TimesPages(c.PageBlocks(), pages))
    ensures StartsInPage(c, p) && p.page < pages
  {
    PageIsWholeRegions(c);
    assert (p.block + 1) * c.blockBytes == p.block * c.blockBytes + c.blockBytes;
    MulMonotone(p.block + 1, c.PageBlocks(), c.blockBytes);
    if p.page >= pages {
      MulMonotone(pages, p.page, c.PageBlocks());
    }
  }

  /**
   A value of that length got blocks that were free, which are used now and are the first place of all if
   the regions are small enough.
   */
  ghost predicate Placed(c: Config, before: seq<bool>, bits: seq<bool>, pointer: Option<ValuePointer>, length: nat)
    requires c.blockBytes > 0 && c.regionBlocks > 0
  {
    && pointer.Some? && pointer.value.length == length && pointer.value.block < c.PageBlocks()
    && AllFree(c, before, pointer.value) && bits == Mark(c, before, pointer.value)
    && (c.regionBlocks <= LARGEST_SAFE_REGION ==>
          Chosen(before, c.regionBlocks, c.BlocksFor(length), c.FirstBlock(pointer.value)))
  }

  /** Marking the blocks of a range is marking those of the pointer. */
  lemma MarkIsSetRange(c: Config, bits: seq<bool>, p: ValuePointer)
    requires c.blockBytes > 0 && c.Fits(p, |bits|)
    ensures var lo := p.page * c.PageBlocks() + p.block; var hi := lo + c.BlocksFor(p.length);
            hi <= |bits| && Mark(c, bits, p) == SetRange(bits, lo, hi, true)
  {
  }

  /** A call of the callback. */
  datatype Delivery<V> = Delivery(slot: nat, value: Option<V>)

  predicate Delivered<V>(calls: seq<Delivery<V>>, i: nat) {
    exists j :: 0 <= j < |calls| && calls[j].slot == i
  }

  /** One call for every slot, with what the map has for its point. */
  ghost predicate Delivers<V>(offsets: seq<PointOffset>, m: map<PointOffset, V>, calls: seq<Delivery<V>>) {
    && (forall j :: 0 <= j < |calls| ==>
          calls[j].slot < |offsets| && calls[j].value == Lookup(m, offsets[calls[j].slot]))
    && (forall i: nat :: i < |offsets| ==> Delivered(calls, i))
    && (forall j, l :: 0 <= j < l < |calls| ==> calls[j].slot != calls[l].slot)
  }

  function DecodedCalls<V>(codec: Codec<V>, raw: seq<Call>): (r: seq<Delivery<V>>)
    ensures |r| == |raw|
  {
    seq(|raw|, j requires 0 <= j < |raw| =>
      Delivery(raw[j].slot, if raw[j].value.Some? then Some(codec.Decode(raw[j].value.value)) else None))
  }

  function Reads(c: Config, bytes: seq<Byte>, pointer: Option<ValuePointer>): Option<Value>
    requires c.blockBytes > 0
  {
    if pointer.Some? then Some(Read(c, bytes, pointer.value)) else None
  }

  lemma CallsDeliver<V>(c: Config, codec: Codec<V>, bytes: seq<Byte>, pointers: seq<Option<ValuePointer>>,
                        offsets: seq<PointOffset>, live: PlainMap, raw: seq<Call>)
    requires c.blockBytes > 0 && |pointers| == |offsets|
    requires forall i :: 0 <= i < |pointers| ==> Reads(c, bytes, pointers[i]) == Lookup(live, offsets[i])
    requires forall j :: 0 <= j < |raw| ==> CallOk(c, bytes, pointers, raw[j])
    requires (forall i: nat :: i < |pointers| ==> Called(raw, i)) && CallsOnce(raw)
    ensures Delivers(offsets, Decoded(codec, live), DecodedCalls(codec, raw))
  {
    var calls := DecodedCalls(codec, raw);
    forall j | 0 <= j < |calls|
      ensures calls[j].slot < |offsets| && calls[j].value == Lookup(Decoded(codec, live), offsets[calls[j].slot])
    {
      assert CallOk(c, bytes, pointers, raw[j]);
      DecodedDelete(codec, live, offsets[raw[j].slot]);
    }
    forall i: nat | i < |offsets| ensures Delivered(calls, i) {
      assert Called(raw, i);
      var j :| 0 <= j < |raw| && raw[j].slot == i;
      assert calls[j].slot == i;
    }
  }

  class Gridstore<V(==, !new)> {
    const config: Config
    const codec: Codec<V>
    const tracker: Tracker
    const pages: Pages
    const bitmask: Bitmask

    /** The steps of the machine that the store has taken. */
    ghost var trace: Trace

    /** The store has done what the machine does, and is between operations. */
    ghost predicate Valid()
      reads this, tracker, pages, bitmask
    {
      && RoundTrips(codec)
      && config.Valid()
      && tracker.Valid() && pages.Valid() && bitmask.Valid()
      && pages.config == config && bitmask.config == config
      && |bitmask.bits| == TimesPages(config.PageBlocks(), |pages.pages|)
      && trace.Runs(config) && |trace.run| > 0
      && trace.Last().op.Idle? && Outside(trace.Last().flusher) && !Spec().saving
      && Shows(trace.Last(), bitmask.bits, pages.Bytes(), tracker.View())
    }

    /** What the machine's state means to a user. */
    ghost function Spec(): Spec
      requires config.blockBytes > 0 && |trace.run| > 0
      reads this
    {
      Abs(config, trace.Last())
    }

    /** The map that the store stands for. */
    ghost function Contents(): map<PointOffset, V>
      requires config.blockBytes > 0 && |trace.run| > 0
      reads this
    {
      Decoded(codec, Spec().live)
    }

    constructor (config: Config, codec: Codec<V>)
      requires RoundTrips(codec)
      requires config.Valid() && config.regionBlocks % 64 == 0
      ensures Valid() && Contents() == map[] && trace.Last().flusher.NoFlusher?
      ensures this.config == config && this.codec == codec && fresh(tracker) && fresh(pages) && fresh(bitmask)
    {
      this.config := config;
      this.codec := codec;
      bitmask := new Bitmask(config);
      tracker := new Tracker(DEFAULT_TRACKER_BYTES);
      var p := new Pages(config);
      pages := p;
      trace := Trace([Init(config)], []);
      new;
      pages.AttachPage();
      NewStoreShows(config);
    }

    /** The kernel writes back any part of any file, of its own accord. */
    ghost method KernelWritesBack(a: Action)
      requires Valid() && IsWriteBack(a)
      modifies this`trace
      ensures Valid() && old(trace).Before(trace)
      ensures Spec() == old(Spec()) && trace.Last().flusher == old(trace.Last().flusher)
      ensures StoreStep(config, old(trace.Last()), a, trace.Last())
    {
      hide Inv, StoreRun, StoreStep, Abs, RoundTrips, TimesPages, Enabled, Next, Observe;
      TraceKeepsInvariant(config, trace);
      WriteBackStep(config, trace.Last(), a);
      IsStep(config, trace.Last(), a);
      trace := SilentStep(config, trace, a);
    }

    /**
     Between calls, whatever the kernel has written back, a crash recovers exactly the map that the
     last completed flush saved.
     */
    lemma CrashRecoversSaved()
      requires Valid()
      ensures var s := trace.Last();
              Decoded(codec, Image(config, s.diskBytes, s.diskRaw)) == Decoded(codec, Spec().saved)
    {
      var s := trace.Last();
      CrashIsSafe(config, trace.run, trace.actions, |trace.actions|);
      hide StoreRun, Abs, Image, RoundTrips;
      SameLookups(Image(config, s.diskBytes, s.diskRaw), Spec().saved);
    }

    /**
     Returns whether the point had a value, and nothing when the code stops because no space was found
     after creating pages for it. A flusher may be outstanding; it is left alone.
     */
    method PutValue(q: PointOffset, value: V) returns (existed: Option<bool>)
      requires Valid()
      modifies this, tracker, pages, bitmask
      ensures Valid() && old(trace).Before(trace) && trace.Last().flusher == old(trace.Last().flusher)
      ensures existed.Some? ==>
                && Contents() == old(Contents())[q := value] && (existed.value <==> q in old(Contents()))
                && Spec() == old(Spec()).(live := old(Spec()).live[q := codec.compress(codec.toBytes(value))])
      ensures existed.None? ==> Spec() == old(Spec()) && config.regionBlocks > LARGEST_SAFE_REGION
      ensures |pages.pages| >= |old(pages.pages)|
      ensures config.regionBlocks <= LARGEST_SAFE_REGION ==>
                var n, created := config.BlocksFor(|codec.Encode(value)|), |pages.pages| - |old(pages.pages)|;
                && (HasRun(old(bitmask.bits), n) ==> created == 0)
                && NoPageTooMany(config, old(bitmask.bits), n, created)
      ensures existed.Some? ==>
                var created := |pages.pages| - |old(pages.pages)|;
                Placed(config, old(bitmask.bits) + Zeros(TimesPages(config.PageBlocks(), created)), bitmask.bits,
                       tracker.View().Get(q), |codec.Encode(value)|)
    {
      hide Inv, StoreRun, Abs, RoundTrips, FreeRun, HasRun, Chosen, NoPageTooMany, Grown, TimesPages, BatchFits;
      var bytes := codec.Encode(value);
      EncodedIsNonEmpty(codec, value);
      var required := config.BlocksFor(|bytes|);
      TraceKeepsInvariant(config, trace);
      var found;
      ghost var created;
      found, created := FindOrCreateAvailableBlocks(bitmask, pages, required, _ => []);
      trace := GrowSteps(config, trace, created);
      PagesAdd(config.PageBlocks(), |old(pages.pages)|, created);
      if found.None? {
        return None;
      }
      var p := ValuePointer(found.value.0, found.value.1, |bytes|);
      FoundFits(config, bitmask.bits, p, required);
      var had := StoreValue(q, bytes, p);
      DecodedPut(codec, old(Spec()).live, q, value);
      return Some(had);
    }

    /** The rest of a put, once free blocks are found. */
    method StoreValue(q: PointOffset, bytes: Value, p: ValuePointer) returns (existed: bool)
      requires Valid() && p.length == |bytes|
      requires config.Fits(p, |bitmask.bits|) && AllFree(config, bitmask.bits, p)
      modifies this, tracker, pages, bitmask
      ensures Valid() && old(trace).Before(trace) && trace.Last().flusher == old(trace.Last().flusher)
      ensures Spec() == old(Spec()).(live := old(Spec()).live[q := bytes]) && (existed <==> q in old(Spec()).live)
      ensures |pages.pages| == |old(pages.pages)|
      ensures tracker.View().Get(q) == Some(p) && bitmask.bits == Mark(config, old(bitmask.bits), p)
    {
      hide Inv, StoreRun, Abs, RoundTrips, TimesPages, Config.FirstByte, Mark, Splice, AllFree, Config.Fits, SetRange,
        Config.PageBlocks, Config.BlocksFor, InPages, Outside, TrackerView.Get, TrackerView.Set;
      TraceKeepsInvariant(config, trace);
      FitsInPages(config, p, |pages.pages|);
      ghost var put := PutSteps(config, trace, q, bytes, p);
      pages.WriteToPages(p, bytes);
      MarkIsSetRange(config, bitmask.bits, p);
      bitmask.MarkBlocks(p.page, p.block, config.BlocksFor(p.length), true);
      existed := tracker.Get(q).Some?;
      SetIsRead(tracker.View(), q, p);
      tracker.Set(q, p);
      trace := put;
    }

    /** Returns the value that the point had. */
    method DeleteValue(q: PointOffset) returns (r: Option<V>)
      requires Valid()
      modifies this, tracker
      ensures Valid() && old(trace).Before(trace) && trace.Last().flusher == old(trace.Last().flusher)
      ensures Contents() == old(Contents()) - {q} && r == Lookup(old(Contents()), q)
      ensures Spec().saved == old(Spec()).saved && Spec().inflight == old(Spec()).inflight
    {
      hide Inv, StoreRun, Abs, RoundTrips, TimesPages, Read;
      TraceKeepsInvariant(config, trace);
      DecodedDelete(codec, Spec().live, q);
      ghost var steps := DeleteSteps(config, trace, q);
      GottenInPages(config, trace.Last(), q, |pages.pages|);
      var pointer := tracker.Unset(q);
      trace := steps;
      if pointer.None? {
        return None;
      }
      var raw := pages.ReadFromPages(pointer.value, OneByOne(SectionCount(config, pointer.value)));
      return Some(codec.Decode(raw));
    }

    method GetValue(q: PointOffset) returns (r: Option<V>)
      requires Valid()
      ensures r == Lookup(Contents(), q)
    {
      hide Inv, StoreRun, Abs, RoundTrips, TimesPages, Read;
      TraceKeepsInvariant(config, trace);
      DecodedDelete(codec, Spec().live, q);
      GottenInPages(config, trace.Last(), q, |pages.pages|);
      var pointer := tracker.Get(q);
      if pointer.None? {
        return None;
      }
      var raw := pages.ReadFromPages(pointer.value, OneByOne(SectionCount(config, pointer.value)));
      return Some(codec.Decode(raw));
    }

    ghost function Pointers(offsets: seq<PointOffset>): (r: seq<Option<ValuePointer>>)
      reads tracker
      ensures |r| == |offsets|
    {
      seq(|offsets|, i requires 0 <= i < |offsets| reads tracker => tracker.View().Get(offsets[i]))
    }

    /**
     Calls back once for every slot, with the value of its point or with nothing, in whatever order
     the sections of the values arrive.
     */
    method ForEachInBatch(offsets: seq<PointOffset>, order: seq<(nat, nat)>) returns (calls: seq<Delivery<V>>)
      requires Valid()
      requires Distinct(order) && forall r :: r in order <==> IsRead(config, Pointers(offsets), r)
      ensures Delivers(offsets, Contents(), calls)
    {
      hide Inv, StoreRun, Abs, RoundTrips, TimesPages, Read, InPages;
      TraceKeepsInvariant(config, trace);
      var pointers := tracker.GetBatch(offsets);
      assert pointers == Pointers(offsets);
      forall i | 0 <= i < |pointers|
        ensures pointers[i].Some? ==> InPages(config, pointers[i].value, |pages.pages|)
        ensures Reads(config, pages.Bytes(), pointers[i]) == Lookup(Spec().live, offsets[i])
      {
        GottenInPages(config, trace.Last(), offsets[i], |pages.pages|);
      }
      var raw := pages.ReadBatchFromPages(pointers, order);
      CallsDeliver(config, codec, pages.Bytes(), pointers, offsets, Spec().live, raw);
      return DecodedCalls(codec, raw);
    }

    /**
     Visits the points from `from` on, in order, until the callback says to stop, the points are
     exhausted, or `maxIters` have been visited and there is one more, where to go on from. The answer
     of the callback may depend on all its calls, of which `earlier` came before this batch.
     */
    method IterSome(from: PointOffset, max: nat, maxIters: nat, earlier: seq<(PointOffset, V)>,
                    keepGoing: seq<(PointOffset, V)> -> bool)
      returns (visited: seq<(PointOffset, V)>, next: Option<PointOffset>)
      requires Valid()
      ensures next.Some? ==>
                && from <= next.value && |visited| == maxIters && AllGo(earlier, visited, keepGoing)
                && visited == Points(Contents(), from, next.value) && next.value in Contents()
                && next.value <= max && next.value < 0xFFFF_FFFF
      ensures next.None? ==> Visits(earlier, visited, PointsUpTo(Contents(), from, max), keepGoing)
      ensures next.None? && (forall h :: keepGoing(h)) ==> InOrder(visited)
      ensures next.None? && (forall h :: keepGoing(h)) ==>
                forall q: PointOffset, v :: (q, v) in visited <==>
                  from <= q <= max && q < 0xFFFF_FFFF && q in Contents() && Contents()[q] == v
    {
      hide Inv, StoreRun, Abs, RoundTrips, TimesPages, Read, Decoded, AllGo, Visits;
      var end := EndOfPoints(tracker.nextPointerOffset, max);
      visited := [];
      var q := from;
      NoneGo(earlier, keepGoing);
      EndHoldsAll(from, max);
      while q < end
        invariant from <= q && (q <= end || q == from)
        invariant visited == Points(Contents(), from, q) && AllGo(earlier, visited, keepGoing)
      {
        var value := GetValue(q);
        PointsSplit(Contents(), from, q, end);
        if value.None? {
          q := q + 1;
          continue;
        }
        if |visited| == maxIters {
          return visited, Some(q);
        }
        StopsOrGoes(Contents(), from, q, end, value.value, earlier, keepGoing);
        visited := visited + [(q, value.value)];
        if !keepGoing(earlier + visited) {
          return visited, None;
        }
        q := q + 1;
      }
      AllVisited(earlier, visited, keepGoing);
      assert Points(Contents(), from, q) == Points(Contents(), from, end);
      PointsAreAll(Contents(), from, max);
      return visited, None;
    }

    /** No point is at or past the count of the tracker, so that an iteration up to it misses none. */
    lemma EndHoldsAll(from: PointOffset, max: nat)
      requires Valid()
      ensures Points(Contents(), from, EndOfPoints(tracker.nextPointerOffset, max)) == PointsUpTo(Contents(), from, max)
    {
      TraceKeepsInvariant(config, trace);
      forall q: PointOffset | q in Contents() ensures q < tracker.nextPointerOffset {
        GottenInPages(config, trace.Last(), q, |pages.pages|);
        DecodedDelete(codec, Spec().live, q);
      }
      hide Inv, StoreRun, Abs, RoundTrips, TimesPages, Decoded;
      NoPointsPast(Contents(), from, tracker.nextPointerOffset, max);
    }

    /** Visits all points in order, in batches, until the callback says to stop. */
    method Iter(keepGoing: seq<(PointOffset, V)> -> bool) returns (visited: seq<(PointOffset, V)>)
      requires Valid()
      ensures Visits([], visited, PointsUpTo(Contents(), 0, LAST_POINT), keepGoing)
      ensures (forall h :: keepGoing(h)) ==> InOrder(visited)
      ensures (forall h :: keepGoing(h)) ==>
                forall q: PointOffset, v :: (q, v) in visited <==>
                  q < 0xFFFF_FFFF && q in Contents() && Contents()[q] == v
    {
      hide Inv, StoreRun, Abs, RoundTrips, TimesPages, Read, Decoded, EndOfPoints, Points, AllGo, Visits;
      ghost var end := LAST_POINT;
      visited := [];
      var from := 0;
      NoPoints(Contents());
      NoneGo([], keepGoing);
      while true
        invariant from <= end && visited == Points(Contents(), 0, from) && AllGo([], visited, keepGoing)
        decreases end - from
      {
        var some, next := IterSome(from, LAST_POINT, BATCH_SIZE, visited, keepGoing);
        PointsSplit(Contents(), 0, from, if next.Some? then next.value else end);
        if next.None? {
          VisitsOn(visited, some, Points(Contents(), from, end), keepGoing);
          PointsAreAll(Contents(), 0, LAST_POINT);
          return visited + some;
        }
        AllGoOn(visited, some, keepGoing);
        BatchMovesOn(Contents(), from, next.value, some);
        visited := visited + some;
        from := next.value;
      }
    }

    /** Captures the pending updates; at most one flusher may be outstanding. */
    method CreateFlusher() returns (snap: map<PointOffset, PointerUpdates>)
      requires Valid() && trace.Last().flusher.NoFlusher?
      modifies this
      ensures Valid() && old(trace).Before(trace)
      ensures trace.Last().flusher == Flusher(snap, Created)
      ensures Spec() == old(Spec()).(inflight := Some(old(Spec()).live))
    {
      hide Inv, StoreRun, Abs;
      TraceKeepsInvariant(config, trace);
      snap := tracker.pending;
      trace := SnapshotSteps(config, trace);
    }

    /** The first phases of a flusher: the bitmask and the pages reach the disk. */
    method FlushFiles(snap: map<PointOffset, PointerUpdates>)
      requires Valid() && trace.Last().flusher == Flusher(snap, Created)
      modifies this
      ensures Valid() && old(trace).Before(trace) && Spec() == old(Spec())
      ensures trace.Last().flusher == Flusher(snap, PagesFlushed)
    {
      hide Inv, StoreRun, Abs;
      TraceKeepsInvariant(config, trace);
      trace := FlushBitsSteps(config, trace);
      trace := FlushPagesSteps(config, trace);
    }

    /** The next phase: the snapshot is written to the tracker and the tracker reaches the disk. */
    method FlushTracker(snap: map<PointOffset, PointerUpdates>) returns (oldPointers: seq<ValuePointer>)
      requires Valid() && trace.Last().flusher == Flusher(snap, PagesFlushed)
      modifies this, tracker
      ensures Valid() && old(trace).Before(trace)
      ensures old(Spec()).inflight.Some?
      ensures Spec() == old(Spec()).(saved := old(Spec()).inflight.value, inflight := None, saving := false)
      ensures if oldPointers == [] then trace.Last().flusher.NoFlusher?
              else trace.Last().flusher.Flusher? &&
                     trace.Last().flusher.phase == TrackerFlushed(PointersIn(oldPointers))
    {
      hide StoreRun, Abs, TrackerView.Write, BlocksOk, OwnersOk, EntriesOk, DiskOk, PhaseOk, OpOk;
      TraceKeepsInvariant(config, trace);
      ghost var before := trace.Last();
      trace := FlushTrackerSteps(config, trace);
      oldPointers := tracker.WritePending(snap);
      ReleasedAreListed(before.tracker, snap, oldPointers);
    }

    /** The last phase: the blocks of the replaced values become free. */
    method FlushFreeBlocks(oldPointers: seq<ValuePointer>)
      requires Valid() && oldPointers != []
      requires trace.Last().flusher.Flusher? && trace.Last().flusher.phase == TrackerFlushed(PointersIn(oldPointers))
      modifies this, bitmask
      ensures Valid() && old(trace).Before(trace) && Spec() == old(Spec())
      ensures trace.Last().flusher.NoFlusher?
    {
      hide Inv, StoreRun, Abs, RoundTrips, TimesPages, Unmark, Config.Fits;
      TraceKeepsInvariant(config, trace);
      ghost var freed := FreeSteps(config, trace);
      FreePointers(bitmask, oldPointers);
      trace := freed;
    }

    /** Runs a flusher to its end. What it saved is the map as it was when the flusher was created. */
    method Flush(snap: map<PointOffset, PointerUpdates>)
      requires Valid() && trace.Last().flusher == Flusher(snap, Created)
      modifies this, tracker, bitmask
      ensures Valid() && old(trace).Before(trace) && trace.Last().flusher.NoFlusher?
      ensures old(Spec()).inflight.Some?
      ensures Spec() == old(Spec()).(saved := old(Spec()).inflight.value, inflight := None, saving := false)
    {
      hide Inv, StoreRun, Abs, RoundTrips, TimesPages;
      FlushFiles(snap);
      var oldPointers := FlushTracker(snap);
      if oldPointers == [] {
        return;
      }
      FlushFreeBlocks(oldPointers);
    }

    /**
     Whatever is put and deleted between the creation and the run of a flusher, what it saves is the
     map as it was at its creation, and the map goes on as if there had been no flusher. The result is
     false when a put stops for want of space.
     */
    method FlushAcross(changes: seq<Change<V>>) returns (ok: bool)
      requires Valid() && trace.Last().flusher.NoFlusher?
      modifies this, tracker, pages, bitmask
      ensures Valid() && old(trace).Before(trace)
      ensures config.regionBlocks <= LARGEST_SAFE_REGION ==> ok
      ensures ok ==>
                && Contents() == Changed(old(Contents()), changes) && trace.Last().flusher.NoFlusher?
                && Decoded(codec, Spec().saved) == old(Contents())
    {
      hide Inv, StoreRun, Abs, RoundTrips, TimesPages, Decoded;
      var snap := CreateFlusher();
      for i := 0 to |changes|
        invariant Valid() && old(trace).Before(trace)
        invariant trace.Last().flusher == Flusher(snap, Created) && Spec().inflight == Some(old(Spec()).live)
        invariant Contents() == Changed(old(Contents()), changes[..i])
      {
        assert changes[..i + 1][..i] == changes[..i];
        if changes[i].value.Some? {
          var existed := PutValue(changes[i].point, changes[i].value.value);
          if existed.None? {
            return false;
          }
        } else {
          var removed := DeleteValue(changes[i].point);
        }
      }
      assert changes[..|changes|] == changes;
      Flush(snap);
      return true;
    }
  }

  /** A put, or a delete when there is no value. */
  datatype Change<V> = Change(point: PointOffset, value: Option<V>)

  function Changed<V>(m: map<PointOffset, V>, changes: seq<Change<V>>): map<PointOffset, V> {
    if changes == [] then m
    else
      var before, last := Changed(m, changes[..|changes| - 1]), changes[|changes| - 1];
      if last.value.Some? then before[last.point := last.value.value] else before - {last.point}
  }

  function PointersIn(oldPointers: seq<ValuePointer>): Pointers {
    set p | p in oldPointers
  }

  lemma ReleasedAreListed(v: TrackerView, snap: map<PointOffset, PointerUpdates>, oldPointers: seq<ValuePointer>)
    requires forall p :: p in oldPointers <==> v.Releases(snap, p)
    ensures ReleasedPointers(v, snap) == PointersIn(oldPointers)
    ensures oldPointers == [] <==> ReleasedPointers(v, snap) == {}
  {
    var released := ReleasedPointers(v, snap);
    forall p ensures p in released <==> v.Releases(snap, p) {
      if v.Releases(snap, p) {
        var q :| q in snap && p in v.At(q).Released(snap[q]);
        assert p in released;
      }
    }
    if oldPointers != [] {
      assert oldPointers[0] in released;
    }
  }

  lemma EncodedIsNonEmpty<V(!new)>(c: Codec<V>, v: V)
    requires RoundTrips(c)
    ensures |c.Encode(v)| > 0
  {
    assert c.fromBytes(c.toBytes(v)) == v;
  }

  lemma PagesAdd(size: nat, a: nat, b: nat)
    ensures TimesPages(size, a + b) == TimesPages(size, a) + TimesPages(size, b)
  {
  }

  lemma FoundFits(c: Config, bits: seq<bool>, p: ValuePointer, n: nat)
    requires c.Valid() && p.length > 0 && n == c.BlocksFor(p.length) && p.block < c.PageBlocks()
    requires FreeRun(bits, p.page * c.PageBlocks() + p.block, n)
    ensures c.Fits(p, |bits|) && AllFree(c, bits, p)
  {
  }

  /** What the tracker points to lies in the pages. */
  lemma GottenInPages(c: Config, s: Store, q: PointOffset, pages: nat)
    requires Inv(c, s) && |s.bits| == TimesPages(c.PageBlocks(), pages)
    ensures s.tracker.Get(q).Some? ==> InPages(c, s.tracker.Get(q).value, pages)
    ensures Lookup(Abs(c, s).live, q)
         == if s.tracker.Get(q).Some? then Some(Read(c, s.bytes, s.tracker.Get(q).value)) else None
  {
    GetReadsLive(c, s, q);
    hide Abs, Read;
    AllIsOwned(c, s);
    LiveLookup(s.tracker, q);
    if s.tracker.Get(q).Some? {
      var p := s.tracker.Get(q).value;
      assert p in s.owner.Keys && c.Fits(p, |s.bits|);
      hide Inv, BlocksOk, OwnersOk, LivePointers, TimesPages;
      FitsInPages(c, p, pages);
    }
  }

  /** Frees the blocks of the pointers, the neighbours in one page together. */
  method FreePointers(bitmask: Bitmask, oldPointers: seq<ValuePointer>)
    requires bitmask.Valid()
    requires forall p :: p in oldPointers ==> bitmask.config.Fits(p, |bitmask.bits|)
    modifies bitmask`bits, bitmask`gaps
    ensures bitmask.Valid()
    ensures bitmask.bits == Unmark(bitmask.config, old(bitmask.bits), PointersIn(oldPointers))
  {
    var c := bitmask.config;
    ghost var before := bitmask.bits;
    var i := 0;
    UnmarkNothing(c, before, oldPointers);
    while i < |oldPointers|
      invariant i <= |oldPointers| && bitmask.Valid()
      invariant bitmask.bits == Unmark(c, before, PointersIn(oldPointers[..i]))
    {
      hide Unmark, PointersIn, BlockBitmask.Marked, IsGroup;
      var page := oldPointers[i].page;
      var j, ranges := TakeGroup(c, oldPointers, i);
      RangesFit(c, oldPointers, i, ranges, page, |before|);
      ghost var was := bitmask.bits;
      bitmask.MarkBlocksBatch(page, ranges, false);
      UnmarkGroup(c, before, was, bitmask.bits, oldPointers, i, j, page, ranges);
      i := j;
    }
    assert oldPointers[..i] == oldPointers;
  }

  /** The pointers from `i` on that lie in one page, as ranges of blocks. */
  method TakeGroup(c: Config, oldPointers: seq<ValuePointer>, i: nat) returns (j: nat, ranges: seq<Range>)
    requires c.blockBytes > 0 && i < |oldPointers|
    ensures i < j <= |oldPointers| && |ranges| == j - i
    ensures IsGroup(c, oldPointers, i, oldPointers[i].page, ranges)
    ensures j < |oldPointers| ==> oldPointers[j].page != oldPointers[i].page
  {
    ranges := [];
    j := i;
    while j < |oldPointers| && oldPointers[j].page == oldPointers[i].page
      invariant i <= j <= |oldPointers| && |ranges| == j - i
      invariant IsGroup(c, oldPointers, i, oldPointers[i].page, ranges)
    {
      ranges := ranges + [RangeOf(c, oldPointers[j])];
      j := j + 1;
    }
  }

  predicate IsGroup(c: Config, oldPointers: seq<ValuePointer>, i: nat, page: nat, ranges: seq<Range>)
    requires c.blockBytes > 0
  {
    && i + |ranges| <= |oldPointers|
    && forall t :: i <= t < i + |ranges| ==> oldPointers[t].page == page && ranges[t - i] == RangeOf(c, oldPointers[t])
  }

  function RangeOf(c: Config, p: ValuePointer): Range
    requires c.blockBytes > 0
  {
    Range(p.block, p.block + c.BlocksFor(p.length))
  }

  lemma RangesFit(c: Config, oldPointers: seq<ValuePointer>, i: nat, ranges: seq<Range>, page: nat, blocks: nat)
    requires c.blockBytes > 0 && IsGroup(c, oldPointers, i, page, ranges)
    requires forall p :: p in oldPointers ==> c.Fits(p, blocks)
    ensures forall k :: 0 <= k < |ranges| ==>
              ranges[k].start <= ranges[k].end && page * c.PageBlocks() + ranges[k].end <= blocks
  {
    forall k | 0 <= k < |ranges|
      ensures ranges[k].start <= ranges[k].end && page * c.PageBlocks() + ranges[k].end <= blocks
    {
      assert oldPointers[i + k] in oldPointers;
    }
  }

  lemma UnmarkNothing(c: Config, bits: seq<bool>, oldPointers: seq<ValuePointer>)
    requires c.blockBytes > 0
    ensures Unmark(c, bits, PointersIn(oldPointers[..0])) == bits
  {
  }

  lemma UnmarkGroup(c: Config, before: seq<bool>, was: seq<bool>, bits: seq<bool>, oldPointers: seq<ValuePointer>,
                    i: nat, j: nat, page: nat, ranges: seq<Range>)
    requires c.blockBytes > 0 && i <= j <= |oldPointers| && |ranges| == j - i
    requires IsGroup(c, oldPointers, i, page, ranges)
    requires was == Unmark(c, before, PointersIn(oldPointers[..i]))
    requires BlockBitmask.Marked(was, bits, page * c.PageBlocks(), ranges, false)
    ensures bits == Unmark(c, before, PointersIn(oldPointers[..j]))
  {
    var base := page * c.PageBlocks();
    var some, more := PointersIn(oldPointers[..i]), PointersIn(oldPointers[..j]);
    forall b: nat | b < |before|
      ensures (exists p :: p in more && c.Covers(p, b)) <==>
                (exists p :: p in some && c.Covers(p, b)) || InSome(ranges, base, b)
    {
      GroupCovers(c, oldPointers, i, j, page, ranges, b);
    }
  }

  lemma RangeCovers(c: Config, p: ValuePointer, page: nat, b: nat)
    requires c.blockBytes > 0 && p.page == page
    ensures c.Covers(p, b) <==>
            page * c.PageBlocks() + RangeOf(c, p).start <= b < page * c.PageBlocks() + RangeOf(c, p).end
  {
  }

  lemma GroupCovers(c: Config, oldPointers: seq<ValuePointer>, i: nat, j: nat, page: nat, ranges: seq<Range>, b: nat)
    requires c.blockBytes > 0 && i <= j <= |oldPointers| && |ranges| == j - i
    requires IsGroup(c, oldPointers, i, page, ranges)
    ensures (exists p :: p in PointersIn(oldPointers[..j]) && c.Covers(p, b)) <==>
            (exists p :: p in PointersIn(oldPointers[..i]) && c.Covers(p, b))
            || InSome(ranges, page * c.PageBlocks(), b)
  {
    hide Config.Covers, Config.PageBlocks, RangeOf;
    if p :| p in PointersIn(oldPointers[..j]) && c.Covers(p, b) {
      var k :| 0 <= k < j && oldPointers[k] == p;
      if k < i {
        assert oldPointers[..i][k] == p;
      } else {
        assert ranges[k - i] == RangeOf(c, oldPointers[k]);
        RangeCovers(c, p, page, b);
      }
    }
    SomeCovers(c, oldPointers, i, j, page, ranges, b);
  }

  lemma SomeCovers(c: Config, oldPointers: seq<ValuePointer>, i: nat, j: nat, page: nat, ranges: seq<Range>, b: nat)
    requires c.blockBytes > 0 && i <= j <= |oldPointers| && |ranges| == j - i
    requires IsGroup(c, oldPointers, i, page, ranges)
    ensures (exists p :: p in PointersIn(oldPointers[..i]) && c.Covers(p, b))
            || InSome(ranges, page * c.PageBlocks(), b)
            ==> exists p :: p in PointersIn(oldPointers[..j]) && c.Covers(p, b)
  {
    hide Config.Covers, Config.PageBlocks, RangeOf;
    if p :| p in PointersIn(oldPointers[..i]) && c.Covers(p, b) {
      var k :| 0 <= k < i && oldPointers[k] == p;
      assert oldPointers[..j][k] == p;
    } else if InSome(ranges, page * c.PageBlocks(), b) {
      var k :| 0 <= k < |ranges| &&
        page * c.PageBlocks() + ranges[k].start <= b < page * c.PageBlocks() + ranges[k].end;
      var t := i + k;
      assert oldPointers[t].page == page && ranges[t - i] == RangeOf(c, oldPointers[t]);
      RangeCovers(c, oldPointers[t], page, b);
      assert oldPointers[..j][t] == oldPointers[t];
    }
  }

  const BATCH_SIZE := 128

  /** `PointOffset::MAX`. */
  const LAST_POINT := 0xFFFF_FFFF

  /** One past the last point that an iteration up to `max` looks at; the largest point offset is left out. */
  function EndOfPoints(nextPointerOffset: nat, max: nat): nat {
    var end := if max < LAST_POINT then max + 1 else LAST_POINT;
    if nextPointerOffset < end then nextPointerOffset else end
  }

  /** The points of the map from `lo` on and below `hi`, in order. */
  function Points<V>(m: map<PointOffset, V>, lo: nat, hi: nat): seq<(PointOffset, V)>
    decreases hi
  {
    if hi <= lo then [] else Points(m, lo, hi - 1) + if hi - 1 in m then [(hi - 1, m[hi - 1])] else []
  }

  /** The points up to and including `max`, except for the largest point offset. */
  function PointsUpTo<V>(m: map<PointOffset, V>, lo: nat, max: nat): seq<(PointOffset, V)> {
    Points(m, lo, if max < 0xFFFF_FFFF then max + 1 else 0xFFFF_FFFF)
  }

  ghost predicate InOrder<V>(points: seq<(PointOffset, V)>) {
    forall i, j :: 0 <= i < j < |points| ==> points[i].0 < points[j].0
  }

  lemma {:induction false} PointsInOrder<V>(m: map<PointOffset, V>, lo: nat, hi: nat)
    ensures InOrder(Points(m, lo, hi))
    ensures forall q: PointOffset, v :: (q, v) in Points(m, lo, hi) <==> lo <= q < hi && q in m && m[q] == v
    decreases hi
  {
    if lo < hi {
      PointsInOrder(m, lo, hi - 1);
      var before := Points(m, lo, hi - 1);
      forall i | 0 <= i < |before| ensures before[i].0 < hi - 1 {
        var (q, v) := before[i];
        assert (q, v) == before[i] && (q, v) in before;
      }
    }
  }

  /** In order, each point of the map from `lo` up to `max` and no other, with its value. */
  lemma PointsAreAll<V>(m: map<PointOffset, V>, lo: nat, max: nat)
    ensures InOrder(PointsUpTo(m, lo, max))
    ensures forall q: PointOffset, v :: (q, v) in PointsUpTo(m, lo, max) <==>
              lo <= q <= max && q < 0xFFFF_FFFF && q in m && m[q] == v
  {
    hide Points, InOrder;
    PointsInOrder(m, lo, if max < 0xFFFF_FFFF then max + 1 else 0xFFFF_FFFF);
  }

  lemma {:induction false} NoPointsPast<V>(m: map<PointOffset, V>, lo: nat, count: nat, max: nat)
    requires forall q: PointOffset :: q in m ==> q < count
    ensures Points(m, lo, EndOfPoints(count, max)) == PointsUpTo(m, lo, max)
  {
    var end := if max < 0xFFFF_FFFF then max + 1 else 0xFFFF_FFFF;
    if count < end {
      NoneBetween(m, lo, count, end);
    }
  }

  lemma {:induction false} NoneBetween<V>(m: map<PointOffset, V>, lo: nat, mid: nat, hi: nat)
    requires mid <= hi && forall q: PointOffset :: mid <= q < hi ==> q !in m
    ensures Points(m, lo, hi) == Points(m, lo, mid)
    decreases hi
  {
    if mid < hi {
      NoneBetween(m, lo, mid, hi - 1);
    }
  }

  /** The callback, called with each of the points after earlier ones, never stops. */
  predicate AllGo<V>(earlier: seq<(PointOffset, V)>, points: seq<(PointOffset, V)>,
                     keepGoing: seq<(PointOffset, V)> -> bool)
  {
    forall i :: 0 < i <= |points| ==> keepGoing(earlier + points[..i])
  }

  /** `visited` are all the points, or those up to and including the first at which the callback stops. */
  predicate Visits<V(==)>(earlier: seq<(PointOffset, V)>, visited: seq<(PointOffset, V)>,
                          points: seq<(PointOffset, V)>, keepGoing: seq<(PointOffset, V)> -> bool)
  {
    && visited <= points
    && (forall i :: 0 < i < |visited| ==> keepGoing(earlier + visited[..i]))
    && (visited != points ==> visited != [] && !keepGoing(earlier + visited))
  }

  lemma {:induction false} PointsSplit<V>(m: map<PointOffset, V>, lo: nat, mid: nat, hi: nat)
    requires lo <= mid <= hi
    ensures Points(m, lo, hi) == Points(m, lo, mid) + Points(m, mid, hi)
    decreases hi
  {
    if mid < hi {
      PointsSplit(m, lo, mid, hi - 1);
    }
  }

  lemma NoPoints<V>(m: map<PointOffset, V>)
    ensures Points(m, 0, 0) == []
  {
  }

  lemma NoneGo<V>(earlier: seq<(PointOffset, V)>, keepGoing: seq<(PointOffset, V)> -> bool)
    ensures AllGo(earlier, [], keepGoing)
  {
  }

  lemma AllVisited<V>(earlier: seq<(PointOffset, V)>, points: seq<(PointOffset, V)>,
                      keepGoing: seq<(PointOffset, V)> -> bool)
    requires AllGo(earlier, points, keepGoing)
    ensures Visits(earlier, points, points, keepGoing)
  {
  }

  /** The next point is visited; if the callback then stops, that is all there is to visit. */
  lemma StopsOrGoes<V>(m: map<PointOffset, V>, lo: nat, q: nat, hi: nat, v: V, earlier: seq<(PointOffset, V)>,
                       keepGoing: seq<(PointOffset, V)> -> bool)
    requires lo <= q < hi && q in m && m[q] == v && AllGo(earlier, Points(m, lo, q), keepGoing)
    ensures var visited := Points(m, lo, q) + [(q, v)];
            && Points(m, lo, q + 1) == visited
            && if keepGoing(earlier + visited) then AllGo(earlier, visited, keepGoing)
               else Visits(earlier, visited, Points(m, lo, hi), keepGoing)
  {
    var before := Points(m, lo, q);
    var visited := before + [(q, v)];
    assert Points(m, lo, q + 1) == visited;
    PointsSplit(m, lo, q + 1, hi);
    hide Points;
    forall i | 0 < i < |visited| ensures keepGoing(earlier + visited[..i]) {
      assert visited[..i] == before[..i];
    }
    assert visited[..|visited|] == visited;
  }

  lemma AllGoOn<V>(a: seq<(PointOffset, V)>, b: seq<(PointOffset, V)>, keepGoing: seq<(PointOffset, V)> -> bool)
    requires AllGo([], a, keepGoing) && AllGo(a, b, keepGoing)
    ensures AllGo([], a + b, keepGoing)
  {
    forall i | 0 < i <= |a + b| ensures keepGoing([] + (a + b)[..i]) {
      SplitHistory(a, b, i);
    }
  }

  lemma SplitHistory<V>(a: seq<(PointOffset, V)>, b: seq<(PointOffset, V)>, i: nat)
    requires i <= |a + b|
    ensures [] + (a + b)[..i] == if i <= |a| then [] + a[..i] else a + b[..i - |a|]
  {
  }

  lemma VisitsOn<V>(a: seq<(PointOffset, V)>, b: seq<(PointOffset, V)>, rest: seq<(PointOffset, V)>,
                    keepGoing: seq<(PointOffset, V)> -> bool)
    requires AllGo([], a, keepGoing) && Visits(a, b, rest, keepGoing)
    ensures Visits([], a + b, a + rest, keepGoing)
  {
    forall i | 0 < i < |a + b| ensures keepGoing([] + (a + b)[..i]) {
      SplitHistory(a, b, i);
    }
    SplitHistory(a, b, |a + b|);
    assert (a + b)[..|a + b|] == a + b && b[..|b|] == b;
  }

  lemma BatchMovesOn<V>(m: map<PointOffset, V>, from: nat, next: nat, some: seq<(PointOffset, V)>)
    requires from <= next && some == Points(m, from, next) && |some| > 0
    ensures from < next
  {
  }

  const DEFAULT_TRACKER_BYTES := 1024 * 1024

  lemma NewStoreShows(c: Config)
    requires c.Valid()
    ensures var s := Init(c);
            && s.bits == Zeros(c.PageBlocks()) && s.bytes == [] + ZeroBytes(c.pageBytes)
            && s.tracker == TrackerView(map[], map[]) && s.op.Idle? && s.flusher.NoFlusher?
            && Abs(c, s) == EMPTY && StoreRun(c, [s], [])
  {
    PageIsWholeRegions(c);
    InitIsGood(c);
  }
}
