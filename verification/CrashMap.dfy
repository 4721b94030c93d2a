/**
 What a user of the store may rely on: a plain map that survives crashes.

 `live` is the map as it reads now, `saved` what the last completed flush persisted, `inflight` the
 map as it read when the outstanding flusher was created, and `saving` says that this flusher is
 writing the tracker, so that a crash may find each point either way.
 */
module CrashMap {
  import opened Wrappers
  import opened PointerTracker
  import opened Layout

  type PlainMap = map<PointOffset, Value>

  datatype Spec = Spec(live: PlainMap, saved: PlainMap, inflight: Option<PlainMap>, saving: bool,
                       deleted: Option<Value>)

  const EMPTY := Spec(map[], map[], None, false, None)

  /** What a step of the store shows to the outside. */
  datatype Event =
    | Silent
    | Put(point: PointOffset, value: Value, existed: bool)
    | Remove(point: PointOffset, found: bool)
    | ReturnDeleted(value: Value)
    | TakeSnapshot
    | DropSnapshot
    | StartSaving
    | FinishSaving
    | Recover(contents: PlainMap)

  ghost predicate SpecStep(s: Spec, e: Event, t: Spec) {
    match e
    case Silent => t == s
    case Put(q, v, existed) => existed == (q in s.live) && t == s.(live := s.live[q := v])
    case Remove(q, found) =>
      && found == (q in s.live)
      && t == if found then s.(live := s.live - {q}, deleted := Some(s.live[q])) else s
    case ReturnDeleted(v) => s.deleted == Some(v) && t == s.(deleted := None)
    case TakeSnapshot => s.inflight.None? && t == s.(inflight := Some(s.live))
    case DropSnapshot => s.inflight.Some? && !s.saving && t == s.(inflight := None)
    case StartSaving => s.inflight.Some? && !s.saving && t == s.(saving := true)
    case FinishSaving =>
      s.inflight.Some? && s.saving && t == s.(saved := s.inflight.value, inflight := None, saving := false)
    case Recover(m) =>
      && (forall q: PointOffset ::
            Lookup(m, q) == Lookup(s.saved, q) ||
            (s.saving && s.inflight.Some? && Lookup(m, q) == Lookup(s.inflight.value, q)))
      && t == Spec(m, m, None, false, None)
  }

  /** `trace` is a run of the map from `s` that shows `events`. */
  ghost predicate SpecRun(trace: seq<Spec>, events: seq<Event>) {
    |trace| == |events| + 1 && forall i :: 0 <= i < |events| ==> SpecStep(trace[i], events[i], trace[i + 1])
  }

  /** The plain map that the puts and removes alone produce, when there is no crash. */
  function Replay(m: PlainMap, events: seq<Event>): PlainMap {
    if events == [] then m
    else
      var before := Replay(m, events[..|events| - 1]);
      match events[|events| - 1]
      case Put(q, v, _) => before[q := v]
      case Remove(q, _) => before - {q}
      case Recover(contents) => contents
      case _ => before
  }

  lemma {:induction false} LiveIsReplay(trace: seq<Spec>, events: seq<Event>)
    requires SpecRun(trace, events)
    ensures trace[|events|].live == Replay(trace[0].live, events)
    decreases |events|
  {
    if events != [] {
      var n := |events| - 1;
      LiveIsReplay(trace[..n + 1], events[..n]);
      assert SpecStep(trace[n], events[n], trace[n + 1]);
      if events[n].Remove? && !events[n].found {
        assert trace[n].live - {events[n].point} == trace[n].live;
      }
    }
  }

  predicate EndsSnapshot(e: Event) {
    e.TakeSnapshot? || e.DropSnapshot? || e.FinishSaving? || e.Recover?
  }

  lemma {:induction false} SnapshotIsKept(trace: seq<Spec>, events: seq<Event>, i: nat, n: nat)
    requires SpecRun(trace, events) && i < n <= |events| && events[i] == TakeSnapshot
    requires forall k :: i < k < n ==> !EndsSnapshot(events[k])
    ensures trace[n].inflight == Some(trace[i].live)
  {
    assert SpecStep(trace[n - 1], events[n - 1], trace[n]);
    if n > i + 1 {
      SnapshotIsKept(trace, events, i, n - 1);
    }
  }

  lemma {:induction false} SavedIsKept(trace: seq<Spec>, events: seq<Event>, j: nat, n: nat)
    requires SpecRun(trace, events) && j < n <= |events| && events[j] == FinishSaving
    requires forall k :: j < k < n ==> !events[k].StartSaving? && !events[k].Recover?
    ensures trace[n].saved == trace[j + 1].saved && !trace[n].saving
  {
    assert SpecStep(trace[n - 1], events[n - 1], trace[n]);
    if n > j + 1 {
      SavedIsKept(trace, events, j, n - 1);
    }
  }

  /**
   What a completed flush guarantees: the map as it was when the flusher was created is exactly what
   a crash recovers, until another flusher starts to write the tracker.
   */
  lemma CompletedFlushSurvivesCrash(trace: seq<Spec>, events: seq<Event>, i: nat, j: nat, n: nat, m: PlainMap)
    requires SpecRun(trace, events) && i < j < n < |events|
    requires events[i] == TakeSnapshot && events[j] == FinishSaving && events[n] == Recover(m)
    requires forall k :: i < k < j ==> !EndsSnapshot(events[k])
    requires forall k :: j < k < n ==> !events[k].StartSaving? && !events[k].Recover?
    ensures m == trace[i].live
  {
    SnapshotIsKept(trace, events, i, j);
    SavedIsKept(trace, events, j, n);
    assert SpecStep(trace[j], events[j], trace[j + 1]);
    assert SpecStep(trace[n], events[n], trace[n + 1]);
    SameLookups(m, trace[n].saved);
  }
}
