/**
 The ordered pushing of encoded vectors by several tasks.

 Task `i` of `n` encodes the vectors `i`, `i + n`, `i + 2n`, ... and before each push waits on its own
 condition variable; after it, it notifies the next task's. A condition variable also lets its task
 go when no one else holds a handle to it. The steps below are the points at which tasks and the
 spawning thread can interleave: the flag is read and written under its mutex, while the handle
 counts and the wake-ups are not.
 */
module PqProtocol {
  import opened Layout

  datatype Pc =
    | Unspawned
    | Ready        // about to take the next vector
    | Check        // in `wait`, holding the mutex, about to test the flag and the handle count
    | Sleeping
    | Reading      // flag reset, about to read the handle count
    | Pushing
    | Flagging     // about to set the next task's flag
    | Waking       // about to wake the next task
    | LeavingOwn   // about to release its own condition variable
    | LeavingWake  // about to wake the next task while dropping its condition variable
    | LeavingNext  // about to release the next task's condition variable
    | Done

  /** `k` is the vector the task is at. */
  datatype Task = Task(pc: Pc, k: nat, disconnected: bool)

  datatype Main =
    | Spawning(next: nat)
    | Clearing(next: nat, woken: bool)
    | Finished

  datatype State = State(tasks: seq<Task>, notified: seq<bool>, main: Main, stored: seq<nat>)

  datatype Action = Spawn | ClearWake | ClearRelease | Run(task: nat) | SpuriousWake(task: nat)

  function NextOf(i: nat, n: nat): (r: nat)
    requires i < n
    ensures r < n
  {
    if i + 1 == n then 0 else i + 1
  }

  function PrevOf(i: nat, n: nat): (r: nat)
    requires i < n
    ensures r < n && NextOf(r, n) == i
  {
    if i == 0 then n - 1 else i - 1
  }

  // ---------------------------------------------------------------------------------------
  // Handles
  // ---------------------------------------------------------------------------------------

  predicate MainHolds(m: Main, i: nat) {
    match m
    case Spawning(_) => true
    case Clearing(next, _) => i >= next
    case Finished => false
  }

  predicate HoldsOwn(t: Task) {
    !(t.pc.Unspawned? || t.pc.LeavingWake? || t.pc.LeavingNext? || t.pc.Done?)
  }

  predicate HoldsNext(t: Task) {
    !(t.pc.Unspawned? || t.pc.Done?)
  }

  function One(b: bool): nat {
    if b then 1 else 0
  }

  /** `Arc::strong_count` of the `i`-th condition variable. */
  function StrongCount(s: State, i: nat): nat
    requires i < |s.tasks|
  {
    One(MainHolds(s.main, i)) + One(HoldsOwn(s.tasks[i])) + One(HoldsNext(s.tasks[PrevOf(i, |s.tasks|)]))
  }

  // ---------------------------------------------------------------------------------------
  // Steps
  // ---------------------------------------------------------------------------------------

  function Init(n: nat): State
    requires n > 0
  {
    State(seq(n, i requires i >= 0 => Task(Unspawned, i, false)), seq(n, i => i == 0), Spawning(0), [])
  }

  /** Wakes whoever sleeps on the `i`-th condition variable: that can only be task `i`. */
  function Wake(tasks: seq<Task>, i: nat): (r: seq<Task>)
    requires i < |tasks|
    ensures |r| == |tasks|
  {
    if tasks[i].pc.Sleeping? then tasks[i := tasks[i].(pc := Check)] else tasks
  }

  predicate Enabled(n: nat, s: State, a: Action) {
    |s.tasks| == |s.notified| == n &&
    match a
    case Spawn => s.main.Spawning? && s.main.next < n
    case ClearWake => s.main.Clearing? && s.main.next < n && !s.main.woken
    case ClearRelease => s.main.Clearing? && s.main.next < n && s.main.woken
    case Run(i) => i < n && !(s.tasks[i].pc.Unspawned? || s.tasks[i].pc.Sleeping? || s.tasks[i].pc.Done?)
    case SpuriousWake(i) => i < n && s.tasks[i].pc.Sleeping?
  }

  function Put(s: State, i: nat, t: Task): State
    requires i < |s.tasks|
  {
    s.(tasks := s.tasks[i := t])
  }

  function RunTask(n: nat, total: nat, s: State, i: nat): State
    requires Enabled(n, s, Run(i))
  {
    var t := s.tasks[i];
    var next := NextOf(i, n);
    match t.pc
    case Ready => Put(s, i, t.(pc := if t.k < total then Check else LeavingOwn))
    case Check =>
      if !s.notified[i] && StrongCount(s, i) > 1 then Put(s, i, t.(pc := Sleeping))
      else Put(s, i, t.(pc := Reading)).(notified := s.notified[i := false])
    case Reading => Put(s, i, t.(pc := Pushing, disconnected := StrongCount(s, i) == 1))
    case Pushing => Put(s, i, t.(pc := Flagging)).(stored := s.stored + [t.k])
    case Flagging => Put(s, i, t.(pc := Waking)).(notified := s.notified[next := true])
    case Waking =>
      var after := Task(if t.disconnected then LeavingOwn else Ready, t.k + n, false);
      s.(tasks := Wake(s.tasks[i := after], next))
    case LeavingOwn => Put(s, i, t.(pc := LeavingWake))
    case LeavingWake => s.(tasks := Wake(s.tasks[i := t.(pc := LeavingNext)], next))
    case LeavingNext => Put(s, i, t.(pc := Done))
    case _ => s
  }

  function Next(n: nat, total: nat, s: State, a: Action): State
    requires Enabled(n, s, a)
  {
    match a
    case Spawn =>
      var m := s.main.next;
      Put(s, m, s.tasks[m].(pc := Ready)).(main := if m + 1 == n then Clearing(0, false) else Spawning(m + 1))
    case ClearWake => s.(tasks := Wake(s.tasks, s.main.next), main := s.main.(woken := true))
    case ClearRelease => s.(main := if s.main.next + 1 == n then Finished else Clearing(s.main.next + 1, false))
    case Run(i) => RunTask(n, total, s, i)
    case SpuriousWake(i) => Put(s, i, s.tasks[i].(pc := Check))
  }

  /** At first the spawning thread holds the only handle of each. */
  lemma OneHandleEach(n: nat, j: nat)
    requires n > 0 && j < n
    ensures StrongCount(Init(n), j) == 1
  {
  }

  /** A task is spawned with its own handle and the next one's; each is released once, and nothing else counts. */
  lemma HandlesAreCounted(n: nat, total: nat, s: State, a: Action, j: nat)
    requires Enabled(n, s, a) && j < n && (a.Spawn? ==> s.tasks[s.main.next].pc.Unspawned?)
    ensures |Next(n, total, s, a).tasks| == n
    ensures StrongCount(Next(n, total, s, a), j) == StrongCount(s, j) + match a
            case Spawn => (if j == s.main.next then 1 else 0) + (if j == NextOf(s.main.next, n) then 1 else 0)
            case ClearRelease => if j == s.main.next then -1 else 0
            case Run(i) =>
              if s.tasks[i].pc.LeavingOwn? && j == i then -1
              else if s.tasks[i].pc.LeavingNext? && j == NextOf(i, n) then -1 else 0
            case _ => 0
  {
    var k := PrevOf(j, n);
    if a.Run? {
      RunReleases(n, total, s, a.task, j);
      RunReleases(n, total, s, a.task, k);
      hide RunTask;
    } else {
      OthersRelease(n, total, s, a, j);
      OthersRelease(n, total, s, a, k);
      hide Next;
    }
  }

  lemma RunReleases(n: nat, total: nat, s: State, i: nat, j: nat)
    requires Enabled(n, s, Run(i)) && j < n
    ensures var t := RunTask(n, total, s, i);
            && |t.tasks| == n && t.main == s.main
            && (HoldsOwn(t.tasks[j]) <==> HoldsOwn(s.tasks[j]) && !(j == i && s.tasks[i].pc.LeavingOwn?))
            && (HoldsNext(t.tasks[j]) <==> HoldsNext(s.tasks[j]) && !(j == i && s.tasks[i].pc.LeavingNext?))
  {
    hide StrongCount;
  }

  lemma OthersRelease(n: nat, total: nat, s: State, a: Action, j: nat)
    requires Enabled(n, s, a) && j < n && !a.Run? && (a.Spawn? ==> s.tasks[s.main.next].pc.Unspawned?)
    ensures var t := Next(n, total, s, a);
            && |t.tasks| == n
            && (HoldsOwn(t.tasks[j]) <==> HoldsOwn(s.tasks[j]) || (a.Spawn? && j == s.main.next))
            && (HoldsNext(t.tasks[j]) <==> HoldsNext(s.tasks[j]) || (a.Spawn? && j == s.main.next))
            && (MainHolds(t.main, j) <==> MainHolds(s.main, j) && !(a.ClearRelease? && j == s.main.next))
  {
  }

  // ---------------------------------------------------------------------------------------
  // The invariant
  // ---------------------------------------------------------------------------------------

  /** The first vector of the task that is not stored yet. */
  function Pos(n: nat, t: Task): nat {
    if t.pc.Flagging? || t.pc.Waking? then t.k + n else t.k
  }

  predicate InTurn(t: Task) {
    t.pc.Reading? || t.pc.Pushing?
  }

  predicate Leaving(t: Task) {
    t.pc.LeavingOwn? || t.pc.LeavingWake? || t.pc.LeavingNext? || t.pc.Done?
  }

  /** What holds of task `i` when `turn` vectors are stored. */
  predicate TaskOk(n: nat, total: nat, turn: nat, i: nat, t: Task)
    requires n > 0
  {
    && turn <= Pos(n, t) < turn + n && Pos(n, t) % n == i
    && (InTurn(t) ==> t.k == turn)
    && (t.pc.Flagging? ==> t.k + 1 == turn)
    && (t.pc.Check? || t.pc.Sleeping? || InTurn(t) || t.pc.Flagging? || t.pc.Waking? ==> t.k < total)
    && (Leaving(t) ==> t.k >= total)
    && ((t.pc.Pushing? || t.pc.Flagging? || t.pc.Waking?) && t.disconnected ==> t.k + n >= total)
  }

  /** The permission to push is in exactly one place: a flag, a task in its turn, or a task about to pass it on. */
  predicate TokenOk(n: nat, s: State)
    requires n > 0 && |s.tasks| == |s.notified| == n
  {
    var cur := |s.stored| % n;
    && (s.notified[cur] || InTurn(s.tasks[cur]) || s.tasks[PrevOf(cur, n)].pc.Flagging?)
    && (forall i :: 0 <= i < n && s.notified[i] ==> i == cur && !InTurn(s.tasks[cur]))
    && (forall i, j :: 0 <= i < n && 0 <= j < n && s.tasks[i].pc.Flagging? ==> !s.notified[j] && !InTurn(s.tasks[j]))
  }

  /** No wake-up is lost: a task that sleeps on a set flag is about to be woken. */
  predicate WakeOk(n: nat, s: State)
    requires |s.tasks| == |s.notified| == n
  {
    forall i :: 0 <= i < n && s.notified[i] && s.tasks[i].pc.Sleeping? ==> s.tasks[PrevOf(i, n)].pc.Waking?
  }

  predicate MainOk(n: nat, s: State)
    requires |s.tasks| == n
  {
    match s.main
    case Spawning(m) => m < n && forall i :: 0 <= i < n ==> (s.tasks[i].pc.Unspawned? <==> i >= m)
    case Clearing(m, _) => m < n && forall i :: 0 <= i < n ==> !s.tasks[i].pc.Unspawned?
    case Finished => forall i :: 0 <= i < n ==> !s.tasks[i].pc.Unspawned?
  }

  ghost predicate Inv(n: nat, total: nat, s: State) {
    && n > 0 && |s.tasks| == |s.notified| == n
    && (forall i :: 0 <= i < n ==> TaskOk(n, total, |s.stored|, i, s.tasks[i]))
    && TokenOk(n, s) && WakeOk(n, s) && MainOk(n, s)
    && (forall j :: 0 <= j < |s.stored| ==> s.stored[j] == j)
  }

  // ---------------------------------------------------------------------------------------
  // Arithmetic of turns
  // ---------------------------------------------------------------------------------------

  lemma SameResidue(a: nat, b: nat, n: nat)
    requires n > 0 && a % n == b % n && a <= b < a + n
    ensures a == b
  {
    var x, y := a / n, b / n;
    assert a == n * x + a % n && b == n * y + b % n;
    assert b - a == n * (y - x);
    if y > x {
      MulMonotone(1, y - x, n);
    } else if y < x {
      MulMonotone(y, x, n);
    }
  }

  lemma NextResidue(a: nat, n: nat)
    requires n > 0
    ensures (a + 1) % n == NextOf(a % n, n)
    ensures (a + n) % n == a % n
  {
    var x := a / n;
    assert a == n * x + a % n;
    if a % n + 1 == n {
      assert a + 1 == n * (x + 1);
      QuotientIs(a + 1, n, x + 1);
    } else {
      Remainder(a + 1, n, x, a % n + 1);
    }
    Remainder(a + n, n, x + 1, a % n);
  }

  lemma SmallResidue(i: nat, n: nat)
    requires i < n
    ensures i % n == i
  {
  }

  /** The task whose turn it is is at the next vector to store. */
  lemma TurnIsNext(n: nat, total: nat, s: State, i: nat)
    requires Inv(n, total, s) && i < n && i == |s.stored| % n
    ensures Pos(n, s.tasks[i]) == |s.stored|
  {
    assert TaskOk(n, total, |s.stored|, i, s.tasks[i]);
    SameResidue(|s.stored|, Pos(n, s.tasks[i]), n);
  }

  /** A task whose predecessor is done is next, and has no other vector after this one. */
  lemma AfterDone(n: nat, total: nat, s: State, i: nat)
    requires Inv(n, total, s) && i < n && Pos(n, s.tasks[i]) < total
    requires s.tasks[PrevOf(i, n)].pc.Done?
    ensures Pos(n, s.tasks[i]) == |s.stored| && |s.stored| + n > total && i == |s.stored| % n
  {
    var p := PrevOf(i, n);
    var a, b := Pos(n, s.tasks[p]), Pos(n, s.tasks[i]);
    assert TaskOk(n, total, |s.stored|, p, s.tasks[p]) && TaskOk(n, total, |s.stored|, i, s.tasks[i]);
    NextResidue(a, n);
    NextResidue(b, n);
    SameResidue(a + 1, b + n, n);
  }

  lemma InitOk(n: nat, total: nat)
    requires n > 0
    ensures Inv(n, total, Init(n))
  {
    var s := Init(n);
    forall i | 0 <= i < n ensures TaskOk(n, total, 0, i, s.tasks[i]) {
      SmallResidue(i, n);
    }
  }

  // ---------------------------------------------------------------------------------------
  // Every step keeps the invariant
  // ---------------------------------------------------------------------------------------

  /** Starting or waking a task does not move it. */
  lemma StartedTaskOk(n: nat, total: nat, s: State, i: nat)
    requires Inv(n, total, s) && i < n
    ensures s.tasks[i].pc.Unspawned? ==> TaskOk(n, total, |s.stored|, i, s.tasks[i].(pc := Ready))
    ensures s.tasks[i].pc.Sleeping? ==> TaskOk(n, total, |s.stored|, i, s.tasks[i].(pc := Check))
  {
    hide TokenOk, WakeOk, MainOk;
    assert TaskOk(n, total, |s.stored|, i, s.tasks[i]);
  }

  /** A task that moves within its turn-taking, the rest standing still. */
  lemma QuietStep(n: nat, total: nat, s: State, t: State, i: nat)
    requires Inv(n, total, s) && i < n
    requires |t.tasks| == n && t == Put(s, i, t.tasks[i])
    requires TaskOk(n, total, |s.stored|, i, t.tasks[i])
    requires InTurn(t.tasks[i]) == InTurn(s.tasks[i]) && t.tasks[i].pc.Flagging? == s.tasks[i].pc.Flagging?
    requires s.tasks[i].pc.Unspawned? == t.tasks[i].pc.Unspawned?
    requires t.tasks[i].pc.Sleeping? ==> !s.notified[i]
    requires !s.tasks[i].pc.Waking?
    ensures Inv(n, total, t)
  {
  }

  lemma WakeKeeps(n: nat, total: nat, s: State, t: State, i: nat, after: Task)
    requires Inv(n, total, s) && i < n
    requires t == s.(tasks := Wake(s.tasks[i := after], NextOf(i, n)))
    requires TaskOk(n, total, |s.stored|, i, after)
    requires !InTurn(after) && !InTurn(s.tasks[i]) && !after.pc.Flagging? && !s.tasks[i].pc.Flagging?
    requires !s.tasks[i].pc.Unspawned? && !after.pc.Unspawned? && !after.pc.Sleeping?
    ensures Inv(n, total, t)
  {
    hide StrongCount, TaskOk;
    StartedTaskOk(n, total, s, NextOf(i, n));
    assert TokenOk(n, t) by { hide WakeOk, MainOk; }
    assert MainOk(n, t) by { hide WakeOk, TokenOk; }
    forall j | 0 <= j < n && t.notified[j] && t.tasks[j].pc.Sleeping? ensures t.tasks[PrevOf(j, n)].pc.Waking? {
      hide TokenOk, MainOk;
      assert s.tasks[j].pc.Sleeping? && PrevOf(j, n) != i;
    }
  }

  /** No task passes `wait` before its turn: when the handle count lets it go, its flag is set as well. */
  lemma PassingIsInTurn(n: nat, total: nat, s: State, i: nat)
    requires Inv(n, total, s) && i < n && s.tasks[i].pc.Check?
    requires s.notified[i] || StrongCount(s, i) <= 1
    ensures s.notified[i] && s.tasks[i].k == |s.stored| && i == |s.stored| % n
  {
    assert TaskOk(n, total, |s.stored|, i, s.tasks[i]);
    if !s.notified[i] {
      AfterDone(n, total, s, i);
    } else {
      TurnIsNext(n, total, s, i);
    }
  }

  lemma CheckKeeps(n: nat, total: nat, s: State, i: nat)
    requires Inv(n, total, s) && Enabled(n, s, Run(i)) && s.tasks[i].pc.Check?
    ensures Inv(n, total, RunTask(n, total, s, i))
  {
    var t := RunTask(n, total, s, i);
    assert TaskOk(n, total, |s.stored|, i, s.tasks[i]);
    if !s.notified[i] && StrongCount(s, i) > 1 {
      QuietStep(n, total, s, t, i);
    } else {
      PassingIsInTurn(n, total, s, i);
    }
  }

  lemma ReadingKeeps(n: nat, total: nat, s: State, i: nat)
    requires Inv(n, total, s) && Enabled(n, s, Run(i)) && s.tasks[i].pc.Reading?
    ensures Inv(n, total, RunTask(n, total, s, i))
  {
    assert TaskOk(n, total, |s.stored|, i, s.tasks[i]);
    if StrongCount(s, i) == 1 {
      AfterDone(n, total, s, i);
    }
    QuietStep(n, total, s, RunTask(n, total, s, i), i);
  }

  lemma PushingKeeps(n: nat, total: nat, s: State, i: nat)
    requires Inv(n, total, s) && Enabled(n, s, Run(i)) && s.tasks[i].pc.Pushing?
    ensures Inv(n, total, RunTask(n, total, s, i))
  {
    var t := RunTask(n, total, s, i);
    var turn := |s.stored|;
    assert TaskOk(n, total, turn, i, s.tasks[i]);
    NextResidue(turn, n);
    forall j | 0 <= j < n ensures TaskOk(n, total, turn + 1, j, t.tasks[j]) {
      assert TaskOk(n, total, turn, j, s.tasks[j]);
    }
    TurnIsNext(n, total, s, i);
    assert t.tasks[i].pc.Flagging? && PrevOf((turn + 1) % n, n) == i;
    hide StrongCount, TaskOk;
    forall j | 0 <= j < n && j != i ensures !t.tasks[j].pc.Flagging? {
      NoneFlagsInTurn(n, total, s, i, j);
    }
  }

  lemma NoneFlagsInTurn(n: nat, total: nat, s: State, i: nat, j: nat)
    requires Inv(n, total, s) && i < n && j < n && InTurn(s.tasks[i])
    ensures !s.tasks[j].pc.Flagging?
  {
  }

  lemma FlaggingKeeps(n: nat, total: nat, s: State, i: nat)
    requires Inv(n, total, s) && Enabled(n, s, Run(i)) && s.tasks[i].pc.Flagging?
    ensures Inv(n, total, RunTask(n, total, s, i))
  {
    var t := RunTask(n, total, s, i);
    var turn := |s.stored|;
    assert TaskOk(n, total, turn, i, s.tasks[i]);
    NextResidue(s.tasks[i].k, n);
    assert turn % n == NextOf(i, n);
    forall j | 0 <= j < n ensures TaskOk(n, total, turn, j, t.tasks[j]) {
      assert TaskOk(n, total, turn, j, s.tasks[j]);
    }
    forall j | 0 <= j < n && j != i ensures !s.tasks[j].pc.Flagging? {
      OneFlags(n, total, s, i, j);
    }
  }

  lemma OneFlags(n: nat, total: nat, s: State, i: nat, j: nat)
    requires Inv(n, total, s) && i < n && j < n && s.tasks[i].pc.Flagging? && i != j
    ensures !s.tasks[j].pc.Flagging?
  {
    assert TaskOk(n, total, |s.stored|, i, s.tasks[i]) && TaskOk(n, total, |s.stored|, j, s.tasks[j]);
  }

  lemma WakingKeeps(n: nat, total: nat, s: State, i: nat)
    requires Inv(n, total, s) && Enabled(n, s, Run(i)) && (s.tasks[i].pc.Waking? || s.tasks[i].pc.LeavingWake?)
    ensures Inv(n, total, RunTask(n, total, s, i))
  {
    var was := s.tasks[i];
    assert TaskOk(n, total, |s.stored|, i, was);
    var after := if was.pc.Waking? then Task(if was.disconnected then LeavingOwn else Ready, was.k + n, false)
                 else was.(pc := LeavingNext);
    WakeKeeps(n, total, s, RunTask(n, total, s, i), i, after);
  }

  lemma RunKeeps(n: nat, total: nat, s: State, i: nat)
    requires Inv(n, total, s) && Enabled(n, s, Run(i))
    ensures Inv(n, total, Next(n, total, s, Run(i)))
  {
    assert TaskOk(n, total, |s.stored|, i, s.tasks[i]);
    var t := Next(n, total, s, Run(i));
    var pc := s.tasks[i].pc;
    if pc.Check? {
      CheckKeeps(n, total, s, i);
    } else if pc.Reading? {
      ReadingKeeps(n, total, s, i);
    } else if pc.Pushing? {
      PushingKeeps(n, total, s, i);
    } else if pc.Flagging? {
      FlaggingKeeps(n, total, s, i);
    } else if pc.Waking? || pc.LeavingWake? {
      WakingKeeps(n, total, s, i);
    } else {
      QuietStep(n, total, s, t, i);
    }
  }

  lemma SpawnKeeps(n: nat, total: nat, s: State)
    requires Inv(n, total, s) && Enabled(n, s, Spawn)
    ensures Inv(n, total, Next(n, total, s, Spawn))
  {
    hide StrongCount, TaskOk;
    var t := Next(n, total, s, Spawn);
    var m := s.main.next;
    StartedTaskOk(n, total, s, m);
  }

  lemma ClearWakeKeeps(n: nat, total: nat, s: State)
    requires Inv(n, total, s) && Enabled(n, s, ClearWake)
    ensures Inv(n, total, Next(n, total, s, ClearWake))
  {
    hide StrongCount, TaskOk;
    var t := Next(n, total, s, ClearWake);
    var m := s.main.next;
    StartedTaskOk(n, total, s, m);
  }

  lemma ClearReleaseKeeps(n: nat, total: nat, s: State)
    requires Inv(n, total, s) && Enabled(n, s, ClearRelease)
    ensures Inv(n, total, Next(n, total, s, ClearRelease))
  {
    hide StrongCount, TaskOk;
  }

  lemma SpuriousWakeKeeps(n: nat, total: nat, s: State, i: nat)
    requires Inv(n, total, s) && Enabled(n, s, SpuriousWake(i))
    ensures Inv(n, total, Next(n, total, s, SpuriousWake(i)))
  {
    var t := Next(n, total, s, SpuriousWake(i));
    StartedTaskOk(n, total, s, i);
    QuietStep(n, total, s, t, i);
  }

  lemma StepKeeps(n: nat, total: nat, s: State, a: Action)
    requires Inv(n, total, s) && Enabled(n, s, a)
    ensures Inv(n, total, Next(n, total, s, a))
  {
    match a {
      case Run(i) => RunKeeps(n, total, s, i);
      case SpuriousWake(i) => SpuriousWakeKeeps(n, total, s, i);
      case Spawn => SpawnKeeps(n, total, s);
      case ClearWake => ClearWakeKeeps(n, total, s);
      case ClearRelease => ClearReleaseKeeps(n, total, s);
    }
  }

  // ---------------------------------------------------------------------------------------
  // Runs
  // ---------------------------------------------------------------------------------------

  ghost predicate IsRun(n: nat, total: nat, run: seq<State>, actions: seq<Action>) {
    && n > 0 && |run| == |actions| + 1 && run[0] == Init(n)
    && forall i :: 0 <= i < |actions| ==>
      Enabled(n, run[i], actions[i]) && run[i + 1] == Next(n, total, run[i], actions[i])
  }

  lemma {:induction false} RunKeepsInv(n: nat, total: nat, run: seq<State>, actions: seq<Action>, m: nat)
    requires IsRun(n, total, run, actions) && m <= |actions|
    ensures Inv(n, total, run[m])
  {
    if m == 0 {
      InitOk(n, total);
    } else {
      RunKeepsInv(n, total, run, actions, m - 1);
      StepKeeps(n, total, run[m - 1], actions[m - 1]);
    }
  }

  predicate AllDone(s: State) {
    forall i :: 0 <= i < |s.tasks| ==> s.tasks[i].pc.Done?
  }

  /**
   In every interleaving the vectors reach the storage in data order, each once: what is stored is
   always an initial stretch of the data, and all of it once every task is done.
   */
  lemma PushedInOrder(n: nat, total: nat, run: seq<State>, actions: seq<Action>, m: nat)
    requires IsRun(n, total, run, actions) && m <= |actions|
    ensures var s := run[m];
            && |s.stored| <= total && (forall j :: 0 <= j < |s.stored| ==> s.stored[j] == j)
            && (AllDone(s) ==> |s.stored| == total)
  {
    RunKeepsInv(n, total, run, actions, m);
    var s := run[m];
    var cur := |s.stored| % n;
    TurnIsNext(n, total, s, cur);
    assert TaskOk(n, total, |s.stored|, cur, s.tasks[cur]);
    StoredAtMost(n, total, run, actions, m);
  }

  lemma {:induction false} StoredAtMost(n: nat, total: nat, run: seq<State>, actions: seq<Action>, m: nat)
    requires IsRun(n, total, run, actions) && m <= |actions|
    ensures |run[m].stored| <= total
  {
    if m > 0 {
      StoredAtMost(n, total, run, actions, m - 1);
      RunKeepsInv(n, total, run, actions, m - 1);
      var a, s := actions[m - 1], run[m - 1];
      if a.Run? {
        assert TaskOk(n, total, |s.stored|, a.task, s.tasks[a.task]);
      }
    }
  }

  /** As long as a task is not done, a step other than a spurious wake-up is possible: no wake-up is lost. */
  lemma SomeStepIsEnabled(n: nat, total: nat, run: seq<State>, actions: seq<Action>, m: nat) returns (a: Action)
    requires IsRun(n, total, run, actions) && m <= |actions| && !AllDone(run[m])
    ensures Enabled(n, run[m], a) && !a.SpuriousWake?
  {
    RunKeepsInv(n, total, run, actions, m);
    var s := run[m];
    if s.main.Spawning? {
      return Spawn;
    }
    if i: nat :| i < n && !s.tasks[i].pc.Sleeping? && !s.tasks[i].pc.Done? {
      return Run(i);
    }
    var i :| 0 <= i < n && !s.tasks[i].pc.Done?;
    var cur := |s.stored| % n;
    assert TaskOk(n, total, |s.stored|, i, s.tasks[i]) && TaskOk(n, total, |s.stored|, cur, s.tasks[cur]);
    TurnIsNext(n, total, s, cur);
    assert false;
  }

  // ---------------------------------------------------------------------------------------
  // Every run ends
  // ---------------------------------------------------------------------------------------

  function Stage(pc: Pc): nat {
    match pc
    case Unspawned => 11
    case Ready => 10
    case Check => 9
    case Sleeping => 8
    case Reading => 7
    case Pushing => 6
    case Flagging => 5
    case Waking => 4
    case LeavingOwn => 7
    case LeavingWake => 6
    case LeavingNext => 3
    case Done => 0
  }

  /** An upper bound on the steps a task may still make. */
  function TaskWork(total: nat, t: Task): nat {
    12 * (if t.k < total then total - t.k else 0) + Stage(t.pc)
  }

  function TasksWork(total: nat, tasks: seq<Task>): nat {
    if |tasks| == 0 then 0 else TasksWork(total, tasks[..|tasks| - 1]) + TaskWork(total, tasks[|tasks| - 1])
  }

  function MainWork(n: nat, m: Main): int {
    match m
    case Spawning(next) => 4 * n + (n - next)
    case Clearing(next, woken) => 4 * (n - next) - (if woken then 3 else 0)
    case Finished => 0
  }

  function Work(n: nat, total: nat, s: State): int {
    TasksWork(total, s.tasks) + MainWork(n, s.main)
  }

  lemma {:induction false} TasksWorkOne(total: nat, tasks: seq<Task>, i: nat, t: Task)
    requires i < |tasks|
    ensures TasksWork(total, tasks[i := t]) == TasksWork(total, tasks) - TaskWork(total, tasks[i]) + TaskWork(total, t)
  {
    var last := |tasks| - 1;
    if i == last {
      assert tasks[i := t][..last] == tasks[..last];
    } else {
      assert tasks[i := t][..last] == tasks[..last][i := t];
      TasksWorkOne(total, tasks[..last], i, t);
    }
  }

  lemma WakeWork(total: nat, tasks: seq<Task>, i: nat)
    requires i < |tasks|
    ensures TasksWork(total, Wake(tasks, i)) <= TasksWork(total, tasks) + 1
  {
    if tasks[i].pc.Sleeping? {
      TasksWorkOne(total, tasks, i, tasks[i].(pc := Check));
    }
  }

  /** A task that steps, other than a wake-up of another one. */
  function Moved(n: nat, total: nat, s: State, i: nat): Task
    requires Enabled(n, s, Run(i))
  {
    var t := s.tasks[i];
    if t.pc.Waking? then Task(if t.disconnected then LeavingOwn else Ready, t.k + n, false)
    else if t.pc.LeavingWake? then t.(pc := LeavingNext)
    else RunTask(n, total, s, i).tasks[i]
  }

  lemma MovedWork(n: nat, total: nat, s: State, i: nat)
    requires n > 0 && Enabled(n, s, Run(i))
    requires s.tasks[i].pc.Waking? ==> s.tasks[i].k < total
    ensures TaskWork(total, Moved(n, total, s, i)) + 1 <= TaskWork(total, s.tasks[i])
    ensures s.tasks[i].pc.Waking? || s.tasks[i].pc.LeavingWake?
            ==> TaskWork(total, Moved(n, total, s, i)) + 2 <= TaskWork(total, s.tasks[i])
  {
    hide StrongCount;
  }

  lemma RunWork(n: nat, total: nat, s: State, i: nat)
    requires Inv(n, total, s) && Enabled(n, s, Run(i))
    ensures Work(n, total, RunTask(n, total, s, i)) < Work(n, total, s)
  {
    var t, moved := RunTask(n, total, s, i), Moved(n, total, s, i);
    assert TaskOk(n, total, |s.stored|, i, s.tasks[i]);
    MovedWork(n, total, s, i);
    TasksWorkOne(total, s.tasks, i, moved);
    if s.tasks[i].pc.Waking? || s.tasks[i].pc.LeavingWake? {
      WakeWork(total, s.tasks[i := moved], NextOf(i, n));
    } else {
      assert t.tasks == s.tasks[i := moved];
    }
  }

  lemma StepWork(n: nat, total: nat, s: State, a: Action)
    requires Inv(n, total, s) && Enabled(n, s, a)
    ensures var t := Next(n, total, s, a);
            if a.SpuriousWake? then Work(n, total, t) <= Work(n, total, s) + 1
            else Work(n, total, t) < Work(n, total, s)
  {
    match a {
      case Run(i) => RunWork(n, total, s, i);
      case SpuriousWake(i) => TasksWorkOne(total, s.tasks, i, s.tasks[i].(pc := Check));
      case Spawn => TasksWorkOne(total, s.tasks, s.main.next, s.tasks[s.main.next].(pc := Ready));
      case ClearWake => WakeWork(total, s.tasks, s.main.next);
      case ClearRelease =>
    }
  }

  function Spurious(actions: seq<Action>): nat {
    if |actions| == 0 then 0
    else Spurious(actions[..|actions| - 1]) + One(actions[|actions| - 1].SpuriousWake?)
  }

  /**
   Apart from spurious wake-ups, each of which costs at most one step more, no run is longer than a
   bound fixed before it starts.
   */
  lemma {:induction false} RunsEnd(n: nat, total: nat, run: seq<State>, actions: seq<Action>)
    requires IsRun(n, total, run, actions)
    ensures |actions| + Work(n, total, run[|actions|]) <= Work(n, total, Init(n)) + 2 * Spurious(actions)
    ensures Work(n, total, run[|actions|]) >= 0
  {
    var m := |actions|;
    RunKeepsInv(n, total, run, actions, m);
    if m > 0 {
      assert IsRun(n, total, run[..m], actions[..m - 1]);
      RunsEnd(n, total, run[..m], actions[..m - 1]);
      RunKeepsInv(n, total, run, actions, m - 1);
      StepWork(n, total, run[m - 1], actions[m - 1]);
    }
  }
}
