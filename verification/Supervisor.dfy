/** The local supervisor: three child processes, bounded restarts, shutdown, and the lock that records pids. */
module Supervisor {
  import opened Prelude

  datatype Role = Web | Scheduler | AppWorker

  const MAX_RESTARTS := 2

  datatype PerRole<T> = PerRole(web: T, scheduler: T, worker: T) {
    function Get(r: Role): T {
      match r case Web => web case Scheduler => scheduler case AppWorker => worker
    }
    function Set(r: Role, v: T): PerRole<T> {
      match r case Web => this.(web := v) case Scheduler => this.(scheduler := v) case AppWorker => this.(worker := v)
    }
  }

  datatype Child = Child(role: Role, pid: int, alive: bool)

  /** `current` is the variable each role's process is kept in; `timers` counts restarts waiting to fire. */
  datatype State = State(
    stopping: bool,
    exited: Option<int>,
    shutdownCode: int,
    children: seq<Child>,
    restarts: PerRole<nat>,
    timers: PerRole<nat>,
    current: PerRole<Option<int>>,
    lock: Option<PerRole<Option<int>>>
  )

  datatype Event =
    | Exit(child: nat, code: Option<int>)
    | TimerFires(role: Role, pid: int)
    | Signal
    | Finish

  /** The three children just spawned and the lock just written. */
  function Started(webPid: int, schedulerPid: int, workerPid: int): State {
    var pids := PerRole(Some(webPid), Some(schedulerPid), Some(workerPid));
    State(false, None, 0, [Child(Web, webPid, true), Child(Scheduler, schedulerPid, true),
      Child(AppWorker, workerPid, true)],
          PerRole(0, 0, 0), PerRole(0, 0, 0), pids, Some(pids))
  }

  /** `updateLockPids`: rewrites the lock if it is still there. */
  function UpdateLock(s: State): State {
    if s.lock.None? then s else s.(lock := Some(s.current))
  }

  function BeginShutdown(s: State, code: int): State {
    if s.stopping then s else s.(stopping := true, shutdownCode := code)
  }

  /** The exit handler of one role. */
  function OnUnexpectedExit(s: State, r: Role, code: Option<int>): State {
    if s.restarts.Get(r) < MAX_RESTARTS then
      s.(restarts := s.restarts.Set(r, s.restarts.Get(r) + 1), timers := s.timers.Set(r, s.timers.Get(r) + 1))
    else if r == Web then BeginShutdown(s, if code.Some? then code.value else 1)
    else UpdateLock(s.(current := s.current.Set(r, None)))
  }

  predicate Enabled(s: State, e: Event) {
    s.exited.None? &&
    match e
    case Exit(i, _) => i < |s.children| && s.children[i].alive
    case TimerFires(r, _) => s.timers.Get(r) > 0
    case Signal => true
    case Finish => s.stopping
  }

  function Step(s: State, e: Event): State
    requires Enabled(s, e)
  {
    match e
    case Exit(i, code) =>
      var dead := s.(children := s.children[i := s.children[i].(alive := false)]);
      if s.stopping then dead else OnUnexpectedExit(dead, s.children[i].role, code)
    case TimerFires(r, pid) =>
      var fired := s.(timers := s.timers.Set(r, s.timers.Get(r) - 1));
      if s.stopping then fired
      else UpdateLock(fired.(children := fired.children + [Child(r, pid, true)],
        current := fired.current.Set(r, Some(pid))))
    case Signal => BeginShutdown(s, 0)
    case Finish => s.(lock := None, exited := Some(s.shutdownCode))
  }

  predicate Legal(s: State, events: seq<Event>)
    decreases |events|
  {
    events == [] || (Enabled(s, events[0]) && Legal(Step(s, events[0]), events[1..]))
  }

  function Run(s: State, events: seq<Event>): State
    requires Legal(s, events)
    decreases |events|
  {
    if events == [] then s else Run(Step(s, events[0]), events[1..])
  }

  // ---- the script's own shape: module variables changed by handlers ----

  class Local {
    var stopping: bool
    var exited: Option<int>
    var shutdownCode: int
    var children: seq<Child>
    var restarts: PerRole<nat>
    var timers: PerRole<nat>
    var current: PerRole<Option<int>>
    var lock: Option<PerRole<Option<int>>>

    function View(): State
      reads this
    {
      State(stopping, exited, shutdownCode, children, restarts, timers, current, lock)
    }

    constructor (webPid: int, schedulerPid: int, workerPid: int)
      ensures View() == Started(webPid, schedulerPid, workerPid)
    {
      stopping, exited, shutdownCode := false, None, 0;
      children := [Child(Web, webPid, true), Child(Scheduler, schedulerPid, true), Child(AppWorker, workerPid, true)];
      restarts, timers := PerRole(0, 0, 0), PerRole(0, 0, 0);
      var pids := PerRole(Some(webPid), Some(schedulerPid), Some(workerPid));
      current, lock := pids, Some(pids);
    }

    method UpdateLockPids()
      modifies this
      ensures View() == UpdateLock(old(View()))
    {
      if lock.Some? {
        lock := Some(current);
      }
    }

    method Shutdown(code: int)
      modifies this
      ensures View() == BeginShutdown(old(View()), code)
    {
      if stopping { return; }
      stopping := true;
      shutdownCode := code;
    }

    method ChildExited(i: nat, code: Option<int>)
      requires Enabled(View(), Exit(i, code))
      modifies this
      ensures View() == Step(old(View()), Exit(i, code))
    {
      var r := children[i].role;
      children := children[i := children[i].(alive := false)];
      if stopping { return; }
      if restarts.Get(r) < MAX_RESTARTS {
        restarts := restarts.Set(r, restarts.Get(r) + 1);
        timers := timers.Set(r, timers.Get(r) + 1);
        return;
      }
      if r == Web {
        Shutdown(if code.Some? then code.value else 1);
      } else {
        current := current.Set(r, None);
        UpdateLockPids();
      }
    }

    method RestartTimer(r: Role, pid: int)
      requires Enabled(View(), TimerFires(r, pid))
      modifies this
      ensures View() == Step(old(View()), TimerFires(r, pid))
    {
      timers := timers.Set(r, timers.Get(r) - 1);
      if stopping { return; }
      children := children + [Child(r, pid, true)];
      current := current.Set(r, Some(pid));
      UpdateLockPids();
    }
  }

  // ---- counting one role's children ----

  function Spawned(children: seq<Child>, r: Role): nat {
    if children == [] then 0
    else
      var last := children[|children| - 1];
      Spawned(children[..|children| - 1], r) + if last.role == r then 1 else 0
  }

  function Live(children: seq<Child>, r: Role): nat {
    if children == [] then 0
    else
      var last := children[|children| - 1];
      Live(children[..|children| - 1], r) + if last.role == r && last.alive then 1 else 0
  }

  /** The role's most recently spawned child. */
  function Newest(children: seq<Child>, r: Role): Option<Child> {
    if children == [] then None
    else if children[|children| - 1].role == r then Some(children[|children| - 1])
    else Newest(children[..|children| - 1], r)
  }

  lemma {:induction false} NewestIsThere(children: seq<Child>, r: Role)
    ensures Newest(children, r).Some? <==> Spawned(children, r) > 0
    ensures Newest(children, r).Some? ==> Newest(children, r).value.role == r
  {
    if children != [] {
      NewestIsThere(children[..|children| - 1], r);
    }
  }

  lemma SpawnOne(children: seq<Child>, c: Child, r: Role)
    ensures Spawned(children + [c], r) == Spawned(children, r) + if c.role == r then 1 else 0
    ensures Live(children + [c], r) == Live(children, r) + if c.role == r && c.alive then 1 else 0
    ensures Newest(children + [c], r) == if c.role == r then Some(c) else Newest(children, r)
  {
    assert (children + [c])[..|children|] == children;
  }

  /** A death takes one live child away; if it was the role's only live child and the newest, the newest is now dead. */
  lemma {:induction false} DieOne(children: seq<Child>, i: nat, r: Role)
    requires i < |children| && children[i].alive
    ensures var after := children[i := children[i].(alive := false)];
            && Spawned(after, r) == Spawned(children, r)
            && Live(after, r) + (if children[i].role == r then 1 else 0) == Live(children, r)
            && (Newest(children, r).Some? ==>
              Newest(after, r).Some? && Newest(after, r).value.pid == Newest(children, r).value.pid)
            && (children[i].role != r ==> Newest(after, r) == Newest(children, r))
  {
    var after := children[i := children[i].(alive := false)];
    var n := |children| - 1;
    if i == n {
      assert after[..n] == children[..n];
    } else {
      DieOne(children[..n], i, r);
      assert after[..n] == children[..n][i := children[i].(alive := false)];
    }
  }

  // ---- the invariant, role by role ----

  ghost predicate RoleInv(s: State, r: Role) {
    var live := Live(s.children, r);
    var pending := s.timers.Get(r);
    var newest := Newest(s.children, r);
    && s.restarts.Get(r) <= MAX_RESTARTS
    && Spawned(s.children, r) >= 1
    && Spawned(s.children, r) + pending <= s.restarts.Get(r) + 1
    && (!s.stopping ==> Spawned(s.children, r) + pending == s.restarts.Get(r) + 1)
    && live + pending <= 1
    && (s.exited.None? ==> s.lock == Some(s.current))
    && (!s.stopping ==>
          if live + pending == 1 then newest.Some? && s.current.Get(r) == Some(newest.value.pid)
          else r != Web && s.restarts.Get(r) == MAX_RESTARTS && s.current.Get(r) == None)
  }

  ghost predicate Inv(s: State) {
    forall r :: RoleInv(s, r)
  }

  lemma OtherRoleExit(s: State, i: nat, code: Option<int>, r: Role)
    requires RoleInv(s, r) && Enabled(s, Exit(i, code)) && s.children[i].role != r
    ensures RoleInv(Step(s, Exit(i, code)), r)
  {
    DieOne(s.children, i, r);
  }

  lemma OwnRoleExit(s: State, i: nat, code: Option<int>)
    requires Enabled(s, Exit(i, code)) && RoleInv(s, s.children[i].role)
    ensures RoleInv(Step(s, Exit(i, code)), s.children[i].role)
  {
    DieOne(s.children, i, s.children[i].role);
    NewestIsThere(s.children, s.children[i].role);
  }

  lemma TimerStep(s: State, fired: Role, pid: int, r: Role)
    requires RoleInv(s, r) && Enabled(s, TimerFires(fired, pid))
    ensures RoleInv(Step(s, TimerFires(fired, pid)), r)
  {
    SpawnOne(s.children, Child(fired, pid, true), r);
  }

  lemma StepKeepsInv(s: State, e: Event)
    requires Inv(s) && Enabled(s, e)
    ensures Inv(Step(s, e))
  {
    forall r ensures RoleInv(Step(s, e), r) {
      assert RoleInv(s, r);
      match e
      case Exit(i, code) =>
        if s.children[i].role == r { OwnRoleExit(s, i, code); } else { OtherRoleExit(s, i, code, r); }
      case TimerFires(fired, pid) => TimerStep(s, fired, pid, r);
      case Signal =>
      case Finish =>
    }
  }

  lemma {:induction false} RunKeepsInv(s: State, events: seq<Event>)
    requires Inv(s) && Legal(s, events)
    ensures Inv(Run(s, events))
    decreases |events|
  {
    if events != [] {
      StepKeepsInv(s, events[0]);
      RunKeepsInv(Step(s, events[0]), events[1..]);
    }
  }

  /** One live child of each role. */
  lemma OneChildEach(w: Child, c: Child, a: Child, r: Role)
    requires w.role == Web && c.role == Scheduler && a.role == AppWorker && w.alive && c.alive && a.alive
    ensures var all := [w, c, a];
            && Live(all, r) == 1 && Spawned(all, r) == 1
            && Newest(all, r) == Some(match r case Web => w case Scheduler => c case AppWorker => a)
  {
    SpawnOne([], w, r);
    SpawnOne([w], c, r);
    SpawnOne([w, c], a, r);
    assert [] + [w] == [w] && [w] + [c] == [w, c] && [w, c] + [a] == [w, c, a];
  }

  lemma StartedIsInv(webPid: int, schedulerPid: int, workerPid: int)
    ensures Inv(Started(webPid, schedulerPid, workerPid))
  {
    forall r ensures RoleInv(Started(webPid, schedulerPid, workerPid), r) {
      OneChildEach(Child(Web, webPid, true), Child(Scheduler, schedulerPid, true),
                   Child(AppWorker, workerPid, true), r);
    }
  }

  /**
   * For every sequence of exits, timers and signals: a role never has two live children, nor more than
   * three spawns. Until shutdown begins, a role with no restart pending has exactly one live child and
   * the lock names its newest child, or has used up its restarts and the lock names none.
   */
  lemma RolesStayBounded(webPid: int, schedulerPid: int, workerPid: int, events: seq<Event>, r: Role)
    requires Legal(Started(webPid, schedulerPid, workerPid), events)
    ensures var u := Run(Started(webPid, schedulerPid, workerPid), events);
            && Live(u.children, r) <= 1 && Spawned(u.children, r) <= MAX_RESTARTS + 1
            && (!u.stopping && u.exited.None? && u.timers.Get(r) == 0 ==>
                 u.lock.Some? &&
                 if Live(u.children, r) == 1
                 then Newest(u.children, r).Some? && u.lock.value.Get(r) == Some(Newest(u.children, r).value.pid)
                 else r != Web && u.restarts.Get(r) == MAX_RESTARTS && u.lock.value.Get(r) == None)
            && (!u.stopping && u.timers.Get(r) > 0 ==> Live(u.children, r) == 0)
  {
    StartedIsInv(webPid, schedulerPid, workerPid);
    RunKeepsInv(Started(webPid, schedulerPid, workerPid), events);
    assert RoleInv(Run(Started(webPid, schedulerPid, workerPid), events), r);
  }

  // ---- the same in columns ----

  ghost function Of<T>(p: PerRole<T>, r: Role): T {
    if r == Web then p.web else if r == Scheduler then p.scheduler else p.worker
  }

  /** The positions of the role's children, all of them or the live ones. */
  ghost function Children(children: seq<Child>, r: Role, liveOnly: bool): set<nat> {
    set i: nat | i < |children| && children[i].role == r && (liveOnly ==> children[i].alive)
  }

  lemma ChildAppended(front: seq<Child>, c: Child, r: Role, liveOnly: bool)
    ensures |Children(front + [c], r, liveOnly)|
         == |Children(front, r, liveOnly)| + if c.role == r && (liveOnly ==> c.alive) then 1 else 0
  {
    var before, after := Children(front, r, liveOnly), Children(front + [c], r, liveOnly);
    assert |front| !in before;
    assert after == if |front| in after then before + {|front|} else before;
  }

  lemma {:induction false} ChildrenAreCounted(children: seq<Child>, r: Role)
    ensures Spawned(children, r) == |Children(children, r, false)| && Live(children, r) == |Children(children, r, true)|
    decreases |children|
  {
    if children == [] {
      assert Children(children, r, false) == {} && Children(children, r, true) == {};
    } else {
      var front, c := children[..|children| - 1], children[|children| - 1];
      assert children == front + [c];
      ChildrenAreCounted(front, r);
      ChildAppended(front, c, r, false);
      ChildAppended(front, c, r, true);
    }
  }

  lemma {:induction false} NewestIsLast(children: seq<Child>, r: Role) returns (i: nat)
    requires Newest(children, r).Some?
    ensures i in Children(children, r, false) && children[i] == Newest(children, r).value
    ensures forall j :: j in Children(children, r, false) ==> j <= i
    decreases |children|
  {
    if children[|children| - 1].role == r {
      i := |children| - 1;
    } else {
      i := NewestIsLast(children[..|children| - 1], r);
      assert Children(children, r, false) == Children(children[..|children| - 1], r, false);
    }
  }

  /** One live child of the role, the last one spawned, and the lock names it. */
  ghost predicate Running(u: State, r: Role) {
    && |Children(u.children, r, true)| == 1 && u.lock.Some?
    && exists i :: i in Children(u.children, r, false)
         && (forall j :: j in Children(u.children, r, false) ==> j <= i)
         && Of(u.lock.value, r) == Some(u.children[i].pid)
  }

  /** Every spawn used up, none alive, and the lock names none; a web child never comes to this. */
  ghost predicate GivenUp(u: State, r: Role) {
    && r != Web && Children(u.children, r, true) == {} && |Children(u.children, r, false)| == 3
    && u.lock.Some? && Of(u.lock.value, r) == None
  }

  /**
   * For every sequence of exits, timers and signals: at most one live child of each role and at most three spawned.
   * Until shutdown begins each role is in one of three conditions: running; waiting for its one pending restart, with
   * no live child and fewer than three spawned; or, for the scheduler and the worker, given up after three.
   */
  lemma RolesInColumns(webPid: int, schedulerPid: int, workerPid: int, events: seq<Event>, r: Role)
    requires Legal(Started(webPid, schedulerPid, workerPid), events)
    ensures var u := Run(Started(webPid, schedulerPid, workerPid), events);
            && |Children(u.children, r, true)| <= 1 && |Children(u.children, r, false)| <= 3
            && (!u.stopping && u.exited == None ==>
                  || (Of(u.timers, r) == 0 && (Running(u, r) || GivenUp(u, r)))
                  || (Of(u.timers, r) == 1 && Children(u.children, r, true) == {}
                      && |Children(u.children, r, false)| < 3))
  {
    var u := Run(Started(webPid, schedulerPid, workerPid), events);
    StartedIsInv(webPid, schedulerPid, workerPid);
    RunKeepsInv(Started(webPid, schedulerPid, workerPid), events);
    assert RoleInv(u, r);
    RoleInColumns(u, r);
  }

  lemma RoleInColumns(u: State, r: Role)
    requires RoleInv(u, r)
    ensures |Children(u.children, r, true)| <= 1 && |Children(u.children, r, false)| <= 3
    ensures !u.stopping && u.exited == None ==>
      || (Of(u.timers, r) == 0 && (Running(u, r) || GivenUp(u, r)))
      || (Of(u.timers, r) == 1 && Children(u.children, r, true) == {} && |Children(u.children, r, false)| < 3)
  {
    ChildrenAreCounted(u.children, r);
    if Newest(u.children, r).Some? {
      var i := NewestIsLast(u.children, r);
    }
  }

  /** Whatever is spawned later was asked for by a timer of its role, under the pid the system gave it. */
  lemma {:induction false} SpawnedByTimers(s: State, events: seq<Event>, i: nat)
    requires Legal(s, events) && |s.children| <= i < |Run(s, events).children|
    ensures var c := Run(s, events).children[i]; TimerFires(c.role, c.pid) in events
    decreases |events|
  {
    var u := Step(s, events[0]);
    if i < |u.children| {
      ChildrenKeepPids(u, events[1..], i);
      assert events[0] == TimerFires(u.children[i].role, u.children[i].pid);
    } else {
      SpawnedByTimers(u, events[1..], i);
    }
  }

  lemma {:induction false} ChildrenKeepPids(s: State, events: seq<Event>, i: nat)
    requires Legal(s, events) && i < |s.children|
    ensures i < |Run(s, events).children|
    ensures var c := Run(s, events).children[i]; c.role == s.children[i].role && c.pid == s.children[i].pid
    decreases |events|
  {
    if events != [] {
      ChildrenKeepPids(Step(s, events[0]), events[1..], i);
    }
  }

  /** Shutdown begins only on a signal, or when a web child exits after its restarts are used up. */
  lemma ShutdownBeginsOnlyWhen(s: State, e: Event)
    requires Enabled(s, e) && !s.stopping
    ensures Step(s, e).stopping <==>
      e.Signal? || (e.Exit? && s.children[e.child].role == Web && s.restarts.web >= 2)
    ensures Step(s, e).stopping ==>
      Step(s, e).shutdownCode == if e.Signal? then 0 else if e.code.Some? then e.code.value else 1
  {
  }

  /**
   * Once shutdown has begun nothing is spawned, the lock stays as it was until it is cleared, and the code is settled.
   */
  lemma {:induction false} NothingSpawnedAfterShutdown(s: State, events: seq<Event>)
    requires s.stopping && Legal(s, events)
    ensures var u := Run(s, events);
            && u.stopping && |u.children| == |s.children| && u.shutdownCode == s.shutdownCode
            && (forall i :: 0 <= i < |s.children| ==>
              u.children[i].pid == s.children[i].pid && (u.children[i].alive ==> s.children[i].alive))
            && (u.lock == s.lock || u.lock == None)
            && (s.exited.None? && u.exited.Some? ==> u.exited == Some(s.shutdownCode) && u.lock == None)
    decreases |events|
  {
    if events != [] {
      NothingSpawnedAfterShutdown(Step(s, events[0]), events[1..]);
    }
  }
}
