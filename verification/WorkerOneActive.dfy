/** Startup establishes "one active run per in-scope job", and no later worker step breaks it. */
module WorkerOneActive {
  import opened Prelude
  import opened RunTable
  import opened DuplicateRepair
  import opened DuplicateRepairProofs
  import opened ApplicationWorker
  import opened WorkerProtocol

  predicate Pending(todo: seq<Group>, jobId: JobId) {
    exists i :: 0 <= i < |todo| && todo[i].jobId == jobId
  }

  /** Two active runs of one in-scope job. */
  ghost predicate Clash(scope: Scope, rows: Table, a: RunId, b: RunId) {
    a in rows && b in rows && a != b && Active(rows[a].status) && Active(rows[b].status)
    && rows[a].jobId == rows[b].jobId && scope.Contains(rows[a].jobId)
  }

  /**
   * The runs that outsiders (enqueueing, answering, the scripts) have created or written since the latest repair read
   * its snapshot.
   */
  function TouchedBy(events: seq<Event>, touched: set<RunId>): set<RunId>
    decreases |events|
  {
    if events == [] then touched else TouchedBy(events[1..], Touch(events[0], touched))
  }

  function Touch(e: Event, touched: set<RunId>): set<RunId> {
    match e
    case ReadActive(_) => {}
    case ExternalCreate(id, _) => touched + {id}
    case ExternalWrite(id, _) => touched + {id}
    case _ => touched
  }

  /** Among untouched runs only jobs still on the list may clash, and the list knows all of those. */
  ghost predicate ListCovers(scope: Scope, rows: Table, todo: seq<Group>, touched: set<RunId>) {
    && (forall a, b | Clash(scope, rows, a, b) :: a in touched || b in touched || Pending(todo, rows[a].jobId))
    && AllListed(rows, todo, touched)
  }

  ghost predicate AllListed(rows: Table, todo: seq<Group>, touched: set<RunId>) {
    forall i, id | 0 <= i < |todo| && id in rows && id !in touched && Active(rows[id].status) ::
      rows[id].jobId == todo[i].jobId ==> id == todo[i].survivor || id in todo[i].duplicates
  }

  /** The run is active, or is the one the processor is at work on. */
  ghost predicate Occupied(s: State, id: RunId) {
    id in s.rows
    && (Active(s.rows[id].status) || ((s.phase.ClaimWon? || s.phase.Processing?) && s.phase.run == id))
  }

  ghost predicate Collide(scope: Scope, s: State, a: RunId, b: RunId) {
    Occupied(s, a) && Occupied(s, b) && a != b && s.rows[a].jobId == s.rows[b].jobId && scope.Contains(s.rows[a].jobId)
  }

  /** The repair has gone through. */
  predicate PastRepair(phase: Phase) {
    Serving(phase) || phase.RepairDone? || phase.Requeuing?
  }

  /** What the recovery is about to requeue was running when listed, unless an outsider wrote it since. */
  ghost predicate ListedUntouchedRun(s: State, touched: set<RunId>) {
    s.phase.Requeuing? ==>
      forall id :: id in s.phase.ids && id in s.rows && id !in touched ==> s.rows[id].status == Running
  }

  ghost predicate ClashesAreOutside(scope: Scope, s: State, touched: set<RunId>) {
    match s.phase
    case Down => true
    case Locked => true
    case Nulling(todo) => ListCovers(scope, s.rows, todo, touched)
    case Keying(todo) => todo != [] ==> ListCovers(scope, s.rows, todo[1..], touched)
    case _ =>
      (forall a, b | Collide(scope, s, a, b) :: a in touched || b in touched) && ListedUntouchedRun(s, touched)
  }

  lemma PlanCovers(scope: Scope, rows: Table, active: seq<RunId>)
    requires Fetched(rows, active)
    ensures ListCovers(scope, rows, Plan(rows, scope, active), {})
  {
    var plan := Plan(rows, scope, active);
    var keys := Jobs(rows, scope, active);
    forall id | id in rows && Active(rows[id].status) && scope.Contains(rows[id].jobId)
      ensures Pending(plan, rows[id].jobId)
    {
      assert id in active;
      assert rows[id].jobId in keys;
      var k :| 0 <= k < |keys| && keys[k] == rows[id].jobId;
      assert plan[k].jobId == keys[k];
    }
    forall i, id | 0 <= i < |plan| && id in rows && Active(rows[id].status)
      ensures rows[id].jobId == plan[i].jobId ==> id == plan[i].survivor || id in plan[i].duplicates
    {
      assert id in active;
    }
  }

  lemma NullingCovers(scope: Scope, rows: Table, todo: seq<Group>, touched: set<RunId>, now: int)
    requires todo != [] && ListCovers(scope, rows, todo, touched)
    ensures ListCovers(scope, UpdateMany(rows, todo[0].duplicates, (row: Row) => SupersededRow(row, now)), todo[1..],
        touched)
  {
    var u := UpdateMany(rows, todo[0].duplicates, (row: Row) => SupersededRow(row, now));
    forall a, b | Clash(scope, u, a, b) ensures a in touched || b in touched || Pending(todo[1..], u[a].jobId) {
      assert Clash(scope, rows, a, b);
      if a !in touched && b !in touched {
        var i :| 0 <= i < |todo| && todo[i].jobId == rows[a].jobId;
        assert i != 0;
        assert todo[1..][i - 1] == todo[i];
      }
    }
    assert AllListed(u, todo[1..], touched);
  }

  lemma KeyingCovers(scope: Scope, rows: Table, rest: seq<Group>, touched: set<RunId>, g: Group)
    requires ListCovers(scope, rows, rest, touched)
    ensures ListCovers(scope, UpdateMany(rows, {g.survivor}, (row: Row) => row.(activeKey := Some(g.jobId))), rest,
        touched)
  {
    var u := UpdateMany(rows, {g.survivor}, (row: Row) => row.(activeKey := Some(g.jobId)));
    assert forall id :: id in u ==> u[id].status == rows[id].status && u[id].jobId == rows[id].jobId;
    assert forall a, b :: Clash(scope, u, a, b) ==> Clash(scope, rows, a, b);
    assert AllListed(u, rest, touched);
  }

  lemma EmptyListMeansOutside(scope: Scope, s: State, touched: set<RunId>)
    requires ListCovers(scope, s.rows, [], touched) && s.phase.RepairDone?
    ensures ClashesAreOutside(scope, s, touched)
  {
    forall a, b | Collide(scope, s, a, b) ensures a in touched || b in touched {
      assert Clash(scope, s.rows, a, b);
      assert !Pending([], s.rows[a].jobId);
    }
  }

  lemma RepairStep(scope: Scope, s: State, e: Event, touched: set<RunId>)
    requires Enabled(scope, s, e) && ClashesAreOutside(scope, s, touched)
    requires e.ReadActive? || e.NullDuplicates? || e.KeySurvivor?
    ensures ClashesAreOutside(scope, Step(scope, s, e), Touch(e, touched))
  {
    var u := Step(scope, s, e);
    match e
    case ReadActive(active) =>
      PlanCovers(scope, s.rows, active);
      if u.phase.RepairDone? {
        EmptyListMeansOutside(scope, u, {});
      }
    case NullDuplicates(now) =>
      NullingCovers(scope, s.rows, s.phase.todo, touched, now);
    case KeySurvivor =>
      KeyingCovers(scope, s.rows, s.phase.todo[1..], touched, s.phase.todo[0]);
      if u.phase.RepairDone? {
        EmptyListMeansOutside(scope, u, touched);
      }
  }

  /** Past the repair no worker step occupies an untouched run that was not occupied before. */
  lemma ServingStepOccupiesNothing(scope: Scope, s: State, e: Event, touched: set<RunId>, id: RunId)
    requires Enabled(scope, s, e) && !External(e) && PastRepair(s.phase) && ListedUntouchedRun(s, touched)
    requires id !in touched && Occupied(Step(scope, s, e), id)
    ensures Occupied(s, id) && Step(scope, s, e).rows[id].jobId == s.rows[id].jobId
  {
  }

  lemma AfterServingStep(scope: Scope, s: State, e: Event, touched: set<RunId>)
    requires Enabled(scope, s, e) && !External(e) && PastRepair(s.phase) && ListedUntouchedRun(s, touched)
    ensures PastRepair(Step(scope, s, e).phase) || Step(scope, s, e).phase.Down?
    ensures ListedUntouchedRun(Step(scope, s, e), touched)
  {
  }

  lemma ServingStep(scope: Scope, s: State, e: Event, touched: set<RunId>)
    requires Enabled(scope, s, e) && !External(e) && PastRepair(s.phase) && ClashesAreOutside(scope, s, touched)
    ensures ClashesAreOutside(scope, Step(scope, s, e), touched)
  {
    AfterServingStep(scope, s, e, touched);
    forall a, b | Collide(scope, Step(scope, s, e), a, b) ensures a in touched || b in touched {
      if a !in touched && b !in touched {
        ServingStepOccupiesNothing(scope, s, e, touched, a);
        ServingStepOccupiesNothing(scope, s, e, touched, b);
        assert Collide(scope, s, a, b);
      }
    }
  }

  lemma OutsideRows(scope: Scope, s: State, e: Event, touched: set<RunId>, id: RunId)
    requires Enabled(scope, s, e) && External(e) && id !in Touch(e, touched) && id in Step(scope, s, e).rows
    ensures id !in touched && id in s.rows && Step(scope, s, e).rows[id] == s.rows[id]
  {
  }

  /** An outside write leaves every clash between runs it has not touched as it was. */
  lemma OutsideClash(scope: Scope, s: State, e: Event, touched: set<RunId>, a: RunId, b: RunId)
    requires Enabled(scope, s, e) && External(e) && a !in Touch(e, touched) && b !in Touch(e, touched)
    ensures Clash(scope, Step(scope, s, e).rows, a, b) ==> Clash(scope, s.rows, a, b)
    ensures Collide(scope, Step(scope, s, e), a, b) ==> Collide(scope, s, a, b)
  {
    if a in Step(scope, s, e).rows && b in Step(scope, s, e).rows {
      OutsideRows(scope, s, e, touched, a);
      OutsideRows(scope, s, e, touched, b);
    }
  }

  lemma OutsideListCovers(scope: Scope, s: State, e: Event, todo: seq<Group>, touched: set<RunId>)
    requires Enabled(scope, s, e) && External(e) && ListCovers(scope, s.rows, todo, touched)
    ensures ListCovers(scope, Step(scope, s, e).rows, todo, Touch(e, touched))
  {
    var u, after := Step(scope, s, e).rows, Touch(e, touched);
    forall a, b | Clash(scope, u, a, b) ensures a in after || b in after || Pending(todo, u[a].jobId) {
      if a !in after && b !in after {
        OutsideClash(scope, s, e, touched, a, b);
        OutsideRows(scope, s, e, touched, a);
        OutsideRows(scope, s, e, touched, b);
      }
    }
    forall i, id | 0 <= i < |todo| && id in u && id !in after && Active(u[id].status)
      ensures u[id].jobId == todo[i].jobId ==> id == todo[i].survivor || id in todo[i].duplicates
    {
      OutsideRows(scope, s, e, touched, id);
    }
  }

  lemma OutsideStep(scope: Scope, s: State, e: Event, touched: set<RunId>)
    requires Enabled(scope, s, e) && External(e) && ClashesAreOutside(scope, s, touched)
    ensures ClashesAreOutside(scope, Step(scope, s, e), Touch(e, touched))
  {
    match s.phase
    case Down =>
    case Locked =>
    case Nulling(todo) => OutsideListCovers(scope, s, e, todo, touched);
    case Keying(todo) => if todo != [] { OutsideListCovers(scope, s, e, todo[1..], touched); }
    case _ => OutsidePastRepair(scope, s, e, touched);
  }

  lemma OutsidePastRepair(scope: Scope, s: State, e: Event, touched: set<RunId>)
    requires Enabled(scope, s, e) && External(e) && PastRepair(s.phase) && ClashesAreOutside(scope, s, touched)
    ensures ClashesAreOutside(scope, Step(scope, s, e), Touch(e, touched))
  {
    var u, after := Step(scope, s, e), Touch(e, touched);
    forall a, b | Collide(scope, u, a, b) ensures a in after || b in after {
      if a !in after && b !in after {
        OutsideClash(scope, s, e, touched, a, b);
      }
    }
    forall id | u.phase.Requeuing? && id in u.phase.ids && id in u.rows && id !in after
      ensures u.rows[id].status == Running
    {
      OutsideRows(scope, s, e, touched, id);
    }
  }

  /** Every step keeps: past the repair, any two clashing runs include one that an outsider created or wrote. */
  lemma StepKeepsClashesOutside(scope: Scope, s: State, e: Event, touched: set<RunId>)
    requires Enabled(scope, s, e) && ClashesAreOutside(scope, s, touched)
    ensures ClashesAreOutside(scope, Step(scope, s, e), Touch(e, touched))
  {
    if External(e) {
      OutsideStep(scope, s, e, touched);
    } else if e.ReadActive? || e.NullDuplicates? || e.KeySurvivor? {
      RepairStep(scope, s, e, touched);
    } else if PastRepair(s.phase) {
      ServingStep(scope, s, e, touched);
    }
  }

  /**
   * No worker step ever makes a clash. From any state, over every run of starts, crashes, claims and exceptions with
   * arbitrary outside writes in between: once a repair has gone through, any two active runs of one in-scope job
   * include one that an outsider created or wrote since that repair read the table.
   */
  lemma {:induction false} EveryClashWasMadeOutside(
      scope: Scope, s: State, events: seq<Event>, touched: set<RunId>, a: RunId, b: RunId)
    requires ClashesAreOutside(scope, s, touched) && Legal(scope, s, events)
    requires var u := Run(scope, s, events); PastRepair(u.phase) && Clash(scope, u.rows, a, b)
    ensures a in TouchedBy(events, touched) || b in TouchedBy(events, touched)
    decreases |events|
  {
    if events == [] {
      assert Collide(scope, s, a, b);
    } else {
      StepKeepsClashesOutside(scope, s, events[0], touched);
      EveryClashWasMadeOutside(scope, Step(scope, s, events[0]), events[1..], Touch(events[0], touched), a, b);
    }
  }

  /**
   * From any table with no live worker, at every moment after a repair has gone through: "one active run per in-scope
   * job" holds exactly when no run that outsiders touched has an active sibling. Without outside writes it holds.
   */
  lemma OneActiveAfterRepair(scope: Scope, s: State, events: seq<Event>)
    requires s.phase.Down? && Legal(scope, s, events) && PastRepair(Run(scope, s, events).phase)
    ensures var u := Run(scope, s, events);
            OneActivePerJob(u.rows, scope) <==>
              forall a, b :: a in TouchedBy(events, {}) ==> !Clash(scope, u.rows, a, b)
    ensures TouchedBy(events, {}) == {} ==> OneActivePerJob(Run(scope, s, events).rows, scope)
  {
    var u, touched := Run(scope, s, events), TouchedBy(events, {});
    if forall a, b :: a in touched ==> !Clash(scope, u.rows, a, b) {
      forall a, b | a in u.rows && b in u.rows && Active(u.rows[a].status) && Active(u.rows[b].status)
        ensures u.rows[a].jobId == u.rows[b].jobId && scope.Contains(u.rows[a].jobId) ==> a == b
      {
        if Clash(scope, u.rows, a, b) {
          EveryClashWasMadeOutside(scope, s, events, {}, a, b);
          assert Clash(scope, u.rows, b, a);
        }
      }
    }
    if OneActivePerJob(u.rows, scope) {
      forall a, b ensures !Clash(scope, u.rows, a, b) {
      }
    }
  }

  /** Such a clash is ordinary: a second person queues a job that somebody else's run is still active for. */
  lemma SecondOwnerClashes(scope: Scope, s: State, id: RunId, other: RunId, row: Row)
    requires other in s.rows && Active(s.rows[other].status) && scope.Contains(s.rows[other].jobId)
    requires id !in s.rows && row.jobId == s.rows[other].jobId && row.status == Queued && IndexAllows(s.rows, id, row)
    requires row.userId != s.rows[other].userId
    ensures Enabled(scope, s, ExternalCreate(id, row))
    ensures Clash(scope, Step(scope, s, ExternalCreate(id, row)).rows, id, other)
  {
  }

  // ---- the repair steps, undisturbed, are the repair ----

  /** The first `k` jobs nulled and keyed one after the other. */
  function RepairEvents(k: nat, now: int): seq<Event> {
    if k == 0 then [] else [NullDuplicates(now), KeySurvivor] + RepairEvents(k - 1, now)
  }

  lemma NullStep(scope: Scope, s: State, t: Table, keep: map<JobId, RunId>, done: set<JobId>, g: Group, now: int)
    requires done <= keep.Keys && g.jobId in keep && g.jobId !in done
    requires forall id :: id in g.duplicates <==>
      id in t && Active(t[id].status) && t[id].jobId == g.jobId && id != keep[g.jobId]
    requires s.phase.Nulling? && s.phase.todo != [] && s.phase.todo[0] == g && s.rows == Repaired(t, keep, done, now)
    ensures Step(scope, s, NullDuplicates(now))
         == s.(rows := Nulled(t, keep, done, g.jobId, now), phase := Keying(s.phase.todo))
  {
    FirstWrite(t, keep, done, g.jobId, g.duplicates, now);
  }

  lemma KeyStep(scope: Scope, s: State, t: Table, keep: map<JobId, RunId>, done: set<JobId>, g: Group, now: int)
    requires done <= keep.Keys && g.jobId in keep && g.jobId !in done && g.survivor == keep[g.jobId]
    requires g.survivor in t && Active(t[g.survivor].status) && t[g.survivor].jobId == g.jobId
    requires KeyFree(t, done, g.jobId) && s.rows == Nulled(t, keep, done, g.jobId, now)
    requires s.phase.Keying? && s.phase.todo != [] && s.phase.todo[0] == g
    ensures Step(scope, s, KeySurvivor)
         == s.(rows := Repaired(t, keep, done + {g.jobId}, now), phase := NextGroup(s.phase.todo[1..]))
  {
    KeyTakenIffNotFree(t, keep, done, g.jobId, now);
    SecondWrite(t, keep, done, g.jobId, now);
  }

  /** What one repair works through: the jobs in order, the run each keeps, and the groups to write. */
  datatype Course = Course(keys: seq<JobId>, keep: map<JobId, RunId>, plan: seq<Group>)

  function CourseOf(scope: Scope, t: Table, active: seq<RunId>): Course
    requires Fetched(t, active)
  {
    Course(Jobs(t, scope, active), Survivors(t, scope, active), Plan(t, scope, active))
  }

  /** The first `k` jobs have been dealt with. */
  ghost predicate AtJob(c: Course, t: Table, k: nat, s: State, now: int) {
    k <= |c.keys| && k <= |c.plan| && ToSet(c.keys[..k]) <= c.keep.Keys
    && s.rows == Repaired(t, c.keep, ToSet(c.keys[..k]), now) && s.phase == NextGroup(c.plan[k..])
  }

  /** The `k`-th group is what the job's two writes need, and its key is free. */
  ghost predicate GroupIsSound(c: Course, t: Table, k: nat) {
    k < |c.keys| == |c.plan| &&
    var g, done := c.plan[k], ToSet(c.keys[..k]);
    && g.jobId in c.keep && g.survivor == c.keep[g.jobId] && g.jobId !in done
    && ToSet(c.keys[..k + 1]) == done + {g.jobId}
    && g.survivor in t && Active(t[g.survivor].status) && t[g.survivor].jobId == g.jobId
    && (forall id :: id in g.duplicates <==>
          id in t && Active(t[id].status) && t[id].jobId == g.jobId && id != g.survivor)
    && KeyFree(t, done, g.jobId)
  }

  lemma GroupsAreSound(scope: Scope, t: Table, active: seq<RunId>, k: nat)
    requires Fetched(t, active) && AllKeysFree(t, Jobs(t, scope, active)) && k < |Jobs(t, scope, active)|
    ensures GroupIsSound(CourseOf(scope, t, active), t, k)
  {
    PrefixJobs(t, scope, active, k);
    var g := GroupAt(scope, t, active, k);
  }

  lemma PlanStep(scope: Scope, c: Course, t: Table, k: nat, s: State, now: int) returns (s2: State)
    requires GroupIsSound(c, t, k) && AtJob(c, t, k, s, now)
    ensures TwoWrites(scope, s, now, s2)
    ensures AtJob(c, t, k + 1, s2, now) && s2 == s.(rows := s2.rows, phase := s2.phase)
  {
    var g := c.plan[k];
    assert c.plan[k..][0] == g && c.plan[k..][1..] == c.plan[k + 1..];
    NullStep(scope, s, t, c.keep, ToSet(c.keys[..k]), g, now);
    var s1 := Step(scope, s, NullDuplicates(now));
    KeyStep(scope, s1, t, c.keep, ToSet(c.keys[..k]), g, now);
    s2 := Step(scope, s1, KeySurvivor);
  }

  lemma GroupAt(scope: Scope, t: Table, active: seq<RunId>, k: nat) returns (g: Group)
    requires Fetched(t, active) && AllKeysFree(t, Jobs(t, scope, active)) && k < |Jobs(t, scope, active)|
    ensures g == Plan(t, scope, active)[k] && g.jobId == Jobs(t, scope, active)[k]
    ensures g.jobId in Survivors(t, scope, active) && g.survivor == Survivors(t, scope, active)[g.jobId]
    ensures g.survivor in t && Active(t[g.survivor].status) && t[g.survivor].jobId == g.jobId
    ensures forall id :: id in g.duplicates <==>
      id in t && Active(t[id].status) && t[id].jobId == g.jobId && id != g.survivor
    ensures KeyFree(t, ToSet(Jobs(t, scope, active)[..k]), g.jobId)
  {
    g := Plan(t, scope, active)[k];
    assert g.jobId in Jobs(t, scope, active);
  }

  /** Each state is reached from the one before it by nulling and keying one group. */
  ghost predicate Chain(scope: Scope, states: seq<State>, now: int) {
    forall i :: 0 <= i < |states| - 1 ==> TwoWrites(scope, states[i], now, states[i + 1])
  }

  ghost predicate TwoWrites(scope: Scope, s: State, now: int, u: State) {
    Enabled(scope, s, NullDuplicates(now)) && Enabled(scope, Step(scope, s, NullDuplicates(now)), KeySurvivor)
    && u == Step(scope, Step(scope, s, NullDuplicates(now)), KeySurvivor)
  }

  /** Following a chain of states is a legal run. */
  lemma {:induction false} ChainRuns(scope: Scope, states: seq<State>, now: int)
    requires states != [] && Chain(scope, states, now)
    ensures Legal(scope, states[0], RepairEvents(|states| - 1, now))
    ensures Run(scope, states[0], RepairEvents(|states| - 1, now)) == states[|states| - 1]
  {
    if |states| > 1 {
      assert TwoWrites(scope, states[0], now, states[1]);
      ChainTail(scope, states, now);
      ChainRuns(scope, states[1..], now);
      TwoMore(scope, states[0], NullDuplicates(now), KeySurvivor, RepairEvents(|states| - 2, now));
    }
  }

  lemma ChainTail(scope: Scope, states: seq<State>, now: int)
    requires |states| > 1 && Chain(scope, states, now)
    ensures Chain(scope, states[1..], now)
  {
    forall i | 0 <= i < |states| - 2 ensures TwoWrites(scope, states[1..][i], now, states[1..][i + 1]) {
      assert TwoWrites(scope, states[i + 1], now, states[i + 2]);
    }
  }

  lemma ChainCons(scope: Scope, s: State, states: seq<State>, now: int)
    requires states != [] && Chain(scope, states, now) && TwoWrites(scope, s, now, states[0])
    ensures Chain(scope, [s] + states, now)
  {
    var all := [s] + states;
    forall i | 0 <= i < |all| - 1 ensures TwoWrites(scope, all[i], now, all[i + 1]) {
      if i > 0 {
        assert TwoWrites(scope, states[i - 1], now, states[i]);
      }
    }
  }

  /** The states an undisturbed repair goes through from its `k`-th job on. */
  ghost predicate Follows(scope: Scope, c: Course, t: Table, k: nat, states: seq<State>, now: int) {
    k <= |c.keys| && |states| == |c.keys| - k + 1 && Chain(scope, states, now) &&
    var first, last := states[0], states[|states| - 1];
    AtJob(c, t, |c.keys|, last, now) && last == first.(rows := last.rows, phase := last.phase)
  }

  lemma FollowsFromNext(scope: Scope, c: Course, t: Table, k: nat, s: State, rest: seq<State>, now: int)
    requires Follows(scope, c, t, k + 1, rest, now) && TwoWrites(scope, s, now, rest[0])
    requires rest[0] == s.(rows := rest[0].rows, phase := rest[0].phase)
    ensures Follows(scope, c, t, k, [s] + rest, now)
  {
    ChainCons(scope, s, rest, now);
  }

  lemma {:induction false} RepairStates(scope: Scope, c: Course, t: Table, k: nat, s: State, now: int)
    returns (states: seq<State>)
    requires AtJob(c, t, k, s, now) && |c.keys| == |c.plan|
    requires forall j :: 0 <= j < |c.keys| ==> GroupIsSound(c, t, j)
    ensures Follows(scope, c, t, k, states, now) && states[0] == s
    decreases |c.keys| - k
  {
    if k == |c.keys| {
      states := [s];
    } else {
      var s2 := PlanStep(scope, c, t, k, s, now);
      var rest := RepairStates(scope, c, t, k + 1, s2, now);
      FollowsFromNext(scope, c, t, k, s, rest, now);
      states := [s] + rest;
    }
  }

  /** Following the course from its start is a legal run that ends with every job dealt with. */
  lemma FollowCourse(scope: Scope, c: Course, t: Table, s: State, now: int)
    requires AtJob(c, t, 0, s, now) && |c.keys| == |c.plan|
    requires forall j :: 0 <= j < |c.keys| ==> GroupIsSound(c, t, j)
    ensures Legal(scope, s, RepairEvents(|c.keys|, now))
    ensures var u := Run(scope, s, RepairEvents(|c.keys|, now));
            AtJob(c, t, |c.keys|, u, now) && u == s.(rows := u.rows, phase := u.phase)
  {
    var states := RepairStates(scope, c, t, 0, s, now);
    ChainRuns(scope, states, now);
  }

  lemma CourseStarts(c: Course, t: Table, s: State, now: int)
    requires s.rows == t && s.phase == NextGroup(c.plan)
    ensures AtJob(c, t, 0, s, now)
  {
    assert c.plan[0..] == c.plan;
    assert Repaired(t, c.keep, ToSet(c.keys[..0]), now) == t;
  }

  lemma CourseEnds(c: Course, t: Table, s: State, now: int)
    requires |c.keys| == |c.plan| && AtJob(c, t, |c.keys|, s, now)
    ensures ToSet(c.keys) <= c.keep.Keys && s.rows == Repaired(t, c.keep, ToSet(c.keys), now) && s.phase == RepairDone
  {
    assert c.keys[..|c.keys|] == c.keys;
  }

  /** A startup nobody interrupts takes the table to exactly what the repair method leaves. */
  lemma UninterruptedRepairRefinesMethod(scope: Scope, s: State, active: seq<RunId>, now: int)
    requires s.phase.Locked? && Fetched(s.rows, active) && AllKeysFree(s.rows, Jobs(s.rows, scope, active))
    ensures var events := [ReadActive(active)] + RepairEvents(|Jobs(s.rows, scope, active)|, now);
            && Legal(scope, s, events)
            && Run(scope, s, events) == s.(rows := FullyRepaired(s.rows, scope, active, now), phase := RepairDone)
  {
    var t, c := s.rows, CourseOf(scope, s.rows, active);
    var s1 := Step(scope, s, ReadActive(active));
    forall j | 0 <= j < |c.keys| ensures GroupIsSound(c, t, j) {
      GroupsAreSound(scope, t, active, j);
    }
    CourseStarts(c, t, s1, now);
    FollowCourse(scope, c, t, s1, now);
    CourseEnds(c, t, Run(scope, s1, RepairEvents(|c.keys|, now)), now);
    var rest := RepairEvents(|c.keys|, now);
    assert ([ReadActive(active)] + rest)[1..] == rest;
  }

  lemma TwoMore(scope: Scope, s: State, e0: Event, e1: Event, rest: seq<Event>)
    requires Enabled(scope, s, e0) && Enabled(scope, Step(scope, s, e0), e1)
    ensures var s2 := Step(scope, Step(scope, s, e0), e1);
            && (Legal(scope, s, [e0, e1] + rest) <==> Legal(scope, s2, rest))
            && (Legal(scope, s2, rest) ==> Run(scope, s, [e0, e1] + rest) == Run(scope, s2, rest))
  {
    var s1 := Step(scope, s, e0);
    assert ([e0, e1] + rest)[1..] == [e1] + rest && ([e1] + rest)[1..] == rest;
    assert Legal(scope, s1, [e1] + rest) <==> Legal(scope, Step(scope, s1, e1), rest);
  }
}
