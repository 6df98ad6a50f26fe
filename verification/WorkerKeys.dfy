/** Who holds the keys, followed over runs of the protocol: what a refused start says about the writes before it. */
module WorkerKeys {
  import opened Prelude
  import opened RunTable
  import opened DuplicateRepair
  import opened DuplicateRepairProofs
  import opened ApplicationWorker
  import opened WorkerProtocol

  /** Enqueueing qualifies its keys with the owner, `owner:job`; a generated job id has no colon. */
  predicate Qualified(key: string) {
    ':' in key
  }

  /** A key that is a bare job id is that of the run's own job, and the run is active. */
  predicate KeyIsSound(row: Row) {
    !Qualified(row.jobId)
    && (row.activeKey.Some? && !Qualified(row.activeKey.value) ==>
          Active(row.status) && row.activeKey.value == row.jobId)
  }

  ghost predicate KeysAreSound(t: Table) {
    forall id :: id in t ==> KeyIsSound(t[id])
  }

  /** From a table with sound keys a repair that nobody disturbs meets no refusal. */
  lemma SoundKeysSuffice(t: Table, scope: Scope, active: seq<RunId>)
    requires KeysAreSound(t) && Fetched(t, active)
    ensures AllKeysFree(t, Jobs(t, scope, active))
  {
    assert OwnKeys(t, scope);
    OwnKeysSuffice(t, scope, active);
  }

  // ---- the index ----

  /** Over every run: the unique index holds at every moment. */
  lemma {:induction false} KeysStayDistinct(scope: Scope, s: State, events: seq<Event>)
    requires DistinctKeys(s.rows) && Legal(scope, s, events)
    ensures DistinctKeys(Run(scope, s, events).rows)
    decreases |events|
  {
    if events != [] {
      StepKeepsDistinct(scope, s, events[0]);
      KeysStayDistinct(scope, Step(scope, s, events[0]), events[1..]);
    }
  }

  lemma StepKeepsDistinct(scope: Scope, s: State, e: Event)
    requires DistinctKeys(s.rows) && Enabled(scope, s, e)
    ensures DistinctKeys(Step(scope, s, e).rows)
  {
    var u := Step(scope, s, e).rows;
    forall a, b | a in u && b in u && a != b && u[a].activeKey.Some? ensures u[a].activeKey != u[b].activeKey {
      KeyAfterStep(scope, s, e, a);
      if u[b].activeKey.Some? {
        KeyAfterStep(scope, s, e, b);
      }
    }
  }

  /** A key is new only where the index let it in, and then on one run. */
  lemma KeyAfterStep(scope: Scope, s: State, e: Event, id: RunId)
    requires Enabled(scope, s, e) && id in Step(scope, s, e).rows && Step(scope, s, e).rows[id].activeKey.Some?
    ensures var key := Step(scope, s, e).rows[id].activeKey;
            (id in s.rows && s.rows[id].activeKey == key)
            || (forall other :: other in Step(scope, s, e).rows && other != id ==>
                  other in s.rows && s.rows[other].activeKey != key
                  && Step(scope, s, e).rows[other].activeKey == s.rows[other].activeKey)
  {
  }

  // ---- the groups ahead of the repair ----

  /** The first group without its duplicates. */
  function Trimmed(todo: seq<Group>): (r: seq<Group>)
    requires todo != []
    ensures |r| == |todo| && r[0] == todo[0].(duplicates := {}) && forall i :: 0 < i < |r| ==> r[i] == todo[i]
  {
    [todo[0].(duplicates := {})] + todo[1..]
  }

  /** The groups not yet keyed; duplicates that have been nulled are no longer listed. */
  function Ahead(phase: Phase): seq<Group> {
    match phase
    case Nulling(todo) => todo
    case Keying(todo) => if todo == [] then [] else Trimmed(todo)
    case _ => []
  }

  /** The survivor is there and active, and only runs of the group hold its job's id as key. */
  ghost predicate GroupIsSafe(t: Table, g: Group) {
    && g.survivor in t && Active(t[g.survivor].status) && t[g.survivor].jobId == g.jobId && !Qualified(g.jobId)
    && (forall id :: id in t && t[id].activeKey == Some(g.jobId) ==> id == g.survivor || id in g.duplicates)
  }

  /** The groups of a plan do not overlap. */
  ghost predicate Apart(todo: seq<Group>) {
    forall i, j :: 0 <= i < |todo| && 0 <= j < |todo| ==>
      todo[i].survivor !in todo[j].duplicates && (i != j ==> todo[i].jobId != todo[j].jobId)
  }

  ghost predicate AheadIsSafe(s: State) {
    Apart(Ahead(s.phase)) && forall i :: 0 <= i < |Ahead(s.phase)| ==> GroupIsSafe(s.rows, Ahead(s.phase)[i])
  }

  /** Every key is sound, and the repair under way, if any, will meet no refusal. */
  ghost predicate Orderly(s: State) {
    KeysAreSound(s.rows) && AheadIsSafe(s)
  }

  /** The write gives a run an unsound key, finishes or loses a survivor, or takes a key the repair is about to set. */
  ghost predicate BreaksKeys(s: State, e: Event) {
    match e
    case ExternalCreate(id, row) => !KeyIsSound(row) || exists g :: g in Ahead(s.phase) && Disturbs(g, id, row)
    case ExternalWrite(id, row) => !KeyIsSound(row) || exists g :: g in Ahead(s.phase) && Disturbs(g, id, row)
    case ExternalDelete(id) => exists g :: g in Ahead(s.phase) && g.survivor == id
    case _ => false
  }

  predicate Disturbs(g: Group, id: RunId, row: Row) {
    (id == g.survivor && !Active(row.status))
    || (id != g.survivor && id !in g.duplicates && row.activeKey == Some(g.jobId))
  }

  // ---- worker steps ----

  /** Every write of the worker but the keying of a survivor leaves a sound key sound. */
  lemma WriteKeepsSound(scope: Scope, s: State, e: Event, id: RunId)
    requires Enabled(scope, s, e) && !External(e) && !e.KeySurvivor? && id in s.rows && KeyIsSound(s.rows[id])
    ensures id in Step(scope, s, e).rows && KeyIsSound(Step(scope, s, e).rows[id])
  {
  }

  /** And so does the keying, since the survivor is still active. */
  lemma KeyingKeepsSound(scope: Scope, s: State, e: Event, id: RunId)
    requires Enabled(scope, s, e) && e.KeySurvivor? && id in s.rows && KeyIsSound(s.rows[id])
    requires GroupIsSafe(s.rows, Ahead(s.phase)[0])
    ensures KeyIsSound(Step(scope, s, e).rows[id])
  {
  }

  lemma WorkerKeepsSound(scope: Scope, s: State, e: Event)
    requires Enabled(scope, s, e) && !External(e) && Orderly(s)
    ensures KeysAreSound(Step(scope, s, e).rows)
  {
    WorkerStepKeepsRuns(scope, s, e);
    forall id | id in s.rows ensures KeyIsSound(Step(scope, s, e).rows[id]) {
      if e.KeySurvivor? {
        KeyingKeepsSound(scope, s, e, id);
      } else {
        WriteKeepsSound(scope, s, e, id);
      }
    }
  }

  /** Past the groups there is nothing ahead, and the repair's own steps move along the list. */
  lemma AheadMoves(scope: Scope, s: State, e: Event)
    requires Enabled(scope, s, e) && !External(e)
    ensures var after := Ahead(Step(scope, s, e).phase);
            match e
            case NullDuplicates(_) => after == Trimmed(s.phase.todo)
            case KeySurvivor => after == [] || after == s.phase.todo[1..]
            case ReadActive(active) => after == Plan(s.rows, scope, active)
            case _ => after == []
  {
  }

  lemma PlanIsSafe(t: Table, scope: Scope, active: seq<RunId>)
    requires Fetched(t, active) && KeysAreSound(t)
    ensures var plan := Plan(t, scope, active);
            Apart(plan) && forall i :: 0 <= i < |plan| ==> GroupIsSafe(t, plan[i])
  {
    var plan, keys := Plan(t, scope, active), Jobs(t, scope, active);
    forall i | 0 <= i < |plan| ensures plan[i].jobId == keys[i] && GroupIsSafe(t, plan[i]) {
      PlannedGroupIsSafe(t, scope, active, i);
    }
    forall i, j | 0 <= i < |plan| && 0 <= j < |plan|
      ensures plan[i].survivor !in plan[j].duplicates && (i != j ==> plan[i].jobId != plan[j].jobId)
    {
      PlannedGroupsApart(t, scope, active, i, j);
    }
  }

  lemma PlannedGroupIsSafe(t: Table, scope: Scope, active: seq<RunId>, i: nat)
    requires Fetched(t, active) && KeysAreSound(t) && i < |Jobs(t, scope, active)|
    ensures Plan(t, scope, active)[i].jobId == Jobs(t, scope, active)[i]
    ensures GroupIsSafe(t, Plan(t, scope, active)[i])
  {
    var g := Plan(t, scope, active)[i];
    assert g.jobId in Jobs(t, scope, active);
    assert g.survivor in active && t[g.survivor].jobId == g.jobId;
    forall id | id in t && t[id].activeKey == Some(g.jobId) ensures id == g.survivor || id in g.duplicates {
      assert KeyIsSound(t[id]) && KeyIsSound(t[g.survivor]);
    }
  }

  lemma PlannedGroupsApart(t: Table, scope: Scope, active: seq<RunId>, i: nat, j: nat)
    requires Fetched(t, active) && i < |Jobs(t, scope, active)| && j < |Jobs(t, scope, active)|
    ensures var plan := Plan(t, scope, active);
            plan[i].survivor !in plan[j].duplicates && (i != j ==> plan[i].jobId != plan[j].jobId)
  {
    var plan, keys := Plan(t, scope, active), Jobs(t, scope, active);
    assert keys[i] in keys && keys[j] in keys;
    assert t[plan[i].survivor].jobId == keys[i];
  }

  lemma NullingIsSafe(s: State, now: int, g: Group, i: nat)
    requires s.phase.Nulling? && Orderly(s) && i < |s.phase.todo|
    requires g == if i == 0 then s.phase.todo[0].(duplicates := {}) else s.phase.todo[i]
    ensures GroupIsSafe(UpdateMany(s.rows, s.phase.todo[0].duplicates, (row: Row) => SupersededRow(row, now)), g)
  {
    assert GroupIsSafe(s.rows, Ahead(s.phase)[i]);
  }

  lemma KeyingIsSafe(s: State, i: nat)
    requires s.phase.Keying? && Orderly(s) && 0 < i < |s.phase.todo|
    ensures var g := s.phase.todo[0];
            GroupIsSafe(UpdateMany(s.rows, {g.survivor}, (row: Row) => row.(activeKey := Some(g.jobId))),
              s.phase.todo[i])
  {
    var all := Ahead(s.phase);
    assert all[i] == s.phase.todo[i] && all[0].jobId == s.phase.todo[0].jobId;
    assert GroupIsSafe(s.rows, all[i]) && all[0].jobId != all[i].jobId;
  }

  lemma NullStepIsSafe(scope: Scope, s: State, e: Event)
    requires Enabled(scope, s, e) && e.NullDuplicates? && Orderly(s)
    ensures AheadIsSafe(Step(scope, s, e))
  {
    var u := Step(scope, s, e);
    AheadMoves(scope, s, e);
    forall i | 0 <= i < |Ahead(u.phase)| ensures GroupIsSafe(u.rows, Ahead(u.phase)[i]) {
      NullingIsSafe(s, e.now, Ahead(u.phase)[i], i);
    }
  }

  lemma KeyStepIsSafe(scope: Scope, s: State, e: Event)
    requires Enabled(scope, s, e) && e.KeySurvivor? && Orderly(s)
    ensures AheadIsSafe(Step(scope, s, e))
  {
    var u, before := Step(scope, s, e), Ahead(s.phase);
    AheadMoves(scope, s, e);
    var after := Ahead(u.phase);
    forall i | 0 <= i < |after| ensures after[i] == before[i + 1] && GroupIsSafe(u.rows, after[i]) {
      KeyingIsSafe(s, i + 1);
    }
  }

  /** From an orderly state every worker step leads to an orderly state. */
  lemma WorkerStaysOrderly(scope: Scope, s: State, e: Event)
    requires Enabled(scope, s, e) && !External(e) && Orderly(s)
    ensures Orderly(Step(scope, s, e))
  {
    WorkerKeepsSound(scope, s, e);
    match e
    case NullDuplicates(_) => NullStepIsSafe(scope, s, e);
    case KeySurvivor => KeyStepIsSafe(scope, s, e);
    case ReadActive(active) =>
      PlanIsSafe(s.rows, scope, active);
      AheadMoves(scope, s, e);
    case _ => AheadMoves(scope, s, e);
  }

  // ---- outside steps ----

  lemma OutsideGroup(scope: Scope, s: State, e: Event, g: Group)
    requires Enabled(scope, s, e) && External(e) && GroupIsSafe(s.rows, g)
    ensures GroupIsSafe(Step(scope, s, e).rows, g) <==>
      match e
      case ExternalCreate(id, row) => !Disturbs(g, id, row)
      case ExternalWrite(id, row) => !Disturbs(g, id, row)
      case ExternalDelete(id) => g.survivor != id
      case _ => true
  {
  }

  lemma OutsideSound(scope: Scope, s: State, e: Event)
    requires Enabled(scope, s, e) && External(e) && KeysAreSound(s.rows)
    ensures KeysAreSound(Step(scope, s, e).rows) <==>
      match e
      case ExternalCreate(_, row) => KeyIsSound(row)
      case ExternalWrite(_, row) => KeyIsSound(row)
      case _ => true
  {
    var u := Step(scope, s, e).rows;
    match e
    case ExternalCreate(id, row) => assert u[id] == row;
    case ExternalWrite(id, row) => assert u[id] == row;
    case _ =>
  }

  /** An outside write breaks the order exactly when it is one of the breaking kinds. */
  lemma OutsideOrderlyIff(scope: Scope, s: State, e: Event)
    requires Enabled(scope, s, e) && External(e) && Orderly(s)
    ensures Orderly(Step(scope, s, e)) <==> !BreaksKeys(s, e)
  {
    var u, all := Step(scope, s, e), Ahead(s.phase);
    OutsideSound(scope, s, e);
    forall i | 0 <= i < |all| ensures all[i] in all && (GroupIsSafe(u.rows, all[i]) <==>
        match e
        case ExternalCreate(id, row) => !Disturbs(all[i], id, row)
        case ExternalWrite(id, row) => !Disturbs(all[i], id, row)
        case ExternalDelete(id) => all[i].survivor != id
        case _ => true)
    {
      OutsideGroup(scope, s, e, all[i]);
    }
  }

  // ---- over runs ----

  /** Some outside write of the run breaks the order of keys. */
  ghost predicate SomeWriteBreaksKeys(scope: Scope, s: State, events: seq<Event>)
    requires Legal(scope, s, events)
    decreases |events|
  {
    events != []
    && (BreaksKeys(s, events[0]) || SomeWriteBreaksKeys(scope, Step(scope, s, events[0]), events[1..]))
  }

  /** Over every run: keys are in order unless an outside write of a breaking kind came first. */
  lemma {:induction false} OrderLasts(scope: Scope, s: State, events: seq<Event>)
    requires Orderly(s) && Legal(scope, s, events) && !SomeWriteBreaksKeys(scope, s, events)
    ensures Orderly(Run(scope, s, events))
    decreases |events|
  {
    if events != [] {
      if External(events[0]) {
        OutsideOrderlyIff(scope, s, events[0]);
      } else {
        WorkerStaysOrderly(scope, s, events[0]);
      }
      OrderLasts(scope, Step(scope, s, events[0]), events[1..]);
    }
  }

  /** The step ends the worker's start: the survivor is gone, or its key is taken. */
  ghost predicate Refuses(s: State, e: Event) {
    e.KeySurvivor? && s.phase.Keying? && s.phase.todo != []
    && (s.phase.todo[0].survivor !in s.rows || KeyTaken(s.rows, s.phase.todo[0].survivor, s.phase.todo[0].jobId))
  }

  lemma OrderlyNeverRefuses(s: State)
    requires Orderly(s)
    ensures !Refuses(s, KeySurvivor)
  {
    if s.phase.Keying? && s.phase.todo != [] {
      assert GroupIsSafe(s.rows, Ahead(s.phase)[0]);
    }
  }

  /**
   * From any table with sound keys and no live worker, over every run of starts, crashes, claims and outside writes: a
   * worker's start is refused only after an outside write that left a bare job id as key on a run that is finished or
   * of another job, that finished or deleted the survivor of a repair under way, or that took the survivor's key.
   */
  lemma StartRefusedOnlyAfterABreakingWrite(scope: Scope, s: State, events: seq<Event>)
    requires KeysAreSound(s.rows) && s.phase.Down? && Legal(scope, s, events)
    requires Refuses(Run(scope, s, events), KeySurvivor)
    ensures SomeWriteBreaksKeys(scope, s, events)
  {
    if !SomeWriteBreaksKeys(scope, s, events) {
      OrderLasts(scope, s, events);
      OrderlyNeverRefuses(Run(scope, s, events));
    }
  }

  /** Enqueueing and resuming write qualified keys: they break the order only by finishing a run about to be keyed. */
  lemma QualifiedWriteBreaksIff(s: State, id: RunId, row: Row)
    requires Orderly(s) && !Qualified(row.jobId) && (row.activeKey.Some? ==> Qualified(row.activeKey.value))
    ensures BreaksKeys(s, ExternalWrite(id, row)) <==>
      !Active(row.status) && exists g :: g in Ahead(s.phase) && g.survivor == id
  {
    forall g | g in Ahead(s.phase) ensures Disturbs(g, id, row) <==> g.survivor == id && !Active(row.status) {
      var i :| 0 <= i < |Ahead(s.phase)| && Ahead(s.phase)[i] == g;
      assert GroupIsSafe(s.rows, Ahead(s.phase)[i]);
    }
  }

  /** The supersede script's write breaks the order whenever the run it retires holds its job's id as key. */
  lemma ScriptWriteBreaksKeys(s: State, id: RunId, now: int)
    requires id in s.rows && s.rows[id].activeKey == Some(s.rows[id].jobId) && !Qualified(s.rows[id].jobId)
    ensures BreaksKeys(s, ExternalWrite(id, s.rows[id].(status := Superseded, finishedAt := Some(now))))
  {
  }
}
