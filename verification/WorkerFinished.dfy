/** Which finished runs the repair and the recovery write over: only those an outsider wrote since the repair's read. */
module WorkerFinished {
  import opened Prelude
  import opened RunTable
  import opened DuplicateRepair
  import opened ApplicationWorker
  import opened WorkerProtocol
  import opened WorkerOneActive
  import opened WorkerKeys

  predicate Listed(g: Group, id: RunId) {
    id == g.survivor || id in g.duplicates
  }

  /** No run is in two of the groups, or in one of them twice. */
  ghost predicate Disjoint(todo: seq<Group>) {
    && (forall i, j, id :: 0 <= i < j < |todo| && Listed(todo[i], id) ==> !Listed(todo[j], id))
    && (forall i :: 0 <= i < |todo| ==> todo[i].survivor !in todo[i].duplicates)
  }

  /** Each run the repair is still to write is active, unless an outsider has written it. */
  ghost predicate ActiveUnlessTouched(t: Table, todo: seq<Group>, touched: set<RunId>) {
    forall i, id :: 0 <= i < |todo| && Listed(todo[i], id) && id in t && id !in touched ==> Active(t[id].status)
  }

  ghost predicate ListedAreActive(s: State, touched: set<RunId>) {
    Disjoint(Ahead(s.phase)) && ActiveUnlessTouched(s.rows, Ahead(s.phase), touched)
  }

  /** Whoever is in a group of the plan is an active run of the group's job. */
  lemma PlannedRun(t: Table, scope: Scope, active: seq<RunId>, i: nat, id: RunId)
    requires Fetched(t, active) && i < |Plan(t, scope, active)| && Listed(Plan(t, scope, active)[i], id)
    ensures id in t && Active(t[id].status) && t[id].jobId == Jobs(t, scope, active)[i]
  {
    assert Jobs(t, scope, active)[i] in Jobs(t, scope, active);
  }

  lemma PlanIsDisjoint(t: Table, scope: Scope, active: seq<RunId>)
    requires Fetched(t, active)
    ensures Disjoint(Plan(t, scope, active)) && ActiveUnlessTouched(t, Plan(t, scope, active), {})
  {
    var plan := Plan(t, scope, active);
    forall i, id | 0 <= i < |plan| && Listed(plan[i], id) ensures id in t && Active(t[id].status) {
      PlannedRun(t, scope, active, i, id);
    }
    forall i, j, id | 0 <= i < j < |plan| && Listed(plan[i], id) ensures !Listed(plan[j], id) {
      PlannedRun(t, scope, active, i, id);
      if Listed(plan[j], id) {
        PlannedRun(t, scope, active, j, id);
      }
    }
    forall i | 0 <= i < |plan| ensures plan[i].survivor !in plan[i].duplicates {
      PlannedGroupsApart(t, scope, active, i, i);
    }
  }

  lemma TrimmedLists(todo: seq<Group>, i: nat, id: RunId)
    requires i < |todo| && Disjoint(todo) && Listed(Trimmed(todo)[i], id)
    ensures Listed(todo[i], id) && id !in todo[0].duplicates
  {
    if i > 0 {
      assert Listed(todo[i], id) && !Listed(todo[0], id);
    }
  }

  lemma TrimmedIsDisjoint(todo: seq<Group>)
    requires todo != [] && Disjoint(todo)
    ensures Disjoint(Trimmed(todo))
  {
    var after := Trimmed(todo);
    forall i, j, id | 0 <= i < j < |after| && Listed(after[i], id) ensures !Listed(after[j], id) {
      TrimmedLists(todo, i, id);
    }
  }

  lemma NullStepLists(scope: Scope, s: State, e: Event, touched: set<RunId>)
    requires Enabled(scope, s, e) && e.NullDuplicates? && ListedAreActive(s, touched)
    ensures ListedAreActive(Step(scope, s, e), touched)
  {
    var u := Step(scope, s, e);
    AheadMoves(scope, s, e);
    TrimmedIsDisjoint(s.phase.todo);
    forall i, id | 0 <= i < |Ahead(u.phase)| && Listed(Ahead(u.phase)[i], id) && id in u.rows && id !in touched
      ensures Active(u.rows[id].status)
    {
      TrimmedLists(s.phase.todo, i, id);
    }
  }

  lemma WithoutFirst(t: Table, todo: seq<Group>, touched: set<RunId>)
    requires todo != [] && Disjoint(todo) && ActiveUnlessTouched(t, todo, touched)
    ensures Disjoint(todo[1..]) && ActiveUnlessTouched(t, todo[1..], touched)
  {
    forall i, j, id | 0 <= i < j < |todo| - 1 && Listed(todo[1..][i], id) ensures !Listed(todo[1..][j], id) {
      assert Listed(todo[i + 1], id);
    }
    forall i, id | 0 <= i < |todo| - 1 && Listed(todo[1..][i], id) && id in t && id !in touched
      ensures Active(t[id].status)
    {
      assert Listed(todo[i + 1], id);
    }
  }

  lemma KeyStepLists(scope: Scope, s: State, e: Event, touched: set<RunId>)
    requires Enabled(scope, s, e) && e.KeySurvivor? && ListedAreActive(s, touched)
    ensures ListedAreActive(Step(scope, s, e), touched)
  {
    var u := Step(scope, s, e);
    AheadMoves(scope, s, e);
    WithoutFirst(s.rows, Ahead(s.phase), touched);
    assert Ahead(s.phase)[1..] == s.phase.todo[1..];
    forall id | id in u.rows ensures u.rows[id].status == s.rows[id].status {
    }
  }

  lemma OutsideStepLists(scope: Scope, s: State, e: Event, touched: set<RunId>)
    requires Enabled(scope, s, e) && External(e) && ListedAreActive(s, touched)
    ensures ListedAreActive(Step(scope, s, e), Touch(e, touched))
  {
    forall id | id in Step(scope, s, e).rows && id !in Touch(e, touched)
      ensures id !in touched && id in s.rows && Step(scope, s, e).rows[id] == s.rows[id]
    {
      OutsideRows(scope, s, e, touched, id);
    }
  }

  lemma StepKeepsListed(scope: Scope, s: State, e: Event, touched: set<RunId>)
    requires Enabled(scope, s, e) && ListedAreActive(s, touched)
    ensures ListedAreActive(Step(scope, s, e), Touch(e, touched))
  {
    if External(e) {
      OutsideStepLists(scope, s, e, touched);
    } else {
      match e
      case NullDuplicates(_) => NullStepLists(scope, s, e, touched);
      case KeySurvivor => KeyStepLists(scope, s, e, touched);
      case ReadActive(active) =>
        PlanIsDisjoint(s.rows, scope, active);
        AheadMoves(scope, s, e);
      case _ => AheadMoves(scope, s, e);
    }
  }

  /** A write of the repair or of the recovery. */
  predicate StartupWrite(e: Event) {
    e.NullDuplicates? || e.KeySurvivor? || e.RequeueInterrupted?
  }

  lemma RewrittenByRepair(scope: Scope, s: State, e: Event, touched: set<RunId>, id: RunId)
    requires Enabled(scope, s, e) && (e.NullDuplicates? || e.KeySurvivor?) && id in s.rows
    requires !Active(s.rows[id].status) && ListedAreActive(s, touched) && Step(scope, s, e).rows[id] != s.rows[id]
    ensures id in touched
  {
    FinishedRunRewrittenIff(scope, s, e, id);
    assert Listed(Ahead(s.phase)[0], id);
  }

  lemma RewrittenByRecovery(scope: Scope, s: State, e: Event, touched: set<RunId>, id: RunId)
    requires Enabled(scope, s, e) && e.RequeueInterrupted? && id in s.rows && !Active(s.rows[id].status)
    requires ListedUntouchedRun(s, touched) && Step(scope, s, e).rows[id] != s.rows[id]
    ensures id in touched
  {
    FinishedRunRewrittenIff(scope, s, e, id);
  }

  /**
   * From any table with no live worker, over every run: when a write of the repair or of the recovery changes a run
   * that is finished, an outsider has created or written that run since the repair read the table.
   */
  lemma StartupSparesFinishedRuns(scope: Scope, s: State, events: seq<Event>, e: Event, id: RunId)
    requires s.phase.Down? && Legal(scope, s, events)
    requires var u := Run(scope, s, events);
             Enabled(scope, u, e) && StartupWrite(e) && id in u.rows && !Active(u.rows[id].status)
             && Step(scope, u, e).rows[id] != u.rows[id]
    ensures id in TouchedBy(events, {})
  {
    BothLast(scope, s, events, {});
    if e.RequeueInterrupted? {
      RewrittenByRecovery(scope, Run(scope, s, events), e, TouchedBy(events, {}), id);
    } else {
      RewrittenByRepair(scope, Run(scope, s, events), e, TouchedBy(events, {}), id);
    }
  }

  lemma {:induction false} BothLast(scope: Scope, s: State, events: seq<Event>, touched: set<RunId>)
    requires ListedAreActive(s, touched) && ClashesAreOutside(scope, s, touched) && Legal(scope, s, events)
    ensures var u := Run(scope, s, events);
            ListedAreActive(u, TouchedBy(events, touched)) && ClashesAreOutside(scope, u, TouchedBy(events, touched))
    decreases |events|
  {
    if events != [] {
      StepKeepsListed(scope, s, events[0], touched);
      StepKeepsClashesOutside(scope, s, events[0], touched);
      BothLast(scope, Step(scope, s, events[0]), events[1..], Touch(events[0], touched));
    }
  }
}
