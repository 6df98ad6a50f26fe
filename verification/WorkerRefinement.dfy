/** The protocol's steps, undisturbed, do what the worker's methods do. */
module WorkerRefinement {
  import opened Prelude
  import opened RunTable
  import opened DuplicateRepair
  import opened ApplicationWorker
  import opened WorkerProtocol

  lemma OneMore(scope: Scope, s: State, e: Event, rest: seq<Event>)
    requires Enabled(scope, s, e)
    ensures Legal(scope, s, [e] + rest) <==> Legal(scope, Step(scope, s, e), rest)
    ensures Legal(scope, Step(scope, s, e), rest) ==> Run(scope, s, [e] + rest) == Run(scope, Step(scope, s, e), rest)
  {
    assert ([e] + rest)[1..] == rest;
  }

  // ---- recovery ----

  function RecordEvents(ids: seq<RunId>): seq<Event> {
    if ids == [] then [] else [RecordRecovered(ids[0])] + RecordEvents(ids[1..])
  }

  lemma RecordOneEvent(scope: Scope, t: Table, ids: seq<RunId>, s: State)
    requires ids != [] && NoDuplicates(ids) && ToSet(ids) <= InterruptedIds(t, scope)
    requires s.rows == PartlyRecorded(t, scope, ToSet(ids)) && s.phase == Recording(ToSet(ids))
    ensures Enabled(scope, s, RecordRecovered(ids[0]))
    ensures Step(scope, s, RecordRecovered(ids[0]))
         == s.(rows := PartlyRecorded(t, scope, ToSet(ids[1..])), phase := Recordings(ToSet(ids[1..])))
  {
    assert ids[0] in ToSet(ids) && ids[0] !in ids[1..];
    assert ToSet(ids) - {ids[0]} == ToSet(ids[1..]);
    RecordOne(t, scope, ToSet(ids), ids[0]);
  }

  lemma {:induction false} RecordsAll(scope: Scope, t: Table, ids: seq<RunId>, s: State)
    requires NoDuplicates(ids) && ToSet(ids) <= InterruptedIds(t, scope)
    requires s.rows == PartlyRecorded(t, scope, ToSet(ids)) && s.phase == Recordings(ToSet(ids))
    ensures Legal(scope, s, RecordEvents(ids))
    ensures Run(scope, s, RecordEvents(ids)) == s.(rows := Recovered(t, scope), phase := Polling)
    decreases |ids|
  {
    if ids == [] {
      assert PartlyRecorded(t, scope, {}) == Recovered(t, scope);
    } else {
      assert ids[0] in ToSet(ids);
      RecordOneEvent(scope, t, ids, s);
      RecordsAll(scope, t, ids[1..], Step(scope, s, RecordRecovered(ids[0])));
      OneMore(scope, s, RecordRecovered(ids[0]), RecordEvents(ids[1..]));
    }
  }

  /** The events of an undisturbed recovery that records the runs in the order `ids`. */
  function RecoveryEvents(ids: seq<RunId>): seq<Event> {
    [ReadInterrupted] + if ids == [] then [] else [RequeueInterrupted] + RecordEvents(ids)
  }

  /** A recovery nobody disturbs leaves the table the recovery method leaves. */
  lemma UninterruptedRecoveryRefinesMethod(scope: Scope, s: State, ids: seq<RunId>)
    requires s.phase.RepairDone? && NoDuplicates(ids) && ToSet(ids) == InterruptedIds(s.rows, scope)
    ensures Legal(scope, s, RecoveryEvents(ids))
    ensures Run(scope, s, RecoveryEvents(ids)) == s.(rows := Recovered(s.rows, scope), phase := Polling)
  {
    var s1 := Step(scope, s, ReadInterrupted);
    if ids == [] {
      assert forall id :: id in s.rows && Interrupted(s.rows[id], scope) ==> id in InterruptedIds(s.rows, scope);
      assert Recovered(s.rows, scope) == s.rows;
      OneMore(scope, s, ReadInterrupted, []);
    } else {
      assert ids[0] in ToSet(ids);
      RequeueThenRecord(scope, s1, ids);
      OneMore(scope, s, ReadInterrupted, [RequeueInterrupted] + RecordEvents(ids));
    }
  }

  lemma RequeueThenRecord(scope: Scope, s: State, ids: seq<RunId>)
    requires ids != [] && NoDuplicates(ids) && ToSet(ids) == InterruptedIds(s.rows, scope)
        && s.phase == Requeuing(ToSet(ids))
    ensures Legal(scope, s, [RequeueInterrupted] + RecordEvents(ids))
    ensures Run(scope, s, [RequeueInterrupted] + RecordEvents(ids))
        == s.(rows := Recovered(s.rows, scope), phase := Polling)
  {
    var s1 := Step(scope, s, RequeueInterrupted);
    assert s1.rows == PartlyRecorded(s.rows, scope, ToSet(ids));
    RecordsAll(scope, s.rows, ids, s1);
    OneMore(scope, s, RequeueInterrupted, RecordEvents(ids));
  }

  // ---- one turn of the loop ----

  function LastEvents(threw: bool): seq<Event> {
    if threw then [Throw] + ([RequeueOwn] + ([RecordRequeue] + [])) else [Finish] + []
  }

  lemma AfterProcessing(scope: Scope, s: State, threw: bool)
    requires s.phase.Processing?
    ensures Legal(scope, s, LastEvents(threw))
    ensures Run(scope, s, LastEvents(threw)) ==
            s.(rows := if threw then RecordStage(Requeue(s.rows, s.phase.run), s.phase.run, "QUEUED")
              else s.rows, phase := Polling)
  {
    if threw {
      var s1 := Step(scope, s, Throw);
      var s2 := Step(scope, s1, RequeueOwn);
      OneMore(scope, s2, RecordRequeue, []);
      OneMore(scope, s1, RequeueOwn, [RecordRequeue] + []);
      OneMore(scope, s, Throw, [RequeueOwn] + ([RecordRequeue] + []));
    } else {
      OneMore(scope, s, Finish, []);
    }
  }

  /** The events of a turn that picks a run, wins the claim, writes `row` and ends with or without an exception. */
  function TurnEvents(order: seq<RunId>, now: int, row: Row, threw: bool): seq<Event> {
    [Poll(order)] + ([TryClaim(now)] + ([RecordClaim] + ([Write(row)] + LastEvents(threw))))
  }

  lemma WriteAndFinish(scope: Scope, s: State, row: Row, threw: bool)
    requires s.phase.Processing? && Enabled(scope, s, Write(row))
    ensures Legal(scope, s, [Write(row)] + LastEvents(threw))
    ensures Run(scope, s, [Write(row)] + LastEvents(threw))
        == s.(rows := Ended(s.rows[s.phase.run := row], s.phase.run, threw), phase := Polling)
  {
    AfterProcessing(scope, Step(scope, s, Write(row)), threw);
    OneMore(scope, s, Write(row), LastEvents(threw));
  }

  function Ended(t: Table, id: RunId, threw: bool): Table {
    if threw then RecordStage(Requeue(t, id), id, "QUEUED") else t
  }

  lemma WriteOwn(t: Table, id: RunId, row: Row)
    requires id in t
    ensures ProcessOwn(t, id, _ => row) == t[id := row]
  {
  }

  /** The table of a whole turn, written as its single steps. */
  lemma TurnTable(t: Table, id: RunId, now: int, row: Row, threw: bool)
    requires Claim(t, id, now).1
    ensures AfterTurn(t, id, now, Work(_ => row, threw))
         == Ended(RecordStage(Claim(t, id, now).0, id, "STARTING_BROWSER")[id := row], id, threw)
  {
    WriteOwn(RecordStage(Claim(t, id, now).0, id, "STARTING_BROWSER"), id, row);
  }

  lemma RecordAndRest(scope: Scope, s: State, row: Row, threw: bool)
    requires s.phase.ClaimWon?
    requires var t := RecordStage(s.rows, s.phase.run, "STARTING_BROWSER");
             Enabled(scope, s.(rows := t, phase := Processing(s.phase.run)), Write(row))
    ensures var t := RecordStage(s.rows, s.phase.run, "STARTING_BROWSER");
            var events := [RecordClaim] + ([Write(row)] + LastEvents(threw));
            && Legal(scope, s, events)
            && Run(scope, s, events) == s.(rows := Ended(t[s.phase.run := row], s.phase.run, threw), phase := Polling)
  {
    WriteAndFinish(scope, Step(scope, s, RecordClaim), row, threw);
    OneMore(scope, s, RecordClaim, [Write(row)] + LastEvents(threw));
  }

  lemma ClaimAndRest(scope: Scope, s: State, now: int, row: Row, threw: bool)
    requires s.phase.Picked? && Claim(s.rows, s.phase.run, now).1
    requires var t := RecordStage(Claim(s.rows, s.phase.run, now).0, s.phase.run, "STARTING_BROWSER");
             Enabled(scope, s.(rows := t, phase := Processing(s.phase.run)), Write(row))
    ensures var id := s.phase.run;
            var events := [TryClaim(now)] + ([RecordClaim] + ([Write(row)] + LastEvents(threw)));
            && Legal(scope, s, events)
            && Run(scope, s, events) == s.(rows := AfterTurn(s.rows, id, now, Work(_ => row, threw)), phase := Polling,
                                          claimedBy := s.claimedBy[id := s.holder])
  {
    var s1 := Step(scope, s, TryClaim(now));
    WriteStaysEnabled(scope, s, s1, now, row);
    RecordAndRest(scope, s1, row, threw);
    OneMore(scope, s, TryClaim(now), [RecordClaim] + ([Write(row)] + LastEvents(threw)));
    TurnTable(s.rows, s.phase.run, now, row, threw);
  }

  lemma WriteStaysEnabled(scope: Scope, s: State, s1: State, now: int, row: Row)
    requires s.phase.Picked? && Claim(s.rows, s.phase.run, now).1 && s1 == Step(scope, s, TryClaim(now))
    requires var t := RecordStage(Claim(s.rows, s.phase.run, now).0, s.phase.run, "STARTING_BROWSER");
             Enabled(scope, s.(rows := t, phase := Processing(s.phase.run)), Write(row))
    ensures var t := RecordStage(s1.rows, s1.phase.run, "STARTING_BROWSER");
            Enabled(scope, s1.(rows := t, phase := Processing(s1.phase.run)), Write(row))
  {
  }

  /** A turn nobody disturbs leaves the table the loop body leaves, and remembers who claimed the run. */
  lemma UninterruptedTurnRefinesMethod(scope: Scope, s: State, order: seq<RunId>, now: int, row: Row, threw: bool)
    requires s.phase.Polling? && OldestFirst(s.rows, QueuedIds(s.rows), order) && NextQueued(s.rows, scope, order).Some?
    requires var id := NextQueued(s.rows, scope, order).value;
             var t := RecordStage(Claim(s.rows, id, now).0, id, "STARTING_BROWSER");
             Enabled(scope, s.(rows := t, phase := Processing(id)), Write(row))
    ensures var id := NextQueued(s.rows, scope, order).value;
            && Legal(scope, s, TurnEvents(order, now, row, threw))
            && Run(scope, s, TurnEvents(order, now, row, threw))
               == s.(rows := AfterTurn(s.rows, id, now, Work(_ => row, threw)), phase := Polling,
                 claimedBy := s.claimedBy[id := s.holder])
  {
    PickedRunIsOldest(s.rows, scope, order);
    ClaimAndRest(scope, Step(scope, s, Poll(order)), now, row, threw);
    OneMore(scope, s, Poll(order), [TryClaim(now)] + ([RecordClaim] + ([Write(row)] + LastEvents(threw))));
  }
}
