/**
 * The worker as a state machine over the shared run table. Every database call is one atomic
 * step; a crash may come between any two of them; web requests and scripts write in between.
 * At most one live worker holds the lock, so the worker side is one control point.
 */
module WorkerProtocol {
  import opened Prelude
  import opened RunTable
  import opened DuplicateRepair
  import opened ApplicationWorker

  datatype Group = Group(jobId: JobId, survivor: RunId, duplicates: set<RunId>)

  /** Where the lock holder is. `Down` also stands for "no live worker". */
  datatype Phase =
    | Down
    | Locked
    | Nulling(todo: seq<Group>)
    | Keying(todo: seq<Group>)
    | RepairDone
    | Requeuing(ids: set<RunId>)
    | Recording(ids: set<RunId>)
    | Polling
    | Picked(run: RunId)
    | ClaimWon(run: RunId)
    | Processing(run: RunId)
    | Thrown(run: RunId)
    | Requeued(run: RunId)

  /** `holder` counts lock acquisitions; `claimedBy` remembers under which one a run was last claimed. */
  datatype State = State(rows: Table, phase: Phase, holder: nat, claimedBy: map<RunId, nat>)

  datatype Event =
    | Lock
    | Crash
    | ReadActive(active: seq<RunId>)
    | NullDuplicates(now: int)
    | KeySurvivor
    | ReadInterrupted
    | RequeueInterrupted
    | RecordRecovered(id: RunId)
    | Poll(order: seq<RunId>)
    | TryClaim(now: int)
    | RecordClaim
    | AbandonClaim
    | Write(row: Row)
    | Finish
    | Throw
    | RequeueOwn
    | RequeueLost
    | RecordRequeue
    | RecordLost
    | ExternalCreate(id: RunId, row: Row)
    | ExternalWrite(id: RunId, row: Row)
    | ExternalDelete(id: RunId)

  predicate External(e: Event) {
    e.ExternalCreate? || e.ExternalWrite? || e.ExternalDelete?
  }

  /** The writes to make, read off one snapshot. */
  function Plan(t: Table, scope: Scope, active: seq<RunId>): (plan: seq<Group>)
    requires Fetched(t, active)
    ensures |plan| == |Jobs(t, scope, active)|
  {
    var keys := Jobs(t, scope, active);
    var keep := Survivors(t, scope, active);
    seq(|keys|, k requires 0 <= k < |keys| =>
      assert keys[k] in keys;
      Group(keys[k], keep[keys[k]], set id | id in active && t[id].jobId == keys[k] && id != keep[keys[k]]))
  }

  /**
   * What the processor may make of its own row: notes that change neither status nor key; a pause, which keeps the key
   * or sets the job's id as key; or the end as filled or failed, which clears the key.
   */
  predicate ProcessorMayWrite(before: Row, row: Row) {
    && row.jobId == before.jobId
    && (|| (row.status == before.status && row.activeKey == before.activeKey)
        || (row.status == NeedsUserAction && (row.activeKey == before.activeKey || row.activeKey == Some(row.jobId)))
        || ((row.status == Filled || row.status == Failed) && row.activeKey == None))
  }

  ghost predicate Enabled(scope: Scope, s: State, e: Event) {
    match e
    case Lock => s.phase.Down?
    case Crash => !s.phase.Down?
    case ReadActive(active) => s.phase.Locked? && Fetched(s.rows, active)
    case NullDuplicates(_) => s.phase.Nulling? && s.phase.todo != []
    case KeySurvivor => s.phase.Keying? && s.phase.todo != []
    case ReadInterrupted => s.phase.RepairDone?
    case RequeueInterrupted => s.phase.Requeuing?
    case RecordRecovered(id) => s.phase.Recording? && id in s.phase.ids
    case Poll(order) => s.phase.Polling? && OldestFirst(s.rows, QueuedIds(s.rows), order)
    case TryClaim(_) => s.phase.Picked?
    case RecordClaim => s.phase.ClaimWon?
    case AbandonClaim => s.phase.ClaimWon?
    case Write(row) =>
      s.phase.Processing? && s.phase.run in s.rows && ProcessorMayWrite(s.rows[s.phase.run], row)
      && IndexAllows(s.rows, s.phase.run, row)
    case Finish => s.phase.Processing?
    case Throw => s.phase.Processing?
    case RequeueOwn => s.phase.Thrown?
    case RequeueLost => s.phase.Thrown? // the handler swallows errors of its two writes
    case RecordRequeue => s.phase.Requeued?
    case RecordLost => s.phase.Requeued?
    case ExternalCreate(id, row) => id !in s.rows && row.status == Queued && IndexAllows(s.rows, id, row)
    case ExternalWrite(id, row) =>
      // only a worker's claim makes a run running
      id in s.rows && row.jobId == s.rows[id].jobId && (row.status == Running ==> s.rows[id].status == Running)
      && IndexAllows(s.rows, id, row)
    case ExternalDelete(id) => id in s.rows
  }

  function NextGroup(todo: seq<Group>): Phase {
    if todo == [] then RepairDone else Nulling(todo)
  }

  function Recordings(ids: set<RunId>): Phase {
    if ids == {} then Polling else Recording(ids)
  }

  ghost function Step(scope: Scope, s: State, e: Event): State
    requires Enabled(scope, s, e)
  {
    match e
    case Lock => s.(phase := Locked, holder := s.holder + 1)
    case Crash => s.(phase := Down)
    case ReadActive(active) => s.(phase := NextGroup(Plan(s.rows, scope, active)))
    case NullDuplicates(now) =>
      s.(rows := UpdateMany(s.rows, s.phase.todo[0].duplicates, (row: Row) => SupersededRow(row, now)),
        phase := Keying(s.phase.todo))
    case KeySurvivor =>
      var g := s.phase.todo[0];
      if g.survivor !in s.rows || KeyTaken(s.rows, g.survivor, g.jobId) then s.(phase := Down)
      else s.(rows := UpdateMany(s.rows, {g.survivor}, (row: Row) => row.(activeKey := Some(g.jobId))),
              phase := NextGroup(s.phase.todo[1..]))
    case ReadInterrupted =>
      var ids := InterruptedIds(s.rows, scope);
      s.(phase := if ids == {} then Polling else Requeuing(ids))
    case RequeueInterrupted =>
      s.(rows := UpdateMany(s.rows, s.phase.ids, (row: Row) => RequeuedRow(row)), phase := Recordings(s.phase.ids))
    case RecordRecovered(id) => s.(rows := RecordStage(s.rows, id, "QUEUED"), phase := Recordings(s.phase.ids - {id}))
    case Poll(order) =>
      var next := NextQueued(s.rows, scope, order);
      if next.None? then s else s.(phase := Picked(next.value))
    case TryClaim(now) =>
      var (rows, won) := Claim(s.rows, s.phase.run, now);
      if won then s.(rows := rows, phase := ClaimWon(s.phase.run), claimedBy := s.claimedBy[s.phase.run := s.holder])
      else s.(phase := Polling)
    case RecordClaim => s.(rows := RecordStage(s.rows, s.phase.run, "STARTING_BROWSER"),
      phase := Processing(s.phase.run))
    case AbandonClaim => s.(phase := Polling)
    case Write(row) => s.(rows := s.rows[s.phase.run := row])
    case Finish => s.(phase := Polling)
    case Throw => s.(phase := Thrown(s.phase.run))
    case RequeueOwn => s.(rows := Requeue(s.rows, s.phase.run), phase := Requeued(s.phase.run))
    case RequeueLost => s.(phase := Requeued(s.phase.run))
    case RecordLost => s.(phase := Polling)
    case RecordRequeue => s.(rows := RecordStage(s.rows, s.phase.run, "QUEUED"), phase := Polling)
    case ExternalCreate(id, row) => s.(rows := s.rows[id := row])
    case ExternalWrite(id, row) => s.(rows := s.rows[id := row])
    case ExternalDelete(id) => s.(rows := s.rows - {id})
  }

  ghost predicate Legal(scope: Scope, s: State, events: seq<Event>)
    decreases |events|
  {
    events == [] || (Enabled(scope, s, events[0]) && Legal(scope, Step(scope, s, events[0]), events[1..]))
  }

  ghost function Run(scope: Scope, s: State, events: seq<Event>): State
    requires Legal(scope, s, events)
    decreases |events|
  {
    if events == [] then s else Run(scope, Step(scope, s, events[0]), events[1..])
  }

  // ---- every running run belongs to the holder ----

  /** The holder has finished its own recovery pass. */
  predicate Serving(phase: Phase) {
    !phase.Down? && !phase.Locked? && !phase.Nulling? && !phase.Keying? && !phase.RepairDone? && !phase.Requeuing?
  }

  ghost predicate ClaimedByHolder(s: State, id: RunId) {
    id in s.claimedBy && s.claimedBy[id] == s.holder
  }

  ghost predicate RunIsAccountedFor(scope: Scope, s: State, id: RunId) {
    id in s.rows && Interrupted(s.rows[id], scope) ==>
      (Serving(s.phase) ==> ClaimedByHolder(s, id)) && (s.phase.Requeuing? ==> id in s.phase.ids)
  }

  ghost predicate RunningIsAccountedFor(scope: Scope, s: State) {
    forall id :: RunIsAccountedFor(scope, s, id)
  }

  /** A step other than the winning claim of the run itself makes no run running. */
  lemma OnlyAClaimInterrupts(scope: Scope, s: State, e: Event, id: RunId)
    requires Enabled(scope, s, e) && !(e.TryClaim? && id == s.phase.run)
    requires id in Step(scope, s, e).rows && Interrupted(Step(scope, s, e).rows[id], scope)
    ensures id in s.rows && Interrupted(s.rows[id], scope)
    ensures id in s.claimedBy ==>
      id in Step(scope, s, e).claimedBy && Step(scope, s, e).claimedBy[id] == s.claimedBy[id]
  {
  }

  lemma RunStaysAccountedFor(scope: Scope, s: State, e: Event, id: RunId)
    requires Enabled(scope, s, e) && RunIsAccountedFor(scope, s, id)
    ensures RunIsAccountedFor(scope, Step(scope, s, e), id)
  {
    var u := Step(scope, s, e);
    if id in u.rows && Interrupted(u.rows[id], scope) && !(e.TryClaim? && id == s.phase.run) {
      OnlyAClaimInterrupts(scope, s, e, id);
      assert e.ReadInterrupted? ==> id in InterruptedIds(s.rows, scope);
    }
  }

  lemma StepAccountsForRunning(scope: Scope, s: State, e: Event)
    requires Enabled(scope, s, e) && RunningIsAccountedFor(scope, s)
    ensures RunningIsAccountedFor(scope, Step(scope, s, e))
  {
    forall id ensures RunIsAccountedFor(scope, Step(scope, s, e), id) {
      assert RunIsAccountedFor(scope, s, id);
      RunStaysAccountedFor(scope, s, e, id);
    }
  }

  /**
   * Over every interleaving of starts, crashes, polls, claims, finishes, exceptions and outside
   * writes: while a worker is past its recovery pass, each in-scope running run was claimed by it.
   */
  lemma {:induction false} RunningRunsWereClaimedByHolder(scope: Scope, s: State, events: seq<Event>)
    requires RunningIsAccountedFor(scope, s) && Legal(scope, s, events)
    ensures var u := Run(scope, s, events);
            Serving(u.phase) ==> forall id :: id in u.rows && Interrupted(u.rows[id], scope) ==> ClaimedByHolder(u, id)
    decreases |events|
  {
    if events == [] {
      forall id | Serving(s.phase) && id in s.rows && Interrupted(s.rows[id], scope) ensures ClaimedByHolder(s, id) {
        assert RunIsAccountedFor(scope, s, id);
      }
    } else {
      StepAccountsForRunning(scope, s, events[0]);
      RunningRunsWereClaimedByHolder(scope, Step(scope, s, events[0]), events[1..]);
    }
  }

  function Starts(events: seq<Event>): nat {
    if events == [] then 0 else (if events[0].Lock? then 1 else 0) + Starts(events[1..])
  }

  /** Every start is a new holder: no step of the same tenure changes the number, and no two tenures share it. */
  lemma {:induction false} HoldersAreStarts(scope: Scope, s: State, events: seq<Event>)
    requires Legal(scope, s, events)
    ensures Run(scope, s, events).holder == s.holder + Starts(events)
    decreases |events|
  {
    if events != [] {
      HoldersAreStarts(scope, Step(scope, s, events[0]), events[1..]);
    }
  }

  /** A state with no live worker always qualifies as a starting point. */
  lemma DownIsAStart(scope: Scope, s: State)
    requires s.phase.Down?
    ensures RunningIsAccountedFor(scope, s)
  {
  }

  /** The same from any table with no live worker. */
  lemma RunningRunsFromAnyTable(scope: Scope, s: State, events: seq<Event>)
    requires s.phase.Down? && Legal(scope, s, events)
    ensures var u := Run(scope, s, events);
            Serving(u.phase) ==> forall id :: id in u.rows && Interrupted(u.rows[id], scope) ==> ClaimedByHolder(u, id)
  {
    DownIsAStart(scope, s);
    RunningRunsWereClaimedByHolder(scope, s, events);
  }

  // ---- the same without the bookkeeping ----

  /** The runs claimed since the last start of a worker, read off the events alone. */
  ghost function ClaimedSince(scope: Scope, s: State, events: seq<Event>, claimed: set<RunId>): set<RunId>
    requires Legal(scope, s, events)
    decreases |events|
  {
    if events == [] then claimed
    else ClaimedSince(scope, Step(scope, s, events[0]), events[1..], ClaimedBy(s, events[0], claimed))
  }

  /** A start forgets them all; the conditional write adds the run it finds queued. */
  ghost function ClaimedBy(s: State, e: Event, claimed: set<RunId>): set<RunId> {
    match e
    case Lock => {}
    case TryClaim(_) =>
      if s.phase.Picked? && s.phase.run in s.rows && s.rows[s.phase.run].status == Queued
      then claimed + {s.phase.run} else claimed
    case _ => claimed
  }

  /** A running run of the scope has been claimed, or is on the list of the recovery, or the recovery is to come. */
  ghost predicate ClaimIsKnown(scope: Scope, s: State, claimed: set<RunId>, id: RunId) {
    id in s.rows && s.rows[id].status == Running && Serves(scope, s.rows[id].jobId) ==>
      (Serving(s.phase) ==> id in claimed) && (s.phase.Requeuing? ==> id in s.phase.ids)
  }

  lemma ClaimStaysKnown(scope: Scope, s: State, e: Event, claimed: set<RunId>, id: RunId)
    requires Enabled(scope, s, e) && ClaimIsKnown(scope, s, claimed, id)
    ensures ClaimIsKnown(scope, Step(scope, s, e), ClaimedBy(s, e, claimed), id)
  {
    var u := Step(scope, s, e);
    if id in u.rows && Interrupted(u.rows[id], scope) && !(e.TryClaim? && id == s.phase.run) {
      OnlyAClaimInterrupts(scope, s, e, id);
      assert e.ReadInterrupted? ==> id in InterruptedIds(s.rows, scope);
    }
  }

  lemma {:induction false} ClaimsStayKnown(scope: Scope, s: State, events: seq<Event>, claimed: set<RunId>, id: RunId)
    requires Legal(scope, s, events) && ClaimIsKnown(scope, s, claimed, id)
    ensures ClaimIsKnown(scope, Run(scope, s, events), ClaimedSince(scope, s, events, claimed), id)
    decreases |events|
  {
    if events != [] {
      ClaimStaysKnown(scope, s, events[0], claimed, id);
      ClaimsStayKnown(scope, Step(scope, s, events[0]), events[1..], ClaimedBy(s, events[0], claimed), id);
    }
  }

  /**
   * From any table with no live worker, over every run: past its recovery pass, a worker that serves a job of a running
   * run has itself made the conditional write that found this run queued, since it started.
   */
  lemma RunningRunsWereClaimedSinceTheStart(scope: Scope, s: State, events: seq<Event>, id: RunId)
    requires s.phase.Down? && Legal(scope, s, events) && Serving(Run(scope, s, events).phase)
    requires var u := Run(scope, s, events);
             id in u.rows && u.rows[id].status == Running && Serves(scope, u.rows[id].jobId)
    ensures id in ClaimedSince(scope, s, events, {})
  {
    ClaimsStayKnown(scope, s, events, {}, id);
  }

  // ---- a claim lasts ----

  /** No step of the run requeues `id`, and no outsider creates or writes it. */
  ghost predicate NeverRequeued(scope: Scope, s: State, events: seq<Event>, id: RunId)
    requires Legal(scope, s, events)
    decreases |events|
  {
    events != [] ==> !MayRequeue(s, events[0], id) && NeverRequeued(scope, Step(scope, s, events[0]), events[1..], id)
  }

  /** The recovery write or the exception handler's requeue of `id`, or somebody else's write to it. */
  predicate MayRequeue(s: State, e: Event, id: RunId) {
    match e
    case RequeueInterrupted => s.phase.Requeuing? && id in s.phase.ids
    case RequeueOwn => s.phase.Thrown? && s.phase.run == id
    case ExternalCreate(other, _) => other == id
    case ExternalWrite(other, _) => other == id
    case _ => false
  }

  /**
   * Between two winning claims of a run somebody has requeued it: whatever else happens, restarts included, a run that
   * is not queued cannot be claimed until the worker requeues it or an outsider writes it.
   */
  lemma {:induction false} NoSecondClaimWithoutRequeue(scope: Scope, s: State, events: seq<Event>, id: RunId, now: int)
    requires Legal(scope, s, events) && NeverRequeued(scope, s, events, id)
    requires id in s.rows ==> s.rows[id].status != Queued
    ensures !Claim(Run(scope, s, events).rows, id, now).1
    decreases |events|
  {
    if events != [] {
      StaysUnqueued(scope, s, events[0], id);
      NoSecondClaimWithoutRequeue(scope, Step(scope, s, events[0]), events[1..], id, now);
    }
  }

  lemma StaysUnqueued(scope: Scope, s: State, e: Event, id: RunId)
    requires Enabled(scope, s, e) && !MayRequeue(s, e, id) && (id in s.rows ==> s.rows[id].status != Queued)
    ensures var u := Step(scope, s, e); id in u.rows ==> u.rows[id].status != Queued
  {
  }

  // ---- what the worker's own steps never do ----

  /** No step of the worker creates a run, deletes one, or moves it to another job. */
  lemma WorkerStepKeepsRuns(scope: Scope, s: State, e: Event)
    requires Enabled(scope, s, e) && !External(e)
    ensures Step(scope, s, e).rows.Keys == s.rows.Keys
    ensures forall id :: id in s.rows ==> Step(scope, s, e).rows[id].jobId == s.rows[id].jobId
  {
    if e.Write? {
      assert s.phase.run in s.rows;
    }
  }

  /** Over a run in which outsiders neither create nor delete, the set of runs is exactly what it was. */
  lemma {:induction false} WorkerKeepsRuns(scope: Scope, s: State, events: seq<Event>)
    requires Legal(scope, s, events)
    requires forall e :: e in events ==> !e.ExternalCreate? && !e.ExternalDelete?
    ensures Run(scope, s, events).rows.Keys == s.rows.Keys
    ensures forall id :: id in s.rows ==> Run(scope, s, events).rows[id].jobId == s.rows[id].jobId
    decreases |events|
  {
    if events != [] {
      var u := Step(scope, s, events[0]);
      if !External(events[0]) {
        WorkerStepKeepsRuns(scope, s, events[0]);
      } else {
        assert events[0].ExternalWrite?;
      }
      WorkerKeepsRuns(scope, u, events[1..]);
    }
  }

  /** `e` takes `id` from a finished status back to queued or running. */
  ghost predicate Revives(scope: Scope, s: State, e: Event, id: RunId)
    requires Enabled(scope, s, e)
  {
    var u := Step(scope, s, e);
    id in s.rows && id in u.rows && !Active(s.rows[id].status)
    && (u.rows[id].status == Queued || u.rows[id].status == Running)
  }

  /**
   * A worker step revives a finished run exactly when it is the unconditional recovery write and the
   * run was finished by somebody else after the recovery read that listed it.
   */
  lemma RevivalIff(scope: Scope, s: State, e: Event, id: RunId)
    requires Enabled(scope, s, e) && !External(e)
    ensures Revives(scope, s, e, id) <==>
      e.RequeueInterrupted? && id in s.phase.ids && id in s.rows && !Active(s.rows[id].status)
  {
  }

  /**
   * A worker step rewrites a run that somebody has finished exactly when it is one of the writes that do not look at
   * the status: the two of the repair, the requeue of the recovery, a stage record, or the processor's own. The claim
   * and the exception handler's requeue never do.
   */
  lemma FinishedRunRewrittenIff(scope: Scope, s: State, e: Event, id: RunId)
    requires Enabled(scope, s, e) && !External(e) && id in s.rows && !Active(s.rows[id].status)
    ensures id in Step(scope, s, e).rows
    ensures Step(scope, s, e).rows[id] != s.rows[id] <==>
      match e
      case NullDuplicates(now) => id in s.phase.todo[0].duplicates && s.rows[id] != SupersededRow(s.rows[id], now)
      case KeySurvivor =>
        var g := s.phase.todo[0];
        id == g.survivor && !KeyTaken(s.rows, id, g.jobId) && s.rows[id].activeKey != Some(g.jobId)
      case RequeueInterrupted => id in s.phase.ids
      case RecordRecovered(other) => id == other && s.rows[id] != WithStage(s.rows[id], "QUEUED")
      case RecordClaim => id == s.phase.run && s.rows[id] != WithStage(s.rows[id], "STARTING_BROWSER")
      case RecordRequeue => id == s.phase.run && s.rows[id] != WithStage(s.rows[id], "QUEUED")
      case Write(row) => id == s.phase.run && s.rows[id] != row
      case _ => false
  {
  }

  /** Nobody else writes between the recovery read and the recovery write. */
  ghost predicate QuietRecovery(scope: Scope, s: State, events: seq<Event>)
    requires Legal(scope, s, events)
    decreases |events|
  {
    events != [] ==>
      (External(events[0]) ==> !s.phase.Requeuing?) && QuietRecovery(scope, Step(scope, s, events[0]), events[1..])
  }

  ghost predicate ListedAreRunning(s: State) {
    s.phase.Requeuing? ==> forall id :: id in s.phase.ids ==> id in s.rows && s.rows[id].status == Running
  }

  /** With the worker the sole writer at that point, no worker step of any run revives a finished run. */
  lemma {:induction false} FinishedRunsStayFinished(scope: Scope, s: State, events: seq<Event>, e: Event, id: RunId)
    requires ListedAreRunning(s) && Legal(scope, s, events) && QuietRecovery(scope, s, events)
    requires Enabled(scope, Run(scope, s, events), e) && !External(e)
    ensures !Revives(scope, Run(scope, s, events), e, id)
    decreases |events|
  {
    if events == [] {
      RevivalIff(scope, s, e, id);
    } else {
      var u := Step(scope, s, events[0]);
      assert ListedAreRunning(u);
      FinishedRunsStayFinished(scope, u, events[1..], e, id);
    }
  }

  /** The recovery has read; the supersede script has then retired the run. */
  function AfterRace(row: Row, now: int): State {
    State(map["r" := row.(status := Superseded, finishedAt := Some(now))], Requeuing({"r"}), 1, map[])
  }

  lemma RaceSteps(row: Row, now: int, scope: Scope)
    requires row.status == Running && scope.Contains(row.jobId)
    ensures var s := State(map["r" := row], RepairDone, 1, map[]);
            var write := ExternalWrite("r", row.(status := Superseded, finishedAt := Some(now)));
            && Enabled(scope, s, ReadInterrupted) && Step(scope, s, ReadInterrupted) == s.(phase := Requeuing({"r"}))
            && Enabled(scope, s.(phase := Requeuing({"r"})), write)
            && Step(scope, s.(phase := Requeuing({"r"})), write) == AfterRace(row, now)
  {
    var s := State(map["r" := row], RepairDone, 1, map[]);
    assert InterruptedIds(s.rows, scope) == {"r"} by {
      assert Interrupted(s.rows["r"], scope);
    }
  }

  /** Without that quiet, the supersede script slipping in between has its verdict undone. */
  lemma RecoveryRaceRevives(row: Row, now: int, scope: Scope)
    requires row.status == Running && scope.Contains(row.jobId)
    ensures var s := State(map["r" := row], RepairDone, 1, map[]);
            var events := [ReadInterrupted, ExternalWrite("r", row.(status := Superseded, finishedAt := Some(now)))];
            && Legal(scope, s, events) && Run(scope, s, events) == AfterRace(row, now)
            && Enabled(scope, AfterRace(row, now), RequeueInterrupted)
            && Revives(scope, AfterRace(row, now), RequeueInterrupted, "r")
  {
    RaceSteps(row, now, scope);
    RunOfTwo(scope, State(map["r" := row], RepairDone, 1, map[]), ReadInterrupted,
             ExternalWrite("r", row.(status := Superseded, finishedAt := Some(now))));
    RevivalIff(scope, AfterRace(row, now), RequeueInterrupted, "r");
  }

  lemma RunOfTwo(scope: Scope, s: State, e0: Event, e1: Event)
    requires Enabled(scope, s, e0) && Enabled(scope, Step(scope, s, e0), e1)
    ensures Legal(scope, s, [e0, e1]) && Run(scope, s, [e0, e1]) == Step(scope, Step(scope, s, e0), e1)
  {
    var s1 := Step(scope, s, e0);
    assert [e0, e1][1..] == [e1] && [e1][1..] == [];
    assert Legal(scope, Step(scope, s1, e1), []);
    assert Legal(scope, s1, [e1]) && Run(scope, s1, [e1]) == Step(scope, s1, e1);
  }
}
