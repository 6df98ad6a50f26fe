/** The shared-cursor worker pool that measures a sample of signals. */
module SamplePool {
  import opened Prelude

  datatype Worker = Idle | Busy(index: nat) | Done

  /** The classification a dataset row carries. */
  datatype Class =
    | AlreadyFoundOfficially
    | ResolvedAfterPriorityTrigger
    | SourceSignalStale
    | OfficialJobExistsButMatchFailed
    | Unresolved

  /** What `resolveOne` comes back with; an exception becomes `Failed("NETWORK_FAILURE")`. */
  datatype Outcome = Resolved | Closed | Failed(reason: string)

  function Classify(outcome: Outcome): Class {
    match outcome
    case Resolved => ResolvedAfterPriorityTrigger
    case Closed => SourceSignalStale
    case Failed(reason) =>
      if reason == "NO_BOARD_MATCH" || reason == "TITLE_MATCH_TOO_LOW" || reason == "LOCATION_MISMATCH"
      then OfficialJobExistsButMatchFailed else Unresolved
  }

  datatype Row = Row(index: nat, class_: Class)

  datatype Tally = Tally(resolved: nat, closed: nat, matchFailed: nat, alreadyFound: nat, afterTrigger: nat)

  datatype State = State(cursor: nat, workers: seq<Worker>, rows: seq<Row>, tally: Tally)

  /** The sample, as far as the pool can tell: its length and which entries the catalog already answers. */
  datatype Sample = Sample(length: nat, inCatalog: nat -> bool)

  /** One worker either runs one turn of its loop up to the next await, or resumes after it. */
  datatype Event = Turn(worker: nat) | Resume(worker: nat, outcome: Outcome)

  function CountRow(t: Tally, c: Class): Tally {
    match c
    case AlreadyFoundOfficially => t.(resolved := t.resolved + 1, alreadyFound := t.alreadyFound + 1)
    case ResolvedAfterPriorityTrigger => t.(resolved := t.resolved + 1, afterTrigger := t.afterTrigger + 1)
    case SourceSignalStale => t.(closed := t.closed + 1)
    case OfficialJobExistsButMatchFailed => t.(matchFailed := t.matchFailed + 1)
    case Unresolved => t
  }

  predicate Enabled(s: State, e: Event) {
    e.worker < |s.workers| && (if e.Turn? then s.workers[e.worker].Idle? else s.workers[e.worker].Busy?)
  }

  function Record(s: State, w: nat, index: nat, c: Class): State
    requires w < |s.workers|
  {
    s.(workers := s.workers[w := Idle], rows := s.rows + [Row(index, c)], tally := CountRow(s.tally, c))
  }

  function Step(sample: Sample, s: State, e: Event): State
    requires Enabled(s, e)
  {
    match e
    case Turn(w) =>
      if s.cursor >= sample.length then s.(workers := s.workers[w := Done])
      else if sample.inCatalog(s.cursor) then Record(s.(cursor := s.cursor + 1), w, s.cursor, AlreadyFoundOfficially)
      else s.(cursor := s.cursor + 1, workers := s.workers[w := Busy(s.cursor)])
    case Resume(w, outcome) => Record(s, w, s.workers[w].index, Classify(outcome))
  }

  predicate Legal(sample: Sample, s: State, events: seq<Event>)
    decreases |events|
  {
    events == [] || (Enabled(s, events[0]) && Legal(sample, Step(sample, s, events[0]), events[1..]))
  }

  function Run(sample: Sample, s: State, events: seq<Event>): State
    requires Legal(sample, s, events)
    decreases |events|
  {
    if events == [] then s else Run(sample, Step(sample, s, events[0]), events[1..])
  }

  function Start(workers: nat): State {
    State(0, seq(workers, _ => Idle), [], Tally(0, 0, 0, 0, 0))
  }

  /** `Math.min(3, sample.length)`. */
  function PoolSize(sample: Sample): nat {
    if sample.length < 3 then sample.length else 3
  }

  // ---- the pool as the script writes it ----

  class Pool {
    const sample: Sample
    var cursor: nat
    var workers: seq<Worker>
    var rows: seq<Row>
    var tally: Tally

    constructor (sample: Sample)
      ensures this.sample == sample && View() == Start(PoolSize(sample))
    {
      this.sample := sample;
      cursor, rows, tally := 0, [], Tally(0, 0, 0, 0, 0);
      workers := seq(PoolSize(sample), _ => Idle);
    }

    function View(): State
      reads this
    {
      State(cursor, workers, rows, tally)
    }

    /** From the loop test to the next await: take an index, and finish it on the spot if the catalog has it. */
    method TakeTurn(w: nat)
      requires Enabled(View(), Turn(w))
      modifies this
      ensures View() == Step(sample, old(View()), Turn(w))
    {
      if cursor < sample.length {
        var index := cursor;
        cursor := cursor + 1;
        if sample.inCatalog(index) {
          rows := rows + [Row(index, AlreadyFoundOfficially)];
          tally := CountRow(tally, AlreadyFoundOfficially);
          workers := workers[w := Idle];
        } else {
          workers := workers[w := Busy(index)];
        }
      } else {
        workers := workers[w := Done];
      }
    }

    /** After the await: classify the outcome and record one row. */
    method ResumeWith(w: nat, outcome: Outcome)
      requires Enabled(View(), Resume(w, outcome))
      modifies this
      ensures View() == Step(sample, old(View()), Resume(w, outcome))
    {
      var index := workers[w].index;
      var c := Classify(outcome);
      rows := rows + [Row(index, c)];
      tally := CountRow(tally, c);
      workers := workers[w := Idle];
    }
  }

  // ---- every index exactly once ----

  /** How many rows carry index `i`. */
  function RowsFor(rows: seq<Row>, i: nat): nat {
    if rows == [] then 0 else RowsFor(rows[..|rows| - 1], i) + if rows[|rows| - 1].index == i then 1 else 0
  }

  /** How many workers are busy with index `i`. */
  function Holders(workers: seq<Worker>, i: nat): nat {
    if workers == [] then 0 else (if workers[0] == Busy(i) then 1 else 0) + Holders(workers[1..], i)
  }

  function BusyCount(workers: seq<Worker>): nat {
    if workers == [] then 0 else (if workers[0].Busy? then 1 else 0) + BusyCount(workers[1..])
  }

  function Count(rows: seq<Row>, c: Class): nat {
    if rows == [] then 0 else Count(rows[..|rows| - 1], c) + if rows[|rows| - 1].class_ == c then 1 else 0
  }

  lemma {:induction false} WorkerUpdate(workers: seq<Worker>, w: nat, x: Worker, i: nat)
    requires w < |workers|
    ensures Holders(workers[w := x], i) + (if workers[w] == Busy(i) then 1 else 0)
        == Holders(workers, i) + if x == Busy(i) then 1 else 0
    ensures BusyCount(workers[w := x]) + (if workers[w].Busy? then 1 else 0)
        == BusyCount(workers) + if x.Busy? then 1 else 0
  {
    if w == 0 {
      assert workers[w := x][1..] == workers[1..];
    } else {
      WorkerUpdate(workers[1..], w - 1, x, i);
      assert workers[w := x][1..] == workers[1..][w - 1 := x];
    }
  }

  ghost predicate TallyMatches(s: State) {
    && s.tally.alreadyFound == Count(s.rows, AlreadyFoundOfficially)
    && s.tally.afterTrigger == Count(s.rows, ResolvedAfterPriorityTrigger)
    && s.tally.resolved == s.tally.alreadyFound + s.tally.afterTrigger
    && s.tally.closed == Count(s.rows, SourceSignalStale)
    && s.tally.matchFailed == Count(s.rows, OfficialJobExistsButMatchFailed)
    && |s.rows| == s.tally.resolved + s.tally.closed + s.tally.matchFailed + Count(s.rows, Unresolved)
  }

  /** Index `i` has been handed out exactly when it is below the cursor, and then to one row or one worker. */
  ghost predicate HandedOutOnce(s: State, i: nat) {
    RowsFor(s.rows, i) + Holders(s.workers, i) == if i < s.cursor then 1 else 0
  }

  ghost predicate Inv(sample: Sample, s: State) {
    && s.cursor <= sample.length
    && (forall i: nat :: HandedOutOnce(s, i))
    && |s.rows| + BusyCount(s.workers) == s.cursor
    && (forall w :: 0 <= w < |s.workers| && s.workers[w].Done? ==> s.cursor == sample.length)
    && TallyMatches(s)
  }

  lemma RowsAppend(rows: seq<Row>, r: Row, i: nat)
    ensures RowsFor(rows + [r], i) == RowsFor(rows, i) + if r.index == i then 1 else 0
    ensures forall c :: Count(rows + [r], c) == Count(rows, c) + if r.class_ == c then 1 else 0
  {
    assert (rows + [r])[..|rows|] == rows;
  }

  lemma StepHandsOutOnce(sample: Sample, s: State, e: Event, i: nat)
    requires s.cursor <= sample.length && HandedOutOnce(s, i) && Enabled(s, e)
    ensures HandedOutOnce(Step(sample, s, e), i)
  {
    var u := Step(sample, s, e);
    WorkerUpdate(s.workers, e.worker, u.workers[e.worker], i);
    if |u.rows| > |s.rows| {
      RowsAppend(s.rows, u.rows[|s.rows|], i);
    }
  }

  /** One worker moves and at most one row is added: the counts stay in step. */
  lemma StepKeepsCounts(sample: Sample, s: State, e: Event)
    requires Enabled(s, e) && s.cursor <= sample.length && |s.rows| + BusyCount(s.workers) == s.cursor
    ensures var u := Step(sample, s, e); u.cursor <= sample.length && |u.rows| + BusyCount(u.workers) == u.cursor
  {
    WorkerUpdate(s.workers, e.worker, Step(sample, s, e).workers[e.worker], 0);
  }

  lemma OneRowTallied(s: State, u: State, r: Row)
    requires TallyMatches(s) && u.rows == s.rows + [r] && u.tally == CountRow(s.tally, r.class_)
    ensures TallyMatches(u)
  {
    RowsAppend(s.rows, r, 0);
  }

  lemma StepKeepsTally(sample: Sample, s: State, e: Event)
    requires Enabled(s, e) && TallyMatches(s)
    ensures TallyMatches(Step(sample, s, e))
  {
    var u := Step(sample, s, e);
    if |u.rows| > |s.rows| {
      OneRowTallied(s, u, u.rows[|s.rows|]);
    }
  }

  lemma StepKeepsInv(sample: Sample, s: State, e: Event)
    requires Inv(sample, s) && Enabled(s, e)
    ensures Inv(sample, Step(sample, s, e))
  {
    forall i: nat ensures HandedOutOnce(Step(sample, s, e), i) {
      assert HandedOutOnce(s, i);
      StepHandsOutOnce(sample, s, e, i);
    }
    StepKeepsCounts(sample, s, e);
    StepKeepsTally(sample, s, e);
  }

  lemma {:induction false} RunKeepsInv(sample: Sample, s: State, events: seq<Event>)
    requires Inv(sample, s) && Legal(sample, s, events)
    ensures Inv(sample, Run(sample, s, events))
    decreases |events|
  {
    if events != [] {
      StepKeepsInv(sample, s, events[0]);
      RunKeepsInv(sample, Step(sample, s, events[0]), events[1..]);
    }
  }

  lemma {:induction false} NoBusyNoHolders(workers: seq<Worker>, i: nat)
    requires forall w :: 0 <= w < |workers| ==> !workers[w].Busy?
    ensures Holders(workers, i) == 0 && BusyCount(workers) == 0
  {
    if workers != [] {
      NoBusyNoHolders(workers[1..], i);
    }
  }

  lemma StartIsInv(sample: Sample, workers: nat)
    requires workers > 0 || sample.length == 0
    ensures Inv(sample, Start(workers))
  {
    forall i: nat ensures HandedOutOnce(Start(workers), i) {
      NoBusyNoHolders(Start(workers).workers, i);
    }
    NoBusyNoHolders(Start(workers).workers, 0);
  }

  /**
   * However many workers and whatever the schedule: once no step is left to take, all workers are done,
   * each index of the sample has exactly one row, the classes partition the sample, and the reported
   * `unresolved` is the number of rows classified UNRESOLVED.
   */
  lemma PoolHandlesEachIndexOnce(sample: Sample, workers: nat, events: seq<Event>)
    requires workers > 0 || sample.length == 0
    requires Legal(sample, Start(workers), events)
    requires forall e :: !Enabled(Run(sample, Start(workers), events), e)
    ensures var u := Run(sample, Start(workers), events);
            && (forall w :: 0 <= w < |u.workers| ==> u.workers[w].Done?)
            && |u.rows| == sample.length
            && (forall i: nat :: RowsFor(u.rows, i) == if i < sample.length then 1 else 0)
            && u.tally.resolved + u.tally.closed + u.tally.matchFailed <= sample.length
            && sample.length - u.tally.resolved - u.tally.closed - u.tally.matchFailed == Count(u.rows, Unresolved)
            && u.tally.resolved == Count(u.rows, AlreadyFoundOfficially) + Count(u.rows, ResolvedAfterPriorityTrigger)
            && u.tally.closed == Count(u.rows, SourceSignalStale)
            && u.tally.matchFailed == Count(u.rows, OfficialJobExistsButMatchFailed)
  {
    StartIsInv(sample, workers);
    RunKeepsInv(sample, Start(workers), events);
    RunKeepsWorkers(sample, Start(workers), events);
    var u := Run(sample, Start(workers), events);
    forall w | 0 <= w < |u.workers| ensures u.workers[w].Done? {
      assert !Enabled(u, Turn(w)) && !Enabled(u, Resume(w, Closed));
    }
    FinishedPool(sample, u);
  }

  lemma FinishedPool(sample: Sample, u: State)
    requires Inv(sample, u) && (u.workers != [] || sample.length == 0)
    requires forall w :: 0 <= w < |u.workers| ==> u.workers[w].Done?
    ensures |u.rows| == sample.length
    ensures forall i: nat :: RowsFor(u.rows, i) == if i < sample.length then 1 else 0
  {
    NoBusyNoHolders(u.workers, 0);
    if u.workers != [] { assert u.workers[0].Done?; }
    forall i: nat ensures RowsFor(u.rows, i) == if i < sample.length then 1 else 0 {
      NoBusyNoHolders(u.workers, i);
      assert HandedOutOnce(u, i);
    }
  }

  lemma {:induction false} RunKeepsWorkers(sample: Sample, s: State, events: seq<Event>)
    requires Legal(sample, s, events)
    ensures |Run(sample, s, events).workers| == |s.workers|
    decreases |events|
  {
    if events != [] {
      RunKeepsWorkers(sample, Step(sample, s, events[0]), events[1..]);
    }
  }

  // ---- what a row says ----

  /** The class the report gives to what came back for a signal. */
  ghost predicate ClassOf(outcome: Outcome, c: Class) {
    match outcome
    case Resolved => c == ResolvedAfterPriorityTrigger
    case Closed => c == SourceSignalStale
    case Failed(reason) =>
      c == if reason in ["NO_BOARD_MATCH", "TITLE_MATCH_TOO_LOW", "LOCATION_MISMATCH"]
           then OfficialJobExistsButMatchFailed else Unresolved
  }

  /** A worker of the schedule that held `index` came back with an outcome of class `c`. */
  ghost predicate CameBack(sample: Sample, s: State, events: seq<Event>, index: nat, c: Class)
    requires Legal(sample, s, events)
    decreases |events|
  {
    events != []
    && (|| (events[0].Resume? && s.workers[events[0].worker] == Busy(index) && ClassOf(events[0].outcome, c))
        || CameBack(sample, Step(sample, s, events[0]), events[1..], index, c))
  }

  /** Only signals the catalog does not have are handed to a worker to resolve. */
  ghost predicate BusyOutsideCatalog(sample: Sample, s: State) {
    forall w :: 0 <= w < |s.workers| && s.workers[w].Busy? ==>
      s.workers[w].index < sample.length && !sample.inCatalog(s.workers[w].index)
  }

  /** The row of a signal the catalog has, or of one that a worker resolved. */
  ghost predicate RowIsEarned(sample: Sample, s: State, events: seq<Event>, row: Row)
    requires Legal(sample, s, events)
  {
    row.index < sample.length
    && if sample.inCatalog(row.index) then row.class_ == AlreadyFoundOfficially
       else CameBack(sample, s, events, row.index, row.class_)
  }

  lemma {:induction false} NewRowsAreEarned(sample: Sample, s: State, events: seq<Event>, row: Row)
    requires Legal(sample, s, events) && BusyOutsideCatalog(sample, s)
    requires row in Run(sample, s, events).rows && row !in s.rows
    ensures RowIsEarned(sample, s, events, row)
    decreases |events|
  {
    if events != [] {
      var u := Step(sample, s, events[0]);
      if row !in u.rows {
        NewRowsAreEarned(sample, u, events[1..], row);
      } else {
        assert row == u.rows[|s.rows|];
      }
    }
  }

  /**
   * Under every schedule a row says what happened to its signal: already found, if the catalog has it, and otherwise
   * the class of the outcome with which a worker that held this signal came back.
   */
  lemma RowsSayWhatHappened(sample: Sample, events: seq<Event>, row: Row)
    requires Legal(sample, Start(PoolSize(sample)), events) && row in Run(sample, Start(PoolSize(sample)), events).rows
    ensures RowIsEarned(sample, Start(PoolSize(sample)), events, row)
    ensures |Start(PoolSize(sample)).workers| == if sample.length < 3 then sample.length else 3
  {
    NewRowsAreEarned(sample, Start(PoolSize(sample)), events, row);
  }

  // ---- every schedule ends ----

  function Weight(w: Worker): nat {
    match w case Idle => 1 case Busy(_) => 2 case Done => 0
  }

  function Work(workers: seq<Worker>): nat {
    if workers == [] then 0 else Weight(workers[0]) + Work(workers[1..])
  }

  lemma {:induction false} WorkUpdate(workers: seq<Worker>, w: nat, x: Worker)
    requires w < |workers|
    ensures Work(workers[w := x]) + Weight(workers[w]) == Work(workers) + Weight(x)
  {
    if w == 0 {
      assert workers[w := x][1..] == workers[1..];
    } else {
      WorkUpdate(workers[1..], w - 1, x);
      assert workers[w := x][1..] == workers[1..][w - 1 := x];
    }
  }

  /** No schedule runs for more than three steps per sample entry plus what the workers hold. */
  lemma {:induction false} SchedulesAreBounded(sample: Sample, s: State, events: seq<Event>)
    requires Inv(sample, s) && Legal(sample, s, events)
    ensures |events| <= 3 * (sample.length - s.cursor) + Work(s.workers)
    decreases |events|
  {
    if events != [] {
      var u := Step(sample, s, events[0]);
      StepKeepsInv(sample, s, events[0]);
      WorkUpdate(s.workers, events[0].worker, u.workers[events[0].worker]);
      SchedulesAreBounded(sample, u, events[1..]);
    }
  }
}
