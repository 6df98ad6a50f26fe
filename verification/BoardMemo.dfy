/** The promise caches for employer boards and the shared headless-browser budget. */
module BoardMemo {
  import opened Prelude

  type Key = string

  /** How a memoised call ended: with a value (possibly null) or with an exception. */
  datatype Outcome = Value(value: Option<string>) | Rejected

  datatype Promise = Pending | Settled(outcome: Outcome)

  /** A discovery may render one page in the headless browser on its way. */
  datatype Render = NotYet | Rendering | Over

  /** What one worker is awaiting, or the board its discovery named, which it reads next. */
  datatype Worker =
    | Free
    | Discovering(key: Key, render: Render)
    | AwaitingConfig(key: Key)
    | Found(board: Key)
    | Reading(board: Key, usedBrowser: bool)
    | AwaitingJobs(board: Key)

  datatype Delivery = Delivery(key: Key, outcome: Outcome)

  datatype State = State(
    budget: int,
    configs: map<Key, Promise>,
    jobs: map<Key, Promise>,
    workers: seq<Worker>,
    discoveries: seq<Key>,
    boardReads: seq<Key>,
    configsSeen: seq<Delivery>,
    jobsSeen: seq<Delivery>,
    renders: nat,
    headlessReads: nat
  )

  datatype Event =
    | CallConfig(worker: nat, key: Key)
    | BeginRender(worker: nat)
    | EndRender(worker: nat, page: bool)
    | SettleConfig(worker: nat, outcome: Outcome)
    | SeeConfig(worker: nat)
    | CallJobs(worker: nat, key: Key)
    | HeadlessRead(worker: nat)
    | SettleJobs(worker: nat, outcome: Outcome)
    | SeeJobs(worker: nat)

  predicate Enabled(s: State, e: Event) {
    e.worker < |s.workers| &&
    var w := s.workers[e.worker];
    match e
    case CallConfig(_, _) => w.Free?
    case BeginRender(_) => w.Discovering? && w.render == NotYet && s.budget > 0
    case EndRender(_, _) => w.Discovering? && w.render == Rendering
    case SettleConfig(_, outcome) => w.Discovering? && (w.render == Rendering ==> outcome == Rejected)
    case SeeConfig(_) => w.AwaitingConfig? && w.key in s.configs && s.configs[w.key].Settled?
    case CallJobs(_, key) => w.Found? && key == w.board
    case HeadlessRead(_) => w.Reading? && !w.usedBrowser && s.budget > 0
    case SettleJobs(_, _) => w.Reading?
    case SeeJobs(_) => w.AwaitingJobs? && w.board in s.jobs && s.jobs[w.board].Settled?
  }

  function Put(s: State, w: nat, worker: Worker): State
    requires w < |s.workers|
  {
    s.(workers := s.workers[w := worker])
  }

  /** Without a board there is nothing to read. */
  function AfterConfig(outcome: Outcome): Worker {
    match outcome
    case Value(Some(board)) => Found(board)
    case _ => Free
  }

  function Step(s: State, e: Event): State
    requires Enabled(s, e)
  {
    var w := s.workers[e.worker];
    match e
    case CallConfig(i, key) =>
      if key in s.configs then Put(s, i, AwaitingConfig(key))
      else
        var started := s.(configs := s.configs[key := Pending], discoveries := s.discoveries + [key]);
        Put(started, i, Discovering(key, NotYet))
    case BeginRender(i) => Put(s, i, w.(render := Rendering))
    case EndRender(i, page) =>
      Put(if page then s.(budget := s.budget - 1, renders := s.renders + 1) else s, i, w.(render := Over))
    case SettleConfig(i, outcome) => Put(s.(configs := s.configs[w.key := Settled(outcome)]), i, AwaitingConfig(w.key))
    case SeeConfig(i) =>
      var outcome := s.configs[w.key].outcome;
      Put(s.(configsSeen := s.configsSeen + [Delivery(w.key, outcome)]), i, AfterConfig(outcome))
    case CallJobs(i, key) =>
      if key in s.jobs then Put(s, i, AwaitingJobs(key))
      else Put(s.(jobs := s.jobs[key := Pending], boardReads := s.boardReads + [key]), i, Reading(key, false))
    case HeadlessRead(i) =>
      Put(s.(budget := s.budget - 1, headlessReads := s.headlessReads + 1), i, w.(usedBrowser := true))
    case SettleJobs(i, outcome) => Put(s.(jobs := s.jobs[w.board := Settled(outcome)]), i, AwaitingJobs(w.board))
    case SeeJobs(i) => Put(s.(jobsSeen := s.jobsSeen + [Delivery(w.board, s.jobs[w.board].outcome)]), i, Free)
  }

  predicate Legal(s: State, events: seq<Event>)
    decreases |events|
  {
    events == [] || (Enabled(s, events[0]) && Legal(Step(s, events[0]), events[1..]))
  }

  function Run(s: State, events: seq<Event>): State
    requires Legal(s, events)
    decreases |events|
  {
    if events == [] then s else Run(Step(s, events[0]), events[1..])
  }

  function Start(budget: int, workers: nat): State {
    State(budget, map[], map[], seq(workers, _ => Free), [], [], [], [], 0, 0)
  }

  // ---- the module as the script writes it: code between awaits is one method ----

  class Boards {
    var budget: int
    var configs: map<Key, Promise>
    var jobs: map<Key, Promise>
    var workers: seq<Worker>
    ghost var log: State

    constructor (budget: int, workers: nat)
      ensures Valid() && log == Start(budget, workers)
    {
      this.budget := budget;
      configs, jobs := map[], map[];
      this.workers := seq(workers, _ => Free);
      log := Start(budget, workers);
    }

    ghost predicate Valid()
      reads this
    {
      log.budget == budget && log.configs == configs && log.jobs == jobs && log.workers == workers
    }

    /** `boardConfigFor`: look the key up, or start a discovery and remember its promise, without yielding. */
    method BoardConfigFor(w: nat, key: Key)
      requires Valid() && Enabled(log, CallConfig(w, key))
      modifies this
      ensures Valid() && log == Step(old(log), CallConfig(w, key))
    {
      log := Step(log, CallConfig(w, key));
      if key in configs {
        workers := workers[w := AwaitingConfig(key)];
      } else {
        configs := configs[key := Pending];
        workers := workers[w := Discovering(key, NotYet)];
      }
    }

    /** The budget test before the await. */
    method TryRender(w: nat) returns (started: bool)
      requires Valid() && w < |workers| && workers[w].Discovering? && workers[w].render == NotYet
      modifies this
      ensures Valid() && started == (old(budget) > 0)
      ensures log == if started then Step(old(log), BeginRender(w)) else old(log)
    {
      started := budget > 0;
      if started {
        log := Step(log, BeginRender(w));
        workers := workers[w := workers[w].(render := Rendering)];
      }
    }

    /** The decrement after the await, only for a page that came back. */
    method Rendered(w: nat, page: bool)
      requires Valid() && Enabled(log, EndRender(w, page))
      modifies this
      ensures Valid() && log == Step(old(log), EndRender(w, page))
    {
      log := Step(log, EndRender(w, page));
      if page {
        budget := budget - 1;
      }
      workers := workers[w := workers[w].(render := Over)];
    }

    /** `boardJobsFor`. */
    method BoardJobsFor(w: nat, key: Key)
      requires Valid() && Enabled(log, CallJobs(w, key))
      modifies this
      ensures Valid() && log == Step(old(log), CallJobs(w, key))
    {
      log := Step(log, CallJobs(w, key));
      if key in jobs {
        workers := workers[w := AwaitingJobs(key)];
      } else {
        jobs := jobs[key := Pending];
        workers := workers[w := Reading(key, false)];
      }
    }

    /** The headless fallback of a read: tests and decrements in one go. */
    method TryHeadlessRead(w: nat) returns (started: bool)
      requires Valid() && w < |workers| && workers[w].Reading? && !workers[w].usedBrowser
      modifies this
      ensures Valid() && started == (old(budget) > 0)
      ensures log == if started then Step(old(log), HeadlessRead(w)) else old(log)
    {
      started := budget > 0;
      if started {
        log := Step(log, HeadlessRead(w));
        budget := budget - 1;
        workers := workers[w := workers[w].(usedBrowser := true)];
      }
    }
  }

  // ---- one discovery and one read per key; everybody sees the same result ----

  /** Each discovery in progress owns a distinct key whose promise is still pending. */
  ghost predicate OwnsConfigs(configs: map<Key, Promise>, workers: seq<Worker>) {
    && (forall i :: 0 <= i < |workers| && workers[i].Discovering? ==>
          workers[i].key in configs && configs[workers[i].key] == Pending)
    && (forall i, j :: 0 <= i < j < |workers| && workers[i].Discovering? && workers[j].Discovering? ==>
          workers[i].key != workers[j].key)
  }

  ghost predicate OwnsJobs(jobs: map<Key, Promise>, workers: seq<Worker>) {
    && (forall i :: 0 <= i < |workers| && workers[i].Reading? ==>
          workers[i].board in jobs && jobs[workers[i].board] == Pending)
    && (forall i, j :: 0 <= i < j < |workers| && workers[i].Reading? && workers[j].Reading? ==>
          workers[i].board != workers[j].board)
  }

  ghost predicate Remembered(promises: map<Key, Promise>, seen: seq<Delivery>, started: seq<Key>) {
    && NoDuplicates(started)
    && (forall k :: k in started <==> k in promises)
    && (forall d :: d in seen ==> d.key in promises && promises[d.key] == Settled(d.outcome))
  }

  ghost predicate Inv(s: State) {
    OwnsConfigs(s.configs, s.workers) && OwnsJobs(s.jobs, s.workers)
    && Remembered(s.configs, s.configsSeen, s.discoveries) && Remembered(s.jobs, s.jobsSeen, s.boardReads)
  }

  lemma StepKeepsConfigOwners(s: State, e: Event)
    requires OwnsConfigs(s.configs, s.workers) && Enabled(s, e)
    ensures OwnsConfigs(Step(s, e).configs, Step(s, e).workers)
  {
    var w := s.workers[e.worker];
    match e
    case CallConfig(i, key) =>
      if key !in s.configs {
        ConfigStarts(s.configs, s.workers, i, key);
      }
    case SettleConfig(i, outcome) =>
      ConfigEnds(s.configs, s.workers, i, AwaitingConfig(w.key), Settled(outcome));
    case _ => ConfigOwnersStay(s.configs, s.workers, e.worker, Step(s, e).workers[e.worker]);
  }

  lemma ConfigOwnersStay(configs: map<Key, Promise>, workers: seq<Worker>, w: nat, next: Worker)
    requires OwnsConfigs(configs, workers) && w < |workers|
    requires next.Discovering? ==> workers[w].Discovering? && next.key == workers[w].key
    ensures OwnsConfigs(configs, workers[w := next])
  {
  }

  lemma JobOwnersStay(jobs: map<Key, Promise>, workers: seq<Worker>, w: nat, next: Worker)
    requires OwnsJobs(jobs, workers) && w < |workers|
    requires next.Reading? ==> workers[w].Reading? && next.board == workers[w].board
    ensures OwnsJobs(jobs, workers[w := next])
  {
  }

  lemma ConfigStarts(configs: map<Key, Promise>, workers: seq<Worker>, w: nat, key: Key)
    requires OwnsConfigs(configs, workers) && w < |workers| && key !in configs
    ensures OwnsConfigs(configs[key := Pending], workers[w := Discovering(key, NotYet)])
  {
  }

  lemma ConfigEnds(configs: map<Key, Promise>, workers: seq<Worker>, w: nat, next: Worker, settled: Promise)
    requires OwnsConfigs(configs, workers) && w < |workers| && workers[w].Discovering? && !next.Discovering?
    ensures OwnsConfigs(configs[workers[w].key := settled], workers[w := next])
  {
  }

  lemma StepKeepsJobOwners(s: State, e: Event)
    requires OwnsJobs(s.jobs, s.workers) && Enabled(s, e)
    ensures OwnsJobs(Step(s, e).jobs, Step(s, e).workers)
  {
    var w := s.workers[e.worker];
    match e
    case CallJobs(i, key) =>
      if key !in s.jobs {
        ReadStarts(s.jobs, s.workers, i, key);
      }
    case SettleJobs(i, outcome) =>
      ReadEnds(s.jobs, s.workers, i, AwaitingJobs(w.board), Settled(outcome));
    case _ => JobOwnersStay(s.jobs, s.workers, e.worker, Step(s, e).workers[e.worker]);
  }

  lemma ReadStarts(jobs: map<Key, Promise>, workers: seq<Worker>, w: nat, key: Key)
    requires OwnsJobs(jobs, workers) && w < |workers| && key !in jobs
    ensures OwnsJobs(jobs[key := Pending], workers[w := Reading(key, false)])
  {
  }

  lemma ReadEnds(jobs: map<Key, Promise>, workers: seq<Worker>, w: nat, next: Worker, settled: Promise)
    requires OwnsJobs(jobs, workers) && w < |workers| && workers[w].Reading? && !next.Reading?
    ensures OwnsJobs(jobs[workers[w].board := settled], workers[w := next])
  {
  }

  lemma SettlingKeepsRemembered(promises: map<Key, Promise>, seen: seq<Delivery>, started: seq<Key>, key: Key,
      outcome: Outcome)
    requires Remembered(promises, seen, started) && key in promises && promises[key] == Pending
    ensures Remembered(promises[key := Settled(outcome)], seen, started)
  {
  }

  lemma StartingKeepsRemembered(promises: map<Key, Promise>, seen: seq<Delivery>, started: seq<Key>, key: Key)
    requires Remembered(promises, seen, started) && key !in promises
    ensures Remembered(promises[key := Pending], seen, started + [key])
  {
  }

  lemma StepKeepsInv(s: State, e: Event)
    requires Inv(s) && Enabled(s, e)
    ensures Inv(Step(s, e))
  {
    StepKeepsConfigOwners(s, e);
    StepKeepsJobOwners(s, e);
    match e
    case CallConfig(_, key) =>
      if key !in s.configs { StartingKeepsRemembered(s.configs, s.configsSeen, s.discoveries, key); }
    case CallJobs(_, key) => if key !in s.jobs { StartingKeepsRemembered(s.jobs, s.jobsSeen, s.boardReads, key); }
    case SettleConfig(i, outcome) =>
      SettlingKeepsRemembered(s.configs, s.configsSeen, s.discoveries, s.workers[i].key, outcome);
    case SettleJobs(i, outcome) =>
      SettlingKeepsRemembered(s.jobs, s.jobsSeen, s.boardReads, s.workers[i].board, outcome);
    case _ =>
  }

  lemma {:induction false} RunKeepsInv(s: State, events: seq<Event>)
    requires Inv(s) && Legal(s, events)
    ensures Inv(Run(s, events))
    decreases |events|
  {
    if events != [] {
      StepKeepsInv(s, events[0]);
      RunKeepsInv(Step(s, events[0]), events[1..]);
    }
  }

  /**
   * Under every schedule each company key is discovered at most once and each board key read at most
   * once, and any two callers that got a result for the same key got the same one, exceptions included.
   */
  lemma EachKeyOnceForEverybody(budget: int, workers: nat, events: seq<Event>)
    requires Legal(Start(budget, workers), events)
    ensures var u := Run(Start(budget, workers), events);
            && NoDuplicates(u.discoveries) && NoDuplicates(u.boardReads)
            && (forall a, b :: a in u.configsSeen && b in u.configsSeen && a.key == b.key ==> a.outcome == b.outcome)
            && (forall a, b :: a in u.jobsSeen && b in u.jobsSeen && a.key == b.key ==> a.outcome == b.outcome)
            && (forall d :: d in u.configsSeen ==> d.key in u.discoveries)
            && (forall d :: d in u.jobsSeen ==> d.key in u.boardReads)
  {
    RunKeepsInv(Start(budget, workers), events);
  }

  // ---- callers get what the discovery or the read returned ----

  /** Some discovery of `key` in the schedule ended with `outcome`. */
  ghost predicate WasDiscovered(s: State, events: seq<Event>, key: Key, outcome: Outcome)
    requires Legal(s, events)
    decreases |events|
  {
    events != []
    && (|| (events[0].SettleConfig? && events[0].outcome == outcome && s.workers[events[0].worker].key == key)
        || WasDiscovered(Step(s, events[0]), events[1..], key, outcome))
  }

  /** Some read of the board `key` in the schedule ended with `outcome`. */
  ghost predicate WasRead(s: State, events: seq<Event>, key: Key, outcome: Outcome)
    requires Legal(s, events)
    decreases |events|
  {
    events != []
    && (|| (events[0].SettleJobs? && events[0].outcome == outcome && s.workers[events[0].worker].board == key)
        || WasRead(Step(s, events[0]), events[1..], key, outcome))
  }

  lemma {:induction false} SettledConfigWasDiscovered(s: State, events: seq<Event>, key: Key, outcome: Outcome)
    requires Legal(s, events) && key in Run(s, events).configs && Run(s, events).configs[key] == Settled(outcome)
    ensures (key in s.configs && s.configs[key] == Settled(outcome)) || WasDiscovered(s, events, key, outcome)
    decreases |events|
  {
    if events != [] {
      SettledConfigWasDiscovered(Step(s, events[0]), events[1..], key, outcome);
    }
  }

  lemma {:induction false} SettledJobsWereRead(s: State, events: seq<Event>, key: Key, outcome: Outcome)
    requires Legal(s, events) && key in Run(s, events).jobs && Run(s, events).jobs[key] == Settled(outcome)
    ensures (key in s.jobs && s.jobs[key] == Settled(outcome)) || WasRead(s, events, key, outcome)
    decreases |events|
  {
    if events != [] {
      SettledJobsWereRead(Step(s, events[0]), events[1..], key, outcome);
    }
  }

  /**
   * Under every schedule, whatever a caller gets for a company is what a discovery of that company ended with, and
   * whatever it gets for a board is what a read of that board ended with, values and exceptions alike.
   */
  lemma CallersGetTheResult(budget: int, workers: nat, events: seq<Event>, d: Delivery)
    requires Legal(Start(budget, workers), events)
    ensures d in Run(Start(budget, workers), events).configsSeen ==>
      WasDiscovered(Start(budget, workers), events, d.key, d.outcome)
    ensures d in Run(Start(budget, workers), events).jobsSeen ==>
      WasRead(Start(budget, workers), events, d.key, d.outcome)
  {
    var s, u := Start(budget, workers), Run(Start(budget, workers), events);
    RunKeepsInv(s, events);
    if d in u.configsSeen {
      SettledConfigWasDiscovered(s, events, d.key, d.outcome);
    }
    if d in u.jobsSeen {
      SettledJobsWereRead(s, events, d.key, d.outcome);
    }
  }

  /** A board that has been read, or is about to be, was named by a settled discovery. */
  ghost predicate BoardsAreNamed(s: State) {
    && (forall b :: b in s.boardReads ==> Named(s, b))
    && (forall i :: 0 <= i < |s.workers| && s.workers[i].Found? ==> Named(s, s.workers[i].board))
  }

  ghost predicate Named(s: State, board: Key) {
    exists key :: key in s.configs && s.configs[key] == Settled(Value(Some(board)))
  }

  lemma StaysNamed(s: State, e: Event, board: Key)
    requires Inv(s) && Enabled(s, e) && Named(s, board)
    ensures Named(Step(s, e), board)
  {
    var key :| key in s.configs && s.configs[key] == Settled(Value(Some(board)));
    assert key in Step(s, e).configs && Step(s, e).configs[key] == s.configs[key];
  }

  lemma BoardsStayNamed(s: State, e: Event)
    requires Inv(s) && Enabled(s, e) && BoardsAreNamed(s)
    ensures BoardsAreNamed(Step(s, e))
  {
    var u := Step(s, e);
    forall b | b in u.boardReads ensures Named(u, b) {
      if b !in s.boardReads {
        assert s.workers[e.worker].Found? && s.workers[e.worker].board == b;
      }
      StaysNamed(s, e, b);
    }
    forall i | 0 <= i < |u.workers| && u.workers[i].Found? ensures Named(u, u.workers[i].board) {
      if !e.SeeConfig? || i != e.worker {
        assert u.workers[i] == s.workers[i];
      }
      StaysNamed(s, e, u.workers[i].board);
    }
  }

  lemma {:induction false} RunKeepsNamed(s: State, events: seq<Event>)
    requires Inv(s) && BoardsAreNamed(s) && Legal(s, events)
    ensures BoardsAreNamed(Run(s, events))
    decreases |events|
  {
    if events != [] {
      StepKeepsInv(s, events[0]);
      BoardsStayNamed(s, events[0]);
      RunKeepsNamed(Step(s, events[0]), events[1..]);
    }
  }

  /** Only boards that some discovery in the schedule came back with are ever read. */
  lemma OnlyDiscoveredBoardsAreRead(budget: int, workers: nat, events: seq<Event>, board: Key)
    requires Legal(Start(budget, workers), events) && board in Run(Start(budget, workers), events).boardReads
    ensures exists key :: WasDiscovered(Start(budget, workers), events, key, Value(Some(board)))
  {
    var s := Start(budget, workers);
    RunKeepsNamed(s, events);
    var u := Run(s, events);
    var key :| key in u.configs && u.configs[key] == Settled(Value(Some(board)));
    SettledConfigWasDiscovered(s, events, key, Value(Some(board)));
  }

  // ---- the headless budget ----

  /** What the schedule shows of the browser: renders that came back with a page, and headless reads. */
  function Pages(events: seq<Event>): nat {
    if events == [] then 0
    else (if events[0].EndRender? && events[0].page then 1 else 0) + Pages(events[1..])
  }

  function BrowserReads(events: seq<Event>): nat {
    if events == [] then 0 else (if events[0].HeadlessRead? then 1 else 0) + BrowserReads(events[1..])
  }

  /** The budget pays for exactly those. */
  lemma {:induction false} BudgetPaysForBrowserUse(s: State, events: seq<Event>)
    requires Legal(s, events)
    ensures var u := Run(s, events);
            && u.renders == s.renders + Pages(events) && u.headlessReads == s.headlessReads + BrowserReads(events)
            && u.budget == s.budget - Pages(events) - BrowserReads(events)
    decreases |events|
  {
    if events != [] {
      BudgetPaysForBrowserUse(Step(s, events[0]), events[1..]);
    }
  }

  function Renderers(workers: seq<Worker>): nat {
    if workers == [] then 0 else (if IsRendering(workers[0]) then 1 else 0) + Renderers(workers[1..])
  }

  predicate IsRendering(w: Worker) {
    w.Discovering? && w.render == Rendering
  }

  lemma {:induction false} RenderersUpdate(workers: seq<Worker>, w: nat, x: Worker)
    requires w < |workers|
    ensures Renderers(workers[w := x]) + (if IsRendering(workers[w]) then 1 else 0)
         == Renderers(workers) + (if IsRendering(x) then 1 else 0)
    ensures !IsRendering(workers[w]) ==> Renderers(workers) < |workers|
  {
    RenderersAtMost(workers[1..]);
    if w == 0 {
      assert workers[w := x][1..] == workers[1..];
    } else {
      RenderersUpdate(workers[1..], w - 1, x);
      assert workers[w := x][1..] == workers[1..][w - 1 := x];
    }
  }

  lemma {:induction false} RenderersAtMost(workers: seq<Worker>)
    ensures Renderers(workers) <= |workers|
  {
    if workers != [] {
      RenderersAtMost(workers[1..]);
    }
  }

  /** Every render in flight was let in by a positive budget, and each may still cost one. */
  ghost predicate BudgetInv(initial: int, s: State) {
    && s.budget - Renderers(s.workers) >= 1 - |s.workers|
    && s.renders + s.headlessReads == initial - s.budget
    && (initial == 0 ==> s.budget == 0 && Renderers(s.workers) == 0)
  }

  lemma StepKeepsBudget(initial: int, s: State, e: Event)
    requires BudgetInv(initial, s) && Enabled(s, e)
    ensures BudgetInv(initial, Step(s, e)) && |Step(s, e).workers| == |s.workers|
  {
    RenderersUpdate(s.workers, e.worker, Step(s, e).workers[e.worker]);
  }

  lemma {:induction false} RunKeepsBudget(initial: int, s: State, events: seq<Event>)
    requires BudgetInv(initial, s) && Legal(s, events)
    ensures BudgetInv(initial, Run(s, events)) && |Run(s, events).workers| == |s.workers|
    decreases |events|
  {
    if events != [] {
      StepKeepsBudget(initial, s, events[0]);
      RunKeepsBudget(initial, Step(s, events[0]), events[1..]);
    }
  }

  lemma {:induction false} NobodyRenders(workers: seq<Worker>)
    requires forall i :: 0 <= i < |workers| ==> workers[i] == Free
    ensures Renderers(workers) == 0
  {
    if workers != [] {
      NobodyRenders(workers[1..]);
    }
  }

  /** With `workers` workers the budget overshoots by at most `workers - 1`, whatever the schedule. */
  lemma BudgetOvershootIsBounded(initial: nat, workers: nat, events: seq<Event>)
    requires workers > 0 && Legal(Start(initial, workers), events)
    ensures var u := Run(Start(initial, workers), events);
            && u.budget >= 1 - workers
            && u.renders + u.headlessReads <= initial + workers - 1
            && (initial == 0 ==> u.renders + u.headlessReads == 0 == u.budget)
  {
    NobodyRenders(Start(initial, workers).workers);
    RunKeepsBudget(initial, Start(initial, workers), events);
  }

  lemma RunCons(s: State, e: Event, rest: seq<Event>)
    requires Enabled(s, e) && Legal(Step(s, e), rest)
    ensures Legal(s, [e] + rest) && Run(s, [e] + rest) == Run(Step(s, e), rest)
  {
    assert ([e] + rest)[1..] == rest;
  }

  lemma HeadAndRest(a: seq<Event>, b: seq<Event>)
    requires a != []
    ensures [a[0]] + (a[1..] + b) == a + b
  {
  }

  lemma {:induction false} RunConcat(s: State, a: seq<Event>, b: seq<Event>)
    requires Legal(s, a) && Legal(Run(s, a), b)
    ensures Legal(s, a + b) && Run(s, a + b) == Run(Run(s, a), b)
    decreases |a|
  {
    if a == [] {
      assert a + b == b;
    } else {
      RunConcat(Step(s, a[0]), a[1..], b);
      RunCons(s, a[0], a[1..] + b);
      HeadAndRest(a, b);
    }
  }

  /** A key of length `n`. */
  function Name(n: nat): (key: Key)
    ensures |key| == n
  {
    if n == 0 then "" else Name(n - 1) + "x"
  }

  /** Nothing has been asked for under a key longer than `n`. */
  ghost predicate ShortKeys(s: State, n: nat) {
    (forall k :: k in s.configs ==> |k| <= n) && (forall k :: k in s.jobs ==> |k| <= n)
  }

  /** The first worker discovers a board for a new company. */
  lemma FindBoard(s: State, n: nat) returns (events: seq<Event>)
    requires s.workers != [] && s.workers[0].Free? && ShortKeys(s, n)
    ensures Legal(s, events)
    ensures var u := Run(s, events);
            u.workers == s.workers[0 := Found(Name(n + 1))] && u.budget == s.budget && u.jobs == s.jobs
              && ShortKeys(u, n + 1)
  {
    var name := Name(n + 1);
    var settle := SettleConfig(0, Value(Some(name)));
    var s1 := Step(s, CallConfig(0, name));
    var s2 := Step(s1, settle);
    RunCons(s2, SeeConfig(0), []);
    RunCons(s1, settle, [SeeConfig(0)]);
    RunCons(s, CallConfig(0, name), [settle] + [SeeConfig(0)]);
    events := [CallConfig(0, name)] + ([settle] + [SeeConfig(0)]);
  }

  /** It reads that board in the headless browser. */
  lemma ReadFound(s: State, n: nat) returns (events: seq<Event>)
    requires s.workers != [] && s.workers[0] == Found(Name(n + 1)) && s.budget > 0 && ShortKeys(s, n + 1)
        && Name(n + 1) !in s.jobs
    ensures Legal(s, events)
    ensures var u := Run(s, events);
            u.workers == s.workers[0 := Free] && u.budget == s.budget - 1 && ShortKeys(u, n + 1)
  {
    var name := Name(n + 1);
    var s1 := Step(s, CallJobs(0, name));
    var s2 := Step(s1, HeadlessRead(0));
    var s3 := Step(s2, SettleJobs(0, Rejected));
    RunCons(s3, SeeJobs(0), []);
    RunCons(s2, SettleJobs(0, Rejected), [SeeJobs(0)]);
    RunCons(s1, HeadlessRead(0), [SettleJobs(0, Rejected)] + [SeeJobs(0)]);
    RunCons(s, CallJobs(0, name), [HeadlessRead(0)] + ([SettleJobs(0, Rejected)] + [SeeJobs(0)]));
    events := [CallJobs(0, name)] + ([HeadlessRead(0)] + ([SettleJobs(0, Rejected)] + [SeeJobs(0)]));
  }

  lemma SpendOne(s: State, n: nat) returns (events: seq<Event>)
    requires s.workers != [] && s.workers[0].Free? && s.budget > 0 && ShortKeys(s, n)
    ensures Legal(s, events)
    ensures var u := Run(s, events); u.workers == s.workers && u.budget == s.budget - 1 && ShortKeys(u, n + 1)
  {
    var first := FindBoard(s, n);
    var found := Run(s, first);
    var second := ReadFound(found, n);
    RunConcat(s, first, second);
    events := first + second;
  }

  /** Reads by the first worker bring the budget down to one. */
  lemma {:induction false} SpendAllButOne(s: State, n: nat) returns (events: seq<Event>, m: nat)
    requires s.workers != [] && s.workers[0].Free? && s.budget > 0 && ShortKeys(s, n)
    ensures Legal(s, events)
    ensures var u := Run(s, events); u.workers == s.workers && u.budget == 1 && ShortKeys(u, m)
    decreases s.budget
  {
    if s.budget == 1 {
      return [], n;
    }
    var first := SpendOne(s, n);
    var rest;
    rest, m := SpendAllButOne(Run(s, first), n + 1);
    RunConcat(s, first, rest);
    events := first + rest;
  }

  /** A free worker starts a discovery and passes the budget test. */
  lemma BeginOne(s: State, i: nat, n: nat) returns (events: seq<Event>)
    requires i < |s.workers| && s.workers[i].Free? && s.budget > 0 && ShortKeys(s, n)
    ensures Legal(s, events)
    ensures var u := Run(s, events);
            && u.workers == s.workers[i := Discovering(Name(n + 1), Rendering)] && u.budget == s.budget
            && ShortKeys(u, n + 1)
  {
    var s1 := Step(s, CallConfig(i, Name(n + 1)));
    RunCons(s1, BeginRender(i), []);
    RunCons(s, CallConfig(i, Name(n + 1)), [BeginRender(i)]);
    events := [CallConfig(i, Name(n + 1))] + [BeginRender(i)];
  }

  /** The workers from `i` on pass the budget test one after the other before any of them pays. */
  lemma {:induction false} AllBeginRendering(s: State, i: nat, n: nat) returns (events: seq<Event>)
    requires i <= |s.workers| && s.budget > 0 && ShortKeys(s, n)
    requires forall j :: i <= j < |s.workers| ==> s.workers[j].Free?
    ensures Legal(s, events)
    ensures var u := Run(s, events);
            && |u.workers| == |s.workers| && u.budget == s.budget
            && (forall j :: 0 <= j < i ==> u.workers[j] == s.workers[j])
            && (forall j :: i <= j < |u.workers| ==> IsRendering(u.workers[j]))
    decreases |s.workers| - i
  {
    if i == |s.workers| {
      return [];
    }
    var first := BeginOne(s, i, n);
    var rest := AllBeginRendering(Run(s, first), i + 1, n + 1);
    RunConcat(s, first, rest);
    events := first + rest;
  }

  /** Then each of them gets its page and pays. */
  lemma {:induction false} AllGetTheirPage(s: State, i: nat) returns (events: seq<Event>)
    requires i <= |s.workers| && forall j :: i <= j < |s.workers| ==> IsRendering(s.workers[j])
    ensures Legal(s, events) && Run(s, events).budget == s.budget - (|s.workers| - i)
    decreases |s.workers| - i
  {
    if i == |s.workers| {
      return [];
    }
    var s1 := Step(s, EndRender(i, true));
    var rest := AllGetTheirPage(s1, i + 1);
    RunCons(s, EndRender(i, true), rest);
    events := [EndRender(i, true)] + rest;
  }

  /** The bound is reached for every number of workers and every budget there is to spend. */
  lemma OvershootBoundIsReached(initial: nat, workers: nat)
    requires initial > 0 && workers > 0
    ensures exists events ::
              Legal(Start(initial, workers), events) && Run(Start(initial, workers), events).budget == 1 - workers
  {
    var s := Start(initial, workers);
    var first, n := SpendAllButOne(s, 0);
    var low := Run(s, first);
    var second := AllBeginRendering(low, 0, n);
    var third := AllGetTheirPage(Run(low, second), 0);
    RunConcat(low, second, third);
    RunConcat(s, first, second + third);
  }

  /** A budget is never overspent exactly when there is a single worker or nothing to spend. */
  lemma BudgetNeverOverspentIff(initial: nat, workers: nat)
    requires workers > 0
    ensures (forall events ::
               Legal(Start(initial, workers), events) ==> Run(Start(initial, workers), events).budget >= 0)
       <==> workers == 1 || initial == 0
  {
    if workers == 1 || initial == 0 {
      forall events | Legal(Start(initial, workers), events) ensures Run(Start(initial, workers), events).budget >= 0 {
        BudgetOvershootIsBounded(initial, workers, events);
      }
    } else {
      OvershootBoundIsReached(initial, workers);
    }
  }
}
