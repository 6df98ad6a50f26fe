/** The coalescing health cache: one shared probe at a time, its result kept for fifteen seconds. */
module HealthCache {
  import opened Prelude

  const CACHE_MS := 15_000

  datatype Health = Health(reachable: bool, modelInstalled: bool, models: seq<string>, model: string)

  /** What a failed or malformed probe counts as. */
  const UNREACHABLE := Health(false, false, [], "")

  /** What the network did: a well-formed answer, or anything else. */
  datatype Answer = Good(health: Health) | Bad

  function ValueOf(a: Answer): Health {
    match a case Good(health) => health case Bad => UNREACHABLE
  }

  datatype Cached = Cached(value: Health, expiresAt: int)

  /** A probe in flight: `result` is set once it has answered, before the promise is forgotten. */
  datatype Probe = Probe(id: nat, result: Option<Health>)

  /** How a call was served. */
  datatype Served = FromCache(at: int, cached: Cached) | Joined(at: int, probe: nat) | StartedProbe(at: int, probe: nat)

  datatype State = State(
    cached: Option<Cached>,
    inFlight: Option<Probe>,
    clock: int,
    starts: seq<int>,
    answers: map<nat, Health>,
    served: seq<Served>
  )

  /** `Settle` runs the body after its await; `Forget` is the `finally` that clears `inFlight` a moment later. */
  datatype Event = Call(now: int) | Settle(answer: Answer, now: int) | Forget

  predicate Enabled(s: State, e: Event) {
    match e
    case Call(now) => now >= s.clock
    case Settle(_, now) => s.inFlight.Some? && s.inFlight.value.result.None? && now >= s.clock
    case Forget => s.inFlight.Some? && s.inFlight.value.result.Some?
  }

  function Step(s: State, e: Event): State
    requires Enabled(s, e)
  {
    match e
    case Call(now) =>
      var t := s.(clock := now);
      if s.cached.Some? && s.cached.value.expiresAt > now then t.(served := s.served + [FromCache(now, s.cached.value)])
      else if s.inFlight.Some? then t.(served := s.served + [Joined(now, s.inFlight.value.id)])
      else t.(inFlight := Some(Probe(|s.starts|, None)), starts := s.starts + [now],
        served := s.served + [StartedProbe(now, |s.starts|)])
    case Settle(answer, now) =>
      var probe := s.inFlight.value;
      s.(clock := now, cached := Some(Cached(ValueOf(answer), now + CACHE_MS)),
         inFlight := Some(probe.(result := Some(ValueOf(answer)))), answers := s.answers[probe.id := ValueOf(answer)])
    case Forget => s.(inFlight := None)
  }

  predicate Legal(s: State, events: seq<Event>)
    decreases |events|
  {
    events == [] || (Enabled(s, events[0]) && Legal(Step(s, events[0]), events[1..]))
  }

  function Run(s: State, events: seq<Event>): State
    requires Legal(s, events)
    decreases |events|
  {
    if events == [] then s else Run(Step(s, events[0]), events[1..])
  }

  function Fresh(clock: int): State {
    State(None, None, clock, [], map[], [])
  }

  /** The module's two variables, changed by the code between awaits. */
  class Client {
    var cached: Option<Cached>
    var inFlight: Option<Probe>
    ghost var log: State

    ghost predicate Valid()
      reads this
    {
      log.cached == cached && log.inFlight == inFlight
    }

    constructor (ghost clock: int)
      ensures Valid() && log == Fresh(clock)
    {
      cached, inFlight := None, None;
      log := Fresh(clock);
    }

    /** The synchronous part of `getCachedOllamaHealth`: a cached value, or a promise to wait for. */
    method GetCachedHealth(now: int, nextId: nat) returns (value: Option<Health>)
      requires Valid() && Enabled(log, Call(now)) && nextId == |log.starts|
      modifies this
      ensures Valid() && log == Step(old(log), Call(now))
      ensures value.Some? ==> cached.Some? && value.value == cached.value.value && cached.value.expiresAt > now
      ensures value.None? ==> inFlight.Some?
    {
      log := Step(log, Call(now));
      if cached.Some? && cached.value.expiresAt > now {
        return Some(cached.value.value);
      }
      if inFlight.Some? {
        return None;
      }
      inFlight := Some(Probe(nextId, None));
      return None;
    }

    method ProbeAnswered(answer: Answer, now: int)
      requires Valid() && Enabled(log, Settle(answer, now))
      modifies this
      ensures Valid() && log == Step(old(log), Settle(answer, now))
    {
      log := Step(log, Settle(answer, now));
      var value := match answer case Good(health) => health case Bad => UNREACHABLE;
      cached := Some(Cached(value, now + CACHE_MS));
      inFlight := Some(inFlight.value.(result := Some(value)));
    }

    method ProbeForgotten()
      requires Valid() && Enabled(log, Forget)
      modifies this
      ensures Valid() && log == Step(old(log), Forget)
    {
      log := Step(log, Forget);
      inFlight := None;
    }
  }

  // ---- what every interleaving guarantees ----

  /** Consecutive probe starts are at least fifteen seconds apart. */
  ghost predicate Spaced(starts: seq<int>) {
    forall i :: 0 < i < |starts| ==> starts[i] - starts[i - 1] >= 15_000
  }

  /** A call was served properly: an unexpired value, or a probe whose answer it will get. */
  ghost predicate ServedWell(s: State, c: Served) {
    match c
    case FromCache(at, cached) => cached.expiresAt > at && exists p :: p in s.answers && s.answers[p] == cached.value
    case Joined(at, probe) => probe < |s.starts| && s.starts[probe] <= at
    case StartedProbe(at, probe) => probe < |s.starts| && s.starts[probe] == at
  }

  ghost predicate InFlightIsNewest(s: State, probe: Probe) {
    && s.starts != [] && probe.id == |s.starts| - 1
    && (probe.result.None? <==> probe.id !in s.answers)
    && (probe.result.Some? ==> s.answers[probe.id] == probe.result.value)
  }

  ghost predicate Inv(s: State) {
    && Spaced(s.starts)
    && (s.starts != [] ==> s.starts[|s.starts| - 1] <= s.clock)
    // every probe has answered, except possibly the newest while it is in flight
    && (forall p :: p in s.answers ==> p < |s.starts|)
    && (forall p :: 0 <= p < |s.starts| ==>
          p in s.answers || (s.inFlight.Some? && s.inFlight.value.id == p && s.inFlight.value.result.None?))
    && (s.inFlight.Some? ==> InFlightIsNewest(s, s.inFlight.value))
    && (s.inFlight.None? && s.starts != [] ==> s.cached.Some?)
    && (s.cached.Some? ==> exists p :: p in s.answers && s.answers[p] == s.cached.value.value)
    // a settled newest probe keeps the cache alive long enough
    && (s.starts != [] && |s.starts| - 1 in s.answers ==>
          s.cached.Some? && s.cached.value.expiresAt >= s.starts[|s.starts| - 1] + CACHE_MS)
  }

  lemma StepKeepsInv(s: State, e: Event)
    requires Inv(s) && Enabled(s, e)
    ensures Inv(Step(s, e))
  {
    match e
    case Call(now) =>
    case Settle(answer, now) =>
      var u := Step(s, e);
      assert u.answers[s.inFlight.value.id] == u.cached.value.value;
    case Forget =>
  }

  lemma StepKeepsServed(s: State, e: Event, c: Served)
    requires Inv(s) && Enabled(s, e) && ServedWell(s, c)
    ensures ServedWell(Step(s, e), c)
  {
    var u := Step(s, e);
    if c.FromCache? {
      var p :| p in s.answers && s.answers[p] == c.cached.value;
      assert p in u.answers && u.answers[p] == c.cached.value;
    }
  }

  lemma NewCallIsServed(s: State, now: int)
    requires Inv(s) && Enabled(s, Call(now))
    ensures var u := Step(s, Call(now));
            |u.served| == |s.served| + 1 && u.served[..|s.served|] == s.served && ServedWell(u, u.served[|s.served|])
  {
  }

  lemma {:induction false} RunKeepsInv(s: State, events: seq<Event>)
    requires Inv(s) && Legal(s, events) && forall c :: c in s.served ==> ServedWell(s, c)
    ensures Inv(Run(s, events)) && forall c :: c in Run(s, events).served ==> ServedWell(Run(s, events), c)
    decreases |events|
  {
    if events != [] {
      var u := Step(s, events[0]);
      StepKeepsInv(s, events[0]);
      forall c | c in u.served ensures ServedWell(u, c) {
        if c in s.served {
          StepKeepsServed(s, events[0], c);
        } else {
          NewCallIsServed(s, events[0].now);
        }
      }
      RunKeepsInv(u, events[1..]);
    }
  }

  /**
   * For every interleaving of calls and answers under a clock that never goes back: probes start at
   * least fifteen seconds apart, at most one is unanswered, and every call got an unexpired value that
   * some probe produced, or joined or started a probe.
   */
  lemma ProbesAreCoalesced(clock: int, events: seq<Event>)
    requires Legal(Fresh(clock), events)
    ensures var u := Run(Fresh(clock), events);
            && Spaced(u.starts)
            && (forall p :: 0 <= p < |u.starts| - 1 ==> p in u.answers)
            && (forall c :: c in u.served ==> ServedWell(u, c))
  {
    RunKeepsInv(Fresh(clock), events);
  }

  /** A caller that joins a probe still waiting for its answer gets exactly the answer that probe later settles with. */
  lemma {:induction false} AnswersNeverChange(s: State, events: seq<Event>, p: nat)
    requires Inv(s) && Legal(s, events) && p in s.answers
    ensures p in Run(s, events).answers && Run(s, events).answers[p] == s.answers[p]
    decreases |events|
  {
    if events != [] {
      StepKeepsInv(s, events[0]);
      AnswersNeverChange(Step(s, events[0]), events[1..], p);
    }
  }

  // ---- where a value comes from ----

  /** A probe of the schedule came back at `when` and counts as `value`: its answer, or "unreachable" if it had none. */
  ghost predicate AnsweredWith(s: State, events: seq<Event>, value: Health, when: int)
    requires Legal(s, events)
    decreases |events|
  {
    events != []
    && (|| (events[0].Settle? && events[0].now == when
            && value == match events[0].answer
                        case Good(health) => health
                        case Bad => Health(false, false, [], ""))
        || AnsweredWith(Step(s, events[0]), events[1..], value, when))
  }

  ghost predicate SomeProbeAnswered(s: State, events: seq<Event>, value: Health)
    requires Legal(s, events)
  {
    exists when :: AnsweredWith(s, events, value, when)
  }

  /** The value was answered at some time of the schedule, and was served within fifteen seconds of that. */
  ghost predicate ServedFresh(s: State, events: seq<Event>, at: int, cached: Cached)
    requires Legal(s, events)
  {
    exists when :: AnsweredWith(s, events, cached.value, when) && when <= at < when + 15_000
  }

  lemma {:induction false} CachedWasAnswered(s: State, events: seq<Event>, c: Served)
    requires Legal(s, events) && c.FromCache? && c in Run(s, events).served && c !in s.served
    requires s.cached.Some? ==> s.cached.value.expiresAt <= s.clock + 15_000
    ensures ServedFresh(s, events, c.at, c.cached)
         || (s.cached == Some(c.cached) && c.at < c.cached.expiresAt <= c.at + 15_000)
    decreases |events|
  {
    if events != [] {
      var e, u := events[0], Step(s, events[0]);
      if c !in u.served {
        CachedWasAnswered(u, events[1..], c);
        if ServedFresh(u, events[1..], c.at, c.cached) {
          var when :| AnsweredWith(u, events[1..], c.cached.value, when) && when <= c.at < when + 15_000;
          assert AnsweredWith(s, events, c.cached.value, when);
        } else if e.Settle? {
          assert AnsweredWith(s, events, c.cached.value, e.now);
        }
      }
    }
  }

  lemma {:induction false} AnswerWasGiven(s: State, events: seq<Event>, p: nat)
    requires Legal(s, events) && p in Run(s, events).answers
    ensures (p in s.answers && s.answers[p] == Run(s, events).answers[p])
         || SomeProbeAnswered(s, events, Run(s, events).answers[p])
    decreases |events|
  {
    if events != [] {
      var e, u, value := events[0], Step(s, events[0]), Run(s, events).answers[p];
      AnswerWasGiven(u, events[1..], p);
      if SomeProbeAnswered(u, events[1..], value) {
        var when :| AnsweredWith(u, events[1..], value, when);
        assert AnsweredWith(s, events, value, when);
      } else if e.Settle? && s.inFlight.value.id == p {
        assert AnsweredWith(s, events, value, e.now);
      }
    }
  }

  /**
   * For every interleaving: a cached value that is served is what some probe answered, or "unreachable" where it got no
   * proper answer, and that was less than fifteen seconds ago; and what a probe is remembered to have answered is what
   * came back.
   */
  lemma ServedValuesAreFresh(clock: int, events: seq<Event>)
    requires Legal(Fresh(clock), events)
    ensures forall c :: c in Run(Fresh(clock), events).served && c.FromCache? ==>
      ServedFresh(Fresh(clock), events, c.at, c.cached)
    ensures forall p :: p in Run(Fresh(clock), events).answers ==>
      SomeProbeAnswered(Fresh(clock), events, Run(Fresh(clock), events).answers[p])
  {
    forall c | c in Run(Fresh(clock), events).served && c.FromCache?
      ensures ServedFresh(Fresh(clock), events, c.at, c.cached)
    {
      CachedWasAnswered(Fresh(clock), events, c);
    }
    forall p | p in Run(Fresh(clock), events).answers
      ensures SomeProbeAnswered(Fresh(clock), events, Run(Fresh(clock), events).answers[p])
    {
      AnswerWasGiven(Fresh(clock), events, p);
    }
  }
}
