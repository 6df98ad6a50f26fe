/** The lazily built Prisma client, cached under the fingerprint it was built for. */
module ClientCache {
  import opened Prelude
  import opened SchemaFingerprint

  type ClientId = nat

  /** `built` and `disconnects` record what happened; the process itself keeps only the first two fields. */
  datatype State = State(
    client: Option<ClientId>,
    fingerprint: Option<string>,
    built: seq<Namespace>,
    disconnects: seq<ClientId>
  )

  /** One call: the generated namespace of the moment, and whether creating a client would succeed. */
  datatype Call = Call(namespace: Namespace, creates: bool)

  predicate Current(s: State, c: Call) {
    s.client.Some? && s.fingerprint == Some(Fingerprint(c.namespace))
  }

  function Step(s: State, c: Call): State {
    if Current(s, c) then s
    else
      var dropped := if s.client.Some? then s.(disconnects := s.disconnects + [s.client.value]) else s;
      if !c.creates then dropped
      else dropped.(client := Some(|s.built|), fingerprint := Some(Fingerprint(c.namespace)),
        built := s.built + [c.namespace])
  }

  /** The client a call returns, or none if creation threw. */
  function Returned(s: State, c: Call): Option<ClientId> {
    if Current(s, c) then s.client else if c.creates then Some(|s.built|) else None
  }

  function Run(s: State, calls: seq<Call>): State
    decreases |calls|
  {
    if calls == [] then s else Run(Step(s, calls[0]), calls[1..])
  }

  const EMPTY := State(None, None, [], [])

  /** `globalForPrisma` and `resolveClient`. */
  class Globals {
    var client: Option<ClientId>
    var fingerprint: Option<string>
    ghost var log: State

    ghost predicate Valid()
      reads this
    {
      log.client == client && log.fingerprint == fingerprint
    }

    constructor ()
      ensures Valid() && log == EMPTY
    {
      client, fingerprint, log := None, None, EMPTY;
    }

    method ResolveClient(c: Call, newClient: ClientId) returns (r: Option<ClientId>)
      requires Valid() && newClient == |log.built|
      modifies this
      ensures Valid() && log == Step(old(log), c) && r == Returned(old(log), c)
    {
      var current := Fingerprint(c.namespace);
      log := Step(log, c);
      if client.Some? && fingerprint == Some(current) {
        return client;
      }
      if !c.creates {
        return None;
      }
      client, fingerprint := Some(newClient), Some(current);
      return client;
    }
  }

  // ---- with creation succeeding ----

  /**
   * The cached client is the newest, was built for the remembered fingerprint, and all older ones were disconnected
   * once.
   */
  ghost predicate Inv(s: State) {
    && (s.client.None? <==> s.built == [])
    && (s.client.Some? ==>
      s.client.value == |s.built| - 1 && s.fingerprint == Some(Fingerprint(s.built[|s.built| - 1])))
    && NoDuplicates(s.disconnects)
    && (forall id :: id in s.disconnects <==> 0 <= id < |s.built| - 1)
    && (forall i :: 0 <= i < |s.built| ==> WellNamed(s.built[i]))
  }

  lemma StepKeepsInv(s: State, c: Call)
    requires Inv(s) && c.creates && WellNamed(c.namespace)
    ensures Inv(Step(s, c))
  {
    var u := Step(s, c);
    if !Current(s, c) && s.client.Some? {
      assert s.client.value !in s.disconnects;
      assert forall id :: id in u.disconnects <==> id in s.disconnects || id == s.client.value;
    }
  }

  lemma {:induction false} RunKeepsInv(s: State, calls: seq<Call>)
    requires Inv(s) && forall c :: c in calls ==> c.creates && WellNamed(c.namespace)
    ensures Inv(Run(s, calls))
    decreases |calls|
  {
    if calls != [] {
      StepKeepsInv(s, calls[0]);
      RunKeepsInv(Step(s, calls[0]), calls[1..]);
    }
  }

  /** The next call's client is current, and each client but the cached one has been disconnected exactly once. */
  ghost predicate ServesCurrent(s: State, next: Call) {
    var u := Step(s, next);
    var id := Returned(s, next);
    && NoDuplicates(u.disconnects) && (forall d :: d in u.disconnects <==> 0 <= d < |u.built| - 1)
    && id.Some? && id.value < |u.built| && id.value !in u.disconnects
    && SameSchema(u.built[id.value], next.namespace)
  }

  /** The next call builds a client exactly when there is none or the schema has changed. */
  ghost predicate RebuildsOnChange(s: State, next: Call) {
    |Step(s, next).built| > |s.built| <==> s.built == [] || !SameSchema(s.built[|s.built| - 1], next.namespace)
  }

  lemma NextCallIsCurrent(s: State, next: Call)
    requires Inv(s) && next.creates && WellNamed(next.namespace)
    ensures ServesCurrent(s, next)
  {
    var u := Step(s, next);
    StepKeepsInv(s, next);
    FingerprintIdentifiesSchema(u.built[|u.built| - 1], next.namespace);
  }

  lemma RebuildsIffChanged(s: State, next: Call)
    requires Inv(s) && next.creates && WellNamed(next.namespace)
    ensures RebuildsOnChange(s, next)
  {
    if s.built != [] {
      FingerprintIdentifiesSchema(s.built[|s.built| - 1], next.namespace);
    }
  }

  /**
   * Over any sequence of calls in which creation succeeds: every client but the cached one has been
   * disconnected exactly once; the next call returns a client built for a schema with the same enums and
   * fields as the current one, never a disconnected one, and builds a new client exactly when there is
   * none or the schema has changed since the cached one was built.
   */
  lemma ResolvedClientIsCurrent(calls: seq<Call>, next: Call)
    requires forall c :: c in calls ==> c.creates && WellNamed(c.namespace)
    requires next.creates && WellNamed(next.namespace)
    ensures ServesCurrent(Run(EMPTY, calls), next) && RebuildsOnChange(Run(EMPTY, calls), next)
  {
    RunKeepsInv(EMPTY, calls);
    NextCallIsCurrent(Run(EMPTY, calls), next);
    RebuildsIffChanged(Run(EMPTY, calls), next);
  }

  // ---- when creation fails ----

  /** A call that drops the cached client and then cannot build its replacement. */
  predicate FailedRebuild(s: State, c: Call) {
    s.client.Some? && !Current(s, c) && !c.creates
  }

  /**
   * The stale client stays cached after a failed rebuild, so whatever the next call is, it either hands
   * out the disconnected client or disconnects it a second time.
   */
  lemma AfterFailedRebuild(s: State, c: Call, next: Call)
    requires Inv(s) && FailedRebuild(s, c)
    ensures var u := Step(s, c);
            (Returned(u, next) == s.client && s.client.value in u.disconnects)
              || !NoDuplicates(Step(u, next).disconnects)
  {
    var u := Step(s, c);
    if !Current(u, next) {
      var d := Step(u, next).disconnects;
      assert d == s.disconnects + [s.client.value, s.client.value];
      assert d[|d| - 2] == d[|d| - 1];
    }
  }

  /** A call goes well: it neither returns a disconnected client nor disconnects one twice. */
  ghost predicate GoesWell(s: State, c: Call) {
    NoDuplicates(Step(s, c).disconnects)
    && (Returned(s, c).Some? ==> Returned(s, c).value !in Step(s, c).disconnects)
  }

  /** Every call of the sequence goes well. */
  ghost predicate AllGoWell(s: State, calls: seq<Call>)
    decreases |calls|
  {
    calls != [] ==> GoesWell(s, calls[0]) && AllGoWell(Step(s, calls[0]), calls[1..])
  }

  /** No rebuild fails, except possibly in the very last call. */
  predicate NoFailedRebuildBeforeLast(s: State, calls: seq<Call>)
    decreases |calls|
  {
    |calls| > 1 ==> !FailedRebuild(s, calls[0]) && NoFailedRebuildBeforeLast(Step(s, calls[0]), calls[1..])
  }

  lemma OneCall(s: State, c: Call)
    requires Inv(s) && WellNamed(c.namespace)
    ensures GoesWell(s, c)
    ensures !FailedRebuild(s, c) ==> Inv(Step(s, c))
  {
    if Current(s, c) || c.creates {
      StepKeepsInv(s, c.(creates := true));
    } else if s.client.Some? {
      assert s.client.value !in s.disconnects;
    }
  }

  /** The cache behaves over a whole sequence of calls exactly when no failed rebuild is followed by another call. */
  lemma {:induction false} CacheBehavesIff(s: State, calls: seq<Call>)
    requires Inv(s) && forall c :: c in calls ==> WellNamed(c.namespace)
    ensures AllGoWell(s, calls) <==> NoFailedRebuildBeforeLast(s, calls)
    decreases |calls|
  {
    if calls != [] {
      OneCall(s, calls[0]);
      var u := Step(s, calls[0]);
      if FailedRebuild(s, calls[0]) {
        if |calls| > 1 {
          AfterFailedRebuild(s, calls[0], calls[1]);
          assert calls[1..][0] == calls[1];
          assert !GoesWell(u, calls[1]);
        }
      } else {
        CacheBehavesIff(u, calls[1..]);
      }
    }
  }
}
