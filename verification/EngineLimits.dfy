/**
 Limit and windows over runs of the engine: what DedupRuns and DedupLimits prove about the store holds
 for the events that come in, through the trace.
 */
module EngineLimits {
  import opened Basics
  import opened Dedup
  import opened Match
  import opened Engine
  import opened EngineRuns
  import opened AlarmLifecycle
  import Limits = DedupLimits

  // ------------------------------------------------------------ increasing times

  /** All events were received before t. */
  predicate EventsBefore(run: Run, t: int) {
    match run
    case Fresh(_, _) => true
    case Fed(before, input) => EventsBefore(before, t) && (input.Event? ==> input.t.receivedAt < t)
  }

  predicate StrictEvents(run: Run) {
    match run
    case Fresh(_, _) => true
    case Fed(before, input) => StrictEvents(before) && (input.Event? ==> EventsBefore(before, input.t.receivedAt))
  }

  /** Clears take no part in what arrived. */
  lemma {:induction false} ClearingKeepsArrivals(run: Runs.Run, keys: set<Key>, t: int, key: Key)
    ensures Runs.ArrivalsBefore(Clearing(run, keys), t) <==> Runs.ArrivalsBefore(run, t)
    ensures Runs.StrictArrivals(Clearing(run, keys)) <==> Runs.StrictArrivals(run)
    ensures Runs.OthersSince(Clearing(run, keys), key) == Runs.OthersSince(run, key)
    decreases |keys|
  {
    if keys != {} {
      var k :| k in keys && Clearing(run, keys) == Clearing(Runs.Then(run, Runs.Clear(k)), keys - {k});
      ClearingKeepsArrivals(Runs.Then(run, Runs.Clear(k)), keys - {k}, t, key);
    }
  }

  lemma {:induction false} TraceArrivalsBefore(lib: Lib, run: Run, t: int)
    requires EventsBefore(run, t)
    ensures Runs.ArrivalsBefore(Trace(lib, run), t)
  {
    match run
    case Fresh(_, _) =>
    case Fed(before, input) =>
      TraceArrivalsBefore(lib, before, t);
      if input.Event? {
        ClearingKeepsArrivals(Trace(lib, before), Cleared(lib, CfgAt(before), input.t), t, Key("", []));
      }
  }

  lemma {:induction false} TraceIsStrict(lib: Lib, run: Run)
    requires StrictEvents(run)
    ensures Runs.StrictArrivals(Trace(lib, run))
  {
    match run
    case Fresh(_, _) =>
    case Fed(before, input) =>
      TraceIsStrict(lib, before);
      if input.Event? {
        TraceArrivalsBefore(lib, before, input.t.receivedAt);
        var keys := Cleared(lib, CfgAt(before), input.t);
        ClearingKeepsArrivals(Trace(lib, before), keys, input.t.receivedAt, Key("", []));
      }
  }

  // ------------------------------------------------------------------- eviction

  /** Only an event that reaches dedup evicts, and the trace records what it evicts. */
  lemma EvictingArrival(lib: Lib, limit: int, run: Run, input: Input)
    requires input.Event? && Valid(lib, limit, Fed(run, input)) && input.victim.Some?
    ensures ArrivalOf(lib, CfgAt(run), input.t).Some?
    ensures var a := ArrivalAction(ArrivalOf(lib, CfgAt(run), input.t).value, input.t, input.victim);
            Trace(lib, Fed(run, input)) == Runs.Then(BeforeArrival(lib, run, input.t), a)
  {
  }

  /** With increasing times an event evicts a key only after `limit` other keys reached dedup since that key did. */
  lemma EvictionNeedsEvents(lib: Lib, limit: int, run: Run, input: Input, victim: Key)
    requires input.Event? && limit > 0 && Valid(lib, limit, Fed(run, input)) && StrictEvents(Fed(run, input))
    requires input.victim == Some(victim)
    ensures |Runs.OthersSince(Trace(lib, Fed(run, input)), victim)| >= limit
  {
    EvictingArrival(lib, limit, run, input);
    TraceIsFaithful(lib, limit, Fed(run, input));
    TraceIsStrict(lib, Fed(run, input));
    var a := ArrivalAction(ArrivalOf(lib, CfgAt(run), input.t).value, input.t, input.victim);
    Runs.EvictionNeedsActivity(limit, BeforeArrival(lib, run, input.t), a, victim);
  }

  lemma {:induction false} ClearingKeepsHeld(limit: int, run: Runs.Run, keys: set<Key>, key: Key)
    requires key !in keys
    ensures Limits.HeldThroughout(limit, Clearing(run, keys), key) <==> Limits.HeldThroughout(limit, run, key)
    decreases |keys|
  {
    if keys != {} {
      var k :| k in keys && Clearing(run, keys) == Clearing(Runs.Then(run, Runs.Clear(k)), keys - {k});
      ClearingKeepsHeld(limit, Runs.Then(run, Runs.Clear(k)), keys - {k}, key);
    }
  }

  /** A held alarm, neither cleared nor displaced since, makes the next event of its key a duplicate at any time. */
  lemma HeldAlarmSuppresses(lib: Lib, limit: int, run: Run, input: Input, key: Key)
    requires ArrivesUnder(lib, run, input, key)
    requires Valid(lib, limit, run) && Ordered(Fed(run, input)) && StrictEvents(run)
    requires key !in Cleared(lib, CfgAt(run), input.t) && Limits.HeldThroughout(limit, Trace(lib, run), key)
    ensures HandledAt(lib, run, input).outcome.reason.Duplicate?
  {
    var trace, keys, at := Trace(lib, run), Cleared(lib, CfgAt(run), input.t), input.t.receivedAt;
    TraceIsFaithful(lib, limit, run);
    TraceIsOrdered(lib, run);
    TraceIsStrict(lib, run);
    ClearingEffect(limit, trace, keys, at);
    ClearingKeepsArrivals(trace, keys, at, key);
    ClearingKeepsHeld(limit, trace, keys, key);
    Limits.SuppressedForeverIff(limit, Clearing(trace, keys), key);
    assert Runs.Suppressed(Clearing(trace, keys), key, at);
    DuplicateIffSuppressed(lib, limit, run, input);
  }

  // -------------------------------------------------------------------- spacing

  /** When the key's events were stored and sent, since it was last cleared or evicted. */
  function StoredTimes(lib: Lib, run: Run, key: Key): seq<int> {
    match run
    case Fresh(_, _) => []
    case Fed(before, input) =>
      if !input.Event? then StoredTimes(lib, before, key)
      else
        var cleared := PassesFilters(lib, CfgAt(before), input.t) && key in Cleared(lib, CfgAt(before), input.t);
        var kept := if cleared then [] else StoredTimes(lib, before, key);
        if !ArrivesUnder(lib, before, input, key) then (if input.victim == Some(key) then [] else kept)
        else if HandledAt(lib, before, input).outcome.reason.Duplicate? then kept
        else kept + [input.t.receivedAt]
  }

  lemma {:induction false} ClearingForwarded(run: Runs.Run, keys: set<Key>, key: Key)
    ensures Runs.ForwardedTimes(Clearing(run, keys), key) ==
            if key in keys then [] else Runs.ForwardedTimes(run, key)
    decreases |keys|
  {
    if keys != {} {
      var k :| k in keys && Clearing(run, keys) == Clearing(Runs.Then(run, Runs.Clear(k)), keys - {k});
      ClearingForwarded(Runs.Then(run, Runs.Clear(k)), keys - {k}, key);
    }
  }

  lemma EventForwarded(lib: Lib, limit: int, run: Run, input: Input, key: Key)
    requires input.Event? && Valid(lib, limit, Fed(run, input))
    requires Runs.ForwardedTimes(Trace(lib, run), key) == StoredTimes(lib, run, key)
    ensures Runs.ForwardedTimes(Trace(lib, Fed(run, input)), key) == StoredTimes(lib, Fed(run, input), key)
  {
    var cfg, t := CfgAt(run), input.t;
    TraceIsFaithful(lib, limit, run);
    ClearingEffect(limit, Trace(lib, run), Cleared(lib, cfg, t), 0);
    ClearingForwarded(Trace(lib, run), Cleared(lib, cfg, t), key);
    EventStore(lib, cfg, OutletsAt(run), WorldAt(lib, run), t, input.sendOk, input.victim);
  }

  lemma {:induction false} StoredTimesAreForwarded(lib: Lib, limit: int, run: Run, key: Key)
    requires Valid(lib, limit, run)
    ensures Runs.ForwardedTimes(Trace(lib, run), key) == StoredTimes(lib, run, key)
  {
    match run
    case Fresh(_, _) =>
    case Fed(before, input) =>
      StoredTimesAreForwarded(lib, limit, before, key);
      if input.Event? { EventForwarded(lib, limit, before, input, key); }
  }

  /** Whenever an event reached dedup under the key, its rule carried this TTL. */
  predicate ConstantTtl(lib: Lib, run: Run, key: Key, ttlSeconds: int) {
    match run
    case Fresh(_, _) => true
    case Fed(before, input) =>
      && ConstantTtl(lib, before, key, ttlSeconds)
      && (ArrivesUnder(lib, before, input, key) ==>
            ArrivalOf(lib, CfgAt(before), input.t).value.rule.dedup.ttlSeconds == ttlSeconds)
  }

  lemma {:induction false} ClearingKeepsTtl(run: Runs.Run, keys: set<Key>, key: Key, ttlSeconds: int)
    ensures Runs.ConstantTtl(Clearing(run, keys), key, ttlSeconds) <==> Runs.ConstantTtl(run, key, ttlSeconds)
    decreases |keys|
  {
    if keys != {} {
      var k :| k in keys && Clearing(run, keys) == Clearing(Runs.Then(run, Runs.Clear(k)), keys - {k});
      ClearingKeepsTtl(Runs.Then(run, Runs.Clear(k)), keys - {k}, key, ttlSeconds);
    }
  }

  lemma {:induction false} TraceKeepsTtl(lib: Lib, run: Run, key: Key, ttlSeconds: int)
    requires ConstantTtl(lib, run, key, ttlSeconds)
    ensures Runs.ConstantTtl(Trace(lib, run), key, ttlSeconds)
  {
    match run
    case Fresh(_, _) =>
    case Fed(before, input) =>
      TraceKeepsTtl(lib, before, key, ttlSeconds);
      if input.Event? {
        ClearingKeepsTtl(Trace(lib, before), Cleared(lib, CfgAt(before), input.t), key, ttlSeconds);
      }
  }

  /** Between clears and evictions of a key, n of its events are stored and sent over n - 1 windows at least. */
  lemma StoredEventsSpan(lib: Lib, limit: int, run: Run, key: Key, ttlSeconds: int, n: nat)
    requires Valid(lib, limit, run) && Ordered(run) && ConstantTtl(lib, run, key, ttlSeconds)
    requires 1 <= n <= |StoredTimes(lib, run, key)|
    ensures StoredTimes(lib, run, key)[n - 1] - StoredTimes(lib, run, key)[0] >= (n - 1) * Window(ttlSeconds)
    ensures 0 <= ttlSeconds <= MAX_TTL ==>
              StoredTimes(lib, run, key)[n - 1] - StoredTimes(lib, run, key)[0] >=
              (n - 1) * (ttlSeconds * 1_000_000_000)
  {
    TraceIsFaithful(lib, limit, run);
    TraceIsOrdered(lib, run);
    TraceKeepsTtl(lib, run, key, ttlSeconds);
    StoredTimesAreForwarded(lib, limit, run, key);
    Runs.ForwardsSpan(limit, Trace(lib, run), key, ttlSeconds, n);
  }
}
