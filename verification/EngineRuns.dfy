/**
 Whole runs of the engine under one worker: events, periodic cleanups and reloads in any order.
 A run leaves a trace of store actions, and the trace decides every outcome.
 */
module EngineRuns {
  import opened Basics
  import opened Config
  import opened Model
  import opened Dedup
  import opened Match
  import opened Engine
  import opened EngineTheorems
  import opened ClearTheorems
  import Runs = DedupRuns

  datatype Input =
    | Event(t: Trap, sendOk: bool, victim: Option<Key>)
    | Tick(now: int)
    | Reload(cfg: AppConfig, out: Outlets)

  datatype Run = Fresh(cfg: AppConfig, out: Outlets) | Fed(before: Run, input: Input)

  // -------------------------------------------------------------- what happens

  function CfgAt(run: Run): AppConfig {
    match run
    case Fresh(cfg, _) => cfg
    case Fed(before, input) => if input.Reload? then input.cfg else CfgAt(before)
  }

  function OutletsAt(run: Run): Outlets {
    match run
    case Fresh(_, out) => out
    case Fed(before, input) => if input.Reload? then input.out else OutletsAt(before)
  }

  /** How the engine handles an event at the end of a run. */
  function HandledAt(lib: Lib, run: Run, input: Input): Handled
    requires input.Event?
    decreases run, 1
  {
    Handle(lib, CfgAt(run), OutletsAt(run), WorldAt(lib, run), input.t, input.sendOk, input.victim)
  }

  function WorldAt(lib: Lib, run: Run): World
    decreases run, 0
  {
    match run
    case Fresh(_, _) => World(map[], [], 0)
    case Fed(before, input) =>
      match input
      case Event(_, _, _) => HandledAt(lib, before, input).world
      case Tick(now) => var w := WorldAt(lib, before); w.(store := AfterCleanup(w.store, now))
      case Reload(_, _) => WorldAt(lib, before)
  }

  /** The store evicts what the inputs say it evicts. */
  predicate Valid(lib: Lib, limit: int, run: Run) {
    match run
    case Fresh(_, _) => true
    case Fed(before, input) =>
      && Valid(lib, limit, before)
      && (input.Event? ==>
            LegalVictim(lib, CfgAt(before), WorldAt(lib, before).store, limit, input.t, input.victim))
  }

  // ----------------------------------------------------------------- the trace

  /** Clears of the given keys, one after the other. */
  ghost function Clearing(run: Runs.Run, keys: set<Key>): Runs.Run
    decreases |keys|
  {
    if keys == {} then run
    else
      var k :| k in keys;
      Clearing(Runs.Then(run, Runs.Clear(k)), keys - {k})
  }

  function ArrivalAction(a: Arrival, t: Trap, victim: Option<Key>): Runs.Action {
    Runs.Arrive(a.key, Compact(t), a.rule.dedup.ttlSeconds, a.rule.dedup.holdUntilClear, victim)
  }

  /** The event passes the filters and so reaches the clear rules. */
  predicate PassesFilters(lib: Lib, cfg: AppConfig, t: Trap) {
    FilterFrom(lib, cfg.filters, cfg.defaultAction, t.fields) == Ok(None)
  }

  /** The trace behind the event's own clears, where its arrival is decided. */
  ghost function BeforeArrival(lib: Lib, run: Run, t: Trap): Runs.Run
    decreases run, 1
  {
    if PassesFilters(lib, CfgAt(run), t) then Clearing(Trace(lib, run), Cleared(lib, CfgAt(run), t))
    else Trace(lib, run)
  }

  /** The store actions of a run: clears, arrivals and sweeps, in order. */
  ghost function Trace(lib: Lib, run: Run): Runs.Run
    decreases run, 0
  {
    match run
    case Fresh(_, _) => Runs.Start
    case Fed(before, input) =>
      match input
      case Reload(_, _) => Trace(lib, before)
      case Tick(now) => Runs.Then(Trace(lib, before), Runs.Sweep(now))
      case Event(t, _, victim) =>
        var r := BeforeArrival(lib, before, t);
        match ArrivalOf(lib, CfgAt(before), t)
        case None => r
        case Some(a) => Runs.Then(r, ArrivalAction(a, t, victim))
  }

  lemma {:induction false} ClearingEffect(limit: int, run: Runs.Run, keys: set<Key>, t: int)
    ensures Runs.After(Clearing(run, keys)) == Runs.After(run) - keys
    ensures Runs.Valid(limit, Clearing(run, keys)) <==> Runs.Valid(limit, run)
    ensures Runs.UpTo(Clearing(run, keys), t) <==> Runs.UpTo(run, t)
    ensures Runs.Ordered(Clearing(run, keys)) <==> Runs.Ordered(run)
    decreases |keys|
  {
    if keys != {} {
      var k :| k in keys && Clearing(run, keys) == Clearing(Runs.Then(run, Runs.Clear(k)), keys - {k});
      ClearingEffect(limit, Runs.Then(run, Runs.Clear(k)), keys - {k}, t);
      assert Runs.After(run) - {k} - (keys - {k}) == Runs.After(run) - keys;
    }
  }

  /** One event changes the store as its clears and its arrival do. */
  lemma {:induction false} EventStore(lib: Lib, cfg: AppConfig, out: Outlets, w: World, t: Trap, sendOk: bool,
                                      victim: Option<Key>)
    ensures var h := Handle(lib, cfg, out, w, t, sendOk, victim);
            var m := if PassesFilters(lib, cfg, t) then w.store - Cleared(lib, cfg, t) else w.store;
            match ArrivalOf(lib, cfg, t)
            case None => h.world.store == m && !h.outcome.reason.Duplicate?
            case Some(a) =>
              var act := ArrivalAction(a, t, victim);
              h.world.store == Runs.Step(m, act) && (h.outcome.reason.Duplicate? <==> Runs.Hits(m, act))
  {
    if ArrivalOf(lib, cfg, t).Some? {
      ArrivalStore(lib, cfg, out, w, t, sendOk, victim, ArrivalOf(lib, cfg, t).value);
    } else {
      OtherStore(lib, cfg, out, w, t, sendOk, victim);
    }
  }

  /** An event that does not reach dedup changes the store by its clears only. */
  lemma OtherStore(lib: Lib, cfg: AppConfig, out: Outlets, w: World, t: Trap, sendOk: bool, victim: Option<Key>)
    requires ArrivalOf(lib, cfg, t) == None
    ensures var h := Handle(lib, cfg, out, w, t, sendOk, victim);
            && h.world.store == (if PassesFilters(lib, cfg, t) then w.store - Cleared(lib, cfg, t) else w.store)
            && !h.outcome.reason.Duplicate?
  {
  }

  lemma ArrivalStore(lib: Lib, cfg: AppConfig, out: Outlets, w: World, t: Trap, sendOk: bool, victim: Option<Key>,
                     a: Arrival)
    requires ArrivalOf(lib, cfg, t) == Some(a)
    ensures var h := Handle(lib, cfg, out, w, t, sendOk, victim);
            var m, act := w.store - Cleared(lib, cfg, t), ArrivalAction(a, t, victim);
            && PassesFilters(lib, cfg, t) && h.world.store == Runs.Step(m, act)
            && (h.outcome.reason.Duplicate? <==> Runs.Hits(m, act))
  {
    var (w1, logged) := AfterClears(lib, cfg, out, w, t);
    DedupedStore(out, w1, logged, a.rule, t, sendOk, victim);
  }

  lemma {:induction false} DedupedStore(out: Outlets, w: World, logged: bool, rule: AlarmRule, t: Trap, sendOk: bool,
                                        victim: Option<Key>)
    requires Complete(t.fields, rule.dedup.keyFields)
    ensures var h := Deduped(out, w, logged, rule, t.fields, Compact(t), t.rawBytes, sendOk, victim);
            var a := Arrival(rule, Key(rule.id, Items(t.fields, rule.dedup.keyFields)));
            var act := ArrivalAction(a, t, victim);
            h.world.store == Runs.Step(w.store, act) && (h.outcome.reason.Duplicate? <==> Runs.Hits(w.store, act))
  {
  }

  /** The trace is a valid run of the store and ends in the engine's store. */
  lemma {:induction false} TraceIsFaithful(lib: Lib, limit: int, run: Run)
    requires Valid(lib, limit, run)
    ensures Runs.Valid(limit, Trace(lib, run))
    ensures Runs.After(Trace(lib, run)) == WorldAt(lib, run).store
  {
    match run
    case Fresh(_, _) =>
    case Fed(before, input) =>
      TraceIsFaithful(lib, limit, before);
      match input
      case Reload(_, _) =>
      case Tick(_) =>
      case Event(t, sendOk, victim) =>
        var cfg := CfgAt(before);
        ClearingEffect(limit, Trace(lib, before), Cleared(lib, cfg, t), 0);
        EventStore(lib, cfg, OutletsAt(before), WorldAt(lib, before), t, sendOk, victim);
  }

  // -------------------------------------------------------------------- times

  predicate UpTo(run: Run, t: int) {
    match run
    case Fresh(_, _) => true
    case Fed(before, input) =>
      && UpTo(before, t)
      && (input.Event? ==> input.t.receivedAt <= t)
      && (input.Tick? ==> input.now <= t)
  }

  /** Events are received, and cleanups run, at non-decreasing times. */
  predicate Ordered(run: Run) {
    match run
    case Fresh(_, _) => true
    case Fed(before, input) =>
      && Ordered(before)
      && (input.Event? ==> UpTo(before, input.t.receivedAt))
      && (input.Tick? ==> UpTo(before, input.now))
  }

  lemma {:induction false} TraceUpTo(lib: Lib, run: Run, t: int)
    requires UpTo(run, t)
    ensures Runs.UpTo(Trace(lib, run), t)
  {
    match run
    case Fresh(_, _) =>
    case Fed(before, input) =>
      TraceUpTo(lib, before, t);
      if input.Event? { ClearingEffect(0, Trace(lib, before), Cleared(lib, CfgAt(before), input.t), t); }
  }

  lemma {:induction false} TraceIsOrdered(lib: Lib, run: Run)
    requires Ordered(run)
    ensures Runs.Ordered(Trace(lib, run))
  {
    match run
    case Fresh(_, _) =>
    case Fed(before, input) =>
      TraceIsOrdered(lib, before);
      match input
      case Reload(_, _) =>
      case Tick(now) => TraceUpTo(lib, before, now);
      case Event(t, _, _) =>
        TraceUpTo(lib, before, t.receivedAt);
        ClearingEffect(0, Trace(lib, before), Cleared(lib, CfgAt(before), t), t.receivedAt);
  }

  // ------------------------------------------------------------- the main result

  /**
   Whole-run refinement: over any run of events, cleanups and reloads with non-decreasing times, an
   event is reported as a duplicate if and only if it reaches dedup under some rule and key and the
   trace so far holds an open window of that key: opened by the latest forwarded arrival, neither
   cleared nor evicted since, and held or not yet over.
   */
  lemma DuplicateIffSuppressed(lib: Lib, limit: int, run: Run, input: Input)
    requires input.Event? && Valid(lib, limit, run) && Ordered(Fed(run, input))
    ensures HandledAt(lib, run, input).outcome.reason.Duplicate? <==>
            (match ArrivalOf(lib, CfgAt(run), input.t)
             case None => false
             case Some(a) => Runs.Suppressed(BeforeArrival(lib, run, input.t), a.key, input.t.receivedAt))
  {
    var t, cfg := input.t, CfgAt(run);
    TraceIsFaithful(lib, limit, run);
    TraceIsOrdered(lib, run);
    TraceUpTo(lib, run, t.receivedAt);
    ClearingEffect(limit, Trace(lib, run), Cleared(lib, cfg, t), t.receivedAt);
    EventStore(lib, cfg, OutletsAt(run), WorldAt(lib, run), t, input.sendOk, input.victim);
    match ArrivalOf(lib, cfg, t)
    case None =>
    case Some(a) => Runs.DuplicateIffWindowOpen(limit, BeforeArrival(lib, run, t), ArrivalAction(a, t, input.victim));
  }

  /** An event that reaches dedup is otherwise stored and sent; it comes back as an alarm or a failed send. */
  lemma {:induction false} ArrivalOutcome(lib: Lib, run: Run, input: Input)
    requires input.Event? && ArrivalOf(lib, CfgAt(run), input.t).Some?
    ensures var h := HandledAt(lib, run, input);
            var a := ArrivalOf(lib, CfgAt(run), input.t).value;
            h.outcome.reason.Duplicate? ||
            (h.outcome == (if input.sendOk then Outcome(true, true, Alarm, a.rule.id)
                           else Outcome(true, false, ForwardFailed, a.rule.id)) &&
             h.world.sends == WorldAt(lib, run).sends +
               [Sent(OutletsAt(run).forwarder, input.t.rawBytes, input.sendOk)])
  {
    var t := input.t;
    var (w1, logged) := AfterClears(lib, CfgAt(run), OutletsAt(run), WorldAt(lib, run), t);
    assert w1.sends == WorldAt(lib, run).sends;
  }

  // ------------------------------------------------------------ clears and failures

  /** The key was cleared, and has not arrived since. */
  predicate ClearedSince(run: Runs.Run, key: Key) {
    match run
    case Start => false
    case Then(before, act) => act == Runs.Clear(key) || (ClearedSince(before, key) && !(act.Arrive? && act.key == key))
  }

  lemma {:induction false} ClearClosesWindow(run: Runs.Run, key: Key)
    requires ClearedSince(run, key)
    ensures Runs.OpenWindow(run, key) == None
  {
    var act := run.act;
    if act != Runs.Clear(key) { ClearClosesWindow(run.before, key); }
  }

  lemma {:induction false} ClearingClears(run: Runs.Run, keys: set<Key>, key: Key)
    requires key in keys || ClearedSince(run, key)
    ensures ClearedSince(Clearing(run, keys), key)
    decreases |keys|
  {
    if keys != {} {
      var k :| k in keys && Clearing(run, keys) == Clearing(Runs.Then(run, Runs.Clear(k)), keys - {k});
      ClearingClears(Runs.Then(run, Runs.Clear(k)), keys - {k}, key);
    }
  }

  /**
   A clear undoes its alarm: an event that gets through the filters and clears a key removes the
   key's entry, and is itself passed through when it counts as a clear.
   */
  lemma ClearRemovesEntry(lib: Lib, limit: int, run: Run, clear: Input, key: Key)
    requires clear.Event? && Valid(lib, limit, Fed(run, clear))
    requires PassesFilters(lib, CfgAt(run), clear.t) && IsClear(lib, CfgAt(run), clear.t)
    requires key in Cleared(lib, CfgAt(run), clear.t)
    ensures key !in WorldAt(lib, Fed(run, clear)).store
    ensures HandledAt(lib, run, clear).outcome ==
            Outcome(true, clear.sendOk, if clear.sendOk then PassThrough else ForwardFailed, "")
    ensures ClearedSince(Trace(lib, Fed(run, clear)), key)
  {
    ClearingClears(Trace(lib, run), Cleared(lib, CfgAt(run), clear.t), key);
    assert Trace(lib, Fed(run, clear)) == Clearing(Trace(lib, run), Cleared(lib, CfgAt(run), clear.t));
  }

  /**
   The clear of one alarm: a trap that passes the alarm's clear rule and, with the alarm's pin in
   place, agrees with an earlier event of the alarm on every key field, takes that event's entry out.
   */
  lemma ClearUndoesAlarm(lib: Lib, limit: int, run: Run, clear: Input, alarm: AlarmRule, event: Trap)
    requires clear.Event? && Valid(lib, limit, Fed(run, clear))
    requires PassesFilters(lib, CfgAt(run), clear.t) && IsClear(lib, CfgAt(run), clear.t)
    requires alarm in CfgAt(run).alarms && alarm.dedup.clear.Some?
    requires ClearEffectOf(lib, alarm, clear.t.fields, clear.t.rawVarBindMap) == Clears(ClearKey(alarm, clear.t.fields))
    requires ClearKeyFields(alarm) == alarm.dedup.keyFields && Complete(event.fields, alarm.dedup.keyFields)
    requires forall f | f in alarm.dedup.keyFields ::
               ResolveField(ClearFields(alarm, clear.t.fields), f) == ResolveField(event.fields, f)
    ensures AlarmKey(alarm, event.fields) !in WorldAt(lib, Fed(run, clear)).store
    ensures ClearedSince(Trace(lib, Fed(run, clear)), AlarmKey(alarm, event.fields))
  {
    var key := AlarmKey(alarm, event.fields);
    ClearAimsIff(alarm, clear.t.fields, event.fields);
    ClearedExactly(lib, CfgAt(run).alarms, clear.t.fields, clear.t.rawVarBindMap, key);
    ClearRemovesEntry(lib, limit, run, clear, key);
  }

  /**
   From then on, whatever other events, cleanups and reloads come between, the next event that
   reaches dedup under the key is not suppressed: it is sent again.
   */
  lemma SentAgainAfterClear(lib: Lib, limit: int, run: Run, input: Input)
    requires input.Event? && Valid(lib, limit, run) && Ordered(Fed(run, input))
    requires ArrivalOf(lib, CfgAt(run), input.t).Some?
    requires ClearedSince(Trace(lib, run), ArrivalOf(lib, CfgAt(run), input.t).value.key)
    ensures var h := HandledAt(lib, run, input);
            h.world.sends == WorldAt(lib, run).sends +
              [Sent(OutletsAt(run).forwarder, input.t.rawBytes, input.sendOk)] &&
            (input.sendOk ==> h.outcome.reason.Alarm? && h.outcome.forwarded)
  {
    var key := ArrivalOf(lib, CfgAt(run), input.t).value.key;
    DuplicateIffSuppressed(lib, limit, run, input);
    ArrivalOutcome(lib, run, input);
    ClearingClears(Trace(lib, run), Cleared(lib, CfgAt(run), input.t), key);
    ClearClosesWindow(BeforeArrival(lib, run, input.t), key);
  }

  lemma {:induction false} ClearingKeepsWindow(run: Runs.Run, keys: set<Key>, key: Key)
    requires key !in keys
    ensures Runs.OpenWindow(Clearing(run, keys), key) == Runs.OpenWindow(run, key)
    decreases |keys|
  {
    if keys != {} {
      var k :| k in keys && Clearing(run, keys) == Clearing(Runs.Then(run, Runs.Clear(k)), keys - {k});
      ClearingKeepsWindow(Runs.Then(run, Runs.Clear(k)), keys - {k}, key);
    }
  }

  /** An event that was stored opened a window of its rule's length. */
  lemma StoredOpensWindow(lib: Lib, limit: int, run: Run, input: Input, a: Arrival)
    requires input.Event? && Valid(lib, limit, Fed(run, input)) && Ordered(Fed(run, input))
    requires ArrivalOf(lib, CfgAt(run), input.t) == Some(a)
    requires !HandledAt(lib, run, input).outcome.reason.Duplicate?
    ensures var at := input.t.receivedAt;
            Runs.OpenWindow(Trace(lib, Fed(run, input)), a.key) ==
            Some(Runs.Suppression(at, at + Window(a.rule.dedup.ttlSeconds), a.rule.dedup.holdUntilClear))
  {
    DuplicateIffSuppressed(lib, limit, run, input);
    var r, act := BeforeArrival(lib, run, input.t), ArrivalAction(a, input.t, input.victim);
    assert !Runs.Suppressed(r, a.key, input.t.receivedAt);
    assert Trace(lib, Fed(run, input)) == Runs.Then(r, act);
    OpensWindow(r, act);
  }

  lemma OpensWindow(r: Runs.Run, act: Runs.Action)
    requires act.Arrive? && !Runs.Suppressed(r, act.key, act.event.receivedAt)
    ensures var at := act.event.receivedAt;
            Runs.OpenWindow(Runs.Then(r, act), act.key) ==
            Some(Runs.Suppression(at, at + Window(act.ttlSeconds), act.hold))
  {
  }
}
