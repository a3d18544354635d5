/**
 Cleanups seen from outside: what the relay reports, sends and writes over runs of the engine, with
 and without its periodic cleanups.
 */
module EngineCleanups {
  import opened Basics
  import opened Config
  import opened Model
  import opened Dedup
  import opened Match
  import opened Engine
  import opened EngineRuns
  import Limits = DedupLimits

  // -------------------------------------------------------------------- validity

  /** The store's view of an event and the engine's view of its victim agree. */
  lemma LegalInTrace(lib: Lib, limit: int, run: Run, input: Input)
    requires input.Event? && Valid(lib, limit, run)
    requires (ArrivalOf(lib, CfgAt(run), input.t).None? ==> input.victim.None?)
    requires Runs.Valid(limit, Trace(lib, Fed(run, input)))
    ensures Valid(lib, limit, Fed(run, input))
  {
    var cfg, t := CfgAt(run), input.t;
    TraceIsFaithful(lib, limit, run);
    ClearingEffect(limit, Trace(lib, run), Cleared(lib, cfg, t), 0);
    match ArrivalOf(lib, cfg, t)
    case None =>
    case Some(a) =>
      var r, act := BeforeArrival(lib, run, t), ArrivalAction(a, t, input.victim);
      assert Trace(lib, Fed(run, input)) == Runs.Then(r, act);
      assert Runs.After(r) == WorldAt(lib, run).store - Cleared(lib, cfg, t);
      assert Runs.Legal(Runs.After(r), limit, act);
      assert LegalVictim(lib, cfg, WorldAt(lib, run).store, limit, t, input.victim);
  }

  /** Only an event that reaches dedup names an entry it evicts. */
  predicate VictimsFit(lib: Lib, run: Run) {
    match run
    case Fresh(_, _) => true
    case Fed(before, input) =>
      VictimsFit(lib, before) &&
      (input.Event? && ArrivalOf(lib, CfgAt(before), input.t).None? ==> input.victim.None?)
  }

  /** What an event adds to the trace: its clears and, if it reaches dedup, its arrival. */
  lemma EventTrace(lib: Lib, run: Run, input: Input)
    requires input.Event?
    ensures var r := BeforeArrival(lib, run, input.t);
            Trace(lib, Fed(run, input)) ==
            match ArrivalOf(lib, CfgAt(run), input.t)
            case None => r
            case Some(a) => Runs.Then(r, ArrivalAction(a, input.t, input.victim))
  {
  }

  lemma ShorterTraceIsValid(lib: Lib, limit: int, run: Run, input: Input)
    requires Runs.Valid(limit, Trace(lib, Fed(run, input)))
    ensures Runs.Valid(limit, Trace(lib, run))
  {
    if input.Event? {
      EventTrace(lib, run, input);
      assert Runs.Valid(limit, BeforeArrival(lib, run, input.t));
      ClearingEffect(limit, Trace(lib, run), Cleared(lib, CfgAt(run), input.t), 0);
    }
  }

  /** A run whose trace is a valid run of the store is a valid run of the engine. */
  lemma {:induction false} ValidByTrace(lib: Lib, limit: int, run: Run)
    requires VictimsFit(lib, run) && Runs.Valid(limit, Trace(lib, run))
    ensures Valid(lib, limit, run)
  {
    match run
    case Fresh(_, _) =>
    case Fed(before, input) =>
      ShorterTraceIsValid(lib, limit, before, input);
      ValidByTrace(lib, limit, before);
      if input.Event? { LegalInTrace(lib, limit, before, input); }
  }

  lemma {:induction false} VictimsOfValid(lib: Lib, limit: int, run: Run)
    requires Valid(lib, limit, run)
    ensures VictimsFit(lib, run)
  {
    if run.Fed? { VictimsOfValid(lib, limit, run.before); }
  }

  // ----------------------------------------------------------- runs without cleanups

  function WithoutTicks(run: Run): Run {
    match run
    case Fresh(_, _) => run
    case Fed(before, input) => if input.Tick? then WithoutTicks(before) else Fed(WithoutTicks(before), input)
  }

  /** What is reported of every event, in order. */
  function Reports(lib: Lib, run: Run): seq<Outcome> {
    match run
    case Fresh(_, _) => []
    case Fed(before, input) =>
      if input.Event? then Reports(lib, before) + [HandledAt(lib, before, input).outcome] else Reports(lib, before)
  }

  lemma {:induction false} ClearingUnswept(run: Runs.Run, keys: set<Key>)
    ensures Clearing(Runs.WithoutSweeps(run), keys) == Runs.WithoutSweeps(Clearing(run, keys))
    ensures Limits.Keys(Clearing(run, keys)) == Limits.Keys(run)
    decreases |keys|
  {
    if keys != {} {
      var k :| k in keys && Clearing(run, keys) == Clearing(Runs.Then(run, Runs.Clear(k)), keys - {k}) &&
        Clearing(Runs.WithoutSweeps(run), keys) ==
        Clearing(Runs.Then(Runs.WithoutSweeps(run), Runs.Clear(k)), keys - {k});
      ClearingUnswept(Runs.Then(run, Runs.Clear(k)), keys - {k});
    }
  }

  lemma {:induction false} TicksLeaveSettings(run: Run)
    ensures CfgAt(WithoutTicks(run)) == CfgAt(run) && OutletsAt(WithoutTicks(run)) == OutletsAt(run)
  {
    if run.Fed? { TicksLeaveSettings(run.before); }
  }

  lemma {:induction false} TraceWithoutTicks(lib: Lib, run: Run)
    ensures Trace(lib, WithoutTicks(run)) == Runs.WithoutSweeps(Trace(lib, run))
  {
    match run
    case Fresh(_, _) =>
    case Fed(before, input) =>
      TraceWithoutTicks(lib, before);
      TicksLeaveSettings(before);
      match input
      case Reload(_, _) =>
      case Tick(_) =>
      case Event(t, _, _) =>
        ClearingUnswept(Trace(lib, before), Cleared(lib, CfgAt(before), t));
        assert BeforeArrival(lib, WithoutTicks(before), t) == Runs.WithoutSweeps(BeforeArrival(lib, before, t));
        assert WithoutTicks(run) == Fed(WithoutTicks(before), input);
  }

  lemma {:induction false} TicksLeaveOrder(run: Run, t: int)
    ensures UpTo(run, t) ==> UpTo(WithoutTicks(run), t)
    ensures Ordered(run) ==> Ordered(WithoutTicks(run))
  {
    match run
    case Fresh(_, _) =>
    case Fed(before, input) =>
      TicksLeaveOrder(before, t);
      if input.Event? { TicksLeaveOrder(before, input.t.receivedAt); }
  }

  lemma {:induction false} VictimsWithoutTicks(lib: Lib, run: Run)
    requires VictimsFit(lib, run)
    ensures VictimsFit(lib, WithoutTicks(run))
  {
    if run.Fed? {
      VictimsWithoutTicks(lib, run.before);
      TicksLeaveSettings(run.before);
    }
  }

  /** What comes in from outside: events and reloads, without cleanups and evictions. */
  function Traffic(run: Run): Run {
    match run
    case Fresh(_, _) => run
    case Fed(before, input) =>
      match input
      case Tick(_) => Traffic(before)
      case Reload(_, _) => Fed(Traffic(before), input)
      case Event(t, sendOk, _) => Fed(Traffic(before), Event(t, sendOk, None))
  }

  lemma {:induction false} TrafficSettings(run: Run)
    ensures CfgAt(Traffic(run)) == CfgAt(run) && OutletsAt(Traffic(run)) == OutletsAt(run)
  {
    if run.Fed? { TrafficSettings(run.before); }
  }

  lemma {:induction false} TrafficWithoutTicks(run: Run)
    ensures Traffic(WithoutTicks(run)) == Traffic(run)
  {
    if run.Fed? { TrafficWithoutTicks(run.before); }
  }

  lemma {:induction false} TrafficOrder(run: Run, t: int)
    ensures UpTo(run, t) ==> UpTo(Traffic(run), t)
    ensures WithoutTicks(run) == run && UpTo(Traffic(run), t) ==> UpTo(run, t)
    ensures Ordered(run) ==> Ordered(Traffic(run))
    ensures WithoutTicks(run) == run && Ordered(Traffic(run)) ==> Ordered(run)
  {
    match run
    case Fresh(_, _) =>
    case Fed(before, input) =>
      TicksShorten(before);
      TrafficOrder(before, t);
      if input.Event? { TrafficOrder(before, input.t.receivedAt); }
  }

  function Length(run: Run): nat {
    match run
    case Fresh(_, _) => 0
    case Fed(before, _) => Length(before) + 1
  }

  lemma {:induction false} TicksShorten(run: Run)
    ensures Length(WithoutTicks(run)) <= Length(run)
  {
    if run.Fed? { TicksShorten(run.before); }
  }

  lemma {:induction false} ClearingTraffic(run: Runs.Run, keys: set<Key>)
    ensures Clearing(Limits.Traffic(run), keys) == Limits.Traffic(Clearing(run, keys))
    decreases |keys|
  {
    if keys != {} {
      var k :| k in keys && Clearing(run, keys) == Clearing(Runs.Then(run, Runs.Clear(k)), keys - {k}) &&
        Clearing(Limits.Traffic(run), keys) == Clearing(Runs.Then(Limits.Traffic(run), Runs.Clear(k)), keys - {k});
      ClearingTraffic(Runs.Then(run, Runs.Clear(k)), keys - {k});
    }
  }

  /** The trace of the traffic is the traffic of the trace. */
  lemma {:induction false} TraceOfTraffic(lib: Lib, run: Run)
    ensures Trace(lib, Traffic(run)) == Limits.Traffic(Trace(lib, run))
  {
    match run
    case Fresh(_, _) =>
    case Fed(before, input) =>
      TraceOfTraffic(lib, before);
      TrafficSettings(before);
      match input
      case Reload(_, _) =>
      case Tick(_) =>
      case Event(t, sendOk, _) =>
        ClearingTraffic(Trace(lib, before), Cleared(lib, CfgAt(before), t));
        assert BeforeArrival(lib, Traffic(before), t) == Limits.Traffic(BeforeArrival(lib, before, t));
        assert Traffic(run) == Fed(Traffic(before), Event(t, sendOk, None));
  }

  // --------------------------------------------------------------- what is seen

  /** The two worlds differ in the store at most. */
  predicate LooksAlike(w: World, v: World) {
    w.sends == v.sends && w.lines == v.lines
  }

  predicate SeenAlike(h: Handled, i: Handled) {
    h.outcome == i.outcome && LooksAlike(h.world, i.world)
  }

  lemma SameDelivery(out: Outlets, w: World, v: World, logged: bool, payload: seq<byte>, sendOk: bool, reason: Reason,
                     id: string)
    requires LooksAlike(w, v)
    ensures SeenAlike(Deliver(out, w, logged, payload, sendOk, reason, id),
                      Deliver(out, v, logged, payload, sendOk, reason, id))
  {
  }

  /** The two are duplicates or neither is. */
  predicate SameVerdict(h: Handled, i: Handled) {
    h.outcome.reason.Duplicate? <==> i.outcome.reason.Duplicate?
  }

  lemma SameDedup(out: Outlets, w: World, v: World, logged: bool, rule: AlarmRule, fields: Fields, event: CompactEvent,
                  payload: seq<byte>, sendOk: bool, victim: Option<Key>, other: Option<Key>)
    requires LooksAlike(w, v)
    requires SameVerdict(Deduped(out, w, logged, rule, fields, event, payload, sendOk, victim),
                         Deduped(out, v, logged, rule, fields, event, payload, sendOk, other))
    ensures SeenAlike(Deduped(out, w, logged, rule, fields, event, payload, sendOk, victim),
                      Deduped(out, v, logged, rule, fields, event, payload, sendOk, other))
  {
    SameDelivery(out, w, v, logged, payload, sendOk, DedupDisabled, rule.id);
    SameDelivery(out, w, v, logged, payload, sendOk, Alarm, rule.id);
  }

  lemma SameProceed(lib: Lib, cfg: AppConfig, out: Outlets, w: World, v: World, logged: bool, isClear: bool,
                    fields: Fields, event: CompactEvent, payload: seq<byte>, sendOk: bool, victim: Option<Key>,
                    other: Option<Key>)
    requires LooksAlike(w, v)
    requires SameVerdict(Proceed(lib, cfg, out, w, logged, isClear, fields, event, payload, sendOk, victim),
                         Proceed(lib, cfg, out, v, logged, isClear, fields, event, payload, sendOk, other))
    ensures SeenAlike(Proceed(lib, cfg, out, w, logged, isClear, fields, event, payload, sendOk, victim),
                      Proceed(lib, cfg, out, v, logged, isClear, fields, event, payload, sendOk, other))
  {
    SameDelivery(out, w, v, logged, payload, sendOk, PassThrough, "");
    if !isClear {
      match FirstAlarm(lib, cfg.alarms, fields)
      case Ok(Some(rule)) => SameDedup(out, w, v, logged, rule, fields, event, payload, sendOk, victim, other);
      case _ =>
    }
  }

  /** If two such worlds agree on whether the event is a duplicate, they agree on all that is seen of it. */
  lemma SameReport(lib: Lib, cfg: AppConfig, out: Outlets, w: World, v: World, t: Trap, sendOk: bool,
                   victim: Option<Key>, other: Option<Key>)
    requires LooksAlike(w, v)
    requires SameVerdict(Handle(lib, cfg, out, w, t, sendOk, victim), Handle(lib, cfg, out, v, t, sendOk, other))
    ensures SeenAlike(Handle(lib, cfg, out, w, t, sendOk, victim), Handle(lib, cfg, out, v, t, sendOk, other))
  {
    if FilterFrom(lib, cfg.filters, cfg.defaultAction, t.fields) == Ok(None) {
      var (w1, logged) := AfterClears(lib, cfg, out, w, t);
      var (v1, _) := AfterClears(lib, cfg, out, v, t);
      SameProceed(lib, cfg, out, w1, v1, logged, IsClear(lib, cfg, t), t.fields, Compact(t), t.rawBytes, sendOk,
                  victim, other);
    }
  }

  /** An event is a duplicate if and only if it is an arrival that ends the trace's outcomes with a hit. */
  lemma DuplicateInTrace(lib: Lib, limit: int, run: Run, input: Input)
    requires input.Event? && Valid(lib, limit, run)
    ensures var outcomes := Runs.Outcomes(Trace(lib, Fed(run, input)));
            HandledAt(lib, run, input).outcome.reason.Duplicate? <==>
            ArrivalOf(lib, CfgAt(run), input.t).Some? && outcomes != [] && outcomes[|outcomes| - 1]
  {
    var cfg, t := CfgAt(run), input.t;
    TraceIsFaithful(lib, limit, run);
    ClearingEffect(limit, Trace(lib, run), Cleared(lib, cfg, t), 0);
    EventStore(lib, cfg, OutletsAt(run), WorldAt(lib, run), t, input.sendOk, input.victim);
  }

  /** With room for all keys or for one entry only, the traffic decides the outcomes of the trace. */
  lemma SameOutcomes(lib: Lib, limit: int, run: Run, other: Run)
    requires limit == 1 || Limits.Roomy(limit, Limits.Keys(Trace(lib, run)))
    requires Valid(lib, limit, run) && Ordered(run) && Valid(lib, limit, other) && Ordered(other)
    requires Traffic(other) == Traffic(run)
    ensures Runs.Outcomes(Trace(lib, other)) == Runs.Outcomes(Trace(lib, run))
  {
    TraceIsFaithful(lib, limit, run);
    TraceIsFaithful(lib, limit, other);
    TraceIsOrdered(lib, run);
    TraceIsOrdered(lib, other);
    TraceOfTraffic(lib, run);
    TraceOfTraffic(lib, other);
    Limits.TrafficDecides(limit, Trace(lib, run), Trace(lib, other));
  }

  lemma FewerKeys(lib: Lib, limit: int, run: Run, input: Input)
    requires Limits.Roomy(limit, Limits.Keys(Trace(lib, Fed(run, input))))
    ensures Limits.Roomy(limit, Limits.Keys(Trace(lib, run)))
  {
    if input.Event? {
      EventTrace(lib, run, input);
      ClearingUnswept(Trace(lib, run), Cleared(lib, CfgAt(run), input.t));
    }
    Limits.RoomForFewer(limit, Limits.Keys(Trace(lib, run)), Limits.Keys(Trace(lib, Fed(run, input))));
  }

  /** The last event of two runs of the same traffic. */
  lemma SameLastEvent(lib: Lib, limit: int, run: Run, input: Input, other: Run, last: Input)
    requires input.Event? && last.Event?
    requires (limit == 1 || Limits.Roomy(limit, Limits.Keys(Trace(lib, Fed(run, input)))))
    requires Valid(lib, limit, Fed(run, input)) && Ordered(Fed(run, input))
    requires Valid(lib, limit, Fed(other, last)) && Ordered(Fed(other, last))
    requires Traffic(Fed(other, last)) == Traffic(Fed(run, input))
    requires LooksAlike(WorldAt(lib, other), WorldAt(lib, run))
    ensures SeenAlike(HandledAt(lib, other, last), HandledAt(lib, run, input))
  {
    SameOutcomes(lib, limit, Fed(run, input), Fed(other, last));
    DuplicateInTrace(lib, limit, run, input);
    DuplicateInTrace(lib, limit, other, last);
    TrafficSettings(run);
    TrafficSettings(other);
    SameReport(lib, CfgAt(run), OutletsAt(run), WorldAt(lib, other), WorldAt(lib, run), input.t, input.sendOk,
               last.victim, input.victim);
  }

  /**
   With room for all keys that reach dedup, or for one entry only, what comes in decides what is
   reported, sent and written, whatever cleanups and evictions do.
   */
  lemma {:induction false} TrafficDecides(lib: Lib, limit: int, run: Run, other: Run)
    requires limit == 1 || Limits.Roomy(limit, Limits.Keys(Trace(lib, run)))
    requires Valid(lib, limit, run) && Ordered(run) && Valid(lib, limit, other) && Ordered(other)
    requires Traffic(other) == Traffic(run)
    ensures Reports(lib, other) == Reports(lib, run)
    ensures LooksAlike(WorldAt(lib, other), WorldAt(lib, run))
    decreases run, other
  {
    if run.Fed? && limit != 1 { FewerKeys(lib, limit, run.before, run.input); }
    if run.Fed? && run.input.Tick? {
      TrafficDecides(lib, limit, run.before, other);
    } else if other.Fed? && other.input.Tick? {
      TrafficDecides(lib, limit, run, other.before);
    } else if run.Fed? && other.Fed? {
      TrafficDecides(lib, limit, run.before, other.before);
      if run.input.Event? { SameLastEvent(lib, limit, run.before, run.input, other.before, other.input); }
    }
  }

  /**
   With room for all keys that reach dedup, periodic cleanup is invisible from outside: the run
   without it is possible, and the relay then reports, sends and writes the same for every event.
   */
  lemma RoomyCleanupsAreInvisible(lib: Lib, limit: int, run: Run)
    requires Valid(lib, limit, run) && Ordered(run) && Limits.Roomy(limit, Limits.Keys(Trace(lib, run)))
    ensures Valid(lib, limit, WithoutTicks(run))
    ensures Reports(lib, WithoutTicks(run)) == Reports(lib, run)
    ensures LooksAlike(WorldAt(lib, WithoutTicks(run)), WorldAt(lib, run))
  {
    TraceIsFaithful(lib, limit, run);
    TraceIsOrdered(lib, run);
    Limits.RoomySweepsAreInvisible(limit, Trace(lib, run));
    TraceWithoutTicks(lib, run);
    VictimsOfValid(lib, limit, run);
    VictimsWithoutTicks(lib, run);
    ValidByTrace(lib, limit, WithoutTicks(run));
    TrafficWithoutTicks(run);
    TicksLeaveOrder(run, 0);
    TrafficDecides(lib, limit, run, WithoutTicks(run));
  }
}
