/** An alarm from its first event to its clear and the next event, over runs of the engine. */
module AlarmLifecycle {
  import opened Basics
  import opened OidUtil
  import opened Config
  import opened Model
  import opened Dedup
  import opened Match
  import opened Engine
  import opened EngineTheorems
  import opened ClearTheorems
  import opened EngineRuns

  /** The event reaches dedup under the key. */
  predicate ArrivesUnder(lib: Lib, run: Run, input: Input, key: Key) {
    input.Event? && ArrivalOf(lib, CfgAt(run), input.t).Some? && ArrivalOf(lib, CfgAt(run), input.t).value.key == key
  }

  /** The later run continues the earlier one, with no event under the key. */
  predicate QuietSince(lib: Lib, later: Run, earlier: Run, key: Key) {
    later == earlier ||
    (later.Fed? && QuietSince(lib, later.before, earlier, key) && !ArrivesUnder(lib, later.before, later.input, key))
  }

  lemma {:induction false} QuietKeepsCleared(lib: Lib, later: Run, earlier: Run, key: Key)
    requires QuietSince(lib, later, earlier, key) && ClearedSince(Trace(lib, earlier), key)
    ensures ClearedSince(Trace(lib, later), key)
  {
    if later != earlier {
      QuietKeepsCleared(lib, later.before, earlier, key);
      match later.input
      case Reload(_, _) =>
      case Tick(_) =>
      case Event(t, _, victim) =>
        var cfg := CfgAt(later.before);
        ClearingClears(Trace(lib, later.before), Cleared(lib, cfg, t), key);
        assert ClearedSince(BeforeArrival(lib, later.before, t), key);
        match ArrivalOf(lib, cfg, t)
        case None =>
        case Some(a) => assert ArrivalAction(a, t, victim).key != key;
    }
  }

  /** An event belongs to an alarm it matches. */
  lemma {:induction false} AlarmMatches(lib: Lib, alarms: seq<AlarmRule>, fields: Fields, alarm: AlarmRule)
    requires FirstAlarm(lib, alarms, fields) == Ok(Some(alarm))
    ensures Meaning(lib, fields, alarm.spec) == Ok(true)
  {
    if Meaning(lib, fields, alarms[0].spec) == Ok(false) {
      AlarmMatches(lib, alarms[1..], fields, alarm);
    }
  }

  /** What the arrival of an event says about its alarm and key. */
  lemma ArrivalMeans(lib: Lib, cfg: AppConfig, t: Trap, alarm: AlarmRule, key: Key)
    requires ArrivalOf(lib, cfg, t) == Some(Arrival(alarm, key))
    ensures Meaning(lib, t.fields, alarm.spec) == Ok(true) && Complete(t.fields, alarm.dedup.keyFields)
    ensures key == AlarmKey(alarm, t.fields)
  {
    var found := FirstAlarm(lib, cfg.alarms, t.fields);
    assert found.Ok? && found.value.Some?;
    assert found.value.value == alarm;
    AlarmMatches(lib, cfg.alarms, t.fields, alarm);
  }

  /** No two alarms share an id, as the configuration's validation demands. */
  predicate UniqueIds(alarms: seq<AlarmRule>) {
    forall i, j | 0 <= i < j < |alarms| :: alarms[i].id != alarms[j].id
  }

  /** The alarm has a clear rule over its own key fields; the alias of the trap OID is not among them. */
  predicate SharesKeyFields(alarm: AlarmRule) {
    && alarm.dedup.clear.Some? && ClearKeyFields(alarm) == alarm.dedup.keyFields
    && "fields.trap_oid" !in alarm.dedup.keyFields
  }

  /** The clear has the key of the alarm's first event, as far as the trap OID is concerned. */
  predicate KeepsTrapOid(alarm: AlarmRule, clear: Trap, first: Trap) {
    TRAP in alarm.dedup.keyFields ==> SameTrapOid(alarm, clear.fields, first.fields)
  }

  /** The alarm's match pins the trap OID in its key, and the first event carries a normalized one. */
  predicate PinsTrapOid(alarm: AlarmRule, pin: string, first: Trap) {
    && TRAP in alarm.dedup.keyFields
    && ReadOneWay(alarm.spec, TRAP) && StaticValue(alarm.spec, TRAP) == Some(pin)
    && Normalize(ResolveField(first.fields, TRAP)) == ResolveField(first.fields, TRAP)
  }

  /** The event counts as a clear, and as one of this alarm: match and value pass, and its key is complete. */
  predicate ClearsAlarm(lib: Lib, cfg: AppConfig, alarm: AlarmRule, clear: Trap) {
    && PassesFilters(lib, cfg, clear) && IsClear(lib, cfg, clear)
    && alarm in cfg.alarms && alarm.dedup.clear.Some?
    && ClearEffectOf(lib, alarm, clear.fields, clear.rawVarBindMap) == Clears(ClearKey(alarm, clear.fields))
  }

  lemma SameIdSameAlarm(alarms: seq<AlarmRule>, a: AlarmRule, b: AlarmRule)
    requires UniqueIds(alarms) && a in alarms && b in alarms && a.id == b.id
    ensures a == b
  {
    var i :| 0 <= i < |alarms| && alarms[i] == a;
    var j :| 0 <= j < |alarms| && alarms[j] == b;
  }

  /** An alarm's clear rule clears keys of that alarm only. */
  lemma ClearsOwnKey(lib: Lib, alarm: AlarmRule, fields: Fields, raw: map<string, string>, key: Key)
    requires ClearEffectOf(lib, alarm, fields, raw) == Clears(Some(key))
    ensures alarm.dedup.clear.Some? && ClearKey(alarm, fields) == Some(key) && alarm.id == key.ruleId
  {
  }

  /** Of the alarms, only the one with the key's id can clear the key. */
  lemma OwnClearOnly(lib: Lib, cfg: AppConfig, alarm: AlarmRule, clear: Trap, key: Key)
    requires ClearsAlarm(lib, cfg, alarm, clear) && UniqueIds(cfg.alarms) && key.ruleId == alarm.id
    ensures key in Cleared(lib, cfg, clear) <==> ClearKey(alarm, clear.fields) == Some(key)
  {
    ClearedExactly(lib, cfg.alarms, clear.fields, clear.rawVarBindMap, key);
    if key in Cleared(lib, cfg, clear) {
      var other :| other in cfg.alarms &&
        ClearEffectOf(lib, other, clear.fields, clear.rawVarBindMap) == Clears(Some(key));
      ClearsOwnKey(lib, other, clear.fields, clear.rawVarBindMap, key);
      SameIdSameAlarm(cfg.alarms, other, alarm);
    }
  }

  /**
   A clear that agrees with the alarm's first event on the other key fields takes out that event's
   entry if and only if the key does not hold the trap OID or the clear's key has the same one.
   */
  lemma ClearClearsIff(lib: Lib, from: AppConfig, cfg: AppConfig, first: Trap, clear: Trap, alarm: AlarmRule, key: Key)
    requires ArrivalOf(lib, from, first) == Some(Arrival(alarm, key)) && SharesKeyFields(alarm)
    requires ClearsAlarm(lib, cfg, alarm, clear) && UniqueIds(cfg.alarms)
    requires AgreesElsewhere(alarm.dedup.keyFields, clear.fields, first.fields)
    ensures key in Cleared(lib, cfg, clear) <==> KeepsTrapOid(alarm, clear, first)
  {
    ArrivalMeans(lib, from, first, alarm, key);
    ClearReachesIff(alarm, clear.fields, first.fields);
    OwnClearOnly(lib, cfg, alarm, clear, key);
  }

  /** With a pinned trap OID, that is so if and only if the pin is written in normalized form. */
  lemma PinNormalIff(lib: Lib, from: AppConfig, first: Trap, clear: Trap, alarm: AlarmRule, pin: string, key: Key)
    requires ArrivalOf(lib, from, first) == Some(Arrival(alarm, key)) && SharesKeyFields(alarm)
    requires PinsTrapOid(alarm, pin, first)
    requires AgreesElsewhere(alarm.dedup.keyFields, clear.fields, first.fields)
    ensures KeepsTrapOid(alarm, clear, first) <==> Normalize(pin) == pin
  {
    ArrivalMeans(lib, from, first, alarm, key);
    PinnedClearReachesIff(lib, alarm, pin, clear.fields, first.fields);
  }

  /**
   An alarm's event is stored; its clear comes, however much later; and the next event of the key
   comes, whatever other traps, cleanups and reloads lie between: if the clear has the same key, that
   event is sent again.
   */
  lemma ClearedAlarmIsSentAgain(lib: Lib, limit: int, start: Run, first: Input, mid: Run, clear: Input, later: Run,
                                again: Input, alarm: AlarmRule, key: Key)
    requires first.Event? && clear.Event? && again.Event?
    requires Valid(lib, limit, Fed(mid, clear)) && Valid(lib, limit, later) && Ordered(Fed(later, again))
    requires ArrivalOf(lib, CfgAt(start), first.t) == Some(Arrival(alarm, key)) && SharesKeyFields(alarm)
    requires ClearsAlarm(lib, CfgAt(mid), alarm, clear.t) && UniqueIds(CfgAt(mid).alarms)
    requires AgreesElsewhere(alarm.dedup.keyFields, clear.t.fields, first.t.fields)
    requires KeepsTrapOid(alarm, clear.t, first.t)
    requires QuietSince(lib, later, Fed(mid, clear), key) && ArrivesUnder(lib, later, again, key)
    ensures key !in WorldAt(lib, Fed(mid, clear)).store
    ensures var h := HandledAt(lib, later, again);
            h.world.sends == WorldAt(lib, later).sends +
              [Sent(OutletsAt(later).forwarder, again.t.rawBytes, again.sendOk)] &&
            (again.sendOk ==> h.outcome.reason.Alarm? && h.outcome.forwarded)
  {
    ClearClearsIff(lib, CfgAt(start), CfgAt(mid), first.t, clear.t, alarm, key);
    ClearRemovesEntry(lib, limit, mid, clear, key);
    QuietKeepsCleared(lib, later, Fed(mid, clear), key);
    SentAgainAfterClear(lib, limit, later, again);
  }

  // ------------------------------------------------------- the window of a stored event

  /** The later run continues the earlier one, and every event under the key was a duplicate. */
  predicate NoneStoredSince(lib: Lib, later: Run, earlier: Run, key: Key) {
    later == earlier ||
    (later.Fed? && NoneStoredSince(lib, later.before, earlier, key) &&
     (ArrivesUnder(lib, later.before, later.input, key) ==>
        HandledAt(lib, later.before, later.input).outcome.reason.Duplicate?))
  }

  /** The input clears the key or evicts its entry. */
  predicate TakesOut(lib: Lib, run: Run, input: Input, key: Key) {
    && input.Event?
    && (input.victim == Some(key) ||
        (PassesFilters(lib, CfgAt(run), input.t) && key in Cleared(lib, CfgAt(run), input.t)))
  }

  /** Between the two runs the key was neither cleared nor evicted. */
  predicate KeptSince(lib: Lib, later: Run, earlier: Run, key: Key) {
    later == earlier ||
    (later.Fed? && KeptSince(lib, later.before, earlier, key) && !TakesOut(lib, later.before, later.input, key))
  }

  /** What one event that stores nothing under the key does to the key's window. */
  lemma WindowAfterEvent(lib: Lib, limit: int, run: Run, input: Input, key: Key)
    requires input.Event? && Valid(lib, limit, Fed(run, input)) && Ordered(Fed(run, input))
    requires ArrivesUnder(lib, run, input, key) ==> HandledAt(lib, run, input).outcome.reason.Duplicate?
    ensures Runs.OpenWindow(Trace(lib, Fed(run, input)), key) ==
            if TakesOut(lib, run, input, key) then None else Runs.OpenWindow(Trace(lib, run), key)
  {
    var cfg, trace := CfgAt(run), Trace(lib, run);
    var keys := Cleared(lib, cfg, input.t);
    if key in keys {
      ClearingClears(trace, keys, key);
      ClearClosesWindow(Clearing(trace, keys), key);
    } else {
      ClearingKeepsWindow(trace, keys, key);
    }
    var r := BeforeArrival(lib, run, input.t);
    DuplicateIffSuppressed(lib, limit, run, input);
    match ArrivalOf(lib, cfg, input.t)
    case None => assert Trace(lib, Fed(run, input)) == r;
    case Some(a) =>
      assert Trace(lib, Fed(run, input)) == Runs.Then(r, ArrivalAction(a, input.t, input.victim));
      if a.key == key { assert Runs.Suppressed(r, key, input.t.receivedAt); }
  }

  /** Cleanups, reloads and events that store nothing under the key leave its window alone or take it out. */
  lemma {:induction false} WindowSince(lib: Lib, limit: int, later: Run, earlier: Run, key: Key)
    requires Valid(lib, limit, later) && Ordered(later) && NoneStoredSince(lib, later, earlier, key)
    ensures Runs.OpenWindow(Trace(lib, later), key) ==
            if KeptSince(lib, later, earlier, key) then Runs.OpenWindow(Trace(lib, earlier), key) else None
  {
    if later != earlier {
      WindowSince(lib, limit, later.before, earlier, key);
      if later.input.Event? { WindowAfterEvent(lib, limit, later.before, later.input, key); }
    }
  }

  lemma {:induction false} EarlierIsFine(lib: Lib, limit: int, later: Run, earlier: Run, key: Key)
    requires Valid(lib, limit, later) && Ordered(later) && NoneStoredSince(lib, later, earlier, key)
    ensures Valid(lib, limit, earlier) && Ordered(earlier)
  {
    if later != earlier { EarlierIsFine(lib, limit, later.before, earlier, key); }
  }

  /** The window behind the trace so far, and the event's own clears, decide an event under the key. */
  lemma DuplicateByWindow(lib: Lib, limit: int, run: Run, input: Input, key: Key)
    requires Valid(lib, limit, run) && Ordered(Fed(run, input)) && ArrivesUnder(lib, run, input, key)
    ensures HandledAt(lib, run, input).outcome.reason.Duplicate? <==>
            key !in Cleared(lib, CfgAt(run), input.t) &&
            Runs.Suppressed(Trace(lib, run), key, input.t.receivedAt)
  {
    var keys := Cleared(lib, CfgAt(run), input.t);
    DuplicateIffSuppressed(lib, limit, run, input);
    if key in keys {
      ClearingClears(Trace(lib, run), keys, key);
      ClearClosesWindow(Clearing(Trace(lib, run), keys), key);
    } else {
      ClearingKeepsWindow(Trace(lib, run), keys, key);
    }
  }

  /** While nothing is stored under the key, the earlier window suppresses its events, as long as it is kept. */
  lemma SuppressedSinceIff(lib: Lib, limit: int, earlier: Run, later: Run, again: Input, key: Key)
    requires Valid(lib, limit, later) && Ordered(Fed(later, again))
    requires NoneStoredSince(lib, later, earlier, key) && ArrivesUnder(lib, later, again, key)
    ensures HandledAt(lib, later, again).outcome.reason.Duplicate? <==>
            && KeptSince(lib, later, earlier, key) && key !in Cleared(lib, CfgAt(later), again.t)
            && Runs.Suppressed(Trace(lib, earlier), key, again.t.receivedAt)
  {
    WindowSince(lib, limit, later, earlier, key);
    DuplicateByWindow(lib, limit, later, again, key);
  }

  /** The rule holds its alarms until their clear, or the window that opened with the first event is not over. */
  predicate InWindow(rule: AlarmRule, first: Trap, again: Trap) {
    rule.dedup.holdUntilClear || again.receivedAt < first.receivedAt + Window(rule.dedup.ttlSeconds)
  }

  /**
   After an event was stored, whether its send succeeded or not, and until another one of its key is:
   the next event of the key is a duplicate if and only if nothing took the key out in between, the
   event does not itself clear its key, and the window is held or not yet over.
   */
  lemma StoredSuppressesIff(lib: Lib, limit: int, start: Run, first: Input, later: Run, again: Input, a: Arrival)
    requires first.Event? && ArrivalOf(lib, CfgAt(start), first.t) == Some(a)
    requires !HandledAt(lib, start, first).outcome.reason.Duplicate?
    requires Valid(lib, limit, later) && Ordered(Fed(later, again))
    requires NoneStoredSince(lib, later, Fed(start, first), a.key) && ArrivesUnder(lib, later, again, a.key)
    ensures HandledAt(lib, later, again).outcome.reason.Duplicate? <==>
            && KeptSince(lib, later, Fed(start, first), a.key)
            && a.key !in Cleared(lib, CfgAt(later), again.t)
            && InWindow(a.rule, first.t, again.t)
  {
    EarlierIsFine(lib, limit, later, Fed(start, first), a.key);
    StoredOpensWindow(lib, limit, start, first, a);
    SuppressedSinceIff(lib, limit, Fed(start, first), later, again, a.key);
  }

  /**
   In seconds: after an event was stored under a rule that does not hold its alarms, and while its key
   is neither cleared nor evicted, the next event of the key is a duplicate if and only if it comes
   before the TTL, counted from that first event, is over.
   */
  lemma SuppressedForTtl(lib: Lib, limit: int, start: Run, first: Input, later: Run, again: Input, a: Arrival)
    requires first.Event? && ArrivalOf(lib, CfgAt(start), first.t) == Some(a)
    requires !HandledAt(lib, start, first).outcome.reason.Duplicate?
    requires Valid(lib, limit, later) && Ordered(Fed(later, again))
    requires NoneStoredSince(lib, later, Fed(start, first), a.key) && ArrivesUnder(lib, later, again, a.key)
    requires KeptSince(lib, later, Fed(start, first), a.key) && a.key !in Cleared(lib, CfgAt(later), again.t)
    requires !a.rule.dedup.holdUntilClear && 0 <= a.rule.dedup.ttlSeconds <= MAX_TTL
    ensures HandledAt(lib, later, again).outcome.reason.Duplicate? <==>
            again.t.receivedAt < first.t.receivedAt + a.rule.dedup.ttlSeconds * 1_000_000_000
  {
    StoredSuppressesIff(lib, limit, start, first, later, again, a);
    WindowIsSecondsIff(a.rule.dedup.ttlSeconds);
  }

  /**
   The entry is stored before the datagram is sent and stays if the send fails. So repetitions of an
   event that was never delivered are suppressed, exactly under these conditions.
   */
  lemma FailedSendSuppressesIff(lib: Lib, limit: int, start: Run, first: Input, later: Run, again: Input, a: Arrival)
    requires first.Event? && ArrivalOf(lib, CfgAt(start), first.t) == Some(a)
    requires HandledAt(lib, start, first).outcome.reason.ForwardFailed?
    requires Valid(lib, limit, later) && Ordered(Fed(later, again))
    requires NoneStoredSince(lib, later, Fed(start, first), a.key) && ArrivesUnder(lib, later, again, a.key)
    ensures WorldAt(lib, Fed(start, first)).sends ==
            WorldAt(lib, start).sends + [Sent(OutletsAt(start).forwarder, first.t.rawBytes, false)]
    ensures HandledAt(lib, later, again).outcome.reason.Duplicate? <==>
            && KeptSince(lib, later, Fed(start, first), a.key)
            && a.key !in Cleared(lib, CfgAt(later), again.t)
            && InWindow(a.rule, first.t, again.t)
  {
    ArrivalOutcome(lib, start, first);
    StoredSuppressesIff(lib, limit, start, first, later, again, a);
  }

  /** A clear is no arrival and evicts nothing: it takes out the keys it clears. */
  lemma ClearTakesOutIff(lib: Lib, limit: int, run: Run, clear: Input, key: Key)
    requires clear.Event? && Valid(lib, limit, Fed(run, clear))
    requires PassesFilters(lib, CfgAt(run), clear.t) && IsClear(lib, CfgAt(run), clear.t)
    ensures ArrivalOf(lib, CfgAt(run), clear.t) == None
    ensures TakesOut(lib, run, clear, key) <==> key in Cleared(lib, CfgAt(run), clear.t)
  {
  }

  /** The window an event opens under its rule. */
  function WindowOf(rule: AlarmRule, t: Trap): Runs.Suppression {
    Runs.Suppression(t.receivedAt, t.receivedAt + Window(rule.dedup.ttlSeconds), rule.dedup.holdUntilClear)
  }

  /** The key's window in force behind the run is the one this event opened. */
  ghost predicate OpenedBy(lib: Lib, run: Run, a: Arrival, first: Trap) {
    Runs.OpenWindow(Trace(lib, run), a.key) == Some(WindowOf(a.rule, first))
  }

  /** Once so, it stays so, while no other event of the key is stored, until the key is taken out. */
  lemma StaysOpenedIff(lib: Lib, limit: int, earlier: Run, later: Run, a: Arrival, first: Trap)
    requires Valid(lib, limit, later) && Ordered(later) && NoneStoredSince(lib, later, earlier, a.key)
    requires OpenedBy(lib, earlier, a, first)
    ensures OpenedBy(lib, later, a, first) <==> KeptSince(lib, later, earlier, a.key)
  {
    WindowSince(lib, limit, later, earlier, a.key);
  }

  /** Its own clear leaves an alarm's window in force exactly when the trap OID in its key is another one. */
  lemma WindowBehindOwnClear(lib: Lib, limit: int, cfg: AppConfig, first: Trap, mid: Run, clear: Input, a: Arrival)
    requires clear.Event? && Valid(lib, limit, Fed(mid, clear)) && Ordered(Fed(mid, clear))
    requires ArrivalOf(lib, cfg, first) == Some(a) && SharesKeyFields(a.rule) && OpenedBy(lib, mid, a, first)
    requires ClearsAlarm(lib, CfgAt(mid), a.rule, clear.t) && UniqueIds(CfgAt(mid).alarms)
    requires AgreesElsewhere(a.rule.dedup.keyFields, clear.t.fields, first.fields)
    ensures Runs.OpenWindow(Trace(lib, Fed(mid, clear)), a.key) ==
            if KeepsTrapOid(a.rule, clear.t, first) then None else Some(WindowOf(a.rule, first))
  {
    ClearClearsIff(lib, cfg, CfgAt(mid), first, clear.t, a.rule, a.key);
    ClearTakesOutIff(lib, limit, mid, clear, a.key);
    WindowAfterEvent(lib, limit, mid, clear, a.key);
  }

  /**
   An alarm's event with its window in force, its clear, and the next event of the key, the key not
   being taken out otherwise: that next event is suppressed if and only if the clear's key has another
   trap OID and the window is held or not yet over.
   */
  lemma SentAgainIff(lib: Lib, limit: int, cfg: AppConfig, first: Trap, mid: Run, clear: Input, later: Run,
                     again: Input, a: Arrival)
    requires clear.Event? && Valid(lib, limit, Fed(mid, clear)) && Ordered(Fed(mid, clear))
    requires ArrivalOf(lib, cfg, first) == Some(a) && SharesKeyFields(a.rule) && OpenedBy(lib, mid, a, first)
    requires ClearsAlarm(lib, CfgAt(mid), a.rule, clear.t) && UniqueIds(CfgAt(mid).alarms)
    requires AgreesElsewhere(a.rule.dedup.keyFields, clear.t.fields, first.fields)
    requires Valid(lib, limit, later) && Ordered(Fed(later, again))
    requires NoneStoredSince(lib, later, Fed(mid, clear), a.key) && KeptSince(lib, later, Fed(mid, clear), a.key)
    requires ArrivesUnder(lib, later, again, a.key) && a.key !in Cleared(lib, CfgAt(later), again.t)
    ensures HandledAt(lib, later, again).outcome.reason.Duplicate? <==>
            !KeepsTrapOid(a.rule, clear.t, first) && InWindow(a.rule, first, again.t)
  {
    WindowBehindOwnClear(lib, limit, cfg, first, mid, clear, a);
    SuppressedSinceIff(lib, limit, Fed(mid, clear), later, again, a.key);
  }
}
