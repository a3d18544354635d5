/** Properties of one event's handling: outcomes, sends, alert lines, and the frame of the clear loop. */
module EngineTheorems {
  import opened Basics
  import opened Config
  import opened Model
  import opened Dedup
  import opened Match
  import opened Engine

  // ------------------------------------------------------------ outcome shapes

  /** Every pair of outcome and error the engine can return. */
  predicate Possible(o: Outcome, error: Option<EngineError>) {
    match error
    case None =>
      if o.accepted then o.forwarded && (o.reason.PassThrough? || o.reason.DedupDisabled? || o.reason.Alarm?)
      else !o.forwarded && (o.reason.Filtered? || o.reason.Duplicate?)
    case Some(SendFailed) => o.accepted && !o.forwarded && o.reason == ForwardFailed
    case Some(_) => o == NO_OUTCOME
  }

  /**
   From world w: a possible outcome; one call of the forwarder with the payload if the event was
   accepted, none otherwise; one alert line if it was forwarded and not yet logged.
   */
  predicate Regular(out: Outlets, w: World, logged: bool, payload: seq<byte>, sendOk: bool, h: Handled) {
    && Possible(h.outcome, h.error)
    && h.world.sends == (if h.outcome.accepted then w.sends + [Sent(out.forwarder, payload, sendOk)] else w.sends)
    && (h.outcome.forwarded <==> h.outcome.accepted && sendOk)
    && h.world.lines == w.lines + (if h.outcome.forwarded then LineFor(out, logged) else 0)
    && (h.logged <==> logged || (h.outcome.forwarded && out.alerts))
  }

  lemma DeliverIsRegular(out: Outlets, w: World, logged: bool, payload: seq<byte>, sendOk: bool, reason: Reason,
                         id: string)
    requires reason.PassThrough? || reason.DedupDisabled? || reason.Alarm?
    ensures Regular(out, w, logged, payload, sendOk, Deliver(out, w, logged, payload, sendOk, reason, id))
  {
  }

  lemma DedupedIsRegular(out: Outlets, w: World, logged: bool, rule: AlarmRule, fields: Fields, event: CompactEvent,
                         payload: seq<byte>, sendOk: bool, victim: Option<Key>)
    ensures Regular(out, w, logged, payload, sendOk,
                    Deduped(out, w, logged, rule, fields, event, payload, sendOk, victim))
  {
    var key := Key(rule.id, Items(fields, rule.dedup.keyFields));
    var added := FreshState(key, event, rule.dedup.ttlSeconds, rule.dedup.holdUntilClear);
    var stored := AfterPut(AfterGet(w.store, key, event.receivedAt), added, victim);
    DeliverIsRegular(out, w, logged, payload, sendOk, DedupDisabled, rule.id);
    DeliverIsRegular(out, w.(store := stored), logged, payload, sendOk, Alarm, rule.id);
  }

  lemma ProceedIsRegular(lib: Lib, cfg: AppConfig, out: Outlets, w: World, logged: bool, isClear: bool, fields: Fields,
                         event: CompactEvent, payload: seq<byte>, sendOk: bool, victim: Option<Key>)
    ensures Regular(out, w, logged, payload, sendOk,
                    Proceed(lib, cfg, out, w, logged, isClear, fields, event, payload, sendOk, victim))
  {
    var h := Proceed(lib, cfg, out, w, logged, isClear, fields, event, payload, sendOk, victim);
    var alarm := FirstAlarm(lib, cfg.alarms, fields);
    if isClear || alarm == Ok(None) {
      DeliverIsRegular(out, w, logged, payload, sendOk, PassThrough, "");
    } else if alarm.Err? {
      AlarmErrors(lib, cfg.alarms, fields);
      assert h == Handled(w, logged, NO_OUTCOME, Some(alarm.error));
    } else {
      DedupedIsRegular(out, w, logged, alarm.value.value, fields, event, payload, sendOk, victim);
    }
  }

  lemma {:induction false} FilterErrors(lib: Lib, rules: seq<FilterRule>, defaultAction: string, fields: Fields)
    ensures var r := FilterFrom(lib, rules, defaultAction, fields); r.Err? ==> !r.error.SendFailed?
  {
    if rules != [] { FilterErrors(lib, rules[1..], defaultAction, fields); }
  }

  lemma {:induction false} AlarmErrors(lib: Lib, alarms: seq<AlarmRule>, fields: Fields)
    ensures var r := FirstAlarm(lib, alarms, fields); r.Err? ==> !r.error.SendFailed?
  {
    if alarms != [] { AlarmErrors(lib, alarms[1..], fields); }
  }

  /** An event dropped by a filter, or whose filter rules err, changes nothing. */
  predicate Untouched(w: World, t: Trap, h: Handled) {
    h.world == w && h.logged == t.alertsLogged && !h.outcome.accepted && Possible(h.outcome, h.error) &&
    !h.outcome.forwarded
  }

  lemma HandleIsRegular(lib: Lib, cfg: AppConfig, out: Outlets, w: World, t: Trap, sendOk: bool, victim: Option<Key>)
    ensures var h := Handle(lib, cfg, out, w, t, sendOk, victim);
            var (w1, logged) := AfterClears(lib, cfg, out, w, t);
            Untouched(w, t, h) || Regular(out, w1, logged, t.rawBytes, sendOk, h)
  {
    var (w1, logged) := AfterClears(lib, cfg, out, w, t);
    FilterErrors(lib, cfg.filters, cfg.defaultAction, t.fields);
    if FilterFrom(lib, cfg.filters, cfg.defaultAction, t.fields) == Ok(None) {
      ProceedIsRegular(lib, cfg, out, w1, logged, IsClear(lib, cfg, t), t.fields, Compact(t), t.rawBytes, sendOk,
                       victim);
    }
  }

  /** Without an error the event was accepted exactly when it was forwarded. */
  lemma OutcomesArePossible(lib: Lib, cfg: AppConfig, out: Outlets, w: World, t: Trap, sendOk: bool,
                            victim: Option<Key>)
    ensures var h := Handle(lib, cfg, out, w, t, sendOk, victim); Possible(h.outcome, h.error)
  {
    HandleIsRegular(lib, cfg, out, w, t, sendOk, victim);
  }

  /**
   The forwarder is called at most once, with the stored datagram, and exactly when the event is
   accepted; forwarded means that the call succeeded.
   */
  lemma SendsTheDatagramOnce(lib: Lib, cfg: AppConfig, out: Outlets, w: World, t: Trap, sendOk: bool,
                             victim: Option<Key>)
    ensures var h := Handle(lib, cfg, out, w, t, sendOk, victim);
            && h.world.sends ==
               (if h.outcome.accepted then w.sends + [Sent(out.forwarder, t.rawBytes, sendOk)] else w.sends)
            && (h.outcome.forwarded <==> h.outcome.accepted && sendOk)
  {
    HandleIsRegular(lib, cfg, out, w, t, sendOk, victim);
  }

  /**
   A fresh event writes at most one line to the alerts file, and exactly one when it is reported as
   forwarded and a writer is set.
   */
  lemma AtMostOneAlertLine(lib: Lib, cfg: AppConfig, out: Outlets, w: World, t: Trap, sendOk: bool, victim: Option<Key>)
    requires !t.alertsLogged
    ensures var h := Handle(lib, cfg, out, w, t, sendOk, victim);
            && w.lines <= h.world.lines <= w.lines + (if out.alerts then 1 else 0)
            && (h.outcome.forwarded && out.alerts ==> h.world.lines == w.lines + 1)
            && (h.logged <==> h.world.lines == w.lines + 1)
  {
    HandleIsRegular(lib, cfg, out, w, t, sendOk, victim);
  }

  // ------------------------------------------------------------- the clear loop

  /** Exactly these keys disappear: the complete keys of alarms whose clear rule the event passes. */
  lemma {:induction false} ClearedExactly(lib: Lib, alarms: seq<AlarmRule>, fields: Fields, raw: map<string, string>,
                                          key: Key)
    ensures key in ClearedKeys(lib, alarms, fields, raw) <==>
            exists alarm | alarm in alarms :: ClearEffectOf(lib, alarm, fields, raw) == Clears(Some(key))
  {
    if alarms != [] {
      ClearedExactly(lib, alarms[1..], fields, raw, key);
      assert alarms == [alarms[0]] + alarms[1..];
    }
  }

  /** Frame of the clear rules: those keys are gone and every other entry is untouched. */
  lemma ClearLoopFrame(lib: Lib, cfg: AppConfig, out: Outlets, w: World, t: Trap, key: Key)
    ensures var m := AfterClears(lib, cfg, out, w, t).0.store;
            if exists alarm | alarm in cfg.alarms ::
                 ClearEffectOf(lib, alarm, t.fields, t.rawVarBindMap) == Clears(Some(key))
            then key !in m
            else (key in m <==> key in w.store) && (key in m ==> m[key] == w.store[key])
  {
    ClearedExactly(lib, cfg.alarms, t.fields, t.rawVarBindMap, key);
  }

  /** Alarm i decides the flag: its clear rule matched and no later one did. */
  predicate Decides(lib: Lib, alarms: seq<AlarmRule>, fields: Fields, raw: map<string, string>, i: int) {
    0 <= i < |alarms| && ClearEffectOf(lib, alarms[i], fields, raw) != NotAClear &&
    forall j | i < j < |alarms| :: ClearEffectOf(lib, alarms[j], fields, raw) == NotAClear
  }

  lemma {:induction false} NoMatchKeepsFlag(lib: Lib, flag: bool, alarms: seq<AlarmRule>, fields: Fields,
                                            raw: map<string, string>)
    requires forall j | 0 <= j < |alarms| :: ClearEffectOf(lib, alarms[j], fields, raw) == NotAClear
    ensures FlagFrom(lib, flag, alarms, fields, raw) == flag
    decreases alarms
  {
    if alarms != [] { NoMatchKeepsFlag(lib, flag, alarms[1..], fields, raw); }
  }

  /**
   The event counts as a clear exactly when the last alarm whose clear rule matches it accepts the
   varbind value too. A mismatch there overrules earlier alarms, whose entries are cleared all the same.
   */
  lemma {:induction false} LastMatchDecides(lib: Lib, flag: bool, alarms: seq<AlarmRule>, fields: Fields,
                                            raw: map<string, string>, i: nat)
    requires Decides(lib, alarms, fields, raw, i)
    ensures FlagFrom(lib, flag, alarms, fields, raw) <==> ClearEffectOf(lib, alarms[i], fields, raw).Clears?
    decreases alarms
  {
    var e, rest := ClearEffectOf(lib, alarms[0], fields, raw), alarms[1..];
    assert forall j | 0 <= j < |rest| :: rest[j] == alarms[j + 1];
    if i == 0 {
      NoMatchKeepsFlag(lib, NextFlag(flag, e), rest, fields, raw);
    } else {
      LastMatchDecides(lib, NextFlag(flag, e), rest, fields, raw, i - 1);
    }
  }
}
