/** The event engine: filters, clear rules, alarm matching and dedup (internal/engine/engine.go). */
module Engine {
  import opened Basics
  import opened OidUtil
  import opened Config
  import opened Model
  import opened Dedup
  import opened Match
  import Ber
  import Parser

  datatype Reason = NoReason | Filtered | PassThrough | DedupDisabled | Duplicate | Alarm | ForwardFailed

  datatype Outcome = Outcome(accepted: bool, forwarded: bool, reason: Reason, ruleId: string)

  datatype EngineError = MatchFailed(cause: MatchError) | UnsupportedAction(action: string) | SendFailed

  const NO_OUTCOME := Outcome(false, false, NoReason, "")

  /** Where events go out: the forwarder in use, told from others by a number, and whether an alerts writer is set. */
  datatype Outlets = Outlets(forwarder: nat, alerts: bool)

  /** One call of a forwarder and whether it succeeded. */
  datatype Sent = Sent(forwarder: nat, payload: seq<byte>, ok: bool)

  /** The fallback decoder with its settings. */
  datatype Decoder = Decoder(printers: Ber.Printers, aliases: map<string, string>)

  /** What outlives an event: the dedup store, the calls of the forwarder and the lines in the alerts file. */
  datatype World = World(store: States, sends: seq<Sent>, lines: nat)

  /** The effect of one event. */
  datatype Handled = Handled(world: World, logged: bool, outcome: Outcome, error: Option<EngineError>)

  // ----------------------------------------------------------------- filters

  /** The id of the rule that drops the event, if one does. */
  function FilterFrom(lib: Lib, rules: seq<FilterRule>, defaultAction: string, fields: Fields)
    : Result<Option<string>, EngineError>
  {
    if rules == [] then Ok(if defaultAction == "drop" then Some("__default_drop__") else None)
    else
      match Meaning(lib, fields, rules[0].spec)
      case Err(e) => Err(MatchFailed(e))
      case Ok(false) => FilterFrom(lib, rules[1..], defaultAction, fields)
      case Ok(true) =>
        if rules[0].action == "" || rules[0].action == "drop" then Ok(Some(rules[0].id))
        else if rules[0].action == "keep" then Ok(None)
        else Err(UnsupportedAction(rules[0].action))
  }

  /** The first alarm rule the event matches. */
  function FirstAlarm(lib: Lib, alarms: seq<AlarmRule>, fields: Fields): Result<Option<AlarmRule>, EngineError> {
    if alarms == [] then Ok(None)
    else
      match Meaning(lib, fields, alarms[0].spec)
      case Err(e) => Err(MatchFailed(e))
      case Ok(true) => Ok(Some(alarms[0]))
      case Ok(false) => FirstAlarm(lib, alarms[1..], fields)
  }

  // -------------------------------------------------------------- clear rules

  /** The condition pins the field to one value. */
  predicate Pins(item: Value, field: string) {
    item.Mapping? && StringAt(item.entries, "field") == field &&
    (StringAt(item.entries, "op") == "" || StringAt(item.entries, "op") == "eq")
  }

  function PinnedValue(item: Value): string
    requires item.Mapping?
  {
    Sprint(Entry(item.entries, "value"))
  }

  /** The single value to which the conditions pin the field; two different pins give none. */
  function PinFrom(items: seq<Value>, field: string, found: Option<string>): Option<string> {
    if items == [] then found
    else if !Pins(items[0], field) then PinFrom(items[1..], field, found)
    else if found.Some? && found.value != PinnedValue(items[0]) then None
    else PinFrom(items[1..], field, Some(PinnedValue(items[0])))
  }

  function StaticValue(spec: MatchSpec, field: string): Option<string> {
    if field in spec then Some(Sprint(spec[field]))
    else
      match Entry(spec, "all")
      case List(items, _) => PinFrom(items, field, None)
      case _ => None
  }

  method StaticMatchFieldValue(spec: MatchSpec, field: string) returns (r: Option<string>)
    ensures r == StaticValue(spec, field)
  {
    if field in spec { return Some(Sprint(spec[field])); }
    match Entry(spec, "all")
    case List(list, _) =>
      var resolved, found := "", false;
      var i := 0;
      while i < |list|
        invariant 0 <= i <= |list|
        invariant StaticValue(spec, field) == PinFrom(list[i..], field, if found then Some(resolved) else None)
      {
        var item := list[i];
        i := i + 1;
        if item.Mapping? {
          var conditionField := StringAt(item.entries, "field");
          var op := StringAt(item.entries, "op");
          if conditionField == field && (op == "" || op == "eq") {
            var value := Sprint(Entry(item.entries, "value"));
            if found && resolved != value { return None; }
            resolved, found := value, true;
          }
        }
      }
      return if found then Some(resolved) else None;
    case _ => return None;
  }

  function PinnedTrapOid(spec: MatchSpec, keyFields: seq<string>): Option<string> {
    if "trap_oid" in keyFields then StaticValue(spec, "trap_oid") else None
  }

  /** The event's fields with the trap OID replaced, as the clear key sees them. */
  function PinnedFields(fields: Fields, pin: Option<string>): Fields {
    if pin.Some? && pin.value != "" then fields["trap_oid" := pin.value] else fields
  }

  /** What one alarm's clear rule makes of an event. */
  datatype ClearEffect =
    | NotAClear                // no clear rule, or its match fails or errs
    | Mismatch                 // matched, but the varbind's value does not
    | Clears(key: Option<Key>) // a clear; the key, unless the regex is invalid or a key field is missing

  function ClearKeyFields(alarm: AlarmRule): seq<string>
    requires alarm.dedup.clear.Some?
  {
    var own := alarm.dedup.clear.value.keyFields;
    if own == [] then alarm.dedup.keyFields else own
  }

  function ClearFields(alarm: AlarmRule, fields: Fields): Fields
    requires alarm.dedup.clear.Some?
  {
    PinnedFields(fields, PinnedTrapOid(alarm.spec, ClearKeyFields(alarm)))
  }

  function ClearKey(alarm: AlarmRule, fields: Fields): Option<Key>
    requires alarm.dedup.clear.Some?
  {
    var keyFields, pinned := ClearKeyFields(alarm), ClearFields(alarm, fields);
    if Complete(pinned, keyFields) then Some(Key(alarm.id, Items(pinned, keyFields))) else None
  }

  function RawValue(raw: map<string, string>, oid: string): string {
    if Normalize(oid) in raw then raw[Normalize(oid)] else ""
  }

  /** The effect of one alarm's clear rule on an event with these fields and varbind values. */
  function ClearEffectOf(lib: Lib, alarm: AlarmRule, fields: Fields, raw: map<string, string>): ClearEffect {
    match alarm.dedup.clear
    case None => NotAClear
    case Some(rule) =>
      if Meaning(lib, fields, rule.spec) != Ok(true) then NotAClear
      else if rule.varBindOid == "" || rule.regex == "" then Clears(ClearKey(alarm, fields))
      else
        match lib.regex(rule.regex, RawValue(raw, rule.varBindOid))
        case None => Clears(None)
        case Some(false) => Mismatch
        case Some(true) => Clears(ClearKey(alarm, fields))
  }

  function KeyOfEffect(e: ClearEffect): set<Key> {
    if e.Clears? && e.key.Some? then {e.key.value} else {}
  }

  /** The keys the event clears. */
  function ClearedKeys(lib: Lib, alarms: seq<AlarmRule>, fields: Fields, raw: map<string, string>): set<Key> {
    if alarms == [] then {}
    else KeyOfEffect(ClearEffectOf(lib, alarms[0], fields, raw)) + ClearedKeys(lib, alarms[1..], fields, raw)
  }

  /** A match raises the clear flag; a value mismatch lowers it again, whoever raised it. */
  function NextFlag(flag: bool, e: ClearEffect): bool {
    match e
    case NotAClear => flag
    case Mismatch => false
    case Clears(_) => true
  }

  /** The clear flag after the remaining alarms. */
  function FlagFrom(lib: Lib, flag: bool, alarms: seq<AlarmRule>, fields: Fields, raw: map<string, string>): bool
    decreases alarms
  {
    if alarms == [] then flag
    else FlagFrom(lib, NextFlag(flag, ClearEffectOf(lib, alarms[0], fields, raw)), alarms[1..], fields, raw)
  }

  /** The event is taken for a clear. */
  predicate IsClear(lib: Lib, cfg: AppConfig, t: Trap) {
    FlagFrom(lib, false, cfg.alarms, t.fields, t.rawVarBindMap)
  }

  /** The keys the event clears under a configuration. */
  function Cleared(lib: Lib, cfg: AppConfig, t: Trap): set<Key> {
    ClearedKeys(lib, cfg.alarms, t.fields, t.rawVarBindMap)
  }

  // ------------------------------------------------------------- handle event

  /** One line in the alerts file, if a writer is set and the event has none yet. */
  function LineFor(out: Outlets, logged: bool): nat {
    if out.alerts && !logged then 1 else 0
  }

  function Deliver(out: Outlets, w: World, logged: bool, payload: seq<byte>, sendOk: bool, reason: Reason,
                   ruleId: string): Handled
  {
    var w1 := w.(sends := w.sends + [Sent(out.forwarder, payload, sendOk)]);
    if !sendOk then Handled(w1, logged, Outcome(true, false, ForwardFailed, ruleId), Some(SendFailed))
    else
      Handled(w1.(lines := w1.lines + LineFor(out, logged)), logged || out.alerts,
              Outcome(true, true, reason, ruleId), None)
  }

  function Deduped(out: Outlets, w: World, logged: bool, rule: AlarmRule, fields: Fields, event: CompactEvent,
                   payload: seq<byte>, sendOk: bool, victim: Option<Key>): Handled
  {
    var d := rule.dedup;
    if !Complete(fields, d.keyFields) then Deliver(out, w, logged, payload, sendOk, DedupDisabled, rule.id)
    else
      var key := Key(rule.id, Items(fields, d.keyFields));
      var m := AfterGet(w.store, key, event.receivedAt);
      if Found(w.store, key, event.receivedAt).Some? then
        Handled(w.(store := AfterTouch(m, key, event.receivedAt)), logged,
                Outcome(false, false, Duplicate, rule.id), None)
      else
        var stored := AfterPut(m, FreshState(key, event, d.ttlSeconds, d.holdUntilClear), victim);
        Deliver(out, w.(store := stored), logged, payload, sendOk, Alarm, rule.id)
  }

  /** The world and log mark after the clear rules. */
  function AfterClears(lib: Lib, cfg: AppConfig, out: Outlets, w: World, t: Trap): (World, bool) {
    var keys := Cleared(lib, cfg, t);
    (w.(store := w.store - keys, lines := w.lines + if keys == {} then 0 else LineFor(out, t.alertsLogged)),
     t.alertsLogged || (out.alerts && keys != {}))
  }

  /** The part of HandleEvent behind the clear rules. */
  function Proceed(lib: Lib, cfg: AppConfig, out: Outlets, w: World, logged: bool, isClear: bool, fields: Fields,
                   event: CompactEvent, payload: seq<byte>, sendOk: bool, victim: Option<Key>): Handled
  {
    if isClear then Deliver(out, w, logged, payload, sendOk, PassThrough, "")
    else
      match FirstAlarm(lib, cfg.alarms, fields)
      case Err(e) => Handled(w, logged, NO_OUTCOME, Some(e))
      case Ok(None) => Deliver(out, w, logged, payload, sendOk, PassThrough, "")
      case Ok(Some(rule)) => Deduped(out, w, logged, rule, fields, event, payload, sendOk, victim)
  }

  function Handle(lib: Lib, cfg: AppConfig, out: Outlets, w: World, t: Trap, sendOk: bool, victim: Option<Key>)
    : Handled
  {
    match FilterFrom(lib, cfg.filters, cfg.defaultAction, t.fields)
    case Err(e) => Handled(w, t.alertsLogged, NO_OUTCOME, Some(e))
    case Ok(Some(rule)) => Handled(w, t.alertsLogged, Outcome(false, false, Filtered, rule), None)
    case Ok(None) =>
      var (w1, logged) := AfterClears(lib, cfg, out, w, t);
      Proceed(lib, cfg, out, w1, logged, IsClear(lib, cfg, t), t.fields, Compact(t), t.rawBytes, sendOk, victim)
  }

  /** The rule and key under which the event reaches the dedup store, if it does. */
  datatype Arrival = Arrival(rule: AlarmRule, key: Key)

  function ArrivalOf(lib: Lib, cfg: AppConfig, t: Trap): Option<Arrival> {
    if FilterFrom(lib, cfg.filters, cfg.defaultAction, t.fields) != Ok(None) then None
    else if IsClear(lib, cfg, t) then None
    else
      match FirstAlarm(lib, cfg.alarms, t.fields)
      case Ok(Some(rule)) =>
        if Complete(t.fields, rule.dedup.keyFields) then
          Some(Arrival(rule, Key(rule.id, Items(t.fields, rule.dedup.keyFields))))
        else None
      case _ => None
  }

  /** The store an arrival finds: cleared by the event itself, its own entry dropped if expired. */
  function StoreOnArrival(lib: Lib, cfg: AppConfig, store: States, t: Trap, key: Key): States {
    AfterGet(store - Cleared(lib, cfg, t), key, t.receivedAt)
  }

  /** The victim is one the store may evict when the event is put, and absent otherwise. */
  predicate LegalVictim(lib: Lib, cfg: AppConfig, store: States, limit: int, t: Trap, victim: Option<Key>) {
    match ArrivalOf(lib, cfg, t)
    case None => victim.None?
    case Some(a) =>
      var m := StoreOnArrival(lib, cfg, store, t, a.key);
      if a.key in m then victim.None? else MayEvict(m, limit, victim)
  }

  lemma ClearStep(lib: Lib, flag: bool, alarms: seq<AlarmRule>, fields: Fields, raw: map<string, string>, i: nat)
    requires i < |alarms|
    ensures var e := ClearEffectOf(lib, alarms[i], fields, raw);
            && FlagFrom(lib, flag, alarms[i..], fields, raw) ==
               FlagFrom(lib, NextFlag(flag, e), alarms[i + 1..], fields, raw)
            && ClearedKeys(lib, alarms[i..], fields, raw) ==
               KeyOfEffect(e) + ClearedKeys(lib, alarms[i + 1..], fields, raw)
  {
    assert alarms[i..][0] == alarms[i] && alarms[i..][1..] == alarms[i + 1..];
  }

  lemma RemoveBoth(m: States, a: set<Key>, b: set<Key>)
    ensures m - a - b == m - (a + b)
  {
  }

  class Engine {
    const lib: Lib
    const dedup: Store
    var cfg: AppConfig
    var outlets: Outlets
    var decoder: Decoder
    var sends: seq<Sent>
    var lines: nat

    ghost function Snapshot(): World
      reads this, dedup
    {
      World(dedup.states, sends, lines)
    }

    constructor (lib: Lib, maxDedupEntries: int, cfg: AppConfig, outlets: Outlets, decoder: Decoder)
      ensures this.lib == lib && this.cfg == cfg && this.outlets == outlets && this.decoder == decoder
      ensures fresh(dedup) && dedup.limit == maxDedupEntries
      ensures Snapshot() == World(map[], [], 0)
    {
      this.lib := lib;
      dedup := new Store(maxDedupEntries);
      this.cfg, this.outlets, this.decoder := cfg, outlets, decoder;
      sends, lines := [], 0;
    }

    /** Swaps configuration, forwarder, decoder and alerts writer; the dedup store and its limit stay. */
    method Reload(cfg: AppConfig, outlets: Outlets, decoder: Decoder)
      modifies this
      ensures this.cfg == cfg && this.outlets == outlets && this.decoder == decoder
      ensures Snapshot() == old(Snapshot())
    {
      this.cfg, this.outlets, this.decoder := cfg, outlets, decoder;
    }

    /** Decodes a datagram with the decoder in use. */
    method Parse(data: seq<byte>, from: Parser.Origin) returns (r: Result<TrapEvent, Parser.ParseError>)
      ensures match Parser.TrapOf(decoder.printers, decoder.aliases, data, from)
              case Ok(t) => r.Ok? && fresh(r.value) && r.value.View() == t
              case Err(e) => r == Err(e)
    {
      r := Parser.ParseTrap(decoder.printers, decoder.aliases, data, from);
    }

    method Cleanup(now: int)
      modifies dedup
      ensures Snapshot() == old(Snapshot()).(store := AfterCleanup(old(dedup.states), now))
    {
      var expired := dedup.Cleanup(now);
    }

    method EvaluateFilters(fields: Fields) returns (r: Result<Option<string>, EngineError>)
      ensures r == FilterFrom(lib, cfg.filters, cfg.defaultAction, fields)
    {
      var i := 0;
      while i < |cfg.filters|
        invariant 0 <= i <= |cfg.filters|
        invariant FilterFrom(lib, cfg.filters, cfg.defaultAction, fields) ==
                  FilterFrom(lib, cfg.filters[i..], cfg.defaultAction, fields)
      {
        var rule := cfg.filters[i];
        var matched := Matches(lib, fields, rule.spec);
        if matched.Err? { return Err(MatchFailed(matched.error)); }
        if matched.value {
          if rule.action == "" || rule.action == "drop" { return Ok(Some(rule.id)); }
          if rule.action == "keep" { return Ok(None); }
          return Err(UnsupportedAction(rule.action));
        }
        i := i + 1;
      }
      r := Ok(if cfg.defaultAction == "drop" then Some("__default_drop__") else None);
    }

    method MatchAlarm(fields: Fields) returns (r: Result<Option<AlarmRule>, EngineError>)
      ensures r == FirstAlarm(lib, cfg.alarms, fields)
    {
      var i := 0;
      while i < |cfg.alarms|
        invariant 0 <= i <= |cfg.alarms|
        invariant FirstAlarm(lib, cfg.alarms, fields) == FirstAlarm(lib, cfg.alarms[i..], fields)
      {
        var matched := Matches(lib, fields, cfg.alarms[i].spec);
        if matched.Err? { return Err(MatchFailed(matched.error)); }
        if matched.value { return Ok(Some(cfg.alarms[i])); }
        i := i + 1;
      }
      r := Ok(None);
    }

    /** The body of the clear loop up to the store: the effect of one alarm's clear rule. */
    method EvaluateClear(alarm: AlarmRule, event: TrapEvent) returns (e: ClearEffect)
      ensures e == ClearEffectOf(lib, alarm, event.fields, event.rawVarBindMap)
    {
      if alarm.dedup.clear.None? { return NotAClear; }
      var rule := alarm.dedup.clear.value;
      var matched := Matches(lib, event.fields, rule.spec);
      if matched != Ok(true) { return NotAClear; }
      if rule.varBindOid != "" && rule.regex != "" {
        var value := RawValue(event.rawVarBindMap, rule.varBindOid);
        match lib.regex(rule.regex, value)
        case None => return Clears(None);
        case Some(false) => return Mismatch;
        case Some(true) =>
      }
      var keyFields := if rule.keyFields == [] then alarm.dedup.keyFields else rule.keyFields;
      var pin: Option<string> := None;
      if "trap_oid" in keyFields {
        pin := StaticMatchFieldValue(alarm.spec, "trap_oid");
      }
      var k := BuildDedupKey(PinnedFields(event.fields, pin), keyFields);
      if k.missingFields != [] || k.hash == [] { return Clears(None); }
      e := Clears(Some(Key(alarm.id, k.hash)));
    }

    /** One turn of the clear loop. */
    method ApplyClear(alarm: AlarmRule, event: TrapEvent, flag: bool) returns (matchedClear: bool, ghost keys: set<Key>)
      modifies this`lines, dedup, event`alertsLogged
      ensures matchedClear == NextFlag(flag, ClearEffectOf(lib, alarm, event.fields, event.rawVarBindMap))
      ensures keys == KeyOfEffect(ClearEffectOf(lib, alarm, event.fields, event.rawVarBindMap))
      ensures dedup.states == old(dedup.states) - keys
      ensures lines == old(lines) + if keys == {} then 0 else LineFor(outlets, old(event.alertsLogged))
      ensures event.alertsLogged == (old(event.alertsLogged) || (outlets.alerts && keys != {}))
    {
      matchedClear, keys := flag, {};
      var effect := EvaluateClear(alarm, event);
      match effect
      case NotAClear =>
      case Mismatch =>
        matchedClear := false;
      case Clears(key) =>
        matchedClear := true;
        if key.Some? {
          keys := {key.value};
          var cleared := dedup.Clear(key.value);
          WriteAlertLine(event);
        }
    }

    /** The clear loop: exactly the cleared keys leave the store, and at most one line is written. */
    method RunClearLoop(event: TrapEvent) returns (matchedClear: bool)
      modifies this`lines, dedup, event`alertsLogged
      ensures matchedClear == FlagFrom(lib, false, cfg.alarms, event.fields, event.rawVarBindMap)
      ensures var keys := ClearedKeys(lib, cfg.alarms, event.fields, event.rawVarBindMap);
              && dedup.states == old(dedup.states) - keys
              && lines == old(lines) + (if keys == {} then 0 else LineFor(outlets, old(event.alertsLogged)))
              && event.alertsLogged == (old(event.alertsLogged) || (outlets.alerts && keys != {}))
    {
      ghost var fields, raw, mark := event.fields, event.rawVarBindMap, event.alertsLogged;
      ghost var start, gone: set<Key> := dedup.states, {};
      var alarms := cfg.alarms;
      matchedClear := false;
      var i := 0;
      while i < |alarms|
        invariant 0 <= i <= |alarms|
        invariant FlagFrom(lib, false, alarms, fields, raw) == FlagFrom(lib, matchedClear, alarms[i..], fields, raw)
        invariant ClearedKeys(lib, alarms, fields, raw) == gone + ClearedKeys(lib, alarms[i..], fields, raw)
        invariant dedup.states == start - gone
        invariant lines == old(lines) + if gone == {} then 0 else LineFor(outlets, mark)
        invariant event.alertsLogged == (mark || (outlets.alerts && gone != {}))
      {
        ClearStep(lib, matchedClear, alarms, fields, raw, i);
        ghost var keys;
        ghost var before := gone;
        matchedClear, keys := ApplyClear(alarms[i], event, matchedClear);
        gone := before + keys;
        RemoveBoth(start, before, keys);
        i := i + 1;
      }
      assert alarms[i..] == [];
    }

    /** The clear rules as a whole: the flag, and the world they leave. */
    method ApplyAlarmClearRules(event: TrapEvent) returns (matchedClear: bool)
      modifies this`lines, dedup, event`alertsLogged
      ensures matchedClear == IsClear(lib, cfg, old(event.View()))
      ensures (Snapshot(), event.alertsLogged) ==
              AfterClears(lib, cfg, outlets, old(Snapshot()), old(event.View()))
    {
      matchedClear := RunClearLoop(event);
    }

    method WriteAlertLine(event: TrapEvent)
      modifies this`lines, event`alertsLogged
      ensures lines == old(lines) + LineFor(outlets, old(event.alertsLogged))
      ensures event.alertsLogged == (old(event.alertsLogged) || outlets.alerts)
    {
      if outlets.alerts && !event.alertsLogged {
        lines := lines + 1;
        event.alertsLogged := true;
      }
    }

    /** Sends the stored datagram; `sendOk` is the forwarder's answer. */
    method Forward(event: TrapEvent, sendOk: bool, reason: Reason, ruleId: string)
      returns (outcome: Outcome, error: Option<EngineError>)
      modifies this`sends, this`lines, event`alertsLogged
      ensures Handled(Snapshot(), event.alertsLogged, outcome, error) ==
              Deliver(outlets, old(Snapshot()), old(event.alertsLogged), event.rawBytes, sendOk, reason, ruleId)
    {
      sends := sends + [Sent(outlets.forwarder, event.rawBytes, sendOk)];
      if !sendOk { return Outcome(true, false, ForwardFailed, ruleId), Some(SendFailed); }
      WriteAlertLine(event);
      outcome, error := Outcome(true, true, reason, ruleId), None;
    }

    method Deduplicate(event: TrapEvent, rule: AlarmRule, sendOk: bool)
      returns (outcome: Outcome, error: Option<EngineError>, ghost victim: Option<Key>)
      modifies this`sends, this`lines, dedup, event`alertsLogged
      ensures Handled(Snapshot(), event.alertsLogged, outcome, error) ==
              Deduped(outlets, old(Snapshot()), old(event.alertsLogged), rule, event.fields,
                      old(Compact(event.View())), event.rawBytes, sendOk, victim)
      ensures var key := Key(rule.id, Items(event.fields, rule.dedup.keyFields));
              var m := AfterGet(old(dedup.states), key, event.receivedAt);
              if Complete(event.fields, rule.dedup.keyFields) && key !in m then MayEvict(m, dedup.limit, victim)
              else victim.None?
    {
      victim := None;
      var k := BuildDedupKey(event.fields, rule.dedup.keyFields);
      if k.missingFields != [] || k.hash == [] {
        outcome, error := Forward(event, sendOk, DedupDisabled, rule.id);
        return;
      }
      var key := Key(rule.id, k.hash);
      var s := dedup.Get(key, event.receivedAt);
      if s.Some? {
        s := dedup.Touch(key, event.receivedAt);
        if s.Some? { return Outcome(false, false, Duplicate, rule.id), None, None; }
      }
      var state;
      state, victim := dedup.Put(key, Compact(event.View()), rule.dedup.ttlSeconds, rule.dedup.holdUntilClear);
      outcome, error := Forward(event, sendOk, Alarm, rule.id);
    }

    method Continue(event: TrapEvent, isClear: bool, sendOk: bool)
      returns (outcome: Outcome, error: Option<EngineError>, ghost victim: Option<Key>)
      modifies this`sends, this`lines, dedup, event`alertsLogged
      ensures Handled(Snapshot(), event.alertsLogged, outcome, error) ==
              Proceed(lib, cfg, outlets, old(Snapshot()), old(event.alertsLogged), isClear, event.fields,
                      old(Compact(event.View())), event.rawBytes, sendOk, victim)
      ensures match FirstAlarm(lib, cfg.alarms, event.fields)
              case Ok(Some(rule)) =>
                var key := Key(rule.id, Items(event.fields, rule.dedup.keyFields));
                var m := AfterGet(old(dedup.states), key, event.receivedAt);
                if !isClear && Complete(event.fields, rule.dedup.keyFields) && key !in m
                then MayEvict(m, dedup.limit, victim)
                else victim.None?
              case _ => victim.None?
    {
      victim := None;
      if isClear {
        outcome, error := Forward(event, sendOk, PassThrough, "");
        return;
      }
      var alarm := MatchAlarm(event.fields);
      if alarm.Err? { return NO_OUTCOME, Some(alarm.error), None; }
      if alarm.value.None? {
        outcome, error := Forward(event, sendOk, PassThrough, "");
        return;
      }
      outcome, error, victim := Deduplicate(event, alarm.value.value, sendOk);
    }

    method HandleEvent(event: TrapEvent, sendOk: bool)
      returns (outcome: Outcome, error: Option<EngineError>, ghost victim: Option<Key>)
      modifies this`sends, this`lines, dedup, event`alertsLogged
      ensures Handled(Snapshot(), event.alertsLogged, outcome, error) ==
              Handle(lib, cfg, outlets, old(Snapshot()), old(event.View()), sendOk, victim)
      ensures LegalVictim(lib, cfg, old(dedup.states), dedup.limit, old(event.View()), victim)
    {
      var filter := EvaluateFilters(event.fields);
      if filter.Err? { return NO_OUTCOME, Some(filter.error), None; }
      if filter.value.Some? { return Outcome(false, false, Filtered, filter.value.value), None, None; }
      var isClear := ApplyAlarmClearRules(event);
      outcome, error, victim := Continue(event, isClear, sendOk);
    }
  }
}
