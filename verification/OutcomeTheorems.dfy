/**
 What becomes of one event, decided by conditions on the event and the configuration alone: which
 filter, clear rules and alarm it meets, and whether its key is complete.
 */
module OutcomeTheorems {
  import opened Basics
  import opened OidUtil
  import opened Config
  import opened Model
  import opened Dedup
  import opened Match
  import opened MatchTheorems
  import opened Engine
  import opened EngineTheorems
  import opened ClearTheorems

  // ----------------------------------------------------------------- filters

  /** No filter rule matches, and none errs. */
  predicate NoFilterMatches(lib: Lib, cfg: AppConfig, fields: Fields) {
    forall i | 0 <= i < |cfg.filters| :: Meaning(lib, fields, cfg.filters[i].spec) == Ok(false)
  }

  /** The first rule that matters matches and drops, or no rule matches and the default drops. */
  predicate DroppedBy(lib: Lib, cfg: AppConfig, fields: Fields, id: string) {
    || (NoFilterMatches(lib, cfg, fields) && cfg.defaultAction == "drop" && id == "__default_drop__")
    || (exists i | 0 <= i < |cfg.filters| ::
          FirstFilter(lib, cfg.filters, fields, i) && Meaning(lib, fields, cfg.filters[i].spec) == Ok(true) &&
          cfg.filters[i].action in {"", "drop"} && id == cfg.filters[i].id)
  }

  /** The first rule that matters matches and keeps, or no rule matches and the default does not drop. */
  predicate Kept(lib: Lib, cfg: AppConfig, fields: Fields) {
    || (NoFilterMatches(lib, cfg, fields) && cfg.defaultAction != "drop")
    || (exists i | 0 <= i < |cfg.filters| ::
          FirstFilter(lib, cfg.filters, fields, i) && Meaning(lib, fields, cfg.filters[i].spec) == Ok(true) &&
          cfg.filters[i].action == "keep")
  }

  /** All rules come out false, or one of them is the first that does not. */
  lemma FirstFilterAmong(lib: Lib, rules: seq<FilterRule>, fields: Fields) returns (i: nat)
    requires exists j | 0 <= j < |rules| :: Meaning(lib, fields, rules[j].spec) != Ok(false)
    ensures FirstFilter(lib, rules, fields, i)
  {
    var marks := seq(|rules|, j requires 0 <= j < |rules| => Meaning(lib, fields, rules[j].spec) != Ok(false));
    var j :| 0 <= j < |rules| && Meaning(lib, fields, rules[j].spec) != Ok(false);
    assert marks[j];
    i := FirstMarked(marks);
    assert forall k | 0 <= k <= i :: marks[k] == (Meaning(lib, fields, rules[k].spec) != Ok(false));
  }

  lemma FirstFilterIsOne(lib: Lib, rules: seq<FilterRule>, fields: Fields, i: int, j: int)
    requires FirstFilter(lib, rules, fields, i) && FirstFilter(lib, rules, fields, j)
    ensures i == j
  {
  }

  /** The rule that matters first settles both. */
  lemma DecidedAt(lib: Lib, cfg: AppConfig, fields: Fields, id: string, i: int)
    requires FirstFilter(lib, cfg.filters, fields, i)
    ensures var rule, m := cfg.filters[i], Meaning(lib, fields, cfg.filters[i].spec);
            && (DroppedBy(lib, cfg, fields, id) <==> m == Ok(true) && rule.action in {"", "drop"} && id == rule.id)
            && (Kept(lib, cfg, fields) <==> m == Ok(true) && rule.action == "keep")
            && (FilterErrs(lib, cfg, fields) <==> m.Err? || rule.action !in {"", "drop", "keep"})
  {
    forall j | FirstFilter(lib, cfg.filters, fields, j) ensures j == i {
      FirstFilterIsOne(lib, cfg.filters, fields, i, j);
    }
  }

  /** The first rule that matters errs, or asks for an action that does not exist. */
  predicate FilterErrs(lib: Lib, cfg: AppConfig, fields: Fields) {
    exists i | 0 <= i < |cfg.filters| ::
      FirstFilter(lib, cfg.filters, fields, i) &&
      (Meaning(lib, fields, cfg.filters[i].spec).Err? || cfg.filters[i].action !in {"", "drop", "keep"})
  }

  lemma DecidedByDefault(lib: Lib, cfg: AppConfig, fields: Fields, id: string)
    requires NoFilterMatches(lib, cfg, fields)
    ensures DroppedBy(lib, cfg, fields, id) <==> cfg.defaultAction == "drop" && id == "__default_drop__"
    ensures Kept(lib, cfg, fields) <==> cfg.defaultAction != "drop"
    ensures !FilterErrs(lib, cfg, fields)
  {
    forall i ensures !FirstFilter(lib, cfg.filters, fields, i) {
    }
  }

  lemma FiltersAt(lib: Lib, cfg: AppConfig, fields: Fields, id: string, i: int)
    requires FirstFilter(lib, cfg.filters, fields, i)
    ensures FilterFrom(lib, cfg.filters, cfg.defaultAction, fields) == Ok(Some(id)) <==> DroppedBy(lib, cfg, fields, id)
    ensures FilterFrom(lib, cfg.filters, cfg.defaultAction, fields) == Ok(None) <==> Kept(lib, cfg, fields)
    ensures FilterFrom(lib, cfg.filters, cfg.defaultAction, fields).Err? <==> FilterErrs(lib, cfg, fields)
  {
    FirstFilterDecides(lib, cfg.filters, cfg.defaultAction, fields, i);
    DecidedAt(lib, cfg, fields, id, i);
  }

  lemma FiltersIff(lib: Lib, cfg: AppConfig, fields: Fields, id: string)
    ensures FilterFrom(lib, cfg.filters, cfg.defaultAction, fields) == Ok(Some(id)) <==> DroppedBy(lib, cfg, fields, id)
    ensures FilterFrom(lib, cfg.filters, cfg.defaultAction, fields) == Ok(None) <==> Kept(lib, cfg, fields)
    ensures FilterFrom(lib, cfg.filters, cfg.defaultAction, fields).Err? <==> FilterErrs(lib, cfg, fields)
  {
    if NoFilterMatches(lib, cfg, fields) {
      DefaultDecides(lib, cfg.filters, cfg.defaultAction, fields);
      DecidedByDefault(lib, cfg, fields, id);
    } else {
      var i := FirstFilterAmong(lib, cfg.filters, fields);
      FiltersAt(lib, cfg, fields, id, i);
    }
  }

  // ------------------------------------------------------------------ alarms

  predicate NoAlarmMatches(lib: Lib, cfg: AppConfig, fields: Fields) {
    forall i | 0 <= i < |cfg.alarms| :: Meaning(lib, fields, cfg.alarms[i].spec) == Ok(false)
  }

  /** The alarm is the first whose match does not come out false, and it matches. */
  predicate BelongsTo(lib: Lib, cfg: AppConfig, fields: Fields, alarm: AlarmRule) {
    exists i | 0 <= i < |cfg.alarms| ::
      cfg.alarms[i] == alarm && Meaning(lib, fields, alarm.spec) == Ok(true) &&
      forall j | 0 <= j < i :: Meaning(lib, fields, cfg.alarms[j].spec) == Ok(false)
  }

  lemma {:induction false} FirstAlarmAmong(lib: Lib, alarms: seq<AlarmRule>, fields: Fields) returns (i: nat)
    requires FirstAlarm(lib, alarms, fields) != Ok(None)
    ensures i < |alarms| && (forall j | 0 <= j < i :: Meaning(lib, fields, alarms[j].spec) == Ok(false))
    ensures match FirstAlarm(lib, alarms, fields)
            case Ok(alarm) => alarm == Some(alarms[i]) && Meaning(lib, fields, alarms[i].spec) == Ok(true)
            case Err(_) => Meaning(lib, fields, alarms[i].spec).Err?
  {
    i := 0;
    if Meaning(lib, fields, alarms[0].spec) == Ok(false) {
      var k := FirstAlarmAmong(lib, alarms[1..], fields);
      assert forall j | 0 < j < |alarms| :: alarms[j] == alarms[1..][j - 1];
      i := k + 1;
    }
  }

  lemma {:induction false} NoAlarmIff(lib: Lib, alarms: seq<AlarmRule>, fields: Fields)
    ensures FirstAlarm(lib, alarms, fields) == Ok(None) <==>
            forall i | 0 <= i < |alarms| :: Meaning(lib, fields, alarms[i].spec) == Ok(false)
  {
    if alarms != [] {
      NoAlarmIff(lib, alarms[1..], fields);
      assert forall j | 0 < j < |alarms| :: alarms[j] == alarms[1..][j - 1];
    }
  }

  /** An alarm's match errs before any alarm matches. */
  predicate AlarmErrs(lib: Lib, cfg: AppConfig, fields: Fields) {
    exists i | 0 <= i < |cfg.alarms| ::
      Meaning(lib, fields, cfg.alarms[i].spec).Err? &&
      forall j | 0 <= j < i :: Meaning(lib, fields, cfg.alarms[j].spec) == Ok(false)
  }

  lemma {:induction false} ErringAlarm(lib: Lib, alarms: seq<AlarmRule>, fields: Fields, i: nat)
    requires i < |alarms| && Meaning(lib, fields, alarms[i].spec).Err?
    requires forall j | 0 <= j < i :: Meaning(lib, fields, alarms[j].spec) == Ok(false)
    ensures FirstAlarm(lib, alarms, fields).Err?
  {
    if i > 0 {
      assert Meaning(lib, fields, alarms[0].spec) == Ok(false);
      ErringAlarm(lib, alarms[1..], fields, i - 1);
    }
  }

  lemma AlarmErrsIff(lib: Lib, cfg: AppConfig, fields: Fields)
    ensures FirstAlarm(lib, cfg.alarms, fields).Err? <==> AlarmErrs(lib, cfg, fields)
  {
    if FirstAlarm(lib, cfg.alarms, fields).Err? {
      var i := FirstAlarmAmong(lib, cfg.alarms, fields);
    }
    if AlarmErrs(lib, cfg, fields) {
      var i :| 0 <= i < |cfg.alarms| && Meaning(lib, fields, cfg.alarms[i].spec).Err? &&
        forall j | 0 <= j < i :: Meaning(lib, fields, cfg.alarms[j].spec) == Ok(false);
      ErringAlarm(lib, cfg.alarms, fields, i);
    }
  }

  lemma AlarmIff(lib: Lib, cfg: AppConfig, fields: Fields, alarm: AlarmRule)
    ensures FirstAlarm(lib, cfg.alarms, fields) == Ok(Some(alarm)) <==> BelongsTo(lib, cfg, fields, alarm)
  {
    if FirstAlarm(lib, cfg.alarms, fields) == Ok(Some(alarm)) {
      var i := FirstAlarmAmong(lib, cfg.alarms, fields);
    }
    if BelongsTo(lib, cfg, fields, alarm) {
      var i :| 0 <= i < |cfg.alarms| && cfg.alarms[i] == alarm && Meaning(lib, fields, alarm.spec) == Ok(true) &&
        forall j | 0 <= j < i :: Meaning(lib, fields, cfg.alarms[j].spec) == Ok(false);
      FirstAlarmDecides(lib, cfg.alarms, fields, i);
    }
  }

  // ------------------------------------------------------------------- clears

  /** The alarm has a clear rule and the event passes its match. */
  predicate ClearMatches(lib: Lib, alarm: AlarmRule, fields: Fields) {
    alarm.dedup.clear.Some? && Meaning(lib, fields, alarm.dedup.clear.value.spec) == Ok(true)
  }

  /** The clear rule looks at the value of a varbind. */
  predicate Watches(rule: ClearRule) {
    rule.varBindOid != "" && rule.regex != ""
  }

  /** What the regular expression says of the varbind's value, or of the empty text without the varbind. */
  function Verdict(lib: Lib, rule: ClearRule, raw: map<string, string>): Option<bool> {
    var oid := Normalize(rule.varBindOid);
    lib.regex(rule.regex, if oid in raw then raw[oid] else "")
  }

  /** The fields a clear's key is made of: those of the clear rule if it names any, else the alarm's. */
  function KeyNames(alarm: AlarmRule): seq<string>
    requires alarm.dedup.clear.Some?
  {
    if alarm.dedup.clear.value.keyFields != [] then alarm.dedup.clear.value.keyFields else alarm.dedup.keyFields
  }

  /** A key field of the clear: the alarm's own trap OID where its match fixes one, else the trap's field. */
  function KeyValue(alarm: AlarmRule, fields: Fields, name: string): string
    requires alarm.dedup.clear.Some?
  {
    var pin := StaticValue(alarm.spec, TRAP);
    var pinned := TRAP in KeyNames(alarm) && pin.Some? && pin.value != "";
    ResolveField(if pinned then fields[TRAP := pin.value] else fields, name)
  }

  /** The key is the clear's: of this alarm, and its items are the clear's key fields, all present. */
  predicate IsKeyOf(alarm: AlarmRule, fields: Fields, key: Key)
    requires alarm.dedup.clear.Some?
  {
    var names := KeyNames(alarm);
    && names != [] && key.ruleId == alarm.id && |key.keyHash| == |names|
    && forall i | 0 <= i < |names| ::
         key.keyHash[i] == KeyItem(names[i], KeyValue(alarm, fields, names[i])) &&
         KeyValue(alarm, fields, names[i]) != ""
  }

  lemma OneAlarmClearsIff(lib: Lib, alarm: AlarmRule, fields: Fields, raw: map<string, string>, key: Key)
    ensures ClearEffectOf(lib, alarm, fields, raw) == Clears(Some(key)) <==>
            && ClearMatches(lib, alarm, fields)
            && (Watches(alarm.dedup.clear.value) ==> Verdict(lib, alarm.dedup.clear.value, raw) == Some(true))
            && IsKeyOf(alarm, fields, key)
  {
    if alarm.dedup.clear.Some? { ClearKeyIff(alarm, fields, key); }
  }

  lemma ClearKeyIff(alarm: AlarmRule, fields: Fields, key: Key)
    requires alarm.dedup.clear.Some?
    ensures ClearKey(alarm, fields) == Some(key) <==> IsKeyOf(alarm, fields, key)
  {
    var names, pinned := KeyNames(alarm), ClearFields(alarm, fields);
    assert names == ClearKeyFields(alarm);
    forall f ensures KeyValue(alarm, fields, f) == ResolveField(pinned, f) {
    }
    if IsKeyOf(alarm, fields, key) {
      assert forall f | f in names :: exists i :: 0 <= i < |names| && names[i] == f;
      assert Complete(pinned, names);
      assert Items(pinned, names) == key.keyHash;
    }
  }

  /**
   Which keys an event clears: those of the alarms whose clear rule it matches, where the watched
   varbind, if there is one, has a value the regular expression accepts, and whose clear key, over the
   clear's own key fields or the alarm's, is complete.
   */
  lemma ClearedIff(lib: Lib, cfg: AppConfig, t: Trap, key: Key)
    ensures key in Cleared(lib, cfg, t) <==>
            exists alarm | alarm in cfg.alarms ::
              && ClearMatches(lib, alarm, t.fields)
              && (Watches(alarm.dedup.clear.value) ==>
                    Verdict(lib, alarm.dedup.clear.value, t.rawVarBindMap) == Some(true))
              && IsKeyOf(alarm, t.fields, key)
  {
    ClearedExactly(lib, cfg.alarms, t.fields, t.rawVarBindMap, key);
    forall alarm | alarm in cfg.alarms
      ensures ClearEffectOf(lib, alarm, t.fields, t.rawVarBindMap) == Clears(Some(key)) <==>
              && ClearMatches(lib, alarm, t.fields)
              && (Watches(alarm.dedup.clear.value) ==>
                    Verdict(lib, alarm.dedup.clear.value, t.rawVarBindMap) == Some(true))
              && IsKeyOf(alarm, t.fields, key)
    {
      OneAlarmClearsIff(lib, alarm, t.fields, t.rawVarBindMap, key);
    }
  }

  /** Alarm i is the last whose clear rule the event matches. */
  predicate LastClear(lib: Lib, cfg: AppConfig, fields: Fields, i: int) {
    0 <= i < |cfg.alarms| && ClearMatches(lib, cfg.alarms[i], fields) &&
    forall j | i < j < |cfg.alarms| :: !ClearMatches(lib, cfg.alarms[j], fields)
  }

  /** The event is taken for a clear: the last clear rule it matches watches nothing, or does not find a mismatch. */
  predicate CountsAsClear(lib: Lib, cfg: AppConfig, t: Trap) {
    exists i | 0 <= i < |cfg.alarms| ::
      LastClear(lib, cfg, t.fields, i) &&
      (Watches(cfg.alarms[i].dedup.clear.value) ==>
         Verdict(lib, cfg.alarms[i].dedup.clear.value, t.rawVarBindMap) != Some(false))
  }

  lemma EffectKinds(lib: Lib, alarm: AlarmRule, fields: Fields, raw: map<string, string>)
    ensures ClearEffectOf(lib, alarm, fields, raw) == NotAClear <==> !ClearMatches(lib, alarm, fields)
    ensures ClearEffectOf(lib, alarm, fields, raw).Clears? <==>
            ClearMatches(lib, alarm, fields) &&
            (Watches(alarm.dedup.clear.value) ==> Verdict(lib, alarm.dedup.clear.value, raw) != Some(false))
  {
  }

  lemma {:induction false} LastClearAmong(lib: Lib, cfg: AppConfig, fields: Fields, n: nat) returns (i: nat)
    requires n <= |cfg.alarms| && exists j | n <= j < |cfg.alarms| :: ClearMatches(lib, cfg.alarms[j], fields)
    ensures LastClear(lib, cfg, fields, i)
    decreases |cfg.alarms| - n
  {
    if exists j | n + 1 <= j < |cfg.alarms| :: ClearMatches(lib, cfg.alarms[j], fields) {
      i := LastClearAmong(lib, cfg, fields, n + 1);
    } else {
      i := n;
    }
  }

  lemma LastClearIsOne(lib: Lib, cfg: AppConfig, fields: Fields, i: int, j: int)
    requires LastClear(lib, cfg, fields, i) && LastClear(lib, cfg, fields, j)
    ensures i == j
  {
  }

  lemma CountsAsClearIff(lib: Lib, cfg: AppConfig, t: Trap)
    ensures IsClear(lib, cfg, t) <==> CountsAsClear(lib, cfg, t)
  {
    var fields, raw := t.fields, t.rawVarBindMap;
    forall j | 0 <= j < |cfg.alarms|
      ensures ClearEffectOf(lib, cfg.alarms[j], fields, raw) == NotAClear <==> !ClearMatches(lib, cfg.alarms[j], fields)
    {
      EffectKinds(lib, cfg.alarms[j], fields, raw);
    }
    if exists j | 0 <= j < |cfg.alarms| :: ClearMatches(lib, cfg.alarms[j], fields) {
      var i := LastClearAmong(lib, cfg, fields, 0);
      LastMatchDecides(lib, false, cfg.alarms, fields, raw, i);
      EffectKinds(lib, cfg.alarms[i], fields, raw);
      forall j | LastClear(lib, cfg, fields, j) ensures j == i {
        LastClearIsOne(lib, cfg, fields, i, j);
      }
    } else {
      NoMatchKeepsFlag(lib, false, cfg.alarms, fields, raw);
    }
  }

  // ------------------------------------------------------------------ outcomes

  /** A key field of the alarm has no value, or there is none. */
  predicate KeyIncomplete(alarm: AlarmRule, fields: Fields) {
    alarm.dedup.keyFields == [] || exists f | f in alarm.dedup.keyFields :: ResolveField(fields, f) == ""
  }

  /** The event is sent: one call with its datagram, and an outcome that says whether it succeeded. */
  predicate IsSent(out: Outlets, w: World, t: Trap, sendOk: bool, reason: Reason, id: string, h: Handled) {
    && h.world.sends == w.sends + [Sent(out.forwarder, t.rawBytes, sendOk)]
    && (if sendOk then h.outcome == Outcome(true, true, reason, id) && h.error == None
        else h.outcome == Outcome(true, false, ForwardFailed, id) && h.error == Some(SendFailed))
  }

  /** An event that a filter drops changes nothing and is reported under the filter's id. */
  lemma DroppedEvent(lib: Lib, cfg: AppConfig, out: Outlets, w: World, t: Trap, sendOk: bool, victim: Option<Key>,
                     id: string)
    requires DroppedBy(lib, cfg, t.fields, id)
    ensures Handle(lib, cfg, out, w, t, sendOk, victim) ==
            Handled(w, t.alertsLogged, Outcome(false, false, Filtered, id), None)
  {
    FiltersIff(lib, cfg, t.fields, id);
  }

  /** Behind the filters everything but the error is up to the clears and the alarms. */
  lemma KeptEvent(lib: Lib, cfg: AppConfig, out: Outlets, w: World, t: Trap, sendOk: bool, victim: Option<Key>)
    requires Kept(lib, cfg, t.fields)
    ensures var (w1, logged) := AfterClears(lib, cfg, out, w, t);
            && Handle(lib, cfg, out, w, t, sendOk, victim) ==
               Proceed(lib, cfg, out, w1, logged, CountsAsClear(lib, cfg, t), t.fields, Compact(t), t.rawBytes,
                       sendOk, victim)
            && w1.store == w.store - Cleared(lib, cfg, t) && w1.sends == w.sends
  {
    FiltersIff(lib, cfg, t.fields, "");
    CountsAsClearIff(lib, cfg, t);
  }

  /** A clear, and an event no alarm matches, is passed through. */
  lemma PassedThroughEvent(lib: Lib, cfg: AppConfig, out: Outlets, w: World, t: Trap, sendOk: bool, victim: Option<Key>)
    requires Kept(lib, cfg, t.fields) && (CountsAsClear(lib, cfg, t) || NoAlarmMatches(lib, cfg, t.fields))
    ensures var h := Handle(lib, cfg, out, w, t, sendOk, victim);
            IsSent(out, w, t, sendOk, PassThrough, "", h) && h.world.store == w.store - Cleared(lib, cfg, t)
  {
    KeptEvent(lib, cfg, out, w, t, sendOk, victim);
    NoAlarmIff(lib, cfg.alarms, t.fields);
  }

  /** An alarm whose key is incomplete is sent without dedup. */
  lemma UndedupedEvent(lib: Lib, cfg: AppConfig, out: Outlets, w: World, t: Trap, sendOk: bool, victim: Option<Key>,
                       alarm: AlarmRule)
    requires Kept(lib, cfg, t.fields) && !CountsAsClear(lib, cfg, t) && BelongsTo(lib, cfg, t.fields, alarm)
    requires KeyIncomplete(alarm, t.fields)
    ensures var h := Handle(lib, cfg, out, w, t, sendOk, victim);
            IsSent(out, w, t, sendOk, DedupDisabled, alarm.id, h) && h.world.store == w.store - Cleared(lib, cfg, t)
  {
    KeptEvent(lib, cfg, out, w, t, sendOk, victim);
    AlarmIff(lib, cfg, t.fields, alarm);
  }

  /** The store holds an entry of the key that is held or has time left. */
  predicate StillOpen(m: States, key: Key, at: int) {
    key in m && (m[key].holdUntilClear || at < m[key].firstSeenAt + Window(m[key].ttlSeconds))
  }

  /** An alarm with a complete key is a duplicate if its key has an open entry, and is sent otherwise. */
  lemma DedupedEvent(lib: Lib, cfg: AppConfig, out: Outlets, w: World, t: Trap, sendOk: bool, victim: Option<Key>,
                     alarm: AlarmRule)
    requires Kept(lib, cfg, t.fields) && !CountsAsClear(lib, cfg, t) && BelongsTo(lib, cfg, t.fields, alarm)
    requires !KeyIncomplete(alarm, t.fields)
    ensures var h := Handle(lib, cfg, out, w, t, sendOk, victim);
            var key := AlarmKey(alarm, t.fields);
            if StillOpen(w.store - Cleared(lib, cfg, t), key, t.receivedAt) then
              h.outcome == Outcome(false, false, Duplicate, alarm.id) && h.error == None && h.world.sends == w.sends
            else IsSent(out, w, t, sendOk, Alarm, alarm.id, h)
  {
    KeptEvent(lib, cfg, out, w, t, sendOk, victim);
    AlarmIff(lib, cfg, t.fields, alarm);
  }

  /** An event on which a match errs is neither accepted nor sent. */
  lemma FailedEvent(lib: Lib, cfg: AppConfig, out: Outlets, w: World, t: Trap, sendOk: bool, victim: Option<Key>)
    requires FilterErrs(lib, cfg, t.fields) ||
             (Kept(lib, cfg, t.fields) && !CountsAsClear(lib, cfg, t) && AlarmErrs(lib, cfg, t.fields))
    ensures var h := Handle(lib, cfg, out, w, t, sendOk, victim);
            h.outcome == NO_OUTCOME && h.error.Some? && h.error != Some(SendFailed) && h.world.sends == w.sends
  {
    FiltersIff(lib, cfg, t.fields, "");
    FilterErrors(lib, cfg.filters, cfg.defaultAction, t.fields);
    if Kept(lib, cfg, t.fields) {
      KeptEvent(lib, cfg, out, w, t, sendOk, victim);
      AlarmErrsIff(lib, cfg, t.fields);
      AlarmErrors(lib, cfg.alarms, t.fields);
    }
  }

  /** An event is dropped, has a filter that errs, or is kept; in the last case the alarms settle the rest. */
  lemma NothingElse(lib: Lib, cfg: AppConfig, fields: Fields)
    ensures (exists id :: DroppedBy(lib, cfg, fields, id)) || FilterErrs(lib, cfg, fields) || Kept(lib, cfg, fields)
    ensures NoAlarmMatches(lib, cfg, fields) || AlarmErrs(lib, cfg, fields) ||
            exists alarm :: BelongsTo(lib, cfg, fields, alarm)
  {
    var filter, alarm := FilterFrom(lib, cfg.filters, cfg.defaultAction, fields), FirstAlarm(lib, cfg.alarms, fields);
    FiltersIff(lib, cfg, fields, if filter.Ok? && filter.value.Some? then filter.value.value else "");
    NoAlarmIff(lib, cfg.alarms, fields);
    AlarmErrsIff(lib, cfg, fields);
    if alarm.Ok? && alarm.value.Some? { AlarmIff(lib, cfg, fields, alarm.value.value); }
  }

  /** A match errs before the event's fate is settled. */
  predicate MatchErrs(lib: Lib, cfg: AppConfig, t: Trap) {
    FilterErrs(lib, cfg, t.fields) ||
    (Kept(lib, cfg, t.fields) && !CountsAsClear(lib, cfg, t) && AlarmErrs(lib, cfg, t.fields))
  }

  /** An alarm with a complete key whose entry is open. */
  predicate Repeats(lib: Lib, cfg: AppConfig, w: World, t: Trap, alarm: AlarmRule) {
    && Kept(lib, cfg, t.fields) && !CountsAsClear(lib, cfg, t) && BelongsTo(lib, cfg, t.fields, alarm)
    && !KeyIncomplete(alarm, t.fields)
    && StillOpen(w.store - Cleared(lib, cfg, t), AlarmKey(alarm, t.fields), t.receivedAt)
  }

  lemma NoAlarmExcludesAlarm(lib: Lib, cfg: AppConfig, fields: Fields)
    requires NoAlarmMatches(lib, cfg, fields)
    ensures forall alarm :: !BelongsTo(lib, cfg, fields, alarm)
  {
  }

  lemma OneAlarm(lib: Lib, cfg: AppConfig, fields: Fields, alarm: AlarmRule)
    requires BelongsTo(lib, cfg, fields, alarm)
    ensures forall other | BelongsTo(lib, cfg, fields, other) :: other == alarm
  {
    AlarmIff(lib, cfg, fields, alarm);
    forall other | BelongsTo(lib, cfg, fields, other) ensures other == alarm {
      AlarmIff(lib, cfg, fields, other);
    }
  }

  /** Only the alarm the event belongs to can be repeated, or lack a key. */
  lemma OnlyItsAlarm(lib: Lib, cfg: AppConfig, w: World, t: Trap, alarm: AlarmRule)
    requires BelongsTo(lib, cfg, t.fields, alarm)
    ensures (exists other :: Repeats(lib, cfg, w, t, other)) <==> Repeats(lib, cfg, w, t, alarm)
    ensures LacksKey(lib, cfg, t.fields) <==> KeyIncomplete(alarm, t.fields)
    ensures HasKey(lib, cfg, t.fields) <==> !KeyIncomplete(alarm, t.fields)
  {
    OneAlarm(lib, cfg, t.fields, alarm);
  }

  /** The event belongs to an alarm whose key it does not complete. */
  ghost predicate LacksKey(lib: Lib, cfg: AppConfig, fields: Fields) {
    exists alarm :: BelongsTo(lib, cfg, fields, alarm) && KeyIncomplete(alarm, fields)
  }

  /** The event belongs to an alarm whose key it completes. */
  ghost predicate HasKey(lib: Lib, cfg: AppConfig, fields: Fields) {
    exists alarm :: BelongsTo(lib, cfg, fields, alarm) && !KeyIncomplete(alarm, fields)
  }

  /** A kept event on which nothing errs: sent under the reason that applies, or a duplicate. */
  predicate Settled(out: Outlets, w: World, t: Trap, sendOk: bool, h: Handled, reason: Reason, id: string) {
    if reason.Duplicate? then h.outcome == Outcome(false, false, Duplicate, id) && h.world.sends == w.sends
    else IsSent(out, w, t, sendOk, reason, id, h)
  }

  lemma AlarmIsSettled(lib: Lib, cfg: AppConfig, out: Outlets, w: World, t: Trap, sendOk: bool, victim: Option<Key>,
                       alarm: AlarmRule)
    requires Kept(lib, cfg, t.fields) && !CountsAsClear(lib, cfg, t) && BelongsTo(lib, cfg, t.fields, alarm)
    ensures Settled(out, w, t, sendOk, Handle(lib, cfg, out, w, t, sendOk, victim),
                    if KeyIncomplete(alarm, t.fields) then DedupDisabled
                    else if Repeats(lib, cfg, w, t, alarm) then Duplicate
                    else Alarm, alarm.id)
  {
    if KeyIncomplete(alarm, t.fields) {
      UndedupedEvent(lib, cfg, out, w, t, sendOk, victim, alarm);
    } else {
      DedupedEvent(lib, cfg, out, w, t, sendOk, victim, alarm);
    }
  }

  /** An event on which no match errs, that no filter drops, is either passed through or belongs to an alarm. */
  lemma KeptIsSettled(lib: Lib, cfg: AppConfig, out: Outlets, w: World, t: Trap, sendOk: bool, victim: Option<Key>)
    returns (reason: Reason, id: string)
    requires Kept(lib, cfg, t.fields) && !MatchErrs(lib, cfg, t)
    ensures Settled(out, w, t, sendOk, Handle(lib, cfg, out, w, t, sendOk, victim), reason, id)
    ensures reason.Duplicate? <==> exists alarm :: Repeats(lib, cfg, w, t, alarm)
    ensures reason.PassThrough? <==> CountsAsClear(lib, cfg, t) || NoAlarmMatches(lib, cfg, t.fields)
    ensures reason.DedupDisabled? <==> !CountsAsClear(lib, cfg, t) && LacksKey(lib, cfg, t.fields)
    ensures reason.Alarm? <==>
            !CountsAsClear(lib, cfg, t) && HasKey(lib, cfg, t.fields) && !exists alarm :: Repeats(lib, cfg, w, t, alarm)
  {
    if CountsAsClear(lib, cfg, t) {
      PassedThroughEvent(lib, cfg, out, w, t, sendOk, victim);
      reason, id := PassThrough, "";
    } else if NoAlarmMatches(lib, cfg, t.fields) {
      PassedThroughEvent(lib, cfg, out, w, t, sendOk, victim);
      NoAlarmExcludesAlarm(lib, cfg, t.fields);
      reason, id := PassThrough, "";
    } else {
      NothingElse(lib, cfg, t.fields);
      var alarm :| BelongsTo(lib, cfg, t.fields, alarm);
      AlarmIsSettled(lib, cfg, out, w, t, sendOk, victim, alarm);
      OnlyItsAlarm(lib, cfg, w, t, alarm);
      id := alarm.id;
      reason := if KeyIncomplete(alarm, t.fields) then DedupDisabled
                else if Repeats(lib, cfg, w, t, alarm) then Duplicate else Alarm;
    }
  }

  /**
   An event is withheld, that is not given to the forwarder, if and only if a filter drops it, a match
   errs, or it repeats an alarm whose entry is open; and it is reported as filtered or as a duplicate
   exactly in these cases.
   */
  lemma WithheldIff(lib: Lib, cfg: AppConfig, out: Outlets, w: World, t: Trap, sendOk: bool, victim: Option<Key>)
    ensures var h := Handle(lib, cfg, out, w, t, sendOk, victim);
            var dropped := exists id :: DroppedBy(lib, cfg, t.fields, id);
            var repeats := exists alarm :: Repeats(lib, cfg, w, t, alarm);
            && (h.world.sends == w.sends <==> dropped || MatchErrs(lib, cfg, t) || repeats)
            && (h.outcome.reason.Filtered? <==> dropped)
            && (h.outcome.reason.Duplicate? <==> repeats)
  {
    NothingElse(lib, cfg, t.fields);
    FiltersIff(lib, cfg, t.fields, "");
    if id :| DroppedBy(lib, cfg, t.fields, id) {
      FiltersIff(lib, cfg, t.fields, id);
      DroppedEvent(lib, cfg, out, w, t, sendOk, victim, id);
    } else if MatchErrs(lib, cfg, t) {
      FailedEvent(lib, cfg, out, w, t, sendOk, victim);
      ErrorExcludesRepeat(lib, cfg, w, t);
    } else {
      var reason, id := KeptIsSettled(lib, cfg, out, w, t, sendOk, victim);
    }
  }

  lemma ErrorExcludesRepeat(lib: Lib, cfg: AppConfig, w: World, t: Trap)
    requires MatchErrs(lib, cfg, t)
    ensures forall alarm :: !Repeats(lib, cfg, w, t, alarm)
  {
    FiltersIff(lib, cfg, t.fields, "");
    AlarmErrsIff(lib, cfg, t.fields);
    forall alarm ensures !Repeats(lib, cfg, w, t, alarm) {
      AlarmIff(lib, cfg, t.fields, alarm);
    }
  }

  /** Pass-through, missing dedup and alarms are reported exactly where they apply, to events that are sent. */
  lemma ReportedIff(lib: Lib, cfg: AppConfig, out: Outlets, w: World, t: Trap, sendOk: bool, victim: Option<Key>)
    requires Kept(lib, cfg, t.fields) && !MatchErrs(lib, cfg, t)
    ensures var reason := Handle(lib, cfg, out, w, t, sendOk, victim).outcome.reason;
            && (reason.PassThrough? <==> sendOk && (CountsAsClear(lib, cfg, t) || NoAlarmMatches(lib, cfg, t.fields)))
            && (reason.DedupDisabled? <==> sendOk && !CountsAsClear(lib, cfg, t) && LacksKey(lib, cfg, t.fields))
            && (reason.Alarm? <==>
                  sendOk && !CountsAsClear(lib, cfg, t) && HasKey(lib, cfg, t.fields) &&
                  !exists alarm :: Repeats(lib, cfg, w, t, alarm))
  {
    var reason, id := KeptIsSettled(lib, cfg, out, w, t, sendOk, victim);
  }

  /** What is left of an event after the clears writes its line if and only if it is forwarded. */
  lemma ProceedLines(lib: Lib, cfg: AppConfig, out: Outlets, w: World, logged: bool, isClear: bool, t: Trap,
                     sendOk: bool, victim: Option<Key>)
    ensures var h := Proceed(lib, cfg, out, w, logged, isClear, t.fields, Compact(t), t.rawBytes, sendOk, victim);
            h.world.lines == w.lines + if out.alerts && !logged && h.outcome.forwarded then 1 else 0
  {
  }

  /**
   An event is given one line in the alerts file if it has none yet, a writer is set, no filter drops it
   or errs on it, and it clears a key or is forwarded; it is given none otherwise.
   */
  lemma AlertLineIff(lib: Lib, cfg: AppConfig, out: Outlets, w: World, t: Trap, sendOk: bool, victim: Option<Key>)
    ensures var h := Handle(lib, cfg, out, w, t, sendOk, victim);
            var written := && out.alerts && !t.alertsLogged && Kept(lib, cfg, t.fields)
                           && (h.outcome.forwarded || Cleared(lib, cfg, t) != {});
            h.world.lines == w.lines + if written then 1 else 0
  {
    FiltersIff(lib, cfg, t.fields, "");
    if Kept(lib, cfg, t.fields) {
      var (w1, logged) := AfterClears(lib, cfg, out, w, t);
      ProceedLines(lib, cfg, out, w1, logged, IsClear(lib, cfg, t), t, sendOk, victim);
    }
  }
}
