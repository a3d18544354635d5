/** What a match expression pins, and when a clear trap reaches the alarm it is meant for. */
module ClearTheorems {
  import opened Basics
  import opened Text
  import opened OidUtil
  import opened Config
  import opened Dedup
  import opened Match
  import opened Engine

  const TRAP := "trap_oid"

  // ------------------------------------------------------------- static pins

  /** A pin that comes out was already there or is set by one of the conditions, at i. */
  lemma {:induction false} PinComesFromACondition(items: seq<Value>, field: string, found: Option<string>)
    returns (i: nat)
    requires PinFrom(items, field, found).Some?
    ensures found == PinFrom(items, field, found) ||
            (i < |items| && Pins(items[i], field) && PinnedValue(items[i]) == PinFrom(items, field, found).value)
    decreases items
  {
    i := 0;
    if items != [] {
      var next := if Pins(items[0], field) then Some(PinnedValue(items[0])) else found;
      var j := PinComesFromACondition(items[1..], field, next);
      if next != PinFrom(items, field, found) { i := j + 1; }
    }
  }

  /** The item demands that the field equal the text: by the operator eq, spelled in small letters or left out. */
  predicate Demands(item: Value, field: string, text: string) {
    && item.Mapping? && "field" in item.entries && item.entries["field"] == Str(field)
    && (("op" in item.entries && item.entries["op"].Str?) ==> item.entries["op"].text in {"", "eq"})
    && text == (if "value" in item.entries && !item.entries["value"].Nil? then item.entries["value"].text else "<nil>")
  }

  lemma DemandsIff(item: Value, field: string, text: string)
    requires field != ""
    ensures Demands(item, field, text) <==> Pins(item, field) && PinnedValue(item) == text
  {
  }

  /** Some item demands the text, and no item demands another one. */
  ghost predicate AgreeOn(items: seq<Value>, field: string, text: string) {
    && (exists i | 0 <= i < |items| :: Demands(items[i], field, text))
    && (forall i, other | 0 <= i < |items| && Demands(items[i], field, other) :: other == text)
  }

  /** Behind a text already found, the items must not demand another one. */
  lemma {:induction false} PinFromIff(items: seq<Value>, field: string, found: string, text: string)
    requires field != ""
    ensures PinFrom(items, field, Some(found)) == Some(text) <==>
            found == text && forall i, other | 0 <= i < |items| && Demands(items[i], field, other) :: other == text
    decreases items
  {
    if items != [] {
      var rest := items[1..];
      assert forall i | 0 < i < |items| :: items[i] == rest[i - 1];
      assert forall i | 0 <= i < |rest| :: rest[i] == items[i + 1];
      PinFromIff(rest, field, found, text);
      if Pins(items[0], field) { DemandsIff(items[0], field, PinnedValue(items[0])); }
      forall other
        ensures Demands(items[0], field, other) <==> Pins(items[0], field) && PinnedValue(items[0]) == other
      {
        DemandsIff(items[0], field, other);
      }
    }
  }

  lemma {:induction false} PinAgreesIff(items: seq<Value>, field: string, text: string)
    requires field != ""
    ensures PinFrom(items, field, None) == Some(text) <==> AgreeOn(items, field, text)
    decreases items
  {
    if items != [] {
      var rest := items[1..];
      assert forall i | 0 < i < |items| :: items[i] == rest[i - 1];
      assert forall i | 0 <= i < |rest| :: rest[i] == items[i + 1];
      forall other
        ensures Demands(items[0], field, other) <==> Pins(items[0], field) && PinnedValue(items[0]) == other
      {
        DemandsIff(items[0], field, other);
      }
      if Pins(items[0], field) {
        PinFromIff(rest, field, PinnedValue(items[0]), text);
        assert Demands(items[0], field, PinnedValue(items[0]));
      } else {
        PinAgreesIff(rest, field, text);
      }
    }
  }

  /**
   When a pin is found: the expression has a flat entry for the field, or its `all` list demands one
   text for it, in one condition or several, and no other text.
   */
  lemma PinFoundIff(spec: MatchSpec, field: string, text: string)
    requires field != ""
    ensures StaticValue(spec, field) == Some(text) <==>
            if field in spec then text == (if spec[field].Nil? then "<nil>" else spec[field].text)
            else "all" in spec && spec["all"].List? && AgreeOn(spec["all"].items, field, text)
  {
    if field !in spec && "all" in spec && spec["all"].List? {
      PinAgreesIff(spec["all"].items, field, text);
    }
  }

  /** The conditions read so far stay in front. */
  lemma {:induction false} ConditionsInOrder(acc: seq<Condition>, items: seq<Value>, i: nat)
    requires ConditionsFrom(acc, items).Ok? && i < |items|
    ensures items[i].Mapping?
    ensures ConditionOf(items[i].entries) in ConditionsFrom(acc, items).value
    decreases items
  {
    var next := acc + [ConditionOf(items[0].entries)];
    if i == 0 {
      ConditionsKept(next, items[1..], next[|acc|]);
    } else {
      ConditionsInOrder(next, items[1..], i - 1);
    }
  }

  lemma {:induction false} ConditionsKept(acc: seq<Condition>, items: seq<Value>, c: Condition)
    requires ConditionsFrom(acc, items).Ok? && c in acc
    ensures c in ConditionsFrom(acc, items).value
    decreases items
  {
    if items != [] { ConditionsKept(acc + [ConditionOf(items[0].entries)], items[1..], c); }
  }

  lemma {:induction false} AllHoldEach(lib: Lib, fields: Fields, conds: seq<Condition>, c: Condition)
    requires AllHold(lib, fields, conds) == Ok(true) && c in conds
    ensures ConditionMatches(lib, fields, c) == Ok(true)
  {
    if c != conds[0] { AllHoldEach(lib, fields, conds[1..], c); }
  }

  lemma EqIsLower()
    ensures ToLower("eq") == "eq"
  {
  }

  /** The expression is read in one way: not a list expression with a flat entry for the field beside it. */
  predicate ReadOneWay(spec: MatchSpec, field: string) {
    field in spec ==> !ListMode(spec)
  }

  /** An event that matches a list expression agrees with the pin found in it. */
  lemma ListPinHolds(lib: Lib, fields: Fields, spec: MatchSpec, pin: string)
    requires TRAP !in spec && StaticValue(spec, TRAP) == Some(pin)
    requires Meaning(lib, fields, spec) == Ok(true)
    ensures Normalize(ResolveField(fields, TRAP)) == Normalize(pin)
  {
    var all := Entry(spec, "all");
    var i := PinComesFromACondition(all.items, TRAP, None);
    ConditionsInOrder([], all.items, i);
    var c := ConditionOf(all.items[i].entries);
    AllHoldEach(lib, fields, ConditionsOf(all).value, c);
    EqIsLower();
  }

  /**
   Pin soundness: unless a list expression hides a flat entry for the trap OID, every event that
   matches the expression carries the pinned trap OID, up to normalization.
   */
  lemma PinIsSound(lib: Lib, fields: Fields, spec: MatchSpec, pin: string)
    requires ReadOneWay(spec, TRAP) && StaticValue(spec, TRAP) == Some(pin)
    requires Meaning(lib, fields, spec) == Ok(true)
    ensures Normalize(ResolveField(fields, TRAP)) == Normalize(pin)
  {
    if TRAP in spec {
      assert FlatHolds(fields, spec, TRAP);
    } else {
      ListPinHolds(lib, fields, spec, pin);
    }
  }

  /** Beside a list, a flat entry may hold any value: it is the pin, and what matches stays the same. */
  lemma HiddenPinIsFree(lib: Lib, fields: Fields, spec: MatchSpec, pin: string)
    requires ListMode(spec)
    ensures var hidden := spec[TRAP := Str(pin)];
            && StaticValue(hidden, TRAP) == Some(pin)
            && Meaning(lib, fields, hidden) == Meaning(lib, fields, spec)
  {
    var hidden := spec[TRAP := Str(pin)];
    assert Entry(hidden, "all") == Entry(spec, "all");
    assert Entry(hidden, "any") == Entry(spec, "any");
    assert Entry(hidden, "not") == Entry(spec, "not");
  }

  /** Every event that matches with the flat entry in place carries its value, up to normalization. */
  ghost predicate HiddenPinIsSound(lib: Lib, spec: MatchSpec, pin: string) {
    forall fields: Fields | Meaning(lib, fields, spec[TRAP := Str(pin)]) == Ok(true) ::
      Normalize(ResolveField(fields, TRAP)) == Normalize(pin)
  }

  /** An event that matches carries one trap OID, so of two different values one is unsound. */
  lemma MatchRefutesAPin(lib: Lib, spec: MatchSpec, fields: Fields)
    requires ListMode(spec) && Meaning(lib, fields, spec) == Ok(true)
    ensures !HiddenPinIsSound(lib, spec, "1") || !HiddenPinIsSound(lib, spec, "2")
  {
    HiddenPinIsFree(lib, fields, spec, "1");
    HiddenPinIsFree(lib, fields, spec, "2");
    var oid := Normalize(ResolveField(fields, TRAP));
    assert HiddenPinIsSound(lib, spec, "1") ==> oid == Normalize("1");
    assert HiddenPinIsSound(lib, spec, "2") ==> oid == Normalize("2");
    TwoNormalTexts();
  }

  lemma NoMatchIsSound(lib: Lib, spec: MatchSpec, pin: string)
    requires ListMode(spec) && forall fields: Fields :: Meaning(lib, fields, spec) != Ok(true)
    ensures HiddenPinIsSound(lib, spec, pin)
  {
    var hidden := spec[TRAP := Str(pin)];
    forall fields: Fields ensures Meaning(lib, fields, hidden) != Ok(true) {
      HiddenPinIsFree(lib, fields, spec, pin);
    }
  }

  /** For a list expression, a hidden pin is sound whatever its value if and only if no event matches at all. */
  lemma HiddenPinIsSoundIff(lib: Lib, spec: MatchSpec)
    requires ListMode(spec)
    ensures (forall pin :: HiddenPinIsSound(lib, spec, pin)) <==>
            (forall fields: Fields :: Meaning(lib, fields, spec) != Ok(true))
  {
    if fields: Fields :| Meaning(lib, fields, spec) == Ok(true) {
      MatchRefutesAPin(lib, spec, fields);
    } else {
      forall pin ensures HiddenPinIsSound(lib, spec, pin) {
        NoMatchIsSound(lib, spec, pin);
      }
    }
  }

  lemma TwoNormalTexts()
    ensures Normalize("1") != Normalize("2")
  {
    PlainIsNormal("1");
    PlainIsNormal("2");
  }

  /** With a hidden flat entry the pin says nothing: any event may match. */
  lemma {:induction false} HiddenPinIsUnsound(lib: Lib, fields: Fields, pin: string)
    ensures var spec := map[TRAP := Str(pin), "all" := List([], "[]")];
            && !ReadOneWay(spec, TRAP)
            && StaticValue(spec, TRAP) == Some(pin)
            && Meaning(lib, fields, spec) == Ok(true)
  {
    var spec := map[TRAP := Str(pin), "all" := List([], "[]")];
    assert Entry(spec, "all") == List([], "[]") && Entry(spec, "any") == Nil && Entry(spec, "not") == Nil;
    assert ConditionsOf(List([], "[]")) == Ok([]) && ConditionsOf(Nil) == Ok([]);
  }

  // ---------------------------------------------------- clears and their alarms

  /** The key under which an alarm's own events are stored. */
  function AlarmKey(alarm: AlarmRule, fields: Fields): Key {
    Key(alarm.id, Items(fields, alarm.dedup.keyFields))
  }

  /**
   A clear aims at the entry of an earlier event of the alarm exactly when, with the pin in place,
   it agrees with that event on every key field.
   */
  lemma ClearAimsIff(alarm: AlarmRule, clear: Fields, event: Fields)
    requires alarm.dedup.clear.Some? && ClearKeyFields(alarm) == alarm.dedup.keyFields
    requires Complete(event, alarm.dedup.keyFields)
    ensures ClearKey(alarm, clear) == Some(AlarmKey(alarm, event)) <==>
            forall f | f in alarm.dedup.keyFields ::
              ResolveField(ClearFields(alarm, clear), f) == ResolveField(event, f)
  {
    SameItemsIff(ClearFields(alarm, clear), event, alarm.dedup.keyFields);
  }

  /** Pinning the trap OID changes no other field but its alias. */
  lemma PinChangesTrapOidOnly(fields: Fields, pin: string, f: string)
    requires pin != "" && f != "fields.trap_oid"
    ensures ResolveField(PinnedFields(fields, Some(pin)), f) == if f == TRAP then pin else ResolveField(fields, f)
  {
    if f != TRAP {
      if HasPrefix(f, "fields.") {
        assert f == f[..7] + f[7..] && f[..7] == "fields.";
        assert f[7..] == TRAP ==> f == "fields." + TRAP;
        assert f[7..] != TRAP;
      }
      if |f| >= 8 { VarBindsUnpinned(fields, pin, Variants(f[8..])); }
    }
  }

  lemma {:induction false} VarBindsUnpinned(fields: Fields, pin: string, oids: seq<string>)
    ensures FirstPresent(fields[TRAP := pin], oids) == FirstPresent(fields, oids)
  {
    if oids != [] {
      assert ("varbind." + oids[0])[0] == 'v';
      VarBindsUnpinned(fields, pin, oids[1..]);
    }
  }

  /** The clear agrees with the event on every key field other than the trap OID. */
  predicate AgreesElsewhere(keyFields: seq<string>, clear: Fields, event: Fields) {
    forall f | f in keyFields && f != TRAP :: ResolveField(clear, f) == ResolveField(event, f)
  }

  /**
   The trap OID in a clear's key is the pinned one or, where nothing is pinned or the pin is empty,
   the clear's own; it must be the event's.
   */
  predicate SameTrapOid(alarm: AlarmRule, clear: Fields, event: Fields) {
    match StaticValue(alarm.spec, TRAP)
    case Some(pin) => (if pin == "" then ResolveField(clear, TRAP) else pin) == ResolveField(event, TRAP)
    case None => ResolveField(clear, TRAP) == ResolveField(event, TRAP)
  }

  /**
   Which clears reach their alarm: a clear that agrees with an alarm event on the other key fields
   reaches that event's entry if and only if the trap OID is not in the key or is the same there.
   */
  lemma ClearReachesIff(alarm: AlarmRule, clear: Fields, event: Fields)
    requires alarm.dedup.clear.Some? && ClearKeyFields(alarm) == alarm.dedup.keyFields
    requires "fields.trap_oid" !in alarm.dedup.keyFields && Complete(event, alarm.dedup.keyFields)
    requires AgreesElsewhere(alarm.dedup.keyFields, clear, event)
    ensures ClearKey(alarm, clear) == Some(AlarmKey(alarm, event)) <==>
            (TRAP in alarm.dedup.keyFields ==> SameTrapOid(alarm, clear, event))
  {
    var keyFields, pin := alarm.dedup.keyFields, PinnedTrapOid(alarm.spec, alarm.dedup.keyFields);
    ClearAimsIff(alarm, clear, event);
    if pin.Some? && pin.value != "" {
      forall f | f in keyFields && f != TRAP
        ensures ResolveField(ClearFields(alarm, clear), f) == ResolveField(event, f)
      {
        PinChangesTrapOidOnly(clear, pin.value, f);
      }
      PinChangesTrapOidOnly(clear, pin.value, TRAP);
    }
  }

  /**
   Pinned clears: for an event that matches the alarm and carries a normalized trap OID, a pinned
   trap OID is the event's if and only if the pin is written in normalized form.
   */
  lemma PinnedClearReachesIff(lib: Lib, alarm: AlarmRule, pin: string, clear: Fields, event: Fields)
    requires alarm.dedup.clear.Some? && ClearKeyFields(alarm) == alarm.dedup.keyFields
    requires TRAP in alarm.dedup.keyFields && "fields.trap_oid" !in alarm.dedup.keyFields
    requires ReadOneWay(alarm.spec, TRAP) && StaticValue(alarm.spec, TRAP) == Some(pin)
    requires Meaning(lib, event, alarm.spec) == Ok(true) && Complete(event, alarm.dedup.keyFields)
    requires Normalize(ResolveField(event, TRAP)) == ResolveField(event, TRAP)
    requires AgreesElsewhere(alarm.dedup.keyFields, clear, event)
    ensures SameTrapOid(alarm, clear, event) <==> Normalize(pin) == pin
    ensures ClearKey(alarm, clear) == Some(AlarmKey(alarm, event)) <==> Normalize(pin) == pin
  {
    PinIsSound(lib, event, alarm.spec, pin);
    EmptyIsNormal();
    ClearReachesIff(alarm, clear, event);
    assert ResolveField(event, TRAP) != "";
  }

  lemma EmptyIsNormal()
    ensures Normalize("") == ""
  {
  }

  /** Without the trap OID in the key, agreement on the key fields is all a clear needs. */
  lemma UnpinnedClearReaches(alarm: AlarmRule, clear: Fields, event: Fields)
    requires alarm.dedup.clear.Some? && ClearKeyFields(alarm) == alarm.dedup.keyFields
    requires TRAP !in alarm.dedup.keyFields && Complete(event, alarm.dedup.keyFields)
    requires AgreesElsewhere(alarm.dedup.keyFields, clear, event)
    ensures ClearKey(alarm, clear) == Some(AlarmKey(alarm, event))
  {
    ClearAimsIff(alarm, clear, event);
  }

  // --------------------------------------------------- an operator in upper case

  /** A flat match on the trap OID compares normalized texts. */
  lemma FlatTrapOid(lib: Lib, fields: Fields, oid: string)
    ensures Meaning(lib, fields, map[TRAP := Str(oid)]) ==
            Ok(Normalize(ResolveField(fields, TRAP)) == Normalize(oid))
  {
    var spec: MatchSpec := map[TRAP := Str(oid)];
    assert Entry(spec, "any").Nil? && Entry(spec, "not").Nil? && !ListMode(spec);
    assert TRAP in spec && FlatHolds(fields, spec, TRAP) == (Normalize(ResolveField(fields, TRAP)) == Normalize(oid));
  }

  /** An alarm with the trap OID as its key, cleared by trap OID 2: such a trap counts as a clear and has a key. */
  lemma ClearedByTwo(lib: Lib, alarm: AlarmRule)
    requires alarm.dedup.keyFields == [TRAP]
    requires alarm.dedup.clear == Some(ClearRule(map[TRAP := Str("2")], [], "", ""))
    ensures var clear: Fields := map[TRAP := "2"];
            ClearEffectOf(lib, alarm, clear, map[]) == Clears(ClearKey(alarm, clear)) && ClearKey(alarm, clear).Some?
  {
    FlatTrapOid(lib, map[TRAP := "2"], "2");
    var fields := ClearFields(alarm, map[TRAP := "2"]);
    assert ResolveField(fields, TRAP) == fields[TRAP] != "";
  }

  /** An alarm that matches trap OID 1 only, by an operator in upper case, cleared by trap OID 2. */
  function UpperCaseAlarm(): AlarmRule {
    var condition := map["field" := Str(TRAP), "op" := Str("EQ"), "value" := Str("1")];
    var spec: MatchSpec := map["all" := List([Mapping(condition, "")], "")];
    AlarmRule("link", spec, DedupConfig(60, [TRAP], true, Some(ClearRule(map[TRAP := Str("2")], [], "", ""))))
  }

  lemma EqIgnoresCase()
    ensures ToLower("EQ") == "eq"
  {
  }

  lemma UpperCaseCondition(lib: Lib, fields: Fields)
    ensures var spec := UpperCaseAlarm().spec;
            var c := Condition(TRAP, "EQ", Str("1"));
            && StaticValue(spec, TRAP) == None
            && Meaning(lib, fields, spec) == AllHold(lib, fields, [c])
  {
    var spec := UpperCaseAlarm().spec;
    var item := Entry(spec, "all").items[0];
    var c := Condition(TRAP, "EQ", Str("1"));
    assert ConditionOf(item.entries) == c && !Pins(item, TRAP);
    assert [item][1..] == [] && [] + [c] == [c];
    assert ConditionsFrom([], [item]) == ConditionsFrom([c], []) == Ok([c]);
    assert Entry(spec, "any") == Nil && Entry(spec, "not") == Nil && ConditionsOf(Nil) == Ok([]);
    assert PinFrom([item], TRAP, None) == PinFrom([], TRAP, None);
  }

  /** Matching ignores the operator's case: the alarm matches trap OID 1 and no other. */
  lemma UpperCaseMatches(lib: Lib, oid: string)
    ensures Meaning(lib, map[TRAP := oid], UpperCaseAlarm().spec) == Ok(Normalize(oid) == Normalize("1"))
  {
    UpperCaseCondition(lib, map[TRAP := oid]);
    EqIgnoresCase();
    var c := Condition(TRAP, "EQ", Str("1"));
    assert ConditionMatches(lib, map[TRAP := oid], c) == Ok(Normalize(oid) == Normalize("1"));
    assert [c][1..] == [];
  }

  /** Matching ignores the operator's case but pinning does not: nothing is pinned, and the clear misses. */
  lemma UpperCaseEqNeverClears(lib: Lib)
    ensures var alarm := UpperCaseAlarm();
            var event, clear: Fields := map[TRAP := "1"], map[TRAP := "2"];
            && Meaning(lib, event, alarm.spec) == Ok(true) && Meaning(lib, clear, alarm.spec) == Ok(false)
            && StaticValue(alarm.spec, TRAP) == None
            && Complete(event, alarm.dedup.keyFields)
            && ClearEffectOf(lib, alarm, clear, map[]) == Clears(ClearKey(alarm, clear))
            && ClearKey(alarm, clear).Some?
            && ClearKey(alarm, clear) != Some(AlarmKey(alarm, event))
  {
    var alarm := UpperCaseAlarm();
    var event, clear: Fields := map[TRAP := "1"], map[TRAP := "2"];
    UpperCaseCondition(lib, event);
    UpperCaseMatches(lib, "1");
    UpperCaseMatches(lib, "2");
    TwoNormalTexts();
    ClearedByTwo(lib, alarm);
    ClearReachesIff(alarm, clear, event);
  }

  // ------------------------------------------------------------ a pin with a dot

  /** An alarm whose trap OID is written with a leading dot, cleared by another trap OID. */
  function DottedAlarm(): AlarmRule {
    var clear := ClearRule(map[TRAP := Str("2")], [], "", "");
    AlarmRule("link", map[TRAP := Str(".1")], DedupConfig(60, [TRAP], true, Some(clear)))
  }

  /**
   The alarm event matches (comparison normalizes) and the clear matches too, but the clear's key
   keeps the dot of the configured value and misses the entry.
   */
  lemma DottedPinNeverClears(lib: Lib)
    ensures var alarm := DottedAlarm();
            var event, clear: Fields := map[TRAP := "1"], map[TRAP := "2"];
            && Meaning(lib, event, alarm.spec) == Ok(true)
            && Complete(event, alarm.dedup.keyFields)
            && ClearEffectOf(lib, alarm, clear, map[]) == Clears(ClearKey(alarm, clear))
            && ClearKey(alarm, clear).Some?
            && ClearKey(alarm, clear) != Some(AlarmKey(alarm, event))
  {
    var alarm := DottedAlarm();
    var event, clear: Fields := map[TRAP := "1"], map[TRAP := "2"];
    assert TrimSpace(".1") == ".1" && Normalize(".1") == "1" == Normalize("1");
    FlatTrapOid(lib, event, ".1");
    ClearedByTwo(lib, alarm);
    ClearReachesIff(alarm, clear, event);
  }
}
