/** What match expressions, filters and field lookups mean, independently of evaluation order. */
module MatchTheorems {
  import opened Basics
  import opened Text
  import opened OidUtil
  import opened Config
  import opened Match
  import opened Engine

  // -------------------------------------------------------------- conditions

  predicate Holds(lib: Lib, fields: Fields, c: Condition) {
    ConditionMatches(lib, fields, c) == Ok(true)
  }

  predicate Fails(lib: Lib, fields: Fields, c: Condition) {
    ConditionMatches(lib, fields, c) == Ok(false)
  }

  predicate AllTrue(lib: Lib, fields: Fields, conds: seq<Condition>) {
    forall i | 0 <= i < |conds| :: Holds(lib, fields, conds[i])
  }

  predicate AllFalse(lib: Lib, fields: Fields, conds: seq<Condition>) {
    forall i | 0 <= i < |conds| :: Fails(lib, fields, conds[i])
  }

  lemma HeadAndRest(lib: Lib, fields: Fields, conds: seq<Condition>)
    requires conds != []
    ensures AllTrue(lib, fields, conds) <==> Holds(lib, fields, conds[0]) && AllTrue(lib, fields, conds[1..])
    ensures AllFalse(lib, fields, conds) <==> Fails(lib, fields, conds[0]) && AllFalse(lib, fields, conds[1..])
  {
    assert forall i | 0 <= i < |conds| - 1 :: conds[1..][i] == conds[i + 1];
  }

  lemma {:induction false} AllHoldIff(lib: Lib, fields: Fields, conds: seq<Condition>)
    ensures AllHold(lib, fields, conds) == Ok(true) <==> AllTrue(lib, fields, conds)
  {
    if conds != [] {
      AllHoldIff(lib, fields, conds[1..]);
      HeadAndRest(lib, fields, conds);
    }
  }

  lemma {:induction false} NoneHoldsIff(lib: Lib, fields: Fields, conds: seq<Condition>)
    ensures SomeHolds(lib, fields, conds) == Ok(false) <==> AllFalse(lib, fields, conds)
  {
    if conds != [] {
      NoneHoldsIff(lib, fields, conds[1..]);
      HeadAndRest(lib, fields, conds);
    }
  }

  /** Condition i is the first one that does not simply fail. */
  predicate FirstNotFailing(lib: Lib, fields: Fields, conds: seq<Condition>, i: int) {
    0 <= i < |conds| && !Fails(lib, fields, conds[i]) && forall j | 0 <= j < i :: Fails(lib, fields, conds[j])
  }

  lemma {:induction false} FirstNotFailingDecides(lib: Lib, fields: Fields, conds: seq<Condition>, i: nat)
    requires FirstNotFailing(lib, fields, conds, i)
    ensures SomeHolds(lib, fields, conds) == ConditionMatches(lib, fields, conds[i])
  {
    if i > 0 {
      assert Fails(lib, fields, conds[0]);
      assert forall j | 0 <= j < |conds| - 1 :: conds[1..][j] == conds[j + 1];
      FirstNotFailingDecides(lib, fields, conds[1..], i - 1);
    }
  }

  /** Some condition holds and everything before it fails. */
  predicate SomeHoldsFirst(lib: Lib, fields: Fields, conds: seq<Condition>) {
    exists i | 0 <= i < |conds| :: FirstNotFailing(lib, fields, conds, i) && Holds(lib, fields, conds[i])
  }

  /** In front of a list, a failing condition changes nothing and any other one decides. */
  lemma SomeHoldsHead(lib: Lib, fields: Fields, conds: seq<Condition>)
    requires conds != []
    ensures SomeHoldsFirst(lib, fields, conds) <==>
            if Fails(lib, fields, conds[0]) then SomeHoldsFirst(lib, fields, conds[1..])
            else Holds(lib, fields, conds[0])
  {
    var rest := conds[1..];
    assert forall j | 0 <= j < |rest| :: rest[j] == conds[j + 1];
    if !Fails(lib, fields, conds[0]) {
      assert FirstNotFailing(lib, fields, conds, 0);
    } else {
      assert forall i | 0 <= i < |rest| ::
        FirstNotFailing(lib, fields, rest, i) <==> FirstNotFailing(lib, fields, conds, i + 1);
    }
  }

  lemma {:induction false} SomeHoldsIff(lib: Lib, fields: Fields, conds: seq<Condition>)
    ensures SomeHolds(lib, fields, conds) == Ok(true) <==> SomeHoldsFirst(lib, fields, conds)
  {
    if conds != [] {
      SomeHoldsHead(lib, fields, conds);
      SomeHoldsIff(lib, fields, conds[1..]);
    }
  }

  /**
   Meaning of a list expression: it matches exactly when its three lists are well formed, every
   condition of `all` holds, some condition of a non-empty `any` holds before any errs, and every
   condition of `not` fails. Flat entries beside the lists play no part.
   */
  lemma ListExpressionMatchesIff(lib: Lib, fields: Fields, spec: MatchSpec)
    requires ListMode(spec)
    ensures Meaning(lib, fields, spec) == Ok(true) <==>
            var all, some := ConditionsOf(Entry(spec, "all")), ConditionsOf(Entry(spec, "any"));
            var none := ConditionsOf(Entry(spec, "not"));
            && all.Ok? && some.Ok? && none.Ok?
            && AllTrue(lib, fields, all.value)
            && (some.value == [] || SomeHoldsFirst(lib, fields, some.value))
            && AllFalse(lib, fields, none.value)
  {
    assert "all" in spec || "any" in spec || "not" in spec;
    var all, some := ConditionsOf(Entry(spec, "all")), ConditionsOf(Entry(spec, "any"));
    var none := ConditionsOf(Entry(spec, "not"));
    if all.Ok? && some.Ok? && none.Ok? {
      AllHoldIff(lib, fields, all.value);
      SomeHoldsIff(lib, fields, some.value);
      NoneHoldsIff(lib, fields, none.value);
    }
  }

  // ------------------------------------------------------- first match decides

  /** Rule i is the first whose match does not come out false. */
  predicate FirstFilter(lib: Lib, rules: seq<FilterRule>, fields: Fields, i: int) {
    0 <= i < |rules| && Meaning(lib, fields, rules[i].spec) != Ok(false) &&
    forall j | 0 <= j < i :: Meaning(lib, fields, rules[j].spec) == Ok(false)
  }

  /** What a filter rule decides once it is the first that matters: Some id to drop, None to keep. */
  function FilterDecision(lib: Lib, rule: FilterRule, fields: Fields): Result<Option<string>, EngineError> {
    var m := Meaning(lib, fields, rule.spec);
    if m.Err? then Err(MatchFailed(m.error))
    else if rule.action in {"", "drop"} then Ok(Some(rule.id))
    else if rule.action == "keep" then Ok(None)
    else Err(UnsupportedAction(rule.action))
  }

  /** The first filter rule that matches, or errs, decides; later rules and the default do not count. */
  lemma {:induction false} FirstFilterDecides(lib: Lib, rules: seq<FilterRule>, defaultAction: string, fields: Fields,
                                              i: nat)
    requires FirstFilter(lib, rules, fields, i)
    ensures FilterFrom(lib, rules, defaultAction, fields) == FilterDecision(lib, rules[i], fields)
  {
    if i > 0 {
      assert Meaning(lib, fields, rules[0].spec) == Ok(false);
      assert forall j | 0 <= j < |rules| - 1 :: rules[1..][j] == rules[j + 1];
      FirstFilterDecides(lib, rules[1..], defaultAction, fields, i - 1);
    }
  }

  /** Without such a rule the default action decides. */
  lemma {:induction false} DefaultDecides(lib: Lib, rules: seq<FilterRule>, defaultAction: string, fields: Fields)
    requires forall j | 0 <= j < |rules| :: Meaning(lib, fields, rules[j].spec) == Ok(false)
    ensures FilterFrom(lib, rules, defaultAction, fields) ==
            Ok(if defaultAction == "drop" then Some("__default_drop__") else None)
  {
    if rules != [] {
      assert Meaning(lib, fields, rules[0].spec) == Ok(false);
      DefaultDecides(lib, rules[1..], defaultAction, fields);
    }
  }

  /** An event belongs to the first alarm whose match it passes, provided no earlier match errs. */
  lemma {:induction false} FirstAlarmDecides(lib: Lib, alarms: seq<AlarmRule>, fields: Fields, i: nat)
    requires i < |alarms| && Meaning(lib, fields, alarms[i].spec) == Ok(true)
    requires forall j | 0 <= j < i :: Meaning(lib, fields, alarms[j].spec) == Ok(false)
    ensures FirstAlarm(lib, alarms, fields) == Ok(Some(alarms[i]))
  {
    if i > 0 {
      assert Meaning(lib, fields, alarms[0].spec) == Ok(false);
      FirstAlarmDecides(lib, alarms[1..], fields, i - 1);
    }
  }

  // ------------------------------------------------------------------- fields

  /** The three spellings of a varbind field resolve alike on fields stored without a leading dot. */
  lemma VarBindSpellings(fields: Fields, oid: string)
    requires oid != "" && Normalize(oid) == oid && TrimSpace(oid) == oid && TrimSpace("." + oid) == "." + oid
    requires "varbind.." + oid !in fields && "varbind:" + oid !in fields
    ensures var value := if "varbind." + oid in fields then fields["varbind." + oid] else "";
            && ResolveField(fields, "varbind." + oid) == value
            && ResolveField(fields, "varbind.." + oid) == value
            && ResolveField(fields, "varbind:" + oid) == value
  {
    assert "varbind." + ("." + oid) == "varbind.." + oid;
    DotResolves(fields, oid);
    DotResolves(fields, "." + oid);
    ColonResolves(fields, oid);
    assert Normalize("." + oid) == oid;
    assert Variants("." + oid) == [oid, "." + oid] && Variants(oid) == [oid];
    OneOrTwo(fields, oid);
  }

  /** A varbind field that is not stored as such is looked up under the variants of its OID. */
  lemma DotResolves(fields: Fields, text: string)
    ensures ResolveField(fields, "varbind." + text) ==
            if "varbind." + text in fields then fields["varbind." + text] else FirstPresent(fields, Variants(text))
  {
    var field := "varbind." + text;
    assert field[0] == 'v' && field[8..] == text && HasPrefix(field, "varbind.") && !HasPrefix(field, "fields.");
  }

  lemma ColonResolves(fields: Fields, text: string)
    requires "varbind:" + text !in fields
    ensures ResolveField(fields, "varbind:" + text) == FirstPresent(fields, Variants(text))
  {
    var field := "varbind:" + text;
    assert field[0] == 'v' && field[7] == ':' && field[8..] == text;
    assert HasPrefix(field, "varbind:") && !HasPrefix(field, "varbind.") && !HasPrefix(field, "fields.");
  }

  lemma OneOrTwo(fields: Fields, oid: string)
    requires "varbind." + ("." + oid) !in fields
    ensures FirstPresent(fields, [oid]) == if "varbind." + oid in fields then fields["varbind." + oid] else ""
    ensures FirstPresent(fields, [oid, "." + oid]) == FirstPresent(fields, [oid])
  {
    assert [oid, "." + oid][1..] == ["." + oid] && [oid][1..] == [] && ["." + oid][1..] == [];
  }

  /** A map keyed by either form of an OID is found under both forms. */
  lemma LookupEitherForm(m: map<string, string>, oid: string)
    requires Normalize(oid) == oid && Normalize("." + oid) == oid
    ensures Lookup(m, oid).Some? <==> oid in m || "." + oid in m
    ensures Lookup(m, "." + oid).Some? <==> Lookup(m, oid).Some?
    ensures !(oid in m && "." + oid in m) ==> Lookup(m, "." + oid) == Lookup(m, oid)
  {
    assert |"." + oid| == |oid| + 1;
  }
}
