/** What each operator of a match condition says about an event, and when a match expression errs. */
module OperatorTheorems {
  import opened Basics
  import opened Text
  import opened OidUtil
  import opened Config
  import opened Match
  import opened MatchTheorems

  // ---------------------------------------------------------------- spelling

  /** The operator is written in some mixture of small and capital letters. */
  predicate Spelled(op: string, name: string) {
    |op| == |name| &&
    forall i | 0 <= i < |op| :: 'a' <= name[i] <= 'z' && (op[i] == name[i] || op[i] as int == name[i] as int - 32)
  }

  lemma SpellingIsLowered(op: string, name: string)
    requires Spelled(op, name)
    ensures ToLower(op) == name
  {
  }

  // ---------------------------------------------------------- one condition

  /** The expression that demands one condition. */
  function Demand(field: string, op: string, value: Value): MatchSpec {
    map["all" := List([Mapping(map["field" := Str(field), "op" := Str(op), "value" := value], "")], "")]
  }

  lemma DemandIsOneCondition(lib: Lib, fields: Fields, field: string, op: string, value: Value)
    requires op != ""
    ensures Meaning(lib, fields, Demand(field, op, value)) ==
            ConditionMatches(lib, fields, Condition(field, op, value))
  {
    var spec := Demand(field, op, value);
    var item := Entry(spec, "all").items[0];
    var c := Condition(field, op, value);
    assert ConditionOf(item.entries) == c;
    assert [item][1..] == [] && [] + [c] == [c];
    assert ConditionsFrom([], [item]) == ConditionsFrom([c], []) == Ok([c]);
    assert ConditionsOf(Entry(spec, "all")) == Ok([c]);
    assert Entry(spec, "any") == Nil && Entry(spec, "not") == Nil && ConditionsOf(Nil) == Ok([]);
    OneCondition(lib, fields, c);
    assert Meaning(lib, fields, spec) == Combined(lib, fields, [c], [], []);
  }

  lemma OneCondition(lib: Lib, fields: Fields, c: Condition)
    ensures Combined(lib, fields, [c], [], []) == ConditionMatches(lib, fields, c)
  {
    assert [c][1..] == [];
    assert AllHold(lib, fields, []) == Ok(true);
    var r := ConditionMatches(lib, fields, c);
    assert AllHold(lib, fields, [c]) == r;
    assert SomeHolds(lib, fields, []) == Ok(false);
  }

  /** OIDs are compared up to blanks around them and one leading dot, everything else as it is written. */
  function Compared(field: string, text: string): string {
    if field in {"trap_oid", "enterprise_oid"} || "varbind." <= field || "varbind:" <= field then Normalize(text)
    else text
  }

  /** The text a condition looks at, and the text it is given. */
  function Actual(fields: Fields, field: string): string {
    Compared(field, ResolveField(fields, field))
  }

  function Expected(field: string, value: Value): string {
    Compared(field, if value.Nil? then "<nil>" else value.text)
  }

  lemma EqMeans(lib: Lib, fields: Fields, field: string, op: string, value: Value)
    requires Spelled(op, "eq")
    ensures Meaning(lib, fields, Demand(field, op, value)) == Ok(Actual(fields, field) == Expected(field, value))
  {
    SpellingIsLowered(op, "eq");
    DemandIsOneCondition(lib, fields, field, op, value);
  }

  /** A condition without an operator demands equality. */
  lemma DefaultIsEq(lib: Lib, fields: Fields, field: string, value: Value)
    ensures Meaning(lib, fields, Demand(field, "", value)) == Meaning(lib, fields, Demand(field, "eq", value))
  {
    var plain, named := Demand(field, "", value), Demand(field, "eq", value);
    var a, b := Entry(plain, "all").items[0], Entry(named, "all").items[0];
    assert ConditionOf(a.entries) == ConditionOf(b.entries);
    assert [a][1..] == [] && [b][1..] == [];
    assert ConditionsFrom([], [a]) == ConditionsFrom([] + [ConditionOf(a.entries)], []);
    assert ConditionsFrom([], [b]) == ConditionsFrom([] + [ConditionOf(b.entries)], []);
    assert ConditionsOf(Entry(plain, "all")) == ConditionsOf(Entry(named, "all"));
    assert Entry(plain, "any") == Entry(named, "any") == Nil && Entry(plain, "not") == Entry(named, "not") == Nil;
  }

  lemma NeMeans(lib: Lib, fields: Fields, field: string, op: string, value: Value)
    requires Spelled(op, "ne")
    ensures Meaning(lib, fields, Demand(field, op, value)) == Ok(Actual(fields, field) != Expected(field, value))
  {
    SpellingIsLowered(op, "ne");
    DemandIsOneCondition(lib, fields, field, op, value);
  }

  lemma ExistsMeans(lib: Lib, fields: Fields, field: string, op: string, value: Value)
    requires Spelled(op, "exists")
    ensures Meaning(lib, fields, Demand(field, op, value)) == Ok(Actual(fields, field) != "")
  {
    SpellingIsLowered(op, "exists");
    DemandIsOneCondition(lib, fields, field, op, value);
  }

  lemma PrefixMeans(lib: Lib, fields: Fields, field: string, op: string, value: Value)
    requires Spelled(op, "prefix")
    ensures Meaning(lib, fields, Demand(field, op, value)).Ok?
    ensures Meaning(lib, fields, Demand(field, op, value)).value <==>
            exists rest :: Actual(fields, field) == Expected(field, value) + rest
  {
    var actual, expected := Actual(fields, field), Expected(field, value);
    SpellingIsLowered(op, "prefix");
    DemandIsOneCondition(lib, fields, field, op, value);
    if expected <= actual { assert actual == expected + actual[|expected|..]; }
  }

  lemma SuffixMeans(lib: Lib, fields: Fields, field: string, op: string, value: Value)
    requires Spelled(op, "suffix")
    ensures Meaning(lib, fields, Demand(field, op, value)).Ok?
    ensures Meaning(lib, fields, Demand(field, op, value)).value <==>
            exists front :: Actual(fields, field) == front + Expected(field, value)
  {
    var actual, expected := Actual(fields, field), Expected(field, value);
    SpellingIsLowered(op, "suffix");
    DemandIsOneCondition(lib, fields, field, op, value);
    if HasSuffix(actual, expected) { assert actual == actual[..|actual| - |expected|] + expected; }
    forall front | actual == front + expected ensures HasSuffix(actual, expected) {
      assert actual[|actual| - |expected|..] == expected;
    }
  }

  lemma {:induction false} ContainsIff(s: string, p: string)
    ensures Contains(s, p) <==> exists front, rest :: s == front + p + rest
  {
    if p <= s {
      assert s == [] + p + s[|p|..];
    } else if s != [] {
      ContainsIff(s[1..], p);
      if Contains(s[1..], p) {
        var front, rest :| s[1..] == front + p + rest;
        assert s == [s[0]] + front + p + rest;
      }
      forall front, rest | s == front + p + rest ensures Contains(s[1..], p) {
        assert front == [] ==> s == p + rest;
        assert s[1..] == front[1..] + p + rest;
      }
    }
  }

  lemma ContainsMeans(lib: Lib, fields: Fields, field: string, op: string, value: Value)
    requires Spelled(op, "contains")
    ensures Meaning(lib, fields, Demand(field, op, value)).Ok?
    ensures Meaning(lib, fields, Demand(field, op, value)).value <==>
            exists front, rest :: Actual(fields, field) == front + Expected(field, value) + rest
  {
    SpellingIsLowered(op, "contains");
    DemandIsOneCondition(lib, fields, field, op, value);
    ContainsIff(Actual(fields, field), Expected(field, value));
  }

  /** A membership condition holds exactly when an equality with one of the listed values does. */
  lemma InMeans(lib: Lib, fields: Fields, field: string, op: string, values: seq<Value>, text: string)
    requires Spelled(op, "in")
    ensures Meaning(lib, fields, Demand(field, op, List(values, text))).Ok?
    ensures Meaning(lib, fields, Demand(field, op, List(values, text))).value <==>
            exists v | v in values :: Meaning(lib, fields, Demand(field, "eq", v)) == Ok(true)
  {
    SpellingIsLowered(op, "in");
    DemandIsOneCondition(lib, fields, field, op, List(values, text));
    forall v | v in values
      ensures Meaning(lib, fields, Demand(field, "eq", v)) == Ok(Actual(fields, field) == Expected(field, v))
    {
      EqMeans(lib, fields, field, "eq", v);
    }
  }

  /** A value that is not a list has no members. */
  lemma InNeedsList(lib: Lib, fields: Fields, field: string, op: string, value: Value)
    requires Spelled(op, "in") && !value.List?
    ensures Meaning(lib, fields, Demand(field, op, value)) == Ok(false)
  {
    SpellingIsLowered(op, "in");
    DemandIsOneCondition(lib, fields, field, op, value);
  }

  /** A regular expression decides, and errs when it is invalid. */
  lemma RegexMeans(lib: Lib, fields: Fields, field: string, op: string, value: Value)
    requires Spelled(op, "regex")
    ensures Meaning(lib, fields, Demand(field, op, value)) ==
            match lib.regex(Expected(field, value), Actual(fields, field))
            case Some(matched) => Ok(matched)
            case None => Err(BadRegex)
  {
    SpellingIsLowered(op, "regex");
    DemandIsOneCondition(lib, fields, field, op, value);
  }

  /** An operator that is none of the known ones errs. */
  lemma UnknownOperatorErrs(lib: Lib, fields: Fields, field: string, op: string, value: Value)
    requires op != "" && ToLower(op) !in {"exists", "eq", "ne", "contains", "prefix", "suffix", "regex", "in"}
    requires ToLower(op) !in {"gt", "ge", "lt", "le"}
    ensures Meaning(lib, fields, Demand(field, op, value)) == Err(UnsupportedOperator)
  {
    DemandIsOneCondition(lib, fields, field, op, value);
  }

  // ------------------------------------------------------------- comparisons

  /** The event's text and the value's text as numbers; the value's text is not normalized. */
  predicate BothNumbers(lib: Lib, fields: Fields, field: string, value: Value) {
    lib.number(Actual(fields, field)).Some? && lib.number(Sprint(value)).Some?
  }

  /** The event's number is finite, and so is the value's. */
  predicate BothFinite(lib: Lib, fields: Fields, field: string, value: Value, x: real, y: real) {
    lib.number(Actual(fields, field)) == Some(Finite(x)) && lib.number(Sprint(value)) == Some(Finite(y))
  }

  /** A comparison operator compares the event's text with the value's. */
  lemma ComparisonIs(lib: Lib, fields: Fields, field: string, name: string, op: string, value: Value)
    requires name in {"gt", "ge", "lt", "le"} && Spelled(op, name)
    ensures Meaning(lib, fields, Demand(field, op, value)) ==
            Ok(Compares(lib, name, Actual(fields, field), Sprint(value)))
  {
    SpellingIsLowered(op, name);
    DemandIsOneCondition(lib, fields, field, op, value);
  }

  /** Finite numbers compare as they should. */
  lemma ComparisonMeans(lib: Lib, fields: Fields, field: string, name: string, op: string, value: Value,
                        x: real, y: real)
    requires BothFinite(lib, fields, field, value, x, y)
    requires name in {"gt", "ge", "lt", "le"} && Spelled(op, name)
    ensures Meaning(lib, fields, Demand(field, op, value)) ==
            Ok(match name case "gt" => x > y case "ge" => x >= y case "lt" => x < y case _ => x <= y)
  {
    ComparisonIs(lib, fields, field, name, op, value);
  }

  /** The infinities lie beyond all other numbers, and of two numbers that differ exactly one is less. */
  lemma NumbersAreOrdered(a: Number, b: Number)
    requires !a.NaN? && !b.NaN?
    ensures Less(a, b) <==> a != b && !Less(b, a)
    ensures Less(a, b) ==
            (a != b && (a == Infinite(false) || b == Infinite(true) || (a.Finite? && b.Finite? && a.value < b.value)))
  {
  }

  /** The same for any two numbers, infinities included. */
  lemma NumberComparisonMeans(lib: Lib, fields: Fields, field: string, name: string, op: string, value: Value,
                              a: Number, b: Number)
    requires lib.number(Actual(fields, field)) == Some(a) && lib.number(Sprint(value)) == Some(b)
    requires !a.NaN? && !b.NaN? && name in {"gt", "ge", "lt", "le"} && Spelled(op, name)
    ensures Meaning(lib, fields, Demand(field, op, value)) ==
            Ok(match name
               case "gt" => Less(b, a)
               case "ge" => !Less(a, b)
               case "lt" => Less(a, b)
               case _ => !Less(b, a))
  {
    ComparisonIs(lib, fields, field, name, op, value);
    NumbersAreOrdered(a, b);
  }

  /** A comparison with something that is no number, or not a number, is false whatever the operator. */
  lemma NoNumberNoOrder(lib: Lib, fields: Fields, field: string, name: string, op: string, value: Value)
    requires name in {"gt", "ge", "lt", "le"} && Spelled(op, name)
    requires !BothNumbers(lib, fields, field, value) ||
             lib.number(Actual(fields, field)) == Some(NaN) || lib.number(Sprint(value)) == Some(NaN)
    ensures Meaning(lib, fields, Demand(field, op, value)) == Ok(false)
  {
    ComparisonIs(lib, fields, field, name, op, value);
  }

  // ------------------------------------------------------------- flat entries

  /** The expression has an `all` entry of any kind, or an `any` or `not` entry that is not null. */
  predicate HasLists(spec: MatchSpec) {
    "all" in spec || ("any" in spec && spec["any"] != Nil) || ("not" in spec && spec["not"] != Nil)
  }

  lemma ListModeIff(spec: MatchSpec)
    ensures ListMode(spec) <==> HasLists(spec)
  {
  }

  /** An `all` entry that is null demands nothing, and hides the entries beside it. */
  lemma NullAllMatches(lib: Lib, fields: Fields, spec: MatchSpec)
    requires "all" in spec && spec["all"] == Nil && "any" !in spec && "not" !in spec
    ensures Meaning(lib, fields, spec) == Ok(true)
  {
    assert Entry(spec, "all") == Nil && Entry(spec, "any") == Nil && Entry(spec, "not") == Nil;
  }

  /** Without lists, an expression demands equality of every entry. */
  lemma FlatExpressionMatchesIff(lib: Lib, fields: Fields, spec: MatchSpec)
    requires !HasLists(spec)
    ensures Meaning(lib, fields, spec) ==
            Ok(forall field | field in spec :: Actual(fields, field) == Expected(field, spec[field]))
  {
    forall field | field in spec
      ensures FlatHolds(fields, spec, field) <==> Actual(fields, field) == Expected(field, spec[field])
    {
    }
  }

  // ------------------------------------------------------------------ errors

  lemma {:induction false} ConditionsErrIff(acc: seq<Condition>, items: seq<Value>)
    ensures ConditionsFrom(acc, items).Err? <==> exists item | item in items :: !item.Mapping?
    ensures ConditionsFrom(acc, items).Err? ==> ConditionsFrom(acc, items) == Err(NotAMapping)
    decreases items
  {
    if items != [] && items[0].Mapping? {
      ConditionsErrIff(acc + [ConditionOf(items[0].entries)], items[1..]);
      assert forall item | item in items :: item == items[0] || item in items[1..];
    }
  }

  /** A list is malformed if it is neither a list nor null, or one of its items is no mapping. */
  lemma MalformedListIff(v: Value)
    ensures ConditionsOf(v) == Err(NotAList) <==> v != Nil && !v.List?
    ensures ConditionsOf(v) == Err(NotAMapping) <==> v.List? && exists item | item in v.items :: !item.Mapping?
    ensures ConditionsOf(v).Err? ==> ConditionsOf(v) in {Err(NotAList), Err(NotAMapping)}
  {
    if v.List? { ConditionsErrIff([], v.items); }
  }

  /** Condition i is the first one that does not simply hold. */
  predicate FirstNotHolding(lib: Lib, fields: Fields, conds: seq<Condition>, i: int) {
    0 <= i < |conds| && !Holds(lib, fields, conds[i]) && forall j | 0 <= j < i :: Holds(lib, fields, conds[j])
  }

  lemma {:induction false} FirstNotHoldingDecides(lib: Lib, fields: Fields, conds: seq<Condition>, i: nat)
    requires FirstNotHolding(lib, fields, conds, i)
    ensures AllHold(lib, fields, conds) == ConditionMatches(lib, fields, conds[i])
  {
    if i > 0 {
      assert Holds(lib, fields, conds[0]);
      assert forall j | 0 <= j < |conds| - 1 :: conds[1..][j] == conds[j + 1];
      FirstNotHoldingDecides(lib, fields, conds[1..], i - 1);
    }
  }

  /** A list errs at a condition that is reached: everything before it is as it must be to go on. */
  predicate ErrsInAll(lib: Lib, fields: Fields, conds: seq<Condition>) {
    exists i | 0 <= i < |conds| ::
      FirstNotHolding(lib, fields, conds, i) && ConditionMatches(lib, fields, conds[i]).Err?
  }

  predicate ErrsInSome(lib: Lib, fields: Fields, conds: seq<Condition>) {
    exists i | 0 <= i < |conds| ::
      FirstNotFailing(lib, fields, conds, i) && ConditionMatches(lib, fields, conds[i]).Err?
  }

  /** Only one condition is the first that does not hold, and only one the first that does not fail. */
  lemma FirstIsOne(lib: Lib, fields: Fields, conds: seq<Condition>, i: int, j: int)
    ensures FirstNotHolding(lib, fields, conds, i) && FirstNotHolding(lib, fields, conds, j) ==> i == j
    ensures FirstNotFailing(lib, fields, conds, i) && FirstNotFailing(lib, fields, conds, j) ==> i == j
  {
  }

  lemma AllErrsIff(lib: Lib, fields: Fields, conds: seq<Condition>)
    ensures AllHold(lib, fields, conds).Err? <==> ErrsInAll(lib, fields, conds)
  {
    if AllTrue(lib, fields, conds) {
      AllHoldIff(lib, fields, conds);
    } else {
      var i := FirstThatDoesNotHold(lib, fields, conds);
      FirstNotHoldingDecides(lib, fields, conds, i);
      forall j | FirstNotHolding(lib, fields, conds, j) ensures j == i {
        FirstIsOne(lib, fields, conds, i, j);
      }
    }
  }

  lemma FirstThatDoesNotHold(lib: Lib, fields: Fields, conds: seq<Condition>) returns (i: nat)
    requires exists j | 0 <= j < |conds| :: !Holds(lib, fields, conds[j])
    ensures FirstNotHolding(lib, fields, conds, i)
  {
    var marks := seq(|conds|, j requires 0 <= j < |conds| => !Holds(lib, fields, conds[j]));
    var j :| 0 <= j < |conds| && !Holds(lib, fields, conds[j]);
    assert marks[j];
    i := FirstMarked(marks);
    assert forall k | 0 <= k <= i :: marks[k] == !Holds(lib, fields, conds[k]);
  }

  lemma SomeErrsIff(lib: Lib, fields: Fields, conds: seq<Condition>)
    ensures SomeHolds(lib, fields, conds).Err? <==> ErrsInSome(lib, fields, conds)
  {
    if AllFalse(lib, fields, conds) {
      NoneHoldsIff(lib, fields, conds);
    } else {
      var i := FirstThatDoesNotFail(lib, fields, conds);
      FirstNotFailingDecides(lib, fields, conds, i);
      forall j | FirstNotFailing(lib, fields, conds, j) ensures j == i {
        FirstIsOne(lib, fields, conds, i, j);
      }
    }
  }

  lemma FirstThatDoesNotFail(lib: Lib, fields: Fields, conds: seq<Condition>) returns (i: nat)
    requires exists j | 0 <= j < |conds| :: !Fails(lib, fields, conds[j])
    ensures FirstNotFailing(lib, fields, conds, i)
  {
    var marks := seq(|conds|, j requires 0 <= j < |conds| => !Fails(lib, fields, conds[j]));
    var j :| 0 <= j < |conds| && !Fails(lib, fields, conds[j]);
    assert marks[j];
    i := FirstMarked(marks);
    assert forall k | 0 <= k <= i :: marks[k] == !Fails(lib, fields, conds[k]);
  }

  /**
   Errors of a list expression: it errs exactly when one of its lists is malformed or an erring
   condition is reached: in `all` behind conditions that hold; in `any`, if all of `all` hold, behind
   conditions that fail; in `not`, if moreover `any` is empty or has a condition that holds, behind
   conditions that fail.
   */
  lemma ListExpressionErrsIff(lib: Lib, fields: Fields, spec: MatchSpec)
    requires HasLists(spec)
    ensures Meaning(lib, fields, spec).Err? <==>
            var all, some := ConditionsOf(Entry(spec, "all")), ConditionsOf(Entry(spec, "any"));
            var none := ConditionsOf(Entry(spec, "not"));
            || all.Err? || some.Err? || none.Err?
            || ErrsInAll(lib, fields, all.value)
            || (AllTrue(lib, fields, all.value) &&
                (ErrsInSome(lib, fields, some.value) ||
                 ((some.value == [] || SomeHoldsFirst(lib, fields, some.value)) &&
                  ErrsInSome(lib, fields, none.value))))
  {
    ListModeIff(spec);
    assert "all" in spec || "any" in spec || "not" in spec;
    var all, some := ConditionsOf(Entry(spec, "all")), ConditionsOf(Entry(spec, "any"));
    var none := ConditionsOf(Entry(spec, "not"));
    if all.Ok? && some.Ok? && none.Ok? {
      AllHoldIff(lib, fields, all.value);
      SomeHoldsIff(lib, fields, some.value);
      AllErrsIff(lib, fields, all.value);
      SomeErrsIff(lib, fields, some.value);
      SomeErrsIff(lib, fields, none.value);
    }
  }

  // ------------------------------------------------------------------- fields

  /** A field that is stored is found under its own name, and otherwise under its name behind "fields.". */
  lemma FieldSpellings(fields: Fields, name: string)
    requires name in fields && name != ""
    ensures ResolveField(fields, name) == fields[name]
    ensures "fields." + name !in fields ==> ResolveField(fields, "fields." + name) == fields[name]
  {
    var spelled := "fields." + name;
    assert spelled[7..] == name && "fields." <= spelled;
  }

  /** A name that is not stored and is no varbind's resolves to nothing. */
  lemma AbsentFieldIsEmpty(fields: Fields, name: string)
    requires name !in fields && !("varbind." <= name) && !("varbind:" <= name)
    requires "fields." <= name ==> name[7..] !in fields
    ensures ResolveField(fields, name) == ""
  {
  }
}
