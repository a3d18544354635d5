/** Match expressions and dedup keys (internal/match/match.go). */
module Match {
  import opened Basics
  import opened Text
  import opened OidUtil
  import opened Config
  import opened Dedup

  /** What reading a decimal text can yield: a real number, an infinity, or no number at all. */
  datatype Number = NaN | Infinite(positive: bool) | Finite(value: real)

  /** Library services: regular expressions (None for an invalid pattern) and the reading of numbers. */
  datatype Lib = Lib(regex: (string, string) -> Option<bool>, number: string -> Option<Number>)

  datatype MatchError = NotAMapping | NotAList | BadRegex | UnsupportedOperator

  type Fields = map<string, string>

  // ------------------------------------------------------------------ fields

  function FirstPresent(fields: Fields, oids: seq<string>): string {
    if oids == [] then ""
    else if "varbind." + oids[0] in fields then fields["varbind." + oids[0]]
    else FirstPresent(fields, oids[1..])
  }

  function ResolveField(fields: Fields, field: string): string {
    if field == "" then ""
    else if field in fields then fields[field]
    else if HasPrefix(field, "fields.") && field[7..] in fields then fields[field[7..]]
    else if HasPrefix(field, "varbind.") then FirstPresent(fields, Variants(field[8..]))
    else if HasPrefix(field, "varbind:") then FirstPresent(fields, Variants(field[8..]))
    else ""
  }

  predicate IsOidField(field: string) {
    field == "trap_oid" || field == "enterprise_oid" || HasPrefix(field, "varbind.") || HasPrefix(field, "varbind:")
  }

  /** A text as it is compared under the given field. */
  function Canonical(field: string, text: string): string {
    if IsOidField(field) then Normalize(text) else text
  }

  // -------------------------------------------------------------- conditions

  datatype Condition = Condition(field: string, op: string, value: Value)

  function Entry(entries: map<string, Value>, key: string): Value {
    if key in entries then entries[key] else Nil
  }

  function StringAt(entries: map<string, Value>, key: string): string {
    var v := Entry(entries, key);
    if v.Str? then v.text else ""
  }

  function ConditionOf(entries: map<string, Value>): Condition {
    var op := StringAt(entries, "op");
    Condition(StringAt(entries, "field"), if op == "" then "eq" else op, Entry(entries, "value"))
  }

  function ConditionsFrom(acc: seq<Condition>, items: seq<Value>): Result<seq<Condition>, MatchError>
    decreases items
  {
    if items == [] then Ok(acc)
    else if !items[0].Mapping? then Err(NotAMapping)
    else ConditionsFrom(acc + [ConditionOf(items[0].entries)], items[1..])
  }

  function ConditionsOf(v: Value): Result<seq<Condition>, MatchError> {
    match v
    case List(items, _) => ConditionsFrom([], items)
    case Nil => Ok([])
    case _ => Err(NotAList)
  }

  method ParseConditionList(v: Value) returns (r: Result<seq<Condition>, MatchError>)
    ensures r == ConditionsOf(v)
  {
    match v
    case Nil => return Ok([]);
    case List(items, _) =>
      var conds: seq<Condition> := [];
      var i := 0;
      while i < |items|
        invariant 0 <= i <= |items|
        invariant ConditionsOf(v) == ConditionsFrom(conds, items[i..])
      {
        if !items[i].Mapping? { return Err(NotAMapping); }
        conds := conds + [ConditionOf(items[i].entries)];
        i := i + 1;
      }
      return Ok(conds);
    case _ => return Err(NotAList);
  }

  /** The order of floating-point numbers, in which a NaN is neither less than nor equal to anything. */
  predicate Less(a: Number, b: Number) {
    match (a, b)
    case (Finite(x), Finite(y)) => x < y
    case (Finite(_), Infinite(positive)) => positive
    case (Infinite(positive), Finite(_)) => !positive
    case (Infinite(p), Infinite(q)) => !p && q
    case _ => false
  }

  predicate Equal(a: Number, b: Number) {
    !a.NaN? && a == b
  }

  /** A comparison by operator name; a text that is no number compares false. */
  predicate Compares(lib: Lib, op: string, left: string, right: string) {
    var l, r := lib.number(left), lib.number(right);
    if l.None? || r.None? then false
    else if op == "gt" then Less(r.value, l.value)
    else if op == "ge" then Less(r.value, l.value) || Equal(l.value, r.value)
    else if op == "lt" then Less(l.value, r.value)
    else Less(l.value, r.value) || Equal(l.value, r.value)
  }

  predicate InList(actual: string, field: string, items: seq<Value>) {
    exists v | v in items :: actual == Canonical(field, Sprint(v))
  }

  function ConditionMatches(lib: Lib, fields: Fields, c: Condition): Result<bool, MatchError> {
    var actual := Canonical(c.field, ResolveField(fields, c.field));
    var expected := Canonical(c.field, Sprint(c.value));
    var op := ToLower(c.op);
    if op == "exists" then Ok(actual != "")
    else if op == "eq" then Ok(actual == expected)
    else if op == "ne" then Ok(actual != expected)
    else if op == "contains" then Ok(Contains(actual, expected))
    else if op == "prefix" then Ok(HasPrefix(actual, expected))
    else if op == "suffix" then Ok(HasSuffix(actual, expected))
    else if op == "regex" then
      (match lib.regex(expected, actual)
       case Some(b) => Ok(b)
       case None => Err(BadRegex))
    else if op == "in" then Ok(c.value.List? && InList(actual, c.field, c.value.items))
    else if op in {"gt", "ge", "lt", "le"} then Ok(Compares(lib, op, actual, Sprint(c.value)))
    else Err(UnsupportedOperator)
  }

  /** True if every condition holds; the first one that fails or errs decides. */
  function AllHold(lib: Lib, fields: Fields, conds: seq<Condition>): Result<bool, MatchError> {
    if conds == [] then Ok(true)
    else
      match ConditionMatches(lib, fields, conds[0])
      case Err(e) => Err(e)
      case Ok(false) => Ok(false)
      case Ok(true) => AllHold(lib, fields, conds[1..])
  }

  /** True if some condition holds; the first one that holds or errs decides. */
  function SomeHolds(lib: Lib, fields: Fields, conds: seq<Condition>): Result<bool, MatchError> {
    if conds == [] then Ok(false)
    else
      match ConditionMatches(lib, fields, conds[0])
      case Err(e) => Err(e)
      case Ok(true) => Ok(true)
      case Ok(false) => SomeHolds(lib, fields, conds[1..])
  }

  // ----------------------------------------------------------------- specs

  /** The expression uses all, any or not; its other entries are then ignored. */
  predicate ListMode(spec: MatchSpec) {
    "all" in spec || !Entry(spec, "any").Nil? || !Entry(spec, "not").Nil?
  }

  function Combined(lib: Lib, fields: Fields, all: seq<Condition>, some: seq<Condition>, none: seq<Condition>)
    : Result<bool, MatchError>
  {
    match AllHold(lib, fields, all)
    case Err(e) => Err(e)
    case Ok(false) => Ok(false)
    case Ok(true) =>
      match if some == [] then Ok(true) else SomeHolds(lib, fields, some)
      case Err(e) => Err(e)
      case Ok(false) => Ok(false)
      case Ok(true) =>
        match SomeHolds(lib, fields, none)
        case Err(e) => Err(e)
        case Ok(b) => Ok(!b)
  }

  function FlatHolds(fields: Fields, spec: MatchSpec, field: string): bool
    requires field in spec
  {
    Canonical(field, Sprint(spec[field])) == Canonical(field, ResolveField(fields, field))
  }

  function Meaning(lib: Lib, fields: Fields, spec: MatchSpec): Result<bool, MatchError> {
    if spec == map[] then Ok(true)
    else if ListMode(spec) then
      match ConditionsOf(Entry(spec, "all"))
      case Err(e) => Err(e)
      case Ok(all) =>
        match ConditionsOf(Entry(spec, "any"))
        case Err(e) => Err(e)
        case Ok(some) =>
          match ConditionsOf(Entry(spec, "not"))
          case Err(e) => Err(e)
          case Ok(none) => Combined(lib, fields, all, some, none)
    else
      Ok(forall field | field in spec :: FlatHolds(fields, spec, field))
  }

  method CheckAll(lib: Lib, fields: Fields, conds: seq<Condition>) returns (r: Result<bool, MatchError>)
    ensures r == AllHold(lib, fields, conds)
  {
    var i := 0;
    while i < |conds|
      invariant 0 <= i <= |conds|
      invariant AllHold(lib, fields, conds) == AllHold(lib, fields, conds[i..])
    {
      var ok := ConditionMatches(lib, fields, conds[i]);
      if ok.Err? { return ok; }
      if !ok.value { return Ok(false); }
      i := i + 1;
    }
    r := Ok(true);
  }

  method CheckSome(lib: Lib, fields: Fields, conds: seq<Condition>) returns (r: Result<bool, MatchError>)
    ensures r == SomeHolds(lib, fields, conds)
  {
    var i := 0;
    while i < |conds|
      invariant 0 <= i <= |conds|
      invariant SomeHolds(lib, fields, conds) == SomeHolds(lib, fields, conds[i..])
    {
      var ok := ConditionMatches(lib, fields, conds[i]);
      if ok.Err? { return ok; }
      if ok.value { return Ok(true); }
      i := i + 1;
    }
    r := Ok(false);
  }

  /** The loop over a flat mapping, in whatever order the map yields its fields. */
  method CheckFlat(fields: Fields, spec: MatchSpec) returns (r: bool)
    ensures r <==> forall field | field in spec :: FlatHolds(fields, spec, field)
  {
    var rest := spec.Keys;
    while rest != {}
      invariant rest <= spec.Keys
      invariant forall field | field in spec && field !in rest :: FlatHolds(fields, spec, field)
      decreases |rest|
    {
      var field :| field in rest;
      rest := rest - {field};
      if !FlatHolds(fields, spec, field) { return false; }
    }
    r := true;
  }

  method Matches(lib: Lib, fields: Fields, spec: MatchSpec) returns (r: Result<bool, MatchError>)
    ensures r == Meaning(lib, fields, spec)
  {
    if spec == map[] { return Ok(true); }
    if !ListMode(spec) {
      var flat := CheckFlat(fields, spec);
      return Ok(flat);
    }
    var all := ParseConditionList(Entry(spec, "all"));
    if all.Err? { return Err(all.error); }
    var some := ParseConditionList(Entry(spec, "any"));
    if some.Err? { return Err(some.error); }
    var none := ParseConditionList(Entry(spec, "not"));
    if none.Err? { return Err(none.error); }
    r := CheckAll(lib, fields, all.value);
    if r != Ok(true) { return; }
    if some.value != [] {
      r := CheckSome(lib, fields, some.value);
      if r != Ok(true) { return; }
    }
    var excluded := CheckSome(lib, fields, none.value);
    if excluded.Err? { return excluded; }
    r := Ok(!excluded.value);
  }

  // ------------------------------------------------------------------- keys

  function MissingFields(fields: Fields, keyFields: seq<string>): seq<string> {
    if keyFields == [] then []
    else
      var last := keyFields[|keyFields| - 1];
      MissingFields(fields, keyFields[..|keyFields| - 1]) + if ResolveField(fields, last) == "" then [last] else []
  }

  function Items(fields: Fields, keyFields: seq<string>): (items: KeyHash)
    ensures |items| == |keyFields|
  {
    seq(|keyFields|, i requires 0 <= i < |keyFields| => KeyItem(keyFields[i], ResolveField(fields, keyFields[i])))
  }

  /** A key was asked for and no field of it is missing. */
  predicate Complete(fields: Fields, keyFields: seq<string>) {
    keyFields != [] && forall f | f in keyFields :: ResolveField(fields, f) != ""
  }

  datatype DedupKey = DedupKey(hash: KeyHash, missingFields: seq<string>)

  lemma MissingStep(fields: Fields, keyFields: seq<string>, i: nat)
    requires i < |keyFields|
    ensures MissingFields(fields, keyFields[..i + 1]) ==
            MissingFields(fields, keyFields[..i]) +
            if ResolveField(fields, keyFields[i]) == "" then [keyFields[i]] else []
    ensures Items(fields, keyFields[..i + 1]) ==
            Items(fields, keyFields[..i]) + [KeyItem(keyFields[i], ResolveField(fields, keyFields[i]))]
  {
    assert keyFields[..i + 1][..i] == keyFields[..i];
  }

  lemma {:induction false} NoneMissing(fields: Fields, keyFields: seq<string>)
    ensures MissingFields(fields, keyFields) == [] <==> forall f | f in keyFields :: ResolveField(fields, f) != ""
  {
    if keyFields != [] {
      var init, last := keyFields[..|keyFields| - 1], keyFields[|keyFields| - 1];
      NoneMissing(fields, init);
      assert keyFields == init + [last];
    }
  }

  method BuildDedupKey(fields: Fields, keyFields: seq<string>) returns (k: DedupKey)
    ensures k.missingFields == MissingFields(fields, keyFields)
    ensures k.hash == if Complete(fields, keyFields) then Items(fields, keyFields) else []
    ensures Complete(fields, keyFields) <==> k.missingFields == [] && k.hash != []
  {
    var items: KeyHash := [];
    var missing: seq<string> := [];
    var i := 0;
    while i < |keyFields|
      invariant 0 <= i <= |keyFields|
      invariant missing == MissingFields(fields, keyFields[..i])
      invariant missing == [] ==> items == Items(fields, keyFields[..i])
    {
      MissingStep(fields, keyFields, i);
      var value := ResolveField(fields, keyFields[i]);
      if value == "" {
        missing := missing + [keyFields[i]];
      } else {
        items := items + [KeyItem(keyFields[i], value)];
      }
      i := i + 1;
    }
    assert keyFields[..i] == keyFields;
    NoneMissing(fields, keyFields);
    if |missing| > 0 || |items| == 0 { return DedupKey([], missing); }
    k := DedupKey(items, []);
  }

  /** Keys over the same fields agree exactly when every field resolves to the same text. */
  lemma SameItemsIff(a: Fields, b: Fields, keyFields: seq<string>)
    ensures Items(a, keyFields) == Items(b, keyFields) <==>
            forall f | f in keyFields :: ResolveField(a, f) == ResolveField(b, f)
  {
    if Items(a, keyFields) == Items(b, keyFields) {
      forall i | 0 <= i < |keyFields| ensures ResolveField(a, keyFields[i]) == ResolveField(b, keyFields[i]) {
        assert Items(a, keyFields)[i] == Items(b, keyFields)[i];
      }
    }
  }
}
