/** OID text helpers (internal/oidutil/oidutil.go). */
module OidUtil {
  import opened Basics
  import opened Text

  /** Trims white space and one leading dot. */
  function Normalize(value: string): string {
    TrimPrefix(TrimSpace(value), ".")
  }

  /** The value under a key given with or without its leading dot. */
  function Lookup(m: map<string, string>, key: string): Option<string> {
    if key in m then Some(m[key])
    else
      var normalized := Normalize(key);
      if normalized != key && normalized in m then Some(m[normalized])
      else
        var dotted := "." + normalized;
        if dotted != key && dotted in m then Some(m[dotted]) else None
  }

  function Variants(value: string): seq<string> {
    var trimmed := TrimSpace(value);
    if trimmed == "" then []
    else
      var normalized := Normalize(trimmed);
      if normalized == trimmed then [normalized] else [normalized, trimmed]
  }

  /** A text that normalization leaves alone when it begins and ends with a visible character other than a dot. */
  lemma PlainIsNormal(s: string)
    requires s != "" ==> !IsSpace(s[0]) && s[0] != '.' && !IsSpace(s[|s| - 1])
    ensures Normalize(s) == s
  {
  }

  lemma {:induction false} LeftTrimmed(s: string)
    ensures var t := TrimLeft(s); t == "" || !IsSpace(t[0])
  {
    if s != [] && IsSpace(s[0]) { LeftTrimmed(s[1..]); }
  }

  /** Trimming on the right leaves a prefix with no blank at its end. */
  lemma {:induction false} RightTrimmed(s: string)
    ensures var t := TrimRight(s); t <= s && (t == "" || !IsSpace(t[|t| - 1]))
  {
    if s != [] && IsSpace(s[|s| - 1]) { RightTrimmed(s[..|s| - 1]); }
  }

  lemma TrimmedOnBothSides(s: string)
    ensures var t := TrimSpace(s); t == "" || (!IsSpace(t[0]) && !IsSpace(t[|t| - 1]))
  {
    LeftTrimmed(s);
    RightTrimmed(TrimLeft(s));
  }

  /** A text begins with neither a blank nor a dot. */
  predicate StartsPlain(s: string) {
    s == "" || (!IsSpace(s[0]) && s[0] != '.')
  }

  lemma {:induction false} RightTrimShortens(s: string)
    ensures |TrimRight(s)| <= |s|
  {
    if s != [] && IsSpace(s[|s| - 1]) { RightTrimShortens(s[..|s| - 1]); }
  }

  lemma {:induction false} LeftTrimShortens(s: string)
    ensures |TrimLeft(s)| <= |s|
  {
    if s != [] && IsSpace(s[0]) { LeftTrimShortens(s[1..]); }
  }

  /** Normalization removes a leading blank or dot, so no text that starts with one comes out unchanged. */
  lemma NormalStartsPlain(s: string)
    ensures Normalize(s) == s ==> StartsPlain(s)
  {
    if s != "" && IsSpace(s[0]) {
      LeftTrimShortens(s[1..]);
      RightTrimShortens(TrimLeft(s));
    } else if s != "" && s[0] == '.' {
      RightTrimShortens(s);
      RightTrimmed(s);
    }
  }

  /** A second normalization changes nothing exactly when the first leaves neither a dot nor a blank in front. */
  lemma NormalizeTwiceIff(s: string)
    ensures var n := Normalize(s); Normalize(n) == n <==> StartsPlain(n)
  {
    var n := Normalize(s);
    TrimmedOnBothSides(s);
    NormalStartsPlain(n);
    if StartsPlain(n) { PlainIsNormal(n); }
  }

  /** White space of one octet. */
  const BLANKS := {' ', '\t', '\n', '\U{0B}', '\U{0C}', '\r'}

  predicate Blank(s: string) {
    forall i | 0 <= i < |s| :: s[i] in BLANKS
  }

  lemma {:induction false} LeftTrims(before: string, s: string)
    requires Blank(before) && (s != "" ==> s[0] !in BLANKS)
    ensures TrimLeft(before + s) == s
  {
    if before != "" {
      assert (before + s)[1..] == before[1..] + s;
      LeftTrims(before[1..], s);
    } else {
      assert before + s == s;
    }
  }

  lemma {:induction false} RightTrims(s: string, after: string)
    requires Blank(after) && (s != "" ==> s[|s| - 1] !in BLANKS)
    ensures TrimRight(s + after) == s
  {
    if after != "" {
      assert (s + after)[..|s + after| - 1] == s + after[..|after| - 1];
      RightTrims(s, after[..|after| - 1]);
    } else {
      assert s + after == s;
    }
  }

  lemma TrimsBlanks(before: string, s: string, after: string)
    requires Blank(before) && Blank(after)
    requires s != "" ==> s[0] !in BLANKS && s[|s| - 1] !in BLANKS
    ensures TrimSpace(before + s + after) == s
  {
    assert before + s + after == before + (s + after);
    if s != "" {
      LeftTrims(before, s + after);
      RightTrims(s, after);
    } else {
      assert before + (s + after) == (before + after) + "";
      LeftTrims(before + after, "");
    }
  }

  /** Exactly the blanks on both sides and one dot go, whatever comes behind the dot. */
  lemma NormalizeStrips(before: string, dotted: bool, s: string, after: string)
    requires Blank(before) && Blank(after) && (s != "" ==> s[|s| - 1] !in BLANKS)
    requires !dotted && s != "" ==> s[0] !in BLANKS && s[0] != '.'
    ensures Normalize(before + (if dotted then "." + s else s) + after) == s
  {
    TrimsBlanks(before, if dotted then "." + s else s, after);
  }

  /** Normalization strips one dot only, so applying it twice may strip two. */
  lemma NormalizeIsNotIdempotent()
    ensures Normalize(Normalize("..1")) != Normalize("..1")
  {
    assert TrimSpace("..1") == "..1" && TrimSpace(".1") == ".1";
    assert Normalize("..1") == ".1" && Normalize(".1") == "1";
  }
}
