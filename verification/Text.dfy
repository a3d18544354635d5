/**
 The string library the relay leans on. A Go string is a sequence of bytes; here it is a
 sequence of characters, one character for each byte.
 */
module Text {
  import opened Basics

  function Digit(d: int): char
    requires 0 <= d < 10
  {
    (48 + d) as char
  }

  /** Decimal text of a natural number. */
  function Decimal(n: nat): (s: string)
    ensures |s| > 0 && forall c | c in s :: '0' <= c <= '9'
  {
    if n < 10 then [Digit(n)] else Decimal(n / 10) + [Digit(n % 10)]
  }

  /** Decimal text of any integer, as the %d verb writes it. */
  function DecimalInt(n: int): string {
    if n < 0 then "-" + Decimal(-n) else Decimal(n)
  }

  /** A byte that continues a multi-byte code point. */
  predicate IsTail(c: char) {
    0x80 <= c as int < 0xC0
  }

  function TailBits(c: char): int {
    c as int % 0x40
  }

  /** The second byte a three- or four-byte code point allows: no overlong forms, surrogates or excess. */
  predicate IsSecond(first: char, c: char) {
    var b, d := first as int, c as int;
    && IsTail(c)
    && (b == 0xE0 ==> d >= 0xA0) && (b == 0xED ==> d < 0xA0)
    && (b == 0xF0 ==> d >= 0x90) && (b == 0xF4 ==> d < 0x90)
  }

  /**
   The code point at the front of a text and its number of bytes, as a range loop over a Go string
   reads them: UTF-8, with a malformed byte standing for U+FFFD.
   */
  function FirstRune(s: string): (r: (int, nat))
    requires s != []
    ensures 1 <= r.1 <= |s|
    ensures s[0] as int < 0x80 ==> r == (s[0] as int, 1)
  {
    var b := s[0] as int;
    if b < 0x80 then (b, 1)
    else if 0xC2 <= b < 0xE0 && |s| >= 2 && IsTail(s[1]) then ((b - 0xC0) * 0x40 + TailBits(s[1]), 2)
    else if 0xE0 <= b < 0xF0 && |s| >= 3 && IsSecond(s[0], s[1]) && IsTail(s[2]) then
      (((b - 0xE0) * 0x40 + TailBits(s[1])) * 0x40 + TailBits(s[2]), 3)
    else if 0xF0 <= b < 0xF5 && |s| >= 4 && IsSecond(s[0], s[1]) && IsTail(s[2]) && IsTail(s[3]) then
      ((((b - 0xF0) * 0x40 + TailBits(s[1])) * 0x40 + TailBits(s[2])) * 0x40 + TailBits(s[3]), 4)
    else (0xFFFD, 1)
  }

  /** One more decimal digit in 64-bit arithmetic, whatever the code point is. */
  function AddDigit(n: int, rune: int): int {
    Wrap64(n * 10 + (rune - '0' as int))
  }

  /** What reading a decimal text left to right makes of the accumulator. */
  function AtoiFrom(n: int, s: string): int
    decreases |s|
  {
    if s == [] then n
    else
      var (rune, size) := FirstRune(s);
      AtoiFrom(AddDigit(n, rune), s[size..])
  }

  function Atoi(s: string): int {
    AtoiFrom(0, s)
  }

  /** No character of the text is part of a multi-byte code point. */
  predicate IsAscii(s: string) {
    forall i | 0 <= i < |s| :: s[i] as int < 0x80
  }

  lemma AtoiAscii(n: int, s: string)
    requires s != [] && s[0] as int < 0x80
    ensures AtoiFrom(n, s) == AtoiFrom(AddDigit(n, s[0] as int), s[1..])
  {
  }

  lemma {:induction false} AtoiAppend(n: int, s: string, d: char)
    requires IsAscii(s) && d as int < 0x80
    ensures AtoiFrom(n, s + [d]) == AddDigit(AtoiFrom(n, s), d as int)
    decreases |s|
  {
    AtoiAscii(n, s + [d]);
    if s == [] {
      assert (s + [d])[1..] == [];
    } else {
      AtoiAscii(n, s);
      assert (s + [d])[1..] == s[1..] + [d];
      AtoiAppend(AddDigit(n, s[0] as int), s[1..], d);
    }
  }

  lemma {:induction false} AtoiOfDecimal(n: nat)
    requires n <= INT64_MAX
    ensures Atoi(Decimal(n)) == n
  {
    if n < 10 {
      AtoiAscii(0, Decimal(n));
    } else {
      AtoiOfDecimal(n / 10);
      assert forall i | 0 <= i < |Decimal(n / 10)| :: Decimal(n / 10)[i] in Decimal(n / 10);
      AtoiAppend(0, Decimal(n / 10), Digit(n % 10));
    }
  }

  /** The parts joined with a dot between neighbours. */
  function JoinDots(parts: seq<string>): string {
    if parts == [] then ""
    else if |parts| == 1 then parts[0]
    else JoinDots(parts[..|parts| - 1]) + "." + parts[|parts| - 1]
  }

  /** The pieces of a text between its dots; a text without a dot is one piece. */
  function SplitDots(s: string): (parts: seq<string>)
    ensures |parts| >= 1
  {
    if s == [] then [""]
    else
      var rest := SplitDots(s[1..]);
      if s[0] == '.' then [""] + rest else [[s[0]] + rest[0]] + rest[1..]
  }

  lemma {:induction false} SplitOfDotFree(p: string)
    requires '.' !in p
    ensures SplitDots(p) == [p]
  {
    if p != [] {
      SplitOfDotFree(p[1..]);
      assert [p[0]] + p[1..] == p;
    }
  }

  lemma {:induction false} SplitAppend(s: string, p: string)
    requires '.' !in p
    ensures SplitDots(s + "." + p) == SplitDots(s) + [p]
  {
    var all := s + "." + p;
    if s == [] {
      assert all[1..] == p;
      SplitOfDotFree(p);
    } else {
      SplitAppend(s[1..], p);
      assert all[1..] == s[1..] + "." + p;
      var r := SplitDots(s[1..]);
      assert (r + [p])[0] == r[0] && (r + [p])[1..] == r[1..] + [p];
    }
  }

  /** Splitting undoes joining whenever no part contains a dot. */
  lemma {:induction false} SplitOfJoin(parts: seq<string>)
    requires |parts| >= 1
    requires forall p | p in parts :: '.' !in p
    ensures SplitDots(JoinDots(parts)) == parts
  {
    var n := |parts| - 1;
    if n == 0 {
      SplitOfDotFree(parts[0]);
    } else {
      SplitOfJoin(parts[..n]);
      SplitAppend(JoinDots(parts[..n]), parts[n]);
      assert parts[..n] + [parts[n]] == parts;
    }
  }

  predicate IsSpace(c: char) {
    c == ' ' || c == '\t' || c == '\n' || c == '\r' || c as int == 11 || c as int == 12
  }

  function TrimLeft(s: string): string {
    if s != [] && IsSpace(s[0]) then TrimLeft(s[1..]) else s
  }

  function TrimRight(s: string): string {
    if s != [] && IsSpace(s[|s| - 1]) then TrimRight(s[..|s| - 1]) else s
  }

  function TrimSpace(s: string): string {
    TrimRight(TrimLeft(s))
  }

  predicate HasPrefix(s: string, p: string) {
    p <= s
  }

  predicate HasSuffix(s: string, p: string) {
    |p| <= |s| && s[|s| - |p|..] == p
  }

  predicate Contains(s: string, p: string) {
    HasPrefix(s, p) || (s != [] && Contains(s[1..], p))
  }

  function TrimPrefix(s: string, p: string): string {
    if HasPrefix(s, p) then s[|p|..] else s
  }

  function ToLower(s: string): (r: string)
    ensures |r| == |s|
  {
    seq(|s|, i requires 0 <= i < |s| => if 'A' <= s[i] <= 'Z' then (s[i] as int + 32) as char else s[i])
  }

  function HexDigit(d: int): char
    requires 0 <= d < 16
  {
    if d < 10 then (48 + d) as char else (87 + d) as char
  }

  function HexByte(b: byte): string {
    [HexDigit(b / 16), HexDigit(b % 16)]
  }

  function Hex(data: seq<byte>): string {
    if data == [] then "" else HexByte(data[0]) + Hex(data[1..])
  }

  /** The conversion between a byte slice and a string, in both directions. */
  function FromBytes(data: seq<byte>): (s: string)
    ensures |s| == |data|
  {
    seq(|data|, i requires 0 <= i < |data| => data[i] as char)
  }

  function ToBytes(s: string): (data: seq<byte>)
    ensures |data| == |s|
  {
    seq(|s|, i requires 0 <= i < |s| => s[i] as int % 256)
  }

  /** True of the texts that stand for Go strings: every character is one byte. */
  predicate IsGoString(s: string) {
    forall c | c in s :: c as int < 256
  }

  lemma BytesOfText(s: string)
    requires IsGoString(s)
    ensures FromBytes(ToBytes(s)) == s
  {
    forall i | 0 <= i < |s| ensures FromBytes(ToBytes(s))[i] == s[i] {
      assert s[i] in s;
    }
  }
}
