/** The trap encoder of the load generator (cmd/snmptrap-relay-perf/main.go). */
module PerfEncoder {
  import opened Basics
  import opened Text

  datatype VarBind = VarBind(oid: string, value: seq<byte>)

  // ----------------------------------------------------------------- lengths

  /** Octets of n in base 256, most significant first, stopping at 0 or at the sign -1. */
  function Octets(n: int): (b: seq<byte>)
    ensures n != 0 && n != -1 ==> |b| > 0
    decreases if n < 0 then -n else n
  {
    if n == 0 || n == -1 then [] else Octets(n / 256) + [n % 256]
  }

  /** One turn of the encoding loops: the low octet moves to the front of what is collected. */
  lemma ShiftOctet(m: int, collected: seq<byte>)
    requires m != 0 && m != -1
    ensures Octets(m) + collected == Octets(m / 256) + ([m % 256] + collected)
  {
  }

  function LengthField(n: nat): seq<byte> {
    if n < 0x80 then [n] else [(0x80 + |Octets(n)|) % 256] + Octets(n)
  }

  method EncodeLength(n: nat) returns (r: seq<byte>)
    ensures r == LengthField(n)
  {
    if n < 0x80 { return [n]; }
    var tmp: seq<byte> := [];
    var m := n;
    while m > 0
      invariant m >= 0 && Octets(n) == Octets(m) + tmp
    {
      ShiftOctet(m, tmp);
      tmp := [m % 256] + tmp;
      m := m / 256;
    }
    r := [(0x80 + |tmp|) % 256] + tmp;
  }

  function Frame(tag: byte, value: seq<byte>): seq<byte> {
    [tag] + (LengthField(|value|) + value)
  }

  method EncodeTlv(tag: byte, value: seq<byte>) returns (r: seq<byte>)
    ensures r == Frame(tag, value)
  {
    var length := EncodeLength(|value|);
    r := [tag] + (length + value);
  }

  function Flatten(parts: seq<seq<byte>>): seq<byte> {
    if parts == [] then [] else Flatten(parts[..|parts| - 1]) + parts[|parts| - 1]
  }

  method Seq(parts: seq<seq<byte>>) returns (r: seq<byte>)
    ensures r == Frame(0x30, Flatten(parts))
  {
    var body: seq<byte> := [];
    var i := 0;
    while i < |parts|
      invariant 0 <= i <= |parts| && body == Flatten(parts[..i])
    {
      assert parts[..i + 1][..i] == parts[..i];
      body := body + parts[i];
      i := i + 1;
    }
    assert parts[..i] == parts;
    r := EncodeTlv(0x30, body);
  }

  // ---------------------------------------------------------------- integers

  /** The encoder's octets for n; at -1 it indexes an empty buffer and panics. */
  function IntegerBytes(n: int): Option<seq<byte>> {
    if n == 0 then Some([0])
    else if n == -1 then None
    else
      var buf := Octets(n);
      if n < 0 && buf[0] < 0x80 then Some([0xFF] + buf)
      else if n > 0 && buf[0] >= 0x80 then Some([0x00] + buf)
      else Some(buf)
  }

  method EncodeIntegerBytes(n: int) returns (r: Option<seq<byte>>)
    requires IsInt64(n)
    ensures r == IntegerBytes(n)
  {
    if n == 0 { return Some([0]); }
    var negative := n < 0;
    var buf: seq<byte> := [];
    var m := n;
    while m != 0 && m != -1
      invariant Octets(n) == Octets(m) + buf
      invariant m < 0 <==> negative
      invariant n == -1 ==> buf == []
      decreases if m < 0 then -m else m
    {
      ShiftOctet(m, buf);
      buf := [m % 256] + buf;
      m := m / 256;
    }
    assert Octets(n) == buf;
    if |buf| == 0 { return None; }
    if negative && buf[0] < 0x80 { buf := [0xFF] + buf; }
    if !negative && buf[0] >= 0x80 { buf := [0x00] + buf; }
    r := Some(buf);
  }

  // -------------------------------------------------------------------- OIDs

  /** Leading septets of n, each with its continuation bit set. */
  function Septets(n: nat): seq<byte> {
    if n == 0 then [] else Septets(n / 128) + [0x80 + n % 128]
  }

  /** A sub-identifier in base 128; a negative (wrapped) number yields no octet at all. */
  function Base128(n: int): seq<byte> {
    if n < 0 then [] else Septets(n / 128) + [n % 128]
  }

  predicate AreSeptets(b: seq<byte>) {
    forall i | 0 <= i < |b| :: b[i] < 128
  }

  /** The same septets without the continuation bits. */
  function PlainSeptets(n: nat): (b: seq<byte>)
    ensures AreSeptets(b)
  {
    if n == 0 then [] else PlainSeptets(n / 128) + [n % 128]
  }

  function Continued(b: seq<byte>): (c: seq<byte>)
    requires AreSeptets(b)
    ensures |c| == |b|
  {
    seq(|b|, i requires 0 <= i < |b| => 0x80 + b[i])
  }

  lemma {:induction false} SeptetsAreContinued(n: nat)
    ensures Septets(n) == Continued(PlainSeptets(n))
  {
    if n != 0 {
      SeptetsAreContinued(n / 128);
    }
  }

  /** The second loop: the continuation bit on every octet but the last. */
  method SetContinuationBits(plain: seq<byte>) returns (tmp: seq<byte>)
    requires AreSeptets(plain)
    ensures plain == [] ==> tmp == []
    ensures plain != [] ==> tmp == Continued(plain[..|plain| - 1]) + [plain[|plain| - 1]]
  {
    tmp := plain;
    var i := 0;
    while i < |tmp| - 1
      invariant 0 <= i <= |plain| && |tmp| == |plain| && (plain != [] ==> i < |plain|)
      invariant forall j | 0 <= j < i :: tmp[j] as int - 0x80 as int == plain[j] as int
      invariant forall j | i <= j < |plain| :: tmp[j] == plain[j]
    {
      tmp := tmp[i := 0x80 + tmp[i]];
      i := i + 1;
    }
  }

  method EncodeBase128(n: int) returns (tmp: seq<byte>)
    ensures tmp == Base128(n)
  {
    if n == 0 { return [0]; }
    tmp := [];
    var m := n;
    while m > 0
      invariant n > 0 ==> m >= 0 && PlainSeptets(n) == PlainSeptets(m) + tmp
      invariant n < 0 ==> m == n && tmp == []
    {
      tmp := [m % 128] + tmp;
      m := m / 128;
    }
    if n > 0 {
      SeptetsAreContinued(n / 128);
      assert tmp == PlainSeptets(n / 128) + [n % 128];
      assert tmp[..|tmp| - 1] == PlainSeptets(n / 128);
    }
    tmp := SetContinuationBits(tmp);
  }

  method MustAtoi(s: string) returns (n: int)
    ensures n == Atoi(s)
  {
    n := 0;
    var i := 0;
    while i < |s|
      invariant 0 <= i <= |s| && Atoi(s) == AtoiFrom(n, s[i..])
    {
      var (ch, size) := FirstRune(s[i..]);
      assert s[i..][size..] == s[i + size..];
      n := AddDigit(n, ch);
      i := i + size;
    }
    assert s[i..] == [];
  }

  /** Concatenated sub-identifiers of the third part onwards. */
  function Tail(parts: seq<string>): seq<byte> {
    if parts == [] then [] else Tail(parts[..|parts| - 1]) + Base128(Atoi(parts[|parts| - 1]))
  }

  lemma TailStep(parts: seq<string>, i: nat)
    requires i < |parts|
    ensures Tail(parts[..i + 1]) == Tail(parts[..i]) + Base128(Atoi(parts[i]))
  {
    assert parts[..i + 1][..i] == parts[..i];
  }

  /** The octet that packs the first two parts: the low byte of first*40 + second. */
  function FirstOctet(first: int, second: int): byte {
    Wrap64(first * 40 + second) % 256
  }

  function OidBytes(oid: string): Option<seq<byte>> {
    var parts := SplitDots(oid);
    if |parts| < 2 then None
    else Some([FirstOctet(Atoi(parts[0]), Atoi(parts[1]))] + Tail(parts[2..]))
  }

  method EncodeTail(rest: seq<string>) returns (buf: seq<byte>)
    ensures buf == Tail(rest)
  {
    buf := [];
    var i := 0;
    while i < |rest|
      invariant 0 <= i <= |rest| && buf == Tail(rest[..i])
    {
      TailStep(rest, i);
      var n := MustAtoi(rest[i]);
      var septets := EncodeBase128(n);
      buf := buf + septets;
      i := i + 1;
    }
    assert rest[..i] == rest;
  }

  method EncodeOID(oid: string) returns (r: Option<seq<byte>>)
    ensures r == OidBytes(oid)
  {
    var parts := SplitDots(oid);
    if |parts| < 2 { return None; }
    var first := MustAtoi(parts[0]);
    var second := MustAtoi(parts[1]);
    var tail := EncodeTail(parts[2..]);
    r := Some([FirstOctet(first, second)] + tail);
  }

  // ---------------------------------------------------------------- messages

  /** One encoded varbind, or None where the encoder panics on an OID of fewer than two parts. */
  function VarBindBytes(vb: VarBind): Option<seq<byte>> {
    match OidBytes(vb.oid)
    case None => None
    case Some(encoded) => Some(Frame(0x30, Frame(0x06, encoded) + vb.value))
  }

  function VarBindsBytes(binds: seq<VarBind>): Option<seq<byte>> {
    if binds == [] then Some([])
    else
      match VarBindBytes(binds[0])
      case None => None
      case Some(item) => Prepend(item, VarBindsBytes(binds[1..]))
  }

  const INT_ONE: seq<byte> := [0x02, 1, 1]
  const INT_ZERO: seq<byte> := [0x02, 1, 0]

  function PduBody(list: seq<byte>): seq<byte> {
    INT_ONE + INT_ZERO + INT_ZERO + Frame(0x30, list)
  }

  function MessageBody(community: string, list: seq<byte>): seq<byte> {
    INT_ONE + Frame(0x04, ToBytes(community)) + Frame(0xA7, PduBody(list))
  }

  function Message(community: string, binds: seq<VarBind>): Option<seq<byte>> {
    match VarBindsBytes(binds)
    case None => None
    case Some(list) => Some(Frame(0x30, MessageBody(community, list)))
  }

  method EncodeVarBind(vb: VarBind) returns (r: Option<seq<byte>>)
    ensures r == VarBindBytes(vb)
  {
    var encoded := EncodeOID(vb.oid);
    if encoded.None? { return None; }
    var head := EncodeTlv(0x06, encoded.value);
    var item := Seq([head, vb.value]);
    FlattenTwo(head, vb.value);
    r := Some(item);
  }

  lemma FlattenSnoc(parts: seq<seq<byte>>, last: seq<byte>)
    ensures Flatten(parts + [last]) == Flatten(parts) + last
  {
    assert (parts + [last])[..|parts|] == parts;
  }

  function Prepend(before: seq<byte>, after: Option<seq<byte>>): Option<seq<byte>> {
    match after
    case None => None
    case Some(more) => Some(before + more)
  }

  lemma PrependItem(before: seq<byte>, item: seq<byte>, after: Option<seq<byte>>)
    ensures Prepend(before, Prepend(item, after)) == Prepend(before + item, after)
  {
    if after.Some? {
      assert before + (item + after.value) == before + item + after.value;
    }
  }

  method EncodeVarBinds(binds: seq<VarBind>) returns (r: Option<seq<byte>>)
    ensures r == (match VarBindsBytes(binds) case None => None case Some(list) => Some(Frame(0x30, list)))
  {
    var vbSeq: seq<seq<byte>> := [];
    var i := 0;
    assert binds[0..] == binds && forall more :: Flatten(vbSeq) + more == more;
    while i < |binds|
      invariant 0 <= i <= |binds|
      invariant VarBindsBytes(binds) == Prepend(Flatten(vbSeq), VarBindsBytes(binds[i..]))
    {
      assert binds[i..][0] == binds[i] && binds[i..][1..] == binds[i + 1..];
      var item := EncodeVarBind(binds[i]);
      if item.None? { return None; }
      FlattenSnoc(vbSeq, item.value);
      PrependItem(Flatten(vbSeq), item.value, VarBindsBytes(binds[i + 1..]));
      vbSeq := vbSeq + [item.value];
      i := i + 1;
    }
    var list := Seq(vbSeq);
    assert Flatten(vbSeq) + [] == Flatten(vbSeq);
    r := Some(list);
  }

  method BuildV2Trap(community: string, binds: seq<VarBind>) returns (r: Option<seq<byte>>)
    ensures r == Message(community, binds)
  {
    var varbindList := EncodeVarBinds(binds);
    if varbindList.None? { return None; }
    OneAndZero();
    var one := EncodeIntegerBytes(1);
    var zero := EncodeIntegerBytes(0);
    var version := EncodeTlv(0x02, one.value);
    var status := EncodeTlv(0x02, zero.value);
    var pdu := EncodeTlv(0xA7, version + status + status + varbindList.value);
    var name := EncodeTlv(0x04, ToBytes(community));
    var message := Seq([version, name, pdu]);
    FlattenThree(version, name, pdu);
    r := Some(message);
  }

  lemma OneAndZero()
    ensures IntegerBytes(1) == Some([1]) && Frame(0x02, [1]) == INT_ONE
    ensures IntegerBytes(0) == Some([0]) && Frame(0x02, [0]) == INT_ZERO
  {
    assert Octets(1) == Octets(0) + [1] == [1];
  }

  lemma FlattenOne(a: seq<byte>)
    ensures Flatten([a]) == a
  {
    FlattenSnoc([], a);
    assert [] + [a] == [a];
  }

  lemma FlattenTwo(a: seq<byte>, b: seq<byte>)
    ensures Flatten([a, b]) == a + b
  {
    FlattenOne(a);
    FlattenSnoc([a], b);
    assert [a] + [b] == [a, b];
  }

  lemma FlattenThree(a: seq<byte>, b: seq<byte>, c: seq<byte>)
    ensures Flatten([a, b, c]) == a + b + c
  {
    FlattenTwo(a, b);
    FlattenSnoc([a, b], c);
    assert [a, b] + [c] == [a, b, c];
  }
}
