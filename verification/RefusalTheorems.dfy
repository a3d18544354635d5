/** What is refused, and with which error: framings, truncated OIDs, and the parts of a message in order. */
module RefusalTheorems {
  import opened Basics
  import opened Text
  import opened Ber
  import opened Parser
  import opened TlvTheorems
  import opened MessageTheorems
  import Enc = PerfEncoder
  import Model

  // ------------------------------------------------------------------ framing

  /** A length in the long form, with all its octets there. */
  predicate HasLongLength(data: seq<byte>) {
    |data| >= 2 && 0x80 < data[1] <= 0x84 && |data| >= data[1] - 0x7E
  }

  /** The length announced in the long form. */
  function LongLength(data: seq<byte>): nat
    requires HasLongLength(data)
  {
    Nat(data[2..data[1] - 0x7E])
  }

  /** The octets after the header are fewer than announced. */
  predicate ValueIsCut(w: IntWidth, data: seq<byte>) {
    if HasLongLength(data) then LongLength(data) <= w.MaxInt() && |data| < data[1] - 0x7E + LongLength(data)
    else |data| >= 2 && data[1] < 0x80 && |data| < 2 + data[1]
  }

  /** Each way to refuse a TLV, by its octets alone; anything else is accepted. */
  lemma TlvRefusedIff(w: IntWidth, data: seq<byte>)
    ensures ReadTlv(w, data) == Err(TruncatedData) <==> |data| < 2
    ensures ReadTlv(w, data) == Err(IndefiniteLength) <==> |data| >= 2 && data[1] == 0x80
    ensures ReadTlv(w, data) == Err(LengthTooLarge) <==> |data| >= 2 && data[1] > 0x84
    ensures ReadTlv(w, data) == Err(TruncatedLength) <==>
            |data| >= 2 && 0x80 < data[1] <= 0x84 && |data| < data[1] - 0x7E
    ensures ReadTlv(w, data) == Err(LengthOverflow) <==> HasLongLength(data) && LongLength(data) > w.MaxInt()
    ensures ReadTlv(w, data) == Err(TruncatedValue) <==> ValueIsCut(w, data)
    ensures ReadTlv(w, data) != Err(TruncatedOid)
  {
    if HasLongLength(data) { LengthOfIsNat(w, data[2..data[1] - 0x7E]); }
  }

  // --------------------------------------------------------------------- OIDs

  /** What has been accumulated of the last sub-identifier when the octets end. */
  function Pending(rest: seq<byte>): int {
    ScanArcs(rest).pending
  }

  lemma {:induction false} ScanLast(s: Scan, data: seq<byte>, b: byte)
    ensures ScanFrom(s, data + [b]) == ScanNext(ScanFrom(s, data), b)
    decreases data
  {
    if data != [] {
      assert (data + [b])[0] == data[0] && (data + [b])[1..] == data[1..] + [b];
      ScanLast(ScanNext(s, data[0]), data[1..], b);
    } else {
      assert data + [b] == [b] && [b][1..] == [];
    }
  }

  lemma PendingLast(rest: seq<byte>)
    requires rest != []
    ensures var b := rest[|rest| - 1];
            Pending(rest) == if b < 0x80 then 0 else Push(Pending(rest[..|rest| - 1]), b)
  {
    var front, b := rest[..|rest| - 1], rest[|rest| - 1];
    assert rest == front + [b];
    ScanLast(Scan([], 0), front, b);
  }

  lemma PushIs(p: int, b: byte)
    requires b >= 0x80
    ensures Push(p, b) == Wrap64(p * 128 + (b - 0x80))
  {
    assert b % 128 == b - 0x80;
  }

  /** The octets end a sub-identifier, or leave only zeros in the bits that count: so many septets and one bit. */
  predicate Vanishes(rest: seq<byte>, septets: nat) {
    if rest == [] || rest[|rest| - 1] < 0x80 then true
    else if septets == 0 then rest[|rest| - 1] % 2 == 0
    else rest[|rest| - 1] == 0x80 && Vanishes(rest[..|rest| - 1], septets - 1)
  }

  /** Two to the power 1 + 7 * septets. */
  function Modulus(septets: nat): (m: nat)
    ensures m > 0
  {
    if septets == 0 then 2 else 128 * Modulus(septets - 1)
  }

  lemma Multiples(q: int, p: int, n: int)
    ensures (q - p) * n == q * n - p * n
  {
  }

  lemma LargeMultiple(q: int, n: int)
    requires n > 0 && q != 0
    ensures q * n >= n || q * n <= -n
  {
    if q >= 1 { assert (q - 1) * n >= 0; } else { assert (-1 - q) * n >= 0; }
  }

  lemma ModuloIs(x: int, n: int, q: int, r: int)
    requires 0 <= r < n && x == q * n + r
    ensures x % n == r
  {
    var p := x / n;
    Multiples(q, p, n);
    assert x == p * n + x % n;
    if q != p { LargeMultiple(q - p, n); }
  }

  lemma ShiftedModulo(p: int, d: int, m: int)
    requires 0 <= d < 128 && m > 0
    ensures (p * 128 + d) % (128 * m) == 0 <==> d == 0 && p % m == 0
  {
    var q, r := p / m, p % m;
    assert p * 128 + d == q * (128 * m) + (r * 128 + d);
    ModuloIs(p * 128 + d, 128 * m, q, r * 128 + d);
  }

  lemma WrappedModulo(x: int, m: int, k: int)
    requires m > 0 && m * k == TWO_64
    ensures Wrap64(x) % m == x % m
  {
    if !IsInt64(x) {
      var t := (x - INT64_MIN) / TWO_64;
      assert x == Wrap64(x) + t * TWO_64;
      var q, r := Wrap64(x) / m, Wrap64(x) % m;
      assert t * TWO_64 == (t * k) * m;
      assert x == (q + t * k) * m + r;
      ModuloIs(x, m, q + t * k, r);
    }
  }

  lemma ModulusOfNine()
    ensures Modulus(9) == TWO_64
  {
    assert Modulus(3) == 0x40_0000;
    assert Modulus(6) == 0x800_0000_0000;
  }

  lemma {:induction false} ModulusDivides(septets: nat) returns (k: int)
    requires septets <= 9
    ensures Modulus(septets) * k == TWO_64
    decreases 9 - septets
  {
    if septets == 9 {
      ModulusOfNine();
      k := 1;
    } else {
      var more := ModulusDivides(septets + 1);
      k := 128 * more;
    }
  }

  lemma PendingModulo(rest: seq<byte>, septets: nat)
    requires septets <= 9 && rest != [] && rest[|rest| - 1] >= 0x80
    ensures Pending(rest) % Modulus(septets) ==
            (Pending(rest[..|rest| - 1]) * 128 + (rest[|rest| - 1] - 0x80)) % Modulus(septets)
  {
    PendingLast(rest);
    PushIs(Pending(rest[..|rest| - 1]), rest[|rest| - 1]);
    var k := ModulusDivides(septets);
    WrappedModulo(Pending(rest[..|rest| - 1]) * 128 + (rest[|rest| - 1] - 0x80), Modulus(septets), k);
  }

  lemma {:induction false} PendingVanishes(rest: seq<byte>, septets: nat)
    requires septets <= 9
    ensures Pending(rest) % Modulus(septets) == 0 <==> Vanishes(rest, septets)
    decreases septets
  {
    if rest == [] {
      ZeroVanishes(septets);
    } else if rest[|rest| - 1] < 0x80 {
      PendingLast(rest);
      ZeroVanishes(septets);
    } else {
      var b, front := rest[|rest| - 1], rest[..|rest| - 1];
      PendingModulo(rest, septets);
      if septets > 0 {
        ShiftedModulo(Pending(front), b - 0x80, Modulus(septets - 1));
        PendingVanishes(front, septets - 1);
      } else {
        EvenPending(Pending(front), b);
      }
    }
  }

  lemma PendingIsInt64(rest: seq<byte>)
    ensures IsInt64(Pending(rest))
  {
    if rest != [] { PendingLast(rest); }
  }

  lemma OnlyZeroIsMultiple(n: int)
    requires IsInt64(n)
    ensures n % TWO_64 == 0 <==> n == 0
  {
  }

  lemma ZeroVanishes(septets: nat)
    ensures 0 % Modulus(septets) == 0
  {
  }

  lemma EvenPending(p: int, b: byte)
    requires b >= 0x80
    ensures (p * 128 + (b - 0x80)) % Modulus(0) == 0 <==> b % 2 == 0
  {
  }

  /**
   An OID whose last sub-identifier is unfinished is refused unless what there is of it vanishes in
   64 bits: its last nine octets are 0x80 and the one before them is even.
   */
  lemma OidRefusedIff(data: seq<byte>)
    ensures OidOf(data) == Err(TruncatedOid) <==> data != [] && !Vanishes(data[1..], 9)
    ensures OidOf(data).Err? ==> OidOf(data) == Err(TruncatedOid)
  {
    if data != [] {
      ModulusOfNine();
      PendingVanishes(data[1..], 9);
      PendingIsInt64(data[1..]);
      OnlyZeroIsMultiple(Pending(data[1..]));
    }
  }

  /** An unfinished sub-identifier that is zero so far is dropped without an error. */
  lemma UnfinishedOidPasses()
    ensures OidOf([0x2B, 0x80]) == Ok("1.3")
  {
    var data: seq<byte>, rest: seq<byte> := [0x2B, 0x80], [0x80];
    assert data[1..] == rest && rest[1..] == [];
    assert ScanArcs(rest) == ScanFrom(ScanNext(Scan([], 0), 0x80), []) == Scan([], 0);
    assert FirstArcs(0x2B) + [] == [1, 3];
    OidTextOfTwo();
  }

  lemma OidTextOfTwo()
    ensures JoinDots(Texts([1, 3])) == "1.3"
  {
    assert DecimalInt(1) == "1" && DecimalInt(3) == "3";
    assert Texts([1, 3]) == ["1", "3"];
    assert ["1", "3"][..1] == ["1"];
  }

  // ----------------------------------------------------------------- messages

  /** A framed part in front of anything. */
  lemma PartNext(tag: byte, value: seq<byte>, rest: seq<byte>)
    requires |value| < TWO_32
    ensures Next(Enc.Frame(tag, value) + rest) == Ok(Framed(Tlv(tag, value), |Enc.Frame(tag, value)|))
    ensures (Enc.Frame(tag, value) + rest)[|Enc.Frame(tag, value)|..] == rest
  {
    FrameNext(tag, value, rest);
  }

  lemma UniversalTags(tag: byte)
    ensures IsUniversal(tag, 2) <==> tag in {0x02, 0x22}
    ensures IsUniversal(tag, 4) <==> tag in {0x04, 0x24}
    ensures IsUniversal(tag, 6) <==> tag in {0x06, 0x26}
  {
  }

  /** The message reader on the parts it reads: the first defect decides. */
  lemma InnerChecked(message: seq<byte>, version: Tlv, m1: seq<byte>, community: Tlv, m2: seq<byte>)
    requires Next(message).Ok? && Next(message).value.tlv == version && message[Next(message).value.used..] == m1
    requires Next(m1).Ok? && Next(m1).value.tlv == community && m1[Next(m1).value.used..] == m2
    ensures InnerOf(message) ==
            if version.tag !in {0x02, 0x22} then Err(MissingVersion)
            else if !IsInt64(DecodeSignedBigInt(version.value)) then Err(VersionRange)
            else if community.tag !in {0x04, 0x24} then Err(MissingCommunity)
            else match Next(m2)
                 case Err(e) => Err(e)
                 case Ok(pdu) =>
                   Ok(Envelope(DecodeSignedBigInt(version.value), FromBytes(community.value), pdu.tlv))
  {
    UniversalTags(version.tag);
    UniversalTags(community.tag);
  }

  /**
   Three parts under any tags, and anything at all in place of the PDU: the message is refused for its
   own tag, then for the version's tag, its range, the community's tag, and what is wrong with the PDU.
   */
  lemma EnvelopeChecked(tag: byte, version: Tlv, community: Tlv, pdu: seq<byte>)
    requires |version.value| < TWO_32 && |community.value| < TWO_32
    requires |Enc.Frame(version.tag, version.value) +
              (Enc.Frame(community.tag, community.value) + pdu)| < TWO_32
    ensures EnvelopeOf(Enc.Frame(tag, Enc.Frame(version.tag, version.value) +
                                      (Enc.Frame(community.tag, community.value) + pdu))) ==
            if tag != 0x30 then Err(NotASequence)
            else if version.tag !in {0x02, 0x22} then Err(MissingVersion)
            else if !IsInt64(DecodeSignedBigInt(version.value)) then Err(VersionRange)
            else if community.tag !in {0x04, 0x24} then Err(MissingCommunity)
            else match Next(pdu)
                 case Err(e) => Err(e)
                 case Ok(p) => Ok(Envelope(DecodeSignedBigInt(version.value), FromBytes(community.value), p.tlv))
  {
    var m1 := Enc.Frame(community.tag, community.value) + pdu;
    var body := Enc.Frame(version.tag, version.value) + m1;
    PartNext(tag, body, []);
    assert Enc.Frame(tag, body) + [] == Enc.Frame(tag, body);
    PartNext(version.tag, version.value, m1);
    PartNext(community.tag, community.value, pdu);
    InnerChecked(body, version, m1, community, pdu);
  }

  // ----------------------------------------------------------------- varbinds

  /** The item reader on an item of a name and anything behind it: each defect in turn. */
  lemma ItemRefusedIff(p: Printers, tag: byte, name: Tlv, rest: seq<byte>)
    requires |name.value| < TWO_32
    ensures var r := ItemOf(p, Tlv(tag, Enc.Frame(name.tag, name.value) + rest));
            && (r == Err(ExpectedItem) <==> tag != 0x30)
            && (r == Err(ExpectedOid) <==> tag == 0x30 && name.tag !in {0x06, 0x26})
            && (tag == 0x30 && name.tag in {0x06, 0x26} && OidOf(name.value).Err? ==> r == Err(BadBer(TruncatedOid)))
            && (r.Ok? <==> && tag == 0x30 && name.tag in {0x06, 0x26} && OidOf(name.value).Ok? && Next(rest).Ok?
                           && DecodeValue(p, Next(rest).value.tlv).Ok?)
  {
    PartNext(name.tag, name.value, rest);
    UniversalTags(name.tag);
    OidRefusedIff(name.value);
  }

  /** The list of varbinds has to be a SEQUENCE; what follows it is not looked at. */
  lemma ListRefusedIff(p: Printers, tag: byte, list: seq<byte>, rest: seq<byte>)
    requires |list| < TWO_32
    ensures VarBindsOf(p, Enc.Frame(tag, list) + rest) ==
            if tag != 0x30 then Err(ExpectedVarBinds) else ItemsFrom(p, [], list)
  {
    PartNext(tag, list, rest);
  }

  /** A Trap-PDU whose enterprise is no OID is refused, whatever its tag and whatever follows. */
  lemma EnterpriseRefused(p: Printers, t: Model.Trap, tag: byte, enterprise: seq<byte>, rest: seq<byte>)
    requires |enterprise| < TWO_32 && OidOf(enterprise).Err?
    ensures V1Of(p, t, Enc.Frame(tag, enterprise) + rest) == Err(BadBer(TruncatedOid))
  {
    PartNext(tag, enterprise, rest);
    OidRefusedIff(enterprise);
  }
}
