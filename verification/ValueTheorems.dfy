/** What the value printer makes of every type of value, by the octet that tags it. */
module ValueTheorems {
  import opened Basics
  import opened Text
  import opened Ber
  import opened TlvTheorems
  import opened IntegerTheorems
  import opened MessageTheorems
  import Enc = PerfEncoder
  import Model

  // --------------------------------------------------------------------- hex

  /** The value of a hexadecimal digit. */
  function Nibble(c: char): Option<int> {
    if '0' <= c <= '9' then Some(c as int - '0' as int)
    else if 'a' <= c <= 'f' then Some(c as int - 'a' as int + 10)
    else None
  }

  /** The octets a text of hexadecimal digits spells, two digits each. */
  function Unhex(s: string): Option<seq<int>> {
    if s == "" then Some([])
    else if |s| == 1 then None
    else
      match (Nibble(s[0]), Nibble(s[1]), Unhex(s[2..]))
      case (Some(high), Some(low), Some(rest)) => Some([high * 16 + low] + rest)
      case _ => None
  }

  lemma DigitReadBack(d: int)
    requires 0 <= d < 16
    ensures Nibble(HexDigit(d)) == Some(d)
  {
  }

  /** The hexadecimal text of an octet string spells exactly its octets. */
  lemma {:induction false} HexReadBack(data: seq<byte>)
    ensures Unhex(Hex(data)) == Some(data)
  {
    if data != [] {
      var s := Hex(data);
      HexReadBack(data[1..]);
      DigitReadBack(data[0] / 16);
      DigitReadBack(data[0] % 16);
      assert s[0] == HexDigit(data[0] / 16) && s[1] == HexDigit(data[0] % 16) && s[2..] == Hex(data[1..]);
      assert [data[0] as int] + data[1..] == data;
    }
  }

  // ------------------------------------------------------------------- types

  /** A tag octet without the bit of the constructed form. */
  function Primitive(tag: byte): byte {
    if tag / 0x20 % 2 == 1 then tag - 0x20 else tag
  }

  /** The type of a value by its tag octet, in primitive and in constructed form. */
  function TypeName(tag: byte): string {
    match Primitive(tag)
    case 0x02 => "INTEGER"
    case 0x03 => "BIT STRING"
    case 0x04 => "OCTET STRING"
    case 0x05 => "NULL"
    case 0x06 => "OBJECT IDENTIFIER"
    case 0x10 => "SEQUENCE"
    case 0x40 => "IPADDRESS"
    case 0x41 => "COUNTER32"
    case 0x42 => "GAUGE32"
    case 0x43 => "TIMETICKS"
    case 0x44 => "OPAQUE"
    case 0x46 => "COUNTER64"
    case 0x80 => "noSuchObject"
    case 0x81 => "noSuchInstance"
    case 0x82 => "endOfMibView"
    case _ =>
      (if tag < 0x40 then "universal" else if tag < 0x80 then "application" else if tag < 0xC0 then "context"
       else "private") + "[" + Decimal(tag % 32) + "]"
  }

  /** A tag octet without its form is its class and number. */
  lemma TagParts(tag: byte)
    ensures Primitive(tag) ==
            DecodeTagNumber(tag) + match DecodeTagClass(tag)
                                   case Universal => 0
                                   case Application => 0x40
                                   case Context => 0x80
                                   case Private => 0xC0
  {
  }

  /** Every value but a malformed OID gets the type its tag octet names. */
  predicate TypedByTag(p: Printers, tag: byte, octets: seq<byte>) {
    var r := DecodeValue(p, Tlv(tag, octets));
    (r.Err? <==> Primitive(tag) == 0x06 && OidOf(octets).Err?) && (r.Ok? ==> r.value.typeName == TypeName(tag))
  }

  lemma UniversalType(p: Printers, tag: byte, octets: seq<byte>)
    requires DecodeTagClass(tag) == Universal
    ensures TypedByTag(p, tag, octets)
  {
    TagParts(tag);
  }

  lemma ApplicationType(p: Printers, tag: byte, octets: seq<byte>)
    requires DecodeTagClass(tag) == Application
    ensures TypedByTag(p, tag, octets)
  {
    TagParts(tag);
  }

  lemma OtherType(p: Printers, tag: byte, octets: seq<byte>)
    requires DecodeTagClass(tag) == Context || DecodeTagClass(tag) == Private
    ensures TypedByTag(p, tag, octets)
  {
    TagParts(tag);
  }

  lemma TypeByTag(p: Printers, tag: byte, octets: seq<byte>)
    ensures TypedByTag(p, tag, octets)
  {
    match DecodeTagClass(tag)
    case Universal => UniversalType(p, tag, octets);
    case Application => ApplicationType(p, tag, octets);
    case _ => OtherType(p, tag, octets);
  }

  /**
   The value of a type: a number in decimal, a text, OID or address as it is written, nothing, or the
   octets in hexadecimal digits.
   */
  predicate ValuedByTag(p: Printers, tag: byte, octets: seq<byte>, v: string) {
    var t := Primitive(tag);
    if t == 0x02 then v == DecimalInt(DecodeSignedBigInt(octets))
    else if t in {0x41, 0x42, 0x43, 0x46} then v == Decimal(Nat(octets))
    else if t in {0x05, 0x80, 0x81, 0x82} then v == ""
    else if t == 0x06 then OidOf(octets) == Ok(v)
    else if t == 0x04 && p.utf8Valid(octets) then v == FromBytes(octets)
    else if t == 0x40 && (|octets| == 4 || |octets| == 16) then v == p.ipText(octets)
    else "0x" <= v && Unhex(v[2..]) == Some(octets)
  }

  lemma PlainValue(p: Printers, tag: byte, octets: seq<byte>)
    requires Primitive(tag) in {0x02, 0x04, 0x05, 0x06} && DecodeValue(p, Tlv(tag, octets)).Ok?
    ensures var v := DecodeValue(p, Tlv(tag, octets)).value.value;
            match DecodeTagNumber(tag)
            case 2 => v == DecimalInt(DecodeSignedBigInt(octets))
            case 4 => v == if p.utf8Valid(octets) then FromBytes(octets) else "0x" + Hex(octets)
            case 5 => v == ""
            case _ => OidOf(octets) == Ok(v)
  {
    TagParts(tag);
  }

  lemma RawUniversalValue(p: Printers, tag: byte, octets: seq<byte>)
    requires DecodeTagClass(tag) == Universal && DecodeTagNumber(tag) !in {2, 4, 5, 6}
    ensures DecodeValue(p, Tlv(tag, octets)).Ok?
    ensures DecodeValue(p, Tlv(tag, octets)).value.value == "0x" + Hex(octets)
  {
    TagParts(tag);
  }

  lemma UniversalValue(p: Printers, tag: byte, octets: seq<byte>)
    requires DecodeTagClass(tag) == Universal && DecodeValue(p, Tlv(tag, octets)).Ok?
    requires "0x" <= "0x" + Hex(octets) && Unhex(("0x" + Hex(octets))[2..]) == Some(octets)
    ensures ValuedByTag(p, tag, octets, DecodeValue(p, Tlv(tag, octets)).value.value)
  {
    TagParts(tag);
    if DecodeTagNumber(tag) in {2, 4, 5, 6} {
      PlainValue(p, tag, octets);
    } else {
      RawUniversalValue(p, tag, octets);
    }
  }

  lemma CountedValue(p: Printers, tag: byte, octets: seq<byte>)
    requires Primitive(tag) in {0x41, 0x42, 0x43, 0x46}
    ensures DecodeValue(p, Tlv(tag, octets)).Ok?
    ensures DecodeValue(p, Tlv(tag, octets)).value.value == Decimal(Nat(octets))
  {
    TagParts(tag);
  }

  lemma AddressValue(p: Printers, tag: byte, octets: seq<byte>)
    requires Primitive(tag) == 0x40
    ensures DecodeValue(p, Tlv(tag, octets)).Ok?
    ensures DecodeValue(p, Tlv(tag, octets)).value.value ==
            if |octets| == 4 || |octets| == 16 then p.ipText(octets) else "0x" + Hex(octets)
  {
    TagParts(tag);
  }

  lemma RawApplicationValue(p: Printers, tag: byte, octets: seq<byte>)
    requires DecodeTagClass(tag) == Application && DecodeTagNumber(tag) !in {0, 1, 2, 3, 6}
    ensures DecodeValue(p, Tlv(tag, octets)).Ok?
    ensures DecodeValue(p, Tlv(tag, octets)).value.value == "0x" + Hex(octets)
  {
    TagParts(tag);
  }

  lemma ApplicationValue(p: Printers, tag: byte, octets: seq<byte>)
    requires DecodeTagClass(tag) == Application && DecodeValue(p, Tlv(tag, octets)).Ok?
    requires "0x" <= "0x" + Hex(octets) && Unhex(("0x" + Hex(octets))[2..]) == Some(octets)
    ensures ValuedByTag(p, tag, octets, DecodeValue(p, Tlv(tag, octets)).value.value)
  {
    var n := DecodeTagNumber(tag);
    TagParts(tag);
    if n == 0 {
      AddressValue(p, tag, octets);
    } else if n in {1, 2, 3, 6} {
      CountedValue(p, tag, octets);
    } else {
      RawApplicationValue(p, tag, octets);
    }
  }

  lemma OtherText(p: Printers, tag: byte, octets: seq<byte>)
    requires DecodeTagClass(tag) == Context || DecodeTagClass(tag) == Private
    ensures DecodeValue(p, Tlv(tag, octets)).Ok?
    ensures DecodeValue(p, Tlv(tag, octets)).value.value ==
            if Primitive(tag) in {0x80, 0x81, 0x82} then "" else "0x" + Hex(octets)
  {
    TagParts(tag);
  }

  lemma OtherValue(p: Printers, tag: byte, octets: seq<byte>)
    requires DecodeTagClass(tag) == Context || DecodeTagClass(tag) == Private
    requires "0x" <= "0x" + Hex(octets) && Unhex(("0x" + Hex(octets))[2..]) == Some(octets)
    ensures DecodeValue(p, Tlv(tag, octets)).Ok?
    ensures ValuedByTag(p, tag, octets, DecodeValue(p, Tlv(tag, octets)).value.value)
  {
    TagParts(tag);
    OtherText(p, tag, octets);
  }

  lemma ValueByTag(p: Printers, tag: byte, octets: seq<byte>)
    requires DecodeValue(p, Tlv(tag, octets)).Ok?
    ensures ValuedByTag(p, tag, octets, DecodeValue(p, Tlv(tag, octets)).value.value)
  {
    HexReadBack(octets);
    assert ("0x" + Hex(octets))[2..] == Hex(octets);
    match DecodeTagClass(tag)
    case Universal => UniversalValue(p, tag, octets);
    case Application => ApplicationValue(p, tag, octets);
    case _ => OtherValue(p, tag, octets);
  }

  // ------------------------------------------------------------------ varbinds

  /** A text comes back as it was sent. */
  lemma TextReadBack(p: Printers, name: string, text: string)
    requires IsGoString(text) && |text| < TWO_32 && p.utf8Valid(ToBytes(text))
    ensures Decoded(p, Enc.VarBind(name, Enc.Frame(0x04, ToBytes(text)))) ==
            Ok(Model.VarBind(name, "OCTET STRING", text))
  {
    BytesOfText(text);
    TypeByTag(p, 0x04, ToBytes(text));
    ValueByTag(p, 0x04, ToBytes(text));
    FramedValue(p, name, 0x04, ToBytes(text));
  }

  /** So does every octet string that is no text, in hexadecimal digits. */
  lemma OctetsReadBack(p: Printers, name: string, octets: seq<byte>) returns (digits: string)
    requires |octets| < TWO_32 && !p.utf8Valid(octets)
    ensures Decoded(p, Enc.VarBind(name, Enc.Frame(0x04, octets))) ==
            Ok(Model.VarBind(name, "OCTET STRING", "0x" + digits))
    ensures Unhex(digits) == Some(octets)
  {
    digits := Hex(octets);
    HexReadBack(octets);
    TypeByTag(p, 0x04, octets);
    PlainValue(p, 0x04, octets);
    FramedValue(p, name, 0x04, octets);
  }

  lemma UnsignedTyped(p: Printers, octets: seq<byte>)
    ensures DecodeValue(p, Tlv(0x41, octets)) == Ok(Typed("COUNTER32", Decimal(Nat(octets))))
    ensures DecodeValue(p, Tlv(0x42, octets)) == Ok(Typed("GAUGE32", Decimal(Nat(octets))))
    ensures DecodeValue(p, Tlv(0x46, octets)) == Ok(Typed("COUNTER64", Decimal(Nat(octets))))
  {
  }

  /** An unsigned number comes back in decimal, under the type of its tag. */
  lemma UnsignedReadBack(p: Printers, name: string, n: nat)
    requires n <= INT64_MAX
    ensures var octets := Enc.IntegerBytes(n).value;
            && Decoded(p, Enc.VarBind(name, Enc.Frame(0x41, octets))) ==
               Ok(Model.VarBind(name, "COUNTER32", Decimal(n)))
            && Decoded(p, Enc.VarBind(name, Enc.Frame(0x42, octets))) ==
               Ok(Model.VarBind(name, "GAUGE32", Decimal(n)))
            && Decoded(p, Enc.VarBind(name, Enc.Frame(0x46, octets))) ==
               Ok(Model.VarBind(name, "COUNTER64", Decimal(n)))
  {
    var octets := Enc.IntegerBytes(n).value;
    IntegerRoundTrip(n);
    Int64IsShort(n);
    UnsignedTyped(p, octets);
    FramedValue(p, name, 0x41, octets);
    FramedValue(p, name, 0x42, octets);
    FramedValue(p, name, 0x46, octets);
  }
}
