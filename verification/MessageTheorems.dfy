/** Whole SNMPv2 trap messages: the parser reads back what the load generator writes. */
module MessageTheorems {
  import opened Basics
  import opened Text
  import opened Ber
  import opened OidUtil
  import opened Parser
  import opened TlvTheorems
  import opened OidTheorems
  import opened IntegerTheorems
  import Enc = PerfEncoder

  // ----------------------------------------------------------------- OID texts

  /** The text of arcs that survive the encoder and decoder. */
  predicate Spells(arcs: seq<int>, oid: string) {
    AreArcs(arcs) && |arcs| >= 2 && PackableHead(arcs[0], arcs[1]) && oid == OidText(arcs)
  }

  ghost predicate CanonicalOid(oid: string) {
    exists arcs :: Spells(arcs, oid)
  }

  predicate DigitEnds(s: string) {
    s != "" && '0' <= s[0] <= '9' && '0' <= s[|s| - 1] <= '9'
  }

  lemma {:induction false} JoinEnds(parts: seq<string>)
    requires parts != [] && forall i | 0 <= i < |parts| :: DigitEnds(parts[i])
    ensures DigitEnds(JoinDots(parts))
  {
    if |parts| > 1 {
      JoinEnds(parts[..|parts| - 1]);
    }
  }

  lemma CanonicalIsNormal(oid: string)
    requires CanonicalOid(oid)
    ensures DigitEnds(oid) && Normalize(oid) == oid
    ensures Enc.OidBytes(oid).Some? && OidOf(Enc.OidBytes(oid).value) == Ok(oid)
  {
    var arcs :| Spells(arcs, oid);
    OidRoundTrip(arcs);
    forall i | 0 <= i < |arcs| ensures DigitEnds(Texts(arcs)[i]) {
      var s := DecimalInt(arcs[i]);
      assert s[0] in s && s[|s| - 1] in s;
    }
    JoinEnds(Texts(arcs));
    PlainIsNormal(oid);
  }

  // ------------------------------------------------------------------ varbinds

  /** What the parser should make of one encoded varbind: its OID, and its value decoded on its own. */
  function Decoded(p: Printers, vb: Enc.VarBind): Result<Model.VarBind, ParseError> {
    match Next(vb.value)
    case Err(e) => Err(e)
    case Ok(value) =>
      match DecodeValue(p, value.tlv)
      case Err(e) => Err(BadBer(e))
      case Ok(t) => Ok(Model.VarBind(vb.oid, t.typeName, t.value))
  }

  lemma FrameNext(tag: byte, value: seq<byte>, rest: seq<byte>)
    requires |value| < TWO_32
    ensures Next(Enc.Frame(tag, value) + rest) == Ok(Framed(Tlv(tag, value), |Enc.Frame(tag, value)|))
    ensures (Enc.Frame(tag, value) + rest)[|Enc.Frame(tag, value)|..] == rest
    ensures |Enc.Frame(tag, value)| > |value|
  {
    FrameReadBack(W64, tag, value, rest);
  }

  lemma ItemReadBack(p: Printers, vb: Enc.VarBind)
    requires CanonicalOid(vb.oid)
    requires Enc.VarBindBytes(vb).Some? && |Enc.VarBindBytes(vb).value| < TWO_32
    ensures ItemOf(p, Tlv(0x30, Enc.Frame(0x06, Enc.OidBytes(vb.oid).value) + vb.value)) == Decoded(p, vb)
  {
    CanonicalIsNormal(vb.oid);
    var name := Enc.OidBytes(vb.oid).value;
    FrameIsLonger(0x06, name);
    FrameIsLonger(0x30, Enc.Frame(0x06, name) + vb.value);
    FrameNext(0x06, name, vb.value);
    NamedItem(p, vb, Enc.Frame(0x06, name) + vb.value, name);
  }

  /** The item reader on an item whose name and value are known. */
  lemma NamedItem(p: Printers, vb: Enc.VarBind, item: seq<byte>, name: seq<byte>)
    requires Next(item).Ok? && Next(item).value.tlv == Tlv(0x06, name) && item[Next(item).value.used..] == vb.value
    requires OidOf(name) == Ok(vb.oid) && Normalize(vb.oid) == vb.oid
    ensures ItemOf(p, Tlv(0x30, item)) == Decoded(p, vb)
  {
  }

  /** The decoded varbinds behind `acc`, or the first failure. */
  function DecodedFrom(p: Printers, acc: seq<Model.VarBind>, binds: seq<Enc.VarBind>)
    : Result<seq<Model.VarBind>, ParseError>
    decreases binds
  {
    if binds == [] then Ok(acc)
    else
      match Decoded(p, binds[0])
      case Err(e) => Err(e)
      case Ok(vb) => DecodedFrom(p, acc + [vb], binds[1..])
  }

  lemma {:induction false} ListReadBack(p: Printers, acc: seq<Model.VarBind>, binds: seq<Enc.VarBind>)
    requires forall b | b in binds :: CanonicalOid(b.oid)
    requires Enc.VarBindsBytes(binds).Some? && |Enc.VarBindsBytes(binds).value| < TWO_32
    ensures ItemsFrom(p, acc, Enc.VarBindsBytes(binds).value) == DecodedFrom(p, acc, binds)
    decreases binds
  {
    if binds != [] {
      var vb, more := binds[0], Enc.VarBindsBytes(binds[1..]).value;
      var body := Enc.Frame(0x06, Enc.OidBytes(vb.oid).value) + vb.value;
      assert Enc.VarBindsBytes(binds).value == Enc.Frame(0x30, body) + more;
      FrameNext(0x30, body, more);
      ItemReadBack(p, vb);
      var d := Decoded(p, vb);
      if d.Ok? {
        ListReadBack(p, acc + [d.value], binds[1..]);
      }
    }
  }

  /** Every value decodes. */
  predicate AllDecode(p: Printers, binds: seq<Enc.VarBind>)
    decreases binds
  {
    binds == [] || (Decoded(p, binds[0]).Ok? && AllDecode(p, binds[1..]))
  }

  /** The varbinds are the encoded ones decoded one by one, in order. */
  predicate Decodes(p: Printers, binds: seq<Enc.VarBind>, vbs: seq<Model.VarBind>)
    decreases binds
  {
    if binds == [] then vbs == []
    else vbs != [] && Decoded(p, binds[0]) == Ok(vbs[0]) && Decodes(p, binds[1..], vbs[1..])
  }

  lemma {:induction false} DecodedInOrder(p: Printers, acc: seq<Model.VarBind>, binds: seq<Enc.VarBind>)
    ensures DecodedFrom(p, acc, binds).Ok? <==> AllDecode(p, binds)
    ensures DecodedFrom(p, acc, binds).Ok? ==>
              var vbs := DecodedFrom(p, acc, binds).value;
              acc <= vbs && Decodes(p, binds, vbs[|acc|..])
    decreases binds
  {
    if binds != [] {
      var d := Decoded(p, binds[0]);
      if d.Ok? {
        var more := acc + [d.value];
        DecodedInOrder(p, more, binds[1..]);
        if DecodedFrom(p, acc, binds).Ok? {
          var vbs := DecodedFrom(p, acc, binds).value;
          assert vbs[|acc|] == more[|acc|] == d.value;
          assert vbs[|acc|..][1..] == vbs[|more|..];
        }
      }
    }
  }

  lemma {:induction false} NameIsDigits(p: Printers, binds: seq<Enc.VarBind>, vbs: seq<Model.VarBind>, i: nat)
    requires forall b | b in binds :: CanonicalOid(b.oid)
    requires Decodes(p, binds, vbs) && i < |vbs|
    ensures DigitEnds(vbs[i].oid)
    decreases binds
  {
    if i == 0 {
      CanonicalIsNormal(binds[0].oid);
    } else {
      NameIsDigits(p, binds[1..], vbs[1..], i - 1);
    }
  }

  lemma NamesAreDigits(p: Printers, binds: seq<Enc.VarBind>, vbs: seq<Model.VarBind>)
    requires forall b | b in binds :: CanonicalOid(b.oid)
    requires Decodes(p, binds, vbs)
    ensures forall i | 0 <= i < |vbs| :: DigitEnds(vbs[i].oid)
  {
    forall i | 0 <= i < |vbs| ensures DigitEnds(vbs[i].oid) {
      NameIsDigits(p, binds, vbs, i);
    }
  }

  // ------------------------------------------------- the last varbind of an OID

  /** Position i holds the last varbind that carries the OID. */
  predicate IsLast(vbs: seq<Model.VarBind>, i: int, oid: string) {
    0 <= i < |vbs| && vbs[i].oid == oid && forall j | i < j < |vbs| :: vbs[j].oid != oid
  }

  lemma {:induction false} BindMapKeepsLast(m: map<string, string>, vbs: seq<Model.VarBind>, oid: string)
    ensures forall i | IsLast(vbs, i, oid) :: Value(BindMap(m, vbs), oid) == vbs[i].value
    ensures (forall i | 0 <= i < |vbs| :: vbs[i].oid != oid) ==> Value(BindMap(m, vbs), oid) == Value(m, oid)
    decreases vbs
  {
    if vbs != [] {
      var m1, rest := m[vbs[0].oid := vbs[0].value], vbs[1..];
      BindMapKeepsLast(m1, rest, oid);
      forall i | IsLast(vbs, i, oid) ensures Value(BindMap(m, vbs), oid) == vbs[i].value {
        if i > 0 {
          assert IsLast(rest, i - 1, oid);
        } else {
          assert forall j | 0 <= j < |rest| :: rest[j].oid == vbs[j + 1].oid;
        }
      }
    }
  }

  /** The text a well-known field takes from the varbinds: the last value under its OID, or nothing. */
  ghost predicate TakenFromLast(vbs: seq<Model.VarBind>, oid: string, text: string) {
    && (forall i | IsLast(vbs, i, oid) :: text == Normalize(vbs[i].value))
    && ((forall i | 0 <= i < |vbs| :: vbs[i].oid != oid) ==> text == "")
  }

  lemma WellKnownIsLast(vbs: seq<Model.VarBind>, oid: string)
    requires forall i | 0 <= i < |vbs| :: DigitEnds(vbs[i].oid)
    ensures TakenFromLast(vbs, oid, WellKnown(BindMap(map[], vbs), oid))
  {
    BindMapKeepsLast(map[], vbs, oid);
    BindMapKeepsLast(map[], vbs, "." + oid);
    assert forall i | 0 <= i < |vbs| :: vbs[i].oid != "." + oid;
  }

  // ------------------------------------------------------------------ messages

  lemma IntNext(rest: seq<byte>)
    ensures Next(Enc.INT_ONE + rest) == Ok(Framed(Tlv(0x02, [1]), 3)) && (Enc.INT_ONE + rest)[3..] == rest
    ensures Next(Enc.INT_ZERO + rest) == Ok(Framed(Tlv(0x02, [0]), 3)) && (Enc.INT_ZERO + rest)[3..] == rest
    ensures DecodeSignedBigInt([1]) == 1 && DecodeSignedBigInt([0]) == 0
  {
    Enc.OneAndZero();
    FrameNext(0x02, [1], rest);
    FrameNext(0x02, [0], rest);
    NatSnoc([], 1);
    NatSnoc([], 0);
    assert [] + [1] == [1] && [] + [0] == [0];
  }

  /** The event after a PDU with request id 1, no error and the given varbinds. */
  function Filled(t: Model.Trap, list: seq<byte>, vbs: seq<Model.VarBind>): Model.Trap {
    WithV2VarBinds(WithV2Head(t, V2Head(1, 0, 0, Enc.Frame(0x30, list))), vbs)
  }

  lemma PduHeadReadBack(list: seq<byte>)
    ensures V2HeadOf(Enc.PduBody(list)) == Ok(V2Head(1, 0, 0, Enc.Frame(0x30, list)))
  {
    var b2 := Enc.INT_ZERO + Enc.Frame(0x30, list);
    var b1 := Enc.INT_ZERO + b2;
    assert Enc.PduBody(list) == Enc.INT_ONE + b1;
    IntNext(b1);
    IntNext(b2);
    IntNext(Enc.Frame(0x30, list));
  }

  lemma CommunityReadBack(community: string, pdu: seq<byte>)
    requires IsGoString(community) && |community| < TWO_32 && |pdu| < TWO_32
    ensures InnerOf(Enc.INT_ONE + (Enc.Frame(0x04, ToBytes(community)) + Enc.Frame(0xA7, pdu))) ==
            Ok(Envelope(1, community, Tlv(0xA7, pdu)))
  {
    var name, tail := ToBytes(community), Enc.Frame(0xA7, pdu);
    var m1 := Enc.Frame(0x04, name) + tail;
    var message := Enc.INT_ONE + m1;
    IntNext(m1);
    assert Next(message) == Ok(Framed(Tlv(0x02, [1]), 3)) && message[3..] == m1;
    FrameNext(0x04, name, tail);
    assert tail + [] == tail;
    FrameNext(0xA7, pdu, []);
    BytesOfText(community);
    NamedInner(message, m1, tail, name, pdu);
  }

  /** The message reader on a message whose three parts are known. */
  lemma NamedInner(message: seq<byte>, m1: seq<byte>, tail: seq<byte>, name: seq<byte>, pdu: seq<byte>)
    requires Next(message) == Ok(Framed(Tlv(0x02, [1]), 3)) && message[3..] == m1 && DecodeSignedBigInt([1]) == 1
    requires Next(m1).Ok? && Next(m1).value.tlv == Tlv(0x04, name) && m1[Next(m1).value.used..] == tail
    requires Next(tail).Ok? && Next(tail).value.tlv == Tlv(0xA7, pdu)
    ensures InnerOf(message) == Ok(Envelope(1, FromBytes(name), Tlv(0xA7, pdu)))
  {
  }

  lemma FrameIsLonger(tag: byte, value: seq<byte>)
    ensures |Enc.Frame(tag, value)| > |value|
  {
  }

  lemma EnvelopeReadBack(community: string, list: seq<byte>)
    requires IsGoString(community) && |Enc.MessageBody(community, list)| < TWO_32
    ensures EnvelopeOf(Enc.Frame(0x30, Enc.MessageBody(community, list))) ==
            Ok(Envelope(1, community, Tlv(0xA7, Enc.PduBody(list))))
    ensures |list| < TWO_32
  {
    var body, name, pdu := Enc.MessageBody(community, list), ToBytes(community), Enc.PduBody(list);
    FrameIsLonger(0x04, name);
    FrameIsLonger(0xA7, pdu);
    FrameIsLonger(0x30, list);
    assert body == Enc.INT_ONE + (Enc.Frame(0x04, name) + Enc.Frame(0xA7, pdu));
    CommunityReadBack(community, pdu);
    FrameNext(0x30, body, []);
    assert Enc.Frame(0x30, body) + [] == Enc.Frame(0x30, body);
  }

  lemma VarBindsReadBack(p: Printers, binds: seq<Enc.VarBind>)
    requires forall b | b in binds :: CanonicalOid(b.oid)
    requires Enc.VarBindsBytes(binds).Some? && |Enc.VarBindsBytes(binds).value| < TWO_32
    ensures VarBindsOf(p, Enc.Frame(0x30, Enc.VarBindsBytes(binds).value)) == DecodedFrom(p, [], binds)
  {
    var list := Enc.VarBindsBytes(binds).value;
    assert Enc.Frame(0x30, list) + [] == Enc.Frame(0x30, list);
    FrameNext(0x30, list, []);
    ListReadBack(p, [], binds);
  }

  /** Canonical OIDs never make the encoder panic. */
  lemma {:induction false} CanonicalEncodes(binds: seq<Enc.VarBind>)
    requires forall b | b in binds :: CanonicalOid(b.oid)
    ensures Enc.VarBindsBytes(binds).Some?
    decreases binds
  {
    if binds != [] {
      CanonicalIsNormal(binds[0].oid);
      CanonicalEncodes(binds[1..]);
    }
  }

  /** The parts of an event that a v2 message determines. */
  ghost predicate Carries(p: Printers, t: Model.Trap, community: string, binds: seq<Enc.VarBind>, msg: seq<byte>) {
    && t.rawBytes == msg
    && t.version == 1 && t.community == community && t.pduType == "0xa7"
    && t.requestId == 1 && t.errorStatus == 0 && t.errorIndex == 0
    && Decodes(p, binds, t.varBinds)
    && TakenFromLast(t.varBinds, TRAP_OID, t.trapOid)
    && TakenFromLast(t.varBinds, UPTIME_OID, t.uptime)
  }

  /** The PDU of an encoded message, with the varbinds as they decode one by one. */
  lemma PduReadBack(p: Printers, t: Model.Trap, binds: seq<Enc.VarBind>, list: seq<byte>)
    requires forall b | b in binds :: CanonicalOid(b.oid)
    requires Enc.VarBindsBytes(binds) == Some(list) && |list| < TWO_32
    ensures PduOf(p, t, Tlv(0xA7, Enc.PduBody(list))) ==
            match DecodedFrom(p, [], binds)
            case Err(e) => Err(e)
            case Ok(vbs) => Ok(Filled(t, list, vbs))
  {
    PduHeadReadBack(list);
    VarBindsReadBack(p, binds);
  }

  lemma EventCarries(p: Printers, t: Model.Trap, community: string, binds: seq<Enc.VarBind>, msg: seq<byte>,
                     list: seq<byte>, vbs: seq<Model.VarBind>)
    requires t.rawBytes == msg && t.version == 1 && t.community == community && t.pduType == "0xa7"
    requires t.rawVarBindMap == map[] && Decodes(p, binds, vbs)
    requires forall i | 0 <= i < |vbs| :: DigitEnds(vbs[i].oid)
    ensures Carries(p, Filled(t, list, vbs), community, binds, msg)
  {
    WellKnownIsLast(vbs, TRAP_OID);
    WellKnownIsLast(vbs, UPTIME_OID);
  }

  lemma HeaderCarries(msg: seq<byte>, from: Origin, env: Envelope)
    requires env.pdu.tag == 0xA7
    ensures var t := Opened(msg, from, env);
            && t.rawBytes == msg && t.version == env.version && t.community == env.community
            && t.pduType == "0xa7" && t.rawVarBindMap == map[]
  {
  }

  /**
   Message round trip (RFC 3416, section 4.2.6): for every community and every list of varbinds
   with canonical OIDs, the encoded message parses if and only if every value does, and the event
   then holds the same community, request id, OIDs and decoded values in order.
   */
  lemma MessageRoundTrip(p: Printers, aliases: map<string, string>, community: string, binds: seq<Enc.VarBind>,
                         from: Origin)
    requires IsGoString(community)
    requires forall b | b in binds :: CanonicalOid(b.oid)
    requires Enc.Message(community, binds).Some? ==> |Enc.Message(community, binds).value| <= TWO_32
    ensures Enc.Message(community, binds).Some?
    ensures var msg := Enc.Message(community, binds).value;
            var r := TrapOf(p, aliases, msg, from);
            && (r.Ok? <==> AllDecode(p, binds))
            && (r.Ok? ==> Carries(p, r.value, community, binds, msg))
  {
    CanonicalEncodes(binds);
    var list := Enc.VarBindsBytes(binds).value;
    FrameIsLonger(0x30, Enc.MessageBody(community, list));
    PduOfMessage(p, community, binds, list, from);
    EnvelopeReadBack(community, list);
    if AllDecode(p, binds) { ParsedCarries(p, aliases, community, binds, list, from); }
  }

  /** What is read from the encoded message before its PDU. */
  function EnvelopeOfMessage(community: string, list: seq<byte>): Envelope {
    Envelope(1, community, Tlv(0xA7, Enc.PduBody(list)))
  }

  lemma PduOfMessage(p: Printers, community: string, binds: seq<Enc.VarBind>, list: seq<byte>, from: Origin)
    requires IsGoString(community) && (forall b | b in binds :: CanonicalOid(b.oid))
    requires Enc.VarBindsBytes(binds) == Some(list) && |Enc.MessageBody(community, list)| < TWO_32
    ensures var msg := Enc.Frame(0x30, Enc.MessageBody(community, list));
            var env := EnvelopeOfMessage(community, list);
            && EnvelopeOf(msg) == Ok(env)
            && (PduOf(p, Opened(msg, from, env), env.pdu).Ok? <==> AllDecode(p, binds))
  {
    var msg := Enc.Frame(0x30, Enc.MessageBody(community, list));
    EnvelopeReadBack(community, list);
    PduReadBack(p, Opened(msg, from, EnvelopeOfMessage(community, list)), binds, list);
    DecodedInOrder(p, [], binds);
  }

  lemma ParsedCarries(p: Printers, aliases: map<string, string>, community: string, binds: seq<Enc.VarBind>,
                      list: seq<byte>, from: Origin)
    requires forall b | b in binds :: CanonicalOid(b.oid)
    requires Enc.VarBindsBytes(binds) == Some(list) && |list| < TWO_32 && AllDecode(p, binds)
    ensures var msg := Enc.Frame(0x30, Enc.MessageBody(community, list));
            var env := EnvelopeOfMessage(community, list);
            var r := PduOf(p, Opened(msg, from, env), env.pdu);
            r.Ok? && Carries(p, WithFields(aliases, r.value), community, binds, msg)
  {
    var msg := Enc.Frame(0x30, Enc.MessageBody(community, list));
    var env := EnvelopeOfMessage(community, list);
    var t := Opened(msg, from, env);
    PduReadBack(p, t, binds, list);
    DecodedInOrder(p, [], binds);
    var vbs := DecodedFrom(p, [], binds).value;
    assert vbs[0..] == vbs;
    NamesAreDigits(p, binds, vbs);
    HeaderCarries(msg, from, env);
    EventCarries(p, t, community, binds, msg, list, vbs);
    FieldsKeepTheRest(p, aliases, Filled(t, list, vbs), community, binds, msg);
  }

  lemma FieldsKeepTheRest(p: Printers, aliases: map<string, string>, t: Model.Trap, community: string,
                          binds: seq<Enc.VarBind>, msg: seq<byte>)
    requires Carries(p, t, community, binds, msg)
    ensures Carries(p, WithFields(aliases, t), community, binds, msg)
  {
  }

  // -------------------------------------------------------------- typed values

  lemma FramedValue(p: Printers, name: string, tag: byte, octets: seq<byte>)
    requires |octets| < TWO_32
    ensures Decoded(p, Enc.VarBind(name, Enc.Frame(tag, octets))) ==
            match DecodeValue(p, Tlv(tag, octets))
            case Err(e) => Err(BadBer(e))
            case Ok(t) => Ok(Model.VarBind(name, t.typeName, t.value))
  {
    FrameNext(tag, octets, []);
    assert Enc.Frame(tag, octets) + [] == Enc.Frame(tag, octets);
  }

  lemma OidTyped(p: Printers, octets: seq<byte>, oid: string)
    requires OidOf(octets) == Ok(oid)
    ensures DecodeValue(p, Tlv(0x06, octets)) == Ok(Typed("OBJECT IDENTIFIER", oid))
  {
  }

  lemma NumberTyped(p: Printers, octets: seq<byte>)
    ensures DecodeValue(p, Tlv(0x02, octets)) == Ok(Typed("INTEGER", DecimalInt(DecodeSignedBigInt(octets))))
    ensures DecodeValue(p, Tlv(0x43, octets)) == Ok(Typed("TIMETICKS", Decimal(DecodeUnsignedBigInt(octets))))
  {
  }

  lemma AddressTyped(p: Printers, octets: seq<byte>)
    requires |octets| == 4
    ensures DecodeValue(p, Tlv(0x40, octets)) == Ok(Typed("IPADDRESS", p.ipText(octets)))
  {
  }

  /** An OID value comes back as the same dotted text. */
  lemma OidValueReadBack(p: Printers, name: string, oid: string)
    requires CanonicalOid(oid) && Enc.OidBytes(oid).Some? && |Enc.OidBytes(oid).value| < TWO_32
    ensures Decoded(p, Enc.VarBind(name, Enc.Frame(0x06, Enc.OidBytes(oid).value))) ==
            Ok(Model.VarBind(name, "OBJECT IDENTIFIER", oid))
  {
    CanonicalIsNormal(oid);
    OidTyped(p, Enc.OidBytes(oid).value, oid);
    FramedValue(p, name, 0x06, Enc.OidBytes(oid).value);
  }

  /** An INTEGER comes back in decimal; so does a TimeTicks, which cannot be negative. */
  lemma IntegerValueReadBack(p: Printers, name: string, n: int)
    requires IsInt64(n) && n != -1
    ensures Decoded(p, Enc.VarBind(name, Enc.Frame(0x02, Enc.IntegerBytes(n).value))) ==
            Ok(Model.VarBind(name, "INTEGER", DecimalInt(n)))
    ensures n >= 0 ==>
              Decoded(p, Enc.VarBind(name, Enc.Frame(0x43, Enc.IntegerBytes(n).value))) ==
              Ok(Model.VarBind(name, "TIMETICKS", Decimal(n)))
  {
    IntegerRoundTrip(n);
    Int64IsShort(n);
    var octets := Enc.IntegerBytes(n).value;
    NumberTyped(p, octets);
    FramedValue(p, name, 0x02, octets);
    FramedValue(p, name, 0x43, octets);
  }

  // ----------------------------------------------------------------------- v1

  /** The fixed head of a Trap-PDU as RFC 1157, section 4.1.6 lays it out, before its varbinds. */
  function V1Body(enterprise: seq<byte>, agent: seq<byte>, generic: seq<byte>, specific: seq<byte>, ticks: seq<byte>,
                  rest: seq<byte>): seq<byte>
  {
    Enc.Frame(0x06, enterprise) +
    (Enc.Frame(0x40, agent) +
     (Enc.Frame(0x02, generic) + (Enc.Frame(0x02, specific) + (Enc.Frame(0x43, ticks) + rest))))
  }

  lemma V1NumbersReadBack(oid: string, address: string, generic: seq<byte>, specific: seq<byte>, ticks: seq<byte>,
                          rest: seq<byte>)
    requires |generic| < TWO_32 && |specific| < TWO_32 && |ticks| < TWO_32
    ensures V1Numbers(oid, address,
                      Enc.Frame(0x02, generic) + (Enc.Frame(0x02, specific) + (Enc.Frame(0x43, ticks) + rest))) ==
            Ok(V1Head(oid, address, Wrap64(DecodeSignedBigInt(generic)), Wrap64(DecodeSignedBigInt(specific)),
                      DecimalInt(DecodeSignedBigInt(ticks)), rest))
  {
    FrameNext(0x43, ticks, rest);
    FrameNext(0x02, specific, Enc.Frame(0x43, ticks) + rest);
    FrameNext(0x02, generic, Enc.Frame(0x02, specific) + (Enc.Frame(0x43, ticks) + rest));
  }

  lemma V1PartsReadBack(p: Printers, enterprise: seq<byte>, oid: string, agent: seq<byte>, b2: seq<byte>)
    requires OidOf(enterprise) == Ok(oid) && |enterprise| < TWO_32 && |agent| == 4
    ensures V1HeadOf(p, Enc.Frame(0x06, enterprise) + (Enc.Frame(0x40, agent) + b2)) ==
            V1Numbers(oid, p.ipText(agent), b2)
  {
    AddressTyped(p, agent);
    FrameNext(0x40, agent, b2);
    FrameNext(0x06, enterprise, Enc.Frame(0x40, agent) + b2);
  }

  /** Each part of the head lands in its own field, for every enterprise, agent and pair of trap numbers. */
  lemma V1HeadReadBack(p: Printers, enterprise: string, agent: seq<byte>, generic: int, specific: int, ticks: int,
                       rest: seq<byte>)
    requires CanonicalOid(enterprise) && Enc.OidBytes(enterprise).Some? && |Enc.OidBytes(enterprise).value| < TWO_32
    requires |agent| == 4 && IsInt64(generic) && IsInt64(specific) && IsInt64(ticks)
    requires generic != -1 && specific != -1 && ticks != -1
    ensures V1HeadOf(p, V1Body(Enc.OidBytes(enterprise).value, agent, Enc.IntegerBytes(generic).value,
                               Enc.IntegerBytes(specific).value, Enc.IntegerBytes(ticks).value, rest)) ==
            Ok(V1Head(enterprise, p.ipText(agent), generic, specific, DecimalInt(ticks), rest))
  {
    CanonicalIsNormal(enterprise);
    Int64IsShort(generic);
    Int64IsShort(specific);
    Int64IsShort(ticks);
    IntegerRoundTrip(generic);
    IntegerRoundTrip(specific);
    IntegerRoundTrip(ticks);
    var g, s, u := Enc.IntegerBytes(generic).value, Enc.IntegerBytes(specific).value, Enc.IntegerBytes(ticks).value;
    V1NumbersReadBack(enterprise, p.ipText(agent), g, s, u, rest);
    V1PartsReadBack(p, Enc.OidBytes(enterprise).value, enterprise, agent,
                    Enc.Frame(0x02, g) + (Enc.Frame(0x02, s) + (Enc.Frame(0x43, u) + rest)));
  }

  /** A 64-bit integer takes at most nine octets. */
  lemma Int64IsShort(n: int)
    requires IsInt64(n) && n != -1
    ensures |Enc.IntegerBytes(n).value| <= 9
  {
    Powers();
    OctetsAtMost(n, 8);
  }

  lemma {:induction false} OctetsAtMost(n: int, k: nat)
    requires -(Pow256(k) as int) <= n < Pow256(k)
    ensures |Enc.Octets(n)| <= k
    decreases k
  {
    if n != 0 && n != -1 {
      OctetsAtMost(n / 256, k - 1);
    }
  }
}
