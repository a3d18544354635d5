/**
 Whole trap messages of both versions, laid out part by part as RFC 1157, section 4.1.6, and RFC 3416,
 section 4.2.6, prescribe them: what the parser makes of each part.
 */
module WireTheorems {
  import opened Basics
  import opened Text
  import opened Ber
  import opened OidUtil
  import opened Parser
  import opened ParserTheorems
  import opened TlvTheorems
  import opened IntegerTheorems
  import opened MessageTheorems
  import Enc = PerfEncoder
  import Model

  // ---------------------------------------------------------------- integers

  /** The shortest two's-complement octets of a number, -1 included. */
  function TwosComplement(n: int): seq<byte> {
    if n == -1 then [0xFF] else Enc.IntegerBytes(n).value
  }

  lemma NumberReadBack(n: int)
    ensures DecodeSignedBigInt(TwosComplement(n)) == n
  {
    if n == -1 {
      MinusOneHasNoEncoding();
    } else {
      IntegerRoundTrip(n);
    }
  }

  /** The number is short enough to be framed. */
  predicate Fits(n: int) {
    |TwosComplement(n)| < TWO_32
  }

  lemma Int64Fits(n: int)
    requires IsInt64(n)
    ensures Fits(n)
  {
    if n != -1 { Int64IsShort(n); }
  }

  /** The low 64 bits of a number, read as a signed number. */
  function Low64(n: int): int {
    if n % TWO_64 <= INT64_MAX then n % TWO_64 else n % TWO_64 - TWO_64
  }

  lemma WrapIsLow64(n: int)
    ensures Wrap64(n) == Low64(n)
  {
  }

  /** The 64-bit number nearest to a number. */
  predicate Nearest64(n: int, r: int) {
    && (IsInt64(n) ==> r == n) && (n > INT64_MAX ==> r == INT64_MAX) && (n < INT64_MIN ==> r == INT64_MIN)
  }

  /** A number under the tag, in front of anything. */
  lemma NumberNext(tag: byte, n: int, rest: seq<byte>)
    requires Fits(n)
    ensures var framed := Enc.Frame(tag, TwosComplement(n));
            && Next(framed + rest) == Ok(Framed(Tlv(tag, TwosComplement(n)), |framed|))
            && (framed + rest)[|framed|..] == rest
            && DecodeSignedBigInt(TwosComplement(n)) == n
  {
    NumberReadBack(n);
    FrameNext(tag, TwosComplement(n), rest);
  }

  // ---------------------------------------------------------------- envelopes

  /** Version, community and PDU one after the other. */
  function Parts(version: int, community: string, tag: byte, pdu: seq<byte>): seq<byte> {
    Enc.Frame(0x02, TwosComplement(version)) + (Enc.Frame(0x04, ToBytes(community)) + Enc.Frame(tag, pdu))
  }

  function WireMessage(version: int, community: string, tag: byte, pdu: seq<byte>): seq<byte> {
    Enc.Frame(0x30, Parts(version, community, tag, pdu))
  }

  lemma PartsReadBack(version: int, community: string, tag: byte, pdu: seq<byte>)
    requires IsInt64(version) && IsGoString(community) && |community| < TWO_32 && |pdu| < TWO_32
    ensures InnerOf(Parts(version, community, tag, pdu)) == Ok(Envelope(version, community, Tlv(tag, pdu)))
  {
    var name, tail := ToBytes(community), Enc.Frame(tag, pdu);
    var m1 := Enc.Frame(0x04, name) + tail;
    Int64Fits(version);
    NumberNext(0x02, version, m1);
    FrameNext(0x04, name, tail);
    FrameNext(tag, pdu, []);
    assert tail + [] == tail;
    BytesOfText(community);
    NamedParts(Parts(version, community, tag, pdu), TwosComplement(version), m1, name, tail, Tlv(tag, pdu));
  }

  /** The message reader on a message whose three parts are known. */
  lemma NamedParts(message: seq<byte>, version: seq<byte>, m1: seq<byte>, name: seq<byte>, tail: seq<byte>, pdu: Tlv)
    requires Next(message).Ok? && Next(message).value.tlv == Tlv(0x02, version)
    requires message[Next(message).value.used..] == m1 && IsInt64(DecodeSignedBigInt(version))
    requires Next(m1).Ok? && Next(m1).value.tlv == Tlv(0x04, name) && m1[Next(m1).value.used..] == tail
    requires Next(tail).Ok? && Next(tail).value.tlv == pdu
    ensures InnerOf(message) == Ok(Envelope(DecodeSignedBigInt(version), FromBytes(name), pdu))
  {
  }

  /** The PDU and the community are no longer than the message. */
  lemma PartsAreShorter(version: int, community: string, tag: byte, pdu: seq<byte>)
    ensures |pdu| < |Parts(version, community, tag, pdu)| && |community| < |Parts(version, community, tag, pdu)|
  {
    FrameIsLonger(tag, pdu);
    FrameIsLonger(0x04, ToBytes(community));
  }

  lemma EnvelopeReads(version: int, community: string, tag: byte, pdu: seq<byte>)
    requires IsInt64(version) && IsGoString(community) && |Parts(version, community, tag, pdu)| < TWO_32
    ensures EnvelopeOf(WireMessage(version, community, tag, pdu)) ==
            Ok(Envelope(version, community, Tlv(tag, pdu)))
  {
    var body := Parts(version, community, tag, pdu);
    PartsAreShorter(version, community, tag, pdu);
    PartsReadBack(version, community, tag, pdu);
    FrameNext(0x30, body, []);
    assert Enc.Frame(0x30, body) + [] == Enc.Frame(0x30, body);
  }

  /** A message with any other PDU than a Trap-PDU or an SNMPv2-Trap-PDU is refused. */
  lemma OtherPduRefused(p: Printers, aliases: map<string, string>, version: int, community: string, tag: byte,
                        pdu: seq<byte>, from: Origin)
    requires IsInt64(version) && IsGoString(community) && |Parts(version, community, tag, pdu)| < TWO_32
    requires tag != 0xA4 && tag != 0xA7
    ensures TrapOf(p, aliases, WireMessage(version, community, tag, pdu), from) == Err(UnsupportedPdu(tag))
  {
    EnvelopeReads(version, community, tag, pdu);
  }

  /** What every parsed message says whatever its version: where it came from, and its envelope. */
  predicate Received(t: Model.Trap, from: Origin, msg: seq<byte>, version: int, community: string, pduType: string) {
    && t.receivedAt == from.receivedAt && t.sourceIP == from.ip && t.sourcePort == from.port
    && t.rawBytes == msg && t.version == version && t.community == community && t.pduType == pduType
    && !t.alertsLogged
  }

  // ----------------------------------------------------------------------- v1

  /** The name RFC 1157 gives a generic trap; other numbers stand for themselves. */
  function StandardName(generic: int): string {
    var names := ["coldStart", "warmStart", "linkDown", "linkUp", "authenticationFailure", "egpNeighborLoss",
                  "enterpriseSpecific"];
    if 0 <= generic < |names| then names[generic] else DecimalInt(generic)
  }

  datatype V1Trap = V1Trap(enterprise: string, agent: seq<byte>, generic: int, specific: int, ticks: int)

  predicate LegalV1(v: V1Trap) {
    |v.agent| == 4 && Fits(v.generic) && Fits(v.specific) && Fits(v.ticks)
  }

  /** A Trap-PDU: enterprise, agent address, the two trap numbers, time stamp, varbinds. */
  function V1Pdu(v: V1Trap, enterprise: seq<byte>, list: seq<byte>): seq<byte> {
    V1Body(enterprise, v.agent, TwosComplement(v.generic), TwosComplement(v.specific), TwosComplement(v.ticks),
           Enc.Frame(0x30, list))
  }

  lemma V1HeadReads(p: Printers, v: V1Trap, enterprise: seq<byte>, list: seq<byte>)
    requires LegalV1(v) && OidOf(enterprise) == Ok(v.enterprise) && |enterprise| < TWO_32
    ensures V1HeadOf(p, V1Pdu(v, enterprise, list)) ==
            Ok(V1Head(v.enterprise, p.ipText(v.agent), Low64(v.generic), Low64(v.specific), DecimalInt(v.ticks),
                      Enc.Frame(0x30, list)))
  {
    WrapIsLow64(v.generic);
    WrapIsLow64(v.specific);
    var g, s, u := TwosComplement(v.generic), TwosComplement(v.specific), TwosComplement(v.ticks);
    var rest := Enc.Frame(0x30, list);
    NumberReadBack(v.generic);
    NumberReadBack(v.specific);
    NumberReadBack(v.ticks);
    V1NumbersReadBack(v.enterprise, p.ipText(v.agent), g, s, u, rest);
    V1PartsReadBack(p, enterprise, v.enterprise, v.agent,
                    Enc.Frame(0x02, g) + (Enc.Frame(0x02, s) + (Enc.Frame(0x43, u) + rest)));
  }

  /** The event holds what a v1 message says. */
  ghost predicate CarriesV1(p: Printers, t: Model.Trap, v: V1Trap, binds: seq<Enc.VarBind>) {
    && t.enterpriseOid == v.enterprise && t.agentAddress == p.ipText(v.agent)
    && t.genericTrap == DecimalInt(Low64(v.generic)) && t.genericTrapName == StandardName(Low64(v.generic))
    && t.specificTrap == DecimalInt(Low64(v.specific)) && t.uptime == DecimalInt(v.ticks)
    && t.trapOid == "v1:" + v.enterprise + ":" + DecimalInt(Low64(v.generic)) + ":" + DecimalInt(Low64(v.specific))
    && t.requestId == 0 && t.errorStatus == 0 && t.errorIndex == 0
    && MessageTheorems.Decodes(p, binds, t.varBinds)
    && (forall oid, i | IsLast(t.varBinds, i, oid) :: Value(t.rawVarBindMap, oid) == t.varBinds[i].value)
  }

  lemma LastValues(vbs: seq<Model.VarBind>)
    ensures forall oid, i | IsLast(vbs, i, oid) :: Value(BindMap(map[], vbs), oid) == vbs[i].value
  {
    forall oid, i | IsLast(vbs, i, oid) ensures Value(BindMap(map[], vbs), oid) == vbs[i].value {
      BindMapKeepsLast(map[], vbs, oid);
    }
  }

  lemma GenericNames(generic: int)
    ensures GenericTrapName(generic) == StandardName(generic)
  {
  }

  lemma V1PduReads(p: Printers, t: Model.Trap, v: V1Trap, enterprise: seq<byte>, list: seq<byte>,
                   binds: seq<Enc.VarBind>)
    requires LegalV1(v) && OidOf(enterprise) == Ok(v.enterprise) && |enterprise| < TWO_32
    requires forall b | b in binds :: CanonicalOid(b.oid)
    requires Enc.VarBindsBytes(binds) == Some(list) && |list| < TWO_32
    requires t.rawVarBindMap == map[] && t.requestId == 0 && t.errorStatus == 0 && t.errorIndex == 0
    ensures V1Of(p, t, V1Pdu(v, enterprise, list)).Ok? <==> AllDecode(p, binds)
    ensures AllDecode(p, binds) ==> CarriesV1(p, V1Of(p, t, V1Pdu(v, enterprise, list)).value, v, binds)
  {
    V1HeadReads(p, v, enterprise, list);
    VarBindsReadBack(p, binds);
    DecodedInOrder(p, [], binds);
    if AllDecode(p, binds) {
      var vbs := DecodedFrom(p, [], binds).value;
      assert vbs[0..] == vbs;
      LastValues(vbs);
      GenericNames(Low64(v.generic));
    }
  }

  /** Everything but the fields of an event is left alone when they are built. */
  lemma FieldsKeepV1(p: Printers, aliases: map<string, string>, t: Model.Trap, v: V1Trap, binds: seq<Enc.VarBind>)
    requires CarriesV1(p, t, v, binds)
    ensures CarriesV1(p, WithFields(aliases, t), v, binds)
  {
  }

  lemma PduKeepsReceipt(p: Printers, t: Model.Trap, pdu: Tlv, from: Origin, msg: seq<byte>, version: int,
                        community: string, pduType: string)
    requires PduOf(p, t, pdu).Ok? && Received(t, from, msg, version, community, pduType)
    ensures Received(PduOf(p, t, pdu).value, from, msg, version, community, pduType)
  {
  }

  lemma FieldsKeepReceipt(aliases: map<string, string>, t: Model.Trap, from: Origin, msg: seq<byte>, version: int,
                          community: string, pduType: string)
    requires Received(t, from, msg, version, community, pduType)
    ensures Received(WithFields(aliases, t), from, msg, version, community, pduType)
  {
  }

  /** A message as it is before its PDU is read. */
  lemma OpenedIsReceived(msg: seq<byte>, from: Origin, version: int, community: string, pdu: Tlv)
    ensures var t := Opened(msg, from, Envelope(version, community, pdu));
            && Received(t, from, msg, version, community, "0x" + HexByte(pdu.tag))
            && t.rawVarBindMap == map[] && t.requestId == 0 && t.errorStatus == 0 && t.errorIndex == 0
            && t.enterpriseOid == "" && t.agentAddress == "" && t.genericTrap == "" && t.genericTrapName == ""
            && t.specificTrap == ""
  {
  }

  /** Reading a message whose envelope is known: its PDU decides, and what was received is kept. */
  lemma TrapReads(p: Printers, aliases: map<string, string>, msg: seq<byte>, from: Origin, version: int,
                  community: string, pdu: Tlv)
    requires EnvelopeOf(msg) == Ok(Envelope(version, community, pdu))
    ensures var read := PduOf(p, Opened(msg, from, Envelope(version, community, pdu)), pdu);
            var r := TrapOf(p, aliases, msg, from);
            && (r.Ok? <==> read.Ok?)
            && (r.Ok? ==> r.value == WithFields(aliases, read.value) &&
                          Received(r.value, from, msg, version, community, "0x" + HexByte(pdu.tag)))
  {
    var t := Opened(msg, from, Envelope(version, community, pdu));
    OpenedIsReceived(msg, from, version, community, pdu);
    if PduOf(p, t, pdu).Ok? {
      PduKeepsReceipt(p, t, pdu, from, msg, version, community, "0x" + HexByte(pdu.tag));
      FieldsKeepReceipt(aliases, PduOf(p, t, pdu).value, from, msg, version, community, "0x" + HexByte(pdu.tag));
    }
  }

  /**
   Message round trip for SNMPv1: for every community, enterprise, agent address, trap numbers, time
   stamp and varbinds, the message with a Trap-PDU (tag 0xA4) parses if and only if every value
   decodes, and each part lands in its own place of the event; of trap numbers beyond 64 bits the low
   64 bits do.
   */
  lemma V1MessageReadBack(p: Printers, aliases: map<string, string>, version: int, community: string, v: V1Trap,
                          enterprise: seq<byte>, list: seq<byte>, binds: seq<Enc.VarBind>, from: Origin)
    requires IsInt64(version) && IsGoString(community) && LegalV1(v)
    requires CanonicalOid(v.enterprise) && Enc.OidBytes(v.enterprise) == Some(enterprise)
    requires (forall b | b in binds :: CanonicalOid(b.oid)) && Enc.VarBindsBytes(binds) == Some(list)
    requires |Parts(version, community, 0xA4, V1Pdu(v, enterprise, list))| < TWO_32
    ensures var msg := WireMessage(version, community, 0xA4, V1Pdu(v, enterprise, list));
            var r := TrapOf(p, aliases, msg, from);
            && (r.Ok? <==> AllDecode(p, binds))
            && (r.Ok? ==> Received(r.value, from, msg, version, community, "0xa4") && CarriesV1(p, r.value, v, binds))
  {
    var pdu := V1Pdu(v, enterprise, list);
    var msg := WireMessage(version, community, 0xA4, pdu);
    var t := Opened(msg, from, Envelope(version, community, Tlv(0xA4, pdu)));
    EnvelopeReads(version, community, 0xA4, pdu);
    PartsAreShorter(version, community, 0xA4, pdu);
    V1PduIsLonger(v, enterprise, list);
    CanonicalIsNormal(v.enterprise);
    OpenedIsReceived(msg, from, version, community, Tlv(0xA4, pdu));
    V1PduReads(p, t, v, enterprise, list, binds);
    TrapReads(p, aliases, msg, from, version, community, Tlv(0xA4, pdu));
    HexA4A7();
    if AllDecode(p, binds) {
      FieldsKeepV1(p, aliases, V1Of(p, t, pdu).value, v, binds);
    }
  }

  lemma HexA4A7()
    ensures "0x" + HexByte(0xA4) == "0xa4" && "0x" + HexByte(0xA7) == "0xa7"
  {
  }

  lemma V1PduIsLonger(v: V1Trap, enterprise: seq<byte>, list: seq<byte>)
    ensures |enterprise| < |V1Pdu(v, enterprise, list)| && |list| < |V1Pdu(v, enterprise, list)|
  {
    FrameIsLonger(0x06, enterprise);
    FrameIsLonger(0x30, list);
  }

  // ---------------------------------------------------------------------- v2c

  datatype V2Trap = V2Trap(requestId: int, errorStatus: int, errorIndex: int)

  predicate LegalV2(v: V2Trap) {
    Fits(v.requestId) && Fits(v.errorStatus) && Fits(v.errorIndex)
  }

  /** An SNMPv2-Trap-PDU: request id, error status, error index, varbinds. */
  function V2Pdu(v: V2Trap, list: seq<byte>): seq<byte> {
    Enc.Frame(0x02, TwosComplement(v.requestId)) +
    (Enc.Frame(0x02, TwosComplement(v.errorStatus)) +
     (Enc.Frame(0x02, TwosComplement(v.errorIndex)) + Enc.Frame(0x30, list)))
  }

  lemma V2HeadReads(v: V2Trap, list: seq<byte>)
    requires LegalV2(v)
    ensures V2HeadOf(V2Pdu(v, list)) == Ok(V2Head(Clamp64(v.requestId), Clamp64(v.errorStatus),
                                                  Clamp64(v.errorIndex), Enc.Frame(0x30, list)))
  {
    var rest := Enc.Frame(0x30, list);
    var b2 := Enc.Frame(0x02, TwosComplement(v.errorIndex)) + rest;
    var b1 := Enc.Frame(0x02, TwosComplement(v.errorStatus)) + b2;
    NumberNext(0x02, v.errorIndex, rest);
    NumberNext(0x02, v.errorStatus, b2);
    NumberNext(0x02, v.requestId, b1);
  }

  /** The event holds what a v2c message says. */
  ghost predicate CarriesV2(p: Printers, t: Model.Trap, v: V2Trap, binds: seq<Enc.VarBind>) {
    && Nearest64(v.requestId, t.requestId) && Nearest64(v.errorStatus, t.errorStatus)
    && Nearest64(v.errorIndex, t.errorIndex)
    && t.enterpriseOid == "" && t.agentAddress == "" && t.genericTrap == "" && t.genericTrapName == ""
    && t.specificTrap == ""
    && MessageTheorems.Decodes(p, binds, t.varBinds)
    && TakenFromLast(t.varBinds, TRAP_OID, t.trapOid) && TakenFromLast(t.varBinds, UPTIME_OID, t.uptime)
    && (forall oid, i | IsLast(t.varBinds, i, oid) :: Value(t.rawVarBindMap, oid) == t.varBinds[i].value)
  }

  lemma V2PduReads(p: Printers, t: Model.Trap, v: V2Trap, list: seq<byte>, binds: seq<Enc.VarBind>)
    requires LegalV2(v) && (forall b | b in binds :: CanonicalOid(b.oid))
    requires Enc.VarBindsBytes(binds) == Some(list) && |list| < TWO_32
    requires t.rawVarBindMap == map[] && t.enterpriseOid == "" && t.agentAddress == "" && t.genericTrap == ""
    requires t.genericTrapName == "" && t.specificTrap == ""
    ensures V2Of(p, t, V2Pdu(v, list)).Ok? <==> AllDecode(p, binds)
    ensures AllDecode(p, binds) ==> CarriesV2(p, V2Of(p, t, V2Pdu(v, list)).value, v, binds)
  {
    V2HeadReads(v, list);
    VarBindsReadBack(p, binds);
    DecodedInOrder(p, [], binds);
    if AllDecode(p, binds) {
      var vbs := DecodedFrom(p, [], binds).value;
      assert vbs[0..] == vbs;
      NamesAreDigits(p, binds, vbs);
      WellKnownIsLast(vbs, TRAP_OID);
      WellKnownIsLast(vbs, UPTIME_OID);
      CarriedV2(p, t, v, Enc.Frame(0x30, list), binds, vbs);
    }
  }

  /** Filling an event from the parts of a v2c message. */
  lemma CarriedV2(p: Printers, t: Model.Trap, v: V2Trap, rest: seq<byte>, binds: seq<Enc.VarBind>,
                  vbs: seq<Model.VarBind>)
    requires t.rawVarBindMap == map[] && t.enterpriseOid == "" && t.agentAddress == "" && t.genericTrap == ""
    requires t.genericTrapName == "" && t.specificTrap == ""
    requires MessageTheorems.Decodes(p, binds, vbs)
    requires TakenFromLast(vbs, TRAP_OID, WellKnown(BindMap(map[], vbs), TRAP_OID))
    requires TakenFromLast(vbs, UPTIME_OID, WellKnown(BindMap(map[], vbs), UPTIME_OID))
    ensures var h := V2Head(Clamp64(v.requestId), Clamp64(v.errorStatus), Clamp64(v.errorIndex), rest);
            CarriesV2(p, WithV2VarBinds(WithV2Head(t, h), vbs), v, binds)
  {
    LastValues(vbs);
  }

  lemma FieldsKeepV2(p: Printers, aliases: map<string, string>, t: Model.Trap, v: V2Trap, binds: seq<Enc.VarBind>)
    requires CarriesV2(p, t, v, binds)
    ensures CarriesV2(p, WithFields(aliases, t), v, binds)
  {
  }

  lemma V2PduIsLonger(v: V2Trap, list: seq<byte>)
    ensures |list| < |V2Pdu(v, list)|
  {
    FrameIsLonger(0x30, list);
  }

  /**
   The same for SNMPv2c with any request id, error status and error index, cut to 64 bits at the
   nearest end: the message with an SNMPv2-Trap-PDU (tag 0xA7) parses if and only if every value
   decodes, each part in its own place.
   */
  lemma V2MessageReadBack(p: Printers, aliases: map<string, string>, version: int, community: string, v: V2Trap,
                          list: seq<byte>, binds: seq<Enc.VarBind>, from: Origin)
    requires IsInt64(version) && IsGoString(community) && LegalV2(v)
    requires (forall b | b in binds :: CanonicalOid(b.oid)) && Enc.VarBindsBytes(binds) == Some(list)
    requires |Parts(version, community, 0xA7, V2Pdu(v, list))| < TWO_32
    ensures var msg := WireMessage(version, community, 0xA7, V2Pdu(v, list));
            var r := TrapOf(p, aliases, msg, from);
            && (r.Ok? <==> AllDecode(p, binds))
            && (r.Ok? ==> Received(r.value, from, msg, version, community, "0xa7") && CarriesV2(p, r.value, v, binds))
  {
    var pdu := V2Pdu(v, list);
    var msg := WireMessage(version, community, 0xA7, pdu);
    var t := Opened(msg, from, Envelope(version, community, Tlv(0xA7, pdu)));
    EnvelopeReads(version, community, 0xA7, pdu);
    PartsAreShorter(version, community, 0xA7, pdu);
    V2PduIsLonger(v, list);
    OpenedIsReceived(msg, from, version, community, Tlv(0xA7, pdu));
    V2PduReads(p, t, v, list, binds);
    TrapReads(p, aliases, msg, from, version, community, Tlv(0xA7, pdu));
    HexA4A7();
    if AllDecode(p, binds) {
      FieldsKeepV2(p, aliases, V2Of(p, t, pdu).value, v, binds);
    }
  }

  // ------------------------------------------------------------------- fields

  /** What the header field of this name says of an event; a part that is missing has no field. */
  function HeaderField(t: Model.Trap, name: string): Option<string> {
    match name
    case "source_ip" => Some(t.sourceIP)
    case "source_port" => Some(DecimalInt(t.sourcePort))
    case "version" => Some(DecimalInt(t.version))
    case "community" => Some(t.community)
    case "pdu_type" => Some(t.pduType)
    case "enterprise_oid" => Given(t.enterpriseOid)
    case "agent_address" => Given(t.agentAddress)
    case "generic_trap" => Given(t.genericTrap)
    case "generic_trap_name" => Given(t.genericTrapName)
    case "specific_trap" => Given(t.specificTrap)
    case "uptime" => Given(t.uptime)
    case "request_id" => NonZero(t.requestId)
    case "error_status" => NonZero(t.errorStatus)
    case "error_index" => NonZero(t.errorIndex)
    case "trap_oid" => if t.trapOid == "" then None else Some(Normalize(t.trapOid))
    case _ => None
  }

  const V1_NAMES := {"enterprise_oid", "agent_address", "generic_trap", "generic_trap_name", "specific_trap"}
  const V2_NAMES := {"uptime", "request_id", "error_status", "error_index", "trap_oid"}

  function Given(text: string): Option<string> {
    if text == "" then None else Some(text)
  }

  function NonZero(n: int): Option<string> {
    if n == 0 then None else Some(DecimalInt(n))
  }

  function FieldAt(m: map<string, string>, name: string): Option<string> {
    if name in m then Some(m[name]) else None
  }

  /** A field that is put if present is there if present, and no other field is touched. */
  lemma PutField(m: map<string, string>, present: bool, key: string, value: string, name: string)
    ensures FieldAt(PutIf(m, present, key, value), name) ==
            if present && name == key then Some(value) else FieldAt(m, name)
  {
  }

  lemma V1Stage(m: map<string, string>, t: Model.Trap, name: string)
    requires name !in m
    ensures FieldAt(V1Fields(m, t), name) ==
            match name
            case "enterprise_oid" => Given(t.enterpriseOid)
            case "agent_address" => Given(t.agentAddress)
            case "generic_trap" => Given(t.genericTrap)
            case "generic_trap_name" => Given(t.genericTrapName)
            case "specific_trap" => Given(t.specificTrap)
            case _ => None
  {
    var m1 := PutIf(m, t.enterpriseOid != "", "enterprise_oid", t.enterpriseOid);
    var m2 := PutIf(m1, t.agentAddress != "", "agent_address", t.agentAddress);
    var m3 := PutIf(m2, t.genericTrap != "", "generic_trap", t.genericTrap);
    var m4 := PutIf(m3, t.genericTrapName != "", "generic_trap_name", t.genericTrapName);
    PutField(m, t.enterpriseOid != "", "enterprise_oid", t.enterpriseOid, name);
    PutField(m1, t.agentAddress != "", "agent_address", t.agentAddress, name);
    PutField(m2, t.genericTrap != "", "generic_trap", t.genericTrap, name);
    PutField(m3, t.genericTrapName != "", "generic_trap_name", t.genericTrapName, name);
    PutField(m4, t.specificTrap != "", "specific_trap", t.specificTrap, name);
  }

  lemma V1StageKeeps(m: map<string, string>, t: Model.Trap, name: string)
    requires name !in V1_NAMES
    ensures FieldAt(V1Fields(m, t), name) == FieldAt(m, name)
  {
    var m1 := PutIf(m, t.enterpriseOid != "", "enterprise_oid", t.enterpriseOid);
    var m2 := PutIf(m1, t.agentAddress != "", "agent_address", t.agentAddress);
    var m3 := PutIf(m2, t.genericTrap != "", "generic_trap", t.genericTrap);
    var m4 := PutIf(m3, t.genericTrapName != "", "generic_trap_name", t.genericTrapName);
    PutField(m, t.enterpriseOid != "", "enterprise_oid", t.enterpriseOid, name);
    PutField(m1, t.agentAddress != "", "agent_address", t.agentAddress, name);
    PutField(m2, t.genericTrap != "", "generic_trap", t.genericTrap, name);
    PutField(m3, t.genericTrapName != "", "generic_trap_name", t.genericTrapName, name);
    PutField(m4, t.specificTrap != "", "specific_trap", t.specificTrap, name);
  }

  lemma V2Stage(m: map<string, string>, t: Model.Trap, name: string)
    ensures FieldAt(V2Fields(m, t), name) ==
            if name == "uptime" && t.uptime != "" then Some(t.uptime)
            else if name == "request_id" && t.requestId != 0 then Some(DecimalInt(t.requestId))
            else if name == "error_status" && t.errorStatus != 0 then Some(DecimalInt(t.errorStatus))
            else if name == "error_index" && t.errorIndex != 0 then Some(DecimalInt(t.errorIndex))
            else if name == "trap_oid" && t.trapOid != "" then Some(Normalize(t.trapOid))
            else FieldAt(m, name)
  {
    var m1 := PutIf(m, t.uptime != "", "uptime", t.uptime);
    var m2 := PutIf(m1, t.requestId != 0, "request_id", DecimalInt(t.requestId));
    var m3 := PutIf(m2, t.errorStatus != 0, "error_status", DecimalInt(t.errorStatus));
    var m4 := PutIf(m3, t.errorIndex != 0, "error_index", DecimalInt(t.errorIndex));
    PutField(m, t.uptime != "", "uptime", t.uptime, name);
    PutField(m1, t.requestId != 0, "request_id", DecimalInt(t.requestId), name);
    PutField(m2, t.errorStatus != 0, "error_status", DecimalInt(t.errorStatus), name);
    PutField(m3, t.errorIndex != 0, "error_index", DecimalInt(t.errorIndex), name);
    PutField(m4, t.trapOid != "", "trap_oid", Normalize(t.trapOid), name);
  }

  lemma BaseOnly(t: Model.Trap, name: string)
    requires name !in V1_NAMES && name !in V2_NAMES
    ensures FieldAt(HeaderFields(t), name) == HeaderField(t, name)
  {
  }

  lemma V1NamesAreFree(t: Model.Trap, name: string)
    requires name in V1_NAMES || name in V2_NAMES
    ensures name !in HeaderFields(t)
  {
  }

  lemma V1Only(m: map<string, string>, t: Model.Trap, name: string)
    requires name in V1_NAMES && name !in m
    ensures FieldAt(V1Fields(m, t), name) == HeaderField(t, name)
  {
    V1Stage(m, t, name);
  }

  lemma V2Only(m: map<string, string>, t: Model.Trap, name: string)
    requires name in V2_NAMES && name !in m
    ensures FieldAt(V2Fields(m, t), name) == HeaderField(t, name)
  {
    V2Stage(m, t, name);
  }

  lemma V2StageKeeps(m: map<string, string>, t: Model.Trap, name: string)
    requires name !in V2_NAMES
    ensures FieldAt(V2Fields(m, t), name) == FieldAt(m, name)
  {
    V2Stage(m, t, name);
  }

  lemma HeaderOnly(t: Model.Trap, name: string)
    ensures FieldAt(V2Fields(V1Fields(HeaderFields(t), t), t), name) == HeaderField(t, name)
  {
    var m := HeaderFields(t);
    var m1 := V1Fields(m, t);
    if name in V2_NAMES {
      V1NamesAreFree(t, name);
      NamesApart(name);
      V1StageKeeps(m, t, name);
      V2Only(m1, t, name);
    } else {
      V2StageKeeps(m1, t, name);
      if name in V1_NAMES {
        V1NamesAreFree(t, name);
        V1Only(m, t, name);
      } else {
        V1StageKeeps(m, t, name);
        BaseOnly(t, name);
      }
    }
  }

  lemma NamesApart(name: string)
    requires name in V2_NAMES
    ensures name !in V1_NAMES
  {
  }

  /** Every header field, and no other, holds its part of the message, unless a varbind or alias writes it. */
  lemma HeaderFieldsSay(aliases: map<string, string>, t: Model.Trap, name: string)
    requires forall j | 0 <= j < |t.varBinds| :: !Writes(aliases, t.varBinds[j], name)
    ensures FieldAt(WithFields(aliases, t).fields, name) == HeaderField(t, name)
  {
    HeaderOnly(t, name);
    UnwrittenFieldKept(aliases, V2Fields(V1Fields(HeaderFields(t), t), t), t.varBinds, name);
  }
}
