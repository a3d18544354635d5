/** The SNMP v1/v2c trap parser (internal/snmp/parser.go). */
module Parser {
  import opened Basics
  import opened Text
  import opened Ber
  import opened OidUtil
  import opened Model

  const TRAP_OID := "1.3.6.1.6.3.1.1.4.1.0"
  const UPTIME_OID := "1.3.6.1.2.1.1.3.0"

  datatype ParseError =
    | BadBer(cause: BerError)
    | NotASequence
    | MissingVersion
    | VersionRange
    | MissingCommunity
    | UnsupportedPdu(tag: byte)
    | ExpectedVarBinds
    | ExpectedItem
    | ExpectedOid

  /** The next TLV of what is left, with the parser's error type. */
  function Next(rest: seq<byte>): (r: Result<Framed, ParseError>)
    ensures r.Ok? ==> 2 + |r.value.tlv.value| <= r.value.used <= |rest|
  {
    match ReadTlv(W64, rest)
    case Ok(f) => Ok(f)
    case Err(e) => Err(BadBer(e))
  }

  method ReadNext(reader: Reader) returns (r: Result<Tlv, ParseError>)
    requires reader.Valid() && reader.w == W64
    modifies reader
    ensures reader.Valid() && reader.pos >= old(reader.pos)
    ensures match Next(old(reader.Rest()))
            case Ok(f) => r == Ok(f.tlv) && reader.Rest() == old(reader.Rest())[f.used..]
            case Err(e) => r == Err(e)
    ensures r.Ok? ==> reader.pos > old(reader.pos)
  {
    var t := reader.ReadTLV();
    match t
    case Ok(tlv) => r := Ok(tlv);
    case Err(e) => r := Err(BadBer(e));
  }

  predicate IsUniversal(tag: byte, number: byte) {
    DecodeTagClass(tag) == Universal && DecodeTagNumber(tag) == number
  }

  // --------------------------------------------------------------- varbinds

  /** One varbind from the contents of its SEQUENCE; octets after the value are ignored. */
  function ItemOf(p: Printers, item: Tlv): Result<VarBind, ParseError> {
    if item.tag != 0x30 then Err(ExpectedItem)
    else
      match Next(item.value)
      case Err(e) => Err(e)
      case Ok(name) =>
        if !IsUniversal(name.tlv.tag, 6) then Err(ExpectedOid)
        else
          match OidOf(name.tlv.value)
          case Err(e) => Err(BadBer(e))
          case Ok(oid) =>
            match Next(item.value[name.used..])
            case Err(e) => Err(e)
            case Ok(value) =>
              match DecodeValue(p, value.tlv)
              case Err(e) => Err(BadBer(e))
              case Ok(t) => Ok(VarBind(Normalize(oid), t.typeName, t.value))
  }

  /** The varbinds of a list body, behind those already collected. */
  function ItemsFrom(p: Printers, acc: seq<VarBind>, rest: seq<byte>): Result<seq<VarBind>, ParseError>
    decreases |rest|
  {
    if rest == [] then Ok(acc)
    else
      match Next(rest)
      case Err(e) => Err(e)
      case Ok(item) =>
        match ItemOf(p, item.tlv)
        case Err(e) => Err(e)
        case Ok(vb) => ItemsFrom(p, acc + [vb], rest[item.used..])
  }

  function VarBindsOf(p: Printers, rest: seq<byte>): Result<seq<VarBind>, ParseError> {
    match Next(rest)
    case Err(e) => Err(e)
    case Ok(list) =>
      if list.tlv.tag != 0x30 then Err(ExpectedVarBinds) else ItemsFrom(p, [], list.tlv.value)
  }

  method DecodeItem(p: Printers, item: Tlv) returns (r: Result<VarBind, ParseError>)
    ensures r == ItemOf(p, item)
  {
    if item.tag != 0x30 { return Err(ExpectedItem); }
    var itemReader := new Reader(W64, item.value);
    var oidTlv := ReadNext(itemReader);
    if oidTlv.Err? { return Err(oidTlv.error); }
    if !IsUniversal(oidTlv.value.tag, 6) { return Err(ExpectedOid); }
    var oid := DecodeOID(oidTlv.value.value);
    if oid.Err? { return Err(BadBer(oid.error)); }
    var valueTlv := ReadNext(itemReader);
    if valueTlv.Err? { return Err(valueTlv.error); }
    match DecodeValue(p, valueTlv.value)
    case Err(e) => r := Err(BadBer(e));
    case Ok(t) => r := Ok(VarBind(Normalize(oid.value), t.typeName, t.value));
  }

  method DecodeVarBinds(p: Printers, reader: Reader) returns (r: Result<seq<VarBind>, ParseError>)
    requires reader.Valid() && reader.w == W64
    modifies reader
    ensures reader.Valid() && r == VarBindsOf(p, old(reader.Rest()))
  {
    var sequence := ReadNext(reader);
    if sequence.Err? { return Err(sequence.error); }
    if sequence.value.tag != 0x30 { return Err(ExpectedVarBinds); }

    var listReader := new Reader(W64, sequence.value.value);
    var result: seq<VarBind> := [];
    while !listReader.EOF()
      invariant listReader.Valid() && fresh(listReader) && reader.Valid()
      invariant VarBindsOf(p, old(reader.Rest())) == ItemsFrom(p, result, listReader.Rest())
      decreases |listReader.data| - listReader.pos
    {
      var item := ReadNext(listReader);
      if item.Err? { return Err(item.error); }
      var vb := DecodeItem(p, item.value);
      if vb.Err? { return Err(vb.error); }
      result := result + [vb.value];
    }
    r := Ok(result);
  }

  /** The map with each varbind's value stored under its OID, later ones replacing earlier ones. */
  function BindMap(m: map<string, string>, vbs: seq<VarBind>): map<string, string>
    decreases vbs
  {
    if vbs == [] then m else BindMap(m[vbs[0].oid := vbs[0].value], vbs[1..])
  }

  method FillBindMap(event: TrapEvent, vbs: seq<VarBind>)
    modifies event`rawVarBindMap
    ensures event.rawVarBindMap == BindMap(old(event.rawVarBindMap), vbs)
  {
    var i := 0;
    while i < |vbs|
      invariant 0 <= i <= |vbs|
      invariant BindMap(old(event.rawVarBindMap), vbs) == BindMap(event.rawVarBindMap, vbs[i..])
    {
      event.rawVarBindMap := event.rawVarBindMap[vbs[i].oid := vbs[i].value];
      i := i + 1;
    }
  }

  // -------------------------------------------------------------------- PDUs

  function GenericTrapName(generic: int): string {
    match generic
    case 0 => "coldStart"
    case 1 => "warmStart"
    case 2 => "linkDown"
    case 3 => "linkUp"
    case 4 => "authenticationFailure"
    case 5 => "egpNeighborLoss"
    case 6 => "enterpriseSpecific"
    case _ => DecimalInt(generic)
  }

  /** The fixed head of a v1 Trap-PDU and what follows it. */
  datatype V1Head = V1Head(enterprise: string, agent: string, generic: int, specific: int, uptime: string,
                           rest: seq<byte>)

  function V1HeadOf(p: Printers, body: seq<byte>): Result<V1Head, ParseError> {
    match Next(body)
    case Err(e) => Err(e)
    case Ok(enterprise) =>
      match OidOf(enterprise.tlv.value)
      case Err(e) => Err(BadBer(e))
      case Ok(oid) =>
        var b1 := body[enterprise.used..];
        match Next(b1)
        case Err(e) => Err(e)
        case Ok(agent) =>
          match DecodeValue(p, agent.tlv)
          case Err(e) => Err(BadBer(e))
          case Ok(address) => V1Numbers(oid, address.value, b1[agent.used..])
  }

  function V1Numbers(oid: string, address: string, b2: seq<byte>): Result<V1Head, ParseError> {
    match Next(b2)
    case Err(e) => Err(e)
    case Ok(generic) =>
      var b3 := b2[generic.used..];
      match Next(b3)
      case Err(e) => Err(e)
      case Ok(specific) =>
        var b4 := b3[specific.used..];
        match Next(b4)
        case Err(e) => Err(e)
        case Ok(uptime) =>
          Ok(V1Head(oid, address, Wrap64(DecodeSignedBigInt(generic.tlv.value)),
                    Wrap64(DecodeSignedBigInt(specific.tlv.value)),
                    DecimalInt(DecodeSignedBigInt(uptime.tlv.value)), b4[uptime.used..]))
  }

  function WithV1Head(t: Trap, h: V1Head): Trap {
    t.(enterpriseOid := h.enterprise,
       agentAddress := h.agent,
       genericTrap := DecimalInt(h.generic),
       genericTrapName := GenericTrapName(h.generic),
       specificTrap := DecimalInt(h.specific),
       uptime := h.uptime)
  }

  function WithV1VarBinds(t: Trap, h: V1Head, vbs: seq<VarBind>): Trap {
    t.(varBinds := vbs,
       rawVarBindMap := BindMap(t.rawVarBindMap, vbs),
       trapOid := "v1:" + h.enterprise + ":" + DecimalInt(h.generic) + ":" + DecimalInt(h.specific))
  }

  function V1Of(p: Printers, t: Trap, body: seq<byte>): Result<Trap, ParseError> {
    match V1HeadOf(p, body)
    case Err(e) => Err(e)
    case Ok(h) =>
      match VarBindsOf(p, h.rest)
      case Err(e) => Err(e)
      case Ok(vbs) => Ok(WithV1VarBinds(WithV1Head(t, h), h, vbs))
  }

  method ReadV1Head(p: Printers, reader: Reader) returns (r: Result<V1Head, ParseError>)
    requires reader.Valid() && reader.w == W64
    modifies reader
    ensures reader.Valid() && r == V1HeadOf(p, old(reader.Rest()))
    ensures r.Ok? ==> r.value.rest == reader.Rest()
  {
    var enterpriseTlv := ReadNext(reader);
    if enterpriseTlv.Err? { return Err(enterpriseTlv.error); }
    var enterpriseOid := DecodeOID(enterpriseTlv.value.value);
    if enterpriseOid.Err? { return Err(BadBer(enterpriseOid.error)); }
    var agentTlv := ReadNext(reader);
    if agentTlv.Err? { return Err(agentTlv.error); }
    var agent := DecodeValue(p, agentTlv.value);
    if agent.Err? { return Err(BadBer(agent.error)); }
    r := ReadV1Numbers(reader, enterpriseOid.value, agent.value.value);
  }

  method ReadV1Numbers(reader: Reader, oid: string, address: string) returns (r: Result<V1Head, ParseError>)
    requires reader.Valid() && reader.w == W64
    modifies reader
    ensures reader.Valid() && r == V1Numbers(oid, address, old(reader.Rest()))
    ensures r.Ok? ==> r.value.rest == reader.Rest()
  {
    var genericTlv := ReadNext(reader);
    if genericTlv.Err? { return Err(genericTlv.error); }
    var specificTlv := ReadNext(reader);
    if specificTlv.Err? { return Err(specificTlv.error); }
    var uptimeTlv := ReadNext(reader);
    if uptimeTlv.Err? { return Err(uptimeTlv.error); }
    r := Ok(V1Head(oid, address, Wrap64(DecodeSignedBigInt(genericTlv.value.value)),
                   Wrap64(DecodeSignedBigInt(specificTlv.value.value)),
                   DecimalInt(DecodeSignedBigInt(uptimeTlv.value.value)), reader.data[reader.pos..]));
  }

  method ParseV1(p: Printers, event: TrapEvent, body: seq<byte>) returns (e: Option<ParseError>)
    modifies event
    ensures match V1Of(p, old(event.View()), body)
            case Ok(t) => e == None && event.View() == t
            case Err(x) => e == Some(x)
  {
    var reader := new Reader(W64, body);
    var head := ReadV1Head(p, reader);
    if head.Err? { return Some(head.error); }
    StoreV1Head(event, head.value);
    var varbinds := DecodeVarBinds(p, reader);
    if varbinds.Err? { return Some(varbinds.error); }
    StoreV1VarBinds(event, head.value, varbinds.value);
    e := None;
  }

  method StoreV1Head(event: TrapEvent, h: V1Head)
    modifies event
    ensures event.View() == WithV1Head(old(event.View()), h)
  {
    event.enterpriseOid := h.enterprise;
    event.agentAddress := h.agent;
    event.genericTrap := DecimalInt(h.generic);
    event.genericTrapName := GenericTrapName(h.generic);
    event.specificTrap := DecimalInt(h.specific);
    event.uptime := h.uptime;
  }

  method StoreV1VarBinds(event: TrapEvent, h: V1Head, vbs: seq<VarBind>)
    modifies event
    ensures event.View() == WithV1VarBinds(old(event.View()), h, vbs)
  {
    event.varBinds := vbs;
    FillBindMap(event, vbs);
    event.trapOid := "v1:" + h.enterprise + ":" + DecimalInt(h.generic) + ":" + DecimalInt(h.specific);
  }

  function Value(m: map<string, string>, key: string): string {
    if key in m then m[key] else ""
  }

  function FirstNonEmpty(a: string, b: string): string {
    if a != "" then a else b
  }

  /** The value stored under an OID in either form, normalized. */
  function WellKnown(m: map<string, string>, oid: string): string {
    Normalize(FirstNonEmpty(Value(m, oid), Value(m, "." + oid)))
  }

  datatype V2Head = V2Head(requestId: int, errorStatus: int, errorIndex: int, rest: seq<byte>)

  function V2HeadOf(body: seq<byte>): Result<V2Head, ParseError> {
    match Next(body)
    case Err(e) => Err(e)
    case Ok(request) =>
      var b1 := body[request.used..];
      match Next(b1)
      case Err(e) => Err(e)
      case Ok(status) =>
        var b2 := b1[status.used..];
        match Next(b2)
        case Err(e) => Err(e)
        case Ok(index) =>
          Ok(V2Head(Clamp64(DecodeSignedBigInt(request.tlv.value)), Clamp64(DecodeSignedBigInt(status.tlv.value)),
                    Clamp64(DecodeSignedBigInt(index.tlv.value)), b2[index.used..]))
  }

  function WithV2Head(t: Trap, h: V2Head): Trap {
    t.(requestId := h.requestId, errorStatus := h.errorStatus, errorIndex := h.errorIndex)
  }

  function WithV2VarBinds(t: Trap, vbs: seq<VarBind>): Trap {
    var m := BindMap(t.rawVarBindMap, vbs);
    t.(varBinds := vbs,
       rawVarBindMap := m,
       trapOid := WellKnown(m, TRAP_OID),
       uptime := WellKnown(m, UPTIME_OID))
  }

  function V2Of(p: Printers, t: Trap, body: seq<byte>): Result<Trap, ParseError> {
    match V2HeadOf(body)
    case Err(e) => Err(e)
    case Ok(h) =>
      match VarBindsOf(p, h.rest)
      case Err(e) => Err(e)
      case Ok(vbs) => Ok(WithV2VarBinds(WithV2Head(t, h), vbs))
  }

  method ReadV2Head(reader: Reader) returns (r: Result<V2Head, ParseError>)
    requires reader.Valid() && reader.w == W64
    modifies reader
    ensures reader.Valid() && r == V2HeadOf(old(reader.Rest()))
    ensures r.Ok? ==> r.value.rest == reader.Rest()
  {
    var requestTlv := ReadNext(reader);
    if requestTlv.Err? { return Err(requestTlv.error); }
    var errorStatusTlv := ReadNext(reader);
    if errorStatusTlv.Err? { return Err(errorStatusTlv.error); }
    var errorIndexTlv := ReadNext(reader);
    if errorIndexTlv.Err? { return Err(errorIndexTlv.error); }
    r := Ok(V2Head(Clamp64(DecodeSignedBigInt(requestTlv.value.value)),
                   Clamp64(DecodeSignedBigInt(errorStatusTlv.value.value)),
                   Clamp64(DecodeSignedBigInt(errorIndexTlv.value.value)), reader.data[reader.pos..]));
  }

  method ParseV2(p: Printers, event: TrapEvent, body: seq<byte>) returns (e: Option<ParseError>)
    modifies event
    ensures match V2Of(p, old(event.View()), body)
            case Ok(t) => e == None && event.View() == t
            case Err(x) => e == Some(x)
  {
    var reader := new Reader(W64, body);
    var head := ReadV2Head(reader);
    if head.Err? { return Some(head.error); }
    StoreV2Head(event, head.value);
    var varbinds := DecodeVarBinds(p, reader);
    if varbinds.Err? { return Some(varbinds.error); }
    StoreV2VarBinds(event, varbinds.value);
    e := None;
  }

  method StoreV2Head(event: TrapEvent, h: V2Head)
    modifies event
    ensures event.View() == WithV2Head(old(event.View()), h)
  {
    event.requestId := h.requestId;
    event.errorStatus := h.errorStatus;
    event.errorIndex := h.errorIndex;
  }

  method StoreV2VarBinds(event: TrapEvent, vbs: seq<VarBind>)
    modifies event
    ensures event.View() == WithV2VarBinds(old(event.View()), vbs)
  {
    event.varBinds := vbs;
    FillBindMap(event, vbs);
    event.trapOid := WellKnown(event.rawVarBindMap, TRAP_OID);
    event.uptime := WellKnown(event.rawVarBindMap, UPTIME_OID);
  }

  // ------------------------------------------------------------------ fields

  function PutIf(m: map<string, string>, present: bool, key: string, value: string): map<string, string> {
    if present then m[key := value] else m
  }

  function HeaderFields(t: Trap): map<string, string> {
    map["source_ip" := t.sourceIP,
        "source_port" := DecimalInt(t.sourcePort),
        "version" := DecimalInt(t.version),
        "community" := t.community,
        "pdu_type" := t.pduType]
  }

  function V1Fields(m: map<string, string>, t: Trap): map<string, string> {
    var m1 := PutIf(m, t.enterpriseOid != "", "enterprise_oid", t.enterpriseOid);
    var m2 := PutIf(m1, t.agentAddress != "", "agent_address", t.agentAddress);
    var m3 := PutIf(m2, t.genericTrap != "", "generic_trap", t.genericTrap);
    var m4 := PutIf(m3, t.genericTrapName != "", "generic_trap_name", t.genericTrapName);
    PutIf(m4, t.specificTrap != "", "specific_trap", t.specificTrap)
  }

  function V2Fields(m: map<string, string>, t: Trap): map<string, string> {
    var m1 := PutIf(m, t.uptime != "", "uptime", t.uptime);
    var m2 := PutIf(m1, t.requestId != 0, "request_id", DecimalInt(t.requestId));
    var m3 := PutIf(m2, t.errorStatus != 0, "error_status", DecimalInt(t.errorStatus));
    var m4 := PutIf(m3, t.errorIndex != 0, "error_index", DecimalInt(t.errorIndex));
    PutIf(m4, t.trapOid != "", "trap_oid", Normalize(t.trapOid))
  }

  /** The name configured for an OID, if there is a non-empty one. */
  function Alias(aliases: map<string, string>, oid: string): Option<string> {
    match Lookup(aliases, oid)
    case Some(name) => if name == "" then None else Some(name)
    case None => None
  }

  function WithVarBind(aliases: map<string, string>, m: map<string, string>, vb: VarBind): map<string, string> {
    var oidName := Normalize(vb.oid);
    var m1 := m["varbind." + oidName := vb.value];
    match Alias(aliases, oidName)
    case None => m1
    case Some(name) => m1[name := vb.value]["fields." + name := vb.value]
  }

  function WithVarBinds(aliases: map<string, string>, m: map<string, string>, vbs: seq<VarBind>): map<string, string>
    decreases vbs
  {
    if vbs == [] then m else WithVarBinds(aliases, WithVarBind(aliases, m, vbs[0]), vbs[1..])
  }

  function FieldsOf(aliases: map<string, string>, t: Trap): map<string, string> {
    WithVarBinds(aliases, V2Fields(V1Fields(HeaderFields(t), t), t), t.varBinds)
  }

  function WithFields(aliases: map<string, string>, t: Trap): Trap {
    t.(fields := FieldsOf(aliases, t))
  }

  method BuildFields(event: TrapEvent, aliases: map<string, string>)
    modifies event
    ensures event.View() == WithFields(aliases, old(event.View()))
  {
    var fields := map[
      "source_ip" := event.sourceIP,
      "source_port" := DecimalInt(event.sourcePort),
      "version" := DecimalInt(event.version),
      "community" := event.community,
      "pdu_type" := event.pduType];
    fields := AddV1Fields(event, fields);
    fields := AddV2Fields(event, fields);
    fields := AddVarBindFields(aliases, fields, event.varBinds);
    event.fields := fields;
  }

  method AddV1Fields(event: TrapEvent, start: map<string, string>) returns (fields: map<string, string>)
    ensures fields == V1Fields(start, event.View())
  {
    fields := start;
    if event.enterpriseOid != "" { fields := fields["enterprise_oid" := event.enterpriseOid]; }
    if event.agentAddress != "" { fields := fields["agent_address" := event.agentAddress]; }
    if event.genericTrap != "" { fields := fields["generic_trap" := event.genericTrap]; }
    if event.genericTrapName != "" { fields := fields["generic_trap_name" := event.genericTrapName]; }
    if event.specificTrap != "" { fields := fields["specific_trap" := event.specificTrap]; }
  }

  method AddV2Fields(event: TrapEvent, start: map<string, string>) returns (fields: map<string, string>)
    ensures fields == V2Fields(start, event.View())
  {
    fields := start;
    if event.uptime != "" { fields := fields["uptime" := event.uptime]; }
    if event.requestId != 0 { fields := fields["request_id" := DecimalInt(event.requestId)]; }
    if event.errorStatus != 0 { fields := fields["error_status" := DecimalInt(event.errorStatus)]; }
    if event.errorIndex != 0 { fields := fields["error_index" := DecimalInt(event.errorIndex)]; }
    if event.trapOid != "" { fields := fields["trap_oid" := Normalize(event.trapOid)]; }
  }

  method AddVarBindFields(aliases: map<string, string>, start: map<string, string>, vbs: seq<VarBind>)
    returns (fields: map<string, string>)
    ensures fields == WithVarBinds(aliases, start, vbs)
  {
    fields := start;
    var i := 0;
    while i < |vbs|
      invariant 0 <= i <= |vbs|
      invariant WithVarBinds(aliases, start, vbs) == WithVarBinds(aliases, fields, vbs[i..])
    {
      var vb := vbs[i];
      var oidName := Normalize(vb.oid);
      fields := fields["varbind." + oidName := vb.value];
      var name := Alias(aliases, oidName);
      if name.Some? {
        fields := fields[name.value := vb.value];
        fields := fields["fields." + name.value := vb.value];
      }
      i := i + 1;
    }
  }

  // ---------------------------------------------------------------- messages

  /** Where a datagram came from and when it was read. */
  datatype Origin = Origin(receivedAt: int, ip: string, port: int)

  datatype Envelope = Envelope(version: int, community: string, pdu: Tlv)

  /** The version, community and PDU of a message. */
  function EnvelopeOf(data: seq<byte>): Result<Envelope, ParseError> {
    match Next(data)
    case Err(e) => Err(e)
    case Ok(outer) => if outer.tlv.tag != 0x30 then Err(NotASequence) else InnerOf(outer.tlv.value)
  }

  function InnerOf(message: seq<byte>): Result<Envelope, ParseError> {
    match Next(message)
    case Err(e) => Err(e)
    case Ok(version) =>
      if !IsUniversal(version.tlv.tag, 2) then Err(MissingVersion)
      else if !IsInt64(DecodeSignedBigInt(version.tlv.value)) then Err(VersionRange)
      else
        var m1 := message[version.used..];
        match Next(m1)
        case Err(e) => Err(e)
        case Ok(community) =>
          if !IsUniversal(community.tlv.tag, 4) then Err(MissingCommunity)
          else
            match Next(m1[community.used..])
            case Err(e) => Err(e)
            case Ok(pdu) =>
              Ok(Envelope(DecodeSignedBigInt(version.tlv.value), FromBytes(community.tlv.value), pdu.tlv))
  }

  function Opened(data: seq<byte>, from: Origin, env: Envelope): Trap {
    Received(from.receivedAt, from.ip, from.port, data, env.version, env.community, "0x" + HexByte(env.pdu.tag))
  }

  function PduOf(p: Printers, t: Trap, pdu: Tlv): Result<Trap, ParseError> {
    if pdu.tag == 0xA4 then V1Of(p, t, pdu.value)
    else if pdu.tag == 0xA7 then V2Of(p, t, pdu.value)
    else Err(UnsupportedPdu(pdu.tag))
  }

  function TrapOf(p: Printers, aliases: map<string, string>, data: seq<byte>, from: Origin): Result<Trap, ParseError> {
    match EnvelopeOf(data)
    case Err(e) => Err(e)
    case Ok(env) =>
      match PduOf(p, Opened(data, from, env), env.pdu)
      case Err(e) => Err(e)
      case Ok(t) => Ok(WithFields(aliases, t))
  }

  method ReadEnvelope(data: seq<byte>) returns (r: Result<Envelope, ParseError>)
    ensures r == EnvelopeOf(data)
  {
    var reader := new Reader(W64, data);
    var outer := ReadNext(reader);
    if outer.Err? { return Err(outer.error); }
    if outer.value.tag != 0x30 { return Err(NotASequence); }
    var msgReader := new Reader(W64, outer.value.value);
    var versionTlv := ReadNext(msgReader);
    if versionTlv.Err? { return Err(versionTlv.error); }
    if !IsUniversal(versionTlv.value.tag, 2) { return Err(MissingVersion); }
    var version := DecodeSignedBigInt(versionTlv.value.value);
    if !IsInt64(version) { return Err(VersionRange); }
    var communityTlv := ReadNext(msgReader);
    if communityTlv.Err? { return Err(communityTlv.error); }
    if !IsUniversal(communityTlv.value.tag, 4) { return Err(MissingCommunity); }
    var pduTlv := ReadNext(msgReader);
    if pduTlv.Err? { return Err(pduTlv.error); }
    r := Ok(Envelope(version, FromBytes(communityTlv.value.value), pduTlv.value));
  }

  method ParsePdu(p: Printers, event: TrapEvent, pdu: Tlv) returns (e: Option<ParseError>)
    modifies event
    ensures match PduOf(p, old(event.View()), pdu)
            case Ok(t) => e == None && event.View() == t
            case Err(x) => e == Some(x)
  {
    if pdu.tag == 0xA4 {
      e := ParseV1(p, event, pdu.value);
    } else if pdu.tag == 0xA7 {
      e := ParseV2(p, event, pdu.value);
    } else {
      e := Some(UnsupportedPdu(pdu.tag));
    }
  }

  method ParseTrap(p: Printers, aliases: map<string, string>, data: seq<byte>, from: Origin)
    returns (r: Result<TrapEvent, ParseError>)
    ensures match TrapOf(p, aliases, data, from)
            case Ok(t) => r.Ok? && fresh(r.value) && r.value.View() == t
            case Err(e) => r == Err(e)
  {
    var env := ReadEnvelope(data);
    if env.Err? { return Err(env.error); }
    var pdu := env.value.pdu;
    var event := new TrapEvent(from.receivedAt, from.ip, from.port, data, env.value.version,
                               env.value.community, "0x" + HexByte(pdu.tag));
    var e := ParsePdu(p, event, pdu);
    if e.Some? { return Err(e.value); }
    BuildFields(event, aliases);
    r := Ok(event);
  }
}
