/** The parser on arbitrary octets: tiling of varbind lists, and what trailing octets change. */
module ParserTheorems {
  import opened Basics
  import opened Ber
  import opened OidUtil
  import opened Parser
  import opened TlvTheorems
  import opened Model

  // -------------------------------------------------------------------- tiling

  /** The items cover the body from its first octet to its last, without gap or overlap. */
  predicate Tiles(body: seq<byte>, items: seq<Framed>)
    decreases items
  {
    if items == [] then body == []
    else Next(body) == Ok(items[0]) && Tiles(body[items[0].used..], items[1..])
  }

  /** The TLVs read one after the other until the end or the first failure. */
  function Chunks(body: seq<byte>): seq<Framed>
    decreases |body|
  {
    if body == [] then []
    else
      match Next(body)
      case Err(_) => []
      case Ok(f) => [f] + Chunks(body[f.used..])
  }

  function TotalUsed(items: seq<Framed>): nat
    decreases items
  {
    if items == [] then 0 else items[0].used + TotalUsed(items[1..])
  }

  /** A varbind item takes at least six octets: its own header and those of an OID and a value. */
  lemma ItemTakesSix(p: Printers, body: seq<byte>)
    requires Next(body).Ok? && ItemOf(p, Next(body).value.tlv).Ok?
    ensures Next(body).value.used >= 6
  {
    var item := Next(body).value.tlv;
    var name := Next(item.value).value;
    assert Next(item.value[name.used..]).Ok?;
  }

  /** Every item is a well-formed varbind. */
  predicate AllItems(p: Printers, items: seq<Framed>)
    decreases items
  {
    items == [] || (ItemOf(p, items[0].tlv).Ok? && AllItems(p, items[1..]))
  }

  lemma {:induction false} TilesIffOk(p: Printers, acc: seq<VarBind>, body: seq<byte>)
    ensures ItemsFrom(p, acc, body).Ok? <==>
            Tiles(body, Chunks(body)) && AllItems(p, Chunks(body))
    decreases |body|
  {
    if body != [] && Next(body).Ok? {
      var f := Next(body).value;
      var all, rest := Chunks(body), Chunks(body[f.used..]);
      assert all == [f] + rest && all[1..] == rest && all[0] == f;
      if ItemOf(p, f.tlv).Ok? {
        TilesIffOk(p, acc + [ItemOf(p, f.tlv).value], body[f.used..]);
      }
    }
  }

  lemma {:induction false} ItemsFill(p: Printers, acc: seq<VarBind>, body: seq<byte>)
    requires ItemsFrom(p, acc, body).Ok?
    ensures TotalUsed(Chunks(body)) == |body|
    ensures 6 * |Chunks(body)| <= |body|
    decreases |body|
  {
    if body != [] {
      var f := Next(body).value;
      var vb := ItemOf(p, f.tlv).value;
      ItemTakesSix(p, body);
      ItemsFill(p, acc + [vb], body[f.used..]);
      assert Chunks(body)[1..] == Chunks(body[f.used..]);
    }
  }

  /** The varbinds are the items decoded one by one, in order. */
  predicate Decodes(p: Printers, items: seq<Framed>, vbs: seq<VarBind>)
    decreases items
  {
    if items == [] then vbs == []
    else vbs != [] && ItemOf(p, items[0].tlv) == Ok(vbs[0]) && Decodes(p, items[1..], vbs[1..])
  }

  lemma {:induction false} ItemsAreDecoded(p: Printers, acc: seq<VarBind>, body: seq<byte>)
    requires ItemsFrom(p, acc, body).Ok?
    ensures var vbs := ItemsFrom(p, acc, body).value;
            acc <= vbs && |vbs| == |acc| + |Chunks(body)| && Decodes(p, Chunks(body), vbs[|acc|..])
    decreases |body|
  {
    if body != [] {
      var f := Next(body).value;
      var vb, rest := ItemOf(p, f.tlv).value, body[f.used..];
      var more, vbs := acc + [vb], ItemsFrom(p, acc, body).value;
      ItemsAreDecoded(p, more, rest);
      assert Chunks(body)[0] == f && Chunks(body)[1..] == Chunks(rest);
      assert vbs[|acc|] == more[|acc|] == vb;
      assert vbs[|acc|..][1..] == vbs[|more|..];
    }
  }

  /**
   On any octets at all, the varbind loop succeeds if and only if well-formed items tile the body;
   the varbinds are then the items decoded in order, at most one per six octets.
   */
  lemma ItemsTile(p: Printers, body: seq<byte>)
    ensures ItemsFrom(p, [], body).Ok? <==> Tiles(body, Chunks(body)) && AllItems(p, Chunks(body))
    ensures ItemsFrom(p, [], body).Ok? ==>
              var vbs, items := ItemsFrom(p, [], body).value, Chunks(body);
              && |vbs| == |items| && Decodes(p, items, vbs)
              && TotalUsed(items) == |body|
              && 6 * |vbs| <= |body|
  {
    TilesIffOk(p, [], body);
    if ItemsFrom(p, [], body).Ok? {
      ItemsFill(p, [], body);
      ItemsAreDecoded(p, [], body);
      assert ItemsFrom(p, [], body).value[0..] == ItemsFrom(p, [], body).value;
    }
  }

  // ------------------------------------------------------------ trailing octets

  lemma PduIgnoresRawBytes(p: Printers, t: Trap, pdu: Tlv, raw: seq<byte>)
    ensures PduOf(p, t.(rawBytes := raw), pdu) ==
            match PduOf(p, t, pdu)
            case Err(e) => Err(e)
            case Ok(u) => Ok(u.(rawBytes := raw))
  {
  }

  lemma FieldsIgnoreRawBytes(aliases: map<string, string>, t: Trap, raw: seq<byte>)
    ensures WithFields(aliases, t.(rawBytes := raw)) == WithFields(aliases, t).(rawBytes := raw)
  {
  }

  /** Octets after a complete outer TLV change nothing in the outcome but the stored datagram. */
  lemma TrailingOctetsIgnored(p: Printers, aliases: map<string, string>, data: seq<byte>, suffix: seq<byte>,
                              from: Origin)
    requires Next(data).Ok?
    ensures TrapOf(p, aliases, data + suffix, from) ==
            match TrapOf(p, aliases, data, from)
            case Err(e) => Err(e)
            case Ok(t) => Ok(t.(rawBytes := data + suffix))
  {
    ReadIsStable(W64, data, suffix);
    assert EnvelopeOf(data + suffix) == EnvelopeOf(data);
    if EnvelopeOf(data).Ok? {
      var env := EnvelopeOf(data).value;
      var t := Opened(data, from, env);
      PduIgnoresRawBytes(p, t, env.pdu, data + suffix);
      if PduOf(p, t, env.pdu).Ok? {
        FieldsIgnoreRawBytes(aliases, PduOf(p, t, env.pdu).value, data + suffix);
      }
    }
  }

  /**
   A datagram cut to some size: as long as the cut leaves the outer TLV whole, it changes nothing in
   the outcome but the stored datagram; otherwise nothing is parsed.
   */
  lemma CutDatagramParsesIff(p: Printers, aliases: map<string, string>, data: seq<byte>, size: nat, from: Origin)
    requires Next(data).Ok? && size <= |data|
    ensures if Next(data).value.used <= size then
              TrapOf(p, aliases, data[..size], from) ==
              match TrapOf(p, aliases, data, from)
              case Err(e) => Err(e)
              case Ok(t) => Ok(t.(rawBytes := data[..size]))
            else TrapOf(p, aliases, data[..size], from).Err?
  {
    CutIsReadIff(W64, data, size);
    if Next(data).value.used <= size {
      assert data[..size] + data[size..] == data;
      TrailingOctetsIgnored(p, aliases, data[..size], data[size..], from);
      if TrapOf(p, aliases, data[..size], from).Ok? {
        ParsedKeepsDatagram(p, aliases, data[..size], from);
      }
    }
  }

  /** Neither PDU parser touches the stored datagram, the time of receipt or the log mark. */
  lemma PduKeepsDatagram(p: Printers, t: Trap, pdu: Tlv)
    requires PduOf(p, t, pdu).Ok?
    ensures var u := PduOf(p, t, pdu).value;
            u.rawBytes == t.rawBytes && u.receivedAt == t.receivedAt && u.alertsLogged == t.alertsLogged
  {
  }

  /** A parsed event stores the datagram it was parsed from, and has not been logged yet. */
  lemma ParsedKeepsDatagram(p: Printers, aliases: map<string, string>, data: seq<byte>, from: Origin)
    requires TrapOf(p, aliases, data, from).Ok?
    ensures var t := TrapOf(p, aliases, data, from).value;
            t.rawBytes == data && t.receivedAt == from.receivedAt && !t.alertsLogged
  {
    var env := EnvelopeOf(data).value;
    var t := Opened(data, from, env);
    PduKeepsDatagram(p, t, env.pdu);
    assert TrapOf(p, aliases, data, from) == Ok(WithFields(aliases, PduOf(p, t, env.pdu).value));
  }

  // -------------------------------------------------------------------- fields

  /** Building the fields of this varbind writes the key. */
  predicate Writes(aliases: map<string, string>, vb: VarBind, key: string) {
    var oid := Normalize(vb.oid);
    key == "varbind." + oid ||
    (Alias(aliases, oid).Some? && (key == Alias(aliases, oid).value || key == "fields." + Alias(aliases, oid).value))
  }

  lemma WritesItsValue(aliases: map<string, string>, m: map<string, string>, vb: VarBind, key: string)
    ensures var m' := WithVarBind(aliases, m, vb);
            if Writes(aliases, vb, key) then key in m' && m'[key] == vb.value
            else (key in m' <==> key in m) && (key in m ==> m'[key] == m[key])
  {
  }

  /** The configuration names the OID, as it is or with a leading dot; an empty name is none. */
  predicate Named(aliases: map<string, string>, oid: string, name: string) {
    name != "" && name == if oid in aliases then aliases[oid]
                          else if "." + oid in aliases then aliases["." + oid]
                          else ""
  }

  /** Which fields a varbind writes: its own, and under its OID's name, if it has one, two more. */
  lemma WritesIff(aliases: map<string, string>, vb: VarBind, key: string)
    requires Normalize(vb.oid) == vb.oid
    ensures Writes(aliases, vb, key) <==>
            key == "varbind." + vb.oid ||
            exists name | Named(aliases, vb.oid, name) :: key == name || key == "fields." + name
  {
    forall name ensures Named(aliases, vb.oid, name) <==> Alias(aliases, vb.oid) == Some(name) {
    }
  }

  /** Varbind i is the last to write the key. */
  predicate LastWriter(aliases: map<string, string>, vbs: seq<VarBind>, i: int, key: string) {
    0 <= i < |vbs| && Writes(aliases, vbs[i], key) && forall j | i < j < |vbs| :: !Writes(aliases, vbs[j], key)
  }

  /** A field no varbind writes keeps its header value. */
  lemma {:induction false} UnwrittenFieldKept(aliases: map<string, string>, m: map<string, string>, vbs: seq<VarBind>,
                                              key: string)
    requires forall j | 0 <= j < |vbs| :: !Writes(aliases, vbs[j], key)
    ensures var m' := WithVarBinds(aliases, m, vbs);
            (key in m' <==> key in m) && (key in m ==> m'[key] == m[key])
    decreases vbs
  {
    if vbs != [] {
      WritesItsValue(aliases, m, vbs[0], key);
      UnwrittenFieldKept(aliases, WithVarBind(aliases, m, vbs[0]), vbs[1..], key);
    }
  }

  /** Every other field holds the value of the last varbind that writes it, under its OID or its alias. */
  lemma {:induction false} LastWriterWins(aliases: map<string, string>, m: map<string, string>, vbs: seq<VarBind>,
                                          i: nat, key: string)
    requires LastWriter(aliases, vbs, i, key)
    ensures key in WithVarBinds(aliases, m, vbs) && WithVarBinds(aliases, m, vbs)[key] == vbs[i].value
    decreases vbs
  {
    var m1, rest := WithVarBind(aliases, m, vbs[0]), vbs[1..];
    assert forall j | 0 <= j < |rest| :: rest[j] == vbs[j + 1];
    if i == 0 {
      WritesItsValue(aliases, m, vbs[0], key);
      UnwrittenFieldKept(aliases, m1, rest, key);
    } else {
      LastWriterWins(aliases, m1, rest, i - 1, key);
    }
  }

  /** The trap OID field is the normalized trap OID, unless a varbind's alias takes its place. */
  lemma TrapOidField(aliases: map<string, string>, t: Trap)
    requires t.trapOid != "" && forall j | 0 <= j < |t.varBinds| :: !Writes(aliases, t.varBinds[j], "trap_oid")
    ensures var fields := WithFields(aliases, t).fields;
            "trap_oid" in fields && fields["trap_oid"] == Normalize(t.trapOid)
  {
    UnwrittenFieldKept(aliases, V2Fields(V1Fields(HeaderFields(t), t), t), t.varBinds, "trap_oid");
  }
}
