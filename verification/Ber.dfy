/** The BER reader and value decoders (internal/ber/ber.go). */
module Ber {
  import opened Basics
  import opened Text

  datatype BerError =
    | TruncatedData
    | IndefiniteLength
    | LengthTooLarge
    | TruncatedLength
    | LengthOverflow
    | TruncatedValue
    | TruncatedOid

  datatype Tlv = Tlv(tag: byte, value: seq<byte>)

  /** A TLV together with the number of octets it occupied. */
  datatype Framed = Framed(tlv: Tlv, used: nat)

  /** The width of the platform's int. */
  datatype IntWidth = W32 | W64 {
    function MaxInt(): int {
      if W32? then 0x7FFF_FFFF else INT64_MAX
    }
  }

  // ---------------------------------------------------------------- lengths

  /** Big-endian value of an octet string. */
  function Nat(data: seq<byte>): nat {
    if data == [] then 0 else Nat(data[..|data| - 1]) * 256 + data[|data| - 1]
  }

  /** The accumulator after the length octets, or None once a shift would leave the int range. */
  function LengthOf(w: IntWidth, octets: seq<byte>): Option<int> {
    if octets == [] then Some(0)
    else
      match LengthOf(w, octets[..|octets| - 1])
      case None => None
      case Some(n) => if n > w.MaxInt() / 256 then None else Some(n * 256 + octets[|octets| - 1])
  }

  lemma LengthOfBounds(w: IntWidth, octets: seq<byte>)
    ensures LengthOf(w, octets).Some? ==> 0 <= LengthOf(w, octets).value <= w.MaxInt()
  {
  }

  /** Tag, announced length and size in octets of a TLV header. */
  datatype Header = Header(tag: byte, length: nat, size: nat)

  /** The header `data` starts with, with every way in which it can be refused. */
  function ReadHeader(w: IntWidth, data: seq<byte>): (r: Result<Header, BerError>)
    ensures r.Ok? ==> 2 <= r.value.size <= |data|
  {
    if |data| < 2 then Err(TruncatedData)
    else if data[1] < 0x80 then Ok(Header(data[0], data[1], 2))
    else
      var count := data[1] - 0x80;
      if count == 0 then Err(IndefiniteLength)
      else if count > 4 then Err(LengthTooLarge)
      else if |data| - 2 < count then Err(TruncatedLength)
      else
        LengthOfBounds(w, data[2..2 + count]);
        match LengthOf(w, data[2..2 + count])
        case None => Err(LengthOverflow)
        case Some(length) => Ok(Header(data[0], length, 2 + count))
  }

  /** The first TLV of `data`. */
  function ReadTlv(w: IntWidth, data: seq<byte>): (r: Result<Framed, BerError>)
    ensures r.Ok? ==> 2 + |r.value.tlv.value| <= r.value.used <= |data|
  {
    match ReadHeader(w, data)
    case Err(e) => Err(e)
    case Ok(h) =>
      if |data| - h.size < h.length then Err(TruncatedValue)
      else Ok(Framed(Tlv(h.tag, data[h.size..h.size + h.length]), h.size + h.length))
  }

  class Reader {
    const w: IntWidth
    const data: seq<byte>
    var pos: nat

    ghost predicate Valid()
      reads this
    {
      pos <= |data|
    }

    /** What has not been read yet. */
    ghost function Rest(): seq<byte>
      requires Valid()
      reads this
    {
      data[pos..]
    }

    constructor (w: IntWidth, data: seq<byte>)
      ensures Valid() && this.w == w && this.data == data && pos == 0 && Rest() == data
    {
      this.w, this.data, this.pos := w, data, 0;
    }

    function Remaining(): nat
      requires Valid()
      reads this
    {
      |data| - pos
    }

    predicate EOF()
      reads this
    {
      pos >= |data|
    }

    /** The loop over the `count` octets of a long-form length. */
    method AccumulateLength(count: nat) returns (r: Option<int>)
      requires Valid() && pos + count <= |data|
      ensures r == LengthOf(w, data[pos..pos + count])
    {
      ghost var octets := data[pos..pos + count];
      var length := 0;
      var i := 0;
      while i < count
        invariant 0 <= i <= count
        invariant LengthOf(w, octets[..i]) == Some(length)
      {
        LengthOfStep(w, octets, i);
        if length > w.MaxInt() / 256 {
          OverflowIsFinal(w, octets, i + 1);
          return None;
        }
        length := length * 256 + data[pos + i];
        i := i + 1;
      }
      assert octets[..count] == octets;
      r := Some(length);
    }

    /** Tag and length; on success the position is at the first value octet. */
    method ReadTagAndLength() returns (r: Result<Header, BerError>)
      requires Valid()
      modifies this`pos
      ensures Valid() && old(pos) <= pos
      ensures r == ReadHeader(w, old(Rest()))
      ensures r.Ok? ==> pos == old(pos) + r.value.size
    {
      ghost var start := pos;
      if Remaining() < 2 { return Err(TruncatedData); }
      var tag := data[pos];
      pos := pos + 1;
      var firstLen := data[pos];
      pos := pos + 1;
      if firstLen < 0x80 { return Ok(Header(tag, firstLen, 2)); }
      var count := firstLen % 0x80;
      if count == 0 { return Err(IndefiniteLength); }
      if count > 4 { return Err(LengthTooLarge); }
      if Remaining() < count { return Err(TruncatedLength); }
      SliceOfTail(data, start, 2, 2 + count);
      assert data[start..][0] == tag && data[start..][1] == firstLen && |data[start..]| >= 2 + count;
      LengthOfBounds(w, data[pos..pos + count]);
      var length := AccumulateLength(count);
      if length.None? { return Err(LengthOverflow); }
      pos := pos + count;
      r := Ok(Header(tag, length.value, 2 + count));
    }

    /** Reads one TLV; on success the position moves past exactly the octets it occupied. */
    method ReadTLV() returns (r: Result<Tlv, BerError>)
      requires Valid()
      modifies this`pos
      ensures Valid() && old(pos) <= pos
      ensures match ReadTlv(w, old(Rest()))
              case Ok(f) => r == Ok(f.tlv) && pos == old(pos) + f.used && Rest() == old(Rest())[f.used..]
              case Err(e) => r == Err(e)
    {
      ghost var start := pos;
      var header := ReadTagAndLength();
      if header.Err? { return Err(header.error); }
      var length := header.value.length;
      if Remaining() < length { return Err(TruncatedValue); }
      SliceOfTail(data, start, header.value.size, header.value.size + length);
      var value := data[pos..pos + length];
      pos := pos + length;
      r := Ok(Tlv(header.value.tag, value));
    }
  }

  lemma SliceOfTail(data: seq<byte>, start: nat, lo: nat, hi: nat)
    requires start <= |data| && lo <= hi <= |data| - start
    ensures data[start..][lo..hi] == data[start + lo..start + hi]
    ensures data[start..][hi..] == data[start + hi..]
  {
  }

  lemma LengthOfStep(w: IntWidth, octets: seq<byte>, i: nat)
    requires i < |octets|
    ensures LengthOf(w, octets[..i + 1]) ==
            match LengthOf(w, octets[..i])
            case None => None
            case Some(n) => if n > w.MaxInt() / 256 then None else Some(n * 256 + octets[i])
  {
    assert octets[..i + 1][..i] == octets[..i];
  }

  lemma {:induction false} OverflowIsFinal(w: IntWidth, octets: seq<byte>, i: nat)
    requires i <= |octets| && LengthOf(w, octets[..i]).None?
    ensures LengthOf(w, octets).None?
    decreases |octets| - i
  {
    if i == |octets| {
      assert octets[..i] == octets;
    } else {
      assert octets[..i + 1][..i] == octets[..i];
      OverflowIsFinal(w, octets, i + 1);
    }
  }

  // --------------------------------------------------------------- integers

  function Pow256(k: nat): (p: nat)
    ensures p >= 1
  {
    if k == 0 then 1 else 256 * Pow256(k - 1)
  }

  /** Two's-complement value of an octet string. */
  function DecodeSignedBigInt(data: seq<byte>): int {
    if data == [] then 0
    else if data[0] < 0x80 then Nat(data)
    else Nat(data) - Pow256(|data|)
  }

  function DecodeUnsignedBigInt(data: seq<byte>): nat {
    Nat(data)
  }

  // -------------------------------------------------------------------- OIDs

  /** Sub-identifiers completed so far and the one being accumulated. */
  datatype Scan = Scan(arcs: seq<int>, pending: int)

  /** The accumulator shifted by seven bits with the low bits of `b` added, in 64-bit arithmetic. */
  function Push(pending: int, b: byte): int {
    Wrap64(pending * 128 + b % 128)
  }

  function ScanNext(s: Scan, b: byte): Scan {
    var v := Push(s.pending, b);
    if b < 0x80 then Scan(s.arcs + [v], 0) else Scan(s.arcs, v)
  }

  function ScanFrom(s: Scan, data: seq<byte>): Scan
    decreases data
  {
    if data == [] then s else ScanFrom(ScanNext(s, data[0]), data[1..])
  }

  function ScanArcs(data: seq<byte>): Scan {
    ScanFrom(Scan([], 0), data)
  }

  function Texts(arcs: seq<int>): (parts: seq<string>)
    ensures |parts| == |arcs|
  {
    seq(|arcs|, i requires 0 <= i < |arcs| => DecimalInt(arcs[i]))
  }

  lemma TextsSnoc(head: seq<int>, arcs: seq<int>, v: int)
    ensures Texts(head + (arcs + [v])) == Texts(head + arcs) + [DecimalInt(v)]
  {
  }

  /** The two arcs packed in the first octet. */
  function FirstArcs(first: byte): seq<int> {
    if first < 40 then [0, first] else if first < 80 then [1, first - 40] else [2, first - 80]
  }

  function OidOf(data: seq<byte>): Result<string, BerError> {
    if data == [] then Ok("")
    else
      var scan := ScanArcs(data[1..]);
      if scan.pending != 0 then Err(TruncatedOid)
      else Ok(JoinDots(Texts(FirstArcs(data[0]) + scan.arcs)))
  }

  method Join(parts: seq<string>) returns (out: string)
    ensures out == JoinDots(parts)
  {
    if |parts| == 0 { return ""; }
    out := parts[0];
    var i := 1;
    while i < |parts|
      invariant 1 <= i <= |parts|
      invariant out == JoinDots(parts[..i])
    {
      assert parts[..i + 1][..i] == parts[..i];
      out := out + ("." + parts[i]);
      assert JoinDots(parts[..i]) + "." + parts[i] == JoinDots(parts[..i]) + ("." + parts[i]);
      i := i + 1;
    }
    assert parts[..i] == parts;
  }

  method DecodeOID(data: seq<byte>) returns (r: Result<string, BerError>)
    ensures r == OidOf(data)
  {
    if |data| == 0 { return Ok(""); }
    var first := data[0];
    var parts: seq<string>;
    if first < 40 {
      parts := ["0", DecimalInt(first)];
    } else if first < 80 {
      parts := ["1", DecimalInt(first - 40)];
    } else {
      parts := ["2", DecimalInt(first - 80)];
    }
    ghost var head, arcs := FirstArcs(first), [];
    assert parts == Texts(head + arcs);
    var value := 0;
    var rest := data[1..];
    var i := 0;
    while i < |rest|
      invariant 0 <= i <= |rest|
      invariant ScanArcs(rest) == ScanFrom(Scan(arcs, value), rest[i..])
      invariant parts == Texts(head + arcs)
    {
      var b := rest[i];
      value := Push(value, b);
      if b < 0x80 {
        TextsSnoc(head, arcs, value);
        arcs := arcs + [value];
        parts := parts + [DecimalInt(value)];
        value := 0;
      }
      i := i + 1;
    }
    if value != 0 { return Err(TruncatedOid); }
    var text := Join(parts);
    r := Ok(text);
  }

  // ------------------------------------------------------------------ values

  datatype TagClass = Universal | Application | Context | Private {
    function Name(): string {
      match this
      case Universal => "universal"
      case Application => "application"
      case Context => "context"
      case Private => "private"
    }
  }

  function DecodeTagClass(tag: byte): TagClass {
    if tag < 0x40 then Universal else if tag < 0x80 then Application else if tag < 0xC0 then Context else Private
  }

  function DecodeTagNumber(tag: byte): byte {
    tag % 32
  }

  /** The two library services the value printer needs: UTF-8 validity and IP address text. */
  datatype Printers = Printers(utf8Valid: seq<byte> -> bool, ipText: seq<byte> -> string)

  datatype Typed = Typed(typeName: string, value: string)

  function DecodeValue(p: Printers, tlv: Tlv): Result<Typed, BerError> {
    var v := tlv.value;
    var raw := "0x" + Hex(v);
    match (DecodeTagClass(tlv.tag), DecodeTagNumber(tlv.tag))
    case (Universal, 2) => Ok(Typed("INTEGER", DecimalInt(DecodeSignedBigInt(v))))
    case (Universal, 4) => Ok(Typed("OCTET STRING", if p.utf8Valid(v) then FromBytes(v) else raw))
    case (Universal, 5) => Ok(Typed("NULL", ""))
    case (Universal, 6) =>
      (match OidOf(v)
       case Ok(oid) => Ok(Typed("OBJECT IDENTIFIER", oid))
       case Err(e) => Err(e))
    case (Universal, 3) => Ok(Typed("BIT STRING", raw))
    case (Universal, 16) => Ok(Typed("SEQUENCE", raw))
    case (Application, 0) => Ok(Typed("IPADDRESS", if |v| == 4 || |v| == 16 then p.ipText(v) else raw))
    case (Application, 1) => Ok(Typed("COUNTER32", Decimal(DecodeUnsignedBigInt(v))))
    case (Application, 2) => Ok(Typed("GAUGE32", Decimal(DecodeUnsignedBigInt(v))))
    case (Application, 3) => Ok(Typed("TIMETICKS", Decimal(DecodeUnsignedBigInt(v))))
    case (Application, 4) => Ok(Typed("OPAQUE", raw))
    case (Application, 6) => Ok(Typed("COUNTER64", Decimal(DecodeUnsignedBigInt(v))))
    case (Context, 0) => Ok(Typed("noSuchObject", ""))
    case (Context, 1) => Ok(Typed("noSuchInstance", ""))
    case (Context, 2) => Ok(Typed("endOfMibView", ""))
    case (other, number) => Ok(Typed(other.Name() + "[" + Decimal(number) + "]", raw))
  }
}
