/** Framing: what the encoder writes the reader reads back, and nothing shorter would do. */
module TlvTheorems {
  import opened Basics
  import opened Ber
  import opened PerfEncoder

  const TWO_32: int := 0x1_0000_0000

  // ------------------------------------------------------- positional notation

  lemma {:induction false} NatBound(b: seq<byte>)
    ensures Nat(b) < Pow256(|b|)
  {
    if b != [] {
      NatBound(b[..|b| - 1]);
    }
  }

  lemma NatSnoc(b: seq<byte>, x: byte)
    ensures Nat(b + [x]) == Nat(b) * 256 + x
  {
    assert (b + [x])[..|b|] == b;
  }

  lemma {:induction false} NatOfOctets(n: nat)
    ensures Nat(Octets(n)) == n
  {
    if n != 0 {
      NatOfOctets(n / 256);
      NatSnoc(Octets(n / 256), n % 256);
    }
  }

  lemma {:induction false} OctetsFit(n: nat, k: nat)
    requires n < Pow256(k)
    ensures |Octets(n)| <= k
  {
    if n != 0 {
      OctetsFit(n / 256, k - 1);
    }
  }

  lemma {:induction false} OctetsNeed(n: nat, k: nat)
    requires n >= Pow256(k)
    ensures |Octets(n)| > k
  {
    if k != 0 {
      OctetsNeed(n / 256, k - 1);
    }
  }

  lemma Powers()
    ensures Pow256(1) == 256 && Pow256(4) == TWO_32 && Pow256(8) == TWO_64
  {
    assert Pow256(2) == 0x1_0000 && Pow256(3) == 0x100_0000;
    assert Pow256(5) == 0x100_0000_0000 && Pow256(6) == 0x1_0000_0000_0000;
    assert Pow256(7) == 0x100_0000_0000_0000;
  }

  /** The overflow test refuses exactly the lengths that do not fit the platform's int. */
  lemma {:induction false} LengthOfIsNat(w: IntWidth, octets: seq<byte>)
    ensures LengthOf(w, octets) == if Nat(octets) <= w.MaxInt() then Some(Nat(octets)) else None
  {
    if octets != [] {
      LengthOfIsNat(w, octets[..|octets| - 1]);
    }
  }

  // ------------------------------------------------------------------ framing

  /** A value the reader accepts is untouched by whatever follows it in the buffer. */
  lemma ReadIsStable(w: IntWidth, data: seq<byte>, suffix: seq<byte>)
    requires ReadTlv(w, data).Ok?
    ensures ReadTlv(w, data + suffix) == ReadTlv(w, data)
  {
    var all := data + suffix;
    assert all[0] == data[0] && all[1] == data[1];
    if data[1] >= 0x80 {
      var count := data[1] - 0x80;
      assert all[2..2 + count] == data[2..2 + count];
    }
    var h := ReadHeader(w, data).value;
    assert ReadHeader(w, all) == Ok(h);
    assert all[h.size..h.size + h.length] == data[h.size..h.size + h.length];
  }

  lemma HeaderNeedsNoMore(w: IntWidth, data: seq<byte>, size: nat)
    requires ReadHeader(w, data).Ok? && ReadHeader(w, data).value.size <= size <= |data|
    ensures ReadHeader(w, data[..size]) == ReadHeader(w, data)
  {
    var cut := data[..size];
    assert cut[0] == data[0] && cut[1] == data[1];
    if data[1] >= 0x80 {
      var count := data[1] - 0x80;
      assert 2 + count <= size;
      assert cut[2..2 + count] == data[2..2 + count];
    }
  }

  /** The reader needs no octet behind the TLV it accepts. */
  lemma ReadNeedsNoMore(w: IntWidth, data: seq<byte>, size: nat)
    requires ReadTlv(w, data).Ok? && ReadTlv(w, data).value.used <= size <= |data|
    ensures ReadTlv(w, data[..size]) == ReadTlv(w, data)
  {
    var cut, h := data[..size], ReadHeader(w, data).value;
    assert h.size + h.length <= size;
    HeaderNeedsNoMore(w, data, size);
    assert cut[h.size..h.size + h.length] == data[h.size..h.size + h.length];
  }

  /** A buffer cut anywhere is read if and only if the cut leaves the TLV whole. */
  lemma CutIsReadIff(w: IntWidth, data: seq<byte>, size: nat)
    requires ReadTlv(w, data).Ok? && size <= |data|
    ensures ReadTlv(w, data[..size]) == ReadTlv(w, data) || ReadTlv(w, data[..size]).Err?
    ensures ReadTlv(w, data[..size]).Ok? <==> ReadTlv(w, data).value.used <= size
  {
    if ReadTlv(w, data[..size]).Ok? {
      assert data[..size] + data[size..] == data;
      ReadIsStable(w, data[..size], data[size..]);
    } else if ReadTlv(w, data).value.used <= size {
      ReadNeedsNoMore(w, data, size);
    }
  }

  /** The header the encoder writes for a value of n octets. */
  lemma HeaderReadBack(w: IntWidth, tag: byte, n: nat, rest: seq<byte>)
    requires n <= w.MaxInt()
    ensures ReadHeader(w, [tag] + LengthField(n) + rest) ==
            if n < TWO_32 then Ok(Header(tag, n, 1 + |LengthField(n)|)) else Err(LengthTooLarge)
  {
    var data := [tag] + LengthField(n) + rest;
    Powers();
    if n >= 0x80 {
      var octets := Octets(n);
      OctetsFit(n, 8);
      assert data[1] == 0x80 + |octets|;
      if n < TWO_32 {
        OctetsFit(n, 4);
        assert data[2..2 + |octets|] == octets;
        NatOfOctets(n);
        LengthOfIsNat(w, octets);
      } else {
        OctetsNeed(n, 4);
      }
    }
  }

  /**
   Framing round trip: for every tag, value and suffix, the reader returns exactly the tag and
   value and stops at the suffix, if and only if the value is shorter than 2^32 octets.
   */
  lemma FrameReadBack(w: IntWidth, tag: byte, value: seq<byte>, suffix: seq<byte>)
    requires |value| <= w.MaxInt()
    ensures ReadTlv(w, Frame(tag, value) + suffix) ==
            if |value| < TWO_32 then Ok(Framed(Tlv(tag, value), |Frame(tag, value)|)) else Err(LengthTooLarge)
  {
    var n := |value|;
    var data := Frame(tag, value) + suffix;
    assert data == [tag] + LengthField(n) + (value + suffix);
    HeaderReadBack(w, tag, n, value + suffix);
    if n < TWO_32 {
      var size := 1 + |LengthField(n)|;
      assert data[size..size + n] == value;
    }
  }

  /** A message cut short anywhere is refused. */
  lemma StrictPrefixRejected(w: IntWidth, tag: byte, value: seq<byte>, k: nat)
    requires |value| <= w.MaxInt() && k < |Frame(tag, value)|
    ensures ReadTlv(w, Frame(tag, value)[..k]).Err?
  {
    var whole := Frame(tag, value);
    assert whole[..k] + whole[k..] == whole && whole + [] == whole;
    FrameReadBack(w, tag, value, []);
    if ReadTlv(w, whole[..k]).Ok? {
      ReadIsStable(w, whole[..k], whole[k..]);
    }
  }

  /** The encoder's framing is the shortest the reader accepts for that tag and value. */
  lemma ShortestFraming(w: IntWidth, data: seq<byte>)
    requires ReadTlv(w, data).Ok?
    ensures var f := ReadTlv(w, data).value; |Frame(f.tlv.tag, f.tlv.value)| <= f.used
  {
    var h := ReadHeader(w, data).value;
    if h.length >= 0x80 {
      var octets := data[2..h.size];
      LengthOfIsNat(w, octets);
      NatBound(octets);
      OctetsFit(h.length, |octets|);
    }
  }
}
