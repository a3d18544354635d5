/** The two's-complement integer codec: round trip, and minimality of the encoding. */
module IntegerTheorems {
  import opened Basics
  import opened Ber
  import opened PerfEncoder
  import opened TlvTheorems

  lemma {:induction false} NatCons(x: byte, b: seq<byte>)
    ensures Nat([x] + b) == x * Pow256(|b|) + Nat(b)
  {
    if b == [] {
      assert [x] + b == [] + [x];
      NatSnoc([], x);
    } else {
      var init, last := b[..|b| - 1], b[|b| - 1];
      NatCons(x, init);
      assert [x] + b == ([x] + init) + [last];
      NatSnoc([x] + init, last);
    }
  }

  /** The loop's octets are n itself, or n above the negative sign -1. */
  lemma {:induction false} NatOfBody(n: int)
    ensures Nat(Octets(n)) == if n < 0 then n + Pow256(|Octets(n)|) else n
    decreases if n < 0 then -n else n
  {
    if n != 0 && n != -1 {
      NatOfBody(n / 256);
      NatSnoc(Octets(n / 256), n % 256);
    }
  }

  /** The loop leaves no redundant leading octet: not 0x00 for a positive n, not 0xFF for a negative one. */
  lemma {:induction false} LeadingOctet(n: int)
    requires n != 0 && n != -1
    ensures Octets(n)[0] != if n > 0 then 0x00 else 0xFF
    decreases if n < 0 then -n else n
  {
    if n / 256 != 0 && n / 256 != -1 {
      LeadingOctet(n / 256);
    }
  }

  /** A sign octet in front: 0xFF subtracts the next power of 256, 0x00 changes nothing. */
  lemma SignOctet(buf: seq<byte>)
    ensures DecodeSignedBigInt([0xFF] + buf) == Nat(buf) - Pow256(|buf|)
    ensures DecodeSignedBigInt([0x00] + buf) == Nat(buf)
    ensures Nat([0xFF] + buf) == 255 * Pow256(|buf|) + Nat(buf)
    ensures Nat([0x00] + buf) == Nat(buf)
  {
    NatCons(0xFF, buf);
    NatCons(0x00, buf);
    assert Pow256(|[0xFF as byte] + buf|) == 256 * Pow256(|buf|);
  }

  lemma ZeroRoundTrip()
    ensures IntegerBytes(0) == Some([0]) && DecodeSignedBigInt([0]) == 0 && DecodeUnsignedBigInt([0]) == 0
  {
    NatSnoc([], 0);
    assert [0] == [] + [0];
  }

  lemma PositiveRoundTrip(n: int)
    requires n > 0
    ensures var b := IntegerBytes(n); b.Some? && DecodeSignedBigInt(b.value) == n == DecodeUnsignedBigInt(b.value)
  {
    NatOfBody(n);
    SignOctet(Octets(n));
  }

  lemma NegativeRoundTrip(n: int)
    requires n < -1
    ensures var b := IntegerBytes(n); b.Some? && DecodeSignedBigInt(b.value) == n
  {
    NatOfBody(n);
    SignOctet(Octets(n));
  }

  /**
   Round trip: every 64-bit integer but -1 has an encoding, and it decodes to the integer;
   read as unsigned it is the integer again exactly when the integer is not negative.
   */
  lemma IntegerRoundTrip(n: int)
    ensures IntegerBytes(n).Some? <==> n != -1
    ensures n != -1 ==> DecodeSignedBigInt(IntegerBytes(n).value) == n
    ensures n != -1 ==> (DecodeUnsignedBigInt(IntegerBytes(n).value) == n <==> n >= 0)
  {
    if n == 0 {
      ZeroRoundTrip();
    } else if n > 0 {
      PositiveRoundTrip(n);
    } else if n < -1 {
      NegativeRoundTrip(n);
    }
  }

  /** The integers an octet string of length k can stand for. */
  predicate Fits(n: int, k: nat) {
    -(Pow256(k) as int) <= 2 * n < Pow256(k)
  }

  /** Bounds of a leading octet's contribution. */
  lemma LeadingBounds(x: byte, p: nat)
    ensures x < 0x80 ==> x * p <= 127 * p
    ensures x >= 0x80 ==> x * p >= 128 * p
    ensures x > 0 ==> x * p >= p
    ensures x < 0xFF ==> x * p <= 254 * p
    ensures 0 <= x * p <= 255 * p
  {
  }

  /** An octet string split into its leading octet and the rest. */
  lemma NatSplit(b: seq<byte>)
    requires b != []
    ensures Nat(b) == b[0] * Pow256(|b| - 1) + Nat(b[1..])
    ensures Nat(b[1..]) < Pow256(|b| - 1)
    ensures Pow256(|b|) == 256 * Pow256(|b| - 1)
  {
    var x, rest := b[0], b[1..];
    assert b == [x] + rest && |rest| == |b| - 1;
    NatCons(x, rest);
    NatBound(rest);
  }

  lemma DecodedFits(b: seq<byte>)
    requires b != []
    ensures Fits(DecodeSignedBigInt(b), |b|)
  {
    NatSplit(b);
    LeadingBounds(b[0], Pow256(|b| - 1));
  }

  lemma {:induction false} FitsGrows(n: int, j: nat, k: nat)
    requires j <= k && Fits(n, j)
    ensures Fits(n, k)
    decreases k - j
  {
    if j < k {
      FitsGrows(n, j + 1, k);
    }
  }

  lemma EncodingIsTight(n: int)
    requires n != 0 && n != -1
    ensures var k := |IntegerBytes(n).value|; k == 1 || !Fits(n, k - 1)
  {
    var buf := Octets(n);
    NatOfBody(n);
    LeadingOctet(n);
    NatSplit(buf);
    LeadingBounds(buf[0], Pow256(|buf| - 1));
  }

  /**
   Minimality: no octet string that decodes to n is shorter than the encoding of n. The one
   exception is the empty string, which decodes to 0 although 0 is encoded in one octet.
   */
  lemma EncodingIsMinimal(n: int, b: seq<byte>)
    requires n != -1 && DecodeSignedBigInt(b) == n
    ensures |b| < |IntegerBytes(n).value| <==> n == 0 && b == []
  {
    if b != [] && n != 0 {
      DecodedFits(b);
      EncodingIsTight(n);
      var k := |IntegerBytes(n).value|;
      if |b| < k {
        FitsGrows(n, |b|, k - 1);
      }
    }
  }

  /** -1 has a one-octet form that decodes to it, but the encoder cannot produce any. */
  lemma MinusOneHasNoEncoding()
    ensures DecodeSignedBigInt([0xFF]) == -1 && IntegerBytes(-1) == None
  {
    assert [0xFF] == [] + [0xFF];
    NatSnoc([], 0xFF);
  }
}
