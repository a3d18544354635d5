/** Object identifiers: dotted text to octets and back, and conformance to X.690 section 8.19. */
module OidTheorems {
  import opened Basics
  import opened Text
  import opened Ber
  import opened PerfEncoder

  /** Arcs that a 64-bit int holds. */
  predicate AreArcs(arcs: seq<int>) {
    forall i | 0 <= i < |arcs| :: 0 <= arcs[i] <= INT64_MAX
  }

  /** Canonical dotted-decimal text. */
  function OidText(arcs: seq<int>): string {
    JoinDots(Texts(arcs))
  }

  // ------------------------------------------------------------ printed text

  lemma TextsAreDotFree(arcs: seq<int>)
    requires AreArcs(arcs)
    ensures forall p | p in Texts(arcs) :: '.' !in p
  {
  }

  lemma SplitOfOidText(arcs: seq<int>)
    requires AreArcs(arcs) && arcs != []
    ensures SplitDots(OidText(arcs)) == Texts(arcs)
  {
    TextsAreDotFree(arcs);
    SplitOfJoin(Texts(arcs));
  }

  lemma AtoiOfTexts(arcs: seq<int>, i: nat)
    requires AreArcs(arcs) && i < |arcs|
    ensures Atoi(Texts(arcs)[i]) == arcs[i]
  {
    AtoiOfDecimal(arcs[i]);
  }

  /** Two arc lists print alike only if they are the same list. */
  lemma OidTextIsInjective(a: seq<int>, b: seq<int>)
    requires AreArcs(a) && AreArcs(b) && a != [] && b != []
    requires OidText(a) == OidText(b)
    ensures a == b
  {
    SplitOfOidText(a);
    SplitOfOidText(b);
    assert |a| == |Texts(a)| == |b|;
    forall i | 0 <= i < |a| ensures a[i] == b[i] {
      AtoiOfTexts(a, i);
      AtoiOfTexts(b, i);
    }
  }

  // ---------------------------------------------------------------- base 128

  lemma {:induction false} ScanAppend(s: Scan, a: seq<byte>, b: seq<byte>)
    ensures ScanFrom(s, a + b) == ScanFrom(ScanFrom(s, a), b)
    decreases a
  {
    if a == [] {
      assert a + b == b;
    } else {
      assert (a + b)[0] == a[0] && (a + b)[1..] == a[1..] + b;
      ScanAppend(ScanNext(s, a[0]), a[1..], b);
    }
  }

  /** Within 63 bits the shift by seven loses nothing. */
  lemma NextSeptet(arcs: seq<int>, n: int, b: byte)
    requires 0 <= n <= INT64_MAX && b % 128 == n % 128
    ensures ScanFrom(Scan(arcs, n / 128), [b]) == if b < 0x80 then Scan(arcs + [n], 0) else Scan(arcs, n)
  {
  }

  /** Leading septets leave the accumulator at n; no 64-bit shift loses a bit on the way. */
  lemma {:induction false} ScanOfSeptets(arcs: seq<int>, n: nat)
    requires n <= INT64_MAX
    ensures ScanFrom(Scan(arcs, 0), Septets(n)) == Scan(arcs, n)
  {
    if n != 0 {
      ScanOfSeptets(arcs, n / 128);
      ScanAppend(Scan(arcs, 0), Septets(n / 128), [0x80 + n % 128]);
      NextSeptet(arcs, n, 0x80 + n % 128);
    }
  }

  lemma ScanOfBase128(arcs: seq<int>, n: int)
    requires 0 <= n <= INT64_MAX
    ensures ScanFrom(Scan(arcs, 0), Base128(n)) == Scan(arcs + [n], 0)
  {
    ScanOfSeptets(arcs, n / 128);
    ScanAppend(Scan(arcs, 0), Septets(n / 128), [n % 128]);
    NextSeptet(arcs, n, n % 128);
  }

  /** The sub-identifiers of the given arcs one after the other. */
  function SubIds(arcs: seq<int>): seq<byte> {
    if arcs == [] then [] else SubIds(arcs[..|arcs| - 1]) + Base128(arcs[|arcs| - 1])
  }

  lemma {:induction false} TailIsSubIds(arcs: seq<int>)
    requires AreArcs(arcs)
    ensures Tail(Texts(arcs)) == SubIds(arcs)
  {
    if arcs != [] {
      var init := arcs[..|arcs| - 1];
      TailIsSubIds(init);
      assert Texts(arcs)[..|arcs| - 1] == Texts(init);
      AtoiOfTexts(arcs, |arcs| - 1);
    }
  }

  lemma SubIdsSnoc(init: seq<int>, last: int)
    ensures SubIds(init + [last]) == SubIds(init) + Base128(last)
  {
    assert (init + [last])[..|init|] == init;
  }

  /** One more sub-identifier is scanned as one more arc. */
  lemma ScanOneMore(init: seq<int>, last: int, octets: seq<byte>)
    requires 0 <= last <= INT64_MAX && ScanArcs(octets) == Scan(init, 0)
    ensures ScanArcs(octets + Base128(last)) == Scan(init + [last], 0)
  {
    ScanAppend(Scan([], 0), octets, Base128(last));
    ScanOfBase128(init, last);
  }

  lemma {:induction false} ScanOfSubIds(arcs: seq<int>)
    requires AreArcs(arcs)
    ensures ScanArcs(SubIds(arcs)) == Scan(arcs, 0)
  {
    if arcs != [] {
      var init, last := arcs[..|arcs| - 1], arcs[|arcs| - 1];
      ScanOfSubIds(init);
      ScanOneMore(init, last, SubIds(init));
      SubIdsSnoc(init, last);
      assert init + [last] == arcs;
    }
  }

  // -------------------------------------------------------------- round trip

  lemma LowByte(n: int, k: int)
    ensures (n + k * 256) % 256 == n % 256
  {
  }

  lemma LowByteOfWrapped(n: int)
    ensures Wrap64(n) % 256 == n % 256
  {
    var q := (n - INT64_MIN) / TWO_64;
    LowByte(n, -q * 0x100_0000_0000_0000);
  }

  lemma FirstOctetIsLowByte(first: int, second: int)
    ensures FirstOctet(first, second) == (first * 40 + second) % 256
  {
    LowByteOfWrapped(first * 40 + second);
  }

  /** The first two arcs one octet can carry through the encoder and back. */
  predicate PackableHead(first: int, second: int) {
    (first <= 1 && second < 40) || (first == 2 && second <= 175)
  }

  lemma HeadRoundTrip(first: int, second: int)
    requires 0 <= first && 0 <= second
    ensures FirstArcs(FirstOctet(first, second)) == [first, second] <==> PackableHead(first, second)
  {
    FirstOctetIsLowByte(first, second);
  }

  lemma OidBytesOfText(arcs: seq<int>)
    requires AreArcs(arcs) && |arcs| >= 2
    ensures OidBytes(OidText(arcs)) == Some([FirstOctet(arcs[0], arcs[1])] + SubIds(arcs[2..]))
  {
    SplitOfOidText(arcs);
    AtoiOfTexts(arcs, 0);
    AtoiOfTexts(arcs, 1);
    assert Texts(arcs)[2..] == Texts(arcs[2..]);
    TailIsSubIds(arcs[2..]);
  }

  /** What the decoder makes of the encoder's octets, for any arcs. */
  lemma DecodedArcs(arcs: seq<int>)
    requires AreArcs(arcs) && |arcs| >= 2
    ensures OidBytes(OidText(arcs)).Some?
    ensures OidOf(OidBytes(OidText(arcs)).value) ==
            Ok(OidText(FirstArcs(FirstOctet(arcs[0], arcs[1])) + arcs[2..]))
  {
    OidBytesOfText(arcs);
    ScanOfSubIds(arcs[2..]);
    assert ([FirstOctet(arcs[0], arcs[1])] + SubIds(arcs[2..]))[1..] == SubIds(arcs[2..]);
  }

  /**
   OID round trip: for every list of 64-bit arcs, decoding the encoded text gives the same text
   back if and only if one octet can carry the first two arcs.
   */
  lemma OidRoundTrip(arcs: seq<int>)
    requires AreArcs(arcs) && |arcs| >= 2
    ensures var s := OidText(arcs);
            OidBytes(s).Some? && (OidOf(OidBytes(s).value) == Ok(s) <==> PackableHead(arcs[0], arcs[1]))
  {
    DecodedArcs(arcs);
    HeadRoundTrip(arcs[0], arcs[1]);
    var head := FirstArcs(FirstOctet(arcs[0], arcs[1]));
    var back := head + arcs[2..];
    assert AreArcs(back);
    if OidText(back) == OidText(arcs) {
      OidTextIsInjective(back, arcs);
      assert head == back[..2] == arcs[..2] == [arcs[0], arcs[1]];
    } else if head == [arcs[0], arcs[1]] {
      assert back == arcs;
    }
  }

  // ------------------------------------------------------------------- X.690

  /** The encoding X.690 section 8.19 prescribes: 40*X+Y is a sub-identifier like the others. */
  function StandardOid(arcs: seq<int>): seq<byte>
    requires |arcs| >= 2
  {
    Base128(arcs[0] * 40 + arcs[1]) + SubIds(arcs[2..])
  }

  /** A sub-identifier by section 8.19.2: bit 8 on all octets but the last, and no leading 0x80. */
  lemma {:induction false} SeptetsShape(n: nat)
    ensures forall i | 0 <= i < |Septets(n)| :: Septets(n)[i] >= 0x80
    ensures n > 0 ==> Septets(n) != [] && Septets(n)[0] > 0x80
  {
    if n != 0 {
      SeptetsShape(n / 128);
    }
  }

  /** One octet for a sub-identifier is the standard's form of it if and only if it fits seven bits. */
  lemma OneOctetIff(v: nat, tail: seq<byte>)
    ensures [v % 256] + tail == Base128(v) + tail <==> v < 128
  {
    if v < 128 {
      assert Base128(v) == [v];
    } else {
      SeptetsShape(v / 128);
      assert |Base128(v)| >= 2;
    }
  }

  /** The encoder follows the standard if and only if 40*X+Y fits seven bits. */
  lemma EncoderConforms(arcs: seq<int>)
    requires AreArcs(arcs) && |arcs| >= 2
    ensures OidBytes(OidText(arcs)) == Some(StandardOid(arcs)) <==> arcs[0] * 40 + arcs[1] < 128
  {
    OidBytesOfText(arcs);
    FirstOctetIsLowByte(arcs[0], arcs[1]);
    OneOctetIff(arcs[0] * 40 + arcs[1], SubIds(arcs[2..]));
  }

  /** How many octets end a sub-identifier. */
  function Terminators(data: seq<byte>): nat {
    if data == [] then 0 else (if data[0] < 0x80 then 1 else 0) + Terminators(data[1..])
  }

  lemma {:induction false} ScanCountsTerminators(s: Scan, data: seq<byte>)
    ensures |ScanFrom(s, data).arcs| == |s.arcs| + Terminators(data)
    decreases data
  {
    if data != [] {
      ScanCountsTerminators(ScanNext(s, data[0]), data[1..]);
    }
  }

  lemma {:induction false} TerminatorsAppend(a: seq<byte>, b: seq<byte>)
    ensures Terminators(a + b) == Terminators(a) + Terminators(b)
  {
    if a == [] {
      assert a + b == b;
    } else {
      assert (a + b)[0] == a[0] && (a + b)[1..] == a[1..] + b;
      TerminatorsAppend(a[1..], b);
    }
  }

  lemma {:induction false} NoTerminator(b: seq<byte>)
    requires forall i | 0 <= i < |b| :: b[i] >= 0x80
    ensures Terminators(b) == 0
  {
    if b != [] {
      NoTerminator(b[1..]);
    }
  }

  lemma Base128EndsOnce(n: nat)
    ensures Terminators(Base128(n)) == 1
  {
    SeptetsShape(n / 128);
    NoTerminator(Septets(n / 128));
    TerminatorsAppend(Septets(n / 128), [n % 128]);
  }

  /**
   The decoder reads a standard encoding of a legal OID correctly if and only if the first
   sub-identifier is a single octet; otherwise it returns one arc too many.
   */
  lemma DecoderConforms(arcs: seq<int>)
    requires AreArcs(arcs) && |arcs| >= 2
    requires arcs[0] <= 2 && (arcs[0] < 2 ==> arcs[1] < 40)
    ensures OidOf(StandardOid(arcs)) == Ok(OidText(arcs)) <==> arcs[0] * 40 + arcs[1] < 128
  {
    var v := arcs[0] * 40 + arcs[1];
    if v < 128 {
      EncoderConforms(arcs);
      OidRoundTrip(arcs);
    } else {
      StandardOidMisread(arcs, v);
    }
  }

  lemma Base128EndsOnceBehindHead(n: nat)
    requires n >= 128
    ensures Base128(n) != [] && Base128(n)[0] >= 0x80 && Terminators(Base128(n)[1..]) == 1
  {
    SeptetsShape(n / 128);
    Base128EndsOnce(n);
  }

  /** Behind a first octet with its bit 8 set, the decoder finds one sub-identifier per terminator. */
  lemma ArcsBehindLongHead(arcs: seq<int>, v: nat)
    requires AreArcs(arcs) && |arcs| >= 2 && v == arcs[0] * 40 + arcs[1] >= 128
    ensures |ScanArcs(StandardOid(arcs)[1..]).arcs| == |arcs| - 1
  {
    var head, subs := Base128(v), SubIds(arcs[2..]);
    Base128EndsOnceBehindHead(v);
    assert (head + subs)[1..] == head[1..] + subs;
    CountBehindHead(head[1..], arcs[2..]);
  }

  lemma CountBehindHead(head: seq<byte>, arcs: seq<int>)
    requires AreArcs(arcs)
    ensures |ScanArcs(head + SubIds(arcs)).arcs| == Terminators(head) + |arcs|
  {
    ScanOfSubIds(arcs);
    ScanAppend(Scan([], 0), head, SubIds(arcs));
    ScanCountsTerminators(Scan([], 0), SubIds(arcs));
    TerminatorsAppend(head, SubIds(arcs));
    ScanCountsTerminators(Scan([], 0), head + SubIds(arcs));
  }

  lemma StandardOidMisread(arcs: seq<int>, v: nat)
    requires AreArcs(arcs) && |arcs| >= 2 && v == arcs[0] * 40 + arcs[1] >= 128
    ensures OidOf(StandardOid(arcs)) != Ok(OidText(arcs))
  {
    var data := StandardOid(arcs);
    ArcsBehindLongHead(arcs, v);
    TextOfLongerListDiffers(FirstArcs(data[0]) + ScanArcs(data[1..]).arcs, arcs);
  }

  lemma TextOfLongerListDiffers(a: seq<int>, b: seq<int>)
    requires |a| > |b| >= 1 && AreArcs(b)
    ensures OidText(a) != OidText(b)
  {
    SplitOfOidText(b);
    TextsHaveNoDot(a);
    SplitOfJoin(Texts(a));
  }

  lemma TextsHaveNoDot(arcs: seq<int>)
    ensures forall p | p in Texts(arcs) :: '.' !in p
  {
    forall i | 0 <= i < |arcs| ensures '.' !in Texts(arcs)[i] {
      var n := arcs[i];
      if n < 0 { assert DecimalInt(n) == "-" + Decimal(-n); }
    }
  }
}
