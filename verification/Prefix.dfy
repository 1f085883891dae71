/**
 The three IPv4 prefix tests: the signed range `pfr_prefix4` builds out of octets, and
 the mask tests of `pfr_localnets` and of `pfr_lib`, against membership in the sense of
 section 3.1 of RFC 4632.
 */
module Prefix {
  import opened Octets
  import opened Dotted

  // ----- words -----

  function Pack(a: bv8, b: bv8, c: bv8, d: bv8): bv32 {
    (a as bv32 << 24) | (b as bv32 << 16) | (c as bv32 << 8) | (d as bv32)
  }

  datatype Quad = Quad(a: bv8, b: bv8, c: bv8, d: bv8)

  function Joined(q: Quad): bv32 { Pack(q.a, q.b, q.c, q.d) }

  function QuadOf(a: Address): Quad { Quad(a[0] as bv8, a[1] as bv8, a[2] as bv8, a[3] as bv8) }

  function AddressOf(q: Quad): Address { [q.a as int, q.b as int, q.c as int, q.d as int] }

  /** An address as the number `ntohl` gives. */
  function Bits(a: Address): bv32 { Joined(QuadOf(a)) }

  lemma QuadBack(q: Quad)
    ensures QuadOf(AddressOf(q)) == q
  {
  }

  /** An address as the host reads it from memory without converting it. */
  function RawJoined(o: Order, q: Quad): bv32 {
    if o.Big? then Joined(q) else Pack(q.d, q.c, q.b, q.a)
  }

  /** Comparison of two `int`s by their bits. */
  predicate SignedLeq(x: bv32, y: bv32) { (x ^ 0x8000_0000) <= (y ^ 0x8000_0000) }

  /** The reference: `host` has the leading `len` bits of `net`, compared bit by bit. */
  predicate Covers(net: bv32, len: bv8, host: bv32)
    requires len <= 32
    decreases len as nat
  {
    len == 0 || (net & 0x8000_0000 == host & 0x8000_0000 && Covers(net << 1, len - 1, host << 1))
  }

  // ----- masks -----

  function Mask(len: bv8): bv32
    requires 1 <= len <= 32
  {
    0xFFFF_FFFF << (32 - len)
  }

  predicate IsMask(m: bv32) { (!m & (!m + 1)) == 0 && m >= 0x8000_0000 }

  /** `m` has its leading `len` bits set and no other. */
  predicate MaskOf(m: bv32, len: bv8)
    requires len <= 32
    decreases len as nat
  {
    if len == 0 then m == 0 else m >= 0x8000_0000 && MaskOf(m << 1, len - 1)
  }

  lemma MaskIsMask(len: bv8)
    requires 1 <= len <= 32
    ensures IsMask(Mask(len))
  {
  }

  lemma MaskShifts(len: bv8)
    requires 2 <= len <= 32
    ensures Mask(len) << 1 == Mask(len - 1)
  {
  }

  lemma {:induction false} MaskIsMaskOf(len: bv8)
    requires 1 <= len <= 32
    ensures MaskOf(Mask(len), len)
    decreases len as nat
  {
    MaskIsMask(len);
    if len > 1 {
      MaskShifts(len);
      MaskIsMaskOf(len - 1);
    }
  }

  lemma MaskedSplits(a: bv32, b: bv32, m: bv32)
    requires m >= 0x8000_0000 && a & m == b & m
    ensures a & 0x8000_0000 == b & 0x8000_0000 && (a << 1) & (m << 1) == (b << 1) & (m << 1)
  {
  }

  lemma MaskedJoins(a: bv32, b: bv32, m: bv32)
    requires a & 0x8000_0000 == b & 0x8000_0000 && (a << 1) & (m << 1) == (b << 1) & (m << 1)
    ensures a & m == b & m
  {
  }

  /** The mask test is membership in the prefix. */
  lemma {:induction false} MaskedIsCovered(net: bv32, len: bv8, host: bv32, m: bv32)
    requires len <= 32 && MaskOf(m, len) && net & m == host & m
    ensures Covers(net, len, host)
    decreases len as nat
  {
    if len > 0 {
      MaskedSplits(net, host, m);
      MaskedIsCovered(net << 1, len - 1, host << 1, m << 1);
    }
  }

  lemma {:induction false} CoveredIsMasked(net: bv32, len: bv8, host: bv32, m: bv32)
    requires len <= 32 && MaskOf(m, len) && Covers(net, len, host)
    ensures net & m == host & m
    decreases len as nat
  {
    if len > 0 {
      CoveredIsMasked(net << 1, len - 1, host << 1, m << 1);
      MaskedJoins(net, host, m);
    }
  }

  /** Between two addresses with the same network bits no network bit differs. */
  lemma NoDifference(p: bv32, x: bv32, q: bv32, m: bv32)
    requires IsMask(m) && p <= x && x <= q && (p & m) == (q & m)
    ensures ((p ^ x) & m) == 0
  {
  }

  lemma SameMasked(p: bv32, x: bv32, m: bv32)
    requires ((p ^ x) & m) == 0
    ensures (p & m) == (x & m)
  {
  }

  lemma FilledMasks(p: bv32, q: bv32, m: bv32)
    requires q == p | !m
    ensures p & m == q & m && p <= q
  {
  }

  lemma FilledIsTop(p: bv32, x: bv32, m: bv32)
    requires (x & m) == (p & m)
    ensures x <= (p | !m)
  {
  }

  lemma SameSign(lo: bv32, hi: bv32, x: bv32)
    requires lo <= hi && (lo & 0x8000_0000) == (hi & 0x8000_0000)
    ensures SignedLeq(lo, x) && SignedLeq(x, hi) <==> lo <= x <= hi
  {
  }

  lemma FilledSign(p: bv32, m: bv32)
    requires m >= 0x8000_0000
    ensures (p & 0x8000_0000) == ((p | !m) & 0x8000_0000)
  {
  }

  lemma BetweenMasks(p: bv32, x: bv32, q: bv32, m: bv32)
    requires IsMask(m) && p <= x <= q && (p & m) == (q & m)
    ensures (p & m) == (x & m)
  {
    NoDifference(p, x, q, m);
    SameMasked(p, x, m);
  }

  lemma SignedIsUnsigned(p: bv32, x: bv32, q: bv32, m: bv32)
    requires IsMask(m) && q == p | !m && SignedLeq(p, x) && SignedLeq(x, q)
    ensures p <= x <= q
  {
    FilledMasks(p, q, m);
    FilledSign(p, m);
    SameSign(p, q, x);
  }

  /** Between a prefix address `p` and the same with its host bits set, `q`, lie exactly
      the addresses with the same network bits that are not below the prefix address. */
  lemma RangeIsMasked(p: bv32, x: bv32, q: bv32, m: bv32)
    requires IsMask(m) && q == p | !m && p <= x <= q
    ensures p & m == x & m
  {
    FilledMasks(p, q, m);
    BetweenMasks(p, x, q, m);
  }

  lemma MaskedIsRange(p: bv32, x: bv32, q: bv32, m: bv32)
    requires IsMask(m) && q == p | !m && p & m == x & m && p <= x
    ensures SignedLeq(p, x) && SignedLeq(x, q)
  {
    FilledIsTop(p, x, m);
    FilledSign(p, m);
    SameSign(p, q, x);
  }

  // ----- the octet-built upper bound -----

  /** The upper bound, octet by octet, as the constructor's four branches make it. */
  function Upper(q: Quad, len: bv8): Quad
    requires len <= 32
  {
    if len < 8 then Quad(q.a | (255 >> (8 - (8 - len))), 255, 255, 255)
    else if len < 16 then Quad(q.a, q.b | (255 >> (8 - (16 - len))), 255, 255)
    else if len < 24 then Quad(q.a, q.b, q.c | (255 >> (8 - (24 - len))), 255)
    else Quad(q.a, q.b, q.c, q.d | (255 >> (8 - (32 - len))))
  }

  /** The host bits of a length, by the octet its network bits end in. */
  lemma HostBitsFirst(h: bv8, len: bv8)
    requires 1 <= len < 8 && h == 255 >> (8 - (8 - len))
    ensures Pack(h, 255, 255, 255) == !Mask(len)
  {
  }

  lemma HostBitsSecond(h: bv8, len: bv8)
    requires 8 <= len < 16 && h == 255 >> (8 - (16 - len))
    ensures Pack(0, h, 255, 255) == !Mask(len)
  {
  }

  lemma HostBitsThird(h: bv8, len: bv8)
    requires 16 <= len < 24 && h == 255 >> (8 - (24 - len))
    ensures Pack(0, 0, h, 255) == !Mask(len)
  {
  }

  lemma HostBitsFourth(h: bv8, len: bv8)
    requires 24 <= len <= 32 && h == 255 >> (8 - (32 - len))
    ensures Pack(0, 0, 0, h) == !Mask(len)
  {
  }

  /** `u` is `q` with the bits `b` set, octet by octet. */
  lemma Filled(q: Quad, u: Quad, b: Quad, m: bv32)
    requires u == Quad(q.a | b.a, q.b | b.b, q.c | b.c, q.d | b.d) && Joined(b) == m
    ensures Joined(u) == Joined(q) | m
  {
  }

  lemma OrFirst(q: Quad, b: Quad, h: bv8)
    requires b == Quad(h, 255, 255, 255)
    ensures Quad(q.a | h, 255, 255, 255) == Quad(q.a | b.a, q.b | b.b, q.c | b.c, q.d | b.d)
  {
  }

  lemma FillFirst(q: Quad, u: Quad, h: bv8, len: bv8, m: bv32)
    requires 1 <= len < 8 && h == 255 >> (8 - (8 - len)) && m == !Mask(len)
    requires u == Quad(q.a | h, 255, 255, 255)
    ensures Joined(u) == Joined(q) | m
  {
    var b := BitsFirst(h, len);
    OrFirst(q, b, h);
    Filled(q, u, b, m);
  }

  lemma BitsFirst(h: bv8, len: bv8) returns (b: Quad)
    requires 1 <= len < 8 && h == 255 >> (8 - (8 - len))
    ensures b == Quad(h, 255, 255, 255) && Joined(b) == !Mask(len)
  {
    b := Quad(h, 255, 255, 255);
    HostBitsFirst(h, len);
  }

  lemma OrSecond(q: Quad, b: Quad, h: bv8)
    requires b == Quad(0, h, 255, 255)
    ensures Quad(q.a, q.b | h, 255, 255) == Quad(q.a | b.a, q.b | b.b, q.c | b.c, q.d | b.d)
  {
  }

  lemma FillSecond(q: Quad, u: Quad, h: bv8, len: bv8, m: bv32)
    requires 8 <= len < 16 && h == 255 >> (8 - (16 - len)) && m == !Mask(len)
    requires u == Quad(q.a, q.b | h, 255, 255)
    ensures Joined(u) == Joined(q) | m
  {
    var b := BitsSecond(h, len);
    OrSecond(q, b, h);
    Filled(q, u, b, m);
  }

  lemma BitsSecond(h: bv8, len: bv8) returns (b: Quad)
    requires 8 <= len < 16 && h == 255 >> (8 - (16 - len))
    ensures b == Quad(0, h, 255, 255) && Joined(b) == !Mask(len)
  {
    b := Quad(0, h, 255, 255);
    HostBitsSecond(h, len);
  }

  lemma OrThird(q: Quad, b: Quad, h: bv8)
    requires b == Quad(0, 0, h, 255)
    ensures Quad(q.a, q.b, q.c | h, 255) == Quad(q.a | b.a, q.b | b.b, q.c | b.c, q.d | b.d)
  {
  }

  lemma FillThird(q: Quad, u: Quad, h: bv8, len: bv8, m: bv32)
    requires 16 <= len < 24 && h == 255 >> (8 - (24 - len)) && m == !Mask(len)
    requires u == Quad(q.a, q.b, q.c | h, 255)
    ensures Joined(u) == Joined(q) | m
  {
    var b := BitsThird(h, len);
    OrThird(q, b, h);
    Filled(q, u, b, m);
  }

  lemma BitsThird(h: bv8, len: bv8) returns (b: Quad)
    requires 16 <= len < 24 && h == 255 >> (8 - (24 - len))
    ensures b == Quad(0, 0, h, 255) && Joined(b) == !Mask(len)
  {
    b := Quad(0, 0, h, 255);
    HostBitsThird(h, len);
  }

  lemma OrFourth(q: Quad, b: Quad, h: bv8)
    requires b == Quad(0, 0, 0, h)
    ensures Quad(q.a, q.b, q.c, q.d | h) == Quad(q.a | b.a, q.b | b.b, q.c | b.c, q.d | b.d)
  {
  }

  lemma FillFourth(q: Quad, u: Quad, h: bv8, len: bv8, m: bv32)
    requires 24 <= len <= 32 && h == 255 >> (8 - (32 - len)) && m == !Mask(len)
    requires u == Quad(q.a, q.b, q.c, q.d | h)
    ensures Joined(u) == Joined(q) | m
  {
    var b := BitsFourth(h, len);
    OrFourth(q, b, h);
    Filled(q, u, b, m);
  }

  lemma BitsFourth(h: bv8, len: bv8) returns (b: Quad)
    requires 24 <= len <= 32 && h == 255 >> (8 - (32 - len))
    ensures b == Quad(0, 0, 0, h) && Joined(b) == !Mask(len)
  {
    b := Quad(0, 0, 0, h);
    HostBitsFourth(h, len);
  }

  lemma UpperFirst(q: Quad, len: bv8, m: bv32)
    requires 1 <= len < 8 && m == !Mask(len)
    ensures Joined(Upper(q, len)) == Joined(q) | m
  {
    FillFirst(q, Upper(q, len), 255 >> (8 - (8 - len)), len, m);
  }

  lemma UpperSecond(q: Quad, len: bv8, m: bv32)
    requires 8 <= len < 16 && m == !Mask(len)
    ensures Joined(Upper(q, len)) == Joined(q) | m
  {
    FillSecond(q, Upper(q, len), 255 >> (8 - (16 - len)), len, m);
  }

  lemma UpperThird(q: Quad, len: bv8, m: bv32)
    requires 16 <= len < 24 && m == !Mask(len)
    ensures Joined(Upper(q, len)) == Joined(q) | m
  {
    FillThird(q, Upper(q, len), 255 >> (8 - (24 - len)), len, m);
  }

  lemma UpperFourth(q: Quad, len: bv8, m: bv32)
    requires 24 <= len <= 32 && m == !Mask(len)
    ensures Joined(Upper(q, len)) == Joined(q) | m
  {
    FillFourth(q, Upper(q, len), 255 >> (8 - (32 - len)), len, m);
  }

  lemma UpperSets(q: Quad, len: bv8, m: bv32)
    requires 1 <= len <= 32 && m == !Mask(len)
    ensures Joined(Upper(q, len)) == Joined(q) | m
  {
    if len < 8 {
      UpperFirst(q, len, m);
    } else if len < 16 {
      UpperSecond(q, len, m);
    } else if len < 24 {
      UpperThird(q, len, m);
    } else {
      UpperFourth(q, len, m);
    }
  }

  /** The branches set exactly the host bits. */
  lemma UpperIsFilled(q: Quad, len: bv8)
    requires 1 <= len <= 32
    ensures Joined(Upper(q, len)) == Joined(q) | !Mask(len)
  {
    UpperSets(q, len, !Mask(len));
  }

  // ----- the range test -----

  predicate InRange(lo: bv32, hi: bv32, x: bv32) { SignedLeq(lo, x) && SignedLeq(x, hi) }

  lemma InRangeIsCovered(p: bv32, q: bv32, m: bv32, len: bv8, x: bv32)
    requires len <= 32 && IsMask(m) && MaskOf(m, len) && q == p | !m && InRange(p, q, x)
    ensures Covers(p, len, x) && p <= x
  {
    SignedIsUnsigned(p, x, q, m);
    RangeIsMasked(p, x, q, m);
    MaskedIsCovered(p, len, x, m);
  }

  lemma CoveredIsInRange(p: bv32, q: bv32, m: bv32, len: bv8, x: bv32)
    requires len <= 32 && IsMask(m) && MaskOf(m, len) && q == p | !m && Covers(p, len, x) && p <= x
    ensures InRange(p, q, x)
  {
    CoveredIsMasked(p, len, x, m);
    MaskedIsRange(p, x, q, m);
  }

  lemma WholeRange(p: bv32, x: bv32)
    ensures InRange(p, 0xFFFF_FFFF, x) <==> p >= 0x8000_0000 && p <= x
  {
  }

  lemma InRangeIff(p: bv32, q: bv32, m: bv32, len: bv8, x: bv32)
    requires len <= 32 && IsMask(m) && MaskOf(m, len) && q == p | !m
    ensures InRange(p, q, x) <==> Covers(p, len, x) && p <= x
  {
    if InRange(p, q, x) {
      InRangeIsCovered(p, q, m, len, x);
    }
    if Covers(p, len, x) && p <= x {
      CoveredIsInRange(p, q, m, len, x);
    }
  }

  /** `hi` is `lo` with all but its leading `len` bits set. */
  ghost predicate Spans(lo: bv32, hi: bv32, len: bv8)
    requires len <= 32
  {
    if len == 0 then hi == 0xFFFF_FFFF
    else exists m :: MaskOf(m, len) && IsMask(m) && hi == lo | !m
  }

  lemma UpperSpans(net: Quad, len: bv8)
    requires len <= 32
    ensures Spans(Joined(net), Joined(Upper(net, len)), len)
  {
    if len > 0 {
      UpperIsFilled(net, len);
      MaskIsMask(len);
      MaskIsMaskOf(len);
      assert MaskOf(Mask(len), len);
    }
  }

  /** The members of a prefix that are not below the written address, and for length 0
      only if that is negative as an `int`. */
  predicate Taken(lo: bv32, len: bv8, x: bv32)
    requires len <= 32
  {
    Covers(lo, len, x) && lo <= x && (len == 0 ==> lo >= 0x8000_0000)
  }

  lemma RangeMember(lo: bv32, hi: bv32, len: bv8, x: bv32)
    requires 1 <= len <= 32 && Spans(lo, hi, len)
    ensures InRange(lo, hi, x) <==> Covers(lo, len, x) && lo <= x
  {
    var m :| MaskOf(m, len) && IsMask(m) && hi == lo | !m;
    InRangeIff(lo, hi, m, len, x);
  }

  /** What the range test accepts, for every prefix length. */
  lemma RangeIff(lo: bv32, hi: bv32, len: bv8, x: bv32, hit: bool)
    requires len <= 32 && Spans(lo, hi, len) && hit == InRange(lo, hi, x)
    ensures hit <==> Taken(lo, len, x)
  {
    if len == 0 {
      WholeRange(lo, x);
    } else {
      RangeMember(lo, hi, len, x);
    }
  }

  // ----- when the tests agree -----

  lemma LeastMember(lo: bv32, x: bv32, m: bv32)
    requires lo & !m == 0 && lo & m == x & m
    ensures lo <= x
  {
  }

  lemma BelowMember(lo: bv32, x: bv32, m: bv32)
    requires lo & !m != 0 && x == lo & m
    ensures lo & m == x & m && x < lo
  {
  }

  ghost predicate RangeAgrees(lo: bv32, hi: bv32, len: bv8)
    requires len <= 32
  {
    forall x :: InRange(lo, hi, x) <==> Covers(lo, len, x)
  }

  lemma NetworkAgrees(lo: bv32, hi: bv32, m: bv32, len: bv8)
    requires len <= 32 && IsMask(m) && MaskOf(m, len) && hi == lo | !m && lo & !m == 0
    ensures RangeAgrees(lo, hi, len)
  {
    forall x
      ensures InRange(lo, hi, x) <==> Covers(lo, len, x)
    {
      InRangeIff(lo, hi, m, len, x);
      if Covers(lo, len, x) {
        CoveredIsMasked(lo, len, x, m);
        LeastMember(lo, x, m);
      }
    }
  }

  lemma BelowIsOutside(lo: bv32, hi: bv32, m: bv32, x: bv32)
    requires IsMask(m) && hi == lo | !m && x < lo
    ensures !InRange(lo, hi, x)
  {
    if InRange(lo, hi, x) {
      SignedIsUnsigned(lo, x, hi, m);
    }
  }

  lemma HostAddressDisagrees(lo: bv32, hi: bv32, m: bv32, len: bv8, x: bv32)
    requires len <= 32 && IsMask(m) && MaskOf(m, len) && hi == lo | !m
    requires lo & m == x & m && x < lo
    ensures Covers(lo, len, x) && !InRange(lo, hi, x)
  {
    MaskedIsCovered(lo, len, x, m);
    BelowIsOutside(lo, hi, m, x);
  }

  /** For lengths 1 to 32 the range test accepts exactly the prefix if and only if the
      written address has no host bits set. */
  lemma RangeAgreesIff(lo: bv32, hi: bv32, m: bv32, len: bv8)
    requires 1 <= len <= 32 && IsMask(m) && MaskOf(m, len) && hi == lo | !m
    ensures RangeAgrees(lo, hi, len) <==> lo & !m == 0
  {
    if lo & !m == 0 {
      NetworkAgrees(lo, hi, m, len);
    } else {
      var x := lo & m;
      BelowMember(lo, x, m);
      HostAddressDisagrees(lo, hi, m, len, x);
    }
  }

  ghost predicate NoHostBits(lo: bv32, len: bv8)
    requires len <= 32
  {
    exists m :: MaskOf(m, len) && IsMask(m) && lo & !m == 0
  }

  lemma CoveredFromNetwork(lo: bv32, len: bv8, m: bv32, x: bv32)
    requires len <= 32 && MaskOf(m, len) && lo & !m == 0 && Covers(lo, len, x)
    ensures lo <= x
  {
    CoveredIsMasked(lo, len, x, m);
    LeastMember(lo, x, m);
  }

  lemma TakenIsCovered(lo: bv32, len: bv8, x: bv32)
    requires 1 <= len <= 32 && NoHostBits(lo, len)
    ensures Taken(lo, len, x) <==> Covers(lo, len, x)
  {
    if Covers(lo, len, x) {
      var m :| MaskOf(m, len) && IsMask(m) && lo & !m == 0;
      CoveredFromNetwork(lo, len, m, x);
    }
  }

  // ----- words in memory order -----

  function AndQuad(q: Quad, h: Quad): Quad { Quad(q.a & h.a, q.b & h.b, q.c & h.c, q.d & h.d) }

  lemma PackAnd(a: bv8, b: bv8, c: bv8, d: bv8, e: bv8, f: bv8, g: bv8, h: bv8)
    ensures Pack(a, b, c, d) & Pack(e, f, g, h) == Pack(a & e, b & f, c & g, d & h)
  {
  }

  lemma PackInjective(a: bv8, b: bv8, c: bv8, d: bv8, e: bv8, f: bv8, g: bv8, h: bv8)
    ensures Pack(a, b, c, d) == Pack(e, f, g, h) <==> a == e && b == f && c == g && d == h
  {
  }

  lemma RawAnd(o: Order, q: Quad, h: Quad)
    ensures RawJoined(o, q) & RawJoined(o, h) == RawJoined(o, AndQuad(q, h))
  {
    if o.Big? {
      PackAnd(q.a, q.b, q.c, q.d, h.a, h.b, h.c, h.d);
    } else {
      PackAnd(q.d, q.c, q.b, q.a, h.d, h.c, h.b, h.a);
    }
  }

  lemma RawInjective(o: Order, q: Quad, h: Quad)
    ensures RawJoined(o, q) == RawJoined(o, h) <==> q == h
  {
    if o.Big? {
      PackInjective(q.a, q.b, q.c, q.d, h.a, h.b, h.c, h.d);
    } else {
      PackInjective(q.d, q.c, q.b, q.a, h.d, h.c, h.b, h.a);
    }
  }

  predicate RawTest(o: Order, net: Quad, mask: Quad, host: Quad) {
    RawJoined(o, net) & RawJoined(o, mask) == RawJoined(o, host) & RawJoined(o, mask)
  }

  lemma OctetsFromRaw(o: Order, net: Quad, mask: Quad, host: Quad)
    requires RawTest(o, net, mask, host)
    ensures AndQuad(net, mask) == AndQuad(host, mask)
  {
    RawAnd(o, net, mask);
    RawAnd(o, host, mask);
    RawInjective(o, AndQuad(net, mask), AndQuad(host, mask));
  }

  lemma RawFromOctets(o: Order, net: Quad, mask: Quad, host: Quad)
    requires AndQuad(net, mask) == AndQuad(host, mask)
    ensures RawTest(o, net, mask, host)
  {
    RawAnd(o, net, mask);
    RawAnd(o, host, mask);
  }

  /** Comparing masked addresses without `ntohl` gives the same answer on both kinds of host. */
  lemma RawMaskTest(o: Order, net: Quad, mask: Quad, host: Quad)
    ensures RawTest(o, net, mask, host) <==> RawTest(Big, net, mask, host)
  {
    if RawTest(o, net, mask, host) {
      OctetsFromRaw(o, net, mask, host);
      RawFromOctets(Big, net, mask, host);
    } else if RawTest(Big, net, mask, host) {
      OctetsFromRaw(Big, net, mask, host);
      RawFromOctets(o, net, mask, host);
    }
  }

  lemma MaskOctets(m: bv32)
    ensures Joined(Quad((m >> 24) as bv8, ((m >> 16) & 0xFF) as bv8, ((m >> 8) & 0xFF) as bv8, (m & 0xFF) as bv8)) == m
  {
  }
}
