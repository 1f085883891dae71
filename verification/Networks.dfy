/**
 The prefix tests over text: `pfr_prefix4` and `pfr_customer`, `pfr_localnets`, and the
 free function of `pfr_lib`.
 */
module Networks {
  import opened Octets
  import opened Dotted
  import opened Prefix
  import opened Cidrs

  /** `x` belongs to the prefix in the sense of section 3.1 of RFC 4632. */
  predicate Member(c: Cidr, x: bv32)
    requires c.len <= 32
  {
    Covers(Joined(c.net), c.len, x)
  }

  // ----- text -----

  lemma TokensOfText(a: Address)
    ensures Split(Text(a), '.') == Tokens(a)
  {
    OctetText(a[0]);
    OctetText(a[1]);
    OctetText(a[2]);
    OctetText(a[3]);
    SplitOfJoin(Tokens(a), '.');
  }

  lemma Text255()
    ensures Decimal(255) == "255"
  {
    assert Decimal(2) == "2";
    assert Decimal(25) == "25";
  }

  /** `ip4_bin` of an address text. */
  function Ip4Bin(s: string): bv32
    requires InetPton(s).Some?
  {
    Bits(InetPton(s).value)
  }

  lemma SplitStep(s: string, c: char, all: seq<string>, idx: nat)
    requires idx <= |all| && Split(s, c) == all[idx..]
    ensures idx < |all|
    ensures var i := Find(s, c);
            if i < |s| then all[idx] == s[..i] && idx + 1 < |all| && Split(s[i + 1..], c) == all[idx + 1..]
            else all[idx] == s && |all| == idx + 1
  {
    assert all[idx] == Split(s, c)[0];
    assert all[idx + 1..] == all[idx..][1..];
  }

  /** The tokenising loop of the constructor. */
  method OctetsOf(slor: string) returns (shir: array<string>)
    requires |Split(slor, '.')| == 4
    ensures fresh(shir) && shir[..] == Split(slor, '.')
  {
    shir := new string[4](_ => "");
    var tslor, idx := slor, 0;
    ghost var all := Split(slor, '.');
    var pos := Find(tslor, '.');
    while pos != |tslor|
      invariant 0 <= idx <= 3 && pos == Find(tslor, '.')
      invariant Split(tslor, '.') == all[idx..]
      invariant shir[..idx] == all[..idx]
      decreases |tslor|
    {
      SplitStep(tslor, '.', all, idx);
      Store(shir, idx, tslor[..pos], all);
      tslor := tslor[pos + 1..];
      idx := idx + 1;
      pos := Find(tslor, '.');
    }
    SplitStep(tslor, '.', all, idx);
    Store(shir, idx, tslor, all);
  }

  method Store(shir: array<string>, idx: nat, token: string, ghost all: seq<string>)
    requires idx < shir.Length && idx < |all| && shir[..idx] == all[..idx] && token == all[idx]
    modifies shir
    ensures shir[..idx + 1] == all[..idx + 1]
  {
    shir[idx] := token;
    assert all[..idx + 1] == all[..idx] + [all[idx]];
  }

  // ----- pfr_prefix4 -----

  lemma OctetBack(b: bv8)
    ensures (b as int) as bv8 == b
  {
  }

  /** The octets of an address, written. */
  function Written(q: Quad): seq<string> {
    [Decimal(q.a as int), Decimal(q.b as int), Decimal(q.c as int), Decimal(q.d as int)]
  }

  /** A number of an octet, with bits set. */
  function SetBits(n: nat, hbits: bv8): int
    requires n < 256
  {
    ((n as bv8) | hbits) as int
  }

  lemma SetBitsIs(n: nat, hbits: bv8, b: bv8)
    requires n < 256 && n == b as int
    ensures SetBits(n, hbits) == (b | hbits) as int
  {
    OctetBack(b);
  }

  lemma OctetRange(b: bv8)
    ensures 0 <= b as int < 256
  {
  }

  /** `std::stoi` of an octet, with bits set, written again. */
  method OctetWith(octet: string, hbits: bv8, ghost b: bv8) returns (s: string)
    requires octet == Decimal(b as int)
    ensures s == Decimal((b | hbits) as int)
  {
    NumberOfDecimal(b as int);
    OctetRange(b);
    SetBitsIs(Number(octet), hbits, b);
    s := Decimal(SetBits(Number(octet), hbits));
  }

  function Dots(t: seq<string>): string
    requires |t| == 4
  {
    t[0] + "." + t[1] + "." + t[2] + "." + t[3]
  }

  lemma Tails(s: string)
    ensures s + ".255" == s + "." + "255"
    ensures s + ".255.255" == s + "." + "255" + "." + "255"
    ensures s + ".255.255.255" == s + "." + "255" + "." + "255" + "." + "255"
  {
  }

  lemma FirstDots(q: Quad, h: bv8, oct: string)
    requires oct == Decimal((q.a | h) as int)
    ensures Dots(Written(Quad(q.a | h, 255, 255, 255))) == oct + ".255.255.255"
  {
    Text255();
    Tails(oct);
  }

  lemma SecondDots(q: Quad, h: bv8, oct: string)
    requires oct == Decimal((q.b | h) as int)
    ensures Dots(Written(Quad(q.a, q.b | h, 255, 255))) == Written(q)[0] + "." + oct + ".255.255"
  {
    Text255();
    Tails(Written(q)[0] + "." + oct);
  }

  lemma ThirdDots(q: Quad, h: bv8, oct: string)
    requires oct == Decimal((q.c | h) as int)
    ensures Dots(Written(Quad(q.a, q.b, q.c | h, 255))) == Written(q)[0] + "." + Written(q)[1] + "." + oct + ".255"
  {
    Text255();
    Tails(Written(q)[0] + "." + Written(q)[1] + "." + oct);
  }

  lemma FourthDots(q: Quad, h: bv8, oct: string)
    requires oct == Decimal((q.d | h) as int)
    ensures Dots(Written(Quad(q.a, q.b, q.c, q.d | h))) ==
            Written(q)[0] + "." + Written(q)[1] + "." + Written(q)[2] + "." + oct
  {
  }

  class Prefix4 {
    const prefix: string
    const lor: bv32
    const hir: bv32
    ghost const written: Cidr

    ghost predicate Valid() {
      written.len <= 32 && lor == Joined(written.net) && Spans(lor, hir, written.len)
    }

    constructor (sprefix: string)
      requires ReadCidr(sprefix).Some?
      ensures Valid() && prefix == sprefix && written == ReadCidr(sprefix).value
    {
      var pos := Find(sprefix, '/');
      var slen := if pos < |sprefix| then sprefix[pos + 1..] else sprefix;
      var slor := sprefix[..pos];
      ReadNetText(slor, Stoi(slen));
      var lo, hi := Bounds(slor, Stoi(slen).value as bv8, ReadCidr(sprefix).value);
      prefix, lor, hir, written := sprefix, lo, hi, ReadCidr(sprefix).value;
    }

    static method Bounds(slor: string, prefixLen: bv8, ghost c: Cidr) returns (lo: bv32, hi: bv32)
      requires c.len <= 32 && slor == NetText(c) && prefixLen == c.len
      ensures lo == Joined(c.net) && Spans(lo, hi, c.len)
    {
      TextIsRead(AddressOf(c.net));
      QuadBack(c.net);
      lo := Ip4Bin(slor);
      var sshir := UpperText(slor, prefixLen, c);
      TextIsRead(AddressOf(Upper(c.net, c.len)));
      QuadBack(Upper(c.net, c.len));
      UpperSpans(c.net, c.len);
      hi := Ip4Bin(sshir);
    }

    /** The text of the upper bound: one octet with host bits set, 255 behind it. */
    static method UpperText(slor: string, prefixLen: bv8, ghost c: Cidr) returns (sshir: string)
      requires c.len <= 32 && slor == NetText(c) && prefixLen == c.len
      ensures sshir == Text(AddressOf(Upper(c.net, c.len)))
    {
      TokensOfText(AddressOf(c.net));
      var octets := OctetsOf(slor);
      sshir := UpperOf(octets[..], prefixLen, c.net);
      TextIs(AddressOf(Upper(c.net, c.len)));
    }

    static method UpperOf(shir: seq<string>, len: bv8, ghost q: Quad) returns (sshir: string)
      requires shir == Written(q) && len <= 32
      ensures sshir == Dots(Written(Upper(q, len)))
    {
      if 0 <= len < 8 {
        sshir := FirstUpper(shir, 255 >> (8 - (8 - len)), q, Upper(q, len));
      } else if 8 <= len < 16 {
        sshir := SecondUpper(shir, 255 >> (8 - (16 - len)), q, Upper(q, len));
      } else if 16 <= len < 24 {
        sshir := ThirdUpper(shir, 255 >> (8 - (24 - len)), q, Upper(q, len));
      } else {
        sshir := FourthUpper(shir, 255 >> (8 - (32 - len)), q, Upper(q, len));
      }
    }

    static method FirstUpper(shir: seq<string>, hbits: bv8, ghost q: Quad, ghost u: Quad) returns (sshir: string)
      requires shir == Written(q) && u == Quad(q.a | hbits, 255, 255, 255)
      ensures sshir == Dots(Written(u))
    {
      var oct := OctetWith(shir[0], hbits, q.a);
      FirstDots(q, hbits, oct);
      sshir := oct + ".255.255.255";
    }

    static method SecondUpper(shir: seq<string>, hbits: bv8, ghost q: Quad, ghost u: Quad) returns (sshir: string)
      requires shir == Written(q) && u == Quad(q.a, q.b | hbits, 255, 255)
      ensures sshir == Dots(Written(u))
    {
      var oct := OctetWith(shir[1], hbits, q.b);
      SecondDots(q, hbits, oct);
      sshir := shir[0] + "." + oct + ".255.255";
    }

    static method ThirdUpper(shir: seq<string>, hbits: bv8, ghost q: Quad, ghost u: Quad) returns (sshir: string)
      requires shir == Written(q) && u == Quad(q.a, q.b, q.c | hbits, 255)
      ensures sshir == Dots(Written(u))
    {
      var oct := OctetWith(shir[2], hbits, q.c);
      ThirdDots(q, hbits, oct);
      sshir := shir[0] + "." + shir[1] + "." + oct + ".255";
    }

    static method FourthUpper(shir: seq<string>, hbits: bv8, ghost q: Quad, ghost u: Quad) returns (sshir: string)
      requires shir == Written(q) && u == Quad(q.a, q.b, q.c, q.d | hbits)
      ensures sshir == Dots(Written(u))
    {
      var oct := OctetWith(shir[3], hbits, q.d);
      FourthDots(q, hbits, oct);
      sshir := shir[0] + "." + shir[1] + "." + shir[2] + "." + oct;
    }

    method IsPfxHit(srcaddr4: string) returns (hit: bool)
      requires Valid() && InetPton(srcaddr4).Some?
      ensures hit <==> Taken(lor, written.len, Ip4Bin(srcaddr4))
    {
      hit := Within(Ip4Bin(srcaddr4));
    }

    method Within(pfx: bv32) returns (hit: bool)
      requires Valid()
      ensures hit <==> Taken(lor, written.len, pfx)
    {
      hit := SignedLeq(lor, pfx) && SignedLeq(pfx, hir);
      RangeIff(lor, hir, written.len, pfx, hit);
    }
  }

  // ----- pfr_customer -----

  predicate AllShort(cs: seq<Cidr>) { forall i :: 0 <= i < |cs| ==> cs[i].len <= 32 }

  predicate Takes(c: Cidr, x: bv32)
    requires c.len <= 32
  {
    Taken(Joined(c.net), c.len, x)
  }

  /** Some prefix of the list takes `x`. */
  ghost predicate AnyTakes(cs: seq<Cidr>, x: bv32)
    requires AllShort(cs)
  {
    exists i :: 0 <= i < |cs| && Takes(cs[i], x)
  }

  /** A text `ispfxhit` can be asked about: an address, or something without a dot. */
  predicate Askable(s: string) { '.' in s ==> InetPton(s).Some? }

  class Customer {
    var prefix4: seq<Prefix4>

    ghost predicate Valid()
      reads this
    {
      forall i :: 0 <= i < |prefix4| ==> prefix4[i].Valid()
    }

    ghost function Written(): (cs: seq<Cidr>)
      requires Valid()
      reads this
      ensures |cs| == |prefix4| && AllShort(cs)
    {
      seq(|prefix4|, i requires 0 <= i < |prefix4| && prefix4[i].Valid() reads this => prefix4[i].written)
    }

    constructor (rows: seq<string>)
      requires forall i :: 0 <= i < |rows| ==> ReadCidr(rows[i]).Some?
      ensures Valid() && |Written()| == |rows|
      ensures forall i :: 0 <= i < |rows| ==> Written()[i] == ReadCidr(rows[i]).value
    {
      prefix4 := [];
      new;
      for i := 0 to |rows|
        invariant Valid() && |prefix4| == i
        invariant forall j :: 0 <= j < i ==> prefix4[j].written == ReadCidr(rows[j]).value
      {
        var pfx := new Prefix4(rows[i]);
        prefix4 := prefix4 + [pfx];
      }
    }

    /** A text without a dot takes the other branch, whose list is never filled. */
    method IsPfxHit(srcaddr: string) returns (hit: bool)
      requires Valid() && Askable(srcaddr)
      ensures hit <==> '.' in srcaddr && AnyTakes(Written(), Ip4Bin(srcaddr))
    {
      if Find(srcaddr, '.') < |srcaddr| {
        assert '.' in srcaddr;
        for i := 0 to |prefix4|
          invariant forall j :: 0 <= j < i ==> !Takes(Written()[j], Ip4Bin(srcaddr))
        {
          hit := prefix4[i].IsPfxHit(srcaddr);
          if hit {
            assert Takes(Written()[i], Ip4Bin(srcaddr));
            return true;
          }
        }
      }
      hit := false;
    }
  }

  // ----- pfr_localnets and pfr_lib -----

  /** A parsed net: both words as the bytes `inet_pton` leaves in memory. */
  datatype Net = Net(net: Quad, mask: Quad)

  predicate IsNet(n: Net, c: Cidr)
    requires c.len <= 32
  {
    n.net == c.net && MaskOf(Joined(n.mask), c.len)
  }

  lemma BigTestIsMember(net: Quad, m: Quad, len: bv8, host: Quad)
    requires len <= 32 && MaskOf(Joined(m), len)
    ensures RawTest(Big, net, m, host) <==> Covers(Joined(net), len, Joined(host))
  {
    if RawTest(Big, net, m, host) {
      MaskedIsCovered(Joined(net), len, Joined(host), Joined(m));
    } else if Covers(Joined(net), len, Joined(host)) {
      CoveredIsMasked(Joined(net), len, Joined(host), Joined(m));
    }
  }

  /** The mask test, on words in the order of the host, accepts exactly the members. */
  lemma MaskTestIff(o: Order, net: Quad, m: Quad, len: bv8, host: Quad, hit: bool)
    requires len <= 32 && MaskOf(Joined(m), len) && hit == RawTest(o, net, m, host)
    ensures hit <==> Covers(Joined(net), len, Joined(host))
  {
    RawMaskTest(o, net, m, host);
    BigTestIsMember(net, m, len, host);
  }

  /** The quad an address text is read as. */
  function Read(s: string): Quad
    requires InetPton(s).Some?
  {
    QuadOf(InetPton(s).value)
  }

  function OctetsIn(mask: bv32): Quad {
    Quad((mask >> 24) as bv8, ((mask >> 16) & 0xFF) as bv8, ((mask >> 8) & 0xFF) as bv8, (mask & 0xFF) as bv8)
  }

  method OctetsOfMask(mask: bv32) returns (q: Quad)
    ensures q == OctetsIn(mask) && Joined(q) == mask
  {
    q := Quad((mask >> 24) as bv8, ((mask >> 16) & 0xFF) as bv8, ((mask >> 8) & 0xFF) as bv8, (mask & 0xFF) as bv8);
    MaskOctets(mask);
  }

  lemma ReadsBack(q: Quad)
    ensures InetPton(Text(AddressOf(q))).Some? && Read(Text(AddressOf(q))) == q
  {
    TextIsRead(AddressOf(q));
    QuadBack(q);
  }

  /** `sprintf` of a mask, and `inet_pton` of the text. */
  method PrintAndRead(q: Quad) returns (r: Quad)
    ensures r == q
  {
    var text := Decimal(q.a as int) + "." + Decimal(q.b as int) + "." + Decimal(q.c as int) + "." + Decimal(q.d as int);
    TextIs(AddressOf(q));
    ReadsBack(q);
    r := Read(text);
  }

  /** The mask of a length, through its dotted text. */
  method ReadMask(len: bv8) returns (mask: Quad)
    requires 1 <= len <= 32
    ensures MaskOf(Joined(mask), len)
  {
    MaskIsMaskOf(len);
    var octets := OctetsOfMask(0xFFFF_FFFF << (32 - len));
    mask := PrintAndRead(octets);
  }

  /** The text the mask of a length is printed as. */
  function MaskText(len: bv8): string
    requires 1 <= len <= 32
  {
    Text(AddressOf(OctetsIn(Mask(len))))
  }

  /** Characters of the buffer the text is printed into, the terminator among them. */
  const MASK_BUFFER: nat := 15

  lemma Digits(n: nat)
    requires n < 256
    ensures |Decimal(n)| == if n < 10 then 1 else if n < 100 then 2 else 3
  {
    if n >= 10 {
      assert Decimal(n) == Decimal(n / 10) + [Digit(n % 10)];
      if n >= 100 {
        assert Decimal(n / 10) == Decimal(n / 10 / 10) + [Digit(n / 10 % 10)];
      }
    }
  }

  lemma ShortMask(m: bv32, len: bv8)
    requires 1 <= len <= 24 && m == 0xFFFF_FFFF << (32 - len)
    ensures (m & 0xFF) as bv8 == 0
  {
  }

  lemma LongMask(m: bv32, len: bv8)
    requires 25 <= len <= 32 && m == 0xFFFF_FFFF << (32 - len)
    ensures (m >> 24) as bv8 == 255 && ((m >> 16) & 0xFF) as bv8 == 255 && ((m >> 8) & 0xFF) as bv8 == 255
    ensures (m & 0xFF) as bv8 >= 128
  {
  }

  lemma TextLength(a: Address)
    ensures |Text(a)| == |Decimal(a[0])| + |Decimal(a[1])| + |Decimal(a[2])| + |Decimal(a[3])| + 3
    ensures 7 <= |Text(a)| <= 15
    ensures a[3] == 0 ==> |Text(a)| <= 13
    ensures (forall i :: 0 <= i < 4 ==> a[i] >= 100) ==> |Text(a)| == 15
  {
    TextIs(a);
    Digits(a[0]);
    Digits(a[1]);
    Digits(a[2]);
    Digits(a[3]);
  }

  /** The printed mask and its terminator fit the buffer exactly up to length 24. */
  lemma MaskTextFits(len: bv8)
    requires 1 <= len <= 32
    ensures |MaskText(len)| + 1 <= MASK_BUFFER <==> len <= 24
  {
    var a := AddressOf(OctetsIn(Mask(len)));
    TextLength(a);
    if len <= 24 {
      ShortMask(Mask(len), len);
    } else {
      LongMask(Mask(len), len);
      AtLeast128(OctetsIn(Mask(len)).d);
    }
  }

  lemma AtLeast128(b: bv8)
    requires b >= 128
    ensures b as int >= 128
  {
  }

  /** `is_host_in_network` of `pfr_lib`. */
  method IsHostInNetwork(o: Order, netstr: string, prefix: bv8, hoststr: string) returns (hit: bool)
    requires 1 <= prefix <= 32 && InetPton(netstr).Some? && InetPton(hoststr).Some?
    ensures hit <==> Member(Cidr(Read(netstr), prefix), Ip4Bin(hoststr))
  {
    var mask := ReadMask(prefix);
    var net, host := Read(netstr), Read(hoststr);
    hit := RawTest(o, net, mask, host);
    MaskTestIff(o, net, mask, prefix, host, hit);
  }

  ghost predicate AnyMember(cs: seq<Cidr>, x: bv32)
    requires AllShort(cs)
  {
    exists i :: 0 <= i < |cs| && Member(cs[i], x)
  }

  predicate AllWritable(cs: seq<Cidr>) { forall i :: 0 <= i < |cs| ==> 1 <= cs[i].len <= 32 }

  predicate AllRead(pieces: seq<string>) {
    forall i :: 0 <= i < |pieces| ==> ReadLocal(pieces[i]).Some?
  }

  function NetsRead(pieces: seq<string>): (cs: seq<Cidr>)
    requires AllRead(pieces)
    ensures |cs| == |pieces| && AllWritable(cs)
    ensures forall i :: 0 <= i < |pieces| ==> cs[i] == ReadLocal(pieces[i]).value
  {
    seq(|pieces|, i requires 0 <= i < |pieces| => ReadLocal(pieces[i]).value)
  }

  class LocalNets {
    const o: Order
    var nets: seq<Net>
    ghost var written: seq<Cidr>

    ghost predicate Valid()
      reads this
    {
      && |nets| == |written| && AllWritable(written)
      && forall i :: 0 <= i < |nets| ==> IsNet(nets[i], written[i])
    }

    /** Every piece between commas is read as a net. */
    constructor (o: Order, localnets: string)
      requires AllRead(Parts(localnets, ','))
      ensures Valid() && written == NetsRead(Parts(localnets, ','))
    {
      var parsed := ParseNets(Parts(localnets, ','));
      this.o, nets, written := o, parsed, NetsRead(Parts(localnets, ','));
    }

    static method ParseNets(parsedNets: seq<string>) returns (nets: seq<Net>)
      requires AllRead(parsedNets)
      ensures |nets| == |parsedNets| && forall i :: 0 <= i < |nets| ==> IsNet(nets[i], NetsRead(parsedNets)[i])
    {
      nets := [];
      for i := 0 to |parsedNets|
        invariant |nets| == i
        invariant forall j :: 0 <= j < i ==> IsNet(nets[j], NetsRead(parsedNets)[j])
      {
        var n := ParseNet(parsedNets[i]);
        nets := nets + [n];
      }
    }

    static method ParseNet(prefix: string) returns (n: Net)
      requires ReadLocal(prefix).Some?
      ensures IsNet(n, ReadLocal(prefix).value)
    {
      var parsedPrefix := Parts(prefix, '/');
      var mask := ReadMask(Stoi(parsedPrefix[1]).value as bv8);
      n := Net(Read(parsedPrefix[0]), mask);
    }

    /** Every net is compared, and a match is remembered. */
    method IsHostInNetwork(hoststr: string) returns (found: bool)
      requires Valid() && InetPton(hoststr).Some?
      ensures found <==> AnyMember(written, Ip4Bin(hoststr))
    {
      found := false;
      var host := Read(hoststr);
      for i := 0 to |nets|
        invariant found <==> exists j :: 0 <= j < i && Member(written[j], Joined(host))
      {
        var hit := RawTest(o, nets[i].net, nets[i].mask, host);
        MaskTestIff(o, nets[i].net, nets[i].mask, written[i].len, host, hit);
        if hit {
          found := true;
        }
      }
    }
  }

  // ----- the tests agree -----

  /** For prefixes of length 1 to 32 without host bits, the customer list and the local
      list accept the same addresses: the union of the prefixes. */
  lemma ListsAgree(cs: seq<Cidr>, x: bv32)
    requires AllWritable(cs) && forall i :: 0 <= i < |cs| ==> NoHostBits(Joined(cs[i].net), cs[i].len)
    ensures AnyTakes(cs, x) <==> AnyMember(cs, x)
  {
    forall i | 0 <= i < |cs|
      ensures Takes(cs[i], x) <==> Member(cs[i], x)
    {
      TakesIsMember(cs[i], x);
    }
  }

  lemma TakesIsMember(c: Cidr, x: bv32)
    requires 1 <= c.len <= 32 && NoHostBits(Joined(c.net), c.len)
    ensures Takes(c, x) <==> Member(c, x)
  {
    TakenIsCovered(Joined(c.net), c.len, x);
  }
}
