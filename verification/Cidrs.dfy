/**
 Prefixes as text: how they are written, and what the program reads in any text it is
 given.
 */
module Cidrs {
  import opened Tables
  import opened Dotted
  import opened Prefix

  /** A prefix: an address and a length. */
  datatype Cidr = Cidr(net: Quad, len: bv8)

  function NetText(c: Cidr): string { Text(AddressOf(c.net)) }

  function CidrText(c: Cidr): string { NetText(c) + ['/'] + Decimal(c.len as int) }

  // ----- numbers in text -----

  predicate IsSpace(c: char) { c == ' ' || '\t' <= c <= '\r' }

  predicate IsDigit(c: char) { '0' <= c <= '9' }

  function SkipSpaces(s: string): string {
    if s != "" && IsSpace(s[0]) then SkipSpaces(s[1..]) else s
  }

  function LeadingDigits(s: string): (ds: string)
    ensures ds == "" || IsDigits(ds)
  {
    if s != "" && IsDigit(s[0]) then [s[0]] + LeadingDigits(s[1..]) else ""
  }

  /** `std::stoi` and `atoi`: spaces, a sign, digits, and anything behind them. */
  function Stoi(s: string): Option<int> {
    var t := SkipSpaces(s);
    var negative := t != "" && t[0] == '-';
    var ds := LeadingDigits(if t != "" && (t[0] == '-' || t[0] == '+') then t[1..] else t);
    if ds == "" then None
    else
      var n: int := if negative then -(Number(ds) as int) else Number(ds);
      Some(n)
  }

  lemma {:induction false} AllDigits(s: string)
    requires forall i :: 0 <= i < |s| ==> IsDigit(s[i])
    ensures LeadingDigits(s) == s
  {
    if s != "" {
      AllDigits(s[1..]);
    }
  }

  lemma StoiOfDecimal(n: nat)
    ensures Stoi(Decimal(n)) == Some(n)
  {
    AllDigits(Decimal(n));
    NumberOfDecimal(n);
  }

  lemma {:induction false} DigitsThen(s: string, c: char, rest: string)
    requires (forall i :: 0 <= i < |s| ==> IsDigit(s[i])) && !IsDigit(c)
    ensures LeadingDigits(s + [c] + rest) == s
  {
    var t := s + [c] + rest;
    if s != "" {
      assert t[1..] == s[1..] + [c] + rest;
      DigitsThen(s[1..], c, rest);
    }
  }

  /** What stands behind the digits does not matter. */
  lemma StoiStops(n: nat, c: char, rest: string)
    requires !IsDigit(c)
    ensures Stoi(Decimal(n) + [c] + rest) == Some(n)
  {
    var s := Decimal(n);
    assert (s + [c] + rest)[0] == s[0];
    DigitsThen(s, c, rest);
    NumberOfDecimal(n);
  }

  // ----- one prefix -----

  /** What `pfr_prefix4` reads in a text. Without a '/' the whole text is both the
      address and, as far as its leading digits, the length. */
  function ReadCidr(text: string): Option<Cidr> {
    var slash := Find(text, '/');
    ReadBoth(InetPton(text[..slash]), Stoi(if slash < |text| then text[slash + 1..] else text))
  }

  lemma LengthFits(n: int)
    requires 0 <= n <= 32
    ensures n as bv8 <= 32
    ensures n > 0 ==> 1 <= n as bv8
  {
  }

  function ReadBoth(net: Option<Address>, len: Option<int>): (c: Option<Cidr>)
    ensures c.Some? ==> c.value.len <= 32
  {
    if net.Some? && len.Some? && 0 <= len.value <= 32 then
      LengthFits(len.value);
      Some(Cidr(QuadOf(net.value), len.value as bv8))
    else None
  }

  lemma Successor(u: bv8)
    requires u as int < 255
    ensures (u + 1) as int == u as int + 1
  {
  }

  lemma {:induction false} ByteBack(b: nat)
    requires b < 256
    ensures (b as bv8) as int == b
  {
    if b > 0 {
      ByteBack(b - 1);
      Successor((b - 1) as bv8);
      LengthBack((b - 1) as bv8 + 1);
    }
  }

  lemma AddressBack(a: Address)
    ensures AddressOf(QuadOf(a)) == a
  {
    ByteBack(a[0]);
    ByteBack(a[1]);
    ByteBack(a[2]);
    ByteBack(a[3]);
  }

  lemma CidrSplits(c: Cidr)
    ensures Find(CidrText(c), '/') == |NetText(c)|
    ensures CidrText(c)[..|NetText(c)|] == NetText(c)
    ensures CidrText(c)[|NetText(c)| + 1..] == Decimal(c.len as int)
  {
    NoSlash(AddressOf(c.net));
    FindFirst(NetText(c), '/', Decimal(c.len as int));
  }

  lemma LengthBack(len: bv8)
    ensures (len as int) as bv8 == len
  {
  }

  /** Reading inverts writing. */
  lemma WrittenIsRead(c: Cidr)
    requires c.len <= 32
    ensures ReadCidr(CidrText(c)) == Some(c)
  {
    CidrSplits(c);
    StoiOfDecimal(c.len as int);
    TextIsRead(AddressOf(c.net));
    QuadBack(c.net);
    LengthBack(c.len);
  }

  lemma FirstOctet(a: Address)
    ensures Stoi(Text(a)) == Some(a[0])
  {
    TextIs(a);
    var rest := Decimal(a[1]) + "." + Decimal(a[2]) + "." + Decimal(a[3]);
    assert Text(a) == Decimal(a[0]) + ['.'] + rest;
    StoiStops(a[0], '.', rest);
  }

  lemma NoSlashRead(text: string)
    requires '/' !in text
    ensures ReadCidr(text) == ReadBoth(InetPton(text), Stoi(text))
  {
    NotFound(text, '/');
    assert text[..|text|] == text;
  }

  /** An address without a length is read as a prefix as long as its first octet says,
      and as none if that is more than 32. */
  lemma BareAddress(a: Address)
    ensures ReadCidr(Text(a)) == if a[0] <= 32 then Some(Cidr(QuadOf(a), a[0] as bv8)) else None
  {
    NoSlash(a);
    NoSlashRead(Text(a));
    TextIsRead(a);
    FirstOctet(a);
  }

  lemma NotFound(s: string, c: char)
    requires c !in s
    ensures Find(s, c) == |s|
  {
  }

  /** A text that is read names its address in the canonical way. */
  lemma ReadNetText(slor: string, len: Option<int>)
    requires ReadBoth(InetPton(slor), len).Some?
    ensures var c := ReadBoth(InetPton(slor), len).value;
      slor == NetText(c) && InetPton(slor) == Some(AddressOf(c.net)) && len.value as bv8 == c.len <= 32
  {
    ReadIsText(slor);
    AddressBack(InetPton(slor).value);
  }

  // ----- a list of prefixes -----

  /** Runs of `c` as a single one. */
  function Squeeze(s: string, c: char): string {
    if |s| < 2 then s
    else if s[0] == c && s[1] == c then Squeeze(s[1..], c)
    else [s[0]] + Squeeze(s[1..], c)
  }

  /** `boost::split` with adjacent separators taken as one. */
  function Parts(s: string, c: char): seq<string> { Split(Squeeze(s, c), c) }

  /** What `pfr_localnets` reads in a piece: a length of 0 or none at all is a shift by
      32, which is undefined. */
  function ReadLocal(text: string): (c: Option<Cidr>)
    ensures c.Some? ==> 1 <= c.value.len <= 32
  {
    var parsed := Parts(text, '/');
    if |parsed| < 2 then None
    else
      var net, len := InetPton(parsed[0]), Stoi(parsed[1]);
      if net.Some? && len.Some? && 1 <= len.value <= 32 then
        LengthFits(len.value);
        Some(Cidr(QuadOf(net.value), len.value as bv8))
      else None
  }

  predicate NoDouble(s: string, c: char) {
    forall i :: 0 <= i < |s| - 1 ==> !(s[i] == c && s[i + 1] == c)
  }

  lemma NoDoubleTail(s: string, c: char)
    requires NoDouble(s, c) && s != ""
    ensures NoDouble(s[1..], c)
  {
    forall i | 0 <= i < |s| - 2
      ensures !(s[1..][i] == c && s[1..][i + 1] == c)
    {
      assert s[1..][i] == s[i + 1];
    }
  }

  lemma {:induction false} SqueezeNothing(s: string, c: char)
    requires NoDouble(s, c)
    ensures Squeeze(s, c) == s
  {
    if |s| >= 2 {
      NoDoubleTail(s, c);
      SqueezeNothing(s[1..], c);
    }
  }

  lemma {:induction false} JoinNoDouble(tokens: seq<string>, c: char)
    requires forall i :: 0 <= i < |tokens| ==> tokens[i] != "" && c !in tokens[i]
    ensures NoDouble(Join(tokens, c), c)
    ensures tokens != [] ==> Join(tokens, c) != "" && Join(tokens, c)[0] != c
  {
    if |tokens| == 1 {
      assert forall i :: 0 <= i < |tokens[0]| ==> tokens[0][i] in tokens[0];
    } else if tokens != [] {
      JoinNoDouble(tokens[1..], c);
      JoinOneMore(tokens[0], c, Join(tokens[1..], c));
    }
  }

  lemma JoinOneMore(token: string, c: char, rest: string)
    requires token != "" && c !in token && NoDouble(rest, c) && rest != "" && rest[0] != c
    ensures NoDouble(token + [c] + rest, c) && (token + [c] + rest)[0] != c
  {
    var s, n := token + [c] + rest, |token|;
    assert forall i :: 0 <= i < n ==> s[i] == token[i] && token[i] in token;
    forall i | 0 <= i < |s| - 1
      ensures !(s[i] == c && s[i + 1] == c)
    {
      if i > n {
        assert s[i] == rest[i - n - 1] && s[i + 1] == rest[i - n];
      }
    }
  }

  lemma PartsOfJoin(tokens: seq<string>, c: char)
    requires tokens != [] && forall i :: 0 <= i < |tokens| ==> tokens[i] != "" && c !in tokens[i]
    ensures Parts(Join(tokens, c), c) == tokens
  {
    JoinNoDouble(tokens, c);
    SqueezeNothing(Join(tokens, c), c);
    SplitOfJoin(tokens, c);
  }

  lemma CidrParts(c: Cidr)
    ensures Parts(CidrText(c), '/') == [NetText(c), Decimal(c.len as int)]
  {
    NoSlash(AddressOf(c.net));
    var tokens := [NetText(c), Decimal(c.len as int)];
    assert Join(tokens, '/') == CidrText(c);
    PartsOfJoin(tokens, '/');
  }

  lemma LocalIsRead(c: Cidr)
    requires 1 <= c.len <= 32
    ensures ReadLocal(CidrText(c)) == Some(c)
  {
    CidrParts(c);
    StoiOfDecimal(c.len as int);
    TextIsRead(AddressOf(c.net));
    QuadBack(c.net);
    LengthBack(c.len);
  }

  function Texts(cs: seq<Cidr>): seq<string> { seq(|cs|, i requires 0 <= i < |cs| => CidrText(cs[i])) }

  /** A list written as prefixes between commas is cut into them, and each is read. */
  lemma LocalListIsRead(cs: seq<Cidr>)
    requires cs != [] && forall i :: 0 <= i < |cs| ==> 1 <= cs[i].len <= 32
    ensures Parts(Join(Texts(cs), ','), ',') == Texts(cs)
    ensures forall i :: 0 <= i < |cs| ==> ReadLocal(Texts(cs)[i]) == Some(cs[i])
  {
    forall i | 0 <= i < |cs|
      ensures ',' !in Texts(cs)[i] && Texts(cs)[i] != ""
      ensures ReadLocal(Texts(cs)[i]) == Some(cs[i])
    {
      NoSlash(AddressOf(cs[i].net));
      LocalIsRead(cs[i]);
    }
    PartsOfJoin(Texts(cs), ',');
  }

  // ----- dotted text -----

  lemma TextIs(a: Address)
    ensures Text(a) == Decimal(a[0]) + "." + Decimal(a[1]) + "." + Decimal(a[2]) + "." + Decimal(a[3])
  {
    var t := Tokens(a);
    assert Join(t[3..], '.') == t[3];
    assert Join(t[2..], '.') == t[2] + ['.'] + Join(t[3..], '.');
    assert Join(t[1..], '.') == t[1] + ['.'] + Join(t[2..], '.');
  }

  lemma NoSlash(a: Address)
    ensures '/' !in Text(a) && ',' !in Text(a) && '.' in Text(a)
  {
    TextIs(a);
  }
}
