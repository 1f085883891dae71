/**
 Dotted decimal text of IPv4 addresses: what `inet_ntop`, `std::to_string` and
 `sprintf` write and `inet_pton` and `std::stoi` read.
 */
module Dotted {
  import opened Octets
  import opened Tables

  function Digit(d: nat): char
    requires d < 10
  {
    '0' + d as char
  }

  predicate IsDigits(s: string) {
    s != "" && forall i :: 0 <= i < |s| ==> '0' <= s[i] <= '9'
  }

  function Decimal(n: nat): (s: string)
    ensures IsDigits(s)
  {
    if n < 10 then [Digit(n)] else Decimal(n / 10) + [Digit(n % 10)]
  }

  function Number(s: string): nat
    requires IsDigits(s)
  {
    var last := s[|s| - 1] as int - '0' as int;
    if |s| == 1 then last else 10 * Number(s[..|s| - 1]) + last
  }

  lemma {:induction false} NumberOfDecimal(n: nat)
    ensures Number(Decimal(n)) == n
  {
    if n >= 10 {
      NumberOfDecimal(n / 10);
      assert Decimal(n)[..|Decimal(n)| - 1] == Decimal(n / 10);
    }
  }

  lemma OneDigit(c: char)
    requires '0' <= c <= '9'
    ensures Digit(c as int - '0' as int) == c
  {
  }

  lemma AppendDigit(n: nat, d: nat)
    requires n > 0 && d < 10
    ensures Decimal(10 * n + d) == Decimal(n) + [Digit(d)]
  {
    assert (10 * n + d) / 10 == n && (10 * n + d) % 10 == d;
  }

  lemma NumberSplits(s: string)
    requires IsDigits(s) && |s| > 1
    ensures var front, last := s[..|s| - 1], s[|s| - 1];
      && IsDigits(front) && '0' <= last <= '9'
      && Number(s) == 10 * Number(front) + (last as int - '0' as int) && s == front + [last]
  {
  }

  lemma {:induction false} DecimalOfNumber(s: string)
    requires IsDigits(s) && (|s| == 1 || s[0] != '0')
    ensures Decimal(Number(s)) == s
    ensures s[0] != '0' ==> Number(s) > 0
  {
    OneDigit(s[|s| - 1]);
    if |s| > 1 {
      var front, last := s[..|s| - 1], s[|s| - 1];
      NumberSplits(s);
      DecimalOfNumber(front);
      AppendDigit(Number(front), last as int - '0' as int);
    }
  }

  // ----- tokens -----

  function Join(tokens: seq<string>, c: char): string {
    if tokens == [] then "" else if |tokens| == 1 then tokens[0]
    else tokens[0] + [c] + Join(tokens[1..], c)
  }

  /** The pieces of `s` between the occurrences of `c`, empty ones included. */
  function Split(s: string, c: char): (tokens: seq<string>)
    ensures tokens != []
    decreases |s|
  {
    var i := Find(s, c);
    if i == |s| then [s] else [s[..i]] + Split(s[i + 1..], c)
  }

  /** Position of the first `c`, or the length if there is none. */
  function Find(s: string, c: char): (i: nat)
    ensures i <= |s| && c !in s[..i] && (i < |s| ==> s[i] == c)
  {
    if s == "" || s[0] == c then 0
    else
      var i := 1 + Find(s[1..], c);
      assert s[..i] == [s[0]] + s[1..][..i - 1];
      i
  }

  lemma FindFirst(token: string, c: char, rest: string)
    requires c !in token
    ensures Find(token, c) == |token|
    ensures Find(token + [c] + rest, c) == |token|
  {
    var s := token + [c] + rest;
    assert s[|token|] == c;
    assert forall k :: 0 <= k < |token| ==> s[k] == token[k] && token[k] in token;
  }

  lemma {:induction false} SplitOfJoin(tokens: seq<string>, c: char)
    requires tokens != [] && forall i :: 0 <= i < |tokens| ==> c !in tokens[i]
    ensures Split(Join(tokens, c), c) == tokens
  {
    var s := Join(tokens, c);
    if |tokens| == 1 {
      FindFirst(tokens[0], c, "");
    } else {
      var rest := Join(tokens[1..], c);
      FindFirst(tokens[0], c, rest);
      SplitOfJoin(tokens[1..], c);
      assert s[..|tokens[0]|] == tokens[0] && s[|tokens[0]| + 1..] == rest;
    }
  }

  lemma JoinCons(token: string, tokens: seq<string>, c: char)
    requires tokens != []
    ensures Join([token] + tokens, c) == token + [c] + Join(tokens, c)
  {
    assert ([token] + tokens)[1..] == tokens;
  }

  lemma SplitsAt(s: string, i: nat, c: char)
    requires i < |s| && s[i] == c
    ensures s == s[..i] + [c] + s[i + 1..]
  {
  }

  lemma {:induction false} JoinOfSplit(s: string, c: char)
    ensures Join(Split(s, c), c) == s
    ensures forall i :: 0 <= i < |Split(s, c)| ==> c !in Split(s, c)[i]
    decreases |s|
  {
    var i := Find(s, c);
    if i < |s| {
      var rest := Split(s[i + 1..], c);
      JoinOfSplit(s[i + 1..], c);
      JoinCons(s[..i], rest, c);
      SplitsAt(s, i, c);
      assert Split(s, c) == [s[..i]] + rest;
    }
  }

  // ----- addresses -----

  type Address = a: seq<Byte> | |a| == 4 witness [0, 0, 0, 0]

  function Tokens(a: Address): seq<string> { [Decimal(a[0]), Decimal(a[1]), Decimal(a[2]), Decimal(a[3])] }

  function Text(a: Address): string { Join(Tokens(a), '.') }

  predicate IsOctet(s: string) {
    IsDigits(s) && |s| <= 3 && (|s| == 1 || s[0] != '0') && Number(s) < 256
  }

  /** The address a text stands for, if it is four decimal octets between dots. */
  function InetPton(s: string): Option<Address> {
    var t := Split(s, '.');
    if |t| == 4 && IsOctet(t[0]) && IsOctet(t[1]) && IsOctet(t[2]) && IsOctet(t[3])
    then Some([Number(t[0]), Number(t[1]), Number(t[2]), Number(t[3])])
    else None
  }

  lemma OctetText(b: Byte)
    ensures IsOctet(Decimal(b)) && Number(Decimal(b)) == b && '.' !in Decimal(b)
  {
    NumberOfDecimal(b);
    if b >= 10 {
      NumberOfDecimal(b / 10);
    }
  }

  lemma TextIsRead(a: Address)
    ensures InetPton(Text(a)) == Some(a)
  {
    OctetText(a[0]);
    OctetText(a[1]);
    OctetText(a[2]);
    OctetText(a[3]);
    SplitOfJoin(Tokens(a), '.');
    assert Split(Text(a), '.') == Tokens(a);
    assert a == [a[0], a[1], a[2], a[3]];
  }

  lemma OctetIsText(s: string)
    requires IsOctet(s)
    ensures Decimal(Number(s)) == s
  {
    DecimalOfNumber(s);
  }

  lemma ReadIsText(s: string)
    requires InetPton(s).Some?
    ensures s == Text(InetPton(s).value)
  {
    var t := Split(s, '.');
    JoinOfSplit(s, '.');
    OctetIsText(t[0]);
    OctetIsText(t[1]);
    OctetIsText(t[2]);
    OctetIsText(t[3]);
    assert t == Tokens(InetPton(s).value);
  }

  /** Reading inverts writing, and only the text that would be written is read. */
  lemma TextIffInetPton(s: string, a: Address)
    ensures InetPton(s) == Some(a) <==> s == Text(a)
  {
    TextIsRead(a);
    if InetPton(s) == Some(a) {
      ReadIsText(s);
    }
  }
}
