/**
 The example runs on lists the program can have: two destinations are listed from the
 start, and a later rebuild replaces them by three others.
 */
module ListExamples {
  import opened Tables
  import opened Octets
  import opened Dotted
  import opened Prefix
  import opened Cidrs
  import opened Networks
  import opened DstList
  import opened Phases
  import opened Runs
  import opened LostWithdraws
  import opened SkippedRounds

  // ----- lists -----

  /** One local host, one customer address, and no database. */
  function OneCustomer(l: Quad, q: Quad): Filter { Filter([Cidr(l, 32)], [Cidr(q, 32)], {}) }

  predicate NoneLocal(l: Quad, to: seq<Address>) { forall i :: 0 <= i < |to| ==> QuadOf(to[i]) != l }

  /** The customer talks to `a`. */
  function Token(q: Quad, a: Address): string { Text(AddressOf(q)) + [','] + Text(a) }

  function TokensFor(q: Quad, to: seq<Address>): seq<string> {
    seq(|to|, i requires 0 <= i < |to| => Token(q, to[i]))
  }

  function TextsOf(to: seq<Address>): seq<Dst> { seq(|to|, i requires 0 <= i < |to| => Text(to[i])) }

  function AddressesIn(list: seq<Entry>): set<Dst> { set i | 0 <= i < |list| :: list[i].ipv4 }

  lemma {:induction false} CoversItself(x: bv32, len: bv8)
    requires len <= 32
    ensures Covers(x, len, x)
    decreases len as nat
  {
    if len > 0 {
      CoversItself(x << 1, len - 1);
    }
  }

  lemma CustomerTaken(q: Quad)
    ensures AnyTakes([Cidr(q, 32)], Joined(q))
  {
    CoversItself(Joined(q), 32);
    assert Takes([Cidr(q, 32)][0], Joined(q));
  }

  lemma Dotless(a: Address)
    ensures Text(a) != "" && ',' !in Text(a) && ':' !in Text(a)
  {
    TextIs(a);
  }

  lemma CutAtComma(src: string, dst: string)
    requires ',' !in src
    ensures FlowOf(src + [','] + dst) == Flow(src, dst)
  {
    FindFirst(src, ',', dst);
  }

  lemma TokenFlow(q: Quad, a: Address)
    ensures FlowOf(Token(q, a)) == Flow(Text(AddressOf(q)), Text(a))
    ensures Token(q, a) != "" && ':' !in Token(q, a)
  {
    Dotless(AddressOf(q));
    Dotless(a);
    CutAtComma(Text(AddressOf(q)), Text(a));
  }

  lemma AddressText(q: Quad)
    ensures InetPton(Text(AddressOf(q))).Some? && Ip4Bin(Text(AddressOf(q))) == Joined(q)
    ensures '.' in Text(AddressOf(q))
  {
    TextIsRead(AddressOf(q));
    QuadBack(q);
    NoSlash(AddressOf(q));
  }

  lemma HostCovered(x: bv32, y: bv32)
    requires Covers(x, 32, y)
    ensures x == y
  {
    MaskIsMaskOf(32);
    CoveredIsMasked(x, 32, y, Mask(32));
    WholeMask(x, Mask(32));
    WholeMask(y, Mask(32));
  }

  lemma WholeMask(x: bv32, m: bv32)
    requires m == 0xFFFF_FFFF << 0
    ensures x & m == x
  {
  }

  /** Another address is not local. */
  lemma Outside(l: Quad, a: Address)
    requires QuadOf(a) != l
    ensures InetPton(Text(a)).Some? && !AnyMember([Cidr(l, 32)], Ip4Bin(Text(a)))
  {
    TextIsRead(a);
    if Member(Cidr(l, 32), Joined(QuadOf(a))) {
      HostCovered(Joined(l), Joined(QuadOf(a)));
      RawInjective(Big, l, QuadOf(a));
    }
  }

  lemma TokenAccepted(l: Quad, q: Quad, a: Address)
    requires QuadOf(a) != l
    ensures ValidFilter(OneCustomer(l, q)) && KeptOne(OneCustomer(l, q), Token(q, a)) == [Text(a)]
    ensures Readable(FlowOf(Token(q, a)))
  {
    TokenFlow(q, a);
    FlowAccepted(l, q, a);
  }

  lemma FlowAccepted(l: Quad, q: Quad, a: Address)
    requires QuadOf(a) != l
    ensures ValidFilter(OneCustomer(l, q)) && Accepted(OneCustomer(l, q), Flow(Text(AddressOf(q)), Text(a)))
  {
    AddressText(q);
    Outside(l, a);
    CustomerTaken(q);
  }

  lemma {:induction false} FlattenSingles(parts: seq<seq<string>>, names: seq<string>)
    requires |parts| == |names| && forall i :: 0 <= i < |parts| ==> parts[i] == [names[i]]
    ensures Flatten(parts) == names
  {
    if parts != [] {
      var n := |parts| - 1;
      FlattenSingles(parts[..n], names[..n]);
      assert names == names[..n] + [names[n]];
    }
  }

  lemma TokensKept(l: Quad, q: Quad, to: seq<Address>)
    requires NoneLocal(l, to)
    ensures ValidFilter(OneCustomer(l, q)) && Kept(OneCustomer(l, q), TokensFor(q, to)) == TextsOf(to)
  {
    var parts := KeptEach(OneCustomer(l, q), TokensFor(q, to));
    forall i | 0 <= i < |to| ensures parts[i] == [TextsOf(to)[i]] {
      TokenAccepted(l, q, to[i]);
    }
    FlattenSingles(parts, TextsOf(to));
  }

  lemma TokensReadable(l: Quad, q: Quad, to: seq<Address>)
    requires NoneLocal(l, to)
    ensures AllReadable(TokensFor(q, to))
    ensures Pieces(Join(TokensFor(q, to), ':')) == TokensFor(q, to)
  {
    forall i | 0 <= i < |to|
      ensures Readable(FlowOf(TokensFor(q, to)[i]))
      ensures TokensFor(q, to)[i] != "" && ':' !in TokensFor(q, to)[i]
    {
      TokenAccepted(l, q, to[i]);
      TokenFlow(q, to[i]);
    }
    PiecesOfJoin(TokensFor(q, to));
  }

  /** The list at start, from the buffer `text`. */
  ghost predicate First(f: Filter, text: string, list: seq<Entry>) {
    ValidFilter(f) && AllReadable(Pieces(text)) && Complete(list, Kept(f, Pieces(text)), f.db)
  }

  /** The list of a later round. */
  ghost predicate Next(f: Filter, text: string, list: seq<Entry>, prev: seq<Entry>) {
    ValidFilter(f) && AllReadable(Pieces(text)) && Rebuilt(list, f, Pieces(text), prev)
  }

  /** `lists` are the list at start and its rebuilds, from the buffers `texts`. */
  ghost predicate ListsFollow(f: Filter, texts: seq<string>, lists: seq<seq<Entry>>) {
    && |texts| == |lists| > 0
    && First(f, texts[0], lists[0])
    && forall i :: 0 < i < |lists| ==> Next(f, texts[i], lists[i], lists[i - 1])
  }

  /** Every round probes the list it has. */
  ghost predicate RunsOn(xs: seq<RoundInput>, lists: seq<seq<Entry>>) {
    |xs| == |lists| && forall i :: 0 <= i < |xs| ==> xs[i].dsts == AddressesIn(lists[i])
  }

  /** The buffer in which the customer talks to `to`. */
  function Buffer(q: Quad, to: seq<Address>): string { Join(TokensFor(q, to), ':') }

  lemma BufferKept(l: Quad, q: Quad, to: seq<Address>)
    requires NoneLocal(l, to)
    ensures ValidFilter(OneCustomer(l, q)) && AllReadable(Pieces(Buffer(q, to)))
    ensures Kept(OneCustomer(l, q), Pieces(Buffer(q, to))) == TextsOf(to)
  {
    TokensReadable(l, q, to);
    TokensKept(l, q, to);
  }

  /** The addresses of a list. */
  lemma ListAddresses(names: seq<string>)
    ensures AddressesIn(Numbered(names, 0)) == NamesIn(names)
  {
    var list := Numbered(names, 0);
    forall i | 0 <= i < |names| ensures names[i] in AddressesIn(list) {
      assert list[i].ipv4 == names[i];
    }
  }

  function NamesIn(names: seq<string>): set<Dst> { set i | 0 <= i < |names| :: names[i] }

  lemma CompleteList(names: seq<string>)
    ensures Complete(Numbered(names, 0), names, {})
  {
    var none: seq<string> := [];
    assert names + none == names && Enumerates(none, {});
  }

  /** The same list for `n` rounds, and then another. */
  lemma Chained(f: Filter, few: string, many: string, two: seq<Entry>, three: seq<Entry>, n: nat)
    returns (texts: seq<string>, lists: seq<seq<Entry>>)
    requires n > 0 && First(f, few, two) && Next(f, few, two, two) && Next(f, many, three, two)
    ensures ListsFollow(f, texts, lists) && |lists| == n + 1
    ensures (forall i :: 0 <= i < n ==> lists[i] == two) && lists[n] == three
  {
    texts := seq(n, _ => few) + [many];
    lists := seq(n, _ => two) + [three];
  }

  lemma TwoNames(a: Address, b: Address)
    ensures NamesIn(TextsOf([a, b])) == {Text(a), Text(b)}
  {
    var names := TextsOf([a, b]);
    assert names == [Text(a), Text(b)];
    assert names[0] in NamesIn(names) && names[1] in NamesIn(names);
  }

  lemma ThreeNames(c: Address, d: Address, e: Address)
    ensures NamesIn(TextsOf([c, d, e])) == {Text(c), Text(d), Text(e)}
  {
    var names := TextsOf([c, d, e]);
    assert names == [Text(c), Text(d), Text(e)];
    assert names[0] in NamesIn(names) && names[1] in NamesIn(names) && names[2] in NamesIn(names);
  }

  /** `n` rounds in which the customer talks to `a` and `b`, and one in which it talks to
      three others. */
  lemma TwoThenThree(l: Quad, q: Quad, a: Address, b: Address, c: Address, d: Address, e: Address, n: nat)
    returns (texts: seq<string>, lists: seq<seq<Entry>>)
    requires n > 0 && NoneLocal(l, [a, b]) && NoneLocal(l, [c, d, e])
    ensures ListsFollow(OneCustomer(l, q), texts, lists) && |lists| == n + 1
    ensures forall i :: 0 <= i < n ==> AddressesIn(lists[i]) == {Text(a), Text(b)}
    ensures AddressesIn(lists[n]) == {Text(c), Text(d), Text(e)}
  {
    BufferKept(l, q, [a, b]);
    BufferKept(l, q, [c, d, e]);
    TwoNames(a, b);
    ThreeNames(c, d, e);
    CompleteList(TextsOf([a, b]));
    CompleteList(TextsOf([c, d, e]));
    ListAddresses(TextsOf([a, b]));
    ListAddresses(TextsOf([c, d, e]));
    texts, lists := Chained(OneCustomer(l, q), Buffer(q, [a, b]), Buffer(q, [c, d, e]),
                            Numbered(TextsOf([a, b]), 0), Numbered(TextsOf([c, d, e]), 0), n);
  }

  // ----- runs -----

  ghost predicate Disjoint(a: Address, b: Address, c: Address, d: Address, e: Address) {
    a != b && a != c && a != d && a != e && b != c && b != d && b != e
  }

  lemma TextsDiffer(a: Address, b: Address)
    requires a != b
    ensures Text(a) != Text(b)
  {
    TextIsRead(a);
    TextIsRead(b);
  }

  lemma DisjointTexts(a: Address, b: Address, c: Address, d: Address, e: Address)
    requires Disjoint(a, b, c, d, e)
    ensures var later := {Text(c), Text(d), Text(e)};
      Text(a) != Text(b) && Text(a) !in later && Text(b) !in later
  {
    TextsDiffer(a, b);
    TextsDiffer(a, c);
    TextsDiffer(a, d);
    TextsDiffer(a, e);
    TextsDiffer(b, c);
    TextsDiffer(b, d);
    TextsDiffer(b, e);
  }

  /** A route no table knows is still advertised. */
  ghost predicate LeftBehind(xs: seq<RoundInput>, d: Dst) { d in After(xs).rib && d !in After(xs).route }

  lemma WithdrawLostOn(a: Dst, b: Dst, lists: seq<seq<Entry>>) returns (xs: seq<RoundInput>)
    requires |lists| == 3 && AddressesIn(lists[0]) == AddressesIn(lists[1]) == {a, b}
    requires a != b && a !in AddressesIn(lists[2]) && b !in AddressesIn(lists[2])
    ensures RunsOn(xs, lists) && IsRun(xs) && AllProcessed(xs) && LeftBehind(xs, b)
    ensures forall i :: 0 <= i < |xs| ==> !xs[i].keepRound && !xs[i].shutdown
  {
    xs := WithdrawLost(a, b, AddressesIn(lists[2]));
  }

  lemma RouteLeftOn(a: Dst, b: Dst, lists: seq<seq<Entry>>) returns (xs: seq<RoundInput>)
    requires |lists| == 4 && AddressesIn(lists[0]) == AddressesIn(lists[1]) == AddressesIn(lists[2]) == {a, b}
    requires a != b && a !in AddressesIn(lists[3]) && b !in AddressesIn(lists[3])
    ensures RunsOn(xs, lists) && WithSkips(xs) && LeftBehind(xs, b)
    ensures forall i :: 0 <= i < |xs| ==> xs[i].keepRound && (xs[i].acked <==> i != 2)
  {
    xs := RouteLeftBySkip(a, b, AddressesIn(lists[3]));
  }

  /** For any five outside addresses there is a run on lists that follow from each other, every
      round of it processed by the loop as written, that ends with the route to `b`
      advertised and in no table. */
  lemma WithdrawLostOnLists(l: Quad, q: Quad, a: Address, b: Address, c: Address, d: Address, e: Address)
    returns (xs: seq<RoundInput>, texts: seq<string>, lists: seq<seq<Entry>>)
    requires Disjoint(a, b, c, d, e) && NoneLocal(l, [a, b]) && NoneLocal(l, [c, d, e])
    ensures ListsFollow(OneCustomer(l, q), texts, lists) && RunsOn(xs, lists)
    ensures IsRun(xs) && AllProcessed(xs) && LeftBehind(xs, Text(b))
    ensures forall i :: 0 <= i < |xs| ==> !xs[i].keepRound && !xs[i].shutdown
  {
    DisjointTexts(a, b, c, d, e);
    texts, lists := TwoThenThree(l, q, a, b, c, d, e, 2);
    xs := WithdrawLostOn(Text(a), Text(b), lists);
  }

  /** The same for the loop with a round number of its own and a skipped round. */
  lemma RouteLeftBySkipOnLists(l: Quad, q: Quad, a: Address, b: Address, c: Address, d: Address, e: Address)
    returns (xs: seq<RoundInput>, texts: seq<string>, lists: seq<seq<Entry>>)
    requires Disjoint(a, b, c, d, e) && NoneLocal(l, [a, b]) && NoneLocal(l, [c, d, e])
    ensures ListsFollow(OneCustomer(l, q), texts, lists) && RunsOn(xs, lists)
    ensures WithSkips(xs) && LeftBehind(xs, Text(b))
    ensures forall i :: 0 <= i < |xs| ==> xs[i].keepRound && (xs[i].acked <==> i != 2)
  {
    DisjointTexts(a, b, c, d, e);
    texts, lists := TwoThenThree(l, q, a, b, c, d, e, 3);
    xs := RouteLeftOn(Text(a), Text(b), lists);
  }
}
