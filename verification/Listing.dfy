/**
 What stands in the destination list, in terms of the tokens in the buffer, the local
 prefixes, the customer ranges and the database.
 */
module Listing {
  import opened Tables
  import opened Dotted
  import opened Cidrs
  import opened Networks
  import opened DstList

  /** The token is the source `src`, a comma, and the destination `d`. */
  predicate IsPair(token: string, src: string, d: string) {
    ',' !in src && token == src + [','] + d
  }

  /** `d` is an address outside every local prefix. */
  ghost predicate IsOutside(locals: seq<Cidr>, d: string)
    requires AllShort(locals)
  {
    && InetPton(d).Some?
    && forall i :: 0 <= i < |locals| ==> !Member(locals[i], Ip4Bin(d))
  }

  /** `src` is an address in the range of some customer prefix. */
  ghost predicate IsCustomer(customers: seq<Cidr>, src: string)
    requires AllShort(customers)
  {
    && InetPton(src).Some?
    && exists i :: 0 <= i < |customers| && Takes(customers[i], Ip4Bin(src))
  }

  /** The token asks for `d`: a customer address talks to an outside address the database
      does not have. */
  ghost predicate Asks(f: Filter, token: string, d: string)
    requires ValidFilter(f)
  {
    exists src :: IsPair(token, src, d) && IsCustomer(f.customers, src) && IsOutside(f.locals, d) && d !in f.db
  }

  lemma PairCut(src: string, d: string)
    requires ',' !in src
    ensures var token := src + [','] + d; Find(token, ',') == |src| && FlowOf(token) == Flow(src, d)
  {
    var token := src + [','] + d;
    FindFirst(src, ',', d);
    assert token[..|src|] == src && token[|src| + 1..] == d;
  }

  lemma PairIs(token: string, src: string, d: string)
    ensures IsPair(token, src, d) <==> Find(token, ',') < |token| && FlowOf(token) == Flow(src, d)
  {
    if IsPair(token, src, d) {
      PairCut(src, d);
    } else if Find(token, ',') < |token| && FlowOf(token) == Flow(src, d) {
      SplitsAt(token, Find(token, ','), ',');
    }
  }

  lemma AddressHasDot(s: string)
    requires InetPton(s).Some?
    ensures '.' in s
  {
    ReadIsText(s);
    NoSlash(InetPton(s).value);
  }

  lemma AcceptedIs(f: Filter, x: Flow)
    requires ValidFilter(f)
    ensures Accepted(f, x) <==> IsCustomer(f.customers, x.src) && IsOutside(f.locals, x.dst) && x.dst !in f.db
  {
    if InetPton(x.src).Some? {
      AddressHasDot(x.src);
    }
  }

  lemma AsksIs(f: Filter, token: string, d: string)
    requires ValidFilter(f)
    ensures Asks(f, token, d) <==> KeptOne(f, token) == [d]
  {
    var x := FlowOf(token);
    AcceptedIs(f, x);
    if Asks(f, token, d) {
      var src :| IsPair(token, src, d) && IsCustomer(f.customers, src) && IsOutside(f.locals, d) && d !in f.db;
      PairIs(token, src, d);
    }
    if KeptOne(f, token) == [d] {
      HasComma(f, token);
      PairIs(token, x.src, d);
    }
  }

  lemma HasComma(f: Filter, token: string)
    requires ValidFilter(f) && Accepted(f, FlowOf(token))
    ensures Find(token, ',') < |token|
  {
    if ',' !in token {
      NoSource(f, token);
    }
  }

  /** `at` are the positions, in increasing order, of the tokens that ask for something, and
      `names` is what they ask for. */
  ghost predicate AskedAt(f: Filter, tokens: seq<string>, names: seq<string>, at: seq<nat>)
    requires ValidFilter(f)
  {
    && |at| == |names| && Increasing(at)
    && (forall i :: 0 <= i < |at| ==> at[i] < |tokens| && Asks(f, tokens[at[i]], names[i]))
    && (forall k: nat, d :: k < |tokens| && Asks(f, tokens[k], d) ==> k in at)
  }

  /** `at` are the positions of the parts that are not empty, each holding one of `names`. */
  ghost predicate PickedAt(parts: seq<seq<string>>, names: seq<string>, at: seq<nat>) {
    && |at| == |names| && Increasing(at)
    && (forall i :: 0 <= i < |at| ==> at[i] < |parts| && parts[at[i]] == [names[i]])
    && (forall k: nat :: k < |parts| && parts[k] != [] ==> k in at)
  }

  lemma PickedNext(front: seq<seq<string>>, part: seq<string>, names: seq<string>, at: seq<nat>)
    returns (at': seq<nat>)
    requires PickedAt(front, names, at) && |part| <= 1
    ensures PickedAt(front + [part], names + part, at')
  {
    if part == [] {
      at' := at;
      assert names + part == names;
    } else {
      at' := at + [|front|];
    }
  }

  lemma {:induction false} Picked(parts: seq<seq<string>>) returns (at: seq<nat>)
    requires forall k :: 0 <= k < |parts| ==> |parts[k]| <= 1
    ensures PickedAt(parts, Flatten(parts), at)
  {
    if parts == [] {
      at := [];
    } else {
      var n := |parts| - 1;
      var front := Picked(parts[..n]);
      assert parts == parts[..n] + [parts[n]];
      at := PickedNext(parts[..n], parts[n], Flatten(parts[..n]), front);
    }
  }

  /** The kept destinations are what the asking tokens ask for, in token order, each as
      often as it is asked for. */
  lemma KeptAsked(f: Filter, tokens: seq<string>) returns (at: seq<nat>)
    requires ValidFilter(f)
    ensures AskedAt(f, tokens, Kept(f, tokens), at)
  {
    var parts := KeptEach(f, tokens);
    at := Picked(parts);
    var names := Flatten(parts);
    forall k: nat, d: string | k < |tokens|
      ensures Asks(f, tokens[k], d) <==> parts[k] == [d]
    {
      AsksIs(f, tokens[k], d);
    }
    AskedWherePicked(f, tokens, parts, names, at);
  }

  lemma AskedWherePicked(f: Filter, tokens: seq<string>, parts: seq<seq<string>>, names: seq<string>, at: seq<nat>)
    requires ValidFilter(f) && |parts| == |tokens| && PickedAt(parts, names, at)
    requires forall k: nat, d: string :: k < |tokens| ==> (Asks(f, tokens[k], d) <==> parts[k] == [d])
    ensures AskedAt(f, tokens, names, at)
  {
  }

  /** The addresses of a list. */
  function Names(list: seq<Entry>): seq<string> { seq(|list|, i requires 0 <= i < |list| => list[i].ipv4) }

  lemma CompleteNames(list: seq<Entry>, kept: seq<string>, db: set<string>)
    requires Complete(list, kept, db)
    ensures |list| >= |kept| && Names(list)[..|kept|] == kept && Enumerates(Names(list)[|kept|..], db)
    ensures forall i :: 0 <= i < |list| ==> list[i].id == i
  {
    var names :| Enumerates(names, db) && list == Numbered(kept + names, 0);
    assert Names(list) == kept + names;
  }

  /** A complete list has in front, in token order, what the tokens in the buffer ask for,
      each an outside address some customer talks to and the database does not have, and
      behind it the database; nothing that is asked for is missing. */
  lemma ListedIff(list: seq<Entry>, f: Filter, tokens: seq<string>) returns (at: seq<nat>)
    requires ValidFilter(f) && Complete(list, Kept(f, tokens), f.db)
    ensures |at| <= |list| && AskedAt(f, tokens, Names(list)[..|at|], at)
    ensures Enumerates(Names(list)[|at|..], f.db)
    ensures forall i :: 0 <= i < |list| ==> list[i].id == i
  {
    at := KeptAsked(f, tokens);
    CompleteNames(list, Kept(f, tokens), f.db);
  }

  /** A rebuild from a buffer in which at most two tokens ask for something gives the list
      before, and otherwise a complete one. */
  lemma RebuiltIff(list: seq<Entry>, f: Filter, tokens: seq<string>, prev: seq<Entry>)
    returns (names: seq<string>, at: seq<nat>)
    requires ValidFilter(f) && Rebuilt(list, f, tokens, prev)
    ensures AskedAt(f, tokens, names, at)
    ensures |at| <= 2 ==> list == prev
    ensures |at| > 2 ==> |at| <= |list| && names == Names(list)[..|at|] && Enumerates(Names(list)[|at|..], f.db)
  {
    names := Kept(f, tokens);
    at := KeptAsked(f, tokens);
    if |at| > 2 {
      CompleteNames(list, names, f.db);
    }
  }
}
