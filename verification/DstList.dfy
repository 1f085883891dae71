/**
 The destination list: cutting the shared buffer into tokens in place, filtering them,
 and falling back to the previous list.
 */
module DstList {
  import opened Tables
  import opened Dotted
  import opened Cidrs
  import opened Networks

  const NUL: char := '\0'

  // ----- the shared buffer -----

  ghost predicate Terminated(s: seq<char>, p: nat) {
    exists i :: p <= i < |s| && s[i] == NUL
  }

  /** The C string that starts at `p`. */
  ghost function CStr(s: seq<char>, p: nat): string
    requires Terminated(s, p)
    decreases |s| - p
  {
    if s[p] == NUL then "" else [s[p]] + CStr(s, p + 1)
  }

  /** The text behind its leading colons. */
  function Skip(t: string): string {
    if t != "" && t[0] == ':' then Skip(t[1..]) else t
  }

  function Word(t: string): string { t[..Find(t, ':')] }

  function Rest(t: string): string { if Find(t, ':') < |t| then t[Find(t, ':') + 1..] else "" }

  lemma {:induction false} SkipShorter(t: string)
    ensures |Skip(t)| <= |t| && (Skip(t) != "" ==> Skip(t)[0] != ':')
  {
    if t != "" {
      SkipShorter(t[1..]);
    }
  }

  /** The non-empty pieces between colons. */
  function Pieces(t: string): seq<string>
    decreases |t|
  {
    var u := Skip(t);
    SkipShorter(t);
    if u == "" then [] else [Word(u)] + Pieces(Rest(u))
  }

  lemma {:induction false} CStrAppend(s: seq<char>, a: nat, e: nat)
    requires a <= e && Terminated(s, e) && forall i :: a <= i < e ==> s[i] != NUL
    ensures Terminated(s, a) && CStr(s, a) == s[a..e] + CStr(s, e)
    decreases e - a
  {
    if a < e {
      CStrAppend(s, a + 1, e);
    }
  }

  lemma {:induction false} CStrFrame(s: seq<char>, s': seq<char>, p: nat)
    requires |s| == |s'| && Terminated(s, p) && forall i :: p <= i < |s| ==> s[i] == s'[i]
    ensures Terminated(s', p) && CStr(s', p) == CStr(s, p)
    decreases |s| - p
  {
    if s[p] != NUL {
      CStrFrame(s, s', p + 1);
    }
  }

  lemma {:induction false} SkipColons(t: string, u: string)
    requires forall i :: 0 <= i < |t| ==> t[i] == ':'
    ensures Skip(t + u) == Skip(u)
  {
    if t == "" {
      assert t + u == u;
    } else {
      assert (t + u)[1..] == t[1..] + u;
      SkipColons(t[1..], u);
    }
  }

  /** `strspn` over the delimiter: the first position that is not a colon. */
  method Span(buf: array<char>, p: nat) returns (a: nat)
    requires Terminated(buf[..], p)
    ensures p <= a < buf.Length && buf[a] != ':'
    ensures Terminated(buf[..], a) && CStr(buf[..], a) == Skip(CStr(buf[..], p))
    ensures forall i :: p <= i < a ==> buf[i] == ':'
  {
    a := p;
    while buf[a] == ':'
      invariant p <= a && Terminated(buf[..], a)
      invariant forall i :: p <= i < a ==> buf[i] == ':'
      decreases buf.Length - a
    {
      a := a + 1;
    }
    var s := buf[..];
    CStrAppend(s, p, a);
    SkipColons(s[p..a], CStr(s, a));
  }

  /** `strcspn`: the first position that is a colon or the end. */
  method Cut(buf: array<char>, a: nat) returns (e: nat)
    requires Terminated(buf[..], a)
    ensures a <= e && Terminated(buf[..], e) && (buf[e] == ':' || buf[e] == NUL)
    ensures forall i :: a <= i < e ==> buf[i] != ':' && buf[i] != NUL
  {
    e := a;
    while buf[e] != ':' && buf[e] != NUL
      invariant a <= e && Terminated(buf[..], e)
      invariant forall i :: a <= i < e ==> buf[i] != ':' && buf[i] != NUL
      decreases buf.Length - e
    {
      e := e + 1;
    }
  }

  /** The word from `a` to `e`, and what is left of the string behind it. */
  lemma WordAt(s: seq<char>, a: nat, e: nat)
    requires a <= e && Terminated(s, e) && (s[e] == ':' || s[e] == NUL)
    requires forall i :: a <= i < e ==> s[i] != ':' && s[i] != NUL
    ensures Terminated(s, a) && Word(CStr(s, a)) == s[a..e]
    ensures s[e] == NUL ==> Rest(CStr(s, a)) == ""
    ensures s[e] == ':' ==> Terminated(s, e + 1) && Rest(CStr(s, a)) == CStr(s, e + 1)
  {
    CStrAppend(s, a, e);
    var word := s[a..e];
    assert ':' !in word;
    if s[e] == NUL {
      assert word + "" == word;
      FindFirst(word, ':', "");
    } else {
      assert word + CStr(s, e) == word + [':'] + CStr(s, e + 1);
      FindFirst(word, ':', CStr(s, e + 1));
    }
  }

  lemma CutString(s: seq<char>, a: nat, e: nat)
    requires a <= e < |s| && forall i :: a <= i < e ==> s[i] != NUL
    ensures var s' := s[e := NUL];
            Terminated(s', a) && CStr(s', a) == s[a..e]
  {
    var s' := s[e := NUL];
    assert s'[e] == NUL;
    CStrAppend(s', a, e);
  }

  /** What one call of `strtok` from `p` does to the buffer: `a` is where the token
      starts, `e` where it ends. */
  ghost predicate Cuts(s: seq<char>, s': seq<char>, p: nat, a: nat, e: nat, next: nat)
    requires Terminated(s, p)
  {
    && p <= a < e < |s| && (next == e || next == e + 1) && s' == s[e := NUL]
    && Terminated(s', a) && Terminated(s', next)
    && (forall i :: p <= i < a ==> s[i] == ':')
    && (forall i :: a <= i < e ==> s[i] != ':' && s[i] != NUL)
    && CStr(s', a) == Word(Skip(CStr(s, p))) == s[a..e]
    && CStr(s', next) == Rest(Skip(CStr(s, p)))
  }

  lemma RestAt(s: seq<char>, a: nat, e: nat, next: nat)
    requires a <= e && Terminated(s, e) && (s[e] == ':' || s[e] == NUL)
    requires forall i :: a <= i < e ==> s[i] != ':' && s[i] != NUL
    requires next == if s[e] == NUL then e else e + 1
    ensures Terminated(s[e := NUL], next) && CStr(s[e := NUL], next) == Rest(CStr(s, a))
  {
    WordAt(s, a, e);
    var s' := s[e := NUL];
    if s[e] == NUL {
      assert s' == s;
    } else {
      CStrFrame(s, s', e + 1);
    }
  }

  lemma CutsAt(s: seq<char>, p: nat, a: nat, e: nat, next: nat)
    requires p <= a < e && Terminated(s, e) && (s[e] == ':' || s[e] == NUL)
    requires forall i :: a <= i < e ==> s[i] != ':' && s[i] != NUL
    requires Terminated(s, p) && CStr(s, a) == Skip(CStr(s, p))
    requires forall i :: p <= i < a ==> s[i] == ':'
    requires next == if s[e] == NUL then e else e + 1
    ensures Cuts(s, s[e := NUL], p, a, e, next)
  {
    WordAt(s, a, e);
    CutString(s, a, e);
    RestAt(s, a, e, next);
  }

  /** One call of `strtok`: the token's start, or -1 without touching the buffer; the
      next call goes on at `next`. */
  method StrTok(buf: array<char>, p: nat) returns (token: int, next: nat, ghost end: nat)
    requires Terminated(buf[..], p)
    modifies buf
    ensures token == -1 ==> Skip(old(CStr(buf[..], p))) == "" && buf[..] == old(buf[..])
    ensures token != -1 ==> token >= 0 && Skip(old(CStr(buf[..], p))) != ""
    ensures token != -1 ==> Cuts(old(buf[..]), buf[..], p, token, end, next)
  {
    ghost var s := buf[..];
    var a := Span(buf, p);
    if buf[a] == NUL {
      return -1, a, a;
    }
    var e := Cut(buf, a);
    if buf[e] == NUL {
      CutsAt(s, p, a, e, e);
      assert s[e := NUL] == s;
      return a, e, e;
    }
    CutsAt(s, p, a, e, e + 1);
    buf[e] := NUL;
    assert buf[..] == s[e := NUL];
    return a, e + 1, e;
  }

  // ----- the filter -----

  /** A token: the source and the destination around the first comma. */
  datatype Flow = Flow(src: string, dst: string)

  function FlowOf(token: string): Flow {
    var pos := Find(token, ',');
    if pos < |token| then Flow(token[..pos], token[pos + 1..]) else Flow("", token)
  }

  predicate Readable(f: Flow) { InetPton(f.dst).Some? && Askable(f.src) }

  ghost predicate AllReadable(tokens: seq<string>) {
    forall i :: 0 <= i < |tokens| ==> Readable(FlowOf(tokens[i]))
  }

  /** What the filter is asked against: local nets, customer prefixes, database addresses. */
  datatype Filter = Filter(locals: seq<Cidr>, customers: seq<Cidr>, db: set<string>)

  ghost predicate ValidFilter(f: Filter) { AllShort(f.locals) && AllShort(f.customers) }

  /** An outside destination, not in the database, that a customer address talks to. */
  ghost predicate Accepted(f: Filter, x: Flow)
    requires ValidFilter(f)
  {
    && Readable(x) && !AnyMember(f.locals, Ip4Bin(x.dst)) && x.dst !in f.db
    && '.' in x.src && AnyTakes(f.customers, Ip4Bin(x.src))
  }

  function Flatten(parts: seq<seq<string>>): seq<string> {
    if parts == [] then [] else Flatten(parts[..|parts| - 1]) + parts[|parts| - 1]
  }

  /** The accepted destinations, in token order. */
  ghost function Kept(f: Filter, tokens: seq<string>): seq<string>
    requires ValidFilter(f)
  {
    Flatten(KeptEach(f, tokens))
  }

  ghost function KeptEach(f: Filter, tokens: seq<string>): seq<seq<string>>
    requires ValidFilter(f)
  {
    seq(|tokens|, i requires 0 <= i < |tokens| => KeptOne(f, tokens[i]))
  }

  ghost function KeptOne(f: Filter, token: string): seq<string>
    requires ValidFilter(f)
  {
    if Accepted(f, FlowOf(token)) then [FlowOf(token).dst] else []
  }

  /** An entry of the list. */
  datatype Entry = Entry(id: nat, ipv4: string, ipv6: string, descr: string)

  function Numbered(names: seq<string>, from: nat): seq<Entry> {
    seq(|names|, i requires 0 <= i < |names| => Entry(from + i, names[i], "", ""))
  }

  /** `f` is what the three objects hold. */
  ghost predicate Holds(f: Filter, ln: LocalNets, cust: Customer, db: map<string, bool>)
    reads ln, cust
  {
    && ValidFilter(f) && ln.Valid() && cust.Valid()
    && f.locals == ln.written && f.customers == cust.Written() && f.db == db.Keys
  }

  method Consider(token: string, ln: LocalNets, cust: Customer, db: map<string, bool>, ghost f: Filter)
    returns (keep: bool, daddr: string)
    requires Holds(f, ln, cust, db) && Readable(FlowOf(token))
    ensures KeptOne(f, token) == if keep then [daddr] else []
  {
    var addr, saddr := token, "";
    var pos := Find(addr, ',');
    if pos < |addr| {
      saddr := addr[..pos];
      addr := addr[pos + 1..];
    }
    daddr := addr;
    var isLocal := ln.IsHostInNetwork(daddr);
    keep := false;
    if !isLocal && daddr !in db {
      keep := cust.IsPfxHit(saddr);
    }
  }

  // ----- a whole pass over the buffer -----

  lemma KeptSnoc(f: Filter, tokens: seq<string>, token: string)
    requires ValidFilter(f)
    ensures Kept(f, tokens + [token]) == Kept(f, tokens) + KeptOne(f, token)
  {
    var parts := KeptEach(f, tokens);
    assert KeptEach(f, tokens + [token]) == parts + [KeptOne(f, token)];
    assert (parts + [KeptOne(f, token)])[..|parts|] == parts;
  }

  lemma OneWord(colons: string, word: string)
    requires (forall i :: 0 <= i < |colons| ==> colons[i] == ':') && word != "" && ':' !in word
    ensures Pieces(colons + word) == [word]
  {
    SkipColons(colons, word);
    FindFirst(word, ':', "");
    assert word[0] in word;
    assert Word(word) == word && Rest(word) == "";
  }

  lemma {:induction false} PiecesOfJoin(words: seq<string>)
    requires forall i :: 0 <= i < |words| ==> words[i] != "" && ':' !in words[i]
    ensures Pieces(Join(words, ':')) == words
  {
    if |words| == 1 {
      OneWord("", words[0]);
      assert "" + words[0] == words[0];
    } else if words != [] {
      PiecesOfJoin(words[1..]);
      FirstWord(words[0], Join(words[1..], ':'));
    }
  }

  lemma FirstWord(word: string, rest: string)
    requires word != "" && ':' !in word
    ensures Pieces(word + [':'] + rest) == [word] + Pieces(rest)
  {
    var t := word + [':'] + rest;
    assert t[0] == word[0] && word[0] in word;
    FindFirst(word, ':', rest);
    assert Skip(t) == t && Word(t) == word && Rest(t) == rest;
  }

  /** Everything up to the end of the first token is as the first call of `strtok` left it. */
  ghost predicate FirstCut(s: seq<char>, a: nat, e: nat) {
    && a < e < |s| && s[e] == NUL && (forall i :: 0 <= i < a ==> s[i] == ':')
    && forall i :: a <= i < e ==> s[i] != ':' && s[i] != NUL
  }

  lemma FirstCutPieces(s: seq<char>, a: nat, e: nat)
    requires FirstCut(s, a, e)
    ensures Terminated(s, 0) && Pieces(CStr(s, 0)) == [s[a..e]]
  {
    CStrAppend(s, 0, e);
    assert s[0..e] == s[0..a] + s[a..e];
    assert CStr(s, 0) == s[0..a] + s[a..e];
    OneWord(s[0..a], s[a..e]);
  }

  /** What the first call leaves, the later ones keep. */
  lemma FirstCutKept(s: seq<char>, s': seq<char>, a: nat, e: nat, p: nat, a': nat, e': nat, next: nat)
    requires FirstCut(s, a, e) && e <= p && Terminated(s, p) && Cuts(s, s', p, a', e', next)
    ensures FirstCut(s', a, e) && e <= next
  {
  }

  function CToken(s: seq<char>, token: nat): (t: string)
    requires token <= |s|
  {
    var e := Find(s[token..], NUL);
    s[token..][..e]
  }

  lemma {:induction false} CTokenIs(s: seq<char>, token: nat)
    requires Terminated(s, token)
    ensures token <= |s| && CToken(s, token) == CStr(s, token)
    decreases |s| - token
  {
    if s[token] != NUL {
      CTokenIs(s, token + 1);
      assert s[token..][1..] == s[token + 1..];
      var e := Find(s[token + 1..], NUL);
      assert s[token..][..e + 1] == [s[token]] + s[token + 1..][..e];
    }
  }

  /** One call of `strtok` and the copy of its token. */
  method NextToken(buf: array<char>, p: nat) returns (token: Option<string>, next: nat, ghost a: nat, ghost e: nat)
    requires Terminated(buf[..], p)
    modifies buf
    ensures token == None ==> Pieces(old(CStr(buf[..], p))) == [] && buf[..] == old(buf[..])
    ensures token != None ==> Cuts(old(buf[..]), buf[..], p, a, e, next)
    ensures token != None ==> Pieces(old(CStr(buf[..], p))) == [token.value] + Pieces(CStr(buf[..], next))
  {
    var t;
    t, next, e := StrTok(buf, p);
    a := if t == -1 then 0 else t;
    if t == -1 {
      token := None;
    } else {
      CTokenIs(buf[..], t);
      token := Some(CToken(buf[..], t));
    }
  }

  lemma NumberedSnoc(names: seq<string>, name: string, from: nat)
    ensures Numbered(names + [name], from) == Numbered(names, from) + [Entry(from + |names|, name, "", "")]
  {
  }

  function FirstOf(tokens: seq<string>): seq<string> { if tokens == [] then [] else tokens[..1] }

  /** The tokens still to come: the one at hand, then those of the rest of the buffer. */
  ghost function Ahead(token: Option<string>, s: seq<char>, next: nat): seq<string>
    requires token != None ==> Terminated(s, next)
  {
    if token == None then [] else [token.value] + Pieces(CStr(s, next))
  }

  /** What is known of the buffer once the first token, if any, was cut out. */
  ghost predicate Opened(s: seq<char>, all: seq<string>, a: nat, e: nat) {
    Terminated(s, 0) &&
    if all == [] then Pieces(CStr(s, 0)) == [] else FirstCut(s, a, e) && s[a..e] == all[0]
  }

  lemma OpenedPieces(s: seq<char>, all: seq<string>, a: nat, e: nat)
    requires Opened(s, all, a, e)
    ensures Pieces(CStr(s, 0)) == FirstOf(all)
  {
    if all != [] {
      FirstCutPieces(s, a, e);
    }
  }

  lemma OpenedFirst(s: seq<char>, s': seq<char>, all: seq<string>, a: nat, e: nat, next: nat)
    requires Terminated(s, 0) && all == Pieces(CStr(s, 0)) && all != [] && Cuts(s, s', 0, a, e, next)
    ensures Opened(s', all, a, e) && e <= next
  {
    FirstCutPieces(s', a, e);
  }

  lemma OpenedKept(s: seq<char>, s': seq<char>, all: seq<string>, a: nat, e: nat, p: nat, a': nat, e': nat, next: nat)
    requires Opened(s, all, a, e) && all != [] && e <= p && Terminated(s, p) && Cuts(s, s', p, a', e', next)
    ensures Opened(s', all, a, e) && e <= next
  {
    FirstCutKept(s, s', a, e, p, a', e', next);
    FirstCutPieces(s', a, e);
    assert s'[a..e] == s[a..e];
  }

  /** Where a pass is: `done` of the tokens `all` are behind, `token` is at hand, and the
      next call of `strtok` goes on at `next`. */
  ghost predicate Cursor(s: seq<char>, all: seq<string>, done: seq<string>, token: Option<string>, next: nat,
                         a: nat, e: nat)
  {
    && Opened(s, all, a, e) && (token != None ==> Terminated(s, next) && e <= next)
    && all == done + Ahead(token, s, next)
  }

  lemma AtToken(s: seq<char>, all: seq<string>, done: seq<string>, token: Option<string>, next: nat, a: nat, e: nat)
    requires Cursor(s, all, done, token, next, a, e) && token != None
    ensures |done| < |all| && all[|done|] == token.value
  {
  }

  lemma AtEnd(s: seq<char>, all: seq<string>, done: seq<string>, next: nat, a: nat, e: nat)
    requires Cursor(s, all, done, None, next, a, e)
    ensures done == all && Terminated(s, 0) && Pieces(CStr(s, 0)) == FirstOf(all)
  {
    OpenedPieces(s, all, a, e);
  }

  /** The first call of `strtok`. */
  method Begin(buf: array<char>) returns (token: Option<string>, next: nat, ghost a: nat, ghost e: nat)
    requires Terminated(buf[..], 0)
    modifies buf
    ensures Cursor(buf[..], old(Pieces(CStr(buf[..], 0))), [], token, next, a, e)
  {
    ghost var s := buf[..];
    token, next, a, e := NextToken(buf, 0);
    if token != None {
      OpenedFirst(s, buf[..], Pieces(CStr(s, 0)), a, e, next);
    }
  }

  /** A later call. */
  method Continue(buf: array<char>, p: nat, ghost all: seq<string>, ghost done: seq<string>, ghost t: Option<string>,
                  ghost a: nat, ghost e: nat)
    returns (token: Option<string>, next: nat)
    requires Cursor(buf[..], all, done, t, p, a, e) && t != None
    modifies buf
    ensures Cursor(buf[..], all, done + [t.value], token, next, a, e)
  {
    ghost var s, a', e' := buf[..], 0, 0;
    token, next, a', e' := NextToken(buf, p);
    CursorNext(s, buf[..], all, done, t, p, a, e, token, next, a', e');
  }

  lemma CursorNext(s: seq<char>, s': seq<char>, all: seq<string>, done: seq<string>, t: Option<string>, p: nat,
                   a: nat, e: nat, token: Option<string>, next: nat, a': nat, e': nat)
    requires Cursor(s, all, done, t, p, a, e) && t != None
    requires token == None ==> Pieces(CStr(s, p)) == [] && s' == s
    requires token != None ==> Cuts(s, s', p, a', e', next)
    requires token != None ==> Pieces(CStr(s, p)) == [token.value] + Pieces(CStr(s', next))
    ensures Cursor(s', all, done + [t.value], token, next, a, e)
  {
    if token != None {
      OpenedKept(s, s', all, a, e, p, a', e', next);
    }
  }

  /** One token: pushed with the next number if it is accepted. */
  method Admit(token: string, ln: LocalNets, cust: Customer, db: map<string, bool>, list: seq<Entry>, dstId: nat,
               ghost f: Filter, ghost done: seq<string>)
    returns (list': seq<Entry>, dstId': nat)
    requires Holds(f, ln, cust, db) && Readable(FlowOf(token))
    requires list == Numbered(Kept(f, done), 0) && dstId == |list|
    ensures list' == Numbered(Kept(f, done + [token]), 0) && dstId' == |list'|
  {
    var keep, daddr := Consider(token, ln, cust, db, f);
    KeptSnoc(f, done, token);
    list', dstId' := Push(list, dstId, keep, daddr, Kept(f, done));
  }

  method Push(list: seq<Entry>, dstId: nat, keep: bool, daddr: string, ghost names: seq<string>)
    returns (list': seq<Entry>, dstId': nat)
    requires list == Numbered(names, 0) && dstId == |list|
    ensures list' == Numbered(names + if keep then [daddr] else [], 0) && dstId' == |list'|
  {
    list', dstId' := list, dstId;
    if keep {
      NumberedSnoc(names, daddr, 0);
      list', dstId' := list + [Entry(dstId, daddr, "", "")], dstId + 1;
    } else {
      assert names + [] == names;
    }
  }

  /** One pass: cut, filter, number. Afterwards the buffer shows its first token only. */
  method Pass(buf: array<char>, ln: LocalNets, cust: Customer, db: map<string, bool>, ghost f: Filter)
    returns (list: seq<Entry>, dstId: nat)
    requires Holds(f, ln, cust, db) && Terminated(buf[..], 0) && AllReadable(Pieces(CStr(buf[..], 0)))
    modifies buf
    ensures list == Numbered(Kept(f, old(Pieces(CStr(buf[..], 0)))), 0) && dstId == |list|
    ensures Terminated(buf[..], 0)
    ensures Pieces(CStr(buf[..], 0)) == FirstOf(old(Pieces(CStr(buf[..], 0))))
  {
    ghost var all, done := Pieces(CStr(buf[..], 0)), [];
    list, dstId := [], 0;
    var token, next, a, e := Begin(buf);
    while token != None
      invariant Cursor(buf[..], all, done, token, next, a, e)
      invariant dstId == |list| && list == Numbered(Kept(f, done), 0)
      decreases |all| - |done|
    {
      AtToken(buf[..], all, done, token, next, a, e);
      list, dstId := Admit(token.value, ln, cust, db, list, dstId, f, done);
      ghost var t := token;
      token, next := Continue(buf, next, all, done, t, a, e);
      done := done + [t.value];
    }
    AtEnd(buf[..], all, done, next, a, e);
  }

  // ----- the list -----

  /** The kept destinations, then the database, numbered from 0. */
  ghost predicate Complete(list: seq<Entry>, kept: seq<string>, db: set<string>) {
    exists names :: Enumerates(names, db) && list == Numbered(kept + names, 0)
  }

  /** What a rebuild from the text of the buffer and the previous list gives. */
  ghost predicate Rebuilt(list: seq<Entry>, f: Filter, tokens: seq<string>, prev: seq<Entry>)
    requires ValidFilter(f)
  {
    var kept := Kept(f, tokens);
    if |kept| < 3 then list == prev else Complete(list, kept, f.db)
  }

  /** A rebuild never empties the list. */
  lemma NeverEmptied(list: seq<Entry>, f: Filter, tokens: seq<string>, prev: seq<Entry>)
    requires ValidFilter(f) && Rebuilt(list, f, tokens, prev) && prev != []
    ensures list != []
  {
  }

  /** The map the database rows are read into. */
  method GetMap(rows: seq<string>) returns (m: map<string, bool>)
    ensures m.Keys == set i | 0 <= i < |rows| :: rows[i]
  {
    m := map[];
    for i := 0 to |rows|
      invariant m.Keys == set j | 0 <= j < i :: rows[j]
    {
      m := m[rows[i] := true];
    }
  }

  /** The database appended, in whatever order the map has. */
  method AppendDb(list: seq<Entry>, dstId: nat, db: map<string, bool>, ghost kept: seq<string>) returns (r: seq<Entry>)
    requires list == Numbered(kept, 0) && dstId == |list|
    ensures Complete(r, kept, db.Keys)
  {
    r := list;
    var id, rest := dstId, db.Keys;
    ghost var names := [];
    assert kept + names == kept;
    while rest != {}
      invariant rest <= db.Keys && Enumerates(names, db.Keys - rest)
      invariant r == Numbered(kept + names, 0) && id == |r|
      decreases |rest|
    {
      var d :| d in rest;
      NumberedSnoc(kept + names, d, 0);
      assert (kept + names) + [d] == kept + (names + [d]);
      r, id, rest, names := r + [Entry(id, d, "", "")], id + 1, rest - {d}, names + [d];
    }
    assert Enumerates(names, db.Keys);
  }

  class DestinationList {
    var pfrDstList: seq<Entry>

    /** The list at start, which has no list to fall back to. */
    constructor First(buf: array<char>, rows: seq<string>, ln: LocalNets, cust: Customer, ghost f: Filter)
      requires Holds(f, ln, cust, map[]) && Terminated(buf[..], 0) && AllReadable(Pieces(CStr(buf[..], 0)))
      modifies buf
      ensures Complete(pfrDstList, Kept(WithRows(f, rows), old(Pieces(CStr(buf[..], 0)))), WithRows(f, rows).db)
      ensures Terminated(buf[..], 0)
      ensures Pieces(CStr(buf[..], 0)) == FirstOf(old(Pieces(CStr(buf[..], 0))))
    {
      ghost var all, f' := Pieces(CStr(buf[..], 0)), WithRows(f, rows);
      var db := GetMap(rows);
      var list, dstId := Pass(buf, ln, cust, db, f');
      list := AppendDb(list, dstId, db, Kept(f', all));
      pfrDstList := list;
    }

    /** The list of a later round. */
    constructor Next(buf: array<char>, rows: seq<string>, prev: DestinationList, ln: LocalNets, cust: Customer,
                     ghost f: Filter)
      requires Holds(f, ln, cust, map[]) && Terminated(buf[..], 0) && AllReadable(Pieces(CStr(buf[..], 0)))
      modifies buf
      ensures Rebuilt(pfrDstList, WithRows(f, rows), old(Pieces(CStr(buf[..], 0))), prev.pfrDstList)
      ensures Terminated(buf[..], 0)
      ensures Pieces(CStr(buf[..], 0)) == FirstOf(old(Pieces(CStr(buf[..], 0))))
    {
      ghost var all, f' := Pieces(CStr(buf[..], 0)), WithRows(f, rows);
      var db := GetMap(rows);
      var list, dstId := Pass(buf, ln, cust, db, f');
      if |list| < 3 {
        list := CopyOf(prev);
      } else {
        list := AppendDb(list, dstId, db, Kept(f', all));
      }
      pfrDstList := list;
    }

    static method CopyOf(prev: DestinationList) returns (list: seq<Entry>)
      ensures list == prev.pfrDstList
    {
      list := [];
      for i := 0 to |prev.pfrDstList|
        invariant list == prev.pfrDstList[..i]
      {
        list := list + [prev.pfrDstList[i]];
      }
    }
  }

  function WithRows(f: Filter, rows: seq<string>): Filter { f.(db := set i | 0 <= i < |rows| :: rows[i]) }

  // ----- what the list promises -----

  /** A token whose destination `d` the filter takes. */
  ghost predicate Gives(f: Filter, token: string, d: string)
    requires ValidFilter(f)
  {
    Accepted(f, FlowOf(token)) && FlowOf(token).dst == d
  }

  lemma KeptOneIff(f: Filter, token: string, d: string)
    requires ValidFilter(f)
    ensures d in KeptOne(f, token) <==> Gives(f, token, d)
  {
  }

  lemma {:induction false} InFlatten(parts: seq<seq<string>>, d: string)
    ensures d in Flatten(parts) <==> exists k :: 0 <= k < |parts| && d in parts[k]
  {
    if parts != [] {
      InFlatten(parts[..|parts| - 1], d);
    }
  }

  /** Kept are exactly the outside destinations some customer talks to that the database
      does not have. */
  lemma KeptIff(f: Filter, tokens: seq<string>, d: string)
    requires ValidFilter(f)
    ensures d in Kept(f, tokens) <==> exists k :: 0 <= k < |tokens| && Gives(f, tokens[k], d)
  {
    var parts := KeptEach(f, tokens);
    InFlatten(parts, d);
    forall k | 0 <= k < |tokens|
      ensures d in parts[k] <==> Gives(f, tokens[k], d)
    {
      KeptOneIff(f, tokens[k], d);
    }
  }

  /** A token without a comma has an empty source and is never taken. */
  lemma NoSource(f: Filter, token: string)
    requires ValidFilter(f) && ',' !in token
    ensures !Accepted(f, FlowOf(token)) && Kept(f, [token]) == []
  {
    FindFirst(token, ',', "");
    KeptSnoc(f, [], token);
    assert [] + [token] == [token];
  }

  /** In a complete list the ids are the positions, and each database address stands once,
      behind the kept ones. */
  lemma DatabaseOnce(f: Filter, tokens: seq<string>, list: seq<Entry>, d: string)
    requires ValidFilter(f) && Complete(list, Kept(f, tokens), f.db) && d in f.db
    ensures forall i :: 0 <= i < |list| ==> list[i].id == i
    ensures exists i :: |Kept(f, tokens)| <= i < |list| && list[i].ipv4 == d &&
                        forall j :: 0 <= j < |list| && list[j].ipv4 == d ==> j == i
  {
    KeptIff(f, tokens, d);
    OnceBehind(Kept(f, tokens), f.db, list, d);
  }

  lemma OnceBehind(kept: seq<string>, db: set<string>, list: seq<Entry>, d: string)
    requires Complete(list, kept, db) && d in db && d !in kept
    ensures forall i :: 0 <= i < |list| ==> list[i].id == i
    ensures exists i :: |kept| <= i < |list| && list[i].ipv4 == d &&
                        forall j :: 0 <= j < |list| && list[j].ipv4 == d ==> j == i
  {
    var names :| Enumerates(names, db) && list == Numbered(kept + names, 0);
    var n :| 0 <= n < |names| && names[n] == d;
    var i := |kept| + n;
    assert forall j :: 0 <= j < |kept| ==> list[j].ipv4 == kept[j] && kept[j] in kept;
    assert forall j :: 0 <= j < |names| ==> list[|kept| + j].ipv4 == names[j];
    forall j | 0 <= j < |list| && list[j].ipv4 == d
      ensures j == i
    {
      assert names[j - |kept|] == d;
    }
    assert list[i].ipv4 == d;
  }

  /** A rebuild from a buffer no writer touched since the last one gives the previous list
      again, whatever the filter is by then. */
  lemma StaleBuffer(f: Filter, f': Filter, tokens: seq<string>, prev: seq<Entry>, list: seq<Entry>, list': seq<Entry>)
    requires ValidFilter(f) && ValidFilter(f')
    requires Rebuilt(list, f, tokens, prev) && Rebuilt(list', f', FirstOf(tokens), list)
    ensures list' == list
  {
    FlattenShort(KeptEach(f', FirstOf(tokens)));
  }

  lemma {:induction false} FlattenShort(parts: seq<seq<string>>)
    requires forall k :: 0 <= k < |parts| ==> |parts[k]| <= 1
    ensures |Flatten(parts)| <= |parts|
  {
    if parts != [] {
      FlattenShort(parts[..|parts| - 1]);
    }
  }
}
