/**
 The tokens of a text: what `strtok` finds between colons.
 */
module Tokens {
  import opened Dotted
  import opened DstList

  predicate Colons(s: string) { forall i :: 0 <= i < |s| ==> s[i] == ':' }

  /** The texts `ps` with `gaps` before, between and behind them. */
  function Spread(ps: seq<string>, gaps: seq<string>): string
    requires |gaps| == |ps| + 1
  {
    if ps == [] then gaps[0] else gaps[0] + (ps[0] + Spread(ps[1..], gaps[1..]))
  }

  /** Words without a colon, and colons around them: at least one between two of them. */
  ghost predicate Separated(ps: seq<string>, gaps: seq<string>) {
    && |gaps| == |ps| + 1
    && (forall i :: 0 <= i < |ps| ==> ps[i] != "" && ':' !in ps[i])
    && (forall i :: 0 <= i < |gaps| ==> Colons(gaps[i]))
    && (forall i :: 0 < i < |ps| ==> gaps[i] != "")
  }

  lemma FirstWord(gap: string, word: string, rest: string)
    requires Colons(gap) && word != "" && ':' !in word && (rest != "" ==> rest[0] == ':')
    ensures Pieces(gap + (word + rest)) == [word] + Pieces(rest)
  {
    var u := word + rest;
    SkipColons(gap, u);
    assert u[0] == word[0] && word[0] in word;
    assert Skip(gap + u) == u;
    if rest == "" {
      assert u == word;
      FindFirst(word, ':', "");
    } else {
      assert u == word + [':'] + rest[1..];
      FindFirst(word, ':', rest[1..]);
    }
  }

  lemma SpreadStarts(ps: seq<string>, gaps: seq<string>)
    requires |gaps| == |ps| + 1 && Colons(gaps[0]) && (ps != [] ==> gaps[0] != "")
    ensures Spread(ps, gaps) != "" ==> Spread(ps, gaps)[0] == ':'
  {
  }

  lemma SeparatedRest(ps: seq<string>, gaps: seq<string>)
    requires Separated(ps, gaps) && ps != []
    ensures Separated(ps[1..], gaps[1..]) && Colons(gaps[0]) && ps[0] != "" && ':' !in ps[0]
    ensures ps[1..] != [] ==> gaps[1..][0] != ""
  {
  }

  /** Separated words are the tokens of the text they make. */
  lemma {:induction false} PiecesOfSpread(ps: seq<string>, gaps: seq<string>)
    requires Separated(ps, gaps)
    ensures Pieces(Spread(ps, gaps)) == ps
  {
    if ps == [] {
      SkipColons(gaps[0], "");
      assert gaps[0] + "" == gaps[0];
    } else {
      SeparatedRest(ps, gaps);
      PiecesOfSpread(ps[1..], gaps[1..]);
      SpreadStarts(ps[1..], gaps[1..]);
      FirstWord(gaps[0], ps[0], Spread(ps[1..], gaps[1..]));
      assert ps == [ps[0]] + ps[1..];
    }
  }

  lemma {:induction false} SkipSplits(t: string) returns (gap: string)
    ensures Colons(gap) && t == gap + Skip(t)
  {
    if t != "" && t[0] == ':' {
      var rest := SkipSplits(t[1..]);
      gap := [':'] + rest;
      assert gap + Skip(t[1..]) == [':'] + (rest + Skip(t[1..]));
    } else {
      gap := "";
    }
  }

  lemma SpreadCons(p: string, ps: seq<string>, gap: string, gaps: seq<string>)
    requires |gaps| == |ps| + 1
    ensures Spread([p] + ps, [gap] + gaps) == gap + (p + Spread(ps, gaps))
  {
    assert ([p] + ps)[1..] == ps && ([gap] + gaps)[1..] == gaps;
  }

  lemma SpreadColon(ps: seq<string>, gaps: seq<string>)
    requires |gaps| == |ps| + 1
    ensures Spread(ps, [[':'] + gaps[0]] + gaps[1..]) == [':'] + Spread(ps, gaps)
  {
    var gaps' := [[':'] + gaps[0]] + gaps[1..];
    if ps != [] {
      assert gaps'[1..] == gaps[1..];
      var tail := ps[0] + Spread(ps[1..], gaps[1..]);
      assert ([':'] + gaps[0]) + tail == [':'] + (gaps[0] + tail);
    }
  }

  lemma WordOf(u: string)
    requires u != "" && u[0] != ':'
    ensures Word(u) != "" && ':' !in Word(u)
  {
    assert Find(u, ':') != 0;
  }

  lemma Regroup(u: string, word: string, c: char, rest: string)
    requires u == word + [c] + rest
    ensures u == word + ([c] + rest)
  {
  }

  lemma WordAndRest(u: string, i: nat)
    requires i == Find(u, ':')
    ensures u == Word(u) + if i < |u| then [':'] + Rest(u) else ""
  {
    if i < |u| {
      SplitsAt(u, i, ':');
      Regroup(u, u[..i], ':', u[i + 1..]);
    } else {
      assert u[..i] + "" == u;
    }
  }

  /** One more word in front: at the end of the text, or before a colon. */
  lemma Prepend(gap: string, word: string, ps: seq<string>, gaps: seq<string>, colon: bool)
    returns (gaps': seq<string>)
    requires Separated(ps, gaps) && Colons(gap) && word != "" && ':' !in word && (!colon ==> ps == [])
    ensures Separated([word] + ps, gaps')
    ensures Spread([word] + ps, gaps') == gap + (word + ((if colon then [':'] else "") + Spread(ps, gaps)))
  {
    var tail := gaps;
    if colon {
      SpreadColon(ps, gaps);
      tail := [[':'] + gaps[0]] + gaps[1..];
    } else {
      assert "" + Spread(ps, gaps) == Spread(ps, gaps);
    }
    SpreadCons(word, ps, gap, tail);
    gaps' := [gap] + tail;
  }

  lemma PiecesCons(t: string)
    requires Skip(t) != ""
    ensures Pieces(t) == [Word(Skip(t))] + Pieces(Rest(Skip(t)))
    ensures |Rest(Skip(t))| < |t|
    ensures Find(Skip(t), ':') >= |Skip(t)| ==> Pieces(Rest(Skip(t))) == []
  {
    SkipShorter(t);
  }

  lemma Assemble(t: string, gap: string, u: string, word: string, rest: string, colon: bool)
    requires t == gap + u && u == word + (if colon then [':'] + rest else "") && (!colon ==> rest == "")
    ensures t == gap + (word + ((if colon then [':'] else "") + rest))
  {
  }

  /** Every text is its tokens with colons around them. */
  lemma {:induction false} SpreadOfPieces(t: string) returns (gaps: seq<string>)
    ensures Separated(Pieces(t), gaps) && Spread(Pieces(t), gaps) == t
    decreases |t|
  {
    var u := Skip(t);
    var gap := SkipSplits(t);
    if u == "" {
      gaps := [t];
    } else {
      SkipShorter(t);
      WordOf(u);
      WordAndRest(u, Find(u, ':'));
      PiecesCons(t);
      var colon := Find(u, ':') < |u|;
      gaps := SpreadOfPieces(Rest(u));
      Assemble(t, gap, u, Word(u), Rest(u), colon);
      gaps := Prepend(gap, Word(u), Pieces(Rest(u)), gaps, colon);
    }
  }
}
