/**
 The round engine in place: the tables as fields that the methods of a round update,
 each proved to do what its function in module `Phases` says.
 */
module Engine {
  import opened Tables
  import opened Stats
  import opened Selection
  import opened Filing
  import opened Phases
  import opened Runs
  import opened RibAgreement

  // ----- helpers for the loops -----

  /** Some order to iterate the keys of a table in. */
  method KeyOrder(s: set<Dst>) returns (ks: seq<Dst>)
    ensures Enumerates(ks, s)
  {
    ks := [];
    var todo := s;
    while todo != {}
      invariant todo <= s
      invariant Enumerates(ks, s - todo)
      decreases |todo|
    {
      var d :| d in todo;
      ks, todo := ks + [d], todo - {d};
    }
  }

  lemma EachNext(ks: seq<Dst>, i: nat)
    requires i < |ks| && forall a, b :: 0 <= a < b < |ks| ==> ks[a] != ks[b]
    ensures Visited(ks, i + 1) == Visited(ks, i) + {ks[i]} && ks[i] !in Visited(ks, i)
  {
    assert ks[..i + 1] == ks[..i] + [ks[i]];
  }

  lemma EachAll(ks: seq<Dst>, s: set<Dst>)
    requires Enumerates(ks, s)
    ensures Visited(ks, 0) == {} && Visited(ks, |ks|) == s
  {
    assert ks[..|ks|] == ks;
  }

  ghost function Restrict<V>(es: map<Dst, V>, ds: set<Dst>): map<Dst, V> {
    map d | d in es && d in ds :: es[d]
  }

  lemma RestrictNext<V>(es: map<Dst, V>, ds: set<Dst>, d: Dst)
    ensures d in es ==> Restrict(es, ds + {d}) == Restrict(es, ds)[d := es[d]]
    ensures d !in es ==> Restrict(es, ds + {d}) == Restrict(es, ds)
    ensures d !in ds ==> d !in Restrict(es, ds)
  {
  }

  lemma RestrictAll<V>(es: map<Dst, V>, ds: set<Dst>)
    requires es.Keys <= ds
    ensures Restrict(es, ds) == es && Restrict(es, {}) == map[]
  {
  }

  /** Adding one more entry is one assignment to the table. */
  lemma ExtendedPut<V>(m: map<Dst, map<int, V>>, p: int, es: map<Dst, V>, d: Dst, v: V)
    requires d !in es
    ensures Extended(m, p, es[d := v]) == Extended(m, p, es)[d := GetOrEmpty(m, d)[p := v]]
  {
    var es' := es[d := v];
    var a, b := Extended(m, p, es'), Extended(m, p, es)[d := GetOrEmpty(m, d)[p := v]];
    assert a.Keys == b.Keys;
    forall k | k in a
      ensures a[k] == b[k]
    {
      assert k != d ==> (k in es' <==> k in es);
    }
  }

  lemma ExtendedElsewhere<V>(m: map<Dst, map<int, V>>, p: int, es: map<Dst, V>, d: Dst)
    requires d !in es
    ensures GetOrEmpty(Extended(m, p, es), d) == GetOrEmpty(m, d)
    ensures d in Extended(m, p, es) <==> d in m
  {
  }

  /** The statistics of one peer are stored beside its replies. */
  method AggregatePeer(m: Seqs, pingReq: int) returns (m': Seqs)
    requires m != map[]
    ensures m' == WithStats(m, pingReq)
  {
    var order := SortedKeys(m.Keys);
    assert order != [] by {
      var k :| k in m;
      assert k in order;
    }
    var t := Aggregate(m, order, pingReq);
    m' := m[STATS := t];
  }

  /** Statistics for every peer of one destination and round, in peer order. */
  method AggregateAll(ps: Peers, pingReq: int) returns (out: Peers)
    requires forall q :: q in ps ==> ps[q] != map[]
    ensures out == AggregatePeers(ps, pingReq)
  {
    var ks := SortedKeys(ps.Keys);
    out := map[];
    for i := 0 to |ks|
      invariant out == AggregatePeers(Front(ps, ks, i), pingReq)
    {
      var m := AggregatePeer(ps[ks[i]], pingReq);
      FrontNext(ps, ks, i, pingReq);
      out := out[ks[i] := m];
    }
    FrontAll(ps, ks);
  }

  /** The peers the loop has visited. */
  ghost function Front(ps: Peers, ks: seq<nat>, i: nat): Peers
    requires i <= |ks|
  {
    map q | q in ps && q in ks[..i] :: ps[q]
  }

  lemma FrontNext(ps: Peers, ks: seq<nat>, i: nat, pingReq: int)
    requires i < |ks| && ks[i] in ps
    ensures AggregatePeers(Front(ps, ks, i + 1), pingReq) ==
            AggregatePeers(Front(ps, ks, i), pingReq)[ks[i] := WithStats(ps[ks[i]], pingReq)]
  {
    FrontGrows(ps, ks, i);
    AggregateGrows(Front(ps, ks, i), ks[i], ps[ks[i]], pingReq);
  }

  lemma FrontGrows(ps: Peers, ks: seq<nat>, i: nat)
    requires i < |ks| && ks[i] in ps
    ensures Front(ps, ks, i + 1) == Front(ps, ks, i)[ks[i] := ps[ks[i]]]
  {
    assert ks[..i + 1] == ks[..i] + [ks[i]];
  }

  lemma AggregateGrows(ps: Peers, k: nat, m: Seqs, pingReq: int)
    ensures AggregatePeers(ps[k := m], pingReq) == AggregatePeers(ps, pingReq)[k := WithStats(m, pingReq)]
  {
  }

  lemma FrontAll(ps: Peers, ks: seq<nat>)
    requires forall q :: q in ps ==> q in ks
    ensures Front(ps, ks, |ks|) == ps
  {
    assert ks[..|ks|] == ks;
  }

  /** The rounds still to erase, and the ones erased before them. */
  ghost predicate Split(all: set<int>, erased: set<int>, todo: set<int>) {
    && erased + todo == all
    && forall x, y :: x in erased && y in todo ==> x < y
  }

  lemma SplitNext(all: set<int>, erased: set<int>, todo: set<int>)
    requires Split(all, erased, todo) && todo != {}
    ensures var q := MinKey(todo);
      && Split(all, erased + {q}, todo - {q})
      && MaxKey(erased + {q}) == q
  {
  }

  /** Erases the rounds of one destination in order, the routing entries of the same
      rounds with them; `probe` is the loop's round variable. */
  method EraseRounds(rounds0: Probes, entries0: Entries, probe0: int, keepRound: bool)
    returns (rounds: Probes, entries: Entries, probe: int)
    ensures rounds == map[] && entries == entries0 - rounds0.Keys
    ensures probe == if keepRound || rounds0.Keys == {} then probe0 else MaxKey(rounds0.Keys)
  {
    rounds, entries, probe := rounds0, entries0, probe0;
    ghost var erased: set<int> := {};
    while rounds.Keys != {}
      invariant Split(rounds0.Keys, erased, rounds.Keys)
      invariant entries == entries0 - erased
      invariant probe == if keepRound || erased == {} then probe0 else MaxKey(erased)
      decreases |rounds.Keys|
    {
      var q := MinKey(rounds.Keys);
      SplitNext(rounds0.Keys, erased, rounds.Keys);
      if !keepRound {
        probe := q;
      }
      entries := EraseKey(entries, entries0, erased, q);
      rounds := ForgetRound(rounds, q);
      erased := erased + {q};
    }
    assert erased == rounds0.Keys;
  }

  function EraseKey(entries: Entries, ghost entries0: Entries, ghost erased: set<int>, q: int): (e: Entries)
    requires entries == entries0 - erased
    ensures e == entries0 - (erased + {q})
  {
    entries - {q}
  }

  function ForgetRound(rounds: Probes, q: int): (r: Probes)
    ensures r.Keys == rounds.Keys - {q}
  {
    rounds - {q}
  }

  /** The loop has handled the first `i` destinations; what it still does to the routes
      makes them `goal`. */
  ghost predicate UpTo(order: seq<Dst>, i: nat, dsts: set<Dst>, probe: int, keepRound: bool, r0: RTable,
                       route0: RouteTable, r: RTable, route: RouteTable, rib: Rib, goal: Rib)
    requires i <= |order|
  {
    && r == r0 - (Visited(order, i) - dsts) && route == route0 - (Visited(order, i) - dsts)
    && UpdateRib(r0, route0, rib, dsts, order[i..], probe, keepRound) == goal
  }

  lemma VisitedGone(order: seq<Dst>, i: nat, dsts: set<Dst>)
    requires i < |order| && forall a, b :: 0 <= a < b < |order| ==> order[a] != order[b]
    ensures var d, gone := order[i], Visited(order, i) - dsts;
      && d !in gone
      && Visited(order, i + 1) - dsts == if d in dsts then gone else gone + {d}
  {
    EachNext(order, i);
  }

  lemma UpToNext(order: seq<Dst>, i: nat, dsts: set<Dst>, probe: int, keepRound: bool, r0: RTable,
                 route0: RouteTable, r: RTable, route: RouteTable, rib: Rib, goal: Rib)
    requires i < |order| && Enumerates(order, r0.Keys)
    requires UpTo(order, i, dsts, probe, keepRound, r0, route0, r, route, rib, goal)
    ensures order[i] in r
    ensures var d := order[i];
      if d in dsts then UpTo(order, i + 1, dsts, probe, keepRound, r0, route0, r, route, rib, goal)
      else
        UpTo(order, i + 1, dsts, CarriedProbe(r, probe, d, keepRound), keepRound, r0, route0, r - {d}, route - {d},
             if WithdrawTest(route, probe, d) then rib - {d} else rib, goal)
  {
    var d, gone := order[i], Visited(order, i) - dsts;
    VisitedGone(order, i, dsts);
    UpdateRibNext(r0, route0, rib, dsts, order, i, probe, keepRound);
    MinusNext(r0, gone, d);
    MinusNext(route0, gone, d);
  }

  lemma MinusNext<V>(m: map<Dst, V>, gone: set<Dst>, d: Dst)
    ensures m - gone - {d} == m - (gone + {d})
    ensures d !in gone ==> (d in m - gone <==> d in m) && (d in m ==> (m - gone)[d] == m[d])
  {
  }

  lemma UpdateRibNext(r: RTable, route: RouteTable, rib: Rib, dsts: set<Dst>, order: seq<Dst>, i: nat,
                      probe: int, keepRound: bool)
    requires i < |order|
    ensures var d := order[i];
      var rib' := if d !in dsts && WithdrawTest(route, probe, d) then rib - {d} else rib;
      var probe' := if d in dsts then probe else CarriedProbe(r, probe, d, keepRound);
      UpdateRib(r, route, rib, dsts, order[i..], probe, keepRound) ==
      UpdateRib(r, route, rib', dsts, order[i + 1..], probe', keepRound)
  {
    assert order[i..][1..] == order[i + 1..];
  }

  /** The entry table with one more entry, or as it was. */
  function WithEntry(route: RouteTable, d: Dst, p: int, e: Option<RtParm>): RouteTable {
    match e
    case None => route
    case Some(x) => route[d := GetOrEmpty(route, d)[p := x]]
  }

  function EntryFor(es: map<Dst, RtParm>, d: Dst): Option<RtParm> { if d in es then Some(es[d]) else None }

  lemma EntryLookup(s: State, p: nat, cfg: Config, d: Dst)
    requires d in s.r
    ensures EntryFor(NewEntries(s, p, cfg), d) == EntryOf(p, cfg, PrevEntry(s.route, d, p), GetOrEmpty(s.r[d], p))
    ensures d in NewLogs(s, p, cfg) && NewLogs(s, p, cfg)[d] == LogOf(p, cfg, GetOrEmpty(s.r[d], p))
  {
  }

  /** One more destination recorded in the routing table. */
  lemma EntryNext(route: RouteTable, p: int, es: map<Dst, RtParm>, ds: set<Dst>, d: Dst)
    requires d !in ds
    ensures var a := Extended(route, p, Restrict(es, ds));
      && Extended(route, p, Restrict(es, ds + {d})) == WithEntry(a, d, p, EntryFor(es, d))
      && PrevEntry(a, d, p) == PrevEntry(route, d, p)
  {
    RestrictNext(es, ds, d);
    ExtendedElsewhere(route, p, Restrict(es, ds), d);
    if d in es {
      ExtendedPut(route, p, Restrict(es, ds), d, es[d]);
    }
  }

  lemma LogNext(log: LogTable, p: int, ls: map<Dst, Tlog>, ds: set<Dst>, d: Dst)
    requires d !in ds && d in ls
    ensures var a := Extended(log, p, Restrict(ls, ds));
      Extended(log, p, Restrict(ls, ds + {d})) == a[d := GetOrEmpty(a, d)[p := ls[d]]]
  {
    RestrictNext(ls, ds, d);
    ExtendedElsewhere(log, p, Restrict(ls, ds), d);
    ExtendedPut(log, p, Restrict(ls, ds), d, ls[d]);
  }

  lemma ExtendedNone<V>(m: map<Dst, map<int, V>>, p: int)
    ensures Extended(m, p, map[]) == m
  {
  }

  /** The move-or-stay decision, step by step. */
  method DecideEntry(cfg: Config, prev: RtParm, peer: nat, minRtt: real) returns (e: RtParm)
    ensures e == Decide(cfg, Some(prev), peer, minRtt)
  {
    if peer == 0 {
      e := RtParm(prev.currPeer, prev.currMetric, prev.currPeer, minRtt);
    } else {
      var fmove := false;
      if cfg.leastMove {
        var mul := cfg.leastThresh as real / 100.0;
        var delta0 := minRtt * mul;
        var delta1 := prev.currMetric - delta0;
        fmove := delta1 > minRtt;
      }
      if cfg.leastMove && !fmove {
        e := RtParm(prev.currPeer, prev.currMetric, prev.currPeer, prev.currMetric);
      } else {
        e := RtParm(prev.currPeer, prev.currMetric, peer, minRtt);
      }
    }
  }

  /** The statistics the log shows for the chosen peer, and the metric recorded with it. */
  method ReadChosen(kind: PathMetric, ps: Peers, peer: nat, minRtt0: real) returns (minRtt: real, log: Tlog)
    requires peer != 0 ==> peer in ps && STATS in ps[peer]
    ensures minRtt == if peer == 0 then 0.0 else if kind == OtherMetric then minRtt0 else MetricOf(kind, ps[peer])
    ensures log == if peer == 0 then Tlog(0, minRtt, 0.0, 0.0, 0.0, 0, 0)
                   else var t := StatsOf(ps[peer]);
                        Tlog(peer, minRtt, t.avgRtt, t.minRtt, t.maxRtt, t.lost, t.timestamp)
  {
    minRtt := minRtt0;
    if peer != 0 {
      var t := ps[peer][STATS];
      if kind == Metric0 {
        minRtt := t.avgRtt;
      } else if kind == Metric1 {
        minRtt := t.metric1;
      }
      log := Tlog(peer, minRtt, t.avgRtt, t.minRtt, t.maxRtt, t.lost, t.timestamp);
    } else {
      minRtt := 0.0;
      log := Tlog(0, minRtt, 0.0, 0.0, 0.0, 0, 0);
    }
  }

  /** After aggregation every peer of the round has its statistics. */
  lemma AllHaveStats(s: State, p: nat, pingReq: int)
    ensures var r := Aggregated(s, p, pingReq).r;
      forall d, q :: d in r && q in GetOrEmpty(r[d], p) ==> STATS in r[d][p][q]
  {
  }

  lemma ScanPresent(s: State, p: nat, cfg: Config)
    requires Shape(s, p) && (p == 0 ==> s.route == map[])
    ensures var f := Freed(Scanned(s, p, cfg), p);
      && (forall d :: d in f.route ==> p in f.route[d])
      && f.route.Keys <= f.r.Keys
  {
    NewEntriesKeys(s, p, cfg);
    ScannedShape(s, p, cfg);
    RecordedPresent(s, p, NewEntries(s, p, cfg), NewLogs(s, p, cfg));
    FreedKeys(Scanned(s, p, cfg), p);
  }

  /** The destinations of `ds` have their row of `target`, the others that of `r0`. */
  ghost predicate HalfDone(r0: RTable, r: RTable, target: RTable, ds: set<Dst>) {
    && r.Keys == r0.Keys == target.Keys
    && forall d :: d in r ==> r[d] == if d in ds then target[d] else r0[d]
  }

  lemma HalfDoneNext(r0: RTable, r: RTable, target: RTable, ds: set<Dst>, d: Dst, row: Probes)
    requires HalfDone(r0, r, target, ds) && d in r && row == target[d]
    ensures HalfDone(r0, r[d := row], target, ds + {d})
  {
  }

  lemma HalfDoneAll(r0: RTable, r: RTable, target: RTable)
    requires HalfDone(r0, r, target, r0.Keys)
    ensures r == target
  {
  }

  /** Round `q` left empty for the destinations `ds`. */
  ghost function ClearedPart(r: RTable, q: int, ds: set<Dst>): (r': RTable)
    ensures r'.Keys == r.Keys
  {
    map d | d in r :: if d in ds then r[d][q := map[]] else r[d]
  }

  lemma ClearedNext(r: RTable, q: int, ds: set<Dst>, d: Dst)
    requires d !in ds && d in r
    ensures var a := ClearedPart(r, q, ds); ClearedPart(r, q, ds + {d}) == a[d := a[d][q := map[]]]
  {
  }

  lemma ClearedEnds(r: RTable, q: int)
    ensures ClearedPart(r, q, {}) == r && ClearedPart(r, q, r.Keys) == Cleared(r, q)
  {
  }

  lemma PrunedNext(route: RouteTable, q: int, ds: set<Dst>, d: Dst)
    requires d !in ds
    ensures var a := Pruned(route, q, ds);
      Pruned(route, q, ds + {d}) == a[d := GetOrEmpty(a, d) - {q}]
  {
    var a, b := Pruned(route, q, ds), Pruned(route, q, ds + {d});
    assert GetOrEmpty(a, d) == GetOrEmpty(route, d);
    forall k | k in b && k != d ensures k in a && b[k] == a[k] {
    }
  }

  lemma PrunedNone(route: RouteTable, q: int)
    ensures Pruned(route, q, {}) == route
  {
  }

  lemma WithoutNext(s: State, all: set<Dst>, ds: set<Dst>, d: Dst)
    requires d !in ds
    ensures Without(s, all * (ds + {d})) ==
            if d in all then Without(Without(s, all * ds), {d}) else Without(s, all * ds)
    ensures d in Without(s, all * ds).route <==> d in s.route
    ensures d in s.route ==> Without(s, all * ds).route[d] == s.route[d]
  {
    var gone := all * ds;
    assert all * (ds + {d}) == if d in all then gone + {d} else gone;
    MinusNext(s.r, gone, d);
    MinusNext(s.route, gone, d);
    MinusNext(s.rib, gone, d);
  }

  // ----- the engine -----

  class Pfrd {
    var r: RTable
    var route: RouteTable
    var routeLog: LogTable
    var rib: Rib
    var minRtt: real
    var newCnt: nat

    ghost function Now(): State
      reads this
    {
      State(r, route, routeLog, rib)
    }

    constructor ()
      ensures Now() == EMPTY_STATE && minRtt == CEILING && newCnt == 0
    {
      r, route, routeLog, rib := map[], map[], map[], map[];
      minRtt, newCnt := CEILING, 0;
    }

    /** Files one reply; the counter follows the records stored. */
    method ProcV4(x: Reply)
      modifies this`r, this`newCnt
      ensures r == Filed(old(r), x)
      ensures newCnt - old(newCnt) == |Slots(r)| - |Slots(old(r))|
    {
      SlotsFiled(r, x);
      var probes := GetOrEmpty(r, x.src);
      var peers := GetOrEmpty(probes, x.probe);
      var seqs := GetOrEmpty(peers, x.peer);
      if x.sequence !in seqs {
        r := r[x.src := probes[x.probe := peers[x.peer := seqs[x.sequence := RecordOf(x)]]]];
        newCnt := newCnt + 1;
        assert Lookup(old(r), SlotOf(x)) == None;
        SlotsLookup(old(r), SlotOf(x));
      }
    }

    /** The receive loop over the replies of one round. */
    method Receive(xs: seq<Reply>)
      modifies this`r, this`newCnt
      ensures r == FiledAll(old(r), xs)
      ensures newCnt - old(newCnt) == |Slots(r)| - |Slots(old(r))|
    {
      for i := 0 to |xs|
        invariant r == FiledAll(old(r), xs[..i])
        invariant newCnt - old(newCnt) == |Slots(r)| - |Slots(old(r))|
      {
        assert xs[..i + 1][..i] == xs[..i];
        ProcV4(xs[i]);
      }
      assert xs[..|xs|] == xs;
    }

    /** Withdraws the route of `d`, whatever peer it points at. */
    method DeleteRoute(d: Dst)
      modifies this`rib
      ensures rib == old(rib) - {d}
    {
      rib := rib - {d};
    }

    /** Drops the records of `d`; the round variable of the loop comes back. */
    method DropRounds(d: Dst, probe0: int, keepRound: bool) returns (probe: int)
      requires d in r
      modifies this`r, this`route
      ensures r == old(r) - {d} && route == old(route) - {d}
      ensures probe == CarriedProbe(old(r), probe0, d, keepRound)
    {
      var rounds, entries;
      rounds, entries, probe := EraseRounds(r[d], GetOrEmpty(route, d), probe0, keepRound);
      r := r[d := rounds];
      route := route[d := entries];
      r := r - {d};
      route := route - {d};
    }

    /** One step of the vanished-destination loop. */
    method CheckListed(d: Dst, dsts: set<Dst>, probe0: int, keepRound: bool) returns (probe: int)
      requires d in r
      modifies this`r, this`route, this`rib
      ensures r == (if d in dsts then old(r) else old(r) - {d})
      ensures route == (if d in dsts then old(route) else old(route) - {d})
      ensures rib == (if d !in dsts && WithdrawTest(old(route), probe0, d) then old(rib) - {d} else old(rib))
      ensures probe == if d in dsts then probe0 else CarriedProbe(old(r), probe0, d, keepRound)
    {
      probe := probe0;
      if d !in dsts {
        if d in route && probe - 1 in route[d] && route[d][probe - 1].currPeer > 0 {
          DeleteRoute(d);
        }
        probe := DropRounds(d, probe, keepRound);
      }
    }

    /** The loop is at position `i`. */
    ghost predicate UpdatedUpTo(order: seq<Dst>, i: nat, dsts: set<Dst>, probe: int, keepRound: bool,
                                r0: RTable, route0: RouteTable, goal: Rib)
      requires i <= |order|
      reads this
    {
      UpTo(order, i, dsts, probe, keepRound, r0, route0, r, route, rib, goal)
    }

    method CheckNext(order: seq<Dst>, i: nat, dsts: set<Dst>, probe0: int, keepRound: bool,
                     ghost r0: RTable, ghost route0: RouteTable, ghost goal: Rib)
      returns (probe: int)
      requires i < |order| && Enumerates(order, r0.Keys)
      requires UpdatedUpTo(order, i, dsts, probe0, keepRound, r0, route0, goal)
      modifies this`r, this`route, this`rib
      ensures UpdatedUpTo(order, i + 1, dsts, probe, keepRound, r0, route0, goal)
    {
      UpToNext(order, i, dsts, probe0, keepRound, r0, route0, r, route, rib, goal);
      probe := CheckListed(order[i], dsts, probe0, keepRound);
    }

    /** Drops the destinations that left the list. */
    method RouteUpdate(p: int, dsts: set<Dst>, order: seq<Dst>, keepRound: bool)
      requires Enumerates(order, r.Keys)
      modifies this`r, this`route, this`rib
      ensures Now() == Updated(old(Now()), p, dsts, order, keepRound)
    {
      var probe := p;
      EachAll(order, r.Keys);
      ghost var r0, route0, goal := r, route, UpdateRib(r, route, rib, dsts, order, p, keepRound);
      assert order[0..] == order;
      for i := 0 to |order|
        invariant UpdatedUpTo(order, i, dsts, probe, keepRound, r0, route0, goal)
      {
        probe := CheckNext(order, i, dsts, probe, keepRound, r0, route0, goal);
      }
    }

    /** Aggregates round `p` of every destination. */
    method CalcAvgRtt(p: int, pingReq: int)
      requires NoEmptyPeer(r)
      modifies this`r
      ensures Now() == Aggregated(old(Now()), p, pingReq)
    {
      ghost var r0, target := r, Aggregated(Now(), p, pingReq).r;
      var ks := KeyOrder(r.Keys);
      EachAll(ks, r.Keys);
      for i := 0 to |ks|
        invariant HalfDone(r0, r, target, Visited(ks, i))
      {
        var d := ks[i];
        EachNext(ks, i);
        var ps := AggregateAll(GetOrEmpty(r[d], p), pingReq);
        HalfDoneNext(r0, r, target, Visited(ks, i), d, r[d][p := ps]);
        r := r[d := r[d][p := ps]];
      }
      HalfDoneAll(r0, r, target);
    }

    /** Round 0: the first peer that answered is taken as it is. */
    method TakeFirst(d: Dst, p: nat, cfg: Config, ps: Peers) returns (peer: nat)
      requires p == 0 && minRtt == CEILING
      requires forall q :: q in ps ==> STATS in ps[q]
      modifies this`route, this`minRtt
      ensures peer == Chosen(0, cfg.metric, ps)
      ensures peer != 0 ==> peer in ps && (cfg.metric == OtherMetric ==> minRtt == CEILING)
      ensures route == WithEntry(old(route), d, p, EntryOf(0, cfg, None, ps))
    {
      peer := 0;
      if ps != map[] {
        assert exists k :: k in ps.Keys;
        var q := SortedKeys(ps.Keys)[0];
        assert q in ps.Keys;
        if cfg.metric == Metric0 {
          minRtt := ps[q][STATS].avgRtt;
        } else if cfg.metric == Metric1 {
          minRtt := ps[q][STATS].metric1;
        }
        route := route[d := GetOrEmpty(route, d)[p := RtParm(0, minRtt, q, minRtt)]];
        peer := q;
      }
    }

    /** The measurements of one destination: peer, metric and log record. */
    method MeasureDestination(d: Dst, p: nat, cfg: Config, ps: Peers, currRtt0: real, peer0: nat)
      returns (peer: nat, best: real, log: Tlog)
      requires minRtt == CEILING && currRtt0 == 0.0 && peer0 == 0
      requires forall q :: q in ps ==> STATS in ps[q]
      modifies this`route, this`minRtt
      ensures peer == Chosen(p, cfg.metric, ps) && best == ChosenMetric(p, cfg.metric, ps)
      ensures log == LogOf(p, cfg, ps)
      ensures route == if p == 0 then WithEntry(old(route), d, p, EntryOf(0, cfg, None, ps)) else old(route)
    {
      var currRtt;
      if p == 0 {
        peer := TakeFirst(d, p, cfg, ps);
        best := minRtt;
      } else {
        best, currRtt, peer := ScanPeers(cfg.metric, ps, minRtt, currRtt0, peer0);
      }
      best, log := ReadChosen(cfg.metric, ps, peer, best);
    }

    /** The entry of a later round, from the entry of the round before if there is one. */
    method DecideDestination(d: Dst, p: nat, cfg: Config, peer: nat, m: real)
      modifies this`route
      ensures route == WithEntry(old(route), d, p, Some(Decide(cfg, PrevEntry(old(route), d, p), peer, m)))
    {
      var e: RtParm;
      if d in route && p - 1 in route[d] {
        e := DecideEntry(cfg, route[d][p - 1], peer, m);
      } else {
        e := RtParm(0, m, peer, m);
      }
      route := route[d := GetOrEmpty(route, d)[p := e]];
    }

    /** The scan of one destination. The scratch variables come in reset and go out
        reset. */
    method ScanDestination(d: Dst, p: nat, cfg: Config, currRtt0: real, peer0: nat) returns (currRtt: real, peer: nat)
      requires d in r && minRtt == CEILING && currRtt0 == 0.0 && peer0 == 0
      requires forall q :: q in GetOrEmpty(r[d], p) ==> STATS in r[d][p][q]
      modifies this`r, this`route, this`routeLog, this`minRtt
      ensures minRtt == CEILING && currRtt == 0.0 && peer == 0
      ensures var ps := GetOrEmpty(old(r)[d], p);
        && r == old(r)[d := old(r)[d][p := ps]]
        && route == WithEntry(old(route), d, p, EntryOf(p, cfg, PrevEntry(old(route), d, p), ps))
        && routeLog == old(routeLog)[d := GetOrEmpty(old(routeLog), d)[p := LogOf(p, cfg, ps)]]
    {
      var ps := GetOrEmpty(r[d], p);
      r := r[d := r[d][p := ps]];
      var log;
      peer, minRtt, log := MeasureDestination(d, p, cfg, ps, currRtt0, peer0);
      if p > 0 {
        DecideDestination(d, p, cfg, peer, minRtt);
      }
      routeLog := routeLog[d := GetOrEmpty(routeLog, d)[p := log]];
      minRtt, currRtt, peer := CEILING, 0.0, 0;
    }

    /** Chooses a peer for every destination. */
    method RouteScan(p: nat, cfg: Config)
      requires minRtt == CEILING
      requires forall d, q :: d in r && q in GetOrEmpty(r[d], p) ==> STATS in r[d][p][q]
      modifies this`r, this`route, this`routeLog, this`minRtt
      ensures Now() == Scanned(old(Now()), p, cfg) && minRtt == CEILING
    {
      ghost var es, ls := NewEntries(Now(), p, cfg), NewLogs(Now(), p, cfg);
      NewEntriesKeys(Now(), p, cfg);
      ScanAll(p, cfg, es, ls);
      assert Now() == Recorded(old(Now()), p, es, ls);
    }

    method ScanAll(p: nat, cfg: Config, ghost es: map<Dst, RtParm>, ghost ls: map<Dst, Tlog>)
      requires minRtt == CEILING
      requires forall d, q :: d in r && q in GetOrEmpty(r[d], p) ==> STATS in r[d][p][q]
      requires es == NewEntries(Now(), p, cfg) && ls == NewLogs(Now(), p, cfg)
      requires es.Keys <= r.Keys && ls.Keys == r.Keys
      modifies this`r, this`route, this`routeLog, this`minRtt
      ensures minRtt == CEILING
      ensures r == Touched(old(r), p)
      ensures route == Extended(old(route), p, es) && routeLog == Extended(old(routeLog), p, ls)
    {
      ghost var s0 := Now();
      var currRtt, peer := 0.0, 0;
      var ks := KeyOrder(r.Keys);
      EachAll(ks, r.Keys);
      RestrictAll(es, r.Keys);
      RestrictAll(ls, r.Keys);
      ExtendedNone(route, p);
      ExtendedNone(routeLog, p);
      for i := 0 to |ks|
        invariant minRtt == CEILING && currRtt == 0.0 && peer == 0
        invariant HalfDone(s0.r, r, Touched(s0.r, p), Visited(ks, i))
        invariant route == Extended(s0.route, p, Restrict(es, Visited(ks, i)))
        invariant routeLog == Extended(s0.log, p, Restrict(ls, Visited(ks, i)))
      {
        var d := ks[i];
        EachNext(ks, i);
        EntryLookup(s0, p, cfg, d);
        EntryNext(s0.route, p, es, Visited(ks, i), d);
        LogNext(s0.log, p, ls, Visited(ks, i), d);
        HalfDoneNext(s0.r, r, Touched(s0.r, p), Visited(ks, i), d, r[d][p := GetOrEmpty(r[d], p)]);
        currRtt, peer := ScanDestination(d, p, cfg, currRtt, peer);
      }
      HalfDoneAll(s0.r, r, Touched(s0.r, p));
    }

    /** Frees round `q` of one more destination. */
    method FreeRound(d: Dst, q: int, ghost r0: RTable, ghost route0: RouteTable, ghost ds: set<Dst>)
      requires r == ClearedPart(r0, q, ds) && route == Pruned(route0, q, ds)
      requires d in r && d !in ds
      modifies this`r, this`route
      ensures r == ClearedPart(r0, q, ds + {d})
      ensures route == Pruned(route0, q, ds + {d})
    {
      ClearedNext(r0, q, ds, d);
      PrunedNext(route0, q, ds, d);
      r := r[d := r[d][q := map[]]];
      route := route[d := GetOrEmpty(route, d) - {q}];
    }

    /** Frees round `q` of every destination. */
    method FreeRounds(q: int)
      modifies this`r, this`route
      ensures r == Cleared(old(r), q)
      ensures route == Pruned(old(route), q, old(r).Keys)
    {
      var ks := KeyOrder(r.Keys);
      EachAll(ks, r.Keys);
      ClearedEnds(r, q);
      PrunedNone(route, q);
      for i := 0 to |ks|
        invariant r == ClearedPart(old(r), q, Visited(ks, i))
        invariant route == Pruned(old(route), q, Visited(ks, i))
      {
        EachNext(ks, i);
        FreeRound(ks[i], q, old(r), old(route), Visited(ks, i));
      }
    }

    /** Frees the round two back of every destination. */
    method RouteFree(p: int)
      modifies this`r, this`route
      ensures Now() == Freed(old(Now()), p)
    {
      if p >= 2 {
        ghost var s0 := Now();
        FreeRounds(p - 2);
        assert Now() == State(Cleared(s0.r, p - 2), Pruned(s0.route, p - 2, s0.r.Keys), s0.log, s0.rib);
      }
    }

    /** Erases everything about `d` and withdraws it. */
    method DeleteRRoute(d: Dst)
      requires d in r
      modifies this`r, this`route, this`rib
      ensures Now() == Without(old(Now()), {d})
    {
      var probe := DropRounds(d, 0, false);
      DeleteRoute(d);
    }

    /** The scan of the log backwards from round `p`: no answer in `deepDelete` + 1 rounds. */
    method IsSilent(d: Dst, p: int, deepDelete: int) returns (deleteFlag: bool)
      requires d in routeLog
      ensures deleteFlag <==> !AnsweredWithin(routeLog[d], p - deepDelete, p)
    {
      deleteFlag := true;
      var i := 0;
      while i <= deepDelete
        invariant 0 <= i
        invariant forall q :: p - i < q <= p && q in routeLog[d] ==> routeLog[d][q].peer == 0
        invariant deleteFlag
        decreases deepDelete - i
      {
        if p - i in routeLog[d] {
          if routeLog[d][p - i].peer != 0 {
            assert p - deepDelete <= p - i <= p;
            deleteFlag := false;
            return;
          }
        }
        i := i + 1;
      }
    }

    /** Deletes the destinations without a recent answer. */
    method Delete(p: int, deepDelete: int)
      requires route.Keys <= r.Keys
      modifies this`r, this`route, this`rib
      ensures Now() == Deleted(old(Now()), p, deepDelete)
    {
      if p <= deepDelete {
        return;
      }
      ghost var s0, all := Now(), Silent(Now(), p, deepDelete);
      var ks := KeyOrder(routeLog.Keys);
      EachAll(ks, routeLog.Keys);
      for i := 0 to |ks|
        invariant Now() == Without(s0, all * Visited(ks, i))
      {
        var d := ks[i];
        EachNext(ks, i);
        WithoutNext(s0, all, Visited(ks, i), d);
        var deleteFlag := IsSilent(d, p, deepDelete);
        if deleteFlag && d in route && p in route[d] {
          DeleteRRoute(d);
        }
      }
      assert all * routeLog.Keys == all;
    }

    /** Deletes everything routed in round `p`. */
    method DeleteAll(p: int)
      requires route.Keys <= r.Keys
      modifies this`r, this`route, this`rib
      ensures Now() == DeletedAll(old(Now()), p)
    {
      ghost var s0 := Now();
      ghost var all := set d | d in s0.log && HasEntry(s0.route, d, p);
      var ks := KeyOrder(routeLog.Keys);
      EachAll(ks, routeLog.Keys);
      for i := 0 to |ks|
        invariant Now() == Without(s0, all * Visited(ks, i))
      {
        var d := ks[i];
        EachNext(ks, i);
        WithoutNext(s0, all, Visited(ks, i), d);
        if d in route && p in route[d] {
          DeleteRRoute(d);
        }
      }
      assert all * routeLog.Keys == all;
    }

    /** Announces the decision for one destination: an explicit withdraw first when
        configured, then the add. Nothing is announced in round 0, and no peer is
        configured under number 0. */
    method CreateRoute(d: Dst, p: int, prevPeer: nat, currPeer: nat, explicitWithdraw: bool)
      modifies this`rib
      ensures Have(rib, d) ==
              if p <= 0 then Have(old(rib), d)
              else if currPeer != 0 then Some(currPeer)
              else if p > 1 && prevPeer != 0 && explicitWithdraw then None
              else Have(old(rib), d)
      ensures forall k :: k != d ==> Have(rib, k) == Have(old(rib), k)
    {
      if p > 0 {
        if p > 1 && prevPeer != 0 {
          if explicitWithdraw {
            rib := rib - {d};
          }
        }
        if currPeer != 0 {
          rib := rib[d := currPeer];
        }
      }
    }

    /** Announces every routed destination, skipping unchanged ones when configured. */
    method RoutesMan(p: int, adv: Config)
      requires forall d :: d in route ==> p in route[d]
      modifies this`rib
      ensures Now() == Advertised(old(Now()), p, adv)
    {
      ghost var rib0 := rib;
      var ks := KeyOrder(route.Keys);
      EachAll(ks, route.Keys);
      for i := 0 to |ks|
        invariant forall k :: Have(rib, k) == RouteAfter(route, p, adv, rib0, Visited(ks, i), k)
      {
        var d := ks[i];
        EachNext(ks, i);
        var e := route[d][p];
        if !adv.advertiseSame {
          if e.prevPeer == e.currPeer && p > 1 {
            continue;
          }
        }
        CreateRoute(d, p, e.prevPeer, e.currPeer, adv.explicitWithdraw);
      }
      SameRoutes(rib, AnnouncedRib(route, p, adv, rib0, route.Keys));
    }

    /** One round after its replies are in: every phase in order, then shutdown or
        announcements. */
    method ProcessRound(p: nat, x: RoundInput)
      requires Shape(Now(), p) && Enumerates(x.order, r.Keys) && minRtt == CEILING
      requires p == 0 ==> route == map[]
      modifies this
      ensures minRtt == CEILING
      ensures var a := Aggregated(Updated(old(Now()), p, x.dsts, x.order, x.keepRound), p, x.cfg.pingReq);
        var b := Deleted(Freed(Scanned(a, p, x.cfg), p), p, x.cfg.deepDelete);
        Now() == if x.shutdown then DeletedAll(b, p) else if x.adv.advertise then Advertised(b, p, x.adv) else b
    {
      ghost var s0 := Now();
      RouteUpdate(p, x.dsts, x.order, x.keepRound);
      UpdatedShape(s0, p, x);
      ghost var s1 := Now();
      CalcAvgRtt(p, x.cfg.pingReq);
      AggregatedShape(s1, p, x.cfg.pingReq);
      AllHaveStats(s1, p, x.cfg.pingReq);
      ghost var s2 := Now();
      RouteScan(p, x.cfg);
      ScannedShape(s2, p, x.cfg);
      ScanPresent(s2, p, x.cfg);
      ghost var s3 := Now();
      RouteFree(p);
      FreedShape(s3, p);
      ghost var s4 := Now();
      Delete(p, x.cfg.deepDelete);
      if x.shutdown {
        DeleteAll(p);
      } else if x.adv.advertise {
        RoutesMan(p, x.adv);
      }
    }

    /** A whole round: the replies since the round before, then the tables if the
        receiver acknowledged. */
    method Round(p: nat, x: RoundInput)
      requires Shape(Now(), p) && Legal(Now(), x) && minRtt == CEILING
      requires p == 0 ==> route == map[]
      modifies this
      ensures Now() == RoundStep(old(Now()), p, x)
      ensures Shape(Now(), p + 1) && minRtt == CEILING
    {
      ghost var s := Now();
      Receive(x.replies);
      ReceivedShape(s, p, x);
      if x.acked {
        ProcessRound(p, x);
      }
      StepShape(s, p, x);
    }

    /** The endless loop of the daemon, over the rounds of a run. */
    method RunAll(xs: seq<RoundInput>)
      requires Now() == EMPTY_STATE && minRtt == CEILING
      requires IsRun(xs)
      modifies this
      ensures Now() == After(xs)
    {
      assert xs[..0] == [];
      for i := 0 to |xs|
        invariant Now() == After(xs[..i]) && Shape(Now(), i) && minRtt == CEILING
      {
        assert LegalAt(xs, i);
        AfterNext(xs, i);
        Round(i, xs[i]);
      }
      assert xs[..|xs|] == xs;
    }
  }
}
