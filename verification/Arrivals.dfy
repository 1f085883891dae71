/**
 How the example runs begin: a round that sees nothing, then one in which two
 destinations answer and are routed.
 */
module Arrivals {
  import opened Tables
  import opened Stats
  import opened Selection
  import opened Filing
  import opened Phases
  import opened Runs
  import opened RibAgreement

  predicate SeesNothing(x: RoundInput) {
    x.replies == [] && x.order == [] && x.acked && !x.shutdown
  }

  /** `a` and `b` each answer the first of three requests through peer 1, in round 1. */
  function TwoReplies(a: Dst, b: Dst): seq<Reply> { [Reply(a, 1, 1, 0, 10.0, 0), Reply(b, 1, 1, 0, 10.0, 0)] }

  predicate TwoAnswer(x: RoundInput, a: Dst, b: Dst) {
    && a != b && x.replies == TwoReplies(a, b)
    && x.order == [a, b] && x.dsts == {a, b}
    && x.acked && !x.shutdown && x.adv.advertise
    && x.cfg.metric == Metric0 && x.cfg.deepDelete >= 3 && x.cfg.pingReq == 3
  }

  predicate Starts(xs: seq<RoundInput>, a: Dst, b: Dst) {
    |xs| > 2 && SeesNothing(xs[0]) && TwoAnswer(xs[1], a, b)
  }

  function PlainConfig(): Config { Config(3, Metric0, false, 0, 3, true, false, false) }

  /** `a` and `b` are listed from the start. */
  function Arriving(keepRound: bool, a: Dst, b: Dst): seq<RoundInput> {
    var cfg := PlainConfig();
    [RoundInput([], true, {a, b}, [], keepRound, cfg, false, cfg),
     RoundInput(TwoReplies(a, b), true, {a, b}, [a, b], keepRound, cfg, false, cfg)]
  }

  lemma QuietRound(x: RoundInput)
    requires x.replies == [] && x.acked && !x.shutdown
    ensures RoundStep(EMPTY_STATE, 0, x) == EMPTY_STATE
  {
    var a := AtScan(EMPTY_STATE, 0, x);
    UpdateRibEmpty(x);
    assert a.r == map[] && a.route == map[] && a.log == map[] && a.rib == map[];
    NewEntriesKeys(a, 0, x.cfg);
    var c := Scanned(a, 0, x.cfg);
    assert c.r == map[] && c.route == map[] && c.log == map[] && c.rib == map[];
    var b := BeforeAdvertise(EMPTY_STATE, 0, x);
    assert b.r == map[] && b.route == map[] && b.log == map[] && b.rib == map[];
    assert AnnouncedRib(b.route, 0, x.adv, b.rib, b.route.Keys) == map[];
  }

  lemma UpdateRibEmpty(x: RoundInput)
    ensures UpdateRib(map[], map[], map[], x.dsts, x.order, 0, x.keepRound) == map[]
  {
    var rib' := UpdateRib(map[], map[], map[], x.dsts, x.order, 0, x.keepRound);
    forall d ensures d !in rib' {
      UpdateRibAt(map[], map[], map[], x.dsts, x.order, 0, x.keepRound, d);
    }
  }

  lemma SingleSum(m: Seqs, k: nat)
    requires m.Keys == {k}
    ensures Sum(m, m.Keys) == m[k].rtt && |m| == 1
  {
    SumSplitsOff(m, {k}, k);
    assert {k} - {k} == {} && |m.Keys| == |m|;
  }

  lemma SingleAverage(m: Seqs, k: nat, pingReq: nat)
    requires m.Keys == {k} && Measured(m, pingReq)
    ensures AggregateOf(m, pingReq).avgRtt < m[k].rtt + 0.01
  {
    SingleSum(m, k);
    AggregateSound(m, pingReq);
  }

  /** Three requests, one answer after ten milliseconds. */
  ghost predicate OneReply(m: Seqs) { m == map[0 := NewTparm(10.0, 0.0, 0, 0)] }

  predicate BelowCeiling(m: Seqs) { MetricOf(Metric0, WithStats(m, 3)) < CEILING }

  lemma OneReplyBelowCeiling(m: Seqs)
    requires OneReply(m)
    ensures BelowCeiling(m)
  {
    SingleAverage(m, 0, 3);
    assert StatsOf(WithStats(m, 3)) == AggregateOf(m, 3);
  }

  /** Peer 1 is the only one, with the records `m`. */
  predicate IsLone(ps: Peers, m: Seqs) { ps.Keys == {1} && ps[1] == m }

  /** A peer below the ceiling is chosen if it is the only one. */
  lemma LonePeerChosen(ps: Peers, m: Seqs)
    requires IsLone(ps, WithStats(m, 3)) && BelowCeiling(m)
    ensures Chosen(1, Metric0, ps) == 1
  {
    assert MetricOf(Metric0, ps[1]) < CEILING;
    assert AnyBelow(Metric0, ps, ps.Keys);
    assert IsBest(Metric0, ps, ps.Keys, Best(Metric0, ps));
  }

  lemma TwoFiled(xs: seq<Reply>, a: Dst, b: Dst)
    requires a != b && xs == TwoReplies(a, b)
    ensures FiledAll(map[], xs).Keys == {a, b}
    ensures FiledAll(map[], xs)[b] == map[1 := map[1 := map[0 := NewTparm(10.0, 0.0, 0, 0)]]]
  {
    var e: RTable := map[];
    assert xs[..1] == [xs[0]] && [xs[0]][..0] == [];
    assert FiledAll(e, []) == e;
    assert FiledAll(e, [xs[0]]) == Filed(e, xs[0]);
    assert FiledAll(e, xs) == Filed(Filed(e, xs[0]), xs[1]);
  }

  /** `d` has an entry of round 1 only, towards peer 1. */
  ghost predicate NewlyRouted(route: RouteTable, d: Dst) {
    d in route && route[d].Keys == {1} && route[d][1].currPeer == 1
  }

  /** `d` answered in round 1, through peer 1 only, and was aggregated. */
  ghost predicate Newcomer(a: State, d: Dst, m: Seqs) {
    a.route == map[] && d in a.r && IsLone(GetOrEmpty(a.r[d], 1), WithStats(m, 3)) && BelowCeiling(m)
  }

  lemma FirstDecision(a: State, cfg: Config, d: Dst)
    requires a.route == map[] && d in a.r
    ensures d in NewEntries(a, 1, cfg)
    ensures NewEntries(a, 1, cfg)[d].currPeer == Chosen(1, cfg.metric, GetOrEmpty(a.r[d], 1))
  {
  }

  lemma NewcomerPeer(a: State, cfg: Config, d: Dst, m: Seqs)
    requires Newcomer(a, d, m) && cfg.metric == Metric0
    ensures d in NewEntries(a, 1, cfg) && NewEntries(a, 1, cfg)[d].currPeer == 1
  {
    FirstDecision(a, cfg, d);
    LonePeerChosen(GetOrEmpty(a.r[d], 1), m);
  }

  /** A destination new in round 1 gets its first entry, and no other. */
  lemma RecordedNew(a: State, es: map<Dst, RtParm>, ls: map<Dst, Tlog>, d: Dst)
    requires a.route == map[] && d in es
    requires es[d].currPeer == 1
    ensures NewlyRouted(Recorded(a, 1, es, ls).route, d)
  {
    assert Extended(a.route, 1, es)[d] == map[1 := es[d]];
  }

  lemma FirstRoundsDeleteNothing(c: State, deepDelete: int)
    requires deepDelete >= 1
    ensures Deleted(Freed(c, 1), 1, deepDelete).route == c.route
  {
    assert Silent(Freed(c, 1), 1, deepDelete) == {};
  }

  lemma AggregateSingle(ps: Peers, pingReq: int)
    requires ps.Keys == {1}
    ensures IsLone(AggregatePeers(ps, pingReq), WithStats(ps[1], pingReq))
  {
  }

  lemma AggregatedAt(s: State, p: int, pingReq: int, d: Dst)
    requires d in s.r
    ensures d in Aggregated(s, p, pingReq).r
    ensures GetOrEmpty(Aggregated(s, p, pingReq).r[d], p) == AggregatePeers(GetOrEmpty(s.r[d], p), pingReq)
  {
  }

  lemma ListedKept(u: State, x: RoundInput, d: Dst)
    requires d in u.r && d in x.dsts && u.route == map[]
    ensures var v := Updated(u, 1, x.dsts, x.order, x.keepRound);
      d in v.r && v.r[d] == u.r[d] && v.route == map[]
  {
  }

  lemma NewcomerAggregated(v: State, d: Dst, m: Seqs)
    requires d in v.r && v.route == map[] && IsLone(GetOrEmpty(v.r[d], 1), m) && BelowCeiling(m)
    ensures Newcomer(Aggregated(v, 1, 3), d, m)
  {
    AggregatedAt(v, 1, 3, d);
    AggregateSingle(GetOrEmpty(v.r[d], 1), 3);
  }

  lemma NewcomerMeasured(x: RoundInput, d: Dst, m: Seqs)
    requires x.cfg.pingReq == 3 && d in x.dsts && BelowCeiling(m)
    requires d in FiledAll(map[], x.replies) && IsLone(GetOrEmpty(FiledAll(map[], x.replies)[d], 1), m)
    ensures Newcomer(AtScan(EMPTY_STATE, 1, x), d, m)
  {
    var u := Received(EMPTY_STATE, x);
    ListedKept(u, x, d);
    NewcomerAggregated(Updated(u, 1, x.dsts, x.order, x.keepRound), d, m);
  }

  lemma NewcomerThrough(a: State, cfg: Config, d: Dst, m: Seqs)
    requires Newcomer(a, d, m) && cfg.metric == Metric0 && cfg.deepDelete >= 3
    ensures var b := Deleted(Freed(Scanned(a, 1, cfg), 1), 1, cfg.deepDelete);
      NewlyRouted(b.route, d)
  {
    NewcomerPeer(a, cfg, d, m);
    RecordedNew(a, NewEntries(a, 1, cfg), NewLogs(a, 1, cfg), d);
    FirstRoundsDeleteNothing(Scanned(a, 1, cfg), cfg.deepDelete);
  }

  lemma LoneRow(row: Probes, m: Seqs)
    requires row == map[1 := map[1 := m]]
    ensures IsLone(GetOrEmpty(row, 1), m)
  {
  }

  lemma NewcomerRouted(x: RoundInput, b: Dst, m: Seqs)
    requires x.acked && !x.shutdown && x.cfg.pingReq == 3 && x.cfg.metric == Metric0 && x.cfg.deepDelete >= 3
    requires b in x.dsts && OneReply(m)
    requires b in FiledAll(map[], x.replies) && FiledAll(map[], x.replies)[b] == map[1 := map[1 := m]]
    ensures NewlyRouted(RoundStep(EMPTY_STATE, 1, x).route, b)
  {
    OneReplyBelowCeiling(m);
    LoneRow(FiledAll(map[], x.replies)[b], m);
    NewcomerMeasured(x, b, m);
    NewcomerThrough(AtScan(EMPTY_STATE, 1, x), x.cfg, b, m);
    StepRoute(EMPTY_STATE, 1, x);
  }

  lemma TablesKept(c: State, deepDelete: int)
    requires deepDelete >= 1
    ensures Deleted(Freed(c, 1), 1, deepDelete).r == c.r
  {
    assert Silent(Freed(c, 1), 1, deepDelete) == {};
  }

  /** A round keeps the measured destinations that are on the list. */
  lemma ListedStay(x: RoundInput, ds: set<Dst>)
    requires x.acked && !x.shutdown && x.cfg.deepDelete >= 1
    requires FiledAll(map[], x.replies).Keys == ds && x.dsts == ds
    ensures RoundStep(EMPTY_STATE, 1, x).r.Keys == ds
  {
    StepTables(EMPTY_STATE, 1, x);
    TablesKept(Scanned(AtScan(EMPTY_STATE, 1, x), 1, x.cfg), x.cfg.deepDelete);
  }

  lemma QuietLegal(s: State, x: RoundInput, a: Dst, b: Dst)
    requires a != b && s.r.Keys == {a, b} && x.replies == [] && x.order == [a, b]
    ensures Legal(s, x)
  {
    assert FiledAll(s.r, []) == s.r;
  }

  lemma NothingSeen(xs: seq<RoundInput>, a: Dst, b: Dst)
    requires Starts(xs, a, b)
    ensures LegalAt(xs, 0) && After(xs[..1]) == EMPTY_STATE
  {
    assert xs[..0] == [];
    AfterNext(xs, 0);
    QuietRound(xs[0]);
  }

  lemma ArrivedLegal(x: RoundInput, a: Dst, b: Dst)
    requires TwoAnswer(x, a, b)
    ensures Legal(EMPTY_STATE, x)
  {
    TwoFiled(x.replies, a, b);
  }

  lemma ArrivedRouted(x: RoundInput, a: Dst, b: Dst)
    requires TwoAnswer(x, a, b)
    ensures NewlyRouted(RoundStep(EMPTY_STATE, 1, x).route, b)
  {
    TwoFiled(x.replies, a, b);
    NewcomerRouted(x, b, FiledAll(map[], x.replies)[b][1][1]);
  }

  lemma ArrivedMeasured(x: RoundInput, a: Dst, b: Dst)
    requires TwoAnswer(x, a, b)
    ensures RoundStep(EMPTY_STATE, 1, x).r.Keys == {a, b}
  {
    TwoFiled(x.replies, a, b);
    ListedStay(x, {a, b});
  }

  lemma ArrivedSteady(x: RoundInput, a: Dst, b: Dst)
    requires TwoAnswer(x, a, b) && Legal(EMPTY_STATE, x)
    ensures Steady(RoundStep(EMPTY_STATE, 1, x), 2)
  {
    assert forall d :: !Lost(Received(EMPTY_STATE, x), 1, x, d);
    SteadyStep(EMPTY_STATE, 1, x);
  }

  /** After the two rounds `a` and `b` are measured, the advertised routes agree with the
      table, and `b` is routed through peer 1. */
  lemma BothArrive(xs: seq<RoundInput>, a: Dst, b: Dst)
    requires Starts(xs, a, b)
    ensures LegalAt(xs, 0) && LegalAt(xs, 1)
    ensures After(xs[..2]).r.Keys == {a, b} && NewlyRouted(After(xs[..2]).route, b)
    ensures Steady(After(xs[..2]), 2)
  {
    NothingSeen(xs, a, b);
    ArrivedLegal(xs[1], a, b);
    ArrivedRouted(xs[1], a, b);
    ArrivedMeasured(xs[1], a, b);
    ArrivedSteady(xs[1], a, b);
    AfterNext(xs, 1);
  }
}
