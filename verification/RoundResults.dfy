/**
 What a processed round of a run leaves for a destination, in terms of the replies it
 found: the statistics of every peer, the routing entry and the log record.
 */
module RoundResults {
  import opened Tables
  import opened Stats
  import opened Selection
  import opened Phases
  import opened Runs
  import opened RibAgreement

  // ----- statistics -----

  /** The statistics `t` beside the replies `m`. */
  ghost predicate Rated(m: Seqs, pingReq: int, rated: Seqs) {
    STATS in rated && rated == m[STATS := rated[STATS]] && IsStatistics(m, pingReq, rated[STATS])
  }

  /** Every peer with a reply is rated, and no other. */
  ghost predicate AllRated(raw: Peers, pingReq: int, ps: Peers) {
    ps.Keys == raw.Keys && forall k :: k in raw ==> Rated(raw[k], pingReq, ps[k])
  }

  lemma PeersRated(raw: Peers, pingReq: int)
    requires forall k :: k in raw ==> raw[k] != map[]
    ensures AllRated(raw, pingReq, AggregatePeers(raw, pingReq))
  {
    forall k | k in raw ensures Rated(raw[k], pingReq, AggregatePeers(raw, pingReq)[k]) {
      AggregateIs(raw[k], pingReq);
    }
  }

  // ----- entries -----

  /** What the configured metric reads in the statistics; no other metric is read. */
  function Shown(kind: PathMetric, m: Seqs): real
    requires STATS in m
  {
    match kind
    case Metric0 => m[STATS].avgRtt
    case Metric1 => m[STATS].metric1
    case OtherMetric => 0.0
  }

  ghost predicate AllShown(ps: Peers) { forall k :: k in ps ==> STATS in ps[k] }

  /** `b` is the lowest-numbered peer of least metric, and that is below the ceiling. */
  ghost predicate IsLeast(kind: PathMetric, ps: Peers, b: nat)
    requires AllShown(ps)
  {
    && b in ps && Shown(kind, ps[b]) < CEILING
    && (forall q :: q in ps ==> Shown(kind, ps[b]) <= Shown(kind, ps[q]))
    && (forall q :: q in ps && q < b ==> Shown(kind, ps[b]) < Shown(kind, ps[q]))
  }

  /** No peer is below the ceiling, or the best one reads as no peer. */
  ghost predicate NoAnswer(kind: PathMetric, ps: Peers)
    requires AllShown(ps)
  {
    (forall q :: q in ps ==> Shown(kind, ps[q]) >= CEILING) || IsLeast(kind, ps, 0)
  }

  /** An entry names the peer and the metric of the entry before it. */
  ghost predicate Linked(prev: Option<RtParm>, e: RtParm) {
    if prev.None? then e.prevPeer == 0 && e.prevMetric == e.currMetric
    else e.prevPeer == prev.value.currPeer && e.prevMetric == prev.value.currMetric
  }

  /** The round leaves a destination for the peer `b`, of metric `m`: it is new, or the
      least-move rule is off, or the recorded metric is above (1 + t/100) * m. */
  ghost predicate Leaves(cfg: Config, prev: Option<RtParm>, m: real) {
    prev.None? || !cfg.leastMove || prev.value.currMetric > (1.0 + cfg.leastThresh as real / 100.0) * m
  }

  /** The entry of a round later than the first, from the rated peers `ps`. */
  ghost predicate IsDecision(cfg: Config, prev: Option<RtParm>, ps: Peers, e: RtParm)
    requires AllShown(ps)
  {
    && Linked(prev, e)
    && (NoAnswer(cfg.metric, ps) ==>
          e.currPeer == (if prev.Some? then prev.value.currPeer else 0) && e.currMetric == 0.0)
    && (forall b :: IsLeast(cfg.metric, ps, b) && b != 0 ==>
          if Leaves(cfg, prev, Shown(cfg.metric, ps[b]))
          then e.currPeer == b && e.currMetric == Shown(cfg.metric, ps[b])
          else e.currPeer == prev.value.currPeer && e.currMetric == prev.value.currMetric)
  }

  /** The entry of round 0: the lowest-numbered peer with a reply, and its metric; with a
      metric that is not read, the ceiling. */
  ghost predicate IsFirst(kind: PathMetric, ps: Peers, e: RtParm)
    requires AllShown(ps)
  {
    && e.currPeer in ps && (forall q :: q in ps ==> e.currPeer <= q)
    && e.currMetric == (if kind == OtherMetric then CEILING else Shown(kind, ps[e.currPeer]))
    && Linked(None, e)
  }

  lemma ShownIs(kind: PathMetric, m: Seqs)
    requires STATS in m
    ensures Shown(kind, m) == MetricOf(kind, m)
  {
  }

  lemma LeastIs(kind: PathMetric, ps: Peers, b: nat)
    requires AllShown(ps)
    ensures IsLeast(kind, ps, b) <==> IsBest(kind, ps, ps.Keys, b)
  {
    forall k | k in ps ensures Shown(kind, ps[k]) == MetricOf(kind, ps[k]) {
      ShownIs(kind, ps[k]);
    }
  }

  lemma LeastChosen(kind: PathMetric, ps: Peers, b: nat)
    requires AllShown(ps) && IsLeast(kind, ps, b)
    ensures Best(kind, ps) == b && MetricOf(kind, ps[b]) == Shown(kind, ps[b])
  {
    LeastIs(kind, ps, b);
    assert AnyBelow(kind, ps, ps.Keys);
    BestUnique(kind, ps, b, Best(kind, ps));
  }

  lemma BeatsIs(t: int, recorded: real, m: real)
    ensures Beats(t, recorded, m) <==> recorded > (1.0 + t as real / 100.0) * m
  {
    assert (1.0 + t as real / 100.0) * m == m + m * (t as real / 100.0);
  }

  lemma DecideAnswered(cfg: Config, prev: Option<RtParm>, b: nat, m: real)
    requires b != 0
    ensures var e := Decide(cfg, prev, b, m);
      && Linked(prev, e)
      && if Leaves(cfg, prev, m) then e.currPeer == b && e.currMetric == m
         else e.currPeer == prev.value.currPeer && e.currMetric == prev.value.currMetric
  {
    if prev.Some? {
      BeatsIs(cfg.leastThresh, prev.value.currMetric, m);
    }
  }

  lemma DecideSilent(cfg: Config, prev: Option<RtParm>)
    ensures var e := Decide(cfg, prev, 0, 0.0);
      Linked(prev, e) && e.currMetric == 0.0 && e.currPeer == if prev.Some? then prev.value.currPeer else 0
  {
  }

  lemma DecideIs(cfg: Config, prev: Option<RtParm>, p: nat, ps: Peers)
    requires p > 0 && AllShown(ps)
    ensures IsDecision(cfg, prev, ps, Decide(cfg, prev, Chosen(p, cfg.metric, ps), ChosenMetric(p, cfg.metric, ps)))
  {
    var kind := cfg.metric;
    var b := Best(kind, ps);
    LeastIs(kind, ps, b);
    if b == 0 || !IsLeast(kind, ps, b) {
      NoneLeast(kind, ps);
      DecideSilent(cfg, prev);
    } else {
      LeastChosen(kind, ps, b);
      OneLeast(kind, ps, b);
      DecideAnswered(cfg, prev, b, Shown(kind, ps[b]));
    }
  }

  lemma OneLeast(kind: PathMetric, ps: Peers, b: nat)
    requires AllShown(ps) && IsLeast(kind, ps, b) && b != 0
    ensures !NoAnswer(kind, ps) && forall c :: IsLeast(kind, ps, c) ==> c == b
  {
    forall c | IsLeast(kind, ps, c) ensures c == b {
      LeastChosen(kind, ps, b);
      LeastChosen(kind, ps, c);
    }
  }

  lemma NoneLeast(kind: PathMetric, ps: Peers)
    requires AllShown(ps) && (Best(kind, ps) == 0 || !IsLeast(kind, ps, Best(kind, ps)))
    ensures Best(kind, ps) == 0 && forall c :: IsLeast(kind, ps, c) ==> c == 0
  {
    LeastIs(kind, ps, Best(kind, ps));
    forall c | IsLeast(kind, ps, c) ensures c == 0 {
      LeastChosen(kind, ps, c);
    }
  }

  lemma FirstIs(kind: PathMetric, ps: Peers)
    requires ps != map[] && AllShown(ps)
    ensures IsFirst(kind, ps, FirstEntry(kind, ps))
  {
    var ks := SortedKeys(ps.Keys);
    assert exists k :: k in ps.Keys;
    assert ks[0] in ps.Keys;
    forall q | q in ps ensures ks[0] <= q {
      var i :| 0 <= i < |ks| && ks[i] == q;
    }
    ShownIs(kind, ps[ks[0]]);
  }

  // ----- one round -----

  /** Scanning keeps the rated peers of the round. */
  lemma RowScanned(a: State, p: nat, cfg: Config, es: map<Dst, RtParm>, ls: map<Dst, Tlog>, d: Dst, ps: Peers)
    requires d in a.r && p in a.r[d] && a.r[d][p] == ps
    ensures var f := Freed(Recorded(a, p, es, ls), p); d in f.r && p in f.r[d] && f.r[d][p] == ps
  {
  }

  lemma RowAggregated(u: State, p: nat, pingReq: int, d: Dst)
    ensures var a := Aggregated(u, p, pingReq);
      && (d in a.r <==> d in u.r)
      && (d in u.r ==> p in a.r[d] && a.r[d][p] == AggregatePeers(GetOrEmpty(u.r[d], p), pingReq))
  {
  }

  lemma RowsKept(a: State, p: nat, cfg: Config, d: Dst)
    ensures d in Deleted(Freed(Scanned(a, p, cfg), p), p, cfg.deepDelete).r ==> d in a.r
  {
  }

  /** The row of a round after it. */
  lemma RowAfter(s: State, p: nat, x: RoundInput, u: State, d: Dst)
    requires u == Updated(Received(s, x), p, x.dsts, x.order, x.keepRound) && d in BeforeAdvertise(s, p, x).r
    ensures d in u.r
    ensures var b := BeforeAdvertise(s, p, x);
      p in b.r[d] && b.r[d][p] == AggregatePeers(GetOrEmpty(u.r[d], p), x.cfg.pingReq)
  {
    var a := AtScan(s, p, x);
    RowAggregated(u, p, x.cfg.pingReq, d);
    RowsKept(a, p, x.cfg, d);
    RowScanned(a, p, x.cfg, NewEntries(a, p, x.cfg), NewLogs(a, p, x.cfg), d,
               AggregatePeers(GetOrEmpty(u.r[d], p), x.cfg.pingReq));
  }

  lemma RatedShown(raw: Peers, pingReq: int, ps: Peers)
    requires AllRated(raw, pingReq, ps)
    ensures AllShown(ps)
  {
    forall k | k in ps ensures STATS in ps[k] {
      assert Rated(raw[k], pingReq, ps[k]);
    }
  }

  lemma RowRated(s: State, p: nat, x: RoundInput, u: State, d: Dst)
    requires Shape(s, p) && d in BeforeAdvertise(s, p, x).r
    requires u == Updated(Received(s, x), p, x.dsts, x.order, x.keepRound)
    ensures d in u.r && p in BeforeAdvertise(s, p, x).r[d]
    ensures AllRated(GetOrEmpty(u.r[d], p), x.cfg.pingReq, BeforeAdvertise(s, p, x).r[d][p])
    ensures AllShown(BeforeAdvertise(s, p, x).r[d][p])
  {
    ReceivedShape(s, p, x);
    UpdatedShape(Received(s, x), p, x);
    RowAfter(s, p, x, u, d);
    PeersRated(GetOrEmpty(u.r[d], p), x.cfg.pingReq);
    RatedShown(GetOrEmpty(u.r[d], p), x.cfg.pingReq, BeforeAdvertise(s, p, x).r[d][p]);
  }

  /** The entry of the round before, if there is one. */
  ghost function EntryBefore(s: State, p: nat, d: Dst): Option<RtParm> {
    if HasEntry(s.route, d, p - 1) then Some(s.route[d][p - 1]) else None
  }

  lemma EntryScanned(a: State, p: nat, cfg: Config, d: Dst, ps: Peers)
    requires d in a.r && ps == GetOrEmpty(a.r[d], p) && d in Freed(Scanned(a, p, cfg), p).route
    requires p > 0 || (ps != map[] && a.route == map[])
    ensures var f := Freed(Scanned(a, p, cfg), p);
      && EntryOf(p, cfg, PrevEntry(a.route, d, p), ps).Some?
      && p in f.route[d] && f.route[d][p] == EntryOf(p, cfg, PrevEntry(a.route, d, p), ps).value
  {
    var es, ls := NewEntries(a, p, cfg), NewLogs(a, p, cfg);
    assert d in es;
    RecordedEntry(a, p, es, ls, d);
    FreedEntry(Recorded(a, p, es, ls), p, d);
  }

  /** A destination routed in round 0 answered in it. */
  lemma FirstAnswered(a: State, cfg: Config, d: Dst)
    requires a.route == map[] && d in Freed(Scanned(a, 0, cfg), 0).route
    ensures d in a.r && GetOrEmpty(a.r[d], 0) != map[]
  {
  }

  ghost predicate IsEntry(cfg: Config, p: nat, prev: Option<RtParm>, ps: Peers, e: RtParm)
    requires AllShown(ps)
  {
    if p == 0 then IsFirst(cfg.metric, ps, e) else IsDecision(cfg, prev, ps, e)
  }

  lemma EntryIs(p: nat, cfg: Config, prev: Option<RtParm>, ps: Peers)
    requires AllShown(ps) && EntryOf(p, cfg, prev, ps).Some?
    ensures IsEntry(cfg, p, prev, ps, EntryOf(p, cfg, prev, ps).value)
  {
    if p == 0 {
      FirstIs(cfg.metric, ps);
    } else {
      DecideIs(cfg, prev, p, ps);
    }
  }

  /** The entries the scan starts from. */
  lemma EntriesFound(s: State, p: nat, x: RoundInput, d: Dst)
    requires Shape(s, p) && Legal(s, x) && d in x.dsts
    ensures PrevEntry(AtScan(s, p, x).route, d, p) == EntryBefore(s, p, d)
    ensures s.route == map[] ==> AtScan(s, p, x).route == map[]
  {
    AtScanAt(s, p, x, d);
    var a := AtScan(s, p, x);
    if s.route == map[] {
      forall c ensures c !in a.route {
        AtScanAt(s, p, x, c);
      }
    }
  }

  /** The rows the scan starts from. */
  lemma RowFound(s: State, p: nat, x: RoundInput, d: Dst)
    requires d in BeforeAdvertise(s, p, x).r
    ensures var a, b := AtScan(s, p, x), BeforeAdvertise(s, p, x);
      d in x.dsts && d in a.r && p in b.r[d] && GetOrEmpty(a.r[d], p) == b.r[d][p]
  {
    var u := Updated(Received(s, x), p, x.dsts, x.order, x.keepRound);
    RowAfter(s, p, x, u, d);
    RowAggregated(u, p, x.cfg.pingReq, d);
  }

  lemma RoutedMeasured(s: State, p: nat, x: RoundInput, d: Dst)
    requires Shape(s, p)
    ensures d in BeforeAdvertise(s, p, x).route ==> d in BeforeAdvertise(s, p, x).r
  {
    BeforeAdvertiseShape(s, p, x);
  }

  /** The entry a processed round leaves is the one its rated replies call for. */
  lemma EntryAfter(s: State, p: nat, x: RoundInput, d: Dst)
    requires Shape(s, p) && Legal(s, x) && (p == 0 ==> s.route == map[]) && d in BeforeAdvertise(s, p, x).route
    ensures var b := BeforeAdvertise(s, p, x);
      && d in b.r && p in b.r[d] && AllShown(b.r[d][p]) && p in b.route[d]
      && IsEntry(x.cfg, p, EntryBefore(s, p, d), b.r[d][p], b.route[d][p])
  {
    var a := AtScan(s, p, x);
    RoutedMeasured(s, p, x, d);
    RowFound(s, p, x, d);
    EntriesFound(s, p, x, d);
    RowRated(s, p, x, Updated(Received(s, x), p, x.dsts, x.order, x.keepRound), d);
    RoutedBefore(a, p, x.cfg, d);
    EntryRecorded(a, p, x.cfg, d, GetOrEmpty(a.r[d], p), BeforeAdvertise(s, p, x));
    EntryIs(p, x.cfg, PrevEntry(a.route, d, p), GetOrEmpty(a.r[d], p));
  }

  lemma RoutedBefore(a: State, p: nat, cfg: Config, d: Dst)
    ensures d in Deleted(Freed(Scanned(a, p, cfg), p), p, cfg.deepDelete).route ==>
              d in Freed(Scanned(a, p, cfg), p).route
  {
  }

  lemma EntryRecorded(a: State, p: nat, cfg: Config, d: Dst, ps: Peers, b: State)
    requires b == Deleted(Freed(Scanned(a, p, cfg), p), p, cfg.deepDelete) && d in b.route
    requires d in a.r && ps == GetOrEmpty(a.r[d], p) && (p == 0 ==> a.route == map[])
    ensures p in b.route[d] && EntryOf(p, cfg, PrevEntry(a.route, d, p), ps).Some?
    ensures b.route[d][p] == EntryOf(p, cfg, PrevEntry(a.route, d, p), ps).value
  {
    if p == 0 {
      FirstAnswered(a, cfg, d);
    }
    EntryScanned(a, p, cfg, d, ps);
  }

  // ----- runs -----

  /** Round `n` of the run was processed and did not shut the daemon down. */
  ghost predicate ProcessedAt(xs: seq<RoundInput>, n: nat) {
    IsRun(xs) && n < |xs| && xs[n].acked && !xs[n].shutdown
  }

  lemma RunBefore(xs: seq<RoundInput>, n: nat)
    requires ProcessedAt(xs, n)
    ensures Shape(After(xs[..n]), n) && Legal(After(xs[..n]), xs[n])
    ensures n == 0 ==> After(xs[..n]).route == map[]
    ensures After(xs[..n + 1]).r == BeforeAdvertise(After(xs[..n]), n, xs[n]).r
    ensures After(xs[..n + 1]).route == BeforeAdvertise(After(xs[..n]), n, xs[n]).route
  {
    RunShape(xs[..n]);
    assert LegalAt(xs, n);
    AfterNext(xs, n);
    StepRoute(After(xs[..n]), n, xs[n]);
    StepTables(After(xs[..n]), n, xs[n]);
  }

  /** In every run: after a processed round each measured destination has, in the table of
      that round, the peers the round found replies of, each with its replies and their
      statistics. */
  lemma StatisticsInRuns(xs: seq<RoundInput>, n: nat, d: Dst)
    requires ProcessedAt(xs, n) && d in After(xs[..n + 1]).r
    ensures d in Found(xs, n) && n in After(xs[..n + 1]).r[d]
    ensures AllRated(GetOrEmpty(Found(xs, n)[d], n), xs[n].cfg.pingReq, After(xs[..n + 1]).r[d][n])
  {
    var s, x := After(xs[..n]), xs[n];
    RunBefore(xs, n);
    RowRated(s, n, x, Updated(Received(s, x), n, x.dsts, x.order, x.keepRound), d);
  }

  /** In every run: after a processed round each routed destination has the entry that the
      statistics of that round, the entry of the round before and the configuration call
      for. */
  lemma EntryInRuns(xs: seq<RoundInput>, n: nat, d: Dst)
    requires ProcessedAt(xs, n) && d in After(xs[..n + 1]).route
    ensures var t := After(xs[..n + 1]);
      && d in t.r && n in t.r[d] && AllShown(t.r[d][n]) && n in t.route[d]
      && IsEntry(xs[n].cfg, n, EntryBefore(After(xs[..n]), n, d), t.r[d][n], t.route[d][n])
  {
    RunBefore(xs, n);
    EntryAfter(After(xs[..n]), n, xs[n], d);
  }

  /** The peer and metric of an entry with the rule off. */
  ghost predicate FollowsLeast(kind: PathMetric, ps: Peers, e: RtParm)
    requires AllShown(ps)
  {
    0 !in ps && (exists q :: q in ps && Shown(kind, ps[q]) < CEILING) ==>
      IsLeast(kind, ps, e.currPeer) && e.currMetric == Shown(kind, ps[e.currPeer])
  }

  lemma RuleOffAt(cfg: Config, n: nat, prev: Option<RtParm>, ps: Peers, e: RtParm)
    requires AllShown(ps) && IsEntry(cfg, n, prev, ps, e) && n > 0 && !cfg.leastMove
    ensures FollowsLeast(cfg.metric, ps, e)
  {
    LeastOrNone(cfg.metric, ps);
  }

  /** With the least-move rule off, every routed destination that some peer answered below
      the ceiling has the lowest-numbered peer of least metric, and that metric. */
  lemma RuleOffInRuns(xs: seq<RoundInput>, n: nat, d: Dst)
    requires ProcessedAt(xs, n) && n > 0 && !xs[n].cfg.leastMove && d in After(xs[..n + 1]).route
    ensures var t := After(xs[..n + 1]);
      && d in t.r && n in t.r[d] && AllShown(t.r[d][n]) && n in t.route[d]
      && FollowsLeast(xs[n].cfg.metric, t.r[d][n], t.route[d][n])
  {
    EntryInRuns(xs, n, d);
    var t := After(xs[..n + 1]);
    RuleOffAt(xs[n].cfg, n, EntryBefore(After(xs[..n]), n, d), t.r[d][n], t.route[d][n]);
  }

  /** The peer and metric of an entry a destination enters the table with. */
  ghost predicate EntersWith(kind: PathMetric, n: nat, ps: Peers, e: RtParm)
    requires AllShown(ps)
  {
    && e.prevPeer == 0 && e.prevMetric == e.currMetric
    && (e.currPeer != 0 ==>
          && e.currPeer in ps
          && e.currMetric == if n == 0 && kind == OtherMetric then CEILING else Shown(kind, ps[e.currPeer]))
  }

  lemma EntersAt(cfg: Config, n: nat, ps: Peers, e: RtParm)
    requires AllShown(ps) && IsEntry(cfg, n, None, ps, e)
    ensures EntersWith(cfg.metric, n, ps, e)
  {
    if n > 0 {
      LeastOrNone(cfg.metric, ps);
    }
  }

  /** The entry a destination enters the table with names a peer of that round's table, if
      any is below the ceiling, and records its metric. */
  lemma EntersInRuns(xs: seq<RoundInput>, n: nat, d: Dst)
    requires ProcessedAt(xs, n) && d in After(xs[..n + 1]).route && EntryBefore(After(xs[..n]), n, d) == None
    ensures var t := After(xs[..n + 1]);
      && d in t.r && n in t.r[d] && AllShown(t.r[d][n]) && n in t.route[d]
      && EntersWith(xs[n].cfg.metric, n, t.r[d][n], t.route[d][n])
  {
    EntryInRuns(xs, n, d);
    var t := After(xs[..n + 1]);
    EntersAt(xs[n].cfg, n, t.r[d][n], t.route[d][n]);
  }

  lemma LeastOrNone(kind: PathMetric, ps: Peers)
    requires AllShown(ps)
    ensures NoAnswer(kind, ps) || exists b :: IsLeast(kind, ps, b) && b != 0
  {
    var b := Best(kind, ps);
    LeastIs(kind, ps, b);
    if !AnyBelow(kind, ps, ps.Keys) {
      forall q | q in ps ensures Shown(kind, ps[q]) >= CEILING {
        ShownIs(kind, ps[q]);
      }
    }
  }

  // ----- the log -----

  /** The fields of a log record, as a record of the replies of its peer. */
  function LoggedStats(l: Tlog): Tparm {
    Tparm(0.0, l.avgRtt, l.lost, l.timestamp, l.minRtt, l.maxRtt, l.avgRtt, l.minRtt * (1.0 + l.lost as real))
  }

  /** The metric a log record shows; with a metric that is not read, the ceiling in round 0
      and 0 later. */
  function LoggedMetric(kind: PathMetric, p: nat, l: Tlog): real {
    match kind
    case Metric0 => l.avgRtt
    case Metric1 => l.minRtt * (1.0 + l.lost as real)
    case OtherMetric => if p == 0 then CEILING else 0.0
  }

  /** The peer a round picks among the rated ones. */
  ghost predicate Picks(kind: PathMetric, p: nat, ps: Peers, peer: nat)
    requires AllShown(ps)
  {
    if p == 0 then
      if ps == map[] then peer == 0 else peer in ps && forall q :: q in ps ==> peer <= q
    else
      && (NoAnswer(kind, ps) ==> peer == 0)
      && (forall b :: IsLeast(kind, ps, b) ==> peer == b)
  }

  /** The log record of a round that found the replies `raw`. */
  ghost predicate IsLog(kind: PathMetric, p: nat, raw: Peers, pingReq: int, l: Tlog) {
    if l.peer == 0 then l == Tlog(0, 0.0, 0.0, 0.0, 0.0, 0, 0)
    else
      && l.peer in raw && IsStatistics(raw[l.peer], pingReq, LoggedStats(l))
      && l.rtt == LoggedMetric(kind, p, l)
  }

  lemma PickedPeer(kind: PathMetric, p: nat, ps: Peers)
    requires AllShown(ps)
    ensures Picks(kind, p, ps, Chosen(p, kind, ps))
  {
    if p == 0 {
      if ps != map[] {
        FirstIs(kind, ps);
      }
    } else {
      forall b | IsLeast(kind, ps, b) ensures Chosen(p, kind, ps) == b {
        LeastChosen(kind, ps, b);
      }
      LeastOrNone(kind, ps);
      NoneBelow(kind, ps);
    }
  }

  lemma NoneBelow(kind: PathMetric, ps: Peers)
    requires AllShown(ps)
    ensures NoAnswer(kind, ps) ==> Best(kind, ps) == 0
  {
    var b := Best(kind, ps);
    LeastIs(kind, ps, b);
    if IsLeast(kind, ps, 0) {
      LeastChosen(kind, ps, 0);
    } else if forall q :: q in ps ==> Shown(kind, ps[q]) >= CEILING {
      assert !IsLeast(kind, ps, b);
    }
  }

  /** The record of a rated peer. */
  lemma LogFields(kind: PathMetric, p: nat, peer: nat, m: Seqs, rated: Seqs, pingReq: int, rtt: real)
    requires peer != 0 && Rated(m, pingReq, rated)
    requires rtt == if p == 0 && kind == OtherMetric then CEILING else Shown(kind, rated)
    ensures var t := rated[STATS];
      var l := Tlog(peer, rtt, t.avgRtt, t.minRtt, t.maxRtt, t.lost, t.timestamp);
      IsStatistics(m, pingReq, LoggedStats(l)) && l.rtt == LoggedMetric(kind, p, l)
  {
    var t := rated[STATS];
    assert t == Tparm(0.0, t.avgRtt, t.lost, t.timestamp, t.minRtt, t.maxRtt, t.avgRtt,
                      t.minRtt * (1.0 + t.lost as real));
  }

  lemma LogIs(p: nat, cfg: Config, raw: Peers, ps: Peers)
    requires AllRated(raw, cfg.pingReq, ps)
    ensures AllShown(ps)
    ensures IsLog(cfg.metric, p, raw, cfg.pingReq, LogOf(p, cfg, ps))
    ensures Picks(cfg.metric, p, ps, LogOf(p, cfg, ps).peer)
  {
    RatedShown(raw, cfg.pingReq, ps);
    PickedPeer(cfg.metric, p, ps);
    var peer := Chosen(p, cfg.metric, ps);
    ChosenThere(p, cfg.metric, ps);
    if peer != 0 {
      assert Rated(raw[peer], cfg.pingReq, ps[peer]);
      ShownIs(cfg.metric, ps[peer]);
      LogFields(cfg.metric, p, peer, raw[peer], ps[peer], cfg.pingReq, ChosenMetric(p, cfg.metric, ps));
    }
  }

  lemma ChosenThere(p: nat, kind: PathMetric, ps: Peers)
    requires AllShown(ps)
    ensures Chosen(p, kind, ps) != 0 ==> Chosen(p, kind, ps) in ps
  {
    if p == 0 && ps != map[] {
      FirstIs(kind, ps);
    }
  }

  lemma LogRecorded(a: State, p: nat, cfg: Config, d: Dst)
    requires d in a.r
    ensures var b := Deleted(Freed(Scanned(a, p, cfg), p), p, cfg.deepDelete);
      d in b.log && b.log[d] == GetOrEmpty(a.log, d)[p := LogOf(p, cfg, GetOrEmpty(a.r[d], p))]
  {
  }

  lemma LogElsewhere(a: State, p: nat, cfg: Config, d: Dst)
    requires d !in a.r
    ensures var b := Deleted(Freed(Scanned(a, p, cfg), p), p, cfg.deepDelete);
      (d in b.log <==> d in a.log) && (d in a.log ==> b.log[d] == a.log[d])
  {
  }

  /** A record stays as it was logged. */
  lemma StepKeepsLog(s: State, p: nat, x: RoundInput, d: Dst, q: nat)
    requires d in s.log && q in s.log[d] && q != p
    ensures var f := RoundStep(s, p, x); d in f.log && q in f.log[d] && f.log[d][q] == s.log[d][q]
  {
    var a := AtScan(s, p, x);
    if d in a.r {
      LogRecorded(a, p, x.cfg, d);
    } else {
      LogElsewhere(a, p, x.cfg, d);
    }
  }

  /** The record of round `q`, as it stands before round `n`. */
  ghost predicate LoggedBy(xs: seq<RoundInput>, q: nat, n: nat, d: Dst)
    requires q < n <= |xs| && d in Found(xs, q)
  {
    var t, x, raw := After(xs[..n]), xs[q], GetOrEmpty(Found(xs, q)[d], q);
    var ps := AggregatePeers(raw, x.cfg.pingReq);
    && d in t.log && q in t.log[d] && AllShown(ps)
    && IsLog(x.cfg.metric, q, raw, x.cfg.pingReq, t.log[d][q])
    && Picks(x.cfg.metric, q, ps, t.log[d][q].peer)
  }

  lemma LoggedFirst(s: State, p: nat, x: RoundInput, d: Dst, u: State, raw: Peers)
    requires Shape(s, p) && x.acked && u == Updated(Received(s, x), p, x.dsts, x.order, x.keepRound)
    requires d in u.r && raw == GetOrEmpty(u.r[d], p)
    ensures var f, ps := RoundStep(s, p, x), AggregatePeers(raw, x.cfg.pingReq);
      && d in f.log && p in f.log[d] && AllShown(ps)
      && IsLog(x.cfg.metric, p, raw, x.cfg.pingReq, f.log[d][p])
      && Picks(x.cfg.metric, p, ps, f.log[d][p].peer)
  {
    ReceivedShape(s, p, x);
    UpdatedShape(Received(s, x), p, x);
    var a := AtScan(s, p, x);
    RowAggregated(u, p, x.cfg.pingReq, d);
    LogRecorded(a, p, x.cfg, d);
    PeersRated(raw, x.cfg.pingReq);
    LogIs(p, x.cfg, raw, AggregatePeers(raw, x.cfg.pingReq));
  }

  lemma LogNext(xs: seq<RoundInput>, q: nat, n: nat, d: Dst)
    requires q < n < |xs| && d in Found(xs, q) && LoggedBy(xs, q, n, d)
    ensures LoggedBy(xs, q, n + 1, d)
  {
    AfterNext(xs, n);
    StepKeepsLog(After(xs[..n]), n, xs[n], d, q);
  }

  lemma LogAdded(xs: seq<RoundInput>, q: nat, d: Dst)
    requires q < |xs| && xs[q].acked && d in Found(xs, q)
    ensures LoggedBy(xs, q, q + 1, d)
  {
    var s, x := After(xs[..q]), xs[q];
    RunShape(xs[..q]);
    AfterNext(xs, q);
    LoggedFirst(s, q, x, d, Updated(Received(s, x), q, x.dsts, x.order, x.keepRound), GetOrEmpty(Found(xs, q)[d], q));
  }

  /** In every run, and for as long as it lasts: the log record of a processed round has the
      peer the round picks, and of that peer's replies in that round the least and the
      greatest time, the requests without a reply, the average and the metric. */
  lemma {:induction false} LogInRuns(xs: seq<RoundInput>, q: nat, n: nat, d: Dst)
    requires q < n <= |xs| && xs[q].acked && d in Found(xs, q)
    ensures LoggedBy(xs, q, n, d)
  {
    if n > q + 1 {
      LogInRuns(xs, q, n - 1, d);
      LogNext(xs, q, n - 1, d);
    } else {
      LogAdded(xs, q, d);
    }
  }
}
