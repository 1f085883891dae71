/**
 The two decisions of `pfr_route_scan` for one destination: which peer measured
 best this round, and whether to leave the present peer for it.
 */
module Selection {
  import opened Tables

  // ----- best peer of the round -----

  function StatsOf(m: Seqs): Tparm {
    if STATS in m then m[STATS] else NewTparm(0.0, 0.0, 0, 0)
  }

  /** The value compared. A metric other than metric0 and metric1 is never read, so
      the comparison variable keeps its reset value. */
  function MetricOf(kind: PathMetric, m: Seqs): real {
    match kind
    case Metric0 => StatsOf(m).avgRtt
    case Metric1 => StatsOf(m).metric1
    case OtherMetric => 0.0
  }

  ghost predicate AnyBelow(kind: PathMetric, ps: Peers, ks: set<nat>)
    requires ks <= ps.Keys
  {
    exists q :: q in ks && MetricOf(kind, ps[q]) < CEILING
  }

  /** `peer` is the lowest-numbered peer of least metric among `ks`, and that metric
      is below the ceiling. */
  ghost predicate IsBest(kind: PathMetric, ps: Peers, ks: set<nat>, peer: nat)
    requires ks <= ps.Keys
  {
    && peer in ks
    && MetricOf(kind, ps[peer]) < CEILING
    && (forall q :: q in ks ==> MetricOf(kind, ps[peer]) <= MetricOf(kind, ps[q]))
    && (forall q :: q in ks && q < peer ==> MetricOf(kind, ps[peer]) < MetricOf(kind, ps[q]))
  }

  lemma {:induction false} BestExists(kind: PathMetric, ps: Peers, ks: set<nat>)
    requires ks <= ps.Keys
    requires AnyBelow(kind, ps, ks)
    ensures exists peer :: IsBest(kind, ps, ks, peer)
    decreases |ks|
  {
    var top := MaxKey(ks);
    var rest := ks - {top};
    if AnyBelow(kind, ps, rest) {
      BestExists(kind, ps, rest);
      var b :| IsBest(kind, ps, rest, b);
      if MetricOf(kind, ps[top]) < MetricOf(kind, ps[b]) {
        assert IsBest(kind, ps, ks, top);
      } else {
        assert IsBest(kind, ps, ks, b);
      }
    } else {
      assert IsBest(kind, ps, ks, top);
    }
  }

  lemma BestUnique(kind: PathMetric, ps: Peers, a: nat, b: nat)
    requires IsBest(kind, ps, ps.Keys, a) && IsBest(kind, ps, ps.Keys, b)
    ensures a == b
  {
  }

  /** The peer a round later than the first picks; 0 when no metric is below the
      ceiling. A peer numbered 0 reads as no answer even when it is best. */
  ghost function Best(kind: PathMetric, ps: Peers): (peer: nat)
    ensures AnyBelow(kind, ps, ps.Keys) ==> IsBest(kind, ps, ps.Keys, peer)
    ensures !AnyBelow(kind, ps, ps.Keys) ==> peer == 0
  {
    if AnyBelow(kind, ps, ps.Keys) then
      BestExists(kind, ps, ps.Keys);
      var peer: nat :| IsBest(kind, ps, ps.Keys, peer);
      peer
    else 0
  }

  /** Round 0 takes the first peer that answered, unmeasured. */
  ghost function Chosen(p: nat, kind: PathMetric, ps: Peers): nat {
    if p > 0 then Best(kind, ps)
    else if ps == map[] then 0 else SortedKeys(ps.Keys)[0]
  }

  /** The metric recorded with the chosen peer; 0 when there is none. */
  ghost function ChosenMetric(p: nat, kind: PathMetric, ps: Peers): real {
    var peer := Chosen(p, kind, ps);
    if peer == 0 || peer !in ps then 0.0
    else if p == 0 && kind == OtherMetric then CEILING
    else MetricOf(kind, ps[peer])
  }

  /** 0 is chosen in a later round exactly when no peer is below the ceiling of 50
      seconds, provided no peer is numbered 0. */
  lemma BestZeroIff(kind: PathMetric, ps: Peers)
    requires 0 !in ps
    ensures Best(kind, ps) == 0 <==> forall q :: q in ps ==> MetricOf(kind, ps[q]) >= 50000.0
  {
    if forall q :: q in ps ==> MetricOf(kind, ps[q]) >= CEILING {
      assert !AnyBelow(kind, ps, ps.Keys);
    } else {
      var q :| q in ps && MetricOf(kind, ps[q]) < CEILING;
      assert AnyBelow(kind, ps, ps.Keys);
    }
  }

  /** What the scratch variables hold once the peers `ks` are scanned. */
  ghost predicate ScannedSoFar(kind: PathMetric, ps: Peers, ks: set<nat>, minRtt: real, peer: nat)
    requires ks <= ps.Keys
  {
    if AnyBelow(kind, ps, ks)
    then IsBest(kind, ps, ks, peer) && minRtt == MetricOf(kind, ps[peer])
    else peer == 0 && minRtt == CEILING
  }

  lemma ScanStep(kind: PathMetric, ps: Peers, ks: set<nat>, minRtt: real, peer: nat, q: nat)
    requires ks <= ps.Keys && ScannedSoFar(kind, ps, ks, minRtt, peer)
    requires q in ps && forall x :: x in ks ==> x < q
    ensures var m := MetricOf(kind, ps[q]);
      if m < minRtt then ScannedSoFar(kind, ps, ks + {q}, m, q) else ScannedSoFar(kind, ps, ks + {q}, minRtt, peer)
  {
    var ks' := ks + {q};
    var m := MetricOf(kind, ps[q]);
    if m < minRtt {
      assert q in ks';
      assert AnyBelow(kind, ps, ks');
      assert IsBest(kind, ps, ks', q);
    } else if AnyBelow(kind, ps, ks) {
      assert peer in ks';
      assert AnyBelow(kind, ps, ks');
      assert IsBest(kind, ps, ks', peer);
    } else {
      assert forall x :: x in ks' ==> x in ks || x == q;
      assert !AnyBelow(kind, ps, ks');
    }
  }

  lemma ScanEnd(kind: PathMetric, ps: Peers, minRtt: real, peer: nat)
    requires ScannedSoFar(kind, ps, ps.Keys, minRtt, peer)
    ensures peer == Best(kind, ps)
    ensures peer != 0 ==> peer in ps && minRtt == MetricOf(kind, ps[peer])
  {
    if AnyBelow(kind, ps, ps.Keys) {
      BestUnique(kind, ps, peer, Best(kind, ps));
    }
  }

  /** The inner loop over the peers of one destination, in increasing peer number,
      on the scratch variables it shares with the outer loop. */
  method ScanPeers(kind: PathMetric, ps: Peers, minRtt0: real, currRtt0: real, peer0: nat)
    returns (minRtt: real, currRtt: real, peer: nat)
    requires minRtt0 == CEILING && currRtt0 == 0.0 && peer0 == 0
    requires forall q :: q in ps ==> STATS in ps[q]
    ensures peer == Best(kind, ps)
    ensures peer != 0 ==> peer in ps && minRtt == MetricOf(kind, ps[peer])
  {
    minRtt, currRtt, peer := minRtt0, currRtt0, peer0;
    var ks := SortedKeys(ps.Keys);
    VisitAll(ps.Keys);
    for i := 0 to |ks|
      invariant kind == OtherMetric ==> currRtt == 0.0
      invariant Visited(ks, i) <= ps.Keys
      invariant ScannedSoFar(kind, ps, Visited(ks, i), minRtt, peer)
    {
      VisitNext(ks, i);
      minRtt, currRtt, peer := ScanPeer(kind, ps, ks[i], minRtt, currRtt, peer, Visited(ks, i));
    }
    ScanEnd(kind, ps, minRtt, peer);
  }

  /** One peer. */
  method ScanPeer(kind: PathMetric, ps: Peers, q: nat, minRtt0: real, currRtt0: real, peer0: nat, ghost ks: set<nat>)
    returns (minRtt: real, currRtt: real, peer: nat)
    requires q in ps && STATS in ps[q] && (kind == OtherMetric ==> currRtt0 == 0.0)
    requires ks <= ps.Keys && ScannedSoFar(kind, ps, ks, minRtt0, peer0) && forall x :: x in ks ==> x < q
    ensures kind == OtherMetric ==> currRtt == 0.0
    ensures ScannedSoFar(kind, ps, ks + {q}, minRtt, peer)
  {
    minRtt, currRtt, peer := minRtt0, currRtt0, peer0;
    if kind == Metric0 {
      currRtt := ps[q][STATS].avgRtt;
    } else if kind == Metric1 {
      currRtt := ps[q][STATS].metric1;
    }
    ScanStep(kind, ps, ks, minRtt, peer, q);
    if currRtt < minRtt {
      minRtt := currRtt;
      peer := q;
    }
  }

  // ----- move or stay -----

  /** The least-move test: the recorded metric exceeds the new one by more than
      `thresh` percent of the new one. */
  predicate Beats(thresh: int, recorded: real, latest: real) {
    recorded - latest * (thresh as real / 100.0) > latest
  }

  /** The entry of a round for a destination whose best peer is `peer` (0: silent)
      with metric `m`, given the entry of the round before if there is one. */
  function Decide(cfg: Config, prev: Option<RtParm>, peer: nat, m: real): RtParm {
    match prev
    case None => RtParm(0, m, peer, m)
    case Some(e) =>
      if peer == 0 then
        RtParm(e.currPeer, e.currMetric, e.currPeer, m)
      else if cfg.leastMove && !Beats(cfg.leastThresh, e.currMetric, m) then
        RtParm(e.currPeer, e.currMetric, e.currPeer, e.currMetric)
      else
        RtParm(e.currPeer, e.currMetric, peer, m)
  }

  /** Every entry names the peer of the entry before it, and an entry without a
      peer follows one without a peer. */
  lemma DecideLinks(cfg: Config, prev: Option<RtParm>, peer: nat, m: real)
    ensures var e := Decide(cfg, prev, peer, m);
      && e.prevPeer == (if prev.Some? then prev.value.currPeer else 0)
      && (e.currPeer == 0 ==> e.prevPeer == 0)
  {
  }
}
