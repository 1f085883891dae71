/**
 What the chosen peer of a round is worth, from its replies to the choice.
 */
module PathChoice {
  import opened Tables
  import opened Stats
  import opened Selection

  /** Each peer answered some of the round's requests, with positive times. */
  ghost predicate AllMeasured(ps: Peers, pingReq: nat) {
    forall q :: q in ps ==> Measured(ps[q], pingReq) && forall k :: k in ps[q] ==> 0.0 < ps[q][k].rtt
  }

  /** Under metric1 no peer of the round beats the chosen one in minimum rtt and loss
      together. */
  lemma ChosenNotBeaten(ps: Peers, pingReq: nat, best: nat, q: nat)
    requires AllMeasured(ps, pingReq) && best in ps && q in ps
    ensures best == Best(Metric1, AggregatePeers(ps, pingReq)) && best != 0 ==>
              !Beaten(AggregateOf(ps[best], pingReq), AggregateOf(ps[q], pingReq))
  {
    if best == Best(Metric1, AggregatePeers(ps, pingReq)) && best != 0 {
      BestMetric(Metric1, AggregatePeers(ps, pingReq), best, q);
    }
    Metric1Pareto(ps[best], ps[q], pingReq);
  }

  /** Under metric0 the chosen peer has the least mean rtt of the round, to a hundredth
      of a millisecond. */
  lemma ChosenNearFastest(ps: Peers, pingReq: nat, best: nat, q: nat)
    requires AllMeasured(ps, pingReq) && best in ps && q in ps
    ensures best == Best(Metric0, AggregatePeers(ps, pingReq)) && best != 0 ==>
              Mean(ps[best]) < Mean(ps[q]) + 0.01
  {
    MeanBounds(ps[best], pingReq);
    MeanBounds(ps[q], pingReq);
    if best == Best(Metric0, AggregatePeers(ps, pingReq)) && best != 0 {
      BestMetric(Metric0, AggregatePeers(ps, pingReq), best, q);
    }
  }

  lemma BestMetric(kind: PathMetric, all: Peers, best: nat, q: nat)
    requires best == Best(kind, all) && best != 0 && best in all && q in all
    ensures MetricOf(kind, all[best]) <= MetricOf(kind, all[q])
  {
  }

  ghost function Mean(m: Seqs): real
    requires m != map[]
  {
    assert |m| > 0;
    Sum(m, m.Keys) / |m| as real
  }

  lemma MeanBounds(m: Seqs, pingReq: nat)
    requires Measured(m, pingReq)
    ensures STATS in WithStats(m, pingReq)
    ensures Mean(m) <= WithStats(m, pingReq)[STATS].avgRtt < Mean(m) + 0.01
  {
    AggregateSound(m, pingReq);
  }
}
