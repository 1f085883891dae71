/**
 Per-peer statistics of one round: average, minimum, maximum, loss and the two
 path metrics, as `pfr_calc_avg_rtt` accumulates them.
 */
module Stats {
  import opened Tables

  /** The scratch variables of the accumulation loop. */
  datatype Acc = Acc(sum: real, cnt: nat, min: real, max: real, ts: int)

  const START := Acc(0.0, 0, CEILING, 0.0, 0)

  function Take(a: Acc, t: Tparm): Acc {
    Acc(a.sum + t.rtt, a.cnt + 1,
        if t.rtt < a.min then t.rtt else a.min,
        if t.rtt > a.max then t.rtt else a.max,
        t.timestamp)
  }

  /** The records of `m` under the keys `ks`, taken in that order. */
  function Fold(m: Seqs, ks: seq<nat>): Acc
    requires forall k :: k in ks ==> k in m
  {
    if ks == [] then START
    else Take(Fold(m, ks[..|ks| - 1]), m[ks[|ks| - 1]])
  }

  function Ceil(x: real): int { -(-x).Floor }

  /** An average kept to two decimals, rounded up. */
  function RoundedMean(sum: real, n: nat): real
    requires n > 0
  {
    Ceil(sum * 100.0 / n as real) as real / 100.0
  }

  function Metric1Of(minRtt: real, lost: int): real {
    minRtt + minRtt * lost as real
  }

  function StatsRecord(a: Acc, pingReq: int): Tparm {
    var avg := if a.cnt == 0 then 0.0 else RoundedMean(a.sum, a.cnt);
    var lost := pingReq - a.cnt;
    Tparm(0.0, avg, lost, a.ts, a.min, a.max, avg, Metric1Of(a.min, lost))
  }

  /** The statistics record of a peer whose replies are `m`. */
  function AggregateOf(m: Seqs, pingReq: int): Tparm {
    StatsRecord(Fold(m, SortedKeys(m.Keys)), pingReq)
  }

  function WithStats(m: Seqs, pingReq: int): Seqs { m[STATS := AggregateOf(m, pingReq)] }

  /** Every peer of one destination and round gets its statistics under 99. */
  function AggregatePeers(ps: Peers, pingReq: int): Peers {
    map q | q in ps :: WithStats(ps[q], pingReq)
  }

  /** The loop over one peer's replies in iteration order. */
  method Accumulate(m: Seqs, ks: seq<nat>)
    returns (currRtt: real, cntRtt: nat, mRtt: real, maxRtt: real, ts: int)
    requires forall k :: k in ks ==> k in m
    ensures Acc(currRtt, cntRtt, mRtt, maxRtt, ts) == Fold(m, ks)
  {
    currRtt, cntRtt, mRtt, maxRtt, ts := 0.0, 0, CEILING, 0.0, 0;
    for i := 0 to |ks|
      invariant Acc(currRtt, cntRtt, mRtt, maxRtt, ts) == Fold(m, ks[..i])
    {
      var rtt := m[ks[i]].rtt;
      assert ks[..i + 1][..i] == ks[..i];
      currRtt := currRtt + rtt;
      ts := m[ks[i]].timestamp;
      if rtt < mRtt {
        mRtt := rtt;
      }
      if rtt > maxRtt {
        maxRtt := rtt;
      }
      cntRtt := cntRtt + 1;
    }
    assert ks[..|ks|] == ks;
  }

  /** The statistics record of one peer, filled in field by field. */
  method Aggregate(m: Seqs, ks: seq<nat>, pingReq: int) returns (t: Tparm)
    requires ks != [] && forall k :: k in ks ==> k in m
    ensures t == StatsRecord(Fold(m, ks), pingReq)
  {
    var currRtt, cntRtt, mRtt, maxRtt, ts := Accumulate(m, ks);
    FoldBounds(m, ks);
    var avgRtt := RoundedMean(currRtt, cntRtt);
    t := NewTparm(0.0, avgRtt, pingReq - cntRtt, ts);
    t := t.(minRtt := mRtt, maxRtt := maxRtt);
    t := t.(metric0 := avgRtt);
    t := t.(metric1 := Metric1Of(mRtt, t.lost));
  }

  // ----- what the statistics mean -----

  /** The sum over a set of keys, whatever the order. */
  ghost function Sum(m: Seqs, s: set<nat>): real
    requires s <= m.Keys
    decreases |s|
  {
    if s == {} then 0.0
    else
      var k := MaxKey(s);
      Sum(m, s - {k}) + m[k].rtt
  }

  /** Any one record can be split off the sum. */
  lemma {:induction false} SumSplitsOff(m: Seqs, s: set<nat>, k: nat)
    requires s <= m.Keys && k in s
    ensures Sum(m, s) == Sum(m, s - {k}) + m[k].rtt
    decreases |s|
  {
    var top := MaxKey(s);
    if k != top {
      SumSplitsOff(m, s - {top}, k);
      assert s - {top} - {k} == s - {k} - {top};
      assert MaxKey(s - {k}) == top;
    }
  }

  lemma {:induction false} FoldSums(m: Seqs, s: set<nat>)
    requires s <= m.Keys
    ensures Fold(m, SortedKeys(s)).sum == Sum(m, s)
    decreases |s|
  {
    if s != {} {
      var top := MaxKey(s);
      FoldSums(m, s - {top});
      FoldAppend(m, SortedKeys(s - {top}), top);
    }
  }

  lemma FoldAppend(m: Seqs, ks: seq<nat>, k: nat)
    requires k in m && forall x :: x in ks ==> x in m
    ensures Fold(m, ks + [k]) == Take(Fold(m, ks), m[k])
  {
    assert (ks + [k])[..|ks|] == ks;
  }

  /** Count, minimum and maximum of the accumulation: bounds over every record, and
      attained unless the start value was never improved on. */
  lemma {:induction false} FoldBounds(m: Seqs, ks: seq<nat>)
    requires forall k :: k in ks ==> k in m
    ensures var a := Fold(m, ks);
      && a.cnt == |ks|
      && a.min <= CEILING && (a.min == CEILING || exists k :: k in ks && m[k].rtt == a.min)
      && 0.0 <= a.max && (a.max == 0.0 || exists k :: k in ks && m[k].rtt == a.max)
      && forall k :: k in ks ==> a.min <= m[k].rtt <= a.max
  {
    if ks != [] {
      FoldBounds(m, ks[..|ks| - 1]);
      assert ks == ks[..|ks| - 1] + [ks[|ks| - 1]];
    }
  }

  lemma RoundedMeanBounds(sum: real, n: nat)
    requires n > 0
    ensures sum / n as real <= RoundedMean(sum, n) < sum / n as real + 0.01
  {
    var x := sum * 100.0 / n as real;
    assert x <= Ceil(x) as real < x + 1.0;
    ScaleQuotient(sum, n as real);
  }

  lemma ScaleQuotient(a: real, b: real)
    requires b > 0.0
    ensures a * 100.0 / b == a / b * 100.0
  {
    var q := a / b;
    assert q * b == a;
    assert q * 100.0 * b == a * 100.0;
  }

  lemma {:induction false} BelowBound(s: set<nat>, n: nat)
    requires forall k :: k in s ==> k < n
    ensures |s| <= n
  {
    if n == 0 {
      assert s == {};
    } else {
      BelowBound(s - {n - 1}, n - 1);
      assert s <= (s - {n - 1}) + {n - 1};
    }
  }

  /** Replies to requests 0..pingReq-1 only, with times the accumulation can see. */
  ghost predicate Measured(m: Seqs, pingReq: nat) {
    && m != map[]
    && (forall k :: k in m ==> k < pingReq)
    && (forall k :: k in m ==> 0.0 <= m[k].rtt < CEILING)
  }

  /** Soundness of one peer's statistics. */
  lemma AggregateSound(m: Seqs, pingReq: nat)
    requires Measured(m, pingReq)
    ensures var t := AggregateOf(m, pingReq);
      && t.lost + |m| == pingReq && 0 <= t.lost
      && (exists k :: k in m && m[k].rtt == t.minRtt)
      && (forall k :: k in m ==> t.minRtt <= m[k].rtt <= t.maxRtt)
      && (t.maxRtt == 0.0 || exists k :: k in m && m[k].rtt == t.maxRtt)
      && var mean := Sum(m, m.Keys) / |m| as real;
         mean <= t.avgRtt < mean + 0.01
  {
    var a := Fold(m, SortedKeys(m.Keys));
    FoldBounds(m, SortedKeys(m.Keys));
    FoldSums(m, m.Keys);
    BelowBound(m.Keys, pingReq);
    assert |m.Keys| == |m|;
    var k := Inhabited(m.Keys);
    assert a.min <= m[k].rtt < CEILING;
    RoundedMeanBounds(a.sum, |m|);
  }

  // ----- every field of a statistics record -----

  function Hundredths(h: int): real { h as real / 100.0 }

  /** `x` is the least number of whole hundredths that is not below `mean`. */
  ghost predicate LeastHundredths(x: real, mean: real) {
    exists h :: x == Hundredths(h) && Hundredths(h - 1) < mean <= x
  }

  lemma HundredthsOf(mean: real, h: int)
    requires h == Ceil(mean * 100.0)
    ensures Hundredths(h - 1) < mean <= Hundredths(h)
  {
    assert (h - 1) as real < mean * 100.0 <= h as real;
  }

  lemma MeanInHundredths(sum: real, n: nat)
    requires n > 0
    ensures LeastHundredths(RoundedMean(sum, n), sum / n as real)
  {
    var x := sum * 100.0 / n as real;
    var h := Ceil(x);
    ScaleQuotient(sum, n as real);
    HundredthsOf(sum / n as real, h);
    assert RoundedMean(sum, n) == Hundredths(h);
  }

  /** The least time of `m`, or the ceiling if none is below it. */
  ghost predicate IsLeastTime(m: Seqs, x: real) {
    && x <= CEILING && (forall k :: k in m ==> x <= m[k].rtt)
    && (x == CEILING || exists k :: k in m && m[k].rtt == x)
  }

  /** The greatest time of `m`, or 0 if none is above it. */
  ghost predicate IsGreatestTime(m: Seqs, x: real) {
    && 0.0 <= x && (forall k :: k in m ==> m[k].rtt <= x)
    && (x == 0.0 || exists k :: k in m && m[k].rtt == x)
  }

  /** `t` is what a record of the replies `m` to `pingReq` requests should say. */
  ghost predicate IsStatistics(m: Seqs, pingReq: int, t: Tparm) {
    && m != map[] && t.rtt == 0.0
    && t.lost == pingReq - |m|
    && IsLeastTime(m, t.minRtt) && IsGreatestTime(m, t.maxRtt)
    && LeastHundredths(t.avgRtt, Sum(m, m.Keys) / |m| as real)
    && t.metric0 == t.avgRtt && t.metric1 == t.minRtt * (1.0 + t.lost as real)
    && t.timestamp == m[MaxKey(m.Keys)].timestamp
  }

  lemma LastTaken(m: Seqs)
    requires m != map[]
    ensures Fold(m, SortedKeys(m.Keys)).ts == m[MaxKey(m.Keys)].timestamp
  {
    var top := MaxKey(m.Keys);
    FoldAppend(m, SortedKeys(m.Keys - {top}), top);
  }

  lemma RecordIs(m: Seqs, pingReq: int, a: Acc)
    requires m != map[] && a.cnt == |m| && a.sum == Sum(m, m.Keys) && a.ts == m[MaxKey(m.Keys)].timestamp
    requires IsLeastTime(m, a.min) && IsGreatestTime(m, a.max)
    ensures IsStatistics(m, pingReq, StatsRecord(a, pingReq))
  {
    MeanInHundredths(a.sum, a.cnt);
    Metric1Factor(a.min, pingReq - a.cnt);
  }

  lemma FoldTimes(m: Seqs)
    ensures IsLeastTime(m, Fold(m, SortedKeys(m.Keys)).min) && IsGreatestTime(m, Fold(m, SortedKeys(m.Keys)).max)
    ensures Fold(m, SortedKeys(m.Keys)).cnt == |m|
  {
    FoldBounds(m, SortedKeys(m.Keys));
    assert |m.Keys| == |m|;
  }

  /** The statistics of any replies, early, late, lost or repeated. */
  lemma AggregateIs(m: Seqs, pingReq: int)
    requires m != map[]
    ensures IsStatistics(m, pingReq, AggregateOf(m, pingReq))
  {
    FoldTimes(m);
    FoldSums(m, m.Keys);
    LastTaken(m);
    RecordIs(m, pingReq, Fold(m, SortedKeys(m.Keys)));
  }

  lemma Metric1Factor(minRtt: real, lost: int)
    ensures Metric1Of(minRtt, lost) == minRtt * (1.0 + lost as real)
  {
  }

  /** `t'` is at least as good as `t` in minimum rtt and in loss, and better in one. */
  predicate Beaten(t: Tparm, t': Tparm) {
    && t'.minRtt <= t.minRtt && t'.lost <= t.lost
    && (t'.minRtt < t.minRtt || t'.lost < t.lost)
  }

  /** A peer is not beaten in minimum rtt and loss together by one of no lower metric1. */
  lemma Metric1Pareto(m: Seqs, m': Seqs, pingReq: nat)
    requires Measured(m, pingReq) && Measured(m', pingReq)
    requires forall k :: k in m' ==> 0.0 < m'[k].rtt
    ensures var t, t' := AggregateOf(m, pingReq), AggregateOf(m', pingReq);
      t.metric1 <= t'.metric1 ==> !Beaten(t, t')
  {
    Metric1Facts(m, pingReq);
    Metric1Facts(m', pingReq);
    var t, t' := AggregateOf(m, pingReq), AggregateOf(m', pingReq);
    if Beaten(t, t') {
      Metric1Grows(t'.minRtt, t'.lost, t.minRtt, t.lost);
    }
  }

  lemma RecordMetric1(a: Acc, pingReq: int)
    ensures var t := StatsRecord(a, pingReq); t.metric1 == Metric1Of(t.minRtt, t.lost)
  {
  }

  lemma Metric1Is(m: Seqs, pingReq: int)
    ensures var t := AggregateOf(m, pingReq); t.metric1 == Metric1Of(t.minRtt, t.lost)
  {
    RecordMetric1(Fold(m, SortedKeys(m.Keys)), pingReq);
  }

  lemma Metric1Facts(m: Seqs, pingReq: nat)
    requires Measured(m, pingReq)
    ensures var t := AggregateOf(m, pingReq);
      && t.metric1 == Metric1Of(t.minRtt, t.lost) && 0 <= t.lost
      && ((forall k :: k in m ==> 0.0 < m[k].rtt) ==> 0.0 < t.minRtt)
  {
    Metric1Is(m, pingReq);
    AggregateSound(m, pingReq);
  }

  lemma Metric1Grows(a: real, l: int, b: real, l': int)
    requires 0.0 < a <= b && 0 <= l <= l' && (a < b || l < l')
    ensures Metric1Of(a, l) < Metric1Of(b, l')
  {
    var c, d := l as real, l' as real;
    assert a * c <= b * d && (l < l' ==> a * c < b * d) by {
      MulMono(a, b, c);
      assert b * c <= b * d && (c < d ==> b * c < b * d) by { MulMono(c, d, b); }
    }
  }
}
