/**
 The least-move rule over a whole stay of a destination in the routing table: how
 often it can move, and how far the recorded metric can be from the best one.
 */
module Hysteresis {
  import opened Tables
  import opened Selection

  /** What a round saw: the best peer (0: silent) and its metric. */
  datatype Seen = Seen(peer: nat, metric: real)

  /** The entries `es` of consecutive rounds, each decided from the one before and
      what its round saw, with the least-move rule on and threshold `t` percent. */
  ghost predicate Stay(t: int, cfgs: seq<Config>, es: seq<RtParm>, os: seq<Seen>) {
    && |es| == |os| + 1 == |cfgs| + 1
    && forall i :: 0 <= i < |os| ==>
         && cfgs[i].leastMove && cfgs[i].leastThresh == t
         && es[i + 1] == Decide(cfgs[i], Some(es[i]), os[i].peer, os[i].metric)
  }

  /** Silent rounds see metric 0, answered ones at least `L`. */
  ghost predicate AtLeast(L: real, os: seq<Seen>) {
    SilentZero(os) && forall i :: 0 <= i < |os| && os[i].peer != 0 ==> os[i].metric >= L
  }

  ghost predicate SilentZero(os: seq<Seen>) {
    forall i :: 0 <= i < |os| && os[i].peer == 0 ==> os[i].metric == 0.0
  }

  ghost predicate NoSilence(os: seq<Seen>) {
    forall i :: 0 <= i < |os| ==> os[i].peer != 0
  }

  function Factor(t: int): real { 1.0 + t as real / 100.0 }

  predicate MovesAt(t: int, e: RtParm, o: Seen) {
    o.peer != 0 && Beats(t, e.currMetric, o.metric)
  }

  /** Rounds in which the rule moved the destination. */
  ghost function Moves(t: int, es: seq<RtParm>, os: seq<Seen>): nat
    requires |es| == |os| + 1
  {
    if os == [] then 0
    else
      var n := |os| - 1;
      Moves(t, es[..n + 1], os[..n]) + if MovesAt(t, es[n], os[n]) then 1 else 0
  }

  /** Rounds that changed the current peer. */
  ghost function PeerChanges(es: seq<RtParm>): nat {
    if |es| <= 1 then 0
    else
      var n := |es| - 1;
      PeerChanges(es[..n]) + if es[n].currPeer != es[n - 1].currPeer then 1 else 0
  }

  function Pow(b: real, k: nat): real { if k == 0 then 1.0 else b * Pow(b, k - 1) }

  // ----- the rule -----

  /** A move happens exactly when the recorded metric exceeds the new one by the
      factor. */
  lemma BeatsIff(t: int, recorded: real, latest: real)
    ensures Beats(t, recorded, latest) <==> Factor(t) * latest < recorded
  {
    assert Factor(t) * latest == latest + latest * (t as real / 100.0);
  }

  lemma {:induction false} PowPositive(b: real, k: nat)
    requires 0.0 < b
    ensures 0.0 < Pow(b, k)
  {
    if k > 0 {
      PowPositive(b, k - 1);
    }
  }

  lemma {:induction false} Bernoulli(x: real, k: nat)
    requires 0.0 <= x
    ensures Pow(1.0 + x, k) >= 1.0 + k as real * x
  {
    if k > 0 {
      Bernoulli(x, k - 1);
      BernoulliStep(x, (k - 1) as real, Pow(1.0 + x, k - 1));
    }
  }

  lemma BernoulliStep(x: real, j: real, z: real)
    requires 0.0 <= x && 0.0 <= j && z >= 1.0 + j * x
    ensures (1.0 + x) * z >= 1.0 + (j + 1.0) * x
  {
    MulMono(0.0, j, x);
    MulMono(0.0, j * x, x);
    MulMono(1.0 + j * x, z, 1.0 + x);
    assert (1.0 + j * x) * (1.0 + x) == 1.0 + j * x + x + j * x * x;
    assert (j + 1.0) * x == j * x + x;
  }

  /** Where the recorded metric stands after `k` moves from entry metric `e0`: it has
      shrunk by the factor each time, or a silent round has set it to 0 for good. */
  ghost predicate Shrunk(t: int, L: real, e0: real, k: nat, metric: real) {
    || (metric >= L && Pow(Factor(t), k) * metric <= e0 && (k > 0 ==> Pow(Factor(t), k) * metric < e0))
    || (metric == 0.0 && (k > 0 ==> Pow(Factor(t), k) * L < e0))
  }

  lemma ShrunkMove(t: int, L: real, e0: real, k: nat, metric: real, latest: real)
    requires t > 0 && 0.0 < L <= latest && Shrunk(t, L, e0, k, metric) && Beats(t, metric, latest)
    ensures Shrunk(t, L, e0, k + 1, latest)
    ensures latest < metric
  {
    var f := Factor(t);
    BeatsIff(t, metric, latest);
    MulMono(1.0, f, latest);
    PowPositive(f, k);
    MulMono(f * latest, metric, Pow(f, k));
    assert Pow(f, k + 1) * latest == (f * latest) * Pow(f, k);
  }

  lemma ShrunkSilent(t: int, L: real, e0: real, k: nat, metric: real)
    requires t > 0 && 0.0 < L && Shrunk(t, L, e0, k, metric)
    ensures Shrunk(t, L, e0, k, 0.0)
  {
    PowPositive(Factor(t), k);
    if metric >= L {
      MulMono(L, metric, Pow(Factor(t), k));
    }
  }

  /** Over a stay: the recorded metric never rises, and it shrinks by the factor with
      every move. */
  lemma {:induction false} StayShrinks(t: int, L: real, cfgs: seq<Config>, es: seq<RtParm>, os: seq<Seen>)
    requires t > 0 && 0.0 < L && Stay(t, cfgs, es, os) && AtLeast(L, os)
    requires es[0].currMetric >= L || es[0].currMetric == 0.0
    ensures Shrunk(t, L, es[0].currMetric, Moves(t, es, os), es[|os|].currMetric)
    ensures os != [] ==> es[|os|].currMetric <= es[|os| - 1].currMetric
  {
    if os != [] {
      var n := |os| - 1;
      StayShrinks(t, L, cfgs[..n], es[..n + 1], os[..n]);
      assert es[n + 1] == Decide(cfgs[n], Some(es[n]), os[n].peer, os[n].metric);
      var k := Moves(t, es[..n + 1], os[..n]);
      ShrinkStep(t, L, es[0].currMetric, k, cfgs[n], es[n], os[n]);
    }
  }

  lemma ShrinkStep(t: int, L: real, e0: real, k: nat, cfg: Config, e: RtParm, o: Seen)
    requires t > 0 && 0.0 < L && Shrunk(t, L, e0, k, e.currMetric)
    requires cfg.leastMove && cfg.leastThresh == t
    requires if o.peer == 0 then o.metric == 0.0 else o.metric >= L
    ensures var e' := Decide(cfg, Some(e), o.peer, o.metric);
      && e'.currMetric <= e.currMetric
      && Shrunk(t, L, e0, k + if MovesAt(t, e, o) then 1 else 0, e'.currMetric)
  {
    if o.peer == 0 {
      ShrunkSilent(t, L, e0, k, e.currMetric);
    } else if Beats(t, e.currMetric, o.metric) {
      ShrunkMove(t, L, e0, k, e.currMetric, o.metric);
    }
  }

  /** `k` moves are within what the entry metric `e0` allows. */
  ghost predicate WithinBound(t: int, L: real, e0: real, k: nat) {
    k > 0 ==> Allowed(t, L, e0, k)
  }

  ghost predicate Allowed(t: int, L: real, e0: real, k: nat) {
    Pow(Factor(t), k) * L < e0 && k as real * t as real * L < 100.0 * (e0 - L)
  }

  lemma ShrunkBound(t: int, L: real, e0: real, k: nat, metric: real)
    requires t > 0 && 0.0 < L && Shrunk(t, L, e0, k, metric)
    ensures WithinBound(t, L, e0, k)
  {
    if k > 0 {
      ShrunkSilent(t, L, e0, k, metric);
      LinearBound(t, L, k, e0);
    }
  }

  /** Bounded flapping: k moves need an entry metric above (1 + t/100)^k * L, whatever
      the length of the stay and however many rounds are silent. */
  lemma FlapBound(t: int, L: real, cfgs: seq<Config>, es: seq<RtParm>, os: seq<Seen>)
    requires t > 0 && 0.0 < L && Stay(t, cfgs, es, os) && AtLeast(L, os)
    requires es[0].currMetric >= L || es[0].currMetric == 0.0
    ensures WithinBound(t, L, es[0].currMetric, Moves(t, es, os))
    ensures PeerChanges(es) <= Moves(t, es, os)
  {
    StayShrinks(t, L, cfgs, es, os);
    PeerChangesAreMoves(t, cfgs, es, os);
    ShrunkBound(t, L, es[0].currMetric, Moves(t, es, os), es[|os|].currMetric);
  }

  /** The peer changes are within what the entry metric allows. */
  ghost predicate FlapsWithin(t: int, L: real, es: seq<RtParm>)
    requires es != []
  {
    WithinBound(t, L, es[0].currMetric, PeerChanges(es))
  }

  ghost predicate NeverRises(es: seq<RtParm>) {
    forall i :: 0 <= i < |es| - 1 ==> es[i + 1].currMetric <= es[i].currMetric
  }

  lemma {:induction false} MetricNeverRises(t: int, L: real, cfgs: seq<Config>, es: seq<RtParm>, os: seq<Seen>)
    requires t > 0 && 0.0 < L && Stay(t, cfgs, es, os) && AtLeast(L, os)
    requires es[0].currMetric >= L || es[0].currMetric == 0.0
    ensures NeverRises(es)
  {
    if os != [] {
      var n := |os| - 1;
      MetricNeverRises(t, L, cfgs[..n], es[..n + 1], os[..n]);
      StayShrinks(t, L, cfgs, es, os);
      assert forall i :: 0 <= i <= n ==> es[i] == es[..n + 1][i];
    }
  }

  lemma FewChanges(t: int, L: real, cfgs: seq<Config>, es: seq<RtParm>, os: seq<Seen>)
    requires t > 0 && 0.0 < L && Stay(t, cfgs, es, os) && AtLeast(L, os)
    requires es[0].currMetric >= L || es[0].currMetric == 0.0
    ensures FlapsWithin(t, L, es)
  {
    FlapBound(t, L, cfgs, es, os);
    FewerWithin(t, L, es[0].currMetric, PeerChanges(es), Moves(t, es, os));
  }

  lemma {:induction false} PowGrows(b: real, c: nat, k: nat)
    requires 1.0 <= b && c <= k
    ensures 0.0 < Pow(b, c) <= Pow(b, k)
  {
    PowPositive(b, c);
    if c < k {
      PowGrows(b, c, k - 1);
      MulMono(1.0, b, Pow(b, k - 1));
    }
  }

  lemma FewerPowers(t: int, L: real, e0: real, c: nat, k: nat)
    requires t > 0 && 0.0 < L && c <= k && Pow(Factor(t), k) * L < e0
    ensures Pow(Factor(t), c) * L < e0
  {
    PowGrows(Factor(t), c, k);
    MulMono(Pow(Factor(t), c), Pow(Factor(t), k), L);
  }

  lemma FewerWithin(t: int, L: real, e0: real, c: nat, k: nat)
    requires t > 0 && 0.0 < L && c <= k && WithinBound(t, L, e0, k)
    ensures WithinBound(t, L, e0, c)
  {
    if c > 0 {
      FewerBoth(t, L, e0, c, k);
    }
  }

  lemma FewerBoth(t: int, L: real, e0: real, c: nat, k: nat)
    requires t > 0 && 0.0 < L && c <= k && Allowed(t, L, e0, k)
    ensures Allowed(t, L, e0, c)
  {
    FewerPowers(t, L, e0, c, k);
    FewerToo(t, L, e0, c, k);
  }

  lemma FewerToo(t: int, L: real, e0: real, c: nat, k: nat)
    requires t > 0 && 0.0 < L && c <= k && k as real * t as real * L < 100.0 * (e0 - L)
    ensures c as real * t as real * L < 100.0 * (e0 - L)
  {
    ScaleDown(c, k, t as real, L, 100.0 * (e0 - L));
  }

  lemma ScaleDown(c: nat, k: nat, t: real, L: real, bound: real)
    requires c <= k && 0.0 <= t && 0.0 <= L && k as real * t * L < bound
    ensures c as real * t * L < bound
  {
    MulMono(c as real, k as real, t);
    MulMono(c as real * t, k as real * t, L);
  }

  lemma LinearBound(t: int, L: real, k: nat, e0: real)
    requires t > 0 && 0.0 < L && Pow(Factor(t), k) * L < e0
    ensures k as real * t as real * L < 100.0 * (e0 - L)
  {
    var x := t as real / 100.0;
    Bernoulli(x, k);
    MulMono(1.0 + k as real * x, Pow(Factor(t), k), L);
    assert k as real * x * 100.0 == k as real * t as real;
    assert (1.0 + k as real * x) * L == L + k as real * x * L;
    assert 100.0 * (k as real * x * L) == (k as real * x * 100.0) * L;
  }

  lemma {:induction false} PeerChangesAreMoves(t: int, cfgs: seq<Config>, es: seq<RtParm>, os: seq<Seen>)
    requires Stay(t, cfgs, es, os)
    ensures PeerChanges(es) <= Moves(t, es, os)
  {
    if os != [] {
      var n := |os| - 1;
      PeerChangesAreMoves(t, cfgs[..n], es[..n + 1], os[..n]);
      assert es[n + 1] == Decide(cfgs[n], Some(es[n]), os[n].peer, os[n].metric);
    }
  }

  // ----- competitiveness -----

  /** The least of the entry metric and every later best metric. */
  ghost function Least(e0: real, os: seq<Seen>): real {
    if os == [] then e0
    else
      var m := Least(e0, os[..|os| - 1]);
      var o := os[|os| - 1].metric;
      if o < m then o else m
  }

  ghost predicate TracksLeast(t: int, es: seq<RtParm>, os: seq<Seen>)
    requires |es| == |os| + 1
  {
    NearLeast(t, Least(es[0].currMetric, os), es[|os|].currMetric)
  }

  ghost predicate NearLeast(t: int, m: real, metric: real) {
    0.0 <= m <= metric <= Factor(t) * m
  }

  /** In a stay without silent rounds the recorded metric is never below the least
      metric seen and never above it by more than the threshold. */
  lemma {:induction false} Competitive(t: int, cfgs: seq<Config>, es: seq<RtParm>, os: seq<Seen>)
    requires t >= 0 && Stay(t, cfgs, es, os)
    requires es[0].currMetric >= 0.0
    requires AtLeast(0.0, os) && NoSilence(os)
    ensures TracksLeast(t, es, os)
  {
    if os == [] {
      NearItself(t, es[0].currMetric);
    } else {
      var n := |os| - 1;
      Competitive(t, cfgs[..n], es[..n + 1], os[..n]);
      assert es[n + 1] == Decide(cfgs[n], Some(es[n]), os[n].peer, os[n].metric);
      CompetitiveStep(t, Least(es[0].currMetric, os[..n]), cfgs[n], es[n], os[n]);
    }
  }

  lemma NearItself(t: int, m: real)
    requires t >= 0 && m >= 0.0
    ensures NearLeast(t, m, m)
  {
    MulMono(1.0, Factor(t), m);
  }

  lemma CompetitiveStep(t: int, m: real, cfg: Config, e: RtParm, o: Seen)
    requires t >= 0 && NearLeast(t, m, e.currMetric)
    requires cfg.leastMove && cfg.leastThresh == t && o.peer != 0 && 0.0 <= o.metric
    ensures var m' := if o.metric < m then o.metric else m;
      NearLeast(t, m', Decide(cfg, Some(e), o.peer, o.metric).currMetric)
  {
    var f := Factor(t);
    BeatsIff(t, e.currMetric, o.metric);
    MulMono(1.0, f, o.metric);
    if m <= o.metric {
      MulMono(m, o.metric, f);
    }
  }

  // ----- silence -----

  /** A recorded metric of 0 is never beaten: the destination keeps its peer through
      every later round, however good the paths. A silent round records 0, and so does
      a first round without an answer, where the peer kept is none at all. */
  lemma {:induction false} StuckAtZero(t: int, cfgs: seq<Config>, es: seq<RtParm>, os: seq<Seen>)
    requires t >= 0 && Stay(t, cfgs, es, os) && AtLeast(0.0, os)
    requires es[0].currMetric == 0.0
    ensures NeverMoves(es)
  {
    if os != [] {
      var n := |os| - 1;
      assert es[n + 1] == Decide(cfgs[n], Some(es[n]), os[n].peer, os[n].metric);
      StuckAtZero(t, cfgs[..n], es[..n + 1], os[..n]);
      assert forall i :: 0 <= i <= n ==> es[i] == es[..n + 1][i];
      if os[n].peer != 0 {
        BeatsIff(t, 0.0, os[n].metric);
        MulMono(0.0, Factor(t), os[n].metric);
      }
    }
  }

  ghost predicate NeverMoves(es: seq<RtParm>) {
    forall i :: 0 <= i < |es| ==> es[i].currPeer == es[0].currPeer && es[i].currMetric == 0.0
  }

  /** A silent round keeps the peer and records 0, and no later round of the stay moves
      the destination. */
  lemma StuckAfterSilence(t: int, cfgs: seq<Config>, es: seq<RtParm>, os: seq<Seen>, i: nat)
    requires t >= 0 && Stay(t, cfgs, es, os) && AtLeast(0.0, os)
    requires i < |os| && os[i].peer == 0
    ensures es[i + 1].currPeer == es[i].currPeer && NeverMoves(es[i + 1..])
  {
    assert es[i + 1] == Decide(cfgs[i], Some(es[i]), os[i].peer, os[i].metric);
    StuckAtZero(t, cfgs[i + 1..], es[i + 1..], os[i + 1..]);
  }

  /** With the rule on, a listed destination takes over the best peer of a round
      exactly when it is already there or the recorded metric is beaten by the factor;
      after silence, and for an entry without a peer, it is neither. */
  lemma FollowsBestIff(cfg: Config, e: RtParm, peer: nat, m: real)
    requires cfg.leastMove && peer != 0
    ensures Decide(cfg, Some(e), peer, m).currPeer == peer <==>
            e.currPeer == peer || Factor(cfg.leastThresh) * m < e.currMetric
  {
    BeatsIff(cfg.leastThresh, e.currMetric, m);
  }
}
