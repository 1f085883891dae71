/**
 The least-move results for destinations of whole runs: a destination that is in the
 routing table after each of the rounds a..b makes a stay.
 */
module Stays {
  import opened Tables
  import opened Selection
  import opened Phases
  import opened Runs
  import opened RibAgreement
  import opened Silence
  import opened Hysteresis

  ghost predicate RoutedAfter(xs: seq<RoundInput>, q: nat, d: Dst)
    requires q < |xs|
  {
    xs[q].acked && !xs[q].shutdown && HasEntry(After(xs[..q + 1]).route, d, q)
  }

  /** The entry of round `q` for `d`, if there is one. */
  ghost function EntryIn(xs: seq<RoundInput>, q: nat, d: Dst): RtParm
    requires q < |xs|
  {
    EntryAt(After(xs[..q + 1]).route, q, d)
  }

  function EntryAt(route: RouteTable, q: int, d: Dst): RtParm {
    if d in route && q in route[d] then route[d][q] else RtParm(0, 0.0, 0, 0.0)
  }

  /** What round `q` saw of `d`. */
  ghost function SeenIn(xs: seq<RoundInput>, q: nat, d: Dst): Seen
    requires q < |xs|
  {
    if ScannedIn(xs, q, d) then
      var ps := GetOrEmpty(AtScan(After(xs[..q]), q, xs[q]).r[d], q);
      Seen(Chosen(q, xs[q].cfg.metric, ps), ChosenMetric(q, xs[q].cfg.metric, ps))
    else Seen(0, 0.0)
  }

  /** `d` stays from round `a` to round `b`, with the least-move rule on and the same
      threshold in every round after `a`. */
  ghost predicate StaysIn(xs: seq<RoundInput>, a: nat, b: nat, d: Dst, t: int) {
    && a <= b < |xs|
    && (forall q: nat :: a <= q <= b ==> RoutedAfter(xs, q, d))
    && (forall q :: a < q <= b ==> xs[q].cfg.leastMove && xs[q].cfg.leastThresh == t)
  }

  ghost function EntriesIn(xs: seq<RoundInput>, a: nat, b: nat, d: Dst): seq<RtParm>
    requires a <= b < |xs|
  {
    seq(b - a + 1, i requires 0 <= i < b - a + 1 => EntryIn(xs, a + i, d))
  }

  ghost function SightsIn(xs: seq<RoundInput>, a: nat, b: nat, d: Dst): seq<Seen>
    requires a <= b < |xs|
  {
    seq(b - a, i requires 0 <= i < b - a => SeenIn(xs, a + 1 + i, d))
  }

  ghost function ConfigsIn(xs: seq<RoundInput>, a: nat, b: nat): seq<Config>
    requires a <= b < |xs|
  {
    seq(b - a, i requires 0 <= i < b - a => xs[a + 1 + i].cfg)
  }

  /** A destination routed after two rounds in a row is decided from its own entry. */
  lemma StayStep(s: State, p: nat, x: RoundInput, d: Dst)
    requires Shape(s, p) && p > 0 && Legal(s, x)
    requires HasEntry(s.route, d, p - 1) && d in BeforeAdvertise(s, p, x).route
    ensures var a := AtScan(s, p, x);
      && d in a.r
      && BeforeAdvertise(s, p, x).route[d].Keys >= {p as int}
      && BeforeAdvertise(s, p, x).route[d][p] ==
         Decide(x.cfg, Some(s.route[d][p - 1]), Chosen(p, x.cfg.metric, GetOrEmpty(a.r[d], p)),
                ChosenMetric(p, x.cfg.metric, GetOrEmpty(a.r[d], p)))
  {
    var a := AtScan(s, p, x);
    AtScanAt(s, p, x, d);
    AtScanShape(s, p, x);
    StayScan(a, p, x.cfg, d);
  }

  lemma StayScan(a: State, p: nat, cfg: Config, d: Dst)
    requires Shape(a, p) && p > 0
    requires HasEntry(a.route, d, p - 1)
    ensures var f := Freed(Scanned(a, p, cfg), p);
      && HasEntry(f.route, d, p)
      && f.route[d][p] == Decide(cfg, Some(a.route[d][p - 1]), Chosen(p, cfg.metric, GetOrEmpty(a.r[d], p)),
                                 ChosenMetric(p, cfg.metric, GetOrEmpty(a.r[d], p)))
  {
    NewEntriesKeys(a, p, cfg);
    var es, ls := NewEntries(a, p, cfg), NewLogs(a, p, cfg);
    RecordedEntry(a, p, es, ls, d);
    FreedEntry(Recorded(a, p, es, ls), p, d);
  }

  lemma RunStayStep(xs: seq<RoundInput>, q: nat, d: Dst)
    requires IsRun(xs) && q + 1 < |xs|
    requires RoutedAfter(xs, q, d) && RoutedAfter(xs, q + 1, d)
    ensures var o := SeenIn(xs, q + 1, d);
      EntryIn(xs, q + 1, d) == Decide(xs[q + 1].cfg, Some(EntryIn(xs, q, d)), o.peer, o.metric)
  {
    var s, x := After(xs[..q + 1]), xs[q + 1];
    assert LegalAt(xs, q + 1);
    RunShape(xs[..q + 1]);
    AfterNext(xs, q + 1);
    StepRoute(s, q + 1, x);
    StayStep(s, q + 1, x, d);
  }

  lemma RunStayAt(xs: seq<RoundInput>, a: nat, b: nat, d: Dst, t: int, q: nat, cfg: Config, e: RtParm, e': RtParm,
                  o: Seen)
    requires IsRun(xs) && StaysIn(xs, a, b, d, t) && a <= q < b
    requires cfg == xs[q + 1].cfg && e == EntryIn(xs, q, d) && e' == EntryIn(xs, q + 1, d) && o == SeenIn(xs, q + 1, d)
    ensures cfg.leastMove && cfg.leastThresh == t && e' == Decide(cfg, Some(e), o.peer, o.metric)
  {
    assert RoutedAfter(xs, q, d) && RoutedAfter(xs, q + 1, d);
    RunStayStep(xs, q, d);
  }

  lemma RunStay(xs: seq<RoundInput>, a: nat, b: nat, d: Dst, t: int)
    requires IsRun(xs) && StaysIn(xs, a, b, d, t)
    ensures Stay(t, ConfigsIn(xs, a, b), EntriesIn(xs, a, b, d), SightsIn(xs, a, b, d))
  {
    var cfgs, es, os := ConfigsIn(xs, a, b), EntriesIn(xs, a, b, d), SightsIn(xs, a, b, d);
    forall i | 0 <= i < |os|
      ensures cfgs[i].leastMove && cfgs[i].leastThresh == t
      ensures es[i + 1] == Decide(cfgs[i], Some(es[i]), os[i].peer, os[i].metric)
    {
      assert a + (i + 1) == a + i + 1;
      RunStayAt(xs, a, b, d, t, a + i, cfgs[i], es[i], es[i + 1], os[i]);
    }
  }

  lemma SilentRounds(xs: seq<RoundInput>, a: nat, b: nat, d: Dst)
    requires a <= b < |xs|
    ensures SilentZero(SightsIn(xs, a, b, d))
  {
    forall i | 0 <= i < b - a && SightsIn(xs, a, b, d)[i].peer == 0
      ensures SightsIn(xs, a, b, d)[i].metric == 0.0
    {
      assert SightsIn(xs, a, b, d)[i] == SeenIn(xs, a + 1 + i, d);
    }
  }

  /** Every round of a+1..b that got an answer from `d` measured at least `L`. */
  ghost predicate MeasuresAtLeast(xs: seq<RoundInput>, a: nat, b: nat, d: Dst, L: real)
    requires a <= b < |xs|
  {
    var os := SightsIn(xs, a, b, d);
    forall i :: 0 <= i < |os| && os[i].peer != 0 ==> os[i].metric >= L
  }

  /** In every run, for a destination that stays in the table from round `a` to round `b`
      under one threshold t > 0, with every answered metric at least L > 0, however long
      the stay and however many rounds are silent: the recorded metric never rises, and c
      peer changes imply (1 + t/100)^c * L < entry and c * t * L < 100 * (entry - L). */
  lemma FlapBoundInRuns(xs: seq<RoundInput>, a: nat, b: nat, d: Dst, t: int, L: real)
    requires IsRun(xs) && StaysIn(xs, a, b, d, t) && t > 0 && 0.0 < L
    requires MeasuresAtLeast(xs, a, b, d, L)
    requires EntriesIn(xs, a, b, d)[0].currMetric >= L || EntriesIn(xs, a, b, d)[0].currMetric == 0.0
    ensures FlapsWithin(t, L, EntriesIn(xs, a, b, d)) && NeverRises(EntriesIn(xs, a, b, d))
  {
    RunStay(xs, a, b, d, t);
    SilentRounds(xs, a, b, d);
    MetricNeverRises(t, L, ConfigsIn(xs, a, b), EntriesIn(xs, a, b, d), SightsIn(xs, a, b, d));
    FewChanges(t, L, ConfigsIn(xs, a, b), EntriesIn(xs, a, b, d), SightsIn(xs, a, b, d));
  }

  /** In every run, over a stay without silent rounds: the recorded metric is at least
      the least metric seen since the entry, and at most (1 + t/100) times it. */
  lemma CompetitiveInRuns(xs: seq<RoundInput>, a: nat, b: nat, d: Dst, t: int)
    requires IsRun(xs) && StaysIn(xs, a, b, d, t) && t >= 0
    requires MeasuresAtLeast(xs, a, b, d, 0.0) && NoSilence(SightsIn(xs, a, b, d))
    requires EntriesIn(xs, a, b, d)[0].currMetric >= 0.0
    ensures TracksLeast(t, EntriesIn(xs, a, b, d), SightsIn(xs, a, b, d))
  {
    RunStay(xs, a, b, d, t);
    SilentRounds(xs, a, b, d);
    Competitive(t, ConfigsIn(xs, a, b), EntriesIn(xs, a, b, d), SightsIn(xs, a, b, d));
  }

  /** In every run, a destination with metric 0 recorded, as a silent round leaves it,
      keeps its peer to the end of the stay. */
  lemma StuckInRuns(xs: seq<RoundInput>, a: nat, b: nat, d: Dst, t: int)
    requires IsRun(xs) && StaysIn(xs, a, b, d, t) && t >= 0
    requires MeasuresAtLeast(xs, a, b, d, 0.0)
    requires EntriesIn(xs, a, b, d)[0].currMetric == 0.0
    ensures NeverMoves(EntriesIn(xs, a, b, d))
  {
    RunStay(xs, a, b, d, t);
    SilentRounds(xs, a, b, d);
    StuckAtZero(t, ConfigsIn(xs, a, b), EntriesIn(xs, a, b, d), SightsIn(xs, a, b, d));
  }

  /** In every run, a silent round of a stay keeps the peer, and no later round of the
      stay changes it, however good the paths. */
  lemma StuckAfterSilenceInRuns(xs: seq<RoundInput>, a: nat, b: nat, d: Dst, t: int, i: nat)
    requires IsRun(xs) && StaysIn(xs, a, b, d, t) && t >= 0
    requires MeasuresAtLeast(xs, a, b, d, 0.0)
    requires i < b - a && SightsIn(xs, a, b, d)[i].peer == 0
    ensures EntriesIn(xs, a, b, d)[i + 1].currPeer == EntriesIn(xs, a, b, d)[i].currPeer
    ensures NeverMoves(EntriesIn(xs, a, b, d)[i + 1..])
  {
    RunStay(xs, a, b, d, t);
    SilentRounds(xs, a, b, d);
    StuckAfterSilence(t, ConfigsIn(xs, a, b), EntriesIn(xs, a, b, d), SightsIn(xs, a, b, d), i);
  }
}
