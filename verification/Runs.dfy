/**
 Runs of the daemon: sequences of probe rounds from empty tables. The properties
 here hold after every round of every run.
 */
module Runs {
  import opened Tables
  import opened Filing
  import opened Phases

  // ----- runs -----

  /** The tables after the rounds 0, 1, ... of `xs`. */
  ghost function After(xs: seq<RoundInput>): State {
    if xs == [] then EMPTY_STATE
    else RoundStep(After(xs[..|xs| - 1]), |xs| - 1, xs[|xs| - 1])
  }

  lemma AfterNext(xs: seq<RoundInput>, n: nat)
    requires n < |xs|
    ensures After(xs[..n + 1]) == RoundStep(After(xs[..n]), n, xs[n])
  {
    assert xs[..n + 1][..n] == xs[..n];
  }

  /** The table when round `n` is aggregated. */
  ghost function Found(xs: seq<RoundInput>, n: nat): RTable
    requires n < |xs|
  {
    Updated(Received(After(xs[..n]), xs[n]), n, xs[n].dsts, xs[n].order, xs[n].keepRound).r
  }

  /** The iteration order of a round lists the table the round finds. */
  ghost predicate Legal(s: State, x: RoundInput) {
    Enumerates(x.order, FiledAll(s.r, x.replies).Keys)
  }

  /** Round `i` of `xs` is legal, and no round follows one that shut the daemon down. */
  ghost predicate LegalAt(xs: seq<RoundInput>, i: nat)
    requires i < |xs|
  {
    && Legal(After(xs[..i]), xs[i])
    && (i < |xs| - 1 ==> !(xs[i].acked && xs[i].shutdown))
  }

  ghost predicate IsRun(xs: seq<RoundInput>) {
    forall i: nat :: i < |xs| ==> LegalAt(xs, i)
  }

  /** Every round was acknowledged and advertised. */
  ghost predicate AllProcessed(xs: seq<RoundInput>) {
    forall i :: 0 <= i < |xs| ==> xs[i].acked && xs[i].adv.advertise
  }

  // ----- what every run keeps, skipped rounds included -----

  /** Before round `p`: no peer without a reply, every routed destination is measured,
      every route entry belongs to an earlier round the destination has a table for. */
  ghost predicate Shape(s: State, p: int) {
    && NoEmptyPeer(s.r)
    && s.route.Keys <= s.r.Keys
    && (forall d, q :: d in s.route && q in s.route[d] ==> 0 <= q < p && q in s.r[d])
    && (forall d, q :: d in s.log && q in s.log[d] ==> 0 <= q < p)
  }

  lemma ReceivedShape(s: State, p: nat, x: RoundInput)
    requires Shape(s, p)
    ensures Shape(Received(s, x), p)
  {
    FiledAllShape(s.r, x.replies);
  }

  lemma UpdatedShape(s: State, p: nat, x: RoundInput)
    requires Shape(s, p)
    ensures Shape(Updated(s, p, x.dsts, x.order, x.keepRound), p)
  {
  }

  lemma AggregatedShape(s: State, p: nat, pingReq: int)
    requires Shape(s, p)
    ensures Shape(Aggregated(s, p, pingReq), p)
  {
    var t := Aggregated(s, p, pingReq);
    forall d, q, k | d in t.r && q in t.r[d] && k in t.r[d][q]
      ensures t.r[d][q][k] != map[]
    {
      if q == p {
        assert STATS in t.r[d][q][k];
      } else {
        assert k in s.r[d][q];
      }
    }
  }

  lemma RecordedShape(s: State, p: nat, es: map<Dst, RtParm>, ls: map<Dst, Tlog>)
    requires Shape(s, p) && es.Keys <= s.r.Keys
    ensures Shape(Recorded(s, p, es, ls), p + 1)
  {
    TouchedShape(s.r, p);
    ExtendedShape(s.route, p, es);
    ExtendedShape(s.log, p, ls);
  }

  lemma ExtendedShape<V>(m: map<Dst, map<int, V>>, p: nat, es: map<Dst, V>)
    requires forall d, q :: d in m && q in m[d] ==> 0 <= q < p
    ensures var m' := Extended(m, p, es);
      forall d, q :: d in m' && q in m'[d] ==> q == p || (d in m && q in m[d] && 0 <= q < p)
  {
  }

  lemma TouchedShape(r: RTable, p: nat)
    requires NoEmptyPeer(r)
    ensures NoEmptyPeer(Touched(r, p))
  {
  }

  lemma NewEntriesKeys(s: State, p: nat, cfg: Config)
    ensures NewEntries(s, p, cfg).Keys <= s.r.Keys
    ensures p > 0 ==> NewEntries(s, p, cfg).Keys == s.r.Keys
    ensures NewLogs(s, p, cfg).Keys == s.r.Keys
  {
  }

  lemma FreedShape(s: State, p: nat)
    requires Shape(s, p + 1)
    requires p > 0 ==> s.route.Keys == s.r.Keys
    ensures Shape(Freed(s, p), p + 1)
  {
  }

  lemma AtScanShape(s: State, p: nat, x: RoundInput)
    requires Shape(s, p)
    ensures Shape(AtScan(s, p, x), p)
  {
    ReceivedShape(s, p, x);
    UpdatedShape(Received(s, x), p, x);
    AggregatedShape(Updated(Received(s, x), p, x.dsts, x.order, x.keepRound), p, x.cfg.pingReq);
  }

  lemma ScannedShape(s: State, p: nat, cfg: Config)
    requires Shape(s, p)
    ensures Shape(Scanned(s, p, cfg), p + 1)
    ensures p > 0 ==> Scanned(s, p, cfg).route.Keys == Scanned(s, p, cfg).r.Keys == s.r.Keys
  {
    NewEntriesKeys(s, p, cfg);
    RecordedShape(s, p, NewEntries(s, p, cfg), NewLogs(s, p, cfg));
  }

  lemma BeforeAdvertiseShape(s: State, p: nat, x: RoundInput)
    requires Shape(s, p)
    ensures Shape(BeforeAdvertise(s, p, x), p + 1)
  {
    AtScanShape(s, p, x);
    ScannedShape(AtScan(s, p, x), p, x.cfg);
    FreedShape(Scanned(AtScan(s, p, x), p, x.cfg), p);
  }

  lemma StepShape(s: State, p: nat, x: RoundInput)
    requires Shape(s, p)
    ensures Shape(RoundStep(s, p, x), p + 1)
  {
    ReceivedShape(s, p, x);
    BeforeAdvertiseShape(s, p, x);
  }

  lemma {:induction false} RunShape(xs: seq<RoundInput>)
    ensures Shape(After(xs), |xs|)
  {
    if xs != [] {
      RunShape(xs[..|xs| - 1]);
      StepShape(After(xs[..|xs| - 1]), |xs| - 1, xs[|xs| - 1]);
    }
  }

  // ----- the end of a round -----

  lemma StepRoute(s: State, p: nat, x: RoundInput)
    requires x.acked && !x.shutdown
    ensures RoundStep(s, p, x).route == BeforeAdvertise(s, p, x).route
  {
  }

  lemma StepTables(s: State, p: nat, x: RoundInput)
    requires x.acked && !x.shutdown
    ensures RoundStep(s, p, x).r == BeforeAdvertise(s, p, x).r
  {
  }

  // ----- one destination through a phase -----

  lemma RecordedEntry(s: State, p: nat, es: map<Dst, RtParm>, ls: map<Dst, Tlog>, d: Dst)
    requires d in es
    ensures var c := Recorded(s, p, es, ls); HasEntry(c.route, d, p) && c.route[d][p] == es[d]
  {
  }

  lemma PrunedEntry(route: RouteTable, q: int, ds: set<Dst>, d: Dst, p: int)
    requires HasEntry(route, d, p) && p != q
    ensures HasEntry(Pruned(route, q, ds), d, p) && Pruned(route, q, ds)[d][p] == route[d][p]
  {
  }

  lemma FreedEntry(c: State, p: nat, d: Dst)
    requires HasEntry(c.route, d, p)
    ensures HasEntry(Freed(c, p).route, d, p) && Freed(c, p).route[d][p] == c.route[d][p]
  {
    PrunedEntry(c.route, p - 2, c.r.Keys, d, p);
  }
}
