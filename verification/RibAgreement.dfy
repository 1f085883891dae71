/**
 The advertised routes against the routing table, round by round.

 With a round number of its own in the vanished-destination loop, the advertised
 /32s are after every round exactly the destinations with a peer. With the loop as
 written this fails, and `Lost` says for which destinations.
 */
module RibAgreement {
  import opened Tables
  import opened Selection
  import opened Filing
  import opened Phases
  import opened Runs

  // ----- agreement -----

  ghost predicate AgreesAt(s: State, p: int, d: Dst) {
    && (d in s.rib <==> HasEntry(s.route, d, p) && s.route[d][p].currPeer != 0)
    && (d in s.rib ==> s.rib[d] == s.route[d][p].currPeer)
  }

  /** The advertised /32s are exactly the destinations with a current peer in round
      `p`, each towards that peer. */
  ghost predicate Agrees(s: State, p: int) {
    forall d :: AgreesAt(s, p, d)
  }

  /** Before round `p` of a run with every round processed. */
  ghost predicate Steady(s: State, p: int) {
    && Shape(s, p)
    && (forall d :: d in s.route ==> p - 1 in s.route[d])
    && (if p <= 1 then s.rib == map[] else Agrees(s, p - 1))
  }

  /** Inside round `p`, once it is scanned: what is advertised is the previous peer. */
  ghost predicate PendingAt(s: State, p: int, d: Dst) {
    && (d in s.route ==> p in s.route[d])
    && (d in s.route && s.route[d][p].currPeer == 0 ==> s.route[d][p].prevPeer == 0)
    && (if p <= 1 then d !in s.rib
        else && (d in s.rib <==> HasEntry(s.route, d, p) && s.route[d][p].prevPeer != 0)
             && (d in s.rib ==> s.rib[d] == s.route[d][p].prevPeer))
  }

  // ----- the vanished-destination loop -----

  /** The round number the loop holds when it reaches position `i`. */
  function ProbeAt(r: RTable, dsts: set<Dst>, order: seq<Dst>, probe: int, keepRound: bool, i: nat): int
    requires i < |order|
    decreases |order|
  {
    if i == 0 then probe
    else
      var next := if order[0] in dsts then probe else CarriedProbe(r, probe, order[0], keepRound);
      ProbeAt(r, dsts, order[1..], next, keepRound, i - 1)
  }

  /** The loop reaches `d` and withdraws it. */
  ghost predicate Withdrawn(r: RTable, route: RouteTable, dsts: set<Dst>, order: seq<Dst>, probe: int,
                            keepRound: bool, d: Dst)
  {
    exists i: nat :: i < |order| && order[i] == d && d !in dsts
      && WithdrawTest(route, ProbeAt(r, dsts, order, probe, keepRound, i), d)
  }

  /** The loop takes away exactly the routes it withdraws. */
  lemma {:induction false} UpdateRibAt(r: RTable, route: RouteTable, rib: Rib, dsts: set<Dst>, order: seq<Dst>,
                                       probe: int, keepRound: bool, d: Dst)
    ensures var rib' := UpdateRib(r, route, rib, dsts, order, probe, keepRound);
      && (d in rib' <==> d in rib && !Withdrawn(r, route, dsts, order, probe, keepRound, d))
      && (d in rib' ==> rib'[d] == rib[d])
    decreases |order|
  {
    if order != [] {
      var h := order[0];
      var next := if h in dsts then probe else CarriedProbe(r, probe, h, keepRound);
      var rib1 := if h !in dsts && WithdrawTest(route, probe, h) then rib - {h} else rib;
      UpdateRibAt(r, route, rib1, dsts, order[1..], next, keepRound, d);
      WithdrawnCons(r, route, dsts, order, probe, keepRound, d);
    }
  }

  lemma WithdrawnCons(r: RTable, route: RouteTable, dsts: set<Dst>, order: seq<Dst>, probe: int,
                      keepRound: bool, d: Dst)
    requires order != []
    ensures var h := order[0];
      var next := if h in dsts then probe else CarriedProbe(r, probe, h, keepRound);
      Withdrawn(r, route, dsts, order, probe, keepRound, d) <==>
        || (h == d && d !in dsts && WithdrawTest(route, probe, d))
        || Withdrawn(r, route, dsts, order[1..], next, keepRound, d)
  {
    var h := order[0];
    var next := if h in dsts then probe else CarriedProbe(r, probe, h, keepRound);
    if Withdrawn(r, route, dsts, order, probe, keepRound, d) {
      var i: nat :| i < |order| && order[i] == d && d !in dsts
        && WithdrawTest(route, ProbeAt(r, dsts, order, probe, keepRound, i), d);
      if i > 0 {
        assert order[1..][i - 1] == d;
        assert ProbeAt(r, dsts, order[1..], next, keepRound, i - 1) == ProbeAt(r, dsts, order, probe, keepRound, i);
      }
    }
    if Withdrawn(r, route, dsts, order[1..], next, keepRound, d) {
      var i: nat :| i < |order[1..]| && order[1..][i] == d && d !in dsts
        && WithdrawTest(route, ProbeAt(r, dsts, order[1..], next, keepRound, i), d);
      assert order[i + 1] == d;
      assert ProbeAt(r, dsts, order, probe, keepRound, i + 1) == ProbeAt(r, dsts, order[1..], next, keepRound, i);
    }
    if h == d && d !in dsts && WithdrawTest(route, probe, d) {
      assert ProbeAt(r, dsts, order, probe, keepRound, 0) == probe;
    }
  }

  /** `d` had a peer in round `q`. */
  predicate HadPeer(route: RouteTable, d: Dst, q: int) {
    d in route && q in route[d] && route[d][q].currPeer != 0
  }

  /** A destination in the list keeps its route. One that left it is withdrawn if it had a
      peer in the round before the one the loop is at when it comes to it, and otherwise
      keeps its route too. */
  lemma WithdrawnIff(r: RTable, route: RouteTable, rib: Rib, dsts: set<Dst>, order: seq<Dst>, probe: int,
                     keepRound: bool, i: nat)
    requires i < |order| && forall a, b :: 0 <= a < b < |order| ==> order[a] != order[b]
    ensures Have(UpdateRib(r, route, rib, dsts, order, probe, keepRound), order[i]) ==
            if order[i] !in dsts && HadPeer(route, order[i], ProbeAt(r, dsts, order, probe, keepRound, i) - 1)
            then None else Have(rib, order[i])
  {
    UpdateRibAt(r, route, rib, dsts, order, probe, keepRound, order[i]);
  }

  lemma {:induction false} KeptProbe(r: RTable, dsts: set<Dst>, order: seq<Dst>, probe: int, i: nat)
    requires i < |order|
    ensures ProbeAt(r, dsts, order, probe, true, i) == probe
    decreases |order|
  {
    if i > 0 {
      KeptProbe(r, dsts, order[1..], probe, i - 1);
    }
  }

  /** An advertised destination left the list and the loop does not withdraw it. `s`
      is the state the loop starts from. */
  ghost predicate Lost(s: State, p: int, x: RoundInput, d: Dst) {
    d in s.rib && d !in x.dsts && !Withdrawn(s.r, s.route, x.dsts, x.order, p, x.keepRound, d)
  }

  /** With a round number of its own the loop loses no withdraw. */
  lemma NothingLostWhenKept(s: State, p: nat, x: RoundInput, d: Dst)
    requires Steady(s, p) && x.keepRound && Legal(s, x)
    ensures !Lost(Received(s, x), p, x, d)
  {
    var t := Received(s, x);
    FiledAllShape(s.r, x.replies);
    if d in t.rib && d !in x.dsts {
      assert AgreesAt(s, p - 1, d);
      assert d in x.order;
      var i: nat :| i < |x.order| && x.order[i] == d;
      KeptProbe(t.r, x.dsts, x.order, p, i);
      assert WithdrawTest(t.route, p, d);
    }
  }

  // ----- one round -----

  lemma ScannedPending(s: State, p: nat, cfg: Config, d: Dst)
    requires Shape(s, p) && p > 0
    requires d in s.route ==> p - 1 in s.route[d]
    requires if p == 1 then d !in s.rib else AgreesAt(s, p - 1, d)
    ensures PendingAt(Scanned(s, p, cfg), p, d)
  {
    var es, ls := NewEntries(s, p, cfg), NewLogs(s, p, cfg);
    NewEntriesKeys(s, p, cfg);
    if d in s.r {
      NewEntryLinks(s, p, cfg, d);
    }
    RecordedPending(s, p, es, ls, d);
  }

  lemma NewEntryLinks(s: State, p: nat, cfg: Config, d: Dst)
    requires d in s.r && p > 0
    ensures d in NewEntries(s, p, cfg)
    ensures var e := NewEntries(s, p, cfg)[d];
      && e.prevPeer == (if HasEntry(s.route, d, p - 1) then s.route[d][p - 1].currPeer else 0)
      && (e.currPeer == 0 ==> e.prevPeer == 0)
  {
    var ps := GetOrEmpty(s.r[d], p);
    DecideLinks(cfg, PrevEntry(s.route, d, p), Chosen(p, cfg.metric, ps), ChosenMetric(p, cfg.metric, ps));
  }

  lemma RecordedPending(s: State, p: nat, es: map<Dst, RtParm>, ls: map<Dst, Tlog>, d: Dst)
    requires Shape(s, p) && p > 0 && es.Keys == s.r.Keys
    requires d in s.route ==> p - 1 in s.route[d]
    requires if p == 1 then d !in s.rib else AgreesAt(s, p - 1, d)
    requires d in es ==>
               && es[d].prevPeer == (if HasEntry(s.route, d, p - 1) then s.route[d][p - 1].currPeer else 0)
               && (es[d].currPeer == 0 ==> es[d].prevPeer == 0)
    ensures PendingAt(Recorded(s, p, es, ls), p, d)
  {
  }

  lemma FreedPending(s: State, p: nat, d: Dst)
    requires s.r.Keys == s.route.Keys && PendingAt(s, p, d)
    ensures PendingAt(Freed(s, p), p, d)
  {
  }

  lemma WithoutPending(s: State, ds: set<Dst>, p: nat, d: Dst)
    requires PendingAt(s, p, d)
    ensures PendingAt(Without(s, ds), p, d)
  {
  }

  lemma AdvertisedAgrees(s: State, p: nat, adv: Config, d: Dst)
    requires p > 0 && PendingAt(s, p, d)
    ensures AgreesAt(Advertised(s, p, adv), p, d)
  {
  }

  /** The tables at the scan, seen from one destination. */
  lemma AtScanAt(s: State, p: nat, x: RoundInput, d: Dst)
    requires Shape(s, p) && Legal(s, x)
    ensures var t, a := Received(s, x), AtScan(s, p, x);
      && (d in a.route <==> d in s.route && d in x.dsts)
      && (d in a.route ==> a.route[d] == s.route[d])
      && (d in a.r <==> d in t.r && d in x.dsts)
      && (d in a.rib <==> d in s.rib && (d in x.dsts || Lost(t, p, x, d)))
      && (d in a.rib ==> a.rib[d] == s.rib[d])
  {
    var t := Received(s, x);
    FiledAllShape(s.r, x.replies);
    UpdateRibAt(t.r, t.route, t.rib, x.dsts, x.order, p, x.keepRound, d);
  }

  lemma BeforeAdvertisePending(s: State, p: nat, x: RoundInput, d: Dst)
    requires Steady(s, p) && p > 0 && Legal(s, x) && d in x.dsts
    ensures PendingAt(BeforeAdvertise(s, p, x), p, d)
  {
    var a := AtScan(s, p, x);
    AtScanAt(s, p, x, d);
    AtScanShape(s, p, x);
    if p > 1 {
      assert AgreesAt(s, p - 1, d);
    }
    ScannedPending(a, p, x.cfg, d);
    var c := Scanned(a, p, x.cfg);
    ScannedShape(a, p, x.cfg);
    FreedPending(c, p, d);
    WithoutPending(Freed(c, p), Silent(Freed(c, p), p, x.cfg.deepDelete), p, d);
  }

  /** A destination outside the list is gone from the tables, and advertised exactly
      when its withdraw was lost. */
  lemma VanishedAt(s: State, p: nat, x: RoundInput, d: Dst)
    requires Shape(s, p) && p > 0 && Legal(s, x) && d !in x.dsts
    ensures var b := BeforeAdvertise(s, p, x);
      d !in b.route && d !in b.r && (d in b.rib <==> Lost(Received(s, x), p, x, d))
  {
    AtScanAt(s, p, x, d);
    AtScanShape(s, p, x);
    ScannedShape(AtScan(s, p, x), p, x.cfg);
  }

  /** After a processed round the advertised routes agree with the table exactly when
      the round lost no withdraw. */
  lemma RoundAgreement(s: State, p: nat, x: RoundInput)
    requires Steady(s, p) && p > 0 && Legal(s, x)
    requires x.acked && !x.shutdown && x.adv.advertise
    ensures Agrees(RoundStep(s, p, x), p) <==> forall d :: !Lost(Received(s, x), p, x, d)
  {
    var b := BeforeAdvertise(s, p, x);
    var f := RoundStep(s, p, x);
    assert f == Advertised(b, p, x.adv);
    forall d ensures AgreesAt(f, p, d) <==> !Lost(Received(s, x), p, x, d) {
      if d in x.dsts {
        BeforeAdvertisePending(s, p, x, d);
        AdvertisedAgrees(b, p, x.adv, d);
      } else {
        VanishedAt(s, p, x, d);
      }
    }
  }

  // ----- every run -----

  ghost predicate NothingLostAt(xs: seq<RoundInput>, n: nat)
    requires n < |xs|
  {
    forall d :: !Lost(Received(After(xs[..n]), xs[n]), n, xs[n], d)
  }

  ghost predicate AgreesAfter(xs: seq<RoundInput>, n: nat)
    requires n < |xs|
  {
    Agrees(After(xs[..n + 1]), n)
  }

  /** Every routed destination has an entry of the round just processed. */
  lemma EntriesPresent(s: State, p: nat, x: RoundInput)
    requires Shape(s, p) && Legal(s, x) && x.acked && (p == 0 ==> s.route == map[])
    ensures var b := BeforeAdvertise(s, p, x); forall d :: d in b.route ==> p in b.route[d]
  {
    var a := AtScan(s, p, x);
    AtScanShape(s, p, x);
    NewEntriesKeys(a, p, x.cfg);
    ScannedShape(a, p, x.cfg);
    forall d | d in a.route ensures p > 0 {
      AtScanAt(s, p, x, d);
    }
    RecordedPresent(a, p, NewEntries(a, p, x.cfg), NewLogs(a, p, x.cfg));
  }

  lemma RecordedPresent(s: State, p: nat, es: map<Dst, RtParm>, ls: map<Dst, Tlog>)
    requires p > 0 ==> es.Keys == s.r.Keys && s.route.Keys <= s.r.Keys
    requires p == 0 ==> s.route == map[]
    ensures var f := Freed(Recorded(s, p, es, ls), p); forall d :: d in f.route ==> p in f.route[d]
  {
    var c := Recorded(s, p, es, ls);
    assert forall d :: d in c.route ==> d in es && c.route[d] == GetOrEmpty(s.route, d)[p := es[d]];
    FreedPresent(c, p);
  }

  lemma FreedPresent(c: State, p: nat)
    requires forall d :: d in c.route ==> p in c.route[d]
    requires p > 0 ==> c.r.Keys == c.route.Keys
    ensures forall d :: d in Freed(c, p).route ==> p in Freed(c, p).route[d]
  {
  }

  lemma FirstRoundRib(s: State, x: RoundInput)
    requires Steady(s, 0) && Legal(s, x) && x.acked && !x.shutdown
    ensures RoundStep(s, 0, x).rib == map[]
  {
    var b := BeforeAdvertise(s, 0, x);
    forall d ensures d !in b.rib {
      AtScanAt(s, 0, x, d);
    }
    AnnounceNothing(b, x.adv);
  }

  lemma AnnounceNothing(b: State, adv: Config)
    requires b.rib == map[]
    ensures Advertised(b, 0, adv).rib == map[]
  {
  }

  lemma SteadyStep(s: State, p: nat, x: RoundInput)
    requires Steady(s, p) && Legal(s, x)
    requires x.acked && !x.shutdown && x.adv.advertise
    requires p > 0 ==> forall d :: !Lost(Received(s, x), p, x, d)
    ensures Steady(RoundStep(s, p, x), p + 1)
  {
    StepShape(s, p, x);
    assert p == 0 ==> s.route.Keys == {};
    EntriesPresent(s, p, x);
    if p == 0 {
      FirstRoundRib(s, x);
    } else {
      RoundAgreement(s, p, x);
    }
  }

  /** Round `k` of a run agrees exactly when it loses nothing, and then keeps the run
      steady. */
  lemma RunStep(xs: seq<RoundInput>, k: nat)
    requires k < |xs| && LegalAt(xs, k) && Steady(After(xs[..k]), k)
    requires xs[k].acked && !xs[k].shutdown && xs[k].adv.advertise
    ensures k > 0 ==> (AgreesAfter(xs, k) <==> NothingLostAt(xs, k))
    ensures (k > 0 ==> NothingLostAt(xs, k)) ==> Steady(After(xs[..k + 1]), k + 1)
  {
    AfterNext(xs, k);
    if k > 0 {
      RoundAgreement(After(xs[..k]), k, xs[k]);
    }
    if k > 0 ==> NothingLostAt(xs, k) {
      SteadyStep(After(xs[..k]), k, xs[k]);
    }
  }

  ghost predicate AgreesThrough(xs: seq<RoundInput>, n: nat)
    requires n <= |xs|
  {
    forall m :: 1 <= m < n ==> AgreesAfter(xs, m)
  }

  ghost predicate LosesNothingThrough(xs: seq<RoundInput>, n: nat)
    requires n <= |xs|
  {
    forall m :: 1 <= m < n ==> NothingLostAt(xs, m)
  }

  lemma ThroughNext(xs: seq<RoundInput>, k: nat)
    requires k < |xs|
    ensures AgreesThrough(xs, k + 1) <==> AgreesThrough(xs, k) && (k > 0 ==> AgreesAfter(xs, k))
    ensures LosesNothingThrough(xs, k + 1) <==> LosesNothingThrough(xs, k) && (k > 0 ==> NothingLostAt(xs, k))
  {
  }

  lemma {:induction false} PrefixAgreement(xs: seq<RoundInput>, n: nat)
    requires n <= |xs| && IsRun(xs) && AllProcessed(xs)
    requires forall i :: 0 <= i < n ==> !xs[i].shutdown
    ensures AgreesThrough(xs, n) <==> LosesNothingThrough(xs, n)
    ensures LosesNothingThrough(xs, n) ==> Steady(After(xs[..n]), n)
  {
    if n > 0 {
      var k := n - 1;
      PrefixAgreement(xs, k);
      ThroughNext(xs, k);
      assert LegalAt(xs, k);
      if LosesNothingThrough(xs, k) {
        RunStep(xs, k);
      }
    }
  }

  /** The loop as written: the advertised routes agree with the table after every
      round of a run exactly when no round of it loses a withdraw. */
  lemma RibAgreementIff(xs: seq<RoundInput>)
    requires IsRun(xs) && AllProcessed(xs)
    requires forall i :: 0 <= i < |xs| ==> !xs[i].shutdown
    ensures (forall n :: 1 <= n < |xs| ==> AgreesAfter(xs, n)) <==> (forall n :: 1 <= n < |xs| ==> NothingLostAt(xs, n))
  {
    PrefixAgreement(xs, |xs|);
  }

  lemma {:induction false} KeptRunsSteady(xs: seq<RoundInput>, n: nat)
    requires n <= |xs| && IsRun(xs) && AllProcessed(xs)
    requires forall i :: 0 <= i < |xs| ==> xs[i].keepRound
    requires forall i :: 0 <= i < n ==> !xs[i].shutdown
    ensures Steady(After(xs[..n]), n)
  {
    if n > 0 {
      var k := n - 1;
      KeptRunsSteady(xs, k);
      assert LegalAt(xs, k);
      KeptStep(xs, k);
      RunStep(xs, k);
    }
  }

  lemma KeptStep(xs: seq<RoundInput>, k: nat)
    requires k < |xs| && LegalAt(xs, k) && Steady(After(xs[..k]), k) && xs[k].keepRound
    ensures NothingLostAt(xs, k)
  {
    forall d ensures !Lost(Received(After(xs[..k]), xs[k]), k, xs[k], d) {
      NothingLostWhenKept(After(xs[..k]), k, xs[k], d);
    }
  }

  /** With a round number of its own in the loop, the advertised /32s are after every
      round from round 1 on exactly the destinations with a current peer. */
  lemma RibAgreementKept(xs: seq<RoundInput>, n: nat)
    requires IsRun(xs) && AllProcessed(xs) && 1 <= n < |xs|
    requires forall i :: 0 <= i < |xs| ==> xs[i].keepRound && !xs[i].shutdown
    ensures AgreesAfter(xs, n)
  {
    KeptRunsSteady(xs, n + 1);
  }

  // ----- graceful shutdown -----

  /** A shutdown round empties the routing table, and leaves advertised only what the
      vanished-destination loop of that round lost. */
  lemma ShutdownRound(s: State, p: nat, x: RoundInput)
    requires Steady(s, p) && Legal(s, x) && x.acked && x.shutdown
    ensures var f := RoundStep(s, p, x);
      && f.route == map[]
      && (p > 0 ==> f.r == map[])
      && forall d :: d in f.rib <==> p > 0 && Lost(Received(s, x), p, x, d)
  {
    var b, f := BeforeAdvertise(s, p, x), RoundStep(s, p, x);
    assert p == 0 ==> s.route.Keys == {};
    EntriesPresent(s, p, x);
    BeforeAdvertiseLogged(s, p, x);
    assert f == DeletedAll(b, p) && f.route == map[];
    forall d ensures d in f.rib <==> p > 0 && Lost(Received(s, x), p, x, d) {
      ShutdownAt(s, p, x, d);
    }
  }

  /** One destination of a shutdown round. */
  lemma ShutdownAt(s: State, p: nat, x: RoundInput, d: Dst)
    requires Steady(s, p) && Legal(s, x)
    ensures d in DeletedAll(BeforeAdvertise(s, p, x), p).rib <==> p > 0 && Lost(Received(s, x), p, x, d)
  {
    var b := BeforeAdvertise(s, p, x);
    if p == 0 {
      AtScanAt(s, p, x, d);
    } else if d in x.dsts {
      BeforeAdvertisePending(s, p, x, d);
      LoggedAt(s, p, x, d);
    } else {
      VanishedAt(s, p, x, d);
    }
  }

  /** A routed destination is logged. */
  lemma LoggedAt(s: State, p: nat, x: RoundInput, d: Dst)
    requires Shape(s, p) && Legal(s, x) && p > 0
    ensures d in BeforeAdvertise(s, p, x).route ==> d in BeforeAdvertise(s, p, x).log
  {
    BeforeAdvertiseLogged(s, p, x);
  }

  lemma BeforeAdvertiseLogged(s: State, p: nat, x: RoundInput)
    requires Shape(s, p) && Legal(s, x) && (p == 0 ==> s.route == map[])
    ensures var b := BeforeAdvertise(s, p, x);
      && b.route.Keys <= b.log.Keys
      && (p > 0 ==> b.r.Keys == b.route.Keys)
  {
    var a := AtScan(s, p, x);
    AtScanShape(s, p, x);
    NewEntriesKeys(a, p, x.cfg);
    forall d | d in a.route ensures p > 0 {
      AtScanAt(s, p, x, d);
    }
    ScanLogged(a, p, NewEntries(a, p, x.cfg), NewLogs(a, p, x.cfg));
  }

  lemma ScanLogged(s: State, p: nat, es: map<Dst, RtParm>, ls: map<Dst, Tlog>)
    requires s.route.Keys <= s.r.Keys && es.Keys <= s.r.Keys && ls.Keys == s.r.Keys
    requires p > 0 ==> es.Keys == s.r.Keys
    ensures var f := Freed(Recorded(s, p, es, ls), p);
      f.route.Keys <= f.log.Keys && (p > 0 ==> f.r.Keys == f.route.Keys)
  {
    RecordedKeys(s, p, es, ls);
    FreedKeys(Recorded(s, p, es, ls), p);
  }

  lemma RecordedKeys(s: State, p: nat, es: map<Dst, RtParm>, ls: map<Dst, Tlog>)
    ensures var c := Recorded(s, p, es, ls);
      && c.r.Keys == s.r.Keys
      && c.route.Keys == s.route.Keys + es.Keys
      && c.log.Keys == s.log.Keys + ls.Keys
  {
  }

  lemma FreedKeys(c: State, p: nat)
    ensures var f := Freed(c, p);
      && f.r.Keys == c.r.Keys && f.log == c.log
      && f.route.Keys == (if p < 2 then c.route.Keys else c.route.Keys + c.r.Keys)
  {
  }

  /** In every run with every round processed and the loop's round number kept, a
      graceful shutdown leaves no route and nothing advertised. */
  lemma GracefulShutdown(xs: seq<RoundInput>)
    requires IsRun(xs) && AllProcessed(xs) && xs != []
    requires forall i :: 0 <= i < |xs| ==> xs[i].keepRound
    requires xs[|xs| - 1].shutdown
    ensures After(xs).route == map[] && After(xs).rib == map[]
  {
    var n := |xs| - 1;
    assert forall i: nat :: i < n ==> LegalAt(xs, i) && !xs[i].shutdown;
    KeptRunsSteady(xs, n);
    assert LegalAt(xs, n);
    AfterNext(xs, n);
    assert xs[..n + 1] == xs;
    ShutdownRound(After(xs[..n]), n, xs[n]);
    forall d ensures d !in After(xs).rib {
      NothingLostWhenKept(After(xs[..n]), n, xs[n], d);
    }
  }
}
