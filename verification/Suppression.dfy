/**
 Announcing only what changed, against announcing everything every round.
 */
module Suppression {
  import opened Tables
  import opened Phases
  import opened Runs
  import opened RibAgreement

  /** Announce every destination every round and rely on the implicit withdraw. */
  function FullAdvertising(adv: Config): Config {
    adv.(advertiseSame := true, explicitWithdraw := false)
  }

  /** What the announcements of a round do to one destination: from round 1 on a routed
      destination is advertised towards its peer, unless its peer has not changed and such
      are skipped. One without a peer keeps its route, unless withdraws are explicit and it
      had a peer. */
  lemma AdvertisedAt(s: State, p: int, adv: Config, d: Dst)
    ensures var have := Have(s.rib, d);
      Have(Advertised(s, p, adv).rib, d) ==
      if !HasEntry(s.route, d, p) || p <= 0 then have
      else
        var e := s.route[d][p];
        if p > 1 && !adv.advertiseSame && e.currPeer == e.prevPeer then have
        else if e.currPeer != 0 then Some(e.currPeer)
        else if p > 1 && adv.explicitWithdraw && e.prevPeer != 0 then None
        else have
    ensures Advertised(s, p, adv).r == s.r && Advertised(s, p, adv).route == s.route
    ensures Advertised(s, p, adv).log == s.log
  {
  }

  // ----- one round, any state -----

  /** Where skipping unchanged peers, or withdrawing explicitly first, makes no
      difference for one destination. */
  ghost predicate SameEffect(s: State, p: int, adv: Config, d: Dst)
    requires HasEntry(s.route, d, p)
  {
    var e := s.route[d][p];
    if Suppressed(adv, p, e) then e.currPeer == 0 || p <= 0 || (d in s.rib && s.rib[d] == e.currPeer)
    else p > 1 && e.prevPeer != 0 && adv.explicitWithdraw && e.currPeer == 0 ==> d !in s.rib
  }

  /** From any state the two ways of announcing give the same routes exactly when every
      skipped destination is already advertised towards its peer, and no destination
      without a peer is withdrawn explicitly. */
  lemma AdvertiseEqualIff(s: State, p: int, adv: Config)
    requires forall d :: d in s.route ==> p in s.route[d]
    ensures Advertised(s, p, adv) == Advertised(s, p, FullAdvertising(adv)) <==>
            forall d :: d in s.route ==> SameEffect(s, p, adv, d)
  {
    var a, b := Advertised(s, p, adv).rib, Advertised(s, p, FullAdvertising(adv)).rib;
    forall d ensures (Have(a, d) == Have(b, d)) <==> (d in s.route ==> SameEffect(s, p, adv, d)) {
    }
    if forall d :: d in s.route ==> SameEffect(s, p, adv, d) {
      assert forall d :: Have(a, d) == Have(b, d);
      SameRoutes(a, b);
    }
    if a == b {
      assert forall d :: Have(a, d) == Have(b, d);
    }
  }

  // ----- every run -----

  /** A destination with a peer in round `p` is advertised towards it. */
  ghost predicate CoveredAt(s: State, p: int, d: Dst) {
    HasEntry(s.route, d, p) && s.route[d][p].currPeer != 0 ==> d in s.rib && s.rib[d] == s.route[d][p].currPeer
  }

  /** Before round `p` of any run whose processed rounds advertise, skipped rounds
      and lost withdraws included. */
  ghost predicate Covered(s: State, p: int) {
    && Shape(s, p)
    && (p == 0 ==> s.route == map[])
    && (p > 1 ==> AllCovered(s, p - 1))
  }

  ghost predicate AllCovered(s: State, p: int) {
    forall d :: CoveredAt(s, p, d)
  }

  /** The entry of round `p` follows the route that is advertised. */
  ghost predicate FollowsAt(s: State, p: int, d: Dst) {
    HasEntry(s.route, d, p) ==>
      var e := s.route[d][p];
      && (e.currPeer == 0 ==> e.prevPeer == 0)
      && (p > 1 && e.prevPeer != 0 ==> d in s.rib && s.rib[d] == e.prevPeer)
  }

  lemma RecordedFollows(s: State, p: nat, es: map<Dst, RtParm>, ls: map<Dst, Tlog>, d: Dst)
    requires Shape(s, p) && p > 0 && es.Keys == s.r.Keys && CoveredAt(s, p - 1, d)
    requires d in es ==>
               && es[d].prevPeer == (if HasEntry(s.route, d, p - 1) then s.route[d][p - 1].currPeer else 0)
               && (es[d].currPeer == 0 ==> es[d].prevPeer == 0)
    ensures FollowsAt(Recorded(s, p, es, ls), p, d)
  {
  }

  /** In round 1 the routes of round 0 are not advertised yet, and nothing is skipped. */
  lemma RecordedFollowsFirst(s: State, es: map<Dst, RtParm>, ls: map<Dst, Tlog>, d: Dst)
    requires Shape(s, 1) && es.Keys == s.r.Keys
    requires d in es ==> es[d].currPeer == 0 ==> es[d].prevPeer == 0
    ensures FollowsAt(Recorded(s, 1, es, ls), 1, d)
  {
  }

  lemma FreedFollows(s: State, p: nat, ds: set<Dst>, d: Dst)
    requires FollowsAt(s, p, d)
    ensures FollowsAt(Freed(s, p), p, d)
    ensures FollowsAt(Without(s, ds), p, d)
  {
  }

  lemma BeforeAdvertiseFollows(s: State, p: nat, x: RoundInput, d: Dst)
    requires Covered(s, p) && p > 0 && Legal(s, x)
    ensures FollowsAt(BeforeAdvertise(s, p, x), p, d)
  {
    var a := AtScan(s, p, x);
    AtScanAt(s, p, x, d);
    AtScanShape(s, p, x);
    NewEntriesKeys(a, p, x.cfg);
    if d in a.r {
      NewEntryLinks(a, p, x.cfg, d);
    }
    var es, ls := NewEntries(a, p, x.cfg), NewLogs(a, p, x.cfg);
    if p > 1 {
      assert CoveredAt(s, p - 1, d);
      RecordedFollows(a, p, es, ls, d);
    } else {
      RecordedFollowsFirst(a, es, ls, d);
    }
    var c := Recorded(a, p, es, ls);
    FreedFollows(c, p, {}, d);
    FreedFollows(Freed(c, p), p, Silent(Freed(c, p), p, x.cfg.deepDelete), d);
  }

  lemma AnnounceFollowing(b: State, p: nat, adv: Config)
    requires forall d :: d in b.route ==> p in b.route[d]
    requires p > 0 ==> forall d :: FollowsAt(b, p, d)
    ensures Advertised(b, p, adv) == Advertised(b, p, FullAdvertising(adv))
    ensures p > 0 ==> forall d :: CoveredAt(Advertised(b, p, adv), p, d)
  {
    forall d | d in b.route ensures SameEffect(b, p, adv, d) {
      if p > 0 {
        assert FollowsAt(b, p, d);
      }
    }
    AdvertiseEqualIff(b, p, adv);
    var f := Advertised(b, p, adv);
    if p > 0 {
      forall d ensures CoveredAt(f, p, d) {
        assert FollowsAt(b, p, d);
      }
    }
  }

  lemma RoundEqual(s: State, p: nat, x: RoundInput, y: RoundInput)
    requires Covered(s, p) && Legal(s, x)
    requires x.acked ==> x.adv.advertise
    requires y == x.(adv := FullAdvertising(x.adv))
    ensures RoundStep(s, p, x) == RoundStep(s, p, y)
    ensures x.acked && !x.shutdown && p > 0 ==> forall d :: CoveredAt(RoundStep(s, p, x), p, d)
  {
    if x.acked {
      EntriesPresent(s, p, x);
      var b := BeforeAdvertise(s, p, x);
      if p > 0 {
        forall d ensures FollowsAt(b, p, d) {
          BeforeAdvertiseFollows(s, p, x, d);
        }
      }
      AnnounceFollowing(b, p, x.adv);
    }
  }

  lemma CoveredNext(s: State, p: nat, x: RoundInput)
    requires Covered(s, p) && Legal(s, x) && !(x.acked && x.shutdown)
    requires x.acked ==> x.adv.advertise
    ensures Covered(RoundStep(s, p, x), p + 1)
  {
    StepShape(s, p, x);
    RoundEqual(s, p, x, x.(adv := FullAdvertising(x.adv)));
    if !x.acked && p > 0 {
      forall d ensures CoveredAt(RoundStep(s, p, x), p, d) {
        assert !HasEntry(s.route, d, p);
      }
    }
  }

  /** In every run whose processed rounds advertise, whatever is skipped or withdrawn
      explicitly each round, the advertised routes (and all tables) are after every
      round those of announcing everything. */
  lemma {:induction false} SuppressionRefines(xs: seq<RoundInput>, ys: seq<RoundInput>)
    requires IsRun(xs) && |ys| == |xs|
    requires forall i :: 0 <= i < |xs| ==> xs[i].acked ==> xs[i].adv.advertise
    requires forall i :: 0 <= i < |xs| ==> ys[i] == xs[i].(adv := FullAdvertising(xs[i].adv))
    ensures After(xs) == After(ys)
    ensures (forall i :: 0 <= i < |xs| ==> !(xs[i].acked && xs[i].shutdown)) ==> Covered(After(xs), |xs|)
  {
    if xs != [] {
      var n := |xs| - 1;
      RunPrefix(xs, n);
      SuppressionRefines(xs[..n], ys[..n]);
      assert LegalAt(xs, n);
      assert forall i: nat :: i < n ==> LegalAt(xs, i);
      SuppressionStep(xs, ys);
    }
  }

  lemma SuppressionStep(xs: seq<RoundInput>, ys: seq<RoundInput>)
    requires xs != [] && |ys| == |xs|
    requires var n := |xs| - 1;
      && After(xs[..n]) == After(ys[..n]) && Covered(After(xs[..n]), n) && Legal(After(xs[..n]), xs[n])
      && (xs[n].acked ==> xs[n].adv.advertise)
      && ys[n] == xs[n].(adv := FullAdvertising(xs[n].adv))
    ensures After(xs) == After(ys)
    ensures var n := |xs| - 1; !(xs[n].acked && xs[n].shutdown) ==> Covered(After(xs), |xs|)
  {
    var n := |xs| - 1;
    RoundEqual(After(xs[..n]), n, xs[n], ys[n]);
    if !(xs[n].acked && xs[n].shutdown) {
      CoveredNext(After(xs[..n]), n, xs[n]);
    }
  }

  lemma RunPrefix(xs: seq<RoundInput>, n: nat)
    requires IsRun(xs) && n < |xs|
    ensures IsRun(xs[..n])
    ensures forall i :: 0 <= i < n ==> !(xs[i].acked && xs[i].shutdown)
  {
    forall i: nat | i < n
      ensures LegalAt(xs[..n], i) && !(xs[i].acked && xs[i].shutdown)
    {
      assert LegalAt(xs, i);
      assert xs[..n][..i] == xs[..i];
    }
  }
}
