/**
 Announcing that is turned on during a run. Until then nothing is advertised; the first
 round that announces skips every destination whose peer has not changed.
 */
module LateStart {
  import opened Tables
  import opened Phases
  import opened Runs
  import opened RibAgreement

  /** `d` had a peer in the round before `p` and keeps it. */
  ghost predicate KeepsPeer(s: State, p: nat, x: RoundInput, d: Dst) {
    var b := BeforeAdvertise(s, p, x);
    && HasEntry(s.route, d, p - 1) && HasEntry(b.route, d, p)
    && b.route[d][p].currPeer == s.route[d][p - 1].currPeer != 0
  }

  lemma EmptyRib(s: State, p: nat, x: RoundInput)
    requires s.rib == map[]
    ensures BeforeAdvertise(s, p, x).rib == map[]
  {
    var u := Received(s, x);
    var rib := UpdateRib(u.r, u.route, map[], x.dsts, x.order, p, x.keepRound);
    forall d ensures d !in rib {
      UpdateRibAt(u.r, u.route, map[], x.dsts, x.order, p, x.keepRound, d);
    }
    assert AtScan(s, p, x).rib == map[];
  }

  /** The previous peer of this round's entry. */
  lemma EntryScanned(a: State, p: nat, cfg: Config, d: Dst)
    requires Shape(a, p) && p > 0
    ensures var f := Freed(Scanned(a, p, cfg), p);
      d in f.route ==> d in a.r && p in f.route[d] && f.route[d][p].prevPeer ==
                       if HasEntry(a.route, d, p - 1) then a.route[d][p - 1].currPeer else 0
  {
    var es, ls := NewEntries(a, p, cfg), NewLogs(a, p, cfg);
    NewEntriesKeys(a, p, cfg);
    RecordedKeys(a, p, es, ls);
    FreedKeys(Recorded(a, p, es, ls), p);
    if d in a.r {
      NewEntryLinks(a, p, cfg, d);
      RecordedEntry(a, p, es, ls, d);
      FreedEntry(Recorded(a, p, es, ls), p, d);
    }
  }

  /** One destination of the first announcing round. */
  lemma FirstAnnounced(b: State, p: nat, adv: Config, prev: nat, d: Dst)
    requires p > 0 && b.rib == map[]
    requires d in b.route ==> p in b.route[d] && b.route[d][p].prevPeer == prev
    ensures AgreesAt(Advertised(b, p, adv), p, d) <==>
            p <= 1 || adv.advertiseSame || !(d in b.route && b.route[d][p].currPeer == prev != 0)
  {
  }

  /** The peer of the round before, or 0. */
  ghost function PeerBefore(s: State, p: nat, d: Dst): nat {
    if HasEntry(s.route, d, p - 1) then s.route[d][p - 1].currPeer else 0
  }

  lemma EntryBefore(s: State, p: nat, x: RoundInput, d: Dst)
    requires Shape(s, p) && p > 0 && Legal(s, x)
    ensures var b := BeforeAdvertise(s, p, x);
      d in b.route ==> p in b.route[d] && b.route[d][p].prevPeer == PeerBefore(s, p, d)
  {
    AtScanAt(s, p, x, d);
    AtScanShape(s, p, x);
    EntryScanned(AtScan(s, p, x), p, x.cfg, d);
  }

  /** Unchanged destinations are announced too. */
  predicate AnnouncedAll(p: nat, x: RoundInput) { p <= 1 || x.adv.advertiseSame }

  lemma FirstAt(s: State, p: nat, x: RoundInput, d: Dst)
    requires Shape(s, p) && p > 0 && s.rib == map[] && Legal(s, x)
    ensures AgreesAt(Advertised(BeforeAdvertise(s, p, x), p, x.adv), p, d) <==>
            AnnouncedAll(p, x) || !KeepsPeer(s, p, x, d)
  {
    EmptyRib(s, p, x);
    EntryBefore(s, p, x, d);
    FirstAnnounced(BeforeAdvertise(s, p, x), p, x.adv, PeerBefore(s, p, d), d);
  }

  lemma FirstRound(s: State, p: nat, x: RoundInput)
    requires Shape(s, p) && p > 0 && s.rib == map[] && Legal(s, x)
    requires x.acked && !x.shutdown && x.adv.advertise
    ensures Agrees(RoundStep(s, p, x), p) <==> p == 1 || x.adv.advertiseSame || forall d :: !KeepsPeer(s, p, x, d)
  {
    assert RoundStep(s, p, x) == Advertised(BeforeAdvertise(s, p, x), p, x.adv);
    FirstRoundAll(s, p, x, Advertised(BeforeAdvertise(s, p, x), p, x.adv));
  }

  lemma FirstRoundAll(s: State, p: nat, x: RoundInput, f: State)
    requires Shape(s, p) && p > 0 && s.rib == map[] && Legal(s, x)
    requires f == Advertised(BeforeAdvertise(s, p, x), p, x.adv)
    ensures Agrees(f, p) <==> AnnouncedAll(p, x) || forall d :: !KeepsPeer(s, p, x, d)
  {
    forall d ensures AgreesAt(f, p, d) <==> AnnouncedAll(p, x) || !KeepsPeer(s, p, x, d) {
      FirstAt(s, p, x, d);
    }
  }

  lemma {:induction false} NothingAnnounced(xs: seq<RoundInput>, n: nat)
    requires n <= |xs| && forall i :: 0 <= i < n && xs[i].acked ==> !xs[i].adv.advertise
    ensures After(xs[..n]).rib == map[]
  {
    if n > 0 {
      NothingAnnounced(xs, n - 1);
      AfterNext(xs, n - 1);
      EmptyRib(After(xs[..n - 1]), n - 1, xs[n - 1]);
    }
  }

  /** In every run, skipped rounds included, the first round that announces leaves the
      advertised routes in agreement with the table if and only if it announces unchanged
      destinations too, or no destination keeps the peer of the round before. */
  lemma FirstAnnouncingIff(xs: seq<RoundInput>, n: nat)
    requires IsRun(xs) && 1 <= n < |xs|
    requires forall i :: 0 <= i < n && xs[i].acked ==> !xs[i].adv.advertise
    requires xs[n].acked && !xs[n].shutdown && xs[n].adv.advertise
    ensures AgreesAfter(xs, n) <==>
            n == 1 || xs[n].adv.advertiseSame || forall d :: !KeepsPeer(After(xs[..n]), n, xs[n], d)
  {
    NothingAnnounced(xs, n);
    RunShape(xs[..n]);
    AfterNext(xs, n);
    assert LegalAt(xs, n);
    FirstRound(After(xs[..n]), n, xs[n]);
  }
}
