/**
 A round without an acknowledgement is skipped, but the round number advances. The
 next processed round then finds no entry of the round before it: it withdraws no
 vanished destination and treats every destination as new.
 */
module SkippedRounds {
  import opened Tables
  import opened Selection
  import opened Phases
  import opened Runs
  import opened RibAgreement
  import opened Arrivals

  /** The state before round `p` when `q` was the last processed round, or -1. */
  ghost predicate AfterGap(s: State, q: int, p: nat) {
    && -1 <= q && q + 1 < p
    && Shape(s, q + 1)
    && (if q <= 0 then s.rib == map[] else Agrees(s, q))
  }

  /** No answer of `d` logged in the rounds of the deletion window before round `p`. */
  ghost predicate SilentBefore(s: State, p: nat, deepDelete: int, d: Dst) {
    p > deepDelete && !AnsweredWithin(GetOrEmpty(s.log, d), p - deepDelete, p - 1)
  }

  /** `d` is still listed and answers in round `p` or has been silent long enough, or it
      left the list and the loop withdraws it. */
  ghost predicate Renewed(s: State, p: nat, x: RoundInput, d: Dst) {
    var a := AtScan(s, p, x);
    if d !in x.dsts then Withdrawn(Received(s, x).r, s.route, x.dsts, x.order, p, x.keepRound, d)
    else
      && d in a.r
      && (Chosen(p, x.cfg.metric, GetOrEmpty(a.r[d], p)) != 0
          || SilentBefore(s, p, x.cfg.deepDelete, d))
  }

  lemma ShapeLater(s: State, q: int, p: int)
    requires Shape(s, q) && q <= p
    ensures Shape(s, p)
  {
  }

  /** With a round number of its own the loop withdraws nothing after a gap. */
  lemma NoneWithdrawn(s: State, q: int, p: nat, x: RoundInput, d: Dst)
    requires AfterGap(s, q, p) && x.keepRound
    ensures !Withdrawn(Received(s, x).r, s.route, x.dsts, x.order, p, true, d)
  {
    forall i: nat | i < |x.order|
      ensures !WithdrawTest(s.route, ProbeAt(Received(s, x).r, x.dsts, x.order, p, true, i), d)
    {
      KeptProbe(Received(s, x).r, x.dsts, x.order, p, i);
    }
  }

  /** The entry after a gap has no previous peer. */
  lemma GapEntry(a: State, p: nat, cfg: Config, d: Dst)
    requires d in a.r && p > 0 && !HasEntry(a.route, d, p - 1)
    ensures d in NewEntries(a, p, cfg)
    ensures NewEntries(a, p, cfg)[d].prevPeer == 0
    ensures NewEntries(a, p, cfg)[d].currPeer == Chosen(p, cfg.metric, GetOrEmpty(a.r[d], p))
  {
  }

  /** What the announcements start from, at one destination. */
  ghost predicate GapAt(b: State, p: nat, renewed: bool, had: bool, d: Dst) {
    && (d in b.route ==> p in b.route[d] && b.route[d][p].prevPeer == 0)
    && (d in b.rib ==> had)
    && (had && d !in b.rib ==> renewed && d !in b.route)
    && (had && d in b.rib ==> (renewed <==> d in b.route && b.route[d][p].currPeer != 0))
  }

  lemma GapAdvertised(b: State, p: nat, renewed: bool, had: bool, adv: Config, d: Dst)
    requires p > 0 && GapAt(b, p, renewed, had, d)
    ensures AgreesAt(Advertised(b, p, adv), p, d) <==> (had ==> renewed)
  {
  }

  lemma GapScanned(a: State, p: nat, cfg: Config, d: Dst)
    requires Shape(a, p) && p > 0 && !HasEntry(a.route, d, p - 1)
    ensures var f := Freed(Scanned(a, p, cfg), p);
      && f.rib == a.rib
      && (d in f.route <==> d in a.r)
      && (d in a.r ==> p in f.route[d] && f.route[d][p].prevPeer == 0
                       && f.route[d][p].currPeer == Chosen(p, cfg.metric, GetOrEmpty(a.r[d], p)))
  {
    NewEntriesKeys(a, p, cfg);
    if d in a.r {
      GapEntry(a, p, cfg, d);
    }
    GapRecorded(a, p, NewEntries(a, p, cfg), NewLogs(a, p, cfg), d);
  }

  lemma GapRecorded(a: State, p: nat, es: map<Dst, RtParm>, ls: map<Dst, Tlog>, d: Dst)
    requires Shape(a, p) && p > 0 && es.Keys == a.r.Keys
    ensures var f := Freed(Recorded(a, p, es, ls), p);
      && f.rib == a.rib
      && (d in f.route <==> d in a.r)
      && (d in a.r ==> p in f.route[d] && f.route[d][p] == es[d])
  {
    var c := Recorded(a, p, es, ls);
    RecordedKeys(a, p, es, ls);
    FreedKeys(c, p);
    if d in a.r {
      RecordedEntry(a, p, es, ls, d);
      FreedEntry(c, p, d);
    }
  }

  /** The entry and the log record of this round. */
  lemma GapLog(a: State, p: nat, es: map<Dst, RtParm>, ls: map<Dst, Tlog>, d: Dst)
    requires Shape(a, p) && p > 0 && es.Keys == a.r.Keys == ls.Keys && d in a.r
    ensures var f := Freed(Recorded(a, p, es, ls), p);
      && d in f.log && f.log[d] == GetOrEmpty(a.log, d)[p := ls[d]] && HasEntry(f.route, d, p)
  {
    GapRecorded(a, p, es, ls, d);
  }

  /** A destination silent in this round is deleted exactly when the log before it has no
      answer in the window either. */
  lemma SilentIff(f: State, l: map<int, Tlog>, t: Tlog, p: nat, deepDelete: int, d: Dst)
    requires d in f.log && f.log[d] == l[p := t] && HasEntry(f.route, d, p) && t.peer == 0
    requires forall q :: q in l ==> q < p
    ensures d in Silent(f, p, deepDelete) <==> p > deepDelete && !AnsweredWithin(l, p - deepDelete, p - 1)
  {
    if AnsweredWithin(l, p - deepDelete, p - 1) {
      var q :| p - deepDelete <= q <= p - 1 && q in l && l[q].peer != 0;
      assert f.log[d][q] == l[q];
    }
  }

  lemma GapSilent(a: State, p: nat, cfg: Config, d: Dst)
    requires Shape(a, p) && p > 0 && d in a.r && Chosen(p, cfg.metric, GetOrEmpty(a.r[d], p)) == 0
    ensures d in Silent(Freed(Scanned(a, p, cfg), p), p, cfg.deepDelete) <==> SilentBefore(a, p, cfg.deepDelete, d)
  {
    var es, ls := NewEntries(a, p, cfg), NewLogs(a, p, cfg);
    NewEntriesKeys(a, p, cfg);
    GapLog(a, p, es, ls, d);
    SilentIff(Freed(Recorded(a, p, es, ls), p), GetOrEmpty(a.log, d), ls[d], p, cfg.deepDelete, d);
  }

  lemma GapListed(s: State, q: int, p: nat, x: RoundInput, d: Dst)
    requires AfterGap(s, q, p) && Legal(s, x) && d in x.dsts
    ensures GapAt(BeforeAdvertise(s, p, x), p, Renewed(s, p, x, d), d in s.rib, d)
  {
    ShapeLater(s, q + 1, p);
    var a := AtScan(s, p, x);
    AtScanAt(s, p, x, d);
    AtScanShape(s, p, x);
    GapScanned(a, p, x.cfg, d);
    if d in a.r && Chosen(p, x.cfg.metric, GetOrEmpty(a.r[d], p)) == 0 {
      GapSilent(a, p, x.cfg, d);
    }
  }

  lemma GapVanished(s: State, q: int, p: nat, x: RoundInput, d: Dst)
    requires AfterGap(s, q, p) && Legal(s, x) && d !in x.dsts
    ensures GapAt(BeforeAdvertise(s, p, x), p, Renewed(s, p, x, d), d in s.rib, d)
  {
    ShapeLater(s, q + 1, p);
    VanishedAt(s, p, x, d);
  }

  /** The round after a gap leaves the advertised routes in agreement with the table
      exactly when every advertised destination is renewed in it: one that leaves the
      list and is not withdrawn, or that stays silent, remains advertised. */
  lemma AgreementAfterGapIff(s: State, q: int, p: nat, x: RoundInput)
    requires AfterGap(s, q, p) && Legal(s, x)
    requires x.acked && !x.shutdown && x.adv.advertise
    ensures Agrees(RoundStep(s, p, x), p) <==> forall d :: d in s.rib ==> Renewed(s, p, x, d)
  {
    var b := BeforeAdvertise(s, p, x);
    assert RoundStep(s, p, x) == Advertised(b, p, x.adv);
    forall d ensures AgreesAt(Advertised(b, p, x.adv), p, d) <==> (d in s.rib ==> Renewed(s, p, x, d)) {
      if d in x.dsts {
        GapListed(s, q, p, x, d);
      } else {
        GapVanished(s, q, p, x, d);
      }
      GapAdvertised(b, p, Renewed(s, p, x, d), d in s.rib, x.adv, d);
    }
  }

  // ----- runs with skipped rounds -----

  /** The last processed round before round `n`, or -1. */
  function Last(xs: seq<RoundInput>, n: nat): (q: int)
    requires n <= |xs|
    ensures -1 <= q < n
  {
    if n == 0 then -1 else if xs[n - 1].acked then n - 1 else Last(xs, n - 1)
  }

  /** Before round `n`, with `q` the last processed round, and all well so far. */
  ghost predicate Settled(s: State, q: int, n: nat) {
    if q == n - 1 then Steady(s, n) else AfterGap(s, q, n)
  }

  lemma SkippedStep(s: State, q: int, n: nat, x: RoundInput)
    requires Settled(s, q, n) && -1 <= q < n && !x.acked
    ensures Settled(RoundStep(s, n, x), q, n + 1)
  {
    ReceivedShape(s, q + 1, x);
    assert forall d :: AgreesAt(s, q, d) <==> AgreesAt(Received(s, x), q, d);
  }

  /** Round `p` does for every advertised destination what agreement needs: after a
      processed round it loses no withdraw, after a skipped one it renews all. */
  ghost predicate Sound(s: State, q: int, p: nat, x: RoundInput) {
    if q == p - 1 then forall d :: !Lost(Received(s, x), p, x, d)
    else forall d :: d in s.rib ==> Renewed(s, p, x, d)
  }

  lemma ProcessedStep(s: State, q: int, p: nat, x: RoundInput)
    requires Settled(s, q, p) && -1 <= q < p && Legal(s, x)
    requires x.acked && !x.shutdown && x.adv.advertise
    ensures p > 0 ==> (Agrees(RoundStep(s, p, x), p) <==> Sound(s, q, p, x))
    ensures (p > 0 ==> Sound(s, q, p, x)) ==> Settled(RoundStep(s, p, x), p, p + 1)
  {
    if q < p - 1 {
      AgreementAfterGapIff(s, q, p, x);
      ShapeLater(s, q + 1, p);
      StepShape(s, p, x);
      EntriesPresent(s, p, x);
    } else {
      if p > 0 {
        RoundAgreement(s, p, x);
      }
      if p > 0 ==> Sound(s, q, p, x) {
        SteadyStep(s, p, x);
      }
    }
  }

  /** Round `n`, if processed, leaves the advertised routes in agreement. */
  ghost predicate AgreesIfProcessed(xs: seq<RoundInput>, n: nat)
    requires n < |xs|
  {
    xs[n].acked ==> AgreesAfter(xs, n)
  }

  ghost predicate SoundIfProcessed(xs: seq<RoundInput>, n: nat)
    requires n < |xs|
  {
    xs[n].acked ==> Sound(After(xs[..n]), Last(xs, n), n, xs[n])
  }

  /** A run of either loop in which any rounds may be skipped, none shuts down, and the
      processed ones announce. */
  ghost predicate WithSkips(xs: seq<RoundInput>) {
    && IsRun(xs)
    && forall i :: 0 <= i < |xs| ==> !xs[i].shutdown && (xs[i].acked ==> xs[i].adv.advertise)
  }

  ghost predicate SettledAt(xs: seq<RoundInput>, n: nat)
    requires n <= |xs|
  {
    Settled(After(xs[..n]), Last(xs, n), n)
  }

  lemma RunRound(xs: seq<RoundInput>, n: nat)
    requires n < |xs| && WithSkips(xs) && SettledAt(xs, n)
    ensures n > 0 ==> (AgreesIfProcessed(xs, n) <==> SoundIfProcessed(xs, n))
    ensures (n > 0 ==> SoundIfProcessed(xs, n)) ==> SettledAt(xs, n + 1)
  {
    AfterNext(xs, n);
    assert LegalAt(xs, n);
    if xs[n].acked {
      ProcessedStep(After(xs[..n]), Last(xs, n), n, xs[n]);
    } else {
      SkippedStep(After(xs[..n]), Last(xs, n), n, xs[n]);
    }
  }

  ghost predicate AgreesBefore(xs: seq<RoundInput>, n: nat)
    requires n <= |xs|
  {
    forall m :: 1 <= m < n ==> AgreesIfProcessed(xs, m)
  }

  ghost predicate SoundBefore(xs: seq<RoundInput>, n: nat)
    requires n <= |xs|
  {
    forall m :: 1 <= m < n ==> SoundIfProcessed(xs, m)
  }

  lemma BeforeNext(xs: seq<RoundInput>, k: nat)
    requires k < |xs|
    ensures AgreesBefore(xs, k + 1) <==> AgreesBefore(xs, k) && (k > 0 ==> AgreesIfProcessed(xs, k))
    ensures SoundBefore(xs, k + 1) <==> SoundBefore(xs, k) && (k > 0 ==> SoundIfProcessed(xs, k))
  {
  }

  lemma {:induction false} PrefixSettled(xs: seq<RoundInput>, n: nat)
    requires n <= |xs| && WithSkips(xs)
    ensures AgreesBefore(xs, n) <==> SoundBefore(xs, n)
    ensures SoundBefore(xs, n) ==> SettledAt(xs, n)
  {
    if n > 0 {
      var k := n - 1;
      PrefixSettled(xs, k);
      BeforeNext(xs, k);
      if SoundBefore(xs, k) {
        RunRound(xs, k);
      }
    }
  }

  /** Whichever rounds of a run are skipped: the advertised routes agree with the table
      after every processed round exactly when every round that follows a processed one
      loses no withdraw, and every round that follows a skipped one renews all that is
      advertised. */
  lemma AgreementWithSkipsIff(xs: seq<RoundInput>)
    requires WithSkips(xs)
    ensures (forall n :: 1 <= n < |xs| ==> AgreesIfProcessed(xs, n)) <==>
            (forall n :: 1 <= n < |xs| ==> SoundIfProcessed(xs, n))
  {
    PrefixSettled(xs, |xs|);
  }

  // ----- a run that a skipped round leaves in disagreement -----

  /** `b` leaves the list in the round after a skipped one. */
  lemma LeavesAfterSkip(s: State, x: RoundInput, b: Dst)
    requires Steady(s, 2) && NewlyRouted(s.route, b)
    requires Legal(s, x) && x.keepRound && x.acked && !x.shutdown && b !in x.dsts
    ensures var f := RoundStep(s, 3, x); b in f.rib && b !in f.route
  {
    assert AgreesAt(s, 1, b);
    NoneWithdrawn(s, 1, 3, x, b);
    ShapeLater(s, 2, 3);
    VanishedAt(s, 3, x, b);
  }

  ghost predicate BothLeaveAfterSkip(xs: seq<RoundInput>, a: Dst, b: Dst) {
    && |xs| == 4 && Starts(xs, a, b)
    && xs[2].replies == [] && xs[2].order == [a, b] && !xs[2].acked && !xs[2].shutdown
    && xs[3].replies == [] && xs[3].order == [a, b] && b !in xs[3].dsts
    && xs[3].acked && !xs[3].shutdown && xs[3].adv.advertise && xs[3].keepRound
  }

  lemma SkippedNext(xs: seq<RoundInput>, a: Dst, b: Dst)
    requires BothLeaveAfterSkip(xs, a, b)
    ensures LegalAt(xs, 2) && LegalAt(xs, 3)
    ensures After(xs) == RoundStep(After(xs[..2]), 3, xs[3])
  {
    BothArrive(xs, a, b);
    AfterNext(xs, 2);
    assert After(xs[..3]) == After(xs[..2]);
    QuietLegal(After(xs[..2]), xs[2], a, b);
    QuietLegal(After(xs[..2]), xs[3], a, b);
  }

  lemma FourLegal(xs: seq<RoundInput>)
    requires |xs| == 4 && LegalAt(xs, 0) && LegalAt(xs, 1) && LegalAt(xs, 2) && LegalAt(xs, 3)
    ensures IsRun(xs)
  {
    forall i: nat | i < |xs| ensures LegalAt(xs, i) {
      if i == 0 {
      } else if i == 1 {
      } else if i == 2 {
      }
    }
  }

  lemma SkipLeavesRoute(xs: seq<RoundInput>, a: Dst, b: Dst)
    requires BothLeaveAfterSkip(xs, a, b)
    ensures IsRun(xs)
    ensures b in After(xs).rib && b !in After(xs).route
  {
    BothArrive(xs, a, b);
    SkippedNext(xs, a, b);
    FourLegal(xs);
    LeavesAfterSkip(After(xs[..2]), xs[3], b);
  }

  /** Any two destinations, listed in three rounds, the last of them skipped, and then
      replaced by any others: a run of the loop with a round number of its own that ends
      with a route advertised that no table knows. */
  lemma RouteLeftBySkip(a: Dst, b: Dst, later: set<Dst>) returns (xs: seq<RoundInput>)
    requires a != b && a !in later && b !in later
    ensures WithSkips(xs) && |xs| == 4
    ensures xs[0].dsts == xs[1].dsts == xs[2].dsts == {a, b} && xs[3].dsts == later
    ensures forall i :: 0 <= i < |xs| ==> xs[i].keepRound && (xs[i].acked <==> i != 2)
    ensures b in After(xs).rib && b !in After(xs).route
  {
    var cfg := PlainConfig();
    xs := Arriving(true, a, b) + [RoundInput([], false, {a, b}, [a, b], true, cfg, false, cfg),
                                  RoundInput([], true, later, [a, b], true, cfg, false, cfg)];
    SkipLeavesRoute(xs, a, b);
  }
}
