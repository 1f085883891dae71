/**
 The vanished-destination loop as written, in ordinary runs: which withdraws it
 loses, and a run in which it loses one.
 */
module LostWithdraws {
  import opened Tables
  import opened Filing
  import opened Phases
  import opened Runs
  import opened RibAgreement
  import opened Arrivals

  /** Replies of round `p`: at most one round late, and to this round's probes only
      from destinations on the list. */
  ghost predicate Ordinary(x: RoundInput, p: nat) {
    forall i :: 0 <= i < |x.replies| ==>
      var y := x.replies[i];
      (p > 0 && y.probe == p - 1) || (y.probe == p && y.src in x.dsts)
  }

  /** Before round `p` every measured destination has a table for the round before,
      and none for a later one. */
  ghost predicate Tight(r: RTable, p: nat) {
    forall d :: d in r ==> (p > 0 ==> p - 1 in r[d]) && forall q :: q in r[d] ==> q < p
  }

  lemma {:induction false} FiledNonempty(r: RTable, xs: seq<Reply>, d: Dst)
    requires d in FiledAll(r, xs) && d !in r
    ensures exists q :: q in FiledAll(r, xs)[d]
  {
    if xs != [] {
      var front := xs[..|xs| - 1];
      if d in FiledAll(r, front) {
        FiledNonempty(r, front, d);
        var q :| q in FiledAll(r, front)[d];
        assert q in FiledAll(r, xs)[d];
      } else {
        assert xs[|xs| - 1].probe in FiledAll(r, xs)[d];
      }
    }
  }

  /** A vanished destination's last round is the round before this one. */
  lemma VanishedLastRound(s: State, p: nat, x: RoundInput, d: Dst)
    requires Shape(s, p) && p > 0 && Tight(s.r, p) && Ordinary(x, p)
    requires d in Received(s, x).r && d !in x.dsts
    ensures CarriedProbe(Received(s, x).r, p, d, false) == p - 1
    ensures CarriedProbe(Received(s, x).r, p - 1, d, false) == p - 1
  {
    var r' := Received(s, x).r;
    FiledAllShape(s.r, x.replies);
    forall q | q in r'[d] ensures q <= p - 1 {
      FiledRound(s.r, x.replies, d, q);
    }
    if d !in s.r {
      FiledNonempty(s.r, x.replies, d);
      var q :| q in r'[d];
      FiledRound(s.r, x.replies, d, q);
    }
    assert p - 1 in r'[d].Keys;
  }

  ghost predicate AnyVanished(dsts: set<Dst>, order: seq<Dst>, i: nat)
    requires i <= |order|
  {
    exists j :: 0 <= j < i && order[j] !in dsts
  }

  lemma {:induction false} CarriedInOrder(r: RTable, dsts: set<Dst>, order: seq<Dst>, p: int, probe: int, i: nat)
    requires i < |order| && (probe == p || probe == p - 1)
    requires forall j :: 0 <= j < |order| && order[j] !in dsts ==>
               CarriedProbe(r, p, order[j], false) == p - 1 && CarriedProbe(r, p - 1, order[j], false) == p - 1
    ensures ProbeAt(r, dsts, order, probe, false, i) ==
            if probe == p - 1 || AnyVanished(dsts, order, i) then p - 1 else p
    decreases i
  {
    if i > 0 {
      var next := if order[0] in dsts then probe else CarriedProbe(r, probe, order[0], false);
      CarriedInOrder(r, dsts, order[1..], p, next, i - 1);
      if AnyVanished(dsts, order[1..], i - 1) {
        var j :| 0 <= j < i - 1 && order[1..][j] !in dsts;
        assert order[j + 1] !in dsts;
      }
      if AnyVanished(dsts, order, i) && order[0] in dsts {
        var j :| 0 <= j < i && order[j] !in dsts;
        assert order[1..][j - 1] !in dsts;
      }
    }
  }

  /** `d` comes after another vanished destination in the iteration order. */
  ghost predicate NotFirstVanished(x: RoundInput, d: Dst) {
    exists i: nat :: i < |x.order| && x.order[i] == d && AnyVanished(x.dsts, x.order, i)
  }

  /** In ordinary runs the loop as written loses the withdraw of an advertised
      destination exactly when another destination vanished before it in the same
      round and it had no peer two rounds ago. */
  lemma LostInOrdinaryRuns(s: State, p: nat, x: RoundInput, d: Dst)
    requires Steady(s, p) && p > 0 && Legal(s, x) && !x.keepRound
    requires Tight(s.r, p) && Ordinary(x, p)
    ensures Lost(Received(s, x), p, x, d) <==>
            d in s.rib && d !in x.dsts && NotFirstVanished(x, d) && !WithdrawTest(s.route, p - 1, d)
  {
    if d in s.rib && d !in x.dsts {
      var t := Received(s, x);
      FiledAllShape(s.r, x.replies);
      assert AgreesAt(s, p - 1, d);
      assert d in x.order;
      var i: nat :| i < |x.order| && x.order[i] == d;
      forall j | 0 <= j < |x.order| && x.order[j] !in x.dsts
        ensures CarriedProbe(t.r, p, x.order[j], false) == p - 1
        ensures CarriedProbe(t.r, p - 1, x.order[j], false) == p - 1
      {
        assert x.order[j] in x.order;
        VanishedLastRound(s, p, x, x.order[j]);
      }
      CarriedInOrder(t.r, x.dsts, x.order, p, p, i);
      assert WithdrawTest(t.route, p, d);
      OnlyPosition(x.order, i);
      assert Withdrawn(t.r, t.route, x.dsts, x.order, p, false, d) <==>
             WithdrawTest(t.route, ProbeAt(t.r, x.dsts, x.order, p, false, i), d);
      assert NotFirstVanished(x, d) <==> AnyVanished(x.dsts, x.order, i);
    }
  }

  lemma OnlyPosition(order: seq<Dst>, i: nat)
    requires i < |order|
    requires forall a, b :: 0 <= a < b < |order| ==> order[a] != order[b]
    ensures forall j: nat :: j < |order| && order[j] == order[i] ==> j == i
  {
  }

  // ----- runs -----

  lemma AtScanTight(s: State, p: nat, x: RoundInput)
    requires Tight(s.r, p) && Ordinary(x, p)
    ensures Tight(AtScan(s, p, x).r, p + 1)
  {
    var t := Received(s, x);
    forall d, q | d in t.r && q in t.r[d] ensures q <= p {
      FiledRound(s.r, x.replies, d, q);
    }
  }

  lemma ClearedTight(r: RTable, p: nat)
    requires Tight(r, p + 1)
    ensures Tight(Touched(r, p), p + 1)
    ensures p >= 2 ==> Tight(Cleared(r, p - 2), p + 1)
  {
  }

  lemma AfterScanTight(a: State, p: nat, x: RoundInput)
    requires Tight(a.r, p + 1)
    ensures Tight(Deleted(Freed(Scanned(a, p, x.cfg), p), p, x.cfg.deepDelete).r, p + 1)
  {
    ClearedTight(a.r, p);
    ClearedTight(Touched(a.r, p), p);
  }

  lemma TightStep(s: State, p: nat, x: RoundInput)
    requires Tight(s.r, p) && Ordinary(x, p) && x.acked
    ensures Tight(RoundStep(s, p, x).r, p + 1)
  {
    AtScanTight(s, p, x);
    AfterScanTight(AtScan(s, p, x), p, x);
    FinishTight(BeforeAdvertise(s, p, x), p, x);
  }

  /** The last step of a round: shut down, announce, or neither. */
  lemma FinishTight(b: State, p: nat, x: RoundInput)
    requires Tight(b.r, p + 1)
    ensures Tight(DeletedAll(b, p).r, p + 1) && Tight(Advertised(b, p, x.adv).r, p + 1)
  {
  }

  ghost predicate OrdinaryRun(xs: seq<RoundInput>) {
    forall i :: 0 <= i < |xs| ==> xs[i].acked && Ordinary(xs[i], i)
  }

  lemma {:induction false} RunTight(xs: seq<RoundInput>, n: nat)
    requires n <= |xs| && OrdinaryRun(xs)
    ensures Tight(After(xs[..n]).r, n)
  {
    if n > 0 {
      RunTight(xs, n - 1);
      TightNext(xs, n - 1);
    }
  }

  lemma TightNext(xs: seq<RoundInput>, n: nat)
    requires n < |xs| && xs[n].acked && Ordinary(xs[n], n) && Tight(After(xs[..n]).r, n)
    ensures Tight(After(xs[..n + 1]).r, n + 1)
  {
    AfterNext(xs, n);
    TightStep(After(xs[..n]), n, xs[n]);
  }

  /** Before round `n`: every advertised destination that leaves the list behind another
      one, in iteration order, had a peer two rounds ago. */
  ghost predicate WithdrawnInTime(xs: seq<RoundInput>, n: nat)
    requires n < |xs|
  {
    var s := After(xs[..n]);
    forall d :: d in s.rib && d !in xs[n].dsts && NotFirstVanished(xs[n], d) ==> WithdrawTest(s.route, n - 1, d)
  }

  /** Every round processed and none shut down, by the loop as written. */
  ghost predicate AsWritten(xs: seq<RoundInput>) {
    && IsRun(xs) && OrdinaryRun(xs) && AllProcessed(xs)
    && forall i :: 0 <= i < |xs| ==> !xs[i].shutdown && !xs[i].keepRound
  }

  lemma RoundLosesNothingIff(xs: seq<RoundInput>, n: nat)
    requires 1 <= n < |xs| && AsWritten(xs) && LosesNothingThrough(xs, n)
    ensures NothingLostAt(xs, n) <==> WithdrawnInTime(xs, n)
  {
    var s := After(xs[..n]);
    PrefixAgreement(xs, n);
    RunTight(xs, n);
    assert LegalAt(xs, n);
    forall d
      ensures Lost(Received(s, xs[n]), n, xs[n], d) <==>
              d in s.rib && d !in xs[n].dsts && NotFirstVanished(xs[n], d) && !WithdrawTest(s.route, n - 1, d)
    {
      LostInOrdinaryRuns(s, n, xs[n], d);
    }
  }

  ghost predicate InTimeThrough(xs: seq<RoundInput>, n: nat)
    requires n <= |xs|
  {
    forall m :: 1 <= m < n ==> WithdrawnInTime(xs, m)
  }

  lemma InTimeNext(xs: seq<RoundInput>, k: nat)
    requires k < |xs|
    ensures InTimeThrough(xs, k + 1) <==> InTimeThrough(xs, k) && (k > 0 ==> WithdrawnInTime(xs, k))
  {
  }

  lemma {:induction false} PrefixInTime(xs: seq<RoundInput>, n: nat)
    requires n <= |xs| && AsWritten(xs)
    ensures LosesNothingThrough(xs, n) <==> InTimeThrough(xs, n)
  {
    if n > 1 {
      PrefixInTime(xs, n - 1);
      ThroughNext(xs, n - 1);
      InTimeNext(xs, n - 1);
      if LosesNothingThrough(xs, n - 1) {
        RoundLosesNothingIff(xs, n - 1);
      }
    }
  }

  /** An ordinary run of the loop as written: the advertised routes agree with the table
      after every round if and only if in no round an advertised destination leaves the
      list behind another one without having had a peer two rounds ago. */
  lemma OrdinaryRunAgreesIff(xs: seq<RoundInput>)
    requires AsWritten(xs)
    ensures (forall n :: 1 <= n < |xs| ==> AgreesAfter(xs, n)) <==>
            (forall n :: 1 <= n < |xs| ==> WithdrawnInTime(xs, n))
  {
    PrefixAgreement(xs, |xs|);
    PrefixInTime(xs, |xs|);
  }

  // ----- any replies -----

  /** Position `j` is the last before `i` at which a destination outside the list stands. */
  ghost predicate LastVanished(dsts: set<Dst>, order: seq<Dst>, i: nat, j: nat) {
    && j < i < |order| && order[j] !in dsts
    && forall k :: j < k < i ==> order[k] in dsts
  }

  lemma {:induction false} ProbeKept(r: RTable, dsts: set<Dst>, order: seq<Dst>, probe: int, i: nat)
    requires i < |order| && forall k :: 0 <= k < i ==> order[k] in dsts
    ensures ProbeAt(r, dsts, order, probe, false, i) == probe
    decreases i
  {
    if i > 0 {
      ProbeKept(r, dsts, order[1..], probe, i - 1);
    }
  }

  /** The round number the loop holds is the last round of the destination it dropped last. */
  lemma {:induction false} ProbeCarried(r: RTable, dsts: set<Dst>, order: seq<Dst>, probe: int, i: nat, j: nat)
    requires LastVanished(dsts, order, i, j) && order[j] in r && r[order[j]].Keys != {}
    ensures ProbeAt(r, dsts, order, probe, false, i) == MaxKey(r[order[j]].Keys)
    decreases i
  {
    var next := if order[0] in dsts then probe else CarriedProbe(r, probe, order[0], false);
    if j == 0 {
      assert forall k :: 0 <= k < i - 1 ==> order[1..][k] == order[k + 1];
      ProbeKept(r, dsts, order[1..], next, i - 1);
    } else {
      assert forall k :: 0 <= k < i ==> order[1..][k] == order[k + 1];
      ProbeCarried(r, dsts, order[1..], next, i - 1, j - 1);
    }
  }

  lemma {:induction false} LastVanishedExists(dsts: set<Dst>, order: seq<Dst>, i: nat) returns (j: nat)
    requires i < |order| && AnyVanished(dsts, order, i)
    ensures LastVanished(dsts, order, i, j)
  {
    if order[i - 1] !in dsts {
      j := i - 1;
    } else {
      assert AnyVanished(dsts, order, i - 1);
      j := LastVanishedExists(dsts, order, i - 1);
    }
  }

  /** Every measured destination has a table for some round. */
  ghost predicate Populated(r: RTable) { forall d :: d in r ==> r[d].Keys != {} }

  /** The loop drops another destination before `d`, and at the last round of the last one
      it drops, `d` had no peer in the round before. */
  ghost predicate TooLate(s: State, x: RoundInput, d: Dst) {
    exists i: nat, j: nat :: LastVanished(x.dsts, x.order, i, j) && x.order[i] == d
      && x.order[j] in Received(s, x).r && Received(s, x).r[x.order[j]].Keys != {}
      && !WithdrawTest(s.route, MaxKey(Received(s, x).r[x.order[j]].Keys), d)
  }

  lemma LostAtPosition(s: State, p: nat, x: RoundInput, d: Dst, i: nat)
    requires Legal(s, x) && !x.keepRound && i < |x.order| && x.order[i] == d && d !in x.dsts
    ensures var t := Received(s, x);
      Withdrawn(t.r, t.route, x.dsts, x.order, p, false, d) <==>
      WithdrawTest(t.route, ProbeAt(t.r, x.dsts, x.order, p, false, i), d)
  {
    OnlyPosition(x.order, i);
  }

  /** In any round of the loop as written, whatever replies it received: a withdraw is lost
      exactly when it comes too late. */
  lemma LostIff(s: State, p: nat, x: RoundInput, d: Dst)
    requires Steady(s, p) && p > 0 && Legal(s, x) && !x.keepRound && Populated(Received(s, x).r)
    ensures Lost(Received(s, x), p, x, d) <==> d in s.rib && d !in x.dsts && TooLate(s, x, d)
  {
    if d in s.rib && d !in x.dsts {
      var t := Received(s, x);
      FiledAllShape(s.r, x.replies);
      assert AgreesAt(s, p - 1, d);
      assert d in x.order;
      var i: nat :| i < |x.order| && x.order[i] == d;
      LostAtPosition(s, p, x, d, i);
      assert WithdrawTest(t.route, p, d);
      if AnyVanished(x.dsts, x.order, i) {
        var j := LastVanishedExists(x.dsts, x.order, i);
        assert x.order[j] in x.order;
        ProbeCarried(t.r, x.dsts, x.order, p, i, j);
        LatePosition(s, x, d, i, j);
      } else {
        assert forall k :: 0 <= k < i ==> x.order[k] in x.dsts;
        ProbeKept(t.r, x.dsts, x.order, p, i);
        NeverLate(s, x, d, i);
      }
    }
  }

  lemma LatePosition(s: State, x: RoundInput, d: Dst, i: nat, j: nat)
    requires Legal(s, x) && LastVanished(x.dsts, x.order, i, j) && x.order[i] == d
    requires x.order[j] in Received(s, x).r && Received(s, x).r[x.order[j]].Keys != {}
    ensures TooLate(s, x, d) <==> !WithdrawTest(s.route, MaxKey(Received(s, x).r[x.order[j]].Keys), d)
  {
    OnlyPosition(x.order, i);
    forall j': nat | LastVanished(x.dsts, x.order, i, j') ensures j' == j {
      OneLast(x.dsts, x.order, i, j, j');
    }
  }

  lemma OneLast(dsts: set<Dst>, order: seq<Dst>, i: nat, j: nat, j': nat)
    requires LastVanished(dsts, order, i, j) && LastVanished(dsts, order, i, j')
    ensures j == j'
  {
  }

  lemma NeverLate(s: State, x: RoundInput, d: Dst, i: nat)
    requires Legal(s, x) && i < |x.order| && x.order[i] == d && !AnyVanished(x.dsts, x.order, i)
    ensures !TooLate(s, x, d)
  {
    OnlyPosition(x.order, i);
  }

  lemma FiledPopulated(r: RTable, y: Reply)
    requires Populated(r)
    ensures Populated(Filed(r, y))
  {
    forall d | d in Filed(r, y) ensures Filed(r, y)[d].Keys != {} {
      assert d == y.src ==> y.probe in Filed(r, y)[d] || d in r;
    }
  }

  lemma {:induction false} ReceivedPopulated(r: RTable, ys: seq<Reply>)
    requires Populated(r)
    ensures Populated(FiledAll(r, ys))
  {
    if ys != [] {
      ReceivedPopulated(r, ys[..|ys| - 1]);
      FiledPopulated(FiledAll(r, ys[..|ys| - 1]), ys[|ys| - 1]);
    }
  }

  lemma TouchedPopulated(r: RTable, q: int)
    requires Populated(r)
    ensures Populated(Touched(r, q)) && Populated(Cleared(r, q))
  {
    forall d | d in r ensures q in Touched(r, q)[d] && q in Cleared(r, q)[d] {
    }
  }

  lemma PhasesPopulated(a: State, p: nat, x: RoundInput)
    requires Populated(a.r)
    ensures Populated(Deleted(Freed(Scanned(a, p, x.cfg), p), p, x.cfg.deepDelete).r)
  {
    TouchedPopulated(a.r, p);
    if p >= 2 {
      TouchedPopulated(Touched(a.r, p), p - 2);
    }
  }

  lemma AggregatedPopulated(s: State, p: int, pingReq: int)
    ensures Populated(Aggregated(s, p, pingReq).r)
  {
    forall d | d in s.r ensures p in Aggregated(s, p, pingReq).r[d] {
    }
  }

  lemma FinishedPopulated(b: State, p: nat, x: RoundInput)
    requires Populated(b.r)
    ensures Populated(Finished(b, p, x).r)
  {
  }

  lemma StepPopulated(s: State, p: nat, x: RoundInput)
    requires Populated(s.r)
    ensures Populated(RoundStep(s, p, x).r)
  {
    if x.acked {
      AggregatedPopulated(Updated(Received(s, x), p, x.dsts, x.order, x.keepRound), p, x.cfg.pingReq);
      PhasesPopulated(AtScan(s, p, x), p, x);
      FinishedPopulated(BeforeAdvertise(s, p, x), p, x);
    } else {
      ReceivedPopulated(s.r, x.replies);
    }
  }

  lemma {:induction false} RunPopulated(xs: seq<RoundInput>, n: nat)
    requires n <= |xs|
    ensures Populated(After(xs[..n]).r)
  {
    if n > 0 {
      RunPopulated(xs, n - 1);
      AfterNext(xs, n - 1);
      StepPopulated(After(xs[..n - 1]), n - 1, xs[n - 1]);
    }
  }

  /** Before round `n`: no advertised destination that leaves the list comes too late. */
  ghost predicate NoneTooLate(xs: seq<RoundInput>, n: nat)
    requires n < |xs|
  {
    var s := After(xs[..n]);
    forall d :: d in s.rib && d !in xs[n].dsts ==> !TooLate(s, xs[n], d)
  }

  /** Every round processed and none shut down, by the loop as written, on any replies. */
  ghost predicate WrittenRun(xs: seq<RoundInput>) {
    && IsRun(xs) && AllProcessed(xs)
    && forall i :: 0 <= i < |xs| ==> !xs[i].shutdown && !xs[i].keepRound
  }

  lemma RoundInTimeIff(xs: seq<RoundInput>, n: nat)
    requires 1 <= n < |xs| && WrittenRun(xs) && LosesNothingThrough(xs, n)
    ensures NothingLostAt(xs, n) <==> NoneTooLate(xs, n)
  {
    var s := After(xs[..n]);
    PrefixAgreement(xs, n);
    RunPopulated(xs, n);
    ReceivedPopulated(s.r, xs[n].replies);
    assert LegalAt(xs, n);
    forall d ensures Lost(Received(s, xs[n]), n, xs[n], d) <==> d in s.rib && d !in xs[n].dsts && TooLate(s, xs[n], d) {
      LostIff(s, n, xs[n], d);
    }
  }

  ghost predicate NoneLateThrough(xs: seq<RoundInput>, n: nat)
    requires n <= |xs|
  {
    forall m :: 1 <= m < n ==> NoneTooLate(xs, m)
  }

  lemma NoneLateNext(xs: seq<RoundInput>, k: nat)
    requires k < |xs|
    ensures NoneLateThrough(xs, k + 1) <==> NoneLateThrough(xs, k) && (k > 0 ==> NoneTooLate(xs, k))
  {
  }

  lemma {:induction false} PrefixNoneLate(xs: seq<RoundInput>, n: nat)
    requires n <= |xs| && WrittenRun(xs)
    ensures LosesNothingThrough(xs, n) <==> NoneLateThrough(xs, n)
  {
    if n > 1 {
      PrefixNoneLate(xs, n - 1);
      ThroughNext(xs, n - 1);
      NoneLateNext(xs, n - 1);
      if LosesNothingThrough(xs, n - 1) {
        RoundInTimeIff(xs, n - 1);
      }
    }
  }

  /** Any run of the loop as written: the advertised routes agree with the table after every
      round if and only if in no round a destination that leaves the list comes too late. */
  lemma WrittenRunAgreesIff(xs: seq<RoundInput>)
    requires WrittenRun(xs)
    ensures (forall n :: 1 <= n < |xs| ==> AgreesAfter(xs, n)) <==> (forall n :: 1 <= n < |xs| ==> NoneTooLate(xs, n))
  {
    PrefixAgreement(xs, |xs|);
    PrefixNoneLate(xs, |xs|);
  }

  // ----- a run that loses a withdraw -----

  /** After two rounds in which `a` and `b` arrive, both leave the list in round 2, `a`
      first in iteration order. */
  ghost predicate TwoLeaveTogether(xs: seq<RoundInput>, a: Dst, b: Dst) {
    && |xs| == 3 && Starts(xs, a, b)
    && (forall i :: 0 <= i < 3 ==> xs[i].acked && !xs[i].shutdown && xs[i].adv.advertise && !xs[i].keepRound)
    && xs[2].replies == [] && xs[2].order == [a, b] && a !in xs[2].dsts && b !in xs[2].dsts
  }

  /** In this run every round is processed and advertised, and after round 2 the route
      to `b` is still advertised though `b` is in no table. */
  lemma TwoLeaveLosesOne(xs: seq<RoundInput>, a: Dst, b: Dst)
    requires TwoLeaveTogether(xs, a, b)
    ensures LegalAt(xs, 0) && LegalAt(xs, 1) && LegalAt(xs, 2)
    ensures b in After(xs).rib && b !in After(xs).route
  {
    BothArrive(xs, a, b);
    ExampleTight(xs, a, b);
    QuietLegal(After(xs[..2]), xs[2], a, b);
    ExampleEnd(After(xs[..2]), xs[2], a, b);
    ExampleLast(xs);
  }

  lemma TwoLeaveExists(a: Dst, b: Dst, later: set<Dst>) returns (xs: seq<RoundInput>)
    requires a != b && a !in later && b !in later
    ensures TwoLeaveTogether(xs, a, b)
    ensures xs[0].dsts == xs[1].dsts == {a, b} && xs[2].dsts == later
  {
    var cfg := PlainConfig();
    xs := Arriving(false, a, b) + [RoundInput([], true, later, [a, b], false, cfg, false, cfg)];
  }

  lemma ThreeLegal(xs: seq<RoundInput>)
    requires |xs| == 3 && LegalAt(xs, 0) && LegalAt(xs, 1) && LegalAt(xs, 2)
    ensures IsRun(xs)
  {
    forall i: nat | i < |xs| ensures LegalAt(xs, i) {
      if i == 0 {
      } else if i == 1 {
      }
    }
  }

  /** Any two destinations, listed in two rounds and then replaced by any others: a run of
      the loop as written, with every round processed and none shut down, that ends with
      a route advertised that no table knows. */
  lemma WithdrawLost(a: Dst, b: Dst, later: set<Dst>) returns (xs: seq<RoundInput>)
    requires a != b && a !in later && b !in later
    ensures IsRun(xs) && AllProcessed(xs) && |xs| == 3
    ensures xs[0].dsts == xs[1].dsts == {a, b} && xs[2].dsts == later
    ensures forall i :: 0 <= i < |xs| ==> !xs[i].keepRound && !xs[i].shutdown
    ensures b in After(xs).rib && b !in After(xs).route
  {
    xs := TwoLeaveExists(a, b, later);
    TwoLeaveLosesOne(xs, a, b);
    ThreeLegal(xs);
  }

  lemma ExampleTight(xs: seq<RoundInput>, a: Dst, b: Dst)
    requires TwoLeaveTogether(xs, a, b)
    ensures Tight(After(xs[..2]).r, 2) && Ordinary(xs[2], 2)
  {
    assert Ordinary(xs[0], 0) && Ordinary(xs[1], 1) && Ordinary(xs[2], 2);
    RunTight(xs, 2);
  }

  lemma ExampleLast(xs: seq<RoundInput>)
    requires |xs| == 3
    ensures After(xs) == RoundStep(After(xs[..2]), 2, xs[2])
  {
  }

  lemma ExampleEnd(s: State, x: RoundInput, a: Dst, b: Dst)
    requires Steady(s, 2) && Tight(s.r, 2) && Legal(s, x) && Ordinary(x, 2)
    requires NewlyRouted(s.route, b)
    requires x.order == [a, b] && a !in x.dsts && b !in x.dsts && x.acked && !x.shutdown && !x.keepRound
    ensures var f := RoundStep(s, 2, x); b in f.rib && b !in f.route
  {
    assert AgreesAt(s, 1, b);
    assert x.order[0] !in x.dsts && x.order[1] == b;
    assert AnyVanished(x.dsts, x.order, 1);
    LostInOrdinaryRuns(s, 2, x, b);
    LostStays(s, 2, x, b);
  }

  /** A lost withdraw leaves a route advertised that no table knows. */
  lemma LostStays(s: State, p: nat, x: RoundInput, d: Dst)
    requires Shape(s, p) && p > 0 && Legal(s, x) && x.acked && !x.shutdown
    requires Lost(Received(s, x), p, x, d)
    ensures var f := RoundStep(s, p, x); d in f.rib && d !in f.route
  {
    VanishedAt(s, p, x, d);
  }
}
