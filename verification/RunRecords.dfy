/**
 The records of whole runs: the round engine's tables hold exactly the places that its
 allocations and releases leave taken.
 */
module RunRecords {
  import opened Tables
  import opened Filing
  import opened Phases
  import opened Runs
  import opened Ownership
  import opened Leaks

  /** The place `k` is taken in the tables. */
  ghost predicate Taken(s: State, k: Place) {
    match k
    case Sample(x) => Lookup(s.r, x).Some?
    case Entry(d, q) => HasEntry(s.route, d, q)
  }

  /** All places taken in the tables. */
  ghost function Places(s: State): set<Place> {
    (set x | x in Slots(s.r) :: Sample(x)) + set d, q | d in s.route && q in s.route[d] :: Entry(d, q)
  }

  lemma PlacesTaken(s: State, k: Place)
    ensures k in Places(s) <==> Taken(s, k)
  {
    if k.Sample? {
      SlotsLookup(s.r, k.slot);
    }
  }

  // ----- the operations of a run -----

  function Files(xs: seq<Reply>): seq<Op> { seq(|xs|, i requires 0 <= i < |xs| => File(SlotOf(xs[i]))) }

  /** What a processed round does to the records, in the order of its phases. */
  ghost function Processing(s: State, p: nat, x: RoundInput): seq<Op> {
    var u := Received(s, x);
    var a := AtScan(s, p, x);
    var f := Freed(Scanned(a, p, x.cfg), p);
    [Drop(u.r.Keys - x.dsts), Measure(p, NewEntries(a, p, x.cfg).Keys)]
    + (if p >= 2 then [Free(p - 2)] else [])
    + [Drop(Silent(f, p, x.cfg.deepDelete))]
    + if x.shutdown then [Drop(Leaving(BeforeAdvertise(s, p, x), p))] else []
  }

  ghost function Leaving(s: State, p: int): set<Dst> { set d | d in s.log && HasEntry(s.route, d, p) }

  ghost function RoundOps(s: State, p: nat, x: RoundInput): seq<Op> {
    Files(x.replies) + if x.acked then Processing(s, p, x) else []
  }

  ghost function RunOps(xs: seq<RoundInput>): seq<Op> {
    if xs == [] then []
    else
      var n := |xs| - 1;
      RunOps(xs[..n]) + RoundOps(After(xs[..n]), n, xs[n])
  }

  // ----- one phase -----

  lemma FiledPlaces(s: State, x: Reply)
    ensures Places(s.(r := Filed(s.r, x))) == Applied(Places(s), File(SlotOf(x)))
  {
    var t := s.(r := Filed(s.r, x));
    forall k ensures k in Places(t) <==> k in Applied(Places(s), File(SlotOf(x))) {
      PlacesTaken(s, k);
      PlacesTaken(t, k);
      if k.Sample? {
        LookupFiled(s.r, x, k.slot);
      }
    }
  }

  lemma DroppedPlaces(s: State, t: State, ds: set<Dst>)
    requires t.r == s.r - ds && t.route == s.route - ds
    ensures Places(t) == Applied(Places(s), Drop(ds))
  {
    forall k ensures k in Places(t) <==> k in Applied(Places(s), Drop(ds)) {
      PlacesTaken(s, k);
      PlacesTaken(t, k);
    }
  }

  lemma UpdatedPlaces(s: State, p: int, x: RoundInput)
    ensures Places(Updated(s, p, x.dsts, x.order, x.keepRound)) == Applied(Places(s), Drop(s.r.Keys - x.dsts))
  {
    var t := Updated(s, p, x.dsts, x.order, x.keepRound);
    forall k ensures k in Places(t) <==> k in Applied(Places(s), Drop(s.r.Keys - x.dsts)) {
      PlacesTaken(s, k);
      PlacesTaken(t, k);
    }
  }

  /** A peer of the round that sent some reply. */
  ghost predicate Answering(r: RTable, d: Dst, p: int, peer: nat) {
    d in r && p in r[d] && peer in r[d][p]
  }

  lemma AggregatedLookup(s: State, p: int, pingReq: int, x: Slot)
    ensures Lookup(Aggregated(s, p, pingReq).r, x).Some? <==>
            Lookup(s.r, x).Some? || (x.probe == p && x.sequence == STATS && Answering(s.r, x.dst, p, x.peer))
  {
  }

  lemma StatsPlacesIff(s: State, p: int, x: Slot)
    requires NoEmptyPeer(s.r)
    ensures Sample(x) in StatsPlaces(Places(s), p) <==>
            x.probe == p && x.sequence == STATS && Answering(s.r, x.dst, p, x.peer)
  {
    if Answering(s.r, x.dst, p, x.peer) {
      var j := Inhabited(s.r[x.dst][p][x.peer].Keys);
      PlacesTaken(s, Sample(Slot(x.dst, p, x.peer, j)));
      assert Sample(Slot(x.dst, p, x.peer, j)) in Places(s);
    }
    if Sample(x) in StatsPlaces(Places(s), p) {
      var k :| k in Places(s) && k.Sample? && RoundOf(k) == p &&
        Sample(x) == Sample(Slot(k.slot.dst, p, k.slot.peer, STATS));
      PlacesTaken(s, k);
    }
  }

  lemma AggregatedPlaces(s: State, p: int, pingReq: int)
    requires NoEmptyPeer(s.r)
    ensures Places(Aggregated(s, p, pingReq)) == Places(s) + StatsPlaces(Places(s), p)
  {
    var t := Aggregated(s, p, pingReq);
    forall k ensures k in Places(t) <==> k in Places(s) + StatsPlaces(Places(s), p) {
      PlacesTaken(s, k);
      PlacesTaken(t, k);
      if k.Sample? {
        AggregatedLookup(s, p, pingReq, k.slot);
        StatsPlacesIff(s, p, k.slot);
      }
    }
  }

  lemma TouchedLookup(r: RTable, p: int, x: Slot)
    ensures Lookup(Touched(r, p), x) == Lookup(r, x)
  {
  }

  lemma ExtendedEntry(route: RouteTable, p: int, es: map<Dst, RtParm>, d: Dst, q: int)
    ensures HasEntry(Extended(route, p, es), d, q) <==> HasEntry(route, d, q) || (q == p && d in es)
  {
  }

  lemma RecordedTaken(s: State, p: nat, es: map<Dst, RtParm>, ls: map<Dst, Tlog>, k: Place)
    ensures Taken(Recorded(s, p, es, ls), k) <==> Taken(s, k) || k in EntryPlaces(es.Keys, p)
  {
    match k
    case Sample(x) => TouchedLookup(s.r, p, x);
    case Entry(d, q) => ExtendedEntry(s.route, p, es, d, q);
  }

  lemma RecordedPlaces(s: State, p: nat, es: map<Dst, RtParm>, ls: map<Dst, Tlog>)
    ensures Places(Recorded(s, p, es, ls)) == Places(s) + EntryPlaces(es.Keys, p)
  {
    forall k ensures k in Places(Recorded(s, p, es, ls)) <==> k in Places(s) + EntryPlaces(es.Keys, p) {
      PlacesTaken(s, k);
      PlacesTaken(Recorded(s, p, es, ls), k);
      RecordedTaken(s, p, es, ls, k);
    }
  }

  lemma ClearedLookup(r: RTable, q: int, x: Slot)
    ensures Lookup(Cleared(r, q), x).Some? <==> Lookup(r, x).Some? && x.probe != q
  {
  }

  lemma PrunedAt(route: RouteTable, q: int, ds: set<Dst>, d: Dst, e: int)
    requires route.Keys <= ds
    ensures HasEntry(Pruned(route, q, ds), d, e) <==> HasEntry(route, d, e) && e != q
  {
  }

  lemma FreedTaken(s: State, p: int, k: Place)
    requires p >= 2 && s.route.Keys <= s.r.Keys
    ensures Taken(Freed(s, p), k) <==> Taken(s, k) && RoundOf(k) != p - 2
  {
    match k
    case Sample(x) => ClearedLookup(s.r, p - 2, x);
    case Entry(d, q) => PrunedAt(s.route, p - 2, s.r.Keys, d, q);
  }

  lemma FreedPlaces(s: State, p: int)
    requires p >= 2 && s.route.Keys <= s.r.Keys
    ensures Places(Freed(s, p)) == Applied(Places(s), Free(p - 2))
  {
    forall k ensures k in Places(Freed(s, p)) <==> k in Applied(Places(s), Free(p - 2)) {
      PlacesTaken(s, k);
      PlacesTaken(Freed(s, p), k);
      FreedTaken(s, p, k);
    }
  }

  // ----- a round -----

  lemma AppliedSnoc(ks: set<Place>, ops: seq<Op>, op: Op)
    ensures AppliedAll(ks, ops + [op]) == Applied(AppliedAll(ks, ops), op)
  {
    assert (ops + [op])[..|ops|] == ops;
  }

  lemma FilesSnoc(xs: seq<Reply>, x: Reply)
    ensures Files(xs + [x]) == Files(xs) + [File(SlotOf(x))]
  {
  }

  lemma {:induction false} ReceivedPlaces(s: State, xs: seq<Reply>)
    ensures Places(s.(r := FiledAll(s.r, xs))) == AppliedAll(Places(s), Files(xs))
  {
    if xs == [] {
      assert s.(r := FiledAll(s.r, xs)) == s;
    } else {
      var n := |xs| - 1;
      ReceivedPlaces(s, xs[..n]);
      var t := s.(r := FiledAll(s.r, xs[..n]));
      FiledPlaces(t, xs[n]);
      assert s.(r := FiledAll(s.r, xs)) == t.(r := Filed(t.r, xs[n]));
      FilesSnoc(xs[..n], xs[n]);
      assert xs == xs[..n] + [xs[n]];
      AppliedSnoc(Places(s), Files(xs[..n]), File(SlotOf(xs[n])));
    }
  }

  /** Statistics and entries of round `p`. */
  lemma MeasuredPlaces(v: State, p: nat, cfg: Config)
    requires NoEmptyPeer(v.r)
    ensures var a := Aggregated(v, p, cfg.pingReq);
      Places(Scanned(a, p, cfg)) == Applied(Places(v), Measure(p, NewEntries(a, p, cfg).Keys))
  {
    var a := Aggregated(v, p, cfg.pingReq);
    AggregatedPlaces(v, p, cfg.pingReq);
    RecordedPlaces(a, p, NewEntries(a, p, cfg), NewLogs(a, p, cfg));
  }

  lemma FreedOps(c: State, p: nat)
    requires c.route.Keys <= c.r.Keys
    ensures Places(Freed(c, p)) == AppliedAll(Places(c), if p >= 2 then [Free(p - 2)] else [])
  {
    if p >= 2 {
      FreedPlaces(c, p);
      AppliedSnoc(Places(c), [], Free(p - 2));
      assert [] + [Free(p - 2)] == [Free(p - 2)];
    }
  }

  lemma SamePlaces(s: State, t: State)
    requires s.r == t.r && s.route == t.route
    ensures Places(s) == Places(t)
  {
  }

  lemma EndOps(b: State, p: nat, x: RoundInput)
    ensures var e := if x.shutdown then DeletedAll(b, p) else if x.adv.advertise then Advertised(b, p, x.adv) else b;
      Places(e) == AppliedAll(Places(b), if x.shutdown then [Drop(Leaving(b, p))] else [])
  {
    if x.shutdown {
      DroppedPlaces(b, DeletedAll(b, p), Leaving(b, p));
      AppliedSnoc(Places(b), [], Drop(Leaving(b, p)));
      assert [] + [Drop(Leaving(b, p))] == [Drop(Leaving(b, p))];
    } else if x.adv.advertise {
      SamePlaces(b, Advertised(b, p, x.adv));
    }
  }

  lemma InTurn(k: set<Place>, g: Op, m: Op, mid: seq<Op>, sl: Op, tail: seq<Op>)
    ensures AppliedAll(k, [g, m] + mid + [sl] + tail)
         == AppliedAll(Applied(AppliedAll(Applied(Applied(k, g), m), mid), sl), tail)
  {
    AppliedSnoc(k, [], g);
    AppliedSnoc(k, [g], m);
    assert [] + [g] == [g] && [g] + [m] == [g, m];
    LostAppend(k, [g, m], mid);
    AppliedSnoc(k, [g, m] + mid, sl);
    LostAppend(k, [g, m] + mid + [sl], tail);
  }

  /** From the tables with the replies in, the phases do to the records what `Processing` says. */
  lemma ProcessingPlaces(s: State, p: nat, x: RoundInput)
    requires Shape(s, p) && x.acked
    ensures Places(RoundStep(s, p, x)) == AppliedAll(Places(Received(s, x)), Processing(s, p, x))
  {
    var u := Received(s, x);
    ReceivedShape(s, p, x);
    UpdatedShape(u, p, x);
    AtScanShape(s, p, x);
    ScannedShape(AtScan(s, p, x), p, x.cfg);
    ProcessedPlaces(u, Updated(u, p, x.dsts, x.order, x.keepRound), p, x);
  }

  lemma ProcessedPlaces(u: State, v: State, p: nat, x: RoundInput)
    requires v == Updated(u, p, x.dsts, x.order, x.keepRound) && NoEmptyPeer(v.r)
    requires var c := Scanned(Aggregated(v, p, x.cfg.pingReq), p, x.cfg); c.route.Keys <= c.r.Keys
    ensures var a := Aggregated(v, p, x.cfg.pingReq);
      var f := Freed(Scanned(a, p, x.cfg), p);
      var b := Deleted(f, p, x.cfg.deepDelete);
      Places(if x.shutdown then DeletedAll(b, p) else if x.adv.advertise then Advertised(b, p, x.adv) else b)
      == AppliedAll(Places(u),
           [Drop(u.r.Keys - x.dsts), Measure(p, NewEntries(a, p, x.cfg).Keys)]
           + (if p >= 2 then [Free(p - 2)] else [])
           + [Drop(Silent(f, p, x.cfg.deepDelete))]
           + if x.shutdown then [Drop(Leaving(b, p))] else [])
  {
    var a := Aggregated(v, p, x.cfg.pingReq);
    var c := Scanned(a, p, x.cfg);
    var f := Freed(c, p);
    var b := Deleted(f, p, x.cfg.deepDelete);
    UpdatedPlaces(u, p, x);
    MeasuredPlaces(v, p, x.cfg);
    FreedOps(c, p);
    DroppedPlaces(f, b, Silent(f, p, x.cfg.deepDelete));
    EndOps(b, p, x);
    InTurn(Places(u), Drop(u.r.Keys - x.dsts), Measure(p, NewEntries(a, p, x.cfg).Keys),
           if p >= 2 then [Free(p - 2)] else [], Drop(Silent(f, p, x.cfg.deepDelete)),
           if x.shutdown then [Drop(Leaving(b, p))] else []);
  }

  lemma RoundPlaces(s: State, p: nat, x: RoundInput)
    requires Shape(s, p)
    ensures Places(RoundStep(s, p, x)) == AppliedAll(Places(s), RoundOps(s, p, x))
  {
    ReceivedPlaces(s, x.replies);
    if x.acked {
      ProcessingPlaces(s, p, x);
      LostAppend(Places(s), Files(x.replies), Processing(s, p, x));
    } else {
      assert Files(x.replies) + [] == Files(x.replies);
    }
  }

  // ----- a run -----

  /** After every run the tables hold exactly the places its operations leave taken. */
  lemma {:induction false} RunPlaces(xs: seq<RoundInput>)
    ensures Places(After(xs)) == AppliedAll({}, RunOps(xs))
  {
    if xs == [] {
      assert Places(EMPTY_STATE) == {};
    } else {
      var n := |xs| - 1;
      RunPlaces(xs[..n]);
      RunShape(xs[..n]);
      RoundPlaces(After(xs[..n]), n, xs[n]);
      LostAppend({}, RunOps(xs[..n]), RoundOps(After(xs[..n]), n, xs[n]));
    }
  }

  lemma {:induction false} InOrderAppend(clock: int, a: seq<Op>, b: seq<Op>)
    requires InOrder(clock, a) && InOrder(ClockAfter(clock, a), b)
    ensures InOrder(clock, a + b)
    ensures ClockAfter(clock, a + b) == ClockAfter(ClockAfter(clock, a), b)
  {
    if b == [] {
      assert a + b == a;
    } else {
      var n := |b| - 1;
      InOrderAppend(clock, a, b[..n]);
      assert (a + b)[..|a + b| - 1] == a + b[..n];
    }
  }

  lemma {:induction false} NothingMeasured(clock: int, ops: seq<Op>)
    requires forall i :: 0 <= i < |ops| ==> !ops[i].Measure?
    ensures InOrder(clock, ops) && ClockAfter(clock, ops) == clock
  {
    if ops != [] {
      NothingMeasured(clock, ops[..|ops| - 1]);
    }
  }

  lemma ProcessingInOrder(clock: int, p: int, g: Op, m: Op, rest: seq<Op>)
    requires !g.Measure? && m.Measure? && m.probe == p && clock < p
    requires forall i :: 0 <= i < |rest| ==> !rest[i].Measure?
    ensures InOrder(clock, [g, m] + rest) && ClockAfter(clock, [g, m] + rest) == p
  {
    NothingMeasured(clock, [g]);
    assert [g, m][..1] == [g];
    NothingMeasured(p, rest);
    InOrderAppend(clock, [g, m], rest);
  }

  lemma RoundInOrder(s: State, p: nat, x: RoundInput, clock: int)
    requires clock < p
    ensures InOrder(clock, RoundOps(s, p, x)) && clock <= ClockAfter(clock, RoundOps(s, p, x)) <= p
  {
    NothingMeasured(clock, Files(x.replies));
    if x.acked {
      var ops := Processing(s, p, x);
      assert ops == [ops[0], ops[1]] + ops[2..];
      ProcessingInOrder(clock, p, ops[0], ops[1], ops[2..]);
      InOrderAppend(clock, Files(x.replies), ops);
    } else {
      assert Files(x.replies) + [] == Files(x.replies);
    }
  }

  /** A run measures its rounds in order. */
  lemma {:induction false} RunInOrder(xs: seq<RoundInput>)
    ensures InOrder(-1, RunOps(xs)) && ClockAfter(-1, RunOps(xs)) < |xs|
  {
    if xs != [] {
      var n := |xs| - 1;
      var before := RunOps(xs[..n]);
      RunInOrder(xs[..n]);
      RoundInOrder(After(xs[..n]), n, xs[n], ClockAfter(-1, before));
      InOrderAppend(-1, before, RoundOps(After(xs[..n]), n, xs[n]));
    }
  }

  /** No reply of the run carries the sequence number of the statistics. */
  ghost predicate FewReplies(xs: seq<RoundInput>) {
    forall i, j :: 0 <= i < |xs| && 0 <= j < |xs[i].replies| ==> xs[i].replies[j].sequence != STATS
  }

  lemma {:induction false} RunFewRequests(xs: seq<RoundInput>)
    requires FewReplies(xs)
    ensures FewRequests(RunOps(xs))
  {
    if xs != [] {
      var n := |xs| - 1;
      RunFewRequests(xs[..n]);
      RoundFewRequests(After(xs[..n]), n, xs[n]);
    }
  }

  lemma RoundFewRequests(s: State, p: nat, x: RoundInput)
    requires forall j :: 0 <= j < |x.replies| ==> x.replies[j].sequence != STATS
    ensures FewRequests(RoundOps(s, p, x))
  {
  }

  // ----- what a run loses -----

  lemma {:induction false} UnmeasuredLosesNothing(ks: set<Place>, ops: seq<Op>)
    requires forall i :: 0 <= i < |ops| ==> !ops[i].Measure?
    ensures LostAll(ks, ops) == 0
  {
    if ops != [] {
      UnmeasuredLosesNothing(ks, ops[..|ops| - 1]);
    }
  }

  lemma ProcessingLoses(ks: set<Place>, g: Op, m: Op, rest: seq<Op>)
    requires !g.Measure? && forall i :: 0 <= i < |rest| ==> !rest[i].Measure?
    ensures LostAll(ks, [g, m] + rest) == Lost(Applied(ks, g), m)
  {
    assert [] + [g] == [g] && [g] + [m] == [g, m];
    LostAppend(ks, [], [g]);
    LostAppend(ks, [g], [m]);
    assert [g][..0] == [] && [m][..0] == [];
    LostAppend(ks, [g, m], rest);
    UnmeasuredLosesNothing(AppliedAll(ks, [g, m]), rest);
  }

  /** If round `n` is processed, it finds no reply of its own numbered 99. */
  ghost predicate NoReply99(xs: seq<RoundInput>, n: nat)
    requires n < |xs|
  {
    xs[n].acked ==> forall d, peer :: Lookup(Found(xs, n), Slot(d, n, peer, STATS)) == None
  }

  lemma StatsFreeIff(s: State, p: int, ds: set<Dst>)
    ensures StatsFree(Places(s), Measure(p, ds)) <==>
            forall d, peer :: Lookup(s.r, Slot(d, p, peer, STATS)) == None
  {
    if StatsFree(Places(s), Measure(p, ds)) {
      forall d, peer ensures Lookup(s.r, Slot(d, p, peer, STATS)) == None {
        PlacesTaken(s, Sample(Slot(d, p, peer, STATS)));
        assert IsStats(Sample(Slot(d, p, peer, STATS)));
      }
    } else {
      var k :| k in Places(s) && IsStats(k) && RoundOf(k) == p;
      PlacesTaken(s, k);
      assert Lookup(s.r, Slot(k.slot.dst, p, k.slot.peer, STATS)).Some?;
    }
  }

  lemma ProcessingLosesIff(s: State, p: nat, x: RoundInput, v: State)
    requires v == Updated(Received(s, x), p, x.dsts, x.order, x.keepRound)
    ensures LostAll(Places(Received(s, x)), Processing(s, p, x)) == 0 <==>
            forall d, peer :: Lookup(v.r, Slot(d, p, peer, STATS)) == None
  {
    var ops := Processing(s, p, x);
    assert ops == [ops[0], ops[1]] + ops[2..];
    ProcessingLoses(Places(Received(s, x)), ops[0], ops[1], ops[2..]);
    UpdatedPlaces(Received(s, x), p, x);
    LostIff(Places(v), ops[1]);
    StatsFreeIff(v, p, ops[1].dsts);
  }

  lemma ReceivingLosesNothing(s: State, x: RoundInput, ops: seq<Op>)
    ensures LostAll(Places(s), Files(x.replies) + ops) == LostAll(Places(Received(s, x)), ops)
  {
    ReceivedPlaces(s, x.replies);
    UnmeasuredLosesNothing(Places(s), Files(x.replies));
    LostAppend(Places(s), Files(x.replies), ops);
  }

  lemma RoundLosesIff(xs: seq<RoundInput>, n: nat, s: State)
    requires n < |xs| && s == After(xs[..n])
    ensures LostAll(Places(s), RoundOps(s, n, xs[n])) == 0 <==> NoReply99(xs, n)
  {
    if xs[n].acked {
      ReceivingLosesNothing(s, xs[n], Processing(s, n, xs[n]));
      ProcessingLosesIff(s, n, xs[n], Updated(Received(s, xs[n]), n, xs[n].dsts, xs[n].order, xs[n].keepRound));
    } else {
      ReceivingLosesNothing(s, xs[n], []);
    }
  }

  ghost predicate FreeThrough(xs: seq<RoundInput>, n: nat)
    requires n <= |xs|
  {
    forall m: nat :: m < n ==> NoReply99(xs, m)
  }

  lemma LostNext(xs: seq<RoundInput>, k: nat, s: State)
    requires k < |xs| && s == After(xs[..k])
    ensures LostAll({}, RunOps(xs[..k + 1])) == LostAll({}, RunOps(xs[..k])) + LostAll(Places(s), RoundOps(s, k, xs[k]))
  {
    assert xs[..k + 1][..k] == xs[..k];
    RunPlaces(xs[..k]);
    LostAppend({}, RunOps(xs[..k]), RoundOps(s, k, xs[k]));
  }

  lemma LosesNext(xs: seq<RoundInput>, k: nat, before: nat, after: nat)
    requires k < |xs| && before == LostAll({}, RunOps(xs[..k])) && after == LostAll({}, RunOps(xs[..k + 1]))
    ensures after == 0 <==> before == 0 && NoReply99(xs, k)
  {
    LostNext(xs, k, After(xs[..k]));
    RoundLosesIff(xs, k, After(xs[..k]));
  }

  lemma FreeNext(xs: seq<RoundInput>, k: nat)
    requires k < |xs|
    ensures FreeThrough(xs, k + 1) <==> FreeThrough(xs, k) && NoReply99(xs, k)
  {
  }

  lemma {:induction false} LosesThrough(xs: seq<RoundInput>, n: nat)
    requires n <= |xs|
    ensures LostAll({}, RunOps(xs[..n])) == 0 <==> FreeThrough(xs, n)
  {
    if n == 0 {
      assert xs[..0] == [];
    } else {
      LosesThrough(xs, n - 1);
      LosesNext(xs, n - 1, LostAll({}, RunOps(xs[..n - 1])), LostAll({}, RunOps(xs[..n])));
      FreeNext(xs, n - 1);
    }
  }

  /** A run loses no record if and only if no processed round finds a reply of its own
      numbered 99 when it aggregates. */
  lemma RunLosesNothingIff(xs: seq<RoundInput>)
    ensures LostAll({}, RunOps(xs)) == 0 <==> forall n: nat :: n < |xs| ==> NoReply99(xs, n)
  {
    assert xs[..|xs|] == xs;
    LosesThrough(xs, |xs|);
  }

  /** In particular, none while no reply carries sequence number 99. */
  lemma RunLosesNothing(xs: seq<RoundInput>)
    requires FewReplies(xs)
    ensures LostAll({}, RunOps(xs)) == 0
  {
    RunInOrder(xs);
    RunFewRequests(xs);
    NothingLost({}, -1, RunOps(xs));
  }

  /** One reply numbered 99 of a listed destination, in a first round of 100 requests. */
  function HundredthReply(d: Dst): RoundInput {
    var cfg := Config(100, Metric0, false, 0, 3, true, false, false);
    RoundInput([Reply(d, 0, 1, 99, 10.0, 0)], true, {d}, [d], true, cfg, false, cfg)
  }

  lemma HundredthFound(x: RoundInput, d: Dst)
    requires x == HundredthReply(d)
    ensures Legal(EMPTY_STATE, x) && x.acked
    ensures Lookup(Updated(Received(EMPTY_STATE, x), 0, x.dsts, x.order, x.keepRound).r, Slot(d, 0, 1, STATS)).Some?
  {
    var y := x.replies[0];
    assert [y][..0] == [];
    assert FiledAll(map[], [y]) == Filed(FiledAll(map[], []), y);
    LookupFiled(map[], y, SlotOf(y));
    assert FiledAll(map[], [y]).Keys == {d};
  }

  /** A first round that finds such a reply loses a record. */
  lemma FirstRoundLoses(x: RoundInput, d: Dst)
    requires Legal(EMPTY_STATE, x) && x.acked
    requires Lookup(Updated(Received(EMPTY_STATE, x), 0, x.dsts, x.order, x.keepRound).r, Slot(d, 0, 1, STATS)).Some?
    ensures IsRun([x]) && LostAll({}, RunOps([x])) > 0
  {
    var xs := [x];
    assert xs[..0] == [];
    assert LegalAt(xs, 0);
    assert Lookup(Found(xs, 0), Slot(d, 0, 1, STATS)).Some?;
    assert !NoReply99(xs, 0);
    RunLosesNothingIff(xs);
  }

  /** A run that leaks, for any destination: the statistics of its round overwrite the
      reply numbered 99. */
  lemma RecordLost(d: Dst)
    ensures IsRun([HundredthReply(d)]) && LostAll({}, RunOps([HundredthReply(d)])) > 0
  {
    HundredthFound(HundredthReply(d), d);
    FirstRoundLoses(HundredthReply(d), d);
  }

  /** The allocations and releases of a whole run, on empty tables: the records stored are
      those of the tables after the run, nothing is freed twice, and allocated minus freed
      records are the stored ones and those lost; none are lost while no reply carries
      sequence number 99. */
  method PerformRun(records: Records, ghost xs: seq<RoundInput>, ops: seq<Op>)
    requires ops == RunOps(xs)
    requires records.Owned() && records.store == map[] && records.leaked == {} && records.clock == -1
    modifies records
    ensures records.Owned() && records.store.Keys == Places(After(xs))
    ensures records.next - records.freed == |Places(After(xs))| + LostAll({}, ops)
    ensures FewReplies(xs) ==> records.next - records.freed == |Places(After(xs))|
  {
    RunInOrder(xs);
    RunPlaces(xs);
    if FewReplies(xs) {
      RunLosesNothing(xs);
    }
    records.Perform(ops);
    assert |records.store| == |records.store.Keys|;
  }
}
