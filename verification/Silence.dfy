/**
 Deletion of silent destinations, and how long records are kept, over whole runs.
 */
module Silence {
  import opened Tables
  import opened Selection
  import opened Filing
  import opened Phases
  import opened Runs
  import opened RibAgreement

  // ----- the log -----

  /** Round `q` of the run scanned `d`. */
  ghost predicate ScannedIn(xs: seq<RoundInput>, q: int, d: Dst) {
    0 <= q < |xs| && xs[q].acked && d in AtScan(After(xs[..q]), q, xs[q]).r
  }

  /** The peer round `q` of the run chose for `d`; 0 is silence. */
  ghost function PeerIn(xs: seq<RoundInput>, q: nat, d: Dst): nat
    requires ScannedIn(xs, q, d)
  {
    Chosen(q, xs[q].cfg.metric, GetOrEmpty(AtScan(After(xs[..q]), q, xs[q]).r[d], q))
  }

  /** Some round of lo..hi got an answer from `d`. */
  ghost predicate HeardWithin(xs: seq<RoundInput>, lo: int, hi: int, d: Dst) {
    exists q: nat :: lo <= q <= hi && ScannedIn(xs, q, d) && PeerIn(xs, q, d) != 0
  }

  /** The log of `d` is the history of its scans. */
  ghost predicate LogIsHistory(xs: seq<RoundInput>, log: LogTable, n: int, d: Dst) {
    && (forall q: nat :: q < n && ScannedIn(xs, q, d) ==> d in log && q in log[d] && log[d][q].peer == PeerIn(xs, q, d))
    && (d in log ==> forall q :: q in log[d] ==> 0 <= q < n && ScannedIn(xs, q, d))
  }

  /** One record of round `p`, with the chosen peer, is added when `d` was scanned. */
  ghost predicate LogGrows(log: LogTable, log': LogTable, p: nat, d: Dst, scanned: bool, peer: nat) {
    if scanned then
      && d in log' && p in log'[d] && log'[d][p].peer == peer
      && log'[d] == GetOrEmpty(log, d)[p := log'[d][p]]
    else (d in log' <==> d in log) && (d in log ==> log'[d] == log[d])
  }

  lemma ScanLogs(s: State, p: nat, x: RoundInput, d: Dst)
    ensures var a := AtScan(s, p, x);
      LogGrows(s.log, BeforeAdvertise(s, p, x).log, p, d, d in a.r,
               if d in a.r then Chosen(p, x.cfg.metric, GetOrEmpty(a.r[d], p)) else 0)
  {
    ScanLogsFrom(AtScan(s, p, x), p, x.cfg, d);
  }

  lemma ScanLogsFrom(a: State, p: nat, cfg: Config, d: Dst)
    ensures LogGrows(a.log, Scanned(a, p, cfg).log, p, d, d in a.r,
                     if d in a.r then Chosen(p, cfg.metric, GetOrEmpty(a.r[d], p)) else 0)
  {
    if d in a.r {
      LogPeer(p, cfg, GetOrEmpty(a.r[d], p));
    }
    RecordedLog(a.log, p, NewLogs(a, p, cfg), d);
  }

  lemma LogPeer(p: nat, cfg: Config, ps: Peers)
    ensures LogOf(p, cfg, ps).peer == Chosen(p, cfg.metric, ps)
  {
    if p == 0 && ps != map[] {
      assert SortedKeys(ps.Keys)[0] in ps.Keys;
    }
  }

  lemma RecordedLog(log: LogTable, p: nat, ls: map<Dst, Tlog>, d: Dst)
    ensures LogGrows(log, Extended(log, p, ls), p, d, d in ls, if d in ls then ls[d].peer else 0)
  {
  }

  lemma {:induction false} LogHistory(xs: seq<RoundInput>, n: nat, d: Dst)
    requires n <= |xs|
    ensures LogIsHistory(xs, After(xs[..n]).log, n, d)
  {
    if n > 0 {
      LogHistory(xs, n - 1, d);
      LogHistoryStep(xs, n - 1, d);
    }
  }

  lemma LogHistoryStep(xs: seq<RoundInput>, n: nat, d: Dst)
    requires n < |xs| && LogIsHistory(xs, After(xs[..n]).log, n, d)
    ensures LogIsHistory(xs, After(xs[..n + 1]).log, n + 1, d)
    ensures xs[n].acked ==> LogIsHistory(xs, BeforeAdvertise(After(xs[..n]), n, xs[n]).log, n + 1, d)
  {
    AfterNext(xs, n);
    if xs[n].acked {
      StepLog(After(xs[..n]), n, xs[n]);
      HistoryScanned(xs, n, d);
    } else {
      HistorySkips(xs, After(xs[..n]).log, n, d);
    }
  }

  /** A round logs what its scan logs. */
  lemma StepLog(s: State, p: nat, x: RoundInput)
    requires x.acked
    ensures RoundStep(s, p, x).log == BeforeAdvertise(s, p, x).log
  {
  }

  lemma HistoryScanned(xs: seq<RoundInput>, n: nat, d: Dst)
    requires n < |xs| && xs[n].acked && LogIsHistory(xs, After(xs[..n]).log, n, d)
    ensures LogIsHistory(xs, BeforeAdvertise(After(xs[..n]), n, xs[n]).log, n + 1, d)
  {
    var s := After(xs[..n]);
    ScanLogs(s, n, xs[n], d);
    HistoryGrows(xs, s.log, BeforeAdvertise(s, n, xs[n]).log, n, d);
  }

  lemma HistorySkips(xs: seq<RoundInput>, log: LogTable, n: nat, d: Dst)
    requires n < |xs| && !xs[n].acked && LogIsHistory(xs, log, n, d)
    ensures LogIsHistory(xs, log, n + 1, d)
  {
    assert !ScannedIn(xs, n, d);
  }

  lemma HistoryGrows(xs: seq<RoundInput>, log: LogTable, log': LogTable, n: nat, d: Dst)
    requires n < |xs| && xs[n].acked && LogIsHistory(xs, log, n, d)
    requires LogGrows(log, log', n, d, ScannedIn(xs, n, d), if ScannedIn(xs, n, d) then PeerIn(xs, n, d) else 0)
    ensures LogIsHistory(xs, log', n + 1, d)
  {
  }

  // ----- exactness of the deletion -----

  /** One round keeps exactly the scanned destinations with an answer in the window. */
  lemma DeletionAt(s: State, p: nat, x: RoundInput, d: Dst)
    requires Shape(s, p) && Legal(s, x) && x.acked && (p == 0 ==> s.route == map[])
    requires p > x.cfg.deepDelete && (p == 0 ==> x.cfg.deepDelete < 0)
    ensures var b := BeforeAdvertise(s, p, x);
      d in b.route <==> d in AtScan(s, p, x).r && d in b.log && AnsweredWithin(b.log[d], p - x.cfg.deepDelete, p)
  {
    var a := AtScan(s, p, x);
    AtScanShape(s, p, x);
    AtScanAt(s, p, x, d);
    NewEntriesKeys(a, p, x.cfg);
    DeletedAt(a, p, NewEntries(a, p, x.cfg), NewLogs(a, p, x.cfg), x.cfg.deepDelete, d);
  }

  lemma DeletedAt(a: State, p: nat, es: map<Dst, RtParm>, ls: map<Dst, Tlog>, deepDelete: int, d: Dst)
    requires a.route.Keys <= a.r.Keys && es.Keys <= a.r.Keys && ls.Keys == a.r.Keys
    requires p > 0 ==> es.Keys == a.r.Keys
    requires d in a.route ==> p > 0
    requires p > deepDelete && (p == 0 ==> deepDelete < 0)
    ensures var f := Freed(Recorded(a, p, es, ls), p);
      d in f.route && d !in Silent(f, p, deepDelete) <==>
      d in a.r && d in f.log && AnsweredWithin(f.log[d], p - deepDelete, p)
  {
    var c := Recorded(a, p, es, ls);
    RecordedKeys(a, p, es, ls);
    FreedKeys(c, p);
    if d in es {
      RecordedEntry(a, p, es, ls, d);
      FreedEntry(c, p, d);
    }
    SilentAt(Freed(c, p), p, deepDelete, d);
  }

  lemma SilentAt(f: State, p: nat, deepDelete: int, d: Dst)
    requires p > deepDelete
    requires d in f.route ==> HasEntry(f.route, d, p) && d in f.log
    ensures d in f.route && d !in Silent(f, p, deepDelete) <==>
            d in f.route && AnsweredWithin(f.log[d], p - deepDelete, p)
  {
  }

  /** Until more rounds than the window have passed a round keeps all it scanned. */
  lemma KeptEarly(s: State, p: nat, x: RoundInput, d: Dst)
    requires Shape(s, p) && Legal(s, x) && x.acked && 0 < p <= x.cfg.deepDelete
    ensures d in BeforeAdvertise(s, p, x).route <==> d in AtScan(s, p, x).r
  {
    var a := AtScan(s, p, x);
    AtScanShape(s, p, x);
    NewEntriesKeys(a, p, x.cfg);
    EarlyAt(a, p, NewEntries(a, p, x.cfg), NewLogs(a, p, x.cfg), x.cfg.deepDelete);
  }

  lemma EarlyAt(a: State, p: nat, es: map<Dst, RtParm>, ls: map<Dst, Tlog>, deepDelete: int)
    requires a.route.Keys <= a.r.Keys && es.Keys == a.r.Keys == ls.Keys && p <= deepDelete
    ensures Deleted(Freed(Recorded(a, p, es, ls), p), p, deepDelete).route.Keys == a.r.Keys
  {
    var c := Recorded(a, p, es, ls);
    RecordedKeys(a, p, es, ls);
    FreedKeys(c, p);
  }

  /** In every run, skipped rounds included: after a processed round later than
      `deep_delete`, the destinations left are exactly those the round scanned that
      answered in it or in one of the `deep_delete` rounds before it; after an earlier one
      they are all it scanned. */
  lemma SilenceDeletionExact(xs: seq<RoundInput>, n: nat, d: Dst)
    requires IsRun(xs) && 0 < n < |xs| && xs[n].acked && !xs[n].shutdown
    ensures d in After(xs[..n + 1]).route <==>
            ScannedIn(xs, n, d) &&
            (n > xs[n].cfg.deepDelete ==> HeardWithin(xs, n - xs[n].cfg.deepDelete, n, d))
  {
    var s, x := After(xs[..n]), xs[n];
    assert LegalAt(xs, n);
    RunShape(xs[..n]);
    if n <= x.cfg.deepDelete {
      KeptEarly(s, n, x, d);
    } else {
      DeletionAt(s, n, x, d);
      LogHistory(xs, n, d);
      LogHistoryStep(xs, n, d);
      HeardIsLogged(xs, BeforeAdvertise(s, n, x).log, n - x.cfg.deepDelete, n, d);
    }
    AfterNext(xs, n);
    StepRoute(s, n, x);
  }

  lemma HeardIsLogged(xs: seq<RoundInput>, log: LogTable, lo: int, n: nat, d: Dst)
    requires n < |xs| && LogIsHistory(xs, log, n + 1, d)
    ensures HeardWithin(xs, lo, n, d) <==> d in log && AnsweredWithin(log[d], lo, n)
  {
    if HeardWithin(xs, lo, n, d) {
      var q: nat :| lo <= q <= n && ScannedIn(xs, q, d) && PeerIn(xs, q, d) != 0;
      assert q in log[d] && log[d][q].peer != 0;
    }
    if d in log && AnsweredWithin(log[d], lo, n) {
      var q :| lo <= q <= n && q in log[d] && log[d][q].peer != 0;
      assert ScannedIn(xs, q, d) && PeerIn(xs, q, d) != 0;
    }
  }

  // ----- the window of records -----

  /** Before round `p`: route entries of the last two rounds only, and no replies of
      an older round. */
  ghost predicate Windowed(s: State, p: nat) {
    && (forall d, q :: d in s.route && q in s.route[d] ==> p - 2 <= q < p)
    && OldEmpty(s.r, p - 2)
  }

  ghost predicate OldEmpty(r: RTable, limit: int) {
    forall d, q :: d in r && q in r[d] ==> 0 <= q && (q < limit ==> r[d][q] == map[])
  }

  /** No reply of round `p` is more than one round late. */
  ghost predicate Timely(x: RoundInput, p: nat) {
    forall i :: 0 <= i < |x.replies| ==> 0 <= x.replies[i].probe && p - 1 <= x.replies[i].probe
  }

  lemma AtScanWindow(s: State, p: nat, x: RoundInput)
    requires Windowed(s, p) && Timely(x, p)
    ensures OldEmpty(AtScan(s, p, x).r, p - 2)
    ensures forall d, q :: d in AtScan(s, p, x).route && q in AtScan(s, p, x).route[d] ==> p - 2 <= q < p
  {
    var t := Received(s, x);
    forall d, q | d in t.r && q in t.r[d] ensures 0 <= q && (q < p - 2 ==> t.r[d][q] == map[]) {
      FiledRound(s.r, x.replies, d, q);
      if q < p - 2 {
        FiledAllFrame(s.r, x.replies, d, q);
      }
    }
    assert OldEmpty(t.r, p - 2);
  }

  lemma ExtendedWindow(route: RouteTable, p: nat, es: map<Dst, RtParm>)
    requires forall d, q :: d in route && q in route[d] ==> p - 2 <= q < p
    ensures forall d, q :: d in Extended(route, p, es) && q in Extended(route, p, es)[d] ==> p - 2 <= q < p + 1
  {
  }

  lemma FreedWindow(c: State, p: nat)
    requires p > 0 ==> c.route.Keys == c.r.Keys
    requires forall d, q :: d in c.route && q in c.route[d] ==> 0 <= q && p - 2 <= q < p + 1
    requires OldEmpty(c.r, p - 2)
    ensures Windowed(Freed(c, p), p + 1)
  {
    if p >= 2 {
      ClearedOldEmpty(c.r, p - 2);
    }
  }

  lemma ClearedOldEmpty(r: RTable, q: nat)
    requires OldEmpty(r, q)
    ensures OldEmpty(Cleared(r, q), q + 1)
  {
  }

  lemma TouchedOldEmpty(r: RTable, p: nat)
    requires OldEmpty(r, p - 2)
    ensures OldEmpty(Touched(r, p), p - 2)
  {
  }

  lemma WindowStep(s: State, p: nat, x: RoundInput)
    requires Shape(s, p) && Windowed(s, p) && Timely(x, p)
    ensures Windowed(BeforeAdvertise(s, p, x), p + 1)
  {
    var a := AtScan(s, p, x);
    AtScanWindow(s, p, x);
    AtScanShape(s, p, x);
    ScanWindow(a, p, x.cfg);
    WithoutWindow(Freed(Scanned(a, p, x.cfg), p), p + 1, Silent(Freed(Scanned(a, p, x.cfg), p), p, x.cfg.deepDelete));
  }

  lemma ScanWindow(a: State, p: nat, cfg: Config)
    requires Shape(a, p) && OldEmpty(a.r, p - 2)
    requires forall d, q :: d in a.route && q in a.route[d] ==> p - 2 <= q < p
    ensures Windowed(Freed(Scanned(a, p, cfg), p), p + 1)
  {
    ScannedShape(a, p, cfg);
    TouchedOldEmpty(a.r, p);
    ExtendedWindow(a.route, p, NewEntries(a, p, cfg));
    FreedWindow(Scanned(a, p, cfg), p);
  }

  lemma WithoutWindow(f: State, p: nat, ds: set<Dst>)
    requires Windowed(f, p)
    ensures Windowed(Without(f, ds), p)
  {
  }

  lemma FinishWindow(b: State, p: nat, adv: Config)
    requires Windowed(b, p)
    ensures Windowed(DeletedAll(b, p - 1), p) && Windowed(Advertised(b, p - 1, adv), p)
  {
  }

  /** In every run with every round processed and no reply more than one round late,
      after round `n` each destination keeps route entries of rounds n-1 and n only,
      and no replies older than round n-1. */
  lemma {:induction false} RecordWindow(xs: seq<RoundInput>, n: nat)
    requires n <= |xs|
    requires forall i :: 0 <= i < |xs| ==> xs[i].acked && Timely(xs[i], i)
    ensures Windowed(After(xs[..n]), n)
  {
    if n > 0 {
      RecordWindow(xs, n - 1);
      WindowNext(xs, n - 1);
    }
  }

  lemma WindowNext(xs: seq<RoundInput>, k: nat)
    requires k < |xs| && xs[k].acked && Timely(xs[k], k) && Windowed(After(xs[..k]), k)
    ensures Windowed(After(xs[..k + 1]), k + 1)
  {
    RunShape(xs[..k]);
    AfterNext(xs, k);
    WindowRound(After(xs[..k]), k, xs[k]);
  }

  lemma WindowRound(s: State, p: nat, x: RoundInput)
    requires Shape(s, p) && Windowed(s, p) && Timely(x, p) && x.acked
    ensures Windowed(RoundStep(s, p, x), p + 1)
  {
    WindowStep(s, p, x);
    FinishWindow(BeforeAdvertise(s, p, x), p + 1, x.adv);
  }
}
