/**
 The phases of one probe round as functions on the tables: drop vanished
 destinations, aggregate, scan, free, delete silent destinations, advertise. Each
 function says what the whole table is afterwards; the methods that do the work in
 place are in module `Engine`.
 */
module Phases {
  import opened Tables
  import opened Stats
  import opened Selection
  import opened Filing

  // ----- drop vanished destinations (pfr_route_update) -----

  /** The withdraw test of one vanished destination: it had a peer in the round
      before `probe`. */
  predicate WithdrawTest(route: RouteTable, probe: int, d: Dst) {
    d in route && probe - 1 in route[d] && route[d][probe - 1].currPeer > 0
  }

  /** The round number after the records of `d` are erased. The loop over the rounds
      of `d` uses the parameter that holds the round number as its loop variable, so
      the last round of `d` is left in it; `keepRound` is the loop with a variable of
      its own. */
  function CarriedProbe(r: RTable, probe: int, d: Dst, keepRound: bool): int {
    if keepRound || d !in r || r[d].Keys == {} then probe else MaxKey(r[d].Keys)
  }

  /** The advertised routes after the destinations `order`, in that order, are
      checked against the list `dsts`. */
  function UpdateRib(r: RTable, route: RouteTable, rib: Rib, dsts: set<Dst>, order: seq<Dst>,
                     probe: int, keepRound: bool): Rib
    decreases |order|
  {
    if order == [] then rib
    else
      var d := order[0];
      if d in dsts then UpdateRib(r, route, rib, dsts, order[1..], probe, keepRound)
      else
        var rib' := if WithdrawTest(route, probe, d) then rib - {d} else rib;
        UpdateRib(r, route, rib', dsts, order[1..], CarriedProbe(r, probe, d, keepRound), keepRound)
  }

  function Updated(s: State, p: int, dsts: set<Dst>, order: seq<Dst>, keepRound: bool): State {
    var gone := s.r.Keys - dsts;
    State(s.r - gone, s.route - gone, s.log,
          UpdateRib(s.r, s.route, s.rib, dsts, order, p, keepRound))
  }

  // ----- statistics (pfr_calc_avg_rtt) -----

  function Aggregated(s: State, p: int, pingReq: int): State {
    s.(r := map d | d in s.r :: s.r[d][p := AggregatePeers(GetOrEmpty(s.r[d], p), pingReq)])
  }

  // ----- choose peers (pfr_route_scan) -----

  ghost function LogOf(p: nat, cfg: Config, ps: Peers): Tlog {
    var peer := Chosen(p, cfg.metric, ps);
    var m := ChosenMetric(p, cfg.metric, ps);
    if peer == 0 || peer !in ps then Tlog(0, m, 0.0, 0.0, 0.0, 0, 0)
    else
      var t := StatsOf(ps[peer]);
      Tlog(peer, m, t.avgRtt, t.minRtt, t.maxRtt, t.lost, t.timestamp)
  }

  function PrevEntry(route: RouteTable, d: Dst, p: int): Option<RtParm> {
    if d in route && p - 1 in route[d] then Some(route[d][p - 1]) else None
  }

  /** The entry of round 0: the first peer that answered, with no peer before it. */
  function FirstEntry(kind: PathMetric, ps: Peers): RtParm
    requires ps != map[]
  {
    assert exists k :: k in ps.Keys;
    var peer := SortedKeys(ps.Keys)[0];
    var m := if kind == OtherMetric then CEILING else MetricOf(kind, ps[peer]);
    RtParm(0, m, peer, m)
  }

  /** The entry of round `p` for a destination measured as `ps`. Round 0 routes only
      destinations that answered in it. */
  ghost function EntryOf(p: nat, cfg: Config, prev: Option<RtParm>, ps: Peers): Option<RtParm> {
    if p > 0 then Some(Decide(cfg, prev, Chosen(p, cfg.metric, ps), ChosenMetric(p, cfg.metric, ps)))
    else if ps == map[] then None
    else Some(FirstEntry(cfg.metric, ps))
  }

  ghost function NewEntries(s: State, p: nat, cfg: Config): map<Dst, RtParm> {
    map d | d in s.r && EntryOf(p, cfg, PrevEntry(s.route, d, p), GetOrEmpty(s.r[d], p)).Some? ::
      EntryOf(p, cfg, PrevEntry(s.route, d, p), GetOrEmpty(s.r[d], p)).value
  }

  ghost function NewLogs(s: State, p: nat, cfg: Config): map<Dst, Tlog> {
    map d | d in s.r :: LogOf(p, cfg, GetOrEmpty(s.r[d], p))
  }

  /** A table with one more inner entry under key `p` for every key of `es`. */
  function Extended<K, V>(m: map<K, map<int, V>>, p: int, es: map<K, V>): (m': map<K, map<int, V>>)
    ensures m'.Keys == m.Keys + es.Keys
    ensures forall k :: k in es ==> m'[k] == GetOrEmpty(m, k)[p := es[k]]
    ensures forall k :: k in m && k !in es ==> m'[k] == m[k]
  {
    m + map k | k in es :: GetOrEmpty(m, k)[p := es[k]]
  }

  /** Reading round `p` of every destination creates it where it is missing. */
  function Touched(r: RTable, p: int): (r': RTable)
    ensures r'.Keys == r.Keys
    ensures forall d :: d in r ==> r'[d] == r[d][p := GetOrEmpty(r[d], p)]
  {
    map d | d in r :: r[d][p := GetOrEmpty(r[d], p)]
  }

  /** The tables with the entries `es` and the log records `ls` of round `p` added. */
  function Recorded(s: State, p: nat, es: map<Dst, RtParm>, ls: map<Dst, Tlog>): State {
    State(Touched(s.r, p), Extended(s.route, p, es), Extended(s.log, p, ls), s.rib)
  }

  ghost function Scanned(s: State, p: nat, cfg: Config): State {
    Recorded(s, p, NewEntries(s, p, cfg), NewLogs(s, p, cfg))
  }

  // ----- free the round two back (pfr_route_free) -----

  /** The routing table without the entries of round `q` of the destinations `ds`. */
  function Pruned(route: RouteTable, q: int, ds: set<Dst>): (route': RouteTable)
    ensures route'.Keys == route.Keys + ds
    ensures forall d :: d in ds ==> route'[d] == GetOrEmpty(route, d) - {q}
    ensures forall d :: d in route && d !in ds ==> route'[d] == route[d]
  {
    route + map d | d in ds :: GetOrEmpty(route, d) - {q}
  }

  /** Round `q` of every destination is left empty. */
  function Cleared(r: RTable, q: int): (r': RTable)
    ensures r'.Keys == r.Keys
    ensures forall d :: d in r ==> r'[d] == r[d][q := map[]]
  {
    map d | d in r :: r[d][q := map[]]
  }

  function Freed(s: State, p: int): State {
    if p < 2 then s
    else s.(r := Cleared(s.r, p - 2), route := Pruned(s.route, p - 2, s.r.Keys))
  }

  // ----- delete silent destinations (pfr_delete, pfr_delete_all) -----

  /** Some round of lo..hi logged an answering peer. */
  ghost predicate AnsweredWithin(l: map<int, Tlog>, lo: int, hi: int) {
    exists q :: lo <= q <= hi && q in l && l[q].peer != 0
  }

  ghost predicate HasEntry(route: RouteTable, d: Dst, p: int) { d in route && p in route[d] }

  ghost function Silent(s: State, p: int, deepDelete: int): set<Dst> {
    if p <= deepDelete then {}
    else set d | d in s.log && HasEntry(s.route, d, p) && !AnsweredWithin(s.log[d], p - deepDelete, p)
  }

  function Without(s: State, ds: set<Dst>): State {
    State(s.r - ds, s.route - ds, s.log, s.rib - ds)
  }

  ghost function Deleted(s: State, p: int, deepDelete: int): State {
    Without(s, Silent(s, p, deepDelete))
  }

  ghost function DeletedAll(s: State, p: int): State {
    Without(s, set d | d in s.log && HasEntry(s.route, d, p))
  }

  // ----- advertise (pfr_routes_man) -----

  /** The announcement is skipped: the peer has not changed. */
  predicate Suppressed(adv: Config, p: int, e: RtParm) {
    !adv.advertiseSame && e.prevPeer == e.currPeer && p > 1
  }

  /** Effect of the announcement on the route of one destination. An add replaces the
      route there is; peer 0 is no peer of the configuration, so an add for it
      announces nothing. */
  function Announced(adv: Config, p: int, e: RtParm, have: Option<nat>): Option<nat> {
    if Suppressed(adv, p, e) || p <= 0 then have
    else
      var left := if p > 1 && e.prevPeer != 0 && adv.explicitWithdraw then None else have;
      if e.currPeer == 0 then left else Some(e.currPeer)
  }

  function Have(rib: Rib, d: Dst): Option<nat> { if d in rib then Some(rib[d]) else None }

  lemma SameRoutes(a: Rib, b: Rib)
    requires forall d :: Have(a, d) == Have(b, d)
    ensures a == b
  {
    assert forall d :: d in a <==> Have(a, d).Some?;
    assert forall d :: d in b <==> Have(b, d).Some?;
    assert forall d :: d in a ==> Have(a, d).value == a[d] == b[d];
  }

  /** Route of `d` after `ds` are announced. */
  function RouteAfter(route: RouteTable, p: int, adv: Config, rib: Rib, ds: set<Dst>, d: Dst): Option<nat> {
    if d in ds && d in route && p in route[d]
    then Announced(adv, p, route[d][p], Have(rib, d))
    else Have(rib, d)
  }

  function AnnouncedRib(route: RouteTable, p: int, adv: Config, rib: Rib, ds: set<Dst>): Rib {
    map d | d in rib.Keys + ds && RouteAfter(route, p, adv, rib, ds, d).Some? ::
      RouteAfter(route, p, adv, rib, ds, d).value
  }

  function Advertised(s: State, p: int, adv: Config): State {
    s.(rib := AnnouncedRib(s.route, p, adv, s.rib, s.route.Keys))
  }

  // ----- the round -----

  /** What a round takes from outside: the replies filed since the round before,
      whether the receiver has acknowledged the stop request, the destination list,
      the iteration order of the tables, the configuration, and the signals. */
  datatype RoundInput = RoundInput(replies: seq<Reply>, acked: bool, dsts: set<Dst>, order: seq<Dst>,
                                   keepRound: bool, cfg: Config, shutdown: bool, adv: Config)

  function Received(s: State, x: RoundInput): State { s.(r := FiledAll(s.r, x.replies)) }

  ghost function AtScan(s: State, p: nat, x: RoundInput): State {
    Aggregated(Updated(Received(s, x), p, x.dsts, x.order, x.keepRound), p, x.cfg.pingReq)
  }

  /** The tables when the announcements start. */
  ghost function BeforeAdvertise(s: State, p: nat, x: RoundInput): State {
    Deleted(Freed(Scanned(AtScan(s, p, x), p, x.cfg), p), p, x.cfg.deepDelete)
  }

  /** The last step: shut down, announce, or neither. */
  ghost function Finished(t: State, p: nat, x: RoundInput): (f: State)
    ensures f.log == t.log
    ensures !x.shutdown ==> f.r == t.r && f.route == t.route
  {
    if x.shutdown then DeletedAll(t, p)
    else if x.adv.advertise then Advertised(t, p, x.adv)
    else t
  }

  ghost function RoundStep(s: State, p: nat, x: RoundInput): State {
    if !x.acked then Received(s, x) else Finished(BeforeAdvertise(s, p, x), p, x)
  }
}
