/**
 The tables pfrd keeps between probe rounds, and the few functions on maps and
 sets that the other modules share.

 `r`, `route` and `route_log1` are nested ordered maps. A subscript on such a map
 creates a missing entry, so a missing inner map and an empty one read alike:
 `GetOrEmpty` is that read.
 */
module Tables {

  datatype Option<+T> = None | Some(value: T)

  // ----- records -----

  /** One measurement record: a single reply, or (under sequence number 99) the
      statistics of one peer in one round. */
  datatype Tparm = Tparm(rtt: real, avgRtt: real, lost: int, timestamp: int,
                         minRtt: real, maxRtt: real, metric0: real, metric1: real)

  /** The record the four-argument constructor makes. */
  function NewTparm(rtt: real, avgRtt: real, lost: int, timestamp: int): Tparm {
    Tparm(rtt, avgRtt, lost, timestamp, 0.0, 0.0, 0.0, 0.0)
  }

  /** The decision of one round for one destination. */
  datatype RtParm = RtParm(prevPeer: nat, prevMetric: real, currPeer: nat, currMetric: real)

  /** What one round logs about one destination; peer 0 means no answer. */
  datatype Tlog = Tlog(peer: nat, rtt: real, avgRtt: real, minRtt: real, maxRtt: real,
                       lost: int, timestamp: int)

  // ----- tables -----

  type Dst = string
  type Seqs = map<nat, Tparm>
  type Peers = map<nat, Seqs>
  type Probes = map<int, Peers>
  type RTable = map<Dst, Probes>
  type Entries = map<int, RtParm>
  type RouteTable = map<Dst, Entries>
  type LogTable = map<Dst, map<int, Tlog>>
  /** The advertised /32 routes: destination to the peer it points at. */
  type Rib = map<Dst, nat>

  datatype State = State(r: RTable, route: RouteTable, log: LogTable, rib: Rib)

  const EMPTY_STATE := State(map[], map[], map[], map[])

  /** The sequence number under which a peer's statistics are stored. */
  const STATS: nat := 99

  /** Value of the global `min_rtt` between destinations. */
  const CEILING: real := 50000.0

  // ----- configuration -----

  datatype PathMetric = Metric0 | Metric1 | OtherMetric

  datatype Config = Config(pingReq: int, metric: PathMetric, leastMove: bool, leastThresh: int,
                           deepDelete: int, advertise: bool, advertiseSame: bool,
                           explicitWithdraw: bool)

  // ----- maps -----

  function GetOrEmpty<K, A, B>(m: map<K, map<A, B>>, k: K): map<A, B> {
    if k in m then m[k] else map[]
  }

  // ----- ordered iteration -----

  lemma Inhabited<T>(s: set<T>) returns (x: T)
    requires s != {}
    ensures x in s
  {
    x :| x in s;
  }

  lemma MaxExists(s: set<int>)
    requires s != {}
    ensures exists k :: k in s && forall x :: x in s ==> x <= k
  {
    var k := Inhabited(s);
    if s != {k} {
      var t := s - {k};
      assert t != {};
      MaxExists(t);
      var j :| j in t && forall x :: x in t ==> x <= j;
      assert forall x :: x in s ==> x == k || x in t;
      var m := if j < k then k else j;
      assert m in s && forall x :: x in s ==> x <= m;
    }
  }

  /** The last key an ordered map iterates over. */
  function MaxKey(s: set<int>): (k: int)
    requires s != {}
    ensures k in s
    ensures forall x :: x in s ==> x <= k
  {
    MaxExists(s);
    var k :| k in s && forall x :: x in s ==> x <= k;
    k
  }

  lemma MinExists(s: set<int>)
    requires s != {}
    ensures exists k :: k in s && forall x :: x in s ==> k <= x
  {
    var k := MaxKey(s);
    if s != {k} {
      assert s - {k} != {};
      MinExists(s - {k});
      var j :| j in s - {k} && forall x :: x in s - {k} ==> j <= x;
      assert forall x :: x in s ==> x == k || x in s - {k};
      assert j <= k;
      assert j in s && forall x :: x in s ==> j <= x;
    }
  }

  /** The first key an ordered map iterates over. */
  function MinKey(s: set<int>): (k: int)
    requires s != {}
    ensures k in s
    ensures forall x :: x in s ==> k <= x
  {
    MinExists(s);
    var k :| k in s && forall x :: x in s ==> k <= x;
    k
  }

  predicate Increasing(ks: seq<nat>) {
    forall i, j :: 0 <= i < j < |ks| ==> ks[i] < ks[j]
  }

  /** The keys of an ordered map in iteration order. */
  function SortedKeys(s: set<nat>): (ks: seq<nat>)
    ensures Increasing(ks)
    ensures forall x :: x in ks <==> x in s
    ensures |ks| == |s|
    decreases |s|
  {
    if s == {} then []
    else
      var k := MaxKey(s);
      SortedKeys(s - {k}) + [k]
  }

  /** `order` lists `keys`, each of them once. */
  ghost predicate Enumerates(order: seq<Dst>, keys: set<Dst>) {
    && (forall k :: k in order <==> k in keys)
    && (forall i, j :: 0 <= i < j < |order| ==> order[i] != order[j])
  }

  /** The keys visited before position `i`. */
  ghost function Visited<T>(ks: seq<T>, i: nat): set<T>
    requires i <= |ks|
  {
    set x | x in ks[..i]
  }

  lemma VisitNext(ks: seq<nat>, i: nat)
    requires i < |ks| && Increasing(ks)
    ensures Visited(ks, i + 1) == Visited(ks, i) + {ks[i]}
    ensures forall x :: x in Visited(ks, i) ==> x < ks[i]
  {
    assert ks[..i + 1] == ks[..i] + [ks[i]];
  }

  lemma VisitAll(s: set<nat>)
    ensures var ks := SortedKeys(s); Visited(ks, 0) == {} && Visited(ks, |ks|) == s
    ensures forall i :: 0 <= i <= |SortedKeys(s)| ==> Visited(SortedKeys(s), i) <= s
  {
    var ks := SortedKeys(s);
    assert ks[..|ks|] == ks;
  }

  // ----- products -----

  lemma MulMono(a: real, b: real, c: real)
    requires a <= b && 0.0 <= c
    ensures a * c <= b * c
    ensures a < b && 0.0 < c ==> a * c < b * c
  {
  }
}
