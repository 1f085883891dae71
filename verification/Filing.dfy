/**
 Filing of decoded replies into the measurement table, as `proc_v4` does it: the
 first reply for a slot is kept, later ones are dropped.
 */
module Filing {
  import opened Tables

  /** A decoded echo reply. */
  datatype Reply = Reply(src: Dst, probe: int, peer: nat, sequence: nat, rtt: real, timestamp: int)

  /** One place of the four-level table. */
  datatype Slot = Slot(dst: Dst, probe: int, peer: nat, sequence: nat)

  function SlotOf(x: Reply): Slot { Slot(x.src, x.probe, x.peer, x.sequence) }

  function RecordOf(x: Reply): Tparm { NewTparm(x.rtt, 0.0, 0, x.timestamp) }

  function Lookup(r: RTable, k: Slot): Option<Tparm> {
    if k.dst in r && k.probe in r[k.dst] && k.peer in r[k.dst][k.probe]
       && k.sequence in r[k.dst][k.probe][k.peer]
    then Some(r[k.dst][k.probe][k.peer][k.sequence])
    else None
  }

  ghost function Slots(r: RTable): set<Slot> {
    set d, q, p, s | d in r && q in r[d] && p in r[d][q] && s in r[d][q][p] :: Slot(d, q, p, s)
  }

  function Filed(r: RTable, x: Reply): RTable {
    var probes := GetOrEmpty(r, x.src);
    var peers := GetOrEmpty(probes, x.probe);
    var seqs := GetOrEmpty(peers, x.peer);
    if x.sequence in seqs then r
    else r[x.src := probes[x.probe := peers[x.peer := seqs[x.sequence := RecordOf(x)]]]]
  }

  /** The table after a run of replies, in arrival order. */
  function FiledAll(r: RTable, xs: seq<Reply>): RTable {
    if xs == [] then r else Filed(FiledAll(r, xs[..|xs| - 1]), xs[|xs| - 1])
  }

  /** Filing touches the reply's own slot only, and only when it is free. */
  lemma LookupFiled(r: RTable, x: Reply, k: Slot)
    ensures Lookup(Filed(r, x), k) ==
            if Lookup(r, k) == None && k == SlotOf(x) then Some(RecordOf(x)) else Lookup(r, k)
  {
    var probes := GetOrEmpty(r, x.src);
    var peers := GetOrEmpty(probes, x.probe);
    var seqs := GetOrEmpty(peers, x.peer);
    if x.sequence in seqs {
      assert Lookup(r, SlotOf(x)).Some?;
    }
  }

  /** `i` is the first reply of the run for slot `k`. */
  ghost predicate FirstFor(xs: seq<Reply>, k: Slot, i: nat) {
    && i < |xs| && SlotOf(xs[i]) == k
    && forall j :: 0 <= j < i ==> SlotOf(xs[j]) != k
  }

  lemma {:induction false} TakenIff(r: RTable, xs: seq<Reply>, k: Slot)
    ensures Lookup(r, k).Some? ==> Lookup(FiledAll(r, xs), k) == Lookup(r, k)
    ensures Lookup(r, k) == None ==>
              (Lookup(FiledAll(r, xs), k) == None <==> forall i :: 0 <= i < |xs| ==> SlotOf(xs[i]) != k)
  {
    if xs != [] {
      var n := |xs| - 1;
      TakenIff(r, xs[..n], k);
      LookupFiled(FiledAll(r, xs[..n]), xs[n], k);
    }
  }

  lemma {:induction false} FirstFiled(r: RTable, xs: seq<Reply>, k: Slot, i: nat)
    requires Lookup(r, k) == None && FirstFor(xs, k, i)
    ensures Lookup(FiledAll(r, xs), k) == Some(RecordOf(xs[i]))
  {
    var n := |xs| - 1;
    var front := xs[..n];
    LookupFiled(FiledAll(r, front), xs[n], k);
    if i < n {
      assert FirstFor(front, k, i);
      FirstFiled(r, front, k, i);
    } else {
      TakenIff(r, front, k);
    }
  }

  /** For any run of replies, with duplicates and in any order, a slot that was taken
      keeps its record, and a free slot holds the record of the first reply for it,
      or stays free exactly when there was none. */
  lemma FirstReplyWins(r: RTable, xs: seq<Reply>, k: Slot)
    ensures Lookup(r, k).Some? ==> Lookup(FiledAll(r, xs), k) == Lookup(r, k)
    ensures Lookup(r, k) == None ==>
              (Lookup(FiledAll(r, xs), k) == None <==> forall i :: 0 <= i < |xs| ==> SlotOf(xs[i]) != k)
    ensures forall i: nat :: Lookup(r, k) == None && FirstFor(xs, k, i) ==>
              Lookup(FiledAll(r, xs), k) == Some(RecordOf(xs[i]))
  {
    TakenIff(r, xs, k);
    forall i: nat | Lookup(r, k) == None && FirstFor(xs, k, i)
      ensures Lookup(FiledAll(r, xs), k) == Some(RecordOf(xs[i]))
    {
      FirstFiled(r, xs, k, i);
    }
  }

  lemma SlotsLookup(r: RTable, k: Slot)
    ensures k in Slots(r) <==> Lookup(r, k).Some?
  {
  }

  /** A reply allocates a record exactly when the table grows by its slot. */
  lemma SlotsFiled(r: RTable, x: Reply)
    ensures Slots(Filed(r, x)) == Slots(r) + {SlotOf(x)}
    ensures SlotOf(x) in Slots(r) <==> Filed(r, x) == r
  {
    forall k ensures k in Slots(Filed(r, x)) <==> k in Slots(r) + {SlotOf(x)} {
      SlotsLookup(Filed(r, x), k);
      SlotsLookup(r, k);
      LookupFiled(r, x, k);
    }
    if SlotOf(x) !in Slots(r) {
      SlotsLookup(r, SlotOf(x));
      LookupFiled(r, x, SlotOf(x));
    }
  }

  /** No peer is listed without a reply. */
  ghost predicate NoEmptyPeer(r: RTable) {
    forall d, q, p :: d in r && q in r[d] && p in r[d][q] ==> r[d][q][p] != map[]
  }

  /** Every destination and every round of `r` is still there in `r'`. */
  ghost predicate Keeps(r: RTable, r': RTable) {
    && r.Keys <= r'.Keys
    && forall d, q :: d in r && q in r[d] ==> q in r'[d]
  }

  lemma FiledShape(r: RTable, x: Reply)
    requires NoEmptyPeer(r)
    ensures NoEmptyPeer(Filed(r, x)) && Keeps(r, Filed(r, x))
  {
    var r' := Filed(r, x);
    forall d, q, p | d in r' && q in r'[d] && p in r'[d][q]
      ensures r'[d][q][p] != map[]
    {
      if d == x.src && q == x.probe && p == x.peer {
        assert x.sequence in r'[d][q][p];
      } else {
        assert d in r && q in r[d] && p in r[d][q];
      }
    }
  }

  lemma {:induction false} FiledAllShape(r: RTable, xs: seq<Reply>)
    requires NoEmptyPeer(r)
    ensures NoEmptyPeer(FiledAll(r, xs)) && Keeps(r, FiledAll(r, xs))
  {
    if xs != [] {
      var front := xs[..|xs| - 1];
      FiledAllShape(r, front);
      FiledShape(FiledAll(r, front), xs[|xs| - 1]);
    }
  }

  /** A round no reply belongs to keeps its replies. */
  lemma {:induction false} FiledAllFrame(r: RTable, xs: seq<Reply>, d: Dst, q: int)
    requires forall i :: 0 <= i < |xs| ==> xs[i].src != d || xs[i].probe != q
    ensures GetOrEmpty(GetOrEmpty(FiledAll(r, xs), d), q) == GetOrEmpty(GetOrEmpty(r, d), q)
    ensures d in FiledAll(r, xs) && q in FiledAll(r, xs)[d] ==> d in r && q in r[d]
  {
    if xs != [] {
      FiledAllFrame(r, xs[..|xs| - 1], d, q);
    }
  }

  /** A round of a destination after filing was there before or belongs to a reply. */
  lemma FiledRound(r: RTable, xs: seq<Reply>, d: Dst, q: int)
    requires d in FiledAll(r, xs) && q in FiledAll(r, xs)[d]
    ensures (d in r && q in r[d]) || exists i :: 0 <= i < |xs| && xs[i].src == d && xs[i].probe == q
  {
    if forall i :: 0 <= i < |xs| ==> xs[i].src != d || xs[i].probe != q {
      FiledAllFrame(r, xs, d, q);
    }
  }
}
