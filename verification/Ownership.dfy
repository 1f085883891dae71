/**
 Allocation and release of the measurement and route records. Records are addresses;
 the nested tables are flattened to their full keys, replies and statistics under a
 slot, route entries under a destination and round. A place holds the only pointer to
 its record, so storing over an occupied place loses the record for good.
 */
module Ownership {
  import opened Tables
  import opened Filing

  type Addr = nat

  datatype Place = Sample(slot: Slot) | Entry(dst: Dst, probe: int)

  function DstOf(k: Place): Dst { if k.Sample? then k.slot.dst else k.dst }

  function RoundOf(k: Place): int { if k.Sample? then k.slot.probe else k.probe }

  /** The place of a peer's statistics. */
  predicate IsStats(k: Place) { k.Sample? && k.slot.sequence == STATS }

  /** One destination and round of the measurement table. */
  datatype Cell = Cell(dst: Dst, probe: int)

  function CellOf(k: Place): Cell { Cell(DstOf(k), RoundOf(k)) }

  /** What the round engine does to the records. */
  datatype Op =
    | File(slot: Slot)                     // a reply
    | Measure(probe: int, dsts: set<Dst>)  // statistics and route entries of a round
    | Free(round: int)                     // the round two back
    | Drop(dsts: set<Dst>)                 // vanished or silent destinations

  /** The statistics places of round `p`, one for each peer with a reply. */
  function StatsPlaces(ks: set<Place>, p: int): set<Place> {
    set k | k in ks && k.Sample? && RoundOf(k) == p :: Sample(Slot(k.slot.dst, p, k.slot.peer, STATS))
  }

  function EntryPlaces(ds: set<Dst>, p: int): set<Place> { set d | d in ds :: Entry(d, p) }

  /** The places that are taken after an operation. */
  function Applied(ks: set<Place>, op: Op): set<Place> {
    match op
    case File(x) => ks + {Sample(x)}
    case Measure(p, ds) => ks + StatsPlaces(ks, p) + EntryPlaces(ds, p)
    case Free(q) => set k | k in ks && RoundOf(k) != q
    case Drop(ds) => set k | k in ks && DstOf(k) !in ds
  }

  function AppliedAll(ks: set<Place>, ops: seq<Op>): set<Place> {
    if ops == [] then ks else Applied(AppliedAll(ks, ops[..|ops| - 1]), ops[|ops| - 1])
  }

  /** The last round measured. */
  function ClockAfter(clock: int, ops: seq<Op>): int {
    if ops == [] then clock
    else if ops[|ops| - 1].Measure? then ops[|ops| - 1].probe
    else ClockAfter(clock, ops[..|ops| - 1])
  }

  /** Rounds are measured in increasing order, after round `clock`. */
  predicate InOrder(clock: int, ops: seq<Op>) {
    ops == [] ||
    (InOrder(clock, ops[..|ops| - 1]) &&
     (ops[|ops| - 1].Measure? ==> ClockAfter(clock, ops[..|ops| - 1]) < ops[|ops| - 1].probe))
  }

  lemma {:induction false} InOrderPrefix(clock: int, ops: seq<Op>, i: nat)
    requires i <= |ops| && InOrder(clock, ops)
    ensures InOrder(clock, ops[..i])
  {
    if i < |ops| {
      var n := |ops| - 1;
      InOrderPrefix(clock, ops[..n], i);
      assert ops[..n][..i] == ops[..i];
    } else {
      assert ops[..i] == ops;
    }
  }

  /** Records an operation loses: statistics stored over a reply numbered like them. */
  function Lost(ks: set<Place>, op: Op): nat {
    if op.Measure? then |StatsPlaces(ks, op.probe) * ks| else 0
  }

  function LostAll(ks: set<Place>, ops: seq<Op>): nat {
    if ops == [] then 0
    else
      var front := ops[..|ops| - 1];
      LostAll(ks, front) + Lost(AppliedAll(ks, front), ops[|ops| - 1])
  }

  /** No statistics place of a round still to be measured is taken. */
  ghost predicate NoStray(ks: set<Place>, clock: int) {
    forall k :: k in ks && IsStats(k) ==> RoundOf(k) <= clock
  }

  lemma StatsTaken(ks: set<Place>, clock: int, p: int)
    requires NoStray(ks, clock) && clock < p
    ensures StatsPlaces(ks, p) * ks == {}
  {
    forall k | k in StatsPlaces(ks, p) ensures k !in ks {
      assert IsStats(k) && RoundOf(k) == p;
    }
  }

  lemma AppliedNoStray(ks: set<Place>, clock: int, op: Op)
    requires NoStray(ks, clock) && (op.File? ==> op.slot.sequence != STATS)
    requires op.Measure? ==> clock < op.probe
    ensures NoStray(Applied(ks, op), if op.Measure? then op.probe else clock)
  {
  }

  /** Nothing is lost while rounds are measured in order and no reply is numbered like
      the statistics. */
  lemma {:induction false} NothingLost(ks: set<Place>, clock: int, ops: seq<Op>)
    requires NoStray(ks, clock) && InOrder(clock, ops) && FewRequests(ops)
    ensures LostAll(ks, ops) == 0
    ensures NoStray(AppliedAll(ks, ops), ClockAfter(clock, ops))
  {
    if ops != [] {
      var front, op := ops[..|ops| - 1], ops[|ops| - 1];
      NothingLost(ks, clock, front);
      AppliedNoStray(AppliedAll(ks, front), ClockAfter(clock, front), op);
      if op.Measure? {
        StatsTaken(AppliedAll(ks, front), ClockAfter(clock, front), op.probe);
      }
    }
  }

  /** No reply carries the sequence number of the statistics. */
  ghost predicate FewRequests(ops: seq<Op>) {
    forall i :: 0 <= i < |ops| && ops[i].File? ==> ops[i].slot.sequence != STATS
  }

  lemma TakenNext(m: map<Place, Addr>, ks: set<Place>, todo: set<Place>, k: Place)
    requires k in todo && todo <= ks && ks <= m.Keys
    ensures m - (ks - todo) - {k} == m - (ks - (todo - {k}))
    ensures k in m - (ks - todo)
  {
  }

  lemma OverlapSplits(ks: set<Place>, before: set<Place>, k: Place)
    requires k in ks
    ensures |ks * before| == |(ks - {k}) * (before + {k})| + (if k in before then 1 else 0)
  {
    var rest := (ks - {k}) * (before + {k});
    assert k !in rest;
    assert ks * before == if k in before then rest + {k} else rest;
  }

  class Records {
    var rounds: set<Cell>
    var store: map<Place, Addr>
    var clock: int
    var next: nat
    var freed: nat
    /** The live records that a place points at, and the live ones no place does. */
    ghost var owner: map<Addr, Place>
    ghost var leaked: set<Addr>

    /** Places and the records they own correspond one to one; no leaked record is
        owned; allocated minus freed records are the stored and the leaked ones. */
    ghost predicate Stored()
      reads this
    {
      && (forall k :: k in store ==> store[k] in owner && owner[store[k]] == k)
      && (forall a :: a in owner ==> a < next && a !in leaked && owner[a] in store && store[owner[a]] == a)
      && (forall a :: a in leaked ==> a < next)
      && next - freed == |store| + |leaked|
    }

    /** A record is stored under a round its destination has, a route entry under one
        that has been measured. */
    ghost predicate Placed()
      reads this
    {
      forall k :: k in store ==> CellOf(k) in rounds && (k.Entry? ==> k.probe <= clock)
    }

    ghost predicate Owned()
      reads this
    {
      Stored() && Placed()
    }

    constructor ()
      ensures Owned() && store == map[] && leaked == {} && clock == -1
    {
      rounds, store, clock, next, freed := {}, map[], -1, 0, 0;
      owner, leaked := map[], {};
    }

    /** Allocates a record and stores it in a free place. */
    method Put(k: Place)
      requires Stored() && k !in store
      modifies this`store, this`next, this`owner
      ensures Stored() && store == old(store)[k := old(next)]
    {
      store := store[k := next];
      owner := owner[next := k];
      next := next + 1;
    }

    /** Frees the record of a place and erases the place. Only an owned record is ever
        freed, and then it is owned no more: nothing is freed twice. */
    method Take(k: Place)
      requires Stored() && k in store
      modifies this`store, this`freed, this`owner
      ensures Stored() && store == old(store) - {k}
      ensures old(store)[k] in old(owner) && old(store)[k] !in owner
    {
      ghost var a := store[k];
      owner := owner - {a};
      freed := freed + 1;
      assert store.Keys == (store - {k}).Keys + {k};
      store := store - {k};
    }

    /** The pointer in a place is overwritten or erased without freeing its record. */
    ghost method Forget(k: Place)
      requires Stored() && k in store
      modifies this`owner, this`leaked
      ensures owner == old(owner) - {store[k]} && leaked == old(leaked) + {store[k]}
      ensures store[k] !in old(leaked)
    {
      leaked := leaked + {store[k]};
      owner := owner - {store[k]};
    }

    /** Stores a new record in a place, free or not. */
    method Overwrite(k: Place)
      requires Stored()
      modifies this`store, this`next, this`owner, this`leaked
      ensures Stored() && store == old(store)[k := old(next)]
      ensures leaked == old(leaked) + if k in old(store) then {old(store)[k]} else {}
      ensures |leaked| == |old(leaked)| + if k in old(store) then 1 else 0
    {
      if k in store {
        Forget(k);
        owner := owner[next := k];
        store := store[k := next];
        next := next + 1;
      } else {
        Put(k);
      }
    }

    /** Frees the records of a set of places. */
    method TakeAll(ks: set<Place>)
      requires Stored() && ks <= store.Keys
      modifies this`store, this`freed, this`owner
      ensures Stored() && store == old(store) - ks
    {
      var todo := ks;
      while todo != {}
        invariant Stored() && todo <= ks
        invariant store == old(store) - (ks - todo)
        decreases |todo|
      {
        var k :| k in todo;
        TakenNext(old(store), ks, todo, k);
        Take(k);
        todo := todo - {k};
      }
    }

    /** Files a reply: a new record if its place is free. */
    method FileReply(x: Slot)
      requires Owned()
      modifies this
      ensures Owned() && leaked == old(leaked) && clock == old(clock)
      ensures store.Keys == Applied(old(store).Keys, File(x))
    {
      rounds := rounds + {CellOf(Sample(x))};
      if Sample(x) !in store {
        Put(Sample(x));
      }
    }

    /** Frees round `q` of every destination: replies, statistics, route entries. */
    method FreeRound(q: int)
      requires Owned()
      modifies this`store, this`freed, this`owner
      ensures Owned() && store.Keys == Applied(old(store).Keys, Free(q))
    {
      TakeAll(set k | k in store && RoundOf(k) == q);
    }

    /** Drops a destination. The loop runs over the rounds the measurement table has for
        it and frees the replies, the statistics and the route entry of each; an entry
        under any other round would be erased unfreed. */
    method DropDst(d: Dst)
      requires Owned()
      modifies this`store, this`freed, this`owner, this`rounds
      ensures Owned() && forall k :: k in store <==> k in old(store) && DstOf(k) != d
    {
      TakeAll(set k | k in store && DstOf(k) == d && CellOf(k) in rounds);
      rounds := set c | c in rounds && c.dst != d;
      assert forall k :: k in store ==> DstOf(k) != d;
    }

    method DropAll(ds: set<Dst>)
      requires Owned()
      modifies this`store, this`freed, this`owner, this`rounds
      ensures Owned() && store.Keys == Applied(old(store).Keys, Drop(ds))
    {
      var todo := ds;
      while todo != {}
        invariant Owned() && todo <= ds
        invariant store.Keys == Applied(old(store).Keys, Drop(ds - todo))
        decreases |todo|
      {
        var d: Dst :| d in todo;
        DropDst(d);
        todo := todo - {d};
      }
    }

    /** A place the records of this round may be stored in. */
    predicate Ready(k: Place)
      reads this`rounds, this`clock
    {
      CellOf(k) in rounds && (k.Entry? ==> k.probe <= clock)
    }

    /** Stores a new record in one place. */
    method Renew(k: Place)
      requires Owned() && Ready(k)
      modifies this`store, this`next, this`owner, this`leaked
      ensures Owned() && store.Keys == old(store).Keys + {k}
      ensures |leaked| == |old(leaked)| + if k in old(store) then 1 else 0
    {
      Overwrite(k);
    }

    /** The same for one place `k` of `ks`. */
    method RenewOf(ghost ks: set<Place>, k: Place)
      requires Owned() && Ready(k) && k in ks
      modifies this`store, this`next, this`owner, this`leaked
      ensures Owned() && store.Keys == old(store).Keys + {k}
      ensures |leaked| + |(ks - {k}) * store.Keys| == |old(leaked)| + |ks * old(store).Keys|
    {
      ghost var before, lost := store.Keys, |leaked|;
      OverlapSplits(ks, before, k);
      Renew(k);
      assert |leaked| == lost + if k in before then 1 else 0;
    }

    /** Stores a new record in every one of a set of places, in any order. Only the record
        of a place that was taken is lost. */
    method OverwriteAll(ks: set<Place>)
      requires Owned() && forall k :: k in ks ==> Ready(k)
      modifies this`store, this`next, this`owner, this`leaked
      ensures Owned() && store.Keys == old(store).Keys + ks
      ensures |leaked| == |old(leaked)| + |ks * old(store).Keys|
      decreases |ks|
    {
      if ks != {} {
        var k :| k in ks;
        RenewOf(ks, k);
        OverwriteAll(ks - {k});
      }
    }

    /** The statistics records of round `p`. */
    method StoreStats(p: int)
      requires Owned()
      modifies this`store, this`next, this`owner, this`leaked
      ensures Owned()
      ensures store.Keys == old(store).Keys + StatsPlaces(old(store).Keys, p)
      ensures |leaked| == |old(leaked)| + |StatsPlaces(old(store).Keys, p) * old(store).Keys|
    {
      var all := StatsPlaces(store.Keys, p);
      assert forall k :: k in all ==> IsStats(k) && RoundOf(k) == p && Ready(k);
      OverwriteAll(all);
    }

    /** Measures round `p`: statistics, then a route entry for each routed destination. */
    method MeasureRound(p: int, ds: set<Dst>)
      requires Owned() && clock < p
      modifies this
      ensures Owned() && clock == p
      ensures store.Keys == Applied(old(store).Keys, Measure(p, ds))
      ensures |leaked| == |old(leaked)| + Lost(old(store).Keys, Measure(p, ds))
    {
      StoreStats(p);
      StoreEntries(p, ds);
    }

    method StoreEntries(p: int, ds: set<Dst>)
      requires Owned() && clock < p
      modifies this
      ensures Owned() && clock == p && |leaked| == |old(leaked)|
      ensures store.Keys == old(store).Keys + EntryPlaces(ds, p)
    {
      assert EntryPlaces(ds, p) * store.Keys == {};
      clock := p;
      rounds := rounds + set d | d in ds :: Cell(d, p);
      assert forall d :: d in ds ==> Cell(d, p) in rounds;
      OverwriteAll(EntryPlaces(ds, p));
    }

    method Do(op: Op)
      requires Owned() && (op.Measure? ==> clock < op.probe)
      modifies this
      ensures Owned()
      ensures store.Keys == Applied(old(store).Keys, op)
      ensures clock == if op.Measure? then op.probe else old(clock)
      ensures |leaked| == |old(leaked)| + Lost(old(store).Keys, op)
    {
      match op
      case File(x) => FileReply(x);
      case Measure(p, ds) => MeasureRound(p, ds);
      case Free(q) => FreeRound(q);
      case Drop(ds) => DropAll(ds);
    }

    /** For every sequence of operations, in any interleaving: nothing is freed twice,
        every place holds a live record of its own, the places taken are those the
        operations leave, allocated minus freed records are the stored and the leaked
        ones, and leaked are exactly the records the operations lose. */
    method Perform(ops: seq<Op>)
      requires Owned() && InOrder(clock, ops)
      modifies this
      ensures Owned() && next - freed == |store| + |leaked|
      ensures store.Keys == AppliedAll(old(store).Keys, ops)
      ensures |leaked| == |old(leaked)| + LostAll(old(store).Keys, ops)
    {
      for i := 0 to |ops|
        invariant Owned() && clock == ClockAfter(old(clock), ops[..i])
        invariant store.Keys == AppliedAll(old(store).Keys, ops[..i])
        invariant |leaked| == |old(leaked)| + LostAll(old(store).Keys, ops[..i])
      {
        InOrderPrefix(old(clock), ops, i + 1);
        assert ops[..i + 1][..i] == ops[..i];
        Do(ops[i]);
      }
      assert ops[..|ops|] == ops;
    }
  }
}
