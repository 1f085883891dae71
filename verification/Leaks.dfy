/**
 When a sequence of operations loses no record: exactly when no measured round has a
 reply numbered like the statistics.
 */
module Leaks {
  import opened Tables
  import opened Filing
  import opened Ownership

  /** If the operation measures a round, no reply of the round is numbered like the
      statistics. */
  ghost predicate StatsFree(ks: set<Place>, op: Op) {
    op.Measure? ==> forall k :: k in ks && IsStats(k) ==> RoundOf(k) != op.probe
  }

  /** The replies of round `p` numbered like the statistics. */
  function NumberedLikeStats(ks: set<Place>, p: int): set<Place> {
    set k | k in ks && IsStats(k) && RoundOf(k) == p
  }

  /** The statistics overwrite exactly those. */
  lemma StatsOverlap(ks: set<Place>, p: int)
    ensures StatsPlaces(ks, p) * ks == NumberedLikeStats(ks, p)
  {
    forall k | k in ks && IsStats(k) && RoundOf(k) == p
      ensures k in StatsPlaces(ks, p)
    {
      assert k == Sample(Slot(k.slot.dst, p, k.slot.peer, STATS));
    }
  }

  lemma LostIff(ks: set<Place>, op: Op)
    ensures Lost(ks, op) == 0 <==> StatsFree(ks, op)
  {
    if op.Measure? {
      StatsOverlap(ks, op.probe);
      var lost := StatsPlaces(ks, op.probe) * ks;
      if StatsFree(ks, op) {
        assert lost == {};
      } else {
        var k :| k in ks && IsStats(k) && RoundOf(k) == op.probe;
        assert k in lost;
      }
    }
  }

  /** Operation `i` finds no such reply. */
  ghost predicate StatsFreeAt(ks: set<Place>, ops: seq<Op>, i: nat)
    requires i < |ops|
  {
    StatsFree(AppliedAll(ks, ops[..i]), ops[i])
  }

  lemma {:induction false} LostThrough(ks: set<Place>, ops: seq<Op>, n: nat)
    requires n <= |ops|
    ensures LostAll(ks, ops[..n]) == 0 <==> forall i: nat :: i < n ==> StatsFreeAt(ks, ops, i)
  {
    if n == 0 {
      assert ops[..0] == [];
    } else {
      assert ops[..n][..n - 1] == ops[..n - 1];
      LostThrough(ks, ops, n - 1);
      LostIff(AppliedAll(ks, ops[..n - 1]), ops[n - 1]);
      assert StatsFreeAt(ks, ops, n - 1) <==> Lost(AppliedAll(ks, ops[..n - 1]), ops[n - 1]) == 0;
    }
  }

  /** A sequence of operations loses no record if and only if, whenever a round is
      measured, no reply of it numbered like the statistics is there. */
  lemma LostAllIff(ks: set<Place>, ops: seq<Op>)
    ensures LostAll(ks, ops) == 0 <==> forall i: nat :: i < |ops| ==> StatsFreeAt(ks, ops, i)
  {
    assert ops[..|ops|] == ops;
    LostThrough(ks, ops, |ops|);
  }

  lemma {:induction false} LostAppend(ks: set<Place>, a: seq<Op>, b: seq<Op>)
    ensures AppliedAll(ks, a + b) == AppliedAll(AppliedAll(ks, a), b)
    ensures LostAll(ks, a + b) == LostAll(ks, a) + LostAll(AppliedAll(ks, a), b)
  {
    if b == [] {
      assert a + b == a;
    } else {
      var n := |b| - 1;
      LostAppend(ks, a, b[..n]);
      assert (a + b)[..|a + b| - 1] == a + b[..n];
    }
  }
}
