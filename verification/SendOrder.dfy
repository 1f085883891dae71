/**
 What a sender sends, whatever the others do meanwhile: its own probes, each once and in
 order.
 */
module SendOrder {
  import opened Tables
  import opened Octets
  import opened SharedBuffer

  /** How many probes come before probe `sequence` to destination `d`. */
  function Index(c: Setup, d: nat, sequence: nat): nat { Mul(d, c.pingReq) + sequence }

  function Mul(d: nat, n: nat): nat { d * n }

  lemma MulNext(d: nat, n: nat)
    ensures Mul(d + 1, n) == Mul(d, n) + n
  {
  }

  lemma {:induction false} MulLess(d: nat, d': nat, n: nat)
    requires d < d'
    ensures Mul(d, n) + n <= Mul(d', n)
    decreases d'
  {
    MulNext(d' - 1, n);
    if d < d' - 1 {
      MulLess(d, d' - 1, n);
    }
  }

  /** `g` is what went out for the probe that `n` others come before. */
  ghost predicate IsNth(c: Setup, n: nat, g: Datagram) {
    g.sequence < c.pingReq && n == Index(c, g.d, g.sequence)
  }

  /** The datagrams are those of the probes before the one the sender is at. */
  ghost predicate InSequence(c: Setup, t: Thread, sent: seq<Datagram>) {
    && t.d <= c.dsts && |sent| == Index(c, t.d, t.sequence)
    && forall n :: 0 <= n < |sent| ==> IsNth(c, n, sent[n])
  }

  ghost predicate AllInSequence(c: Setup, s: Shared) {
    && |s.threads| == |s.sent|
    && forall i :: 0 <= i < |s.threads| ==> InSequence(c, s.threads[i], s.sent[i])
  }

  lemma NextInSequence(c: Setup, buf: seq<Byte>, i: nat, t: Thread, sent: seq<Datagram>, g: Datagram)
    requires ThreadTyped(c, i, t) && c.len <= |buf| && InSequence(c, t, sent)
    requires t.at == Header ==> t.d < c.dsts
    requires t.at == Emit ==> g.d == t.d && g.sequence == t.sequence
    ensures InSequence(c, Next(c, buf, t), if t.at == Emit then sent + [g] else sent)
  {
    MulNext(t.d, c.pingReq);
  }

  lemma MoveInSequence(c: Setup, s: Shared, i: nat)
    requires Typed(c, s) && Can(c, s, i) && AllInSequence(c, s)
    ensures AllInSequence(c, Move(c, s, i))
  {
    var t, s' := s.threads[i], Move(c, s, i);
    assert ThreadTyped(c, i, t) && InSequence(c, t, s.sent[i]);
    NextInSequence(c, s.buf, i, t, s.sent[i], Datagram(t.d, t.sequence, Found(s.proto), s.buf[..c.len]));
    forall j | 0 <= j < |s'.threads| ensures InSequence(c, s'.threads[j], s'.sent[j]) {
      assert InSequence(c, s.threads[j], s.sent[j]);
    }
  }

  lemma TurnInSequence(c: Setup, s: Shared, turn: Turn)
    requires Typed(c, s) && AllInSequence(c, s)
    ensures AllInSequence(c, Take(c, s, turn))
  {
    if turn.OfSender? && Can(c, s, turn.i) {
      MoveInSequence(c, s, turn.i);
    }
  }

  lemma {:induction false} RunInSequence(c: Setup, s: Shared, turns: seq<Turn>)
    requires Start(c, s)
    ensures AllInSequence(c, After(c, s, turns))
    decreases |turns|
  {
    if turns == [] {
      forall i | 0 <= i < |s.threads| ensures InSequence(c, s.threads[i], s.sent[i]) {
      }
    } else {
      RunInSequence(c, s, turns[..|turns| - 1]);
      TurnInSequence(c, After(c, s, turns[..|turns| - 1]), turns[|turns| - 1]);
    }
  }

  lemma IndexUnique(c: Setup, d: nat, sequence: nat, d': nat, sequence': nat)
    requires sequence < c.pingReq && sequence' < c.pingReq
    ensures Index(c, d, sequence) == Index(c, d', sequence') <==> d == d' && sequence == sequence'
  {
    if d < d' {
      MulLess(d, d', c.pingReq);
    } else if d' < d {
      MulLess(d', d, c.pingReq);
    }
  }

  /** Probe `sequence` to destination `d` went out as datagram number `n` and no other. */
  ghost predicate SentOnce(sent: seq<Datagram>, d: nat, sequence: nat, n: nat) {
    && n < |sent| && sent[n].d == d && sent[n].sequence == sequence
    && forall k :: 0 <= k < |sent| && sent[k].d == d && sent[k].sequence == sequence ==> k == n
  }

  lemma OnceAt(c: Setup, t: Thread, sent: seq<Datagram>, d: nat, sequence: nat)
    requires InSequence(c, t, sent) && sequence < c.pingReq && Index(c, d, sequence) < |sent|
    ensures SentOnce(sent, d, sequence, Index(c, d, sequence))
  {
    var n := Index(c, d, sequence);
    assert IsNth(c, n, sent[n]);
    IndexUnique(c, sent[n].d, sent[n].sequence, d, sequence);
    forall k | 0 <= k < |sent| && sent[k].d == d && sent[k].sequence == sequence ensures k == n {
      assert IsNth(c, k, sent[k]);
    }
  }

  /** Nobody keeps the sender from moving, and it does not move. */
  ghost predicate Through(c: Setup, s: Shared, i: nat) {
    i < |s.threads| && !Can(c, s, i) && s.holder == None
  }

  /** In every interleaving, a sender that has come to its end has sent every probe of its
      own exactly once, destination by destination and by number, and nothing else. */
  lemma EveryProbeOnce(c: Setup, s: Shared, turns: seq<Turn>, i: nat)
    requires Start(c, s) && Through(c, After(c, s, turns), i)
    ensures var sent := After(c, s, turns).sent[i];
      && |sent| == Index(c, c.dsts, 0)
      && forall d: nat, sequence: nat :: d < c.dsts && sequence < c.pingReq ==>
           SentOnce(sent, d, sequence, Index(c, d, sequence))
  {
    RunInSequence(c, s, turns);
    var s' := After(c, s, turns);
    var t, sent := s'.threads[i], s'.sent[i];
    assert InSequence(c, t, sent) && ThreadTyped(c, i, t);
    forall d: nat, sequence: nat | d < c.dsts && sequence < c.pingReq
      ensures SentOnce(sent, d, sequence, Index(c, d, sequence))
    {
      MulLess(d, c.dsts, c.pingReq);
      OnceAt(c, t, sent, d, sequence);
    }
  }
}
