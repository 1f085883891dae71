/**
 The probes one sender sends to one destination, on their way back: each is decoded as
 what was asked, and each takes a slot of its own.
 */
module Batches {
  import opened Tables
  import opened Octets
  import opened Dotted
  import opened Wire
  import opened Sender
  import opened Filing
  import opened Pipeline

  /** How an echo of a probe comes in: IP header, the responder's checksum, the bytes left
      in the buffer behind it, and the time. */
  datatype Return = Return(from: Address, ip: seq<Byte>, cksum: seq<Byte>, stale: seq<Byte>, at: Timeval)

  predicate ValidReturn(w: Return, p: seq<Byte>) {
    IpHeader(w.ip, w.from) && |w.cksum| == 2 && |p| >= 4 && |w.ip| + |p| + |w.stale| >= 112
  }

  /** The reply `proc_v4` makes of an echo of `p`. */
  predicate IsReplyTo(o: Order, pid: nat, p: seq<Byte>, w: Return, x: Reply)
    requires ValidReturn(w, p)
  {
    var d := Decode(o, pid, Landed(w.ip, p, w.cksum, w.stale), |w.ip| + |p|, w.at);
    d.Some? && d.value.peer >= 0 && x == AsReply(d.value)
  }

  /** The answer to probe `k` of a batch: who answered, the batch it belongs to, its number,
      and the milliseconds since it was sent. */
  function AnswerTo(c: Batch, k: nat, t: Moment, w: Return): Reply
    requires c.peer >= 0
  {
    Reply(Text(w.from), c.probe, c.peer, k % 0x1_0000, (Micros(w.at) - Micros(t.at)) as real / 1000.0, t.now)
  }

  function EchoOf(c: Batch, k: nat, t: Moment, w: Return): Echo {
    Echo(RequestOf(c, k, t), Pad(c.maxLoad, t), w.from, w.ip, w.cksum, w.stale, w.at)
  }

  lemma EchoAnswers(c: Batch, k: nat, t: Moment, w: Return)
    requires c.peer >= 0
    ensures Answer(EchoOf(c, k, t, w)).peer >= 0
    ensures AsReply(Answer(EchoOf(c, k, t, w))) == AnswerTo(c, k, t, w)
  {
  }

  lemma EchoBuffer(o: Order, c: Batch, k: nat, t: Moment, p: seq<Byte>, w: Return)
    requires ValidBatch(c, 131074) && ValidMoment(t) && c.peer >= 0
    requires p == Packet(o, c, k, t) && |p| == 52 + |Pad(c.maxLoad, t)| && ValidReturn(w, p)
    ensures ValidEcho(EchoOf(c, k, t, w))
    ensures BufferOf(o, c.pid, EchoOf(c, k, t, w)) == Landed(w.ip, p, w.cksum, w.stale)
  {
  }

  /** The echo of a probe says which probe of which batch it is, and nothing else. */
  lemma ProbeDecodes(o: Order, c: Batch, k: nat, t: Moment, p: seq<Byte>, w: Return, x: Reply)
    requires ValidBatch(c, 131074) && ValidMoment(t) && c.peer >= 0
    requires IsPacket(o, c, k, t, p) && ValidReturn(w, p)
    ensures IsReplyTo(o, c.pid, p, w, x) <==> x == AnswerTo(c, k, t, w)
  {
    var e := EchoOf(c, k, t, w);
    assert p == Packet(o, c, k, t) by {
      PacketIff(o, c, k, t, p);
    }
    EchoBuffer(o, c, k, t, p, w);
    OwnEchoDecodes(o, c.pid, e);
    EchoAnswers(c, k, t, w);
    Relayed(o, c.pid, p, w, x, Answer(e));
  }

  lemma Relayed(o: Order, pid: nat, p: seq<Byte>, w: Return, x: Reply, d: Decoded)
    requires ValidReturn(w, p) && d.peer >= 0
    requires Decode(o, pid, Landed(w.ip, p, w.cksum, w.stale), |w.ip| + |p|, w.at) == Some(d)
    ensures IsReplyTo(o, pid, p, w, x) <==> x == AsReply(d)
  {
  }

  // ----- the slots of a batch -----

  /** `xs` are the replies to probes `order[0]`, `order[1]`, ... of the batch: any of them, in
      any order, some more than once, all from one host. */
  ghost predicate Answered(o: Order, c: Batch, sent: seq<seq<Byte>>, from: Address, order: seq<nat>, ws: seq<Return>,
                           xs: seq<Reply>)
  {
    && |order| == |ws| == |xs|
    && forall i :: 0 <= i < |order| ==> order[i] < |sent| && IsAnswer(o, c, sent[order[i]], from, ws[i], xs[i])
  }

  predicate IsAnswer(o: Order, c: Batch, p: seq<Byte>, from: Address, w: Return, x: Reply) {
    ValidReturn(w, p) && w.from == from && IsReplyTo(o, c.pid, p, w, x)
  }

  /** The slot of probe `k`. */
  function PlaceOf(c: Batch, from: Address, k: nat): Slot
    requires c.peer >= 0
  {
    Slot(Text(from), c.probe, c.peer, k)
  }

  ghost predicate Numbers(c: Batch, from: Address, order: seq<nat>, xs: seq<Reply>)
    requires c.peer >= 0
  {
    && |xs| == |order|
    && forall i :: 0 <= i < |xs| ==> SlotOf(xs[i]) == PlaceOf(c, from, order[i] % 0x1_0000)
  }

  lemma AnswersNumber(o: Order, c: Batch, ts: seq<Moment>, sent: seq<seq<Byte>>, from: Address, order: seq<nat>,
                      ws: seq<Return>, xs: seq<Reply>)
    requires ValidBatch(c, 131074) && Moments(c, ts) && c.peer >= 0 && AreProbes(o, c, ts, sent)
    requires Answered(o, c, sent, from, order, ws, xs)
    ensures Numbers(c, from, order, xs)
  {
    forall i | 0 <= i < |xs|
      ensures SlotOf(xs[i]) == PlaceOf(c, from, order[i] % 0x1_0000)
    {
      var k := order[i];
      ProbeDecodes(o, c, k, ts[k], sent[k], ws[i], xs[i]);
    }
  }

  lemma {:induction false} SlotsOfAll(xs: seq<Reply>, k: Slot)
    ensures k in Slots(FiledAll(map[], xs)) <==> exists i :: 0 <= i < |xs| && SlotOf(xs[i]) == k
  {
    if xs != [] {
      var n := |xs| - 1;
      SlotsOfAll(xs[..n], k);
      SlotsFiled(FiledAll(map[], xs[..n]), xs[n]);
    }
  }

  function Upto(n: nat): (ks: set<nat>)
    ensures |ks| == n && forall k: nat :: k in ks <==> k < n
  {
    if n == 0 then {} else Upto(n - 1) + {n - 1}
  }

  function Places(c: Batch, from: Address, ks: set<nat>): set<Slot>
    requires c.peer >= 0
  {
    set k | k in ks :: PlaceOf(c, from, k)
  }

  lemma {:induction false} PlacesSize(c: Batch, from: Address, ks: set<nat>)
    requires c.peer >= 0
    ensures |Places(c, from, ks)| == |ks|
    decreases |ks|
  {
    if ks != {} {
      var k :| k in ks;
      PlacesSize(c, from, ks - {k});
      assert Places(c, from, ks) == Places(c, from, ks - {k}) + {PlaceOf(c, from, k)};
    }
  }

  /** The probes that were answered. */
  function Which(order: seq<nat>): set<nat> { set i | 0 <= i < |order| :: order[i] % 0x1_0000 }

  lemma SlotsOfNumbers(c: Batch, from: Address, order: seq<nat>, xs: seq<Reply>)
    requires c.peer >= 0 && Numbers(c, from, order, xs)
    ensures Slots(FiledAll(map[], xs)) == Places(c, from, Which(order))
  {
    forall k ensures k in Slots(FiledAll(map[], xs)) <==> k in Places(c, from, Which(order)) {
      SlotsOfAll(xs, k);
    }
  }

  ghost predicate AllBelow(order: seq<nat>, n: nat) { forall i :: 0 <= i < |order| ==> order[i] < n }

  lemma WhichBelow(order: seq<nat>, n: nat)
    requires AllBelow(order, n) && n <= 0x1_0000
    ensures Which(order) == set i | 0 <= i < |order| :: order[i]
  {
    assert forall i :: 0 <= i < |order| ==> order[i] % 0x1_0000 == order[i];
  }

  lemma WhichAll(order: seq<nat>, n: nat)
    requires AllBelow(order, n) && forall k: nat :: k < n ==> k in order
    ensures |Which(order)| == if n <= 0x1_0000 then n else 0x1_0000
  {
    var m: nat := if n <= 0x1_0000 then n else 0x1_0000;
    forall k: nat ensures k in Which(order) <==> k < m {
      if k < m {
        assert k in order;
        var i :| 0 <= i < |order| && order[i] == k;
        assert order[i] % 0x1_0000 == k;
      }
      if k in Which(order) {
        var i :| 0 <= i < |order| && order[i] % 0x1_0000 == k;
        assert order[i] < n;
      }
    }
    assert Which(order) == Upto(m);
  }

  lemma AnsweredSlots(o: Order, c: Batch, ts: seq<Moment>, sent: seq<seq<Byte>>, from: Address, order: seq<nat>,
                      ws: seq<Return>, xs: seq<Reply>)
    requires ValidBatch(c, 131074) && Moments(c, ts) && c.peer >= 0 && AreProbes(o, c, ts, sent)
    requires Answered(o, c, sent, from, order, ws, xs)
    ensures Slots(FiledAll(map[], xs)) == Places(c, from, Which(order)) && AllBelow(order, c.pingReq)
  {
    AnswersNumber(o, c, ts, sent, from, order, ws, xs);
    SlotsOfNumbers(c, from, order, xs);
  }

  /** Of a batch of at most 65536 probes to one host, the answered ones take one slot each,
      however often and in whatever order they are answered: what is missing is lost. */
  lemma OneSlotEach(o: Order, c: Batch, ts: seq<Moment>, sent: seq<seq<Byte>>, from: Address, order: seq<nat>,
                    ws: seq<Return>, xs: seq<Reply>)
    requires ValidBatch(c, 131074) && Moments(c, ts) && c.peer >= 0 && AreProbes(o, c, ts, sent)
    requires Answered(o, c, sent, from, order, ws, xs) && c.pingReq <= 0x1_0000
    ensures var answered := set i | 0 <= i < |order| :: order[i];
            && Slots(FiledAll(map[], xs)) == Places(c, from, answered)
            && |Slots(FiledAll(map[], xs))| == |answered|
  {
    AnsweredSlots(o, c, ts, sent, from, order, ws, xs);
    PlacesSize(c, from, Which(order));
    WhichBelow(order, c.pingReq);
  }

  /** A batch all of whose probes are answered fills as many slots as it has probes, and
      65536 if it has more. */
  lemma AllSlots(o: Order, c: Batch, ts: seq<Moment>, sent: seq<seq<Byte>>, from: Address, order: seq<nat>,
                 ws: seq<Return>, xs: seq<Reply>)
    requires ValidBatch(c, 131074) && Moments(c, ts) && c.peer >= 0 && AreProbes(o, c, ts, sent)
    requires Answered(o, c, sent, from, order, ws, xs)
    requires forall k: nat :: k < c.pingReq ==> k in order
    ensures |Slots(FiledAll(map[], xs))| == if c.pingReq <= 0x1_0000 then c.pingReq else 0x1_0000
  {
    AnsweredSlots(o, c, ts, sent, from, order, ws, xs);
    PlacesSize(c, from, Which(order));
    WhichAll(order, c.pingReq);
  }
}
