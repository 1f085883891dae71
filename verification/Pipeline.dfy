/**
 Probes that come back: a sealed probe passes its checksum, decodes to what was asked,
 and lands in the table once.
 */
module Pipeline {
  import opened Tables
  import opened Octets
  import opened Checksum
  import opened Dotted
  import opened Wire
  import opened Filing

  lemma SealedChecks(o: Order, m: seq<Byte>)
    requires 52 <= |m| <= 131074 && m[..4] == [8, 0, 0, 0]
    ensures Rfc1071(o, Sealed(o, m)) == 0
  {
    assert m[2] == m[..4][2] && m[3] == m[..4][3];
    PacketVerifies(o, m, 1);
  }

  /** Whatever a probe asks, the packet sent for it checks to 0 at the receiver. */
  lemma SealedVerifies(o: Order, pid: nat, q: Request, pad: seq<Byte>)
    requires Representable(q) && pid < 0x1_0000 && 52 + |pad| <= 131074
    ensures Rfc1071(o, Sealed(o, Message(o, pid, q, pad))) == 0
  {
    MessageShape(o, pid, q, pad);
    SealedChecks(o, Message(o, pid, q, pad));
  }

  // ----- the way back -----

  /** A reply as it lands in the receive buffer: IP header, echoed message with the
      responder's own checksum, and bytes left from earlier packets. */
  datatype Echo = Echo(q: Request, pad: seq<Byte>, from: Address, ip: seq<Byte>, cksum: seq<Byte>,
                       stale: seq<Byte>, at: Timeval)

  predicate IpHeader(ip: seq<Byte>, from: Address) {
    20 <= |ip| <= 60 && |ip| == 4 * (ip[0] % 16) && ip[9] == 1 && ip[12..16] == from
  }

  predicate ValidEcho(x: Echo) {
    && Representable(x.q) && x.q.peer >= 0 && IpHeader(x.ip, x.from)
    && |x.cksum| == 2 && |x.ip| + 52 + |x.pad| + |x.stale| >= 112
  }

  /** The message with type 0 and another checksum. */
  function Echoed(m: seq<Byte>, cksum: seq<Byte>): seq<Byte>
    requires |m| >= 4
  {
    [0] + m[1..2] + cksum + m[4..]
  }

  function Landed(ip: seq<Byte>, m: seq<Byte>, cksum: seq<Byte>, stale: seq<Byte>): seq<Byte>
    requires |m| >= 4
  {
    ip + Echoed(m, cksum) + stale
  }

  function BufferOf(o: Order, pid: nat, x: Echo): (buf: seq<Byte>)
    requires ValidEcho(x) && pid < 0x1_0000
    ensures |buf| >= 112
  {
    MessageShape(o, pid, x.q, x.pad);
    Landed(x.ip, Sealed(o, Message(o, pid, x.q, x.pad)), x.cksum, x.stale)
  }

  /** The milliseconds between sending and receiving. */
  function Elapsed(x: Echo): real { (Micros(x.at) - Micros(x.q.sentAt)) as real / 1000.0 }

  /** The reply that was asked for. */
  function Asked(x: Echo): Reply
    requires x.q.peer >= 0
  {
    Reply(Text(x.from), x.q.probe, x.q.peer, x.q.sequence % 0x1_0000, Elapsed(x), x.q.stamp)
  }

  function AsReply(d: Decoded): Reply
    requires d.peer >= 0
  {
    Reply(d.src, d.probe, d.peer, d.sequence, d.rtt, d.timestamp)
  }

  /** What the receiver should read in the echo. */
  function Answer(x: Echo): Decoded {
    Decoded(Text(x.from), x.q.probe, x.q.peer, x.q.sequence % 0x1_0000, Elapsed(x), x.q.stamp)
  }

  /** Behind an IP header, `buf` has the four fields of a reply. */
  predicate Carries(buf: seq<Byte>, ip: seq<Byte>, id: seq<Byte>, number: seq<Byte>, payload: seq<Byte>) {
    && |ip| >= 20 && |buf| >= |ip| + 52 && buf[0] == ip[0] && buf[9] == ip[9] && buf[12..16] == ip[12..16]
    && var icmp := buf[|ip|..|ip| + 52];
       icmp[0] == 0 && icmp[4..6] == id && icmp[6..8] == number && icmp[8..52] == payload
  }

  lemma LandedCarries(m: seq<Byte>, w: seq<Byte>, cksum: seq<Byte>, ip: seq<Byte>, stale: seq<Byte>)
    requires |m| >= 52 && |w| == |m| && w[4..] == m[4..] && |cksum| == 2 && |ip| >= 20
    ensures Carries(Landed(ip, w, cksum, stale), ip, m[4..6], m[6..8], m[8..52])
  {
    var e := Echoed(w, cksum);
    var buf := ip + e + stale;
    var icmp := buf[|ip|..|ip| + 52];
    assert icmp == e[..52];
    assert forall i :: 4 <= i < 52 ==> e[i] == w[4..][i - 4] == m[4..][i - 4] == m[i];
  }

  lemma SealedRest(o: Order, m: seq<Byte>)
    requires |m| >= 52
    ensures |Sealed(o, m)| == |m| && Sealed(o, m)[4..] == m[4..]
  {
  }

  /** The ICMP message in the buffer has the fields that were sent. */
  lemma OwnFields(o: Order, pid: nat, x: Echo)
    requires ValidEcho(x) && pid < 0x1_0000
    ensures Carries(BufferOf(o, pid, x), x.ip, Bytes(o, 2, pid), Bytes(o, 2, x.q.sequence % 0x1_0000), Payload(o, x.q))
  {
    var m := Message(o, pid, x.q, x.pad);
    MessageShape(o, pid, x.q, x.pad);
    SealedRest(o, m);
    LandedCarries(m, Sealed(o, m), x.cksum, x.ip, x.stale);
  }

  lemma OwnAccepted(o: Order, pid: nat, icmp: seq<Byte>, icmplen: int)
    requires |icmp| == 52 && icmplen >= 52 && pid < 0x1_0000
    requires icmp[0] == 0 && icmp[4..6] == Bytes(o, 2, pid)
    ensures Accepts(o, pid, 1, icmp, icmplen)
  {
    ShortField(o, pid);
  }

  lemma AnswerIs(x: Echo)
    ensures Measured(Text(x.from), x.q.(sequence := 0), x.q.sequence % 0x1_0000, x.at) == Answer(x)
  {
    TvSubElapsed(x.at, x.q.sentAt);
  }

  lemma OwnReply(o: Order, x: Echo, icmp: seq<Byte>)
    requires |icmp| == 52 && Representable(x.q)
    requires icmp[6..8] == Bytes(o, 2, x.q.sequence % 0x1_0000) && icmp[8..52] == Payload(o, x.q)
    ensures DecodedReply(o, x.from, icmp, x.at) == Answer(x)
  {
    ShortField(o, x.q.sequence % 0x1_0000);
    ReadInvertsPayload(o, x.q);
    AnswerIs(x);
  }

  /** Behind the IP header, `buf` has the message `icmp`, a reply to this process. */
  predicate Delivers(o: Order, pid: nat, buf: seq<Byte>, ip: seq<Byte>, icmp: seq<Byte>) {
    && |ip| >= 20 && |buf| >= |ip| + 52 && buf[0] == ip[0] && buf[9] == ip[9] && buf[12..16] == ip[12..16]
    && icmp == buf[|ip|..|ip| + 52] && icmp[0] == 0 && icmp[4..6] == Bytes(o, 2, pid)
  }

  lemma Delivered(o: Order, pid: nat, buf: seq<Byte>, ip: seq<Byte>, from: Address, icmp: seq<Byte>, len: int,
                  at: Timeval)
    requires IpHeader(ip, from) && |buf| >= 112 && pid < 0x1_0000 && len >= |ip| + 52
    requires Delivers(o, pid, buf, ip, icmp)
    ensures Decode(o, pid, buf, len, at) == Some(DecodedReply(o, from, icmp, at))
  {
    OwnAccepted(o, pid, icmp, len - |ip|);
    DecodeIs(o, pid, buf, |ip|, icmp, len, at);
  }

  /** The message carries the number and the payload of the probe. */
  predicate CarriesProbe(o: Order, x: Echo, icmp: seq<Byte>) {
    |icmp| == 52 && icmp[6..8] == Bytes(o, 2, x.q.sequence % 0x1_0000) && icmp[8..52] == Payload(o, x.q)
  }

  lemma OwnFieldsAt(o: Order, pid: nat, x: Echo) returns (icmp: seq<Byte>)
    requires ValidEcho(x) && pid < 0x1_0000
    ensures CarriesProbe(o, x, icmp) && Delivers(o, pid, BufferOf(o, pid, x), x.ip, icmp)
  {
    OwnFields(o, pid, x);
    icmp := Behind(BufferOf(o, pid, x), x.ip, Bytes(o, 2, pid), Bytes(o, 2, x.q.sequence % 0x1_0000), Payload(o, x.q));
  }

  lemma Behind(buf: seq<Byte>, ip: seq<Byte>, id: seq<Byte>, number: seq<Byte>, payload: seq<Byte>)
    returns (icmp: seq<Byte>)
    requires Carries(buf, ip, id, number, payload)
    ensures |icmp| == 52 && icmp == buf[|ip|..|ip| + 52] && icmp[0] == 0 && icmp[4..6] == id
    ensures icmp[6..8] == number && icmp[8..52] == payload
  {
    icmp := buf[|ip|..|ip| + 52];
  }

  lemma ProbeAnswer(o: Order, x: Echo, icmp: seq<Byte>)
    requires Representable(x.q) && CarriesProbe(o, x, icmp)
    ensures DecodedReply(o, x.from, icmp, x.at) == Answer(x)
  {
    OwnReply(o, x, icmp);
  }

  /** A probe that comes back decodes to the address it went to and to the peer, the
      round, the sequence number and the time it was sent with. */
  lemma OwnEchoDecodes(o: Order, pid: nat, x: Echo)
    requires ValidEcho(x) && pid < 0x1_0000
    ensures Decode(o, pid, BufferOf(o, pid, x), |x.ip| + 52 + |x.pad|, x.at) == Some(Answer(x))
  {
    var icmp := OwnFieldsAt(o, pid, x);
    Delivered(o, pid, BufferOf(o, pid, x), x.ip, x.from, icmp, |x.ip| + 52 + |x.pad|, x.at);
    ProbeAnswer(o, x, icmp);
  }

  // ----- a run of arrivals -----

  /** One pass of the receiver: a probe of ours that came back, or any other packet,
      `proc_v4` may turn it down or take it for one of ours. */
  datatype Arrival = Ours(x: Echo) | Other(buf: seq<Byte>, len: int, at: Timeval)

  predicate ValidArrival(o: Order, pid: nat, a: Arrival) {
    match a
    case Ours(x) => ValidEcho(x)
    case Other(buf, _, _) => |buf| >= 112
  }

  ghost predicate ValidRun(o: Order, pid: nat, xs: seq<Arrival>) {
    pid < 0x1_0000 && forall i :: 0 <= i < |xs| ==> ValidArrival(o, pid, xs[i])
  }

  function DecodeArrival(o: Order, pid: nat, a: Arrival): Option<Decoded>
    requires ValidArrival(o, pid, a) && pid < 0x1_0000
  {
    match a
    case Ours(x) => Decode(o, pid, BufferOf(o, pid, x), |x.ip| + 52 + |x.pad|, x.at)
    case Other(buf, len, at) => Decode(o, pid, buf, len, at)
  }

  /** The reply `proc_v4` makes of an arrival, if any. */
  function ReplyTo(o: Order, pid: nat, a: Arrival): Option<Reply>
    requires ValidArrival(o, pid, a) && pid < 0x1_0000
  {
    var d := DecodeArrival(o, pid, a);
    if d.Some? && d.value.peer >= 0 then Some(AsReply(d.value)) else None
  }

  function Append(xs: seq<Reply>, x: Option<Reply>): seq<Reply> {
    if x.Some? then xs + [x.value] else xs
  }

  /** The replies the receiver makes of a run of packets. */
  ghost function Replies(o: Order, pid: nat, xs: seq<Arrival>): seq<Reply>
    requires ValidRun(o, pid, xs)
  {
    if xs == [] then [] else Append(Replies(o, pid, xs[..|xs| - 1]), ReplyTo(o, pid, xs[|xs| - 1]))
  }

  /** The table after the receiver has seen them. */
  ghost function Heard(o: Order, pid: nat, r: RTable, xs: seq<Arrival>): RTable
    requires ValidRun(o, pid, xs)
  {
    FiledAll(r, Replies(o, pid, xs))
  }

  /** What an arrival should be taken for: our own probe for what was asked, any other
      packet for what it says. */
  function Meant(o: Order, pid: nat, a: Arrival): Option<Reply>
    requires ValidArrival(o, pid, a) && pid < 0x1_0000
  {
    if a.Ours? then Some(Asked(a.x)) else ReplyTo(o, pid, a)
  }

  ghost function AllMeant(o: Order, pid: nat, xs: seq<Arrival>): (ms: seq<Option<Reply>>)
    requires ValidRun(o, pid, xs)
    ensures |ms| == |xs|
  {
    seq(|xs|, i requires 0 <= i < |xs| => Meant(o, pid, xs[i]))
  }

  /** The replies among them, in arrival order. */
  function Present(ms: seq<Option<Reply>>): seq<Reply> {
    if ms == [] then [] else Append(Present(ms[..|ms| - 1]), ms[|ms| - 1])
  }

  lemma OneReply(o: Order, pid: nat, a: Arrival)
    requires ValidArrival(o, pid, a) && pid < 0x1_0000
    ensures ReplyTo(o, pid, a) == Meant(o, pid, a)
  {
    if a.Ours? {
      OwnEchoDecodes(o, pid, a.x);
    }
  }

  /** Encoding, echoing and decoding a run gives what was asked, in arrival order. */
  lemma {:induction false} RepliesAreMeant(o: Order, pid: nat, xs: seq<Arrival>)
    requires ValidRun(o, pid, xs)
    ensures Replies(o, pid, xs) == Present(AllMeant(o, pid, xs))
  {
    if xs != [] {
      var n := |xs| - 1;
      RepliesAreMeant(o, pid, xs[..n]);
      OneReply(o, pid, xs[n]);
      assert AllMeant(o, pid, xs)[..n] == AllMeant(o, pid, xs[..n]);
    }
  }

  predicate IsFor(m: Option<Reply>, k: Slot) {
    m.Some? && SlotOf(m.value) == k
  }

  ghost predicate NoneFor(ms: seq<Option<Reply>>, k: Slot) {
    forall i :: 0 <= i < |ms| ==> !IsFor(ms[i], k)
  }

  /** `i` is the first of the run for slot `k`. */
  ghost predicate FirstArrival(ms: seq<Option<Reply>>, k: Slot, i: nat) {
    i < |ms| && IsFor(ms[i], k) && NoneFor(ms[..i], k)
  }

  ghost predicate NoneHas(rs: seq<Reply>, k: Slot) {
    forall i :: 0 <= i < |rs| ==> SlotOf(rs[i]) != k
  }

  lemma NoneHasAppend(rs: seq<Reply>, m: Option<Reply>, k: Slot)
    ensures NoneHas(Append(rs, m), k) <==> NoneHas(rs, k) && !IsFor(m, k)
  {
    var all := Append(rs, m);
    assert forall i :: 0 <= i < |rs| ==> all[i] == rs[i];
    if m.Some? {
      assert all[|rs|] == m.value;
    }
  }

  lemma {:induction false} NonePresent(ms: seq<Option<Reply>>, k: Slot)
    ensures NoneFor(ms, k) <==> NoneHas(Present(ms), k)
  {
    if ms != [] {
      var front, m := ms[..|ms| - 1], ms[|ms| - 1];
      NonePresent(front, k);
      assert forall i :: 0 <= i < |front| ==> ms[i] == front[i];
      NoneHasAppend(Present(front), m, k);
    }
  }

  lemma {:induction false} FirstIsFirst(ms: seq<Option<Reply>>, k: Slot, i: nat) returns (j: nat)
    requires FirstArrival(ms, k, i)
    ensures FirstFor(Present(ms), k, j) && Present(ms)[j] == ms[i].value
  {
    var front := ms[..|ms| - 1];
    if i < |front| {
      assert front[..i] == ms[..i];
      j := FirstIsFirst(front, k, i);
      assert Present(front) <= Present(ms);
    } else {
      NonePresent(front, k);
      j := |Present(front)|;
    }
  }

  /** For every run of arrivals, with duplicates, reordering and foreign packets, from a
      table without a record in slot `k`: the slot stays free exactly when no arrival is
      for it, and otherwise holds the first that is, with its round trip time if it is a
      probe of ours. */
  lemma PipelineFirstWins(o: Order, pid: nat, r: RTable, xs: seq<Arrival>, k: Slot)
    requires ValidRun(o, pid, xs) && Lookup(r, k) == None
    ensures Lookup(Heard(o, pid, r, xs), k) == None <==> NoneFor(AllMeant(o, pid, xs), k)
    ensures forall i: nat :: FirstArrival(AllMeant(o, pid, xs), k, i) ==>
              Lookup(Heard(o, pid, r, xs), k) ==
              Some(if xs[i].Ours? then Tparm(Elapsed(xs[i].x), 0.0, 0, xs[i].x.q.stamp, 0.0, 0.0, 0.0, 0.0)
                   else RecordOf(ReplyTo(o, pid, xs[i]).value))
  {
    var ms := AllMeant(o, pid, xs);
    RepliesAreMeant(o, pid, xs);
    NonePresent(ms, k);
    FirstReplyWins(r, Present(ms), k);
    forall i: nat | FirstArrival(ms, k, i)
      ensures Lookup(Heard(o, pid, r, xs), k) == Some(RecordOf(ms[i].value))
    {
      var j := FirstIsFirst(ms, k, i);
    }
  }

  /** Replies of different hosts never share a slot. */
  lemma HostsDoNotMix(x: Echo, y: Echo)
    requires x.q.peer >= 0 && y.q.peer >= 0
    ensures SlotOf(Asked(x)) == SlotOf(Asked(y)) <==>
            && x.from == y.from && x.q.probe == y.q.probe && x.q.peer == y.q.peer
            && x.q.sequence % 0x1_0000 == y.q.sequence % 0x1_0000
  {
    TextIsRead(x.from);
    TextIsRead(y.from);
  }
}
