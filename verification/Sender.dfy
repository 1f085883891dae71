/**
 The sending loops of `send_v4`: one send buffer, refilled for every destination and
 every sequence number.
 */
module Sender {
  import opened Octets
  import opened Checksum
  import opened Wire

  /** Size of the part of the payload record that no field occupies. */
  const PADDING: nat := 20

  /** What the sender reads from its surroundings for one probe: two clocks, and what
      fresh memory happens to hold in the padding. */
  datatype Moment = Moment(at: Timeval, now: nat, junk: seq<Byte>)

  function Fill(n: nat): seq<Byte> { seq(n, _ => 0xa5) }

  /** What follows the six fields: the fill pattern, or fresh memory when no load is asked for. */
  function Pad(maxLoad: nat, t: Moment): seq<Byte> {
    if maxLoad > 0 then Fill(PADDING + maxLoad) else t.junk
  }

  function Spliced(s: seq<Byte>, at: nat, bytes: seq<Byte>): seq<Byte>
    requires at + |bytes| <= |s|
  {
    s[..at] + bytes + s[at + |bytes|..]
  }

  /** `memcpy` into the send buffer. */
  method Put(buf: array<Byte>, at: nat, bytes: seq<Byte>)
    requires at + |bytes| <= buf.Length
    modifies buf
    ensures buf[..] == Spliced(old(buf[..]), at, bytes)
  {
    for i := 0 to |bytes|
      invariant forall j :: 0 <= j < i ==> buf[at + j] == bytes[j]
      invariant forall j :: 0 <= j < buf.Length && !(at <= j < at + i) ==> buf[j] == old(buf[j])
    {
      buf[at + i] := bytes[i];
    }
  }

  lemma TwoBytes(o: Order, v: int)
    requires 0 <= v <= 0xFFFF
    ensures Bytes(o, 2, v) == if o.Little? then [v % 256, v / 256] else [v / 256, v % 256]
  {
    assert LittleBytes(0, v / 256 / 256) == [];
    assert LittleBytes(1, v / 256) == [v / 256];
    assert LittleBytes(2, v) == [v % 256, v / 256];
  }

  lemma StoredIsStoreWord(o: Order, m: seq<Byte>, v: int)
    requires |m| >= 4 && 0 <= v <= 0xFFFF
    ensures |Bytes(o, 2, v)| == 2
    ensures m[..2] + Bytes(o, 2, v) + m[4..] == StoreWord(o, m, 1, v)
  {
    TwoBytes(o, v);
  }

  predicate HasHeader(buf: seq<Byte>, id: seq<Byte>) {
    |buf| >= 8 && |id| == 2 && buf[0] == 8 && buf[1] == 0 && buf[4..6] == id
  }

  /** The fields written for one probe, over whatever the previous probe left. */
  lemma Refilled(b: seq<Byte>, id: seq<Byte>, number: seq<Byte>, body: seq<Byte>)
    requires HasHeader(b, id) && |number| == 2 && 8 + |body| <= |b|
    ensures var b' := Spliced(Spliced(Spliced(b, 6, number), 8, body), 2, [0, 0]);
            && |b'| == |b|
            && b'[..8 + |body|] == [8, 0, 0, 0] + id + number + body
            && b'[8 + |body|..] == b[8 + |body|..]
  {
    var n := 8 + |body|;
    var b1 := Spliced(b, 6, number);
    var b2 := Spliced(b1, 8, body);
    Numbered(b, id, number);
    Copied(b1, body);
    assert b2[..6] == b2[..8][..6] && b2[6..8] == b2[..8][6..8];
    Zeroed(b2, n, id, number, body);
  }

  lemma Numbered(b: seq<Byte>, id: seq<Byte>, number: seq<Byte>)
    requires HasHeader(b, id) && |number| == 2
    ensures var b' := Spliced(b, 6, number);
      |b'| == |b| && b'[..2] == [8, 0] && b'[4..6] == id && b'[6..8] == number && b'[8..] == b[8..]
  {
  }

  lemma Copied(b: seq<Byte>, body: seq<Byte>)
    requires 8 + |body| <= |b|
    ensures var b', n := Spliced(b, 8, body), 8 + |body|;
      |b'| == |b| && b'[..8] == b[..8] && b'[8..n] == body && b'[n..] == b[n..]
  {
  }

  lemma Zeroed(b: seq<Byte>, n: nat, id: seq<Byte>, number: seq<Byte>, body: seq<Byte>)
    requires n == 8 + |body| <= |b| && |id| == |number| == 2
    requires b[..2] == [8, 0] && b[4..6] == id && b[6..8] == number && b[8..n] == body
    ensures var b' := Spliced(b, 2, [0, 0]);
      |b'| == |b| && b'[..n] == [8, 0, 0, 0] + id + number + body && b'[n..] == b[n..]
  {
    var b' := Spliced(b, 2, [0, 0]);
    assert b'[..n] == b[..2] + [0, 0] + b[4..6] + b[6..8] + b[8..n];
  }

  lemma Stamped(b: seq<Byte>, len: nat, id: seq<Byte>, word: seq<Byte>)
    requires 8 <= len <= |b| && HasHeader(b, id) && |word| == 2
    ensures var b' := Spliced(b, 2, word);
            && b'[..len] == b[..len][..2] + word + b[..len][4..]
            && b'[len..] == b[len..] && HasHeader(b', id)
  {
  }

  /** One probe, in the buffer whose type, code and identifier were already set. */
  method BuildEcho(o: Order, buf: array<Byte>, pid: nat, q: Request, pad: seq<Byte>)
    requires Representable(q)
    requires 52 + |pad| <= buf.Length && 52 + |pad| <= 131074
    requires HasHeader(buf[..], Bytes(o, 2, pid))
    modifies buf
    ensures buf[..52 + |pad|] == Sealed(o, Message(o, pid, q, pad))
    ensures buf[52 + |pad|..] == old(buf[52 + |pad|..])
    ensures HasHeader(buf[..], Bytes(o, 2, pid))
  {
    var len := 52 + |pad|;
    var id, number, body := Bytes(o, 2, pid), Bytes(o, 2, q.sequence % 0x1_0000), Payload(o, q) + pad;
    ShortField(o, q.sequence % 0x1_0000);
    ReadInvertsPayload(o, q);
    Refilled(buf[..], id, number, body);
    Put(buf, 6, number);
    Put(buf, 8, body);
    Put(buf, 2, [0, 0]);
    ghost var m := Message(o, pid, q, pad);
    MessageIs(o, pid, q, pad);
    assert buf[..len] == buf[..][..len];
    assert HasHeader(buf[..], id) by {
      HeaderOf(buf[..], id, number, body);
    }
    var answer := InCksum(o, buf, len);
    StoredIsStoreWord(o, m, answer);
    Stamped(buf[..], len, id, Bytes(o, 2, answer));
    Put(buf, 2, Bytes(o, 2, answer));
    assert buf[..len] == buf[..][..len];
  }

  lemma MessageIs(o: Order, pid: nat, q: Request, pad: seq<Byte>)
    ensures Message(o, pid, q, pad)
         == [8, 0, 0, 0] + Bytes(o, 2, pid) + Bytes(o, 2, q.sequence % 0x1_0000) + (Payload(o, q) + pad)
  {
  }

  lemma HeaderOf(b: seq<Byte>, id: seq<Byte>, number: seq<Byte>, body: seq<Byte>)
    requires |id| == |number| == 2 && 8 + |body| <= |b|
    requires b[..8 + |body|] == [8, 0, 0, 0] + id + number + body
    ensures HasHeader(b, id)
  {
    var m := b[..8 + |body|];
    assert b[0] == m[0] && b[1] == m[1] && b[4..6] == m[4..6];
  }

  // ----- the loops -----

  datatype Batch = Batch(pid: nat, peer: int, probe: int, thread: nat, pingReq: nat, maxLoad: nat)

  predicate ValidBatch(c: Batch, size: nat) {
    && c.pid < 0x1_0000 && IsInt32(c.peer) && IsInt32(c.probe) && c.thread < TWO64
    && 8 + 44 + PADDING + c.maxLoad <= size <= 131074
  }

  predicate ValidMoment(t: Moment) {
    IsInt64(t.at.sec) && IsInt64(t.at.usec) && t.now < TWO64 && |t.junk| == PADDING
  }

  function RequestOf(c: Batch, sequence: nat, t: Moment): Request {
    Request(c.peer, c.probe, c.thread, sequence, t.at, t.now)
  }

  /** The packet with sequence number `sequence` of a batch. */
  function Packet(o: Order, c: Batch, sequence: nat, t: Moment): seq<Byte>
    requires ValidMoment(t) && ValidBatch(c, 131074)
  {
    ReadInvertsPayload(o, RequestOf(c, sequence, t));
    Sealed(o, Message(o, c.pid, RequestOf(c, sequence, t), Pad(c.maxLoad, t)))
  }

  /** The bytes of probe `sequence` of a batch, sent at `t`: an echo request with the
      program's identifier and the number, the six fields, the fill pattern or fresh memory
      behind them, and the checksum of all that with its own field 0. */
  predicate IsPacket(o: Order, c: Batch, sequence: nat, t: Moment, p: seq<Byte>)
    requires ValidMoment(t)
  {
    && |p| == 8 + 44 + PADDING + c.maxLoad && p[0] == 8 && p[1] == 0
    && p[2..4] == Bytes(o, 2, Rfc1071(o, [8, 0, 0, 0] + p[4..]))
    && p[4..6] == Bytes(o, 2, c.pid) && p[6..8] == Bytes(o, 2, sequence % 0x1_0000)
    && IsPayload(o, Request(c.peer, c.probe, c.thread, sequence, t.at, t.now), p[8..52])
    && (if c.maxLoad == 0 then p[52..] == t.junk else forall i :: 52 <= i < |p| ==> p[i] == 0xa5)
  }

  lemma SealedIs(o: Order, m: seq<Byte>)
    requires |m| >= 52 && m[..4] == [8, 0, 0, 0]
    ensures var p := Sealed(o, m);
            && |p| == |m| && p[0] == 8 && p[1] == 0 && p[2..4] == Bytes(o, 2, Rfc1071(o, m))
            && p[4..] == m[4..] && m == [8, 0, 0, 0] + p[4..]
  {
    assert m[0] == m[..4][0] && m[1] == m[..4][1];
    StoredIsStoreWord(o, m, Rfc1071(o, m));
  }

  lemma SameRest(p: seq<Byte>, m: seq<Byte>)
    requires |p| == |m| >= 52
    ensures p[4..] == m[4..] <==> p[4..6] == m[4..6] && p[6..8] == m[6..8] && p[8..52] == m[8..52] && p[52..] == m[52..]
  {
    assert p[4..] == p[4..6] + p[6..8] + p[8..52] + p[52..];
    assert m[4..] == m[4..6] + m[6..8] + m[8..52] + m[52..];
    assert p[4..6] == p[4..][..2] && p[6..8] == p[4..][2..4] && p[8..52] == p[4..][4..48] && p[52..] == p[4..][48..];
    assert m[4..6] == m[4..][..2] && m[6..8] == m[4..][2..4] && m[8..52] == m[4..][4..48] && m[52..] == m[4..][48..];
  }

  lemma SameFields(p: seq<Byte>, p': seq<Byte>)
    requires |p| == |p'| == 44
    requires p[0..8] == p'[0..8] && p[8..16] == p'[8..16] && p[16..20] == p'[16..20]
    requires p[20..28] == p'[20..28] && p[28..36] == p'[28..36] && p[36..44] == p'[36..44]
    ensures p == p'
  {
    assert p == p[0..8] + p[8..16] + p[16..20] + p[20..28] + p[28..36] + p[36..44];
    assert p' == p'[0..8] + p'[8..16] + p'[16..20] + p'[20..28] + p'[28..36] + p'[36..44];
  }

  lemma SamePayload(o: Order, q: Request, p: seq<Byte>, p': seq<Byte>)
    requires IsPayload(o, q, p') && |p| == 44
    ensures IsPayload(o, q, p) <==> p == p'
  {
    if IsPayload(o, q, p) {
      SameFields(p, p');
    }
  }

  lemma SamePad(c: Batch, t: Moment, p: seq<Byte>)
    requires |t.junk| == PADDING && |p| == 8 + 44 + PADDING + c.maxLoad
    ensures p[52..] == Pad(c.maxLoad, t) <==>
            if c.maxLoad == 0 then p[52..] == t.junk else forall i :: 52 <= i < |p| ==> p[i] == 0xa5
  {
    if p[52..] == Pad(c.maxLoad, t) {
      assert forall i :: 52 <= i < |p| ==> p[i] == p[52..][i - 52];
    }
  }

  /** The message a packet is the sealed form of. */
  lemma PacketMessage(o: Order, c: Batch, sequence: nat, t: Moment) returns (m: seq<Byte>)
    requires ValidMoment(t) && ValidBatch(c, 131074)
    ensures |m| == 8 + 44 + PADDING + c.maxLoad && Packet(o, c, sequence, t) == Sealed(o, m)
    ensures m[..4] == [8, 0, 0, 0] && m[4..6] == Bytes(o, 2, c.pid)
    ensures m[6..8] == Bytes(o, 2, sequence % 0x1_0000)
    ensures IsPayload(o, Request(c.peer, c.probe, c.thread, sequence, t.at, t.now), m[8..52])
    ensures m[52..] == Pad(c.maxLoad, t)
  {
    var q, pad := RequestOf(c, sequence, t), Pad(c.maxLoad, t);
    m := Message(o, c.pid, q, pad);
    MessageShape(o, c.pid, q, pad);
    PayloadLayout(o, q);
  }

  /** The sealed message has exactly these bytes. */
  lemma PacketIff(o: Order, c: Batch, sequence: nat, t: Moment, p: seq<Byte>)
    requires ValidMoment(t) && ValidBatch(c, 131074)
    ensures p == Packet(o, c, sequence, t) <==> IsPacket(o, c, sequence, t, p)
  {
    var m := PacketMessage(o, c, sequence, t);
    BytesIff(o, c, sequence, t, m, Sealed(o, m), p);
  }

  lemma BytesIff(o: Order, c: Batch, sequence: nat, t: Moment, m: seq<Byte>, sealed: seq<Byte>, p: seq<Byte>)
    requires ValidMoment(t) && |m| == 8 + 44 + PADDING + c.maxLoad && sealed == Sealed(o, m)
    requires m[..4] == [8, 0, 0, 0] && m[4..6] == Bytes(o, 2, c.pid)
    requires m[6..8] == Bytes(o, 2, sequence % 0x1_0000)
    requires IsPayload(o, Request(c.peer, c.probe, c.thread, sequence, t.at, t.now), m[8..52])
    requires m[52..] == Pad(c.maxLoad, t)
    ensures p == sealed <==> IsPacket(o, c, sequence, t, p)
  {
    SealedIs(o, m);
    if |p| == |m| {
      SealedIff(o, Request(c.peer, c.probe, c.thread, sequence, t.at, t.now), Pad(c.maxLoad, t), m, p);
      SamePad(c, t, p);
    }
  }

  lemma SealedIff(o: Order, q: Request, pad: seq<Byte>, m: seq<Byte>, p: seq<Byte>)
    requires |p| == |m| >= 52 && m[..4] == [8, 0, 0, 0] && IsPayload(o, q, m[8..52]) && m[52..] == pad
    ensures p == Sealed(o, m) <==>
            && p[0] == 8 && p[1] == 0 && p[2..4] == Bytes(o, 2, Rfc1071(o, [8, 0, 0, 0] + p[4..]))
            && p[4..6] == m[4..6] && p[6..8] == m[6..8] && IsPayload(o, q, p[8..52]) && p[52..] == pad
  {
    SealedIs(o, m);
    SameRest(p, m);
    SamePayload(o, q, p[8..52], m[8..52]);
    SameBytes(p, Sealed(o, m));
  }

  lemma SameBytes(p: seq<Byte>, p': seq<Byte>)
    requires |p| == |p'| >= 4
    ensures p == p' <==> p[0] == p'[0] && p[1] == p'[1] && p[2..4] == p'[2..4] && p[4..] == p'[4..]
  {
    assert p == [p[0], p[1]] + p[2..4] + p[4..];
    assert p' == [p'[0], p'[1]] + p'[2..4] + p'[4..];
  }

  ghost predicate Moments(c: Batch, ts: seq<Moment>) {
    |ts| == c.pingReq && forall s :: 0 <= s < |ts| ==> ValidMoment(ts[s])
  }

  /** `sent` are the first probes of a batch, one for every number from 0 on, in order. */
  ghost predicate AreProbes(o: Order, c: Batch, ts: seq<Moment>, sent: seq<seq<Byte>>)
    requires Moments(c, ts)
  {
    |sent| <= |ts| && forall k :: 0 <= k < |sent| ==> IsPacket(o, c, k, ts[k], sent[k])
  }

  method SetHeader(o: Order, buf: array<Byte>, pid: nat)
    requires pid < 0x1_0000 && buf.Length >= 8
    modifies buf
    ensures HasHeader(buf[..], Bytes(o, 2, pid))
  {
    ShortField(o, pid);
    Put(buf, 0, [8]);
    Put(buf, 1, [0]);
    Put(buf, 4, Bytes(o, 2, pid));
  }

  method SendOne(o: Order, buf: array<Byte>, c: Batch, sequence: nat, t: Moment) returns (packet: seq<Byte>)
    requires ValidBatch(c, buf.Length) && ValidMoment(t) && HasHeader(buf[..], Bytes(o, 2, c.pid))
    modifies buf
    ensures HasHeader(buf[..], Bytes(o, 2, c.pid))
    ensures IsPacket(o, c, sequence, t, packet)
  {
    var q, pad := RequestOf(c, sequence, t), Pad(c.maxLoad, t);
    BuildEcho(o, buf, c.pid, q, pad);
    packet := buf[..8 + 44 + |pad|];
    PacketIff(o, c, sequence, t, packet);
  }

  /** All probes to one destination. */
  method SendTo(o: Order, buf: array<Byte>, c: Batch, ts: seq<Moment>) returns (sent: seq<seq<Byte>>)
    requires ValidBatch(c, buf.Length) && Moments(c, ts)
    modifies buf
    ensures |sent| == c.pingReq && AreProbes(o, c, ts, sent)
  {
    SetHeader(o, buf, c.pid);
    sent := [];
    for s := 0 to c.pingReq
      invariant HasHeader(buf[..], Bytes(o, 2, c.pid))
      invariant |sent| == s && AreProbes(o, c, ts, sent)
    {
      var packet := SendOne(o, buf, c, s, ts[s]);
      sent := sent + [packet];
    }
  }

  /** All probes of one sender thread: what went to each destination, in order. */
  method SendV4(o: Order, buf: array<Byte>, c: Batch, ts: seq<seq<Moment>>) returns (sent: seq<seq<seq<Byte>>>)
    requires ValidBatch(c, buf.Length)
    requires forall d :: 0 <= d < |ts| ==> Moments(c, ts[d])
    modifies buf
    ensures |sent| == |ts|
    ensures forall d :: 0 <= d < |ts| ==> |sent[d]| == c.pingReq && AreProbes(o, c, ts[d], sent[d])
  {
    sent := [];
    for d := 0 to |ts|
      invariant |sent| == d
      invariant forall i :: 0 <= i < d ==> |sent[i]| == c.pingReq && AreProbes(o, c, ts[i], sent[i])
    {
      var batch := SendTo(o, buf, c, ts[d]);
      sent := sent + [batch];
    }
  }
}
