/**
 From a probe in the sender's memory to a decoded reply: the payload `send_v4` builds
 and seals, and the decoding at the head of `proc_v4`.
 */
module Wire {
  import opened Tables
  import opened Octets
  import opened Checksum
  import opened Dotted
  import Filing

  const TWO32: int := 0x1_0000_0000
  const TWO64: int := 0x1_0000_0000_0000_0000

  lemma Limits()
    ensures Limit(2) == 0x1_0000 && Limit(4) == TWO32 && Limit(8) == TWO64
  {
    assert Limit(1) == 256;
    assert Limit(3) == 0x100_0000;
    assert Limit(5) == 0x100_0000_0000;
    assert Limit(6) == 0x1_0000_0000_0000;
    assert Limit(7) == 0x100_0000_0000_0000;
  }

  // ----- machine integers -----

  predicate IsInt32(n: int) { -0x8000_0000 <= n < 0x8000_0000 }

  predicate IsInt64(n: int) { -0x8000_0000_0000_0000 <= n < 0x8000_0000_0000_0000 }

  function Unsigned32(n: int): nat { n % TWO32 }

  function Unsigned64(n: int): nat { n % TWO64 }

  /** Conversion of an unsigned number to `int`: the low 32 bits, read as signed. */
  function ToInt32(n: nat): int {
    if n % TWO32 < 0x8000_0000 then n % TWO32 else n % TWO32 - TWO32
  }

  function ToInt64(n: nat): int {
    if n % TWO64 < 0x8000_0000_0000_0000 then n % TWO64 else n % TWO64 - TWO64
  }

  lemma SignedRoundTrips(n: int)
    ensures IsInt32(n) ==> ToInt32(Unsigned32(n)) == n && ToInt32(Unsigned64(n)) == n
    ensures IsInt64(n) ==> ToInt64(Unsigned64(n)) == n
  {
  }

  // ----- time -----

  datatype Timeval = Timeval(sec: int, usec: int)

  function Micros(t: Timeval): int { 1000000 * t.sec + t.usec }

  /** The wall clock value a reply was received at; `tv_sub` overwrites it. */
  class Clock {
    var sec: int
    var usec: int

    constructor (t: Timeval)
      ensures Now() == t
    {
      sec, usec := t.sec, t.usec;
    }

    function Now(): Timeval
      reads this
    {
      Timeval(sec, usec)
    }

    /** `tv_sub`: one borrow. */
    method Sub(sent: Timeval)
      modifies this
      ensures Now() == TvSub(old(Now()), sent)
    {
      usec := usec - sent.usec;
      if usec < 0 {
        sec := sec - 1;
        usec := usec + 1000000;
      }
      sec := sec - sent.sec;
    }
  }

  function TvSub(received: Timeval, sent: Timeval): Timeval {
    if received.usec < sent.usec
    then Timeval(received.sec - 1 - sent.sec, received.usec - sent.usec + 1000000)
    else Timeval(received.sec - sent.sec, received.usec - sent.usec)
  }

  function Millis(t: Timeval): real { t.sec as real * 1000.0 + t.usec as real / 1000.0 }

  /** The subtraction gives the elapsed microseconds, and a normal value for normal ones. */
  lemma TvSubElapsed(received: Timeval, sent: Timeval)
    ensures Micros(TvSub(received, sent)) == Micros(received) - Micros(sent)
    ensures Millis(TvSub(received, sent)) == (Micros(received) - Micros(sent)) as real / 1000.0
    ensures 0 <= received.usec < 1000000 && 0 <= sent.usec < 1000000 ==>
              0 <= TvSub(received, sent).usec < 1000000
  {
  }

  // ----- what is sent -----

  /** One probe, as the sender knows it. */
  datatype Request = Request(peer: int, probe: int, thread: nat, sequence: nat, sentAt: Timeval, stamp: nat)

  predicate Representable(q: Request) {
    && IsInt32(q.peer) && IsInt32(q.probe) && q.thread < TWO64 && q.stamp < TWO64
    && IsInt64(q.sentAt.sec) && IsInt64(q.sentAt.usec)
  }

  /** The 44 bytes of the packed payload record. */
  function Payload(o: Order, q: Request): seq<Byte> {
    Bytes(o, 8, Unsigned64(q.sentAt.sec)) + Bytes(o, 8, Unsigned64(q.sentAt.usec))
    + Bytes(o, 4, Swapped(o, 4, Unsigned32(q.peer)))
    + Bytes(o, 8, Swapped(o, 8, Unsigned64(q.probe)))
    + Bytes(o, 8, Swapped(o, 8, q.thread)) + Bytes(o, 8, Swapped(o, 8, q.stamp))
  }

  /** The echo request with a zero checksum; `pad` is what follows the 44 bytes. */
  function Message(o: Order, pid: nat, q: Request, pad: seq<Byte>): seq<Byte> {
    [8, 0, 0, 0] + Bytes(o, 2, pid) + Bytes(o, 2, q.sequence % 0x1_0000) + Payload(o, q) + pad
  }

  function Sealed(o: Order, m: seq<Byte>): seq<Byte>
    requires |m| >= 4
  {
    StoreWord(o, m, 1, Rfc1071(o, m))
  }

  lemma ShortField(o: Order, v: nat)
    requires v < 0x1_0000
    ensures |Bytes(o, 2, v)| == 2 && Value(o, Bytes(o, 2, v)) == v
  {
    Limits();
    RoundTrip(o, 2, v);
  }

  /** A field kept in host order. */
  lemma HostField(o: Order, n: int)
    requires IsInt64(n)
    ensures |Bytes(o, 8, Unsigned64(n))| == 8
    ensures ToInt64(Value(o, Bytes(o, 8, Unsigned64(n)))) == n
  {
    Limits();
    RoundTrip(o, 8, Unsigned64(n));
    SignedRoundTrips(n);
  }

  /** A field passed through `swap_endian` on both sides. */
  lemma SwappedField(o: Order, n: nat, v: nat)
    requires v < Limit(n)
    ensures |Bytes(o, n, Swapped(o, n, v))| == n
    ensures Swapped(o, n, Value(o, Bytes(o, n, Swapped(o, n, v)))) == v
  {
    SwapInverts(o, n, v);
    RoundTrip(o, n, Swapped(o, n, v));
  }

  lemma SixFields(a: seq<Byte>, b: seq<Byte>, c: seq<Byte>, d: seq<Byte>, e: seq<Byte>, f: seq<Byte>)
    requires |a| == |b| == |d| == |e| == |f| == 8 && |c| == 4
    ensures var p := a + b + c + d + e + f;
            && |p| == 44 && p[0..8] == a && p[8..16] == b && p[16..20] == c
            && p[20..28] == d && p[28..36] == e && p[36..44] == f
  {
  }

  // ----- what is received -----

  datatype Decoded = Decoded(src: string, probe: int, peer: int, sequence: nat, rtt: real, timestamp: nat)

  /** What the 44 bytes of a payload say, on a host of order `o`. */
  function ReadPayload(o: Order, p: seq<Byte>): Request
    requires |p| == 44
  {
    Request(ToInt32(Swapped(o, 4, Value(o, p[16..20]))), ToInt32(Swapped(o, 8, Value(o, p[20..28]))),
            Swapped(o, 8, Value(o, p[28..36])), 0,
            Timeval(ToInt64(Value(o, p[0..8])), ToInt64(Value(o, p[8..16]))),
            Swapped(o, 8, Value(o, p[36..44])))
  }

  /** Decoding inverts the sender's encoding, on hosts of either byte order. */
  lemma ReadInvertsPayload(o: Order, q: Request)
    requires Representable(q)
    ensures |Payload(o, q)| == 44
    ensures ReadPayload(o, Payload(o, q)) == q.(sequence := 0)
  {
    Limits();
    HostField(o, q.sentAt.sec);
    HostField(o, q.sentAt.usec);
    SwappedField(o, 4, Unsigned32(q.peer));
    SwappedField(o, 8, Unsigned64(q.probe));
    SwappedField(o, 8, q.thread);
    SwappedField(o, 8, q.stamp);
    SixFields(Bytes(o, 8, Unsigned64(q.sentAt.sec)), Bytes(o, 8, Unsigned64(q.sentAt.usec)),
              Bytes(o, 4, Swapped(o, 4, Unsigned32(q.peer))), Bytes(o, 8, Swapped(o, 8, Unsigned64(q.probe))),
              Bytes(o, 8, Swapped(o, 8, q.thread)), Bytes(o, 8, Swapped(o, 8, q.stamp)));
    SignedRoundTrips(q.peer);
    SignedRoundTrips(q.probe);
  }

  /** The bytes of the record: two times as the host keeps them, then four numbers with
      their bytes reversed. */
  predicate IsPayload(o: Order, q: Request, p: seq<Byte>) {
    && |p| == 44
    && p[0..8] == Bytes(o, 8, Unsigned64(q.sentAt.sec)) && p[8..16] == Bytes(o, 8, Unsigned64(q.sentAt.usec))
    && p[16..20] == Reverse(Bytes(o, 4, Unsigned32(q.peer)))
    && p[20..28] == Reverse(Bytes(o, 8, Unsigned64(q.probe)))
    && p[28..36] == Reverse(Bytes(o, 8, q.thread)) && p[36..44] == Reverse(Bytes(o, 8, q.stamp))
  }

  lemma PayloadLayout(o: Order, q: Request)
    requires Representable(q)
    ensures IsPayload(o, q, Payload(o, q))
  {
    Limits();
    HostField(o, q.sentAt.sec);
    HostField(o, q.sentAt.usec);
    NetworkField(o, 4, Unsigned32(q.peer));
    NetworkField(o, 8, Unsigned64(q.probe));
    NetworkField(o, 8, q.thread);
    NetworkField(o, 8, q.stamp);
    SixFields(Bytes(o, 8, Unsigned64(q.sentAt.sec)), Bytes(o, 8, Unsigned64(q.sentAt.usec)),
              Bytes(o, 4, Swapped(o, 4, Unsigned32(q.peer))), Bytes(o, 8, Swapped(o, 8, Unsigned64(q.probe))),
              Bytes(o, 8, Swapped(o, 8, q.thread)), Bytes(o, 8, Swapped(o, 8, q.stamp)));
  }

  lemma NetworkField(o: Order, n: nat, v: nat)
    requires v < Limit(n)
    ensures |Bytes(o, n, Swapped(o, n, v))| == n
    ensures Bytes(o, n, Swapped(o, n, v)) == Reverse(Bytes(o, n, v))
  {
    SwapInverts(o, n, v);
    RoundTrip(o, n, v);
  }

  /** Where the fields of a message stand. */
  lemma MessageShape(o: Order, pid: nat, q: Request, pad: seq<Byte>)
    requires Representable(q) && pid < 0x1_0000
    ensures var m := Message(o, pid, q, pad);
            && |m| == 52 + |pad| && m[..4] == [8, 0, 0, 0] && m[4..6] == Bytes(o, 2, pid)
            && m[6..8] == Bytes(o, 2, q.sequence % 0x1_0000) && m[8..52] == Payload(o, q) && m[52..] == pad
  {
    ShortField(o, pid);
    ShortField(o, q.sequence % 0x1_0000);
    ReadInvertsPayload(o, q);
    MessageParts(Bytes(o, 2, pid), Bytes(o, 2, q.sequence % 0x1_0000), Payload(o, q), pad);
  }

  lemma MessageParts(id: seq<Byte>, number: seq<Byte>, payload: seq<Byte>, pad: seq<Byte>)
    requires |id| == |number| == 2 && |payload| == 44
    ensures var m := [8, 0, 0, 0] + id + number + payload + pad;
            && |m| == 52 + |pad| && m[..4] == [8, 0, 0, 0] && m[4..6] == id && m[6..8] == number
            && m[8..52] == payload && m[52..] == pad
  {
  }

  /** The tests `proc_v4` makes on the first bytes of an ICMP message of `icmplen` bytes. */
  predicate Accepts(o: Order, pid: int, protocol: int, icmp: seq<Byte>, icmplen: int)
    requires |icmp| == 52
  {
    && protocol == 1 && icmplen >= 8 && icmp[0] == 0
    && Value(o, icmp[4..6]) == pid && icmplen >= 16
  }

  /** The decoding half of `proc_v4`: `buf` is the receive buffer, of which `len`
      bytes were just received. */
  function Decode(o: Order, pid: int, buf: seq<Byte>, len: int, received: Timeval): Option<Decoded>
    requires |buf| >= 112
  {
    var hlen := 4 * (buf[0] % 16);
    DecodeMessage(o, pid, buf[9], buf[12..16], buf[hlen..hlen + 52], len - hlen, received)
  }

  function DecodeMessage(o: Order, pid: int, protocol: int, from: Address, icmp: seq<Byte>, icmplen: int,
                         received: Timeval): Option<Decoded>
    requires |icmp| == 52
  {
    if Accepts(o, pid, protocol, icmp, icmplen) then Some(DecodedReply(o, from, icmp, received)) else None
  }

  function DecodedReply(o: Order, from: Address, icmp: seq<Byte>, received: Timeval): Decoded
    requires |icmp| == 52
  {
    Measured(Text(from), ReadPayload(o, icmp[8..52]), Value(o, icmp[6..8]), received)
  }

  function Measured(src: string, q: Request, number: nat, received: Timeval): Decoded {
    Decoded(src, q.probe, q.peer, number, Millis(TvSub(received, q.sentAt)), q.stamp)
  }

  lemma DecodeIs(o: Order, pid: int, buf: seq<Byte>, hlen: nat, icmp: seq<Byte>, len: int, at: Timeval)
    requires |buf| >= 112 && hlen == 4 * (buf[0] % 16) && icmp == buf[hlen..hlen + 52]
    ensures Decode(o, pid, buf, len, at) == DecodeMessage(o, pid, buf[9], buf[12..16], icmp, len - hlen, at)
  {
  }

  /** `proc_v4` up to the filing, over the receive buffer and the reception time. */
  method Receive(o: Order, pid: int, ptr: array<Byte>, len: int, tvrecv: Clock) returns (d: Option<Decoded>)
    requires ptr.Length >= 112
    modifies tvrecv
    ensures d == Decode(o, pid, ptr[..], len, old(tvrecv.Now()))
    ensures if d == None then tvrecv.Now() == old(tvrecv.Now()) else Millis(tvrecv.Now()) == d.value.rtt
  {
    d := ReceiveIn(o, pid, ptr[..], len, tvrecv);
  }

  method ReceiveIn(o: Order, pid: int, buf: seq<Byte>, len: int, tvrecv: Clock) returns (d: Option<Decoded>)
    requires |buf| >= 112
    modifies tvrecv
    ensures d == Decode(o, pid, buf, len, old(tvrecv.Now()))
    ensures if d == None then tvrecv.Now() == old(tvrecv.Now()) else Millis(tvrecv.Now()) == d.value.rtt
  {
    var hlen := 4 * (buf[0] % 16);
    d := Handle(o, pid, buf[9], buf[12..16], buf[hlen..hlen + 52], len - hlen, tvrecv);
  }

  /** The nested tests, and the decoding behind them. */
  method Handle(o: Order, pid: int, protocol: int, source: Address, icmp: seq<Byte>, icmplen: int, tvrecv: Clock)
    returns (d: Option<Decoded>)
    requires |icmp| == 52
    modifies tvrecv
    ensures d == DecodeMessage(o, pid, protocol, source, icmp, icmplen, old(tvrecv.Now()))
    ensures if d == None then tvrecv.Now() == old(tvrecv.Now()) else Millis(tvrecv.Now()) == d.value.rtt
  {
    if protocol != 1 {
      return None;
    }
    if icmplen < 8 {
      return None;
    }
    if icmp[0] == 0 {
      if Value(o, icmp[4..6]) != pid {
        return None;
      }
      if icmplen < 16 {
        return None;
      }
      var reply := ReadReply(o, source, icmp, tvrecv);
      d := Some(reply);
    } else {
      d := None;
    }
  }

  method ReadReply(o: Order, from: Address, icmp: seq<Byte>, tvrecv: Clock) returns (d: Decoded)
    requires |icmp| == 52
    modifies tvrecv
    ensures d == DecodedReply(o, from, icmp, old(tvrecv.Now()))
    ensures Millis(tvrecv.Now()) == d.rtt
  {
    var payload := ReadFields(o, icmp[8..52]);
    d := Measure(Text(from), payload, Value(o, icmp[6..8]), tvrecv);
  }

  /** The time is overwritten by what has passed since the probe was sent. */
  method Measure(src: string, payload: Request, number: nat, tvrecv: Clock) returns (d: Decoded)
    modifies tvrecv
    ensures d == Measured(src, payload, number, old(tvrecv.Now()))
    ensures Millis(tvrecv.Now()) == d.rtt
  {
    tvrecv.Sub(payload.sentAt);
    var rtt := tvrecv.sec as real * 1000.0 + tvrecv.usec as real / 1000.0;
    d := Decoded(src, payload.probe, payload.peer, number, rtt, payload.stamp);
  }

  /** The fields of the payload, in host order. */
  method ReadFields(o: Order, p: seq<Byte>) returns (payload: Request)
    requires |p| == 44
    ensures payload == ReadPayload(o, p)
  {
    var sent := Timeval(ToInt64(Value(o, p[0..8])), ToInt64(Value(o, p[8..16])));
    var peer := Unswap(o, p[16..20]);
    var probe := Unswap(o, p[20..28]);
    var thread := Unswap(o, p[28..36]);
    var timestamp := Unswap(o, p[36..44]);
    payload := Request(ToInt32(peer), ToInt32(probe), thread, 0, sent, timestamp);
  }

  method Unswap(o: Order, field: seq<Byte>) returns (v: nat)
    ensures v == Swapped(o, |field|, Value(o, field))
  {
    ReadBack(o, field);
    v := SwapEndian(o, |field|, Value(o, field));
  }
}
