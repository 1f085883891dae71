/**
 Packets that are none of ours: which of them `proc_v4` turns down, and that they leave
 the table alone.
 */
module Foreign {
  import opened Tables
  import opened Octets
  import opened Wire
  import opened Filing
  import opened Pipeline

  /** Read off the bytes: another protocol than ICMP, another type than echo reply, the
      identifier of another process, or less than a header and eight bytes. */
  predicate IsForeign(o: Order, pid: nat, buf: seq<Byte>, len: int)
    requires |buf| >= 112
  {
    var hlen := 4 * (buf[0] % 16);
    || buf[9] != 1
    || buf[hlen] != 0
    || buf[hlen + 4..hlen + 6] != Bytes(o, 2, pid)
    || len - hlen < 16
  }

  lemma IdentifierIff(o: Order, pid: nat, id: seq<Byte>)
    requires |id| == 2 && pid < 0x1_0000
    ensures Value(o, id) == pid <==> id == Bytes(o, 2, pid)
  {
    ShortField(o, pid);
    ReadBack(o, id);
  }

  lemma TwoBytes(s: seq<Byte>, i: nat)
    requires i + 2 <= |s|
    ensures s[i..i + 2] == [s[i], s[i + 1]]
  {
  }

  lemma SameBytes(buf: seq<Byte>, hlen: nat, icmp: seq<Byte>)
    requires hlen + 52 <= |buf| && icmp == buf[hlen..hlen + 52]
    ensures icmp[0] == buf[hlen] && icmp[4..6] == buf[hlen + 4..hlen + 6]
  {
    assert icmp[4] == buf[hlen + 4] && icmp[5] == buf[hlen + 5];
    TwoBytes(icmp, 4);
    TwoBytes(buf, hlen + 4);
  }

  lemma AcceptsIff(o: Order, pid: nat, protocol: int, icmp: seq<Byte>, icmplen: int, taken: bool)
    requires |icmp| == 52 && pid < 0x1_0000 && taken == Accepts(o, pid, protocol, icmp, icmplen)
    ensures taken <==> protocol == 1 && icmp[0] == 0 && icmp[4..6] == Bytes(o, 2, pid) && icmplen >= 16
  {
    IdentifierIff(o, pid, icmp[4..6]);
  }

  lemma DecodesIff(o: Order, pid: nat, buf: seq<Byte>, len: int, at: Timeval, none: bool)
    returns (hlen: nat, icmp: seq<Byte>, taken: bool)
    requires |buf| >= 112 && none == (Decode(o, pid, buf, len, at) == None)
    ensures hlen == 4 * (buf[0] % 16) && icmp == buf[hlen..hlen + 52] && none == !taken
    ensures taken == Accepts(o, pid, buf[9], icmp, len - hlen)
  {
    hlen := 4 * (buf[0] % 16);
    icmp := buf[hlen..hlen + 52];
    DecodeIs(o, pid, buf, hlen, icmp, len, at);
    taken := Accepts(o, pid, buf[9], icmp, len - hlen);
  }

  lemma NoneIff(o: Order, pid: nat, buf: seq<Byte>, len: int, at: Timeval, none: bool)
    requires |buf| >= 112 && pid < 0x1_0000 && none == (Decode(o, pid, buf, len, at) == None)
    ensures none <==> IsForeign(o, pid, buf, len)
  {
    var hlen, icmp, taken := DecodesIff(o, pid, buf, len, at, none);
    SameBytes(buf, hlen, icmp);
    AcceptsIff(o, pid, buf[9], icmp, len - hlen, taken);
  }

  /** A packet is turned down if and only if it is foreign. */
  lemma TurnedDownIff(o: Order, pid: nat, buf: seq<Byte>, len: int, at: Timeval)
    requires |buf| >= 112 && pid < 0x1_0000
    ensures Decode(o, pid, buf, len, at) == None <==> IsForeign(o, pid, buf, len)
  {
    NoneIff(o, pid, buf, len, at, Decode(o, pid, buf, len, at) == None);
  }

  lemma CarriesForeign(o: Order, pid: nat, buf: seq<Byte>, ip: seq<Byte>, id: seq<Byte>, number: seq<Byte>,
                       payload: seq<Byte>, len: int)
    requires |buf| >= 112 && Carries(buf, ip, id, number, payload) && |ip| == 4 * (ip[0] % 16)
    requires id != Bytes(o, 2, pid)
    ensures IsForeign(o, pid, buf, len)
  {
    SameBytes(buf, |ip|, buf[|ip|..|ip| + 52]);
  }

  /** The echo of a probe of another process is turned down, whenever and in whatever
      length it comes in. */
  lemma OtherProcess(o: Order, pid: nat, pid': nat, x: Echo, len: int, at: Timeval)
    requires ValidEcho(x) && pid < 0x1_0000 && pid' < 0x1_0000 && pid != pid'
    ensures Decode(o, pid, BufferOf(o, pid', x), len, at) == None
  {
    OwnFields(o, pid', x);
    ShortField(o, pid);
    ShortField(o, pid');
    CarriesForeign(o, pid, BufferOf(o, pid', x), x.ip, Bytes(o, 2, pid'), Bytes(o, 2, x.q.sequence % 0x1_0000),
                   Payload(o, x.q), len);
    TurnedDownIff(o, pid, BufferOf(o, pid', x), len, at);
  }

  lemma RequestForeign(o: Order, pid: nat, ip: seq<Byte>, p: seq<Byte>, stale: seq<Byte>, len: int)
    requires |ip| >= 20 && |ip| == 4 * (ip[0] % 16) && |p| >= 52 && p[0] == 8 && |ip| + |p| + |stale| >= 112
    ensures IsForeign(o, pid, ip + p + stale, len)
  {
  }

  /** A probe of our own that comes in as it was sent, as on a loopback interface, is
      turned down. */
  lemma LoopedBack(o: Order, pid: nat, q: Request, pad: seq<Byte>, ip: seq<Byte>, stale: seq<Byte>, len: int,
                   at: Timeval)
    requires Representable(q) && pid < 0x1_0000 && |ip| >= 20 && |ip| == 4 * (ip[0] % 16)
    requires |ip| + 52 + |pad| + |stale| >= 112
    ensures |Message(o, pid, q, pad)| >= 4
    ensures |ip + Sealed(o, Message(o, pid, q, pad)) + stale| >= 112
    ensures Decode(o, pid, ip + Sealed(o, Message(o, pid, q, pad)) + stale, len, at) == None
  {
    var m := Message(o, pid, q, pad);
    MessageShape(o, pid, q, pad);
    assert m[0] == m[..4][0];
    RequestForeign(o, pid, ip, Sealed(o, m), stale, len);
    TurnedDownIff(o, pid, ip + Sealed(o, m) + stale, len, at);
  }

  lemma {:induction false} PresentWithout(ms: seq<Option<Reply>>, ns: seq<Option<Reply>>)
    ensures Present(ms + [None] + ns) == Present(ms + ns)
  {
    var all, rest := ms + [None] + ns, ms + ns;
    if ns == [] {
      assert all[..|ms|] == ms && rest == ms;
    } else {
      var n := |ns| - 1;
      assert all[..|all| - 1] == ms + [None] + ns[..n];
      assert rest[..|rest| - 1] == ms + ns[..n];
      PresentWithout(ms, ns[..n]);
    }
  }

  lemma AllMeantJoin(o: Order, pid: nat, xs: seq<Arrival>, ys: seq<Arrival>)
    requires ValidRun(o, pid, xs) && ValidRun(o, pid, ys)
    ensures ValidRun(o, pid, xs + ys) && AllMeant(o, pid, xs + ys) == AllMeant(o, pid, xs) + AllMeant(o, pid, ys)
  {
  }

  /** Wherever a foreign packet comes in among others, the table is filled as if it had not. */
  lemma ForeignLeavesTable(o: Order, pid: nat, r: RTable, xs: seq<Arrival>, a: Arrival, ys: seq<Arrival>)
    requires ValidRun(o, pid, xs) && ValidRun(o, pid, ys)
    requires a.Other? && |a.buf| >= 112 && IsForeign(o, pid, a.buf, a.len)
    ensures ValidRun(o, pid, xs + [a] + ys) && ValidRun(o, pid, xs + ys)
    ensures Heard(o, pid, r, xs + [a] + ys) == Heard(o, pid, r, xs + ys)
  {
    TurnedDownIff(o, pid, a.buf, a.len, a.at);
    AllMeantJoin(o, pid, xs, ys);
    AllMeantJoin(o, pid, xs, [a]);
    AllMeantJoin(o, pid, xs + [a], ys);
    assert AllMeant(o, pid, [a]) == [None];
    PresentWithout(AllMeant(o, pid, xs), AllMeant(o, pid, ys));
    RepliesAreMeant(o, pid, xs + ys);
    RepliesAreMeant(o, pid, xs + [a] + ys);
  }
}
