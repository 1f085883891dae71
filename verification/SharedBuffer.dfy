/**
 The senders of a round side by side. Each peer has its own thread, but all of them
 fill and send one global buffer, and all find the address to send to through one global
 pointer `pr`, which the receiver sets too when it starts. A step is one statement of one
 of them.
 */
module SharedBuffer {
  import opened Tables
  import opened Octets
  import opened Checksum
  import opened Wire
  import opened Sender

  /** The statement a sender is about to execute: set `pr`; set the placeholder address;
      take the next destination and set type, code and identifier; store the number; copy
      the payload; clear the checksum; compute it; store it; send. */
  datatype Act = Point | Bind | Header | Number | Body | Zero | Sum | Store | Emit

  /** What one probe puts into the buffer: its number, and the payload with what follows. */
  datatype Job = Job(number: seq<Byte>, body: seq<Byte>)

  /** `jobs[i][d][n]` is the probe of sender `i` to destination `d` with sequence number
      `n`. `exclusive` is a program that holds a mutex from the number to the send. The
      receiver is still to start if `receiverToCome`. */
  datatype Setup = Setup(o: Order, size: nat, len: nat, id: seq<Byte>, dsts: nat, pingReq: nat,
                         jobs: seq<seq<seq<Job>>>, exclusive: bool, receiverToCome: bool)

  /** At destination number `d` and sequence number `sequence`. */
  datatype Thread = Thread(at: Act, d: nat, sequence: nat, answer: int)

  /** An address to send to. */
  datatype Target = Null | Placeholder | To(d: nat)

  /** The two records `pr` can point at: a global one, and one of the receiver's own. */
  datatype Record = Global | Receivers

  /** `pr`, the addresses in the two records, and whether the receiver has started. */
  datatype Proto = Proto(pr: Record, global: Target, receivers: Target, listening: bool)

  /** What went out for one probe: where to, and what. */
  datatype Datagram = Datagram(d: nat, sequence: nat, to: Target, bytes: seq<Byte>)

  /** `writer` is the sender that copied a payload last. */
  datatype Shared = Shared(buf: seq<Byte>, proto: Proto, threads: seq<Thread>, sent: seq<seq<Datagram>>,
                           holder: Option<nat>, writer: Option<nat>)

  datatype Turn = OfSender(i: nat) | OfReceiver

  /** Sender `i` has a probe `sequence` for destination `d`. */
  ghost predicate HasProbe(c: Setup, i: nat, d: nat, sequence: nat) {
    i < |c.jobs| && d < c.dsts && sequence < c.pingReq
  }

  ghost predicate ProbeFits(c: Setup, i: nat, d: nat, sequence: nat) {
    && i < |c.jobs| && d < |c.jobs[i]| && sequence < |c.jobs[i][d]|
    && |c.jobs[i][d][sequence].number| == 2
    && 8 + |c.jobs[i][d][sequence].body| == c.len
  }

  /** All payloads have one length, and the senders' payloads differ. */
  ghost predicate Valid(c: Setup) {
    && |c.id| == 2 && 52 <= c.len <= c.size
    && (forall i: nat, d: nat, q: nat :: HasProbe(c, i, d, q) ==> ProbeFits(c, i, d, q))
    && (forall i: nat, d: nat, q: nat, j: nat, d': nat, q': nat ::
          HasProbe(c, i, d, q) && HasProbe(c, j, d', q') && i != j ==>
            c.jobs[i][d][q].body != c.jobs[j][d'][q'].body)
  }

  ghost function JobOf(c: Setup, i: nat, d: nat, sequence: nat): (job: Job)
    requires Valid(c) && HasProbe(c, i, d, sequence)
    ensures |job.number| == 2 && 8 + |job.body| == c.len
  {
    assert ProbeFits(c, i, d, sequence);
    c.jobs[i][d][sequence]
  }

  /** The packet of a probe before its checksum is stored. */
  ghost function Unsealed(c: Setup, job: Job): (m: seq<Byte>)
    ensures |m| == 4 + |c.id| + |job.number| + |job.body|
  {
    [8, 0, 0, 0] + c.id + job.number + job.body
  }

  /** The packet a sender with the buffer to itself sends for this probe. */
  ghost function PacketOf(c: Setup, job: Job): seq<Byte> { Sealed(c.o, Unsealed(c, job)) }

  // ----- steps -----

  ghost predicate Typed(c: Setup, s: Shared) {
    && Valid(c) && |s.buf| == c.size
    && |s.threads| == |s.sent| == |c.jobs|
    && forall i :: 0 <= i < |s.threads| ==> ThreadTyped(c, i, s.threads[i])
  }

  ghost predicate Started(t: Thread) { t.at in {Number, Body, Zero, Sum, Store, Emit} }

  ghost predicate ThreadTyped(c: Setup, i: nat, t: Thread) {
    && (Started(t) ==> HasProbe(c, i, t.d, t.sequence))
    && (t.at in {Point, Bind, Header} ==> t.sequence == 0)
    && (t.at == Store ==> 0 <= t.answer <= 0xFFFF)
  }

  ghost predicate Start(c: Setup, s: Shared) {
    && Typed(c, s)
    && (forall i :: 0 <= i < |s.threads| ==> s.threads[i] == Thread(Point, 0, 0, 0) && s.sent[i] == [])
    && s.proto.listening == !c.receiverToCome
    && s.holder == None && s.writer == None
  }

  ghost predicate Can(c: Setup, s: Shared, i: nat) {
    && i < |s.threads|
    && (s.threads[i].at == Header ==> s.threads[i].d < c.dsts)
    && (s.threads[i].at == Number && c.exclusive ==> s.holder == None)
  }

  /** The thread after its statement. */
  ghost function Next(c: Setup, buf: seq<Byte>, t: Thread): Thread
    requires c.len <= |buf|
  {
    match t.at
    case Point => t.(at := Bind)
    case Bind => t.(at := Header)
    case Header => if c.pingReq == 0 then t.(d := t.d + 1) else t.(at := Number)
    case Number => t.(at := Body)
    case Body => t.(at := Zero)
    case Zero => t.(at := Sum)
    case Sum => t.(at := Store, answer := Rfc1071(c.o, buf[..c.len]))
    case Store => t.(at := Emit)
    case Emit => if t.sequence + 1 < c.pingReq then t.(at := Number, sequence := t.sequence + 1)
                 else t.(at := Header, d := t.d + 1, sequence := 0)
  }

  /** The two bytes of a checksum. */
  ghost function Word(o: Order, v: int): (word: seq<Byte>)
    requires 0 <= v <= 0xFFFF
    ensures |word| == 2
  {
    ShortField(o, v);
    Bytes(o, 2, v)
  }

  /** The buffer after the statement of sender `i`. The header is the same for all. */
  ghost function Wrote(c: Setup, buf: seq<Byte>, i: nat, t: Thread): (buf': seq<Byte>)
    requires Valid(c) && ThreadTyped(c, i, t) && |buf| == c.size
    ensures |buf'| == |buf|
  {
    match t.at
    case Header => Spliced(Spliced(buf, 0, [8, 0]), 4, c.id)
    case Number => Spliced(buf, 6, JobOf(c, i, t.d, t.sequence).number)
    case Body => Spliced(buf, 8, JobOf(c, i, t.d, t.sequence).body)
    case Zero => Spliced(buf, 2, [0, 0])
    case Store => Spliced(buf, 2, Word(c.o, t.answer))
    case _ => buf
  }

  function WriterAfter(writer: Option<nat>, i: nat, t: Thread): Option<nat> {
    if t.at == Body then Some(i) else writer
  }

  function HolderAfter(c: Setup, holder: Option<nat>, i: nat, t: Thread): Option<nat> {
    if t.at == Number && c.exclusive then Some(i) else if t.at == Emit then None else holder
  }

  /** The address a send finds. */
  function Found(p: Proto): Target { if p.pr.Global? then p.global else p.receivers }

  function WithTarget(p: Proto, to: Target): Proto {
    if p.pr.Global? then p.(global := to) else p.(receivers := to)
  }

  function ProtoAfter(p: Proto, t: Thread): Proto {
    if t.at == Point then p.(pr := Global)
    else if t.at == Bind then WithTarget(p, Placeholder)
    else if t.at == Header then WithTarget(p, To(t.d))
    else p
  }

  /** The receiver starts: `pr` points at its own record, which has no address. */
  function Listening(p: Proto): Proto { p.(pr := Receivers, receivers := Null, listening := true) }

  ghost function Step(c: Setup, s: Shared, i: nat): Shared
    requires Typed(c, s) && i < |s.threads|
  {
    var t := s.threads[i];
    Shared(
      Wrote(c, s.buf, i, t),
      ProtoAfter(s.proto, t),
      s.threads[i := Next(c, s.buf, t)],
      if t.at == Emit then s.sent[i := s.sent[i] + [Datagram(t.d, t.sequence, Found(s.proto), s.buf[..c.len])]]
      else s.sent,
      HolderAfter(c, s.holder, i, t),
      WriterAfter(s.writer, i, t))
  }

  /** A sender whose turn it is moves if it can. */
  ghost function Move(c: Setup, s: Shared, i: nat): (s': Shared)
    requires Typed(c, s)
    ensures Typed(c, s')
  {
    if Can(c, s, i) then
      assert ThreadTyped(c, i, s.threads[i]);
      assert ThreadTyped(c, i, Next(c, s.buf, s.threads[i]));
      Step(c, s, i)
    else s
  }

  ghost function Take(c: Setup, s: Shared, turn: Turn): (s': Shared)
    requires Typed(c, s)
    ensures Typed(c, s')
  {
    match turn
    case OfSender(i) => Move(c, s, i)
    case OfReceiver => if s.proto.listening then s else s.(proto := Listening(s.proto))
  }

  /** The state after everyone had the turns `turns`, in that order. */
  ghost function After(c: Setup, s: Shared, turns: seq<Turn>): (s': Shared)
    requires Typed(c, s)
    ensures Typed(c, s')
    decreases |turns|
  {
    if turns == [] then s
    else Take(c, After(c, s, turns[..|turns| - 1]), turns[|turns| - 1])
  }

  lemma MoveIs(c: Setup, s: Shared, i: nat)
    requires Typed(c, s) && Can(c, s, i)
    ensures ThreadTyped(c, i, s.threads[i])
    ensures var s', t := Move(c, s, i), s.threads[i];
      && s'.buf == Wrote(c, s.buf, i, t) && s'.threads == s.threads[i := Next(c, s.buf, t)]
      && s'.proto == ProtoAfter(s.proto, t)
      && s'.holder == HolderAfter(c, s.holder, i, t) && s'.writer == WriterAfter(s.writer, i, t)
      && (t.at != Emit ==> s'.sent == s.sent)
  {
  }

  // ----- what the promise is -----

  /** Every datagram of the sender is the packet of its probe. */
  ghost predicate Exact(c: Setup, i: nat, sent: seq<Datagram>)
    requires Valid(c)
  {
    forall n :: 0 <= n < |sent| ==>
      && HasProbe(c, i, sent[n].d, sent[n].sequence)
      && sent[n].bytes == PacketOf(c, JobOf(c, i, sent[n].d, sent[n].sequence))
  }

  ghost predicate AllExact(c: Setup, s: Shared)
    requires Valid(c)
  {
    forall i :: 0 <= i < |s.sent| ==> Exact(c, i, s.sent[i])
  }

  /** Every datagram went to the destination of its probe. */
  ghost predicate Addressed(sent: seq<Datagram>) {
    forall n :: 0 <= n < |sent| ==> sent[n].to == To(sent[n].d)
  }

  ghost predicate AllAddressed(s: Shared) {
    forall i :: 0 <= i < |s.sent| ==> Addressed(s.sent[i])
  }

  // ----- pieces of the buffer -----

  lemma SplicedPiece(s: seq<Byte>, at: nat, bytes: seq<Byte>, lo: nat, hi: nat)
    requires at + |bytes| <= |s| && lo <= hi <= |s|
    ensures Spliced(s, at, bytes)[at..at + |bytes|] == bytes
    ensures hi <= at || at + |bytes| <= lo ==> Spliced(s, at, bytes)[lo..hi] == s[lo..hi]
  {
    var t, end := Spliced(s, at, bytes), at + |bytes|;
    SplicedParts(s, at, bytes);
    if hi <= at {
      SubPiece(t, at, lo, hi);
      SubPiece(s, at, lo, hi);
    } else if end <= lo {
      SubRest(t, end, lo, hi);
      SubRest(s, end, lo, hi);
    }
  }

  lemma SplicedParts(s: seq<Byte>, at: nat, bytes: seq<Byte>)
    requires at + |bytes| <= |s|
    ensures var t, end := Spliced(s, at, bytes), at + |bytes|;
      |t| == |s| && t[..at] == s[..at] && t[at..end] == bytes && t[end..] == s[end..]
  {
  }

  lemma SubPiece(t: seq<Byte>, at: nat, lo: nat, hi: nat)
    requires lo <= hi <= at <= |t|
    ensures t[lo..hi] == t[..at][lo..hi]
  {
  }

  lemma SubRest(t: seq<Byte>, end: nat, lo: nat, hi: nat)
    requires end <= lo <= hi <= |t|
    ensures t[lo..hi] == t[end..][lo - end..hi - end]
  {
  }

  lemma HeaderWrites(buf: seq<Byte>, id: seq<Byte>, len: nat)
    requires 8 <= len <= |buf| && |id| == 2
    ensures var buf' := Spliced(Spliced(buf, 0, [8, 0]), 4, id);
      && HasHeader(buf', id)
      && buf'[8..len] == buf[8..len]
      && (HasHeader(buf, id) ==> buf' == buf)
  {
    SplicedPiece(buf, 0, [8, 0], 8, len);
    SplicedPiece(Spliced(buf, 0, [8, 0]), 4, id, 8, len);
  }

  lemma Assembled(b: seq<Byte>, id: seq<Byte>, number: seq<Byte>, body: seq<Byte>)
    requires HasHeader(b, id) && |number| == 2 && 8 + |body| <= |b|
    requires b[2..4] == [0, 0] && b[6..8] == number && b[8..8 + |body|] == body
    ensures b[..8 + |body|] == [8, 0, 0, 0] + id + number + body
  {
    assert b[..8 + |body|] == b[..2] + b[2..4] + b[4..6] + b[6..8] + b[8..8 + |body|];
  }

  lemma SealedPieces(o: Order, m: seq<Byte>, id: seq<Byte>, number: seq<Byte>, body: seq<Byte>)
    requires |id| == |number| == 2 && m == [8, 0, 0, 0] + id + number + body
    ensures var p := Sealed(o, m);
      && |p| == |m|
      && p[2..4] == Word(o, Rfc1071(o, m))
      && p == [8, 0] + p[2..4] + id + number + body
  {
    StoredIsStoreWord(o, m, Rfc1071(o, m));
    var p := Sealed(o, m);
    assert p == m[..2] + Word(o, Rfc1071(o, m)) + m[4..];
    assert m[..2] == [8, 0] && m[4..] == id + number + body;
  }

  /** Three pieces of the buffer decide whether it holds the packet. */
  lemma HoldsPacketIff(c: Setup, job: Job, buf: seq<Byte>)
    requires |job.number| == 2 && 8 + |job.body| == c.len <= |buf| && |c.id| == 2 && HasHeader(buf, c.id)
    ensures var p := PacketOf(c, job);
      |p| == c.len &&
      (buf[..c.len] == p <==>
        buf[2..4] == p[2..4] && buf[6..8] == job.number && buf[8..c.len] == job.body)
  {
    SealedPieces(c.o, Unsealed(c, job), c.id, job.number, job.body);
    var b := buf[..c.len];
    SamePieces(b, PacketOf(c, job), c.id, job.number, job.body);
    assert b[2..4] == buf[2..4] && b[6..8] == buf[6..8] && b[8..] == buf[8..c.len];
  }

  lemma SamePieces(b: seq<Byte>, p: seq<Byte>, id: seq<Byte>, number: seq<Byte>, body: seq<Byte>)
    requires |id| == |number| == 2 && |b| == |p| == 8 + |body| && HasHeader(b, id)
    requires p == [8, 0] + p[2..4] + id + number + body
    ensures b == p <==> b[2..4] == p[2..4] && b[6..8] == number && b[8..] == body
  {
    assert p[6..8] == number && p[8..] == body;
    if b[2..4] == p[2..4] && b[6..8] == number && b[8..] == body {
      assert b == b[..2] + b[2..4] + b[4..6] + b[6..8] + b[8..];
    }
  }

  // ----- every run -----

  ghost predicate Copied(t: Thread) { t.at in {Zero, Sum, Store, Emit} }

  /** The payload in the buffer is one of sender `w`. */
  ghost predicate BodyBy(c: Setup, buf: seq<Byte>, w: nat)
    requires Valid(c) && |buf| == c.size
  {
    exists d: nat, q: nat :: HasProbe(c, w, d, q) && buf[8..c.len] == JobOf(c, w, d, q).body
  }

  /** What sender `i` may rely on, whatever the others do. */
  ghost predicate ThreadInv(c: Setup, buf: seq<Byte>, writer: Option<nat>, i: nat, t: Thread)
    requires Valid(c) && |buf| == c.size
  {
    && ThreadTyped(c, i, t)
    && (Started(t) ==> HasHeader(buf, c.id))
    && (Copied(t) ==> writer.Some? && (writer == Some(i) ==> buf[8..c.len] == JobOf(c, i, t.d, t.sequence).body))
  }

  ghost predicate Inv(c: Setup, s: Shared) {
    && Typed(c, s)
    && (forall i :: 0 <= i < |s.threads| ==> ThreadInv(c, s.buf, s.writer, i, s.threads[i]))
    && (s.writer.Some? ==> BodyBy(c, s.buf, s.writer.value))
  }

  /** The payload in the buffer changes in one statement only, the header in none. */
  lemma WroteFrame(c: Setup, buf: seq<Byte>, i: nat, t: Thread)
    requires Valid(c) && ThreadTyped(c, i, t) && |buf| == c.size
    ensures var buf' := Wrote(c, buf, i, t);
      && (t.at == Header || HasHeader(buf, c.id) ==> HasHeader(buf', c.id))
      && buf'[8..c.len] == if t.at == Body then JobOf(c, i, t.d, t.sequence).body else buf[8..c.len]
  {
    match t.at
    case Header =>
      HeaderWrites(buf, c.id, c.len);
    case Number =>
      SplicedPiece(buf, 6, JobOf(c, i, t.d, t.sequence).number, 8, c.len);
      SplicedPiece(buf, 6, JobOf(c, i, t.d, t.sequence).number, 4, 6);
    case Body =>
      SplicedPiece(buf, 8, JobOf(c, i, t.d, t.sequence).body, 4, 6);
    case Zero =>
      SplicedPiece(buf, 2, [0, 0], 8, c.len);
      SplicedPiece(buf, 2, [0, 0], 4, 6);
    case Store =>
      SplicedPiece(buf, 2, Word(c.o, t.answer), 8, c.len);
      SplicedPiece(buf, 2, Word(c.o, t.answer), 4, 6);
    case _ =>
  }

  lemma OwnInv(c: Setup, buf: seq<Byte>, writer: Option<nat>, i: nat, t: Thread)
    requires Valid(c) && |buf| == c.size && ThreadInv(c, buf, writer, i, t)
    requires ThreadTyped(c, i, Next(c, buf, t))
    ensures ThreadInv(c, Wrote(c, buf, i, t), WriterAfter(writer, i, t), i, Next(c, buf, t))
  {
    WroteFrame(c, buf, i, t);
  }

  lemma OtherInv(c: Setup, buf: seq<Byte>, writer: Option<nat>, i: nat, t: Thread, j: nat, u: Thread)
    requires Valid(c) && |buf| == c.size && ThreadTyped(c, i, t)
    requires i != j && ThreadInv(c, buf, writer, j, u)
    ensures ThreadInv(c, Wrote(c, buf, i, t), WriterAfter(writer, i, t), j, u)
  {
    WroteFrame(c, buf, i, t);
  }

  lemma WriterInv(c: Setup, buf: seq<Byte>, writer: Option<nat>, i: nat, t: Thread)
    requires Valid(c) && |buf| == c.size && ThreadTyped(c, i, t)
    requires writer.Some? ==> BodyBy(c, buf, writer.value)
    ensures var w := WriterAfter(writer, i, t); w.Some? ==> BodyBy(c, Wrote(c, buf, i, t), w.value)
  {
    WroteFrame(c, buf, i, t);
  }

  lemma StepInv(c: Setup, s: Shared, i: nat)
    requires Inv(c, s) && Can(c, s, i)
    ensures Inv(c, Move(c, s, i))
  {
    MoveIs(c, s, i);
    var t, s' := s.threads[i], Move(c, s, i);
    WriterInv(c, s.buf, s.writer, i, t);
    forall j | 0 <= j < |s.threads| ensures ThreadInv(c, s'.buf, s'.writer, j, s'.threads[j]) {
      assert ThreadInv(c, s.buf, s.writer, j, s.threads[j]);
      assert ThreadTyped(c, j, s'.threads[j]);
      if j == i {
        OwnInv(c, s.buf, s.writer, i, t);
      } else {
        OtherInv(c, s.buf, s.writer, i, t, j, s.threads[j]);
      }
    }
  }

  lemma TurnInv(c: Setup, s: Shared, turn: Turn)
    requires Inv(c, s)
    ensures Inv(c, Take(c, s, turn))
  {
    if turn.OfSender? && Can(c, s, turn.i) {
      StepInv(c, s, turn.i);
    }
  }

  lemma {:induction false} RunInv(c: Setup, s: Shared, turns: seq<Turn>)
    requires Start(c, s)
    ensures Inv(c, After(c, s, turns))
    decreases |turns|
  {
    if turns != [] {
      var s1 := After(c, s, turns[..|turns| - 1]);
      RunInv(c, s, turns[..|turns| - 1]);
      TurnInv(c, s1, turns[|turns| - 1]);
    }
  }

  /** In every run, what a sender is about to send is the packet of its probe exactly
      when no other sender has copied a payload since it did, the number in the buffer
      is its own, and so is the checksum. */
  lemma SendExactIff(c: Setup, s: Shared, turns: seq<Turn>, i: nat)
    requires Start(c, s)
    requires i < |c.jobs| && After(c, s, turns).threads[i].at == Emit
    ensures var s', t := After(c, s, turns), After(c, s, turns).threads[i];
      && HasProbe(c, i, t.d, t.sequence)
      && var job := JobOf(c, i, t.d, t.sequence);
      && |PacketOf(c, job)| == c.len
      && (s'.buf[..c.len] == PacketOf(c, job) <==>
          s'.writer == Some(i) && s'.buf[6..8] == job.number && s'.buf[2..4] == PacketOf(c, job)[2..4])
  {
    RunInv(c, s, turns);
    var s' := After(c, s, turns);
    var t := s'.threads[i];
    assert ThreadInv(c, s'.buf, s'.writer, i, t);
    HoldsPacketIff(c, JobOf(c, i, t.d, t.sequence), s'.buf);
    var w := s'.writer.value;
    if w != i {
      var d: nat, q: nat :| HasProbe(c, w, d, q) && s'.buf[8..c.len] == JobOf(c, w, d, q).body;
    }
  }

  // ----- when every packet is exact -----

  ghost predicate InWindow(t: Thread) { t.at in {Body, Zero, Sum, Store, Emit} }

  /** How far sender `i` has filled the buffer. */
  ghost predicate Filled(c: Setup, buf: seq<Byte>, job: Job, t: Thread)
    requires Valid(c) && |buf| == c.size
  {
    && HasHeader(buf, c.id)
    && buf[6..8] == job.number
    && (Copied(t) ==> buf[8..c.len] == job.body)
    && (t.at == Sum || t.at == Store ==> buf[2..4] == [0, 0])
    && (t.at == Store ==> t.answer == Rfc1071(c.o, Unsealed(c, job)))
    && (t.at == Emit ==> buf[..c.len] == PacketOf(c, job))
  }

  lemma StoredIs(c: Setup, buf: seq<Byte>, job: Job, answer: int)
    requires Valid(c) && |buf| == c.size && |job.number| == 2 && 8 + |job.body| == c.len
    requires HasHeader(buf, c.id) && buf[6..8] == job.number && buf[8..c.len] == job.body
    requires answer == Rfc1071(c.o, Unsealed(c, job))
    ensures Spliced(buf, 2, Word(c.o, answer))[..c.len] == PacketOf(c, job)
  {
    var word := Word(c.o, answer);
    var buf' := Spliced(buf, 2, word);
    SplicedPiece(buf, 2, word, 4, 6);
    SplicedPiece(buf, 2, word, 6, 8);
    SplicedPiece(buf, 2, word, 8, c.len);
    SealedPieces(c.o, Unsealed(c, job), c.id, job.number, job.body);
    HoldsPacketIff(c, job, buf');
  }

  lemma FillEarly(c: Setup, buf: seq<Byte>, i: nat, t: Thread)
    requires Valid(c) && ThreadTyped(c, i, t) && |buf| == c.size
    requires t.at == Number || t.at == Body || t.at == Zero
    requires HasHeader(buf, c.id)
    requires t.at != Number ==> Filled(c, buf, JobOf(c, i, t.d, t.sequence), t)
    ensures Filled(c, Wrote(c, buf, i, t), JobOf(c, i, t.d, t.sequence), Next(c, buf, t))
  {
    var job := JobOf(c, i, t.d, t.sequence);
    WroteFrame(c, buf, i, t);
    if t.at == Number {
      SplicedPiece(buf, 6, job.number, 6, 8);
    } else if t.at == Body {
      SplicedPiece(buf, 8, job.body, 6, 8);
    } else {
      SplicedPiece(buf, 2, [0, 0], 6, 8);
    }
  }

  lemma FillLate(c: Setup, buf: seq<Byte>, i: nat, t: Thread)
    requires Valid(c) && ThreadTyped(c, i, t) && |buf| == c.size
    requires t.at == Sum || t.at == Store
    requires Filled(c, buf, JobOf(c, i, t.d, t.sequence), t)
    ensures Filled(c, Wrote(c, buf, i, t), JobOf(c, i, t.d, t.sequence), Next(c, buf, t))
  {
    var job := JobOf(c, i, t.d, t.sequence);
    if t.at == Sum {
      Assembled(buf, c.id, job.number, job.body);
    } else {
      WroteFrame(c, buf, i, t);
      StoredIs(c, buf, job, t.answer);
      SplicedPiece(buf, 2, Word(c.o, t.answer), 6, 8);
    }
  }

  /** At most one sender has something to send. */
  ghost predicate Lone(c: Setup) { |c.jobs| <= 1 || c.dsts == 0 || c.pingReq == 0 }

  /** What a sender finds that nobody disturbs. */
  ghost predicate SoloAt(c: Setup, buf: seq<Byte>, holder: Option<nat>, i: nat, t: Thread)
    requires Valid(c) && |buf| == c.size
  {
    && ThreadTyped(c, i, t)
    && (Started(t) ==> HasHeader(buf, c.id))
    && (InWindow(t) ==> Filled(c, buf, JobOf(c, i, t.d, t.sequence), t))
    && (InWindow(t) && c.exclusive ==> holder == Some(i))
  }

  ghost predicate Solo(c: Setup, s: Shared) {
    && Typed(c, s) && AllExact(c, s)
    && forall i :: 0 <= i < |s.threads| ==> SoloAt(c, s.buf, s.holder, i, s.threads[i])
  }

  lemma MoverStays(c: Setup, buf: seq<Byte>, holder: Option<nat>, i: nat, t: Thread)
    requires Valid(c) && |buf| == c.size && SoloAt(c, buf, holder, i, t)
    requires ThreadTyped(c, i, Next(c, buf, t))
    ensures SoloAt(c, Wrote(c, buf, i, t), HolderAfter(c, holder, i, t), i, Next(c, buf, t))
  {
    WroteFrame(c, buf, i, t);
    if t.at == Number || t.at == Body || t.at == Zero {
      FillEarly(c, buf, i, t);
    } else if t.at == Sum || t.at == Store {
      FillLate(c, buf, i, t);
    }
  }

  lemma OtherStays(c: Setup, buf: seq<Byte>, holder: Option<nat>, i: nat, t: Thread, j: nat, u: Thread)
    requires Valid(c) && |buf| == c.size && SoloAt(c, buf, holder, i, t) && SoloAt(c, buf, holder, j, u)
    requires c.exclusive || Lone(c)
    requires i < |c.jobs| && j < |c.jobs| && i != j
    requires t.at == Number && c.exclusive ==> holder == None
    ensures SoloAt(c, Wrote(c, buf, i, t), HolderAfter(c, holder, i, t), j, u)
  {
    WroteFrame(c, buf, i, t);
    if InWindow(u) {
      HeaderWrites(buf, c.id, c.len);
      assert Wrote(c, buf, i, t) == buf;
    }
  }

  lemma ExactStep(c: Setup, s: Shared, i: nat)
    requires Solo(c, s) && Can(c, s, i)
    ensures AllExact(c, Move(c, s, i))
  {
    var s' := Move(c, s, i);
    assert SoloAt(c, s.buf, s.holder, i, s.threads[i]) && Exact(c, i, s.sent[i]);
    forall j | 0 <= j < |s'.sent| ensures Exact(c, j, s'.sent[j]) {
      assert Exact(c, j, s.sent[j]);
    }
  }

  lemma SoloStep(c: Setup, s: Shared, i: nat)
    requires Solo(c, s) && Can(c, s, i)
    requires c.exclusive || Lone(c)
    ensures Solo(c, Move(c, s, i))
  {
    MoveIs(c, s, i);
    ExactStep(c, s, i);
    var t, s' := s.threads[i], Move(c, s, i);
    assert SoloAt(c, s.buf, s.holder, i, t);
    forall j | 0 <= j < |s'.threads| ensures SoloAt(c, s'.buf, s'.holder, j, s'.threads[j]) {
      assert SoloAt(c, s.buf, s.holder, j, s.threads[j]);
      assert ThreadTyped(c, j, s'.threads[j]);
      if j == i {
        MoverStays(c, s.buf, s.holder, i, t);
      } else {
        OtherStays(c, s.buf, s.holder, i, t, j, s.threads[j]);
      }
    }
  }

  lemma TurnSolo(c: Setup, s: Shared, turn: Turn)
    requires Solo(c, s)
    requires c.exclusive || Lone(c)
    ensures Solo(c, Take(c, s, turn))
  {
    if turn.OfSender? && Can(c, s, turn.i) {
      SoloStep(c, s, turn.i);
    }
  }

  lemma {:induction false} RunSolo(c: Setup, s: Shared, turns: seq<Turn>)
    requires Start(c, s)
    requires c.exclusive || Lone(c)
    ensures Solo(c, After(c, s, turns))
    decreases |turns|
  {
    if turns != [] {
      var s1 := After(c, s, turns[..|turns| - 1]);
      RunSolo(c, s, turns[..|turns| - 1]);
      TurnSolo(c, s1, turns[|turns| - 1]);
    }
  }

  // ----- races -----

  function Turns(i: nat, n: nat): (turns: seq<Turn>)
    ensures |turns| == n
  {
    if n == 0 then [] else Turns(i, n - 1) + [OfSender(i)]
  }

  /** The statement `n` statements into the first probe. */
  function Nth(n: nat): Act
    requires n <= 8
  {
    [Point, Bind, Header, Number, Body, Zero, Sum, Store, Emit][n]
  }

  lemma AfterNext(c: Setup, s: Shared, turns: seq<Turn>, turn: Turn)
    requires Typed(c, s)
    ensures After(c, s, turns + [turn]) == Take(c, After(c, s, turns), turn)
  {
    assert (turns + [turn])[..|turns|] == turns;
  }

  lemma {:induction false} AfterAppend(c: Setup, s: Shared, xs: seq<Turn>, ys: seq<Turn>)
    requires Typed(c, s)
    ensures After(c, s, xs + ys) == After(c, After(c, s, xs), ys)
    decreases |ys|
  {
    if ys == [] {
      assert xs + ys == xs;
    } else {
      var front, y := ys[..|ys| - 1], ys[|ys| - 1];
      AfterAppend(c, s, xs, front);
      assert xs + ys == (xs + front) + [y];
      AfterNext(c, s, xs + front, y);
    }
  }

  lemma NextNth(c: Setup, buf: seq<Byte>, i: nat, t: Thread, n: nat)
    requires n < 8 && t.at == Nth(n) && c.pingReq > 0 && c.len <= |buf|
    ensures var t' := Next(c, buf, t); t'.at == Nth(n + 1) && t'.d == t.d && t'.sequence == t.sequence
    ensures t.at != Emit && (t.at == Number <==> n == 3)
    ensures forall holder :: n < 3 ==> HolderAfter(c, holder, i, t) == holder
  {
  }

  /** Sender `i`, on its own, is `n` statements into its first probe; the others are where
      they were, and nothing has been sent. */
  ghost predicate Advanced(c: Setup, s: Shared, s': Shared, i: nat, n: nat)
    requires i < |s.threads| && n <= 8
  {
    && |s'.threads| == |s.threads| && s'.sent == s.sent
    && s'.threads[i].at == Nth(n) && s'.threads[i].d == s'.threads[i].sequence == 0
    && (forall j :: 0 <= j < |s.threads| && j != i ==> s'.threads[j] == s.threads[j])
    && (c.exclusive && n <= 3 ==> s'.holder == s.holder)
    && s'.proto.listening == s.proto.listening
  }

  lemma AdvanceOne(c: Setup, s: Shared, s1: Shared, i: nat, n: nat)
    requires Typed(c, s) && Typed(c, s1) && n < 8 && i < |s.threads| && HasProbe(c, i, 0, 0)
    requires c.exclusive ==> s.holder == None
    requires Advanced(c, s, s1, i, n)
    ensures Advanced(c, s, Move(c, s1, i), i, n + 1)
  {
    NextNth(c, s1.buf, i, s1.threads[i], n);
    assert Can(c, s1, i);
    MoveIs(c, s1, i);
  }

  lemma {:induction false} Advance(c: Setup, s: Shared, i: nat, n: nat)
    requires Typed(c, s) && n <= 8 && i < |s.threads| && s.threads[i] == Thread(Point, 0, 0, 0)
    requires (c.exclusive ==> s.holder == None) && HasProbe(c, i, 0, 0)
    ensures Advanced(c, s, After(c, s, Turns(i, n)), i, n)
  {
    if n == 0 {
      assert After(c, s, []) == s && Nth(0) == Point;
    } else {
      Advance(c, s, i, n - 1);
      AfterNext(c, s, Turns(i, n - 1), OfSender(i));
      AdvanceOne(c, s, After(c, s, Turns(i, n - 1)), i, n - 1);
    }
  }

  /** Sender `i` is about to send its first packet, and then `j` copies its payload. */
  lemma PayloadReplaced(c: Setup, s: Shared, i: nat, j: nat) returns (turns: seq<Turn>)
    requires Start(c, s) && !c.exclusive && i != j && HasProbe(c, i, 0, 0) && HasProbe(c, j, 0, 0)
    ensures var s' := After(c, s, turns);
      s'.threads[i].at == Emit && s'.threads[i].d == s'.threads[i].sequence == 0 && s'.sent[i] == []
      && s'.writer == Some(j)
  {
    turns := Turns(i, 8) + Turns(j, 5);
    Advance(c, s, i, 8);
    var s1 := After(c, s, Turns(i, 8));
    Advance(c, s1, j, 4);
    Advance(c, s1, j, 5);
    AfterAppend(c, s, Turns(i, 8), Turns(j, 5));
    AfterNext(c, s1, Turns(j, 4), OfSender(j));
    var s2 := After(c, s1, Turns(j, 4));
    assert Nth(4) == Body && Nth(8) == Emit && Can(c, s2, j);
    MoveIs(c, s2, j);
  }

  /** Without a mutex over it, any sender can send the payload of any other. */
  lemma AnyTwoRace(c: Setup, s: Shared, i: nat, j: nat) returns (turns: seq<Turn>)
    requires Start(c, s) && !c.exclusive && i != j && HasProbe(c, i, 0, 0) && HasProbe(c, j, 0, 0)
    ensures !Exact(c, i, After(c, s, turns).sent[i])
  {
    var before := PayloadReplaced(c, s, i, j);
    turns := before + [OfSender(i)];
    SendExactIff(c, s, before, i);
    AfterNext(c, s, before, OfSender(i));
    assert Can(c, After(c, s, before), i);
    assert After(c, s, turns).sent[i][0].bytes != PacketOf(c, JobOf(c, i, 0, 0));
  }

  /** A sender about to send its first packet sends it where `pr` leads. */
  lemma SendsWhereFound(c: Setup, s: Shared, before: seq<Turn>, i: nat) returns (turns: seq<Turn>)
    requires Typed(c, s) && i < |c.jobs| && After(c, s, before).threads[i].at == Emit
    requires After(c, s, before).sent[i] == []
    ensures var sent := After(c, s, turns).sent[i];
      sent != [] && sent[0].to == Found(After(c, s, before).proto)
  {
    turns := before + [OfSender(i)];
    AfterNext(c, s, before, OfSender(i));
    assert Can(c, After(c, s, before), i);
  }

  /** A sender that starts leads `pr` to the placeholder. */
  lemma StartsWithPlaceholder(c: Setup, s: Shared, j: nat)
    requires Typed(c, s) && j < |s.threads| && s.threads[j] == Thread(Point, 0, 0, 0)
    ensures var s' := After(c, s, [OfSender(j), OfSender(j)]);
      && Found(s'.proto) == Placeholder && s'.sent == s.sent
      && |s'.threads| == |s.threads|
      && forall i :: 0 <= i < |s.threads| && i != j ==> s'.threads[i] == s.threads[i]
  {
    var turn := OfSender(j);
    assert After(c, s, []) == s;
    assert [] + [turn] == [turn];
    AfterNext(c, s, [], turn);
    var s1 := After(c, s, [turn]);
    assert Can(c, s, j) && Can(c, s1, j);
    assert [turn] + [turn] == [turn, turn];
    AfterNext(c, s, [turn], turn);
    MoveIs(c, s, j);
    MoveIs(c, s1, j);
  }

  /** Sender `i` is about to send its first packet when `j` starts. Even with the mutex
      the packet goes to the placeholder address. */
  lemma AddressRace(c: Setup, s: Shared, i: nat, j: nat) returns (turns: seq<Turn>)
    requires Start(c, s) && i != j && HasProbe(c, i, 0, 0) && HasProbe(c, j, 0, 0)
    ensures var sent := After(c, s, turns).sent[i]; sent != [] && sent[0].to == Placeholder
  {
    Advance(c, s, i, 8);
    assert Nth(8) == Emit;
    StartsWithPlaceholder(c, After(c, s, Turns(i, 8)), j);
    AfterAppend(c, s, Turns(i, 8), [OfSender(j), OfSender(j)]);
    turns := SendsWhereFound(c, s, Turns(i, 8) + [OfSender(j), OfSender(j)], i);
  }

  /** Any sender, be it the only one, is about to send its first packet when the receiver
      starts: the packet goes nowhere. */
  lemma ReceiverRace(c: Setup, s: Shared, i: nat) returns (turns: seq<Turn>)
    requires Start(c, s) && HasProbe(c, i, 0, 0) && c.receiverToCome
    ensures var sent := After(c, s, turns).sent[i]; sent != [] && sent[0].to == Null
  {
    Advance(c, s, i, 8);
    assert Nth(8) == Emit;
    AfterNext(c, s, Turns(i, 8), OfReceiver);
    turns := SendsWhereFound(c, s, Turns(i, 8) + [OfReceiver], i);
  }

  // ----- addresses -----

  ghost predicate NothingToSend(c: Setup) { c.jobs == [] || c.dsts == 0 || c.pingReq == 0 }

  /** One sender, and the receiver has started. */
  ghost predicate Settled(c: Setup) { |c.jobs| <= 1 && !c.receiverToCome }

  /** The datagrams of a sender, and what it finds in `pr` if all is settled. */
  ghost predicate OwnAddress(c: Setup, p: Proto, t: Thread, sent: seq<Datagram>) {
    && Addressed(sent)
    && (Settled(c) ==>
          && p.listening
          && (t.at != Point ==> p.pr.Global?)
          && (Started(t) ==> p.global == To(t.d)))
  }

  ghost predicate OwnAddresses(c: Setup, s: Shared) {
    && |s.threads| == |s.sent|
    && (Settled(c) ==> s.proto.listening)
    && forall j :: 0 <= j < |s.threads| ==> OwnAddress(c, s.proto, s.threads[j], s.sent[j])
  }

  lemma AddressStep(c: Setup, s: Shared, i: nat)
    requires Typed(c, s) && (Settled(c) || NothingToSend(c)) && Can(c, s, i) && OwnAddresses(c, s)
    ensures OwnAddresses(c, Move(c, s, i))
  {
    var s' := Move(c, s, i);
    forall j | 0 <= j < |s.threads| ensures OwnAddress(c, s'.proto, s'.threads[j], s'.sent[j]) {
      assert OwnAddress(c, s.proto, s.threads[j], s.sent[j]) && OwnAddress(c, s.proto, s.threads[i], s.sent[i]);
      assert ThreadTyped(c, j, s.threads[j]);
    }
  }

  lemma AddressTurn(c: Setup, s: Shared, turn: Turn)
    requires Typed(c, s) && (Settled(c) || NothingToSend(c)) && OwnAddresses(c, s)
    ensures OwnAddresses(c, Take(c, s, turn))
  {
    if turn.OfSender? {
      if Can(c, s, turn.i) {
        AddressStep(c, s, turn.i);
      }
    } else {
      var s' := Take(c, s, turn);
      forall j | 0 <= j < |s.threads| ensures OwnAddress(c, s'.proto, s'.threads[j], s'.sent[j]) {
        assert OwnAddress(c, s.proto, s.threads[j], s.sent[j]);
      }
    }
  }

  lemma {:induction false} RunAddressed(c: Setup, s: Shared, turns: seq<Turn>)
    requires Start(c, s) && (Settled(c) || NothingToSend(c))
    ensures OwnAddresses(c, After(c, s, turns))
    decreases |turns|
  {
    if turns != [] {
      RunAddressed(c, s, turns[..|turns| - 1]);
      AddressTurn(c, After(c, s, turns[..|turns| - 1]), turns[|turns| - 1]);
    }
  }

  // ----- the exact conditions -----

  /** Whatever the order of the turns and the first contents of the buffer, every
      packet sent is the packet of its probe. */
  ghost predicate AlwaysExact(c: Setup) {
    forall s, turns :: Start(c, s) ==> AllExact(c, After(c, s, turns))
  }

  ghost predicate AlwaysAddressed(c: Setup) {
    forall s, turns :: Start(c, s) ==> AllAddressed(After(c, s, turns))
  }

  lemma AStart(c: Setup) returns (s: Shared)
    requires Valid(c)
    ensures Start(c, s)
  {
    var n := |c.jobs|;
    s := Shared(seq(c.size, _ => 0), Proto(Global, Null, Null, !c.receiverToCome),
                seq(n, _ => Thread(Point, 0, 0, 0)), seq(n, _ => []), None, None);
  }

  /** The packets of all runs are right if and only if one sender at most has something
      to send, or a mutex is held from the number to the send. The program holds none. */
  lemma AlwaysExactIff(c: Setup)
    requires Valid(c)
    ensures AlwaysExact(c) <==> c.exclusive || Lone(c)
  {
    if c.exclusive || Lone(c) {
      forall s, turns | Start(c, s) ensures AllExact(c, After(c, s, turns)) {
        RunSolo(c, s, turns);
      }
    } else {
      var s := AStart(c);
      var turns := AnyTwoRace(c, s, 0, 1);
      assert !AllExact(c, After(c, s, turns));
    }
  }

  /** The packets of all runs go where they should if and only if there is nothing to
      send, or one sender alone, started after the receiver. A mutex over filling and
      sending does not help: the address is set before, every sender starts by setting the
      placeholder, and the receiver by setting `pr`. */
  lemma AlwaysAddressedIff(c: Setup)
    requires Valid(c)
    ensures AlwaysAddressed(c) <==> NothingToSend(c) || Settled(c)
  {
    if NothingToSend(c) || Settled(c) {
      forall s, turns | Start(c, s) ensures AllAddressed(After(c, s, turns)) {
        RunAddressed(c, s, turns);
        var s' := After(c, s, turns);
        forall j | 0 <= j < |s'.sent| ensures Addressed(s'.sent[j]) {
          assert OwnAddress(c, s'.proto, s'.threads[j], s'.sent[j]);
        }
      }
    } else {
      var s := AStart(c);
      var turns := Misaddressed(c, s);
      assert !Addressed(After(c, s, turns).sent[0]);
    }
  }

  lemma Misaddressed(c: Setup, s: Shared) returns (turns: seq<Turn>)
    requires Start(c, s) && !NothingToSend(c) && !Settled(c)
    ensures !Addressed(After(c, s, turns).sent[0])
  {
    if |c.jobs| > 1 {
      turns := AddressRace(c, s, 0, 1);
    } else {
      turns := ReceiverRace(c, s, 0);
    }
    assert After(c, s, turns).sent[0][0].to != To(After(c, s, turns).sent[0][0].d);
  }

  // ----- the senders of the program -----

  /** The senders of one probe round: the peer and the thread of each, and what each
      reads from the clocks and from fresh memory for every probe. */
  datatype Crew = Crew(o: Order, size: nat, pid: nat, probe: int, pingReq: nat, maxLoad: nat, dsts: nat,
                       peers: seq<int>, threads: seq<nat>, ts: seq<seq<seq<Moment>>>)

  function BatchOf(g: Crew, i: nat): Batch
    requires i < |g.peers| == |g.threads|
  {
    Batch(g.pid, g.peers[i], g.probe, g.threads[i], g.pingReq, g.maxLoad)
  }

  /** Peers are the keys of one map, so no two senders have the same. */
  ghost predicate ValidCrew(g: Crew) {
    && |g.peers| == |g.threads| == |g.ts|
    && g.pid < 0x1_0000 && 8 + 44 + PADDING + g.maxLoad <= g.size <= 131074
    && (forall i :: 0 <= i < |g.peers| ==> ValidBatch(BatchOf(g, i), g.size))
    && (forall i, j :: 0 <= i < |g.peers| && 0 <= j < |g.peers| && i != j ==> g.peers[i] != g.peers[j])
    && (forall i :: 0 <= i < |g.ts| ==> |g.ts[i]| == g.dsts)
    && (forall i, d :: 0 <= i < |g.ts| && 0 <= d < g.dsts ==> Moments(BatchOf(g, i), g.ts[i][d]))
  }

  ghost predicate IsProbe(g: Crew, i: nat, d: nat, sequence: nat) {
    ValidCrew(g) && i < |g.peers| && d < g.dsts && sequence < g.pingReq
  }

  ghost function MomentOf(g: Crew, i: nat, d: nat, sequence: nat): (t: Moment)
    requires IsProbe(g, i, d, sequence)
    ensures ValidMoment(t)
  {
    assert Moments(BatchOf(g, i), g.ts[i][d]);
    g.ts[i][d][sequence]
  }

  ghost function JobFor(g: Crew, i: nat, d: nat, sequence: nat): Job
    requires IsProbe(g, i, d, sequence)
  {
    var t := MomentOf(g, i, d, sequence);
    Job(Bytes(g.o, 2, sequence % 0x1_0000),
        Payload(g.o, RequestOf(BatchOf(g, i), sequence, t)) + Pad(g.maxLoad, t))
  }

  ghost function JobsOf(g: Crew): seq<seq<seq<Job>>>
    requires ValidCrew(g)
  {
    seq(|g.peers|, i requires 0 <= i < |g.peers| =>
      seq(g.dsts, d requires 0 <= d < g.dsts =>
        seq(g.pingReq, q requires 0 <= q < g.pingReq => JobFor(g, i, d, q))))
  }

  ghost function SetupOf(g: Crew, exclusive: bool, receiverToCome: bool): Setup
    requires ValidCrew(g)
  {
    Setup(g.o, g.size, 8 + 44 + PADDING + g.maxLoad, Bytes(g.o, 2, g.pid), g.dsts, g.pingReq, JobsOf(g), exclusive,
          receiverToCome)
  }

  lemma PayloadNames(o: Order, q: Request, pad: seq<Byte>)
    requires Representable(q)
    ensures var body := Payload(o, q) + pad;
      |body| == 44 + |pad| && ReadPayload(o, body[..44]).peer == q.peer
  {
    ReadInvertsPayload(o, q);
    PayloadFirst(Payload(o, q), pad);
  }

  lemma JobShape(g: Crew, i: nat, d: nat, sequence: nat)
    requires IsProbe(g, i, d, sequence)
    ensures var job := JobFor(g, i, d, sequence);
      |job.number| == 2 && |job.body| == 44 + PADDING + g.maxLoad && ReadPayload(g.o, job.body[..44]).peer == g.peers[i]
  {
    var t := MomentOf(g, i, d, sequence);
    assert ValidBatch(BatchOf(g, i), g.size);
    ShortField(g.o, sequence % 0x1_0000);
    PayloadNames(g.o, RequestOf(BatchOf(g, i), sequence, t), Pad(g.maxLoad, t));
  }

  lemma PayloadFirst(payload: seq<Byte>, pad: seq<Byte>)
    ensures (payload + pad)[..|payload|] == payload
  {
  }

  lemma ProbesFit(g: Crew, c: Setup, i: nat, d: nat, q: nat)
    requires ValidCrew(g) && c.jobs == JobsOf(g) && c.dsts == g.dsts && c.pingReq == g.pingReq
    requires c.len == 8 + 44 + PADDING + g.maxLoad && HasProbe(c, i, d, q)
    ensures ProbeFits(c, i, d, q) && c.jobs[i][d][q] == JobFor(g, i, d, q)
  {
    JobShape(g, i, d, q);
  }

  lemma PayloadsDiffer(g: Crew, i: nat, d: nat, q: nat, j: nat, d': nat, q': nat)
    requires IsProbe(g, i, d, q) && IsProbe(g, j, d', q') && i != j
    ensures JobFor(g, i, d, q).body != JobFor(g, j, d', q').body
  {
    JobShape(g, i, d, q);
    JobShape(g, j, d', q');
  }

  /** The senders of a round are senders of the machine above: their payloads differ,
      for they name their peers. */
  lemma SetupValid(g: Crew, exclusive: bool, receiverToCome: bool)
    requires ValidCrew(g)
    ensures Valid(SetupOf(g, exclusive, receiverToCome))
  {
    var c := SetupOf(g, exclusive, receiverToCome);
    ShortField(g.o, g.pid);
    forall i: nat, d: nat, q: nat | HasProbe(c, i, d, q) ensures ProbeFits(c, i, d, q) {
      ProbesFit(g, c, i, d, q);
    }
    forall i: nat, d: nat, q: nat, j: nat, d': nat, q': nat
      | HasProbe(c, i, d, q) && HasProbe(c, j, d', q') && i != j
      ensures c.jobs[i][d][q].body != c.jobs[j][d'][q'].body
    {
      ProbesFit(g, c, i, d, q);
      ProbesFit(g, c, j, d', q');
      PayloadsDiffer(g, i, d, q, j, d', q');
    }
  }

  /** What counts as exact is what a sender alone on the buffer sends. */
  lemma PacketIs(g: Crew, exclusive: bool, receiverToCome: bool, i: nat, d: nat, sequence: nat)
    requires IsProbe(g, i, d, sequence) && Valid(SetupOf(g, exclusive, receiverToCome))
    ensures ValidBatch(BatchOf(g, i), g.size)
    ensures var c := SetupOf(g, exclusive, receiverToCome);
      HasProbe(c, i, d, sequence)
      && PacketOf(c, JobOf(c, i, d, sequence)) == Packet(g.o, BatchOf(g, i), sequence, MomentOf(g, i, d, sequence))
  {
    var t := MomentOf(g, i, d, sequence);
    MessageIs(g.o, g.pid, RequestOf(BatchOf(g, i), sequence, t), Pad(g.maxLoad, t));
  }

  /** A round sends the packets of its probes, in every interleaving, if and only if it
      has at most one peer, or nothing to send. They go to their destinations if and only
      if there is nothing to send, or one peer and a receiver that has started. */
  lemma CrewExactIff(g: Crew, receiverToCome: bool)
    requires ValidCrew(g)
    ensures var c := SetupOf(g, false, receiverToCome);
      && Valid(c)
      && (AlwaysExact(c) <==> |g.peers| <= 1 || g.dsts == 0 || g.pingReq == 0)
      && (AlwaysAddressed(c) <==>
            g.peers == [] || g.dsts == 0 || g.pingReq == 0 || (|g.peers| == 1 && !receiverToCome))
  {
    SetupValid(g, false, receiverToCome);
    AlwaysExactIff(SetupOf(g, false, receiverToCome));
    AlwaysAddressedIff(SetupOf(g, false, receiverToCome));
  }
}
