/**
 The stop handshake never traps main: from every state it can get to, main can still come
 to process the tables with an acknowledgement, and from there shut down or go on to the
 next round.
 */
module Progress {
  import opened Tables
  import opened Handshake

  // ----- how far it is -----

  /** Steps of main to the end of the processing, if the receiver acknowledges in time. */
  function MainRank(s: Sys): nat {
    match s.main
    case Delete => 0
    case UnlockFree => 1
    case FreeRecords => 2
    case LockFree => 3
    case Scan => 4
    case Update => 5
    case Test => if s.flag.sendStopped then 6 else 16
    case LockProcess => if s.flag.sendStopped then 7 else 9
    case UnlockAsk => 10
    case Ask => 11
    case LockAsk => 12
    case Join => 13
    case Spawn => 14
    case UnlockProcess => 15
    case Announce => 16
    case ClearReq => 17
    case ClearSend => 18
    case Exited => 0
  }

  function SenderRank(t: Sender): nat {
    match t
    case Finished => 0
    case Sending => 1
    case Printing => 2
    case WantsPrint => 3
  }

  function SendersRank(ts: seq<Sender>): nat {
    if ts == [] then 0 else SendersRank(ts[..|ts| - 1]) + SenderRank(ts[|ts| - 1])
  }

  /** Main waits for the receiver to acknowledge. */
  predicate AwaitsAck(s: Sys) { s.main.LockProcess? && !s.flag.sendStopped }

  function WaitRank(s: Sys): nat { if MainWaits(s) && !AwaitsAck(s) then 1 else 0 }

  function ReceiverRank(s: Sys): nat {
    match s.recv
    case NotStarted => 0
    case UnlockAck => if AwaitsAck(s) then 5 else 1
    case Ack => 2
    case LockAck => 3
    case Select => 4
    case UnlockFile => 6
    case File => 7
    case LockFile => 8
  }

  ghost predicate Closer(s: Sys, t: Sys) {
    MainRank(t) < MainRank(s)
    || (MainRank(t) == MainRank(s) &&
        (SendersRank(t.senders) < SendersRank(s.senders)
         || (SendersRank(t.senders) == SendersRank(s.senders) &&
             (WaitRank(t) < WaitRank(s) || (WaitRank(t) == WaitRank(s) && ReceiverRank(t) < ReceiverRank(s))))))
  }

  lemma {:induction false} SenderUpdate(ts: seq<Sender>, i: nat, t: Sender)
    requires i < |ts|
    ensures SendersRank(ts[i := t]) + SenderRank(ts[i]) == SendersRank(ts) + SenderRank(t)
  {
    var n := |ts| - 1;
    if i < n {
      SenderUpdate(ts[..n], i, t);
      assert ts[i := t][..n] == ts[..n][i := t];
    } else {
      assert ts[i := t][..n] == ts[..n];
    }
  }

  lemma SenderCloser(s: Sys, i: nat)
    requires SenderCan(s, i, true)
    ensures Closer(s, SenderNext(s, i, true))
  {
    var t := SenderNext(s, i, true);
    SenderUpdate(s.senders, i, t.senders[i]);
  }

  lemma MainCloser(s: Sys)
    requires MainCan(s) && !s.main.Delete? && !AwaitsAck(s)
    ensures Closer(s, MainNext(s, 0, false))
  {
  }

  lemma ReceiverCloser(s: Sys)
    requires Inv(s) && ReceiverCan(s) && (AwaitsAck(s) || MainWaits(s))
    ensures Closer(s, ReceiverNext(s, false, false))
  {
  }

  /** A sender that can finish a statement while main waits for all of them. */
  lemma SomeSender(s: Sys) returns (k: nat)
    requires Inv(s) && !AllFinished(s.senders)
    ensures SenderCan(s, k, true)
  {
    var i :| 0 <= i < |s.senders| && !s.senders[i].Finished?;
    k := if SenderCan(s, i, true) then i else s.lock.mtx0.id;
  }

  lemma WaitedFor(s: Sys)
    requires Inv(s) && (AwaitsAck(s) || MainWaits(s))
    ensures ReceiverCan(s)
  {
  }

  /** A step on the way. */
  lemma StepCloser(s: Sys) returns (a: Action)
    requires Inv(s) && !s.main.Exited? && !s.main.Delete?
    ensures Can(s, a) && Closer(s, Do(s, a)) && Inv(Do(s, a)) && !Do(s, a).main.Exited?
  {
    if s.main.Join? && !AllFinished(s.senders) {
      var k := SomeSender(s);
      a := SenderStep(k, true);
      SenderCloser(s, k);
    } else if AwaitsAck(s) || MainWaits(s) {
      a := ReceiverStep(false, false);
      WaitedFor(s);
      ReceiverCloser(s);
    } else {
      a := MainStep(0, false);
      MainCloser(s);
    }
    StepKeeps(s, a);
  }

  // ----- runs -----

  /** One more action, if it can happen. */
  function Bound(r: Option<Sys>, a: Action): Option<Sys> {
    if r.Some? && Can(r.value, a) then Some(Do(r.value, a)) else None
  }

  lemma RunLast(s: Sys, acts: seq<Action>, a: Action)
    ensures RunFrom(s, acts + [a]) == Bound(RunFrom(s, acts), a)
  {
    assert (acts + [a])[..|acts|] == acts;
  }

  lemma RunFirst(s: Sys, a: Action)
    ensures RunFrom(s, [a]) == Bound(Some(s), a)
  {
    RunLast(s, [], a);
    assert [] + [a] == [a];
  }

  lemma {:induction false} RunCons(s: Sys, a: Action, t: Sys, acts: seq<Action>)
    requires Bound(Some(s), a) == Some(t)
    ensures RunFrom(s, [a] + acts) == RunFrom(t, acts)
  {
    if acts == [] {
      assert [a] + acts == [a];
      RunFirst(s, a);
    } else {
      var front, last := acts[..|acts| - 1], acts[|acts| - 1];
      RunCons(s, a, t, front);
      RunLast(s, [a] + front, last);
      RunLast(t, front, last);
      assert [a] + acts == [a] + front + [last] && acts == front + [last];
    }
  }

  /** `acts` lead from `s` to the end of the processing of a round. */
  ghost predicate LeadsToTables(s: Sys, acts: seq<Action>) {
    var t := RunFrom(s, acts);
    t.Some? && Inv(t.value) && t.value.main.Delete?
  }

  lemma {:induction false} WayToTables(s: Sys) returns (acts: seq<Action>)
    requires Inv(s) && !s.main.Exited?
    ensures LeadsToTables(s, acts)
    decreases MainRank(s), SendersRank(s.senders), WaitRank(s), ReceiverRank(s)
  {
    if s.main.Delete? {
      acts := [];
    } else {
      var a := StepCloser(s);
      var rest := WayToTables(Do(s, a));
      RunCons(s, a, Do(s, a), rest);
      acts := [a] + rest;
    }
  }

  /** Whatever has happened, main can come to process the tables, acknowledged and with all
      senders finished. */
  lemma AlwaysGetsOn(s: Sys) returns (acts: seq<Action>)
    requires Reachable(s) && !s.main.Exited?
    ensures LeadsToTables(s, acts)
    ensures var t := RunFrom(s, acts).value; t.flag.sendStopped && AllFinished(t.senders)
  {
    var before :| RunOf(before) == Some(s);
    RunInv(before);
    acts := WayToTables(s);
  }

  /** Whatever has happened, the daemon can still be shut down. */
  lemma CanShutDown(s: Sys) returns (acts: seq<Action>)
    requires Reachable(s) && !s.main.Exited?
    ensures RunFrom(s, acts).Some? && RunFrom(s, acts).value.main.Exited?
  {
    var way := AlwaysGetsOn(s);
    RunNext(s, way, MainStep(0, true));
    acts := way + [MainStep(0, true)];
  }

  /** Main takes a step and does not shut down. */
  predicate Goes(s: Sys, t: Sys) { Bound(Some(s), MainStep(0, false)) == Some(t) }

  ghost predicate IsPath(path: seq<Sys>) { forall i: nat :: i + 1 < |path| ==> Goes(path[i], path[i + 1]) }

  /** `n` steps of main. */
  function Mains(n: nat): seq<Action> { seq(n, _ => MainStep(0, false)) }

  lemma RunGoes(s: Sys, acts: seq<Action>, n: nat, t: Sys, t': Sys)
    requires RunFrom(s, acts + Mains(n)) == Some(t) && Goes(t, t')
    ensures RunFrom(s, acts + Mains(n + 1)) == Some(t')
  {
    RunLast(s, acts + Mains(n), MainStep(0, false));
    assert acts + Mains(n + 1) == acts + Mains(n) + [MainStep(0, false)];
  }

  lemma {:induction false} RunPath(s: Sys, acts: seq<Action>, path: seq<Sys>, n: nat)
    requires n < |path| && IsPath(path) && RunFrom(s, acts) == Some(path[0])
    ensures RunFrom(s, acts + Mains(n)) == Some(path[n])
  {
    if n == 0 {
      assert acts + Mains(0) == acts;
    } else {
      RunPath(s, acts, path, n - 1);
      RunGoes(s, acts, n - 1, path[n - 1], path[n]);
    }
  }

  /** From the end of the processing main takes both flags back, announces under its lock,
      and starts the next round. */
  lemma EndOf(t: Sys) returns (path: seq<Sys>)
    requires Inv(t) && t.main.Delete?
    ensures |path| == 6 && path[0] == t && IsPath(path)
    ensures Announcing(t, path[3]) && NextStarts(t, path[5])
  {
    var t1 := MainNext(t, 0, false);
    var t2 := MainNext(t1, 0, false);
    var t3 := MainNext(t2, 0, false);
    var t4 := MainNext(t3, 0, false);
    var t5 := MainNext(t4, 0, false);
    GoesMain(t);
    GoesMain(t1);
    GoesMain(t2);
    GoesMain(t3);
    GoesMain(t4);
    path := [t, t1, t2, t3, t4, t5];
  }

  lemma GoesMain(s: Sys)
    requires MainCan(s)
    ensures Goes(s, MainNext(s, 0, false))
  {
  }

  predicate Announcing(t: Sys, u: Sys) {
    && u.main.Announce? && u.round == t.round && u.lock.mtReqSend.ByMain?
    && !u.flag.reqStopped && !u.flag.sendStopped
  }

  predicate NextStarts(t: Sys, v: Sys) {
    && v.main.Spawn? && v.round == t.round + 1 && v.lock.mtReqSend.Free? && !v.past.lastSkipped
    && !v.flag.reqStopped && !v.flag.sendStopped
  }

  /** Whatever has happened, main can come to announce in an acknowledged round, with both
      flags taken back and still under its lock, and then start the next round. */
  lemma NextRound(s: Sys) returns (acts: seq<Action>, t: Sys, u: Sys, v: Sys)
    requires Reachable(s) && !s.main.Exited?
    ensures LeadsToTables(s, acts) && RunFrom(s, acts) == Some(t)
    ensures RunFrom(s, acts + Mains(3)) == Some(u) && Announcing(t, u)
    ensures RunFrom(s, acts + Mains(5)) == Some(v) && NextStarts(t, v)
  {
    acts := AlwaysGetsOn(s);
    t := RunFrom(s, acts).value;
    var path := EndOf(t);
    RunPath(s, acts, path, 3);
    RunPath(s, acts, path, 5);
    u, v := path[3], path[5];
  }

  /** Any number of senders can be started. */
  lemma CrewStarts(n: nat) returns (s: Sys)
    ensures Reachable(s) && s.main.Join? && |s.senders| == n
    ensures forall i :: 0 <= i < n ==> s.senders[i].Sending?
  {
    assert RunOf([]) == Some(START);
    s := Extend(START, MainStep(n, false));
  }
}
