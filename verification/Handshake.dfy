/**
 The stop handshake between the main loop, the receiver thread and the senders, as
 atomic steps. Main asks for a stop under `mt_req_send`, sleeps, takes `mt_req_send`
 again and processes the tables only if the receiver has acknowledged meanwhile; while
 it holds `mt_req_send` it also takes `mtr` to free records.
 */
module Handshake {
  import opened Tables

  // ----- threads -----

  datatype Main =
    | Spawn | Join                                    // start senders, join them
    | LockAsk | Ask | UnlockAsk                       // req_stopped = 1
    | LockProcess | Test                              // after the sleep
    | Update | Scan | LockFree | FreeRecords | UnlockFree | Delete
    | ClearSend | ClearReq | Announce | UnlockProcess
    | Exited                                          // graceful shutdown

  datatype Receiver =
    | NotStarted | Select | LockFile | File | UnlockFile | LockAck | Ack | UnlockAck

  datatype Sender = Sending | WantsPrint | Printing | Finished

  /** Who holds a mutex. */
  datatype Holder = Free | ByMain | ByReceiver | BySender(id: nat)

  datatype Mutexes = Mutexes(mtReqSend: Holder, mtr: Holder, mtx0: Holder)

  datatype Flags = Flags(reqStopped: bool, sendStopped: bool)

  /** History: replies filed since main took `mt_req_send` to process, whether main has
      asked in this round, whether the acknowledgement came after that, whether this
      round is skipped, and whether the round before was; whether main has freed records
      in this round; and how many packets came in and how many were filed, ever. */
  datatype History = History(filed: nat, asked: bool, ackedAfterAsk: bool, skipping: bool, lastSkipped: bool,
                             freed: bool, came: nat, kept: nat)

  datatype Sys = Sys(main: Main, recv: Receiver, senders: seq<Sender>, round: nat,
                     lock: Mutexes, flag: Flags, past: History)

  const START := Sys(Spawn, NotStarted, [], 0, Mutexes(Free, Free, Free), Flags(false, false),
                     History(0, false, false, false, false, false, 0, 0))

  // ----- steps -----

  /** Who moves, and what the environment decides for it. */
  datatype Action =
    | MainStep(senders: nat, shutdown: bool)
    | ReceiverStep(packet: bool, interrupted: bool)
    | SenderStep(id: nat, finish: bool)

  predicate AllFinished(senders: seq<Sender>) {
    forall i :: 0 <= i < |senders| ==> senders[i].Finished?
  }

  predicate MainCan(s: Sys) {
    && !s.main.Exited?
    && (s.main.Join? ==> AllFinished(s.senders))
    && (s.main.LockAsk? || s.main.LockProcess? ==> s.lock.mtReqSend.Free?)
    && (s.main.LockFree? ==> s.lock.mtr.Free?)
  }

  function MainNext(s: Sys, n: nat, shutdown: bool): Sys
    requires MainCan(s)
  {
    match s.main
    case Spawn =>
      s.(main := Join, senders := seq(n, _ => Sending), lock := s.lock.(mtx0 := Free),
         recv := if s.recv.NotStarted? then Select else s.recv,
         past := s.past.(asked := false, ackedAfterAsk := false))
    case Join => s.(main := LockAsk)
    case LockAsk => s.(main := Ask, lock := s.lock.(mtReqSend := ByMain))
    case Ask => s.(main := UnlockAsk, flag := s.flag.(reqStopped := true), past := s.past.(asked := true))
    case UnlockAsk => s.(main := LockProcess, lock := s.lock.(mtReqSend := Free))
    case LockProcess => s.(main := Test, lock := s.lock.(mtReqSend := ByMain), past := s.past.(filed := 0))
    case Test =>
      s.(main := if s.flag.sendStopped then Update else UnlockProcess,
         past := s.past.(skipping := !s.flag.sendStopped, freed := false))
    case Update => s.(main := Scan)
    case Scan => s.(main := if s.round < 2 then Delete else LockFree)
    case LockFree => s.(main := FreeRecords, lock := s.lock.(mtr := ByMain))
    case FreeRecords => s.(main := UnlockFree, past := s.past.(freed := true))
    case UnlockFree => s.(main := Delete, lock := s.lock.(mtr := Free))
    case Delete => s.(main := if shutdown then Exited else ClearSend)
    case ClearSend => s.(main := ClearReq, flag := s.flag.(sendStopped := false))
    case ClearReq => s.(main := Announce, flag := s.flag.(reqStopped := false))
    case Announce => s.(main := UnlockProcess)
    case UnlockProcess =>
      s.(main := Spawn, round := s.round + 1, lock := s.lock.(mtReqSend := Free),
         past := s.past.(lastSkipped := s.past.skipping))
  }

  predicate ReceiverCan(s: Sys) {
    && !s.recv.NotStarted?
    && (s.recv.LockFile? ==> s.lock.mtr.Free?)
    && (s.recv.LockAck? ==> s.lock.mtReqSend.Free?)
  }

  function ReceiverNext(s: Sys, packet: bool, interrupted: bool): Sys
    requires ReceiverCan(s)
  {
    match s.recv
    case Select =>
      if interrupted then s
      else if packet then s.(recv := LockFile, past := s.past.(came := s.past.came + 1))
      else s.(recv := LockAck)
    case LockFile => s.(recv := File, lock := s.lock.(mtr := ByReceiver))
    case File => s.(recv := UnlockFile, past := s.past.(filed := s.past.filed + 1, kept := s.past.kept + 1))
    case UnlockFile => s.(recv := LockAck, lock := s.lock.(mtr := Free))
    case LockAck => s.(recv := Ack, lock := s.lock.(mtReqSend := ByReceiver))
    case Ack =>
      if s.flag.reqStopped
      then s.(recv := UnlockAck, flag := s.flag.(sendStopped := true),
              past := s.past.(ackedAfterAsk := s.past.asked))
      else s.(recv := UnlockAck)
    case UnlockAck => s.(recv := Select, lock := s.lock.(mtReqSend := Free))
  }

  predicate SenderCan(s: Sys, i: nat, finish: bool) {
    && i < |s.senders| && !s.senders[i].Finished?
    && (s.senders[i].WantsPrint? ==> s.lock.mtx0.Free?)
  }

  function SenderNext(s: Sys, i: nat, finish: bool): Sys
    requires SenderCan(s, i, finish)
  {
    match s.senders[i]
    case Sending =>
      if finish then s.(senders := s.senders[i := Finished]) else s.(senders := s.senders[i := WantsPrint])
    case WantsPrint => s.(senders := s.senders[i := Printing], lock := s.lock.(mtx0 := BySender(i)))
    case Printing => s.(senders := s.senders[i := Sending], lock := s.lock.(mtx0 := Free))
  }

  /** The process is gone once main exits. */
  predicate Can(s: Sys, a: Action) {
    !s.main.Exited? &&
    match a
    case MainStep(n, shutdown) => MainCan(s)
    case ReceiverStep(packet, interrupted) => ReceiverCan(s)
    case SenderStep(i, finish) => SenderCan(s, i, finish)
  }

  function Do(s: Sys, a: Action): Sys
    requires Can(s, a)
  {
    match a
    case MainStep(n, shutdown) => MainNext(s, n, shutdown)
    case ReceiverStep(packet, interrupted) => ReceiverNext(s, packet, interrupted)
    case SenderStep(i, finish) => SenderNext(s, i, finish)
  }

  /** The state after the actions `acts` from `s`, if all of them can happen. */
  function RunFrom(s: Sys, acts: seq<Action>): Option<Sys> {
    if acts == [] then Some(s)
    else
      var r := RunFrom(s, acts[..|acts| - 1]);
      var a := acts[|acts| - 1];
      if r.Some? && Can(r.value, a) then Some(Do(r.value, a)) else None
  }

  function RunOf(acts: seq<Action>): Option<Sys> { RunFrom(START, acts) }

  /** Some interleaving leads to `s`. */
  ghost predicate Reachable(s: Sys) { exists acts :: RunOf(acts) == Some(s) }

  // ----- invariant -----

  /** Main holds `mt_req_send`. */
  predicate MainHolds(m: Main) { !(m.Spawn? || m.Join? || m.LockAsk? || m.LockProcess?) }

  /** Main holds `mt_req_send` for the second time in the round. */
  predicate Processing(m: Main) { MainHolds(m) && !m.Ask? && !m.UnlockAsk? }

  /** Main reads or changes the tables. */
  predicate AtTables(m: Main) {
    (m.Update? || m.Scan? || m.LockFree? || m.FreeRecords? || m.UnlockFree? || m.Delete?)
  }

  ghost predicate RequestLock(s: Sys) {
    && (s.lock.mtReqSend.ByMain? <==> MainHolds(s.main))
    && (s.lock.mtReqSend.ByReceiver? <==> (s.recv.Ack? || s.recv.UnlockAck?))
    && !s.lock.mtReqSend.BySender?
  }

  ghost predicate TableLock(s: Sys) {
    && (s.lock.mtr.ByMain? <==> (s.main.FreeRecords? || s.main.UnlockFree?))
    && (s.lock.mtr.ByReceiver? <==> (s.recv.File? || s.recv.UnlockFile?))
    && !s.lock.mtr.BySender?
  }

  ghost predicate SenderLocks(s: Sys) {
    && (s.lock.mtx0.Free? ||
        (s.lock.mtx0.BySender? && s.lock.mtx0.id < |s.senders| && s.senders[s.lock.mtx0.id].Printing?))
    && (!s.main.Join? ==> AllFinished(s.senders))
    && (s.recv.NotStarted? ==> s.main.Spawn?)
  }

  ghost predicate FlagsAgree(s: Sys) {
    && (s.flag.sendStopped ==> s.flag.reqStopped)
    && (AtTables(s.main) ==> s.flag.sendStopped && !s.past.skipping)
    && ((s.main.UnlockAsk? || s.main.LockProcess? || s.main.Test?) ==> s.flag.reqStopped)
    && (s.past.asked <==>
        !(s.main.Spawn? || s.main.Join? || s.main.LockAsk? || s.main.Ask?) || (s.main.Spawn? && s.past.asked))
    && (s.past.ackedAfterAsk ==> s.past.asked)
  }

  ghost predicate Window(s: Sys) {
    Processing(s.main) ==> s.past.filed == 0 || (s.past.filed == 1 && (s.recv.UnlockFile? || s.recv.LockAck?))
  }

  /** A request left over from before this round's own comes from a skipped round, and
      so does an acknowledgement older than it. */
  ghost predicate Leftovers(s: Sys) {
    && ((s.main.Join? || s.main.LockAsk? || s.main.Ask?) && s.flag.reqStopped ==> s.past.lastSkipped)
    && (s.main.UnlockProcess? && !s.past.skipping ==> !s.flag.reqStopped)
    && ((s.main.ClearReq? || s.main.Announce?) ==> !s.flag.sendStopped)
    && (s.main.Announce? ==> !s.flag.reqStopped)
    && (s.main.Spawn? && s.flag.reqStopped ==> s.past.lastSkipped)
    && (!s.main.Spawn? && s.flag.sendStopped && !s.past.ackedAfterAsk ==> s.past.lastSkipped)
    && ((s.main.ClearSend? || s.main.ClearReq? || s.main.Announce?) ==> !s.past.skipping)
  }

  /** Records are freed from round 2 on. */
  ghost predicate Freeing(s: Sys) {
    && (s.main.LockFree? || s.main.FreeRecords? || s.main.UnlockFree? ==> s.round >= 2)
    && ((s.main.Update? || s.main.Scan? || s.main.LockFree? || s.main.FreeRecords?) ==> !s.past.freed)
    && (s.main.UnlockFree? ==> s.past.freed)
    && (s.main.Delete? ==> (s.past.freed <==> s.round >= 2))
  }

  /** Every packet that came in is filed, but for the one the receiver is at. */
  ghost predicate Keeping(s: Sys) {
    s.past.came == s.past.kept + if s.recv.LockFile? || s.recv.File? then 1 else 0
  }

  ghost predicate Inv(s: Sys) {
    && RequestLock(s) && TableLock(s) && SenderLocks(s) && FlagsAgree(s) && Window(s) && Leftovers(s)
    && Freeing(s) && Keeping(s)
  }

  lemma MainKeepsRequestLock(s: Sys, n: nat, shutdown: bool)
    requires RequestLock(s) && MainCan(s)
    ensures RequestLock(MainNext(s, n, shutdown))
  {
  }

  lemma MainKeepsTableLock(s: Sys, n: nat, shutdown: bool)
    requires TableLock(s) && MainCan(s)
    ensures TableLock(MainNext(s, n, shutdown))
  {
  }

  lemma MainKeepsSenders(s: Sys, n: nat, shutdown: bool)
    requires SenderLocks(s) && MainCan(s)
    ensures SenderLocks(MainNext(s, n, shutdown))
  {
  }

  lemma MainKeepsFlags(s: Sys, n: nat, shutdown: bool)
    requires FlagsAgree(s) && Leftovers(s) && MainCan(s)
    ensures FlagsAgree(MainNext(s, n, shutdown))
  {
  }

  lemma MainKeepsLeftovers(s: Sys, n: nat, shutdown: bool)
    requires FlagsAgree(s) && Leftovers(s) && MainCan(s)
    ensures Leftovers(MainNext(s, n, shutdown))
  {
  }

  lemma MainKeepsWindow(s: Sys, n: nat, shutdown: bool)
    requires Window(s) && MainCan(s)
    ensures Window(MainNext(s, n, shutdown))
  {
  }

  lemma ReceiverKeepsRequestLock(s: Sys, packet: bool, interrupted: bool)
    requires RequestLock(s) && ReceiverCan(s)
    ensures RequestLock(ReceiverNext(s, packet, interrupted))
  {
  }

  lemma ReceiverKeepsTableLock(s: Sys, packet: bool, interrupted: bool)
    requires TableLock(s) && ReceiverCan(s)
    ensures TableLock(ReceiverNext(s, packet, interrupted))
  {
  }

  lemma ReceiverKeepsSenders(s: Sys, packet: bool, interrupted: bool)
    requires SenderLocks(s) && ReceiverCan(s)
    ensures SenderLocks(ReceiverNext(s, packet, interrupted))
  {
  }

  lemma ReceiverKeepsFlags(s: Sys, packet: bool, interrupted: bool)
    requires RequestLock(s) && FlagsAgree(s) && ReceiverCan(s)
    ensures FlagsAgree(ReceiverNext(s, packet, interrupted))
  {
  }

  lemma ReceiverKeepsLeftovers(s: Sys, packet: bool, interrupted: bool)
    requires RequestLock(s) && FlagsAgree(s) && Leftovers(s) && ReceiverCan(s)
    ensures Leftovers(ReceiverNext(s, packet, interrupted))
  {
  }

  lemma ReceiverKeepsWindow(s: Sys, packet: bool, interrupted: bool)
    requires RequestLock(s) && Window(s) && ReceiverCan(s)
    ensures Window(ReceiverNext(s, packet, interrupted))
  {
  }

  lemma MainKeepsRecords(s: Sys, n: nat, shutdown: bool)
    requires Freeing(s) && Keeping(s) && SenderLocks(s) && MainCan(s)
    ensures Freeing(MainNext(s, n, shutdown)) && Keeping(MainNext(s, n, shutdown))
  {
  }

  lemma ReceiverKeepsRecords(s: Sys, packet: bool, interrupted: bool)
    requires Freeing(s) && Keeping(s) && ReceiverCan(s)
    ensures Freeing(ReceiverNext(s, packet, interrupted)) && Keeping(ReceiverNext(s, packet, interrupted))
  {
  }

  lemma SenderKeeps(s: Sys, i: nat, finish: bool)
    requires Inv(s) && SenderCan(s, i, finish)
    ensures Inv(SenderNext(s, i, finish))
  {
  }

  lemma StepKeeps(s: Sys, a: Action)
    requires Inv(s) && Can(s, a)
    ensures Inv(Do(s, a))
  {
    match a
    case MainStep(n, shutdown) =>
      MainKeepsRequestLock(s, n, shutdown);
      MainKeepsTableLock(s, n, shutdown);
      MainKeepsSenders(s, n, shutdown);
      MainKeepsFlags(s, n, shutdown);
      MainKeepsLeftovers(s, n, shutdown);
      MainKeepsWindow(s, n, shutdown);
      MainKeepsRecords(s, n, shutdown);
    case ReceiverStep(packet, interrupted) =>
      ReceiverKeepsRequestLock(s, packet, interrupted);
      ReceiverKeepsTableLock(s, packet, interrupted);
      ReceiverKeepsSenders(s, packet, interrupted);
      ReceiverKeepsFlags(s, packet, interrupted);
      ReceiverKeepsLeftovers(s, packet, interrupted);
      ReceiverKeepsWindow(s, packet, interrupted);
      ReceiverKeepsRecords(s, packet, interrupted);
    case SenderStep(i, finish) =>
      SenderKeeps(s, i, finish);
  }

  lemma {:induction false} RunInv(acts: seq<Action>)
    ensures RunOf(acts).Some? ==> Inv(RunOf(acts).value)
  {
    if acts != [] {
      var front := acts[..|acts| - 1];
      RunInv(front);
      if RunOf(acts).Some? {
        StepKeeps(RunOf(front).value, acts[|acts| - 1]);
      }
    }
  }

  // ----- safety -----

  /** In every reachable state: an acknowledgement stands only while a request does;
      main works on the tables only acknowledged, with every sender of the round
      finished, and never while the receiver acknowledges; the receiver files at most
      one reply between main taking and releasing `mt_req_send` for processing, and none
      while main frees records; when main comes to delete silent destinations it has freed
      records in this round exactly from round 2 on; and every packet that came in has been
      filed once, but for the one the receiver is about to file. */
  lemma HandshakeSafety(s: Sys)
    requires Reachable(s)
    ensures s.flag.sendStopped ==> s.flag.reqStopped
    ensures AtTables(s.main) ==> s.flag.sendStopped && AllFinished(s.senders)
    ensures MainHolds(s.main) ==> !(s.recv.Ack? || s.recv.UnlockAck?)
    ensures Processing(s.main) ==> s.past.filed <= 1
    ensures !((s.main.FreeRecords? || s.main.UnlockFree?) && (s.recv.File? || s.recv.UnlockFile?))
    ensures s.main.Delete? ==> (s.past.freed <==> s.round >= 2)
    ensures s.past.came == s.past.kept + if s.recv.LockFile? || s.recv.File? then 1 else 0
  {
    var acts :| RunOf(acts) == Some(s);
    RunInv(acts);
  }

  /** If the round before was not skipped, the acknowledgement main acts on was given
      after this round's request, so after this round's senders had finished. */
  lemma AcknowledgedAfterAsking(s: Sys)
    requires Reachable(s) && AtTables(s.main) && !s.past.lastSkipped
    ensures s.past.ackedAfterAsk
  {
    var acts :| RunOf(acts) == Some(s);
    RunInv(acts);
  }

  /** A later state of the round in which `s` asks: no acknowledgement yet, or one that
      came after the request. */
  ghost predicate FreshSince(s: Sys, t: Sys) {
    Inv(t) && FreshRound(s, t)
  }

  lemma FreshStep(s: Sys, t: Sys, a: Action)
    requires FreshSince(s, t) && Can(t, a)
    ensures FreshSince(s, Do(t, a))
  {
    StepKeeps(t, a);
    match a
    case MainStep(n, shutdown) => FreshMain(s, t, n, shutdown);
    case ReceiverStep(packet, interrupted) => FreshReceiver(s, t, packet, interrupted);
    case SenderStep(i, finish) =>
  }

  /** The round-bound part of `FreshSince`. */
  ghost predicate FreshRound(s: Sys, t: Sys) {
    && t.round >= s.round
    && (t.round == s.round ==>
          && !(t.main.Spawn? || t.main.Join? || t.main.LockAsk?)
          && (t.flag.sendStopped ==> t.past.ackedAfterAsk))
  }

  lemma FreshMain(s: Sys, t: Sys, n: nat, shutdown: bool)
    requires FreshRound(s, t) && MainCan(t)
    ensures FreshRound(s, MainNext(t, n, shutdown))
  {
  }

  lemma FreshReceiver(s: Sys, t: Sys, packet: bool, interrupted: bool)
    requires FreshRound(s, t) && ReceiverCan(t) && RequestLock(t) && FlagsAgree(t)
    ensures FreshRound(s, ReceiverNext(t, packet, interrupted))
  {
  }

  lemma {:induction false} FreshRun(s: Sys, acts: seq<Action>)
    requires Inv(s) && s.main.Ask? && !s.flag.sendStopped
    ensures RunFrom(s, acts).Some? ==> FreshSince(s, RunFrom(s, acts).value)
  {
    if acts != [] {
      var front := acts[..|acts| - 1];
      FreshRun(s, front);
      if RunFrom(s, acts).Some? {
        FreshStep(s, RunFrom(s, front).value, acts[|acts| - 1]);
      }
    }
  }

  lemma RunNext(s: Sys, acts: seq<Action>, a: Action)
    requires RunFrom(s, acts).Some? && Can(RunFrom(s, acts).value, a)
    ensures RunFrom(s, acts + [a]) == Some(Do(RunFrom(s, acts).value, a))
  {
    assert (acts + [a])[..|acts|] == acts;
  }

  /** Main on its own with an acknowledgement older than its request. */
  ghost predicate StaleAt(s: Sys, acts: seq<Action>, main: Main) {
    var t := RunFrom(s, acts);
    && t.Some? && Inv(t.value) && t.value.main == main && t.value.round == s.round
    && t.value.flag.sendStopped && !t.value.past.ackedAfterAsk
    && (main.LockProcess? ==> t.value.lock.mtReqSend.Free?)
  }

  lemma StaleNext(s: Sys, acts: seq<Action>, main: Main) returns (acts': seq<Action>)
    requires StaleAt(s, acts, main) && (main.Ask? || main.UnlockAsk? || main.LockProcess? || main.Test?)
    ensures StaleAt(s, acts', match main case Ask => UnlockAsk case UnlockAsk => LockProcess case LockProcess => Test
                              case _ => Update)
  {
    var t, a := RunFrom(s, acts).value, MainStep(0, false);
    StepKeeps(t, a);
    RunNext(s, acts, a);
    acts' := acts + [a];
  }

  lemma StaleRun(s: Sys) returns (acts: seq<Action>)
    requires Inv(s) && s.main.Ask? && s.flag.sendStopped
    ensures StaleAt(s, acts, Update)
  {
    assert StaleAt(s, [], Ask);
    acts := StaleNext(s, [], Ask);
    acts := StaleNext(s, acts, UnlockAsk);
    acts := StaleNext(s, acts, LockProcess);
    acts := StaleNext(s, acts, Test);
  }

  /** Whatever happens after main asks in state `s`: if it works on the tables in the same
      round, it does so with an acknowledgement of this request. */
  ghost predicate ActsOnFresh(s: Sys) {
    forall acts :: var t := RunFrom(s, acts);
      t.Some? && AtTables(t.value.main) && t.value.round == s.round ==> t.value.past.ackedAfterAsk
  }

  /** The acknowledgement main acts on comes after its request in every continuation if
      and only if none is standing when it asks. */
  lemma ActsOnFreshIff(s: Sys)
    requires Reachable(s) && s.main.Ask?
    ensures ActsOnFresh(s) <==> !s.flag.sendStopped
  {
    var before :| RunOf(before) == Some(s);
    RunInv(before);
    if s.flag.sendStopped {
      var acts := StaleRun(s);
    } else {
      forall acts | RunFrom(s, acts).Some? ensures FreshSince(s, RunFrom(s, acts).value) {
        FreshRun(s, acts);
      }
    }
  }

  // ----- deadlock freedom -----

  /** Main waits for a mutex. */
  predicate MainWaits(s: Sys) {
    || ((s.main.LockAsk? || s.main.LockProcess?) && !s.lock.mtReqSend.Free?)
    || (s.main.LockFree? && !s.lock.mtr.Free?)
  }

  predicate ReceiverWaits(s: Sys) {
    || (s.recv.LockAck? && !s.lock.mtReqSend.Free?)
    || (s.recv.LockFile? && !s.lock.mtr.Free?)
  }

  /** Main and the receiver never wait for each other: who waits, waits for a thread
      that can move. */
  lemma NoCircularWait(s: Sys)
    requires Reachable(s) && !s.main.Exited?
    ensures MainWaits(s) ==> ReceiverCan(s)
    ensures ReceiverWaits(s) ==> MainCan(s)
  {
    var acts :| RunOf(acts) == Some(s);
    RunInv(acts);
  }

  /** Every unfinished sender can move, or waits for a sender that can. */
  ghost predicate SendersGetOn(s: Sys) {
    forall i: nat, finish :: i < |s.senders| && !s.senders[i].Finished? ==>
      SenderCan(s, i, finish) || (s.lock.mtx0.BySender? && SenderCan(s, s.lock.mtx0.id, finish))
  }

  /** Until main exits some thread can always move, and no sender waits for ever for one
      that cannot move. */
  lemma DeadlockFree(s: Sys)
    requires Reachable(s) && !s.main.Exited?
    ensures exists a :: Can(s, a)
    ensures SendersGetOn(s)
  {
    var acts :| RunOf(acts) == Some(s);
    RunInv(acts);
    NoCircularWait(s);
    if !AllFinished(s.senders) {
      var i :| 0 <= i < |s.senders| && !s.senders[i].Finished?;
      var k := if SenderCan(s, i, true) then i else s.lock.mtx0.id;
      assert Can(s, SenderStep(k, true));
    } else if MainCan(s) {
      assert Can(s, MainStep(0, false));
    } else {
      assert MainWaits(s);
      assert Can(s, ReceiverStep(false, false));
    }
  }

  // ----- an acknowledgement that is older than the round -----

  lemma Extend(s: Sys, a: Action) returns (t: Sys)
    requires Reachable(s) && Can(s, a)
    ensures t == Do(s, a) && Reachable(t)
  {
    var acts :| RunOf(acts) == Some(s);
    assert (acts + [a])[..|acts|] == acts;
    t := Do(s, a);
    assert RunOf(acts + [a]) == Some(t);
  }

  lemma FirstRequest() returns (s: Sys)
    ensures Reachable(s) && s == START.(main := UnlockAsk, recv := Select, lock := Mutexes(ByMain, Free, Free),
                                        flag := Flags(true, false),
                                        past := History(0, true, false, false, false, false, 0, 0))
  {
    assert RunOf([]) == Some(START);
    var main := MainStep(0, false);
    s := Extend(START, main);
    s := Extend(s, main);
    s := Extend(s, main);
    s := Extend(s, main);
  }

  lemma FirstTest() returns (s: Sys)
    ensures Reachable(s) && s == START.(main := Test, recv := Select, lock := Mutexes(ByMain, Free, Free),
                                        flag := Flags(true, false),
                                        past := History(0, true, false, false, false, false, 0, 0))
  {
    var main := MainStep(0, false);
    s := FirstRequest();
    s := Extend(s, main);
    s := Extend(s, main);
  }

  /** Main skips round 0, as the receiver has not acknowledged yet; the request stays. */
  lemma FirstRoundSkipped() returns (s: Sys)
    ensures Reachable(s) && s == START.(recv := Select, round := 1, flag := Flags(true, false),
                                        past := History(0, true, false, true, true, false, 0, 0))
  {
    var main := MainStep(0, false);
    s := FirstTest();
    s := Extend(s, main);
    s := Extend(s, main);
  }

  /** The receiver acknowledges before round 1 asks. */
  lemma AcknowledgedBetween() returns (s: Sys)
    ensures Reachable(s) && s == START.(recv := Select, round := 1, flag := Flags(true, true),
                                        past := History(0, true, true, true, true, false, 0, 0))
  {
    var recv := ReceiverStep(false, false);
    s := FirstRoundSkipped();
    s := Extend(s, recv);
    s := Extend(s, recv);
    s := Extend(s, recv);
    s := Extend(s, recv);
  }

  lemma SecondRequest() returns (s: Sys)
    ensures Reachable(s) && s == START.(main := UnlockAsk, recv := Select, round := 1,
                                        lock := Mutexes(ByMain, Free, Free), flag := Flags(true, true),
                                        past := History(0, true, false, true, true, false, 0, 0))
  {
    var main := MainStep(0, false);
    s := AcknowledgedBetween();
    s := Extend(s, main);
    s := Extend(s, main);
    s := Extend(s, main);
    s := Extend(s, main);
  }

  /** After a skipped round main can work on the tables with an acknowledgement older than
      its request. */
  lemma StaleAcknowledgement() returns (s: Sys)
    ensures Reachable(s) && AtTables(s.main) && !s.past.ackedAfterAsk
  {
    var main := MainStep(0, false);
    s := SecondRequest();
    s := Extend(s, main);
    s := Extend(s, main);
    s := Extend(s, main);
  }
}
