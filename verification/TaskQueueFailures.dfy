/** How the queue behaves after an exec callback has failed: where the consumer ends
    up, and which calls can hang. */
module TaskQueueFailures {
  import opened Rings
  import opened TaskQueue
  import opened TaskQueueInvariants
  import opened TaskQueueTheorems

  // ----- Exactly when the consumer leaves -----

  /** On its way out, or back in the loop where CAN_EXIT will end it. */
  predicate Leaving(con: ConsumerPc) {
    con.ConLeave? || con.ConLoopCanExit? || con.ConLoopError? || con.ConExited? ||
    con.ConSetWorking? || con.ConWhile? || con.ConWoken?
  }

  /** On its way to sleep, or asleep. */
  predicate Dozing(con: ConsumerPc) {
    con.ConClearWorking? || con.ConSleepTest? || con.ConSleepTest2? || con.ConBlocked?
  }

  /** The consumer finds the indices different where it would go to sleep, reads a token, or is
      interrupted. */
  predicate Roused(s: State, l: Label) {
    && l.ConsumerStep?
    && match s.consumer
       case ConSleepTest2(first) => !SameIndex(s.w.ring, first)
       case ConBlocked => true
       case _ => false
  }

  ghost predicate RousedBetween(trace: seq<State>, labels: seq<Label>, i: nat, j: nat)
    requires j <= |labels| < |trace|
  {
    exists m :: i < m < j && Roused(trace[m], labels[m])
  }

  ghost predicate Unclaimed(s: State) {
    forall c :: c in s.clients ==> Claims(s.clients[c]) == 0
  }

  lemma StepKeepsLeaving(s: State, l: Label, s': State)
    requires Inv(s) && Step(s, l, s') && s.w.hist.raised && s.destructor.DesWaiting?
    requires Leaving(s.consumer)
    ensures Leaving(s'.consumer)
  {
  }

  lemma StepWhileDozing(s: State, l: Label, s': State)
    requires Step(s, l, s') && Dozing(s.consumer)
    ensures if Roused(s, l) then Leaving(s'.consumer) else Dozing(s'.consumer)
  {
  }

  lemma LookSplits(trace: seq<State>, labels: seq<Label>, ids: set<ThreadId>, producers: set<ThreadId>, i: nat)
    requires IsRun(trace, labels, ids, producers) && i < |labels| && labels[i].ConsumerStep?
    requires trace[i].w.hist.raised && trace[i].destructor.DesWaiting? && trace[i].consumer.ConCheckError?
    ensures if Unclaimed(trace[i]) then Leaving(trace[i + 1].consumer) else Dozing(trace[i + 1].consumer)
  {
    RunKeepsInv(trace, labels, ids, producers, i);
    ConsumerLeavesIffUnclaimed(trace, labels, ids, producers, i, labels[i].code, labels[i].ok);
    assert StepAt(trace, labels, i);
  }

  lemma {:induction false} AfterTheLook(trace: seq<State>, labels: seq<Label>, ids: set<ThreadId>,
                                        producers: set<ThreadId>, i: nat, j: nat)
    requires IsRun(trace, labels, ids, producers) && i < j < |trace| && labels[i].ConsumerStep?
    requires trace[i].w.hist.raised && trace[j].destructor.DesWaiting? && trace[i].consumer.ConCheckError?
    ensures if Unclaimed(trace[i]) || RousedBetween(trace, labels, i, j) then Leaving(trace[j].consumer)
            else Dozing(trace[j].consumer)
  {
    StillRaised(trace, labels, ids, producers, i, j);
    if i + 1 == j {
      LookSplits(trace, labels, ids, producers, i);
    } else {
      AfterTheLook(trace, labels, ids, producers, i, j - 1);
      RousedOneLater(trace, labels, i, j);
      GoesOnAfterTheLook(trace[j - 1], labels[j - 1], trace[j],
                         Unclaimed(trace[i]) || RousedBetween(trace, labels, i, j - 1));
    }
  }

  lemma StillRaised(trace: seq<State>, labels: seq<Label>, ids: set<ThreadId>, producers: set<ThreadId>, i: nat, j: nat)
    requires IsRun(trace, labels, ids, producers) && i < j < |trace|
    requires trace[i].w.hist.raised && trace[j].destructor.DesWaiting?
    ensures trace[i].destructor.DesWaiting? && trace[j - 1].destructor.DesWaiting? && trace[j - 1].w.hist.raised
    ensures Inv(trace[j - 1]) && Step(trace[j - 1], labels[j - 1], trace[j])
  {
    HistoryGrows(trace, labels, ids, producers, i, j - 1);
    LastStep(trace, labels, ids, producers, j);
  }

  lemma GoesOnAfterTheLook(s: State, l: Label, s': State, leaving: bool)
    requires Inv(s) && Step(s, l, s') && s.w.hist.raised && s.destructor.DesWaiting?
    requires if leaving then Leaving(s.consumer) else Dozing(s.consumer)
    ensures if leaving || Roused(s, l) then Leaving(s'.consumer) else Dozing(s'.consumer)
  {
    if leaving {
      StepKeepsLeaving(s, l, s');
    } else {
      StepWhileDozing(s, l, s');
    }
  }

  lemma RousedOneLater(trace: seq<State>, labels: seq<Label>, i: nat, j: nat)
    requires i + 1 < j <= |labels| < |trace|
    ensures RousedBetween(trace, labels, i, j) <==>
            RousedBetween(trace, labels, i, j - 1) || Roused(trace[j - 1], labels[j - 1])
  {
  }

  /** A consumer that has looked at the status after a failure, at step i, and can take no
      further step at j has left StartConsume exactly when no client had claimed the
      error at the look, or when something has roused it in between: indices found
      different as it was about to sleep, a token, or an interruption.  Otherwise it sleeps. */
  lemma ConsumerExitsExactly(trace: seq<State>, labels: seq<Label>, ids: set<ThreadId>, producers: set<ThreadId>,
                             i: nat, j: nat)
    requires IsRun(trace, labels, ids, producers) && i < j < |trace| && labels[i].ConsumerStep?
    requires trace[i].w.hist.raised && trace[i].consumer.ConCheckError?
    requires trace[j].destructor.DesWaiting? && Shape(trace[j]) && !ConsumerCanMove(trace[j])
    ensures trace[j].consumer.ConExited? <==> Unclaimed(trace[i]) || RousedBetween(trace, labels, i, j)
    ensures !trace[j].consumer.ConExited? ==> trace[j].consumer.ConBlocked? && trace[j].w.mem.efdRead == 0
  {
    AfterTheLook(trace, labels, ids, producers, i, j);
    OnlySleepStopsConsumer(trace[j].w, trace[j].consumer);
  }

  ghost predicate LookAt(trace: seq<State>, labels: seq<Label>, i: nat)
    requires i < |labels| < |trace|
  {
    labels[i].ConsumerStep? && trace[i].w.hist.raised && trace[i].consumer.ConCheckError?
  }

  lemma LastStep(trace: seq<State>, labels: seq<Label>, ids: set<ThreadId>, producers: set<ThreadId>, j: nat)
    requires IsRun(trace, labels, ids, producers) && 0 < j < |trace|
    ensures Inv(trace[j - 1]) && Step(trace[j - 1], labels[j - 1], trace[j])
    ensures trace[j].destructor.DesWaiting? ==> trace[j - 1].destructor.DesWaiting?
  {
    HistoryGrows(trace, labels, ids, producers, j - 1, j);
    RunKeepsInv(trace, labels, ids, producers, j - 1);
    assert StepAt(trace, labels, j - 1);
  }

  lemma {:induction false} StoppingFollowsALook(trace: seq<State>, labels: seq<Label>, ids: set<ThreadId>,
                                                producers: set<ThreadId>, j: nat) returns (i: nat)
    requires IsRun(trace, labels, ids, producers) && j < |trace|
    requires trace[j].w.hist.raised && trace[j].destructor.DesWaiting?
    requires Leaving(trace[j].consumer) || Dozing(trace[j].consumer)
    ensures i < j && LookAt(trace, labels, i)
  {
    StoppingOneEarlier(trace, labels, ids, producers, j);
    i := j - 1;
    if !LookAt(trace, labels, j - 1) {
      i := StoppingFollowsALook(trace, labels, ids, producers, j - 1);
    }
  }

  lemma StoppingOneEarlier(trace: seq<State>, labels: seq<Label>, ids: set<ThreadId>, producers: set<ThreadId>,
                           j: nat)
    requires IsRun(trace, labels, ids, producers) && j < |trace|
    requires trace[j].w.hist.raised && trace[j].destructor.DesWaiting?
    requires Leaving(trace[j].consumer) || Dozing(trace[j].consumer)
    ensures j > 0 && trace[j - 1].w.hist.raised && trace[j - 1].destructor.DesWaiting?
    ensures LookAt(trace, labels, j - 1) || Leaving(trace[j - 1].consumer) || Dozing(trace[j - 1].consumer)
  {
    if j > 0 {
      LastStep(trace, labels, ids, producers, j);
      BeforeStopping(trace[j - 1], labels[j - 1], trace[j]);
    }
  }

  lemma BeforeStopping(s: State, l: Label, s': State)
    requires Inv(s) && Step(s, l, s') && s'.w.hist.raised && s.destructor.DesWaiting?
    requires Leaving(s'.consumer) || Dozing(s'.consumer)
    ensures s.w.hist.raised
    ensures Leaving(s.consumer) || Dozing(s.consumer) || (l.ConsumerStep? && s.consumer.ConCheckError?)
  {
    match l
    case ClientStep(c, ok) => ClientFrame(s.w, c, s.clients[c], ok);
    case ConsumerStep(code, ok) => StopComesFromError(s.w, s.consumer, code, ok, s.destructor);
    case ReleaserStep => ReleaserFrame(s.w, s.releaser);
    case DestructorStep(ok) => DestructorFrame(s, ok);
    case _ =>
  }

  lemma StopComesFromError(w: World, con: ConsumerPc, code: int, ok: bool, des: DestructorPc)
    requires RingsOk(w) && MoveConsumer(w, con, code, ok).ConsumerMoved?
    requires FailStop(w, con, des) && des.DesWaiting? && MoveConsumer(w, con, code, ok).w.hist.raised
    requires var pc := MoveConsumer(w, con, code, ok).pc; Leaving(pc) || Dozing(pc)
    ensures w.hist.raised && (Leaving(con) || Dozing(con) || con.ConCheckError?)
  {
  }

  /** For every run that has raised an error: a consumer that can take no further step has
      looked at the status, and it has left or sleeps as ConsumerExitsExactly says. */
  lemma ConsumerStopsAfterALook(trace: seq<State>, labels: seq<Label>, ids: set<ThreadId>, producers: set<ThreadId>,
                                j: nat) returns (i: nat)
    requires IsRun(trace, labels, ids, producers) && j < |trace| && trace[j].w.hist.raised
    requires trace[j].destructor.DesWaiting? && Shape(trace[j]) && !ConsumerCanMove(trace[j])
    ensures i < j && LookAt(trace, labels, i)
    ensures trace[j].consumer.ConExited? <==> Unclaimed(trace[i]) || RousedBetween(trace, labels, i, j)
  {
    OnlySleepStopsConsumer(trace[j].w, trace[j].consumer);
    i := StoppingFollowsALook(trace, labels, ids, producers, j);
    ConsumerExitsExactly(trace, labels, ids, producers, i, j);
  }

  // ----- One client: the only call that can hang -----

  /** In Enqueue, before the publish. */
  predicate BeforePublish(pc: ClientPc) {
    Writing(pc) && !pc.EnqUnlock? && !pc.EnqCheckReader? && !pc.EnqNotify? && !pc.EnqFinish?
  }

  /** A callback has failed and the waiters have not been notified of it yet. */
  predicate ErrorAhead(con: ConsumerPc) {
    Draining(con) || con.ConErrorLoad? || con.ConErrorStore? || con.ConErrorNotifyEmpty?
  }

  /** At most one task has been published since the write index was i, and none is still to come. */
  predicate AtMostOneLate(i: nat, wr: nat, pc: ClientPc) {
    wr == i || (wr == Advance(i, QUEUE_CAPACITY) && !BeforePublish(pc))
  }

  ghost predicate LoneRing(w: World, pc: ClientPc, con: ConsumerPc)
    requires RingsOk(w)
  {
    && (pc.EnqCopy? || pc.EnqPublish? ==> !IsFull(w.ring, QUEUE_CAPACITY))
    && (pc.ThrowStore? ==> pc.w == w.ring.wr)
    && (Holding(con) ==> !IsEmpty(w.ring))
    && (con.ConErrorStore? ==> con.w < QUEUE_CAPACITY && AtMostOneLate(con.w, w.ring.wr, pc))
    && (w.hist.raised && !con.ConErrorLoad? && !con.ConErrorStore? ==> AtMostOneLate(w.ring.rd, w.ring.wr, pc))
  }

  /** A flush asleep, or about to be because it has loaded a read index that has moved since. */
  predicate LoneFlushSleeps(r: Ring<Task>, pc: ClientPc) {
    pc.FlushBlocked? || (pc.FlushRetest2? && pc.first.LoadedRd? && pc.first.i != r.rd)
  }

  /** A sleeping client whose condition holds has a token, or a consumer on its way. */
  ghost predicate LoneCover(w: World, pc: ClientPc, con: ConsumerPc)
    requires RingsOk(w)
  {
    && (pc.FlushRetest? || pc.FlushRetest2? || pc.FlushBlocked? || pc.FlushClearNeed? ==> w.mem.needEmpty)
    && (pc.FlushRetest2? && pc.first.LoadedWr? ==> pc.first.i == w.ring.wr)
    && (LoneFlushSleeps(w.ring, pc) && IsEmpty(w.ring) && w.mem.efdEmpty == 0 ==>
          NotifyingEmpty(con) || ErrorAhead(con))
    && (pc.EnqRetest? || pc.EnqRetest2? || pc.EnqBlocked? ==> !w.mem.writeWorking)
    && (pc.EnqRetest2? && pc.first.LoadedWr? ==> pc.first.i == w.ring.wr)
    && (WriterSleeps(w.ring, pc) && !IsFull(w.ring, QUEUE_CAPACITY) && w.mem.efdWrite == 0 ==>
          NotifyingWriter(con) || ErrorAhead(con) || con.ConErrorNotifyWrite?)
  }

  /** The consumer's notifications of a failure are not interrupted. */
  predicate Heard(con: ConsumerPc, ok: bool) {
    con.ConErrorNotifyEmpty? || con.ConErrorNotifyWrite? ==> ok
  }

  lemma ReadKeepsLoneRing(w: World, pc: ClientPc, con: ConsumerPc, code: int)
    requires RingsOk(w) && ReadMove(w, con, code).ConsumerMoved? && !w.hist.raised && LoneRing(w, pc, con)
    ensures var move := ReadMove(w, con, code);
            RingsOk(move.w) && LoneRing(move.w, pc, move.pc)
  {
    ConsumerKeepsShape(w, con, code, true);
    assert MoveConsumer(w, con, code, true) == ReadMove(w, con, code);
  }

  lemma ErrorKeepsLoneRing(w: World, pc: ClientPc, con: ConsumerPc, ok: bool)
    requires RingsOk(w) && ErrorMove(w, con, ok).ConsumerMoved? && LoneRing(w, pc, con)
    ensures var move := ErrorMove(w, con, ok);
            RingsOk(move.w) && LoneRing(move.w, pc, move.pc)
  {
    if con.ConDrainAdvance? {
      RetireDropsHead(w.ring, QUEUE_CAPACITY);
    }
  }

  lemma ConsumerKeepsLoneRing(w: World, pc: ClientPc, con: ConsumerPc, code: int, ok: bool, des: DestructorPc)
    requires RingsOk(w) && MoveConsumer(w, con, code, ok).ConsumerMoved?
    requires FailStop(w, con, des) && des.DesWaiting? && LoneRing(w, pc, con)
    ensures var move := MoveConsumer(w, con, code, ok);
            RingsOk(move.w) && LoneRing(move.w, pc, move.pc)
  {
    if InRead(con) {
      ReadKeepsLoneRing(w, pc, con, code);
    } else if InError(con) {
      ErrorKeepsLoneRing(w, pc, con, ok);
    } else {
      DequeueFrame(w, con, ok);
    }
  }

  lemma ConsumerKeepsLoneCover(w: World, pc: ClientPc, con: ConsumerPc, code: int, ok: bool)
    requires RingsOk(w) && MoveConsumer(w, con, code, ok).ConsumerMoved? && Heard(con, ok)
    requires LoneCover(w, pc, con) && ConsumerShape(con)
    ensures var move := MoveConsumer(w, con, code, ok);
            RingsOk(move.w) && LoneCover(move.w, pc, move.pc)
  {
    ConsumerKeepsShape(w, con, code, ok);
    if InRead(con) {
      ReadKeepsLoneCover(w, pc, con, code);
    } else if InError(con) {
      ErrorKeepsLoneCover(w, pc, con, ok);
    } else {
      DequeueKeepsLoneCover(w, pc, con, ok);
    }
  }

  lemma ReadKeepsLoneCover(w: World, pc: ClientPc, con: ConsumerPc, code: int)
    requires RingsOk(w) && ReadMove(w, con, code).ConsumerMoved? && RingsOk(ReadMove(w, con, code).w)
    requires LoneCover(w, pc, con)
    ensures var move := ReadMove(w, con, code); LoneCover(move.w, pc, move.pc)
  {
  }

  lemma ErrorKeepsLoneCover(w: World, pc: ClientPc, con: ConsumerPc, ok: bool)
    requires RingsOk(w) && ErrorMove(w, con, ok).ConsumerMoved? && RingsOk(ErrorMove(w, con, ok).w)
    requires Heard(con, ok) && LoneCover(w, pc, con)
    ensures var move := ErrorMove(w, con, ok); LoneCover(move.w, pc, move.pc)
  {
  }

  lemma DequeueKeepsLoneCover(w: World, pc: ClientPc, con: ConsumerPc, ok: bool)
    requires RingsOk(w) && DequeueMove(w, con, ok).ConsumerMoved? && RingsOk(DequeueMove(w, con, ok).w)
    requires LoneCover(w, pc, con)
    ensures var move := DequeueMove(w, con, ok); LoneCover(move.w, pc, move.pc)
  {
    DequeueFrame(w, con, ok);
    if NotifyingWriter(con) {
      NotifierKeepsLoneCover(w, pc, con, ok);
    }
  }

  lemma NotifierKeepsLoneCover(w: World, pc: ClientPc, con: ConsumerPc, ok: bool)
    requires RingsOk(w) && NotifyingWriter(con) && LoneCover(w, pc, con)
    ensures var move := DequeueMove(w, con, ok);
            move.ConsumerMoved? && RingsOk(move.w) && LoneCover(move.w, pc, move.pc)
  {
  }

  lemma ClientKeepsLoneRing(w: World, c: ThreadId, k: Client, ok: bool, con: ConsumerPc, des: DestructorPc)
    requires RingsOk(w) && MoveClient(w, c, k, ok).ClientMoved? && ClientShape(k)
    requires FailStop(w, con, des) && des.DesWaiting? && ClientThrows(w, k, des) && LoneRing(w, k.pc, con)
    requires con.ConErrorStore? ==> w.hist.raised
    ensures var move := MoveClient(w, c, k, ok);
            RingsOk(move.w) && LoneRing(move.w, move.client.pc, con)
  {
    ClientKeepsShape(w, c, k, ok);
    if InThrow(k.pc) {
      ThrowKeepsLoneRing(w, k, con, des);
    } else if k.pc.EnqCopy? || k.pc.EnqPublish? {
      WriteKeepsLoneRing(w, c, k, ok, con);
    } else {
      ControlFrame(w, c, k, ok);
      ClientReadsStatus(w, c, k, ok);
    }
  }

  lemma ThrowKeepsLoneRing(w: World, k: Client, con: ConsumerPc, des: DestructorPc)
    requires RingsOk(w) && ThrowMove(w, k).ClientMoved? && RingsOk(ThrowMove(w, k).w)
    requires FailStop(w, con, des) && des.DesWaiting? && ClientThrows(w, k, des) && LoneRing(w, k.pc, con)
    ensures var move := ThrowMove(w, k); LoneRing(move.w, move.client.pc, con)
  {
  }

  lemma WriteKeepsLoneRing(w: World, c: ThreadId, k: Client, ok: bool, con: ConsumerPc)
    requires RingsOk(w) && (k.pc.EnqCopy? || k.pc.EnqPublish?) && LoneRing(w, k.pc, con)
    ensures var move := EnqueueMove(w, c, k, ok);
            move.ClientMoved? && RingsOk(move.w) && LoneRing(move.w, move.client.pc, con)
  {
  }

  lemma ClientKeepsLoneCover(w: World, c: ThreadId, k: Client, ok: bool, con: ConsumerPc)
    requires RingsOk(w) && MoveClient(w, c, k, ok).ClientMoved? && ClientShape(k)
    requires LoneCover(w, k.pc, con)
    ensures var move := MoveClient(w, c, k, ok);
            RingsOk(move.w) && LoneCover(move.w, move.client.pc, con)
  {
    ClientKeepsShape(w, c, k, ok);
    if InFlush(k.pc) {
      FlushKeepsLoneCover(w, c, k, ok, con);
    } else if !InThrow(k.pc) {
      EnqueueKeepsLoneCover(w, c, k, ok, con);
    }
  }

  lemma FlushKeepsLoneCover(w: World, c: ThreadId, k: Client, ok: bool, con: ConsumerPc)
    requires RingsOk(w) && FlushMove(w, c, k, ok).ClientMoved? && RingsOk(FlushMove(w, c, k, ok).w)
    requires LoneCover(w, k.pc, con)
    ensures var move := FlushMove(w, c, k, ok); LoneCover(move.w, move.client.pc, con)
  {
  }

  lemma EnqueueKeepsLoneCover(w: World, c: ThreadId, k: Client, ok: bool, con: ConsumerPc)
    requires RingsOk(w) && EnqueueMove(w, c, k, ok).ClientMoved? && RingsOk(EnqueueMove(w, c, k, ok).w)
    requires LoneCover(w, k.pc, con) && !InFlush(k.pc) && !InThrow(k.pc)
    ensures var move := EnqueueMove(w, c, k, ok); LoneCover(move.w, move.client.pc, con)
  {
    OnlyFlushFlushes(w, c, k, ok);
    if k.pc.EnqRetest? || k.pc.EnqRetest2? || k.pc.EnqClearWorking? {
      RetestKeepsLoneCover(w, c, k, ok, con);
    } else {
      OnlyRetestSleeps(w, c, k, ok);
    }
  }

  lemma RetestKeepsLoneCover(w: World, c: ThreadId, k: Client, ok: bool, con: ConsumerPc)
    requires RingsOk(w) && LoneCover(w, k.pc, con)
    requires k.pc.EnqRetest? || k.pc.EnqRetest2? || k.pc.EnqClearWorking?
    ensures var move := EnqueueMove(w, c, k, ok);
            move.ClientMoved? && RingsOk(move.w) && LoneCover(move.w, move.client.pc, con)
  {
  }

  ghost predicate LoneInv(s: State)
    requires RingsOk(s.w)
  {
    forall c :: c in s.clients ==>
      LoneRing(s.w, s.clients[c].pc, s.consumer) && LoneCover(s.w, s.clients[c].pc, s.consumer)
  }

  lemma StepKeepsLoneInv(s: State, l: Label, s': State)
    requires Inv(s) && Step(s, l, s') && AtMostOne(s.clients.Keys) && LoneInv(s)
    requires s'.destructor.DesWaiting? && s.destructor.DesWaiting?
    requires l.ConsumerStep? ==> Heard(s.consumer, l.ok)
    ensures RingsOk(s'.w) && LoneInv(s')
  {
    StepKeepsShape(s, l, s');
    StepKeepsClients(s, l, s');
    forall c | c in s'.clients
      ensures LoneRing(s'.w, s'.clients[c].pc, s'.consumer) && LoneCover(s'.w, s'.clients[c].pc, s'.consumer)
    {
      StepKeepsLoneClient(s, l, s', c);
    }
  }

  lemma StepKeepsLoneClient(s: State, l: Label, s': State, c: ThreadId)
    requires Inv(s) && Step(s, l, s') && AtMostOne(s.clients.Keys) && LoneInv(s) && RingsOk(s'.w)
    requires s'.destructor.DesWaiting? && s.destructor.DesWaiting? && c in s.clients && c in s'.clients
    requires l.ConsumerStep? ==> Heard(s.consumer, l.ok)
    ensures LoneRing(s'.w, s'.clients[c].pc, s'.consumer) && LoneCover(s'.w, s'.clients[c].pc, s'.consumer)
  {
    assert ClientInv(s, c);
    match l
    case ClientStep(d, ok) =>
      assert d == c;
      ClientKeepsLoneRing(s.w, c, s.clients[c], ok, s.consumer, s.destructor);
      ClientKeepsLoneCover(s.w, c, s.clients[c], ok, s.consumer);
    case ConsumerStep(code, ok) =>
      ConsumerKeepsLoneRing(s.w, s.clients[c].pc, s.consumer, code, ok, s.destructor);
      ConsumerKeepsLoneCover(s.w, s.clients[c].pc, s.consumer, code, ok);
    case ReleaserStep => ReleaserFrame(s.w, s.releaser);
    case DestructorStep(ok) => DestructorFrame(s, ok);
    case _ =>
  }

  ghost predicate AllHeard(trace: seq<State>, labels: seq<Label>, n: nat)
    requires n <= |labels| < |trace|
  {
    forall m :: 0 <= m < n && labels[m].ConsumerStep? ==> Heard(trace[m].consumer, labels[m].ok)
  }

  lemma InitialIsCovered(ids: set<ThreadId>, producers: set<ThreadId>)
    ensures var s := Initial(ids, producers); RingsOk(s.w) && LoneInv(s)
  {
  }

  /** With one client, and the notifications of a failure not interrupted, no wake-up is
      lost on any run, failing or not: a flush asleep beside an empty ring, or an Enqueue
      asleep beside one with room, has a token or a consumer on its way to write one. */
  lemma {:induction false} LoneClientIsCovered(trace: seq<State>, labels: seq<Label>, ids: set<ThreadId>,
                                               producers: set<ThreadId>, i: nat)
    requires IsRun(trace, labels, ids, producers) && i < |trace| && AtMostOne(ids)
    requires trace[i].destructor.DesWaiting? && AllHeard(trace, labels, i)
    ensures RingsOk(trace[i].w) && LoneInv(trace[i])
  {
    if i == 0 {
      InitialIsCovered(ids, producers);
    } else {
      LastStep(trace, labels, ids, producers, i);
      LoneClientIsCovered(trace, labels, ids, producers, i - 1);
      RunKeepsInv(trace, labels, ids, producers, i - 1);
      StepKeepsLoneInv(trace[i - 1], labels[i - 1], trace[i]);
    }
  }

  /** The consumer is gone and a flush sleeps with no token left. */
  ghost predicate FlushHangs(s: State, c: ThreadId)
    requires RingsOk(s.w) && c in s.clients
  {
    && s.consumer.ConExited?
    && s.clients[c].pc.FlushBlocked? && s.w.mem.efdEmpty == 0
    && IsEmpty(s.w.releaseRing)
  }

  /** With one client, and the notifications of a failure not interrupted, a call hangs for
      good exactly when it is a flush whose consumer is gone and whose token is spent.
      That takes a failure and exactly one task published after it. */
  lemma LoneClientHangsExactly(trace: seq<State>, labels: seq<Label>, ids: set<ThreadId>, producers: set<ThreadId>,
                               i: nat, c: ThreadId)
    requires IsRun(trace, labels, ids, producers) && i < |trace| && AtMostOne(ids)
    requires trace[i].destructor.DesWaiting? && AllHeard(trace, labels, i)
    requires c in trace[i].clients && !trace[i].clients[c].pc.Idle?
    ensures RingsOk(trace[i].w)
    ensures !CanProgress(trace[i]) <==> FlushHangs(trace[i], c)
    ensures FlushHangs(trace[i], c) ==>
              trace[i].w.hist.failed && WellFormed(trace[i].w.ring, QUEUE_CAPACITY) && |Contents(trace[i].w.ring)| == 1
  {
    var s := trace[i];
    RunKeepsInv(trace, labels, ids, producers, i);
    LoneClientIsCovered(trace, labels, ids, producers, i);
    LoneConsumerWakeUp(trace, labels, ids, producers, i);
    ReleaserLives(trace, labels, ids, producers, i);
    OnlySleepStopsProgress(trace, labels, ids, producers, i);
    OnlySleepStopsConsumer(s.w, s.consumer);
    OnlyLocksAndSleepStopClients(s.w, c, s.clients[c]);
    assert ClientInv(s, c);
    if !CanProgress(s) {
      assert !ClientCanMove(s, c);
      SleepersHang(s, c);
    }
    if FlushHangs(s, c) {
      HangingFlushFacts(s, c);
    }
  }

  lemma SleepersHang(s: State, c: ThreadId)
    requires Inv(s) && LoneInv(s) && LoneWake(s) && AtMostOne(s.clients.Keys) && s.destructor.DesWaiting?
    requires c in s.clients && MoveClient(s.w, c, s.clients[c], true).ClientBlocked? && !s.clients[c].pc.Idle?
    requires s.consumer.ConExited? || (s.consumer.ConBlocked? && s.w.mem.efdRead == 0)
    ensures s.consumer.ConExited? && s.clients[c].pc.FlushBlocked? && s.w.mem.efdEmpty == 0
  {
    OnlyLocksAndSleepStopClients(s.w, c, s.clients[c]);
    assert ClientInv(s, c);
    RingRefinesBoundedFifo(s.w.ring, QUEUE_CAPACITY);
  }

  lemma HangingFlushFacts(s: State, c: ThreadId)
    requires Inv(s) && LoneInv(s) && AtMostOne(s.clients.Keys) && s.destructor.DesWaiting?
    requires c in s.clients && FlushHangs(s, c)
    ensures s.w.hist.failed && |Contents(s.w.ring)| == 1 && !CanProgress(s)
  {
    OnlyLocksAndSleepStopClients(s.w, c, s.clients[c]);
    OnlySleepStopsConsumer(s.w, s.consumer);
  }
}
