/** What the task queue guarantees on every run, for every interleaving. */
module TaskQueueTheorems {
  import opened Rings
  import opened TaskQueue
  import opened TaskQueueInvariants

  // ----- Wake-ups -----

  /** A consumer asleep beside a non-empty ring has a token waiting, or some
      producer has published and has yet to notify.  Any number of producers. */
  lemma NoLostConsumerWakeUp(trace: seq<State>, labels: seq<Label>, ids: set<ThreadId>,
                             producers: set<ThreadId>, i: nat)
    requires IsRun(trace, labels, ids, producers) && i < |trace|
    requires trace[i].consumer.ConBlocked? && !IsEmpty(trace[i].w.ring)
    requires !trace[i].w.hist.rewound
    ensures trace[i].w.mem.efdRead > 0 ||
            exists c :: c in trace[i].clients && Notifying(trace[i].clients[c].pc)
  {
    RunKeepsInv(trace, labels, ids, producers, i);
  }

  /** With one client the rewind cannot interfere: it empties the ring, and its own
      calls are over by then. */
  ghost predicate LoneWake(s: State) {
    && (forall c :: c in s.clients && s.clients[c].pc.ThrowStore? ==> s.clients[c].pc.w == s.w.ring.wr)
    && (WouldStrand(s.w, s.consumer) ==> exists c :: c in s.clients && Notifying(s.clients[c].pc))
  }

  lemma ConsumerStrandsNothing(w: World, con: ConsumerPc, code: int, ok: bool)
    requires RingsOk(w) && MoveConsumer(w, con, code, ok).ConsumerMoved?
    ensures var move := MoveConsumer(w, con, code, ok);
            move.w.ring.wr == w.ring.wr && (WouldStrand(move.w, move.pc) ==> WouldStrand(w, con))
  {
  }

  lemma LoneClientMove(w: World, con: ConsumerPc, c: ThreadId, k: Client, ok: bool)
    requires RingsOk(w) && MoveClient(w, c, k, ok).ClientMoved? && ReaderFlag(w.mem, con)
    requires k.pc.ThrowStore? ==> k.pc.w == w.ring.wr
    requires WouldStrand(w, con) ==> Notifying(k.pc)
    ensures var move := MoveClient(w, c, k, ok);
            && (move.client.pc.ThrowStore? ==> move.client.pc.w == move.w.ring.wr)
            && (WouldStrand(move.w, con) ==> Notifying(move.client.pc))
  {
    if !InThrow(k.pc) && !k.pc.EnqCopy? && !k.pc.EnqPublish? {
      ControlFrame(w, c, k, ok);
      NotifierLeavesToken(w, c, k, ok);
    }
  }

  lemma StepKeepsLoneWake(s: State, l: Label, s': State)
    requires Inv(s) && Step(s, l, s') && LoneWake(s) && AtMostOne(s.clients.Keys)
    ensures LoneWake(s')
  {
    match l
    case ClientStep(c, ok) =>
      LoneClientMove(s.w, s.consumer, c, s.clients[c], ok);
      assert s'.clients.Keys == s.clients.Keys;
    case ConsumerStep(code, ok) => ConsumerStrandsNothing(s.w, s.consumer, code, ok);
    case ReleaserStep => ReleaserFrame(s.w, s.releaser);
    case DestructorStep(ok) => DestructorFrame(s, ok);
    case _ =>
  }

  /** With one client the same holds on every run, whatever has failed. */
  lemma {:induction false} LoneConsumerWakeUp(trace: seq<State>, labels: seq<Label>, ids: set<ThreadId>,
                                              producers: set<ThreadId>, i: nat)
    requires IsRun(trace, labels, ids, producers) && i < |trace| && AtMostOne(ids)
    ensures LoneWake(trace[i])
  {
    if i > 0 {
      LoneConsumerWakeUp(trace, labels, ids, producers, i - 1);
      RunKeepsInv(trace, labels, ids, producers, i - 1);
      assert StepAt(trace, labels, i - 1);
      StepKeepsLoneWake(trace[i - 1], labels[i - 1], trace[i]);
    }
  }

  /** With one producer: a producer asleep beside a ring that is not full has a
      token waiting, or the consumer is on its way to notify it. */
  lemma NoLostProducerWakeUp(trace: seq<State>, labels: seq<Label>, ids: set<ThreadId>, producers: set<ThreadId>,
                             i: nat, c: ThreadId)
    requires IsRun(trace, labels, ids, producers) && i < |trace| && c in trace[i].clients
    requires AtMostOne(producers) && !trace[i].w.hist.failed
    requires trace[i].clients[c].pc.EnqBlocked? && !IsFull(trace[i].w.ring, QUEUE_CAPACITY)
    ensures trace[i].w.mem.efdWrite > 0 || NotifyingWriter(trace[i].consumer)
  {
    RunKeepsInv(trace, labels, ids, producers, i);
    assert ClientInv(trace[i], c);
  }

  /** A client waiting for an empty ring that is empty has a token waiting, or the
      consumer is on its way to notify it.  Any number of producers and waiters. */
  lemma NoLostEmptyWakeUp(trace: seq<State>, labels: seq<Label>, ids: set<ThreadId>, producers: set<ThreadId>,
                          i: nat, c: ThreadId)
    requires IsRun(trace, labels, ids, producers) && i < |trace| && c in trace[i].clients
    requires !trace[i].w.hist.failed
    requires trace[i].clients[c].pc.FlushBlocked? && IsEmpty(trace[i].w.ring)
    ensures trace[i].w.mem.efdEmpty > 0 || NotifyingEmpty(trace[i].consumer)
  {
    RunKeepsInv(trace, labels, ids, producers, i);
    assert ClientInv(trace[i], c);
  }

  ghost predicate ClientCanMove(s: State, c: ThreadId)
    requires RingsOk(s.w)
  {
    c in s.clients && MoveClient(s.w, c, s.clients[c], true).ClientMoved?
  }

  ghost predicate ConsumerCanMove(s: State)
    requires RingsOk(s.w)
  {
    MoveConsumer(s.w, s.consumer, 0, true).ConsumerMoved?
  }

  lemma OnlySleepStopsConsumer(w: World, con: ConsumerPc)
    requires RingsOk(w)
    ensures MoveConsumer(w, con, 0, true).ConsumerBlocked? <==>
            con.ConExited? || (con.ConBlocked? && w.mem.efdRead == 0)
  {
  }

  lemma OnlyLocksAndSleepStopClients(w: World, c: ThreadId, k: Client)
    requires RingsOk(w)
    ensures MoveClient(w, c, k, true).ClientBlocked? <==>
            || k.pc.Idle?
            || (k.pc.EnqLock? && w.mem.muEnqueue != None)
            || (k.pc.EnqBlocked? && w.mem.efdWrite == 0)
            || (k.pc.FlushLock? && w.mem.muEmpty != None)
            || (k.pc.FlushBlocked? && w.mem.efdEmpty == 0)
  {
  }

  /** The consumer spins in PushToReleaseQueue beside a full release queue. */
  ghost predicate Spinning(s: State)
    requires RingsOk(s.w)
  {
    s.consumer.ConRelease? && IsFull(s.w.releaseRing, RELEASE_CAPACITY)
  }

  /** The releaser has an entry to free and is in its loop. */
  ghost predicate ReleaserCanFree(s: State)
    requires RingsOk(s.w)
  {
    MoveReleaser(s.w, s.releaser).ReleaserMoved? && !IsEmpty(s.w.releaseRing)
  }

  /** Some thread can take a step towards the end of a call: a client, the consumer
      unless it only spins, or the releaser unless it only polls an empty queue. */
  ghost predicate CanProgress(s: State)
    requires RingsOk(s.w)
  {
    (exists d :: ClientCanMove(s, d)) || (ConsumerCanMove(s) && !Spinning(s)) || ReleaserCanFree(s)
  }

  /** The steps counted as progress change the position of their thread. */
  lemma ProgressIsNotStutter(w: World, c: ThreadId, k: Client, con: ConsumerPc)
    requires RingsOk(w)
    ensures var move := MoveClient(w, c, k, true); move.ClientMoved? ==> move.client.pc != k.pc
    ensures var move := MoveConsumer(w, con, 0, true);
            move.ConsumerMoved? && !(con.ConRelease? && IsFull(w.releaseRing, RELEASE_CAPACITY)) ==> move.pc != con
  {
  }

  /** Until the destructor starts, the releaser stays in its loop. */
  lemma {:induction false} ReleaserLives(trace: seq<State>, labels: seq<Label>, ids: set<ThreadId>,
                                         producers: set<ThreadId>, i: nat)
    requires IsRun(trace, labels, ids, producers) && i < |trace| && trace[i].destructor.DesWaiting?
    ensures trace[i].w.mem.releaseStatus == INIT
    ensures !trace[i].releaser.RelExited? && !trace[i].releaser.RelSwapStatus?
  {
    if i > 0 {
      HistoryGrows(trace, labels, ids, producers, i - 1, i);
      ReleaserLives(trace, labels, ids, producers, i - 1);
      assert StepAt(trace, labels, i - 1);
      StepKeepsReleaser(trace[i - 1], labels[i - 1], trace[i]);
    }
  }

  lemma StepKeepsReleaser(s: State, l: Label, s': State)
    requires Step(s, l, s') && s'.destructor.DesWaiting?
    requires s.w.mem.releaseStatus == INIT && !s.releaser.RelExited? && !s.releaser.RelSwapStatus?
    ensures s'.w.mem.releaseStatus == INIT && !s'.releaser.RelExited? && !s'.releaser.RelSwapStatus?
  {
    match l
    case ClientStep(c, ok) => ClientFrame(s.w, c, s.clients[c], ok);
    case ConsumerStep(code, ok) => ConsumerLeavesReleaseStatus(s.w, s.consumer, code, ok);
    case ReleaserStep => ReleaserFrame(s.w, s.releaser);
    case DestructorStep(ok) => DestructorFrame(s, ok);
    case _ =>
  }

  lemma ConsumerLeavesReleaseStatus(w: World, con: ConsumerPc, code: int, ok: bool)
    requires RingsOk(w) && MoveConsumer(w, con, code, ok).ConsumerMoved?
    ensures MoveConsumer(w, con, code, ok).w.mem.releaseStatus == w.mem.releaseStatus
  {
  }

  /** A consumer that cannot get on is asleep, has exited, or waits for the releaser, who can. */
  lemma OnlySleepStopsProgress(trace: seq<State>, labels: seq<Label>, ids: set<ThreadId>, producers: set<ThreadId>,
                               i: nat)
    requires IsRun(trace, labels, ids, producers) && i < |trace| && trace[i].destructor.DesWaiting?
    ensures RingsOk(trace[i].w)
    ensures !CanProgress(trace[i]) ==>
              trace[i].consumer.ConExited? || (trace[i].consumer.ConBlocked? && trace[i].w.mem.efdRead == 0)
  {
    RunKeepsInv(trace, labels, ids, producers, i);
    ReleaserLives(trace, labels, ids, producers, i);
    OnlySleepStopsConsumer(trace[i].w, trace[i].consumer);
    RingRefinesBoundedFifo(trace[i].w.releaseRing, RELEASE_CAPACITY);
  }

  /** With one producer and no failure the queue never deadlocks: while any client
      is inside a call, some thread can make progress, interruptions aside. */
  lemma NoDeadlock(trace: seq<State>, labels: seq<Label>, ids: set<ThreadId>, producers: set<ThreadId>,
                   i: nat, c: ThreadId)
    requires IsRun(trace, labels, ids, producers) && i < |trace| && c in trace[i].clients
    requires AtMostOne(producers) && !trace[i].w.hist.failed && trace[i].destructor.DesWaiting?
    requires !trace[i].clients[c].pc.Idle?
    ensures RingsOk(trace[i].w) && CanProgress(trace[i])
  {
    RunKeepsInv(trace, labels, ids, producers, i);
    OnlySleepStopsProgress(trace, labels, ids, producers, i);
    var s := trace[i];
    if !CanProgress(s) {
      if IsEmpty(s.w.ring) {
        SleepingConsumerFreesClients(s, c);
        assert false;
      } else {
        var d :| d in s.clients && Notifying(s.clients[d].pc);
        OnlyLocksAndSleepStopClients(s.w, d, s.clients[d]);
        assert ClientCanMove(s, d);
        assert false;
      }
    }
  }

  lemma SleepingConsumerFreesClients(s: State, c: ThreadId)
    requires Inv(s) && c in s.clients && !s.clients[c].pc.Idle?
    requires AtMostOne(s.producers) && !s.w.hist.failed
    requires s.consumer.ConBlocked? && IsEmpty(s.w.ring)
    ensures exists d :: ClientCanMove(s, d)
  {
    var m, pc := s.w.mem, s.clients[c].pc;
    assert ClientInv(s, c);
    var d := if pc.EnqLock? && m.muEnqueue.Some? then m.muEnqueue.value
             else if pc.FlushLock? && m.muEmpty.Some? then m.muEmpty.value else c;
    assert ClientInv(s, d);
    OnlyLocksAndSleepStopClients(s.w, d, s.clients[d]);
    TracksTests(s.w.ring, QUEUE_CAPACITY, s.w.hist.accepted, s.w.hist.taken);
    assert ClientCanMove(s, d);
  }

  // ----- Exactly once, in order -----

  /** While no callback has failed: the tasks whose slot the read index has passed,
      followed by the ring, are the tasks accepted; the executed tasks are that
      prefix and at most the one in flight; each is pushed for release exactly
      once, in the same order, and always before its slot is given up. */
  lemma ExactlyOnceInOrder(trace: seq<State>, labels: seq<Label>, ids: set<ThreadId>, producers: set<ThreadId>, i: nat)
    requires IsRun(trace, labels, ids, producers) && i < |trace|
    requires !trace[i].w.hist.failed
    ensures var w, h := trace[i].w, trace[i].w.hist;
            && WellFormed(w.ring, QUEUE_CAPACITY)
            && h.taken <= |h.released| <= |h.executed| <= h.taken + 1
            && h.executed[..h.taken] + Contents(w.ring) == h.accepted
            && h.executed <= h.accepted
            && h.released <= h.executed
  {
    RunKeepsInv(trace, labels, ids, producers, i);
    var w, h := trace[i].w, trace[i].w.hist;
    TracksContents(w.ring, QUEUE_CAPACITY, h.accepted, h.taken);
    assert h.accepted[..h.taken] + h.accepted[h.taken..] == h.accepted;
    assert h.executed[..h.taken] == h.accepted[..h.taken];
  }

  /** Until a failure is reported, a client step only ever appends to the unread
      part of the ring: no unread slot is overwritten, and what a publish appends
      is the task its caller passed, whatever other clients do. */
  lemma NoUnreadSlotOverwritten(trace: seq<State>, labels: seq<Label>, ids: set<ThreadId>, producers: set<ThreadId>,
                                i: nat, c: ThreadId, ok: bool)
    requires IsRun(trace, labels, ids, producers) && i < |labels|
    requires labels[i] == ClientStep(c, ok) && c in trace[i].clients && !trace[i].w.hist.raised
    ensures var before, after := trace[i].w, trace[i + 1].w;
            && WellFormed(before.ring, QUEUE_CAPACITY) && WellFormed(after.ring, QUEUE_CAPACITY)
            && Contents(after.ring) == Contents(before.ring) +
                 if trace[i].clients[c].pc.EnqPublish? then [trace[i].clients[c].pc.t] else []
  {
    RunKeepsInv(trace, labels, ids, producers, i);
    var s := trace[i];
    assert StepAt(trace, labels, i);
    assert ClientInv(s, c);
    ClientAppends(s.w, s.consumer, c, s.clients[c], ok);
  }

  lemma ClientAppends(w: World, con: ConsumerPc, c: ThreadId, k: Client, ok: bool)
    requires Running(w, con) && ClientRunning(w, k.pc) && !InThrow(k.pc)
    requires MoveClient(w, c, k, ok).ClientMoved?
    ensures var w' := MoveClient(w, c, k, ok).w;
            && WellFormed(w'.ring, QUEUE_CAPACITY)
            && Contents(w'.ring) == Contents(w.ring) + if k.pc.EnqPublish? then [k.pc.t] else []
  {
    if k.pc.EnqCopy? || k.pc.EnqPublish? {
      TracksTests(w.ring, QUEUE_CAPACITY, w.hist.accepted, w.hist.taken);
      assert CopyIn(w.ring, w.ring.slots[w.ring.wr]) == w.ring;
      WriteAppends(w.ring, QUEUE_CAPACITY, if k.pc.EnqCopy? then k.pc.t else w.ring.slots[w.ring.wr]);
    } else {
      ControlFrame(w, c, k, ok);
    }
  }

  /** On every run, failing or not: entries freed, followed by the release ring,
      are the entries pushed, in order, and at most 8191 are outstanding. */
  lemma PipelineConserves(trace: seq<State>, labels: seq<Label>, ids: set<ThreadId>, producers: set<ThreadId>, i: nat)
    requires IsRun(trace, labels, ids, producers) && i < |trace|
    ensures var w, h := trace[i].w, trace[i].w.hist;
            && WellFormed(w.releaseRing, RELEASE_CAPACITY)
            && h.recycled <= |h.freed| <= h.recycled + 1
            && h.freed <= h.released
            && h.freed[..h.recycled] + Contents(w.releaseRing) == h.released
            && |Contents(w.releaseRing)| <= 8191
  {
    RunKeepsInv(trace, labels, ids, producers, i);
    var w, h := trace[i].w, trace[i].w.hist;
    TracksContents(w.releaseRing, RELEASE_CAPACITY, h.released, h.recycled);
    assert h.released[..h.recycled] + h.released[h.recycled..] == h.released;
    assert h.freed[..h.recycled] == h.released[..h.recycled];
  }

  // ----- Flush -----

  lemma MarkStays(w: World, c: ThreadId, k: Client, ok: bool)
    requires RingsOk(w) && MoveClient(w, c, k, ok).ClientMoved? && InFlush(k.pc)
    requires InFlush(MoveClient(w, c, k, ok).client.pc)
    ensures FlushMark(MoveClient(w, c, k, ok).client.pc) == FlushMark(k.pc)
  {
  }

  lemma {:induction false} MarkStaysThroughCall(trace: seq<State>, labels: seq<Label>, ids: set<ThreadId>,
                                                producers: set<ThreadId>,
                                                i: nat, j: nat, c: ThreadId)
    requires IsRun(trace, labels, ids, producers) && i < j < |trace|
    requires labels[i] == BeginFlush(c)
    requires forall m :: i < m <= j ==> c in trace[m].clients && InFlush(trace[m].clients[c].pc)
    ensures FlushMark(trace[j].clients[c].pc) == |trace[i].w.hist.accepted|
  {
    var s, l, s' := trace[j - 1], labels[j - 1], trace[j];
    assert StepAt(trace, labels, j - 1);
    if i + 1 < j {
      MarkStaysThroughCall(trace, labels, ids, producers, i, j - 1, c);
      if l.ClientStep? && l.c == c {
        MarkStays(s.w, c, s.clients[c], l.ok);
      }
    }
  }

  /** Along a run the history only grows, and a destructor that has started stays started. */
  lemma {:induction false} HistoryGrows(trace: seq<State>, labels: seq<Label>, ids: set<ThreadId>,
                                        producers: set<ThreadId>,
                                        i: nat, j: nat)
    requires IsRun(trace, labels, ids, producers) && i <= j < |trace|
    ensures Grows(trace[i].w.hist, trace[j].w.hist)
    ensures trace[j].destructor.DesWaiting? ==> trace[i].destructor.DesWaiting?
  {
    if i < j {
      HistoryGrows(trace, labels, ids, producers, i, j - 1);
      assert StepAt(trace, labels, j - 1);
      StepGrows(trace[j - 1], labels[j - 1], trace[j]);
      GrowsOn(trace[i].w.hist, trace[j - 1].w.hist, trace[j].w.hist);
    }
  }

  lemma GrowsOn(a: History, b: History, c: History)
    requires Grows(a, b) && Grows(b, c)
    ensures Grows(a, c)
  {
  }

  lemma StepGrows(s: State, l: Label, s': State)
    requires Step(s, l, s')
    ensures Grows(s.w.hist, s'.w.hist)
    ensures s'.destructor.DesWaiting? ==> s.destructor.DesWaiting?
  {
    match l
    case ClientStep(c, ok) => ClientGrows(s.w, c, s.clients[c], ok);
    case ConsumerStep(code, ok) => ConsumerGrows(s.w, s.consumer, code, ok);
    case ReleaserStep => ReleaserFrame(s.w, s.releaser); FreedGrows(s.w, s.releaser);
    case DestructorStep(ok) => DestructorFrame(s, ok);
    case _ =>
  }

  lemma FreedGrows(w: World, rel: ReleaserPc)
    requires RingsOk(w) && MoveReleaser(w, rel).ReleaserMoved?
    ensures w.hist.freed <= MoveReleaser(w, rel).w.hist.freed
  {
  }

  /** A flush that loads the write index first, or that is made by the only producer.  The
      other flushes can return early (TaskQueueLimits.FlushesKeptExactly). */
  ghost predicate Reliable(s: State, c: ThreadId)
    requires c in s.clients && s.clients[c].pc.FlushSuccess?
  {
    s.clients[c].pc.sure || Sole(s, c)
  }

  /** When MakeSureQueueEmpty returns SUCCESS on a run without failures, every task
      accepted before the call has been executed and handed to the release queue.
      After a failure that has not been reported yet, each has at least been released. */
  lemma FlushGuarantee(trace: seq<State>, labels: seq<Label>, ids: set<ThreadId>, producers: set<ThreadId>,
                       i: nat, j: nat, c: ThreadId)
    requires IsRun(trace, labels, ids, producers) && i < j < |trace|
    requires labels[i] == BeginFlush(c)
    requires forall m :: i < m <= j ==> c in trace[m].clients && InFlush(trace[m].clients[c].pc)
    requires trace[j].clients[c].pc.FlushSuccess? && Reliable(trace[j], c)
    ensures !trace[j].w.hist.failed ==> trace[i].w.hist.accepted <= trace[j].w.hist.executed
    ensures !trace[j].w.hist.raised ==> trace[i].w.hist.accepted <= trace[j].w.hist.released
  {
    RunKeepsInv(trace, labels, ids, producers, j);
    assert ClientInv(trace[j], c);
    MarkStaysThroughCall(trace, labels, ids, producers, i, j, c);
    HistoryGrows(trace, labels, ids, producers, i, j);
  }

  /** A flush that has found the ring empty after a failure returns SUCCESS exactly when
      the failure has not been reported yet or some client has claimed the report. */
  lemma FlushSucceedsExactly(trace: seq<State>, labels: seq<Label>, ids: set<ThreadId>, producers: set<ThreadId>,
                             i: nat, c: ThreadId, ok: bool)
    requires IsRun(trace, labels, ids, producers) && i < |labels| && labels[i] == ClientStep(c, ok)
    requires trace[i].w.hist.failed && trace[i].destructor.DesWaiting?
    requires c in trace[i].clients && trace[i].clients[c].pc.FlushCheckError?
    ensures c in trace[i + 1].clients
    ensures trace[i + 1].clients[c].pc.FlushSuccess? <==>
            !trace[i].w.hist.raised || exists d :: d in trace[i].clients && Claims(trace[i].clients[d]) == 1
  {
    RunKeepsInv(trace, labels, ids, producers, i);
    var s := trace[i];
    assert StepAt(trace, labels, i);
    forall d | d in s.clients ensures Claims(s.clients[d]) == 1 ==> s.w.mem.status == CAN_EXIT {
      assert ClientInv(s, d);
    }
  }

  // ----- Fail-stop -----

  /** Until the destructor starts, nothing is executed after a failure. */
  lemma {:induction false} NothingExecutedAfterFailure(
    trace: seq<State>, labels: seq<Label>, ids: set<ThreadId>, producers: set<ThreadId>, i: nat, j: nat)
    requires IsRun(trace, labels, ids, producers) && i <= j < |trace|
    requires trace[i].w.hist.failed && trace[j].destructor.DesWaiting?
    ensures trace[j].w.hist.executed == trace[i].w.hist.executed
  {
    if i < j {
      assert StepAt(trace, labels, j - 1);
      StepGrows(trace[j - 1], labels[j - 1], trace[j]);
      NothingExecutedAfterFailure(trace, labels, ids, producers, i, j - 1);
      HistoryGrows(trace, labels, ids, producers, i, j - 1);
      RunKeepsInv(trace, labels, ids, producers, j - 1);
      FailedStepExecutesNothing(trace[j - 1], labels[j - 1], trace[j]);
    }
  }

  lemma FailedStepExecutesNothing(s: State, l: Label, s': State)
    requires Step(s, l, s') && FailStop(s.w, s.consumer, s.destructor)
    requires s.w.hist.failed && s.destructor.DesWaiting?
    ensures s'.w.hist.executed == s.w.hist.executed
  {
    OnlyCallExecutes(s, l, s');
  }

  lemma OnlyCallExecutes(s: State, l: Label, s': State)
    requires Step(s, l, s')
    ensures s'.w.hist.executed == s.w.hist.executed || (l.ConsumerStep? && s.consumer.ConCall?)
  {
    match l
    case ClientStep(c, ok) => ClientFrame(s.w, c, s.clients[c], ok);
    case ReleaserStep => ReleaserFrame(s.w, s.releaser);
    case DestructorStep(ok) => DestructorFrame(s, ok);
    case _ =>
  }

  /** On every run until the destructor starts, failing or not: the executed tasks and the
      released entries are prefixes of the accepted tasks.  Until a failure is reported,
      what the read index has passed and the ring make up all of them.  After the report
      accepted[|executed|..|released|] was drained without being executed, and everything
      behind it was passed over, neither executed nor released. */
  lemma EveryTaskAccountedFor(trace: seq<State>, labels: seq<Label>, ids: set<ThreadId>, producers: set<ThreadId>,
                              i: nat)
    requires IsRun(trace, labels, ids, producers) && i < |trace| && trace[i].destructor.DesWaiting?
    ensures var w, h := trace[i].w, trace[i].w.hist;
            && h.executed <= h.accepted && h.released <= h.accepted
            && |h.executed| <= |h.released| + 1 && h.taken <= |h.released| <= h.taken + 1 <= |h.accepted| + 1
            && (!h.raised ==> WellFormed(w.ring, QUEUE_CAPACITY) && Contents(w.ring) == h.accepted[h.taken..])
            && (h.raised ==> |h.executed| <= |h.released| == h.taken)
  {
    RunKeepsInv(trace, labels, ids, producers, i);
    var w, h := trace[i].w, trace[i].w.hist;
    if !h.raised {
      TracksContents(w.ring, QUEUE_CAPACITY, h.accepted, h.taken);
    }
  }

  /** What was executed and what was released is final once the failure has been reported. */
  lemma {:induction false} ReportIsFinal(trace: seq<State>, labels: seq<Label>, ids: set<ThreadId>,
                                         producers: set<ThreadId>, i: nat, j: nat)
    requires IsRun(trace, labels, ids, producers) && i <= j < |trace|
    requires trace[i].w.hist.raised && trace[j].destructor.DesWaiting?
    ensures trace[j].w.hist.executed == trace[i].w.hist.executed
    ensures trace[j].w.hist.released == trace[i].w.hist.released
  {
    if i < j {
      HistoryGrows(trace, labels, ids, producers, i, j - 1);
      HistoryGrows(trace, labels, ids, producers, j - 1, j);
      ReportIsFinal(trace, labels, ids, producers, i, j - 1);
      RunKeepsInv(trace, labels, ids, producers, j - 1);
      assert StepAt(trace, labels, j - 1);
      ReportedStepMovesNothing(trace[j - 1], labels[j - 1], trace[j]);
    }
  }

  lemma ReportedStepMovesNothing(s: State, l: Label, s': State)
    requires Step(s, l, s') && FailStop(s.w, s.consumer, s.destructor)
    requires s.w.hist.raised && s.destructor.DesWaiting?
    ensures s'.w.hist.executed == s.w.hist.executed && s'.w.hist.released == s.w.hist.released
  {
    match l
    case ClientStep(c, ok) => ClientFrame(s.w, c, s.clients[c], ok);
    case ConsumerStep(code, ok) => StoppingMovesNothing(s.w, s.consumer, code, ok);
    case ReleaserStep => ReleaserFrame(s.w, s.releaser);
    case DestructorStep(ok) => DestructorFrame(s, ok);
    case _ =>
  }

  lemma StoppingMovesNothing(w: World, con: ConsumerPc, code: int, ok: bool)
    requires RingsOk(w) && MoveConsumer(w, con, code, ok).ConsumerMoved?
    requires Stopping(con) && (con.ConWhile? ==> w.mem.status == CAN_EXIT)
    ensures var h := MoveConsumer(w, con, code, ok).w.hist;
            h.executed == w.hist.executed && h.released == w.hist.released
  {
  }

  /** ERROR_EXIT is stored exactly when the drain has found the ring empty: the step that
      stores it follows a test of the ring at which everything accepted was released. */
  lemma {:induction false} ReportFollowsEmptyDrain(trace: seq<State>, labels: seq<Label>, ids: set<ThreadId>,
                                                   producers: set<ThreadId>, i: nat) returns (k: nat)
    requires IsRun(trace, labels, ids, producers) && i < |trace|
    requires trace[i].consumer.ConSetError? && !trace[i].w.hist.raised
    ensures k < i && labels[k].ConsumerStep? && trace[k].consumer.ConDrainTest? && IsEmpty(trace[k].w.ring)
    ensures trace[k].w.hist.released == trace[k].w.hist.accepted
    ensures trace[i].w.hist.released == trace[k].w.hist.released
  {
    k := 0;
    if i > 0 {
      HistoryGrows(trace, labels, ids, producers, i - 1, i);
      RunKeepsInv(trace, labels, ids, producers, i - 1);
      assert StepAt(trace, labels, i - 1);
      k := i - 1;
      BeforeReport(trace[i - 1], labels[i - 1], trace[i]);
      if trace[i - 1].consumer.ConSetError? {
        k := ReportFollowsEmptyDrain(trace, labels, ids, producers, i - 1);
      }
    }
  }

  lemma BeforeReport(s: State, l: Label, s': State)
    requires Inv(s) && Step(s, l, s') && s'.consumer.ConSetError? && !s.w.hist.raised
    ensures s'.w.hist.released == s.w.hist.released
    ensures s.consumer.ConSetError? ||
            (l.ConsumerStep? && s.consumer.ConDrainTest? && IsEmpty(s.w.ring) && s.w.hist.released == s.w.hist.accepted)
  {
    TracksTests(s.w.ring, QUEUE_CAPACITY, s.w.hist.accepted, s.w.hist.taken);
    match l
    case ClientStep(c, ok) => ClientFrame(s.w, c, s.clients[c], ok);
    case ConsumerStep(code, ok) => OnlyEmptyDrainReports(s.w, s.consumer, code, ok);
    case ReleaserStep => ReleaserFrame(s.w, s.releaser);
    case DestructorStep(ok) => DestructorFrame(s, ok);
    case _ =>
  }

  /** The drain goes on exactly as long as its test finds a task. */
  lemma OnlyEmptyDrainReports(w: World, con: ConsumerPc, code: int, ok: bool)
    requires RingsOk(w) && MoveConsumer(w, con, code, ok).ConsumerMoved?
    ensures MoveConsumer(w, con, code, ok).pc.ConSetError? <==> con.ConDrainTest? && IsEmpty(w.ring)
    ensures con.ConDrainTest? ==> MoveConsumer(w, con, code, ok).w == w
  {
  }

  /** How many steps the consumer can still take once ERROR_EXIT has been stored. */
  function StopRank(con: ConsumerPc, status: RepoStatus): nat {
    match con
    case ConErrorLoad => 14
    case ConErrorStore(_) => 13
    case ConErrorNotifyEmpty => 12
    case ConErrorNotifyWrite => 11
    case ConCheckNeedExit => 10
    case ConCheckError => 9
    case ConClearWorking => 8
    case ConSleepTest => 7
    case ConSleepTest2(_) => 6
    case ConBlocked => 5
    case ConWoken => 4
    case ConSetWorking => 4
    case ConWhile => 3
    case ConLeave => if status == CAN_EXIT then 2 else 7
    case ConLoopCanExit => if status == CAN_EXIT then 1 else 6
    case ConLoopError => 5
    case _ => 0
  }

  function ConsumerTurns(labels: seq<Label>): nat {
    if labels == [] then 0
    else ConsumerTurns(labels[..|labels| - 1]) + if labels[|labels| - 1].ConsumerStep? then 1 else 0
  }

  lemma TurnsUpTo(labels: seq<Label>, i: nat, j: nat)
    requires i < j <= |labels|
    ensures ConsumerTurns(labels[i..j]) ==
              ConsumerTurns(labels[i..j - 1]) + if labels[j - 1].ConsumerStep? then 1 else 0
  {
    assert labels[i..j][..j - i - 1] == labels[i..j - 1];
  }

  lemma ConsumerStopsSooner(w: World, con: ConsumerPc, code: int, ok: bool, des: DestructorPc)
    requires RingsOk(w) && MoveConsumer(w, con, code, ok).ConsumerMoved?
    requires FailStop(w, con, des) && w.hist.raised && des.DesWaiting?
    ensures var move := MoveConsumer(w, con, code, ok);
            StopRank(move.pc, move.w.mem.status) < StopRank(con, w.mem.status)
  {
    if InError(con) {
      ReporterStopsSooner(w, con, ok);
    } else {
      LoopStopsSooner(w, con, ok);
    }
  }

  lemma ReporterStopsSooner(w: World, con: ConsumerPc, ok: bool)
    requires ErrorMove(w, con, ok).ConsumerMoved? && Stopping(con)
    ensures var move := ErrorMove(w, con, ok);
            StopRank(move.pc, move.w.mem.status) < StopRank(con, w.mem.status)
  {
  }

  lemma LoopStopsSooner(w: World, con: ConsumerPc, ok: bool)
    requires DequeueMove(w, con, ok).ConsumerMoved? && Stopping(con)
    requires w.mem.status == ERROR_EXIT || w.mem.status == CAN_EXIT
    requires Missed(con) ==> w.mem.status == CAN_EXIT
    ensures var move := DequeueMove(w, con, ok);
            StopRank(move.pc, move.w.mem.status) < StopRank(con, w.mem.status)
  {
  }

  lemma OthersDoNotDelayStop(s: State, l: Label, s': State)
    requires Inv(s) && Step(s, l, s') && !l.ConsumerStep?
    requires s.w.hist.raised && s'.destructor.DesWaiting?
    ensures StopRank(s'.consumer, s'.w.mem.status) <= StopRank(s.consumer, s.w.mem.status)
  {
    match l
    case ClientStep(c, ok) =>
      assert ClientInv(s, c);
      ClientKeepsThrows(s.w, c, s.clients[c], ok, s.consumer, s.destructor);
    case ReleaserStep => ReleaserFrame(s.w, s.releaser);
    case DestructorStep(ok) => DestructorFrame(s, ok);
    case _ =>
  }

  /** Once ERROR_EXIT has been stored, and until the destructor starts, the consumer
      takes at most 14 more steps, whatever the clients do. */
  lemma {:induction false} ConsumerStopsSoon(
    trace: seq<State>, labels: seq<Label>, ids: set<ThreadId>, producers: set<ThreadId>, i: nat, j: nat)
    requires IsRun(trace, labels, ids, producers) && i <= j < |trace|
    requires trace[i].w.hist.raised && trace[j].destructor.DesWaiting?
    ensures ConsumerTurns(labels[i..j]) + StopRank(trace[j].consumer, trace[j].w.mem.status) <= 14
  {
    if i < j {
      var s, l, s' := trace[j - 1], labels[j - 1], trace[j];
      assert StepAt(trace, labels, j - 1);
      StepGrows(s, l, s');
      ConsumerStopsSoon(trace, labels, ids, producers, i, j - 1);
      HistoryGrows(trace, labels, ids, producers, i, j - 1);
      RunKeepsInv(trace, labels, ids, producers, j - 1);
      TurnsUpTo(labels, i, j);
      StopRankFalls(s, l, s');
    }
  }

  lemma StopRankFalls(s: State, l: Label, s': State)
    requires Inv(s) && Step(s, l, s') && s.w.hist.raised && s'.destructor.DesWaiting?
    ensures StopRank(s'.consumer, s'.w.mem.status) + (if l.ConsumerStep? then 1 else 0)
         <= StopRank(s.consumer, s.w.mem.status)
  {
    StepGrows(s, l, s');
    if l.ConsumerStep? {
      ConsumerStopsSooner(s.w, s.consumer, l.code, l.ok, s.destructor);
    } else {
      OthersDoNotDelayStop(s, l, s');
    }
  }

  /** Where the consumer ends up: it has left StartConsume, unless a client had
      already claimed the error when the consumer looked for it; then it may
      sleep, with CAN_EXIT in the status word, until somebody writes a token. */
  lemma StoppedMeansExitedOrMissed(trace: seq<State>, labels: seq<Label>, ids: set<ThreadId>,
                                   producers: set<ThreadId>, i: nat)
    requires IsRun(trace, labels, ids, producers) && i < |trace|
    requires trace[i].w.hist.raised && trace[i].destructor.DesWaiting?
    ensures RingsOk(trace[i].w)
    ensures !ConsumerCanMove(trace[i]) ==>
              || trace[i].consumer.ConExited?
              || (trace[i].consumer.ConBlocked? && trace[i].w.mem.status == CAN_EXIT
                  && exists c :: c in trace[i].clients && Claims(trace[i].clients[c]) == 1)
  {
    RunKeepsInv(trace, labels, ids, producers, i);
    OnlySleepStopsConsumer(trace[i].w, trace[i].consumer);
  }

  /** Exactly when the consumer leaves its loop on seeing the failure: when no
      client has claimed the error before the consumer's own look at the status. */
  lemma ConsumerLeavesIffUnclaimed(trace: seq<State>, labels: seq<Label>, ids: set<ThreadId>, producers: set<ThreadId>,
                                   i: nat, code: int, ok: bool)
    requires IsRun(trace, labels, ids, producers) && i < |labels|
    requires labels[i] == ConsumerStep(code, ok)
    requires trace[i].w.hist.failed && trace[i].destructor.DesWaiting? && trace[i].consumer.ConCheckError?
    ensures trace[i + 1].consumer.ConLeave? <==>
            forall c :: c in trace[i].clients ==> Claims(trace[i].clients[c]) == 0
  {
    RunKeepsInv(trace, labels, ids, producers, i);
    var s := trace[i];
    assert StepAt(trace, labels, i);
    forall c | c in s.clients ensures Claims(s.clients[c]) == 1 ==> s.w.mem.status == CAN_EXIT {
      assert ClientInv(s, c);
    }
    forall c | c in s.clients ensures Claims(s.clients[c]) <= 1 {
      assert ClientInv(s, c);
    }
  }

  /** Until the destructor starts, a client sees at most one exception. */
  lemma OneExceptionPerClient(trace: seq<State>, labels: seq<Label>, ids: set<ThreadId>, producers: set<ThreadId>,
                              i: nat, c: ThreadId)
    requires IsRun(trace, labels, ids, producers) && i < |trace| && c in ids
    requires trace[i].destructor.DesWaiting?
    ensures c in trace[i].clients && trace[i].clients[c].throws <= 1
    ensures trace[i].clients[c].throws == 1 ==> trace[i].w.hist.failed
  {
    RunKeepsInv(trace, labels, ids, producers, i);
    assert ClientInv(trace[i], c);
  }

  lemma NobodyStartsWriting(s: State, l: Label, s': State, d: ThreadId)
    requires Step(s, l, s') && s.w.mem.status == CAN_EXIT && d in s.clients && !Writing(s.clients[d].pc)
    ensures d in s'.clients && !Writing(s'.clients[d].pc)
    ensures l == ClientStep(d, true) || l == ClientStep(d, false) ==> s'.w.hist.accepted == s.w.hist.accepted
  {
    if l.ClientStep? && l.c == d {
      if InThrow(s.clients[d].pc) {
        assert MoveClient(s.w, d, s.clients[d], l.ok) == ThrowMove(s.w, s.clients[d]);
      } else {
        ClientReadsStatus(s.w, d, s.clients[d], l.ok);
        ControlFrame(s.w, d, s.clients[d], l.ok);
      }
    }
  }

  /** A client was already past the status checks of Enqueue. */
  ghost predicate WasWriting(s: State, c: ThreadId) {
    c in s.clients && Writing(s.clients[c].pc)
  }

  /** From s0 to s nobody has entered the writing part of Enqueue, and if nobody was in
      it at s0, nothing has been accepted. */
  ghost predicate QuietSince(s0: State, s: State, ids: set<ThreadId>) {
    && s.w.mem.status == CAN_EXIT
    && (forall d :: d in ids && !WasWriting(s0, d) ==> !WasWriting(s, d))
    && ((forall d :: d in ids ==> !WasWriting(s0, d)) ==> s.w.hist.accepted == s0.w.hist.accepted)
  }

  /** Once a client has thrown (or is about to), Enqueue accepts nothing more: until
      the destructor starts, only calls that had already passed the status checks
      can still publish, and a client outside such a call stays outside. */
  lemma {:induction false} NothingAcceptedAfterException(
    trace: seq<State>, labels: seq<Label>, ids: set<ThreadId>, producers: set<ThreadId>, i: nat, j: nat, c: ThreadId)
    requires IsRun(trace, labels, ids, producers) && i <= j < |trace|
    requires trace[j].destructor.DesWaiting?
    requires c in trace[i].clients && Claims(trace[i].clients[c]) == 1
    ensures QuietSince(trace[i], trace[j], ids)
  {
    HistoryGrows(trace, labels, ids, producers, i, j);
    if i == j {
      RunKeepsInv(trace, labels, ids, producers, i);
      assert ClientInv(trace[i], c);
    } else {
      HistoryGrows(trace, labels, ids, producers, j - 1, j);
      NothingAcceptedAfterException(trace, labels, ids, producers, i, j - 1, c);
      ClaimMeansRaised(trace, labels, ids, producers, i, j - 1, c);
      assert StepAt(trace, labels, j - 1);
      StepKeepsQuiet(trace[i], trace[j - 1], labels[j - 1], trace[j], ids);
    }
  }

  lemma ClaimMeansRaised(
    trace: seq<State>, labels: seq<Label>, ids: set<ThreadId>, producers: set<ThreadId>, i: nat, j: nat, c: ThreadId)
    requires IsRun(trace, labels, ids, producers) && i <= j < |trace| && trace[j].destructor.DesWaiting?
    requires c in trace[i].clients && Claims(trace[i].clients[c]) == 1
    ensures Inv(trace[j]) && trace[j].clients.Keys == ids && trace[j].w.hist.raised
  {
    HistoryGrows(trace, labels, ids, producers, i, j);
    RunKeepsInv(trace, labels, ids, producers, i);
    RunKeepsInv(trace, labels, ids, producers, j);
    assert ClientInv(trace[i], c);
  }

  lemma StepKeepsQuiet(s0: State, s: State, l: Label, s': State, ids: set<ThreadId>)
    requires Inv(s) && Step(s, l, s') && s'.destructor.DesWaiting?
    requires s.w.hist.raised && s.clients.Keys == ids && QuietSince(s0, s, ids)
    ensures QuietSince(s0, s', ids)
  {
    ClaimedStatusStays(s, l, s');
    forall d | d in ids && !WasWriting(s0, d) ensures !WasWriting(s', d) {
      NobodyStartsWriting(s, l, s', d);
    }
    if forall d :: d in ids ==> !WasWriting(s0, d) {
      QuietStepAcceptsNothing(s, l, s', ids);
    }
  }

  lemma ClaimedStatusStays(s: State, l: Label, s': State)
    requires Inv(s) && Step(s, l, s') && s'.destructor.DesWaiting?
    requires s.w.hist.raised && s.w.mem.status == CAN_EXIT
    ensures s'.w.mem.status == CAN_EXIT
  {
    match l
    case ClientStep(c, ok) =>
      assert ClientInv(s, c);
      ClientKeepsThrows(s.w, c, s.clients[c], ok, s.consumer, s.destructor);
    case ConsumerStep(code, ok) => StoppingConsumerKeepsStatus(s.w, s.consumer, code, ok);
    case ReleaserStep => ReleaserFrame(s.w, s.releaser);
    case DestructorStep(ok) => DestructorFrame(s, ok);
    case _ =>
  }

  lemma StoppingConsumerKeepsStatus(w: World, con: ConsumerPc, code: int, ok: bool)
    requires RingsOk(w) && MoveConsumer(w, con, code, ok).ConsumerMoved?
    requires Stopping(con) && w.mem.status == CAN_EXIT
    ensures MoveConsumer(w, con, code, ok).w.mem.status == CAN_EXIT
  {
  }

  lemma QuietStepAcceptsNothing(s: State, l: Label, s': State, ids: set<ThreadId>)
    requires Step(s, l, s') && s.clients.Keys == ids && s.w.mem.status == CAN_EXIT
    requires forall d :: d in ids ==> !WasWriting(s, d)
    ensures s'.w.hist.accepted == s.w.hist.accepted
  {
    match l
    case ClientStep(c, ok) =>
      assert !WasWriting(s, c);
      NobodyStartsWriting(s, l, s', c);
    case ConsumerStep(code, ok) => ConsumerGrows(s.w, s.consumer, code, ok);
    case ReleaserStep => ReleaserFrame(s.w, s.releaser);
    case DestructorStep(ok) => DestructorFrame(s, ok);
    case _ =>
  }

  // ----- Shutdown -----

  /** What a shutdown without failures leaves behind: exactly the tasks accepted
      after ReadQueue's last answer "empty". */
  lemma ShutdownDropsExactlyLateTasks(trace: seq<State>, labels: seq<Label>, ids: set<ThreadId>,
                                      producers: set<ThreadId>, i: nat)
    requires IsRun(trace, labels, ids, producers) && i < |trace|
    requires trace[i].consumer.ConExited? && !trace[i].w.hist.failed
    ensures var h := trace[i].w.hist;
            && h.seenEmpty <= |h.accepted|
            && h.executed == h.accepted[..h.seenEmpty]
            && h.released == h.executed
            && WellFormed(trace[i].w.ring, QUEUE_CAPACITY)
            && Contents(trace[i].w.ring) == h.accepted[h.seenEmpty..]
            && (h.executed == h.accepted <==> h.seenEmpty == |h.accepted|)
  {
    RunKeepsInv(trace, labels, ids, producers, i);
    TracksContents(trace[i].w.ring, QUEUE_CAPACITY, trace[i].w.hist.accepted, trace[i].w.hist.taken);
  }

  /** Destroying an idle queue loses nothing: if the ring is empty and no Enqueue is
      running at some moment, and none begins later, then a consumer that has exited
      without a failure has executed everything. */
  lemma IdleQueueShutsDownClean(trace: seq<State>, labels: seq<Label>, ids: set<ThreadId>, producers: set<ThreadId>,
                                i: nat, j: nat)
    requires IsRun(trace, labels, ids, producers) && i <= j < |trace|
    requires IsEmpty(trace[i].w.ring)
    requires forall d :: d in trace[i].clients ==> !InEnqueue(trace[i].clients[d].pc)
    requires forall m :: i <= m < j ==> !labels[m].BeginEnqueue?
    requires trace[j].consumer.ConExited? && !trace[j].w.hist.failed
    ensures trace[j].w.hist.executed == trace[j].w.hist.accepted == trace[i].w.hist.accepted
  {
    HistoryGrows(trace, labels, ids, producers, i, j);
    RunKeepsInv(trace, labels, ids, producers, i);
    TracksTests(trace[i].w.ring, QUEUE_CAPACITY, trace[i].w.hist.accepted, trace[i].w.hist.taken);
    QuietRunAcceptsNothing(trace, labels, ids, producers, i, j);
    RunKeepsInv(trace, labels, ids, producers, j);
  }

  lemma {:induction false} QuietRunAcceptsNothing(
    trace: seq<State>, labels: seq<Label>, ids: set<ThreadId>, producers: set<ThreadId>, i: nat, j: nat)
    requires IsRun(trace, labels, ids, producers) && i <= j < |trace|
    requires forall d :: d in trace[i].clients ==> !InEnqueue(trace[i].clients[d].pc)
    requires forall m :: i <= m < j ==> !labels[m].BeginEnqueue?
    ensures trace[j].w.hist.accepted == trace[i].w.hist.accepted
    ensures forall d :: d in trace[j].clients ==> !InEnqueue(trace[j].clients[d].pc)
  {
    if i < j {
      QuietRunAcceptsNothing(trace, labels, ids, producers, i, j - 1);
      assert StepAt(trace, labels, j - 1);
      IdleStepAcceptsNothing(trace[j - 1], labels[j - 1], trace[j]);
    }
  }

  lemma IdleStepAcceptsNothing(s: State, l: Label, s': State)
    requires Step(s, l, s') && !l.BeginEnqueue?
    requires forall d :: d in s.clients ==> !InEnqueue(s.clients[d].pc)
    ensures s'.w.hist.accepted == s.w.hist.accepted
    ensures forall d :: d in s'.clients ==> !InEnqueue(s'.clients[d].pc)
  {
    match l
    case ClientStep(c, ok) =>
      ClientStaysProducer(s.w, c, s.clients[c], ok);
      if !InThrow(s.clients[c].pc) {
        ControlFrame(s.w, c, s.clients[c], ok);
      }
    case ConsumerStep(code, ok) => ConsumerGrows(s.w, s.consumer, code, ok);
    case ReleaserStep => ReleaserFrame(s.w, s.releaser);
    case DestructorStep(ok) => DestructorFrame(s, ok);
    case _ =>
  }
}
