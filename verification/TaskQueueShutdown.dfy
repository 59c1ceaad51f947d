/** Shutting the queue down: what the releaser has freed when it leaves, and that the
    destructor gets to its end. */
module TaskQueueShutdown {
  import opened Rings
  import opened TaskQueue
  import opened TaskQueueInvariants
  import opened TaskQueueTheorems

  // ----- The releaser and the destructor -----

  /** The destructor has not told the releaser to stop yet. */
  predicate BeforeReleaseStop(des: DestructorPc) {
    des.DesWaiting? || des.DesNotify? || des.DesJoin? || des.DesNotifyEmpty? || des.DesReleaseStatus?
  }

  /** The releaser looks at the status only after an answer "empty", and everything pushed
      before that answer has been freed and recycled by then. */
  ghost predicate Stops(s: State) {
    var m, h, rel, des := s.w.mem, s.w.hist, s.releaser, s.destructor;
    && (m.releaseStatus == INIT <==> BeforeReleaseStop(des))
    && (m.releaseStatus == INIT || m.releaseStatus == NEED_EXIT || m.releaseStatus == CAN_EXIT)
    && (rel.RelSwapStatus? ==> m.releaseStatus == NEED_EXIT)
    && (rel.RelExited? ==> m.releaseStatus == CAN_EXIT)
    && (m.releaseStatus == CAN_EXIT ==> rel.RelLoop? || rel.RelExited?)
    && h.freedAll <= h.recycled
    && (rel.RelCheckNeedExit? || rel.RelSwapStatus? || m.releaseStatus == CAN_EXIT ==> h.recycled == h.freedAll)
    && (!des.DesWaiting? && !des.DesNotify? && !des.DesJoin? ==> s.consumer.ConExited?)
    && (des.DesDone? ==> rel.RelExited?)
  }

  lemma ConsumerKeepsReleaseState(w: World, con: ConsumerPc, code: int, ok: bool)
    requires RingsOk(w) && MoveConsumer(w, con, code, ok).ConsumerMoved?
    ensures var w' := MoveConsumer(w, con, code, ok).w;
            && w'.mem.releaseStatus == w.mem.releaseStatus
            && w'.hist.recycled == w.hist.recycled && w'.hist.freedAll == w.hist.freedAll
    ensures !con.ConExited?
  {
    if !InRead(con) && !InError(con) {
      DequeueFrame(w, con, ok);
      ConsumerLeavesReleaseStatus(w, con, code, ok);
    }
  }

  lemma ReleaserKeepsStops(s: State, s': State)
    requires Inv(s) && Stops(s) && ReleaserSteps(s, s')
    ensures Stops(s') && s.w.hist.freedAll <= s'.w.hist.freedAll
  {
    TracksTests(s.w.releaseRing, RELEASE_CAPACITY, s.w.hist.released, s.w.hist.recycled);
  }

  lemma StepKeepsStops(s: State, l: Label, s': State)
    requires Inv(s) && Stops(s) && Step(s, l, s')
    ensures Stops(s') && s.w.hist.freedAll <= s'.w.hist.freedAll
    ensures s.consumer.ConExited? ==> s'.consumer.ConExited? && s'.w.hist.released == s.w.hist.released
  {
    match l
    case ClientStep(c, ok) => ClientFrame(s.w, c, s.clients[c], ok);
    case ConsumerStep(code, ok) => ConsumerKeepsReleaseState(s.w, s.consumer, code, ok);
    case ReleaserStep =>
      ReleaserFrame(s.w, s.releaser);
      ReleaserKeepsStops(s, s');
    case DestructorStep(ok) => DestructorFrame(s, ok);
    case _ =>
  }

  lemma {:induction false} RunKeepsStops(trace: seq<State>, labels: seq<Label>, ids: set<ThreadId>,
                                         producers: set<ThreadId>, i: nat)
    requires IsRun(trace, labels, ids, producers) && i < |trace|
    ensures Stops(trace[i])
  {
    if i > 0 {
      RunKeepsStops(trace, labels, ids, producers, i - 1);
      RunKeepsInv(trace, labels, ids, producers, i - 1);
      assert StepAt(trace, labels, i - 1);
      StepKeepsStops(trace[i - 1], labels[i - 1], trace[i]);
    }
  }

  /** A releaser that has left StartRelease has freed, in order, exactly the entries pushed
      when ReadFromReleaseQueue last answered "empty"; whatever was pushed since is still
      in the release ring. */
  lemma ReleaserLeavesExactly(trace: seq<State>, labels: seq<Label>, ids: set<ThreadId>, producers: set<ThreadId>,
                              i: nat)
    requires IsRun(trace, labels, ids, producers) && i < |trace| && trace[i].releaser.RelExited?
    ensures var w, h := trace[i].w, trace[i].w.hist;
            && h.freedAll <= |h.released|
            && h.freed == h.released[..h.freedAll]
            && WellFormed(w.releaseRing, RELEASE_CAPACITY)
            && Contents(w.releaseRing) == h.released[h.freedAll..]
            && (h.freed == h.released <==> h.freedAll == |h.released|)
  {
    RunKeepsInv(trace, labels, ids, producers, i);
    RunKeepsStops(trace, labels, ids, producers, i);
    TracksContents(trace[i].w.releaseRing, RELEASE_CAPACITY, trace[i].w.hist.released, trace[i].w.hist.recycled);
  }

  lemma {:induction false} ExitedConsumerPushesNothing(trace: seq<State>, labels: seq<Label>, ids: set<ThreadId>,
                                                       producers: set<ThreadId>, i: nat, j: nat)
    requires IsRun(trace, labels, ids, producers) && i <= j < |trace|
    ensures trace[i].w.hist.freedAll <= trace[j].w.hist.freedAll
    ensures trace[i].consumer.ConExited? ==>
              trace[j].consumer.ConExited? && trace[j].w.hist.released == trace[i].w.hist.released
  {
    if i < j {
      ExitedConsumerPushesNothing(trace, labels, ids, producers, i, j - 1);
      PushesNothingMore(trace, labels, ids, producers, j - 1);
    }
  }

  lemma PushesNothingMore(trace: seq<State>, labels: seq<Label>, ids: set<ThreadId>, producers: set<ThreadId>, j: nat)
    requires IsRun(trace, labels, ids, producers) && j + 1 < |trace|
    ensures trace[j].w.hist.freedAll <= trace[j + 1].w.hist.freedAll
    ensures trace[j].consumer.ConExited? ==>
              trace[j + 1].consumer.ConExited? && trace[j + 1].w.hist.released == trace[j].w.hist.released
  {
    RunKeepsInv(trace, labels, ids, producers, j);
    RunKeepsStops(trace, labels, ids, producers, j);
    assert StepAt(trace, labels, j);
    StepKeepsStops(trace[j], labels[j], trace[j + 1]);
  }

  /** If ReadFromReleaseQueue has answered "empty" once the consumer had exited, the
      releaser leaves nothing behind. */
  lemma LateAnswerFreesEverything(trace: seq<State>, labels: seq<Label>, ids: set<ThreadId>,
                                  producers: set<ThreadId>, k: nat, i: nat)
    requires IsRun(trace, labels, ids, producers) && k < i < |trace|
    requires labels[k].ReleaserStep? && trace[k].releaser.RelTestEmpty? && IsEmpty(trace[k].w.releaseRing)
    requires trace[k].consumer.ConExited? && trace[i].releaser.RelExited?
    ensures trace[i].w.hist.freed == trace[i].w.hist.released
  {
    assert StepAt(trace, labels, k);
    ExitedConsumerPushesNothing(trace, labels, ids, producers, k, k + 1);
    ExitedConsumerPushesNothing(trace, labels, ids, producers, k + 1, i);
    ReleaserLeavesExactly(trace, labels, ids, producers, i);
  }

  /** What the destructor leaves behind when it is through, on a run without failures:
      both threads have exited, and executed, released and freed are those prefixes of the
      accepted tasks that the two last answers "empty" cut out. */
  lemma DestructorLeavesExactly(trace: seq<State>, labels: seq<Label>, ids: set<ThreadId>, producers: set<ThreadId>,
                                i: nat)
    requires IsRun(trace, labels, ids, producers) && i < |trace|
    requires trace[i].destructor.DesDone? && !trace[i].w.hist.failed
    ensures var h := trace[i].w.hist;
            && trace[i].consumer.ConExited? && trace[i].releaser.RelExited?
            && h.freedAll <= h.seenEmpty <= |h.accepted|
            && h.executed == h.released == h.accepted[..h.seenEmpty]
            && h.freed == h.accepted[..h.freedAll]
  {
    RunKeepsStops(trace, labels, ids, producers, i);
    ReleaserLeavesExactly(trace, labels, ids, producers, i);
    ShutdownDropsExactlyLateTasks(trace, labels, ids, producers, i);
  }

  // ----- The destructor gets to its end -----

  /** The consumer can fall asleep without another look at NEED_EXIT. */
  predicate Sleepy(con: ConsumerPc) {
    con.ConCheckError? || con.ConClearWorking? || con.ConSleepTest? || con.ConSleepTest2? || con.ConBlocked?
  }

  /** The destructor's token waits for a consumer that may still fall asleep. */
  ghost predicate TokenWaits(s: State) {
    s.destructor.DesJoin? && !s.w.hist.failed && Sleepy(s.consumer) ==> s.w.mem.efdRead > 0
  }

  lemma ConsumerKeepsToken(w: World, con: ConsumerPc, code: int, ok: bool)
    requires RingsOk(w) && MoveConsumer(w, con, code, ok).ConsumerMoved? && !InError(con)
    requires w.mem.status == NEED_EXIT || !con.ConCheckNeedExit?
    requires Sleepy(con) ==> w.mem.efdRead > 0
    ensures var move := MoveConsumer(w, con, code, ok);
            !move.w.hist.failed && Sleepy(move.pc) ==> move.w.mem.efdRead > 0
  {
  }

  lemma ClientKeepsToken(w: World, c: ThreadId, k: Client, ok: bool)
    requires RingsOk(w) && MoveClient(w, c, k, ok).ClientMoved?
    ensures MoveClient(w, c, k, ok).w.mem.efdRead >= w.mem.efdRead
  {
    NotifierLeavesToken(w, c, k, ok);
  }

  lemma StepKeepsToken(s: State, l: Label, s': State)
    requires Inv(s) && TokenWaits(s) && Step(s, l, s')
    requires l.DestructorStep? && s.destructor.DesNotify? ==> l.ok
    ensures TokenWaits(s')
  {
    match l
    case ClientStep(c, ok) =>
      ClientFrame(s.w, c, s.clients[c], ok);
      ClientKeepsToken(s.w, c, s.clients[c], ok);
    case ConsumerStep(code, ok) =>
      ConsumerGrows(s.w, s.consumer, code, ok);
      if s.destructor.DesJoin? && !s'.w.hist.failed {
        ConsumerKeepsToken(s.w, s.consumer, code, ok);
      }
    case ReleaserStep => ReleaserFrame(s.w, s.releaser);
    case DestructorStep(ok) => DestructorFrame(s, ok);
    case _ =>
  }

  /** The destructor's own notification is not interrupted. */
  ghost predicate DestructorHeard(trace: seq<State>, labels: seq<Label>, n: nat)
    requires n <= |labels| < |trace|
  {
    forall m :: 0 <= m < n && labels[m].DestructorStep? && trace[m].destructor.DesNotify? ==> labels[m].ok
  }

  lemma {:induction false} RunKeepsToken(trace: seq<State>, labels: seq<Label>, ids: set<ThreadId>,
                                         producers: set<ThreadId>, i: nat)
    requires IsRun(trace, labels, ids, producers) && i < |trace| && DestructorHeard(trace, labels, i)
    ensures TokenWaits(trace[i])
  {
    if i > 0 {
      RunKeepsToken(trace, labels, ids, producers, i - 1);
      RunKeepsInv(trace, labels, ids, producers, i - 1);
      assert StepAt(trace, labels, i - 1);
      StepKeepsToken(trace[i - 1], labels[i - 1], trace[i]);
    }
  }

  /** On runs without failures a destructor that has started never waits for a thread that
      cannot move: it can move itself, or it joins a consumer or a releaser that can. */
  lemma ShutdownIsNeverStuck(trace: seq<State>, labels: seq<Label>, ids: set<ThreadId>, producers: set<ThreadId>,
                             i: nat)
    requires IsRun(trace, labels, ids, producers) && i < |trace| && DestructorHeard(trace, labels, i)
    requires !trace[i].w.hist.failed && !trace[i].destructor.DesWaiting? && !trace[i].destructor.DesDone?
    ensures RingsOk(trace[i].w)
    ensures MoveDestructor(trace[i], true).DestructorBlocked? ==>
              || (trace[i].destructor.DesJoin? && ConsumerCanMove(trace[i]))
              || (trace[i].destructor.DesReleaseJoin? && MoveReleaser(trace[i].w, trace[i].releaser).ReleaserMoved?)
  {
    RunKeepsInv(trace, labels, ids, producers, i);
    RunKeepsStops(trace, labels, ids, producers, i);
    RunKeepsToken(trace, labels, ids, producers, i);
    OnlySleepStopsConsumer(trace[i].w, trace[i].consumer);
  }

  /** The destructor's last notification, unless interrupted, wakes a flush that still waits. */
  lemma DestructorWakesFlush(trace: seq<State>, labels: seq<Label>, ids: set<ThreadId>, producers: set<ThreadId>,
                             k: nat, c: ThreadId)
    requires IsRun(trace, labels, ids, producers) && k < |labels| && labels[k] == DestructorStep(true)
    requires trace[k].destructor.DesNotifyEmpty? && c in trace[k].clients && trace[k].clients[c].pc.FlushBlocked?
    ensures RingsOk(trace[k + 1].w) && ClientCanMove(trace[k + 1], c)
    ensures trace[k].consumer.ConExited?
  {
    RunKeepsInv(trace, labels, ids, producers, k + 1);
    RunKeepsStops(trace, labels, ids, producers, k);
    assert StepAt(trace, labels, k);
    OnlyLocksAndSleepStopClients(trace[k + 1].w, c, trace[k + 1].clients[c]);
  }
}
