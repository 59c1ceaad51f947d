/** Where the guarantees stop: concrete runs, built step by step, that show why
    each condition in TaskQueueTheorems is needed. */
module TaskQueueLimits {
  import opened Rings
  import opened TaskQueue
  import opened TaskQueueInvariants
  import opened TaskQueueTheorems
  import opened TaskQueueFailures

  ghost predicate Reachable(s: State, ids: set<ThreadId>, producers: set<ThreadId>) {
    Shape(s) && exists trace, labels :: IsRun(trace, labels, ids, producers) && trace[|trace| - 1] == s
  }

  lemma Extend(s: State, l: Label, s': State, ids: set<ThreadId>, producers: set<ThreadId>)
    requires Reachable(s, ids, producers) && Step(s, l, s')
    ensures Reachable(s', ids, producers)
  {
    var trace, labels :| IsRun(trace, labels, ids, producers) && trace[|trace| - 1] == s;
    var trace', labels' := trace + [s'], labels + [l];
    forall i | 0 <= i < |labels'| ensures StepAt(trace', labels', i) {
      if i < |labels| {
        assert StepAt(trace, labels, i);
      }
    }
    assert IsRun(trace', labels', ids, producers);
    StepKeepsShape(s, l, s');
  }

  lemma Start(ids: set<ThreadId>, producers: set<ThreadId>) returns (s: State)
    ensures s == Initial(ids, producers) && Reachable(s, ids, producers)
  {
    s := Initial(ids, producers);
    assert IsRun([s], [], ids, producers);
  }

  lemma Consumer(s: State, code: int, ids: set<ThreadId>, producers: set<ThreadId>) returns (s': State)
    requires Reachable(s, ids, producers) && MoveConsumer(s.w, s.consumer, code, true).ConsumerMoved?
    ensures Reachable(s', ids, producers)
    ensures var move := MoveConsumer(s.w, s.consumer, code, true);
            s' == s.(w := move.w, consumer := move.pc)
  {
    var move := MoveConsumer(s.w, s.consumer, code, true);
    s' := s.(w := move.w, consumer := move.pc);
    Extend(s, ConsumerStep(code, true), s', ids, producers);
  }

  lemma Releaser(s: State, ids: set<ThreadId>, producers: set<ThreadId>) returns (s': State)
    requires Reachable(s, ids, producers) && MoveReleaser(s.w, s.releaser).ReleaserMoved?
    ensures Reachable(s', ids, producers)
    ensures var move := MoveReleaser(s.w, s.releaser);
            s' == s.(w := move.w, releaser := move.pc)
  {
    var move := MoveReleaser(s.w, s.releaser);
    s' := s.(w := move.w, releaser := move.pc);
    Extend(s, ReleaserStep, s', ids, producers);
  }

  /** Client c takes one step; base is the client map up to c's own entry. */
  lemma Act(s: State, c: ThreadId, base: map<ThreadId, Client>, ids: set<ThreadId>, producers: set<ThreadId>)
    returns (s': State)
    requires Reachable(s, ids, producers) && ClientCanMove(s, c)
    requires s.clients == base[c := s.clients[c]]
    ensures Reachable(s', ids, producers)
    ensures var move := MoveClient(s.w, c, s.clients[c], true);
            s' == s.(w := move.w, clients := base[c := move.client])
  {
    var move := MoveClient(s.w, c, s.clients[c], true);
    s' := s.(w := move.w, clients := base[c := move.client]);
    assert s'.clients == s.clients[c := move.client];
    Extend(s, ClientStep(c, true), s', ids, producers);
  }

  lemma Begin(s: State, c: ThreadId, t: Task, ids: set<ThreadId>, producers: set<ThreadId>) returns (s': State)
    requires Reachable(s, ids, producers) && c in s.producers && c in s.clients && s.clients[c].pc.Idle?
    ensures Reachable(s', ids, producers)
    ensures s' == s.(clients := s.clients[c := s.clients[c].(pc := EnqCheckError(t))])
  {
    s' := s.(clients := s.clients[c := s.clients[c].(pc := EnqCheckError(t))]);
    Extend(s, BeginEnqueue(c, t), s', ids, producers);
  }

  lemma BeginFlushing(s: State, c: ThreadId, ids: set<ThreadId>, producers: set<ThreadId>) returns (s': State)
    requires Reachable(s, ids, producers) && c in s.clients && s.clients[c].pc.Idle?
    ensures Reachable(s', ids, producers)
    ensures s' == s.(clients := s.clients[c := s.clients[c].(pc := FlushTest(|s.w.hist.accepted|))])
  {
    s' := s.(clients := s.clients[c := s.clients[c].(pc := FlushTest(|s.w.hist.accepted|))]);
    Extend(s, BeginFlush(c), s', ids, producers);
  }

  lemma BeginDestructor(s: State, ids: set<ThreadId>, producers: set<ThreadId>) returns (s': State)
    requires Reachable(s, ids, producers) && s.destructor.DesWaiting?
    ensures Reachable(s', ids, producers)
    ensures s' == s.(w := s.w.(mem := s.w.mem.(status := NEED_EXIT)), destructor := DesNotify)
  {
    s' := s.(w := s.w.(mem := s.w.mem.(status := NEED_EXIT)), destructor := DesNotify);
    Extend(s, DestructorStep(true), s', ids, producers);
  }

  /** Enqueue from its call up to the lock, while the queue is in INIT. */
  lemma EnterEnqueue(s: State, c: ThreadId, t: Task, ids: set<ThreadId>, producers: set<ThreadId>) returns (s': State)
    requires Reachable(s, ids, producers) && c in s.producers && c in s.clients && s.clients[c] == Client(Idle, 0)
    requires s.w.mem.status == INIT
    ensures Reachable(s', ids, producers)
    ensures s' == s.(w := s.w.(mem := s.w.mem.(writeWorking := true)),
                     clients := s.clients[c := Client(EnqLock(t), 0)])
  {
    s' := PassChecks(s, c, t, ids, producers);
    s' := Act(s', c, s.clients, ids, producers);
  }

  lemma PassChecks(s: State, c: ThreadId, t: Task, ids: set<ThreadId>, producers: set<ThreadId>) returns (s': State)
    requires Reachable(s, ids, producers) && c in s.producers && c in s.clients && s.clients[c] == Client(Idle, 0)
    requires s.w.mem.status == INIT
    ensures Reachable(s', ids, producers)
    ensures s' == s.(clients := s.clients[c := Client(EnqSetWorking(t), 0)])
  {
    s' := Begin(s, c, t, ids, producers);
    s' := Act(s', c, s.clients, ids, producers);
    s' := Act(s', c, s.clients, ids, producers);
    s' := Act(s', c, s.clients, ids, producers);
  }

  /** Enqueue from the lock to just before the publish, on a ring that is not full. */
  lemma CopyTask(s: State, c: ThreadId, t: Task, ids: set<ThreadId>, producers: set<ThreadId>) returns (s': State)
    requires Reachable(s, ids, producers) && c in s.clients && s.clients[c] == Client(EnqLock(t), 0)
    requires s.w.mem.muEnqueue == None && !IsFull(s.w.ring, QUEUE_CAPACITY)
    ensures Reachable(s', ids, producers)
    ensures s' == s.(w := s.w.(ring := CopyIn(s.w.ring, t), mem := s.w.mem.(muEnqueue := Some(c))),
                     clients := s.clients[c := Client(EnqPublish(t), 0)])
  {
    assert s.clients == s.clients[c := s.clients[c]];
    s' := Act(s, c, s.clients, ids, producers);
    s' := Act(s', c, s.clients, ids, producers);
    s' := Act(s', c, s.clients, ids, producers);
  }

  lemma PublishTask(s: State, c: ThreadId, t: Task, ids: set<ThreadId>, producers: set<ThreadId>) returns (s': State)
    requires Reachable(s, ids, producers) && c in s.clients && s.clients[c] == Client(EnqLock(t), 0)
    requires s.w.mem.muEnqueue == None && !IsFull(s.w.ring, QUEUE_CAPACITY)
    ensures Reachable(s', ids, producers)
    ensures s' == s.(w := s.w.(ring := Publish(CopyIn(s.w.ring, t), QUEUE_CAPACITY),
                               hist := s.w.hist.(accepted := s.w.hist.accepted + [t])),
                     clients := s.clients[c := Client(EnqCheckReader, 0)])
  {
    s' := CopyTask(s, c, t, ids, producers);
    s' := Act(s', c, s.clients, ids, producers);
    s' := Act(s', c, s.clients, ids, producers);
  }

  lemma NotifyReader(s: State, c: ThreadId, ids: set<ThreadId>, producers: set<ThreadId>) returns (s': State)
    requires Reachable(s, ids, producers) && c in s.clients && s.clients[c] == Client(EnqCheckReader, 0)
    ensures Reachable(s', ids, producers)
    ensures s' == s.(w := s.w.(mem := s.w.mem.(
                       efdRead := s.w.mem.efdRead + if s.w.mem.readWorking then 0 else 1)),
                     clients := s.clients[c := Client(EnqFinish, 0)])
  {
    assert s.clients == s.clients[c := s.clients[c]];
    s' := Act(s, c, s.clients, ids, producers);
    if !s.w.mem.readWorking {
      s' := Act(s', c, s.clients, ids, producers);
    }
  }

  /** The end of Enqueue: a token is written only when the reader's flag is down. */
  lemma FinishEnqueue(s: State, c: ThreadId, ids: set<ThreadId>, producers: set<ThreadId>) returns (s': State)
    requires Reachable(s, ids, producers) && c in s.clients && s.clients[c] == Client(EnqCheckReader, 0)
    ensures Reachable(s', ids, producers)
    ensures s' == s.(w := s.w.(mem := s.w.mem.(
                       writeWorking := false,
                       efdRead := s.w.mem.efdRead + if s.w.mem.readWorking then 0 else 1)),
                     clients := s.clients[c := Client(Idle, 0)])
  {
    s' := NotifyReader(s, c, ids, producers);
    s' := Act(s', c, s.clients, ids, producers);
  }

  /** A whole Enqueue, undisturbed. */
  lemma WholeEnqueue(s: State, c: ThreadId, t: Task, ids: set<ThreadId>, producers: set<ThreadId>) returns (s': State)
    requires Reachable(s, ids, producers) && c in s.producers && c in s.clients && s.clients[c] == Client(Idle, 0)
    requires s.w.mem.status == INIT && s.w.mem.muEnqueue == None && !IsFull(s.w.ring, QUEUE_CAPACITY)
    ensures Reachable(s', ids, producers)
    ensures s' == s.(w := s.w.(ring := Publish(CopyIn(s.w.ring, t), QUEUE_CAPACITY),
                               mem := s.w.mem.(
                                 writeWorking := false,
                                 efdRead := s.w.mem.efdRead + if s.w.mem.readWorking then 0 else 1),
                               hist := s.w.hist.(accepted := s.w.hist.accepted + [t])))
  {
    s' := EnterEnqueue(s, c, t, ids, producers);
    s' := PublishTask(s', c, t, ids, producers);
    s' := FinishEnqueue(s', c, ids, producers);
    assert s'.clients == s.clients;
  }

  /** A flush by client c meets ERROR_EXIT and claims the error, up to loading write_idx. */
  lemma ClaimError(s: State, c: ThreadId, ids: set<ThreadId>, producers: set<ThreadId>) returns (s': State)
    requires Reachable(s, ids, producers) && c in s.clients && s.clients[c] == Client(Idle, 0)
    requires s.w.mem.status == ERROR_EXIT && IsEmpty(s.w.ring)
    ensures Reachable(s', ids, producers)
    ensures s' == s.(w := s.w.(mem := s.w.mem.(status := CAN_EXIT)),
                     clients := s.clients[c := Client(ThrowStore(s.w.ring.wr), 0)])
  {
    s' := FindEmpty(s, c, ids, producers);
    s' := Act(s', c, s.clients, ids, producers);
    s' := Act(s', c, s.clients, ids, producers);
    s' := Act(s', c, s.clients, ids, producers);
  }

  /** A flush that finds the ring empty at once. */
  lemma FindEmpty(s: State, c: ThreadId, ids: set<ThreadId>, producers: set<ThreadId>) returns (s': State)
    requires Reachable(s, ids, producers) && c in s.clients && s.clients[c] == Client(Idle, 0) && IsEmpty(s.w.ring)
    ensures Reachable(s', ids, producers)
    ensures s' == s.(clients := s.clients[c := Client(FlushCheckError(|s.w.hist.accepted|, false), 0)])
  {
    s' := BeginFlushing(s, c, ids, producers);
    s' := Act(s', c, s.clients, ids, producers);
    s' := Act(s', c, s.clients, ids, producers);
  }

  /** The consumer's way from thread start to its first look at the ring. */
  lemma WakeConsumer(s: State, ids: set<ThreadId>, producers: set<ThreadId>) returns (s': State)
    requires Reachable(s, ids, producers) && s.consumer.ConLoopCanExit? && s.w.mem.status == INIT
    ensures Reachable(s', ids, producers)
    ensures s' == s.(w := s.w.(mem := s.w.mem.(readWorking := true)), consumer := ConTestEmpty)
  {
    s' := Consumer(s, 0, ids, producers);
    s' := Consumer(s', 0, ids, producers);
    s' := Consumer(s', 0, ids, producers);
    s' := Consumer(s', 0, ids, producers);
  }

  // ----- Shutdown can drop an accepted task -----

  /** The consumer answers NEED_EXIT and exits without looking at the ring again. */
  lemma AnswerNeedExit(s: State, ids: set<ThreadId>, producers: set<ThreadId>) returns (s': State)
    requires Reachable(s, ids, producers) && s.consumer.ConCheckNeedExit? && s.w.mem.status == NEED_EXIT
    ensures Reachable(s', ids, producers)
    ensures s'.consumer.ConExited? && s'.w.ring == s.w.ring && s'.w.hist == s.w.hist
    ensures s'.destructor == s.destructor && s'.releaser == s.releaser
    ensures s'.w.mem.releaseStatus == s.w.mem.releaseStatus
  {
    s' := Consumer(s, 0, ids, producers);
    s' := Consumer(s', 0, ids, producers);
    s' := Consumer(s', 0, ids, producers);
    s' := Consumer(s', 0, ids, producers);
  }

  /** Whatever the threads of the run, as long as one of them is a producer: it enqueues
      a task, then the queue is destroyed.  The task is published after ReadQueue has
      answered "empty" and before the consumer looks at the status, so the consumer
      exits without executing it. */
  lemma ShutdownCanDropATask(ids: set<ThreadId>, producers: set<ThreadId>, c: ThreadId) returns (s: State)
    requires c in ids && c in producers
    ensures Reachable(s, ids, producers)
    ensures s.consumer.ConExited? && !s.w.hist.failed
    ensures s.w.hist.accepted == [7] && s.w.hist.executed == []
  {
    s := Start(ids, producers);
    s := WakeConsumer(s, ids, producers);
    s := Consumer(s, 0, ids, producers);
    s := WholeEnqueue(s, c, 7, ids, producers);
    s := BeginDestructor(s, ids, producers);
    s := AnswerNeedExit(s, ids, producers);
  }

  // ----- Shutdown can leave a released entry unfreed -----

  lemma Destroy(s: State, ids: set<ThreadId>, producers: set<ThreadId>) returns (s': State)
    requires Reachable(s, ids, producers) && MoveDestructor(s, true).DestructorMoved?
    ensures Reachable(s', ids, producers)
    ensures s' == s.(w := MoveDestructor(s, true).w, destructor := MoveDestructor(s, true).pc)
  {
    s' := s.(w := MoveDestructor(s, true).w, destructor := MoveDestructor(s, true).pc);
    Extend(s, DestructorStep(true), s', ids, producers);
  }

  /** The releaser answers "empty" and has yet to look at its status. */
  lemma AnswerEmptyEarly(ids: set<ThreadId>, producers: set<ThreadId>) returns (s: State)
    ensures Reachable(s, ids, producers) && s.releaser.RelCheckNeedExit?
    ensures s == Initial(ids, producers).(releaser := RelCheckNeedExit)
  {
    s := Start(ids, producers);
    s := Releaser(s, ids, producers);
    s := Releaser(s, ids, producers);
    s := Releaser(s, ids, producers);
  }

  /** The consumer executes the only task, hands it on, and is back before its next test. */
  lemma ExecuteOnlyTask(s: State, ids: set<ThreadId>, producers: set<ThreadId>) returns (s': State)
    requires Reachable(s, ids, producers) && s.consumer.ConTestEmpty?
    requires s.w.ring.rd == 0 && s.w.ring.wr == 1 && s.w.releaseRing.rd == 0 && s.w.releaseRing.wr == 0
    ensures Reachable(s', ids, producers) && s'.consumer.ConNeedRead?
    ensures s'.clients == s.clients && s'.destructor == s.destructor && s'.releaser == s.releaser
    ensures s'.w.mem == s.w.mem && IsEmpty(s'.w.ring)
    ensures s'.w.hist.failed == s.w.hist.failed && s'.w.hist.freed == s.w.hist.freed
    ensures |s'.w.hist.released| == |s.w.hist.released| + 1
  {
    s' := Consumer(s, 0, ids, producers);
    s' := Consumer(s', 0, ids, producers);
    s' := Consumer(s', 0, ids, producers);
    s' := Consumer(s', 0, ids, producers);
    s' := Consumer(s', 0, ids, producers);
    s' := Consumer(s', 0, ids, producers);
  }

  /** The consumer notifies, goes round, finds the ring empty and the status NEED_EXIT, and exits. */
  lemma ExitAfterLastTask(s: State, ids: set<ThreadId>, producers: set<ThreadId>) returns (s': State)
    requires Reachable(s, ids, producers) && s.consumer.ConNeedRead? && IsEmpty(s.w.ring)
    requires !s.w.mem.needEmpty && !s.w.mem.writeWorking && s.w.mem.status == NEED_EXIT
    ensures Reachable(s', ids, producers) && s'.consumer.ConExited?
    ensures s'.destructor == s.destructor && s'.releaser == s.releaser
    ensures s'.w.mem.releaseStatus == s.w.mem.releaseStatus
    ensures s'.w.hist == s.w.hist.(seenEmpty := s'.w.hist.seenEmpty)
  {
    s' := Consumer(s, 0, ids, producers);
    s' := Consumer(s', 0, ids, producers);
    s' := Consumer(s', 0, ids, producers);
    s' := ReturnToTest(s', ids, producers);
    s' := Consumer(s', 0, ids, producers);
    s' := AnswerNeedExit(s', ids, producers);
  }

  lemma ReturnToTest(s: State, ids: set<ThreadId>, producers: set<ThreadId>) returns (s': State)
    requires Reachable(s, ids, producers) && s.consumer.ConLeave? && s.w.mem.status == NEED_EXIT
    ensures Reachable(s', ids, producers)
    ensures s' == s.(consumer := ConTestEmpty, w := s.w.(mem := s.w.mem.(readWorking := true)))
  {
    s' := Consumer(s, 0, ids, producers);
    s' := Consumer(s', 0, ids, producers);
    s' := Consumer(s', 0, ids, producers);
    s' := EnterDequeue(s', ids, producers);
  }

  lemma EnterDequeue(s: State, ids: set<ThreadId>, producers: set<ThreadId>) returns (s': State)
    requires Reachable(s, ids, producers) && s.consumer.ConSetWorking? && s.w.mem.status == NEED_EXIT
    ensures Reachable(s', ids, producers)
    ensures s' == s.(consumer := ConTestEmpty, w := s.w.(mem := s.w.mem.(readWorking := true)))
  {
    s' := Consumer(s, 0, ids, producers);
    s' := Consumer(s', 0, ids, producers);
  }

  /** Both joins succeed; the releaser answers its stale "empty" with an exit. */
  lemma JoinBoth(s: State, ids: set<ThreadId>, producers: set<ThreadId>) returns (s': State)
    requires Reachable(s, ids, producers) && s.consumer.ConExited? && s.destructor.DesJoin?
    requires s.releaser.RelCheckNeedExit?
    ensures Reachable(s', ids, producers) && s'.destructor.DesDone? && s'.w.hist == s.w.hist
  {
    s' := Destroy(s, ids, producers);
    s' := Destroy(s', ids, producers);
    s' := Destroy(s', ids, producers);
    s' := Releaser(s', ids, producers);
    s' := Releaser(s', ids, producers);
    s' := Releaser(s', ids, producers);
    s' := Destroy(s', ids, producers);
  }

  /** Whatever the threads of the run, as long as c is a producer: the releaser has found its
      queue empty; then the only task is executed and handed on, and consumer and destructor
      run up to the releaser's look at the status.  Everything shuts down without a
      failure, and the entry is never freed. */
  lemma ShutdownCanLeaveAnEntry(ids: set<ThreadId>, producers: set<ThreadId>, c: ThreadId) returns (s: State)
    requires c in ids && c in producers
    ensures Reachable(s, ids, producers) && s.destructor.DesDone? && !s.w.hist.failed
    ensures |s.w.hist.released| == 1 && s.w.hist.freed == []
  {
    s := AnswerEmptyEarly(ids, producers);
    s := WakeConsumer(s, ids, producers);
    s := WholeEnqueue(s, c, 7, ids, producers);
    s := ExecuteOnlyTask(s, ids, producers);
    s := BeginDestructor(s, ids, producers);
    s := NotifyFromDestructor(s, ids, producers);
    s := ExitAfterLastTask(s, ids, producers);
    s := JoinBoth(s, ids, producers);
  }

  // ----- After a failure the consumer may sleep instead of leaving -----

  /** A consumer about to read a ring of one task gets a failure and stores ERROR_EXIT. */
  lemma FailOnTheOnlyTask(s: State, ids: set<ThreadId>, producers: set<ThreadId>) returns (s': State)
    requires Reachable(s, ids, producers) && s.consumer.ConTestEmpty?
    requires s.w.ring.rd == 0 && s.w.ring.wr == 1
    requires s.w.releaseRing.rd == 0 && s.w.releaseRing.wr == 0
    ensures Reachable(s', ids, producers)
    ensures s'.consumer.ConErrorLoad? && s'.clients == s.clients && s'.destructor == s.destructor
    ensures s'.producers == s.producers && s'.releaser == s.releaser
    ensures s'.w.releaseRing.rd == 0 && s'.w.releaseRing.wr == 1
    ensures s'.w.mem == s.w.mem.(status := ERROR_EXIT)
    ensures s'.w.ring == s.w.ring.(rd := 1)
    ensures s'.w.hist.failed && s'.w.hist.raised && s'.w.hist.rewound == s.w.hist.rewound
    ensures |s'.w.hist.executed| == |s.w.hist.executed| + 1
  {
    s' := Consumer(s, 0, ids, producers);
    s' := Consumer(s', 1, ids, producers);
    s' := Consumer(s', 0, ids, producers);
    s' := Consumer(s', 0, ids, producers);
    s' := Consumer(s', 0, ids, producers);
    s' := Consumer(s', 0, ids, producers);
    s' := Consumer(s', 0, ids, producers);
    s' := Consumer(s', 0, ids, producers);
    s' := Consumer(s', 0, ids, producers);
  }

  /** The consumer's way from storing ERROR_EXIT to sleep, once a client has put CAN_EXIT there. */
  lemma FallAsleep(s: State, ids: set<ThreadId>, producers: set<ThreadId>) returns (s': State)
    requires Reachable(s, ids, producers) && s.consumer.ConErrorLoad? && s.w.mem.status == CAN_EXIT
    ensures Reachable(s', ids, producers)
    ensures s'.consumer.ConBlocked? && s'.clients == s.clients && s'.destructor == s.destructor
    ensures s'.producers == s.producers
    ensures s'.w.mem.efdRead == s.w.mem.efdRead && s'.w.mem.status == CAN_EXIT
    ensures s'.w.ring == s.w.ring.(rd := s.w.ring.wr)
    ensures s'.w.hist == s.w.hist
  {
    s' := LeaveErrorPath(s, ids, producers);
    s' := Consumer(s', 0, ids, producers);
    s' := Doze(s', ids, producers);
  }

  /** From the look at ERROR_EXIT, unsuccessful, to sleep beside an empty ring. */
  lemma Doze(s: State, ids: set<ThreadId>, producers: set<ThreadId>) returns (s': State)
    requires Reachable(s, ids, producers) && s.consumer.ConCheckError? && s.w.mem.status != ERROR_EXIT
    requires IsEmpty(s.w.ring)
    ensures Reachable(s', ids, producers)
    ensures s' == s.(consumer := ConBlocked, w := s.w.(mem := s.w.mem.(readWorking := false)))
  {
    s' := Consumer(s, 0, ids, producers);
    s' := Consumer(s', 0, ids, producers);
    s' := Consumer(s', 0, ids, producers);
    s' := Consumer(s', 0, ids, producers);
  }

  lemma LeaveErrorPath(s: State, ids: set<ThreadId>, producers: set<ThreadId>) returns (s': State)
    requires Reachable(s, ids, producers) && s.consumer.ConErrorLoad? && s.w.mem.status == CAN_EXIT
    ensures Reachable(s', ids, producers) && s'.consumer.ConCheckNeedExit?
    ensures s' == s.(consumer := s'.consumer, w := s.w.(mem := s'.w.mem, ring := s.w.ring.(rd := s.w.ring.wr)))
    ensures s'.w.mem.efdRead == s.w.mem.efdRead && s'.w.mem.status == CAN_EXIT
  {
    s' := Consumer(s, 0, ids, producers);
    s' := Consumer(s', 0, ids, producers);
    s' := Consumer(s', 0, ids, producers);
    s' := Consumer(s', 0, ids, producers);
  }

  /** A running queue whose ring holds one task, put there by client a, that nobody has
      looked at, with no token written. */
  lemma OneTaskUnread(a: ThreadId, ids: set<ThreadId>, producers: set<ThreadId>) returns (s: State)
    requires a in ids && a in producers
    ensures Reachable(s, ids, producers)
    ensures s.consumer.ConTestEmpty? && s.destructor.DesWaiting? && s.producers == producers
    ensures s.clients == map c | c in ids :: Client(Idle, 0)
    ensures s.w.mem == Memory(true, false, false, 0, 0, 0, INIT, INIT, None, None)
    ensures s.w.ring.rd == 0 && s.w.ring.wr == 1
    ensures s.w.releaseRing.rd == 0 && s.w.releaseRing.wr == 0 && s.releaser.RelLoop?
    ensures !s.w.hist.rewound && s.w.hist.executed == []
  {
    s := Start(ids, producers);
    s := WakeConsumer(s, ids, producers);
    s := WholeEnqueue(s, a, 7, ids, producers);
  }

  /** A client's exception rewinds the read index and reaches the caller. */
  lemma Throw(s: State, c: ThreadId, ids: set<ThreadId>, producers: set<ThreadId>) returns (s': State)
    requires Reachable(s, ids, producers) && c in s.clients && s.clients[c].pc.ThrowStore? && s.clients[c].throws == 0
    ensures Reachable(s', ids, producers)
    ensures s' == s.(w := s.w.(ring := s.w.ring.(rd := s.clients[c].pc.w), hist := s.w.hist.(rewound := true)),
                     clients := s.clients[c := Client(Idle, 1)])
  {
    assert s.clients == s.clients[c := s.clients[c]];
    s' := Act(s, c, s.clients, ids, producers);
  }

  /** Whatever the threads of the run, as long as one of them is a producer: its call
      sees ERROR_EXIT and claims the error before the consumer looks for it.  The
      consumer then goes to sleep with nobody left to wake it: it does not leave its
      loop until the destructor writes a token. */
  lemma ConsumerCanSleepAfterFailure(ids: set<ThreadId>, producers: set<ThreadId>, c: ThreadId) returns (s: State)
    requires c in ids && c in producers
    ensures Reachable(s, ids, producers)
    ensures s.w.hist.raised && s.destructor.DesWaiting?
    ensures s.consumer.ConBlocked? && !ConsumerCanMove(s)
    ensures s.clients.Keys == ids && forall d :: d in ids ==> s.clients[d].pc.Idle?
  {
    s := OneTaskUnread(c, ids, producers);
    s := FailOnTheOnlyTask(s, ids, producers);
    s := ClaimError(s, c, ids, producers);
    s := Throw(s, c, ids, producers);
    s := FallAsleep(s, ids, producers);
    OnlySleepStopsConsumer(s.w, s.consumer);
  }

  /** The same claim, but the token of the first Enqueue is still there: it wakes the
      consumer, which finds CAN_EXIT and leaves all the same. */
  lemma ConsumerCanLeaveAfterAClaim(ids: set<ThreadId>, producers: set<ThreadId>, c: ThreadId) returns (s: State)
    requires c in ids && c in producers
    ensures Reachable(s, ids, producers)
    ensures s.consumer.ConExited? && s.destructor.DesWaiting?
    ensures c in s.clients && Claims(s.clients[c]) == 1
  {
    s := Start(ids, producers);
    s := WholeEnqueue(s, c, 7, ids, producers);
    s := WakeConsumer(s, ids, producers);
    s := FailOnTheOnlyTask(s, ids, producers);
    s := ClaimError(s, c, ids, producers);
    s := Throw(s, c, ids, producers);
    s := FallAsleep(s, ids, producers);
    s := LeaveOnToken(s, ids, producers);
  }

  lemma LeaveOnToken(s: State, ids: set<ThreadId>, producers: set<ThreadId>) returns (s': State)
    requires Reachable(s, ids, producers) && s.consumer.ConBlocked?
    requires s.w.mem.status == CAN_EXIT && s.w.mem.efdRead > 0
    ensures Reachable(s', ids, producers) && s'.consumer.ConExited?
    ensures s'.clients == s.clients && s'.destructor == s.destructor
  {
    s' := Consumer(s, 0, ids, producers);
    s' := Consumer(s', 0, ids, producers);
    s' := Consumer(s', 0, ids, producers);
    s' := Consumer(s', 0, ids, producers);
    s' := Consumer(s', 0, ids, producers);
  }

  // ----- An Enqueue can drop its task and return -----

  /** Whatever the threads of the run, as long as c is a producer: its call has found no error
      when an earlier task fails.  Its two later looks read ERROR_EXIT, so it returns with
      its task dropped and without an exception, though nobody has reported the failure. */
  lemma EnqueueCanDropSilently(ids: set<ThreadId>, producers: set<ThreadId>, c: ThreadId) returns (s: State, s': State)
    requires c in ids && c in producers
    ensures Reachable(s, ids, producers) && s.destructor.DesWaiting?
    ensures s.w.mem.status == ERROR_EXIT && c in s.clients && s.clients[c] == Client(EnqCheckRun(9), 0)
    ensures Reachable(s', ids, producers) && s' == s.(clients := s.clients[c := Client(Idle, 0)])
  {
    s := OneTaskUnread(c, ids, producers);
    ghost var idle := s.clients;
    s := Begin(s, c, 9, ids, producers);
    s := Act(s, c, idle, ids, producers);
    s := FailOnTheOnlyTask(s, ids, producers);
    s' := Act(s, c, idle, ids, producers);
    s' := Act(s', c, idle, ids, producers);
    assert s'.clients == s.clients[c := Client(Idle, 0)];
  }

  // ----- A flush can hang after a failure -----

  /** The consumer reports the failure, unclaimed, and leaves. */
  lemma ReportError(s: State, ids: set<ThreadId>, producers: set<ThreadId>) returns (s': State)
    requires Reachable(s, ids, producers) && s.consumer.ConErrorLoad? && s.w.mem.status == ERROR_EXIT
    ensures Reachable(s', ids, producers) && s'.consumer.ConCheckNeedExit?
    ensures s' == s.(consumer := s'.consumer,
                     w := s.w.(ring := s.w.ring.(rd := s.w.ring.wr),
                               mem := s.w.mem.(efdEmpty := s.w.mem.efdEmpty + 1, efdWrite := s.w.mem.efdWrite + 1)))
  {
    s' := Consumer(s, 0, ids, producers);
    s' := Consumer(s', 0, ids, producers);
    s' := Consumer(s', 0, ids, producers);
    s' := Consumer(s', 0, ids, producers);
  }

  lemma LeaveOnError(s: State, ids: set<ThreadId>, producers: set<ThreadId>) returns (s': State)
    requires Reachable(s, ids, producers) && s.consumer.ConCheckNeedExit? && s.w.mem.status == ERROR_EXIT
    ensures Reachable(s', ids, producers)
    ensures s' == s.(consumer := ConExited, w := s.w.(mem := s.w.mem.(readWorking := false)))
  {
    s' := Consumer(s, 0, ids, producers);
    s' := Consumer(s', 0, ids, producers);
    s' := Consumer(s', 0, ids, producers);
    s' := Consumer(s', 0, ids, producers);
    s' := Consumer(s', 0, ids, producers);
  }

  /** MakeSureQueueEmpty from its first test to the blocking read, beside a ring that is not empty. */
  lemma GoToFlushWait(s: State, c: ThreadId, ids: set<ThreadId>, producers: set<ThreadId>) returns (s': State)
    requires Reachable(s, ids, producers) && c in s.clients && s.clients[c].pc.FlushTest?
    requires !IsEmpty(s.w.ring) && s.w.mem.muEmpty == None
    ensures Reachable(s', ids, producers)
    ensures s' == s.(w := s.w.(mem := s.w.mem.(muEmpty := Some(c), needEmpty := true)),
                     clients := s.clients[c := s.clients[c].(pc := FlushBlocked(s.clients[c].pc.n))])
  {
    s' := GoToFlushLock(s, c, ids, producers);
    s' := Act(s', c, s.clients, ids, producers);
    s' := RetestNotEmpty(s', c, ids, producers);
  }

  lemma RetestNotEmpty(s: State, c: ThreadId, ids: set<ThreadId>, producers: set<ThreadId>) returns (s': State)
    requires Reachable(s, ids, producers) && c in s.clients && s.clients[c].pc.FlushRetest? && !IsEmpty(s.w.ring)
    ensures Reachable(s', ids, producers)
    ensures s' == s.(clients := s.clients[c := s.clients[c].(pc := FlushBlocked(s.clients[c].pc.n))])
  {
    assert s.clients == s.clients[c := s.clients[c]];
    s' := Act(s, c, s.clients, ids, producers);
    s' := Act(s', c, s.clients, ids, producers);
  }

  lemma GoToFlushLock(s: State, c: ThreadId, ids: set<ThreadId>, producers: set<ThreadId>) returns (s': State)
    requires Reachable(s, ids, producers) && c in s.clients && s.clients[c].pc.FlushTest?
    requires !IsEmpty(s.w.ring) && s.w.mem.muEmpty == None
    ensures Reachable(s', ids, producers)
    ensures s' == s.(w := s.w.(mem := s.w.mem.(muEmpty := Some(c))),
                     clients := s.clients[c := s.clients[c].(pc := FlushSetNeed(s.clients[c].pc.n))])
  {
    assert s.clients == s.clients[c := s.clients[c]];
    s' := Act(s, c, s.clients, ids, producers);
    s' := Act(s', c, s.clients, ids, producers);
    s' := Act(s', c, s.clients, ids, producers);
  }

  lemma TakeEmptyToken(s: State, c: ThreadId, ids: set<ThreadId>, producers: set<ThreadId>) returns (s': State)
    requires Reachable(s, ids, producers) && c in s.clients && s.clients[c].pc.FlushBlocked?
    requires s.w.mem.efdEmpty > 0
    ensures Reachable(s', ids, producers)
    ensures s' == s.(w := s.w.(mem := s.w.mem.(efdEmpty := 0, muEmpty := None, needEmpty := false)),
                     clients := s.clients[c := s.clients[c].(pc := FlushTest(s.clients[c].pc.n))])
  {
    assert s.clients == s.clients[c := s.clients[c]];
    s' := Act(s, c, s.clients, ids, producers);
    s' := Act(s', c, s.clients, ids, producers);
    s' := Act(s', c, s.clients, ids, producers);
  }

  /** Client c publishes after the consumer has reported the failure and exited. */
  lemma PublishTooLate(ids: set<ThreadId>, producers: set<ThreadId>, c: ThreadId) returns (s: State)
    requires c in ids && c in producers
    ensures Reachable(s, ids, producers) && s.destructor.DesWaiting?
    ensures s.clients == map d | d in ids :: Client(Idle, 0)
    ensures s.consumer.ConExited? && s.w.mem.status == ERROR_EXIT && s.w.mem.muEmpty == None && s.w.mem.efdEmpty > 0
    ensures !IsEmpty(s.w.ring)
    ensures s.releaser.RelLoop? && s.w.mem.releaseStatus == INIT
    ensures s.w.releaseRing.rd == 0 && s.w.releaseRing.wr == 1
  {
    s := OneTaskUnread(c, ids, producers);
    ghost var idle := s.clients;
    s := EnterEnqueue(s, c, 9, ids, producers);
    s := FailOnTheOnlyTask(s, ids, producers);
    s := ReportError(s, ids, producers);
    s := LeaveOnError(s, ids, producers);
    s := PublishTask(s, c, 9, ids, producers);
    s := FinishEnqueue(s, c, ids, producers);
    assert s.clients == idle;
  }

  /** Whatever the threads of the run, as long as c is a producer: c has passed the status
      checks when an earlier task fails; the consumer reports the failure and exits; then
      c publishes, and its next flush spends the one token and sleeps for good. */
  lemma FlushCanHangAfterFailure(ids: set<ThreadId>, producers: set<ThreadId>, c: ThreadId) returns (s: State)
    requires c in ids && c in producers
    ensures Reachable(s, ids, producers) && s.destructor.DesWaiting?
    ensures s.w.mem.status == ERROR_EXIT && c in s.clients && s.clients[c].throws == 0
    ensures FlushHangs(s, c) && !CanProgress(s)
  {
    s := PublishTooLate(ids, producers, c);
    s := BeginFlushing(s, c, ids, producers);
    s := GoToFlushWait(s, c, ids, producers);
    s := TakeEmptyToken(s, c, ids, producers);
    s := GoToFlushWait(s, c, ids, producers);
    s := FreeOne(s, ids, producers);
    NobodyMoves(s, c);
  }

  lemma FreeOne(s: State, ids: set<ThreadId>, producers: set<ThreadId>) returns (s': State)
    requires Reachable(s, ids, producers) && s.releaser.RelLoop? && s.w.mem.releaseStatus == INIT
    requires !IsEmpty(s.w.releaseRing)
    ensures Reachable(s', ids, producers)
    ensures s'.w.releaseRing == Retire(s.w.releaseRing, RELEASE_CAPACITY)
    ensures s' == s.(w := s.w.(releaseRing := s'.w.releaseRing, hist := s'.w.hist))
    ensures s'.w.hist == s.w.hist.(freed := s'.w.hist.freed, recycled := s'.w.hist.recycled)
  {
    s' := Releaser(s, ids, producers);
    s' := Releaser(s', ids, producers);
    s' := Releaser(s', ids, producers);
    s' := Releaser(s', ids, producers);
    s' := Releaser(s', ids, producers);
  }

  /** Everybody but c is idle, c sleeps without a token, the consumer is asleep or gone. */
  lemma NobodyMoves(s: State, c: ThreadId)
    requires Shape(s) && c in s.clients && IsEmpty(s.w.releaseRing)
    requires s.consumer.ConExited? || (s.consumer.ConBlocked? && s.w.mem.efdRead == 0)
    requires (s.clients[c].pc.FlushBlocked? && s.w.mem.efdEmpty == 0) ||
             (s.clients[c].pc.EnqBlocked? && s.w.mem.efdWrite == 0)
    requires forall d :: d in s.clients && d != c ==> s.clients[d].pc.Idle?
    ensures !CanProgress(s)
  {
    OnlySleepStopsConsumer(s.w, s.consumer);
    forall d | d in s.clients ensures !ClientCanMove(s, d) {
      OnlyLocksAndSleepStopClients(s.w, d, s.clients[d]);
    }
  }

  // ----- A rewound read index can strand a published task -----

  /** A producer a and any other client b: a has passed the status checks when the queue
      fails; b claims the error, loads write_idx, and stores it into read_idx after a
      has published and the consumer has gone to sleep.  No token, nobody notifying. */
  lemma RewindCanStrandATask(ids: set<ThreadId>, producers: set<ThreadId>, a: ThreadId, b: ThreadId) returns (s: State)
    requires a in producers && a in ids && b in ids && a != b
    ensures Reachable(s, ids, producers)
    ensures s.consumer.ConBlocked? && !IsEmpty(s.w.ring) && s.w.hist.rewound
    ensures s.destructor.DesWaiting? && s.w.hist.failed && |s.w.hist.executed| == 1
    ensures s.w.mem.efdRead == 0 && forall c :: c in s.clients ==> !Notifying(s.clients[c].pc)
  {
    s := ClaimBeforePublish(ids, producers, a, b);
    s := PublishTask(s, a, 9, ids, producers);
    s := FinishEnqueue(s, a, ids, producers);
    s := FallAsleep(s, ids, producers);
    s := Throw(s, b, ids, producers);
  }

  lemma ClaimBeforePublish(ids: set<ThreadId>, producers: set<ThreadId>, a: ThreadId, b: ThreadId)
    returns (s: State)
    requires a in producers && a in ids && b in ids && a != b
    ensures Reachable(s, ids, producers) && s.destructor.DesWaiting? && s.consumer.ConErrorLoad?
    ensures s.clients ==
            (map c | c in ids :: Client(Idle, 0))[a := Client(EnqLock(9), 0)][b := Client(ThrowStore(1), 0)]
    ensures s.w.mem == Memory(true, true, false, 0, 0, 0, CAN_EXIT, INIT, None, None)
    ensures s.w.ring.rd == 1 && s.w.ring.wr == 1 && s.w.hist.failed && |s.w.hist.executed| == 1
  {
    s := OneTaskUnread(a, ids, producers);
    s := EnterEnqueue(s, a, 9, ids, producers);
    s := FailOnTheOnlyTask(s, ids, producers);
    s := ClaimError(s, b, ids, producers);
  }

  /** The consumer is not asleep beside a non-empty ring with no token and nobody about to write one. */
  ghost predicate ReaderCovered(s: State) {
    s.consumer.ConBlocked? && !IsEmpty(s.w.ring) ==>
      s.w.mem.efdRead > 0 || exists c :: c in s.clients && Notifying(s.clients[c].pc)
  }

  /** For a queue with a producer: consumer wake-ups are safe on all runs, failing ones
      included, exactly when that producer is the only client. */
  lemma ConsumerWakeUpsKeptExactly(ids: set<ThreadId>, producers: set<ThreadId>)
    requires producers <= ids && producers != {}
    ensures (forall s :: Reachable(s, ids, producers) ==> ReaderCovered(s)) <==> AtMostOne(ids)
  {
    if AtMostOne(ids) {
      forall s | Reachable(s, ids, producers) ensures ReaderCovered(s) {
        var trace, labels :| IsRun(trace, labels, ids, producers) && trace[|trace| - 1] == s;
        LoneConsumerWakeUp(trace, labels, ids, producers, |trace| - 1);
      }
    } else {
      var p, q :| p in ids && q in ids && p != q;
      SomeProducer(producers);
      var a :| a in producers;
      var s := RewindCanStrandATask(ids, producers, a, if a == p then q else p);
      assert !ReaderCovered(s);
    }
  }

  lemma SomeProducer(producers: set<ThreadId>)
    ensures producers == {} || exists p :: p in producers
  {
    if forall p :: p !in producers {
      assert producers == {};
    }
  }

  // ----- Two producers can lose a wake-up -----

  /** Client a alone fills the ring before the consumer thread runs. */
  lemma {:induction false} FillRing(n: nat, a: ThreadId, ids: set<ThreadId>,
                                    producers: set<ThreadId>) returns (s: State)
    requires n < QUEUE_CAPACITY && a in ids && a in producers
    ensures Reachable(s, ids, producers)
    ensures s.clients == map c | c in ids :: Client(Idle, 0)
    ensures s.producers == producers && s.consumer.ConLoopCanExit? && s.destructor.DesWaiting?
    ensures s.w.ring.rd == 0 && s.w.ring.wr == n && s.w.releaseRing.rd == 0 && s.w.releaseRing.wr == 0
    ensures s.w.mem == Memory(false, false, false, n, 0, 0, INIT, INIT, None, None)
    ensures !s.w.hist.failed && s.releaser.RelLoop?
    ensures |s.w.hist.accepted| == n && s.w.hist.executed == [] && s.w.hist.released == []
    decreases n
  {
    if n == 0 {
      s := Start(ids, producers);
    } else {
      s := FillRing(n - 1, a, ids, producers);
      s := WholeEnqueue(s, a, 7, ids, producers);
    }
  }

  /** Client a finds the ring full and gives the lock back. */
  lemma FindFull(s: State, a: ThreadId, ids: set<ThreadId>, producers: set<ThreadId>) returns (s': State)
    requires Reachable(s, ids, producers) && a in s.clients && s.clients[a] == Client(EnqLock(8), 0)
    requires s.w.mem.muEnqueue == None && IsFull(s.w.ring, QUEUE_CAPACITY)
    ensures Reachable(s', ids, producers)
    ensures s' == s.(clients := s.clients[a := Client(EnqClearWorking(8), 0)])
  {
    assert s.clients == s.clients[a := s.clients[a]];
    s' := Act(s, a, s.clients, ids, producers);
    s' := Act(s', a, s.clients, ids, producers);
    s' := Act(s', a, s.clients, ids, producers);
  }

  /** Client a finds the ring full and goes to sleep on efd_write. */
  lemma SleepOnFull(s: State, a: ThreadId, ids: set<ThreadId>, producers: set<ThreadId>) returns (s': State)
    requires Reachable(s, ids, producers) && a in s.clients && s.clients[a] == Client(EnqLock(8), 0)
    requires s.w.mem.muEnqueue == None && IsFull(s.w.ring, QUEUE_CAPACITY)
    ensures Reachable(s', ids, producers)
    ensures s' == s.(w := s.w.(mem := s.w.mem.(writeWorking := false)),
                     clients := s.clients[a := Client(EnqBlocked(8), 0)])
  {
    s' := FindFull(s, a, ids, producers);
    s' := Act(s', a, s.clients, ids, producers);
    s' := RetestFull(s', a, ids, producers);
  }

  lemma RetestFull(s: State, a: ThreadId, ids: set<ThreadId>, producers: set<ThreadId>) returns (s': State)
    requires Reachable(s, ids, producers) && a in s.clients && s.clients[a] == Client(EnqRetest(8), 0)
    requires IsFull(s.w.ring, QUEUE_CAPACITY)
    ensures Reachable(s', ids, producers)
    ensures s' == s.(clients := s.clients[a := Client(EnqBlocked(8), 0)])
  {
    assert s.clients == s.clients[a := s.clients[a]];
    s' := Act(s, a, s.clients, ids, producers);
    s' := Act(s', a, s.clients, ids, producers);
  }

  /** The consumer executes one task and finds the writer's flag up. */
  lemma ConsumeOneUnnoticed(s: State, ids: set<ThreadId>, producers: set<ThreadId>) returns (s': State)
    requires Reachable(s, ids, producers) && s.consumer.ConTestEmpty?
    requires !IsEmpty(s.w.ring) && !IsFull(s.w.releaseRing, RELEASE_CAPACITY)
    requires s.w.mem.writeWorking && !s.w.mem.needEmpty
    ensures Reachable(s', ids, producers)
    ensures s'.consumer.ConLeave? && Still(s, s') && s'.w.mem == s.w.mem
    ensures s'.w.ring == Retire(s.w.ring, QUEUE_CAPACITY)
    ensures s'.w.releaseRing.rd == s.w.releaseRing.rd
    ensures s'.w.releaseRing.wr == Advance(s.w.releaseRing.wr, RELEASE_CAPACITY)
    ensures |s'.w.hist.executed| == |s.w.hist.executed| + 1
  {
    s' := Consumer(s, 0, ids, producers);
    s' := Consumer(s', 0, ids, producers);
    s' := Consumer(s', 0, ids, producers);
    s' := Consumer(s', 0, ids, producers);
    s' := Consumer(s', 0, ids, producers);
    s' := Consumer(s', 0, ids, producers);
    s' := Consumer(s', 0, ids, producers);
    s' := Consumer(s', 0, ids, producers);
  }

  /** The consumer executes one task unnoticed and comes back for the next. */
  lemma ConsumeNext(s: State, ids: set<ThreadId>, producers: set<ThreadId>) returns (s': State)
    requires Reachable(s, ids, producers) && s.consumer.ConTestEmpty?
    requires !IsEmpty(s.w.ring) && !IsFull(s.w.releaseRing, RELEASE_CAPACITY)
    requires s.w.mem.writeWorking && !s.w.mem.needEmpty && s.w.mem.status == INIT
    ensures Reachable(s', ids, producers)
    ensures s'.consumer.ConTestEmpty? && Still(s, s') && s'.w.mem == s.w.mem.(readWorking := true)
    ensures s'.w.ring == Retire(s.w.ring, QUEUE_CAPACITY)
    ensures s'.w.releaseRing.rd == s.w.releaseRing.rd
    ensures s'.w.releaseRing.wr == Advance(s.w.releaseRing.wr, RELEASE_CAPACITY)
    ensures |s'.w.hist.executed| == |s.w.hist.executed| + 1
  {
    s' := ConsumeOneUnnoticed(s, ids, producers);
    s' := ComeBack(s', ids, producers);
  }

  lemma ComeBack(s: State, ids: set<ThreadId>, producers: set<ThreadId>) returns (s': State)
    requires Reachable(s, ids, producers) && s.consumer.ConLeave? && s.w.mem.status == INIT
    ensures Reachable(s', ids, producers)
    ensures s' == s.(consumer := ConTestEmpty, w := s.w.(mem := s.w.mem.(readWorking := true)))
  {
    s' := Consumer(s, 0, ids, producers);
    s' := WakeConsumer(s', ids, producers);
  }

  /** What the consumer's work alone does not change. */
  ghost predicate Still(s: State, s': State) {
    && s'.clients == s.clients && s'.destructor == s.destructor && s'.releaser == s.releaser
    && s'.producers == s.producers && s'.w.hist.failed == s.w.hist.failed
  }

  /** The consumer empties a ring of n tasks that does not wrap around, unnoticed. */
  lemma {:induction false} ConsumeAll(s: State, n: nat, ids: set<ThreadId>, producers: set<ThreadId>)
    returns (s': State)
    requires Reachable(s, ids, producers) && s.consumer.ConTestEmpty?
    requires s.w.ring.rd + n == s.w.ring.wr && s.w.releaseRing.wr + n < RELEASE_CAPACITY - 1
    requires s.w.releaseRing.rd == 0
    requires s.w.mem.readWorking && s.w.mem.writeWorking && !s.w.mem.needEmpty && s.w.mem.status == INIT
    ensures Reachable(s', ids, producers)
    ensures s'.consumer.ConTestEmpty? && Still(s, s') && s'.w.mem == s.w.mem
    ensures s'.w.ring == s.w.ring.(rd := s.w.ring.wr)
    ensures s'.w.releaseRing.rd == 0 && s'.w.releaseRing.wr == s.w.releaseRing.wr + n
    decreases n
  {
    s' := s;
    if n > 0 {
      s' := ConsumeNext(s, ids, producers);
      s' := ConsumeAll(s', n - 1, ids, producers);
    }
  }

  /** The consumer's way to sleep beside an empty ring; a pending token only makes it go round once. */
  lemma GoToSleep(s: State, ids: set<ThreadId>, producers: set<ThreadId>) returns (s': State)
    requires Reachable(s, ids, producers) && s.consumer.ConTestEmpty? && IsEmpty(s.w.ring)
    requires s.w.mem.status == INIT
    ensures Reachable(s', ids, producers)
    ensures s'.consumer.ConBlocked? && Still(s, s') && s'.w.ring == s.w.ring && s'.w.releaseRing == s.w.releaseRing
    ensures s'.w.mem == s.w.mem.(readWorking := false)
  {
    s' := Consumer(s, 0, ids, producers);
    s' := Consumer(s', 0, ids, producers);
    s' := Doze(s', ids, producers);
  }

  lemma SpendTokens(s: State, ids: set<ThreadId>, producers: set<ThreadId>) returns (s': State)
    requires Reachable(s, ids, producers) && s.consumer.ConBlocked? && IsEmpty(s.w.ring)
    requires s.w.mem.status == INIT && s.w.mem.efdRead > 0 && !s.w.mem.readWorking
    ensures Reachable(s', ids, producers)
    ensures s'.consumer.ConBlocked? && Still(s, s') && s'.w.ring == s.w.ring && s'.w.releaseRing == s.w.releaseRing
    ensures s'.w.mem == s.w.mem.(efdRead := 0)
  {
    s' := Consumer(s, 0, ids, producers);
    s' := Consumer(s', 0, ids, producers);
    s' := Consumer(s', 0, ids, producers);
    s' := GoToSleep(s', ids, producers);
  }

  lemma {:induction false} FreeAll(s: State, n: nat, ids: set<ThreadId>, producers: set<ThreadId>)
    returns (s': State)
    requires Reachable(s, ids, producers) && s.releaser.RelLoop? && s.w.mem.releaseStatus == INIT
    requires s.w.releaseRing.rd + n == s.w.releaseRing.wr
    ensures Reachable(s', ids, producers) && IsEmpty(s'.w.releaseRing) && Still(s, s')
    ensures s'.w.mem == s.w.mem && s'.w.ring == s.w.ring && s'.consumer == s.consumer
    decreases n
  {
    s' := s;
    if n > 0 {
      s' := FreeOne(s, ids, producers);
      s' := FreeAll(s', n - 1, ids, producers);
    }
  }

  /** Producer a sleeps on the full ring; producer b, on its way in, has raised the shared
      writer's flag, so the consumer empties the ring without a notification. */
  lemma EmptyRingUnnoticed(ids: set<ThreadId>, producers: set<ThreadId>, a: ThreadId, b: ThreadId)
    returns (s: State)
    requires producers <= ids && a in producers && b in producers && a != b
    ensures Reachable(s, ids, producers) && !s.w.hist.failed && s.destructor.DesWaiting? && s.releaser.RelLoop?
    ensures s.clients ==
            (map c | c in ids :: Client(Idle, 0))[a := Client(EnqBlocked(8), 0)][b := Client(EnqLock(9), 0)]
    ensures s.consumer.ConTestEmpty?
    ensures s.w.mem == Memory(true, true, false, QUEUE_CAPACITY - 1, 0, 0, INIT, INIT, None, None)
    ensures s.w.ring.rd == s.w.ring.wr == QUEUE_CAPACITY - 1
    ensures s.w.releaseRing.rd == 0 && s.w.releaseRing.wr == QUEUE_CAPACITY - 1
  {
    s := FillRing(QUEUE_CAPACITY - 1, a, ids, producers);
    s := EnterEnqueue(s, a, 8, ids, producers);
    s := SleepOnFull(s, a, ids, producers);
    s := EnterEnqueue(s, b, 9, ids, producers);
    s := WakeConsumer(s, ids, producers);
    s := ConsumeAll(s, QUEUE_CAPACITY - 1, ids, producers);
  }

  /** Then b publishes, and the consumer takes that task too while b still keeps the flag
      up.  Once b has returned, everybody else is idle, both rings are empty, and a sleeps
      for good: no token, and nobody left to write one. */
  lemma TwoProducersCanLoseAWakeUp(ids: set<ThreadId>, producers: set<ThreadId>, a: ThreadId, b: ThreadId)
    returns (s: State)
    requires producers <= ids && a in producers && b in producers && a != b
    ensures Reachable(s, ids, producers) && !s.w.hist.failed && s.destructor.DesWaiting?
    ensures a in s.clients && s.clients[a].pc.EnqBlocked?
    ensures forall d :: d in s.clients && d != a ==> s.clients[d].pc.Idle?
    ensures IsEmpty(s.w.ring) && !WriterCovered(s, a) && !CanProgress(s)
  {
    s := EmptyRingUnnoticed(ids, producers, a, b);
    s := PublishTask(s, b, 9, ids, producers);
    s := ConsumeNext(s, ids, producers);
    s := FinishEnqueue(s, b, ids, producers);
    s := GoToSleep(s, ids, producers);
    s := SpendTokens(s, ids, producers);
    s := FreeAll(s, QUEUE_CAPACITY, ids, producers);
    NobodyMoves(s, a);
  }

  /** Client c is not asleep beside a ring with room with no token and no consumer about to write one. */
  ghost predicate WriterCovered(s: State, c: ThreadId)
    requires c in s.clients
  {
    s.clients[c].pc.EnqBlocked? && Shape(s) && !IsFull(s.w.ring, QUEUE_CAPACITY) ==>
      s.w.mem.efdWrite > 0 || NotifyingWriter(s.consumer)
  }

  /** Producer wake-ups are safe on all runs without failures exactly when there is at
      most one producer, whatever the number of other clients. */
  lemma ProducerWakeUpsKeptExactly(ids: set<ThreadId>, producers: set<ThreadId>)
    requires producers <= ids
    ensures (forall s, c :: Reachable(s, ids, producers) && !s.w.hist.failed && c in s.clients ==> WriterCovered(s, c))
              <==> AtMostOne(producers)
  {
    if AtMostOne(producers) {
      forall s, c | Reachable(s, ids, producers) && !s.w.hist.failed && c in s.clients
        ensures WriterCovered(s, c)
      {
        var trace, labels :| IsRun(trace, labels, ids, producers) && trace[|trace| - 1] == s;
        if s.clients[c].pc.EnqBlocked? && !IsFull(s.w.ring, QUEUE_CAPACITY) {
          NoLostProducerWakeUp(trace, labels, ids, producers, |trace| - 1, c);
        }
      }
    } else {
      var a, b :| a in producers && b in producers && a != b;
      var s := TwoProducersCanLoseAWakeUp(ids, producers, a, b);
    }
  }

  /** Client c is inside a call of a running queue without failures. */
  ghost predicate InCall(s: State, c: ThreadId) {
    !s.w.hist.failed && s.destructor.DesWaiting? && c in s.clients && !s.clients[c].pc.Idle?
  }

  /** On runs without failures, some thread can make progress while a call is running
      exactly when there is at most one producer. */
  lemma NoDeadlockExactly(ids: set<ThreadId>, producers: set<ThreadId>)
    requires producers <= ids
    ensures (forall s, c :: Reachable(s, ids, producers) && InCall(s, c) ==> CanProgress(s)) <==> AtMostOne(producers)
  {
    if AtMostOne(producers) {
      forall s, c | Reachable(s, ids, producers) && InCall(s, c) ensures CanProgress(s)
      {
        var trace, labels :| IsRun(trace, labels, ids, producers) && trace[|trace| - 1] == s;
        NoDeadlock(trace, labels, ids, producers, |trace| - 1, c);
      }
    } else {
      var a, b :| a in producers && b in producers && a != b;
      var s := TwoProducersCanLoseAWakeUp(ids, producers, a, b);
      assert InCall(s, a) && !CanProgress(s);
    }
  }

  // ----- A flush can return early -----

  /** A producer a and any other client b, no failure: b loads the read index of a full ring,
      the consumer executes one task, a publishes one, and the write index b loads then
      has wrapped around to the value it loaded first. */
  lemma FlushCanReturnEarly(ids: set<ThreadId>, producers: set<ThreadId>, a: ThreadId, b: ThreadId)
    returns (s: State)
    requires a in producers && a in ids && b in ids && a != b
    ensures Reachable(s, ids, producers) && !s.w.hist.failed && s.destructor.DesWaiting?
    ensures b in s.clients && s.clients[b].pc.FlushSuccess?
    ensures FlushMark(s.clients[b].pc) == 4095 && |s.w.hist.executed| == 1
  {
    s := LoadBeforeWrap(ids, producers, a, b);
    s := WakeConsumer(s, ids, producers);
    s := ConsumeNext(s, ids, producers);
    s := PublishTask(s, a, 8, ids, producers);
    s := SucceedOnStaleLoad(s, b, ids, producers);
  }

  lemma LoadBeforeWrap(ids: set<ThreadId>, producers: set<ThreadId>, a: ThreadId, b: ThreadId)
    returns (s: State)
    requires a in producers && a in ids && b in ids && a != b
    ensures Reachable(s, ids, producers) && !s.w.hist.failed && s.destructor.DesWaiting?
    ensures s.consumer.ConLoopCanExit? && a in s.clients && s.clients[a] == Client(EnqLock(8), 0)
    ensures b in s.clients && s.clients[b].pc.FlushTest2? && s.clients[b].throws == 0
    ensures s.clients[b].pc.first.LoadedRd? && s.clients[b].pc.first.i == 0 && s.clients[b].pc.n == QUEUE_CAPACITY - 1
    ensures s.w.mem == Memory(false, true, false, QUEUE_CAPACITY - 1, 0, 0, INIT, INIT, None, None)
    ensures s.w.ring.rd == 0 && s.w.ring.wr == QUEUE_CAPACITY - 1
    ensures s.w.releaseRing.rd == 0 && s.w.releaseRing.wr == 0 && s.w.hist.executed == []
  {
    s := FillRing(QUEUE_CAPACITY - 1, a, ids, producers);
    s := BeginFlushing(s, b, ids, producers);
    assert s.clients == s.clients[b := s.clients[b]];
    s := Act(s, b, s.clients, ids, producers);
    s := EnterEnqueue(s, a, 8, ids, producers);
  }

  lemma SucceedOnStaleLoad(s: State, b: ThreadId, ids: set<ThreadId>, producers: set<ThreadId>) returns (s': State)
    requires Reachable(s, ids, producers) && b in s.clients && s.clients[b].pc.FlushTest2?
    requires SameIndex(s.w.ring, s.clients[b].pc.first) && s.w.mem.status == INIT
    ensures Reachable(s', ids, producers)
    ensures s'.w == s.w && s'.destructor == s.destructor
    ensures b in s'.clients && s'.clients[b].pc.FlushSuccess? && s'.clients[b].pc.n == s.clients[b].pc.n
  {
    assert s.clients == s.clients[b := s.clients[b]];
    s' := Act(s, b, s.clients, ids, producers);
    s' := Act(s', b, s.clients, ids, producers);
  }

  /** A flush of client c that has succeeded leaves nothing behind that was accepted before
      it: FlushMark is how much that is. */
  ghost predicate FlushKept(s: State, c: ThreadId)
    requires c in s.clients
  {
    s.clients[c].pc.FlushSuccess? && !s.w.hist.failed ==>
      FlushMark(s.clients[c].pc) <= |s.w.hist.executed| && FlushMark(s.clients[c].pc) <= |s.w.hist.released|
  }

  /** For a queue with a producer: flushes keep their promise on all runs without failures,
      whichever index they load first, exactly when that producer is the only client. */
  lemma FlushesKeptExactly(ids: set<ThreadId>, producers: set<ThreadId>)
    requires producers <= ids && producers != {}
    ensures (forall s, c :: Reachable(s, ids, producers) && c in s.clients ==> FlushKept(s, c)) <==> AtMostOne(ids)
  {
    SomeProducer(producers);
    var a :| a in producers;
    if AtMostOne(ids) {
      forall s, c | Reachable(s, ids, producers) && c in s.clients ensures FlushKept(s, c) {
        var trace, labels :| IsRun(trace, labels, ids, producers) && trace[|trace| - 1] == s;
        RunKeepsInv(trace, labels, ids, producers, |trace| - 1);
        assert c == a && ClientInv(s, c);
      }
    } else {
      var p, q :| p in ids && q in ids && p != q;
      var b := if a == p then q else p;
      var s := FlushCanReturnEarly(ids, producers, a, b);
      assert !FlushKept(s, b);
    }
  }

  // ----- Between a failure and its report -----

  /** The drain releases one task without executing it. */
  lemma DrainOne(s: State, ids: set<ThreadId>, producers: set<ThreadId>) returns (s': State)
    requires Reachable(s, ids, producers) && s.consumer.ConDrainTest? && !IsEmpty(s.w.ring)
    requires !IsFull(s.w.releaseRing, RELEASE_CAPACITY)
    ensures Reachable(s', ids, producers)
    ensures s'.consumer.ConDrainTest? && Still(s, s') && s'.w.mem == s.w.mem
    ensures s'.w.ring == Retire(s.w.ring, QUEUE_CAPACITY)
    ensures s'.w.releaseRing.rd == s.w.releaseRing.rd
    ensures s'.w.releaseRing.wr == Advance(s.w.releaseRing.wr, RELEASE_CAPACITY)
    ensures s'.w.hist == s.w.hist.(taken := s'.w.hist.taken, released := s'.w.hist.released)
    ensures |s'.w.hist.released| == |s.w.hist.released| + 1
  {
    s' := Consumer(s, 0, ids, producers);
    s' := Consumer(s', 0, ids, producers);
    s' := Consumer(s', 0, ids, producers);
    s' := Consumer(s', 0, ids, producers);
    s' := Consumer(s', 0, ids, producers);
  }

  /** The first of n tasks of client c fails; the consumer is about to drain. */
  lemma FailFirst(n: nat, ids: set<ThreadId>, producers: set<ThreadId>, c: ThreadId) returns (s: State)
    requires c in ids && c in producers && 0 < n < QUEUE_CAPACITY
    ensures Reachable(s, ids, producers) && s.destructor.DesWaiting? && s.consumer.ConDrainTest?
    ensures s.clients == map d | d in ids :: Client(Idle, 0)
    ensures s.producers == producers && s.releaser.RelLoop?
    ensures s.w.ring.rd == 0 && s.w.ring.wr == n && s.w.releaseRing.rd == 0 && s.w.releaseRing.wr == 0
    ensures s.w.mem == Memory(true, false, false, n, 0, 0, INIT, INIT, None, None)
    ensures s.w.hist.failed && !s.w.hist.raised
    ensures |s.w.hist.accepted| == n && |s.w.hist.executed| == 1 && s.w.hist.released == []
  {
    s := FillRing(n, c, ids, producers);
    s := WakeConsumer(s, ids, producers);
    s := Consumer(s, 0, ids, producers);
    s := Consumer(s, 1, ids, producers);
    ReachableHolds(s, ids, producers);
  }

  lemma ReachableHolds(s: State, ids: set<ThreadId>, producers: set<ThreadId>)
    requires Reachable(s, ids, producers)
    ensures Inv(s)
  {
    var trace, labels :| IsRun(trace, labels, ids, producers) && trace[|trace| - 1] == s;
    RunKeepsInv(trace, labels, ids, producers, |trace| - 1);
  }

  /** Whatever the threads of the run, as long as c is a producer: two tasks are accepted, the
      first fails, both are drained, and a flush before the report returns SUCCESS. */
  lemma FlushCanSucceedAfterFailure(ids: set<ThreadId>, producers: set<ThreadId>, c: ThreadId) returns (s: State)
    requires c in ids && c in producers
    ensures Reachable(s, ids, producers) && s.destructor.DesWaiting?
    ensures s.w.hist.failed && s.w.mem.status == INIT
    ensures |s.w.hist.accepted| == 2 && |s.w.hist.executed| == 1
    ensures c in s.clients && s.clients[c].pc.FlushSuccess? && s.clients[c].pc.n == 2
  {
    s := FailFirst(2, ids, producers, c);
    s := DrainOne(s, ids, producers);
    s := DrainOne(s, ids, producers);
    s := FindEmpty(s, c, ids, producers);
    assert s.clients == s.clients[c := s.clients[c]];
    s := Act(s, c, s.clients, ids, producers);
  }

  /** Whatever the threads of the run, as long as c is a producer, and for every n: n tasks
      accepted after the failure can be drained before it is reported. */
  lemma {:induction false} DrainGoesOn(n: nat, ids: set<ThreadId>, producers: set<ThreadId>, c: ThreadId)
    returns (s: State)
    requires c in ids && c in producers
    ensures Reachable(s, ids, producers) && s.destructor.DesWaiting? && s.consumer.ConDrainTest?
    ensures s.w.hist.failed && !s.w.hist.raised
    ensures |s.w.hist.executed| == 1 && |s.w.hist.released| == |s.w.hist.accepted| == n + 1
    ensures s.clients == map d | d in ids :: Client(Idle, 0)
    ensures s.producers == producers && s.releaser.RelLoop? && IsEmpty(s.w.ring) && IsEmpty(s.w.releaseRing)
    ensures s.w.mem == Memory(true, false, false, 1, 0, 0, INIT, INIT, None, None)
    decreases n
  {
    if n == 0 {
      s := FailFirst(1, ids, producers, c);
    } else {
      s := DrainGoesOn(n - 1, ids, producers, c);
      s := WholeEnqueue(s, c, 7, ids, producers);
    }
    s := DrainOne(s, ids, producers);
    s := FreeOne(s, ids, producers);
  }

  // ----- After a failure and the start of the destructor -----

  /** A producer a and any other client b: the destructor overwrites CAN_EXIT and wakes the
      consumer, which executes the task that a rewind had stranded. */
  lemma StrandedTaskRunsAtShutdown(ids: set<ThreadId>, producers: set<ThreadId>, a: ThreadId, b: ThreadId)
    returns (s: State)
    requires a in producers && a in ids && b in ids && a != b
    ensures Reachable(s, ids, producers) && s.w.hist.failed && !s.destructor.DesWaiting?
    ensures |s.w.hist.executed| == 2
  {
    s := RewindCanStrandATask(ids, producers, a, b);
    s := BeginDestructor(s, ids, producers);
    s := NotifyFromDestructor(s, ids, producers);
    s := WakeAndExecute(s, ids, producers);
  }

  lemma WakeAndExecute(s: State, ids: set<ThreadId>, producers: set<ThreadId>) returns (s': State)
    requires Reachable(s, ids, producers) && s.consumer.ConBlocked? && s.w.mem.efdRead > 0
    requires s.w.mem.status == NEED_EXIT && !IsEmpty(s.w.ring)
    ensures Reachable(s', ids, producers) && s'.destructor == s.destructor
    ensures s.w.hist.failed ==> s'.w.hist.failed
    ensures |s'.w.hist.executed| == |s.w.hist.executed| + 1
  {
    s' := Consumer(s, 0, ids, producers);
    s' := Consumer(s', 0, ids, producers);
    s' := Consumer(s', 0, ids, producers);
    s' := Consumer(s', 0, ids, producers);
    s' := Consumer(s', 0, ids, producers);
  }

  lemma NotifyFromDestructor(s: State, ids: set<ThreadId>, producers: set<ThreadId>) returns (s': State)
    requires Reachable(s, ids, producers) && s.destructor.DesNotify?
    ensures Reachable(s', ids, producers)
    ensures s' == s.(w := s.w.(mem := s.w.mem.(efdRead := s.w.mem.efdRead + 1)), destructor := DesJoin)
  {
    s' := s.(w := s.w.(mem := s.w.mem.(efdRead := s.w.mem.efdRead + 1)), destructor := DesJoin);
    Extend(s, DestructorStep(true), s', ids, producers);
  }
}
