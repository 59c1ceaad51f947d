/** What every step of the task queue keeps, whatever the interleaving.
    Each invariant is proved thread by thread and assembled in Inv. */
module TaskQueueInvariants {
  import opened Rings
  import opened TaskQueue

  // ----- Frames: what a thread cannot touch -----

  lemma ClientFrame(w: World, c: ThreadId, k: Client, ok: bool)
    requires RingsOk(w) && MoveClient(w, c, k, ok).ClientMoved?
    ensures var w' := MoveClient(w, c, k, ok).w;
            && w'.releaseRing == w.releaseRing
            && w'.hist == w.hist.(accepted := w'.hist.accepted, rewound := w'.hist.rewound)
            && w'.mem.readWorking == w.mem.readWorking
            && w'.mem.releaseStatus == w.mem.releaseStatus
  {
  }

  /** Only the copy and the publish of Enqueue and the exception touch the rings or the history. */
  lemma ControlFrame(w: World, c: ThreadId, k: Client, ok: bool)
    requires RingsOk(w) && MoveClient(w, c, k, ok).ClientMoved?
    requires !InThrow(k.pc) && !k.pc.EnqCopy? && !k.pc.EnqPublish?
    ensures var move := MoveClient(w, c, k, ok);
            && move.w == w.(mem := move.w.mem)
            && move.client == k.(pc := move.client.pc)
            && !move.client.pc.EnqPublish?
            && (move.client.pc.EnqCopy? ==> !IsFull(w.ring, QUEUE_CAPACITY))
  {
  }

  lemma DequeueFrame(w: World, pc: ConsumerPc, ok: bool)
    requires DequeueMove(w, pc, ok).ConsumerMoved?
    ensures var pc' := DequeueMove(w, pc, ok).pc;
            !InError(pc') && (InRead(pc') ==> pc'.ConTestEmpty?)
    ensures var w' := DequeueMove(w, pc, ok).w;
            && w' == w.(mem := w'.mem)
            && w'.mem.muEnqueue == w.mem.muEnqueue
            && w'.mem.muEmpty == w.mem.muEmpty
            && w'.mem.needEmpty == w.mem.needEmpty
            && w'.mem.writeWorking == w.mem.writeWorking
  {
  }

  lemma ReleaserFrame(w: World, pc: ReleaserPc)
    requires RingsOk(w) && MoveReleaser(w, pc).ReleaserMoved?
    ensures var w' := MoveReleaser(w, pc).w;
            && w'.ring == w.ring
            && w'.releaseRing.slots == w.releaseRing.slots
            && w'.releaseRing.wr == w.releaseRing.wr
            && w'.hist == w.hist.(freed := w'.hist.freed, recycled := w'.hist.recycled, freedAll := w'.hist.freedAll)
            && w'.mem == w.mem.(releaseStatus := w'.mem.releaseStatus)
  {
  }

  // ----- The two mutexes -----

  predicate HoldsEnqueue(pc: ClientPc) {
    pc.EnqTestFull? || pc.EnqCopy? || pc.EnqPublish? || pc.EnqUnlock? || pc.EnqUnlockFull?
  }

  predicate HoldsEmpty(pc: ClientPc) {
    pc.FlushSetNeed? || pc.FlushRetest? || pc.FlushRetest2? || pc.FlushBlocked? || pc.FlushClearNeed? ||
    pc.FlushUnlock?
  }

  ghost predicate ClientLocks(m: Memory, c: ThreadId, pc: ClientPc) {
    && (HoldsEnqueue(pc) <==> m.muEnqueue == Some(c))
    && (HoldsEmpty(pc) <==> m.muEmpty == Some(c))
  }

  lemma EnqueueKeepsLocks(w: World, c: ThreadId, k: Client, ok: bool)
    requires RingsOk(w) && EnqueueMove(w, c, k, ok).ClientMoved?
    requires ClientLocks(w.mem, c, k.pc)
    ensures var move := EnqueueMove(w, c, k, ok);
            && ClientLocks(move.w.mem, c, move.client.pc)
            && move.w.mem.muEmpty == w.mem.muEmpty
            && (move.w.mem.muEnqueue == w.mem.muEnqueue || Some(c) in {w.mem.muEnqueue, move.w.mem.muEnqueue})
            && (w.mem.muEnqueue.Some? ==> move.w.mem.muEnqueue in {None, w.mem.muEnqueue})
  {
  }

  lemma FlushKeepsLocks(w: World, c: ThreadId, k: Client, ok: bool)
    requires FlushMove(w, c, k, ok).ClientMoved?
    requires ClientLocks(w.mem, c, k.pc)
    ensures var move := FlushMove(w, c, k, ok);
            && ClientLocks(move.w.mem, c, move.client.pc)
            && move.w.mem.muEnqueue == w.mem.muEnqueue
            && (move.w.mem.muEmpty == w.mem.muEmpty || Some(c) in {w.mem.muEmpty, move.w.mem.muEmpty})
            && (w.mem.muEmpty.Some? ==> move.w.mem.muEmpty in {None, w.mem.muEmpty})
  {
  }

  lemma ClientKeepsLocks(w: World, c: ThreadId, k: Client, ok: bool, d: ThreadId, kd: Client)
    requires RingsOk(w) && MoveClient(w, c, k, ok).ClientMoved?
    requires ClientLocks(w.mem, c, k.pc) && ClientLocks(w.mem, d, kd.pc) && c != d
    ensures var move := MoveClient(w, c, k, ok);
            ClientLocks(move.w.mem, c, move.client.pc) && ClientLocks(move.w.mem, d, kd.pc)
  {
    if InFlush(k.pc) {
      FlushKeepsLocks(w, c, k, ok);
    } else if !InThrow(k.pc) {
      EnqueueKeepsLocks(w, c, k, ok);
    }
  }

  // ----- The release queue: nothing lost, nothing doubled, in order -----

  /** Entries freed, followed by what the release ring holds, are the entries
      pushed.  It holds on every run, with or without errors. */
  ghost predicate Pipeline(w: World, con: ConsumerPc, rel: ReleaserPc) {
    var h := w.hist;
    && Tracks(w.releaseRing, RELEASE_CAPACITY, h.released, h.recycled)
    && (rel.RelFree? || rel.RelAdvance? ==> h.recycled < |h.released|)
    && h.freed == h.released[..h.recycled + if rel.RelAdvance? then 1 else 0]
    && (con.ConReleaseCopy? || con.ConReleasePublish? ==> |h.released| - h.recycled < RELEASE_CAPACITY - 1)
  }

  lemma ReadKeepsPipeline(w: World, con: ConsumerPc, rel: ReleaserPc, code: int)
    requires RingsOk(w) && ReadMove(w, con, code).ConsumerMoved?
    requires Pipeline(w, con, rel)
    ensures var move := ReadMove(w, con, code); Pipeline(move.w, move.pc, rel)
  {
    var h := w.hist;
    TracksTests(w.releaseRing, RELEASE_CAPACITY, h.released, h.recycled);
    if con.ConReleaseCopy? {
      TracksCopyIn(w.releaseRing, RELEASE_CAPACITY, h.released, h.recycled, w.ring.slots[w.ring.rd]);
    } else if con.ConReleasePublish? {
      TracksPublish(w.releaseRing, RELEASE_CAPACITY, h.released, h.recycled);
    }
  }

  lemma ConsumerKeepsPipeline(w: World, con: ConsumerPc, rel: ReleaserPc, code: int, ok: bool)
    requires RingsOk(w) && MoveConsumer(w, con, code, ok).ConsumerMoved?
    requires Pipeline(w, con, rel)
    ensures var move := MoveConsumer(w, con, code, ok); Pipeline(move.w, move.pc, rel)
  {
    if InRead(con) {
      ReadKeepsPipeline(w, con, rel, code);
    } else if !InError(con) {
      DequeueFrame(w, con, ok);
    }
  }

  lemma ReleaserKeepsPipeline(w: World, con: ConsumerPc, rel: ReleaserPc)
    requires RingsOk(w) && MoveReleaser(w, rel).ReleaserMoved?
    requires Pipeline(w, con, rel)
    ensures var move := MoveReleaser(w, rel); Pipeline(move.w, con, move.pc)
  {
    var h := w.hist;
    TracksTests(w.releaseRing, RELEASE_CAPACITY, h.released, h.recycled);
    if rel.RelAdvance? {
      TracksRetire(w.releaseRing, RELEASE_CAPACITY, h.released, h.recycled);
    }
  }

  // ----- The task queue until a failure is reported -----

  /** A task has been executed whose slot the read index has not passed yet. */
  predicate InFlight(con: ConsumerPc) {
    con == ConRelease(Executed) || con == ConReleaseCopy(Executed) || con == ConReleasePublish(Executed) ||
    con.ConAdvance?
  }

  /** Between a failure and its report. */
  predicate Draining(con: ConsumerPc) {
    con.ConDrainTest? || con.ConDrainAdvance? || con.ConSetError? ||
    con == ConRelease(Drained) || con == ConReleaseCopy(Drained) || con == ConReleasePublish(Drained)
  }

  predicate AfterFailure(con: ConsumerPc) {
    InError(con) || Draining(con)
  }

  /** The consumer uses, or is about to give up, the slot at the read index. */
  predicate Holding(con: ConsumerPc) {
    con.ConCall? || con.ConRelease? || con.ConReleaseCopy? || con.ConReleasePublish? || con.ConAdvance? ||
    con.ConDrainAdvance?
  }

  /** While every callback succeeds the executed tasks are those the read index has passed
      and the one in flight.  After a failure the rest are released without being
      executed, the failed one included. */
  ghost predicate Running(w: World, con: ConsumerPc) {
    var h := w.hist;
    && RingsOk(w)
    && Tracks(w.ring, QUEUE_CAPACITY, h.accepted, h.taken)
    && (if h.failed then Draining(con) else !AfterFailure(con))
    && (Holding(con) ==> h.taken < |h.accepted|)
    && (!h.failed ==> h.executed == h.accepted[..h.taken + if InFlight(con) then 1 else 0])
    && (h.failed ==> h.executed <= h.accepted && |h.executed| <= h.taken + if con.ConSetError? then 0 else 1)
    && h.released == h.accepted[..h.taken + if con.ConAdvance? || con.ConDrainAdvance? then 1 else 0]
    && (con.ConReleasePublish? ==> w.releaseRing.slots[w.releaseRing.wr] == h.accepted[h.taken])
  }

  /** What the first load of a test still says. */
  predicate LoadedOk(h: History, first: Loaded) {
    && first.i == first.seen % QUEUE_CAPACITY
    && match first
       case LoadedRd(_, seen) => seen <= h.taken
       case LoadedWr(_, seen) => seen <= |h.accepted| && seen < h.taken + QUEUE_CAPACITY
  }

  predicate Testing(pc: ClientPc) {
    pc.EnqRetest2? || pc.FlushTest2? || pc.FlushRetest2?
  }

  ghost predicate ClientRunning(w: World, pc: ClientPc)
    requires RingsOk(w)
  {
    && (pc.EnqCopy? || pc.EnqPublish? ==> |w.hist.accepted| - w.hist.taken < QUEUE_CAPACITY - 1)
    && (pc.EnqPublish? ==> w.ring.slots[w.ring.wr] == pc.t)
    && (Testing(pc) ==> LoadedOk(w.hist, pc.first))
  }

  /** An answer "empty" that loaded the write index first holds for all that was accepted
      at that load; one that loaded the read index first may be stale. */
  lemma SureAnswer(w: World, con: ConsumerPc, first: Loaded)
    requires Running(w, con) && LoadedOk(w.hist, first) && SameIndex(w.ring, first)
    ensures first.LoadedWr? ==> first.seen <= w.hist.taken
    ensures first.LoadedRd? && |w.hist.accepted| - first.seen < QUEUE_CAPACITY ==> w.hist.taken == |w.hist.accepted|
  {
    var h := w.hist;
    if first.LoadedWr? && h.taken < first.seen {
      SameRemainder(h.taken, first.seen, QUEUE_CAPACITY);
    } else if first.LoadedRd? && |h.accepted| - first.seen < QUEUE_CAPACITY {
      SameRemainder(first.seen, |h.accepted|, QUEUE_CAPACITY);
    }
  }

  lemma ReadKeepsRunning(w: World, con: ConsumerPc, code: int)
    requires RingsOk(w) && ReadMove(w, con, code).ConsumerMoved?
    requires Running(w, con)
    ensures var move := ReadMove(w, con, code); Running(move.w, move.pc)
  {
    if con.ConAdvance? {
      TracksRetire(w.ring, QUEUE_CAPACITY, w.hist.accepted, w.hist.taken);
    } else if con.ConTestEmpty? || con.ConCall? {
      TracksTests(w.ring, QUEUE_CAPACITY, w.hist.accepted, w.hist.taken);
    } else {
      ReleaseKeepsRunning(w, con, code);
    }
  }

  lemma ReleaseKeepsRunning(w: World, con: ConsumerPc, code: int)
    requires RingsOk(w) && ReadMove(w, con, code).ConsumerMoved?
    requires Running(w, con) && (con.ConRelease? || con.ConReleaseCopy? || con.ConReleasePublish?)
    ensures var move := ReadMove(w, con, code); Running(move.w, move.pc)
  {
    TracksTests(w.ring, QUEUE_CAPACITY, w.hist.accepted, w.hist.taken);
  }

  lemma DrainKeepsRunning(w: World, con: ConsumerPc, ok: bool)
    requires RingsOk(w) && ErrorMove(w, con, ok).ConsumerMoved?
    requires Running(w, con)
    ensures var move := ErrorMove(w, con, ok);
            !move.w.hist.raised ==> Running(move.w, move.pc)
  {
    TracksTests(w.ring, QUEUE_CAPACITY, w.hist.accepted, w.hist.taken);
    if con.ConDrainAdvance? {
      TracksRetire(w.ring, QUEUE_CAPACITY, w.hist.accepted, w.hist.taken);
    }
  }

  lemma ConsumerKeepsRunning(w: World, con: ConsumerPc, code: int, ok: bool)
    requires RingsOk(w) && MoveConsumer(w, con, code, ok).ConsumerMoved?
    requires Running(w, con)
    ensures var move := MoveConsumer(w, con, code, ok);
            !move.w.hist.raised ==> Running(move.w, move.pc)
  {
    if InRead(con) {
      ReadKeepsRunning(w, con, code);
    } else if InError(con) {
      DrainKeepsRunning(w, con, ok);
    } else {
      DequeueFrame(w, con, ok);
    }
  }

  /** No slot a client may write holds an unread task: the consumer only makes room. */
  lemma ConsumerKeepsClientRunning(w: World, con: ConsumerPc, code: int, ok: bool, pc: ClientPc)
    requires RingsOk(w) && MoveConsumer(w, con, code, ok).ConsumerMoved?
    requires Running(w, con) && ClientRunning(w, pc)
    ensures RingsOk(MoveConsumer(w, con, code, ok).w)
    ensures ClientRunning(MoveConsumer(w, con, code, ok).w, pc)
  {
    if !InRead(con) && !InError(con) {
      DequeueFrame(w, con, ok);
    }
  }

  lemma ClientKeepsRunning(w: World, con: ConsumerPc, c: ThreadId, k: Client, ok: bool)
    requires RingsOk(w) && MoveClient(w, c, k, ok).ClientMoved?
    requires Running(w, con) && ClientRunning(w, k.pc) && !InThrow(k.pc)
    ensures var move := MoveClient(w, c, k, ok);
            Running(move.w, con) && ClientRunning(move.w, move.client.pc)
  {
    if k.pc.EnqCopy? {
      CopyKeepsRunning(w, con, c, k, ok);
    } else if k.pc.EnqPublish? {
      PublishKeepsRunning(w, con, c, k, ok);
    } else {
      TracksTests(w.ring, QUEUE_CAPACITY, w.hist.accepted, w.hist.taken);
      ControlFrame(w, c, k, ok);
    }
  }

  lemma CopyKeepsRunning(w: World, con: ConsumerPc, c: ThreadId, k: Client, ok: bool)
    requires RingsOk(w) && Running(w, con) && ClientRunning(w, k.pc) && k.pc.EnqCopy?
    ensures var move := EnqueueMove(w, c, k, ok);
            Running(move.w, con) && ClientRunning(move.w, move.client.pc)
  {
    TracksCopyIn(w.ring, QUEUE_CAPACITY, w.hist.accepted, w.hist.taken, k.pc.t);
  }

  lemma PublishKeepsRunning(w: World, con: ConsumerPc, c: ThreadId, k: Client, ok: bool)
    requires RingsOk(w) && Running(w, con) && ClientRunning(w, k.pc) && k.pc.EnqPublish?
    ensures var move := EnqueueMove(w, c, k, ok);
            Running(move.w, con) && ClientRunning(move.w, move.client.pc)
  {
    TracksPublish(w.ring, QUEUE_CAPACITY, w.hist.accepted, w.hist.taken);
    var accepted := w.hist.accepted + [w.ring.slots[w.ring.wr]];
    assert forall n :: 0 <= n <= |w.hist.accepted| ==> accepted[..n] == w.hist.accepted[..n];
  }

  /** The lock keeps one client's copy and publish away from another's. */
  lemma ClientKeepsOtherRunning(w: World, c: ThreadId, k: Client, ok: bool, d: ThreadId, kd: Client)
    requires RingsOk(w) && MoveClient(w, c, k, ok).ClientMoved?
    requires ClientLocks(w.mem, c, k.pc) && ClientLocks(w.mem, d, kd.pc) && c != d
    requires ClientRunning(w, kd.pc) && !InThrow(k.pc)
    ensures RingsOk(MoveClient(w, c, k, ok).w)
    ensures ClientRunning(MoveClient(w, c, k, ok).w, kd.pc)
  {
    if !k.pc.EnqCopy? && !k.pc.EnqPublish? {
      ControlFrame(w, c, k, ok);
    }
  }

  // ----- Wake-ups -----

  /** A client that has published a task and not yet looked at the reader's flag and notified. */
  predicate Notifying(pc: ClientPc) {
    pc.EnqUnlock? || pc.EnqCheckReader? || pc.EnqNotify?
  }

  /** The reader's flag is down whenever it is about to sleep, asleep, or just woken. */
  predicate ReaderFlag(m: Memory, con: ConsumerPc) {
    con.ConSleepTest? || con.ConSleepTest2? || con.ConBlocked? || con.ConWoken? ==> !m.readWorking
  }

  /** Asleep beside a non-empty ring without a token, or about to be by what has been loaded. */
  predicate WouldStrand(w: World, con: ConsumerPc) {
    && w.mem.efdRead == 0
    && match con
       case ConBlocked => !IsEmpty(w.ring)
       case ConSleepTest2(LoadedRd(i, _)) => i == w.ring.wr && !IsEmpty(w.ring)
       case ConSleepTest2(LoadedWr(i, _)) => i != w.ring.wr
       case _ => false
  }

  predicate ReaderStranded(w: World, con: ConsumerPc) {
    WouldStrand(w, con) && !w.hist.rewound
  }

  ghost predicate ReaderWake(s: State) {
    && ReaderFlag(s.w.mem, s.consumer)
    && (ReaderStranded(s.w, s.consumer) ==> exists c :: c in s.clients && Notifying(s.clients[c].pc))
  }

  lemma ConsumerKeepsReader(w: World, con: ConsumerPc, code: int, ok: bool)
    requires RingsOk(w) && MoveConsumer(w, con, code, ok).ConsumerMoved?
    requires ReaderFlag(w.mem, con)
    ensures var move := MoveConsumer(w, con, code, ok);
            && ReaderFlag(move.w.mem, move.pc)
            && (WouldStrand(move.w, move.pc) ==> WouldStrand(w, con) && move.w.hist.rewound == w.hist.rewound)
  {
  }

  /** A sleeping reader stays covered: whoever makes the ring non-empty notifies,
      and a notifier that finishes has left a token behind. */
  lemma ClientKeepsReader(w: World, con: ConsumerPc, c: ThreadId, k: Client, ok: bool)
    requires RingsOk(w) && MoveClient(w, c, k, ok).ClientMoved?
    requires ReaderFlag(w.mem, con)
    ensures var move := MoveClient(w, c, k, ok);
            && ReaderFlag(move.w.mem, con)
            && (ReaderStranded(move.w, con) ==>
                  Notifying(move.client.pc) || (ReaderStranded(w, con) && !Notifying(k.pc)))
  {
    ClientFrame(w, c, k, ok);
    if InThrow(k.pc) {
    } else if k.pc.EnqCopy? || k.pc.EnqPublish? {
    } else {
      ControlFrame(w, c, k, ok);
      NotifierLeavesToken(w, c, k, ok);
    }
  }

  lemma NotifierLeavesToken(w: World, c: ThreadId, k: Client, ok: bool)
    requires RingsOk(w) && MoveClient(w, c, k, ok).ClientMoved?
    ensures var move := MoveClient(w, c, k, ok);
            && move.w.mem.efdRead >= w.mem.efdRead
            && (Notifying(k.pc) && !w.mem.readWorking ==> Notifying(move.client.pc) || move.w.mem.efdRead > 0)
  {
  }

  /** The consumer has advanced the read index and has not finished notifying yet. */
  predicate NotifyingEmpty(con: ConsumerPc) {
    con.ConNeedRead? || con.ConNeedTest? || con.ConNotifyEmpty?
  }

  predicate NotifyingWriter(con: ConsumerPc) {
    NotifyingEmpty(con) || con.ConCheckWriter? || con.ConNotifyWrite?
  }

  /** A flush asleep, or about to be because the consumer has moved on since its first load. */
  predicate FlushSleeps(h: History, pc: ClientPc) {
    pc.FlushBlocked? || (pc.FlushRetest2? && pc.first.seen < h.taken)
  }

  predicate FlushWake(w: World, pc: ClientPc, con: ConsumerPc) {
    && (pc.FlushRetest? || pc.FlushRetest2? || pc.FlushBlocked? || pc.FlushClearNeed? ==> w.mem.needEmpty)
    && (FlushSleeps(w.hist, pc) && IsEmpty(w.ring) && w.mem.efdEmpty == 0 ==> NotifyingEmpty(con))
  }

  /** A producer asleep, or about to be because it has loaded a read index that has moved since. */
  predicate WriterSleeps(r: Ring<Task>, pc: ClientPc) {
    pc.EnqBlocked? || (pc.EnqRetest2? && pc.first.LoadedRd? && pc.first.i != r.rd)
  }

  predicate WriterWake(w: World, pc: ClientPc, con: ConsumerPc) {
    && (pc.EnqRetest? || pc.EnqRetest2? || pc.EnqBlocked? ==> !w.mem.writeWorking)
    && (pc.EnqRetest2? && pc.first.LoadedWr? ==> pc.first.i == w.ring.wr)
    && (WriterSleeps(w.ring, pc) && !IsFull(w.ring, QUEUE_CAPACITY) && w.mem.efdWrite == 0 ==> NotifyingWriter(con))
  }

  lemma ConsumerKeepsFlushWake(w: World, con: ConsumerPc, code: int, ok: bool, pc: ClientPc)
    requires RingsOk(w) && MoveConsumer(w, con, code, ok).ConsumerMoved? && !InError(con)
    requires FlushWake(w, pc, con)
    ensures var move := MoveConsumer(w, con, code, ok);
            !AfterFailure(move.pc) ==> FlushWake(move.w, pc, move.pc)
  {
  }

  lemma ConsumerKeepsWriterWake(w: World, con: ConsumerPc, code: int, ok: bool, pc: ClientPc)
    requires RingsOk(w) && MoveConsumer(w, con, code, ok).ConsumerMoved? && !InError(con)
    requires WriterWake(w, pc, con)
    ensures var move := MoveConsumer(w, con, code, ok);
            !AfterFailure(move.pc) ==> WriterWake(move.w, pc, move.pc)
  {
    if InRead(con) {
      ReaderKeepsWriterWake(w, con, code, pc);
    }
  }

  lemma ReaderKeepsWriterWake(w: World, con: ConsumerPc, code: int, pc: ClientPc)
    requires RingsOk(w) && ReadMove(w, con, code).ConsumerMoved? && WriterWake(w, pc, con)
    ensures var move := ReadMove(w, con, code);
            !AfterFailure(move.pc) ==> WriterWake(move.w, pc, move.pc)
  {
  }

  lemma ClientKeepsFlushWake(w: World, con: ConsumerPc, c: ThreadId, k: Client, ok: bool)
    requires Running(w, con) && MoveClient(w, c, k, ok).ClientMoved? && !InThrow(k.pc)
    requires FlushWake(w, k.pc, con) && ClientRunning(w, k.pc)
    ensures var move := MoveClient(w, c, k, ok); FlushWake(move.w, move.client.pc, con)
  {
    TracksTests(w.ring, QUEUE_CAPACITY, w.hist.accepted, w.hist.taken);
    if InFlush(k.pc) {
      FlusherKeepsFlushWake(w, con, c, k, ok);
    } else {
      OnlyFlushFlushes(w, c, k, ok);
    }
  }

  lemma FlusherKeepsFlushWake(w: World, con: ConsumerPc, c: ThreadId, k: Client, ok: bool)
    requires Running(w, con) && FlushMove(w, c, k, ok).ClientMoved?
    requires FlushWake(w, k.pc, con) && ClientRunning(w, k.pc)
    ensures var move := FlushMove(w, c, k, ok); FlushWake(move.w, move.client.pc, con)
  {
    TracksTests(w.ring, QUEUE_CAPACITY, w.hist.accepted, w.hist.taken);
  }

  lemma ClientKeepsWriterWake(w: World, con: ConsumerPc, c: ThreadId, k: Client, ok: bool)
    requires Running(w, con) && MoveClient(w, c, k, ok).ClientMoved? && !InThrow(k.pc)
    requires WriterWake(w, k.pc, con)
    ensures var move := MoveClient(w, c, k, ok); WriterWake(move.w, move.client.pc, con)
  {
    if InFlush(k.pc) {
      FlushStaysOutside(w, c, k, ok);
    } else if k.pc.EnqRetest? || k.pc.EnqRetest2? || k.pc.EnqClearWorking? {
      RetestKeepsWriterWake(w, con, c, k, ok);
    } else {
      OnlyRetestSleeps(w, c, k, ok);
    }
  }

  lemma FlushStaysOutside(w: World, c: ThreadId, k: Client, ok: bool)
    requires FlushMove(w, c, k, ok).ClientMoved?
    ensures !Writing(FlushMove(w, c, k, ok).client.pc)
  {
  }

  lemma RetestKeepsWriterWake(w: World, con: ConsumerPc, c: ThreadId, k: Client, ok: bool)
    requires RingsOk(w) && WriterWake(w, k.pc, con)
    requires k.pc.EnqRetest? || k.pc.EnqRetest2? || k.pc.EnqClearWorking?
    ensures var move := EnqueueMove(w, c, k, ok);
            move.ClientMoved? && RingsOk(move.w) && WriterWake(move.w, move.client.pc, con)
  {
  }

  lemma OnlyRetestSleeps(w: World, c: ThreadId, k: Client, ok: bool)
    requires RingsOk(w) && EnqueueMove(w, c, k, ok).ClientMoved?
    requires !k.pc.EnqRetest? && !k.pc.EnqRetest2? && !k.pc.EnqClearWorking?
    ensures var pc := EnqueueMove(w, c, k, ok).client.pc; !pc.EnqRetest? && !pc.EnqRetest2? && !pc.EnqBlocked?
  {
  }

  lemma ClientKeepsOtherFlushWake(w: World, con: ConsumerPc, c: ThreadId, k: Client, ok: bool, d: ThreadId, kd: Client)
    requires Running(w, con) && MoveClient(w, c, k, ok).ClientMoved? && !InThrow(k.pc)
    requires ClientRunning(w, k.pc)
    requires ClientLocks(w.mem, c, k.pc) && ClientLocks(w.mem, d, kd.pc) && c != d
    requires FlushWake(w, kd.pc, con)
    ensures FlushWake(MoveClient(w, c, k, ok).w, kd.pc, con)
  {
    var h := w.hist;
    if k.pc.EnqPublish? {
      TracksPublish(w.ring, QUEUE_CAPACITY, h.accepted, h.taken);
      TracksTests(MoveClient(w, c, k, ok).w.ring, QUEUE_CAPACITY, h.accepted + [w.ring.slots[w.ring.wr]], h.taken);
    }
  }

  /** A flushing client cannot disturb a waiting producer. */
  lemma FlusherKeepsWriterWake(w: World, con: ConsumerPc, c: ThreadId, k: Client, ok: bool, pc: ClientPc)
    requires RingsOk(w) && MoveClient(w, c, k, ok).ClientMoved? && (InFlush(k.pc) || k.pc.Idle?)
    requires WriterWake(w, pc, con)
    ensures RingsOk(MoveClient(w, c, k, ok).w)
    ensures WriterWake(MoveClient(w, c, k, ok).w, pc, con)
  {
  }

  // ----- The status word, shutdown and failure -----

  /** Until a callback fails, only the destructor moves the status, and the consumer
      answers NEED_EXIT only after finding the ring empty. */
  ghost predicate StatusOk(w: World, con: ConsumerPc, des: DestructorPc) {
    var m, h := w.mem, w.hist;
    && (h.raised ==> h.failed)
    && (h.rewound ==> h.raised)
    && (!h.raised ==> m.status != ERROR_EXIT)
    && h.seenEmpty <= |h.accepted|
    && (!h.failed ==>
          && (des.DesWaiting? ==> m.status == INIT)
          && (!des.DesWaiting? ==> m.status == NEED_EXIT || m.status == CAN_EXIT)
          && (m.status == CAN_EXIT ==> con.ConLeave? || con.ConLoopCanExit? || con.ConExited?)
          && (m.status == CAN_EXIT || con.ConCheckNeedExit? || con.ConSwapStatus? ==> h.taken == h.seenEmpty)
          && (con.ConExited? ==> m.status == CAN_EXIT))
  }

  /** Where the consumer can be after ERROR_EXIT has been stored. */
  predicate Stopping(con: ConsumerPc) {
    con.ConErrorLoad? || con.ConErrorStore? || con.ConErrorNotifyEmpty? || con.ConErrorNotifyWrite? ||
    con.ConCheckNeedExit? || con.ConCheckError? || con.ConLeave? || con.ConLoopCanExit? ||
    con.ConLoopError? || con.ConExited? || Missed(con)
  }

  /** The consumer has gone past its own look at ERROR_EXIT without seeing it. */
  predicate Missed(con: ConsumerPc) {
    con.ConClearWorking? || con.ConSleepTest? || con.ConSleepTest2? || con.ConBlocked? || con.ConWoken? ||
    con.ConWhile? || con.ConSetWorking?
  }

  /** Until the destructor starts: after a failure the consumer only drains, reports and stops. */
  ghost predicate FailStop(w: World, con: ConsumerPc, des: DestructorPc) {
    des.DesWaiting? ==>
      && (w.hist.failed && !w.hist.raised ==> Draining(con))
      && (w.hist.raised ==>
            && (w.mem.status == ERROR_EXIT || w.mem.status == CAN_EXIT)
            && Stopping(con)
            && (Missed(con) ==> w.mem.status == CAN_EXIT)
            && Account(w.hist))
  }

  /** After the report: what was executed, what was released, and that the rest is neither. */
  ghost predicate Account(h: History) {
    && h.taken <= |h.accepted|
    && h.executed <= h.accepted && |h.executed| <= h.taken
    && h.released == h.accepted[..h.taken]
  }

  lemma ReadKeepsStatus(w: World, con: ConsumerPc, code: int, des: DestructorPc)
    requires RingsOk(w) && ReadMove(w, con, code).ConsumerMoved?
    requires StatusOk(w, con, des) && FailStop(w, con, des) && (!w.hist.raised ==> Running(w, con))
    ensures var move := ReadMove(w, con, code);
            StatusOk(move.w, move.pc, des) && FailStop(move.w, move.pc, des)
  {
    if !w.hist.failed {
      TracksTests(w.ring, QUEUE_CAPACITY, w.hist.accepted, w.hist.taken);
    }
  }

  lemma ErrorKeepsStatus(w: World, con: ConsumerPc, ok: bool, des: DestructorPc)
    requires ErrorMove(w, con, ok).ConsumerMoved? && w.hist.failed
    requires StatusOk(w, con, des) && FailStop(w, con, des) && (!w.hist.raised ==> Running(w, con))
    ensures var move := ErrorMove(w, con, ok);
            StatusOk(move.w, move.pc, des) && FailStop(move.w, move.pc, des)
  {
  }

  lemma DequeueKeepsStatus(w: World, con: ConsumerPc, ok: bool, des: DestructorPc)
    requires DequeueMove(w, con, ok).ConsumerMoved?
    requires StatusOk(w, con, des) && FailStop(w, con, des)
    ensures var move := DequeueMove(w, con, ok);
            StatusOk(move.w, move.pc, des) && FailStop(move.w, move.pc, des)
  {
    DequeueFrame(w, con, ok);
  }

  lemma ConsumerKeepsStatus(w: World, con: ConsumerPc, code: int, ok: bool, des: DestructorPc)
    requires RingsOk(w) && MoveConsumer(w, con, code, ok).ConsumerMoved?
    requires StatusOk(w, con, des) && FailStop(w, con, des) && (!w.hist.raised ==> Running(w, con))
    ensures var move := MoveConsumer(w, con, code, ok);
            StatusOk(move.w, move.pc, des) && FailStop(move.w, move.pc, des)
  {
    if InRead(con) {
      ReadKeepsStatus(w, con, code, des);
    } else if InError(con) {
      ErrorKeepsStatus(w, con, ok, des);
    } else {
      DequeueKeepsStatus(w, con, ok, des);
    }
  }

  /** Exceptions a client has thrown or is committed to throw. */
  function Claims(k: Client): nat {
    k.throws + if k.pc.ThrowLoad? || k.pc.ThrowStore? then 1 else 0
  }

  /** A client past the status checks of Enqueue. */
  predicate Writing(pc: ClientPc) {
    pc.EnqSetWorking? || pc.EnqLock? || pc.EnqTestFull? || pc.EnqCopy? || pc.EnqPublish? || pc.EnqUnlock? ||
    pc.EnqCheckReader? || pc.EnqNotify? || pc.EnqFinish? || pc.EnqUnlockFull? || pc.EnqClearWorking? ||
    pc.EnqRetest? || pc.EnqRetest2? || pc.EnqBlocked? || pc.EnqWoken?
  }

  predicate ClientThrows(w: World, k: Client, des: DestructorPc) {
    && (!w.hist.raised ==> !InThrow(k.pc) && k.throws == 0)
    && (des.DesWaiting? ==>
          && Claims(k) <= 1
          && (Claims(k) == 1 ==> w.mem.status == CAN_EXIT && !Writing(k.pc))
          && (k.pc.ThrowSetStatus? ==> k.throws == 0))
  }

  lemma FlushReadsStatus(w: World, c: ThreadId, k: Client, ok: bool)
    requires FlushMove(w, c, k, ok).ClientMoved?
    ensures var move := FlushMove(w, c, k, ok);
            && move.w == w.(mem := move.w.mem) && move.w.mem.status == w.mem.status
            && move.client.throws == k.throws
            && (InThrow(move.client.pc) ==> move.client.pc.ThrowSetStatus? && w.mem.status == ERROR_EXIT)
            && !Writing(move.client.pc)
  {
  }

  lemma EnqueueReadsStatus(w: World, c: ThreadId, k: Client, ok: bool)
    requires RingsOk(w) && EnqueueMove(w, c, k, ok).ClientMoved?
    ensures var move := EnqueueMove(w, c, k, ok);
            && move.w.mem.status == w.mem.status
            && (InThrow(move.client.pc) ==> move.client.pc.ThrowSetStatus? && w.mem.status == ERROR_EXIT)
  {
  }

  lemma EnqueueThrowsNothing(w: World, c: ThreadId, k: Client, ok: bool)
    requires RingsOk(w) && EnqueueMove(w, c, k, ok).ClientMoved?
    ensures EnqueueMove(w, c, k, ok).client.throws == k.throws
  {
  }

  lemma WritingStartsHealthy(w: World, c: ThreadId, k: Client, ok: bool)
    requires RingsOk(w) && EnqueueMove(w, c, k, ok).ClientMoved? && !Writing(k.pc)
    ensures Writing(EnqueueMove(w, c, k, ok).client.pc) ==> w.mem.status == INIT || w.mem.status == RUN
  {
  }

  lemma EnqueueLeavesHistory(w: World, c: ThreadId, k: Client, ok: bool)
    requires RingsOk(w) && EnqueueMove(w, c, k, ok).ClientMoved?
    ensures var move := EnqueueMove(w, c, k, ok);
            && move.w.hist == w.hist.(accepted := move.w.hist.accepted)
            && |w.hist.accepted| <= |move.w.hist.accepted|
  {
  }

  /** Outside the exception path a client only reads the status: it heads for an
      exception on ERROR_EXIT only, and starts writing on INIT or RUN only. */
  lemma ClientReadsStatus(w: World, c: ThreadId, k: Client, ok: bool)
    requires RingsOk(w) && MoveClient(w, c, k, ok).ClientMoved? && !InThrow(k.pc)
    ensures var move := MoveClient(w, c, k, ok);
            && move.w.mem.status == w.mem.status
            && move.w.hist == w.hist.(accepted := move.w.hist.accepted)
            && |w.hist.accepted| <= |move.w.hist.accepted|
            && move.client.throws == k.throws
            && (InThrow(move.client.pc) ==> move.client.pc.ThrowSetStatus? && w.mem.status == ERROR_EXIT)
            && (Writing(move.client.pc) && !Writing(k.pc) ==> w.mem.status == INIT || w.mem.status == RUN)
  {
    if InFlush(k.pc) {
      FlushReadsStatus(w, c, k, ok);
    } else {
      EnqueueReadsStatus(w, c, k, ok);
      EnqueueThrowsNothing(w, c, k, ok);
      EnqueueLeavesHistory(w, c, k, ok);
      if !Writing(k.pc) {
        WritingStartsHealthy(w, c, k, ok);
      }
    }
  }

  lemma ClientKeepsThrows(w: World, c: ThreadId, k: Client, ok: bool, con: ConsumerPc, des: DestructorPc)
    requires RingsOk(w) && MoveClient(w, c, k, ok).ClientMoved?
    requires StatusOk(w, con, des) && FailStop(w, con, des) && ClientThrows(w, k, des)
    ensures var move := MoveClient(w, c, k, ok);
            && StatusOk(move.w, con, des) && FailStop(move.w, con, des)
            && ClientThrows(move.w, move.client, des)
            && (move.w.mem.status == w.mem.status || move.w.mem.status == CAN_EXIT)
  {
    if InThrow(k.pc) {
      assert MoveClient(w, c, k, ok) == ThrowMove(w, k);
    } else {
      ClientReadsStatus(w, c, k, ok);
    }
  }

  // ----- MakeSureQueueEmpty -----

  function FlushMark(pc: ClientPc): nat {
    match pc
    case FlushTest(n) => n
    case FlushTest2(n, _) => n
    case FlushLock(n) => n
    case FlushSetNeed(n) => n
    case FlushRetest(n) => n
    case FlushRetest2(n, _) => n
    case FlushBlocked(n) => n
    case FlushClearNeed(n) => n
    case FlushUnlock(n) => n
    case FlushCheckError(n, _) => n
    case FlushSuccess(n, _) => n
    case _ => 0
  }

  /** The flush has found the ring empty. */
  predicate FoundEmpty(pc: ClientPc) {
    pc.FlushCheckError? || pc.FlushSuccess?
  }

  /** sole: the client is the only producer.  Until a failure is reported, a flush that has
      found the ring empty with the write index loaded first, or by the only producer,
      leaves behind what was accepted before it. */
  ghost predicate FlushCount(h: History, pc: ClientPc, sole: bool) {
    && FlushMark(pc) <= |h.accepted|
    && (sole && InFlush(pc) ==> FlushMark(pc) == |h.accepted|)
    && (!h.raised && pc.FlushTest2? ==> LoadedCounts(h, pc.first, pc.n, sole))
    && (!h.raised && FoundEmpty(pc) && (pc.sure || sole) ==> FlushMark(pc) <= h.taken)
  }

  predicate LoadedCounts(h: History, first: Loaded, n: nat, sole: bool) {
    match first
    case LoadedWr(_, seen) => n <= seen
    case LoadedRd(_, seen) => sole ==> |h.accepted| - seen < QUEUE_CAPACITY
  }

  lemma FlusherKeepsFlushCount(w: World, c: ThreadId, k: Client, ok: bool, con: ConsumerPc, sole: bool)
    requires RingsOk(w) && FlushMove(w, c, k, ok).ClientMoved? && FlushCount(w.hist, k.pc, sole)
    requires !w.hist.raised ==> Running(w, con) && ClientRunning(w, k.pc)
    ensures var move := FlushMove(w, c, k, ok); FlushCount(move.w.hist, move.client.pc, sole)
  {
    if !w.hist.raised && k.pc.FlushTest2? && SameIndex(w.ring, k.pc.first) {
      SureAnswer(w, con, k.pc.first);
    }
  }

  lemma ClientKeepsFlushCount(w: World, c: ThreadId, k: Client, ok: bool, con: ConsumerPc, sole: bool)
    requires RingsOk(w) && MoveClient(w, c, k, ok).ClientMoved? && FlushCount(w.hist, k.pc, sole)
    requires !w.hist.raised ==> Running(w, con) && ClientRunning(w, k.pc)
    ensures var move := MoveClient(w, c, k, ok); FlushCount(move.w.hist, move.client.pc, sole)
  {
    if InFlush(k.pc) {
      FlusherKeepsFlushCount(w, c, k, ok, con, sole);
    } else {
      OnlyFlushFlushes(w, c, k, ok);
    }
  }

  lemma OnlyFlushFlushes(w: World, c: ThreadId, k: Client, ok: bool)
    requires RingsOk(w) && MoveClient(w, c, k, ok).ClientMoved? && !InFlush(k.pc)
    ensures !InFlush(MoveClient(w, c, k, ok).client.pc)
  {
  }

  /** The history only grows. */
  ghost predicate Grows(h: History, h': History) {
    && h.accepted <= h'.accepted
    && h.executed <= h'.executed
    && h.released <= h'.released
    && h.freed <= h'.freed
    && h.taken <= h'.taken
    && (h.failed ==> h'.failed)
    && (h.raised ==> h'.raised)
    && (h.rewound ==> h'.rewound)
  }

  lemma ClientGrows(w: World, c: ThreadId, k: Client, ok: bool)
    requires RingsOk(w) && MoveClient(w, c, k, ok).ClientMoved?
    ensures Grows(w.hist, MoveClient(w, c, k, ok).w.hist)
  {
    ClientFrame(w, c, k, ok);
  }

  lemma ConsumerGrows(w: World, con: ConsumerPc, code: int, ok: bool)
    requires RingsOk(w) && MoveConsumer(w, con, code, ok).ConsumerMoved?
    ensures Grows(w.hist, MoveConsumer(w, con, code, ok).w.hist)
    ensures MoveConsumer(w, con, code, ok).w.hist.accepted == w.hist.accepted
  {
    if !InRead(con) && !InError(con) {
      DequeueFrame(w, con, ok);
    }
  }

  // ----- All of it -----

  predicate InEnqueue(pc: ClientPc) {
    Writing(pc) || pc.EnqCheckError? || pc.EnqCheckRun? || pc.EnqCheckInit?
  }

  ghost predicate AtMostOne(producers: set<ThreadId>) {
    forall p, q :: p in producers && q in producers ==> p == q
  }

  /** c is the only producer. */
  ghost predicate Sole(s: State, c: ThreadId) {
    c in s.producers && AtMostOne(s.producers)
  }

  ghost predicate ClientInv(s: State, c: ThreadId)
    requires RingsOk(s.w) && c in s.clients
  {
    var k := s.clients[c];
    && ClientLocks(s.w.mem, c, k.pc)
    && ClientThrows(s.w, k, s.destructor)
    && FlushCount(s.w.hist, k.pc, Sole(s, c))
    && (InEnqueue(k.pc) ==> c in s.producers)
    && (!s.w.hist.raised ==> ClientRunning(s.w, k.pc))
    && (!s.w.hist.failed ==>
          && FlushWake(s.w, k.pc, s.consumer)
          && (AtMostOne(s.producers) ==> WriterWake(s.w, k.pc, s.consumer)))
  }

  /** A mutex is held by a client of the run, and an error marked as reported was claimed by one. */
  ghost predicate Owned(s: State) {
    && (s.w.mem.muEnqueue.Some? ==> s.w.mem.muEnqueue.value in s.clients)
    && (s.w.mem.muEmpty.Some? ==> s.w.mem.muEmpty.value in s.clients)
    && (s.destructor.DesWaiting? && s.w.hist.raised && s.w.mem.status == CAN_EXIT ==>
          exists c :: c in s.clients && Claims(s.clients[c]) == 1)
  }

  ghost predicate CoreInv(s: State) {
    && Shape(s)
    && Owned(s)
    && Pipeline(s.w, s.consumer, s.releaser)
    && StatusOk(s.w, s.consumer, s.destructor)
    && FailStop(s.w, s.consumer, s.destructor)
    && (!s.w.hist.raised ==> Running(s.w, s.consumer))
    && ReaderWake(s)
  }

  ghost predicate Inv(s: State) {
    CoreInv(s) && forall c :: c in s.clients ==> ClientInv(s, c)
  }

  lemma InitialHolds(ids: set<ThreadId>, producers: set<ThreadId>)
    ensures Inv(Initial(ids, producers))
  {
  }

  lemma OtherClientHolds(s: State, c: ThreadId, ok: bool, s': State, d: ThreadId)
    requires Inv(s) && ClientSteps(s, c, ok, s') && RingsOk(s'.w)
    requires d in s.clients && d != c
    ensures ClientInv(s', d)
  {
    var w, k, kd := s.w, s.clients[c], s.clients[d];
    assert ClientInv(s, c) && ClientInv(s, d);
    ClientKeepsLocks(w, c, k, ok, d, kd);
    ClientKeepsThrows(w, c, k, ok, s.consumer, s.destructor);
    ClientGrows(w, c, k, ok);
    ClientFrame(w, c, k, ok);
    OtherKeepsFlushCount(s, c, ok, s', d);
    if !w.hist.raised {
      ClientKeepsOtherRunning(w, c, k, ok, d, kd);
    }
    if !w.hist.failed {
      ClientKeepsOtherFlushWake(w, s.consumer, c, k, ok, d, kd);
      if AtMostOne(s.producers) && InEnqueue(kd.pc) {
        FlusherKeepsWriterWake(w, s.consumer, c, k, ok, kd.pc);
      }
    }
  }

  /** Only producers publish, so a flush by the only one sees nothing new. */
  lemma OtherKeepsFlushCount(s: State, c: ThreadId, ok: bool, s': State, d: ThreadId)
    requires Inv(s) && ClientSteps(s, c, ok, s') && d in s.clients && d != c
    ensures FlushCount(s'.w.hist, s'.clients[d].pc, Sole(s', d))
  {
    assert ClientInv(s, c) && ClientInv(s, d);
    ClientFrame(s.w, c, s.clients[c], ok);
    ClientGrows(s.w, c, s.clients[c], ok);
    if Sole(s, d) && !InThrow(s.clients[c].pc) {
      ControlFrame(s.w, c, s.clients[c], ok);
    }
  }

  lemma MovingClientHolds(s: State, c: ThreadId, ok: bool, s': State)
    requires Inv(s) && ClientSteps(s, c, ok, s') && RingsOk(s'.w)
    ensures ClientInv(s', c)
    ensures !s'.w.hist.raised ==> Running(s'.w, s'.consumer)
  {
    var w, k := s.w, s.clients[c];
    assert ClientInv(s, c);
    ClientKeepsOwnLock(w, c, k, ok);
    ClientKeepsThrows(w, c, k, ok, s.consumer, s.destructor);
    ClientKeepsFlushCount(w, c, k, ok, s.consumer, Sole(s, c));
    ClientStaysProducer(w, c, k, ok);
    ClientFrame(w, c, k, ok);
    if !w.hist.raised {
      ClientKeepsRunning(w, s.consumer, c, k, ok);
    }
    if !w.hist.failed {
      ClientKeepsFlushWake(w, s.consumer, c, k, ok);
      if AtMostOne(s.producers) {
        ClientKeepsWriterWake(w, s.consumer, c, k, ok);
      }
    }
  }

  lemma ClientKeepsOwnLock(w: World, c: ThreadId, k: Client, ok: bool)
    requires RingsOk(w) && MoveClient(w, c, k, ok).ClientMoved? && ClientLocks(w.mem, c, k.pc)
    ensures var move := MoveClient(w, c, k, ok); ClientLocks(move.w.mem, c, move.client.pc)
  {
    if InFlush(k.pc) {
      FlushKeepsLocks(w, c, k, ok);
    } else if !InThrow(k.pc) {
      EnqueueKeepsLocks(w, c, k, ok);
    }
  }

  lemma ClientStaysProducer(w: World, c: ThreadId, k: Client, ok: bool)
    requires RingsOk(w) && MoveClient(w, c, k, ok).ClientMoved?
    ensures InEnqueue(MoveClient(w, c, k, ok).client.pc) ==> InEnqueue(k.pc)
  {
  }

  lemma ClientStepHolds(s: State, c: ThreadId, ok: bool, s': State)
    requires Inv(s) && ClientSteps(s, c, ok, s')
    ensures Inv(s')
  {
    var w, k := s.w, s.clients[c];
    assert ClientInv(s, c);
    ClientKeepsShape(w, c, k, ok);
    MovingClientHolds(s, c, ok, s');
    forall d | d in s'.clients ensures ClientInv(s', d) {
      if d != c {
        OtherClientHolds(s, c, ok, s', d);
      }
    }
    ClientKeepsThrows(w, c, k, ok, s.consumer, s.destructor);
    ClientFrame(w, c, k, ok);
    ClientKeepsReader(w, s.consumer, c, k, ok);
    ClientKeepsOwned(s, c, ok, s');
    if ReaderStranded(s'.w, s'.consumer) && !Notifying(s'.clients[c].pc) {
      var d :| d in s.clients && Notifying(s.clients[d].pc);
      assert d in s'.clients && Notifying(s'.clients[d].pc);
    } else if ReaderStranded(s'.w, s'.consumer) {
      assert c in s'.clients && Notifying(s'.clients[c].pc);
    }
  }

  lemma ClientKeepsOwned(s: State, c: ThreadId, ok: bool, s': State)
    requires Inv(s) && ClientSteps(s, c, ok, s')
    ensures Owned(s')
  {
    var w, k := s.w, s.clients[c];
    assert ClientInv(s, c);
    ClientFrame(w, c, k, ok);
    if InThrow(k.pc) {
      assert MoveClient(w, c, k, ok) == ThrowMove(w, k);
      if s'.destructor.DesWaiting? {
        assert Claims(s'.clients[c]) == 1;
      }
    } else {
      LocksPassToMover(w, c, k, ok);
      ClientReadsStatus(w, c, k, ok);
      if s'.destructor.DesWaiting? && s'.w.hist.raised && s'.w.mem.status == CAN_EXIT {
        var d :| d in s.clients && Claims(s.clients[d]) == 1;
        assert Claims(s'.clients[d]) == 1;
      }
    }
  }

  lemma LocksPassToMover(w: World, c: ThreadId, k: Client, ok: bool)
    requires RingsOk(w) && MoveClient(w, c, k, ok).ClientMoved? && ClientLocks(w.mem, c, k.pc) && !InThrow(k.pc)
    ensures var m := MoveClient(w, c, k, ok).w.mem;
            m.muEnqueue in {None, Some(c), w.mem.muEnqueue} && m.muEmpty in {None, Some(c), w.mem.muEmpty}
  {
    if InFlush(k.pc) {
      FlushKeepsLocks(w, c, k, ok);
    } else {
      EnqueueKeepsLocks(w, c, k, ok);
    }
  }

  lemma ConsumerStepHolds(s: State, code: int, ok: bool, s': State)
    requires Inv(s) && ConsumerSteps(s, code, ok, s')
    ensures Inv(s')
  {
    var w, con := s.w, s.consumer;
    ConsumerKeepsShape(w, con, code, ok);
    ConsumerKeepsPipeline(w, con, s.releaser, code, ok);
    ConsumerKeepsStatus(w, con, code, ok, s.destructor);
    ConsumerKeepsReader(w, con, code, ok);
    ConsumerGrows(w, con, code, ok);
    ConsumerKeepsOwned(s, code, ok, s');
    if !w.hist.raised {
      ConsumerKeepsRunning(w, con, code, ok);
    }
    forall c | c in s'.clients ensures ClientInv(s', c) {
      ConsumerStepKeepsClient(s, code, ok, s', c);
    }
  }

  lemma ConsumerKeepsOwned(s: State, code: int, ok: bool, s': State)
    requires Shape(s) && Owned(s) && StatusOk(s.w, s.consumer, s.destructor) && FailStop(s.w, s.consumer, s.destructor)
    requires ConsumerSteps(s, code, ok, s')
    ensures Owned(s')
  {
    if s.destructor.DesWaiting? {
      ConsumerClaimsNothing(s.w, s.consumer, code, ok, s.destructor);
    }
    ConsumerLeavesLocks(s.w, s.consumer, code, ok);
  }

  lemma ConsumerLeavesLocks(w: World, con: ConsumerPc, code: int, ok: bool)
    requires RingsOk(w) && MoveConsumer(w, con, code, ok).ConsumerMoved?
    ensures var w' := MoveConsumer(w, con, code, ok).w;
            w'.mem.muEnqueue == w.mem.muEnqueue && w'.mem.muEmpty == w.mem.muEmpty
  {
  }

  /** The consumer stores CAN_EXIT only where NEED_EXIT stood, which the destructor puts there. */
  lemma ConsumerClaimsNothing(w: World, con: ConsumerPc, code: int, ok: bool, des: DestructorPc)
    requires RingsOk(w) && MoveConsumer(w, con, code, ok).ConsumerMoved?
    requires StatusOk(w, con, des) && FailStop(w, con, des) && des.DesWaiting?
    ensures var w' := MoveConsumer(w, con, code, ok).w;
            w'.hist.raised && w'.mem.status == CAN_EXIT ==> w.hist.raised && w.mem.status == CAN_EXIT
  {
  }

  lemma ConsumerStepKeepsClient(s: State, code: int, ok: bool, s': State, c: ThreadId)
    requires Inv(s) && ConsumerSteps(s, code, ok, s') && RingsOk(s'.w) && c in s.clients
    requires !s'.w.hist.raised ==> Running(s'.w, s'.consumer)
    requires Grows(s.w.hist, s'.w.hist) && s'.w.hist.accepted == s.w.hist.accepted
    ensures ClientInv(s', c)
  {
    var w, con, k := s.w, s.consumer, s.clients[c];
    assert ClientInv(s, c);
    ConsumerKeepsThrows(w, con, code, ok, k, s.destructor);
    if !s'.w.hist.raised {
      ConsumerKeepsClientRunning(w, con, code, ok, k.pc);
    }
    if !s'.w.hist.failed {
      ConsumerKeepsFlushWake(w, con, code, ok, k.pc);
      if AtMostOne(s.producers) {
        ConsumerKeepsWriterWake(w, con, code, ok, k.pc);
      }
    }
  }

  lemma ConsumerKeepsThrows(w: World, con: ConsumerPc, code: int, ok: bool, k: Client, des: DestructorPc)
    requires RingsOk(w) && MoveConsumer(w, con, code, ok).ConsumerMoved?
    requires FailStop(w, con, des) && ClientThrows(w, k, des)
    ensures var w' := MoveConsumer(w, con, code, ok).w;
            && ClientThrows(w', k, des)
            && w'.mem.muEnqueue == w.mem.muEnqueue
            && w'.mem.muEmpty == w.mem.muEmpty
  {
    ConsumerLeavesLocks(w, con, code, ok);
  }

  lemma ReleaserStepHolds(s: State, s': State)
    requires Inv(s) && ReleaserSteps(s, s')
    ensures Inv(s')
  {
    ReleaserFrame(s.w, s.releaser);
    ReleaserKeepsPipeline(s.w, s.consumer, s.releaser);
    forall c | c in s'.clients ensures ClientInv(s', c) {
      assert ClientInv(s, c);
    }
  }

  lemma DestructorFrame(s: State, ok: bool)
    requires MoveDestructor(s, ok).DestructorMoved?
    ensures var w, m := MoveDestructor(s, ok).w, MoveDestructor(s, ok).w.mem;
            && w == s.w.(mem := s.w.mem.(status := m.status, releaseStatus := m.releaseStatus,
                                         efdRead := m.efdRead, efdEmpty := m.efdEmpty))
            && m.efdRead >= s.w.mem.efdRead && m.efdEmpty >= s.w.mem.efdEmpty
            && !MoveDestructor(s, ok).pc.DesWaiting?
            && (s.destructor.DesWaiting? ==> m.status == NEED_EXIT)
            && (!s.destructor.DesWaiting? ==> m.status == s.w.mem.status)
  {
  }

  lemma DestructorStepHolds(s: State, ok: bool, s': State)
    requires Inv(s) && DestructorSteps(s, ok, s')
    ensures Inv(s')
  {
    DestructorFrame(s, ok);
    DestructorKeepsCore(s, s');
    forall c | c in s'.clients ensures ClientInv(s', c) {
      OutsideChangeKeepsClient(s, s', c);
    }
  }

  /** What the destructor may change: the status words and the tokens of two channels. */
  ghost predicate OutsideChange(s: State, s': State) {
    var m, m' := s.w.mem, s'.w.mem;
    && s' == s.(w := s.w.(mem := m'), destructor := s'.destructor)
    && m' == m.(status := m'.status, releaseStatus := m'.releaseStatus, efdRead := m'.efdRead, efdEmpty := m'.efdEmpty)
    && m'.efdRead >= m.efdRead && m'.efdEmpty >= m.efdEmpty
    && !s'.destructor.DesWaiting?
    && (s.destructor.DesWaiting? ==> m'.status == NEED_EXIT)
    && (!s.destructor.DesWaiting? ==> m'.status == m.status)
  }

  lemma DestructorKeepsCore(s: State, s': State)
    requires CoreInv(s) && OutsideChange(s, s')
    ensures CoreInv(s')
  {
  }

  lemma OutsideChangeKeepsClient(s: State, s': State, c: ThreadId)
    requires RingsOk(s.w) && c in s.clients && ClientInv(s, c) && OutsideChange(s, s')
    ensures ClientInv(s', c)
  {
  }

  lemma BeginHolds(s: State, c: ThreadId, pc: ClientPc, s': State)
    requires Inv(s) && Begins(s, c, pc, s')
    requires (pc.EnqCheckError? && c in s.producers) || pc == FlushTest(|s.w.hist.accepted|)
    ensures Inv(s')
  {
    if s.destructor.DesWaiting? && s.w.hist.raised && s.w.mem.status == CAN_EXIT {
      var d :| d in s.clients && Claims(s.clients[d]) == 1;
      assert Claims(s'.clients[d]) == 1;
    }
    forall d | d in s'.clients ensures ClientInv(s', d) {
      BeginKeepsClient(s, c, pc, s', d);
    }
    if ReaderStranded(s'.w, s'.consumer) {
      var d :| d in s.clients && Notifying(s.clients[d].pc);
      assert d in s'.clients && Notifying(s'.clients[d].pc);
    }
  }

  lemma BeginKeepsClient(s: State, c: ThreadId, pc: ClientPc, s': State, d: ThreadId)
    requires RingsOk(s.w) && d in s.clients && ClientInv(s, d) && Begins(s, c, pc, s')
    requires (pc.EnqCheckError? && c in s.producers) || pc == FlushTest(|s.w.hist.accepted|)
    ensures ClientInv(s', d)
  {
  }

  lemma StepKeepsInv(s: State, l: Label, s': State)
    requires Inv(s) && Step(s, l, s')
    ensures Inv(s')
  {
    match l
    case BeginEnqueue(c, t) => BeginHolds(s, c, EnqCheckError(t), s');
    case BeginFlush(c) => BeginHolds(s, c, FlushTest(|s.w.hist.accepted|), s');
    case ClientStep(c, ok) => ClientStepHolds(s, c, ok, s');
    case ConsumerStep(code, ok) => ConsumerStepHolds(s, code, ok, s');
    case ReleaserStep => ReleaserStepHolds(s, s');
    case DestructorStep(ok) => DestructorStepHolds(s, ok, s');
  }

  /** Every state of every run satisfies the invariant. */
  lemma {:induction false} RunKeepsInv(trace: seq<State>, labels: seq<Label>, ids: set<ThreadId>,
                                       producers: set<ThreadId>, i: nat)
    requires IsRun(trace, labels, ids, producers) && i < |trace|
    ensures Inv(trace[i]) && trace[i].producers == producers && trace[i].clients.Keys == ids
  {
    if i == 0 {
      InitialHolds(ids, producers);
    } else {
      RunKeepsInv(trace, labels, ids, producers, i - 1);
      assert StepAt(trace, labels, i - 1);
      StepKeepsInv(trace[i - 1], labels[i - 1], trace[i]);
      StepKeepsClients(trace[i - 1], labels[i - 1], trace[i]);
    }
  }

  lemma StepKeepsClients(s: State, l: Label, s': State)
    requires Step(s, l, s')
    ensures s'.producers == s.producers && s'.clients.Keys == s.clients.Keys
  {
  }
}
