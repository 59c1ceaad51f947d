/** The asynchronous task queue as a step relation.

    Any number of client threads call Enqueue and MakeSureQueueEmpty, one
    consumer thread runs StartConsume, one releaser thread runs StartRelease, and
    one thread may run the destructor.  Every step is one access to shared memory,
    one lock operation, one eventfd call or one callback.  Memory is sequentially
    consistent: the code puts a full fence between each publish and the check
    that follows it.

    A test of the ring loads both indices.  Where other threads may move either of
    them, the two loads are two steps, in either order.  Elsewhere one index is the
    thread's own - the read index is the consumer's, the write index belongs to the
    holder of mu_enqueue, each index of the release ring to one thread - so its load
    can be moved beside the other one and the test is one step.  A client that reports
    a failure also moves the read index, but then, until the destructor starts, the
    consumer can only reach its test before sleeping, which is two steps (FailStop). */
module TaskQueue {
  import opened Rings

  type Task = nat
  type ThreadId = nat

  datatype Option<T> = None | Some(value: T)

  datatype RepoStatus = INIT | RUN | NEED_EXIT | CAN_EXIT | ERROR_EXIT

  /** The first of the two loads of a test: the read or the write index.  seen is not part
      of the program: how many tasks had been taken, or accepted, at that load. */
  datatype Loaded = LoadedRd(i: nat, seen: nat) | LoadedWr(i: nat, seen: nat)

  /** Where a client thread is.  The argument n of the flush positions is the number of
      tasks accepted before the call began; sure tells whether the flush has found the
      ring empty by loading the write index first. */
  datatype ClientPc =
    | Idle
      // Enqueue
    | EnqCheckError(t: Task)
    | EnqCheckRun(t: Task)
    | EnqCheckInit(t: Task)
    | EnqSetWorking(t: Task)
    | EnqLock(t: Task)
    | EnqTestFull(t: Task)
    | EnqCopy(t: Task)
    | EnqPublish(t: Task)
    | EnqUnlock
    | EnqCheckReader
    | EnqNotify
    | EnqFinish
    | EnqUnlockFull(t: Task)
    | EnqClearWorking(t: Task)
    | EnqRetest(t: Task)
    | EnqRetest2(t: Task, first: Loaded)
    | EnqBlocked(t: Task)
    | EnqWoken(t: Task)
      // the exception for an inner error, thrown by either call
    | ThrowSetStatus
    | ThrowLoad
    | ThrowStore(w: nat)
      // MakeSureQueueEmpty
    | FlushTest(n: nat)
    | FlushTest2(n: nat, first: Loaded)
    | FlushLock(n: nat)
    | FlushSetNeed(n: nat)
    | FlushRetest(n: nat)
    | FlushRetest2(n: nat, first: Loaded)
    | FlushBlocked(n: nat)
    | FlushClearNeed(n: nat)
    | FlushUnlock(n: nat)
    | FlushCheckError(n: nat, sure: bool)
    | FlushSuccess(n: nat, sure: bool)

  datatype Client = Client(pc: ClientPc, throws: nat)

  /** Why the consumer hands a slot to the release queue. */
  datatype Cause = Executed | Drained

  datatype ConsumerPc =
      // StartConsume
    | ConLoopCanExit
    | ConLoopError
    | ConExited
      // Dequeue
    | ConSetWorking
    | ConWhile
    | ConNeedRead
    | ConNeedTest
    | ConNotifyEmpty
    | ConCheckWriter
    | ConNotifyWrite
    | ConLeave
    | ConCheckNeedExit
    | ConSwapStatus
    | ConCheckError
    | ConClearWorking
    | ConSleepTest
    | ConSleepTest2(first: Loaded)
    | ConBlocked
    | ConWoken
      // ReadQueue
    | ConTestEmpty
    | ConCall
    | ConRelease(cause: Cause)
    | ConReleaseCopy(cause: Cause)
    | ConReleasePublish(cause: Cause)
    | ConAdvance
    | ConDrainTest
    | ConDrainAdvance
    | ConSetError
    | ConErrorLoad
    | ConErrorStore(w: nat)
    | ConErrorNotifyEmpty
    | ConErrorNotifyWrite

  datatype ReleaserPc =
    | RelLoop
    | RelWhile
    | RelTestEmpty
    | RelFree
    | RelAdvance
    | RelCheckNeedExit
    | RelSwapStatus
    | RelExited

  datatype DestructorPc =
    | DesWaiting
    | DesNotify
    | DesJoin
    | DesNotifyEmpty
    | DesReleaseStatus
    | DesReleaseJoin
    | DesDone

  /** What has happened so far; nothing in the program reads it.
        accepted   the tasks published by Enqueue, in order
        taken      how many of them the read index has passed
        executed   the tasks given to the exec callback, in order
        released   the entries pushed to the release queue, in order
        freed      the entries given to the release-param callback, in order
        recycled   how many of them the release read index has passed
        failed     some exec callback has returned non-zero
        raised     ERROR_EXIT has been stored for it
        rewound    some client has stored read_idx = write_idx
        seenEmpty  |accepted| when ReadQueue last answered "empty"
        freedAll   |released| when ReadFromReleaseQueue last answered "empty" */
  datatype History = History(
    accepted: seq<Task>,
    taken: nat,
    executed: seq<Task>,
    released: seq<Task>,
    freed: seq<Task>,
    recycled: nat,
    failed: bool,
    raised: bool,
    rewound: bool,
    seenEmpty: nat,
    freedAll: nat)

  /** The shared memory besides the rings: flags, eventfd counters, status words, mutexes. */
  datatype Memory = Memory(
    readWorking: bool,
    writeWorking: bool,
    needEmpty: bool,
    efdRead: nat,
    efdWrite: nat,
    efdEmpty: nat,
    status: RepoStatus,
    releaseStatus: RepoStatus,
    muEnqueue: Option<ThreadId>,
    muEmpty: Option<ThreadId>)

  datatype World = World(ring: Ring<Task>, releaseRing: Ring<Task>, mem: Memory, hist: History)

  datatype State = State(
    w: World,
    clients: map<ThreadId, Client>,
    producers: set<ThreadId>,
    consumer: ConsumerPc,
    releaser: ReleaserPc,
    destructor: DestructorPc)

  /** One scheduling decision.  ok is false when an eventfd call is interrupted (EINTR),
      and when a test loads the write index before the read index; code is what an exec
      callback returns. */
  datatype Label =
    | BeginEnqueue(c: ThreadId, t: Task)
    | BeginFlush(c: ThreadId)
    | ClientStep(c: ThreadId, ok: bool)
    | ConsumerStep(code: int, ok: bool)
    | ReleaserStep
    | DestructorStep(ok: bool)

  /** What one step of a thread does to the world and to its own position. */
  datatype ClientMove = ClientBlocked | ClientMoved(w: World, client: Client)
  datatype ConsumerMove = ConsumerBlocked | ConsumerMoved(w: World, pc: ConsumerPc)
  datatype ReleaserMove = ReleaserBlocked | ReleaserMoved(w: World, pc: ReleaserPc)
  datatype DestructorMove = DestructorBlocked | DestructorMoved(w: World, pc: DestructorPc)

  /** The state InitRepo leaves: slots are zeroed, every thread is at its start.
      Only the producers may call Enqueue. */
  function Initial(ids: set<ThreadId>, producers: set<ThreadId>): State {
    State(
      World(
        Ring(seq(QUEUE_CAPACITY, _ => 0), 0, 0),
        Ring(seq(RELEASE_CAPACITY, _ => 0), 0, 0),
        Memory(false, false, false, 0, 0, 0, INIT, INIT, None, None),
        History([], 0, [], [], [], 0, false, false, false, 0, 0)),
      map c | c in ids :: Client(Idle, 0), producers,
      ConLoopCanExit, RelLoop, DesWaiting)
  }

  /** The first load of a test, in the chosen order. */
  function Load(w: World, readFirst: bool): Loaded {
    if readFirst then LoadedRd(w.ring.rd, w.hist.taken) else LoadedWr(w.ring.wr, |w.hist.accepted|)
  }

  /** The second load, and the comparison: the indices are equal. */
  predicate SameIndex(r: Ring<Task>, first: Loaded) {
    match first
    case LoadedRd(i, _) => i == r.wr
    case LoadedWr(i, _) => r.rd == i
  }

  /** The second load, and the comparison: the write index is just behind the read index. */
  predicate NextIndex(r: Ring<Task>, first: Loaded) {
    match first
    case LoadedRd(i, _) => (r.wr + 1) % QUEUE_CAPACITY == i
    case LoadedWr(i, _) => (i + 1) % QUEUE_CAPACITY == r.rd
  }

  ghost predicate RingsOk(w: World) {
    WellFormed(w.ring, QUEUE_CAPACITY) && WellFormed(w.releaseRing, RELEASE_CAPACITY)
  }

  // ----- Enqueue, MakeSureQueueEmpty and the exception they share -----

  ghost function EnqueueMove(w: World, c: ThreadId, k: Client, ok: bool): ClientMove
    requires RingsOk(w)
  {
    var m := w.mem;
    match k.pc
    case EnqCheckError(t) =>
      ClientMoved(w, k.(pc := if m.status == ERROR_EXIT then ThrowSetStatus else EnqCheckRun(t)))
    case EnqCheckRun(t) =>
      ClientMoved(w, k.(pc := if m.status != RUN then EnqCheckInit(t) else EnqSetWorking(t)))
    case EnqCheckInit(t) =>
      ClientMoved(w, k.(pc := if m.status != INIT then Idle else EnqSetWorking(t)))
    case EnqSetWorking(t) =>
      ClientMoved(w.(mem := m.(writeWorking := true)), k.(pc := EnqLock(t)))
    case EnqLock(t) =>
      if m.muEnqueue != None then ClientBlocked
      else ClientMoved(w.(mem := m.(muEnqueue := Some(c))), k.(pc := EnqTestFull(t)))
    case EnqTestFull(t) =>
      ClientMoved(w, k.(pc := if IsFull(w.ring, QUEUE_CAPACITY) then EnqUnlockFull(t) else EnqCopy(t)))
    case EnqCopy(t) =>
      ClientMoved(w.(ring := CopyIn(w.ring, t)), k.(pc := EnqPublish(t)))
    case EnqPublish(t) =>
      ClientMoved(
        w.(ring := Publish(w.ring, QUEUE_CAPACITY),
           hist := w.hist.(accepted := w.hist.accepted + [w.ring.slots[w.ring.wr]])),
        k.(pc := EnqUnlock))
    case EnqUnlock =>
      ClientMoved(w.(mem := m.(muEnqueue := None)), k.(pc := EnqCheckReader))
    case EnqCheckReader =>
      ClientMoved(w, k.(pc := if m.readWorking then EnqFinish else EnqNotify))
    case EnqNotify =>
      if ok then ClientMoved(w.(mem := m.(efdRead := m.efdRead + 1)), k.(pc := EnqFinish))
      else ClientMoved(w, k.(pc := EnqCheckReader))
    case EnqFinish =>
      ClientMoved(w.(mem := m.(writeWorking := false)), k.(pc := Idle))
    case EnqUnlockFull(t) =>
      ClientMoved(w.(mem := m.(muEnqueue := None)), k.(pc := EnqClearWorking(t)))
    case EnqClearWorking(t) =>
      ClientMoved(w.(mem := m.(writeWorking := false)), k.(pc := EnqRetest(t)))
    case EnqRetest(t) =>
      ClientMoved(w, k.(pc := EnqRetest2(t, Load(w, ok))))
    case EnqRetest2(t, first) =>
      ClientMoved(w, k.(pc := if NextIndex(w.ring, first) then EnqBlocked(t) else EnqLock(t)))
    case EnqBlocked(t) =>
      if !ok then ClientMoved(w, k.(pc := EnqLock(t)))
      else if m.efdWrite == 0 then ClientBlocked
      else ClientMoved(w.(mem := m.(efdWrite := 0)), k.(pc := EnqWoken(t)))
    case EnqWoken(t) =>
      ClientMoved(w.(mem := m.(writeWorking := true)), k.(pc := EnqLock(t)))
    case _ => ClientBlocked
  }

  ghost function ThrowMove(w: World, k: Client): ClientMove {
    match k.pc
    case ThrowSetStatus =>
      ClientMoved(w.(mem := w.mem.(status := CAN_EXIT)), k.(pc := ThrowLoad))
    case ThrowLoad =>
      ClientMoved(w, k.(pc := ThrowStore(w.ring.wr)))
    case ThrowStore(i) =>
      ClientMoved(w.(ring := w.ring.(rd := i), hist := w.hist.(rewound := true)), Client(Idle, k.throws + 1))
    case _ => ClientBlocked
  }

  ghost function FlushMove(w: World, c: ThreadId, k: Client, ok: bool): ClientMove {
    var m := w.mem;
    match k.pc
    case FlushTest(n) =>
      ClientMoved(w, k.(pc := FlushTest2(n, Load(w, ok))))
    case FlushTest2(n, first) =>
      ClientMoved(w, k.(pc := if SameIndex(w.ring, first) then FlushCheckError(n, first.LoadedWr?) else FlushLock(n)))
    case FlushLock(n) =>
      if m.muEmpty != None then ClientBlocked
      else ClientMoved(w.(mem := m.(muEmpty := Some(c))), k.(pc := FlushSetNeed(n)))
    case FlushSetNeed(n) =>
      ClientMoved(w.(mem := m.(needEmpty := true)), k.(pc := FlushRetest(n)))
    case FlushRetest(n) =>
      ClientMoved(w, k.(pc := FlushRetest2(n, Load(w, ok))))
    case FlushRetest2(n, first) =>
      ClientMoved(w, k.(pc := if SameIndex(w.ring, first) then FlushClearNeed(n) else FlushBlocked(n)))
    case FlushBlocked(n) =>
      if !ok then ClientMoved(w, k.(pc := FlushUnlock(n)))
      else if m.efdEmpty == 0 then ClientBlocked
      else ClientMoved(w.(mem := m.(efdEmpty := 0)), k.(pc := FlushClearNeed(n)))
    case FlushClearNeed(n) =>
      ClientMoved(w.(mem := m.(needEmpty := false)), k.(pc := FlushUnlock(n)))
    case FlushUnlock(n) =>
      ClientMoved(w.(mem := m.(muEmpty := None)), k.(pc := FlushTest(n)))
    case FlushCheckError(n, sure) =>
      ClientMoved(w, k.(pc := if m.status == ERROR_EXIT then ThrowSetStatus else FlushSuccess(n, sure)))
    case FlushSuccess(_, _) =>
      ClientMoved(w, k.(pc := Idle))
    case _ => ClientBlocked
  }

  predicate InThrow(pc: ClientPc) {
    pc.ThrowSetStatus? || pc.ThrowLoad? || pc.ThrowStore?
  }

  predicate InFlush(pc: ClientPc) {
    pc.FlushTest? || pc.FlushTest2? || pc.FlushLock? || pc.FlushSetNeed? || pc.FlushRetest? ||
    pc.FlushRetest2? || pc.FlushBlocked? || pc.FlushClearNeed? || pc.FlushUnlock? || pc.FlushCheckError? ||
    pc.FlushSuccess?
  }

  ghost function MoveClient(w: World, c: ThreadId, k: Client, ok: bool): ClientMove
    requires RingsOk(w)
  {
    if InThrow(k.pc) then ThrowMove(w, k)
    else if InFlush(k.pc) then FlushMove(w, c, k, ok)
    else EnqueueMove(w, c, k, ok)
  }

  // ----- StartConsume, Dequeue and ReadQueue -----

  /** The control part: loops, flags, notifications and sleeping. */
  ghost function DequeueMove(w: World, pc: ConsumerPc, ok: bool): ConsumerMove {
    var m := w.mem;
    match pc
    case ConLoopCanExit =>
      ConsumerMoved(w, if m.status == CAN_EXIT then ConExited else ConLoopError)
    case ConLoopError =>
      ConsumerMoved(w, if m.status == ERROR_EXIT then ConExited else ConSetWorking)
    case ConSetWorking =>
      ConsumerMoved(w.(mem := m.(readWorking := true)), ConWhile)
    case ConWhile =>
      ConsumerMoved(w, if m.status == CAN_EXIT then ConLeave else ConTestEmpty)
    case ConNeedRead =>
      ConsumerMoved(w, if m.needEmpty then ConNeedTest else ConCheckWriter)
    case ConNeedTest =>
      ConsumerMoved(w, if IsEmpty(w.ring) then ConNotifyEmpty else ConCheckWriter)
    case ConNotifyEmpty =>
      if ok then ConsumerMoved(w.(mem := m.(efdEmpty := m.efdEmpty + 1)), ConCheckWriter)
      else ConsumerMoved(w, ConNotifyEmpty)
    case ConCheckWriter =>
      ConsumerMoved(w, if m.writeWorking then ConLeave else ConNotifyWrite)
    case ConNotifyWrite =>
      if ok then ConsumerMoved(w.(mem := m.(efdWrite := m.efdWrite + 1)), ConLeave)
      else ConsumerMoved(w, ConCheckWriter)
    case ConLeave =>
      ConsumerMoved(w.(mem := m.(readWorking := false)), ConLoopCanExit)
    case ConCheckNeedExit =>
      ConsumerMoved(w, if m.status == NEED_EXIT then ConSwapStatus else ConCheckError)
    case ConSwapStatus =>
      ConsumerMoved(w.(mem := m.(status := if m.status == NEED_EXIT then CAN_EXIT else m.status)), ConLeave)
    case ConCheckError =>
      ConsumerMoved(w, if m.status == ERROR_EXIT then ConLeave else ConClearWorking)
    case ConClearWorking =>
      ConsumerMoved(w.(mem := m.(readWorking := false)), ConSleepTest)
    case ConSleepTest =>
      ConsumerMoved(w, ConSleepTest2(Load(w, ok)))
    case ConSleepTest2(first) =>
      ConsumerMoved(w, if SameIndex(w.ring, first) then ConBlocked else ConWhile)
    case ConBlocked =>
      if !ok then ConsumerMoved(w, ConWhile)
      else if m.efdRead == 0 then ConsumerBlocked
      else ConsumerMoved(w.(mem := m.(efdRead := 0)), ConWoken)
    case ConWoken =>
      ConsumerMoved(w.(mem := m.(readWorking := true)), ConWhile)
    case _ => ConsumerBlocked
  }

  /** ReadQueue while the exec callbacks succeed. */
  ghost function ReadMove(w: World, pc: ConsumerPc, code: int): ConsumerMove
    requires RingsOk(w)
  {
    match pc
    case ConTestEmpty =>
      if IsEmpty(w.ring)
      then ConsumerMoved(w.(hist := w.hist.(seenEmpty := |w.hist.accepted|)), ConCheckNeedExit)
      else ConsumerMoved(w, ConCall)
    case ConCall =>
      ConsumerMoved(
        w.(hist := w.hist.(executed := w.hist.executed + [w.ring.slots[w.ring.rd]],
                           failed := w.hist.failed || code != 0)),
        if code == 0 then ConRelease(Executed) else ConDrainTest)
    case ConRelease(cause) =>
      // PushToReleaseQueue spins while the release queue is full
      ConsumerMoved(w, if IsFull(w.releaseRing, RELEASE_CAPACITY) then pc else ConReleaseCopy(cause))
    case ConReleaseCopy(cause) =>
      ConsumerMoved(w.(releaseRing := CopyIn(w.releaseRing, w.ring.slots[w.ring.rd])), ConReleasePublish(cause))
    case ConReleasePublish(cause) =>
      ConsumerMoved(
        w.(releaseRing := Publish(w.releaseRing, RELEASE_CAPACITY),
           hist := w.hist.(released := w.hist.released + [w.releaseRing.slots[w.releaseRing.wr]])),
        if cause == Executed then ConAdvance else ConDrainAdvance)
    case ConAdvance =>
      ConsumerMoved(
        w.(ring := Retire(w.ring, QUEUE_CAPACITY), hist := w.hist.(taken := w.hist.taken + 1)),
        ConNeedRead)
    case _ => ConsumerBlocked
  }

  /** ReadQueue after an exec callback has returned non-zero: drain, then report. */
  ghost function ErrorMove(w: World, pc: ConsumerPc, ok: bool): ConsumerMove {
    var m := w.mem;
    match pc
    case ConDrainTest =>
      ConsumerMoved(w, if IsEmpty(w.ring) then ConSetError else ConRelease(Drained))
    case ConDrainAdvance =>
      ConsumerMoved(
        w.(ring := Retire(w.ring, QUEUE_CAPACITY), hist := w.hist.(taken := w.hist.taken + 1)),
        ConDrainTest)
    case ConSetError =>
      ConsumerMoved(w.(mem := m.(status := ERROR_EXIT), hist := w.hist.(raised := true)), ConErrorLoad)
    case ConErrorLoad =>
      ConsumerMoved(w, ConErrorStore(w.ring.wr))
    case ConErrorStore(i) =>
      ConsumerMoved(w.(ring := w.ring.(rd := i)), ConErrorNotifyEmpty)
    case ConErrorNotifyEmpty =>
      ConsumerMoved(if ok then w.(mem := m.(efdEmpty := m.efdEmpty + 1)) else w, ConErrorNotifyWrite)
    case ConErrorNotifyWrite =>
      ConsumerMoved(if ok then w.(mem := m.(efdWrite := m.efdWrite + 1)) else w, ConCheckNeedExit)
    case _ => ConsumerBlocked
  }

  predicate InRead(pc: ConsumerPc) {
    pc.ConTestEmpty? || pc.ConCall? || pc.ConRelease? || pc.ConReleaseCopy? || pc.ConReleasePublish? || pc.ConAdvance?
  }

  predicate InError(pc: ConsumerPc) {
    pc.ConDrainTest? || pc.ConDrainAdvance? || pc.ConSetError? || pc.ConErrorLoad? ||
    pc.ConErrorStore? || pc.ConErrorNotifyEmpty? || pc.ConErrorNotifyWrite?
  }

  ghost function MoveConsumer(w: World, pc: ConsumerPc, code: int, ok: bool): ConsumerMove
    requires RingsOk(w)
  {
    if InRead(pc) then ReadMove(w, pc, code)
    else if InError(pc) then ErrorMove(w, pc, ok)
    else DequeueMove(w, pc, ok)
  }

  // ----- StartRelease, PopFromReleaseQueue and ReadFromReleaseQueue -----

  ghost function MoveReleaser(w: World, pc: ReleaserPc): ReleaserMove
    requires RingsOk(w)
  {
    var m := w.mem;
    match pc
    case RelLoop =>
      ReleaserMoved(w, if m.releaseStatus == CAN_EXIT then RelExited else RelWhile)
    case RelWhile =>
      ReleaserMoved(w, if m.releaseStatus == CAN_EXIT then RelLoop else RelTestEmpty)
    case RelTestEmpty =>
      if IsEmpty(w.releaseRing)
      then ReleaserMoved(w.(hist := w.hist.(freedAll := |w.hist.released|)), RelCheckNeedExit)
      else ReleaserMoved(w, RelFree)
    case RelFree =>
      ReleaserMoved(
        w.(hist := w.hist.(freed := w.hist.freed + [w.releaseRing.slots[w.releaseRing.rd]])), RelAdvance)
    case RelAdvance =>
      ReleaserMoved(
        w.(releaseRing := Retire(w.releaseRing, RELEASE_CAPACITY),
           hist := w.hist.(recycled := w.hist.recycled + 1)), RelLoop)
    case RelCheckNeedExit =>
      ReleaserMoved(w, if m.releaseStatus == NEED_EXIT then RelSwapStatus else RelWhile)
    case RelSwapStatus =>
      ReleaserMoved(
        w.(mem := m.(releaseStatus := if m.releaseStatus == NEED_EXIT then CAN_EXIT else m.releaseStatus)), RelLoop)
    case RelExited => ReleaserBlocked
  }

  // ----- ~Repository, then ~ReleaseQueue -----

  ghost function MoveDestructor(s: State, ok: bool): DestructorMove {
    var w, m := s.w, s.w.mem;
    match s.destructor
    case DesWaiting =>
      DestructorMoved(w.(mem := m.(status := NEED_EXIT)), DesNotify)
    case DesNotify =>
      DestructorMoved(if ok then w.(mem := m.(efdRead := m.efdRead + 1)) else w, DesJoin)
    case DesJoin =>
      if s.consumer.ConExited? then DestructorMoved(w, DesNotifyEmpty) else DestructorBlocked
    case DesNotifyEmpty =>
      DestructorMoved(if ok then w.(mem := m.(efdEmpty := m.efdEmpty + 1)) else w, DesReleaseStatus)
    case DesReleaseStatus =>
      DestructorMoved(w.(mem := m.(releaseStatus := NEED_EXIT)), DesReleaseJoin)
    case DesReleaseJoin =>
      if s.releaser.RelExited? then DestructorMoved(w, DesDone) else DestructorBlocked
    case DesDone => DestructorBlocked
  }

  // ----- Steps and runs -----

  /** The indices stay inside the rings; every step keeps this (StepKeepsShape). */
  ghost predicate Shape(s: State) {
    && RingsOk(s.w)
    && (forall c :: c in s.clients ==> ClientShape(s.clients[c]))
    && ConsumerShape(s.consumer)
  }

  predicate ClientShape(k: Client) {
    k.pc.ThrowStore? ==> k.pc.w < QUEUE_CAPACITY
  }

  predicate ConsumerShape(pc: ConsumerPc) {
    pc.ConErrorStore? ==> pc.w < QUEUE_CAPACITY
  }

  ghost predicate ClientSteps(s: State, c: ThreadId, ok: bool, s': State)
    requires Shape(s)
  {
    && c in s.clients
    && var move := MoveClient(s.w, c, s.clients[c], ok);
       move.ClientMoved? && s' == s.(w := move.w, clients := s.clients[c := move.client])
  }

  ghost predicate ConsumerSteps(s: State, code: int, ok: bool, s': State)
    requires Shape(s)
  {
    var move := MoveConsumer(s.w, s.consumer, code, ok);
    move.ConsumerMoved? && s' == s.(w := move.w, consumer := move.pc)
  }

  ghost predicate ReleaserSteps(s: State, s': State)
    requires Shape(s)
  {
    var move := MoveReleaser(s.w, s.releaser);
    move.ReleaserMoved? && s' == s.(w := move.w, releaser := move.pc)
  }

  ghost predicate DestructorSteps(s: State, ok: bool, s': State) {
    var move := MoveDestructor(s, ok);
    move.DestructorMoved? && s' == s.(w := move.w, destructor := move.pc)
  }

  ghost predicate Begins(s: State, c: ThreadId, pc: ClientPc, s': State) {
    && c in s.clients
    && s.clients[c].pc.Idle?
    && s' == s.(clients := s.clients[c := s.clients[c].(pc := pc)])
  }

  ghost predicate Step(s: State, l: Label, s': State) {
    && Shape(s)
    && match l
       case BeginEnqueue(c, t) => c in s.producers && Begins(s, c, EnqCheckError(t), s')
       case BeginFlush(c) => Begins(s, c, FlushTest(|s.w.hist.accepted|), s')
       case ClientStep(c, ok) => ClientSteps(s, c, ok, s')
       case ConsumerStep(code, ok) => ConsumerSteps(s, code, ok, s')
       case ReleaserStep => ReleaserSteps(s, s')
       case DestructorStep(ok) => DestructorSteps(s, ok, s')
  }

  /** trace is a run: it starts in the initial state and follows the labels. */
  ghost predicate IsRun(trace: seq<State>, labels: seq<Label>, ids: set<ThreadId>, producers: set<ThreadId>) {
    && |trace| == |labels| + 1
    && trace[0] == Initial(ids, producers)
    && forall i {:trigger StepAt(trace, labels, i)} :: 0 <= i < |labels| ==> StepAt(trace, labels, i)
  }

  ghost predicate StepAt(trace: seq<State>, labels: seq<Label>, i: nat)
    requires i < |labels| && i + 1 < |trace|
  {
    Step(trace[i], labels[i], trace[i + 1])
  }

  lemma ClientKeepsShape(w: World, c: ThreadId, k: Client, ok: bool)
    requires RingsOk(w) && ClientShape(k)
    ensures var move := MoveClient(w, c, k, ok);
            move.ClientMoved? ==> RingsOk(move.w) && ClientShape(move.client)
  {
  }

  lemma ConsumerKeepsShape(w: World, pc: ConsumerPc, code: int, ok: bool)
    requires RingsOk(w) && ConsumerShape(pc)
    ensures var move := MoveConsumer(w, pc, code, ok);
            move.ConsumerMoved? ==> RingsOk(move.w) && ConsumerShape(move.pc)
  {
  }

  /** No step moves an index out of its ring, whatever the callbacks return. */
  lemma StepKeepsShape(s: State, l: Label, s': State)
    requires Step(s, l, s')
    ensures Shape(s')
  {
    match l
    case ClientStep(c, ok) => ClientKeepsShape(s.w, c, s.clients[c], ok);
    case ConsumerStep(code, ok) => ConsumerKeepsShape(s.w, s.consumer, code, ok);
    case _ =>
  }
}
