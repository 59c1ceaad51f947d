/** How the calls of the task queue end, on every run: what a client gets back, and what
    decided it. */
module TaskQueueCalls {
  import opened Rings
  import opened TaskQueue
  import opened TaskQueueInvariants
  import opened TaskQueueTheorems

  // ----- What is published is what was passed -----

  /** A slot that is copied stays as it is until it is published. */
  ghost predicate CopiesStand(s: State) {
    forall c :: c in s.clients && s.clients[c].pc.EnqPublish? ==>
      && s.w.ring.wr < |s.w.ring.slots|
      && s.w.ring.slots[s.w.ring.wr] == s.clients[c].pc.t
  }

  lemma ConsumerLeavesSlots(w: World, con: ConsumerPc, code: int, ok: bool)
    requires RingsOk(w) && MoveConsumer(w, con, code, ok).ConsumerMoved?
    ensures var w' := MoveConsumer(w, con, code, ok).w;
            && w'.ring.slots == w.ring.slots && w'.ring.wr == w.ring.wr
            && w'.hist.accepted == w.hist.accepted
  {
  }

  lemma ClientCopies(w: World, c: ThreadId, k: Client, ok: bool)
    requires RingsOk(w) && MoveClient(w, c, k, ok).ClientMoved?
    ensures var move := MoveClient(w, c, k, ok);
            && (move.client.pc.EnqPublish? ==> CopyIn(w.ring, move.client.pc.t) == move.w.ring)
            && (!k.pc.EnqCopy? && !k.pc.EnqPublish? ==>
                  move.w.ring.slots == w.ring.slots && move.w.ring.wr == w.ring.wr)
  {
    if !InThrow(k.pc) && !k.pc.EnqCopy? && !k.pc.EnqPublish? {
      ControlFrame(w, c, k, ok);
    }
  }

  lemma StepKeepsCopies(s: State, l: Label, s': State)
    requires Inv(s) && Step(s, l, s') && CopiesStand(s)
    ensures CopiesStand(s')
  {
    match l
    case ClientStep(c, ok) =>
      ClientCopies(s.w, c, s.clients[c], ok);
      forall d | d in s'.clients && s'.clients[d].pc.EnqPublish?
        ensures s'.w.ring.wr < |s'.w.ring.slots| && s'.w.ring.slots[s'.w.ring.wr] == s'.clients[d].pc.t
      {
        assert ClientInv(s, c) && ClientInv(s, d);
      }
    case ConsumerStep(code, ok) => ConsumerLeavesSlots(s.w, s.consumer, code, ok);
    case ReleaserStep => ReleaserFrame(s.w, s.releaser);
    case DestructorStep(ok) => DestructorFrame(s, ok);
    case _ =>
  }

  lemma {:induction false} RunKeepsCopies(trace: seq<State>, labels: seq<Label>, ids: set<ThreadId>,
                                          producers: set<ThreadId>, i: nat)
    requires IsRun(trace, labels, ids, producers) && i < |trace|
    ensures CopiesStand(trace[i])
  {
    if i > 0 {
      RunKeepsCopies(trace, labels, ids, producers, i - 1);
      RunKeepsInv(trace, labels, ids, producers, i - 1);
      assert StepAt(trace, labels, i - 1);
      StepKeepsCopies(trace[i - 1], labels[i - 1], trace[i]);
    }
  }

  // ----- One call of one client -----

  /** Step k of the run is a step of client c from position pc. */
  ghost predicate At(trace: seq<State>, labels: seq<Label>, c: ThreadId, k: nat, pc: ClientPc) {
    && k < |labels| && k < |trace|
    && labels[k].ClientStep? && labels[k].c == c
    && c in trace[k].clients && trace[k].clients[c].pc == pc
  }

  /** Step k is one from pc that reads a status of seen. */
  ghost predicate Reads(trace: seq<State>, labels: seq<Label>, c: ThreadId, k: nat, pc: ClientPc,
                        seen: set<RepoStatus>) {
    At(trace, labels, c, k, pc) && trace[k].w.mem.status in seen
  }

  ghost predicate LooksAt(trace: seq<State>, labels: seq<Label>, c: ThreadId, pc: ClientPc,
                          seen: set<RepoStatus>, i: nat, j: nat) {
    exists k :: i < k < j && Reads(trace, labels, c, k, pc, seen)
  }

  /** Step k is a step of client c that adds to the tasks accepted. */
  ghost predicate Accepts(trace: seq<State>, labels: seq<Label>, c: ThreadId, k: nat) {
    && k < |labels| && k + 1 < |trace|
    && labels[k].ClientStep? && labels[k].c == c
    && trace[k + 1].w.hist.accepted != trace[k].w.hist.accepted
  }

  /** The call reads ERROR_EXIT at its first look at the status. */
  ghost predicate SeesError(trace: seq<State>, labels: seq<Label>, c: ThreadId, t: Task, i: nat, j: nat) {
    LooksAt(trace, labels, c, EnqCheckError(t), {ERROR_EXIT}, i, j)
  }

  /** It reads RUN at the second or INIT at the third. */
  ghost predicate SeesOpen(trace: seq<State>, labels: seq<Label>, c: ThreadId, t: Task, i: nat, j: nat) {
    || LooksAt(trace, labels, c, EnqCheckRun(t), {RUN}, i, j)
    || LooksAt(trace, labels, c, EnqCheckInit(t), {INIT}, i, j)
  }

  /** It gets to the third look and reads something else. */
  ghost predicate SeesClosed(trace: seq<State>, labels: seq<Label>, c: ThreadId, t: Task, i: nat, j: nat) {
    LooksAt(trace, labels, c, EnqCheckInit(t), {RUN, NEED_EXIT, CAN_EXIT, ERROR_EXIT}, i, j)
  }

  /** Nothing was accepted from c between i and j; or t was, once. */
  ghost predicate AcceptsNone(trace: seq<State>, labels: seq<Label>, c: ThreadId, i: nat, j: nat) {
    forall k :: i < k < j ==> !Accepts(trace, labels, c, k)
  }

  ghost predicate AcceptsOnce(trace: seq<State>, labels: seq<Label>, c: ThreadId, t: Task, i: nat, j: nat) {
    exists k :: i < k < j && Accepts(trace, labels, c, k) && OnlyThen(trace, labels, c, t, i, j, k)
  }

  ghost predicate OnlyThen(trace: seq<State>, labels: seq<Label>, c: ThreadId, t: Task, i: nat, j: nat, k: nat)
    requires Accepts(trace, labels, c, k)
  {
    && trace[k + 1].w.hist.accepted == trace[k].w.hist.accepted + [t]
    && forall m :: i < m < j && Accepts(trace, labels, c, m) ==> m == k
  }

  /** The call labelled i is still going on at each step before j. */
  ghost predicate CallRuns(trace: seq<State>, labels: seq<Label>, c: ThreadId, i: nat, j: nat) {
    && i < j < |trace| && |trace| == |labels| + 1
    && c in trace[i].clients && c in trace[j].clients
    && forall k :: i < k < j ==> c in trace[k].clients && !trace[k].clients[c].pc.Idle?
  }

  /** Past the looks at the status, with t yet to be published. */
  predicate BeforePublish(pc: ClientPc, t: Task) {
    || ((pc.EnqSetWorking? || pc.EnqLock? || pc.EnqTestFull? || pc.EnqCopy? || pc.EnqPublish?) && pc.t == t)
    || ((pc.EnqUnlockFull? || pc.EnqClearWorking? || pc.EnqRetest? || pc.EnqRetest2?) && pc.t == t)
    || ((pc.EnqBlocked? || pc.EnqWoken?) && pc.t == t)
  }

  predicate AfterPublish(pc: ClientPc) {
    pc.EnqUnlock? || pc.EnqCheckReader? || pc.EnqNotify? || pc.EnqFinish?
  }

  /** What an Enqueue of t that began with label i has read and done before step j: whether
      it has looked, what it saw, and what was accepted from it. */
  datatype Facts = Facts(looked: bool, error: bool, open: bool, closed: bool, none: bool, once: bool)

  ghost function FactsAt(trace: seq<State>, labels: seq<Label>, c: ThreadId, t: Task, i: nat, j: nat): Facts {
    Facts(
      LooksAt(trace, labels, c, EnqCheckError(t), AnyStatus(), i, j),
      SeesError(trace, labels, c, t, i, j),
      SeesOpen(trace, labels, c, t, i, j),
      SeesClosed(trace, labels, c, t, i, j),
      AcceptsNone(trace, labels, c, i, j),
      AcceptsOnce(trace, labels, c, t, i, j))
  }

  /** What has come of it, by position; thrown counts its exceptions. */
  predicate Stage(pc: ClientPc, thrown: int, t: Task, f: Facts) {
    && (pc == EnqCheckError(t) || f.looked)
    && thrown == (if f.error && pc.Idle? then 1 else 0)
    && (if f.open && !BeforePublish(pc, t) then f.once else f.none)
    && if pc == EnqCheckError(t) || pc == EnqCheckRun(t) || pc == EnqCheckInit(t) then
         !f.error && !f.open && !f.closed
       else if BeforePublish(pc, t) || AfterPublish(pc) then !f.error && f.open && !f.closed
       else if InThrow(pc) then f.error && !f.open && !f.closed
       else
         && pc.Idle? && (f.error || f.open || f.closed)
         && !(f.error && f.open) && !(f.error && f.closed) && !(f.open && f.closed)
  }

  ghost predicate StageAt(trace: seq<State>, labels: seq<Label>, c: ThreadId, t: Task, i: nat, j: nat)
    requires i < |trace| && j < |trace| && c in trace[i].clients && c in trace[j].clients
  {
    Stage(trace[j].clients[c].pc, trace[j].clients[c].throws - trace[i].clients[c].throws, t,
          FactsAt(trace, labels, c, t, i, j))
  }

  function AnyStatus(): set<RepoStatus> {
    {INIT, RUN, NEED_EXIT, CAN_EXIT, ERROR_EXIT}
  }

  lemma AnyStatusIsAny(status: RepoStatus)
    ensures status in AnyStatus()
    ensures status in {RUN, NEED_EXIT, CAN_EXIT, ERROR_EXIT} <==> status != INIT
  {
    match status
    case INIT =>
    case RUN =>
    case NEED_EXIT =>
    case CAN_EXIT =>
    case ERROR_EXIT =>
  }

  lemma LooksGrow(trace: seq<State>, labels: seq<Label>, c: ThreadId, pc: ClientPc, seen: set<RepoStatus>,
                  i: nat, j: nat)
    requires i < j
    ensures LooksAt(trace, labels, c, pc, seen, i, j + 1) <==>
              LooksAt(trace, labels, c, pc, seen, i, j) || Reads(trace, labels, c, j, pc, seen)
  {
    if LooksAt(trace, labels, c, pc, seen, i, j) {
      var k :| i < k < j && Reads(trace, labels, c, k, pc, seen);
      assert i < k < j + 1;
    }
    if Reads(trace, labels, c, j, pc, seen) {
      assert i < j < j + 1;
    }
  }

  lemma AcceptsGrow(trace: seq<State>, labels: seq<Label>, c: ThreadId, t: Task, i: nat, j: nat)
    requires i < j
    ensures !Accepts(trace, labels, c, j) ==>
              && (AcceptsNone(trace, labels, c, i, j) ==> AcceptsNone(trace, labels, c, i, j + 1))
              && (AcceptsOnce(trace, labels, c, t, i, j) ==> AcceptsOnce(trace, labels, c, t, i, j + 1))
    ensures Accepts(trace, labels, c, j) && AcceptsNone(trace, labels, c, i, j) &&
            trace[j + 1].w.hist.accepted == trace[j].w.hist.accepted + [t] ==>
              AcceptsOnce(trace, labels, c, t, i, j + 1)
  {
    if !Accepts(trace, labels, c, j) && AcceptsOnce(trace, labels, c, t, i, j) {
      var k :| i < k < j && Accepts(trace, labels, c, k) && OnlyThen(trace, labels, c, t, i, j, k);
      assert i < k < j + 1 && OnlyThen(trace, labels, c, t, i, j + 1, k);
    }
    if Accepts(trace, labels, c, j) && AcceptsNone(trace, labels, c, i, j) &&
       trace[j + 1].w.hist.accepted == trace[j].w.hist.accepted + [t]
    {
      assert i < j < j + 1 && OnlyThen(trace, labels, c, t, i, j + 1, j);
    }
  }
  /** One step of a client inside Enqueue. */
  lemma EnqueueGoesOn(w: World, c: ThreadId, k: Client, ok: bool, t: Task)
    requires RingsOk(w) && MoveClient(w, c, k, ok).ClientMoved?
    requires k.pc.EnqPublish? ==> w.ring.slots[w.ring.wr] == k.pc.t
    ensures var move := MoveClient(w, c, k, ok);
            var pc := move.client.pc;
            && (k.pc == EnqCheckError(t) ==>
                  pc == if w.mem.status == ERROR_EXIT then ThrowSetStatus else EnqCheckRun(t))
            && (k.pc == EnqCheckRun(t) ==> pc == if w.mem.status == RUN then EnqSetWorking(t) else EnqCheckInit(t))
            && (k.pc == EnqCheckInit(t) ==> pc == if w.mem.status == INIT then EnqSetWorking(t) else Idle)
            && (BeforePublish(k.pc, t) ==> if k.pc.EnqPublish? then AfterPublish(pc) else BeforePublish(pc, t))
            && (AfterPublish(k.pc) ==> AfterPublish(pc) || pc.Idle?)
            && (InThrow(k.pc) ==> if k.pc.ThrowStore? then pc.Idle? else InThrow(pc))
            && move.client.throws == k.throws + (if k.pc.ThrowStore? then 1 else 0)
            && move.w.hist.accepted == w.hist.accepted + (if k.pc.EnqPublish? then [k.pc.t] else [])
  {
  }

  lemma LookedGrows(trace: seq<State>, labels: seq<Label>, c: ThreadId, t: Task, i: nat, j: nat)
    requires i < j < |labels| && j < |trace|
    ensures LooksAt(trace, labels, c, EnqCheckError(t), AnyStatus(), i, j + 1) <==>
              LooksAt(trace, labels, c, EnqCheckError(t), AnyStatus(), i, j) ||
              At(trace, labels, c, j, EnqCheckError(t))
  {
    AnyStatusIsAny(trace[j].w.mem.status);
    LooksGrow(trace, labels, c, EnqCheckError(t), AnyStatus(), i, j);
  }

  lemma OpenGrows(trace: seq<State>, labels: seq<Label>, c: ThreadId, t: Task, i: nat, j: nat)
    requires i < j < |labels| && j < |trace|
    ensures SeesOpen(trace, labels, c, t, i, j + 1) <==>
              || SeesOpen(trace, labels, c, t, i, j)
              || (At(trace, labels, c, j, EnqCheckRun(t)) && trace[j].w.mem.status == RUN)
              || (At(trace, labels, c, j, EnqCheckInit(t)) && trace[j].w.mem.status == INIT)
  {
    LooksGrow(trace, labels, c, EnqCheckRun(t), {RUN}, i, j);
    LooksGrow(trace, labels, c, EnqCheckInit(t), {INIT}, i, j);
  }

  lemma ClosedGrows(trace: seq<State>, labels: seq<Label>, c: ThreadId, t: Task, i: nat, j: nat)
    requires i < j < |labels| && j < |trace|
    ensures SeesClosed(trace, labels, c, t, i, j + 1) <==>
              || SeesClosed(trace, labels, c, t, i, j)
              || (At(trace, labels, c, j, EnqCheckInit(t)) && trace[j].w.mem.status != INIT)
  {
    AnyStatusIsAny(trace[j].w.mem.status);
    LooksGrow(trace, labels, c, EnqCheckInit(t), {RUN, NEED_EXIT, CAN_EXIT, ERROR_EXIT}, i, j);
  }

  lemma ErrorGrows(trace: seq<State>, labels: seq<Label>, c: ThreadId, t: Task, i: nat, j: nat)
    requires i < j < |labels| && j < |trace|
    ensures SeesError(trace, labels, c, t, i, j + 1) <==>
              || SeesError(trace, labels, c, t, i, j)
              || (At(trace, labels, c, j, EnqCheckError(t)) && trace[j].w.mem.status == ERROR_EXIT)
  {
    LooksGrow(trace, labels, c, EnqCheckError(t), {ERROR_EXIT}, i, j);
  }

  /** Step j added nothing to the facts but what a step of c from its position there adds. */
  ghost predicate Grown(f: Facts, g: Facts, own: bool, pc: ClientPc, status: RepoStatus, t: Task) {
    && (g.looked <==> f.looked || (own && pc == EnqCheckError(t)))
    && (g.error <==> f.error || (own && pc == EnqCheckError(t) && status == ERROR_EXIT))
    && (g.open <==>
          || f.open
          || (own && pc == EnqCheckRun(t) && status == RUN)
          || (own && pc == EnqCheckInit(t) && status == INIT))
    && (g.closed <==> f.closed || (own && pc == EnqCheckInit(t) && status != INIT))
  }

  lemma FactsGrow(trace: seq<State>, labels: seq<Label>, c: ThreadId, t: Task, i: nat, j: nat)
    requires i < j < |labels| && j < |trace| && c in trace[j].clients
    ensures var f, g := FactsAt(trace, labels, c, t, i, j), FactsAt(trace, labels, c, t, i, j + 1);
            && Grown(f, g, labels[j].ClientStep? && labels[j].c == c, trace[j].clients[c].pc, trace[j].w.mem.status, t)
            && (!Accepts(trace, labels, c, j) ==> (f.none ==> g.none) && (f.once ==> g.once))
            && (Accepts(trace, labels, c, j) ==>
                  (f.none && trace[j + 1].w.hist.accepted == trace[j].w.hist.accepted + [t] ==> g.once))
  {
    AcceptsGrow(trace, labels, c, t, i, j);
    LookedGrows(trace, labels, c, t, i, j);
    ErrorGrows(trace, labels, c, t, i, j);
    OpenGrows(trace, labels, c, t, i, j);
    ClosedGrows(trace, labels, c, t, i, j);
  }

  lemma StageGoesOn(w: World, c: ThreadId, k: Client, ok: bool, t: Task, thrown: int, f: Facts, g: Facts)
    requires RingsOk(w) && MoveClient(w, c, k, ok).ClientMoved? && !k.pc.Idle?
    requires k.pc.EnqPublish? ==> w.ring.slots[w.ring.wr] == k.pc.t
    requires Stage(k.pc, thrown, t, f)
    requires Grown(f, g, true, k.pc, w.mem.status, t)
    requires if k.pc == EnqPublish(t) then f.none ==> g.once else (f.none ==> g.none) && (f.once ==> g.once)
    ensures var move := MoveClient(w, c, k, ok);
            Stage(move.client.pc, thrown + move.client.throws - k.throws, t, g)
  {
    EnqueueGoesOn(w, c, k, ok, t);
  }

  lemma StageStands(pc: ClientPc, thrown: int, t: Task, f: Facts, g: Facts, status: RepoStatus)
    requires Stage(pc, thrown, t, f) && Grown(f, g, false, pc, status, t)
    requires (f.none ==> g.none) && (f.once ==> g.once)
    ensures Stage(pc, thrown, t, g)
  {
  }

  lemma StageStep(trace: seq<State>, labels: seq<Label>, ids: set<ThreadId>, producers: set<ThreadId>,
                  c: ThreadId, t: Task, i: nat, j: nat)
    requires IsRun(trace, labels, ids, producers) && i < j && j + 1 < |trace|
    requires CallRuns(trace, labels, c, i, j) && CallRuns(trace, labels, c, i, j + 1)
    requires StageAt(trace, labels, c, t, i, j)
    ensures StageAt(trace, labels, c, t, i, j + 1)
  {
    RunKeepsCopies(trace, labels, ids, producers, j);
    assert StepAt(trace, labels, j);
    if labels[j].ClientStep? && labels[j].c == c {
      OwnStep(trace, labels, c, t, i, j, labels[j].ok);
    } else {
      FactsGrow(trace, labels, c, t, i, j);
      assert trace[j + 1].clients[c] == trace[j].clients[c];
      StageStands(trace[j].clients[c].pc, trace[j].clients[c].throws - trace[i].clients[c].throws, t,
                  FactsAt(trace, labels, c, t, i, j), FactsAt(trace, labels, c, t, i, j + 1), trace[j].w.mem.status);
    }
  }

  /** A step of c accepts a task exactly when it is the publish; the task is the one passed. */
  lemma OwnStepAccepts(trace: seq<State>, labels: seq<Label>, c: ThreadId, j: nat, ok: bool)
    requires j + 1 < |trace| && j < |labels| && labels[j] == ClientStep(c, ok)
    requires Shape(trace[j]) && ClientSteps(trace[j], c, ok, trace[j + 1]) && CopiesStand(trace[j])
    ensures var pc := trace[j].clients[c].pc;
            && At(trace, labels, c, j, pc)
            && (Accepts(trace, labels, c, j) <==> pc.EnqPublish?)
            && (pc.EnqPublish? ==> trace[j + 1].w.hist.accepted == trace[j].w.hist.accepted + [pc.t])
  {
    EnqueueGoesOn(trace[j].w, c, trace[j].clients[c], ok, 0);
  }

  lemma OwnStep(trace: seq<State>, labels: seq<Label>, c: ThreadId, t: Task, i: nat, j: nat, ok: bool)
    requires i < j < |labels| && j + 1 < |trace| && c in trace[i].clients
    requires c in trace[j].clients && !trace[j].clients[c].pc.Idle? && c in trace[j + 1].clients
    requires labels[j] == ClientStep(c, ok) && Shape(trace[j]) && ClientSteps(trace[j], c, ok, trace[j + 1])
    requires CopiesStand(trace[j]) && StageAt(trace, labels, c, t, i, j)
    ensures StageAt(trace, labels, c, t, i, j + 1)
  {
    var k := trace[j].clients[c];
    OwnStepAccepts(trace, labels, c, j, ok);
    FactsGrow(trace, labels, c, t, i, j);
    StageGoesOn(trace[j].w, c, k, ok, t, k.throws - trace[i].clients[c].throws,
                FactsAt(trace, labels, c, t, i, j), FactsAt(trace, labels, c, t, i, j + 1));
  }

  lemma StageBegins(trace: seq<State>, labels: seq<Label>, ids: set<ThreadId>, producers: set<ThreadId>,
                    c: ThreadId, t: Task, i: nat)
    requires IsRun(trace, labels, ids, producers) && i < |labels| && labels[i] == BeginEnqueue(c, t)
    requires c in trace[i].clients && c in trace[i + 1].clients
    ensures StageAt(trace, labels, c, t, i, i + 1)
  {
    assert StepAt(trace, labels, i);
    assert FactsAt(trace, labels, c, t, i, i + 1) == Facts(false, false, false, false, true, false);
    assert Stage(EnqCheckError(t), 0, t, Facts(false, false, false, false, true, false));
  }

  lemma {:induction false} StageReached(trace: seq<State>, labels: seq<Label>, ids: set<ThreadId>,
                                        producers: set<ThreadId>, c: ThreadId, t: Task, i: nat, j: nat)
    requires IsRun(trace, labels, ids, producers) && CallRuns(trace, labels, c, i, j)
    requires labels[i] == BeginEnqueue(c, t)
    ensures StageAt(trace, labels, c, t, i, j)
    decreases j
  {
    if j == i + 1 {
      StageBegins(trace, labels, ids, producers, c, t, i);
    } else {
      assert CallRuns(trace, labels, c, i, j - 1);
      StageReached(trace, labels, ids, producers, c, t, i, j - 1);
      StageStep(trace, labels, ids, producers, c, t, i, j - 1);
    }
  }

  /** How an Enqueue ends, whatever else runs.  It throws exactly when its first look at the
      status reads ERROR_EXIT; then nothing is accepted from it.  Its task is accepted, once
      and as it was passed, exactly when a later look reads RUN or INIT.  Otherwise the last
      look has read something else - ERROR_EXIT included - and it returns like a call that
      was accepted, with its task dropped. */
  lemma EnqueueEndsExactly(trace: seq<State>, labels: seq<Label>, ids: set<ThreadId>, producers: set<ThreadId>,
                           c: ThreadId, t: Task, i: nat, j: nat)
    requires IsRun(trace, labels, ids, producers) && CallRuns(trace, labels, c, i, j)
    requires labels[i] == BeginEnqueue(c, t) && trace[j].clients[c].pc.Idle?
    ensures LooksAt(trace, labels, c, EnqCheckError(t), AnyStatus(), i, j)
    ensures var error := SeesError(trace, labels, c, t, i, j);
            var open := SeesOpen(trace, labels, c, t, i, j);
            var closed := SeesClosed(trace, labels, c, t, i, j);
            && (error || open || closed) && !(error && open) && !(error && closed) && !(open && closed)
            && trace[j].clients[c].throws == trace[i].clients[c].throws + (if error then 1 else 0)
            && (open ==> AcceptsOnce(trace, labels, c, t, i, j))
            && (!open ==> AcceptsNone(trace, labels, c, i, j))
  {
    StageReached(trace, labels, ids, producers, c, t, i, j);
  }

  // ----- How a flush ends -----

  /** A flush that began when n tasks were accepted, before its look at the status. */
  predicate BeforeLook(pc: ClientPc, n: nat) {
    || ((pc.FlushTest? || pc.FlushTest2? || pc.FlushLock? || pc.FlushSetNeed? || pc.FlushRetest?) && pc.n == n)
    || ((pc.FlushRetest2? || pc.FlushBlocked? || pc.FlushClearNeed? || pc.FlushUnlock?) && pc.n == n)
    || (pc.FlushCheckError? && pc.n == n)
  }

  ghost predicate FlushLooks(trace: seq<State>, labels: seq<Label>, c: ThreadId, n: nat, seen: set<RepoStatus>,
                             i: nat, j: nat) {
    || LooksAt(trace, labels, c, FlushCheckError(n, true), seen, i, j)
    || LooksAt(trace, labels, c, FlushCheckError(n, false), seen, i, j)
  }

  /** What has come of the flush: it has looked, or seen an error, or neither yet. */
  predicate FlushStage(pc: ClientPc, thrown: int, n: nat, looked: bool, error: bool) {
    && thrown == (if error && pc.Idle? then 1 else 0)
    && if BeforeLook(pc, n) then !looked && !error
       else looked && if pc.FlushSuccess? then !error else if InThrow(pc) then error else pc.Idle?
  }

  ghost predicate FlushStageAt(trace: seq<State>, labels: seq<Label>, c: ThreadId, n: nat, i: nat, j: nat)
    requires i < |trace| && j < |trace| && c in trace[i].clients && c in trace[j].clients
  {
    FlushStage(trace[j].clients[c].pc, trace[j].clients[c].throws - trace[i].clients[c].throws, n,
               FlushLooks(trace, labels, c, n, AnyStatus(), i, j), FlushLooks(trace, labels, c, n, {ERROR_EXIT}, i, j))
  }

  /** One step of a client inside a flush. */
  lemma FlushGoesOn(w: World, c: ThreadId, k: Client, ok: bool, n: nat)
    requires RingsOk(w) && MoveClient(w, c, k, ok).ClientMoved?
    ensures var move := MoveClient(w, c, k, ok);
            var pc := move.client.pc;
            && (BeforeLook(k.pc, n) && !k.pc.FlushCheckError? ==> BeforeLook(pc, n))
            && (k.pc.FlushCheckError? ==>
                  pc == if w.mem.status == ERROR_EXIT then ThrowSetStatus else FlushSuccess(k.pc.n, k.pc.sure))
            && (k.pc.FlushSuccess? ==> pc.Idle?)
            && (InThrow(k.pc) ==> if k.pc.ThrowStore? then pc.Idle? else InThrow(pc))
            && move.client.throws == k.throws + (if k.pc.ThrowStore? then 1 else 0)
  {
  }

  lemma FlushLooksGrow(trace: seq<State>, labels: seq<Label>, c: ThreadId, n: nat, seen: set<RepoStatus>,
                       i: nat, j: nat)
    requires i < j < |labels| && j < |trace| && c in trace[j].clients
    ensures FlushLooks(trace, labels, c, n, seen, i, j + 1) <==>
              || FlushLooks(trace, labels, c, n, seen, i, j)
              || (&& labels[j].ClientStep? && labels[j].c == c && trace[j].w.mem.status in seen
                  && trace[j].clients[c].pc.FlushCheckError? && trace[j].clients[c].pc.n == n)
  {
    LooksGrow(trace, labels, c, FlushCheckError(n, true), seen, i, j);
    LooksGrow(trace, labels, c, FlushCheckError(n, false), seen, i, j);
    if trace[j].clients[c].pc.FlushCheckError? {
      assert trace[j].clients[c].pc == FlushCheckError(trace[j].clients[c].pc.n, trace[j].clients[c].pc.sure);
    }
  }

  lemma FlushStageGoesOn(w: World, c: ThreadId, k: Client, ok: bool, n: nat, thrown: int, looked: bool, error: bool)
    requires RingsOk(w) && MoveClient(w, c, k, ok).ClientMoved? && !k.pc.Idle?
    requires FlushStage(k.pc, thrown, n, looked, error)
    ensures var move, looks := MoveClient(w, c, k, ok), k.pc.FlushCheckError? && k.pc.n == n;
            FlushStage(move.client.pc, thrown + move.client.throws - k.throws, n,
                       looked || looks, error || (looks && w.mem.status == ERROR_EXIT))
  {
    FlushGoesOn(w, c, k, ok, n);
  }

  /** What c sees from step j to the next one. */
  lemma FlushSees(trace: seq<State>, labels: seq<Label>, c: ThreadId, n: nat, i: nat, j: nat)
    requires i < j < |labels| && j < |trace| && c in trace[j].clients
    ensures var pc := trace[j].clients[c].pc;
            var looks := labels[j].ClientStep? && labels[j].c == c && pc.FlushCheckError? && pc.n == n;
            && (FlushLooks(trace, labels, c, n, AnyStatus(), i, j + 1) <==>
                  FlushLooks(trace, labels, c, n, AnyStatus(), i, j) || looks)
            && (FlushLooks(trace, labels, c, n, {ERROR_EXIT}, i, j + 1) <==>
                  || FlushLooks(trace, labels, c, n, {ERROR_EXIT}, i, j)
                  || (looks && trace[j].w.mem.status == ERROR_EXIT))
  {
    AnyStatusIsAny(trace[j].w.mem.status);
    FlushLooksGrow(trace, labels, c, n, AnyStatus(), i, j);
    FlushLooksGrow(trace, labels, c, n, {ERROR_EXIT}, i, j);
  }

  lemma FlushStageStep(trace: seq<State>, labels: seq<Label>, c: ThreadId, n: nat, i: nat, j: nat)
    requires i < j < |labels| && j + 1 < |trace| && c in trace[i].clients && c in trace[j].clients
    requires Step(trace[j], labels[j], trace[j + 1]) && c in trace[j + 1].clients
    requires !trace[j].clients[c].pc.Idle? && FlushStageAt(trace, labels, c, n, i, j)
    ensures FlushStageAt(trace, labels, c, n, i, j + 1)
  {
    var k := trace[j].clients[c];
    FlushSees(trace, labels, c, n, i, j);
    if labels[j].ClientStep? && labels[j].c == c {
      FlushStageGoesOn(trace[j].w, c, k, labels[j].ok, n, k.throws - trace[i].clients[c].throws,
                       FlushLooks(trace, labels, c, n, AnyStatus(), i, j),
                       FlushLooks(trace, labels, c, n, {ERROR_EXIT}, i, j));
    } else {
      assert trace[j + 1].clients[c] == k;
    }
  }

  lemma FlushBegins(trace: seq<State>, labels: seq<Label>, c: ThreadId, i: nat)
    requires i < |labels| && i + 1 < |trace| && labels[i] == BeginFlush(c)
    requires Step(trace[i], labels[i], trace[i + 1])
    ensures c in trace[i].clients && c in trace[i + 1].clients
    ensures FlushStageAt(trace, labels, c, |trace[i].w.hist.accepted|, i, i + 1)
  {
  }

  /** How a flush ends, whatever else runs: it looks at the status, once it has found the ring
      empty, and throws exactly when that look reads ERROR_EXIT. */
  lemma {:induction false} FlushEndsExactly(trace: seq<State>, labels: seq<Label>, ids: set<ThreadId>,
                                            producers: set<ThreadId>, c: ThreadId, i: nat, j: nat)
    requires IsRun(trace, labels, ids, producers) && CallRuns(trace, labels, c, i, j)
    requires labels[i] == BeginFlush(c)
    ensures var n := |trace[i].w.hist.accepted|;
            var error := FlushLooks(trace, labels, c, n, {ERROR_EXIT}, i, j);
            && FlushStageAt(trace, labels, c, n, i, j)
            && (trace[j].clients[c].pc.Idle? ==>
                  && FlushLooks(trace, labels, c, n, AnyStatus(), i, j)
                  && trace[j].clients[c].throws == trace[i].clients[c].throws + if error then 1 else 0)
    decreases j
  {
    var n := |trace[i].w.hist.accepted|;
    assert StepAt(trace, labels, j - 1);
    if j == i + 1 {
      FlushBegins(trace, labels, c, i);
    } else {
      assert CallRuns(trace, labels, c, i, j - 1);
      FlushEndsExactly(trace, labels, ids, producers, c, i, j - 1);
      FlushStageStep(trace, labels, c, n, i, j - 1);
    }
  }

  // ----- What an exception discards -----

  /** Step m, client c's last before step k, loaded the write index i for the rewind. */
  ghost predicate LoadedAt(trace: seq<State>, labels: seq<Label>, c: ThreadId, i: nat, m: nat, k: nat) {
    && m < k && At(trace, labels, c, m, ThrowLoad) && trace[m].w.ring.wr == i
    && forall x :: m < x < k && x < |labels| ==> !(labels[x].ClientStep? && labels[x].c == c)
  }

  ghost predicate WasLoaded(trace: seq<State>, labels: seq<Label>, c: ThreadId, i: nat, k: nat) {
    exists m :: LoadedAt(trace, labels, c, i, m, k)
  }

  lemma ComesToStore(w: World, c: ThreadId, k: Client, ok: bool)
    requires RingsOk(w) && MoveClient(w, c, k, ok).ClientMoved?
    ensures var pc := MoveClient(w, c, k, ok).client.pc;
            pc.ThrowStore? ==> k.pc.ThrowLoad? && pc.w == w.ring.wr
  {
  }

  lemma {:induction false} RewindsToItsLoad(trace: seq<State>, labels: seq<Label>, ids: set<ThreadId>,
                                            producers: set<ThreadId>, c: ThreadId, k: nat)
    requires IsRun(trace, labels, ids, producers) && k < |trace|
    requires c in trace[k].clients && trace[k].clients[c].pc.ThrowStore?
    ensures WasLoaded(trace, labels, c, trace[k].clients[c].pc.w, k)
  {
    if k > 0 {
      var j := k - 1;
      var s, i := trace[j], trace[k].clients[c].pc.w;
      assert StepAt(trace, labels, j);
      if labels[j].ClientStep? && labels[j].c == c {
        ComesToStore(s.w, c, s.clients[c], labels[j].ok);
        assert LoadedAt(trace, labels, c, i, j, k);
      } else {
        assert trace[k].clients[c] == s.clients[c];
        RewindsToItsLoad(trace, labels, ids, producers, c, j);
        var m :| LoadedAt(trace, labels, c, i, m, j);
        assert LoadedAt(trace, labels, c, i, m, k);
      }
    }
  }

  /** The exception of either call ends it, is counted, and discards what was pending when it
      loaded the write index - with one client, everything: the ring is empty. */
  lemma ThrowDiscardsPending(trace: seq<State>, labels: seq<Label>, ids: set<ThreadId>, producers: set<ThreadId>,
                             c: ThreadId, k: nat, ok: bool)
    requires IsRun(trace, labels, ids, producers) && k < |labels| && labels[k] == ClientStep(c, ok)
    requires c in trace[k].clients && trace[k].clients[c].pc.ThrowStore?
    ensures c in trace[k + 1].clients && trace[k + 1].clients[c] == Client(Idle, trace[k].clients[c].throws + 1)
    ensures WasLoaded(trace, labels, c, trace[k + 1].w.ring.rd, k)
    ensures AtMostOne(ids) ==> IsEmpty(trace[k + 1].w.ring)
  {
    RewindsToItsLoad(trace, labels, ids, producers, c, k);
    assert StepAt(trace, labels, k);
    assert MoveClient(trace[k].w, c, trace[k].clients[c], ok) == ThrowMove(trace[k].w, trace[k].clients[c]);
    if AtMostOne(ids) {
      LoneConsumerWakeUp(trace, labels, ids, producers, k);
    }
  }
}
