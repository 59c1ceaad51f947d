/** The flags that save notifications, on every run: what a flag says, and that a thread
    notifies only right after a look that found a reason to. */
module TaskQueueSignals {
  import opened Rings
  import opened TaskQueue
  import opened TaskQueueInvariants

  datatype Flag = ReadWorking | WriteWorking | NeedEmpty

  function Value(m: Memory, f: Flag): bool {
    match f
    case ReadWorking => m.readWorking
    case WriteWorking => m.writeWorking
    case NeedEmpty => m.needEmpty
  }

  // ----- Tokens -----

  /** Between two states one counter went from some tokens to none. */
  predicate TookAll(before: nat, after: nat) {
    before > 0 && after == 0
  }

  /** One token more, all of them taken, or no change. */
  predicate OneOrAll(before: nat, after: nat) {
    after == before || after == before + 1 || TookAll(before, after)
  }

  predicate EachOneOrAll(m: Memory, m': Memory) {
    OneOrAll(m.efdRead, m'.efdRead) && OneOrAll(m.efdWrite, m'.efdWrite) && OneOrAll(m.efdEmpty, m'.efdEmpty)
  }

  // ----- What a flag says -----

  /** A call starts writing, or was woken to write again. */
  predicate Enters(pc: ClientPc) {
    pc.EnqSetWorking? || pc.EnqWoken?
  }

  /** A call is over, or has found the ring full. */
  predicate Withdraws(pc: ClientPc) {
    pc.EnqFinish? || pc.EnqClearWorking?
  }

  /** Step k puts the flag up; or takes it down. */
  ghost predicate PutsUp(trace: seq<State>, labels: seq<Label>, k: nat, f: Flag) {
    && k < |labels| && k < |trace|
    && match labels[k]
       case ClientStep(c, _) =>
         && c in trace[k].clients
         && var pc := trace[k].clients[c].pc; (f == WriteWorking && Enters(pc)) || (f == NeedEmpty && pc.FlushSetNeed?)
       case ConsumerStep(_, _) =>
         f == ReadWorking && (trace[k].consumer.ConSetWorking? || trace[k].consumer.ConWoken?)
       case _ => false
  }

  ghost predicate TakesDown(trace: seq<State>, labels: seq<Label>, k: nat, f: Flag) {
    && k < |labels| && k < |trace|
    && match labels[k]
       case ClientStep(c, _) =>
         && c in trace[k].clients
         && var pc := trace[k].clients[c].pc;
            (f == WriteWorking && Withdraws(pc)) || (f == NeedEmpty && pc.FlushClearNeed?)
       case ConsumerStep(_, _) =>
         f == ReadWorking && (trace[k].consumer.ConLeave? || trace[k].consumer.ConClearWorking?)
       case _ => false
  }

  /** What a client's step from pc makes of the flags. */
  predicate ClientSets(m: Memory, pc: ClientPc, m': Memory) {
    && m'.readWorking == m.readWorking
    && m'.writeWorking == (Enters(pc) || (m.writeWorking && !Withdraws(pc)))
    && m'.needEmpty == (pc.FlushSetNeed? || (m.needEmpty && !pc.FlushClearNeed?))
  }

  lemma EnqueueFlags(w: World, c: ThreadId, k: Client, ok: bool)
    requires RingsOk(w) && EnqueueMove(w, c, k, ok).ClientMoved?
    ensures ClientSets(w.mem, k.pc, EnqueueMove(w, c, k, ok).w.mem)
    ensures EachOneOrAll(w.mem, EnqueueMove(w, c, k, ok).w.mem)
  {
  }

  lemma FlushFlags(w: World, c: ThreadId, k: Client, ok: bool)
    requires FlushMove(w, c, k, ok).ClientMoved?
    ensures ClientSets(w.mem, k.pc, FlushMove(w, c, k, ok).w.mem)
    ensures EachOneOrAll(w.mem, FlushMove(w, c, k, ok).w.mem)
  {
  }

  lemma ClientFlags(w: World, c: ThreadId, k: Client, ok: bool)
    requires RingsOk(w) && MoveClient(w, c, k, ok).ClientMoved?
    ensures ClientSets(w.mem, k.pc, MoveClient(w, c, k, ok).w.mem)
    ensures EachOneOrAll(w.mem, MoveClient(w, c, k, ok).w.mem)
  {
    if InFlush(k.pc) {
      FlushFlags(w, c, k, ok);
    } else if !InThrow(k.pc) {
      EnqueueFlags(w, c, k, ok);
    }
  }

  /** What a consumer's step from pc makes of the flags. */
  predicate ConsumerSets(m: Memory, pc: ConsumerPc, m': Memory) {
    && m'.writeWorking == m.writeWorking && m'.needEmpty == m.needEmpty
    && m'.readWorking == (pc.ConSetWorking? || pc.ConWoken? ||
                          (m.readWorking && !pc.ConLeave? && !pc.ConClearWorking?))
  }

  lemma DequeueFlags(w: World, con: ConsumerPc, ok: bool)
    requires DequeueMove(w, con, ok).ConsumerMoved?
    ensures ConsumerSets(w.mem, con, DequeueMove(w, con, ok).w.mem)
    ensures EachOneOrAll(w.mem, DequeueMove(w, con, ok).w.mem)
  {
  }

  lemma ErrorFlags(w: World, con: ConsumerPc, ok: bool)
    requires RingsOk(w) && ErrorMove(w, con, ok).ConsumerMoved?
    ensures ConsumerSets(w.mem, con, ErrorMove(w, con, ok).w.mem)
    ensures EachOneOrAll(w.mem, ErrorMove(w, con, ok).w.mem)
  {
  }

  lemma ConsumerFlags(w: World, con: ConsumerPc, code: int, ok: bool)
    requires RingsOk(w) && MoveConsumer(w, con, code, ok).ConsumerMoved?
    ensures ConsumerSets(w.mem, con, MoveConsumer(w, con, code, ok).w.mem)
    ensures EachOneOrAll(w.mem, MoveConsumer(w, con, code, ok).w.mem)
  {
    if InError(con) {
      ErrorFlags(w, con, ok);
    } else if !InRead(con) {
      DequeueFlags(w, con, ok);
    }
  }

  lemma StepFlags(trace: seq<State>, labels: seq<Label>, k: nat, f: Flag)
    requires k < |labels| && k + 1 < |trace| && Step(trace[k], labels[k], trace[k + 1])
    ensures Value(trace[k + 1].w.mem, f) <==>
              PutsUp(trace, labels, k, f) || (Value(trace[k].w.mem, f) && !TakesDown(trace, labels, k, f))
  {
    var s := trace[k];
    match labels[k]
    case ClientStep(c, ok) => ClientFlags(s.w, c, s.clients[c], ok);
    case ConsumerStep(code, ok) => ConsumerFlags(s.w, s.consumer, code, ok);
    case ReleaserStep => ReleaserFrame(s.w, s.releaser);
    case DestructorStep(ok) => DestructorFrame(s, ok);
    case _ =>
  }

  /** The flag was put up by step m, and nobody has taken it down before step k. */
  ghost predicate UpSince(trace: seq<State>, labels: seq<Label>, f: Flag, m: nat, k: nat) {
    PutsUp(trace, labels, m, f) && forall x :: m < x < k ==> !TakesDown(trace, labels, x, f)
  }

  /** A flag is up exactly when the thread that put it up last is still at it: the consumer
      since it entered Dequeue or was woken, a producer since it began to write or was
      woken, a flush since it asked to be notified.  An interrupted consumer, and one that
      found its ring not empty after all, reads on with its flag down, as does a producer
      that found room; an interrupted flush leaves its request up. */
  lemma {:induction false} FlagUpExactly(trace: seq<State>, labels: seq<Label>, ids: set<ThreadId>,
                                         producers: set<ThreadId>, f: Flag, k: nat)
    requires IsRun(trace, labels, ids, producers) && k < |trace|
    ensures Value(trace[k].w.mem, f) <==> exists m :: 0 <= m < k && UpSince(trace, labels, f, m, k)
  {
    if k > 0 {
      var j := k - 1;
      FlagUpExactly(trace, labels, ids, producers, f, j);
      assert StepAt(trace, labels, j);
      StepFlags(trace, labels, j, f);
      if PutsUp(trace, labels, j, f) {
        assert UpSince(trace, labels, f, j, k);
      } else if Value(trace[k].w.mem, f) {
        var m :| 0 <= m < j && UpSince(trace, labels, f, m, j);
        assert UpSince(trace, labels, f, m, k);
      } else if m :| 0 <= m < k && UpSince(trace, labels, f, m, k) {
        assert m < j && UpSince(trace, labels, f, m, j);
      }
    }
  }

  // ----- Notifications follow looks -----

  /** Step k is one of client c; of the consumer. */
  ghost predicate IsClients(labels: seq<Label>, c: ThreadId, k: nat) {
    k < |labels| && labels[k].ClientStep? && labels[k].c == c
  }

  ghost predicate IsConsumers(labels: seq<Label>, k: nat) {
    k < |labels| && labels[k].ConsumerStep?
  }

  /** The last step of client c before step k was a look at the reader's flag that found it down. */
  ghost predicate FoundReaderIdle(trace: seq<State>, labels: seq<Label>, c: ThreadId, m: nat, k: nat) {
    && m < k && m < |trace| && IsClients(labels, c, m)
    && c in trace[m].clients && trace[m].clients[c].pc.EnqCheckReader?
    && !trace[m].w.mem.readWorking
    && forall x :: m < x < k ==> !IsClients(labels, c, x)
  }

  /** The same for the consumer and the writer's flag. */
  ghost predicate FoundWriterIdle(trace: seq<State>, labels: seq<Label>, m: nat, k: nat) {
    && m < k && m < |trace| && IsConsumers(labels, m)
    && trace[m].consumer.ConCheckWriter? && !trace[m].w.mem.writeWorking
    && forall x :: m < x < k ==> !IsConsumers(labels, x)
  }

  /** The consumer read a request to be notified at step n, found the ring empty at step m,
      and has since then only tried to notify. */
  ghost predicate FoundRequest(trace: seq<State>, labels: seq<Label>, n: nat, m: nat, k: nat) {
    && n < m < k && m < |trace| && IsConsumers(labels, n) && IsConsumers(labels, m)
    && trace[n].consumer.ConNeedRead? && trace[n].w.mem.needEmpty
    && trace[m].consumer.ConNeedTest? && IsEmpty(trace[m].w.ring)
    && (forall x :: n < x < m ==> !IsConsumers(labels, x))
    && forall x :: m < x < k && x < |trace| && IsConsumers(labels, x) ==> trace[x].consumer.ConNotifyEmpty?
  }

  lemma ClientComesToNotify(w: World, c: ThreadId, k: Client, ok: bool)
    requires RingsOk(w) && MoveClient(w, c, k, ok).ClientMoved?
    ensures MoveClient(w, c, k, ok).client.pc.EnqNotify? ==> k.pc.EnqCheckReader? && !w.mem.readWorking
  {
  }

  lemma ConsumerComesToNotify(w: World, con: ConsumerPc, code: int, ok: bool)
    requires RingsOk(w) && MoveConsumer(w, con, code, ok).ConsumerMoved?
    ensures var pc := MoveConsumer(w, con, code, ok).pc;
            && (pc.ConNotifyWrite? ==> con.ConCheckWriter? && !w.mem.writeWorking)
            && (pc.ConNeedTest? ==> con.ConNeedRead? && w.mem.needEmpty)
            && (pc.ConNotifyEmpty? ==> con.ConNotifyEmpty? || (con.ConNeedTest? && IsEmpty(w.ring)))
  {
  }

  /** A producer is about to notify the consumer only if its own last step found the reader's
      flag down: after an interruption it looks again. */
  lemma {:induction false} ReaderNotifiedAfterLook(trace: seq<State>, labels: seq<Label>, ids: set<ThreadId>,
                                                   producers: set<ThreadId>, c: ThreadId, k: nat)
    requires IsRun(trace, labels, ids, producers) && k < |trace|
    requires c in trace[k].clients && trace[k].clients[c].pc.EnqNotify?
    ensures exists m :: FoundReaderIdle(trace, labels, c, m, k)
  {
    if k > 0 {
      var j := k - 1;
      var s := trace[j];
      assert StepAt(trace, labels, j);
      if IsClients(labels, c, j) {
        ClientComesToNotify(s.w, c, s.clients[c], labels[j].ok);
        assert FoundReaderIdle(trace, labels, c, j, k);
      } else {
        assert trace[k].clients[c] == s.clients[c];
        ReaderNotifiedAfterLook(trace, labels, ids, producers, c, j);
        var m :| FoundReaderIdle(trace, labels, c, m, j);
        assert FoundReaderIdle(trace, labels, c, m, k);
      }
    }
  }

  /** The consumer is about to notify the producers only if its own last step found the
      writer's flag down: after an interruption it looks again. */
  lemma {:induction false} WriterNotifiedAfterLook(trace: seq<State>, labels: seq<Label>, ids: set<ThreadId>,
                                                   producers: set<ThreadId>, k: nat)
    requires IsRun(trace, labels, ids, producers) && k < |trace| && trace[k].consumer.ConNotifyWrite?
    ensures exists m :: FoundWriterIdle(trace, labels, m, k)
  {
    if k > 0 {
      var j := k - 1;
      var s := trace[j];
      assert StepAt(trace, labels, j);
      if IsConsumers(labels, j) {
        ConsumerComesToNotify(s.w, s.consumer, labels[j].code, labels[j].ok);
        assert FoundWriterIdle(trace, labels, j, k);
      } else {
        assert trace[k].consumer == s.consumer;
        WriterNotifiedAfterLook(trace, labels, ids, producers, j);
        var m :| FoundWriterIdle(trace, labels, m, j);
        assert FoundWriterIdle(trace, labels, m, k);
      }
    }
  }

  /** The last consumer step before k, at step n, read a request to be notified. */
  ghost predicate ReadRequest(trace: seq<State>, labels: seq<Label>, n: nat, k: nat) {
    && n < k && n < |trace| && IsConsumers(labels, n)
    && trace[n].consumer.ConNeedRead? && trace[n].w.mem.needEmpty
    && forall x :: n < x < k ==> !IsConsumers(labels, x)
  }

  lemma {:induction false} RequestWasRead(trace: seq<State>, labels: seq<Label>, ids: set<ThreadId>,
                                          producers: set<ThreadId>, k: nat)
    requires IsRun(trace, labels, ids, producers) && k < |trace| && trace[k].consumer.ConNeedTest?
    ensures exists n :: ReadRequest(trace, labels, n, k)
  {
    if k > 0 {
      var j := k - 1;
      var s := trace[j];
      assert StepAt(trace, labels, j);
      if IsConsumers(labels, j) {
        ConsumerComesToNotify(s.w, s.consumer, labels[j].code, labels[j].ok);
        assert ReadRequest(trace, labels, j, k);
      } else {
        assert trace[k].consumer == s.consumer;
        RequestWasRead(trace, labels, ids, producers, j);
        var n :| ReadRequest(trace, labels, n, j);
        assert ReadRequest(trace, labels, n, k);
      }
    }
  }

  /** The consumer is about to notify a flush only if it has read a request and then found
      the ring empty; interrupted, it tries again without another look. */
  lemma {:induction false} FlushNotifiedAfterLook(trace: seq<State>, labels: seq<Label>, ids: set<ThreadId>,
                                                  producers: set<ThreadId>, k: nat)
    requires IsRun(trace, labels, ids, producers) && k < |trace| && trace[k].consumer.ConNotifyEmpty?
    ensures exists n, m :: FoundRequest(trace, labels, n, m, k)
  {
    if k > 0 {
      var j := k - 1;
      var s := trace[j];
      assert StepAt(trace, labels, j);
      if IsConsumers(labels, j) {
        ConsumerComesToNotify(s.w, s.consumer, labels[j].code, labels[j].ok);
      }
      if IsConsumers(labels, j) && s.consumer.ConNeedTest? {
        RequestWasRead(trace, labels, ids, producers, j);
        var n :| ReadRequest(trace, labels, n, j);
        assert FoundRequest(trace, labels, n, j, k);
      } else {
        assert s.consumer.ConNotifyEmpty?;
        FlushNotifiedAfterLook(trace, labels, ids, producers, j);
        var n, m :| FoundRequest(trace, labels, n, m, j);
        assert FoundRequest(trace, labels, n, m, k);
      }
    }
  }

  // ----- Waking takes every token -----

  /** The last step of client c before step k was step m, from position pc. */
  ghost predicate LastFrom(trace: seq<State>, labels: seq<Label>, c: ThreadId, pc: ClientPc, m: nat, k: nat) {
    && m < k && m + 1 < |trace| && IsClients(labels, c, m)
    && c in trace[m].clients && trace[m].clients[c].pc == pc
    && forall x :: m < x < k ==> !IsClients(labels, c, x)
  }

  /** Every step writes one token at most, and takes all or none. */
  lemma TokensOneOrAll(s: State, l: Label, s': State)
    requires Step(s, l, s')
    ensures EachOneOrAll(s.w.mem, s'.w.mem)
  {
    match l
    case ClientStep(c, ok) => ClientFlags(s.w, c, s.clients[c], ok);
    case ConsumerStep(code, ok) => ConsumerFlags(s.w, s.consumer, code, ok);
    case ReleaserStep => ReleaserFrame(s.w, s.releaser);
    case DestructorStep(ok) => DestructorFrame(s, ok);
    case _ =>
  }

  lemma ClientWakes(w: World, c: ThreadId, k: Client, ok: bool)
    requires RingsOk(w) && MoveClient(w, c, k, ok).ClientMoved?
    ensures var w', pc := MoveClient(w, c, k, ok).w, MoveClient(w, c, k, ok).client.pc;
            && (pc.EnqWoken? ==> k.pc == EnqBlocked(pc.t) && TookAll(w.mem.efdWrite, w'.mem.efdWrite))
            && (pc.FlushClearNeed? ==>
                  || (k.pc == FlushBlocked(pc.n) && TookAll(w.mem.efdEmpty, w'.mem.efdEmpty))
                  || (k.pc.FlushRetest2? && SameIndex(w.ring, k.pc.first)))
  {
  }

  /** Step m, the last of client c before step k, was a wait for room that took every token. */
  ghost predicate ProducerTook(trace: seq<State>, labels: seq<Label>, c: ThreadId, t: Task, m: nat, k: nat) {
    && LastFrom(trace, labels, c, EnqBlocked(t), m, k)
    && TookAll(trace[m].w.mem.efdWrite, trace[m + 1].w.mem.efdWrite)
  }

  /** A producer takes itself for woken only after a wait that took every token. */
  lemma {:induction false} WokenProducerTookTokens(trace: seq<State>, labels: seq<Label>, ids: set<ThreadId>,
                                                   producers: set<ThreadId>, c: ThreadId, k: nat)
    requires IsRun(trace, labels, ids, producers) && k < |trace|
    requires c in trace[k].clients && trace[k].clients[c].pc.EnqWoken?
    ensures exists m :: ProducerTook(trace, labels, c, trace[k].clients[c].pc.t, m, k)
  {
    if k > 0 {
      var j := k - 1;
      var s, pc := trace[j], trace[k].clients[c].pc;
      assert StepAt(trace, labels, j);
      if IsClients(labels, c, j) {
        ClientWakes(s.w, c, s.clients[c], labels[j].ok);
        assert ProducerTook(trace, labels, c, pc.t, j, k);
      } else {
        assert trace[k].clients[c] == s.clients[c];
        WokenProducerTookTokens(trace, labels, ids, producers, c, j);
        var m :| ProducerTook(trace, labels, c, pc.t, m, j);
        assert ProducerTook(trace, labels, c, pc.t, m, k);
      }
    }
  }

  /** What ended the wait of a flush. */
  ghost predicate WaitEnded(trace: seq<State>, labels: seq<Label>, c: ThreadId, n: nat, m: nat, k: nat) {
    && m < k && m + 1 < |trace| && c in trace[m].clients
    && var pc := trace[m].clients[c].pc;
       && LastFrom(trace, labels, c, pc, m, k)
       && (|| (pc == FlushBlocked(n) && TookAll(trace[m].w.mem.efdEmpty, trace[m + 1].w.mem.efdEmpty))
           || (pc.FlushRetest2? && SameIndex(trace[m].w.ring, pc.first)))
  }

  /** A flush takes back its request only after a wait that took every token, or because it
      found the ring empty before it waited. */
  lemma {:induction false} WithdrawnRequestWasMet(trace: seq<State>, labels: seq<Label>, ids: set<ThreadId>,
                                                  producers: set<ThreadId>, c: ThreadId, k: nat)
    requires IsRun(trace, labels, ids, producers) && k < |trace|
    requires c in trace[k].clients && trace[k].clients[c].pc.FlushClearNeed?
    ensures exists m :: WaitEnded(trace, labels, c, trace[k].clients[c].pc.n, m, k)
  {
    if k > 0 {
      var j := k - 1;
      var s, n := trace[j], trace[k].clients[c].pc.n;
      assert StepAt(trace, labels, j);
      if IsClients(labels, c, j) {
        ClientWakes(s.w, c, s.clients[c], labels[j].ok);
        assert WaitEnded(trace, labels, c, n, j, k);
      } else {
        assert trace[k].clients[c] == s.clients[c];
        WithdrawnRequestWasMet(trace, labels, ids, producers, c, j);
        var m :| WaitEnded(trace, labels, c, n, m, j);
        assert WaitEnded(trace, labels, c, n, m, k);
      }
    }
  }

  /** Step m, the consumer's last before step k, was a wait that took every token. */
  ghost predicate ConsumerTook(trace: seq<State>, labels: seq<Label>, m: nat, k: nat) {
    && m < k && m + 1 < |trace| && IsConsumers(labels, m)
    && trace[m].consumer.ConBlocked? && TookAll(trace[m].w.mem.efdRead, trace[m + 1].w.mem.efdRead)
    && forall x :: m < x < k ==> !IsConsumers(labels, x)
  }

  lemma ConsumerWakes(w: World, con: ConsumerPc, code: int, ok: bool)
    requires RingsOk(w) && MoveConsumer(w, con, code, ok).ConsumerMoved?
    ensures MoveConsumer(w, con, code, ok).pc.ConWoken? ==>
              con.ConBlocked? && TookAll(w.mem.efdRead, MoveConsumer(w, con, code, ok).w.mem.efdRead)
  {
  }

  /** The consumer takes itself for woken only after a wait that took every token. */
  lemma {:induction false} WokenConsumerTookTokens(trace: seq<State>, labels: seq<Label>, ids: set<ThreadId>,
                                                   producers: set<ThreadId>, k: nat)
    requires IsRun(trace, labels, ids, producers) && k < |trace| && trace[k].consumer.ConWoken?
    ensures exists m :: ConsumerTook(trace, labels, m, k)
  {
    if k > 0 {
      var j := k - 1;
      var s := trace[j];
      assert StepAt(trace, labels, j);
      if IsConsumers(labels, j) {
        ConsumerWakes(s.w, s.consumer, labels[j].code, labels[j].ok);
        assert ConsumerTook(trace, labels, j, k);
      } else {
        assert trace[k].consumer == s.consumer;
        WokenConsumerTookTokens(trace, labels, ids, producers, j);
        var m :| ConsumerTook(trace, labels, m, j);
        assert ConsumerTook(trace, labels, m, k);
      }
    }
  }

  // ----- When Dequeue ends -----

  /** A step that ends Dequeue: a task has been read and the producers need no notification or
      have got one; or CAN_EXIT is read at the loop's test; or the answer to NEED_EXIT is
      given; or ERROR_EXIT is read after an answer "empty" or a failure. */
  predicate EndsDequeue(m: Memory, pc: ConsumerPc, ok: bool) {
    match pc
    case ConCheckWriter => m.writeWorking
    case ConNotifyWrite => ok
    case ConWhile => m.status == CAN_EXIT
    case ConSwapStatus => true
    case ConCheckError => m.status == ERROR_EXIT
    case _ => false
  }

  /** Dequeue ends at these steps and no others: an interrupted wait goes on inside it. */
  lemma DequeueEndsExactly(trace: seq<State>, labels: seq<Label>, ids: set<ThreadId>, producers: set<ThreadId>,
                           k: nat, code: int, ok: bool)
    requires IsRun(trace, labels, ids, producers) && k < |labels| && labels[k] == ConsumerStep(code, ok)
    ensures trace[k + 1].consumer.ConLeave? <==> EndsDequeue(trace[k].w.mem, trace[k].consumer, ok)
    ensures trace[k].consumer.ConBlocked? ==>
              trace[k + 1].consumer == if ok then ConWoken else ConWhile
  {
    assert StepAt(trace, labels, k);
    LeavesWhen(trace[k].w, trace[k].consumer, code, ok);
  }

  lemma LeavesWhen(w: World, con: ConsumerPc, code: int, ok: bool)
    requires RingsOk(w) && MoveConsumer(w, con, code, ok).ConsumerMoved?
    ensures MoveConsumer(w, con, code, ok).pc.ConLeave? <==> EndsDequeue(w.mem, con, ok)
  {
  }
}
