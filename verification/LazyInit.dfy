/** Deferred initialisation: calls made before initialisation are queued and run, in
    order, when it happens; the calls may queue more calls. */
module LazyInit {

  /** A queued call: what it logs when it runs, the calls it defers in turn (it may
      also re-enter _lazy_init, which returns at once), and whether it then raises. */
  datatype Call = Call(id: nat, defers: seq<Call>, raises: bool)

  function Ids(calls: seq<Call>): seq<nat> {
    seq(|calls|, i requires 0 <= i < |calls| => calls[i].id)
  }

  /** The number of calls in a forest of calls, nested ones included. */
  function Size(calls: seq<Call>): nat
    decreases calls
  {
    if calls == [] then 0 else 1 + Size(calls[0].defers) + Size(calls[1..])
  }

  /** All calls of a forest, nested ones included. */
  ghost function AllIds(calls: seq<Call>): multiset<nat>
    decreases calls
  {
    if calls == [] then multiset{} else multiset{calls[0].id} + AllIds(calls[0].defers) + AllIds(calls[1..])
  }

  /** Some call of the forest raises. */
  predicate AnyRaises(calls: seq<Call>)
    decreases calls
  {
    calls != [] && (calls[0].raises || AnyRaises(calls[0].defers) || AnyRaises(calls[1..]))
  }

  lemma {:induction false} SizeConcat(a: seq<Call>, b: seq<Call>)
    ensures Size(a + b) == Size(a) + Size(b)
    decreases a
  {
    if a == [] {
      assert a + b == b;
    } else {
      assert (a + b)[1..] == a[1..] + b;
      SizeConcat(a[1..], b);
    }
  }

  lemma {:induction false} AllIdsConcat(a: seq<Call>, b: seq<Call>)
    ensures AllIds(a + b) == AllIds(a) + AllIds(b)
    decreases a
  {
    if a == [] {
      assert a + b == b;
    } else {
      assert (a + b)[1..] == a[1..] + b;
      AllIdsConcat(a[1..], b);
    }
  }

  lemma {:induction false} AnyRaisesConcat(a: seq<Call>, b: seq<Call>)
    ensures AnyRaises(a + b) <==> AnyRaises(a) || AnyRaises(b)
    decreases a
  {
    if a == [] {
      assert a + b == b;
    } else {
      assert (a + b)[1..] == a[1..] + b;
      AnyRaisesConcat(a[1..], b);
    }
  }

  // ----- Calls made after initialisation -----

  /** The ids of the calls started, in order, and whether one of them raised. */
  datatype Ran = Ran(ids: seq<nat>, raised: bool) {
    function After(log: seq<nat>): Ran {
      Ran(log + ids, raised)
    }
  }

  /** Calls made one after the other once everything is initialised: each runs at once,
      and so do, inside it, the calls it makes; an exception ends them all. */
  function RunNow(calls: seq<Call>): Ran
    decreases calls
  {
    if calls == [] then Ran([], false)
    else
      var inner := RunNow(calls[0].defers);
      var first := [calls[0].id] + inner.ids;
      if inner.raised || calls[0].raises then Ran(first, true) else RunNow(calls[1..]).After(first)
  }

  lemma RunNowSplits(calls: seq<Call>)
    requires calls != []
    ensures var first := RunNow([calls[0]]);
            RunNow(calls) == if first.raised then first else RunNow(calls[1..]).After(first.ids)
  {
    assert [calls[0]][1..] == [];
    assert RunNow([calls[0]][1..]) == Ran([], false);
    var inner := RunNow(calls[0].defers);
    assert [calls[0].id] + inner.ids + [] == [calls[0].id] + inner.ids;
  }

  /** Calls made after initialisation succeed exactly when none of them raises, nested
      ones included, and then each has run exactly once. */
  lemma {:induction false} RunNowRunsEverythingOnce(calls: seq<Call>)
    ensures RunNow(calls).raised <==> AnyRaises(calls)
    ensures !RunNow(calls).raised ==> multiset(RunNow(calls).ids) == AllIds(calls)
    decreases calls
  {
    if calls != [] {
      RunNowRunsEverythingOnce(calls[0].defers);
      RunNowRunsEverythingOnce(calls[1..]);
    }
  }

  /** The ids of a forest, each call before the calls nested in it, those before the next. */
  function Preorder(calls: seq<Call>): (ids: seq<nat>)
    ensures |ids| == Size(calls)
    decreases calls
  {
    if calls == [] then [] else [calls[0].id] + Preorder(calls[0].defers) + Preorder(calls[1..])
  }

  /** Some call that raises is, with everything nested in it, among the first n calls. */
  predicate RaisesWithin(calls: seq<Call>, n: nat)
    decreases calls
  {
    && calls != [] && n > 0
    && var inside := Size(calls[0].defers);
       || (calls[0].raises && inside < n)
       || RaisesWithin(calls[0].defers, n - 1)
       || (inside < n && RaisesWithin(calls[1..], n - 1 - inside))
  }

  lemma {:induction false} RaisesWithinSize(calls: seq<Call>, n: nat)
    ensures Size(calls) <= n ==> (RaisesWithin(calls, n) <==> AnyRaises(calls))
    ensures RaisesWithin(calls, n) ==> AnyRaises(calls)
    decreases calls
  {
    if calls != [] && n > 0 {
      var inside := Size(calls[0].defers);
      RaisesWithinSize(calls[0].defers, n - 1);
      if inside < n {
        RaisesWithinSize(calls[1..], n - 1 - inside);
      }
    }
  }

  lemma {:induction false} RunNowIsPrefix(calls: seq<Call>)
    ensures var r := RunNow(calls); r.ids <= Preorder(calls) && (!r.raised ==> r.ids == Preorder(calls))
    decreases calls
  {
    if calls != [] {
      var c, r := calls[0], RunNow(calls);
      RunNowIsPrefix(c.defers);
      assert Preorder(calls) == [c.id] + Preorder(c.defers) + Preorder(calls[1..]);
      assert [c.id] + RunNow(c.defers).ids <= Preorder(calls);
      if !RunNow(c.defers).raised && !c.raises {
        RunNowIsPrefix(calls[1..]);
        assert r.ids == [c.id] + Preorder(c.defers) + RunNow(calls[1..]).ids;
      }
    }
  }

  lemma RaisesWithinFirst(calls: seq<Call>, n: nat)
    requires calls != [] && n > 0 && !AnyRaises(calls[0].defers)
    ensures var inside := Size(calls[0].defers);
            RaisesWithin(calls, n) <==> inside < n && (calls[0].raises || RaisesWithin(calls[1..], n - 1 - inside))
  {
    RaisesWithinSize(calls[0].defers, n - 1);
  }

  /** So many calls are started, and no fewer would do. */
  ghost predicate StopsAt(calls: seq<Call>, count: nat, raised: bool) {
    && (raised ==> RaisesWithin(calls, count))
    && forall n: nat :: n < count ==> !RaisesWithin(calls, n)
  }

  lemma StopsInside(calls: seq<Call>, count: nat)
    requires calls != [] && count <= Size(calls[0].defers) && StopsAt(calls[0].defers, count, true)
    ensures StopsAt(calls, 1 + count, true)
  {
    forall n: nat | 0 < n < 1 + count ensures !RaisesWithin(calls, n) {
      assert !RaisesWithin(calls[0].defers, n - 1);
    }
  }

  lemma StopsBehind(calls: seq<Call>, count: nat, raised: bool)
    requires calls != [] && !AnyRaises(calls[0].defers)
    requires if calls[0].raises then count == 0 && raised else StopsAt(calls[1..], count, raised)
    ensures StopsAt(calls, 1 + Size(calls[0].defers) + count, raised)
  {
    var inside := Size(calls[0].defers);
    RaisesWithinFirst(calls, 1 + inside + count);
    forall n: nat | 0 < n < 1 + inside + count ensures !RaisesWithin(calls, n) {
      RaisesWithinFirst(calls, n);
      if inside < n {
        assert !RaisesWithin(calls[1..], n - 1 - inside);
      }
    }
  }

  lemma {:induction false} RunNowStopsAt(calls: seq<Call>)
    ensures StopsAt(calls, |RunNow(calls).ids|, RunNow(calls).raised)
    decreases calls
  {
    if calls != [] {
      var c, inner := calls[0], RunNow(calls[0].defers);
      RunNowStopsAt(c.defers);
      RunNowIsPrefix(c.defers);
      RunNowRunsEverythingOnce(c.defers);
      if inner.raised {
        StopsInside(calls, |inner.ids|);
      } else {
        RunNowStopsAt(calls[1..]);
        var rest := if c.raises then 0 else |RunNow(calls[1..]).ids|;
        StopsBehind(calls, rest, c.raises || RunNow(calls[1..]).raised);
        assert |RunNow(calls).ids| == 1 + Size(c.defers) + rest;
      }
    }
  }

  /** The calls started are the first ones of the forest, each before those nested in it:
      all of them when none raises, otherwise as many as it takes until one that raises
      has been gone through with everything nested in it. */
  lemma RunNowStopsExactly(calls: seq<Call>)
    ensures var r := RunNow(calls);
            && r.ids <= Preorder(calls)
            && (!r.raised ==> r.ids == Preorder(calls))
            && (r.raised ==> RaisesWithin(calls, |r.ids|))
            && forall n: nat :: n < |r.ids| ==> !RaisesWithin(calls, n)
  {
    RunNowIsPrefix(calls);
    RunNowStopsAt(calls);
  }

  // ----- Draining the queue -----

  /** What draining leaves: the whole queue as it has grown, how many of its calls were
      started, and whether the last one started raised. */
  datatype Drained = Drained(queue: seq<Call>, started: nat, raised: bool)

  /** The drain from position i of a queue that grows while it is iterated. */
  function Drain(queue: seq<Call>, i: nat): (d: Drained)
    requires i <= |queue|
    ensures queue <= d.queue && i <= d.started <= |d.queue|
    decreases Size(queue[i..])
  {
    if i == |queue| then Drained(queue, i, false)
    else
      var grown := queue + queue[i].defers;
      DrainShrinks(queue, i);
      if queue[i].raises then Drained(grown, i + 1, true) else Drain(grown, i + 1)
  }

  lemma DrainShrinks(queue: seq<Call>, i: nat)
    requires i < |queue|
    ensures Size((queue + queue[i].defers)[i + 1..]) < Size(queue[i..])
  {
    var rest := queue[i..];
    assert (queue + queue[i].defers)[i + 1..] == rest[1..] + queue[i].defers;
    SizeConcat(rest[1..], queue[i].defers);
  }

  /** A drain succeeds exactly when no call, queued or nested, raises; then it has run
      every call exactly once, in the order of the queue, which is the original queue
      followed by what was deferred during the drain. */
  lemma DrainRunsEverythingOnce(queue: seq<Call>, i: nat)
    requires i <= |queue|
    ensures var d := Drain(queue, i);
            && (d.raised <==> AnyRaises(queue[i..]))
            && (!d.raised ==> d.started == |d.queue| && multiset(Ids(d.queue[i..])) == AllIds(queue[i..]))
  {
    DrainRaisesExactly(queue, i);
    if !Drain(queue, i).raised {
      DrainRunsAll(queue, i);
    }
  }

  lemma {:induction false} DrainRaisesExactly(queue: seq<Call>, i: nat)
    requires i <= |queue|
    ensures Drain(queue, i).raised <==> AnyRaises(queue[i..])
    decreases Size(queue[i..])
  {
    if i < |queue| {
      var rest := queue[i..];
      var grown := queue + queue[i].defers;
      DrainShrinks(queue, i);
      assert grown[i + 1..] == rest[1..] + queue[i].defers;
      AnyRaisesConcat(rest[1..], queue[i].defers);
      if !queue[i].raises {
        DrainRaisesExactly(grown, i + 1);
      }
    }
  }

  /** A drain that fails has just started a call that raises, the first one that does. */
  lemma {:induction false} LastStartedRaises(queue: seq<Call>, i: nat)
    requires i <= |queue| && Drain(queue, i).raised
    ensures var d := Drain(queue, i);
            && i < d.started
            && d.queue[d.started - 1].raises
            && forall k :: i <= k < d.started - 1 ==> !d.queue[k].raises
    decreases Size(queue[i..])
  {
    if i < |queue| && !queue[i].raises {
      DrainShrinks(queue, i);
      LastStartedRaises(queue + queue[i].defers, i + 1);
    }
  }

  lemma IdsFrom(queue: seq<Call>, i: nat)
    requires i < |queue|
    ensures multiset(Ids(queue[i..])) == multiset{queue[i].id} + multiset(Ids(queue[i + 1..]))
  {
    assert Ids(queue[i..]) == [queue[i].id] + Ids(queue[i + 1..]);
  }

  lemma IdsUpTo(queue: seq<Call>, longer: seq<Call>, i: nat)
    requires i < |queue| && queue <= longer
    ensures Ids(longer[..i + 1]) == Ids(queue[..i]) + [queue[i].id]
  {
  }

  lemma AllIdsAfterFirst(queue: seq<Call>, i: nat)
    requires i < |queue|
    ensures AllIds(queue[i..]) == multiset{queue[i].id} + AllIds((queue + queue[i].defers)[i + 1..])
  {
    var rest := queue[i..];
    assert (queue + queue[i].defers)[i + 1..] == rest[1..] + queue[i].defers;
    AllIdsConcat(rest[1..], queue[i].defers);
  }

  lemma {:induction false} DrainRunsAll(queue: seq<Call>, i: nat)
    requires i <= |queue| && !Drain(queue, i).raised
    ensures var d := Drain(queue, i);
            d.started == |d.queue| && multiset(Ids(d.queue[i..])) == AllIds(queue[i..])
    decreases Size(queue[i..])
  {
    if i < |queue| {
      DrainShrinks(queue, i);
      DrainRunsAll(queue + queue[i].defers, i + 1);
      AllIdsAfterFirst(queue, i);
      IdsFrom(Drain(queue, i).queue, i);
    }
  }

  /** A call deferred by the call at position i runs after it, once the drain succeeds:
      every deferred call of d.queue[i] appears in the queue behind position i. */
  lemma {:induction false} DeferredRunLater(queue: seq<Call>, i: nat, k: nat, c: Call)
    requires i <= |queue| && !Drain(queue, i).raised
    requires i <= k < |Drain(queue, i).queue| && c in Drain(queue, i).queue[k].defers
    ensures exists m :: k < m < |Drain(queue, i).queue| && Drain(queue, i).queue[m] == c
    decreases Size(queue[i..])
  {
    DrainRunsEverythingOnce(queue, i);
    if i < |queue| {
      var grown := queue + queue[i].defers;
      DrainShrinks(queue, i);
      DrainRunsEverythingOnce(grown, i + 1);
      var d := Drain(queue, i);
      if k == i {
        var n :| 0 <= n < |queue[i].defers| && queue[i].defers[n] == c;
        assert grown[|queue| + n] == c;
        assert d.queue[|queue| + n] == c;
      } else {
        DeferredRunLater(grown, i + 1, k, c);
      }
    }
  }

  // ----- The module state of one process with one thread -----

  /** log records every call that has been started, in order. */
  class NpuState {
    var initialized: bool
    var initializing: bool
    var queuedCalls: seq<Call>
    var log: seq<nat>

    constructor ()
      ensures !initialized && !initializing && queuedCalls == [] && log == []
    {
      initialized, initializing, queuedCalls, log := false, false, [], [];
    }

    /** Runs a call now: it defers its own calls through LazyCall. */
    method Invoke(c: Call) returns (raised: bool)
      modifies this
      ensures initialized == old(initialized) && initializing == old(initializing)
      ensures !initialized ==>
                queuedCalls == old(queuedCalls) + c.defers && log == old(log) + [c.id] && raised == c.raises
      ensures initialized ==>
                queuedCalls == old(queuedCalls) && Ran(log, raised) == RunNow([c]).After(old(log))
      decreases c, 1
    {
      log := log + [c.id];
      raised := RunDefers(c.defers);
      if !raised {
        raised := c.raises;
      }
      assert [c][1..] == [];
    }

    method RunDefers(calls: seq<Call>) returns (raised: bool)
      modifies this
      ensures initialized == old(initialized) && initializing == old(initializing)
      ensures !initialized ==> queuedCalls == old(queuedCalls) + calls && log == old(log) && !raised
      ensures initialized ==>
                queuedCalls == old(queuedCalls) && Ran(log, raised) == RunNow(calls).After(old(log))
      decreases calls, 0
    {
      if calls == [] {
        return false;
      }
      raised := LazyCall(calls[0]);
      RunNowSplits(calls);
      if !raised {
        raised := RunDefers(calls[1..]);
      }
    }

    /** Runs the call at once after initialisation, queues it before. */
    method LazyCall(c: Call) returns (raised: bool)
      modifies this
      ensures initialized == old(initialized) && initializing == old(initializing)
      ensures !initialized ==> queuedCalls == old(queuedCalls) + [c] && log == old(log) && !raised
      ensures initialized ==>
                queuedCalls == old(queuedCalls) && Ran(log, raised) == RunNow([c]).After(old(log))
      decreases c, 2
    {
      if initialized {
        raised := Invoke(c);
      } else {
        queuedCalls := queuedCalls + [c];
        raised := false;
      }
    }

    /** initRaises: the driver's own initialisation fails.  Does nothing when already
        initialised or re-entered. */
    method LazyInit(badFork: bool, initRaises: bool) returns (raised: bool)
      modifies this
      ensures initializing == old(initializing)
      ensures old(initialized || initializing) ==> !raised && initialized == old(initialized)
      ensures !old(initialized || initializing) && (badFork || initRaises) ==> raised && !initialized
      ensures old(initialized || initializing) || badFork || initRaises ==>
                log == old(log) && queuedCalls == old(queuedCalls)
      ensures !old(initialized || initializing) && !badFork && !initRaises ==>
                var d := old(Drain(queuedCalls, 0));
                && raised == d.raised && initialized == !raised
                && queuedCalls == d.queue
                && log == old(log) + Ids(d.queue[..d.started])
    {
      if initialized || initializing {
        return false;
      }
      if badFork || initRaises {
        return true;
      }
      initializing := true;
      raised := false;
      var i := 0;
      ghost var log0, all := log, Drain(queuedCalls, 0);
      while i < |queuedCalls| && !raised
        invariant !initialized && initializing
        invariant i <= |queuedCalls|
        invariant log == log0 + Ids(queuedCalls[..i])
        invariant all == if raised then Drained(queuedCalls, i, true) else Drain(queuedCalls, i)
        decreases !raised, if raised then 0 else Size(queuedCalls[i..])
      {
        DrainShrinks(queuedCalls, i);
        ghost var queue := queuedCalls;
        raised := Invoke(queuedCalls[i]);
        IdsUpTo(queue, queuedCalls, i);
        i := i + 1;
      }
      initializing := false;
      if !raised {
        initialized := true;
      }
    }
  }

  /** The calls started decide the outcome: a queue that agrees on them fails at the same call. */
  lemma {:induction false} SameCallsSameFailure(queue: seq<Call>, i: nat, other: seq<Call>)
    requires i <= |queue| && Drain(queue, i).raised
    requires Drain(queue, i).started <= |other| && i <= |other|
    requires forall j :: i <= j < Drain(queue, i).started ==>
               j < |Drain(queue, i).queue| && other[j] == Drain(queue, i).queue[j]
    ensures Drain(other, i).raised && Drain(other, i).started == Drain(queue, i).started
    decreases Size(queue[i..])
  {
    DrainRunsEverythingOnce(queue, i);
    if i < |queue| {
      var grown := queue + queue[i].defers;
      DrainShrinks(queue, i);
      StartedIsAhead(queue, i);
      DrainShrinks(other, i);
      assert other[i] == queue[i];
      if !queue[i].raises {
        SameCallsSameFailure(grown, i + 1, other + other[i].defers);
      }
    }
  }

  lemma StartedIsAhead(queue: seq<Call>, i: nat)
    requires i < |queue|
    ensures Drain(queue, i).started > i && queue <= Drain(queue, i).queue
  {
    DrainShrinks(queue, i);
    if !queue[i].raises {
      DrainRunsEverythingOnce(queue + queue[i].defers, i + 1);
    }
  }

  /** After a failed attempt the queue keeps every call, so the next attempt starts again
      from the first one: whatever ran before the failure runs a second time, and it
      fails again at the same call. */
  lemma RetryRunsTheSameCallsAgain(queue: seq<Call>)
    requires Drain(queue, 0).raised
    ensures var first := Drain(queue, 0);
            var again := Drain(first.queue, 0);
            && again.raised && again.started == first.started <= |first.queue|
            && first.queue <= again.queue
  {
    DrainRunsEverythingOnce(queue, 0);
    SameCallsSameFailure(queue, 0, Drain(queue, 0).queue);
    DrainRunsEverythingOnce(Drain(queue, 0).queue, 0);
  }

  // ----- A retry after the cause of the failure has gone -----

  /** The same calls, with the same deferrals, none of which raises any more. */
  function Recovered(calls: seq<Call>): (r: seq<Call>)
    ensures |r| == |calls|
    decreases calls
  {
    if calls == [] then []
    else [Call(calls[0].id, Recovered(calls[0].defers), false)] + Recovered(calls[1..])
  }

  /** Everything the calls defer, in order. */
  function Deferred(calls: seq<Call>): seq<Call> {
    if calls == [] then [] else calls[0].defers + Deferred(calls[1..])
  }

  lemma {:induction false} RecoveredKeepsIds(calls: seq<Call>)
    ensures AllIds(Recovered(calls)) == AllIds(calls) && !AnyRaises(Recovered(calls))
    decreases calls
  {
    if calls != [] {
      RecoveredKeepsIds(calls[0].defers);
      RecoveredKeepsIds(calls[1..]);
      var r := Recovered(calls);
      assert r[0].defers == Recovered(calls[0].defers) && r[1..] == Recovered(calls[1..]);
    }
  }

  /** The queue has grown by what the calls started have deferred, the failing one included. */
  lemma {:induction false} DrainAddsDeferred(queue: seq<Call>, i: nat)
    requires i <= |queue|
    ensures var d := Drain(queue, i); d.queue == queue + Deferred(d.queue[i..d.started])
    decreases Size(queue[i..])
  {
    if i < |queue| {
      var d := Drain(queue, i);
      var grown := queue + queue[i].defers;
      DrainShrinks(queue, i);
      StartedIsAhead(queue, i);
      assert d.queue[i..d.started][0] == queue[i];
      assert d.queue[i..d.started][1..] == d.queue[i + 1..d.started];
      if queue[i].raises {
        assert Deferred(d.queue[i + 1..d.started]) == [];
      } else {
        DrainAddsDeferred(grown, i + 1);
      }
    }
  }

  /** A failure that has gone away by the next attempt: the retry succeeds and runs the
      whole queue, that is every call of the original queue once, and once more whatever
      the calls of the first attempt had deferred. */
  lemma RetryRunsDeferredCallsTwice(queue: seq<Call>)
    requires Drain(queue, 0).raised
    ensures var first := Drain(queue, 0);
            var retry := Drain(Recovered(first.queue), 0);
            && !retry.raised && retry.started == |retry.queue|
            && multiset(Ids(retry.queue)) == AllIds(queue) + AllIds(Deferred(first.queue[..first.started]))
  {
    var first := Drain(queue, 0);
    var again := Recovered(first.queue);
    RecoveredKeepsIds(first.queue);
    assert again[0..] == again;
    DrainRunsEverythingOnce(again, 0);
    DrainAddsDeferred(queue, 0);
    AllIdsConcat(queue, Deferred(first.queue[..first.started]));
    var retry := Drain(again, 0);
    assert retry.queue[0..] == retry.queue;
  }

  /** A call that defers one other and then raises, once: the other one runs twice. */
  lemma OneFailureOneDuplicate()
    ensures var other := Call(2, [], false);
            var queue := [Call(1, [other], true)];
            && Drain(queue, 0).raised
            && multiset(Ids(Drain(Recovered(Drain(queue, 0).queue), 0).queue)) == multiset{1, 2, 2}
  {
    var other := Call(2, [], false);
    var queue := [Call(1, [other], true)];
    var first := Drain(queue, 0);
    assert first == Drained(queue + [other], 1, true);
    RetryRunsDeferredCallsTwice(queue);
    assert first.queue[..1] == queue && queue[1..] == [] && [other][1..] == [];
    assert Deferred(queue) == [other] + Deferred([]);
    assert AllIds([other]) == multiset{2} + AllIds([]) + AllIds([]);
    assert AllIds(queue) == multiset{1} + AllIds([other]) + AllIds([]);
  }
}
