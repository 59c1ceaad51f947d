/** The two queue objects as one thread sees them: the code of WriteQueue,
    ReadQueue and the release queue over real arrays, with the masked index
    arithmetic, proved against the bounded FIFO that TaskQueue interleaves. */
module QueueObjects {
  import opened Rings
  import opened TaskQueue

  class ReleaseQueue {
    const datas: array<Task>
    var readIdx: nat
    var writeIdx: nat
    ghost var freed: seq<Task>

    ghost function View(): Ring<Task>
      reads this, datas
    {
      Ring(datas[..], readIdx, writeIdx)
    }

    ghost predicate Valid()
      reads this, datas
    {
      WellFormed(View(), RELEASE_CAPACITY)
    }

    /** Everything ever pushed: what has been freed, then what is still queued. */
    ghost function Log(): seq<Task>
      requires Valid()
      reads this, datas
    {
      freed + Contents(View())
    }

    constructor ()
      ensures Valid() && fresh(datas) && Log() == []
    {
      datas := new Task[RELEASE_CAPACITY](_ => 0);
      readIdx, writeIdx := 0, 0;
      freed := [];
    }

    method IsEmptyQueue() returns (b: bool)
      requires Valid()
      ensures b <==> Contents(View()) == []
    {
      b := readIdx == writeIdx;
    }

    /** The release queue tests with the remainder operator ... */
    method IsFullQueue() returns (b: bool)
      requires Valid()
      ensures b <==> |Contents(View())| == RELEASE_CAPACITY - 1
    {
      WrapThenRemainder(writeIdx + 1, RELEASE_CAPACITY);
      RingRefinesBoundedFifo(View(), RELEASE_CAPACITY);
      b := ((writeIdx + 1) % UINT32) % RELEASE_CAPACITY == readIdx;
    }

    /** ... and advances with the mask. */
    method WriteToReleaseQueue(x: Task) returns (ok: bool)
      requires Valid()
      modifies this, datas
      ensures Valid() && freed == old(freed) && readIdx == old(readIdx)
      ensures ok <==> |old(Contents(View()))| < RELEASE_CAPACITY - 1
      ensures Contents(View()) == old(Contents(View())) + if ok then [x] else []
    {
      var full := IsFullQueue();
      RingRefinesBoundedFifo(View(), RELEASE_CAPACITY);
      if full {
        return false;
      }
      ghost var before := View();
      WriteAppends(before, RELEASE_CAPACITY, x);
      MaskedAdvanceIsAdvance(writeIdx, RELEASE_CAPACITY);
      datas[writeIdx] := x;
      writeIdx := MaskedAdvance(writeIdx, RELEASE_CAPACITY);
      assert View() == Publish(CopyIn(before, x), RELEASE_CAPACITY);
      ok := true;
    }

    method ReadFromReleaseQueue() returns (ok: bool)
      requires Valid()
      modifies this
      ensures Valid() && Log() == old(Log())
      ensures ok <==> old(Contents(View())) != []
      ensures |Contents(View())| == |old(Contents(View()))| - if ok then 1 else 0
    {
      var empty := IsEmptyQueue();
      if empty {
        return false;
      }
      RetireDropsHead(View(), RELEASE_CAPACITY);
      MaskedAdvanceIsAdvance(readIdx, RELEASE_CAPACITY);
      freed := freed + [datas[readIdx]];
      readIdx := MaskedAdvance(readIdx, RELEASE_CAPACITY);
      assert View() == Retire(old(View()), RELEASE_CAPACITY);
      ok := true;
    }

    /** The push spins while the queue is full; each turn of the loop leaves the
        releaser one step. */
    method PushToReleaseQueue(x: Task)
      requires Valid()
      modifies this, datas
      ensures Valid() && Log() == old(Log()) + [x]
    {
      var ret := false;
      ghost var log := Log();
      while !ret
        invariant Valid()
        invariant Log() == if ret then log + [x] else log
        decreases !ret, |Contents(View())|
      {
        ghost var before := Contents(View());
        ret := WriteToReleaseQueue(x);
        if !ret {
          var popped := ReadFromReleaseQueue();
        } else {
          assert Log() == freed + (before + [x]);
        }
      }
    }
  }

  lemma MoveHead(log: seq<Task>, pending: seq<Task>)
    requires pending != []
    ensures (log + [pending[0]]) + pending[1..] == log + pending
  {
  }

  class Repository {
    const datas: array<Task>
    const releaseQueue: ReleaseQueue
    var readIdx: nat
    var writeIdx: nat
    var repoStatus: RepoStatus

    ghost function View(): Ring<Task>
      reads this, datas
    {
      Ring(datas[..], readIdx, writeIdx)
    }

    ghost predicate Valid()
      reads this, datas, releaseQueue, releaseQueue.datas
    {
      && WellFormed(View(), QUEUE_CAPACITY)
      && releaseQueue.Valid()
      && datas != releaseQueue.datas
    }

    ghost function Pending(): seq<Task>
      requires Valid()
      reads this, datas, releaseQueue, releaseQueue.datas
    {
      Contents(View())
    }

    constructor ()
      ensures Valid() && fresh(datas) && fresh(releaseQueue) && fresh(releaseQueue.datas)
      ensures Pending() == [] && releaseQueue.Log() == [] && repoStatus == INIT
    {
      datas := new Task[QUEUE_CAPACITY](_ => 0);
      releaseQueue := new ReleaseQueue();
      readIdx, writeIdx, repoStatus := 0, 0, INIT;
    }

    method IsEmptyQueue() returns (b: bool)
      requires Valid()
      ensures b <==> Pending() == []
    {
      b := readIdx == writeIdx;
    }

    method IsFullQueue() returns (b: bool)
      requires Valid()
      ensures b <==> |Pending()| == QUEUE_CAPACITY - 1
    {
      MaskedAdvanceIsAdvance(writeIdx, QUEUE_CAPACITY);
      RingRefinesBoundedFifo(View(), QUEUE_CAPACITY);
      b := MaskedAdvance(writeIdx, QUEUE_CAPACITY) == readIdx;
    }

    /** Appends unless 4095 tasks are pending. */
    method WriteQueue(x: Task) returns (ok: bool)
      requires Valid()
      modifies this`writeIdx, datas
      ensures Valid() && releaseQueue.Log() == old(releaseQueue.Log())
      ensures ok <==> |old(Pending())| < QUEUE_CAPACITY - 1
      ensures Pending() == old(Pending()) + if ok then [x] else []
    {
      var full := IsFullQueue();
      RingRefinesBoundedFifo(View(), QUEUE_CAPACITY);
      if full {
        return false;
      }
      ghost var before := View();
      WriteAppends(before, QUEUE_CAPACITY, x);
      MaskedAdvanceIsAdvance(writeIdx, QUEUE_CAPACITY);
      datas[writeIdx] := x;
      writeIdx := MaskedAdvance(writeIdx, QUEUE_CAPACITY);
      assert View() == Publish(CopyIn(before, x), QUEUE_CAPACITY);
      ok := true;
    }

    /** Releases the oldest pending task and gives up its slot. */
    method ReleaseAndAdvance()
      requires Valid() && Pending() != []
      modifies this`readIdx, releaseQueue, releaseQueue.datas
      ensures Valid()
      ensures Pending() == old(Pending())[1..]
      ensures releaseQueue.Log() == old(releaseQueue.Log()) + [old(Pending())[0]]
      ensures releaseQueue.Log() + Pending() == old(releaseQueue.Log() + Pending())
    {
      RetireDropsHead(View(), QUEUE_CAPACITY);
      MaskedAdvanceIsAdvance(readIdx, QUEUE_CAPACITY);
      releaseQueue.PushToReleaseQueue(datas[readIdx]);
      readIdx := MaskedAdvance(readIdx, QUEUE_CAPACITY);
      assert View() == Retire(old(View()), QUEUE_CAPACITY);
      MoveHead(old(releaseQueue.Log()), old(Pending()));
    }

    /** The failure path: every pending task is released in order, without being executed. */
    method Drain()
      requires Valid()
      modifies this`readIdx, releaseQueue, releaseQueue.datas
      ensures Valid() && Pending() == []
      ensures releaseQueue.Log() == old(releaseQueue.Log() + Pending())
    {
      ghost var all := releaseQueue.Log() + Pending();
      var empty := IsEmptyQueue();
      while !empty
        invariant Valid()
        invariant empty <==> Pending() == []
        invariant releaseQueue.Log() + Pending() == all
        decreases |Pending()|
      {
        ReleaseAndAdvance();
        empty := IsEmptyQueue();
      }
      assert releaseQueue.Log() + [] == releaseQueue.Log();
    }

    /** code is what the exec callback returns for the oldest task.  Success retires
        that task; failure releases every pending task and leaves an empty queue. */
    method ReadQueue(code: int) returns (ret: bool)
      requires Valid()
      modifies this`readIdx, this`repoStatus, releaseQueue, releaseQueue.datas
      ensures Valid()
      ensures ret <==> old(Pending()) != [] && code == 0
      ensures Pending() == if ret then old(Pending())[1..] else []
      ensures releaseQueue.Log() == old(releaseQueue.Log()) + if ret then [old(Pending())[0]] else old(Pending())
      ensures repoStatus == if old(Pending()) != [] && code != 0 then ERROR_EXIT else old(repoStatus)
    {
      var empty := IsEmptyQueue();
      if empty {
        return false;
      }
      if code != 0 {
        Drain();
        SetStatus(ERROR_EXIT);
        readIdx := writeIdx;
        return false;
      }
      ReleaseAndAdvance();
      ret := true;
    }

    method SetStatus(desired: RepoStatus)
      modifies this`repoStatus
      ensures repoStatus == desired
    {
      repoStatus := desired;
    }

    method ChangeStatus(expected: RepoStatus, desired: RepoStatus)
      modifies this`repoStatus
      ensures repoStatus == if old(repoStatus) == expected then desired else old(repoStatus)
    {
      if repoStatus == expected {
        repoStatus := desired;
      }
    }

    /** The common opening of Enqueue and end of MakeSureQueueEmpty: an error is
        reported once, and whatever is still pending is discarded with it. */
    method TakeError() returns (thrown: bool)
      requires Valid()
      modifies this`readIdx, this`repoStatus
      ensures Valid() && releaseQueue.Log() == old(releaseQueue.Log())
      ensures thrown <==> old(repoStatus) == ERROR_EXIT
      ensures thrown ==> repoStatus == CAN_EXIT && Pending() == []
      ensures !thrown ==> repoStatus == old(repoStatus) && Pending() == old(Pending())
    {
      thrown := repoStatus == ERROR_EXIT;
      if thrown {
        SetStatus(CAN_EXIT);
        readIdx := writeIdx;
      }
    }
  }
}
