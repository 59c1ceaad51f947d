/** Selecting a device: a pending target overlays the device of the ACL context, and
    the set of devices used so far decides whether a selection is carried out. */
module DeviceSelection {

  const MAX_DEVICE_INDEX := 127

  /** The selection state of one thread.  target is the pending device (negative: none),
      context the device of the ACL context (-1: no context yet), used the devices that
      have been set.  driver answers the driver's calls: the devices it agrees to set when
      it is asked for the n-th time; asks is how often it has been asked. */
  datatype Devices = Devices(target: int, context: int, used: set<int>, asks: nat, driver: Driver)

  type Driver = nat -> set<int>

  /** Refused is an error code returned to the caller, Threw an exception. */
  datatype Result<T> = Ok(value: T) | Refused | Threw

  /** A state and the answer that led to it. */
  datatype Done<T> = Done(s: Devices, r: Result<T>)

  predicate Valid(s: Devices) {
    && (forall d :: d in s.used ==> 0 <= d <= MAX_DEVICE_INDEX)
    && (s.context == -1 || s.context in s.used)
  }

  /** The driver agrees to d when asked for the n-th time. */
  predicate Agrees(s: Devices, n: nat, d: int) {
    0 <= d <= MAX_DEVICE_INDEX && d in s.driver(n)
  }

  // ----- The adapter over the ACL calls -----

  function AclSetDevice(s: Devices, d: int): Done<()> {
    var asked := s.(asks := s.asks + 1);
    if Agrees(s, s.asks, d) then Done(asked.(context := d, used := s.used + {d}), Ok(())) else Done(asked, Refused)
  }

  /** Without a context, device 0 is set first. */
  function AclGetDevice(s: Devices): Done<int> {
    if s.context >= 0 then Done(s, Ok(s.context))
    else
      var zero := AclSetDevice(s, 0);
      Done(zero.s, if zero.r.Ok? then Ok(0) else Refused)
  }

  predicate HasPrimaryContext(s: Devices, d: int) {
    d in s.used
  }

  // ----- The device functions -----

  function GetDevice(s: Devices): Done<int> {
    if s.target >= 0 then Done(s, Ok(s.target)) else AclGetDevice(s)
  }

  function SetDevice(s: Devices, d: int): Done<()> {
    if d < 0 then Done(s, Threw)
    else
      var cur := AclGetDevice(s.(target := -1));
      if !cur.r.Ok? then Done(cur.s, Threw)
      else if d == cur.r.value then Done(cur.s, Ok(()))
      else AclSetDevice(cur.s, d)
  }

  function MaybeSetDevice(s: Devices, d: int): Done<()> {
    if HasPrimaryContext(s, d) then SetDevice(s, d) else Done(s.(target := d), Ok(()))
  }

  function ExchangeDevice(s: Devices, to: int): Done<int> {
    if s.target >= 0 then
      var set_ := AclSetDevice(s.(target := -1), to);
      Done(set_.s, if set_.r.Ok? then Ok(s.target) else Threw)
    else
      var cur := AclGetDevice(s.(target := -1));
      if !cur.r.Ok? then Done(cur.s, Threw)
      else if cur.r.value == to then cur
      else
        var set_ := AclSetDevice(cur.s, to);
        Done(set_.s, if set_.r.Ok? then cur.r else Threw)
  }

  function MaybeExchangeDevice(s: Devices, to: int): Done<int> {
    var cur := AclGetDevice(s);
    if !cur.r.Ok? then Done(cur.s, Threw)
    else if cur.r.value == to then cur
    else if HasPrimaryContext(cur.s, to) then
      var set_ := AclSetDevice(cur.s, to);
      Done(set_.s, if set_.r.Ok? then cur.r else Threw)
    else Done(cur.s.(target := to), cur.r)
  }

  function SetTargetDevice(s: Devices): Done<()> {
    if s.target < 0 then Done(s, Ok(()))
    else
      var set_ := SetDevice(s, s.target);
      Done(set_.s, if set_.r.Ok? then set_.r else Threw)
  }

  // ----- What a caller observes -----

  /** The device GetDevice would return now. */
  function Observed(s: Devices): Result<int> {
    GetDevice(s).r
  }

  /** There is a context, or the driver agrees to device 0 now. */
  predicate Usable(s: Devices) {
    s.context >= 0 || Agrees(s, s.asks, 0)
  }

  /** The device is the context's own, for which the driver is not asked, or it agrees. */
  predicate Takes(s: Devices, d: int) {
    && d >= 0
    && if s.context >= 0 then d == s.context || Agrees(s, s.asks, d)
       else Agrees(s, s.asks, 0) && (d == 0 || Agrees(s, s.asks + 1, d))
  }

  /** What no operation undoes. */
  ghost predicate Grows(s: Devices, s': Devices) {
    s'.driver == s.driver && s.asks <= s'.asks && s.used <= s'.used && (s.context >= 0 ==> s'.context >= 0)
  }

  lemma GetDeviceOnlyInitialises(s: Devices)
    requires Valid(s)
    ensures var got := GetDevice(s);
            && Valid(got.s) && Grows(s, got.s) && !got.r.Threw?
            && (got.r.Ok? <==> s.target >= 0 || Usable(s))
            && (got.r.Ok? ==> Observed(got.s) == got.r)
  {
  }

  /** SetDevice succeeds exactly for a device that is taken; then that device is observed,
      nothing is pending, and it counts as used.  It throws exactly for a negative device
      and on an unusable thread.  A refusal leaves the context's device observed. */
  lemma SetDeviceObserved(s: Devices, d: int)
    requires Valid(s)
    ensures var done := SetDevice(s, d);
            && Valid(done.s) && Grows(s, done.s)
            && (done.r.Ok? <==> Takes(s, d))
            && (done.r.Threw? <==> d < 0 || !Usable(s))
            && (done.r.Ok? ==> Observed(done.s) == Ok(d) && done.s.target == -1)
            && (done.r.Ok? ==> done.s.context == d && d in done.s.used)
            && (!done.r.Ok? ==> done.s.target == if d < 0 then s.target else -1)
            && (done.r.Refused? ==> done.s.context == (if s.context >= 0 then s.context else 0) != d)
            && (done.r.Refused? ==> done.s.asks == SecondAsk(s))
            && (done.r.Refused? ==> Observed(done.s) == Ok(done.s.context))
  {
  }

  /** The number of the driver call with which a refused selection would be tried again. */
  function SecondAsk(s: Devices): nat {
    s.asks + if s.context >= 0 then 1 else 2
  }

  /** MaybeSetDevice fails only for a used device that SetDevice would refuse now; d is
      observed afterwards exactly when it succeeded and d is not negative.  An unused
      device's context is not created. */
  lemma MaybeSetDeviceObserved(s: Devices, d: int)
    requires Valid(s)
    ensures var done := MaybeSetDevice(s, d);
            && Valid(done.s) && Grows(s, done.s)
            && (done.r.Ok? <==> (d in s.used ==> Takes(s, d)))
            && (done.r.Ok? ==> (Observed(done.s) == Ok(d) <==> d >= 0))
            && (d !in s.used ==> done.s.context == s.context && done.s.used == s.used && done.s.asks == s.asks)
  {
    if d in s.used {
      SetDeviceObserved(s, d);
    }
  }

  /** ExchangeDevice returns the device observed before and leaves to observed.  With a
      device pending the driver is always asked, also for the context's own device; on
      failure the pending device is forgotten. */
  lemma ExchangeDeviceObserved(s: Devices, to: int)
    requires Valid(s)
    ensures var done := ExchangeDevice(s, to);
            && Valid(done.s) && Grows(s, done.s) && !done.r.Refused?
            && (done.r.Ok? <==> if s.target >= 0 then Agrees(s, s.asks, to) else Takes(s, to))
            && (done.r.Ok? ==> done.r == Observed(s) && Observed(done.s) == Ok(to) && done.s.context == to)
            && (!done.r.Ok? ==>
                  done.s.context == if s.context < 0 && s.target < 0 && Usable(s) then 0 else s.context)
            && done.s.target == -1
  {
  }

  /** Exchanging there and back returns to the first device exactly when the driver takes it. */
  lemma ExchangeTwice(s: Devices, to: int)
    requires Valid(s) && ExchangeDevice(s, to).r.Ok?
    ensures var there := ExchangeDevice(s, to);
            var back := ExchangeDevice(there.s, there.r.value);
            && (back.r.Ok? <==> Takes(there.s, there.r.value))
            && (back.r.Ok? ==> back.r == Ok(to) && Observed(back.s) == Observed(s))
  {
    ExchangeDeviceObserved(s, to);
    ExchangeDeviceObserved(ExchangeDevice(s, to).s, Observed(s).value);
  }

  /** MaybeExchangeDevice does not clear a pending target.  It throws on an unusable thread
      and for a used device that is refused; otherwise to is observed afterwards exactly
      when nothing else was pending, or to itself becomes the pending device; and it
      reports the context's device, not the observed one. */
  lemma MaybeExchangeObservedExactly(s: Devices, to: int)
    requires Valid(s) && to >= 0
    ensures var done := MaybeExchangeDevice(s, to);
            var current := if s.context >= 0 then s.context else 0;
            var refused := !Usable(s) || (to != current && to in s.used && !Takes(s, to));
            && Valid(done.s) && Grows(s, done.s)
            && done.r == (if refused then Threw else Ok(current))
            && (!refused ==>
                  && (Observed(done.s) == Ok(to) <==>
                        s.target < 0 || s.target == to || (to != current && to !in s.used))
                  && (done.r == Observed(s) <==> s.target < 0 || s.target == current))
  {
  }

  /** With device 1 pending over context 0, exchanging to device 0 leaves 1 observed. */
  lemma MaybeExchangeCanKeepOldTarget() returns (s: Devices)
    ensures Valid(s) && Usable(s) && Observed(s) == Ok(1)
    ensures MaybeExchangeDevice(s, 0).r == Ok(0) && Observed(MaybeExchangeDevice(s, 0).s) == Ok(1)
  {
    s := Devices(1, 0, {0}, 0, n => {0, 1});
  }

  /** Carrying out a pending selection does not change what is observed; otherwise it throws. */
  lemma SetTargetKeepsObserved(s: Devices)
    requires Valid(s)
    ensures var done := SetTargetDevice(s);
            && Valid(done.s) && Grows(s, done.s)
            && (done.r == if s.target < 0 || Takes(s, s.target) then Ok(()) else Threw)
            && (done.r.Ok? && Observed(s).Ok? ==> done.s.target < 0 && Observed(done.s) == Observed(s))
  {
    if s.target >= 0 {
      SetDeviceObserved(s, s.target);
    }
  }

  // ----- Guards and events -----

  /** What code under a guard does: nested guards, and event operations on streams.
      ok says whether the ACL event call of the operation succeeds. */
  datatype Op =
    | Guard(device: int, body: seq<Op>)
    | Record(device: int, ok: bool)
    | Block(device: int, ok: bool)
    | Destroy(device: int)

  /** A run of operations: the state it leaves; whether it ended in an exception; whether
      one escaped a destructor, which ends the process; whether some move back at the
      run's own level was refused at first and so warned about, or refused for good. */
  datatype Ran = Ran(s: Devices, threw: bool, ended: bool, warned: bool, lost: bool)

  /** A selection that is only warned about: the warning evaluates it a second time. */
  datatype Tried = Tried(s: Devices, ended: bool, warned: bool, lost: bool)

  function TrySet(s: Devices, d: int): Tried {
    var first := SetDevice(s, d);
    if !first.r.Refused? then Tried(first.s, first.r.Threw?, false, first.r.Threw?)
    else
      var second := SetDevice(first.s, d);
      Tried(second.s, second.r.Threw?, true, !second.r.Ok?)
  }

  function TryGet(s: Devices): Done<int> {
    var first := GetDevice(s);
    if first.r.Ok? then first else GetDevice(first.s)
  }

  /** Entering a guard: the device to restore later. */
  function GuardExchange(s: Devices, d: int): Done<int> {
    var old_ := GetDevice(s);
    if !old_.r.Ok? then Done(old_.s, Threw)
    else if old_.r.value == d then old_
    else
      var set_ := SetDevice(old_.s, d);
      Done(set_.s, if set_.r.Ok? then old_.r else Threw)
  }

  /** Recording or waiting on a stream's device, then moving back; an exception in between does not. */
  function OnDevice(s: Devices, d: int, ok: bool): Ran {
    var orig := GetDevice(s);
    if !orig.r.Ok? then Ran(orig.s, true, false, false, false)
    else
      var moved := SetDevice(orig.s, d);
      if !moved.r.Ok? || !ok then Ran(moved.s, true, false, false, false)
      else
        var back := SetDevice(moved.s, orig.r.value);
        Ran(back.s, !back.r.Ok?, false, false, false)
  }

  /** Destroying an event only warns about errors; an exception ends the process.  Without a
      device to return to, moving back throws. */
  function DestroyOnDevice(s: Devices, d: int): Ran {
    var orig := TryGet(s);
    var moved := TrySet(orig.s, d);
    if !orig.r.Ok? || moved.ended then Ran(moved.s, false, true, true, true)
    else
      var back := TrySet(moved.s, orig.r.value);
      Ran(back.s, false, back.ended, !GetDevice(s).r.Ok? || moved.warned || back.warned, back.lost)
  }

  function RunOp(s: Devices, op: Op): Ran
    decreases op, 1
  {
    match op
    case Guard(d, body) =>
      var entered := GuardExchange(s, d);
      if !entered.r.Ok? then Ran(entered.s, true, false, false, false)
      else
        // the guard's destructor restores, also when the body threw
        var inner := RunOps(entered.s, body);
        if inner.ended then inner
        else
          var back := TrySet(inner.s, entered.r.value);
          Ran(back.s, inner.threw, back.ended, back.warned, back.lost)
    case Record(d, ok) => OnDevice(s, d, ok)
    case Block(d, ok) => OnDevice(s, d, ok)
    case Destroy(d) => DestroyOnDevice(s, d)
  }

  function RunOps(s: Devices, ops: seq<Op>): Ran
    decreases ops, 0
  {
    if ops == [] then Ran(s, false, false, false, false)
    else
      var first := RunOp(s, ops[0]);
      if first.threw || first.ended then first
      else
        var rest := RunOps(first.s, ops[1..]);
        Ran(rest.s, rest.threw, rest.ended, first.warned || rest.warned, first.lost || rest.lost)
  }

  // ----- With a driver that may answer differently every time -----

  /** The driver agrees to d at the first or at the second try. */
  predicate TakesInTwo(s: Devices, d: int) {
    Takes(s, d) || Agrees(s, SecondAsk(s), d)
  }

  /** A selection that is only warned about ends the process exactly where SetDevice throws,
      warns exactly when it is refused at first, and selects d exactly when the driver
      agrees to it at one of the two tries. */
  lemma TrySetExactly(s: Devices, d: int)
    requires Valid(s)
    ensures var t := TrySet(s, d);
            && Valid(t.s) && Grows(s, t.s)
            && (t.ended <==> d < 0 || !Usable(s))
            && (!t.ended ==>
                  && (t.warned <==> !Takes(s, d))
                  && (Observed(t.s) == Ok(d) <==> TakesInTwo(s, d))
                  && (t.lost <==> !TakesInTwo(s, d))
                  && t.s.context >= 0)
  {
    var first := SetDevice(s, d);
    SetDeviceObserved(s, d);
    SetDeviceObserved(first.s, d);
  }

  lemma {:induction false} OpKeepsValid(s: Devices, op: Op)
    requires Valid(s)
    ensures Valid(RunOp(s, op).s) && Grows(s, RunOp(s, op).s)
    decreases op, 1
  {
    match op
    case Guard(d, body) =>
      GuardExchangeObserved(s, d);
      var entered := GuardExchange(s, d);
      if entered.r.Ok? {
        OpsKeepValid(entered.s, body);
        TrySetExactly(RunOps(entered.s, body).s, entered.r.value);
      }
    case Record(d, ok) => EventKeepsValid(s, d, ok);
    case Block(d, ok) => EventKeepsValid(s, d, ok);
    case Destroy(d) => DestroyKeepsValid(s, d);
  }

  lemma GuardExchangeObserved(s: Devices, d: int)
    requires Valid(s)
    ensures var done := GuardExchange(s, d);
            && Valid(done.s) && Grows(s, done.s)
            && (done.r.Ok? <==> Observed(s).Ok? && (Observed(s).value == d || Takes(GetDevice(s).s, d)))
            && (done.r.Ok? ==> done.r == Observed(s) && Observed(done.s) == Ok(d))
            && (done.r.Ok? && done.r.value != d ==> done.s.context == d)
  {
    GetDeviceOnlyInitialises(s);
    SetDeviceObserved(GetDevice(s).s, d);
  }

  lemma EventKeepsValid(s: Devices, d: int, ok: bool)
    requires Valid(s)
    ensures Valid(OnDevice(s, d, ok).s) && Grows(s, OnDevice(s, d, ok).s)
  {
    GetDeviceOnlyInitialises(s);
    SetDeviceObserved(GetDevice(s).s, d);
    if GetDevice(s).r.Ok? {
      SetDeviceObserved(SetDevice(GetDevice(s).s, d).s, GetDevice(s).r.value);
    }
  }

  lemma DestroyKeepsValid(s: Devices, d: int)
    requires Valid(s)
    ensures Valid(DestroyOnDevice(s, d).s) && Grows(s, DestroyOnDevice(s, d).s)
  {
    GetDeviceOnlyInitialises(s);
    GetDeviceOnlyInitialises(GetDevice(s).s);
    var orig := TryGet(s);
    TrySetExactly(orig.s, d);
    if orig.r.Ok? {
      TrySetExactly(TrySet(orig.s, d).s, orig.r.value);
    }
  }

  lemma {:induction false} OpsKeepValid(s: Devices, ops: seq<Op>)
    requires Valid(s)
    ensures Valid(RunOps(s, ops).s) && Grows(s, RunOps(s, ops).s)
    decreases ops, 0
  {
    if ops != [] {
      OpKeepsValid(s, ops[0]);
      var first := RunOp(s, ops[0]);
      if !first.threw && !first.ended {
        OpsKeepValid(first.s, ops[1..]);
      }
    }
  }

  /** Whatever runs inside it and whatever the driver does: leaving a guard that was entered
      ends the process exactly on a thread that is unusable by then.  Otherwise it warns
      exactly when the old device is refused at first, and restores it exactly when the
      driver takes it at the first or at the second try. */
  lemma GuardRestoresExactly(s: Devices, d: int, body: seq<Op>)
    requires Valid(s) && GuardExchange(s, d).r.Ok?
    requires !RunOps(GuardExchange(s, d).s, body).ended
    ensures Observed(s).Ok? && Observed(s).value >= 0
    ensures var ran := RunOp(s, Guard(d, body));
            var inner, old_ := RunOps(GuardExchange(s, d).s, body), Observed(s).value;
            && Valid(ran.s) && ran.threw == inner.threw
            && (ran.ended <==> !Usable(inner.s))
            && (!ran.ended ==>
                  && (ran.warned <==> !Takes(inner.s, old_))
                  && (Observed(ran.s) == Observed(s) <==> TakesInTwo(inner.s, old_))
                  && (Observed(ran.s) == Observed(s) <==> !ran.lost))
  {
    GuardExchangeObserved(s, d);
    var entered := GuardExchange(s, d);
    OpsKeepValid(entered.s, body);
    TrySetExactly(RunOps(entered.s, body).s, entered.r.value);
  }

  /** A guard for another device than the observed one can always be left without ending the
      process, unless something inside it ended it: it has created a context. */
  lemma ChangingGuardIsLeft(s: Devices, d: int, body: seq<Op>)
    requires Valid(s) && GuardExchange(s, d).r.Ok? && Observed(s) != Ok(d)
    ensures RunOp(s, Guard(d, body)).ended <==> RunOps(GuardExchange(s, d).s, body).ended
  {
    GuardExchangeObserved(s, d);
    OpsKeepValid(GuardExchange(s, d).s, body);
    if !RunOps(GuardExchange(s, d).s, body).ended {
      GuardRestoresExactly(s, d, body);
    }
  }

  lemma EventRestores(s: Devices, d: int, ok: bool)
    requires Valid(s) && !OnDevice(s, d, ok).threw
    ensures var ran := OnDevice(s, d, ok); Observed(s).Ok? && Observed(ran.s) == Observed(s)
  {
    GetDeviceOnlyInitialises(s);
    SetDeviceObserved(GetDevice(s).s, d);
    SetDeviceObserved(SetDevice(GetDevice(s).s, d).s, GetDevice(s).r.value);
  }

  /** Recording or waiting throws exactly when there is no device to start from, or the driver
      does not take the stream's device or afterwards the first one, or the event call
      fails; in the last case the thread stays on the stream's device. */
  lemma EventThrowsExactly(s: Devices, d: int, ok: bool)
    requires Valid(s)
    ensures var ran, got := OnDevice(s, d, ok), GetDevice(s);
            var there := SetDevice(got.s, d).s;
            && Valid(ran.s) && !ran.ended
            && (ran.threw <==> !(Observed(s).Ok? && Takes(got.s, d) && ok && Takes(there, Observed(s).value)))
            && (Observed(s).Ok? && Takes(got.s, d) && !ok ==> Observed(ran.s) == Ok(d))
  {
    EventKeepsValid(s, d, ok);
    GetDeviceOnlyInitialises(s);
    var got := GetDevice(s);
    SetDeviceObserved(got.s, d);
    if got.r.Ok? {
      SetDeviceObserved(SetDevice(got.s, d).s, got.r.value);
    }
  }

  /** Destroying an event, from an observed device, ends the process exactly for a negative
      device and on an unusable thread.  Otherwise it moves back exactly when the driver
      takes the first device at one of two tries, whether or not it reached the event's. */
  lemma DestroyRestoresExactly(s: Devices, d: int)
    requires Valid(s) && Observed(s).Ok?
    ensures var ran, there := DestroyOnDevice(s, d), TrySet(GetDevice(s).s, d);
            && Valid(ran.s) && !ran.threw
            && (ran.ended <==> d < 0 || !Usable(GetDevice(s).s))
            && (!ran.ended ==>
                  && (Observed(ran.s) == Observed(s) <==> TakesInTwo(there.s, Observed(s).value))
                  && (Observed(ran.s) == Observed(s) <==> !ran.lost)
                  && (ran.warned <==> there.warned || !Takes(there.s, Observed(s).value)))
  {
    GetDeviceOnlyInitialises(s);
    var orig := GetDevice(s);
    TrySetExactly(orig.s, d);
    TrySetExactly(TrySet(orig.s, d).s, orig.r.value);
  }

  /** Destroying an event from a thread without a device: the warning asks for device 0 a second
      time.  The process ends exactly when that is refused too, or for a negative device;
      otherwise it warns, and device 0 is observed exactly when the driver takes it back. */
  lemma DestroyFromNowhereExactly(s: Devices, d: int)
    requires Valid(s) && !Observed(s).Ok?
    ensures var ran, there := DestroyOnDevice(s, d), TrySet(GetDevice(GetDevice(s).s).s, d);
            && Valid(ran.s) && !ran.threw && ran.warned
            && (ran.ended <==> !Agrees(s, s.asks + 1, 0) || d < 0)
            && (!ran.ended ==>
                  && (Observed(ran.s) == Ok(0) <==> TakesInTwo(there.s, 0))
                  && (Observed(ran.s) == Ok(0) <==> !ran.lost))
  {
    GetDeviceOnlyInitialises(s);
    var again := GetDevice(GetDevice(s).s);
    GetDeviceOnlyInitialises(GetDevice(s).s);
    TrySetExactly(again.s, d);
    TrySetExactly(TrySet(again.s, d).s, 0);
  }

  /** Whatever the driver does, an operation that neither throws nor ends the process ends
      on the device where it began exactly when it has not lost it; without a warning
      it has not. */
  lemma OpRestoresUnlessLost(s: Devices, op: Op)
    requires Valid(s) && Observed(s).Ok? && !RunOp(s, op).threw && !RunOp(s, op).ended
    ensures var ran := RunOp(s, op);
            && Valid(ran.s)
            && (Observed(ran.s) == Observed(s) <==> !ran.lost)
            && (ran.lost ==> ran.warned)
  {
    match op
    case Guard(d, body) => GuardRestoresExactly(s, d, body);
    case Record(d, ok) =>
      EventKeepsValid(s, d, ok);
      EventRestores(s, d, ok);
    case Block(d, ok) =>
      EventKeepsValid(s, d, ok);
      EventRestores(s, d, ok);
    case Destroy(d) => DestroyRestoresExactly(s, d);
  }

  /** The same for a whole run: if it neither throws, ends the process nor loses a device at
      its own level, it ends on the device where it began. */
  lemma {:induction false} OpsRestoreUnlessLost(s: Devices, ops: seq<Op>)
    requires Valid(s) && Observed(s).Ok?
    requires var ran := RunOps(s, ops); !ran.threw && !ran.ended && !ran.lost
    ensures Observed(RunOps(s, ops).s) == Observed(s)
    decreases |ops|
  {
    if ops != [] {
      OpRestoresUnlessLost(s, ops[0]);
      OpsRestoreUnlessLost(RunOp(s, ops[0]).s, ops[1..]);
    }
  }

  /** A driver that refuses the old device once: the guard warns and restores all the same. */
  lemma GuardCanWarnAndRestore() returns (s: Devices)
    ensures Valid(s) && GuardExchange(s, 1).r.Ok?
    ensures var ran := RunOp(s, Guard(1, []));
            ran.warned && !ran.lost && !ran.ended && Observed(ran.s) == Observed(s)
  {
    s := Devices(-1, 0, {0}, 0, n => if n > 1 then {0, 1} else {1});
    var entered := GuardExchange(s, 1);
    GuardExchangeObserved(s, 1);
    assert RunOps(entered.s, []) == Ran(entered.s, false, false, false, false);
    GuardRestoresExactly(s, 1, []);
  }

  /** A guard for the pending device creates no context; if device 0 cannot be set either,
      leaving it ends the process. */
  lemma GuardCanEndTheProcess() returns (s: Devices)
    ensures Valid(s) && GuardExchange(s, 1).r.Ok?
    ensures RunOp(s, Guard(1, [])).ended
  {
    s := Devices(1, -1, {}, 0, n => {});
    GuardExchangeObserved(s, 1);
    assert RunOps(GuardExchange(s, 1).s, []) == Ran(GuardExchange(s, 1).s, false, false, false, false);
    GuardRestoresExactly(s, 1, []);
  }

  // ----- What counts as used -----

  /** The driver agreed to d between s and s'. */
  ghost predicate AgreedTo(s: Devices, s': Devices, d: int) {
    exists n :: s.asks <= n < s'.asks && d in s.driver(n)
  }

  /** Every device used at s' was used at s, or the driver has agreed to it since. */
  ghost predicate OnlyAgreed(s: Devices, s': Devices) {
    && s'.driver == s.driver && s.asks <= s'.asks
    && forall d :: d in s'.used ==> d in s.used || AgreedTo(s, s', d)
  }

  lemma AgreedOnwards(s: Devices, t: Devices, u: Devices)
    requires OnlyAgreed(s, t) && OnlyAgreed(t, u)
    ensures OnlyAgreed(s, u)
  {
    forall d | d in u.used && d !in s.used ensures AgreedTo(s, u, d) {
      assert AgreedTo(t, u, d) || AgreedTo(s, t, d);
    }
  }

  lemma AclSetAgreed(s: Devices, d: int)
    ensures OnlyAgreed(s, AclSetDevice(s, d).s)
  {
    if Agrees(s, s.asks, d) {
      assert d in s.driver(s.asks);
    }
  }

  lemma GetAgreed(s: Devices)
    ensures OnlyAgreed(s, GetDevice(s).s) && OnlyAgreed(s, AclGetDevice(s).s)
  {
    AclSetAgreed(s, 0);
  }

  lemma SetAgreed(s: Devices, d: int)
    ensures OnlyAgreed(s, SetDevice(s, d).s)
  {
    var plain := s.(target := -1);
    GetAgreed(plain);
    assert OnlyAgreed(s, AclGetDevice(plain).s) by {
      assert OnlyAgreed(s, plain);
      AgreedOnwards(s, plain, AclGetDevice(plain).s);
    }
    if d >= 0 && AclGetDevice(plain).r.Ok? && AclGetDevice(plain).r.value != d {
      AclSetAgreed(AclGetDevice(plain).s, d);
      AgreedOnwards(s, AclGetDevice(plain).s, SetDevice(s, d).s);
    }
  }

  lemma GetThenSetAgreed(s: Devices, d: int)
    ensures OnlyAgreed(s, SetDevice(GetDevice(s).s, d).s)
  {
    GetAgreed(s);
    SetAgreed(GetDevice(s).s, d);
    AgreedOnwards(s, GetDevice(s).s, SetDevice(GetDevice(s).s, d).s);
  }

  lemma TrySetAgreed(s: Devices, d: int)
    ensures OnlyAgreed(s, TrySet(s, d).s)
  {
    SetAgreed(s, d);
    var first := SetDevice(s, d);
    if first.r.Refused? {
      SetAgreed(first.s, d);
      AgreedOnwards(s, first.s, TrySet(s, d).s);
    }
  }

  lemma EventAgreed(s: Devices, d: int, ok: bool)
    ensures OnlyAgreed(s, OnDevice(s, d, ok).s)
  {
    GetAgreed(s);
    GetThenSetAgreed(s, d);
    var orig := GetDevice(s);
    if orig.r.Ok? {
      SetAgreed(SetDevice(orig.s, d).s, orig.r.value);
      AgreedOnwards(s, SetDevice(orig.s, d).s, SetDevice(SetDevice(orig.s, d).s, orig.r.value).s);
    }
  }

  lemma DestroyAgreed(s: Devices, d: int)
    ensures OnlyAgreed(s, DestroyOnDevice(s, d).s)
  {
    GetAgreed(s);
    GetAgreed(GetDevice(s).s);
    var orig := TryGet(s);
    assert OnlyAgreed(s, orig.s) by {
      AgreedOnwards(s, GetDevice(s).s, GetDevice(GetDevice(s).s).s);
    }
    TrySetAgreed(orig.s, d);
    var moved := TrySet(orig.s, d);
    AgreedOnwards(s, orig.s, moved.s);
    if orig.r.Ok? {
      TrySetAgreed(moved.s, orig.r.value);
      AgreedOnwards(s, moved.s, TrySet(moved.s, orig.r.value).s);
    }
  }

  lemma {:induction false} OpAgreed(s: Devices, op: Op)
    ensures OnlyAgreed(s, RunOp(s, op).s)
    decreases op, 1
  {
    match op
    case Guard(d, body) =>
      GetAgreed(s);
      GetThenSetAgreed(s, d);
      var entered := GuardExchange(s, d);
      if entered.r.Ok? {
        UsedDevicesWereAgreed(entered.s, body);
        var inner := RunOps(entered.s, body);
        AgreedOnwards(s, entered.s, inner.s);
        TrySetAgreed(inner.s, entered.r.value);
        AgreedOnwards(s, inner.s, TrySet(inner.s, entered.r.value).s);
      }
    case Record(d, ok) => EventAgreed(s, d, ok);
    case Block(d, ok) => EventAgreed(s, d, ok);
    case Destroy(d) => DestroyAgreed(s, d);
  }

  /** Whatever runs, only a device the driver agreed to on the way becomes a used one: a
      refused selection does not count. */
  lemma {:induction false} UsedDevicesWereAgreed(s: Devices, ops: seq<Op>)
    ensures OnlyAgreed(s, RunOps(s, ops).s)
    decreases ops, 0
  {
    if ops != [] {
      var first := RunOp(s, ops[0]);
      OpAgreed(s, ops[0]);
      if !first.threw && !first.ended {
        UsedDevicesWereAgreed(first.s, ops[1..]);
        AgreedOnwards(s, first.s, RunOps(first.s, ops[1..]).s);
      }
    }
  }

  // ----- With a driver that always gives the same answer -----

  /** The driver's answer depends on the device alone. */
  ghost predicate Steady(driver: Driver) {
    forall n :: driver(n) == driver(0)
  }

  predicate Accepted(driver: Driver, d: int) {
    0 <= d <= MAX_DEVICE_INDEX && d in driver(0)
  }

  /** An operation, or one nested in it, that cannot be carried out. */
  predicate OpFails(op: Op, driver: Driver)
    decreases op, 1
  {
    match op
    case Guard(d, body) => !Accepted(driver, d) || OpsFail(body, driver)
    case Record(d, ok) => !Accepted(driver, d) || !ok
    case Block(d, ok) => !Accepted(driver, d) || !ok
    case Destroy(_) => false
  }

  predicate OpsFail(ops: seq<Op>, driver: Driver)
    decreases ops, 0
  {
    ops != [] && (OpFails(ops[0], driver) || OpsFail(ops[1..], driver))
  }

  /** No event of a negative device is destroyed, at any depth. */
  predicate OpSafe(op: Op)
    decreases op, 1
  {
    match op
    case Guard(_, body) => OpsSafe(body)
    case Destroy(d) => d >= 0
    case _ => true
  }

  predicate OpsSafe(ops: seq<Op>)
    decreases ops, 0
  {
    ops != [] ==> OpSafe(ops[0]) && OpsSafe(ops[1..])
  }

  /** A thread on which a steady driver accepts the observed device and the context's. */
  ghost predicate Sound(s: Devices) {
    && Valid(s) && Steady(s.driver) && Usable(s)
    && Observed(s).Ok? && Accepted(s.driver, Observed(s).value)
    && (s.context >= 0 ==> Accepted(s.driver, s.context))
  }

  ghost predicate Kept(s: Devices, s': Devices) {
    Sound(s') && Grows(s, s')
  }

  lemma SteadySet(s: Devices, d: int)
    requires Valid(s) && Steady(s.driver) && Usable(s) && (s.context >= 0 ==> Accepted(s.driver, s.context))
    ensures Takes(s, d) <==> Accepted(s.driver, d)
    ensures var done := SetDevice(s, d);
            && Valid(done.s) && Grows(s, done.s) && (done.r.Ok? <==> Accepted(s.driver, d))
            && (done.r.Ok? ==> Sound(done.s) && Observed(done.s) == Ok(d))
            && (done.r.Refused? ==> Sound(done.s) && done.s.target == -1)
            && (done.r.Threw? <==> d < 0) && (d < 0 ==> done.s == s)
  {
    SetDeviceObserved(s, d);
    assert Agrees(s, s.asks, 0) == Accepted(s.driver, 0);
    assert Agrees(s, s.asks, d) == Accepted(s.driver, d) == Agrees(s, s.asks + 1, d);
  }

  lemma SteadyGet(s: Devices)
    requires Sound(s)
    ensures var got := GetDevice(s); Kept(s, got.s) && got.r == Observed(s) == Observed(got.s)
  {
    GetDeviceOnlyInitialises(s);
    assert Agrees(s, s.asks, 0) == Accepted(s.driver, 0);
  }

  lemma OnDeviceKeeps(s: Devices, d: int, ok: bool)
    requires Sound(s)
    ensures var ran := OnDevice(s, d, ok);
            && Kept(s, ran.s) && !ran.ended && !ran.lost && (ran.threw <==> !Accepted(s.driver, d) || !ok)
            && (!ran.threw ==> Observed(ran.s) == Observed(s))
            && (ran.threw && Accepted(s.driver, d) ==> Observed(ran.s) == Ok(d))
  {
    SteadyGet(s);
    var orig := GetDevice(s);
    SteadySet(orig.s, d);
    SteadySet(SetDevice(orig.s, d).s, orig.r.value);
  }

  lemma SteadyTry(s: Devices, d: int)
    requires Sound(s) && d >= 0
    ensures var t := TrySet(s, d);
            && Kept(s, t.s) && !t.ended && (t.lost <==> !Accepted(s.driver, d))
            && (t.warned <==> !Accepted(s.driver, d))
            && (Accepted(s.driver, d) ==> Observed(t.s) == Ok(d))
  {
    SteadySet(s, d);
    SteadySet(SetDevice(s, d).s, d);
  }

  lemma DestroyKeeps(s: Devices, d: int)
    requires Sound(s) && d >= 0
    ensures var ran := DestroyOnDevice(s, d);
            && Kept(s, ran.s) && !ran.threw && !ran.ended && !ran.lost && Observed(ran.s) == Observed(s)
            && (ran.warned <==> !Accepted(s.driver, d))
  {
    SteadyGet(s);
    var orig := GetDevice(s);
    SteadyTry(orig.s, d);
    SteadyTry(TrySet(orig.s, d).s, orig.r.value);
  }

  /** With a steady driver an operation throws exactly when it cannot be carried out, never
      ends the process and never loses a device.  One that does not throw ends on the
      device where it began; a guard that was entered does so even when its body throws;
      recording or waiting that throws stays on its stream's device. */
  lemma {:induction false} OpRestores(s: Devices, op: Op)
    requires Sound(s) && OpSafe(op)
    ensures var ran := RunOp(s, op);
            && Kept(s, ran.s) && !ran.ended && !ran.lost
            && (ran.threw <==> OpFails(op, s.driver))
            && (!ran.threw ==> Observed(ran.s) == Observed(s))
            && (op.Guard? && Accepted(s.driver, op.device) ==> Observed(ran.s) == Observed(s))
            && ((op.Record? || op.Block?) && ran.threw && Accepted(s.driver, op.device) ==>
                  Observed(ran.s) == Ok(op.device))
    decreases op, 1
  {
    match op
    case Guard(d, body) =>
      SteadyGet(s);
      SteadySet(GetDevice(s).s, d);
      var entered := GuardExchange(s, d);
      if entered.r.Ok? {
        OpsRestore(entered.s, body);
        SteadyTry(RunOps(entered.s, body).s, entered.r.value);
      }
    case Record(d, ok) => OnDeviceKeeps(s, d, ok);
    case Block(d, ok) => OnDeviceKeeps(s, d, ok);
    case Destroy(d) => DestroyKeeps(s, d);
  }

  /** With a steady driver a well-nested run of guards and event operations throws exactly
      when one of them, at any depth, cannot be carried out; otherwise it ends on the
      device where it began.  It only adds used devices. */
  lemma {:induction false} OpsRestore(s: Devices, ops: seq<Op>)
    requires Sound(s) && OpsSafe(ops)
    ensures var ran := RunOps(s, ops);
            && Kept(s, ran.s) && !ran.ended && !ran.lost
            && (ran.threw <==> OpsFail(ops, s.driver))
            && (!ran.threw ==> Observed(ran.s) == Observed(s))
    decreases ops, 0
  {
    if ops != [] {
      OpRestores(s, ops[0]);
      if !RunOp(s, ops[0]).threw {
        OpsRestore(RunOp(s, ops[0]).s, ops[1..]);
      }
    }
  }

  // ----- The thread's own state -----

  lemma EmptyOrNot(devices: set<int>)
    ensures devices == {} || exists d :: d in devices
  {
    if forall d :: d !in devices {
      assert devices == {};
    }
  }

  /** Each method does what the function of the same name does, so that what is proved above
      holds of it; the clauses beside that equation say what a caller sees. */
  class DeviceThread {
    var target: int
    var context: int
    var used: set<int>
    var asks: nat
    const driver: Driver

    ghost function View(): Devices
      reads this
    {
      Devices(target, context, used, asks, driver)
    }

    constructor (driver: Driver)
      ensures View() == Devices(-1, -1, {}, 0, driver) && Valid(View())
    {
      this.driver := driver;
      target, context, used, asks := -1, -1, {}, 0;
    }

    method AclSet(d: int) returns (r: Result<()>)
      modifies this
      ensures Done(View(), r) == old(AclSetDevice(View(), d))
      ensures r.Ok? ==> context == d && d in used
    {
      var ok := 0 <= d <= MAX_DEVICE_INDEX && d in driver(asks);
      asks := asks + 1;
      if !ok {
        return Refused;
      }
      context := d;
      if d !in used {
        used := used + {d};
      }
      assert d in old(used) ==> used == old(used) + {d};
      r := Ok(());
    }

    method AclGet() returns (r: Result<int>)
      modifies this
      ensures Done(View(), r) == old(AclGetDevice(View()))
      ensures r.Ok? ==> r.value == context >= 0
    {
      if context >= 0 {
        return Ok(context);
      }
      var zero := AclSet(0);
      r := if zero.Ok? then Ok(0) else Refused;
    }

    method GetDeviceOf() returns (r: Result<int>)
      modifies this
      ensures Done(View(), r) == old(GetDevice(View()))
      ensures r == old(Observed(View())) && (r.Ok? ==> Observed(View()) == r)
    {
      if target >= 0 {
        return Ok(target);
      }
      r := AclGet();
    }

    method SetDeviceTo(d: int) returns (r: Result<()>)
      modifies this
      ensures Done(View(), r) == old(SetDevice(View(), d))
      ensures r.Ok? ==> Observed(View()) == Ok(d)
      ensures d >= 0 ==> target == -1
    {
      if d < 0 {
        return Threw;
      }
      target := -1;
      var cur := AclGet();
      if !cur.Ok? {
        return Threw;
      }
      if d == cur.value {
        return Ok(());
      }
      r := AclSet(d);
    }

    method MaybeSetDeviceTo(d: int) returns (r: Result<()>)
      modifies this
      ensures Done(View(), r) == old(MaybeSetDevice(View(), d))
      ensures r.Ok? && d >= 0 ==> Observed(View()) == Ok(d)
      ensures d !in old(used) ==> context == old(context) && used == old(used)
    {
      if d in used {
        r := SetDeviceTo(d);
      } else {
        target := d;
        r := Ok(());
      }
    }

    method ExchangeDeviceTo(to: int) returns (r: Result<int>)
      modifies this
      ensures Done(View(), r) == old(ExchangeDevice(View(), to))
      ensures r.Ok? && old(Valid(View())) ==> r == old(Observed(View())) && Observed(View()) == Ok(to)
    {
      ghost var before := View();
      if Valid(before) {
        ExchangeDeviceObserved(before, to);
      }
      var cur := target;
      target := -1;
      if cur < 0 {
        var got := AclGet();
        if !got.Ok? {
          return Threw;
        }
        if got.value == to {
          return got;
        }
        cur := got.value;
      }
      var set_ := AclSet(to);
      r := if set_.Ok? then Ok(cur) else Threw;
    }

    method MaybeExchangeDeviceTo(to: int) returns (r: Result<int>)
      modifies this
      ensures Done(View(), r) == old(MaybeExchangeDevice(View(), to))
      ensures target == old(target) || target == to
    {
      r := AclGet();
      if !r.Ok? {
        return Threw;
      }
      if r.value == to {
        return;
      }
      if to in used {
        var set_ := AclSet(to);
        if !set_.Ok? {
          r := Threw;
        }
      } else {
        target := to;
      }
    }

    method SetTarget() returns (r: Result<()>)
      modifies this
      ensures Done(View(), r) == old(SetTargetDevice(View()))
      ensures r.Ok? && old(Observed(View())).Ok? ==> Observed(View()) == old(Observed(View()))
    {
      if target < 0 {
        return Ok(());
      }
      r := SetDeviceTo(target);
      if !r.Ok? {
        r := Threw;
      }
    }

    method GuardEnter(d: int) returns (r: Result<int>)
      modifies this
      ensures Done(View(), r) == old(GuardExchange(View(), d))
      ensures r.Ok? ==> r == old(Observed(View())) && Observed(View()) == Ok(d)
    {
      r := GetDeviceOf();
      if !r.Ok? {
        return Threw;
      }
      if r.value != d {
        var set_ := SetDeviceTo(d);
        if !set_.Ok? {
          r := Threw;
        }
      }
    }

    /** A selection whose error is only warned about; the warning evaluates it again. */
    method TrySetTo(d: int) returns (ended: bool, warned: bool, lost: bool)
      modifies this
      ensures Tried(View(), ended, warned, lost) == old(TrySet(View(), d))
      ensures !ended && !lost ==> Observed(View()) == Ok(d)
    {
      var r := SetDeviceTo(d);
      ended, warned, lost := r.Threw?, r.Refused?, r.Threw?;
      if r.Refused? {
        r := SetDeviceTo(d);
        ended, lost := r.Threw?, !r.Ok?;
      }
    }

    /** Recording on, or waiting for, an event on a stream of device d. */
    method EventOn(d: int, eventOk: bool) returns (threw: bool)
      modifies this
      ensures Ran(View(), threw, false, false, false) == old(OnDevice(View(), d, eventOk))
      ensures !threw ==> Observed(View()) == old(Observed(View()))
    {
      var orig := GetDeviceOf();
      if !orig.Ok? {
        return true;
      }
      var moved := SetDeviceTo(d);
      if !moved.Ok? || !eventOk {
        return true;
      }
      var back := SetDeviceTo(orig.value);
      threw := !back.Ok?;
    }

    /** Destroying an event that was created on device d: whether this ended the process,
        whether it warned, and whether it failed to move back. */
    method DestroyEvent(d: int) returns (ended: bool, warned: bool, lost: bool)
      modifies this
      ensures Ran(View(), false, ended, warned, lost) == old(DestroyOnDevice(View(), d))
      ensures !ended && !lost && !warned ==> Observed(View()) == old(Observed(View()))
    {
      var orig := GetDeviceOf();
      var noDevice := !orig.Ok?;
      if noDevice {
        orig := GetDeviceOf();
      }
      var away, warnedAway, _ := TrySetTo(d);
      if !orig.Ok? || away {
        return true, true, true;
      }
      ended, warned, lost := TrySetTo(orig.value);
      warned := noDevice || warnedAway || warned;
    }

    /** refuses are the devices the driver does not reset.  Resetting a device destroys its
        context.  The first refusal ends the loop, and then every device still counts as
        used, also those that were reset before. */
    method ResetUsedDevices(refuses: set<int>) returns (ok: bool)
      requires Valid(View())
      modifies this
      ensures Valid(View()) && ok == (old(used) !! refuses)
      ensures ok ==> View() == old(View().(context := -1, used := {}))
      ensures !ok ==> View() == old(View()) || View() == old(View().(context := -1))
    {
      var rest := used;
      while rest != {}
        invariant used == old(used) && rest <= used && used - rest !! refuses
        invariant View() == old(View()) || View() == old(View().(context := -1))
        invariant context == -1 || context in rest
        decreases rest
      {
        EmptyOrNot(rest);
        var d :| d in rest;
        if d in refuses {
          return false;
        }
        if context == d {
          context := -1;
        }
        rest := rest - {d};
      }
      used := {};
      ok := true;
    }
  }
}
