/** The class `VirtualTimer` of src/virtual.timer.ts. Its fields are updated in
    place as in the source; every state-changing method is proved to leave the
    state that the corresponding TimerSpec function gives. The public methods
    and the drain step also keep the engine invariant; the protected helpers
    keep the containers consistent.
    Callbacks run after a drain step returns: a step hands back the callback
    to run once every container has been updated, and whatever the callback
    schedules or cancels is a later call on the same object. */
module VirtualTimers {
  import opened Wrappers
  import opened Base
  import opened Timeline
  import opened Utils
  import opened TimerSpec

  class VirtualTimer {
    var currentTime: int
    var timeline: seq<ExecutionInfo>
    var intervalLocationMap: map<nat, ExecutionInfo>
    var immediateExecSet: OrderedSet<ImmediateExecutionInfo>
    const callStackObserver: CallStackObserver
    /** The module-level id counter of src/utils.ts. */
    const ids: IdAllocator

    /** The engine's state as TimerSpec describes it. */
    function State(): TimerState
      reads this, immediateExecSet, callStackObserver
    {
      TimerState(currentTime, timeline, intervalLocationMap, immediateExecSet.elems, callStackObserver.IsOn())
    }

    /** The containers' own invariants, and an observer whose handler is set
        and whose stored handle is the host's pending continuation. */
    ghost predicate Consistent()
      reads this, immediateExecSet, callStackObserver
    {
      && immediateExecSet.Valid()
      && callStackObserver.Valid() && callStackObserver.Armed() && callStackObserver.hasHandler
      && Wellformed(State())
    }

    ghost predicate Valid()
      reads this, ids, immediateExecSet, callStackObserver
    {
      Consistent() && ids.Valid() && Inv(State(), ids.idNum)
    }

    /** `new VirtualTimer(options)`: the clock starts at `options.startTime`,
        or at the host's time `hostNow` when none is given. */
    constructor (startTime: Option<int>, hostNow: int, ids: IdAllocator)
      requires ids.Valid()
      ensures Valid() && this.ids == ids && ids.idNum == old(ids.idNum)
      ensures fresh(immediateExecSet) && fresh(callStackObserver)
      ensures State() == Initial(if startTime.Some? then startTime.value else hostNow)
    {
      currentTime := if startTime.Some? then startTime.value else hostNow;
      timeline := [];
      intervalLocationMap := map[];
      immediateExecSet := new OrderedSet();
      callStackObserver := new CallStackObserver();
      this.ids := ids;
      new;
      callStackObserver.SetHandler();
    }

    /** `now`: the virtual clock. */
    method Now() returns (t: int)
      ensures t == currentTime && t == State().currentTime
    {
      t := currentTime;
    }

    /** While work is pending, the observer's stored handle is a
        continuation the host still holds, so a drain step will run. */
    lemma PendingContinuation()
      requires Valid() && (timeline != [] || immediateExecSet.elems != [])
      ensures callStackObserver.immediate.Some?
      ensures callStackObserver.immediate.value in callStackObserver.pendingContinuations
    {
    }

    // -------------------------------------------------------------------------
    // The drain step

    /** `onCallStackEmpty`: one unit of work. Returns the callback to run. */
    method OnCallStackEmpty() returns (run: Option<CallbackId>)
      requires Valid()
      modifies this, immediateExecSet, callStackObserver
      ensures Valid() && immediateExecSet == old(immediateExecSet)
      ensures State() == Drain(old(State())).state && run == Drain(old(State())).run
      ensures callStackObserver.pendingContinuations <= old(callStackObserver.pendingContinuations)
      ensures State().observerOn ==> callStackObserver.immediate == old(callStackObserver.immediate)
    {
      ghost var s := State();
      DrainKeepsInv(s, ids.idNum);
      if immediateExecSet.elems != [] {
        WithoutFirst(s.immediates);
        var nextExec := SetPop(immediateExecSet);
        if nextExec.None? {
          assert false;
        }
        run := Some(nextExec.value.callback);
      } else if timeline != [] {
        var nextExec := timeline[0];
        timeline := Remove(timeline, KeyOf(nextExec));
        if nextExec.interval {
          RearmedKeyFree(s.timeline);
          ReserveIntervalExecution(Rearmed(nextExec));
        }
        currentTime := nextExec.time;
        run := Some(nextExec.callback);
      } else {
        callStackObserver.Off();
        run := None;
      }
    }

    /** The continuation registered by the observer, run by the host: the
        observer turns off and on again (a fresh continuation is pending
        before any callback runs), then the drain step runs. */
    method RunContinuation(h: nat) returns (run: Option<CallbackId>)
      requires Valid() && h in callStackObserver.pendingContinuations
      modifies this, immediateExecSet, callStackObserver
      ensures Valid() && immediateExecSet == old(immediateExecSet)
      ensures State() == Drain(old(State())).state && run == Drain(old(State())).run
      ensures h !in callStackObserver.pendingContinuations
      ensures State().observerOn ==>
        callStackObserver.immediate == Some(old(callStackObserver.nextHandle))
    {
      var callHandler := callStackObserver.Fire(h);
      run := OnCallStackEmpty();
    }

    // -------------------------------------------------------------------------
    // The protected helpers

    /** `reserveExecution` */
    method ReserveExecution(execInfo: ExecutionInfo)
      requires Consistent() && IdFree(timeline, execInfo.id)
      modifies this, callStackObserver
      ensures Consistent() && immediateExecSet == old(immediateExecSet)
      ensures KeyOf(execInfo) !in Keys(old(timeline))
      ensures State() == TimerSpec.ReserveExecution(old(State()), execInfo)
      ensures old(callStackObserver.immediate).Some? ==>
        callStackObserver.immediate == old(callStackObserver.immediate)
        && callStackObserver.pendingContinuations == old(callStackObserver.pendingContinuations)
    {
      IdFreeKeyFree(timeline, execInfo);
      timeline := Insert(timeline, execInfo);
      callStackObserver.On();
    }

    /** `cancelExecution` */
    method CancelExecution(execInfo: ExecutionInfo)
      requires Consistent()
      modifies this
      ensures Consistent() && immediateExecSet == old(immediateExecSet)
      ensures State() == TimerSpec.CancelExecution(old(State()), execInfo)
    {
      timeline := Remove(timeline, KeyOf(execInfo));
    }

    /** `reserveIntervalExecution` */
    method ReserveIntervalExecution(execInfo: ExecutionInfo)
      requires Consistent() && IdFree(timeline, execInfo.id)
      modifies this, callStackObserver
      ensures Consistent() && immediateExecSet == old(immediateExecSet)
      ensures KeyOf(execInfo) !in Keys(old(timeline))
      ensures State() == TimerSpec.ReserveIntervalExecution(old(State()), execInfo)
      ensures old(callStackObserver.immediate).Some? ==>
        callStackObserver.immediate == old(callStackObserver.immediate)
        && callStackObserver.pendingContinuations == old(callStackObserver.pendingContinuations)
    {
      ReserveExecution(execInfo);
      intervalLocationMap := intervalLocationMap[execInfo.id := execInfo];
    }

    /** `cancelIntervalExecution`: `thrown` reports the TypeError raised when
        the map has no entry for the id, before anything changes. */
    method CancelIntervalExecution(execInfo: ExecutionInfo) returns (thrown: bool)
      requires Consistent()
      modifies this
      ensures Consistent() && immediateExecSet == old(immediateExecSet)
      ensures thrown <==> execInfo.id !in old(intervalLocationMap)
      ensures State() == TimerSpec.ClearInterval(old(State()), execInfo)
    {
      if execInfo.id !in intervalLocationMap {
        thrown := true;
        return;
      }
      CancelExecution(intervalLocationMap[execInfo.id]);
      intervalLocationMap := intervalLocationMap - {execInfo.id};
      thrown := false;
    }

    /** `reserveImmediateExecution` */
    method ReserveImmediateExecution(execInfo: ImmediateExecutionInfo)
      requires Consistent()
      modifies immediateExecSet, callStackObserver
      ensures Consistent()
      ensures State() == TimerSpec.ReserveImmediateExecution(old(State()), execInfo)
    {
      immediateExecSet.Add(execInfo);
      callStackObserver.On();
    }

    /** `cancelImmediateExecution` */
    method CancelImmediateExecution(execInfo: ImmediateExecutionInfo)
      requires Consistent()
      modifies immediateExecSet
      ensures Consistent()
      ensures State() == TimerSpec.CancelImmediateExecution(old(State()), execInfo)
    {
      immediateExecSet.Delete(execInfo);
    }

    // -------------------------------------------------------------------------
    // The public operations

    /** `setTimeout(callback, ms)`: rejects an invalid `ms` before any change
        (no id is drawn); otherwise schedules one entry due `ms` after now. */
    method SetTimeout(callback: CallbackId, ms: MsArg) returns (r: Result<ExecutionInfo, TimerError>)
      requires Valid()
      modifies this, ids, callStackObserver
      ensures Valid() && immediateExecSet == old(immediateExecSet)
      ensures ValidateMs(ms).Failure? ==>
        r == Failure(InvalidMs) && State() == old(State()) && ids.idNum == old(ids.idNum)
      ensures ValidateMs(ms).Success? ==>
        && r == Success(TimeoutInfo(old(State()), old(ids.idNum), callback, ValidateMs(ms).value))
        && ids.idNum == old(ids.idNum) + 1
        && KeyOf(r.value) !in Keys(old(timeline))
        && State() == TimerSpec.ReserveExecution(old(State()), r.value)
    {
      var checked := ValidateMs(ms);
      if checked.Failure? {
        r := Failure(checked.error);
        return;
      }
      ghost var s := State();
      var id := ids.UniqueId();
      var now := Now();
      var execInfo := ExecutionInfo(id, callback, now + checked.value, checked.value, false);
      SetTimeoutKeepsInv(s, id, callback, checked.value);
      ReserveExecution(execInfo);
      r := Success(execInfo);
    }

    /** `clearTimeout`: removes key `[time, id]` if present. */
    method ClearTimeout(execInfo: ExecutionInfo)
      requires Valid()
      modifies this
      ensures Valid() && immediateExecSet == old(immediateExecSet)
      ensures State() == TimerSpec.CancelExecution(old(State()), execInfo)
    {
      ClearTimeoutKeepsInv(State(), ids.idNum, execInfo);
      CancelExecution(execInfo);
    }

    /** `setInterval(callback, ms)`: the same validation as `setTimeout`;
        schedules a recurring entry first due `ms` after now and records it in
        the interval map. */
    method SetInterval(callback: CallbackId, ms: MsArg) returns (r: Result<ExecutionInfo, TimerError>)
      requires Valid()
      modifies this, ids, callStackObserver
      ensures Valid() && immediateExecSet == old(immediateExecSet)
      ensures ValidateMs(ms).Failure? ==>
        r == Failure(InvalidMs) && State() == old(State()) && ids.idNum == old(ids.idNum)
      ensures ValidateMs(ms).Success? ==>
        && r == Success(IntervalInfo(old(State()), old(ids.idNum), callback, ValidateMs(ms).value))
        && ids.idNum == old(ids.idNum) + 1
        && KeyOf(r.value) !in Keys(old(timeline))
        && State() == TimerSpec.ReserveIntervalExecution(old(State()), r.value)
    {
      var checked := ValidateMs(ms);
      if checked.Failure? {
        r := Failure(checked.error);
        return;
      }
      ghost var s := State();
      var id := ids.UniqueId();
      var now := Now();
      var execInfo := ExecutionInfo(id, callback, now + checked.value, checked.value, true);
      SetIntervalKeepsInv(s, id, callback, checked.value);
      ReserveIntervalExecution(execInfo);
      r := Success(execInfo);
    }

    /** `clearInterval`: the error of an unknown id is swallowed. */
    method ClearInterval(execInfo: ExecutionInfo)
      requires Valid()
      modifies this
      ensures Valid() && immediateExecSet == old(immediateExecSet)
      ensures State() == TimerSpec.ClearInterval(old(State()), execInfo)
    {
      ClearIntervalKeepsInv(State(), ids.idNum, execInfo);
      var _ := CancelIntervalExecution(execInfo);
    }

    /** `setImmediate(callback)` */
    method SetImmediate(callback: CallbackId) returns (execInfo: ImmediateExecutionInfo)
      requires Valid()
      modifies ids, immediateExecSet, callStackObserver
      ensures Valid()
      ensures execInfo == ImmediateExecutionInfo(old(ids.idNum), callback)
      ensures ids.idNum == old(ids.idNum) + 1
      ensures State() == TimerSpec.ReserveImmediateExecution(old(State()), execInfo)
    {
      ghost var s := State();
      var id := ids.UniqueId();
      assert State() == s;
      execInfo := ImmediateExecutionInfo(id, callback);
      SetImmediateKeepsInv(s, id, callback);
      ReserveImmediateExecution(execInfo);
    }

    /** `clearImmediate` */
    method ClearImmediate(execInfo: ImmediateExecutionInfo)
      requires Valid()
      modifies immediateExecSet
      ensures Valid()
      ensures State() == TimerSpec.CancelImmediateExecution(old(State()), execInfo)
      ensures forall i :: 0 <= i < |old(immediateExecSet.elems)| && old(immediateExecSet.elems)[i] == execInfo ==>
        immediateExecSet.elems == old(immediateExecSet.elems)[..i] + old(immediateExecSet.elems)[i + 1..]
    {
      ClearImmediateKeepsInv(State(), ids.idNum, execInfo);
      ghost var before := immediateExecSet.elems;
      forall i | 0 <= i < |before| && before[i] == execInfo
        ensures Without(before, execInfo) == before[..i] + before[i + 1..]
      {
        WithoutAt(before, i);
      }
      CancelImmediateExecution(execInfo);
    }

    /** `clearAll`, with the host's `Date.now()` passed in as `hostNow`. */
    method ClearAll(hostNow: int)
      requires Valid()
      modifies this, callStackObserver
      ensures Valid() && fresh(immediateExecSet)
      ensures State() == TimerSpec.ClearAll(old(State()), hostNow)
    {
      ClearAllKeepsInv(State(), ids.idNum, hostNow);
      currentTime := hostNow;
      timeline := [];
      immediateExecSet := new OrderedSet();
      callStackObserver.Off();
    }
  }
}
