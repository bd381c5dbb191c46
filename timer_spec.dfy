/** The virtual timer engine of src/virtual.timer.ts as functions on its
    observable state. The class VirtualTimers.VirtualTimer is proved to change
    its fields exactly as these functions say; the lemmas here state what the
    engine promises. */
module TimerSpec {
  import opened Wrappers
  import opened Base
  import opened Timeline
  import opened Utils

  /** The `ms` argument of `setTimeout`/`setInterval`: omitted (or null), a
      finite whole number, or one of JavaScript's non-finite numbers.
      Fractional values are not modelled. */
  datatype MsArg = Missing | Finite(value: int) | NaN | PositiveInfinity | NegativeInfinity

  /** The `Error` thrown for an invalid `ms`. */
  datatype TimerError = InvalidMs

  /** `ms = ms ?? 0` followed by the finiteness and sign check. */
  function ValidateMs(ms: MsArg): (r: Result<nat, TimerError>)
    ensures r.Success? <==> ms.Missing? || (ms.Finite? && ms.value >= 0)
    ensures ms.Missing? ==> r == Success(0)
    ensures ms.Finite? && ms.value >= 0 ==> r == Success(ms.value)
  {
    match ms
    case Missing => Success(0)
    case Finite(n) => if n >= 0 then Success(n) else Failure(InvalidMs)
    case _ => Failure(InvalidMs)
  }

  /** The engine's state: the virtual clock, the timeline, the interval map,
      the immediate set in insertion order, and whether the call-stack
      observer is on. */
  datatype TimerState = TimerState(
    currentTime: int,
    timeline: seq<ExecutionInfo>,
    intervalLocationMap: map<nat, ExecutionInfo>,
    immediates: seq<ImmediateExecutionInfo>,
    observerOn: bool)

  /** The outcome of one drain step: the new state and the callback to run
      after every container has been updated. */
  datatype Step = Step(state: TimerState, run: Option<CallbackId>)

  function Initial(startTime: int): TimerState {
    TimerState(startTime, [], map[], [], false)
  }

  ghost predicate UniqueIds(t: seq<ExecutionInfo>) {
    forall x, y :: x in t && y in t && x.id == y.id ==> x == y
  }

  /** No pending timed entry has id `id`. */
  ghost predicate IdFree(t: seq<ExecutionInfo>, id: nat) {
    forall x :: x in t ==> x.id != id
  }

  /** An entry with a new id has a new key. */
  lemma IdFreeKeyFree(t: seq<ExecutionInfo>, e: ExecutionInfo)
    requires IdFree(t, e.id)
    ensures KeyOf(e) !in Keys(t)
  {
  }

  /** What the containers guarantee by construction. */
  ghost predicate Wellformed(s: TimerState) {
    Sorted(s.timeline) && UniqueIds(s.timeline) && Distinct(s.immediates)
  }

  /** The engine invariant, given the id counter's next value `nextId`. */
  ghost predicate Inv(s: TimerState, nextId: nat) {
    && Wellformed(s)
    && (forall a, b :: a in s.immediates && b in s.immediates && a.id == b.id ==> a == b)
    && (forall x, a :: x in s.timeline && a in s.immediates ==> x.id != a.id)
    && (forall a :: a in s.immediates ==> a.id < nextId)
    && (forall id :: id in s.intervalLocationMap ==> id < nextId)
    // pending entries are never due before the clock
    && (forall x :: x in s.timeline ==> x.id < nextId && s.currentTime <= x.time)
    // the interval map points at the live entry of every pending interval
    && (forall x :: x in s.timeline && x.interval ==>
          x.id in s.intervalLocationMap && s.intervalLocationMap[x.id] == x)
    // pending work always has a continuation to run it
    && (s.timeline != [] || s.immediates != [] ==> s.observerOn)
  }

  // ---------------------------------------------------------------------------
  // The protected operations

  /** `reserveExecution`: insert under `[time, id]` and turn the observer on. */
  function ReserveExecution(s: TimerState, e: ExecutionInfo): TimerState
    requires Sorted(s.timeline) && KeyOf(e) !in Keys(s.timeline)
  {
    s.(timeline := Insert(s.timeline, e), observerOn := true)
  }

  /** `cancelExecution` and `clearTimeout`: remove key `[time, id]` if present. */
  function CancelExecution(s: TimerState, e: ExecutionInfo): TimerState
    requires Sorted(s.timeline)
  {
    s.(timeline := Remove(s.timeline, KeyOf(e)))
  }

  /** `reserveIntervalExecution`: reserve, then record the entry in the map. */
  function ReserveIntervalExecution(s: TimerState, e: ExecutionInfo): TimerState
    requires Sorted(s.timeline) && KeyOf(e) !in Keys(s.timeline)
  {
    ReserveExecution(s, e).(intervalLocationMap := s.intervalLocationMap[e.id := e])
  }

  /** `clearInterval`: cancel the entry the map holds for the id and delete the
      record. For an unknown id `cancelIntervalExecution` throws before
      changing anything and `clearInterval` swallows the error. */
  function ClearInterval(s: TimerState, e: ExecutionInfo): TimerState
    requires Sorted(s.timeline)
  {
    if e.id in s.intervalLocationMap then
      CancelExecution(s, s.intervalLocationMap[e.id])
        .(intervalLocationMap := s.intervalLocationMap - {e.id})
    else
      s
  }

  /** `reserveImmediateExecution`: add to the set and turn the observer on. */
  function ReserveImmediateExecution(s: TimerState, i: ImmediateExecutionInfo): TimerState {
    s.(immediates := Added(s.immediates, i), observerOn := true)
  }

  /** `cancelImmediateExecution` and `clearImmediate`. */
  function CancelImmediateExecution(s: TimerState, i: ImmediateExecutionInfo): TimerState {
    s.(immediates := Without(s.immediates, i))
  }

  /** The entry `setTimeout` builds for a validated `ms`; `Math.max(0,
      Math.trunc(ms))` is `ms` itself for a whole `ms >= 0`. */
  function TimeoutInfo(s: TimerState, id: nat, callback: CallbackId, ms: nat): ExecutionInfo {
    ExecutionInfo(id, callback, s.currentTime + ms, ms, false)
  }

  /** The entry `setInterval` builds. Its first due time adds the truncated
      `ms`, while every re-arm adds the raw `ms`; the two agree because only
      whole `ms` are modelled. */
  function IntervalInfo(s: TimerState, id: nat, callback: CallbackId, ms: nat): ExecutionInfo {
    ExecutionInfo(id, callback, s.currentTime + ms, ms, true)
  }

  /** `clearAll`: empty timeline and immediate set, the clock jumps to the
      host's time, the observer is off; the interval map is kept. */
  function ClearAll(s: TimerState, hostNow: int): (r: TimerState)
    ensures r.timeline == [] && r.immediates == [] && !r.observerOn
    ensures r.currentTime == hostNow && r.intervalLocationMap == s.intervalLocationMap
  {
    TimerState(hostNow, [], s.intervalLocationMap, [], false)
  }

  // ---------------------------------------------------------------------------
  // The drain step

  /** The next occurrence of an interval entry. */
  function Rearmed(e: ExecutionInfo): ExecutionInfo {
    e.(time := e.time + e.ms)
  }

  /** Removing the first entry frees the key of its next occurrence, since no
      other entry shares its id. */
  lemma RearmedKeyFree(t: seq<ExecutionInfo>)
    requires Sorted(t) && UniqueIds(t) && t != []
    ensures IdFree(Remove(t, KeyOf(t[0])), t[0].id)
    ensures KeyOf(Rearmed(t[0])) !in Keys(Remove(t, KeyOf(t[0])))
  {
    var r := Remove(t, KeyOf(t[0]));
    forall x | x in r ensures x.id != t[0].id {
      assert x in t && x != t[0];
    }
  }

  /** `onCallStackEmpty`: pop and run the oldest immediate; otherwise remove
      the first timeline entry, re-arm it if it is an interval, move the clock
      to its due time and run it; otherwise turn the observer off. */
  function Drain(s: TimerState): (r: Step)
    requires Wellformed(s)
    ensures Wellformed(r.state)
    ensures r.run.Some? <==> s.timeline != [] || s.immediates != []
  {
    if s.immediates != [] then
      var next := s.immediates[0];
      Step(s.(immediates := Without(s.immediates, next)), Some(next.callback))
    else if s.timeline != [] then
      var next := s.timeline[0];
      var rest := CancelExecution(s, next);
      RearmedKeyFree(s.timeline);
      var armed := if next.interval then ReserveIntervalExecution(rest, Rearmed(next)) else rest;
      Step(armed.(currentTime := next.time), Some(next.callback))
    else
      Step(s.(observerOn := false), None)
  }

  /** `n` drain steps in a row, with nothing scheduled in between. */
  function Drains(s: TimerState, n: nat): (r: TimerState)
    requires Wellformed(s)
    ensures Wellformed(r)
    decreases n
  {
    if n == 0 then s else Drains(Drain(s).state, n - 1)
  }

  // ---------------------------------------------------------------------------
  // Ordering of a drain step

  /** With immediates pending, a step runs only the oldest one: the timeline,
      the interval map and the clock are untouched, so an immediate runs before
      any timed entry, even one due now. */
  lemma DrainRunsOldestImmediate(s: TimerState)
    requires Wellformed(s) && s.immediates != []
    ensures Drain(s).run == Some(s.immediates[0].callback)
    ensures Drain(s).state == s.(immediates := s.immediates[1..])
  {
    WithoutFirst(s.immediates);
  }

  /** Without immediates, a step removes the entry with the least `(time, id)`,
      sets the clock to its due time and runs it; an interval entry is re-armed
      at `time + ms` and the map points at the new entry before the callback
      runs; every other entry stays pending. */
  lemma DrainFiresEarliest(s: TimerState)
    requires Wellformed(s) && s.immediates == [] && s.timeline != []
    ensures var e := s.timeline[0];
      && (forall x :: x in s.timeline && x != e ==> KeyLess(KeyOf(e), KeyOf(x)))
      && Drain(s).run == Some(e.callback)
      && Drain(s).state.currentTime == e.time
      && Drain(s).state.immediates == []
      && (forall x :: x in Drain(s).state.timeline <==>
            (x in s.timeline && x != e) || (e.interval && x == Rearmed(e)))
      && (e.interval ==> Drain(s).state.intervalLocationMap == s.intervalLocationMap[e.id := Rearmed(e)])
      && (!e.interval ==> Drain(s).state.intervalLocationMap == s.intervalLocationMap)
  {
    var e := s.timeline[0];
    forall x | x in s.timeline && x != e ensures KeyLess(KeyOf(e), KeyOf(x)) {
      FirstIsLeast(s.timeline, x);
    }
    forall x | x in s.timeline && KeyOf(x) == KeyOf(e) ensures x == e {
      if x != e {
        FirstIsLeast(s.timeline, x);
      }
    }
  }

  /** With nothing pending, a step runs nothing and turns the observer off. */
  lemma DrainWhenIdle(s: TimerState)
    requires Wellformed(s) && s.immediates == [] && s.timeline == []
    ensures Drain(s).run == None && Drain(s).state == s.(observerOn := false)
  {
  }

  /** The clock never moves backwards across a drain step. */
  lemma DrainClockMonotone(s: TimerState, nextId: nat)
    requires Inv(s, nextId)
    ensures s.currentTime <= Drain(s).state.currentTime
  {
    if s.immediates == [] && s.timeline != [] {
      assert s.timeline[0] in s.timeline;
    }
  }

  // ---------------------------------------------------------------------------
  // The invariant is kept by every operation

  /** A fresh id gives a key not yet in the timeline. */
  lemma FreshKey(s: TimerState, nextId: nat, e: ExecutionInfo)
    requires Inv(s, nextId) && e.id == nextId
    ensures KeyOf(e) !in Keys(s.timeline)
  {
    forall x | x in s.timeline ensures KeyOf(x) != KeyOf(e) {
    }
  }

  lemma SetTimeoutKeepsInv(s: TimerState, nextId: nat, callback: CallbackId, ms: nat)
    requires Inv(s, nextId)
    ensures KeyOf(TimeoutInfo(s, nextId, callback, ms)) !in Keys(s.timeline)
    ensures Inv(ReserveExecution(s, TimeoutInfo(s, nextId, callback, ms)), nextId + 1)
  {
    FreshKey(s, nextId, TimeoutInfo(s, nextId, callback, ms));
  }

  lemma SetIntervalKeepsInv(s: TimerState, nextId: nat, callback: CallbackId, ms: nat)
    requires Inv(s, nextId)
    ensures KeyOf(IntervalInfo(s, nextId, callback, ms)) !in Keys(s.timeline)
    ensures Inv(ReserveIntervalExecution(s, IntervalInfo(s, nextId, callback, ms)), nextId + 1)
  {
    var e := IntervalInfo(s, nextId, callback, ms);
    FreshKey(s, nextId, e);
    var r := ReserveIntervalExecution(s, e);
    forall x | x in r.timeline && x.interval
      ensures x.id in r.intervalLocationMap && r.intervalLocationMap[x.id] == x
    {
      if x != e {
        assert x.id < nextId;
      }
    }
  }

  lemma SetImmediateKeepsInv(s: TimerState, nextId: nat, callback: CallbackId)
    requires Inv(s, nextId)
    ensures Inv(ReserveImmediateExecution(s, ImmediateExecutionInfo(nextId, callback)), nextId + 1)
  {
  }

  lemma ClearTimeoutKeepsInv(s: TimerState, nextId: nat, e: ExecutionInfo)
    requires Inv(s, nextId)
    ensures Inv(CancelExecution(s, e), nextId)
  {
  }

  lemma ClearIntervalKeepsInv(s: TimerState, nextId: nat, e: ExecutionInfo)
    requires Inv(s, nextId)
    ensures Inv(ClearInterval(s, e), nextId)
  {
    if e.id in s.intervalLocationMap {
      var r := ClearInterval(s, e);
      var live := s.intervalLocationMap[e.id];
      forall x | x in r.timeline && x.interval
        ensures x.id in r.intervalLocationMap && r.intervalLocationMap[x.id] == x
      {
        assert x in s.timeline && KeyOf(x) != KeyOf(live);
        assert s.intervalLocationMap[x.id] == x;
      }
    }
  }

  lemma ClearImmediateKeepsInv(s: TimerState, nextId: nat, i: ImmediateExecutionInfo)
    requires Inv(s, nextId)
    ensures Inv(CancelImmediateExecution(s, i), nextId)
  {
  }

  lemma ClearAllKeepsInv(s: TimerState, nextId: nat, hostNow: int)
    requires Inv(s, nextId)
    ensures Inv(ClearAll(s, hostNow), nextId)
  {
  }

  lemma DrainKeepsInv(s: TimerState, nextId: nat)
    requires Inv(s, nextId)
    ensures Inv(Drain(s).state, nextId)
  {
    if s.immediates != [] {
    } else if s.timeline != [] {
      DrainFiresEarliest(s);
      var e := s.timeline[0];
      var r := Drain(s).state;
      forall x | x in r.timeline ensures x.id < nextId && r.currentTime <= x.time {
        if x != Rearmed(e) || !e.interval {
          assert x in s.timeline && x != e;
        }
      }
      forall x | x in r.timeline && x.interval
        ensures x.id in r.intervalLocationMap && r.intervalLocationMap[x.id] == x
      {
        if !(e.interval && x == Rearmed(e)) {
          assert x in s.timeline && x != e;
          assert x.id != e.id;
        }
      }
    }
  }

  // ---------------------------------------------------------------------------
  // Cancellation

  /** `clearTimeout` removes only key `[time, id]`; an absent key (already
      fired or cancelled) changes nothing, so a second call is a no-op. */
  lemma ClearTimeoutIdempotent(s: TimerState, e: ExecutionInfo)
    requires Sorted(s.timeline)
    ensures forall x :: x in CancelExecution(s, e).timeline <==> x in s.timeline && KeyOf(x) != KeyOf(e)
    ensures KeyOf(e) !in Keys(s.timeline) ==> CancelExecution(s, e) == s
    ensures CancelExecution(CancelExecution(s, e), e) == CancelExecution(s, e)
  {
  }

  /** `clearInterval` of an unknown id changes nothing, so a second call is a
      no-op. */
  lemma ClearIntervalIdempotent(s: TimerState, e: ExecutionInfo)
    requires Sorted(s.timeline)
    ensures e.id !in s.intervalLocationMap ==> ClearInterval(s, e) == s
    ensures ClearInterval(ClearInterval(s, e), e) == ClearInterval(s, e)
  {
  }

  /** `clearInterval` leaves no pending occurrence of the interval. */
  lemma ClearIntervalRemovesLiveEntry(s: TimerState, nextId: nat, e: ExecutionInfo)
    requires Inv(s, nextId)
    ensures forall x :: x in ClearInterval(s, e).timeline ==> !(x.interval && x.id == e.id)
    ensures e.id !in ClearInterval(s, e).intervalLocationMap
  {
    forall x | x in ClearInterval(s, e).timeline ensures !(x.interval && x.id == e.id) {
      assert x in s.timeline;
    }
  }

  /** A callback that clears its own interval cancels the occurrence re-armed
      just before it ran: no occurrence of that interval is left. */
  lemma ClearIntervalFromItsCallback(s: TimerState, nextId: nat, handle: ExecutionInfo)
    requires Inv(s, nextId) && s.immediates == [] && s.timeline != []
    requires s.timeline[0].interval && handle.id == s.timeline[0].id
    ensures Drain(s).run == Some(s.timeline[0].callback)
    ensures forall x :: x in ClearInterval(Drain(s).state, handle).timeline ==> x.id != handle.id
  {
    var e := s.timeline[0];
    DrainFiresEarliest(s);
    DrainKeepsInv(s, nextId);
    var r := Drain(s).state;
    assert r.intervalLocationMap[handle.id] == Rearmed(e);
    forall x | x in ClearInterval(r, handle).timeline ensures x.id != handle.id {
      assert x in r.timeline && KeyOf(x) != KeyOf(Rearmed(e));
      if x != Rearmed(e) {
        assert x in s.timeline && x != e;
      }
    }
  }

  /** `clearImmediate` deletes only that task; a task no longer pending
      changes nothing, so a second call is a no-op. */
  lemma ClearImmediateIdempotent(s: TimerState, i: ImmediateExecutionInfo)
    ensures i !in s.immediates ==> CancelImmediateExecution(s, i) == s
    ensures CancelImmediateExecution(CancelImmediateExecution(s, i), i) == CancelImmediateExecution(s, i)
  {
    if i !in s.immediates {
      WithoutAbsent(s.immediates, i);
    }
    WithoutIdempotent(s.immediates, i);
  }

  // ---------------------------------------------------------------------------
  // Intervals

  /** A state whose only pending work is interval entry `e`. */
  ghost predicate OnlyInterval(s: TimerState, e: ExecutionInfo) {
    s.immediates == [] && s.timeline == [e] && e.interval
  }

  /** One step with an interval alone fires it and leaves its next occurrence
      alone. */
  lemma DrainLoneInterval(s: TimerState, e: ExecutionInfo)
    requires OnlyInterval(s, e)
    ensures OnlyInterval(Drain(s).state, Rearmed(e))
    ensures Drain(s).state.currentTime == e.time
    ensures Drain(s).run == Some(e.callback)
  {
    assert Sorted(s.timeline);
    assert Remove([e], KeyOf(e)) == [];
  }

  /** Draining an interval alone: after `n` steps its next occurrence is due at
      `time + n * ms` (re-arming adds to the fired due time, so nothing
      drifts), and the `n`-th step set the clock to `time + (n - 1) * ms`. */
  lemma {:induction false} IntervalFiresEveryPeriod(s: TimerState, e: ExecutionInfo, n: nat)
    requires OnlyInterval(s, e)
    ensures OnlyInterval(Drains(s, n), e.(time := e.time + n * e.ms))
    ensures n > 0 ==> Drains(s, n).currentTime == e.time + (n - 1) * e.ms
    ensures Drain(Drains(s, n)).run == Some(e.callback)
    decreases n
  {
    if n == 0 {
      DrainLoneInterval(s, e);
    } else {
      DrainLoneInterval(s, e);
      var s1 := Drain(s).state;
      IntervalFiresEveryPeriod(s1, Rearmed(e), n - 1);
      assert Drains(s, n) == Drains(s1, n - 1);
      assert e.time + e.ms + (n - 1) * e.ms == e.time + n * e.ms;
      if n > 1 {
        assert e.time + e.ms + (n - 2) * e.ms == e.time + (n - 1) * e.ms;
      }
    }
  }

  /** `setInterval(callback, p)` on an idle engine at clock `t0`: the `k`-th
      drain step runs the callback and sets the clock to `t0 + k * p`. */
  lemma SetIntervalNthFiring(s: TimerState, id: nat, callback: CallbackId, p: nat, k: nat)
    requires Sorted(s.timeline) && s.timeline == [] && s.immediates == [] && k >= 1
    ensures var e := IntervalInfo(s, id, callback, p);
      var armed := ReserveIntervalExecution(s, e);
      && Drain(Drains(armed, k - 1)).run == Some(callback)
      && Drains(armed, k).currentTime == s.currentTime + k * p
  {
    var e := IntervalInfo(s, id, callback, p);
    var armed := ReserveIntervalExecution(s, e);
    assert OnlyInterval(armed, e);
    IntervalFiresEveryPeriod(armed, e, k - 1);
    IntervalFiresEveryPeriod(armed, e, k);
    assert s.currentTime + p + (k - 1) * p == s.currentTime + k * p;
  }

  /** The invariant holds after any number of drain steps. */
  lemma {:induction false} DrainsKeepInv(s: TimerState, nextId: nat, n: nat)
    requires Inv(s, nextId)
    ensures Inv(Drains(s, n), nextId)
    decreases n
  {
    if n > 0 {
      DrainKeepsInv(s, nextId);
      DrainsKeepInv(Drain(s).state, nextId, n - 1);
    }
  }

  /** Under the invariant, the clock never decreases across any number of
      drain steps. */
  lemma {:induction false} DrainsClockMonotone(s: TimerState, nextId: nat, n: nat)
    requires Inv(s, nextId)
    ensures s.currentTime <= Drains(s, n).currentTime
    decreases n
  {
    if n > 0 {
      DrainClockMonotone(s, nextId);
      DrainKeepsInv(s, nextId);
      DrainsClockMonotone(Drain(s).state, nextId, n - 1);
    }
  }
}
