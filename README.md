# vtimer: a verified model of the virtual timer engine

vtimer is a drop-in replacement for `setTimeout`, `setInterval` and
`setImmediate` that runs on a virtual clock. The clock advances only when a
scheduled callback fires, so time-dependent code can be tested without
waiting. This project models the engine, the class `VirtualTimer` of
`src/virtual.timer.ts`, together with the helpers it uses from
`src/utils.ts`. It then proves the engine's ordering rules and invariants.

The engine keeps four pieces of state:

- the virtual clock `currentTime`;
- a timeline of timed entries ordered by `(time, id)`;
- `intervalLocationMap`, which maps an interval's id to its live entry;
- an insertion-ordered set of immediate tasks.

A call-stack observer keeps one host continuation registered while it is on.
Each time that continuation runs, the engine does exactly one unit of work:

- If any immediates are pending, it runs the oldest one.
- Otherwise it fires the first timeline entry. An interval entry is re-armed
  at `time + ms`, and the clock moves to the entry's due time. All of this
  happens before the callback runs.
- Otherwise it switches the observer off.

Files and modules:

- `wrappers.dfy` (`Wrappers`): `Option` and `Result`.
- `base.dfy` (`Base`): the records of `src/base.ts`. Callbacks are opaque ids.
- `utils.dfy` (`Utils`): the shared id counter (`IdAllocator`). JavaScript's
  `Set` is modelled as an insertion-ordered sequence (`OrderedSet`, `Added`,
  `Without`). The module also holds `SetPop` and `CallStackObserver`. The host
  side of `setImmediate` is modelled by the set of pending continuations and a
  handle counter.
- `timeline.dfy` (`Timeline`): the persistent red-black tree, seen as the
  sorted sequence of its entries. Its `insert` and `remove` are functions
  whose results replace the field, as in the source.
- `js_key_order.dfy` (`JsKeyOrder`): the key order as written (see Findings).
- `timer_spec.dfy` (`TimerSpec`): the engine as functions on its observable
  state (`TimerState`). The file also holds the invariant `Inv` and the lemmas
  about ordering, cancellation, intervals and the clock.
- `virtual_timer.dfy` (`VirtualTimers`): the class `VirtualTimer`. Its methods
  update the fields in place, and each state-changing method is proved to
  produce the state that the matching `TimerSpec` function gives. The public
  methods and the drain step (`OnCallStackEmpty`, `RunContinuation`) also keep
  `Inv`. The protected helpers (`ReserveExecution`, `CancelExecution`,
  `ReserveIntervalExecution`, `CancelIntervalExecution`,
  `ReserveImmediateExecution`, `CancelImmediateExecution`) keep only the
  containers' consistency (`Consistent`); their callers supply the rest of
  `Inv`.
- `scenarios.dfy` (`Scenarios`): the behaviours the test files check.

Modelling choices:

- `Date.now()` is the parameter `hostNow`.
- The `ms` argument is an `MsArg`: it is missing, a whole number, `NaN` or
  plus or minus infinity.
- The timeline's order is numeric and lexicographic on `(time, id)`. This is
  an assumption about the intended order (see Findings).

Points where the code's behaviour is easy to misread:

- `clearAll` keeps `intervalLocationMap`.
- A cancel never turns the observer off. Only an idle drain step or
  `clearAll` does that.
- A drain step with nothing pending turns the observer off. It is not an
  error.
- A handle is the `ExecutionInfo` record itself. So `clearTimeout` removes the
  key `[time, id]` that the handle carries.
- The first due time of an interval uses `trunc(ms)`. Every re-arm uses the
  raw `ms`.

## Model

| member | source | states |
|---|---|---|
| `Utils.IdAllocator.constructor` | src/utils.ts:1 | the counter starts at 1 |
| `Utils.IdAllocator.UniqueId` | src/utils.ts:2-4 | returns the counter's value and leaves it one higher, so ids start at 1 and increase |
| `Utils.Added` | src/virtual.timer.ts:80 | `Set.add` keeps the set free of duplicates; its members are the old ones plus the new one; adding a present element changes nothing; a new element goes last |
| `Utils.Without` | src/utils.ts:8 | `Set.delete` removes exactly that element and keeps the set free of duplicates |
| `Utils.WithoutAt` | src/virtual.timer.ts:85 | deleting the element at position `i` of a set leaves the elements before and after it in their insertion order |
| `Utils.WithoutAbsent` | src/virtual.timer.ts:84-86 | deleting an element that is not present changes nothing |
| `Utils.WithoutFirst` | src/utils.ts:6-10 | in a set, deleting the first-inserted element leaves the rest in order |
| `Utils.WithoutIdempotent` | src/virtual.timer.ts:149-153 | deleting twice is the same as deleting once |
| `Utils.OrderedSet.constructor` | src/virtual.timer.ts:24 | a new set is empty |
| `Utils.OrderedSet.Add` | src/virtual.timer.ts:80 | the set becomes `Added(old, x)` and stays duplicate-free |
| `Utils.OrderedSet.Delete` | src/virtual.timer.ts:85 | the set becomes `Without(old, x)` and stays duplicate-free |
| `Utils.SetPop` | src/utils.ts:6-10 | on a non-empty set, returns the first-inserted element and removes only it; on an empty set, returns `undefined` and leaves the set empty |
| `Utils.CallStackObserver.constructor` | src/utils.ts:12-16 | a new observer is off, has no handler and holds no continuation |
| `Utils.CallStackObserver.IsOn` | src/utils.ts:18-20 | while the stored handle is the host's continuation, `isOn` is true exactly when a continuation is pending |
| `Utils.CallStackObserver.SetHandler` | src/virtual.timer.ts:27 | sets `onCallStackEmpty` and changes nothing else |
| `Utils.CallStackObserver.On` | src/utils.ts:22-32 | when already on, nothing changes; otherwise exactly one fresh continuation is registered and stored |
| `Utils.CallStackObserver.Off` | src/utils.ts:34-37 | afterwards the observer is off, and the stored continuation, if any, is cleared with the host |
| `Utils.CallStackObserver.Fire` | src/utils.ts:24-30 | the fired continuation is consumed; with a handler set, the observer turns off and on, so it holds exactly one fresh continuation before the handler runs; without one, nothing else changes |
| `Timeline.FirstIsLeast` | src/virtual.timer.ts:45 | the first entry of the ordered timeline has the least `(time, id)` key |
| `Timeline.Insert` | src/virtual.timer.ts:61 | inserting an entry with a new key keeps the timeline sorted, and its entries are the old ones plus the new one |
| `Timeline.Remove` | src/virtual.timer.ts:66 | removing a key keeps the timeline sorted and drops exactly the entry with that key; an absent key leaves the timeline unchanged |
| `JsKeyOrder.JsKeyOrderMisordersDueTimes` | src/virtual.timer.ts:22 | as written, the default comparator puts key `[10000, 1]` before `[9, 2]`, which is the reverse of the numeric order |
| `TimerSpec.ValidateMs` | src/virtual.timer.ts:91-94 | a missing `ms` counts as 0; the value is accepted exactly when it is finite and at least 0; negative numbers, `NaN` and infinities are rejected |
| `TimerSpec.ClearAll` | src/virtual.timer.ts:155-160 | the timeline and the immediate set are empty, the clock reads the host's time, the observer is off and the interval map is kept |
| `TimerSpec.RearmedKeyFree` | src/virtual.timer.ts:47-50 | after the fired entry is removed, no pending entry shares its id, so its next occurrence has a free key |
| `TimerSpec.Drain` | src/virtual.timer.ts:34-58 | a drain step keeps the containers well formed, and it runs a callback exactly when work is pending |
| `TimerSpec.DrainRunsOldestImmediate` | src/virtual.timer.ts:36-43 | with immediates pending, the step runs the oldest one and removes only it; timeline, interval map and clock are unchanged |
| `TimerSpec.DrainFiresEarliest` | src/virtual.timer.ts:44-54 | with no immediates, the step fires the entry with the least `(time, id)` and sets the clock to its due time; the other entries stay pending; an interval is re-armed at `time + ms` and the map points at the new entry |
| `TimerSpec.DrainWhenIdle` | src/virtual.timer.ts:55-57 | with nothing pending, the step runs nothing and turns the observer off |
| `TimerSpec.DrainClockMonotone` | src/virtual.timer.ts:52 | under the invariant, the clock never decreases across a drain step |
| `TimerSpec.FreshKey` | src/virtual.timer.ts:97 | an entry with a freshly drawn id has a key not yet in the timeline |
| `TimerSpec.SetTimeoutKeepsInv` | src/virtual.timer.ts:96-104 | scheduling a timeout with a fresh id keeps the invariant, with the counter one higher |
| `TimerSpec.SetIntervalKeepsInv` | src/virtual.timer.ts:121-129 | scheduling an interval with a fresh id keeps the invariant, and the map points at the new entry |
| `TimerSpec.SetImmediateKeepsInv` | src/virtual.timer.ts:141-146 | scheduling an immediate with a fresh id keeps the invariant |
| `TimerSpec.ClearTimeoutKeepsInv` | src/virtual.timer.ts:107-111 | `clearTimeout` keeps the invariant |
| `TimerSpec.ClearIntervalKeepsInv` | src/virtual.timer.ts:132-136 | `clearInterval` keeps the invariant |
| `TimerSpec.ClearImmediateKeepsInv` | src/virtual.timer.ts:149-153 | `clearImmediate` keeps the invariant |
| `TimerSpec.ClearAllKeepsInv` | src/virtual.timer.ts:155-160 | `clearAll` keeps the invariant, although it keeps stale interval records |
| `TimerSpec.DrainKeepsInv` | src/virtual.timer.ts:34-58 | a drain step keeps the invariant: the timeline stays sorted, ids stay unique, no entry is due before the clock, every pending interval is mapped to its live entry, and pending work keeps the observer on |
| `TimerSpec.DrainsKeepInv` | src/virtual.timer.ts:34-58 | the invariant holds after any number of drain steps |
| `TimerSpec.DrainsClockMonotone` | src/virtual.timer.ts:52 | under the invariant, the clock never decreases across any number of drain steps |
| `TimerSpec.ClearTimeoutIdempotent` | src/virtual.timer.ts:107-111 | `clearTimeout` removes only key `[time, id]`; an absent key changes nothing; a second call is a no-op |
| `TimerSpec.ClearIntervalIdempotent` | src/virtual.timer.ts:132-136 | `clearInterval` with an unknown id changes nothing; a second call is a no-op |
| `TimerSpec.ClearIntervalRemovesLiveEntry` | src/virtual.timer.ts:74-77 | after `clearInterval`, no occurrence of that interval is pending and its map record is gone |
| `TimerSpec.ClearIntervalFromItsCallback` | src/virtual.timer.ts:48-51 | when an interval's callback clears its own handle, the occurrence re-armed before the callback is removed, so no entry with that id is left |
| `TimerSpec.ClearImmediateIdempotent` | src/virtual.timer.ts:149-153 | `clearImmediate` of a task that is not pending changes nothing; a second call is a no-op |
| `TimerSpec.DrainLoneInterval` | src/virtual.timer.ts:48-53 | a step with a lone interval fires it at its due time, and its next occurrence is then the only pending entry |
| `TimerSpec.IntervalFiresEveryPeriod` | src/virtual.timer.ts:49 | after `n` steps, a lone interval's next occurrence is due at `time + n * ms`; the `n`-th step set the clock to `time + (n - 1) * ms`; each step runs its callback |
| `TimerSpec.SetIntervalNthFiring` | src/virtual.timer.ts:121-128 | an interval with period `p` set at clock `t0` on an idle engine runs on its `k`-th step, with the clock at `t0 + k * p`, so it does not drift |
| `VirtualTimers.VirtualTimer.constructor` | src/virtual.timer.ts:20-28 | the clock starts at `startTime`, or at the host's time when none is given; all containers are empty; the observer is off and its handler is set |
| `VirtualTimers.VirtualTimer.Now` | src/virtual.timer.ts:30-32 | returns the virtual clock |
| `VirtualTimers.VirtualTimer.PendingContinuation` | src/virtual.timer.ts:62 | while a timed entry or an immediate is pending, the observer stores a handle that is a continuation the host still holds, so a drain step will run |
| `VirtualTimers.VirtualTimer.OnCallStackEmpty` | src/virtual.timer.ts:34-58 | the fields become `Drain(old state)`, the callback returned is the one `Drain` picks, and the invariant is kept |
| `VirtualTimers.VirtualTimer.RunContinuation` | src/utils.ts:24-30 | running the pending continuation `h` uses it up, performs exactly one drain step, and while the observer stays on its handle is the fresh one registered by the re-arm |
| `VirtualTimers.VirtualTimer.ReserveExecution` | src/virtual.timer.ts:60-63 | the entry is inserted under `[time, id]` and the observer is on |
| `VirtualTimers.VirtualTimer.CancelExecution` | src/virtual.timer.ts:65-67 | key `[time, id]` is removed if present |
| `VirtualTimers.VirtualTimer.ReserveIntervalExecution` | src/virtual.timer.ts:69-72 | the entry is inserted and recorded in the interval map under its id |
| `VirtualTimers.VirtualTimer.CancelIntervalExecution` | src/virtual.timer.ts:74-77 | throws, changing nothing, exactly when the id is unknown; otherwise removes the live entry and the map record |
| `VirtualTimers.VirtualTimer.ReserveImmediateExecution` | src/virtual.timer.ts:79-82 | the task is added to the set and the observer is on |
| `VirtualTimers.VirtualTimer.CancelImmediateExecution` | src/virtual.timer.ts:84-86 | the task is deleted from the set |
| `VirtualTimers.VirtualTimer.SetTimeout` | src/virtual.timer.ts:90-105 | rejects an invalid `ms` before any change, without drawing an id; otherwise adds one entry with a fresh id, `time = now + ms` and `interval = false`; clock and immediates are unchanged |
| `VirtualTimers.VirtualTimer.ClearTimeout` | src/virtual.timer.ts:107-111 | removes key `[time, id]` if present; nothing else changes |
| `VirtualTimers.VirtualTimer.SetInterval` | src/virtual.timer.ts:115-130 | the same validation; adds one recurring entry due at `now + ms` with a fresh id and points the map at it |
| `VirtualTimers.VirtualTimer.ClearInterval` | src/virtual.timer.ts:132-136 | removes the live entry of that id and its record; an unknown id changes nothing |
| `VirtualTimers.VirtualTimer.SetImmediate` | src/virtual.timer.ts:140-147 | adds one task with a fresh id at the end of the set and turns the observer on |
| `VirtualTimers.VirtualTimer.ClearImmediate` | src/virtual.timer.ts:149-153 | deletes only that task; the remaining tasks keep their first-in, first-out order |
| `VirtualTimers.VirtualTimer.ClearAll` | src/virtual.timer.ts:155-160 | empties the timeline and the immediate set, sets the clock to the host's time, turns the observer off and keeps the interval map |
| `Scenarios.SimpleTimeout` | tests/timeout.test.ts:21-32 | a 10000 ms timeout from start 0 runs once, at clock 10000 |
| `Scenarios.SameDueTimeRunsInOrder` | tests/timeout.test.ts:34-44 | both timeouts due at the same time run, both at 10000 (the model further fixes their order: the one set first runs first) |
| `Scenarios.ClearedTimeoutNeverRuns` | tests/timeout.test.ts:54-63 | of two timeouts, the cancelled one never runs |
| `Scenarios.TimeoutsRunInDueOrder` | tests/timeout.test.ts:65-79 | timeouts of 10000 and 20000 ms run at 10000, then at 20000 |
| `Scenarios.TimeoutClearedFromCallback` | tests/timeout.test.ts:81-89 | a timeout cancelled from another timeout's callback never runs |
| `Scenarios.TimeoutSetInCallback` | tests/timeout.test.ts:104-111 | a timeout set inside a callback runs on a later step, at 20000 |
| `Scenarios.OmittedDelayTimeoutCleared` | tests/timeout.test.ts:46-52 | a timeout with `ms` omitted and cleared at once never runs |
| `Scenarios.ClearAllDropsWork` | tests/timeout.test.ts:122-128 | after `clearAll` nothing runs, and the clock reads the host's time |
| `Scenarios.IntervalClearedOnThirdRun` | tests/interval.test.ts:21-36 | a 10000 ms interval runs at 10000, 20000 and 30000; cleared from its third run, it never runs a fourth time and the clock stays at 30000 |
| `Scenarios.OmittedDelayIntervalCleared` | tests/interval.test.ts:38-44 | an interval with `ms` omitted and cleared at once never runs |
| `Scenarios.ImmediateBeforeZeroTimeout` | tests/virtual/immediate.test.ts:42-51 | an immediate runs before a zero-delay timeout that was set first |
| `Scenarios.ImmediateBeforeZeroInterval` | tests/virtual/immediate.test.ts:53-62 | an immediate runs before a zero-period interval that was set first |
| `Scenarios.ClearedImmediateNeverRuns` | tests/virtual/immediate.test.ts:30-36 | an immediate cleared at once never runs |

## Left out

- `src/live.timer.ts`, `src/wrapper.timer.ts` and `src/index.ts` are not part of this model. The first only forwards to the host's timers. The second only delegates, plus a swap that calls `clearAll`. The third is a two-way factory.
- The compiled `dist/` files are not part of this model. They come from an earlier revision with different semantics.
- The library red-black tree is not part of this model. It is seen as a sorted sequence.
- Timeline.Insert: specified only for a key that is not yet present. The tree also accepts duplicate keys. The engine never inserts one, because ids are unique (`Inv`).
- The timeline's numeric `(time, id)` order is assumed; see Findings.
- Callback bodies and their bound arguments are opaque ids. So the model does not show that arguments are delivered unchanged. It does not model an exception thrown by a callback either. The containers are already updated when the callback runs.
- Fractional `ms` values are not modelled, and neither is floating-point arithmetic. For a fractional `ms`, the first due time (`trunc(ms)`) and the re-arm step (raw `ms`) differ. JavaScript numbers are doubles; the model uses unbounded integers, so precision loss above 2^53 is not modelled.
- `Date.now()` is a parameter. The host's `setImmediate` queue is reduced to one engine's pending continuations. The order among continuations of several engines is not modelled.
- Handles are values (`ExecutionInfo`, `ImmediateExecutionInfo` are datatypes), so reference identity and aliasing are not modelled. In the source the immediate set compares handles by reference (src/virtual.timer.ts:85), so a copy of an immediate handle cancels here but not there. The record `setTimeout`/`setInterval` return is the same object the timeline holds (src/virtual.timer.ts:61), so a caller writing its time or period would change when it fires or re-arms; that mutation is not modelled. Every handle the engine issues has a unique id, so on handles it returned the model and the source agree.
- The id counter is one object shared by reference. Increments made by other timers between two calls are not covered by a timer's `Valid()`.
- The `throw` at src/virtual.timer.ts:39 is unreachable, because a non-empty set always pops an element. It is an `assert false` in the model.
- JsKeyOrder.Digits: gives the plain decimal form only. JavaScript switches to exponent notation from 10^21, which no due time here reaches.

## Findings

| source | as written | input that shows it | evidently intended | confidence | as-written member | corrected member |
|---|---|---|---|---|---|---|
| src/virtual.timer.ts:22 | the tree is created without a comparator, so keys `[time, id]` are compared with JavaScript's default `<`, which compares the arrays as strings | from start 0, `setTimeout(f, 10000)` then `setTimeout(g, 9)`: `"10000,1" < "9,2"`, so `f` fires first at 10000 and the clock then moves back to 9 | numeric order on `(time, id)`, so that entries fire by due time and the clock never decreases | medium, not executed; rests on the library's default comparator, which is not part of this model | `JsKeyOrder.JsKeyOrderMisordersDueTimes` | `TimerSpec.DrainClockMonotone` |
