/** The behaviours the test files check, stated on TimerSpec. The tests build
    a timer with start time 0. The ids are written as 1, 2, ... in the order
    the entries are created; under the numeric key order only their relative
    order matters, not the counter's actual value. A callback's own calls
    (scheduling or cancelling) are applied to the state its drain step left,
    before the next step. */
module Scenarios {
  import opened Wrappers
  import opened Base
  import opened Timeline
  import opened TimerSpec

  /** A 10000 ms timeout from start 0 runs once, at `now() == 10000`. */
  lemma SimpleTimeout(f: CallbackId)
    ensures var s := ReserveExecution(Initial(0), TimeoutInfo(Initial(0), 1, f, 10000));
      && Drain(s).run == Some(f) && Drain(s).state.currentTime == 10000
      && Drain(Drain(s).state).run == None
  {
  }

  /** Two timeouts due at the same time run in the order they were set. */
  lemma SameDueTimeRunsInOrder(f: CallbackId, g: CallbackId)
    ensures var s1 := ReserveExecution(Initial(0), TimeoutInfo(Initial(0), 1, f, 10000));
      var s2 := ReserveExecution(s1, TimeoutInfo(s1, 2, g, 10000));
      var d1 := Drain(s2);
      && d1.run == Some(f) && d1.state.currentTime == 10000
      && Drain(d1.state).run == Some(g) && Drain(d1.state).state.currentTime == 10000
  {
  }

  /** Cancelling the second of two timeouts before they fire: only the first
      runs. */
  lemma ClearedTimeoutNeverRuns(f: CallbackId, g: CallbackId)
    ensures var s1 := ReserveExecution(Initial(0), TimeoutInfo(Initial(0), 1, f, 10000));
      var second := TimeoutInfo(s1, 2, g, 10000);
      var s2 := CancelExecution(ReserveExecution(s1, second), second);
      var d1 := Drain(s2);
      d1.run == Some(f) && Drain(d1.state).run == None
  {
  }

  /** Timeouts of 10000 and 20000 ms run at 10000, then at 20000. */
  lemma TimeoutsRunInDueOrder(f: CallbackId, g: CallbackId)
    ensures var s1 := ReserveExecution(Initial(0), TimeoutInfo(Initial(0), 1, f, 10000));
      var s2 := ReserveExecution(s1, TimeoutInfo(s1, 2, g, 20000));
      var d1 := Drain(s2);
      && d1.run == Some(f) && d1.state.currentTime == 10000
      && Drain(d1.state).run == Some(g) && Drain(d1.state).state.currentTime == 20000
  {
    var s1 := ReserveExecution(Initial(0), TimeoutInfo(Initial(0), 1, f, 10000));
    assert s1.timeline == [TimeoutInfo(Initial(0), 1, f, 10000)];
  }

  /** The first timeout cancels the second from its callback: the second
      never runs. */
  lemma TimeoutClearedFromCallback(f: CallbackId, g: CallbackId)
    ensures var s1 := ReserveExecution(Initial(0), TimeoutInfo(Initial(0), 1, f, 10000));
      var second := TimeoutInfo(s1, 2, g, 20000);
      var d1 := Drain(ReserveExecution(s1, second));
      d1.run == Some(f) && Drain(CancelExecution(d1.state, second)).run == None
  {
    var s1 := ReserveExecution(Initial(0), TimeoutInfo(Initial(0), 1, f, 10000));
    assert s1.timeline == [TimeoutInfo(Initial(0), 1, f, 10000)];
  }

  /** A 10000 ms timeout set from inside a callback that ran at 10000 runs on
      a later step, at 20000. */
  lemma TimeoutSetInCallback(f: CallbackId, g: CallbackId)
    ensures var d1 := Drain(ReserveExecution(Initial(0), TimeoutInfo(Initial(0), 1, f, 10000)));
      var s2 := ReserveExecution(d1.state, TimeoutInfo(d1.state, 2, g, 10000));
      && d1.run == Some(f)
      && Drain(s2).run == Some(g) && Drain(s2).state.currentTime == 20000
  {
  }

  /** A timeout set with `ms` omitted and cleared at once never runs. */
  lemma OmittedDelayTimeoutCleared(f: CallbackId)
    ensures ValidateMs(Missing) == Success(0)
    ensures var e := TimeoutInfo(Initial(0), 1, f, 0);
      Drain(CancelExecution(ReserveExecution(Initial(0), e), e)).run == None
  {
  }

  /** `clearAll` drops every pending entry and task: the next step runs
      nothing and the clock reads the host's time. */
  lemma ClearAllDropsWork(s: TimerState, hostNow: int)
    ensures Drain(ClearAll(s, hostNow)).run == None
    ensures Drain(ClearAll(s, hostNow)).state.currentTime == hostNow
  {
  }

  /** An interval of 10000 ms runs at 10000, 20000 and 30000; cleared from
      its third run, it never runs a fourth time and the clock stays at
      30000. */
  lemma IntervalClearedOnThirdRun(f: CallbackId)
    ensures var handle := IntervalInfo(Initial(0), 1, f, 10000);
      var s := ReserveIntervalExecution(Initial(0), handle);
      && Drain(s).run == Some(f)
      && Drain(Drains(s, 1)).run == Some(f)
      && Drain(Drains(s, 2)).run == Some(f)
      && Drains(s, 3).currentTime == 30000
      && Drain(ClearInterval(Drains(s, 3), handle)).run == None
      && Drain(ClearInterval(Drains(s, 3), handle)).state.currentTime == 30000
  {
    var handle := IntervalInfo(Initial(0), 1, f, 10000);
    var s := ReserveIntervalExecution(Initial(0), handle);
    SetIntervalNthFiring(Initial(0), 1, f, 10000, 1);
    SetIntervalNthFiring(Initial(0), 1, f, 10000, 2);
    SetIntervalNthFiring(Initial(0), 1, f, 10000, 3);
    IntervalFiresEveryPeriod(s, handle, 3);
    SetIntervalKeepsInv(Initial(0), 1, f, 10000);
    DrainsKeepInv(s, 2, 3);
    var s3 := Drains(s, 3);
    ClearIntervalRemovesLiveEntry(s3, 2, handle);
    var live := s3.timeline[0];
    assert live in s3.timeline && live.interval && live.id == 1;
    assert ClearInterval(s3, handle).timeline == [];
  }

  /** An interval set with `ms` omitted and cleared at once never runs. */
  lemma OmittedDelayIntervalCleared(f: CallbackId)
    ensures var e := IntervalInfo(Initial(0), 1, f, 0);
      Drain(ClearInterval(ReserveIntervalExecution(Initial(0), e), e)).run == None
  {
  }

  /** An immediate runs before a zero-delay timeout set before it. */
  lemma ImmediateBeforeZeroTimeout(t0: int, f: CallbackId, g: CallbackId)
    ensures var s1 := ReserveExecution(Initial(t0), TimeoutInfo(Initial(t0), 1, g, 0));
      var s2 := ReserveImmediateExecution(s1, ImmediateExecutionInfo(2, f));
      Drain(s2).run == Some(f) && Drain(s2).state.timeline == s1.timeline
  {
  }

  /** An immediate runs before a zero-period interval set before it. */
  lemma ImmediateBeforeZeroInterval(t0: int, f: CallbackId, g: CallbackId)
    ensures var s1 := ReserveIntervalExecution(Initial(t0), IntervalInfo(Initial(t0), 1, g, 0));
      var s2 := ReserveImmediateExecution(s1, ImmediateExecutionInfo(2, f));
      Drain(s2).run == Some(f) && Drain(s2).state.timeline == s1.timeline
  {
  }

  /** An immediate cleared at once never runs. */
  lemma ClearedImmediateNeverRuns(t0: int, f: CallbackId)
    ensures var i := ImmediateExecutionInfo(1, f);
      Drain(CancelImmediateExecution(ReserveImmediateExecution(Initial(t0), i), i)).run == None
  {
  }
}
