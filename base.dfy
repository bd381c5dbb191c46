/** The records exchanged with callers (src/base.ts). Callbacks, together with
    their bound arguments, are opaque and are named by an id. */
module Base {

  /** An opaque callback, bound arguments included. */
  type CallbackId = nat

  /** `ImmediateExecutionInfo`: a deferred task and the handle returned for it. */
  datatype ImmediateExecutionInfo = ImmediateExecutionInfo(id: nat, callback: CallbackId)

  /** `ExecutionInfo`: a timed entry and the handle returned for it. `time` is
      its due time on the virtual clock, `ms` the requested delay or period and
      `interval` tells a recurring entry from a one-shot one. */
  datatype ExecutionInfo = ExecutionInfo(id: nat, callback: CallbackId, time: int, ms: nat, interval: bool)
}
