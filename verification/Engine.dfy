/** The engine's queue of steps in flight, updated in place, against `ReplyPipe`. `transit` is
    the worker: commands not yet answered and replies not yet read. */
module Engine {
  import opened CacheTypes
  import opened Queues
  import opened ReplyPipe

  class ReplicaEngine {
    const maxInFlight: nat
    var batchQueue: seq<nat>
    var discardIds: set<nat>
    var stepCounter: nat
    var transit: seq<nat>

    constructor (maxInFlight: nat)
      ensures State() == Start() && this.maxInFlight == maxInFlight
    {
      this.maxInFlight := maxInFlight;
      batchQueue, discardIds, stepCounter, transit := [], {}, 0, [];
    }

    function State(): Pipe
      reads this
    {
      Pipe(batchQueue, discardIds, stepCounter, transit)
    }

    /** The sending half of `_try_dispatch_step`. */
    method DispatchStep()
      requires |batchQueue| < maxInFlight
      modifies this
      ensures (State(), Sent) == Apply(old(State()), Step)
    {
      stepCounter := stepCounter + 1;
      transit := transit + [stepCounter];
      batchQueue := batchQueue + [stepCounter];
    }

    /** `_get_live_result`, when `patience` replies arrive before the read times out. */
    method GetLiveResult(patience: nat) returns (result: Option<nat>)
      modifies this`transit, this`discardIds
      ensures (State(), result) == GetLive(old(State()), patience)
    {
      var left: nat := patience;
      while left > 0 && transit != []
        invariant left <= patience
        invariant GetLive(State(), left) == GetLive(old(State()), patience)
        invariant batchQueue == old(batchQueue) && stepCounter == old(stepCounter)
        decreases left
      {
        var raw := transit[0];
        transit := transit[1..];
        left := left - 1;
        if discardIds == {} { return Some(raw); }
        if raw in discardIds {
          discardIds := discardIds - {raw};
        } else {
          return Some(raw);
        }
      }
      return None;
    }

    /** `_handle_step_error`. */
    method HandleStepError(failed: nat, pending: bool)
      modifies this`batchQueue, this`discardIds
      ensures State() == HandleError(old(State()), failed, pending)
    {
      if pending { discardIds := discardIds + {failed}; }
      while batchQueue != []
        invariant discardIds + SetOf(batchQueue) ==
          old(discardIds) + (if pending then {failed} else {}) + SetOf(old(batchQueue))
        decreases |batchQueue|
      {
        assert batchQueue == [batchQueue[0]] + batchQueue[1..];
        discardIds := discardIds + {batchQueue[0]};
        batchQueue := batchQueue[1..];
      }
    }

    /** `_await_and_apply_oldest`; `error` is what the reply says, if it is read. */
    method AwaitAndApplyOldest(patience: nat, error: bool) returns (outcome: Outcome)
      requires batchQueue != []
      modifies this
      ensures (State(), outcome) == Apply(old(State()), Await(patience, error))
    {
      var stepId := batchQueue[0];
      batchQueue := batchQueue[1..];
      var result := GetLiveResult(patience);
      if result.None? {
        HandleStepError(stepId, true);
        return TimedOut(stepId);
      }
      if result.value != stepId {
        HandleStepError(stepId, false);
        return Desync(stepId, result.value);
      }
      if error {
        HandleStepError(stepId, false);
        return WorkerError(stepId);
      }
      return Applied(stepId);
    }

    /** `_flush_pending_frees`, with frees pending. */
    method FlushPendingFrees(patience: nat) returns (outcome: Outcome)
      requires batchQueue == []
      modifies this
      ensures (State(), outcome) == Apply(old(State()), Cleanup(patience))
    {
      stepCounter := stepCounter + 1;
      transit := transit + [stepCounter];
      var result := GetLiveResult(patience);
      return if result.None? then CleanupTimedOut(stepCounter) else Cleaned(result.value);
    }
  }
}
