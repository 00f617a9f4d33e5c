/** `Request`, and the per-request part of `advance_after_schedule`, `update_from_output`,
    `_reconcile_async_output`, `_check_finish` and `_preempt_lowest_priority`. */
module Requests {
  import opened CacheTypes

  datatype Status =
    Waiting | Running | Preempted | FinishedEos | FinishedLength | FinishedStop | FinishedAborted
  {
    predicate IsFinished() {
      FinishedEos? || FinishedLength? || FinishedStop? || FinishedAborted?
    }
  }

  /** The parts of a request that never change once it is admitted: `speculative` is
      `num_speculative_tokens`, or 0 for a sampling (non-greedy) request; `waits` says that
      speculation is configured, so that any request's decodes wait for the end of its prompt. */
  datatype Profile = Profile(prompt: nat, maxNew: int, eos: Option<Token>, speculative: nat, waits: bool) {
    /** `_speculative_tokens_for`. */
    function ExtraTokens(s: Step): nat {
      if s.isPrefill then 0 else speculative
    }

    /** The most tokens the step can emit. */
    function Reserve(s: Step): nat {
      1 + ExtraTokens(s)
    }

    /** The step reaches the end of the prompt. */
    predicate CompletesPrompt(s: Step) {
      s.computedAt + s.numNew >= prompt
    }

    /** The step emits tokens: a decode, or the chunk that completes the prompt. */
    predicate Samples(s: Step) {
      !s.isPrefill || CompletesPrompt(s)
    }
  }

  /** `ScheduledRequest`, as far as request state is concerned. */
  datatype Step = Step(isPrefill: bool, numNew: nat, computedAt: nat)

  datatype Progress = Progress(
    computed: nat,               // num_computed_tokens
    output: seq<Token>,          // output_token_ids
    placeholders: nat,           // num_output_placeholders
    barrier: bool,               // terminal_prefill_in_flight
    status: Status)

  function Needed(p: Profile, r: Progress): int {
    p.prompt + |r.output| + r.placeholders - r.computed
  }

  predicate IsPrefill(p: Profile, r: Progress) {
    r.computed < p.prompt
  }

  /** The step that schedules `n` tokens of a request in state `r`. */
  function StepOf(p: Profile, r: Progress, n: nat): Step {
    Step(IsPrefill(p, r), n, r.computed)
  }

  /** `_check_finish`. */
  function CheckFinish(p: Profile, output: seq<Token>): Option<Status> {
    if output == [] then None
    else if p.eos == Some(output[|output| - 1]) then Some(FinishedEos)
    else if |output| >= p.maxNew then Some(FinishedLength)
    else None
  }

  /** How many of `tokens` the token loop keeps: it stops after the first one that finishes. */
  function Retained(p: Profile, output: seq<Token>, tokens: seq<Token>): (n: nat)
    ensures n <= |tokens| && (tokens != [] ==> n >= 1)
    decreases |tokens|
  {
    if tokens == [] then 0
    else if CheckFinish(p, output + [tokens[0]]).Some? then 1
    else 1 + Retained(p, output + [tokens[0]], tokens[1..])
  }

  /** The loop in `advance_after_schedule`, for one request. */
  function Advance(p: Profile, r: Progress, s: Step): Progress {
    var completes := r.computed + s.numNew >= p.prompt;
    var samples := !s.isPrefill || completes;
    Progress(
      r.computed + s.numNew + (if samples then p.Reserve(s) - 1 else 0),
      r.output,
      r.placeholders + (if samples then p.Reserve(s) else 0),
      r.barrier || (s.isPrefill && completes && p.waits),
      r.status)
  }

  /** `_reconcile_async_output`: whether the step sampled is judged by the state now. */
  function Reconcile(p: Profile, r: Progress, s: Step, tokens: seq<Token>): Progress {
    var reserved := if !s.isPrefill || r.computed >= p.prompt then p.Reserve(s) else 0;
    var retained := Retained(p, r.output, tokens);
    var unused := if reserved == 0 then 0 else Max(0, reserved - 1 - Max(0, retained - 1));
    r.(output := r.output + tokens[..retained],
       placeholders := Max(0, r.placeholders - reserved),
       computed := Max(0, r.computed - unused))
  }

  /** The synchronous branches of `update_from_output`. */
  function UpdateSync(p: Profile, r: Progress, s: Step, tokens: seq<Token>): Progress {
    var retained := Retained(p, r.output, tokens);
    if s.isPrefill then
      var computed := r.computed + s.numNew;
      if computed < p.prompt then r.(computed := computed)
      else r.(computed := computed, output := r.output + tokens[..retained])
    else r.(output := r.output + tokens[..retained], computed := r.computed + retained)
  }

  /** The closing scan of `update_from_output`. */
  function Finish(p: Profile, r: Progress): Progress {
    if !r.status.IsFinished() && CheckFinish(p, r.output).Some?
    then r.(status := CheckFinish(p, r.output).value)
    else r
  }

  /** What `update_from_output` makes of one request and one reply. */
  function Settle(p: Profile, asynchronous: bool, r: Progress, s: Step, tokens: seq<Token>): Progress {
    if r.status.IsFinished() || r.status.Preempted? then r
    else
      var q := r.(barrier := r.barrier && !(s.isPrefill && p.CompletesPrompt(s)));
      Finish(p, if asynchronous then Reconcile(p, q, s, tokens) else UpdateSync(p, q, s, tokens))
  }

  /** The reset of a preemption victim. */
  function Preempt(r: Progress): Progress {
    Progress(0, r.output, 0, false, Preempted)
  }

  /** `add_request`: the cap on generation, or `None` where it raises. */
  function AdmittedLength(prompt: nat, maxNew: int, maxSeqLen: nat): Option<int> {
    if prompt >= maxSeqLen then None else Some(Min(maxNew, maxSeqLen - prompt))
  }

  class Request {
    const id: ReqId
    const arrival: int
    const greedy: bool
    const profile: Profile
    var partition: Option<nat>    // cache_partition
    var computed: nat
    var output: seq<Token>
    var placeholders: nat
    var barrier: bool
    var status: Status

    constructor (id: ReqId, arrival: int, greedy: bool, prompt: nat, maxNew: int, eos: Option<Token>, speculative: nat)
      ensures State() == Progress(0, [], 0, false, Waiting)
      ensures profile == Profile(prompt, maxNew, eos, if greedy then speculative else 0, speculative > 0)
      ensures this.id == id && this.arrival == arrival && this.greedy == greedy && partition.None?
    {
      this.id, this.arrival, this.greedy := id, arrival, greedy;
      profile := Profile(prompt, maxNew, eos, if greedy then speculative else 0, speculative > 0);
      partition, computed, output, placeholders, barrier, status := None, 0, [], 0, false, Waiting;
    }

    function State(): Progress
      reads this
    {
      Progress(computed, output, placeholders, barrier, status)
    }

    function NumNewTokensNeeded(): (n: int)
      reads this
      ensures n == Needed(profile, State())
    {
      profile.prompt + |output| + placeholders - computed
    }

    method AdvanceAfterSchedule(s: Step)
      modifies this`computed, this`placeholders, this`barrier
      ensures State() == Advance(profile, old(State()), s)
    {
      var completesPrompt := computed + s.numNew >= profile.prompt;
      computed := computed + s.numNew;
      if !s.isPrefill || completesPrompt {
        var reserved := 1 + profile.ExtraTokens(s);
        placeholders := placeholders + reserved;
        computed := computed + reserved - 1;
      }
      if s.isPrefill && completesPrompt && profile.waits {
        barrier := true;
      }
    }

    /** The token loop: appends and streams tokens up to the one that finishes the request. */
    method AppendTokens(tokens: seq<Token>) returns (retained: nat)
      modifies this`output
      ensures retained == Retained(profile, old(output), tokens)
      ensures output == old(output) + tokens[..retained]
    {
      retained := 0;
      while retained < |tokens|
        invariant retained <= |tokens|
        invariant output == old(output) + tokens[..retained]
        invariant Retained(profile, old(output), tokens) == retained + Retained(profile, output, tokens[retained..])
      {
        assert tokens[..retained + 1] == tokens[..retained] + [tokens[retained]];
        assert tokens[retained..][1..] == tokens[retained + 1..];
        output := output + [tokens[retained]];
        retained := retained + 1;
        if CheckFinish(profile, output).Some? { return; }
      }
    }

    method ReconcileAsyncOutput(s: Step, tokens: seq<Token>)
      modifies this`computed, this`output, this`placeholders
      ensures State() == Reconcile(profile, old(State()), s, tokens)
    {
      var sampled := !s.isPrefill || computed >= profile.prompt;
      var reserved: int := if sampled then 1 + profile.ExtraTokens(s) else 0;
      var retained: int := AppendTokens(tokens);
      if reserved != 0 {
        placeholders := Max(0, placeholders - reserved);
        var unused: int := Max(0, reserved - 1 - Max(0, retained - 1));
        if unused > 0 {
          computed := Max(0, computed - unused);
        }
      }
    }

    /** The part of `update_from_output` for one scheduled request. */
    method ApplyResult(asynchronous: bool, s: Step, tokens: seq<Token>)
      modifies this`computed, this`output, this`placeholders, this`barrier, this`status
      ensures State() == Settle(profile, asynchronous, old(State()), s, tokens)
    {
      if status.IsFinished() || status == Preempted { return; }
      if s.isPrefill && s.computedAt + s.numNew >= profile.prompt {
        barrier := false;
      }
      if asynchronous {
        ReconcileAsyncOutput(s, tokens);
      } else if s.isPrefill {
        computed := computed + s.numNew;
        if computed >= profile.prompt {
          var retained := AppendTokens(tokens);
        }
      } else {
        var retained := AppendTokens(tokens);
        computed := computed + retained;
      }
      var reason := CheckFinish(profile, output);
      if reason.Some? {
        status := reason.value;
      }
    }

    method ResetForPreemption()
      modifies this`computed, this`placeholders, this`barrier, this`status, this`partition
      ensures State() == Preempt(old(State())) && partition.None?
    {
      status := Preempted;
      computed := 0;
      partition := None;
      placeholders := 0;
      barrier := false;
    }
  }
}
