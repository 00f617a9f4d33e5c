/** How long a generation can get: at most `max_new_tokens` tokens (one, when the limit is not
    positive), nothing after the end-of-sequence token, and never past `max_seq_len`. It holds
    in both modes and whatever the worker returns: any number of tokens, for any step, also for
    one that is still in flight when the request finishes, is preempted or starts again. */
module GenerationBound {
  import opened CacheTypes
  import opened Requests

  /** What can happen to a request. */
  datatype Event =
    | Admit(cached: nat)                     // admission, first or again, with a prefix hit
    | Schedule(numNew: nat)                  // a step of it is sent
    | Result(step: Step, tokens: seq<Token>) // a reply for any step, with any tokens
    | Evict                                  // preemption
    | Abort

  function Apply(p: Profile, asynchronous: bool, r: Progress, e: Event): Progress {
    match e
    case Admit(cached) =>
      if r.status.Waiting? || r.status.Preempted? then r.(computed := cached, status := Running) else r
    case Schedule(n) =>
      if r.status.Running? && asynchronous then Advance(p, r, StepOf(p, r, n)) else r
    case Result(step, tokens) => Settle(p, asynchronous, r, step, tokens)
    case Evict => if r.status.Running? then Preempt(r) else r
    case Abort => if r.status.IsFinished() then r else r.(status := FinishedAborted)
  }

  function Run(p: Profile, asynchronous: bool, r: Progress, events: seq<Event>): Progress {
    if events == [] then r
    else Apply(p, asynchronous, Run(p, asynchronous, r, events[..|events| - 1]), events[|events| - 1])
  }

  /** A request as `add_request` queues it. */
  const NewRequest := Progress(0, [], 0, false, Waiting)

  /** Nothing in the output finishes the request before its last token. */
  ghost predicate OpenUntilLast(p: Profile, output: seq<Token>) {
    forall n :: 0 < n < |output| ==> CheckFinish(p, output[..n]).None?
  }

  /** An unfinished request is still open; a finished one finished with its last token. */
  ghost predicate Bounded(p: Profile, r: Progress) {
    OpenUntilLast(p, r.output) && (!r.status.IsFinished() ==> CheckFinish(p, r.output).None?)
  }

  /** What the token loop keeps, without the loop: everything up to the first finish. */
  lemma {:induction false} RetainedExact(p: Profile, output: seq<Token>, tokens: seq<Token>)
    ensures
      var n := Retained(p, output, tokens);
      && (forall k :: 0 < k < n ==> CheckFinish(p, output + tokens[..k]).None?)
      && (n < |tokens| ==> CheckFinish(p, output + tokens[..n]).Some?)
    decreases |tokens|
  {
    if tokens != [] {
      var next := output + [tokens[0]];
      assert output + tokens[..1] == next;
      if CheckFinish(p, next).None? {
        RetainedExact(p, next, tokens[1..]);
        var n := Retained(p, output, tokens);
        forall k | 0 < k <= n
          ensures output + tokens[..k] == next + tokens[1..][..k - 1]
        {
        }
        forall k | 0 < k < n
          ensures CheckFinish(p, output + tokens[..k]).None?
        {
          if k > 1 { assert CheckFinish(p, next + tokens[1..][..k - 1]).None?; }
        }
      }
    }
  }

  /** What one reply adds to the output, in either mode: what the token loop keeps - or nothing,
      if the request is finished or preempted, or if a synchronous chunk did not reach the end of
      the prompt. */
  lemma ReplyOutput(p: Profile, asynchronous: bool, r: Progress, step: Step, tokens: seq<Token>)
    ensures
      var ignored := r.status.IsFinished() || r.status.Preempted?
        || (!asynchronous && step.isPrefill && r.computed + step.numNew < p.prompt);
      Settle(p, asynchronous, r, step, tokens).output
        == r.output + if ignored then [] else tokens[..Retained(p, r.output, tokens)]
  {
    hide Retained;
    assert r.output + [] == r.output;
  }

  lemma AppendKeepsOpen(p: Profile, output: seq<Token>, tokens: seq<Token>)
    requires OpenUntilLast(p, output) && CheckFinish(p, output).None?
    ensures OpenUntilLast(p, output + tokens[..Retained(p, output, tokens)])
  {
    hide CheckFinish;
    RetainedExact(p, output, tokens);
    var n := Retained(p, output, tokens);
    var after := output + tokens[..n];
    forall k | 0 < k < |after|
      ensures CheckFinish(p, after[..k]).None?
    {
      if k <= |output| {
        assert after[..k] == output[..k];
        assert k == |output| ==> output[..k] == output;
      } else {
        assert after[..k] == output + tokens[..k - |output|];
      }
    }
  }

  /** One reply, in either mode, for any step and with any tokens. */
  lemma SettleBounded(p: Profile, asynchronous: bool, r: Progress, step: Step, tokens: seq<Token>)
    requires Bounded(p, r)
    ensures Bounded(p, Settle(p, asynchronous, r, step, tokens))
  {
    hide OpenUntilLast, Retained;
    if !r.status.IsFinished() { AppendKeepsOpen(p, r.output, tokens); }
  }

  lemma {:induction false} RunBounded(p: Profile, asynchronous: bool, events: seq<Event>)
    ensures Bounded(p, Run(p, asynchronous, NewRequest, events))
  {
    hide OpenUntilLast, Settle, CheckFinish;
    if events == [] {
      NewBounded(p);
    } else {
      RunBounded(p, asynchronous, events[..|events| - 1]);
      var e := events[|events| - 1];
      var before := Run(p, asynchronous, NewRequest, events[..|events| - 1]);
      if e.Result? { SettleBounded(p, asynchronous, before, e.step, e.tokens); }
    }
  }

  lemma NewBounded(p: Profile)
    ensures Bounded(p, NewRequest)
  {
  }

  /** What an open output looks like. */
  lemma OpenMeans(p: Profile, output: seq<Token>)
    requires OpenUntilLast(p, output)
    ensures |output| <= Max(1, p.maxNew)
    ensures p.eos.Some? ==> forall i :: 0 <= i < |output| - 1 ==> output[i] != p.eos.value
  {
    if |output| > 1 {
      assert CheckFinish(p, output[..|output| - 1]).None?;
    }
    forall i | 0 <= i < |output| - 1
      ensures p.eos != Some(output[i])
    {
      assert CheckFinish(p, output[..i + 1]).None?;
    }
  }

  /** On every run, in either mode: the length bound, and nothing after the end of sequence. */
  lemma OutputBounded(p: Profile, asynchronous: bool, events: seq<Event>)
    ensures
      var output := Run(p, asynchronous, NewRequest, events).output;
      && |output| <= Max(1, p.maxNew)
      && (p.eos.Some? ==> forall i :: 0 <= i < |output| - 1 ==> output[i] != p.eos.value)
  {
    hide CheckFinish, Run;
    RunBounded(p, asynchronous, events);
    OpenMeans(p, Run(p, asynchronous, NewRequest, events).output);
  }

  /** With the cap of `add_request`, prompt and output fit the sequence on every run. */
  lemma SequenceBounded(p: Profile, asynchronous: bool, requested: int, maxSeqLen: nat, events: seq<Event>)
    requires AdmittedLength(p.prompt, requested, maxSeqLen) == Some(p.maxNew)
    ensures p.prompt + |Run(p, asynchronous, NewRequest, events).output| <= maxSeqLen
  {
    hide Run;
    OutputBounded(p, asynchronous, events);
  }

  /** A finished request never gets another token. */
  lemma {:induction false} FinishedIsFinal(p: Profile, asynchronous: bool, r: Progress, events: seq<Event>)
    requires r.status.IsFinished()
    ensures Run(p, asynchronous, r, events).status.IsFinished() && Run(p, asynchronous, r, events).output == r.output
  {
    if events != [] { FinishedIsFinal(p, asynchronous, r, events[..|events| - 1]); }
  }

  /** What the status says: end of sequence comes first, then the limit, and a request that has
      reached neither is not finished (unless it was aborted). */
  ghost predicate StatusTells(p: Profile, r: Progress) {
    var ended := r.output != [] && p.eos == Some(r.output[|r.output| - 1]);
    var full := r.output != [] && |r.output| >= p.maxNew;
    && (r.status.FinishedEos? ==> ended)
    && (r.status.FinishedLength? ==> full && !ended)
    && (!r.status.IsFinished() ==> !ended && !full)
    && !r.status.FinishedStop?
  }

  /** On every run, in either mode, a request finishes exactly with the token that ends it. */
  lemma {:induction false} FinishesExactly(p: Profile, asynchronous: bool, events: seq<Event>)
    ensures StatusTells(p, Run(p, asynchronous, NewRequest, events))
  {
    if events != [] {
      var r := Run(p, asynchronous, NewRequest, events[..|events| - 1]);
      FinishesExactly(p, asynchronous, events[..|events| - 1]);
      var e := events[|events| - 1];
      if e.Result? { SettleTells(p, asynchronous, r, e.step, e.tokens); }
    }
  }

  lemma SettleTells(p: Profile, asynchronous: bool, r: Progress, step: Step, tokens: seq<Token>)
    requires StatusTells(p, r)
    ensures StatusTells(p, Settle(p, asynchronous, r, step, tokens))
  {
    hide Retained;
  }

  /** In either mode, `max_new_tokens` bounds every run of a request exactly when it is at least
      one: the step that ends the prompt yields a token whatever the limit. */
  lemma LimitHoldsExactly(p: Profile, asynchronous: bool)
    ensures (forall events :: |Run(p, asynchronous, NewRequest, events).output| <= p.maxNew) <==> p.maxNew >= 1
  {
    if p.maxNew >= 1 {
      forall events
        ensures |Run(p, asynchronous, NewRequest, events).output| <= p.maxNew
      {
        OutputBounded(p, asynchronous, events);
      }
    } else {
      OneTokenAlways(p, asynchronous);
    }
  }

  /** The whole prompt is one chunk, and the worker returns its one token. */
  lemma OneTokenAlways(p: Profile, asynchronous: bool)
    ensures
      var events := [Admit(0), Schedule(p.prompt), Result(Step(p.prompt > 0, p.prompt, 0), [7])];
      |Run(p, asynchronous, NewRequest, events).output| == 1
  {
    var step := Step(p.prompt > 0, p.prompt, 0);
    var events := [Admit(0), Schedule(p.prompt), Result(step, [7])];
    var r1 := NewRequest.(status := Running);
    assert events[..1] == [events[0]] && events[..1][..0] == [] && events[..2][..1] == events[..1];
    assert Run(p, asynchronous, NewRequest, []) == NewRequest;
    assert Run(p, asynchronous, NewRequest, events[..1]) == r1;
    var r2 := if asynchronous then Advance(p, r1, step) else r1;
    assert Run(p, asynchronous, NewRequest, events[..2]) == r2;
    assert Retained(p, [], [7]) == 1 by { assert [7][1..] == []; }
    assert [7][..1] == [7];
  }
}
