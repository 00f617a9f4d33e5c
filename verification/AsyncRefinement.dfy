/** Async scheduling refines synchronous scheduling, request by request: whatever the chunking
    of the prompt and whatever number of tokens each speculative decode returns, a pipelined
    run that is drained ends in the state of the synchronous run with the same chunks and
    replies. The pipeline depth does not matter. */
module AsyncRefinement {
  import opened CacheTypes
  import opened Requests

  /** One settled step: how many tokens were scheduled, and what the worker returned. */
  datatype Move = Move(numNew: nat, tokens: seq<Token>)

  datatype Event =
    | Dispatch(numNew: nat)          // schedule() picks this many tokens; the step is sent
    | Reply(tokens: seq<Token>)      // the oldest step in flight returns

  /** One request under async scheduling. `settled` records the replies that were applied, and
      `dropped` the steps whose replies were discarded because the request had finished. */
  datatype Async = Async(req: Progress, flight: seq<Step>, settled: seq<Move>, dropped: seq<Step>)

  /** `schedule()` may pick `n` tokens for this request; a prompt may be cut anywhere. */
  predicate MayDispatch(p: Profile, r: Progress, n: nat) {
    r.status.Running? && !r.barrier && 1 <= n <= Needed(p, r)
  }

  /** What the worker may return for a step: one token for the end of a prompt, up to one more
      than the speculative depth for a decode, nothing for any other chunk. */
  predicate MayReply(p: Profile, s: Step, tokens: seq<Token>) {
    if !s.isPrefill then 1 <= |tokens| <= 1 + p.speculative
    else if s.computedAt + s.numNew >= p.prompt then |tokens| == 1
    else tokens == []
  }

  /** One event; `None` when it cannot happen in this state. */
  function Apply(p: Profile, a: Async, e: Event): Option<Async> {
    match e
    case Dispatch(n) =>
      if !MayDispatch(p, a.req, n) then None
      else
        var s := StepOf(p, a.req, n);
        Some(a.(req := Advance(p, a.req, s), flight := a.flight + [s]))
    case Reply(tokens) =>
      if |a.flight| == 0 || !MayReply(p, a.flight[0], tokens) then None
      else
        var s := a.flight[0];
        Some(Async(
          Settle(p, true, a.req, s, tokens),
          a.flight[1..],
          if a.req.status.Running? then a.settled + [Move(s.numNew, tokens)] else a.settled,
          if a.req.status.Running? then a.dropped else a.dropped + [s]))
  }

  function Run(p: Profile, a: Async, events: seq<Event>): Option<Async> {
    if events == [] then Some(a)
    else
      var b := Run(p, a, events[..|events| - 1]);
      if b.None? then None else Apply(p, b.value, events[|events| - 1])
  }

  /** The synchronous run with the given chunks and replies; `None` when its scheduler could
      not have picked one of the chunks. */
  function SyncRun(p: Profile, r: Progress, moves: seq<Move>): Option<Progress> {
    if moves == [] then Some(r)
    else
      var q := SyncRun(p, r, moves[..|moves| - 1]);
      var m := moves[|moves| - 1];
      if q.None? || !MayDispatch(p, q.value, m.numNew) then None
      else Some(Settle(p, false, q.value, StepOf(p, q.value, m.numNew), m.tokens))
  }

  /** A request just admitted with `cached` prompt tokens in the prefix cache. */
  function Admitted(cached: nat): Progress {
    Progress(cached, [], 0, false, Running)
  }

  // ---- the coupling invariant ----

  /** How far a step moves `num_computed_tokens` at dispatch. */
  function Work(p: Profile, steps: seq<Step>): nat {
    if steps == [] then 0
    else Work(p, steps[..|steps| - 1]) + steps[|steps| - 1].numNew + p.ExtraTokens(steps[|steps| - 1])
  }

  /** The placeholders that steps in flight reserved. */
  function Reserved(p: Profile, steps: seq<Step>): nat {
    if steps == [] then 0
    else
      var last := steps[|steps| - 1];
      Reserved(p, steps[..|steps| - 1]) + if p.Samples(last) then p.Reserve(last) else 0
  }

  /** The steps continue a request whose confirmed position is `at`: chunks up to the end of
      the prompt, then decodes of one token. */
  predicate Continues(p: Profile, at: nat, steps: seq<Step>)
    decreases |steps|
  {
    if steps == [] then true
    else
      var s := steps[0];
      && (if at < p.prompt then s.isPrefill && s.computedAt == at && 1 <= s.numNew <= p.prompt - at
          else !s.isPrefill && s.numNew == 1)
      && Continues(p, at + s.numNew, steps[1..])
  }

  /** A synchronous request: what it has computed fixes what it has sampled. */
  predicate SyncOk(p: Profile, r: Progress) {
    && r.placeholders == 0 && !r.barrier
    && (r.status.Running? ==>
          && (r.output == [] <==> r.computed < p.prompt)
          && (r.output != [] ==> r.computed + 1 == p.prompt + |r.output|))
  }

  predicate Coupled(p: Profile, a: Async, r: Progress) {
    && a.req.output == r.output && a.req.status == r.status
    && (r.status.Running? || r.status.IsFinished())
    && SyncOk(p, r)
    && a.req.computed == r.computed + Work(p, a.dropped + a.flight)
    && a.req.placeholders <= Reserved(p, a.dropped + a.flight)
    && (r.status.Running? ==> a.dropped == [] && Continues(p, r.computed, a.flight))
    && (a.req.barrier ==> r.status.Running? && r.computed < p.prompt <= r.computed + Work(p, a.flight))
  }

  // ---- sums over steps in flight ----

  lemma {:induction false} WorkSplit(p: Profile, a: seq<Step>, b: seq<Step>)
    ensures Work(p, a + b) == Work(p, a) + Work(p, b)
    ensures Reserved(p, a + b) == Reserved(p, a) + Reserved(p, b)
    decreases |b|
  {
    if b == [] {
      assert a + b == a;
    } else {
      var b' := b[..|b| - 1];
      WorkSplit(p, a, b');
      assert (a + b)[..|a + b| - 1] == a + b';
    }
  }

  lemma WorkFirst(p: Profile, steps: seq<Step>)
    requires steps != []
    ensures Work(p, steps) == steps[0].numNew + p.ExtraTokens(steps[0]) + Work(p, steps[1..])
    ensures Reserved(p, steps) == (if p.Samples(steps[0]) then p.Reserve(steps[0]) else 0) + Reserved(p, steps[1..])
  {
    assert steps == [steps[0]] + steps[1..];
    WorkSplit(p, [steps[0]], steps[1..]);
    assert [steps[0]][..0] == [];
  }

  /** Where the steps in flight lead, before speculation. */
  function Position(at: nat, steps: seq<Step>): nat
    decreases |steps|
  {
    if steps == [] then at else Position(at + steps[0].numNew, steps[1..])
  }

  lemma {:induction false} ContinuesAppend(p: Profile, at: nat, steps: seq<Step>, s: Step)
    requires Continues(p, at, steps) && Continues(p, Position(at, steps), [s])
    ensures Continues(p, at, steps + [s])
    decreases |steps|
  {
    if steps == [] {
      assert steps + [s] == [s];
    } else {
      assert (steps + [s])[1..] == steps[1..] + [s];
      ContinuesAppend(p, at + steps[0].numNew, steps[1..], s);
    }
  }

  /** What is in flight, in numbers: while the position is inside the prompt nothing has been
      reserved, and past it each decode has moved as far as it reserved. */
  lemma {:induction false} FlightShape(p: Profile, at: nat, steps: seq<Step>)
    requires Continues(p, at, steps)
    ensures at <= Position(at, steps) <= at + Work(p, steps)
    ensures Position(at, steps) < p.prompt ==>
      Reserved(p, steps) == 0 && Position(at, steps) == at + Work(p, steps)
    ensures Position(at, steps) >= p.prompt ==>
      && at + Work(p, steps) >= p.prompt
      && Reserved(p, steps) + Max(at, p.prompt) == at + Work(p, steps) + (if at < p.prompt then 1 else 0)
    decreases |steps|
  {
    if steps != [] {
      WorkFirst(p, steps);
      FlightShape(p, at + steps[0].numNew, steps[1..]);
    }
  }

  // ---- dispatch ----

  lemma SumsAppend(p: Profile, steps: seq<Step>, s: Step)
    ensures Work(p, steps + [s]) == Work(p, steps) + s.numNew + p.ExtraTokens(s)
    ensures Reserved(p, steps + [s]) == Reserved(p, steps) + if p.Samples(s) then p.Reserve(s) else 0
  {
    assert (steps + [s])[..|steps|] == steps;
  }

  /** A step picked while others are in flight continues them: a decode gets one token. */
  lemma NextStep(p: Profile, a: Async, r: Progress, n: nat)
    requires Coupled(p, a, r) && MayDispatch(p, a.req, n)
    ensures a.dropped == [] && a.req.computed == r.computed + Work(p, a.flight)
    ensures a.req.placeholders <= Reserved(p, a.flight)
    ensures IsPrefill(p, a.req) ==> n <= p.prompt - a.req.computed
    ensures !IsPrefill(p, a.req) ==> n == 1
    ensures Continues(p, r.computed, a.flight + [StepOf(p, a.req, n)])
  {
    hide Work, Reserved;
    var s := StepOf(p, a.req, n);
    FlightShape(p, r.computed, a.flight);
    assert a.dropped + a.flight == a.flight;
    assert Continues(p, Position(r.computed, a.flight), [s]);
    ContinuesAppend(p, r.computed, a.flight, s);
  }

  lemma DispatchKeeps(p: Profile, a: Async, r: Progress, n: nat)
    requires Coupled(p, a, r) && MayDispatch(p, a.req, n)
    ensures Coupled(p, Apply(p, a, Dispatch(n)).value, r)
  {
    hide Work, Reserved, Continues, SyncOk;
    NextStep(p, a, r, n);
    var s := StepOf(p, a.req, n);
    SumsAppend(p, a.flight, s);
    assert a.dropped + (a.flight + [s]) == a.flight + [s];
    CoupledSync(p, a, r);
  }

  // ---- settlement ----

  /** What one reply does to the asynchronous state `q` and to the synchronous state `r`. */
  ghost predicate SettledAlike(p: Profile, q: Progress, r: Progress, s: Step, q': Progress, r': Progress) {
    && q'.output == r'.output && q'.status == r'.status
    && q'.computed - r'.computed == q.computed - r.computed - s.numNew - p.ExtraTokens(s)
    && q'.placeholders == Max(0, q.placeholders - (if !s.isPrefill || q.computed >= p.prompt then p.Reserve(s) else 0))
    && (q'.barrier <==> q.barrier && !(s.isPrefill && p.CompletesPrompt(s)))
    && (r'.status.Running? || r'.status.IsFinished())
    && (r'.status.Running? ==> s.isPrefill ==> r'.computed == r.computed + s.numNew)
    && (r'.status.Running? ==> r'.computed >= r.computed + s.numNew)
    && (r'.status.IsFinished() ==> !(s.isPrefill && r.computed + s.numNew < p.prompt))
  }

  lemma SettleEffect(p: Profile, q: Progress, r: Progress, s: Step, t: Step, tokens: seq<Token>)
    requires q.output == r.output && q.status.Running? && r.status.Running? && SyncOk(p, r)
    requires MayReply(p, s, tokens) && t.isPrefill == s.isPrefill && t.numNew == s.numNew
    requires t.computedAt == r.computed
    requires q.computed >= r.computed + s.numNew + p.ExtraTokens(s)
    requires if s.isPrefill then s.computedAt == r.computed < r.computed + s.numNew <= p.prompt
      else r.computed >= p.prompt && s.numNew == 1
    ensures SettledAlike(p, q, r, s, Settle(p, true, q, s, tokens), Settle(p, false, r, t, tokens))
    ensures SyncOk(p, Settle(p, false, r, t, tokens))
  {
    hide Continues, Position;
    var n := Retained(p, r.output, tokens);
    assert s.isPrefill ==> r.output == [] && CheckFinish(p, r.output).None?;
    assert |tokens[..n]| == n;
  }

  lemma {:induction false} ContinuesPastPrompt(p: Profile, at: nat, at': nat, steps: seq<Step>)
    requires Continues(p, at, steps) && at >= p.prompt && at' >= p.prompt
    ensures Continues(p, at', steps)
    decreases |steps|
  {
    if steps != [] {
      ContinuesPastPrompt(p, at + steps[0].numNew, at' + steps[0].numNew, steps[1..]);
    }
  }

  /** The oldest step in flight is one the synchronous scheduler could pick now. */
  lemma FirstStep(p: Profile, a: Async, r: Progress)
    requires Coupled(p, a, r) && r.status.Running? && a.flight != []
    ensures
      var s := a.flight[0];
      && MayDispatch(p, r, s.numNew)
      && s.isPrefill == IsPrefill(p, r)
      && (if s.isPrefill then s.computedAt == r.computed < r.computed + s.numNew <= p.prompt
        else r.computed >= p.prompt && s.numNew == 1)
      && a.req.computed == r.computed + s.numNew + p.ExtraTokens(s) + Work(p, a.flight[1..])
      && a.req.placeholders <= (if p.Samples(s) then p.Reserve(s) else 0) + Reserved(p, a.flight[1..])
      && Continues(p, r.computed + s.numNew, a.flight[1..])
      && (a.req.barrier ==> r.computed < p.prompt <= r.computed + s.numNew + p.ExtraTokens(s) + Work(p, a.flight[1..]))
  {
    assert a.dropped + a.flight == a.flight;
    WorkFirst(p, a.flight);
  }

  /** A reply applied to both runs keeps them coupled. */
  lemma SettleKeeps(p: Profile, a: Async, r: Progress, tokens: seq<Token>)
    requires Coupled(p, a, r) && r.status.Running? && a.flight != [] && MayReply(p, a.flight[0], tokens)
    ensures
      var s := a.flight[0];
      && MayDispatch(p, r, s.numNew)
      && Coupled(p, Apply(p, a, Reply(tokens)).value, Settle(p, false, r, StepOf(p, r, s.numNew), tokens))
  {
    hide Settle, Continues, Work, Reserved, SyncOk;
    FirstStep(p, a, r);
    var s, rest := a.flight[0], a.flight[1..];
    CoupledSync(p, a, r);
    SettleEffect(p, a.req, r, s, StepOf(p, r, s.numNew), tokens);
    var r' := Settle(p, false, r, StepOf(p, r, s.numNew), tokens);
    assert a.dropped == [] && [] + rest == rest;
    if r'.status.Running? && !s.isPrefill {
      ContinuesPastPrompt(p, r.computed + s.numNew, r'.computed, rest);
    }
  }

  lemma CoupledSync(p: Profile, a: Async, r: Progress)
    requires Coupled(p, a, r)
    ensures SyncOk(p, r)
  {
  }

  lemma DiscardKeeps(p: Profile, a: Async, r: Progress, tokens: seq<Token>)
    requires Coupled(p, a, r) && r.status.IsFinished() && a.flight != [] && MayReply(p, a.flight[0], tokens)
    ensures Coupled(p, Apply(p, a, Reply(tokens)).value, r)
  {
    assert a.dropped + a.flight == (a.dropped + [a.flight[0]]) + a.flight[1..];
  }

  lemma CoupledSteps(p: Profile, a: Async, r: Progress, e: Event)
    requires Coupled(p, a, r) && Apply(p, a, e).Some?
    ensures
      var b := Apply(p, a, e).value;
      if b.settled == a.settled then Coupled(p, b, r)
      else
        var m := b.settled[|b.settled| - 1];
        && b.settled == a.settled + [m] && MayDispatch(p, r, m.numNew)
        && Coupled(p, b, Settle(p, false, r, StepOf(p, r, m.numNew), m.tokens))
  {
    hide Settle, Coupled, MayDispatch, Advance;
    CoupledStatus(p, a, r);
    match e
    case Dispatch(n) => DispatchKeeps(p, a, r, n);
    case Reply(tokens) =>
      if a.req.status.Running? {
        SettleKeeps(p, a, r, tokens);
      } else {
        DiscardKeeps(p, a, r, tokens);
        assert Settle(p, true, a.req, a.flight[0], tokens) == a.req by { FinishedStays(p, a.req, a.flight[0], tokens); }
      }
  }

  lemma CoupledStatus(p: Profile, a: Async, r: Progress)
    requires Coupled(p, a, r)
    ensures a.req.status == r.status && (r.status.Running? || r.status.IsFinished())
  {
  }

  lemma FinishedStays(p: Profile, r: Progress, s: Step, tokens: seq<Token>)
    requires r.status.IsFinished()
    ensures Settle(p, true, r, s, tokens) == r
  {
  }

  // ---- whole runs ----

  lemma RunStep(p: Profile, start: Async, events: seq<Event>)
    requires events != [] && Run(p, start, events).Some?
    ensures Run(p, start, events[..|events| - 1]).Some?
    ensures Apply(p, Run(p, start, events[..|events| - 1]).value, events[|events| - 1]) == Run(p, start, events)
  {
    hide Apply;
  }

  lemma SyncStep(p: Profile, start: Progress, moves: seq<Move>, m: Move)
    requires SyncRun(p, start, moves).Some? && MayDispatch(p, SyncRun(p, start, moves).value, m.numNew)
    ensures
      var r := SyncRun(p, start, moves).value;
      SyncRun(p, start, moves + [m]) == Some(Settle(p, false, r, StepOf(p, r, m.numNew), m.tokens))
  {
    hide Settle, MayDispatch;
    assert (moves + [m])[..|moves|] == moves;
  }

  /** Every asynchronous run is coupled with the synchronous run over its settled steps. */
  lemma {:induction false} RunIsCoupled(p: Profile, cached: nat, events: seq<Event>)
    requires cached < p.prompt
    requires Run(p, Async(Admitted(cached), [], [], []), events).Some?
    ensures
      var a := Run(p, Async(Admitted(cached), [], [], []), events).value;
      SyncRun(p, Admitted(cached), a.settled).Some? && Coupled(p, a, SyncRun(p, Admitted(cached), a.settled).value)
  {
    hide Coupled, Settle, Apply, Run, SyncRun, MayDispatch, StepOf;
    var start := Async(Admitted(cached), [], [], []);
    if events == [] {
      StartIsCoupled(p, cached);
    } else {
      RunStep(p, start, events);
      RunIsCoupled(p, cached, events[..|events| - 1]);
      var a := Run(p, start, events[..|events| - 1]).value;
      var r := SyncRun(p, Admitted(cached), a.settled).value;
      CoupledSteps(p, a, r, events[|events| - 1]);
      var b := Run(p, start, events).value;
      if b.settled != a.settled {
        SyncStep(p, Admitted(cached), a.settled, b.settled[|b.settled| - 1]);
      }
    }
  }

  lemma StartIsCoupled(p: Profile, cached: nat)
    requires cached < p.prompt
    ensures Coupled(p, Async(Admitted(cached), [], [], []), Admitted(cached))
    ensures Run(p, Async(Admitted(cached), [], [], []), []) == Some(Async(Admitted(cached), [], [], []))
    ensures SyncRun(p, Admitted(cached), []) == Some(Admitted(cached))
  {
  }

  /** The main theorem. Drained and unfinished, the two runs agree on the whole state: computed
      tokens, outputs, no placeholder, no barrier. */
  lemma DrainedRunIsSynchronous(p: Profile, cached: nat, events: seq<Event>)
    requires cached < p.prompt
    requires Run(p, Async(Admitted(cached), [], [], []), events).Some?
    ensures
      var a := Run(p, Async(Admitted(cached), [], [], []), events).value;
      var r := SyncRun(p, Admitted(cached), a.settled);
      && r.Some?
      && a.req.output == r.value.output && a.req.status == r.value.status
      && (a.flight == [] && a.req.status.Running? ==> a.req == r.value)
      && (a.flight == [] && a.req.status.IsFinished() ==> a.req.computed == r.value.computed + Work(p, a.dropped))
      && (a.flight == [] ==> a.req.placeholders <= Reserved(p, a.dropped))
  {
    RunIsCoupled(p, cached, events);
    var a := Run(p, Async(Admitted(cached), [], [], []), events).value;
    assert a.dropped + [] == a.dropped;
  }

  // ---- the prefill barrier of speculative decoding ----

  /** With speculation configured no decode is in flight behind an unconfirmed end of the prompt,
      and the barrier is up exactly while that end is in flight. Otherwise there is none. */
  ghost predicate Guarded(p: Profile, a: Async, r: Progress) {
    r.status.Running? ==>
      && (a.req.barrier <==> p.waits && r.computed < p.prompt <= Position(r.computed, a.flight))
      && (p.waits && r.computed < p.prompt ==> Position(r.computed, a.flight) <= p.prompt)
  }

  lemma {:induction false} PositionAppend(at: nat, steps: seq<Step>, s: Step)
    ensures Position(at, steps + [s]) == Position(at, steps) + s.numNew
    decreases |steps|
  {
    if steps == [] {
      assert steps + [s] == [s];
    } else {
      assert (steps + [s])[1..] == steps[1..] + [s];
      PositionAppend(at + steps[0].numNew, steps[1..], s);
    }
  }

  lemma GuardedDispatch(p: Profile, a: Async, r: Progress, n: nat)
    requires Coupled(p, a, r) && Guarded(p, a, r) && MayDispatch(p, a.req, n)
    ensures Guarded(p, Apply(p, a, Dispatch(n)).value, r)
  {
    hide Work, Reserved, Continues, SyncOk;
    NextStep(p, a, r, n);
    PositionAppend(r.computed, a.flight, StepOf(p, a.req, n));
    assert r.status == a.req.status;
    FlightPosition(p, a, r);
  }

  lemma FlightPosition(p: Profile, a: Async, r: Progress)
    requires Coupled(p, a, r) && r.status.Running?
    ensures r.computed <= Position(r.computed, a.flight) <= a.req.computed
    ensures Position(r.computed, a.flight) < p.prompt ==> Position(r.computed, a.flight) == a.req.computed
  {
    hide Work, Reserved;
    assert a.dropped + a.flight == a.flight;
    FlightShape(p, r.computed, a.flight);
  }

  lemma GuardedReply(p: Profile, a: Async, r: Progress, tokens: seq<Token>)
    requires Coupled(p, a, r) && Guarded(p, a, r) && r.status.Running?
    requires a.flight != [] && MayReply(p, a.flight[0], tokens)
    ensures MayDispatch(p, r, a.flight[0].numNew)
    ensures Guarded(p, Apply(p, a, Reply(tokens)).value, Settle(p, false, r, StepOf(p, r, a.flight[0].numNew), tokens))
  {
    hide Settle, Continues, Work, Reserved, SyncOk;
    FirstStep(p, a, r);
    CoupledSync(p, a, r);
    SettleEffect(p, a.req, r, a.flight[0], StepOf(p, r, a.flight[0].numNew), tokens);
  }

  lemma {:induction false} RunIsGuarded(p: Profile, cached: nat, events: seq<Event>)
    requires cached < p.prompt
    requires Run(p, Async(Admitted(cached), [], [], []), events).Some?
    ensures
      var a := Run(p, Async(Admitted(cached), [], [], []), events).value;
      SyncRun(p, Admitted(cached), a.settled).Some? && Guarded(p, a, SyncRun(p, Admitted(cached), a.settled).value)
  {
    hide Coupled, Settle, Guarded, MayDispatch, Advance;
    var start := Async(Admitted(cached), [], [], []);
    RunIsCoupled(p, cached, events);
    if events == [] {
      StartIsGuarded(p, cached);
    } else {
      var before := events[..|events| - 1];
      RunIsCoupled(p, cached, before);
      RunIsGuarded(p, cached, before);
      var a := Run(p, start, before).value;
      var r := SyncRun(p, Admitted(cached), a.settled).value;
      CoupledStatus(p, a, r);
      match events[|events| - 1] {
        case Dispatch(n) => GuardedDispatch(p, a, r, n);
        case Reply(tokens) =>
          if r.status.Running? {
            GuardedReply(p, a, r, tokens);
            var b := Run(p, start, events).value;
            assert b.settled[..|b.settled| - 1] == a.settled;
          } else {
            FinishedIsGuarded(p, Apply(p, a, Reply(tokens)).value, r);
          }
      }
    }
  }

  lemma StartIsGuarded(p: Profile, cached: nat)
    requires cached < p.prompt
    ensures Guarded(p, Async(Admitted(cached), [], [], []), Admitted(cached))
  {
  }

  lemma FinishedIsGuarded(p: Profile, a: Async, r: Progress)
    requires r.status.IsFinished()
    ensures Guarded(p, a, r)
  {
  }

  /** On every run the barrier is up exactly while speculation is configured - the request itself
      may be a sampling one - and the step that completes the prompt is in flight. */
  lemma BarrierExact(p: Profile, cached: nat, events: seq<Event>)
    requires cached < p.prompt
    requires Run(p, Async(Admitted(cached), [], [], []), events).Some?
    ensures
      var a := Run(p, Async(Admitted(cached), [], [], []), events).value;
      a.req.status.Running? ==>
        (a.req.barrier <==>
          && p.waits
          && exists i :: 0 <= i < |a.flight| && a.flight[i].isPrefill
               && a.flight[i].computedAt + a.flight[i].numNew >= p.prompt)
  {
    hide Settle, Apply, Run, SyncRun, Work, Reserved;
    RunIsCoupled(p, cached, events);
    RunIsGuarded(p, cached, events);
    var a := Run(p, Async(Admitted(cached), [], [], []), events).value;
    var r := SyncRun(p, Admitted(cached), a.settled).value;
    if r.status.Running? { EndInFlight(p, r.computed, a.flight); }
  }

  lemma {:induction false} EndInFlight(p: Profile, at: nat, steps: seq<Step>)
    requires Continues(p, at, steps)
    ensures at < p.prompt <= Position(at, steps) <==>
      exists i :: 0 <= i < |steps| && steps[i].isPrefill && steps[i].computedAt + steps[i].numNew >= p.prompt
    decreases |steps|
  {
    if steps != [] {
      var next := at + steps[0].numNew;
      EndInFlight(p, next, steps[1..]);
      FlightEnd(p, next, steps[1..]);
      assert steps == [steps[0]] + steps[1..];
      assert forall i :: 1 <= i < |steps| ==> steps[i] == steps[1..][i - 1];
      if exists i :: 0 <= i < |steps[1..]| && steps[1..][i].isPrefill
          && steps[1..][i].computedAt + steps[1..][i].numNew >= p.prompt {
        var i :| 0 <= i < |steps[1..]| && steps[1..][i].isPrefill
          && steps[1..][i].computedAt + steps[1..][i].numNew >= p.prompt;
        assert steps[i + 1] == steps[1..][i];
      }
    }
  }

  lemma {:induction false} FlightEnd(p: Profile, at: nat, steps: seq<Step>)
    requires Continues(p, at, steps)
    ensures at <= Position(at, steps)
    decreases |steps|
  {
    if steps != [] { FlightEnd(p, at + steps[0].numNew, steps[1..]); }
  }

  /** No decode is dispatched on top of an unconfirmed end of the prompt. */
  lemma NoDecodeBehindPrefill(p: Profile, cached: nat, events: seq<Event>, n: nat)
    requires cached < p.prompt && p.waits
    requires Run(p, Async(Admitted(cached), [], [], []), events).Some?
    requires MayDispatch(p, Run(p, Async(Admitted(cached), [], [], []), events).value.req, n)
    ensures
      var a := Run(p, Async(Admitted(cached), [], [], []), events).value;
      !IsPrefill(p, a.req) ==> forall i :: 0 <= i < |a.flight| ==> !a.flight[i].isPrefill
  {
    hide Settle, Apply, Run, SyncRun;
    RunIsCoupled(p, cached, events);
    RunIsGuarded(p, cached, events);
    var a := Run(p, Async(Admitted(cached), [], [], []), events).value;
    var r := SyncRun(p, Admitted(cached), a.settled).value;
    FlightPosition(p, a, r);
    if !IsPrefill(p, a.req) {
      DecodesOnly(p, r.computed, a.flight);
    }
  }

  lemma {:induction false} DecodesOnly(p: Profile, at: nat, steps: seq<Step>)
    requires Continues(p, at, steps) && at >= p.prompt
    ensures forall i :: 0 <= i < |steps| ==> !steps[i].isPrefill
    decreases |steps|
  {
    if steps != [] {
      DecodesOnly(p, at + steps[0].numNew, steps[1..]);
      assert steps == [steps[0]] + steps[1..];
    }
  }

  // ---- what a dispatch reserves, and what may follow it ----

  /** While the placeholders are the reservations in flight, a dispatch keeps them so, and once
      the end of the prompt is dispatched exactly one more token is needed: the next decode may
      follow at once, unless speculation has to wait for the prompt. */
  lemma DispatchReserves(p: Profile, a: Async, r: Progress, n: nat)
    requires Coupled(p, a, r) && MayDispatch(p, a.req, n) && a.req.placeholders == Reserved(p, a.flight)
    ensures
      var b := Apply(p, a, Dispatch(n)).value;
      && b.req.placeholders == Reserved(p, b.flight)
      && (b.req.computed >= p.prompt ==> Needed(p, b.req) == 1)
      && (b.req.computed >= p.prompt && !b.req.barrier ==> MayDispatch(p, b.req, 1))
  {
    hide Work, Reserved, Continues, SyncOk;
    NextStep(p, a, r, n);
    SumsAppend(p, a.flight, StepOf(p, a.req, n));
    DispatchKeeps(p, a, r, n);
    OneMoreNeeded(p, Apply(p, a, Dispatch(n)).value, r);
  }

  lemma OneMoreNeeded(p: Profile, a: Async, r: Progress)
    requires Coupled(p, a, r) && r.status.Running? && a.req.placeholders == Reserved(p, a.flight)
    ensures a.req.computed >= p.prompt ==> Needed(p, a.req) == 1
    ensures a.req.computed < p.prompt ==> Needed(p, a.req) == p.prompt - a.req.computed
  {
    hide Work, Reserved, Continues;
    assert a.dropped + a.flight == a.flight;
    ContinuesNow(p, a, r);
    FlightShape(p, r.computed, a.flight);
    FlightPosition(p, a, r);
  }

  lemma ContinuesNow(p: Profile, a: Async, r: Progress)
    requires Coupled(p, a, r) && r.status.Running?
    ensures Continues(p, r.computed, a.flight) && a.dropped == []
  {
  }

  /** No reply of the run settles a chunk of the prompt after the last chunk was dispatched. */
  ghost predicate NoEarlyRelease(p: Profile, start: Async, events: seq<Event>) {
    forall i :: 0 <= i < |events| && events[i].Reply? && Run(p, start, events[..i]).Some? ==>
      var a := Run(p, start, events[..i]).value;
      a.req.status.Running? && a.flight != [] ==> p.Samples(a.flight[0]) || a.req.computed < p.prompt
  }

  /** On every run without an early release, as long as the request runs, its placeholders are
      the reservations in flight, and it always needs something: the pipeline never runs dry
      but for the prefill barrier. */
  lemma {:induction false} PipelineStaysFull(p: Profile, cached: nat, events: seq<Event>)
    requires cached < p.prompt
    requires Run(p, Async(Admitted(cached), [], [], []), events).Some?
    requires NoEarlyRelease(p, Async(Admitted(cached), [], [], []), events)
    ensures
      var a := Run(p, Async(Admitted(cached), [], [], []), events).value;
      a.req.status.Running? ==>
        && a.req.placeholders == Reserved(p, a.flight)
        && Needed(p, a.req) == (if a.req.computed < p.prompt then p.prompt - a.req.computed else 1)
        && (!a.req.barrier ==> MayDispatch(p, a.req, 1))
  {
    hide Coupled, Settle, Advance, Reserved, SyncRun;
    var start := Async(Admitted(cached), [], [], []);
    RunIsCoupled(p, cached, events);
    var b := Run(p, start, events).value;
    var r' := SyncRun(p, Admitted(cached), b.settled).value;
    CoupledStatus(p, b, r');
    if events == [] {
      NothingReserved(p);
    } else {
      var before := events[..|events| - 1];
      RunStep(p, start, events);
      RunIsCoupled(p, cached, before);
      assert forall i :: 0 <= i < |before| ==> before[..i] == events[..i];
      PipelineStaysFull(p, cached, before);
      var a := Run(p, start, before).value;
      var r := SyncRun(p, Admitted(cached), a.settled).value;
      CoupledStatus(p, a, r);
      match events[|events| - 1] {
        case Dispatch(n) => DispatchReserves(p, a, r, n);
        case Reply(tokens) =>
          if a.req.status.Running? {
            PlaceholdersExact(p, a, r, tokens);
          } else {
            FinishedStays(p, a.req, a.flight[0], tokens);
          }
      }
    }
    if b.req.status.Running? {
      OneMoreNeeded(p, b, r');
      assert !b.req.barrier ==> MayDispatch(p, b.req, 1) by { Dispatchable(p, b.req); }
    }
  }

  lemma NothingReserved(p: Profile)
    ensures Reserved(p, []) == 0
  {
  }

  lemma Dispatchable(p: Profile, r: Progress)
    requires r.status.Running? && Needed(p, r) >= 1
    ensures !r.barrier ==> MayDispatch(p, r, 1)
  {
  }

  // ---- where the obvious claims stop ----

  /** Placeholders equal the reservations in flight until a chunk of the prompt settles after
      the last chunk was dispatched; exactly then one is released early. */
  lemma PlaceholdersExact(p: Profile, a: Async, r: Progress, tokens: seq<Token>)
    requires Coupled(p, a, r) && r.status.Running? && a.flight != [] && MayReply(p, a.flight[0], tokens)
    requires a.req.placeholders == Reserved(p, a.flight)
    ensures
      var b := Apply(p, a, Reply(tokens)).value;
      b.req.placeholders == Reserved(p, b.flight) <==> p.Samples(a.flight[0]) || a.req.computed < p.prompt
  {
    hide Settle, Continues, Reserved, SyncOk;
    FirstStep(p, a, r);
    CoupledSync(p, a, r);
    WorkFirst(p, a.flight);
    SettleEffect(p, a.req, r, a.flight[0], StepOf(p, r, a.flight[0].numNew), tokens);
    if !p.Samples(a.flight[0]) && a.req.computed >= p.prompt {
      FlightShape(p, r.computed + a.flight[0].numNew, a.flight[1..]);
    }
  }

  lemma RunAppend(p: Profile, start: Async, events: seq<Event>, e: Event)
    requires Run(p, start, events).Some?
    ensures Run(p, start, events + [e]) == Apply(p, Run(p, start, events).value, e)
  {
    hide Apply;
    assert (events + [e])[..|events|] == events;
  }

  /** Two one-token chunks in flight: settling the first releases the placeholder of the second. */
  lemma EarlyRelease()
    ensures
      var p := Profile(2, 1, None, 0, false);
      var a := Run(p, Async(Admitted(0), [], [], []), [Dispatch(1), Dispatch(1), Reply([])]);
      a.Some? && a.value.req.placeholders == 0 && Reserved(p, a.value.flight) == 1
  {
    hide Run, Apply, Reserved;
    var p := Profile(2, 1, None, 0, false);
    var start := Async(Admitted(0), [], [], []);
    StartIsCoupled(p, 0);
    EarlySteps(p);
    RunAppend(p, start, [], Dispatch(1));
    assert [] + [Dispatch(1)] == [Dispatch(1)];
    RunAppend(p, start, [Dispatch(1)], Dispatch(1));
    assert [Dispatch(1)] + [Dispatch(1)] == [Dispatch(1), Dispatch(1)];
    RunAppend(p, start, [Dispatch(1), Dispatch(1)], Reply([]));
    assert [Dispatch(1), Dispatch(1)] + [Reply([])] == [Dispatch(1), Dispatch(1), Reply([])];
  }

  lemma EarlySteps(p: Profile)
    requires p == Profile(2, 1, None, 0, false)
    ensures
      var first, last := Step(true, 1, 0), Step(true, 1, 1);
      var one := Async(Progress(1, [], 0, false, Running), [first], [], []);
      var two := Async(Progress(2, [], 1, false, Running), [first, last], [], []);
      && Apply(p, Async(Admitted(0), [], [], []), Dispatch(1)) == Some(one)
      && Apply(p, one, Dispatch(1)) == Some(two)
      && Apply(p, two, Reply([])) == Some(Async(Progress(2, [], 0, false, Running), [last], [Move(1, [])], []))
      && Reserved(p, [last]) == 1
  {
    hide Work, Reserved, Settle, Apply;
    var first, last := Step(true, 1, 0), Step(true, 1, 1);
    var one := Async(Progress(1, [], 0, false, Running), [first], [], []);
    var two := Async(Progress(2, [], 1, false, Running), [first, last], [], []);
    EarlyFirst(p, first);
    assert one.flight + [last] == [first, last];
    EarlyDispatch(p, one, last, two);
    EarlySettle(p, two.req, first);
    EarlyReply(p, two, first, last);
    EarlyReserved(p, last);
  }

  lemma EarlyFirst(p: Profile, first: Step)
    requires p == Profile(2, 1, None, 0, false) && first == Step(true, 1, 0)
    ensures Apply(p, Async(Admitted(0), [], [], []), Dispatch(1)) ==
      Some(Async(Progress(1, [], 0, false, Running), [first], [], []))
  {
    var start := Async(Admitted(0), [], [], []);
    assert start.flight + [first] == [first];
  }

  lemma EarlyReserved(p: Profile, last: Step)
    requires p == Profile(2, 1, None, 0, false) && last == Step(true, 1, 1)
    ensures Reserved(p, [last]) == 1
  {
    WorkFirst(p, [last]);
    assert [last][1..] == [];
  }

  lemma EarlyReply(p: Profile, a: Async, s: Step, last: Step)
    requires a == Async(a.req, [s, last], [], []) && a.req.status.Running? && s.numNew == 1 && !p.Samples(s)
    ensures Apply(p, a, Reply([])) == Some(Async(Settle(p, true, a.req, s, []), [last], [Move(1, [])], []))
  {
    hide Settle;
    assert a.flight[1..] == [last] && a.settled + [Move(1, [])] == [Move(1, [])];
  }

  lemma EarlyDispatch(p: Profile, a: Async, s: Step, b: Async)
    requires MayDispatch(p, a.req, s.numNew) && s == StepOf(p, a.req, s.numNew)
    requires b == Async(Advance(p, a.req, s), a.flight + [s], a.settled, a.dropped)
    ensures Apply(p, a, Dispatch(s.numNew)) == Some(b)
  {
  }

  lemma EarlySettle(p: Profile, r: Progress, s: Step)
    requires p == Profile(2, 1, None, 0, false) && r == Progress(2, [], 1, false, Running) && s == Step(true, 1, 0)
    ensures Settle(p, true, r, s, []) == r.(placeholders := 0)
  {
    assert r.output + [] == r.output;
  }

  /** A decode settles as the synchronous one does exactly when the worker keeps its contract
      of at least one and at most `1 + speculative` retained tokens. */
  lemma DecodeReplyExact(p: Profile, r: Progress, tokens: seq<Token>)
    requires r.status.Running? && !r.barrier && r.placeholders == 0 && r.computed >= p.prompt
    ensures
      var s := StepOf(p, r, 1);
      Settle(p, true, Advance(p, r, s), s, tokens) == Settle(p, false, r, s, tokens)
      <==> 1 <= Retained(p, r.output, tokens) <= 1 + p.speculative
  {
    var s := StepOf(p, r, 1);
    var q := Advance(p, r, s);
    assert Reconcile(p, q, s, tokens).output == UpdateSync(p, r, s, tokens).output;
  }
}
