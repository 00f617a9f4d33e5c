/** Why the engine may discard a stale result by looking at the request's status alone. Each
    request counts its preemptions (its epoch), and each step in flight remembers the epoch at
    which it was dispatched. A result is stale when the epochs differ. The code has no epochs:
    it discards a result when the request is preempted or finished, and this is sound exactly
    for pipelines of depth at most two.

    The scheduler is any one whose victims ran, are not scheduled, and are not admitted again by
    the same call; `StaleSchedule` shows that `SchedulerPass` is one. */
module StaleResults {
  import opened CacheTypes
  import opened Requests

  /** What one call of `schedule` did. */
  datatype Choice = Choice(preempted: set<ReqId>, admitted: set<ReqId>, rejected: set<ReqId>, scheduled: set<ReqId>)

  datatype Loop = Loop(
    status: map<ReqId, Status>,
    epoch: map<ReqId, nat>,
    flight: seq<map<ReqId, nat>>,    // requests of each step in flight, with their epochs
    awaiting: bool)                  // past the dispatch of this iteration, bound to await

  datatype Event =
    | Add(id: ReqId)
    | Abort(id: ReqId)
    | Dispatch(choice: Choice)                      // schedule, and send what it scheduled
    | Skip                                          // queue full, or no work
    | Await(ok: bool, finished: set<ReqId>)         // settle the oldest step

  predicate Is(s: Loop, r: ReqId, status: Status) {
    r in s.status && s.status[r] == status
  }

  predicate MayChoose(s: Loop, c: Choice) {
    && (forall r :: r in c.preempted ==> Is(s, r, Running))
    && (forall r :: r in c.admitted + c.rejected ==> Is(s, r, Waiting) || Is(s, r, Preempted))
    && c.admitted !! c.rejected
    && (forall r :: r in c.scheduled ==> r in c.admitted || (Is(s, r, Running) && r !in c.preempted))
  }

  /** The results of the oldest step that are applied. */
  function AppliedTo(s: Loop): set<ReqId>
    requires s.flight != []
  {
    set r | r in s.flight[0] && Is(s, r, Running)
  }

  predicate Enabled(s: Loop, depth: nat, e: Event) {
    match e
    case Add(r) => r !in s.status && r !in s.epoch
    case Abort(r) => r in s.status
    case Dispatch(c) => !s.awaiting && |s.flight| < depth && MayChoose(s, c)
    case Skip => !s.awaiting
    case Await(_, finished) => s.awaiting && s.flight != [] && finished <= AppliedTo(s)
  }

  function InFlight(s: Loop): set<ReqId> {
    set i, r | 0 <= i < |s.flight| && r in s.flight[i] :: r
  }

  function Apply(s: Loop, depth: nat, e: Event): Loop
    requires Enabled(s, depth, e)
  {
    match e
    case Add(r) => s.(status := s.status[r := Waiting], epoch := s.epoch[r := 0])
    case Abort(r) => s.(status := s.status[r := FinishedAborted])
    case Dispatch(c) =>
      var status := map r | r in s.status ::
        if r in c.preempted then Preempted
        else if r in c.admitted then Running
        else if r in c.rejected then FinishedAborted
        else s.status[r];
      var epoch := map r | r in s.epoch :: if r in c.preempted then s.epoch[r] + 1 else s.epoch[r];
      var flight := if c.scheduled == {} then s.flight
        else s.flight + [map r | r in c.scheduled && r in epoch :: epoch[r]];
      Loop(status, epoch, flight, flight != [] && (|flight| >= depth || c.scheduled == {}))
    case Skip => s.(awaiting := s.flight != [])
    case Await(ok, finished) =>
      if ok then
        s.(status := map r | r in s.status :: if r in finished then FinishedLength else s.status[r],
           flight := s.flight[1..], awaiting := false)
      else
        s.(status := map r | r in s.status :: if r in InFlight(s) then FinishedAborted else s.status[r],
           flight := [], awaiting := false)
  }

  /** The event applies a result that was dispatched before the request was last preempted. */
  predicate AppliesStale(s: Loop, e: Event) {
    e.Await? && e.ok && s.flight != []
    && exists r :: r in AppliedTo(s) && (r !in s.epoch || s.flight[0][r] != s.epoch[r])
  }

  function Run(depth: nat, events: seq<Event>): Option<Loop> {
    if events == [] then Some(Loop(map[], map[], [], false))
    else
      var s := Run(depth, events[..|events| - 1]);
      if s.None? || !Enabled(s.value, depth, events[|events| - 1]) then None
      else Some(Apply(s.value, depth, events[|events| - 1]))
  }

  // ---- the invariant at depth two ----

  /** Nothing of this step is stale or preempted. */
  ghost predicate Fresh(s: Loop, step: map<ReqId, nat>) {
    forall r :: r in step ==>
      && r in s.status && r in s.epoch
      && (s.status[r].IsFinished() || (s.status[r].Running? && step[r] == s.epoch[r]))
  }

  /** What is stale is preempted, so it will be discarded. */
  ghost predicate Guarded(s: Loop, step: map<ReqId, nat>) {
    forall r :: r in step ==>
      && r in s.status && r in s.epoch
      && (s.status[r].IsFinished() || s.status[r].Preempted? || (s.status[r].Running? && step[r] == s.epoch[r]))
  }

  ghost predicate Safe(s: Loop, depth: nat) {
    && s.status.Keys == s.epoch.Keys
    && (!s.awaiting ==> |s.flight| < depth && forall i :: 0 <= i < |s.flight| ==> Fresh(s, s.flight[i]))
    && (s.awaiting ==> s.flight != [] && Guarded(s, s.flight[0]) && forall i :: 1 <= i < |s.flight| ==>
      Fresh(s, s.flight[i]))
    && |s.flight| <= depth
  }

  lemma DispatchSafe(s: Loop, depth: nat, c: Choice)
    requires 1 <= depth <= 2 && Safe(s, depth) && Enabled(s, depth, Dispatch(c))
    ensures Safe(Apply(s, depth, Dispatch(c)), depth)
  {
    var t := Apply(s, depth, Dispatch(c));
    if s.flight != [] {
      assert Fresh(s, s.flight[0]);
      assert t.flight[0] == s.flight[0];
      forall r | r in t.flight[0]
        ensures r in t.status && r in t.epoch
        ensures t.status[r].IsFinished() || t.status[r].Preempted? || (t.status[r].Running? &&
          t.flight[0][r] == t.epoch[r])
      {
        assert r in c.admitted + c.rejected ==> Is(s, r, Waiting) || Is(s, r, Preempted);
      }
      assert Guarded(t, t.flight[0]);
    }
    if c.scheduled != {} {
      var step := t.flight[|t.flight| - 1];
      forall r | r in step
        ensures r in t.status && r in t.epoch && t.status[r].Running? && step[r] == t.epoch[r]
      {
        assert r in c.scheduled;
        assert r in c.admitted || r in c.rejected ==> r in c.admitted + c.rejected;
        assert r in c.admitted + c.rejected ==> Is(s, r, Waiting) || Is(s, r, Preempted);
        assert r in c.admitted || (Is(s, r, Running) && r !in c.preempted);
        assert r in c.preempted ==> Is(s, r, Running);
      }
      assert Fresh(t, step);
    }
  }

  lemma AwaitSafe(s: Loop, depth: nat, ok: bool, finished: set<ReqId>)
    requires Safe(s, depth) && Enabled(s, depth, Await(ok, finished))
    ensures Safe(Apply(s, depth, Await(ok, finished)), depth)
    ensures !AppliesStale(s, Await(ok, finished))
  {
    var t := Apply(s, depth, Await(ok, finished));
    if ok {
      forall i | 0 <= i < |t.flight|
        ensures Fresh(t, t.flight[i])
      {
        assert t.flight[i] == s.flight[i + 1] && Fresh(s, s.flight[i + 1]);
      }
    }
    assert Guarded(s, s.flight[0]);
  }

  lemma OtherSafe(s: Loop, depth: nat, e: Event)
    requires Safe(s, depth) && Enabled(s, depth, e) && (e.Add? || e.Abort? || e.Skip?)
    ensures Safe(Apply(s, depth, e), depth)
  {
    var t := Apply(s, depth, e);
    assert t.flight == s.flight;
    forall i | 0 <= i < |s.flight|
      ensures Fresh(s, s.flight[i]) ==> Fresh(t, t.flight[i])
      ensures Guarded(s, s.flight[i]) ==> Guarded(t, t.flight[i])
      ensures Fresh(s, s.flight[i]) ==> Guarded(t, t.flight[i])
    {
    }
    assert !s.awaiting && s.flight != [] ==> Fresh(s, s.flight[0]);
  }

  /** At every loop head of a run of depth one or two, nothing in flight is preempted, and no
      result is applied to a later epoch of its request. */
  lemma {:induction false} RunSafe(depth: nat, events: seq<Event>)
    requires 1 <= depth <= 2 && Run(depth, events).Some?
    ensures Safe(Run(depth, events).value, depth)
    ensures events != [] ==> !AppliesStale(Run(depth, events[..|events| - 1]).value, events[|events| - 1])
  {
    hide Safe, Apply, AppliesStale, Enabled;
    if events == [] {
      StartSafe(depth);
    } else {
      var e := events[|events| - 1];
      RunSafe(depth, events[..|events| - 1]);
      var s := Run(depth, events[..|events| - 1]).value;
      match e
      case Dispatch(c) => DispatchSafe(s, depth, c); NotStale(s, e);
      case Await(ok, finished) => AwaitSafe(s, depth, ok, finished);
      case _ => OtherSafe(s, depth, e); NotStale(s, e);
    }
  }

  lemma StartSafe(depth: nat)
    requires depth >= 1
    ensures Safe(Loop(map[], map[], [], false), depth)
  {
  }

  lemma NotStale(s: Loop, e: Event)
    requires !e.Await?
    ensures !AppliesStale(s, e)
  {
  }

  lemma NothingPreemptedInFlight(depth: nat, events: seq<Event>)
    requires 1 <= depth <= 2 && Run(depth, events).Some?
    ensures
      var s := Run(depth, events).value;
      !s.awaiting ==> forall i, r :: 0 <= i < |s.flight| && r in s.flight[i] ==>
        r in s.status && !s.status[r].Preempted?
  {
    hide Run;
    RunSafe(depth, events);
    var s := Run(depth, events).value;
    if !s.awaiting {
      forall i, r | 0 <= i < |s.flight| && r in s.flight[i]
        ensures r in s.status && !s.status[r].Preempted?
      {
        assert Fresh(s, s.flight[i]);
      }
    }
  }

  // ---- deeper pipelines ----

  /** A request runs in steps A and B, is preempted, waits until A is settled, runs again in
      step C; then the result of B, from before the preemption, is applied. */
  function Witness(): seq<Event> {
    var run, rerun := Choice({}, {}, {}, {"r"}), Choice({}, {"r"}, {}, {"r"});
    [Add("r"), Dispatch(rerun), Dispatch(run), Dispatch(Choice({"r"}, {}, {}, {})), Await(true, {}), Dispatch(rerun),
      Skip, Await(true, {})]
  }

  lemma RunAppend(depth: nat, events: seq<Event>, e: Event)
    requires Run(depth, events).Some?
    ensures Run(depth, events + [e])
         == if Enabled(Run(depth, events).value, depth, e) then Some(Apply(Run(depth, events).value, depth, e))
           else None
  {
    hide Apply, Enabled;
    assert (events + [e])[..|events|] == events;
  }

  /** One request's run: its status, its epoch, and the epochs of the steps it is part of. */
  function Solo(status: Status, epoch: nat, flight: seq<nat>, awaiting: bool): Loop {
    Loop(map["r" := status], map["r" := epoch], seq(|flight|, i requires 0 <= i < |flight| => map["r" := flight[i]]),
      awaiting)
  }

  lemma SoloDispatch(depth: nat, status: Status, epoch: nat, flight: seq<nat>)
    requires depth >= 3 && |flight| < 2 && status in {Running, Waiting, Preempted}
    ensures
      var c := Choice({}, if status == Running then {} else {"r"}, {}, {"r"});
      && Enabled(Solo(status, epoch, flight, false), depth, Dispatch(c))
      && Apply(Solo(status, epoch, flight, false), depth, Dispatch(c)) == Solo(Running, epoch, flight + [epoch], false)
  {
    var c := Choice({}, if status == Running then {} else {"r"}, {}, {"r"});
    var s := Solo(status, epoch, flight, false);
    var t := Apply(s, depth, Dispatch(c));
    var u := Solo(Running, epoch, flight + [epoch], false);
    assert c.scheduled != {} by { assert "r" in c.scheduled; }
    assert |t.flight| == |u.flight|;
    assert t.flight[|flight|] == map["r" := epoch];
    assert t.flight == u.flight;
    assert t.status == u.status && t.epoch == u.epoch;
  }

  lemma SoloPreempt(depth: nat)
    requires depth >= 3
    ensures
      var c := Choice({"r"}, {}, {}, {});
      && Enabled(Solo(Running, 0, [0, 0], false), depth, Dispatch(c))
      && Apply(Solo(Running, 0, [0, 0], false), depth, Dispatch(c)) == Solo(Preempted, 1, [0, 0], true)
  {
    var s := Solo(Running, 0, [0, 0], false);
    var t := Apply(s, depth, Dispatch(Choice({"r"}, {}, {}, {})));
    assert t.status == map["r" := Preempted] && t.epoch == map["r" := 1];
    assert t.flight == Solo(Preempted, 1, [0, 0], true).flight;
  }

  lemma SoloAwait(depth: nat, status: Status, epoch: nat, flight: seq<nat>)
    requires flight != []
    ensures
      && Enabled(Solo(status, epoch, flight, true), depth, Await(true, {}))
      && Apply(Solo(status, epoch, flight, true), depth, Await(true, {})) == Solo(status, epoch, flight[1..], false)
  {
    var s := Solo(status, epoch, flight, true);
    var t := Apply(s, depth, Await(true, {}));
    assert t.status == s.status;
    assert t.flight == Solo(status, epoch, flight[1..], false).flight;
  }

  lemma DeepRun(depth: nat)
    requires depth >= 3
    ensures Run(depth, Witness()[..7]) == Some(Solo(Running, 1, [0, 1], true))
  {
    hide Run, Apply, Enabled, Solo;
    var w := Witness();
    assert w[..0] == [] && w[..1] == w[..0] + [w[0]] && w[..2] == w[..1] + [w[1]] && w[..3] == w[..2] + [w[2]];
    assert w[..4] == w[..3] + [w[3]] && w[..5] == w[..4] + [w[4]] && w[..6] == w[..5] + [w[5]] &&
      w[..7] == w[..6] + [w[6]];
    FirstSteps(depth);
    RunAppend(depth, w[..0], w[0]);
    SoloDispatch(depth, Waiting, 0, []);
    RunAppend(depth, w[..1], w[1]);
    SoloDispatch(depth, Running, 0, [0]);
    assert [] + [0] == [0] && [0] + [0] == [0, 0] && [0, 0][1..] == [0] && [0] + [1] == [0, 1];
    RunAppend(depth, w[..2], w[2]);
    SoloPreempt(depth);
    RunAppend(depth, w[..3], w[3]);
    SoloAwait(depth, Preempted, 1, [0, 0]);
    RunAppend(depth, w[..4], w[4]);
    SoloDispatch(depth, Preempted, 1, [0]);
    RunAppend(depth, w[..5], w[5]);
    RunAppend(depth, w[..6], w[6]);
  }

  lemma FirstSteps(depth: nat)
    ensures Run(depth, []) == Some(Loop(map[], map[], [], false))
    ensures Enabled(Loop(map[], map[], [], false), depth, Add("r"))
    ensures Apply(Loop(map[], map[], [], false), depth, Add("r")) == Solo(Waiting, 0, [], false)
    ensures Enabled(Solo(Running, 1, [0, 1], false), depth, Skip)
    ensures Apply(Solo(Running, 1, [0, 1], false), depth, Skip) == Solo(Running, 1, [0, 1], true)
  {
  }

  lemma StaleAtLast()
    ensures AppliesStale(Solo(Running, 1, [0, 1], true), Await(true, {}))
  {
    var s := Solo(Running, 1, [0, 1], true);
    assert "r" in AppliedTo(s) && s.flight[0]["r"] == 0;
  }

  /** Discarding by status keeps stale results out of every run exactly when the pipeline is at
      most two deep. */
  lemma DepthExact(depth: nat)
    requires depth >= 1
    ensures
      (forall events :: events != [] && Run(depth, events).Some? ==>
         !AppliesStale(Run(depth, events[..|events| - 1]).value, events[|events| - 1]))
      <==> depth <= 2
  {
    hide AppliesStale, Apply, Enabled;
    if depth <= 2 {
      forall events | events != [] && Run(depth, events).Some?
        ensures !AppliesStale(Run(depth, events[..|events| - 1]).value, events[|events| - 1])
      {
        RunSafe(depth, events);
      }
    } else {
      var w := Witness();
      DeepRun(depth);
      StaleAtLast();
      SoloAwait(depth, Running, 1, [0, 1]);
      RunAppend(depth, w[..7], w[7]);
      assert w == w[..7] + [w[7]] && w[..|w| - 1] == w[..7];
      assert Run(depth, w).Some?;
    }
  }
}
