/** `StaleResults` runs on request ids and statuses. Here the scheduler itself takes its place: a
    call of `Scheduler.Schedule` is one `Dispatch` event of that loop, with the same statuses
    after it. */
module StaleSchedule {
  import opened CacheTypes
  import opened Requests
  import opened Queues
  import opened SchedulerBudget
  import opened SchedulerPass
  import L = StaleResults

  /** The loop knows these requests, each under its own id, and their statuses. */
  ghost predicate Tracks(all: set<Request>, status: map<ReqId, Status>)
    reads all
  {
    && (forall a, b :: a in all && b in all && a.id == b.id ==> a == b)
    && (forall id :: id in status ==> exists r :: r in all && r.id == id)
    && (forall r :: r in all ==> r.id in status && status[r.id] == r.status)
  }

  function IdsOf(rs: seq<Request>): set<ReqId> {
    set r | r in rs :: r.id
  }

  function ScheduledIds(scheduled: seq<Scheduled>): set<ReqId> {
    set s | s in scheduled :: s.request.id
  }

  function ChoiceOf(pass: Pass): L.Choice {
    L.Choice(IdsOf(pass.preempted), IdsOf(pass.admitted), IdsOf(pass.rejected), ScheduledIds(pass.scheduled))
  }

  /** Who was scheduled: a request admitted now, or one that ran and was not preempted. */
  ghost predicate Picks(pass: Pass, was: seq<Request>) {
    forall s :: s in pass.scheduled ==> s.request in pass.admitted || (s.request in was && s.request !in pass.preempted)
  }

  /** The choice of one pass is one the loop allows. */
  lemma PassMayChoose(pass: Pass, all: set<Request>, was: seq<Request>, queued: seq<Request>,
      before: map<Request, Progress>, loop: L.Loop)
    requires (forall r :: r in was ==> r in all && r in before && before[r].status.Running?)
    requires (forall r :: r in queued ==>
      r in all && r in before && (before[r].status.Waiting? || before[r].status.Preempted?))
    requires forall a, b :: a in all && b in all && a.id == b.id ==> a == b
    requires forall r :: r in was + queued ==> r.id in loop.status && loop.status[r.id] == before[r].status
    requires Scheduler.Fates(pass, was, queued) && Picks(pass, was)
    ensures L.MayChoose(loop, ChoiceOf(pass))
  {
    forall id | id in IdsOf(pass.preempted)
      ensures L.Is(loop, id, Running)
    {
      var r :| r in pass.preempted && r.id == id;
      assert r in was + queued;
    }
    forall id | id in IdsOf(pass.admitted) + IdsOf(pass.rejected)
      ensures L.Is(loop, id, Waiting) || L.Is(loop, id, Preempted)
    {
      var r :| (r in pass.admitted || r in pass.rejected) && r.id == id;
      assert r in was + queued;
    }
    forall id | id in ScheduledIds(pass.scheduled)
      ensures id in IdsOf(pass.admitted) || (L.Is(loop, id, Running) && id !in IdsOf(pass.preempted))
    {
      var s :| s in pass.scheduled && s.request.id == id;
      if s.request !in pass.admitted { assert s.request in was + queued; }
    }
  }

  /** What the loop makes of the statuses is what the pass did to the requests. */
  lemma StatusesFollow(pass: Pass, all: set<Request>, was: seq<Request>, queued: seq<Request>,
      before: map<Request, Progress>,
                       loop: L.Loop, depth: nat)
    requires forall r :: r in was + queued ==> r in all && r in before
    requires forall a, b :: a in all && b in all && a.id == b.id ==> a == b
    requires forall id :: id in loop.status ==> exists r :: r in all && r.id == id
    requires forall r :: r in all ==> r.id in loop.status
    requires forall r :: r in was + queued ==> loop.status[r.id] == before[r].status
    requires forall r :: r in all && r !in was && r !in queued ==> loop.status[r.id] == r.status
    requires Scheduler.Fates(pass, was, queued) && Scheduler.RanEffect(pass, was, before)
    requires Scheduler.QueuedEffect(pass, queued, before)
    requires NoDuplicates(was + queued) && L.Enabled(loop, depth, L.Dispatch(ChoiceOf(pass)))
    ensures Tracks(all, L.Apply(loop, depth, L.Dispatch(ChoiceOf(pass))).status)
  {
    var status := L.Apply(loop, depth, L.Dispatch(ChoiceOf(pass))).status;
    DistinctParts(was, queued);
    forall r | r in all
      ensures r.id in status && status[r.id] == r.status
    {
      SameIds(pass.preempted, all, r);
      SameIds(pass.admitted, all, r);
      SameIds(pass.rejected, all, r);
      assert r in was || r in queued ==> r in was + queued;
    }
  }

  lemma SameIds(rs: seq<Request>, all: set<Request>, r: Request)
    requires r in all && forall x :: x in rs ==> x in all
    requires forall a, b :: a in all && b in all && a.id == b.id ==> a == b
    ensures r.id in IdsOf(rs) <==> r in rs
  {
  }

  /** One call of `schedule` is one dispatch of the loop. */
  method DispatchBySchedule(scheduler: Scheduler, ghost all: set<Request>, ghost loop: L.Loop, ghost depth: nat)
    returns (pass: Pass)
    requires scheduler.Valid() && forall r :: r in scheduler.running + scheduler.waiting ==> r in all
    requires Tracks(all, loop.status) && !loop.awaiting && |loop.flight| < depth
    modifies scheduler, scheduler.running, scheduler.waiting
    ensures scheduler.Valid() && forall r :: r in scheduler.running + scheduler.waiting ==> r in all
    ensures L.Enabled(loop, depth, L.Dispatch(ChoiceOf(pass)))
    ensures Tracks(all, L.Apply(loop, depth, L.Dispatch(ChoiceOf(pass))).status)
  {
    ghost var was, queued := scheduler.running, scheduler.waiting;
    ghost var phase, before;
    pass, phase, before := Call(scheduler, all, loop.status);
    PassMayChoose(pass, all, was, queued, before, loop);
    StatusesFollow(pass, all, was, queued, before, loop, depth);
  }

  /** The call, and what of its contract the loop needs. */
  method Call(scheduler: Scheduler, ghost all: set<Request>, ghost status: map<ReqId, Status>)
    returns (pass: Pass, ghost phase: Option<Phase>, ghost before: map<Request, Progress>)
    requires scheduler.Valid() && forall r :: r in scheduler.running + scheduler.waiting ==> r in all
    requires Tracks(all, status)
    modifies scheduler, scheduler.running, scheduler.waiting
    ensures scheduler.Valid() && forall r :: r in scheduler.running + scheduler.waiting ==> r in all
    ensures NoDuplicates(old(scheduler.running) + old(scheduler.waiting))
    ensures forall r :: r in old(scheduler.running) ==> r in before && before[r].status.Running?
    ensures forall r :: r in old(scheduler.waiting) ==>
      r in before && (before[r].status.Waiting? || before[r].status.Preempted?)
    ensures forall r :: r in old(scheduler.running) + old(scheduler.waiting) ==>
      r.id in status && status[r.id] == before[r].status
    ensures forall r :: r in all && r !in old(scheduler.running) && r !in old(scheduler.waiting) ==>
      r.id in status && status[r.id] == r.status
    ensures Scheduler.Fates(pass, old(scheduler.running), old(scheduler.waiting)) && Picks(pass, old(scheduler.running))
    ensures Scheduler.RanEffect(pass, old(scheduler.running), before)
    ensures Scheduler.QueuedEffect(pass, old(scheduler.waiting), before)
  {
    hide Without, Reversed, NoDuplicates, Scheduler.RanEffect, Scheduler.QueuedEffect, Scheduler.Served;
    hide Scheduler.InOrder, Scheduler.Chose, Scheduler.OnePhase, Scheduler.Refused, Scheduler.Stands, Config.MayCut,
      Balanced;
    ghost var was, queued := scheduler.running, scheduler.waiting;
    assert forall r :: r in was ==> r in was + queued;
    assert forall r :: r in queued ==> r in was + queued;
    pass, phase, before := scheduler.Schedule();
    QueuesStay(was, queued, pass);
    forall s | s in pass.scheduled
      ensures s.request in pass.admitted || (s.request in was && s.request !in pass.preempted)
    {
      var i :| 0 <= i < |pass.scheduled| && pass.scheduled[i] == s;
    }
  }

  lemma QueuesStay(was: seq<Request>, queued: seq<Request>, pass: Pass)
    requires Scheduler.Fates(pass, was, queued)
    ensures forall r :: r in Without(was, SetOf(pass.preempted)) ==> r in was && r !in pass.preempted
    ensures forall r :: r in Without(Reversed(pass.preempted) + queued, SetOf(pass.admitted) + SetOf(pass.rejected)) ==>
      r in was || r in queued
  {
    hide Without, Reversed;
    ReversedMembers(pass.preempted);
    WithoutSet(was, SetOf(pass.preempted));
    var line := Reversed(pass.preempted) + queued;
    WithoutSet(line, SetOf(pass.admitted) + SetOf(pass.rejected));
    forall r | r in Without(was, SetOf(pass.preempted))
      ensures r in was && r !in pass.preempted
    {
      assert r in SetOf(was) - SetOf(pass.preempted);
    }
    forall r | r in Without(line, SetOf(pass.admitted) + SetOf(pass.rejected))
      ensures r in was || r in queued
    {
      assert r in SetOf(line);
    }
  }
}
