/** One call of `Scheduler.schedule`: running requests first, with preemption while the loop
    walks a snapshot of the queue, then admission from the waiting queue.

    The cache is an oracle that answers each allocation and each prefix lookup as it likes;
    its own behaviour is the subject of `Manager`. */
module SchedulerPass {
  import opened CacheTypes
  import opened Requests
  import opened Queues
  import opened SchedulerBudget

  class Scheduler {
    const config: Config
    const oracle: nat -> Answer
    var calls: nat                     // answers taken from the oracle so far
    var running: seq<Request>
    var waiting: seq<Request>
    var nextPhase: Phase
    ghost var holding: set<Request>    // requests that may hold cache blocks

    /** A request that is not running has released everything it had. */
    ghost predicate Parked(r: Request)
      reads r
    {
      && (r.status.Waiting? || r.status.Preempted?)
      && r.computed == 0 && r.placeholders == 0 && !r.barrier && r.partition.None?
    }

    /** The cache grants every allocation. */
    ghost predicate AlwaysGrants() {
      forall i :: oracle(i).granted
    }

    /** The cache's last answer was to refuse. */
    predicate Refused()
      reads this`calls
    {
      calls > 0 && !oracle(calls - 1).granted
    }

    ghost predicate Valid()
      reads this, running, waiting
    {
      && config.Valid()
      && NoDuplicates(running + waiting)
      && (forall r :: r in running ==> r.status.Running?)
      && (forall r :: r in waiting ==> Parked(r))
      && holding <= SetOf(running)
    }

    // ---- the life of a scheduler outside `schedule` ----

    constructor (config: Config, oracle: nat -> Answer)
      requires config.Valid()
      ensures Valid() && this.config == config && this.oracle == oracle
      ensures running == [] && waiting == [] && nextPhase == DecodePhase && holding == {}
    {
      this.config, this.oracle := config, oracle;
      calls, running, waiting, nextPhase, holding := 0, [], [], DecodePhase, {};
    }

    /** `add_request`; `None` where it raises. The generation is capped to fit the sequence. */
    method AddRequest(id: ReqId, arrival: int, greedy: bool, prompt: nat, maxNew: int, eos: Option<Token>)
      returns (r: Option<Request>)
      requires Valid()
      modifies this`waiting
      ensures Valid()
      ensures r.None? <==>
        || prompt >= config.maxSeqLen
        || (!config.enablePrefixCache && !config.MayCut()
            && !(Max(1, prompt) <= config.maxTokens && config.AdmitsChunk(Max(1, prompt))))
      ensures r.None? ==> waiting == old(waiting)
      ensures r.Some? ==>
        && fresh(r.value) && waiting == old(waiting) + [r.value]
        && r.value.State() == Progress(0, [], 0, false, Waiting)
        && r.value.profile == Profile(prompt, r.value.profile.maxNew, eos,
             if greedy then config.speculative else 0, config.speculative > 0)
        && r.value.profile.maxNew == (if prompt + maxNew <= config.maxSeqLen then maxNew else config.maxSeqLen - prompt)
        && Some(r.value.profile.maxNew) == AdmittedLength(prompt, maxNew, config.maxSeqLen)
        && r.value.id == id && r.value.arrival == arrival
    {
      if prompt >= config.maxSeqLen { return None; }
      var capped := Min(maxNew, config.maxSeqLen - prompt);
      var added := new Request(id, arrival, greedy, prompt, capped, eos, config.speculative);
      if !config.enablePrefixCache && config.Rejects(added.profile, added.State()) { return None; }
      AppendIsValid(added);
      waiting := waiting + [added];
      return Some(added);
    }

    lemma AppendIsValid(r: Request)
      requires NoDuplicates(running + waiting) && r !in running && r !in waiting
      ensures NoDuplicates(running + (waiting + [r]))
    {
      assert running + (waiting + [r]) == (running + waiting) + [r];
    }

    /** `abort_request`. */
    method AbortRequest(r: Request)
      requires Valid()
      modifies this`running, this`waiting, this`holding, r`status, r`partition
      ensures Valid()
      ensures r.State() == old(r.State()).(status := FinishedAborted) && r.partition.None?
      ensures running == Without(old(running), {r}) && waiting == Without(old(waiting), {r})
      ensures holding == old(holding) - {r}
    {
      r.status := FinishedAborted;
      holding := holding - {r};
      r.partition := None;
      DropIsValid(running, waiting, {r});
      running := Without(running, {r});
      waiting := Without(waiting, {r});
    }

    lemma DropIsValid(ran: seq<Request>, queued: seq<Request>, gone: set<Request>)
      requires NoDuplicates(ran + queued)
      ensures NoDuplicates(Without(ran, gone) + Without(queued, gone))
      ensures forall r :: r in Without(ran, gone) <==> r in ran && r !in gone
      ensures forall r :: r in Without(queued, gone) <==> r in queued && r !in gone
      ensures SetOf(Without(ran, gone)) == SetOf(ran) - gone
    {
      WithoutAppend(ran, queued, gone);
      WithoutDistinct(ran + queued, gone);
      WithoutSet(ran, gone);
      WithoutSet(queued, gone);
      forall r
        ensures (r in Without(ran, gone) <==> r in ran && r !in gone) && (r in Without(queued, gone) <==>
          r in queued && r !in gone)
      {
        assert r in SetOf(Without(ran, gone)) <==> r in SetOf(ran) - gone;
        assert r in SetOf(Without(queued, gone)) <==> r in SetOf(queued) - gone;
      }
    }

    /** `advance_after_schedule`: the requests of the output move on before the result is there. */
    method AdvanceAfterSchedule(scheduled: seq<Scheduled>)
      requires Valid() && Distinct(scheduled) && forall i :: 0 <= i < |scheduled| ==> scheduled[i].request in running
      modifies running
      ensures Valid()
      ensures forall i :: 0 <= i < |scheduled| ==>
        scheduled[i].request.State() == Advance(scheduled[i].request.profile, old(scheduled[i].request.State()),
          scheduled[i].step)
      ensures forall r :: r in running && !InOutput(scheduled, r) ==> r.State() == old(r.State())
    {
      DistinctParts(running, waiting);
      for i := 0 to |scheduled|
        invariant Valid()
        invariant forall j :: 0 <= j < i ==>
          scheduled[j].request.State() == Advance(scheduled[j].request.profile, old(scheduled[j].request.State()),
            scheduled[j].step)
        invariant forall r :: r in running && !InOutput(scheduled[..i], r) ==> r.State() == old(r.State())
      {
        var s := scheduled[i];
        assert !InOutput(scheduled[..i], s.request);
        s.request.AdvanceAfterSchedule(s.step);
        assert InOutput(scheduled[..i + 1], s.request) by { assert scheduled[..i + 1][i] == s; }
        forall r | r in running && !InOutput(scheduled[..i + 1], r)
          ensures !InOutput(scheduled[..i], r)
        {
          if InOutput(scheduled[..i], r) { OutputGrows(scheduled[..i], scheduled[..i + 1], r); }
        }
      }
      assert scheduled[..|scheduled|] == scheduled;
    }

    /** `update_from_output` for one step: each reply is applied to its request, or discarded,
        and the requests that finished leave the running queue and give up their blocks. */
    method UpdateFromOutput(asynchronous: bool, scheduled: seq<Scheduled>, replies: map<Request, seq<Token>>)
      requires Valid() && Distinct(scheduled)
      requires forall i :: 0 <= i < |scheduled| ==> !scheduled[i].request.status.Waiting?
      modifies this`running, this`holding, set i | 0 <= i < |scheduled| :: scheduled[i].request
      modifies running
      ensures Valid()
      ensures forall i :: 0 <= i < |scheduled| ==>
        ReplyApplied(asynchronous, scheduled[i], replies, old(scheduled[i].request.State()),
          scheduled[i].request.State())
      ensures forall r :: r in old(running) && !InOutput(scheduled, r) ==>
        r.State() == Finish(r.profile, old(r.State()))
      ensures running == Without(old(running), set r | r in old(running) && r.status.IsFinished())
      ensures waiting == old(waiting) && forall r :: r in waiting ==> r.State() == old(r.State())
    {
      hide Settle, ReplyApplied, NoDuplicates, StillOpen, Finish, Without;
      ApplyAndClose(asynchronous, scheduled, replies);
      StillOpenMembers(running);
      OpenIsValid(running, waiting);
      holding := holding * SetOf(StillOpen(running));
      ghost var finished := set r | r in running && r.status.IsFinished();
      StillOpenIsWithout(running, finished);
      running := StillOpen(running);
      assert finished == set r | r in old(running) && r.status.IsFinished();
    }

    /** The states after the replies and the closing scan; no queue has changed yet. */
    method ApplyAndClose(asynchronous: bool, scheduled: seq<Scheduled>, replies: map<Request, seq<Token>>)
      requires Valid() && Distinct(scheduled)
      requires forall i :: 0 <= i < |scheduled| ==> !scheduled[i].request.status.Waiting?
      modifies running, set i | 0 <= i < |scheduled| :: scheduled[i].request
      ensures forall i :: 0 <= i < |scheduled| ==>
        ReplyApplied(asynchronous, scheduled[i], replies, old(scheduled[i].request.State()),
          scheduled[i].request.State())
      ensures forall r :: r in running && !InOutput(scheduled, r) ==> r.State() == Finish(r.profile, old(r.State()))
      ensures forall r :: r in running ==> r.status.Running? || r.status.IsFinished()
      ensures forall r :: r in waiting ==> r.State() == old(r.State()) && r.partition == old(r.partition)
    {
      hide ReplyApplied, Settle, Finish;
      DistinctParts(running, waiting);
      ApplyReplies(asynchronous, scheduled, replies);
      ghost var applied := map r | r in running :: r.State();
      forall r | r in running
        ensures r.status.Running? || r.status.IsFinished()
        ensures InOutput(scheduled, r) ==> Finish(r.profile, r.State()) == r.State()
      {
        if i :| 0 <= i < |scheduled| && scheduled[i].request == r {
          RunningReply(asynchronous, scheduled[i], replies, old(scheduled[i].request.State()), r.State());
        }
      }
      forall r | r in waiting
        ensures r.State() == old(r.State()) && r.partition == old(r.partition)
      {
        if i :| 0 <= i < |scheduled| && scheduled[i].request == r {
          StaleReply(asynchronous, scheduled[i], replies, old(scheduled[i].request.State()), r.State());
        }
      }
      CloseFinished();
      forall r | r in running
        ensures r.status.Running? || r.status.IsFinished()
      {
        FinishStatus(r.profile, applied[r]);
      }
    }

    lemma RunningReply(asynchronous: bool, s: Scheduled, replies: map<Request, seq<Token>>, before: Progress,
        after: Progress)
      requires ReplyApplied(asynchronous, s, replies, before, after) && before.status.Running?
      ensures after.status.Running? || after.status.IsFinished()
      ensures Finish(s.request.profile, after) == after
    {
      hide Retained;
    }

    lemma StaleReply(asynchronous: bool, s: Scheduled, replies: map<Request, seq<Token>>, before: Progress,
        after: Progress)
      requires ReplyApplied(asynchronous, s, replies, before, after) && before.status.Preempted?
      ensures after == before
    {
    }

    lemma FinishStatus(p: Profile, r: Progress)
      ensures r.status.Running? || r.status.IsFinished() ==>
        Finish(p, r).status.Running? || Finish(p, r).status.IsFinished()
    {
    }

    /** The reply for one entry, applied as `Settle` says; no entry counts as no tokens. */
    predicate ReplyApplied(asynchronous: bool, s: Scheduled, replies: map<Request, seq<Token>>, before: Progress,
        after: Progress) {
      after == Settle(s.request.profile, asynchronous, before, s.step,
        if s.request in replies then replies[s.request] else [])
    }

    method ApplyReplies(asynchronous: bool, scheduled: seq<Scheduled>, replies: map<Request, seq<Token>>)
      requires Distinct(scheduled)
      modifies set i | 0 <= i < |scheduled| :: scheduled[i].request
      ensures forall i :: 0 <= i < |scheduled| ==>
        && ReplyApplied(asynchronous, scheduled[i], replies, old(scheduled[i].request.State()),
          scheduled[i].request.State())
        && scheduled[i].request.partition == old(scheduled[i].request.partition)
    {
      hide Settle;
      for i := 0 to |scheduled|
        invariant forall j :: 0 <= j < i ==>
          && ReplyApplied(asynchronous, scheduled[j], replies, old(scheduled[j].request.State()),
            scheduled[j].request.State())
          && scheduled[j].request.partition == old(scheduled[j].request.partition)
        invariant forall j :: i <= j < |scheduled| ==> unchanged(scheduled[j].request)
      {
        var s := scheduled[i];
        s.request.ApplyResult(asynchronous, s.step, if s.request in replies then replies[s.request] else []);
      }
    }

    /** The closing scan of `update_from_output`. */
    method CloseFinished()
      requires NoDuplicates(running)
      modifies running
      ensures forall r :: r in running ==>
        r.State() == Finish(r.profile, old(r.State())) && r.partition == old(r.partition)
    {
      for i := 0 to |running|
        invariant forall j :: 0 <= j < i ==>
          running[j].State() == Finish(running[j].profile, old(running[j].State())) &&
            running[j].partition == old(running[j].partition)
        invariant forall j :: i <= j < |running| ==> unchanged(running[j])
      {
        var r := running[i];
        var reason := CheckFinish(r.profile, r.output);
        if !r.status.IsFinished() && reason.Some? { r.status := reason.value; }
      }
    }

    /** The requests of a queue that have not finished, in order. */
    function StillOpen(queue: seq<Request>): seq<Request>
      reads queue
    {
      if queue == [] then []
      else
        var last := queue[|queue| - 1];
        StillOpen(queue[..|queue| - 1]) + if last.status.IsFinished() then [] else [last]
    }

    lemma {:induction false} StillOpenIsWithout(queue: seq<Request>, finished: set<Request>)
      requires forall r :: r in queue ==> (r in finished <==> r.status.IsFinished())
      ensures StillOpen(queue) == Without(queue, finished)
    {
      if queue != [] { StillOpenIsWithout(queue[..|queue| - 1], finished); }
    }

    lemma {:induction false} StillOpenMembers(queue: seq<Request>)
      ensures forall r :: r in StillOpen(queue) <==> r in queue && !r.status.IsFinished()
      ensures NoDuplicates(queue) ==> NoDuplicates(StillOpen(queue))
    {
      if queue != [] {
        StillOpenMembers(queue[..|queue| - 1]);
        assert queue == queue[..|queue| - 1] + [queue[|queue| - 1]];
      }
    }

    lemma OpenIsValid(ran: seq<Request>, queued: seq<Request>)
      requires NoDuplicates(ran + queued)
      ensures NoDuplicates(StillOpen(ran) + queued)
    {
      DistinctParts(ran, queued);
      StillOpenMembers(ran);
      DistinctJoin(StillOpen(ran), queued);
    }

    /** `_try_allocate_request_blocks`. */
    method TryAllocate(r: Request) returns (ok: bool)
      modifies this`calls, this`holding, r`partition
      ensures holding == if ok then old(holding) + {r} else old(holding)
      ensures calls == old(calls) + 1 && ok == oracle(old(calls)).granted
      ensures r.partition == if ok && config.hasGroups then oracle(old(calls)).partition else old(r.partition)
    {
      var answer := oracle(calls);
      calls := calls + 1;
      ok := answer.granted;
      if ok {
        if config.hasGroups { r.partition := answer.partition; }
        holding := holding + {r};
      }
    }

    /** `max(candidates, key=arrival_time)`. */
    method LatestArrival(candidates: seq<Request>) returns (victim: Request)
      requires |candidates| > 0
      ensures victim in candidates && forall r :: r in candidates ==> r.arrival <= victim.arrival
    {
      victim := candidates[0];
      for i := 1 to |candidates|
        invariant victim in candidates
        invariant forall j :: 0 <= j < i ==> candidates[j].arrival <= victim.arrival
      {
        if candidates[i].arrival > victim.arrival { victim := candidates[i]; }
      }
    }

    /** The running requests whose cache partition is `partition`. */
    method SamePartition(candidates: seq<Request>, partition: Option<nat>) returns (same: seq<Request>)
      ensures forall r :: r in same <==> r in candidates && r.partition == partition
    {
      same := [];
      for i := 0 to |candidates|
        invariant forall r :: r in same <==> r in candidates[..i] && r.partition == partition
      {
        assert candidates[..i + 1] == candidates[..i] + [candidates[i]];
        if candidates[i].partition == partition { same := same + [candidates[i]]; }
      }
    }

    /** A victim must come from the partition whose blocks are short, if it has any request. */
    ghost predicate Preferred(exclude: Request, r: Request, queue: seq<Request>)
      reads exclude, queue, r
    {
      config.hasGroups && exclude.partition.Some?
      && (exists c :: c in queue && c != exclude && c.partition == exclude.partition)
      ==> r.partition == exclude.partition
    }

    /** The choice of `_preempt_lowest_priority`: the latest arrival among the preferred other
        requests, or `None` when no other request runs. */
    method ChooseVictim(exclude: Request) returns (victim: Option<Request>)
      ensures victim.None? ==> forall i :: 0 <= i < |running| ==> running[i] == exclude
      ensures victim.Some? ==>
        && victim.value in running && victim.value != exclude
        && Preferred(exclude, victim.value, running)
        && forall i :: 0 <= i < |running| && running[i] != exclude && Preferred(exclude, running[i], running) ==>
             running[i].arrival <= victim.value.arrival
    {
      var candidates := Without(running, {exclude});
      WithoutMembers(running, {exclude});
      if config.hasGroups && exclude.partition.Some? {
        var same := SamePartition(candidates, exclude.partition);
        if same != [] {
          assert same[0] in same;
          candidates := same;
        }
      }
      if candidates == [] {
        assert forall i :: 0 <= i < |running| ==> running[i] in Without(running, {exclude}) || running[i] == exclude;
        return None;
      }
      var v := LatestArrival(candidates);
      WithoutMembers(running, {exclude});
      assert v in Without(running, {exclude});
      return Some(v);
    }

    /** `_preempt_lowest_priority`: the victim leaves the running queue, gives up its blocks and
        its place in the output, and waits first in line. */
    method PreemptLowestPriority(exclude: Request, pass: Pass) returns (victim: Option<Request>, next: Pass)
      modifies this`running, this`waiting, this`holding
      modifies running
      ensures victim.None? ==>
        && next == pass && running == old(running) && waiting == old(waiting) && holding == old(holding)
        && (forall i :: 0 <= i < |old(running)| ==> old(running)[i] == exclude)
        && (forall r :: r in old(running) ==> unchanged(r))
      ensures victim.Some? ==>
        && victim.value in old(running) && victim.value != exclude
        && old(Preferred(exclude, victim.value, running))
        && (forall i ::
              0 <= i < |old(running)| && old(running)[i] != exclude && old(Preferred(exclude, running[i], running))
              ==>
              old(running)[i].arrival <= victim.value.arrival)
        && running == Without(old(running), {victim.value})
        && waiting == [victim.value] + old(waiting)
        && holding == old(holding) - {victim.value}
        && victim.value.State() == Preempt(old(victim.value.State())) && victim.value.partition.None?
        && (forall r :: r in old(running) && r != victim.value ==> unchanged(r))
        && next == Evict(pass, victim.value, old(IsPrefill(victim.value.profile, victim.value.State())))
    {
      hide Without, Evict;
      next := pass;
      victim := ChooseVictim(exclude);
      if victim.Some? {
        var v := victim.value;
        next := Evict(pass, v, v.computed < v.profile.prompt);
        holding := holding - {v};
        v.ResetForPreemption();
        running := Without(running, {v});
        waiting := [v] + waiting;
      }
    }

    // ---- running requests ----

    /** The queues in the middle of the first loop: the victims so far wait first in line, in
        reverse, and everything else is where it was when the call began. */
    ghost predicate QueuesOk(pass: Pass, was: seq<Request>, queued: seq<Request>, before: map<Request, Progress>)
      reads this, was, queued
    {
      && config.Valid() && NoDuplicates(was + queued) && NoDuplicates(pass.preempted)
      && pass.admitted == [] && pass.rejected == []
      && running == Without(was, SetOf(pass.preempted))
      && waiting == Reversed(pass.preempted) + queued
      && holding <= SetOf(running)
      && (forall i :: 0 <= i < |pass.preempted| ==> pass.preempted[i] in was)
      && (forall r :: r in was ==> r in before && before[r].status.Running?)
      && (forall r :: r in was && r !in pass.preempted ==> r.State() == before[r])
      && (forall r :: r in was && r in pass.preempted ==> r.State() == Preempt(before[r]) && r.partition.None?)
      && (forall r :: r in queued ==> Parked(r) && r in before && r.State() == before[r])
    }

    /** Every scheduled entry is a running request that the limits allowed. */
    ghost predicate EntriesOk(pass: Pass, was: seq<Request>, before: map<Request, Progress>, phase: Option<Phase>) {
      && Balanced(pass, config.maxTokens) && Recorded(pass)
      && forall i :: 0 <= i < |pass.scheduled| ==>
           && pass.scheduled[i].request !in pass.preempted && pass.scheduled[i].request in pass.found
           && EntryOk(pass.scheduled[i], was, before, phase, pass.found[pass.scheduled[i].request])
    }

    /** The entry takes all it may of the `found` tokens that were left for it. */
    ghost predicate EntryOk(s: Scheduled, was: seq<Request>, before: map<Request, Progress>, phase: Option<Phase>,
            found: int) {
      && s.request in was && s.request in before
      && s.step == StepOf(s.request.profile, before[s.request], s.step.numNew)
      && config.Takes(s.request.profile, before[s.request], found, s.step.numNew)
      && !before[s.request].barrier
      && (phase.Some? ==> s.step.isPrefill == phase.value.PrefillPhase?)
    }

    /** One preemption in the middle of the first loop. */
    method PreemptFor(request: Request, pass: Pass, ghost was: seq<Request>, ghost queued: seq<Request>,
            ghost before: map<Request, Progress>, ghost phase: Option<Phase>)
      returns (victim: Option<Request>, next: Pass)
      requires QueuesOk(pass, was, queued, before) && EntriesOk(pass, was, before, phase)
      requires request in running
      modifies this`running, this`waiting, this`holding, running
      ensures QueuesOk(next, was, queued, before) && EntriesOk(next, was, before, phase)
      ensures request in running && pass.preempted <= next.preempted
      ensures victim.None? ==> next == pass && forall r :: r in old(running) ==> r == request
      ensures victim.Some? ==> next.preempted == pass.preempted + [victim.value] && victim.value != request
      ensures victim.Some? ==> victim.value in old(running)
      ensures pass.budget <= next.budget
      ensures forall i :: 0 <= i < |next.scheduled| ==> next.scheduled[i] in pass.scheduled
      ensures KeepsOrder(pass.scheduled, next.scheduled)
    {
      hide EntriesOk, Evict, Preferred, Without, Reversed, NoDuplicates, Preempt, KeepsOrder;
      OrderKept(pass.scheduled, request);
      WithoutMembers(was, SetOf(pass.preempted));
      victim, next := PreemptLowestPriority(request, pass);
      if victim.Some? {
        var v := victim.value;
        EvictEntries(pass, was, before, phase, v);
        OneMoreGone(was, pass.preempted, v);
        assert request in SetOf(running);
      }
    }

    lemma EvictEntries(pass: Pass, was: seq<Request>, before: map<Request, Progress>, phase: Option<Phase>, v: Request)
      requires EntriesOk(pass, was, before, phase) && v in before
      ensures
        var next := Evict(pass, v, IsPrefill(v.profile, before[v]));
        && EntriesOk(next, was, before, phase)
        && next.preempted == pass.preempted + [v] && next.admitted == pass.admitted && next.rejected == pass.rejected
        && pass.budget <= next.budget && KeepsOrder(pass.scheduled, next.scheduled)
        && forall i :: 0 <= i < |next.scheduled| ==>
          next.scheduled[i] in pass.scheduled && next.scheduled[i].request != v
    {
      hide Balanced, Recorded, Unscheduled, KeepsOrder;
      var isPrefill := IsPrefill(v.profile, before[v]);
      EvictKeepsOrder(pass, v, isPrefill);
      EvictBalanced(pass, v, isPrefill, config.maxTokens);
      EvictKept(pass, v, isPrefill);
    }

    /** One turn of the first loop, for a request that still runs. */
    method ScheduleRunning(request: Request, phase: Option<Phase>, pass: Pass, ghost was: seq<Request>,
            ghost queued: seq<Request>, ghost before: map<Request, Progress>)
      returns (next: Pass)
      requires QueuesOk(pass, was, queued, before) && EntriesOk(pass, was, before, phase)
      requires request in running && request in was && request !in pass.preempted
      requires forall i :: 0 <= i < |pass.scheduled| ==> pass.scheduled[i].request != request
      modifies this`running, this`waiting, this`holding, this`calls, was
      ensures QueuesOk(next, was, queued, before) && EntriesOk(next, was, before, phase)
      ensures request in running && pass.preempted <= next.preempted
      ensures forall i :: 0 <= i < |next.scheduled| ==>
        next.scheduled[i] in pass.scheduled || next.scheduled[i].request == request
      ensures AlwaysGrants() ==>
        && next.preempted == pass.preempted && next.budget <= pass.budget && pass.scheduled <= next.scheduled
        && ServedOne(next, request, before, phase)
      ensures InOutput(next.scheduled, request) ==> request in next.found && next.found[request] == pass.budget
      ensures Passes(pass.scheduled, next.scheduled, request)
      ensures request in before && (Stuck(request.profile, before[request]) ==> next == pass)
      ensures
        && !before[request].barrier
        && (phase.Some? ==> (before[request].computed < request.profile.prompt <==> phase.value.PrefillPhase?))
        && config.Affordable(request.profile, before[request], pass.budget)
        ==>
        calls > old(calls) && (oracle(calls - 1).granted ==> InOutput(next.scheduled, request))
    {
      hide EntriesOk, Without, Reversed, NoDuplicates, Preempt, QueuesOk, KeepsOrder, Passes;
      next := pass;
      OrderKept(pass.scheduled, request);
      QueuedAsBefore(pass, was, queued, before, request);
      config.LimitedExact(request.profile, request.State(), pass.budget);
      config.AffordableExact(request.profile, request.State(), pass.budget);
      if request.barrier { return; }
      if phase.Some? && (request.computed < request.profile.prompt) != phase.value.PrefillPhase? { return; }
      if request.NumNewTokensNeeded() <= 0 { return; }
      var numNew := config.Limited(request.profile, request.State(), pass.budget);
      if numNew <= 0 { return; }
      var s := Scheduled(request, StepOf(request.profile, request.State(), numNew));
      if s.Cost() > pass.budget { return; }
      var granted;
      granted, next := Allocate(request, pass, was, queued, before, phase);
      PassesOne(pass.scheduled, next.scheduled, s);
      if !granted { return; }
      ChargeEntries(next, was, before, phase, s, pass.budget);
      ChargeQueues(next, was, queued, before, s, pass.budget);
      next := Charge(next, s, pass.budget);
      assert next.scheduled[|next.scheduled| - 1].request == request;
    }

    /** The pass before anything is scheduled. */
    function FreshPass(): Pass {
      Pass(config.maxTokens, [], map[], [], [], [], 0, 0, map[])
    }

    /** The first loop passes over this request, whatever the phase. */
    predicate Stuck(p: Profile, r: Progress) {
      r.barrier || Needed(p, r) <= 0
    }

    lemma QueuedAsBefore(pass: Pass, was: seq<Request>, queued: seq<Request>, before: map<Request, Progress>,
        r: Request)
      requires QueuesOk(pass, was, queued, before) && r in was && r !in pass.preempted
      ensures r in before && r.State() == before[r]
    {
    }

    lemma ChargeQueues(pass: Pass, was: seq<Request>, queued: seq<Request>, before: map<Request, Progress>,
        s: Scheduled, found: int)
      requires QueuesOk(pass, was, queued, before)
      ensures QueuesOk(Charge(pass, s, found), was, queued, before)
    {
    }

    /** Blocks for one request, if need be after one preemption. */
    method Allocate(request: Request, pass: Pass, ghost was: seq<Request>, ghost queued: seq<Request>,
            ghost before: map<Request, Progress>, ghost phase: Option<Phase>)
      returns (granted: bool, next: Pass)
      requires QueuesOk(pass, was, queued, before) && EntriesOk(pass, was, before, phase)
      requires request in running && request in was && request !in pass.preempted
      modifies this`running, this`waiting, this`holding, this`calls, was
      ensures QueuesOk(next, was, queued, before) && EntriesOk(next, was, before, phase)
      ensures request in running && request !in next.preempted && pass.preempted <= next.preempted
      ensures pass.budget <= next.budget && (next.preempted == [] ==> next == pass)
      ensures forall i :: 0 <= i < |next.scheduled| ==> next.scheduled[i] in pass.scheduled
      ensures KeepsOrder(pass.scheduled, next.scheduled)
      ensures oracle(old(calls)).granted ==> granted && next == pass && calls == old(calls) + 1
      ensures !oracle(old(calls)).granted ==>
        if exists r :: r in old(running) && r != request
        then |next.preempted| == |pass.preempted| + 1 && calls == old(calls) + 2 &&
          granted == oracle(old(calls) + 1).granted
        else !granted && next == pass && calls == old(calls) + 1
    {
      hide EntriesOk, QueuesOk, KeepsOrder;
      next := pass;
      OrderKept(pass.scheduled, request);
      granted := AllocateMidway(request, pass, was, queued, before);
      if !granted {
        var victim;
        victim, next := PreemptFor(request, pass, was, queued, before, phase);
        if victim.Some? {
          granted := AllocateMidway(request, next, was, queued, before);
        }
      }
    }

    method AllocateMidway(request: Request, pass: Pass, ghost was: seq<Request>, ghost queued: seq<Request>,
            ghost before: map<Request, Progress>)
      returns (granted: bool)
      requires QueuesOk(pass, was, queued, before) && request in running && request in was && request !in pass.preempted
      modifies this`holding, this`calls, request`partition
      ensures QueuesOk(pass, was, queued, before)
      ensures forall i :: 0 <= i < |running| ==> running[i] in was
      ensures calls == old(calls) + 1 && granted == oracle(old(calls)).granted
    {
      hide Without, Reversed, NoDuplicates, Preempt;
      WithoutSet(was, SetOf(pass.preempted));
      granted := TryAllocate(request);
    }

    lemma ChargeEntries(pass: Pass, was: seq<Request>, before: map<Request, Progress>, phase: Option<Phase>,
        s: Scheduled, found: int)
      requires EntriesOk(pass, was, before, phase) && EntryOk(s, was, before, phase, found)
      requires s.request !in pass.preempted && s.Cost() <= pass.budget
      requires found <= pass.budget && (pass.preempted == [] ==> found == pass.budget)
      requires forall i :: 0 <= i < |pass.scheduled| ==> pass.scheduled[i].request != s.request
      ensures
        var next := Charge(pass, s, found);
        && EntriesOk(next, was, before, phase)
        && next.preempted == pass.preempted && next.admitted == pass.admitted && next.rejected == pass.rejected
        && next.scheduled == pass.scheduled + [s]
    {
      hide Balanced, Recorded, EntryOk;
      NotScheduled(pass, s.request);
      ChargeBalanced(pass, s, found, config.maxTokens);
    }

    /** The filter after the first loop: victims met earlier in the walk are dropped. */
    function StillRunning(queue: seq<Request>): seq<Request>
      reads queue
    {
      if queue == [] then []
      else
        var last := queue[|queue| - 1];
        StillRunning(queue[..|queue| - 1]) + if last.status.Preempted? then [] else [last]
    }

    lemma {:induction false} StillRunningIsWithout(queue: seq<Request>, gone: seq<Request>)
      requires forall r :: r in queue ==> (r.status.Preempted? <==> r in gone)
      ensures StillRunning(queue) == Without(queue, SetOf(gone))
    {
      if queue != [] { StillRunningIsWithout(queue[..|queue| - 1], gone); }
    }

    /** The first loop, over a snapshot of the running queue. */
    method ScheduleRunningQueue(phase: Option<Phase>, ghost before: map<Request, Progress>) returns (pass: Pass)
      requires Valid() && Snapshot(before)
      modifies this`running, this`waiting, this`holding, this`calls, running
      ensures (forall r :: r in old(running) ==> Stuck(r.profile, before[r])) ==> pass == FreshPass()
      ensures QueuesOk(pass, old(running), old(waiting), before)
      ensures EntriesOk(pass, old(running), before, phase)
      ensures PartOf(RequestsOf(pass.scheduled), old(running))
      ensures AlwaysGrants() ==> pass.preempted == [] && Served(pass, old(running), before, phase)
    {
      hide EntriesOk, QueuesOk, Without, NoDuplicates, ServedOne, PartOf, RequestsOf, Passes;
      pass := FreshPass();
      NothingScheduled([]);
      var snapshot := running;
      ghost var queued := waiting;
      StartMidway(pass, before, phase);
      var keep: seq<Request> := [];
      for i := 0 to |snapshot|
        invariant QueuesOk(pass, snapshot, queued, before) && EntriesOk(pass, snapshot, before, phase)
        invariant Without(keep, SetOf(pass.preempted)) == Without(snapshot[..i], SetOf(pass.preempted))
        invariant forall j :: 0 <= j < |keep| ==> keep[j] in snapshot
        invariant forall j :: 0 <= j < |pass.scheduled| ==> pass.scheduled[j].request in snapshot[..i]
        invariant PartOf(RequestsOf(pass.scheduled), snapshot[..i])
        invariant AlwaysGrants() ==> pass.preempted == [] && Served(pass, snapshot[..i], before, phase)
        invariant (forall r :: r in snapshot ==> Stuck(r.profile, before[r])) ==> pass == FreshPass()
      {
        ghost var start := pass;
        var request := snapshot[i];
        ghost var gone := pass.preempted;
        assert snapshot[..i + 1] == snapshot[..i] + [request];
        StatusMidway(pass, snapshot, queued, before, request);
        WithoutLast(snapshot[..i], request, SetOf(gone));
        WithoutLast(keep, request, SetOf(gone));
        OrderKept(start.scheduled, request);
        PassedAt(start.scheduled, start.scheduled, request, snapshot[..i]);
        if !request.status.Preempted? {
          NotYetScheduled(snapshot, queued, i);
          pass := ScheduleRunning(request, phase, pass, snapshot, queued, before);
          PassedAt(start.scheduled, pass.scheduled, request, snapshot[..i]);
          keep := keep + [request];
          WithoutMore(keep, snapshot[..i + 1], gone, pass.preempted);
          if AlwaysGrants() { ServedNext(start, pass, snapshot, i, before, phase); }
        }
      }
      assert snapshot[..|snapshot|] == snapshot;
      KeptMidway(pass, snapshot, queued, before, keep);
      running := StillRunning(keep);
    }

    /** None of these requests was passed over for anything but its turn and the budget. */
    ghost predicate Served(pass: Pass, walked: seq<Request>, before: map<Request, Progress>, phase: Option<Phase>) {
      forall j :: 0 <= j < |walked| ==> ServedOne(pass, walked[j], before, phase)
    }

    ghost predicate ServedOne(pass: Pass, r: Request, before: map<Request, Progress>, phase: Option<Phase>) {
      && r in before
      && (!before[r].barrier
          && (phase.Some? ==> (before[r].computed < r.profile.prompt <==> phase.value.PrefillPhase?))
          && config.Affordable(r.profile, before[r], pass.budget) ==>
        InOutput(pass.scheduled, r))
    }

    lemma ServedNext(pass: Pass, next: Pass, was: seq<Request>, i: nat, before: map<Request, Progress>,
        phase: Option<Phase>)
      requires i < |was| && Served(pass, was[..i], before, phase) && ServedOne(next, was[i], before, phase)
      requires next.budget <= pass.budget && pass.scheduled <= next.scheduled
      ensures Served(next, was[..i + 1], before, phase)
    {
      hide ServedOne;
      assert was[..i + 1] == was[..i] + [was[i]];
      ServedStill(pass, next, was[..i], before, phase);
    }

    lemma ServedStill(pass: Pass, next: Pass, walked: seq<Request>, before: map<Request, Progress>,
        phase: Option<Phase>)
      requires Served(pass, walked, before, phase)
      requires next.budget <= pass.budget && pass.scheduled <= next.scheduled
      ensures Served(next, walked, before, phase)
    {
      hide ServedOne;
      forall j | 0 <= j < |walked|
        ensures ServedOne(next, walked[j], before, phase)
      {
        ServedLater(pass, next, walked[j], before, phase);
      }
    }

    lemma ServedLater(pass: Pass, next: Pass, r: Request, before: map<Request, Progress>, phase: Option<Phase>)
      requires ServedOne(pass, r, before, phase)
      requires next.budget <= pass.budget && pass.scheduled <= next.scheduled
      ensures ServedOne(next, r, before, phase)
    {
      hide InOutput, Config.Affordable;
      if config.Affordable(r.profile, before[r], next.budget) {
        AffordableGrows(config, r.profile, before[r], next.budget, pass.budget);
        if InOutput(pass.scheduled, r) { OutputGrows(pass.scheduled, next.scheduled, r); }
      }
    }

    lemma StartMidway(pass: Pass, before: map<Request, Progress>, phase: Option<Phase>)
      requires Valid() && Snapshot(before)
      requires pass == FreshPass()
      ensures QueuesOk(pass, running, waiting, before) && EntriesOk(pass, running, before, phase)
    {
      WithoutNothing(running, SetOf(pass.preempted));
    }

    lemma StatusMidway(pass: Pass, was: seq<Request>, queued: seq<Request>, before: map<Request, Progress>, r: Request)
      requires QueuesOk(pass, was, queued, before) && r in was
      ensures NoDuplicates(was + queued)
      ensures r.status.Preempted? <==> r in pass.preempted
      ensures r !in pass.preempted ==> r in running
    {
      WithoutSet(was, SetOf(pass.preempted));
      assert r !in pass.preempted ==> r in SetOf(was) - SetOf(pass.preempted);
    }

    lemma NotYetScheduled(was: seq<Request>, queued: seq<Request>, i: nat)
      requires NoDuplicates(was + queued) && i < |was|
      ensures was[i] !in was[..i]
    {
      DistinctParts(was, queued);
    }

    lemma KeptMidway(pass: Pass, was: seq<Request>, queued: seq<Request>, before: map<Request, Progress>,
        keep: seq<Request>)
      requires QueuesOk(pass, was, queued, before)
      requires Without(keep, SetOf(pass.preempted)) == Without(was, SetOf(pass.preempted))
      requires forall j :: 0 <= j < |keep| ==> keep[j] in was
      ensures StillRunning(keep) == running
    {
      forall r | r in keep
        ensures r.status.Preempted? <==> r in pass.preempted
      {
        StatusMidway(pass, was, queued, before, r);
      }
      StillRunningIsWithout(keep, pass.preempted);
    }

    // ---- waiting requests ----

    /** `_release_waiting_prefix_blocks`. */
    method ReleaseWaiting(request: Request)
      modifies this`holding, request`partition, request`computed
      ensures holding == old(holding) - {request} && request.partition.None? && request.computed == 0
    {
      holding := holding - {request};
      request.partition := None;
      request.computed := 0;
    }

    /** The prefix lookup of a waiting request. At least one prompt token stays uncached. */
    method LookUpPrefix(request: Request)
      requires request.computed == 0
      modifies this`calls, this`holding, request`partition, request`computed
      ensures request.computed ==
        if config.enablePrefixCache then Min(oracle(old(calls)).hit, Max(0, request.profile.prompt - 1)) else 0
      ensures holding == if request.computed > 0 then old(holding) + {request} else old(holding)
      ensures config.enablePrefixCache && config.hasGroups ==>
        request.partition == if request.computed > 0 then oracle(old(calls)).partition else None
      ensures calls == old(calls) + if config.enablePrefixCache then 1 else 0
    {
      if !config.enablePrefixCache { return; }
      var answer := oracle(calls);
      calls := calls + 1;
      var hit := Min(answer.hit, Max(0, request.profile.prompt - 1));
      if config.hasGroups {
        request.computed := hit;
        request.partition := if hit > 0 then answer.partition else None;
        if hit > 0 { holding := holding + {request}; }
      } else if hit > 0 {
        request.computed := hit;
        holding := holding + {request};
      }
    }

    /** The body of the second loop, for one request. A deferred or blocked request is as it
        was, and a rejected one has nothing left. An admitted one starts after its prefix hit,
        unless the cache refused that; a blocked one was refused. */
    method TryAdmit(request: Request, budget: int) returns (verdict: Verdict, ghost hit: nat)
      requires config.Valid() && Parked(request) && budget > 0
      modifies this`calls, this`holding, request`partition, request`computed
      ensures request.State() == old(request.State()).(computed := request.computed)
      ensures verdict.Admit? ==>
        && config.Fills(request.profile, request.State(), budget, verdict.numNew)
        && request.computed <= Max(0, request.profile.prompt - 1)
        && old(holding) <= holding + {request} && holding <= old(holding) + {request}
      ensures !verdict.Admit? ==> Parked(request) && holding == old(holding) - {request}
      ensures hit ==
        if config.enablePrefixCache then Min(oracle(old(calls)).hit, Max(0, request.profile.prompt - 1)) else 0
      ensures verdict.Admit? || verdict.Block? ==>
        Answered(verdict, request, hit, old(calls) + if config.enablePrefixCache then 1 else 0)
      ensures verdict.Reject? <==>
        var rest := Max(1, request.profile.prompt - hit);
        !config.MayCut() && !(rest <= config.maxTokens && config.AdmitsChunk(rest))
      ensures verdict.Defer? ==>
        && !config.MayCut()
        && forall n :: !config.MayTake(request.profile, old(request.State()).(computed := hit), budget, n)
    {
      hide Config.Limited, Config.Rejects, Config.MayTake, Config.Takes, Config.MayCut, Config.AdmitsChunk,
        Config.Fills;
      LookUpPrefix(request);
      hit := request.computed;
      config.WaitingExact(request.profile, request.State(), budget);
      var groupedHit := config.hasGroups && request.computed > 0;
      if config.Rejects(request.profile, request.State()) {
        ReleaseWaiting(request);
        return Reject, hit;
      }
      var numNew := config.Limited(request.profile, request.State(), budget);
      if numNew <= 0 {
        if request.computed < request.profile.prompt {
          ReleaseWaiting(request);
          return Defer, hit;
        }
        request.computed := Max(0, request.profile.prompt - 1);
        numNew := 1;
      }
      verdict := AllocateOrCold(request, budget, numNew, groupedHit);
    }

    /** What the cache answers, from its answer number `first` on, decides: a request is admitted
        where the answer was to grant it, and what it found in the cache is given up only where
        the first answer refuses. */
    ghost predicate Answered(verdict: Verdict, request: Request, hit: nat, first: nat)
      reads this`calls, request
    {
      && (oracle(first).granted ==> verdict.Admit? && request.computed == hit && calls == first + 1)
      && (verdict.Admit? ==> request.computed == hit || (request.computed == 0 && config.hasGroups))
      && calls > first && (verdict.Admit? <==> oracle(calls - 1).granted)
      && (verdict.Admit? && config.hasGroups ==> request.partition == oracle(calls - 1).partition)
    }

    /** The allocation of a waiting request. A grouped hit whose partition cannot hold the rest
        of the prompt is given up for a cold start. */
    method AllocateOrCold(request: Request, budget: int, numNew: nat, groupedHit: bool) returns (verdict: Verdict)
      requires request.status.Waiting? || request.status.Preempted?
      requires request.placeholders == 0 && !request.barrier && request.computed <= Max(0, request.profile.prompt - 1)
      requires config.Valid() && config.Fills(request.profile, request.State(), budget, numNew)
      requires groupedHit <==> config.hasGroups && request.computed > 0
      modifies this`calls, this`holding, request`partition, request`computed
      ensures request.State() == old(request.State()).(computed := request.computed)
      ensures verdict.Admit? || verdict.Block?
      ensures Answered(verdict, request, old(request.computed), old(calls))
      ensures verdict.Admit? ==>
        && config.Fills(request.profile, request.State(), budget, verdict.numNew)
        && request.computed <= Max(0, request.profile.prompt - 1)
        && old(holding) <= holding + {request} && holding <= old(holding) + {request}
      ensures verdict.Block? ==> Parked(request) && holding == old(holding) - {request}
    {
      var granted := TryAllocate(request);
      if granted { return Admit(numNew); }
      ReleaseWaiting(request);
      if groupedHit {
        config.LimitedExact(request.profile, request.State(), budget);
        var cold := config.Limited(request.profile, request.State(), budget);
        if cold > 0 {
          granted := TryAllocate(request);
          if granted { return Admit(cold); }
        }
      }
      ReleaseWaiting(request);
      return Block;
    }

    /** The queues in the middle of the second loop. */
    ghost predicate AdmittingOk(pass: Pass, ran: seq<Request>, queued: seq<Request>, walked: nat,
        mid: map<Request, Progress>)
      reads this, ran, queued
    {
      && walked <= |queued| && waiting == queued[walked..]
      && running == ran + pass.admitted
      && |running| <= Max(|ran|, config.maxRunning)
      && holding <= SetOf(running)
      && (forall r :: r in ran ==> r.status.Running? && r in mid && r.State() == mid[r])
      && (forall r :: r in queued ==> WaiterOk(pass, r, mid))
    }

    ghost predicate WaiterOk(pass: Pass, r: Request, before: map<Request, Progress>)
      reads r
    {
      && r in before
      && r.State() == Fate(pass, r, before[r], r.computed)
      && (r !in pass.admitted && r !in pass.rejected ==> Parked(r))
    }

    static function Fate(pass: Pass, r: Request, before: Progress, hit: nat): Progress {
      if r in pass.admitted then before.(status := Running, computed := hit)
      else if r in pass.rejected then before.(status := FinishedAborted)
      else before
    }

    /** What the second loop does to each waiting request: an admitted one runs from where its
        prefix hit ends, a rejected one is aborted, and any other is as it was. */
    static ghost predicate QueuedEffect(pass: Pass, queued: seq<Request>, before: map<Request, Progress>)
      reads queued
    {
      forall r :: r in queued ==> r in before && r.State() == Fate(pass, r, before[r], r.computed)
    }

    /** What the first loop does to each running request: a victim is reset, and any other is as
        it was. */
    static ghost predicate RanEffect(pass: Pass, was: seq<Request>, before: map<Request, Progress>)
      reads was
    {
      forall r :: r in was ==>
        r in before && r.State() == if r in pass.preempted then Preempt(before[r]) else before[r]
    }

    /** The entries in the middle of the second loop: those of the first loop, then one for
        each admitted request, charged at most what is left. */
    ghost predicate AdmittedOk(pass: Pass, start: Pass, ran: seq<Request>, queued: seq<Request>,
            mid: map<Request, Progress>)
    {
      && Balanced(pass, config.maxTokens)
      && pass.preempted == start.preempted && start.scheduled <= pass.scheduled && pass.budget <= start.budget
      && |pass.scheduled| == |start.scheduled| + |pass.admitted|
      && (forall i :: 0 <= i < |start.scheduled| ==> start.scheduled[i].request in ran)
      && (forall i :: 0 <= i < |start.scheduled| && start.scheduled[i].request in start.found ==>
            && start.scheduled[i].request in pass.found
            && pass.found[start.scheduled[i].request] == start.found[start.scheduled[i].request])
      && forall i :: |start.scheduled| <= i < |pass.scheduled| ==>
           && pass.scheduled[i].request in pass.found
           && AdmittedEntry(pass.scheduled[i], pass.admitted[i - |start.scheduled|], queued,
                pass.found[pass.scheduled[i].request], mid)
    }

    ghost predicate AdmittedEntry(s: Scheduled, r: Request, queued: seq<Request>, found: int,
            mid: map<Request, Progress>)
    {
      && s.request == r && s.request in queued && s.request in mid && !mid[s.request].barrier
      && s.step.isPrefill && s.step.computedAt <= Max(0, s.request.profile.prompt - 1)
      && config.Fills(s.request.profile, mid[s.request].(computed := s.step.computedAt), found, s.step.numNew)
    }

    /** The admitted requests stand where their entries say. */
    ghost predicate AtHit(pass: Pass, start: Pass, queued: seq<Request>)
      reads queued
    {
      forall i :: |start.scheduled| <= i < |pass.scheduled| && pass.scheduled[i].request in queued ==>
        pass.scheduled[i].request.computed == pass.scheduled[i].step.computedAt
    }

    /** The queues after `request` was taken from the waiting queue and tried. */
    ghost predicate TriedOk(request: Request, verdict: Verdict, pass: Pass, ran: seq<Request>, queued: seq<Request>,
        walked: nat, mid: map<Request, Progress>)
      reads this, ran, queued
    {
      && walked < |queued| && request == queued[walked] && waiting == queued[walked + 1..]
      && running == ran + pass.admitted && |running| < config.maxRunning
      && (if verdict.Admit? then holding <= SetOf(running) + {request} else holding <= SetOf(running))
      && (forall r :: r in ran ==> r.status.Running? && r in mid && r.State() == mid[r])
      && (forall r :: r in queued && r != request ==> WaiterOk(pass, r, mid))
      && request in mid && request.State() == mid[request].(computed := request.computed)
      && (if verdict.Admit? then !request.barrier else Parked(request) && mid[request] == request.State())
    }

    /** One turn of the second loop. */
    method AdmitNext(pass: Pass, kept: seq<Request>, ghost start: Pass, ghost ran: seq<Request>,
        ghost queued: seq<Request>, ghost walked: nat, ghost mid: map<Request, Progress>)
      returns (next: Pass, left: seq<Request>, stop: bool)
      requires AdmittingOk(pass, ran, queued, walked, mid) && LineOk(pass, kept, ran, queued, walked)
      requires AdmittedOk(pass, start, ran, queued, mid) && AtHit(pass, start, queued)
      requires config.Valid() && |waiting| > 0 && pass.budget > 0 && |running| < config.maxRunning
      modifies this`running, this`waiting, this`holding, this`calls, queued
      ensures AdmittingOk(next, ran, queued, walked + 1, mid) && LineOk(next, left, ran, queued, walked + 1)
      ensures AdmittedOk(next, start, ran, queued, mid) && AtHit(next, start, queued)
      ensures next.preempted == pass.preempted
      ensures stop ==> Refused()
      ensures !stop && pass.preempted == [] && config.MayCut() ==> left == kept
    {
      hide LineOk, TotalOf, Distinct;
      var request := waiting[0];
      FrontIsFresh(pass, kept, ran, queued, walked);
      waiting := waiting[1..];
      assert WaiterOk(pass, request, mid);
      if request in pass.preempted {
        next, left, stop := pass, kept + [request], false;
        LineStays(pass, kept, ran, queued, walked);
        return;
      }
      ghost var hit;
      var verdict;
      verdict, hit := TryAdmit(request, pass.budget);
      next, left := Place(request, verdict, pass, kept, start, ran, queued, walked, mid);
      stop := verdict.Block?;
    }

    /** Puts a request where the verdict sends it. */
    method Place(request: Request, verdict: Verdict, pass: Pass, kept: seq<Request>, ghost start: Pass,
        ghost ran: seq<Request>, ghost queued: seq<Request>, ghost walked: nat, ghost mid: map<Request, Progress>)
      returns (next: Pass, left: seq<Request>)
      requires TriedOk(request, verdict, pass, ran, queued, walked, mid)
      requires LineOk(pass, kept, ran, queued, walked) && AdmittedOk(pass, start, ran, queued, mid)
      requires AtHit(pass, start, queued)
      requires request !in pass.preempted
      requires verdict.Admit? ==>
        && config.Fills(request.profile, request.State(), pass.budget, verdict.numNew)
        && request.computed <= Max(0, request.profile.prompt - 1)
      modifies this`running, request`status
      ensures AdmittingOk(next, ran, queued, walked + 1, mid) && LineOk(next, left, ran, queued, walked + 1)
      ensures AdmittedOk(next, start, ran, queued, mid) && AtHit(next, start, queued)
      ensures next.preempted == pass.preempted
      ensures verdict.Reject? || verdict.Admit? ==> left == kept
    {
      hide LineOk, AdmittedOk;
      next, left := pass, kept;
      FrontIsFresh(pass, kept, ran, queued, walked);
      match verdict
      case Reject =>
        request.status := FinishedAborted;
        next := pass.(rejected := pass.rejected + [request]);
        LineRejects(pass, kept, ran, queued, walked);
        RejectKeeps(pass, start, ran, queued, mid, next.rejected);
      case Admit(numNew) =>
        config.FillsFrame(request.profile, request.State(), request.State(), pass.budget, numNew);
        request.status := Running;
        running := running + [request];
        var s := Scheduled(request, Step(true, numNew, request.computed));
        EntryAdmits(pass, start, ran, queued, s, mid);
        next := Admitted(pass, s);
        LineAdmits(pass, kept, ran, queued, walked, s);
      case _ =>
        left := kept + [request];
        LineStays(pass, kept, ran, queued, walked);
    }

    lemma RejectKeeps(pass: Pass, start: Pass, ran: seq<Request>, queued: seq<Request>, mid: map<Request, Progress>,
        rejected: seq<Request>)
      requires AdmittedOk(pass, start, ran, queued, mid)
      ensures AdmittedOk(pass.(rejected := rejected), start, ran, queued, mid)
    {
      hide TotalOf, Distinct, FoundLeft, Config.Fills;
    }

    lemma EntryAdmits(pass: Pass, start: Pass, ran: seq<Request>, queued: seq<Request>, s: Scheduled,
        mid: map<Request, Progress>)
      requires AdmittedOk(pass, start, ran, queued, mid)
      requires s.request !in ran && s.request !in pass.admitted
      requires AdmittedEntry(s, s.request, queued, pass.budget, mid)
      ensures AdmittedOk(Admitted(pass, s), start, ran, queued, mid)
      ensures forall i :: 0 <= i < |pass.scheduled| ==> pass.scheduled[i].request != s.request
    {
      hide Balanced, Needed;
      forall i | 0 <= i < |pass.scheduled|
        ensures pass.scheduled[i].request != s.request
      {
        if i < |start.scheduled| {
          assert start.scheduled[i] == pass.scheduled[i];
        } else {
          assert pass.admitted[i - |start.scheduled|] in pass.admitted;
        }
      }
      AdmittedBalanced(pass, s, config.maxTokens);
    }

    /** The second loop: admission while the budget and the running limit last. */
    method AdmitWaiting(start: Pass, ghost ran: seq<Request>, ghost queued: seq<Request>,
        ghost mid: map<Request, Progress>)
      returns (pass: Pass, ghost walked: nat, kept: seq<Request>)
      requires AdmittingOk(start, ran, queued, 0, mid) && LineOk(start, [], ran, queued, 0)
      requires config.Valid() && AdmittedOk(start, start, ran, queued, mid)
      modifies this`running, this`waiting, this`holding, this`calls, queued
      ensures AdmittingOk(pass, ran, queued, walked, mid) && LineOk(pass, kept, ran, queued, walked)
      ensures AdmittedOk(pass, start, ran, queued, mid) && AtHit(pass, start, queued)
      ensures start.preempted == [] && config.MayCut() ==> kept == [] || Refused()
      ensures waiting == [] || pass.budget <= 0 || |running| >= config.maxRunning || Refused()
      ensures old(waiting) == [] || old(|running|) >= config.maxRunning ==> pass == start
    {
      hide LineOk, AdmittedOk;
      pass, kept, walked := start, [], 0;
      while |waiting| > 0 && pass.budget > 0
        invariant AdmittingOk(pass, ran, queued, walked, mid) && LineOk(pass, kept, ran, queued, walked)
        invariant AdmittedOk(pass, start, ran, queued, mid) && AtHit(pass, start, queued)
        invariant pass.preempted == start.preempted
        invariant old(waiting) == [] || old(|running|) >= config.maxRunning ==>
          pass == start && waiting == old(waiting) && running == old(running)
        invariant start.preempted == [] && config.MayCut() ==> kept == []
        decreases |waiting|
      {
        if |running| >= config.maxRunning { break; }
        var stop;
        pass, kept, stop := AdmitNext(pass, kept, start, ran, queued, walked, mid);
        walked := walked + 1;
        if stop { break; }
      }
    }

    // ---- one call ----

    predicate Ready(r: Request, isPrefill: bool)
      reads r
    {
      && !r.status.Preempted? && !r.barrier
      && IsPrefill(r.profile, r.State()) == isPrefill
      && r.NumNewTokensNeeded() > 0
    }

    predicate HasPrefill()
      reads this, running
    {
      || (exists r :: r in running && Ready(r, true))
      || (|waiting| > 0 && |running| < config.maxRunning)
    }

    predicate HasDecode()
      reads this, running
    {
      exists r :: r in running && Ready(r, false)
    }

    /** `_grouped_cache_phase`. */
    method SelectPhase() returns (phase: Option<Phase>)
      requires Valid()
      modifies this`nextPhase
      ensures Valid()
      ensures config.homogeneous ==>
        Rotates(Call(old(HasPrefill()), old(HasDecode()), old(nextPhase), phase, nextPhase))
      ensures !config.homogeneous ==> phase.None? && nextPhase == old(nextPhase)
    {
      if !config.homogeneous { return None; }
      var hasPrefill, hasDecode := HasPrefill(), HasDecode();
      if !hasPrefill && !hasDecode { return None; }
      var selected := if hasPrefill && hasDecode then nextPhase else if hasPrefill then PrefillPhase else DecodePhase;
      nextPhase := Other(selected);
      phase := Some(selected);
    }

    /** The entry records where its request stands, and schedules no more than it needs (one
        token of an empty prompt counts as prefill) and no more than the limits allow. */
    ghost predicate Stands(s: Scheduled, phase: Option<Phase>, found: int)
      reads s.request
    {
      && s.step.computedAt == s.request.computed
      && (s.step.isPrefill == IsPrefill(s.request.profile, s.request.State()) || s.request.profile.prompt == 0)
      && config.Fills(s.request.profile, s.request.State(), found, s.step.numNew) && !s.request.barrier
      && (phase.Some? ==> s.step.isPrefill == phase.value.PrefillPhase?)
    }

    /** What `schedule` promises about its output: the budget is accounted for, nothing is
        scheduled twice, every entry runs and is no victim, and under the homogeneous contract
        all entries are of one phase. */
    ghost predicate OutputOk(pass: Pass, phase: Option<Phase>)
      reads this, running, set i | 0 <= i < |pass.scheduled| :: pass.scheduled[i].request
    {
      && Balanced(pass, config.maxTokens)
      && forall i :: 0 <= i < |pass.scheduled| ==>
           && pass.scheduled[i].request in running && pass.scheduled[i].request !in pass.preempted
           && pass.scheduled[i].request in pass.found
           && Stands(pass.scheduled[i], phase, pass.found[pass.scheduled[i].request])
    }

    lemma QueuesAfterRunning(pass: Pass, was: seq<Request>, queued: seq<Request>, before: map<Request, Progress>)
      requires QueuesOk(pass, was, queued, before)
      ensures running == Without(was, SetOf(pass.preempted)) && waiting == Reversed(pass.preempted) + queued
      ensures pass.admitted == [] && pass.rejected == [] && |running| <= |was|
      ensures multiset(running) + multiset(waiting) == multiset(was) + multiset(queued)
      ensures forall i :: 0 <= i < |waiting| ==> waiting[i] in was || waiting[i] in queued
      ensures forall i :: 0 <= i < |pass.preempted| ==> pass.preempted[i] in was && pass.preempted[i] in waiting
      ensures Valid()
    {
      hide Without, NoDuplicates, Reversed;
      VictimsMove(was, queued, pass.preempted);
      WithoutSet(was, SetOf(pass.preempted));
      WithoutMembers(was, SetOf(pass.preempted));
      assert |running| <= |was| by { WithoutLength(was, SetOf(pass.preempted)); }
      ReversedMembers(pass.preempted);
      assert forall r :: r in pass.preempted ==> r in was && Parked(r);
      assert forall r :: r in waiting ==> r in pass.preempted || r in queued;
    }

    lemma OutputAfterRunning(pass: Pass, was: seq<Request>, queued: seq<Request>, before: map<Request, Progress>,
        phase: Option<Phase>)
      requires QueuesOk(pass, was, queued, before) && EntriesOk(pass, was, before, phase)
      ensures OutputOk(pass, phase)
    {
      hide Without, NoDuplicates, Balanced, Needed;
      forall i | 0 <= i < |pass.scheduled|
        ensures pass.scheduled[i].request in running && pass.scheduled[i].request in pass.found
        ensures Stands(pass.scheduled[i], phase, pass.found[pass.scheduled[i].request])
      {
        StatusMidway(pass, was, queued, before, pass.scheduled[i].request);
      }
    }

    /** The first loop leaves a state the second can start from. */
    lemma AdmissionStarts(pass: Pass, phase: Option<Phase>, mid: map<Request, Progress>)
      requires Valid() && OutputOk(pass, phase) && pass.admitted == [] && pass.rejected == []
      requires Snapshot(mid)
      ensures AdmittingOk(pass, running, waiting, 0, mid) && LineOk(pass, [], running, waiting, 0)
      ensures AdmittedOk(pass, pass, running, waiting, mid)
    {
      hide Balanced;
    }

    lemma EntryMeans(s: Scheduled, r: Request, queued: seq<Request>, found: int, mid: map<Request, Progress>)
      requires AdmittedEntry(s, r, queued, found, mid)
      ensures s.request == r && s.request in queued && s.request in mid && !mid[s.request].barrier && s.step.isPrefill
      ensures s.step.computedAt <= Max(0, s.request.profile.prompt - 1)
      ensures config.Fills(s.request.profile, mid[s.request].(computed := s.step.computedAt), found, s.step.numNew)
    {
    }

    /** What the second loop left, put back together. */
    lemma AdmissionEnds(pass: Pass, start: Pass, kept: seq<Request>, ran: seq<Request>, queued: seq<Request>,
        walked: nat, mid: map<Request, Progress>, phase: Option<Phase>)
      requires AdmittingOk(pass, ran, queued, walked, mid) && LineOk(pass, kept, ran, queued, walked)
      requires AdmittedOk(pass, start, ran, queued, mid) && AtHit(pass, start, queued) && phase != Some(DecodePhase)
      requires forall i :: 0 <= i < |start.preempted| ==> start.preempted[i] in queued
      requires forall i :: 0 <= i < |start.scheduled| ==>
        && start.scheduled[i].request in ran && start.scheduled[i].request !in start.preempted
        && start.scheduled[i].request in start.found
        && Stands(start.scheduled[i], phase, start.found[start.scheduled[i].request])
      ensures OutputOk(pass, phase) && pass.preempted == start.preempted
      ensures walked <= |queued| && waiting == queued[walked..] && running == ran + pass.admitted
      ensures |running| <= Max(|ran|, config.maxRunning) && holding <= SetOf(running)
      ensures pass.budget <= start.budget && start.scheduled <= pass.scheduled
      ensures forall i :: 0 <= i < |pass.preempted| ==> pass.preempted[i] in kept + waiting
      ensures forall r :: r in running ==> r.status.Running?
      ensures forall r :: r in kept + waiting ==> Parked(r)
      ensures QueuedEffect(pass, queued, mid) && forall r :: r in ran ==> r in mid && r.State() == mid[r]
      ensures forall r :: r in pass.admitted + pass.rejected ==> r in queued && r !in pass.preempted
      ensures forall r :: r in pass.admitted ==> r !in pass.rejected
    {
      hide NoDuplicates, Balanced, Needed, Without, PartOf, RequestsOf, AdmittedEntry;
      LineEnds(pass, kept, ran, queued, walked);
      WithoutMembers(queued, SetOf(pass.admitted) + SetOf(pass.rejected));
      WithoutSet(queued, SetOf(pass.admitted) + SetOf(pass.rejected));
      assert forall r :: r in queued ==> WaiterOk(pass, r, mid);
      assert forall i :: 0 <= i < |pass.admitted| ==> pass.admitted[i] in queued;
      forall i | 0 <= i < |pass.scheduled|
        ensures pass.scheduled[i].request in running && pass.scheduled[i].request !in pass.preempted
        ensures pass.scheduled[i].request in pass.found
        ensures Stands(pass.scheduled[i], phase, pass.found[pass.scheduled[i].request])
      {
        if i < |start.scheduled| {
          assert start.scheduled[i] == pass.scheduled[i];
        } else {
          var s := pass.scheduled[i];
          assert AdmittedEntry(s, pass.admitted[i - |start.scheduled|], queued, pass.found[s.request], mid);
          EntryMeans(s, pass.admitted[i - |start.scheduled|], queued, pass.found[s.request], mid);
          assert s.request in queued && s.request in pass.admitted;
          config.FillsFrame(s.request.profile, mid[s.request].(computed := s.step.computedAt), s.request.State(),
            pass.found[s.request], s.step.numNew);
        }
      }
    }

    /** `schedule`. No request is lost or duplicated, each queue keeps its order, and a request
        changes only by being preempted, admitted or rejected. With a cache that grants
        everything nothing is preempted, and work is left only for want of budget or of running
        places. */
    method Schedule() returns (pass: Pass, phase: Option<Phase>, ghost before: map<Request, Progress>)
      requires Valid()
      modifies this`running, this`waiting, this`holding, this`calls, this`nextPhase, running, waiting
      ensures Valid()
      ensures running == Without(old(running), SetOf(pass.preempted)) + pass.admitted
      ensures waiting == Without(Reversed(pass.preempted) + old(waiting), SetOf(pass.admitted) + SetOf(pass.rejected))
      ensures multiset(running) + multiset(waiting) + multiset(pass.rejected) ==
        multiset(old(running)) + multiset(old(waiting))
      ensures |running| <= Max(|old(running)|, config.maxRunning)
      ensures config.homogeneous ==> Chose(old(running), old(waiting), before, old(nextPhase), phase, nextPhase)
      ensures !config.homogeneous ==> phase.None? && nextPhase == old(nextPhase)
      ensures OutputOk(pass, phase)
      ensures config.homogeneous ==> OnePhase(pass) && (phase.None? ==> pass == FreshPass())
      ensures Fates(pass, old(running), old(waiting))
      ensures forall r :: r in old(running) + old(waiting) ==> r in before && before[r] == old(r.State())
      ensures RanEffect(pass, old(running), before) && QueuedEffect(pass, old(waiting), before)
      ensures InOrder(pass, old(running), old(waiting))
      ensures forall r :: r in old(running) + old(waiting) ==> r.output == before[r].output
      ensures forall r :: r in pass.preempted ==> r.status.Preempted?
      ensures forall r :: r in pass.admitted ==> r.status.Running?
      ensures forall r :: r in pass.rejected ==> r.status.FinishedAborted?
      ensures AlwaysGrants() ==> pass.preempted == [] && Served(pass, old(running), before, phase)
      ensures pass.preempted == [] && phase != Some(DecodePhase) && config.MayCut() ==>
        waiting == [] || pass.budget <= 0 || |running| >= config.maxRunning || Refused()
    {
      hide Without, Reversed, NoDuplicates, Served, OutputOk, HasWork, Chose, Rotates, RanEffect, QueuedEffect, Fates,
        HasPrefill, HasDecode, Stuck, OnePhase, InOrder;
      before := map r | r in running + waiting :: r.State();
      ghost var was, queued := running, waiting;
      ghost var hasPrefill, hasDecode := HasPrefill(), HasDecode();
      WorkExact(before);
      if !hasPrefill && !hasDecode { NothingReady(before); }
      phase := SelectPhase();
      ChoiceExact(Call(hasPrefill, hasDecode, old(nextPhase), phase, nextPhase), was, queued, before);
      pass := SchedulePhase(phase, before);
      if config.homogeneous { OutputIsOnePhase(pass, phase); }
      FatesTell(pass, was, queued, before);
    }

    /** The phase chosen for the requests `was` and `queued` is what the rule of rotation says. */
    ghost predicate Chose(was: seq<Request>, queued: seq<Request>, before: map<Request, Progress>, preferred: Phase,
        phase: Option<Phase>, next: Phase) {
      Rotates(Call(HasWork(PrefillPhase, was, queued, before), HasWork(DecodePhase, was, queued, before),
                   preferred, phase, next))
    }

    /** There is work of this kind: a request that could take a step of it, or, for a prefill, one
        that could be admitted. */
    ghost predicate HasWork(kind: Phase, was: seq<Request>, queued: seq<Request>, before: map<Request, Progress>) {
      || (exists r :: r in was && r in before && WorkOf(kind, r.profile, before[r]))
      || (kind.PrefillPhase? && queued != [] && |was| < config.maxRunning)
    }

    predicate WorkOf(kind: Phase, p: Profile, r: Progress) {
      !r.barrier && Needed(p, r) > 0 && (r.computed < p.prompt <==> kind.PrefillPhase?)
    }

    lemma WorkExact(before: map<Request, Progress>)
      requires Valid() && Snapshot(before)
      ensures HasPrefill() <==> HasWork(PrefillPhase, running, waiting, before)
      ensures HasDecode() <==> HasWork(DecodePhase, running, waiting, before)
    {
      assert forall r :: r in running ==> (Ready(r, true) <==> WorkOf(PrefillPhase, r.profile, before[r]));
      assert forall r :: r in running ==> (Ready(r, false) <==> WorkOf(DecodePhase, r.profile, before[r]));
    }

    /** What the fates mean for the requests; no output is lost. */
    lemma FatesTell(pass: Pass, was: seq<Request>, queued: seq<Request>, before: map<Request, Progress>)
      requires Fates(pass, was, queued) && RanEffect(pass, was, before) && QueuedEffect(pass, queued, before)
      ensures forall r :: r in was + queued ==> r in before && r.output == before[r].output
      ensures forall r :: r in pass.preempted ==> r.status.Preempted?
      ensures forall r :: r in pass.admitted ==> r.status.Running?
      ensures forall r :: r in pass.rejected ==> r.status.FinishedAborted?
    {
      assert forall r :: r in was + queued ==> r in was || r in queued;
    }

    /** What `schedule` does once the phase is chosen. */
    method SchedulePhase(phase: Option<Phase>, ghost before: map<Request, Progress>) returns (pass: Pass)
      requires Valid() && Snapshot(before)
      modifies this`running, this`waiting, this`holding, this`calls, running, waiting
      ensures Valid()
      ensures running == Without(old(running), SetOf(pass.preempted)) + pass.admitted
      ensures waiting == Without(Reversed(pass.preempted) + old(waiting), SetOf(pass.admitted) + SetOf(pass.rejected))
      ensures multiset(running) + multiset(waiting) + multiset(pass.rejected) ==
        multiset(old(running)) + multiset(old(waiting))
      ensures |running| <= Max(|old(running)|, config.maxRunning)
      ensures OutputOk(pass, phase)
      ensures Fates(pass, old(running), old(waiting))
      ensures RanEffect(pass, old(running), before) && QueuedEffect(pass, old(waiting), before)
      ensures InOrder(pass, old(running), old(waiting))
      ensures old(NothingToDo(before)) ==> pass == FreshPass()
      ensures AlwaysGrants() ==> pass.preempted == [] && Served(pass, old(running), before, phase)
      ensures pass.preempted == [] && phase != Some(DecodePhase) && config.MayCut() ==>
        waiting == [] || pass.budget <= 0 || |running| >= config.maxRunning || Refused()
    {
      hide Without, Reversed, NoDuplicates, Served, OutputOk, RanEffect, QueuedEffect, Fates, Stuck, Preempt, Balanced;
      hide PartOf, RequestsOf, InOrder, NothingToDo;
      ghost var was, queued := running, waiting;
      pass := ScheduleFirst(phase, before);
      if phase != Some(DecodePhase) {
        ghost var first := pass;
        pass := AdmitAfter(pass, phase, was, queued, before);
        if AlwaysGrants() { ServedStill(first, pass, was, before, phase); }
      } else {
        WithoutNothing(waiting, SetOf(pass.admitted) + SetOf(pass.rejected));
        NobodyAdmitted(pass, was, queued, before);
        OrderJoins(pass, pass, was, queued);
      }
    }

    /** The second loop, after the first one left the queues `was` and `queued` as they are now. */
    method AdmitAfter(first: Pass, phase: Option<Phase>, ghost was: seq<Request>, ghost queued: seq<Request>,
        ghost before: map<Request, Progress>) returns (pass: Pass)
      requires Valid() && OutputOk(first, phase) && first.admitted == [] && first.rejected == []
      requires phase != Some(DecodePhase) && NoDuplicates(was + queued) && PartOf(RequestsOf(first.scheduled), was)
      requires running == Without(was, SetOf(first.preempted)) && waiting == Reversed(first.preempted) + queued
      requires forall i :: 0 <= i < |first.preempted| ==> first.preempted[i] in was && first.preempted[i] in waiting
      requires RanEffect(first, was, before) && forall r :: r in queued ==> r in before && r.State() == before[r]
      modifies this`running, this`waiting, this`holding, this`calls, waiting
      ensures Valid() && OutputOk(pass, phase) && pass.preempted == first.preempted
      ensures running == old(running) + pass.admitted
      ensures waiting == Without(old(waiting), SetOf(pass.admitted) + SetOf(pass.rejected))
      ensures multiset(running) + multiset(waiting) + multiset(pass.rejected) ==
        multiset(old(running)) + multiset(old(waiting))
      ensures |running| <= Max(|old(running)|, config.maxRunning)
      ensures pass.budget <= first.budget && first.scheduled <= pass.scheduled
      ensures RanEffect(pass, was, before) && QueuedEffect(pass, queued, before) && Fates(pass, was, queued)
      ensures InOrder(pass, was, queued)
      ensures old(NoPlace()) ==> pass == first
      ensures pass.preempted == [] && config.MayCut() ==>
        waiting == [] || pass.budget <= 0 || |running| >= config.maxRunning || Refused()
    {
      hide Without, Reversed, NoDuplicates, OutputOk, RanEffect, QueuedEffect, Fates, Preempt, PartOf, RequestsOf,
        Follow, InOrder;
      ghost var mid: map<Request, Progress> := map r | r in running + waiting :: r.State();
      MidStates(first, was, queued, before, mid);
      pass := AdmitAll(first, phase, mid);
      OrderJoins(first, pass, was, queued);
      EffectsJoin(first, pass, was, queued, before, mid);
    }

    /** The output follows the queues: the requests that ran come first, as they ran, then the
        admitted ones, as they waited. */
    ghost predicate InOrder(pass: Pass, was: seq<Request>, queued: seq<Request>) {
      && PartOf(RequestsOf(pass.scheduled), was + pass.admitted)
      && PartOf(pass.admitted, Reversed(pass.preempted) + queued)
    }

    lemma OrderJoins(first: Pass, pass: Pass, was: seq<Request>, queued: seq<Request>)
      requires PartOf(RequestsOf(first.scheduled), was)
      requires (pass == first && pass.admitted == []) || Follow(pass, first, Reversed(pass.preempted) + queued)
      ensures InOrder(pass, was, queued)
    {
      hide PartOf;
      PartJoin(RequestsOf(first.scheduled), was, pass.admitted);
      if pass.admitted == [] {
        NothingIsPart(pass.admitted, Reversed(pass.preempted) + queued);
        assert RequestsOf(first.scheduled) + [] == RequestsOf(first.scheduled);
      }
    }

    /** `before` has the state of every request as it is now. */
    ghost predicate Snapshot(before: map<Request, Progress>)
      reads this, running, waiting
    {
      && (forall r :: r in running ==> r in before && before[r] == r.State())
      && (forall r :: r in waiting ==> r in before && before[r] == r.State())
    }

    /** The first loop passes over every request, and the second is not entered. */
    ghost predicate NothingToDo(before: map<Request, Progress>)
      reads this`running, this`waiting
    {
      (forall r :: r in running ==> r in before && Stuck(r.profile, before[r])) && NoPlace()
    }

    predicate NoPlace()
      reads this`running, this`waiting
    {
      waiting == [] || |running| >= config.maxRunning
    }

    /** All entries of the output are of one phase. */
    ghost predicate OnePhase(pass: Pass) {
      forall i, j :: 0 <= i < |pass.scheduled| && 0 <= j < |pass.scheduled| ==>
        pass.scheduled[i].step.isPrefill == pass.scheduled[j].step.isPrefill
    }

    lemma OutputIsOnePhase(pass: Pass, phase: Option<Phase>)
      requires OutputOk(pass, phase) && (phase.None? ==> pass == FreshPass())
      ensures OnePhase(pass)
    {
    }

    lemma ChoiceExact(c: Call, was: seq<Request>, queued: seq<Request>, before: map<Request, Progress>)
      requires c.hasPrefill == HasWork(PrefillPhase, was, queued, before)
      requires c.hasDecode == HasWork(DecodePhase, was, queued, before)
      ensures Rotates(c) ==> Chose(was, queued, before, c.preferred, c.phase, c.next)
      ensures Rotates(c) && c.phase.None? ==> !c.hasPrefill && !c.hasDecode
    {
      hide HasWork;
    }

    lemma NothingReady(before: map<Request, Progress>)
      requires Valid() && Snapshot(before) && !HasPrefill() && !HasDecode()
      ensures NothingToDo(before)
    {
      forall r | r in running
        ensures r in before && Stuck(r.profile, before[r])
      {
        assert !Ready(r, true) && !Ready(r, false);
      }
    }

    /** Who may be preempted, admitted and rejected: victims ran, the others waited, and nobody
        has two fates. */
    static ghost predicate Fates(pass: Pass, was: seq<Request>, queued: seq<Request>) {
      && (forall r :: r in pass.preempted ==> r in was && r !in pass.admitted && r !in pass.rejected)
      && (forall r :: r in pass.admitted ==> r in queued && r !in pass.rejected)
      && (forall r :: r in pass.rejected ==> r in queued)
    }

    lemma NoVictims(was: seq<Request>, queued: seq<Request>, gone: seq<Request>)
      requires gone == []
      ensures Without(was, SetOf(gone)) == was && Reversed(gone) + queued == queued
    {
      WithoutNothing(was, SetOf(gone));
    }

    /** The states between the two loops. */
    lemma MidStates(pass: Pass, was: seq<Request>, queued: seq<Request>, before: map<Request, Progress>,
        mid: map<Request, Progress>)
      requires RanEffect(pass, was, before) && forall r :: r in queued ==> r in before && r.State() == before[r]
      requires running == Without(was, SetOf(pass.preempted)) && waiting == Reversed(pass.preempted) + queued
      requires Snapshot(mid)
      ensures forall r :: r in was ==>
        r in before && r in mid && mid[r] == if r in pass.preempted then Preempt(before[r]) else before[r]
      ensures forall r :: r in queued ==> r in before && r in mid && mid[r] == before[r]
      ensures forall r :: r in was && r !in pass.preempted ==> r in running
    {
      hide Without, Reversed, Preempt;
      ReversedMembers(pass.preempted);
      WithoutSet(was, SetOf(pass.preempted));
      forall r | r in was
        ensures r in running + waiting && (r !in pass.preempted ==> r in running)
      {
        assert r in SetOf(was);
        if r !in pass.preempted { assert r in SetOf(running); }
      }
    }

    /** The two loops one after the other. */
    lemma EffectsJoin(first: Pass, pass: Pass, was: seq<Request>, queued: seq<Request>,
        before: map<Request, Progress>, mid: map<Request, Progress>)
      requires NoDuplicates(was + queued) && pass.preempted == first.preempted
      requires forall r :: r in pass.preempted ==> r in was
      requires forall r :: r in was ==>
        r in before && r in mid && mid[r] == if r in pass.preempted then Preempt(before[r]) else before[r]
      requires forall r :: r in queued ==> r in before && r in mid && mid[r] == before[r]
      requires forall r :: r in was && r !in pass.preempted ==> r.State() == mid[r]
      requires QueuedEffect(pass, Reversed(pass.preempted) + queued, mid)
      requires forall r :: r in pass.admitted + pass.rejected ==>
        r in Reversed(pass.preempted) + queued && r !in pass.preempted
      requires forall r :: r in pass.admitted ==> r !in pass.rejected
      ensures RanEffect(pass, was, before) && QueuedEffect(pass, queued, before) && Fates(pass, was, queued)
    {
      hide NoDuplicates, Reversed, Preempt;
      FatesJoin(pass, was, queued);
      DistinctParts(was, queued);
      ReversedMembers(pass.preempted);
      assert forall r :: r in pass.preempted ==> r in Reversed(pass.preempted) + queued;
      assert forall r :: r in queued ==> r in Reversed(pass.preempted) + queued;
    }

    lemma FatesJoin(pass: Pass, was: seq<Request>, queued: seq<Request>)
      requires forall r :: r in pass.preempted ==> r in was
      requires forall r :: r in pass.admitted + pass.rejected ==>
        r in Reversed(pass.preempted) + queued && r !in pass.preempted
      requires forall r :: r in pass.admitted ==> r !in pass.rejected
      ensures Fates(pass, was, queued)
    {
      hide Reversed;
      ReversedMembers(pass.preempted);
      assert forall r :: r in pass.admitted ==> r in pass.admitted + pass.rejected;
      assert forall r :: r in pass.rejected ==> r in pass.admitted + pass.rejected;
    }

    lemma NobodyAdmitted(pass: Pass, was: seq<Request>, queued: seq<Request>, before: map<Request, Progress>)
      requires pass.admitted == [] && pass.rejected == [] && RanEffect(pass, was, before)
      requires forall r :: r in queued ==> r in before && r.State() == before[r]
      requires forall r :: r in pass.preempted ==> r in was
      ensures QueuedEffect(pass, queued, before) && Fates(pass, was, queued)
    {
    }

    /** The first half of `schedule`. */
    method ScheduleFirst(phase: Option<Phase>, ghost before: map<Request, Progress>) returns (pass: Pass)
      requires Valid() && Snapshot(before)
      modifies this`running, this`waiting, this`holding, this`calls, running
      ensures Valid() && OutputOk(pass, phase) && pass.admitted == [] && pass.rejected == []
      ensures PartOf(RequestsOf(pass.scheduled), old(running))
      ensures running == Without(old(running), SetOf(pass.preempted))
      ensures waiting == Reversed(pass.preempted) + old(waiting)
      ensures multiset(running) + multiset(waiting) == multiset(old(running)) + multiset(old(waiting))
      ensures forall i :: 0 <= i < |waiting| ==> waiting[i] in old(running) || waiting[i] in old(waiting)
      ensures forall i :: 0 <= i < |pass.preempted| ==>
        pass.preempted[i] in old(running) && pass.preempted[i] in waiting
      ensures |running| <= |old(running)|
      ensures RanEffect(pass, old(running), before)
      ensures forall r :: r in old(waiting) ==> r in before && r.State() == before[r]
      ensures old(NothingToDo(before)) ==> pass == FreshPass() && NoPlace()
      ensures AlwaysGrants() ==> pass.preempted == [] && Served(pass, old(running), before, phase)
    {
      hide Without, Reversed, NoDuplicates, QueuesOk, EntriesOk, OutputOk, Served, Stuck, PartOf, RequestsOf;
      ghost var was, queued := running, waiting;
      pass := ScheduleRunningQueue(phase, before);
      QueuesAfterRunning(pass, was, queued, before);
      OutputAfterRunning(pass, was, queued, before, phase);
      StatesAfterRunning(pass, was, queued, before);
      if pass.preempted == [] {
        NoVictims(was, queued, pass.preempted);
      }
    }

    lemma StatesAfterRunning(pass: Pass, was: seq<Request>, queued: seq<Request>, before: map<Request, Progress>)
      requires QueuesOk(pass, was, queued, before)
      ensures RanEffect(pass, was, before)
      ensures forall r :: r in queued ==> r in before && r.State() == before[r]
    {
    }

    /** The admitted requests come last in the output, in the order in which they waited. */
    ghost predicate Follow(pass: Pass, start: Pass, line: seq<Request>) {
      && PartOf(pass.admitted, line)
      && RequestsOf(pass.scheduled) == RequestsOf(start.scheduled) + pass.admitted
    }

    lemma AdmittedLast(pass: Pass, start: Pass, kept: seq<Request>, ran: seq<Request>, queued: seq<Request>,
        walked: nat, mid: map<Request, Progress>)
      requires AdmittedOk(pass, start, ran, queued, mid) && LineOk(pass, kept, ran, queued, walked)
      ensures Follow(pass, start, queued)
    {
      hide Balanced, PartOf;
      PartLonger(pass.admitted, queued[..walked], queued[walked..]);
      assert queued == queued[..walked] + queued[walked..];
    }

    /** The second half of `schedule`. */
    method AdmitAll(start: Pass, phase: Option<Phase>, ghost mid: map<Request, Progress>) returns (pass: Pass)
      requires Valid() && OutputOk(start, phase) && start.admitted == [] && start.rejected == []
      requires phase != Some(DecodePhase) && forall i :: 0 <= i < |start.preempted| ==> start.preempted[i] in waiting
      requires Snapshot(mid)
      modifies this`running, this`waiting, this`holding, this`calls, waiting
      ensures Valid() && OutputOk(pass, phase) && pass.preempted == start.preempted
      ensures running == old(running) + pass.admitted
      ensures waiting == Without(old(waiting), SetOf(pass.admitted) + SetOf(pass.rejected))
      ensures multiset(running) + multiset(waiting) + multiset(pass.rejected) ==
        multiset(old(running)) + multiset(old(waiting))
      ensures forall i :: 0 <= i < |pass.preempted| ==> pass.preempted[i] in waiting
      ensures |running| <= Max(|old(running)|, config.maxRunning)
      ensures pass.budget <= start.budget && start.scheduled <= pass.scheduled
      ensures QueuedEffect(pass, old(waiting), mid) && forall r :: r in old(running) ==> r in mid && r.State() == mid[r]
      ensures forall r :: r in pass.admitted + pass.rejected ==> r in old(waiting) && r !in pass.preempted
      ensures forall r :: r in pass.admitted ==> r !in pass.rejected
      ensures Follow(pass, start, old(waiting))
      ensures old(NoPlace()) ==> pass == start
      ensures start.preempted == [] && config.MayCut() ==>
        waiting == [] || pass.budget <= 0 || |running| >= config.maxRunning || Refused()
    {
      hide Without, NoDuplicates, LineOk, Balanced, AdmittedOk, Stands, QueuedEffect, Follow, AdmittingOk, AtHit;
      ghost var ran, queued := running, waiting;
      AdmissionStarts(start, phase, mid);
      DistinctParts(ran, queued);
      var kept;
      ghost var walked;
      pass, walked, kept := AdmitWaiting(start, ran, queued, mid);
      AdmissionEnds(pass, start, kept, ran, queued, walked, mid, phase);
      LineEnds(pass, kept, ran, queued, walked);
      AdmittedLast(pass, start, kept, ran, queued, walked, mid);
      waiting := kept + waiting;
    }
  }

  /** The second loop without the heap: of the first `walked` waiting requests, those not
      admitted or rejected are kept in order. */
  ghost predicate LineOk(pass: Pass, kept: seq<Request>, ran: seq<Request>, queued: seq<Request>, walked: nat) {
    && NoDuplicates(ran + queued) && walked <= |queued|
    && kept == Without(queued[..walked], SetOf(pass.admitted) + SetOf(pass.rejected))
    && NoDuplicates(pass.admitted) && NoDuplicates(pass.rejected) && PartOf(pass.admitted, queued[..walked])
    && (forall i :: 0 <= i < |pass.admitted| ==>
          pass.admitted[i] in queued[..walked] && pass.admitted[i] !in pass.preempted &&
            pass.admitted[i] !in pass.rejected)
    && (forall i :: 0 <= i < |pass.rejected| ==>
          pass.rejected[i] in queued[..walked] && pass.rejected[i] !in pass.preempted)
  }

  lemma FrontIsFresh(pass: Pass, kept: seq<Request>, ran: seq<Request>, queued: seq<Request>, walked: nat)
    requires LineOk(pass, kept, ran, queued, walked) && walked < |queued|
    ensures
      var r := queued[walked];
      r !in ran && r !in queued[..walked] && r !in pass.admitted && r !in pass.rejected
  {
    DistinctParts(ran, queued);
  }

  lemma LineStays(pass: Pass, kept: seq<Request>, ran: seq<Request>, queued: seq<Request>, walked: nat)
    requires LineOk(pass, kept, ran, queued, walked) && walked < |queued|
    ensures LineOk(pass, kept + [queued[walked]], ran, queued, walked + 1)
  {
    hide NoDuplicates, Without, PartOf;
    FrontIsFresh(pass, kept, ran, queued, walked);
    assert queued[..walked + 1] == queued[..walked] + [queued[walked]];
    PartSkips(pass.admitted, queued[..walked], queued[walked]);
    WalkedStays(queued, walked, SetOf(pass.admitted) + SetOf(pass.rejected));
  }

  lemma LineRejects(pass: Pass, kept: seq<Request>, ran: seq<Request>, queued: seq<Request>, walked: nat)
    requires LineOk(pass, kept, ran, queued, walked) && walked < |queued| && queued[walked] !in pass.preempted
    ensures LineOk(pass.(rejected := pass.rejected + [queued[walked]]), kept, ran, queued, walked + 1)
  {
    hide Without, PartOf;
    var r := queued[walked];
    FrontIsFresh(pass, kept, ran, queued, walked);
    DistinctParts(ran, queued);
    assert queued[..walked + 1] == queued[..walked] + [r];
    PartSkips(pass.admitted, queued[..walked], r);
    WalkedLeaves(queued, walked, SetOf(pass.admitted) + SetOf(pass.rejected));
    SetOfAppend(pass.rejected, r);
    assert SetOf(pass.admitted) + SetOf(pass.rejected + [r]) == SetOf(pass.admitted) + SetOf(pass.rejected) + {r};
  }

  lemma LineAdmits(pass: Pass, kept: seq<Request>, ran: seq<Request>, queued: seq<Request>, walked: nat, s: Scheduled)
    requires LineOk(pass, kept, ran, queued, walked) && walked < |queued| && queued[walked] !in pass.preempted
    requires s.request == queued[walked]
    ensures LineOk(Admitted(pass, s), kept, ran, queued, walked + 1)
  {
    hide Without, PartOf;
    var r := queued[walked];
    FrontIsFresh(pass, kept, ran, queued, walked);
    DistinctParts(ran, queued);
    assert queued[..walked + 1] == queued[..walked] + [r];
    PartTakes(pass.admitted, queued[..walked], r);
    WalkedLeaves(queued, walked, SetOf(pass.admitted) + SetOf(pass.rejected));
    SetOfAppend(pass.admitted, r);
    assert SetOf(pass.admitted + [r]) + SetOf(pass.rejected) == SetOf(pass.admitted) + SetOf(pass.rejected) + {r};
  }

  /** At the end of the walk, what was not reached follows what was kept. */
  lemma LineEnds(pass: Pass, kept: seq<Request>, ran: seq<Request>, queued: seq<Request>, walked: nat)
    requires LineOk(pass, kept, ran, queued, walked)
    ensures
      var left := Without(queued, SetOf(pass.admitted) + SetOf(pass.rejected));
      && kept + queued[walked..] == left
      && multiset(ran + pass.admitted) + multiset(left) + multiset(pass.rejected) == multiset(ran) + multiset(queued)
      && NoDuplicates(ran + pass.admitted + left)
  {
    hide Without, PartOf;
    var gone := SetOf(pass.admitted) + SetOf(pass.rejected);
    DistinctParts(ran, queued);
    assert queued == queued[..walked] + queued[walked..];
    DistinctParts(queued[..walked], queued[walked..]);
    WithoutAppend(queued[..walked], queued[walked..], gone);
    WithoutNothing(queued[walked..], gone);
    WaitersMove(ran, queued, pass.admitted, pass.rejected);
  }
}
