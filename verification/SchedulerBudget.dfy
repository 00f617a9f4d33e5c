/** The limits of `Scheduler.schedule`, and the token accounting of one call: what scheduling a
    request charges, what preempting one gives back. */
module SchedulerBudget {
  import opened CacheTypes
  import opened Requests
  import opened Queues

  /** The parts of `SchedulerConfig` that `schedule` consults. */
  datatype Config = Config(
    maxRunning: nat,
    maxTokens: nat,
    maxSeqLen: nat,
    longPrefillThreshold: nat,
    maxPrefillPerRequest: Option<nat>,
    enablePrefixCache: bool,
    enableChunkPrefill: bool,
    speculative: nat,
    chunksWithSpeculation: bool,
    homogeneous: bool,
    hasGroups: bool)
  {
    /** What `__post_init__` demands. */
    predicate Valid() {
      speculative + 1 <= maxTokens && (maxPrefillPerRequest.Some? ==> maxPrefillPerRequest.value > 0)
    }

    /** `_prefill_chunk_limit`. */
    function ChunkLimit(): Option<nat> {
      var threshold := if enableChunkPrefill && longPrefillThreshold > 0 then Some(longPrefillThreshold) else None;
      if maxPrefillPerRequest.None? then threshold
      else if threshold.None? then maxPrefillPerRequest
      else Some(Min(maxPrefillPerRequest.value, threshold.value))
    }

    /** `_single_prefill_dispatch_limit`. */
    function SingleLimit(): nat {
      if ChunkLimit().None? then maxTokens else Min(ChunkLimit().value, maxTokens)
    }

    /** `_requires_single_prefill_dispatch`. */
    predicate RequiresSingle() {
      !enableChunkPrefill || (speculative > 0 && !chunksWithSpeculation)
    }

    /** `_single_prefill_rejection`. */
    predicate Rejects(p: Profile, r: Progress) {
      RequiresSingle() && Max(1, p.prompt - r.computed) > SingleLimit()
    }

    /** `_limit_scheduled_tokens`. */
    function Limited(p: Profile, r: Progress, budget: int): (n: int)
      ensures n <= Max(0, budget) && n <= Max(0, Needed(p, r))
    {
      var needed := Needed(p, r);
      if !IsPrefill(p, r) then Min(needed, budget)
      else
        var limit := if ChunkLimit().None? then budget else Min(budget, ChunkLimit().value);
        if RequiresSingle() && needed > limit then 0 else Min(needed, limit)
    }

    // ---- what the limits mean ----

    /** A prompt may be computed in several steps. */
    predicate MayCut() {
      enableChunkPrefill && (speculative == 0 || chunksWithSpeculation)
    }

    /** The configured limits admit a chunk of `n` prompt tokens. */
    predicate AdmitsChunk(n: int) {
      && (maxPrefillPerRequest.Some? ==> n <= maxPrefillPerRequest.value)
      && (enableChunkPrefill && longPrefillThreshold > 0 ==> n <= longPrefillThreshold)
    }

    /** A step may take `n` tokens of this request when `budget` tokens are left. */
    predicate MayTake(p: Profile, r: Progress, budget: int, n: int) {
      && 1 <= n <= Needed(p, r) && n <= budget
      && (r.computed < p.prompt ==> AdmitsChunk(n) && (!MayCut() ==> n == Needed(p, r)))
    }

    /** `n` is the most that a step may take. */
    ghost predicate Takes(p: Profile, r: Progress, budget: int, n: int) {
      MayTake(p, r, budget, n) && forall m :: MayTake(p, r, budget, m) ==> m <= n
    }

    /** What `_limit_scheduled_tokens` gives is the most that may be taken, and nothing exactly
        when nothing may be. */
    lemma LimitedExact(p: Profile, r: Progress, budget: int)
      ensures Limited(p, r, budget) > 0 ==> Takes(p, r, budget, Limited(p, r, budget))
      ensures Limited(p, r, budget) <= 0 ==> forall n :: !MayTake(p, r, budget, n)
    {
      var n := Limited(p, r, budget);
      if n <= 0 {
        forall m
          ensures !MayTake(p, r, budget, m)
        {
        }
      } else {
        forall m | MayTake(p, r, budget, m)
          ensures m <= n
        {
        }
      }
    }

    /** A request is rejected exactly when its prompt may not be cut and no budget ever lets the
        rest of it be taken at once. */
    lemma RejectsExact(p: Profile, r: Progress)
      requires Valid() && r.output == [] && r.placeholders == 0 && r.computed < p.prompt
      ensures Rejects(p, r) <==> forall budget, n :: budget <= maxTokens ==> !MayTake(p, r, budget, n)
    {
      var rest := p.prompt - r.computed;
      if !Rejects(p, r) {
        var n := if MayCut() then 1 else rest;
        assert MayTake(p, r, maxTokens, n);
      }
    }

    /** The remaining budget admits a step of this request, speculative tokens included. */
    ghost predicate Affordable(p: Profile, r: Progress, budget: int) {
      exists n :: Takes(p, r, budget, n) && n + (if r.computed < p.prompt then 0 else p.speculative) <= budget
    }

    lemma AffordableExact(p: Profile, r: Progress, budget: int)
      ensures Affordable(p, r, budget) <==>
        var n := Limited(p, r, budget);
        n > 0 && n + p.ExtraTokens(StepOf(p, r, n)) <= budget
    {
      LimitedExact(p, r, budget);
    }

    /** The size of an entry that found `budget` tokens left: all it may take, or the one token
        that stands for an empty prompt. */
    ghost predicate Fills(p: Profile, r: Progress, budget: int, n: int) {
      Takes(p, r, budget, n) || (p.prompt == 0 && Needed(p, r) <= 0 && n == 1 <= budget)
    }

    /** What the limits say of a waiting request. */
    lemma WaitingExact(p: Profile, r: Progress, budget: int)
      requires Valid() && budget > 0 && r.placeholders == 0 && r.computed <= Max(0, p.prompt - 1)
      ensures
        var rest := Max(1, p.prompt - r.computed);
        Rejects(p, r) <==> !MayCut() && !(rest <= maxTokens && AdmitsChunk(rest))
      ensures Limited(p, r, budget) > 0 ==> Fills(p, r, budget, Limited(p, r, budget))
      ensures Limited(p, r, budget) <= 0 ==> forall n :: !MayTake(p, r, budget, n)
      ensures Limited(p, r, budget) <= 0 && r.computed < p.prompt ==> !MayCut()
      ensures Limited(p, r, budget) <= 0 && r.computed >= p.prompt ==> Fills(p, r, budget, 1)
    {
      LimitedExact(p, r, budget);
    }

    lemma FillsFrame(p: Profile, r: Progress, q: Progress, budget: int, n: int)
      requires q == r.(status := q.status) && Fills(p, r, budget, n)
      ensures Fills(p, q, budget, n) && 1 <= n <= budget
    {
      assert forall m :: MayTake(p, q, budget, m) <==> MayTake(p, r, budget, m);
    }
  }

  datatype Phase = PrefillPhase | DecodePhase

  /** What the cache answers: whether it grants blocks (and where), and how long a prefix hits. */
  datatype Answer = Answer(granted: bool, partition: Option<nat>, hit: nat)

  datatype Scheduled = Scheduled(request: Request, step: Step) {
    /** The tokens charged to the budget. */
    function Cost(): nat {
      step.numNew + request.profile.ExtraTokens(step)
    }
  }

  /** The fate of one waiting request. */
  datatype Verdict = Admit(numNew: nat) | Defer | Block | Reject

  /** `SchedulerOutput`, with the local variables of `schedule` that follow it. */
  datatype Pass = Pass(
    budget: int,
    scheduled: seq<Scheduled>,
    tokensOf: map<Request, nat>,      // num_scheduled_tokens
    preempted: seq<Request>,
    admitted: seq<Request>,           // requests taken from the waiting queue
    rejected: seq<Request>,
    prefillTokens: int,
    decodeTokens: int,
    found: map<Request, int>)         // history: the budget each scheduled request found

  function TotalOf(scheduled: seq<Scheduled>, isPrefill: bool): nat {
    if scheduled == [] then 0
    else
      var last := scheduled[|scheduled| - 1];
      TotalOf(scheduled[..|scheduled| - 1], isPrefill)
      + if last.step.isPrefill != isPrefill then 0
        else last.step.numNew + if isPrefill then 0 else last.request.profile.speculative
  }

  /** What the entries cost together. */
  function Spent(scheduled: seq<Scheduled>): nat {
    TotalOf(scheduled, true) + TotalOf(scheduled, false)
  }

  /** Each entry found what the entries before it had left of `maxTokens` - or less, if some of
      what had been spent was given back later by a preemption. */
  ghost predicate FoundLeft(scheduled: seq<Scheduled>, found: map<Request, int>, maxTokens: nat, exact: bool) {
    scheduled == []
    || (var init, last := scheduled[..|scheduled| - 1], scheduled[|scheduled| - 1];
        && FoundLeft(init, found, maxTokens, exact)
        && last.request in found && found[last.request] + Spent(init) <= maxTokens
        && (exact ==> found[last.request] + Spent(init) == maxTokens))
  }

  /** No request is scheduled twice. */
  ghost predicate Distinct(scheduled: seq<Scheduled>) {
    forall i, j :: 0 <= i < j < |scheduled| ==> scheduled[i].request != scheduled[j].request
  }

  /** Budget and token counters add up. */
  ghost predicate Balanced(pass: Pass, maxTokens: nat) {
    && pass.budget >= 0
    && pass.prefillTokens == TotalOf(pass.scheduled, true)
    && pass.decodeTokens == TotalOf(pass.scheduled, false)
    && pass.budget + pass.prefillTokens + pass.decodeTokens == maxTokens
    && Distinct(pass.scheduled)
    && FoundLeft(pass.scheduled, pass.found, maxTokens, pass.preempted == [])
  }

  /** `output.scheduled_requests` without the victim's entry. */
  function Unscheduled(scheduled: seq<Scheduled>, victim: Request): seq<Scheduled> {
    if scheduled == [] then []
    else
      var last := scheduled[|scheduled| - 1];
      Unscheduled(scheduled[..|scheduled| - 1], victim) + if last.request == victim then [] else [last]
  }

  /** The requests of the entries, in order. */
  function RequestsOf(scheduled: seq<Scheduled>): seq<Request> {
    seq(|scheduled|, i requires 0 <= i < |scheduled| => scheduled[i].request)
  }

  lemma {:induction false} UnscheduledIsWithout(scheduled: seq<Scheduled>, victim: Request)
    ensures RequestsOf(Unscheduled(scheduled, victim)) == Without(RequestsOf(scheduled), {victim})
  {
    if scheduled != [] {
      UnscheduledIsWithout(scheduled[..|scheduled| - 1], victim);
      var rs := RequestsOf(scheduled);
      assert rs[..|rs| - 1] == RequestsOf(scheduled[..|scheduled| - 1]);
    }
  }

  /** The entries `after` are entries for some of the requests of `before`, in the same order. */
  ghost predicate KeepsOrder(before: seq<Scheduled>, after: seq<Scheduled>) {
    PartOf(RequestsOf(after), RequestsOf(before))
  }

  /** Or, once `r` has been passed, there is one for `r` at the end. */
  ghost predicate Passes(before: seq<Scheduled>, after: seq<Scheduled>, r: Request) {
    PartOf(RequestsOf(after), RequestsOf(before) + [r])
  }

  lemma EvictKeepsOrder(pass: Pass, victim: Request, isPrefill: bool)
    ensures KeepsOrder(pass.scheduled, Evict(pass, victim, isPrefill).scheduled)
  {
    UnscheduledIsWithout(pass.scheduled, victim);
    PartSame(RequestsOf(pass.scheduled));
    PartWithout(RequestsOf(pass.scheduled), RequestsOf(pass.scheduled), {victim});
  }

  lemma PassesOne(before: seq<Scheduled>, after: seq<Scheduled>, s: Scheduled)
    requires KeepsOrder(before, after)
    ensures Passes(before, after, s.request) && Passes(before, after + [s], s.request)
  {
    RequestsAppend(after, s);
    PartSkips(RequestsOf(after), RequestsOf(before), s.request);
    PartTakes(RequestsOf(after), RequestsOf(before), s.request);
  }

  lemma OrderKept(scheduled: seq<Scheduled>, r: Request)
    ensures KeepsOrder(scheduled, scheduled) && Passes(scheduled, scheduled, r)
  {
    PartSame(RequestsOf(scheduled));
    PartSkips(RequestsOf(scheduled), RequestsOf(scheduled), r);
  }

  lemma PassedAt(before: seq<Scheduled>, after: seq<Scheduled>, r: Request, queue: seq<Request>)
    requires PartOf(RequestsOf(before), queue) && Passes(before, after, r)
    ensures PartOf(RequestsOf(after), queue + [r])
  {
    PartTakes(RequestsOf(before), queue, r);
    PartInTurn(RequestsOf(after), RequestsOf(before) + [r], queue + [r]);
  }

  lemma NothingScheduled(queue: seq<Request>)
    ensures PartOf(RequestsOf([]), queue)
  {
  }

  lemma RequestsAppend(scheduled: seq<Scheduled>, s: Scheduled)
    ensures RequestsOf(scheduled + [s]) == RequestsOf(scheduled) + [s.request]
  {
  }

  lemma {:induction false} UnscheduledMembers(scheduled: seq<Scheduled>, victim: Request)
    ensures
      var kept := Unscheduled(scheduled, victim);
      && (forall i :: 0 <= i < |kept| ==> kept[i] in scheduled && kept[i].request != victim)
      && (forall i :: 0 <= i < |scheduled| && scheduled[i].request != victim ==> scheduled[i] in kept)
  {
    if scheduled != [] {
      UnscheduledMembers(scheduled[..|scheduled| - 1], victim);
      assert scheduled == scheduled[..|scheduled| - 1] + [scheduled[|scheduled| - 1]];
    }
  }

  lemma {:induction false} UnscheduledDistinct(scheduled: seq<Scheduled>, victim: Request)
    requires Distinct(scheduled)
    ensures Distinct(Unscheduled(scheduled, victim))
  {
    if scheduled != [] {
      UnscheduledDistinct(scheduled[..|scheduled| - 1], victim);
      UnscheduledMembers(scheduled[..|scheduled| - 1], victim);
    }
  }

  lemma {:induction false} UnscheduledNothing(scheduled: seq<Scheduled>, victim: Request)
    requires forall s :: s in scheduled ==> s.request != victim
    ensures Unscheduled(scheduled, victim) == scheduled
  {
    if scheduled != [] {
      UnscheduledNothing(scheduled[..|scheduled| - 1], victim);
      assert scheduled == scheduled[..|scheduled| - 1] + [scheduled[|scheduled| - 1]];
    }
  }

  /** Unscheduling a victim gives back exactly what it was charged, in its own phase. */
  lemma {:induction false} UnscheduledTotal(scheduled: seq<Scheduled>, s: Scheduled, isPrefill: bool)
    requires Distinct(scheduled) && s in scheduled
    ensures TotalOf(scheduled, isPrefill)
         == TotalOf(Unscheduled(scheduled, s.request), isPrefill) + (if s.step.isPrefill == isPrefill then s.Cost()
           else 0)
  {
    var init, last := scheduled[..|scheduled| - 1], scheduled[|scheduled| - 1];
    assert scheduled == init + [last];
    if last == s {
      UnscheduledNothing(init, s.request);
      assert Unscheduled(scheduled, s.request) == init;
    } else {
      assert last.request != s.request;
      UnscheduledTotal(init, s, isPrefill);
      var kept := Unscheduled(init, s.request);
      assert (kept + [last])[..|kept|] == kept;
    }
  }

  lemma {:induction false} FoundFrame(scheduled: seq<Scheduled>, found: map<Request, int>, s: Scheduled, f: int,
                                      maxTokens: nat, exact: bool)
    requires FoundLeft(scheduled, found, maxTokens, exact) && forall t :: t in scheduled ==> t.request != s.request
    ensures FoundLeft(scheduled, found[s.request := f], maxTokens, exact)
  {
    if scheduled != [] {
      assert scheduled == scheduled[..|scheduled| - 1] + [scheduled[|scheduled| - 1]];
      FoundFrame(scheduled[..|scheduled| - 1], found, s, f, maxTokens, exact);
    }
  }

  /** A new entry that found `f` tokens left. */
  lemma FoundAppend(scheduled: seq<Scheduled>, found: map<Request, int>, s: Scheduled, f: int, maxTokens: nat,
      exact: bool)
    requires FoundLeft(scheduled, found, maxTokens, exact) && forall t :: t in scheduled ==> t.request != s.request
    requires f + Spent(scheduled) <= maxTokens && (exact ==> f + Spent(scheduled) == maxTokens)
    ensures FoundLeft(scheduled + [s], found[s.request := f], maxTokens, exact)
  {
    hide Spent;
    FoundFrame(scheduled, found, s, f, maxTokens, exact);
    assert (scheduled + [s])[..|scheduled|] == scheduled;
  }

  /** Unscheduling a victim gives tokens back, so the later entries had found less. */
  lemma {:induction false} FoundUnscheduled(scheduled: seq<Scheduled>, found: map<Request, int>, victim: Request,
                                            maxTokens: nat, exact: bool)
    requires FoundLeft(scheduled, found, maxTokens, exact)
    ensures FoundLeft(Unscheduled(scheduled, victim), found, maxTokens, false)
  {
    hide Spent;
    if scheduled != [] {
      var init, last := scheduled[..|scheduled| - 1], scheduled[|scheduled| - 1];
      FoundUnscheduled(init, found, victim, maxTokens, exact);
      UnscheduledLess(init, victim);
      var kept := Unscheduled(init, victim);
      if last.request == victim {
        assert Unscheduled(scheduled, victim) == kept;
      } else {
        assert (kept + [last])[..|kept|] == kept;
      }
    }
  }

  lemma {:induction false} UnscheduledLess(scheduled: seq<Scheduled>, victim: Request)
    ensures Spent(Unscheduled(scheduled, victim)) <= Spent(scheduled)
  {
    if scheduled != [] {
      var init, last := scheduled[..|scheduled| - 1], scheduled[|scheduled| - 1];
      UnscheduledLess(init, victim);
      var kept := Unscheduled(init, victim);
      assert kept + [] == kept && (kept + [last])[..|kept|] == kept;
    }
  }

  lemma {:induction false} FoundWeaker(scheduled: seq<Scheduled>, found: map<Request, int>, maxTokens: nat)
    requires FoundLeft(scheduled, found, maxTokens, true)
    ensures FoundLeft(scheduled, found, maxTokens, false)
  {
    if scheduled != [] { FoundWeaker(scheduled[..|scheduled| - 1], found, maxTokens); }
  }

  lemma ScheduledAppend(scheduled: seq<Scheduled>, s: Scheduled, isPrefill: bool)
    requires Distinct(scheduled) && forall t :: t in scheduled ==> t.request != s.request
    ensures Distinct(scheduled + [s])
    ensures TotalOf(scheduled + [s], isPrefill) ==
      TotalOf(scheduled, isPrefill) + (if s.step.isPrefill == isPrefill then s.Cost() else 0)
  {
    assert (scheduled + [s])[..|scheduled|] == scheduled;
  }

  // ---- the rotation between prefill and decode ----

  function Other(phase: Phase): Phase {
    if phase.PrefillPhase? then DecodePhase else PrefillPhase
  }

  /** One choice of `_grouped_cache_phase`: the work there was, the preference before, the phase
      chosen and the preference after. */
  datatype Call = Call(hasPrefill: bool, hasDecode: bool, preferred: Phase, phase: Option<Phase>, next: Phase) {
    predicate Has(kind: Phase) {
      if kind.PrefillPhase? then hasPrefill else hasDecode
    }
  }

  /** A phase is chosen exactly when there is work, and only for work of its kind; the
      preference decides between the two kinds, and moves away from what was chosen. */
  predicate Rotates(c: Call) {
    && (c.phase.None? <==> !c.hasPrefill && !c.hasDecode)
    && (c.phase.Some? ==> c.Has(c.phase.value))
    && (c.hasPrefill && c.hasDecode ==> c.phase == Some(c.preferred))
    && c.next == (if c.phase.Some? then Other(c.phase.value) else c.preferred)
  }

  /** Successive calls hand the preference on. */
  ghost predicate Rotation(calls: seq<Call>) {
    && (forall i :: 0 <= i < |calls| ==> Rotates(calls[i]))
    && (forall i :: 0 <= i < |calls| - 1 ==> calls[i + 1].preferred == calls[i].next)
  }

  function Chosen(calls: seq<Call>, kind: Phase): nat {
    if calls == [] then 0
    else Chosen(calls[..|calls| - 1], kind) + if calls[|calls| - 1].phase == Some(kind) then 1 else 0
  }

  /** Neither phase starves: over any run of calls, however the work comes and goes, work of one
      kind that stays available is chosen in at least every second call. */
  lemma {:induction false} NoPhaseStarves(calls: seq<Call>, kind: Phase)
    requires Rotation(calls) && forall i :: 0 <= i < |calls| ==> calls[i].Has(kind)
    ensures 2 * Chosen(calls, kind) >= |calls| - 1
    ensures calls != [] && calls[|calls| - 1].next != kind ==> 2 * Chosen(calls, kind) >= |calls|
  {
    if calls != [] {
      var init := calls[..|calls| - 1];
      NoPhaseStarves(init, kind);
      assert Rotates(calls[|calls| - 1]);
      if init != [] { assert init[|init| - 1].next == calls[|calls| - 1].preferred; }
    }
  }

  /** What preempting `victim` does to the output and to the budget. */
  function Evict(pass: Pass, victim: Request, isPrefill: bool): Pass {
    var evicted := pass.(preempted := pass.preempted + [victim]);
    if victim !in pass.tokensOf then evicted
    else
      var returned := pass.tokensOf[victim];
      evicted.(
        tokensOf := pass.tokensOf - {victim},
        scheduled := Unscheduled(pass.scheduled, victim),
        prefillTokens := pass.prefillTokens - (if isPrefill then returned else 0),
        decodeTokens := pass.decodeTokens - (if isPrefill then 0 else returned),
        budget := pass.budget + returned)
  }

  /** What scheduling a running request does to the output and to the budget. */
  function Charge(pass: Pass, s: Scheduled, found: int): Pass {
    pass.(
      found := pass.found[s.request := found],
      scheduled := pass.scheduled + [s],
      tokensOf := pass.tokensOf[s.request := s.Cost()],
      prefillTokens := pass.prefillTokens + (if s.step.isPrefill then s.step.numNew else 0),
      decodeTokens := pass.decodeTokens + (if s.step.isPrefill then 0 else s.Cost()),
      budget := pass.budget - s.Cost())
  }

  /** What is charged is what is scheduled. */
  ghost predicate Recorded(pass: Pass) {
    && (forall i :: 0 <= i < |pass.scheduled| ==>
          pass.scheduled[i].request in pass.tokensOf &&
            pass.tokensOf[pass.scheduled[i].request] == pass.scheduled[i].Cost())
    && (forall r :: r in pass.tokensOf ==> exists i :: 0 <= i < |pass.scheduled| && pass.scheduled[i].request == r)
  }

  /** What is charged for a step is how far its request moves when the step is sent: a decode is
      charged for its drafts too. */
  lemma ChargedAsAdvanced(s: Scheduled, r: Progress)
    requires s.step.isPrefill <==> IsPrefill(s.request.profile, r)
    ensures Advance(s.request.profile, r, s.step).computed == r.computed + s.Cost()
  {
  }

  lemma ChargeBalanced(pass: Pass, s: Scheduled, found: int, maxTokens: nat)
    requires Balanced(pass, maxTokens) && Recorded(pass) && s.request !in pass.tokensOf && s.Cost() <= pass.budget
    requires found <= pass.budget && (pass.preempted == [] ==> found == pass.budget)
    ensures Balanced(Charge(pass, s, found), maxTokens) && Recorded(Charge(pass, s, found))
  {
    hide TotalOf, Distinct, Recorded, FoundLeft;
    NotScheduled(pass, s.request);
    ScheduledAppend(pass.scheduled, s, true);
    ScheduledAppend(pass.scheduled, s, false);
    FoundAppend(pass.scheduled, pass.found, s, found, maxTokens, pass.preempted == []);
    ChargeRecorded(pass, s, found);
  }

  lemma NotScheduled(pass: Pass, r: Request)
    requires Recorded(pass)
    ensures r !in pass.tokensOf <==> forall i :: 0 <= i < |pass.scheduled| ==> pass.scheduled[i].request != r
  {
  }

  lemma ChargeRecorded(pass: Pass, s: Scheduled, found: int)
    requires Recorded(pass) && s.request !in pass.tokensOf
    ensures Recorded(Charge(pass, s, found))
  {
    hide Scheduled.Cost;
    var next := Charge(pass, s, found);
    assert next.scheduled[|pass.scheduled|] == s;
    forall r | r in next.tokensOf ensures exists i :: 0 <= i < |next.scheduled| && next.scheduled[i].request == r {
      if r != s.request {
        var i :| 0 <= i < |pass.scheduled| && pass.scheduled[i].request == r;
        assert next.scheduled[i].request == r;
      }
    }
  }

  lemma EntryOf(pass: Pass, r: Request) returns (s: Scheduled)
    requires Recorded(pass) && r in pass.tokensOf
    ensures s in pass.scheduled && s.request == r && pass.tokensOf[r] == s.Cost()
  {
    var i :| 0 <= i < |pass.scheduled| && pass.scheduled[i].request == r;
    s := pass.scheduled[i];
  }

  lemma EvictBalanced(pass: Pass, victim: Request, isPrefill: bool, maxTokens: nat)
    requires Balanced(pass, maxTokens) && Recorded(pass)
    requires forall i :: 0 <= i < |pass.scheduled| && pass.scheduled[i].request == victim ==>
      pass.scheduled[i].step.isPrefill == isPrefill
    ensures Balanced(Evict(pass, victim, isPrefill), maxTokens) && Recorded(Evict(pass, victim, isPrefill))
  {
    hide TotalOf, Unscheduled, Distinct, Scheduled.Cost, Recorded, FoundLeft;
    if pass.preempted == [] { FoundWeaker(pass.scheduled, pass.found, maxTokens); }
    if victim in pass.tokensOf {
      FoundUnscheduled(pass.scheduled, pass.found, victim, maxTokens, pass.preempted == []);
      var s := EntryOf(pass, victim);
      UnscheduledTotal(pass.scheduled, s, true);
      UnscheduledTotal(pass.scheduled, s, false);
      UnscheduledDistinct(pass.scheduled, victim);
      EvictRecorded(pass, victim, isPrefill);
    } else {
      SameRecord(pass, Evict(pass, victim, isPrefill));
    }
  }

  lemma SameRecord(pass: Pass, next: Pass)
    requires Recorded(pass) && next.scheduled == pass.scheduled && next.tokensOf == pass.tokensOf
    ensures Recorded(next)
  {
  }

  lemma EvictKept(pass: Pass, victim: Request, isPrefill: bool)
    requires Recorded(pass)
    ensures
      var kept := Evict(pass, victim, isPrefill).scheduled;
      forall i :: 0 <= i < |kept| ==> kept[i] in pass.scheduled && kept[i].request != victim
  {
    UnscheduledMembers(pass.scheduled, victim);
  }

  lemma EvictRecorded(pass: Pass, victim: Request, isPrefill: bool)
    requires Recorded(pass) && victim in pass.tokensOf
    ensures Recorded(Evict(pass, victim, isPrefill))
  {
    hide Scheduled.Cost;
    UnscheduledMembers(pass.scheduled, victim);
    var next := Evict(pass, victim, isPrefill);
    forall r | r in next.tokensOf ensures exists i :: 0 <= i < |next.scheduled| && next.scheduled[i].request == r {
      var i :| 0 <= i < |pass.scheduled| && pass.scheduled[i].request == r;
      assert pass.scheduled[i] in next.scheduled;
      var j :| 0 <= j < |next.scheduled| && next.scheduled[j] == pass.scheduled[i];
      assert next.scheduled[j].request == r;
    }
  }

  /** What admitting a waiting request does to the output and to the budget. */
  function Admitted(pass: Pass, s: Scheduled): Pass {
    pass.(
      found := pass.found[s.request := pass.budget],
      scheduled := pass.scheduled + [s],
      admitted := pass.admitted + [s.request],
      prefillTokens := pass.prefillTokens + s.step.numNew,
      budget := pass.budget - s.step.numNew)
  }

  lemma AdmittedBalanced(pass: Pass, s: Scheduled, maxTokens: nat)
    requires Balanced(pass, maxTokens) && s.step.isPrefill && s.step.numNew <= pass.budget
    requires forall i :: 0 <= i < |pass.scheduled| ==> pass.scheduled[i].request != s.request
    ensures Balanced(Admitted(pass, s), maxTokens)
  {
    hide TotalOf, Distinct, FoundLeft;
    ScheduledAppend(pass.scheduled, s, true);
    ScheduledAppend(pass.scheduled, s, false);
    FoundAppend(pass.scheduled, pass.found, s, pass.budget, maxTokens, pass.preempted == []);
  }

  /** What a larger budget cannot afford, a smaller one cannot either. */
  lemma AffordableGrows(c: Config, p: Profile, r: Progress, less: int, more: int)
    requires less <= more && c.Affordable(p, r, less)
    ensures c.Affordable(p, r, more)
  {
    c.AffordableExact(p, r, less);
    c.AffordableExact(p, r, more);
  }

  /** The request is part of the output. */
  predicate InOutput(scheduled: seq<Scheduled>, r: Request) {
    exists i :: 0 <= i < |scheduled| && scheduled[i].request == r
  }

  lemma OutputGrows(scheduled: seq<Scheduled>, more: seq<Scheduled>, r: Request)
    requires scheduled <= more && InOutput(scheduled, r)
    ensures InOutput(more, r)
  {
    var i :| 0 <= i < |scheduled| && scheduled[i].request == r;
    assert more[i] == scheduled[i];
  }
}
