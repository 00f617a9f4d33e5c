/** The engine's request/reply traffic with the worker: `_try_dispatch_step`,
    `_await_and_apply_oldest`, `_get_live_result`, `_handle_step_error` and
    `_flush_pending_frees`, as far as step ids go.

    The worker is a FIFO that answers each command once; `transit` holds the step ids of the
    commands whose replies the engine has not read yet. How many replies arrive before a read
    times out is chosen by the environment. */
module ReplyPipe {
  import opened CacheTypes
  import opened Queues

  datatype Pipe = Pipe(
    batch: seq<nat>,       // _batch_queue, step ids only
    discard: set<nat>,     // _discard_result_step_ids
    counter: nat,          // _step_counter
    transit: seq<nat>)

  /** `patience` is how many replies arrive before the read times out. */
  datatype Event =
    | Step                                  // dispatch one step
    | Await(patience: nat, error: bool)     // block on the oldest step
    | Cleanup(patience: nat)                // flush pending frees

  datatype Outcome =
    | Sent
    | Applied(id: nat)
    | WorkerError(id: nat)
    | TimedOut(id: nat)
    | Desync(expected: nat, got: nat)
    | Cleaned(got: nat)
    | CleanupTimedOut(id: nat)

  /** `_get_live_result`: drains replies of discarded steps; `None` when the read times out. */
  function GetLive(p: Pipe, patience: nat): (Pipe, Option<nat>)
    decreases patience
  {
    if patience == 0 || p.transit == [] then (p, None)
    else
      var head := p.transit[0];
      var q := p.(transit := p.transit[1..]);
      if head in p.discard then GetLive(q.(discard := p.discard - {head}), patience - 1)
      else (q, Some(head))
  }

  /** `_handle_step_error`: every step in flight is discarded; the failed one only when its
      reply is still to come. */
  function HandleError(p: Pipe, failed: nat, pending: bool): Pipe {
    p.(batch := [], discard := p.discard + (if pending then {failed} else {}) + SetOf(p.batch))
  }

  predicate Enabled(p: Pipe, depth: nat, e: Event) {
    match e
    case Step => |p.batch| < depth
    case Await(_, _) => p.batch != []
    case Cleanup(_) => p.batch == []
  }

  function Send(p: Pipe): Pipe {
    p.(counter := p.counter + 1, transit := p.transit + [p.counter + 1])
  }

  function Apply(p: Pipe, e: Event): (Pipe, Outcome)
    requires e.Await? ==> p.batch != []
  {
    match e
    case Step =>
      (Send(p).(batch := p.batch + [p.counter + 1]), Sent)
    case Await(patience, error) =>
      var id := p.batch[0];
      var (q, got) := GetLive(p.(batch := p.batch[1..]), patience);
      if got.None? then (HandleError(q, id, true), TimedOut(id))
      else if got.value != id then (HandleError(q, id, false), Desync(id, got.value))
      else if error then (HandleError(q, id, false), WorkerError(id))
      else (q, Applied(id))
    case Cleanup(patience) =>
      var (q, got) := GetLive(Send(p), patience);
      (q, if got.None? then CleanupTimedOut(p.counter + 1) else Cleaned(got.value))
  }

  // ---- the invariant ----

  ghost predicate Increasing(s: seq<nat>) {
    forall i, j :: 0 <= i < j < |s| ==> s[i] < s[j]
  }

  /** The replies in transit that belong to neither a live nor a discarded step. */
  function Orphans(p: Pipe): set<nat> {
    SetOf(p.transit) - p.discard - SetOf(p.batch)
  }

  /** In order of dispatch: replies of discarded steps and orphans first, then exactly the
      replies of the steps in flight. */
  ghost predicate Ordered(p: Pipe) {
    && Increasing(p.transit)
    && (forall i :: 0 <= i < |p.transit| ==> p.transit[i] <= p.counter)
    && |p.batch| <= |p.transit| && p.transit[|p.transit| - |p.batch|..] == p.batch
    && p.discard <= SetOf(p.transit[..|p.transit| - |p.batch|])
  }

  /** The replies in transit that no error handler has discarded. */
  function Live(p: Pipe): set<nat> {
    SetOf(p.transit) - p.discard
  }

  lemma IncreasingTail(s: seq<nat>)
    requires Increasing(s) && s != []
    ensures Increasing(s[1..]) && s[0] !in s[1..]
    ensures SetOf(s) == {s[0]} + SetOf(s[1..])
  {
    assert s == [s[0]] + s[1..];
  }

  /** What draining does to the bookkeeping: only the reply it returns stops being live. */
  lemma {:induction false} GetLiveSets(p: Pipe, patience: nat)
    requires Increasing(p.transit)
    ensures
      var (q, got) := GetLive(p, patience);
      && q.batch == p.batch && q.counter == p.counter && Increasing(q.transit)
      && (got.None? ==> Live(q) == Live(p))
      && (got.Some? ==> got.value in Live(p) && Live(q) == Live(p) - {got.value})
      && q.discard <= p.discard
      && (p.discard <= SetOf(p.transit) ==> q.discard <= SetOf(q.transit))
    decreases patience
  {
    if patience > 0 && p.transit != [] {
      IncreasingTail(p.transit);
      var head := p.transit[0];
      if head in p.discard {
        GetLiveSets(p.(transit := p.transit[1..], discard := p.discard - {head}), patience - 1);
      }
    }
  }

  /** What draining reads: a prefix of discarded replies, then the first live one. */
  lemma {:induction false} GetLivePrefix(p: Pipe, patience: nat) returns (k: nat)
    requires Increasing(p.transit)
    ensures
      var (q, got) := GetLive(p, patience);
      && k <= |p.transit| && q.transit == p.transit[k..]
      && (forall i :: 0 <= i < (if got.Some? then k - 1 else k) ==> p.transit[i] in p.discard)
      && (got.Some? ==> k > 0 && got.value == p.transit[k - 1] && got.value !in p.discard)
    decreases patience
  {
    k := 0;
    if patience > 0 && p.transit != [] {
      IncreasingTail(p.transit);
      var head := p.transit[0];
      k := 1;
      if head in p.discard {
        var j := GetLivePrefix(p.(transit := p.transit[1..], discard := p.discard - {head}), patience - 1);
        k := j + 1;
        var n := if GetLive(p, patience).1.Some? then k - 1 else k;
        forall i | 0 <= i < n
          ensures p.transit[i] in p.discard
        {
          if i > 0 { assert p.transit[i] == p.transit[1..][i - 1]; }
        }
      }
    }
  }

  // ---- one event ----

  lemma OrderedSplit(p: Pipe)
    requires Ordered(p)
    ensures
      var older := p.transit[..|p.transit| - |p.batch|];
      && p.transit == older + p.batch
      && (forall x :: x in older ==> x !in p.batch)
      && Live(p) == Orphans(p) + SetOf(p.batch) && Orphans(p) !! SetOf(p.batch)
      && Orphans(p) == SetOf(older) - p.discard
      && p.discard !! SetOf(p.batch)
  {
    var n := |p.transit| - |p.batch|;
    var older := p.transit[..n];
    assert p.transit == older + p.batch;
    forall i, j | 0 <= i < n && 0 <= j < |p.batch|
      ensures older[i] != p.batch[j]
    {
      assert p.transit[i] < p.transit[n + j];
    }
  }

  lemma SendOrdered(p: Pipe)
    requires Ordered(p)
    ensures Increasing(Send(p).transit) && p.counter + 1 !in p.transit
    ensures SetOf(Send(p).transit) == SetOf(p.transit) + {p.counter + 1}
    ensures p.counter + 1 !in p.discard
  {
    SetOfAppend(p.transit, p.counter + 1);
    assert p.discard <= SetOf(p.transit);
    assert forall x :: x in SetOf(p.transit) ==> x <= p.counter;
  }

  lemma StepKeeps(p: Pipe)
    requires Ordered(p)
    ensures Ordered(Apply(p, Step).0) && Orphans(Apply(p, Step).0) == Orphans(p)
  {
    hide SetOf;
    var q := Apply(p, Step).0;
    var older := p.transit[..|p.transit| - |p.batch|];
    OrderedSplit(p);
    SendOrdered(p);
    assert q.transit == older + q.batch;
    assert q.transit[..|q.transit| - |q.batch|] == older;
    OrderedSplit(q);
  }

  /** Where a read stops: inside the older replies, or at the oldest step itself when all older
      replies are discarded. */
  lemma AwaitPrefix(p: Pipe, patience: nat) returns (k: nat)
    requires Ordered(p) && p.batch != []
    ensures
      var n := |p.transit| - |p.batch|;
      var (q, got) := GetLive(p.(batch := p.batch[1..]), patience);
      && k <= n + 1
      && (k <= n ==> q.transit == p.transit[..n][k..] + p.batch)
      && (k <= n && got.Some? ==> k > 0 && got.value == p.transit[k - 1] && got.value !in p.discard)
      && (k == n + 1 ==> q.transit == p.batch[1..] && got == Some(p.batch[0]) && forall i :: 0 <= i < n ==>
        p.transit[i] in p.discard)
  {
    hide GetLive;
    OrderedSplit(p);
    k := GetLivePrefix(p.(batch := p.batch[1..]), patience);
    var n := |p.transit| - |p.batch|;
    assert p.transit[n] == p.batch[0];
    assert p.batch[0] in SetOf(p.batch);
    if k <= n {
      assert p.transit[k..] == p.transit[..n][k..] + p.batch;
    }
  }

  lemma AwaitReads(p: Pipe, patience: nat)
    requires Ordered(p) && p.batch != []
    ensures
      var (q, got) := GetLive(p.(batch := p.batch[1..]), patience);
      && q.batch == p.batch[1..] && q.counter == p.counter && Increasing(q.transit)
      && (forall i :: 0 <= i < |q.transit| ==> q.transit[i] <= q.counter)
      && q.discard <= p.discard && q.discard <= SetOf(q.transit)
      && (got.None? ==> Live(q) == Live(p) && SetOf(p.batch) <= SetOf(q.transit))
      && (got.Some? && got.value != p.batch[0] ==>
            got.value in Orphans(p) && Live(q) == Live(p) - {got.value} && SetOf(p.batch) <= SetOf(q.transit))
      && (got == Some(p.batch[0]) ==>
        Orphans(p) == {} && q.transit == p.batch[1..] && q.discard == {} && Live(q) == SetOf(p.batch[1..]))
  {
    hide GetLive, Increasing;
    var p0 := p.(batch := p.batch[1..]);
    OrderedSplit(p);
    OrderedDiscard(p);
    GetLiveSets(p0, patience);
    var k := AwaitPrefix(p, patience);
    var (q, got) := GetLive(p0, patience);
    var n := |p.transit| - |p.batch|;
    if k <= n {
      var left := p.transit[..n][k..];
      forall i | 0 <= i < |q.transit| ensures q.transit[i] <= q.counter {
        assert q.transit[i] == p.transit[k + i];
      }
      assert SetOf(left + p.batch) == SetOf(left) + SetOf(p.batch);
      assert got.Some? ==> p.transit[k - 1] == p.transit[..n][k - 1];
    } else {
      assert forall i :: 0 <= i < |q.transit| ==> q.transit[i] == p.transit[n + 1 + i];
      assert SetOf(p.batch[1..]) <= SetOf(p.batch);
    }
  }

  lemma OrderedDiscard(p: Pipe)
    requires Ordered(p)
    ensures p.discard <= SetOf(p.transit)
  {
  }

  /** The set algebra of an error: the rest of the batch is discarded, the reply read is gone. */
  lemma DesyncSets(orphans: set<nat>, id: nat, rest: set<nat>, got: nat, transit: set<nat>, discard: set<nat>)
    requires transit - discard == orphans + ({id} + rest) - {got}
    requires orphans !! {id} + rest && id !in rest && got in orphans
    ensures transit - (discard + rest) == orphans - {got} + {id}
  {
    assert transit - (discard + rest) == (transit - discard) - rest;
  }

  /** `_await_and_apply_oldest`: a received reply is the expected one exactly when there is no
      orphan; otherwise the orphan is read and the expected reply becomes one. */
  lemma AwaitEffect(p: Pipe, patience: nat, error: bool)
    requires Ordered(p) && p.batch != []
    ensures
      var (r, outcome) := Apply(p, Await(patience, error));
      && Ordered(r)
      && match outcome
         case TimedOut(id) => id == p.batch[0] && Orphans(r) == Orphans(p)
         case Applied(id) => id == p.batch[0] && Orphans(p) == {} && Orphans(r) == {} && r.batch == p.batch[1..]
         case WorkerError(id) => id == p.batch[0] && Orphans(p) == {} && Orphans(r) == {}
         case Desync(id, got) => id == p.batch[0] && got in Orphans(p) && id !in Orphans(p) &&
           Orphans(r) == Orphans(p) - {got} + {id}
         case _ => false
  {
    hide Increasing, GetLive, SetOf;
    AwaitReads(p, patience);
    OrderedSplit(p);
    HeadAndRest(p);
    var (q, got) := GetLive(p.(batch := p.batch[1..]), patience);
    var (r, outcome) := Apply(p, Await(patience, error));
    EmptySet();
    assert r.batch == [] ==> r.transit[..|r.transit| - 0] == r.transit;
    if outcome.Desync? {
      DesyncSets(Orphans(p), p.batch[0], SetOf(p.batch[1..]), got.value, SetOf(q.transit), q.discard);
    }
    if outcome.Applied? {
      assert r.transit[..|r.transit| - |r.batch|] == [];
    }
  }

  lemma EmptySet()
    ensures SetOf<nat>([]) == {}
  {
  }

  lemma HeadAndRest(p: Pipe)
    requires Ordered(p) && p.batch != []
    ensures SetOf(p.batch) == {p.batch[0]} + SetOf(p.batch[1..]) && p.batch[0] !in SetOf(p.batch[1..])
  {
    var n := |p.transit| - |p.batch|;
    assert p.transit[n..] == p.batch;
    forall i | 0 <= i < |p.batch| - 1 ensures p.batch[1..][i] != p.batch[0] {
      assert p.transit[n] < p.transit[n + 1 + i];
    }
    assert p.batch == [p.batch[0]] + p.batch[1..];
  }

  /** `_flush_pending_frees`: a timed-out cleanup leaves its own reply as an orphan. */
  lemma CleanupEffect(p: Pipe, patience: nat)
    requires Ordered(p) && p.batch == []
    ensures
      var (r, outcome) := Apply(p, Cleanup(patience));
      && Ordered(r)
      && p.counter + 1 !in Orphans(p)
      && match outcome
         case CleanupTimedOut(id) => id == p.counter + 1 && Orphans(r) == Orphans(p) + {id}
         case Cleaned(got) =>
           if Orphans(p) == {} then got == p.counter + 1 && Orphans(r) == {}
           else got in Orphans(p) && Orphans(r) == Orphans(p) - {got} + {p.counter + 1}
         case _ => false
  {
    hide Increasing, GetLive, SetOf, Ordered, Orphans, Live;
    var s := Apply(p, Step).0;
    StepKeeps(p);
    AwaitReads(s, patience);
    OrderedSplit(s);
    EmptySet();
    HeadAndRest(s);
    assert s.batch == [p.counter + 1] && s.batch[1..] == [];
    assert s.(batch := s.batch[1..]) == Send(p);
    var (r, outcome) := Apply(p, Cleanup(patience));
    assert r == GetLive(Send(p), patience).0 && r.batch == [];
    CleanupOrdered(r);
    assert Live(s) == Orphans(p) + {p.counter + 1};
  }

  lemma CleanupOrdered(r: Pipe)
    requires r.batch == [] && Increasing(r.transit) && r.discard <= SetOf(r.transit)
    requires forall i :: 0 <= i < |r.transit| ==> r.transit[i] <= r.counter
    ensures Ordered(r) && Orphans(r) == Live(r)
  {
    assert r.transit[..|r.transit| - 0] == r.transit;
  }

  // ---- whole runs ----

  function Start(): Pipe {
    Pipe([], {}, 0, [])
  }

  /** The run over the given events, at a pipeline depth; `None` when one is impossible. */
  function Run(depth: nat, events: seq<Event>): Option<Pipe> {
    if events == [] then Some(Start())
    else
      var p := Run(depth, events[..|events| - 1]);
      if p.None? || !Enabled(p.value, depth, events[|events| - 1]) then None
      else Some(Apply(p.value, events[|events| - 1]).0)
  }

  /** What the last event of the run came to. */
  function LastOutcome(depth: nat, events: seq<Event>): Outcome
    requires events != [] && Run(depth, events).Some?
  {
    Apply(Run(depth, events[..|events| - 1]).value, events[|events| - 1]).1
  }

  /** How many cleanups of the run timed out. */
  function CleanupTimeouts(depth: nat, events: seq<Event>): nat
    requires Run(depth, events).Some?
  {
    if events == [] then 0
    else CleanupTimeouts(depth, events[..|events| - 1]) + if LastOutcome(depth, events).CleanupTimedOut? then 1 else 0
  }

  /** One event keeps the order, and only a timed-out cleanup changes the number of orphans. */
  lemma ApplyKeeps(p: Pipe, depth: nat, e: Event)
    requires Ordered(p) && Enabled(p, depth, e) && |p.batch| <= depth
    ensures Ordered(Apply(p, e).0) && |Apply(p, e).0.batch| <= depth
    ensures |Orphans(Apply(p, e).0)| == |Orphans(p)| + if Apply(p, e).1.CleanupTimedOut? then 1 else 0
  {
    hide Ordered, Orphans, GetLive;
    match e
    case Step => StepKeeps(p);
    case Await(patience, error) => AwaitEffect(p, patience, error); AwaitBatch(p, patience, error);
    case Cleanup(patience) => CleanupEffect(p, patience); CleanupBatch(p, patience);
  }

  lemma {:induction false} DrainBatch(p: Pipe, patience: nat)
    ensures GetLive(p, patience).0.batch == p.batch
    decreases patience
  {
    if patience > 0 && p.transit != [] && p.transit[0] in p.discard {
      DrainBatch(p.(transit := p.transit[1..], discard := p.discard - {p.transit[0]}), patience - 1);
    }
  }

  lemma AwaitBatch(p: Pipe, patience: nat, error: bool)
    requires p.batch != []
    ensures |Apply(p, Await(patience, error)).0.batch| <= |p.batch|
  {
    DrainBatch(p.(batch := p.batch[1..]), patience);
  }

  lemma CleanupBatch(p: Pipe, patience: nat)
    ensures Apply(p, Cleanup(patience)).0.batch == p.batch
  {
    DrainBatch(Send(p), patience);
  }

  /** On every run: replies come in order, and there are exactly as many orphans as cleanups
      have timed out. */
  lemma {:induction false} RunKeeps(depth: nat, events: seq<Event>)
    requires Run(depth, events).Some?
    ensures Ordered(Run(depth, events).value) && |Run(depth, events).value.batch| <= depth
    ensures |Orphans(Run(depth, events).value)| == CleanupTimeouts(depth, events)
  {
    hide Ordered, Orphans, Apply, Enabled;
    if events == [] {
      StartOrdered();
    } else {
      RunKeeps(depth, events[..|events| - 1]);
      ApplyKeeps(Run(depth, events[..|events| - 1]).value, depth, events[|events| - 1]);
    }
  }

  lemma StartOrdered()
    ensures Ordered(Start()) && Orphans(Start()) == {}
  {
  }

  /** Reply alignment: on every run without a cleanup timeout, the replies in transit are those
      of the discarded steps, in order, followed by those of the steps in flight. */
  lemma RepliesAligned(depth: nat, events: seq<Event>)
    requires Run(depth, events).Some? && CleanupTimeouts(depth, events) == 0
    ensures
      var p := Run(depth, events).value;
      && |p.batch| <= |p.transit|
      && SetOf(p.transit[..|p.transit| - |p.batch|]) == p.discard
      && p.transit[|p.transit| - |p.batch|..] == p.batch
      && Increasing(p.transit)
  {
    hide SetOf, Increasing;
    RunKeeps(depth, events);
    OrderedSplit(Run(depth, events).value);
  }

  /** What `_await_and_apply_oldest` receives, on every run: if no cleanup has timed out, the
      oldest step's own reply; if one has, an orphan, on this and on every later step. */
  lemma DesyncExactly(depth: nat, events: seq<Event>)
    requires Run(depth, events).Some? && events != [] && events[|events| - 1].Await?
    ensures
      var oldest := Run(depth, events[..|events| - 1]).value.batch[0];
      var timeouts := CleanupTimeouts(depth, events[..|events| - 1]);
      match LastOutcome(depth, events)
      case TimedOut(id) => id == oldest
      case Applied(id) => id == oldest && timeouts == 0
      case WorkerError(id) => id == oldest && timeouts == 0
      case Desync(id, got) => id == oldest && timeouts > 0
      case _ => false
  {
    hide Ordered, Apply;
    var e := events[|events| - 1];
    RunKeeps(depth, events[..|events| - 1]);
    AwaitEffect(Run(depth, events[..|events| - 1]).value, e.patience, e.error);
  }

  /** The desync branch is reachable: one cleanup that times out is enough. */
  lemma OneTimeoutDesyncs(depth: nat)
    requires depth > 0
    ensures Run(depth, [Cleanup(0), Step, Await(1, false)]).Some?
    ensures LastOutcome(depth, [Cleanup(0), Step, Await(1, false)]) == Desync(2, 1)
  {
    hide Apply, HandleError;
    var none: seq<Event> := [];
    assert [Cleanup(0)][..0] == none && [Cleanup(0), Step][..1] == [Cleanup(0)];
    assert [Cleanup(0), Step, Await(1, false)][..2] == [Cleanup(0), Step];
    var orphaned, sent := Pipe([], {}, 1, [1]), Pipe([2], {}, 2, [1, 2]);
    OrphanSteps();
    assert Run(depth, none) == Some(Start());
    assert Run(depth, [Cleanup(0)]) == Some(orphaned);
    assert Run(depth, [Cleanup(0), Step]) == Some(sent);
  }

  lemma OrphanSteps()
    ensures Apply(Start(), Cleanup(0)) == (Pipe([], {}, 1, [1]), CleanupTimedOut(1))
    ensures Apply(Pipe([], {}, 1, [1]), Step) == (Pipe([2], {}, 2, [1, 2]), Sent)
    ensures Apply(Pipe([2], {}, 2, [1, 2]), Await(1, false)).1 == Desync(2, 1)
  {
    assert Start().transit + [1] == [1] && Start().batch + [2] == [2] && [1] + [2] == [1, 2];
  }
}
