/** What every run of `CacheSystem` keeps, whatever is published: references are conserved, the
    blocks of a step in flight are fenced off, and no call of the host raises. None of this
    depends on a confirmation naming the right blocks. */
module CacheConservation {
  import opened CacheTypes
  import opened GroupPool
  import opened RefConservation
  import opened CacheDevice
  import opened CacheSystem
  import opened Publication
  import D = CacheSystemDispatch
  import E = CacheSystemGrow
  import S = CacheSystemSteps
  import P = CacheSystemPublish
  import PO = PoolOperations
  import G = GrowthEffect
  import X = PrefixSelection

  /** The step covers the tokens its confirmation stands for, and a full-history group gave it
      one block a page. */
  ghost predicate StepFits(spec: GroupSpec, st: Step) {
    spec.SafeTokens(st.tokens) <= st.to && (spec.window.None? ==> |st.table| == st.pages)
  }

  ghost predicate Conserved(s: Sys) {
    && Shape(s)
    && Inv(s.pool, Pins(s.log, s.settled))
    && (forall k :: 0 <= k < |s.log| ==> StepFits(s.pool.spec, s.log[k]))
    && (forall r :: r in s.reqs ==> s.reqs[r].rows <= PageStart(s.C(), s.pool.LogicalOf(r)))
  }

  lemma ConservedInv(s: Sys)
    requires Conserved(s)
    ensures Shape(s) && Inv(s.pool, Pins(s.log, s.settled))
  {
    hide Shape, Inv, StepFits;
  }

  /** `t` is `s` with the same steps and settings, and no request promised more rows. */
  ghost predicate Follows(s: Sys, t: Sys) {
    && t.log == s.log && t.pool.spec == s.pool.spec && t.executed == s.executed && t.bad == s.bad
    && |t.page| == |s.page| && |t.content| == |s.content| && |t.pool.hashes| == |s.pool.hashes| &&
      |t.pool.refs| == |s.pool.refs|
    && s.settled <= t.settled <= |s.log|
    && (forall r :: r in t.reqs ==> t.reqs[r].rows <= PageStart(t.C(), t.pool.LogicalOf(r)))
  }

  lemma FollowsKeeps(s: Sys, t: Sys)
    requires Conserved(s) && Follows(s, t) && Inv(t.pool, Pins(t.log, t.settled))
    ensures Conserved(t)
  {
    hide Inv, StepFits, StepOk;
  }

  // ---- every event ----

  lemma AdmitConserves(s: Sys, r: ReqId, hs: seq<Hash>, pages: nat)
    requires Conserved(s) && DoAdmit(s, r, hs, pages).Some?
    ensures Conserved(DoAdmit(s, r, hs, pages).value)
  {
    hide Inv, Selected, HitAt, Attach, StepFits, StepOk;
    if pages > 0 {
      var pins := Pins(s.log, s.settled);
      E.InvIndexOk(s.pool, pins);
      X.SelectedInjective(s.pool, hs, pages);
      HitFits(s.pool, hs, pages);
      PO.AttachInv(s.pool, pins, r, Selected(s.pool, hs, pages), pages);
    }
    FollowsKeeps(s, DoAdmit(s, r, hs, pages).value);
  }

  lemma ExtendConserves(s: Sys, r: ReqId, target: nat)
    requires Conserved(s) && DoExtend(s, r, target).Some?
    ensures Conserved(DoExtend(s, r, target).value)
  {
    hide Inv, Grow, Replaced, StepFits, StepOk;
    var t := DoExtend(s, r, target).value;
    G.GrowEffect(s.pool, Pins(s.log, s.settled), r, target);
    PageStartMono(s.C(), s.pool.LogicalOf(r), t.pool.LogicalOf(r));
    FollowsKeeps(s, t);
  }

  lemma TableSize(s: Sys, r: ReqId)
    requires Conserved(s) && r in s.pool.tables
    ensures r in s.pool.logical && |s.pool.tables[r]| <= s.pool.logical[r]
    ensures Injective(s.pool.tables[r]) && InRange(s.pool.tables[r], |s.pool.refs|)
    ensures s.pool.spec.window.None? ==> |s.pool.tables[r]| == s.pool.logical[r] && NoHoles(s.pool.tables[r])
  {
    hide QueueOk, RefsOk, IndexOk, StepFits;
  }

  /** A block in a live table is referenced, so the table can be pinned. */
  lemma LiveTablePins(s: Sys, r: ReqId)
    requires Conserved(s) && r in s.pool.tables && NoHoles(s.pool.tables[r])
    ensures CanRetain(s.pool, Values(s.pool.tables[r]))
  {
    hide IndexOk, SizesOk, QueueOk, StepFits;
    var t := s.pool.tables[r];
    D.DispatchTable(s, r);
    forall i | 0 <= i < |t|
      ensures t[i].value < |s.pool.refs| && s.pool.refs[t[i].value] > 0
    {
      var b := t[i].value;
      assert t[i] == Some(b);
      assert r in Owners(s.pool.tables, b);
    }
  }

  lemma DispatchConserves(s: Sys, r: ReqId, tokens: nat, extra: nat)
    requires Conserved(s) && DoDispatch(s, r, tokens, extra).Some?
    ensures Conserved(DoDispatch(s, r, tokens, extra).value)
  {
    hide Inv, PinAll;
    var t := DoDispatch(s, r, tokens, extra).value;
    var ids := Values(s.pool.tables[r]);
    TableSize(s, r);
    D.DispatchTable(s, r);
    PO.PinAllInv(s.pool, Pins(s.log, s.settled), ids);
    D.PinAllSize(s.pool, ids);
    D.PinsAppend(s.log, t.log[|s.log|], s.settled);
  }

  lemma ExecuteConserves(s: Sys, result: seq<Content>, ok: bool)
    requires Conserved(s) && DoExecute(s, result, ok).Some?
    ensures Conserved(DoExecute(s, result, ok).value)
  {
    hide Inv, Exec, StepOk, Writes, StepFits;
  }

  /** The oldest step's pins can be given back, by whatever call. */
  lemma SettlePins(s: Sys, q: Pool)
    requires Conserved(s) && s.settled < |s.log| && Inv(q, Pins(s.log, s.settled))
    ensures UnpinAll(q, s.log[s.settled].table).Some?
    ensures
      var u := UnpinAll(q, s.log[s.settled].table).value;
      Inv(u, Pins(s.log, s.settled + 1)) && u == q.(refs := u.refs, free := u.free) && |u.refs| == |q.refs|
  {
    hide Conserved, Inv, UnpinAll;
    S.PinsSplit(s.log, s.settled);
    PO.UnpinAllInv(q, Pins(s.log, s.settled), s.log[s.settled].table);
    S.UnpinAllSize(q, s.log[s.settled].table);
  }

  /** Publication from the oldest step's snapshot never raises - safe or not. */
  lemma ConfirmPublication(s: Sys)
    requires Conserved(s) && s.settled < |s.log| && Alive(s, s.log[s.settled])
    ensures s.C() > 0
    ensures
      var st := s.log[s.settled];
      var q := Publish(s.pool, Ids(st.table), s.reqs[st.r].hs, ConfirmStart(s), ConfirmEnd(s));
      && q.Some? && Inv(q.value, Pins(s.log, s.settled))
      && q.value == s.pool.(hashes := q.value.hashes, index := q.value.index) && |q.value.hashes| == |s.pool.hashes|
  {
    hide Inv, Publish, SnapshotStart;
    var st := s.log[s.settled];
    var hs := s.reqs[st.r].hs;
    assert StepOk(st, s.C(), |s.content|) && StepFits(s.pool.spec, st);
    P.CompletedExact(s.pool.spec, hs, st.tokens, ConfirmEnd(s));
    PageStartStrict(s.C(), st.pages, ConfirmEnd(s));
    PublishSucceeds(s.pool, Ids(st.table), hs, ConfirmStart(s), ConfirmEnd(s));
    PublishKeepsPool(s.pool, Pins(s.log, s.settled), Ids(st.table), hs, ConfirmStart(s), ConfirmEnd(s));
  }

  lemma ConfirmConserves(s: Sys)
    requires Conserved(s) && DoConfirm(s).Some?
    ensures Conserved(DoConfirm(s).value)
  {
    hide Inv, Publish, UnpinAll, StepFits, StepOk, ConfirmStart, ConfirmEnd;
    ConfirmPublication(s);
    var st := s.log[s.settled];
    SettlePins(s, Publish(s.pool, Ids(st.table), s.reqs[st.r].hs, ConfirmStart(s), ConfirmEnd(s)).value);
    FollowsKeeps(s, DoConfirm(s).value);
  }

  lemma DiscardConserves(s: Sys)
    requires Conserved(s) && DoDiscard(s).Some?
    ensures Conserved(DoDiscard(s).value)
  {
    hide Inv, UnpinAll, StepFits, StepOk;
    SettlePins(s, s.pool);
    FollowsKeeps(s, DoDiscard(s).value);
  }

  lemma PublishLiveConserves(s: Sys, r: ReqId, tokens: nat)
    requires Conserved(s) && DoPublishLive(s, r, tokens).Some?
    ensures Conserved(DoPublishLive(s, r, tokens).value)
  {
    hide Inv, Publish, LiveStart, Completed, StepFits, StepOk, Poisoned;
    var v := s.reqs[r];
    var completed := Completed(s.pool.spec, v.hs, tokens);
    PublishKeepsPool(s.pool, Pins(s.log, s.settled), s.pool.tables[r], v.hs,
      LiveStart(s.pool, r, v.cached, completed), completed);
    FollowsKeeps(s, DoPublishLive(s, r, tokens).value);
  }

  lemma RetireConserves(s: Sys, r: ReqId)
    requires Conserved(s) && DoRetire(s, r).Some?
    ensures Conserved(DoRetire(s, r).value)
  {
    hide Inv, Release, StepFits, StepOk;
    PO.ReleaseInv(s.pool, Pins(s.log, s.settled), r);
    FollowsKeeps(s, DoRetire(s, r).value);
  }

  /** Every event conserves, confirmations that name wrong blocks included. */
  lemma ApplyConserves(s: Sys, e: Event)
    requires Conserved(s) && Apply(s, e).Some?
    ensures Conserved(Apply(s, e).value)
  {
    hide Conserved, DoAdmit, DoExtend, DoDispatch, DoExecute, DoConfirm, DoDiscard, DoPublishLive, DoRetire;
    match e
    case Admit(r, hs, pages) => AdmitConserves(s, r, hs, pages);
    case Extend(r, target) => ExtendConserves(s, r, target);
    case Dispatch(r, tokens, extra) => DispatchConserves(s, r, tokens, extra);
    case Execute(result, ok) => ExecuteConserves(s, result, ok);
    case Confirm => ConfirmConserves(s);
    case Discard => DiscardConserves(s);
    case PublishLive(r, tokens) => PublishLiveConserves(s, r, tokens);
    case Rollback(r, rows) => RollbackConserves(s, r, rows);
    case Retire(r) => RetireConserves(s, r);
  }

  lemma RollbackConserves(s: Sys, r: ReqId, rows: nat)
    requires Conserved(s) && DoRollback(s, r, rows).Some?
    ensures Conserved(DoRollback(s, r, rows).value)
  {
    hide Inv, StepFits, StepOk;
    FollowsKeeps(s, DoRollback(s, r, rows).value);
  }

  lemma {:induction false} RunConserves(s: Sys, events: seq<Event>)
    requires Conserved(s) && Run(s, events).Some?
    ensures Conserved(Run(s, events).value)
    decreases |events|
  {
    hide Conserved, Apply;
    if events != [] {
      ApplyConserves(s, events[0]);
      RunConserves(Apply(s, events[0]).value, events[1..]);
    }
  }

  lemma InitialConserved(s: Sys)
    requires Initial(s)
    ensures Conserved(s)
  {
    hide Inv;
    InitialInv(s.pool.spec, |s.page|);
  }

  // ---- references ----

  /** References are conserved on every run: each block's count is the number of request tables
      that hold it plus the pins of steps in flight, the free queue is exactly the
      unreferenced blocks, and no table repeats a block. */
  lemma ReferencesConserved(s: Sys, events: seq<Event>)
    requires Initial(s) && Run(s, events).Some?
    ensures
      var t := Run(s, events).value;
      && (forall b: nat :: b < |t.pool.refs| ==>
            t.pool.refs[b] == |Owners(t.pool.tables, b)| + Pins(t.log, t.settled)[b])
      && NoDuplicates(t.pool.free)
      && (forall b: nat :: b in t.pool.free <==> b < |t.pool.refs| && t.pool.refs[b] == 0)
      && (forall r :: r in t.pool.tables ==> Injective(t.pool.tables[r]))
      && (forall b: nat, h :: b < |t.pool.hashes| ==>
            (t.pool.hashes[b] == Some(h) <==> h in t.pool.index && t.pool.index[h] == b))
  {
    hide Conserved, Run, Owners, Pins, Shape;
    InitialConserved(s);
    RunConserves(s, events);
    ConservedInv(Run(s, events).value);
  }

  /** Every pin is given back: once nothing is in flight, references are table slots. */
  lemma DrainedPinsNothing(s: Sys, events: seq<Event>)
    requires Initial(s) && Run(s, events).Some?
    requires Run(s, events).value.settled == |Run(s, events).value.log|
    ensures
      var t := Run(s, events).value;
      forall b: nat :: b < |t.pool.refs| ==> t.pool.refs[b] == |Owners(t.pool.tables, b)|
  {
    hide Conserved, Run, Owners;
    ReferencesConserved(s, events);
  }

  // ---- the fence around steps in flight ----

  lemma InFlightBlock(s: Sys, k: nat, b: nat)
    requires Conserved(s) && s.settled <= k < |s.log| && b in s.log[k].table
    ensures b < |s.page| && b < |s.pool.refs| && s.pool.refs[b] > 0 && b !in s.pool.free
  {
    hide TablesOk, IndexOk, SizesOk, StepFits;
    E.PinsMember(s.log, s.settled, k, b);
    assert StepOk(s.log[k], s.C(), |s.content|);
  }

  /** Growth hands no pinned block out. */
  lemma FenceExtend(s: Sys, r: ReqId, target: nat, k: nat, b: nat)
    requires Conserved(s) && DoExtend(s, r, target).Some?
    requires s.settled <= k < |s.log| && b in s.log[k].table && b < |s.page|
    ensures |DoExtend(s, r, target).value.page| == |s.page|
    ensures DoExtend(s, r, target).value.page[b] == s.page[b]
  {
    hide Inv, Grow, Replaced, LogOk, StepFits;
    var t := DoExtend(s, r, target).value;
    var pins := Pins(s.log, s.settled);
    G.GrowEffect(s.pool, pins, r, target);
    E.InvTable(t.pool, pins, r);
    E.ReplacedAt(s.page, s.pool, t.pool, r, b);
    forall i: nat | i < |t.pool.tables[r]| && t.pool.tables[r][i] == Some(b)
      ensures SlotKept(s.pool, t.pool, r, i)
    {
      assert G.Kept(Opened(s.pool, r), t.pool, r, i) || G.Fresh(Opened(s.pool, r), t.pool, pins, r, i);
      E.PinsMember(s.log, s.settled, k, b);
    }
  }

  lemma TakeFromQueue(p: Pool)
    ensures Take(p).Some? ==> Take(p).value.1 in p.free
  {
  }

  /** Whatever happens next, no block of a step that is in flight before and after is handed out
      for another page - not even to its own request - or becomes available to anyone. */
  lemma InFlightFence(s: Sys, e: Event, k: nat, b: nat)
    requires Conserved(s) && Apply(s, e).Some?
    requires s.settled <= k < |s.log| && b in s.log[k].table
    ensures
      var t := Apply(s, e).value;
      && k < |t.log| && t.log[k] == s.log[k]
      && b < |s.page| && b < |t.page| && t.page[b] == s.page[b]
      && (t.settled <= k ==>
        b !in t.pool.free && (forall c :: Take(t.pool).Some? && Take(t.pool).value == c ==> c.1 != b))
  {
    hide Conserved, Take, Grow, Replaced, PinAll, Publish, UnpinAll, Exec, Writes, StepOk, ConfirmStart, ConfirmEnd;
    ApplyConserves(s, e);
    var t := Apply(s, e).value;
    InFlightBlock(s, k, b);
    assert k < |t.log| && t.log[k] == s.log[k];
    if e.Extend? { FenceExtend(s, e.r, e.target, k, b); }
    if t.settled <= k {
      InFlightBlock(t, k, b);
      TakeFromQueue(t.pool);
    }
  }

  /** The fence over whole runs: as long as a step is in flight, none of its blocks is handed
      out for another page or becomes free, whatever the host does meanwhile. */
  lemma {:induction false} FenceFrom(s: Sys, events: seq<Event>, k: nat, b: nat)
    requires Conserved(s) && Run(s, events).Some?
    requires s.settled <= k < |s.log| && b in s.log[k].table
    requires Run(s, events).value.settled <= k
    ensures
      var t := Run(s, events).value;
      && k < |t.log| && t.log[k] == s.log[k]
      && b < |s.page| && b < |t.page| && t.page[b] == s.page[b] && b !in t.pool.free
    decreases |events|
  {
    hide Conserved, Apply, Take;
    if events == [] {
      InFlightBlock(s, k, b);
    } else {
      var t := Apply(s, events[0]).value;
      ApplyConserves(s, events[0]);
      SettledOnlyGrows(t, events[1..]);
      InFlightFence(s, events[0], k, b);
      FenceFrom(t, events[1..], k, b);
    }
  }

  lemma {:induction false} SettledOnlyGrows(s: Sys, events: seq<Event>)
    requires Run(s, events).Some?
    ensures s.settled <= Run(s, events).value.settled
    decreases |events|
  {
    hide Apply;
    if events != [] {
      SettledStep(s, events[0]);
      SettledOnlyGrows(Apply(s, events[0]).value, events[1..]);
    }
  }

  lemma SettledStep(s: Sys, e: Event)
    requires Apply(s, e).Some?
    ensures s.settled <= Apply(s, e).value.settled
  {
    hide Grow, Replaced, PinAll, Publish, UnpinAll, Exec, Writes, StepOk, Attach, Release, ConfirmStart, ConfirmEnd;
  }

  /** From a fresh pool, after any events `first`, through any events `then`. */
  lemma InFlightFenceOverRuns(s: Sys, first: seq<Event>, more: seq<Event>, k: nat, b: nat)
    requires Initial(s) && Run(s, first).Some? && Run(Run(s, first).value, more).Some?
    requires
      var u := Run(s, first).value;
      u.settled <= k < |u.log| && b in u.log[k].table && Run(u, more).value.settled <= k
    ensures
      var u := Run(s, first).value;
      var t := Run(u, more).value;
      && k < |t.log| && t.log[k] == u.log[k]
      && b < |u.page| && b < |t.page| && t.page[b] == u.page[b] && b !in t.pool.free
  {
    hide Conserved, Run;
    InitialConserved(s);
    RunConserves(s, first);
    FenceFrom(Run(s, first).value, more, k, b);
  }

  // ---- the host's calls do not raise ----

  /** Request `r` has a complete table and holds the rows of `tokens` tokens. */
  ghost predicate HoldsRows(s: Sys, r: ReqId, tokens: nat) {
    && r in s.reqs && r in s.pool.tables && 0 < |s.pool.tables[r]| && NoHoles(s.pool.tables[r])
    && s.pool.spec.SafeTokens(tokens) <= s.reqs[r].rows
  }

  lemma LivePublication(s: Sys, r: ReqId, tokens: nat, start: nat)
    requires Conserved(s) && HoldsRows(s, r, tokens)
    ensures s.C() > 0
    ensures Publish(s.pool, s.pool.tables[r], s.reqs[r].hs, start, Completed(s.pool.spec, s.reqs[r].hs, tokens)).Some?
  {
    hide Inv, Publish, StepFits, LogOk;
    var hs := s.reqs[r].hs;
    var completed := Completed(s.pool.spec, hs, tokens);
    TableSize(s, r);
    P.CompletedExact(s.pool.spec, hs, tokens, completed);
    PageStartStrict(s.C(), s.pool.logical[r], completed);
    PublishSucceeds(s.pool, s.pool.tables[r], hs, start, completed);
  }

  /** On every run, whatever was published before: a complete live table can be pinned, pages
      can be published from it up to the rows it holds, and the oldest step in flight can be
      published from and settled. None of the `RuntimeError`s on these paths can be raised. */
  lemma NothingRaises(s: Sys, events: seq<Event>)
    requires Initial(s) && Run(s, events).Some?
    ensures
      var t := Run(s, events).value;
      && t.C() > 0
      && (forall r :: r in t.pool.tables && NoHoles(t.pool.tables[r]) ==> CanRetain(t.pool, Values(t.pool.tables[r])))
      && (forall r, tokens: nat, start: nat :: HoldsRows(t, r, tokens) ==>
            Publish(t.pool, t.pool.tables[r], t.reqs[r].hs, start, Completed(t.pool.spec, t.reqs[r].hs, tokens)).Some?)
      && (t.settled < |t.log| ==>
            var st := t.log[t.settled];
            && UnpinAll(t.pool, st.table).Some?
            && (Alive(t, st) ==>
                  var q := Publish(t.pool, Ids(st.table), t.reqs[st.r].hs, ConfirmStart(t), ConfirmEnd(t));
                  q.Some? && UnpinAll(q.value, st.table).Some?))
  {
    hide Conserved, Run, Inv, Publish, UnpinAll, CanRetain, ConfirmStart, ConfirmEnd, Completed, LogOk;
    InitialConserved(s);
    RunConserves(s, events);
    var t := Run(s, events).value;
    ConservedInv(t);
    forall r | r in t.pool.tables && NoHoles(t.pool.tables[r])
      ensures CanRetain(t.pool, Values(t.pool.tables[r]))
    {
      LiveTablePins(t, r);
    }
    forall r, tokens: nat, start: nat | HoldsRows(t, r, tokens)
      ensures Publish(t.pool, t.pool.tables[r], t.reqs[r].hs, start, Completed(t.pool.spec, t.reqs[r].hs, tokens)).Some?
    {
      LivePublication(t, r, tokens, start);
    }
    if t.settled < |t.log| {
      SettlePins(t, t.pool);
      if Alive(t, t.log[t.settled]) {
        ConfirmPublication(t);
        var st := t.log[t.settled];
        SettlePins(t, Publish(t.pool, Ids(st.table), t.reqs[st.r].hs, ConfirmStart(t), ConfirmEnd(t)).value);
      }
    }
  }

  // ---- synchronous steps ----

  lemma {:induction false} PinsCancel(p: Pool, ids: seq<nat>)
    requires forall i :: 0 <= i < |ids| ==> ids[i] < |p.refs| && p.refs[ids[i]] > 0
    ensures UnpinAll(PinAll(p, ids), ids) == Some(p)
    decreases |ids|
  {
    if ids != [] {
      PinCommutes(p, ids[0], ids[1..]);
      var q := PinAll(p, ids[1..]);
      D.PinAllSize(p, ids[1..]);
      RefsGrow(p, ids[1..], ids[0]);
      assert Unpin(Pin(q, ids[0]), ids[0]) == q by {
        assert q.refs[ids[0] := q.refs[ids[0]] + 1][ids[0] := q.refs[ids[0]]] == q.refs;
      }
      PinsCancel(p, ids[1..]);
    }
  }

  lemma {:induction false} PinCommutes(p: Pool, b: nat, ids: seq<nat>)
    requires b < |p.refs| && forall i :: 0 <= i < |ids| ==> ids[i] < |p.refs|
    ensures |PinAll(p, ids).refs| == |p.refs|
    ensures PinAll(Pin(p, b), ids) == Pin(PinAll(p, ids), b)
    decreases |ids|
  {
    D.PinAllSize(p, ids);
    if ids != [] {
      var c := ids[0];
      assert Pin(Pin(p, b), c) == Pin(Pin(p, c), b) by {
        assert Pin(Pin(p, b), c).refs == Pin(Pin(p, c), b).refs;
      }
      PinCommutes(Pin(p, c), b, ids[1..]);
    }
  }

  lemma {:induction false} RefsGrow(p: Pool, ids: seq<nat>, b: nat)
    requires b < |p.refs| && forall i :: 0 <= i < |ids| ==> ids[i] < |p.refs|
    ensures |PinAll(p, ids).refs| == |p.refs| && PinAll(p, ids).refs[b] >= p.refs[b]
    decreases |ids|
  {
    D.PinAllSize(p, ids);
    if ids != [] { RefsGrow(Pin(p, ids[0]), ids[1..], b); }
  }

  /** A synchronous step takes no pins. With nothing else in flight it makes no difference: a
      step that is dispatched, executed and settled in a row leaves the pool as it found it, so
      these three events are the synchronous step, and `PublishLive` follows. */
  lemma SynchronousStep(s: Sys, r: ReqId, tokens: nat, extra: nat, result: seq<Content>)
    requires Conserved(s) && s.settled == s.executed == |s.log|
    requires DoDispatch(s, r, tokens, extra).Some?
    requires DoExecute(DoDispatch(s, r, tokens, extra).value, result, true).Some?
    ensures
      var u := DoExecute(DoDispatch(s, r, tokens, extra).value, result, true).value;
      && DoDiscard(u).Some?
      && DoDiscard(u).value == u.(pool := s.pool, settled := |u.log|)
      && u.content == Exec(s.content, u.log[|s.log|], s.C())
  {
    hide Inv, PinAll, UnpinAll, Exec, Writes, StepFits;
    LiveTablePins(s, r);
    PO.PinAllInv(s.pool, Pins(s.log, s.settled), Values(s.pool.tables[r]));
    PinsCancel(s.pool, Values(s.pool.tables[r]));
  }
}
