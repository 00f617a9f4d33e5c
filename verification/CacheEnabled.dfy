/** Nothing stops an event of a run but its own condition: the calls that the host makes for it
    find the blocks, references and pages that they expect. */
module CacheEnabled {
  import opened CacheTypes
  import opened GroupPool
  import opened RefConservation
  import opened CacheDevice
  import opened CacheSystem
  import opened CacheConservation
  import G = GrowthExactness
  import X = PrefixSelection
  import E = CacheSystemGrow
  import F = GrowthEffect

  /** The request has a table without empty slots. */
  ghost predicate Complete(s: Sys, r: ReqId) {
    r in s.reqs && r in s.pool.tables && s.pool.tables[r] != [] && NoHoles(s.pool.tables[r])
  }

  /** The rows of the step fit the pages the request has, and none before them is left out. */
  ghost predicate RowsFollow(s: Sys, r: ReqId, tokens: nat, extra: nat)
    requires r in s.reqs
  {
    var rows, prompt := s.reqs[r].rows, PageStart(s.C(), |s.reqs[r].hs|);
    var confirmed := FinalRows(s.pool.spec.eagle, tokens);
    && Max(rows, FinalRows(s.pool.spec.eagle, tokens + extra)) <= PageStart(s.C(), s.pool.LogicalOf(r))
    && (rows <= confirmed || prompt <= Min(rows, confirmed))
  }

  /** The condition of each event. */
  ghost predicate Possible(s: Sys, e: Event)
    requires Shape(s) && s.pool.spec.Valid()
  {
    match e
    case Admit(r, hs, pages) =>
      && r !in s.reqs && r !in s.pool.tables
      && (forall i :: 0 <= i < |hs| ==> Depth(hs[i]) == i + 1)
      && pages <= |hs| && (s.pool.spec.window.None? ==> pages <= s.pool.spec.maxBlocks)
      && (forall i :: 0 <= i < pages && (s.pool.spec.window.Some? ==> i + s.pool.spec.window.value >= pages) ==>
            hs[i] in s.pool.index)
    case Extend(r, target) =>
      && r in s.reqs && (s.pool.spec.window.None? ==> target <= s.pool.spec.maxBlocks)
      && Additional(s.pool, r, target) <= |s.pool.free|
    case Dispatch(r, tokens, extra) => Complete(s, r) && RowsFollow(s, r, tokens, extra)
    case Execute(result, ok) =>
      && s.executed < |s.log| && |result| == |s.content|
      && (ok && s.executed >= s.settled ==> result == Exec(s.content, s.log[s.executed], s.C()))
      && (forall b :: 0 <= b < |result| && !Writes(s.log[s.executed], s.C(), b) ==> result[b] == s.content[b])
    case Confirm =>
      && s.settled < s.executed && s.settled !in s.bad
      && Alive(s, s.log[s.settled]) && s.log[s.settled].epoch !in s.lost
    case Discard => s.settled < |s.log|
    case PublishLive(r, tokens) =>
      && r in s.reqs && s.executed == |s.log| && !Poisoned(s, r, s.reqs[r].epoch, |s.log|)
      && PageStart(s.C(), s.reqs[r].lo) <= FinalRows(s.pool.spec.eagle, tokens) <= s.reqs[r].rows
    case Rollback(r, rows) => r in s.reqs && PageStart(s.C(), |s.reqs[r].hs|) <= rows <= s.reqs[r].rows
    case Retire(r) => r in s.reqs
  }

  /** On every run: a request is admitted with a hit exactly when the cache holds what it needs, it
      grows exactly when the missing blocks are free, a step of it is sent exactly when its table
      is complete and covers the step's rows, the oldest step can be confirmed exactly when its
      result is good and its request still the same, and it can always be dropped. */
  lemma PossibleExactly(s: Sys, events: seq<Event>, e: Event)
    requires Initial(s) && Run(s, events).Some?
    requires e.PublishLive? ==> Complete(Run(s, events).value, e.r)
    ensures Shape(Run(s, events).value) && Run(s, events).value.pool.spec.Valid()
    ensures Apply(Run(s, events).value, e).Some? <==> Possible(Run(s, events).value, e)
  {
    hide Run, Conserved, DoAdmit, DoExtend, DoDispatch, DoExecute, DoConfirm, DoDiscard, DoPublishLive, Inv;
    InitialConserved(s);
    RunConserves(s, events);
    var t := Run(s, events).value;
    ConservedInv(t);
    E.InvIndexOk(t.pool, Pins(t.log, t.settled));
    match e
    case Admit(r, hs, pages) => AdmitPossible(t, r, hs, pages);
    case Extend(r, target) => ExtendPossible(t, r, target);
    case Dispatch(r, tokens, extra) => DispatchPossible(t, r, tokens, extra);
    case Execute(result, ok) => ExecutePossible(t, result, ok);
    case Confirm => ConfirmPossible(t);
    case Discard => DiscardPossible(t);
    case PublishLive(r, tokens) => PublishPossible(t, r, tokens);
    case _ =>
  }

  lemma AdmitPossible(t: Sys, r: ReqId, hs: seq<Hash>, pages: nat)
    requires Conserved(t) && Shape(t) && t.pool.spec.Valid()
    ensures DoAdmit(t, r, hs, pages).Some? <==> Possible(t, Admit(r, hs, pages))
  {
    hide Conserved, Inv, Attach, Selected, HitAt, Shape, PageStart, Completed;
    ConservedInv(t);
    E.InvIndexOk(t.pool, Pins(t.log, t.settled));
    X.HitExact(t.pool, hs, pages);
    if HitAt(t.pool, hs, pages) && Chained(hs) { X.SelectedInjective(t.pool, hs, pages); }
  }

  lemma ExtendPossible(t: Sys, r: ReqId, target: nat)
    requires Conserved(t) && Shape(t) && t.pool.spec.Valid()
    ensures DoExtend(t, r, target).Some? <==> Possible(t, Extend(r, target))
  {
    hide Inv, Grow, Replaced, Shape, Additional, PageStart, StepFits;
    ConservedInv(t);
    var pins := Pins(t.log, t.settled);
    if r in t.reqs && (t.pool.spec.window.None? ==> target <= t.pool.spec.maxBlocks) {
      if target < t.pool.LogicalOf(r) {
        G.GrowCovered(t.pool, pins, r, target);
      } else {
        G.GrowExact(t.pool, pins, r, target);
      }
      if Grow(t.pool, r, target).Some? { GrownTable(t.pool, pins, r, target); }
    }
  }

  lemma GrownTable(p: Pool, pins: multiset<nat>, r: ReqId, target: nat)
    requires Inv(p, pins) && (p.spec.window.None? ==> target <= p.spec.maxBlocks) && p.spec.Valid()
    requires Grow(p, r, target).Some?
    ensures
      var q := Grow(p, r, target).value;
      r in q.tables && r in q.logical && |q.tables[r]| <= q.logical[r]
  {
    hide Inv, Grow;
    F.GrowEffect(p, pins, r, target);
  }

  lemma DispatchPossible(t: Sys, r: ReqId, tokens: nat, extra: nat)
    requires Conserved(t) && Shape(t) && t.pool.spec.Valid()
    ensures DoDispatch(t, r, tokens, extra).Some? <==> Possible(t, Dispatch(r, tokens, extra))
  {
    hide Conserved, Inv, Shape, PinAll, CanRetain, FinalRows, PageStart;
    if Complete(t, r) { LiveTablePins(t, r); }
  }

  lemma ExecutePossible(t: Sys, result: seq<Content>, ok: bool)
    requires Conserved(t) && Shape(t) && t.pool.spec.Valid()
    ensures DoExecute(t, result, ok).Some? <==> Possible(t, Execute(result, ok))
  {
    hide Conserved, Inv, Exec, Writes, StepOk;
  }

  lemma PublishPossible(t: Sys, r: ReqId, tokens: nat)
    requires Conserved(t) && Shape(t) && t.pool.spec.Valid() && Complete(t, r)
    ensures DoPublishLive(t, r, tokens).Some? <==> Possible(t, PublishLive(r, tokens))
  {
    hide Conserved, Inv, Publish, Completed, LiveStart, Poisoned, PageStart;
    SafeTokensExact(t.pool.spec, tokens);
    var v := t.reqs[r];
    if t.pool.spec.SafeTokens(tokens) <= v.rows {
      LivePublication(t, r, tokens, LiveStart(t.pool, r, v.cached, Completed(t.pool.spec, v.hs, tokens)));
    }
  }

  lemma ConfirmPossible(t: Sys)
    requires Conserved(t) && Shape(t)
    ensures DoConfirm(t).Some? <==>
      && t.settled < t.executed && t.settled !in t.bad
      && Alive(t, t.log[t.settled]) && t.log[t.settled].epoch !in t.lost
  {
    hide Conserved, Inv, Publish, UnpinAll, ConfirmStart, ConfirmEnd;
    if t.settled < |t.log| && Alive(t, t.log[t.settled]) {
      ConfirmPublication(t);
      var st := t.log[t.settled];
      SettlePins(t, Publish(t.pool, Ids(st.table), t.reqs[st.r].hs, ConfirmStart(t), ConfirmEnd(t)).value);
    }
  }

  lemma DiscardPossible(t: Sys)
    requires Conserved(t)
    ensures DoDiscard(t).Some? <==> t.settled < |t.log|
  {
    hide Conserved, Inv, UnpinAll;
    ConservedInv(t);
    if t.settled < |t.log| { SettlePins(t, t.pool); }
  }
}
