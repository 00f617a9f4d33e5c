/** Dispatching a step and executing one keep the invariant - including executions that fail,
    and late executions of steps the host has already given up on. */
module CacheSystemDispatch {
  import opened CacheTypes
  import opened GroupPool
  import opened RefConservation
  import opened RingArithmetic
  import opened CacheDevice
  import opened CacheSystem
  import opened CacheSystemSteps
  import PoolOperations

  // ---- the device executes a step ----

  /** `t` is `s` after the device ran its next step. */
  ghost predicate Executed(s: Sys, t: Sys, ok: bool) {
    && Shape(s) && s.executed < |s.log|
    && t == s.(content := t.content, executed := s.executed + 1, bad := if ok then s.bad else s.bad + {s.executed})
    && |t.content| == |s.content|
    && (ok && s.executed >= s.settled ==> t.content == Exec(s.content, s.log[s.executed], s.C()))
    && (forall b :: 0 <= b < |s.content| && !Writes(s.log[s.executed], s.C(), b) ==> t.content[b] == s.content[b])
  }

  lemma ExecutedShape(s: Sys, t: Sys, ok: bool)
    requires Executed(s, t, ok)
    ensures Shape(t)
  {
    hide StepOk, Writes, Exec;
  }

  /** Only a step in flight that fails makes the final contents worse, in the blocks it writes. */
  lemma ExecutedFinal(s: Sys, t: Sys, ok: bool, b: nat)
    requires Executed(s, t, ok) && Shape(t) && b < |s.content|
    requires ok || s.executed < s.settled || !Writes(s.log[s.executed], s.C(), b)
    ensures Refines(Final(s)[b], Final(t)[b])
  {
    hide StepOk, Writes, Exec;
    var st := s.log[s.executed];
    assert StepOk(st, s.C(), |s.content|);
    var c := if s.executed < s.settled then Scribble(s.content, st, s.C()) else Exec(s.content, st, s.C());
    if s.executed >= s.settled && !ok { ExecFrame(s.content, st, s.C(), b); }
    DrainMono(c, t.content, s.log, s.executed + 1, s.settled, s.C(), b);
  }

  /** Failures only become more. */
  lemma ExecutedPoison(s: Sys, t: Sys, ok: bool, r: ReqId, epoch: nat, upto: nat)
    requires Executed(s, t, ok)
    ensures Poisoned(s, r, epoch, upto) ==> Poisoned(t, r, epoch, upto)
    ensures (!ok && s.settled <= s.executed < upto && s.log[s.executed].r == r && s.log[s.executed].epoch == epoch) ==>
      Poisoned(t, r, epoch, upto)
  {
    if !ok && s.executed >= s.settled { assert s.executed in t.bad; }
  }

  lemma ExecutedIndexed(s: Sys, t: Sys, ok: bool)
    requires Executed(s, t, ok) && Shape(t) && Inv(s.pool, Pins(s.log, s.settled))
    requires Indexed(s) && Unwritten(s)
    ensures Indexed(t) && Unwritten(t)
  {
    hide Writes, Inv, Executed, Shape;
    ExecutedFields(s, t, ok);
    forall h | h in t.pool.index
      ensures t.pool.index[h] < |t.content| && IsPage(Final(t)[t.pool.index[h]], h, t.C())
    {
      IndexedBlocks(s, h);
      ExecutedFinal(s, t, ok, s.pool.index[h]);
    }
  }

  lemma ExecutedFields(s: Sys, t: Sys, ok: bool)
    requires Executed(s, t, ok)
    ensures Shape(s) && s.executed < |s.log| && t.executed == s.executed + 1 && s.executed >= 0
    ensures t.pool == s.pool && t.page == s.page && t.log == s.log && t.reqs == s.reqs && t.settled == s.settled
    ensures t.nextEpoch == s.nextEpoch && t.lost == s.lost
    ensures |t.content| == |s.content| && s.C() > 0 && t.C() == s.C()
    ensures |s.page| == |s.content| == |s.pool.hashes|
  {
  }

  lemma ExecutedComputed(s: Sys, t: Sys, ok: bool)
    requires Executed(s, t, ok) && Shape(t) && Computed(s) && Pending(s)
    ensures Computed(t)
  {
    hide Writes, Poisoned, Executed, Shape;
    ExecutedFields(s, t, ok);
    forall o, i, b: nat | Holds(t, o, i, b) && !Poisoned(t, o, t.reqs[o].epoch, |t.log|)
      ensures PageDone(Final(t)[b], t.reqs[o], t.C(), SlotPage(t, o, i))
    {
      assert Holds(s, o, i, b) && SlotPage(t, o, i) == SlotPage(s, o, i);
      ExecutedPoison(s, t, ok, o, s.reqs[o].epoch, |s.log|);
      if Writes(s.log[s.executed], s.C(), b) && s.settled <= s.executed {
        assert PendingAt(s, s.executed, b, o);
      }
      ExecutedFinal(s, t, ok, b);
    }
  }

  lemma ExecutedFlight(s: Sys, t: Sys, ok: bool, k: nat, i: nat)
    requires Executed(s, t, ok) && Shape(t) && Flights(s) && Ordered(s) && Placed(s)
    requires s.settled <= k < |s.log| && Alive(s, s.log[k]) && !Poisoned(t, s.log[k].r, s.log[k].epoch, k + 1)
    requires StepOk(s.log[k], s.C(), |s.content|) && i < |s.log[k].table|
    ensures StepDone(Final(t)[s.log[k].table[i]], s.log[k], s.reqs[s.log[k].r].lo, s.C(), StepPage(s.log[k], i))
  {
    hide Writes, Poisoned, Executed, Shape;
    ExecutedFields(s, t, ok);
    var st := s.log[k];
    ExecutedPoison(s, t, ok, st.r, st.epoch, k + 1);
    var b := st.table[i];
    assert StepDone(Final(s)[b], st, s.reqs[st.r].lo, s.C(), StepPage(st, i));
    assert s.page[b] == StepPage(st, i);
    assert Writes(s.log[s.executed], s.C(), b) && s.settled <= s.executed ==> WritesInto(s, s.executed, k, b);
    if ok || s.executed < s.settled || !Writes(s.log[s.executed], s.C(), b) {
      ExecutedFinal(s, t, ok, b);
    }
  }

  lemma ExecutedFlights(s: Sys, t: Sys, ok: bool)
    requires Executed(s, t, ok) && Shape(t) && Flights(s) && Ordered(s) && Placed(s)
    ensures Flights(t)
  {
    hide Writes, Poisoned, Executed, StepDone, Ordered, Placed;
    ExecutedFields(s, t, ok);
    forall k | t.settled <= k < |t.log| && Alive(t, t.log[k])
      ensures StepView(t, t.log[k], t.reqs[t.log[k].r])
      ensures !Poisoned(t, t.log[k].r, t.log[k].epoch, k + 1) ==>
        forall i :: 0 <= i < |t.log[k].table| ==>
          StepDone(Final(t)[t.log[k].table[i]], t.log[k], t.reqs[t.log[k].r].lo, t.C(), StepPage(t.log[k], i))
    {
      assert StepView(s, s.log[k], s.reqs[s.log[k].r]);
      assert StepOk(s.log[k], s.C(), |s.content|);
      if !Poisoned(t, t.log[k].r, t.log[k].epoch, k + 1) {
        forall i | 0 <= i < |t.log[k].table|
          ensures StepDone(Final(t)[t.log[k].table[i]], t.log[k], t.reqs[t.log[k].r].lo, t.C(), StepPage(t.log[k], i))
        {
          ExecutedFlight(s, t, ok, k, i);
        }
      }
    }
  }

  lemma ExecutedRest(s: Sys, t: Sys, ok: bool)
    requires Executed(s, t, ok) && Shape(t)
    requires ViewsOk(s) && Placed(s) && HolesOld(s) && Exclusive(s) && Pending(s) && Ordered(s)
    ensures ViewsOk(t) && Placed(t) && HolesOld(t) && Exclusive(t) && Pending(t) && Ordered(t)
  {
    hide Writes, Executed, Open, OrderedAt;
    ExecutedFields(s, t, ok);
    assert forall o, i, b: nat :: Holds(t, o, i, b) <==> Holds(s, o, i, b);
    assert forall o, i, b: nat :: Holds(t, o, i, b) ==> SlotPage(t, o, i) == SlotPage(s, o, i);
    assert forall k, b: nat, o :: PendingAt(t, k, b, o) ==> PendingAt(s, k, b, o);
    assert forall j, k, b: nat :: WritesInto(t, j, k, b) <==> WritesInto(s, j, k, b);
    assert forall b: nat, r, e :: HeldOnlyBy(s, b, r, e) <==> HeldOnlyBy(t, b, r, e);
  }

  lemma ExecuteKeeps(s: Sys, result: seq<Content>, ok: bool)
    requires SysInv(s) && DoExecute(s, result, ok).Some?
    ensures SysInv(DoExecute(s, result, ok).value)
  {
    hide Inv, Shape, ViewsOk, Placed, Indexed, Unwritten, HolesOld, Computed, Flights, Exclusive, Pending, Ordered;
    hide Writes, StepOk, Executed;
    var t := DoExecute(s, result, ok).value;
    ExecuteIsExecuted(s, result, ok);
    ExecutedShape(s, t, ok);
    ExecutedFields(s, t, ok);
    ExecutedRest(s, t, ok);
    ExecutedIndexed(s, t, ok);
    ExecutedComputed(s, t, ok);
    ExecutedFlights(s, t, ok);
  }

  lemma ExecuteIsExecuted(s: Sys, result: seq<Content>, ok: bool)
    requires Shape(s) && DoExecute(s, result, ok).Some?
    ensures Executed(s, DoExecute(s, result, ok).value, ok)
  {
    hide Writes, StepOk;
  }

  // ---- the host dispatches a step ----

  /** `t` is `s` after a step of `r` was built from its table, pinned and sent. */
  ghost predicate Dispatched(s: Sys, t: Sys, r: ReqId, st: Step) {
    && Shape(s) && r in s.reqs && Sized(s, r) && NoHoles(s.pool.tables[r])
    && st == Step(r, s.reqs[r].epoch, s.reqs[r].hs, Values(s.pool.tables[r]), s.pool.logical[r], s.reqs[r].rows,
      st.to, st.tokens)
    && StepOk(st, s.C(), |s.content|)
    && t == s.(pool := t.pool, log := s.log + [st], reqs := s.reqs[r := s.reqs[r].(rows := st.to)])
    && t.pool == s.pool.(refs := t.pool.refs) && |t.pool.refs| == |s.pool.refs|
    && s.pool.spec.SafeTokens(st.tokens) <= st.to
    && PageStart(s.C(), s.reqs[r].lo) <= s.pool.spec.SafeTokens(st.tokens)
  }

  lemma DispatchedFields(s: Sys, t: Sys, r: ReqId, st: Step)
    requires Dispatched(s, t, r, st)
    ensures Shape(s) && Shape(t) && Sized(s, r) && Sized(t, r) && r in s.reqs && r in t.reqs
    ensures t.log == s.log + [st] && t.settled == s.settled <= |s.log| && t.executed == s.executed <= |s.log|
    ensures t.page == s.page && t.content == s.content && t.nextEpoch == s.nextEpoch && t.lost == s.lost
    ensures t.reqs == s.reqs[r := s.reqs[r].(rows := st.to)] && st.from == s.reqs[r].rows <= st.to
    ensures t.pool.tables == s.pool.tables && t.pool.logical == s.pool.logical && t.pool.hashes == s.pool.hashes
    ensures t.pool.index == s.pool.index && t.pool.spec == s.pool.spec && t.C() == s.C() > 0
    ensures st.r == r && st.epoch == s.reqs[r].epoch && st.hs == s.reqs[r].hs
    ensures StepOk(st, s.C(), |s.content|)
    ensures |st.table| == |s.pool.tables[r]| && st.pages == s.pool.logical[r]
    ensures forall i :: 0 <= i < |st.table| ==> s.pool.tables[r][i] == Some(st.table[i])
    ensures |s.page| == |s.content| == |s.pool.hashes|
  {
    hide Writes, Exec;
  }

  lemma DispatchedFinal(s: Sys, t: Sys, r: ReqId, st: Step)
    requires Dispatched(s, t, r, st) && Shape(t)
    ensures Final(t) == Exec(Final(s), st, s.C())
  {
    hide Exec;
    DrainAppend(s.content, s.log, st, s.executed, s.settled, s.C());
  }

  /** A dispatched step only writes blocks that its request may write, and holds alone. */
  lemma DispatchedWrites(s: Sys, t: Sys, r: ReqId, st: Step, b: nat)
    requires Dispatched(s, t, r, st) && Exclusive(s) && Placed(s) && Writes(st, s.C(), b)
    ensures b < |s.page| && Open(s.reqs[r], s.C(), s.page[b])
    ensures s.pool.hashes[b].None? && HeldOnlyBy(s, b, r, s.reqs[r].epoch)
  {
    hide Exec, Dispatched, Open;
    DispatchedFields(s, t, r, st);
    var l :| 0 <= l < st.pages && Covers(st, s.C(), l) && BlockFor(st, l) == b;
    var i := RingSlot(l, |st.table|);
    SlotHoldsNewest(st.pages, |st.table|, l);
    var page := SlotPage(s, r, i);
    PageStartMono(s.C(), l + 1, page + 1);
    assert Holds(s, r, i, b);
    assert Open(s.reqs[r], s.C(), page) by { OpenFrom(s.reqs[r], s.C(), page); }
  }

  lemma OpenFrom(v: View, capacity: nat, page: nat)
    requires PageStart(capacity, page + 1) > v.rows
    ensures Open(v, capacity, page)
  {
  }

  lemma DispatchedIndexed(s: Sys, t: Sys, r: ReqId, st: Step)
    requires Dispatched(s, t, r, st) && Shape(t) && Inv(s.pool, Pins(s.log, s.settled))
    requires Indexed(s) && Unwritten(s) && Exclusive(s) && Placed(s)
    ensures Indexed(t) && Unwritten(t)
  {
    hide Writes, Inv, Exec, Dispatched, Shape, Open, Exclusive, Placed, IsPage;
    DispatchedFields(s, t, r, st);
    DispatchedFinal(s, t, r, st);
    forall h | h in t.pool.index
      ensures t.pool.index[h] < |t.content| && Final(t)[t.pool.index[h]] == Final(s)[s.pool.index[h]]
    {
      var b := s.pool.index[h];
      IndexedBlocks(s, h);
      if Writes(st, s.C(), b) { DispatchedWrites(s, t, r, st, b); }
      ExecFrame(Final(s), st, s.C(), b);
    }
    forall k, b | t.executed <= k < |t.log| && 0 <= b < |t.pool.hashes| && Writes(t.log[k], t.C(), b)
      ensures t.pool.hashes[b].None?
    {
      if k == |s.log| { DispatchedWrites(s, t, r, st, b); } else { assert t.log[k] == s.log[k]; }
    }
  }

  /** The arithmetic of one page: what the step adds to what was there. */
  lemma PageWritten(v: View, st: Step, capacity: nat, page: nat, prior: Content)
    requires capacity > 0 && st.hs == v.hs && st.from == v.rows <= st.to && Covers(st, capacity, page)
    requires PageDone(prior, v, capacity, page)
    ensures PageDone(WritePage(prior, st, capacity, page), v.(rows := st.to), capacity, page)
  {
  }

  /** The pages of the dispatching request itself. */
  lemma DispatchedPage(s: Sys, t: Sys, r: ReqId, st: Step, i: nat)
    requires Dispatched(s, t, r, st) && Shape(t) && Computed(s)
    requires !Poisoned(s, r, s.reqs[r].epoch, |s.log|) && i < |st.table|
    ensures StepOk(st, s.C(), |s.content|) && Sized(s, r) && |st.table| == |s.pool.tables[r]|
    ensures PageDone(Final(t)[st.table[i]], t.reqs[r], s.C(), SlotPage(s, r, i))
  {
    hide Exec, Dispatched, Shape, IsPage, WritePage, Poisoned, Covers;
    DispatchedFields(s, t, r, st);
    DispatchedFinal(s, t, r, st);
    var b := st.table[i];
    var page := SlotPage(s, r, i);
    assert Holds(s, r, i, b);
    assert PageDone(Final(s)[b], s.reqs[r], s.C(), page);
    PageAtSlot(st.pages, |st.table|, i);
    assert BlockFor(st, page) == b;
    if Covers(st, s.C(), page) {
      ExecWrites(Final(s), st, s.C(), page);
      PageWritten(s.reqs[r], st, s.C(), page, Final(s)[b]);
    } else {
      DispatchedUncovered(s.reqs[r], st, s.C(), |s.content|, i, page);
      if Writes(st, s.C(), b) {
        assert PageStart(s.C(), page) >= st.to;
      } else {
        ExecFrame(Final(s), st, s.C(), b);
      }
    }
  }

  /** A page of the ring the step does not cover is complete already, or beyond the step. */
  lemma DispatchedUncovered(v: View, st: Step, capacity: nat, blocks: nat, i: nat, page: nat)
    requires StepOk(st, capacity, blocks) && i < |st.table| && page == PageAt(st.pages, |st.table|, i)
    requires !Covers(st, capacity, page) && st.from <= st.to
    ensures PageStart(capacity, page) >= st.to || (!Writes(st, capacity, st.table[i]) &&
      (PageStart(capacity, page + 1) <= st.from || st.from == st.to))
    ensures PageStart(capacity, page) < PageStart(capacity, page + 1)
  {
    if PageStart(capacity, page) < st.to {
      forall l | 0 <= l < st.pages && Covers(st, capacity, l)
        ensures BlockFor(st, l) != st.table[i]
      {
        if BlockFor(st, l) == st.table[i] {
          assert RingSlot(l, |st.table|) == i;
          SlotHoldsNewest(st.pages, |st.table|, l);
          PageStartMono(capacity, l + 1, page + 1);
        }
      }
    }
  }

  lemma DispatchedPoison(s: Sys, t: Sys, r: ReqId, st: Step, o: ReqId, epoch: nat, upto: nat)
    requires Dispatched(s, t, r, st) && upto <= |t.log|
    ensures upto <= |s.log| ==> (Poisoned(t, o, epoch, upto) <==> Poisoned(s, o, epoch, upto))
    ensures upto == |t.log| ==> (Poisoned(t, o, epoch, upto) <==> Poisoned(s, o, epoch, |s.log|))
  {
    assert forall j :: 0 <= j < |s.log| ==> t.log[j] == s.log[j];
  }

  lemma DispatchedComputed(s: Sys, t: Sys, r: ReqId, st: Step)
    requires Dispatched(s, t, r, st) && Shape(t) && Computed(s) && Exclusive(s) && Placed(s)
    ensures Computed(t)
  {
    hide Exec, Dispatched, Shape, PageDone, Writes, Poisoned, Exclusive, Placed;
    DispatchedFields(s, t, r, st);
    forall o, i, b: nat | Holds(t, o, i, b) && !Poisoned(t, o, t.reqs[o].epoch, |t.log|)
      ensures PageDone(Final(t)[b], t.reqs[o], t.C(), SlotPage(t, o, i))
    {
      DispatchedPoison(s, t, r, st, o, s.reqs[o].epoch, |t.log|);
      if o == r {
        DispatchedPage(s, t, r, st, i);
      } else {
        DispatchedOther(s, t, r, st, o, i, b);
      }
    }
  }

  lemma DispatchedOther(s: Sys, t: Sys, r: ReqId, st: Step, o: ReqId, i: int, b: nat)
    requires Dispatched(s, t, r, st) && Shape(t) && Computed(s) && Exclusive(s) && Placed(s)
    requires o != r && Holds(s, o, i, b) && !Poisoned(s, o, s.reqs[o].epoch, |s.log|)
    ensures PageDone(Final(t)[b], s.reqs[o], s.C(), SlotPage(s, o, i))
  {
    hide Exec, Dispatched, Shape, PageDone, Writes, Poisoned, Exclusive, Placed, Open;
    DispatchedFields(s, t, r, st);
    DispatchedFinal(s, t, r, st);
    if Writes(st, s.C(), b) { DispatchedWrites(s, t, r, st, b); }
    ExecFrame(Final(s), st, s.C(), b);
  }

  /** Where the new step writes, earlier steps in flight of the request promise nothing. */
  lemma DispatchedOrder(s: Sys, t: Sys, r: ReqId, st: Step, j: nat, b: nat)
    requires Dispatched(s, t, r, st) && Exclusive(s) && Placed(s) && Flights(s)
    requires s.settled <= j < |s.log| && b in s.log[j].table && Writes(st, s.C(), b)
    ensures b < |s.page| && OrderedAt(s.log[j], st, s.C(), s.page[b])
  {
    hide Dispatched, Writes, StepDone, Poisoned;
    DispatchedFields(s, t, r, st);
    DispatchedWrites(s, t, r, st, b);
    assert Alive(s, s.log[j]) && StepView(s, s.log[j], s.reqs[r]);
    var page := s.page[b];
    if page < |st.hs| { PageStartMono(s.C(), page + 1, |st.hs|); }
  }

  lemma DispatchedFlight(s: Sys, t: Sys, r: ReqId, st: Step, k: nat, i: nat)
    requires Dispatched(s, t, r, st) && Shape(t) && Flights(s) && Exclusive(s) && Placed(s) && Computed(s)
    requires s.settled <= k < |t.log| && Alive(s, t.log[k]) && !Poisoned(t, t.log[k].r, t.log[k].epoch, k + 1)
    requires StepOk(t.log[k], s.C(), |s.content|) && i < |t.log[k].table|
    ensures StepDone(Final(t)[t.log[k].table[i]], t.log[k], s.reqs[t.log[k].r].lo, s.C(), StepPage(t.log[k], i))
  {
    hide Dispatched, Writes, Poisoned, Exec, Exclusive, Computed, IsPage;
    DispatchedFields(s, t, r, st);
    DispatchedPoison(s, t, r, st, t.log[k].r, t.log[k].epoch, k + 1);
    if k == |s.log| {
      DispatchedPage(s, t, r, st, i);
    } else {
      var u := s.log[k];
      assert t.log[k] == u;
      var b := u.table[i];
      assert StepDone(Final(s)[b], u, s.reqs[u.r].lo, s.C(), StepPage(u, i));
      assert s.page[b] == StepPage(u, i);
      if Writes(st, s.C(), b) {
        DispatchedOrder(s, t, r, st, k, b);
      } else {
        DispatchedFinal(s, t, r, st);
        ExecFrame(Final(s), st, s.C(), b);
      }
    }
  }

  lemma DispatchedFlights(s: Sys, t: Sys, r: ReqId, st: Step)
    requires Dispatched(s, t, r, st) && Shape(t) && Flights(s) && Exclusive(s) && Placed(s) && Computed(s)
    ensures Flights(t)
  {
    hide Dispatched, Writes, Poisoned, Exec, Exclusive, Placed, Computed, StepDone;
    DispatchedFields(s, t, r, st);
    forall k | t.settled <= k < |t.log| && Alive(t, t.log[k])
      ensures StepView(t, t.log[k], t.reqs[t.log[k].r])
      ensures !Poisoned(t, t.log[k].r, t.log[k].epoch, k + 1) ==>
        forall i :: 0 <= i < |t.log[k].table| ==>
          StepDone(Final(t)[t.log[k].table[i]], t.log[k], t.reqs[t.log[k].r].lo, t.C(), StepPage(t.log[k], i))
    {
      DispatchedView(s, t, r, st, k);
      if !Poisoned(t, t.log[k].r, t.log[k].epoch, k + 1) {
        forall i | 0 <= i < |t.log[k].table|
          ensures StepDone(Final(t)[t.log[k].table[i]], t.log[k], t.reqs[t.log[k].r].lo, t.C(), StepPage(t.log[k], i))
        {
          assert StepOk(t.log[k], t.C(), |t.content|);
          DispatchedFlight(s, t, r, st, k, i);
        }
      }
    }
  }

  lemma DispatchedView(s: Sys, t: Sys, r: ReqId, st: Step, k: nat)
    requires Dispatched(s, t, r, st) && Shape(t) && Flights(s)
    requires t.settled <= k < |t.log| && Alive(t, t.log[k])
    ensures Alive(s, t.log[k])
    ensures StepView(t, t.log[k], t.reqs[t.log[k].r])
  {
    hide Writes, Poisoned, Exec, StepDone;
    if k < |s.log| {
      assert t.log[k] == s.log[k];
      assert StepView(s, s.log[k], s.reqs[s.log[k].r]);
    }
  }

  lemma DispatchedRest(s: Sys, t: Sys, r: ReqId, st: Step)
    requires Dispatched(s, t, r, st) && Shape(t) && ViewsOk(s) && Placed(s) && HolesOld(s)
    ensures ViewsOk(t) && Placed(t) && HolesOld(t)
  {
    hide Writes, Exec, Dispatched;
    DispatchedFields(s, t, r, st);
    assert forall o, i, b: nat :: Holds(t, o, i, b) <==> Holds(s, o, i, b);
    forall k, i | t.settled <= k < |t.log| && 0 <= i < |t.log[k].table|
      ensures t.page[t.log[k].table[i]] == StepPage(t.log[k], i)
    {
      if k == |s.log| { assert Holds(s, r, i, st.table[i]); } else { assert t.log[k] == s.log[k]; }
    }
  }

  lemma DispatchedExclusive(s: Sys, t: Sys, r: ReqId, st: Step)
    requires Dispatched(s, t, r, st) && Shape(t) && Exclusive(s)
    ensures Exclusive(t)
  {
    hide Writes, Exec, Dispatched;
    DispatchedFields(s, t, r, st);
    forall o, i, b: nat | Holds(t, o, i, b) && Open(t.reqs[o], t.C(), SlotPage(t, o, i))
      ensures t.pool.hashes[b].None? && HeldOnlyBy(t, b, o, t.reqs[o].epoch)
    {
      assert Holds(s, o, i, b) && Open(s.reqs[o], s.C(), SlotPage(s, o, i));
      assert HeldOnlyBy(s, b, o, s.reqs[o].epoch);
      forall k | t.settled <= k < |t.log| && b in t.log[k].table
        ensures t.log[k].r == o && t.log[k].epoch == t.reqs[o].epoch
      {
        if k < |s.log| { assert t.log[k] == s.log[k]; } else { assert Some(b) in s.pool.tables[r]; }
      }
    }
  }

  lemma DispatchedPending(s: Sys, t: Sys, r: ReqId, st: Step)
    requires Dispatched(s, t, r, st) && Shape(t) && Exclusive(s) && Placed(s) && Pending(s)
    ensures Pending(t)
  {
    hide Writes, Exec, Dispatched, Exclusive, Placed, Open;
    DispatchedFields(s, t, r, st);
    forall k, b: nat, o | PendingAt(t, k, b, o)
      ensures Mine(t.log[k], o, t.reqs[o])
    {
      if k < |s.log| {
        assert t.log[k] == s.log[k];
        assert PendingAt(s, k, b, o);
      } else {
        DispatchedWrites(s, t, r, st, b);
      }
    }
  }

  lemma DispatchedOrdered(s: Sys, t: Sys, r: ReqId, st: Step)
    requires Dispatched(s, t, r, st) && Shape(t) && Exclusive(s) && Placed(s) && Flights(s) && Pending(s) && Ordered(s)
    ensures Ordered(t)
  {
    hide Writes, Exec, Dispatched, Exclusive, Placed, Flights, OrderedAt;
    DispatchedFields(s, t, r, st);
    forall j, k, b: nat | WritesInto(t, k, j, b) && j < k
      ensures OrderedAt(t.log[j], t.log[k], t.C(), t.page[b])
    {
      assert t.log[j] == s.log[j];
      if k < |s.log| {
        assert t.log[k] == s.log[k];
        assert WritesInto(s, k, j, b);
      } else {
        DispatchedOrder(s, t, r, st, j, b);
      }
    }
    forall j, k, b: nat | WritesInto(t, j, k, b) && j < k && t.executed <= j
      ensures t.log[j].r == t.log[k].r && t.log[j].epoch == t.log[k].epoch
    {
      assert t.log[j] == s.log[j];
      if k < |s.log| {
        assert t.log[k] == s.log[k];
        assert WritesInto(s, j, k, b);
      } else {
        assert Some(b) in s.pool.tables[r];
        assert PendingAt(s, j, b, r);
      }
    }
  }

  lemma {:induction false} PinsAppend(log: seq<Step>, st: Step, i: nat)
    requires i <= |log|
    ensures Pins(log + [st], i) == Pins(log, i) + multiset(st.table)
    decreases |log| - i
  {
    if i < |log| {
      assert (log + [st])[i] == log[i];
      PinsAppend(log, st, i + 1);
    }
  }

  lemma DispatchedKeeps(s: Sys, t: Sys, r: ReqId, st: Step)
    requires SysInv(s) && Dispatched(s, t, r, st) && Inv(t.pool, Pins(t.log, t.settled))
    ensures SysInv(t)
  {
    hide Inv, Shape, ViewsOk, Placed, Indexed, Unwritten, HolesOld, Computed, Flights, Exclusive, Pending, Ordered,
      Dispatched;
    DispatchedFields(s, t, r, st);
    DispatchedRest(s, t, r, st);
    DispatchedIndexed(s, t, r, st);
    DispatchedComputed(s, t, r, st);
    DispatchedFlights(s, t, r, st);
    DispatchedExclusive(s, t, r, st);
    DispatchedPending(s, t, r, st);
    DispatchedOrdered(s, t, r, st);
  }

  lemma DispatchIsDispatched(s: Sys, r: ReqId, tokens: nat, extra: nat)
    requires SysInv(s) && DoDispatch(s, r, tokens, extra).Some?
    ensures
      var t := DoDispatch(s, r, tokens, extra).value;
      && Dispatched(s, t, r, t.log[|s.log|])
      && Inv(t.pool, Pins(t.log, t.settled))
  {
    hide Placed, Indexed, Unwritten, HolesOld, Computed, Flights, Exclusive, Pending, Ordered, QueueOk, RefsOk, IndexOk;
    hide PinAll, Inv;
    var t := DoDispatch(s, r, tokens, extra).value;
    var ids := Values(s.pool.tables[r]);
    var pins := Pins(s.log, s.settled);
    var v := s.reqs[r];
    DispatchTable(s, r);
    assert ViewOk(s, r, v);
    PageStartMono(s.C(), v.lo, |v.hs|);
    PoolOperations.PinAllInv(s.pool, pins, ids);
    PinAllSize(s.pool, ids);
    PinsAppend(s.log, t.log[|s.log|], s.settled);
  }

  lemma DispatchTable(s: Sys, r: ReqId)
    requires Inv(s.pool, Pins(s.log, s.settled)) && r in s.pool.tables && NoHoles(s.pool.tables[r])
    ensures
      var ids := Values(s.pool.tables[r]);
      && (forall i, j :: 0 <= i < j < |ids| ==> ids[i] != ids[j])
      && (forall i :: 0 <= i < |ids| ==> ids[i] < |s.pool.refs|)
  {
    var t := s.pool.tables[r];
    assert Injective(t) && InRange(t, |s.pool.refs|);
    assert forall i, j :: 0 <= i < j < |t| ==> t[i] != t[j];
  }

  lemma {:induction false} PinAllSize(p: Pool, ids: seq<nat>)
    requires forall i :: 0 <= i < |ids| ==> ids[i] < |p.refs|
    ensures |PinAll(p, ids).refs| == |p.refs|
    decreases |ids|
  {
    if ids != [] { PinAllSize(Pin(p, ids[0]), ids[1..]); }
  }

  lemma DispatchKeeps(s: Sys, r: ReqId, tokens: nat, extra: nat)
    requires SysInv(s) && DoDispatch(s, r, tokens, extra).Some?
    ensures SysInv(DoDispatch(s, r, tokens, extra).value)
  {
    hide SysInv, Dispatched;
    DispatchIsDispatched(s, r, tokens, extra);
    var t := DoDispatch(s, r, tokens, extra).value;
    DispatchedKeeps(s, t, r, t.log[|s.log|]);
  }
}
