/** Growing a request and admitting one with a prefix hit keep the invariant. */
module CacheSystemGrow {
  import opened CacheTypes
  import opened GroupPool
  import opened RefConservation
  import opened RingArithmetic
  import opened CacheDevice
  import opened CacheSystem
  import opened CacheSystemSteps
  import opened PrefixSelection
  import G = GrowthEffect
  import PoolOperations

  // ---- growth ----

  /** `t` is `s` after `ensure_group_blocks` grew request `r`. */
  ghost predicate Extended(s: Sys, t: Sys, r: ReqId) {
    && Shape(s) && r in s.reqs
    && r in t.pool.tables && r in t.pool.logical && |t.pool.tables[r]| <= t.pool.logical[r]
    && t == s.(pool := t.pool, page := Replaced(s.page, s.pool, t.pool, r))
    && G.GrewTo(Opened(s.pool, r), t.pool, Pins(s.log, s.settled), r)
    && Injective(t.pool.tables[r]) && InRange(t.pool.tables[r], |s.content|)
  }

  lemma ExtendedFields(s: Sys, t: Sys, r: ReqId)
    requires Extended(s, t, r)
    ensures Shape(s) && Shape(t) && r in s.reqs && Sized(t, r)
    ensures t.log == s.log && t.settled == s.settled && t.executed == s.executed && t.content == s.content
    ensures t.bad == s.bad && t.lost == s.lost && t.reqs == s.reqs && t.nextEpoch == s.nextEpoch && t.C() == s.C()
    ensures t.pool.tables == s.pool.tables[r := t.pool.tables[r]]
    ensures t.pool.logical == s.pool.logical[r := t.pool.logical[r]]
    ensures s.pool.LogicalOf(r) <= t.pool.LogicalOf(r) && t.pool.spec == s.pool.spec
    ensures G.HashesShrink(s.pool, t.pool)
    ensures |s.page| == |t.page| == |s.content| == |s.pool.hashes|
    ensures Final(t) == Final(s)
  {
    hide LogOk, Drain;
  }

  /** A slot of the grown table: kept from before, or given a block nobody refers to. */
  ghost predicate KeptSlot(s: Sys, t: Sys, r: ReqId, i: nat)
    requires Shape(s) && Shape(t) && Sized(t, r) && i < |t.pool.tables[r]|
  {
    && Sized(s, r) && i < |s.pool.tables[r]|
    && s.pool.tables[r][i] == t.pool.tables[r][i]
    && SlotPage(s, r, i) == SlotPage(t, r, i)
  }

  ghost predicate FreshSlot(s: Sys, t: Sys, r: ReqId, i: nat)
    requires Shape(s) && Shape(t) && Sized(t, r) && i < |t.pool.tables[r]|
  {
    && t.pool.tables[r][i].Some?
    && FreshBlock(s, t, r, t.pool.tables[r][i].value)
    && (SlotPage(t, r, i) >= s.pool.LogicalOf(r)
        || (Sized(s, r) && i < |s.pool.tables[r]| && s.pool.tables[r][i].None? && SlotPage(t, r, i) == SlotPage(s, r,
          i)))
  }

  ghost predicate FreshBlock(s: Sys, t: Sys, r: ReqId, b: nat)
    requires Shape(s) && Shape(t)
  {
    && (forall o :: o in s.pool.tables && o != r ==> Some(b) !in s.pool.tables[o])
    && (forall k :: s.settled <= k < |s.log| ==> b !in s.log[k].table)
    && b < |t.pool.hashes| && t.pool.hashes[b].None?
  }

  lemma {:induction false} PinsMember(log: seq<Step>, i: nat, k: nat, b: nat)
    requires i <= k < |log| && b in log[k].table
    ensures Pins(log, i)[b] > 0
    decreases k - i
  {
    if i < k { PinsMember(log, i + 1, k, b); } else { assert b in multiset(log[k].table); }
  }

  lemma ExtendedSlot(s: Sys, t: Sys, r: ReqId, i: nat)
    requires Extended(s, t, r) && Shape(t) && i < |t.pool.tables[r]| && ViewsOk(s)
    ensures Sized(t, r)
    ensures KeptSlot(s, t, r, i) || FreshSlot(s, t, r, i)
  {
    hide LogOk;
    var p := Opened(s.pool, r);
    if r in s.pool.tables { assert Sized(s, r); }
    if G.Kept(p, t.pool, r, i) {
      assert KeptSlot(s, t, r, i);
    } else {
      assert G.Fresh(p, t.pool, Pins(s.log, s.settled), r, i);
      var b := t.pool.tables[r][i].value;
      forall k | s.settled <= k < |s.log|
        ensures b !in s.log[k].table
      {
        if b in s.log[k].table { PinsMember(s.log, s.settled, k, b); }
      }
      assert forall o :: o in s.pool.tables && o != r ==> p.tables[o] == s.pool.tables[o];
    }
  }

  /** The new history of one block: changed exactly in the slots that are not kept. */
  lemma ReplacedAt(page: seq<nat>, p: Pool, q: Pool, r: ReqId, b: nat)
    requires r in q.tables && r in q.logical && |q.tables[r]| <= q.logical[r] && b < |page| && Injective(q.tables[r])
    ensures forall i: nat :: i < |q.tables[r]| && q.tables[r][i] == Some(b) ==>
      Replaced(page, p, q, r)[b] == if SlotKept(p, q, r, i) then page[b] else PageAt(q.logical[r], |q.tables[r]|, i)
    ensures Some(b) !in q.tables[r] ==> Replaced(page, p, q, r)[b] == page[b]
  {
    hide SlotKept, PageAt;
    var u := q.tables[r];
    forall i: nat | i < |u| && u[i] == Some(b)
      ensures Replaced(page, p, q, r)[b] == if SlotKept(p, q, r, i) then page[b] else PageAt(q.logical[r], |u|, i)
    {
      assert forall j: nat :: j < |u| && u[j] == Some(b) ==> j == i;
    }
  }

  /** The page history changes for fresh blocks only, and follows the grown table. */
  lemma ExtendedPage(s: Sys, t: Sys, r: ReqId, b: nat)
    requires Extended(s, t, r) && Shape(t) && ViewsOk(s) && Placed(s) && b < |s.page|
    ensures (forall i: nat :: i < |t.pool.tables[r]| && t.pool.tables[r][i] == Some(b) ==>
      t.page[b] == SlotPage(t, r, i))
    ensures t.page[b] == s.page[b] || FreshBlock(s, t, r, b)
  {
    hide LogOk, PageAt, FreshBlock, Replaced;
    var u := t.pool.tables[r];
    ReplacedAt(s.page, s.pool, t.pool, r, b);
    forall i: nat | i < |u| && u[i] == Some(b)
      ensures t.page[b] == SlotPage(t, r, i)
      ensures t.page[b] == s.page[b] || FreshBlock(s, t, r, b)
    {
      ExtendedSlot(s, t, r, i);
      if KeptSlot(s, t, r, i) { assert Holds(s, r, i, b); }
    }
  }

  lemma ExtendedPlaced(s: Sys, t: Sys, r: ReqId)
    requires Extended(s, t, r) && Shape(t) && ViewsOk(s) && Placed(s)
    ensures Placed(t)
  {
    hide Extended, PageAt, FreshBlock;
    ExtendedFields(s, t, r);
    forall o, i, b: nat | Holds(t, o, i, b)
      ensures t.page[b] == SlotPage(t, o, i)
    {
      ExtendedPage(s, t, r, b);
      if o != r { ExtendedOther(s, t, r, o, i, b); }
    }
    forall k, i | t.settled <= k < |t.log| && 0 <= i < |t.log[k].table|
      ensures t.page[t.log[k].table[i]] == StepPage(t.log[k], i)
    {
      ExtendedPinned(s, t, r, k, t.log[k].table[i]);
    }
  }

  lemma ExtendedOther(s: Sys, t: Sys, r: ReqId, o: ReqId, i: int, b: nat)
    requires Extended(s, t, r) && Shape(t) && ViewsOk(s) && Placed(s) && o != r && Holds(t, o, i, b)
    ensures Holds(s, o, i, b) && SlotPage(t, o, i) == SlotPage(s, o, i) && t.page[b] == s.page[b]
    ensures !FreshBlock(s, t, r, b)
  {
    hide LogOk, Extended, PageAt;
    ExtendedFields(s, t, r);
    ExtendedPage(s, t, r, b);
    assert t.pool.tables[o] == s.pool.tables[o];
  }

  lemma ExtendedPinned(s: Sys, t: Sys, r: ReqId, k: nat, b: nat)
    requires Extended(s, t, r) && Shape(t) && ViewsOk(s) && Placed(s)
    requires s.settled <= k < |s.log| && b in s.log[k].table && b < |s.page|
    ensures t.page[b] == s.page[b] && !FreshBlock(s, t, r, b)
  {
    hide LogOk, Extended, PageAt;
    ExtendedPage(s, t, r, b);
  }

  lemma ExtendedRest(s: Sys, t: Sys, r: ReqId)
    requires Extended(s, t, r) && Shape(t) && ViewsOk(s) && HolesOld(s) && Flights(s)
    ensures ViewsOk(t) && HolesOld(t) && Flights(t)
  {
    hide LogOk, Extended, PageAt, StepDone, FreshBlock;
    ExtendedFields(s, t, r);
    PageStartMono(s.C(), s.pool.LogicalOf(r), t.pool.LogicalOf(r));
    assert forall o, e, k :: Poisoned(t, o, e, k) <==> Poisoned(s, o, e, k);
    forall i: nat | i < |t.pool.tables[r]| && t.pool.tables[r][i].None?
      ensures SlotPage(t, r, i) < t.reqs[r].lo
    {
      ExtendedSlot(s, t, r, i);
    }
    assert forall o, i :: o != r && o in t.pool.tables && Sized(t, o) && 0 <= i < |t.pool.tables[o]| ==>
      Sized(s, o) && SlotPage(t, o, i) == SlotPage(s, o, i);
  }

  lemma ExtendedIndexed(s: Sys, t: Sys, r: ReqId)
    requires Extended(s, t, r) && Shape(t) && ViewsOk(s) && Placed(s) && Indexed(s) && Unwritten(s)
    requires IndexOk(t.pool)
    ensures Indexed(t) && Unwritten(t)
  {
    hide LogOk, Extended, PageAt, IsPage, Writes, Placed;
    ExtendedFields(s, t, r);
    forall h | h in t.pool.index
      ensures t.page[t.pool.index[h]] == s.page[s.pool.index[h]]
    {
      ExtendedPage(s, t, r, t.pool.index[h]);
    }
  }

  lemma ExtendedComputed(s: Sys, t: Sys, r: ReqId)
    requires Extended(s, t, r) && Shape(t) && ViewsOk(s) && HolesOld(s) && Placed(s) && Computed(s)
    ensures Computed(t)
  {
    hide LogOk, Extended, PageAt, PageDone, FreshBlock, Placed, Poisoned;
    ExtendedFields(s, t, r);
    forall o, i, b: nat | Holds(t, o, i, b) && !Poisoned(t, o, t.reqs[o].epoch, |t.log|)
      ensures PageDone(Final(t)[b], t.reqs[o], t.C(), SlotPage(t, o, i))
    {
      assert !Poisoned(s, o, s.reqs[o].epoch, |s.log|) by { SamePoison(s, t, o, s.reqs[o].epoch); }
      if o != r {
        ExtendedOther(s, t, r, o, i, b);
      } else {
        ExtendedSlot(s, t, r, i);
        if KeptSlot(s, t, r, i) {
          assert Holds(s, r, i, b);
        } else {
          NothingDone(s, t, r, i, Final(t)[b]);
        }
      }
    }
  }

  lemma SamePoison(s: Sys, t: Sys, r: ReqId, epoch: nat)
    requires t.log == s.log && t.settled == s.settled && t.bad == s.bad && t.lost == s.lost
    ensures Poisoned(s, r, epoch, |s.log|) ==> Poisoned(t, r, epoch, |t.log|)
  {
  }

  /** A fresh slot is for a page the request has not reached, or does not need. */
  lemma NothingDone(s: Sys, t: Sys, r: ReqId, i: nat, c: Content)
    requires Extended(s, t, r) && Shape(t) && ViewsOk(s) && HolesOld(s)
    requires Sized(t, r) && i < |t.pool.tables[r]| && FreshSlot(s, t, r, i)
    ensures PageDone(c, t.reqs[r], t.C(), SlotPage(t, r, i))
  {
    hide LogOk, Extended, PageAt, FreshBlock;
    ExtendedFields(s, t, r);
    var page := SlotPage(t, r, i);
    assert ViewOk(s, r, s.reqs[r]);
    if page >= s.pool.LogicalOf(r) { PageStartMono(s.C(), s.pool.LogicalOf(r), page); }
  }

  lemma ExtendedExclusive(s: Sys, t: Sys, r: ReqId)
    requires Extended(s, t, r) && Shape(t) && ViewsOk(s) && Placed(s) && Exclusive(s)
    ensures Exclusive(t)
  {
    hide LogOk, Extended, PageAt, Placed, FreshBlock, Open, HeldOnlyBy;
    ExtendedFields(s, t, r);
    forall o, i, b: nat | Holds(t, o, i, b) && Open(t.reqs[o], t.C(), SlotPage(t, o, i))
      ensures t.pool.hashes[b].None? && HeldOnlyBy(t, b, o, t.reqs[o].epoch)
    {
      if o != r {
        ExtendedOther(s, t, r, o, i, b);
        OtherStillHeld(s, t, r, o, b);
      } else {
        ExtendedSlot(s, t, r, i);
        if KeptSlot(s, t, r, i) {
          assert Holds(s, r, i, b);
          KeptStillHeld(s, t, r, b);
        } else {
          FreshHeld(s, t, r, b);
        }
      }
    }
  }

  lemma OtherStillHeld(s: Sys, t: Sys, r: ReqId, o: ReqId, b: nat)
    requires Extended(s, t, r) && Shape(t) && ViewsOk(s) && o != r && o in s.pool.tables && o in s.reqs
    requires Some(b) in s.pool.tables[o]
    requires HeldOnlyBy(s, b, o, s.reqs[o].epoch)
    ensures HeldOnlyBy(t, b, o, s.reqs[o].epoch)
  {
    hide LogOk, Extended, PageAt;
    ExtendedFields(s, t, r);
    if Some(b) in t.pool.tables[r] {
      var i :| 0 <= i < |t.pool.tables[r]| && t.pool.tables[r][i] == Some(b);
      ExtendedSlot(s, t, r, i);
    }
  }

  lemma KeptStillHeld(s: Sys, t: Sys, r: ReqId, b: nat)
    requires Extended(s, t, r) && Shape(t) && HeldOnlyBy(s, b, r, s.reqs[r].epoch)
    ensures HeldOnlyBy(t, b, r, s.reqs[r].epoch)
  {
    hide LogOk, Extended, PageAt;
    ExtendedFields(s, t, r);
  }

  lemma FreshHeld(s: Sys, t: Sys, r: ReqId, b: nat)
    requires Extended(s, t, r) && Shape(t) && FreshBlock(s, t, r, b)
    ensures t.pool.hashes[b].None? && HeldOnlyBy(t, b, r, s.reqs[r].epoch)
  {
    hide LogOk, Extended, PageAt;
    ExtendedFields(s, t, r);
  }

  lemma WritesOwnTable(st: Step, capacity: nat, b: nat)
    requires Writes(st, capacity, b)
    ensures b in st.table
  {
  }

  lemma ExtendedPending(s: Sys, t: Sys, r: ReqId)
    requires Extended(s, t, r) && Shape(t) && ViewsOk(s) && Pending(s)
    ensures Pending(t)
  {
    hide LogOk, Extended, PageAt, Writes;
    ExtendedFields(s, t, r);
    forall k, b: nat, o | PendingAt(t, k, b, o)
      ensures Mine(t.log[k], o, t.reqs[o])
    {
      WritesOwnTable(s.log[k], s.C(), b);
      if o == r {
        var i :| 0 <= i < |t.pool.tables[r]| && t.pool.tables[r][i] == Some(b);
        ExtendedSlot(s, t, r, i);
      }
      assert PendingAt(s, k, b, o);
    }
  }

  lemma ExtendedOrdered(s: Sys, t: Sys, r: ReqId)
    requires Extended(s, t, r) && Shape(t) && ViewsOk(s) && Placed(s) && Ordered(s)
    ensures Ordered(t)
  {
    hide LogOk, Extended, PageAt, Writes, OrderedAt, Placed;
    ExtendedFields(s, t, r);
    forall j, k, b: nat | WritesInto(t, k, j, b)
      ensures WritesInto(s, k, j, b) && t.page[b] == s.page[b]
    {
      ExtendedPinned(s, t, r, j, b);
    }
  }

  lemma ExtendedKeeps(s: Sys, t: Sys, r: ReqId)
    requires SysInv(s) && Extended(s, t, r) && Inv(t.pool, Pins(t.log, t.settled))
    ensures SysInv(t)
  {
    hide Inv, Shape, ViewsOk, Placed, Indexed, Unwritten, HolesOld, Computed, Flights, Exclusive, Pending, Ordered,
      Extended;
    ExtendedFields(s, t, r);
    ExtendedPlaced(s, t, r);
    ExtendedRest(s, t, r);
    InvIndexOk(t.pool, Pins(t.log, t.settled));
    ExtendedIndexed(s, t, r);
    ExtendedComputed(s, t, r);
    ExtendedExclusive(s, t, r);
    ExtendedPending(s, t, r);
    ExtendedOrdered(s, t, r);
  }

  lemma InvIndexOk(p: Pool, pins: multiset<nat>)
    requires Inv(p, pins)
    ensures IndexOk(p) && p.spec.Valid()
  {
  }

  lemma InvTable(p: Pool, pins: multiset<nat>, r: ReqId)
    requires Inv(p, pins) && r in p.tables
    ensures Injective(p.tables[r]) && InRange(p.tables[r], |p.refs|)
  {
  }

  lemma ExtendKeeps(s: Sys, r: ReqId, target: nat)
    requires SysInv(s) && DoExtend(s, r, target).Some?
    ensures SysInv(DoExtend(s, r, target).value)
  {
    hide SysInv, Inv, Grow, Replaced, LogOk;
    PoolInv(s);
    var t := DoExtend(s, r, target).value;
    G.GrowEffect(s.pool, Pins(s.log, s.settled), r, target);
    InvTable(t.pool, Pins(s.log, s.settled), r);
    ExtendedKeeps(s, t, r);
  }

  // ---- admission ----

  /** `t` is `s` after request `r` was admitted with a prefix hit of `pages` pages. */
  ghost predicate Admitted(s: Sys, t: Sys, r: ReqId, pages: nat) {
    && Shape(s) && r !in s.reqs && r !in s.pool.tables && r in t.reqs
    && s.pool.spec.Valid() && Chained(t.reqs[r].hs) && HitAt(s.pool, t.reqs[r].hs, pages) && pages > 0
    && t == s.(pool := t.pool, reqs := s.reqs[r := t.reqs[r]], nextEpoch := s.nextEpoch + 1)
    && t.reqs[r].epoch == s.nextEpoch && t.reqs[r].rows == PageStart(s.C(), pages)
    && t.reqs[r].lo == t.reqs[r].cached == Completed(s.pool.spec, t.reqs[r].hs, t.reqs[r].rows)
    && t.pool.tables == s.pool.tables[r := Selected(s.pool, t.reqs[r].hs, pages)]
    && t.pool.logical == s.pool.logical[r := pages]
    && t.pool.spec == s.pool.spec && t.pool.hashes == s.pool.hashes && t.pool.index == s.pool.index
    && |t.pool.refs| == |s.pool.refs|
    && |Selected(s.pool, t.reqs[r].hs, pages)| == s.pool.spec.TableSize(pages)
  }

  lemma AdmittedFields(s: Sys, t: Sys, r: ReqId, pages: nat)
    requires Admitted(s, t, r, pages)
    ensures Shape(s) && Shape(t) && Sized(t, r) && r !in s.reqs && r !in s.pool.tables && r in t.reqs
    ensures t.log == s.log && t.settled == s.settled && t.executed == s.executed && t.content == s.content
    ensures t.bad == s.bad && t.lost == s.lost && t.page == s.page && t.nextEpoch == s.nextEpoch + 1 && t.C() == s.C()
    ensures t.reqs == s.reqs[r := t.reqs[r]] && t.pool.hashes == s.pool.hashes && t.pool.index == s.pool.index
    ensures t.pool.tables == s.pool.tables[r := t.pool.tables[r]] && t.pool.logical == s.pool.logical[r := pages]
    ensures t.pool.spec == s.pool.spec && s.pool.spec.Valid()
    ensures |t.pool.tables[r]| == s.pool.spec.TableSize(pages) && t.pool.LogicalOf(r) == pages && pages > 0
    ensures t.reqs[r].epoch == s.nextEpoch && t.reqs[r].rows == PageStart(s.C(), pages)
    ensures |s.page| == |s.content| == |s.pool.hashes|
    ensures Final(t) == Final(s)
  {
    hide LogOk, Drain, HitAt, Selected;
  }

  /** The admission count of published pages leaves at most the last page to re-check. */
  lemma AdmittedLo(s: Sys, t: Sys, r: ReqId, pages: nat)
    requires Admitted(s, t, r, pages)
    ensures t.reqs[r].lo <= pages <= |t.reqs[r].hs| && t.reqs[r].lo + 1 >= pages
    ensures PageStart(s.C(), t.reqs[r].lo) <= t.reqs[r].rows
  {
    hide LogOk, Selected;
    var rows := PageStart(s.C(), pages);
    var spec := s.pool.spec;
    var lo := t.reqs[r].lo;
    PagesIn(s.C(), spec.SafeTokens(rows), lo);
    PagesIn(s.C(), spec.SafeTokens(rows), pages - 1);
    PagesIn(s.C(), rows, pages + 1);
    PagesIn(s.C(), rows, lo);
    PageStartStrict(s.C(), pages, lo);
  }

  /** A slot of the admitted table holds the published block of its page, or is empty and old. */
  lemma AdmittedSlot(s: Sys, t: Sys, r: ReqId, pages: nat, i: nat)
    requires Admitted(s, t, r, pages) && Shape(t) && Sized(t, r) && i < |t.pool.tables[r]|
    ensures SlotPage(t, r, i) < pages <= |t.reqs[r].hs|
    ensures
      var page := SlotPage(t, r, i);
      if t.pool.tables[r][i].Some? then
        t.reqs[r].hs[page] in s.pool.index && t.pool.tables[r][i] == Some(s.pool.index[t.reqs[r].hs[page]])
      else page < t.reqs[r].lo
  {
    hide LogOk, Selected, PageAt;
    SelectedExact(s.pool, t.reqs[r].hs, pages, i);
    AdmittedLo(s, t, r, pages);
  }

  /** What the new request holds: a published block, on the page it is published for. */
  lemma AdmittedHolds(s: Sys, t: Sys, r: ReqId, pages: nat, i: int, b: nat)
    requires Admitted(s, t, r, pages) && Shape(t) && Indexed(s) && IndexOk(s.pool) && Holds(t, r, i, b)
    ensures SlotPage(t, r, i) < pages <= |t.reqs[r].hs|
    ensures s.page[b] == SlotPage(t, r, i) && s.pool.hashes[b].Some?
    ensures IsPage(Final(s)[b], t.reqs[r].hs[SlotPage(t, r, i)], s.C())
  {
    hide LogOk, Selected, PageAt, IsPage;
    AdmittedSlot(s, t, r, pages, i);
  }

  lemma AdmittedRest(s: Sys, t: Sys, r: ReqId, pages: nat)
    requires Admitted(s, t, r, pages) && Shape(t) && ViewsOk(s) && Placed(s) && HolesOld(s) && IndexOk(s.pool)
    requires Indexed(s) && Unwritten(s)
    ensures ViewsOk(t) && Placed(t) && HolesOld(t) && Indexed(t) && Unwritten(t)
  {
    hide LogOk, Selected, PageAt, Admitted, IsPage, Writes;
    AdmittedFields(s, t, r, pages);
    AdmittedView(s, t, r, pages);
    forall o, i, b: nat | Holds(t, o, i, b)
      ensures t.page[b] == SlotPage(t, o, i)
    {
      if o == r { AdmittedHolds(s, t, r, pages, i, b); } else { assert Holds(s, o, i, b); }
    }
    forall o, i | o in t.pool.tables && o in t.reqs && Sized(t, o) && 0 <= i < |t.pool.tables[o]| &&
      t.pool.tables[o][i].None?
      ensures SlotPage(t, o, i) < t.reqs[o].lo
    {
      if o == r {
        AdmittedSlot(s, t, r, pages, i);
      } else {
        assert Sized(s, o) && SlotPage(s, o, i) == SlotPage(t, o, i);
      }
    }
  }

  lemma AdmittedView(s: Sys, t: Sys, r: ReqId, pages: nat)
    requires Admitted(s, t, r, pages) && Shape(t) && ViewsOk(s)
    ensures ViewsOk(t)
  {
    hide LogOk, Selected, HitAt;
    AdmittedLo(s, t, r, pages);
  }

  lemma AdmittedClaims(s: Sys, t: Sys, r: ReqId, pages: nat)
    requires Admitted(s, t, r, pages) && Shape(t) && IndexOk(s.pool) && Indexed(s) && Computed(s) && Exclusive(s)
    ensures Computed(t) && Exclusive(t)
  {
    hide LogOk, Selected, PageAt, Admitted, IsPage;
    AdmittedFields(s, t, r, pages);
    assert forall o, e, k :: Poisoned(t, o, e, k) <==> Poisoned(s, o, e, k);
    forall o, i, b: nat | Holds(t, o, i, b)
      ensures !Poisoned(t, o, t.reqs[o].epoch, |t.log|) ==> PageDone(Final(t)[b], t.reqs[o], t.C(), SlotPage(t, o, i))
      ensures Open(t.reqs[o], t.C(), SlotPage(t, o, i)) ==>
        t.pool.hashes[b].None? && HeldOnlyBy(t, b, o, t.reqs[o].epoch)
    {
      if o == r {
        AdmittedHolds(s, t, r, pages, i, b);
        var page := SlotPage(t, r, i);
        PageStartMono(s.C(), page + 1, pages);
        assert PageStart(s.C(), page + 1) <= t.reqs[r].rows;
      } else {
        assert Holds(s, o, i, b) && SlotPage(t, o, i) == SlotPage(s, o, i);
        if s.pool.hashes[b].None? { AdmittedNotHeld(s, t, r, pages, b); }
      }
    }
  }

  /** The new request holds published blocks only. */
  lemma AdmittedNotHeld(s: Sys, t: Sys, r: ReqId, pages: nat, b: nat)
    requires Admitted(s, t, r, pages) && Shape(t) && IndexOk(s.pool) && Indexed(s)
    requires b < |s.pool.hashes| && s.pool.hashes[b].None?
    ensures r in t.pool.tables && Some(b) !in t.pool.tables[r]
  {
    hide LogOk, Selected, PageAt, Admitted, IsPage;
    AdmittedFields(s, t, r, pages);
    if Some(b) in t.pool.tables[r] {
      var i :| 0 <= i < |t.pool.tables[r]| && t.pool.tables[r][i] == Some(b);
      AdmittedHolds(s, t, r, pages, i, b);
    }
  }

  lemma AdmittedFlights(s: Sys, t: Sys, r: ReqId, pages: nat)
    requires Admitted(s, t, r, pages) && Shape(t) && ViewsOk(s) && IndexOk(s.pool) && Indexed(s)
    requires Unwritten(s) && Flights(s) && Pending(s) && Ordered(s)
    ensures Flights(t) && Pending(t) && Ordered(t)
  {
    hide Selected, PageAt, Admitted, IsPage, StepDone, Writes, OrderedAt;
    AdmittedFields(s, t, r, pages);
    assert forall o, e, k :: Poisoned(t, o, e, k) <==> Poisoned(s, o, e, k);
    assert forall j, k, b: nat :: WritesInto(t, j, k, b) <==> WritesInto(s, j, k, b);
    assert forall k :: 0 <= k < |s.log| && Alive(t, s.log[k]) ==> Alive(s, s.log[k]);
    forall k, b: nat, o | PendingAt(t, k, b, o)
      ensures Mine(t.log[k], o, t.reqs[o])
    {
      WritesOwnTable(s.log[k], s.C(), b);
      assert StepOk(s.log[k], s.C(), |s.content|);
      if o == r { AdmittedNotHeld(s, t, r, pages, b); } else { assert PendingAt(s, k, b, o); }
    }
  }

  lemma AdmittedKeeps(s: Sys, t: Sys, r: ReqId, pages: nat)
    requires SysInv(s) && Admitted(s, t, r, pages) && Inv(t.pool, Pins(t.log, t.settled))
    ensures SysInv(t)
  {
    hide Inv, Shape, ViewsOk, Placed, Indexed, Unwritten, HolesOld, Computed, Flights, Exclusive, Pending, Ordered,
      Admitted;
    AdmittedFields(s, t, r, pages);
    InvIndexOk(s.pool, Pins(s.log, s.settled));
    AdmittedRest(s, t, r, pages);
    AdmittedClaims(s, t, r, pages);
    AdmittedFlights(s, t, r, pages);
  }

  /** A cold admission only adds a view that promises nothing. */
  ghost predicate AdmittedCold(s: Sys, t: Sys, r: ReqId) {
    && r !in s.reqs && r in t.reqs
    && t == s.(reqs := s.reqs[r := t.reqs[r]], nextEpoch := s.nextEpoch + 1)
    && t.reqs[r] == View(s.nextEpoch, t.reqs[r].hs, 0, 0, 0) && Chained(t.reqs[r].hs)
  }

  lemma ColdRest(s: Sys, t: Sys, r: ReqId)
    requires Shape(s) && AdmittedCold(s, t, r) && ViewsOk(s) && Placed(s) && Indexed(s) && Unwritten(s) && HolesOld(s)
    ensures Shape(t) && ViewsOk(t) && Placed(t) && Indexed(t) && Unwritten(t) && HolesOld(t)
  {
    hide IsPage, Writes, LogOk;
    assert r !in s.pool.tables;
    assert Final(t) == Final(s);
    assert forall o, i, b: nat :: Holds(t, o, i, b) ==> Holds(s, o, i, b) && SlotPage(t, o, i) == SlotPage(s, o, i);
  }

  lemma ColdClaims(s: Sys, t: Sys, r: ReqId)
    requires Shape(s) && AdmittedCold(s, t, r) && ViewsOk(s)
    requires Computed(s) && Flights(s) && Exclusive(s) && Pending(s) && Ordered(s)
    ensures Shape(t) && Computed(t) && Flights(t) && Exclusive(t) && Pending(t) && Ordered(t)
  {
    hide StepDone, IsPage, Writes, OrderedAt, LogOk, PageDone, Open;
    assert r !in s.pool.tables;
    assert Final(t) == Final(s);
    assert forall o, e, k :: Poisoned(t, o, e, k) <==> Poisoned(s, o, e, k);
    assert forall o, i, b: nat :: Holds(t, o, i, b) ==> Holds(s, o, i, b) && SlotPage(t, o, i) == SlotPage(s, o, i);
    assert forall j, k, b: nat :: WritesInto(t, j, k, b) <==> WritesInto(s, j, k, b);
    assert forall k, b: nat, o :: PendingAt(t, k, b, o) ==> PendingAt(s, k, b, o);
    assert forall k :: 0 <= k < |s.log| && Alive(t, s.log[k]) ==> Alive(s, s.log[k]);
  }

  lemma ColdKeeps(s: Sys, t: Sys, r: ReqId)
    requires SysInv(s) && AdmittedCold(s, t, r)
    ensures SysInv(t)
  {
    hide Inv, Shape, ViewsOk, Placed, Indexed, Unwritten, HolesOld, Computed, Flights, Exclusive, Pending, Ordered;
    ColdRest(s, t, r);
    ColdClaims(s, t, r);
  }

  lemma AdmitKeeps(s: Sys, r: ReqId, hs: seq<Hash>, pages: nat)
    requires SysInv(s) && DoAdmit(s, r, hs, pages).Some?
    ensures SysInv(DoAdmit(s, r, hs, pages).value)
  {
    hide SysInv, Inv, Selected, HitAt, LogOk, Attach, SelectFrom;
    PoolInv(s);
    var t := DoAdmit(s, r, hs, pages).value;
    if pages == 0 {
      ColdKeeps(s, t, r);
    } else {
      var pins := Pins(s.log, s.settled);
      InvIndexOk(s.pool, pins);
      SelectedInjective(s.pool, hs, pages);
      HitFits(s.pool, hs, pages);
      PoolOperations.AttachInv(s.pool, pins, r, Selected(s.pool, hs, pages), pages);
      AdmittedKeeps(s, t, r, pages);
    }
  }

  /** After a prefix hit, every page the request needs to resume - its whole window, or all pages
      of a full history - is in its slot of the table, and the block there holds that page. */
  lemma AdmitHoldsWindow(s: Sys, r: ReqId, hs: seq<Hash>, pages: nat, page: nat)
    requires SysInv(s) && pages > 0 && DoAdmit(s, r, hs, pages).Some?
    requires page < pages && (s.pool.spec.window.Some? ==> page + s.pool.spec.window.value >= pages)
    ensures
      var t := DoAdmit(s, r, hs, pages).value;
      && Shape(t) && page < |hs| && r in t.pool.tables && r in t.pool.logical
      && t.pool.logical[r] == pages && t.reqs[r].rows == PageStart(s.C(), pages)
      && |t.pool.tables[r]| == (if s.pool.spec.window.Some? then Min(pages, s.pool.spec.maxBlocks) else pages)
      && |t.pool.tables[r]| > 0
      && var slot := t.pool.tables[r][page % |t.pool.tables[r]|];
         slot.Some? && slot.value < |Final(t)| && IsPage(Final(t)[slot.value], hs[page], s.C())
  {
    hide Inv, Selected, HitAt, Attach, SelectFrom, IsPage, Placed, ViewsOk, Unwritten, HolesOld, Computed, Flights;
    hide Exclusive, Pending, Ordered, LogOk, Drain;
    PoolInv(s);
    var t := DoAdmit(s, r, hs, pages).value;
    var pins := Pins(s.log, s.settled);
    InvIndexOk(s.pool, pins);
    SelectedInjective(s.pool, hs, pages);
    HitFits(s.pool, hs, pages);
    PoolOperations.AttachInv(s.pool, pins, r, Selected(s.pool, hs, pages), pages);
    HitHoldsWindow(s.pool, hs, pages, page);
    assert Final(t) == Final(s);
  }
}
