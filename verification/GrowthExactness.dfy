/** `ensure_group_blocks` is all-or-nothing. `_additional_group_blocks` predicts, before
    anything is touched, exactly how many blocks the growth of one request consumes: growth
    succeeds if and only if that many blocks are free, and then the free queue is shorter by
    exactly that many - even when the growth wraps the ring several times over shared,
    sole-owned and empty slots. */
module GrowthExactness {
  import opened CacheTypes
  import opened GroupPool
  import opened RefConservation

  // ---- what the invariant says about one request ----

  lemma SpecOk(p: Pool, pins: multiset<nat>)
    requires Inv(p, pins)
    ensures p.spec.Valid()
  {
  }

  lemma SizeOk(p: Pool, pins: multiset<nat>, r: ReqId)
    requires Inv(p, pins) && r in p.tables
    ensures r in p.logical && p.spec.Valid() && Core(p, pins)
    ensures |p.tables[r]| == p.spec.TableSize(p.logical[r]) && InRange(p.tables[r], |p.refs|)
    ensures p.spec.window.None? ==> NoHoles(p.tables[r]) && p.logical[r] <= p.spec.maxBlocks
  {
  }

  // ---- one block at a time ----

  lemma PutShared(p: Pool, pins: multiset<nat>, r: ReqId, slot: nat)
    requires Core(p, pins) && r in p.tables && slot < |p.tables[r]| && p.tables[r][slot].None?
    requires |p.free| > 0
    ensures Put(p, r, slot).Some?
    ensures
      var q := Put(p, r, slot).value;
      && q.tables == p.tables[r := p.tables[r][slot := Some(p.free[0])]]
      && |q.free| == |p.free| - 1
      && !IsSharedSlot(q, q.tables[r], slot)
      && (forall s: nat :: s != slot ==> (IsSharedSlot(q, q.tables[r], s) <==> IsSharedSlot(p, p.tables[r], s)))
  {
    TakeExact(p, pins);
    var b := p.free[0];
    var q := Put(p, r, slot).value;
    forall s: nat | s != slot
      ensures IsSharedSlot(q, q.tables[r], s) <==> IsSharedSlot(p, p.tables[r], s)
    {
      if s < |p.tables[r]| && p.tables[r][s].Some? {
        OwnedIsReferenced(p, pins, r, s);
      }
    }
  }

  lemma DropShared(p: Pool, pins: multiset<nat>, r: ReqId, slot: nat)
    requires Core(p, pins) && r in p.tables && slot < |p.tables[r]| && p.tables[r][slot].Some?
    ensures
      var q := Drop(p, r, slot);
      && |q.free| == |p.free| + (if IsSharedSlot(p, p.tables[r], slot) then 0 else 1)
      && (forall s: nat :: s != slot ==> (IsSharedSlot(q, q.tables[r], s) <==> IsSharedSlot(p, p.tables[r], s)))
  {
    DropCore(p, pins, r, slot);
    OwnedIsReferenced(p, pins, r, slot);
    var t := p.tables[r];
    assert forall s :: 0 <= s < |t| && s != slot && t[s].Some? ==> t[s] != t[slot];
  }

  lemma {:induction false} FillHolesExact(p: Pool, pins: multiset<nat>, r: ReqId, slot: nat, size: nat)
    requires Core(p, pins) && r in p.tables && slot <= size <= |p.tables[r]|
    ensures FillHoles(p, r, slot, size).Some? <==> Holes(p.tables[r][slot..size]) <= |p.free|
    ensures FillHoles(p, r, slot, size).Some? ==>
      var q := FillHoles(p, r, slot, size).value;
      && Core(q, pins)
      && |q.free| == |p.free| - Holes(p.tables[r][slot..size])
      && q.tables == p.tables[r := q.tables[r]]
      && (forall s :: 0 <= s < |p.tables[r]| && !(slot <= s < size && p.tables[r][s].None?) ==>
        q.tables[r][s] == p.tables[r][s])
      && (forall s :: slot <= s < size ==> q.tables[r][s].Some?)
      && (forall s: nat :: IsSharedSlot(q, q.tables[r], s) <==> IsSharedSlot(p, p.tables[r], s))
    decreases size - slot
  {
    hide Core;
    if slot < size {
      var t := p.tables[r];
      assert t[slot..size][1..] == t[slot + 1..size];
      if t[slot].Some? {
        FillHolesExact(p, pins, r, slot + 1, size);
      } else {
        PutCore(p, pins, r, slot);
        if |p.free| > 0 {
          PutShared(p, pins, r, slot);
          var q := Put(p, r, slot).value;
          assert q.tables[r][slot + 1..size] == t[slot + 1..size];
          FillHolesExact(q, pins, r, slot + 1, size);
        }
      }
    }
  }

  // ---- one page at a time ----

  lemma LogicalCore(p: Pool, pins: multiset<nat>, r: ReqId, pages: nat)
    requires Core(p, pins) && r in p.logical
    ensures Core(p.(logical := p.logical[r := pages]), pins)
  {
  }

  lemma ExtendCore(p: Pool, pins: multiset<nat>, r: ReqId)
    requires Core(p, pins) && r in p.tables
    ensures Core(p.(tables := p.tables[r := p.tables[r] + [None]]), pins)
  {
    var t := p.tables[r];
    assert forall b: nat :: Some(b) in t + [None] <==> Some(b) in t;
    assert p.tables[r := t + [None]].Keys == p.tables.Keys;
    RetableCore(p, pins, p.tables[r := t + [None]], p.logical);
  }

  /** `q` is `p` after `r` grew to `pages` pages without holes, for `cost` free blocks. */
  ghost predicate Grown(p: Pool, q: Pool, pins: multiset<nat>, r: ReqId, pages: nat, cost: nat) {
    && Inv(q, pins)
    && q.spec == p.spec && |q.refs| == |p.refs|
    && r in q.tables && NoHoles(q.tables[r]) && |q.tables[r]| == p.spec.TableSize(pages)
    && q.tables == p.tables[r := q.tables[r]]
    && q.logical == p.logical[r := pages]
    && |q.free| + cost == |p.free|
  }

  lemma GrownTrans(p: Pool, q: Pool, s: Pool, pins: multiset<nat>, r: ReqId, m: nat, n: nat, c: nat, d: nat)
    requires Grown(p, q, pins, r, m, c) && Grown(q, s, pins, r, n, d)
    ensures Grown(p, s, pins, r, n, c + d)
  {
    hide Inv, NoHoles;
    assert s.tables == p.tables[r := s.tables[r]];
  }

  /** Growing from `p` to `q` touched the ring slot `slot` only: it is sole-owned now. */
  ghost predicate OnlySlotTaken(p: Pool, q: Pool, r: ReqId, slot: nat) {
    && !IsSharedSlot(q, q.TableOf(r), slot)
    && (forall s: nat :: s != slot ==> (IsSharedSlot(q, q.TableOf(r), s) <==> IsSharedSlot(p, p.TableOf(r), s)))
  }

  lemma AddSlotExact(p: Pool, pins: multiset<nat>, r: ReqId)
    requires Inv(p, pins) && r in p.tables && r in p.logical && NoHoles(p.tables[r])
    requires p.spec.window.None? || p.logical[r] < p.spec.maxBlocks
    requires p.spec.window.None? ==> p.logical[r] < p.spec.maxBlocks
    ensures AddPage(p, r).Some? <==> |p.free| > 0
    ensures AddPage(p, r).Some? ==>
      && Grown(p, AddPage(p, r).value, pins, r, p.logical[r] + 1, 1)
      && OnlySlotTaken(p, AddPage(p, r).value, r, p.logical[r])
  {
    hide Core, Inv, RingSlot, Put, SizesOk, Grown;
    var page, t := p.logical[r], p.tables[r];
    SizeOk(p, pins, r);
    var p1 := p.(tables := p.tables[r := t + [None]]);
    ExtendCore(p, pins, r);
    PutCore(p1, pins, r, page);
    if |p.free| > 0 {
      PutShared(p1, pins, r, page);
      ExtendShared(p, p1, r);
      GrownByPut(p, p1, pins, r, page, 1);
    }
  }

  lemma GrownByPut(p: Pool, p1: Pool, pins: multiset<nat>, r: ReqId, slot: nat, cost: nat)
    requires Inv(p, pins) && r in p.tables && r in p.logical && NoHoles(p.tables[r])
    requires r in p1.tables && slot < |p1.tables[r]| && Put(p1, r, slot).Some?
    requires p1.spec == p.spec && p1.logical == p.logical && |p1.refs| == |p.refs|
    requires p1.tables == p.tables[r := p1.tables[r]] && |p1.tables[r]| == p.spec.TableSize(p.logical[r] + 1)
    requires forall s :: 0 <= s < |p1.tables[r]| && s != slot ==> p1.tables[r][s].Some?
    requires p.spec.window.None? ==> p.logical[r] < p.spec.maxBlocks
    requires
      var q := Put(p1, r, slot).value;
      && Core(q, pins) && |q.free| + cost == |p.free|
      && q.tables == p1.tables[r := p1.tables[r][slot := Some(p1.free[0])]]
    ensures
      var q := Put(p1, r, slot).value;
      Grown(p, q.(logical := q.logical[r := p.logical[r] + 1]), pins, r, p.logical[r] + 1, cost)
  {
    hide Core, Put;
    SizeOk(p, pins, r);
    var q := Put(p1, r, slot).value;
    LogicalCore(q, pins, r, p.logical[r] + 1);
    assert q.tables == p.tables[r := q.tables[r]];
  }

  lemma ExtendShared(p: Pool, q: Pool, r: ReqId)
    requires r in p.tables && q == p.(tables := p.tables[r := p.tables[r] + [None]])
    ensures forall s: nat :: IsSharedSlot(q, q.tables[r], s) <==> IsSharedSlot(p, p.tables[r], s)
  {
  }

  lemma RotateExact(p: Pool, pins: multiset<nat>, r: ReqId)
    requires Inv(p, pins) && r in p.tables && r in p.logical && NoHoles(p.tables[r])
    requires p.spec.window.Some? && p.logical[r] >= p.spec.maxBlocks
    ensures
      var slot := RingSlot(p.logical[r], p.spec.maxBlocks);
      var cost := if IsSharedSlot(p, p.tables[r], slot) then 1 else 0;
      && (AddPage(p, r).Some? <==> cost <= |p.free|)
      && (AddPage(p, r).Some? ==>
            && Grown(p, AddPage(p, r).value, pins, r, p.logical[r] + 1, cost)
            && OnlySlotTaken(p, AddPage(p, r).value, r, slot))
  {
    hide Core, Inv, RingSlot, Put, Drop, SizesOk, Grown;
    var page, t := p.logical[r], p.tables[r];
    SizeOk(p, pins, r);
    var slot := RingSlot(page, p.spec.maxBlocks);
    DropCore(p, pins, r, slot);
    DropShared(p, pins, r, slot);
    var p1 := Drop(p, r, slot);
    PutCore(p1, pins, r, slot);
    if |p1.free| > 0 {
      PutShared(p1, pins, r, slot);
      GrownByPut(p, p1, pins, r, slot, if IsSharedSlot(p, t, slot) then 1 else 0);
    }
  }

  /** What growing to `target` pages costs, once there are no empty slots left. */
  function PagesCost(p: Pool, r: ReqId, target: nat): nat
    requires p.spec.Valid()
  {
    Max(0, p.spec.TableSize(target) - |p.TableOf(r)|)
    + (if p.spec.window.None? then 0 else |SharedSlots(p, p.TableOf(r), p.LogicalOf(r), target)|)
  }

  lemma {:induction false} SharedSlotsAreShared(p: Pool, t: Table, lo: nat, hi: nat)
    requires p.spec.Valid()
    ensures forall s :: s in SharedSlots(p, t, lo, hi) ==> IsSharedSlot(p, t, s)
    decreases hi - lo
  {
    hide IsSharedSlot, RingSlot;
    if lo < hi { SharedSlotsAreShared(p, t, lo + 1, hi); }
  }

  lemma {:induction false} SharedSlotsTaken(p: Pool, q: Pool, r: ReqId, slot: nat, lo: nat, hi: nat)
    requires p.spec.Valid() && q.spec == p.spec && OnlySlotTaken(p, q, r, slot)
    ensures SharedSlots(q, q.TableOf(r), lo, hi) == SharedSlots(p, p.TableOf(r), lo, hi) - {slot}
    decreases hi - lo
  {
    hide IsSharedSlot, RingSlot;
    if lo < hi { SharedSlotsTaken(p, q, r, slot, lo + 1, hi); }
  }

  lemma {:induction false} SharedSlotsFrame(p: Pool, q: Pool, t: Table, u: Table, lo: nat, hi: nat)
    requires p.spec.Valid() && q.spec == p.spec
    requires forall s: nat :: IsSharedSlot(q, u, s) <==> IsSharedSlot(p, t, s)
    ensures SharedSlots(q, u, lo, hi) == SharedSlots(p, t, lo, hi)
    decreases hi - lo
  {
    hide IsSharedSlot, RingSlot;
    if lo < hi { SharedSlotsFrame(p, q, t, u, lo + 1, hi); }
  }

  /** Taking the slot of `page` removes it from the shared slots still ahead. */
  lemma SharedSlotsHead(p: Pool, t: Table, page: nat, target: nat)
    requires p.spec.Valid() && page < target
    ensures
      var slot := RingSlot(page, p.spec.maxBlocks);
      |SharedSlots(p, t, page, target)|
      == |SharedSlots(p, t, page + 1, target) - {slot}| + (if IsSharedSlot(p, t, slot) then 1 else 0)
  {
    hide IsSharedSlot, RingSlot;
    SharedSlotsAreShared(p, t, page + 1, target);
    var slot := RingSlot(page, p.spec.maxBlocks);
    var later := SharedSlots(p, t, page + 1, target);
    if IsSharedSlot(p, t, slot) {
      assert SharedSlots(p, t, page, target) == {slot} + (later - {slot});
    } else {
      assert SharedSlots(p, t, page, target) == later - {slot};
    }
  }

  /** Growth by one page pays its own part of the predicted cost, and no more. */
  lemma SlotCostStep(p: Pool, pins: multiset<nat>, r: ReqId, target: nat)
    requires Inv(p, pins) && r in p.tables && r in p.logical && NoHoles(p.tables[r]) && p.logical[r] < target
    requires p.spec.window.None? || p.logical[r] < p.spec.maxBlocks
    requires p.spec.window.None? ==> target <= p.spec.maxBlocks
    ensures PagesCost(p, r, target) >= 1
    ensures AddPage(p, r).Some? ==> PagesCost(AddPage(p, r).value, r, target) == PagesCost(p, r, target) - 1
  {
    hide Core, SizesOk, AddPage, NoHoles, Inv, SharedSlots;
    var page := p.logical[r];
    AddSlotExact(p, pins, r);
    SizeOk(p, pins, r);
    if p.spec.window.Some? {
      SharedSlotsHead(p, p.tables[r], page, target);
      if AddPage(p, r).Some? {
        SharedSlotsTaken(p, AddPage(p, r).value, r, page, page + 1, target);
      }
    }
  }

  lemma FullRingCost(p: Pool, pins: multiset<nat>, r: ReqId, target: nat)
    requires Inv(p, pins) && r in p.tables && r in p.logical
    requires p.spec.window.Some? && p.logical[r] >= p.spec.maxBlocks
    ensures p.spec.Valid()
    ensures PagesCost(p, r, target) == |SharedSlots(p, p.tables[r], p.logical[r], target)|
  {
    hide Core, SharedSlots;
    SizeOk(p, pins, r);
  }

  lemma RotateCostStep(p: Pool, pins: multiset<nat>, r: ReqId, target: nat)
    requires Inv(p, pins) && r in p.tables && r in p.logical && NoHoles(p.tables[r]) && p.logical[r] < target
    requires p.spec.window.Some? && p.logical[r] >= p.spec.maxBlocks
    ensures
      var cost := if IsSharedSlot(p, p.tables[r], RingSlot(p.logical[r], p.spec.maxBlocks)) then 1 else 0;
      && PagesCost(p, r, target) >= cost
      && (AddPage(p, r).Some? ==> PagesCost(AddPage(p, r).value, r, target) == PagesCost(p, r, target) - cost)
  {
    hide Core, SizesOk, AddPage, NoHoles, IsSharedSlot, RingSlot, Inv, PagesCost, SharedSlots;
    var page := p.logical[r];
    SpecOk(p, pins);
    FullRingCost(p, pins, r, target);
    var slot := RingSlot(page, p.spec.maxBlocks);
    RotateExact(p, pins, r);
    SizeOk(p, pins, r);
    SharedSlotsHead(p, p.tables[r], page, target);
    if AddPage(p, r).Some? {
      FullRingCost(AddPage(p, r).value, pins, r, target);
      SharedSlotsTaken(p, AddPage(p, r).value, r, slot, page + 1, target);
    }
  }

  lemma PagesCostStep(p: Pool, pins: multiset<nat>, r: ReqId, target: nat)
    requires Inv(p, pins) && r in p.tables && r in p.logical && NoHoles(p.tables[r]) && p.logical[r] < target
    requires p.spec.window.None? ==> target <= p.spec.maxBlocks
    ensures AddPage(p, r).None? ==> PagesCost(p, r, target) > |p.free|
    ensures AddPage(p, r).Some? ==>
      var q := AddPage(p, r).value;
      var cost := PagesCost(p, r, target) - PagesCost(q, r, target);
      cost >= 0 && Grown(p, q, pins, r, p.logical[r] + 1, cost)
  {
    hide Core, SizesOk, AddPage, NoHoles, IsSharedSlot, RingSlot, PagesCost, Grown, Inv;
    SpecOk(p, pins);
    if p.spec.window.None? || p.logical[r] < p.spec.maxBlocks {
      AddSlotExact(p, pins, r);
      SlotCostStep(p, pins, r, target);
    } else {
      RotateExact(p, pins, r);
      RotateCostStep(p, pins, r, target);
    }
  }

  lemma PagesCostZero(p: Pool, pins: multiset<nat>, r: ReqId)
    requires Inv(p, pins) && r in p.tables && r in p.logical && NoHoles(p.tables[r])
    ensures PagesCost(p, r, p.logical[r]) == 0
    ensures Grown(p, p, pins, r, p.logical[r], 0)
  {
    hide Core;
    SizeOk(p, pins, r);
    assert p.tables == p.tables[r := p.tables[r]] && p.logical == p.logical[r := p.logical[r]];
  }

  lemma GrownFacts(p: Pool, q: Pool, pins: multiset<nat>, r: ReqId, pages: nat, cost: nat)
    requires Grown(p, q, pins, r, pages, cost)
    ensures Inv(q, pins) && r in q.tables && r in q.logical && NoHoles(q.tables[r])
    ensures q.spec == p.spec && q.logical[r] == pages && |q.free| + cost == |p.free|
  {
  }

  lemma {:induction false} AddPagesExact(p: Pool, pins: multiset<nat>, r: ReqId, target: nat)
    requires Inv(p, pins) && r in p.tables && r in p.logical && NoHoles(p.tables[r]) && p.logical[r] <= target
    requires p.spec.window.None? ==> target <= p.spec.maxBlocks
    ensures AddPages(p, r, target).Some? <==> PagesCost(p, r, target) <= |p.free|
    ensures AddPages(p, r, target).Some? ==>
      Grown(p, AddPages(p, r, target).value, pins, r, target, PagesCost(p, r, target))
    decreases target - p.logical[r]
  {
    hide Core, SizesOk, Inv, Grown, AddPage, NoHoles, PagesCost;
    SpecOk(p, pins);
    PagesCostZero(p, pins, r);
    if p.logical[r] < target {
      PagesCostStep(p, pins, r, target);
      if AddPage(p, r).Some? {
        var q := AddPage(p, r).value;
        var cost := PagesCost(p, r, target) - PagesCost(q, r, target);
        GrownFacts(p, q, pins, r, p.logical[r] + 1, cost);
        AddPagesExact(q, pins, r, target);
        if AddPages(q, r, target).Some? {
          GrownTrans(p, q, AddPages(q, r, target).value, pins, r, p.logical[r] + 1, target,
                     cost, PagesCost(q, r, target));
        }
      }
    }
  }

  // ---- the whole growth ----

  lemma OpenedInv(p: Pool, pins: multiset<nat>, r: ReqId)
    requires Inv(p, pins)
    ensures Inv(Opened(p, r), pins)
    ensures r in p.tables ==> Opened(p, r) == p
    ensures Opened(p, r).tables[r] == p.TableOf(r) && Opened(p, r).logical[r] == p.LogicalOf(r)
  {
    var q := Opened(p, r);
    if r in p.tables {
      assert q.tables == p.tables && q.logical == p.logical;
    } else {
      RetableCore(p, pins, q.tables, q.logical);
    }
  }

  lemma NoHolesCount(t: Table)
    ensures NoHoles(t) <==> Holes(t) == 0
  {
    if t != [] {
      NoHolesCount(t[1..]);
      assert t == [t[0]] + t[1..];
    }
  }

  lemma OpenedShared(p: Pool, pins: multiset<nat>, r: ReqId, hi: nat)
    requires Inv(p, pins)
    ensures
      var q := Opened(p, r);
      && p.spec.Valid() && q.spec == p.spec
      && SharedSlots(q, q.tables[r], q.logical[r], hi) == SharedSlots(p, p.TableOf(r), p.LogicalOf(r), hi)
  {
    SharedSlotsFrame(p, Opened(p, r), p.TableOf(r), p.TableOf(r), p.LogicalOf(r), hi);
  }

  /** `Additional` in terms of the two phases of growth. */
  lemma AdditionalSplits(p: Pool, pins: multiset<nat>, r: ReqId, target: nat)
    requires Inv(p, pins) && p.LogicalOf(r) <= target
    requires p.spec.window.None? ==> target <= p.spec.maxBlocks
    ensures
      var q := Opened(p, r);
      Additional(p, r, target) == Holes(q.tables[r]) + PagesCost(q, r, target)
  {
    hide Core, SharedSlots;
    var t := p.TableOf(r);
    if r in p.tables { SizeOk(p, pins, r); }
    OpenedInv(p, pins, r);
    OpenedShared(p, pins, r, target);
    assert t[..|t|] == t;
    NoHolesCount(t);
  }

  lemma GrowUnfold(p: Pool, r: ReqId, target: nat)
    requires p.spec.Valid() && p.spec.TableSize(target) >= |p.TableOf(r)|
    ensures
      var q := Opened(p, r);
      var f := FillHoles(q, r, 0, |q.tables[r]|);
      Grow(p, r, target) == if f.None? then None else AddPages(f.value, r, target)
  {
  }

  lemma GrownFromOpened(p: Pool, q: Pool, s: Pool, pins: multiset<nat>, r: ReqId, pages: nat, holes: nat, cost: nat)
    requires Grown(q, s, pins, r, pages, cost) && |q.free| + holes == |p.free|
    requires r in q.tables && q.tables == Opened(p, r).tables[r := q.tables[r]]
    requires q.logical == Opened(p, r).logical && q.spec == p.spec && |q.refs| == |p.refs|
    ensures Grown(p, s, pins, r, pages, holes + cost)
  {
    hide Inv, NoHoles;
    assert s.tables == p.tables[r := s.tables[r]];
    assert s.logical == p.logical[r := pages];
  }

  lemma FilledSizes(q0: Pool, q1: Pool, pins: multiset<nat>, r: ReqId)
    requires Inv(q0, pins) && Core(q1, pins) && r in q0.tables && r in q1.tables
    requires q1.spec == q0.spec && q1.logical == q0.logical
    requires q1.tables == q0.tables[r := q1.tables[r]] && |q1.tables[r]| == |q0.tables[r]|
    requires NoHoles(q1.tables[r])
    ensures Inv(q1, pins)
  {
    hide Core;
  }

  /** The main result: `_additional_group_blocks` is exact. */
  lemma GrowExact(p: Pool, pins: multiset<nat>, r: ReqId, target: nat)
    requires Inv(p, pins) && p.LogicalOf(r) <= target
    requires p.spec.window.None? ==> target <= p.spec.maxBlocks
    ensures Grow(p, r, target).Some? <==> Additional(p, r, target) <= |p.free|
    ensures Grow(p, r, target).Some? ==>
      Grown(p, Grow(p, r, target).value, pins, r, target, Additional(p, r, target))
  {
    hide Core, Inv, SizesOk, IsSharedSlot, SharedSlots, Holes, AddPages, FillHoles, Grow, Additional, Grown;
    SpecOk(p, pins);
    OpenedInv(p, pins, r);
    var q0 := Opened(p, r);
    var t := q0.tables[r];
    SizeOk(q0, pins, r);
    GrowUnfold(p, r, target);
    AdditionalSplits(p, pins, r, target);
    assert t[0..|t|] == t;
    FillHolesExact(q0, pins, r, 0, |t|);
    if FillHoles(q0, r, 0, |t|).Some? {
      var q1 := FillHoles(q0, r, 0, |t|).value;
      FilledSizes(q0, q1, pins, r);
      SharedSlotsFrame(q0, q1, t, q1.tables[r], p.LogicalOf(r), target);
      AddPagesExact(q1, pins, r, target);
      if AddPages(q1, r, target).Some? {
        GrownFromOpened(p, q1, AddPages(q1, r, target).value, pins, r, target, Holes(t), PagesCost(q1, r, target));
      }
    }
  }

  /** A request whose table already covers `target` pages only fills its empty slots. */
  lemma GrowCovered(p: Pool, pins: multiset<nat>, r: ReqId, target: nat)
    requires Inv(p, pins) && target < p.LogicalOf(r)
    ensures Grow(p, r, target).Some? <==> Additional(p, r, target) <= |p.free|
    ensures Grow(p, r, target).Some? ==>
      var q := Grow(p, r, target).value;
      Inv(q, pins) && q.logical == p.logical && |q.free| + Additional(p, r, target) == |p.free|
  {
    var q0 := Opened(p, r);
    OpenedInv(p, pins, r);
    var t := p.tables[r];
    var size := p.spec.TableSize(target);
    assert p.spec.Valid() && size <= |t| && t[0..size] == t[..size];
    assert p.spec.window.None? ==> NoHoles(t[..size]);
    NoHolesCount(t[..size]);
    FillHolesExact(p, pins, r, 0, size);
    hide Core, Holes;
  }

  /** A full-history request beyond its table never fits, however many blocks are free. */
  lemma OversizedNeverFits(p: Pool, pins: multiset<nat>, r: ReqId, target: nat)
    requires Inv(p, pins) && p.spec.window.None? && target > p.spec.maxBlocks
    ensures p.spec.Valid() && Additional(p, r, target) > |p.free|
  {
    assert forall i :: 0 <= i < |p.free| ==> p.free[i] in p.free;
    QueueFits(p.free, |p.refs|);
  }

  lemma {:induction false} QueueFits(free: seq<nat>, n: nat)
    requires NoDuplicates(free) && forall i :: 0 <= i < |free| ==> free[i] < n
    ensures |free| <= n
    decreases n
  {
    if free != [] {
      assert free[0] < n;
      if i :| 0 <= i < |free| && free[i] == n - 1 {
        QueueFits(free[..i] + free[i + 1..], n - 1);
      } else {
        QueueFits(free, n - 1);
      }
    }
  }
}
