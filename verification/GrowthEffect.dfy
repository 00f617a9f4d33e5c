/** What growing one request does to every block: each slot of the grown table either keeps the
    block it had, for the same logical page, or holds a block that nobody else - no other
    request and no step in flight - referred to, with its old hash forgotten. Hash entries can
    only disappear. */
module GrowthEffect {
  import opened CacheTypes
  import opened GroupPool
  import opened RefConservation
  import opened RingArithmetic
  import opened GrowthExactness

  ghost predicate Sized(p: Pool, r: ReqId) {
    r in p.tables && r in p.logical && |p.tables[r]| <= p.logical[r]
  }

  ghost function SlotPage(p: Pool, r: ReqId, slot: nat): nat
    requires Sized(p, r) && slot < |p.tables[r]|
  {
    PageAt(p.logical[r], |p.tables[r]|, slot)
  }

  /** Slot `slot` of `r` has the same block and the same page in `p` and `q`. */
  ghost predicate Kept(p: Pool, q: Pool, r: ReqId, slot: nat)
    requires Sized(p, r) && Sized(q, r) && slot < |q.tables[r]|
  {
    && slot < |p.tables[r]|
    && q.tables[r][slot] == p.tables[r][slot]
    && SlotPage(q, r, slot) == SlotPage(p, r, slot)
  }

  /** Block `b` was at most `r`'s own, and nothing is known about its content. */
  ghost predicate Unshared(p: Pool, q: Pool, pins: multiset<nat>, r: ReqId, b: nat) {
    && pins[b] == 0
    && (forall o :: o in p.tables && o != r ==> Some(b) !in p.tables[o])
    && b < |q.hashes| && q.hashes[b].None?
  }

  /** Slot `slot` of `r` got a fresh block, for a new page or for a page that had none. */
  ghost predicate Fresh(p: Pool, q: Pool, pins: multiset<nat>, r: ReqId, slot: nat)
    requires Sized(p, r) && Sized(q, r) && slot < |q.tables[r]|
  {
    && q.tables[r][slot].Some?
    && Unshared(p, q, pins, r, q.tables[r][slot].value)
    && (SlotPage(q, r, slot) >= p.logical[r]
        || (slot < |p.tables[r]| && p.tables[r][slot].None? && SlotPage(q, r, slot) == SlotPage(p, r, slot)))
  }

  ghost predicate HashesShrink(p: Pool, q: Pool) {
    && |q.hashes| == |p.hashes|
    && (forall b :: 0 <= b < |p.hashes| ==> q.hashes[b] == p.hashes[b] || q.hashes[b].None?)
    && (forall h :: h in q.index ==> h in p.index && q.index[h] == p.index[h])
  }

  /** The whole effect of growth from `p` to `q`. */
  ghost predicate GrewTo(p: Pool, q: Pool, pins: multiset<nat>, r: ReqId) {
    && Sized(p, r) && Sized(q, r) && p.logical[r] <= q.logical[r]
    && q.tables == p.tables[r := q.tables[r]] && q.logical == p.logical[r := q.logical[r]]
    && q.spec == p.spec && |q.refs| == |p.refs|
    && HashesShrink(p, q)
    && (forall s :: 0 <= s < |q.tables[r]| ==> Kept(p, q, r, s) || Fresh(p, q, pins, r, s))
  }

  lemma GrewRefl(p: Pool, pins: multiset<nat>, r: ReqId)
    requires Sized(p, r)
    ensures GrewTo(p, p, pins, r)
  {
    assert p.tables == p.tables[r := p.tables[r]] && p.logical == p.logical[r := p.logical[r]];
    forall s | 0 <= s < |p.tables[r]|
      ensures Kept(p, p, r, s)
    {
    }
  }

  lemma GrewTrans(p: Pool, q: Pool, u: Pool, pins: multiset<nat>, r: ReqId)
    requires GrewTo(p, q, pins, r) && GrewTo(q, u, pins, r)
    ensures GrewTo(p, u, pins, r)
  {
    hide SlotPage;
    assert u.tables == p.tables[r := u.tables[r]] && u.logical == p.logical[r := u.logical[r]];
    forall s | 0 <= s < |u.tables[r]|
      ensures Kept(p, u, r, s) || Fresh(p, u, pins, r, s)
    {
      GrewTransAt(p, q, u, pins, r, s);
    }
  }

  lemma GrewTransAt(p: Pool, q: Pool, u: Pool, pins: multiset<nat>, r: ReqId, s: nat)
    requires GrewTo(p, q, pins, r) && GrewTo(q, u, pins, r) && s < |u.tables[r]|
    ensures Kept(p, u, r, s) || Fresh(p, u, pins, r, s)
  {
    hide SlotPage;
    assert Kept(q, u, r, s) || Fresh(q, u, pins, r, s);
    assert s < |q.tables[r]| ==> Kept(p, q, r, s) || Fresh(p, q, pins, r, s);
    assert forall o :: o in p.tables && o != r ==> o in q.tables && q.tables[o] == p.tables[o];
  }

  /** A block taken from the queue fits the description. */
  lemma PutEffect(p: Pool, pins: multiset<nat>, r: ReqId, slot: nat)
    requires Core(p, pins) && r in p.tables && slot < |p.tables[r]| && p.tables[r][slot].None?
    requires |p.free| > 0
    ensures Put(p, r, slot).Some?
    ensures
      var q := Put(p, r, slot).value;
      var b := p.free[0];
      && q.tables == p.tables[r := p.tables[r][slot := Some(b)]]
      && HashesShrink(p, q)
      && pins[b] == 0 && b < |q.hashes| && q.hashes[b].None?
      && (forall o :: o in p.tables ==> Some(b) !in p.tables[o])
  {
    TakeExact(p, pins);
    Unowned(p.tables, p.free[0]);
  }

  lemma FillEffect(p: Pool, pins: multiset<nat>, r: ReqId, slot: nat)
    requires Core(p, pins) && Sized(p, r) && slot < |p.tables[r]| && p.tables[r][slot].None?
    requires |p.free| > 0
    ensures Put(p, r, slot).Some? && GrewTo(p, Put(p, r, slot).value, pins, r)
  {
    hide Core, PageAt, Put;
    PutEffect(p, pins, r, slot);
    var q := Put(p, r, slot).value;
    assert q.logical == p.logical[r := q.logical[r]];
    forall s | 0 <= s < |q.tables[r]|
      ensures Kept(p, q, r, s) || Fresh(p, q, pins, r, s)
    {
      if s == slot { assert Fresh(p, q, pins, r, s); } else { assert Kept(p, q, r, s); }
    }
  }

  lemma {:induction false} FillHolesEffect(p: Pool, pins: multiset<nat>, r: ReqId, slot: nat, size: nat)
    requires Core(p, pins) && Sized(p, r) && slot <= size <= |p.tables[r]|
    ensures FillHoles(p, r, slot, size).Some? ==> GrewTo(p, FillHoles(p, r, slot, size).value, pins, r)
    decreases size - slot
  {
    hide Core, GrewTo;
    if slot >= size {
      GrewRefl(p, pins, r);
    } else if p.tables[r][slot].Some? {
      FillHolesEffect(p, pins, r, slot + 1, size);
    } else {
      PutCore(p, pins, r, slot);
      if |p.free| > 0 {
        FillEffect(p, pins, r, slot);
        var q := Put(p, r, slot).value;
        FillHolesEffect(q, pins, r, slot + 1, size);
        if FillHoles(q, r, slot + 1, size).Some? {
          GrewTrans(p, q, FillHoles(q, r, slot + 1, size).value, pins, r);
        }
      }
    }
  }

  /** From the taken slot of an intermediate pool to the effect on the whole page step. */
  lemma PageEffect(p: Pool, p1: Pool, pins: multiset<nat>, r: ReqId, slot: nat)
    requires Core(p1, pins) && Sized(p, r) && r in p1.tables && slot < |p1.tables[r]| && |p1.free| > 0
    requires p1.tables == p.tables[r := p1.tables[r]] && p1.logical == p.logical && p1.spec == p.spec
    requires p1.hashes == p.hashes && p1.index == p.index && |p1.refs| == |p.refs|
    requires p1.tables[r][slot].None? && |p1.tables[r]| <= p.logical[r] + 1
    requires forall s {:trigger p1.tables[r][s]} :: 0 <= s < |p1.tables[r]| && s != slot ==>
      && s < |p.tables[r]| && p1.tables[r][s] == p.tables[r][s]
      && PageAt(p.logical[r] + 1, |p1.tables[r]|, s) == PageAt(p.logical[r], |p.tables[r]|, s)
    requires PageAt(p.logical[r] + 1, |p1.tables[r]|, slot) == p.logical[r]
    ensures Put(p1, r, slot).Some?
    ensures
      var q := Put(p1, r, slot).value;
      GrewTo(p, q.(logical := q.logical[r := p.logical[r] + 1]), pins, r)
  {
    hide Core, PageAt, Put;
    PutEffect(p1, pins, r, slot);
    var q1 := Put(p1, r, slot).value;
    var q := q1.(logical := q1.logical[r := p.logical[r] + 1]);
    assert q.tables == p.tables[r := q.tables[r]];
    forall s | 0 <= s < |q.tables[r]|
      ensures Kept(p, q, r, s) || Fresh(p, q, pins, r, s)
    {
      if s == slot {
        assert forall o :: o in p.tables && o != r ==> o in p1.tables && p1.tables[o] == p.tables[o];
        assert Fresh(p, q, pins, r, s);
      } else {
        assert q.tables[r][s] == p1.tables[r][s] == p.tables[r][s];
        assert SlotPage(q, r, s) == SlotPage(p, r, s);
        assert Kept(p, q, r, s);
      }
    }
  }

  lemma AddPageEffect(p: Pool, pins: multiset<nat>, r: ReqId)
    requires Inv(p, pins) && r in p.tables && r in p.logical && NoHoles(p.tables[r])
    requires p.spec.window.None? ==> p.logical[r] < p.spec.maxBlocks
    ensures AddPage(p, r).Some? ==> GrewTo(p, AddPage(p, r).value, pins, r)
  {
    hide Core, Inv, SizesOk, PageAt, Put, Drop, RingSlot, GrewTo, NoHoles;
    SizeOk(p, pins, r);
    var page, t := p.logical[r], p.tables[r];
    if p.spec.window.None? || page < p.spec.maxBlocks {
      var p1 := p.(tables := p.tables[r := t + [None]]);
      ExtendCore(p, pins, r);
      PutCore(p1, pins, r, page);
      if |p.free| > 0 {
        forall s: nat | s <= page
          ensures PageAt(page + 1, page + 1, s) == s
          ensures s < page ==> PageAt(page, page, s) == s
        {
          GrowingTable(page + 1, s);
          if s < page { GrowingTable(page, s); }
        }
        GrowingTable(page + 1, page);
        PageEffect(p, p1, pins, r, page);
      }
    } else {
      var slot := RingSlot(page, p.spec.maxBlocks);
      var p1 := Drop(p, r, slot);
      DropCore(p, pins, r, slot);
      DropKeeps(p, r, slot);
      PutCore(p1, pins, r, slot);
      if |p1.free| > 0 {
        forall s: nat | s < |t|
          ensures PageAt(page + 1, |t|, s) == if s == slot then page else PageAt(page, |t|, s)
        {
          RingStep(page, |t|, s);
        }
        RingStep(page, |t|, slot);
        PageEffect(p, p1, pins, r, slot);
      }
    }
  }

  lemma DropKeeps(p: Pool, r: ReqId, slot: nat)
    requires r in p.tables && slot < |p.tables[r]|
    ensures Drop(p, r, slot).hashes == p.hashes && Drop(p, r, slot).index == p.index
  {
  }

  lemma {:induction false} AddPagesEffect(p: Pool, pins: multiset<nat>, r: ReqId, target: nat)
    requires Inv(p, pins) && r in p.tables && r in p.logical && NoHoles(p.tables[r])
    requires p.spec.window.None? ==> target <= p.spec.maxBlocks
    ensures AddPages(p, r, target).Some? ==> GrewTo(p, AddPages(p, r, target).value, pins, r)
    decreases target - p.logical[r]
  {
    hide Core, Inv, SizesOk, AddPage, NoHoles, Grown, GrewTo, PagesCost;
    SpecOk(p, pins);
    if p.logical[r] >= target {
      SizeOk(p, pins, r);
      GrewRefl(p, pins, r);
    } else {
      PagesCostStep(p, pins, r, target);
      AddPageEffect(p, pins, r);
      if AddPage(p, r).Some? {
        var q := AddPage(p, r).value;
        GrownFacts(p, q, pins, r, p.logical[r] + 1, PagesCost(p, r, target) - PagesCost(q, r, target));
        AddPagesEffect(q, pins, r, target);
        if AddPages(q, r, target).Some? {
          GrewTrans(p, q, AddPages(q, r, target).value, pins, r);
        }
      }
    }
  }

  /** The effect of `ensure_group_blocks` on one pool. */
  lemma GrowEffect(p: Pool, pins: multiset<nat>, r: ReqId, target: nat)
    requires Inv(p, pins)
    requires p.spec.window.None? ==> target <= p.spec.maxBlocks
    ensures Grow(p, r, target).Some? ==>
      Inv(Grow(p, r, target).value, pins) && GrewTo(Opened(p, r), Grow(p, r, target).value, pins, r)
  {
    hide Core, Inv, SizesOk, AddPages, FillHoles, Grow, GrewTo, Grown, Additional;
    SpecOk(p, pins);
    OpenedInv(p, pins, r);
    var q0 := Opened(p, r);
    SizeOk(q0, pins, r);
    if target < p.LogicalOf(r) {
      GrowCovered(p, pins, r, target);
      CoveredEffect(p, pins, r, target);
    } else {
      var t := q0.tables[r];
      GrowUnfold(p, r, target);
      FillHolesExact(q0, pins, r, 0, |t|);
      FillHolesEffect(q0, pins, r, 0, |t|);
      if FillHoles(q0, r, 0, |t|).Some? {
        var q1 := FillHoles(q0, r, 0, |t|).value;
        FilledSizes(q0, q1, pins, r);
        AddPagesEffect(q1, pins, r, target);
        if AddPages(q1, r, target).Some? {
          GrewTrans(q0, q1, AddPages(q1, r, target).value, pins, r);
          GrowExact(p, pins, r, target);
          GrownFacts(p, Grow(p, r, target).value, pins, r, target, Additional(p, r, target));
        }
      }
    }
  }

  lemma KeysOk(p: Pool, pins: multiset<nat>)
    requires Inv(p, pins)
    ensures p.tables.Keys == p.logical.Keys
  {
  }

  lemma CoveredEffect(p: Pool, pins: multiset<nat>, r: ReqId, target: nat)
    requires Inv(p, pins) && target < p.LogicalOf(r)
    ensures Grow(p, r, target).Some? ==> GrewTo(Opened(p, r), Grow(p, r, target).value, pins, r)
  {
    hide Core, SizesOk, FillHoles, GrewTo;
    SpecOk(p, pins);
    OpenedInv(p, pins, r);
    KeysOk(p, pins);
    SizeOk(p, pins, r);
    FillHolesEffect(p, pins, r, 0, p.spec.TableSize(target));
  }
}
