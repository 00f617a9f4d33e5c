/** In which order blocks join and leave the free queue when references are given up or taken: the
    queue decides which cached page is the next to be lost. */
module QueueOrder {
  import opened CacheTypes
  import opened GroupPool
  import opened RefConservation
  import Queues

  // ---- what is freed joins at the end ----

  /** The blocks of a list whose last reference is given up, in its order. */
  function Freed(refs: seq<nat>, ids: seq<nat>): seq<nat> {
    if ids == [] then []
    else (if ids[0] < |refs| && refs[ids[0]] == 1 then [ids[0]] else []) + Freed(refs, ids[1..])
  }

  lemma {:induction false} FreedFrame(refs: seq<nat>, refs': seq<nat>, ids: seq<nat>)
    requires |refs| == |refs'|
    requires forall b: nat :: b in ids && b < |refs| ==> refs'[b] == refs[b]
    ensures Freed(refs', ids) == Freed(refs, ids)
  {
    if ids != [] { FreedFrame(refs, refs', ids[1..]); }
  }

  /** Each block of the list has lost one reference, and no other has. */
  ghost predicate OneLess(refs: seq<nat>, refs': seq<nat>, ids: seq<nat>) {
    && |refs'| == |refs|
    && forall b: nat :: b < |refs| ==> refs'[b] + (if b in ids then 1 else 0) == refs[b]
  }

  /** The blocks of a table, in slot order. */
  function BlocksFrom(t: Table, slot: nat): seq<nat>
    requires slot <= |t|
    decreases |t| - slot
  {
    if slot == |t| then []
    else (if t[slot].Some? then [t[slot].value] else []) + BlocksFrom(t, slot + 1)
  }

  lemma {:induction false} BlocksFromMembers(t: Table, slot: nat)
    requires slot <= |t|
    ensures forall b :: b in BlocksFrom(t, slot) <==> Some(b) in t[slot..]
    decreases |t| - slot
  {
    if slot < |t| {
      BlocksFromMembers(t, slot + 1);
      assert t[slot..] == [t[slot]] + t[slot + 1..];
    }
  }

  lemma {:induction false} BlocksFromFrame(t: Table, u: Table, slot: nat)
    requires slot <= |t| == |u| && forall s :: slot <= s < |t| ==> t[s] == u[s]
    ensures BlocksFrom(t, slot) == BlocksFrom(u, slot)
    decreases |t| - slot
  {
    if slot < |t| { BlocksFromFrame(t, u, slot + 1); }
  }

  /** No block is in two slots, so one given up is not met again. */
  lemma NotAgain(t: Table, slot: nat)
    requires slot < |t| && t[slot].Some? && Injective(t)
    ensures t[slot].value !in BlocksFrom(t, slot + 1)
  {
    BlocksFromMembers(t, slot + 1);
  }

  ghost predicate Droppable(p: Pool, r: ReqId) {
    && r in p.tables && Injective(p.tables[r]) && InRange(p.tables[r], |p.refs|)
    && forall s :: 0 <= s < |p.tables[r]| && p.tables[r][s].Some? ==> p.refs[p.tables[r][s].value] > 0
  }

  lemma DropQueue(p: Pool, r: ReqId, slot: nat)
    requires Droppable(p, r) && slot < |p.tables[r]|
    ensures
      var q := Drop(p, r, slot);
      var ids := if p.tables[r][slot].Some? then [p.tables[r][slot].value] else [];
      && Droppable(q, r) && |q.tables[r]| == |p.tables[r]|
      && (forall s :: slot < s < |p.tables[r]| ==> q.tables[r][s] == p.tables[r][s])
      && q.free == p.free + Freed(p.refs, ids) && OneLess(p.refs, q.refs, ids)
  {
    var t := p.tables[r];
    var q := Drop(p, r, slot);
    if t[slot].Some? {
      assert [t[slot].value][1..] == [];
      assert q.tables[r] == t[slot := None];
    }
  }

  lemma LessInTurn(refs: seq<nat>, refs': seq<nat>, refs'': seq<nat>, a: seq<nat>, b: seq<nat>)
    requires OneLess(refs, refs', a) && OneLess(refs', refs'', b) && forall x :: x in a ==> x !in b
    ensures OneLess(refs, refs'', a + b)
  {
    forall x: nat | x < |refs|
      ensures refs''[x] + (if x in a + b then 1 else 0) == refs[x]
    {
      assert x in a + b <==> x in a || x in b;
    }
  }

  lemma {:induction false} FreedAppend(refs: seq<nat>, a: seq<nat>, b: seq<nat>)
    ensures Freed(refs, a + b) == Freed(refs, a) + Freed(refs, b)
  {
    if a == [] {
      assert a + b == b;
    } else {
      assert (a + b)[1..] == a[1..] + b;
      FreedAppend(refs, a[1..], b);
    }
  }

  /** Pinning a snapshot adds one reference to each block of it, and to no other. */
  lemma {:induction false} PinOnce(p: Pool, ids: seq<nat>)
    requires CanRetain(p, ids)
    ensures OneLess(PinAll(p, ids).refs, p.refs, ids)
    ensures PinAll(p, ids) == p.(refs := PinAll(p, ids).refs)
    decreases |ids|
  {
    if ids != [] {
      var q := Pin(p, ids[0]);
      assert forall i :: 0 <= i < |ids[1..]| ==> ids[1..][i] == ids[i + 1];
      PinOnce(q, ids[1..]);
      assert ids == [ids[0]] + ids[1..];
    }
  }

  lemma UnpinOne(p: Pool, b: nat)
    requires b < |p.refs| && p.refs[b] > 0
    ensures Unpin(p, b).free == p.free + Freed(p.refs, [b]) && OneLess(p.refs, Unpin(p, b).refs, [b])
  {
    assert [b][1..] == [];
  }

  /** Releasing a snapshot appends what it frees to the queue, in the order of the snapshot. */
  lemma {:induction false} UnpinQueue(p: Pool, ids: seq<nat>)
    requires NoDuplicates(ids) && UnpinAll(p, ids).Some?
    ensures
      var q := UnpinAll(p, ids).value;
      q.free == p.free + Freed(p.refs, ids) && OneLess(p.refs, q.refs, ids)
    decreases |ids|
  {
    hide Freed, Unpin;
    if ids == [] {
      NothingFreed(p.refs);
    } else {
      var p1 := Unpin(p, ids[0]);
      assert ids == [ids[0]] + ids[1..];
      UnpinOne(p, ids[0]);
      UnpinQueue(p1, ids[1..]);
      FreedFrame(p.refs, p1.refs, ids[1..]);
      FreedAppend(p.refs, [ids[0]], ids[1..]);
      LessInTurn(p.refs, p1.refs, UnpinAll(p1, ids[1..]).value.refs, [ids[0]], ids[1..]);
    }
  }

  lemma {:induction false} DropFromQueue(p: Pool, r: ReqId, slot: nat)
    requires Droppable(p, r) && slot <= |p.tables[r]|
    ensures
      var q := DropFrom(p, r, slot);
      var ids := BlocksFrom(p.tables[r], slot);
      q.free == p.free + Freed(p.refs, ids) && OneLess(p.refs, q.refs, ids)
    decreases |p.tables[r]| - slot
  {
    hide Droppable, Drop, Freed;
    IsInjective(p, r);
    var t := p.tables[r];
    if slot == |t| {
      NothingFreed(p.refs);
    } else {
      var p1 := Drop(p, r, slot);
      DropQueue(p, r, slot);
      DropFromQueue(p1, r, slot + 1);
      BlocksFromFrame(t, p1.tables[r], slot + 1);
      var ids := if t[slot].Some? then [t[slot].value] else [];
      var later := BlocksFrom(t, slot + 1);
      if t[slot].Some? {
        NotAgain(t, slot);
      }
      FreedFrame(p.refs, p1.refs, later);
      FreedAppend(p.refs, ids, later);
      LessInTurn(p.refs, p1.refs, DropFrom(p1, r, slot + 1).refs, ids, later);
    }
  }

  lemma NothingFreed(refs: seq<nat>)
    ensures Freed(refs, []) == []
  {
  }

  lemma IsInjective(p: Pool, r: ReqId)
    requires Droppable(p, r)
    ensures r in p.tables && Injective(p.tables[r])
  {
  }

  /** Releasing a request appends what it frees to the queue, in the order of its table. */
  lemma ReleaseQueue(p: Pool, pins: multiset<nat>, r: ReqId)
    requires Inv(p, pins) && r in p.tables
    ensures
      var q := Release(p, r);
      var ids := BlocksFrom(p.tables[r], 0);
      q.free == p.free + Freed(p.refs, ids) && OneLess(p.refs, q.refs, ids)
  {
    forall s | 0 <= s < |p.tables[r]| && p.tables[r][s].Some?
      ensures p.refs[p.tables[r][s].value] > 0
    {
      OwnedIsReferenced(p, pins, r, s);
    }
    DropFromQueue(p, r, 0);
  }

  // ---- what is used again leaves the queue, wherever it is ----

  lemma {:induction false} WithoutIsFilter(s: seq<nat>, b: nat)
    requires NoDuplicates(s)
    ensures Without(s, b) == Queues.Without(s, {b})
  {
    if s != [] {
      Queues.WithoutAppend([s[0]], s[1..], {b});
      FilterOne(s[0], b);
      assert s == [s[0]] + s[1..];
      if s[0] == b {
        Queues.WithoutNothing(s[1..], {b});
      } else {
        WithoutIsFilter(s[1..], b);
      }
    }
  }

  lemma FilterOne(x: nat, b: nat)
    ensures Queues.Without([x], {b}) == if x == b then [] else [x]
  {
    assert [x][..0] == [];
  }

  /** The queue without the blocks of `t` from `slot` on, the others where they are. */
  ghost function QueueWithout(free: seq<nat>, t: Table, slot: nat): seq<nat>
    requires slot <= |t|
  {
    Queues.Without(free, Queues.SetOf(BlocksFrom(t, slot)))
  }

  lemma QueueStep(free: seq<nat>, free': seq<nat>, t: Table, slot: nat)
    requires slot < |t|
    requires t[slot].None? ==> free' == free
    requires t[slot].Some? ==> free' == Queues.Without(free, {t[slot].value})
    ensures QueueWithout(free', t, slot + 1) == QueueWithout(free, t, slot)
  {
    var later := BlocksFrom(t, slot + 1);
    if t[slot].Some? {
      Queues.WithoutTwice(free, {t[slot].value}, Queues.SetOf(later));
      assert Queues.SetOf(BlocksFrom(t, slot)) == {t[slot].value} + Queues.SetOf(later);
    } else {
      assert BlocksFrom(t, slot) == later;
    }
  }

  ghost predicate FreeIsUnreferenced(p: Pool) {
    NoDuplicates(p.free) && forall b: nat :: b in p.free <==> b < |p.refs| && p.refs[b] == 0
  }

  lemma ShareQueue(p: Pool, r: ReqId, slot: nat, b: nat)
    requires r in p.tables && slot < |p.tables[r]| && b < |p.refs| && FreeIsUnreferenced(p)
    ensures FreeIsUnreferenced(Share(p, r, slot, b))
    ensures Share(p, r, slot, b).free == Queues.Without(p.free, {b})
  {
    WithoutExact(p.free, b);
    WithoutIsFilter(p.free, b);
    if p.refs[b] != 0 { Queues.WithoutNothing(p.free, {b}); }
  }

  lemma {:induction false} ShareFromQueue(p: Pool, r: ReqId, selected: Table, slot: nat)
    requires r in p.tables && slot <= |selected| == |p.tables[r]| && FreeIsUnreferenced(p)
    requires InRange(selected, |p.refs|) && Injective(selected)
    ensures
      var q := ShareFrom(p, r, selected, slot);
      q.free == QueueWithout(p.free, selected, slot) && OneLess(q.refs, p.refs, BlocksFrom(selected, slot))
    decreases |selected| - slot
  {
    hide FreeIsUnreferenced;
    if slot == |selected| {
      Queues.WithoutNothing(p.free, Queues.SetOf(BlocksFrom(selected, slot)));
    } else {
      var p1 := p;
      if selected[slot].Some? {
        p1 := Share(p, r, slot, selected[slot].value);
        ShareQueue(p, r, slot, selected[slot].value);
        NotAgain(selected, slot);
      }
      ShareFromQueue(p1, r, selected, slot + 1);
      QueueStep(p.free, p1.free, selected, slot);
    }
  }

  /** Attaching a hit takes its blocks out of the queue and leaves the others where they are. */
  lemma AttachQueue(p: Pool, pins: multiset<nat>, r: ReqId, selected: Table, pages: nat)
    requires Inv(p, pins) && InRange(selected, |p.refs|) && Injective(selected)
    ensures
      var q := Attach(p, r, selected, pages);
      q.free == QueueWithout(p.free, selected, 0) && OneLess(q.refs, p.refs, BlocksFrom(selected, 0))
  {
    ShareFromQueue(p.(tables := p.tables[r := Blank(|selected|)], logical := p.logical[r := pages]), r, selected, 0);
  }
}
