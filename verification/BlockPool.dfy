/** The grouped block pool as the code updates it: `_GroupBlockPool` with the parts of the
    `KvCacheManager` methods that work on one pool. Every method is proved against its
    specification in `GroupPool`; `Valid` is the conservation invariant of `RefConservation`,
    with `pins` counting the references that steps in flight hold. */
module BlockPool {
  import opened CacheTypes
  import opened GroupPool
  import opened RefConservation
  import opened GrowthExactness
  import PoolOperations

  class GroupBlockPool {
    const spec: GroupSpec
    var refs: seq<nat>
    var hashes: seq<Option<Hash>>
    var free: seq<nat>
    var tables: map<ReqId, Table>
    var logical: map<ReqId, nat>
    var index: map<Hash, nat>
    ghost var pins: multiset<nat>

    ghost function State(): Pool
      reads this
    {
      Pool(spec, refs, hashes, free, tables, logical, index)
    }

    ghost predicate Valid()
      reads this
    {
      Inv(State(), pins)
    }

    /** `init_groups`: all blocks free, in order. */
    constructor (spec: GroupSpec, numBlocks: nat)
      requires spec.Valid()
      ensures Valid() && this.spec == spec && pins == multiset{}
      ensures State() == InitialPool(spec, numBlocks)
    {
      this.spec := spec;
      refs := seq(numBlocks, _ => 0);
      hashes := seq(numBlocks, _ => None);
      free := seq(numBlocks, i => i);
      tables, logical, index := map[], map[], map[];
      pins := multiset{};
      new;
      InitialInv(spec, numBlocks);
    }

    /** `_invalidate_group_block`. */
    method InvalidateBlock(b: nat)
      requires b < |hashes|
      modifies this`hashes, this`index
      ensures State() == Invalidate(old(State()), b)
    {
      if hashes[b].None? { return; }
      var h := hashes[b].value;
      if h in index && index[h] == b {
        index := index - {h};
      }
      hashes := hashes[b := None];
    }

    /** `_take_group_block`; `None` where it raises. */
    method TakeBlock() returns (taken: Option<nat>)
      requires |hashes| == |refs|
      modifies this`refs, this`hashes, this`free, this`index
      ensures match Take(old(State()))
              case None => taken.None?
              case Some((q, b)) => taken == Some(b) && State() == q
    {
      if |free| == 0 { return None; }
      var b := free[0];
      if b >= |refs| || refs[b] != 0 { return None; }
      free := free[1..];
      InvalidateBlock(b);
      refs := refs[b := 1];
      return Some(b);
    }

    /** Gives up one reference, as every release path does. */
    method DropReference(b: nat)
      requires b < |refs| && refs[b] > 0
      modifies this`refs, this`free
      ensures State() == Unpin(old(State()), b)
    {
      refs := refs[b := refs[b] - 1];
      if refs[b] == 0 {
        free := free + [b];
      }
    }

    /** The slots that `_additional_group_blocks` finds shared. */
    method SharedAhead(owned: Table, previous: nat, target: nat) returns (shared: set<nat>)
      requires spec.Valid()
      ensures shared == SharedSlots(State(), owned, previous, target)
    {
      hide IsSharedSlot;
      shared := {};
      var page := previous;
      while page < target
        invariant shared + SharedSlots(State(), owned, page, target) == SharedSlots(State(), owned, previous, target)
      {
        var slot := RingSlot(page, spec.maxBlocks);
        if IsSharedSlot(Pool(spec, refs, hashes, free, tables, logical, index), owned, slot) {
          shared := shared + {slot};
        }
        page := page + 1;
      }
    }

    /** `_additional_group_blocks`. */
    method AdditionalBlocks(r: ReqId, target: nat) returns (needed: nat)
      requires spec.Valid()
      ensures needed == Additional(State(), r, target)
    {
      hide IsSharedSlot, RingSlot, SharedSlots;
      var owned := if r in tables then tables[r] else [];
      if spec.window.None? {
        if target > spec.maxBlocks { return |refs| + 1; }
        return Max(0, target - |owned|);
      }
      var tableSize := Min(target, spec.maxBlocks);
      var missing := Max(0, tableSize - |owned|);
      var scan := Min(tableSize, |owned|);
      assert owned[0..scan] == owned[..scan];
      for i := 0 to scan
        invariant missing + Holes(owned[i..scan]) == Max(0, tableSize - |owned|) + Holes(owned[..scan])
      {
        assert owned[i..scan][1..] == owned[i + 1..scan];
        if owned[i].None? { missing := missing + 1; }
      }
      var shared := SharedAhead(owned, if r in logical then logical[r] else 0, target);
      return missing + |shared|;
    }

    /** Materialises one empty table slot. */
    method FillSlot(r: ReqId, slot: nat)
      requires |hashes| == |refs| && r in tables && slot < |tables[r]| && Put(State(), r, slot).Some?
      modifies this`refs, this`hashes, this`free, this`index, this`tables
      ensures Put(old(State()), r, slot) == Some(State()) && |hashes| == |refs|
      ensures r in tables && |tables[r]| == |old(tables[r])|
      ensures forall i :: 0 <= i < |tables[r]| && i != slot ==> tables[r][i] == old(tables[r])[i]
    {
      hide Take;
      PutUnfold(State(), r, slot);
      var taken := TakeBlock();
      tables := tables[r := tables[r][slot := taken]];
    }

    /** Detaches a shared ring block, or rotates a sole-owned one through the free queue. */
    method ReplaceBlock(r: ReqId, slot: nat)
      requires |hashes| == |refs| && r in tables && slot < |tables[r]|
      requires tables[r][slot].Some? && tables[r][slot].value < |refs| && Replace(State(), r, slot).Some?
      modifies this`refs, this`hashes, this`free, this`index, this`tables
      ensures Replace(old(State()), r, slot) == Some(State()) && |hashes| == |refs|
    {
      hide Take;
      var block := tables[r][slot].value;
      ghost var before := State();
      if refs[block] > 1 {
        refs := refs[block := refs[block] - 1];
      } else {
        refs := refs[block := 0];
        free := free + [block];
      }
      assert State() == DropRef(before, block);
      PutUnfold(State(), r, slot);
      var taken := TakeBlock();
      tables := tables[r := tables[r][slot := taken]];
    }

    /** The loop over the ring: every page that has outgrown the table takes over a slot. */
    method RotateRing(r: ReqId, previous: nat, target: nat, ghost base: nat, ghost final: Pool)
      requires spec.Valid() && spec.window.Some? && |hashes| == |refs| && r in tables
      requires base <= Max(previous, target) && (base > previous ==> base <= spec.maxBlocks)
      requires previous < target && base <= previous ==> previous >= spec.maxBlocks
      requires base > previous && base < target ==> base == spec.maxBlocks
      requires AddPages(WithPages(State(), r, Max(previous, base)), r, target) == Some(final)
      modifies this`refs, this`hashes, this`free, this`index, this`tables
      ensures WithPages(State(), r, Max(previous, target)) == final
    {
      hide AddPages, Replace, RingSlot;
      var page := previous;
      while page < target
        invariant previous <= page <= Max(previous, target)
        invariant r in tables && |hashes| == |refs|
        invariant AddPages(WithPages(State(), r, Max(page, base)), r, target) == Some(final)
      {
        if page >= spec.maxBlocks {
          ghost var before := State();
          RotateStep(before, r, page, target);
          ReplaceBlock(r, RingSlot(page, spec.maxBlocks));
        }
        page := page + 1;
      }
      AddPagesDone(State(), r, Max(previous, target), target);
    }

    /** The loop that materialises empty slots, over a table already extended to its new size. */
    method FillTable(r: ReqId, ghost n: nat, ghost previous: nat, size: nat, ghost target: nat, ghost final: Pool)
      requires spec.Valid() && |hashes| == |refs| && r in tables && |tables[r]| == Max(n, size)
      requires forall i :: n <= i < size ==> tables[r][i].None?
      requires size > n ==> previous == n && size <= target
      requires spec.window.Some? ==> size <= spec.maxBlocks
      requires size < n ==> target < previous
      requires Filling(State(), r, n, previous, 0, size, target) == Some(final)
      modifies this`refs, this`hashes, this`free, this`index, this`tables
      ensures |hashes| == |refs| && r in tables
      ensures AddPages(WithPages(State(), r, if size > n then size else previous), r, target) == Some(final)
    {
      hide AddPages, Put, Filling;
      for slot := 0 to size
        invariant r in tables && |tables[r]| == Max(n, size)
        invariant |hashes| == |refs|
        invariant forall i :: Max(slot, n) <= i < size ==> tables[r][i].None?
        invariant Filling(State(), r, n, previous, slot, size, target) == Some(final)
      {
        FillStep(State(), r, n, previous, slot, size, target);
        if tables[r][slot].None? {
          FillSlot(r, slot);
        }
      }
      FillEnds(State(), r, n, previous, size, target);
    }

    /** The part of `ensure_group_blocks` that grows one pool, in the order of the code: the
        table is extended, its empty slots are filled, then the ring slots are detached or
        rotated. The caller has checked that `Additional` blocks are free. */
    method Ensure(r: ReqId, target: nat)
      requires Valid()
      requires spec.window.None? ==> target <= spec.maxBlocks
      requires Additional(State(), r, target) <= |free|
      modifies this
      ensures Valid() && pins == old(pins)
      ensures Grow(old(State()), r, target) == Some(State())
    {
      hide Inv, AddPages, Additional, Filling, Grow;
      ghost var p0 := State();
      GrowSucceeds(p0, pins, r, target);
      ghost var final := Grow(p0, r, target).value;
      var owned := if r in tables then tables[r] else [];
      var n := |owned|;
      var previous := if r in logical then logical[r] else 0;
      var size := if spec.window.Some? then Min(target, spec.maxBlocks) else target;
      EnsureSizes(p0, pins, r, target);
      tables := tables[r := owned + Blank(Max(0, size - n))];
      EnsureStarts(p0, State(), r, target, Max(0, size - n));
      FillTable(r, n, previous, size, target, final);
      ghost var base := if size > n then size else previous;
      if spec.window.Some? {
        RotateRing(r, previous, target, base, final);
      } else {
        AddPagesDone(State(), r, base, target);
      }
      logical := logical[r := Max(previous, target)];
    }

    // ---- steps in flight ----

    /** The checks of `retain_group_block_snapshot` for one group. */
    method MayRetain(ids: seq<nat>) returns (ok: bool)
      ensures ok <==> CanRetain(State(), ids)
    {
      for i := 0 to |ids|
        invariant forall j :: 0 <= j < i ==> ids[j] < |refs| && refs[ids[j]] > 0
        invariant forall j, k :: 0 <= j < k < i ==> ids[j] != ids[k]
      {
        if ids[i] in ids[..i] || ids[i] >= |refs| || refs[ids[i]] == 0 { return false; }
      }
      return true;
    }

    /** `retain_group_block_snapshot` for one group: all checks first, then the counts. */
    method Retain(ids: seq<nat>) returns (ok: bool)
      requires Valid()
      modifies this`refs, this`pins
      ensures Valid()
      ensures ok <==> CanRetain(old(State()), ids)
      ensures if ok then State() == PinAll(old(State()), ids) && pins == old(pins) + multiset(ids)
              else State() == old(State()) && pins == old(pins)
    {
      hide Inv;
      ok := MayRetain(ids);
      if !ok { return; }
      ghost var before := State();
      ghost var pinned := pins;
      PoolOperations.PinAllInv(before, pinned, ids);
      for i := 0 to |ids|
        invariant |refs| == |before.refs| && State() == before.(refs := refs) && pins == pinned
        invariant PinAll(State(), ids[i..]) == PinAll(before, ids)
      {
        assert ids[i..][0] == ids[i] && ids[i..][1..] == ids[i + 1..];
        refs := refs[ids[i] := refs[ids[i]] + 1];
      }
      pins := pins + multiset(ids);
    }

    /** `release_group_block_snapshot` for one group. */
    method ReleaseSnapshot(ids: seq<nat>) returns (ok: bool)
      modifies this`refs, this`free, this`pins
      ensures ok <==> UnpinAll(old(State()), ids).Some?
      ensures ok ==> UnpinAll(old(State()), ids) == Some(State()) && pins == old(pins) - multiset(ids)
      ensures old(Valid()) && multiset(ids) <= old(pins) ==> ok && Valid()
    {
      hide Inv;
      ghost var before := State();
      if Inv(before, pins) && multiset(ids) <= pins {
        PoolOperations.UnpinAllInv(before, pins, ids);
      }
      for i := 0 to |ids|
        invariant State() == before.(refs := refs, free := free) && pins == old(pins)
        invariant UnpinAll(State(), ids[i..]) == UnpinAll(before, ids)
      {
        assert ids[i..][0] == ids[i] && ids[i..][1..] == ids[i + 1..];
        if ids[i] >= |refs| || refs[ids[i]] == 0 { return false; }
        DropReference(ids[i]);
      }
      pins := pins - multiset(ids);
      return true;
    }

    /** The part of `release_all_group_requests` that works on one pool. */
    method ReleaseRequest(r: ReqId)
      requires Valid()
      modifies this
      ensures Valid() && pins == old(pins)
      ensures State() == Release(old(State()), r)
    {
      hide Inv, Core, DropFrom;
      PoolOperations.ReleaseInv(State(), pins, r);
      if r !in tables { return; }
      ghost var before := State();
      var owned := tables[r];
      tables := tables - {r};
      logical := logical - {r};
      ReleaseStarts(before, r);
      InvCore(before, pins);
      for i := 0 to |owned|
        invariant pins == old(pins) && State() == before.(refs := refs, free := free, tables := tables,
          logical := logical)
        invariant tables == before.tables - {r} && logical == before.logical - {r} && |refs| == |before.refs|
        invariant ReleaseLeft(State(), before, r, i) == Release(before, r)
        invariant Core(Held(State(), before, r, i), pins)
      {
        ReleaseStep(State(), before, r, i, pins);
        if owned[i].Some? {
          DropReference(owned[i].value);
        }
      }
      ReleaseEnds(State(), before, r);
    }

    // ---- the prefix cache ----

    /** `_cache_group_block`. */
    method CacheGroupBlock(b: nat, h: Hash)
      requires b < |hashes|
      modifies this`hashes, this`index
      ensures State() == CacheBlock(old(State()), b, h) && |hashes| == |old(hashes)|
    {
      if h in index && index[h] == b { return; }
      if h in index {
        InvalidateBlock(b);
        return;
      }
      InvalidateBlock(b);
      hashes := hashes[b := Some(h)];
      index := index[h := b];
    }

    /** The publication loop of `cache_group_blocks` and its snapshot form. */
    method PublishPages(t: Table, hs: seq<Hash>, start: nat, completed: nat) returns (ok: bool)
      requires completed <= |hs|
      modifies this`hashes, this`index
      ensures ok <==> Publish(old(State()), t, hs, start, completed).Some?
      ensures ok ==> Publish(old(State()), t, hs, start, completed) == Some(State())
    {
      hide CacheBlock;
      ghost var before := State();
      var i := start;
      while i < completed
        invariant State() == before.(hashes := hashes, index := index)
        invariant Publish(State(), t, hs, i, completed) == Publish(before, t, hs, start, completed)
      {
        if |t| == 0 { return false; }
        var slot := if spec.window.None? then i else RingSlot(i, |t|);
        if slot >= |t| || t[slot].None? || t[slot].value >= |hashes| { return false; }
        CacheGroupBlock(t[slot].value, hs[i]);
        i := i + 1;
      }
      return true;
    }

    /** `cache_group_blocks` for one pool: the new published count, or `None` where it raises. */
    method PublishLive(r: ReqId, hs: seq<Hash>, tokens: nat, cached: nat) returns (published: Option<nat>)
      requires Valid() && r in tables
      modifies this`hashes, this`index
      ensures Valid() || published.None?
      ensures published.Some? ==> CountsCompleted(spec, hs, tokens, published.value)
      ensures
        var completed := Completed(spec, hs, tokens);
        match Publish(old(State()), tables[r], hs, LiveStart(old(State()), r, cached, completed), completed)
        case None => published.None?
        case Some(q) => published == Some(completed) && State() == q
    {
      hide Inv, Publish, CountsCompleted;
      SpecOk(State(), pins);
      CompletedExactly(spec, hs, tokens);
      var completed := Completed(spec, hs, tokens);
      var start := Min(cached, completed);
      if spec.window.Some? {
        start := Max(start, (if r in logical then logical[r] else 0) - |tables[r]|);
      }
      PublishInv(State(), pins, tables[r], hs, start, completed);
      var ok := PublishPages(tables[r], hs, start, completed);
      return if ok then Some(completed) else None;
    }

    /** `cache_group_blocks_from_snapshot` for one pool. */
    method PublishSnapshot(ids: seq<nat>, hs: seq<Hash>, tokens: nat, cached: nat) returns (published: Option<nat>)
      requires Valid()
      modifies this`hashes, this`index
      ensures Valid() || published.None?
      ensures published.Some? ==> CountsCompleted(spec, hs, tokens, published.value)
      ensures
        var completed := Completed(spec, hs, tokens);
        match Publish(old(State()), Ids(ids), hs, SnapshotStart(spec, |ids|, cached, completed), completed)
        case None => published.None?
        case Some(q) => published == Some(completed) && State() == q
    {
      hide Inv, Publish, CountsCompleted;
      SpecOk(State(), pins);
      CompletedExactly(spec, hs, tokens);
      var completed := Completed(spec, hs, tokens);
      var start := Min(cached, completed);
      if spec.window.Some? {
        start := Max(start, completed - |ids|);
      }
      PublishInv(State(), pins, Ids(ids), hs, start, completed);
      var ok := PublishPages(Ids(ids), hs, start, completed);
      return if ok then Some(completed) else None;
    }

    /** One group's share of the candidate check in `acquire_group_prefix_blocks`. */
    method SelectPrefix(hs: seq<Hash>, pages: nat) returns (selected: Option<Table>)
      requires spec.Valid()
      ensures selected.Some? <==> HitAt(State(), hs, pages)
      ensures selected.Some? ==> selected.value == Selected(State(), hs, pages)
    {
      hide RingSlot, NeededPage;
      if pages > |hs| { return None; }
      if spec.window.None? && pages > spec.maxBlocks { return None; }
      var tail := if spec.window.Some? then Min(pages, spec.window.value) else pages;
      var t := Blank(spec.TableSize(pages));
      for i := pages - tail to pages
        invariant |t| == spec.TableSize(pages)
        invariant forall k :: pages - tail <= k < i ==> hs[k] in index
        invariant (forall k :: i <= k < pages ==> hs[k] in index) ==>
          SelectFrom(State(), hs, i, pages, t) ==
            SelectFrom(State(), hs, pages - tail, pages, Blank(spec.TableSize(pages)))
      {
        TailExact(spec, pages, i);
        if hs[i] !in index { return None; }
        t := t[RingSlot(i, |t|) := Some(index[hs[i]])];
      }
      forall i | 0 <= i < pages && NeededPage(spec, pages, i)
        ensures hs[i] in index
      {
        TailExact(spec, pages, i);
      }
      return Some(t);
    }

    /** The leading pages of `hs`, up to `limit`, that are published. */
    method CountHits(hs: seq<Hash>, limit: nat) returns (hits: nat)
      requires limit <= |hs|
      ensures hits <= limit
      ensures forall i :: 0 <= i < hits ==> hs[i] in index
      ensures hits < limit ==> hs[hits] !in index
    {
      hits := 0;
      while hits < limit && hs[hits] in index
        invariant hits <= limit
        invariant forall i :: 0 <= i < hits ==> hs[i] in index
      {
        hits := hits + 1;
      }
    }

    /** The part of `acquire_group_prefix_blocks` that attaches one group's selected blocks. */
    method AttachPrefix(r: ReqId, selected: Table, pages: nat)
      requires Valid() && r !in tables
      requires InRange(selected, |refs|) && Injective(selected)
      requires |selected| == spec.TableSize(pages)
      requires spec.window.None? ==> NoHoles(selected) && pages <= spec.maxBlocks
      modifies this
      ensures Valid() && pins == old(pins)
      ensures State() == Attach(old(State()), r, selected, pages)
    {
      hide Inv, ShareFrom, Without, Attach, AttachLeft;
      ghost var before := State();
      PoolOperations.AttachInv(before, pins, r, selected, pages);
      tables := tables[r := selected];
      logical := logical[r := pages];
      AttachStarts(before, r, selected, pages);
      for i := 0 to |selected|
        invariant pins == old(pins) && |refs| == |before.refs|
        invariant State() == before.(refs := refs, free := free, tables := tables, logical := logical)
        invariant tables == before.tables[r := selected] && logical == before.logical[r := pages]
        invariant AttachLeft(State(), before, r, selected, i) == Attach(before, r, selected, pages)
      {
        AttachStep(State(), before, r, selected, i);
        if selected[i].Some? {
          var b := selected[i].value;
          if refs[b] == 0 {
            free := Without(free, b);
          }
          refs := refs[b := refs[b] + 1];
        }
      }
      AttachEnds(State(), before, r, selected);
    }
  }

  // ---- the release and attach loops against their specification ----

  /** The pool as the specification of release sees it at slot `i`: the table is still there,
      with the slots before `i` already given up. */
  ghost function Held(p: Pool, before: Pool, r: ReqId, i: nat): Pool
    requires r in before.tables && i <= |before.tables[r]|
  {
    p.(tables := before.tables[r := Blank(i) + before.tables[r][i..]], logical := before.logical)
  }

  ghost function ReleaseLeft(p: Pool, before: Pool, r: ReqId, i: nat): Pool
    requires r in before.tables && i <= |before.tables[r]|
  {
    var q := DropFrom(Held(p, before, r, i), r, i);
    q.(tables := q.tables - {r}, logical := q.logical - {r})
  }

  lemma InvCore(p: Pool, pins: multiset<nat>)
    requires Inv(p, pins)
    ensures Core(p, pins)
  {
  }

  lemma ReleaseStarts(before: Pool, r: ReqId)
    requires r in before.tables
    ensures Held(before.(tables := before.tables - {r}, logical := before.logical - {r}), before, r, 0) == before
  {
    assert Blank(0) + before.tables[r][0..] == before.tables[r];
    assert before.tables[r := before.tables[r]] == before.tables;
  }

  lemma ReleaseStep(p: Pool, before: Pool, r: ReqId, i: nat, pins: multiset<nat>)
    requires r in before.tables && i < |before.tables[r]| && |p.refs| == |before.refs|
    requires p == before.(refs := p.refs, free := p.free, tables := p.tables, logical := p.logical)
    requires Core(Held(p, before, r, i), pins)
    ensures
      var slot := before.tables[r][i];
      && (slot.Some? ==> slot.value < |p.refs| && p.refs[slot.value] > 0)
      && var q := if slot.Some? then Unpin(p, slot.value) else p;
         && ReleaseLeft(q, before, r, i + 1) == ReleaseLeft(p, before, r, i)
         && Core(Held(q, before, r, i + 1), pins)
  {
    hide Core, DropFrom;
    var h := Held(p, before, r, i);
    var slot := before.tables[r][i];
    assert h.tables[r][i] == slot;
    CoreSlot(h, pins, r, i);
    DropCore(h, pins, r, i);
    assert h.tables[r][i := None] == Blank(i + 1) + before.tables[r][i + 1..];
    UpdateTwice(before.tables, r, h.tables[r], h.tables[r][i := None]);
    var q := if slot.Some? then Unpin(p, slot.value) else p;
    assert Held(q, before, r, i + 1) == Drop(h, r, i);
    DropFromUnfold(h, r, i);
  }

  lemma CoreSlot(p: Pool, pins: multiset<nat>, r: ReqId, i: nat)
    requires Core(p, pins) && r in p.tables && i < |p.tables[r]|
    ensures p.tables[r][i].Some? ==> p.tables[r][i].value < |p.refs| && p.refs[p.tables[r][i].value] > 0
  {
    if p.tables[r][i].Some? { OwnedIsReferenced(p, pins, r, i); }
  }

  lemma DropFromUnfold(p: Pool, r: ReqId, i: nat)
    requires r in p.tables && i < |p.tables[r]|
    ensures DropFrom(p, r, i) == DropFrom(Drop(p, r, i), r, i + 1)
  {
  }

  lemma ReleaseEnds(p: Pool, before: Pool, r: ReqId)
    requires r in before.tables && p.tables == before.tables - {r} && p.logical == before.logical - {r}
    ensures ReleaseLeft(p, before, r, |before.tables[r]|) == p
  {
    assert before.tables[r := Blank(|before.tables[r]|) + before.tables[r][|before.tables[r]|..]] - {r} ==
      before.tables - {r};
  }

  ghost function Attaching(p: Pool, before: Pool, r: ReqId, selected: Table, i: nat): Pool
    requires i <= |selected|
  {
    p.(tables := before.tables[r := selected[..i] + Blank(|selected| - i)])
  }

  ghost function AttachLeft(p: Pool, before: Pool, r: ReqId, selected: Table, i: nat): Pool
    requires i <= |selected| && InRange(selected, |p.refs|)
  {
    ShareFrom(Attaching(p, before, r, selected, i), r, selected, i)
  }

  lemma AttachStarts(before: Pool, r: ReqId, selected: Table, pages: nat)
    requires InRange(selected, |before.refs|)
    ensures AttachLeft(before.(tables := before.tables[r := selected], logical := before.logical[r := pages]), before,
      r, selected, 0)
         == Attach(before, r, selected, pages)
  {
    assert selected[..0] + Blank(|selected|) == Blank(|selected|);
  }

  lemma AttachStep(p: Pool, before: Pool, r: ReqId, selected: Table, i: nat)
    requires i < |selected| && InRange(selected, |p.refs|)
    ensures
      var q := if selected[i].None? then p
               else
                 var b := selected[i].value;
                 p.(refs := p.refs[b := p.refs[b] + 1], free := if p.refs[b] == 0 then Without(p.free, b) else p.free);
      AttachLeft(q, before, r, selected, i + 1) == AttachLeft(p, before, r, selected, i)
  {
    var x, y := selected[..i] + Blank(|selected| - i), selected[..i + 1] + Blank(|selected| - i - 1);
    assert x[i := selected[i]] == y;
    UpdateTwice(before.tables, r, x, y);
    if selected[i].None? {
      assert x == y;
    } else {
      var q := p.(refs := p.refs[selected[i].value := p.refs[selected[i].value] + 1],
                  free := if p.refs[selected[i].value] == 0 then Without(p.free, selected[i].value) else p.free);
      assert Share(Attaching(p, before, r, selected, i), r, i, selected[i].value) ==
        Attaching(q, before, r, selected, i + 1);
    }
  }

  lemma AttachEnds(p: Pool, before: Pool, r: ReqId, selected: Table)
    requires InRange(selected, |p.refs|) && p.tables == before.tables[r := selected]
    ensures AttachLeft(p, before, r, selected, |selected|) == p
  {
    assert selected[..|selected|] + Blank(0) == selected;
  }

  lemma {:induction false} PublishInv(p: Pool, pins: multiset<nat>, t: Table, hs: seq<Hash>, i: nat, completed: nat)
    requires Inv(p, pins) && completed <= |hs|
    ensures Publish(p, t, hs, i, completed).Some? ==> Inv(Publish(p, t, hs, i, completed).value, pins)
    decreases completed - i
  {
    hide Inv, CacheBlock;
    if i < completed && |t| > 0 {
      var slot := TableSlot(p.spec, i, |t|);
      HashesSized(p, pins);
      if slot < |t| && t[slot].Some? && t[slot].value < |p.hashes| {
        PoolOperations.CacheBlockInv(p, pins, t[slot].value, hs[i]);
        PublishInv(CacheBlock(p, t[slot].value, hs[i]), pins, t, hs, i + 1, completed);
      }
    }
  }

  lemma HashesSized(p: Pool, pins: multiset<nat>)
    requires Inv(p, pins)
    ensures |p.hashes| == |p.refs|
  {
  }

  // ---- the growth loops against their specification ----

  ghost function WithPages(p: Pool, r: ReqId, pages: nat): Pool {
    p.(logical := p.logical[r := pages])
  }

  ghost function Cut(p: Pool, r: ReqId, n: nat, pages: nat): Pool
    requires r in p.tables && n <= |p.tables[r]|
  {
    p.(tables := p.tables[r := p.tables[r][..n]], logical := p.logical[r := pages])
  }

  /** What is still to be done when the filling loop stands at `slot`. */
  ghost function Filling(p: Pool, r: ReqId, n: nat, previous: nat, slot: nat, size: nat, target: nat): Option<Pool>
    requires p.spec.Valid() && r in p.tables && n <= |p.tables[r]| && slot <= |p.tables[r]|
  {
    if slot < n then
      match FillHoles(Cut(p, r, n, previous), r, slot, Min(size, n))
      case None => None
      case Some(q) => AddPages(q, r, target)
    else AddPages(Cut(p, r, slot, if slot > n then slot else previous), r, target)
  }

  lemma GrowSucceeds(p: Pool, pins: multiset<nat>, r: ReqId, target: nat)
    requires Inv(p, pins) && Additional(p, r, target) <= |p.free|
    requires p.spec.window.None? ==> target <= p.spec.maxBlocks
    ensures p.spec.Valid() && Grow(p, r, target).Some? && Inv(Grow(p, r, target).value, pins)
  {
    hide Inv, Grow, Additional, Grown;
    SpecOk(p, pins);
    if p.LogicalOf(r) <= target {
      GrowExact(p, pins, r, target);
      GrownInv(p, Grow(p, r, target).value, pins, r, target, Additional(p, r, target));
    } else {
      GrowCovered(p, pins, r, target);
    }
  }

  lemma GrownInv(p: Pool, q: Pool, pins: multiset<nat>, r: ReqId, pages: nat, cost: nat)
    requires Grown(p, q, pins, r, pages, cost)
    ensures Inv(q, pins)
  {
    hide Inv;
  }

  lemma EnsureSizes(p: Pool, pins: multiset<nat>, r: ReqId, target: nat)
    requires Inv(p, pins)
    requires p.spec.window.None? ==> target <= p.spec.maxBlocks
    ensures p.spec.Valid() && |p.hashes| == |p.refs|
    ensures
      var n, size := |p.TableOf(r)|, p.spec.TableSize(target);
      && (size > n ==> p.LogicalOf(r) == n && n < target)
      && (size < n ==> target < p.LogicalOf(r))
      && (p.spec.window.Some? ==> size <= p.spec.maxBlocks)
      && (p.spec.window.None? ==> p.LogicalOf(r) == n)
      && (p.spec.window.Some? && size <= n && target > p.LogicalOf(r) ==> p.LogicalOf(r) >= p.spec.maxBlocks)
  {
    hide QueueOk, RefsOk;
  }

  lemma EnsureStarts(p: Pool, q: Pool, r: ReqId, target: nat, extra: nat)
    requires p.spec.Valid() && q == p.(tables := p.tables[r := p.TableOf(r) + Blank(extra)])
    requires extra == Max(0, p.spec.TableSize(target) - |p.TableOf(r)|)
    ensures Filling(q, r, |p.TableOf(r)|, p.LogicalOf(r), 0, p.spec.TableSize(target), target) == Grow(p, r, target)
  {
    hide AddPages;
    var t := p.TableOf(r);
    assert q.tables[r][..|t|] == t;
    assert Cut(q, r, |t|, p.LogicalOf(r)).tables == Opened(p, r).tables;
    assert Cut(q, r, |t|, p.LogicalOf(r)).logical == Opened(p, r).logical;
  }

  lemma PutUnfold(p: Pool, r: ReqId, slot: nat)
    requires r in p.tables && slot < |p.tables[r]|
    ensures Put(p, r, slot) ==
      if Take(p).None? then None
      else Some(Take(p).value.0.(tables := Take(p).value.0.tables[r :=
        Take(p).value.0.tables[r][slot := Some(Take(p).value.1)]]))
    ensures Take(p).Some? ==>
      Take(p).value.0 == p.(refs := Take(p).value.0.refs, hashes := Take(p).value.0.hashes,
        free := Take(p).value.0.free, index := Take(p).value.0.index)
      && |Take(p).value.0.refs| == |p.refs| && |Take(p).value.0.hashes| == |p.hashes|
  {
  }

  /** Taking a block does not look at tables or page counts. */
  lemma TakeCut(p: Pool, q: Pool)
    requires q == p.(tables := q.tables, logical := q.logical)
    ensures Take(q).Some? <==> Take(p).Some?
    ensures Take(p).Some? ==>
      Take(q).value == (Take(p).value.0.(tables := q.tables, logical := q.logical), Take(p).value.1)
  {
  }

  lemma PutCut(p: Pool, r: ReqId, slot: nat, n: nat, pages: nat)
    requires r in p.tables && slot < n <= |p.tables[r]|
    ensures Put(Cut(p, r, n, pages), r, slot) ==
      if Put(p, r, slot).None? then None else Some(Cut(Put(p, r, slot).value, r, n, pages))
  {
    hide Take;
    TakeCut(p, Cut(p, r, n, pages));
    PutUnfold(p, r, slot);
    PutUnfold(Cut(p, r, n, pages), r, slot);
    if Take(p).Some? {
      var q := Put(p, r, slot).value;
      var b := Take(p).value.1;
      assert q.tables[r][..n] == p.tables[r][..n][slot := Some(b)];
      assert Put(Cut(p, r, n, pages), r, slot).value.tables == Cut(q, r, n, pages).tables;
    }
  }

  /** One iteration of the filling loop does one step of the specification. */
  lemma FillStep(p: Pool, r: ReqId, n: nat, previous: nat, slot: nat, size: nat, target: nat)
    requires p.spec.Valid() && r in p.tables && |p.tables[r]| == Max(n, size) && slot < size
    requires Filling(p, r, n, previous, slot, size, target).Some?
    requires slot >= n ==> p.tables[r][slot].None?
    requires size > n ==> previous == n && size <= target
    requires p.spec.window.Some? ==> size <= p.spec.maxBlocks
    ensures p.tables[r][slot].None? ==> Take(p).Some? && Put(p, r, slot).Some?
    ensures
      var q := if p.tables[r][slot].None? then Put(p, r, slot).value else p;
      Filling(q, r, n, previous, slot + 1, size, target) == Filling(p, r, n, previous, slot, size, target)
  {
    hide Put, Take, AddPages;
    PutUnfold(p, r, slot);
    if slot < n {
      PutCut(p, r, slot, n, previous);
      assert Cut(p, r, n, previous).tables[r][slot] == p.tables[r][slot];
      var q := if p.tables[r][slot].None? then Put(p, r, slot).value else p;
      assert FillHoles(Cut(p, r, n, previous), r, slot, Min(size, n)) ==
        FillHoles(Cut(q, r, n, previous), r, slot + 1, Min(size, n));
    } else {
      FillAdds(p, r, slot, target);
    }
  }

  lemma FillAdds(p: Pool, r: ReqId, slot: nat, target: nat)
    requires p.spec.Valid() && r in p.tables && slot < |p.tables[r]| && p.tables[r][slot].None? && slot < target
    requires p.spec.window.Some? ==> slot < p.spec.maxBlocks
    ensures Put(p, r, slot).Some? ==>
      AddPages(Cut(p, r, slot, slot), r, target) ==
        AddPages(Cut(Put(p, r, slot).value, r, slot + 1, slot + 1), r, target)
    ensures Put(p, r, slot).None? ==> AddPages(Cut(p, r, slot, slot), r, target).None?
  {
    hide Put, Take;
    var c := Cut(p, r, slot, slot);
    var d := Cut(p, r, slot + 1, slot);
    assert c.tables[r] + [None] == p.tables[r][..slot + 1];
    assert c.(tables := c.tables[r := c.tables[r] + [None]]) == d;
    PutCut(p, r, slot, slot + 1, slot);
    if Put(p, r, slot).Some? {
      var q := Put(p, r, slot).value;
      assert Cut(q, r, slot + 1, slot).logical[r := slot + 1] == Cut(q, r, slot + 1, slot + 1).logical;
    }
  }

  lemma FillEnds(p: Pool, r: ReqId, n: nat, previous: nat, size: nat, target: nat)
    requires p.spec.Valid() && r in p.tables && |p.tables[r]| == Max(n, size)
    requires size < n ==> target < previous
    ensures Filling(p, r, n, previous, size, size, target)
         == AddPages(WithPages(p, r, if size > n then size else previous), r, target)
  {
    var k := Max(n, size);
    assert p.tables[r][..k] == p.tables[r];
    assert p.tables[r := p.tables[r]] == p.tables;
  }

  /** Detaching or rotating one ring slot is one page step of the specification. */
  lemma ReplaceIsAddPage(p: Pool, r: ReqId, page: nat)
    requires p.spec.Valid() && r in p.tables && p.spec.window.Some? && p.spec.maxBlocks <= page
    requires AddPage(WithPages(p, r, page), r).Some?
    ensures
      var slot := RingSlot(page, p.spec.maxBlocks);
      && slot < |p.tables[r]| && p.tables[r][slot].Some? && p.tables[r][slot].value < |p.refs|
      && Replace(p, r, slot).Some?
      && AddPage(WithPages(p, r, page), r) == Some(WithPages(Replace(p, r, slot).value, r, page + 1))
  {
    hide Take, RingSlot;
    var w := WithPages(p, r, page);
    var slot := RingSlot(page, p.spec.maxBlocks);
    var t := p.tables[r];
    var q := DropRef(p, t[slot].value);
    var d := Drop(w, r, slot);
    TakeCut(q, d);
    PutUnfold(d, r, slot);
    PutUnfold(q, r, slot);
    var b := Take(q).value.1;
    assert t[slot := None][slot := Some(b)] == t[slot := Some(b)];
    UpdateTwice(p.tables, r, t[slot := None], t[slot := Some(b)]);
    UpdateTwice(p.logical, r, page, page + 1);
  }

  lemma UpdateTwice<V>(m: map<ReqId, V>, r: ReqId, x: V, y: V)
    ensures m[r := x][r := y] == m[r := y]
  {
  }

  lemma ReplaceKeeps(p: Pool, r: ReqId, slot: nat)
    requires r in p.tables && slot < |p.tables[r]| && p.tables[r][slot].Some? && p.tables[r][slot].value < |p.refs|
    ensures Replace(p, r, slot).Some? ==>
      var u := Replace(p, r, slot).value;
      && r in u.tables && u.logical == p.logical && |u.hashes| == |p.hashes| && |u.refs| == |p.refs|
      && u.spec == p.spec
  {
    PutUnfold(DropRef(p, p.tables[r][slot].value), r, slot);
  }

  lemma RotateStep(p: Pool, r: ReqId, page: nat, target: nat)
    requires p.spec.Valid() && r in p.tables && p.spec.window.Some? && p.spec.maxBlocks <= page < target
    requires AddPages(WithPages(p, r, page), r, target).Some?
    ensures
      var slot := RingSlot(page, p.spec.maxBlocks);
      && slot < |p.tables[r]| && p.tables[r][slot].Some? && p.tables[r][slot].value < |p.refs|
      && Replace(p, r, slot).Some?
      && var u := Replace(p, r, slot).value;
         && r in u.tables && u.logical == p.logical && |u.hashes| == |p.hashes| && |u.refs| == |p.refs|
         && u.spec == p.spec
         && AddPages(WithPages(u, r, page + 1), r, target) == AddPages(WithPages(p, r, page), r, target)
  {
    hide AddPage, Replace, RingSlot;
    ReplaceIsAddPage(p, r, page);
    ReplaceKeeps(p, r, RingSlot(page, p.spec.maxBlocks));
  }

  lemma AddPagesDone(p: Pool, r: ReqId, pages: nat, target: nat)
    requires p.spec.Valid() && r in p.tables && pages >= target
    ensures AddPages(WithPages(p, r, pages), r, target) == Some(WithPages(p, r, pages))
  {
  }
}
