/** The remaining grouped operations keep `RefConservation.Inv`: attaching a cached prefix,
    releasing a request, and pinning and unpinning the table of a step in flight. */
module PoolOperations {
  import opened CacheTypes
  import opened GroupPool
  import opened RefConservation

  // ---- pins ----

  lemma PinInv(p: Pool, pins: multiset<nat>, b: nat)
    requires Inv(p, pins) && b < |p.refs| && p.refs[b] > 0
    ensures Inv(Pin(p, b), pins + multiset{b})
  {
    PinCore(p, pins, b);
  }

  lemma {:induction false} PinAllInv(p: Pool, pins: multiset<nat>, ids: seq<nat>)
    requires Inv(p, pins)
    requires forall i :: 0 <= i < |ids| ==> ids[i] < |p.refs| && p.refs[ids[i]] > 0
    ensures Inv(PinAll(p, ids), pins + multiset(ids))
    ensures PinAll(p, ids) == p.(refs := PinAll(p, ids).refs)
    decreases |ids|
  {
    hide Inv;
    if ids == [] {
      assert pins + multiset(ids) == pins;
    } else {
      PinInv(p, pins, ids[0]);
      PinAllInv(Pin(p, ids[0]), pins + multiset{ids[0]}, ids[1..]);
      assert ids == [ids[0]] + ids[1..];
      assert pins + multiset{ids[0]} + multiset(ids[1..]) == pins + multiset(ids);
    }
  }

  /** Every pin can be given back, exactly once. */
  lemma {:induction false} UnpinAllInv(p: Pool, pins: multiset<nat>, ids: seq<nat>)
    requires Inv(p, pins) && multiset(ids) <= pins
    ensures UnpinAll(p, ids).Some?
    ensures Inv(UnpinAll(p, ids).value, pins - multiset(ids))
    ensures UnpinAll(p, ids).value == p.(refs := UnpinAll(p, ids).value.refs, free := UnpinAll(p, ids).value.free)
    decreases |ids|
  {
    if ids == [] {
      assert pins - multiset(ids) == pins;
    } else {
      assert ids == [ids[0]] + ids[1..];
      assert ids[0] in multiset(ids);
      UnpinPinned(p, pins, ids[0]);
      hide Core;
      assert pins - multiset{ids[0]} - multiset(ids[1..]) == pins - multiset(ids);
      UnpinAllInv(Unpin(p, ids[0]), pins - multiset{ids[0]}, ids[1..]);
    }
  }

  // ---- release ----

  lemma {:induction false} DropFromCore(p: Pool, pins: multiset<nat>, r: ReqId, slot: nat)
    requires Core(p, pins) && r in p.tables && slot <= |p.tables[r]|
    ensures
      var q := DropFrom(p, r, slot);
      && Core(q, pins)
      && q.tables == p.tables[r := p.tables[r][..slot] + Blank(|p.tables[r]| - slot)]
      && q.spec == p.spec && q.logical == p.logical && q.hashes == p.hashes && q.index == p.index
      && |q.refs| == |p.refs|
    decreases |p.tables[r]| - slot
  {
    hide Core;
    var t := p.tables[r];
    if slot == |t| {
      assert t == t[..slot] + Blank(0);
      assert p.tables == p.tables[r := t];
    } else {
      DropCore(p, pins, r, slot);
      DropFrame(p, r, slot);
      var q := Drop(p, r, slot);
      DropFromCore(q, pins, r, slot + 1);
      assert q.tables[r][..slot + 1] + Blank(|t| - slot - 1) == t[..slot] + Blank(|t| - slot);
    }
  }

  lemma DropFrame(p: Pool, r: ReqId, slot: nat)
    requires r in p.tables && slot < |p.tables[r]|
    ensures Drop(p, r, slot).hashes == p.hashes && Drop(p, r, slot).index == p.index
  {
  }

  /** Releasing a request gives up exactly its own references. */
  lemma ReleaseInv(p: Pool, pins: multiset<nat>, r: ReqId)
    requires Inv(p, pins)
    ensures Inv(Release(p, r), pins)
    ensures
      var q := Release(p, r);
      && q.tables == p.tables - {r} && q.logical == p.logical - {r}
      && q.spec == p.spec && q.hashes == p.hashes && q.index == p.index && |q.refs| == |p.refs|
  {
    if r in p.tables {
      DropFromCore(p, pins, r, 0);
      var q := DropFrom(p, r, 0);
      assert q.tables - {r} == p.tables - {r};
      assert forall b: nat :: Some(b) !in q.tables[r];
      RetableCore(q, pins, q.tables - {r}, q.logical - {r});
    } else {
      assert p.tables - {r} == p.tables && p.logical - {r} == p.logical;
    }
  }

  // ---- attaching a cached prefix ----

  lemma {:induction false} ShareFromCore(p: Pool, pins: multiset<nat>, r: ReqId, selected: Table, slot: nat)
    requires Core(p, pins) && r in p.tables && slot <= |selected| == |p.tables[r]|
    requires InRange(selected, |p.refs|) && Injective(selected)
    requires p.tables[r] == selected[..slot] + Blank(|selected| - slot)
    ensures
      var q := ShareFrom(p, r, selected, slot);
      && Core(q, pins)
      && q.tables == p.tables[r := selected]
      && q.spec == p.spec && q.logical == p.logical && q.hashes == p.hashes && q.index == p.index
      && |q.refs| == |p.refs|
    decreases |selected| - slot
  {
    hide Core;
    if slot == |selected| {
      assert selected[..slot] + Blank(0) == selected;
      assert p.tables == p.tables[r := selected];
    } else {
      var t := p.tables[r];
      var next := selected[..slot + 1] + Blank(|selected| - slot - 1);
      assert next == t[slot := selected[slot]];
      if selected[slot].Some? {
        assert selected[slot] !in t;
        ShareCore(p, pins, r, slot, selected[slot].value);
        ShareFromCore(Share(p, r, slot, selected[slot].value), pins, r, selected, slot + 1);
      } else {
        assert t[slot := None] == t;
        ShareFromCore(p, pins, r, selected, slot + 1);
      }
    }
  }

  lemma BlankTableCore(p: Pool, pins: multiset<nat>, r: ReqId, n: nat, pages: nat)
    requires Core(p, pins) && r !in p.tables
    ensures Core(p.(tables := p.tables[r := Blank(n)], logical := p.logical[r := pages]), pins)
  {
    RetableCore(p, pins, p.tables[r := Blank(n)], p.logical[r := pages]);
  }

  /** Attaching a prefix hit adds exactly one reference to each selected block. */
  lemma AttachInv(p: Pool, pins: multiset<nat>, r: ReqId, selected: Table, pages: nat)
    requires Inv(p, pins) && r !in p.tables
    requires InRange(selected, |p.refs|) && Injective(selected)
    requires |selected| == p.spec.TableSize(pages)
    requires p.spec.window.None? ==> NoHoles(selected) && pages <= p.spec.maxBlocks
    ensures Inv(Attach(p, r, selected, pages), pins)
    ensures
      var q := Attach(p, r, selected, pages);
      && q.tables == p.tables[r := selected] && q.logical == p.logical[r := pages]
      && q.spec == p.spec && q.hashes == p.hashes && q.index == p.index && |q.refs| == |p.refs|
  {
    hide Core;
    var blank := Blank(|selected|);
    var q := p.(tables := p.tables[r := blank], logical := p.logical[r := pages]);
    BlankTableCore(p, pins, r, |selected|, pages);
    assert selected[..0] + blank == blank;
    ShareFromCore(q, pins, r, selected, 0);
    assert q.tables[r := selected] == p.tables[r := selected];
  }

  /** Publishing a page never touches references, tables or queues. */
  lemma CacheBlockInv(p: Pool, pins: multiset<nat>, b: nat, h: Hash)
    requires Inv(p, pins) && b < |p.refs|
    ensures Inv(CacheBlock(p, b, h), pins)
    ensures CacheBlock(p, b, h) == p.(hashes := CacheBlock(p, b, h).hashes, index := CacheBlock(p, b, h).index)
  {
    CacheBlockCore(p, pins, b, h);
    hide Core;
  }
}
