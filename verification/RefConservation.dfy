/** Reference conservation for the grouped pools of `kv_cache.py`: every block's `ref_cnt` is
    the number of table slots that hold it plus the pins of steps in flight, the free queue is
    exactly the unreferenced blocks, no table repeats a block, and the hash index and the
    blocks' hashes are inverse to each other. Each operation keeps all of it. */
module RefConservation {
  import opened CacheTypes
  import opened GroupPool

  /** No block appears in two slots of one table. */
  ghost predicate Injective(t: Table) {
    forall i, j :: 0 <= i < j < |t| && t[i].Some? ==> t[i] != t[j]
  }

  ghost predicate QueueOk(p: Pool) {
    && NoDuplicates(p.free)
    && (forall b: nat :: b in p.free <==> b < |p.refs| && p.refs[b] == 0)
  }

  ghost predicate InRange(t: Table, n: nat) {
    forall i :: 0 <= i < |t| && t[i].Some? ==> t[i].value < n
  }

  ghost predicate TablesOk(p: Pool) {
    && p.tables.Keys == p.logical.Keys
    && (forall r :: r in p.tables ==> Injective(p.tables[r]) && InRange(p.tables[r], |p.refs|))
  }

  ghost predicate RefsOk(p: Pool, pins: multiset<nat>) {
    && (forall b: nat :: b < |p.refs| ==> p.refs[b] == |Owners(p.tables, b)| + pins[b])
    && (forall b: nat :: b in pins ==> b < |p.refs|)
  }

  ghost predicate IndexOk(p: Pool) {
    && |p.hashes| == |p.refs|
    && (forall h :: h in p.index ==> p.index[h] < |p.hashes| && p.hashes[p.index[h]] == Some(h))
    && (forall b: nat :: b < |p.hashes| && p.hashes[b].Some? ==>
          p.hashes[b].value in p.index && p.index[p.hashes[b].value] == b)
  }

  ghost predicate SizesOk(p: Pool) {
    forall r :: r in p.tables && r in p.logical ==>
      && |p.tables[r]| == p.spec.TableSize(p.logical[r])
      && (p.spec.window.None? ==> p.logical[r] <= p.spec.maxBlocks && NoHoles(p.tables[r]))
  }

  ghost predicate NoHoles(t: Table) {
    forall i :: 0 <= i < |t| ==> t[i].Some?
  }

  /** Everything but the table sizes, which `AddPage` restores only at its end. */
  ghost predicate Core(p: Pool, pins: multiset<nat>) {
    p.spec.Valid() && QueueOk(p) && TablesOk(p) && RefsOk(p, pins) && IndexOk(p)
  }

  ghost predicate Inv(p: Pool, pins: multiset<nat>) {
    Core(p, pins) && SizesOk(p)
  }

  // ---- owners ----

  lemma OwnersFrame(t: map<ReqId, Table>, u: map<ReqId, Table>, b: nat)
    requires forall r :: (r in t && Some(b) in t[r]) <==> (r in u && Some(b) in u[r])
    ensures Owners(t, b) == Owners(u, b)
  {
  }

  lemma Unowned(t: map<ReqId, Table>, b: nat)
    requires Owners(t, b) == {}
    ensures forall r :: r in t ==> Some(b) !in t[r]
  {
    assert forall r :: r in t && Some(b) in t[r] ==> r in Owners(t, b);
  }

  /** A referenced block is never in the free queue, so it can never be handed out. */
  lemma OwnedIsReferenced(p: Pool, pins: multiset<nat>, r: ReqId, slot: nat)
    requires Core(p, pins) && r in p.tables && slot < |p.tables[r]| && p.tables[r][slot].Some?
    ensures p.refs[p.tables[r][slot].value] > 0
    ensures p.refs[p.tables[r][slot].value] == 1 ==>
      Owners(p.tables, p.tables[r][slot].value) == {r} && pins[p.tables[r][slot].value] == 0
  {
    var b := p.tables[r][slot].value;
    assert r in Owners(p.tables, b);
    assert Owners(p.tables, b) == {r} + (Owners(p.tables, b) - {r});
  }

  // ---- primitive moves ----

  lemma InvalidateCore(p: Pool, pins: multiset<nat>, b: nat)
    requires Core(p, pins) && b < |p.refs|
    ensures Core(Invalidate(p, b), pins)
    ensures Invalidate(p, b).hashes == p.hashes[b := None]
    ensures Invalidate(p, b).index == map h | h in p.index && p.index[h] != b :: p.index[h]
  {
    if p.hashes[b].None? {
      assert p.hashes[b := None] == p.hashes;
    }
  }

  lemma TakeExact(p: Pool, pins: multiset<nat>)
    requires Core(p, pins)
    ensures Take(p).Some? <==> |p.free| > 0
    ensures Take(p).Some? ==>
      var (q, b) := Take(p).value;
      && b == p.free[0] && b < |p.refs| && p.refs[b] == 0 && pins[b] == 0
      && Owners(p.tables, b) == {}
      && q.free == p.free[1..] && q.refs == p.refs[b := 1] && q.tables == p.tables
      && q.hashes == p.hashes[b := None]
      && q.index == (map h | h in p.index && p.index[h] != b :: p.index[h])
      && q.spec == p.spec && q.logical == p.logical
  {
    if |p.free| > 0 {
      assert p.free[0] in p.free;
      InvalidateCore(p, pins, p.free[0]);
    }
  }

  lemma TailMembers(s: seq<nat>)
    requires NoDuplicates(s) && s != []
    ensures NoDuplicates(s[1..]) && s[0] in s
    ensures forall c :: c in s[1..] <==> c in s && c != s[0]
  {
    assert s == [s[0]] + s[1..];
  }

  lemma PutCore(p: Pool, pins: multiset<nat>, r: ReqId, slot: nat)
    requires Core(p, pins) && r in p.tables && slot < |p.tables[r]| && p.tables[r][slot].None?
    ensures Put(p, r, slot).Some? <==> |p.free| > 0
    ensures Put(p, r, slot).Some? ==> Core(Put(p, r, slot).value, pins)
  {
    TakeExact(p, pins);
    if |p.free| > 0 {
      var b := p.free[0];
      var q := Put(p, r, slot).value;
      assert q.tables == p.tables[r := p.tables[r][slot := Some(b)]];
      forall c: nat | c != b
        ensures Owners(q.tables, c) == Owners(p.tables, c)
      {
        SlotUpdateOwners(p.tables, r, slot, Some(b), c);
      }
      Unowned(p.tables, b);
      assert q.tables[r][slot] == Some(b);
      assert Owners(q.tables, b) == {r};
      TailMembers(p.free);
      assert QueueOk(q);
      assert Core(q, pins);
    }
  }

  /** Changing one slot only matters to the block that was there and the one that is. */
  lemma SlotUpdateOwners(t: map<ReqId, Table>, r: ReqId, slot: nat, v: Option<nat>, c: nat)
    requires r in t && slot < |t[r]| && t[r][slot] != Some(c) && v != Some(c)
    ensures Owners(t[r := t[r][slot := v]], c) == Owners(t, c)
  {
    var u := t[r := t[r][slot := v]];
    if Some(c) in t[r] {
      var i :| 0 <= i < |t[r]| && t[r][i] == Some(c);
      assert u[r][i] == Some(c);
    }
    if Some(c) in u[r] {
      var i :| 0 <= i < |u[r]| && u[r][i] == Some(c);
      assert t[r][i] == Some(c);
    }
    OwnersFrame(t, u, c);
  }

  lemma UnpinCore(p: Pool, b: nat, tables: map<ReqId, Table>, pins: multiset<nat>, pins': multiset<nat>)
    requires Core(p, pins) && b < |p.refs| && p.refs[b] > 0
    requires TablesOk(p.(tables := tables))
    requires RefsOk(Unpin(p, b).(tables := tables), pins')
    ensures Core(Unpin(p, b).(tables := tables), pins')
  {
    var q := Unpin(p, b);
    assert b !in p.free;
  }

  lemma DropCore(p: Pool, pins: multiset<nat>, r: ReqId, slot: nat)
    requires Core(p, pins) && r in p.tables && slot < |p.tables[r]|
    ensures Core(Drop(p, r, slot), pins)
    ensures Drop(p, r, slot).tables == p.tables[r := p.tables[r][slot := None]]
  {
    var t := p.tables[r];
    if t[slot].None? {
      assert t[slot := None] == t;
    } else {
      var b := t[slot].value;
      OwnedIsReferenced(p, pins, r, slot);
      var tables := p.tables[r := t[slot := None]];
      forall c: nat | c != b
        ensures Owners(tables, c) == Owners(p.tables, c)
      {
        SlotUpdateOwners(p.tables, r, slot, None, c);
      }
      assert Some(b) !in tables[r] by {
        assert forall i :: 0 <= i < |t| && i != slot ==> t[i] != t[slot];
      }
      forall s
        ensures s in Owners(tables, b) <==> s in Owners(p.tables, b) - {r}
      {
        assert s in Owners(p.tables, b) <==> s in p.tables && Some(b) in p.tables[s];
      }
      assert Owners(tables, b) == Owners(p.tables, b) - {r};
      assert r in Owners(p.tables, b);
      UnpinCore(p, b, tables, pins, pins);
    }
  }

  lemma PinCore(p: Pool, pins: multiset<nat>, b: nat)
    requires Core(p, pins) && b < |p.refs| && p.refs[b] > 0
    ensures Core(Pin(p, b), pins + multiset{b})
  {
  }

  lemma UnpinPinned(p: Pool, pins: multiset<nat>, b: nat)
    requires Core(p, pins) && b in pins
    ensures b < |p.refs| && p.refs[b] > 0
    ensures Core(Unpin(p, b), pins - multiset{b})
  {
    UnpinCore(p, b, p.tables, pins, pins - multiset{b});
  }

  lemma WithoutExact(s: seq<nat>, b: nat)
    requires NoDuplicates(s)
    ensures NoDuplicates(Without(s, b))
    ensures forall c :: c in Without(s, b) <==> c in s && c != b
    ensures |Without(s, b)| == if b in s then |s| - 1 else |s|
  {
    if s != [] && s[0] != b {
      WithoutExact(s[1..], b);
      assert s == [s[0]] + s[1..];
      assert s[0] !in s[1..];
      assert forall c :: c in Without(s[1..], b) ==> c in s[1..];
    } else if s != [] {
      assert s == [s[0]] + s[1..];
    }
  }

  lemma ShareCore(p: Pool, pins: multiset<nat>, r: ReqId, slot: nat, b: nat)
    requires Core(p, pins) && r in p.tables && slot < |p.tables[r]| && b < |p.refs|
    requires p.tables[r][slot].None? && Some(b) !in p.tables[r]
    ensures Core(Share(p, r, slot, b), pins)
  {
    var q := Share(p, r, slot, b);
    WithoutExact(p.free, b);
    forall c: nat | c != b
      ensures Owners(q.tables, c) == Owners(p.tables, c)
    {
      SlotUpdateOwners(p.tables, r, slot, Some(b), c);
    }
    assert q.tables[r][slot] == Some(b);
    assert Owners(q.tables, b) == Owners(p.tables, b) + {r};
    assert r !in Owners(p.tables, b);
  }

  lemma CacheBlockCore(p: Pool, pins: multiset<nat>, b: nat, h: Hash)
    requires Core(p, pins) && b < |p.refs|
    ensures Core(CacheBlock(p, b, h), pins)
  {
    InvalidateCore(p, pins, b);
  }

  /** Replacing tables by others with the same blocks. */
  lemma RetableCore(p: Pool, pins: multiset<nat>, tables: map<ReqId, Table>, logical: map<ReqId, nat>)
    requires Core(p, pins)
    requires TablesOk(p.(tables := tables, logical := logical))
    requires forall r, b: nat :: (r in p.tables && Some(b) in p.tables[r]) <==> (r in tables && Some(b) in tables[r])
    ensures Core(p.(tables := tables, logical := logical), pins)
  {
    forall b: nat
      ensures Owners(tables, b) == Owners(p.tables, b)
    {
      OwnersFrame(p.tables, tables, b);
    }
  }

  /** A fresh pool owns nothing, and hands its blocks out from number 0 on. */
  lemma InitialInv(spec: GroupSpec, n: nat)
    requires spec.Valid()
    ensures Inv(InitialPool(spec, n), multiset{})
    ensures
      var p := InitialPool(spec, n);
      && |p.refs| == |p.hashes| == |p.free| == n && p.tables == map[] && p.index == map[]
      && forall b :: 0 <= b < n ==> p.refs[b] == 0 && p.hashes[b] == None && p.free[b] == b
  {
    var p := InitialPool(spec, n);
    forall b: nat
      ensures b in p.free <==> b < n
    {
      if b < n { assert p.free[b] == b; }
    }
    assert forall b: nat :: Owners(p.tables, b) == {};
  }
}
