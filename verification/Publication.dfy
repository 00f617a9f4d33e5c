/** What one call of the publication loop does to the hash index, entry by entry. */
module Publication {
  import opened CacheTypes
  import opened GroupPool
  import opened RefConservation
  import PoolOperations

  /** Page `i` is published from the slot of table `t` that holds block `b`. */
  predicate From(spec: GroupSpec, t: Table, i: nat, b: nat) {
    0 < |t| && TableSlot(spec, i, |t|) < |t| && t[TableSlot(spec, i, |t|)] == Some(b)
  }

  /** Page `i` is new to the index and is published for block `b`. */
  ghost predicate PublishedAt(p: Pool, t: Table, hs: seq<Hash>, start: nat, completed: nat, i: nat, h: Hash, b: nat) {
    start <= i < completed <= |hs| && hs[i] == h && h !in p.index && From(p.spec, t, i, b)
  }

  /** The entry of block `b` for `h` outlives the publication: whatever is published from that
      block is `h` again. */
  ghost predicate Survives(p: Pool, t: Table, hs: seq<Hash>, start: nat, completed: nat, h: Hash, b: nat) {
    forall i: nat :: start <= i < completed <= |hs| && From(p.spec, t, i, b) ==> hs[i] == h
  }

  /** The new index names `b` for `h`: an entry that survives, or a page new to the index. */
  ghost predicate Entry(p: Pool, t: Table, hs: seq<Hash>, start: nat, completed: nat, h: Hash, b: nat) {
    || (h in p.index && p.index[h] == b && Survives(p, t, hs, start, completed, h, b))
    || (exists i: nat :: PublishedAt(p, t, hs, start, completed, i, h, b))
  }

  ghost predicate PublishedExactly(p: Pool, q: Pool, t: Table, hs: seq<Hash>, start: nat, completed: nat) {
    forall h, b: nat :: Entry(p, t, hs, start, completed, h, b) <==> h in q.index && q.index[h] == b
  }

  /** The pages to publish have different hashes and different blocks, and none is indexed
      already for the block of another. */
  ghost predicate Apart(p: Pool, t: Table, hs: seq<Hash>, start: nat, completed: nat) {
    && (forall i: nat, j: nat :: start <= i < j < completed <= |hs| ==> hs[i] != hs[j])
    && (forall i: nat, j: nat, b: nat :: start <= i < j < completed && From(p.spec, t, i, b) ==> !From(p.spec, t, j, b))
    && (forall i: nat, j: nat ::
          start <= i < completed <= |hs| && start <= j < completed && i != j && hs[i] in p.index
          ==>
          !From(p.spec, t, j, p.index[hs[i]]))
  }

  /** One page: its own entry, and that of whatever its block was published for before. */
  lemma CacheBlockIndex(p: Pool, pins: multiset<nat>, b: nat, h: Hash)
    requires Inv(p, pins) && b < |p.hashes|
    ensures
      var q := CacheBlock(p, b, h);
      && |q.hashes| == |p.hashes| && q == p.(hashes := q.hashes, index := q.index)
      && h in q.index && q.index[h] == (if h in p.index then p.index[h] else b)
      && forall k :: k != h ==> (k in q.index <==> k in p.index && p.index[k] != b)
                                && (k in q.index ==> q.index[k] == p.index[k])
  {
    hide QueueOk, TablesOk, RefsOk, SizesOk;
  }

  /** Publishing a page keeps the pages after it apart. */
  lemma ApartStep(p: Pool, pins: multiset<nat>, t: Table, hs: seq<Hash>, i: nat, completed: nat, b: nat)
    requires Inv(p, pins) && Apart(p, t, hs, i, completed) && i < completed <= |hs|
    requires b < |p.hashes| && From(p.spec, t, i, b)
    ensures Apart(CacheBlock(p, b, hs[i]), t, hs, i + 1, completed)
  {
    hide Inv, CacheBlock, From;
    CacheBlockIndex(p, pins, b, hs[i]);
  }

  lemma HashesSize(p: Pool, pins: multiset<nat>)
    requires Inv(p, pins)
    ensures |p.hashes| == |p.refs|
  {
  }

  lemma {:induction false} PublishExact(p: Pool, pins: multiset<nat>, t: Table, hs: seq<Hash>, i: nat, completed: nat)
    requires Inv(p, pins) && completed <= |hs| && Apart(p, t, hs, i, completed)
    requires Publish(p, t, hs, i, completed).Some?
    ensures PublishedExactly(p, Publish(p, t, hs, i, completed).value, t, hs, i, completed)
    decreases completed - i
  {
    hide Inv, TableSlot, CacheBlock, Apart, Entry, PublishedExactly;
    if i >= completed {
      NothingPublished(p, t, hs, i, completed);
    } else {
      HashesSize(p, pins);
      var b := t[TableSlot(p.spec, i, |t|)].value;
      PoolOperations.CacheBlockInv(p, pins, b, hs[i]);
      ApartStep(p, pins, t, hs, i, completed, b);
      var p1 := CacheBlock(p, b, hs[i]);
      PublishExact(p1, pins, t, hs, i + 1, completed);
      var q := Publish(p1, t, hs, i + 1, completed).value;
      forall h, c: nat
        ensures Entry(p, t, hs, i, completed, h, c) <==> h in q.index && q.index[h] == c
      {
        EntryStep(p, pins, q, t, hs, i, completed, b, h, c);
      }
      assert PublishedExactly(p, q, t, hs, i, completed) by { EntriesExact(p, q, t, hs, i, completed); }
    }
  }

  lemma NothingPublished(p: Pool, t: Table, hs: seq<Hash>, i: nat, completed: nat)
    requires i >= completed
    ensures PublishedExactly(p, p, t, hs, i, completed)
  {
    hide From;
    assert forall h, b: nat :: Entry(p, t, hs, i, completed, h, b) <==> h in p.index && p.index[h] == b;
  }

  lemma EntriesExact(p: Pool, q: Pool, t: Table, hs: seq<Hash>, start: nat, completed: nat)
    requires forall h, b: nat :: Entry(p, t, hs, start, completed, h, b) <==> h in q.index && q.index[h] == b
    ensures PublishedExactly(p, q, t, hs, start, completed)
  {
  }

  lemma EntryStep(p: Pool, pins: multiset<nat>, q: Pool, t: Table, hs: seq<Hash>, i: nat, completed: nat, b: nat,
      h: Hash, c: nat)
    requires Inv(p, pins) && i < completed <= |hs| && Apart(p, t, hs, i, completed)
    requires b < |p.hashes| && From(p.spec, t, i, b)
    requires PublishedExactly(CacheBlock(p, b, hs[i]), q, t, hs, i + 1, completed)
    ensures Entry(p, t, hs, i, completed, h, c) <==> h in q.index && q.index[h] == c
  {
    hide Inv, CacheBlock;
    CacheBlockIndex(p, pins, b, hs[i]);
    var p1 := CacheBlock(p, b, hs[i]);
    var next := i + 1;
    assert Entry(p1, t, hs, next, completed, h, c) <==> h in q.index && q.index[h] == c;
    assert forall k: nat :: From(p.spec, t, k, b) && next <= k < completed ==> false;
    assert Survives(p, t, hs, i, completed, h, c) <==>
      Survives(p1, t, hs, next, completed, h, c) && (c == b ==> hs[i] == h);
    if hs[i] == h {
      assert forall k: nat :: !PublishedAt(p1, t, hs, next, completed, k, h, c);
      assert h !in p.index && c == b ==> PublishedAt(p, t, hs, i, completed, i, h, c);
      if h in p.index && p.index[h] == c {
        assert forall k: nat :: next <= k < completed ==> !From(p.spec, t, k, c);
      }
    } else {
      assert forall k: nat :: PublishedAt(p1, t, hs, next, completed, k, h, c) ==>
        PublishedAt(p, t, hs, i, completed, k, h, c);
      assert forall k: nat :: PublishedAt(p, t, hs, i, completed, k, h, c) ==>
        PublishedAt(p1, t, hs, next, completed, k, h, c);
    }
  }

  // ---- publication cannot fail ----

  /** The loop reaches every page it publishes: whatever the pages, it does not raise. */
  lemma {:induction false} PublishSucceeds(p: Pool, t: Table, hs: seq<Hash>, i: nat, completed: nat)
    requires completed <= |hs| && 0 < |t| && NoHoles(t) && InRange(t, |p.hashes|)
    requires p.spec.window.None? ==> completed <= |t|
    ensures Publish(p, t, hs, i, completed).Some?
    decreases completed - i
  {
    hide RingSlot;
    if i < completed {
      var slot := TableSlot(p.spec, i, |t|);
      SlotInTable(p.spec, i, |t|);
      assert t[slot].Some?;
      PublishSucceeds(CacheBlock(p, t[slot].value, hs[i]), t, hs, i + 1, completed);
    }
  }

  lemma SlotInTable(spec: GroupSpec, page: nat, size: nat)
    requires size > 0 && (spec.window.None? ==> page < size)
    ensures TableSlot(spec, page, size) < size
  {
  }

  /** It touches hashes and index only. */
  lemma {:induction false} PublishKeepsPool(p: Pool, pins: multiset<nat>, t: Table, hs: seq<Hash>, i: nat,
      completed: nat)
    requires Inv(p, pins) && completed <= |hs| && Publish(p, t, hs, i, completed).Some?
    ensures
      var q := Publish(p, t, hs, i, completed).value;
      Inv(q, pins) && q == p.(hashes := q.hashes, index := q.index) && |q.hashes| == |p.hashes|
    decreases completed - i
  {
    hide Inv, TableSlot;
    if i < completed {
      HashesSize(p, pins);
      var b := t[TableSlot(p.spec, i, |t|)].value;
      PoolOperations.CacheBlockInv(p, pins, b, hs[i]);
      HashesSize(CacheBlock(p, b, hs[i]), pins);
      PublishKeepsPool(CacheBlock(p, b, hs[i]), pins, t, hs, i + 1, completed);
    }
  }
}
