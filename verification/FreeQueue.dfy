/** `FreeKVCacheBlockQueue`: the doubly linked queue of free blocks in eviction order, and the
    duplicate-free sequence it stands for. */
module FreeQueue {
  import opened CacheTypes
  import GroupPool

  class Block {
    const id: nat
    var prev: Block?
    var next: Block?

    constructor (id: nat)
      ensures this.id == id && prev == null && next == null
    {
      this.id := id;
      prev, next := null, null;
    }
  }

  function Before(q: seq<Block>, i: nat): Block?
    requires i < |q|
  {
    if i == 0 then null else q[i - 1]
  }

  function After(q: seq<Block>, i: nat): Block?
    requires i < |q|
  {
    if i == |q| - 1 then null else q[i + 1]
  }

  /** Each block of `q` points to its neighbours in `q`. */
  ghost predicate Linked(q: seq<Block>)
    reads q
  {
    forall i :: 0 <= i < |q| ==> q[i].prev == Before(q, i) && q[i].next == After(q, i)
  }

  function First(q: seq<Block>): Block? {
    if q == [] then null else q[0]
  }

  function Last(q: seq<Block>): Block? {
    if q == [] then null else q[|q| - 1]
  }

  /** `q` without the block at index `i`. */
  function Cut(q: seq<Block>, i: nat): seq<Block>
    requires i < |q|
  {
    q[..i] + q[i + 1..]
  }

  lemma CutExact(q: seq<Block>, i: nat)
    requires i < |q| && NoDuplicates(q)
    ensures |Cut(q, i)| == |q| - 1 && NoDuplicates(Cut(q, i)) && q[i] !in Cut(q, i)
    ensures forall j :: 0 <= j < |q| - 1 ==> Cut(q, i)[j] == q[if j < i then j else j + 1]
    ensures forall j :: 0 <= j < |q| && j != i ==> q[j] in Cut(q, i)
  {
    forall j | 0 <= j < |q| && j != i ensures q[j] in Cut(q, i) {
      assert q[j] == Cut(q, i)[if j < i then j else j - 1];
    }
  }

  lemma LinkedAt(q: seq<Block>, i: nat)
    requires i < |q| && Linked(q)
    ensures q[i].prev == Before(q, i) && q[i].next == After(q, i)
  {
  }

  lemma CutEnds(q: seq<Block>, i: nat)
    requires i < |q| && NoDuplicates(q)
    ensures |Cut(q, i)| == |q| - 1 && NoDuplicates(Cut(q, i))
    ensures First(Cut(q, i)) == if Before(q, i) == null then After(q, i) else First(q)
    ensures Last(Cut(q, i)) == if After(q, i) == null then Before(q, i) else Last(q)
  {
    CutExact(q, i);
  }

  lemma OnlyIndex(q: seq<Block>, i: nat)
    requires i < |q| && NoDuplicates(q)
    ensures forall j :: 0 <= j < |q| && q[j] == q[i] ==> j == i
  {
  }

  lemma NeighboursOf(q: seq<Block>, i: nat)
    requires i < |q| && NoDuplicates(q) && Linked(q)
    ensures q[i].prev == Before(q, i) && q[i].next == After(q, i)
    ensures forall j :: 0 <= j < |q| && q[j] == q[i] ==> j == i
    ensures i > 0 ==> forall j :: 0 <= j < |q| && q[j] == q[i - 1] ==> j == i - 1
    ensures i + 1 < |q| ==> forall j :: 0 <= j < |q| && q[j] == q[i + 1] ==> j == i + 1
  {
    OnlyIndex(q, i);
    if i > 0 { OnlyIndex(q, i - 1); }
    if i + 1 < |q| { OnlyIndex(q, i + 1); }
  }

  /** Bridging over a block links the rest. */
  lemma CutLinked(q: seq<Block>, i: nat)
    requires i < |q|
    requires forall k :: 0 <= k < |q| && k != i ==>
      && q[k].next == (if k == i - 1 then After(q, i) else After(q, k))
      && q[k].prev == (if k == i + 1 then Before(q, i) else Before(q, k))
    ensures Linked(Cut(q, i))
  {
    var c := Cut(q, i);
    forall j | 0 <= j < |c|
      ensures c[j].prev == Before(c, j) && c[j].next == After(c, j)
    {
      var k := if j < i then j else j + 1;
      assert c[j] == q[k];
    }
  }

  class FreeBlockQueue {
    var head: Block?
    var tail: Block?
    var count: int
    ghost var blocks: seq<Block>    // the queue as a sequence, next victim first

    ghost predicate Valid()
      reads this, blocks
    {
      && NoDuplicates(blocks) && count == |blocks| && Linked(blocks)
      && head == First(blocks) && tail == Last(blocks)
    }

    constructor ()
      ensures Valid() && blocks == []
    {
      head, tail, count, blocks := null, null, 0, [];
    }

    method Append(block: Block)
      requires Valid() && block !in blocks
      modifies this, block`prev, block`next, blocks`next
      ensures Valid() && blocks == old(blocks) + [block]
    {
      ghost var n := |blocks|;
      assert n > 0 ==> tail in blocks && forall i :: 0 <= i < n - 1 ==> blocks[i] != blocks[n - 1];
      block.prev := tail;
      block.next := null;
      if tail != null {
        tail.next := block;
      } else {
        head := block;
      }
      tail := block;
      count := count + 1;
      blocks := blocks + [block];
    }

    /** A block that is in no queue has no neighbours; removing it does nothing. */
    method Remove(block: Block)
      requires Valid() && (block in blocks || (block.prev == null && block.next == null))
      modifies this, block`prev, block`next, blocks`prev, blocks`next
      ensures Valid()
      ensures block !in old(blocks) ==> blocks == old(blocks) && unchanged(this)
      ensures forall i :: 0 <= i < |old(blocks)| && old(blocks)[i] == block ==> blocks == Cut(old(blocks), i)
      ensures block !in blocks && block.prev == null && block.next == null
      ensures forall b :: b in old(blocks) ==> b == block || b in blocks
    {
      hide Linked, NoDuplicates, Cut;
      QueuedExactly(block);
      if block != head && block != tail && block.prev == null && block.next == null {
        return;
      }
      ghost var i :| 0 <= i < |blocks| && blocks[i] == block;
      Unlink(block, i);
      OnlyIndex(old(blocks), i);
      CutExact(old(blocks), i);
    }

    /** The guard of `remove` recognises exactly the blocks that are not queued. */
    lemma QueuedExactly(block: Block)
      requires Valid() && (block in blocks || (block.prev == null && block.next == null))
      ensures block in blocks <==> !(block != head && block != tail && block.prev == null && block.next == null)
    {
      if block in blocks {
        var i :| 0 <= i < |blocks| && blocks[i] == block;
        assert block.prev == Before(blocks, i);
      }
    }

    /** The pointer updates of `remove`. */
    method Unlink(block: Block, ghost i: nat)
      requires Valid() && i < |blocks| && blocks[i] == block
      modifies this, block`prev, block`next, blocks`prev, blocks`next
      ensures Valid() && blocks == Cut(old(blocks), i) && block.prev == null && block.next == null
    {
      hide NoDuplicates, Cut, Before, After, First, Last;
      ghost var was := blocks;
      CutEnds(was, i);
      LinkedAt(was, i);
      var before, after := block.prev, block.next;
      if before == null { head := after; }
      if after == null { tail := before; }
      count := count - 1;
      blocks := Cut(was, i);
      Bridge(block, before, after, was, i);
    }

    /** The neighbours of a block point past it, and it points nowhere. */
    static method Bridge(block: Block, before: Block?, after: Block?, ghost q: seq<Block>, ghost i: nat)
      requires i < |q| && q[i] == block && NoDuplicates(q) && Linked(q)
      requires before == Before(q, i) && after == After(q, i)
      modifies q`prev, q`next
      ensures block.prev == null && block.next == null && Linked(Cut(q, i))
    {
      hide Cut, NoDuplicates;
      NeighboursOf(q, i);
      if before != null { before.next := after; }
      if after != null { after.prev := before; }
      block.prev := null;
      block.next := null;
      CutLinked(q, i);
    }

    method PopLeft() returns (block: Block?)
      requires Valid()
      modifies this, blocks`prev, blocks`next
      ensures Valid()
      ensures if old(blocks) == [] then block == null && blocks == []
              else block == old(blocks)[0] && blocks == old(blocks)[1..]
      ensures block != null ==> block.prev == null && block.next == null
    {
      if head == null { return null; }
      block := head;
      Remove(block);
      assert Cut(old(blocks), 0) == old(blocks)[1..];
    }
  }

  // ---- the queue of a pool, by block id ----

  function IdsOf(q: seq<Block>): seq<nat> {
    seq(|q|, i requires 0 <= i < |q| => q[i].id)
  }

  lemma {:induction false} WithoutFirst(s: seq<nat>, i: nat)
    requires i < |s| && NoDuplicates(s)
    ensures GroupPool.Without(s, s[i]) == s[..i] + s[i + 1..]
  {
    if i > 0 {
      WithoutFirst(s[1..], i - 1);
      assert s[0] != s[i] && s[1..][i - 1] == s[i];
      assert s[..i] == [s[0]] + s[1..][..i - 1];
    }
  }

  /** Removing a block from the linked queue is what the pool's specification does to its list
      of free block ids. */
  lemma RemoveIsWithout(q: seq<Block>, i: nat)
    requires i < |q| && NoDuplicates(IdsOf(q))
    ensures IdsOf(Cut(q, i)) == GroupPool.Without(IdsOf(q), q[i].id)
  {
    WithoutFirst(IdsOf(q), i);
  }
}
