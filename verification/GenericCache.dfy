/** The generic (ungrouped) block cache of `KvCacheManager`: allocation, release, prefix lookup
    and publication. `held` is what the callers claim to hold; `GenericOwnership` ties it to the
    lists of the scheduler's requests.

    Unlike the grouped index, publication here overwrites: a block can keep the hash under which
    another block is now indexed. Only one direction survives: what the index names has that
    hash. */
module GenericCache {
  import opened CacheTypes
  import GroupPool
  import Queues
  import QueueOrder
  import RefConservation

  /** `cache_block` on hashes and index. */
  function Published(hashes: seq<Option<Hash>>, index: map<Hash, nat>, b: nat, h: Hash)
    : (seq<Option<Hash>>, map<Hash, nat>)
    requires b < |hashes|
  {
    var cleared := if hashes[b].Some? then index - {hashes[b].value} else index;
    (hashes[b := Some(h)], cleared[h := b])
  }

  /** Every index entry names a block with that hash. */
  predicate Sound(hashes: seq<Option<Hash>>, index: map<Hash, nat>) {
    forall h :: h in index ==> index[h] < |hashes| && hashes[index[h]] == Some(h)
  }

  /** Every block with a hash is the one indexed under it. */
  ghost predicate Complete(hashes: seq<Option<Hash>>, index: map<Hash, nat>) {
    forall b :: 0 <= b < |hashes| && hashes[b].Some? ==> hashes[b].value in index && index[hashes[b].value] == b
  }

  lemma PublishedSound(hashes: seq<Option<Hash>>, index: map<Hash, nat>, b: nat, h: Hash)
    requires b < |hashes| && Sound(hashes, index)
    ensures Sound(Published(hashes, index, b, h).0, Published(hashes, index, b, h).1)
  {
    var (hashes', index') := Published(hashes, index, b, h);
    forall k | k in index'
      ensures index'[k] < |hashes'| && hashes'[index'[k]] == Some(k)
    {
      if k != h { assert k in index && index[k] == index'[k]; }
    }
  }

  /** Publication keeps hashes and index in step both ways exactly when the hash is new, or was
      already this block's. */
  lemma PublishedCompleteExactly(hashes: seq<Option<Hash>>, index: map<Hash, nat>, b: nat, h: Hash)
    requires b < |hashes| && Sound(hashes, index) && Complete(hashes, index)
    ensures Complete(Published(hashes, index, b, h).0, Published(hashes, index, b, h).1)
       <==> (h in index ==> index[h] == b)
  {
    var (hashes', index') := Published(hashes, index, b, h);
    if h in index && index[h] != b {
      assert hashes'[index[h]] == Some(h);
    } else {
      forall c | 0 <= c < |hashes'| && hashes'[c].Some?
        ensures hashes'[c].value in index' && index'[hashes'[c].value] == c
      {
        if c != b {
          assert hashes[c].value in index && index[hashes[c].value] == c;
        }
      }
    }
  }

  class BlockCache {
    var refs: seq<nat>
    var hashes: seq<Option<Hash>>
    var free: seq<nat>
    var index: map<Hash, nat>
    ghost var held: multiset<nat>

    /** References are what requests hold; the free queue is the unreferenced blocks, once each. */
    ghost predicate Valid()
      reads this
    {
      && |hashes| == |refs| && Sound(hashes, index) && NoDuplicates(free)
      && (forall b: nat :: b in free <==> b < |refs| && refs[b] == 0)
      && (forall b: nat :: held[b] == if b < |refs| then refs[b] else 0)
    }

    constructor (blocks: nat)
      ensures Valid() && refs == seq(blocks, _ => 0) && free == seq(blocks, i => i) && held == multiset{}
    {
      refs := seq(blocks, _ => 0);
      hashes := seq(blocks, _ => None);
      free := seq(blocks, i => i);
      index := map[];
      held := multiset{};
      new;
      forall b: nat ensures b in free <==> b < blocks {
        if b < blocks { assert free[b] == b; }
      }
    }

    /** `allocate_blocks`: all of them, or none and nothing changes. */
    method Allocate(count: int) returns (blocks: Option<seq<nat>>)
      requires Valid()
      modifies this
      ensures Valid()
      ensures blocks.None? <==> count > |old(free)|
      ensures blocks.None? ==> unchanged(this)
      ensures blocks.Some? ==>
        && blocks.value == old(free)[..Max(0, count)] && free == old(free)[Max(0, count)..]
        && held == old(held) + multiset(blocks.value)
        && |refs| == |old(refs)|
        && (forall b: nat :: b < |refs| ==> hashes[b] == if b in blocks.value then None else old(hashes)[b])
      ensures old(Complete(hashes, index)) ==> Complete(hashes, index)
    {
      hide Sound, Complete;
      if count <= 0 { return Some([]); }
      if |free| < count { return None; }
      var taken: seq<nat> := [];
      ghost var queue := free;
      for i := 0 to count
        invariant Valid()
        invariant taken == queue[..i] && free == queue[i..]
        invariant held == old(held) + multiset(taken)
        invariant |refs| == |old(refs)|
        invariant old(Complete(hashes, index)) ==> Complete(hashes, index)
        invariant forall b: nat :: b < |refs| ==> hashes[b] == if b in taken then None else old(hashes)[b]
      {
        var b := TakeFirst();
        taken := taken + [b];
        assert taken == queue[..i + 1];
      }
      return Some(taken);
    }

    /** One round of the allocation loop: the next victim loses its hash, and the index whatever
        is published under that hash. */
    method TakeFirst() returns (b: nat)
      requires Valid() && free != []
      modifies this
      ensures Valid() && b == old(free)[0] && free == old(free)[1..]
      ensures b < |old(refs)| == |old(hashes)| && refs == old(refs)[b := 1] && hashes == old(hashes)[b := None]
      ensures held == old(held) + multiset{b}
      ensures index == if old(hashes)[b].Some? then old(index) - {old(hashes)[b].value} else old(index)
      ensures old(Complete(hashes, index)) ==> Complete(hashes, index)
    {
      b := free[0];
      RefConservation.TailMembers(free);
      free := free[1..];
      if hashes[b].Some? {
        index := index - {hashes[b].value};
        hashes := hashes[b := None];
      }
      refs := refs[b := 1];
      held := held + multiset{b};
      assert Sound(hashes, index) by { assert forall h :: h in index ==> index[h] != b; }
    }

    /** `release`: gives up one reference, if there is one. */
    method Release(b: nat)
      requires Valid() && b < |refs|
      modifies this
      ensures Valid() && hashes == old(hashes) && index == old(index)
      ensures held == old(held) - multiset{b}
      ensures refs == if old(refs)[b] == 0 then old(refs) else old(refs)[b := old(refs)[b] - 1]
      ensures free == if old(refs)[b] == 1 then old(free) + [b] else old(free)
    {
      if refs[b] == 0 { return; }
      refs := refs[b := refs[b] - 1];
      held := held - multiset{b};
      if refs[b] == 0 {
        free := free + [b];
      }
    }

    lemma HeldIsReferenced(b: nat)
      requires Valid() && held[b] > 0
      ensures b < |refs| && refs[b] > 0
    {
    }

    /** `get_cached_block`. */
    method GetCached(h: Hash) returns (block: Option<nat>)
      requires Valid()
      modifies this
      ensures Valid() && hashes == old(hashes) && index == old(index)
      ensures block == if h in index then Some(index[h]) else None
      ensures block.None? ==> unchanged(this)
      ensures block.Some? ==>
        var b := block.value;
        && b < |old(refs)| && refs == old(refs)[b := old(refs)[b] + 1]
        && free == GroupPool.Without(old(free), b) && held == old(held) + multiset{b}
    {
      if h !in index { return None; }
      var b := index[h];
      RefConservation.WithoutExact(free, b);
      Absent(free, b);
      if refs[b] == 0 { free := GroupPool.Without(free, b); }
      refs := refs[b := refs[b] + 1];
      held := held + multiset{b};
      return Some(b);
    }

    /** `cache_block`. */
    method Publish(b: nat, h: Hash)
      requires Valid() && b < |refs|
      modifies this`hashes, this`index
      ensures Valid() && (hashes, index) == Published(old(hashes), old(index), b, h)
    {
      PublishedSound(hashes, index, b, h);
      if hashes[b].Some? {
        assert hashes[b].value !in index ==> index - {hashes[b].value} == index;
        if hashes[b].value in index { index := index - {hashes[b].value}; }
      }
      hashes := hashes[b := Some(h)];
      index := index[h := b];
    }

    /** `get_computed_blocks`: references the longest run of published leading pages. */
    method ComputedBlocks(pages: seq<Hash>, limit: nat) returns (blocks: seq<nat>)
      requires Valid()
      modifies this
      ensures Valid() && index == old(index) && hashes == old(hashes)
      ensures |blocks| <= limit && |blocks| <= |pages|
      ensures forall i :: 0 <= i < |blocks| ==> pages[i] in index && blocks[i] == index[pages[i]]
      ensures |blocks| < limit && |blocks| < |pages| ==> pages[|blocks|] !in index
      ensures held == old(held) + multiset(blocks)
      ensures |refs| == |old(refs)| && free == Queues.Without(old(free), Queues.SetOf(blocks))
    {
      blocks := [];
      Queues.WithoutNothing(free, Queues.SetOf(blocks));
      while |blocks| < |pages| && |blocks| < limit
        invariant Valid() && index == old(index) && hashes == old(hashes)
        invariant |blocks| <= limit && |blocks| <= |pages|
        invariant forall i :: 0 <= i < |blocks| ==> pages[i] in index && blocks[i] == index[pages[i]]
        invariant held == old(held) + multiset(blocks)
        invariant |refs| == |old(refs)| && free == Queues.Without(old(free), Queues.SetOf(blocks))
        decreases |pages| - |blocks|
      {
        ghost var queue := free;
        var block := GetCached(pages[|blocks|]);
        if block.None? { return; }
        QueueOrder.WithoutIsFilter(queue, block.value);
        Queues.WithoutTwice(old(free), Queues.SetOf(blocks), {block.value});
        Queues.SetOfAppend(blocks, block.value);
        blocks := blocks + [block.value];
      }
    }
  }

  lemma {:induction false} Absent(s: seq<nat>, b: nat)
    ensures b !in s ==> GroupPool.Without(s, b) == s
  {
    if s != [] { Absent(s[1..], b); }
  }
}
