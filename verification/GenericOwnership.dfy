/** The generic cache together with the block lists of the scheduler's requests: on every run a
    block's `ref_cnt` is the number of its occurrences in those lists. */
module GenericOwnership {
  import opened CacheTypes
  import opened GenericCache
  import Queues
  import QueueOrder

  /** `cached_block_ids` and `allocated_block_ids` of one request. */
  datatype Owned = Owned(cached: seq<nat>, grown: seq<nat>) {
    function All(): seq<nat> {
      cached + grown
    }
  }

  const Nothing := Owned([], [])

  /** Every occurrence of every block in the lists of all requests. */
  function TotalHeld(owned: seq<Owned>): multiset<nat> {
    if owned == [] then multiset{}
    else TotalHeld(owned[..|owned| - 1]) + multiset(owned[|owned| - 1].All())
  }

  lemma {:induction false} TotalUpdate(owned: seq<Owned>, i: nat, o: Owned)
    requires i < |owned|
    ensures multiset(owned[i].All()) <= TotalHeld(owned)
    ensures TotalHeld(owned[i := o]) == TotalHeld(owned) - multiset(owned[i].All()) + multiset(o.All())
  {
    hide Owned.All;
    var n := |owned| - 1;
    var init := owned[..n];
    if i < n {
      TotalUpdate(init, i, o);
      assert owned[i := o][..n] == init[i := o];
      Swap(TotalHeld(init), multiset(owned[i].All()), multiset(o.All()), multiset(owned[n].All()));
    } else {
      assert owned[i := o][..n] == init;
    }
  }

  lemma Swap(total: multiset<nat>, was: multiset<nat>, now: multiset<nat>, last: multiset<nat>)
    requires was <= total
    ensures was <= total + last && total - was + now + last == total + last - was + now
  {
  }

  lemma TotalAppend(owned: seq<Owned>, o: Owned)
    ensures TotalHeld(owned + [o]) == TotalHeld(owned) + multiset(o.All())
  {
    assert (owned + [o])[..|owned|] == owned;
  }

  /** The pages published for blocks `ids` in a row, as `cache_block_ids` does it. */
  function PublishedRange(hashes: seq<Option<Hash>>, index: map<Hash, nat>, ids: seq<nat>, pages: seq<Hash>,
      start: nat, end: nat)
    : (seq<Option<Hash>>, map<Hash, nat>)
    requires forall i :: 0 <= i < |ids| ==> ids[i] < |hashes|
    decreases end - start
  {
    if start >= end || start >= |pages| || start >= |ids| then (hashes, index)
    else
      var (hashes', index') := Published(hashes, index, ids[start], pages[start]);
      PublishedRange(hashes', index', ids, pages, start + 1, end)
  }

  class RequestCache {
    const cache: BlockCache
    const blockSize: nat
    var owned: seq<Owned>          // by request, in order of arrival
    var running: set<nat>

    /** References are conserved, and a request that does not run owns nothing. */
    ghost predicate Valid()
      reads this, cache
    {
      && blockSize > 0 && cache.Valid()
      && cache.held == TotalHeld(owned)
      && (forall i :: i in running ==> i < |owned|)
      && (forall i: nat :: i < |owned| && i !in running ==> owned[i] == Nothing)
    }

    constructor (blocks: nat, blockSize: nat)
      requires blockSize > 0
      ensures Valid() && fresh(cache) && owned == [] && running == {}
    {
      cache := new BlockCache(blocks);
      this.blockSize := blockSize;
      owned, running := [], {};
    }

    /** The conservation law: every reference is an entry of some request's lists, a block is free
        exactly when no list has it, and listed blocks exist. */
    lemma RefsAreEntries()
      requires Valid()
      ensures forall b: nat :: b < |cache.refs| ==> cache.refs[b] == TotalHeld(owned)[b]
      ensures forall b: nat :: b in cache.free <==> b < |cache.refs| && b !in TotalHeld(owned)
      ensures forall i, k :: 0 <= i < |owned| && 0 <= k < |owned[i].All()| ==>
        owned[i].All()[k] < |cache.refs| && cache.refs[owned[i].All()[k]] > 0
    {
      forall i, k | 0 <= i < |owned| && 0 <= k < |owned[i].All()|
        ensures owned[i].All()[k] < |cache.refs| && cache.refs[owned[i].All()[k]] > 0
      {
        var b := owned[i].All()[k];
        TotalUpdate(owned, i, Nothing);
        assert b in multiset(owned[i].All());
        assert cache.held[b] > 0;
      }
    }

    method Add() returns (i: nat)
      requires Valid()
      modifies this`owned
      ensures Valid() && i == |old(owned)| && owned == old(owned) + [Nothing]
    {
      hide TotalHeld, Sound, NoDuplicates;
      i := |owned|;
      TotalAppend(owned, Nothing);
      assert multiset(Nothing.All()) == multiset{};
      owned := owned + [Nothing];
    }

    /** The prefix lookup of a waiting request. */
    method LookUp(i: nat, pages: seq<Hash>, limit: nat)
      requires Valid() && i < |owned| && owned[i] == Nothing
      modifies this`owned, cache
      ensures cache.Valid() && cache.held == TotalHeld(owned)
      ensures cache.hashes == old(cache.hashes) && cache.index == old(cache.index)
      ensures |owned| == |old(owned)| && owned == old(owned)[i := Owned(owned[i].cached, [])]
      ensures |owned[i].cached| <= limit && |owned[i].cached| <= |pages|
      ensures forall k :: 0 <= k < |owned[i].cached| ==>
        pages[k] in cache.index && owned[i].cached[k] == cache.index[pages[k]]
      ensures |owned[i].cached| < limit && |owned[i].cached| < |pages| ==> pages[|owned[i].cached|] !in cache.index
      ensures cache.free == Queues.Without(old(cache.free), Queues.SetOf(owned[i].cached))
    {
      var found := cache.ComputedBlocks(pages, limit);
      TotalUpdate(owned, i, Owned(found, []));
      owned := owned[i := Owned(found, [])];
    }

    /** `_try_allocate_blocks` for the blocks that `_blocks_needed` counts: all or nothing. */
    method TryAllocate(i: nat, tokens: nat) returns (ok: bool)
      requires cache.Valid() && cache.held == TotalHeld(owned) && blockSize > 0 && i < |owned|
      modifies this`owned, cache
      ensures cache.Valid() && cache.held == TotalHeld(owned)
      ensures ok <==> CeilDiv(tokens, blockSize) - |old(owned)[i].All()| <= |old(cache.free)|
      ensures |owned| == |old(owned)|
      ensures ok ==>
        && owned == old(owned)[i := Owned(old(owned)[i].cached, owned[i].grown)]
        && old(owned)[i].grown <= owned[i].grown
        && |owned[i].All()| == Max(|old(owned)[i].All()|, CeilDiv(tokens, blockSize))
      ensures !ok ==> owned == old(owned)
      ensures old(Complete(cache.hashes, cache.index)) ==> Complete(cache.hashes, cache.index)
    {
      hide Sound, Complete, NoDuplicates, TotalHeld, CeilDiv;
      var needed := CeilDiv(tokens, blockSize) - |owned[i].cached| - |owned[i].grown|;
      if needed <= 0 {
        assert owned[i := Owned(owned[i].cached, owned[i].grown)] == owned;
        return true;
      }
      var blocks := cache.Allocate(needed);
      if blocks.None? { return false; }
      var o := Owned(owned[i].cached, owned[i].grown + blocks.value);
      TotalUpdate(owned, i, o);
      assert o.All() == owned[i].All() + blocks.value;
      owned := owned[i := o];
      return true;
    }

    /** `release_blocks_by_ids` on one list: what is freed is queued in the order of the list. */
    method ReleaseEach(ids: seq<nat>)
      requires cache.Valid() && multiset(ids) <= cache.held
      modifies cache
      ensures cache.Valid() && cache.held == old(cache.held) - multiset(ids)
      ensures cache.hashes == old(cache.hashes) && cache.index == old(cache.index)
      ensures NoDuplicates(ids) ==> Queued(old(cache.refs), old(cache.free), ids, cache.refs, cache.free)
    {
      hide Sound, Complete, NoDuplicates, Queued, BlockCache.Valid;
      NothingQueued(cache.refs, cache.free, ids[..0]);
      for k := 0 to |ids|
        invariant cache.Valid() && cache.held == old(cache.held) - multiset(ids[..k])
        invariant cache.hashes == old(cache.hashes) && cache.index == old(cache.index)
        invariant NoDuplicates(ids) ==> Queued(old(cache.refs), old(cache.free), ids[..k], cache.refs, cache.free)
      {
        ReleaseNext(ids, k, old(cache.held), old(cache.refs), old(cache.free));
      }
      assert ids[..|ids|] == ids;
    }

    method ReleaseNext(ids: seq<nat>, k: nat, ghost held: multiset<nat>, ghost refs: seq<nat>, ghost free: seq<nat>)
      requires cache.Valid() && k < |ids| && multiset(ids) <= held && cache.held == held - multiset(ids[..k])
      requires NoDuplicates(ids) ==> Queued(refs, free, ids[..k], cache.refs, cache.free)
      modifies cache
      ensures cache.Valid() && cache.held == held - multiset(ids[..k + 1])
      ensures cache.hashes == old(cache.hashes) && cache.index == old(cache.index)
      ensures NoDuplicates(ids) ==> Queued(refs, free, ids[..k + 1], cache.refs, cache.free)
    {
      hide Sound, Complete, NoDuplicates, Queued, BlockCache.Valid;
      ghost var refs', free' := cache.refs, cache.free;
      StillHeld(ids, k, held);
      cache.HeldIsReferenced(ids[k]);
      cache.Release(ids[k]);
      if NoDuplicates(ids) { OneQueued(refs, free, ids, k, refs', free', cache.refs, cache.free); }
    }

    lemma StillHeld(ids: seq<nat>, k: nat, held: multiset<nat>)
      requires k < |ids| && multiset(ids) <= held
      ensures (held - multiset(ids[..k]))[ids[k]] > 0
      ensures held - multiset(ids[..k]) - multiset{ids[k]} == held - multiset(ids[..k + 1])
    {
      assert ids[..k + 1] == ids[..k] + [ids[k]];
      assert ids == ids[..k + 1] + ids[k + 1..];
    }

    /** `_free_request_blocks`: every reference of the request is given back, once. */
    method Free(i: nat)
      requires cache.Valid() && cache.held == TotalHeld(owned) && i < |owned|
      modifies this`owned, cache
      ensures cache.Valid() && cache.held == TotalHeld(owned) && owned == old(owned)[i := Nothing]
      ensures cache.hashes == old(cache.hashes) && cache.index == old(cache.index)
      ensures NoDuplicates(old(owned)[i].All()) ==>
        Queued(old(cache.refs), old(cache.free), old(owned)[i].All(), cache.refs, cache.free)
    {
      hide Sound, Complete, NoDuplicates, TotalHeld, Queued;
      TotalUpdate(owned, i, Nothing);
      var o := owned[i];
      assert multiset(o.All()) == multiset(o.cached) + multiset(o.grown);
      ghost var refs, free := cache.refs, cache.free;
      ReleaseEach(o.cached);
      ghost var refs', free' := cache.refs, cache.free;
      ReleaseEach(o.grown);
      if NoDuplicates(o.All()) { QueuedInTurn(refs, free, o.cached, refs', free', o.grown, cache.refs, cache.free); }
      owned := owned[i := Nothing];
    }

    /** Admission: lookup, the scheduler's limits (`wanted`), allocation; a request that is not
        admitted gives everything back. */
    method Admit(i: nat, pages: seq<Hash>, limit: nat, wanted: bool, tokens: nat)
      returns (ok: bool, ghost found: seq<nat>)
      requires Valid() && i < |owned| && i !in running
      modifies this, cache
      ensures Valid() && |owned| == |old(owned)| && running == if ok then old(running) + {i} else old(running)
      ensures forall k :: 0 <= k < |owned| && k != i ==> owned[k] == old(owned)[k]
      ensures |found| <= limit && |found| <= |pages|
      ensures forall k :: 0 <= k < |found| ==> pages[k] in old(cache.index) && found[k] == old(cache.index)[pages[k]]
      ensures |found| < limit && |found| < |pages| ==> pages[|found|] !in old(cache.index)
      ensures ok <==>
        wanted && CeilDiv(tokens, blockSize) - |found| <= |Queues.Without(old(cache.free), Queues.SetOf(found))|
      ensures ok ==> owned[i].cached == found && |owned[i].All()| == Max(|found|, CeilDiv(tokens, blockSize))
      ensures old(Complete(cache.hashes, cache.index)) ==> Complete(cache.hashes, cache.index)
    {
      hide Sound, Complete, NoDuplicates, TotalHeld, CeilDiv, BlockCache.Valid;
      LookUp(i, pages, limit);
      found := owned[i].cached;
      ok := false;
      if wanted {
        ok := TryAllocate(i, tokens);
      }
      if ok {
        running := running + {i};
      } else {
        Free(i);
      }
    }

    /** Growth of a running request. */
    method Grow(i: nat, tokens: nat) returns (ok: bool)
      requires Valid() && i in running
      modifies this`owned, cache
      ensures Valid() && |owned| == |old(owned)|
      ensures ok <==> CeilDiv(tokens, blockSize) - |old(owned)[i].All()| <= |old(cache.free)|
      ensures ok ==>
        && |owned[i].All()| == Max(|old(owned)[i].All()|, CeilDiv(tokens, blockSize))
        && old(owned)[i].All() <= owned[i].All()
      ensures !ok ==> owned == old(owned)
      ensures forall k :: 0 <= k < |owned| && k != i ==> owned[k] == old(owned)[k]
      ensures old(Complete(cache.hashes, cache.index)) ==> Complete(cache.hashes, cache.index)
    {
      ok := TryAllocate(i, tokens);
    }

    /** A request finishes, is aborted or is preempted. */
    method Leave(i: nat)
      requires Valid() && i in running
      modifies this, cache
      ensures Valid() && owned == old(owned)[i := Nothing] && running == old(running) - {i}
      ensures cache.hashes == old(cache.hashes) && cache.index == old(cache.index)
      ensures NoDuplicates(old(owned)[i].All()) ==>
        Queued(old(cache.refs), old(cache.free), old(owned)[i].All(), cache.refs, cache.free)
    {
      hide Queued, Sound, Complete, NoDuplicates, TotalHeld, BlockCache.Valid;
      Free(i);
      running := running - {i};
    }

    /** `cache_block_ids` for the pages a running request has completed. */
    method PublishPages(i: nat, pages: seq<Hash>, start: nat, end: nat)
      requires Valid() && i in running
      modifies cache`hashes, cache`index
      ensures Valid()
      ensures forall k :: 0 <= k < |owned[i].All()| ==> owned[i].All()[k] < |old(cache.hashes)|
      ensures (cache.hashes, cache.index) == PublishedRange(old(cache.hashes), old(cache.index), owned[i].All(),
        pages, start, end)
    {
      hide Sound, Complete, NoDuplicates, TotalHeld;
      var ids := owned[i].All();
      RefsAreEntries();
      var k := start;
      while k < end && k < |pages| && k < |ids|
        invariant Valid() && |cache.hashes| == |old(cache.hashes)|
        invariant PublishedRange(cache.hashes, cache.index, ids, pages, k, end)
               == PublishedRange(old(cache.hashes), old(cache.index), ids, pages, start, end)
      {
        cache.Publish(ids[k], pages[k]);
        k := k + 1;
      }
    }
  }

  /** Each block of the list has lost one reference, and those that lost their last one joined the
      queue, in the order of the list. */
  ghost predicate Queued(refs: seq<nat>, free: seq<nat>, ids: seq<nat>, refs': seq<nat>, free': seq<nat>) {
    free' == free + QueueOrder.Freed(refs, ids) && QueueOrder.OneLess(refs, refs', ids)
  }

  lemma NothingQueued(refs: seq<nat>, free: seq<nat>, ids: seq<nat>)
    requires ids == []
    ensures Queued(refs, free, ids, refs, free)
  {
  }

  lemma QueuedInTurn(refs: seq<nat>, free: seq<nat>, a: seq<nat>, refs': seq<nat>, free': seq<nat>, b: seq<nat>,
      refs'': seq<nat>, free'': seq<nat>)
    requires NoDuplicates(a + b)
    requires NoDuplicates(a) ==> Queued(refs, free, a, refs', free')
    requires NoDuplicates(b) ==> Queued(refs', free', b, refs'', free'')
    ensures Queued(refs, free, a + b, refs'', free'')
  {
    Queues.DistinctParts(a, b);
    forall x | x in a
      ensures x !in b
    {
    }
    QueueOrder.FreedFrame(refs, refs', b);
    QueueOrder.FreedAppend(refs, a, b);
    QueueOrder.LessInTurn(refs, refs', refs'', a, b);
  }

  lemma OneQueued(refs: seq<nat>, free: seq<nat>, ids: seq<nat>, k: nat, refs': seq<nat>, free': seq<nat>,
      refs'': seq<nat>, free'': seq<nat>)
    requires NoDuplicates(ids) && k < |ids| && Queued(refs, free, ids[..k], refs', free')
    requires ids[k] < |refs'| && refs'[ids[k]] > 0 && refs'' == refs'[ids[k] := refs'[ids[k]] - 1]
    requires free'' == if refs'[ids[k]] == 1 then free' + [ids[k]] else free'
    ensures Queued(refs, free, ids[..k + 1], refs'', free'')
  {
    var a, b := ids[..k], [ids[k]];
    assert ids[..k + 1] == a + b && b[1..] == [];
    QueuedInTurn(refs, free, a, refs', free', b, refs'', free'');
  }

  predicate InRange(ids: seq<nat>, pages: seq<Hash>, start: nat, end: nat, k: nat) {
    start <= k < end && k < |pages| && k < |ids|
  }

  /** No block of the range carries the hash of another page of it. */
  ghost predicate Unmixed(hashes: seq<Option<Hash>>, ids: seq<nat>, pages: seq<Hash>, start: nat, end: nat)
    requires forall i :: 0 <= i < |ids| ==> ids[i] < |hashes|
  {
    forall j: nat, k: nat :: InRange(ids, pages, start, end, j) && InRange(ids, pages, start, end, k) ==>
      hashes[ids[k]] == Some(pages[j]) ==> j == k
  }

  /** The range publishes nothing as `h`, and no block of it carries `h`. */
  ghost predicate Untouched(hashes: seq<Option<Hash>>, ids: seq<nat>, pages: seq<Hash>, start: nat, end: nat, h: Hash)
    requires forall i :: 0 <= i < |ids| ==> ids[i] < |hashes|
  {
    forall k: nat :: InRange(ids, pages, start, end, k) ==> pages[k] != h && hashes[ids[k]] != Some(h)
  }

  /** What `cache_block_ids` publishes: the index stays sound, an entry the range does not touch
      stays, and with different pages and blocks that are not mixed up each page of the range is
      indexed for its block. */
  lemma {:induction false} RangePublished(hashes: seq<Option<Hash>>, index: map<Hash, nat>, ids: seq<nat>,
      pages: seq<Hash>, start: nat, end: nat)
    requires Sound(hashes, index) && forall i :: 0 <= i < |ids| ==> ids[i] < |hashes|
    requires Distinct(ids) && Distinct(pages)
    ensures
      var (hashes', index') := PublishedRange(hashes, index, ids, pages, start, end);
      && Sound(hashes', index') && |hashes'| == |hashes|
      && (forall h :: h in index && Untouched(hashes, ids, pages, start, end, h) ==>
        h in index' && index'[h] == index[h])
      && (Unmixed(hashes, ids, pages, start, end) ==>
            forall k: nat :: InRange(ids, pages, start, end, k) ==> pages[k] in index' && index'[pages[k]] == ids[k])
    decreases end - start
  {
    hide Sound;
    if InRange(ids, pages, start, end, start) {
      PublishedSound(hashes, index, ids[start], pages[start]);
      var (hashes1, index1) := Published(hashes, index, ids[start], pages[start]);
      var (hashes', index') := PublishedRange(hashes, index, ids, pages, start, end);
      RangePublished(hashes1, index1, ids, pages, start + 1, end);
      forall h | h in index && Untouched(hashes, ids, pages, start, end, h)
        ensures h in index' && index'[h] == index[h]
      {
        assert pages[start] != h && hashes[ids[start]] != Some(h);
        UntouchedRest(hashes, ids, pages, start, end, h);
      }
      if Unmixed(hashes, ids, pages, start, end) {
        UnmixedRest(hashes, ids, pages, start, end);
      }
    }
  }

  lemma UntouchedRest(hashes: seq<Option<Hash>>, ids: seq<nat>, pages: seq<Hash>, start: nat, end: nat, h: Hash)
    requires forall i :: 0 <= i < |ids| ==> ids[i] < |hashes|
    requires Distinct(ids) && InRange(ids, pages, start, end, start) && Untouched(hashes, ids, pages, start, end, h)
    ensures Untouched(hashes[ids[start] := Some(pages[start])], ids, pages, start + 1, end, h)
  {
  }

  lemma UnmixedRest(hashes: seq<Option<Hash>>, ids: seq<nat>, pages: seq<Hash>, start: nat, end: nat)
    requires forall i :: 0 <= i < |ids| ==> ids[i] < |hashes|
    requires Distinct(ids) && Distinct(pages) && InRange(ids, pages, start, end, start)
    requires Unmixed(hashes, ids, pages, start, end)
    ensures Unmixed(hashes[ids[start] := Some(pages[start])], ids, pages, start + 1, end)
    ensures Untouched(hashes[ids[start] := Some(pages[start])], ids, pages, start + 1, end, pages[start])
  {
  }

  ghost predicate Distinct<T>(s: seq<T>) {
    forall i, j :: 0 <= i < j < |s| ==> s[i] != s[j]
  }
}
