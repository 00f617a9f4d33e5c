/** `KvCacheManager` over all groups and rank partitions: atomic growth of one request in every
    group, and the search for the longest cached prefix. */
module Manager {
  import opened CacheTypes
  import opened GroupPool
  import opened RefConservation
  import opened BlockPool
  import opened Alignment
  import opened PrefixSelection
  import GrowthEffect
  import GrowthQueue
  import PoolOperations
  import QueueOrder

  /** What `ensure_group_blocks` returns or raises. */
  datatype EnsureResult = Granted(partition: nat) | Oversized | WrongPartition | NoCapacity

  /** What `acquire_group_prefix_blocks` returns or raises. */
  datatype AcquireResult = Hit(tokens: nat, partition: nat) | Miss | AlreadyOwned | WrongGroups

  class KvCacheManager {
    const specs: seq<GroupSpec>
    const pools: seq<seq<GroupBlockPool>>   // by partition, then by group
    var partitionOf: map<ReqId, nat>           // _group_request_partitions
    var nextPartition: nat

    ghost function Objects(): set<GroupBlockPool> {
      set p, g | 0 <= p < |pools| && 0 <= g < |pools[p]| :: pools[p][g]
    }

    ghost predicate Shape() {
      && |specs| > 0 && |pools| > 0
      && (forall g :: 0 <= g < |specs| ==> specs[g].Valid())
      && (forall p :: 0 <= p < |pools| ==> |pools[p]| == |specs|)
      && (forall p, g :: 0 <= p < |pools| && 0 <= g < |specs| ==> pools[p][g].spec == specs[g])
      && (forall p, g, q, h :: 0 <= p < |pools| && 0 <= q < |pools| && 0 <= g < |specs| && 0 <= h < |specs| ==>
            pools[p][g] == pools[q][h] ==> p == q && g == h)
    }

    ghost predicate Valid()
      reads this, Objects()
    {
      && Shape() && nextPartition < |pools|
      && (forall r :: r in partitionOf ==> partitionOf[r] < |pools|)
      && (forall p, g :: 0 <= p < |pools| && 0 <= g < |specs| ==>
            && pools[p][g].Valid()
            && (forall r :: r in pools[p][g].tables <==> r in partitionOf && partitionOf[r] == p))
    }

    /** `init_groups`: the pools of every partition and group, all blocks free. */
    constructor (specs: seq<GroupSpec>, numBlocks: seq<nat>, partitions: nat)
      requires |specs| > 0 && partitions > 0 && |numBlocks| == |specs|
      requires forall g :: 0 <= g < |specs| ==> specs[g].Valid()
      ensures Valid() && this.specs == specs && |pools| == partitions && partitionOf == map[] && nextPartition == 0
      ensures forall p, g :: 0 <= p < partitions && 0 <= g < |specs| ==> fresh(pools[p][g])
      ensures forall p, g :: 0 <= p < partitions && 0 <= g < |specs| ==>
        IsFreshPool(pools[p][g], specs[g], numBlocks[g])
    {
      hide Inv;
      var made := NewPools(specs, numBlocks, partitions);
      this.specs, pools, partitionOf, nextPartition := specs, made, map[], 0;
      new;
      FreshIsValid(specs, numBlocks);
    }

    /** A manager whose pools are all fresh. */
    lemma FreshIsValid(groups: seq<GroupSpec>, numBlocks: seq<nat>)
      requires specs == groups && Shape() && |numBlocks| == |specs| && nextPartition == 0 && partitionOf == map[]
      requires forall p, g :: 0 <= p < |pools| && 0 <= g < |groups| ==>
        IsFreshPool(pools[p][g], groups[g], numBlocks[g])
      ensures Valid()
    {
      hide Inv;
      forall p, g | 0 <= p < |pools| && 0 <= g < |specs|
        ensures pools[p][g].Valid() && pools[p][g].tables == map[]
      {
        assert IsFreshPool(pools[p][g], specs[g], numBlocks[g]);
      }
    }

    function Target(g: nat, tokens: nat): nat
      requires g < |specs| && specs[g].capacity > 0
    {
      CeilDiv(tokens, specs[g].capacity)
    }

    predicate IsOversized(tokens: nat)
      requires Shape()
    {
      exists g :: 0 <= g < |specs| && specs[g].window.None? && Target(g, tokens) > specs[g].maxBlocks
    }

    /** A request is too large exactly when some full-history group cannot hold its tokens. */
    lemma OversizedExact(tokens: nat)
      requires Shape()
      ensures IsOversized(tokens) <==>
        exists g :: 0 <= g < |specs| && specs[g].window.None? && tokens > specs[g].maxBlocks * specs[g].capacity
    {
      forall g | 0 <= g < |specs|
        ensures Target(g, tokens) <= specs[g].maxBlocks <==> tokens <= specs[g].maxBlocks * specs[g].capacity
      {
        CeilDivExact(tokens, specs[g].capacity, specs[g].maxBlocks);
      }
    }

    /** Every group of partition `p` has the blocks that growing `r` would take. */
    ghost predicate Fits(p: nat, r: ReqId, tokens: nat)
      requires Shape() && p < |pools|
      reads Objects()
    {
      forall g :: 0 <= g < |specs| ==>
        Additional(pools[p][g].State(), r, Target(g, tokens)) <= |pools[p][g].free|
    }

    method CheckFits(p: nat, r: ReqId, tokens: nat) returns (ok: bool)
      requires Shape() && p < |pools|
      ensures ok <==> Fits(p, r, tokens)
    {
      hide Additional;
      for g := 0 to |specs|
        invariant forall h :: 0 <= h < g ==>
          Additional(pools[p][h].State(), r, Target(h, tokens)) <= |pools[p][h].free|
      {
        var needed := pools[p][g].AdditionalBlocks(r, Target(g, tokens));
        if needed > |pools[p][g].free| { return false; }
      }
      return true;
    }

    /** `_candidate_group_partitions` for a request without a partition. */
    method CandidatePartitions(r: ReqId, tokens: nat) returns (fits: seq<bool>)
      requires Shape()
      ensures |fits| == |pools|
      ensures forall p :: 0 <= p < |pools| ==> (fits[p] <==> Fits(p, r, tokens))
    {
      hide Additional, Target;
      fits := [];
      for p := 0 to |pools|
        invariant |fits| == p
        invariant forall q :: 0 <= q < p ==> (fits[q] <==> Fits(q, r, tokens))
      {
        var ok := CheckFits(p, r, tokens);
        fits := fits + [ok];
      }
    }

    /** `_select_group_partition` for a request without a partition: among the partitions where
        it fits, one with the fewest requests, and of those the first one from the round-robin
        position on. */
    method FindPartition(r: ReqId, tokens: nat) returns (selected: Option<nat>)
      requires Valid()
      ensures selected.None? ==> forall p :: 0 <= p < |pools| ==> !Fits(p, r, tokens)
      ensures selected.Some? ==> selected.value < |pools| && Fits(selected.value, r, tokens)
      ensures selected.Some? ==> Best(selected.value, r, tokens)
    {
      hide Additional, Target, GroupBlockPool.Valid;
      var fits := CandidatePartitions(r, tokens);
      var loads := seq(|pools|, p requires 0 <= p < |pools| reads Objects() => |pools[p][0].tables|);
      assert forall p :: 0 <= p < |pools| ==> loads[p] == Load(p);
      selected := LeastLoaded(fits, loads, nextPartition);
      assert forall p :: 0 <= p < |pools| ==> (fits[p] <==> Fits(p, r, tokens)) && loads[p] == Load(p);
    }

    /** No partition where the request fits serves fewer requests than `best`, or as few and comes
        earlier in the round. */
    ghost predicate Best(best: nat, r: ReqId, tokens: nat)
      requires Shape() && best < |pools| && nextPartition < |pools|
      reads this`nextPartition, Objects()
    {
      forall p :: 0 <= p < |pools| && Fits(p, r, tokens) ==>
        && Load(best) <= Load(p)
        && (Load(best) == Load(p) ==>
              Distance(nextPartition, best, |pools|) <= Distance(nextPartition, p, |pools|))
    }

    /** The load of a partition is the number of requests placed in it. */
    lemma LoadExact(p: nat)
      requires Valid() && p < |pools|
      ensures Load(p) == |set r | r in partitionOf && partitionOf[r] == p|
    {
      assert pools[p][0].tables.Keys == set r | r in partitionOf && partitionOf[r] == p;
    }

    /** How many requests partition `p` serves. */
    function Load(p: nat): nat
      requires Shape() && p < |pools|
      reads Objects()
    {
      |pools[p][0].tables|
    }

    /** The checks of `ensure_group_blocks`: where the request will grow, or why it will not. A
        refusal for capacity means that no admissible partition has room in every group. */
    method ChoosePartition(r: ReqId, tokens: nat, partition: Option<nat>) returns (result: EnsureResult)
      requires Valid()
      ensures result == Oversized <==> IsOversized(tokens)
      ensures result == WrongPartition <==>
        !IsOversized(tokens) && r in partitionOf && partition.Some? && partition.value != partitionOf[r]
      ensures result == NoCapacity ==>
        forall p :: 0 <= p < |pools| && Admissible(partitionOf, r, partition, p) ==> !Fits(p, r, tokens)
      ensures result.Granted? ==>
        && result.partition < |pools| && Admissible(partitionOf, r, partition, result.partition)
        && Fits(result.partition, r, tokens)
        && (r !in partitionOf && partition.None? ==> Best(result.partition, r, tokens))
    {
      hide Additional, Target;
      if IsOversized(tokens) { return Oversized; }
      if r in partitionOf && partition.Some? && partition.value != partitionOf[r] { return WrongPartition; }
      var selected := if partition.Some? then partition else if r in partitionOf then Some(partitionOf[r]) else None;
      if selected.None? {
        selected := FindPartition(r, tokens);
        if selected.None? { return NoCapacity; }
      }
      if selected.value >= |pools| { return NoCapacity; }
      var fits := CheckFits(selected.value, r, tokens);
      if !fits { return NoCapacity; }
      return Granted(selected.value);
    }

    /** `ensure_group_blocks`: atomic over all groups. Either every group of the chosen partition
        grows exactly as specified, or no pool changes at all. */
    method EnsureGroupBlocks(r: ReqId, tokens: nat, partition: Option<nat>) returns (result: EnsureResult)
      requires Valid()
      modifies this, Objects()
      ensures Valid()
      ensures result.Granted? ==>
        && result.partition < |pools| && Admissible(old(partitionOf), r, partition, result.partition)
        && old(Fits(result.partition, r, tokens))
        && (r !in old(partitionOf) && partition.None? ==> old(Best(result.partition, r, tokens)))
        && partitionOf == old(partitionOf)[r := result.partition]
        && (forall g :: 0 <= g < |specs| ==>
              var (before, after) := (old(pools[result.partition][g].State()), pools[result.partition][g].State());
              Grow(before, r, Target(g, tokens)) == Some(after) && Covers(before, after, r, tokens))
        && (forall p, g :: 0 <= p < |pools| && 0 <= g < |specs| && p != result.partition ==>
              pools[p][g].State() == old(pools[p][g].State()))
      ensures result.Granted? ==>
        nextPartition == if r !in old(partitionOf) && partition.None?
                         then (if result.partition + 1 < |pools| then result.partition + 1 else 0)
                         else old(nextPartition)
      ensures !result.Granted? ==>
        && partitionOf == old(partitionOf) && nextPartition == old(nextPartition)
        && (forall p, g :: 0 <= p < |pools| && 0 <= g < |specs| ==> pools[p][g].State() == old(pools[p][g].State()))
      ensures result == Oversized <==> IsOversized(tokens)
      ensures result == WrongPartition <==>
        && !IsOversized(tokens) && r in old(partitionOf)
        && partition.Some? && partition.value != old(partitionOf)[r]
      ensures result == NoCapacity ==>
        forall p :: 0 <= p < |pools| && Admissible(old(partitionOf), r, partition, p) ==> !old(Fits(p, r, tokens))
    {
      hide Additional, Grow, Target, Covers, Best;
      result := ChoosePartition(r, tokens, partition);
      if result.Granted? {
        Commit(result.partition, r, tokens, r !in partitionOf && partition.None?);
      }
    }

    /** Whether the request may be placed in partition `p`. */
    ghost predicate Admissible(partitionOf: map<ReqId, nat>, r: ReqId, partition: Option<nat>, p: nat) {
      && (partition.Some? ==> p == partition.value)
      && (r in partitionOf ==> p == partitionOf[r])
    }

    /** Places the request and grows every group, after the capacity check. */
    method Commit(p: nat, r: ReqId, tokens: nat, advance: bool)
      requires Valid() && p < |pools| && !IsOversized(tokens) && Fits(p, r, tokens)
      requires r in partitionOf ==> partitionOf[r] == p
      modifies this, Objects()
      ensures Valid() && partitionOf == old(partitionOf)[r := p]
      ensures nextPartition == if advance then (if p + 1 < |pools| then p + 1 else 0) else old(nextPartition)
      ensures forall g :: 0 <= g < |specs| ==>
        GrownTo(old(pools[p][g].State()), pools[p][g].State(), r, Target(g, tokens), tokens)
      ensures forall q, g :: 0 <= q < |pools| && 0 <= g < |specs| && q != p ==>
        pools[q][g].State() == old(pools[q][g].State())
    {
      hide GroupBlockPool.Valid, Grow, Additional, Target, Fits, IsOversized, Covers, GrownTo;
      ghost var placed := partitionOf[r := p];
      GrowGroups(p, r, tokens);
      assert forall q, g, o :: 0 <= q < |pools| && 0 <= g < |specs| ==>
        (o in pools[q][g].tables <==> o in placed && placed[o] == q);
      if advance {
        nextPartition := if p + 1 < |pools| then p + 1 else 0;
      }
      partitionOf := partitionOf[r := p];
    }

    lemma GroupCovers(p: nat, g: nat, r: ReqId, tokens: nat)
      requires Shape() && p < |pools| && g < |specs| && !IsOversized(tokens) && pools[p][g].Valid()
      ensures
        var grown := Grow(pools[p][g].State(), r, Target(g, tokens));
        grown.Some? ==> Covers(pools[p][g].State(), grown.value, r, tokens)
    {
      assert pools[p][g].spec == specs[g];
      assert specs[g].window.None? ==> Target(g, tokens) <= specs[g].maxBlocks;
      PoolCovers(pools[p][g], r, tokens);
    }

    /** The growth loop of `ensure_group_blocks`. */
    method GrowGroups(p: nat, r: ReqId, tokens: nat)
      requires Valid() && p < |pools| && !IsOversized(tokens) && Fits(p, r, tokens)
      modifies Objects()
      ensures forall q, g :: 0 <= q < |pools| && 0 <= g < |specs| ==> pools[q][g].Valid()
      ensures forall g, o :: 0 <= g < |specs| ==> (o in pools[p][g].tables <==> o == r || o in old(pools[p][g].tables))
      ensures forall g :: 0 <= g < |specs| ==>
        GrownTo(old(pools[p][g].State()), pools[p][g].State(), r, Target(g, tokens), tokens)
      ensures forall q, g :: 0 <= q < |pools| && 0 <= g < |specs| && q != p ==>
        pools[q][g].State() == old(pools[q][g].State()) && pools[q][g].tables == old(pools[q][g].tables)
    {
      hide GroupBlockPool.Valid, Grow, Additional, Target, Covers, GrownTo;
      for g := 0 to |specs|
        invariant forall q, h :: 0 <= q < |pools| && 0 <= h < |specs| ==> pools[q][h].Valid()
        invariant forall h, o :: 0 <= h < g ==> (o in pools[p][h].tables <==> o == r || o in old(pools[p][h].tables))
        invariant forall h :: 0 <= h < g ==>
          GrownTo(old(pools[p][h].State()), pools[p][h].State(), r, Target(h, tokens), tokens)
        invariant forall q, h :: 0 <= q < |pools| && 0 <= h < |specs| && (q != p || h >= g) ==> unchanged(pools[q][h])
      {
        PoolGrows(pools[p][g], r, Target(g, tokens));
        GroupCovers(p, g, r, tokens);
        ghost var before := pools[p][g].State();
        pools[p][g].Ensure(r, Target(g, tokens));
        IsGrownTo(before, pools[p][g].State(), r, Target(g, tokens), tokens);
      }
    }

    // ---- releasing a request ----

    /** `release_all_group_requests`: the request gives up its blocks in every group. */
    method ReleaseAll(r: ReqId)
      requires Valid()
      modifies this`partitionOf, Objects()
      ensures Valid() && partitionOf == old(partitionOf) - {r}
      ensures forall p, g :: 0 <= p < |pools| && 0 <= g < |specs| ==>
        pools[p][g].State() == Release(old(pools[p][g].State()), r) && pools[p][g].pins == old(pools[p][g].pins)
    {
      hide GroupBlockPool.Valid, Release;
      if r in partitionOf {
        ReleaseGroups(partitionOf[r], r);
        partitionOf := partitionOf - {r};
      } else {
        assert partitionOf - {r} == partitionOf;
      }
      forall p, g | 0 <= p < |pools| && 0 <= g < |specs| && (r !in old(partitionOf) || p != old(partitionOf)[r])
        ensures pools[p][g].State() == Release(old(pools[p][g].State()), r)
      {
        assert r !in old(pools[p][g].tables);
        ReleaseNothing(old(pools[p][g].State()), r);
      }
    }

    method ReleaseGroups(p: nat, r: ReqId)
      requires Shape() && p < |pools|
      requires forall g :: 0 <= g < |specs| ==> pools[p][g].Valid()
      modifies Objects()
      ensures forall g :: 0 <= g < |specs| ==>
        && pools[p][g].Valid() && pools[p][g].pins == old(pools[p][g].pins)
        && pools[p][g].State() == Release(old(pools[p][g].State()), r)
        && pools[p][g].tables == old(pools[p][g].tables) - {r}
      ensures forall q, g :: 0 <= q < |pools| && 0 <= g < |specs| && q != p ==> unchanged(pools[q][g])
    {
      hide GroupBlockPool.Valid, Release;
      for g := 0 to |specs|
        invariant forall h :: 0 <= h < |specs| ==> pools[p][h].Valid()
        invariant forall h :: 0 <= h < g ==>
          && pools[p][h].pins == old(pools[p][h].pins)
          && pools[p][h].State() == Release(old(pools[p][h].State()), r)
          && pools[p][h].tables == old(pools[p][h].tables) - {r}
        invariant forall q, h :: 0 <= q < |pools| && 0 <= h < |specs| && (q != p || h >= g) ==> unchanged(pools[q][h])
      {
        PoolReleases(pools[p][g], r);
        pools[p][g].ReleaseRequest(r);
      }
    }

    // ---- steps in flight ----

    /** The snapshot can be pinned in every group. */
    ghost predicate Retainable(p: nat, ids: seq<seq<nat>>)
      requires Shape() && p < |pools| && |ids| == |specs|
      reads Objects()
    {
      forall g :: 0 <= g < |specs| ==> CanRetain(pools[p][g].State(), ids[g])
    }

    method CheckRetainable(p: nat, ids: seq<seq<nat>>) returns (ok: bool)
      requires Shape() && p < |pools| && |ids| == |specs|
      ensures ok <==> Retainable(p, ids)
    {
      hide CanRetain;
      for g := 0 to |specs|
        invariant forall h :: 0 <= h < g ==> CanRetain(pools[p][h].State(), ids[h])
      {
        ok := pools[p][g].MayRetain(ids[g]);
        if !ok { return; }
      }
      ok := true;
    }

    /** `retain_group_block_snapshot`: all groups are pinned, or none. */
    method RetainSnapshot(p: nat, ids: seq<seq<nat>>) returns (ok: bool)
      requires Valid() && p < |pools| && |ids| == |specs|
      modifies Objects()
      ensures Valid() && (ok <==> old(Retainable(p, ids)))
      ensures forall q, g :: 0 <= q < |pools| && 0 <= g < |specs| && (q != p || !ok) ==> unchanged(pools[q][g])
      ensures ok ==> forall g :: 0 <= g < |specs| ==>
        && PinnedTo(old(pools[p][g].State()), ids[g], pools[p][g].State())
        && pools[p][g].pins == old(pools[p][g].pins) + multiset(ids[g])
    {
      hide GroupBlockPool.Valid, CanRetain, PinAll, PinnedTo;
      ok := CheckRetainable(p, ids);
      if !ok { return; }
      for g := 0 to |specs|
        invariant forall q, h :: 0 <= q < |pools| && 0 <= h < |specs| ==>
          pools[q][h].Valid() && pools[q][h].tables == old(pools[q][h].tables)
        invariant forall h :: 0 <= h < g ==>
          && PinnedTo(old(pools[p][h].State()), ids[h], pools[p][h].State())
          && pools[p][h].pins == old(pools[p][h].pins) + multiset(ids[h])
        invariant forall q, h :: 0 <= q < |pools| && 0 <= h < |specs| && (q != p || h >= g) ==> unchanged(pools[q][h])
      {
        ghost var before := pools[p][g].State();
        var pinned := pools[p][g].Retain(ids[g]);
        IsPinned(before, ids[g]);
      }
    }

    /** `release_group_block_snapshot` for a snapshot that is pinned: it does not raise. */
    method ReleaseSnapshot(p: nat, ids: seq<seq<nat>>) returns (ok: bool)
      requires Valid() && p < |pools| && |ids| == |specs|
      requires forall g :: 0 <= g < |specs| ==> multiset(ids[g]) <= pools[p][g].pins
      modifies Objects()
      ensures Valid() && ok
      ensures forall q, g :: 0 <= q < |pools| && 0 <= g < |specs| && q != p ==>
        pools[q][g].State() == old(pools[q][g].State()) && pools[q][g].pins == old(pools[q][g].pins)
      ensures forall g :: 0 <= g < |specs| ==>
        && UnpinnedTo(old(pools[p][g].State()), ids[g], pools[p][g].State())
        && pools[p][g].pins == old(pools[p][g].pins) - multiset(ids[g])
    {
      hide GroupBlockPool.Valid, UnpinAll, UnpinnedTo;
      ok := UnpinGroups(p, ids);
    }

    method UnpinGroups(p: nat, ids: seq<seq<nat>>) returns (ok: bool)
      requires Shape() && p < |pools| && |ids| == |specs|
      requires forall g :: 0 <= g < |specs| ==> pools[p][g].Valid() && multiset(ids[g]) <= pools[p][g].pins
      modifies Objects()
      ensures ok && forall q, g :: 0 <= q < |pools| && 0 <= g < |specs| && q != p ==> unchanged(pools[q][g])
      ensures forall g :: 0 <= g < |specs| ==>
        && pools[p][g].Valid() && pools[p][g].tables == old(pools[p][g].tables)
        && UnpinnedTo(old(pools[p][g].State()), ids[g], pools[p][g].State())
        && pools[p][g].pins == old(pools[p][g].pins) - multiset(ids[g])
    {
      hide GroupBlockPool.Valid, UnpinAll, UnpinnedTo;
      for g := 0 to |specs|
        invariant forall h :: 0 <= h < |specs| ==> pools[p][h].Valid()
        invariant forall h :: 0 <= h < g ==>
          && pools[p][h].tables == old(pools[p][h].tables)
          && UnpinnedTo(old(pools[p][h].State()), ids[h], pools[p][h].State())
          && pools[p][h].pins == old(pools[p][h].pins) - multiset(ids[h])
        invariant forall q, h :: 0 <= q < |pools| && 0 <= h < |specs| && (q != p || h >= g) ==> unchanged(pools[q][h])
      {
        ghost var before := pools[p][g].State();
        ok := pools[p][g].ReleaseSnapshot(ids[g]);
        IsUnpinned(before, ids[g], pools[p][g].State());
      }
      ok := true;
    }

    // ---- the longest cached prefix ----

    /** One list of page hashes a group, each hash chained to the one before it. */
    ghost predicate HashesFit(hashes: seq<seq<Hash>>) {
      && |hashes| == |specs|
      && forall g, i :: 0 <= g < |specs| && 0 <= i < |hashes[g]| ==> Depth(hashes[g][i]) == i + 1
    }

    /** Every group ends on a full page at `tokens`. */
    ghost predicate IsBoundary(tokens: nat)
      requires Shape()
    {
      forall g :: 0 <= g < |specs| ==> tokens % specs[g].capacity == 0
    }

    /** A request with these hashes can resume at `tokens` in partition `p`: every group still
        holds the pages it needs there. */
    ghost predicate Resumes(p: nat, hashes: seq<seq<Hash>>, tokens: nat)
      requires Shape() && p < |pools| && |hashes| == |specs|
      reads Objects()
    {
      forall g :: 0 <= g < |specs| ==> HitAt(pools[p][g].State(), hashes[g], tokens / specs[g].capacity)
    }

    /** The tables that partition `p` offers at `tokens`. */
    ghost predicate Offers(p: nat, hashes: seq<seq<Hash>>, tokens: nat, selected: seq<Table>)
      requires Shape() && p < |pools| && |hashes| == |specs|
      reads Objects()
    {
      && |selected| == |specs|
      && forall g :: 0 <= g < |specs| ==>
           && HitAt(pools[p][g].State(), hashes[g], tokens / specs[g].capacity)
           && selected[g] == Selected(pools[p][g].State(), hashes[g], tokens / specs[g].capacity)
    }

    /** One round of the candidate loop: can every group resume at `tokens`? */
    method TryCandidate(p: nat, hashes: seq<seq<Hash>>, tokens: nat) returns (selected: Option<seq<Table>>)
      requires Shape() && p < |pools| && |hashes| == |specs|
      ensures selected.Some? <==> Resumes(p, hashes, tokens)
      ensures selected.Some? ==> Offers(p, hashes, tokens, selected.value)
    {
      hide HitAt, Selected;
      var found: seq<Table> := [];
      for g := 0 to |specs|
        invariant |found| == g
        invariant forall h :: 0 <= h < g ==>
          && HitAt(pools[p][h].State(), hashes[h], tokens / specs[h].capacity)
          && found[h] == Selected(pools[p][h].State(), hashes[h], tokens / specs[h].capacity)
      {
        var table := pools[p][g].SelectPrefix(hashes[g], tokens / specs[g].capacity);
        if table.None? { return None; }
        found := found + [table.value];
      }
      return Some(found);
    }

    /** The first pass over the full-history groups: no boundary that partition `p` can resume
        at lies beyond the result. */
    method NarrowCandidate(p: nat, hashes: seq<seq<Hash>>, limit: nat) returns (candidate: nat)
      requires Shape() && p < |pools| && |hashes| == |specs|
      ensures candidate <= limit
      ensures forall c: nat :: c <= limit && IsBoundary(c) && Resumes(p, hashes, c) ==> c <= candidate
    {
      hide HitAt;
      candidate := limit;
      for g := 0 to |specs|
        invariant candidate <= limit
        invariant forall c: nat :: c <= limit && IsBoundary(c) && Resumes(p, hashes, c) ==> c <= candidate
      {
        if specs[g].window.None? {
          var size := specs[g].capacity;
          var pages := Min(Min(candidate / size, specs[g].maxBlocks), |hashes[g]|);
          var hits := pools[p][g].CountHits(hashes[g], pages);
          forall c: nat | c <= limit && IsBoundary(c) && Resumes(p, hashes, c)
            ensures c <= hits * size
          {
            HitsBound(pools[p][g].State(), hashes[g], candidate, c, hits);
          }
          candidate := Min(candidate, hits * size);
        }
      }
    }

    /** The search of one partition: the last boundary within the limit at which it can resume. */
    method SearchPartition(p: nat, hashes: seq<seq<Hash>>, limit: nat) returns (tokens: nat, selected: seq<Table>)
      requires Shape() && p < |pools| && |hashes| == |specs|
      ensures tokens <= limit && IsBoundary(tokens)
      ensures tokens > 0 ==> Offers(p, hashes, tokens, selected)
      ensures forall c: nat :: tokens < c <= limit && IsBoundary(c) ==> !old(Resumes(p, hashes, c))
    {
      hide HitAt, Selected, AlignmentOf;
      AlignmentOk();
      var alignment := AlignmentOf(specs);
      tokens := NarrowCandidate(p, hashes, limit);
      BoundaryBelow(tokens, alignment);
      tokens := tokens - tokens % alignment;
      selected := [];
      while tokens > 0
        invariant tokens <= limit && tokens % alignment == 0
        invariant forall c: nat :: tokens < c <= limit && IsBoundary(c) ==> !old(Resumes(p, hashes, c))
      {
        AlignmentExact(specs, tokens);
        var offered := TryCandidate(p, hashes, tokens);
        if offered.Some? { return tokens, offered.value; }
        PreviousBoundary(tokens, alignment);
        tokens := tokens - alignment;
      }
      AlignmentExact(specs, 0);
    }

    lemma AlignmentOk()
      requires Shape()
      ensures AlignmentOf(specs) > 0
    {
      AlignmentExact(specs, 0);
    }

    /** No boundary lies strictly between two neighbouring multiples of the alignment. */
    lemma NoBoundaryAfter(base: nat, alignment: nat)
      requires Shape() && alignment == AlignmentOf(specs) && alignment > 0 && base % alignment == 0
      ensures forall c: nat :: base < c < base + alignment ==> !IsBoundary(c)
    {
      hide AlignmentOf;
      forall c: nat | base < c < base + alignment
        ensures !IsBoundary(c)
      {
        AlignmentExact(specs, c);
        BetweenMultiples(base, c, alignment);
      }
    }

    lemma BoundaryBelow(tokens: nat, alignment: nat)
      requires Shape() && alignment == AlignmentOf(specs) && alignment > 0
      ensures tokens % alignment <= tokens && (tokens - tokens % alignment) % alignment == 0
      ensures forall c: nat :: tokens - tokens % alignment < c <= tokens ==> !IsBoundary(c)
    {
      hide AlignmentOf;
      RoundedDown(tokens, alignment);
      NoBoundaryAfter(tokens - tokens % alignment, alignment);
    }

    lemma PreviousBoundary(tokens: nat, alignment: nat)
      requires Shape() && alignment == AlignmentOf(specs) && alignment > 0 && tokens > 0 && tokens % alignment == 0
      ensures tokens >= alignment && (tokens - alignment) % alignment == 0
      ensures forall c: nat :: tokens - alignment < c < tokens ==> !IsBoundary(c)
    {
      hide AlignmentOf;
      OneMultipleLess(tokens, alignment);
      NoBoundaryAfter(tokens - alignment, alignment);
    }

    /** The search over all partitions, before anything is attached. */
    method FindPrefix(hashes: seq<seq<Hash>>, limit: nat) returns (tokens: nat, partition: nat, selected: seq<Table>)
      requires Shape() && |hashes| == |specs|
      ensures tokens <= limit && partition < |pools|
      ensures tokens > 0 ==> IsBoundary(tokens) && Offers(partition, hashes, tokens, selected)
      ensures forall q, c: nat :: 0 <= q < |pools| && tokens < c <= limit && IsBoundary(c) ==>
        !old(Resumes(q, hashes, c))
      ensures tokens > 0 ==> forall q :: 0 <= q < partition ==> !old(Resumes(q, hashes, tokens))
    {
      hide HitAt, Selected;
      tokens, partition, selected := 0, 0, [];
      for p := 0 to |pools|
        invariant tokens <= limit && partition < |pools| && (tokens > 0 ==> partition < p)
        invariant tokens > 0 ==> IsBoundary(tokens) && Offers(partition, hashes, tokens, selected)
        invariant forall q, c: nat :: 0 <= q < p && tokens < c <= limit && IsBoundary(c) ==> !old(Resumes(q, hashes, c))
        invariant tokens > 0 ==> forall q :: 0 <= q < partition ==> !old(Resumes(q, hashes, tokens))
      {
        var c, offered := SearchPartition(p, hashes, limit);
        if c > tokens {
          tokens, partition, selected := c, p, offered;
        }
      }
    }

    /** `acquire_group_prefix_blocks`: attaches the longest cached prefix, taken over all page
        boundaries within the limit and all partitions, or changes nothing. */
    method AcquirePrefix(r: ReqId, hashes: seq<seq<Hash>>, maxTokens: int) returns (result: AcquireResult)
      requires Valid() && (|hashes| == |specs| ==> HashesFit(hashes))
      modifies this, Objects()
      ensures Valid() && nextPartition == old(nextPartition)
      ensures result == AlreadyOwned <==> r in old(partitionOf)
      ensures result == WrongGroups <==> r !in old(partitionOf) && |hashes| != |specs|
      ensures !result.Hit? ==>
        && partitionOf == old(partitionOf)
        && (forall p, g :: 0 <= p < |pools| && 0 <= g < |specs| ==> pools[p][g].State() == old(pools[p][g].State()))
      ensures result == Miss ==>
        && |hashes| == |specs|
        && forall p, c: nat :: 0 <= p < |pools| && 0 < c <= maxTokens && IsBoundary(c) ==> !old(Resumes(p, hashes, c))
      ensures result.Hit? ==>
        && |hashes| == |specs| && result.partition < |pools|
        && 0 < result.tokens <= maxTokens && IsBoundary(result.tokens)
        && old(Resumes(result.partition, hashes, result.tokens))
        && (forall p, c: nat :: 0 <= p < |pools| && result.tokens < c <= maxTokens && IsBoundary(c) ==>
          !old(Resumes(p, hashes, c)))
        && (forall p :: 0 <= p < result.partition ==> !old(Resumes(p, hashes, result.tokens)))
      ensures result.Hit? ==> Attached(r, hashes, result.tokens, result.partition)
    {
      hide HitAt, Selected, Attach, GroupBlockPool.Valid;
      if r in partitionOf { return AlreadyOwned; }
      if |hashes| != |specs| { return WrongGroups; }
      var tokens, partition, selected := FindPrefix(hashes, Max(0, maxTokens));
      if tokens == 0 { return Miss; }
      AttachGroups(r, hashes, tokens, partition, selected);
      return Hit(tokens, partition);
    }

    /** The request's tables after a hit: what partition `p` offered at `tokens`. */
    twostate predicate Attached(r: ReqId, hashes: seq<seq<Hash>>, tokens: nat, p: nat)
      requires Shape() && p < |pools| && |hashes| == |specs| && old(Resumes(p, hashes, tokens))
      reads this, Objects()
    {
      && partitionOf == old(partitionOf)[r := p]
      && (forall g :: 0 <= g < |specs| ==>
            AttachedTo(old(pools[p][g].State()), r, hashes[g], tokens / specs[g].capacity, pools[p][g].State()))
      && (forall q, g :: 0 <= q < |pools| && 0 <= g < |specs| && q != p ==>
        pools[q][g].State() == old(pools[q][g].State()))
    }

    /** Places the request and attaches the offered tables. */
    method AttachGroups(r: ReqId, hashes: seq<seq<Hash>>, tokens: nat, p: nat, selected: seq<Table>)
      requires Valid() && HashesFit(hashes) && r !in partitionOf && p < |pools|
      requires Offers(p, hashes, tokens, selected)
      modifies this, Objects()
      ensures Valid() && nextPartition == old(nextPartition)
      ensures old(Resumes(p, hashes, tokens)) && Attached(r, hashes, tokens, p)
    {
      hide HitAt, AttachedTo, GroupBlockPool.Valid;
      AttachTables(r, hashes, tokens, p, selected);
      partitionOf := partitionOf[r := p];
    }

    /** The attaching loop over the groups. */
    method AttachTables(r: ReqId, hashes: seq<seq<Hash>>, tokens: nat, p: nat, selected: seq<Table>)
      requires Valid() && HashesFit(hashes) && r !in partitionOf && p < |pools|
      requires Offers(p, hashes, tokens, selected)
      modifies Objects()
      ensures forall q, h :: 0 <= q < |pools| && 0 <= h < |specs| ==> pools[q][h].Valid()
      ensures forall h, o :: 0 <= h < |specs| ==> (o in pools[p][h].tables <==> o == r || o in old(pools[p][h].tables))
      ensures forall h :: 0 <= h < |specs| ==>
        && HitAt(old(pools[p][h].State()), hashes[h], tokens / specs[h].capacity)
        && AttachedTo(old(pools[p][h].State()), r, hashes[h], tokens / specs[h].capacity, pools[p][h].State())
      ensures forall q, h :: 0 <= q < |pools| && 0 <= h < |specs| && q != p ==>
        pools[q][h].State() == old(pools[q][h].State()) && pools[q][h].tables == old(pools[q][h].tables)
    {
      hide HitAt, AttachedTo, GroupBlockPool.Valid, Selected, Attach, IsBoundary, Resumes;
      for g := 0 to |specs|
        invariant forall q, h :: 0 <= q < |pools| && 0 <= h < |specs| ==> pools[q][h].Valid()
        invariant forall h, o :: 0 <= h < g ==> (o in pools[p][h].tables <==> o == r || o in old(pools[p][h].tables))
        invariant forall h :: 0 <= h < g ==>
          AttachedTo(old(pools[p][h].State()), r, hashes[h], tokens / specs[h].capacity, pools[p][h].State())
        invariant forall q, h :: 0 <= q < |pools| && 0 <= h < |specs| && (q != p || h >= g) ==>
          pools[q][h].State() == old(pools[q][h].State()) && pools[q][h].tables == old(pools[q][h].tables)
      {
        var pages := tokens / specs[g].capacity;
        OfferIsAttachable(pools[p][g], r, hashes[g], pages);
        pools[p][g].AttachPrefix(r, selected[g], pages);
      }
    }
  }

  /** How far partition `p` is from `next` in round-robin order over `n` partitions. */
  function Distance(next: nat, p: nat, n: nat): (d: nat)
    requires next < n && p < n
    ensures d < n && (next + d) % n == p
  {
    if p >= next then p - next else p + n - next
  }

  /** The search of `_select_group_partition`: one pass in round-robin order. */
  method LeastLoaded(fits: seq<bool>, loads: seq<nat>, next: nat) returns (selected: Option<nat>)
    requires |fits| == |loads| && next < |fits|
    ensures selected.None? ==> forall p :: 0 <= p < |fits| ==> !fits[p]
    ensures selected.Some? ==> selected.value < |fits| && fits[selected.value]
    ensures selected.Some? ==>
      forall p :: 0 <= p < |fits| && fits[p] ==>
        && loads[selected.value] <= loads[p]
        && (loads[selected.value] == loads[p] ==> Distance(next, selected.value, |fits|) <= Distance(next, p, |fits|))
  {
    selected := None;
    for offset := 0 to |fits|
      invariant selected.None? ==> forall p :: 0 <= p < |fits| && Distance(next, p, |fits|) < offset ==> !fits[p]
      invariant selected.Some? ==>
        selected.value < |fits| && fits[selected.value] && Distance(next, selected.value, |fits|) < offset
      invariant selected.Some? ==>
        forall p :: 0 <= p < |fits| && Distance(next, p, |fits|) < offset && fits[p] ==>
          && loads[selected.value] <= loads[p]
          && (loads[selected.value] == loads[p] ==> Distance(next, selected.value, |fits|) <= Distance(next, p, |fits|))
    {
      var p := if next + offset < |fits| then next + offset else next + offset - |fits|;
      assert Distance(next, p, |fits|) == offset;
      if fits[p] && (selected.None? || loads[p] < loads[selected.value]) {
        selected := Some(p);
      }
    }
  }

  /** A pool as `init_groups` makes it. */
  ghost predicate IsFreshPool(pool: GroupBlockPool, spec: GroupSpec, numBlocks: nat)
    reads pool
  {
    pool.Valid() && pool.spec == spec && pool.pins == multiset{} && pool.State() == InitialPool(spec, numBlocks)
  }

  method NewRow(specs: seq<GroupSpec>, numBlocks: seq<nat>) returns (row: seq<GroupBlockPool>)
    requires |numBlocks| == |specs| && forall g :: 0 <= g < |specs| ==> specs[g].Valid()
    ensures |row| == |specs|
    ensures forall g :: 0 <= g < |specs| ==> fresh(row[g])
    ensures forall g :: 0 <= g < |specs| ==> IsFreshPool(row[g], specs[g], numBlocks[g])
    ensures forall g, h :: 0 <= g < |specs| && 0 <= h < |specs| && row[g] == row[h] ==> g == h
  {
    row := [];
    for g := 0 to |specs|
      invariant |row| == g
      invariant forall h :: 0 <= h < g ==> fresh(row[h])
      invariant forall h :: 0 <= h < g ==> IsFreshPool(row[h], specs[h], numBlocks[h])
      invariant forall h, k :: 0 <= h < g && 0 <= k < g && row[h] == row[k] ==> h == k
    {
      var pool := new GroupBlockPool(specs[g], numBlocks[g]);
      row := row + [pool];
    }
  }

  method NewPools(specs: seq<GroupSpec>, numBlocks: seq<nat>, partitions: nat) returns (made: seq<seq<GroupBlockPool>>)
    requires |numBlocks| == |specs| && forall g :: 0 <= g < |specs| ==> specs[g].Valid()
    ensures |made| == partitions && forall p :: 0 <= p < partitions ==> |made[p]| == |specs|
    ensures forall p, g :: 0 <= p < partitions && 0 <= g < |specs| ==> fresh(made[p][g])
    ensures forall p, g :: 0 <= p < partitions && 0 <= g < |specs| ==> IsFreshPool(made[p][g], specs[g], numBlocks[g])
    ensures forall p, g, q, h :: 0 <= p < partitions && 0 <= q < partitions && 0 <= g < |specs| && 0 <= h < |specs| ==>
      made[p][g] == made[q][h] ==> p == q && g == h
  {
    made := [];
    for p := 0 to partitions
      invariant |made| == p && forall q :: 0 <= q < p ==> |made[q]| == |specs|
      invariant forall q, g :: 0 <= q < p && 0 <= g < |specs| ==> fresh(made[q][g])
      invariant forall q, g :: 0 <= q < p && 0 <= g < |specs| ==> IsFreshPool(made[q][g], specs[g], numBlocks[g])
      invariant forall q, g, k, h :: 0 <= q < p && 0 <= k < p && 0 <= g < |specs| && 0 <= h < |specs| ==>
        made[q][g] == made[k][h] ==> q == k && g == h
    {
      var row := NewRow(specs, numBlocks);
      made := made + [row];
    }
  }

  lemma ReleaseNothing(p: Pool, r: ReqId)
    requires r !in p.tables
    ensures Release(p, r) == p
  {
  }

  lemma PoolReleases(pool: GroupBlockPool, r: ReqId)
    requires pool.Valid()
    ensures Release(pool.State(), r).tables == pool.tables - {r}
  {
    hide Inv, Release;
    PoolOperations.ReleaseInv(pool.State(), pool.pins, r);
  }

  lemma PoolGrows(pool: GroupBlockPool, r: ReqId, target: nat)
    requires pool.Valid() && (pool.spec.window.None? ==> target <= pool.spec.maxBlocks)
    ensures pool.spec.Valid()
    ensures Grow(pool.State(), r, target).Some? ==>
      Grow(pool.State(), r, target).value.tables.Keys == pool.tables.Keys + {r}
  {
    hide Inv, Grow;
    PoolOk(pool);
    GrowTables(pool.State(), pool.pins, r, target);
  }

  /** The request has room for `tokens` tokens, and no page more than that or than before. */
  ghost predicate Covers(before: Pool, after: Pool, r: ReqId, tokens: nat) {
    && r in after.logical && before.LogicalOf(r) <= after.logical[r]
    && tokens <= after.logical[r] * after.spec.capacity
    && (before.LogicalOf(r) < after.logical[r] ==> (after.logical[r] - 1) * after.spec.capacity < tokens)
  }

  /** What growth for `tokens` tokens makes of one group's pool. */
  ghost predicate GrownTo(before: Pool, after: Pool, r: ReqId, target: nat, tokens: nat) {
    before.spec.Valid() && Grow(before, r, target) == Some(after) && Covers(before, after, r, tokens)
  }

  lemma IsGrownTo(before: Pool, after: Pool, r: ReqId, target: nat, tokens: nat)
    requires before.spec.Valid() && Grow(before, r, target) == Some(after) && Covers(before, after, r, tokens)
    ensures GrownTo(before, after, r, target, tokens)
  {
  }

  lemma PoolCovers(pool: GroupBlockPool, r: ReqId, tokens: nat)
    requires pool.Valid() && pool.spec.capacity > 0
    requires pool.spec.window.None? ==> CeilDiv(tokens, pool.spec.capacity) <= pool.spec.maxBlocks
    ensures
      var grown := Grow(pool.State(), r, CeilDiv(tokens, pool.spec.capacity));
      grown.Some? ==> Covers(pool.State(), grown.value, r, tokens)
  {
    hide Inv, Grow, CeilDiv;
    PoolOk(pool);
    var target := CeilDiv(tokens, pool.spec.capacity);
    if Grow(pool.State(), r, target).Some? {
      var q := Grow(pool.State(), r, target).value;
      GrowthQueue.GrowReaches(pool.State(), pool.pins, r, target);
      CeilDivExact(tokens, pool.spec.capacity, q.logical[r]);
      if q.logical[r] > 0 { CeilDivExact(tokens, pool.spec.capacity, q.logical[r] - 1); }
      GrowKeepsSpec(pool.State(), pool.pins, r, target);
    }
  }

  lemma GrowKeepsSpec(p: Pool, pins: multiset<nat>, r: ReqId, target: nat)
    requires Inv(p, pins) && p.spec.Valid() && (p.spec.window.None? ==> target <= p.spec.maxBlocks)
    ensures Grow(p, r, target).Some? ==> Grow(p, r, target).value.spec == p.spec
  {
    hide Inv, Grow;
    GrowthEffect.GrowEffect(p, pins, r, target);
  }

  lemma PoolOk(pool: GroupBlockPool)
    requires pool.Valid()
    ensures Inv(pool.State(), pool.pins) && pool.spec.Valid()
  {
  }

  lemma GrowTables(p: Pool, pins: multiset<nat>, r: ReqId, target: nat)
    requires Inv(p, pins) && (p.spec.window.None? ==> target <= p.spec.maxBlocks) && p.spec.Valid()
    ensures Grow(p, r, target).Some? ==> Grow(p, r, target).value.tables.Keys == p.tables.Keys + {r}
  {
    hide Inv, Grow;
    GrowthEffect.GrowEffect(p, pins, r, target);
  }

  /** A full-history group that can resume at `c` has at least `c / capacity` leading hits. */
  lemma HitsBound(p: Pool, hs: seq<Hash>, candidate: nat, c: nat, hits: nat)
    requires p.spec.Valid() && p.spec.window.None? && c <= candidate && c % p.spec.capacity == 0
    requires HitAt(p, hs, c / p.spec.capacity)
    requires hits <= Min(Min(candidate / p.spec.capacity, p.spec.maxBlocks), |hs|)
    requires hits < Min(Min(candidate / p.spec.capacity, p.spec.maxBlocks), |hs|) ==> hs[hits] !in p.index
    ensures c <= hits * p.spec.capacity
  {
    var size := p.spec.capacity;
    var pages := c / size;
    assert c == pages * size;
    DivisionMonotone(c, candidate, size);
    assert pages <= hits;
    assert pages * size <= hits * size;
  }

  lemma RoundedDown(n: nat, m: nat)
    requires m > 0
    ensures 0 <= n % m <= n && n % m < m && (n - n % m) % m == 0
  {
    var q := n / m;
    assert n == q * m + n % m;
    MultipleMod(q, m);
    assert n - n % m == q * m;
    assert q * m >= 0;
  }

  lemma OneMultipleLess(n: nat, m: nat)
    requires m > 0 && n > 0 && n % m == 0
    ensures n >= m && (n - m) % m == 0
  {
    var q := n / m;
    assert n == q * m;
    assert q >= 1;
    Times(1, q, m);
    MultipleMod(q - 1, m);
    assert (q - 1) * m == n - m;
  }

  lemma BetweenMultiples(base: nat, c: nat, m: nat)
    requires m > 0 && base % m == 0 && base < c < base + m
    ensures c % m != 0
  {
    if c % m == 0 {
      DifferenceOfMultiples(c, base, m);
    }
  }

  lemma DifferenceOfMultiples(a: nat, b: nat, m: nat)
    requires m > 0 && a % m == 0 && b % m == 0 && a > b
    ensures a - b >= m
  {
    var x, y := a / m, b / m;
    assert a == x * m && b == y * m;
    if x <= y { Times(x, y, m); } else { Times(y + 1, x, m); assert (y + 1) * m == y * m + m; }
  }

  /** What pinning a snapshot makes of one group's pool. */
  ghost predicate PinnedTo(before: Pool, ids: seq<nat>, after: Pool) {
    && CanRetain(before, ids) && after == PinAll(before, ids)
    && QueueOrder.OneLess(after.refs, before.refs, ids)
  }

  /** And what releasing it makes: what it frees joins the queue in the order of the snapshot. */
  ghost predicate UnpinnedTo(before: Pool, ids: seq<nat>, after: Pool) {
    && UnpinAll(before, ids) == Some(after)
    && (NoDuplicates(ids) ==> after.free == before.free + QueueOrder.Freed(before.refs, ids))
  }

  lemma IsUnpinned(before: Pool, ids: seq<nat>, after: Pool)
    requires UnpinAll(before, ids) == Some(after)
    ensures UnpinnedTo(before, ids, after)
  {
    if NoDuplicates(ids) { QueueOrder.UnpinQueue(before, ids); }
  }

  lemma IsPinned(before: Pool, ids: seq<nat>)
    requires CanRetain(before, ids)
    ensures PinnedTo(before, ids, PinAll(before, ids))
  {
    QueueOrder.PinOnce(before, ids);
  }

  /** What attaching a hit of `pages` pages makes of one group's pool. */
  ghost predicate AttachedTo(before: Pool, r: ReqId, hs: seq<Hash>, pages: nat, after: Pool)
    requires before.spec.Valid() && HitAt(before, hs, pages)
  {
    && InRange(Selected(before, hs, pages), |before.refs|)
    && after == Attach(before, r, Selected(before, hs, pages), pages)
    && HoldsWindow(before, r, hs, pages, after)
  }

  /** The request resumes after `pages` pages, and every page it needs there is in its slot of
      the table, in the block that was published for it. */
  ghost predicate HoldsWindow(before: Pool, r: ReqId, hs: seq<Hash>, pages: nat, after: Pool) {
    && r in after.tables && r in after.logical && after.logical[r] == pages <= |hs|
    && |after.tables[r]| == (if before.spec.window.Some? then Min(pages, before.spec.maxBlocks) else pages)
    && forall page ::
         0 <= page < pages && (before.spec.window.Some? ==> page + before.spec.window.value >= pages)
         ==>
         && hs[page] in before.index && |after.tables[r]| > 0
         && after.tables[r][page % |after.tables[r]|] == Some(before.index[hs[page]])
  }

  lemma AttachHoldsWindow(p: Pool, pins: multiset<nat>, r: ReqId, hs: seq<Hash>, pages: nat)
    requires Inv(p, pins) && r !in p.tables && HitAt(p, hs, pages)
    requires forall i :: 0 <= i < |hs| ==> Depth(hs[i]) == i + 1
    ensures p.spec.Valid() && InRange(Selected(p, hs, pages), |p.refs|)
    ensures HoldsWindow(p, r, hs, pages, Attach(p, r, Selected(p, hs, pages), pages))
  {
    hide QueueOk, TablesOk, RefsOk, SizesOk, SelectFrom, HitAt, Attach, Selected, NeededPage;
    SelectedInjective(p, hs, pages);
    HitFits(p, hs, pages);
    PoolOperations.AttachInv(p, pins, r, Selected(p, hs, pages), pages);
    forall page | 0 <= page < pages && (p.spec.window.Some? ==> page + p.spec.window.value >= pages)
      ensures hs[page] in p.index && Selected(p, hs, pages) != []
      ensures Selected(p, hs, pages)[page % |Selected(p, hs, pages)|] == Some(p.index[hs[page]])
    {
      HitHoldsWindow(p, hs, pages, page);
    }
  }

  lemma OfferIsAttachable(pool: GroupBlockPool, r: ReqId, hs: seq<Hash>, pages: nat)
    requires pool.Valid() && pool.spec.Valid() && r !in pool.tables && HitAt(pool.State(), hs, pages)
    requires forall i :: 0 <= i < |hs| ==> Depth(hs[i]) == i + 1
    ensures
      var t := Selected(pool.State(), hs, pages);
      && InRange(t, |pool.refs|) && Injective(t) && |t| == pool.spec.TableSize(pages)
      && (pool.spec.window.None? ==> NoHoles(t) && pages <= pool.spec.maxBlocks)
      && AttachedTo(pool.State(), r, hs, pages, Attach(pool.State(), r, t, pages))
      && Attach(pool.State(), r, t, pages).tables.Keys == pool.tables.Keys + {r}
  {
    AttachHoldsWindow(pool.State(), pool.pins, r, hs, pages);
    SelectedInjective(pool.State(), hs, pages);
    var p, t := pool.State(), Selected(pool.State(), hs, pages);
    ShareFromKeys(p.(tables := p.tables[r := Blank(|t|)], logical := p.logical[r := pages]), r, t, 0);
  }

  lemma {:induction false} ShareFromKeys(p: Pool, r: ReqId, t: Table, slot: nat)
    requires r in p.tables && slot <= |t| == |p.tables[r]| && InRange(t, |p.refs|)
    ensures ShareFrom(p, r, t, slot).tables.Keys == p.tables.Keys
    decreases |t| - slot
  {
    if slot < |t| {
      ShareFromKeys(if t[slot].Some? then Share(p, r, slot, t[slot].value) else p, r, t, slot + 1);
    }
  }
}
