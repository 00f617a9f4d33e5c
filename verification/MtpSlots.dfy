/** The slots of the draft head's request state: one free list a rank, and a generation a slot
    that tells the device whether a descriptor is stale. */
module MtpSlots {
  import opened CacheTypes
  import opened Queues

  const GENERATION_LIMIT := 0x8000_0000

  /** `tail_rank`, `tail_slot_id` and `generation` of a request's state. */
  datatype Owner = Owner(rank: nat, slot: nat, generation: nat)

  /** A request's state exists before it has a slot. */
  type Owners = map<ReqId, Option<Owner>>

  predicate OnRank(owners: Owners, id: ReqId, rank: nat) {
    id in owners && owners[id].Some? && owners[id].value.rank == rank
  }

  function OwnedSlots(owners: Owners, rank: nat): set<nat> {
    set id | id in owners && OnRank(owners, id, rank) :: owners[id].value.slot
  }

  /** Each slot of the rank is either free, once, or owned by exactly one request. */
  ghost predicate Partitioned(free: seq<nat>, owners: Owners, rank: nat, slots: nat) {
    && NoDuplicates(free)
    && SetOf(free) !! OwnedSlots(owners, rank)
    && SetOf(free) + OwnedSlots(owners, rank) == SetOf(seq(slots, s => s))
    && forall id, other :: OnRank(owners, id, rank) && OnRank(owners, other, rank) && id != other ==>
         owners[id].value.slot != owners[other].value.slot
  }

  lemma OwnedAfterTake(owners: Owners, rank: nat, id: ReqId, owner: Owner)
    requires id in owners ==> owners[id].None?
    ensures OwnedSlots(owners[id := Some(owner)], rank)
         == OwnedSlots(owners, rank) + if owner.rank == rank then {owner.slot} else {}
  {
    var next := owners[id := Some(owner)];
    forall o | o in owners && OnRank(owners, o, rank)
      ensures owners[o].value.slot in OwnedSlots(next, rank)
    {
      assert OnRank(next, o, rank) && next[o] == owners[o];
    }
    if owner.rank == rank {
      assert OnRank(next, id, rank);
    }
  }

  lemma OwnedAfterRelease(owners: Owners, rank: nat, id: ReqId)
    requires id in owners
    requires forall o :: OnRank(owners, id, rank) && OnRank(owners, o, rank) && o != id ==>
      owners[o].value.slot != owners[id].value.slot
    ensures OwnedSlots(owners - {id}, rank)
         == OwnedSlots(owners, rank) - if OnRank(owners, id, rank) then {owners[id].value.slot} else {}
  {
    var next := owners - {id};
    forall o | o in next && OnRank(next, o, rank)
      ensures OnRank(owners, o, rank) && next[o] == owners[o]
    {
    }
    forall o | o in owners && OnRank(owners, o, rank) && o != id
      ensures owners[o].value.slot in OwnedSlots(next, rank)
    {
      assert OnRank(next, o, rank);
    }
  }

  /** Taking the last free slot for a request without one keeps the partition of every rank. */
  lemma TakeKeeps(free: seq<nat>, owners: Owners, rank: nat, slots: nat, id: ReqId, owner: Owner)
    requires Partitioned(free, owners, rank, slots) && (id in owners ==> owners[id].None?)
    requires owner.rank == rank ==> free != [] && owner.slot == free[|free| - 1]
    ensures Partitioned(if owner.rank == rank then free[..|free| - 1] else free, owners[id := Some(owner)], rank, slots)
  {
    hide OwnedSlots;
    OwnedAfterTake(owners, rank, id, owner);
    var next := owners[id := Some(owner)];
    if owner.rank == rank {
      assert free == free[..|free| - 1] + [owner.slot];
      SetOfAppend(free[..|free| - 1], owner.slot);
      OwnedMembers(owners, rank);
    }
    forall o, other | OnRank(next, o, rank) && OnRank(next, other, rank) && o != other
      ensures next[o].value.slot != next[other].value.slot
    {
      assert o != id ==> OnRank(owners, o, rank);
      assert other != id ==> OnRank(owners, other, rank);
    }
  }

  lemma OwnedMembers(owners: Owners, rank: nat)
    ensures forall o :: OnRank(owners, o, rank) ==> owners[o].value.slot in OwnedSlots(owners, rank)
  {
  }

  /** Releasing a request returns its slot, if it has one, and keeps the partition. */
  lemma ReleaseKeeps(free: seq<nat>, owners: Owners, rank: nat, slots: nat, id: ReqId)
    requires Partitioned(free, owners, rank, slots) && id in owners
    ensures Partitioned(if OnRank(owners, id, rank) then free + [owners[id].value.slot] else free, owners - {id},
      rank, slots)
  {
    hide OwnedSlots;
    OwnedAfterRelease(owners, rank, id);
    OwnedMembers(owners, rank);
    var next := owners - {id};
    if OnRank(owners, id, rank) {
      SetOfAppend(free, owners[id].value.slot);
      assert owners[id].value.slot !in SetOf(free);
    }
    forall o, other | OnRank(next, o, rank) && OnRank(next, other, rank) && o != other
      ensures next[o].value.slot != next[other].value.slot
    {
      assert OnRank(owners, o, rank) && OnRank(owners, other, rank);
    }
  }

  // ---- generations ----

  /** The generation given to the next owner of a slot. */
  function NextGeneration(g: nat): nat {
    if g + 1 >= GENERATION_LIMIT then 1 else g + 1
  }

  /** The generation after `k` more owners. */
  function GenerationAfter(g: nat, k: nat): nat {
    if k == 0 then g else NextGeneration(GenerationAfter(g, k - 1))
  }

  lemma OneMoreOwner(k: nat)
    ensures GenerationAfter(0, k + 1) == NextGeneration(GenerationAfter(0, k))
    ensures GenerationAfter(0, k) < GENERATION_LIMIT
  {
  }

  lemma {:induction false} GenerationClosedForm(g: nat, k: nat)
    requires 1 <= g < GENERATION_LIMIT
    ensures GenerationAfter(g, k) == (g - 1 + k) % (GENERATION_LIMIT - 1) + 1
  {
    if k > 0 {
      GenerationClosedForm(g, k - 1);
    }
  }

  /** A descriptor matches its slot's generation again exactly after a multiple of 2^31 - 1
      reallocations. */
  lemma StaleMatchesExactly(g: nat, k: nat)
    requires 1 <= g < GENERATION_LIMIT
    ensures GenerationAfter(g, k) == g <==> k % (GENERATION_LIMIT - 1) == 0
  {
    GenerationClosedForm(g, k);
  }

  lemma {:induction false} GenerationAdds(g: nat, j: nat, k: nat)
    ensures GenerationAfter(GenerationAfter(g, j), k) == GenerationAfter(g, j + k)
  {
    if k > 0 {
      GenerationAdds(g, j, k - 1);
    }
  }

  lemma {:induction false} GenerationInRange(k: nat)
    requires k >= 1
    ensures 1 <= GenerationAfter(0, k) < GENERATION_LIMIT
  {
    if k > 1 { GenerationInRange(k - 1); }
  }

  /** Two owners of one slot, the `j`-th and a later one, share a generation exactly when a
      multiple of 2^31 - 1 owners lie between them. */
  lemma OwnersShareGeneration(j: nat, k: nat)
    requires 1 <= j <= k
    ensures GenerationAfter(0, j) == GenerationAfter(0, k) <==> (k - j) % (GENERATION_LIMIT - 1) == 0
  {
    GenerationInRange(j);
    GenerationAdds(0, j, k - j);
    StaleMatchesExactly(GenerationAfter(0, j), k - j);
  }

  // ---- the code ----

  datatype Reservation = Reserved | RankChanged | Exhausted

  class SlotTable {
    const ranks: nat
    const slots: nat                       // decode_batch
    var free: seq<seq<nat>>                // _mtp_free_tail_slots
    var generations: seq<seq<nat>>         // _mtp_slot_generations
    var owners: Owners                     // _mtp_request_states
    ghost var taken: seq<seq<nat>>         // how often each slot was given out

    ghost predicate Valid()
      reads this
    {
      && |free| == ranks && |generations| == ranks && |taken| == ranks
      && (forall r :: 0 <= r < ranks ==> |generations[r]| == slots && |taken[r]| == slots)
      && (forall r :: 0 <= r < ranks ==> Partitioned(free[r], owners, r, slots))
      && (forall r, s :: 0 <= r < ranks && 0 <= s < slots ==> generations[r][s] == GenerationAfter(0, taken[r][s]))
      && (forall id :: id in owners && owners[id].Some? ==>
            var o := owners[id].value;
            o.rank < ranks && o.slot < slots && generations[o.rank][o.slot] == o.generation &&
              taken[o.rank][o.slot] >= 1)
    }

    constructor (ranks: nat, slots: nat)
      ensures Valid() && this.ranks == ranks && this.slots == slots && owners == map[]
      ensures forall r :: 0 <= r < ranks ==>
        && |free[r]| == slots && |generations[r]| == slots
        && forall i :: 0 <= i < slots ==> free[r][i] == slots - 1 - i && generations[r][i] == 0
    {
      this.ranks, this.slots := ranks, slots;
      free := seq(ranks, _ => seq(slots, i requires 0 <= i < slots => slots - 1 - i));
      generations := seq(ranks, _ => seq(slots, _ => 0));
      taken := seq(ranks, _ => seq(slots, _ => 0));
      owners := map[];
      new;
      forall r | 0 <= r < ranks ensures Partitioned(free[r], owners, r, slots) { AllFree(r, slots); }
    }

    /** `_reserve_mtp_request_state`. A request keeps its slot; a new one takes the last free
        slot of its rank, with the slot's next generation. */
    method Reserve(id: ReqId, rank: nat) returns (result: Reservation)
      requires Valid() && rank < ranks
      modifies this
      ensures Valid()
      ensures
        var had := id in old(owners) && old(owners)[id].Some?;
        && (result == RankChanged <==> had && old(owners)[id].value.rank != rank)
        && (result == Exhausted <==> !had && old(free)[rank] == [])
        && (had || result == Exhausted ==> free == old(free) && generations == old(generations) && taken == old(taken))
        && (had ==> owners == old(owners))
        && (result == Exhausted ==> owners == old(owners)[id := None])
        && (!had && result == Reserved ==>
              var slot := old(free)[rank][|old(free)[rank]| - 1];
              && slot < slots
              && free == old(free)[rank := old(free)[rank][..|old(free)[rank]| - 1]]
              && taken == old(taken)[rank := old(taken)[rank][slot := old(taken)[rank][slot] + 1]]
              && owners == old(owners)[id := Some(Owner(rank, slot, GenerationAfter(0, taken[rank][slot])))]
              && owners[id].value.generation == generations[rank][slot] > 0
              && generations[rank][slot] ==
                   (if old(generations)[rank][slot] == 0x7FFF_FFFF then 1 else old(generations)[rank][slot] + 1)
              && generations == old(generations)[rank := old(generations)[rank][slot := generations[rank][slot]]])
    {
      hide Partitioned, OwnedSlots, GenerationAfter;
      if id in owners && owners[id].Some? {
        return if owners[id].value.rank != rank then RankChanged else Reserved;
      }
      if id !in owners { owners := owners[id := None]; }
      StateAdded(free, old(owners), id, ranks, slots);
      if free[rank] == [] { return Exhausted; }
      FreeInRange(free[rank], owners, rank, slots);
      TakeSlot(id, rank);
      return Reserved;
    }

    /** `_reserve_mtp_state_slot`, for a request that needs a slot. */
    method TakeSlot(id: ReqId, rank: nat)
      requires Valid() && rank < ranks && id in owners && owners[id].None? && free[rank] != []
      modifies this
      ensures Valid()
      ensures
        var slot := old(free)[rank][|old(free)[rank]| - 1];
        && slot < slots
        && free == old(free)[rank := old(free)[rank][..|old(free)[rank]| - 1]]
        && taken == old(taken)[rank := old(taken)[rank][slot := old(taken)[rank][slot] + 1]]
        && owners == old(owners)[id := Some(Owner(rank, slot, GenerationAfter(0, taken[rank][slot])))]
        && owners[id].value.generation == generations[rank][slot] > 0
        && generations[rank][slot] ==
             (if old(generations)[rank][slot] == 0x7FFF_FFFF then 1 else old(generations)[rank][slot] + 1)
        && generations == old(generations)[rank := old(generations)[rank][slot := generations[rank][slot]]]
    {
      hide Partitioned, OwnedSlots, GenerationAfter;
      var slot := free[rank][|free[rank]| - 1];
      FreeInRange(free[rank], owners, rank, slots);
      OneMoreOwner(taken[rank][slot]);
      var generation: nat := generations[rank][slot] + 1;
      if generation >= GENERATION_LIMIT { generation := 1; }
      var owner := Owner(rank, slot, generation);
      forall r | 0 <= r < ranks
        ensures Partitioned(if r == rank then free[r][..|free[r]| - 1] else free[r], owners[id := Some(owner)], r,
          slots)
      {
        TakeKeeps(free[r], owners, r, slots, id, owner);
      }
      FreeIsUnowned(free[rank], owners, rank, slots);
      free := free[rank := free[rank][..|free[rank]| - 1]];
      var row: seq<nat> := generations[rank][slot := generation];
      generations := generations[rank := row];
      taken := taken[rank := taken[rank][slot := taken[rank][slot] + 1]];
      owners := owners[id := Some(owner)];
    }

    /** `release_finished_requests`, for one request. */
    method Release(id: ReqId)
      requires Valid()
      modifies this`free, this`owners
      ensures Valid() && owners == old(owners) - {id}
      ensures
        if id in old(owners) && old(owners)[id].Some?
        then
          var o := old(owners)[id].value;
          o.rank < ranks && free == old(free)[o.rank := old(free)[o.rank] + [o.slot]]
        else free == old(free)
    {
      hide Partitioned, OwnedSlots;
      if id !in owners {
        assert owners - {id} == owners;
        return;
      }
      forall r | 0 <= r < ranks
        ensures Partitioned(if OnRank(owners, id, r) then free[r] + [owners[id].value.slot] else free[r],
          owners - {id}, r, slots)
      {
        ReleaseKeeps(free[r], owners, r, slots, id);
      }
      if owners[id].Some? {
        var o := owners[id].value;
        free := free[o.rank := free[o.rank] + [o.slot]];
      }
      owners := owners - {id};
    }
  }

  lemma AllFree(r: nat, slots: nat)
    ensures Partitioned(seq(slots, i requires 0 <= i < slots => slots - 1 - i), map[], r, slots)
  {
    var down := seq(slots, i requires 0 <= i < slots => slots - 1 - i);
    var up := seq(slots, s => s);
    forall x ensures x in SetOf(down) <==> x in SetOf(up) {
      if x in SetOf(down) {
        assert x in down;
        var i :| 0 <= i < slots && down[i] == x;
        assert up[slots - 1 - i] == x;
      }
      if x in SetOf(up) {
        var i :| 0 <= i < slots && up[i] == x;
        assert down[slots - 1 - i] == x;
      }
    }
    assert SetOf(down) == SetOf(up);
  }

  /** A state without a slot owns nothing. */
  lemma StateAdded(free: seq<seq<nat>>, owners: Owners, id: ReqId, ranks: nat, slots: nat)
    requires |free| == ranks && forall r :: 0 <= r < ranks ==> Partitioned(free[r], owners, r, slots)
    requires id in owners ==> owners[id].None?
    ensures forall r :: 0 <= r < ranks ==> Partitioned(free[r], owners[id := None], r, slots)
  {
    forall r | 0 <= r < ranks
      ensures Partitioned(free[r], owners[id := None], r, slots)
    {
      var next := owners[id := None];
      assert forall o :: OnRank(next, o, r) <==> OnRank(owners, o, r);
      assert OwnedSlots(next, r) == OwnedSlots(owners, r);
    }
  }

  lemma FreeInRange(free: seq<nat>, owners: Owners, rank: nat, slots: nat)
    requires Partitioned(free, owners, rank, slots) && free != []
    ensures free[|free| - 1] < slots
  {
    assert free[|free| - 1] in SetOf(free);
    assert free[|free| - 1] in seq(slots, s => s);
  }

  lemma FreeIsUnowned(free: seq<nat>, owners: Owners, rank: nat, slots: nat)
    requires Partitioned(free, owners, rank, slots) && free != []
    ensures forall o :: OnRank(owners, o, rank) ==> owners[o].value.slot != free[|free| - 1]
  {
    OwnedMembers(owners, rank);
    assert free[|free| - 1] in SetOf(free);
  }
}
