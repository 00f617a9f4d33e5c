/** Every transition of `CacheSystem` keeps its invariant: bookkeeping transitions. */
module CacheSystemSteps {
  import opened CacheTypes
  import opened GroupPool
  import opened RefConservation
  import opened CacheDevice
  import opened CacheSystem
  import opened Publication
  import PoolOperations

  // ---- changing one request's view ----

  /** `t` is `s` with the view of `r` replaced by one that promises no more. */
  ghost predicate ViewUpdate(s: Sys, t: Sys, r: ReqId) {
    && r in s.reqs && r in t.reqs && t == s.(reqs := s.reqs[r := t.reqs[r]])
    && t.reqs[r].epoch == s.reqs[r].epoch && t.reqs[r].hs == s.reqs[r].hs && t.reqs[r].lo == s.reqs[r].lo
    && t.reqs[r].cached >= t.reqs[r].lo
    && t.reqs[r].rows <= s.reqs[r].rows
    && (t.reqs[r].rows == s.reqs[r].rows || PageStart(s.C(), |s.reqs[r].hs|) <= t.reqs[r].rows)
  }

  lemma ViewUpdateComputed(s: Sys, t: Sys, r: ReqId)
    requires Shape(s) && Shape(t) && Computed(s) && ViewUpdate(s, t, r)
    ensures Computed(t)
  {
    hide IsPage;
    assert Final(t) == Final(s);
    assert forall o, e, k :: Poisoned(t, o, e, k) <==> Poisoned(s, o, e, k);
    forall o, i, b: nat | Holds(t, o, i, b) && !Poisoned(t, o, t.reqs[o].epoch, |t.log|)
      ensures PageDone(Final(t)[b], t.reqs[o], t.C(), SlotPage(t, o, i))
    {
      assert Holds(s, o, i, b);
      var page := SlotPage(s, o, i);
      assert PageDone(Final(s)[b], s.reqs[o], s.C(), page);
      if page < |s.reqs[o].hs| { PageStartMono(s.C(), page + 1, |s.reqs[o].hs|); }
    }
  }

  lemma ViewUpdateExclusive(s: Sys, t: Sys, r: ReqId)
    requires Shape(s) && Shape(t) && Exclusive(s) && ViewUpdate(s, t, r)
    ensures Exclusive(t)
  {
    forall o, i, b: nat | Holds(t, o, i, b) && Open(t.reqs[o], t.C(), SlotPage(t, o, i))
      ensures t.pool.hashes[b].None? && HeldOnlyBy(t, b, o, t.reqs[o].epoch)
    {
      assert Holds(s, o, i, b);
      var page := SlotPage(s, o, i);
      if page < |s.reqs[o].hs| { PageStartMono(s.C(), page + 1, |s.reqs[o].hs|); }
      assert Open(s.reqs[o], s.C(), page);
      assert HeldOnlyBy(s, b, o, s.reqs[o].epoch);
    }
  }

  lemma ViewUpdateFlights(s: Sys, t: Sys, r: ReqId)
    requires Shape(s) && Shape(t) && Flights(s) && ViewUpdate(s, t, r)
    ensures Flights(t)
  {
    hide IsPage, StepDone;
    assert Final(t) == Final(s);
    assert forall o, e, k :: Poisoned(t, o, e, k) <==> Poisoned(s, o, e, k);
  }

  lemma ViewUpdateRest(s: Sys, t: Sys, r: ReqId)
    requires Shape(s) && ViewUpdate(s, t, r)
    requires ViewsOk(s) && Placed(s) && Indexed(s) && Unwritten(s) && HolesOld(s) && Pending(s) && Ordered(s)
    ensures Shape(t) && ViewsOk(t) && Placed(t) && Indexed(t) && Unwritten(t) && HolesOld(t) && Pending(t) && Ordered(t)
  {
    hide IsPage, OrderedAt, Writes;
    assert Final(t) == Final(s);
    assert forall o, i, b: nat :: Holds(t, o, i, b) <==> Holds(s, o, i, b);
    assert forall k, b: nat, o :: PendingAt(t, k, b, o) <==> PendingAt(s, k, b, o);
    assert forall j, k, b: nat :: WritesInto(t, j, k, b) <==> WritesInto(s, j, k, b);
    ViewUpdateLo(s, t, r);
  }

  lemma ViewUpdateLo(s: Sys, t: Sys, r: ReqId)
    requires ViewUpdate(s, t, r) && ViewsOk(s)
    ensures ViewsOk(t)
  {
    PageStartMono(s.C(), s.reqs[r].lo, |s.reqs[r].hs|);
  }

  lemma ViewUpdateKeeps(s: Sys, t: Sys, r: ReqId)
    requires SysInv(s) && ViewUpdate(s, t, r)
    ensures SysInv(t)
  {
    hide Shape, Inv, ViewsOk, Placed, Indexed, Unwritten, HolesOld, Computed, Flights, Exclusive, Pending, Ordered;
    ViewUpdateRest(s, t, r);
    ViewUpdateComputed(s, t, r);
    ViewUpdateFlights(s, t, r);
    ViewUpdateExclusive(s, t, r);
  }

  lemma RollbackKeeps(s: Sys, r: ReqId, rows: nat)
    requires SysInv(s) && DoRollback(s, r, rows).Some?
    ensures SysInv(DoRollback(s, r, rows).value)
  {
    hide Shape, Inv, Placed, Indexed, Unwritten, HolesOld, Computed, Flights, Exclusive, Pending, Ordered;
    ViewUpdateKeeps(s, DoRollback(s, r, rows).value, r);
  }

  lemma IndexedBlocks(s: Sys, h: Hash)
    requires Shape(s) && Inv(s.pool, Pins(s.log, s.settled)) && h in s.pool.index
    ensures s.pool.index[h] < |s.pool.hashes| && s.pool.hashes[s.pool.index[h]] == Some(h)
  {
  }

  // ---- releasing a request ----

  /** `t` has lost one request, and nothing else changed but reference counts. */
  ghost predicate Narrowed(s: Sys, t: Sys, r: ReqId) {
    && t == s.(pool := t.pool, reqs := s.reqs - {r})
    && t.pool.tables == s.pool.tables - {r} && t.pool.logical == s.pool.logical - {r}
    && t.pool.spec == s.pool.spec && t.pool.hashes == s.pool.hashes && t.pool.index == s.pool.index
    && |t.pool.refs| == |s.pool.refs|
  }

  lemma NarrowedRest(s: Sys, t: Sys, r: ReqId)
    requires Shape(s) && Narrowed(s, t, r)
    requires ViewsOk(s) && Placed(s) && Indexed(s) && Unwritten(s) && HolesOld(s) && Pending(s) && Ordered(s)
    ensures Shape(t) && ViewsOk(t) && Placed(t) && Indexed(t) && Unwritten(t) && HolesOld(t) && Pending(t) && Ordered(t)
  {
    hide IsPage, OrderedAt, Writes;
    assert Final(t) == Final(s);
    assert forall o, i, b: nat :: Holds(t, o, i, b) ==> Holds(s, o, i, b);
    assert forall k, b: nat, o :: PendingAt(t, k, b, o) ==> PendingAt(s, k, b, o);
    assert forall j, k, b: nat :: WritesInto(t, j, k, b) <==> WritesInto(s, j, k, b);
    NarrowedViews(s, t, r);
  }

  lemma NarrowedViews(s: Sys, t: Sys, r: ReqId)
    requires Narrowed(s, t, r) && ViewsOk(s)
    ensures ViewsOk(t)
  {
  }

  lemma NarrowedClaims(s: Sys, t: Sys, r: ReqId)
    requires Shape(s) && Shape(t) && Narrowed(s, t, r) && Computed(s) && Flights(s) && Exclusive(s)
    ensures Computed(t) && Flights(t) && Exclusive(t)
  {
    hide IsPage, StepDone, PageDone, Open;
    assert Final(t) == Final(s);
    assert forall o, i, b: nat :: Holds(t, o, i, b) ==> Holds(s, o, i, b) && SlotPage(t, o, i) == SlotPage(s, o, i);
    assert forall o, e, k :: Poisoned(t, o, e, k) <==> Poisoned(s, o, e, k);
  }

  lemma RetireKeeps(s: Sys, r: ReqId)
    requires SysInv(s) && DoRetire(s, r).Some?
    ensures SysInv(DoRetire(s, r).value)
  {
    hide Shape, Inv, ViewsOk, Placed, Indexed, Unwritten, HolesOld, Computed, Flights, Exclusive, Pending, Ordered,
      Release;
    PoolOperations.ReleaseInv(s.pool, Pins(s.log, s.settled), r);
    var t := DoRetire(s, r).value;
    NarrowedRest(s, t, r);
    NarrowedClaims(s, t, r);
  }

  // ---- settling the oldest step in flight ----

  /** `t` is `s` with the oldest step in flight settled: its pins are gone, nothing else. */
  ghost predicate Settled(s: Sys, t: Sys) {
    && s.settled < |s.log|
    && t == s.(pool := t.pool, settled := s.settled + 1, lost := t.lost) && s.lost <= t.lost
    && t.pool == s.pool.(refs := t.pool.refs, free := t.pool.free) && |t.pool.refs| == |s.pool.refs|
    && ((s.settled < s.executed && s.settled !in s.bad) || s.log[s.settled].epoch in t.lost)
  }

  lemma SettledFinal(s: Sys, t: Sys, b: nat)
    requires Shape(s) && Shape(t) && Settled(s, t) && b < |s.content|
    requires s.settled < s.executed || !Writes(s.log[s.settled], s.C(), b)
    ensures Final(t)[b] == Final(s)[b]
  {
    if s.settled < s.executed {
      DrainLater(s.content, s.log, s.executed, s.settled, s.C());
    } else {
      DrainGiveUp(s.content, s.log, s.executed, s.settled, s.C(), b);
    }
  }

  /** Settling a step forgets no failure. */
  lemma SettledPoison(s: Sys, t: Sys, r: ReqId, epoch: nat, upto: nat)
    requires Shape(s) && Settled(s, t)
    ensures Poisoned(s, r, epoch, upto) ==> Poisoned(t, r, epoch, upto)
    ensures epoch == s.log[s.settled].epoch && (s.settled >= s.executed || s.settled in s.bad) ==>
      Poisoned(t, r, epoch, upto)
  {
  }

  lemma SettledIndexed(s: Sys, t: Sys)
    requires Shape(s) && Shape(t) && Settled(s, t) && Inv(s.pool, Pins(s.log, s.settled))
    requires Indexed(s) && Unwritten(s)
    ensures Indexed(t) && Unwritten(t)
  {
    hide IsPage, Writes, Inv;
    forall h | h in t.pool.index
      ensures Final(t)[t.pool.index[h]] == Final(s)[s.pool.index[h]]
    {
      IndexedBlocks(s, h);
      SettledFinal(s, t, s.pool.index[h]);
    }
  }

  lemma SettledComputed(s: Sys, t: Sys)
    requires Shape(s) && Shape(t) && Settled(s, t) && Computed(s) && Pending(s)
    ensures Computed(t)
  {
    hide PageDone, Writes, Poisoned;
    forall o, i, b: nat | Holds(t, o, i, b) && !Poisoned(t, o, t.reqs[o].epoch, |t.log|)
      ensures PageDone(Final(t)[b], t.reqs[o], t.C(), SlotPage(t, o, i))
    {
      assert Holds(s, o, i, b) && SlotPage(t, o, i) == SlotPage(s, o, i);
      SettledPoison(s, t, o, s.reqs[o].epoch, |s.log|);
      assert PendingAt(s, s.settled, b, o) <==> s.settled >= s.executed && Writes(s.log[s.settled], s.C(), b);
      SettledFinal(s, t, b);
    }
  }

  lemma SettledFlights(s: Sys, t: Sys)
    requires Shape(s) && Shape(t) && Settled(s, t) && Flights(s) && Ordered(s)
    ensures Flights(t)
  {
    hide StepDone, Writes, Poisoned, OrderedAt;
    forall k | t.settled <= k < |t.log| && Alive(t, t.log[k])
      ensures StepView(t, t.log[k], t.reqs[t.log[k].r])
      ensures !Poisoned(t, t.log[k].r, t.log[k].epoch, k + 1) ==>
        forall i :: 0 <= i < |t.log[k].table| ==>
          StepDone(Final(t)[t.log[k].table[i]], t.log[k], t.reqs[t.log[k].r].lo, t.C(), StepPage(t.log[k], i))
    {
      var st := s.log[k];
      assert StepView(s, st, s.reqs[st.r]);
      if !Poisoned(t, st.r, st.epoch, k + 1) {
        SettledPoison(s, t, st.r, st.epoch, k + 1);
        forall i | 0 <= i < |st.table|
          ensures StepDone(Final(t)[st.table[i]], st, t.reqs[st.r].lo, t.C(), StepPage(st, i))
        {
          assert StepOk(st, s.C(), |s.content|);
          var b := st.table[i];
          assert Writes(s.log[s.settled], s.C(), b) ==> WritesInto(s, s.settled, k, b);
          SettledFinal(s, t, b);
          assert StepDone(Final(s)[b], st, s.reqs[st.r].lo, s.C(), StepPage(st, i));
        }
      }
    }
  }

  lemma SettledRest(s: Sys, t: Sys)
    requires Shape(s) && Settled(s, t)
    requires ViewsOk(s) && Placed(s) && HolesOld(s) && Exclusive(s) && Pending(s) && Ordered(s)
    ensures Shape(t) && ViewsOk(t) && Placed(t) && HolesOld(t) && Exclusive(t) && Pending(t) && Ordered(t)
  {
    hide OrderedAt, Writes, Open;
    assert forall o, i, b: nat :: Holds(t, o, i, b) <==> Holds(s, o, i, b);
    assert forall o, i, b: nat :: Holds(t, o, i, b) ==> SlotPage(t, o, i) == SlotPage(s, o, i);
    assert forall k, b: nat, o :: PendingAt(t, k, b, o) ==> PendingAt(s, k, b, o);
    assert forall j, k, b: nat :: WritesInto(t, j, k, b) ==> WritesInto(s, j, k, b);
    assert forall b: nat, r, e :: HeldOnlyBy(s, b, r, e) ==> HeldOnlyBy(t, b, r, e);
  }

  lemma PinsSplit(log: seq<Step>, i: nat)
    requires i < |log|
    ensures multiset(log[i].table) <= Pins(log, i)
    ensures Pins(log, i) - multiset(log[i].table) == Pins(log, i + 1)
  {
  }

  lemma SettledKeeps(s: Sys, t: Sys)
    requires SysInv(s) && Settled(s, t) && Inv(t.pool, Pins(t.log, t.settled))
    ensures SysInv(t)
  {
    hide Shape, Inv, ViewsOk, Placed, Indexed, Unwritten, HolesOld, Computed, Flights, Exclusive, Pending, Ordered,
      Settled;
    SettledRest(s, t);
    SettledIndexed(s, t);
    SettledComputed(s, t);
    SettledFlights(s, t);
  }

  /** Settling gives back exactly the pins the step took. */
  lemma SettleKeeps(s: Sys, lost: set<nat>)
    requires SysInv(s) && s.settled < |s.log| && s.lost <= lost
    requires (s.settled < s.executed && s.settled !in s.bad) || s.log[s.settled].epoch in lost
    ensures UnpinAll(s.pool, s.log[s.settled].table).Some?
    ensures
      SysInv(s.(pool := UnpinAll(s.pool, s.log[s.settled].table).value, settled := s.settled + 1, lost := lost))
  {
    hide SysInv, Inv, UnpinAll, Pins, Shape;
    var ids := s.log[s.settled].table;
    PinsSplit(s.log, s.settled);
    PoolInv(s);
    PoolOperations.UnpinAllInv(s.pool, Pins(s.log, s.settled), ids);
    UnpinAllSize(s.pool, ids);
    SettledKeeps(s, s.(pool := UnpinAll(s.pool, ids).value, settled := s.settled + 1, lost := lost));
  }

  lemma PoolInv(s: Sys)
    requires SysInv(s)
    ensures Inv(s.pool, Pins(s.log, s.settled)) && Shape(s)
  {
    hide Inv, ViewsOk, Placed, Indexed, Unwritten, HolesOld, Computed, Flights, Exclusive, Pending, Ordered;
  }

  lemma {:induction false} UnpinAllSize(p: Pool, ids: seq<nat>)
    ensures UnpinAll(p, ids).Some? ==> |UnpinAll(p, ids).value.refs| == |p.refs|
    decreases |ids|
  {
    if ids != [] && ids[0] < |p.refs| && p.refs[ids[0]] > 0 { UnpinAllSize(Unpin(p, ids[0]), ids[1..]); }
  }

  lemma DiscardKeeps(s: Sys)
    requires SysInv(s) && DoDiscard(s).Some?
    ensures SysInv(DoDiscard(s).value)
  {
    hide SysInv;
    SettleKeeps(s, DoDiscard(s).value.lost);
  }

  // ---- publishing pages ----

  /** `q` is `p` after the pages `start..completed` of table `t` were published. */
  ghost predicate Published(p: Pool, q: Pool, t: Table, hs: seq<Hash>, start: nat, completed: nat) {
    && q == p.(hashes := q.hashes, index := q.index) && |q.hashes| == |p.hashes|
    && PublishedExactly(p, q, t, hs, start, completed)
  }

  /** Block `b` may be published as the page of `h`: it has that content for good. */
  ghost predicate Publishable(s: Sys, b: nat, h: Hash)
    requires Shape(s)
  {
    && b < |s.content|
    && IsPage(Final(s)[b], h, s.C())
    && s.page[b] + 1 == Depth(h)
    && (forall k :: s.executed <= k < |s.log| ==> !Writes(s.log[k], s.C(), b))
    && (forall r, i :: Holds(s, r, i, b) ==> !Open(s.reqs[r], s.C(), SlotPage(s, r, i)))
  }

  lemma PublishKeeps(s: Sys, q: Pool, t: Table, hs: seq<Hash>, start: nat, completed: nat)
    requires SysInv(s) && Published(s.pool, q, t, hs, start, completed)
    requires Inv(q, Pins(s.log, s.settled))
    requires forall i: nat, b: nat, h :: PublishedAt(s.pool, t, hs, start, completed, i, h, b) ==> Publishable(s, b, h)
    ensures SysInv(s.(pool := q))
  {
    hide Shape, Inv, ViewsOk, Placed, Indexed, Unwritten, HolesOld, Computed, Flights, Exclusive, Pending, Ordered;
    hide Published, PublishedAt, Publishable;
    PublishHashed(s, q, t, hs, start, completed);
    PublishRest(s, q);
    PublishIndexed(s, q, t, hs, start, completed);
    PublishExclusive(s, q);
  }

  /** What the pool knows of a block after publication. */
  ghost predicate HashedBlocks(s: Sys, q: Pool)
    requires Shape(s)
  {
    && q == s.pool.(hashes := q.hashes, index := q.index) && |q.hashes| == |s.pool.hashes|
    && (forall b: nat :: b < |q.hashes| && q.hashes[b].Some? ==>
          s.pool.hashes[b].Some? || Publishable(s, b, q.hashes[b].value))
  }

  lemma PublishHashed(s: Sys, q: Pool, t: Table, hs: seq<Hash>, start: nat, completed: nat)
    requires Shape(s) && Inv(s.pool, Pins(s.log, s.settled)) && Inv(q, Pins(s.log, s.settled))
    requires Published(s.pool, q, t, hs, start, completed)
    requires forall i: nat, b: nat, h :: PublishedAt(s.pool, t, hs, start, completed, i, h, b) ==> Publishable(s, b, h)
    ensures HashedBlocks(s, q)
  {
    hide PublishedAt, Publishable, QueueOk, TablesOk, RefsOk, SizesOk, PublishedExactly;
    PublishedEntries(s.pool, q, t, hs, start, completed);
  }

  /** Nothing gets into the index but by being published. */
  lemma PublishedEntries(p: Pool, q: Pool, t: Table, hs: seq<Hash>, start: nat, completed: nat)
    requires PublishedExactly(p, q, t, hs, start, completed)
    ensures forall h :: h in q.index ==>
      (h in p.index && q.index[h] == p.index[h]) || (exists i: nat :: PublishedAt(p, t, hs, start, completed, i, h,
        q.index[h]))
  {
    hide PublishedAt, Survives;
    forall h | h in q.index
      ensures (h in p.index && q.index[h] == p.index[h]) || (exists i: nat :: PublishedAt(p, t, hs, start, completed,
        i, h, q.index[h]))
    {
      assert Entry(p, t, hs, start, completed, h, q.index[h]);
    }
  }

  lemma PublishIndexed(s: Sys, q: Pool, t: Table, hs: seq<Hash>, start: nat, completed: nat)
    requires Shape(s) && Shape(s.(pool := q)) && Indexed(s) && Published(s.pool, q, t, hs, start, completed)
    requires forall i: nat, b: nat, h :: PublishedAt(s.pool, t, hs, start, completed, i, h, b) ==> Publishable(s, b, h)
    ensures Indexed(s.(pool := q))
  {
    hide PublishedAt, IsPage, Writes, Open, PublishedExactly;
    assert Final(s.(pool := q)) == Final(s);
    PublishedEntries(s.pool, q, t, hs, start, completed);
  }

  lemma PublishExclusive(s: Sys, q: Pool)
    requires Shape(s) && Shape(s.(pool := q)) && Exclusive(s) && Unwritten(s) && HashedBlocks(s, q)
    ensures Exclusive(s.(pool := q)) && Unwritten(s.(pool := q))
  {
    hide IsPage, Writes, Open;
    var u := s.(pool := q);
    assert forall o, i, b: nat :: Holds(u, o, i, b) <==> Holds(s, o, i, b);
    assert forall o, i, b: nat :: Holds(u, o, i, b) ==> SlotPage(u, o, i) == SlotPage(s, o, i);
    assert forall b: nat, r, e :: HeldOnlyBy(s, b, r, e) <==> HeldOnlyBy(u, b, r, e);
  }

  lemma PublishRest(s: Sys, q: Pool)
    requires Shape(s) && HashedBlocks(s, q)
    requires ViewsOk(s) && Placed(s) && HolesOld(s) && Computed(s) && Flights(s) && Pending(s) && Ordered(s)
    ensures Shape(s.(pool := q))
    ensures
      var u := s.(pool := q);
      ViewsOk(u) && Placed(u) && HolesOld(u) && Computed(u) && Flights(u) && Pending(u) && Ordered(u)
  {
    hide Publishable, IsPage, OrderedAt, Writes, Open, StepDone, PageDone;
    var u := s.(pool := q);
    assert Final(u) == Final(s);
    assert forall o, i, b: nat :: Holds(u, o, i, b) <==> Holds(s, o, i, b);
    assert forall o, i, b: nat :: Holds(u, o, i, b) ==> SlotPage(u, o, i) == SlotPage(s, o, i);
    assert forall o, e, k :: Poisoned(u, o, e, k) <==> Poisoned(s, o, e, k);
    assert forall k, b: nat, o :: PendingAt(u, k, b, o) <==> PendingAt(s, k, b, o);
    assert forall j, k, b: nat :: WritesInto(u, j, k, b) <==> WritesInto(s, j, k, b);
  }
}
