/** Publication, from the live table in synchronous mode and from a step's snapshot.

    The live table names the right blocks. The snapshot does not always: what a confirmation
    publishes is right exactly when it is `Harmless` (`ConfirmSoundExactly`), that is, when no
    page it would publish for the wrong block is new to the index. `SnapshotSafe` is the part
    of that condition that depends on the step alone. */
module CacheSystemPublish {
  import opened CacheTypes
  import opened GroupPool
  import opened RefConservation
  import opened RingArithmetic
  import opened CacheDevice
  import opened CacheSystem
  import opened CacheSystemSteps
  import opened Publication

  // ---- page boundaries ----

  lemma CompletedExact(spec: GroupSpec, hs: seq<Hash>, tokens: nat, page: nat)
    requires spec.capacity > 0
    ensures page <= Completed(spec, hs, tokens) <==>
      page <= |hs| && PageStart(spec.capacity, page) <= spec.SafeTokens(tokens)
  {
    PagesIn(spec.capacity, spec.SafeTokens(tokens), page);
  }

  // ---- the snapshot ----

  /** What `DoConfirm` has checked before it publishes. */
  ghost predicate Confirmable(s: Sys) {
    && Shape(s)
    && s.settled < s.executed && s.settled < |s.log| && s.settled !in s.bad
    && Alive(s, s.log[s.settled]) && s.log[s.settled].epoch !in s.lost
  }

  /** The page that confirming the oldest step publishes as `h`, from the slot of block `b`. */
  ghost predicate ConfirmsAt(s: Sys, i: nat, h: Hash, b: nat)
    requires Confirmable(s)
  {
    var st := s.log[s.settled];
    ConfirmStart(s) <= i < ConfirmEnd(s) && s.reqs[st.r].hs[i] == h && From(s.pool.spec, Ids(st.table), i, b)
  }

  /** Unless it is misnamed, the page published is the page the step's table has there. */
  lemma SnapshotPage(s: Sys, i: nat, h: Hash, b: nat)
    requires Confirmable(s) && ViewsOk(s) && Flights(s) && ConfirmsAt(s, i, h, b)
    ensures
      var st := s.log[s.settled];
      var slot := RingSlot(i, |st.table|);
      && StepOk(st, s.C(), |s.content|)
      && st.table[slot] == b && i < |st.hs| && st.hs == s.reqs[st.r].hs && h == st.hs[i]
      && (!Misnamed(st, i) ==> StepPage(st, slot) == i && s.reqs[st.r].lo <= i && PageStart(s.C(), i + 1) <= st.to)
  {
    hide StepDone, Poisoned, IsPage;
    var st := s.log[s.settled];
    var v := s.reqs[st.r];
    assert StepOk(st, s.C(), |s.content|);
    assert StepView(s, st, v);
    CompletedExact(s.pool.spec, v.hs, st.tokens, v.lo);
    CompletedExact(s.pool.spec, v.hs, st.tokens, i + 1);
    assert ViewOk(s, st.r, v);
    SmallSlot(i, |st.table|);
  }

  lemma SmallSlot(page: nat, size: nat)
    requires size > 0
    ensures RingSlot(page, size) < size && (page < size ==> RingSlot(page, size) == page)
  {
  }

  lemma SnapshotPublishable(s: Sys, i: nat, h: Hash, b: nat)
    requires Shape(s) && Confirmable(s) && ViewsOk(s) && Placed(s) && Flights(s) && Exclusive(s) && Ordered(s)
    requires ConfirmsAt(s, i, h, b) && !Misnamed(s.log[s.settled], i)
    ensures Publishable(s, b, h)
  {
    hide IsPage, Writes, Confirmable, ConfirmsAt, Misnamed, Shape, Placed, Flights, Exclusive, Ordered, Open,
      StepView, ViewsOk;
    SnapshotFacts(s, i, h, b);
    var st := s.log[s.settled];
    forall k | s.executed <= k < |s.log|
      ensures !Writes(s.log[k], s.C(), b)
    {
      SnapshotNotPending(s, i, k, b);
    }
    forall r, j | Holds(s, r, j, b)
      ensures !Open(s.reqs[r], s.C(), SlotPage(s, r, j))
    {
      SnapshotNotOpen(s, st, i, r, j, b);
    }
  }

  lemma SnapshotNotPending(s: Sys, page: nat, k: nat, b: nat)
    requires Shape(s) && Ordered(s)
    requires s.settled < s.executed <= k < |s.log| && b < |s.content| && s.page[b] == page
    requires b in s.log[s.settled].table
    requires page < |s.log[s.settled].hs| && PageStart(s.C(), page + 1) <= s.log[s.settled].to
    ensures !Writes(s.log[k], s.C(), b)
  {
    hide Writes, Ordered;
    LaterWriteIsOpen(s, s.settled, k, b);
  }

  lemma LaterWriteIsOpen(s: Sys, j: nat, k: nat, b: nat)
    requires Shape(s) && Ordered(s)
    requires s.settled <= j < k < |s.log| && b < |s.page| && b in s.log[j].table
    ensures Writes(s.log[k], s.C(), b) ==> OrderedAt(s.log[j], s.log[k], s.C(), s.page[b])
  {
    hide Writes, OrderedAt;
    assert Writes(s.log[k], s.C(), b) <==> WritesInto(s, k, j, b);
  }

  lemma SnapshotFacts(s: Sys, i: nat, h: Hash, b: nat)
    requires Confirmable(s) && ViewsOk(s) && Placed(s) && Flights(s)
    requires ConfirmsAt(s, i, h, b) && !Misnamed(s.log[s.settled], i)
    ensures s.settled < s.executed <= |s.log| && b < |s.content| && Alive(s, s.log[s.settled])
    ensures
      var st := s.log[s.settled];
      && b in st.table && s.page[b] == i && |st.table| > 0
      && i < |st.hs| && PageStart(s.C(), i + 1) <= st.to
      && StepView(s, st, s.reqs[st.r])
      && Depth(h) == i + 1
      && IsPage(Final(s)[b], h, s.C())
  {
    hide IsPage, ConfirmsAt, Misnamed;
    SnapshotPage(s, i, h, b);
    var st := s.log[s.settled];
    assert !Poisoned(s, st.r, st.epoch, s.settled + 1);
    assert StepDone(Final(s)[b], st, s.reqs[st.r].lo, s.C(), i);
    assert ViewOk(s, st.r, s.reqs[st.r]);
  }

  lemma SnapshotNotOpen(s: Sys, st: Step, page: nat, r: ReqId, j: int, b: nat)
    requires Shape(s) && Placed(s) && Exclusive(s)
    requires s.settled < |s.log| && st == s.log[s.settled] && Alive(s, st) && b in st.table
    requires StepView(s, st, s.reqs[st.r]) && page < |st.hs| && PageStart(s.C(), page + 1) <= st.to
    requires Holds(s, r, j, b) && s.page[b] == page
    ensures !Open(s.reqs[r], s.C(), SlotPage(s, r, j))
  {
    if Open(s.reqs[r], s.C(), SlotPage(s, r, j)) {
      assert HeldOnlyBy(s, b, r, s.reqs[r].epoch);
      PageStartMono(s.C(), page + 1, |st.hs|);
    }
  }

  /** A harmless confirmation keeps the whole invariant. */
  lemma ConfirmKeeps(s: Sys)
    requires SysInv(s) && Harmless(s) && DoConfirm(s).Some?
    ensures SysInv(DoConfirm(s).value)
  {
    hide Inv, Shape, ViewsOk, Placed, Indexed, Unwritten, HolesOld, Computed, Flights, Exclusive, Pending, Ordered;
    hide Publish, UnpinAll, ConfirmStart, ConfirmEnd, SysInv, Publishable, PublishedAt, Harmless;
    var st := s.log[s.settled];
    var hs := s.reqs[st.r].hs;
    PoolInv(s);
    var q := Publish(s.pool, Ids(st.table), hs, ConfirmStart(s), ConfirmEnd(s)).value;
    ConfirmPublishes(s);
    SnapshotApart(s);
    PublishKeepsAll(s, q, Ids(st.table), hs, ConfirmStart(s), ConfirmEnd(s));
    var s1 := s.(pool := q);
    SettleKeeps(s1, s.lost);
    var s2 := s1.(pool := UnpinAll(q, st.table).value, settled := s.settled + 1);
    ConfirmCached(s);
    CachedKeeps(s2, st.r, ConfirmEnd(s));
  }

  lemma CachedKeeps(s: Sys, r: ReqId, cached: nat)
    requires SysInv(s) && r in s.reqs && cached >= s.reqs[r].lo
    ensures SysInv(s.(reqs := s.reqs[r := s.reqs[r].(cached := cached)]))
  {
    hide SysInv;
    ViewUpdateKeeps(s, s.(reqs := s.reqs[r := s.reqs[r].(cached := cached)]), r);
  }

  lemma ConfirmCached(s: Sys)
    requires SysInv(s) && s.settled < |s.log| && Alive(s, s.log[s.settled]) && s.C() > 0
    ensures ConfirmEnd(s) >= s.reqs[s.log[s.settled].r].lo
  {
    hide Inv, Placed, Indexed, Unwritten, HolesOld, Computed, Exclusive, Pending, Ordered, StepDone, Poisoned;
    var st := s.log[s.settled];
    var v := s.reqs[st.r];
    assert StepView(s, st, v) && ViewOk(s, st.r, v);
    CompletedExact(s.pool.spec, v.hs, st.tokens, v.lo);
  }

  /** What a harmless confirmation adds to the index may be published. */
  lemma ConfirmPublishes(s: Sys)
    requires SysInv(s) && Confirmable(s) && Harmless(s)
    ensures
      var st := s.log[s.settled];
      forall i: nat, b: nat, h ::
        PublishedAt(s.pool, Ids(st.table), s.reqs[st.r].hs, ConfirmStart(s), ConfirmEnd(s), i, h, b) ==>
          Publishable(s, b, h)
  {
    hide Inv, ViewsOk, Placed, Indexed, Unwritten, HolesOld, Computed, Flights, Exclusive, Pending, Ordered,
      PublishedAt;
    hide Publishable, Misnamed, Harmless;
    var st := s.log[s.settled];
    forall i: nat, b: nat, h | PublishedAt(s.pool, Ids(st.table), s.reqs[st.r].hs, ConfirmStart(s), ConfirmEnd(s), i,
      h, b)
      ensures Publishable(s, b, h)
    {
      ConfirmsNew(s, i, h, b);
      SnapshotPublishable(s, i, h, b);
    }
  }

  lemma ConfirmsNew(s: Sys, i: nat, h: Hash, b: nat)
    requires Confirmable(s) && Harmless(s)
    requires
      var st := s.log[s.settled];
      PublishedAt(s.pool, Ids(st.table), s.reqs[st.r].hs, ConfirmStart(s), ConfirmEnd(s), i, h, b)
    ensures ConfirmsAt(s, i, h, b) && !Misnamed(s.log[s.settled], i)
  {
  }

  // ---- the pages of one publication are kept apart ----

  lemma {:induction false} PublishedInTable(p: Pool, t: Table, hs: seq<Hash>, i: nat, completed: nat, k: nat)
    requires completed <= |hs| && Publish(p, t, hs, i, completed).Some? && i <= k < completed
    ensures 0 < |t| && TableSlot(p.spec, k, |t|) < |t| && t[TableSlot(p.spec, k, |t|)].Some?
    decreases completed - i
  {
    hide TableSlot;
    if i < k {
      PublishedInTable(CacheBlock(p, t[TableSlot(p.spec, i, |t|)].value, hs[i]), t, hs, i + 1, completed, k);
    }
  }

  /** Where the pages of one publication are in their table. */
  ghost predicate InRing(spec: GroupSpec, size: nat, start: nat, completed: nat) {
    && (spec.window.Some? ==> completed - start <= size)
    && (spec.window.None? && start < completed ==> completed <= size)
  }

  lemma SlotsApart(spec: GroupSpec, size: nat, start: nat, completed: nat, i: nat, j: nat)
    requires InRing(spec, size, start, completed) && size > 0 && start <= i < completed && start <= j < completed
    requires RingSlot(i, size) == RingSlot(j, size)
    ensures i == j
  {
    CongruentAndClose(i, j, size);
  }

  lemma TableSlotIsRingSlot(spec: GroupSpec, size: nat, start: nat, completed: nat, i: nat)
    requires InRing(spec, size, start, completed) && size > 0 && start <= i < completed
    ensures TableSlot(spec, i, size) == RingSlot(i, size) < size
  {
    SmallSlot(i, size);
  }

  /** A table that repeats no block, and whose blocks have the pages of its slots, keeps the
      pages published from it apart. */
  lemma ApartInRing(s: Sys, t: Table, pages: nat, hs: seq<Hash>, start: nat, completed: nat)
    requires Shape(s) && Indexed(s) && Chained(hs) && completed <= |hs| && Injective(t) && 0 < |t| <= pages
    requires InRing(s.pool.spec, |t|, start, completed)
    requires forall k: nat, b: nat :: k < |t| && t[k] == Some(b) && b < |s.page| ==> s.page[b] == PageAt(pages, |t|, k)
    ensures Apart(s.pool, t, hs, start, completed)
  {
    hide RingSlot, TableSlot, IsPage, InRing, PageAt, LogOk;
    var spec := s.pool.spec;
    forall i: nat, j: nat | start <= i < j < completed
      ensures hs[i] != hs[j]
      ensures TableSlot(spec, i, |t|) != TableSlot(spec, j, |t|)
    {
      assert Depth(hs[i]) != Depth(hs[j]);
      TableSlotIsRingSlot(spec, |t|, start, completed, i);
      TableSlotIsRingSlot(spec, |t|, start, completed, j);
      if RingSlot(i, |t|) == RingSlot(j, |t|) { SlotsApart(spec, |t|, start, completed, i, j); }
    }
    forall i: nat, j: nat, b: nat | start <= i < j < completed && From(spec, t, i, b)
      ensures !From(spec, t, j, b)
    {
    }
    forall i: nat, j: nat | start <= i < completed && start <= j < completed && i != j && hs[i] in s.pool.index
      ensures !From(spec, t, j, s.pool.index[hs[i]])
    {
      if From(spec, t, j, s.pool.index[hs[i]]) {
        TableSlotIsRingSlot(spec, |t|, start, completed, j);
        PageAtSlot(pages, |t|, RingSlot(j, |t|));
        SlotsApart(spec, |t|, start, completed, i, j);
      }
    }
  }

  lemma SnapshotApart(s: Sys)
    requires SysInv(s) && DoConfirm(s).Some?
    ensures
      var st := s.log[s.settled];
      && InRing(s.pool.spec, |st.table|, ConfirmStart(s), ConfirmEnd(s))
      && Apart(s.pool, Ids(st.table), s.reqs[st.r].hs, ConfirmStart(s), ConfirmEnd(s))
  {
    hide Inv, Unwritten, HolesOld, Computed, Exclusive, Pending, Ordered, StepDone, Poisoned, PageAt, Publish, UnpinAll;
    hide Apart, IsPage, Indexed;
    var st := s.log[s.settled];
    var v := s.reqs[st.r];
    assert StepOk(st, s.C(), |s.content|) && StepView(s, st, v) && ViewOk(s, st.r, v);
    if s.pool.spec.window.None? && ConfirmStart(s) < ConfirmEnd(s) {
      PublishedInTable(s.pool, Ids(st.table), v.hs, ConfirmStart(s), ConfirmEnd(s), ConfirmEnd(s) - 1);
    }
    ApartInRing(s, Ids(st.table), st.pages, v.hs, ConfirmStart(s), ConfirmEnd(s));
  }

  lemma PublishKeepsAll(s: Sys, q: Pool, t: Table, hs: seq<Hash>, start: nat, completed: nat)
    requires SysInv(s) && Shape(s) && completed <= |hs| && Publish(s.pool, t, hs, start, completed) == Some(q)
    requires Apart(s.pool, t, hs, start, completed)
    requires forall i: nat, b: nat, h :: PublishedAt(s.pool, t, hs, start, completed, i, h, b) ==> Publishable(s, b, h)
    ensures SysInv(s.(pool := q))
  {
    hide SysInv, Shape, Publish, PublishedAt, Publishable, Inv, Apart, PublishedExactly;
    PoolInv(s);
    PublishKeepsPool(s.pool, Pins(s.log, s.settled), t, hs, start, completed);
    PublishExact(s.pool, Pins(s.log, s.settled), t, hs, start, completed);
    PublishKeeps(s, q, t, hs, start, completed);
  }

  // ---- the live table ----

  lemma LivePublishable(s: Sys, r: ReqId, tokens: nat, i: nat, h: Hash, b: nat)
    requires SysInv(s) && DoPublishLive(s, r, tokens).Some?
    requires
      var v := s.reqs[r];
      var completed := Completed(s.pool.spec, v.hs, tokens);
      && LiveStart(s.pool, r, v.cached, completed) <= i < completed && v.hs[i] == h
      && From(s.pool.spec, s.pool.tables[r], i, b)
    ensures Publishable(s, b, h)
  {
    hide IsPage, Inv, Indexed, Unwritten, HolesOld, Flights, Pending, Ordered, Publish, Writes;
    var v := s.reqs[r];
    var t := s.pool.tables[r];
    var completed := Completed(s.pool.spec, v.hs, tokens);
    LiveSize(s, r);
    CompletedExact(s.pool.spec, v.hs, tokens, i + 1);
    CompletedExact(s.pool.spec, v.hs, tokens, v.lo);
    assert ViewOk(s, r, v);
    PageStartStrict(s.C(), s.pool.logical[r], i + 1);
    var slot := RingSlot(i, |t|);
    SlotPageAt(s.pool.logical[r], |t|, i);
    assert Holds(s, r, slot, b) && SlotPage(s, r, slot) == i;
    assert PageDone(Final(s)[b], v, s.C(), i);
    forall o, j | Holds(s, o, j, b)
      ensures !Open(s.reqs[o], s.C(), SlotPage(s, o, j))
    {
      assert Open(s.reqs[o], s.C(), SlotPage(s, o, j)) ==> HeldOnlyBy(s, b, o, s.reqs[o].epoch);
    }
  }

  lemma LiveSize(s: Sys, r: ReqId)
    requires SysInv(s) && r in s.pool.tables
    ensures Sized(s, r) && r in s.reqs && InRange(s.pool.tables[r], |s.content|)
    ensures s.pool.spec.window.None? ==> |s.pool.tables[r]| == s.pool.logical[r]
  {
    hide Placed, Indexed, Unwritten, HolesOld, Computed, Flights, Exclusive, Pending, Ordered, QueueOk, RefsOk, IndexOk;
  }

  lemma PublishLiveKeeps(s: Sys, r: ReqId, tokens: nat)
    requires SysInv(s) && DoPublishLive(s, r, tokens).Some?
    ensures SysInv(DoPublishLive(s, r, tokens).value)
  {
    hide SysInv, Publish, From, Publishable, Poisoned, Completed, LiveStart;
    PoolInv(s);
    var v := s.reqs[r];
    var completed := Completed(s.pool.spec, v.hs, tokens);
    var start := LiveStart(s.pool, r, v.cached, completed);
    var q := Publish(s.pool, s.pool.tables[r], v.hs, start, completed).value;
    forall i: nat, b: nat, h | PublishedAt(s.pool, s.pool.tables[r], v.hs, start, completed, i, h, b)
      ensures Publishable(s, b, h)
    {
      LivePublishable(s, r, tokens, i, h, b);
    }
    LiveApart(s, r, tokens);
    PublishKeepsAll(s, q, s.pool.tables[r], v.hs, start, completed);
    LiveCached(s, r, tokens);
    CachedKeeps(s.(pool := q), r, completed);
  }

  lemma LiveApart(s: Sys, r: ReqId, tokens: nat)
    requires SysInv(s) && DoPublishLive(s, r, tokens).Some?
    ensures
      var v := s.reqs[r];
      var completed := Completed(s.pool.spec, v.hs, tokens);
      Apart(s.pool, s.pool.tables[r], v.hs, LiveStart(s.pool, r, v.cached, completed), completed)
  {
    hide Inv, Unwritten, HolesOld, Computed, Exclusive, Pending, Ordered, Flights, Poisoned, PageAt, Publish;
    hide Apart, IsPage, Indexed;
    var v := s.reqs[r];
    var t := s.pool.tables[r];
    var completed := Completed(s.pool.spec, v.hs, tokens);
    var start := LiveStart(s.pool, r, v.cached, completed);
    LiveSize(s, r);
    LiveInjective(s, r);
    assert ViewOk(s, r, v);
    CompletedExact(s.pool.spec, v.hs, tokens, completed);
    PageStartStrict(s.C(), s.pool.logical[r], completed);
    forall k: nat, b: nat | k < |t| && t[k] == Some(b) && b < |s.page|
      ensures s.page[b] == PageAt(s.pool.logical[r], |t|, k)
    {
      assert Holds(s, r, k, b);
    }
    if |t| == 0 {
      if start < completed { PublishedInTable(s.pool, t, v.hs, start, completed, start); }
      NothingToKeepApart(s.pool, t, v.hs, start, completed);
    } else {
      ApartInRing(s, t, s.pool.logical[r], v.hs, start, completed);
    }
  }

  lemma NothingToKeepApart(p: Pool, t: Table, hs: seq<Hash>, start: nat, completed: nat)
    requires start >= completed
    ensures Apart(p, t, hs, start, completed)
  {
  }

  lemma LiveInjective(s: Sys, r: ReqId)
    requires SysInv(s) && r in s.pool.tables
    ensures Injective(s.pool.tables[r])
  {
    hide Shape, ViewsOk, Placed, Indexed, Unwritten, HolesOld, Computed, Flights, Exclusive, Pending, Ordered;
    hide QueueOk, RefsOk, IndexOk, SizesOk;
  }

  lemma LiveCached(s: Sys, r: ReqId, tokens: nat)
    requires SysInv(s) && r in s.reqs && s.C() > 0 && PageStart(s.C(), s.reqs[r].lo) <= s.pool.spec.SafeTokens(tokens)
    ensures Completed(s.pool.spec, s.reqs[r].hs, tokens) >= s.reqs[r].lo
  {
    hide Inv, Placed, Indexed, Unwritten, HolesOld, Computed, Flights, Exclusive, Pending, Ordered;
    assert ViewOk(s, r, s.reqs[r]);
    CompletedExact(s.pool.spec, s.reqs[r].hs, tokens, s.reqs[r].lo);
  }

  // ---- what a confirmation publishes, exactly ----

  /** The index after any confirmation, right or wrong, entry by entry: a page new to the index
      is named by the block of its slot, and a block published from loses the entry of any
      other page. */
  lemma ConfirmExact(s: Sys)
    requires SysInv(s) && DoConfirm(s).Some?
    ensures
      var st := s.log[s.settled];
      PublishedExactly(s.pool, DoConfirm(s).value.pool, Ids(st.table), s.reqs[st.r].hs, ConfirmStart(s), ConfirmEnd(s))
  {
    hide SysInv, Inv, Publish, UnpinAll, Apart, ConfirmStart, ConfirmEnd, PublishedExactly;
    PoolInv(s);
    SnapshotApart(s);
    var st := s.log[s.settled];
    var hs := s.reqs[st.r].hs;
    PublishExact(s.pool, Pins(s.log, s.settled), Ids(st.table), hs, ConfirmStart(s), ConfirmEnd(s));
    var q := Publish(s.pool, Ids(st.table), hs, ConfirmStart(s), ConfirmEnd(s)).value;
    UnpinKeepsIndex(q, st.table);
    SameIndex(s.pool, q, DoConfirm(s).value.pool, Ids(st.table), hs, ConfirmStart(s), ConfirmEnd(s));
  }

  lemma SameIndex(p: Pool, q: Pool, u: Pool, t: Table, hs: seq<Hash>, start: nat, completed: nat)
    requires PublishedExactly(p, q, t, hs, start, completed) && u.index == q.index
    ensures PublishedExactly(p, u, t, hs, start, completed)
  {
    hide Entry;
  }

  lemma {:induction false} UnpinKeepsIndex(p: Pool, ids: seq<nat>)
    ensures UnpinAll(p, ids).Some? ==> UnpinAll(p, ids).value.index == p.index
    decreases |ids|
  {
    if ids != [] && ids[0] < |p.refs| && p.refs[ids[0]] > 0 { UnpinKeepsIndex(Unpin(p, ids[0]), ids[1..]); }
  }

  // ---- the condition is exact ----

  /** A confirmation keeps the index sound exactly when it is harmless. Where it is not, a page
      new to the index is named by a block that was handed out for another page. */
  lemma ConfirmSoundExactly(s: Sys)
    requires SysInv(s) && DoConfirm(s).Some?
    ensures Shape(DoConfirm(s).value)
    ensures Indexed(DoConfirm(s).value) <==> Harmless(s)
  {
    hide SysInv, Inv, DoConfirm, Harmless, Indexed;
    ConfirmShape(s);
    if Harmless(s) {
      ConfirmKeeps(s);
      SysIndexed(DoConfirm(s).value);
    } else {
      HarmfulConfirm(s);
    }
  }

  lemma ConfirmShape(s: Sys)
    requires SysInv(s) && DoConfirm(s).Some?
    ensures Shape(s) && Shape(DoConfirm(s).value) && DoConfirm(s).value.page == s.page
    ensures Confirmable(s)
  {
    hide Inv, Publish, UnpinAll, ConfirmStart, ConfirmEnd, LogOk;
    hide ViewsOk, Placed, Indexed, Unwritten, HolesOld, Computed, Flights, Exclusive, Pending, Ordered;
    var st := s.log[s.settled];
    var hs := s.reqs[st.r].hs;
    PublishKeepsPool(s.pool, Pins(s.log, s.settled), Ids(st.table), hs, ConfirmStart(s), ConfirmEnd(s));
    UnpinKeepsSizes(Publish(s.pool, Ids(st.table), hs, ConfirmStart(s), ConfirmEnd(s)).value, st.table);
  }

  lemma {:induction false} UnpinKeepsSizes(p: Pool, ids: seq<nat>)
    ensures UnpinAll(p, ids).Some? ==>
      UnpinAll(p, ids).value == p.(refs := UnpinAll(p, ids).value.refs, free := UnpinAll(p, ids).value.free)
      && |UnpinAll(p, ids).value.refs| == |p.refs|
    decreases |ids|
  {
    if ids != [] && ids[0] < |p.refs| && p.refs[ids[0]] > 0 { UnpinKeepsSizes(Unpin(p, ids[0]), ids[1..]); }
  }

  lemma HarmfulConfirm(s: Sys)
    requires SysInv(s) && DoConfirm(s).Some? && !Harmless(s)
    ensures Shape(DoConfirm(s).value) && !Indexed(DoConfirm(s).value)
  {
    hide SysInv, Inv, Publish, UnpinAll, ConfirmStart, ConfirmEnd, PublishedExactly, IsPage, Misnamed;
    ConfirmShape(s);
    ConfirmExact(s);
    SnapshotApart(s);
    var t := DoConfirm(s).value;
    var st := s.log[s.settled];
    var hs := s.reqs[st.r].hs;
    var i: nat :| ConfirmStart(s) <= i < ConfirmEnd(s) && Misnamed(st, i) && hs[i] !in s.pool.index;
    MisnamedBlock(s, i);
    var b := st.table[RingSlot(i, |st.table|)];
    assert PublishedAt(s.pool, Ids(st.table), hs, ConfirmStart(s), ConfirmEnd(s), i, hs[i], b);
    PublishedNow(s.pool, t.pool, Ids(st.table), hs, ConfirmStart(s), ConfirmEnd(s), i, hs[i], b);
  }

  lemma PublishedNow(p: Pool, q: Pool, t: Table, hs: seq<Hash>, start: nat, completed: nat, i: nat, h: Hash, b: nat)
    requires PublishedExactly(p, q, t, hs, start, completed) && PublishedAt(p, t, hs, start, completed, i, h, b)
    ensures h in q.index && q.index[h] == b
  {
    hide PublishedAt;
    assert Entry(p, t, hs, start, completed, h, b);
  }

  /** The block a misnamed page is published for was handed out for another page. */
  lemma MisnamedBlock(s: Sys, i: nat)
    requires SysInv(s) && Confirmable(s) && Misnamed(s.log[s.settled], i)
    requires InRing(s.pool.spec, |s.log[s.settled].table|, ConfirmStart(s), ConfirmEnd(s))
    requires ConfirmStart(s) <= i < ConfirmEnd(s)
    ensures
      var st := s.log[s.settled];
      && RingSlot(i, |st.table|) < |st.table|
      && From(s.pool.spec, Ids(st.table), i, st.table[RingSlot(i, |st.table|)])
      && st.table[RingSlot(i, |st.table|)] < |s.page|
      && s.page[st.table[RingSlot(i, |st.table|)]] != i
      && Depth(s.reqs[st.r].hs[i]) == i + 1
  {
    hide Inv, Indexed, Unwritten, HolesOld, Computed, Exclusive, Pending, Ordered, StepDone, Poisoned, ConfirmStart,
      ConfirmEnd, InRing;
    var st := s.log[s.settled];
    assert StepOk(st, s.C(), |s.content|) && StepView(s, st, s.reqs[st.r]) && ViewOk(s, st.r, s.reqs[st.r]);
    TableSlotIsRingSlot(s.pool.spec, |st.table|, ConfirmStart(s), ConfirmEnd(s), i);
  }

  lemma SysIndexed(s: Sys)
    requires SysInv(s)
    ensures Shape(s) && Indexed(s)
  {
    hide Shape, Inv, ViewsOk, Placed, Indexed, Unwritten, HolesOld, Computed, Flights, Exclusive, Pending, Ordered;
  }

  /** What the step alone decides: no page is misnamed exactly when the first page to publish is
      still in the step's ring. Otherwise that first page itself is. */
  lemma SnapshotExact(st: Step, capacity: nat, blocks: nat, start: nat, completed: nat)
    requires StepOk(st, capacity, blocks) && completed <= st.pages
    ensures SnapshotSafe(st, start, completed) <==> forall i :: start <= i < completed ==> !Misnamed(st, i)
    ensures !SnapshotSafe(st, start, completed) ==> Misnamed(st, start)
  {
    if SnapshotSafe(st, start, completed) {
      forall i | start <= i < completed
        ensures !Misnamed(st, i)
      {
        SlotPageAt(st.pages, |st.table|, i);
      }
    } else {
      PageAtSlot(st.pages, |st.table|, RingSlot(start, |st.table|));
      assert Misnamed(st, start);
    }
  }

  lemma SafePages(s: Sys)
    requires SysInv(s) && s.settled < |s.log| && Alive(s, s.log[s.settled]) && s.C() > 0
    ensures
      var st := s.log[s.settled];
      && (SnapshotSafe(st, ConfirmStart(s), ConfirmEnd(s)) <==>
            forall i :: ConfirmStart(s) <= i < ConfirmEnd(s) ==> !Misnamed(st, i))
      && (!SnapshotSafe(st, ConfirmStart(s), ConfirmEnd(s)) ==> Misnamed(st, ConfirmStart(s)))
  {
    hide Inv, Placed, Indexed, Unwritten, HolesOld, Computed, Exclusive, Pending, Ordered, StepDone, Poisoned;
    var st := s.log[s.settled];
    assert StepOk(st, s.C(), |s.content|) && StepView(s, st, s.reqs[st.r]);
    CompletedExact(s.pool.spec, st.hs, st.tokens, ConfirmEnd(s));
    PageStartStrict(s.C(), st.pages, ConfirmEnd(s));
    SnapshotExact(st, s.C(), |s.content|, ConfirmStart(s), ConfirmEnd(s));
  }

  /** So a confirmation is harmless when its step is safe, whatever the index holds; and
      otherwise only if the first page it publishes is indexed already. */
  lemma SafeIsHarmless(s: Sys)
    requires SysInv(s) && s.settled < |s.log| && Alive(s, s.log[s.settled]) && s.C() > 0
    ensures
      var st := s.log[s.settled];
      && (SnapshotSafe(st, ConfirmStart(s), ConfirmEnd(s)) ==> Harmless(s))
      && (!SnapshotSafe(st, ConfirmStart(s), ConfirmEnd(s)) && Harmless(s) ==>
        s.reqs[st.r].hs[ConfirmStart(s)] in s.pool.index)
  {
    hide SysInv, SnapshotSafe, Misnamed, ConfirmStart, ConfirmEnd;
    SafePages(s);
    StartBeforeEnd(s);
  }

  lemma StartBeforeEnd(s: Sys)
    requires s.settled < |s.log| && Alive(s, s.log[s.settled]) && s.C() > 0
    ensures !SnapshotSafe(s.log[s.settled], ConfirmStart(s), ConfirmEnd(s)) ==> ConfirmStart(s) < ConfirmEnd(s)
  {
  }

  /** The step is always safe when its chunk, counted from the pages already published, fits the
      ring, and when it ends on a page boundary. */
  lemma SnapshotSafeInRing(spec: GroupSpec, st: Step, cached: nat, completed: nat)
    requires spec.window.Some? && cached <= completed <= st.pages
    requires st.pages - cached <= |st.table| || completed == st.pages
    ensures SnapshotSafe(st, SnapshotStart(spec, |st.table|, cached, completed), completed)
  {
  }
}
