/** Publication is complete: after a publication that names every page right, no entry is lost,
    and the index names exactly the hashes it named before and those of the pages published. */
module CacheSystemComplete {
  import opened CacheTypes
  import opened GroupPool
  import opened RefConservation
  import opened CacheDevice
  import opened CacheSystem
  import opened CacheSystemSteps
  import opened CacheSystemPublish
  import opened Publication

  /** Every published block has the hash that `named` gives it. */
  ghost predicate Labelled(p: Pool, named: nat -> Hash) {
    forall b: nat :: b < |p.hashes| && p.hashes[b].Some? ==> p.hashes[b].value == named(b)
  }

  ghost predicate Extends(p: Pool, q: Pool) {
    forall h :: h in p.index ==> h in q.index && q.index[h] == p.index[h]
  }

  /** `u` has the entries of `p`, unchanged, and those of the pages `start..completed`; no others. */
  ghost predicate AddsExactly(p: Pool, q: Pool, hs: seq<Hash>, start: nat, completed: nat) {
    && Extends(p, q)
    && (forall h :: h in q.index <==> h in p.index || (exists i :: start <= i < completed <= |hs| && hs[i] == h))
  }

  /** The hash of the page a block will hold. */
  ghost function LabelOf(s: Sys): nat -> Hash
    requires Shape(s)
  {
    var final := Final(s);
    (b: nat) => if b < |final| && final[b].Rows? && final[b].page < |final[b].hs| then final[b].hs[final[b].page]
      else Root
  }

  lemma IndexedIsLabelled(s: Sys)
    requires Shape(s) && Indexed(s) && Inv(s.pool, Pins(s.log, s.settled))
    ensures Labelled(s.pool, LabelOf(s))
  {
    hide QueueOk, TablesOk, RefsOk, SizesOk, LogOk;
  }

  lemma PublishableIsLabelled(s: Sys, b: nat, h: Hash)
    requires Shape(s) && Publishable(s, b, h)
    ensures h == LabelOf(s)(b)
  {
    hide Writes, Open, LogOk;
  }

  /** If every page goes to a block of that page, no entry is lost. */
  lemma NothingLost(p: Pool, pins: multiset<nat>, q: Pool, t: Table, hs: seq<Hash>, start: nat, completed: nat,
      named: nat -> Hash)
    requires Inv(p, pins) && Labelled(p, named) && PublishedExactly(p, q, t, hs, start, completed) && completed <= |hs|
    requires Publish(p, t, hs, start, completed).Some?
    requires forall i: nat, b: nat :: start <= i < completed && From(p.spec, t, i, b) ==> hs[i] == named(b)
    ensures AddsExactly(p, q, hs, start, completed)
  {
    hide QueueOk, TablesOk, RefsOk, SizesOk, TableSlot, Publish, PublishedExactly;
    forall h | h in p.index
      ensures h in q.index && q.index[h] == p.index[h]
    {
      assert Survives(p, t, hs, start, completed, h, p.index[h]);
      EntryNow(p, q, t, hs, start, completed, h, p.index[h]);
    }
    forall i: nat | start <= i < completed && hs[i] !in p.index
      ensures hs[i] in q.index
    {
      PublishedInTable(p, t, hs, start, completed, i);
      var b := t[TableSlot(p.spec, i, |t|)].value;
      assert PublishedAt(p, t, hs, start, completed, i, hs[i], b);
      EntryNow(p, q, t, hs, start, completed, hs[i], b);
    }
    PublishedEntries(p, q, t, hs, start, completed);
  }

  lemma EntryNow(p: Pool, q: Pool, t: Table, hs: seq<Hash>, start: nat, completed: nat, h: Hash, b: nat)
    requires PublishedExactly(p, q, t, hs, start, completed)
    ensures Entry(p, t, hs, start, completed, h, b) ==> h in q.index && q.index[h] == b
  {
    hide Entry;
  }

  /** Confirming a step that is safe adds exactly the pages it completed, and loses no entry. */
  lemma ConfirmComplete(s: Sys)
    requires SysInv(s) && DoConfirm(s).Some? && SnapshotSafe(s.log[s.settled], ConfirmStart(s), ConfirmEnd(s))
    ensures
      AddsExactly(s.pool, DoConfirm(s).value.pool, s.reqs[s.log[s.settled].r].hs, ConfirmStart(s), ConfirmEnd(s))
  {
    hide Inv, ViewsOk, Placed, Indexed, Unwritten, HolesOld, Computed, Flights, Exclusive, Pending, Ordered;
    hide UnpinAll, SnapshotSafe, Publishable, AddsExactly, Misnamed, ConfirmStart, ConfirmEnd, LabelOf, Labelled,
      From, Publish;
    hide PublishedExactly, Harmless, LogOk;
    var st := s.log[s.settled];
    var hs := s.reqs[st.r].hs;
    PoolInv(s);
    ConfirmExact(s);
    SafePages(s);
    IndexedIsLabelled(s);
    forall i: nat, b: nat | ConfirmStart(s) <= i < ConfirmEnd(s) && From(s.pool.spec, Ids(st.table), i, b)
      ensures hs[i] == LabelOf(s)(b)
    {
      SnapshotPublishable(s, i, hs[i], b);
      PublishableIsLabelled(s, b, hs[i]);
    }
    NothingLost(s.pool, Pins(s.log, s.settled), DoConfirm(s).value.pool, Ids(st.table), hs, ConfirmStart(s),
      ConfirmEnd(s), LabelOf(s));
  }

  /** So does publication from the live table. */
  lemma PublishLiveComplete(s: Sys, r: ReqId, tokens: nat)
    requires SysInv(s) && DoPublishLive(s, r, tokens).Some?
    ensures
      var v := s.reqs[r];
      var completed := Completed(s.pool.spec, v.hs, tokens);
      AddsExactly(s.pool, DoPublishLive(s, r, tokens).value.pool, v.hs, LiveStart(s.pool, r, v.cached, completed),
        completed)
  {
    hide SysInv, Shape, Inv, Indexed, Publish, Publishable, Poisoned, AddsExactly, Apart, From, LabelOf, Labelled,
      PublishedExactly;
    PoolInv(s);
    SysIndexed(s);
    IndexedIsLabelled(s);
    LiveApart(s, r, tokens);
    var v := s.reqs[r];
    var t := s.pool.tables[r];
    var pins := Pins(s.log, s.settled);
    var completed := Completed(s.pool.spec, v.hs, tokens);
    var start := LiveStart(s.pool, r, v.cached, completed);
    forall i: nat, b: nat | start <= i < completed && From(s.pool.spec, t, i, b)
      ensures v.hs[i] == LabelOf(s)(b)
    {
      LivePublishable(s, r, tokens, i, v.hs[i], b);
      PublishableIsLabelled(s, b, v.hs[i]);
    }
    PublishExact(s.pool, pins, t, v.hs, start, completed);
    NothingLost(s.pool, pins, DoPublishLive(s, r, tokens).value.pool, t, v.hs, start, completed, LabelOf(s));
  }
}
