/** Content soundness of the prefix cache over whole runs of `CacheSystem`: it holds throughout a
    run exactly when every confirmation in the run is harmless. */
module CacheSoundness {
  import opened CacheTypes
  import opened RefConservation
  import opened CacheDevice
  import opened CacheSystem
  import opened CacheSystemSteps
  import opened CacheSystemPublish
  import opened CacheSystemDispatch
  import opened CacheSystemGrow

  lemma InitialKeeps(s: Sys)
    requires Initial(s)
    ensures SysInv(s)
  {
    hide Inv;
    InitialInv(s.pool.spec, |s.page|);
  }

  /** Every event keeps the invariant, except a confirmation that is not harmless. */
  lemma ApplyKeeps(s: Sys, e: Event)
    requires SysInv(s) && Apply(s, e).Some? && (e.Confirm? ==> Harmless(s))
    ensures SysInv(Apply(s, e).value)
  {
    hide SysInv, Harmless, DoAdmit, DoExtend, DoDispatch, DoExecute, DoConfirm, DoDiscard, DoPublishLive, DoRollback,
      DoRetire;
    match e
    case Admit(r, hs, pages) => AdmitKeeps(s, r, hs, pages);
    case Extend(r, target) => ExtendKeeps(s, r, target);
    case Dispatch(r, tokens, extra) => DispatchKeeps(s, r, tokens, extra);
    case Execute(result, ok) => ExecuteKeeps(s, result, ok);
    case Confirm => ConfirmKeeps(s);
    case Discard => DiscardKeeps(s);
    case PublishLive(r, tokens) => PublishLiveKeeps(s, r, tokens);
    case Rollback(r, rows) => RollbackKeeps(s, r, rows);
    case Retire(r) => RetireKeeps(s, r);
  }

  /** Every confirmation of the run is harmless where it happens. */
  ghost predicate HarmlessRun(s: Sys, events: seq<Event>)
    decreases |events|
  {
    events == []
    || ((events[0].Confirm? ==> Harmless(s))
        && (Apply(s, events[0]).Some? ==> HarmlessRun(Apply(s, events[0]).value, events[1..])))
  }

  lemma {:induction false} RunKeeps(s: Sys, events: seq<Event>)
    requires SysInv(s) && Run(s, events).Some? && HarmlessRun(s, events)
    ensures SysInv(Run(s, events).value)
    decreases |events|
  {
    hide SysInv, Apply, Harmless;
    if events != [] {
      ApplyKeeps(s, events[0]);
      RunKeeps(Apply(s, events[0]).value, events[1..]);
    }
  }

  /** Every state of the run has a sound index: each entry names a block that was handed out for
      the page of its hash, and will hold exactly that page once the device has caught up. */
  ghost predicate SoundThroughout(s: Sys, events: seq<Event>)
    decreases |events|
  {
    && Shape(s) && Indexed(s)
    && (events != [] && Apply(s, events[0]).Some? ==> SoundThroughout(Apply(s, events[0]).value, events[1..]))
  }

  lemma {:induction false} SoundFrom(s: Sys, events: seq<Event>)
    requires SysInv(s) && Run(s, events).Some?
    ensures SoundThroughout(s, events) <==> HarmlessRun(s, events)
    decreases |events|
  {
    hide SysInv, Apply, Harmless, Shape, Indexed;
    SysIndexed(s);
    if events != [] {
      var t := Apply(s, events[0]).value;
      if events[0].Confirm? {
        ApplyConfirm(s);
        ConfirmSoundExactly(s);
      }
      if events[0].Confirm? ==> Harmless(s) {
        ApplyKeeps(s, events[0]);
        SoundFrom(t, events[1..]);
      }
    }
  }

  lemma ApplyConfirm(s: Sys)
    ensures Apply(s, Confirm) == DoConfirm(s)
  {
  }

  /** The exact condition: the cache is sound throughout a run if and only if no confirmation
      in it publishes a page that is new to the index for the wrong block. */
  lemma SoundExactly(s: Sys, events: seq<Event>)
    requires Initial(s) && Run(s, events).Some?
    ensures SoundThroughout(s, events) <==> HarmlessRun(s, events)
  {
    hide SysInv, Run, HarmlessRun, SoundThroughout;
    InitialKeeps(s);
    SoundFrom(s, events);
  }

  /** On such a run, whatever the device has executed so far, every index entry names a block
      that holds exactly - and completely - the page of its hash, now. */
  lemma PrefixCacheSound(s: Sys, events: seq<Event>)
    requires Initial(s) && Run(s, events).Some? && HarmlessRun(s, events)
    ensures
      var t := Run(s, events).value;
      && t.C() > 0 && |t.content| == |t.pool.hashes|
      && (forall h :: h in t.pool.index ==>
            t.pool.index[h] < |t.content| && IsPage(t.content[t.pool.index[h]], h, t.C()))
  {
    hide SysInv, Inv, IndexOk, Writes, IsPage, LogOk, Run, HarmlessRun;
    InitialKeeps(s);
    RunKeeps(s, events);
    SoundNow(Run(s, events).value);
  }

  lemma SoundNow(t: Sys)
    requires SysInv(t)
    ensures t.C() > 0 && |t.content| == |t.pool.hashes|
    ensures forall h :: h in t.pool.index ==>
      t.pool.index[h] < |t.content| && IsPage(t.content[t.pool.index[h]], h, t.C())
  {
    hide Writes, IsPage, QueueOk, TablesOk, RefsOk, SizesOk;
    hide ViewsOk, Placed, HolesOld, Computed, Flights, Exclusive, Pending, Ordered;
    forall h | h in t.pool.index
      ensures t.pool.index[h] < |t.content| && IsPage(t.content[t.pool.index[h]], h, t.C())
    {
      var b := t.pool.index[h];
      assert t.pool.hashes[b] == Some(h);
      DrainFrame(t.content, t.log, t.executed, t.settled, t.C(), b);
    }
  }
}
