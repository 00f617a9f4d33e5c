/** A run from a fresh pool after which the prefix cache names a block with other content.

    A prompt of seven tokens is prefilled in one chunk through a ring of two pages of two tokens.
    Three pages are complete and the fourth is begun, so the ring holds pages 2 and 3. The
    confirmation starts at page `3 - 2 = 1` and publishes it for the block of page 3. */
module CacheCounterexample {
  import opened CacheTypes
  import opened GroupPool
  import opened CacheDevice
  import opened CacheSystem

  const spec := GroupSpec(2, 2, Some(1), false)

  /** The pool once request `r` has `pages` pages in table `t`. */
  function PoolAt(refs: seq<nat>, free: seq<nat>, t: Table, pages: nat): Pool {
    Pool(spec, refs, [None, None], free, map["r" := t], map["r" := pages], map[])
  }

  function TheStep(hs: seq<Hash>): Step {
    Step("r", 0, hs, [0, 1], 4, 0, 7, 7)
  }

  ghost function Fresh(): Sys {
    Sys(InitialPool(spec, 2), [0, 0], [Junk, Junk], [], 0, 0, {}, {}, map[], 0)
  }

  ghost function BadRun(hs: seq<Hash>): seq<Event> {
    [Admit("r", hs, 0), Extend("r", 4), Dispatch("r", 7, 0),
     Execute(if StepOk(TheStep(hs), 2, 2) then Exec([Junk, Junk], TheStep(hs), 2) else [], true), Confirm]
  }

  lemma Starts()
    ensures PageStart(2, 1) == 2 && PageStart(2, 2) == 4 && PageStart(2, 3) == 6 && PageStart(2, 4) == 8
  {
    assert PageStart(2, 1) == PageStart(2, 0) + 2;
    assert PageStart(2, 2) == PageStart(2, 1) + 2;
    assert PageStart(2, 3) == PageStart(2, 2) + 2;
    assert PageStart(2, 4) == PageStart(2, 3) + 2;
  }

  // ---- the growth of the ring ----

  lemma Grown()
    ensures Grow(InitialPool(spec, 2), "r", 4) == Some(PoolAt([1, 1], [], [Some(0), Some(1)], 4))
  {
    var p := InitialPool(spec, 2);
    var p0 := PoolAt([0, 0], [0, 1], [], 0);
    assert p.refs == [0, 0] && p.hashes == [None, None] && p.free == [0, 1];
    assert Opened(p, "r") == p0;
    var p1 := PoolAt([1, 0], [1], [Some(0)], 1);
    var p2 := PoolAt([1, 1], [], [Some(0), Some(1)], 2);
    var p3 := PoolAt([1, 1], [], [Some(0), Some(1)], 3);
    var p4 := PoolAt([1, 1], [], [Some(0), Some(1)], 4);
    FirstPage();
    SecondPage();
    ThirdPage();
    FourthPage();
    assert AddPages(p4, "r", 4) == Some(p4);
    assert AddPages(p3, "r", 4) == AddPages(p4, "r", 4);
    assert AddPages(p2, "r", 4) == AddPages(p3, "r", 4);
    assert AddPages(p1, "r", 4) == AddPages(p2, "r", 4);
  }

  lemma Slots(t: Table, u: Table, n: nat, m: nat)
    ensures map["r" := t]["r" := u] == map["r" := u]
    ensures map["r" := n]["r" := m] == map["r" := m]
  {
  }

  lemma FirstPage()
    ensures AddPage(PoolAt([0, 0], [0, 1], [], 0), "r") == Some(PoolAt([1, 0], [1], [Some(0)], 1))
  {
    var p := PoolAt([0, 0], [0, 1], [None], 0);
    assert [0, 1][1..] == [1] && [0, 0][0 := 1] == [1, 0];
    assert Take(p) == Some((p.(free := [1], refs := [1, 0]), 0));
    var t: Table := [];
    assert t + [None] == [None] && [None][0 := Some(0)] == [Some(0)];
    Slots(t, [None], 0, 1);
    Slots([None], [Some(0)], 0, 1);
  }

  lemma SecondPage()
    ensures AddPage(PoolAt([1, 0], [1], [Some(0)], 1), "r") == Some(PoolAt([1, 1], [], [Some(0), Some(1)], 2))
  {
    var p := PoolAt([1, 0], [1], [Some(0), None], 1);
    assert [1][1..] == [] && [1, 0][1 := 1] == [1, 1];
    assert Take(p) == Some((p.(free := [], refs := [1, 1]), 1));
    var t: Table := [Some(0)];
    assert t + [None] == [Some(0), None] && [Some(0), None][1 := Some(1)] == [Some(0), Some(1)];
    Slots(t, [Some(0), None], 1, 2);
    Slots([Some(0), None], [Some(0), Some(1)], 1, 2);
  }

  lemma ThirdPage()
    ensures AddPage(PoolAt([1, 1], [], [Some(0), Some(1)], 2), "r") == Some(PoolAt([1, 1], [], [Some(0), Some(1)], 3))
  {
    var p := PoolAt([0, 1], [0], [None, Some(1)], 2);
    var t: Table := [Some(0), Some(1)];
    var free: seq<nat> := [];
    assert t[0 := None] == [None, Some(1)] && [None, Some(1)][0 := Some(0)] == t;
    assert [1, 1][0 := 0] == [0, 1] && [0, 1][0 := 1] == [1, 1] && free + [0] == [0] && [0][1..] == [];
    Slots(t, [None, Some(1)], 2, 3);
    Slots([None, Some(1)], t, 2, 3);
    assert Drop(PoolAt([1, 1], [], t, 2), "r", 0) == p;
    assert Take(p) == Some((p.(free := [], refs := [1, 1]), 0));
  }

  lemma FourthPage()
    ensures AddPage(PoolAt([1, 1], [], [Some(0), Some(1)], 3), "r") == Some(PoolAt([1, 1], [], [Some(0), Some(1)], 4))
  {
    var p := PoolAt([1, 0], [1], [Some(0), None], 3);
    var t: Table := [Some(0), Some(1)];
    var free: seq<nat> := [];
    assert t[1 := None] == [Some(0), None] && [Some(0), None][1 := Some(1)] == t;
    assert [1, 1][1 := 0] == [1, 0] && [1, 0][1 := 1] == [1, 1] && free + [1] == [1] && [1][1..] == [];
    Slots(t, [Some(0), None], 3, 4);
    Slots([Some(0), None], t, 3, 4);
    assert Drop(PoolAt([1, 1], [], t, 3), "r", 1) == p;
    assert Take(p) == Some((p.(free := [], refs := [1, 1]), 1));
  }

  // ---- the run ----

  lemma FirstHalf(hs: seq<Hash>)
    requires |hs| == 3 && Chained(hs)
    ensures StepOk(TheStep(hs), 2, 2)
    ensures
      var run := Run(Fresh(), BadRun(hs)[..3]);
      && run.Some?
      && run.value.pool == PoolAt([2, 2], [], [Some(0), Some(1)], 4) && run.value.log == [TheStep(hs)]
      && run.value == Sys(run.value.pool, run.value.page, [Junk, Junk], run.value.log, 0, 0, {}, {},
                          map["r" := View(0, hs, 7, 0, 0)], 1)
  {
    hide Grow, Replaced;
    Starts();
    Grown();
    var s0 := Fresh();
    var s1 := s0.(reqs := map["r" := View(0, hs, 0, 0, 0)], nextEpoch := 1);
    assert HitAt(s0.pool, hs, 0) ==> DoAdmit(s0, "r", hs, 0) == Some(s1);
    NoPagesHit(s0.pool, hs);
    var p2 := PoolAt([1, 1], [], [Some(0), Some(1)], 4);
    var s2 := s1.(pool := p2, page := Replaced(s1.page, s1.pool, p2, "r"));
    assert DoExtend(s1, "r", 4) == Some(s2);
    Dispatches(s2, hs);
    var s3 := DoDispatch(s2, "r", 7, 0).value;
    var e := BadRun(hs)[..3];
    assert Run(s3, []) == Some(s3);
    assert Run(s2, [e[2]]) == Some(s3) by { assert [e[2]][1..] == []; }
    assert Run(s1, [e[1], e[2]]) == Some(s3) by { assert [e[1], e[2]][1..] == [e[2]]; }
    assert e[1..] == [e[1], e[2]];
  }

  lemma NoPagesHit(p: Pool, hs: seq<Hash>)
    requires p.spec == spec
    ensures HitAt(p, hs, 0) && Selected(p, hs, 0) == []
  {
  }

  lemma Dispatches(s: Sys, hs: seq<Hash>)
    requires |hs| == 3 && s.pool == PoolAt([1, 1], [], [Some(0), Some(1)], 4)
    requires s == Sys(s.pool, s.page, [Junk, Junk], [], 0, 0, {}, {}, map["r" := View(0, hs, 0, 0, 0)], 1)
    ensures DoDispatch(s, "r", 7, 0) ==
      Some(s.(pool := PoolAt([2, 2], [], [Some(0), Some(1)], 4), log := [TheStep(hs)],
        reqs := map["r" := View(0, hs, 7, 0, 0)]))
  {
    Starts();
    var ids := Values(s.pool.tables["r"]);
    assert ids == [0, 1];
    var p1 := s.pool.(refs := [2, 1]);
    var p2 := s.pool.(refs := [2, 2]);
    assert Pin(s.pool, 0) == p1 && Pin(p1, 1) == p2;
    assert PinAll(p2, []) == p2;
    assert PinAll(p1, [1]) == PinAll(p2, []) by { assert [1][1..] == []; }
    assert PinAll(s.pool, ids) == PinAll(p1, [1]) by { assert ids[1..] == [1]; }
    assert s.log + [TheStep(hs)] == [TheStep(hs)];
    assert s.reqs["r" := View(0, hs, 7, 0, 0)] == map["r" := View(0, hs, 7, 0, 0)];
    assert DoDispatch(s, "r", 7, 0).Some?;
  }

  lemma SecondHalf(s: Sys, hs: seq<Hash>)
    requires |hs| == 3 && Chained(hs) && StepOk(TheStep(hs), 2, 2)
    requires s.pool == PoolAt([2, 2], [], [Some(0), Some(1)], 4)
    requires s == Sys(s.pool, s.page, [Junk, Junk], [TheStep(hs)], 0, 0, {}, {}, map["r" := View(0, hs, 7, 0, 0)], 1)
    ensures
      var run := Run(s, BadRun(hs)[3..]);
      && run.Some? && |run.value.content| == 2 && run.value.C() == 2
      && hs[1] in run.value.pool.index && run.value.pool.index[hs[1]] == 1
      && run.value.content == Exec([Junk, Junk], TheStep(hs), 2)
  {
    hide Exec, Writes;
    Starts();
    var e := BadRun(hs);
    var s4 := s.(content := Exec([Junk, Junk], TheStep(hs), 2), executed := 1);
    forall b: nat | b < 2 && !Writes(TheStep(hs), 2, b)
      ensures Exec([Junk, Junk], TheStep(hs), 2)[b] == Junk
    {
      ExecFrame([Junk, Junk], TheStep(hs), 2, b);
    }
    assert e[3] == Execute(Exec([Junk, Junk], TheStep(hs), 2), true);
    assert DoExecute(s, e[3].result, true) == Some(s4);
    Confirms(s4, hs);
    var t := DoConfirm(s4).value;
    assert Run(t, []) == Some(t);
    assert Run(s4, [e[4]]) == Some(t) by { assert [e[4]][1..] == []; }
    assert e[3..] == [e[3], e[4]] && [e[3], e[4]][1..] == [e[4]];
  }

  lemma Confirms(s: Sys, hs: seq<Hash>)
    requires |hs| == 3 && Chained(hs) && |s.content| == 2
    requires s.pool == PoolAt([2, 2], [], [Some(0), Some(1)], 4)
    requires s == Sys(s.pool, s.page, s.content, [TheStep(hs)], 0, 1, {}, {}, map["r" := View(0, hs, 7, 0, 0)], 1)
    ensures DoConfirm(s).Some? && DoConfirm(s).value.content == s.content && DoConfirm(s).value.C() == 2
    ensures hs[1] in DoConfirm(s).value.pool.index && DoConfirm(s).value.pool.index[hs[1]] == 1
  {
    var p := s.pool;
    var t := Ids([0, 1]);
    assert ConfirmStart(s) == 1 && ConfirmEnd(s) == 3;
    assert Depth(hs[1]) == 2 && Depth(hs[2]) == 3;
    var p1 := CacheBlock(p, 1, hs[1]);
    var p2 := CacheBlock(p1, 0, hs[2]);
    assert Publish(p2, t, hs, 3, 3) == Some(p2);
    assert Publish(p1, t, hs, 2, 3) == Publish(p2, t, hs, 3, 3);
    assert Publish(p, t, hs, 1, 3) == Publish(p1, t, hs, 2, 3);
    assert p2.refs == [2, 2];
    var p3 := p2.(refs := [1, 2]);
    var p4 := p2.(refs := [1, 1]);
    assert UnpinAll(p2, [0, 1]) == Some(p4) by {
      assert [0, 1][1..] == [1] && [1][1..] == [];
      assert Unpin(p2, 0) == p3 && Unpin(p3, 1) == p4;
    }
  }

  /** After this run the index names block 1 for page 1 of the prompt. Block 1 does not hold it. */
  lemma SnapshotCounterexample(hs: seq<Hash>)
    requires |hs| == 3 && Chained(hs)
    ensures Initial(Fresh()) && Run(Fresh(), BadRun(hs)).Some?
    ensures
      var t := Run(Fresh(), BadRun(hs)).value;
      && hs[1] in t.pool.index && t.pool.index[hs[1]] == 1 && |t.content| == 2
      && !IsPage(t.content[1], hs[1], t.C())
  {
    hide Exec, Apply;
    Starts();
    FirstHalf(hs);
    var events := BadRun(hs);
    var s3 := Run(Fresh(), events[..3]).value;
    SecondHalf(s3, hs);
    RunSplit(Fresh(), events, 3);
    ExecWrites([Junk, Junk], TheStep(hs), 2, 3);
  }

  lemma {:induction false} RunSplit(s: Sys, events: seq<Event>, n: nat)
    requires n <= |events| && Run(s, events[..n]).Some?
    ensures Run(s, events) == Run(Run(s, events[..n]).value, events[n..])
    decreases |events|
  {
    hide Apply;
    if n == 0 {
      assert events[0..] == events;
    } else {
      assert events[..n][0] == events[0] && events[..n][1..] == events[1..][..n - 1];
      assert events[1..][n - 1..] == events[n..];
      RunSplit(Apply(s, events[0]).value, events[1..], n - 1);
    }
  }
}
