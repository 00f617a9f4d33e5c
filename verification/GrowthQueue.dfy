/** Which blocks growth hands out, and in which order: the queue is served from its old head, a
    rotated block goes behind its tail, and only a block that is handed out loses its page. */
module GrowthQueue {
  import opened CacheTypes
  import opened GroupPool
  import opened RefConservation
  import opened GrowthExactness

  /** One table slot is given block `taken`; the block it held goes to the back of the queue, if
      nobody else refers to it. */
  datatype Turn = Turn(slot: nat, taken: nat, back: Option<nat>)

  function Place(t: Table, turn: Turn): Table {
    if turn.slot < |t| then t[turn.slot := Some(turn.taken)] else t + [Some(turn.taken)]
  }

  function Replay(t: Table, turns: seq<Turn>): Table
    decreases |turns|
  {
    if turns == [] then t else Replay(Place(t, turns[0]), turns[1..])
  }

  function Taken(turns: seq<Turn>): seq<nat> {
    if turns == [] then [] else [turns[0].taken] + Taken(turns[1..])
  }

  function Back(turns: seq<Turn>): seq<nat> {
    if turns == [] then []
    else (if turns[0].back.Some? then [turns[0].back.value] else []) + Back(turns[1..])
  }

  /** The empty slots below `size` are filled, in order. */
  ghost predicate FillsHoles(t: Table, slot: nat, size: nat, turns: seq<Turn>)
    requires size <= |t|
    decreases size - slot
  {
    if slot >= size then turns == []
    else if t[slot].Some? then FillsHoles(t, slot + 1, size, turns)
    else turns != [] && turns[0].slot == slot && turns[0].back.None? && FillsHoles(t, slot + 1, size, turns[1..])
  }

  /** Then one turn a page: a new slot while the table grows, and afterwards the slot of the page
      that leaves the window, whose block goes back unless somebody else refers to it. */
  ghost predicate AddsPages(spec: GroupSpec, t: Table, shared: set<nat>, page: nat, target: nat, turns: seq<Turn>)
    requires spec.maxBlocks > 0
    decreases target - page
  {
    if page >= target then turns == []
    else
      && turns != []
      && (if spec.window.None? || page < spec.maxBlocks then
            turns[0].slot == page == |t| && turns[0].back.None?
          else
            && turns[0].slot == page % spec.maxBlocks < |t|
            && turns[0].back == if turns[0].slot in shared then None else t[turns[0].slot])
      && AddsPages(spec, Place(t, turns[0]), shared - {turns[0].slot}, page + 1, target, turns[1..])
  }

  /** The queue served from its head: `taken` leaves, `back` joins at the end, and the index loses
      exactly the entries of the blocks taken. */
  ghost predicate Served(p: Pool, q: Pool, taken: seq<nat>, back: seq<nat>) {
    && taken + q.free == p.free + back
    && (forall h :: h in q.index <==> h in p.index && p.index[h] !in taken)
    && (forall h :: h in q.index ==> q.index[h] == p.index[h])
  }

  lemma ServedTrans(p: Pool, q: Pool, u: Pool, taken: seq<nat>, back: seq<nat>, taken': seq<nat>, back': seq<nat>)
    requires Served(p, q, taken, back) && Served(q, u, taken', back')
    ensures Served(p, u, taken + taken', back + back')
  {
    calc {
      taken + taken' + u.free;
      taken + (taken' + u.free);
      taken + (q.free + back');
      (taken + q.free) + back';
      p.free + back + back';
    }
    assert p.free + back + back' == p.free + (back + back');
  }

  // ---- one block ----

  lemma PutServes(p: Pool, pins: multiset<nat>, r: ReqId, slot: nat)
    requires Core(p, pins) && r in p.tables && slot < |p.tables[r]| && p.tables[r][slot].None? && |p.free| > 0
    ensures Put(p, r, slot).Some?
    ensures
      var q := Put(p, r, slot).value;
      && Served(p, q, [p.free[0]], [])
      && q.tables == p.tables[r := p.tables[r][slot := Some(p.free[0])]]
      && q.logical == p.logical
  {
    TakeExact(p, pins);
    assert [p.free[0]] + p.free[1..] == p.free + [];
  }

  lemma {:induction false} FillServes(p: Pool, pins: multiset<nat>, r: ReqId, slot: nat, size: nat)
      returns (turns: seq<Turn>)
    requires Core(p, pins) && r in p.tables && slot <= size <= |p.tables[r]| && FillHoles(p, r, slot, size).Some?
    ensures FillsHoles(p.tables[r], slot, size, turns)
    ensures
      var q := FillHoles(p, r, slot, size).value;
      && Served(p, q, Taken(turns), []) && Back(turns) == []
      && q.tables == p.tables[r := Replay(p.tables[r], turns)] && q.logical == p.logical
    decreases size - slot
  {
    hide Core, Served, Put;
    var t := p.tables[r];
    if slot >= size {
      turns := [];
      NothingServed(p);
      assert p.tables == p.tables[r := t];
    } else if t[slot].Some? {
      turns := FillServes(p, pins, r, slot + 1, size);
    } else {
      PutCore(p, pins, r, slot);
      PutServes(p, pins, r, slot);
      var q := Put(p, r, slot).value;
      var turn := Turn(slot, p.free[0], None);
      var rest := FillServes(q, pins, r, slot + 1, size);
      turns := [turn] + rest;
      assert turns[1..] == rest;
      FillsFrame(t, q.tables[r], slot + 1, size, rest);
      ServedTrans(p, q, FillHoles(q, r, slot + 1, size).value, [p.free[0]], [], Taken(rest), []);
      assert p.tables[r := Place(t, turn)][r := Replay(Place(t, turn), rest)] == p.tables[r := Replay(t, turns)];
    }
  }

  lemma NothingServed(p: Pool)
    ensures Served(p, p, [], [])
  {
  }

  lemma {:induction false} FillsFrame(t: Table, u: Table, slot: nat, size: nat, turns: seq<Turn>)
    requires size <= |t| == |u| && forall s :: slot <= s < size ==> t[s] == u[s]
    requires FillsHoles(u, slot, size, turns)
    ensures FillsHoles(t, slot, size, turns)
    decreases size - slot
  {
    if slot < size {
      FillsFrame(t, u, slot + 1, size, if t[slot].Some? then turns else turns[1..]);
    }
  }

  // ---- one page ----

  ghost function SharedIn(p: Pool, t: Table): set<nat> {
    set s: nat | s < |t| && IsSharedSlot(p, t, s)
  }

  /** The turn of one page. */
  lemma PageServes(p: Pool, pins: multiset<nat>, r: ReqId) returns (turn: Turn)
    requires Inv(p, pins) && r in p.tables && r in p.logical && NoHoles(p.tables[r]) && AddPage(p, r).Some?
    requires p.spec.window.None? ==> p.logical[r] < p.spec.maxBlocks
    ensures
      var q := AddPage(p, r).value;
      var t := p.tables[r];
      && p.spec.Valid()
      && Served(p, q, [turn.taken], Back([turn]))
      && q.tables == p.tables[r := Place(t, turn)] && q.logical == p.logical[r := p.logical[r] + 1]
      && (if p.spec.window.None? || p.logical[r] < p.spec.maxBlocks then
            turn.slot == p.logical[r] == |t| && turn.back.None?
          else
            && turn.slot == p.logical[r] % p.spec.maxBlocks < |t|
            && turn.back == if turn.slot in SharedIn(p, t) then None else t[turn.slot])
      && SharedIn(q, q.tables[r]) == SharedIn(p, t) - {turn.slot}
  {
    hide Core, Inv, SizesOk, Put, Drop, Served, IsSharedSlot;
    SizeOk(p, pins, r);
    var page, t := p.logical[r], p.tables[r];
    if p.spec.window.None? || page < p.spec.maxBlocks {
      var p1 := p.(tables := p.tables[r := t + [None]]);
      ExtendCore(p, pins, r);
      PutCore(p1, pins, r, page);
      PutServes(p1, pins, r, page);
      PutShared(p1, pins, r, page);
      ExtendShared(p, p1, r);
      turn := Turn(page, p.free[0], None);
      assert Place(t, turn) == (t + [None])[page := Some(p.free[0])];
      ServedByPut(p, p1, AddPage(p, r).value, Put(p1, r, page).value, turn);
      NoSlotThere(p, t, page);
      SharedAfter(p, Put(p1, r, page).value, AddPage(p, r).value, r, page);
    } else {
      var slot := RingSlot(page, p.spec.maxBlocks);
      var p1 := Drop(p, r, slot);
      DropCore(p, pins, r, slot);
      DropShared(p, pins, r, slot);
      PutCore(p1, pins, r, slot);
      PutServes(p1, pins, r, slot);
      PutShared(p1, pins, r, slot);
      turn := Turn(slot, p1.free[0], if IsSharedSlot(p, t, slot) then None else t[slot]);
      DropServes(p, pins, r, slot);
      assert Place(t, turn) == t[slot := None][slot := Some(p1.free[0])];
      ServedTrans(p, p1, Put(p1, r, slot).value, [], Back([turn]), [turn.taken], []);
      assert [] + [turn.taken] == [turn.taken] && Back([turn]) + [] == Back([turn]);
      SameQueue(p, Put(p1, r, slot).value, AddPage(p, r).value, [turn.taken], Back([turn]));
      SharedAfter(p, Put(p1, r, slot).value, AddPage(p, r).value, r, slot);
    }
  }

  lemma SharedAfter(p: Pool, u: Pool, q: Pool, r: ReqId, slot: nat)
    requires r in p.tables && r in u.tables && r in q.tables && q.tables[r] == u.tables[r] && q.refs == u.refs
    requires !IsSharedSlot(u, u.tables[r], slot)
    requires forall s: nat :: s != slot ==> (IsSharedSlot(u, u.tables[r], s) <==> IsSharedSlot(p, p.tables[r], s))
    ensures SharedIn(q, q.tables[r]) == SharedIn(p, p.tables[r]) - {slot}
  {
    assert forall s: nat :: IsSharedSlot(q, q.tables[r], s) <==> IsSharedSlot(u, u.tables[r], s);
    assert forall s: nat :: IsSharedSlot(q, q.tables[r], s) ==> s < |q.tables[r]|;
    assert forall s: nat :: IsSharedSlot(p, p.tables[r], s) ==> s < |p.tables[r]|;
  }

  lemma NoSlotThere(p: Pool, t: Table, slot: nat)
    requires slot >= |t|
    ensures !IsSharedSlot(p, t, slot)
  {
  }

  lemma SameQueue(p: Pool, q: Pool, u: Pool, taken: seq<nat>, back: seq<nat>)
    requires Served(p, q, taken, back) && u.free == q.free && u.index == q.index
    ensures Served(p, u, taken, back)
  {
  }

  lemma ServedByPut(p: Pool, p1: Pool, q: Pool, u: Pool, turn: Turn)
    requires p1.free == p.free && p1.index == p.index && Served(p1, u, [turn.taken], [])
    requires u.free == q.free && u.index == q.index && turn.back.None?
    ensures Served(p, q, [turn.taken], Back([turn]))
  {
    assert Back([turn]) == [] by { assert [turn][1..] == []; }
  }

  /** Giving up a slot: a block nobody else refers to goes to the back of the queue. */
  lemma DropServes(p: Pool, pins: multiset<nat>, r: ReqId, slot: nat)
    requires Core(p, pins) && r in p.tables && slot < |p.tables[r]| && p.tables[r][slot].Some?
    ensures
      var t := p.tables[r];
      var turn := Turn(slot, 0, if IsSharedSlot(p, t, slot) then None else t[slot]);
      && Served(p, Drop(p, r, slot), [], Back([turn]))
      && forall taken :: Back([turn.(taken := taken)]) == Back([turn])
  {
    OwnedIsReferenced(p, pins, r, slot);
    var t := p.tables[r];
    var turn := Turn(slot, 0, if IsSharedSlot(p, t, slot) then None else t[slot]);
    BackOfOne(turn);
    forall taken
      ensures Back([turn.(taken := taken)]) == Back([turn])
    {
      BackOfOne(turn.(taken := taken));
    }
  }

  lemma BackOfOne(turn: Turn)
    ensures Back([turn]) == if turn.back.Some? then [turn.back.value] else []
    ensures Taken([turn]) == [turn.taken]
  {
    assert [turn][1..] == [];
  }

  // ---- all pages ----

  lemma {:induction false} PagesServe(p: Pool, pins: multiset<nat>, r: ReqId, target: nat) returns (turns: seq<Turn>)
    requires Inv(p, pins) && r in p.tables && r in p.logical && NoHoles(p.tables[r])
    requires p.spec.window.None? ==> target <= p.spec.maxBlocks
    requires p.spec.Valid() && AddPages(p, r, target).Some?
    ensures AddsPages(p.spec, p.tables[r], SharedIn(p, p.tables[r]), p.logical[r], target, turns)
    ensures
      var q := AddPages(p, r, target).value;
      && Served(p, q, Taken(turns), Back(turns))
      && q.tables == p.tables[r := Replay(p.tables[r], turns)]
      && q.logical == p.logical[r := Max(p.logical[r], target)]
    decreases target - p.logical[r]
  {
    hide Core, Inv, SizesOk, AddPage, NoHoles, Served, Grown, PagesCost, SharedIn;
    var t := p.tables[r];
    if p.logical[r] >= target {
      turns := [];
      NothingServed(p);
      assert p.tables == p.tables[r := t] && p.logical == p.logical[r := p.logical[r]];
    } else {
      var turn := PageServes(p, pins, r);
      var q := AddPage(p, r).value;
      PagesCostStep(p, pins, r, target);
      GrownFacts(p, q, pins, r, p.logical[r] + 1, PagesCost(p, r, target) - PagesCost(q, r, target));
      var rest := PagesServe(q, pins, r, target);
      turns := [turn] + rest;
      assert turns[1..] == rest;
      BackOfOne(turn);
      ServedTrans(p, q, AddPages(q, r, target).value, [turn.taken], Back([turn]), Taken(rest), Back(rest));
      assert q.tables[r := Replay(q.tables[r], rest)] == p.tables[r := Replay(t, turns)];
      assert q.logical[r := Max(q.logical[r], target)] == p.logical[r := Max(p.logical[r], target)];
    }
  }

  // ---- the whole growth ----

  /** `turns` is what growth to `target` pages does: first the holes, then the pages. */
  ghost predicate GrowsBy(p: Pool, r: ReqId, target: nat, holes: seq<Turn>, pages: seq<Turn>)
    requires p.spec.Valid()
  {
    var t := p.TableOf(r);
    && FillsHoles(t, 0, Min(p.spec.TableSize(target), |t|), holes)
    && AddsPages(p.spec, Replay(t, holes), SharedIn(p, t), p.LogicalOf(r), target, pages)
  }

  lemma SharedAlike(p: Pool, q: Pool, t: Table, u: Table)
    requires forall s: nat :: IsSharedSlot(q, u, s) <==> IsSharedSlot(p, t, s)
    ensures SharedIn(q, u) == SharedIn(p, t)
  {
    assert forall s: nat :: IsSharedSlot(q, u, s) ==> s < |u|;
    assert forall s: nat :: IsSharedSlot(p, t, s) ==> s < |t|;
  }

  lemma SharedOpened(p: Pool, r: ReqId)
    ensures SharedIn(Opened(p, r), p.TableOf(r)) == SharedIn(p, p.TableOf(r))
  {
    SharedAlike(p, Opened(p, r), p.TableOf(r), p.TableOf(r));
  }

  /** The first phase: the holes, and what the second phase starts from. */
  lemma HolesServe(p: Pool, pins: multiset<nat>, r: ReqId, target: nat) returns (holes: seq<Turn>)
    requires Inv(p, pins) && p.spec.Valid() && r in p.tables && r in p.logical
    requires FillHoles(p, r, 0, Min(p.spec.TableSize(target), |p.tables[r]|)).Some?
    ensures FillsHoles(p.tables[r], 0, Min(p.spec.TableSize(target), |p.tables[r]|), holes)
    ensures
      var t := p.tables[r];
      var q := FillHoles(p, r, 0, Min(p.spec.TableSize(target), |t|)).value;
      && Served(p, q, Taken(holes), []) && q.spec == p.spec
      && q.tables == p.tables[r := Replay(t, holes)] && q.logical == p.logical
      && SharedIn(q, q.tables[r]) == SharedIn(p, t)
      && (target >= p.logical[r] ==> Inv(q, pins) && NoHoles(q.tables[r]))
  {
    hide Core, SizesOk, FillHoles, Served, SharedIn, Replay, IsSharedSlot;
    SizeOk(p, pins, r);
    var t := p.tables[r];
    var size := Min(p.spec.TableSize(target), |t|);
    holes := FillServes(p, pins, r, 0, size);
    FillHolesExact(p, pins, r, 0, size);
    var q := FillHoles(p, r, 0, size).value;
    SharedAlike(p, q, t, q.tables[r]);
    if target >= p.logical[r] {
      assert size == |t|;
      FilledSizes(p, q, pins, r);
    }
  }

  /** The second phase, also where there is nothing to add. */
  lemma PagesServeAll(p: Pool, pins: multiset<nat>, r: ReqId, target: nat) returns (pages: seq<Turn>)
    requires r in p.tables && r in p.logical && p.spec.Valid() && AddPages(p, r, target).Some?
    requires target >= p.logical[r] ==> Inv(p, pins) && NoHoles(p.tables[r])
    requires p.spec.window.None? ==> target <= p.spec.maxBlocks
    ensures AddsPages(p.spec, p.tables[r], SharedIn(p, p.tables[r]), p.logical[r], target, pages)
    ensures
      var q := AddPages(p, r, target).value;
      && Served(p, q, Taken(pages), Back(pages))
      && q.tables == p.tables[r := Replay(p.tables[r], pages)]
      && q.logical == p.logical[r := Max(p.logical[r], target)]
  {
    hide Inv, NoHoles, SharedIn, Served;
    if p.logical[r] > target {
      pages := [];
      NothingServed(p);
      assert p.tables == p.tables[r := p.tables[r]] && p.logical == p.logical[r := p.logical[r]];
    } else {
      pages := PagesServe(p, pins, r, target);
    }
  }

  /** Growth hands out the blocks of the old queue from its head, and rotated blocks only after
      them; the table gets them turn by turn; the index loses the entries of the blocks handed
      out, and no others. */
  lemma GrowServes(p: Pool, pins: multiset<nat>, r: ReqId, target: nat) returns (holes: seq<Turn>, pages: seq<Turn>)
    requires Inv(p, pins) && p.spec.Valid() && Grow(p, r, target).Some?
    requires p.spec.window.None? ==> target <= p.spec.maxBlocks
    ensures GrowsBy(p, r, target, holes, pages)
    ensures
      var q := Grow(p, r, target).value;
      && Served(p, q, Taken(holes) + Taken(pages), Back(pages))
      && q.tables == p.tables[r := Replay(Replay(p.TableOf(r), holes), pages)]
      && q.logical == p.logical[r := Max(p.LogicalOf(r), target)]
  {
    hide Inv, FillHoles, AddPages, Served, SharedIn, Replay, AddsPages, FillsHoles;
    OpenedInv(p, pins, r);
    SharedOpened(p, r);
    var p0 := Opened(p, r);
    var t := p.TableOf(r);
    holes := HolesServe(p0, pins, r, target);
    var p1 := FillHoles(p0, r, 0, Min(p.spec.TableSize(target), |t|)).value;
    pages := PagesServeAll(p1, pins, r, target);
    var q := Grow(p, r, target).value;
    ServedTrans(p0, p1, q, Taken(holes), [], Taken(pages), Back(pages));
    assert [] + Back(pages) == Back(pages);
    FromOpened(p, p0, q, Taken(holes) + Taken(pages), Back(pages));
    assert q.tables == p.tables[r := Replay(Replay(t, holes), pages)];
    assert q.logical == p.logical[r := Max(p.LogicalOf(r), target)];
  }

  lemma FromOpened(p: Pool, p0: Pool, q: Pool, taken: seq<nat>, back: seq<nat>)
    requires p0.free == p.free && p0.index == p.index && Served(p0, q, taken, back)
    ensures Served(p, q, taken, back)
  {
  }

  // ---- what that means ----

  /** As long as the old queue lasts, exactly its oldest blocks are handed out and lose their
      pages: the blocks that rotation gives up are all behind the rest of it. */
  lemma SpareBlocksKeepPages(p: Pool, pins: multiset<nat>, r: ReqId, target: nat)
    requires Inv(p, pins) && p.spec.Valid() && Grow(p, r, target).Some?
    requires p.spec.window.None? ==> target <= p.spec.maxBlocks
    ensures exists holes, pages ::
      var q := Grow(p, r, target).value;
      var n := |holes| + |pages|;
      && GrowsBy(p, r, target, holes, pages)
      && (n <= |p.free| ==>
            && q.free == p.free[n..] + Back(pages)
            && (forall h :: h in q.index <==> h in p.index && p.index[h] !in p.free[..n]))
      && (n > |p.free| ==> forall h :: h in q.index ==> h in p.index && p.index[h] !in p.free)
  {
    hide Inv, Grow, GrowsBy;
    var holes, pages := GrowServes(p, pins, r, target);
    var q := Grow(p, r, target).value;
    var taken := Taken(holes) + Taken(pages);
    TakenSize(holes);
    TakenSize(pages);
    var n := |taken|;
    TakenFirst(taken, q.free, p.free, Back(pages));
    if n > |p.free| { assert forall b :: b in p.free ==> b in taken; }
  }

  /** Of a queue with a new end, either the head was taken, or all of it and some of the end. */
  lemma TakenFirst(taken: seq<nat>, left: seq<nat>, free: seq<nat>, back: seq<nat>)
    requires taken + left == free + back
    ensures |taken| <= |free| ==> taken == free[..|taken|] && left == free[|taken|..] + back
    ensures |taken| > |free| ==> free == taken[..|free|]
  {
    if |taken| <= |free| {
      assert taken == (free + back)[..|taken|] && left == (free + back)[|taken|..];
    } else {
      assert free == (taken + left)[..|free|];
    }
  }

  lemma {:induction false} TakenSize(turns: seq<Turn>)
    ensures |Taken(turns)| == |turns|
  {
    if turns != [] { TakenSize(turns[1..]); }
  }

  /** The request has the pages it asked for, or more: growth never shrinks it. */
  lemma GrowReaches(p: Pool, pins: multiset<nat>, r: ReqId, target: nat)
    requires Inv(p, pins) && p.spec.Valid() && Grow(p, r, target).Some?
    requires p.spec.window.None? ==> target <= p.spec.maxBlocks
    ensures
      var q := Grow(p, r, target).value;
      && r in q.logical && r in q.tables && q.logical[r] == Max(p.LogicalOf(r), target)
      && (target >= p.LogicalOf(r) ==>
            && NoHoles(q.tables[r])
            && |q.tables[r]| == if p.spec.window.Some? then Min(target, p.spec.maxBlocks) else target)
  {
    hide Inv, Grow, Served, GrowsBy, Additional;
    var holes, pages := GrowServes(p, pins, r, target);
    if target >= p.LogicalOf(r) { GrowExact(p, pins, r, target); }
  }
}
