/** Whole runs of one grouped cache pool under asynchronous scheduling.

    The state holds the pool, the views the scheduler keeps of its requests, the log of
    dispatched steps and the device. Steps are executed in order and settled in order, but
    the two run apart: `log[settled..]` are in flight (their tables are pinned), and
    `log[executed..]` are still to be executed. A step the host gave up on before the device
    reached it is executed all the same (`executed <= k < settled`). Two fields are history
    only: `page`, the logical page each block was last handed out for, and `content`. */
module CacheSystem {
  import opened CacheTypes
  import opened GroupPool
  import opened RefConservation
  import opened RingArithmetic
  import opened CacheDevice

  /** One admission of a request: its prompt's page hashes, the rows that are final once its
      dispatched steps have run, its `num_group_blocks_cached`, and the value that had at
      admission (`lo`). */
  datatype View = View(epoch: nat, hs: seq<Hash>, rows: nat, cached: nat, lo: nat)

  datatype Sys = Sys(
    pool: Pool,
    page: seq<nat>,
    content: seq<Content>,
    log: seq<Step>,
    settled: nat,
    executed: nat,
    bad: set<nat>,              // executed steps whose result will be an error
    lost: set<nat>,             // admissions one of whose steps the host has given up on
    reqs: map<ReqId, View>,
    nextEpoch: nat)
  {
    function C(): nat { pool.spec.capacity }
  }

  datatype Event =
    | Admit(r: ReqId, hs: seq<Hash>, pages: nat)         // prefix lookup with a hit of `pages` pages
    | Extend(r: ReqId, target: nat)                      // ensure_group_blocks
    | Dispatch(r: ReqId, tokens: nat, extra: nat)        // snapshot, retain, send
    | Execute(result: seq<Content>, ok: bool)            // the device runs the next step
    | Confirm                                            // publish from the snapshot, unpin
    | Discard                                            // unpin only: stale, failed or given up
    | PublishLive(r: ReqId, tokens: nat)                 // cache_group_blocks (synchronous mode)
    | Rollback(r: ReqId, rows: nat)                      // rejected speculative positions
    | Retire(r: ReqId)                                   // finish, abort or preempt

  // ---- derived notions ----

  function Pins(log: seq<Step>, i: nat): multiset<nat>
    decreases |log| - i
  {
    if i >= |log| then multiset{} else multiset(log[i].table) + Pins(log, i + 1)
  }

  predicate Mine(st: Step, r: ReqId, v: View) {
    st.r == r && st.epoch == v.epoch
  }

  predicate Alive(s: Sys, st: Step) {
    st.r in s.reqs && s.reqs[st.r].epoch == st.epoch
  }

  /** A step of this admission of `r`, up to log position `upto`, is known to have failed. */
  predicate Poisoned(s: Sys, r: ReqId, epoch: nat, upto: nat) {
    epoch in s.lost ||
    exists j :: s.settled <= j < upto && j < |s.log| && j in s.bad && s.log[j].r == r && s.log[j].epoch == epoch
  }

  /** The pages of a step's table. */
  function StepPage(st: Step, slot: nat): nat
    requires slot < |st.table| <= st.pages
  {
    PageAt(st.pages, |st.table|, slot)
  }

  predicate Chained(hs: seq<Hash>) {
    forall i :: 0 <= i < |hs| ==> Depth(hs[i]) == i + 1
  }

  /** The first page to publish is still in the ring the step was given (or there is none). */
  predicate SnapshotSafe(st: Step, start: nat, completed: nat) {
    start >= completed || start >= st.pages - |st.table|
  }

  /** The slot from which page `i` is published holds another page in the step's table. */
  predicate Misnamed(st: Step, i: nat) {
    0 < |st.table| <= st.pages && StepPage(st, RingSlot(i, |st.table|)) != i
  }

  /** The pages that confirming the oldest step publishes: `ConfirmStart..ConfirmEnd`. */
  function ConfirmEnd(s: Sys): (completed: nat)
    requires s.settled < |s.log| && Alive(s, s.log[s.settled]) && s.C() > 0
    ensures completed <= |s.reqs[s.log[s.settled].r].hs|
  {
    Completed(s.pool.spec, s.reqs[s.log[s.settled].r].hs, s.log[s.settled].tokens)
  }

  function ConfirmStart(s: Sys): nat
    requires s.settled < |s.log| && Alive(s, s.log[s.settled]) && s.C() > 0
  {
    var st := s.log[s.settled];
    SnapshotStart(s.pool.spec, |st.table|, s.reqs[st.r].cached, ConfirmEnd(s))
  }

  /** Every page that confirming the oldest step would publish for the wrong block is already
      in the index, where publication leaves it. */
  ghost predicate Harmless(s: Sys) {
    s.settled < |s.log| && Alive(s, s.log[s.settled]) && s.C() > 0 ==>
      forall i :: ConfirmStart(s) <= i < ConfirmEnd(s) && Misnamed(s.log[s.settled], i) ==>
        s.reqs[s.log[s.settled].r].hs[i] in s.pool.index
  }

  function Values(t: Table): seq<nat>
    requires NoHoles(t)
  {
    seq(|t|, i requires 0 <= i < |t| => t[i].value)
  }

  // ---- transitions ----

  ghost function DoAdmit(s: Sys, r: ReqId, hs: seq<Hash>, pages: nat): Option<Sys> {
    if r in s.reqs || r in s.pool.tables || !s.pool.spec.Valid() || !Chained(hs) || !HitAt(s.pool, hs, pages) then None
    else
      var selected := Selected(s.pool, hs, pages);
      if !InRange(selected, |s.pool.refs|) then None
      else
        var rows := PageStart(s.C(), pages);
        var cached := Completed(s.pool.spec, hs, rows);
        Some(s.(pool := if pages == 0 then s.pool else Attach(s.pool, r, selected, pages),
                reqs := s.reqs[r := View(s.nextEpoch, hs, rows, cached, cached)],
                nextEpoch := s.nextEpoch + 1))
  }

  /** Growth from `p` to `q` leaves slot `i` of `r` as it was: same block, same page. */
  ghost predicate SlotKept(p: Pool, q: Pool, r: ReqId, i: nat)
    requires r in q.tables && r in q.logical && i < |q.tables[r]| <= q.logical[r]
  {
    && r in p.tables && r in p.logical && i < |p.tables[r]| <= p.logical[r]
    && p.tables[r][i] == q.tables[r][i]
    && PageAt(p.logical[r], |p.tables[r]|, i) == PageAt(q.logical[r], |q.tables[r]|, i)
  }

  /** The page history after growth: the blocks handed out are those of the changed slots. */
  ghost function Replaced(page: seq<nat>, p: Pool, q: Pool, r: ReqId): (page': seq<nat>)
    requires r in q.tables && r in q.logical && |q.tables[r]| <= q.logical[r]
    ensures |page'| == |page|
  {
    var t := q.tables[r];
    seq(|page|, b requires 0 <= b < |page| =>
      if exists i: nat :: i < |t| && t[i] == Some(b) && !SlotKept(p, q, r, i) then
        var i: nat :| i < |t| && t[i] == Some(b) && !SlotKept(p, q, r, i);
        PageAt(q.logical[r], |t|, i)
      else page[b])
  }

  ghost function DoExtend(s: Sys, r: ReqId, target: nat): Option<Sys> {
    if r !in s.reqs || !s.pool.spec.Valid() then None
    else if s.pool.spec.window.None? && target > s.pool.spec.maxBlocks then None
    else match Grow(s.pool, r, target)
      case None => None
      case Some(q) =>
        if r !in q.tables || r !in q.logical || |q.tables[r]| > q.logical[r] then None
        else Some(s.(pool := q, page := Replaced(s.page, s.pool, q, r)))
  }

  ghost function DoDispatch(s: Sys, r: ReqId, tokens: nat, extra: nat): Option<Sys> {
    if r !in s.reqs || r !in s.pool.tables || !NoHoles(s.pool.tables[r]) || |s.pool.tables[r]| == 0 then None
    else
      var v := s.reqs[r];
      var ids := Values(s.pool.tables[r]);
      var spec := s.pool.spec;
      var confirmed := FinalRows(spec.eagle, tokens);
      var to := Max(v.rows, FinalRows(spec.eagle, tokens + extra));
      var all := PageStart(s.C(), |v.hs|);
      var pages := s.pool.LogicalOf(r);
      if to > PageStart(s.C(), pages) || !CanRetain(s.pool, ids) then None
      else if !(confirmed >= v.rows || (v.rows >= all && confirmed >= all)) then None
      else
        Some(s.(pool := PinAll(s.pool, ids),
                log := s.log + [Step(r, v.epoch, v.hs, ids, pages, v.rows, to, tokens)],
                reqs := s.reqs[r := v.(rows := to)]))
  }

  ghost function DoExecute(s: Sys, result: seq<Content>, ok: bool): Option<Sys> {
    if s.executed >= |s.log| || |result| != |s.content| then None
    else
      var st := s.log[s.executed];
      if !StepOk(st, s.C(), |s.content|) then None
      else if ok && s.executed >= s.settled && result != Exec(s.content, st, s.C()) then None
      else if exists b :: 0 <= b < |result| && !Writes(st, s.C(), b) && result[b] != s.content[b] then None
      else
        Some(s.(content := result, executed := s.executed + 1,
                bad := if ok then s.bad else s.bad + {s.executed}))
  }

  /** The result of the oldest step arrives. What it publishes may be wrong: see `Harmless`. */
  ghost function DoConfirm(s: Sys): Option<Sys> {
    if s.settled >= s.executed || s.settled >= |s.log| || s.settled in s.bad || !Alive(s, s.log[s.settled])
       || s.log[s.settled].epoch in s.lost || s.C() == 0 then None
    else
      var st := s.log[s.settled];
      var v := s.reqs[st.r];
      match Publish(s.pool, Ids(st.table), v.hs, ConfirmStart(s), ConfirmEnd(s))
        case None => None
        case Some(q) => match UnpinAll(q, st.table)
          case None => None
          case Some(q) =>
            Some(s.(pool := q, settled := s.settled + 1, reqs := s.reqs[st.r := v.(cached := ConfirmEnd(s))]))
  }

  /** The oldest step is dropped: its request is gone, or it failed, or the host will not wait. */
  ghost function DoDiscard(s: Sys): Option<Sys> {
    if s.settled >= |s.log| then None
    else
      var st := s.log[s.settled];
      match UnpinAll(s.pool, st.table)
      case None => None
      case Some(q) =>
        Some(s.(pool := q, settled := s.settled + 1,
                lost := if s.settled < s.executed && s.settled !in s.bad then s.lost else s.lost + {st.epoch}))
  }

  ghost function DoPublishLive(s: Sys, r: ReqId, tokens: nat): Option<Sys> {
    if r !in s.reqs || r !in s.pool.tables || s.executed != |s.log| || s.C() == 0 then None
    else
      var v := s.reqs[r];
      if Poisoned(s, r, v.epoch, |s.log|) then None
      else if !(PageStart(s.C(), v.lo) <= FinalRows(s.pool.spec.eagle, tokens) <= v.rows) then None
      else
        var completed := Completed(s.pool.spec, v.hs, tokens);
        match Publish(s.pool, s.pool.tables[r], v.hs, LiveStart(s.pool, r, v.cached, completed), completed)
        case None => None
        case Some(q) => Some(s.(pool := q, reqs := s.reqs[r := v.(cached := completed)]))
  }

  ghost function DoRollback(s: Sys, r: ReqId, rows: nat): Option<Sys> {
    if r !in s.reqs || !(PageStart(s.C(), |s.reqs[r].hs|) <= rows <= s.reqs[r].rows) then None
    else Some(s.(reqs := s.reqs[r := s.reqs[r].(rows := rows)]))
  }

  ghost function DoRetire(s: Sys, r: ReqId): Option<Sys> {
    if r !in s.reqs then None
    else Some(s.(pool := Release(s.pool, r), reqs := s.reqs - {r}))
  }

  ghost function Apply(s: Sys, e: Event): Option<Sys> {
    match e
    case Admit(r, hs, pages) => DoAdmit(s, r, hs, pages)
    case Extend(r, target) => DoExtend(s, r, target)
    case Dispatch(r, tokens, extra) => DoDispatch(s, r, tokens, extra)
    case Execute(result, ok) => DoExecute(s, result, ok)
    case Confirm => DoConfirm(s)
    case Discard => DoDiscard(s)
    case PublishLive(r, tokens) => DoPublishLive(s, r, tokens)
    case Rollback(r, rows) => DoRollback(s, r, rows)
    case Retire(r) => DoRetire(s, r)
  }

  ghost function Run(s: Sys, events: seq<Event>): Option<Sys>
    decreases |events|
  {
    if events == [] then Some(s)
    else match Apply(s, events[0])
      case None => None
      case Some(u) => Run(u, events[1..])
  }

  ghost predicate Initial(s: Sys) {
    && s.pool.spec.Valid()
    && s.pool == InitialPool(s.pool.spec, |s.page|)
    && |s.content| == |s.page|
    && s.log == [] && s.settled == 0 && s.executed == 0 && s.bad == {} && s.lost == {}
    && s.reqs == map[]
  }

  // ---- the invariant ----

  ghost predicate Shape(s: Sys) {
    && s.C() > 0
    && |s.page| == |s.content| == |s.pool.refs| == |s.pool.hashes|
    && s.settled <= |s.log| && s.executed <= |s.log|
    && LogOk(s.log, s.C(), |s.content|)
    && (forall j :: j in s.bad ==> j < s.executed)
  }

  /** The contents once the device has caught up. */
  ghost function Final(s: Sys): seq<Content>
    requires Shape(s)
  {
    Drain(s.content, s.log, s.executed, s.settled, s.C())
  }

  ghost predicate Sized(s: Sys, r: ReqId) {
    r in s.pool.tables && r in s.pool.logical && |s.pool.tables[r]| <= s.pool.logical[r]
  }

  ghost function SlotPage(s: Sys, r: ReqId, slot: nat): nat
    requires Sized(s, r) && slot < |s.pool.tables[r]|
  {
    PageAt(s.pool.logical[r], |s.pool.tables[r]|, slot)
  }

  ghost predicate ViewsOk(s: Sys) {
    && s.pool.tables.Keys <= s.reqs.Keys
    && (forall r :: r in s.pool.tables ==> Sized(s, r))
    && (forall r :: r in s.reqs ==> ViewOk(s, r, s.reqs[r]))
    && (forall i :: 0 <= i < |s.log| ==> s.log[i].epoch < s.nextEpoch)
  }

  ghost predicate ViewOk(s: Sys, r: ReqId, v: View) {
    && v.epoch < s.nextEpoch
    && Chained(v.hs)
    && v.lo <= |v.hs| && v.lo <= v.cached
    && PageStart(s.C(), v.lo) <= v.rows <= PageStart(s.C(), s.pool.LogicalOf(r))
  }

  /** Every reference to a block is to the one page it was handed out for. */
  ghost predicate Placed(s: Sys)
    requires Shape(s)
  {
    && (forall r, i, b: nat :: Holds(s, r, i, b) ==> s.page[b] == SlotPage(s, r, i))
    && (forall k, i :: s.settled <= k < |s.log| && 0 <= i < |s.log[k].table| ==>
          s.page[s.log[k].table[i]] == StepPage(s.log[k], i))
  }

  /** The property this is all about: an index entry names a block with exactly that page. */
  ghost predicate Indexed(s: Sys)
    requires Shape(s)
  {
    forall h :: h in s.pool.index ==>
      && s.pool.index[h] < |s.content|
      && IsPage(Final(s)[s.pool.index[h]], h, s.C())
      && s.page[s.pool.index[h]] + 1 == Depth(h)
  }

  /** No published block has a write outstanding. */
  ghost predicate Unwritten(s: Sys)
    requires Shape(s)
  {
    forall k, b :: s.executed <= k < |s.log| && 0 <= b < |s.pool.hashes| && Writes(s.log[k], s.C(), b) ==>
      s.pool.hashes[b].None?
  }

  /** Slot `i` of `r` holds block `b`. */
  ghost predicate Holds(s: Sys, r: ReqId, i: int, b: nat)
    requires Shape(s)
  {
    && r in s.pool.tables && r in s.reqs && Sized(s, r)
    && 0 <= i < |s.pool.tables[r]| && s.pool.tables[r][i] == Some(b) && b < |s.content|
  }

  ghost predicate HolesOld(s: Sys) {
    forall r, i ::
      r in s.pool.tables && r in s.reqs && Sized(s, r)
      && 0 <= i < |s.pool.tables[r]| && s.pool.tables[r][i].None?
      ==>
      SlotPage(s, r, i) < s.reqs[r].lo
  }

  ghost predicate PageDone(c: Content, v: View, capacity: nat, page: nat) {
    page < |v.hs| && v.lo <= page ==>
      && (PageStart(capacity, page + 1) <= v.rows ==> IsPage(c, v.hs[page], capacity))
      && (PageStart(capacity, page) < v.rows < PageStart(capacity, page + 1) ==>
            c == Rows(v.hs, page, v.rows - PageStart(capacity, page)))
  }

  /** The pages a request has computed are in its table's blocks. */
  ghost predicate Computed(s: Sys)
    requires Shape(s)
  {
    forall r, i, b: nat :: Holds(s, r, i, b) && !Poisoned(s, r, s.reqs[r].epoch, |s.log|) ==>
      PageDone(Final(s)[b], s.reqs[r], s.C(), SlotPage(s, r, i))
  }

  ghost predicate StepDone(c: Content, st: Step, lo: nat, capacity: nat, page: nat) {
    lo <= page < |st.hs| && PageStart(capacity, page + 1) <= st.to ==> IsPage(c, st.hs[page], capacity)
  }

  ghost predicate StepView(s: Sys, st: Step, v: View)
    requires Shape(s)
  {
    && st.hs == v.hs
    && s.pool.spec.SafeTokens(st.tokens) <= st.to
    && PageStart(s.C(), v.lo) <= s.pool.spec.SafeTokens(st.tokens)
    && (st.to <= v.rows || PageStart(s.C(), |v.hs|) <= v.rows)
  }

  /** The pages a step in flight completes are in its table's blocks. */
  ghost predicate Flights(s: Sys)
    requires Shape(s)
  {
    forall k :: s.settled <= k < |s.log| && Alive(s, s.log[k]) ==>
      && StepView(s, s.log[k], s.reqs[s.log[k].r])
      && (!Poisoned(s, s.log[k].r, s.log[k].epoch, k + 1) ==>
            forall i :: 0 <= i < |s.log[k].table| ==>
              StepDone(Final(s)[s.log[k].table[i]], s.log[k], s.reqs[s.log[k].r].lo, s.C(), StepPage(s.log[k], i)))
  }

  /** A page the request may still write: not a complete prompt page. */
  predicate Open(v: View, capacity: nat, page: nat) {
    page >= |v.hs| || PageStart(capacity, page + 1) > v.rows
  }

  ghost predicate HeldOnlyBy(s: Sys, b: nat, r: ReqId, epoch: nat) {
    && (forall o :: o in s.pool.tables && o != r ==> Some(b) !in s.pool.tables[o])
    && (forall k :: s.settled <= k < |s.log| && b in s.log[k].table ==> s.log[k].r == r && s.log[k].epoch == epoch)
  }

  /** A block that may still be written is unpublished and held by its writer only. */
  ghost predicate Exclusive(s: Sys)
    requires Shape(s)
  {
    forall r, i, b: nat :: Holds(s, r, i, b) && Open(s.reqs[r], s.C(), SlotPage(s, r, i)) ==>
      s.pool.hashes[b].None? && HeldOnlyBy(s, b, r, s.reqs[r].epoch)
  }

  ghost predicate PendingAt(s: Sys, k: int, b: nat, o: ReqId)
    requires Shape(s)
  {
    && s.settled <= k < |s.log| && s.executed <= k && Writes(s.log[k], s.C(), b)
    && o in s.pool.tables && o in s.reqs && Some(b) in s.pool.tables[o]
  }

  /** While a step in flight is pending, only its own request's table holds what it writes. */
  ghost predicate Pending(s: Sys)
    requires Shape(s)
  {
    forall k, b: nat, o :: PendingAt(s, k, b, o) ==> Mine(s.log[k], o, s.reqs[o])
  }

  /** Of two steps in flight, the later only writes into the earlier one's table where that one
      is open; and it shares what a pending earlier one writes only within one request. */
  ghost predicate Ordered(s: Sys)
    requires Shape(s)
  {
    && (forall j, k, b: nat :: WritesInto(s, k, j, b) && j < k ==>
          OrderedAt(s.log[j], s.log[k], s.C(), s.page[b]))
    && (forall j, k, b: nat :: WritesInto(s, j, k, b) && j < k && s.executed <= j ==>
          s.log[j].r == s.log[k].r && s.log[j].epoch == s.log[k].epoch)
  }

  /** Step `k` writes block `b`, which is in the table of step `j`; both are in flight. */
  ghost predicate WritesInto(s: Sys, k: int, j: int, b: nat)
    requires Shape(s)
  {
    && s.settled <= j < |s.log| && s.settled <= k < |s.log| && b < |s.page|
    && b in s.log[j].table && Writes(s.log[k], s.C(), b)
  }

  ghost predicate OrderedAt(st: Step, later: Step, capacity: nat, page: nat) {
    && st.r == later.r && st.epoch == later.epoch
    && (page >= |st.hs| || PageStart(capacity, page + 1) > st.to)
  }

  ghost predicate SysInv(s: Sys) {
    && Shape(s)
    && Inv(s.pool, Pins(s.log, s.settled))
    && ViewsOk(s) && Placed(s) && Indexed(s) && Unwritten(s) && HolesOld(s)
    && Computed(s) && Flights(s) && Exclusive(s) && Pending(s) && Ordered(s)
  }
}
