/** The specification of one grouped block pool (`_GroupBlockPool` and the `KvCacheManager`
    methods that work on it), for one rank partition.

    Partitions never share blocks, free queues, hash entries or request tables, so a pool is
    the product of its partitions; the global block id `partition * blocks_per_partition + id`
    is the pair (partition, local id), and everything here is one partition with local ids. */
module GroupPool {
  import opened CacheTypes

  /** `request_blocks[r]`: `None` marks a ring slot that prefix lookup left empty. */
  type Table = seq<Option<nat>>

  datatype Pool = Pool(
    spec: GroupSpec,
    refs: seq<nat>,               // ref_cnt of each block
    hashes: seq<Option<Hash>>,    // block_hash of each block
    free: seq<nat>,               // free queue, next victim first
    tables: map<ReqId, Table>,    // request_blocks
    logical: map<ReqId, nat>,     // request_logical_blocks
    index: map<Hash, nat>)        // hash_to_block
  {
    function TableOf(r: ReqId): Table {
      if r in tables then tables[r] else []
    }

    function LogicalOf(r: ReqId): nat {
      if r in logical then logical[r] else 0
    }
  }

  /** `init_groups` for one partition: every block is free and unpublished. */
  function InitialPool(spec: GroupSpec, n: nat): Pool {
    Pool(spec, seq(n, _ => 0), seq(n, _ => None), seq(n, i => i), map[], map[], map[])
  }

  /** The requests whose table holds block `b`. */
  function Owners(tables: map<ReqId, Table>, b: nat): set<ReqId> {
    set r | r in tables && Some(b) in tables[r]
  }

  // ---- taking a block from the free queue ----

  /** `_invalidate_group_block`. */
  function Invalidate(p: Pool, b: nat): (q: Pool)
    requires b < |p.hashes|
    ensures |q.hashes| == |p.hashes|
  {
    if p.hashes[b].None? then p
    else
      var h := p.hashes[b].value;
      p.(index := if h in p.index && p.index[h] == b then p.index - {h} else p.index,
         hashes := p.hashes[b := None])
  }

  /** `_take_group_block`; `None` stands for the `RuntimeError`s of an inconsistent queue. */
  function Take(p: Pool): Option<(Pool, nat)> {
    if |p.free| == 0 then None
    else
      var b := p.free[0];
      if b >= |p.refs| || b >= |p.hashes| || p.refs[b] != 0 then None
      else
        var q := Invalidate(p.(free := p.free[1..]), b);
        Some((q.(refs := q.refs[b := 1]), b))
  }

  /** Takes a block into slot `slot` of the table of `r`. */
  function Put(p: Pool, r: ReqId, slot: nat): (q: Option<Pool>)
    requires r in p.tables && slot < |p.tables[r]|
    ensures q.Some? ==>
      && q.value.spec == p.spec && q.value.logical == p.logical && |q.value.refs| == |p.refs|
      && r in q.value.tables && |q.value.tables[r]| == |p.tables[r]|
  {
    match Take(p)
    case None => None
    case Some((q, b)) => Some(q.(tables := q.tables[r := q.tables[r][slot := Some(b)]]))
  }

  /** One reference less; the last one returns the block to the tail of the free queue. */
  function DropRef(p: Pool, b: nat): Pool
    requires b < |p.refs|
  {
    if p.refs[b] > 1 then p.(refs := p.refs[b := p.refs[b] - 1])
    else p.(refs := p.refs[b := 0], free := p.free + [b])
  }

  /** Takes a block into slot `slot` of `r`, in place of the one there. */
  function Replace(p: Pool, r: ReqId, slot: nat): Option<Pool>
    requires r in p.tables && slot < |p.tables[r]| && p.tables[r][slot].Some? && p.tables[r][slot].value < |p.refs|
  {
    match Take(DropRef(p, p.tables[r][slot].value))
    case None => None
    case Some((q, b)) => Some(q.(tables := q.tables[r := q.tables[r][slot := Some(b)]]))
  }

  /** Gives up the reference that slot `slot` of `r` holds: the last reference returns the
      block to the tail of the free queue. */
  function Drop(p: Pool, r: ReqId, slot: nat): (q: Pool)
    requires r in p.tables && slot < |p.tables[r]|
    ensures q.spec == p.spec && q.logical == p.logical && |q.refs| == |p.refs|
    ensures r in q.tables && |q.tables[r]| == |p.tables[r]|
  {
    match p.tables[r][slot]
    case None => p
    case Some(b) =>
      if b >= |p.refs| then p
      else
        DropRef(p, b).(tables := p.tables[r := p.tables[r][slot := None]])
  }

  // ---- growing a request ----

  /** Materialises the empty slots below `size`. */
  function FillHoles(p: Pool, r: ReqId, slot: nat, size: nat): (q: Option<Pool>)
    requires r in p.tables && size <= |p.tables[r]|
    ensures q.Some? ==>
      && q.value.spec == p.spec && q.value.logical == p.logical && |q.value.refs| == |p.refs|
      && r in q.value.tables && |q.value.tables[r]| == |p.tables[r]|
    decreases size - slot
  {
    if slot >= size then Some(p)
    else if p.tables[r][slot].Some? then FillHoles(p, r, slot + 1, size)
    else match Put(p, r, slot)
      case None => None
      case Some(q) => FillHoles(q, r, slot + 1, size)
  }

  /** The ring slot of a logical page. */
  function RingSlot(page: nat, maxBlocks: nat): (slot: nat)
    requires maxBlocks > 0
    ensures slot < maxBlocks
    ensures page < maxBlocks ==> slot == page
  {
    page % maxBlocks
  }

  /** Gives `r` its next logical page: a new table slot while the table grows, and afterwards
      the ring slot of the oldest page, which is detached (shared block) or rotated through
      the free queue (sole owner). */
  function AddPage(p: Pool, r: ReqId): (q: Option<Pool>)
    requires p.spec.Valid() && r in p.tables && r in p.logical
    ensures q.Some? ==>
      && q.value.spec == p.spec && r in q.value.tables
      && q.value.logical == p.logical[r := p.logical[r] + 1]
  {
    var page := p.logical[r];
    var q :=
      if p.spec.window.None? || page < p.spec.maxBlocks then
        Put(p.(tables := p.tables[r := p.tables[r] + [None]]), r, |p.tables[r]|)
      else
        var slot := RingSlot(page, p.spec.maxBlocks);
        if slot >= |p.tables[r]| || p.tables[r][slot].None? || p.tables[r][slot].value >= |p.refs| then None
        else Put(Drop(p, r, slot), r, slot);
    match q
    case None => None
    case Some(q) => Some(q.(logical := q.logical[r := page + 1]))
  }

  function AddPages(p: Pool, r: ReqId, target: nat): Option<Pool>
    requires p.spec.Valid() && r in p.tables && r in p.logical
    decreases target - p.logical[r]
  {
    if p.logical[r] >= target then Some(p)
    else match AddPage(p, r)
      case None => None
      case Some(q) => AddPages(q, r, target)
  }

  function Opened(p: Pool, r: ReqId): Pool {
    p.(tables := p.tables[r := p.TableOf(r)], logical := p.logical[r := p.LogicalOf(r)])
  }

  /** The part of `ensure_group_blocks` that works on one pool, page by page. */
  function Grow(p: Pool, r: ReqId, target: nat): Option<Pool>
    requires p.spec.Valid()
  {
    var q := Opened(p, r);
    match FillHoles(q, r, 0, Min(p.spec.TableSize(target), |q.tables[r]|))
    case None => None
    case Some(q) => AddPages(q, r, target)
  }

  // ---- demand of a growth step ----

  function Holes(t: Table): nat {
    if t == [] then 0 else (if t[0].None? then 1 else 0) + Holes(t[1..])
  }

  /** The ring slots of the pages `lo..hi` whose block somebody else also refers to. */
  function SharedSlots(p: Pool, t: Table, lo: nat, hi: nat): set<nat>
    requires p.spec.Valid()
    decreases hi - lo
  {
    if lo >= hi then {}
    else
      var slot := RingSlot(lo, p.spec.maxBlocks);
      (if IsSharedSlot(p, t, slot) then {slot} else {}) + SharedSlots(p, t, lo + 1, hi)
  }

  predicate IsSharedSlot(p: Pool, t: Table, slot: nat) {
    slot < |t| && t[slot].Some? && t[slot].value < |p.refs| && p.refs[t[slot].value] > 1
  }

  /** `_additional_group_blocks`. */
  function Additional(p: Pool, r: ReqId, target: nat): nat
    requires p.spec.Valid()
  {
    var t := p.TableOf(r);
    if p.spec.window.None? then
      if target > p.spec.maxBlocks then |p.refs| + 1 else Max(0, target - |t|)
    else
      var size := p.spec.TableSize(target);
      Max(0, size - |t|) + Holes(t[..Min(size, |t|)])
      + |SharedSlots(p, t, p.LogicalOf(r), target)|
  }

  // ---- references held by steps in flight, and release ----

  function Pin(p: Pool, b: nat): Pool
    requires b < |p.refs|
  {
    p.(refs := p.refs[b := p.refs[b] + 1])
  }

  function Unpin(p: Pool, b: nat): Pool
    requires b < |p.refs| && p.refs[b] > 0
  {
    p.(refs := p.refs[b := p.refs[b] - 1],
       free := if p.refs[b] == 1 then p.free + [b] else p.free)
  }

  /** `retain_group_block_snapshot` after its checks. */
  function PinAll(p: Pool, ids: seq<nat>): Pool
    requires forall i :: 0 <= i < |ids| ==> ids[i] < |p.refs|
    decreases |ids|
  {
    if ids == [] then p else PinAll(Pin(p, ids[0]), ids[1..])
  }

  /** The checks of `retain_group_block_snapshot`. */
  predicate CanRetain(p: Pool, ids: seq<nat>) {
    && (forall i, j :: 0 <= i < j < |ids| ==> ids[i] != ids[j])
    && (forall i :: 0 <= i < |ids| ==> ids[i] < |p.refs| && p.refs[ids[i]] > 0)
  }

  /** `release_group_block_snapshot`. */
  function UnpinAll(p: Pool, ids: seq<nat>): Option<Pool>
    decreases |ids|
  {
    if ids == [] then Some(p)
    else if ids[0] >= |p.refs| || p.refs[ids[0]] == 0 then None
    else UnpinAll(Unpin(p, ids[0]), ids[1..])
  }

  /** Gives up every slot of `r` from `slot` on, in table order. */
  function DropFrom(p: Pool, r: ReqId, slot: nat): Pool
    requires r in p.tables && slot <= |p.tables[r]|
    decreases |p.tables[r]| - slot
  {
    if slot == |p.tables[r]| then p else DropFrom(Drop(p, r, slot), r, slot + 1)
  }

  /** The part of `release_all_group_requests` that works on one pool. */
  function Release(p: Pool, r: ReqId): Pool {
    if r !in p.tables then p
    else
      var q := DropFrom(p, r, 0);
      q.(tables := q.tables - {r}, logical := q.logical - {r})
  }

  // ---- the prefix cache ----

  /** Attaches block `b` to the empty slot `slot` of `r`. */
  function Share(p: Pool, r: ReqId, slot: nat, b: nat): Pool
    requires r in p.tables && slot < |p.tables[r]| && b < |p.refs|
  {
    p.(refs := p.refs[b := p.refs[b] + 1],
       free := if p.refs[b] == 0 then Without(p.free, b) else p.free,
       tables := p.tables[r := p.tables[r][slot := Some(b)]])
  }

  /** `FreeKVCacheBlockQueue.remove` on the queue's contents. */
  function Without(s: seq<nat>, b: nat): seq<nat> {
    if s == [] then []
    else if s[0] == b then s[1..]
    else [s[0]] + Without(s[1..], b)
  }

  function ShareFrom(p: Pool, r: ReqId, selected: Table, slot: nat): Pool
    requires r in p.tables && slot <= |selected| == |p.tables[r]|
    requires forall s :: 0 <= s < |selected| && selected[s].Some? ==> selected[s].value < |p.refs|
    decreases |selected| - slot
  {
    if slot == |selected| then p
    else
      var q := if selected[slot].Some? then Share(p, r, slot, selected[slot].value) else p;
      ShareFrom(q, r, selected, slot + 1)
  }

  function Blank(n: nat): Table {
    seq(n, _ => None)
  }

  /** The part of `acquire_group_prefix_blocks` that attaches one group's selected blocks. */
  function Attach(p: Pool, r: ReqId, selected: Table, pages: nat): Pool
    requires forall s :: 0 <= s < |selected| && selected[s].Some? ==> selected[s].value < |p.refs|
  {
    ShareFrom(p.(tables := p.tables[r := Blank(|selected|)], logical := p.logical[r := pages]), r, selected, 0)
  }

  /** `_cache_group_block`. */
  function CacheBlock(p: Pool, b: nat, h: Hash): Pool
    requires b < |p.hashes|
  {
    if h in p.index && p.index[h] == b then p
    else if h in p.index then Invalidate(p, b)
    else
      var q := Invalidate(p, b);
      q.(hashes := q.hashes[b := Some(h)], index := q.index[h := b])
  }

  // ---- prefix lookup and publication ----

  /** Whether the cache holds what a request with page hashes `hs` needs to resume after
      `pages` pages: every page of a full-history group, the tail of a rolling one. */
  predicate HitAt(p: Pool, hs: seq<Hash>, pages: nat) {
    && pages <= |hs|
    && (p.spec.window.None? ==> pages <= p.spec.maxBlocks)
    && forall i :: 0 <= i < pages && NeededPage(p.spec, pages, i) ==> hs[i] in p.index
  }

  function SelectFrom(p: Pool, hs: seq<Hash>, i: nat, pages: nat, acc: Table): (t: Table)
    requires i <= pages <= |hs| && (i < pages ==> |acc| > 0)
    requires forall k :: i <= k < pages ==> hs[k] in p.index
    ensures |t| == |acc|
    decreases pages - i
  {
    if i == pages then acc
    else SelectFrom(p, hs, i + 1, pages, acc[RingSlot(i, |acc|) := Some(p.index[hs[i]])])
  }

  lemma HitFits(p: Pool, hs: seq<Hash>, pages: nat)
    requires HitAt(p, hs, pages)
    ensures pages <= |hs| && (p.spec.window.None? ==> pages <= p.spec.maxBlocks)
  {
  }

  lemma TailHit(p: Pool, hs: seq<Hash>, pages: nat)
    requires HitAt(p, hs, pages)
    ensures pages <= |hs| && forall k :: pages - p.spec.TailPages(pages) <= k < pages ==> hs[k] in p.index
  {
    forall k | pages - p.spec.TailPages(pages) <= k < pages
      ensures hs[k] in p.index
    {
      TailExact(p.spec, pages, k);
    }
  }

  /** The table that `acquire_group_prefix_blocks` selects for a hit of `pages` pages. */
  function Selected(p: Pool, hs: seq<Hash>, pages: nat): Table
    requires p.spec.Valid() && HitAt(p, hs, pages)
  {
    TailHit(p, hs, pages);
    SelectFrom(p, hs, pages - p.spec.TailPages(pages), pages, Blank(p.spec.TableSize(pages)))
  }

  /** The pages that `tokens` computed tokens complete, as far as the prompt has hashes. */
  function Completed(spec: GroupSpec, hs: seq<Hash>, tokens: nat): (pages: nat)
    requires spec.capacity > 0
    ensures pages <= |hs|
  {
    Min(spec.SafeTokens(tokens) / spec.capacity, |hs|)
  }

  /** `done` is the largest number of pages that have hashes, and whose rows are all final once
      `tokens` tokens are known: those of a shifted group wait for one token more. */
  ghost predicate CountsCompleted(spec: GroupSpec, hs: seq<Hash>, tokens: nat, done: nat) {
    forall n: nat :: n <= done <==> n <= |hs| && (n == 0 || n * spec.capacity + (if spec.eagle then 1 else 0) <= tokens)
  }

  lemma CompletedExactly(spec: GroupSpec, hs: seq<Hash>, tokens: nat)
    requires spec.capacity > 0
    ensures CountsCompleted(spec, hs, tokens, Completed(spec, hs, tokens))
  {
    forall n: nat
      ensures n <= Completed(spec, hs, tokens) <==>
        n <= |hs| && (n == 0 || n * spec.capacity + (if spec.eagle then 1 else 0) <= tokens)
    {
      WholePages(spec.SafeTokens(tokens), spec.capacity, n);
      if n > 0 { Times(1, n, spec.capacity); }
    }
  }

  /** Where `cache_group_blocks` starts: the ring no longer holds the pages before. */
  function LiveStart(p: Pool, r: ReqId, cached: nat, completed: nat): nat {
    var start := Min(cached, completed);
    if p.spec.window.None? then start else Max(start, p.LogicalOf(r) - |p.TableOf(r)|)
  }

  /** Where `cache_group_blocks_from_snapshot` starts. */
  function SnapshotStart(spec: GroupSpec, size: nat, cached: nat, completed: nat): nat {
    var start := Min(cached, completed);
    if spec.window.None? then start else Max(start, completed - size)
  }

  /** The pages that `cache_group_blocks` publishes: those completed since the last time, as far
      as the ring still holds them. */
  lemma LiveStartExact(p: Pool, r: ReqId, cached: nat, completed: nat, i: nat)
    requires i < completed
    ensures LiveStart(p, r, cached, completed) <= i <==>
      cached <= i && (p.spec.window.Some? ==> p.LogicalOf(r) <= i + |p.TableOf(r)|)
  {
  }

  /** The pages that `cache_group_blocks_from_snapshot` publishes: the newest that the step's
      table could hold if it ended with the last completed page. */
  lemma SnapshotStartExact(spec: GroupSpec, size: nat, cached: nat, completed: nat, i: nat)
    requires i < completed
    ensures SnapshotStart(spec, size, cached, completed) <= i <==>
      cached <= i && (spec.window.Some? ==> completed <= i + size)
  {
  }

  function TableSlot(spec: GroupSpec, page: nat, size: nat): nat
    requires size > 0
  {
    if spec.window.None? then page else RingSlot(page, size)
  }

  /** The publication loop over one table; `None` stands for its `RuntimeError`s. */
  function Publish(p: Pool, t: Table, hs: seq<Hash>, i: nat, completed: nat): Option<Pool>
    requires completed <= |hs|
    decreases completed - i
  {
    if i >= completed then Some(p)
    else if |t| == 0 then None
    else
      var slot := TableSlot(p.spec, i, |t|);
      if slot >= |t| || t[slot].None? || t[slot].value >= |p.hashes| then None
      else Publish(CacheBlock(p, t[slot].value, hs[i]), t, hs, i + 1, completed)
  }

  function Ids(ids: seq<nat>): Table {
    seq(|ids|, i requires 0 <= i < |ids| => Some(ids[i]))
  }
}
