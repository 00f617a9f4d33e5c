/** What the device does to block contents. The device executes the dispatched steps in order;
    one step writes the rows `from..to` of one request through the table it was given, page by
    page, into slot `page % |table|`. The content of a block is described by the prompt pages
    (their hashes), the page, and the number of leading rows of it that have been written. */
module CacheDevice {
  import opened CacheTypes
  import opened GroupPool
  import opened RingArithmetic

  datatype Content = Junk | Rows(hs: seq<Hash>, page: nat, rows: nat)

  /** One request's part of a dispatched step: the table it was given and what it covers.
      `tokens` is the token count a confirmation of the step stands for. */
  datatype Step = Step(r: ReqId, epoch: nat, hs: seq<Hash>, table: seq<nat>, pages: nat,
                       from: nat, to: nat, tokens: nat)

  /** Block content `c` is exactly the page that hash `h` names, complete. */
  ghost predicate IsPage(c: Content, h: Hash, capacity: nat) {
    c.Rows? && c.page < |c.hs| && c.hs[c.page] == h && c.rows == capacity
  }

  // ---- one step ----

  ghost predicate StepOk(st: Step, capacity: nat, blocks: nat) {
    && capacity > 0
    && 0 < |st.table| <= st.pages
    && st.from <= st.to <= PageStart(capacity, st.pages)
    && (forall i :: 0 <= i < |st.table| ==> st.table[i] < blocks)
    && (forall i, j :: 0 <= i < j < |st.table| ==> st.table[i] != st.table[j])
  }

  /** The rows of `page` the step covers, as offsets into the page. */
  ghost function LowRow(st: Step, capacity: nat, page: nat): nat {
    Max(0, st.from - PageStart(capacity, page))
  }

  ghost function HighRow(st: Step, capacity: nat, page: nat): int {
    Min(capacity, st.to - PageStart(capacity, page))
  }

  ghost predicate Covers(st: Step, capacity: nat, page: nat) {
    PageStart(capacity, page) < st.to && st.from < PageStart(capacity, page + 1) && st.from < st.to
  }

  ghost function WritePage(prior: Content, st: Step, capacity: nat, page: nat): Content
    requires Covers(st, capacity, page)
  {
    if page >= |st.hs| then Junk
    else if LowRow(st, capacity, page) == 0 || prior == Rows(st.hs, page, LowRow(st, capacity, page))
    then Rows(st.hs, page, HighRow(st, capacity, page))
    else Junk
  }

  /** The block the step uses for `page`. */
  ghost function BlockFor(st: Step, page: nat): nat
    requires |st.table| > 0
  {
    st.table[RingSlot(page, |st.table|)]
  }

  /** Executes the pages from `page` on, in order. */
  ghost function ExecFrom(c: seq<Content>, st: Step, capacity: nat, page: nat): (d: seq<Content>)
    requires StepOk(st, capacity, |c|)
    ensures |d| == |c|
    decreases st.pages - page
  {
    if page >= st.pages then c
    else if Covers(st, capacity, page) then
      var b := BlockFor(st, page);
      ExecFrom(c[b := WritePage(c[b], st, capacity, page)], st, capacity, page + 1)
    else ExecFrom(c, st, capacity, page + 1)
  }

  ghost function Exec(c: seq<Content>, st: Step, capacity: nat): (d: seq<Content>)
    requires StepOk(st, capacity, |c|)
    ensures |d| == |c|
  {
    ExecFrom(c, st, capacity, 0)
  }

  ghost predicate Writes(st: Step, capacity: nat, b: nat) {
    && |st.table| > 0
    && exists page :: 0 <= page < st.pages && Covers(st, capacity, page) && BlockFor(st, page) == b
  }

  // ---- effect of one step ----

  lemma {:induction false} ExecFromFrame(c: seq<Content>, st: Step, capacity: nat, page: nat, b: nat)
    requires StepOk(st, capacity, |c|) && b < |c|
    requires forall l :: page <= l < st.pages && Covers(st, capacity, l) ==> BlockFor(st, l) != b
    ensures ExecFrom(c, st, capacity, page)[b] == c[b]
    decreases st.pages - page
  {
    hide Covers, WritePage, RingSlot;
    if page < st.pages {
      if Covers(st, capacity, page) {
        var x := BlockFor(st, page);
        ExecFromFrame(c[x := WritePage(c[x], st, capacity, page)], st, capacity, page + 1, b);
      } else {
        ExecFromFrame(c, st, capacity, page + 1, b);
      }
    }
  }

  lemma ExecFrame(c: seq<Content>, st: Step, capacity: nat, b: nat)
    requires StepOk(st, capacity, |c|) && b < |c| && !Writes(st, capacity, b)
    ensures Exec(c, st, capacity)[b] == c[b]
  {
    hide Covers, BlockFor;
    assert forall l :: 0 <= l < st.pages && Covers(st, capacity, l) ==> BlockFor(st, l) != b;
    ExecFromFrame(c, st, capacity, 0, b);
  }

  /** Different pages of the newest `|table|` use different blocks. */
  lemma BlocksAreDistinct(st: Step, capacity: nat, blocks: nat, a: nat, b: nat)
    requires StepOk(st, capacity, blocks)
    requires st.pages - |st.table| <= a < st.pages && st.pages - |st.table| <= b < st.pages
    requires BlockFor(st, a) == BlockFor(st, b)
    ensures a == b
  {
    var i, j := RingSlot(a, |st.table|), RingSlot(b, |st.table|);
    assert st.table[i] == st.table[j];
    SlotsAreDistinct(st.pages, |st.table|, a, b);
  }

  lemma PageStartMono(capacity: nat, a: nat, b: nat)
    requires a <= b
    ensures PageStart(capacity, a) <= PageStart(capacity, b)
  {
    if a < b { PageStartMono(capacity, a, b - 1); }
  }

  lemma {:induction false} PageStartStrict(capacity: nat, a: nat, b: nat)
    requires capacity > 0
    ensures a < b <==> PageStart(capacity, a) < PageStart(capacity, b)
  {
    if a < b {
      PageStartMono(capacity, a, b - 1);
    } else {
      PageStartMono(capacity, b, a);
    }
  }

  lemma PagesIn(capacity: nat, tokens: nat, pages: nat)
    requires capacity > 0
    ensures pages <= tokens / capacity <==> PageStart(capacity, pages) <= tokens
  {
    PageStartIsProduct(capacity, pages);
    WholePages(tokens, capacity, pages);
  }

  /** No covered page lies before the page in which a mid-page step starts. */
  lemma MidPageIsFirst(st: Step, capacity: nat, page: nat, l: nat)
    requires LowRow(st, capacity, page) > 0 && l < page
    ensures !Covers(st, capacity, l)
  {
    PageStartMono(capacity, l + 1, page);
  }

  lemma {:induction false} ExecFromWrites(c: seq<Content>, st: Step, capacity: nat, at: nat, page: nat)
    requires StepOk(st, capacity, |c|) && at <= page < st.pages && st.pages - |st.table| <= page
    requires Covers(st, capacity, page)
    ensures BlockFor(st, page) < |c|
    ensures ExecFrom(c, st, capacity, at)[BlockFor(st, page)] == WritePage(c[BlockFor(st, page)], st, capacity, page)
    decreases page - at
  {
    hide Covers, RingSlot, BlockFor, WritePage;
    BlockInRange(st, capacity, |c|, page);
    var b := BlockFor(st, page);
    if at == page {
      var d := c[b := WritePage(c[b], st, capacity, page)];
      forall l | page + 1 <= l < st.pages && Covers(st, capacity, l)
        ensures BlockFor(st, l) != b
      {
        if BlockFor(st, l) == b { BlocksAreDistinct(st, capacity, |c|, page, l); }
      }
      ExecFromFrame(d, st, capacity, page + 1, b);
    } else if Covers(st, capacity, at) {
      BlockInRange(st, capacity, |c|, at);
      var x := BlockFor(st, at);
      var d := c[x := WritePage(c[x], st, capacity, at)];
      ExecFromWrites(d, st, capacity, at + 1, page);
      FreshWriteIgnoresOld(c[b], d[b], st, capacity, page, at);
    } else {
      ExecFromWrites(c, st, capacity, at + 1, page);
    }
  }

  lemma BlockInRange(st: Step, capacity: nat, blocks: nat, page: nat)
    requires StepOk(st, capacity, blocks)
    ensures |st.table| > 0 && BlockFor(st, page) < blocks
  {
  }

  lemma FreshWriteIgnoresOld(prior: Content, other: Content, st: Step, capacity: nat, page: nat, earlier: nat)
    requires Covers(st, capacity, page) && earlier < page && Covers(st, capacity, earlier)
    ensures WritePage(prior, st, capacity, page) == WritePage(other, st, capacity, page)
  {
    if LowRow(st, capacity, page) > 0 { MidPageIsFirst(st, capacity, page, earlier); }
  }

  /** After the step, every covered page still in the ring has been written on top of what its
      block held before. */
  lemma ExecWrites(c: seq<Content>, st: Step, capacity: nat, page: nat)
    requires StepOk(st, capacity, |c|) && st.pages - |st.table| <= page < st.pages
    requires Covers(st, capacity, page)
    ensures BlockFor(st, page) < |c|
    ensures Exec(c, st, capacity)[BlockFor(st, page)] == WritePage(c[BlockFor(st, page)], st, capacity, page)
  {
    ExecFromWrites(c, st, capacity, 0, page);
  }

  // ---- unknown content ----

  /** `d` is at least as defined as `c`. */
  ghost predicate Refines(c: Content, d: Content) {
    c == Junk || c == d
  }

  lemma {:induction false} ExecFromMono(c: seq<Content>, d: seq<Content>, st: Step, capacity: nat, page: nat, b: nat)
    requires |c| == |d| && StepOk(st, capacity, |c|) && b < |c| && Refines(c[b], d[b])
    ensures Refines(ExecFrom(c, st, capacity, page)[b], ExecFrom(d, st, capacity, page)[b])
    decreases st.pages - page
  {
    hide Covers, RingSlot;
    if page < st.pages {
      if Covers(st, capacity, page) {
        var x := BlockFor(st, page);
        ExecFromMono(c[x := WritePage(c[x], st, capacity, page)], d[x := WritePage(d[x], st, capacity, page)],
                     st, capacity, page + 1, b);
      } else {
        ExecFromMono(c, d, st, capacity, page + 1, b);
      }
    }
  }

  // ---- the queue of dispatched steps ----

  ghost predicate LogOk(log: seq<Step>, capacity: nat, blocks: nat) {
    forall i :: 0 <= i < |log| ==> StepOk(log[i], capacity, blocks)
  }

  /** A step whose outcome the host gave up on may leave anything in the blocks it writes. */
  ghost function Scribble(c: seq<Content>, st: Step, capacity: nat): (d: seq<Content>)
    ensures |d| == |c|
  {
    seq(|c|, b requires 0 <= b < |c| => if Writes(st, capacity, b) then Junk else c[b])
  }

  /** The contents once the steps from `i` on have been executed; those before `dead` were
      given up on by the host. */
  ghost function Drain(c: seq<Content>, log: seq<Step>, i: nat, dead: nat, capacity: nat): (d: seq<Content>)
    requires LogOk(log, capacity, |c|)
    ensures |d| == |c|
    decreases |log| - i
  {
    if i >= |log| then c
    else
      Drain(if i < dead then Scribble(c, log[i], capacity) else Exec(c, log[i], capacity), log, i + 1, dead, capacity)
  }

  lemma {:induction false} DrainAppend(c: seq<Content>, log: seq<Step>, st: Step, i: nat, dead: nat, capacity: nat)
    requires LogOk(log, capacity, |c|) && StepOk(st, capacity, |c|) && i <= |log| && dead <= |log|
    ensures LogOk(log + [st], capacity, |c|)
    ensures Drain(c, log + [st], i, dead, capacity) == Exec(Drain(c, log, i, dead, capacity), st, capacity)
    decreases |log| - i
  {
    hide Exec, StepOk, Scribble, Writes;
    if i < |log| {
      assert (log + [st])[i] == log[i];
      DrainAppend(if i < dead then Scribble(c, log[i], capacity) else Exec(c, log[i], capacity),
                  log, st, i + 1, dead, capacity);
    }
  }

  /** A block no pending step writes already has its final content. */
  lemma {:induction false} DrainFrame(c: seq<Content>, log: seq<Step>, i: nat, dead: nat, capacity: nat, b: nat)
    requires LogOk(log, capacity, |c|) && b < |c|
    requires forall k :: i <= k < |log| ==> !Writes(log[k], capacity, b)
    ensures Drain(c, log, i, dead, capacity)[b] == c[b]
    decreases |log| - i
  {
    hide Exec, StepOk, Writes;
    if i < |log| {
      if i < dead {
        DrainFrame(Scribble(c, log[i], capacity), log, i + 1, dead, capacity, b);
      } else {
        ExecFrame(c, log[i], capacity, b);
        DrainFrame(Exec(c, log[i], capacity), log, i + 1, dead, capacity, b);
      }
    }
  }

  /** Knowing more about a block now means knowing at least as much at the end. */
  lemma {:induction false} DrainMono(c: seq<Content>, d: seq<Content>, log: seq<Step>, i: nat, dead: nat,
      capacity: nat, b: nat)
    requires |c| == |d| && LogOk(log, capacity, |c|) && b < |c| && Refines(c[b], d[b])
    ensures Refines(Drain(c, log, i, dead, capacity)[b], Drain(d, log, i, dead, capacity)[b])
    decreases |log| - i
  {
    hide Exec, StepOk, Writes;
    if i < |log| {
      if i < dead {
        DrainMono(Scribble(c, log[i], capacity), Scribble(d, log[i], capacity), log, i + 1, dead, capacity, b);
      } else {
        ExecMono(c, d, log[i], capacity, b);
        DrainMono(Exec(c, log[i], capacity), Exec(d, log[i], capacity), log, i + 1, dead, capacity, b);
      }
    }
  }

  lemma ExecMono(c: seq<Content>, d: seq<Content>, st: Step, capacity: nat, b: nat)
    requires |c| == |d| && StepOk(st, capacity, |c|) && b < |c| && Refines(c[b], d[b])
    ensures Refines(Exec(c, st, capacity)[b], Exec(d, st, capacity)[b])
  {
    ExecFromMono(c, d, st, capacity, 0, b);
  }

  /** Giving up on the step `dead` changes nothing outside the blocks it writes. */
  lemma {:induction false} DrainGiveUp(c: seq<Content>, log: seq<Step>, i: nat, dead: nat, capacity: nat, b: nat)
    requires LogOk(log, capacity, |c|) && b < |c| && dead < |log|
    requires !Writes(log[dead], capacity, b)
    ensures Drain(c, log, i, dead + 1, capacity)[b] == Drain(c, log, i, dead, capacity)[b]
    decreases |log| - i
  {
    hide Exec, StepOk, Writes;
    if i == dead {
      ExecFrame(c, log[i], capacity, b);
      var x, y := Scribble(c, log[i], capacity), Exec(c, log[i], capacity);
      DrainLater(x, log, i + 1, dead, capacity);
      DrainEqual(x, y, log, i + 1, dead, capacity, b);
    } else if i < |log| {
      var x := if i < dead then Scribble(c, log[i], capacity) else Exec(c, log[i], capacity);
      DrainGiveUp(x, log, i + 1, dead, capacity, b);
    }
  }

  lemma {:induction false} DrainLater(c: seq<Content>, log: seq<Step>, i: nat, dead: nat, capacity: nat)
    requires LogOk(log, capacity, |c|) && dead < i
    ensures Drain(c, log, i, dead + 1, capacity) == Drain(c, log, i, dead, capacity)
    decreases |log| - i
  {
    hide Exec, StepOk, Scribble, Writes;
    if i < |log| { DrainLater(Exec(c, log[i], capacity), log, i + 1, dead, capacity); }
  }

  lemma DrainEqual(c: seq<Content>, d: seq<Content>, log: seq<Step>, i: nat, dead: nat, capacity: nat, b: nat)
    requires |c| == |d| && LogOk(log, capacity, |c|) && b < |c| && c[b] == d[b]
    ensures Drain(c, log, i, dead, capacity)[b] == Drain(d, log, i, dead, capacity)[b]
  {
    DrainMono(c, d, log, i, dead, capacity, b);
    DrainMono(d, c, log, i, dead, capacity, b);
  }
}
