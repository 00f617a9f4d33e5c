/** The sliding window of the draft head during chunked prefill
    (`_capture_mtp_prefill_context`): which shifted rows, each pairing the main model's hidden
    state at one position with the token at the next, are run after each chunk. */
module MtpWindow {
  import opened CacheTypes

  /** A prefill chunk: its first position and the cache slot of each of its positions. */
  datatype Chunk = Chunk(rank: nat, first: nat, slots: seq<int>)

  /** `_DeepSeekV4MtpPrefillContext`: the last position, whose next token is not yet known. */
  datatype Context = Context(rank: nat, position: nat, slot: int)

  /** One row of a draft-head segment. Hidden states and tokens stand for their positions. */
  datatype ShiftedRow = ShiftedRow(hidden: nat, token: nat, position: nat, slot: int)

  datatype Captured = Captured(context: Option<Context>, segments: seq<seq<ShiftedRow>>)

  /** The rows that one chunk runs: at most the last `limit` positions of the chunk, and the
      position pending from the chunk before when this chunk is short. */
  function Segment(limit: nat, pending: Option<Context>, c: Chunk): seq<ShiftedRow>
    requires limit >= 1 && c.slots != []
  {
    var start := |c.slots| - Min(|c.slots|, limit);
    (if pending.Some? && |c.slots| < limit
     then [ShiftedRow(pending.value.position, c.first, pending.value.position, pending.value.slot)] else [])
    + seq(|c.slots| - 1 - start, k requires 0 <= k < |c.slots| - 1 - start =>
        ShiftedRow(c.first + start + k, c.first + start + k + 1, c.first + start + k, c.slots[start + k]))
  }

  /** The chunk continues the request; otherwise the code raises. */
  predicate Accepts(pending: Option<Context>, c: Chunk) {
    && c.slots != []
    && (pending.Some? ==> pending.value.rank == c.rank && c.first == pending.value.position + 1)
  }

  function Last(c: Chunk): nat
    requires c.slots != []
  {
    c.first + |c.slots| - 1
  }

  function Capture(limit: nat, s: Captured, c: Chunk): Captured
    requires limit >= 1 && Accepts(s.context, c)
  {
    var rows := Segment(limit, s.context, c);
    Captured(Some(Context(c.rank, Last(c), c.slots[|c.slots| - 1])),
      if rows == [] then s.segments else s.segments + [rows])
  }

  /** A whole prefill; `None` when a chunk is refused. */
  function Prefill(limit: nat, chunks: seq<Chunk>): Option<Captured>
    requires limit >= 1
  {
    if chunks == [] then Some(Captured(None, []))
    else
      var s := Prefill(limit, chunks[..|chunks| - 1]);
      if s.None? || !Accepts(s.value.context, chunks[|chunks| - 1]) then None
      else Some(Capture(limit, s.value, chunks[|chunks| - 1]))
  }

  function Rows(segments: seq<seq<ShiftedRow>>): seq<ShiftedRow> {
    if segments == [] then [] else Rows(segments[..|segments| - 1]) + segments[|segments| - 1]
  }

  /** The slot of a position, in the chunk that holds it. */
  function SlotAt(chunks: seq<Chunk>, p: nat): int {
    if chunks == [] then -1
    else
      var c := chunks[|chunks| - 1];
      if c.first <= p < c.first + |c.slots| then c.slots[p - c.first] else SlotAt(chunks[..|chunks| - 1], p)
  }

  /** The row for position `p`: its hidden state, the next token, and its own slot. */
  function RowOf(chunks: seq<Chunk>, p: nat): ShiftedRow {
    ShiftedRow(p, p + 1, p, SlotAt(chunks, p))
  }

  /** In an accepted prefill, the row for the `k`-th position of chunk `i` has the next position's
      token and the slot that the chunk gives for the position itself. */
  lemma {:induction false} RowExact(limit: nat, chunks: seq<Chunk>, i: nat, k: nat)
    requires limit >= 1 && Prefill(limit, chunks).Some? && i < |chunks| && k < |chunks[i].slots|
    ensures
      var p := chunks[i].first + k;
      RowOf(chunks, p) == ShiftedRow(p, p + 1, p, chunks[i].slots[k])
  {
    hide Segment;
    var init := chunks[..|chunks| - 1];
    PrefillStep(limit, chunks);
    if i < |init| {
      RowExact(limit, init, i, k);
      PrefillIsContiguous(limit, init);
      PrefillStep(limit, init);
      assert init[i] == chunks[i];
      EarlierRows(chunks, chunks[i].first + k);
    }
  }

  /** Everything before the first chunk's start, or from the position after its end on, has no
      slot yet. */
  ghost predicate Contiguous(chunks: seq<Chunk>, from: nat, to: nat) {
    && chunks != [] && chunks[0].first == from
    && (forall i :: 0 <= i < |chunks| ==> chunks[i].slots != [] && from <= chunks[i].first && Last(chunks[i]) <= to)
    && Last(chunks[|chunks| - 1]) == to
  }

  lemma PrefillStep(limit: nat, chunks: seq<Chunk>)
    requires limit >= 1 && chunks != [] && Prefill(limit, chunks).Some?
    ensures
      var init, c := chunks[..|chunks| - 1], chunks[|chunks| - 1];
      && Prefill(limit, init).Some? && Accepts(Prefill(limit, init).value.context, c) && c.slots != []
      && Prefill(limit, chunks).value == Capture(limit, Prefill(limit, init).value, c)
      && Prefill(limit, chunks).value.context == Some(Context(c.rank, Last(c), SlotAt(chunks, Last(c))))
  {
    hide Segment;
  }

  lemma {:induction false} PrefillIsContiguous(limit: nat, chunks: seq<Chunk>)
    requires limit >= 1 && chunks != [] && Prefill(limit, chunks).Some?
    ensures chunks[|chunks| - 1].slots != []
    ensures Contiguous(chunks, chunks[0].first, Last(chunks[|chunks| - 1]))
  {
    hide Segment, Prefill, Capture, SlotAt;
    PrefillStep(limit, chunks);
    var init := chunks[..|chunks| - 1];
    if init != [] {
      PrefillStep(limit, init);
      PrefillIsContiguous(limit, init);
      assert forall i :: 0 <= i < |init| ==> init[i] == chunks[i];
    }
  }

  /** A prefill is accepted exactly when no chunk is empty and each one starts where the one before
      it ended, on the same rank. */
  lemma {:induction false} AcceptedExactly(limit: nat, chunks: seq<Chunk>)
    requires limit >= 1
    ensures Prefill(limit, chunks).Some? <==>
      forall i :: 0 <= i < |chunks| ==>
        && chunks[i].slots != []
        && (i > 0 ==> Continues(chunks[i - 1], chunks[i]))
  {
    hide Segment;
    if chunks != [] {
      var init, c := chunks[..|chunks| - 1], chunks[|chunks| - 1];
      AcceptedExactly(limit, init);
      assert forall i :: 0 <= i < |init| ==> init[i] == chunks[i];
      if Prefill(limit, init).Some? && init != [] {
        PrefillStep(limit, init);
        assert c.slots != [] ==> (Accepts(Prefill(limit, init).value.context, c) <==> Continues(init[|init| - 1], c));
      }
    }
  }

  predicate Continues(before: Chunk, c: Chunk) {
    c.rank == before.rank && c.first == before.first + |before.slots|
  }

  /** The rows of the run so far: in order of position, each with its own next token and slot,
      none at or after the pending position, and none missing from the window. */
  ghost predicate WindowOk(limit: nat, chunks: seq<Chunk>, rows: seq<ShiftedRow>, from: nat, to: nat) {
    && (forall i :: 0 <= i < |rows| ==> from <= rows[i].position < to && rows[i] == RowOf(chunks, rows[i].position))
    && (forall i, j :: 0 <= i < j < |rows| ==> rows[i].position < rows[j].position)
    && (forall p: nat :: from <= p < to && to - (limit - 1) <= p ==> RowOf(chunks, p) in rows)
  }

  /** The rows of one segment: its positions, in order, each with its own token and slot. */
  lemma SegmentRows(limit: nat, pending: Option<Context>, c: Chunk, chunks: seq<Chunk>)
    requires limit >= 1 && Accepts(pending, c) && chunks != [] && chunks[|chunks| - 1] == c
    requires pending.Some? ==> pending.value.slot == SlotAt(chunks[..|chunks| - 1], pending.value.position)
    ensures
      var rows := Segment(limit, pending, c);
      && |rows| <= limit
      && (forall i :: 0 <= i < |rows| ==> rows[i] == RowOf(chunks, rows[i].position) && rows[i].position < Last(c))
      && (forall i :: 0 <= i < |rows| ==>
        c.first <= rows[i].position || (pending.Some? && rows[i].position == pending.value.position))
      && (forall i, j :: 0 <= i < j < |rows| ==> rows[i].position < rows[j].position)
  {
    var start := |c.slots| - Min(|c.slots|, limit);
    var rows := Segment(limit, pending, c);
    var lead := if pending.Some? && |c.slots| < limit then 1 else 0;
    assert forall i :: lead <= i < |rows| ==> rows[i].position == c.first + start + i - lead;
  }

  /** The positions one segment runs: those of its chunk, and the pending one, that the window at
      the chunk's end reaches - no more and no fewer. */
  lemma SegmentExact(limit: nat, pending: Option<Context>, c: Chunk, chunks: seq<Chunk>, p: nat)
    requires limit >= 1 && Accepts(pending, c) && chunks != [] && chunks[|chunks| - 1] == c
    requires pending.Some? ==> pending.value.slot == SlotAt(chunks[..|chunks| - 1], pending.value.position)
    ensures (exists i :: 0 <= i < |Segment(limit, pending, c)| && Segment(limit, pending, c)[i].position == p) <==>
      && (c.first <= p || (pending.Some? && p == pending.value.position))
      && p < Last(c) && Last(c) - (limit - 1) <= p
  {
    SegmentRows(limit, pending, c, chunks);
    var start := |c.slots| - Min(|c.slots|, limit);
    var rows := Segment(limit, pending, c);
    var lead := if pending.Some? && |c.slots| < limit then 1 else 0;
    assert forall i :: lead <= i < |rows| ==> rows[i].position == c.first + start + i - lead;
    if (c.first <= p || (pending.Some? && p == pending.value.position)) && p < Last(c) && Last(c) - (limit - 1) <= p {
      SegmentCovers(limit, pending, c, chunks, p);
    }
  }

  /** What one segment leaves uncovered lies outside the window, or was covered before. */
  lemma SegmentCovers(limit: nat, pending: Option<Context>, c: Chunk, chunks: seq<Chunk>, p: nat)
    requires limit >= 1 && Accepts(pending, c) && chunks != [] && chunks[|chunks| - 1] == c
    requires pending.Some? ==> pending.value.slot == SlotAt(chunks[..|chunks| - 1], pending.value.position)
    requires p < Last(c) && Last(c) - (limit - 1) <= p
    requires c.first <= p || (pending.Some? && p == pending.value.position)
    ensures RowOf(chunks, p) in Segment(limit, pending, c)
  {
    SegmentRows(limit, pending, c, chunks);
    var start := |c.slots| - Min(|c.slots|, limit);
    var rows := Segment(limit, pending, c);
    var lead := if pending.Some? && |c.slots| < limit then 1 else 0;
    if c.first <= p {
      assert rows[lead + p - c.first - start].position == p;
    } else {
      assert rows[0].position == p;
    }
  }

  lemma EarlierRows(chunks: seq<Chunk>, p: nat)
    requires chunks != [] && p < chunks[|chunks| - 1].first
    ensures RowOf(chunks, p) == RowOf(chunks[..|chunks| - 1], p)
  {
  }

  lemma RowsAppend(segments: seq<seq<ShiftedRow>>, rows: seq<ShiftedRow>)
    ensures Rows(if rows == [] then segments else segments + [rows]) == Rows(segments) + rows
  {
    assert (segments + [rows])[..|segments|] == segments;
  }

  lemma WindowStarts(limit: nat, c: Chunk, rows: seq<ShiftedRow>)
    requires limit >= 1 && Accepts(None, c) && rows == Segment(limit, None, c)
    ensures WindowOk(limit, [c], rows, c.first, Last(c))
  {
    hide Segment, SlotAt;
    SegmentRows(limit, None, c, [c]);
    forall p: nat | c.first <= p < Last(c) && Last(c) - (limit - 1) <= p
      ensures RowOf([c], p) in rows
    {
      SegmentCovers(limit, None, c, [c], p);
    }
  }

  /** The main theorem: however a prompt is cut into chunks, after each chunk every row of the
      draft head's window has been run, once, with its own token, position and slot. */
  lemma {:induction false} WindowIndependentOfChunking(limit: nat, chunks: seq<Chunk>)
    requires limit >= 1 && chunks != [] && Prefill(limit, chunks).Some?
    ensures chunks[|chunks| - 1].slots != []
    ensures WindowOk(limit, chunks, Rows(Prefill(limit, chunks).value.segments), chunks[0].first,
      Last(chunks[|chunks| - 1]))
  {
    hide Segment, SlotAt, Prefill, WindowOk, Rows;
    PrefillStep(limit, chunks);
    PrefillIsContiguous(limit, chunks);
    var init, c := chunks[..|chunks| - 1], chunks[|chunks| - 1];
    var before := Prefill(limit, init).value;
    var rows := Segment(limit, before.context, c);
    RowsAppend(before.segments, rows);
    if init == [] {
      NothingRun(limit);
      assert [] + rows == rows && chunks == [c];
      WindowStarts(limit, c, rows);
    } else {
      PrefillStep(limit, init);
      WindowIndependentOfChunking(limit, init);
      assert init[0] == chunks[0] && init[|init| - 1] == chunks[|chunks| - 2];
      WindowGrows(limit, chunks, Rows(before.segments), rows, before.context);
    }
  }

  lemma NothingRun(limit: nat)
    requires limit >= 1
    ensures Prefill(limit, []) == Some(Captured(None, [])) && Rows([]) == []
  {
  }

  /** No segment is longer than the draft head takes. */
  lemma {:induction false} SegmentsFit(limit: nat, chunks: seq<Chunk>)
    requires limit >= 1 && Prefill(limit, chunks).Some?
    ensures forall i :: 0 <= i < |Prefill(limit, chunks).value.segments| ==>
      1 <= |Prefill(limit, chunks).value.segments[i]| <= limit
  {
    hide SlotAt, Prefill;
    if chunks == [] {
      NothingRun(limit);
    } else {
      PrefillStep(limit, chunks);
      SegmentsFit(limit, chunks[..|chunks| - 1]);
    }
  }

  lemma WindowGrows(limit: nat, chunks: seq<Chunk>, done: seq<ShiftedRow>, rows: seq<ShiftedRow>,
      pending: Option<Context>)
    requires limit >= 1 && |chunks| >= 2 && chunks[|chunks| - 2].slots != []
    requires
      var init, c := chunks[..|chunks| - 1], chunks[|chunks| - 1];
      var to := Last(init[|init| - 1]);
      && Accepts(pending, c) && pending == Some(Context(init[|init| - 1].rank, to, SlotAt(init, to)))
      && chunks[0].first <= to && c.first == to + 1
      && WindowOk(limit, init, done, chunks[0].first, to)
      && rows == Segment(limit, pending, c)
    ensures WindowOk(limit, chunks, done + rows, chunks[0].first, Last(chunks[|chunks| - 1]))
  {
    hide Segment, SlotAt;
    var init, c := chunks[..|chunks| - 1], chunks[|chunks| - 1];
    var to := Last(init[|init| - 1]);
    SegmentRows(limit, pending, c, chunks);
    forall p: nat | p <= to
      ensures RowOf(chunks, p) == RowOf(init, p)
    {
      EarlierRows(chunks, p);
    }
    forall p: nat | chunks[0].first <= p < Last(c) && Last(c) - (limit - 1) <= p
      ensures RowOf(chunks, p) in done + rows
    {
      if p < to {
        assert RowOf(init, p) in done;
      } else {
        SegmentCovers(limit, pending, c, chunks, p);
      }
    }
  }

  // ---- the code ----

  class RequestState {
    var prefillContext: Option<Context>
    ghost var segments: seq<seq<ShiftedRow>>

    constructor ()
      ensures State() == Captured(None, [])
    {
      prefillContext, segments := None, [];
    }

    ghost function State(): Captured
      reads this
    {
      Captured(prefillContext, segments)
    }

    /** `_capture_mtp_prefill_context` for one request. The parallel lists hold the hidden
        states, tokens, positions and slots of the segment; false where the code raises. */
    method CapturePrefill(limit: nat, c: Chunk) returns (ok: bool)
      requires limit >= 1
      modifies this
      ensures ok <==> Accepts(old(prefillContext), c)
      ensures State() == if ok then Capture(limit, old(State()), c) else old(State())
    {
      var n := |c.slots|;
      if n == 0 { return false; }
      var tail := Min(n, limit);
      var start := n - tail;
      var hiddens: seq<nat>, tokens: seq<nat>, positions: seq<nat>, slots: seq<int> := [], [], [], [];
      if prefillContext.Some? {
        if prefillContext.value.rank != c.rank { return false; }
        if c.first != prefillContext.value.position + 1 { return false; }
      }
      if prefillContext.Some? && n < limit {
        hiddens := hiddens + [prefillContext.value.position];
        tokens := tokens + [c.first];
        positions := positions + [prefillContext.value.position];
        slots := slots + [prefillContext.value.slot];
      }
      if tail > 1 {
        hiddens := hiddens + seq(tail - 1, k requires 0 <= k < tail - 1 => c.first + start + k);
        tokens := tokens + seq(n - start - 1, k requires 0 <= k < n - start - 1 => c.first + start + 1 + k);
        positions := positions + seq(n - 1 - start, k requires 0 <= k < n - 1 - start => c.first + start + k);
        slots := slots + c.slots[start..n - 1];
      }
      if hiddens != [] {
        RunRows(limit, hiddens, tokens, positions, slots, Segment(limit, prefillContext, c));
      }
      assert hiddens == [] <==> Segment(limit, prefillContext, c) == [];
      prefillContext := Some(Context(c.rank, c.first + n - 1, c.slots[n - 1]));
      ok := true;
    }

    /** `_run_mtp_prefill_rows`: the lists are aligned and fit the draft head. */
    method RunRows(limit: nat, hiddens: seq<nat>, tokens: seq<nat>, positions: seq<nat>, slots: seq<int>,
        ghost rows: seq<ShiftedRow>)
      requires 1 <= |rows| <= limit
      requires |hiddens| == |rows| && |tokens| == |rows| && |positions| == |rows| && |slots| == |rows|
      requires forall i :: 0 <= i < |rows| ==> rows[i] == ShiftedRow(hiddens[i], tokens[i], positions[i], slots[i])
      modifies this`segments
      ensures segments == old(segments) + [rows]
    {
      segments := segments + [rows];
    }
  }
}
