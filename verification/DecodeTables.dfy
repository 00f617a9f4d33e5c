/** The persistent decode buffers of the Qwen runner: block-table rows are rewritten only when a
    request's page list differs from the copy of the list last written, and idle rows repeat
    row 0. Page lists belong to the callers, who may change them between calls. */
module DecodeTables {
  import opened CacheTypes
  import opened RingAddressing

  /** The cache slot of a position. */
  function SlotOf(pages: seq<int>, pageSize: nat, p: nat): int
    requires pageSize > 0 && p / pageSize < |pages|
  {
    pages[p / pageSize] * pageSize + p % pageSize
  }

  /** Offset `o` of the `i`-th page. */
  lemma SlotOfExact(pages: seq<int>, pageSize: nat, i: nat, o: nat)
    requires i < |pages| && o < pageSize
    ensures (i * pageSize + o) / pageSize == i
    ensures SlotOf(pages, pageSize, i * pageSize + o) == pages[i] * pageSize + o
  {
    var p := i * pageSize + o;
    DivModUnique(p / pageSize, p % pageSize, i, o, pageSize);
  }

  class DecodeBuffers {
    const rows: nat          // kernel batch
    const width: nat         // blocks per sequence
    const pageSize: nat
    const maxSeqLen: nat
    const blockTable: array2<int>
    const slotMapping: array<int>
    const seqLens: array<int>
    const tokenIds: array<int>
    var rowPages: seq<Option<seq<int>>>    // _decode_block_table_row_pages

    ghost predicate Shape() {
      && pageSize > 0
      && blockTable.Length0 == rows && blockTable.Length1 == width
      && slotMapping.Length == rows && seqLens.Length == rows && tokenIds.Length == rows
      && slotMapping != seqLens && seqLens != tokenIds && slotMapping != tokenIds
    }

    /** Row `b` of the table is what a rebuild from `pages` gives: the pages in order, and -1
        after them. */
    ghost predicate RowIs(b: nat, pages: seq<int>)
      requires Shape() && b < rows
      reads blockTable
    {
      |pages| <= width && forall k :: 0 <= k < width ==> blockTable[b, k] == if k < |pages| then pages[k] else -1
    }

    /** Every remembered page list is the one in the table. */
    ghost predicate Valid()
      reads this, blockTable
    {
      && Shape() && |rowPages| == rows
      && forall b :: 0 <= b < rows && rowPages[b].Some? ==> RowIs(b, rowPages[b].value)
    }

    constructor (rows: nat, width: nat, pageSize: nat, maxSeqLen: nat)
      requires pageSize > 0
      ensures Valid() && this.rows == rows && this.width == width && this.pageSize == pageSize
      ensures this.maxSeqLen == maxSeqLen
    {
      this.rows, this.width, this.pageSize, this.maxSeqLen := rows, width, pageSize, maxSeqLen;
      blockTable := new int[rows, width];
      slotMapping := new int[rows];
      seqLens := new int[rows];
      tokenIds := new int[rows];
      rowPages := seq(rows, _ => None);
    }

    /** `_write_cached_decode_block_table_row`; false where it raises. */
    method WriteRow(b: nat, pageIds: array<int>) returns (ok: bool)
      requires Valid() && b < rows
      modifies this`rowPages, blockTable
      ensures Valid()
      ensures ok <==> pageIds.Length <= width
      ensures ok ==> RowIs(b, pageIds[..])
      ensures forall c, list :: 0 <= c < rows && c != b && old(RowIs(c, list)) ==> RowIs(c, list)
      ensures forall c :: 0 <= c < rows && c != b ==> rowPages[c] == old(rowPages)[c]
    {
      if rowPages[b] == Some(pageIds[..]) { return true; }
      if pageIds.Length > width { return false; }
      for k := 0 to width
        modifies blockTable
        invariant forall j :: 0 <= j < k ==> blockTable[b, j] == -1
        invariant forall c, j :: 0 <= c < rows && c != b && 0 <= j < width ==> blockTable[c, j] == old(blockTable[c, j])
      {
        blockTable[b, k] := -1;
      }
      for k := 0 to pageIds.Length
        modifies blockTable
        invariant forall j :: 0 <= j < k ==> blockTable[b, j] == pageIds[j]
        invariant forall j :: k <= j < width ==> blockTable[b, j] == -1
        invariant forall c, j :: 0 <= c < rows && c != b && 0 <= j < width ==> blockTable[c, j] == old(blockTable[c, j])
      {
        blockTable[b, k] := pageIds[k];
      }
      rowPages := rowPages[b := Some(pageIds[..])];
      ok := true;
    }

    method WriteTokens(tokens: seq<int>)
      requires Shape() && |tokens| <= rows
      modifies tokenIds
      ensures forall b :: 0 <= b < |tokens| ==> tokenIds[b] == tokens[b]
    {
      for b := 0 to |tokens|
        invariant forall c :: 0 <= c < b ==> tokenIds[c] == tokens[c]
      {
        tokenIds[b] := tokens[b];
      }
    }

    method WriteLens(lens: seq<int>)
      requires Shape() && |lens| <= rows
      modifies seqLens
      ensures forall b :: 0 <= b < |lens| ==> seqLens[b] == lens[b]
    {
      for b := 0 to |lens|
        invariant forall c :: 0 <= c < b ==> seqLens[c] == lens[c]
      {
        seqLens[b] := lens[b];
      }
    }

    /** The row and the slot of request `pages` stand in kernel row `b`. */
    ghost predicate Written(b: nat, pages: seq<int>, seqLen: int)
      requires Shape() && b < rows
      reads blockTable, slotMapping
    {
      && seqLen >= 1 && (seqLen - 1) / pageSize < |pages|
      && RowIs(b, pages) && slotMapping[b] == SlotOf(pages, pageSize, seqLen - 1)
    }

    /** Everything of the request stands in kernel row `b`. */
    ghost predicate Holds(b: nat, pages: seq<int>, seqLen: int, token: int)
      requires Shape() && b < rows
      reads blockTable, slotMapping, seqLens, tokenIds
    {
      Written(b, pages, seqLen) && seqLens[b] == seqLen && tokenIds[b] == token
    }

    /** A request the buffers can serve. */
    predicate Fits(pageCount: nat, seqLen: int)
      requires pageSize > 0
    {
      1 <= seqLen <= maxSeqLen && pageCount <= width && (seqLen - 1) / pageSize < pageCount
    }

    /** One turn of the first loop. */
    method WriteActive(b: nat, list: array<int>, seqLen: int) returns (ok: bool)
      requires Valid() && b < rows && list != slotMapping
      modifies this`rowPages, blockTable, slotMapping
      ensures Valid()
      ensures ok <==> Fits(list.Length, seqLen)
      ensures ok ==> Written(b, list[..], seqLen)
      ensures forall c, pages, len :: 0 <= c < rows && c != b && old(Written(c, pages, len)) ==> Written(c, pages, len)
    {
      if seqLen <= 0 || seqLen > maxSeqLen { return false; }
      var written := WriteRow(b, list);
      if !written { return false; }
      var used := seqLen - 1;
      if used / pageSize >= list.Length { return false; }
      slotMapping[b] := list[used / pageSize] * pageSize + used % pageSize;
      ok := true;
    }

    /** The first loop. */
    method WriteActiveRows(pages: seq<array<int>>, lens: seq<int>) returns (ok: bool)
      requires Valid() && |pages| <= rows && |pages| <= |lens|
      requires forall b :: 0 <= b < |pages| ==> pages[b] != slotMapping
      modifies this`rowPages, blockTable, slotMapping
      ensures Valid()
      ensures ok <==> forall b :: 0 <= b < |pages| ==> Fits(pages[b].Length, lens[b])
      ensures ok ==> forall b :: 0 <= b < |pages| ==> Written(b, pages[b][..], lens[b])
    {
      hide Fits, Written, RowIs;
      for b := 0 to |pages|
        invariant Valid()
        invariant forall c :: 0 <= c < b ==> Fits(pages[c].Length, lens[c]) && Written(c, pages[c][..], lens[c])
      {
        var written := WriteActive(b, pages[b], lens[b]);
        if !written { return false; }
      }
      ok := true;
    }

    /** The padding loop: idle rows repeat row 0. */
    method PadRows(actual: nat, first: array<int>, ghost seqLen: int, ghost token: int)
      requires Valid() && 1 <= actual <= rows && Holds(0, first[..], seqLen, token)
      requires first != slotMapping && first != seqLens && first != tokenIds
      modifies this`rowPages, blockTable, slotMapping, seqLens, tokenIds
      ensures Valid()
      ensures forall b :: actual <= b < rows ==> Holds(b, first[..], seqLen, token)
      ensures forall b, pages, len, tok :: 0 <= b < actual && old(Holds(b, pages, len, tok)) ==>
        Holds(b, pages, len, tok)
    {
      hide RowIs, Written, Holds;
      for b := actual to rows
        invariant Valid() && Holds(0, first[..], seqLen, token)
        invariant forall c :: actual <= c < b ==> Holds(c, first[..], seqLen, token)
        invariant forall c, pages, len, tok :: 0 <= c < actual && old(Holds(c, pages, len, tok)) ==>
          Holds(c, pages, len, tok)
      {
        PadRow(b, first, seqLen, token);
      }
    }

    method PadRow(b: nat, first: array<int>, ghost seqLen: int, ghost token: int)
      requires Valid() && 1 <= b < rows && Holds(0, first[..], seqLen, token)
      requires first != slotMapping && first != seqLens && first != tokenIds
      modifies this`rowPages, blockTable, slotMapping, seqLens, tokenIds
      ensures Valid() && Holds(b, first[..], seqLen, token)
      ensures forall c, pages, len, tok :: 0 <= c < rows && c != b && old(Holds(c, pages, len, tok)) ==>
        Holds(c, pages, len, tok)
    {
      tokenIds[b] := tokenIds[0];
      seqLens[b] := seqLens[0];
      slotMapping[b] := slotMapping[0];
      var written := WriteRow(b, first);
    }

    /** `_prepare_decode_inputs`; false where it raises, which it does exactly when a request
        does not fit. Whatever was in the buffers before, and whatever the callers did to their
        lists since, each active row is a full rebuild from its own list as it is now, and each
        idle row repeats row 0, so it addresses no other request's slot. */
    method PrepareDecode(pages: seq<array<int>>, lens: seq<int>, tokens: seq<int>) returns (ok: bool)
      requires Valid() && |tokens| == |pages|
      requires forall b :: 0 <= b < |pages| ==> pages[b] != slotMapping && pages[b] != seqLens && pages[b] != tokenIds
      modifies this`rowPages, blockTable, slotMapping, seqLens, tokenIds
      ensures Valid()
      ensures ok <==>
        && 1 <= |pages| <= rows && |lens| >= |pages|
        && forall b :: 0 <= b < |pages| ==>
             1 <= lens[b] <= maxSeqLen && pages[b].Length <= width && (lens[b] - 1) / pageSize < pages[b].Length
      ensures ok ==> forall b :: 0 <= b < |pages| ==> Holds(b, pages[b][..], lens[b], tokens[b])
      ensures ok ==> forall b :: |pages| <= b < rows ==> Holds(b, pages[0][..], lens[0], tokens[0])
    {
      var actual := |pages|;
      if actual == 0 || actual > rows { return false; }
      WriteTokens(tokens);
      if |lens| < actual { return false; }
      WriteLens(lens[..actual]);
      ok := WriteActiveRows(pages, lens);
      if !ok { return; }
      assert forall b :: 0 <= b < actual ==> Holds(b, pages[b][..], lens[b], tokens[b]);
      PadRows(actual, pages[0], lens[0], tokens[0]);
    }
  }

  lemma SpanStaysInPage(p: nat, k: nat, pageSize: nat)
    requires pageSize > 0 && p % pageSize + k < pageSize
    ensures (p + k) / pageSize == p / pageSize && (p + k) % pageSize == p % pageSize + k
  {
    var q := (p + k) / pageSize;
    assert p == pageSize * (p / pageSize) + p % pageSize;
    assert p + k == pageSize * q + (p + k) % pageSize;
    var d := q - p / pageSize;
    assert pageSize * d == p % pageSize + k - (p + k) % pageSize by {
      assert pageSize * d == pageSize * q - pageSize * (p / pageSize);
    }
    assert d >= 1 ==> pageSize * d >= pageSize;
    assert d <= -1 ==> pageSize * d + pageSize <= 0;
  }

  /** The slot of position `start + j`, which the pages may not reach. */
  function SlotFrom(pages: seq<int>, pageSize: nat, start: nat, j: nat): int
    requires pageSize > 0
  {
    if (start + j) / pageSize < |pages| then SlotOf(pages, pageSize, start + j) else -1
  }

  /** Within one page, slots are consecutive. */
  lemma SpanSlots(pages: seq<int>, pageSize: nat, start: nat, done: nat, last: nat, j: nat)
    requires pageSize > 0 && done <= j && start + j <= last && last / pageSize < |pages|
    requires j - done < pageSize - (start + done) % pageSize
    ensures (start + done) / pageSize < |pages|
    ensures SlotFrom(pages, pageSize, start, j)
         == pages[(start + done) / pageSize] * pageSize + (start + done) % pageSize + (j - done)
  {
    DivisionMonotone(start + done, last, pageSize);
    SpanStaysInPage(start + done, j - done, pageSize);
  }

  /** One slice assignment from `np.arange`. */
  method WriteSpan(target: array<int>, from: nat, span: nat, first: int)
    requires from + span <= target.Length
    modifies target
    ensures forall j :: 0 <= j < target.Length ==>
      target[j] == if from <= j < from + span then first + (j - from) else old(target[j])
  {
    forall j | from <= j < from + span {
      target[j] := first + (j - from);
    }
  }

  /** `_write_slot_mapping`: fills a view of the slot buffer, one page-sized span at a time, with
      the slots of consecutive positions; false where it raises, before anything is written. */
  method WriteSlotMapping(target: array<int>, pages: seq<int>, count: nat, pageSize: nat, start: nat) returns (ok: bool)
    requires pageSize > 0 && count <= target.Length
    modifies target
    ensures ok <==> count == 0 || (start + count - 1) / pageSize < |pages|
    ensures forall j :: 0 <= j < target.Length ==>
      target[j] == if ok && j < count then SlotFrom(pages, pageSize, start, j) else old(target[j])
  {
    hide SlotFrom;
    if count > 0 && (start + count - 1) / pageSize >= |pages| { return false; }
    var done := 0;
    while done < count
      invariant done <= count
      invariant forall j :: 0 <= j < target.Length ==>
        target[j] == if j < done then SlotFrom(pages, pageSize, start, j) else old(target[j])
    {
      var pos := start + done;
      SpanSlots(pages, pageSize, start, done, start + count - 1, done);
      var page, offset := pos / pageSize, pos % pageSize;
      var span := Min(count - done, pageSize - offset);
      forall j: nat | done <= j < done + span
        ensures SlotFrom(pages, pageSize, start, j) == pages[page] * pageSize + offset + (j - done)
      {
        SpanSlots(pages, pageSize, start, done, start + count - 1, j);
      }
      WriteSpan(target, done, span, pages[page] * pageSize + offset);
      done := done + span;
    }
    ok := true;
  }
}
