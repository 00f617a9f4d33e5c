/** How the runner turns positions into cache slots through a ring of blocks
    (`DeepSeekV4CacheMetadataBuilder`): the write mapping, the visible window, and their
    agreement with where the manager put each page. */
module RingAddressing {
  import opened CacheTypes
  import opened GroupPool
  import opened RingArithmetic

  /** The slot of position `p`. `/` and `%` floor, as `divmod` does. */
  function Slot(ids: seq<int>, blockSize: nat, p: int): int
    requires ids != [] && blockSize > 0
  {
    ids[(p / blockSize) % |ids|] * blockSize + p % blockSize
  }

  /** Lap `lap` of the ring puts offset `o` of its `i`-th page into the ring's `i`-th block. */
  lemma SlotExact(ids: seq<int>, blockSize: nat, lap: int, i: nat, o: nat)
    requires i < |ids| && o < blockSize
    ensures Slot(ids, blockSize, (|ids| * lap + i) * blockSize + o) == ids[i] * blockSize + o
  {
    var page := |ids| * lap + i;
    var p := page * blockSize + o;
    assert p == blockSize * page + o;
    ModOfSum(page, o, blockSize);
    DivModUnique(p / blockSize, p % blockSize, page, o, blockSize);
    ModOfSum(lap, i, |ids|);
  }

  lemma ProductOfSum(b: int, u: int, v: int)
    ensures b * (u + v) == b * u + b * v
  {
  }

  lemma ProductRegroup(b: int, n: int, y: int)
    ensures b * (n * y) == (n * b) * y
  {
  }

  lemma ProductBound(b: nat, i: nat, n: nat)
    requires i < n
    ensures b * i >= 0 && b * i + b <= n * b
  {
    assert n * b == b * i + b * (n - i);
    assert b * (n - i) >= b by { ProductOfSum(b, 1, n - i - 1); }
  }

  lemma ProductPositive(n: nat, b: nat)
    requires n > 0 && b > 0
    ensures n * b > 0
  {
  }

  lemma ModProduct(p: int, b: nat, n: nat)
    requires b > 0 && n > 0
    ensures n * b > 0 && p % (n * b) == b * ((p / b) % n) + p % b
  {
    var x, o := p / b, p % b;
    var y, i := x / n, x % n;
    ProductPositive(n, b);
    ProductOfSum(b, n * y, i);
    ProductRegroup(b, n, y);
    ProductBound(b, i, n);
    assert p == (n * b) * y + (b * i + o);
    ModOfSum(y, b * i + o, n * b);
  }

  lemma DivModUnique(x: int, o: int, y: int, u: int, b: nat)
    requires 0 <= o < b && 0 <= u < b && x * b + o == y * b + u
    ensures x == y && o == u
  {
    assert (x - y) * b == u - o by { assert (x - y) * b == x * b - y * b; }
    assert b * (x - y) == u - o;
    MultipleIsLarge(b, x - y);
  }

  /** Two positions share a slot of a ring of distinct blocks exactly when they are congruent
      modulo the ring's capacity. */
  lemma SlotsShareExactly(ids: seq<int>, blockSize: nat, p: int, q: int)
    requires ids != [] && blockSize > 0 && NoDuplicates(ids)
    ensures |ids| * blockSize > 0
    ensures Slot(ids, blockSize, p) == Slot(ids, blockSize, q) <==> p % (|ids| * blockSize) == q % (|ids| * blockSize)
  {
    var n := |ids|;
    var i, j := (p / blockSize) % n, (q / blockSize) % n;
    var o, u := p % blockSize, q % blockSize;
    ModProduct(p, blockSize, n);
    ModProduct(q, blockSize, n);
    if ids[i] * blockSize + o == ids[j] * blockSize + u {
      DivModUnique(ids[i], o, ids[j], u, blockSize);
    }
    if blockSize * i + o == blockSize * j + u {
      assert i * blockSize == blockSize * i && j * blockSize == blockSize * j;
      DivModUnique(i, o, j, u, blockSize);
    }
  }

  /** No two positions of a window that fits the ring share a slot. */
  lemma WindowSlotsDistinct(ids: seq<int>, blockSize: nat, p: int, q: int)
    requires ids != [] && blockSize > 0 && NoDuplicates(ids) && p != q
    requires -(|ids| * blockSize) < p - q < |ids| * blockSize
    ensures Slot(ids, blockSize, p) != Slot(ids, blockSize, q)
  {
    SlotsShareExactly(ids, blockSize, p, q);
    if p % (|ids| * blockSize) == q % (|ids| * blockSize) {
      CongruentAndClose(p, q, |ids| * blockSize);
    }
  }

  /** The block the runner picks for a page is the one the manager placed it in: each position
      of the newest pages of a table `ids` goes to the block in the manager's slot, at its offset
      in the page, and that slot holds its page. */
  lemma RunnerPicksManagerBlock(ids: seq<int>, pages: nat, maxBlocks: nat, blockSize: nat, page: nat, o: nat)
    requires maxBlocks > 0 && page < pages && pages - Min(pages, maxBlocks) <= page
    requires |ids| == Min(pages, maxBlocks) && o < blockSize
    ensures RingSlot(page, maxBlocks) < |ids|
    ensures Slot(ids, blockSize, page * blockSize + o) == ids[RingSlot(page, maxBlocks)] * blockSize + o
    ensures PageAt(pages, |ids|, RingSlot(page, maxBlocks)) == page
  {
    hide Slot;
    SlotPageAt(pages, |ids|, page);
    SlotExact(ids, blockSize, page / |ids|, page % |ids|, o);
  }

  function Width(positions: seq<seq<int>>): nat {
    if positions == [] then 0 else Max(Width(positions[..|positions| - 1]), |positions[|positions| - 1]|)
  }

  /** The width is the length of a longest row. */
  lemma {:induction false} WidthBounds(positions: seq<seq<int>>)
    ensures forall r :: 0 <= r < |positions| ==> |positions[r]| <= Width(positions)
    ensures positions == [] || exists r :: 0 <= r < |positions| && |positions[r]| == Width(positions)
  {
    if positions != [] {
      var init := positions[..|positions| - 1];
      WidthBounds(init);
      if Width(positions) > |positions[|positions| - 1]| {
        assert init == [] ==> Width(init) == 0;
        var r :| 0 <= r < |init| && |init[r]| == Width(init);
        assert |positions[r]| == Width(positions);
      }
    }
  }

  /** `paged_decode_slot_mapping_from_ids`: every position's slot, rows padded with -1; `None`
      where it raises. */
  method SlotMapping(ids: seq<seq<int>>, positions: seq<seq<int>>, blockSize: nat)
      returns (mapping: Option<seq<seq<int>>>)
    requires blockSize > 0
    ensures mapping.Some? <==> |ids| == |positions| && forall r :: 0 <= r < |ids| ==> ids[r] != []
    ensures mapping.Some? ==>
      && |mapping.value| == |positions|
      && forall r :: 0 <= r < |positions| ==>
           && |mapping.value[r]| == Width(positions) >= |positions[r]|
           && (forall c :: 0 <= c < |positions[r]| ==> mapping.value[r][c] == Slot(ids[r], blockSize, positions[r][c]))
           && (forall c :: |positions[r]| <= c < Width(positions) ==> mapping.value[r][c] == -1)
  {
    hide Slot;
    if |ids| != |positions| { return None; }
    var width := Width(positions);
    WidthBounds(positions);
    var rows: seq<seq<int>> := [];
    for r := 0 to |positions|
      invariant |rows| == r && forall q :: 0 <= q < r ==> ids[q] != []
      invariant forall q :: 0 <= q < r ==>
        && |rows[q]| == width
        && (forall c :: 0 <= c < |positions[q]| ==> rows[q][c] == Slot(ids[q], blockSize, positions[q][c]))
        && (forall c :: |positions[q]| <= c < width ==> rows[q][c] == -1)
    {
      if ids[r] == [] { return None; }
      var row := seq(width, _ => -1);
      for c := 0 to |positions[r]|
        invariant |row| == width
        invariant forall k :: 0 <= k < c ==> row[k] == Slot(ids[r], blockSize, positions[r][k])
        invariant forall k :: c <= k < width ==> row[k] == -1
      {
        row := row[c := Slot(ids[r], blockSize, positions[r][c])];
      }
      rows := rows + [row];
    }
    return Some(rows);
  }

  /** The visible window of one position: the slots of the last `window` positions up to it. */
  ghost predicate WindowRow(ids: seq<int>, blockSize: nat, window: nat, p: int, indices: seq<int>, len: nat)
    requires ids != [] && blockSize > 0
  {
    && p >= 0 && len == Min(p + 1, window) && |indices| == window
    && (forall k :: 0 <= k < len ==> indices[k] == Slot(ids, blockSize, p + 1 - len + k))
    && (forall k :: len <= k < window ==> indices[k] == -1)
  }

  method VisibleRow(ids: seq<int>, blockSize: nat, window: nat, p: nat) returns (indices: seq<int>, len: nat)
    requires ids != [] && blockSize > 0 && window > 0
    ensures WindowRow(ids, blockSize, window, p, indices, len)
  {
    hide Slot;
    var start := Max(0, p - window + 1);
    indices := seq(window, _ => -1);
    for offset := 0 to p + 1 - start
      invariant |indices| == window
      invariant forall k :: 0 <= k < offset ==> indices[k] == Slot(ids, blockSize, start + k)
      invariant forall k :: offset <= k < window ==> indices[k] == -1
    {
      indices := indices[offset := Slot(ids, blockSize, start + offset)];
    }
    len := p - start + 1;
  }

  /** `swa_window_indices_and_lens_from_ids`: one window row for each position (entry `c` of
      request row `r` is output row `r * width + c`), blank rows for padding; `None` where it
      raises. Every entry is a slot of the write mapping, so reads see what was written. */
  method WindowIndices(ids: seq<seq<int>>, positions: seq<seq<int>>, blockSize: nat, window: nat)
    returns (result: Option<seq<seq<(seq<int>, nat)>>>)
    requires blockSize > 0 && window > 0
    ensures result.Some? <==>
      && |ids| == |positions|
      && (forall r :: 0 <= r < |ids| ==> ids[r] != [] && forall b :: 0 <= b < |ids[r]| ==> ids[r][b] >= 0)
      && (forall r, c :: 0 <= r < |positions| && 0 <= c < |positions[r]| ==> positions[r][c] >= 0)
    ensures result.Some? ==>
      && |result.value| == |positions|
      && forall r :: 0 <= r < |positions| ==>
        RequestRows(ids[r], positions[r], blockSize, window, Width(positions), result.value[r])
  {
    hide WindowRow;
    if |ids| != |positions| { return None; }
    var width := Width(positions);
    WidthBounds(positions);
    var rows: seq<seq<(seq<int>, nat)>> := [];
    for r := 0 to |positions|
      invariant |rows| == r
      invariant forall q :: 0 <= q < r ==> ids[q] != [] && forall b :: 0 <= b < |ids[q]| ==> ids[q][b] >= 0
      invariant forall q, c :: 0 <= q < r && 0 <= c < |positions[q]| ==> positions[q][c] >= 0
      invariant forall q :: 0 <= q < r ==> RequestRows(ids[q], positions[q], blockSize, window, width, rows[q])
    {
      if ids[r] == [] || exists b :: 0 <= b < |ids[r]| && ids[r][b] < 0 { return None; }
      var row: seq<(seq<int>, nat)> := [];
      for c := 0 to |positions[r]|
        invariant |row| == c
        invariant forall k :: 0 <= k < c ==>
          positions[r][k] >= 0 && WindowRow(ids[r], blockSize, window, positions[r][k], row[k].0, row[k].1)
      {
        if positions[r][c] < 0 { return None; }
        var indices, len := VisibleRow(ids[r], blockSize, window, positions[r][c]);
        row := row + [(indices, len)];
      }
      row := row + seq(width - |positions[r]|, _ => (seq(window, _ => -1), 0));
      rows := rows + [row];
    }
    return Some(rows);
  }

  ghost predicate RequestRows(ids: seq<int>, positions: seq<int>, blockSize: nat, window: nat, width: nat,
      rows: seq<(seq<int>, nat)>)
    requires ids != [] && blockSize > 0
  {
    && |positions| <= width == |rows|
    && (forall c :: 0 <= c < |positions| ==> WindowRow(ids, blockSize, window, positions[c], rows[c].0, rows[c].1))
    && (forall c :: |positions| <= c < width ==> rows[c] == (seq(window, _ => -1), 0))
  }
}
