/** Placement of decode rows on ranks (`_decode_assignment`), and the waves by which a narrow
    chunk of draft verification visits them: at most one row of each rank at a time. */
module DraftWaves {
  import opened CacheTypes

  /** `_DeepSeekV4DecodeAssignment`. */
  datatype Assignment = Assignment(localRows: seq<nat>, byRank: seq<seq<nat>>)

  /** Row `i` is entry `localRows[i]` of its rank's list, and the lists hold nothing else, in the
      order of the batch. */
  ghost predicate Places(a: Assignment, ranks: seq<nat>, numRanks: nat) {
    && |a.localRows| == |ranks| && |a.byRank| == numRanks
    && (forall i :: 0 <= i < |ranks| ==>
          && ranks[i] < numRanks && a.localRows[i] < |a.byRank[ranks[i]]|
          && a.byRank[ranks[i]][a.localRows[i]] == i)
    && (forall r, k :: 0 <= r < numRanks && 0 <= k < |a.byRank[r]| ==>
          a.byRank[r][k] < |ranks| && ranks[a.byRank[r][k]] == r && a.localRows[a.byRank[r][k]] == k)
    && (forall r, j, k :: 0 <= r < numRanks && 0 <= j < k < |a.byRank[r]| ==> a.byRank[r][j] < a.byRank[r][k])
  }

  function CountOf(ranks: seq<nat>, r: nat): nat {
    if ranks == [] then 0
    else CountOf(ranks[..|ranks| - 1], r) + if ranks[|ranks| - 1] == r then 1 else 0
  }

  lemma {:induction false} CountOfPrefix(ranks: seq<nat>, n: nat, r: nat)
    requires n <= |ranks|
    ensures CountOf(ranks[..n], r) <= CountOf(ranks, r)
    decreases |ranks| - n
  {
    if n < |ranks| {
      assert ranks[..n + 1][..n] == ranks[..n];
      CountOfPrefix(ranks, n + 1, r);
    } else {
      assert ranks[..n] == ranks;
    }
  }

  /** Every rank exists and has at most its tile of rows. */
  ghost predicate FitsRanks(ranks: seq<nat>, numRanks: nat, capacity: nat) {
    (forall i :: 0 <= i < |ranks| ==> ranks[i] < numRanks) && (forall r: nat :: CountOf(ranks, r) <= capacity)
  }

  /** One more row, at the end of its rank's list. */
  function PlaceNext(a: Assignment, i: nat, rank: nat): Assignment
    requires rank < |a.byRank|
  {
    Assignment(a.localRows + [|a.byRank[rank]|], a.byRank[rank := a.byRank[rank] + [i]])
  }

  lemma PlaceNextOk(a: Assignment, ranks: seq<nat>, i: nat, numRanks: nat)
    requires i < |ranks| && ranks[i] < numRanks && Places(a, ranks[..i], numRanks)
    ensures Places(PlaceNext(a, i, ranks[i]), ranks[..i + 1], numRanks)
  {
    assert ranks[..i + 1] == ranks[..i] + [ranks[i]];
  }

  /** Each list is as long as the rank's row count, and within the tile. */
  ghost predicate Counted(a: Assignment, ranks: seq<nat>, numRanks: nat, capacity: nat) {
    && |a.byRank| == numRanks
    && forall r: nat ::
         && CountOf(ranks, r) == (if r < numRanks then |a.byRank[r]| else 0)
         && CountOf(ranks, r) <= capacity
  }

  lemma CountNext(a: Assignment, ranks: seq<nat>, i: nat, numRanks: nat, capacity: nat)
    requires i < |ranks| && ranks[i] < numRanks && Counted(a, ranks[..i], numRanks, capacity)
    ensures
      if |a.byRank[ranks[i]]| < capacity then Counted(PlaceNext(a, i, ranks[i]), ranks[..i + 1], numRanks, capacity)
      else CountOf(ranks, ranks[i]) > capacity
  {
    assert ranks[..i + 1][..i] == ranks[..i];
    CountOfPrefix(ranks, i + 1, ranks[i]);
    if |a.byRank[ranks[i]]| < capacity {
      var next, done := PlaceNext(a, i, ranks[i]), ranks[..i + 1];
      forall r: nat
        ensures CountOf(done, r) == (if r < numRanks then |next.byRank[r]| else 0) && CountOf(done, r) <= capacity
      {
        assert CountOf(done, r) == CountOf(ranks[..i], r) + if ranks[i] == r then 1 else 0;
      }
    }
  }

  /** `_decode_assignment`; `None` where it raises: exactly when the batch is empty, a rank is out
      of range, or a rank has more rows than its tile. */
  method DecodeAssignment(ranks: seq<nat>, numRanks: nat, capacity: nat) returns (result: Option<Assignment>)
    ensures result.Some? ==> Places(result.value, ranks, numRanks)
    ensures result.Some? <==> ranks != [] && FitsRanks(ranks, numRanks, capacity)
  {
    hide Places, CountOf;
    if ranks == [] { return None; }
    if exists i :: 0 <= i < |ranks| && ranks[i] >= numRanks { return None; }
    var a := Assignment([], seq(numRanks, _ => []));
    NothingPlaced(ranks, numRanks, capacity);
    for i := 0 to |ranks|
      invariant Places(a, ranks[..i], numRanks) && Counted(a, ranks[..i], numRanks, capacity)
    {
      var rank := ranks[i];
      CountNext(a, ranks, i, numRanks, capacity);
      if |a.byRank[rank]| >= capacity { return None; }
      PlaceNextOk(a, ranks, i, numRanks);
      a := Assignment(a.localRows + [|a.byRank[rank]|], a.byRank[rank := a.byRank[rank] + [i]]);
    }
    assert ranks[..|ranks|] == ranks;
    return Some(a);
  }

  lemma NothingPlaced(ranks: seq<nat>, numRanks: nat, capacity: nat)
    ensures
      var a := Assignment([], seq(numRanks, _ => []));
      Places(a, ranks[..0], numRanks) && Counted(a, ranks[..0], numRanks, capacity)
  {
  }

  /** The entries number `wave` of the first `n` ranks. */
  function RowsAt(byRank: seq<seq<nat>>, wave: nat, n: nat): seq<nat>
    requires n <= |byRank|
  {
    if n == 0 then []
    else RowsAt(byRank, wave, n - 1) + if wave < |byRank[n - 1]| then [byRank[n - 1][wave]] else []
  }

  /** A wave holds exactly the rows with its local row, each once, on different ranks. */
  lemma {:induction false} RowsAtExact(a: Assignment, ranks: seq<nat>, wave: nat, n: nat)
    requires Places(a, ranks, |a.byRank|) && n <= |a.byRank|
    ensures forall x: nat :: x in RowsAt(a.byRank, wave, n) <==> x < |ranks| && ranks[x] < n && a.localRows[x] == wave
    ensures OnePerRank(RowsAt(a.byRank, wave, n), ranks)
  {
    if n > 0 {
      RowsAtExact(a, ranks, wave, n - 1);
      forall x: nat
        ensures x in RowsAt(a.byRank, wave, n) <==> x < |ranks| && ranks[x] < n && a.localRows[x] == wave
      {
        if x < |ranks| && ranks[x] == n - 1 && a.localRows[x] == wave {
          assert a.byRank[n - 1][wave] == x;
        }
      }
      var earlier := RowsAt(a.byRank, wave, n - 1);
      assert forall j :: 0 <= j < |earlier| ==> earlier[j] in earlier;
    }
  }

  /** The waves of a narrow chunk. */
  method Waves(a: Assignment) returns (waves: seq<seq<nat>>)
    ensures waves != [] ==> exists r :: 0 <= r < |a.byRank| && |a.byRank[r]| == |waves|
    ensures forall r :: 0 <= r < |a.byRank| ==> |a.byRank[r]| <= |waves|
    ensures forall w :: 0 <= w < |waves| ==> waves[w] == RowsAt(a.byRank, w, |a.byRank|)
  {
    var most: nat := 0;
    for r := 0 to |a.byRank|
      invariant forall q :: 0 <= q < r ==> |a.byRank[q]| <= most
      invariant most > 0 ==> exists q :: 0 <= q < |a.byRank| && |a.byRank[q]| == most
    {
      if |a.byRank[r]| > most { most := |a.byRank[r]|; }
    }
    waves := [];
    for w := 0 to most
      invariant |waves| == w
      invariant forall v :: 0 <= v < w ==> waves[v] == RowsAt(a.byRank, v, |a.byRank|)
    {
      var rows: seq<nat> := [];
      for r := 0 to |a.byRank|
        invariant rows == RowsAt(a.byRank, w, r)
      {
        if w < |a.byRank[r]| { rows := rows + [a.byRank[r][w]]; }
      }
      waves := waves + [rows];
    }
  }

  /** The waves partition the rows, and no wave has two rows of one rank. */
  lemma WavesPartition(waves: seq<seq<nat>>, a: Assignment, ranks: seq<nat>)
    requires Places(a, ranks, |a.byRank|)
    requires forall r :: 0 <= r < |a.byRank| ==> |a.byRank[r]| <= |waves|
    requires forall w :: 0 <= w < |waves| ==> waves[w] == RowsAt(a.byRank, w, |a.byRank|)
    ensures forall w, x: nat :: 0 <= w < |waves| ==> (x in waves[w] <==> x < |ranks| && a.localRows[x] == w)
    ensures forall x: nat :: x < |ranks| ==> a.localRows[x] < |waves|
    ensures forall w :: 0 <= w < |waves| ==> OnePerRank(waves[w], ranks)
  {
    forall w, x: nat | 0 <= w < |waves|
      ensures x in waves[w] <==> x < |ranks| && a.localRows[x] == w
    {
      RowsAtExact(a, ranks, w, |a.byRank|);
    }
    forall w | 0 <= w < |waves|
      ensures OnePerRank(waves[w], ranks)
    {
      RowsAtExact(a, ranks, w, |a.byRank|);
    }
  }

  /** The rows are on different ranks, in the order of the ranks. */
  ghost predicate OnePerRank(rows: seq<nat>, ranks: seq<nat>) {
    && (forall j :: 0 <= j < |rows| ==> rows[j] < |ranks|)
    && (forall j, k :: 0 <= j < k < |rows| ==> ranks[rows[j]] < ranks[rows[k]])
  }

  lemma OnePerRankIsDistinct(rows: seq<nat>, ranks: seq<nat>)
    requires OnePerRank(rows, ranks)
    ensures NoDuplicates(rows)
  {
  }

  // ---- a part of a batch fits where the batch fits ----

  lemma {:induction false} SubsetSize(a: set<nat>, b: set<nat>)
    requires a <= b
    ensures |a| <= |b|
  {
    if a != {} {
      var x :| x in a;
      SubsetSize(a - {x}, b - {x});
    }
  }

  /** The ranks of the selected rows, in the order of the selection. */
  function Select(ranks: seq<nat>, rows: seq<nat>): seq<nat>
    requires forall k :: 0 <= k < |rows| ==> rows[k] < |ranks|
  {
    seq(|rows|, k requires 0 <= k < |rows| => ranks[rows[k]])
  }

  ghost function RowsOf(ranks: seq<nat>, rows: seq<nat>, r: nat): set<nat>
    requires forall k :: 0 <= k < |rows| ==> rows[k] < |ranks|
  {
    set i | i in rows && ranks[i] == r
  }

  lemma RowsOfAppend(ranks: seq<nat>, rows: seq<nat>, last: nat, r: nat)
    requires forall k :: 0 <= k < |rows| ==> rows[k] < |ranks|
    requires last < |ranks| && last !in rows
    ensures |RowsOf(ranks, rows + [last], r)| == |RowsOf(ranks, rows, r)| + if ranks[last] == r then 1 else 0
  {
    var all := rows + [last];
    assert forall k :: 0 <= k < |all| ==> all[k] < |ranks|;
    assert RowsOf(ranks, all, r) == RowsOf(ranks, rows, r) + if ranks[last] == r then {last} else {};
  }

  lemma SelectAppend(ranks: seq<nat>, rows: seq<nat>, last: nat, r: nat)
    requires forall k :: 0 <= k < |rows| ==> rows[k] < |ranks|
    requires last < |ranks|
    ensures forall k :: 0 <= k < |rows + [last]| ==> (rows + [last])[k] < |ranks|
    ensures CountOf(Select(ranks, rows + [last]), r) ==
      CountOf(Select(ranks, rows), r) + if ranks[last] == r then 1 else 0
  {
    assert Select(ranks, rows + [last]) == Select(ranks, rows) + [ranks[last]];
    assert (Select(ranks, rows) + [ranks[last]])[..|rows|] == Select(ranks, rows);
  }

  lemma {:induction false} CountIsSize(ranks: seq<nat>, rows: seq<nat>, r: nat)
    requires forall k :: 0 <= k < |rows| ==> rows[k] < |ranks|
    requires NoDuplicates(rows)
    ensures CountOf(Select(ranks, rows), r) == |RowsOf(ranks, rows, r)|
  {
    hide RowsOf, CountOf, Select;
    if rows == [] {
      CountNothing(ranks, r);
    } else {
      var init, last := rows[..|rows| - 1], rows[|rows| - 1];
      assert rows == init + [last];
      CountIsSize(ranks, init, r);
      SelectAppend(ranks, init, last, r);
      RowsOfAppend(ranks, init, last, r);
    }
  }

  lemma CountNothing(ranks: seq<nat>, r: nat)
    ensures CountOf(Select(ranks, []), r) == 0 == |RowsOf(ranks, [], r)|
  {
  }

  lemma PartFits(ranks: seq<nat>, rows: seq<nat>, r: nat)
    requires forall k :: 0 <= k < |rows| ==> rows[k] < |ranks|
    requires NoDuplicates(rows)
    ensures CountOf(Select(ranks, rows), r) <= CountOf(ranks, r)
  {
    var every := seq(|ranks|, i => i);
    assert Select(ranks, every) == ranks;
    CountIsSize(ranks, rows, r);
    CountIsSize(ranks, every, r);
    assert forall i: nat :: i < |ranks| ==> every[i] == i;
    SubsetSize(RowsOf(ranks, rows, r), RowsOf(ranks, every, r));
  }

  /** So the placement of a part succeeds if that of the whole did. */
  lemma PartFitsRanks(ranks: seq<nat>, rows: seq<nat>, numRanks: nat, capacity: nat)
    requires FitsRanks(ranks, numRanks, capacity)
    requires NoDuplicates(rows) && forall k :: 0 <= k < |rows| ==> rows[k] < |ranks|
    ensures FitsRanks(Select(ranks, rows), numRanks, capacity)
  {
    hide CountOf;
    forall r: nat
      ensures CountOf(Select(ranks, rows), r) <= capacity
    {
      PartFits(ranks, rows, r);
    }
  }
}
