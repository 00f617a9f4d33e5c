/** Speculative decoding on the host: `accept_mtp_tokens`, and `_verify_mtp_drafts`, which
    checks drafts of any depth in chunks of the target kernel's width.

    The target model is an oracle: for a request, a position and the input token there, it
    gives the token it predicts next. */
module DraftVerification {
  import opened CacheTypes
  import opened DraftWaves

  type Oracle = (nat, int, Token) -> Token

  /** The state the next draft step starts from: the last accepted token, the position whose
      hidden row produced it, and its own position. */
  datatype Tail = Tail(token: Token, hiddenAt: int, position: int)

  datatype Batch = Batch(
    current: seq<Token>,        // the last committed token of each request
    drafts: seq<seq<Token>>,
    baseLens: seq<int>,         // sequence length with that token
    ranks: seq<nat>,            // cache_partitions
    depth: nat)                 // drafts a request
  {
    ghost predicate Valid() {
      && |drafts| == |current| && |baseLens| == |current| && |ranks| == |current|
      && forall r :: 0 <= r < |drafts| ==> |drafts[r]| == depth
    }

    /** Row `r` of `input_sequences`. */
    function Inputs(r: nat): seq<Token>
      requires r < |current| && r < |drafts|
    {
      [current[r]] + drafts[r]
    }
  }

  // ---- the specification ----

  /** The longest prefix on which drafts and predictions agree. */
  function MatchCount(main: seq<Token>, draft: seq<Token>): (n: nat)
    requires |main| >= |draft|
    ensures n <= |draft|
  {
    if draft == [] || draft[0] != main[0] then 0 else 1 + MatchCount(main[1..], draft[1..])
  }

  /** What one row accepts: the matching drafts and one more prediction. */
  function AcceptRow(main: seq<Token>, draft: seq<Token>): seq<Token>
    requires |main| == |draft| + 1
  {
    main[..MatchCount(main, draft) + 1]
  }

  /** What is accepted, and nothing longer or shorter: the drafts that were predicted, up to the
      first that was not, and then the prediction in its place. */
  lemma AcceptExact(main: seq<Token>, draft: seq<Token>)
    requires |main| == |draft| + 1
    ensures
      var accepted := AcceptRow(main, draft);
      var n := |accepted| - 1;
      && 0 <= n <= |draft| && accepted == draft[..n] + [main[n]]
      && (forall k :: 0 <= k < n ==> draft[k] == main[k])
      && (n < |draft| ==> draft[n] != main[n])
  {
    var n := MatchCount(main, draft);
    MatchExact(main, draft, n);
    assert main[..n + 1] == main[..n] + [main[n]];
    assert forall k :: 0 <= k < n ==> draft[k] == draft[..n][k] && main[k] == main[..n][k];
  }

  lemma {:induction false} MatchExact(main: seq<Token>, draft: seq<Token>, n: nat)
    requires |main| >= |draft| >= n
    ensures MatchCount(main, draft) == n <==> main[..n] == draft[..n] && (n < |draft| ==> draft[n] != main[n])
  {
    if draft == [] {
    } else if n == 0 {
    } else if draft[0] != main[0] {
      assert main[..n][0] != draft[..n][0];
    } else {
      MatchExact(main[1..], draft[1..], n - 1);
      TailsAgree(main, draft, n);
    }
  }

  lemma TailsAgree(main: seq<Token>, draft: seq<Token>, n: nat)
    requires |main| >= |draft| >= n > 0 && draft[0] == main[0]
    ensures main[..n] == draft[..n] <==> main[1..][..n - 1] == draft[1..][..n - 1]
    ensures n < |draft| ==> draft[n] == draft[1..][n - 1] && main[n] == main[1..][n - 1]
  {
    if main[..n] == draft[..n] {
      assert main[1..][..n - 1] == main[..n][1..] && draft[1..][..n - 1] == draft[..n][1..];
    }
    if main[1..][..n - 1] == draft[1..][..n - 1] {
      assert main[..n] == [main[0]] + main[1..][..n - 1] && draft[..n] == [draft[0]] + draft[1..][..n - 1];
    }
  }

  /** `accept_mtp_tokens`; `None` where it raises. */
  method AcceptMtpTokens(main: seq<seq<Token>>, drafts: seq<seq<Token>>, width: nat)
      returns (accepted: Option<seq<seq<Token>>>)
    requires forall r :: 0 <= r < |main| ==> |main[r]| == width
    ensures accepted.Some? <==>
      width >= 2 && |drafts| == |main| && forall r :: 0 <= r < |drafts| ==> |drafts[r]| == width - 1
    ensures accepted.Some? ==>
      && |accepted.value| == |main|
      && forall r :: 0 <= r < |main| ==> accepted.value[r] == AcceptRow(main[r], drafts[r])
  {
    if width < 2 || |drafts| != |main| || exists r :: 0 <= r < |drafts| && |drafts[r]| != width - 1 { return None; }
    var rows: seq<seq<Token>> := [];
    for row := 0 to |main|
      invariant |rows| == row
      invariant forall r :: 0 <= r < row ==> rows[r] == AcceptRow(main[r], drafts[r])
    {
      var matched := 0;
      while matched < |drafts[row]| && drafts[row][matched] == main[row][matched]
        invariant matched <= |drafts[row]|
        invariant main[row][..matched] == drafts[row][..matched]
      {
        matched := matched + 1;
      }
      MatchExact(main[row], drafts[row], matched);
      rows := rows + [main[row][..matched + 1]];
    }
    return Some(rows);
  }

  /** The full row of predictions for request `r`: the target fed its drafts, one position
      after the other, from the last committed token on. */
  function MainRow(b: Batch, oracle: Oracle, r: nat): (row: seq<Token>)
    requires r < |b.current| && r < |b.drafts| && r < |b.baseLens|
    ensures |row| == |b.drafts[r]| + 1
  {
    seq(|b.drafts[r]| + 1, j requires 0 <= j < |b.drafts[r]| + 1 => oracle(r, b.baseLens[r] - 1 + j, b.Inputs(r)[j]))
  }

  /** The last committed token is fed at its own position, and each draft at the one after the
      token before it. */
  lemma MainRowExact(b: Batch, oracle: Oracle, r: nat)
    requires r < |b.current| && r < |b.drafts| && r < |b.baseLens|
    ensures MainRow(b, oracle, r)[0] == oracle(r, b.baseLens[r] - 1, b.current[r])
    ensures forall k :: 0 <= k < |b.drafts[r]| ==>
      MainRow(b, oracle, r)[1 + k] == oracle(r, b.baseLens[r] + k, b.drafts[r][k])
  {
    var base := b.baseLens[r] - 1;
    forall k | 0 <= k < |b.drafts[r]|
      ensures MainRow(b, oracle, r)[1 + k] == oracle(r, b.baseLens[r] + k, b.drafts[r][k])
    {
      assert base + (1 + k) == b.baseLens[r] + k;
    }
  }

  // ---- the state of a verification ----

  /** The entries of one request in the lists that `_verify_mtp_drafts` fills. */
  datatype Row = Row(
    accepted: seq<Token>,
    first: Option<Token>,       // first_logits
    tail: Option<Tail>,
    pending: Option<Tail>)

  /** The request is decided, and as the specification says. */
  ghost predicate Decided(main: seq<Token>, draft: seq<Token>, base: int, row: Row)
    requires |main| == |draft| + 1
  {
    var accepted := AcceptRow(main, draft);
    var position := base - 1 + |accepted|;
    row == Row(accepted, Some(main[0]), Some(Tail(accepted[|accepted| - 1], position - 1, position)), None)
  }

  /** The request has matched its first `c` drafts. */
  ghost predicate Matched(main: seq<Token>, draft: seq<Token>, row: Row, c: nat)
    requires |main| == |draft| + 1
  {
    && c <= |draft| && main[..c] == draft[..c]
    && row == Row(main[..c], if c == 0 then None else Some(main[0]), None, None)
  }

  /** The request has matched its first `c - 1` drafts, and the next prediction is pending. */
  ghost predicate Waiting(main: seq<Token>, draft: seq<Token>, base: int, row: Row, c: nat)
    requires |main| == |draft| + 1
  {
    && 1 <= c <= |draft| && main[..c - 1] == draft[..c - 1]
    && row == Row(main[..c - 1], Some(main[0]), None, Some(Tail(main[c - 1], base - 2 + c, base - 1 + c)))
  }

  /** A row padded to the kernel's width by repeating its last entry. */
  function Padded<T>(row: seq<T>, width: nat): (p: seq<T>)
    requires |row| > 0
    ensures |row| <= width ==> |p| == width
    ensures forall k :: 0 <= k < |p| ==> p[k] == if k < |row| then row[k] else row[|row| - 1]
  {
    if |row| >= width then row else row + seq(width - |row|, _ => row[|row| - 1])
  }

  // ---- one row of one chunk ----

  /** `_execute_main_decode` for one row: its first `count` positions are computed. */
  method Predict(oracle: Oracle, r: nat, tokens: seq<Token>, positions: seq<int>, count: nat) returns (row: seq<Token>)
    requires count <= |tokens| && count <= |positions|
    ensures |row| == count && forall k :: 0 <= k < count ==> row[k] == oracle(r, positions[k], tokens[k])
  {
    row := seq(count, k requires 0 <= k < count => oracle(r, positions[k], tokens[k]));
  }

  /** A mismatch after `n` drafts, or the end of the drafts, decides the row. */
  lemma MismatchDecides(main: seq<Token>, draft: seq<Token>, base: int, row: Row, n: nat)
    requires |main| == |draft| + 1 && n <= |draft| && main[..n] == draft[..n]
    requires n < |draft| ==> draft[n] != main[n]
    requires row == Row(main[..n + 1], Some(main[0]), Some(Tail(main[n], base - 1 + n, base + n)), None)
    ensures Decided(main, draft, base, row)
  {
    MatchExact(main, draft, n);
  }

  /** A chunk's predictions are the full row's, whatever the chunk. */
  lemma ChunkIsSlice(b: Batch, oracle: Oracle, r: nat, c: nat, count: nat, predictions: seq<Token>)
    requires b.Valid() && r < |b.current| && c + count <= |b.drafts[r]| + 1 && |predictions| == count
    requires forall k :: 0 <= k < count ==> predictions[k] == oracle(r, b.baseLens[r] - 1 + c + k, b.Inputs(r)[c + k])
    ensures predictions == MainRow(b, oracle, r)[c..c + count]
  {
    forall k | 0 <= k < count
      ensures predictions[k] == MainRow(b, oracle, r)[c..c + count][k]
    {
      assert MainRow(b, oracle, r)[c + k] == oracle(r, b.baseLens[r] - 1 + (c + k), b.Inputs(r)[c + k]);
    }
  }

  /** The padded inputs of one request in a chunk, and what the target predicts for them. */
  method RunChunk(b: Batch, oracle: Oracle, r: nat, c: nat, count: nat, width: nat)
      returns (predictions: seq<Token>, positions: seq<int>)
    requires b.Valid() && r < |b.current| && 1 <= count <= width && c + count <= |b.drafts[r]| + 1
    ensures predictions == MainRow(b, oracle, r)[c..c + count]
    ensures |positions| == width && forall k :: 0 <= k < count ==> positions[k] == b.baseLens[r] - 1 + c + k
  {
    var tokens := Padded(b.Inputs(r)[c..c + count], width);
    positions := Padded(seq(count, k requires 0 <= k < count => b.baseLens[r] - 1 + c + k), width);
    predictions := Predict(oracle, r, tokens, positions, count);
    ChunkIsSlice(b, oracle, r, c, count, predictions);
  }

  /** The checks of one request in one chunk, after `c` matched drafts. */
  method CheckRow(predictions: seq<Token>, positions: seq<int>, draft: seq<Token>, before: Row, c: nat,
          ghost main: seq<Token>, ghost base: int)
    returns (row: Row)
    requires |main| == |draft| + 1 && 1 <= |predictions| <= |positions| && c + |predictions| <= |main|
    requires predictions == main[c..c + |predictions|]
    requires forall k :: 0 <= k < |predictions| ==> positions[k] == base - 1 + c + k
    requires Matched(main, draft, before, c)
    ensures if row.pending.Some? then Waiting(main, draft, base, row, c + |predictions|)
            else Decided(main, draft, base, row)
  {
    hide AcceptRow, Decided;
    var count := |predictions|;
    row := before;
    if row.first.None? { row := row.(first := Some(predictions[0])); }
    for offset := 0 to count - 1
      invariant row == Row(main[..c + offset], Some(main[0]), None, None)
      invariant main[..c + offset] == draft[..c + offset]
    {
      var predicted := predictions[offset];
      assert main[..c + offset + 1] == main[..c + offset] + [predicted];
      row := row.(accepted := row.accepted + [predicted]);
      if predicted != draft[c + offset] {
        row := row.(tail := Some(Tail(predicted, positions[offset], positions[offset] + 1)));
        MismatchDecides(main, draft, base, row, c + offset);
        return;
      }
      assert draft[..c + offset + 1] == draft[..c + offset] + [predicted];
    }
    var last := count - 1;
    var tail := Tail(predictions[last], positions[last], positions[last] + 1);
    if c + last == |draft| {
      assert main[..c + last + 1] == main[..c + last] + [predictions[last]];
      row := row.(accepted := row.accepted + [predictions[last]], tail := Some(tail));
      MismatchDecides(main, draft, base, row, c + last);
    } else {
      row := row.(pending := Some(tail));
    }
  }

  /** The head of a later chunk: the pending prediction is accepted, and decides the row unless
      it matches the draft at the chunk's border. */
  method ResolvePending(draft: seq<Token>, before: Row, c: nat, ghost main: seq<Token>, ghost base: int)
      returns (row: Row)
    requires |main| == |draft| + 1 && Waiting(main, draft, base, before, c)
    ensures if row.tail.None? then Matched(main, draft, row, c) else Decided(main, draft, base, row)
  {
    hide AcceptRow, Decided;
    var tail := before.pending.value;
    assert main[..c] == main[..c - 1] + [main[c - 1]] && draft[..c] == draft[..c - 1] + [draft[c - 1]];
    row := before.(accepted := before.accepted + [tail.token], pending := None);
    if tail.token != draft[c - 1] {
      row := row.(tail := Some(tail));
      MismatchDecides(main, draft, base, row, c - 1);
    }
  }

  // ---- all rows ----

  /** Before a chunk: the active rows have matched `c` drafts, the others are decided. */
  ghost predicate AllMatched(b: Batch, oracle: Oracle, rows: seq<Row>, active: seq<nat>, c: nat)
    requires b.Valid()
  {
    && |rows| == |b.current| && NoDuplicates(active)
    && (forall k :: 0 <= k < |active| ==> active[k] < |rows|)
    && forall r: nat :: r < |rows| ==>
         if r in active then Matched(MainRow(b, oracle, r), b.drafts[r], rows[r], c)
         else Decided(MainRow(b, oracle, r), b.drafts[r], b.baseLens[r], rows[r])
  }

  /** After a chunk: the active rows wait for the comparison at the chunk's border. */
  ghost predicate AllWaiting(b: Batch, oracle: Oracle, rows: seq<Row>, active: seq<nat>, c: nat)
    requires b.Valid()
  {
    && |rows| == |b.current| && NoDuplicates(active)
    && (forall k :: 0 <= k < |active| ==> active[k] < |rows|)
    && forall r: nat :: r < |rows| ==>
         if r in active then Waiting(MainRow(b, oracle, r), b.drafts[r], b.baseLens[r], rows[r], c)
         else Decided(MainRow(b, oracle, r), b.drafts[r], b.baseLens[r], rows[r])
  }

  /** The first half of a later round. */
  method ResolveAll(b: Batch, oracle: Oracle, before: seq<Row>, active: seq<nat>, c: nat)
      returns (rows: seq<Row>, continuing: seq<nat>)
    requires b.Valid() && AllWaiting(b, oracle, before, active, c)
    ensures AllMatched(b, oracle, rows, continuing, c)
  {
    hide Decided, Matched, Waiting;
    rows, continuing := before, [];
    for k := 0 to |active|
      invariant |rows| == |before| && NoDuplicates(continuing)
      invariant forall j :: 0 <= j < |continuing| ==> continuing[j] in active[..k]
      invariant forall r: nat :: r < |rows| && r in active[k..] ==>
        Waiting(MainRow(b, oracle, r), b.drafts[r], b.baseLens[r], rows[r], c)
      invariant forall r: nat :: r < |rows| && r in continuing ==>
        Matched(MainRow(b, oracle, r), b.drafts[r], rows[r], c)
      invariant forall r: nat :: r < |rows| && r !in active[k..] && r !in continuing ==>
        Decided(MainRow(b, oracle, r), b.drafts[r], b.baseLens[r], rows[r])
    {
      var r := active[k];
      assert active[k..] == [r] + active[k + 1..] && active[..k + 1] == active[..k] + [r];
      assert r !in active[k + 1..] && r !in active[..k];
      var row := ResolvePending(b.drafts[r], rows[r], c, MainRow(b, oracle, r), b.baseLens[r]);
      rows := rows[r := row];
      if row.tail.None? { continuing := continuing + [r]; }
    }
  }

  /** In the middle of a chunk: the active rows in `visited` are decided or wait at its end, the
      others have matched up to its start. */
  ghost predicate Midway(b: Batch, oracle: Oracle, rows: seq<Row>, active: seq<nat>, c: nat, count: nat,
      continuing: seq<nat>, visited: set<nat>)
    requires b.Valid()
  {
    && |rows| == |b.current| && NoDuplicates(active) && NoDuplicates(continuing)
    && (forall k :: 0 <= k < |active| ==> active[k] < |rows|)
    && (forall k :: 0 <= k < |continuing| ==> continuing[k] in visited)
    && visited <= (set k | k in active)
    && forall r: nat :: r < |rows| ==>
         if r in continuing then Waiting(MainRow(b, oracle, r), b.drafts[r], b.baseLens[r], rows[r], c + count)
         else if r in active && r !in visited then Matched(MainRow(b, oracle, r), b.drafts[r], rows[r], c)
         else Decided(MainRow(b, oracle, r), b.drafts[r], b.baseLens[r], rows[r])
  }

  /** One wave: the target runs once for the rows `wave` of the active requests. */
  method RunWave(b: Batch, oracle: Oracle, before: seq<Row>, active: seq<nat>, c: nat, count: nat, width: nat,
          wave: seq<nat>, kept: seq<nat>, ghost visited: set<nat>)
    returns (rows: seq<Row>, continuing: seq<nat>)
    requires b.Valid() && 1 <= count <= width && c + count <= b.depth + 1
    requires Midway(b, oracle, before, active, c, count, kept, visited)
    requires NoDuplicates(wave) && forall j :: 0 <= j < |wave| ==> wave[j] < |active| && active[wave[j]] !in visited
    ensures Midway(b, oracle, rows, active, c, count, continuing, visited + set j | 0 <= j < |wave| :: active[wave[j]])
  {
    hide Decided, Matched, Waiting;
    rows, continuing := before, kept;
    ghost var seen := visited;
    for j := 0 to |wave|
      invariant Midway(b, oracle, rows, active, c, count, continuing, seen)
      invariant seen == visited + set i | 0 <= i < j :: active[wave[i]]
    {
      var r := active[wave[j]];
      Unseen(active, wave, visited, seen, j);
      var predictions, positions := RunChunk(b, oracle, r, c, count, width);
      var row := CheckRow(predictions, positions, b.drafts[r], rows[r], c, MainRow(b, oracle, r), b.baseLens[r]);
      rows := rows[r := row];
      if row.pending.Some? { continuing := continuing + [r]; }
      seen := seen + {r};
    }
  }

  lemma Unseen(active: seq<nat>, wave: seq<nat>, visited: set<nat>, seen: set<nat>, j: nat)
    requires NoDuplicates(active) && NoDuplicates(wave) && j < |wave|
    requires forall i :: 0 <= i < |wave| ==> wave[i] < |active| && active[wave[i]] !in visited
    requires seen == visited + set i | 0 <= i < j :: active[wave[i]]
    ensures active[wave[j]] !in seen
  {
    forall i | 0 <= i < j
      ensures active[wave[i]] != active[wave[j]]
    {
      assert wave[i] != wave[j];
    }
  }

  /** Each of the `n` active rows is in exactly one wave, once. */
  ghost predicate Covers(waves: seq<seq<nat>>, slot: seq<nat>) {
    && (forall w :: 0 <= w < |waves| ==> NoDuplicates(waves[w]))
    && (forall w, x: nat :: 0 <= w < |waves| ==> (x in waves[w] <==> x < |slot| && slot[x] == w))
    && (forall x: nat :: x < |slot| ==> slot[x] < |waves|)
  }

  /** The waves of one chunk: all active rows at once when it fills the kernel's width, else one
      row of each rank at a time. `None` where the placement of the active rows raises; that of
      a wave then does not. */
  method ChunkWaves(b: Batch, active: seq<nat>, count: nat, width: nat, numRanks: nat, capacity: nat)
    returns (waves: Option<seq<seq<nat>>>, ghost slot: seq<nat>)
    requires b.Valid() && active != [] && NoDuplicates(active) && forall k :: 0 <= k < |active| ==>
      active[k] < |b.current|
    ensures waves.Some? ==> |slot| == |active| && Covers(waves.value, slot)
    ensures waves.Some? && count < width ==> forall w :: 0 <= w < |waves.value| ==>
      && OnePerRank(waves.value[w], Select(b.ranks, active))
      && waves.value[w] != [] && FitsRanks(Select(Select(b.ranks, active), waves.value[w]), numRanks, capacity)
    ensures waves.Some? <==> FitsRanks(Select(b.ranks, active), numRanks, capacity)
  {
    var ranks := Select(b.ranks, active);
    slot := [];
    var placed := DecodeAssignment(ranks, numRanks, capacity);
    if placed.None? { return None, slot; }
    if count >= width {
      var every := seq(|active|, i => i);
      slot := seq(|active|, _ => 0);
      OneWave(every, slot);
      return Some([every]), slot;
    }
    var found := Waves(placed.value);
    WavesPartition(found, placed.value, ranks);
    forall w | 0 <= w < |found|
      ensures NoDuplicates(found[w]) && found[w] != [] && FitsRanks(Select(ranks, found[w]), numRanks, capacity)
    {
      OnePerRankIsDistinct(found[w], ranks);
      var r :| 0 <= r < |placed.value.byRank| && |placed.value.byRank[r]| == |found|;
      assert placed.value.byRank[r][w] in found[w];
      PartFitsRanks(ranks, found[w], numRanks, capacity);
    }
    return Some(found), placed.value.localRows;
  }

  lemma OneWave(every: seq<nat>, slot: seq<nat>)
    requires every == seq(|slot|, i => i) && slot == seq(|slot|, _ => 0)
    ensures Covers([every], slot)
  {
    forall w, x: nat | 0 <= w < 1
      ensures x in [every][w] <==> x < |slot| && slot[x] == w
    {
      assert x < |slot| ==> every[x] == x;
    }
  }

  /** The second half of a round: the chunk, wave by wave. */
  method RunWaves(b: Batch, oracle: Oracle, before: seq<Row>, active: seq<nat>, c: nat, count: nat, width: nat,
          waves: seq<seq<nat>>, ghost slot: seq<nat>)
    returns (rows: seq<Row>, continuing: seq<nat>)
    requires b.Valid() && 1 <= count <= width && c + count <= b.depth + 1
    requires AllMatched(b, oracle, before, active, c) && |slot| == |active| && Covers(waves, slot)
    ensures AllWaiting(b, oracle, rows, continuing, c + count)
  {
    hide Decided, Matched, Waiting;
    rows, continuing := before, [];
    ghost var visited: set<nat> := {};
    for w := 0 to |waves|
      invariant Midway(b, oracle, rows, active, c, count, continuing, visited)
      invariant visited == set x: nat | x < |active| && slot[x] < w :: active[x]
    {
      Unvisited(active, slot, waves, visited, w);
      rows, continuing := RunWave(b, oracle, rows, active, c, count, width, waves[w], continuing, visited);
      visited := visited + set j | 0 <= j < |waves[w]| :: active[waves[w][j]];
    }
    assert forall k :: 0 <= k < |active| ==> slot[k] < |waves|;
    assert forall r :: r in active ==> r in visited;
  }

  lemma Unvisited(active: seq<nat>, slot: seq<nat>, waves: seq<seq<nat>>, visited: set<nat>, w: nat)
    requires NoDuplicates(active) && |slot| == |active| && Covers(waves, slot) && w < |waves|
    requires visited == set x: nat | x < |active| && slot[x] < w :: active[x]
    ensures forall j :: 0 <= j < |waves[w]| ==> waves[w][j] < |active| && active[waves[w][j]] !in visited
    ensures visited + (set j | 0 <= j < |waves[w]| :: active[waves[w][j]]) == set x: nat | x < |active| &&
      slot[x] < w + 1 :: active[x]
  {
    forall j | 0 <= j < |waves[w]|
      ensures waves[w][j] < |active| && active[waves[w][j]] !in visited && slot[waves[w][j]] == w
    {
      CoversAt(waves, slot, w, waves[w][j]);
      assert waves[w][j] in waves[w];
    }
    var next := visited + set j | 0 <= j < |waves[w]| :: active[waves[w][j]];
    forall x: nat | x < |active| && slot[x] == w
      ensures active[x] in next
    {
      CoversAt(waves, slot, w, x);
      var j :| 0 <= j < |waves[w]| && waves[w][j] == x;
    }
  }

  lemma CoversAt(waves: seq<seq<nat>>, slot: seq<nat>, w: nat, x: nat)
    requires Covers(waves, slot) && w < |waves|
    ensures x in waves[w] <==> x < |slot| && slot[x] == w
  {
  }

  /** `_verify_mtp_drafts`: whatever the draft depth, the kernel's width and the placement on
      ranks, every request accepts what the specification accepts from its full row of
      predictions, and its tail is the last accepted token at the position after it. It raises
      exactly when there are requests and they do not fit the ranks: never in a later round. */
  method VerifyDrafts(b: Batch, oracle: Oracle, width: nat, numRanks: nat, capacity: nat)
      returns (result: Option<seq<Row>>)
    requires b.Valid() && width >= 1
    ensures result.None? <==> b.current != [] && !FitsRanks(b.ranks, numRanks, capacity)
    ensures result.Some? ==>
      && |result.value| == |b.current|
      && forall r: nat :: r < |b.current| ==>
           var accepted := AcceptRow(MainRow(b, oracle, r), b.drafts[r]);
           var position := b.baseLens[r] - 1 + |accepted|;
           && result.value[r].accepted == accepted
           && result.value[r].tail == Some(Tail(accepted[|accepted| - 1], position - 1, position))
           && result.value[r].first == Some(MainRow(b, oracle, r)[0])
  {
    hide AcceptRow, Matched, Waiting, MatchCount, FitsRanks;
    var rows: seq<Row> := seq(|b.current|, _ => Row([], None, None, None));
    var active: seq<nat> := seq(|b.current|, i => i);
    var offset := 0;
    StartMatched(b, oracle, rows, active);
    while active != []
      invariant if offset == 0 then AllMatched(b, oracle, rows, active, 0)
                else AllWaiting(b, oracle, rows, active, offset)
      invariant offset <= b.depth + 1
      invariant if offset == 0 then active == seq(|b.current|, i => i) else FitsRanks(b.ranks, numRanks, capacity)
      decreases b.depth + 1 - offset
    {
      if offset > 0 {
        rows, active := ResolveAll(b, oracle, rows, active, offset);
        if active == [] { break; }
      }
      NotPastEnd(b, oracle, rows, active, offset);
      var count := Min(width, b.depth + 1 - offset);
      var waves;
      ghost var slot;
      if offset == 0 {
        assert Select(b.ranks, active) == b.ranks;
      } else {
        PartFitsRanks(b.ranks, active, numRanks, capacity);
      }
      waves, slot := ChunkWaves(b, active, count, width, numRanks, capacity);
      if waves.None? { return None; }
      rows, active := RunWaves(b, oracle, rows, active, offset, count, width, waves.value, slot);
      offset := offset + count;
    }
    return Some(rows);
  }

  lemma StartMatched(b: Batch, oracle: Oracle, rows: seq<Row>, active: seq<nat>)
    requires b.Valid() && rows == seq(|b.current|, _ => Row([], None, None, None)) && active == seq(|b.current|, i => i)
    ensures AllMatched(b, oracle, rows, active, 0)
  {
    forall r: nat | r < |rows|
      ensures r in active && Matched(MainRow(b, oracle, r), b.drafts[r], rows[r], 0)
    {
      assert active[r] == r;
    }
  }

  lemma NotPastEnd(b: Batch, oracle: Oracle, rows: seq<Row>, active: seq<nat>, c: nat)
    requires b.Valid() && AllMatched(b, oracle, rows, active, c) && active != []
    ensures c <= b.depth
  {
    assert active[0] in active;
    assert Matched(MainRow(b, oracle, active[0]), b.drafts[active[0]], rows[active[0]], c);
  }
}
