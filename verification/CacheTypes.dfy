/** Values shared by all modules: options, group specifications (`config/types.py`), and the
    chained prefix hashes of `kv_cache.py`.

    A prefix hash is modelled as the data it is computed from, so two hashes are equal only
    when their whole chains are: Python's `hash` is assumed to be free of collisions. */
module CacheTypes {

  datatype Option<+T> = None | Some(value: T)

  type Token = int
  type ReqId = string

  function Min(a: int, b: int): int {
    if a <= b then a else b
  }

  function Max(a: int, b: int): int {
    if a <= b then b else a
  }

  ghost predicate NoDuplicates<T>(s: seq<T>) {
    forall i, j :: 0 <= i < j < |s| ==> s[i] != s[j]
  }

  function CeilDiv(n: nat, d: nat): nat
    requires d > 0
  {
    (n + d - 1) / d
  }

  /** `CeilDiv(n, d)` pages of `d` tokens hold `n` tokens, and no fewer do. */
  lemma CeilDivExact(n: nat, d: nat, k: nat)
    requires d > 0
    ensures CeilDiv(n, d) <= k <==> n <= k * d
  {
    var q := CeilDiv(n, d);
    var x := n + d - 1;
    assert x == d * q + x % d;
    if q <= k { Times(q, k, d); } else { Times(k + 1, q, d); }
    assert (k + 1) * d == k * d + d;
  }

  lemma Times(k: nat, j: nat, d: nat)
    requires k <= j
    ensures k * d <= j * d
  {
  }

  /** `KVCacheGroupSpec` for one partition: `capacity` source tokens a page and at most
      `maxBlocks` table slots. `window` is `sliding_window` counted in pages: the
      specification makes it a positive multiple of `capacity` that fits the table. */
  datatype GroupSpec = GroupSpec(capacity: nat, maxBlocks: nat, window: Option<nat>, eagle: bool) {
    predicate Valid() {
      && capacity > 0
      && maxBlocks > 0
      && (window.Some? ==> 0 < window.value <= maxBlocks)
    }

    /** The source tokens whose rows are final once `tokens` tokens are computed: the newest
        row of a shifted (EAGLE) group still waits for the token after it. */
    function SafeTokens(tokens: nat): nat {
      if eagle then Max(0, tokens - 1) else tokens
    }

    /** The number of table slots a request with `pages` logical pages holds. */
    function TableSize(pages: nat): nat {
      if window.Some? then Min(pages, maxBlocks) else pages
    }

    /** The immutable tail a rolling group must find before it can resume at `pages`. */
    function TailPages(pages: nat): nat {
      if window.Some? then Min(pages, window.value) else pages
    }
  }

  /** Row `row` of the cache is final: in a shifted group it consumes the token after it too. */
  predicate RowIsFinal(eagle: bool, row: nat, tokens: nat) {
    if eagle then row + 1 < tokens else row < tokens
  }

  /** How many leading rows are final once `tokens` tokens are known, by the rule for one row. */
  function FinalRows(eagle: bool, tokens: nat): nat {
    if tokens == 0 || RowIsFinal(eagle, tokens - 1, tokens) then tokens else tokens - 1
  }

  lemma FinalRowsExact(eagle: bool, tokens: nat, row: nat)
    ensures row < FinalRows(eagle, tokens) <==> RowIsFinal(eagle, row, tokens)
  {
  }

  /** The host counts the rows that are final. */
  lemma SafeTokensExact(spec: GroupSpec, tokens: nat)
    ensures spec.SafeTokens(tokens) == FinalRows(spec.eagle, tokens)
  {
  }

  /** What a request that resumes after `pages` pages needs of a group: the pages that the
      window still reaches, or every page without a window. */
  predicate NeededPage(spec: GroupSpec, pages: nat, i: int) {
    0 <= i < pages && (spec.window.Some? ==> i + spec.window.value >= pages)
  }

  lemma TailExact(spec: GroupSpec, pages: nat, i: int)
    ensures NeededPage(spec, pages, i) <==> pages - spec.TailPages(pages) <= i < pages
  {
  }

  datatype Hash = Root | Chain(parent: Hash, tokens: seq<Token>)

  function Depth(h: Hash): nat {
    match h
    case Root => 0
    case Chain(parent, _) => 1 + Depth(parent)
  }

  /** How many tokens page `i` looks at beyond its own end: one in a shifted group. */
  function Lookahead(eagle: bool): nat {
    if eagle then 1 else 0
  }

  function NumFullPages(len: nat, size: nat, eagle: bool): nat
    requires size > 0
  {
    if eagle then Max(0, len - 1) / size else len / size
  }

  /** `i * size`, the first token of page `i`. */
  function PageStart(size: nat, i: nat): nat {
    if i == 0 then 0 else PageStart(size, i - 1) + size
  }

  /** One past the last token the hash of page `i` looks at. */
  function PageReach(size: nat, eagle: bool, i: nat): nat {
    PageStart(size, i) + size + Lookahead(eagle)
  }

  lemma {:induction false} PageStartIsProduct(size: nat, i: nat)
    ensures PageStart(size, i) == i * size
  {
    if i > 0 {
      PageStartIsProduct(size, i - 1);
      assert (i - 1) * size + size == i * size;
    }
  }

  lemma PageFits(len: nat, size: nat, eagle: bool, i: nat)
    requires size > 0 && i < NumFullPages(len, size, eagle)
    ensures PageReach(size, eagle, i) <= len
  {
    var usable := if eagle then Max(0, len - 1) else len;
    PageStartIsProduct(size, i + 1);
    DivisionBound(i + 1, usable, size);
  }

  /** A prompt of `len` tokens has `n` full pages exactly when it reaches the end of the last of
      them and, in a shifted group, the token after it. */
  lemma FullPagesExact(len: nat, size: nat, eagle: bool, n: nat)
    requires size > 0
    ensures n <= NumFullPages(len, size, eagle) <==> n == 0 || n * size + (if eagle then 1 else 0) <= len
  {
    var usable := if eagle then Max(0, len - 1) else len;
    WholePages(usable, size, n);
    if n > 0 { Times(1, n, size); }
  }

  lemma WholePages(n: nat, d: nat, k: nat)
    requires d > 0
    ensures k <= n / d <==> k * d <= n
  {
    var q := n / d;
    assert n == d * q + n % d;
    if k <= q { Times(k, q, d); } else { Times(q + 1, k, d); }
    assert (q + 1) * d == q * d + d;
  }

  lemma DivisionBound(k: nat, n: nat, d: nat)
    requires d > 0 && k <= n / d
    ensures k * d <= n
  {
    var q := n / d;
    assert q * d <= n;
    assert k * d <= q * d;
  }

  lemma DivisionMonotone(m: nat, n: nat, d: nat)
    requires d > 0 && m <= n
    ensures m / d <= n / d
  {
    var k := m / d - n / d;
    assert m == d * (m / d) + m % d && n == d * (n / d) + n % d;
    assert d * k == d * (m / d) - d * (n / d);
    assert k >= 1 ==> d * k >= d;
  }

  function PageTokens(tokens: seq<Token>, size: nat, eagle: bool, i: nat): seq<Token>
    requires PageReach(size, eagle, i) <= |tokens|
  {
    tokens[PageStart(size, i)..PageReach(size, eagle, i)]
  }

  /** The chained hash of page `i`. */
  function PageHash(tokens: seq<Token>, size: nat, eagle: bool, i: nat): (h: Hash)
    requires PageReach(size, eagle, i) <= |tokens|
    ensures Depth(h) == i + 1
  {
    Chain(if i == 0 then Root else PageHash(tokens, size, eagle, i - 1),
          PageTokens(tokens, size, eagle, i))
  }

  /** The hashes of all full pages of a prompt. */
  function PageHashes(tokens: seq<Token>, size: nat, eagle: bool): (hs: seq<Hash>)
    requires size > 0
    ensures |hs| == NumFullPages(|tokens|, size, eagle)
    ensures forall i :: 0 <= i < |hs| ==> Depth(hs[i]) == i + 1
  {
    var n := NumFullPages(|tokens|, size, eagle);
    seq(n, i requires 0 <= i < n => PageFits(|tokens|, size, eagle, i); PageHash(tokens, size, eagle, i))
  }

  /** The running parent makes the next hash. */
  lemma NextPageHash(tokens: seq<Token>, size: nat, eagle: bool, i: nat)
    requires size > 0 && i < NumFullPages(|tokens|, size, eagle)
    ensures |PageHashes(tokens, size, eagle)| == NumFullPages(|tokens|, size, eagle)
    ensures PageStart(size, i + 1) == PageStart(size, i) + size
    ensures PageStart(size, i) + size + Lookahead(eagle) <= |tokens|
    ensures
      var hs := PageHashes(tokens, size, eagle);
      hs[i] == Chain(if i == 0 then Root else hs[i - 1],
        tokens[PageStart(size, i)..PageStart(size, i) + size + Lookahead(eagle)])
  {
    PageFits(|tokens|, size, eagle, i);
  }

  /** `_iter_token_block_hashes` and `_iter_eagle_token_block_hashes`: a running parent hash. */
  method ComputePageHashes(tokens: seq<Token>, size: nat, eagle: bool) returns (hs: seq<Hash>)
    requires size > 0
    ensures hs == PageHashes(tokens, size, eagle)
  {
    hide PageHash, PageHashes, NumFullPages, Lookahead;
    hs := [];
    var parent := Root;
    var start := 0;
    var n := NumFullPages(|tokens|, size, eagle);
    for i := 0 to n
      invariant |hs| == i && start == PageStart(size, i)
      invariant hs == PageHashes(tokens, size, eagle)[..i]
      invariant parent == if i == 0 then Root else hs[i - 1]
    {
      NextPageHash(tokens, size, eagle, i);
      parent := Chain(parent, tokens[start..start + size + Lookahead(eagle)]);
      hs := hs + [parent];
      start := start + size;
    }
  }

  lemma ReachExact(size: nat, eagle: bool, i: nat)
    ensures PageReach(size, eagle, i) == (i + 1) * size + (if eagle then 1 else 0)
  {
    PageStartIsProduct(size, i + 1);
  }

  /** One hash names one whole prefix: two prompts agree on the hash of page `i` exactly when
      they agree on every token up to the end of the page and, in a shifted group, on the token
      after it. */
  lemma PageHashNamesPrefix(a: seq<Token>, b: seq<Token>, size: nat, eagle: bool, i: nat)
    requires (i + 1) * size + (if eagle then 1 else 0) <= Min(|a|, |b|)
    ensures PageReach(size, eagle, i) <= |a| && PageReach(size, eagle, i) <= |b|
    ensures
      var end := (i + 1) * size + (if eagle then 1 else 0);
      PageHash(a, size, eagle, i) == PageHash(b, size, eagle, i) <==> a[..end] == b[..end]
  {
    ReachExact(size, eagle, i);
    HashNamesReach(a, b, size, eagle, i);
  }

  lemma {:induction false} HashNamesReach(a: seq<Token>, b: seq<Token>, size: nat, eagle: bool, i: nat)
    requires PageReach(size, eagle, i) <= |a| && PageReach(size, eagle, i) <= |b|
    ensures PageHash(a, size, eagle, i) == PageHash(b, size, eagle, i)
       <==> a[..PageReach(size, eagle, i)] == b[..PageReach(size, eagle, i)]
  {
    var lo, hi := PageStart(size, i), PageReach(size, eagle, i);
    assert a[lo..hi] == a[..hi][lo..] && b[lo..hi] == b[..hi][lo..];
    if i > 0 {
      var cut := PageReach(size, eagle, i - 1);
      HashNamesReach(a, b, size, eagle, i - 1);
      assert a[..cut] == a[..hi][..cut] && b[..cut] == b[..hi][..cut];
      assert a[..lo] == a[..cut][..lo] && b[..lo] == b[..cut][..lo];
    }
    assert a[..hi] == a[..lo] + a[lo..hi] && b[..hi] == b[..lo] + b[lo..hi];
  }
}
