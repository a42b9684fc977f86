/** The geometric latency histogram of scheduler_metrics.go, and the order statistics that a
    histogram can answer.  Latencies are nanosecond integers (Go's `time.Duration`); bucket edges
    are exact reals in milliseconds. */
module Latency {

  const FIRST_MS: real := 1.0
  const GROWTH: real := 1.25
  const MAX_MS: real := 10000.0
  const NS_PER_MS: real := 1000000.0

  // ---------- bucket edges ----------

  function EdgesFrom(v: real): seq<real>
    requires v >= FIRST_MS
    decreases 4.0 * (MAX_MS - v)
  {
    if v < MAX_MS then [v] + EdgesFrom(v * GROWTH) else [MAX_MS]
  }

  function Edges(): seq<real> {
    EdgesFrom(FIRST_MS)
  }

  /** What any geometric edge table from `v` upward looks like. */
  ghost predicate EdgeTable(edges: seq<real>, v: real) {
    && |edges| > 0
    && edges[0] == (if v < MAX_MS then v else MAX_MS)
    && edges[|edges| - 1] == MAX_MS
    && (forall i, j :: 0 <= i < j < |edges| ==> edges[i] < edges[j])
    && (forall i :: 0 <= i < |edges| - 1 ==> Step(edges, i) <= GROWTH * edges[i])
  }

  ghost function Step(edges: seq<real>, i: int): real
    requires 0 <= i < |edges| - 1
  {
    edges[i + 1]
  }

  lemma EdgeTableCons(v: real, rest: seq<real>)
    requires FIRST_MS <= v < MAX_MS
    requires EdgeTable(rest, v * GROWTH)
    ensures EdgeTable([v] + rest, v)
  {
    var all := [v] + rest;
    forall i, j | 0 <= i < j < |all| ensures all[i] < all[j] {
      assert v < rest[0] <= rest[j - 1];
    }
    forall i | 0 <= i < |all| - 1 ensures Step(all, i) <= GROWTH * all[i] {
      if i > 0 { assert Step(rest, i - 1) <= GROWTH * rest[i - 1]; }
    }
  }

  lemma {:induction false} EdgesFromIsTable(v: real)
    requires v >= FIRST_MS
    ensures EdgeTable(EdgesFrom(v), v)
    decreases 4.0 * (MAX_MS - v)
  {
    if v < MAX_MS {
      EdgesFromIsTable(v * GROWTH);
      EdgeTableCons(v, EdgesFrom(v * GROWTH));
    }
  }

  lemma EdgesAreTable()
    ensures EdgeTable(Edges(), FIRST_MS)
  {
    EdgesFromIsTable(FIRST_MS);
  }

  lemma EdgesFromStep(done: seq<real>, v: real)
    requires FIRST_MS <= v < MAX_MS
    ensures v * GROWTH >= v + 0.25
    ensures done + EdgesFrom(v) == (done + [v]) + EdgesFrom(v * GROWTH)
  {
  }

  /** buildLatencyBucketEdges: the table is strictly increasing, starts at 1 ms, ends at 10 s and
      no edge exceeds its predecessor by more than 25%. */
  method BuildLatencyBucketEdges() returns (edges: seq<real>)
    ensures edges == Edges()
    ensures EdgeTable(edges, FIRST_MS)
  {
    edges := [];
    var v := FIRST_MS;
    while v < MAX_MS
      invariant v >= FIRST_MS
      invariant edges + EdgesFrom(v) == Edges()
      decreases 4.0 * (MAX_MS - v)
    {
      EdgesFromStep(edges, v);
      edges := edges + [v];
      v := v * GROWTH;
    }
    edges := edges + [MAX_MS];
    EdgesAreTable();
  }

  // ---------- bucket of a latency ----------

  /** sort.SearchFloat64s: the least index whose edge is at least x, or the length. */
  function FirstAtLeast(edges: seq<real>, x: real): (i: nat)
    ensures i <= |edges|
    ensures forall j :: 0 <= j < i ==> edges[j] < x
    ensures i < |edges| ==> edges[i] >= x
  {
    if edges == [] || edges[0] >= x then 0 else
    var rest := FirstAtLeast(edges[1..], x);
    assert forall j :: 1 <= j < rest + 1 ==> edges[j] == edges[1..][j - 1];
    rest + 1
  }

  function BucketIndex(ms: real): nat {
    EdgesAreTable();
    if ms <= Edges()[0] then 0
    else if ms >= MAX_MS then |Edges()| - 1
    else FirstAtLeast(Edges(), ms)
  }

  function Ms(d: int): real {
    var ms := d as real / NS_PER_MS;
    if ms < 0.0 then 0.0 else ms
  }

  function BucketOf(d: int): nat {
    BucketIndex(Ms(d))
  }

  /** The duration Percentile reports for a bucket: its upper edge, truncated to nanoseconds. */
  function EdgeNs(b: nat): int
    requires b < |Edges()|
  {
    (Edges()[b] * NS_PER_MS).Floor
  }

  /** latencyBucketIndex is the one bucket whose half-open interval holds the latency: everything
      up to 1 ms is in the first bucket and everything from 10 s up in the last. */
  lemma BucketHoldsLatency(d: int)
    ensures BucketOf(d) < |Edges()|
    ensures BucketOf(d) > 0 ==> Edges()[BucketOf(d) - 1] < Ms(d)
    ensures Ms(d) <= MAX_MS ==> Ms(d) <= Edges()[BucketOf(d)]
    ensures Ms(d) >= MAX_MS ==> BucketOf(d) == |Edges()| - 1
  {
    EdgesAreTable();
    var e := Edges();
    if e[0] < Ms(d) < MAX_MS {
      var i := FirstAtLeast(e, Ms(d));
      assert i < |e|;
    } else if Ms(d) >= MAX_MS {
      assert |e| >= 2;
      assert e[|e| - 2] < e[|e| - 1];
    }
  }

  lemma BucketMonotone(c: int, d: int)
    requires c <= d
    ensures BucketOf(c) <= BucketOf(d)
  {
    EdgesAreTable();
    BucketHoldsLatency(c);
    BucketHoldsLatency(d);
    var e := Edges();
    assert Ms(c) <= Ms(d);
    if Ms(d) < MAX_MS {
      assert BucketOf(c) > 0 ==> e[BucketOf(c) - 1] < e[BucketOf(d)];
    }
  }

  lemma EdgeNsMonotone(a: nat, b: nat)
    requires a <= b < |Edges()|
    ensures EdgeNs(a) <= EdgeNs(b)
  {
    EdgesAreTable();
  }

  /** The reported edge bounds the latency from above, by at most a quarter of the latency itself
      above 1 ms; truncation to nanoseconds costs nothing because latencies are whole nanoseconds.
      Above 10 s the report saturates. */
  lemma EdgeBoundsLatency(d: int)
    ensures BucketOf(d) < |Edges()|
    ensures d <= 10_000_000_000 ==> d <= EdgeNs(BucketOf(d))
    ensures 1_000_000 < d ==> 4 * EdgeNs(BucketOf(d)) <= 5 * d
    ensures d <= 1_000_000 ==> EdgeNs(BucketOf(d)) == 1_000_000
    ensures d >= 10_000_000_000 ==> EdgeNs(BucketOf(d)) == 10_000_000_000
  {
    EdgesAreTable();
    BucketHoldsLatency(d);
    var e, b := Edges(), BucketOf(d);
    if d <= 10_000_000_000 {
      assert Ms(d) <= MAX_MS;
      assert d as real <= Ms(d) * NS_PER_MS;
    }
    if 1_000_000 < d {
      assert Ms(d) > FIRST_MS;
      assert b > 0;
      assert Step(e, b - 1) <= GROWTH * e[b - 1];
      assert e[b] < GROWTH * Ms(d);
      assert EdgeNs(b) as real <= e[b] * NS_PER_MS;
      assert 4.0 * EdgeNs(b) as real <= 5.0 * d as real;
    }
  }

  // ---------- order statistics ----------

  ghost predicate Sorted(s: seq<int>) {
    forall i, j :: 0 <= i < j < |s| ==> s[i] <= s[j]
  }

  function Insert(x: int, s: seq<int>): seq<int> {
    if s == [] then [x]
    else if x <= s[0] then [x] + s
    else [s[0]] + Insert(x, s[1..])
  }

  lemma {:induction false} InsertIsPermutation(x: int, s: seq<int>)
    ensures |Insert(x, s)| == |s| + 1
    ensures multiset(Insert(x, s)) == multiset(s) + multiset{x}
  {
    if s != [] {
      assert s == [s[0]] + s[1..];
      InsertIsPermutation(x, s[1..]);
    }
  }

  lemma {:induction false} InsertKeepsSorted(x: int, s: seq<int>)
    requires Sorted(s)
    ensures Sorted(Insert(x, s))
  {
    if s != [] && x > s[0] {
      var rest := Insert(x, s[1..]);
      InsertKeepsSorted(x, s[1..]);
      InsertIsPermutation(x, s[1..]);
      forall j | 0 <= j < |rest| ensures s[0] <= rest[j] {
        assert rest[j] in multiset(rest);
      }
    }
  }

  /** Insertion sort, as the reference notion of "the k-th smallest". */
  function SortInts(s: seq<int>): (r: seq<int>)
    ensures |r| == |s|
    ensures Sorted(r)
    ensures multiset(r) == multiset(s)
  {
    if s == [] then [] else
    var init := SortInts(s[..|s| - 1]);
    assert s == s[..|s| - 1] + [s[|s| - 1]];
    InsertIsPermutation(s[|s| - 1], init);
    InsertKeepsSorted(s[|s| - 1], init);
    Insert(s[|s| - 1], init)
  }

  /** Number of latencies falling in buckets 0..b. */
  function CountUpTo(s: seq<int>, b: int): (n: nat)
    ensures n <= |s|
  {
    if s == [] then 0
    else CountUpTo(s[..|s| - 1], b) + if BucketOf(s[|s| - 1]) <= b then 1 else 0
  }

  function CountIn(s: seq<int>, b: int): (n: nat) {
    if s == [] then 0
    else CountIn(s[..|s| - 1], b) + if BucketOf(s[|s| - 1]) == b then 1 else 0
  }

  lemma {:induction false} CountUpToStep(s: seq<int>, b: int)
    ensures CountUpTo(s, b) == CountUpTo(s, b - 1) + CountIn(s, b)
  {
    if s != [] { CountUpToStep(s[..|s| - 1], b); }
  }

  lemma {:induction false} CountUpToEnds(s: seq<int>)
    ensures CountUpTo(s, -1) == 0
    ensures CountUpTo(s, |Edges()| - 1) == |s|
  {
    if s != [] {
      CountUpToEnds(s[..|s| - 1]);
      BucketHoldsLatency(s[|s| - 1]);
    }
  }

  lemma {:induction false} CountUpToConcat(s: seq<int>, t: seq<int>, b: int)
    ensures CountUpTo(s + t, b) == CountUpTo(s, b) + CountUpTo(t, b)
  {
    if t == [] {
      assert s + t == s;
    } else {
      assert (s + t)[..|s + t| - 1] == s + t[..|t| - 1];
      CountUpToConcat(s, t[..|t| - 1], b);
    }
  }

  lemma {:induction false} CountUpToInsert(x: int, s: seq<int>, b: int)
    ensures CountUpTo(Insert(x, s), b) == CountUpTo(s, b) + CountUpTo([x], b)
  {
    if s == [] {
    } else if x <= s[0] {
      CountUpToConcat([x], s, b);
    } else {
      CountUpToInsert(x, s[1..], b);
      assert s == [s[0]] + s[1..];
      CountUpToConcat([s[0]], s[1..], b);
      CountUpToConcat([s[0]], Insert(x, s[1..]), b);
    }
  }

  lemma {:induction false} CountUpToSort(s: seq<int>, b: int)
    ensures CountUpTo(SortInts(s), b) == CountUpTo(s, b)
  {
    if s != [] {
      var init, last := s[..|s| - 1], s[|s| - 1];
      CountUpToSort(init, b);
      CountUpToInsert(last, SortInts(init), b);
      assert [last][..0] == [];
      assert CountUpTo([last], b) == CountUpTo([last][..0], b) + if BucketOf(last) <= b then 1 else 0;
    }
  }

  /** In a sorted list the latencies of buckets 0..b are a prefix, so the r-th smallest is in one of
      those buckets exactly when at least r latencies are. */
  lemma {:induction false} RankThreshold(s: seq<int>, r: nat, b: int)
    requires Sorted(s)
    requires 1 <= r <= |s|
    ensures CountUpTo(s, b) >= r <==> BucketOf(s[r - 1]) <= b
  {
    var init, last := s[..|s| - 1], s[|s| - 1];
    BucketMonotone(s[r - 1], last);
    if r < |s| {
      RankThreshold(init, r, b);
    } else if |s| > 1 {
      RankThreshold(init, r - 1, b);
      BucketMonotone(s[r - 2], last);
    }
  }

  lemma RankInBucket(s: seq<int>, r: nat, b: nat)
    requires CountUpTo(s, b - 1) < r <= CountUpTo(s, b)
    ensures BucketOf(SortInts(s)[r - 1]) == b
  {
    CountUpToSort(s, b);
    CountUpToSort(s, b - 1);
    RankThreshold(SortInts(s), r, b);
    RankThreshold(SortInts(s), r, b - 1);
  }

  function Ceil(x: real): int {
    -((-x).Floor)
  }

  function Clamp01(p: real): real {
    if p < 0.0 then 0.0 else if p > 1.0 then 1.0 else p
  }

  function Product(x: real, y: real): real {
    x * y
  }

  lemma ScaleMonotone(n: real, x: real, y: real)
    requires n >= 0.0 && 0.0 <= x <= y <= 1.0
    ensures 0.0 <= Product(n, x) <= Product(n, y) <= n
  {
    assert Product(n, x) >= 0.0;
    assert n * (y - x) >= 0.0;
    assert n * (1.0 - y) >= 0.0;
  }

  function Share(n: nat, p: real): real {
    Product(n as real, Clamp01(p))
  }

  lemma ShareMonotone(n: nat, p: real, q: real)
    requires p <= q
    ensures 0.0 <= Share(n, p) <= Share(n, q) <= n as real
  {
    var x, y := Clamp01(p), Clamp01(q);
    assert 0.0 <= x <= y <= 1.0;
    ScaleMonotone(n as real, x, y);
  }

  /** The nearest-rank position of quantile p among n samples: the least r >= 1 with r >= n * p. */
  function Rank(n: nat, p: real): (r: nat)
    requires n > 0
    ensures 1 <= r <= n
    ensures Share(n, p) <= r as real
    ensures r > 1 ==> (r - 1) as real < Share(n, p)
  {
    ShareMonotone(n, p, p);
    var c := Ceil(Share(n, p));
    if c == 0 then 1 else c
  }

  lemma RankMonotone(n: nat, p: real, q: real)
    requires n > 0 && p <= q
    ensures Rank(n, p) <= Rank(n, q)
  {
    ShareMonotone(n, p, q);
  }

  function NearestRank(s: seq<int>, p: real): int
    requires s != []
  {
    SortInts(s)[Rank(|s|, p) - 1]
  }

  /** What a quantile of the latencies s reads as on the histogram. */
  function Quantile(s: seq<int>, p: real): int
    requires s != []
  {
    BucketHoldsLatency(NearestRank(s, p));
    EdgeNs(BucketOf(NearestRank(s, p)))
  }

  lemma SortedAt(s: seq<int>, i: nat, j: nat)
    requires Sorted(s) && i <= j < |s|
    ensures s[i] <= s[j]
  {
  }

  lemma NearestRankMonotone(s: seq<int>, p: real, q: real)
    requires s != [] && p <= q
    ensures NearestRank(s, p) <= NearestRank(s, q)
  {
    RankMonotone(|s|, p, q);
    SortedAt(SortInts(s), Rank(|s|, p) - 1, Rank(|s|, q) - 1);
  }

  lemma EdgeOfBucketMonotone(x: int, y: int)
    requires x <= y
    ensures BucketOf(x) < |Edges()| && BucketOf(y) < |Edges()| && EdgeNs(BucketOf(x)) <= EdgeNs(BucketOf(y))
  {
    BucketMonotone(x, y);
    BucketHoldsLatency(x);
    BucketHoldsLatency(y);
    EdgeNsMonotone(BucketOf(x), BucketOf(y));
  }

  lemma QuantileMonotone(s: seq<int>, p: real, q: real)
    requires s != [] && p <= q
    ensures Quantile(s, p) <= Quantile(s, q)
  {
    NearestRankMonotone(s, p, q);
    EdgeOfBucketMonotone(NearestRank(s, p), NearestRank(s, q));
  }
}
