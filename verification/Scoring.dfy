/** Candidate scoring of scheduler_mds.go: what each resolver is worth.  Scores are exact reals. */
module Scoring {
  import opened Metrics

  /** MDSParams as read from the configuration. */
  datatype RawParams = RawParams(
    warmupSamples: nat,
    penaltyMinSamples: nat,
    switchMargin: real,
    tieBand: real,
    dwell: int,
    exploreProb: real,
    breakerThreshold: nat,
    halfOpenInterval: int,
    weightTimeout: real,
    weightErrors: real,
    weightServfail: real,
    weightBogus: real,
    weightTruncated: real,
    weightFallback: real,
    weightConnNew: real,
    weightJitter: real)

  const DEFAULT_PARAMS := RawParams(
    20, 10, 0.15, 0.03, 5_000_000_000, 0.15, 3, 10_000_000_000,
    0.5, 0.3, 0.2, 0.5, 0.05, 0.1, 0.05, 0.1)

  /** The part of the configuration's range checks that matters here. */
  predicate InRange(p: RawParams) {
    && p.penaltyMinSamples >= 1
    && 0.0 <= p.tieBand <= p.switchMargin && p.tieBand <= 0.5
    && p.halfOpenInterval >= 0
    && p.dwell >= 0
    && p.breakerThreshold < 0x1_0000_0000
    && p.weightTimeout >= 0.0 && p.weightErrors >= 0.0 && p.weightServfail >= 0.0
    && p.weightBogus >= 0.0 && p.weightTruncated >= 0.0 && p.weightFallback >= 0.0
    && p.weightConnNew >= 0.0 && p.weightJitter >= 0.0
  }

  type Params = p: RawParams | InRange(p) witness DEFAULT_PARAMS

  /** One resolver as the scheduler sees it: its stamp, its window and its p95 reading. */
  datatype Candidate = Candidate(
    name: string,
    initialRtt: nat,
    noFilter: bool,
    dnssec: bool,
    window: Window,
    hasP95: bool,
    p95: int)

  /** mdsCircuit, the breaker of one resolver. */
  datatype Circuit = Circuit(
    consecHardFails: nat,
    open: bool,
    probing: bool,
    openedAt: int,
    nextProbeAt: int,
    recoverUntilTotal: nat)

  const NEW_CIRCUIT := Circuit(0, false, false, 0, 0, 0)

  type Circuits = map<string, Circuit>

  /** The breaker of a resolver that was never heard from is a fresh one. */
  function CircuitOf(cs: Circuits, name: string): Circuit {
    if name in cs then cs[name] else NEW_CIRCUIT
  }

  datatype Scored = Scored(
    name: string,
    warming: bool,
    open: bool,
    tailMs: real,
    cost: real,
    penalty: real,
    base: real,
    soft: real)

  // ---------- scoring one candidate ----------

  predicate IsWarming(p: Params, cs: Circuits, name: string, totalSamples: nat) {
    totalSamples < p.warmupSamples || CircuitOf(cs, name).recoverUntilTotal > totalSamples
  }

  function Tail(c: Candidate, warming: bool): real {
    var initial := c.initialRtt as real;
    if warming then initial else
    var latency := if c.window.latencyEwmaMs <= 0.0 then initial else c.window.latencyEwmaMs;
    var tail := if c.hasP95 then 0.6 * latency + 0.4 * (c.p95 as real / 1000000.0) else latency;
    if tail <= 0.0 then initial else tail
  }

  function Rate(n: nat, samples: nat): real
    requires samples > 0
  {
    n as real / samples as real
  }

  function Term(weight: real, n: nat, samples: nat): real
    requires samples > 0
  {
    weight * Rate(n, samples)
  }

  function JitterTerm(weight: real, jitter: real, tail: real): real {
    weight * if tail > 0.0 then Min(1.0, jitter / tail) else 0.0
  }

  function Penalty(p: Params, c: Candidate, warming: bool, tail: real): real {
    var w := c.window.counts;
    if warming || w.total < p.penaltyMinSamples then 0.0 else
    Term(p.weightTimeout, w.timeout, w.total)
    + Term(p.weightErrors, w.errors, w.total)
    + Term(p.weightServfail, w.servfail, w.total)
    + Term(p.weightBogus, w.dnssecBogus, w.total)
    + Term(p.weightTruncated, w.upstreamTruncated + w.localTruncated, w.total)
    + Term(p.weightFallback, w.tcpFallback + w.quicFallback, w.total)
    + Term(p.weightConnNew, w.connNew, w.total)
    + JitterTerm(p.weightJitter, c.window.jitterEwmaMs, tail)
  }

  function Min(a: real, b: real): real {
    if a < b then a else b
  }

  function Soft(p: Params, c: Candidate, warming: bool): real {
    var w := c.window.counts;
    (if c.noFilter then 1.0 else 0.0) + (if c.dnssec then 1.0 else 0.0)
    + if !warming && w.total >= p.penaltyMinSamples then Rate(w.ecsReturned, w.total) else 0.0
  }

  function Raw(p: Params, cs: Circuits, c: Candidate): Scored {
    var warming := IsWarming(p, cs, c.name, c.window.totalSamples);
    var tail := Tail(c, warming);
    Scored(
      c.name, warming, CircuitOf(cs, c.name).open, tail, 0.0, Penalty(p, c, warming, tail), 0.0,
      Soft(p, c, warming))
  }

  // ---------- scoring them all ----------

  function BestTail(s: seq<Scored>): real
    requires s != []
  {
    if |s| == 1 then s[0].tailMs else
    Min(BestTail(s[..|s| - 1]), s[|s| - 1].tailMs)
  }

  function WorstTail(s: seq<Scored>): real {
    if s == [] then 0.0 else
    var w, t := WorstTail(s[..|s| - 1]), s[|s| - 1].tailMs;
    if t > w then t else w
  }

  function Normalized(s: Scored, best: real, worst: real): Scored {
    var spread := worst - best;
    var cost :=
      if spread > 0.000000001 then
        var x := (s.tailMs - best) / spread;
        if x < 0.0 then 0.0 else if x > 1.0 then 1.0 else x
      else 0.0;
    s.(cost := cost, base := 1.0 - cost - s.penalty)
  }

  function RawAll(p: Params, cs: Circuits, candidates: seq<Candidate>): seq<Scored> {
    seq(|candidates|, i requires 0 <= i < |candidates| => Raw(p, cs, candidates[i]))
  }

  function Scores(p: Params, cs: Circuits, candidates: seq<Candidate>): (r: seq<Scored>) {
    var raw := RawAll(p, cs, candidates);
    if raw == [] then [] else
    var best, worst := BestTail(raw), WorstTail(raw);
    seq(|raw|, i requires 0 <= i < |raw| => Normalized(raw[i], best, worst))
  }

  /** scoreAll: one pass for the raw figures and the extreme tails, one to normalize against them. */
  method ScoreAll(p: Params, cs: Circuits, candidates: seq<Candidate>) returns (scored: seq<Scored>)
    ensures scored == Scores(p, cs, candidates)
  {
    var raw, bestTail, worstTail := MeasureAll(p, cs, candidates);
    scored := NormalizeAll(raw, bestTail, worstTail);
  }

  lemma RawAllStep(p: Params, cs: Circuits, candidates: seq<Candidate>, i: nat)
    requires i < |candidates|
    ensures RawAll(p, cs, candidates[..i + 1]) == RawAll(p, cs, candidates[..i]) + [Raw(p, cs, candidates[i])]
  {
  }

  lemma {:induction false} TailsStep(raw: seq<Scored>, r: Scored)
    ensures BestTail(raw + [r]) == if raw == [] then r.tailMs else Min(BestTail(raw), r.tailMs)
    ensures WorstTail(raw + [r]) == if r.tailMs > WorstTail(raw) then r.tailMs else WorstTail(raw)
  {
    assert (raw + [r])[..|raw|] == raw;
  }

  method MeasureAll(p: Params, cs: Circuits, candidates: seq<Candidate>)
    returns (raw: seq<Scored>, bestTail: real, worstTail: real)
    ensures raw == RawAll(p, cs, candidates)
    ensures raw != [] ==> bestTail == BestTail(raw)
    ensures worstTail == WorstTail(raw)
  {
    raw, bestTail, worstTail := [], 0.0, 0.0;
    for i := 0 to |candidates|
      invariant raw == RawAll(p, cs, candidates[..i])
      invariant i > 0 ==> bestTail == BestTail(raw)
      invariant worstTail == WorstTail(raw)
    {
      var r := Raw(p, cs, candidates[i]);
      if i == 0 || r.tailMs < bestTail { bestTail := r.tailMs; }
      if r.tailMs > worstTail { worstTail := r.tailMs; }
      RawAllStep(p, cs, candidates, i);
      TailsStep(raw, r);
      raw := raw + [r];
    }
    assert candidates[..|candidates|] == candidates;
  }

  method NormalizeAll(raw: seq<Scored>, bestTail: real, worstTail: real) returns (scored: seq<Scored>)
    ensures scored == seq(|raw|, i requires 0 <= i < |raw| => Normalized(raw[i], bestTail, worstTail))
  {
    scored := raw;
    var spread := worstTail - bestTail;
    for i := 0 to |scored|
      invariant |scored| == |raw|
      invariant forall j :: 0 <= j < i ==> scored[j] == Normalized(raw[j], bestTail, worstTail)
      invariant forall j :: i <= j < |scored| ==> scored[j] == raw[j]
    {
      var cost := 0.0;
      if spread > 0.000000001 {
        cost := (scored[i].tailMs - bestTail) / spread;
        if cost < 0.0 {
          cost := 0.0;
        } else if cost > 1.0 {
          cost := 1.0;
        }
      }
      scored := scored[i := scored[i].(cost := cost, base := 1.0 - cost - scored[i].penalty)];
    }
  }

  // ---------- what the scores mean ----------

  lemma {:induction false} BestTailIsLeast(s: seq<Scored>)
    requires s != []
    ensures forall i :: 0 <= i < |s| ==> BestTail(s) <= s[i].tailMs
    ensures exists i :: 0 <= i < |s| && s[i].tailMs == BestTail(s)
  {
    if |s| > 1 {
      var init := s[..|s| - 1];
      BestTailIsLeast(init);
      var i :| 0 <= i < |init| && init[i].tailMs == BestTail(init);
      assert s[i].tailMs == BestTail(init);
      assert s[|s| - 1].tailMs >= BestTail(s);
    } else {
      assert s[0].tailMs == BestTail(s);
    }
  }

  lemma {:induction false} WorstTailIsGreatest(s: seq<Scored>)
    ensures WorstTail(s) >= 0.0
    ensures forall i :: 0 <= i < |s| ==> s[i].tailMs <= WorstTail(s)
  {
    if s != [] {
      var init := s[..|s| - 1];
      WorstTailIsGreatest(init);
      assert forall i :: 0 <= i < |init| ==> s[i] == init[i];
    }
  }

  lemma {:induction false} WorstTailWithin(s: seq<Scored>, bound: real)
    requires bound >= 0.0 && forall i :: 0 <= i < |s| ==> s[i].tailMs <= bound
    ensures WorstTail(s) <= bound
  {
    if s != [] { WorstTailWithin(s[..|s| - 1], bound); }
  }

  lemma DivideMonotone(x: real, y: real, d: real)
    requires x <= y && d > 0.0
    ensures x / d <= y / d
  {
    assert (y / d - x / d) * d == y - x;
  }

  lemma ProductNonNegative(x: real, y: real)
    requires x >= 0.0 && y >= 0.0
    ensures x * y >= 0.0
  {
  }

  lemma RateNonNegative(n: nat, samples: nat)
    requires samples > 0
    ensures Rate(n, samples) >= 0.0
  {
    DivideMonotone(0.0, n as real, samples as real);
  }

  lemma NormalizedCost(a: Scored, b: Scored, best: real, worst: real)
    requires best <= a.tailMs <= b.tailMs <= worst
    ensures 0.0 <= Normalized(a, best, worst).cost <= Normalized(b, best, worst).cost <= 1.0
    ensures a.tailMs == best ==> Normalized(a, best, worst).cost == 0.0
  {
    var d := worst - best;
    if d > 0.000000001 {
      DivideMonotone(a.tailMs - best, b.tailMs - best, d);
    }
  }

  lemma TermMonotone(weight: real, m: nat, n: nat, samples: nat)
    requires weight >= 0.0 && samples > 0 && m <= n
    ensures 0.0 <= Term(weight, m, samples) <= Term(weight, n, samples)
  {
    RateNonNegative(m, samples);
    DivideMonotone(m as real, n as real, samples as real);
    ProductNonNegative(weight, Rate(m, samples));
    ProductNonNegative(weight, Rate(n, samples) - Rate(m, samples));
  }

  lemma JitterTermMonotone(weight: real, x: real, y: real, tail: real)
    requires weight >= 0.0 && 0.0 <= x <= y
    ensures 0.0 <= JitterTerm(weight, x, tail) <= JitterTerm(weight, y, tail)
  {
    if tail > 0.0 {
      DivideMonotone(0.0, x, tail);
      DivideMonotone(x, y, tail);
      ProductNonNegative(weight, Min(1.0, x / tail));
      ProductNonNegative(weight, Min(1.0, y / tail) - Min(1.0, x / tail));
    }
  }

  /** Among as many samples, as many or fewer of each kind of trouble. */
  predicate NoMoreTrouble(v: Counters, w: Counters) {
    && v.total == w.total && v.timeout <= w.timeout && v.errors <= w.errors && v.servfail <= w.servfail
    && v.dnssecBogus <= w.dnssecBogus
    && v.upstreamTruncated + v.localTruncated <= w.upstreamTruncated + w.localTruncated
    && v.tcpFallback + v.quicFallback <= w.tcpFallback + w.quicFallback && v.connNew <= w.connNew
  }

  /** The penalty is never a bonus, and more trouble of any kind or more jitter never lowers it. */
  lemma PenaltyMonotone(p: Params, c: Candidate, d: Candidate, warming: bool, tail: real)
    requires NoMoreTrouble(c.window.counts, d.window.counts)
    requires 0.0 <= c.window.jitterEwmaMs <= d.window.jitterEwmaMs
    ensures 0.0 <= Penalty(p, c, warming, tail) <= Penalty(p, d, warming, tail)
  {
    var v, w := c.window.counts, d.window.counts;
    if !warming && w.total >= p.penaltyMinSamples {
      JitterTermMonotone(p.weightJitter, c.window.jitterEwmaMs, d.window.jitterEwmaMs, tail);
      TermMonotone(p.weightTimeout, v.timeout, w.timeout, w.total);
      TermMonotone(p.weightErrors, v.errors, w.errors, w.total);
      TermMonotone(p.weightServfail, v.servfail, w.servfail, w.total);
      TermMonotone(p.weightBogus, v.dnssecBogus, w.dnssecBogus, w.total);
      TermMonotone(
        p.weightTruncated, v.upstreamTruncated + v.localTruncated, w.upstreamTruncated + w.localTruncated, w.total);
      TermMonotone(p.weightFallback, v.tcpFallback + v.quicFallback, w.tcpFallback + w.quicFallback, w.total);
      TermMonotone(p.weightConnNew, v.connNew, w.connNew, w.total);
    }
  }

  /** What a candidate's score says: costs are relative to the pool (the fastest tail costs nothing, a
      slower tail never costs less), penalties only lower a score, and a resolver that is warming up
      or on recovery probation is judged by latency alone. */
  lemma ScoresRankByTail(p: Params, cs: Circuits, candidates: seq<Candidate>, i: nat, j: nat)
    requires i < |candidates| && j < |candidates|
    requires candidates[j].window.jitterEwmaMs >= 0.0
    ensures
      var s := Scores(p, cs, candidates);
      && 0.0 <= s[j].cost <= 1.0
      && (s[i].tailMs <= s[j].tailMs ==> s[i].cost <= s[j].cost)
      && ((forall k :: 0 <= k < |s| ==> s[j].tailMs <= s[k].tailMs) ==> s[j].cost == 0.0)
      && s[j].base <= 1.0 - s[j].cost
      && (s[j].warming ==> s[j].base == 1.0 - s[j].cost)
  {
    var raw, s := RawAll(p, cs, candidates), Scores(p, cs, candidates);
    BestTailIsLeast(raw);
    WorstTailIsGreatest(raw);
    NormalizedCost(raw[j], raw[j], BestTail(raw), WorstTail(raw));
    if raw[i].tailMs <= raw[j].tailMs { NormalizedCost(raw[i], raw[j], BestTail(raw), WorstTail(raw)); }
    if forall k :: 0 <= k < |s| ==> s[j].tailMs <= s[k].tailMs {
      var k :| 0 <= k < |raw| && raw[k].tailMs == BestTail(raw);
      assert s[j].tailMs <= s[k].tailMs;
    }
    PenaltyMonotone(p, candidates[j], candidates[j], raw[j].warming, raw[j].tailMs);
  }

  // ---------- what each figure is worth ----------

  /** Enough samples in the window for them to be judged. */
  predicate Judged(p: Params, c: Candidate, warming: bool) {
    !warming && c.window.counts.total >= p.penaltyMinSamples
  }

  /** No kind of trouble was counted, and latencies were steady. */
  predicate Spotless(c: Candidate) {
    var w := c.window.counts;
    && w.timeout == w.errors == w.servfail == w.dnssecBogus == w.upstreamTruncated == w.localTruncated == 0
    && w.tcpFallback == w.quicFallback == w.connNew == 0 && c.window.jitterEwmaMs == 0.0
  }

  /** Without trouble, or without enough samples to judge by, there is no penalty. */
  lemma SpotlessIsFree(p: Params, c: Candidate, warming: bool, tail: real)
    requires Spotless(c) || !Judged(p, c, warming)
    ensures Penalty(p, c, warming, tail) == 0.0
  {
    if Judged(p, c, warming) {
      forall weight | true ensures Term(weight, 0, c.window.counts.total) == 0.0 {}
    }
  }

  lemma OneMore(weight: real, n: nat, samples: nat)
    requires samples > 0
    ensures Term(weight, n + 1, samples) == Term(weight, n, samples) + weight / samples as real
  {
  }

  function WithCounts(c: Candidate, w: Counters): Candidate {
    c.(window := c.window.(counts := w))
  }

  /** Among as many samples, one more of a kind of trouble costs exactly the weight of that kind, spread over the
      samples. */
  lemma TroubleCosts(p: Params, c: Candidate, tail: real)
    requires Judged(p, c, false)
    ensures
      var w, n := c.window.counts, c.window.counts.total as real;
      var base := Penalty(p, c, false, tail);
      && Penalty(p, WithCounts(c, w.(timeout := w.timeout + 1)), false, tail) == base + p.weightTimeout / n
      && Penalty(p, WithCounts(c, w.(errors := w.errors + 1)), false, tail) == base + p.weightErrors / n
      && Penalty(p, WithCounts(c, w.(servfail := w.servfail + 1)), false, tail) == base + p.weightServfail / n
      && Penalty(p, WithCounts(c, w.(dnssecBogus := w.dnssecBogus + 1)), false, tail) == base + p.weightBogus / n
      && Penalty(p, WithCounts(c, w.(connNew := w.connNew + 1)), false, tail) == base + p.weightConnNew / n
  {
    var w := c.window.counts;
    OneMore(p.weightTimeout, w.timeout, w.total);
    OneMore(p.weightErrors, w.errors, w.total);
    OneMore(p.weightServfail, w.servfail, w.total);
    OneMore(p.weightBogus, w.dnssecBogus, w.total);
    OneMore(p.weightConnNew, w.connNew, w.total);
  }

  /** The two kinds of truncation weigh the same, and so do the two kinds of fallback. */
  lemma PairedTroubleCosts(p: Params, c: Candidate, tail: real)
    requires Judged(p, c, false)
    ensures
      var w, n := c.window.counts, c.window.counts.total as real;
      var base := Penalty(p, c, false, tail);
      && Penalty(p, WithCounts(c, w.(upstreamTruncated := w.upstreamTruncated + 1)), false, tail)
         == base + p.weightTruncated / n
      && Penalty(p, WithCounts(c, w.(localTruncated := w.localTruncated + 1)), false, tail)
         == base + p.weightTruncated / n
      && Penalty(p, WithCounts(c, w.(tcpFallback := w.tcpFallback + 1)), false, tail) == base + p.weightFallback / n
      && Penalty(p, WithCounts(c, w.(quicFallback := w.quicFallback + 1)), false, tail) == base + p.weightFallback / n
  {
    var w := c.window.counts;
    OneMore(p.weightTruncated, w.upstreamTruncated + w.localTruncated, w.total);
    OneMore(p.weightFallback, w.tcpFallback + w.quicFallback, w.total);
  }

  /** Successes, reused connections and client-subnet answers cost nothing. */
  lemma OthersAreFree(p: Params, c: Candidate, warming: bool, tail: real, success: nat, reused: nat, ecs: nat)
    ensures
      var w := c.window.counts.(success := success, connReused := reused, ecsReturned := ecs);
      Penalty(p, WithCounts(c, w), warming, tail) == Penalty(p, c, warming, tail)
  {
  }

  /** Jitter costs its weight times its share of the tail latency, all of it once it exceeds the tail. */
  lemma JitterCosts(p: Params, c: Candidate, tail: real)
    requires Judged(p, c, false)
    ensures
      var jitter := c.window.jitterEwmaMs;
      var steady := c.(window := c.window.(jitterEwmaMs := 0.0));
      Penalty(p, c, false, tail) == Penalty(p, steady, false, tail) +
        if tail <= 0.0 then 0.0 else if jitter >= tail then p.weightJitter else p.weightJitter * (jitter / tail)
  {
    var jitter := c.window.jitterEwmaMs;
    if tail > 0.0 {
      assert 0.0 / tail == 0.0;
      DivideMonotone(if jitter < tail then jitter else tail, if jitter < tail then tail else jitter, tail);
      assert tail / tail == 1.0;
    }
  }

  /** What a scored resolver reports of itself: the stamp's round trip while it is warming; otherwise its average, or
      three parts average and two parts 95th percentile; and one point of preference for each claim of its stamp. */
  lemma ScoredFigures(p: Params, cs: Circuits, candidates: seq<Candidate>, i: nat)
    requires i < |candidates|
    ensures
      var c, s := candidates[i], Scores(p, cs, candidates)[i];
      var w, initial, average := c.window.counts, c.initialRtt as real, c.window.latencyEwmaMs;
      && s.penalty == Penalty(p, c, s.warming, s.tailMs)
      && (s.warming <==>
            c.window.totalSamples < p.warmupSamples
            || (c.name in cs && cs[c.name].recoverUntilTotal > c.window.totalSamples))
      && (s.warming || (average <= 0.0 && !c.hasP95) ==> s.tailMs == initial)
      && (!s.warming && average > 0.0 && !c.hasP95 ==> s.tailMs == average)
      && (!s.warming && average > 0.0 && c.hasP95 && c.p95 >= 0 ==>
            5.0 * s.tailMs == 3.0 * average + 2.0 * (c.p95 as real / 1000000.0))
      && (!s.warming && average <= 0.0 && c.hasP95 && initial > 0.0 && c.p95 >= 0 ==>
            5.0 * s.tailMs == 3.0 * initial + 2.0 * (c.p95 as real / 1000000.0))
      && s.soft == (if c.noFilter then 1.0 else 0.0) + (if c.dnssec then 1.0 else 0.0)
           + if Judged(p, c, s.warming) then w.ecsReturned as real / w.total as real else 0.0
  {
  }

  /** The lowest and the highest tail latency of a pool. */
  ghost predicate Extremes(s: seq<Scored>, fastest: nat, slowest: nat) {
    && fastest < |s| && slowest < |s| && s[slowest].tailMs >= 0.0
    && forall j :: 0 <= j < |s| ==> s[fastest].tailMs <= s[j].tailMs <= s[slowest].tailMs
  }

  lemma {:induction false} ExtremeTails(raw: seq<Scored>, fastest: nat, slowest: nat)
    requires Extremes(raw, fastest, slowest)
    ensures BestTail(raw) == raw[fastest].tailMs && WorstTail(raw) == raw[slowest].tailMs
  {
    BestTailIsLeast(raw);
    WorstTailIsGreatest(raw);
    WorstTailWithin(raw, raw[slowest].tailMs);
  }

  /** The score: one, less the penalty, less how far the tail is from the best one on the way to the worst. */
  ghost predicate Graded(s: Scored, best: real, worst: real) {
    && s.base == 1.0 - s.cost - s.penalty
    && (worst - best > 0.000000001 ==> s.cost * (worst - best) == s.tailMs - best)
    && (worst - best <= 0.000000001 ==> s.cost == 0.0)
  }

  lemma NormalizedIsGraded(s: Scored, best: real, worst: real)
    requires best <= s.tailMs <= worst
    ensures Graded(Normalized(s, best, worst), best, worst)
  {
    var spread := worst - best;
    if spread > 0.000000001 {
      NormalizedCost(s, s, best, worst);
      DivideMonotone(0.0, s.tailMs - best, spread);
      DivideMonotone(s.tailMs - best, spread, spread);
      assert ((s.tailMs - best) / spread) * spread == s.tailMs - best;
    }
  }

  lemma NormalizedAll(p: Params, cs: Circuits, candidates: seq<Candidate>, i: nat)
    requires i < |candidates|
    ensures
      var raw, s := RawAll(p, cs, candidates), Scores(p, cs, candidates);
      |raw| == |s| == |candidates| && s[i] == Normalized(raw[i], BestTail(raw), WorstTail(raw))
  {
  }

  lemma ScoresAreGraded(p: Params, cs: Circuits, candidates: seq<Candidate>, i: nat, fastest: nat, slowest: nat)
    requires i < |candidates| && Extremes(Scores(p, cs, candidates), fastest, slowest)
    ensures
      var s := Scores(p, cs, candidates);
      Graded(s[i], s[fastest].tailMs, s[slowest].tailMs)
  {
    var raw, s := RawAll(p, cs, candidates), Scores(p, cs, candidates);
    forall j | 0 <= j < |raw| ensures raw[j].tailMs == s[j].tailMs { NormalizedAll(p, cs, candidates, j); }
    assert Extremes(raw, fastest, slowest);
    ExtremeTails(raw, fastest, slowest);
    NormalizedIsGraded(raw[i], BestTail(raw), WorstTail(raw));
    NormalizedAll(p, cs, candidates, i);
  }
}
