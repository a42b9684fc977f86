/** The tie-band results of Selection on what scoring produces: pools of resolvers, each with its window and its
    circuit, whose scores are not ordered by preference and whose scan drifts as far as the bound allows. */
module DriftingPools {
  import opened Metrics
  import opened Scoring
  import opened Selection

  const SLOW := "slow"
  const SLOW_OPEN: Circuits := map[SLOW := NEW_CIRCUIT.(open := true)]

  /** Enough samples to be past warmup and judged by them. */
  function Samples(p: Params, k: nat): nat {
    p.warmupSamples + p.penaltyMinSamples + k
  }

  /** A mature resolver without any trouble: a tail latency of 1 + extra ms, and `ecs` answers with client subnet. */
  function Smooth(p: Params, k: nat, name: string, extra: real, ecs: nat): Candidate {
    var n := Samples(p, k);
    Candidate(
      name, 1, false, false,
      Window(NO_COUNTS.(total := n, success := n, ecsReturned := ecs), n, 1.0 + extra * 5.0 / 3.0, 0.0, Seen(0, 0)),
      true, 1_000_000)
  }

  /** k resolvers, each one tie band slower than the one before and with one more such answer, and then a slow one
      whose circuit is open. */
  function Pool(p: Params, k: nat): seq<Candidate> {
    seq(k, i requires 0 <= i < k => Smooth(p, k, NumberedName(i), Drift(p, i), i)) + [Smooth(p, k, SLOW, 1.0, 0)]
  }

  function PoolScores(p: Params, k: nat): seq<Scored> {
    Scores(p, SLOW_OPEN, Pool(p, k))
  }

  lemma SmoothRaw(p: Params, k: nat, name: string, extra: real, ecs: nat)
    requires extra >= 0.0
    ensures Raw(p, SLOW_OPEN, Smooth(p, k, name, extra, ecs)) ==
            Scored(name, false, name == SLOW, 1.0 + extra, 0.0, 0.0, 0.0, ecs as real / Samples(p, k) as real)
  {
    SpotlessIsFree(p, Smooth(p, k, name, extra, ecs), false, 1.0 + extra);
  }

  lemma PoolRaw(p: Params, k: nat, i: nat)
    requires i <= k
    ensures
      var raw := RawAll(p, SLOW_OPEN, Pool(p, k));
      && raw[i].open == (i == k)
      && raw[i].tailMs == 1.0 + (if i < k then Drift(p, i) else 1.0)
      && raw[i].penalty == 0.0
      && (i < k ==> raw[i].name == NumberedName(i) && raw[i].soft == i as real / Samples(p, k) as real)
  {
    DriftStep(p, i);
    if i < k {
      assert NumberedName(i)[0] != SLOW[0];
      SmoothRaw(p, k, NumberedName(i), Drift(p, i), i);
    } else {
      SmoothRaw(p, k, SLOW, 1.0, 0);
    }
  }

  lemma PoolTails(p: Params, k: nat)
    requires k >= 1 && Drift(p, k - 1) <= 1.0
    ensures
      var raw := RawAll(p, SLOW_OPEN, Pool(p, k));
      BestTail(raw) == 1.0 && WorstTail(raw) == 2.0
  {
    var raw := RawAll(p, SLOW_OPEN, Pool(p, k));
    forall i | 0 <= i <= k ensures 1.0 <= raw[i].tailMs <= 2.0 {
      PoolRaw(p, k, i);
      if i < k { DriftMonotone(p, i, k - 1); }
    }
    PoolRaw(p, k, 0);
    PoolRaw(p, k, k);
    BestTailIsLeast(raw);
    WorstTailIsGreatest(raw);
    WorstTailWithin(raw, 2.0);
  }

  lemma PoolScore(p: Params, k: nat, i: nat)
    requires i < k && Drift(p, k - 1) <= 1.0
    ensures
      var s := PoolScores(p, k);
      && !s[i].open && s[i].name == NumberedName(i)
      && s[i].base == 1.0 - Drift(p, i) && s[i].soft == i as real / Samples(p, k) as real
  {
    PoolRaw(p, k, i);
    PoolTails(p, k);
    DriftMonotone(p, i, k - 1);
  }

  lemma PoolDescends(p: Params, k: nat)
    requires k >= 1 && Drift(p, k - 1) <= 1.0
    ensures Descends(p, PoolScores(p, k), k) && |PoolScores(p, k)| == k + 1 && PoolScores(p, k)[k].open
  {
    var s := PoolScores(p, k);
    PoolRaw(p, k, k);
    PoolScore(p, k, 0);
    DriftStep(p, 0);
    forall i | 0 <= i < k ensures !s[i].open && s[i].base == s[0].base - Drift(p, i) { PoolScore(p, k, i); }
    forall i | 1 <= i < k ensures s[i - 1].soft < s[i].soft {
      PoolScore(p, k, i - 1);
      PoolScore(p, k, i);
      LessDivided(i - 1, i, Samples(p, k));
    }
  }

  /** With k resolvers eligible the scan can lose k - 1 tie bands, as long as costs, which lie in [0, 1], allow it. */
  lemma {:induction false} PoolDriftAttained(p: Params, k: nat)
    requires k >= 1 && Drift(p, k - 1) <= 1.0
    ensures
      var s := PoolScores(p, k);
      && EligibleCount(s, -1, true, |s|) == k
      && Scan(p, s, -1, true, |s|) == k - 1
      && s[k - 1].base == s[0].base - Drift(p, k - 1)
  {
    PoolDescends(p, k);
    ScanDescends(p, PoolScores(p, k), k);
  }

  ghost predicate OrdersTransitively(p: Params, s: seq<Scored>) {
    forall i, j, k :: 0 <= i < |s| && 0 <= j < |s| && 0 <= k < |s| && Better(p, s[i], s[j]) && Better(p, s[j], s[k])
      ==> Better(p, s[i], s[k])
  }

  /** Within every pool of resolvers preference is transitive exactly when the tie band is empty ... */
  lemma PoolsTransitiveIff(p: Params)
    ensures (forall cs, candidates :: OrdersTransitively(p, Scores(p, cs, candidates))) <==> p.tieBand == 0.0
  {
    BetterTransitiveIff(p);
    if p.tieBand != 0.0 {
      var s := PoolScores(p, 3);
      PoolDescends(p, 3);
      DriftStep(p, 0);
      DriftStep(p, 1);
      assert Better(p, s[2], s[1]) && Better(p, s[1], s[0]) && !Better(p, s[2], s[0]);
      assert !OrdersTransitively(p, s);
    }
  }

  /** ... and so does the scan find a true maximum of every pool. */
  lemma PoolsScanToMaximumIff(p: Params)
    ensures (forall cs, candidates :: ScansToMaximum(p, Scores(p, cs, candidates))) <==> p.tieBand == 0.0
  {
    ScanFindsMaximumIff(p);
    if p.tieBand != 0.0 {
      var s := PoolScores(p, 2);
      DriftStep(p, 0);
      PoolDescends(p, 2);
      PoolDriftAttained(p, 2);
      assert Eligible(s, 0, -1, true);
      assert !ScansToMaximum(p, s);
    }
  }
}
