/** The decisions of scheduler_mds.go: the tie-band preference and its scan, the half-open probe, the
    exploration target, the sticky primary and the circuit breaker. */
module Selection {
  import opened Scoring
  import opened Metrics

  // ---------- preference ----------

  /** Go's `<` on strings. */
  predicate NameLess(a: string, b: string) {
    if b == [] then false
    else if a == [] then true
    else if a[0] != b[0] then a[0] < b[0]
    else NameLess(a[1..], b[1..])
  }

  predicate Better(p: Params, a: Scored, b: Scored) {
    var gap := a.base - b.base;
    if gap > p.tieBand || -gap > p.tieBand then a.base > b.base
    else if a.soft != b.soft then a.soft > b.soft
    else NameLess(a.name, b.name)
  }

  lemma {:induction false} NameLessTotal(a: string, b: string)
    ensures !(NameLess(a, b) && NameLess(b, a))
    ensures a != b ==> NameLess(a, b) || NameLess(b, a)
  {
    if a != [] && b != [] && a[0] == b[0] {
      NameLessTotal(a[1..], b[1..]);
      assert a == [a[0]] + a[1..] && b == [b[0]] + b[1..];
    }
  }

  /** Of two resolvers with different names, exactly one is preferred. */
  lemma BetterDecides(p: Params, a: Scored, b: Scored)
    requires a.name != b.name
    ensures Better(p, a, b) <==> !Better(p, b, a)
  {
    NameLessTotal(a.name, b.name);
  }

  /** Names are compared at the first place where they differ; a name comes after all its prefixes. */
  lemma {:induction false} NameLessAtFirstDifference(common: string, a: string, b: string)
    requires b != [] && (a == [] || a[0] < b[0])
    ensures NameLess(common + a, common + b) && !NameLess(common + b, common + a)
  {
    if common == [] {
      assert common + a == a && common + b == b;
    } else {
      NameLessAtFirstDifference(common[1..], a, b);
      assert (common + a)[1..] == common[1..] + a && (common + b)[1..] == common[1..] + b;
    }
  }

  lemma {:induction false} NameLessTransitive(a: string, b: string, c: string)
    requires NameLess(a, b) && NameLess(b, c)
    ensures NameLess(a, c)
  {
    if a != [] && a[0] == b[0] == c[0] { NameLessTransitive(a[1..], b[1..], c[1..]); }
  }

  ghost predicate Transitive(p: Params) {
    forall a, b, c :: Better(p, a, b) && Better(p, b, c) ==> Better(p, a, c)
  }

  /** Preference is transitive exactly when the tie band is empty: otherwise soft preferences chain across a gap
      larger than the band. */
  lemma BetterTransitiveIff(p: Params)
    ensures Transitive(p) <==> p.tieBand == 0.0
  {
    if p.tieBand == 0.0 {
      forall a, b, c | Better(p, a, b) && Better(p, b, c) ensures Better(p, a, c) {
        if NameLess(a.name, b.name) && NameLess(b.name, c.name) { NameLessTransitive(a.name, b.name, c.name); }
      }
    } else {
      var a := Scored("a", false, false, 0.0, 0.0, 0.0, 0.0, 2.0);
      var b := a.(name := "b", base := 0.75 * p.tieBand, soft := 1.0);
      var c := a.(name := "c", base := 1.5 * p.tieBand, soft := 0.0);
      assert Better(p, a, b) && Better(p, b, c) && !Better(p, a, c);
    }
  }

  // ---------- the scan ----------

  predicate Eligible(s: seq<Scored>, i: int, exclude: int, skipOpen: bool)
    requires 0 <= i < |s|
  {
    i != exclude && !(skipOpen && s[i].open)
  }

  /** The survivor of a left-to-right scan over the first n candidates, or -1. */
  function Scan(p: Params, s: seq<Scored>, exclude: int, skipOpen: bool, n: nat): (best: int)
    requires n <= |s|
    ensures -1 <= best < n
    ensures best >= 0 ==> Eligible(s, best, exclude, skipOpen)
    ensures best < 0 <==> forall i :: 0 <= i < n ==> !Eligible(s, i, exclude, skipOpen)
  {
    if n == 0 then -1 else
    var best := Scan(p, s, exclude, skipOpen, n - 1);
    if !Eligible(s, n - 1, exclude, skipOpen) then best
    else if best < 0 || Better(p, s[n - 1], s[best]) then n - 1
    else best
  }

  function EligibleCount(s: seq<Scored>, exclude: int, skipOpen: bool, n: nat): nat
    requires n <= |s|
  {
    if n == 0 then 0 else
    EligibleCount(s, exclude, skipOpen, n - 1) + if Eligible(s, n - 1, exclude, skipOpen) then 1 else 0
  }

  function Drift(p: Params, k: int): real {
    k as real * p.tieBand
  }

  lemma DriftStep(p: Params, k: nat)
    ensures Drift(p, k + 1) == Drift(p, k) + p.tieBand
    ensures Drift(p, k) >= 0.0
  {
    assert (k + 1) as real == k as real + 1.0;
    ProductNonNegative(k as real, p.tieBand);
  }

  /** Non-transitivity costs the scan at most one tie band per candidate after the first. */
  lemma {:induction false} ScanDriftBound(p: Params, s: seq<Scored>, exclude: int, skipOpen: bool, n: nat, i: nat)
    requires i < n <= |s|
    requires Eligible(s, i, exclude, skipOpen)
    ensures
      var best := Scan(p, s, exclude, skipOpen, n);
      var k := EligibleCount(s, exclude, skipOpen, n);
      best >= 0 && k >= 1 && s[best].base >= s[i].base - Drift(p, k - 1)
  {
    var prev := Scan(p, s, exclude, skipOpen, n - 1);
    var k := EligibleCount(s, exclude, skipOpen, n - 1);
    if i < n - 1 {
      ScanDriftBound(p, s, exclude, skipOpen, n - 1, i);
      DriftStep(p, k - 1);
    } else if prev >= 0 {
      ScanDriftBound(p, s, exclude, skipOpen, n - 1, prev);
      DriftStep(p, k - 1);
    }
    DriftStep(p, k);
  }

  lemma DriftMonotone(p: Params, j: nat, k: nat)
    requires j <= k
    ensures 0.0 <= Drift(p, j) <= Drift(p, k)
  {
    ProductNonNegative(j as real, p.tieBand);
    ProductNonNegative((k - j) as real, p.tieBand);
    assert k as real == j as real + (k - j) as real;
  }

  lemma {:induction false} EligibleAtMost(s: seq<Scored>, exclude: int, skipOpen: bool, n: nat)
    requires n <= |s|
    ensures EligibleCount(s, exclude, skipOpen, n) <= n
  {
    if n > 0 { EligibleAtMost(s, exclude, skipOpen, n - 1); }
  }

  /** So the survivor is within n - 1 tie bands of every eligible candidate. */
  lemma {:induction false} ScanNearBest(p: Params, s: seq<Scored>, exclude: int, skipOpen: bool, i: nat)
    requires i < |s| && Eligible(s, i, exclude, skipOpen)
    ensures
      var best := Scan(p, s, exclude, skipOpen, |s|);
      0 <= best < |s| && s[best].base >= s[i].base - Drift(p, |s| - 1)
  {
    ScanDriftBound(p, s, exclude, skipOpen, |s|, i);
    EligibleAtMost(s, exclude, skipOpen, |s|);
    DriftMonotone(p, EligibleCount(s, exclude, skipOpen, |s|) - 1, |s| - 1);
  }

  /** The first n scores descend by one tie band each, with rising soft preference. */
  ghost predicate Descends(p: Params, s: seq<Scored>, n: nat) {
    && n <= |s|
    && (forall i :: 0 <= i < n ==> !s[i].open && s[i].base == s[0].base - Drift(p, i))
    && forall i :: 1 <= i < n ==> s[i - 1].soft < s[i].soft
  }

  /** The scan then follows them all the way down. */
  lemma {:induction false} ScanDescends(p: Params, s: seq<Scored>, n: nat)
    requires n >= 1 && Descends(p, s, n)
    ensures Scan(p, s, -1, true, n) == n - 1 && EligibleCount(s, -1, true, n) == n
  {
    if n > 1 {
      ScanDescends(p, s, n - 1);
      DriftStep(p, n - 2);
      assert s[n - 2].soft < s[n - 1].soft;
      assert s[n - 2].base == s[0].base - Drift(p, n - 2);
      assert Better(p, s[n - 1], s[n - 2]);
    }
  }

  function NumberedName(i: nat): string {
    seq(i + 1, _ => 'r')
  }

  lemma LessDivided(i: nat, j: nat, k: nat)
    requires i < j && k > 0
    ensures i as real / k as real < j as real / k as real
  {
    assert (j as real / k as real - i as real / k as real) * k as real == (j - i) as real;
  }

  function Staircase(p: Params, k: nat): seq<Scored> {
    seq(k, i requires 0 <= i < k =>
      Scored(NumberedName(i), false, false, 0.0, 0.0, 0.0, -Drift(p, i), i as real / k as real))
  }

  /** The bound is attained for every number of candidates. */
  lemma {:induction false} ScanDriftAttained(p: Params, k: nat)
    requires k >= 1
    ensures
      var s := Staircase(p, k);
      && Scan(p, s, -1, true, k) == k - 1
      && EligibleCount(s, -1, true, k) == k
      && s[k - 1].base == s[0].base - Drift(p, k - 1)
  {
    var s := Staircase(p, k);
    forall i | 1 <= i < k ensures s[i - 1].soft < s[i].soft { LessDivided(i - 1, i, k); }
    ScanDescends(p, s, k);
  }

  ghost predicate ScansToMaximum(p: Params, s: seq<Scored>) {
    forall exclude, skipOpen, i :: 0 <= i < |s| && Eligible(s, i, exclude, skipOpen) ==>
      var best := Scan(p, s, exclude, skipOpen, |s|);
      best >= 0 && s[best].base >= s[i].base
  }

  /** The scan always finds a true maximum exactly when the tie band is empty. */
  lemma ScanFindsMaximumIff(p: Params)
    ensures (forall s :: ScansToMaximum(p, s)) <==> p.tieBand == 0.0
  {
    if p.tieBand == 0.0 {
      forall s: seq<Scored>, exclude, skipOpen, i | 0 <= i < |s| && Eligible(s, i, exclude, skipOpen)
        ensures Scan(p, s, exclude, skipOpen, |s|) >= 0 && s[Scan(p, s, exclude, skipOpen, |s|)].base >= s[i].base
      {
        ScanDriftBound(p, s, exclude, skipOpen, |s|, i);
      }
    } else {
      var s := Staircase(p, 2);
      ScanDriftAttained(p, 2);
      DriftStep(p, 0);
      assert Eligible(s, 0, -1, true);
      assert !ScansToMaximum(p, s);
    }
  }

  /** Among resolvers that score and are liked the same, the first by name is taken, whatever their order. */
  lemma {:induction false} TiesGoByName(p: Params, s: seq<Scored>, exclude: int, skipOpen: bool, n: nat, i: nat)
    requires i < n <= |s| && Eligible(s, i, exclude, skipOpen)
    requires forall j :: 0 <= j < n ==> s[j].base == s[0].base && s[j].soft == s[0].soft
    ensures
      var best := Scan(p, s, exclude, skipOpen, n);
      best >= 0 && (s[best].name == s[i].name || NameLess(s[best].name, s[i].name))
  {
    var prev := Scan(p, s, exclude, skipOpen, n - 1);
    if i < n - 1 {
      TiesGoByName(p, s, exclude, skipOpen, n - 1, i);
      if Eligible(s, n - 1, exclude, skipOpen) && NameLess(s[n - 1].name, s[prev].name) && s[prev].name != s[i].name {
        NameLessTransitive(s[n - 1].name, s[prev].name, s[i].name);
      }
    } else if prev >= 0 {
      NameLessTotal(s[i].name, s[prev].name);
    }
  }

  method BestHealthy(p: Params, s: seq<Scored>, exclude: int) returns (best: int)
    ensures best == Scan(p, s, exclude, true, |s|)
  {
    best := -1;
    for i := 0 to |s|
      invariant best == Scan(p, s, exclude, true, i)
    {
      if i == exclude || s[i].open { continue; }
      if best < 0 || Better(p, s[i], s[best]) { best := i; }
    }
  }

  // ---------- half-open probe ----------

  predicate Due(cs: Circuits, s: seq<Scored>, i: int, now: int)
    requires 0 <= i < |s|
  {
    var c := CircuitOf(cs, s[i].name);
    s[i].open && !c.probing && c.nextProbeAt <= now
  }

  /** The due probe whose circuit has been open longest, or -1. */
  function ProbeAmong(cs: Circuits, s: seq<Scored>, now: int, n: nat): (pick: int)
    requires n <= |s|
    ensures -1 <= pick < n
    ensures pick >= 0 ==> Due(cs, s, pick, now)
    ensures forall i :: 0 <= i < n && Due(cs, s, i, now) ==>
              pick >= 0 && CircuitOf(cs, s[pick].name).openedAt <= CircuitOf(cs, s[i].name).openedAt
  {
    if n == 0 then -1 else
    var pick := ProbeAmong(cs, s, now, n - 1);
    if !Due(cs, s, n - 1, now) then pick
    else if pick < 0 || CircuitOf(cs, s[n - 1].name).openedAt < CircuitOf(cs, s[pick].name).openedAt then n - 1
    else pick
  }

  method PickHalfOpenProbe(cs: Circuits, s: seq<Scored>, now: int) returns (pick: int)
    requires forall i :: 0 <= i < |s| && s[i].open ==> s[i].name in cs
    ensures pick == ProbeAmong(cs, s, now, |s|)
  {
    pick := -1;
    var earliest := 0;
    for i := 0 to |s|
      invariant pick == ProbeAmong(cs, s, now, i)
      invariant pick >= 0 ==> earliest == CircuitOf(cs, s[pick].name).openedAt
    {
      if !s[i].open { continue; }
      var cb := cs[s[i].name];
      if cb.probing || cb.nextProbeAt > now { continue; }
      if pick < 0 || cb.openedAt < earliest {
        pick, earliest := i, cb.openedAt;
      }
    }
  }

  // ---------- exploration ----------

  predicate Explorable(s: seq<Scored>, primary: int, i: int, warmingOnly: bool)
    requires 0 <= i < |s|
  {
    i != primary && !s[i].open && (warmingOnly ==> s[i].warming)
  }

  function Explorables(s: seq<Scored>, primary: int, warmingOnly: bool, n: nat): (r: seq<int>)
    requires n <= |s|
    ensures forall i :: i in r <==> 0 <= i < n && Explorable(s, primary, i, warmingOnly)
  {
    if n == 0 then [] else
    Explorables(s, primary, warmingOnly, n - 1)
    + if Explorable(s, primary, n - 1, warmingOnly) then [n - 1] else []
  }

  /** Warming resolvers when there are any, otherwise every healthy non-primary one. */
  function ExplorePool(s: seq<Scored>, primary: int): (r: seq<int>)
    ensures
      var anyWarming := exists j :: 0 <= j < |s| && Explorable(s, primary, j, true);
      forall i :: i in r <==> 0 <= i < |s| && Explorable(s, primary, i, anyWarming)
  {
    var warming := Explorables(s, primary, true, |s|);
    if warming != [] then
      assert warming[0] in warming && Explorable(s, primary, warming[0], true);
      warming
    else Explorables(s, primary, false, |s|)
  }

  method PickExploreTarget(s: seq<Scored>, primary: int) returns (pool: seq<int>)
    ensures pool == ExplorePool(s, primary)
  {
    var warming, healthy: seq<int> := [], [];
    for i := 0 to |s|
      invariant warming == Explorables(s, primary, true, i)
      invariant healthy == Explorables(s, primary, false, i)
    {
      if i == primary || s[i].open { continue; }
      healthy := healthy + [i];
      if s[i].warming { warming := warming + [i]; }
    }
    pool := healthy;
    if |warming| > 0 { pool := warming; }
  }

  // ---------- scheduler state and its two operations ----------

  datatype State = State(
    primaryName: string,
    primarySince: int,
    circuits: Circuits,
    totalSwitches: nat,
    switchesByName: map<string, nat>)

  const INITIAL := State("", 0, map[], 0, map[])

  function BecomePrimary(s: State, name: string, now: int): State {
    if s.primaryName == name then s else
    var n := if name in s.switchesByName then s.switchesByName[name] else 0;
    s.(primaryName := name, primarySince := now, totalSwitches := s.totalSwitches + 1,
       switchesByName := s.switchesByName[name := n + 1])
  }

  /** How a selection came about. */
  datatype Reason = NoCandidate | Sole | Probe | Explore | Keep | Challenge | Replace

  datatype Decision = Decision(state: State, index: int, reason: Reason)

  /** Clock readings and random draws of one selection: the reading on entry, the one taken when a
      primary is installed, the exploration draw and the index draw. */
  datatype Oracle = Oracle(now: int, installed: int, draw: real, pick: nat)

  function IndexOfName(s: seq<Scored>, name: string, n: nat): (i: int)
    requires n <= |s|
    ensures -1 <= i < n
    ensures i >= 0 ==> s[i].name == name
    ensures i < 0 ==> forall j :: 0 <= j < n ==> s[j].name != name
  {
    if n == 0 then -1 else
    var i := IndexOfName(s, name, n - 1);
    if i < 0 && s[n - 1].name == name then n - 1 else i
  }

  /** The sticky path: keep the primary unless it is gone, open, or beaten after its dwell. */
  function Settle(p: Params, st: State, s: seq<Scored>, primary: int, o: Oracle): Decision
    requires s != [] && primary < |s|
  {
    if primary >= 0 && !s[primary].open then
      var other := Scan(p, s, primary, true, |s|);
      if other >= 0
         && o.now - st.primarySince >= p.dwell
         && s[other].base - s[primary].base >= p.switchMargin
         && Better(p, s[other], s[primary])
      then Decision(BecomePrimary(st, s[other].name, o.installed), other, Challenge)
      else Decision(st, primary, Keep)
    else
      var healthy := Scan(p, s, -1, true, |s|);
      var best := if healthy >= 0 then healthy else Scan(p, s, -1, false, |s|);
      Decision(BecomePrimary(st, s[best].name, o.installed), best, Replace)
  }

  function SelectScored(p: Params, st: State, s: seq<Scored>, o: Oracle): Decision
    requires |s| >= 2
  {
    var primary := IndexOfName(s, st.primaryName, |s|);
    var probe := ProbeAmong(st.circuits, s, o.now, |s|);
    var pool := ExplorePool(s, primary);
    if probe >= 0 then
      var c := CircuitOf(st.circuits, s[probe].name);
      Decision(st.(circuits := st.circuits[s[probe].name := c.(probing := true)]), probe, Probe)
    else if o.draw < p.exploreProb && pool != [] then
      Decision(st, pool[o.pick % |pool|], Explore)
    else Settle(p, st, s, primary, o)
  }

  function Select(p: Params, st: State, candidates: seq<Candidate>, o: Oracle): Decision {
    if candidates == [] then Decision(st, 0, NoCandidate)
    else if |candidates| == 1 then Decision(BecomePrimary(st, candidates[0].name, o.installed), 0, Sole)
    else SelectScored(p, st, Scores(p, st.circuits, candidates), o)
  }

  predicate Hard(o: Outcome) {
    o.timeout || o.error
  }

  function Inc32(n: nat): nat {
    (n + 1) % 0x1_0000_0000
  }

  function Fed(p: Params, cb: Circuit, hard: bool, total: nat, now: int): Circuit {
    if hard then
      if cb.open && cb.probing then
        cb.(consecHardFails := Inc32(cb.consecHardFails), probing := false, nextProbeAt := now + p.halfOpenInterval)
      else if cb.recoverUntilTotal > total then
        cb.(recoverUntilTotal := 0, consecHardFails := 1)
      else if total < p.warmupSamples then
        cb.(consecHardFails := 0)
      else
        var fails := Inc32(cb.consecHardFails);
        if !cb.open && fails >= p.breakerThreshold then
          Circuit(fails, true, false, now, now + p.halfOpenInterval, 0)
        else cb.(consecHardFails := fails)
    else if cb.open && cb.probing then
      cb.(consecHardFails := 0, open := false, probing := false, recoverUntilTotal := total + p.warmupSamples)
    else cb.(consecHardFails := 0)
  }

  function Feedback(p: Params, st: State, name: string, o: Outcome, total: nat, now: int): State {
    st.(circuits := st.circuits[name := Fed(p, CircuitOf(st.circuits, name), Hard(o), total, now)])
  }

  /** LBStrategyMDS, the object the proxy drives.  Its methods are the two operations above. */
  class LBStrategyMDS {
    const params: Params
    var primaryName: string
    var primarySince: int
    var circuits: Circuits
    var totalSwitches: nat
    var switchesByName: map<string, nat>

    constructor (params: Params)
      ensures this.params == params
      ensures View() == INITIAL
    {
      this.params := params;
      primaryName, primarySince, circuits, totalSwitches, switchesByName := "", 0, map[], 0, map[];
    }

    function View(): State
      reads this
    {
      State(primaryName, primarySince, circuits, totalSwitches, switchesByName)
    }

    method InstallPrimary(name: string, now: int)
      modifies this
      ensures View() == BecomePrimary(old(View()), name, now)
    {
      if primaryName == name { return; }
      totalSwitches := totalSwitches + 1;
      if name !in switchesByName { switchesByName := switchesByName[name := 0]; }
      switchesByName := switchesByName[name := switchesByName[name] + 1];
      primaryName := name;
      primarySince := now;
    }

    /** selectCandidateLocked. */
    method SelectCandidate(candidates: seq<Candidate>, o: Oracle) returns (index: int)
      modifies this
      ensures
        var d := Select(params, old(View()), candidates, o);
        View() == d.state && index == d.index
    {
      var n := |candidates|;
      if n == 0 { return 0; }
      if n == 1 {
        InstallPrimary(candidates[0].name, o.installed);
        return 0;
      }
      var s := ScoreAll(params, circuits, candidates);
      var primary := -1;
      for i := 0 to n
        invariant primary == IndexOfName(s, primaryName, i)
      {
        if s[i].name == primaryName && primary < 0 { primary := i; }
      }
      var probe := PickHalfOpenProbe(circuits, s, o.now);
      if probe >= 0 {
        var name := s[probe].name;
        circuits := circuits[name := circuits[name].(probing := true)];
        return probe;
      }
      if o.draw < params.exploreProb {
        var pool := PickExploreTarget(s, primary);
        if |pool| > 0 { return pool[o.pick % |pool|]; }
      }
      index := SettlePrimary(s, primary, o);
    }

    method SettlePrimary(s: seq<Scored>, primary: int, o: Oracle) returns (index: int)
      requires s != [] && primary < |s|
      modifies this
      ensures
        var d := Settle(params, old(View()), s, primary, o);
        View() == d.state && index == d.index
    {
      if primary >= 0 && !s[primary].open {
        var other := BestHealthy(params, s, primary);
        if other < 0 || o.now - primarySince < params.dwell { return primary; }
        if s[other].base - s[primary].base >= params.switchMargin && Better(params, s[other], s[primary]) {
          InstallPrimary(s[other].name, o.installed);
          return other;
        }
        return primary;
      }
      index := BestHealthy(params, s, -1);
      if index < 0 {
        index := 0;
        for i := 1 to |s|
          invariant index == Scan(params, s, -1, false, i)
        {
          if Better(params, s[i], s[index]) { index := i; }
        }
      }
      InstallPrimary(s[index].name, o.installed);
    }

    /** observeFeedbackLocked. */
    method ObserveFeedback(name: string, o: Outcome, totalSamples: nat, now: int)
      modifies this
      ensures View() == Feedback(params, old(View()), name, o, totalSamples, now)
    {
      if name !in circuits { circuits := circuits[name := NEW_CIRCUIT]; }
      var cb := circuits[name];
      if o.timeout || o.error {
        if cb.open && cb.probing {
          cb := cb.(consecHardFails := Inc32(cb.consecHardFails), probing := false);
          cb := cb.(nextProbeAt := now + params.halfOpenInterval);
        } else if cb.recoverUntilTotal > totalSamples {
          cb := cb.(recoverUntilTotal := 0, consecHardFails := 1);
        } else if totalSamples < params.warmupSamples {
          cb := cb.(consecHardFails := 0);
        } else {
          cb := cb.(consecHardFails := Inc32(cb.consecHardFails));
          if !cb.open && cb.consecHardFails >= params.breakerThreshold {
            cb := cb.(open := true, openedAt := now, nextProbeAt := now + params.halfOpenInterval);
            cb := cb.(probing := false, recoverUntilTotal := 0);
          }
        }
      } else {
        cb := cb.(consecHardFails := 0);
        if cb.open && cb.probing {
          cb := cb.(open := false, probing := false);
          cb := cb.(recoverUntilTotal := totalSamples + params.warmupSamples);
        }
      }
      circuits := circuits[name := cb];
    }
  }
}
