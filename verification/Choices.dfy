/** What a selection returns, read off the candidates, their circuits and the draws: the whole cascade of
    selectCandidateLocked, case by case. */
module Choices {
  import opened Scoring
  import opened Selection
  import opened SchedulerRuns
  import opened PrimaryRuns

  // ---------- what the cascade looks at ----------

  predicate DueAt(st: State, cs: seq<Candidate>, i: nat, now: int)
    requires i < |cs|
  {
    var c := Breaker(st, cs[i].name);
    c.open && !c.probing && c.nextProbeAt <= now
  }

  predicate NoneDue(st: State, cs: seq<Candidate>, now: int) {
    forall i :: 0 <= i < |cs| ==> !DueAt(st, cs, i, now)
  }

  predicate ClosedAt(st: State, cs: seq<Candidate>, i: nat)
    requires i < |cs|
  {
    !Breaker(st, cs[i].name).open
  }

  /** The first candidate with the primary's name. */
  predicate PrimaryAt(st: State, cs: seq<Candidate>, i: nat)
    requires i < |cs|
  {
    cs[i].name == st.primaryName && forall j :: 0 <= j < i ==> cs[j].name != st.primaryName
  }

  /** A resolver that a random exploration may turn to. */
  predicate OtherAt(st: State, cs: seq<Candidate>, i: nat)
    requires i < |cs|
  {
    ClosedAt(st, cs, i) && !PrimaryAt(st, cs, i)
  }

  predicate AnyOther(st: State, cs: seq<Candidate>) {
    exists i :: 0 <= i < |cs| && OtherAt(st, cs, i)
  }

  predicate WarmingAt(p: Params, st: State, cs: seq<Candidate>, i: nat)
    requires i < |cs|
  {
    cs[i].window.totalSamples < p.warmupSamples
    || Breaker(st, cs[i].name).recoverUntilTotal > cs[i].window.totalSamples
  }

  /** Explored first: the warming ones if there are any. */
  predicate TargetAt(p: Params, st: State, cs: seq<Candidate>, i: nat)
    requires i < |cs|
  {
    && OtherAt(st, cs, i)
    && ((exists j :: 0 <= j < |cs| && OtherAt(st, cs, j) && WarmingAt(p, st, cs, j)) ==> WarmingAt(p, st, cs, i))
  }

  /** The selection neither probes nor explores. */
  predicate Settles(p: Params, st: State, cs: seq<Candidate>, o: Oracle) {
    |cs| >= 2 && NoneDue(st, cs, o.now) && (o.draw >= p.exploreProb || !AnyOther(st, cs))
  }

  // ---------- the same on scores ----------

  lemma {:induction false} FirstNamed(s: seq<Scored>, name: string, n: nat, i: nat)
    requires i < n <= |s|
    ensures IndexOfName(s, name, n) == i <==> s[i].name == name && forall j :: 0 <= j < i ==> s[j].name != name
  {
    if i < n - 1 { FirstNamed(s, name, n - 1, i); }
  }

  /** Every candidate is listed with its name, and with what its circuit says. */
  ghost predicate Describes(p: Params, st: State, cs: seq<Candidate>, s: seq<Scored>) {
    && |s| == |cs|
    && (forall i :: 0 <= i < |s| ==> s[i].name == cs[i].name && s[i].open == !ClosedAt(st, cs, i))
    && forall i :: 0 <= i < |s| ==> s[i].warming == WarmingAt(p, st, cs, i)
  }

  lemma ScoresDescribe(p: Params, st: State, cs: seq<Candidate>)
    ensures Describes(p, st, cs, Scores(p, st.circuits, cs))
  {
    forall i | 0 <= i < |cs| { ScoresIdentity(p, st.circuits, cs, i); }
  }

  lemma {:induction false} PrimaryIndex(p: Params, st: State, cs: seq<Candidate>, s: seq<Scored>, i: nat)
    requires Describes(p, st, cs, s) && i < |cs|
    ensures IndexOfName(s, st.primaryName, |s|) == i <==> PrimaryAt(st, cs, i)
  {
    FirstNamed(s, st.primaryName, |s|, i);
  }

  lemma {:induction false} SameDue(p: Params, st: State, cs: seq<Candidate>, s: seq<Scored>, i: nat, now: int)
    requires Describes(p, st, cs, s) && i < |cs|
    ensures Due(st.circuits, s, i, now) <==> DueAt(st, cs, i, now)
  {
  }

  lemma {:induction false} NothingProbed(p: Params, st: State, cs: seq<Candidate>, s: seq<Scored>, now: int)
    requires Describes(p, st, cs, s) && NoneDue(st, cs, now)
    ensures ProbeAmong(st.circuits, s, now, |s|) == -1
  {
    var probe := ProbeAmong(st.circuits, s, now, |s|);
    if probe >= 0 { SameDue(p, st, cs, s, probe, now); }
  }

  lemma {:induction false} PoolIsOthers(p: Params, st: State, cs: seq<Candidate>, s: seq<Scored>, i: nat)
    requires Describes(p, st, cs, s) && i < |cs|
    ensures
      var primary := IndexOfName(s, st.primaryName, |s|);
      && (Explorable(s, primary, i, false) <==> OtherAt(st, cs, i))
      && (Explorable(s, primary, i, true) <==> OtherAt(st, cs, i) && WarmingAt(p, st, cs, i))
  {
    PrimaryIndex(p, st, cs, s, i);
  }

  // ---------- the cascade ----------

  /** Candidate a scores no worse than b but for n - 1 tie bands. */
  ghost predicate Near(p: Params, s: seq<Scored>, a: int, b: int) {
    0 <= a < |s| && 0 <= b < |s| && s[a].base >= s[b].base - Drift(p, |s| - 1)
  }

  /** The named resolver is the primary now; if it was not before, that is counted once, in total and by name. */
  ghost predicate Installed(st: State, name: string, now: int, st': State) {
    && st'.primaryName == name && st'.circuits == st.circuits
    && (name == st.primaryName ==> st' == st)
    && (name != st.primaryName ==>
          && st'.primarySince == now && st'.totalSwitches == st.totalSwitches + 1
          && forall n :: TimesChosen(st', n) == TimesChosen(st, n) + if n == name then 1 else 0)
  }

  /** A resolver that is due gets a probe, the one open longest first; nothing else changes. */
  lemma ProbesDue(p: Params, st: State, cs: seq<Candidate>, o: Oracle)
    requires |cs| >= 2 && !NoneDue(st, cs, o.now)
    ensures
      var d := Select(p, st, cs, o);
      && 0 <= d.index < |cs| && DueAt(st, cs, d.index, o.now)
      && (forall j :: 0 <= j < |cs| && DueAt(st, cs, j, o.now) ==>
            Breaker(st, cs[d.index].name).openedAt <= Breaker(st, cs[j].name).openedAt)
      && d.state == st.(circuits := st.circuits[cs[d.index].name := Breaker(st, cs[d.index].name).(probing := true)])
  {
    var s := Scores(p, st.circuits, cs);
    ScoresDescribe(p, st, cs);
    forall j | 0 <= j < |cs| ensures Due(st.circuits, s, j, o.now) <==> DueAt(st, cs, j, o.now) {
      SameDue(p, st, cs, s, j, o.now);
    }
  }

  /** The pool of an exploration holds exactly the targets. */
  lemma {:induction false} PoolIsTargets(p: Params, st: State, cs: seq<Candidate>, s: seq<Scored>, i: nat)
    requires Describes(p, st, cs, s) && i < |cs|
    ensures i in ExplorePool(s, IndexOfName(s, st.primaryName, |s|)) <==> TargetAt(p, st, cs, i)
  {
    var primary := IndexOfName(s, st.primaryName, |s|);
    forall j | 0 <= j < |cs|
      ensures Explorable(s, primary, j, true) <==> OtherAt(st, cs, j) && WarmingAt(p, st, cs, j)
      ensures Explorable(s, primary, j, false) <==> OtherAt(st, cs, j)
    {
      PoolIsOthers(p, st, cs, s, j);
    }
  }

  lemma {:induction false} PoolEmptyIff(p: Params, st: State, cs: seq<Candidate>, s: seq<Scored>)
    requires Describes(p, st, cs, s)
    ensures ExplorePool(s, IndexOfName(s, st.primaryName, |s|)) == [] <==> !AnyOther(st, cs)
  {
    var pool := ExplorePool(s, IndexOfName(s, st.primaryName, |s|));
    if pool != [] {
      assert pool[0] in pool;
      PoolIsTargets(p, st, cs, s, pool[0]);
    }
    if AnyOther(st, cs) {
      var i :| 0 <= i < |cs| && OtherAt(st, cs, i);
      if j :| 0 <= j < |cs| && OtherAt(st, cs, j) && WarmingAt(p, st, cs, j) { i := j; }
      PoolIsTargets(p, st, cs, s, i);
    }
  }

  /** With none due and a draw below the exploration probability, the second draw picks from the pool. */
  lemma {:induction false} ExploresPool(p: Params, st: State, cs: seq<Candidate>, s: seq<Scored>, o: Oracle)
    requires |cs| >= 2 && NoneDue(st, cs, o.now) && o.draw < p.exploreProb
    requires s == Scores(p, st.circuits, cs) && Describes(p, st, cs, s)
    requires ExplorePool(s, IndexOfName(s, st.primaryName, |s|)) != []
    ensures
      var d, pool := Select(p, st, cs, o), ExplorePool(s, IndexOfName(s, st.primaryName, |s|));
      d.index == pool[o.pick % |pool|] && d.state == st
  {
    NothingProbed(p, st, cs, s, o.now);
  }

  /** One query then goes to a closed resolver other than the primary, a warming one if there is any; nothing
      changes. */
  lemma Explores(p: Params, st: State, cs: seq<Candidate>, o: Oracle)
    requires |cs| >= 2 && NoneDue(st, cs, o.now) && o.draw < p.exploreProb && AnyOther(st, cs)
    ensures
      var d := Select(p, st, cs, o);
      0 <= d.index < |cs| && TargetAt(p, st, cs, d.index) && d.state == st
  {
    var s := Scores(p, st.circuits, cs);
    ScoresDescribe(p, st, cs);
    PoolEmptyIff(p, st, cs, s);
    ExploresPool(p, st, cs, s, o);
    var pool := ExplorePool(s, IndexOfName(s, st.primaryName, |s|));
    var i := pool[o.pick % |pool|];
    assert i in pool;
    PoolIsTargets(p, st, cs, s, i);
  }

  lemma Position(pool: seq<int>, i: int) returns (pick: nat)
    requires i in pool
    ensures pick < |pool| && pool[pick % |pool|] == i
  {
    pick :| 0 <= pick < |pool| && pool[pick] == i;
    assert pick % |pool| == pick;
  }

  /** Every such resolver is reached by some draw. */
  lemma ExploresEvery(p: Params, st: State, cs: seq<Candidate>, o: Oracle, i: nat) returns (pick: nat)
    requires |cs| >= 2 && NoneDue(st, cs, o.now) && o.draw < p.exploreProb
    requires i < |cs| && TargetAt(p, st, cs, i)
    ensures pick < |cs| && Select(p, st, cs, o.(pick := pick)).index == i
  {
    var s := Scores(p, st.circuits, cs);
    ScoresDescribe(p, st, cs);
    PoolIsTargets(p, st, cs, s, i);
    var primary := IndexOfName(s, st.primaryName, |s|);
    PoolBounded(s, primary);
    pick := Position(ExplorePool(s, primary), i);
    ExploresPool(p, st, cs, s, o.(pick := pick));
  }

  lemma {:induction false} ExplorablesBounded(s: seq<Scored>, primary: int, warmingOnly: bool, n: nat)
    requires n <= |s|
    ensures |Explorables(s, primary, warmingOnly, n)| <= n
  {
    if n > 0 { ExplorablesBounded(s, primary, warmingOnly, n - 1); }
  }

  lemma PoolBounded(s: seq<Scored>, primary: int)
    ensures |ExplorePool(s, primary)| <= |s|
  {
    ExplorablesBounded(s, primary, true, |s|);
    ExplorablesBounded(s, primary, false, |s|);
  }

  /** Candidate a is ahead of b by the switch margin ... */
  ghost predicate Leads(p: Params, s: seq<Scored>, a: int, b: int) {
    0 <= a < |s| && 0 <= b < |s| && s[a].base - s[b].base >= p.switchMargin
  }

  /** ... and by more than n - 1 tie bands on top. */
  ghost predicate Outclasses(p: Params, s: seq<Scored>, a: int, b: int) {
    0 <= a < |s| && 0 <= b < |s| && s[a].base - s[b].base > p.switchMargin + Drift(p, |s| - 1)
  }

  /** Neither probing nor exploring, the selection settles. */
  lemma SettlesOn(p: Params, st: State, cs: seq<Candidate>, o: Oracle) returns (s: seq<Scored>, primary: int)
    requires Settles(p, st, cs, o)
    ensures s == Scores(p, st.circuits, cs) && Describes(p, st, cs, s)
    ensures -1 <= primary == IndexOfName(s, st.primaryName, |s|) < |s|
    ensures Select(p, st, cs, o) == Settle(p, st, s, primary, o)
  {
    s := Scores(p, st.circuits, cs);
    ScoresDescribe(p, st, cs);
    primary := IndexOfName(s, st.primaryName, |s|);
    NothingProbed(p, st, cs, s, o.now);
    PoolEmptyIff(p, st, cs, s);
  }

  /** A closed primary is kept through its dwell ... */
  lemma KeepsThroughDwell(p: Params, st: State, cs: seq<Candidate>, o: Oracle, i: nat)
    requires Settles(p, st, cs, o) && i < |cs| && PrimaryAt(st, cs, i) && ClosedAt(st, cs, i)
    requires o.now - st.primarySince < p.dwell
    ensures Select(p, st, cs, o).index == i && Select(p, st, cs, o).state == st
  {
    var s, primary := SettlesOn(p, st, cs, o);
    PrimaryIndex(p, st, cs, s, i);
  }

  /** ... and for as long as no closed resolver is ahead of it by the margin. */
  lemma KeepsUnbeaten(p: Params, st: State, cs: seq<Candidate>, o: Oracle, i: nat)
    requires Settles(p, st, cs, o) && i < |cs| && PrimaryAt(st, cs, i) && ClosedAt(st, cs, i)
    requires forall j :: 0 <= j < |cs| && ClosedAt(st, cs, j) ==> !Leads(p, Scores(p, st.circuits, cs), j, i)
    ensures Select(p, st, cs, o).index == i && Select(p, st, cs, o).state == st
  {
    var s, primary := SettlesOn(p, st, cs, o);
    PrimaryIndex(p, st, cs, s, i);
    var other := Scan(p, s, i, true, |s|);
    if other >= 0 { assert ClosedAt(st, cs, other); }
  }

  lemma InstallsPrimary(st: State, name: string, now: int)
    ensures Installed(st, name, now, BecomePrimary(st, name, now))
  {
  }

  lemma {:induction false} ChallengerWins(p: Params, st: State, s: seq<Scored>, i: nat, j: nat, o: Oracle)
    requires i < |s| && !s[i].open && Outclasses(p, s, j, i) && !s[j].open
    requires o.now - st.primarySince >= p.dwell
    ensures
      var d := Settle(p, st, s, i, o);
      && d.index != i && Leads(p, s, d.index, i) && !s[d.index].open
      && Installed(st, s[d.index].name, o.installed, d.state)
  {
    DriftMonotone(p, 0, |s| - 1);
    assert Eligible(s, j, i, true);
    ScanNearBest(p, s, i, true, j);
    InstallsPrimary(st, s[Scan(p, s, i, true, |s|)].name, o.installed);
  }

  /** After the dwell it is left for one ahead by the margin, if some closed resolver is ahead by the margin and n - 1
      tie bands. */
  lemma LeavesBeaten(p: Params, st: State, cs: seq<Candidate>, o: Oracle, i: nat, j: nat)
    requires Settles(p, st, cs, o) && i < |cs| && PrimaryAt(st, cs, i) && ClosedAt(st, cs, i)
    requires o.now - st.primarySince >= p.dwell
    requires j < |cs| && ClosedAt(st, cs, j) && Outclasses(p, Scores(p, st.circuits, cs), j, i)
    ensures
      var s, d := Scores(p, st.circuits, cs), Select(p, st, cs, o);
      && 0 <= d.index < |cs| && d.index != i && ClosedAt(st, cs, d.index) && Leads(p, s, d.index, i)
      && Installed(st, cs[d.index].name, o.installed, d.state)
  {
    var s, primary := SettlesOn(p, st, cs, o);
    PrimaryIndex(p, st, cs, s, i);
    ChallengerWins(p, st, s, i, j, o);
  }

  lemma {:induction false} AnyChallengerWins(p: Params, st: State, s: seq<Scored>, i: nat, j: nat, o: Oracle)
    requires i < |s| && !s[i].open && j < |s| && j != i && !s[j].open
    requires forall k :: 0 <= k < |s| && k != i && !s[k].open ==> Leads(p, s, k, i)
    requires o.now - st.primarySince >= p.dwell && p.switchMargin > p.tieBand
    ensures
      var d := Settle(p, st, s, i, o);
      0 <= d.index < |s| && d.index != i && !s[d.index].open && Installed(st, s[d.index].name, o.installed, d.state)
  {
    assert Eligible(s, j, i, true);
    var other := Scan(p, s, i, true, |s|);
    assert Leads(p, s, other, i);
    InstallsPrimary(st, s[other].name, o.installed);
  }

  /** Or if every other closed resolver is ahead by the margin, be it exactly. */
  lemma LeavesBeatenByAll(p: Params, st: State, cs: seq<Candidate>, o: Oracle, i: nat, j: nat)
    requires Settles(p, st, cs, o) && i < |cs| && PrimaryAt(st, cs, i) && ClosedAt(st, cs, i)
    requires o.now - st.primarySince >= p.dwell && p.switchMargin > p.tieBand
    requires j < |cs| && j != i && ClosedAt(st, cs, j)
    requires forall k :: 0 <= k < |cs| && k != i && ClosedAt(st, cs, k) ==> Leads(p, Scores(p, st.circuits, cs), k, i)
    ensures
      var d := Select(p, st, cs, o);
      && 0 <= d.index < |cs| && d.index != i && ClosedAt(st, cs, d.index)
      && Installed(st, cs[d.index].name, o.installed, d.state)
  {
    var s, primary := SettlesOn(p, st, cs, o);
    PrimaryIndex(p, st, cs, s, i);
    forall k | 0 <= k < |s| && k != i && !s[k].open ensures Leads(p, s, k, i) { assert ClosedAt(st, cs, k); }
    AnyChallengerWins(p, st, s, i, j, o);
  }

  /** A primary that is gone or open gives way to the best closed resolver, or to the best of all if none is closed. */
  lemma {:induction false} GivesWay(
    p: Params, st: State, s: seq<Scored>, primary: int, o: Oracle, skipOpen: bool, i: nat)
    requires i < |s| && -1 <= primary < |s| && (primary >= 0 ==> s[primary].open)
    requires if skipOpen then !s[i].open else forall j :: 0 <= j < |s| ==> s[j].open
    ensures
      var d := Settle(p, st, s, primary, o);
      && Near(p, s, d.index, i) && (skipOpen ==> !s[d.index].open)
      && Installed(st, s[d.index].name, o.installed, d.state)
  {
    assert Eligible(s, i, -1, skipOpen);
    ScanNearBest(p, s, -1, skipOpen, i);
    InstallsPrimary(st, s[Settle(p, st, s, primary, o).index].name, o.installed);
  }

  /** A primary that is gone or open is replaced by a closed resolver within n - 1 tie bands of every other ... */
  lemma Replaces(p: Params, st: State, cs: seq<Candidate>, o: Oracle, i: nat)
    requires Settles(p, st, cs, o) && i < |cs| && ClosedAt(st, cs, i)
    requires forall j :: 0 <= j < |cs| && PrimaryAt(st, cs, j) ==> !ClosedAt(st, cs, j)
    ensures
      var s, d := Scores(p, st.circuits, cs), Select(p, st, cs, o);
      && 0 <= d.index < |cs| && ClosedAt(st, cs, d.index) && Near(p, s, d.index, i)
      && Installed(st, cs[d.index].name, o.installed, d.state)
  {
    var s, primary := SettlesOn(p, st, cs, o);
    if primary >= 0 { PrimaryIndex(p, st, cs, s, primary); }
    assert Eligible(s, i, -1, true);
    GivesWay(p, st, s, primary, o, true, i);
  }

  /** ... or, when every circuit is open, by one within n - 1 tie bands of every other. */
  lemma FallsBack(p: Params, st: State, cs: seq<Candidate>, o: Oracle, i: nat)
    requires |cs| >= 2 && NoneDue(st, cs, o.now) && forall j :: 0 <= j < |cs| ==> !ClosedAt(st, cs, j)
    requires i < |cs|
    ensures
      var s, d := Scores(p, st.circuits, cs), Select(p, st, cs, o);
      && 0 <= d.index < |cs| && Near(p, s, d.index, i)
      && Installed(st, cs[d.index].name, o.installed, d.state)
  {
    var s, primary := SettlesOn(p, st, cs, o);
    assert Eligible(s, i, -1, false);
    GivesWay(p, st, s, primary, o, false, i);
  }

  /** With fewer than two candidates nothing is weighed. */
  lemma TooFewToWeigh(p: Params, st: State, cs: seq<Candidate>, o: Oracle)
    requires |cs| < 2
    ensures Select(p, st, cs, o).index == 0
    ensures cs == [] ==> Select(p, st, cs, o).state == st
    ensures |cs| == 1 ==> Installed(st, cs[0].name, o.installed, Select(p, st, cs, o).state)
  {
    if |cs| == 1 { InstallsPrimary(st, cs[0].name, o.installed); }
  }
}
