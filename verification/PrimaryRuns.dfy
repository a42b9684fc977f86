/** The sticky primary over every run: when it moves, how often it may move of its own accord, and how
    its moves are counted. */
module PrimaryRuns {
  import opened Scoring
  import opened Selection
  import opened SchedulerRuns
  import opened TimeGrid
  import opened BreakerRuns

  // ---------- one step ----------

  /** The incumbent is among several candidates and closed: leaving it is voluntary. */
  predicate Optional(st: State, candidates: seq<Candidate>) {
    && |candidates| >= 2
    && (exists i :: 0 <= i < |candidates| && candidates[i].name == st.primaryName)
    && !Breaker(st, st.primaryName).open
  }

  /** The candidate named `to` is ahead of the incumbent by the switch margin. */
  ghost predicate Ahead(p: Params, st: State, s: seq<Scored>, to: string) {
    exists a, b :: 0 <= a < |s| && 0 <= b < |s| && s[a].name == st.primaryName && s[b].name == to
      && s[b].base - s[a].base >= p.switchMargin
  }

  /** A selection touches the primary and its accounting only by installing a primary. */
  lemma SelectShape(p: Params, st: State, candidates: seq<Candidate>, o: Oracle)
    ensures
      var d := Select(p, st, candidates, o);
      var named := BecomePrimary(st, d.state.primaryName, o.installed);
      d.state == named.(circuits := d.state.circuits)
  {
    if |candidates| >= 2 { SelectScoredShape(p, st, Scores(p, st.circuits, candidates), o); }
  }

  lemma SelectScoredShape(p: Params, st: State, s: seq<Scored>, o: Oracle)
    requires |s| >= 2
    ensures
      var d := SelectScored(p, st, s, o);
      var named := BecomePrimary(st, d.state.primaryName, o.installed);
      d.state == named.(circuits := d.state.circuits)
  {
  }

  lemma ScoredSwitchReasons(p: Params, st: State, s: seq<Scored>, o: Oracle)
    requires |s| >= 2 && SelectScored(p, st, s, o).state.primaryName != st.primaryName
    ensures
      var d := SelectScored(p, st, s, o);
      !d.reason.Probe? && !d.reason.Explore? && d.state.primarySince == o.installed
  {
  }

  lemma SwitchReasons(p: Params, st: State, candidates: seq<Candidate>, o: Oracle)
    requires Select(p, st, candidates, o).state.primaryName != st.primaryName
    ensures
      var d := Select(p, st, candidates, o);
      !d.reason.Probe? && !d.reason.Explore? && d.state.primarySince == o.installed
  {
    if |candidates| >= 2 { ScoredSwitchReasons(p, st, Scores(p, st.circuits, candidates), o); }
  }

  lemma OptionalIncumbent(p: Params, st: State, candidates: seq<Candidate>) returns (primary: nat)
    requires Optional(st, candidates)
    ensures
      var s := Scores(p, st.circuits, candidates);
      |s| >= 2 && primary < |s| && primary == IndexOfName(s, st.primaryName, |s|) && !s[primary].open
  {
    var s := Scores(p, st.circuits, candidates);
    var i :| 0 <= i < |candidates| && candidates[i].name == st.primaryName;
    ScoresIdentity(p, st.circuits, candidates, i);
    primary := IndexOfName(s, st.primaryName, |s|);
    ScoresIdentity(p, st.circuits, candidates, primary);
  }

  /** Only a selection that is neither a probe nor an exploration moves the primary; a voluntary move
      waits for the dwell and goes to a challenger ahead by the margin. */
  lemma SwitchOnlyFor(p: Params, st: State, candidates: seq<Candidate>, o: Oracle)
    requires Select(p, st, candidates, o).state.primaryName != st.primaryName
    ensures
      var d := Select(p, st, candidates, o);
      && !d.reason.Probe? && !d.reason.Explore?
      && d.state.primarySince == o.installed
      && (Optional(st, candidates) ==>
            && o.now - st.primarySince >= p.dwell
            && Ahead(p, st, Scores(p, st.circuits, candidates), d.state.primaryName))
  {
    SwitchReasons(p, st, candidates, o);
    if Optional(st, candidates) {
      var primary := OptionalIncumbent(p, st, candidates);
      ChallengeWins(p, st, Scores(p, st.circuits, candidates), primary, o);
    }
  }

  lemma {:induction false} ChallengeWins(p: Params, st: State, s: seq<Scored>, primary: nat, o: Oracle)
    requires |s| >= 2 && primary == IndexOfName(s, st.primaryName, |s|) && !s[primary].open
    requires SelectScored(p, st, s, o).state.primaryName != st.primaryName
    ensures o.now - st.primarySince >= p.dwell
    ensures Ahead(p, st, s, SelectScored(p, st, s, o).state.primaryName)
  {
    var d := SelectScored(p, st, s, o);
    assert s[d.index].base - s[primary].base >= p.switchMargin;
  }

  /** How good the settled choice is, for n candidates and any closed one among them: a new primary scores no
      worse than it but for n - 1 tie bands; a primary kept past its dwell, but for the margin besides. */
  lemma SettlesNearBest(p: Params, st: State, s: seq<Scored>, o: Oracle, i: nat)
    requires |s| >= 2 && i < |s| && !s[i].open
    ensures
      var d := SelectScored(p, st, s, o);
      && 0 <= d.index < |s|
      && (d.reason.Challenge? || d.reason.Replace? ==> s[d.index].base >= s[i].base - Drift(p, |s| - 1))
      && (d.reason.Keep? && o.now - st.primarySince >= p.dwell ==>
            s[d.index].base >= s[i].base - Drift(p, |s| - 1) - p.switchMargin)
  {
    var d := SelectScored(p, st, s, o);
    SelectedIndex(p, st, s, o, i);
    if d.reason.Replace? {
      ScanNearBest(p, s, -1, true, i);
    }
    if d.reason.Challenge? || d.reason.Keep? {
      DriftMonotone(p, 1, |s| - 1);
      var primary := IndexOfName(s, st.primaryName, |s|);
      if i != primary { ScanNearBest(p, s, primary, true, i); }
    }
  }

  // ---------- runs ----------

  predicate Switches(states: seq<State>, i: nat)
    requires i + 1 < |states|
  {
    states[i].primaryName != states[i + 1].primaryName
  }

  predicate Voluntary(events: seq<Event>, states: seq<State>, i: nat)
    requires i < |events| == |states| - 1
  {
    events[i].Query? && Optional(states[i], events[i].candidates) && Switches(states, i)
  }

  lemma PrimaryMoves(p: Params, events: seq<Event>, states: seq<State>, i: nat)
    requires IsRun(p, events, states) && i < |events|
    ensures Switches(states, i) ==> events[i].Query? && states[i + 1].primarySince == events[i].oracle.installed
    ensures !Switches(states, i) ==> states[i + 1].primarySince == states[i].primarySince
    ensures Voluntary(events, states, i) ==> Time(events[i]) - states[i].primarySince >= p.dwell
  {
    assert Step(p, events, i, states[i], states[i + 1]);
    if Switches(states, i) {
      SwitchOnlyFor(p, states[i], events[i].candidates, events[i].oracle);
    } else if events[i].Query? {
      SelectShape(p, states[i], events[i].candidates, events[i].oracle);
    }
  }

  lemma {:induction false} PrimarySinceAfter(p: Params, events: seq<Event>, states: seq<State>, i: nat, n: nat)
    requires IsRun(p, events, states) && Monotone(events)
    requires i < n <= |events| && Switches(states, i)
    ensures states[n].primarySince >= Time(events[i])
    decreases n
  {
    PrimaryMoves(p, events, states, n - 1);
    if i < n - 1 {
      PrimarySinceAfter(p, events, states, i, n - 1);
      assert Latest(events[i]) <= Time(events[n - 1]);
    }
  }

  /** A voluntary switch comes at least a dwell after any earlier switch. */
  lemma VoluntarySpaced(p: Params, events: seq<Event>, states: seq<State>, i: nat, j: nat)
    requires IsRun(p, events, states) && Monotone(events)
    requires i < j < |events| && Switches(states, i) && Voluntary(events, states, j)
    ensures Time(events[j]) - Time(events[i]) >= p.dwell
  {
    PrimarySinceAfter(p, events, states, i, j);
    PrimaryMoves(p, events, states, j);
  }

  /** Increasing positions of voluntary switches. */
  ghost predicate VoluntaryPicks(events: seq<Event>, states: seq<State>, picks: seq<nat>)
    requires |events| == |states| - 1
  {
    && (forall a :: 0 <= a < |picks| ==> picks[a] < |events| && Voluntary(events, states, picks[a]))
    && (forall a, b :: 0 <= a < b < |picks| ==> picks[a] < picks[b])
  }

  lemma {:induction false} VoluntaryTimes(
    p: Params, events: seq<Event>, states: seq<State>, picks: seq<nat>, m: nat)
    requires IsRun(p, events, states) && Monotone(events)
    requires VoluntaryPicks(events, states, picks) && m < |picks|
    ensures Time(events[picks[m]]) >= Time(events[picks[0]]) + Dwells(p, m)
  {
    if m > 0 {
      VoluntaryTimes(p, events, states, picks, m - 1);
      VoluntarySpaced(p, events, states, picks[m - 1], picks[m]);
    }
  }

  function Dwells(p: Params, m: nat): int {
    if m == 0 then 0 else Dwells(p, m - 1) + p.dwell
  }

  lemma {:induction false} DwellsIsProduct(p: Params, m: nat)
    ensures Dwells(p, m) == m * p.dwell
  {
    if m > 0 { DwellsIsProduct(p, m - 1); }
  }

  lemma QuotientBound(n: int, d: int, length: int)
    requires d > 0 && n * d <= length
    ensures n <= length / d
  {
    var q := length / d;
    assert q * d + length % d == length;
    if n > q { Scale(q + 1, n, d); }
  }

  /** At most L / Dwell + 1 voluntary switches fall in any interval of length L. */
  lemma VoluntaryRate(
    p: Params, events: seq<Event>, states: seq<State>, picks: seq<nat>, from: int, length: nat)
    requires IsRun(p, events, states) && Monotone(events)
    requires VoluntaryPicks(events, states, picks)
    requires p.dwell > 0
    requires forall a :: 0 <= a < |picks| ==> from <= Time(events[picks[a]]) <= from + length
    ensures |picks| <= length / p.dwell + 1
  {
    if picks != [] {
      VoluntaryTimes(p, events, states, picks, |picks| - 1);
      DwellsIsProduct(p, |picks| - 1);
      QuotientBound(|picks| - 1, p.dwell, length);
    }
  }

  // ---------- switch accounting ----------

  ghost function Sum(m: map<string, nat>): nat {
    if m == map[] then 0 else
    var k :| k in m;
    m[k] + Sum(m - {k})
  }

  lemma {:induction false} SumWithout(m: map<string, nat>, k: string)
    requires k in m
    ensures Sum(m) == m[k] + Sum(m - {k})
    decreases |m|
  {
    var j :| j in m && Sum(m) == m[j] + Sum(m - {j});
    if j != k {
      SumWithout(m - {j}, k);
      SumWithout(m - {k}, j);
      assert m - {j} - {k} == m - {k} - {j};
    }
  }

  lemma SumIncrement(m: map<string, nat>, k: string)
    ensures Sum(m[k := (if k in m then m[k] else 0) + 1]) == Sum(m) + 1
  {
    var m' := m[k := (if k in m then m[k] else 0) + 1];
    SumWithout(m', k);
    if k in m {
      SumWithout(m, k);
      assert m' - {k} == m - {k};
    } else {
      assert m' - {k} == m;
    }
  }

  lemma InstallCounts(st: State, name: string, now: int)
    requires st.totalSwitches == Sum(st.switchesByName)
    ensures
      var st' := BecomePrimary(st, name, now);
      st'.totalSwitches == Sum(st'.switchesByName)
  {
    SumIncrement(st.switchesByName, name);
  }

  lemma SelectCounts(p: Params, st: State, candidates: seq<Candidate>, o: Oracle)
    requires st.totalSwitches == Sum(st.switchesByName)
    ensures
      var st' := Select(p, st, candidates, o).state;
      st'.totalSwitches == Sum(st'.switchesByName)
  {
    SelectShape(p, st, candidates, o);
    InstallCounts(st, Select(p, st, candidates, o).state.primaryName, o.installed);
  }

  /** The total number of switches is the sum over resolvers, in every reachable state. */
  lemma {:induction false} SwitchesAddUp(p: Params, events: seq<Event>, states: seq<State>, n: nat)
    requires IsRun(p, events, states) && n <= |events|
    ensures states[n].totalSwitches == Sum(states[n].switchesByName)
  {
    if n > 0 {
      SwitchesAddUp(p, events, states, n - 1);
      var i, e := n - 1, events[n - 1];
      assert Step(p, events, i, states[i], states[i + 1]);
      if e.Query? { SelectCounts(p, states[n - 1], e.candidates, e.oracle); }
    }
  }

  function TimesChosen(st: State, name: string): nat {
    if name in st.switchesByName then st.switchesByName[name] else 0
  }

  /** How often the primary has changed in the first n events, and how often to the named resolver. */
  function Changes(states: seq<State>, n: nat): nat
    requires n < |states|
  {
    if n == 0 then 0 else Changes(states, n - 1) + if Switches(states, n - 1) then 1 else 0
  }

  function ChangesTo(states: seq<State>, name: string, n: nat): nat
    requires n < |states|
  {
    if n == 0 then 0 else
    ChangesTo(states, name, n - 1) + if Switches(states, n - 1) && states[n].primaryName == name then 1 else 0
  }

  lemma SelectTallies(p: Params, st: State, candidates: seq<Candidate>, o: Oracle, name: string)
    ensures
      var st' := Select(p, st, candidates, o).state;
      var changed := st'.primaryName != st.primaryName;
      && st'.totalSwitches == st.totalSwitches + (if changed then 1 else 0)
      && TimesChosen(st', name) == TimesChosen(st, name) + if changed && st'.primaryName == name then 1 else 0
  {
    SelectShape(p, st, candidates, o);
  }

  lemma StepTallies(p: Params, events: seq<Event>, i: nat, st: State, st': State, name: string)
    requires i < |events| && Step(p, events, i, st, st')
    ensures
      var changed := st'.primaryName != st.primaryName;
      && st'.totalSwitches == st.totalSwitches + (if changed then 1 else 0)
      && TimesChosen(st', name) == TimesChosen(st, name) + if changed && st'.primaryName == name then 1 else 0
  {
    if events[i].Query? { SelectTallies(p, st, events[i].candidates, events[i].oracle, name); }
  }

  /** In every reachable state the tallies are the number of changes so far, in total and to each resolver. */
  lemma {:induction false} SwitchesTallied(p: Params, events: seq<Event>, states: seq<State>, name: string, n: nat)
    requires IsRun(p, events, states) && n <= |events|
    ensures states[n].totalSwitches == Changes(states, n)
    ensures TimesChosen(states[n], name) == ChangesTo(states, name, n)
  {
    if n > 0 {
      var i := n - 1;
      SwitchesTallied(p, events, states, name, i);
      assert Step(p, events, i, states[i], states[i + 1]);
      StepTallies(p, events, i, states[i], states[i + 1], name);
    }
  }
}
