/** Half-open probes and the exchanges they start: when two probes of one resolver can be under way at once. */
module ProbeRuns {
  import opened Metrics
  import opened Scoring
  import opened Selection
  import opened SchedulerRuns
  import opened BreakerRuns

  // ---------- exchanges ----------

  /** From state st, event e sends a query to the named resolver. */
  predicate Sends(p: Params, st: State, e: Event, name: string) {
    && e.Query?
    && var d := Select(p, st, e.candidates, e.oracle);
       0 <= d.index < |e.candidates| && e.candidates[d.index].name == name
  }

  /** Which events of a run send a query to the named resolver. */
  function SentTo(p: Params, events: seq<Event>, states: seq<State>, name: string): (sent: seq<bool>)
    requires |states| == |events| + 1
    ensures |sent| == |events|
  {
    seq(|events|, j requires 0 <= j < |events| => Sends(p, states[j], events[j], name))
  }

  /** Every reply answers an earlier query sent to its resolver, and no query is answered twice. */
  ghost predicate Matched(p: Params, events: seq<Event>, states: seq<State>)
    requires |states| == |events| + 1
  {
    && (forall name :: Answers(events, name, SentTo(p, events, states, name)))
    && AtMostOnce(events)
  }

  ghost predicate Answers(events: seq<Event>, name: string, sent: seq<bool>)
    requires |sent| == |events|
  {
    forall j :: 0 <= j < |events| && ReplyOf(events[j], name) ==> events[j].query < j && sent[events[j].query]
  }

  ghost predicate AtMostOnce(events: seq<Event>) {
    forall j, k :: 0 <= j < k < |events| && events[j].Reply? && events[k].Reply? ==> events[j].query != events[k].query
  }

  /** Query q has no answer among the first n events. */
  ghost predicate Unanswered(events: seq<Event>, q: nat, n: nat)
    requires n <= |events|
  {
    forall j :: 0 <= j < n && events[j].Reply? ==> events[j].query != q
  }

  /** Before event n, query q is under way. */
  ghost predicate Pending(events: seq<Event>, sent: seq<bool>, q: nat, n: nat)
    requires n <= |events| == |sent|
  {
    q < n && sent[q] && Unanswered(events, q, n)
  }

  // ---------- one probe, as its resolver sees it ----------

  /** The flag is up, and nothing is under way but query i. */
  ghost predicate Alone(events: seq<Event>, t: Trail, sent: seq<bool>, i: nat, n: nat)
    requires n <= |events| == |sent| && |t.circuits| == |events| + 1
  {
    && t.circuits[n].open && t.circuits[n].probing
    && forall q: nat :: Pending(events, sent, q, n) ==> q == i
  }

  lemma AloneStep(p: Params, events: seq<Event>, name: string, t: Trail, sent: seq<bool>, i: nat, n: nat)
    requires IsTrail(p, events, name, t) && |sent| == |events|
    requires Answers(events, name, sent) && AtMostOnce(events)
    requires i < n < |events| && Alone(events, t, sent, i, n)
    requires !sent[n] && (events[n].Reply? ==> events[n].query != i)
    ensures Alone(events, t, sent, i, n + 1)
  {
    assert TrailStep(p, events, name, t, n);
    if ReplyOf(events[n], name) {
      assert Pending(events, sent, events[n].query, n);
      assert false;
    }
    var m := n + 1;
    forall q: nat | Pending(events, sent, q, m) ensures q == i {
      assert Pending(events, sent, q, n);
    }
  }

  lemma AloneAtFirst(p: Params, events: seq<Event>, name: string, t: Trail, sent: seq<bool>, i: nat)
    requires IsTrail(p, events, name, t) && |sent| == |events|
    requires i < |events| && t.probes[i]
    requires forall q: nat :: !Pending(events, sent, q, i)
    ensures Alone(events, t, sent, i, i + 1)
  {
    assert TrailStep(p, events, name, t, i);
    var m := i + 1;
    forall q: nat | Pending(events, sent, q, m) ensures q == i {
      assert q < i ==> Pending(events, sent, q, i);
    }
  }

  lemma {:induction false} StaysAlone(
    p: Params, events: seq<Event>, name: string, t: Trail, sent: seq<bool>, i: nat, n: nat)
    requires IsTrail(p, events, name, t) && |sent| == |events|
    requires Answers(events, name, sent) && AtMostOnce(events)
    requires i < n <= |events| && t.probes[i]
    requires forall q: nat :: !Pending(events, sent, q, i)
    requires forall j :: i < j < n && t.circuits[j].open && t.circuits[j].probing ==> !sent[j]
    requires Unanswered(events, i, n)
    ensures Alone(events, t, sent, i, n)
  {
    if n == i + 1 {
      AloneAtFirst(p, events, name, t, sent, i);
    } else {
      StaysAlone(p, events, name, t, sent, i, n - 1);
      AloneStep(p, events, name, t, sent, i, n - 1);
    }
  }

  // ---------- safety ----------

  /** The selection has two or more candidates, one of them closed. */
  ghost predicate Guarded(st: State, e: Event) {
    e.Query? ==>
      |e.candidates| >= 2 && exists h :: 0 <= h < |e.candidates| && !Breaker(st, e.candidates[h].name).open
  }

  /** An open circuit whose flag is up gets no query while some candidate is closed. */
  lemma ProbedGetsNothing(p: Params, st: State, e: Event, name: string)
    requires Guarded(st, e) && Breaker(st, name).open && Breaker(st, name).probing
    ensures !Sends(p, st, e, name)
  {
    if e.Query? {
      var h :| 0 <= h < |e.candidates| && !Breaker(st, e.candidates[h].name).open;
      OpenSelectedOnlyAsProbe(p, st, e.candidates, e.oracle, h);
    }
  }

  /** A second probe of the resolver at m, with the one at i unanswered, every selection in between and at m
      having a closed candidate to turn to. */
  ghost predicate SecondProbe(p: Params, events: seq<Event>, states: seq<State>, name: string, i: nat, m: nat)
    requires |states| == |events| + 1
  {
    && i < m < |events| && Probes(p, states[m], events[m], name) && Unanswered(events, i, m)
    && forall j :: i < j <= m ==> Guarded(states[j], events[j])
  }

  lemma NoSecondProbe(p: Params, events: seq<Event>, states: seq<State>, name: string, i: nat, m: nat)
    requires IsRun(p, events, states) && Matched(p, events, states)
    requires i < |events| && Probes(p, states[i], events[i], name)
    requires forall q: nat :: !Pending(events, SentTo(p, events, states, name), q, i)
    ensures !SecondProbe(p, events, states, name, i, m)
  {
    if SecondProbe(p, events, states, name, i, m) {
      var t := TrailOf(p, events, states, name);
      var sent := SentTo(p, events, states, name);
      forall j | i < j < m && t.circuits[j].open && t.circuits[j].probing ensures !sent[j] {
        ProbedGetsNothing(p, states[j], events[j], name);
      }
      assert Answers(events, name, sent) && TrailStep(p, events, name, t, m);
      StaysAlone(p, events, name, t, sent, i, m);
    }
  }

  // ---------- how a second probe comes about ----------

  /** A resolver nothing is known of. */
  function Unknown(name: string): Candidate {
    Candidate(name, 1, false, false, Window(NO_COUNTS, 0, 0.0, 0.0, Never), false, 0)
  }

  const TIMED_OUT := Outcome(0, true, false, false, false, false, false, false, false, false, false)

  const ANSWERED := TIMED_OUT.(timeout := false)

  function At(now: int): Oracle {
    Oracle(now, now, 1.0, 0)
  }

  /** Offered with a closed candidate, a due resolver is probed. */
  lemma DueIsProbed(p: Params, st: State, name: string, other: string, now: int)
    requires !Breaker(st, other).open
    requires var c := Breaker(st, name); c.open && !c.probing && c.nextProbeAt <= now
    ensures
      var e := Query([Unknown(name), Unknown(other)], At(now));
      && Probes(p, st, e, name) && Guarded(st, e)
      && Select(p, st, e.candidates, e.oracle).state
         == st.(circuits := st.circuits[name := Breaker(st, name).(probing := true)])
  {
    var candidates := [Unknown(name), Unknown(other)];
    var s := Scores(p, st.circuits, candidates);
    ScoresIdentity(p, st.circuits, candidates, 0);
    ScoresIdentity(p, st.circuits, candidates, 1);
    assert Due(st.circuits, s, 0, now) && !Due(st.circuits, s, 1, now);
    assert candidates[1].name == other;
  }

  lemma {:induction false} LongerName(names: set<string>) returns (b: string)
    ensures forall n :: n in names ==> |n| < |b|
  {
    if names == {} {
      b := "x";
    } else {
      var n :| n in names;
      b := LongerName(names - {n});
      if |n| >= |b| { b := n + "x"; }
    }
  }

  lemma {:induction false} RepliesPrefix(events: seq<Event>, more: seq<Event>, name: string, n: nat)
    requires n <= |events|
    ensures Replies(events + more, name, n) == Replies(events, name, n)
  {
    if n > 0 { RepliesPrefix(events, more, name, n - 1); }
  }

  /** The state after one more event. */
  function After(p: Params, events: seq<Event>, st: State, e: Event): State {
    Successor(p, events + [e], |events|, st)
  }

  lemma RunExtends(p: Params, events: seq<Event>, states: seq<State>, e: Event)
    requires IsRun(p, events, states)
    ensures IsRun(p, events + [e], states + [After(p, events, states[|events|], e)])
  {
    var events', states' := events + [e], states + [After(p, events, states[|events|], e)];
    forall i | 0 <= i < |events'| ensures Step(p, events', i, states'[i], states'[i + 1]) {
      if i < |events| {
        assert Step(p, events, i, states[i], states[i + 1]);
        if events[i].Reply? { RepliesPrefix(events, [e], events[i].name, i + 1); }
      }
    }
  }

  lemma MatchedExtends(p: Params, events: seq<Event>, states: seq<State>, e: Event, st: State)
    requires |states| == |events| + 1 && Matched(p, events, states)
    requires e.Reply? ==> Pending(events, SentTo(p, events, states, e.name), e.query, |events|)
    ensures Matched(p, events + [e], states + [st])
  {
    var n, events', states' := |events|, events + [e], states + [st];
    forall name ensures Answers(events', name, SentTo(p, events', states', name)) {
      var sent, sent' := SentTo(p, events, states, name), SentTo(p, events', states', name);
      assert Answers(events, name, sent);
      forall j | 0 <= j < |events'| && ReplyOf(events'[j], name)
        ensures events'[j].query < j && sent'[events'[j].query]
      {
        assert j < n ==> events'[j] == events[j];
        assert sent'[events'[j].query] == sent[events'[j].query];
      }
    }
  }

  lemma MonotoneExtends(events: seq<Event>, e: Event)
    requires Monotone(events) && Time(e) <= Latest(e)
    requires events != [] ==> Latest(events[|events| - 1]) <= Time(e)
    ensures Monotone(events + [e])
  {
  }

  // ---------- when probes can overlap ----------

  /** A longer run, with matched replies and a clock that is as good as before. */
  ghost predicate Continues(p: Params, events: seq<Event>, more: seq<Event>, states: seq<State>) {
    && IsRun(p, events + more, states) && Matched(p, events + more, states)
    && (Monotone(events) ==> Monotone(events + more))
  }

  /** How a run goes on, up to a second probe. */
  datatype Future = Future(more: seq<Event>, states: seq<State>, second: nat)

  ghost predicate Overlaps(p: Params, events: seq<Event>, name: string, i: nat, f: Future) {
    Continues(p, events, f.more, f.states) && SecondProbe(p, events + f.more, f.states, name, i, f.second)
  }

  /** The run can go on so that the resolver probed at i is probed again with no answer to the first probe. */
  ghost predicate CanOverlap(p: Params, events: seq<Event>, name: string, i: nat) {
    exists f :: Overlaps(p, events, name, i, f)
  }

  lemma ProbeRaisesFlag(p: Params, events: seq<Event>, states: seq<State>, name: string, i: nat)
    requires IsRun(p, events, states) && i < |events| && Probes(p, states[i], events[i], name)
    ensures Breaker(states[i + 1], name).open && Breaker(states[i + 1], name).probing
  {
    var t := TrailOf(p, events, states, name);
    assert TrailStep(p, events, name, t, i);
  }

  /** A query under way ends as a timeout: whatever query it was, the flag comes down. */
  lemma TimeoutLowersFlag(p: Params, events: seq<Event>, states: seq<State>, name: string, q: nat)
    returns (reply: Event, st: State)
    requires IsRun(p, events, states) && Matched(p, events, states) && events != []
    requires Breaker(states[|events|], name).open && Breaker(states[|events|], name).probing
    requires Pending(events, SentTo(p, events, states, name), q, |events|)
    ensures reply == Reply(name, q, TIMED_OUT, Latest(events[|events| - 1]))
    ensures Continues(p, events, [reply], states + [st])
    ensures Breaker(st, name).open && !Breaker(st, name).probing
    ensures Breaker(st, name).nextProbeAt == reply.now + p.halfOpenInterval
  {
    reply := Reply(name, q, TIMED_OUT, Latest(events[|events| - 1]));
    st := After(p, events, states[|events|], reply);
    RunExtends(p, events, states, reply);
    MatchedExtends(p, events, states, reply, st);
    if Monotone(events) { MonotoneExtends(events, reply); }
  }

  /** A resolver that is due is probed when it is offered with one that nothing is known of. */
  lemma ProbedAgain(p: Params, events: seq<Event>, states: seq<State>, name: string, now: int)
    returns (query: Event, st: State)
    requires IsRun(p, events, states) && Matched(p, events, states)
    requires events != [] ==> Latest(events[|events| - 1]) <= now
    requires var c := Breaker(states[|events|], name); c.open && !c.probing && c.nextProbeAt <= now
    ensures Continues(p, events, [query], states + [st])
    ensures Probes(p, states[|events|], query, name) && Guarded(states[|events|], query)
  {
    var last := states[|events|];
    var other := LongerName(last.circuits.Keys);
    query := Query([Unknown(name), Unknown(other)], At(now));
    st := After(p, events, last, query);
    DueIsProbed(p, last, name, other, now);
    RunExtends(p, events, states, query);
    MatchedExtends(p, events, states, query, st);
    if Monotone(events) { MonotoneExtends(events, query); }
  }

  /** A query that has just gone out has no answer yet. */
  lemma NotYetAnswered(p: Params, events: seq<Event>, states: seq<State>, i: nat)
    requires |states| == |events| + 1 && Matched(p, events, states) && |events| == i + 1
    ensures Unanswered(events, i, i + 1)
  {
    forall j | 0 <= j <= i && events[j].Reply? ensures events[j].query != i {
      assert Answers(events, events[j].name, SentTo(p, events, states, events[j].name));
    }
  }

  lemma IsSecondProbe(
    p: Params, events: seq<Event>, reply: Event, query: Event, states: seq<State>, name: string, i: nat)
    requires |events| == i + 1 && |states| == i + 4 && Unanswered(events, i, i + 1)
    requires reply.Reply? && reply.query != i
    requires Probes(p, states[i + 2], query, name) && Guarded(states[i + 2], query)
    ensures SecondProbe(p, events + [reply, query], states, name, i, i + 2)
  {
    var all := events + [reply, query];
    assert all[i + 1] == reply && all[i + 2] == query;
    forall j | 0 <= j < i + 2 && all[j].Reply? ensures all[j].query != i {
      if j <= i { assert all[j] == events[j]; }
    }
    forall j | i < j <= i + 2 ensures Guarded(states[j], all[j]) {
      if j == i + 1 { assert !all[j].Query?; }
    }
  }

  /** The run has just probed a resolver that still has another query under way. */
  ghost predicate Poised(p: Params, events: seq<Event>, states: seq<State>, name: string, i: nat, q: nat) {
    && IsRun(p, events, states) && Matched(p, events, states)
    && |events| == i + 1 && Unanswered(events, i, i + 1)
    && Breaker(states[i + 1], name).open && Breaker(states[i + 1], name).probing
    && q != i && Pending(events, SentTo(p, events, states, name), q, i + 1)
  }

  /** The other query ends first; the flag comes down; after the interval the resolver is probed again. */
  lemma SecondProbeFollows(p: Params, events: seq<Event>, states: seq<State>, name: string, i: nat, q: nat)
    returns (f: Future)
    requires Poised(p, events, states, name, i, q)
    ensures Overlaps(p, events, name, i, f)
  {
    var reply, st := TimeoutLowersFlag(p, events, states, name, q);
    var query, st' := ProbedAgain(p, events + [reply], states + [st], name, reply.now + p.halfOpenInterval);
    var states' := states + [st] + [st'];
    assert events + [reply] + [query] == events + [reply, query];
    IsSecondProbe(p, events, reply, query, states', name, i);
    f := Future([reply, query], states', i + 2);
  }

  lemma SamePast(p: Params, events: seq<Event>, states: seq<State>, more: seq<Event>, states': seq<State>, n: nat)
    requires IsRun(p, events, states) && IsRun(p, events + more, states') && n <= |events|
    ensures states'[n] == states[n]
  {
    var past := states'[..|events| + 1];
    forall k | 0 <= k < |events| ensures Step(p, events, k, past[k], past[k + 1]) {
      assert Step(p, events + more, k, states'[k], states'[k + 1]);
      if events[k].Reply? { RepliesPrefix(events, more, events[k].name, k + 1); }
    }
    RunUnique(p, events, states, past, n);
  }

  lemma StillPending(events: seq<Event>, sent: seq<bool>, q: nat, n: nat)
    requires n < |events| == |sent| && events[n].Query? && Pending(events, sent, q, n)
    ensures Pending(events, sent, q, n + 1)
  {
  }

  lemma IsPoised(p: Params, events: seq<Event>, states: seq<State>, name: string, i: nat, q: nat)
    requires IsRun(p, events, states) && Matched(p, events, states)
    requires |events| == i + 1 && Probes(p, states[i], events[i], name)
    requires Pending(events, SentTo(p, events, states, name), q, i)
    ensures Poised(p, events, states, name, i, q)
  {
    ProbeRaisesFlag(p, events, states, name, i);
    NotYetAnswered(p, events, states, i);
    StillPending(events, SentTo(p, events, states, name), q, i);
  }

  lemma SamePending(
    p: Params, events: seq<Event>, states: seq<State>, more: seq<Event>, states': seq<State>, name: string, i: nat,
    q: nat)
    requires IsRun(p, events, states) && IsRun(p, events + more, states') && i <= |events|
    requires Pending(events + more, SentTo(p, events + more, states', name), q, i)
    ensures Pending(events, SentTo(p, events, states, name), q, i)
  {
    var events' := events + more;
    SamePast(p, events, states, more, states', q);
    assert events'[q] == events[q];
    forall j | 0 <= j < i && events[j].Reply? ensures events[j].query != q {
      assert events'[j] == events[j];
    }
  }

  lemma OverlapPends(p: Params, events: seq<Event>, states: seq<State>, name: string, i: nat, f: Future)
    requires IsRun(p, events, states) && i < |events| && Probes(p, states[i], events[i], name)
    requires Overlaps(p, events, name, i, f)
    ensures exists q: nat :: Pending(events, SentTo(p, events, states, name), q, i)
  {
    var events', states' := events + f.more, f.states;
    SamePast(p, events, states, f.more, states', i);
    assert events'[i] == events[i];
    if q: nat :| Pending(events', SentTo(p, events', states', name), q, i) {
      SamePending(p, events, states, f.more, states', name, i, q);
    } else {
      NoSecondProbe(p, events', states', name, i, f.second);
    }
  }

  /** A probe of a resolver can be followed by a second one before it is answered, each selection having a closed
      candidate to turn to, if and only if another query of that resolver is under way when it goes out. */
  lemma ProbesOverlapIff(p: Params, events: seq<Event>, states: seq<State>, name: string, i: nat)
    requires IsRun(p, events, states) && Matched(p, events, states)
    requires |events| == i + 1 && Probes(p, states[i], events[i], name)
    ensures CanOverlap(p, events, name, i) <==>
            exists q: nat :: Pending(events, SentTo(p, events, states, name), q, i)
  {
    if q: nat :| Pending(events, SentTo(p, events, states, name), q, i) {
      IsPoised(p, events, states, name, i, q);
      var f := SecondProbeFollows(p, events, states, name, i, q);
    }
    if f :| Overlaps(p, events, name, i, f) {
      OverlapPends(p, events, states, name, i, f);
    }
  }

  // ---------- a run with two probes under way ----------

  const SECOND: int := 1_000_000_000

  /** Opens at the first hard failure and probes again after a second. */
  const HASTY: Params :=
    DEFAULT_PARAMS.(warmupSamples := 1, penaltyMinSamples := 1, breakerThreshold := 1, halfOpenInterval := SECOND)

  /** Two queries to the only resolver; the first one times out. */
  const ONE_OF_TWO_FAILS: seq<Event> :=
    [Query([Unknown("a")], At(0)), Query([Unknown("a")], At(0)), Reply("a", 0, TIMED_OUT, 0)]

  lemma EmptyRun(p: Params)
    ensures IsRun(p, [], [INITIAL]) && Matched(p, [], [INITIAL])
  {
  }

  lemma SoleGetsQuery(p: Params, st: State, name: string, now: int)
    ensures Sends(p, st, Query([Unknown(name)], At(now)), name)
    ensures After(p, [], st, Query([Unknown(name)], At(now))).circuits == st.circuits
  {
  }

  lemma OneOfTwoFails() returns (states: seq<State>)
    ensures IsRun(HASTY, ONE_OF_TWO_FAILS, states) && Matched(HASTY, ONE_OF_TWO_FAILS, states)
    ensures Breaker(states[3], "a") == Circuit(1, true, false, 0, SECOND, 0)
    ensures Pending(ONE_OF_TWO_FAILS, SentTo(HASTY, ONE_OF_TWO_FAILS, states, "a"), 1, 3)
  {
    var sole, reply := Query([Unknown("a")], At(0)), Reply("a", 0, TIMED_OUT, 0);
    var one, two := [sole], [sole, sole];
    EmptyRun(HASTY);
    SoleGetsQuery(HASTY, INITIAL, "a", 0);
    var st1 := After(HASTY, [], INITIAL, sole);
    RunExtends(HASTY, [], [INITIAL], sole);
    MatchedExtends(HASTY, [], [INITIAL], sole, st1);
    SoleGetsQuery(HASTY, st1, "a", 0);
    var st2 := After(HASTY, one, st1, sole);
    RunExtends(HASTY, one, [INITIAL, st1], sole);
    MatchedExtends(HASTY, one, [INITIAL, st1], sole, st2);
    assert one + [sole] == two && [INITIAL, st1] + [st2] == [INITIAL, st1, st2];
    var st3 := After(HASTY, two, st2, reply);
    RunExtends(HASTY, two, [INITIAL, st1, st2], reply);
    MatchedExtends(HASTY, two, [INITIAL, st1, st2], reply, st3);
    states := [INITIAL, st1, st2, st3];
    assert two + [reply] == ONE_OF_TWO_FAILS && [INITIAL, st1, st2] + [st3] == states;
    assert Replies(two + [reply], "a", 1) == 0;
    assert Replies(two + [reply], "a", 2) == 0;
    assert Replies(two + [reply], "a", 3) == 1;
  }

  lemma ProbesFromPast(past: seq<State>, probe: Event, st: State)
    requires IsRun(HASTY, ONE_OF_TWO_FAILS, past)
    requires Pending(ONE_OF_TWO_FAILS, SentTo(HASTY, ONE_OF_TWO_FAILS, past, "a"), 1, 3)
    requires Continues(HASTY, ONE_OF_TWO_FAILS, [probe], past + [st])
    requires Probes(HASTY, past[3], probe, "a")
    ensures Poised(HASTY, ONE_OF_TWO_FAILS + [probe], past + [st], "a", 3, 1)
  {
    var events, states := ONE_OF_TWO_FAILS + [probe], past + [st];
    var sent, sent' := SentTo(HASTY, ONE_OF_TWO_FAILS, past, "a"), SentTo(HASTY, events, states, "a");
    assert events[1] == ONE_OF_TWO_FAILS[1] && sent'[1] == sent[1];
    IsPoised(HASTY, events, states, "a", 3, 1);
  }

  lemma OneOfTwoIsMonotone()
    ensures Monotone(ONE_OF_TWO_FAILS)
  {
  }

  /** After the first timeout the resolver is probed, the second query still under way. */
  lemma FirstProbe() returns (events: seq<Event>, states: seq<State>)
    ensures Poised(HASTY, events, states, "a", 3, 1) && Monotone(events)
    ensures Probes(HASTY, states[3], events[3], "a")
  {
    OneOfTwoIsMonotone();
    var past := OneOfTwoFails();
    var probe, st := ProbedAgain(HASTY, ONE_OF_TWO_FAILS, past, "a", SECOND);
    ProbesFromPast(past, probe, st);
    events, states := ONE_OF_TWO_FAILS + [probe], past + [st];
  }

  /** A run on which a resolver is probed while an earlier probe of it has no answer. */
  lemma TwoProbesUnderWay() returns (events: seq<Event>, states: seq<State>, i: nat, m: nat)
    ensures IsRun(HASTY, events, states) && Matched(HASTY, events, states) && Monotone(events)
    ensures i < m < |events| && Unanswered(events, i, m)
    ensures Probes(HASTY, states[i], events[i], "a") && Probes(HASTY, states[m], events[m], "a")
  {
    var past, pastStates := FirstProbe();
    var f := SecondProbeFollows(HASTY, past, pastStates, "a", 3, 1);
    SamePast(HASTY, past, pastStates, f.more, f.states, 3);
    events, states, i, m := past + f.more, f.states, 3, f.second;
    assert events[3] == past[3];
  }
}
