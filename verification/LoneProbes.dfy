/** What the answer to a half-open probe does: when the reply that lowers the flag, arms the next probe or closes
    the circuit is the probe's own answer. */
module LoneProbes {
  import opened Scoring
  import opened Selection
  import opened SchedulerRuns
  import opened BreakerRuns
  import opened ProbeRuns

  /** A probe goes out at event i, and no other query of the resolver is under way. */
  ghost predicate LoneProbe(p: Params, events: seq<Event>, states: seq<State>, name: string, i: nat)
    requires |states| == |events| + 1
  {
    && i < |events| && Probes(p, states[i], events[i], name)
    && forall q: nat :: !Pending(events, SentTo(p, events, states, name), q, i)
  }

  /** Every selection after event i and before n has a closed candidate to turn to. */
  ghost predicate GuardedBetween(events: seq<Event>, states: seq<State>, i: nat, n: nat)
    requires n <= |events| < |states|
  {
    forall j :: i < j < n ==> Guarded(states[j], events[j])
  }

  /** The resolver is not heard from after event i and before n. */
  ghost predicate Silent(events: seq<Event>, name: string, i: nat, n: nat)
    requires n <= |events|
  {
    forall j :: i < j < n ==> !ReplyOf(events[j], name)
  }

  // ---------- the first reply ----------

  /** Only the resolver that was probed answers a probe. */
  lemma SilentIsUnanswered(p: Params, events: seq<Event>, states: seq<State>, name: string, i: nat, n: nat)
    requires |states| == |events| + 1 && Matched(p, events, states)
    requires i < n <= |events| && Probes(p, states[i], events[i], name) && Silent(events, name, i, n)
    ensures Unanswered(events, i, n)
  {
    forall j | 0 <= j < n && events[j].Reply? ensures events[j].query != i {
      var sent := SentTo(p, events, states, events[j].name);
      assert Answers(events, events[j].name, sent);
      assert sent[i] ==> events[j].name == name;
    }
  }

  /** The first reply of the resolver after a lone probe is the answer to that probe. */
  lemma FirstReplyIsAnswer(p: Params, events: seq<Event>, states: seq<State>, name: string, i: nat, n: nat)
    requires IsRun(p, events, states) && Matched(p, events, states)
    requires LoneProbe(p, events, states, name, i) && i < n < |events| && GuardedBetween(events, states, i, n)
    requires ReplyOf(events[n], name) && Silent(events, name, i, n)
    ensures events[n].query == i
  {
    var t := TrailOf(p, events, states, name);
    var sent := SentTo(p, events, states, name);
    SilentIsUnanswered(p, events, states, name, i, n);
    forall j | i < j < n && t.circuits[j].open && t.circuits[j].probing ensures !sent[j] {
      ProbedGetsNothing(p, states[j], events[j], name);
    }
    assert Answers(events, name, sent);
    StaysAlone(p, events, name, t, sent, i, n);
    assert Pending(events, sent, events[n].query, n);
  }

  lemma {:induction false} FirstReply(events: seq<Event>, name: string, i: nat, n: nat) returns (a: nat)
    requires i < n < |events| && ReplyOf(events[n], name)
    ensures i < a <= n && ReplyOf(events[a], name) && Silent(events, name, i, a)
  {
    if j :| i < j < n && ReplyOf(events[j], name) {
      a := FirstReply(events, name, i, j);
    } else {
      a := n;
    }
  }

  // ---------- the next probe ----------

  /** Once the answer is in, the flag is down until the next probe. */
  lemma {:induction false} FlagStaysDown(p: Params, events: seq<Event>, name: string, t: Trail, a: nat, n: nat)
    requires IsTrail(p, events, name, t) && a < n <= |events| && ReplyOf(events[a], name)
    requires forall j :: a < j < n ==> !t.probes[j]
    ensures !t.circuits[n].probing
  {
    assert TrailStep(p, events, name, t, n - 1);
    AlwaysSound(p, events, name, t, n - 1);
    if a < n - 1 { FlagStaysDown(p, events, name, t, a, n - 1); }
  }

  /** Between two probes in a row there is a first reply, and an arming event that is that reply or a later opening. */
  lemma WaitsOnTrail(p: Params, events: seq<Event>, name: string, t: Trail, i: nat, j: nat) returns (a: nat, k: nat)
    requires IsTrail(p, events, name, t) && i < j < |events| && t.probes[i] && t.probes[j]
    requires forall m :: i < m < j ==> !t.probes[m]
    ensures i < a <= k < j && ReplyOf(events[a], name) && Silent(events, name, i, a) && HardReply(events[k], name)
    ensures a < k ==> !t.circuits[k].open && t.circuits[k + 1].open
    ensures Time(events[k]) + p.halfOpenInterval <= Time(events[j])
  {
    k := ProbesSpaced(p, events, name, t, i, j);
    a := FirstReply(events, name, i, k);
    if a < k { FlagStaysDown(p, events, name, t, a, k); }
  }

  lemma EarlierIsNoLater(events: seq<Event>, a: nat, k: nat)
    requires Monotone(events) && a <= k < |events|
    ensures Time(events[a]) <= Time(events[k])
  {
  }

  /** After a lone probe at i the next one, at j, comes once the first is answered, and at least HalfOpenInterval
      after that answer, a failure, or after a later opening. */
  lemma NextProbeWaits(p: Params, events: seq<Event>, states: seq<State>, name: string, i: nat, j: nat)
    returns (a: nat, k: nat)
    requires IsRun(p, events, states) && Matched(p, events, states)
    requires LoneProbe(p, events, states, name, i) && i < j < |events| && GuardedBetween(events, states, i, j)
    requires Probes(p, states[j], events[j], name)
    requires forall m :: i < m < j ==> !Probes(p, states[m], events[m], name)
    ensures i < a <= k < j && ReplyOf(events[a], name) && events[a].query == i && HardReply(events[k], name)
    ensures a < k ==> !Breaker(states[k], name).open && Breaker(states[k + 1], name).open
    ensures Time(events[k]) + p.halfOpenInterval <= Time(events[j])
    ensures Monotone(events) ==> Time(events[a]) + p.halfOpenInterval <= Time(events[j])
  {
    var t := TrailOf(p, events, states, name);
    a, k := WaitsOnTrail(p, events, name, t, i, j);
    FirstReplyIsAnswer(p, events, states, name, i, a);
    if Monotone(events) { EarlierIsNoLater(events, a, k); }
  }

  // ---------- closing ----------

  /** A circuit closes on a response while the flag of some probe is up; if that was a lone probe, the response is
      its own answer. */
  lemma ClosedByOwnAnswer(p: Params, events: seq<Event>, states: seq<State>, name: string, c: nat) returns (i: nat)
    requires IsRun(p, events, states) && Matched(p, events, states) && c < |events|
    requires Breaker(states[c], name).open && !Breaker(states[c + 1], name).open
    ensures i < c && Probes(p, states[i], events[i], name) && Silent(events, name, i, c)
    ensures ReplyOf(events[c], name) && !Hard(events[c].outcome)
    ensures LoneProbe(p, events, states, name, i) && GuardedBetween(events, states, i, c) ==> events[c].query == i
  {
    var t := TrailOf(p, events, states, name);
    ClosesOnlyOnProbeResponse(p, events, name, t, c);
    i := FlagSinceProbe(p, events, name, t, c);
    if LoneProbe(p, events, states, name, i) && GuardedBetween(events, states, i, c) {
      FirstReplyIsAnswer(p, events, states, name, i, c);
    }
  }

  /** The first reply after the probe at i answers another query, and closes the circuit. */
  ghost predicate StrayClose(p: Params, events: seq<Event>, states: seq<State>, name: string, i: nat, c: nat)
    requires |states| == |events| + 1
  {
    && i < c < |events| && ReplyOf(events[c], name) && events[c].query != i
    && Silent(events, name, i, c) && GuardedBetween(events, states, i, c)
    && Breaker(states[c], name).open && !Breaker(states[c + 1], name).open
  }

  ghost predicate StraysTo(p: Params, events: seq<Event>, name: string, i: nat, f: Future) {
    Continues(p, events, f.more, f.states) && StrayClose(p, events + f.more, f.states, name, i, f.second)
  }

  /** A query under way is answered: whatever query it was, the circuit closes. */
  lemma AnswerCloses(p: Params, events: seq<Event>, states: seq<State>, name: string, q: nat)
    returns (reply: Event, st: State)
    requires IsRun(p, events, states) && Matched(p, events, states) && events != []
    requires Breaker(states[|events|], name).open && Breaker(states[|events|], name).probing
    requires Pending(events, SentTo(p, events, states, name), q, |events|)
    ensures reply == Reply(name, q, ANSWERED, Latest(events[|events| - 1]))
    ensures Continues(p, events, [reply], states + [st]) && !Breaker(st, name).open
  {
    reply := Reply(name, q, ANSWERED, Latest(events[|events| - 1]));
    st := After(p, events, states[|events|], reply);
    RunExtends(p, events, states, reply);
    MatchedExtends(p, events, states, reply, st);
    if Monotone(events) { MonotoneExtends(events, reply); }
  }

  lemma StrayFollows(p: Params, events: seq<Event>, states: seq<State>, name: string, i: nat, q: nat)
    returns (f: Future)
    requires Poised(p, events, states, name, i, q)
    ensures StraysTo(p, events, name, i, f)
  {
    var reply, st := AnswerCloses(p, events, states, name, q);
    f := Future([reply], states + [st], i + 1);
    assert (events + [reply])[i + 1] == reply;
  }

  lemma StrayPends(p: Params, events: seq<Event>, states: seq<State>, name: string, i: nat, f: Future)
    requires IsRun(p, events, states) && i < |events| && Probes(p, states[i], events[i], name)
    requires StraysTo(p, events, name, i, f)
    ensures exists q: nat :: Pending(events, SentTo(p, events, states, name), q, i)
  {
    var events', states' := events + f.more, f.states;
    SamePast(p, events, states, f.more, states', i);
    assert events'[i] == events[i];
    if q: nat :| Pending(events', SentTo(p, events', states', name), q, i) {
      SamePending(p, events, states, f.more, states', name, i, q);
    } else {
      FirstReplyIsAnswer(p, events', states', name, i, f.second);
    }
  }

  /** A probe can end in the circuit being closed by the answer to another query if and only if another query of
      the resolver is under way when it goes out. */
  lemma StrayCloseIff(p: Params, events: seq<Event>, states: seq<State>, name: string, i: nat)
    requires IsRun(p, events, states) && Matched(p, events, states)
    requires |events| == i + 1 && Probes(p, states[i], events[i], name)
    ensures (exists f :: StraysTo(p, events, name, i, f)) <==>
            exists q: nat :: Pending(events, SentTo(p, events, states, name), q, i)
  {
    if q: nat :| Pending(events, SentTo(p, events, states, name), q, i) {
      IsPoised(p, events, states, name, i, q);
      var f := StrayFollows(p, events, states, name, i, q);
    }
    if f :| StraysTo(p, events, name, i, f) {
      StrayPends(p, events, states, name, i, f);
    }
  }

  /** A run on which a circuit is closed by the answer to a query sent before it opened, its probe unanswered. */
  lemma StrayCloses() returns (events: seq<Event>, states: seq<State>, c: nat)
    ensures IsRun(HASTY, events, states) && Matched(HASTY, events, states) && Monotone(events)
    ensures StrayClose(HASTY, events, states, "a", 3, c) && Probes(HASTY, states[3], events[3], "a")
  {
    var past, pastStates := FirstProbe();
    var f := StrayFollows(HASTY, past, pastStates, "a", 3, 1);
    SamePast(HASTY, past, pastStates, f.more, f.states, 3);
    events, states, c := past + f.more, f.states, f.second;
    assert events[3] == past[3];
  }
}
