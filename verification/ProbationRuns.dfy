/** A hard failure that recovery probation absorbs, on a run of its own. */
module ProbationRuns {
  import opened Metrics
  import opened Scoring
  import opened Selection
  import opened SchedulerRuns
  import opened ProbeRuns

  /** A run up to time `now`, and how a resolver stands at its end. */
  ghost predicate Stands(
    p: Params, events: seq<Event>, states: seq<State>, name: string, c: Circuit, replies: nat, now: int)
  {
    && IsRun(p, events, states) && Matched(p, events, states) && Punctual(events, now)
    && Breaker(states[|events|], name) == c && Replies(events, name, |events|) == replies
  }

  /** The clock never runs backwards, and is not past `now`. */
  ghost predicate Punctual(events: seq<Event>, now: int) {
    Monotone(events) && (events != [] ==> Latest(events[|events| - 1]) <= now)
  }

  lemma PunctualExtends(events: seq<Event>, e: Event, now: int)
    requires Punctual(events, now) && Time(e) == Latest(e) == now
    ensures Punctual(events + [e], now)
  {
    MonotoneExtends(events, e);
    assert (events + [e])[|events|] == e;
  }

  lemma RunGoesOn(p: Params, events: seq<Event>, states: seq<State>, e: Event) returns (states': seq<State>)
    requires IsRun(p, events, states) && Matched(p, events, states)
    requires e.Reply? ==> Pending(events, SentTo(p, events, states, e.name), e.query, |events|)
    ensures IsRun(p, events + [e], states') && Matched(p, events + [e], states') && states <= states'
    ensures states'[|events| + 1] == After(p, events, states[|events|], e)
  {
    var st := After(p, events, states[|events|], e);
    RunExtends(p, events, states, e);
    MatchedExtends(p, events, states, e, st);
    states' := states + [st];
  }

  lemma {:induction false} RepliesAppend(events: seq<Event>, e: Event, name: string)
    ensures Replies(events + [e], name, |events| + 1)
         == Replies(events, name, |events|) + if ReplyOf(e, name) then 1 else 0
  {
    RepliesPrefix(events, [e], name, |events|);
    assert (events + [e])[|events|] == e;
  }

  lemma LastIsPending(p: Params, events: seq<Event>, states: seq<State>, name: string, q: nat)
    requires |states| == |events| + 1 && Matched(p, events, states) && |events| == q + 1
    requires Sends(p, states[q], events[q], name)
    ensures Pending(events, SentTo(p, events, states, name), q, q + 1)
  {
    NotYetAnswered(p, events, states, q);
    assert SentTo(p, events, states, name)[q];
  }

  lemma {:induction false} ReplyFeeds(
    p: Params, events: seq<Event>, st: State, name: string, q: nat, o: Outcome, now: int)
    ensures
      var replies := Replies(events, name, |events|) + 1;
      Breaker(After(p, events, st, Reply(name, q, o, now)), name) == Fed(p, Breaker(st, name), Hard(o), replies, now)
  {
    RepliesAppend(events, Reply(name, q, o, now), name);
  }

  /** The query that went out last is answered. */
  lemma AnswerLast(
    p: Params, events: seq<Event>, states: seq<State>, name: string, c: Circuit, replies: nat, q: nat, o: Outcome,
    now: int)
    returns (reply: Event, states': seq<State>)
    requires Stands(p, events, states, name, c, replies, now) && |events| == q + 1
    requires Pending(events, SentTo(p, events, states, name), q, |events|)
    ensures reply == Reply(name, q, o, now) && states <= states'
    ensures Stands(p, events + [reply], states', name, Fed(p, c, Hard(o), replies + 1, now), replies + 1, now)
  {
    reply := Reply(name, q, o, now);
    states' := RunGoesOn(p, events, states, reply);
    PunctualExtends(events, reply, now);
    RepliesAppend(events, reply, name);
    ReplyFeeds(p, events, states[|events|], name, q, o, now);
    assert states'[|events + [reply]|] == After(p, events, states[|events|], reply);
  }

  /** The only resolver gets a query. */
  lemma AskSole(p: Params, events: seq<Event>, states: seq<State>, name: string, c: Circuit, replies: nat, now: int)
    returns (query: Event, states': seq<State>)
    requires Stands(p, events, states, name, c, replies, now)
    ensures states <= states' && Stands(p, events + [query], states', name, c, replies, now)
    ensures Sends(p, states'[|events|], query, name)
  {
    query := Query([Unknown(name)], At(now));
    states' := RunGoesOn(p, events, states, query);
    PunctualExtends(events, query, now);
    RepliesAppend(events, query, name);
  }

  lemma OneExchange(
    p: Params, events: seq<Event>, states: seq<State>, name: string, c: Circuit, replies: nat, o: Outcome, now: int)
    returns (more: seq<Event>, states': seq<State>)
    requires Stands(p, events, states, name, c, replies, now)
    ensures |more| == 2 && more[1] == Reply(name, |events|, o, now) && states <= states'
    ensures Stands(p, events + more, states', name, Fed(p, c, Hard(o), replies + 1, now), replies + 1, now)
    ensures Breaker(states'[|events| + 1], name) == c
  {
    var query, asked := AskSole(p, events, states, name, c, replies, now);
    var reply;
    LastIsPending(p, events + [query], asked, name, |events|);
    reply, states' := AnswerLast(p, events + [query], asked, name, c, replies, |events|, o, now);
    more := [query, reply];
    assert events + [query] + [reply] == events + more;
  }

  lemma AskProbe(p: Params, events: seq<Event>, states: seq<State>, name: string, c: Circuit, replies: nat, now: int)
    returns (query: Event, states': seq<State>)
    requires Stands(p, events, states, name, c, replies, now) && c.open && !c.probing && c.nextProbeAt <= now
    ensures states <= states' && Stands(p, events + [query], states', name, c.(probing := true), replies, now)
    ensures Sends(p, states'[|events|], query, name)
  {
    var last := states[|events|];
    var other := LongerName(last.circuits.Keys);
    query := Query([Unknown(name), Unknown(other)], At(now));
    DueIsProbed(p, last, name, other, now);
    states' := RunGoesOn(p, events, states, query);
    PunctualExtends(events, query, now);
    RepliesAppend(events, query, name);
  }

  /** A due resolver is probed and answers. */
  lemma ProbeAnswers(
    p: Params, events: seq<Event>, states: seq<State>, name: string, c: Circuit, replies: nat, now: int)
    returns (more: seq<Event>, states': seq<State>)
    requires Stands(p, events, states, name, c, replies, now) && c.open && !c.probing && c.nextProbeAt <= now
    ensures |more| == 2 && states <= states'
    ensures Stands(
              p, events + more, states', name, Fed(p, c.(probing := true), false, replies + 1, now), replies + 1, now)
  {
    var query, asked := AskProbe(p, events, states, name, c, replies, now);
    LastIsPending(p, events + [query], asked, name, |events|);
    var reply;
    reply, states' :=
      AnswerLast(p, events + [query], asked, name, c.(probing := true), replies, |events|, ANSWERED, now);
    more := [query, reply];
    assert events + [query] + [reply] == events + more;
  }

  /** Opens at the first hard failure past two samples. */
  const EAGER: Params := DEFAULT_PARAMS.(warmupSamples := 2, penaltyMinSamples := 1, breakerThreshold := 1)

  /** A run on which a mature, closed resolver has a hard failure and stays closed, although the threshold is one:
      an answer, a failure that opens the circuit, a probe that is answered, a failure. */
  lemma ProbationAbsorbsFailure() returns (events: seq<Event>, states: seq<State>, i: nat)
    ensures EAGER.breakerThreshold == 1 && IsRun(EAGER, events, states) && Matched(EAGER, events, states)
    ensures Monotone(events)
    ensures i < |events| && HardReply(events[i], "a") && Replies(events, "a", i + 1) >= EAGER.warmupSamples
    ensures !Breaker(states[i], "a").open && !Breaker(states[i + 1], "a").open
  {
    var later := EAGER.halfOpenInterval;
    EmptyRun(EAGER);
    var more;
    more, states := OneExchange(EAGER, [], [INITIAL], "a", NEW_CIRCUIT, 0, ANSWERED, 0);
    events := [] + more;
    more, states := OneExchange(EAGER, events, states, "a", NEW_CIRCUIT, 1, TIMED_OUT, 0);
    events := events + more;
    var tripped := Fed(EAGER, NEW_CIRCUIT, true, 2, 0);
    assert Stands(EAGER, events, states, "a", tripped, 2, later);
    more, states := ProbeAnswers(EAGER, events, states, "a", tripped, 2, later);
    events := events + more;
    var recovering := Fed(EAGER, tripped.(probing := true), false, 3, later);
    more, states := OneExchange(EAGER, events, states, "a", recovering, 3, TIMED_OUT, later);
    i := |events| + 1;
    events := events + more;
  }
}
