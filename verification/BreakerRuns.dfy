/** The circuit breaker over every run: when it opens, when it closes, and when it is probed. */
module BreakerRuns {
  import opened Scoring
  import opened Selection
  import opened SchedulerRuns

  // ---------- invariants ----------

  /** Length of the trailing run of hard failures, all of them past warmup, among the resolver's replies
      in the first n events. */
  function Streak(p: Params, events: seq<Event>, name: string, n: nat): nat
    requires n <= |events|
  {
    if n == 0 then 0
    else if !ReplyOf(events[n - 1], name) then Streak(p, events, name, n - 1)
    else if Hard(events[n - 1].outcome) && Replies(events, name, n) >= p.warmupSamples then
      Streak(p, events, name, n - 1) + 1
    else 0
  }

  /** What the length means: so many replies of the resolver in a row, up to event n, are all hard failures and past
      warmup, and it is not possible to go back further. */
  lemma {:induction false} StreakMeans(p: Params, events: seq<Event>, name: string, n: nat) returns (i: nat)
    requires n <= |events|
    ensures i <= n && Replies(events, name, n) - Replies(events, name, i) == Streak(p, events, name, n)
    ensures forall k :: i <= k < n && ReplyOf(events[k], name) ==>
              Hard(events[k].outcome) && Replies(events, name, k + 1) >= p.warmupSamples
    ensures i > 0 ==>
              && ReplyOf(events[i - 1], name)
              && (!Hard(events[i - 1].outcome) || Replies(events, name, i) < p.warmupSamples)
  {
    if n == 0 {
      i := 0;
    } else if ReplyOf(events[n - 1], name)
              && (!Hard(events[n - 1].outcome) || Replies(events, name, n) < p.warmupSamples) {
      i := n;
    } else {
      i := StreakMeans(p, events, name, n - 1);
    }
  }

  function AtLeast(a: nat, b: nat): nat {
    if a < b then b else a
  }

  ghost predicate Sound(p: Params, c: Circuit, total: nat, streak: nat) {
    && (c.probing ==> c.open)
    && (c.open ==> c.recoverUntilTotal == 0)
    && (c.open || c.recoverUntilTotal > 0 ==> total >= p.warmupSamples)
    && c.consecHardFails <= streak
    && (!c.open ==> c.consecHardFails < AtLeast(p.breakerThreshold, 2))
  }

  lemma FedKeepsSound(p: Params, c: Circuit, hard: bool, total: nat, now: int, streak: nat)
    requires total > 0 && Sound(p, c, total - 1, streak)
    ensures Sound(p, Fed(p, c, hard, total, now), total, if hard && total >= p.warmupSamples then streak + 1 else 0)
  {
  }

  /** In every reachable state the probe flag is up only on an open circuit, an open circuit is on no
      probation, and the failure count never exceeds the run of hard failures since warmup. */
  lemma {:induction false} AlwaysSound(p: Params, events: seq<Event>, name: string, t: Trail, n: nat)
    requires IsTrail(p, events, name, t) && n <= |events|
    ensures Sound(p, t.circuits[n], Replies(events, name, n), Streak(p, events, name, n))
  {
    if n > 0 {
      AlwaysSound(p, events, name, t, n - 1);
      assert TrailStep(p, events, name, t, n - 1);
      var e := events[n - 1];
      if ReplyOf(e, name) {
        FedKeepsSound(
          p, t.circuits[n - 1], Hard(e.outcome), Replies(events, name, n), e.now, Streak(p, events, name, n - 1));
      }
    }
  }

  // ---------- opening and closing ----------

  /** A circuit opens only on a hard failure that completes at least BreakerThreshold consecutive ones,
      every one of them past warmup. */
  lemma OpensOnlyAfterStreak(p: Params, events: seq<Event>, name: string, t: Trail, i: nat)
    requires IsTrail(p, events, name, t) && i < |events|
    requires !t.circuits[i].open && t.circuits[i + 1].open
    ensures HardReply(events[i], name)
    ensures Streak(p, events, name, i + 1) >= AtLeast(p.breakerThreshold, 1)
  {
    assert TrailStep(p, events, name, t, i);
    AlwaysSound(p, events, name, t, i);
    AlwaysSound(p, events, name, t, i + 1);
  }

  /** A circuit closes only on a response that arrives while the probe flag is up, and that puts the
      resolver on probation for a fresh batch of samples. */
  lemma ClosesOnlyOnProbeResponse(p: Params, events: seq<Event>, name: string, t: Trail, i: nat)
    requires IsTrail(p, events, name, t) && i < |events|
    requires t.circuits[i].open && !t.circuits[i + 1].open
    ensures ReplyOf(events[i], name) && !Hard(events[i].outcome) && t.circuits[i].probing
    ensures t.circuits[i + 1].recoverUntilTotal == Replies(events, name, i + 1) + p.warmupSamples
    ensures t.circuits[i + 1].consecHardFails == 0
  {
    assert TrailStep(p, events, name, t, i);
  }

  /** No reply of the resolver from event i up to n is anything but a hard failure. */
  ghost predicate OnlyHard(events: seq<Event>, name: string, i: nat, n: nat)
    requires n <= |events|
  {
    forall k :: i <= k < n && ReplyOf(events[k], name) ==> Hard(events[k].outcome)
  }

  lemma {:induction false} RepliesGrow(events: seq<Event>, name: string, i: nat, n: nat)
    requires i <= n <= |events|
    ensures Replies(events, name, i) <= Replies(events, name, n)
  {
    if i < n { RepliesGrow(events, name, i, n - 1); }
  }

  /** After k hard failures in a row on a mature resolver the circuit is open, or it has counted all k. */
  lemma {:induction false} StreakCounts(p: Params, events: seq<Event>, name: string, t: Trail, i: nat, n: nat)
    requires IsTrail(p, events, name, t) && i <= n <= |events|
    requires Replies(events, name, i) >= p.warmupSamples
    requires OnlyHard(events, name, i, n)
    ensures
      var c, k := t.circuits[n], Replies(events, name, n) - Replies(events, name, i);
      k == 0 || c.open
      || (c.recoverUntilTotal <= Replies(events, name, n) && k <= c.consecHardFails < AtLeast(p.breakerThreshold, 2))
  {
    if i < n {
      StreakCounts(p, events, name, t, i, n - 1);
      assert TrailStep(p, events, name, t, n - 1);
      AlwaysSound(p, events, name, t, n - 1);
      AlwaysSound(p, events, name, t, n);
      RepliesGrow(events, name, i, n - 1);
    }
  }

  /** On a mature resolver the circuit is open no later than the max(2, BreakerThreshold)-th hard failure
      in a row, whatever else happens in between. */
  lemma {:induction false} OpensNoLaterThan(p: Params, events: seq<Event>, name: string, t: Trail, i: nat, n: nat)
    requires IsTrail(p, events, name, t) && i <= n <= |events|
    requires Replies(events, name, i) >= p.warmupSamples
    requires OnlyHard(events, name, i, n)
    requires Replies(events, name, n) - Replies(events, name, i) >= AtLeast(p.breakerThreshold, 2)
    ensures t.circuits[n].open
  {
    StreakCounts(p, events, name, t, i, n);
  }

  // ---------- recovery probation ----------

  /** Event k closes the circuit, which starts a probation of warmupSamples replies. */
  ghost predicate Closes(t: Trail, k: nat)
    requires k + 1 < |t.circuits|
  {
    t.circuits[k].open && !t.circuits[k + 1].open
  }

  /** Event k closed the circuit, fewer than warmupSamples replies ago counting event i, with no hard failure since. */
  ghost predicate ProbationFrom(p: Params, events: seq<Event>, name: string, t: Trail, k: nat, i: nat)
    requires k < i < |events| == |t.circuits| - 1
  {
    && Closes(t, k)
    && Replies(events, name, i + 1) < Replies(events, name, k + 1) + p.warmupSamples
    && forall j :: k < j < i ==> !HardReply(events[j], name)
  }

  lemma {:induction false} ProbationHolds(p: Params, events: seq<Event>, name: string, t: Trail, k: nat, n: nat)
    requires IsTrail(p, events, name, t) && k < n <= |events| && Closes(t, k)
    requires forall j :: k < j < n ==> !HardReply(events[j], name)
    ensures !t.circuits[n].open
    ensures t.circuits[n].recoverUntilTotal == Replies(events, name, k + 1) + p.warmupSamples
    decreases n
  {
    if n == k + 1 {
      ClosesOnlyOnProbeResponse(p, events, name, t, k);
    } else {
      ProbationHolds(p, events, name, t, k, n - 1);
      assert TrailStep(p, events, name, t, n - 1);
    }
  }

  lemma {:induction false} ProbationStems(p: Params, events: seq<Event>, name: string, t: Trail, n: nat)
    returns (k: nat)
    requires IsTrail(p, events, name, t) && n <= |events|
    requires t.circuits[n].recoverUntilTotal > Replies(events, name, n)
    ensures k < n && Closes(t, k) && forall j :: k < j < n ==> !HardReply(events[j], name)
    ensures t.circuits[n].recoverUntilTotal == Replies(events, name, k + 1) + p.warmupSamples
  {
    var i := n - 1;
    assert TrailStep(p, events, name, t, i);
    AlwaysSound(p, events, name, t, i);
    if t.circuits[i].open && !t.circuits[n].open {
      ClosesOnlyOnProbeResponse(p, events, name, t, i);
      k := i;
    } else {
      k := ProbationStems(p, events, name, t, i);
    }
  }

  /** With a threshold of one, a hard failure of a mature closed resolver opens its circuit if and only if the
      resolver is not on probation. */
  lemma OpensAtOnceIff(p: Params, events: seq<Event>, name: string, t: Trail, i: nat)
    requires IsTrail(p, events, name, t) && i < |events| && p.breakerThreshold <= 1
    requires HardReply(events[i], name) && !t.circuits[i].open && Replies(events, name, i + 1) >= p.warmupSamples
    ensures t.circuits[i + 1].open <==> !exists k :: 0 <= k < i && ProbationFrom(p, events, name, t, k, i)
  {
    assert TrailStep(p, events, name, t, i);
    AlwaysSound(p, events, name, t, i);
    if t.circuits[i].recoverUntilTotal > Replies(events, name, i + 1) {
      var k := ProbationStems(p, events, name, t, i);
      assert ProbationFrom(p, events, name, t, k, i);
    }
    forall k | 0 <= k < i && ProbationFrom(p, events, name, t, k, i) ensures !t.circuits[i + 1].open {
      ProbationHolds(p, events, name, t, k, i);
    }
  }

  // ---------- half-open probes ----------

  /** Event k starts a wait: it opens the circuit, or it is a hard failure that arrives while the probe flag is up. */
  ghost predicate Arms(events: seq<Event>, name: string, t: Trail, k: nat)
    requires k < |events| < |t.circuits|
  {
    HardReply(events[k], name) && if t.circuits[k].open then t.circuits[k].probing else t.circuits[k + 1].open
  }

  /** An open circuit that is free to be probed has waited since some arming event after its last probe. */
  lemma {:induction false} ArmedSince(p: Params, events: seq<Event>, name: string, t: Trail, from: nat, n: nat)
    returns (k: nat)
    requires IsTrail(p, events, name, t) && from <= n <= |events|
    requires t.circuits[from].probing || !t.circuits[from].open
    requires t.circuits[n].open && !t.circuits[n].probing
    ensures from <= k < n && Arms(events, name, t, k)
    ensures t.circuits[n].nextProbeAt == Time(events[k]) + p.halfOpenInterval
    decreases n
  {
    assert TrailStep(p, events, name, t, n - 1);
    AlwaysSound(p, events, name, t, n - 1);
    var c := t.circuits[n - 1];
    if c.open && !c.probing {
      k := ArmedSince(p, events, name, t, from, n - 1);
    } else {
      k := n - 1;
    }
  }

  /** Every probe goes out at least HalfOpenInterval after the opening or the failure that armed it, and between
      two probes of one resolver there is always such an event.  (i = -1 stands for the start of the run.) */
  lemma ProbesSpaced(p: Params, events: seq<Event>, name: string, t: Trail, i: int, j: nat) returns (k: nat)
    requires IsTrail(p, events, name, t) && -1 <= i < j < |events|
    requires i >= 0 ==> t.probes[i]
    requires t.probes[j]
    ensures i < k < j && Arms(events, name, t, k)
    ensures Time(events[k]) + p.halfOpenInterval <= Time(events[j])
  {
    assert TrailStep(p, events, name, t, j);
    if i >= 0 { assert TrailStep(p, events, name, t, i); }
    k := ArmedSince(p, events, name, t, i + 1, j);
  }

  /** While the probe flag is up, the resolver has had no reply since the probe that raised it. */
  lemma {:induction false} FlagSinceProbe(p: Params, events: seq<Event>, name: string, t: Trail, n: nat)
    returns (i: nat)
    requires IsTrail(p, events, name, t) && n <= |events|
    requires t.circuits[n].probing
    ensures i < n && t.probes[i]
    ensures forall k :: i <= k < n ==> !ReplyOf(events[k], name)
  {
    assert TrailStep(p, events, name, t, n - 1);
    AlwaysSound(p, events, name, t, n - 1);
    if t.probes[n - 1] {
      i := n - 1;
    } else {
      i := FlagSinceProbe(p, events, name, t, n - 1);
    }
  }

  /** An open circuit remembers the event that opened it. */
  lemma {:induction false} OpenSince(p: Params, events: seq<Event>, name: string, t: Trail, n: nat)
    returns (k: nat)
    requires IsTrail(p, events, name, t) && n <= |events| && t.circuits[n].open
    ensures k < n && !t.circuits[k].open && forall j :: k < j <= n ==> t.circuits[j].open
    ensures t.circuits[n].openedAt == Time(events[k])
  {
    assert TrailStep(p, events, name, t, n - 1);
    if t.circuits[n - 1].open {
      k := OpenSince(p, events, name, t, n - 1);
    } else {
      k := n - 1;
    }
  }

  /** The probe goes to the longest outage: whatever other candidate was due as well opened no earlier. */
  lemma LongestOutageFirst(p: Params, events: seq<Event>, states: seq<State>, n: nat, a: string, b: nat)
    returns (j: nat, k: nat)
    requires IsRun(p, events, states) && n < |events| && Probes(p, states[n], events[n], a)
    requires b < |events[n].candidates|
    requires
      var c := Breaker(states[n], events[n].candidates[b].name);
      c.open && !c.probing && c.nextProbeAt <= Time(events[n])
    ensures j < n && !Breaker(states[j], a).open && forall i :: j < i <= n ==> Breaker(states[i], a).open
    ensures
      var other := events[n].candidates[b].name;
      k < n && !Breaker(states[k], other).open && forall i :: k < i <= n ==> Breaker(states[i], other).open
    ensures Time(events[j]) <= Time(events[k])
  {
    var e, other := events[n], events[n].candidates[b].name;
    var s := Scores(p, states[n].circuits, e.candidates);
    var pick := ProbeAmong(states[n].circuits, s, e.oracle.now, |s|);
    ScoresIdentity(p, states[n].circuits, e.candidates, b);
    ScoresIdentity(p, states[n].circuits, e.candidates, pick);
    assert Due(states[n].circuits, s, b, e.oracle.now);
    var t := TrailOf(p, events, states, a);
    var u := TrailOf(p, events, states, other);
    j := OpenSince(p, events, a, t, n);
    k := OpenSince(p, events, other, u, n);
  }

  /** With two or more candidates, one of them closed, an open resolver is selected only as a due probe. */
  lemma OpenSelectedOnlyAsProbe(p: Params, st: State, cs: seq<Candidate>, o: Oracle, healthy: nat)
    requires |cs| >= 2 && healthy < |cs|
    requires !Breaker(st, cs[healthy].name).open
    ensures
      var d := Select(p, st, cs, o);
      && 0 <= d.index < |cs|
      && var c := Breaker(st, cs[d.index].name);
         c.open ==> d.reason.Probe? && !c.probing && c.nextProbeAt <= o.now
  {
    var s := Scores(p, st.circuits, cs);
    ScoresIdentity(p, st.circuits, cs, healthy);
    assert Eligible(s, healthy, -1, true);
    SelectedIndex(p, st, s, o, healthy);
    ScoresIdentity(p, st.circuits, cs, SelectScored(p, st, s, o).index);
  }

  lemma SelectedIndex(p: Params, st: State, s: seq<Scored>, o: Oracle, healthy: nat)
    requires |s| >= 2 && healthy < |s| && Eligible(s, healthy, -1, true)
    ensures
      var d := SelectScored(p, st, s, o);
      && 0 <= d.index < |s|
      && (d.reason.Probe? ==> Due(st.circuits, s, d.index, o.now))
      && (!d.reason.Probe? ==> !s[d.index].open)
  {
    var primary := IndexOfName(s, st.primaryName, |s|);
    var pool := ExplorePool(s, primary);
    if pool != [] { assert pool[o.pick % |pool|] in pool; }
    assert Scan(p, s, -1, true, |s|) >= 0;
  }
}
