/** Whole runs of the scheduler: arbitrary interleavings of selections and exchange feedback, for any
    pool of candidates, any scores, any clock readings and any random draws. */
module SchedulerRuns {
  import opened Metrics
  import opened Scoring
  import opened Selection

  /** A selection, or the end of the exchange that an earlier selection started. */
  datatype Event =
    | Query(candidates: seq<Candidate>, oracle: Oracle)
    | Reply(name: string, query: nat, outcome: Outcome, now: int)

  function Time(e: Event): int {
    if e.Query? then e.oracle.now else e.now
  }

  function Latest(e: Event): int {
    if e.Query? then e.oracle.installed else e.now
  }

  /** The clock never runs backwards, within an event or between events. */
  ghost predicate Monotone(events: seq<Event>) {
    && (forall i :: 0 <= i < |events| ==> Time(events[i]) <= Latest(events[i]))
    && (forall i, j :: 0 <= i < j < |events| ==> Latest(events[i]) <= Time(events[j]))
  }

  /** Lifetime samples of a resolver after n events: one per reply, because observeOutcome observes the
      outcome and then reads the total. */
  function Replies(events: seq<Event>, name: string, n: nat): nat
    requires n <= |events|
  {
    if n == 0 then 0 else
    Replies(events, name, n - 1) + if ReplyOf(events[n - 1], name) then 1 else 0
  }

  predicate ReplyOf(e: Event, name: string) {
    e.Reply? && e.name == name
  }

  predicate HardReply(e: Event, name: string) {
    ReplyOf(e, name) && Hard(e.outcome)
  }

  /** The state that event i leads to from st. */
  function Successor(p: Params, events: seq<Event>, i: nat, st: State): State
    requires i < |events|
  {
    match events[i]
    case Query(candidates, oracle) => Select(p, st, candidates, oracle).state
    case Reply(name, _, o, now) => Feedback(p, st, name, o, Replies(events, name, i + 1), now)
  }

  /** Event i takes the scheduler from st to st'. */
  predicate Step(p: Params, events: seq<Event>, i: nat, st: State, st': State)
    requires i < |events|
  {
    st' == Successor(p, events, i, st)
  }

  /** A run: the state before each event and the state after the last. */
  ghost predicate IsRun(p: Params, events: seq<Event>, states: seq<State>) {
    && |states| == |events| + 1
    && states[0] == INITIAL
    && forall i {:trigger Step(p, events, i, states[i], states[i + 1])} ::
         0 <= i < |events| ==> Step(p, events, i, states[i], states[i + 1])
  }

  /** Every sequence of events has a run ... */
  lemma {:induction false} RunExists(p: Params, events: seq<Event>, n: nat) returns (states: seq<State>)
    requires n <= |events|
    ensures |states| == n + 1 && states[0] == INITIAL
    ensures forall i {:trigger Step(p, events, i, states[i], states[i + 1])} ::
              0 <= i < n ==> Step(p, events, i, states[i], states[i + 1])
  {
    if n == 0 {
      states := [INITIAL];
    } else {
      var past := RunExists(p, events, n - 1);
      var st := past[n - 1];
      var st' := Successor(p, events, n - 1, st);
      assert Step(p, events, n - 1, st, st');
      states := past + [st'];
      forall i | 0 <= i < n ensures Step(p, events, i, states[i], states[i + 1]) {
        if i < n - 1 { assert Step(p, events, i, past[i], past[i + 1]); }
      }
    }
  }

  /** ... and only one. */
  lemma {:induction false} RunUnique(p: Params, events: seq<Event>, states: seq<State>, other: seq<State>, n: nat)
    requires IsRun(p, events, states) && IsRun(p, events, other) && n <= |events|
    ensures states[n] == other[n]
  {
    if n > 0 {
      var i := n - 1;
      RunUnique(p, events, states, other, i);
      assert Step(p, events, i, states[i], states[i + 1]) && Step(p, events, i, other[i], other[i + 1]);
    }
  }

  function Breaker(st: State, name: string): Circuit {
    CircuitOf(st.circuits, name)
  }

  /** From state st, event e sends a half-open probe to the named resolver. */
  predicate Probes(p: Params, st: State, e: Event, name: string) {
    && e.Query?
    && var d := Select(p, st, e.candidates, e.oracle);
       d.reason.Probe? && 0 <= d.index < |e.candidates| && e.candidates[d.index].name == name
  }

  // ---------- one step of one circuit ----------

  lemma ScoresIdentity(p: Params, cs: Circuits, candidates: seq<Candidate>, i: nat)
    requires i < |candidates|
    ensures |Scores(p, cs, candidates)| == |candidates|
    ensures Scores(p, cs, candidates)[i].name == candidates[i].name
    ensures Scores(p, cs, candidates)[i].open == CircuitOf(cs, candidates[i].name).open
  {
  }

  /** What one event does to the circuit c of a resolver. */
  ghost predicate CircuitStep(p: Params, c: Circuit, e: Event, name: string, probe: bool, total: nat, c': Circuit) {
    if ReplyOf(e, name) then c' == Fed(p, c, Hard(e.outcome), total, e.now)
    else if probe then c.open && !c.probing && c.nextProbeAt <= Time(e) && c' == c.(probing := true)
    else c' == c
  }

  /** Only a probe touches a circuit: the one it is sent to. */
  lemma DecisionMovesCircuits(p: Params, st: State, s: seq<Scored>, o: Oracle)
    requires |s| >= 2
    ensures
      var d := SelectScored(p, st, s, o);
      if d.reason.Probe? then
        && 0 <= d.index < |s| && Due(st.circuits, s, d.index, o.now)
        && var probed := s[d.index].name;
           d.state.circuits == st.circuits[probed := CircuitOf(st.circuits, probed).(probing := true)]
      else d.state.circuits == st.circuits
  {
  }

  lemma SelectMovesCircuit(p: Params, st: State, e: Event, name: string)
    requires e.Query?
    ensures
      var st' := Select(p, st, e.candidates, e.oracle).state;
      CircuitStep(p, Breaker(st, name), e, name, Probes(p, st, e, name), 0, Breaker(st', name))
  {
    if |e.candidates| >= 2 {
      var s := Scores(p, st.circuits, e.candidates);
      var d := SelectScored(p, st, s, e.oracle);
      DecisionMovesCircuits(p, st, s, e.oracle);
      if d.reason.Probe? { ScoresIdentity(p, st.circuits, e.candidates, d.index); }
    }
  }

  // ---------- a run as one resolver sees it ----------

  /** The resolver's circuit before each event and after the last, and which events probe it. */
  datatype Trail = Trail(circuits: seq<Circuit>, probes: seq<bool>)

  ghost predicate IsTrail(p: Params, events: seq<Event>, name: string, t: Trail) {
    && |t.circuits| == |events| + 1 && |t.probes| == |events|
    && t.circuits[0] == NEW_CIRCUIT
    && forall i {:trigger TrailStep(p, events, name, t, i)} ::
         0 <= i < |events| ==> TrailStep(p, events, name, t, i)
  }

  ghost predicate TrailStep(p: Params, events: seq<Event>, name: string, t: Trail, i: nat)
    requires i < |events| < |t.circuits| && i < |t.probes|
  {
    && (t.probes[i] ==> events[i].Query?)
    && CircuitStep(
         p, t.circuits[i], events[i], name, t.probes[i], Replies(events, name, i + 1), t.circuits[i + 1])
  }

  /** Every run leaves each resolver a trail: its circuit moves only on its own replies and on probes
      that are due. */
  lemma TrailOf(p: Params, events: seq<Event>, states: seq<State>, name: string) returns (t: Trail)
    requires IsRun(p, events, states)
    ensures IsTrail(p, events, name, t)
    ensures forall i :: 0 <= i <= |events| ==> t.circuits[i] == Breaker(states[i], name)
    ensures forall i :: 0 <= i < |events| ==> t.probes[i] == Probes(p, states[i], events[i], name)
  {
    t := Trail(
      seq(|states|, i requires 0 <= i < |states| => Breaker(states[i], name)),
      seq(|events|, i requires 0 <= i < |events| => Probes(p, states[i], events[i], name)));
    forall i | 0 <= i < |events| ensures TrailStep(p, events, name, t, i) {
      assert Step(p, events, i, states[i], states[i + 1]);
      if events[i].Query? { SelectMovesCircuit(p, states[i], events[i], name); }
    }
  }
}
