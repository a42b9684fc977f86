/** The per-resolver sliding-window store of scheduler_metrics.go: ten rotating epochs of counters
    and latency buckets, proved equal to a recount over the full log of observations. */
module Metrics {
  import opened Latency
  import opened MovingAverages
  import opened TimeGrid

  const DEFAULT_WINDOW: int := 300_000_000_000

  datatype Outcome = Outcome(
    duration: int,
    timeout: bool,
    error: bool,
    servfail: bool,
    dnssecBogus: bool,
    upstreamTruncated: bool,
    localTruncated: bool,
    tcpFallback: bool,
    quicFallback: bool,
    connReused: bool,
    ecsReturned: bool)

  datatype Counters = Counters(
    total: nat,
    success: nat,
    timeout: nat,
    errors: nat,
    servfail: nat,
    dnssecBogus: nat,
    upstreamTruncated: nat,
    localTruncated: nat,
    tcpFallback: nat,
    quicFallback: nat,
    connNew: nat,
    connReused: nat,
    ecsReturned: nat)

  const NO_COUNTS := Counters(0, 0, 0, 0, 0, 0, 0, 0, 0, 0, 0, 0, 0)

  datatype Epoch = Epoch(counts: Counters, buckets: seq<nat>)

  /** MetricsWindow: a point-in-time aggregation plus the lifetime figures. */
  datatype Window = Window(
    counts: Counters,
    totalSamples: nat,
    latencyEwmaMs: real,
    jitterEwmaMs: real,
    seen: Seen)

  /** Clock readings of the first and the last observation. */
  datatype Seen = Never | Seen(first: int, last: int)

  // ---------- the reference: counting over a log ----------

  /** Everything an epoch counts: its thirteen counters and its latency buckets. */
  datatype Key =
    | Total | Success | Timeout | Errors | Servfail | DnssecBogus | UpstreamTruncated
    | LocalTruncated | TcpFallback | QuicFallback | ConnNew | ConnReused | EcsReturned
    | Bucket(index: nat)

  /** An outcome, the time it is filed under and the clock reading it came with. */
  datatype Sample = Sample(time: int, outcome: Outcome, read: int)

  predicate Counts(k: Key, o: Outcome) {
    match k
    case Total => true
    case Success => !o.timeout && !o.error && !o.servfail && !o.dnssecBogus
    case Timeout => o.timeout
    case Errors => o.error
    case Servfail => o.servfail
    case DnssecBogus => o.dnssecBogus
    case UpstreamTruncated => o.upstreamTruncated
    case LocalTruncated => o.localTruncated
    case TcpFallback => o.tcpFallback
    case QuicFallback => o.quicFallback
    case ConnNew => !o.connReused
    case ConnReused => o.connReused
    case EcsReturned => o.ecsReturned
    case Bucket(b) => BucketOf(o.duration) == b
  }

  function Counter(c: Counters, k: Key): nat
    requires !k.Bucket?
  {
    match k
    case Total => c.total
    case Success => c.success
    case Timeout => c.timeout
    case Errors => c.errors
    case Servfail => c.servfail
    case DnssecBogus => c.dnssecBogus
    case UpstreamTruncated => c.upstreamTruncated
    case LocalTruncated => c.localTruncated
    case TcpFallback => c.tcpFallback
    case QuicFallback => c.quicFallback
    case ConnNew => c.connNew
    case ConnReused => c.connReused
    case EcsReturned => c.ecsReturned
  }

  function Get(e: Epoch, k: Key): nat {
    if k.Bucket? then (if k.index < |e.buckets| then e.buckets[k.index] else 0)
    else Counter(e.counts, k)
  }

  /** Number of logged samples that count for k and were taken during one of the given epochs. */
  function Recount(log: seq<Sample>, g: Grid, epochs: set<int>, k: Key): nat
    requires g.length > 0
  {
    if log == [] then 0 else
    var s := log[|log| - 1];
    Recount(log[..|log| - 1], g, epochs, k) +
    if EpochOf(g, s.time) in epochs && Counts(k, s.outcome) then 1 else 0
  }

  /** The current epoch and the nine before it. */
  function WindowEpochs(now: int): set<int> {
    set e | now - EPOCHS < e <= now && Recent(now, e)
  }

  predicate Recent(now: int, e: int) {
    now - (EPOCHS - 1) <= e <= now
  }

  /** The window by age: nothing up to nine epoch lengths old is dropped, and nothing ten or more
      epoch lengths old is kept. */
  lemma WindowByAge(g: Grid, taken: int, now: int)
    requires g.length > 0 && taken <= now
    ensures now - taken <= 9 * g.length ==> EpochOf(g, taken) in WindowEpochs(EpochOf(g, now))
    ensures now - taken >= 10 * g.length ==> EpochOf(g, taken) !in WindowEpochs(EpochOf(g, now))
  {
    EpochShift(g, taken, 9);
    EpochShift(g, taken, 10);
    EpochMonotone(g, taken, now);
    if now - taken <= 9 * g.length {
      EpochMonotone(g, now, taken + 9 * g.length);
    } else if now - taken >= 10 * g.length {
      EpochMonotone(g, taken + 10 * g.length, now);
    }
  }

  function WindowLatencies(log: seq<Sample>, g: Grid, epochs: set<int>): seq<int>
    requires g.length > 0
  {
    if log == [] then [] else
    var s := log[|log| - 1];
    WindowLatencies(log[..|log| - 1], g, epochs) +
    if EpochOf(g, s.time) in epochs then [s.outcome.duration] else []
  }

  lemma {:induction false} RecountUnion(log: seq<Sample>, g: Grid, a: set<int>, b: set<int>, k: Key)
    requires g.length > 0
    requires a !! b
    ensures Recount(log, g, a + b, k) == Recount(log, g, a, k) + Recount(log, g, b, k)
  {
    if log != [] { RecountUnion(log[..|log| - 1], g, a, b, k); }
  }

  lemma {:induction false} RecountUnreached(log: seq<Sample>, g: Grid, epochs: set<int>, k: Key)
    requires g.length > 0
    requires forall s :: s in log ==> EpochOf(g, s.time) !in epochs
    ensures Recount(log, g, epochs, k) == 0
  {
    if log != [] { RecountUnreached(log[..|log| - 1], g, epochs, k); }
  }

  /** The histogram over a set of epochs is the bucket count of the latencies logged in them, and the
      total counts exactly those latencies. */
  lemma {:induction false} HistogramCountsLatencies(log: seq<Sample>, g: Grid, epochs: set<int>, b: nat)
    requires g.length > 0
    ensures Recount(log, g, epochs, Bucket(b)) == CountIn(WindowLatencies(log, g, epochs), b)
    ensures Recount(log, g, epochs, Total) == |WindowLatencies(log, g, epochs)|
  {
    if log != [] {
      var init := WindowLatencies(log[..|log| - 1], g, epochs);
      var all := WindowLatencies(log, g, epochs);
      HistogramCountsLatencies(log[..|log| - 1], g, epochs, b);
      if EpochOf(g, log[|log| - 1].time) in epochs {
        assert all[..|all| - 1] == init;
      } else {
        assert all == init;
      }
    }
  }

  /** Every sample is on a new or on a reused connection ... */
  lemma {:induction false} ConnectionsAddUp(log: seq<Sample>, g: Grid, epochs: set<int>)
    requires g.length > 0
    ensures Recount(log, g, epochs, Total) == Recount(log, g, epochs, ConnNew) + Recount(log, g, epochs, ConnReused)
  {
    if log != [] { ConnectionsAddUp(log[..|log| - 1], g, epochs); }
  }

  predicate IsFailure(k: Key) {
    k.Timeout? || k.Errors? || k.Servfail? || k.DnssecBogus?
  }

  /** ... and it succeeds or fails: never both ... */
  lemma {:induction false} NeverBoth(log: seq<Sample>, g: Grid, epochs: set<int>, k: Key)
    requires g.length > 0 && IsFailure(k)
    ensures Recount(log, g, epochs, Success) + Recount(log, g, epochs, k) <= Recount(log, g, epochs, Total)
  {
    if log != [] { NeverBoth(log[..|log| - 1], g, epochs, k); }
  }

  /** ... and one of the two. */
  lemma {:induction false} OneOfTheTwo(log: seq<Sample>, g: Grid, epochs: set<int>)
    requires g.length > 0
    ensures Recount(log, g, epochs, Total) <=
            Recount(log, g, epochs, Success) + Recount(log, g, epochs, Timeout) + Recount(log, g, epochs, Errors)
            + Recount(log, g, epochs, Servfail) + Recount(log, g, epochs, DnssecBogus)
  {
    if log != [] { OneOfTheTwo(log[..|log| - 1], g, epochs); }
  }

  // ---------- latency and jitter averages ----------

  const ALPHA: real := 2.0 / 11.0

  function Abs(x: real): real {
    if x < 0.0 then -x else x
  }

  /** The moving averages kept beside the window, and when something was first and last seen. */
  datatype Averages = Averages(latencyMs: real, jitterMs: real, hasLatency: bool, prevMs: real, seen: Seen)

  const NO_AVERAGES := Averages(0.0, 0.0, false, 0.0, Never)

  function Averaged(a: Averages, ms: real, read: int): Averages {
    var seen := Seen(if a.seen.Never? then read else a.seen.first, read);
    if !a.hasLatency then Averages(ms, a.jitterMs, true, ms, seen)
    else
      var delta := Abs(ms - a.prevMs);
      Averages(
        ALPHA * ms + (1.0 - ALPHA) * a.latencyMs, ALPHA * delta + (1.0 - ALPHA) * a.jitterMs, true, ms, seen)
  }

  function AveragesOf(log: seq<Sample>): Averages {
    if log == [] then NO_AVERAGES
    else Averaged(AveragesOf(log[..|log| - 1]), Ms(log[|log| - 1].outcome.duration), log[|log| - 1].read)
  }

  lemma {:induction false} AveragesOfAppend(log: seq<Sample>, s: Sample)
    ensures AveragesOf(log + [s]) == Averaged(AveragesOf(log), Ms(s.outcome.duration), s.read)
  {
    assert (log + [s])[..|log|] == log;
  }

  lemma {:induction false} SeenFirstAndLast(log: seq<Sample>)
    ensures AveragesOf(log).seen == if log == [] then Never else Seen(log[0].read, log[|log| - 1].read)
  {
    if |log| > 0 { SeenFirstAndLast(log[..|log| - 1]); }
  }

  /** The averages never leave the range of what was observed. */
  lemma {:induction false} AveragesWithinObservations(log: seq<Sample>, lo: real, hi: real)
    requires log != []
    requires forall s :: s in log ==> lo <= Ms(s.outcome.duration) <= hi
    ensures AveragesOf(log).hasLatency
    ensures AveragesOf(log).prevMs == Ms(log[|log| - 1].outcome.duration)
    ensures lo <= AveragesOf(log).latencyMs <= hi
    ensures 0.0 <= AveragesOf(log).jitterMs <= hi - lo
  {
    assert log[|log| - 1] in log;
    if |log| > 1 {
      AveragesWithinObservations(log[..|log| - 1], lo, hi);
      assert log[|log| - 2] in log;
    }
  }

  /** Latencies in milliseconds; a clock that ran backwards counts as none. */
  function LatenciesMs(log: seq<Sample>): seq<real> {
    seq(|log|, i requires 0 <= i < |log| =>
      if log[i].outcome.duration < 0 then 0.0 else log[i].outcome.duration as real / 1_000_000.0)
  }

  /** How much each value differs from the one before it. */
  function Changes(xs: seq<real>): seq<real> {
    seq(if xs == [] then 0 else |xs| - 1, i requires 0 <= i < |xs| - 1 => Abs(xs[i + 1] - xs[i]))
  }

  lemma ChangesAppend(xs: seq<real>, x: real)
    requires xs != []
    ensures Changes(xs + [x]) == Changes(xs) + [Abs(x - xs[|xs| - 1])]
  {
  }

  lemma LatenciesAppend(log: seq<Sample>, s: Sample)
    ensures LatenciesMs(log + [s]) == LatenciesMs(log) + [Ms(s.outcome.duration)]
  {
  }

  /** The averages in closed form: a further sample has a share of two elevenths; the latency average starts from
      the first latency, the jitter average from nothing. */
  ghost predicate Fades(a: Averages, xs: seq<real>) {
    && xs != [] && a.hasLatency && a.prevMs == xs[|xs| - 1]
    && a.latencyMs == FadedFrom(2.0 / 11.0, xs[0], xs[1..])
    && a.jitterMs == Faded(2.0 / 11.0, Changes(xs))
  }

  lemma AveragedFades(a: Averages, xs: seq<real>, x: real, read: int)
    requires Fades(a, xs)
    ensures Fades(Averaged(a, x, read), xs + [x])
  {
    assert (xs + [x])[1..] == xs[1..] + [x];
    FadedFromAppend(2.0 / 11.0, xs[0], xs[1..], x);
    ChangesAppend(xs, x);
    FadedAppend(2.0 / 11.0, Changes(xs), Abs(x - xs[|xs| - 1]));
  }

  lemma {:induction false} AveragesFade(log: seq<Sample>)
    requires log != []
    ensures Fades(AveragesOf(log), LatenciesMs(log))
  {
    var n := |log| - 1;
    var init, last := log[..n], log[n];
    assert log == init + [last];
    AveragesOfAppend(init, last);
    LatenciesAppend(init, last);
    if n == 0 {
      assert LatenciesMs(log) == [Ms(last.outcome.duration)] && Changes(LatenciesMs(log)) == [];
    } else {
      AveragesFade(init);
      AveragedFades(AveragesOf(init), LatenciesMs(init), Ms(last.outcome.duration), last.read);
    }
  }

  // ---------- the ring ----------

  function ZeroBuckets(): seq<nat> {
    seq(|Edges()|, i => 0)
  }

  function FreshEpoch(): Epoch {
    Epoch(NO_COUNTS, ZeroBuckets())
  }

  ghost predicate Holds(ep: Epoch, log: seq<Sample>, g: Grid, e: int)
    requires g.length > 0
  {
    |ep.buckets| == |Edges()| && forall k :: Get(ep, k) == Recount(log, g, {e}, k)
  }

  /** The ring holds the last ten epochs up to `now`, each in the slot of its index. */
  ghost predicate Ring(epochs: seq<Epoch>, log: seq<Sample>, g: Grid, now: int) {
    && |epochs| == EPOCHS
    && g.length > 0
    && (forall s :: s in log ==> EpochOf(g, s.time) <= now)
    && forall e {:trigger Holds(epochs[Slot(e)], log, g, e)} ::
         now - EPOCHS < e <= now ==> Holds(epochs[Slot(e)], log, g, e)
  }

  lemma FreshHoldsFuture(log: seq<Sample>, g: Grid, e: int)
    requires g.length > 0
    requires forall s :: s in log ==> EpochOf(g, s.time) < e
    ensures Holds(FreshEpoch(), log, g, e)
  {
    forall k ensures Get(FreshEpoch(), k) == Recount(log, g, {e}, k) {
      RecountUnreached(log, g, {e}, k);
    }
  }

  lemma RotateKeepsRing(epochs: seq<Epoch>, log: seq<Sample>, g: Grid, now: int)
    requires Ring(epochs, log, g, now)
    ensures Ring(epochs[Slot(now + 1) := FreshEpoch()], log, g, now + 1)
  {
    FreshHoldsFuture(log, g, now + 1);
  }

  lemma ResetKeepsRing(epochs: seq<Epoch>, log: seq<Sample>, g: Grid, now: int, steps: int)
    requires Ring(epochs, log, g, now)
    requires steps >= EPOCHS
    ensures Ring(seq(EPOCHS, i => FreshEpoch()), log, g, now + steps)
  {
    forall e | now + steps - EPOCHS < e <= now + steps ensures Holds(FreshEpoch(), log, g, e) {
      FreshHoldsFuture(log, g, e);
    }
  }

  function Bit(b: bool): nat {
    if b then 1 else 0
  }

  /** The increments Observe makes in the current epoch. */
  function Record(e: Epoch, o: Outcome): Epoch
    requires BucketOf(o.duration) < |e.buckets|
  {
    var c, b := e.counts, BucketIndex(Ms(o.duration));
    Epoch(
      Counters(
        c.total + 1,
        c.success + Bit(!o.timeout && !o.error && !o.servfail && !o.dnssecBogus),
        c.timeout + Bit(o.timeout),
        c.errors + Bit(o.error),
        c.servfail + Bit(o.servfail),
        c.dnssecBogus + Bit(o.dnssecBogus),
        c.upstreamTruncated + Bit(o.upstreamTruncated),
        c.localTruncated + Bit(o.localTruncated),
        c.tcpFallback + Bit(o.tcpFallback),
        c.quicFallback + Bit(o.quicFallback),
        c.connNew + (if o.connReused then 0 else 1),
        c.connReused + (if o.connReused then 1 else 0),
        c.ecsReturned + Bit(o.ecsReturned)),
      e.buckets[b := e.buckets[b] + 1])
  }

  lemma RecordCounts(e: Epoch, o: Outcome, k: Key)
    requires BucketOf(o.duration) < |e.buckets|
    ensures Get(Record(e, o), k) == Get(e, k) + Bit(Counts(k, o))
  {
  }

  /** e' is e with one more sample in it. */
  ghost predicate Recorded(e: Epoch, o: Outcome, e': Epoch) {
    && |e'.buckets| == |e.buckets|
    && forall k :: Get(e', k) == Get(e, k) + Bit(Counts(k, o))
  }

  method RecordOutcome(e: Epoch, o: Outcome) returns (e': Epoch)
    requires |e.buckets| == |Edges()|
    ensures Recorded(e, o, e')
  {
    BucketHoldsLatency(o.duration);
    e' := Record(e, o);
    forall k ensures Get(e', k) == Get(e, k) + Bit(Counts(k, o)) {
      RecordCounts(e, o, k);
    }
  }

  lemma RecordedHolds(ep: Epoch, ep': Epoch, log: seq<Sample>, g: Grid, e: int, s: Sample)
    requires g.length > 0 && Holds(ep, log, g, e)
    requires EpochOf(g, s.time) == e
    requires Recorded(ep, s.outcome, ep')
    ensures Holds(ep', log + [s], g, e)
  {
    assert (log + [s])[..|log|] == log;
    forall k ensures Get(ep', k) == Recount(log + [s], g, {e}, k) {
      assert Get(ep, k) == Recount(log, g, {e}, k);
    }
  }

  lemma OtherEpochHolds(ep: Epoch, log: seq<Sample>, g: Grid, e: int, s: Sample)
    requires g.length > 0 && Holds(ep, log, g, e)
    requires EpochOf(g, s.time) != e
    ensures Holds(ep, log + [s], g, e)
  {
    assert (log + [s])[..|log|] == log;
  }

  lemma SlotsDiffer(d: int, e: int)
    requires d < e < d + EPOCHS
    ensures Slot(d) != Slot(e)
  {
    assert (e - d) % EPOCHS == e - d;
  }

  lemma RecordKeepsRing(epochs: seq<Epoch>, ep': Epoch, log: seq<Sample>, g: Grid, now: int, s: Sample)
    requires Ring(epochs, log, g, now)
    requires EpochOf(g, s.time) == now
    requires Recorded(epochs[Slot(now)], s.outcome, ep')
    ensures Ring(epochs[Slot(now) := ep'], log + [s], g, now)
  {
    var epochs' := epochs[Slot(now) := ep'];
    forall e | now - EPOCHS < e <= now ensures Holds(epochs'[Slot(e)], log + [s], g, e) {
      assert Holds(epochs[Slot(e)], log, g, e);
      if e == now {
        RecordedHolds(epochs[Slot(e)], ep', log, g, e, s);
      } else {
        SlotsDiffer(e, now);
        OtherEpochHolds(epochs[Slot(e)], log, g, e, s);
      }
    }
  }

  method RecordAt(
    epochs: array<Epoch>, cur: int, o: Outcome,
    ghost log: seq<Sample>, ghost g: Grid, ghost now: int, ghost time: int, ghost read: int)
    requires Ring(epochs[..], log, g, now)
    requires cur == Slot(now)
    requires EpochOf(g, time) == now
    modifies epochs
    ensures Ring(epochs[..], log + [Sample(time, o, read)], g, now)
  {
    assert Holds(epochs[..][Slot(now)], log, g, now);
    var e := RecordOutcome(epochs[cur], o);
    RecordKeepsRing(epochs[..], e, log, g, now, Sample(time, o, read));
    epochs[cur] := e;
  }

  /** The two loops of advanceLocked: drop everything, or rotate in one empty epoch per step. */
  method ResetAll(epochs: array<Epoch>)
    modifies epochs
    ensures epochs[..] == seq(epochs.Length, i => FreshEpoch())
  {
    for i := 0 to epochs.Length
      invariant forall j :: 0 <= j < i ==> epochs[j] == FreshEpoch()
    {
      epochs[i] := FreshEpoch();
    }
  }

  method Rotate(epochs: array<Epoch>, steps: nat, cur: int, ghost log: seq<Sample>, ghost g: Grid, ghost now: int)
    returns (cur': int)
    requires Ring(epochs[..], log, g, now)
    requires cur == Slot(now)
    modifies epochs
    ensures Ring(epochs[..], log, g, now + steps)
    ensures cur' == Slot(now + steps)
  {
    cur' := cur;
    for i := 0 to steps
      invariant cur' == Slot(now + i)
      invariant Ring(epochs[..], log, g, now + i)
    {
      RotateKeepsRing(epochs[..], log, g, now + i);
      SlotAdd(now + i, 1);
      cur' := (cur' + 1) % EPOCHS;
      epochs[cur'] := FreshEpoch();
    }
  }

  // ---------- the sum over the ring ----------

  /** The window epochs kept in the first n slots. */
  function EpochsBelow(now: int, n: int): set<int> {
    set e | now - EPOCHS < e <= now && Slot(e) < n
  }

  lemma {:induction false} SlotSum(epochs: seq<Epoch>, log: seq<Sample>, g: Grid, now: int, n: nat, k: Key)
    requires Ring(epochs, log, g, now)
    requires n < EPOCHS
    ensures Recount(log, g, EpochsBelow(now, n + 1), k)
         == Recount(log, g, EpochsBelow(now, n), k) + Get(epochs[n], k)
  {
    var e := now - (now - n) % EPOCHS;
    assert Slot(e) == n;
    assert Holds(epochs[Slot(e)], log, g, e);
    assert EpochsBelow(now, n + 1) == EpochsBelow(now, n) + {e};
    RecountUnion(log, g, EpochsBelow(now, n), {e}, k);
  }

  lemma AllSlots(now: int)
    ensures EpochsBelow(now, EPOCHS) == WindowEpochs(now)
    ensures EpochsBelow(now, 0) == {}
  {
  }

  function AddCounters(a: Counters, b: Counters): Counters {
    Counters(
      a.total + b.total, a.success + b.success, a.timeout + b.timeout, a.errors + b.errors,
      a.servfail + b.servfail, a.dnssecBogus + b.dnssecBogus,
      a.upstreamTruncated + b.upstreamTruncated, a.localTruncated + b.localTruncated,
      a.tcpFallback + b.tcpFallback, a.quicFallback + b.quicFallback, a.connNew + b.connNew,
      a.connReused + b.connReused, a.ecsReturned + b.ecsReturned)
  }

  lemma EmptyLogAnyGrid(epochs: seq<Epoch>, g: Grid, h: Grid)
    requires h.length > 0
    requires Ring(epochs, [], g, 0)
    ensures Ring(epochs, [], h, 0)
  {
    forall e | -EPOCHS < e <= 0 ensures Holds(epochs[Slot(e)], [], h, e) {
      assert Holds(epochs[Slot(e)], [], g, e);
      forall k ensures Get(epochs[Slot(e)], k) == Recount([], h, {e}, k) {
        assert Get(epochs[Slot(e)], k) == Recount([], g, {e}, k);
      }
    }
  }

  class ResolverMetrics {
    const epochs: array<Epoch>
    var curEpoch: int
    var started: bool  // false while epochStart is Go's zero time
    var epochStart: int
    var totalSamples: nat
    var averages: Averages
    const epochDur: int

    /** Every observation ever made, in order, at the time under which it was filed. */
    ghost var log: seq<Sample>
    /** The latest clock reading so far. */
    ghost var clock: int
    ghost var grid: Grid
    /** Index of the current epoch on the grid. */
    ghost var epoch: nat

    ghost predicate Valid()
      reads this, epochs
    {
      && OnTime(grid, epoch, curEpoch, started, epochStart, epochDur, clock)
      && Ring(epochs[..], log, grid, epoch)
      && (!started ==> log == [])
      && totalSamples == |log|
      && averages == AveragesOf(log)
    }

    /** A non-positive window falls back to five minutes.  A positive window below ten nanoseconds leaves an epoch
        length of zero, which the first later reading would divide by; every other window gives a valid store. */
    constructor (window: int)
      ensures Valid() <==> window <= 0 || window >= EPOCHS
      ensures fresh(epochs) && log == [] && !started
      ensures epochDur == (if window <= 0 then DEFAULT_WINDOW else window) / EPOCHS
    {
      var w := if window <= 0 then DEFAULT_WINDOW else window;
      epochDur := w / EPOCHS;
      epochs := new Epoch[EPOCHS](i => FreshEpoch());
      curEpoch, started, epochStart, totalSamples := 0, false, 0, 0;
      averages := NO_AVERAGES;
      log, clock, grid, epoch := [], 0, Grid(0, w / EPOCHS), 0;
      new;
      if epochDur > 0 {
        forall e | -EPOCHS < e <= 0 ensures Holds(epochs[..][Slot(e)], log, grid, e) {
          FreshHoldsFuture(log, grid, e);
        }
      }
    }

    /** The time under which a call at clock reading `now` is filed: readings that run backwards
        count as the latest one so far. */
    ghost function Filed(now: int): (filed: int)
      reads this
      ensures filed >= now && (started ==> filed >= clock)
      ensures filed == now || (started && filed == clock)
    {
      if !started || now > clock then now else clock
    }

    ghost predicate Empty()
      reads this
    {
      !started
    }

    /** advanceLocked: brings the window up to date without losing or inventing a sample. */
    method Advance(now: int)
      requires Valid()
      modifies `curEpoch, `started, `epochStart, `clock, `grid, `epoch, epochs
      ensures Valid() && started
      ensures clock == old(Filed(now))
      ensures grid == if old(Empty()) then Grid(now, epochDur) else old(grid)
    {
      if !started {
        started, epochStart := true, now;
        EmptyLogAnyGrid(epochs[..], grid, Grid(now, epochDur));
        clock, grid := now, Grid(now, epochDur);
        return;
      }
      var steps := (now - epochStart) / epochDur;
      AdvanceOnTime(grid, epoch, epochStart, clock, now);
      clock := Filed(now);
      if steps <= 0 {
        return;
      }
      if steps >= EPOCHS {
        ResetKeepsRing(epochs[..], log, grid, epoch, steps);
        ResetAll(epochs);
        curEpoch := (curEpoch + steps) % EPOCHS;
      } else {
        curEpoch := Rotate(epochs, steps, curEpoch, log, grid, epoch);
      }
      epoch := epoch + steps;
      epochStart := epochStart + steps * epochDur;
    }

    /** Observe: files the outcome at the end of the log. */
    method Observe(now: int, o: Outcome)
      requires Valid()
      modifies this, epochs
      ensures Valid()
      ensures clock == old(Filed(now))
      ensures grid == if old(Empty()) then Grid(now, epochDur) else old(grid)
      ensures log == old(log) + [Sample(clock, o, now)]
    {
      var latencyMs := o.duration as real / NS_PER_MS;
      if latencyMs < 0.0 { latencyMs := 0.0; }
      Advance(now);
      totalSamples := totalSamples + 1;
      averages := Averaged(averages, latencyMs, now);
      RecordAt(epochs, curEpoch, o, log, grid, epoch, clock, now);
      AveragesOfAppend(log, Sample(clock, o, now));
      log := log + [Sample(clock, o, now)];
    }

    /** Snapshot: every counter is the recount, over the whole log, of the current epoch and the nine
        before it; the lifetime total is the length of the log. */
    method Snapshot(now: int) returns (w: Window)
      requires Valid()
      modifies `curEpoch, `started, `epochStart, `clock, `grid, `epoch, epochs
      ensures Valid() && started
      ensures clock == old(Filed(now))
      ensures grid == if old(Empty()) then Grid(now, epochDur) else old(grid)
      ensures forall k: Key :: !k.Bucket? ==>
                Counter(w.counts, k) == Recount(log, grid, WindowEpochs(EpochOf(grid, clock)), k)
      ensures w.totalSamples == |log|
      ensures w.latencyEwmaMs == AveragesOf(log).latencyMs && w.jitterEwmaMs == AveragesOf(log).jitterMs
      ensures w.seen == AveragesOf(log).seen
    {
      Advance(now);
      var counts := AggregateCounts(epochs, log, grid, epoch);
      w := Window(counts, totalSamples, averages.latencyMs, averages.jitterMs, averages.seen);
    }

    /** PercentileBuf: the upper edge of the bucket that holds the nearest-rank element of the
        latencies in the window, or no answer when the window is empty. */
    method Percentile(p: real, now: int) returns (d: int, ok: bool)
      requires Valid()
      modifies `curEpoch, `started, `epochStart, `clock, `grid, `epoch, epochs
      ensures Valid() && started
      ensures clock == old(Filed(now))
      ensures grid == if old(Empty()) then Grid(now, epochDur) else old(grid)
      ensures
        var latencies := WindowLatencies(log, grid, WindowEpochs(EpochOf(grid, clock)));
        ok == (latencies != []) && d == if ok then Quantile(latencies, p) else 0
    {
      Advance(now);
      d, ok := PercentileOf(epochs, p, log, grid, epoch);
    }
  }

  /** aggregateLocked */
  method AggregateCounts(epochs: array<Epoch>, ghost log: seq<Sample>, ghost g: Grid, ghost now: int)
    returns (counts: Counters)
    requires Ring(epochs[..], log, g, now)
    ensures forall k: Key :: !k.Bucket? ==> Counter(counts, k) == Recount(log, g, WindowEpochs(now), k)
  {
    counts := NO_COUNTS;
    AllSlots(now);
    forall k ensures Recount(log, g, EpochsBelow(now, 0), k) == 0 {
      RecountUnreached(log, g, {}, k);
    }
    for i := 0 to epochs.Length
      invariant forall k: Key :: !k.Bucket? ==> Counter(counts, k) == Recount(log, g, EpochsBelow(now, i), k)
    {
      forall k ensures Recount(log, g, EpochsBelow(now, i + 1), k)
                    == Recount(log, g, EpochsBelow(now, i), k) + Get(epochs[i], k) {
        SlotSum(epochs[..], log, g, now, i, k);
      }
      counts := AddCounters(counts, epochs[i].counts);
    }
  }

  method PercentileOf(epochs: array<Epoch>, p: real, ghost log: seq<Sample>, ghost g: Grid, ghost now: int)
    returns (d: int, ok: bool)
    requires Ring(epochs[..], log, g, now)
    ensures
      var latencies := WindowLatencies(log, g, WindowEpochs(now));
      ok == (latencies != []) && d == if ok then Quantile(latencies, p) else 0
  {
    var total, aggregated := AggregateBuckets(epochs, log, g, now);
    ghost var latencies := WindowLatencies(log, g, WindowEpochs(now));
    forall b: nat ensures Recount(log, g, WindowEpochs(now), Bucket(b)) == CountIn(latencies, b) {
      HistogramCountsLatencies(log, g, WindowEpochs(now), b);
    }
    HistogramCountsLatencies(log, g, WindowEpochs(now), 0);
    if total == 0 {
      return 0, false;
    }
    d := ReadQuantile(aggregated, total, p, latencies);
    ok := true;
  }

  method ReadQuantile(aggregated: array<nat>, total: nat, p: real, ghost latencies: seq<int>) returns (d: int)
    requires aggregated.Length == |Edges()|
    requires forall c :: 0 <= c < aggregated.Length ==> aggregated[c] == CountIn(latencies, c)
    requires 1 <= total == |latencies|
    ensures d == Quantile(latencies, p)
  {
    var b := RankBucket(aggregated, Rank(total, p), latencies);
    d := EdgeNs(b);
  }

  /** The accumulation loops of PercentileBuf. */
  method AggregateBuckets(epochs: array<Epoch>, ghost log: seq<Sample>, ghost g: Grid, ghost now: int)
    returns (total: nat, aggregated: array<nat>)
    requires Ring(epochs[..], log, g, now)
    ensures fresh(aggregated)
    ensures total == Recount(log, g, WindowEpochs(now), Total)
    ensures aggregated.Length == |Edges()|
    ensures forall b :: 0 <= b < aggregated.Length ==>
              aggregated[b] == Recount(log, g, WindowEpochs(now), Bucket(b))
  {
    aggregated := new nat[|Edges()|](i => 0);
    total := 0;
    AllSlots(now);
    forall k ensures Recount(log, g, EpochsBelow(now, 0), k) == 0 {
      RecountUnreached(log, g, {}, k);
    }
    for i := 0 to epochs.Length
      invariant total == Recount(log, g, EpochsBelow(now, i), Total)
      invariant forall b :: 0 <= b < aggregated.Length ==>
                  aggregated[b] == Recount(log, g, EpochsBelow(now, i), Bucket(b))
    {
      forall k ensures Recount(log, g, EpochsBelow(now, i + 1), k)
                    == Recount(log, g, EpochsBelow(now, i), k) + Get(epochs[i], k) {
        SlotSum(epochs[..], log, g, now, i, k);
      }
      SlotWidth(epochs[..], log, g, now, i);
      total := total + epochs[i].counts.total;
      for b := 0 to |epochs[i].buckets|
        invariant forall c :: 0 <= c < aggregated.Length ==>
                    aggregated[c] == Recount(log, g, EpochsBelow(now, if c < b then i + 1 else i), Bucket(c))
      {
        assert Get(epochs[i], Bucket(b)) == epochs[i].buckets[b];
        aggregated[b] := aggregated[b] + epochs[i].buckets[b];
      }
    }
  }

  lemma SlotWidth(epochs: seq<Epoch>, log: seq<Sample>, g: Grid, now: int, i: nat)
    requires Ring(epochs, log, g, now)
    requires i < EPOCHS
    ensures |epochs[i].buckets| == |Edges()|
  {
    var e := now - (now - i) % EPOCHS;
    assert Slot(e) == i;
    assert Holds(epochs[Slot(e)], log, g, e);
  }

  /** The cumulative scan of PercentileBuf.  It always stops inside the loop: the buckets add up to the
      number of latencies. */
  method RankBucket(aggregated: array<nat>, rank: nat, ghost latencies: seq<int>) returns (b: nat)
    requires aggregated.Length == |Edges()|
    requires forall c :: 0 <= c < aggregated.Length ==> aggregated[c] == CountIn(latencies, c)
    requires 1 <= rank <= |latencies|
    ensures b < |Edges()|
    ensures b == BucketOf(SortInts(latencies)[rank - 1])
  {
    CountUpToEnds(latencies);
    var cumulative := 0;
    b := 0;
    while b < aggregated.Length
      invariant b <= aggregated.Length
      invariant cumulative == CountUpTo(latencies, b - 1) < rank
    {
      CountUpToStep(latencies, b);
      cumulative := cumulative + aggregated[b];
      if cumulative >= rank {
        RankInBucket(latencies, rank, b);
        return;
      }
      b := b + 1;
    }
    assert false;
  }
}
