/** scheduler_feedback.go: how an exchange becomes one observation and one breaker feedback. */
module ExchangeFeedback {
  import opened Metrics
  import opened MovingAverages
  import opened Selection
  import opened Wrappers

  /** What is known of an exchange when it is over: the transport signals, the response classification
      and how it ended. */
  datatype Exchange = Exchange(
    started: bool,
    signals: Outcome,
    errored: bool,
    length: nat,
    timedOut: bool,
    servfail: bool,
    bogus: bool,
    ecs: bool,
    elapsed: int,
    deadline: nat,
    dropped: bool)

  /** A response is usable when its size is that of a DNS packet. */
  predicate ValidResponse(length: nat) {
    12 + 5 <= length <= 4096
  }

  predicate Failed(x: Exchange) {
    x.errored || !ValidResponse(x.length)
  }

  function Classified(x: Exchange): Outcome {
    if Failed(x) then
      var o := if x.timedOut then x.signals.(timeout := true) else x.signals.(error := true);
      o.(duration := x.deadline)
    else
      x.signals.(servfail := x.servfail, dnssecBogus := x.bogus, ecsReturned := x.ecs, duration := x.elapsed)
  }

  /** The transport layer reports neither timeouts nor errors itself. */
  predicate Unjudged(o: Outcome) {
    !o.timeout && !o.error && !o.servfail && !o.dnssecBogus
  }

  /** An exchange is a hard failure exactly when it failed, under exactly one of its two names, and then
      carries no response verdict and the full deadline as its latency. */
  lemma HardExactlyWhenFailed(x: Exchange)
    requires Unjudged(x.signals)
    ensures Hard(Classified(x)) <==> Failed(x)
    ensures Failed(x) ==> Classified(x).timeout != Classified(x).error
    ensures Failed(x) ==> Classified(x).duration == x.deadline
    ensures Counts(Success, Classified(x)) <==> !Failed(x) && !x.servfail && !x.bogus
    ensures Failed(x) ==> !Counts(Servfail, Classified(x)) && !Counts(DnssecBogus, Classified(x))
  {
  }

  /** What each exchange is recorded as: a response of 17 to 4096 bytes with its own verdict and duration, anything
      else as a timeout or an error; the transport's signals are kept either way. */
  lemma ClassifiedFields(x: Exchange)
    requires Unjudged(x.signals)
    ensures
      var o, signals := Classified(x), x.signals;
      && (!x.errored && 17 <= x.length <= 4096 ==>
            && o.duration == x.elapsed && !o.timeout && !o.error
            && o.servfail == x.servfail && o.dnssecBogus == x.bogus && o.ecsReturned == x.ecs)
      && (x.errored || x.length < 17 || x.length > 4096 ==>
            && o.timeout == x.timedOut && o.error == !x.timedOut && !o.servfail && !o.dnssecBogus
            && o.duration == x.deadline && o.ecsReturned == signals.ecsReturned)
      && o.upstreamTruncated == signals.upstreamTruncated && o.localTruncated == signals.localTruncated
      && o.tcpFallback == signals.tcpFallback && o.quicFallback == signals.quicFallback
      && o.connReused == signals.connReused
  {
  }

  // ---------- the figures kept with the server ----------

  const MILLISECOND: int := 1_000_000
  const MAX_QUERIES: nat := 10000
  const RTT_DECAY: real := 2.0 / 11.0

  datatype Figures = Figures(totalQueries: nat, failedQueries: nat, lastUpdate: int, rttMs: real)

  function MovedTowards(rtt: real, ms: int): real {
    ms as real * RTT_DECAY + rtt * (1.0 - RTT_DECAY)
  }

  /** The round trip an exchange counts as: failures and server failures cost the whole deadline; bogus and
      dropped responses, and round trips under a millisecond or over the deadline, do not count. */
  function RoundTrip(x: Exchange): Option<nat> {
    if Failed(x) || x.servfail then Some(x.deadline / MILLISECOND)
    else if x.bogus || x.dropped then None
    else if MILLISECOND <= x.elapsed < x.deadline then Some(x.elapsed / MILLISECOND)
    else None
  }

  /** Both counters are halved once they get large. */
  function Noted(f: Figures, x: Exchange, now: int): Figures {
    var total, failed := f.totalQueries + 1, if Failed(x) then f.failedQueries + 1 else f.failedQueries;
    var rtt := RoundTrip(x);
    Figures(
      if total > MAX_QUERIES then total / 2 else total,
      if total > MAX_QUERIES then failed / 2 else failed,
      now,
      if rtt.Some? then MovedTowards(f.rttMs, rtt.value) else f.rttMs)
  }

  /** The failures never outnumber the queries, the counters stay small, and the average round trip stays
      between zero and whatever bounds the deadline and the initial value. */
  lemma NotedKeepsBounds(f: Figures, x: Exchange, now: int, bound: nat)
    requires f.failedQueries <= f.totalQueries <= MAX_QUERIES
    requires 0.0 <= f.rttMs <= bound as real && x.deadline / MILLISECOND <= bound
    ensures
      var g := Noted(f, x, now);
      g.failedQueries <= g.totalQueries <= MAX_QUERIES && 0.0 <= g.rttMs <= bound as real
  {
    if RoundTrip(x).Some? { assert RoundTrip(x).value <= bound; }
  }

  /** An exchange and the clock reading at its end. */
  datatype Ended = Ended(exchange: Exchange, now: int)

  function NotedAll(f: Figures, es: seq<Ended>): Figures {
    if es == [] then f
    else
      var last := es[|es| - 1];
      Noted(NotedAll(f, es[..|es| - 1]), last.exchange, last.now)
  }

  /** What an exchange contributes to the average round trip, in milliseconds. */
  function Contribution(x: Exchange): seq<real> {
    var usable := !x.errored && 17 <= x.length <= 4096;
    if !usable || x.servfail then [(x.deadline / 1_000_000) as real]
    else if !x.bogus && !x.dropped && 1_000_000 <= x.elapsed < x.deadline then [(x.elapsed / 1_000_000) as real]
    else []
  }

  function Contributions(es: seq<Ended>): seq<real> {
    if es == [] then [] else Contributions(es[..|es| - 1]) + Contribution(es[|es| - 1].exchange)
  }

  lemma ContributionIsRoundTrip(x: Exchange)
    ensures Contribution(x) == match RoundTrip(x) case None => [] case Some(ms) => [ms as real]
  {
  }

  /** The average round trip in closed form: every contribution enters with two elevenths. */
  lemma {:induction false} RoundTripsFade(f: Figures, es: seq<Ended>)
    ensures NotedAll(f, es).rttMs == FadedFrom(2.0 / 11.0, f.rttMs, Contributions(es))
  {
    if es != [] {
      var init, x := es[..|es| - 1], es[|es| - 1].exchange;
      RoundTripsFade(f, init);
      ContributionIsRoundTrip(x);
      if RoundTrip(x).Some? {
        FadedFromAppend(2.0 / 11.0, f.rttMs, Contributions(init), RoundTrip(x).value as real);
      } else {
        assert Contributions(es) == Contributions(init);
      }
    }
  }

  function Failures(es: seq<Ended>): nat {
    if es == [] then 0 else Failures(es[..|es| - 1]) + if Hard(Classified(es[|es| - 1].exchange)) then 1 else 0
  }

  /** Up to ten thousand queries, every query and every hard failure is counted. */
  lemma {:induction false} QueriesCounted(f: Figures, es: seq<Ended>)
    requires f.totalQueries + |es| <= 10000
    requires forall e :: e in es ==> Unjudged(e.exchange.signals)
    ensures
      var g := NotedAll(f, es);
      && g.totalQueries == f.totalQueries + |es| && g.failedQueries == f.failedQueries + Failures(es)
      && g.lastUpdate == if es == [] then f.lastUpdate else es[|es| - 1].now
  {
    if es != [] {
      QueriesCounted(f, es[..|es| - 1]);
      HardExactlyWhenFailed(es[|es| - 1].exchange);
    }
  }

  /** From there on both counters are halved together, so their ratio is kept. */
  lemma QueriesHalved(f: Figures, x: Exchange, now: int)
    requires f.totalQueries >= 10000 && Unjudged(x.signals)
    ensures
      var g, failed := Noted(f, x, now), f.failedQueries + if Hard(Classified(x)) then 1 else 0;
      && 2 * g.totalQueries <= f.totalQueries + 1 <= 2 * g.totalQueries + 1
      && 2 * g.failedQueries <= failed <= 2 * g.failedQueries + 1
  {
    HardExactlyWhenFailed(x);
  }

  /** The part of ServerInfo that feedback updates. */
  class ServerFigures {
    var totalQueries: nat
    var failedQueries: nat
    var lastUpdateTime: int
    var rtt: real

    ghost function View(): Figures
      reads this
    {
      Figures(totalQueries, failedQueries, lastUpdateTime, rtt)
    }

    method Note(x: Exchange, now: int)
      modifies this
      ensures View() == Noted(old(View()), x, now)
    {
      totalQueries := totalQueries + 1;
      if Failed(x) { failedQueries := failedQueries + 1; }
      lastUpdateTime := now;
      if totalQueries > MAX_QUERIES {
        totalQueries, failedQueries := totalQueries / 2, failedQueries / 2;
      }
      if Failed(x) || x.servfail {
        rtt := MovedTowards(rtt, x.deadline / MILLISECOND);
      } else if x.bogus || x.dropped {
        return;
      } else {
        var elapsedMs := x.elapsed / MILLISECOND;
        if elapsedMs > 0 && x.elapsed < x.deadline { rtt := MovedTowards(rtt, elapsedMs); }
      }
    }
  }

  /** observeOutcome, on the metric store registered under the resolver's name and the server published under it,
      if there is one: one more observation at the end of the log, and the breaker fed with the lifetime total
      that includes it.  An exchange without a resolver or that never started leaves no trace. */
  method ObserveOutcome(
    name: string, x: Exchange, now: int, server: ServerFigures?, metrics: ResolverMetrics, strategy: LBStrategyMDS)
    requires metrics.Valid()
    modifies metrics, metrics.epochs, strategy, server
    ensures metrics.Valid()
    ensures name == "" || !x.started ==>
              && strategy.View() == old(strategy.View()) && metrics.log == old(metrics.log)
              && (server != null ==> server.View() == old(server.View()))
    ensures name != "" && x.started ==>
              && metrics.log == old(metrics.log) + [Sample(metrics.clock, Classified(x), now)]
              && metrics.clock == old(metrics.Filed(now))
              && strategy.View()
                 == Feedback(strategy.params, old(strategy.View()), name, Classified(x), |metrics.log|, now)
              && (server != null ==> server.View() == Noted(old(server.View()), x, now))
  {
    if |name| == 0 || !x.started { return; }
    var o := Classified(x);
    if server != null { server.Note(x, now); }
    metrics.Observe(now, o);
    strategy.ObserveFeedback(name, o, metrics.totalSamples, now);
  }
}
