/** netmon.go: the network epoch, a count of the changes between successful interface snapshots. */
module NetworkMonitor {
  import opened Wrappers

  /** A snapshot attempt: an error, or the (never empty) fingerprint of the interfaces. */
  type Fingerprint = f: string | f != "" witness "0"
  type Snapshot = Option<Fingerprint>

  datatype Monitor = Monitor(epoch: nat, initialized: bool, last: string)

  const NEW_MONITOR := Monitor(0, false, "")

  function Sampled(m: Monitor, snapshot: Snapshot, notify: bool): Monitor {
    match snapshot
    case None => m
    case Some(f) =>
      var changed := m.last != "" && m.last != f;
      Monitor(if changed && notify then m.epoch + 1 else m.epoch, m.initialized, f)
  }

  /** check(): the first sample only sets the baseline. */
  function Checked(m: Monitor, snapshot: Snapshot): Monitor {
    if !m.initialized then Sampled(m.(initialized := true), snapshot, false)
    else Sampled(m, snapshot, true)
  }

  /** init(): sets the baseline once. */
  function Initialized(m: Monitor, snapshot: Snapshot): Monitor {
    if m.initialized then m else Sampled(m.(initialized := true), snapshot, false)
  }

  datatype Call = Init(snapshot: Snapshot) | Check(snapshot: Snapshot)

  function After(calls: seq<Call>): Monitor {
    if calls == [] then NEW_MONITOR else
    var m := After(calls[..|calls| - 1]);
    match calls[|calls| - 1]
    case Init(s) => Initialized(m, s)
    case Check(s) => Checked(m, s)
  }

  /** The snapshots actually taken that succeeded: every check's, and an init's if it came first. */
  function Successes(calls: seq<Call>): seq<Fingerprint> {
    if calls == [] then [] else
    var past, c := calls[..|calls| - 1], calls[|calls| - 1];
    Successes(past) + if c.snapshot.Some? && (c.Check? || past == []) then [c.snapshot.value] else []
  }

  /** Number of adjacent snapshots that differ. */
  function Changes(h: seq<Fingerprint>): nat {
    if |h| <= 1 then 0
    else Changes(h[..|h| - 1]) + if h[|h| - 1] != h[|h| - 2] then 1 else 0
  }

  /** After any sequence of calls, failed snapshots included, the epoch is the number of adjacent
      differing successful snapshots. */
  lemma {:induction false} EpochCountsChanges(calls: seq<Call>)
    ensures
      var m, h := After(calls), Successes(calls);
      && m.epoch == Changes(h)
      && m.last == (if h == [] then "" else h[|h| - 1])
      && m.initialized == (calls != [])
  {
    if calls != [] {
      var past := calls[..|calls| - 1];
      EpochCountsChanges(past);
      var h, h' := Successes(past), Successes(calls);
      if |h'| > |h| { assert h'[..|h'| - 1] == h; } else { assert h' == h; }
    }
  }

  /** The monitor object.  Its sampling flag makes each call exclusive: a call that finds another one
      under way returns at once, so calls act one at a time. */
  class Watcher {
    var epochValue: nat
    var initialized: bool
    var lastInterfaces: string

    constructor ()
      ensures View() == NEW_MONITOR
    {
      epochValue, initialized, lastInterfaces := 0, false, "";
    }

    function View(): Monitor
      reads this
    {
      Monitor(epochValue, initialized, lastInterfaces)
    }

    method TakeSample(snapshot: Snapshot, notify: bool)
      modifies this
      ensures View() == Sampled(old(View()), snapshot, notify)
    {
      if snapshot.None? { return; }
      var fingerprint := snapshot.value;
      var changed := lastInterfaces != "" && lastInterfaces != fingerprint;
      lastInterfaces := fingerprint;
      if changed && notify { epochValue := epochValue + 1; }
    }

    method CheckOnce(snapshot: Snapshot)
      modifies this
      ensures View() == Checked(old(View()), snapshot)
    {
      if !initialized {
        initialized := true;
        TakeSample(snapshot, false);
        return;
      }
      TakeSample(snapshot, true);
    }

    method InitOnce(snapshot: Snapshot)
      modifies this
      ensures View() == Initialized(old(View()), snapshot)
    {
      if initialized { return; }
      initialized := true;
      TakeSample(snapshot, false);
    }
  }
}
