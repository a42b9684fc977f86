/** The grid of equal time slices that the metric store rotates over, and the ring slot of each. */
module TimeGrid {

  const EPOCHS: int := 10

  /** Epoch e is the half-open time interval [start + e * length, start + (e + 1) * length). */
  datatype Grid = Grid(start: int, length: int)

  function EpochOf(g: Grid, t: int): int
    requires g.length > 0
  {
    (t - g.start) / g.length
  }

  function Slot(e: int): nat {
    e % EPOCHS
  }

  lemma SlotAdd(e: int, n: int)
    ensures (Slot(e) + n) % EPOCHS == Slot(e + n)
  {
  }

  /** t is the instant epoch e begins. */
  ghost predicate Boundary(g: Grid, e: int, t: int) {
    t == g.start + e * g.length
  }

  lemma InEpoch(g: Grid, t: int, e: int, start: int)
    requires g.length > 0 && Boundary(g, e, start)
    requires start <= t < start + g.length
    ensures EpochOf(g, t) == e
  {
    var q := EpochOf(g, t);
    var r := (t - g.start) % g.length;
    assert q * g.length + r == t - g.start;
    if q < e {
      Scale(q + 1, e, g.length);
    } else if q > e {
      Scale(e + 1, q, g.length);
    }
  }

  lemma Scale(a: int, b: int, c: int)
    requires a <= b && c >= 0
    ensures a * c <= b * c
  {
    assert (b - a) * c >= 0;
  }

  lemma EpochMonotone(g: Grid, t: int, u: int)
    requires g.length > 0 && t <= u
    ensures EpochOf(g, t) <= EpochOf(g, u)
  {
    var a, b := EpochOf(g, t), EpochOf(g, u);
    assert a * g.length + (t - g.start) % g.length == t - g.start;
    assert b * g.length + (u - g.start) % g.length == u - g.start;
    if b < a { Scale(b + 1, a, g.length); }
  }

  lemma EpochShift(g: Grid, t: int, n: int)
    requires g.length > 0
    ensures EpochOf(g, t + n * g.length) == EpochOf(g, t) + n
  {
    var e := EpochOf(g, t);
    assert e * g.length + (t - g.start) % g.length == t - g.start;
    assert (e + n) * g.length == e * g.length + n * g.length;
    InEpoch(g, t + n * g.length, e + n, g.start + (e + n) * g.length);
  }

  lemma StepsReach(g: Grid, now: int, e: int, start: int, steps: int)
    requires g.length > 0 && Boundary(g, e, start)
    requires steps == (now - start) / g.length
    ensures Boundary(g, e + steps, start + steps * g.length)
    ensures start + steps * g.length <= now < start + steps * g.length + g.length
    ensures EpochOf(g, now) == e + steps
  {
    assert steps * g.length + (now - start) % g.length == now - start;
    assert (e + steps) * g.length == e * g.length + steps * g.length;
    InEpoch(g, now, e + steps, start + steps * g.length);
  }

  /** The current slot and the start of the current epoch are where the grid puts them, and the latest
      clock reading lies in the current epoch. */
  ghost predicate OnTime(g: Grid, epoch: int, cur: int, started: bool, start: int, length: int, clock: int) {
    && g.length == length > 0
    && cur == Slot(epoch)
    && (!started ==> epoch == 0)
    && (started ==>
          && Boundary(g, epoch, start)
          && start <= clock < start + length
          && EpochOf(g, clock) == epoch)
  }

  lemma AdvanceOnTime(g: Grid, epoch: int, start: int, clock: int, now: int)
    requires OnTime(g, epoch, Slot(epoch), true, start, g.length, clock)
    ensures
      var steps := (now - start) / g.length;
      if steps <= 0 then
        var clock' := if now > clock then now else clock;
        OnTime(g, epoch, Slot(epoch), true, start, g.length, clock')
      else
        && now > clock
        && OnTime(g, epoch + steps, Slot(epoch + steps), true, start + steps * g.length, g.length, now)
        && (Slot(epoch) + steps) % EPOCHS == Slot(epoch + steps)
  {
    var steps := (now - start) / g.length;
    StepsReach(g, now, epoch, start, steps);
    if steps <= 0 {
      Scale(steps, 0, g.length);
      InEpoch(g, if now > clock then now else clock, epoch, start);
    } else {
      Scale(1, steps, g.length);
      SlotAdd(epoch, steps);
    }
  }
}
