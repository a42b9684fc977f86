/** Exponentially weighted moving averages in closed form: what share of the average each past value has. */
module MovingAverages {

  function Power(x: real, n: nat): real {
    if n == 0 then 1.0 else x * Power(x, n - 1)
  }

  /** What is left of a value after n more: it shrinks by the same factor every time. */
  function Remains(share: real, n: nat, value: real): real {
    if n == 0 then value else Rest(share, Remains(share, n - 1, value))
  }

  function Rest(share: real, value: real): real {
    (1.0 - share) * value
  }

  /** What a value enters with. */
  function Share(share: real, value: real): real {
    share * value
  }

  lemma {:induction false} RemainsIsPower(share: real, n: nat, value: real)
    ensures Remains(share, n, value) == Power(1.0 - share, n) * value
  {
    if n > 0 { RemainsIsPower(share, n - 1, value); }
  }

  /** Values, oldest first, each of which entered with its share and has faded since. */
  function Faded(share: real, xs: seq<real>): real {
    if xs == [] then 0.0 else Remains(share, |xs| - 1, Share(share, xs[0])) + Faded(share, xs[1..])
  }

  /** The same on top of a start value that entered in full. */
  function FadedFrom(share: real, start: real, xs: seq<real>): real {
    Remains(share, |xs|, start) + Faded(share, xs)
  }

  /** So the value at position i of n counts with share * (1 - share)^(n - 1 - i). */
  lemma {:induction false} FadedByPowers(share: real, xs: seq<real>)
    requires xs != []
    ensures Faded(share, xs) == Power(1.0 - share, |xs| - 1) * Share(share, xs[0]) + Faded(share, xs[1..])
  {
    RemainsIsPower(share, |xs| - 1, Share(share, xs[0]));
  }

  lemma RestAdds(share: real, a: real, b: real)
    ensures Rest(share, a + b) == Rest(share, a) + Rest(share, b)
  {
  }

  lemma AppendKeepsFirst(xs: seq<real>, x: real)
    requires |xs| > 0
    ensures (xs + [x])[0] == xs[0] && (xs + [x])[1..] == xs[1..] + [x]
  {
  }

  lemma {:induction false} FadedSplit(share: real, xs: seq<real>, x: real)
    requires |xs| > 0
    ensures Faded(share, xs + [x]) == Remains(share, |xs|, Share(share, xs[0])) + Faded(share, xs[1..] + [x])
  {
    AppendKeepsFirst(xs, x);
  }

  /** One more value: all before it fade, and it enters with its share. */
  lemma {:induction false} FadedAppend(share: real, xs: seq<real>, x: real)
    ensures Faded(share, xs + [x]) == Rest(share, Faded(share, xs)) + Share(share, x)
  {
    if |xs| == 0 {
      assert xs + [x] == [x] && Faded(share, [x]) == Remains(share, 0, Share(share, x)) + Faded(share, [x][1..]);
    } else {
      FadedSplit(share, xs, x);
      FadedAppend(share, xs[1..], x);
      RestAdds(share, Remains(share, |xs| - 1, Share(share, xs[0])), Faded(share, xs[1..]));
    }
  }

  lemma {:induction false} FadedFromAppend(share: real, start: real, xs: seq<real>, x: real)
    ensures FadedFrom(share, start, xs + [x]) == Rest(share, FadedFrom(share, start, xs)) + Share(share, x)
  {
    FadedAppend(share, xs, x);
    RestAdds(share, Remains(share, |xs|, start), Faded(share, xs));
  }
}
