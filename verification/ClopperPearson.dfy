/**
 The one-sided Clopper-Pearson upper bound as the script computes it: two
 hundred halvings of [0, 1], always answering the upper end.
 */
module ClopperPearson {
  import opened Binomial

  const HALVINGS: nat := 200

  function HalfPow(k: nat): (h: real)
    ensures h > 0.0
  {
    if k == 0 then 1.0 else HalfPow(k - 1) / 2.0
  }

  /** `x` is the `j`-th multiple of one over two to the `steps`. */
  predicate GridPoint(j: int, steps: nat, x: real) {
    x == j as real * HalfPow(steps)
  }

  ghost predicate OnGrid(steps: nat, x: real) {
    exists j: int :: GridPoint(j, steps, x)
  }

  /**
   What the answer means: the first point of the grid at which the chance of so
   few events is down to alpha. With events in every unit it is 1.
   */
  ghost predicate IsUpperBound(events: nat, n: nat, alpha: real, steps: nat, bound: real) {
    if events >= n then bound == 1.0
    else
      && HalfPow(steps) <= bound <= 1.0
      && OnGrid(steps, bound)
      && Cdf(events, n, bound) <= alpha < Cdf(events, n, bound - HalfPow(steps))
  }

  lemma {:induction false} HalfPowAtMostOne(k: nat)
    ensures HalfPow(k) <= 1.0
  {
    if k > 0 {
      HalfPowAtMostOne(k - 1);
    }
  }

  /** The bisection, for any number of halvings. */
  method Bisect(events: nat, n: nat, alpha: real, steps: nat) returns (high: real)
    requires events < n
    requires 0.0 < alpha < 1.0
    ensures IsUpperBound(events, n, alpha, steps, high)
  {
    var low := 0.0;
    high := 1.0;
    ghost var j := 1;
    CdfEnds(events, n);
    for i := 0 to steps
      invariant 0.0 <= low < high <= 1.0
      invariant high - low == HalfPow(i)
      invariant GridPoint(j, i, high)
      invariant Cdf(events, n, high) <= alpha < Cdf(events, n, low)
    {
      var middle := (low + high) / 2.0;
      var chance := EvaluateCdf(events, n, middle);
      HalfGrid(j, i, high);
      if chance > alpha {
        low := middle;
        j := 2 * j;
      } else {
        high := middle;
        j := 2 * j - 1;
      }
    }
  }

  lemma HalfGrid(j: int, i: nat, x: real)
    requires GridPoint(j, i, x)
    ensures GridPoint(2 * j, i + 1, x)
    ensures GridPoint(2 * j - 1, i + 1, x - HalfPow(i) / 2.0)
  {
    var h := HalfPow(i + 1);
    assert HalfPow(i) == 2.0 * h;
    assert (2 * j) as real == 2.0 * j as real;
    assert (2 * j - 1) as real == 2.0 * j as real - 1.0;
    assert (2.0 * j as real) * h == j as real * (2.0 * h);
    assert (2.0 * j as real - 1.0) * h == (2.0 * j as real) * h - h;
  }

  method ClopperPearsonUpper(events: nat, n: nat, alpha: real) returns (bound: real)
    requires 0.0 < alpha < 1.0
    ensures IsUpperBound(events, n, alpha, 200, bound)
  {
    if events >= n {
      return 1.0;
    }
    bound := Bisect(events, n, alpha, HALVINGS);
  }

  // ----- What the bound covers -----

  /** Every probability that leaves so few events likelier than alpha lies below the bound. */
  lemma BoundCoversEveryPlausibleRate(events: nat, n: nat, alpha: real, steps: nat, bound: real, p: real)
    requires events < n && IsUpperBound(events, n, alpha, steps, bound)
    requires 0.0 <= p <= 1.0
    ensures Cdf(events, n, p) > alpha ==> p < bound
  {
    if p >= bound {
      CdfAntitone(events, n, bound, p);
    }
  }

  /** The bound overstates by less than one grid step: every rate at or below that lower end is still plausible. */
  lemma BoundIsTight(events: nat, n: nat, alpha: real, steps: nat, bound: real, p: real)
    requires events < n && IsUpperBound(events, n, alpha, steps, bound)
    requires 0.0 <= p <= bound - HalfPow(steps)
    ensures Cdf(events, n, p) > alpha
  {
    CdfAntitone(events, n, p, bound - HalfPow(steps));
  }

  /**
   The rate the bound approximates: wherever the chance is exactly alpha, that
   rate is at most the bound and within one grid step of it, and it is the only one.
   */
  lemma BoundBracketsTheExactRate(events: nat, n: nat, alpha: real, steps: nat, bound: real, p: real, r: real)
    requires events < n && IsUpperBound(events, n, alpha, steps, bound)
    requires 0.0 <= p <= 1.0 && Cdf(events, n, p) == alpha
    ensures bound - HalfPow(steps) < p <= bound
    ensures 0.0 <= r <= 1.0 && Cdf(events, n, r) == alpha ==> r == p
  {
    if p <= bound - HalfPow(steps) {
      BoundIsTight(events, n, alpha, steps, bound, p);
    }
    if p > bound {
      CdfStrict(events, n, bound, p);
    }
    if 0.0 <= r < p {
      CdfStrict(events, n, r, p);
    } else if p < r <= 1.0 {
      CdfStrict(events, n, p, r);
    }
  }

  /** Two grid points are equal or at least one step apart. */
  lemma GridGap(steps: nat, x: real, y: real)
    requires OnGrid(steps, x) && OnGrid(steps, y) && x < y
    ensures x <= y - HalfPow(steps)
  {
    var i: int :| GridPoint(i, steps, x);
    var j: int :| GridPoint(j, steps, y);
    Spaced(i, j, HalfPow(steps), x, y);
  }

  lemma Spaced(i: int, j: int, h: real, x: real, y: real)
    requires h > 0.0 && x == i as real * h && y == j as real * h && x < y
    ensures x <= y - h
  {
    assert y - x == (j - i) as real * h;
    if j - i < 1 {
      assert (j - i) as real <= 0.0;
    } else {
      assert (j - i) as real >= 1.0;
      assert ((j - i) as real - 1.0) * h >= 0.0;
    }
  }

  /** A pointwise larger chance cannot give a smaller bound. */
  lemma BoundMonotone(e: nat, n: nat, e': nat, n': nat, alpha: real, steps: nat, bound: real, bound': real)
    requires e < n && e' < n'
    requires IsUpperBound(e, n, alpha, steps, bound) && IsUpperBound(e', n', alpha, steps, bound')
    requires forall p :: 0.0 <= p <= 1.0 ==> Cdf(e, n, p) <= Cdf(e', n', p)
    ensures bound <= bound'
  {
    if bound' < bound {
      GridGap(steps, bound', bound);
      CdfAntitone(e, n, bound', bound - HalfPow(steps));
    }
  }

  /** The specification has one answer. */
  lemma BoundUnique(events: nat, n: nat, alpha: real, steps: nat, bound: real, other: real)
    requires IsUpperBound(events, n, alpha, steps, bound) && IsUpperBound(events, n, alpha, steps, other)
    ensures bound == other
  {
    if events < n {
      BoundMonotone(events, n, events, n, alpha, steps, bound, other);
      BoundMonotone(events, n, events, n, alpha, steps, other, bound);
    }
  }

  /** Among as many units, more events never lower the bound. */
  lemma MoreEventsNeverLowerBound(events: nat, more: nat, n: nat, alpha: real, steps: nat, bound: real, after: real)
    requires events <= more
    requires IsUpperBound(events, n, alpha, steps, bound) && IsUpperBound(more, n, alpha, steps, after)
    ensures bound <= after
  {
    if more < n {
      forall p | 0.0 <= p <= 1.0 ensures Cdf(events, n, p) <= Cdf(more, n, p) {
        PartialOrdered(events + 1, more + 1, n, p);
      }
      BoundMonotone(events, n, more, n, alpha, steps, bound, after);
    }
  }

  /** One more unit that is flagged never lowers the bound. */
  lemma FlaggedUnitNeverLowersBound(events: nat, n: nat, alpha: real, steps: nat, bound: real, after: real)
    requires IsUpperBound(events, n, alpha, steps, bound)
    requires IsUpperBound(events + 1, n + 1, alpha, steps, after)
    ensures bound <= after
  {
    if events < n {
      forall p | 0.0 <= p <= 1.0 ensures Cdf(events, n, p) <= Cdf(events + 1, n + 1, p) {
        CdfOneMoreUnit(events, n, p);
      }
      BoundMonotone(events, n, events + 1, n + 1, alpha, steps, bound, after);
    }
  }

  /** One more unit that is clear never raises the bound. */
  lemma ClearUnitNeverRaisesBound(events: nat, n: nat, alpha: real, steps: nat, bound: real, after: real)
    requires IsUpperBound(events, n, alpha, steps, bound)
    requires IsUpperBound(events, n + 1, alpha, steps, after)
    ensures events <= n ==> after <= bound
    ensures after <= 1.0
  {
    if events < n {
      forall p | 0.0 <= p <= 1.0 ensures Cdf(events, n + 1, p) <= Cdf(events, n, p) {
        CdfOneMoreUnit(events, n, p);
      }
      BoundMonotone(events, n + 1, events, n, alpha, steps, after, bound);
    }
  }

  // ----- What makes it a confidence bound -----

  /** Each number of events with its bound. */
  ghost predicate AreBounds(bounds: seq<real>, n: nat, alpha: real, steps: nat) {
    |bounds| == n + 1 && forall e :: 0 <= e <= n ==> IsUpperBound(e, n, alpha, steps, bounds[e])
  }

  /** At the true rate `p`, the chance of fewer than `count` events whose bound lies below `p`. */
  function MissBelow(count: nat, n: nat, bounds: seq<real>, p: real): real
    requires count <= |bounds|
  {
    if count == 0 then 0.0
    else MissBelow(count - 1, n, bounds, p) + if bounds[count - 1] < p then Term(n, count - 1, p) else 0.0
  }

  lemma {:induction false} MissAll(count: nat, n: nat, bounds: seq<real>, p: real)
    requires count <= |bounds| && forall e :: 0 <= e < count ==> bounds[e] < p
    ensures MissBelow(count, n, bounds, p) == Partial(count, n, p)
  {
    if count > 0 {
      MissAll(count - 1, n, bounds, p);
    }
  }

  lemma {:induction false} MissUpTo(count: nat, n: nat, alpha: real, steps: nat, bounds: seq<real>, p: real)
    requires count <= n + 1 && AreBounds(bounds, n, alpha, steps) && 0.0 < alpha && 0.0 <= p <= 1.0
    ensures MissBelow(count, n, bounds, p) <= alpha
  {
    if count > 0 {
      var last := count - 1;
      if bounds[last] < p {
        forall e | 0 <= e < count ensures bounds[e] < p {
          MoreEventsNeverLowerBound(e, last, n, alpha, steps, bounds[e], bounds[last]);
        }
        MissAll(count, n, bounds, p);
        assert last < n;
        CdfAntitone(last, n, bounds[last], p);
      } else {
        MissUpTo(last, n, alpha, steps, bounds, p);
      }
    }
  }

  /** Whatever the true rate, the chance that the reported bound falls below it is at most alpha. */
  lemma BoundMissesAtMostAlpha(n: nat, alpha: real, steps: nat, bounds: seq<real>, p: real)
    requires AreBounds(bounds, n, alpha, steps) && 0.0 < alpha && 0.0 <= p <= 1.0
    ensures MissBelow(n + 1, n, bounds, p) <= alpha
  {
    MissUpTo(n + 1, n, alpha, steps, bounds, p);
  }
}
