/**
 The binomial distribution behind the harm endpoint's upper bound, over exact
 reals. `Term` is the summand the script exponentiates from log-gammas; `Cdf`
 is the sum of the first `events + 1` of them.
 */
module Binomial {

  function Pow(x: real, k: nat): real {
    if k == 0 then 1.0 else x * Pow(x, k - 1)
  }

  function Factorial(n: nat): (f: nat)
    ensures f >= 1
  {
    if n == 0 then 1 else n * Factorial(n - 1)
  }

  function Product(x: real, y: real, z: real): real {
    x * y * z
  }

  /** The number of ways to pick `k` of `n`, by Pascal's rule. */
  function Choose(n: nat, k: nat): nat {
    if k == 0 then 1 else if n == 0 then 0 else Choose(n - 1, k) + Choose(n - 1, k - 1)
  }

  /** P(X == k) for X ~ Binomial(n, p). */
  function Term(n: nat, k: nat, p: real): real {
    if k > n then 0.0 else Product(Choose(n, k) as real, Pow(p, k), Pow(1.0 - p, n - k))
  }

  /** The sum of the terms with index below `count`. */
  function Partial(count: nat, n: nat, p: real): real {
    if count == 0 then 0.0 else Partial(count - 1, n, p) + Term(n, count - 1, p)
  }

  /** P(X <= events) for X ~ Binomial(n, p). */
  function Cdf(events: nat, n: nat, p: real): real {
    Partial(events + 1, n, p)
  }

  // ----- The factorial quotient the script computes -----

  /** exp(lgamma(n+1) - lgamma(k+1) - lgamma(n-k+1)) */
  function Coefficient(n: nat, k: nat): real
    requires k <= n
  {
    Factorial(n) as real / (Factorial(k) * Factorial(n - k)) as real
  }

  lemma {:induction false} ChooseAbove(n: nat, k: nat)
    requires n < k
    ensures Choose(n, k) == 0
  {
    if n > 0 {
      ChooseAbove(n - 1, k);
      ChooseAbove(n - 1, k - 1);
    }
  }

  lemma {:induction false} ChooseFull(n: nat)
    ensures Choose(n, n) == 1
  {
    if n > 0 {
      ChooseFull(n - 1);
      ChooseAbove(n - 1, n);
    }
  }

  lemma {:induction false} ChooseFactorial(n: nat, k: nat)
    requires k <= n
    ensures Choose(n, k) * (Factorial(k) * Factorial(n - k)) == Factorial(n)
  {
    if k == 0 {
    } else if k == n {
      ChooseFull(n);
    } else {
      ChooseFactorial(n - 1, k);
      ChooseFactorial(n - 1, k - 1);
      var a, b := Choose(n - 1, k), Choose(n - 1, k - 1);
      var f, g := Factorial(k - 1), Factorial(n - 1 - k);
      assert Factorial(k) == k * f && Factorial(n - k) == (n - k) * g;
      ChooseStep(a, b, f, g, k, n - k, Factorial(n - 1));
    }
  }

  lemma ChooseStep(a: nat, b: nat, f: nat, g: nat, k: nat, m: nat, whole: nat)
    requires a * ((k * f) * g) == whole
    requires b * (f * (m * g)) == whole
    ensures (a + b) * ((k * f) * (m * g)) == (k + m) * whole
  {}

  lemma CoefficientIsChoose(n: nat, k: nat)
    requires k <= n
    ensures Coefficient(n, k) == Choose(n, k) as real
  {
    ChooseFactorial(n, k);
    Quotient(Choose(n, k), Factorial(k) * Factorial(n - k), Factorial(n));
  }

  lemma Quotient(c: nat, d: nat, whole: nat)
    requires d > 0 && c * d == whole
    ensures whole as real / d as real == c as real
  {}

  // ----- One more trial -----

  /** A term over one more trial, by the outcome of that trial. */
  lemma TermStep(n: nat, k: nat, p: real)
    ensures Term(n + 1, k, p) == Split(p, Term(n, k, p), if k == 0 then 0.0 else Term(n, k - 1, p))
  {
    if 1 <= k <= n {
      TermStepInside(n, k, p);
    } else if k == n + 1 {
      ChooseFull(n);
      ChooseFull(n + 1);
    }
  }

  /** The average of two chances, by whether the further trial is a miss or a hit. */
  function Split(p: real, miss: real, hit: real): real {
    (1.0 - p) * miss + p * hit
  }

  lemma TermStepInside(n: nat, k: nat, p: real)
    requires 1 <= k <= n
    ensures Term(n + 1, k, p) == Split(p, Term(n, k, p), Term(n, k - 1, p))
  {}

  /** F(e; n+1, p) = (1-p) F(e; n, p) + p F(e-1; n, p), for any number of terms. */
  lemma {:induction false} PartialStep(count: nat, n: nat, p: real)
    ensures Partial(count, n + 1, p) ==
            Split(p, Partial(count, n, p), if count == 0 then 0.0 else Partial(count - 1, n, p))
  {
    if count > 0 {
      PartialStep(count - 1, n, p);
      TermStep(n, count - 1, p);
      SplitAdds(p, Partial(count - 1, n, p), Term(n, count - 1, p),
                if count == 1 then 0.0 else Partial(count - 2, n, p),
                if count == 1 then 0.0 else Term(n, count - 2, p));
    }
  }

  lemma SplitAdds(p: real, a: real, b: real, c: real, d: real)
    ensures Split(p, a, c) + Split(p, b, d) == Split(p, a + b, c + d)
  {}

  lemma CdfRecurrence(events: nat, n: nat, p: real)
    ensures Cdf(events, n + 1, p) ==
            Split(p, Cdf(events, n, p), if events == 0 then 0.0 else Cdf(events - 1, n, p))
  {
    PartialStep(events + 1, n, p);
  }

  // ----- Bounds and monotonicity, by induction on the number of trials -----

  lemma {:induction false} PowNonnegative(x: real, k: nat)
    requires 0.0 <= x
    ensures 0.0 <= Pow(x, k)
  {
    if k > 0 {
      PowNonnegative(x, k - 1);
    }
  }

  lemma TermNonnegative(n: nat, k: nat, p: real)
    requires 0.0 <= p <= 1.0
    ensures 0.0 <= Term(n, k, p)
  {
    if k <= n {
      PowNonnegative(p, k);
      PowNonnegative(1.0 - p, n - k);
      ProductNonnegative(Choose(n, k) as real, Pow(p, k), Pow(1.0 - p, n - k));
    }
  }

  lemma ProductNonnegative(x: real, y: real, z: real)
    requires 0.0 <= x && 0.0 <= y && 0.0 <= z
    ensures 0.0 <= Product(x, y, z)
  {}

  lemma {:induction false} PartialWithoutTrials(count: nat, p: real)
    ensures Partial(count, 0, p) == if count == 0 then 0.0 else 1.0
  {
    if count > 0 {
      PartialWithoutTrials(count - 1, p);
    }
  }

  /** More terms never lower the sum. */
  lemma PartialGrows(count: nat, n: nat, p: real)
    requires 0.0 <= p <= 1.0
    ensures Partial(count, n, p) <= Partial(count + 1, n, p)
  {
    TermNonnegative(n, count, p);
  }

  lemma {:induction false} PartialOrdered(count: nat, more: nat, n: nat, p: real)
    requires 0.0 <= p <= 1.0 && count <= more
    ensures Partial(count, n, p) <= Partial(more, n, p)
    decreases more
  {
    if count < more {
      PartialOrdered(count, more - 1, n, p);
      PartialGrows(more - 1, n, p);
    }
  }

  /** The chance of at most `events` events never rises with their probability. */
  lemma {:induction false} PartialAntitone(count: nat, n: nat, p: real, r: real)
    requires 0.0 <= p <= r <= 1.0
    ensures Partial(count, n, r) <= Partial(count, n, p)
    decreases n, count
  {
    if n == 0 {
      PartialWithoutTrials(count, p);
      PartialWithoutTrials(count, r);
    } else if count > 0 {
      PartialStep(count, n - 1, p);
      PartialStep(count, n - 1, r);
      PartialAntitone(count, n - 1, p, r);
      PartialAntitone(count - 1, n - 1, p, r);
      PartialGrows(count - 1, n - 1, p);
      Mix(p, r, Partial(count, n - 1, p), Partial(count, n - 1, r),
          Partial(count - 1, n - 1, p), Partial(count - 1, n - 1, r));
    }
  }

  /** An average falls when its weight moves to the smaller side and both sides fall. */
  lemma Mix(p: real, r: real, a: real, a': real, b: real, b': real)
    requires 0.0 <= p <= r <= 1.0 && a' <= a && b' <= b && b <= a
    ensures Split(r, a', b') <= Split(p, a, b)
  {
    assert (1.0 - r) * a' <= (1.0 - r) * a && r * b' <= r * b;
    assert Split(r, a, b) == a - r * (a - b);
    assert Split(p, a, b) == a - p * (a - b);
    assert p * (a - b) <= r * (a - b);
  }

  lemma CdfAntitone(events: nat, n: nat, p: real, r: real)
    requires 0.0 <= p <= r <= 1.0
    ensures Cdf(events, n, r) <= Cdf(events, n, p)
  {
    PartialAntitone(events + 1, n, p, r);
  }

  /** With fewer events than trials, no chance of a hit makes the sum one and certainty makes it zero. */
  lemma {:induction false} PartialEnds(count: nat, n: nat)
    requires count > 0
    ensures Partial(count, n, 0.0) == 1.0
    ensures count <= n ==> Partial(count, n, 1.0) == 0.0
    decreases n, count
  {
    if n == 0 {
      PartialWithoutTrials(count, 0.0);
    } else {
      PartialStep(count, n - 1, 0.0);
      PartialStep(count, n - 1, 1.0);
      PartialEnds(count, n - 1);
      if count > 1 {
        PartialEnds(count - 1, n - 1);
      }
    }
  }

  lemma CdfEnds(events: nat, n: nat)
    requires events < n
    ensures Cdf(events, n, 0.0) == 1.0 && Cdf(events, n, 1.0) == 0.0
  {
    PartialEnds(events + 1, n);
  }

  lemma {:induction false} PartialPositive(count: nat, n: nat, p: real)
    requires 0.0 <= p < 1.0 && count > 0
    ensures Partial(count, n, p) > 0.0
    decreases n
  {
    if n == 0 {
      PartialWithoutTrials(count, p);
    } else {
      PartialStep(count, n - 1, p);
      PartialPositive(count, n - 1, p);
      PartialNonnegative(count - 1, n - 1, p);
      MixPositive(p, Partial(count, n - 1, p), Partial(count - 1, n - 1, p));
    }
  }

  lemma {:induction false} PartialNonnegative(count: nat, n: nat, p: real)
    requires 0.0 <= p <= 1.0
    ensures 0.0 <= Partial(count, n, p)
  {
    if count > 0 {
      PartialNonnegative(count - 1, n, p);
      TermNonnegative(n, count - 1, p);
    }
  }

  lemma MixPositive(p: real, a: real, b: real)
    requires 0.0 <= p < 1.0 && a > 0.0 && b >= 0.0
    ensures Split(p, a, b) > 0.0
  {
    assert (1.0 - p) * a > 0.0 && p * b >= 0.0;
  }

  lemma {:induction false} PartialComplete(n: nat, p: real)
    ensures Partial(n + 1, n, p) == 1.0
  {
    if n == 0 {
      PartialWithoutTrials(1, p);
    } else {
      PartialStep(n + 1, n - 1, p);
      PartialComplete(n - 1, p);
      assert Partial(n + 1, n - 1, p) == Partial(n, n - 1, p) + Term(n - 1, n, p);
    }
  }

  /** With at least one event short of certainty, the chance falls strictly. */
  lemma {:induction false} PartialStrict(count: nat, n: nat, p: real, r: real)
    requires 0.0 <= p < r <= 1.0 && 1 <= count <= n
    ensures Partial(count, n, r) < Partial(count, n, p)
    decreases n
  {
    var a, b := Partial(count, n - 1, p), Partial(count - 1, n - 1, p);
    var a', b' := Partial(count, n - 1, r), Partial(count - 1, n - 1, r);
    PartialStep(count, n - 1, p);
    PartialStep(count, n - 1, r);
    PartialGrows(count - 1, n - 1, p);
    PartialAntitone(count, n - 1, p, r);
    PartialAntitone(count - 1, n - 1, p, r);
    if r == 1.0 {
      PartialEnds(count, n);
      PartialPositive(count, n, p);
    } else if count < n {
      PartialStrict(count, n - 1, p, r);
      MixStrictly(p, r, a, a', b, b');
    } else {
      PartialComplete(n - 1, p);
      PartialComplete(n - 1, r);
      if count > 1 {
        PartialStrict(count - 1, n - 1, p, r);
      }
      MixFromOne(p, r, b, b');
    }
  }

  lemma MixStrictly(p: real, r: real, a: real, a': real, b: real, b': real)
    requires 0.0 <= p < r < 1.0 && a' < a && b' <= b && b <= a
    ensures Split(r, a', b') < Split(p, a, b)
  {
    Mix(p, r, a, a, b, b');
    var q, gap := 1.0 - r, a - a';
    assert q * gap > 0.0;
    assert Split(r, a, b') - Split(r, a', b') == q * gap;
  }

  lemma MixFromOne(p: real, r: real, b: real, b': real)
    requires 0.0 <= p < r < 1.0 && b <= 1.0 && (b' < b || b' == b == 0.0)
    ensures Split(r, 1.0, b') < Split(p, 1.0, b)
  {
    assert Split(r, 1.0, b') == 1.0 - r * (1.0 - b');
    assert Split(p, 1.0, b) == 1.0 - p * (1.0 - b);
    assert r * (1.0 - b') >= r * (1.0 - b) >= p * (1.0 - b);
    if b' < b {
      assert r * (1.0 - b') > r * (1.0 - b);
    }
  }

  lemma CdfStrict(events: nat, n: nat, p: real, r: real)
    requires 0.0 <= p < r <= 1.0 && events < n
    ensures Cdf(events, n, r) < Cdf(events, n, p)
  {
    PartialStrict(events + 1, n, p, r);
  }

  /** A further unit that is flagged never lowers the chance; one that is clear never raises it. */
  lemma CdfOneMoreUnit(events: nat, n: nat, p: real)
    requires 0.0 <= p <= 1.0
    ensures Cdf(events, n, p) <= Cdf(events + 1, n + 1, p)
    ensures Cdf(events, n + 1, p) <= Cdf(events, n, p)
  {
    PartialStep(events + 2, n, p);
    PartialStep(events + 1, n, p);
    PartialGrows(events + 1, n, p);
    PartialGrows(events, n, p);
    var x, y, z := Partial(events, n, p), Partial(events + 1, n, p), Partial(events + 2, n, p);
    Mix(0.0, p, y, y, x, x);
    Mix(p, 1.0, z, z, y, y);
  }

  // ----- The loop that sums the terms -----

  method EvaluateCdf(events: nat, n: nat, p: real) returns (total: real)
    requires events < n
    ensures 0.0 <= p <= 1.0 ==> total == Cdf(events, n, p)
    ensures p < 0.0 ==> total == 1.0
    ensures p > 1.0 ==> total == 0.0
  {
    CdfEnds(events, n);
    if p <= 0.0 {
      return 1.0;
    }
    if p >= 1.0 {
      return 0.0;
    }
    total := 0.0;
    for k := 0 to events + 1
      invariant total == Partial(k, n, p)
    {
      CoefficientIsChoose(n, k);
      total := total + Product(Coefficient(n, k), Pow(p, k), Pow(1.0 - p, n - k));
    }
  }
}
