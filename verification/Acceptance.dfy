/** The acceptance-rate threshold search of the composite verifier, over exact reals. */
module Acceptance {
  import opened Wrappers

  function Pow(a: real, n: nat): real {
    if n == 0 then 1.0 else a * Pow(a, n - 1)
  }

  /** Expected tokens committed per round when each of `n` candidates is accepted independently: the finite geometric
      sum. */
  function GeometricSum(a: real, n: nat): real {
    if n == 0 then 0.0 else GeometricSum(a, n - 1) + Pow(a, n - 1)
  }

  /** The closed form the evaluator computes. */
  function ExpectedCommits(alpha: real, candidates: nat): real {
    if alpha == 1.0 then candidates as real else (1.0 - Pow(alpha, candidates)) / (1.0 - alpha)
  }

  lemma {:induction false} Telescope(a: real, n: nat)
    ensures (1.0 - a) * GeometricSum(a, n) == 1.0 - Pow(a, n)
  {
    if n > 0 {
      Telescope(a, n - 1);
      var s, p := GeometricSum(a, n - 1), Pow(a, n - 1);
      assert (1.0 - a) * (s + p) == (1.0 - a) * s + p - a * p;
    }
  }

  lemma {:induction false} SumAtOne(n: nat)
    ensures GeometricSum(1.0, n) == n as real && Pow(1.0, n) == 1.0
  {
    if n > 0 {
      SumAtOne(n - 1);
    }
  }

  lemma {:induction false} ClosedForm(alpha: real, n: nat)
    ensures ExpectedCommits(alpha, n) == GeometricSum(alpha, n)
  {
    if alpha == 1.0 {
      SumAtOne(n);
    } else {
      Telescope(alpha, n);
      DivideOut(1.0 - alpha, GeometricSum(alpha, n), 1.0 - Pow(alpha, n));
    }
  }

  lemma DivideOut(d: real, x: real, y: real)
    requires d != 0.0 && d * x == y
    ensures y / d == x
  {
  }

  lemma {:induction false} PowMonotone(a: real, b: real, n: nat)
    requires 0.0 <= a <= b
    ensures 0.0 <= Pow(a, n) <= Pow(b, n)
    ensures a < b && n > 0 ==> Pow(a, n) < Pow(b, n)
  {
    if n > 0 {
      PowMonotone(a, b, n - 1);
      if a < b {
        PowPositive(b, n - 1);
      }
      MulOrder(a, b, Pow(a, n - 1), Pow(b, n - 1));
    }
  }

  lemma MulOrder(a: real, b: real, x: real, y: real)
    requires 0.0 <= a <= b && 0.0 <= x <= y
    ensures 0.0 <= a * x <= b * y
    ensures a < b && y > 0.0 ==> a * x < b * y
  {
  }

  lemma {:induction false} PowPositive(b: real, n: nat)
    requires b > 0.0
    ensures Pow(b, n) > 0.0
  {
    if n > 0 {
      PowPositive(b, n - 1);
    }
  }

  lemma {:induction false} SumMonotone(a: real, b: real, n: nat)
    requires 0.0 <= a <= b
    ensures GeometricSum(a, n) <= GeometricSum(b, n)
    ensures a < b && n >= 2 ==> GeometricSum(a, n) < GeometricSum(b, n)
  {
    if n > 0 {
      SumMonotone(a, b, n - 1);
      PowMonotone(a, b, n - 1);
    }
  }

  /** The expected commits strictly increase with the acceptance rate once there are two candidates. */
  lemma CommitsMonotone(a: real, b: real, n: nat)
    requires 0.0 <= a <= b <= 1.0
    ensures ExpectedCommits(a, n) <= ExpectedCommits(b, n)
    ensures a < b && n >= 2 ==> ExpectedCommits(a, n) < ExpectedCommits(b, n)
  {
    ClosedForm(a, n);
    ClosedForm(b, n);
    SumMonotone(a, b, n);
  }

  predicate Sufficient(alpha: real, required: real, candidates: nat) {
    0.0 <= alpha <= 1.0 && ExpectedCommits(alpha, candidates) >= required
  }

  /** The bisection of `required_alpha`: eighty halvings that keep the required count between the two ends. With at
      least one candidate the answer is sufficient and within `2^-80` of every sufficient rate, and no answer is given
      exactly when no rate suffices. With no candidate the search still answers zero for a requirement of at most one,
      which suffices only if nothing is required. */
  method RequiredAlpha(required: real, candidates: nat) returns (r: Option<real>)
    ensures r.None? <==> required > 1.0 && required > candidates as real
    ensures r.Some? ==> (Sufficient(r.value, required, candidates) <==> candidates >= 1 || required <= 0.0)
    ensures candidates >= 1 ==> (r.None? <==> forall a :: !Sufficient(a, required, candidates))
    ensures r.Some? ==> forall a :: Sufficient(a, required, candidates) ==> r.value <= a + Pow(0.5, 80)
  {
    CommitsAtEnds(candidates);
    PowPositive(0.5, 80);
    forall a | 0.0 <= a <= 1.0
      ensures ExpectedCommits(a, candidates) <= candidates as real
    {
      CommitsMonotone(a, 1.0, candidates);
    }
    if required <= 1.0 {
      return Some(0.0);
    }
    if required > candidates as real {
      return None;
    }
    var low, high := 0.0, 1.0;
    for i := 0 to 80
      invariant 0.0 <= low < high <= 1.0
      invariant ExpectedCommits(low, candidates) < required <= ExpectedCommits(high, candidates)
      invariant high - low == Pow(0.5, i)
    {
      var middle := (low + high) / 2.0;
      if ExpectedCommits(middle, candidates) < required {
        low := middle;
      } else {
        high := middle;
      }
    }
    forall a | Sufficient(a, required, candidates)
      ensures low < a
    {
      if a <= low {
        CommitsMonotone(a, low, candidates);
      }
    }
    r := Some(high);
  }

  lemma CommitsAtEnds(n: nat)
    ensures ExpectedCommits(1.0, n) == n as real
    ensures ExpectedCommits(0.0, n) == if n == 0 then 0.0 else 1.0
  {
  }
}
