/** The Wilson interval and the top-token gate calibrated from it, with an exact square root.
    The yardstick uses the quantile `Z_95`; the laws hold for every positive one. */
module Wilson {
  import opened Wrappers
  import opened Arithmetic

  const Z_95: real := 1.959963984540054
  const DISAGREEMENT_MARGIN: real := 0.02

  function Min(a: real, b: real): real {
    if a <= b then a else b
  }

  function Max(a: real, b: real): real {
    if a >= b then a else b
  }

  function Radicand(rate: real, rows: real, z: real := Z_95): real
    requires rows > 0.0
  {
    rate * (1.0 - rate) / rows + z * z / (4.0 * rows * rows)
  }

  ghost predicate IsRoot(root: real, x: real) {
    root >= 0.0 && root * root == x
  }

  /** The interval at quantile `z`; `root` stands for the square root of the radicand. Invalid counts are refused. */
  function WilsonInterval(mismatches: int, rows: int, root: real, z: real := Z_95): Option<(real, real)> {
    if rows <= 0 || !(0 <= mismatches <= rows) then None
    else
      var n := rows as real;
      var (low, high) := Ends(z, mismatches as real / n, n, root);
      Some((Max(0.0, low), Min(1.0, high)))
  }

  /** The two ends before clamping. */
  function Ends(z: real, rate: real, n: real, root: real): (real, real)
    requires n > 0.0
  {
    var denominator := 1.0 + z * z / n;
    DenominatorPositive(z, n);
    var center := (rate + z * z / (2.0 * n)) / denominator;
    var spread := z * root / denominator;
    (center - spread, center + spread)
  }

  lemma DenominatorPositive(z: real, n: real)
    requires n > 0.0
    ensures 1.0 + z * z / n > 0.0
  {
  }

  // ---- The geometry of the interval ----

  /** `p` is the rate, `a` is `z^2/n` and `s` is `z` times the root. */
  ghost predicate Shape(p: real, a: real, s: real) {
    0.0 <= p <= 1.0 && a > 0.0 && s >= 0.0 && s * s == a * (p * (1.0 - p)) + a * a / 4.0
  }

  function Lower(p: real, a: real, s: real): real
    requires a > 0.0
  {
    (p + a / 2.0 - s) / (1.0 + a)
  }

  function Upper(p: real, a: real, s: real): real
    requires a > 0.0
  {
    (p + a / 2.0 + s) / (1.0 + a)
  }

  /** The quadratic whose roots are the ends of the interval. */
  function Quadratic(x: real, p: real, a: real): real {
    (x - p) * (x - p) - a * (x * (1.0 - x))
  }

  /** Completing the square. */
  lemma Completed(x: real, p: real, a: real, s: real)
    requires Shape(p, a, s)
    ensures var t := (1.0 + a) * x - (p + a / 2.0); t * t - s * s == (1.0 + a) * Quadratic(x, p, a)
  {
  }

  lemma AbsOrder(t: real, s: real)
    requires s >= 0.0
    ensures t * t <= s * s <==> -s <= t <= s
  {
    if t >= 0.0 {
      SquareOrder(t, s);
    } else {
      SquareOrder(-t, s);
      assert (-t) * (-t) == t * t;
    }
  }

  /** A point is inside the interval exactly when the quadratic is not positive there. */
  lemma InsideIff(x: real, p: real, a: real, s: real)
    requires Shape(p, a, s)
    ensures Lower(p, a, s) <= x <= Upper(p, a, s) <==> Quadratic(x, p, a) <= 0.0
  {
    Completed(x, p, a, s);
    Between(x, 1.0 + a, p + a / 2.0, s, Quadratic(x, p, a));
  }

  lemma Between(x: real, h: real, m: real, s: real, q: real)
    requires h > 0.0 && s >= 0.0
    requires var t := h * x - m; t * t - s * s == h * q
    ensures (m - s) / h <= x <= (m + s) / h <==> q <= 0.0
  {
    AbsOrder(h * x - m, s);
    SignOfMultiple(h, q);
    DivideBound(m - s, h, x);
    DivideBound(m + s, h, x);
  }

  lemma SignOfMultiple(h: real, q: real)
    requires h > 0.0
    ensures h * q <= 0.0 <==> q <= 0.0
  {
  }

  lemma DivideBound(n: real, h: real, x: real)
    requires h > 0.0
    ensures n / h <= x <==> n <= h * x
    ensures x <= n / h <==> h * x <= n
  {
  }

  /** The exact interval contains the observed rate and lies in `[0, 1]` before any clamping. */
  lemma ContainsRate(p: real, a: real, s: real)
    requires Shape(p, a, s)
    ensures 0.0 <= Lower(p, a, s) <= p <= Upper(p, a, s) <= 1.0
  {
    var v := Product(p, 1.0 - p);
    var w := Product(a, v);
    assert Quadratic(p, p, a) == 0.0 - w;
    InsideIff(p, p, a, s);
    RootBelow(p, a, s);
    DivideBound(p + a / 2.0 - s, 1.0 + a, 0.0);
    DivideBound(p + a / 2.0 + s, 1.0 + a, 1.0);
  }

  /** The root reaches neither end of `[0, 1]`. */
  lemma RootBelow(p: real, a: real, s: real)
    requires Shape(p, a, s)
    ensures s <= p + a / 2.0 && s <= 1.0 + a / 2.0 - p
  {
    var h, m := 1.0 + a, p + a / 2.0;
    Completed(0.0, p, a, s);
    Completed(1.0, p, a, s);
    SquaresNonNegative(p, h);
    SquaresNonNegative(1.0 - p, h);
    assert (0.0 - m) * (0.0 - m) - s * s == h * (p * p);
    assert (h - m) * (h - m) - s * s == h * ((1.0 - p) * (1.0 - p));
    SquareOrder(s, m);
    SquareOrder(s, h - m);
  }

  lemma SquaresNonNegative(x: real, h: real)
    requires x >= 0.0 && h >= 0.0
    ensures h * (x * x) >= 0.0
  {
  }

  /** The upper end does not decrease with the rate, for fixed rows. */
  lemma UpperMonotone(p: real, p': real, a: real, s: real, s': real)
    requires Shape(p, a, s) && Shape(p', a, s') && p <= p'
    ensures Upper(p, a, s) <= Upper(p', a, s')
  {
    var u := Upper(p, a, s);
    ContainsRate(p, a, s);
    ContainsRate(p', a, s');
    if u >= p' {
      InsideIff(u, p, a, s);
      CloserRate(u, p, p', a);
      InsideIff(u, p', a, s');
    }
  }

  lemma CloserRate(x: real, p: real, p': real, a: real)
    requires p <= p' <= x
    ensures Quadratic(x, p', a) <= Quadratic(x, p, a)
  {
  }

  // ---- The interval of the counts ----

  lemma RateInRange(mismatches: int, rows: int)
    requires rows > 0 && 0 <= mismatches <= rows
    ensures 0.0 <= mismatches as real / rows as real <= 1.0
  {
  }

  lemma CountsShape(mismatches: int, rows: int, root: real, z: real)
    requires z > 0.0 && rows > 0 && 0 <= mismatches <= rows
    requires IsRoot(root, Radicand(mismatches as real / rows as real, rows as real, z))
    ensures Shape(mismatches as real / rows as real, z * z / rows as real, z * root)
  {
    var n := rows as real;
    var p := mismatches as real / n;
    var zz := PositiveProduct(z, z);
    var s := Product(z, root);
    RateInRange(mismatches, rows);
    ScaledRoot(p * (1.0 - p), n, zz, root);
    assert (z * root) * (z * root) == zz * (root * root);
  }

  lemma ScaledRoot(v: real, n: real, zz: real, root: real)
    requires n > 0.0 && zz > 0.0 && root * root == v / n + zz / (4.0 * n * n)
    ensures zz / n > 0.0 && zz * (root * root) == (zz / n) * v + (zz / n) * (zz / n) / 4.0
  {
    var i := 1.0 / n;
    assert i > 0.0 && v / n == v * i && zz / n == zz * i;
    assert zz / (4.0 * n * n) == zz * (i * i) / 4.0 by {
      assert (4.0 * n * n) * (i * i) == 4.0 * ((n * i) * (n * i));
      assert n * i == 1.0;
      Reciprocal(zz, 4.0 * n * n, i * i / 4.0);
    }
    assert zz * (v * i + zz * (i * i) / 4.0) == (zz * i) * v + (zz * i) * (zz * i) / 4.0;
  }

  lemma Reciprocal(zz: real, d: real, w: real)
    requires d > 0.0 && d * w == 1.0
    ensures zz / d == zz * w
  {
    var q := zz / d;
    assert q * d == zz;
    assert (q * d) * w == q * (d * w);
  }

  /** The unclamped ends are the geometric ones, so neither clamp ever takes effect. */
  lemma EndsAreGeometric(mismatches: int, rows: int, root: real, z: real)
    requires z > 0.0 && rows > 0 && 0 <= mismatches <= rows
    requires IsRoot(root, Radicand(mismatches as real / rows as real, rows as real, z))
    ensures var p, a, s := mismatches as real / rows as real, z * z / rows as real, z * root;
            Shape(p, a, s) && WilsonInterval(mismatches, rows, root, z) == Some((Lower(p, a, s), Upper(p, a, s)))
  {
    var n := rows as real;
    var p, a, s := mismatches as real / n, z * z / n, z * root;
    CountsShape(mismatches, rows, root, z);
    ContainsRate(p, a, s);
    UnclampedEnds(z, p, n, root);
  }

  lemma UnclampedEnds(z: real, p: real, n: real, root: real)
    requires n > 0.0 && z * z / n > 0.0
    ensures Ends(z, p, n, root) == (Lower(p, z * z / n, z * root), Upper(p, z * z / n, z * root))
  {
    var zz, s := z * z, z * root;
    Halved(zz, n);
    AddOver(p + zz / n / 2.0, s, 1.0 + zz / n);
  }

  lemma Halved(x: real, n: real)
    requires n > 0.0
    ensures x / (2.0 * n) == x / n / 2.0
  {
  }

  lemma AddOver(m: real, s: real, h: real)
    requires h > 0.0
    ensures m / h - s / h == (m - s) / h && m / h + s / h == (m + s) / h
  {
  }

  /** The squared distance of `x` from the observed rate is at most `z^2 x (1 - x) / rows`. */
  ghost predicate NotRejected(x: real, mismatches: int, rows: int, z: real)
    requires rows > 0
  {
    Quadratic(x, mismatches as real / rows as real, z * z / rows as real) <= 0.0
  }

  /**
   * The interval exists exactly for valid counts. It lies in `[0, 1]`, contains the observed rate,
   * and holds exactly the rates that the score test of that size does not reject.
   */
  lemma WilsonIsScoreTest(mismatches: int, rows: int, root: real, z: real)
    requires z > 0.0
    requires rows > 0 && 0 <= mismatches <= rows ==>
      IsRoot(root, Radicand(mismatches as real / rows as real, rows as real, z))
    ensures WilsonInterval(mismatches, rows, root, z).Some? <==> rows > 0 && 0 <= mismatches <= rows
    ensures match WilsonInterval(mismatches, rows, root, z)
      case None => true
      case Some((low, high)) =>
        && 0.0 <= low <= mismatches as real / rows as real <= high <= 1.0
        && forall x: real :: low <= x <= high <==> NotRejected(x, mismatches, rows, z)
  {
    if rows > 0 && 0 <= mismatches <= rows {
      var p, a, s := mismatches as real / rows as real, z * z / rows as real, z * root;
      EndsAreGeometric(mismatches, rows, root, z);
      ContainsRate(p, a, s);
      forall x: real
        ensures Lower(p, a, s) <= x <= Upper(p, a, s) <==> NotRejected(x, mismatches, rows, z)
      {
        InsideIff(x, p, a, s);
      }
    }
  }

  lemma RateMonotone(m: int, m': int, rows: int)
    requires rows > 0 && m <= m'
    ensures m as real / rows as real <= m' as real / rows as real
  {
  }

  /** For fixed rows the upper end does not decrease with the mismatches. */
  lemma UpperEndMonotone(m: int, m': int, rows: int, root: real, root': real, z: real)
    requires z > 0.0 && rows > 0 && 0 <= m <= m' <= rows
    requires IsRoot(root, Radicand(m as real / rows as real, rows as real, z))
    requires IsRoot(root', Radicand(m' as real / rows as real, rows as real, z))
    ensures WilsonInterval(m, rows, root, z).value.1 <= WilsonInterval(m', rows, root', z).value.1
  {
    var n := rows as real;
    EndsAreGeometric(m, rows, root, z);
    EndsAreGeometric(m', rows, root', z);
    RateMonotone(m, m', rows);
    UpperMonotone(m as real / n, m' as real / n, z * z / n, z * root, z * root');
  }

  // ---- The gate and the native verdict ----

  /** How many aligned positions differ. */
  function Mismatches(left: seq<int>, right: seq<int>): (count: nat)
    requires |left| == |right|
    ensures count <= |left|
    ensures count == 0 <==> left == right
  {
    if left == [] then 0
    else
      var rest := Mismatches(left[1..], right[1..]);
      assert left == [left[0]] + left[1..] && right == [right[0]] + right[1..];
      rest + if left[0] != right[0] then 1 else 0
  }

  function Differing(left: seq<int>, right: seq<int>, from: nat): set<nat>
    requires |left| == |right|
  {
    set i: nat | from <= i < |left| && left[i] != right[i]
  }

  /** The count is the number of positions at which the rows differ. */
  lemma {:induction false} MismatchesCount(left: seq<int>, right: seq<int>)
    requires |left| == |right|
    ensures Mismatches(left, right) == |Differing(left, right, 0)|
  {
    MismatchesFrom(left, right, 0);
    assert left[0..] == left && right[0..] == right;
  }

  lemma {:induction false} MismatchesFrom(left: seq<int>, right: seq<int>, k: nat)
    requires |left| == |right| && k <= |left|
    ensures Mismatches(left[k..], right[k..]) == |Differing(left, right, k)|
    decreases |left| - k
  {
    if k == |left| {
      assert Differing(left, right, k) == {};
    } else {
      MismatchesFrom(left, right, k + 1);
      assert left[k..][1..] == left[k + 1..] && right[k..][1..] == right[k + 1..];
      assert Differing(left, right, k) == Differing(left, right, k + 1) + if left[k] != right[k] then {k} else {};
    }
  }

  /** The values at one-based positions, refused when a position is out of range. */
  function Aligned(values: seq<int>, positions: seq<int>): (r: Option<seq<int>>)
    ensures r.Some? <==> forall k :: 0 <= k < |positions| ==> 1 <= positions[k] <= |values|
    ensures r.Some? ==> |r.value| == |positions|
    ensures r.Some? ==> forall k :: 0 <= k < |positions| ==> r.value[k] == values[positions[k] - 1]
  {
    if forall k :: 0 <= k < |positions| ==> 1 <= positions[k] <= |values| then
      Some(seq(|positions|, k requires 0 <= k < |positions| => values[positions[k] - 1]))
    else
      None
  }

  /** The calibrated top-token gate. */
  function TopGate(mismatches: int, rows: int, root: real, z: real := Z_95): Option<real> {
    match WilsonInterval(mismatches, rows, root, z)
    case None => None
    case Some((_, high)) => Some(Min(1.0, high + DISAGREEMENT_MARGIN))
  }

  /** The top-token verdict on a native lane; `native` is its whole token row before alignment. */
  function TopTokenPassed(
    positions: seq<int>, baseline: seq<int>, alternate: seq<int>, native: seq<int>, root: real,
    z: real := Z_95
  ): Option<bool>
  {
    if positions == [] || |positions| != |baseline| || |positions| != |alternate| then None
    else
      match (TopGate(Mismatches(baseline, alternate), |positions|, root, z), Aligned(native, positions))
      case (Some(gate), Some(tokens)) =>
        Some(Mismatches(baseline, tokens) as real / |positions| as real <= gate)
      case _ => None
  }

  /** The root of the yardstick's own radicand. */
  ghost predicate YardstickRoot(baseline: seq<int>, alternate: seq<int>, root: real, z: real) {
    && |baseline| == |alternate| > 0
    && var n := |baseline| as real;
       IsRoot(root, Radicand(Mismatches(baseline, alternate) as real / n, n, z))
  }

  /**
   * The verdict decided without any root: a lane passes exactly when its rate less the margin is
   * at most the yardstick's rate, or is not rejected by the score test against it.
   */
  lemma {:induction false} GateWithoutRoot(
    positions: seq<int>, baseline: seq<int>, alternate: seq<int>, native: seq<int>, tokens: seq<int>, root: real,
    z: real
  )
    requires z > 0.0 && |positions| == |baseline| && YardstickRoot(baseline, alternate, root, z)
    requires Aligned(native, positions) == Some(tokens)
    ensures var n := |positions| as real;
            var p, x := Mismatches(baseline, alternate) as real / n,
                        Mismatches(baseline, tokens) as real / n - 0.02;
            TopTokenPassed(positions, baseline, alternate, native, root, z)
            == Some(x <= p || NotRejected(x, Mismatches(baseline, alternate), |positions|, z))
  {
    var m, rows := Mismatches(baseline, alternate), |positions|;
    WilsonIsScoreTest(m, rows, root, z);
    RateInRange(Mismatches(baseline, tokens), rows);
  }

  /**
   * A lane that disagrees with the baseline no more often than the alternate does passes the gate,
   * so in particular a lane identical to the alternate does.
   */
  lemma {:induction false} NoWorseLanePasses(
    positions: seq<int>, baseline: seq<int>, alternate: seq<int>, native: seq<int>, tokens: seq<int>, root: real,
    z: real
  )
    requires z > 0.0 && |positions| == |baseline| && YardstickRoot(baseline, alternate, root, z)
    requires Aligned(native, positions) == Some(tokens)
    requires tokens == alternate || Mismatches(baseline, tokens) <= Mismatches(baseline, alternate)
    ensures TopTokenPassed(positions, baseline, alternate, native, root, z) == Some(true)
  {
    GateWithoutRoot(positions, baseline, alternate, native, tokens, root, z);
    RateMonotone(Mismatches(baseline, tokens), Mismatches(baseline, alternate), |positions|);
  }

  /** A noisier yardstick never turns a passing lane into a failing one. */
  lemma {:induction false} VerdictMonotone(
    positions: seq<int>, baseline: seq<int>, alternate: seq<int>, alternate': seq<int>, native: seq<int>,
    root: real, root': real, z: real
  )
    requires z > 0.0 && |positions| == |baseline|
    requires YardstickRoot(baseline, alternate, root, z) && YardstickRoot(baseline, alternate', root', z)
    requires Mismatches(baseline, alternate) <= Mismatches(baseline, alternate')
    requires TopTokenPassed(positions, baseline, alternate, native, root, z) == Some(true)
    ensures TopTokenPassed(positions, baseline, alternate', native, root', z) == Some(true)
  {
    UpperEndMonotone(
      Mismatches(baseline, alternate), Mismatches(baseline, alternate'), |positions|, root, root', z);
  }

  /** The yardstick's own quantile. */
  lemma YardstickQuantile(mismatches: int, rows: int, root: real)
    ensures WilsonInterval(mismatches, rows, root) == WilsonInterval(mismatches, rows, root, 1.959963984540054)
    ensures TopGate(mismatches, rows, root) == TopGate(mismatches, rows, root, 1.959963984540054)
  {
  }
}
