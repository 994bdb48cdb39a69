/** Interpolated percentiles and the throughput figures derived from them, over exact reals. */
module Percentiles {
  import opened Wrappers
  import opened Arithmetic
  import opened Acceptance

  // ---- Sorting ----

  predicate Sorted(s: seq<real>) {
    forall i, j :: 0 <= i < j < |s| ==> s[i] <= s[j]
  }

  function Insert(x: real, s: seq<real>): (r: seq<real>)
    ensures |r| == |s| + 1
  {
    if |s| == 0 || x <= s[0] then [x] + s else [s[0]] + Insert(x, s[1..])
  }

  function Sort(s: seq<real>): (r: seq<real>)
    ensures |r| == |s|
  {
    if |s| == 0 then [] else Insert(s[0], Sort(s[1..]))
  }

  function Map(f: real -> real, s: seq<real>): (r: seq<real>)
    ensures |r| == |s|
  {
    seq(|s|, i requires 0 <= i < |s| => f(s[i]))
  }

  lemma {:induction false} InsertMultiset(x: real, s: seq<real>)
    ensures multiset(Insert(x, s)) == multiset{x} + multiset(s)
  {
    if |s| > 0 && x > s[0] {
      InsertMultiset(x, s[1..]);
      assert s == [s[0]] + s[1..];
    }
  }

  lemma {:induction false} InsertSorted(x: real, s: seq<real>, floor: real)
    requires Sorted(s) && floor <= x && forall i :: 0 <= i < |s| ==> floor <= s[i]
    ensures Sorted(Insert(x, s)) && forall i :: 0 <= i < |Insert(x, s)| ==> floor <= Insert(x, s)[i]
  {
    if |s| > 0 && x > s[0] {
      InsertSorted(x, s[1..], s[0]);
    }
  }

  lemma {:induction false} InsertKeepsSorted(x: real, s: seq<real>)
    requires Sorted(s)
    ensures Sorted(Insert(x, s))
  {
    if |s| > 0 && s[0] < x {
      InsertSorted(x, s, s[0]);
    } else {
      InsertSorted(x, s, x);
    }
  }

  lemma {:induction false} SortMultiset(s: seq<real>)
    ensures multiset(Sort(s)) == multiset(s)
  {
    if |s| > 0 {
      SortMultiset(s[1..]);
      InsertMultiset(s[0], Sort(s[1..]));
      Uncons(s);
    }
  }

  lemma {:induction false} SortSorted(s: seq<real>)
    ensures Sorted(Sort(s))
  {
    if |s| > 0 {
      SortSorted(s[1..]);
      InsertKeepsSorted(s[0], Sort(s[1..]));
    }
  }

  lemma {:induction false} SortSorts(s: seq<real>)
    ensures Sorted(Sort(s)) && multiset(Sort(s)) == multiset(s)
  {
    SortSorted(s);
    SortMultiset(s);
  }

  lemma HeadIsLeast(a: seq<real>, v: real)
    requires Sorted(a) && v in multiset(a)
    ensures |a| > 0 && a[0] <= v
  {
  }

  lemma Uncons(a: seq<real>)
    requires |a| > 0
    ensures a[0] in multiset(a) && a == [a[0]] + a[1..]
    ensures multiset(a) == multiset{a[0]} + multiset(a[1..]) && multiset(a[1..]) == multiset(a) - multiset{a[0]}
  {
  }

  /** A sorted arrangement of a multiset is unique. */
  lemma {:induction false} SortedUnique(a: seq<real>, b: seq<real>)
    requires Sorted(a) && Sorted(b) && multiset(a) == multiset(b)
    ensures a == b
  {
    if |a| == 0 || |b| == 0 {
      assert |multiset(a)| == |a| && |multiset(b)| == |b|;
    } else {
      SameHead(a, b);
      SortedTail(a);
      SortedTail(b);
      SortedUnique(a[1..], b[1..]);
      Uncons(a);
      Uncons(b);
    }
  }

  lemma SortedTail(a: seq<real>)
    requires |a| > 0 && Sorted(a)
    ensures Sorted(a[1..])
  {
  }

  lemma SameHead(a: seq<real>, b: seq<real>)
    requires |a| > 0 && |b| > 0 && Sorted(a) && Sorted(b) && multiset(a) == multiset(b)
    ensures a[0] == b[0] && multiset(a[1..]) == multiset(b[1..])
  {
    Uncons(a);
    Uncons(b);
    HeadIsLeast(b, a[0]);
    HeadIsLeast(a, b[0]);
  }

  lemma {:induction false} MapInsert(f: real -> real, x: real, s: seq<real>)
    ensures multiset(Map(f, Insert(x, s))) == multiset{f(x)} + multiset(Map(f, s))
  {
    if |s| == 0 || x <= s[0] {
      assert Map(f, [x] + s) == [f(x)] + Map(f, s);
    } else {
      MapInsert(f, x, s[1..]);
      assert Map(f, Insert(x, s)) == [f(s[0])] + Map(f, Insert(x, s[1..]));
      assert Map(f, s) == [f(s[0])] + Map(f, s[1..]);
    }
  }

  lemma {:induction false} MapSort(f: real -> real, s: seq<real>)
    ensures multiset(Map(f, Sort(s))) == multiset(Map(f, s))
  {
    if |s| == 0 {
      assert Map(f, Sort(s)) == Map(f, s);
    } else {
      MapSort(f, s[1..]);
      MapInsert(f, s[0], Sort(s[1..]));
      assert Map(f, s) == [f(s[0])] + Map(f, s[1..]);
    }
  }

  lemma {:induction false} SortMember(s: seq<real>, i: nat)
    requires i < |s|
    ensures Sort(s)[i] in s
  {
    SortMultiset(s);
    assert Sort(s)[i] in multiset(Sort(s));
    assert Sort(s)[i] in multiset(s);
  }

  /** Sorting commutes with an increasing map. */
  lemma {:induction false} SortIncreasing(f: real -> real, s: seq<real>)
    requires forall x, y :: x in s && y in s && x <= y ==> f(x) <= f(y)
    ensures Sort(Map(f, s)) == Map(f, Sort(s))
  {
    SortSorts(s);
    SortSorts(Map(f, s));
    MapSort(f, s);
    forall i | 0 <= i < |s|
      ensures Sort(s)[i] in s
    {
      SortMember(s, i);
    }
    SortedUnique(Sort(Map(f, s)), Map(f, Sort(s)));
  }

  function Reverse(s: seq<real>): (r: seq<real>)
    ensures |r| == |s|
  {
    seq(|s|, i requires 0 <= i < |s| => s[|s| - 1 - i])
  }

  lemma {:induction false} ReverseMultiset(s: seq<real>)
    ensures multiset(Reverse(s)) == multiset(s)
  {
    if |s| == 0 {
      assert Reverse(s) == s;
    } else {
      var n := |s| - 1;
      ReverseMultiset(s[..n]);
      assert Reverse(s) == [s[n]] + Reverse(s[..n]);
      assert s == s[..n] + [s[n]];
    }
  }

  /** Sorting reverses under a decreasing map. */
  lemma {:induction false} SortDecreasing(f: real -> real, s: seq<real>)
    requires forall x, y :: x in s && y in s && x <= y ==> f(y) <= f(x)
    ensures Sort(Map(f, s)) == Reverse(Map(f, Sort(s)))
  {
    SortSorts(s);
    SortSorts(Map(f, s));
    MapSort(f, s);
    ReverseMultiset(Map(f, Sort(s)));
    forall i | 0 <= i < |s|
      ensures Sort(s)[i] in s
    {
      SortMember(s, i);
    }
    SortedUnique(Sort(Map(f, s)), Reverse(Map(f, Sort(s))));
  }

  // ---- Interpolation ----

  /** Two samples weighted by a fraction. */
  function Mix(a: real, b: real, f: real): real {
    a * (1.0 - f) + b * f
  }

  /** Linear interpolation of an ordered sequence at a real position. */
  function At(ordered: seq<real>, position: real): real
    requires |ordered| > 0 && 0.0 <= position <= (|ordered| - 1) as real
  {
    var low := position.Floor;
    if position == low as real then ordered[low]
    else
      var fraction := position - low as real;
      Mix(ordered[low], ordered[low + 1], fraction)
  }

  /** `percentile`, refusing an empty sample or a probability outside `[0, 1]`. */
  function Percentile(values: seq<real>, probability: real): Option<real> {
    if |values| == 0 || !(0.0 <= probability <= 1.0) then None
    else Some(At(Sort(values), Position(probability, |values|)))
  }

  function Position(probability: real, n: nat): (r: real)
    requires 0.0 <= probability <= 1.0 && n > 0
    ensures 0.0 <= r <= (n - 1) as real
  {
    PositionInRange(probability, n);
    probability * (n - 1) as real
  }

  lemma PositionInRange(p: real, n: nat)
    requires 0.0 <= p <= 1.0 && n > 0
    ensures 0.0 <= p * (n - 1) as real <= (n - 1) as real
  {
  }

  lemma PositionMonotone(p: real, q: real, n: nat)
    requires 0.0 <= p <= q <= 1.0 && n > 0
    ensures Position(p, n) <= Position(q, n)
  {
    var d := Product(q - p, (n - 1) as real);
  }

  lemma PermutationInvariant(a: seq<real>, b: seq<real>, p: real)
    requires multiset(a) == multiset(b)
    ensures Percentile(a, p) == Percentile(b, p)
  {
    SortsAgree(a, b);
    assert |a| == |Sort(a)| == |Sort(b)| == |b|;
  }

  lemma {:induction false} SortsAgree(a: seq<real>, b: seq<real>)
    requires multiset(a) == multiset(b)
    ensures Sort(a) == Sort(b)
  {
    SortSorts(a);
    SortSorts(b);
    SortedUnique(Sort(a), Sort(b));
  }

  lemma Between(a: real, b: real, f: real)
    requires a <= b && 0.0 <= f <= 1.0
    ensures a <= Mix(a, b, f) <= b
  {
    var above := Product(b - a, f);
    var below := Product(b - a, 1.0 - f);
    assert a * (1.0 - f) + b * f == a + (b - a) * f == b - (b - a) * (1.0 - f);
  }

  lemma MixMonotone(a: real, b: real, f: real, g: real)
    requires a <= b && f <= g
    ensures Mix(a, b, f) <= Mix(a, b, g)
  {
  }

  /** The interpolated value lies between the two ordered neighbours of its position. */
  lemma AtBetween(s: seq<real>, position: real)
    requires |s| > 0 && Sorted(s) && 0.0 <= position <= (|s| - 1) as real
    ensures s[position.Floor] <= At(s, position)
    ensures position.Floor + 1 < |s| ==> At(s, position) <= s[position.Floor + 1]
    ensures position.Floor + 1 == |s| ==> At(s, position) == s[position.Floor]
  {
    var low := position.Floor;
    if position != low as real {
      Between(s[low], s[low + 1], position - low as real);
    }
  }

  lemma AtMonotone(s: seq<real>, x: real, y: real)
    requires |s| > 0 && Sorted(s) && 0.0 <= x <= y <= (|s| - 1) as real
    ensures At(s, x) <= At(s, y)
  {
    AtBetween(s, x);
    AtBetween(s, y);
    var i, j := x.Floor, y.Floor;
    if i < j {
      assert s[i + 1] <= s[j];
    } else if i + 1 < |s| {
      var a, b, f, g := s[i], s[i + 1], x - i as real, y - i as real;
      assert At(s, x) == Mix(a, b, f) && At(s, y) == Mix(a, b, g);
      MixMonotone(a, b, f, g);
    }
  }

  /** Every percentile lies between the smallest and the largest sample, and percentiles do not decrease with the
      probability. */
  lemma PercentileBoundedMonotone(values: seq<real>, p: real, q: real, lo: real, hi: real)
    requires |values| > 0 && 0.0 <= p <= q <= 1.0
    requires forall v :: v in values ==> lo <= v <= hi
    ensures Percentile(values, p).Some? && Percentile(values, q).Some?
    ensures lo <= Percentile(values, p).value <= Percentile(values, q).value <= hi
  {
    SortSorts(values);
    var x, y := Position(p, |values|), Position(q, |values|);
    PositionMonotone(p, q, |values|);
    AtMonotone(Sort(values), x, y);
    AtBounded(values, x, lo, hi);
    AtBounded(values, y, lo, hi);
  }

  lemma {:induction false} AtBounded(values: seq<real>, position: real, lo: real, hi: real)
    requires |values| > 0 && (forall v :: v in values ==> lo <= v <= hi) && 0.0 <= position <= (|values| - 1) as real
    ensures lo <= At(Sort(values), position) <= hi
  {
    SortSorts(values);
    var s := Sort(values);
    forall i | 0 <= i < |s|
      ensures lo <= s[i] <= hi
    {
      SortMember(values, i);
    }
    AtBetween(s, position);
  }

  // ---- Throughput ----

  /** The reflection of a non-integral position. */
  lemma FloorReflect(m: nat, position: real)
    requires 0.0 <= position <= m as real
    ensures (m as real - position).Floor
            == if position == position.Floor as real then m - position.Floor else m - position.Floor - 1
  {
  }

  /** `1/x` is convex: the interpolated reciprocal dominates the reciprocal of the interpolation, strictly unless the
      two points coincide. */
  lemma ReciprocalConvex(k: real, a: real, b: real, f: real)
    requires k > 0.0 && a > 0.0 && b > 0.0 && 0.0 < f < 1.0
    ensures a * (1.0 - f) + b * f > 0.0
    ensures (k / b) * f + (k / a) * (1.0 - f) >= k / (a * (1.0 - f) + b * f)
    ensures (k / b) * f + (k / a) * (1.0 - f) == k / (a * (1.0 - f) + b * f) <==> a == b
  {
    var d := SquaredGap(a, b);
    ReciprocalGap(k, a, b, f, 1.0 - f, d);
  }

  lemma SquaredGap(a: real, b: real) returns (d: real)
    ensures d == (a - b) * (a - b) && d >= 0.0 && (d == 0.0 <==> a == b)
  {
    if a == b {
      d := 0.0;
    } else {
      var x := if a > b then a - b else b - a;
      d := PositiveProduct(x, x);
    }
  }

  lemma ReciprocalGap(k: real, a: real, b: real, f: real, g: real, d: real)
    requires k > 0.0 && a > 0.0 && b > 0.0 && f > 0.0 && g > 0.0 && f + g == 1.0
    requires d >= 0.0 && d == (a - b) * (a - b)
    ensures a * g + b * f > 0.0
    ensures (k / b) * f + (k / a) * g >= k / (a * g + b * f)
    ensures (k / b) * f + (k / a) * g == k / (a * g + b * f) <==> d == 0.0
  {
    var ag := PositiveProduct(a, g);
    var bf := PositiveProduct(b, f);
    var ab := PositiveProduct(a, b);
    var fg := PositiveProduct(f, g);
    var left, m, n := (k / b) * f + (k / a) * g, a * g + b * f, a * f + b * g;
    Denominators(k, a, b, f, g);
    CrossProduct(a, b, f, g, d);
    CrossMultiply(left, m, k, ab, n, fg * d);
    ScaledZero(fg, d);
    Clear(left, m, k, ab, fg * d);
  }

  lemma CrossMultiply(left: real, m: real, k: real, ab: real, n: real, gap: real)
    requires left * ab == k * n && n * m == ab + gap
    ensures (left * m) * ab == k * ab + k * gap
  {
  }

  lemma ScaledZero(w: real, d: real)
    requires w > 0.0 && d >= 0.0
    ensures w * d >= 0.0 && (w * d == 0.0 <==> d == 0.0)
  {
  }

  lemma Denominators(k: real, a: real, b: real, f: real, g: real)
    requires a > 0.0 && b > 0.0
    ensures ((k / b) * f + (k / a) * g) * (a * b) == k * (a * f + b * g)
  {
  }

  lemma CrossProduct(a: real, b: real, f: real, g: real, d: real)
    requires f + g == 1.0 && d == (a - b) * (a - b)
    ensures (a * f + b * g) * (a * g + b * f) == a * b + (f * g) * d
  {
    var fg := f * g;
    assert f * f + g * g == 1.0 - 2.0 * fg;
    assert (a * f + b * g) * (a * g + b * f) == a * a * fg + a * b * (f * f) + a * b * (g * g) + b * b * fg;
    assert a * b * (f * f) + a * b * (g * g) == a * b * (f * f + g * g);
    assert fg * d == fg * (a * a) - 2.0 * (fg * (a * b)) + fg * (b * b);
  }

  lemma Clear(left: real, m: real, k: real, ab: real, e: real)
    requires m > 0.0 && k > 0.0 && ab > 0.0 && e >= 0.0
    requires (left * m) * ab == k * ab + k * e
    ensures left >= k / m
    ensures left == k / m <==> e == 0.0
  {
  }

  /** Tokens per second of a fully accepted round, `k` being the candidates times 1000 and the wall in milliseconds. */
  function Throughput(k: real): real -> real {
    wall => if wall == 0.0 then 0.0 else k / wall
  }

  /** Committed tokens per round needed to match the baseline at a wall time. */
  function RequiredCommits(baseline: real): real -> real {
    wall => baseline * wall / 1000.0
  }

  lemma ThroughputAntitone(k: real, walls: seq<real>)
    requires k > 0.0 && forall w :: w in walls ==> w > 0.0
    ensures forall x, y :: x in walls && y in walls && x <= y ==> Throughput(k)(y) <= Throughput(k)(x)
  {
  }

  lemma AtMix(s: seq<real>, x: real)
    requires |s| > 0 && 0.0 <= x <= (|s| - 1) as real
    ensures At(s, x)
            == if x == x.Floor as real then s[x.Floor] else Mix(s[x.Floor], s[x.Floor + 1], x - x.Floor as real)
  {
  }

  /** Interpolating the reversed samples at the reflected position. */
  lemma AtReverse(s: seq<real>, x: real)
    requires |s| > 0 && 0.0 <= x <= (|s| - 1) as real
    ensures At(Reverse(s), (|s| - 1) as real - x)
            == if x == x.Floor as real then s[x.Floor] else Mix(s[x.Floor + 1], s[x.Floor], 1.0 - (x - x.Floor as real))
  {
    FloorReflect(|s| - 1, x);
    AtMix(Reverse(s), (|s| - 1) as real - x);
  }

  lemma PositionReflect(p: real, q: real, n: nat)
    requires 0.0 <= p <= 1.0 && p + q == 1.0 && n > 0
    ensures Position(q, n) == (n - 1) as real - Position(p, n)
  {
  }

  /** An interpolation that lands on one sample, or between two equal ones. */
  predicate Flat(ordered: seq<real>, position: real)
    requires |ordered| > 0 && 0.0 <= position <= (|ordered| - 1) as real
  {
    position == position.Floor as real || ordered[position.Floor] == ordered[position.Floor + 1]
  }

  lemma MixThroughput(k: real, a: real, b: real, f: real)
    requires k > 0.0 && a > 0.0 && b > 0.0 && 0.0 < f < 1.0
    ensures Mix(a, b, f) > 0.0
    ensures Mix(Throughput(k)(b), Throughput(k)(a), 1.0 - f) >= k / Mix(a, b, f)
    ensures Mix(Throughput(k)(b), Throughput(k)(a), 1.0 - f) == k / Mix(a, b, f) <==> a == b
  {
    ReciprocalConvex(k, a, b, f);
  }

  lemma TailAt(k: real, w: seq<real>, x: real, y: real)
    requires k > 0.0 && |w| > 0 && (forall i :: 0 <= i < |w| ==> w[i] > 0.0)
    requires 0.0 <= x <= (|w| - 1) as real && y == (|w| - 1) as real - x
    ensures At(w, x) > 0.0 && At(Reverse(Map(Throughput(k), w)), y) >= k / At(w, x)
    ensures At(Reverse(Map(Throughput(k), w)), y) == k / At(w, x) <==> Flat(w, x)
  {
    AtReverse(Map(Throughput(k), w), x);
    AtMix(w, x);
    if x != x.Floor as real {
      MixThroughput(k, w[x.Floor], w[x.Floor + 1], x - x.Floor as real);
    }
  }

  /** With `p + q == 1`, the throughput percentile at `q` is never below the throughput at the wall percentile `p`; they
      are equal exactly when the wall interpolation is flat. */
  lemma {:induction false} TailThroughput(k: real, walls: seq<real>, p: real, q: real)
    requires k > 0.0 && |walls| > 0 && (forall w :: w in walls ==> w > 0.0) && 0.0 <= p <= 1.0 && p + q == 1.0
    ensures var wall, tps := Percentile(walls, p).value, Percentile(Map(Throughput(k), walls), q).value;
            && wall > 0.0 && tps >= k / wall
            && (tps == k / wall <==> Flat(Sort(walls), Position(p, |walls|)))
  {
    var x, y, w := Position(p, |walls|), Position(q, |walls|), Sort(walls);
    PositionReflect(p, q, |walls|);
    SortedThroughput(k, walls);
    PercentileAt(walls, p, x, w);
    PercentileAt(Map(Throughput(k), walls), q, y, Reverse(Map(Throughput(k), w)));
    TailAt(k, w, x, y);
  }

  lemma {:induction false} SortedThroughput(k: real, walls: seq<real>)
    requires k > 0.0 && forall w :: w in walls ==> w > 0.0
    ensures Sort(Map(Throughput(k), walls)) == Reverse(Map(Throughput(k), Sort(walls)))
    ensures forall i :: 0 <= i < |walls| ==> Sort(walls)[i] > 0.0
  {
    ThroughputAntitone(k, walls);
    SortDecreasing(Throughput(k), walls);
    forall i | 0 <= i < |walls|
      ensures Sort(walls)[i] > 0.0
    {
      SortMember(walls, i);
    }
  }

  lemma RequiredMonotone(baseline: real, walls: seq<real>)
    requires baseline > 0.0
    ensures forall x, y :: x in walls && y in walls && x <= y ==>
              RequiredCommits(baseline)(x) <= RequiredCommits(baseline)(y)
  {
  }

  lemma {:induction false} SortedRequired(baseline: real, walls: seq<real>)
    requires baseline > 0.0
    ensures Sort(Map(RequiredCommits(baseline), walls)) == Map(RequiredCommits(baseline), Sort(walls))
  {
    RequiredMonotone(baseline, walls);
    SortIncreasing(RequiredCommits(baseline), walls);
  }

  /** A linear rescaling of the samples rescales every percentile. */
  lemma ScaledPercentile(baseline: real, walls: seq<real>, p: real)
    requires baseline > 0.0 && |walls| > 0 && 0.0 <= p <= 1.0
    ensures Percentile(Map(RequiredCommits(baseline), walls), p).value
            == RequiredCommits(baseline)(Percentile(walls, p).value)
  {
    var x := Position(p, |walls|);
    PercentileAt(walls, p, x, Sort(walls));
    SortedRequired(baseline, walls);
    PercentileAt(Map(RequiredCommits(baseline), walls), p, x, Map(RequiredCommits(baseline), Sort(walls)));
    ScaledAt(baseline, Sort(walls), x);
  }

  lemma {:induction false} PercentileAt(values: seq<real>, p: real, x: real, ordered: seq<real>)
    requires |values| > 0 && 0.0 <= p <= 1.0 && x == Position(p, |values|) && ordered == Sort(values)
    ensures 0.0 <= x <= (|ordered| - 1) as real && Percentile(values, p) == Some(At(ordered, x))
  {
  }

  lemma ScaledAt(baseline: real, w: seq<real>, x: real)
    requires |w| > 0 && 0.0 <= x <= (|w| - 1) as real
    ensures At(Map(RequiredCommits(baseline), w), x) == RequiredCommits(baseline)(At(w, x))
  {
  }

  /** If the 95th-percentile wall admits any acceptance threshold at all, then full acceptance already reaches the
      baseline at the 5th throughput percentile. */
  lemma ThresholdImpliesFullAccept(baseline: real, candidates: nat, walls: seq<real>, a: real)
    requires baseline > 0.0 && candidates >= 1 && |walls| > 0 && forall w :: w in walls ==> w > 0.0
    requires Sufficient(a, Percentile(Map(RequiredCommits(baseline), walls), 0.95).value, candidates)
    ensures Percentile(Map(Throughput(candidates as real * 1000.0), walls), 0.05).value >= baseline
  {
    var wall := Percentile(walls, 0.95).value;
    var required := Percentile(Map(RequiredCommits(baseline), walls), 0.95).value;
    CommitsMonotone(a, 1.0, candidates);
    CommitsAtEnds(candidates);
    assert required <= candidates as real;
    ThresholdTail(baseline, candidates as real * 1000.0, walls, wall, required);
  }

  lemma ThresholdTail(baseline: real, k: real, walls: seq<real>, wall: real, required: real)
    requires baseline > 0.0 && k > 0.0 && |walls| > 0 && forall w :: w in walls ==> w > 0.0
    requires wall == Percentile(walls, 0.95).value && required <= k / 1000.0
    requires required == Percentile(Map(RequiredCommits(baseline), walls), 0.95).value
    ensures Percentile(Map(Throughput(k), walls), 0.05).value >= baseline
  {
    ScaledPercentile(baseline, walls, 0.95);
    TailThroughput(k, walls, 0.95, 0.05);
    BaselineWithin(baseline, wall, k);
  }

  lemma BaselineWithin(baseline: real, wall: real, k: real)
    requires wall > 0.0
    ensures RequiredCommits(baseline)(wall) <= k / 1000.0 <==> baseline <= k / wall
    ensures RequiredCommits(baseline)(wall) < k / 1000.0 <==> baseline < k / wall
  {
    var u := k / wall;
    assert u * wall == k;
    if baseline > u {
      var d := PositiveProduct(baseline - u, wall);
    } else if baseline < u {
      var d := PositiveProduct(u - baseline, wall);
    }
  }

  /** The reported flag of the 95th-percentile wall compares strictly. It is raised whenever the requirement there is
      below the candidate count, and only then if the wall interpolation is flat. */
  lemma {:induction false} FullAcceptFlag(baseline: real, candidates: real, k: real, walls: seq<real>, required: real,
                                          tps: real)
    requires baseline > 0.0 && candidates > 0.0 && k == candidates * 1000.0
    requires |walls| > 0 && forall w :: w in walls ==> w > 0.0
    requires Some(required) == Percentile(Map(RequiredCommits(baseline), walls), 0.95)
    requires Some(tps) == Percentile(Map(Throughput(k), walls), 0.05)
    ensures required < candidates ==> tps > baseline
    ensures Flat(Sort(walls), Position(0.95, |walls|)) ==> (tps > baseline <==> required < candidates)
  {
    ScaledPercentile(baseline, walls, 0.95);
    TailThroughput(k, walls, 0.95, 0.05);
    BaselineWithin(baseline, Percentile(walls, 0.95).value, k);
  }

  // ---- Which samples a percentile reads ----

  /** A percentile is refused exactly for an empty sample or a probability outside `[0, 1]`. */
  lemma PercentileRefused(values: seq<real>, p: real)
    ensures Percentile(values, p).None? <==> |values| == 0 || p < 0.0 || p > 1.0
  {
  }

  lemma PositionIs(p: real, n: nat, x: real)
    requires 0.0 <= p <= 1.0 && n > 0 && p * (n - 1) as real == x
    ensures Position(p, n) == x
  {
  }

  lemma AtRank(s: seq<real>, x: real, rank: nat, fraction: real)
    requires 0.0 <= fraction < 1.0 && rank < |s| && 0.0 <= x <= (|s| - 1) as real && x == rank as real + fraction
    ensures fraction == 0.0 ==> At(s, x) == s[rank]
    ensures fraction > 0.0 ==> rank + 1 < |s| && At(s, x) == Mix(s[rank], s[rank + 1], fraction)
  {
    assert x.Floor == rank;
    AtMix(s, x);
  }

  /** The interpolation moves from the first sample to the second by the fraction of their difference. */
  lemma MixLaw(a: real, b: real, f: real)
    ensures Mix(a, b, f) == a + f * (b - a)
  {
  }

  /** When `p (n - 1)` is a rank, the percentile is the sorted sample of that rank. */
  lemma {:induction false} PercentileAtRank(values: seq<real>, p: real, rank: nat)
    requires 0.0 <= p <= 1.0 && rank < |values| && p * (|values| - 1) as real == rank as real
    ensures Percentile(values, p) == Some(Sort(values)[rank])
  {
    PositionIs(p, |values|, rank as real);
    PercentileAt(values, p, rank as real, Sort(values));
    AtRank(Sort(values), rank as real, rank, 0.0);
  }

  /** When `p (n - 1)` is a rank and a fraction, the percentile mixes the samples of that rank and the next. */
  lemma {:induction false} PercentileBetween(values: seq<real>, p: real, rank: nat, fraction: real)
    requires 0.0 <= p <= 1.0 && 0.0 < fraction < 1.0 && rank + 1 < |values|
    requires p * (|values| - 1) as real == rank as real + fraction
    ensures Percentile(values, p) == Some(Mix(Sort(values)[rank], Sort(values)[rank + 1], fraction))
  {
    var x := rank as real + fraction;
    PositionIs(p, |values|, x);
    PercentileAt(values, p, x, Sort(values));
    AtRank(Sort(values), x, rank, fraction);
  }

  /** In a sorted sample, the percentile at `rank / (n - 1)` is the sample of that rank. */
  lemma PercentileOfSorted(values: seq<real>, p: real, rank: nat)
    requires |values| > 1 && Sorted(values) && rank < |values| && p == rank as real / (|values| - 1) as real
    ensures Percentile(values, p) == Some(values[rank])
  {
    RatioInUnit(rank as real, (|values| - 1) as real, p);
    SortOfSorted(values);
    PercentileAtRank(values, p, rank);
  }

  lemma {:induction false} SortOfSorted(values: seq<real>)
    requires Sorted(values)
    ensures Sort(values) == values
  {
    SortSorts(values);
    SortedUnique(Sort(values), values);
  }

  lemma RatioInUnit(r: real, n: real, p: real)
    requires 0.0 <= r <= n && n > 0.0 && p == r / n
    ensures 0.0 <= p <= 1.0 && p * n == r
  {
    assert p * n == r;
    if p < 0.0 {
      var d := PositiveProduct(-p, n);
    } else if p > 1.0 {
      var d := PositiveProduct(p - 1.0, n);
    }
  }
}
