/** Exact-arithmetic tensors: the linear-algebra vocabulary shared by the attention and shard models.
    A matrix is a sequence of rows; a headed tensor is a sequence of matrices. */
module Tensors {

  type Vec = seq<real>
  type Mat = seq<Vec>
  type Heads = seq<Mat>

  ghost predicate IsMat(m: Mat, rows: nat, cols: nat) {
    |m| == rows && forall i :: 0 <= i < rows ==> |m[i]| == cols
  }

  ghost predicate IsHeads(t: Heads, heads: nat, rows: nat, cols: nat) {
    |t| == heads && forall h :: 0 <= h < heads ==> IsMat(t[h], rows, cols)
  }

  /** Any length-preserving function of one row: softmax of a score row, RMS normalisation of a column, rounding
      included. */
  type RowFn = f: Vec -> Vec | LengthPreserving(f) ghost witness (v: Vec) => v

  ghost predicate LengthPreserving(f: Vec -> Vec) {
    forall v :: |f(v)| == |v|
  }

  function ApplyRow(f: RowFn, v: Vec): (r: Vec)
    ensures |r| == |v|
  {
    assert LengthPreserving(f);
    f(v)
  }

  function Dot(a: Vec, b: Vec): real
    requires |a| == |b|
  {
    if |a| == 0 then 0.0 else a[0] * b[0] + Dot(a[1..], b[1..])
  }

  function Sum(a: Vec): real {
    if |a| == 0 then 0.0 else a[0] + Sum(a[1..])
  }

  function VecAdd(a: Vec, b: Vec): (r: Vec)
    requires |a| == |b|
    ensures |r| == |a|
  {
    seq(|a|, i requires 0 <= i < |a| => a[i] + b[i])
  }

  function Zeros(n: nat): (r: Vec)
    ensures |r| == n
  {
    seq(n, i => 0.0)
  }

  function Column(m: Mat, d: nat): (r: Vec)
    requires forall i :: 0 <= i < |m| ==> d < |m[i]|
    ensures |r| == |m|
  {
    seq(|m|, i requires 0 <= i < |m| => m[i][d])
  }

  /** `a @ b`, where `b` has `cols` columns. */
  function MatMul(a: Mat, b: Mat, cols: nat): (r: Mat)
    requires IsMat(a, |a|, |b|) && IsMat(b, |b|, cols)
    ensures IsMat(r, |a|, cols)
  {
    seq(|a|, i requires 0 <= i < |a| =>
      seq(cols, j requires 0 <= j < cols => Dot(a[i], Column(b, j))))
  }

  /** `W @ x` for one column `x`: a 1x1 convolution at one batch position. */
  function MatVec(w: Mat, x: Vec): (r: Vec)
    requires IsMat(w, |w|, |x|)
    ensures |r| == |w|
  {
    seq(|w|, i requires 0 <= i < |w| => Dot(w[i], x))
  }

  function MatAdd(a: Mat, b: Mat, cols: nat): (r: Mat)
    requires IsMat(a, |a|, cols) && IsMat(b, |a|, cols)
    ensures IsMat(r, |a|, cols)
  {
    seq(|a|, i requires 0 <= i < |a| => VecAdd(a[i], b[i]))
  }

  /** `m[:, lo:hi]`. */
  function ColSlice(m: Mat, lo: nat, hi: nat, cols: nat): (r: Mat)
    requires lo <= hi <= cols && IsMat(m, |m|, cols)
    ensures IsMat(r, |m|, hi - lo)
  {
    seq(|m|, i requires 0 <= i < |m| => m[i][lo..hi])
  }

  /** Concatenation along the column axis. */
  function HCat(a: Mat, b: Mat): (r: Mat)
    requires |a| == |b|
    ensures |r| == |a|
  {
    seq(|a|, i requires 0 <= i < |a| => a[i] + b[i])
  }

  /** `t[:, lo:hi, :]`: the same rows of every head. */
  function RowSlice(t: Heads, lo: nat, hi: nat): (r: Heads)
    requires lo <= hi && forall h :: 0 <= h < |t| ==> hi <= |t[h]|
    ensures |r| == |t|
  {
    seq(|t|, h requires 0 <= h < |t| => t[h][lo..hi])
  }

  /** Concatenation of headed tensors along the row axis. */
  function RowCat(a: Heads, b: Heads): (r: Heads)
    requires |a| == |b|
    ensures |r| == |a|
  {
    seq(|a|, h requires 0 <= h < |a| => a[h] + b[h])
  }

  /** `torch.cat(parts, dim=heads)`. */
  function Flatten<T>(parts: seq<seq<T>>): seq<T> {
    if |parts| == 0 then [] else Flatten(parts[..|parts| - 1]) + parts[|parts| - 1]
  }

  lemma {:induction false} DotConcat(a: Vec, b: Vec, c: Vec, d: Vec)
    requires |a| == |b| && |c| == |d|
    ensures Dot(a + c, b + d) == Dot(a, b) + Dot(c, d)
  {
    if |a| == 0 {
      assert a + c == c && b + d == d;
    } else {
      assert (a + c)[1..] == a[1..] + c && (b + d)[1..] == b[1..] + d;
      DotConcat(a[1..], b[1..], c, d);
    }
  }

  /** Splitting a contraction at `k`. */
  lemma {:induction false} DotSplit(a: Vec, b: Vec, k: nat)
    requires |a| == |b| && k <= |a|
    ensures Dot(a, b) == Dot(a[..k], b[..k]) + Dot(a[k..], b[k..])
  {
    assert a == a[..k] + a[k..] && b == b[..k] + b[k..];
    DotConcat(a[..k], b[..k], a[k..], b[k..]);
  }

  lemma {:induction false} DotZeros(a: Vec, b: Vec)
    requires |a| == |b| && forall i :: 0 <= i < |a| ==> a[i] == 0.0
    ensures Dot(a, b) == 0.0
  {
    if |a| > 0 {
      DotZeros(a[1..], b[1..]);
    }
  }

  lemma {:induction false} SumZeros(a: Vec)
    requires forall i :: 0 <= i < |a| ==> a[i] == 0.0
    ensures Sum(a) == 0.0
  {
    if |a| > 0 {
      SumZeros(a[1..]);
    }
  }

  /** A contraction against a one-hot row selects one entry, and the row sums to one. */
  lemma {:induction false} DotOneHot(a: Vec, b: Vec, k: nat)
    requires |a| == |b| && k < |a| && a[k] == 1.0
    requires forall i :: 0 <= i < |a| && i != k ==> a[i] == 0.0
    ensures Dot(a, b) == b[k] && Sum(a) == 1.0
  {
    if k == 0 {
      DotZeros(a[1..], b[1..]);
      SumZeros(a[1..]);
    } else {
      DotOneHot(a[1..], b[1..], k - 1);
    }
  }

  /** `s * a + b`. */
  function Combine(s: real, a: Vec, b: Vec): (r: Vec)
    requires |a| == |b|
    ensures |r| == |a|
  {
    seq(|a|, i requires 0 <= i < |a| => s * a[i] + b[i])
  }

  lemma CombineTail(s: real, a: Vec, b: Vec)
    requires |a| == |b| > 0
    ensures Combine(s, a, b)[1..] == Combine(s, a[1..], b[1..])
  {
    forall i | 0 <= i < |a| - 1
      ensures Combine(s, a, b)[1..][i] == Combine(s, a[1..], b[1..])[i]
    {
      assert a[1..][i] == a[i + 1] && b[1..][i] == b[i + 1];
    }
  }

  /** The contraction is linear in its first factor; with `DotCommutes` and `DotOneHot` this determines it. */
  lemma {:induction false} DotLinear(s: real, a: Vec, b: Vec, c: Vec)
    requires |a| == |b| == |c|
    ensures Dot(Combine(s, a, b), c) == s * Dot(a, c) + Dot(b, c)
  {
    if |a| > 0 {
      var x, y := Dot(a[1..], c[1..]), Dot(b[1..], c[1..]);
      CombineTail(s, a, b);
      DotLinear(s, a[1..], b[1..], c[1..]);
      LinearStep(s, a[0], b[0], c[0], x, y, Combine(s, a, b)[0]);
    }
  }

  lemma LinearStep(s: real, a: real, b: real, c: real, x: real, y: real, z: real)
    requires z == s * a + b
    ensures z * c + (s * x + y) == s * (a * c + x) + (b * c + y)
  {
  }

  lemma {:induction false} DotCommutes(a: Vec, b: Vec)
    requires |a| == |b|
    ensures Dot(a, b) == Dot(b, a)
  {
    if |a| > 0 {
      DotCommutes(a[1..], b[1..]);
    }
  }

  lemma {:induction false} SumLinear(s: real, a: Vec, b: Vec)
    requires |a| == |b|
    ensures Sum(Combine(s, a, b)) == s * Sum(a) + Sum(b)
  {
    if |a| > 0 {
      CombineTail(s, a, b);
      SumLinear(s, a[1..], b[1..]);
      LinearStep(s, a[0], b[0], 1.0, Sum(a[1..]), Sum(b[1..]), Combine(s, a, b)[0]);
    }
  }

  lemma ColumnConcat(a: Mat, b: Mat, d: nat, cols: nat)
    requires d < cols && IsMat(a, |a|, cols) && IsMat(b, |b|, cols)
    ensures Column(a + b, d) == Column(a, d) + Column(b, d)
  {
  }

  lemma ColumnSlice(m: Mat, lo: nat, hi: nat, d: nat, cols: nat)
    requires lo <= hi <= |m| && d < cols && IsMat(m, |m|, cols)
    ensures Column(m[lo..hi], d) == Column(m, d)[lo..hi]
  {
  }

  lemma {:induction false} FlattenPrefix<T>(parts: seq<seq<T>>, k: nat)
    requires k <= |parts|
    ensures Flatten(parts[..k]) <= Flatten(parts)
  {
    if k == |parts| {
      assert parts[..k] == parts;
    } else {
      var n := |parts| - 1;
      FlattenPrefix(parts[..n], k);
      assert parts[..n][..k] == parts[..k];
    }
  }

  /** With `size` elements in each part, part `g` occupies positions `g*size` onwards. */
  lemma {:induction false} FlattenParts<T>(parts: seq<seq<T>>, size: nat, g: nat)
    requires forall i :: 0 <= i < |parts| ==> |parts[i]| == size
    requires g < |parts|
    ensures |Flatten(parts)| == |parts| * size
    ensures g * size + size <= |parts| * size
    ensures Flatten(parts)[g * size..g * size + size] == parts[g]
  {
    FlattenLength(parts, size);
    FlattenLength(parts[..g], size);
    FlattenPrefix(parts, g + 1);
    assert parts[..g + 1][..g] == parts[..g];
    var joined := Flatten(parts[..g]) + parts[g];
    assert joined == Flatten(parts[..g + 1]) && joined[|joined| - size..] == parts[g];
  }

  lemma {:induction false} FlattenLength<T>(parts: seq<seq<T>>, size: nat)
    requires forall i :: 0 <= i < |parts| ==> |parts[i]| == size
    ensures |Flatten(parts)| == |parts| * size
  {
    if |parts| > 0 {
      FlattenLength(parts[..|parts| - 1], size);
      assert (|parts| - 1) * size + size == |parts| * size;
    }
  }
}
