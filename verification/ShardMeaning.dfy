/** Running the shards of a plan computes the unsharded layers, in exact arithmetic on pre-quantised weights.
    Every program is a 1x1 convolution pipeline, so the model follows one batch column. */
module ShardMeaning {
  import opened Wrappers
  import opened Tensors
  import opened ShardPlan

  type Weights = Projection -> Mat

  ghost predicate WeightsFit(w: Weights, g: Geometry) {
    forall p :: IsMat(w(p), g(p).output, g(p).input)
  }

  // ---- One exported projection program ----

  /** The exported convolution: weights zero-padded to the channel floor, output sliced back. */
  function RunProjection(weight: Mat, x: Vec): (y: Vec)
    requires IsMat(weight, |weight|, |x|)
    ensures |y| == |weight|
  {
    var width := if |weight| < ANE_OUTPUT_CHANNEL_FLOOR then ANE_OUTPUT_CHANNEL_FLOOR else |weight|;
    var padded := weight + seq(width - |weight|, i => Zeros(|x|));
    MatVec(padded, x)[..|weight|]
  }

  lemma PaddingInvisible(weight: Mat, x: Vec)
    requires IsMat(weight, |weight|, |x|)
    ensures RunProjection(weight, x) == MatVec(weight, x)
  {
  }

  /** The physical outputs of a fragment leave no gap and end at its width. */
  ghost predicate Contiguous(cs: seq<Component>, width: nat) {
    if |cs| == 0 then width == 0
    else
      var last := cs[|cs| - 1];
      last.outputOffset + last.width == width && Contiguous(cs[..|cs| - 1], last.outputOffset)
  }

  /** The rows and columns a component takes from its source tensor. */
  function ComponentWeight(w: Weights, g: Geometry, f: Fragment, c: Component): (m: Mat)
    requires WeightsFit(w, g) && InBounds(g, f, c)
    ensures IsMat(m, c.width, f.inputWidth)
  {
    ColSlice(w(c.projection)[c.tensorOffset..c.tensorOffset + c.width], f.inputOffset, f.inputOffset + f.inputWidth,
             g(c.projection).input)
  }

  predicate InBounds(g: Geometry, f: Fragment, c: Component) {
    c.tensorOffset + c.width <= g(c.projection).output && f.inputOffset + f.inputWidth <= g(c.projection).input
  }

  /** The stacked weight of a fragment. */
  function StackedWeight(w: Weights, g: Geometry, f: Fragment, cs: seq<Component>): (m: Mat)
    requires WeightsFit(w, g) && forall i :: 0 <= i < |cs| ==> InBounds(g, f, cs[i])
    ensures IsMat(m, |m|, f.inputWidth)
  {
    if |cs| == 0 then []
    else StackedWeight(w, g, f, cs[..|cs| - 1]) + ComponentWeight(w, g, f, cs[|cs| - 1])
  }

  lemma {:induction false} StackedHeight(w: Weights, g: Geometry, f: Fragment, cs: seq<Component>, width: nat)
    requires WeightsFit(w, g) && (forall i :: 0 <= i < |cs| ==> InBounds(g, f, cs[i])) && Contiguous(cs, width)
    ensures |StackedWeight(w, g, f, cs)| == width
  {
    if |cs| > 0 {
      StackedHeight(w, g, f, cs[..|cs| - 1], cs[|cs| - 1].outputOffset);
    }
  }

  /** The weight-slicing loop: slices are stacked at an advancing physical cursor, and a plan with a gap is refused. */
  method FragmentWeight(w: Weights, g: Geometry, f: Fragment) returns (r: Result<Mat, string>)
    requires WeightsFit(w, g) && forall i :: 0 <= i < |f.components| ==> InBounds(g, f, f.components[i])
    ensures r.Ok? <==> Contiguous(f.components, f.outputWidth)
    ensures r.Ok? ==> r.value == StackedWeight(w, g, f, f.components) && |r.value| == f.outputWidth
  {
    var parts: Mat, cursor: nat := [], 0;
    for i := 0 to |f.components|
      invariant Contiguous(f.components[..i], cursor)
      invariant parts == StackedWeight(w, g, f, f.components[..i])
    {
      assert f.components[..i + 1][..i] == f.components[..i];
      var c := f.components[i];
      if c.outputOffset != cursor {
        ContiguousPrefix(f.components, f.outputWidth, i + 1);
        ContiguousUnique(f.components[..i], cursor, c.outputOffset);
        return Err("physical output gap");
      }
      parts := parts + ComponentWeight(w, g, f, c);
      cursor := cursor + c.width;
    }
    assert f.components[..|f.components|] == f.components;
    if cursor != f.outputWidth {
      ContiguousUnique(f.components, cursor, f.outputWidth);
      return Err("physical width mismatch");
    }
    StackedHeight(w, g, f, f.components, cursor);
    r := Ok(parts);
  }

  lemma {:induction false} ContiguousUnique(cs: seq<Component>, a: nat, b: nat)
    requires Contiguous(cs, a)
    ensures Contiguous(cs, b) <==> a == b
  {
  }

  lemma {:induction false} ContiguousPrefix(cs: seq<Component>, width: nat, k: nat)
    requires 0 < k <= |cs|
    ensures Contiguous(cs, width) ==> Contiguous(cs[..k - 1], cs[k - 1].outputOffset)
  {
    if k < |cs| && Contiguous(cs, width) {
      ContiguousPrefix(cs[..|cs| - 1], cs[|cs| - 1].outputOffset, k);
      assert cs[..|cs| - 1][..k - 1] == cs[..k - 1];
    } else if k == |cs| {
      assert cs[..k] == cs;
    }
  }

  // ---- The runtime scatter-add ----

  /** `outputs[projection_offset + column] += projected[output_offset + column]` */
  function ScatterAdd(acc: Vec, c: Component, y: Vec): (r: Vec)
    requires c.projectionOffset + c.width <= |acc| && c.outputOffset + c.width <= |y|
    ensures |r| == |acc|
  {
    seq(|acc|, j requires 0 <= j < |acc| =>
      acc[j] + if c.projectionOffset <= j < c.projectionOffset + c.width
               then y[c.outputOffset + (j - c.projectionOffset)] else 0.0)
  }

  ghost predicate Runnable(w: Weights, g: Geometry, f: Fragment, x: Vec) {
    && WeightsFit(w, g) && Contiguous(f.components, f.outputWidth)
    && f.inputOffset + f.inputWidth <= |x|
    && forall i :: 0 <= i < |f.components| ==>
         && InBounds(g, f, f.components[i])
         && f.components[i].projectionOffset + f.components[i].width <= g(f.components[i].projection).output
         && f.components[i].outputOffset + f.components[i].width <= f.outputWidth
  }

  /** What a fragment's program returns for its slice of the input column. */
  ghost function Projected(w: Weights, g: Geometry, f: Fragment, x: Vec): (y: Vec)
    requires Runnable(w, g, f, x)
    ensures |y| == f.outputWidth
  {
    StackedHeight(w, g, f, f.components, f.outputWidth);
    RunProjection(StackedWeight(w, g, f, f.components), x[f.inputOffset..f.inputOffset + f.inputWidth])
  }

  /** Scatter the components of one shard that belong to projection `p`. */
  ghost function ScatterComponents(g: Geometry, p: Projection, acc: Vec, cs: seq<Component>, y: Vec): (r: Vec)
    requires |acc| == g(p).output
    requires forall i :: 0 <= i < |cs| ==> cs[i].projectionOffset + cs[i].width <= g(cs[i].projection).output
                                           && cs[i].outputOffset + cs[i].width <= |y|
    ensures |r| == |acc|
  {
    if |cs| == 0 then acc
    else
      var rest := ScatterComponents(g, p, acc, cs[..|cs| - 1], y);
      if cs[|cs| - 1].projection == p then ScatterAdd(rest, cs[|cs| - 1], y) else rest
  }

  /** The runtime's result for projection `p` after running every shard of a group. */
  ghost function RunGroup(w: Weights, g: Geometry, p: Projection, shards: seq<Fragment>, x: Vec): (r: Vec)
    requires forall i :: 0 <= i < |shards| ==> Runnable(w, g, shards[i], x)
    ensures |r| == g(p).output
  {
    if |shards| == 0 then Zeros(g(p).output)
    else
      var last := shards[|shards| - 1];
      ScatterComponents(g, p, RunGroup(w, g, p, shards[..|shards| - 1], x), last.components, Projected(w, g, last, x))
  }

  // ---- One and three components ----

  lemma Peel1<T>(a: T)
    ensures [a][..|[a]| - 1] == []
  {
  }

  lemma Peel3<T>(a: T, b: T, c: T)
    ensures [a, b, c][..2] == [a, b] && [a, b][..1] == [a] && [a][..0] == []
  {
  }

  lemma ContiguousThree(a: Component, b: Component, c: Component)
    requires a.outputOffset == 0 && b.outputOffset == a.width && c.outputOffset == a.width + b.width
    ensures Contiguous([a, b, c], a.width + b.width + c.width) && Contiguous([a], a.width)
  {
    Peel3(a, b, c);
    assert Contiguous([a], a.width);
    assert Contiguous([a, b], a.width + b.width);
  }

  lemma {:induction false} StackedOne(w: Weights, g: Geometry, f: Fragment, a: Component)
    requires WeightsFit(w, g) && InBounds(g, f, a)
    ensures StackedWeight(w, g, f, [a]) == ComponentWeight(w, g, f, a)
  {
    Peel1(a);
    assert StackedWeight(w, g, f, []) == [];
  }

  lemma {:induction false} StackedThree(w: Weights, g: Geometry, f: Fragment, a: Component, b: Component, c: Component)
    requires WeightsFit(w, g) && InBounds(g, f, a) && InBounds(g, f, b) && InBounds(g, f, c)
    ensures StackedWeight(w, g, f, [a, b, c])
            == ComponentWeight(w, g, f, a) + ComponentWeight(w, g, f, b) + ComponentWeight(w, g, f, c)
  {
    Peel3(a, b, c);
    StackedOne(w, g, f, a);
    assert StackedWeight(w, g, f, [a, b]) == ComponentWeight(w, g, f, a) + ComponentWeight(w, g, f, b);
  }

  lemma {:induction false} ScatterOne(g: Geometry, acc: Vec, c: Component, y: Vec)
    requires |acc| == g(c.projection).output && c.projectionOffset + c.width <= |acc| && c.outputOffset + c.width <= |y|
    ensures ScatterComponents(g, c.projection, acc, [c], y) == ScatterAdd(acc, c, y)
  {
    Peel1(c);
    assert ScatterComponents(g, c.projection, acc, [], y) == acc;
  }

  lemma ScatterIntoZero(c: Component, y: Vec, n: nat)
    requires c.projectionOffset == 0 && c.width == n && c.outputOffset + n <= |y|
    ensures ScatterAdd(Zeros(n), c, y) == y[c.outputOffset..c.outputOffset + n]
  {
  }

  /** Among components of three different projections, only the matching one is scattered. */
  lemma {:induction false} ScatterThree(g: Geometry, p: Projection, acc: Vec, cs: seq<Component>, y: Vec, i: nat)
    requires |cs| == 3 && i < 3 && |acc| == g(p).output
    requires forall k :: 0 <= k < 3 ==> cs[k].projectionOffset + cs[k].width <= g(cs[k].projection).output
                                        && cs[k].outputOffset + cs[k].width <= |y|
    requires forall k :: 0 <= k < 3 ==> (cs[k].projection == p <==> k == i)
    ensures ScatterComponents(g, p, acc, cs, y) == ScatterAdd(acc, cs[i], y)
  {
    assert ScatterComponents(g, p, acc, [], y) == acc;
    assert cs[..1][..0] == [] && cs[..2][..1] == cs[..1];
    var one := ScatterComponents(g, p, acc, cs[..1], y);
    assert one == if i == 0 then ScatterAdd(acc, cs[0], y) else acc;
    var two := ScatterComponents(g, p, acc, cs[..2], y);
    assert two == if i <= 1 then ScatterAdd(acc, cs[i], y) else acc;
  }

  // ---- FC: input slices add up ----

  lemma FcOneRunnable(w: Weights, g: Geometry, f: Fragment, x: Vec)
    requires WeightsFit(w, g) && |x| == g(Fc).input && f.inputOffset + f.inputWidth <= |x|
    requires f.components == [Component(Fc, 0, 0, 0, g(Fc).output)] && f.outputWidth == g(Fc).output
    ensures Runnable(w, g, f, x)
  {
    Peel1(f.components[0]);
  }

  lemma {:induction false} FcRunnable(w: Weights, g: Geometry, shards: seq<Fragment>, end: nat, x: Vec)
    requires WeightsFit(w, g) && FcSlices(shards, g(Fc), end) && |x| == g(Fc).input
    ensures forall i :: 0 <= i < |shards| ==> Runnable(w, g, shards[i], x)
  {
    if |shards| > 0 {
      var last, front := shards[|shards| - 1], shards[..|shards| - 1];
      FcRunnable(w, g, front, last.inputOffset, x);
      FcOneRunnable(w, g, last, x);
      assert forall i :: 0 <= i < |front| ==> Runnable(w, g, front[i], x);
    }
  }

  lemma FcShardProduct(w: Weights, g: Geometry, f: Fragment, x: Vec, r: nat)
    requires Runnable(w, g, f, x) && f.components == [Component(Fc, 0, 0, 0, g(Fc).output)] && |x| == g(Fc).input
    requires r < g(Fc).output && f.outputWidth == g(Fc).output
    ensures Projected(w, g, f, x)[r]
            == Dot(w(Fc)[r][f.inputOffset..f.inputOffset + f.inputWidth],
                   x[f.inputOffset..f.inputOffset + f.inputWidth])
  {
    StackedOne(w, g, f, f.components[0]);
    PaddingInvisible(ComponentWeight(w, g, f, f.components[0]), x[f.inputOffset..f.inputOffset + f.inputWidth]);
  }

  lemma PrefixDot(a: Vec, b: Vec, lo: nat, hi: nat)
    requires |a| == |b| && lo <= hi <= |a|
    ensures Dot(a[..hi], b[..hi]) == Dot(a[..lo], b[..lo]) + Dot(a[lo..hi], b[lo..hi])
  {
    assert a[..hi][..lo] == a[..lo] && a[..hi][lo..] == a[lo..hi];
    assert b[..hi][..lo] == b[..lo] && b[..hi][lo..] == b[lo..hi];
    DotSplit(a[..hi], b[..hi], lo);
  }

  /** Running one more FC slice adds its part of the contraction. */
  lemma {:induction false} FcStep(w: Weights, g: Geometry, before: Vec, f: Fragment, x: Vec, r: nat)
    requires Runnable(w, g, f, x) && f.components == [Component(Fc, 0, 0, 0, g(Fc).output)] && |x| == g(Fc).input
    requires r < |before| == f.outputWidth == g(Fc).output
    ensures ScatterComponents(g, Fc, before, f.components, Projected(w, g, f, x))[r]
            == before[r] + Dot(w(Fc)[r][f.inputOffset..f.inputOffset + f.inputWidth],
                               x[f.inputOffset..f.inputOffset + f.inputWidth])
  {
    FcShardProduct(w, g, f, x, r);
    ScatterOne(g, before, f.components[0], Projected(w, g, f, x));
  }

  lemma {:induction false} FcExtend(w: Weights, g: Geometry, shards: seq<Fragment>, x: Vec, r: nat, before: Vec)
    requires |shards| > 0 && forall i :: 0 <= i < |shards| ==> Runnable(w, g, shards[i], x)
    requires before == RunGroup(w, g, Fc, shards[..|shards| - 1], x) && |x| == g(Fc).input && r < g(Fc).output
    requires var f := shards[|shards| - 1];
             f.components == [Component(Fc, 0, 0, 0, g(Fc).output)] && f.outputWidth == g(Fc).output
    ensures var f := shards[|shards| - 1];
            var lo, hi := f.inputOffset, f.inputOffset + f.inputWidth;
            RunGroup(w, g, Fc, shards, x)[r] == before[r] + Dot(w(Fc)[r][lo..hi], x[lo..hi])
  {
    FcStep(w, g, before, shards[|shards| - 1], x, r);
  }

  lemma {:induction false} FcPrefixSum(w: Weights, g: Geometry, shards: seq<Fragment>, end: nat, x: Vec, r: nat)
    requires WeightsFit(w, g) && FcSlices(shards, g(Fc), end) && |x| == g(Fc).input && end <= |x|
    requires forall i :: 0 <= i < |shards| ==> Runnable(w, g, shards[i], x)
    requires r < g(Fc).output
    ensures RunGroup(w, g, Fc, shards, x)[r] == Dot(w(Fc)[r][..end], x[..end])
  {
    if |shards| > 0 {
      var last, front := shards[|shards| - 1], shards[..|shards| - 1];
      FcPrefixSum(w, g, front, last.inputOffset, x, r);
      FcExtend(w, g, shards, x, r, RunGroup(w, g, Fc, front, x));
      PrefixDot(w(Fc)[r], x, last.inputOffset, end);
    }
  }

  /** Any exact slicing of the FC input recovers the whole FC projection. */
  lemma {:induction false} FcRecovered(w: Weights, g: Geometry, shards: seq<Fragment>, x: Vec)
    requires WeightsFit(w, g) && FcSlices(shards, g(Fc), g(Fc).input) && |x| == g(Fc).input
    ensures forall i :: 0 <= i < |shards| ==> Runnable(w, g, shards[i], x)
    ensures RunGroup(w, g, Fc, shards, x) == MatVec(w(Fc), x)
  {
    FcRunnable(w, g, shards, g(Fc).input, x);
    forall r | 0 <= r < g(Fc).output
      ensures RunGroup(w, g, Fc, shards, x)[r] == MatVec(w(Fc), x)[r]
    {
      FcPrefixSum(w, g, shards, |x|, x, r);
      assert w(Fc)[r][..|x|] == w(Fc)[r] && x[..|x|] == x;
    }
  }

  // ---- Q/K/V: stacked rows come apart again ----

  lemma QkvRunnable(w: Weights, g: Geometry, f: Fragment, l: nat, x: Vec)
    requires WeightsFit(w, g) && QkvFragment(f, g, l) && |x| == g(Q(l)).input
    ensures Runnable(w, g, f, x)
  {
    ContiguousThree(f.components[0], f.components[1], f.components[2]);
  }

  lemma WholeTensor(w: Weights, g: Geometry, f: Fragment, c: Component)
    requires WeightsFit(w, g) && f.inputOffset == 0 && f.inputWidth == g(c.projection).input
    requires c.tensorOffset == 0 && c.width == g(c.projection).output
    ensures InBounds(g, f, c) && ComponentWeight(w, g, f, c) == w(c.projection)
  {
    var source := w(c.projection);
    assert source[0..|source|] == source;
    assert forall r :: 0 <= r < |source| ==> source[r][0..f.inputWidth] == source[r];
  }

  lemma QkvProduct(w: Weights, g: Geometry, f: Fragment, l: nat, x: Vec)
    requires WeightsFit(w, g) && QkvFragment(f, g, l) && |x| == g(Q(l)).input && Runnable(w, g, f, x)
    ensures Projected(w, g, f, x) == MatVec(w(Q(l)), x) + MatVec(w(K(l)), x) + MatVec(w(V(l)), x)
  {
    var a, b, c := f.components[0], f.components[1], f.components[2];
    WholeTensor(w, g, f, a);
    WholeTensor(w, g, f, b);
    WholeTensor(w, g, f, c);
    StackedThree(w, g, f, a, b, c);
    assert x[0..|x|] == x;
    StackedProduct(w(Q(l)), w(K(l)), w(V(l)), x);
  }

  lemma StackedProduct(a: Mat, b: Mat, c: Mat, x: Vec)
    requires IsMat(a, |a|, |x|) && IsMat(b, |b|, |x|) && IsMat(c, |c|, |x|)
    ensures RunProjection(a + b + c, x) == MatVec(a, x) + MatVec(b, x) + MatVec(c, x)
  {
    PaddingInvisible(a + b + c, x);
  }

  lemma {:induction false} QkvScatter(w: Weights, g: Geometry, f: Fragment, l: nat, x: Vec, p: Projection, i: nat)
    requires WeightsFit(w, g) && QkvFragment(f, g, l) && |x| == g(Q(l)).input && Runnable(w, g, f, x)
    requires i < 3 && p == [Q(l), K(l), V(l)][i]
    ensures RunGroup(w, g, p, [f], x) == MatVec(w(p), x)
  {
    var c, y, zero := f.components[i], Projected(w, g, f, x), Zeros(g(p).output);
    Peel1(f);
    assert RunGroup(w, g, p, [], x) == zero;
    ScatterThree(g, p, zero, f.components, y, i);
    assert RunGroup(w, g, p, [f], x) == ScatterAdd(zero, c, y);
    QkvProduct(w, g, f, l, x);
    ScatterIntoZero(c, y, g(p).output);
    assert y[c.outputOffset..c.outputOffset + c.width] == MatVec(w(p), x);
  }

  /** The fused fragment of a layer recovers all three of its projections. */
  lemma {:induction false} QkvRecovered(w: Weights, g: Geometry, f: Fragment, l: nat, x: Vec)
    requires WeightsFit(w, g) && QkvFragment(f, g, l) && |x| == g(Q(l)).input
    ensures Runnable(w, g, f, x)
    ensures RunGroup(w, g, Q(l), [f], x) == MatVec(w(Q(l)), x)
    ensures RunGroup(w, g, K(l), [f], x) == MatVec(w(K(l)), x)
    ensures RunGroup(w, g, V(l), [f], x) == MatVec(w(V(l)), x)
  {
    QkvRunnable(w, g, f, l, x);
    QkvScatter(w, g, f, l, x, Q(l), 0);
    QkvScatter(w, g, f, l, x, K(l), 1);
    QkvScatter(w, g, f, l, x, V(l), 2);
  }
}
