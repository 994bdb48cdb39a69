/** The whole path from a drafter's configuration to its numbers: plan the shards, cut their weights, run every program
    and put the logical outputs together again. */
module ShardRun {
  import opened Wrappers
  import opened Tensors
  import opened ShardPlan
  import opened ShardMeaning
  import opened TailMeaning

  // ---- The runtime loops ----

  /** The scatter loop over the components of one shard's output. */
  method Scatter(g: Geometry, p: Projection, acc: Vec, cs: seq<Component>, y: Vec) returns (r: Vec)
    requires |acc| == g(p).output
    requires forall i :: 0 <= i < |cs| ==> cs[i].projectionOffset + cs[i].width <= g(cs[i].projection).output
                                           && cs[i].outputOffset + cs[i].width <= |y|
    ensures r == ScatterComponents(g, p, acc, cs, y)
  {
    r := acc;
    for i := 0 to |cs|
      invariant r == ScatterComponents(g, p, acc, cs[..i], y)
    {
      assert cs[..i + 1][..i] == cs[..i];
      if cs[i].projection == p {
        r := ScatterAdd(r, cs[i], y);
      }
    }
    assert cs[..|cs|] == cs;
  }

  /** Every shard of a group: cut its weight, run its program on its slice of the input, scatter its output. */
  method RunShards(w: Weights, g: Geometry, p: Projection, shards: seq<Fragment>, x: Vec) returns (r: Vec)
    requires forall i :: 0 <= i < |shards| ==> Runnable(w, g, shards[i], x)
    ensures r == RunGroup(w, g, p, shards, x)
  {
    r := Zeros(g(p).output);
    for i := 0 to |shards|
      invariant r == RunGroup(w, g, p, shards[..i], x)
    {
      assert shards[..i + 1][..i] == shards[..i];
      var y := RunShard(w, g, shards[i], x);
      r := Scatter(g, p, r, shards[i].components, y);
    }
    assert shards[..|shards|] == shards;
  }

  method RunShard(w: Weights, g: Geometry, f: Fragment, x: Vec) returns (y: Vec)
    requires Runnable(w, g, f, x)
    ensures y == Projected(w, g, f, x)
  {
    var weight := FragmentWeight(w, g, f);
    y := RunProjection(weight.value, x[f.inputOffset..f.inputOffset + f.inputWidth]);
  }

  ghost predicate TailRunnable(w: TailWeights, shards: seq<TailFragment>, input: Vec, attention: nat, hidden: nat) {
    && |shards| > 0 && |input| == attention + hidden && w.Fits(hidden, attention, |w.gate|)
    && forall i :: 0 <= i < |shards| ==> shards[i].offset + shards[i].width <= |w.gate|
  }

  /** The head program, then every continuation added to its base. */
  method RunTailShards(norm: RowFn, silu: real -> real, w: TailWeights, shards: seq<TailFragment>, input: Vec,
                       attention: nat, hidden: nat) returns (r: Vec)
    requires TailRunnable(w, shards, input, attention, hidden)
    ensures r == RunTail(norm, silu, w, shards, input, attention, hidden)
  {
    var head := HeadProgram(norm, silu, w, shards[0].width, input, attention, hidden);
    r := head[..hidden];
    TailShardFirst(norm, silu, w, shards, input, attention, hidden);
    for i := 1 to |shards|
      invariant TailRunnable(w, shards[..i], input, attention, hidden)
      invariant r == RunTail(norm, silu, w, shards[..i], input, attention, hidden)
    {
      TailShardStep(norm, silu, w, shards, input, attention, hidden, i);
      r := VecAdd(r, FfnSlice(silu, w, shards[i].offset, shards[i].offset + shards[i].width, head[hidden..]));
    }
    assert shards[..|shards|] == shards;
  }

  lemma {:induction false} TailShardFirst(norm: RowFn, silu: real -> real, w: TailWeights, shards: seq<TailFragment>,
                                          input: Vec, attention: nat, hidden: nat)
    requires TailRunnable(w, shards, input, attention, hidden)
    ensures TailRunnable(w, shards[..1], input, attention, hidden)
    ensures RunTail(norm, silu, w, shards[..1], input, attention, hidden)
            == HeadProgram(norm, silu, w, shards[0].width, input, attention, hidden)[..hidden]
  {
  }

  lemma {:induction false} TailShardStep(norm: RowFn, silu: real -> real, w: TailWeights, shards: seq<TailFragment>,
                                         input: Vec, attention: nat, hidden: nat, i: nat)
    requires 0 < i < |shards| && TailRunnable(w, shards, input, attention, hidden)
    requires TailRunnable(w, shards[..i], input, attention, hidden)
    ensures TailRunnable(w, shards[..i + 1], input, attention, hidden)
    ensures RunTail(norm, silu, w, shards[..i + 1], input, attention, hidden)
            == VecAdd(RunTail(norm, silu, w, shards[..i], input, attention, hidden),
                      FfnSlice(silu, w, shards[i].offset, shards[i].offset + shards[i].width,
                               HeadProgram(norm, silu, w, shards[0].width, input, attention, hidden)[hidden..]))
  {
    assert shards[..i + 1][..i] == shards[..i] && shards[..i + 1][i] == shards[i] && shards[..i + 1][0] == shards[0];
  }

  // ---- From the configuration to the projections ----

  ghost predicate Dimensioned(c: ModelConfig, g: Geometry) {
    forall p :: g(p) == ProjectionDims(c, p)
  }

  /** Weights and inputs of the configured sizes. */
  ghost predicate ConfigFits(c: ModelConfig, w: Weights, captured: Vec, hidden: seq<Vec>) {
    && (forall p :: IsMat(w(p), ProjectionDims(c, p).output, ProjectionDims(c, p).input))
    && |captured| == c.sampled * c.hidden
    && |hidden| == c.layers && forall l :: 0 <= l < |hidden| ==> |hidden[l]| == c.hidden
  }

  datatype LayerProjections = LayerProjections(q: Vec, k: Vec, v: Vec)

  ghost predicate LayerFits(w: Weights, l: nat, x: Vec) {
    && IsMat(w(Q(l)), |w(Q(l))|, |x|) && IsMat(w(K(l)), |w(K(l))|, |x|) && IsMat(w(V(l)), |w(V(l))|, |x|)
  }

  /** The three projections of a layer without shards. */
  ghost function LayerReference(w: Weights, l: nat, x: Vec): LayerProjections
    requires LayerFits(w, l, x)
  {
    LayerProjections(MatVec(w(Q(l)), x), MatVec(w(K(l)), x), MatVec(w(V(l)), x))
  }

  /** The runtime refuses a shard with an empty input, an empty output or an empty component. */
  predicate Loadable(f: Fragment) {
    f.inputWidth > 0 && f.outputWidth > 0 && forall i :: 0 <= i < |f.components| ==> f.components[i].width > 0
  }

  /** A projection without shards cannot be served at all. */
  predicate AllLoadable(shards: seq<Fragment>) {
    |shards| > 0 && forall i :: 0 <= i < |shards| ==> Loadable(shards[i])
  }

  /** The configurations whose projections can be planned and served. */
  predicate Servable(c: ModelConfig) {
    && c.layers == 5 && 0 < c.hidden <= 6656 && c.sampled > 0
    && c.heads > 0 && c.kvHeads > 0 && c.headDim > 0
  }

  lemma PositiveArea(a: nat, b: nat)
    ensures a * b > 0 <==> a > 0 && b > 0
  {
  }

  lemma {:induction false} FcSliceShape(fragments: seq<Fragment>, d: Dims, end: nat, i: nat)
    requires FcSlices(fragments, d, end) && i < |fragments|
    ensures fragments[i].outputWidth == d.output && fragments[i].components == [Component(Fc, 0, 0, 0, d.output)]
    ensures fragments[i].inputOffset + fragments[i].inputWidth <= end
  {
    var n := |fragments| - 1;
    if i < n {
      FcSliceShape(fragments[..n], d, fragments[n].inputOffset, i);
    }
  }

  /** The planned FC slices are loadable exactly when neither side of the projection is empty. */
  lemma {:induction false} FcLoadable(fragments: seq<Fragment>, d: Dims)
    requires FcSlices(fragments, d, d.input)
    requires d.input > 0 ==> NonEmpty(fragments)
    ensures AllLoadable(fragments) <==> d.input > 0 && d.output > 0
  {
    forall i | 0 <= i < |fragments|
      ensures Loadable(fragments[i]) <==> d.input > 0 && d.output > 0
    {
      FcSliceShape(fragments, d, d.input, i);
    }
  }

  predicate QkvSized(g: Geometry, l: nat) {
    g(Q(l)).input > 0 && g(Q(l)).output > 0 && g(K(l)).output > 0 && g(V(l)).output > 0
  }

  lemma QkvLoadable(f: Fragment, g: Geometry, l: nat)
    requires QkvFragment(f, g, l)
    ensures Loadable(f) <==> QkvSized(g, l)
  {
    assert f.components[0].width == g(Q(l)).output && f.components[1].width == g(K(l)).output;
    assert f.components[2].width == g(V(l)).output;
  }

  lemma LayersLoadable(qkv: seq<Fragment>, g: Geometry)
    requires forall l :: 0 <= l < |qkv| ==> QkvFragment(qkv[l], g, l)
    ensures AllLoadable(qkv) <==> |qkv| > 0 && forall l :: 0 <= l < |qkv| ==> QkvSized(g, l)
  {
    forall l | 0 <= l < |qkv|
      ensures Loadable(qkv[l]) <==> QkvSized(g, l)
    {
      QkvLoadable(qkv[l], g, l);
    }
  }

  /** For the geometry of a configuration, the runtime's size checks come down to positive sizes. */
  lemma SizedIffPositive(c: ModelConfig, g: Geometry, l: nat)
    requires Dimensioned(c, g)
    ensures g(Fc).input > 0 && g(Fc).output > 0 && QkvSized(g, l) <==>
              c.hidden > 0 && c.sampled > 0 && c.heads > 0 && c.kvHeads > 0 && c.headDim > 0
  {
    assert g(Fc) == Dims(c.sampled * c.hidden, c.hidden) && g(Q(l)) == Dims(c.hidden, c.heads * c.headDim);
    assert g(K(l)) == g(V(l)) == Dims(c.hidden, c.kvHeads * c.headDim);
    PositiveArea(c.sampled, c.hidden);
    PositiveArea(c.heads, c.headDim);
    PositiveArea(c.kvHeads, c.headDim);
  }

  /** A plan of a configuration is loadable exactly when all sizes are positive. */
  lemma {:induction false} PlanLoadable(c: ModelConfig, g: Geometry, fc: seq<Fragment>, qkv: seq<Fragment>)
    requires Dimensioned(c, g) && |qkv| > 0 && FcSlices(fc, g(Fc), g(Fc).input)
    requires g(Fc).input > 0 ==> NonEmpty(fc)
    requires forall l :: 0 <= l < |qkv| ==> QkvFragment(qkv[l], g, l)
    ensures AllLoadable(fc) && AllLoadable(qkv) <==>
              c.hidden > 0 && c.sampled > 0 && c.heads > 0 && c.kvHeads > 0 && c.headDim > 0
  {
    FcLoadable(fc, g(Fc));
    LayersLoadable(qkv, g);
    forall l: nat
      ensures g(Fc).input > 0 && g(Fc).output > 0 && QkvSized(g, l) <==>
                c.hidden > 0 && c.sampled > 0 && c.heads > 0 && c.kvHeads > 0 && c.headDim > 0
    {
      SizedIffPositive(c, g, l);
    }
    SizedIffPositive(c, g, 0);
  }

  /** Planning, exporting and running the projections of a configuration gives `W x` for FC and for the Q, K and V of
      every layer. A configuration is refused exactly when it has not five layers, its hidden width exceeds the channel
      limit, or one of its sizes is zero. */
  method Project(c: ModelConfig, w: Weights, block: nat, splitCapture: bool, captured: Vec, hidden: seq<Vec>)
    returns (r: Result<(Vec, seq<LayerProjections>), string>)
    requires ConfigFits(c, w, captured, hidden)
    ensures r.Ok? <==> Servable(c)
    ensures r.Ok? ==> r.value.0 == MatVec(w(Fc), captured) && |r.value.1| == |hidden|
    ensures r.Ok? ==> forall l :: 0 <= l < |hidden| ==>
              LayerFits(w, l, hidden[l]) && r.value.1[l] == LayerReference(w, l, hidden[l])
  {
    var geometry := ProjectionGeometry(c);
    if geometry.Err? {
      return Err(geometry.error);
    }
    var g := geometry.value;
    assert Dimensioned(c, g) && WeightsFit(w, g);
    var plan := PlanProjections(c, g, block, splitCapture);
    if plan.Err? {
      return Err(plan.error);
    }
    FcRecovered(w, g, plan.value.0, captured);
    var fc := RunShards(w, g, Fc, plan.value.0, captured);
    var layers := RunLayers(w, g, plan.value.1, hidden);
    r := Ok((fc, layers));
  }

  /** The plan of a configuration, refused by the planner or by the runtime's size checks. */
  method PlanProjections(c: ModelConfig, g: Geometry, block: nat, splitCapture: bool)
    returns (plan: Result<(seq<Fragment>, seq<Fragment>), string>)
    requires Dimensioned(c, g) && c.layers == 5
    ensures plan.Ok? <==> Servable(c)
    ensures plan.Ok? ==> FcSlices(plan.value.0, g(Fc), g(Fc).input) && |plan.value.1| == c.layers
    ensures plan.Ok? ==> forall l :: 0 <= l < c.layers ==> QkvFragment(plan.value.1[l], g, l)
  {
    plan := FusedFragments(g, c.layers, block, splitCapture);
    assert g(Q(0)).input == c.hidden && forall l :: 0 <= l < c.layers ==> g(Q(l)).input == c.hidden;
    if plan.Ok? {
      PlanLoadable(c, g, plan.value.0, plan.value.1);
      if !AllLoadable(plan.value.0) || !AllLoadable(plan.value.1) {
        plan := Err("invalid ANE shard contract");
      }
    }
  }

  method RunLayers(w: Weights, g: Geometry, qkv: seq<Fragment>, hidden: seq<Vec>)
    returns (layers: seq<LayerProjections>)
    requires WeightsFit(w, g) && |qkv| == |hidden|
    requires forall l :: 0 <= l < |qkv| ==> QkvFragment(qkv[l], g, l) && |hidden[l]| == g(Q(l)).input
    ensures |layers| == |hidden|
    ensures forall l :: 0 <= l < |hidden| ==>
              LayerFits(w, l, hidden[l]) && layers[l] == LayerReference(w, l, hidden[l])
  {
    layers := [];
    for l := 0 to |qkv|
      invariant |layers| == l
      invariant forall i :: 0 <= i < l ==>
                  LayerFits(w, i, hidden[i]) && layers[i] == LayerReference(w, i, hidden[i])
    {
      QkvRecovered(w, g, qkv[l], l, hidden[l]);
      var q := RunShards(w, g, Q(l), [qkv[l]], hidden[l]);
      var k := RunShards(w, g, K(l), [qkv[l]], hidden[l]);
      var v := RunShards(w, g, V(l), [qkv[l]], hidden[l]);
      layers := layers + [LayerProjections(q, k, v)];
    }
  }

  // ---- From the configuration to the layer tails ----

  ghost predicate TailConfigFits(c: ModelConfig, w: Weights, inputs: seq<Vec>) {
    && (forall p :: IsMat(w(p), ProjectionDims(c, p).output, ProjectionDims(c, p).input))
    && |inputs| == c.layers
    && forall l :: 0 <= l < |inputs| ==> |inputs[l]| == c.heads * c.headDim + c.hidden
  }

  function TailWeightsOf(w: Weights, l: nat): TailWeights {
    TailWeights(w(O(l)), w(Gate(l)), w(Up(l)), w(Down(l)))
  }

  /** The INT8 bytes of the two tail shards of any layer of a configuration. */
  predicate TailWithinLimit(c: ModelConfig) {
    var head := if 9216 < c.intermediate then 9216 else c.intermediate;
    && 3 * head * c.hidden + c.heads * c.headDim * c.hidden <= 262144000
    && 3 * (c.intermediate - head) * c.hidden <= 262144000
  }

  lemma AcceptedIffWithinLimit(c: ModelConfig, g: Geometry, l: nat)
    requires Dimensioned(c, g)
    ensures TailAccepted(g, l) <==> TailWithinLimit(c)
  {
  }

  /** Layer `l` of a run produced the tail computed without shards. */
  ghost predicate IsTail(c: ModelConfig, w: Weights, norm: RowFn, silu: real -> real, l: nat, input: Vec, tail: Vec) {
    var t, attention := TailWeights(w(O(l)), w(Gate(l)), w(Up(l)), w(Down(l))), c.heads * c.headDim;
    && t.Fits(c.hidden, attention, |t.gate|) && |input| == attention + c.hidden
    && tail == TailReference(norm, silu, t, input, attention, c.hidden)
  }

  /** Planning, exporting and running the layer tails of a configuration gives the unsharded tail of every layer. A
      configuration is refused exactly when it has not five layers, one of its two shards exceeds the byte limit, or
      the attention, the hidden or the intermediate width is zero. */
  method RunTails(c: ModelConfig, w: Weights, norm: nat -> RowFn, silu: real -> real, inputs: seq<Vec>)
    returns (r: Result<seq<Vec>, string>)
    requires TailConfigFits(c, w, inputs)
    ensures r.Ok? <==>
              && c.layers == 5 && TailWithinLimit(c)
              && c.hidden > 0 && c.heads > 0 && c.headDim > 0 && c.intermediate > 0
    ensures r.Ok? ==> |r.value| == |inputs| && AreTails(c, w, norm, silu, inputs, r.value)
  {
    var geometry := ProjectionGeometry(c);
    if geometry.Err? {
      return Err(geometry.error);
    }
    var g := geometry.value;
    assert Dimensioned(c, g) && WeightsFit(w, g);
    var plan := PlanTails(c, g);
    if plan.Err? {
      return Err(plan.error);
    }
    PositiveArea(c.heads, c.headDim);
    assert Proper(plan.value[0]) <==> c.intermediate > 0;
    if c.heads * c.headDim == 0 || c.hidden == 0 || exists l :: 0 <= l < |plan.value| && !Proper(plan.value[l]) {
      return Err("ANE fused tail is invalid");
    }
    var tails := RunPlannedTails(c, w, g, plan.value, norm, silu, inputs);
    r := Ok(tails);
  }

  method PlanTails(c: ModelConfig, g: Geometry) returns (plan: Result<seq<seq<TailFragment>>, string>)
    requires c.layers > 0 && Dimensioned(c, g)
    ensures plan.Ok? <==> TailWithinLimit(c)
    ensures plan.Ok? ==> |plan.value| == c.layers && Tiled(g, plan.value)
    ensures plan.Ok? ==> forall l :: 0 <= l < c.layers ==> (Proper(plan.value[l]) <==> c.intermediate > 0)
  {
    forall l: nat
      ensures TailAccepted(g, l) <==> TailWithinLimit(c)
    {
      AcceptedIffWithinLimit(c, g, l);
    }
    plan := FusedTailFragments(g, c.layers);
    assert plan.Ok? ==> TailAccepted(g, 0);
    if plan.Ok? && c.intermediate == 0 {
      forall l | 0 <= l < c.layers
        ensures !Proper(plan.value[l])
      {
        var shards := plan.value[l];
        assert shards[|shards| - 1].width == 0;
      }
    }
  }

  ghost predicate Tiled(g: Geometry, plan: seq<seq<TailFragment>>) {
    forall l :: 0 <= l < |plan| ==> |plan[l]| > 0 && TailTiles(plan[l], g, l, g(Gate(l)).output)
  }

  /** The tails so far are those of the first layers. */
  ghost predicate AreTails(c: ModelConfig, w: Weights, norm: nat -> RowFn, silu: real -> real, inputs: seq<Vec>,
                           tails: seq<Vec>)
  {
    && |tails| <= |inputs|
    && forall l :: 0 <= l < |tails| ==> IsTail(c, w, norm(l), silu, l, inputs[l], tails[l])
  }

  lemma TailsGrow(c: ModelConfig, w: Weights, norm: nat -> RowFn, silu: real -> real, inputs: seq<Vec>,
                  tails: seq<Vec>, tail: Vec)
    requires AreTails(c, w, norm, silu, inputs, tails) && |tails| < |inputs|
    requires IsTail(c, w, norm(|tails|), silu, |tails|, inputs[|tails|], tail)
    ensures AreTails(c, w, norm, silu, inputs, tails + [tail])
  {
  }

  method RunPlannedTails(c: ModelConfig, w: Weights, g: Geometry, plan: seq<seq<TailFragment>>, norm: nat -> RowFn,
                         silu: real -> real, inputs: seq<Vec>) returns (tails: seq<Vec>)
    requires Dimensioned(c, g) && WeightsFit(w, g) && |plan| == |inputs| && Tiled(g, plan)
    requires forall l :: 0 <= l < |inputs| ==> |inputs[l]| == c.heads * c.headDim + c.hidden
    ensures |tails| == |inputs| && AreTails(c, w, norm, silu, inputs, tails)
  {
    tails := [];
    for l := 0 to |plan|
      invariant |tails| == l && AreTails(c, w, norm, silu, inputs, tails)
    {
      var tail := RunLayerTail(c, w, g, plan[l], norm(l), silu, l, inputs[l]);
      TailsGrow(c, w, norm, silu, inputs, tails, tail);
      tails := tails + [tail];
    }
  }

  method RunLayerTail(c: ModelConfig, w: Weights, g: Geometry, shards: seq<TailFragment>, norm: RowFn,
                      silu: real -> real, l: nat, input: Vec) returns (tail: Vec)
    requires Dimensioned(c, g) && WeightsFit(w, g)
    requires |shards| > 0 && TailTiles(shards, g, l, g(Gate(l)).output) && |input| == c.heads * c.headDim + c.hidden
    ensures IsTail(c, w, norm, silu, l, input, tail)
  {
    var t := TailWeightsOf(w, l);
    assert g(O(l)).input == c.heads * c.headDim && g(Gate(l)).input == c.hidden;
    TailRecovered(norm, silu, t, shards, input, g, l);
    tail := RunTailShards(norm, silu, t, shards, input, c.heads * c.headDim, c.hidden);
  }
}
