/** The Core ML shard planner: how the DFlash projections and layer tails are cut into physical programs. */
module ShardPlan {
  import opened Wrappers

  const MAX_SHARD_BYTES: nat := 250 * 1024 * 1024
  const ANE_CHANNEL_SLICE: nat := 6656
  const ANE_TAIL_CHANNEL_SLICE: nat := 9216
  const ANE_OUTPUT_CHANNEL_FLOOR: nat := 2048

  /** A logical projection of the drafter. */
  datatype Projection =
    | Fc
    | Q(layer: nat) | K(layer: nat) | V(layer: nat) | O(layer: nat)
    | Gate(layer: nat) | Up(layer: nat) | Down(layer: nat)

  datatype Dims = Dims(input: nat, output: nat)

  /** The shape of every projection of a layer stack. */
  type Geometry = Projection -> Dims

  datatype ModelConfig = ModelConfig(layers: nat, hidden: nat, heads: nat, kvHeads: nat, headDim: nat,
                                     intermediate: nat, sampled: nat)

  function ProjectionDims(c: ModelConfig, p: Projection): Dims {
    var q, kv := c.heads * c.headDim, c.kvHeads * c.headDim;
    match p
    case Fc => Dims(c.sampled * c.hidden, c.hidden)
    case Q(_) => Dims(c.hidden, q)
    case K(_) => Dims(c.hidden, kv)
    case V(_) => Dims(c.hidden, kv)
    case O(_) => Dims(q, c.hidden)
    case Gate(_) => Dims(c.hidden, c.intermediate)
    case Up(_) => Dims(c.hidden, c.intermediate)
    case Down(_) => Dims(c.intermediate, c.hidden)
  }

  /** The projections of a release drafter, which must have five layers. Every layer then passes the shape checks of
      both planners. */
  function ProjectionGeometry(c: ModelConfig): (r: Result<Geometry, string>)
    ensures r.Ok? <==> c.layers == 5
    ensures r.Ok? ==> forall l: nat :: TailDims(r.value, l) && SharedInput(r.value, l)
  {
    if c.layers != 5 then Err("release DFlash must have five layers") else Ok(p => ProjectionDims(c, p))
  }

  predicate SharedInput(g: Geometry, l: nat)
  {
    g(Q(l)).input == g(K(l)).input == g(V(l)).input
  }

  predicate TailDims(g: Geometry, l: nat)
  {
    && g(Gate(l)) == g(Up(l))
    && g(Down(l)) == Dims(g(Gate(l)).output, g(Gate(l)).input)
    && g(O(l)).output == g(Gate(l)).input
  }

  // ---- Projection fragments ----

  datatype Component = Component(projection: Projection, tensorOffset: nat, outputOffset: nat, projectionOffset: nat,
                                 width: nat)

  datatype Fragment = Fragment(group: Projection, batch: nat, inputOffset: nat, inputWidth: nat, outputWidth: nat,
                               components: seq<Component>)

  /** Consecutive input slices that cover `0..input` exactly, each producing the whole FC output. */
  ghost predicate FcSlices(fragments: seq<Fragment>, d: Dims, end: nat) {
    if |fragments| == 0 then end == 0
    else
      var last := fragments[|fragments| - 1];
      && last.inputOffset + last.inputWidth == end <= d.input
      && last.outputWidth == d.output
      && last.components == [Component(Fc, 0, 0, 0, d.output)]
      && FcSlices(fragments[..|fragments| - 1], d, last.inputOffset)
  }

  /** Q, K and V stacked in one program over the shared input. */
  ghost predicate QkvFragment(f: Fragment, g: Geometry, l: nat)
  {
    var q, k, v := g(Q(l)).output, g(K(l)).output, g(V(l)).output;
    && SharedInput(g, l) && g(Q(l)).input <= ANE_CHANNEL_SLICE
    && f.inputOffset == 0 && f.inputWidth == g(Q(l)).input && f.outputWidth == q + k + v
    && f.components == [Component(Q(l), 0, 0, 0, q), Component(K(l), 0, q, 0, k), Component(V(l), 0, q + k, 0, v)]
  }

  /** No slice is empty. */
  predicate NonEmpty(fragments: seq<Fragment>) {
    forall i :: 0 <= i < |fragments| ==> fragments[i].inputWidth > 0
  }

  lemma FcAppend(fragments: seq<Fragment>, d: Dims, end: nat, next: Fragment)
    requires FcSlices(fragments, d, end) && next.inputOffset == end && end + next.inputWidth <= d.input
    requires next.outputWidth == d.output && next.components == [Component(Fc, 0, 0, 0, d.output)]
    ensures FcSlices(fragments + [next], d, end + next.inputWidth)
  {
    assert (fragments + [next])[..|fragments|] == fragments;
  }

  /** The FC slices, the whole input unless one slice per captured layer is requested; a zero stride is refused. */
  method FcFragments(d: Dims, block: nat, splitCapture: bool) returns (r: Result<seq<Fragment>, string>)
    ensures r.Err? <==> splitCapture && d.output == 0
    ensures r.Ok? ==> FcSlices(r.value, d, d.input)
    ensures r.Ok? && !splitCapture ==> |r.value| == 1
    ensures r.Ok? && d.input > 0 ==> NonEmpty(r.value)
    ensures r.Ok? && splitCapture ==> forall i :: 0 <= i < |r.value| ==> 0 < r.value[i].inputWidth <= d.output
    ensures r.Ok? ==> forall i :: 0 <= i < |r.value| ==> r.value[i].group == Fc && r.value[i].batch == block
  {
    if splitCapture && d.output == 0 {
      return Err("range() arg 3 must not be zero");
    }
    if splitCapture {
      var slices := CaptureSlices(d, block);
      r := Ok(slices);
    } else {
      r := Ok([Fragment(Fc, block, 0, d.input, d.output, [Component(Fc, 0, 0, 0, d.output)])]);
      FcAppend([], d, 0, r.value[0]);
      assert [] + r.value == r.value;
    }
  }

  /** Slices of the FC projection that could have been cut for single captured layers. */
  predicate CaptureCut(fragments: seq<Fragment>, d: Dims, block: nat) {
    forall i :: 0 <= i < |fragments| ==>
      0 < fragments[i].inputWidth <= d.output && fragments[i].group == Fc && fragments[i].batch == block
  }

  /** One slice for each stride of the output width. */
  method CaptureSlices(d: Dims, block: nat) returns (fragments: seq<Fragment>)
    requires d.output > 0
    ensures FcSlices(fragments, d, d.input) && CaptureCut(fragments, d, block)
  {
    fragments := [];
    var offset: nat := 0;
    while offset < d.input
      invariant FcSlices(fragments, d, if offset <= d.input then offset else d.input)
      invariant CaptureCut(fragments, d, block)
      decreases d.input - offset
    {
      var width := if d.output < d.input - offset then d.output else d.input - offset;
      var next := Fragment(Fc, block, offset, width, d.output, [Component(Fc, 0, 0, 0, d.output)]);
      FcAppend(fragments, d, offset, next);
      fragments := fragments + [next];
      offset := offset + d.output;
    }
  }

  /** The Q/K/V fragment of one layer: components laid out at an advancing physical offset. */
  method QkvFragmentOf(g: Geometry, l: nat, block: nat) returns (r: Result<Fragment, string>)
    ensures r.Ok? <==> SharedInput(g, l) && g(Q(l)).input <= ANE_CHANNEL_SLICE
    ensures r.Ok? ==> QkvFragment(r.value, g, l) && r.value.group == Q(l) && r.value.batch == 2 * block
  {
    if !SharedInput(g, l) || g(Q(l)).input > ANE_CHANNEL_SLICE {
      return Err("Q/K/V cannot use the fused ANE graph");
    }
    var names := [Q(l), K(l), V(l)];
    var physicalOffset, components := 0, [];
    for i := 0 to 3
      invariant |components| == i
      invariant physicalOffset == (if i > 0 then g(Q(l)).output else 0) + (if i > 1 then g(K(l)).output else 0)
                                  + (if i > 2 then g(V(l)).output else 0)
      invariant i > 0 ==> components[0] == Component(Q(l), 0, 0, 0, g(Q(l)).output)
      invariant i > 1 ==> components[1] == Component(K(l), 0, g(Q(l)).output, 0, g(K(l)).output)
      invariant i > 2 ==> components[2] == Component(V(l), 0, g(Q(l)).output + g(K(l)).output, 0, g(V(l)).output)
    {
      components := components + [Component(names[i], 0, physicalOffset, 0, g(names[i]).output)];
      physicalOffset := physicalOffset + g(names[i]).output;
    }
    r := Ok(Fragment(Q(l), 2 * block, 0, g(Q(l)).input, physicalOffset, components));
  }

  /** The whole projection plan: FC slices first, then one fused fragment for each layer. */
  method FusedFragments(g: Geometry, layers: nat, block: nat, splitCapture: bool)
    returns (r: Result<(seq<Fragment>, seq<Fragment>), string>)
    ensures r.Ok? <==>
              && !(splitCapture && g(Fc).output == 0)
              && forall l :: 0 <= l < layers ==> SharedInput(g, l) && g(Q(l)).input <= ANE_CHANNEL_SLICE
    ensures r.Ok? ==> FcSlices(r.value.0, g(Fc), g(Fc).input)
    ensures r.Ok? && g(Fc).input > 0 ==> NonEmpty(r.value.0)
    ensures r.Ok? ==> |r.value.1| == layers && forall l :: 0 <= l < layers ==> QkvFragment(r.value.1[l], g, l)
    ensures r.Ok? ==> forall i :: 0 <= i < |r.value.0| ==> r.value.0[i].group == Fc && r.value.0[i].batch == block
    ensures r.Ok? ==> forall l :: 0 <= l < layers ==> r.value.1[l].group == Q(l) && r.value.1[l].batch == 2 * block
  {
    var fc := FcFragments(g(Fc), block, splitCapture);
    if fc.Err? {
      return Err(fc.error);
    }
    var qkv := [];
    for l := 0 to layers
      invariant |qkv| == l && forall k :: 0 <= k < l ==> QkvFragment(qkv[k], g, k)
      invariant forall k :: 0 <= k < l ==> qkv[k].group == Q(k) && qkv[k].batch == 2 * block
      invariant forall k :: 0 <= k < l ==> SharedInput(g, k) && g(Q(k)).input <= ANE_CHANNEL_SLICE
    {
      var fragment := QkvFragmentOf(g, l, block);
      if fragment.Err? {
        assert !(SharedInput(g, l) && g(Q(l)).input <= ANE_CHANNEL_SLICE);
        return Err(fragment.error);
      }
      qkv := qkv + [fragment.value];
    }
    r := Ok((fc.value, qkv));
  }

  // ---- Layer-tail fragments ----

  datatype TailFragment = TailFragment(layer: nat, order: nat, head: bool, offset: nat, width: nat, hidden: nat,
                                       attention: nat, weightBytes: nat)

  /** INT8 weight bytes of a tail shard: gate, up and down slices, plus the output projection in the head. */
  function TailBytes(g: Geometry, l: nat, width: nat, head: bool): nat
  {
    3 * width * g(Gate(l)).input + if head then g(O(l)).input * g(O(l)).output else 0
  }

  function HeadWidth(g: Geometry, l: nat): nat
  {
    if ANE_TAIL_CHANNEL_SLICE < g(Gate(l)).output then ANE_TAIL_CHANNEL_SLICE else g(Gate(l)).output
  }

  /** A layer is accepted when its FFN shapes agree and neither of its at most two shards exceeds the byte limit. */
  predicate TailAccepted(g: Geometry, l: nat)
  {
    && TailDims(g, l)
    && TailBytes(g, l, HeadWidth(g, l), true) <= MAX_SHARD_BYTES
    && TailBytes(g, l, g(Gate(l)).output - HeadWidth(g, l), false) <= MAX_SHARD_BYTES
  }

  /** One head followed by continuations that tile the intermediate axis up to `end`, all within the byte limit. */
  ghost predicate TailTiles(shards: seq<TailFragment>, g: Geometry, l: nat, end: nat)
  {
    if |shards| == 0 then end == 0
    else
      var last := shards[|shards| - 1];
      && last.layer == l && last.order == |shards| - 1 && (last.head <==> |shards| == 1)
      && last.offset + last.width == end <= g(Gate(l)).output
      && last.hidden == g(Gate(l)).input && last.attention == g(O(l)).input
      && last.weightBytes == TailBytes(g, l, last.width, last.head) <= MAX_SHARD_BYTES
      && TailTiles(shards[..|shards| - 1], g, l, last.offset)
  }

  /** No shard is empty. */
  predicate Proper(shards: seq<TailFragment>) {
    forall i :: 0 <= i < |shards| ==> shards[i].width > 0
  }

  method LayerTail(g: Geometry, l: nat) returns (r: Result<seq<TailFragment>, string>)
    ensures r.Ok? <==> TailAccepted(g, l)
    ensures r.Ok? ==> 1 <= |r.value| <= 2 && TailTiles(r.value, g, l, g(Gate(l)).output)
    ensures r.Ok? && g(Gate(l)).output > 0 ==> Proper(r.value)
  {
    if g(Gate(l)).input != g(Up(l)).input || g(Gate(l)).output != g(Up(l)).output
       || g(Down(l)).input != g(Gate(l)).output || g(Down(l)).output != g(Gate(l)).input {
      return Err("fused FFN geometry differs");
    }
    if g(O(l)).output != g(Gate(l)).input {
      return Err("output projection has the wrong hidden width");
    }
    var headWidth := HeadWidth(g, l);
    var widths := [headWidth];
    if headWidth < g(Gate(l)).output {
      widths := widths + [g(Gate(l)).output - headWidth];
    }
    var offset: nat, shards := 0, [];
    for order := 0 to |widths|
      invariant |shards| == order && TailTiles(shards, g, l, offset)
      invariant g(Gate(l)).output > 0 ==> Proper(shards)
      invariant offset == if order == 0 then 0 else if order == 1 then headWidth else g(Gate(l)).output
      invariant order > 0 ==> TailBytes(g, l, headWidth, true) <= MAX_SHARD_BYTES
      invariant order > 1 ==> TailBytes(g, l, g(Gate(l)).output - headWidth, false) <= MAX_SHARD_BYTES
    {
      var width, head := widths[order], order == 0;
      var bytes := TailBytes(g, l, width, head);
      if bytes > MAX_SHARD_BYTES {
        return Err("fused FFN partition exceeds the release limit");
      }
      var shard := TailFragment(l, order, head, offset, width, g(Gate(l)).input, g(O(l)).input, bytes);
      assert (shards + [shard])[..order] == shards;
      shards := shards + [shard];
      offset := offset + width;
    }
    r := Ok(shards);
  }

  /** The tail plan of every layer, or an error exactly when some layer is not accepted. */
  method FusedTailFragments(g: Geometry, layers: nat) returns (r: Result<seq<seq<TailFragment>>, string>)
    ensures r.Ok? <==> forall l :: 0 <= l < layers ==> TailAccepted(g, l)
    ensures r.Ok? ==> |r.value| == layers
                      && forall l :: 0 <= l < layers ==>
                           && |r.value[l]| > 0 && TailTiles(r.value[l], g, l, g(Gate(l)).output)
                           && (g(Gate(l)).output > 0 ==> Proper(r.value[l]))
  {
    var plan := [];
    for l := 0 to layers
      invariant |plan| == l && forall k :: 0 <= k < l ==> TailAccepted(g, k)
      invariant forall k :: 0 <= k < l ==> |plan[k]| > 0 && TailTiles(plan[k], g, k, g(Gate(k)).output)
      invariant forall k :: 0 <= k < l ==> g(Gate(k)).output > 0 ==> Proper(plan[k])
    {
      var shards := LayerTail(g, l);
      if shards.Err? {
        return Err(shards.error);
      }
      plan := plan + [shards.value];
    }
    r := Ok(plan);
  }
}
