/** What one prediction of the stateful attention core means: a masked write of the K/V state followed by
    grouped-query attention over the written state and the noise rows, with no grouping, chunking or splitting. */
module AttentionSpec {
  import opened Arithmetic
  import opened Tensors

  /** Sizes fixed by the model, whatever the export configuration. */
  datatype Shape = Shape(kvHeads: nat, groups: nat, headDim: nat, maxContext: nat, block: nat)

  /** The tensors of one prediction. */
  datatype Inputs = Inputs(
    query: Heads, noiseKey: Heads, noiseValue: Heads, targetKey: Heads, targetValue: Heads,
    attentionMask: Mat, writeMask: Mat)
  {
    ghost predicate Fits(s: Shape, queries: nat) {
      && IsHeads(query, s.kvHeads * s.groups, queries, s.headDim)
      && IsHeads(noiseKey, s.kvHeads, s.block, s.headDim)
      && IsHeads(noiseValue, s.kvHeads, s.block, s.headDim)
      && IsHeads(targetKey, s.kvHeads, s.block, s.headDim)
      && IsHeads(targetValue, s.kvHeads, s.block, s.headDim)
      && IsMat(attentionMask, queries, s.maxContext + s.block)
      && IsMat(writeMask, s.maxContext, s.block)
    }
  }

  /** The K and V state, joined over all KV heads. */
  datatype State = State(keys: Heads, values: Heads) {
    ghost predicate Fits(s: Shape) {
      IsHeads(keys, s.kvHeads, s.maxContext, s.headDim) && IsHeads(values, s.kvHeads, s.maxContext, s.headDim)
    }
  }

  // ---- The state write ----

  function WriteEntry(held: real, maskRow: Vec, target: Vec): real
    requires |maskRow| == |target|
  {
    held * (1.0 - Sum(maskRow)) + Dot(maskRow, target)
  }

  function WriteHead(state: Mat, target: Mat, mask: Mat, dim: nat): (r: Mat)
    requires IsMat(state, |state|, dim) && IsMat(target, |target|, dim) && IsMat(mask, |state|, |target|)
    ensures IsMat(r, |state|, dim)
  {
    seq(|state|, c requires 0 <= c < |state| =>
      seq(dim, d requires 0 <= d < dim => WriteEntry(state[c][d], mask[c], Column(target, d))))
  }

  function WriteHeads(state: Heads, target: Heads, mask: Mat, block: nat, dim: nat): (r: Heads)
    requires IsHeads(state, |state|, |mask|, dim) && IsHeads(target, |state|, block, dim)
    requires IsMat(mask, |mask|, block)
    ensures IsHeads(r, |state|, |mask|, dim)
  {
    seq(|state|, h requires 0 <= h < |state| => WriteHead(state[h], target[h], mask, dim))
  }

  function NextState(s: Shape, st: State, key: Heads, value: Heads, mask: Mat): (r: State)
    requires st.Fits(s) && IsHeads(key, s.kvHeads, s.block, s.headDim) && IsHeads(value, s.kvHeads, s.block, s.headDim)
    requires IsMat(mask, s.maxContext, s.block)
    ensures r.Fits(s)
  {
    State(WriteHeads(st.keys, key, mask, s.block, s.headDim), WriteHeads(st.values, value, mask, s.block, s.headDim))
  }

  // ---- Grouped-query attention ----

  function Logit(product: real, scale: real, mask: real): real {
    product * scale + mask
  }

  function ScoreRow(scale: real, q: Vec, keys: Mat, mask: Vec): (r: Vec)
    requires IsMat(keys, |keys|, |q|) && |mask| == |keys|
    ensures |r| == |keys|
  {
    seq(|keys|, j requires 0 <= j < |keys| => Logit(Dot(q, keys[j]), scale, mask[j]))
  }

  function AttendRow(sm: RowFn, scale: real, q: Vec, keys: Mat, values: Mat, mask: Vec): (r: Vec)
    requires IsMat(keys, |mask|, |q|) && IsMat(values, |mask|, |q|)
    ensures |r| == |q|
  {
    var p := ApplyRow(sm, ScoreRow(scale, q, keys, mask));
    seq(|q|, d requires 0 <= d < |q| => Dot(p, Column(values, d)))
  }

  function AttendHead(sm: RowFn, scale: real, q: Mat, keys: Mat, values: Mat, mask: Mat, dim: nat): (r: Mat)
    requires IsMat(q, |mask|, dim) && IsMat(keys, |keys|, dim) && IsMat(values, |keys|, dim)
    requires IsMat(mask, |mask|, |keys|)
    ensures IsMat(r, |mask|, dim)
  {
    seq(|mask|, i requires 0 <= i < |mask| => AttendRow(sm, scale, q[i], keys, values, mask[i]))
  }

  function KvHead(h: nat, groups: nat, kvHeads: nat): (g: nat)
    requires groups > 0 && h < kvHeads * groups
    ensures g < kvHeads
  {
    DivBound(h, kvHeads, groups);
    h / groups
  }

  /** Query head `h` attends to KV head `h / groups`. */
  function Attend(sm: RowFn, scale: real, groups: nat, query: Heads, keys: Heads, values: Heads, mask: Mat,
                  context: nat, dim: nat): (r: Heads)
    requires groups > 0 && |query| == |keys| * groups
    requires IsHeads(query, |query|, |mask|, dim)
    requires IsHeads(keys, |keys|, context, dim) && IsHeads(values, |keys|, context, dim)
    requires IsMat(mask, |mask|, context)
    ensures IsHeads(r, |query|, |mask|, dim)
  {
    seq(|query|, h requires 0 <= h < |query| =>
      AttendHead(sm, scale, query[h], keys[KvHead(h, groups, |keys|)], values[KvHead(h, groups, |keys|)], mask, dim))
  }

  /** The output of one prediction over the state it has just written. */
  function Output(sm: RowFn, scale: real, s: Shape, st: State, x: Inputs): (r: Heads)
    requires s.groups > 0 && st.Fits(s) && x.Fits(s, |x.attentionMask|)
    ensures IsHeads(r, s.kvHeads * s.groups, |x.attentionMask|, s.headDim)
  {
    Attend(sm, scale, s.groups, x.query, RowCat(st.keys, x.noiseKey), RowCat(st.values, x.noiseValue),
           x.attentionMask, s.maxContext + s.block, s.headDim)
  }

  /** State after one prediction. */
  function Step(s: Shape, st: State, x: Inputs): (r: State)
    requires st.Fits(s) && x.Fits(s, |x.attentionMask|)
    ensures r.Fits(s)
  {
    NextState(s, st, x.targetKey, x.targetValue, x.writeMask)
  }

  ghost predicate AllFit(s: Shape, xs: seq<Inputs>) {
    forall i :: 0 <= i < |xs| ==> xs[i].Fits(s, |xs[i].attentionMask|)
  }

  /** State after a whole run of predictions. */
  function Run(s: Shape, st: State, xs: seq<Inputs>): (r: State)
    requires st.Fits(s) && AllFit(s, xs)
    ensures r.Fits(s)
  {
    if |xs| == 0 then st else Step(s, Run(s, st, xs[..|xs| - 1]), xs[|xs| - 1])
  }

  /** Outputs of a whole run of predictions. */
  function RunOutputs(sm: RowFn, scale: real, s: Shape, st: State, xs: seq<Inputs>): (r: seq<Heads>)
    requires s.groups > 0 && st.Fits(s) && AllFit(s, xs)
    ensures |r| == |xs|
  {
    seq(|xs|, i requires 0 <= i < |xs| => Output(sm, scale, s, Run(s, st, xs[..i + 1]), xs[i]))
  }

  /** Only the targets and the write masks of a run matter for the state. */
  lemma {:induction false} RunDependsOnWrites(s: Shape, st: State, xs: seq<Inputs>, ys: seq<Inputs>, n: nat)
    requires st.Fits(s) && AllFit(s, xs) && AllFit(s, ys) && n <= |xs| == |ys|
    requires forall i :: 0 <= i < |xs| ==> xs[i].writeMask == ys[i].writeMask
                                           && xs[i].targetKey == ys[i].targetKey
                                           && xs[i].targetValue == ys[i].targetValue
    ensures Run(s, st, xs[..n]) == Run(s, st, ys[..n])
  {
    if n > 0 {
      assert xs[..n][..n - 1] == xs[..n - 1] && ys[..n][..n - 1] == ys[..n - 1];
      RunDependsOnWrites(s, st, xs, ys, n - 1);
    }
  }
}
