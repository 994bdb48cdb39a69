/** The exported stateful attention module: grouped state buffers overwritten in place, chunked state writes,
    chunked queries and a split or concatenated K/V join, proved equal to `AttentionSpec` for every configuration. */
module StatefulAttention {
  import opened Arithmetic
  import opened Tensors
  import opened AttentionSpec

  datatype Config = Config(shape: Shape, querySize: nat, chunk: nat, writeChunk: nat, split: bool, groupKvHeads: nat)
  {
    /** The geometries the exporter accepts, for any sizes. */
    predicate Accepted() {
      && shape.groups > 0 && shape.block > 0
      && chunk > 0 && querySize % chunk == 0
      && writeChunk > 0 && shape.block % writeChunk == 0
      && groupKvHeads > 0 && shape.kvHeads % groupKvHeads == 0
    }

    function StateGroups(): nat
      requires groupKvHeads > 0
    {
      shape.kvHeads / groupKvHeads
    }
  }

  // ---- The tensor expressions of the module ----

  /** `state * keep + written` for one head. */
  function Blend(state: Mat, keep: Vec, written: Mat, dim: nat): (r: Mat)
    requires IsMat(state, |keep|, dim) && IsMat(written, |keep|, dim)
    ensures IsMat(r, |keep|, dim)
  {
    seq(|keep|, c requires 0 <= c < |keep| =>
      seq(dim, d requires 0 <= d < dim => state[c][d] * keep[c] + written[c][d]))
  }

  /** `q @ k.transpose(-2, -1)` */
  function Scores(q: Mat, k: Mat, dim: nat): (r: Mat)
    requires IsMat(q, |q|, dim) && IsMat(k, |k|, dim)
    ensures IsMat(r, |q|, |k|)
  {
    seq(|q|, i requires 0 <= i < |q| => seq(|k|, j requires 0 <= j < |k| => Dot(q[i], k[j])))
  }

  /** `score * scale + mask` for one row. */
  function Logits(score: Vec, scale: real, mask: Vec): (r: Vec)
    requires |score| == |mask|
    ensures |r| == |score|
  {
    seq(|score|, j requires 0 <= j < |score| => Logit(score[j], scale, mask[j]))
  }

  /** `softmax(score * scale + mask)` by rows. */
  function Probability(sm: RowFn, scale: real, score: Mat, mask: Mat, context: nat): (r: Mat)
    requires IsMat(score, |score|, context) && IsMat(mask, |score|, context)
    ensures IsMat(r, |score|, context)
  {
    seq(|score|, i requires 0 <= i < |score| => ApplyRow(sm, Logits(score[i], scale, mask[i])))
  }

  /** One query head of the `concat` join. */
  function ConcatHead(sm: RowFn, scale: real, q: Mat, keyState: Mat, noiseKey: Mat, valueState: Mat, noiseValue: Mat,
                      mask: Mat, dim: nat): (r: Mat)
    requires JoinShapes(q, keyState, noiseKey, valueState, noiseValue, mask, dim)
  {
    var score := Scores(q, keyState + noiseKey, dim);
    MatMul(Probability(sm, scale, score, mask, |keyState| + |noiseKey|), valueState + noiseValue, dim)
  }

  /** One query head of the `split` join, which never concatenates the state with the noise rows. */
  function SplitHead(sm: RowFn, scale: real, q: Mat, keyState: Mat, noiseKey: Mat, valueState: Mat, noiseValue: Mat,
                     mask: Mat, dim: nat): (r: Mat)
    requires JoinShapes(q, keyState, noiseKey, valueState, noiseValue, mask, dim)
  {
    var n, all := |keyState|, |keyState| + |noiseKey|;
    var score := HCat(Scores(q, keyState, dim), Scores(q, noiseKey, dim));
    var p := Probability(sm, scale, score, mask, all);
    MatAdd(MatMul(ColSlice(p, 0, n, all), valueState, dim), MatMul(ColSlice(p, n, all, all), noiseValue, dim), dim)
  }

  ghost predicate JoinShapes(q: Mat, keyState: Mat, noiseKey: Mat, valueState: Mat, noiseValue: Mat, mask: Mat,
                             dim: nat) {
    && IsMat(q, |mask|, dim) && IsMat(keyState, |keyState|, dim) && IsMat(valueState, |keyState|, dim)
    && IsMat(noiseKey, |noiseKey|, dim) && IsMat(noiseValue, |noiseKey|, dim)
    && IsMat(mask, |mask|, |keyState| + |noiseKey|)
  }

  // ---- Why the knobs do not change the meaning ----

  lemma ConcatHeadCorrect(sm: RowFn, scale: real, q: Mat, keyState: Mat, noiseKey: Mat, valueState: Mat,
                          noiseValue: Mat, mask: Mat, dim: nat)
    requires JoinShapes(q, keyState, noiseKey, valueState, noiseValue, mask, dim)
    ensures ConcatHead(sm, scale, q, keyState, noiseKey, valueState, noiseValue, mask, dim)
            == AttendHead(sm, scale, q, keyState + noiseKey, valueState + noiseValue, mask, dim)
  {
    var keys, values := keyState + noiseKey, valueState + noiseValue;
    var score := Scores(q, keys, dim);
    var p := Probability(sm, scale, score, mask, |keys|);
    forall i | 0 <= i < |mask|
      ensures MatMul(p, values, dim)[i] == AttendRow(sm, scale, q[i], keys, values, mask[i])
    {
      assert score[i] == seq(|keys|, j requires 0 <= j < |keys| => Dot(q[i], keys[j]));
      var logits, row := Logits(score[i], scale, mask[i]), ScoreRow(scale, q[i], keys, mask[i]);
      assert forall j :: 0 <= j < |keys| ==> logits[j] == row[j];
      assert logits == row;
      assert p[i] == ApplyRow(sm, row);
    }
  }

  lemma SplitScores(q: Mat, k: Mat, noise: Mat, dim: nat)
    requires IsMat(q, |q|, dim) && IsMat(k, |k|, dim) && IsMat(noise, |noise|, dim)
    ensures HCat(Scores(q, k, dim), Scores(q, noise, dim)) == Scores(q, k + noise, dim)
  {
    var left, right := HCat(Scores(q, k, dim), Scores(q, noise, dim)), Scores(q, k + noise, dim);
    forall i | 0 <= i < |q|
      ensures left[i] == right[i]
    {
      assert forall j :: 0 <= j < |k| + |noise| ==> left[i][j] == right[i][j];
    }
  }

  lemma SplitHeadCorrect(sm: RowFn, scale: real, q: Mat, keyState: Mat, noiseKey: Mat, valueState: Mat,
                         noiseValue: Mat, mask: Mat, dim: nat)
    requires JoinShapes(q, keyState, noiseKey, valueState, noiseValue, mask, dim)
    ensures SplitHead(sm, scale, q, keyState, noiseKey, valueState, noiseValue, mask, dim)
            == AttendHead(sm, scale, q, keyState + noiseKey, valueState + noiseValue, mask, dim)
  {
    var n, all := |keyState|, |keyState| + |noiseKey|;
    var score := HCat(Scores(q, keyState, dim), Scores(q, noiseKey, dim));
    SplitScores(q, keyState, noiseKey, dim);
    var p := Probability(sm, scale, score, mask, all);
    ConcatHeadCorrect(sm, scale, q, keyState, noiseKey, valueState, noiseValue, mask, dim);
    var split := SplitHead(sm, scale, q, keyState, noiseKey, valueState, noiseValue, mask, dim);
    var joined := MatMul(p, valueState + noiseValue, dim);
    forall i | 0 <= i < |mask|
      ensures split[i] == joined[i]
    {
      forall d | 0 <= d < dim
        ensures split[i][d] == joined[i][d]
      {
        ColumnConcat(valueState, noiseValue, d, dim);
        DotSplit(p[i], Column(valueState + noiseValue, d), n);
        assert p[i][..n] == p[i][0..n] && p[i][n..] == p[i][n..all];
      }
    }
  }

  /** One more write chunk extends the contraction over a prefix of the block. */
  lemma WriteChunkExtends(mask: Mat, target: Mat, lo: nat, hi: nat, dim: nat)
    requires lo <= hi <= |target| && IsMat(mask, |mask|, |target|) && IsMat(target, |target|, dim)
    ensures MatAdd(MatMul(ColSlice(mask, 0, lo, |target|), target[..lo], dim),
                   MatMul(ColSlice(mask, lo, hi, |target|), target[lo..hi], dim), dim)
            == MatMul(ColSlice(mask, 0, hi, |target|), target[..hi], dim)
  {
    var before := MatMul(ColSlice(mask, 0, lo, |target|), target[..lo], dim);
    var part := MatMul(ColSlice(mask, lo, hi, |target|), target[lo..hi], dim);
    var after := MatMul(ColSlice(mask, 0, hi, |target|), target[..hi], dim);
    forall c, d | 0 <= c < |mask| && 0 <= d < dim
      ensures before[c][d] + part[c][d] == after[c][d]
    {
      var row := mask[c][0..hi];
      DotSplit(row, Column(target[..hi], d), lo);
      ColumnSlice(target, 0, hi, d, dim);
      ColumnSlice(target, 0, lo, d, dim);
      ColumnSlice(target, lo, hi, d, dim);
      assert row[..lo] == mask[c][0..lo] && row[lo..] == mask[c][lo..hi];
      assert Column(target, d)[..hi][..lo] == Column(target, d)[..lo];
      assert Column(target, d)[..hi][lo..] == Column(target, d)[lo..hi];
    }
    assert forall c :: 0 <= c < |mask| ==> VecAdd(before[c], part[c]) == after[c];
  }

  lemma BlendIsWrite(state: Mat, target: Mat, mask: Mat, keep: Vec, dim: nat)
    requires IsMat(state, |mask|, dim) && IsMat(target, |target|, dim) && IsMat(mask, |mask|, |target|)
    requires |keep| == |mask| && forall c :: 0 <= c < |mask| ==> keep[c] == 1.0 - Sum(mask[c])
    ensures Blend(state, keep, MatMul(mask, target, dim), dim) == WriteHead(state, target, mask, dim)
  {
    var left, right := Blend(state, keep, MatMul(mask, target, dim), dim), WriteHead(state, target, mask, dim);
    forall c | 0 <= c < |mask|
      ensures left[c] == right[c]
    {
      assert forall d :: 0 <= d < dim ==> left[c][d] == right[c][d];
    }
  }

  // ---- The loops of one state group ----

  function HeadsMatMul(mask: Mat, target: Heads, block: nat, dim: nat): (r: Heads)
    requires IsMat(mask, |mask|, block) && IsHeads(target, |target|, block, dim)
    ensures IsHeads(r, |target|, |mask|, dim)
  {
    seq(|target|, h requires 0 <= h < |target| => MatMul(mask, target[h], dim))
  }

  function HeadsAdd(a: Heads, b: Heads, rows: nat, dim: nat): (r: Heads)
    requires IsHeads(a, |a|, rows, dim) && IsHeads(b, |a|, rows, dim)
    ensures IsHeads(r, |a|, rows, dim)
  {
    seq(|a|, h requires 0 <= h < |a| => MatAdd(a[h], b[h], dim))
  }

  function HeadsBlend(state: Heads, keep: Vec, written: Heads, dim: nat): (r: Heads)
    requires IsHeads(state, |state|, |keep|, dim) && IsHeads(written, |state|, |keep|, dim)
    ensures IsHeads(r, |state|, |keep|, dim)
  {
    seq(|state|, h requires 0 <= h < |state| => Blend(state[h], keep, written[h], dim))
  }

  /** The state-write contraction, whole or in chunks whose partial products are summed. */
  method Written(mask: Mat, target: Heads, writeChunk: nat, block: nat, dim: nat) returns (written: Heads)
    requires writeChunk > 0 && block % writeChunk == 0
    requires IsMat(mask, |mask|, block) && IsHeads(target, |target|, block, dim)
    ensures written == HeadsMatMul(mask, target, block, dim)
  {
    if writeChunk == block {
      written := HeadsMatMul(mask, target, block, dim);
    } else {
      var chunks := block / writeChunk;
      GroupsCover(block, writeChunk);
      written := ZeroHeads(|target|, |mask|, dim);
      EmptyContraction(mask, target, block, dim);
      for i := 0 to chunks
        invariant i * writeChunk <= block
        invariant written == PrefixWrite(mask, target, i * writeChunk, block, dim)
      {
        MulLe(i + 1, chunks, writeChunk);
        var lo, hi := i * writeChunk, (i + 1) * writeChunk;
        var part := HeadsMatMul(ColSlice(mask, lo, hi, block), RowSlice(target, lo, hi), hi - lo, dim);
        PrefixExtends(mask, target, lo, hi, block, dim);
        written := HeadsAdd(written, part, |mask|, dim);
      }
      PrefixAll(mask, target, block, dim);
    }
  }

  /** The contraction over the first `n` block rows. */
  ghost function PrefixWrite(mask: Mat, target: Heads, n: nat, block: nat, dim: nat): (r: Heads)
    requires n <= block && IsMat(mask, |mask|, block) && IsHeads(target, |target|, block, dim)
    ensures IsHeads(r, |target|, |mask|, dim)
  {
    HeadsMatMul(ColSlice(mask, 0, n, block), RowSlice(target, 0, n), n, dim)
  }

  lemma PrefixAll(mask: Mat, target: Heads, block: nat, dim: nat)
    requires IsMat(mask, |mask|, block) && IsHeads(target, |target|, block, dim)
    ensures PrefixWrite(mask, target, block, block, dim) == HeadsMatMul(mask, target, block, dim)
  {
    assert forall c :: 0 <= c < |mask| ==> mask[c][0..block] == mask[c];
    assert forall h :: 0 <= h < |target| ==> target[h][0..block] == target[h];
    assert ColSlice(mask, 0, block, block) == mask;
    assert RowSlice(target, 0, block) == target;
  }

  lemma PrefixExtends(mask: Mat, target: Heads, lo: nat, hi: nat, block: nat, dim: nat)
    requires lo <= hi <= block && IsMat(mask, |mask|, block) && IsHeads(target, |target|, block, dim)
    ensures HeadsAdd(PrefixWrite(mask, target, lo, block, dim),
                     HeadsMatMul(ColSlice(mask, lo, hi, block), RowSlice(target, lo, hi), hi - lo, dim), |mask|, dim)
            == PrefixWrite(mask, target, hi, block, dim)
  {
    forall h | 0 <= h < |target|
      ensures MatAdd(MatMul(ColSlice(mask, 0, lo, block), target[h][0..lo], dim),
                     MatMul(ColSlice(mask, lo, hi, block), target[h][lo..hi], dim), dim)
              == MatMul(ColSlice(mask, 0, hi, block), target[h][0..hi], dim)
    {
      WriteChunkExtends(mask, target[h], lo, hi, dim);
    }
  }

  lemma EmptyContraction(mask: Mat, target: Heads, block: nat, dim: nat)
    requires IsMat(mask, |mask|, block) && IsHeads(target, |target|, block, dim)
    ensures ZeroHeads(|target|, |mask|, dim) == PrefixWrite(mask, target, 0, block, dim)
  {
    var left := ZeroHeads(|target|, |mask|, dim);
    var right := PrefixWrite(mask, target, 0, block, dim);
    forall h | 0 <= h < |target|
      ensures left[h] == right[h]
    {
      forall c | 0 <= c < |mask|
        ensures left[h][c] == right[h][c]
      {
        assert forall d :: 0 <= d < dim ==> left[h][c][d] == right[h][c][d];
      }
    }
  }

  /** `k_state * keep + written`, for one state group. */
  method UpdatedState(state: Heads, target: Heads, mask: Mat, writeChunk: nat, block: nat, dim: nat)
    returns (updated: Heads)
    requires writeChunk > 0 && block % writeChunk == 0
    requires IsMat(mask, |mask|, block) && IsHeads(target, |state|, block, dim) && IsHeads(state, |state|, |mask|, dim)
    ensures updated == WriteHeads(state, target, mask, block, dim)
  {
    var keep := seq(|mask|, c requires 0 <= c < |mask| => 1.0 - Sum(mask[c]));
    var written := Written(mask, target, writeChunk, block, dim);
    updated := HeadsBlend(state, keep, written, dim);
    forall h | 0 <= h < |state|
      ensures updated[h] == WriteHead(state[h], target[h], mask, dim)
    {
      BlendIsWrite(state[h], target[h], mask, keep, dim);
    }
  }

  /** Tensors of one state group, before and after the query axis is chunked. */
  datatype Group = Group(query: Heads, keyState: Heads, valueState: Heads, noiseKey: Heads, noiseValue: Heads)
  {
    ghost predicate Fits(s: Shape, heads: nat, queries: nat) {
      && IsHeads(query, heads * s.groups, queries, s.headDim)
      && IsHeads(keyState, heads, s.maxContext, s.headDim) && IsHeads(valueState, heads, s.maxContext, s.headDim)
      && IsHeads(noiseKey, heads, s.block, s.headDim) && IsHeads(noiseValue, heads, s.block, s.headDim)
    }

    ghost function Meaning(sm: RowFn, scale: real, s: Shape, mask: Mat): (r: Heads)
      requires s.groups > 0 && Fits(s, |keyState|, |mask|) && IsMat(mask, |mask|, s.maxContext + s.block)
      ensures IsHeads(r, |keyState| * s.groups, |mask|, s.headDim)
    {
      Attend(sm, scale, s.groups, query, RowCat(keyState, noiseKey), RowCat(valueState, noiseValue), mask,
             s.maxContext + s.block, s.headDim)
    }
  }

  lemma MeaningAt(sm: RowFn, scale: real, s: Shape, x: Group, mask: Mat, g: nat, j: nat)
    requires s.groups > 0 && g < |x.keyState| && j < s.groups && x.Fits(s, |x.keyState|, |mask|)
    requires IsMat(mask, |mask|, s.maxContext + s.block) && g * s.groups + s.groups <= |x.keyState| * s.groups
    ensures x.Meaning(sm, scale, s, mask)[g * s.groups + j]
            == AttendHead(sm, scale, x.query[g * s.groups + j], x.keyState[g] + x.noiseKey[g],
                          x.valueState[g] + x.noiseValue[g], mask, s.headDim)
  {
    DivInGroup(g, j, s.groups);
  }

  /** The query heads served by one KV head. */
  method AttendKvHead(sm: RowFn, scale: real, s: Shape, split: bool, x: Group, g: nat, mask: Mat)
    returns (part: Heads)
    requires s.groups > 0 && g < |x.keyState| && x.Fits(s, |x.keyState|, |mask|)
    requires IsMat(mask, |mask|, s.maxContext + s.block)
    ensures g * s.groups + s.groups <= |x.keyState| * s.groups
    ensures part == x.Meaning(sm, scale, s, mask)[g * s.groups..g * s.groups + s.groups]
  {
    MulLe(g + 1, |x.keyState|, s.groups);
    var qGroup := x.query[g * s.groups..g * s.groups + s.groups];
    var k, nk, v, nv := x.keyState[g], x.noiseKey[g], x.valueState[g], x.noiseValue[g];
    ghost var meaning := x.Meaning(sm, scale, s, mask);
    if split {
      part := seq(s.groups, j requires 0 <= j < s.groups =>
        SplitHead(sm, scale, qGroup[j], k, nk, v, nv, mask, s.headDim));
    } else {
      part := seq(s.groups, j requires 0 <= j < s.groups =>
        ConcatHead(sm, scale, qGroup[j], k, nk, v, nv, mask, s.headDim));
    }
    forall j | 0 <= j < s.groups
      ensures part[j] == meaning[g * s.groups + j]
    {
      MeaningAt(sm, scale, s, x, mask, g, j);
      SplitHeadCorrect(sm, scale, qGroup[j], k, nk, v, nv, mask, s.headDim);
      ConcatHeadCorrect(sm, scale, qGroup[j], k, nk, v, nv, mask, s.headDim);
    }
  }

  /** One query chunk: `head_parts` over the KV heads of the group. */
  method AttendChunk(sm: RowFn, scale: real, s: Shape, split: bool, x: Group, mask: Mat) returns (parts: Heads)
    requires s.groups > 0 && x.Fits(s, |x.keyState|, |mask|) && IsMat(mask, |mask|, s.maxContext + s.block)
    ensures parts == x.Meaning(sm, scale, s, mask)
  {
    parts := [];
    for g := 0 to |x.keyState|
      invariant |parts| == g * s.groups <= |x.keyState| * s.groups
      invariant parts == x.Meaning(sm, scale, s, mask)[..g * s.groups]
    {
      var part := AttendKvHead(sm, scale, s, split, x, g, mask);
      parts := parts + part;
      assert (g + 1) * s.groups == g * s.groups + s.groups;
    }
  }

  /** All query chunks of one state group, concatenated along the query axis. */
  method AttendGroup(sm: RowFn, scale: real, s: Shape, chunk: nat, split: bool, x: Group, mask: Mat)
    returns (outputs: Heads)
    requires s.groups > 0 && chunk > 0 && |mask| % chunk == 0
    requires x.Fits(s, |x.keyState|, |mask|) && IsMat(mask, |mask|, s.maxContext + s.block)
    ensures outputs == x.Meaning(sm, scale, s, mask)
  {
    var chunks := |mask| / chunk;
    GroupsCover(|mask|, chunk);
    ghost var meaning := x.Meaning(sm, scale, s, mask);
    outputs := seq(|x.query|, h => []);
    for i := 0 to chunks
      invariant i * chunk <= |mask|
      invariant outputs == RowSlice(meaning, 0, i * chunk)
    {
      MulLe(i + 1, chunks, chunk);
      var lo, hi := i * chunk, (i + 1) * chunk;
      var part := AttendSlice(sm, scale, s, split, x, mask, lo, hi);
      RowCatSlices(meaning, lo, hi, |mask|, s.headDim);
      outputs := RowCat(outputs, part);
    }
    RowCatSlices(meaning, 0, |mask|, |mask|, s.headDim);
  }

  method AttendSlice(sm: RowFn, scale: real, s: Shape, split: bool, x: Group, mask: Mat, lo: nat, hi: nat)
    returns (part: Heads)
    requires s.groups > 0 && lo <= hi <= |mask|
    requires x.Fits(s, |x.keyState|, |mask|) && IsMat(mask, |mask|, s.maxContext + s.block)
    ensures part == RowSlice(x.Meaning(sm, scale, s, mask), lo, hi)
  {
    var sliced := x.(query := RowSlice(x.query, lo, hi));
    part := AttendChunk(sm, scale, s, split, sliced, mask[lo..hi]);
    MeaningOfSlice(sm, scale, s, x, mask, lo, hi);
  }

  lemma RowCatSlices(t: Heads, lo: nat, hi: nat, rows: nat, dim: nat)
    requires lo <= hi <= rows && IsHeads(t, |t|, rows, dim)
    ensures RowCat(RowSlice(t, 0, lo), RowSlice(t, lo, hi)) == RowSlice(t, 0, hi)
    ensures RowSlice(t, 0, rows) == t
  {
    assert forall h :: 0 <= h < |t| ==> t[h][0..lo] + t[h][lo..hi] == t[h][0..hi] && t[h][0..rows] == t[h];
  }

  /** Attention treats query rows independently: slicing the queries slices the output. */
  lemma MeaningOfSlice(sm: RowFn, scale: real, s: Shape, x: Group, mask: Mat, lo: nat, hi: nat)
    requires s.groups > 0 && lo <= hi <= |mask|
    requires x.Fits(s, |x.keyState|, |mask|) && IsMat(mask, |mask|, s.maxContext + s.block)
    ensures x.(query := RowSlice(x.query, lo, hi)).Meaning(sm, scale, s, mask[lo..hi])
            == RowSlice(x.Meaning(sm, scale, s, mask), lo, hi)
  {
    var left := x.(query := RowSlice(x.query, lo, hi)).Meaning(sm, scale, s, mask[lo..hi]);
    var right := RowSlice(x.Meaning(sm, scale, s, mask), lo, hi);
    forall h | 0 <= h < |x.query|
      ensures left[h] == right[h]
    {
      DivBound(h, |x.keyState|, s.groups);
    }
  }

  /** The attention of KV heads `lo..hi` of the whole prediction. */
  method AttendStateGroup(sm: RowFn, scale: real, cfg: Config, x: Inputs, keyState: Heads, valueState: Heads,
                          ghost after: State, lo: nat, hi: nat) returns (part: Heads)
    requires cfg.Accepted() && lo <= hi <= cfg.shape.kvHeads
    requires x.Fits(cfg.shape, cfg.querySize) && after.Fits(cfg.shape)
    requires keyState == after.keys[lo..hi] && valueState == after.values[lo..hi]
    ensures lo * cfg.shape.groups <= hi * cfg.shape.groups <= cfg.shape.kvHeads * cfg.shape.groups
    ensures part == Output(sm, scale, cfg.shape, after, x)[lo * cfg.shape.groups..hi * cfg.shape.groups]
  {
    var s := cfg.shape;
    MulLe(lo, hi, s.groups);
    MulLe(hi, s.kvHeads, s.groups);
    assert hi * s.groups - lo * s.groups == (hi - lo) * s.groups;
    var group := Group(x.query[lo * s.groups..hi * s.groups], keyState, valueState, x.noiseKey[lo..hi],
                       x.noiseValue[lo..hi]);
    part := AttendGroup(sm, scale, s, cfg.chunk, cfg.split, group, x.attentionMask);
    GroupIsSlice(sm, scale, s, group, x, after, lo, hi);
  }

  /** A state group computes exactly its query heads of the whole attention. */
  lemma GroupIsSlice(sm: RowFn, scale: real, s: Shape, group: Group, x: Inputs, after: State, lo: nat, hi: nat)
    requires s.groups > 0 && lo <= hi <= s.kvHeads && x.Fits(s, |x.attentionMask|) && after.Fits(s)
    requires group.Fits(s, hi - lo, |x.attentionMask|)
    requires lo * s.groups <= hi * s.groups <= s.kvHeads * s.groups
    requires group == Group(x.query[lo * s.groups..hi * s.groups], after.keys[lo..hi], after.values[lo..hi],
                            x.noiseKey[lo..hi], x.noiseValue[lo..hi])
    ensures group.Meaning(sm, scale, s, x.attentionMask)
            == Output(sm, scale, s, after, x)[lo * s.groups..hi * s.groups]
  {
    var keys, values := RowCat(after.keys, x.noiseKey), RowCat(after.values, x.noiseValue);
    assert RowCat(group.keyState, group.noiseKey) == keys[lo..hi];
    assert RowCat(group.valueState, group.noiseValue) == values[lo..hi];
    AttendHeadSlice(sm, scale, s.groups, x.query, keys, values, x.attentionMask, s.maxContext + s.block, s.headDim,
                    lo, hi);
  }

  lemma AttendHeadSlice(sm: RowFn, scale: real, groups: nat, query: Heads, keys: Heads, values: Heads, mask: Mat,
                        context: nat, dim: nat, lo: nat, hi: nat)
    requires groups > 0 && |query| == |keys| * groups && lo <= hi <= |keys|
    requires lo * groups <= hi * groups <= |query|
    requires IsHeads(query, |query|, |mask|, dim) && IsMat(mask, |mask|, context)
    requires IsHeads(keys, |keys|, context, dim) && IsHeads(values, |keys|, context, dim)
    ensures hi * groups - lo * groups == (hi - lo) * groups
    ensures Attend(sm, scale, groups, query[lo * groups..hi * groups], keys[lo..hi], values[lo..hi], mask, context, dim)
            == Attend(sm, scale, groups, query, keys, values, mask, context, dim)[lo * groups..hi * groups]
  {
    var a, b := lo * groups, hi * groups;
    assert b - a == (hi - lo) * groups;
    var part := Attend(sm, scale, groups, query[a..b], keys[lo..hi], values[lo..hi], mask, context, dim);
    var whole := Attend(sm, scale, groups, query, keys, values, mask, context, dim);
    forall h | 0 <= h < b - a
      ensures part[h] == whole[a..b][h]
    {
      AttendHeadAt(sm, scale, groups, query, keys, values, mask, context, dim, lo, hi, h);
    }
  }

  lemma AttendHeadAt(sm: RowFn, scale: real, groups: nat, query: Heads, keys: Heads, values: Heads, mask: Mat,
                     context: nat, dim: nat, lo: nat, hi: nat, h: nat)
    requires groups > 0 && |query| == |keys| * groups && lo <= hi <= |keys| && h < (hi - lo) * groups
    requires lo * groups <= hi * groups <= |query| && hi * groups - lo * groups == (hi - lo) * groups
    requires IsHeads(query, |query|, |mask|, dim) && IsMat(mask, |mask|, context)
    requires IsHeads(keys, |keys|, context, dim) && IsHeads(values, |keys|, context, dim)
    ensures Attend(sm, scale, groups, query[lo * groups..hi * groups], keys[lo..hi], values[lo..hi], mask, context,
                   dim)[h]
            == Attend(sm, scale, groups, query, keys, values, mask, context, dim)[lo * groups + h]
  {
    DivShift(lo, h, groups);
    assert KvHead(lo * groups + h, groups, |keys|) == lo + KvHead(h, groups, hi - lo);
  }

  /** The first `g` of the parts join to a prefix of `whole`; the others are as they were. */
  ghost predicate Replaced<T(!new)>(parts: seq<seq<T>>, before: seq<seq<T>>, whole: seq<T>, g: nat, size: nat) {
    && g <= |parts| == |before| && |whole| == |parts| * size && g * size <= |whole|
    && (forall i :: g <= i < |parts| ==> parts[i] == before[i])
    && Flatten(parts[..g]) == whole[..g * size]
  }

  lemma ReplacedStep<T(!new)>(parts: seq<seq<T>>, before: seq<seq<T>>, whole: seq<T>, g: nat, size: nat)
    requires Replaced(parts, before, whole, g, size) && g < |parts|
    ensures g * size <= (g + 1) * size <= |whole|
    ensures Replaced(parts[g := whole[g * size..(g + 1) * size]], before, whole, g + 1, size)
  {
    MulLe(g + 1, |parts|, size);
    MulLe(g, g + 1, size);
    var updated := parts[g := whole[g * size..(g + 1) * size]];
    assert updated[..g + 1][..g] == parts[..g];
  }

  lemma PrefixGrows<T>(prefix: seq<T>, whole: seq<T>, a: nat, b: nat)
    requires a <= b <= |whole| && |prefix| == a && prefix <= whole
    ensures prefix + whole[a..b] <= whole && |prefix + whole[a..b]| == b
  {
  }

  lemma {:induction false} ReplacedAll<T(!new)>(parts: seq<seq<T>>, before: seq<seq<T>>, whole: seq<T>, size: nat)
    requires Replaced(parts, before, whole, |parts|, size)
    ensures Flatten(parts) == whole
  {
    assert parts[..|parts|] == parts;
  }

  lemma WriteHeadsSlice(state: Heads, target: Heads, mask: Mat, block: nat, dim: nat, lo: nat, hi: nat)
    requires IsHeads(state, |state|, |mask|, dim) && IsHeads(target, |state|, block, dim)
    requires IsMat(mask, |mask|, block) && lo <= hi <= |state|
    ensures WriteHeads(state[lo..hi], target[lo..hi], mask, block, dim)
            == WriteHeads(state, target, mask, block, dim)[lo..hi]
  {
  }

  // ---- The module ----

  class Module {
    const cfg: Config
    /** One K buffer and one V buffer for each state group. */
    var kState: seq<Heads>
    var vState: seq<Heads>

    ghost predicate Valid()
      reads this
    {
      && cfg.Accepted()
      && |kState| == |vState| == cfg.StateGroups()
      && (forall g :: 0 <= g < |kState| ==>
            IsHeads(kState[g], cfg.groupKvHeads, cfg.shape.maxContext, cfg.shape.headDim)
            && IsHeads(vState[g], cfg.groupKvHeads, cfg.shape.maxContext, cfg.shape.headDim))
    }

    /** The state with the group buffers joined along the head axis. */
    ghost function Joined(): State
      reads this
    {
      State(Flatten(kState), Flatten(vState))
    }

    lemma JoinedFits()
      requires Valid()
      ensures Joined().Fits(cfg.shape) && cfg.shape.kvHeads == cfg.StateGroups() * cfg.groupKvHeads
    {
      GroupsCover(cfg.shape.kvHeads, cfg.groupKvHeads);
      FlattenFits(kState, cfg.groupKvHeads, cfg.shape.maxContext, cfg.shape.headDim);
      FlattenFits(vState, cfg.groupKvHeads, cfg.shape.maxContext, cfg.shape.headDim);
    }

    /** Buffers are registered as zeros. */
    constructor (cfg: Config)
      requires cfg.Accepted()
      ensures Valid() && this.cfg == cfg
      ensures var zero := ZeroHeads(cfg.groupKvHeads, cfg.shape.maxContext, cfg.shape.headDim);
              forall g :: 0 <= g < |kState| ==> kState[g] == zero && vState[g] == zero
    {
      this.cfg := cfg;
      var zero := ZeroHeads(cfg.groupKvHeads, cfg.shape.maxContext, cfg.shape.headDim);
      kState := seq(cfg.StateGroups(), g => zero);
      vState := seq(cfg.StateGroups(), g => zero);
    }

    /** One prediction. Every state group is updated in place and attended to before the next one. */
    method Forward(sm: RowFn, scale: real, x: Inputs) returns (out: Heads)
      requires Valid() && x.Fits(cfg.shape, cfg.querySize)
      modifies this`kState, this`vState
      ensures Valid() && old(Joined()).Fits(cfg.shape) && Joined().Fits(cfg.shape)
      ensures Joined() == Step(cfg.shape, old(Joined()), x)
      ensures out == Output(sm, scale, cfg.shape, Joined(), x)
    {
      JoinedFits();
      ghost var after := Step(cfg.shape, Joined(), x);
      ghost var meaning := Output(sm, scale, cfg.shape, after, x);
      out := ForwardGroups(sm, scale, x, after, meaning);
    }

    /** The state-group loop. `after` and `meaning` name the state and the output the prediction must produce. */
    method ForwardGroups(sm: RowFn, scale: real, x: Inputs, ghost after: State, ghost meaning: Heads)
      returns (out: Heads)
      requires Valid() && x.Fits(cfg.shape, cfg.querySize) && Joined().Fits(cfg.shape)
      requires after == Step(cfg.shape, Joined(), x) && meaning == Output(sm, scale, cfg.shape, after, x)
      modifies this`kState, this`vState
      ensures Valid() && Joined() == after && out == meaning
    {
      ghost var oldK, oldV := kState, vState;
      GroupsCover(cfg.shape.kvHeads, cfg.groupKvHeads);
      out := [];
      for g := 0 to cfg.StateGroups()
        invariant Valid()
        invariant Replaced(kState, oldK, after.keys, g, cfg.groupKvHeads)
        invariant Replaced(vState, oldV, after.values, g, cfg.groupKvHeads)
        invariant |out| == g * cfg.groupKvHeads * cfg.shape.groups && out <= meaning
      {
        ReplacedStep(kState, oldK, after.keys, g, cfg.groupKvHeads);
        ReplacedStep(vState, oldV, after.values, g, cfg.groupKvHeads);
        var keyState, valueState, part := ComputeGroup(sm, scale, cfg, x, g, kState[g], vState[g], oldK, oldV, after,
                                                       meaning);
        kState := kState[g := keyState];
        vState := vState[g := valueState];
        PrefixGrows(out, meaning, g * cfg.groupKvHeads * cfg.shape.groups,
                    (g + 1) * cfg.groupKvHeads * cfg.shape.groups);
        out := out + part;
      }
      ReplacedAll(kState, oldK, after.keys, cfg.groupKvHeads);
      ReplacedAll(vState, oldV, after.values, cfg.groupKvHeads);
    }
  }

  /** The joined group buffers form a whole state. */
  ghost predicate Split(cfg: Config, oldK: seq<Heads>, oldV: seq<Heads>) {
    && cfg.groupKvHeads > 0 && |oldK| == |oldV| == cfg.StateGroups()
    && (forall i :: 0 <= i < |oldK| ==> |oldK[i]| == |oldV[i]| == cfg.groupKvHeads)
    && State(Flatten(oldK), Flatten(oldV)).Fits(cfg.shape)
  }

  /** The tensors one state group produces, given its own two buffers. */
  method ComputeGroup(sm: RowFn, scale: real, cfg: Config, x: Inputs, g: nat, k: Heads, v: Heads,
                      ghost oldK: seq<Heads>, ghost oldV: seq<Heads>, ghost after: State, ghost meaning: Heads)
    returns (keyState: Heads, valueState: Heads, part: Heads)
    requires cfg.Accepted() && x.Fits(cfg.shape, cfg.querySize) && g < cfg.StateGroups()
    requires Split(cfg, oldK, oldV) && k == oldK[g] && v == oldV[g]
    requires after == Step(cfg.shape, State(Flatten(oldK), Flatten(oldV)), x)
    requires meaning == Output(sm, scale, cfg.shape, after, x)
    ensures var lo, hi, n := g * cfg.groupKvHeads, (g + 1) * cfg.groupKvHeads, cfg.shape.groups;
            && lo <= hi <= cfg.shape.kvHeads && lo * n <= hi * n <= |meaning|
            && keyState == after.keys[lo..hi] && valueState == after.values[lo..hi]
            && part == meaning[lo * n..hi * n]
    ensures IsHeads(keyState, cfg.groupKvHeads, cfg.shape.maxContext, cfg.shape.headDim)
    ensures IsHeads(valueState, cfg.groupKvHeads, cfg.shape.maxContext, cfg.shape.headDim)
  {
    var s, size := cfg.shape, cfg.groupKvHeads;
    GroupsCover(s.kvHeads, size);
    MulLe(g + 1, cfg.StateGroups(), size);
    var lo, hi := g * size, (g + 1) * size;
    FlattenParts(oldK, size, g);
    FlattenParts(oldV, size, g);
    keyState := UpdatedState(k, x.targetKey[lo..hi], x.writeMask, cfg.writeChunk, s.block, s.headDim);
    valueState := UpdatedState(v, x.targetValue[lo..hi], x.writeMask, cfg.writeChunk, s.block, s.headDim);
    WriteHeadsSlice(Flatten(oldK), x.targetKey, x.writeMask, s.block, s.headDim, lo, hi);
    WriteHeadsSlice(Flatten(oldV), x.targetValue, x.writeMask, s.block, s.headDim, lo, hi);
    part := AttendStateGroup(sm, scale, cfg, x, keyState, valueState, after, lo, hi);
  }

  function ZeroHeads(heads: nat, rows: nat, cols: nat): (r: Heads)
    ensures IsHeads(r, heads, rows, cols)
  {
    seq(heads, h => seq(rows, c => Zeros(cols)))
  }

  lemma GroupsCover(n: nat, size: nat)
    requires size > 0 && n % size == 0
    ensures n == n / size * size
  {
  }

  lemma {:induction false} FlattenFits(parts: seq<Heads>, size: nat, rows: nat, cols: nat)
    requires forall g :: 0 <= g < |parts| ==> IsHeads(parts[g], size, rows, cols)
    ensures IsHeads(Flatten(parts), |parts| * size, rows, cols)
  {
    FlattenLength(parts, size);
    if |parts| > 0 {
      FlattenFits(parts[..|parts| - 1], size, rows, cols);
    }
  }
}
