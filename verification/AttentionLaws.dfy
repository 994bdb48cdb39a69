/** What a prediction computes, said without the functions that compute it: which logits reach the softmax, which rows
    they weigh, and how a write mask of any real entries blends the state. */
module AttentionLaws {
  import opened Tensors
  import opened AttentionSpec

  // ---- One row ----

  /** A scaled product plus its mask. */
  ghost predicate IsLogit(logit: real, product: real, scale: real, mask: real) {
    logit == product * scale + mask
  }

  lemma OneLogit(logit: real, product: real, scale: real, mask: real)
    ensures IsLogit(logit, product, scale, mask) <==> logit == Logit(product, scale, mask)
  {
  }

  /** The softmax sees the scaled products of the query with the keys plus the mask, and weighs the value rows. */
  lemma {:induction false} RowLaw(sm: RowFn, scale: real, q: Vec, keys: Mat, values: Mat, mask: Vec, logits: Vec,
                                  d: nat)
    requires IsMat(keys, |mask|, |q|) && IsMat(values, |mask|, |q|) && |logits| == |mask| && d < |q|
    requires forall j :: 0 <= j < |mask| ==> IsLogit(logits[j], Dot(q, keys[j]), scale, mask[j])
    ensures AttendRow(sm, scale, q, keys, values, mask)[d] == Dot(ApplyRow(sm, logits), Column(values, d))
  {
    var row := ScoreRow(scale, q, keys, mask);
    forall j | 0 <= j < |mask|
      ensures row[j] == logits[j]
    {
      OneLogit(logits[j], Dot(q, keys[j]), scale, mask[j]);
    }
    assert row == logits;
  }

  /** A zero query, or a zero scale, leaves the mask alone. */
  lemma ZeroQueryRow(sm: RowFn, scale: real, q: Vec, keys: Mat, values: Mat, mask: Vec, d: nat)
    requires IsMat(keys, |mask|, |q|) && IsMat(values, |mask|, |q|) && d < |q|
    requires scale == 0.0 || forall k :: 0 <= k < |q| ==> q[k] == 0.0
    ensures AttendRow(sm, scale, q, keys, values, mask)[d] == Dot(ApplyRow(sm, mask), Column(values, d))
  {
    forall j | 0 <= j < |mask|
      ensures IsLogit(mask[j], Dot(q, keys[j]), scale, mask[j])
    {
      if scale != 0.0 {
        DotZeros(q, keys[j]);
      }
    }
    RowLaw(sm, scale, q, keys, values, mask, mask, d);
  }

  /** Without a mask and with one entry everywhere, the logit is the scaled product. */
  lemma OneEntryRow(sm: RowFn, scale: real, q: real, k: real, v: real, logit: real)
    requires logit == q * k * scale
    ensures IsMat([[k]], 1, 1) && IsMat([[v]], 1, 1)
    ensures AttendRow(sm, scale, [q], [[k]], [[v]], [0.0]) == [ApplyRow(sm, [logit])[0] * v]
  {
    DotSingle(q, k);
    RowLaw(sm, scale, [q], [[k]], [[v]], [0.0], [logit], 0);
    WeighSingle(ApplyRow(sm, [logit]), v);
    var r := AttendRow(sm, scale, [q], [[k]], [[v]], [0.0]);
    assert |r| == 1 && r[0] == ApplyRow(sm, [logit])[0] * v;
  }

  lemma {:induction false} WeighSingle(p: Vec, v: real)
    requires |p| == 1
    ensures Dot(p, Column([[v]], 0)) == p[0] * v
  {
    assert p == [p[0]] && Column([[v]], 0) == [v];
    DotSingle(p[0], v);
  }

  lemma DotSingle(a: real, b: real)
    ensures Dot([a], [b]) == a * b
  {
    assert [a][1..] == [] && [b][1..] == [];
  }

  // ---- A whole prediction ----

  /** Query head `h` reads the state rows of KV head `h / groups` and then its noise rows, under row `i` of the mask. */
  lemma OutputLaw(sm: RowFn, scale: real, s: Shape, st: State, x: Inputs, h: nat, i: nat, d: nat, logits: Vec)
    requires s.groups > 0 && st.Fits(s) && x.Fits(s, |x.attentionMask|)
    requires h < s.kvHeads * s.groups && i < |x.attentionMask| && d < s.headDim
    requires h / s.groups < s.kvHeads && |logits| == s.maxContext + s.block
    requires var keys := st.keys[h / s.groups] + x.noiseKey[h / s.groups];
             forall j :: 0 <= j < |logits| ==>
               IsLogit(logits[j], Dot(x.query[h][i], keys[j]), scale, x.attentionMask[i][j])
    ensures var values := st.values[h / s.groups] + x.noiseValue[h / s.groups];
            Output(sm, scale, s, st, x)[h][i][d] == Dot(ApplyRow(sm, logits), Column(values, d))
  {
    var g := h / s.groups;
    var keys, values := st.keys[g] + x.noiseKey[g], st.values[g] + x.noiseValue[g];
    RowLaw(sm, scale, x.query[h][i], keys, values, x.attentionMask[i], logits, d);
    assert Output(sm, scale, s, st, x)[h][i] == AttendRow(sm, scale, x.query[h][i], keys, values, x.attentionMask[i]);
  }

  /** A query row of zeros, or a zero scale, gives the values weighed by the mask alone. */
  lemma ZeroQueryOutput(sm: RowFn, scale: real, s: Shape, st: State, x: Inputs, h: nat, i: nat, d: nat)
    requires s.groups > 0 && st.Fits(s) && x.Fits(s, |x.attentionMask|)
    requires h < s.kvHeads * s.groups && i < |x.attentionMask| && d < s.headDim && h / s.groups < s.kvHeads
    requires scale == 0.0 || forall k :: 0 <= k < s.headDim ==> x.query[h][i][k] == 0.0
    ensures var values := st.values[h / s.groups] + x.noiseValue[h / s.groups];
            Output(sm, scale, s, st, x)[h][i][d] == Dot(ApplyRow(sm, x.attentionMask[i]), Column(values, d))
  {
    var g := h / s.groups;
    var keys, values := st.keys[g] + x.noiseKey[g], st.values[g] + x.noiseValue[g];
    ZeroQueryRow(sm, scale, x.query[h][i], keys, values, x.attentionMask[i], d);
    assert Output(sm, scale, s, st, x)[h][i] == AttendRow(sm, scale, x.query[h][i], keys, values, x.attentionMask[i]);
  }

  /** With one head, one state row, no noise row and no mask, the logit of a prediction is the scaled product. */
  lemma OneEntryOutput(sm: RowFn, scale: real, q: real, k: real, v: real, logit: real, s: Shape, st: State,
                       x: Inputs)
    requires logit == q * k * scale
    requires s == Shape(1, 1, 1, 1, 0) && st == State([[[k]]], [[[v]]])
    requires x == Inputs([[[q]]], [[]], [[]], [[]], [[]], [[0.0]], [[]])
    ensures st.Fits(s) && x.Fits(s, 1) && Output(sm, scale, s, st, x)[0][0] == [ApplyRow(sm, [logit])[0] * v]
  {
    OneEntryRow(sm, scale, q, k, v, logit);
    var noRows: Mat := [];
    assert [[k]] + noRows == [[k]] && [[v]] + noRows == [[v]];
    assert KvHead(0, 1, 1) == 0;
    assert Output(sm, scale, s, st, x)[0][0] == AttendRow(sm, scale, [q], [[k]], [[v]], [0.0]);
  }

  // ---- The state write ----

  /** Every entry of a KV head is kept by one less the sum of its slot's mask row, plus the masked targets. */
  lemma WriteLaw(s: Shape, st: State, key: Heads, value: Heads, mask: Mat, h: nat, c: nat, d: nat, keep: real)
    requires st.Fits(s) && IsHeads(key, s.kvHeads, s.block, s.headDim) && IsHeads(value, s.kvHeads, s.block, s.headDim)
    requires IsMat(mask, s.maxContext, s.block) && h < s.kvHeads && c < s.maxContext && d < s.headDim
    requires keep + Sum(mask[c]) == 1.0
    ensures var next := NextState(s, st, key, value, mask);
            && next.keys[h][c][d] == st.keys[h][c][d] * keep + Dot(mask[c], Column(key[h], d))
            && next.values[h][c][d] == st.values[h][c][d] * keep + Dot(mask[c], Column(value[h], d))
  {
    assert keep == 1.0 - Sum(mask[c]);
  }
}
