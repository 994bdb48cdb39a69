/** Whole runs of the stateful attention module: configuration parity, sliced serving of one block,
    and the last-writer-wins meaning of the masked state write. */
module AttentionRuns {
  import opened Wrappers
  import opened Arithmetic
  import opened Tensors
  import opened AttentionSpec
  import opened StatefulAttention

  // ---- Runs and configuration parity ----

  ghost predicate Serves(m: Module, xs: seq<Inputs>)
    reads m
  {
    m.Valid() && forall i :: 0 <= i < |xs| ==> xs[i].Fits(m.cfg.shape, m.cfg.querySize)
  }

  /** A run of predictions against the persistent buffers. */
  method Predict(m: Module, sm: RowFn, scale: real, xs: seq<Inputs>) returns (outs: seq<Heads>)
    requires Serves(m, xs)
    modifies m`kState, m`vState
    ensures Serves(m, xs) && AllFit(m.cfg.shape, xs) && old(m.Joined()).Fits(m.cfg.shape)
    ensures m.Joined() == Run(m.cfg.shape, old(m.Joined()), xs)
    ensures outs == RunOutputs(sm, scale, m.cfg.shape, old(m.Joined()), xs)
  {
    m.JoinedFits();
    ghost var s, start := m.cfg.shape, m.Joined();
    ghost var meaning := RunOutputs(sm, scale, s, start, xs);
    outs := [];
    for i := 0 to |xs|
      invariant Serves(m, xs)
      invariant m.Joined() == Run(s, start, xs[..i])
      invariant outs == meaning[..i]
    {
      var out := m.Forward(sm, scale, xs[i]);
      assert xs[..i + 1][..i] == xs[..i];
      outs := outs + [out];
    }
    assert xs[..|xs|] == xs;
  }

  /** Two modules of the same shape, in any two accepted configurations, started from the same joined state, give the
      same outputs over every run and finish in the same joined state. */
  method Parity(a: Module, b: Module, sm: RowFn, scale: real, xs: seq<Inputs>)
    returns (outA: seq<Heads>, outB: seq<Heads>)
    requires a != b && a.cfg.shape == b.cfg.shape && Serves(a, xs) && Serves(b, xs) && a.Joined() == b.Joined()
    modifies a`kState, a`vState, b`kState, b`vState
    ensures Serves(a, xs) && Serves(b, xs)
    ensures outA == outB && a.Joined() == b.Joined()
  {
    outA := Predict(a, sm, scale, xs);
    outB := Predict(b, sm, scale, xs);
  }

  // ---- Serving one block in query slices ----

  function ZeroMask(rows: nat, cols: nat): (r: Mat)
    ensures IsMat(r, rows, cols)
  {
    seq(rows, c => Zeros(cols))
  }

  /** The inputs of the sliced prediction for query rows `lo..hi`; only the first call carries the write mask. */
  function SliceInputs(x: Inputs, lo: nat, hi: nat, block: nat): Inputs
    requires lo <= hi <= |x.attentionMask| && forall h :: 0 <= h < |x.query| ==> |x.query[h]| == |x.attentionMask|
  {
    x.(query := RowSlice(x.query, lo, hi), attentionMask := x.attentionMask[lo..hi],
       writeMask := if lo == 0 then x.writeMask else ZeroMask(|x.writeMask|, block))
  }

  lemma ZeroMaskKeeps(s: Shape, st: State, key: Heads, value: Heads)
    requires st.Fits(s) && IsHeads(key, s.kvHeads, s.block, s.headDim) && IsHeads(value, s.kvHeads, s.block, s.headDim)
    ensures NextState(s, st, key, value, ZeroMask(s.maxContext, s.block)) == st
  {
    var next := NextState(s, st, key, value, ZeroMask(s.maxContext, s.block));
    ZeroMaskKeepsHeads(s, st.keys, key);
    ZeroMaskKeepsHeads(s, st.values, value);
  }

  lemma ZeroMaskKeepsHeads(s: Shape, state: Heads, target: Heads)
    requires IsHeads(state, s.kvHeads, s.maxContext, s.headDim) && IsHeads(target, s.kvHeads, s.block, s.headDim)
    ensures WriteHeads(state, target, ZeroMask(s.maxContext, s.block), s.block, s.headDim) == state
  {
    var mask := ZeroMask(s.maxContext, s.block);
    forall h | 0 <= h < s.kvHeads
      ensures WriteHead(state[h], target[h], mask, s.headDim) == state[h]
    {
      forall c | 0 <= c < s.maxContext
        ensures WriteHead(state[h], target[h], mask, s.headDim)[c] == state[h][c]
      {
        SumZeros(mask[c]);
        forall d | 0 <= d < s.headDim
          ensures WriteEntry(state[h][c][d], mask[c], Column(target[h], d)) == state[h][c][d]
        {
          DotZeros(mask[c], Column(target[h], d));
        }
      }
    }
  }

  /** Query rows are independent of one another. */
  lemma OutputOfSlice(sm: RowFn, scale: real, s: Shape, st: State, x: Inputs, lo: nat, hi: nat)
    requires s.groups > 0 && st.Fits(s) && x.Fits(s, |x.attentionMask|) && lo <= hi <= |x.attentionMask|
    ensures SliceInputs(x, lo, hi, s.block).Fits(s, hi - lo)
    ensures Output(sm, scale, s, st, SliceInputs(x, lo, hi, s.block)) == RowSlice(Output(sm, scale, s, st, x), lo, hi)
  {
    var group := Group(x.query, st.keys, st.values, x.noiseKey, x.noiseValue);
    MeaningOfSlice(sm, scale, s, group, x.attentionMask, lo, hi);
  }

  /** Serving a full-width block as consecutive sliced predictions gives the output and the state of one full-width
      prediction. */
  method ServeSliced(m: Module, sm: RowFn, scale: real, x: Inputs) returns (out: Heads)
    requires m.Valid() && m.cfg.querySize > 0 && |x.attentionMask| % m.cfg.querySize == 0 && |x.attentionMask| > 0
    requires x.Fits(m.cfg.shape, |x.attentionMask|)
    modifies m`kState, m`vState
    ensures m.Valid() && old(m.Joined()).Fits(m.cfg.shape)
    ensures m.Joined() == Step(m.cfg.shape, old(m.Joined()), x)
    ensures out == Output(sm, scale, m.cfg.shape, m.Joined(), x)
  {
    var s, size, rows := m.cfg.shape, m.cfg.querySize, |x.attentionMask|;
    m.JoinedFits();
    GroupsCover(rows, size);
    ghost var after := Step(s, m.Joined(), x);
    ghost var meaning := Output(sm, scale, s, after, x);
    out := seq(|x.query|, h => []);
    for i := 0 to rows / size
      invariant m.Valid() && i * size <= rows
      invariant m.Joined() == if i == 0 then old(m.Joined()) else after
      invariant out == RowSlice(meaning, 0, i * size)
    {
      MulLe(i + 1, rows / size, size);
      var part := ServeSlice(m, sm, scale, x, i * size, after);
      RowCatSlices(meaning, i * size, (i + 1) * size, rows, s.headDim);
      out := RowCat(out, part);
    }
    RowCatSlices(meaning, 0, rows, rows, s.headDim);
  }

  method ServeSlice(m: Module, sm: RowFn, scale: real, x: Inputs, lo: nat, ghost after: State) returns (part: Heads)
    requires m.Valid() && lo + m.cfg.querySize <= |x.attentionMask|
    requires x.Fits(m.cfg.shape, |x.attentionMask|) && after.Fits(m.cfg.shape) && m.Joined().Fits(m.cfg.shape)
    requires if lo == 0 then after == Step(m.cfg.shape, m.Joined(), x) else m.Joined() == after
    modifies m`kState, m`vState
    ensures m.Valid() && m.Joined() == after
    ensures part == RowSlice(Output(sm, scale, m.cfg.shape, after, x), lo, lo + m.cfg.querySize)
  {
    var s, hi := m.cfg.shape, lo + m.cfg.querySize;
    OutputOfSlice(sm, scale, s, after, x, lo, hi);
    ZeroMaskKeeps(s, after, x.targetKey, x.targetValue);
    part := m.Forward(sm, scale, SliceInputs(x, lo, hi, s.block));
  }

  // ---- The masked write is a last-writer-wins array ----

  /** No write, or exactly one block row written to the slot. */
  ghost predicate ZeroOrOneHot(row: Vec) {
    || (forall j :: 0 <= j < |row| ==> row[j] == 0.0)
    || (exists k :: OneHotAt(row, k))
  }

  ghost predicate OneHotAt(row: Vec, k: nat) {
    k < |row| && row[k] == 1.0 && forall j :: 0 <= j < |row| && j != k ==> row[j] == 0.0
  }

  /** The block row a mask row writes, if any. */
  function Writer(row: Vec): (w: Option<nat>)
    ensures w.Some? ==> w.value < |row| && row[w.value] == 1.0
    ensures w.None? ==> forall j :: 0 <= j < |row| ==> row[j] != 1.0
  {
    if |row| == 0 then None
    else if row[|row| - 1] == 1.0 then Some(|row| - 1)
    else Writer(row[..|row| - 1])
  }

  /** The last prediction of the run to write slot `c`, with the block row it wrote. */
  function LastWrite(xs: seq<Inputs>, c: nat): (w: Option<(nat, nat)>)
    requires forall i :: 0 <= i < |xs| ==> c < |xs[i].writeMask|
    ensures w.Some? ==>
              && w.value.0 < |xs| && w.value.1 < |xs[w.value.0].writeMask[c]|
              && xs[w.value.0].writeMask[c][w.value.1] == 1.0
              && forall i :: w.value.0 < i < |xs| ==> Writer(xs[i].writeMask[c]).None?
    ensures w.None? ==> forall i :: 0 <= i < |xs| ==> Writer(xs[i].writeMask[c]).None?
  {
    if |xs| == 0 then None
    else
      var last := |xs| - 1;
      match Writer(xs[last].writeMask[c])
      case Some(t) => Some((last, t))
      case None => LastWrite(xs[..last], c)
  }

  lemma {:induction false} WriteEntryOverwrites(held: real, row: Vec, target: Vec)
    requires |row| == |target| && ZeroOrOneHot(row)
    ensures WriteEntry(held, row, target) == match Writer(row) case Some(t) => target[t] case None => held
  {
    if exists k :: OneHotAt(row, k) {
      var k :| OneHotAt(row, k);
      DotOneHot(row, target, k);
    } else {
      DotZeros(row, target);
      SumZeros(row);
    }
  }

  lemma StepOverwrites(s: Shape, st: State, x: Inputs, h: nat, c: nat)
    requires st.Fits(s) && x.Fits(s, |x.attentionMask|) && h < s.kvHeads && c < s.maxContext
    requires ZeroOrOneHot(x.writeMask[c])
    ensures Step(s, st, x).keys[h][c]
            == match Writer(x.writeMask[c]) case Some(t) => x.targetKey[h][t] case None => st.keys[h][c]
    ensures Step(s, st, x).values[h][c]
            == match Writer(x.writeMask[c]) case Some(t) => x.targetValue[h][t] case None => st.values[h][c]
  {
    WriteHeadOverwrites(st.keys[h], x.targetKey[h], x.writeMask, s.headDim, c);
    WriteHeadOverwrites(st.values[h], x.targetValue[h], x.writeMask, s.headDim, c);
  }

  lemma WriteHeadOverwrites(state: Mat, target: Mat, mask: Mat, dim: nat, c: nat)
    requires IsMat(state, |state|, dim) && IsMat(target, |target|, dim) && IsMat(mask, |state|, |target|)
    requires c < |state| && ZeroOrOneHot(mask[c])
    ensures WriteHead(state, target, mask, dim)[c]
            == match Writer(mask[c]) case Some(t) => target[t] case None => state[c]
  {
    forall d | 0 <= d < dim
      ensures WriteEntry(state[c][d], mask[c], Column(target, d))
              == match Writer(mask[c]) case Some(t) => target[t][d] case None => state[c][d]
    {
      WriteEntryOverwrites(state[c][d], mask[c], Column(target, d));
    }
  }

  /** Over every run, each slot holds the row of the last prediction that wrote it, or its initial row. */
  lemma {:induction false} LastWriterWins(s: Shape, st: State, xs: seq<Inputs>, h: nat, c: nat)
    requires st.Fits(s) && AllFit(s, xs) && h < s.kvHeads && c < s.maxContext
    requires forall i :: 0 <= i < |xs| ==> ZeroOrOneHot(xs[i].writeMask[c])
    ensures Run(s, st, xs).keys[h][c]
            == match LastWrite(xs, c) case Some(w) => xs[w.0].targetKey[h][w.1] case None => st.keys[h][c]
    ensures Run(s, st, xs).values[h][c]
            == match LastWrite(xs, c) case Some(w) => xs[w.0].targetValue[h][w.1] case None => st.values[h][c]
  {
    if |xs| > 0 {
      var last := |xs| - 1;
      LastWriterWins(s, st, xs[..last], h, c);
      StepOverwrites(s, Run(s, st, xs[..last]), xs[last], h, c);
    }
  }

  /** A mask row behaves as a plain overwrite (or as no write) for every held value and every target exactly when it is
      zero or one-hot; in particular two writers of one slot are not an overwrite. */
  ghost predicate ActsAsOverwrite(row: Vec) {
    || (forall held, target: Vec :: |target| == |row| ==> WriteEntry(held, row, target) == held)
    || (exists k :: 0 <= k < |row| && OverwritesWith(row, k))
  }

  ghost predicate OverwritesWith(row: Vec, k: nat)
    requires k < |row|
  {
    forall held, target: Vec :: |target| == |row| ==> WriteEntry(held, row, target) == target[k]
  }

  function Unit(n: nat, k: nat): (u: Vec)
    ensures |u| == n
  {
    seq(n, i => if i == k then 1.0 else 0.0)
  }

  lemma OverwriteExactly(row: Vec)
    ensures ActsAsOverwrite(row) <==> ZeroOrOneHot(row)
  {
    forall j | 0 <= j < |row|
      ensures WriteEntry(0.0, row, Unit(|row|, j)) == row[j]
    {
      DotCommutes(row, Unit(|row|, j));
      DotOneHot(Unit(|row|, j), row, j);
    }
    if k :| 0 <= k < |row| && OverwritesWith(row, k) {
      assert forall j :: 0 <= j < |row| ==> row[j] == Unit(|row|, j)[k];
      assert OneHotAt(row, k);
    }
    if ZeroOrOneHot(row) {
      forall held, target: Vec | |target| == |row| {
        WriteEntryOverwrites(held, row, target);
      }
      match Writer(row)
      case Some(k) => assert OverwritesWith(row, k);
      case None =>
    }
  }
}
