/** The runtime-bundle DFlash layer: the stateful attention core fed by blended live or replayed K/V targets, emitting
    the attention together with the K/V bundle that a later replay consumes. */
module DFlashReplay {
  import opened Arithmetic
  import opened Tensors
  import opened AttentionSpec
  import opened StatefulAttention

  /** `front` holds the projected, normalised and rotated tensors together with the masks; `replayKey` and
      `replayValue` are channel-major K/V bundles. */
  datatype BundleInputs = BundleInputs(front: Inputs, replayKey: Mat, replayValue: Mat, replayMode: real)
  {
    ghost predicate Fits(s: Shape) {
      && front.Fits(s, |front.attentionMask|)
      && IsMat(replayKey, s.kvHeads * s.headDim, s.block) && IsMat(replayValue, s.kvHeads * s.headDim, s.block)
    }
  }

  // ---- Layouts ----

  function Transpose(m: Mat, cols: nat): (r: Mat)
    requires IsMat(m, |m|, cols)
    ensures IsMat(r, cols, |m|)
  {
    seq(cols, j requires 0 <= j < cols => Column(m, j))
  }

  /** `[C,T]` channels to `[H,T,D]` heads: transpose, cut every token row into heads, bring the heads outermost. */
  function AsHeads(m: Mat, heads: nat, dim: nat, tokens: nat): (r: Heads)
    requires IsMat(m, heads * dim, tokens)
    ensures IsHeads(r, heads, tokens, dim)
  {
    seq(heads, h requires 0 <= h < heads => HeadRows(Transpose(m, tokens), heads, dim, h))
  }

  function HeadRows(tokenRows: Mat, heads: nat, dim: nat, h: nat): (r: Mat)
    requires h < heads && IsMat(tokenRows, |tokenRows|, heads * dim)
    ensures IsMat(r, |tokenRows|, dim)
  {
    HeadSpan(heads, dim, h);
    seq(|tokenRows|, t requires 0 <= t < |tokenRows| => tokenRows[t][h * dim..h * dim + dim])
  }

  /** `[H,T,D]` heads to `[C,T]` channels: swap the last two axes of every head and merge heads into channels. */
  function Channels(t: Heads, rows: nat, dim: nat): (r: Mat)
    requires IsHeads(t, |t|, rows, dim)
    ensures IsMat(r, |t| * dim, rows)
  {
    var parts := seq(|t|, h requires 0 <= h < |t| => Transpose(t[h], dim));
    FlattenMats(parts, dim, rows);
    Flatten(parts)
  }

  lemma HeadSpan(heads: nat, dim: nat, h: nat)
    requires h < heads
    ensures h * dim + dim <= heads * dim
  {
    MulLe(h + 1, heads, dim);
  }

  lemma {:induction false} FlattenMats(parts: seq<Mat>, rows: nat, cols: nat)
    requires forall g :: 0 <= g < |parts| ==> IsMat(parts[g], rows, cols)
    ensures IsMat(Flatten(parts), |parts| * rows, cols)
  {
    FlattenLength(parts, rows);
    if |parts| > 0 {
      FlattenMats(parts[..|parts| - 1], rows, cols);
    }
  }

  lemma ChannelsOfHead(t: Heads, rows: nat, dim: nat, h: nat)
    requires IsHeads(t, |t|, rows, dim) && h < |t|
    ensures h * dim + dim <= |t| * dim
    ensures Channels(t, rows, dim)[h * dim..h * dim + dim] == Transpose(t[h], dim)
  {
    var parts := seq(|t|, h requires 0 <= h < |t| => Transpose(t[h], dim));
    FlattenParts(parts, dim, h);
  }

  /** Reading back an emitted bundle recovers the headed tensor. */
  lemma AsHeadsOfChannels(t: Heads, rows: nat, dim: nat)
    requires IsHeads(t, |t|, rows, dim)
    ensures AsHeads(Channels(t, rows, dim), |t|, dim, rows) == t
  {
    var m := Channels(t, rows, dim);
    forall h | 0 <= h < |t|
      ensures HeadRows(Transpose(m, rows), |t|, dim, h) == t[h]
    {
      ChannelsOfHead(t, rows, dim, h);
      HeadRowsOfTranspose(m, |t|, dim, rows, h, t[h]);
    }
  }

  lemma HeadRowsOfTranspose(m: Mat, heads: nat, dim: nat, tokens: nat, h: nat, head: Mat)
    requires h < heads && IsMat(m, heads * dim, tokens) && IsMat(head, tokens, dim)
    requires h * dim + dim <= heads * dim && m[h * dim..h * dim + dim] == Transpose(head, dim)
    ensures HeadRows(Transpose(m, tokens), heads, dim, h) == head
  {
    forall i | 0 <= i < tokens
      ensures Column(m, i)[h * dim..h * dim + dim] == head[i]
    {
      ColumnSlice(m, h * dim, h * dim + dim, i, tokens);
      ColumnOfTranspose(head, dim, i);
    }
  }

  lemma ColumnOfTranspose(m: Mat, cols: nat, i: nat)
    requires IsMat(m, |m|, cols) && i < |m|
    ensures Column(Transpose(m, cols), i) == m[i]
  {
  }

  /** Every channel-major bundle is the emission of its own headed reading. */
  lemma ChannelsOfAsHeads(m: Mat, heads: nat, dim: nat, tokens: nat)
    requires IsMat(m, heads * dim, tokens)
    ensures Channels(AsHeads(m, heads, dim, tokens), tokens, dim) == m
  {
    var t := AsHeads(m, heads, dim, tokens);
    forall c | 0 <= c < heads * dim
      ensures Channels(t, tokens, dim)[c] == m[c]
    {
      DivBound(c, heads, dim);
      ChannelOfAsHeads(m, heads, dim, tokens, c / dim, c % dim);
      assert c == c / dim * dim + c % dim;
    }
  }

  lemma ChannelOfAsHeads(m: Mat, heads: nat, dim: nat, tokens: nat, h: nat, d: nat)
    requires IsMat(m, heads * dim, tokens) && h < heads && d < dim
    ensures h * dim + dim <= heads * dim
    ensures Channels(AsHeads(m, heads, dim, tokens), tokens, dim)[h * dim + d] == m[h * dim + d]
  {
    var t := AsHeads(m, heads, dim, tokens);
    ChannelsOfHead(t, tokens, dim, h);
    assert Channels(t, tokens, dim)[h * dim + d] == Transpose(t[h], dim)[d];
    CutColumn(m, heads, dim, tokens, h, d);
  }

  lemma CutColumn(m: Mat, heads: nat, dim: nat, tokens: nat, h: nat, d: nat)
    requires IsMat(m, heads * dim, tokens) && h < heads && d < dim && h * dim + dim <= heads * dim
    ensures Column(HeadRows(Transpose(m, tokens), heads, dim, h), d) == m[h * dim + d]
  {
  }

  /** Channel `h * dim + d` holds entry `d` of head `h`, one column for each token. */
  lemma AsHeadsEntry(m: Mat, heads: nat, dim: nat, tokens: nat, h: nat, t: nat, d: nat)
    requires IsMat(m, heads * dim, tokens) && h < heads && t < tokens && d < dim
    ensures h * dim + d < heads * dim && AsHeads(m, heads, dim, tokens)[h][t][d] == m[h * dim + d][t]
  {
    HeadSpan(heads, dim, h);
    CutColumn(m, heads, dim, tokens, h, d);
    assert Column(AsHeads(m, heads, dim, tokens)[h], d)[t] == AsHeads(m, heads, dim, tokens)[h][t][d];
  }

  // ---- Blending and emission ----

  function BlendTarget(live: Mat, replay: Mat, mode: real, dim: nat): (r: Mat)
    requires IsMat(live, |live|, dim) && IsMat(replay, |live|, dim)
    ensures IsMat(r, |live|, dim)
  {
    seq(|live|, t requires 0 <= t < |live| =>
      seq(dim, d requires 0 <= d < dim => live[t][d] * (1.0 - mode) + replay[t][d] * mode))
  }

  function BlendTargets(live: Heads, replay: Mat, mode: real, block: nat, dim: nat): (r: Heads)
    requires IsHeads(live, |live|, block, dim) && IsMat(replay, |live| * dim, block)
    ensures IsHeads(r, |live|, block, dim)
  {
    var replayed := AsHeads(replay, |live|, dim, block);
    seq(|live|, h requires 0 <= h < |live| => BlendTarget(live[h], replayed[h], mode, dim))
  }

  /** The core inputs of a prediction, with the blended targets. */
  function Effective(s: Shape, x: BundleInputs): (r: Inputs)
    requires x.Fits(s)
    ensures r.Fits(s, |r.attentionMask|)
  {
    x.front.(targetKey := BlendTargets(x.front.targetKey, x.replayKey, x.replayMode, s.block, s.headDim),
             targetValue := BlendTargets(x.front.targetValue, x.replayValue, x.replayMode, s.block, s.headDim))
  }

  /** In live mode the layer uses its own targets, in replay mode the two bundles; nothing else changes. */
  lemma EffectiveLaw(s: Shape, x: BundleInputs)
    requires x.Fits(s)
    ensures x.replayMode == 0.0 ==> Effective(s, x) == x.front
    ensures x.replayMode == 1.0 ==>
              Effective(s, x) == x.front.(targetKey := AsHeads(x.replayKey, s.kvHeads, s.headDim, s.block),
                                          targetValue := AsHeads(x.replayValue, s.kvHeads, s.headDim, s.block))
  {
    ReplayModeSelects(x.front.targetKey, x.replayKey, s.block, s.headDim);
    ReplayModeSelects(x.front.targetValue, x.replayValue, s.block, s.headDim);
  }

  function EffectiveRun(s: Shape, xs: seq<BundleInputs>): (r: seq<Inputs>)
    requires forall i :: 0 <= i < |xs| ==> xs[i].Fits(s)
    ensures |r| == |xs| && AllFit(s, r)
  {
    seq(|xs|, i requires 0 <= i < |xs| => Effective(s, xs[i]))
  }

  /** What a prediction emits, given the attention it computed: attention, K bundle and V bundle on the channel axis. */
  function Emit(s: Shape, attention: Heads, x: BundleInputs): Mat
    requires x.Fits(s) && IsHeads(attention, |attention|, |x.front.attentionMask|, s.headDim)
  {
    var e := Effective(s, x);
    Channels(attention, |x.front.attentionMask|, s.headDim)
    + Channels(e.targetKey, s.block, s.headDim)
    + Channels(e.targetValue, s.block, s.headDim)
  }

  /** The blend moves from the live target to the replayed one by the mode. */
  lemma BlendLaw(live: Heads, replay: Mat, mode: real, block: nat, dim: nat, h: nat, t: nat, d: nat, replayed: real)
    requires IsHeads(live, |live|, block, dim) && IsMat(replay, |live| * dim, block)
    requires h < |live| && t < block && d < dim && replayed == AsHeads(replay, |live|, dim, block)[h][t][d]
    ensures BlendTargets(live, replay, mode, block, dim)[h][t][d] == live[h][t][d] + mode * (replayed - live[h][t][d])
  {
    Moved(live[h][t][d], replayed, mode);
  }

  lemma Moved(a: real, b: real, mode: real)
    ensures a * (1.0 - mode) + b * mode == a + mode * (b - a)
  {
  }

  /** With mode one the blend is the replayed bundle, whatever the live projection was. */
  lemma ReplayModeSelects(live: Heads, replay: Mat, block: nat, dim: nat)
    requires IsHeads(live, |live|, block, dim) && IsMat(replay, |live| * dim, block)
    ensures BlendTargets(live, replay, 1.0, block, dim) == AsHeads(replay, |live|, dim, block)
    ensures BlendTargets(live, replay, 0.0, block, dim) == live
  {
    var replayed := AsHeads(replay, |live|, dim, block);
    forall h, t | 0 <= h < |live| && 0 <= t < block
      ensures BlendTarget(live[h], replayed[h], 1.0, dim)[t] == replayed[h][t]
      ensures BlendTarget(live[h], replayed[h], 0.0, dim)[t] == live[h][t]
    {
    }
    forall h | 0 <= h < |live|
      ensures BlendTarget(live[h], replayed[h], 1.0, dim) == replayed[h]
      ensures BlendTarget(live[h], replayed[h], 0.0, dim) == live[h]
    {
    }
  }

  /** `y` replays what `x` emitted: same write mask, mode one, and the K and V bundles cut out of the emission behind
      its `qWidth` attention channels. Everything else about `y` is arbitrary. */
  ghost predicate Replays(qWidth: nat, kvWidth: nat, y: BundleInputs, x: BundleInputs, emitted: Mat) {
    && |emitted| == qWidth + kvWidth + kvWidth
    && y.replayMode == 1.0
    && y.front.writeMask == x.front.writeMask
    && y.replayKey == emitted[qWidth..qWidth + kvWidth]
    && y.replayValue == emitted[qWidth + kvWidth..]
  }

  lemma EmitCuts(s: Shape, attention: Heads, x: BundleInputs, qWidth: nat, kvWidth: nat)
    requires x.Fits(s) && IsHeads(attention, |attention|, |x.front.attentionMask|, s.headDim)
    requires qWidth == |attention| * s.headDim && kvWidth == s.kvHeads * s.headDim
    ensures |Emit(s, attention, x)| == qWidth + kvWidth + kvWidth
    ensures Emit(s, attention, x)[..qWidth] == Channels(attention, |x.front.attentionMask|, s.headDim)
    ensures Emit(s, attention, x)[qWidth..qWidth + kvWidth] == Channels(Effective(s, x).targetKey, s.block, s.headDim)
    ensures Emit(s, attention, x)[qWidth + kvWidth..] == Channels(Effective(s, x).targetValue, s.block, s.headDim)
  {
  }

  /** Replaying an emission reproduces the targets, hence the same state write and the same emission of K and V. */
  lemma ReplayRecovers(s: Shape, attention: Heads, x: BundleInputs, y: BundleInputs)
    requires x.Fits(s) && y.Fits(s) && IsHeads(attention, |attention|, |x.front.attentionMask|, s.headDim)
    requires Replays(|attention| * s.headDim, s.kvHeads * s.headDim, y, x, Emit(s, attention, x))
    ensures Effective(s, y).targetKey == Effective(s, x).targetKey
    ensures Effective(s, y).targetValue == Effective(s, x).targetValue
    ensures Effective(s, y).writeMask == Effective(s, x).writeMask
  {
    EmitCuts(s, attention, x, |attention| * s.headDim, s.kvHeads * s.headDim);
    var e := Effective(s, x);
    ReplayModeSelects(y.front.targetKey, y.replayKey, s.block, s.headDim);
    ReplayModeSelects(y.front.targetValue, y.replayValue, s.block, s.headDim);
    AsHeadsOfChannels(e.targetKey, s.block, s.headDim);
    AsHeadsOfChannels(e.targetValue, s.block, s.headDim);
  }

  /** The attention output of prediction `i` of a run. */
  ghost function AttentionAt(sm: RowFn, scale: real, s: Shape, st: State, xs: seq<BundleInputs>, i: nat): (r: Heads)
    requires s.groups > 0 && st.Fits(s) && i < |xs| && forall j :: 0 <= j < |xs| ==> xs[j].Fits(s)
    ensures IsHeads(r, s.kvHeads * s.groups, |xs[i].front.attentionMask|, s.headDim)
  {
    RunOutputs(sm, scale, s, st, EffectiveRun(s, xs))[i]
  }

  /** `ys` feeds the bundles emitted by the run `xs` back in order. */
  ghost predicate ReplaysRun(sm: RowFn, scale: real, s: Shape, st: State, xs: seq<BundleInputs>, ys: seq<BundleInputs>)
    requires s.groups > 0 && st.Fits(s) && forall i :: 0 <= i < |xs| ==> xs[i].Fits(s)
  {
    && |ys| == |xs|
    && forall i :: 0 <= i < |xs| ==>
         var attention := AttentionAt(sm, scale, s, st, xs, i);
         Replays(|attention| * s.headDim, s.kvHeads * s.headDim, ys[i], xs[i], Emit(s, attention, xs[i]))
  }

  lemma ReplayedTargets(sm: RowFn, scale: real, s: Shape, st: State, xs: seq<BundleInputs>, ys: seq<BundleInputs>,
                        i: nat)
    requires s.groups > 0 && st.Fits(s) && forall i :: 0 <= i < |xs| ==> xs[i].Fits(s)
    requires ReplaysRun(sm, scale, s, st, xs, ys) && i < |xs| && ys[i].Fits(s)
    ensures Effective(s, ys[i]).targetKey == Effective(s, xs[i]).targetKey
    ensures Effective(s, ys[i]).targetValue == Effective(s, xs[i]).targetValue
    ensures Effective(s, ys[i]).writeMask == Effective(s, xs[i]).writeMask
  {
    ReplayRecovers(s, AttentionAt(sm, scale, s, st, xs, i), xs[i], ys[i]);
  }

  /** Feeding the bundles emitted by a whole run back in order rebuilds the same K/V state at every step. */
  lemma {:induction false} ReplayRebuildsState(sm: RowFn, scale: real, s: Shape, st: State, xs: seq<BundleInputs>,
                                               ys: seq<BundleInputs>, n: nat)
    requires s.groups > 0 && st.Fits(s) && |ys| == |xs| && n <= |xs|
    requires forall i :: 0 <= i < |xs| ==> xs[i].Fits(s) && ys[i].Fits(s)
    requires ReplaysRun(sm, scale, s, st, xs, ys)
    ensures Run(s, st, EffectiveRun(s, ys)[..n]) == Run(s, st, EffectiveRun(s, xs)[..n])
  {
    var live, replayed := EffectiveRun(s, xs), EffectiveRun(s, ys);
    forall i | 0 <= i < |xs|
      ensures live[i].writeMask == replayed[i].writeMask
      ensures live[i].targetKey == replayed[i].targetKey && live[i].targetValue == replayed[i].targetValue
    {
      ReplayedTargets(sm, scale, s, st, xs, ys, i);
    }
    RunDependsOnWrites(s, st, live, replayed, n);
  }

  // ---- The layer ----

  /** One prediction of the layer against its own state buffers. */
  method Forward(core: Module, sm: RowFn, scale: real, x: BundleInputs) returns (emitted: Mat)
    requires core.Valid() && x.Fits(core.cfg.shape) && |x.front.attentionMask| == core.cfg.querySize
    modifies core`kState, core`vState
    ensures core.Valid() && old(core.Joined()).Fits(core.cfg.shape) && core.Joined().Fits(core.cfg.shape)
    ensures core.Joined() == Step(core.cfg.shape, old(core.Joined()), Effective(core.cfg.shape, x))
    ensures emitted
            == Emit(core.cfg.shape, Output(sm, scale, core.cfg.shape, core.Joined(), Effective(core.cfg.shape, x)), x)
  {
    var attention := core.Forward(sm, scale, Effective(core.cfg.shape, x));
    emitted := Emit(core.cfg.shape, attention, x);
  }

  /** Running a layer live while a second layer, of any configuration, replays its emissions with arbitrary other
      inputs keeps both states equal. */
  method ReplayBeside(live: Module, replayer: Module, sm: RowFn, scale: real, xs: seq<BundleInputs>,
                      others: seq<BundleInputs>)
    requires live != replayer && live.Valid() && replayer.Valid() && live.cfg.shape == replayer.cfg.shape
    requires live.Joined() == replayer.Joined() && |others| == |xs|
    requires forall i :: 0 <= i < |xs| ==>
              xs[i].Fits(live.cfg.shape) && |xs[i].front.attentionMask| == live.cfg.querySize
    requires forall i :: 0 <= i < |xs| ==>
              others[i].Fits(live.cfg.shape) && |others[i].front.attentionMask| == replayer.cfg.querySize
    modifies live`kState, live`vState, replayer`kState, replayer`vState
    ensures live.Valid() && replayer.Valid() && live.Joined() == replayer.Joined()
  {
    var s := live.cfg.shape;
    var q, kv := s.kvHeads * s.groups * s.headDim, s.kvHeads * s.headDim;
    for i := 0 to |xs|
      invariant live.Valid() && replayer.Valid() && live.Joined() == replayer.Joined()
    {
      var emitted := Forward(live, sm, scale, xs[i]);
      ghost var attention := Output(sm, scale, s, live.Joined(), Effective(s, xs[i]));
      EmitCuts(s, attention, xs[i], q, kv);
      var y := BundleInputs(others[i].front.(writeMask := xs[i].front.writeMask), emitted[q..q + kv],
                            emitted[q + kv..], 1.0);
      ReplayRecovers(s, attention, xs[i], y);
      var _ := Forward(replayer, sm, scale, y);
    }
  }
}
