/** The sharded layer tail: an output projection, residual, normalisation and gated FFN whose intermediate axis is cut
    into a head program and continuations. Normalisation and the SiLU gate are arbitrary functions. */
module TailMeaning {
  import opened Tensors
  import opened ShardPlan
  import opened ShardMeaning

  datatype TailWeights = TailWeights(o: Mat, gate: Mat, up: Mat, down: Mat) {
    ghost predicate Fits(hidden: nat, attention: nat, intermediate: nat) {
      && IsMat(o, hidden, attention) && IsMat(gate, intermediate, hidden) && IsMat(up, intermediate, hidden)
      && IsMat(down, hidden, intermediate)
    }
  }

  /** `silu(gate) * up` */
  function Activate(silu: real -> real, gate: Vec, up: Vec): (r: Vec)
    requires |gate| == |up|
    ensures |r| == |gate|
  {
    seq(|gate|, i requires 0 <= i < |gate| => silu(gate[i]) * up[i])
  }

  /** The program of a continuation, and of the whole FFN when it is not cut. */
  function Ffn(silu: real -> real, gate: Mat, up: Mat, down: Mat, x: Vec): (r: Vec)
    requires IsMat(gate, |gate|, |x|) && IsMat(up, |gate|, |x|) && IsMat(down, |x|, |gate|)
    ensures |r| == |x|
  {
    MatVec(down, Activate(silu, MatVec(gate, x), MatVec(up, x)))
  }

  /** A shard's gate and up rows and down columns. */
  function FfnSlice(silu: real -> real, w: TailWeights, lo: nat, hi: nat, x: Vec): (r: Vec)
    requires lo <= hi <= |w.gate| && IsMat(w.gate, |w.gate|, |x|) && IsMat(w.up, |w.gate|, |x|)
    requires IsMat(w.down, |x|, |w.gate|)
    ensures |r| == |x|
  {
    Ffn(silu, w.gate[lo..hi], w.up[lo..hi], ColSlice(w.down, lo, hi, |w.gate|), x)
  }

  /** A shard contracts exactly its part of the whole activation. */
  lemma FfnSliceEntry(silu: real -> real, w: TailWeights, lo: nat, hi: nat, x: Vec, r: nat)
    requires lo <= hi <= |w.gate| && IsMat(w.gate, |w.gate|, |x|) && IsMat(w.up, |w.gate|, |x|)
    requires IsMat(w.down, |x|, |w.gate|)
    requires r < |x|
    ensures FfnSlice(silu, w, lo, hi, x)[r]
            == Dot(w.down[r][lo..hi], Activate(silu, MatVec(w.gate, x), MatVec(w.up, x))[lo..hi])
  {
    assert MatVec(w.gate[lo..hi], x) == MatVec(w.gate, x)[lo..hi] && MatVec(w.up[lo..hi], x) == MatVec(w.up, x)[lo..hi];
    ActivateSlice(silu, MatVec(w.gate, x), MatVec(w.up, x), lo, hi);
  }

  lemma ActivateSlice(silu: real -> real, gate: Vec, up: Vec, lo: nat, hi: nat)
    requires |gate| == |up| && lo <= hi <= |gate|
    ensures Activate(silu, gate[lo..hi], up[lo..hi]) == Activate(silu, gate, up)[lo..hi]
  {
    var part, whole := Activate(silu, gate[lo..hi], up[lo..hi]), Activate(silu, gate, up);
    forall i | 0 <= i < hi - lo
      ensures part[i] == whole[lo..hi][i]
    {
      assert part[i] == silu(gate[lo + i]) * up[lo + i];
    }
  }

  // ---- The DFlash tail ----

  function PostAttention(w: TailWeights, input: Vec, attention: nat, hidden: nat): (r: Vec)
    requires |input| == attention + hidden && IsMat(w.o, hidden, attention)
    ensures |r| == hidden
  {
    VecAdd(input[attention..], MatVec(w.o, input[..attention]))
  }

  /** The head program: `base` and `normed` on the channel axis. */
  function HeadProgram(norm: RowFn, silu: real -> real, w: TailWeights, width: nat, input: Vec, attention: nat,
                       hidden: nat): (r: Vec)
    requires |input| == attention + hidden && width <= |w.gate| && w.Fits(hidden, attention, |w.gate|)
    ensures |r| == hidden + hidden
  {
    var post := PostAttention(w, input, attention, hidden);
    var normed := ApplyRow(norm, post);
    VecAdd(post, FfnSlice(silu, w, 0, width, normed)) + normed
  }

  /** The runtime: the head's `base`, plus every continuation applied to the head's `normed`. */
  ghost function RunTail(norm: RowFn, silu: real -> real, w: TailWeights, shards: seq<TailFragment>, input: Vec,
                         attention: nat, hidden: nat): (r: Vec)
    requires |shards| > 0 && |input| == attention + hidden && w.Fits(hidden, attention, |w.gate|)
    requires forall i :: 0 <= i < |shards| ==> shards[i].offset + shards[i].width <= |w.gate|
    ensures |r| == hidden
  {
    var last := shards[|shards| - 1];
    var head := HeadProgram(norm, silu, w, shards[0].width, input, attention, hidden);
    if |shards| == 1 then head[..hidden]
    else VecAdd(RunTail(norm, silu, w, shards[..|shards| - 1], input, attention, hidden),
                FfnSlice(silu, w, last.offset, last.offset + last.width, head[hidden..]))
  }

  /** The layer tail without shards. */
  function TailReference(norm: RowFn, silu: real -> real, w: TailWeights, input: Vec, attention: nat,
                         hidden: nat): (r: Vec)
    requires |input| == attention + hidden && w.Fits(hidden, attention, |w.gate|)
  {
    var post := PostAttention(w, input, attention, hidden);
    VecAdd(post, Ffn(silu, w.gate, w.up, w.down, ApplyRow(norm, post)))
  }

  lemma {:induction false} TilesInBounds(shards: seq<TailFragment>, g: Geometry, l: nat, end: nat)
    requires TailTiles(shards, g, l, end)
    ensures forall i :: 0 <= i < |shards| ==> shards[i].offset + shards[i].width <= g(Gate(l)).output
    ensures |shards| > 0 ==> shards[0].offset == 0
  {
    if |shards| > 0 {
      TilesInBounds(shards[..|shards| - 1], g, l, shards[|shards| - 1].offset);
    }
  }

  /** Entry `r` of the tail when only the first `end` intermediate channels have been contracted. */
  ghost function Covered(norm: RowFn, silu: real -> real, w: TailWeights, input: Vec, attention: nat, hidden: nat,
                         end: nat, r: nat): real
    requires |input| == attention + hidden && w.Fits(hidden, attention, |w.gate|) && end <= |w.gate| && r < hidden
  {
    var post := PostAttention(w, input, attention, hidden);
    var normed := ApplyRow(norm, post);
    post[r] + Dot(w.down[r][..end], Activate(silu, MatVec(w.gate, normed), MatVec(w.up, normed))[..end])
  }

  lemma CoveredExtends(norm: RowFn, silu: real -> real, w: TailWeights, input: Vec, attention: nat, hidden: nat,
                       lo: nat, hi: nat, r: nat)
    requires |input| == attention + hidden && w.Fits(hidden, attention, |w.gate|) && lo <= hi <= |w.gate| && r < hidden
    ensures var normed := ApplyRow(norm, PostAttention(w, input, attention, hidden));
            Covered(norm, silu, w, input, attention, hidden, hi, r)
            == Covered(norm, silu, w, input, attention, hidden, lo, r) + FfnSlice(silu, w, lo, hi, normed)[r]
  {
    var normed := ApplyRow(norm, PostAttention(w, input, attention, hidden));
    var activated := Activate(silu, MatVec(w.gate, normed), MatVec(w.up, normed));
    FfnSliceEntry(silu, w, lo, hi, normed, r);
    PrefixDot(w.down[r], activated, lo, hi);
  }

  lemma CoveredEnds(norm: RowFn, silu: real -> real, w: TailWeights, input: Vec, attention: nat, hidden: nat, r: nat)
    requires |input| == attention + hidden && w.Fits(hidden, attention, |w.gate|) && r < hidden
    ensures Covered(norm, silu, w, input, attention, hidden, 0, r) == PostAttention(w, input, attention, hidden)[r]
    ensures Covered(norm, silu, w, input, attention, hidden, |w.gate|, r)
            == TailReference(norm, silu, w, input, attention, hidden)[r]
  {
    var normed := ApplyRow(norm, PostAttention(w, input, attention, hidden));
    var activated := Activate(silu, MatVec(w.gate, normed), MatVec(w.up, normed));
    assert w.down[r][..|w.gate|] == w.down[r] && activated[..|w.gate|] == activated;
  }

  ghost predicate TailFits(w: TailWeights, shards: seq<TailFragment>, input: Vec, g: Geometry, l: nat) {
    && |w.gate| == g(Gate(l)).output && w.Fits(g(Gate(l)).input, g(O(l)).input, |w.gate|)
    && |input| == g(O(l)).input + g(Gate(l)).input
    && forall i :: 0 <= i < |shards| ==> shards[i].offset + shards[i].width <= |w.gate|
  }

  /** The two channel blocks of the head's output. */
  lemma HeadParts(norm: RowFn, silu: real -> real, w: TailWeights, width: nat, input: Vec, attention: nat, hidden: nat)
    requires |input| == attention + hidden && width <= |w.gate| && w.Fits(hidden, attention, |w.gate|)
    ensures var post := PostAttention(w, input, attention, hidden);
            var head := HeadProgram(norm, silu, w, width, input, attention, hidden);
            && head[..hidden] == VecAdd(post, FfnSlice(silu, w, 0, width, ApplyRow(norm, post)))
            && head[hidden..] == ApplyRow(norm, post)
  {
  }

  /** After any prefix of the shards, the running result covers exactly the channels of that prefix. */
  lemma {:induction false} TailPrefix(norm: RowFn, silu: real -> real, w: TailWeights, shards: seq<TailFragment>,
                                      input: Vec, g: Geometry, l: nat, end: nat, r: nat)
    requires |shards| > 0 && TailTiles(shards, g, l, end) && TailFits(w, shards, input, g, l)
    requires r < g(Gate(l)).input && end <= |w.gate|
    ensures RunTail(norm, silu, w, shards, input, g(O(l)).input, g(Gate(l)).input)[r]
            == Covered(norm, silu, w, input, g(O(l)).input, g(Gate(l)).input, end, r)
  {
    var attention, hidden := g(O(l)).input, g(Gate(l)).input;
    var last, front := shards[|shards| - 1], shards[..|shards| - 1];
    CoveredExtends(norm, silu, w, input, attention, hidden, last.offset, end, r);
    RunTailEntry(norm, silu, w, shards, input, attention, hidden, r);
    if |shards| == 1 {
      assert front == [];
      CoveredEnds(norm, silu, w, input, attention, hidden, r);
    } else {
      TailPrefix(norm, silu, w, front, input, g, l, last.offset, r);
    }
  }

  /** One more shard adds its slice of the FFN to an entry. */
  lemma {:induction false} RunTailEntry(norm: RowFn, silu: real -> real, w: TailWeights, shards: seq<TailFragment>,
                                        input: Vec, attention: nat, hidden: nat, r: nat)
    requires |shards| > 0 && |input| == attention + hidden && w.Fits(hidden, attention, |w.gate|) && r < hidden
    requires forall i :: 0 <= i < |shards| ==> shards[i].offset + shards[i].width <= |w.gate|
    ensures var post, last := PostAttention(w, input, attention, hidden), shards[|shards| - 1];
            var normed := ApplyRow(norm, post);
            RunTail(norm, silu, w, shards, input, attention, hidden)[r]
            == if |shards| == 1 then post[r] + FfnSlice(silu, w, 0, last.width, normed)[r]
               else RunTail(norm, silu, w, shards[..|shards| - 1], input, attention, hidden)[r]
                    + FfnSlice(silu, w, last.offset, last.offset + last.width, normed)[r]
  {
    HeadParts(norm, silu, w, shards[0].width, input, attention, hidden);
  }

  /** For every planned layer, running the head and its continuations computes the unsharded tail. */
  lemma {:induction false} TailRecovered(norm: RowFn, silu: real -> real, w: TailWeights, shards: seq<TailFragment>,
                                         input: Vec, g: Geometry, l: nat)
    requires |shards| > 0 && TailTiles(shards, g, l, g(Gate(l)).output) && |w.gate| == g(Gate(l)).output
    requires |input| == g(O(l)).input + g(Gate(l)).input && w.Fits(g(Gate(l)).input, g(O(l)).input, |w.gate|)
    ensures TailFits(w, shards, input, g, l)
    ensures RunTail(norm, silu, w, shards, input, g(O(l)).input, g(Gate(l)).input)
            == TailReference(norm, silu, w, input, g(O(l)).input, g(Gate(l)).input)
  {
    TilesInBounds(shards, g, l, |w.gate|);
    forall r | 0 <= r < g(Gate(l)).input
      ensures RunTail(norm, silu, w, shards, input, g(O(l)).input, g(Gate(l)).input)[r]
              == TailReference(norm, silu, w, input, g(O(l)).input, g(Gate(l)).input)[r]
    {
      TailPrefix(norm, silu, w, shards, input, g, l, |w.gate|, r);
      CoveredEnds(norm, silu, w, input, g(O(l)).input, g(Gate(l)).input, r);
    }
  }

  // ---- The Muse target split ----

  /** The target head: `ffn_input`, `normed` and the partial FFN on the channel axis. The projected attention is
      normalised before it joins the residual. */
  function TargetHead(postNorm: RowFn, ffnNorm: RowFn, silu: real -> real, w: TailWeights, cut: nat, input: Vec,
                      attention: nat, hidden: nat): (r: Vec)
    requires |input| == attention + hidden && cut <= |w.gate| && w.Fits(hidden, attention, |w.gate|)
    ensures |r| == hidden + hidden + hidden
  {
    var ffnInput := TargetFfnInput(postNorm, w, input, attention, hidden);
    var normed := ApplyRow(ffnNorm, ffnInput);
    ffnInput + normed + FfnSlice(silu, w, 0, cut, normed)
  }

  function TargetFfnInput(postNorm: RowFn, w: TailWeights, input: Vec, attention: nat, hidden: nat): (r: Vec)
    requires |input| == attention + hidden && IsMat(w.o, hidden, attention)
    ensures |r| == hidden
  {
    VecAdd(input[attention..], ApplyRow(postNorm, MatVec(w.o, input[..attention])))
  }

  /** The head's partial plus the continuation on the head's `normed` is the unsplit target FFN, for every cut. */
  lemma TargetSplitRecovered(postNorm: RowFn, ffnNorm: RowFn, silu: real -> real, w: TailWeights, cut: nat, input: Vec,
                             attention: nat, hidden: nat)
    requires |input| == attention + hidden && cut <= |w.gate| && w.Fits(hidden, attention, |w.gate|)
    ensures var head := TargetHead(postNorm, ffnNorm, silu, w, cut, input, attention, hidden);
            var ffnInput, normed, partial := head[..hidden], head[hidden..hidden + hidden], head[hidden + hidden..];
            && ffnInput == TargetFfnInput(postNorm, w, input, attention, hidden)
            && normed == ApplyRow(ffnNorm, ffnInput)
            && VecAdd(partial, FfnSlice(silu, w, cut, |w.gate|, normed)) == Ffn(silu, w.gate, w.up, w.down, normed)
  {
    var head := TargetHead(postNorm, ffnNorm, silu, w, cut, input, attention, hidden);
    var normed, partial := head[hidden..hidden + hidden], head[hidden + hidden..];
    assert head[..hidden] == TargetFfnInput(postNorm, w, input, attention, hidden);
    assert normed == ApplyRow(ffnNorm, head[..hidden]);
    assert partial == FfnSlice(silu, w, 0, cut, normed);
    CutRecovered(silu, w, cut, normed);
  }

  lemma CutRecovered(silu: real -> real, w: TailWeights, cut: nat, x: Vec)
    requires cut <= |w.gate| && IsMat(w.gate, |w.gate|, |x|) && IsMat(w.up, |w.gate|, |x|)
    requires IsMat(w.down, |x|, |w.gate|)
    ensures VecAdd(FfnSlice(silu, w, 0, cut, x), FfnSlice(silu, w, cut, |w.gate|, x))
            == Ffn(silu, w.gate, w.up, w.down, x)
  {
    var activated := Activate(silu, MatVec(w.gate, x), MatVec(w.up, x));
    forall r | 0 <= r < |x|
      ensures FfnSlice(silu, w, 0, cut, x)[r] + FfnSlice(silu, w, cut, |w.gate|, x)[r] == Dot(w.down[r], activated)
    {
      FfnSliceEntry(silu, w, 0, cut, x, r);
      FfnSliceEntry(silu, w, cut, |w.gate|, x, r);
      DotSplit(w.down[r], activated, cut);
      assert w.down[r][0..cut] == w.down[r][..cut] && activated[0..cut] == activated[..cut];
      assert w.down[r][cut..|w.gate|] == w.down[r][cut..] && activated[cut..|w.gate|] == activated[cut..];
    }
  }
}
