/** What a layer tail computes, said without the functions that compute it: which projection is gated, where the
    residual enters, and what is normalised. */
module TailLaws {
  import opened Tensors
  import opened TailMeaning

  // ---- The gated FFN ----

  ghost predicate FfnShapes(gate: Mat, up: Mat, down: Mat, x: Vec) {
    IsMat(gate, |gate|, |x|) && IsMat(up, |gate|, |x|) && IsMat(down, |x|, |gate|)
  }

  /** The gate's projection goes through the activation and multiplies the other one. */
  ghost predicate IsActivated(act: Vec, silu: real -> real, gated: Vec, plain: Vec) {
    |act| == |gated| == |plain| && forall i :: 0 <= i < |act| ==> act[i] == silu(gated[i]) * plain[i]
  }

  lemma ActivateLaw(silu: real -> real, gated: Vec, plain: Vec, act: Vec)
    requires |gated| == |plain| && IsActivated(act, silu, gated, plain)
    ensures Activate(silu, gated, plain) == act
  {
    var computed := Activate(silu, gated, plain);
    forall i | 0 <= i < |act|
      ensures computed[i] == act[i]
    {
    }
  }

  lemma {:induction false} MatVecLaw(w: Mat, x: Vec, y: Vec)
    requires IsMat(w, |w|, |x|) && |y| == |w| && forall i :: 0 <= i < |w| ==> y[i] == Dot(w[i], x)
    ensures MatVec(w, x) == y
  {
  }

  lemma {:induction false} FfnLaw(silu: real -> real, gate: Mat, up: Mat, down: Mat, x: Vec, gated: Vec, plain: Vec,
                                  act: Vec, r: nat)
    requires FfnShapes(gate, up, down, x) && |gated| == |plain| == |gate| && r < |x|
    requires forall i :: 0 <= i < |gate| ==> gated[i] == Dot(gate[i], x)
    requires forall i :: 0 <= i < |gate| ==> plain[i] == Dot(up[i], x)
    requires IsActivated(act, silu, gated, plain)
    ensures Ffn(silu, gate, up, down, x)[r] == Dot(down[r], act)
  {
    MatVecLaw(gate, x, gated);
    MatVecLaw(up, x, plain);
    FfnOfActivated(silu, gate, up, down, x, gated, plain, act, r);
  }

  lemma {:induction false} FfnOfActivated(silu: real -> real, gate: Mat, up: Mat, down: Mat, x: Vec, gated: Vec,
                                          plain: Vec, act: Vec, r: nat)
    requires FfnShapes(gate, up, down, x) && MatVec(gate, x) == gated && MatVec(up, x) == plain && r < |x|
    requires IsActivated(act, silu, gated, plain)
    ensures Ffn(silu, gate, up, down, x)[r] == Dot(down[r], act)
  {
    ActivateLaw(silu, gated, plain, act);
  }

  /** An activation that is constantly one leaves the up and down projections, whatever the gate. */
  lemma ConstantActivation(silu: real -> real, gate: Mat, up: Mat, down: Mat, x: Vec)
    requires FfnShapes(gate, up, down, x) && forall y :: silu(y) == 1.0
    ensures Ffn(silu, gate, up, down, x) == MatVec(down, MatVec(up, x))
  {
    var gated, plain := MatVec(gate, x), MatVec(up, x);
    forall i | 0 <= i < |gate|
      ensures Activate(silu, gated, plain)[i] == plain[i]
    {
      assert silu(gated[i]) == 1.0;
    }
    assert Activate(silu, gated, plain) == plain;
  }

  /** The up projection is all ones, and `activated` is the activated gate. */
  ghost predicate UpIsUnit(silu: real -> real, gate: Mat, up: Mat, x: Vec, activated: Vec)
    requires IsMat(gate, |gate|, |x|) && IsMat(up, |gate|, |x|) && |activated| == |gate|
  {
    forall i :: 0 <= i < |gate| ==> MatVec(up, x)[i] == 1.0 && activated[i] == silu(MatVec(gate, x)[i])
  }

  /** An up projection of ones leaves the down projection of the activated gate. */
  lemma UnitUp(silu: real -> real, gate: Mat, up: Mat, down: Mat, x: Vec, activated: Vec)
    requires FfnShapes(gate, up, down, x) && |activated| == |gate| && UpIsUnit(silu, gate, up, x, activated)
    ensures Ffn(silu, gate, up, down, x) == MatVec(down, activated)
  {
    var gated, plain := MatVec(gate, x), MatVec(up, x);
    forall i | 0 <= i < |gate|
      ensures Activate(silu, gated, plain)[i] == activated[i]
    {
      assert plain[i] == 1.0;
    }
    assert Activate(silu, gated, plain) == activated;
  }

  // ---- The DFlash tail ----

  /** The residual, which follows the attention channels, plus the projected attention. */
  ghost predicate IsPost(post: Vec, w: TailWeights, input: Vec, attention: nat, hidden: nat)
    requires |input| == attention + hidden && IsMat(w.o, hidden, attention)
  {
    && |post| == hidden
    && forall r :: 0 <= r < hidden ==> post[r] == input[attention + r] + Dot(w.o[r], input[..attention])
  }

  lemma PostLaw(w: TailWeights, input: Vec, attention: nat, hidden: nat, post: Vec)
    requires |input| == attention + hidden && IsMat(w.o, hidden, attention)
    requires IsPost(post, w, input, attention, hidden)
    ensures PostAttention(w, input, attention, hidden) == post
  {
    var computed := PostAttention(w, input, attention, hidden);
    forall r | 0 <= r < hidden
      ensures computed[r] == post[r]
    {
      assert input[attention..][r] == input[attention + r];
    }
  }

  /** The tail is post-attention plus the FFN of its normalisation. */
  lemma TailLaw(norm: RowFn, silu: real -> real, w: TailWeights, input: Vec, attention: nat, hidden: nat, post: Vec,
                r: nat)
    requires |input| == attention + hidden && w.Fits(hidden, attention, |w.gate|) && r < hidden
    requires IsPost(post, w, input, attention, hidden)
    ensures TailReference(norm, silu, w, input, attention, hidden)[r]
            == post[r] + Ffn(silu, w.gate, w.up, w.down, ApplyRow(norm, post))[r]
  {
    PostLaw(w, input, attention, hidden, post);
  }

  /** The two gating laws, of the whole tail. */
  lemma TailGating(norm: RowFn, silu: real -> real, w: TailWeights, input: Vec, attention: nat, hidden: nat, post: Vec,
                   activated: Vec)
    requires |input| == attention + hidden && w.Fits(hidden, attention, |w.gate|)
    requires IsPost(post, w, input, attention, hidden) && |activated| == |w.gate|
    ensures (forall y :: silu(y) == 1.0) ==>
              TailReference(norm, silu, w, input, attention, hidden)
              == VecAdd(post, MatVec(w.down, MatVec(w.up, ApplyRow(norm, post))))
    ensures UpIsUnit(silu, w.gate, w.up, ApplyRow(norm, post), activated) ==>
              TailReference(norm, silu, w, input, attention, hidden) == VecAdd(post, MatVec(w.down, activated))
  {
    var normed := ApplyRow(norm, post);
    PostLaw(w, input, attention, hidden, post);
    if forall y :: silu(y) == 1.0 {
      ConstantActivation(silu, w.gate, w.up, w.down, normed);
    }
    if UpIsUnit(silu, w.gate, w.up, normed, activated) {
      UnitUp(silu, w.gate, w.up, w.down, normed, activated);
    }
  }

  // ---- The Muse target ----

  /** The target normalises the projected attention before it adds the residual. */
  lemma TargetInputLaw(postNorm: RowFn, w: TailWeights, input: Vec, attention: nat, hidden: nat, projected: Vec, r: nat)
    requires |input| == attention + hidden && IsMat(w.o, hidden, attention) && |projected| == hidden && r < hidden
    requires forall k :: 0 <= k < hidden ==> projected[k] == Dot(w.o[k], input[..attention])
    ensures TargetFfnInput(postNorm, w, input, attention, hidden)[r]
            == input[attention + r] + ApplyRow(postNorm, projected)[r]
  {
    assert MatVec(w.o, input[..attention]) == projected;
  }

  /** The two gating laws, of the head's partial plus the continuation. */
  lemma TargetGating(postNorm: RowFn, ffnNorm: RowFn, silu: real -> real, w: TailWeights, cut: nat, input: Vec,
                     attention: nat, hidden: nat, normed: Vec, activated: Vec)
    requires |input| == attention + hidden && cut <= |w.gate| && w.Fits(hidden, attention, |w.gate|)
    requires normed == TargetHead(postNorm, ffnNorm, silu, w, cut, input, attention, hidden)[hidden..hidden + hidden]
    requires |activated| == |w.gate|
    ensures var partial := TargetHead(postNorm, ffnNorm, silu, w, cut, input, attention, hidden)[hidden + hidden..];
            var whole := VecAdd(partial, FfnSlice(silu, w, cut, |w.gate|, normed));
            && ((forall y :: silu(y) == 1.0) ==> whole == MatVec(w.down, MatVec(w.up, normed)))
            && (UpIsUnit(silu, w.gate, w.up, normed, activated) ==> whole == MatVec(w.down, activated))
  {
    TargetSplitRecovered(postNorm, ffnNorm, silu, w, cut, input, attention, hidden);
    if forall y :: silu(y) == 1.0 {
      ConstantActivation(silu, w.gate, w.up, w.down, normed);
    }
    if UpIsUnit(silu, w.gate, w.up, normed, activated) {
      UnitUp(silu, w.gate, w.up, w.down, normed, activated);
    }
  }
}
