/** The scaled forward and backward passes and the smoothed posteriors built from them. */
module ForwardBackward {
  import opened LinearAlgebra
  import opened HiddenPaths

  /** A small positive number; 1e-300 in the code, but what is proved holds for every one. */
  type Guard = x: real | x > 0.0 witness 1e-300

  /** Stands in for a scale or normaliser that came out as zero. */
  const TINY: Guard

  function OrTiny(x: real): (r: real)
    ensures r != 0.0 && (x >= 0.0 ==> r > 0.0)
  {
    if x == 0.0 then TINY else x
  }

  predicate Ready(h: Hmm, obs: seq<nat>) {
    Fits(h, obs) && obs != []
  }

  // ----- forward pass ----------------------------------------------------------

  /** Row t of alpha before it is divided by its scale. */
  function Raw(h: Hmm, obs: seq<nat>, t: nat): (r: Vec)
    requires Ready(h, obs) && t < |obs|
    ensures |r| == |h.pi|
    decreases t, 0
  {
    if t == 0 then Mul(h.pi, Emission(h, obs, 0))
    else Mul(VecMat(Alpha(h, obs, t - 1), h.a), Emission(h, obs, t))
  }

  function ScaleAt(h: Hmm, obs: seq<nat>, t: nat): (r: real)
    requires Ready(h, obs) && t < |obs|
    ensures r != 0.0
    decreases t, 1
  {
    OrTiny(Sum(Raw(h, obs, t)))
  }

  function Alpha(h: Hmm, obs: seq<nat>, t: nat): (r: Vec)
    requires Ready(h, obs) && t < |obs|
    ensures |r| == |h.pi|
    decreases t, 2
  {
    Div(Raw(h, obs, t), ScaleAt(h, obs, t))
  }

  function Scales(h: Hmm, obs: seq<nat>): (r: Vec)
    requires Ready(h, obs)
    ensures |r| == |obs| && forall t :: 0 <= t < |obs| ==> r[t] == ScaleAt(h, obs, t)
  {
    seq(|obs|, t requires 0 <= t < |obs| => ScaleAt(h, obs, t))
  }

  lemma ForwardTurn(h: Hmm, obs: seq<nat>, t: nat)
    requires Ready(h, obs) && t < |obs|
    ensures Raw(h, obs, t)
         == if t == 0 then Mul(h.pi, Emission(h, obs, 0))
            else Mul(VecMat(Alpha(h, obs, t - 1), h.a), Emission(h, obs, t))
    ensures Alpha(h, obs, t) == Div(Raw(h, obs, t), ScaleAt(h, obs, t))
  {
  }

  /** np.sum(np.log(scale + 1e-300)); the logarithm is a parameter. */
  function LogLikelihood(scale: Vec, log: real -> real): real {
    Sum(seq(|scale|, t requires 0 <= t < |scale| => log(scale[t] + TINY)))
  }

  method Forward(h: Hmm, obs: seq<nat>, log: real -> real) returns (alpha: Mat, scale: Vec, ll: real)
    requires Ready(h, obs)
    ensures |alpha| == |obs| && forall t :: 0 <= t < |obs| ==> alpha[t] == Alpha(h, obs, t)
    ensures scale == Scales(h, obs)
    ensures ll == LogLikelihood(Scales(h, obs), log)
  {
    hide Sum, VecMat, Mul, Emission, Div, Alpha, Raw;
    ForwardTurn(h, obs, 0);
    alpha := ZeroMat(|obs|, |h.pi|);
    alpha := alpha[0 := Mul(h.pi, Emission(h, obs, 0))];
    scale := Const(|obs|, 0.0);
    scale := scale[0 := Sum(alpha[0])];
    if scale[0] == 0.0 {
      scale := scale[0 := TINY];
    }
    alpha := alpha[0 := Div(alpha[0], scale[0])];
    var t := 1;
    while t < |obs|
      invariant 1 <= t <= |obs| && |alpha| == |scale| == |obs|
      invariant forall u :: 0 <= u < t ==> alpha[u] == Alpha(h, obs, u)
      invariant forall u :: 0 <= u < t ==> scale[u] == ScaleAt(h, obs, u)
    {
      ForwardTurn(h, obs, t);
      alpha := alpha[t := Mul(VecMat(alpha[t - 1], h.a), Emission(h, obs, t))];
      scale := scale[t := Sum(alpha[t])];
      if scale[t] == 0.0 {
        scale := scale[t := TINY];
      }
      alpha := alpha[t := Div(alpha[t], scale[t])];
      t := t + 1;
    }
    ll := LogLikelihood(scale, log);
  }

  /** A logarithm: products become sums. */
  ghost predicate IsLog(log: real -> real) {
    forall x, y :: x > 0.0 && y > 0.0 ==> log(Times(x, y)) == log(x) + log(y)
  }

  function Guarded(scale: Vec): (r: Vec)
    ensures |r| == |scale| && forall t :: 0 <= t < |scale| ==> r[t] == scale[t] + TINY
  {
    seq(|scale|, t requires 0 <= t < |scale| => scale[t] + TINY)
  }

  /** The log-likelihood is the logarithm of the product of the scales, each with the guard added. */
  lemma {:induction false} LogLikelihoodIsLog(scale: Vec, log: real -> real)
    requires IsLog(log) && NonNegative(scale)
    ensures LogLikelihood(scale, log) == log(Product(Guarded(scale)))
  {
    hide Times;
    if scale == [] {
      TimesUnits(1.0);
      assert log(Times(1.0, 1.0)) == log(1.0) + log(1.0);
    } else {
      LogLikelihoodIsLog(Init(scale), log);
      ProductPositive(Guarded(Init(scale)));
      assert Init(Guarded(scale)) == Guarded(Init(scale));
      LogLikelihoodStep(scale, log);
    }
  }

  lemma LogLikelihoodStep(scale: Vec, log: real -> real)
    requires scale != []
    ensures LogLikelihood(scale, log) == LogLikelihood(Init(scale), log) + log(Last(scale) + TINY)
  {
    var terms := seq(|scale|, t requires 0 <= t < |scale| => log(scale[t] + TINY));
    assert Init(terms) == seq(|scale| - 1, t requires 0 <= t < |scale| - 1 => log(Init(scale)[t] + TINY));
  }

  // ----- backward pass ---------------------------------------------------------

  function Beta(h: Hmm, obs: seq<nat>, t: nat): (r: Vec)
    requires Ready(h, obs) && t < |obs|
    ensures |r| == |h.pi|
    decreases |obs| - t
  {
    if t == |obs| - 1 then Const(|h.pi|, 1.0)
    else Div(MatVec(h.a, Mul(Emission(h, obs, t + 1), Beta(h, obs, t + 1))), ScaleAt(h, obs, t + 1))
  }

  lemma BackwardTurn(h: Hmm, obs: seq<nat>, t: nat)
    requires Ready(h, obs) && t < |obs|
    ensures Beta(h, obs, t)
         == if t == |obs| - 1 then Const(|h.pi|, 1.0)
            else Div(MatVec(h.a, Mul(Emission(h, obs, t + 1), Beta(h, obs, t + 1))), ScaleAt(h, obs, t + 1))
  {
  }

  method Backward(h: Hmm, obs: seq<nat>, scale: Vec) returns (beta: Mat)
    requires Ready(h, obs) && scale == Scales(h, obs)
    ensures |beta| == |obs| && forall t :: 0 <= t < |obs| ==> beta[t] == Beta(h, obs, t)
  {
    hide Sum, Mul, MatVec, Emission, Div, Const, Beta, ScaleAt;
    BackwardTurn(h, obs, |obs| - 1);
    beta := ZeroMat(|obs|, |h.pi|);
    beta := beta[|obs| - 1 := Const(|h.pi|, 1.0)];
    var t := |obs| - 2;
    while t >= 0
      invariant -1 <= t <= |obs| - 2 && |beta| == |obs|
      invariant forall u :: t < u < |obs| ==> beta[u] == Beta(h, obs, u)
    {
      BackwardTurn(h, obs, t);
      beta := beta[t := MatVec(h.a, Mul(Emission(h, obs, t + 1), beta[t + 1]))];
      beta := beta[t := Div(beta[t], scale[t + 1])];
      t := t - 1;
    }
  }

  // ----- smoothed posteriors ---------------------------------------------------

  function Normalise(v: Vec): (r: Vec)
    ensures |r| == |v|
  {
    Div(v, OrTiny(Sum(v)))
  }

  /** gamma[t] */
  function Gamma(h: Hmm, obs: seq<nat>, t: nat): (r: Vec)
    requires Ready(h, obs) && t < |obs|
    ensures |r| == |h.pi|
  {
    Normalise(Mul(Alpha(h, obs, t), Beta(h, obs, t)))
  }

  function XiNumerator(h: Hmm, obs: seq<nat>, t: nat): (r: Mat)
    requires Ready(h, obs) && t + 1 < |obs|
    ensures IsMat(r, |h.pi|, |h.pi|)
  {
    OuterTimes(Alpha(h, obs, t), Mul(Beta(h, obs, t + 1), Emission(h, obs, t + 1)), h.a)
  }

  function Xi(h: Hmm, obs: seq<nat>, t: nat): (r: Mat)
    requires Ready(h, obs) && t + 1 < |obs|
    ensures IsMat(r, |h.pi|, |h.pi|)
  {
    var numer := XiNumerator(h, obs, t);
    DivMat(numer, OrTiny(Sum(RowSums(numer))))
  }

  // ----- forward pass against paths --------------------------------------------

  lemma RawIsScaled(h: Hmm, obs: seq<nat>, t: nat)
    requires Ready(h, obs) && t < |obs|
    ensures Raw(h, obs, t) == Scale(ScaleAt(h, obs, t), Alpha(h, obs, t))
  {
    hide Times, Over, Raw, ScaleAt;
    ScaleDiv(Raw(h, obs, t), ScaleAt(h, obs, t));
  }

  lemma GateOff(t: nat, v: Vec)
    ensures Gate(map[], t, v) == v
  {
  }

  lemma PushScale(h: Hmm, obs: seq<nat>, t: nat, c: real, v: Vec)
    requires Fits(h, obs) && t < |obs| && |v| == |h.pi|
    ensures Mul(VecMat(Scale(c, v), h.a), Emission(h, obs, t))
         == Scale(c, Mul(VecMat(v, h.a), Emission(h, obs, t)))
  {
    hide Times, Dot;
    assert VecMat(Scale(c, v), h.a) == Scale(c, VecMat(v, h.a)) by {
      forall j | 0 <= j < |v| ensures VecMat(Scale(c, v), h.a)[j] == Scale(c, VecMat(v, h.a))[j] {
        DotScale(c, v, Col(h.a, j));
      }
    }
    ScaleMul(c, VecMat(v, h.a), Emission(h, obs, t));
  }

  lemma ScaleScale(c: real, d: real, v: Vec)
    ensures Scale(c, Scale(d, v)) == Scale(Times(c, d), v)
  {
    hide Times;
    forall i | 0 <= i < |v| ensures Scale(c, Scale(d, v))[i] == Scale(Times(c, d), v)[i] {
      TimesAssoc(c, d, v[i]);
    }
  }

  /**
   * alpha[t][i] times the scales so far is the total joint probability of all
   * hidden paths of length t + 1 that end in state i, whatever pi, A and B hold.
   */
  lemma {:induction false} ForwardIsPathSum(h: Hmm, obs: seq<nat>, t: nat)
    requires Ready(h, obs) && t < |obs|
    ensures Scale(Product(Scales(h, obs)[..t + 1]), Alpha(h, obs, t))
         == EndVec(h, obs, Paths(t + 1, |h.pi|), t + 1, map[])
  {
    hide Times, Over, Sum, Mul, Paths, EndVec, ScaleAt;
    var s := Scales(h, obs);
    var none: Pins := map[];
    assert Init(s[..t + 1]) == s[..t];
    RawIsScaled(h, obs, t);
    if t == 0 {
      assert Product(s[..0]) == 1.0;
      TimesUnits(s[0]);
      ForwardsStart(h, obs, none);
      GateOff(0, Raw(h, obs, 0));
    } else {
      var c := Product(s[..t]);
      ForwardIsPathSum(h, obs, t - 1);
      ForwardsStep(h, obs, t - 1, none);
      PushScale(h, obs, t, c, Alpha(h, obs, t - 1));
      ScaleScale(c, s[t], Alpha(h, obs, t));
      GateOff(t, Scale(c, Raw(h, obs, t)));
    }
  }

  /** The joint probability of the observations, summed over the full-length hidden paths that agree with the pins. */
  function PinnedMass(h: Hmm, obs: seq<nat>, pins: Pins): real
    requires Ready(h, obs)
  {
    PathSum(h, obs, Paths(|obs|, |h.pi|), |obs|, pins)
  }

  /** P(obs): the joint probability summed over every hidden path. */
  function Likelihood(h: Hmm, obs: seq<nat>): real
    requires Ready(h, obs)
  {
    PinnedMass(h, obs, map[])
  }

  lemma LikelihoodFactors(h: Hmm, obs: seq<nat>)
    requires Ready(h, obs)
    ensures Likelihood(h, obs) == Times(Product(Scales(h, obs)), Sum(Alpha(h, obs, |obs| - 1)))
  {
    hide Times, Alpha, EndVec, PathSum, Product, Sum;
    var n := |obs|;
    assert Scales(h, obs)[..n] == Scales(h, obs);
    ForwardIsPathSum(h, obs, n - 1);
    EndVecTotal(h, obs, Paths(n, |h.pi|), n, map[]);
    SumScale(Product(Scales(h, obs)), Alpha(h, obs, n - 1));
  }

  /** No zero scale was met at the last observation, so none was replaced by TINY there. */
  predicate Live(h: Hmm, obs: seq<nat>)
    requires Ready(h, obs)
  {
    Sum(Raw(h, obs, |obs| - 1)) != 0.0
  }

  lemma AlphaTotal(h: Hmm, obs: seq<nat>, t: nat)
    requires Ready(h, obs) && t < |obs|
    ensures Sum(Alpha(h, obs, t)) == if Sum(Raw(h, obs, t)) == 0.0 then 0.0 else 1.0
  {
    hide Times, Over, Raw, Sum;
    var raw := Raw(h, obs, t);
    SumDiv(raw, ScaleAt(h, obs, t));
    OverTimes(Sum(raw), ScaleAt(h, obs, t));
  }

  predicate NonNegativeHmm(h: Hmm) {
    && NonNegative(h.pi)
    && (forall i :: 0 <= i < |h.a| ==> NonNegative(h.a[i]))
    && (forall i :: 0 <= i < |h.b| ==> NonNegative(h.b[i]))
  }

  lemma PushNonNegative(h: Hmm, obs: seq<nat>, t: nat, v: Vec)
    requires Fits(h, obs) && NonNegativeHmm(h) && t < |obs| && |v| == |h.pi| && NonNegative(v)
    ensures NonNegative(Mul(VecMat(v, h.a), Emission(h, obs, t)))
  {
    hide Times, Dot;
    forall j | 0 <= j < |v| ensures VecMat(v, h.a)[j] >= 0.0 {
      MulNonNegative(v, Col(h.a, j));
      assert Dot(v, Col(h.a, j)) >= 0.0;
    }
    MulNonNegative(VecMat(v, h.a), Emission(h, obs, t));
  }

  lemma {:induction false} AlphaNonNegative(h: Hmm, obs: seq<nat>, t: nat)
    requires Ready(h, obs) && NonNegativeHmm(h) && t < |obs|
    ensures NonNegative(Raw(h, obs, t)) && NonNegative(Alpha(h, obs, t))
    ensures ScaleAt(h, obs, t) > 0.0 && Sum(Raw(h, obs, t)) >= 0.0
  {
    hide Times, Over, Dot, Sum;
    if t == 0 {
      MulNonNegative(h.pi, Emission(h, obs, 0));
    } else {
      AlphaNonNegative(h, obs, t - 1);
      PushNonNegative(h, obs, t, Alpha(h, obs, t - 1));
    }
    SumNonNegative(Raw(h, obs, t));
    DivNonNegative(Raw(h, obs, t), ScaleAt(h, obs, t));
  }

  /** Once a scale is zero every later one is. */
  lemma {:induction false} ZeroPersists(h: Hmm, obs: seq<nat>, t: nat, u: nat)
    requires Ready(h, obs) && NonNegativeHmm(h) && t <= u < |obs|
    requires Sum(Raw(h, obs, t)) == 0.0
    ensures Raw(h, obs, u) == Const(|h.pi|, 0.0) == Alpha(h, obs, u)
    ensures Sum(Raw(h, obs, u)) == 0.0
  {
    hide Times, Over, Dot, Sum;
    var z := Const(|h.pi|, 0.0);
    if t == u {
      AlphaNonNegative(h, obs, t);
      SumZeroIff(Raw(h, obs, t));
    } else {
      ZeroPersists(h, obs, t, u - 1);
      AdvanceZero(h, obs, u, map[]);
      GateOff(u, Mul(VecMat(z, h.a), Emission(h, obs, u)));
      SumZero(|h.pi|);
    }
    forall i | 0 <= i < |h.pi| ensures Alpha(h, obs, u)[i] == 0.0 {
      OverTimes(0.0, ScaleAt(h, obs, u));
    }
  }

  /** For probabilities, the last scale is non-zero exactly when all of them are. */
  lemma LiveIff(h: Hmm, obs: seq<nat>)
    requires Ready(h, obs) && NonNegativeHmm(h)
    ensures Live(h, obs) <==> forall t :: 0 <= t < |obs| ==> Sum(Raw(h, obs, t)) != 0.0
  {
    hide Times, Over, Sum, Alpha, Raw;
    var last := |obs| - 1;
    if t :| 0 <= t < |obs| && Sum(Raw(h, obs, t)) == 0.0 {
      ZeroPersists(h, obs, t, last);
    } else {
      assert Sum(Raw(h, obs, last)) != 0.0;
    }
  }

  /** The product of the scales is the likelihood exactly when no scale had to be replaced. */
  lemma ScalesGiveLikelihood(h: Hmm, obs: seq<nat>)
    requires Ready(h, obs) && NonNegativeHmm(h)
    ensures Product(Scales(h, obs)) == Likelihood(h, obs)
       <==> forall t :: 0 <= t < |obs| ==> Sum(Raw(h, obs, t)) != 0.0
    ensures Likelihood(h, obs) > 0.0 <==> Live(h, obs)
    ensures Likelihood(h, obs) >= 0.0
  {
    hide Times, Raw, Sum, Alpha, Likelihood;
    var s := Scales(h, obs);
    forall t | 0 <= t < |obs| ensures s[t] > 0.0 {
      AlphaNonNegative(h, obs, t);
    }
    ProductPositive(s);
    LikelihoodFactors(h, obs);
    AlphaTotal(h, obs, |obs| - 1);
    TimesUnits(Product(s));
    LiveIff(h, obs);
  }

  // ----- backward pass ---------------------------------------------------------

  /** One observation consumed on the left is one observation handed back on the right. */
  lemma Transfer(h: Hmm, obs: seq<nat>, t: nat, v: Vec)
    requires Ready(h, obs) && t + 1 < |obs| && |v| == |h.pi|
    ensures Times(ScaleAt(h, obs, t + 1), Dot(v, Beta(h, obs, t)))
         == Dot(Mul(VecMat(v, h.a), Emission(h, obs, t + 1)), Beta(h, obs, t + 1))
  {
    hide Times, Over, ScaleAt;
    var s := ScaleAt(h, obs, t + 1);
    var e := Emission(h, obs, t + 1);
    var next := Beta(h, obs, t + 1);
    var w := MatVec(h.a, Mul(e, next));
    calc {
      Times(s, Dot(v, Beta(h, obs, t)));
      { DotComm(v, Div(w, s)); DotScale(s, Div(w, s), v); }
      Dot(Scale(s, Div(w, s)), v);
      { ScaleDiv(w, s); DotComm(w, v); }
      Dot(v, w);
      { Adjoint(v, h.a, Mul(e, next)); }
      Dot(VecMat(v, h.a), Mul(e, next));
      { MulAssoc(VecMat(v, h.a), e, next); }
      Dot(Mul(VecMat(v, h.a), e), next);
    }
  }

  /** sum_i alpha[t][i] * beta[t][i] is the same at every t: one if the sequence is live, else zero. */
  lemma {:induction false} AlphaBetaTotal(h: Hmm, obs: seq<nat>, t: nat)
    requires Ready(h, obs) && t < |obs|
    ensures Dot(Alpha(h, obs, t), Beta(h, obs, t)) == if Live(h, obs) then 1.0 else 0.0
    decreases |obs| - t
  {
    hide Times, Over, ScaleAt, Sum, Dot;
    if t == |obs| - 1 {
      DotOnes(Alpha(h, obs, t));
      AlphaTotal(h, obs, t);
    } else {
      var s := ScaleAt(h, obs, t + 1);
      AlphaBetaTotal(h, obs, t + 1);
      Transfer(h, obs, t, Alpha(h, obs, t));
      RawIsScaled(h, obs, t + 1);
      DotScale(s, Alpha(h, obs, t + 1), Beta(h, obs, t + 1));
      TimesCancel(s, Dot(Alpha(h, obs, t), Beta(h, obs, t)), Dot(Alpha(h, obs, t + 1), Beta(h, obs, t + 1)));
    }
  }

  lemma DivByOne(v: Vec)
    ensures Div(v, 1.0) == v
  {
  }

  lemma GammaIsProduct(h: Hmm, obs: seq<nat>, t: nat)
    requires Ready(h, obs) && t < |obs| && Live(h, obs)
    ensures Gamma(h, obs, t) == Mul(Alpha(h, obs, t), Beta(h, obs, t))
    ensures Sum(Gamma(h, obs, t)) == 1.0
  {
    hide Times, Over, Sum, Alpha, Beta, Live;
    AlphaBetaTotal(h, obs, t);
    DivByOne(Mul(Alpha(h, obs, t), Beta(h, obs, t)));
  }

  // ----- xi --------------------------------------------------------------------

  lemma XiNumeratorSums(h: Hmm, obs: seq<nat>, t: nat)
    requires Ready(h, obs) && t + 1 < |obs|
    ensures var s := ScaleAt(h, obs, t + 1);
            && RowSums(XiNumerator(h, obs, t)) == Scale(s, Mul(Alpha(h, obs, t), Beta(h, obs, t)))
            && ColSums(XiNumerator(h, obs, t), |h.pi|)
               == Scale(s, Mul(Alpha(h, obs, t + 1), Beta(h, obs, t + 1)))
  {
    hide Times, Over, ScaleAt, Sum, Dot;
    var s := ScaleAt(h, obs, t + 1);
    var e := Emission(h, obs, t + 1);
    var alpha, next := Alpha(h, obs, t), Beta(h, obs, t + 1);
    var w := MatVec(h.a, Mul(e, next));
    MulComm(next, e);
    OuterRowSums(alpha, Mul(e, next), h.a);
    OuterColSums(alpha, Mul(e, next), h.a);
    ScaleDiv(w, s);
    MulComm(alpha, w);
    ScaleMul(s, Div(w, s), alpha);
    MulComm(Div(w, s), alpha);
    MulAssoc(VecMat(alpha, h.a), e, next);
    RawIsScaled(h, obs, t + 1);
    ScaleMul(s, Alpha(h, obs, t + 1), next);
  }

  lemma XiDenominator(h: Hmm, obs: seq<nat>, t: nat)
    requires Ready(h, obs) && t + 1 < |obs|
    ensures Sum(RowSums(XiNumerator(h, obs, t))) == if Live(h, obs) then ScaleAt(h, obs, t + 1) else 0.0
  {
    hide Times, Over, ScaleAt, Sum, Alpha, Beta, Live;
    var s := ScaleAt(h, obs, t + 1);
    XiNumeratorSums(h, obs, t);
    SumScale(s, Mul(Alpha(h, obs, t), Beta(h, obs, t)));
    AlphaBetaTotal(h, obs, t);
    TimesUnits(s);
  }

  lemma DivScale(s: real, v: Vec)
    requires s != 0.0
    ensures Div(Scale(s, v), s) == v
  {
    hide Times, Over;
    forall i | 0 <= i < |v| ensures Div(Scale(s, v), s)[i] == v[i] {
      OverTimes(Times(s, v[i]), s);
      TimesCancel(s, Over(Times(s, v[i]), s), v[i]);
    }
  }

  lemma DivMatSums(m: Mat, c: real, cols: nat)
    requires IsMat(m, |m|, cols) && c != 0.0
    ensures RowSums(DivMat(m, c)) == Div(RowSums(m), c)
    ensures ColSums(DivMat(m, c), cols) == Div(ColSums(m, cols), c)
  {
    hide Over, Sum;
    forall i | 0 <= i < |m| ensures RowSums(DivMat(m, c))[i] == Div(RowSums(m), c)[i] {
      SumDiv(m[i], c);
    }
    forall j | 0 <= j < cols ensures ColSums(DivMat(m, c), cols)[j] == Div(ColSums(m, cols), c)[j] {
      assert Col(DivMat(m, c), j) == Div(Col(m, j), c);
      SumDiv(Col(m, j), c);
    }
  }

  /** xi_t is a joint distribution whose marginals are gamma[t] and gamma[t + 1]. */
  lemma XiMarginals(h: Hmm, obs: seq<nat>, t: nat)
    requires Ready(h, obs) && t + 1 < |obs| && Live(h, obs)
    ensures RowSums(Xi(h, obs, t)) == Gamma(h, obs, t)
    ensures ColSums(Xi(h, obs, t), |h.pi|) == Gamma(h, obs, t + 1)
    ensures Sum(RowSums(Xi(h, obs, t))) == 1.0
  {
    hide Times, Over, ScaleAt, Sum, Alpha, Beta, Live, Gamma;
    var s := ScaleAt(h, obs, t + 1);
    XiNumeratorSums(h, obs, t);
    XiDenominator(h, obs, t);
    DivMatSums(XiNumerator(h, obs, t), s, |h.pi|);
    DivScale(s, Mul(Alpha(h, obs, t), Beta(h, obs, t)));
    DivScale(s, Mul(Alpha(h, obs, t + 1), Beta(h, obs, t + 1)));
    GammaIsProduct(h, obs, t);
    GammaIsProduct(h, obs, t + 1);
  }

  // ----- posteriors against paths ----------------------------------------------

  /** Carrying a pinned path sum to the end of the sequence with beta. */
  lemma {:induction false} CarryToEnd(h: Hmm, obs: seq<nat>, t: nat, pins: Pins)
    requires Ready(h, obs) && t < |obs| && forall k :: k in pins ==> k <= t
    ensures PinnedMass(h, obs, pins)
         == Times(Product(Scales(h, obs)[t + 1..]), Dot(Forwards(h, obs, t, pins), Beta(h, obs, t)))
    decreases |obs| - t
  {
    hide Times, Over, ScaleAt, Sum, Mul, Dot, Paths, EndVec, PathSum, Raw, Emission, VecMat;
    var s := Scales(h, obs);
    var here := Forwards(h, obs, t, pins);
    if t == |obs| - 1 {
      assert s[t + 1..] == [];
      DotOnes(here);
      TimesUnits(Sum(here));
      EndVecTotal(h, obs, Paths(|obs|, |h.pi|), |obs|, pins);
    } else {
      CarryToEnd(h, obs, t + 1, pins);
      ForwardsStep(h, obs, t, pins);
      var pushed := Mul(VecMat(here, h.a), Emission(h, obs, t + 1));
      assert Gate(pins, t + 1, pushed) == pushed;
      Transfer(h, obs, t, here);
      ProductHead(s, t + 1);
      TimesComm(s[t + 1], Product(s[t + 2..]));
      TimesAssoc(Product(s[t + 2..]), s[t + 1], Dot(here, Beta(h, obs, t)));
    }
  }

  lemma {:induction false} ProductHead(v: Vec, k: nat)
    requires k < |v|
    ensures Product(v[k..]) == Times(v[k], Product(v[k + 1..]))
  {
    hide Times;
    if k == |v| - 1 {
      assert Init(v[k..]) == [] && v[k + 1..] == [];
      TimesUnits(v[k]);
    } else {
      ProductHead(Init(v), k);
      assert Init(v[k..]) == Init(v)[k..];
      assert Init(v[k + 1..]) == Init(v)[k + 1..];
      TimesAssoc(v[k], Product(Init(v)[k + 1..]), Last(v));
    }
  }

  lemma {:induction false} ProductSplit(v: Vec, k: nat)
    requires k <= |v|
    ensures Times(Product(v[..k]), Product(v[k..])) == Product(v)
  {
    hide Times;
    if k == 0 {
      assert v[..0] == [] && v[0..] == v;
      TimesUnits(Product(v));
    } else {
      ProductSplit(v, k - 1);
      ProductHead(v, k - 1);
      assert Init(v[..k]) == v[..k - 1];
      TimesAssoc(Product(v[..k - 1]), v[k - 1], Product(v[k..]));
    }
  }

  /** Pinning the last state keeps only the paths that end there. */
  lemma PinLast(h: Hmm, obs: seq<nat>, t: nat, pins: Pins, i: nat)
    requires Ready(h, obs) && t < |obs| && i < |h.pi| && forall k :: k in pins ==> k < t
    ensures Forwards(h, obs, t, pins[t := i]) == OneHot(|h.pi|, i, Forwards(h, obs, t, pins)[i])
  {
    hide Times, Forwards, VecMat, Mul;
    if t == 0 {
      ForwardsStart(h, obs, pins[t := i]);
      ForwardsStart(h, obs, pins);
    } else {
      ForwardsStep(h, obs, t - 1, pins[t := i]);
      ForwardsStep(h, obs, t - 1, pins);
      LaterPin(h, obs, t - 1, pins, t, i);
    }
  }

  lemma PinnedForwards(h: Hmm, obs: seq<nat>, t: nat, i: nat)
    requires Ready(h, obs) && t < |obs| && i < |h.pi|
    ensures Forwards(h, obs, t, map[t := i])
         == OneHot(|h.pi|, i, Times(Product(Scales(h, obs)[..t + 1]), Alpha(h, obs, t)[i]))
  {
    hide Times, Alpha, ScaleAt, Product, EndVec;
    var none: Pins := map[];
    assert none[t := i] == map[t := i];
    ForwardIsPathSum(h, obs, t);
    PinLast(h, obs, t, none, i);
  }

  /** A pin beyond the end of a path does not affect it. */
  lemma LaterPin(h: Hmm, obs: seq<nat>, t: nat, pins: Pins, u: nat, i: nat)
    requires Fits(h, obs) && t < |obs| && t < u
    ensures Forwards(h, obs, t, pins[u := i]) == Forwards(h, obs, t, pins)
  {
    LaterPinOnPaths(h, obs, Paths(t + 1, |h.pi|), t + 1, pins, u, i);
  }

  lemma {:induction false} LaterPinOnPaths(h: Hmm, obs: seq<nat>, ps: seq<Path>, n: nat, pins: Pins, u: nat, i: nat)
    requires PathsFit(h, obs, ps, n) && n <= u
    ensures EndVec(h, obs, ps, n, pins[u := i]) == EndVec(h, obs, ps, n, pins)
  {
    if ps != [] {
      assert Last(ps) in ps;
      LaterPinOnPaths(h, obs, Init(ps), n, pins, u, i);
      assert Agrees(Last(ps), pins[u := i]) <==> Agrees(Last(ps), pins);
    }
  }

  /**
   * gamma[t][i] is the posterior probability of being in state i at time t:
   * times the likelihood it is the weight of all full paths through i at t.
   */
  lemma GammaIsPosterior(h: Hmm, obs: seq<nat>, t: nat, i: nat)
    requires Ready(h, obs) && t < |obs| && i < |h.pi| && Live(h, obs)
    ensures Times(Likelihood(h, obs), Gamma(h, obs, t)[i])
         == PinnedMass(h, obs, map[t := i])
  {
    hide Times, Over, ScaleAt, Sum, Alpha, Beta, Live, Gamma, Likelihood, Dot, Product, Forwards, PathSum;
    var s := Scales(h, obs);
    var before, after := Product(s[..t + 1]), Product(s[t + 1..]);
    var a, b := Alpha(h, obs, t)[i], Beta(h, obs, t)[i];
    GammaIsProduct(h, obs, t);
    LiveLikelihood(h, obs);
    ProductSplit(s, t + 1);
    CarryToEnd(h, obs, t, map[t := i]);
    PinnedForwards(h, obs, t, i);
    DotOneHot(|h.pi|, i, Times(before, a), Beta(h, obs, t));
    TimesAssoc(before, a, b);
    TimesAssoc(after, before, Times(a, b));
    TimesComm(after, before);
  }

  /**
   * xi_t[i][j] is the posterior probability of moving from state i at time t to
   * state j at time t + 1.
   */
  lemma XiIsPosterior(h: Hmm, obs: seq<nat>, t: nat, i: nat, j: nat)
    requires Ready(h, obs) && t + 1 < |obs| && i < |h.pi| && j < |h.pi| && Live(h, obs)
    ensures Times(Likelihood(h, obs), Xi(h, obs, t)[i][j])
         == PinnedMass(h, obs, map[t := i, t + 1 := j])
  {
    hide Times, Over, ScaleAt, Sum, Alpha, Beta, Live, Likelihood, Dot, Product, Forwards, PinnedMass, Xi;
    var s := Scales(h, obs);
    var sc := s[t + 1];
    var before, after := Product(s[..t + 1]), Product(s[t + 2..]);
    var alpha, e, next := Alpha(h, obs, t)[i], Emission(h, obs, t + 1)[j], Beta(h, obs, t + 1)[j];
    var pins: Pins := map[t := i, t + 1 := j];
    var joint := Times(Times(Times(before, alpha), h.a[i][j]), e);
    PinnedPair(h, obs, t, i, j);
    CarryToEnd(h, obs, t + 1, pins);
    DotOneHot(|h.pi|, j, joint, Beta(h, obs, t + 1));
    XiEntry(h, obs, t, i, j);
    LiveLikelihood(h, obs);
    ProductSplit(s, t + 1);
    ProductHead(s, t + 1);
    XiFactors(before, sc, after, alpha, h.a[i][j], e, next, Xi(h, obs, t)[i][j]);
  }

  lemma PinnedPair(h: Hmm, obs: seq<nat>, t: nat, i: nat, j: nat)
    requires Ready(h, obs) && t + 1 < |obs| && i < |h.pi| && j < |h.pi|
    ensures var before := Product(Scales(h, obs)[..t + 1]);
            var joint := Times(Times(Times(before, Alpha(h, obs, t)[i]), h.a[i][j]), Emission(h, obs, t + 1)[j]);
            Forwards(h, obs, t + 1, map[t := i, t + 1 := j]) == OneHot(|h.pi|, j, joint)
  {
    hide Times, Alpha, ScaleAt, Product, Forwards;
    var one: Pins := map[t := i];
    assert one[t + 1 := j] == map[t := i, t + 1 := j];
    PinLast(h, obs, t + 1, one, j);
    ForwardsStep(h, obs, t, one);
    PinnedForwards(h, obs, t, i);
    DotOneHot(|h.pi|, i, Times(Product(Scales(h, obs)[..t + 1]), Alpha(h, obs, t)[i]), Col(h.a, j));
  }

  lemma XiEntry(h: Hmm, obs: seq<nat>, t: nat, i: nat, j: nat)
    requires Ready(h, obs) && t + 1 < |obs| && i < |h.pi| && j < |h.pi| && Live(h, obs)
    ensures Times(ScaleAt(h, obs, t + 1), Xi(h, obs, t)[i][j])
         == Times(Times(Alpha(h, obs, t)[i], Times(Beta(h, obs, t + 1)[j], Emission(h, obs, t + 1)[j])), h.a[i][j])
  {
    hide Times, Over, ScaleAt, Sum, Alpha, Beta, Live;
    XiDenominator(h, obs, t);
    OverTimes(XiNumerator(h, obs, t)[i][j], ScaleAt(h, obs, t + 1));
  }

  lemma XiFactors(before: real, sc: real, after: real, alpha: real, a: real, e: real, next: real, xi: real)
    requires Times(sc, xi) == Times(Times(alpha, Times(next, e)), a)
    ensures Times(Times(before, Times(sc, after)), xi)
         == Times(after, Times(Times(Times(Times(before, alpha), a), e), next))
  {
    hide Times;
    calc {
      Times(Times(before, Times(sc, after)), xi);
      { TimesComm(sc, after); TimesAssoc(before, after, sc); TimesComm(before, after); }
      Times(Times(Times(after, before), sc), xi);
      { TimesAssoc(Times(after, before), sc, xi); }
      Times(Times(after, before), Times(sc, xi));
      { TimesAssoc(after, before, Times(sc, xi)); }
      Times(after, Times(before, Times(Times(alpha, Times(next, e)), a)));
      {
        TimesAssoc(alpha, Times(next, e), a);
        TimesAssoc(before, alpha, Times(Times(next, e), a));
        TimesComm(Times(next, e), a);
        TimesAssoc(Times(before, alpha), a, Times(next, e));
        TimesComm(next, e);
        TimesAssoc(Times(Times(before, alpha), a), e, next);
      }
      Times(after, Times(Times(Times(Times(before, alpha), a), e), next));
    }
  }

  lemma LiveLikelihood(h: Hmm, obs: seq<nat>)
    requires Ready(h, obs) && Live(h, obs)
    ensures Likelihood(h, obs) == Product(Scales(h, obs))
  {
    hide Times, Raw, Sum, Alpha, Likelihood, Product;
    LikelihoodFactors(h, obs);
    AlphaTotal(h, obs, |obs| - 1);
    TimesUnits(Product(Scales(h, obs)));
  }
}
