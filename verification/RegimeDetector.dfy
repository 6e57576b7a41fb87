/** The online regime filter: one belief vector, updated by every observation. */
module RegimeDetector {
  import opened Options
  import opened LinearAlgebra
  import opened HiddenPaths
  import opened ForwardBackward
  import opened BaumWelch

  const N_STATES: nat := 4
  const PV_SIZE: nat := 3
  const BAS_SIZE: nat := 3
  const OBI_SIZE: nat := 3
  const FR_SIZE: nat := 3
  const PCR_SIZE: nat := 4
  const N_OBS: nat := PV_SIZE * BAS_SIZE * OBI_SIZE * FR_SIZE * PCR_SIZE

  // ----- observation encoding --------------------------------------------------

  datatype Features = Features(pv: nat, bas: nat, obi: nat, fr: nat, pcr: nat)

  predicate InBins(f: Features) {
    f.pv < PV_SIZE && f.bas < BAS_SIZE && f.obi < OBI_SIZE && f.fr < FR_SIZE && f.pcr < PCR_SIZE
  }

  function EncodeObservation(f: Features): nat {
    f.pv * (BAS_SIZE * OBI_SIZE * FR_SIZE * PCR_SIZE)
    + f.bas * (OBI_SIZE * FR_SIZE * PCR_SIZE)
    + f.obi * (FR_SIZE * PCR_SIZE)
    + f.fr * PCR_SIZE
    + f.pcr
  }

  function DecodeObservation(o: nat): Features {
    Features(o / 108, o / 36 % 3, o / 12 % 3, o / 4 % 3, o % 4)
  }

  /** No two feature combinations share an index, and every index is in [0, N_OBS). */
  lemma DecodeEncode(f: Features)
    requires InBins(f)
    ensures EncodeObservation(f) < N_OBS
    ensures DecodeObservation(EncodeObservation(f)) == f
  {
    var q3 := f.pv * 3 + f.bas;
    var q2 := q3 * 3 + f.obi;
    var q1 := q2 * 3 + f.fr;
    assert EncodeObservation(f) == q1 * 4 + f.pcr;
    Digits(EncodeObservation(f), q1, q2, q3, f);
  }

  lemma Digits(o: nat, q1: nat, q2: nat, q3: nat, f: Features)
    requires InBins(f)
    requires o == q1 * 4 + f.pcr && q1 == q2 * 3 + f.fr && q2 == q3 * 3 + f.obi && q3 == f.pv * 3 + f.bas
    ensures o < N_OBS && DecodeObservation(o) == f
  {
    assert o / 4 == q1 && o % 4 == f.pcr;
    assert o / 12 == q2 && q1 % 3 == f.fr;
    assert o / 36 == q3 && q2 % 3 == f.obi;
    assert o / 108 == f.pv && q3 % 3 == f.bas;
  }

  /** Every index below N_OBS stands for some feature combination. */
  lemma EncodeDecode(o: nat)
    requires o < N_OBS
    ensures InBins(DecodeObservation(o))
    ensures EncodeObservation(DecodeObservation(o)) == o
  {
    var q1, q2, q3 := o / 4, o / 12, o / 36;
    assert q1 / 3 == q2 && q2 / 3 == q3 && q3 / 3 == o / 108;
    assert o == q1 * 4 + o % 4;
    assert q1 == q2 * 3 + q1 % 3 && q2 == q3 * 3 + q2 % 3 && q3 == (o / 108) * 3 + q3 % 3;
  }

  // ----- default parameters ----------------------------------------------------

  const DEFAULT_PI: Vec := [0.50, 0.25, 0.15, 0.10]

  const DEFAULT_A: Mat := [
    [0.75, 0.12, 0.08, 0.05],
    [0.20, 0.65, 0.10, 0.05],
    [0.15, 0.10, 0.65, 0.10],
    [0.25, 0.10, 0.15, 0.50]]

  const PRICE_VOL_PROBS: Mat := [[0.55, 0.35, 0.10], [0.20, 0.50, 0.30], [0.05, 0.20, 0.75], [0.30, 0.40, 0.30]]
  const BAS_PROBS: Mat := [[0.60, 0.35, 0.05], [0.25, 0.55, 0.20], [0.05, 0.30, 0.65], [0.10, 0.30, 0.60]]
  const OBI_PROBS: Mat := [[0.20, 0.60, 0.20], [0.20, 0.30, 0.50], [0.35, 0.40, 0.25], [0.25, 0.50, 0.25]]
  const FR_PROBS: Mat := [[0.20, 0.60, 0.20], [0.10, 0.30, 0.60], [0.40, 0.30, 0.30], [0.30, 0.50, 0.20]]
  const PCR_PROBS: Mat :=
    [[0.10, 0.35, 0.45, 0.10], [0.10, 0.15, 0.40, 0.35], [0.20, 0.25, 0.25, 0.30], [0.15, 0.30, 0.40, 0.15]]

  predicate PositiveTable(m: Mat, bins: nat) {
    IsMat(m, N_STATES, bins) && forall s :: 0 <= s < N_STATES ==> Positive(m[s])
  }

  /** Features are independent given the state. */
  function FeatureWeight(s: nat, f: Features): (w: real)
    requires s < N_STATES && InBins(f)
    ensures w > 0.0
  {
    assert PositiveTable(PRICE_VOL_PROBS, PV_SIZE) && PositiveTable(BAS_PROBS, BAS_SIZE);
    assert PositiveTable(OBI_PROBS, OBI_SIZE) && PositiveTable(FR_PROBS, FR_SIZE);
    assert PositiveTable(PCR_PROBS, PCR_SIZE);
    var a, b, c, d, e :=
      PRICE_VOL_PROBS[s][f.pv], BAS_PROBS[s][f.bas], OBI_PROBS[s][f.obi], FR_PROBS[s][f.fr], PCR_PROBS[s][f.pcr];
    TimesSign(a, b);
    TimesSign(Times(a, b), c);
    TimesSign(Times(Times(a, b), c), d);
    TimesSign(Times(Times(Times(a, b), c), d), e);
    Times(Times(Times(Times(a, b), c), d), e)
  }

  function WeightRow(s: nat): (r: Vec)
    requires s < N_STATES
    ensures |r| == N_OBS && Positive(r)
    ensures forall f :: InBins(f) ==>
              EncodeObservation(f) < N_OBS && r[EncodeObservation(f)] == FeatureWeight(s, f)
  {
    var r := seq(N_OBS, o requires 0 <= o < N_OBS =>
      (EncodeDecode(o); FeatureWeight(s, DecodeObservation(o))));
    assert Positive(r) by {
      forall o | 0 <= o < N_OBS ensures r[o] > 0.0 {
        EncodeDecode(o);
      }
    }
    assert forall f :: InBins(f) ==>
             EncodeObservation(f) < N_OBS && r[EncodeObservation(f)] == FeatureWeight(s, f) by {
      hide EncodeObservation, FeatureWeight;
      forall f | InBins(f)
        ensures EncodeObservation(f) < N_OBS && r[EncodeObservation(f)] == FeatureWeight(s, f)
      {
        DecodeEncode(f);
      }
    }
    r
  }

  function EmissionRow(s: nat): (r: Vec)
    requires s < N_STATES
    ensures |r| == N_OBS && Positive(r) && Distribution(r)
  {
    var raw := WeightRow(s);
    PositiveSum(raw);
    EstimateIsDistribution(raw);
    Div(raw, Sum(raw))
  }

  function DefaultB(): (b: Mat)
    ensures IsMat(b, N_STATES, N_OBS)
    ensures forall s :: 0 <= s < N_STATES ==> Positive(b[s]) && Distribution(b[s])
  {
    seq(N_STATES, s requires 0 <= s < N_STATES => EmissionRow(s))
  }

  function Prob(table: Mat, s: nat, bin: nat): real {
    if s < |table| && bin < |table[s]| then table[s][bin] else 0.0
  }

  /** The default probability that state s shows the features f. */
  function Shows(s: nat, f: Features): real
    requires s < N_STATES && InBins(f)
  {
    DecodeEncode(f);
    DefaultB()[s][EncodeObservation(f)]
  }

  lemma ShowsWeight(s: nat, f: Features)
    requires s < N_STATES && InBins(f)
    ensures Sum(WeightRow(s)) > 0.0
    ensures Shows(s, f) == Times(Over(1.0, Sum(WeightRow(s))), FeatureWeight(s, f))
  {
    hide Times, Over, Sum, WeightRow, FeatureWeight;
    DecodeEncode(f);
    PositiveSum(WeightRow(s));
    OverTimes(FeatureWeight(s, f), Sum(WeightRow(s)));
  }

  function FiveTimes(a: real, b: real, c: real, d: real, e: real): real {
    Times(Times(Times(Times(a, b), c), d), e)
  }

  lemma FiveIs(a: real, b: real, c: real, d: real, e: real)
    ensures FiveTimes(a, b, c, d, e) == Times(Times(Times(Times(a, b), c), d), e)
  {
  }

  lemma WeightIs(s: nat, f: Features)
    requires s < N_STATES && InBins(f)
    ensures FeatureWeight(s, f)
         == FiveTimes(Prob(PRICE_VOL_PROBS, s, f.pv), Prob(BAS_PROBS, s, f.bas), Prob(OBI_PROBS, s, f.obi),
                      Prob(FR_PROBS, s, f.fr), Prob(PCR_PROBS, s, f.pcr))
  {
  }

  lemma SwapLast(p: real, x: real, y: real)
    ensures Times(Times(p, x), y) == Times(Times(p, y), x)
  {
  }

  /** Any of the five factors can be taken last. */
  lemma TakenLast(a: real, b: real, c: real, d: real, e: real)
    ensures FiveTimes(a, b, c, d, e) == Times(Times(Times(Times(b, c), d), e), a)
    ensures FiveTimes(a, b, c, d, e) == Times(Times(Times(Times(a, c), d), e), b)
    ensures FiveTimes(a, b, c, d, e) == Times(Times(Times(Times(a, b), d), e), c)
    ensures FiveTimes(a, b, c, d, e) == Times(Times(Times(Times(a, b), c), e), d)
  {
    hide Times;
    TimesComm(a, b);
    SwapLast(b, a, c);
    SwapLast(Times(b, c), a, d);
    SwapLast(Times(Times(b, c), d), a, e);
    SwapLast(a, b, c);
    SwapLast(Times(a, c), b, d);
    SwapLast(Times(Times(a, c), d), b, e);
    SwapLast(Times(a, b), c, d);
    SwapLast(Times(Times(a, b), d), c, e);
    SwapLast(Times(Times(a, b), c), d, e);
  }

  lemma Exchange(q: real, p: real, x: real, y: real)
    ensures Times(Times(q, Times(p, x)), y) == Times(Times(q, Times(p, y)), x)
  {
    hide Times;
    TimesAssoc(q, p, x);
    TimesAssoc(q, p, y);
    SwapLast(Times(q, p), x, y);
  }

  /** Two observations of one state have probabilities in the ratio of the table's two bins. */
  predicate InOdds(s: nat, f: Features, g: Features, table: Mat, from: nat, to: nat)
    requires s < N_STATES && InBins(f) && InBins(g)
  {
    Times(Shows(s, g), Prob(table, s, from)) == Times(Shows(s, f), Prob(table, s, to))
  }

  /**
   * The default B treats the features as independent: changing one feature changes the
   * probability in the odds of that feature's own table, whatever the other four are. With
   * each row adding up to one, no other B does.
   */
  lemma FeaturesAreIndependent(s: nat, f: Features, g: Features)
    requires s < N_STATES && InBins(f) && InBins(g)
    ensures g == f.(pv := g.pv) ==> InOdds(s, f, g, PRICE_VOL_PROBS, f.pv, g.pv)
    ensures g == f.(bas := g.bas) ==> InOdds(s, f, g, BAS_PROBS, f.bas, g.bas)
    ensures g == f.(obi := g.obi) ==> InOdds(s, f, g, OBI_PROBS, f.obi, g.obi)
    ensures g == f.(fr := g.fr) ==> InOdds(s, f, g, FR_PROBS, f.fr, g.fr)
    ensures g == f.(pcr := g.pcr) ==> InOdds(s, f, g, PCR_PROBS, f.pcr, g.pcr)
  {
    hide Times, Over, Sum, Shows, FiveTimes, Prob, WeightRow, FeatureWeight;
    ShowsWeight(s, f);
    ShowsWeight(s, g);
    var q := Over(1.0, Sum(WeightRow(s)));
    WeightIs(s, f);
    WeightIs(s, g);
    var a, b, c := Prob(PRICE_VOL_PROBS, s, f.pv), Prob(BAS_PROBS, s, f.bas), Prob(OBI_PROBS, s, f.obi);
    var d, e := Prob(FR_PROBS, s, f.fr), Prob(PCR_PROBS, s, f.pcr);
    var a', b', c' := Prob(PRICE_VOL_PROBS, s, g.pv), Prob(BAS_PROBS, s, g.bas), Prob(OBI_PROBS, s, g.obi);
    var d', e' := Prob(FR_PROBS, s, g.fr), Prob(PCR_PROBS, s, g.pcr);
    TakenLast(a, b, c, d, e);
    TakenLast(a', b', c', d', e');
    Exchange(q, Times(Times(Times(b, c), d), e), a, a');
    Exchange(q, Times(Times(Times(a, c), d), e), b, b');
    Exchange(q, Times(Times(Times(a, b), d), e), c, c');
    Exchange(q, Times(Times(Times(a, b), c), e), d, d');
    FiveIs(a, b, c, d, e);
    FiveIs(a', b', c', d', e');
    Exchange(q, Times(Times(Times(a, b), c), d), e, e');
  }

  lemma FourSum(a: real, b: real, c: real, d: real)
    ensures Sum([a, b, c, d]) == a + b + c + d
  {
    var v4: Vec, v3: Vec, v2: Vec, v1: Vec := [a, b, c, d], [a, b, c], [a, b], [a];
    assert Init(v4) == v3 && Init(v3) == v2 && Init(v2) == v1 && Init(v1) == [];
    assert Sum(v1) == a && Sum(v2) == a + b && Sum(v3) == a + b + c;
  }

  lemma DefaultsAreStochastic()
    ensures Stochastic(Hmm(DEFAULT_PI, DEFAULT_A, DefaultB()), N_OBS)
  {
    hide Sum, DefaultB;
    FourSum(0.50, 0.25, 0.15, 0.10);
    FourSum(0.75, 0.12, 0.08, 0.05);
    FourSum(0.20, 0.65, 0.10, 0.05);
    FourSum(0.15, 0.10, 0.65, 0.10);
    FourSum(0.25, 0.10, 0.15, 0.50);
    assert forall s :: 0 <= s < N_STATES ==> Distribution(DEFAULT_A[s]);
  }

  // ----- the filter as a function ----------------------------------------------

  /** Below this total the belief restarts from the prior. */
  const RESET_BELOW: Guard

  /** The belief, and the in-range observations it has absorbed since it was last reset to pi. */
  datatype Filter = Filter(belief: Vec, history: seq<nat>)

  function Start(h: Hmm): Filter {
    Filter(h.pi, [])
  }

  function Absorb(h: Hmm, symbols: nat, f: Filter, observation: int): (r: Filter)
    requires Sized(h, symbols) && |f.belief| == |h.pi|
    ensures |r.belief| == |h.pi|
  {
    if !(0 <= observation < symbols) then f else
      var updated := Mul(VecMat(f.belief, h.a), Col(h.b, observation));
      var denom := Sum(updated);
      if denom < RESET_BELOW then Start(h)
      else Filter(Div(updated, denom), f.history + [observation])
  }

  function Run(h: Hmm, symbols: nat, inputs: seq<int>): (r: Filter)
    requires Sized(h, symbols)
    ensures |r.belief| == |h.pi|
  {
    if inputs == [] then Start(h)
    else Absorb(h, symbols, Run(h, symbols, Init(inputs)), Last(inputs))
  }

  /** The model one step ahead: hidden states start from pi @ A. */
  function Predicted(h: Hmm): Hmm
    requires IsMat(h.a, |h.pi|, |h.pi|)
  {
    h.(pi := VecMat(h.pi, h.a))
  }

  /** Last scaled row of the forward pass on the history, from prior pi @ A. */
  ghost predicate IsForwardRow(h: Hmm, symbols: nat, f: Filter)
    requires Sized(h, symbols)
  {
    && InAlphabet(f.history, symbols)
    && f.belief == (if f.history == [] then h.pi else Alpha(Predicted(h), f.history, |f.history| - 1))
  }

  lemma {:induction false} AlphaPrefix(h: Hmm, obs: seq<nat>, o: nat, t: nat)
    requires Ready(h, obs) && Ready(h, obs + [o]) && t < |obs|
    ensures Raw(h, obs + [o], t) == Raw(h, obs, t)
    ensures Alpha(h, obs + [o], t) == Alpha(h, obs, t)
  {
    hide Times, Over, Sum, Mul, VecMat;
    assert Emission(h, obs + [o], t) == Emission(h, obs, t);
    if t > 0 {
      AlphaPrefix(h, obs, o, t - 1);
    }
  }

  lemma UpdateKeepsForwardRow(h: Hmm, symbols: nat, f: Filter, observation: int)
    requires Stochastic(h, symbols) && |f.belief| == |h.pi|
    requires IsForwardRow(h, symbols, f) && Distribution(f.belief)
    ensures var r := Absorb(h, symbols, f, observation);
            IsForwardRow(h, symbols, r) && Distribution(r.belief)
  {
    hide Times, Over, Sum, Mul, VecMat, Alpha, Raw;
    if 0 <= observation < symbols {
      var updated := Mul(VecMat(f.belief, h.a), Col(h.b, observation));
      var denom := Sum(updated);
      if denom >= RESET_BELOW {
        AbsorbIsForwardRow(h, symbols, f, observation);
        PushNonNegative(h, [observation], 0, f.belief);
        DivNonNegative(updated, denom);
        SumDiv(updated, denom);
        OverTimes(denom, denom);
      }
    }
  }

  lemma AbsorbIsForwardRow(h: Hmm, symbols: nat, f: Filter, o: nat)
    requires Sized(h, symbols) && |f.belief| == |h.pi| && IsForwardRow(h, symbols, f) && o < symbols
    requires Sum(Mul(VecMat(f.belief, h.a), Col(h.b, o))) >= RESET_BELOW
    ensures Absorb(h, symbols, f, o).history == f.history + [o]
    ensures Absorb(h, symbols, f, o).belief == Alpha(Predicted(h), f.history + [o], |f.history|)
  {
    hide Times, Over, Sum, Mul, VecMat;
    var g, obs := Predicted(h), f.history + [o];
    if f.history != [] {
      AlphaPrefix(g, f.history, o, |f.history| - 1);
    }
    assert Emission(g, obs, |f.history|) == Col(h.b, o);
  }

  /**
   * Over any run of updates the belief is a distribution, and it is the last
   * scaled forward row on the observations absorbed since the last reset.
   */
  lemma {:induction false} FilterIsForward(h: Hmm, symbols: nat, inputs: seq<int>)
    requires Stochastic(h, symbols)
    ensures var f := Run(h, symbols, inputs);
            Distribution(f.belief) && IsForwardRow(h, symbols, f)
  {
    hide Sum, Absorb, IsForwardRow;
    if inputs == [] {
      StartIsForwardRow(h, symbols);
    } else {
      FilterIsForward(h, symbols, Init(inputs));
      UpdateKeepsForwardRow(h, symbols, Run(h, symbols, Init(inputs)), Last(inputs));
    }
  }

  lemma StartIsForwardRow(h: Hmm, symbols: nat)
    requires Stochastic(h, symbols)
    ensures IsForwardRow(h, symbols, Start(h)) && Distribution(h.pi)
  {
  }

  /**
   * The belief is the exact posterior of the current hidden state: times the
   * probability of the absorbed observations it is the weight of every hidden
   * path ending in that state.
   */
  lemma BeliefIsPosterior(h: Hmm, symbols: nat, inputs: seq<int>, i: nat)
    requires Stochastic(h, symbols) && i < |h.pi|
    requires Run(h, symbols, inputs).history != []
    ensures var f := Run(h, symbols, inputs);
            && Ready(Predicted(h), f.history)
            && Likelihood(Predicted(h), f.history) > 0.0
            && Times(Likelihood(Predicted(h), f.history), f.belief[i])
               == EndVec(Predicted(h), f.history, Paths(|f.history|, |h.pi|), |f.history|, map[])[i]
  {
    hide Times, Over, Sum, Mul, VecMat, EndVec, Product, Likelihood, Run;
    var f := Run(h, symbols, inputs);
    var g := Predicted(h);
    var n := |f.history|;
    FilterIsForward(h, symbols, inputs);
    ForwardIsPathSum(g, f.history, n - 1);
    assert Scales(g, f.history)[..n] == Scales(g, f.history);
    PredictedIsNonNegative(h, symbols);
    ScalesGiveLikelihood(g, f.history);
    AlphaTotal(g, f.history, n - 1);
    LiveLikelihood(g, f.history);
  }

  /** How probable the observations are for a hidden chain that starts from pi and moves before each. */
  function Evidence(h: Hmm, obs: seq<nat>): real
    requires IsMat(h.a, |h.pi|, |h.pi|) && (obs != [] ==> Ready(Predicted(h), obs))
  {
    if obs == [] then 1.0 else Likelihood(Predicted(h), obs)
  }

  lemma NextScale(h: Hmm, symbols: nat, f: Filter, o: nat)
    requires Stochastic(h, symbols) && |f.belief| == |h.pi| && IsForwardRow(h, symbols, f) && o < symbols
    ensures Ready(Predicted(h), f.history + [o])
    ensures Sum(Raw(Predicted(h), f.history + [o], |f.history|)) == Sum(Mul(VecMat(f.belief, h.a), Col(h.b, o)))
  {
    hide Times, Over, Sum, Mul, VecMat;
    var g, obs := Predicted(h), f.history + [o];
    if f.history != [] {
      AlphaPrefix(g, f.history, o, |f.history| - 1);
    }
    assert Emission(g, obs, |f.history|) == Col(h.b, o);
  }

  lemma ScalesPrefix(h: Hmm, obs: seq<nat>, o: nat)
    requires Ready(h, obs) && Ready(h, obs + [o])
    ensures Init(Scales(h, obs + [o])) == Scales(h, obs)
  {
    hide Times, Over, Sum, Alpha, Raw;
    forall t | 0 <= t < |obs| ensures ScaleAt(h, obs + [o], t) == ScaleAt(h, obs, t) {
      AlphaPrefix(h, obs, o, t);
    }
  }

  /** The normaliser of an update is the probability of the observation given those before it. */
  lemma EvidenceGrows(h: Hmm, symbols: nat, f: Filter, o: nat)
    requires Stochastic(h, symbols) && |f.belief| == |h.pi| && IsForwardRow(h, symbols, f) && o < symbols
    requires f.history != [] ==> Product(Scales(Predicted(h), f.history)) == Evidence(h, f.history)
    ensures Evidence(h, f.history + [o])
         == Times(Evidence(h, f.history), Sum(Mul(VecMat(f.belief, h.a), Col(h.b, o))))
  {
    hide Times, Over, Sum, Mul, VecMat, Likelihood, Alpha, Raw, Product, Predicted, IsForwardRow;
    NextScale(h, symbols, f, o);
    HistoryReady(h, symbols, f);
    var g, obs, n := Predicted(h), f.history + [o], |f.history|;
    var denom := Sum(Raw(g, obs, n));
    var past := if n == 0 then 1.0 else Product(Scales(g, f.history));
    LikelihoodFactors(g, obs);
    AlphaTotal(g, obs, n);
    assert Product(Scales(g, obs)) == Times(past, ScaleAt(g, obs, n)) by {
      ProductSnoc(Scales(g, obs));
      if n > 0 {
        ScalesPrefix(g, f.history, o);
      }
    }
    TimesUnits(Product(Scales(g, obs)));
    TimesUnits(past);
  }

  lemma ProductSnoc(v: Vec)
    requires v != []
    ensures Product(v) == Times(if |v| == 1 then 1.0 else Product(Init(v)), Last(v))
  {
  }

  /** After any run the scales of the absorbed observations multiply to their evidence, which is positive. */
  lemma EvidenceOfRun(h: Hmm, symbols: nat, inputs: seq<int>)
    requires Stochastic(h, symbols)
    ensures var f := Run(h, symbols, inputs);
            && IsForwardRow(h, symbols, f)
            && Evidence(h, f.history) > 0.0
            && (f.history != [] ==> Product(Scales(Predicted(h), f.history)) == Evidence(h, f.history))
  {
    hide Times, Over, Sum, Mul, VecMat, Product, Likelihood, Run;
    var f := Run(h, symbols, inputs);
    var g, n := Predicted(h), |f.history|;
    FilterIsForward(h, symbols, inputs);
    if n > 0 {
      PredictedIsNonNegative(h, symbols);
      ScalesGiveLikelihood(g, f.history);
      AlphaTotal(g, f.history, n - 1);
      LiveLikelihood(g, f.history);
    }
  }

  /**
   * Over any run: an observation out of range changes nothing; one whose probability, given
   * those absorbed, is below the threshold resets the belief to pi; any other is absorbed.
   */
  lemma ResetsExactlyWhen(h: Hmm, symbols: nat, inputs: seq<int>, o: int)
    requires Stochastic(h, symbols)
    ensures var f, t := Run(h, symbols, inputs), Run(h, symbols, inputs + [o]);
            && (f.history != [] ==> Ready(Predicted(h), f.history))
            && Evidence(h, f.history) > 0.0
            && if !(0 <= o < symbols) then t == f
               else
                 && Ready(Predicted(h), f.history + [o])
                 && if Evidence(h, f.history + [o]) < Times(RESET_BELOW, Evidence(h, f.history)) then
                      t.belief == h.pi && t.history == []
                    else t.history == f.history + [o]
  {
    hide Times, Over, Sum, Mul, VecMat, Likelihood, Evidence, Product, Run, IsForwardRow;
    var f := Run(h, symbols, inputs);
    RunSnoc(h, symbols, inputs, o);
    EvidenceOfRun(h, symbols, inputs);
    HistoryReady(h, symbols, f);
    if 0 <= o < symbols {
      NextScale(h, symbols, f, o);
      EvidenceGrows(h, symbols, f, o);
      var denom := Sum(Mul(VecMat(f.belief, h.a), Col(h.b, o)));
      TimesComm(RESET_BELOW, Evidence(h, f.history));
      TimesOrderIff(Evidence(h, f.history), denom, RESET_BELOW);
    }
  }

  lemma HistoryReady(h: Hmm, symbols: nat, f: Filter)
    requires Stochastic(h, symbols) && |f.belief| == |h.pi| && IsForwardRow(h, symbols, f)
    ensures f.history != [] ==> Ready(Predicted(h), f.history)
  {
  }

  lemma RunSnoc(h: Hmm, symbols: nat, inputs: seq<int>, o: int)
    requires Sized(h, symbols)
    ensures Run(h, symbols, inputs + [o]) == Absorb(h, symbols, Run(h, symbols, inputs), o)
  {
    hide Absorb;
    assert Init(inputs + [o]) == inputs;
  }

  lemma TimesOrderIff(c: real, x: real, y: real)
    requires c > 0.0
    ensures Times(c, x) < Times(c, y) <==> x < y
  {
    hide Times;
    TimesDist(c, x, y - x);
    TimesDist(c, y, x - y);
    TimesSign(c, y - x);
    TimesSign(c, x - y);
  }

  lemma PredictedIsNonNegative(h: Hmm, symbols: nat)
    requires Stochastic(h, symbols)
    ensures NonNegativeHmm(Predicted(h))
  {
    hide Times, Dot, Sum;
    forall j | 0 <= j < |h.pi| ensures VecMat(h.pi, h.a)[j] >= 0.0 {
      MulNonNegative(h.pi, Col(h.a, j));
    }
  }

  // ----- the class -------------------------------------------------------------

  class RegimeDetector {
    var pi: Vec
    var a: Mat
    var b: Mat
    var belief: Vec
    var lastObs: Option<nat>
    /** In-range observations absorbed since the belief was last set to pi. */
    ghost var history: seq<nat>

    ghost function Model(): Hmm
      reads this
    {
      Hmm(pi, a, b)
    }

    ghost function Abs(): Filter
      reads this
    {
      Filter(belief, history)
    }

    ghost predicate Valid()
      reads this
    {
      && |pi| == N_STATES && |belief| == N_STATES
      && Stochastic(Model(), N_OBS)
      && Distribution(belief)
      && IsForwardRow(Model(), N_OBS, Abs())
    }

    constructor ()
      ensures Valid() && Model() == Hmm(DEFAULT_PI, DEFAULT_A, DefaultB())
      ensures Abs() == Start(Model()) && lastObs == None
    {
      pi := DEFAULT_PI;
      a := DEFAULT_A;
      b := DefaultB();
      belief := DEFAULT_PI;
      lastObs := None;
      history := [];
      new;
      DefaultsAreStochastic();
    }

    method Update(observation: int)
      requires Valid()
      modifies this
      ensures Valid() && Model() == old(Model())
      ensures Abs() == Absorb(Model(), N_OBS, old(Abs()), observation)
      ensures lastObs == if 0 <= observation < N_OBS then Some(observation) else old(lastObs)
    {
      hide Times, Over, Sum, Mul, VecMat, Alpha;
      ghost var before := Abs();
      ghost var model := Model();
      UpdateKeepsForwardRow(model, N_OBS, before, observation);
      if !(0 <= observation < N_OBS) {
        return;
      }
      var pred := VecMat(belief, a);
      var likelihood := Col(b, observation);
      var updated := Mul(pred, likelihood);
      var denom := Sum(updated);
      if denom < RESET_BELOW {
        belief := pi;
        history := [];
      } else {
        belief := Div(updated, denom);
        history := history + [observation];
      }
      lastObs := Some(observation);
    }

    /** Baum-Welch from the current parameters; the belief restarts from the new pi. */
    method Train(sequences: seq<seq<nat>>, nIter: nat, tol: real, log: real -> real)
      requires Valid() && forall obs :: obs in sequences ==> InAlphabet(obs, N_OBS)
      modifies this
      ensures Valid() && Abs() == Start(Model()) && lastObs == old(lastObs)
      ensures exists rounds: nat :: StopsAfter(old(Model()), sequences, N_OBS, nIter, tol, log, rounds)
                && Model() == EmRounds(old(Model()), sequences, N_OBS, rounds)
    {
      hide Times, Over, Sum, EmRounds;
      ghost var before := Model();
      var h, rounds := BaumWelch.Train(Hmm(pi, a, b), sequences, N_OBS, nIter, tol, log);
      pi, a, b := h.pi, h.a, h.b;
      belief := pi;
      history := [];
      if nIter == 0 {
        assert rounds == 0;
        NoRounds(before, sequences);
      }
      StartIsForwardRow(Model(), N_OBS);
    }
  }

  lemma NoRounds(h: Hmm, sequences: seq<seq<nat>>)
    requires Sized(h, N_OBS) && NonNegativeHmm(h)
    requires forall obs :: obs in sequences ==> InAlphabet(obs, N_OBS)
    ensures EmRounds(h, sequences, N_OBS, 0) == h
  {
  }
}
