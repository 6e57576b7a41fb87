/** The Baum-Welch expectation and maximisation steps over a list of observation sequences. */
module BaumWelch {
  import opened LinearAlgebra
  import opened Reals
  import opened HiddenPaths
  import opened ForwardBackward

  /** A least probability; 1e-10 in the code, but what is proved holds for every one. */
  type Least = x: real | 0.0 < x < 1.0 witness 1e-10

  const FLOOR: Least

  predicate Distribution(v: Vec) {
    NonNegative(v) && Sum(v) == 1.0
  }

  /** states x states transitions, states x symbols emissions, every row a distribution. */
  predicate Stochastic(h: Hmm, symbols: nat) {
    && Sized(h, symbols)
    && Distribution(h.pi)
    && (forall i :: 0 <= i < |h.a| ==> Distribution(h.a[i]))
    && (forall i :: 0 <= i < |h.b| ==> Distribution(h.b[i]))
  }

  predicate Sized(h: Hmm, symbols: nat) {
    && h.pi != [] && symbols > 0
    && IsMat(h.a, |h.pi|, |h.pi|)
    && IsMat(h.b, |h.pi|, symbols)
  }

  predicate StrictlyPositive(h: Hmm) {
    && Positive(h.pi)
    && (forall i :: 0 <= i < |h.a| ==> Positive(h.a[i]))
    && (forall i :: 0 <= i < |h.b| ==> Positive(h.b[i]))
  }

  predicate InAlphabet(obs: seq<nat>, symbols: nat) {
    forall t :: 0 <= t < |obs| ==> obs[t] < symbols
  }

  // ----- expectation step, one sequence ----------------------------------------

  /** start plus xi_0 + ... + xi_{n-1} */
  function TransitionCounts(h: Hmm, obs: seq<nat>, n: nat, start: Mat): (r: Mat)
    requires Ready(h, obs) && n < |obs| && IsMat(start, |h.pi|, |h.pi|)
    ensures IsMat(r, |h.pi|, |h.pi|)
  {
    if n == 0 then start else AddMat(TransitionCounts(h, obs, n - 1, start), Xi(h, obs, n - 1))
  }

  /** m with v added to column o. */
  function AddCol(m: Mat, o: nat, v: Vec): (r: Mat)
    requires |m| == |v|
    ensures |r| == |m|
    ensures forall i :: 0 <= i < |m| ==> r[i] == AddAt(m[i], o, v[i])
  {
    seq(|m|, i requires 0 <= i < |m| => AddAt(m[i], o, v[i]))
  }

  function AddAt(row: Vec, o: nat, x: real): (r: Vec)
    ensures |r| == |row|
    ensures forall k :: 0 <= k < |row| ==> r[k] == if k == o then row[k] + x else row[k]
  {
    if o < |row| then row[o := row[o] + x] else row
  }

  /** start with gamma[t] added to column obs[t], for every t < n */
  function EmissionCounts(h: Hmm, obs: seq<nat>, n: nat, start: Mat, symbols: nat): (r: Mat)
    requires Ready(h, obs) && n <= |obs| && IsMat(start, |h.pi|, symbols)
    ensures IsMat(r, |h.pi|, symbols)
  {
    if n == 0 then start
    else AddCol(EmissionCounts(h, obs, n - 1, start, symbols), obs[n - 1], Gamma(h, obs, n - 1))
  }

  /** gamma[0] + ... + gamma[n-1] */
  function Occupancy(h: Hmm, obs: seq<nat>, n: nat): (r: Vec)
    requires Ready(h, obs) && n <= |obs|
    ensures |r| == |h.pi|
  {
    if n == 0 then Const(|h.pi|, 0.0) else Add(Occupancy(h, obs, n - 1), Gamma(h, obs, n - 1))
  }

  datatype Counts = Counts(pi: Vec, a: Mat, b: Mat)

  predicate CountsFit(c: Counts, states: nat, symbols: nat) {
    |c.pi| == states && IsMat(c.a, states, states) && IsMat(c.b, states, symbols)
  }

  function AddSequence(h: Hmm, c: Counts, obs: seq<nat>, symbols: nat): (r: Counts)
    requires Sized(h, symbols) && InAlphabet(obs, symbols) && CountsFit(c, |h.pi|, symbols)
    ensures CountsFit(r, |h.pi|, symbols)
  {
    if |obs| < 2 then c else
      Counts(Add(c.pi, Gamma(h, obs, 0)),
             TransitionCounts(h, obs, |obs| - 1, c.a),
             EmissionCounts(h, obs, |obs|, c.b, symbols))
  }

  function Collect(h: Hmm, seqs: seq<seq<nat>>, symbols: nat): (r: Counts)
    requires Sized(h, symbols) && forall obs :: obs in seqs ==> InAlphabet(obs, symbols)
    ensures CountsFit(r, |h.pi|, symbols)
  {
    if seqs == [] then
      Counts(Const(|h.pi|, 0.0), ZeroMat(|h.pi|, |h.pi|), ZeroMat(|h.pi|, symbols))
    else
      assert Last(seqs) in seqs;
      AddSequence(h, Collect(h, Init(seqs), symbols), Last(seqs), symbols)
  }

  function GammaRows(alpha: Mat, beta: Mat, states: nat): (r: Mat)
    requires IsMat(alpha, |beta|, states) && IsMat(beta, |beta|, states)
    ensures |r| == |beta|
    ensures forall t :: 0 <= t < |beta| ==> r[t] == Normalise(Mul(alpha[t], beta[t]))
  {
    seq(|beta|, t requires 0 <= t < |beta| => Normalise(Mul(alpha[t], beta[t])))
  }

  lemma XiUnfold(h: Hmm, obs: seq<nat>, t: nat)
    requires Ready(h, obs) && t + 1 < |obs|
    ensures XiNumerator(h, obs, t)
         == OuterTimes(Alpha(h, obs, t), Mul(Beta(h, obs, t + 1), Emission(h, obs, t + 1)), h.a)
    ensures Xi(h, obs, t)
         == DivMat(XiNumerator(h, obs, t), OrTiny(Sum(RowSums(XiNumerator(h, obs, t)))))
  {
  }

  method AccumulateTransitions(h: Hmm, obs: seq<nat>, alpha: Mat, beta: Mat, start: Mat) returns (a: Mat)
    requires Ready(h, obs) && IsMat(start, |h.pi|, |h.pi|)
    requires |alpha| == |obs| && forall t :: 0 <= t < |obs| ==> alpha[t] == Alpha(h, obs, t)
    requires |beta| == |obs| && forall t :: 0 <= t < |obs| ==> beta[t] == Beta(h, obs, t)
    ensures a == TransitionCounts(h, obs, |obs| - 1, start)
  {
    hide Times, Over, Sum, Alpha, Beta, XiNumerator, Xi;
    a := start;
    for t := 0 to |obs| - 1
      invariant a == TransitionCounts(h, obs, t, start)
    {
      var numer := OuterTimes(alpha[t], Mul(beta[t + 1], Emission(h, obs, t + 1)), h.a);
      XiUnfold(h, obs, t);
      var denom := Sum(RowSums(numer));
      if denom == 0.0 {
        denom := TINY;
      }
      a := AddMat(a, DivMat(numer, denom));
    }
  }

  method AccumulateEmissions(h: Hmm, obs: seq<nat>, gamma: Mat, start: Mat, symbols: nat) returns (b: Mat)
    requires Ready(h, obs) && IsMat(start, |h.pi|, symbols)
    requires |gamma| == |obs| && forall t :: 0 <= t < |obs| ==> gamma[t] == Gamma(h, obs, t)
    ensures b == EmissionCounts(h, obs, |obs|, start, symbols)
  {
    hide Gamma;
    b := start;
    for t := 0 to |obs|
      invariant b == EmissionCounts(h, obs, t, start, symbols)
    {
      b := AddCol(b, obs[t], gamma[t]);
    }
  }

  lemma AlphabetFits(h: Hmm, obs: seq<nat>, symbols: nat)
    requires Sized(h, symbols) && InAlphabet(obs, symbols) && |obs| >= 2
    ensures Ready(h, obs)
  {
  }

  method Accumulate(h: Hmm, c: Counts, obs: seq<nat>, symbols: nat, log: real -> real) returns (r: Counts, ll: real)
    requires Sized(h, symbols) && InAlphabet(obs, symbols) && CountsFit(c, |h.pi|, symbols)
    requires |obs| >= 2 && Ready(h, obs)
    ensures r == AddSequence(h, c, obs, symbols)
    ensures ll == LogLikelihood(Scales(h, obs), log)
  {
    hide Times, Over, Sum, Alpha, Beta, ScaleAt, TransitionCounts, EmissionCounts, Normalise;
    var alpha, scale;
    alpha, scale, ll := Forward(h, obs, log);
    var beta := Backward(h, obs, scale);
    var gamma := GammaRows(alpha, beta, |h.pi|);
    var a := AccumulateTransitions(h, obs, alpha, beta, c.a);
    var b := AccumulateEmissions(h, obs, gamma, c.b, symbols);
    r := Counts(Add(c.pi, gamma[0]), a, b);
  }

  // ----- what the counts mean --------------------------------------------------

  /** A start in a state, a move between two states, or a symbol emitted from a state. */
  datatype Event = Begin(i: nat) | Move(i: nat, j: nat) | Emit(i: nat, o: nat)

  predicate Happens(ev: Event, obs: seq<nat>, p: Path, t: nat)
    requires t < |p| <= |obs|
  {
    match ev
    case Begin(i) => t == 0 && p[t] == i
    case Move(i, j) => t + 1 < |p| && p[t] == i && p[t + 1] == j
    case Emit(i, o) => p[t] == i && obs[t] == o
  }

  /** How often ev happens on p in the first n positions. */
  function Happenings(ev: Event, obs: seq<nat>, p: Path, n: nat): nat
    requires n <= |p| <= |obs|
  {
    if n == 0 then 0 else Happenings(ev, obs, p, n - 1) + (if Happens(ev, obs, p, n - 1) then 1 else 0)
  }

  /** Sum over the listed full-length paths of P(path, obs) times the number of happenings of ev on it. */
  function EventMass(h: Hmm, obs: seq<nat>, ps: seq<Path>, ev: Event, n: nat): real
    requires PathsFit(h, obs, ps, |obs|) && n <= |obs|
  {
    if ps == [] then 0.0 else
      assert Last(ps) in ps;
      EventMass(h, obs, Init(ps), ev, n)
      + Times(Happenings(ev, obs, Last(ps), n) as real, Joint(h, obs, Last(ps)))
  }

  /** The posterior mass of ev at time t. */
  function EventAt(h: Hmm, obs: seq<nat>, ps: seq<Path>, ev: Event, t: nat): real
    requires PathsFit(h, obs, ps, |obs|) && t < |obs|
  {
    match ev
    case Begin(i) =>
      if t == 0 then PathSum(h, obs, ps, |obs|, map[t := i]) else 0.0
    case Move(i, j) =>
      if t + 1 < |obs| then PathSum(h, obs, ps, |obs|, map[t := i, t + 1 := j]) else 0.0
    case Emit(i, o) =>
      if obs[t] == o then PathSum(h, obs, ps, |obs|, map[t := i]) else 0.0
  }

  lemma {:induction false} EventMassStart(h: Hmm, obs: seq<nat>, ps: seq<Path>, ev: Event)
    requires PathsFit(h, obs, ps, |obs|)
    ensures EventMass(h, obs, ps, ev, 0) == 0.0
  {
    hide Times;
    if ps != [] {
      assert Last(ps) in ps;
      EventMassStart(h, obs, Init(ps), ev);
      TimesUnits(Joint(h, obs, Last(ps)));
    }
  }

  lemma {:induction false} EventMassStep(h: Hmm, obs: seq<nat>, ps: seq<Path>, ev: Event, t: nat)
    requires PathsFit(h, obs, ps, |obs|) && t < |obs|
    ensures EventMass(h, obs, ps, ev, t + 1) == EventMass(h, obs, ps, ev, t) + EventAt(h, obs, ps, ev, t)
  {
    hide Times, Joint;
    if ps != [] {
      assert Last(ps) in ps;
      var p := Last(ps);
      EventMassStep(h, obs, Init(ps), ev, t);
      var w := Joint(h, obs, p);
      TimesDist(w, Happenings(ev, obs, p, t) as real, 1.0);
      TimesUnits(w);
      match ev
      case Move(i, j) =>
        assert t + 1 < |obs| ==> (Agrees(p, map[t := i, t + 1 := j]) <==> p[t] == i && p[t + 1] == j) by {
          var pins: Pins := map[t := i, t + 1 := j];
          assert t in pins && t + 1 in pins;
        }
      case _ =>
        var i := ev.i;
        assert Agrees(p, map[t := i]) <==> p[t] == i by {
          var pins: Pins := map[t := i];
          assert t in pins;
        }
    }
  }

  /**
   * A_acc[i][j] gains the expected number of moves from i to j given the
   * observations: times the likelihood, the weight of every path counted once
   * per such move on it.
   */
  lemma {:induction false} TransitionCountsMean(h: Hmm, obs: seq<nat>, n: nat, start: Mat, i: nat, j: nat)
    requires Ready(h, obs) && Live(h, obs) && n < |obs| && IsMat(start, |h.pi|, |h.pi|)
    requires i < |h.pi| && j < |h.pi|
    ensures Times(Likelihood(h, obs), TransitionCounts(h, obs, n, start)[i][j] - start[i][j])
         == EventMass(h, obs, Paths(|obs|, |h.pi|), Move(i, j), n)
  {
    hide Times, Likelihood, Live, Xi, EventMass, Paths;
    if n == 0 {
      TimesUnits(Likelihood(h, obs));
      EventMassStart(h, obs, Paths(|obs|, |h.pi|), Move(i, j));
    } else {
      TransitionCountsMean(h, obs, n - 1, start, i, j);
      XiIsPosterior(h, obs, n - 1, i, j);
      EventMassStep(h, obs, Paths(|obs|, |h.pi|), Move(i, j), n - 1);
      TimesDist(Likelihood(h, obs), TransitionCounts(h, obs, n - 1, start)[i][j] - start[i][j],
                Xi(h, obs, n - 1)[i][j]);
    }
  }

  /** B_acc[i][o] gains the expected number of times state i emits symbol o. */
  lemma {:induction false} EmissionCountsMean(h: Hmm, obs: seq<nat>, n: nat, start: Mat, symbols: nat, i: nat, o: nat)
    requires Ready(h, obs) && Live(h, obs) && n <= |obs| && IsMat(start, |h.pi|, symbols)
    requires i < |h.pi| && o < symbols
    ensures Times(Likelihood(h, obs), EmissionCounts(h, obs, n, start, symbols)[i][o] - start[i][o])
         == EventMass(h, obs, Paths(|obs|, |h.pi|), Emit(i, o), n)
  {
    hide Times, Likelihood, Live, Gamma, EventMass, Paths;
    if n == 0 {
      TimesUnits(Likelihood(h, obs));
      EventMassStart(h, obs, Paths(|obs|, |h.pi|), Emit(i, o));
    } else {
      EmissionCountsMean(h, obs, n - 1, start, symbols, i, o);
      GammaIsPosterior(h, obs, n - 1, i);
      EventMassStep(h, obs, Paths(|obs|, |h.pi|), Emit(i, o), n - 1);
      TimesDist(Likelihood(h, obs), EmissionCounts(h, obs, n - 1, start, symbols)[i][o] - start[i][o],
                Gamma(h, obs, n - 1)[i]);
    }
  }

  /** pi_acc[i] gains the probability that the hidden path starts in state i. */
  lemma {:induction false} StartMean(h: Hmm, obs: seq<nat>, n: nat, i: nat)
    requires Ready(h, obs) && Live(h, obs) && 0 < n <= |obs| && i < |h.pi|
    ensures Times(Likelihood(h, obs), Gamma(h, obs, 0)[i])
         == EventMass(h, obs, Paths(|obs|, |h.pi|), Begin(i), n)
  {
    hide Times, Likelihood, Live, Gamma, EventMass, Paths;
    EventMassStep(h, obs, Paths(|obs|, |h.pi|), Begin(i), n - 1);
    if n == 1 {
      EventMassStart(h, obs, Paths(|obs|, |h.pi|), Begin(i));
      GammaIsPosterior(h, obs, 0, i);
    } else {
      StartMean(h, obs, n - 1, i);
    }
  }

  // ----- conservation of counts ------------------------------------------------

  lemma {:induction false} BetaNonNegative(h: Hmm, obs: seq<nat>, t: nat)
    requires Ready(h, obs) && NonNegativeHmm(h) && t < |obs|
    ensures NonNegative(Beta(h, obs, t))
    decreases |obs| - t
  {
    hide Times, Over, Dot, Sum, ScaleAt;
    if t < |obs| - 1 {
      var w := Mul(Emission(h, obs, t + 1), Beta(h, obs, t + 1));
      BetaNonNegative(h, obs, t + 1);
      MulNonNegative(Emission(h, obs, t + 1), Beta(h, obs, t + 1));
      forall i | 0 <= i < |h.pi| ensures MatVec(h.a, w)[i] >= 0.0 {
        MulNonNegative(h.a[i], w);
      }
      AlphaNonNegative(h, obs, t + 1);
      DivNonNegative(MatVec(h.a, w), ScaleAt(h, obs, t + 1));
    }
  }

  lemma GammaNonNegative(h: Hmm, obs: seq<nat>, t: nat)
    requires Ready(h, obs) && NonNegativeHmm(h) && t < |obs|
    ensures NonNegative(Gamma(h, obs, t))
    ensures Sum(Gamma(h, obs, t)) == if Live(h, obs) then 1.0 else 0.0
    ensures !Live(h, obs) ==> Gamma(h, obs, t) == Const(|h.pi|, 0.0)
  {
    hide Times, Over, Sum, Alpha, Beta, Live;
    var g := Mul(Alpha(h, obs, t), Beta(h, obs, t));
    AlphaNonNegative(h, obs, t);
    BetaNonNegative(h, obs, t);
    MulNonNegative(Alpha(h, obs, t), Beta(h, obs, t));
    AlphaBetaTotal(h, obs, t);
    DivNonNegative(g, OrTiny(Sum(g)));
    if Live(h, obs) {
      GammaIsProduct(h, obs, t);
    } else {
      SumZeroIff(g);
      OverTimes(0.0, TINY);
      assert Gamma(h, obs, t) == Const(|h.pi|, 0.0);
      SumZero(|h.pi|);
    }
  }

  lemma XiNonNegative(h: Hmm, obs: seq<nat>, t: nat)
    requires Ready(h, obs) && NonNegativeHmm(h) && t + 1 < |obs|
    ensures forall i :: 0 <= i < |h.pi| ==> NonNegative(Xi(h, obs, t)[i])
    ensures RowSums(Xi(h, obs, t)) == Gamma(h, obs, t)
  {
    hide Times, Over, Sum, Alpha, Beta, Live, ScaleAt, Gamma;
    var numer := XiNumerator(h, obs, t);
    var alpha, next, e := Alpha(h, obs, t), Beta(h, obs, t + 1), Emission(h, obs, t + 1);
    AlphaNonNegative(h, obs, t);
    BetaNonNegative(h, obs, t + 1);
    AlphaNonNegative(h, obs, t + 1);
    XiDenominator(h, obs, t);
    MulNonNegative(next, e);
    var d := OrTiny(Sum(RowSums(numer)));
    forall i | 0 <= i < |h.pi| ensures NonNegative(numer[i]) && NonNegative(Xi(h, obs, t)[i]) {
      forall j | 0 <= j < |h.pi| ensures Scale(alpha[i], Mul(next, e))[j] >= 0.0 {
        TimesSign(alpha[i], Mul(next, e)[j]);
      }
      MulNonNegative(Scale(alpha[i], Mul(next, e)), h.a[i]);
      DivNonNegative(numer[i], d);
    }
    if Live(h, obs) {
      XiMarginals(h, obs, t);
    } else {
      forall i | 0 <= i < |h.pi| ensures RowSums(numer)[i] >= 0.0 {
        SumNonNegative(numer[i]);
      }
      SumZeroIff(RowSums(numer));
      DivMatSums(numer, d, |h.pi|);
      OverTimes(0.0, d);
      GammaNonNegative(h, obs, t);
    }
  }

  /**
   * Row i of A_acc gains the sum of gamma[t][i] over t < n, and stays non-negative; an
   * impossible sequence contributes nothing.
   */
  lemma {:induction false} TransitionRowTotals(h: Hmm, obs: seq<nat>, n: nat, start: Mat)
    requires Ready(h, obs) && NonNegativeHmm(h) && n < |obs| && IsMat(start, |h.pi|, |h.pi|)
    requires forall i :: 0 <= i < |start| ==> NonNegative(start[i])
    ensures RowSums(TransitionCounts(h, obs, n, start)) == Add(RowSums(start), Occupancy(h, obs, n))
    ensures forall i :: 0 <= i < |start| ==> NonNegative(TransitionCounts(h, obs, n, start)[i])
  {
    hide Sum, Xi, Gamma;
    if n > 0 {
      TransitionRowTotals(h, obs, n - 1, start);
      XiNonNegative(h, obs, n - 1);
      var prev := TransitionCounts(h, obs, n - 1, start);
      forall i | 0 <= i < |h.pi|
        ensures RowSums(TransitionCounts(h, obs, n, start))[i]
             == Add(RowSums(start), Occupancy(h, obs, n))[i]
      {
        SumAdd(prev[i], Xi(h, obs, n - 1)[i]);
        assert RowSums(Xi(h, obs, n - 1))[i] == Gamma(h, obs, n - 1)[i];
      }
    }
  }

  lemma {:induction false} SumAddAt(row: Vec, o: nat, x: real)
    requires o < |row|
    ensures Sum(AddAt(row, o, x)) == Sum(row) + x
  {
    if o == |row| - 1 {
      assert Init(AddAt(row, o, x)) == Init(row);
    } else {
      SumAddAt(Init(row), o, x);
      assert Init(AddAt(row, o, x)) == AddAt(Init(row), o, x);
    }
  }

  lemma {:induction false} EmissionRowTotals(h: Hmm, obs: seq<nat>, n: nat, start: Mat, symbols: nat)
    requires Ready(h, obs) && NonNegativeHmm(h) && InAlphabet(obs, symbols)
    requires n <= |obs| && IsMat(start, |h.pi|, symbols)
    requires forall i :: 0 <= i < |start| ==> NonNegative(start[i])
    ensures RowSums(EmissionCounts(h, obs, n, start, symbols)) == Add(RowSums(start), Occupancy(h, obs, n))
    ensures forall i :: 0 <= i < |start| ==> NonNegative(EmissionCounts(h, obs, n, start, symbols)[i])
  {
    hide Sum, Gamma;
    if n > 0 {
      EmissionRowTotals(h, obs, n - 1, start, symbols);
      GammaNonNegative(h, obs, n - 1);
      var prev := EmissionCounts(h, obs, n - 1, start, symbols);
      forall i | 0 <= i < |h.pi|
        ensures RowSums(EmissionCounts(h, obs, n, start, symbols))[i]
             == Add(RowSums(start), Occupancy(h, obs, n))[i]
      {
        SumAddAt(prev[i], obs[n - 1], Gamma(h, obs, n - 1)[i]);
      }
    }
  }

  lemma {:induction false} OccupancyTotal(h: Hmm, obs: seq<nat>, n: nat)
    requires Ready(h, obs) && NonNegativeHmm(h) && n <= |obs|
    ensures Sum(Occupancy(h, obs, n)) == if Live(h, obs) then n as real else 0.0
  {
    hide Sum, Gamma, Live;
    if n == 0 {
      SumZero(|h.pi|);
    } else {
      OccupancyTotal(h, obs, n - 1);
      GammaNonNegative(h, obs, n - 1);
      SumAdd(Occupancy(h, obs, n - 1), Gamma(h, obs, n - 1));
    }
  }

  predicate NonNegativeCounts(c: Counts) {
    && NonNegative(c.pi)
    && (forall i :: 0 <= i < |c.a| ==> NonNegative(c.a[i]))
    && (forall i :: 0 <= i < |c.b| ==> NonNegative(c.b[i]))
  }

  /** A sequence is used if it has two observations or more and some hidden path explains it. */
  predicate Used(h: Hmm, obs: seq<nat>)
    requires Fits(h, obs)
  {
    |obs| >= 2 && Live(h, obs)
  }

  lemma SequenceTotals(h: Hmm, c: Counts, obs: seq<nat>, symbols: nat)
    requires Sized(h, symbols) && NonNegativeHmm(h) && InAlphabet(obs, symbols)
    requires CountsFit(c, |h.pi|, symbols) && NonNegativeCounts(c)
    ensures var r := AddSequence(h, c, obs, symbols);
            && NonNegativeCounts(r)
            && Sum(r.pi) == Sum(c.pi) + (if Used(h, obs) then 1.0 else 0.0)
            && Sum(RowSums(r.a)) == Sum(RowSums(c.a)) + (if Used(h, obs) then (|obs| - 1) as real else 0.0)
            && Sum(RowSums(r.b)) == Sum(RowSums(c.b)) + (if Used(h, obs) then |obs| as real else 0.0)
  {
    hide Sum, Gamma, Live, TransitionCounts, EmissionCounts, Occupancy;
    if |obs| >= 2 {
      var last := |obs| - 1;
      GammaNonNegative(h, obs, 0);
      SumAdd(c.pi, Gamma(h, obs, 0));
      TransitionRowTotals(h, obs, last, c.a);
      OccupancyTotal(h, obs, last);
      SumAdd(RowSums(c.a), Occupancy(h, obs, last));
      EmissionRowTotals(h, obs, |obs|, c.b, symbols);
      OccupancyTotal(h, obs, |obs|);
      SumAdd(RowSums(c.b), Occupancy(h, obs, |obs|));
    }
  }

  function UsedCount(h: Hmm, seqs: seq<seq<nat>>): nat
    requires forall obs :: obs in seqs ==> Fits(h, obs)
  {
    if seqs == [] then 0 else
      assert Last(seqs) in seqs;
      UsedCount(h, Init(seqs)) + if Used(h, Last(seqs)) then 1 else 0
  }

  function UsedLength(h: Hmm, seqs: seq<seq<nat>>): nat
    requires forall obs :: obs in seqs ==> Fits(h, obs)
  {
    if seqs == [] then 0 else
      assert Last(seqs) in seqs;
      UsedLength(h, Init(seqs)) + if Used(h, Last(seqs)) then |Last(seqs)| else 0
  }

  lemma ZeroMatTotal(rows: nat, cols: nat)
    ensures Sum(RowSums(ZeroMat(rows, cols))) == 0.0
  {
    SumZero(cols);
    assert RowSums(ZeroMat(rows, cols)) == Const(rows, 0.0);
    SumZero(rows);
  }

  /**
   * The expectation step conserves counts: one start per usable sequence, one
   * emission per observation in those, one transition per gap between them.
   */
  lemma {:induction false} CountsConserved(h: Hmm, seqs: seq<seq<nat>>, symbols: nat)
    requires Sized(h, symbols) && NonNegativeHmm(h)
    requires forall obs :: obs in seqs ==> InAlphabet(obs, symbols)
    ensures var c := Collect(h, seqs, symbols);
            && NonNegativeCounts(c)
            && Sum(c.pi) == UsedCount(h, seqs) as real
            && Sum(RowSums(c.b)) == UsedLength(h, seqs) as real
            && Sum(RowSums(c.a)) == (UsedLength(h, seqs) - UsedCount(h, seqs)) as real
  {
    hide Sum, Used, AddSequence;
    if seqs == [] {
      SumZero(|h.pi|);
      ZeroMatTotal(|h.pi|, |h.pi|);
      ZeroMatTotal(|h.pi|, symbols);
    } else {
      assert Last(seqs) in seqs;
      CountsConserved(h, Init(seqs), symbols);
      SequenceTotals(h, Collect(h, Init(seqs), symbols), Last(seqs), symbols);
    }
  }

  // ----- maximisation step -----------------------------------------------------

  function Clamp(v: Vec): (r: Vec)
    ensures |r| == |v| && forall i :: 0 <= i < |v| ==> r[i] == if v[i] > FLOOR then v[i] else FLOOR
  {
    seq(|v|, i requires 0 <= i < |v| => if v[i] > FLOOR then v[i] else FLOOR)
  }

  lemma PositiveSum(v: Vec)
    requires v != [] && Positive(v)
    ensures Sum(v) > 0.0
  {
    SumNonNegative(v);
    assert v[0] <= Sum(v);
  }

  /** counts / (total + 1e-300), floored at 1e-10, renormalised */
  function Estimate(v: Vec): (r: Vec)
    requires v != [] && NonNegative(v)
    ensures |r| == |v| && Positive(r) && Distribution(r)
  {
    SumNonNegative(v);
    var c := Clamp(Div(v, Sum(v) + TINY));
    PositiveSum(c);
    EstimateIsDistribution(c);
    Div(c, Sum(c))
  }

  lemma EstimateIsDistribution(c: Vec)
    requires Positive(c) && Sum(c) > 0.0
    ensures Positive(Div(c, Sum(c))) && Distribution(Div(c, Sum(c)))
  {
    hide Over, Sum;
    var s := Sum(c);
    forall i | 0 <= i < |c| ensures Div(c, s)[i] > 0.0 {
      OverTimes(c[i], s);
    }
    SumDiv(c, s);
    OverTimes(1.0, s);
  }

  /** Unless the floor is reached, the estimate is each count's share of the total: the two guards cancel out. */
  lemma EstimateIsShare(v: Vec)
    requires v != [] && NonNegative(v) && Sum(v) > 0.0
    requires forall i :: 0 <= i < |v| ==> Over(v[i], Sum(v) + TINY) >= FLOOR
    ensures Estimate(v) == Div(v, Sum(v))
  {
    hide Times, Over, Sum, Clamp, Estimate;
    var d := Sum(v) + TINY;
    ClampIsIdle(Div(v, d));
    SumDiv(v, d);
    ScaledShares(v, d);
    EstimateSteps(v);
  }

  lemma EstimateSteps(v: Vec)
    requires v != [] && NonNegative(v) && Sum(v) > 0.0
    ensures var c := Clamp(Div(v, Sum(v) + TINY));
            Sum(c) != 0.0 && Estimate(v) == Div(c, Sum(c))
  {
    hide Times, Over, Clamp;
    PositiveSum(Clamp(Div(v, Sum(v) + TINY)));
  }

  lemma ClampIsIdle(c: Vec)
    requires forall i :: 0 <= i < |c| ==> c[i] >= FLOOR
    ensures Clamp(c) == c
  {
  }

  lemma ScaledShares(v: Vec, d: real)
    requires Sum(v) > 0.0 && d > 0.0
    ensures Over(Sum(v), d) > 0.0 && Div(Div(v, d), Over(Sum(v), d)) == Div(v, Sum(v))
  {
    hide Times, Over, Sum;
    OverTimes(Sum(v), d);
    forall i | 0 <= i < |v| ensures Div(Div(v, d), Over(Sum(v), d))[i] == Div(v, Sum(v))[i] {
      SharesOfQuotients(v[i], Sum(v), d);
    }
  }

  /** There are such counts, right down to the floor. */
  lemma SharesCanReachTheFloor() returns (v: Vec)
    ensures v != [] && NonNegative(v) && Sum(v) > 0.0
    ensures forall i :: 0 <= i < |v| ==> Over(v[i], Sum(v) + TINY) == FLOOR
  {
    var x := FLOOR * TINY / (1.0 - FLOOR);
    v := [x];
    assert Init(v) == [] && Sum(v) == x;
    assert x * (1.0 - FLOOR) == FLOOR * TINY;
    assert x == FLOOR * (x + TINY);
    assert x > 0.0;
    QuotientIs(x, x + TINY, FLOOR);
  }

  lemma QuotientIs(x: real, d: real, q: real)
    requires d > 0.0 && x == q * d
    ensures Over(x, d) == q
  {
    OverTimes(x, d);
    TimesCancel(d, Over(x, d), q);
  }

  /** (x / d) / (s / d) is x / s. */
  lemma SharesOfQuotients(x: real, s: real, d: real)
    requires s > 0.0 && d > 0.0
    ensures Over(s, d) > 0.0
    ensures Over(Over(x, d), Over(s, d)) == Over(x, s)
  {
    hide Times, Over;
    OverTimes(s, d);
    OverTimes(x, d);
    OverTimes(x, s);
    var q, y := Over(s, d), Over(x, d);
    OverTimes(y, q);
    TimesAssoc(d, q, Over(y, q));
    TimesCancel(s, Over(y, q), Over(x, s));
  }

  function EstimateRows(m: Mat): (r: Mat)
    requires forall i :: 0 <= i < |m| ==> m[i] != [] && NonNegative(m[i])
    ensures |r| == |m|
    ensures forall i :: 0 <= i < |m| ==> |r[i]| == |m[i]| && Positive(r[i]) && Distribution(r[i])
  {
    seq(|m|, i requires 0 <= i < |m| => Estimate(m[i]))
  }

  function Reestimate(c: Counts, states: nat, symbols: nat): (h: Hmm)
    requires states > 0 && symbols > 0 && CountsFit(c, states, symbols) && NonNegativeCounts(c)
    ensures |h.pi| == states && Stochastic(h, symbols) && StrictlyPositive(h)
  {
    Hmm(Estimate(c.pi), EstimateRows(c.a), EstimateRows(c.b))
  }

  /** k rounds of expectation and maximisation. */
  function EmRounds(h: Hmm, seqs: seq<seq<nat>>, symbols: nat, k: nat): (r: Hmm)
    requires Sized(h, symbols) && NonNegativeHmm(h)
    requires forall obs :: obs in seqs ==> InAlphabet(obs, symbols)
    ensures |r.pi| == |h.pi| && Sized(r, symbols) && NonNegativeHmm(r)
    ensures k > 0 ==> Stochastic(r, symbols) && StrictlyPositive(r)
  {
    if k == 0 then h else
      var prev := EmRounds(h, seqs, symbols, k - 1);
      CountsConserved(prev, seqs, symbols);
      Reestimate(Collect(prev, seqs, symbols), |h.pi|, symbols)
  }

  // ----- what a round finds ----------------------------------------------------

  /** Times t, r is v taken as shares of its guarded total and raised to the floor. */
  predicate SharesAt(r: Vec, v: Vec, t: real)
    requires |r| == |v| && Sum(v) + TINY != 0.0
  {
    forall i :: 0 <= i < |v| ==> Times(t, r[i]) == Max(Over(v[i], Sum(v) + TINY), FLOOR)
  }

  /** r is v taken as shares of its guarded total, raised to the floor, and scaled to add up to one. */
  ghost predicate SharesOf(r: Vec, v: Vec) {
    && |r| == |v| && Sum(r) == 1.0
    && Sum(v) + TINY != 0.0
    && exists t :: t > 0.0 && SharesAt(r, v, t)
  }

  /** The factor is the total of the raised shares. */
  lemma SharesFactor(r: Vec, v: Vec, t: real)
    requires |r| == |v| && Sum(r) == 1.0 && Sum(v) + TINY != 0.0 && SharesAt(r, v, t)
    ensures t == Sum(Clamp(Div(v, Sum(v) + TINY)))
  {
    hide Times, Over, Sum;
    var d := Sum(v) + TINY;
    SumScale(t, r);
    TimesUnits(t);
    assert Scale(t, r) == Clamp(Div(v, d));
  }

  /** Nothing else is. */
  lemma SharesAreUnique(r: Vec, r': Vec, v: Vec)
    requires SharesOf(r, v) && SharesOf(r', v)
    ensures r == r'
  {
    hide Times, Over, Sum;
    var d := Sum(v) + TINY;
    var t :| t > 0.0 && SharesAt(r, v, t);
    var t' :| t' > 0.0 && SharesAt(r', v, t');
    SharesFactor(r, v, t);
    SharesFactor(r', v, t');
    forall i | 0 <= i < |v| ensures r[i] == r'[i] {
      TimesCancel(t, r[i], r'[i]);
    }
  }

  lemma EstimateShares(v: Vec)
    requires v != [] && NonNegative(v)
    ensures SharesOf(Estimate(v), v)
  {
    hide Times, Over, Sum;
    SumNonNegative(v);
    var d := Sum(v) + TINY;
    var c := Clamp(Div(v, d));
    PositiveSum(c);
    forall i | 0 <= i < |v| ensures Times(Sum(c), Estimate(v)[i]) == Max(Over(v[i], d), FLOOR) {
      OverTimes(c[i], Sum(c));
    }
    assert SharesAt(Estimate(v), v, Sum(c));
  }

  /** Above the floor the shares are plain: each entry times the total is the count. */
  lemma PlainShares(r: Vec, v: Vec)
    requires SharesOf(r, v) && AboveFloor(v)
    ensures forall i :: 0 <= i < |v| ==> Times(Sum(v), r[i]) == v[i]
  {
    hide Times, Over, Sum;
    var d := Sum(v) + TINY;
    var t :| t > 0.0 && SharesAt(r, v, t);
    ClampIsIdle(Div(v, d));
    SharesFactor(r, v, t);
    SumDiv(v, d);
    OverTimes(Sum(v), d);
    forall i | 0 <= i < |v| ensures Times(Sum(v), r[i]) == v[i] {
      TimesAssoc(d, t, r[i]);
      OverTimes(v[i], d);
    }
  }

  predicate AboveFloor(v: Vec) {
    Sum(v) > 0.0 && forall i :: 0 <= i < |v| ==> Over(v[i], Sum(v) + TINY) >= FLOOR
  }

  /** Every parameter of the model is made from the counts of its own row. */
  ghost predicate MadeFrom(h: Hmm, c: Counts) {
    && |h.a| == |c.a| && |h.b| == |c.b|
    && SharesOf(h.pi, c.pi)
    && (forall i :: 0 <= i < |h.a| ==> SharesOf(h.a[i], c.a[i]))
    && (forall i :: 0 <= i < |h.b| ==> SharesOf(h.b[i], c.b[i]))
  }

  lemma ReestimateShares(c: Counts, states: nat, symbols: nat)
    requires states > 0 && symbols > 0 && CountsFit(c, states, symbols) && NonNegativeCounts(c)
    ensures MadeFrom(Reestimate(c, states, symbols), c)
  {
    hide Estimate, SharesOf;
    EstimateShares(c.pi);
    forall i | 0 <= i < states
      ensures SharesOf(EstimateRows(c.a)[i], c.a[i]) && SharesOf(EstimateRows(c.b)[i], c.b[i])
    {
      EstimateShares(c.a[i]);
      EstimateShares(c.b[i]);
    }
  }

  lemma EmRoundMadeFrom(h: Hmm, seqs: seq<seq<nat>>, symbols: nat, k: nat)
    requires Sized(h, symbols) && NonNegativeHmm(h)
    requires forall obs :: obs in seqs ==> InAlphabet(obs, symbols)
    ensures MadeFrom(EmRounds(h, seqs, symbols, k + 1), Collect(EmRounds(h, seqs, symbols, k), seqs, symbols))
  {
    hide MadeFrom, Reestimate, Collect;
    var prev := EmRounds(h, seqs, symbols, k);
    CountsConserved(prev, seqs, symbols);
    ReestimateShares(Collect(prev, seqs, symbols), |h.pi|, symbols);
  }

  /** How often ev is expected to happen, given the observations; a sequence that is not used counts for nothing. */
  function Expected(h: Hmm, obs: seq<nat>, ev: Event): real
    requires Fits(h, obs)
  {
    if Used(h, obs) && Likelihood(h, obs) != 0.0 then
      Over(EventMass(h, obs, Paths(|obs|, |h.pi|), ev, |obs|), Likelihood(h, obs))
    else 0.0
  }

  /** The same over a list of sequences. */
  function ExpectedIn(h: Hmm, seqs: seq<seq<nat>>, ev: Event): real
    requires forall obs :: obs in seqs ==> Fits(h, obs)
  {
    if seqs == [] then 0.0 else
      assert Last(seqs) in seqs;
      ExpectedIn(h, Init(seqs), ev) + Expected(h, Last(seqs), ev)
  }

  /** An event's count of a sequence with the given accumulators. */
  function CountOf(c: Counts, ev: Event): real
    requires match ev
      case Begin(i) => i < |c.pi|
      case Move(i, j) => i < |c.a| && j < |c.a[i]|
      case Emit(i, o) => i < |c.b| && o < |c.b[i]|
  {
    match ev
    case Begin(i) => c.pi[i]
    case Move(i, j) => c.a[i][j]
    case Emit(i, o) => c.b[i][o]
  }

  predicate EventFits(ev: Event, states: nat, symbols: nat) {
    match ev
    case Begin(i) => i < states
    case Move(i, j) => i < states && j < states
    case Emit(i, o) => i < states && o < symbols
  }

  /** On a sequence no path explains, gamma and xi are zero. */
  lemma DeadPosteriors(h: Hmm, obs: seq<nat>, t: nat)
    requires Ready(h, obs) && NonNegativeHmm(h) && !Live(h, obs) && t < |obs|
    ensures Gamma(h, obs, t) == Const(|h.pi|, 0.0)
    ensures t + 1 < |obs| ==> forall i :: 0 <= i < |h.pi| ==> Xi(h, obs, t)[i] == Const(|h.pi|, 0.0)
  {
    hide Sum, Gamma, Xi, Live;
    GammaNonNegative(h, obs, t);
    if t + 1 < |obs| {
      XiNonNegative(h, obs, t);
      forall i | 0 <= i < |h.pi| ensures Xi(h, obs, t)[i] == Const(|h.pi|, 0.0) {
        assert RowSums(Xi(h, obs, t))[i] == Gamma(h, obs, t)[i] == 0.0;
        SumZeroIff(Xi(h, obs, t)[i]);
      }
    }
  }

  lemma {:induction false} DeadTransitions(h: Hmm, obs: seq<nat>, n: nat, start: Mat)
    requires Ready(h, obs) && NonNegativeHmm(h) && !Live(h, obs) && n < |obs| && IsMat(start, |h.pi|, |h.pi|)
    ensures TransitionCounts(h, obs, n, start) == start
  {
    hide Gamma, Xi, Live;
    if n > 0 {
      DeadTransitions(h, obs, n - 1, start);
      DeadPosteriors(h, obs, n - 1);
      forall i | 0 <= i < |h.pi| ensures Add(start[i], Xi(h, obs, n - 1)[i]) == start[i] {
      }
    }
  }

  lemma {:induction false} DeadEmissions(h: Hmm, obs: seq<nat>, n: nat, start: Mat, symbols: nat)
    requires Ready(h, obs) && NonNegativeHmm(h) && !Live(h, obs) && n <= |obs| && IsMat(start, |h.pi|, symbols)
    ensures EmissionCounts(h, obs, n, start, symbols) == start
  {
    hide Gamma, Live;
    if n > 0 {
      DeadEmissions(h, obs, n - 1, start, symbols);
      DeadPosteriors(h, obs, n - 1);
      forall i | 0 <= i < |h.pi| ensures AddAt(start[i], obs[n - 1], Gamma(h, obs, n - 1)[i]) == start[i] {
      }
    }
  }

  /** The last position adds no move. */
  lemma NoLastMove(h: Hmm, obs: seq<nat>, i: nat, j: nat)
    requires Ready(h, obs)
    ensures EventMass(h, obs, Paths(|obs|, |h.pi|), Move(i, j), |obs|)
         == EventMass(h, obs, Paths(|obs|, |h.pi|), Move(i, j), |obs| - 1)
  {
    hide EventMass, Paths, Times;
    EventMassStep(h, obs, Paths(|obs|, |h.pi|), Move(i, j), |obs| - 1);
  }

  lemma ExpectedIs(h: Hmm, obs: seq<nat>, ev: Event, x: real)
    requires Ready(h, obs) && NonNegativeHmm(h) && Used(h, obs)
    requires Times(Likelihood(h, obs), x) == EventMass(h, obs, Paths(|obs|, |h.pi|), ev, |obs|)
    ensures Expected(h, obs, ev) == x
  {
    hide Times, Over, Likelihood, Live, EventMass, Paths;
    var l, mass := Likelihood(h, obs), EventMass(h, obs, Paths(|obs|, |h.pi|), ev, |obs|);
    ScalesGiveLikelihood(h, obs);
    OverTimes(mass, l);
    TimesCancel(l, x, Over(mass, l));
  }

  /** One sequence adds to every count the expected number of its event. */
  lemma SequenceIsExpected(h: Hmm, c: Counts, obs: seq<nat>, symbols: nat, ev: Event)
    requires Sized(h, symbols) && NonNegativeHmm(h) && InAlphabet(obs, symbols)
    requires CountsFit(c, |h.pi|, symbols) && EventFits(ev, |h.pi|, symbols)
    ensures CountOf(AddSequence(h, c, obs, symbols), ev) == CountOf(c, ev) + Expected(h, obs, ev)
  {
    hide Times, Over, Likelihood, Live, Gamma, TransitionCounts, EmissionCounts, EventMass, Paths;
    if Used(h, obs) {
      hide Expected;
      match ev
      case Begin(i) =>
        StartMean(h, obs, |obs|, i);
        ExpectedIs(h, obs, ev, Gamma(h, obs, 0)[i]);
      case Move(i, j) =>
        TransitionCountsMean(h, obs, |obs| - 1, c.a, i, j);
        NoLastMove(h, obs, i, j);
        ExpectedIs(h, obs, ev, TransitionCounts(h, obs, |obs| - 1, c.a)[i][j] - c.a[i][j]);
      case Emit(i, o) =>
        EmissionCountsMean(h, obs, |obs|, c.b, symbols, i, o);
        ExpectedIs(h, obs, ev, EmissionCounts(h, obs, |obs|, c.b, symbols)[i][o] - c.b[i][o]);
    } else if |obs| >= 2 {
      DeadPosteriors(h, obs, 0);
      DeadTransitions(h, obs, |obs| - 1, c.a);
      DeadEmissions(h, obs, |obs|, c.b, symbols);
    }
  }

  /** The accumulators of the whole pass are the expected numbers of starts, moves and emissions. */
  lemma {:induction false} CollectIsExpected(h: Hmm, seqs: seq<seq<nat>>, symbols: nat, ev: Event)
    requires Sized(h, symbols) && NonNegativeHmm(h) && EventFits(ev, |h.pi|, symbols)
    requires forall obs :: obs in seqs ==> InAlphabet(obs, symbols)
    ensures CountOf(Collect(h, seqs, symbols), ev) == ExpectedIn(h, seqs, ev)
  {
    hide Expected, AddSequence;
    if seqs != [] {
      assert Last(seqs) in seqs;
      CollectIsExpected(h, Init(seqs), symbols, ev);
      SequenceIsExpected(h, Collect(h, Init(seqs), symbols), Last(seqs), symbols, ev);
    }
  }

  /** The expected starts, one per state. */
  function Starts(h: Hmm, seqs: seq<seq<nat>>): (r: Vec)
    requires forall obs :: obs in seqs ==> Fits(h, obs)
    ensures |r| == |h.pi| && forall i :: 0 <= i < |r| ==> r[i] == ExpectedIn(h, seqs, Begin(i))
  {
    seq(|h.pi|, i requires 0 <= i < |h.pi| => ExpectedIn(h, seqs, Begin(i)))
  }

  /** The expected moves out of state i, one per target. */
  function MovesOut(h: Hmm, seqs: seq<seq<nat>>, i: nat): (r: Vec)
    requires forall obs :: obs in seqs ==> Fits(h, obs)
    ensures |r| == |h.pi| && forall j :: 0 <= j < |r| ==> r[j] == ExpectedIn(h, seqs, Move(i, j))
  {
    seq(|h.pi|, j requires 0 <= j < |h.pi| => ExpectedIn(h, seqs, Move(i, j)))
  }

  /** The expected emissions of state i, one per symbol. */
  function EmitsOf(h: Hmm, seqs: seq<seq<nat>>, symbols: nat, i: nat): (r: Vec)
    requires forall obs :: obs in seqs ==> Fits(h, obs)
    ensures |r| == symbols && forall o :: 0 <= o < |r| ==> r[o] == ExpectedIn(h, seqs, Emit(i, o))
  {
    seq(symbols, o requires 0 <= o < symbols => ExpectedIn(h, seqs, Emit(i, o)))
  }

  lemma CollectRows(h: Hmm, seqs: seq<seq<nat>>, symbols: nat)
    requires Sized(h, symbols) && NonNegativeHmm(h)
    requires forall obs :: obs in seqs ==> InAlphabet(obs, symbols)
    ensures var c := Collect(h, seqs, symbols);
            && c.pi == Starts(h, seqs)
            && (forall i :: 0 <= i < |h.pi| ==> c.a[i] == MovesOut(h, seqs, i))
            && (forall i :: 0 <= i < |h.pi| ==> c.b[i] == EmitsOf(h, seqs, symbols, i))
  {
    hide ExpectedIn, Collect;
    var c := Collect(h, seqs, symbols);
    forall i | 0 <= i < |h.pi| ensures c.pi[i] == Starts(h, seqs)[i] {
      CollectIsExpected(h, seqs, symbols, Begin(i));
    }
    forall i | 0 <= i < |h.pi| ensures c.a[i] == MovesOut(h, seqs, i) {
      forall j | 0 <= j < |h.pi| ensures c.a[i][j] == MovesOut(h, seqs, i)[j] {
        CollectIsExpected(h, seqs, symbols, Move(i, j));
      }
    }
    forall i | 0 <= i < |h.pi| ensures c.b[i] == EmitsOf(h, seqs, symbols, i) {
      forall o | 0 <= o < symbols ensures c.b[i][o] == EmitsOf(h, seqs, symbols, i)[o] {
        CollectIsExpected(h, seqs, symbols, Emit(i, o));
      }
    }
  }

  /** r gives every entry its share of v, times the total. */
  predicate ProportionalTo(r: Vec, v: Vec) {
    |r| == |v| && forall i :: 0 <= i < |v| ==> Times(Sum(v), r[i]) == v[i]
  }

  /**
   * What a round of EM does, in terms of hidden paths under the model before it: above the
   * floor the new A[i][j] times the expected moves out of i is the expected number of moves
   * from i to j; and likewise for the emissions of i and for the starts.
   */
  lemma RoundIsExpectedShare(h: Hmm, seqs: seq<seq<nat>>, symbols: nat, k: nat, i: nat)
    requires Sized(h, symbols) && NonNegativeHmm(h) && i < |h.pi|
    requires forall obs :: obs in seqs ==> InAlphabet(obs, symbols)
    ensures var prev, next := EmRounds(h, seqs, symbols, k), EmRounds(h, seqs, symbols, k + 1);
            && (AboveFloor(Starts(prev, seqs)) ==> ProportionalTo(next.pi, Starts(prev, seqs)))
            && (AboveFloor(MovesOut(prev, seqs, i)) ==> ProportionalTo(next.a[i], MovesOut(prev, seqs, i)))
            && (AboveFloor(EmitsOf(prev, seqs, symbols, i)) ==>
                  ProportionalTo(next.b[i], EmitsOf(prev, seqs, symbols, i)))
  {
    hide Times, Over, Sum, SharesOf, AboveFloor, Starts, MovesOut, EmitsOf, EmRounds, Collect;
    EmRoundMadeFrom(h, seqs, symbols, k);
    var prev, next := EmRounds(h, seqs, symbols, k), EmRounds(h, seqs, symbols, k + 1);
    CollectRows(prev, seqs, symbols);
    SharesIfAbove(next.pi, Starts(prev, seqs));
    SharesIfAbove(next.a[i], MovesOut(prev, seqs, i));
    SharesIfAbove(next.b[i], EmitsOf(prev, seqs, symbols, i));
  }

  lemma SharesIfAbove(r: Vec, v: Vec)
    requires SharesOf(r, v)
    ensures AboveFloor(v) ==> ProportionalTo(r, v)
  {
    hide Times, Over, Sum;
    if AboveFloor(v) {
      PlainShares(r, v);
    }
  }

  lemma CollectPrefix(h: Hmm, seqs: seq<seq<nat>>, symbols: nat, k: nat)
    requires Sized(h, symbols) && forall obs :: obs in seqs ==> InAlphabet(obs, symbols)
    requires k < |seqs|
    ensures Collect(h, seqs[..k + 1], symbols)
         == AddSequence(h, Collect(h, seqs[..k], symbols), seqs[k], symbols)
    ensures |seqs[k]| < 2 ==> Collect(h, seqs[..k + 1], symbols) == Collect(h, seqs[..k], symbols)
  {
    hide Gamma, TransitionCounts, EmissionCounts;
    assert Init(seqs[..k + 1]) == seqs[..k] && Last(seqs[..k + 1]) == seqs[k];
  }

  predicate AllLongReady(h: Hmm, seqs: seq<seq<nat>>) {
    forall k :: 0 <= k < |seqs| && |seqs[k]| >= 2 ==> Ready(h, seqs[k])
  }

  /** total_ll after the first n sequences. */
  function TotalLl(h: Hmm, seqs: seq<seq<nat>>, n: nat, log: real -> real): real
    requires AllLongReady(h, seqs) && n <= |seqs|
  {
    if n == 0 then 0.0
    else
      TotalLl(h, seqs, n - 1, log)
      + if |seqs[n - 1]| >= 2 then LogLikelihood(Scales(h, seqs[n - 1]), log) else 0.0
  }

  lemma TotalLlStep(h: Hmm, seqs: seq<seq<nat>>, k: nat, log: real -> real)
    requires AllLongReady(h, seqs) && k < |seqs|
    ensures TotalLl(h, seqs, k + 1, log)
         == TotalLl(h, seqs, k, log) + if |seqs[k]| >= 2 then LogLikelihood(Scales(h, seqs[k]), log) else 0.0
  {
  }

  /** The scales of the first n sequences that count, guarded and multiplied. */
  function AllScales(h: Hmm, seqs: seq<seq<nat>>, n: nat): real
    requires AllLongReady(h, seqs) && n <= |seqs|
  {
    if n == 0 then 1.0
    else if |seqs[n - 1]| < 2 then AllScales(h, seqs, n - 1)
    else Times(AllScales(h, seqs, n - 1), Product(Guarded(Scales(h, seqs[n - 1]))))
  }

  /**
   * total_ll is the logarithm of the product, over the sequences of two or more, of their
   * scales: up to the guard, of the likelihood of all of them.
   */
  lemma {:induction false} TotalIsLog(h: Hmm, seqs: seq<seq<nat>>, n: nat, log: real -> real)
    requires AllLongReady(h, seqs) && NonNegativeHmm(h) && n <= |seqs| && IsLog(log)
    ensures AllScales(h, seqs, n) > 0.0
    ensures TotalLl(h, seqs, n, log) == log(AllScales(h, seqs, n))
  {
    hide Times, Product, LogLikelihood, Scales;
    if n == 0 {
      TimesUnits(1.0);
      assert log(Times(1.0, 1.0)) == log(1.0) + log(1.0);
    } else {
      TotalIsLog(h, seqs, n - 1, log);
      var obs := seqs[n - 1];
      if |obs| >= 2 {
        ScalesArePositive(h, obs);
        LogLikelihoodIsLog(Scales(h, obs), log);
        ProductPositive(Guarded(Scales(h, obs)));
        TimesSign(AllScales(h, seqs, n - 1), Product(Guarded(Scales(h, obs))));
      }
    }
  }

  lemma ScalesArePositive(h: Hmm, obs: seq<nat>)
    requires Ready(h, obs) && NonNegativeHmm(h)
    ensures Positive(Scales(h, obs)) && Positive(Guarded(Scales(h, obs)))
  {
    hide ScaleAt;
    forall t | 0 <= t < |obs| ensures ScaleAt(h, obs, t) > 0.0 {
      AlphaNonNegative(h, obs, t);
    }
  }

  lemma AllReady(h: Hmm, seqs: seq<seq<nat>>, symbols: nat)
    requires Sized(h, symbols) && forall obs :: obs in seqs ==> InAlphabet(obs, symbols)
    ensures AllLongReady(h, seqs)
  {
    forall k | 0 <= k < |seqs| && |seqs[k]| >= 2 ensures Ready(h, seqs[k]) {
      assert seqs[k] in seqs;
    }
  }

  /** total_ll of the pass that makes round k + 1 out of round k. */
  function RoundLl(h: Hmm, seqs: seq<seq<nat>>, symbols: nat, log: real -> real, k: nat): real
    requires Sized(h, symbols) && NonNegativeHmm(h)
    requires forall obs :: obs in seqs ==> InAlphabet(obs, symbols)
  {
    var g := EmRounds(h, seqs, symbols, k);
    AllReady(g, seqs, symbols);
    TotalLl(g, seqs, |seqs|, log)
  }

  /** The log-likelihood of pass k has moved by less than tol; the first pass is compared with minus infinity. */
  predicate Settled(h: Hmm, seqs: seq<seq<nat>>, symbols: nat, tol: real, log: real -> real, k: nat)
    requires Sized(h, symbols) && NonNegativeHmm(h)
    requires forall obs :: obs in seqs ==> InAlphabet(obs, symbols)
  {
    k > 0 && Abs(RoundLl(h, seqs, symbols, log, k) - RoundLl(h, seqs, symbols, log, k - 1)) < tol
  }

  /** Training stops after the first pass that has settled, or after nIter passes. */
  predicate StopsAfter(h: Hmm, seqs: seq<seq<nat>>, symbols: nat, nIter: nat, tol: real, log: real -> real, rounds: nat)
    requires Sized(h, symbols) && NonNegativeHmm(h)
    requires forall obs :: obs in seqs ==> InAlphabet(obs, symbols)
  {
    && rounds <= nIter
    && (forall k :: 0 <= k < rounds - 1 ==> !Settled(h, seqs, symbols, tol, log, k))
    && (rounds < nIter ==> rounds > 0 && Settled(h, seqs, symbols, tol, log, rounds - 1))
  }

  /** The stopping rule spelled out: the log-likelihoods of the last two passes, and of all pairs before. */
  lemma StoppingRule(h: Hmm, seqs: seq<seq<nat>>, symbols: nat, nIter: nat, tol: real, log: real -> real, rounds: nat)
    requires Sized(h, symbols) && NonNegativeHmm(h)
    requires forall obs :: obs in seqs ==> InAlphabet(obs, symbols)
    requires StopsAfter(h, seqs, symbols, nIter, tol, log, rounds)
    ensures rounds <= nIter
    ensures rounds < nIter ==>
              && rounds >= 2
              && -tol < RoundLl(h, seqs, symbols, log, rounds - 1) - RoundLl(h, seqs, symbols, log, rounds - 2) < tol
    ensures forall k :: 1 <= k < rounds - 1 ==>
              || RoundLl(h, seqs, symbols, log, k) - RoundLl(h, seqs, symbols, log, k - 1) >= tol
              || RoundLl(h, seqs, symbols, log, k) - RoundLl(h, seqs, symbols, log, k - 1) <= -tol
  {
    hide RoundLl;
    forall k | 1 <= k < rounds - 1
      ensures RoundLl(h, seqs, symbols, log, k) - RoundLl(h, seqs, symbols, log, k - 1) >= tol
           || RoundLl(h, seqs, symbols, log, k) - RoundLl(h, seqs, symbols, log, k - 1) <= -tol
    {
      assert !Settled(h, seqs, symbols, tol, log, k);
    }
  }

  lemma NothingCollected(h: Hmm, seqs: seq<seq<nat>>, symbols: nat, log: real -> real)
    requires Sized(h, symbols) && AllLongReady(h, seqs)
    ensures Collect(h, seqs[..0], symbols)
         == Counts(Const(|h.pi|, 0.0), ZeroMat(|h.pi|, |h.pi|), ZeroMat(|h.pi|, symbols))
    ensures TotalLl(h, seqs, 0, log) == 0.0
  {
  }

  /** The loop over the sequences; those shorter than two are skipped. */
  method CollectAll(h: Hmm, seqs: seq<seq<nat>>, symbols: nat, log: real -> real) returns (acc: Counts, totalLl: real)
    requires Sized(h, symbols) && AllLongReady(h, seqs)
    requires forall obs :: obs in seqs ==> InAlphabet(obs, symbols)
    ensures acc == Collect(h, seqs, symbols) && totalLl == TotalLl(h, seqs, |seqs|, log)
  {
    hide *;
    acc := Counts(Const(|h.pi|, 0.0), ZeroMat(|h.pi|, |h.pi|), ZeroMat(|h.pi|, symbols));
    totalLl := 0.0;
    NothingCollected(h, seqs, symbols, log);
    for k := 0 to |seqs|
      invariant acc == Collect(h, seqs[..k], symbols)
      invariant totalLl == TotalLl(h, seqs, k, log)
    {
      assert seqs[k] in seqs;
      CollectPrefix(h, seqs, symbols, k);
      TotalLlStep(h, seqs, k, log);
      if |seqs[k]| >= 2 {
        var ll;
        AlphabetFits(h, seqs[k], symbols);
        acc, ll := Accumulate(h, acc, seqs[k], symbols, log);
        totalLl := totalLl + ll;
      }
    }
    assert seqs[..|seqs|] == seqs;
  }

  /** One pass of the outer loop: accumulate every sequence, then re-estimate. */
  method Round(h: Hmm, seqs: seq<seq<nat>>, symbols: nat, log: real -> real) returns (r: Hmm, totalLl: real)
    requires Sized(h, symbols) && NonNegativeHmm(h)
    requires forall obs :: obs in seqs ==> InAlphabet(obs, symbols)
    ensures NonNegativeCounts(Collect(h, seqs, symbols))
    ensures r == Reestimate(Collect(h, seqs, symbols), |h.pi|, symbols)
    ensures MadeFrom(r, Collect(h, seqs, symbols))
    ensures AllLongReady(h, seqs) && totalLl == TotalLl(h, seqs, |seqs|, log)
  {
    assert h.pi != [] && symbols > 0;
    hide *;
    AllReady(h, seqs, symbols);
    var acc;
    acc, totalLl := CollectAll(h, seqs, symbols, log);
    CountsConserved(h, seqs, symbols);
    r := Reestimate(acc, |h.pi|, symbols);
    ReestimateShares(acc, |h.pi|, symbols);
  }

  /** Rounds of re-estimation until the log-likelihood settles or nIter is reached. */
  method Train(h0: Hmm, seqs: seq<seq<nat>>, symbols: nat, nIter: nat, tol: real, log: real -> real)
      returns (h: Hmm, ghost rounds: nat)
    requires Sized(h0, symbols) && NonNegativeHmm(h0)
    requires forall obs :: obs in seqs ==> InAlphabet(obs, symbols)
    ensures StopsAfter(h0, seqs, symbols, nIter, tol, log, rounds)
    ensures h == EmRounds(h0, seqs, symbols, rounds)
    ensures |h.pi| == |h0.pi| && Sized(h, symbols) && NonNegativeHmm(h)
    ensures nIter > 0 ==> Stochastic(h, symbols) && StrictlyPositive(h)
  {
    hide Reestimate, TotalLl, Collect, LogLikelihood;
    h := h0;
    rounds := 0;
    assert h == EmRounds(h0, seqs, symbols, 0);
    var prevLl := 0.0;
    var iteration := 0;
    while iteration < nIter
      invariant 0 <= iteration <= nIter && rounds == iteration
      invariant h == EmRounds(h0, seqs, symbols, iteration)
      invariant iteration > 0 ==> prevLl == RoundLl(h0, seqs, symbols, log, iteration - 1)
      invariant forall k :: 0 <= k < iteration ==> !Settled(h0, seqs, symbols, tol, log, k)
    {
      var totalLl;
      h, totalLl := Round(h, seqs, symbols, log);
      assert totalLl == RoundLl(h0, seqs, symbols, log, iteration);
      rounds := rounds + 1;
      var delta := totalLl - prevLl;
      if iteration > 0 && Abs(delta) < tol {
        return;
      }
      prevLl := totalLl;
      iteration := iteration + 1;
    }
  }
}
