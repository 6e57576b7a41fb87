/**
 * The meaning the forward-backward code is measured against: joint probabilities
 * of single hidden-state paths, summed over a list of every path of a given length.
 */
module HiddenPaths {
  import opened LinearAlgebra

  /** Start vector, transition matrix and emission matrix: pi, A and B. */
  datatype Hmm = Hmm(pi: Vec, a: Mat, b: Mat)

  type Path = seq<nat>

  /** The shapes numpy needs to evaluate every expression of the forward-backward code on obs. */
  predicate Fits(h: Hmm, obs: seq<nat>) {
    && IsMat(h.a, |h.pi|, |h.pi|)
    && |h.b| == |h.pi|
    && forall t, i :: 0 <= t < |obs| && 0 <= i < |h.b| ==> obs[t] < |h.b[i]|
  }

  /** B[:, o] */
  function Emission(h: Hmm, obs: seq<nat>, t: nat): (e: Vec)
    requires Fits(h, obs) && t < |obs|
    ensures |e| == |h.pi| && forall i :: 0 <= i < |e| ==> e[i] == h.b[i][obs[t]]
  {
    Col(h.b, obs[t])
  }

  predicate IsPath(p: Path, n: nat, states: nat) {
    |p| == n && forall k :: 0 <= k < n ==> p[k] < states
  }

  /** P(hidden states = p, observations = obs[..|p|]). */
  function Joint(h: Hmm, obs: seq<nat>, p: Path): real
    requires Fits(h, obs) && 0 < |p| <= |obs| && IsPath(p, |p|, |h.pi|)
  {
    var n := |p| - 1;
    if n == 0 then Times(h.pi[p[0]], h.b[p[0]][obs[0]])
    else Times(Times(Joint(h, obs, Init(p)), h.a[p[n - 1]][p[n]]), h.b[p[n]][obs[n]])
  }

  /** Every one-state extension of every path in ps. */
  function Extend(ps: seq<Path>, states: nat): (r: seq<Path>) {
    if ps == [] then [] else Extend(Init(ps), states) + Fan(Last(ps), states)
  }

  function Fan(p: Path, states: nat): (r: seq<Path>)
    ensures |r| == states && forall j :: 0 <= j < states ==> r[j] == p + [j]
  {
    seq(states, j requires 0 <= j => p + [j])
  }

  /** All hidden-state paths of length n. */
  function Paths(n: nat, states: nat): (ps: seq<Path>)
    ensures forall p :: p in ps ==> IsPath(p, n, states)
  {
    if n == 0 then [[]] else
      var shorter := Paths(n - 1, states);
      ExtendIsPath(shorter, n - 1, states);
      Extend(shorter, states)
  }

  lemma {:induction false} ExtendIsPath(ps: seq<Path>, n: nat, states: nat)
    requires forall p :: p in ps ==> IsPath(p, n, states)
    ensures forall p :: p in Extend(ps, states) ==> IsPath(p, n + 1, states)
  {
    if ps != [] {
      ExtendIsPath(Init(ps), n, states);
      assert Last(ps) in ps;
      forall p | p in Extend(ps, states) ensures IsPath(p, n + 1, states) {
        if p in Fan(Last(ps), states) {
        } else {
          assert p in Extend(Init(ps), states);
        }
      }
    }
  }

  function Occurrences(ps: seq<Path>, p: Path): nat {
    if ps == [] then 0 else Occurrences(Init(ps), p) + (if Last(ps) == p then 1 else 0)
  }

  lemma {:induction false} OccurrencesAppend(ps: seq<Path>, qs: seq<Path>, p: Path)
    ensures Occurrences(ps + qs, p) == Occurrences(ps, p) + Occurrences(qs, p)
  {
    if qs == [] {
      assert ps + qs == ps;
    } else {
      OccurrencesAppend(ps, Init(qs), p);
      assert Init(ps + qs) == ps + Init(qs);
    }
  }

  lemma {:induction false} FanOccurrences(p: Path, states: nat, q: Path)
    ensures Occurrences(Fan(p, states), q) == if q != [] && Init(q) == p && Last(q) < states then 1 else 0
  {
    if states == 0 {
      assert Fan(p, states) == [];
    } else {
      FanOccurrences(p, states - 1, q);
      assert Init(Fan(p, states)) == Fan(p, states - 1);
      assert Last(Fan(p, states)) == p + [states - 1];
      assert q != [] ==> q == Init(q) + [Last(q)];
    }
  }

  lemma {:induction false} ExtendOccurrences(ps: seq<Path>, states: nat, q: Path)
    ensures Occurrences(Extend(ps, states), q)
         == if q != [] && Last(q) < states then Occurrences(ps, Init(q)) else 0
  {
    if ps != [] {
      ExtendOccurrences(Init(ps), states, q);
      FanOccurrences(Last(ps), states, q);
      OccurrencesAppend(Extend(Init(ps), states), Fan(Last(ps), states), q);
    }
  }

  /** The list holds each path of length n exactly once, and nothing else. */
  lemma {:induction false} PathsExactlyOnce(n: nat, states: nat, p: Path)
    ensures Occurrences(Paths(n, states), p) == if IsPath(p, n, states) then 1 else 0
  {
    if n == 0 {
      var one: seq<Path> := [[]];
      assert Init(one) == [] && Last(one) == [];
    } else {
      ExtendOccurrences(Paths(n - 1, states), states, p);
      if p != [] {
        PathsExactlyOnce(n - 1, states, Init(p));
        assert p == Init(p) + [Last(p)];
      }
    }
  }

  // ----- sums over paths -------------------------------------------------------

  /** Pins fix the hidden state at some positions; a path agrees if it has those states there. */
  type Pins = map<nat, nat>

  predicate Agrees(p: Path, pins: Pins) {
    forall k :: k in pins && k < |p| ==> p[k] == pins[k]
  }

  function Weight(h: Hmm, obs: seq<nat>, p: Path, pins: Pins): real
    requires Fits(h, obs) && 0 < |p| <= |obs| && IsPath(p, |p|, |h.pi|)
  {
    if Agrees(p, pins) then Joint(h, obs, p) else 0.0
  }

  predicate PathsFit(h: Hmm, obs: seq<nat>, ps: seq<Path>, n: nat) {
    Fits(h, obs) && 0 < n <= |obs| && forall p :: p in ps ==> IsPath(p, n, |h.pi|)
  }

  /** The joint probability of the observations obs[..n] and of a path in ps that agrees with the pins. */
  function PathSum(h: Hmm, obs: seq<nat>, ps: seq<Path>, n: nat, pins: Pins): real
    requires PathsFit(h, obs, ps, n)
  {
    if ps == [] then 0.0 else
      assert Last(ps) in ps;
      PathSum(h, obs, Init(ps), n, pins) + Weight(h, obs, Last(ps), pins)
  }

  /** The same sum, split by the last state of the path. */
  function EndVec(h: Hmm, obs: seq<nat>, ps: seq<Path>, n: nat, pins: Pins): (r: Vec)
    requires PathsFit(h, obs, ps, n)
    ensures |r| == |h.pi|
  {
    if ps == [] then Const(|h.pi|, 0.0) else
      assert Last(ps) in ps;
      var p := Last(ps);
      Add(EndVec(h, obs, Init(ps), n, pins), OneHot(|h.pi|, Last(p), Weight(h, obs, p, pins)))
  }

  lemma {:induction false} EndVecTotal(h: Hmm, obs: seq<nat>, ps: seq<Path>, n: nat, pins: Pins)
    requires PathsFit(h, obs, ps, n)
    ensures Sum(EndVec(h, obs, ps, n, pins)) == PathSum(h, obs, ps, n, pins)
  {
    if ps == [] {
      SumZero(|h.pi|);
    } else {
      assert Last(ps) in ps;
      var p := Last(ps);
      EndVecTotal(h, obs, Init(ps), n, pins);
      SumOneHot(|h.pi|, Last(p), Weight(h, obs, p, pins));
      SumAdd(EndVec(h, obs, Init(ps), n, pins), OneHot(|h.pi|, Last(p), Weight(h, obs, p, pins)));
    }
  }

  lemma {:induction false} EndVecAppend(h: Hmm, obs: seq<nat>, ps: seq<Path>, qs: seq<Path>, n: nat, pins: Pins)
    requires PathsFit(h, obs, ps, n) && PathsFit(h, obs, qs, n)
    ensures PathsFit(h, obs, ps + qs, n)
    ensures EndVec(h, obs, ps + qs, n, pins) == Add(EndVec(h, obs, ps, n, pins), EndVec(h, obs, qs, n, pins))
  {
    hide Weight, Joint;
    if qs == [] {
      assert ps + qs == ps;
    } else {
      EndVecAppend(h, obs, ps, Init(qs), n, pins);
      assert Init(ps + qs) == ps + Init(qs);
      assert Last(ps + qs) == Last(qs);
    }
  }

  /** A pinned position keeps one entry of the vector and clears the others. */
  function Gate(pins: Pins, t: nat, v: Vec): (r: Vec)
    ensures |r| == |v|
    ensures forall j :: 0 <= j < |v| ==> r[j] == if t in pins && pins[t] != j then 0.0 else v[j]
  {
    seq(|v|, j requires 0 <= j < |v| => if t in pins && pins[t] != j then 0.0 else v[j])
  }

  /** The weights of the paths p + [0], p + [1], ... */
  lemma {:induction false} FanEndVec(h: Hmm, obs: seq<nat>, p: Path, k: nat, pins: Pins)
    requires Fits(h, obs) && |p| < |obs| && IsPath(p, |p|, |h.pi|) && k <= |h.pi|
    ensures PathsFit(h, obs, Fan(p, k), |p| + 1)
    ensures var v := EndVec(h, obs, Fan(p, k), |p| + 1, pins);
            forall j :: 0 <= j < |h.pi| ==> v[j] == if j < k then Weight(h, obs, p + [j], pins) else 0.0
  {
    if k > 0 {
      FanEndVec(h, obs, p, k - 1, pins);
      assert Init(Fan(p, k)) == Fan(p, k - 1);
      assert Last(Fan(p, k)) == p + [k - 1];
    }
  }

  /** One more step of a path multiplies its weight by a transition and an emission. */
  lemma WeightSnoc(h: Hmm, obs: seq<nat>, p: Path, j: nat, pins: Pins)
    requires Fits(h, obs) && 0 < |p| < |obs| && IsPath(p, |p|, |h.pi|) && j < |h.pi|
    ensures Weight(h, obs, p + [j], pins)
         == if |p| in pins && pins[|p|] != j then 0.0
            else Times(Times(Weight(h, obs, p, pins), h.a[Last(p)][j]), h.b[j][obs[|p|]])
  {
    hide Times;
    var q := p + [j];
    assert Init(q) == p;
    TimesUnits(h.a[Last(p)][j]);
    TimesUnits(h.b[j][obs[|p|]]);
    assert forall k :: 0 <= k < |p| ==> q[k] == p[k];
    assert Agrees(q, pins) <==> Agrees(p, pins) && (|p| in pins ==> pins[|p|] == j);
  }

  /** The forward recursion, before any scaling and with some states pinned. */
  function Advance(h: Hmm, obs: seq<nat>, t: nat, pins: Pins, v: Vec): (r: Vec)
    requires Fits(h, obs) && t < |obs| && |v| == |h.pi|
    ensures |r| == |h.pi|
  {
    Gate(pins, t, Mul(VecMat(v, h.a), Emission(h, obs, t)))
  }

  lemma FanAdvance(h: Hmm, obs: seq<nat>, p: Path, pins: Pins)
    requires Fits(h, obs) && 0 < |p| < |obs| && IsPath(p, |p|, |h.pi|)
    ensures PathsFit(h, obs, Fan(p, |h.pi|), |p| + 1)
    ensures EndVec(h, obs, Fan(p, |h.pi|), |p| + 1, pins)
         == Advance(h, obs, |p|, pins, OneHot(|h.pi|, Last(p), Weight(h, obs, p, pins)))
  {
    hide Times, Weight;
    var states := |h.pi|;
    var w := Weight(h, obs, p, pins);
    FanEndVec(h, obs, p, states, pins);
    forall j | 0 <= j < states
      ensures Weight(h, obs, p + [j], pins) == Advance(h, obs, |p|, pins, OneHot(states, Last(p), w))[j]
    {
      WeightSnoc(h, obs, p, j, pins);
      DotOneHot(states, Last(p), w, Col(h.a, j));
    }
  }

  lemma AdvanceAdd(h: Hmm, obs: seq<nat>, t: nat, pins: Pins, u: Vec, v: Vec)
    requires Fits(h, obs) && t < |obs| && |u| == |v| == |h.pi|
    ensures Advance(h, obs, t, pins, Add(u, v))
         == Add(Advance(h, obs, t, pins, u), Advance(h, obs, t, pins, v))
  {
    hide Times, Dot;
    var e := Emission(h, obs, t);
    forall j | 0 <= j < |u|
      ensures Advance(h, obs, t, pins, Add(u, v))[j]
           == Add(Advance(h, obs, t, pins, u), Advance(h, obs, t, pins, v))[j]
    {
      DotAdd(u, v, Col(h.a, j));
      TimesDist(e[j], Dot(u, Col(h.a, j)), Dot(v, Col(h.a, j)));
    }
  }

  lemma AdvanceZero(h: Hmm, obs: seq<nat>, t: nat, pins: Pins)
    requires Fits(h, obs) && t < |obs|
    ensures Advance(h, obs, t, pins, Const(|h.pi|, 0.0)) == Const(|h.pi|, 0.0)
  {
    hide Times, Dot;
    var z := Const(|h.pi|, 0.0);
    forall j | 0 <= j < |h.pi| ensures Advance(h, obs, t, pins, z)[j] == 0.0 {
      DotZero(Col(h.a, j));
      TimesUnits(Emission(h, obs, t)[j]);
    }
  }

  lemma {:induction false} ExtendAdvance(h: Hmm, obs: seq<nat>, ps: seq<Path>, n: nat, pins: Pins)
    requires PathsFit(h, obs, ps, n) && n < |obs|
    ensures PathsFit(h, obs, Extend(ps, |h.pi|), n + 1)
    ensures EndVec(h, obs, Extend(ps, |h.pi|), n + 1, pins)
         == Advance(h, obs, n, pins, EndVec(h, obs, ps, n, pins))
  {
    hide Advance, Weight;
    ExtendIsPath(ps, n, |h.pi|);
    if ps == [] {
      AdvanceZero(h, obs, n, pins);
    } else {
      assert Last(ps) in ps;
      var p := Last(ps);
      ExtendAdvance(h, obs, Init(ps), n, pins);
      FanAdvance(h, obs, p, pins);
      EndVecAppend(h, obs, Extend(Init(ps), |h.pi|), Fan(p, |h.pi|), n + 1, pins);
      AdvanceAdd(h, obs, n, pins, EndVec(h, obs, Init(ps), n, pins),
                 OneHot(|h.pi|, Last(p), Weight(h, obs, p, pins)));
    }
  }

  /** All paths of length t + 1, by end state: the forward recursion computes this exponential sum. */
  function Forwards(h: Hmm, obs: seq<nat>, t: nat, pins: Pins): (r: Vec)
    requires Fits(h, obs) && t < |obs|
    ensures |r| == |h.pi|
  {
    EndVec(h, obs, Paths(t + 1, |h.pi|), t + 1, pins)
  }

  lemma ForwardsStart(h: Hmm, obs: seq<nat>, pins: Pins)
    requires Fits(h, obs) && obs != []
    ensures Forwards(h, obs, 0, pins) == Gate(pins, 0, Mul(h.pi, Emission(h, obs, 0)))
  {
    hide Times, Paths, EndVec, Weight;
    OneStatePaths(|h.pi|);
    FanEndVec(h, obs, [], |h.pi|, pins);
    forall j | 0 <= j < |h.pi|
      ensures Weight(h, obs, [] + [j], pins) == Gate(pins, 0, Mul(h.pi, Emission(h, obs, 0)))[j]
    {
      WeightStart(h, obs, j, pins);
    }
  }

  lemma OneStatePaths(states: nat)
    ensures Paths(1, states) == Fan([], states)
  {
    var one: seq<Path> := [[]];
    assert Paths(0, states) == one;
    assert Init(one) == [] && Last(one) == [];
    assert Extend(Init(one), states) == [];
    assert Extend(one, states) == Fan([], states);
  }

  lemma WeightStart(h: Hmm, obs: seq<nat>, j: nat, pins: Pins)
    requires Fits(h, obs) && obs != [] && j < |h.pi|
    ensures Weight(h, obs, [] + [j], pins)
         == if 0 in pins && pins[0] != j then 0.0 else Times(h.pi[j], h.b[j][obs[0]])
  {
    hide Times;
    assert [] + [j] == [j];
    assert Agrees([j], pins) <==> (0 in pins ==> pins[0] == j);
  }

  lemma ForwardsStep(h: Hmm, obs: seq<nat>, t: nat, pins: Pins)
    requires Fits(h, obs) && t + 1 < |obs|
    ensures Forwards(h, obs, t + 1, pins) == Advance(h, obs, t + 1, pins, Forwards(h, obs, t, pins))
  {
    ExtendAdvance(h, obs, Paths(t + 1, |h.pi|), t + 1, pins);
  }
}
