/** The depth engine: how a budget is spread over the levels of one side of the grid. */
module DepthEngine {
  import opened LinearAlgebra
  import opened Orders
  import opened Reals

  const DECAY: real := 0.8

  // ----- the raw distribution -------------------------------------------------------

  function Power(i: nat): (p: real)
    ensures p > 0.0
  {
    if i == 0 then 1.0 else DECAY * Power(i - 1)
  }

  function Weights(n: nat): (r: Vec)
    ensures |r| == n && forall i :: 0 <= i < n ==> r[i] == Power(i)
  {
    seq(n, i requires 0 <= i < n => Power(i))
  }

  lemma WeightsPositive(n: nat)
    requires n > 0
    ensures Sum(Weights(n)) > 0.0
  {
    SumNonNegative(Weights(n));
    assert Weights(n)[0] == 1.0;
  }

  function WeightTotal(n: nat): (t: real)
    requires n > 0
    ensures t > 0.0
  {
    WeightsPositive(n);
    Sum(Weights(n))
  }

  /** geometric_decay */
  function Passive(n: nat): (r: Vec)
    requires n > 0
    ensures |r| == n
  {
    Div(Weights(n), WeightTotal(n))
  }

  function Equal(n: nat): (r: Vec)
    requires n > 0
    ensures |r| == n
  {
    Const(n, Over(1.0, n as real))
  }

  function Ratio(n: nat, blend: real): (r: Vec)
    requires n > 0
    ensures |r| == n
  {
    Add(Scale(1.0 - blend, Passive(n)), Scale(blend, Equal(n)))
  }

  /** Half the budget, scaled by the regime multiplier and the inventory skew. */
  function SideBudget(total: real, mult: real, skew: real, side: Side): real {
    Times(Times(total / 2.0, Max(0.0, mult)), Clip(if side.Buy? then skew else 2.0 - skew, 0.5, 2.0))
  }

  function Raw(n: nat, blend: real, budget: real): (r: Vec)
    requires n > 0
    ensures |r| == n
  {
    Scale(budget, Ratio(n, blend))
  }

  predicate NonIncreasing(v: Vec) {
    forall i :: 0 < i < |v| ==> v[i] <= v[i - 1]
  }

  lemma TimesOrder(c: real, x: real, y: real)
    requires c >= 0.0 && x <= y
    ensures Times(c, x) <= Times(c, y)
  {
    TimesSign(c, y - x);
    TimesDist(c, x, y - x);
  }

  lemma BudgetNonNegative(total: real, mult: real, skew: real, side: Side)
    requires total >= 0.0
    ensures SideBudget(total, mult, skew, side) >= 0.0
  {
    hide Times;
    TimesSign(total / 2.0, Max(0.0, mult));
    TimesSign(Times(total / 2.0, Max(0.0, mult)), Clip(if side.Buy? then skew else 2.0 - skew, 0.5, 2.0));
  }

  /** The budget of one side per unit of half the total: the skew for buys, its mirror image for sells, kept in [0.5, 2]. */
  lemma SidesMirror(total: real, mult: real, skew: real)
    ensures SideBudget(total, mult, skew, Buy) == SideBudget(total, mult, 2.0 - skew, Sell)
    ensures 0.5 <= skew <= 2.0 ==> SideBudget(total, mult, skew, Buy) == Times(Times(total / 2.0, Max(0.0, mult)), skew)
    ensures skew > 2.0 ==> SideBudget(total, mult, skew, Buy) == SideBudget(total, mult, 2.0, Buy)
    ensures skew < 0.5 ==> SideBudget(total, mult, skew, Buy) == SideBudget(total, mult, 0.5, Buy)
  {
    hide Times;
  }

  /** A positive budget and multiplier. */
  lemma HalfIsPositive(total: real, mult: real)
    requires total > 0.0 && mult > 0.0
    ensures Times(total / 2.0, Max(0.0, mult)) > 0.0
    ensures Times(total, mult) == Times(Times(total / 2.0, Max(0.0, mult)), 2.0)
  {
    TimesSign(total / 2.0, mult);
  }

  lemma StrictTimesOrder(c: real, x: real, y: real)
    requires c > 0.0
    ensures Times(c, x) < Times(c, y) <==> x < y
    ensures Times(c, x) == Times(c, y) <==> x == y
  {
    hide Times;
    TimesDist(c, x, y - x);
    TimesDist(c, y, x - y);
    TimesSign(c, y - x);
    TimesSign(c, x - y);
    if Times(c, x) == Times(c, y) {
      TimesCancel(c, x, y);
    }
  }

  /**
   * A skew above one moves budget from sells to buys, one below one from buys to sells. The two
   * sides together spend exactly the total times the multiplier if and only if the skew is
   * within [0.5, 1.5]; outside they spend more, because the smaller side is kept at half.
   */
  lemma SkewMovesBudget(total: real, mult: real, skew: real)
    requires total > 0.0 && mult > 0.0
    ensures var buy, sell := SideBudget(total, mult, skew, Buy), SideBudget(total, mult, skew, Sell);
            && (buy > sell <==> skew > 1.0) && (buy < sell <==> skew < 1.0)
            && buy + sell >= Times(total, mult)
            && (buy + sell == Times(total, mult) <==> 0.5 <= skew <= 1.5)
  {
    hide Times;
    var half := Times(total / 2.0, Max(0.0, mult));
    var x, y := Clip(skew, 0.5, 2.0), Clip(2.0 - skew, 0.5, 2.0);
    HalfIsPositive(total, mult);
    StrictTimesOrder(half, x, y);
    StrictTimesOrder(half, y, x);
    TimesDist(half, x, y);
    StrictTimesOrder(half, 2.0, x + y);
    StrictTimesOrder(half, x + y, 2.0);
  }

  lemma ScaleKeepsOrder(c: real, v: Vec)
    requires c >= 0.0 && NonIncreasing(v) && NonNegative(v)
    ensures NonIncreasing(Scale(c, v)) && NonNegative(Scale(c, v))
  {
    hide Times;
    forall i | 0 <= i < |v| ensures Scale(c, v)[i] >= 0.0 && (i > 0 ==> Scale(c, v)[i] <= Scale(c, v)[i - 1]) {
      TimesSign(c, v[i]);
      if i > 0 {
        TimesOrder(c, v[i], v[i - 1]);
      }
    }
  }

  /** The shares add up to one and do not grow outward, for every blend. */
  lemma RatioIsShare(n: nat, blend: real)
    requires n > 0 && 0.0 <= blend <= 1.0
    ensures Sum(Ratio(n, blend)) == 1.0
    ensures NonIncreasing(Ratio(n, blend)) && NonNegative(Ratio(n, blend))
  {
    hide Passive, Equal, Times, Sum, NonIncreasing, NonNegative;
    PassiveIsShare(n);
    EqualIsShare(n);
    BlendedTotal(Passive(n), Equal(n), blend);
    ScaleKeepsOrder(1.0 - blend, Passive(n));
    ScaleKeepsOrder(blend, Equal(n));
    AddKeepsOrder(Scale(1.0 - blend, Passive(n)), Scale(blend, Equal(n)));
  }

  /** A blend of two vectors that add up to one adds up to one. */
  lemma BlendedTotal(p: Vec, e: Vec, blend: real)
    requires |p| == |e| && Sum(p) == 1.0 == Sum(e)
    ensures Sum(Add(Scale(1.0 - blend, p), Scale(blend, e))) == 1.0
  {
    hide Times, Sum;
    SumAdd(Scale(1.0 - blend, p), Scale(blend, e));
    SumScale(1.0 - blend, p);
    SumScale(blend, e);
    TimesUnits(blend);
    TimesUnits(1.0 - blend);
  }

  lemma AddKeepsOrder(u: Vec, v: Vec)
    requires |u| == |v| && NonIncreasing(u) && NonIncreasing(v) && NonNegative(u) && NonNegative(v)
    ensures NonIncreasing(Add(u, v)) && NonNegative(Add(u, v))
  {
  }

  lemma PassiveIsShare(n: nat)
    requires n > 0
    ensures Sum(Passive(n)) == 1.0
    ensures NonIncreasing(Passive(n)) && NonNegative(Passive(n))
  {
    hide Times, Over;
    var w, t := Weights(n), WeightTotal(n);
    SumDiv(w, t);
    OverTimes(1.0, t);
    DivIsScale(w, t);
    assert forall i :: 0 < i < n ==> Power(i) == DECAY * Power(i - 1);
    assert NonIncreasing(w) && NonNegative(w);
    ScaleKeepsOrder(Over(1.0, t), w);
  }

  /** The passive share falls by the decay factor from level to level; the blend runs from it to equal shares. */
  lemma BlendEnds(n: nat, i: nat)
    requires 0 < i < n
    ensures Passive(n)[i] == Times(DECAY, Passive(n)[i - 1])
    ensures Ratio(n, 0.0) == Passive(n)
    ensures Ratio(n, 1.0) == Equal(n)
  {
    hide Times, Over, WeightTotal;
    var t := WeightTotal(n);
    OverTimes(Power(i), t);
    OverTimes(Power(i - 1), t);
    DecayStep(i);
    TimesAssoc(DECAY, Over(1.0, t), Power(i - 1));
    TimesAssoc(Over(1.0, t), DECAY, Power(i - 1));
    TimesComm(DECAY, Over(1.0, t));
    forall j | 0 <= j < n ensures Ratio(n, 0.0)[j] == Passive(n)[j] && Ratio(n, 1.0)[j] == Equal(n)[j] {
      TimesUnits(Passive(n)[j]);
      TimesUnits(Equal(n)[j]);
    }
  }

  lemma DecayStep(i: nat)
    requires i > 0
    ensures Power(i) == Times(DECAY, Power(i - 1))
  {
  }

  /** In between, the shares move from one end to the other in proportion to the blend. */
  lemma BlendIsStraight(n: nat, x: real, y: real, z: real, i: nat)
    requires i < n
    ensures Times(z - x, Ratio(n, y)[i] - Ratio(n, x)[i]) == Times(y - x, Ratio(n, z)[i] - Ratio(n, x)[i])
  {
    hide Passive, Equal, Times;
    StraightLine(Passive(n)[i], Equal(n)[i], x, y, z);
  }

  lemma StraightLine(p: real, e: real, x: real, y: real, z: real)
    ensures var f := (b: real) => Times(1.0 - b, p) + Times(b, e);
            Times(z - x, f(y) - f(x)) == Times(y - x, f(z) - f(x))
  {
    LineFrom(p, e, x, y);
    LineFrom(p, e, x, z);
    hide Times;
    var d := e - p;
    TimesAssoc(z - x, y - x, d);
    TimesAssoc(y - x, z - x, d);
    TimesComm(z - x, y - x);
  }

  lemma LineFrom(p: real, e: real, x: real, y: real)
    ensures Times(1.0 - y, p) + Times(y, e) - (Times(1.0 - x, p) + Times(x, e)) == Times(y - x, e - p)
  {
  }

  lemma EqualIsShare(n: nat)
    requires n > 0
    ensures Sum(Equal(n)) == 1.0
    ensures NonIncreasing(Equal(n)) && NonNegative(Equal(n))
  {
    hide Times, Over;
    SumConst(n, Over(1.0, n as real));
    OverTimes(1.0, n as real);
  }

  /** The raw amounts spend the side budget exactly. */
  lemma RawSpendsTheBudget(n: nat, blend: real, budget: real)
    requires n > 0 && 0.0 <= blend <= 1.0 && budget >= 0.0
    ensures Sum(Raw(n, blend, budget)) == budget
    ensures NonIncreasing(Raw(n, blend, budget)) && NonNegative(Raw(n, blend, budget))
  {
    hide Ratio, Times, Sum;
    RatioIsShare(n, blend);
    SumScale(budget, Ratio(n, blend));
    TimesUnits(budget);
    ScaleKeepsOrder(budget, Ratio(n, blend));
  }

  // ----- the minimum step -------------------------------------------------------------

  function Lowered(prev: real, x: real, step: real): real {
    if x > prev - step then Max(prev - step, 0.0) else x
  }

  function Stepped(raw: Vec, step: real): (r: Vec)
    ensures |r| == |raw|
  {
    if |raw| <= 1 then raw
    else
      var inner := Stepped(Init(raw), step);
      inner + [Lowered(Last(inner), Last(raw), step)]
  }

  function WithStep(raw: Vec, step: real): (r: Vec)
    ensures |r| == |raw|
  {
    if step > 0.0 && |raw| > 1 then Stepped(raw, step) else raw
  }

  method EnforceStep(raw: array<real>, step: real)
    requires raw.Length > 0
    modifies raw
    ensures raw[..] == Stepped(old(raw[..]), step)
  {
    ghost var was := raw[..];
    assert was[..1] == Stepped(was[..1], step);
    for i := 1 to raw.Length
      invariant raw[..i] == Stepped(was[..i], step)
      invariant raw[i..] == was[i..]
    {
      assert raw[i] == raw[i..][0] == was[i];
      assert Init(was[..i + 1]) == was[..i] && Last(was[..i + 1]) == was[i];
      assert Last(raw[..i]) == raw[i - 1];
      ghost var inner, tail := raw[..i], raw[i..];
      var minVal := raw[i - 1] - step;
      if raw[i] > minVal {
        raw[i] := Max(minVal, 0.0);
      }
      assert raw[..i + 1] == inner + [raw[i]];
      assert raw[i + 1..] == tail[1..];
    }
    assert raw[..raw.Length] == raw[..] && was[..raw.Length] == was;
  }

  /** Each level is lowered, stays non-negative, and keeps the step below the level before it, or is zero. */
  lemma {:induction false} SteppedIsSpaced(raw: Vec, step: real)
    requires NonNegative(raw) && step >= 0.0
    ensures var s := Stepped(raw, step);
            forall i :: 0 <= i < |raw| ==>
              && 0.0 <= s[i] <= raw[i]
              && (i > 0 ==> s[i] <= s[i - 1] && (s[i] <= s[i - 1] - step || s[i] == 0.0))
  {
    if |raw| > 1 {
      SteppedIsSpaced(Init(raw), step);
    }
  }

  /** n times the step. */
  function Drop(n: nat, step: real): real {
    if n == 0 then 0.0 else step + Drop(n - 1, step)
  }

  /** The least of raw[j] - (i - j) * step over j <= k. */
  function Ceiling(raw: Vec, step: real, i: nat, k: nat): real
    requires k <= i < |raw|
  {
    if k == 0 then raw[0] - Drop(i, step)
    else Min(Ceiling(raw, step, i, k - 1), raw[k] - Drop(i - k, step))
  }

  lemma {:induction false} CeilingIsLeast(raw: Vec, step: real, i: nat, k: nat)
    requires k <= i < |raw|
    ensures forall j :: 0 <= j <= k ==> Ceiling(raw, step, i, k) <= raw[j] - Drop(i - j, step)
    ensures exists j :: 0 <= j <= k && Ceiling(raw, step, i, k) == raw[j] - Drop(i - j, step)
  {
    hide Drop;
    if k == 0 {
      assert Ceiling(raw, step, i, k) == raw[0] - Drop(i - 0, step);
    } else {
      CeilingIsLeast(raw, step, i, k - 1);
    }
  }

  /** One level further out, every ceiling is a step lower. */
  lemma {:induction false} CeilingDrops(raw: Vec, step: real, i: nat, k: nat)
    requires k <= i && i + 1 < |raw|
    ensures Ceiling(raw, step, i + 1, k) == Ceiling(raw, step, i, k) - step
  {
    if k > 0 {
      CeilingDrops(raw, step, i, k - 1);
    }
    assert Drop(i + 1 - k, step) == step + Drop(i - k, step);
  }

  lemma {:induction false} CeilingOfInit(raw: Vec, step: real, i: nat, k: nat)
    requires k <= i < |raw| - 1
    ensures Ceiling(Init(raw), step, i, k) == Ceiling(raw, step, i, k)
  {
    if k > 0 {
      CeilingOfInit(raw, step, i, k - 1);
    }
  }

  lemma SteppedLast(raw: Vec, step: real)
    requires raw != []
    ensures |raw| == 1 ==> Stepped(raw, step) == raw
    ensures |raw| > 1 ==>
              && (forall i :: 0 <= i < |raw| - 1 ==> Stepped(raw, step)[i] == Stepped(Init(raw), step)[i])
              && Stepped(raw, step)[|raw| - 1] == Lowered(Stepped(Init(raw), step)[|raw| - 2], Last(raw), step)
  {
  }

  /** In closed form: a level keeps max(0, min over j <= i of raw[j] - (i - j) * step). */
  lemma {:induction false} SteppedClosedForm(raw: Vec, step: real, i: nat)
    requires NonNegative(raw) && step >= 0.0 && i < |raw|
    ensures Stepped(raw, step)[i] == Max(0.0, Ceiling(raw, step, i, i))
    decreases |raw|
  {
    hide Ceiling, Stepped;
    SteppedLast(raw, step);
    if i < |raw| - 1 {
      SteppedClosedForm(Init(raw), step, i);
      CeilingOfInit(raw, step, i, i);
    } else {
      CeilingStart(raw, step, i);
      if i > 0 {
        SteppedClosedForm(Init(raw), step, i - 1);
        CeilingOfInit(raw, step, i - 1, i - 1);
        CeilingDrops(raw, step, i - 1, i - 1);
      }
    }
  }

  lemma CeilingStart(raw: Vec, step: real, i: nat)
    requires i < |raw|
    ensures Ceiling(raw, step, i, i) == if i == 0 then raw[0] else Min(Ceiling(raw, step, i, i - 1), raw[i])
  {
  }

  /** No level is lowered more than it has to be: every spaced vector below the raw amounts is below the stepped one. */
  lemma {:induction false} SteppedIsGreatest(raw: Vec, step: real, v: Vec)
    requires |v| == |raw| && step >= 0.0
    requires forall i :: 0 <= i < |raw| ==> 0.0 <= v[i] <= raw[i]
    requires forall i :: 0 < i < |raw| ==> v[i] <= v[i - 1] - step || v[i] == 0.0
    ensures forall i :: 0 <= i < |raw| ==> v[i] <= Stepped(raw, step)[i]
  {
    if |raw| > 1 {
      hide Stepped;
      SteppedLast(raw, step);
      SteppedIsGreatest(Init(raw), step, Init(v));
      var last := |raw| - 1;
      assert v[last - 1] == Init(v)[last - 1] <= Stepped(Init(raw), step)[last - 1];
      forall i | 0 <= i < |raw| ensures v[i] <= Stepped(raw, step)[i] {
        assert i < last ==> v[i] == Init(v)[i] <= Stepped(Init(raw), step)[i];
      }
    }
  }

  lemma {:induction false} SumOrder(u: Vec, v: Vec)
    requires |u| == |v| && forall i :: 0 <= i < |u| ==> u[i] <= v[i]
    ensures Sum(u) <= Sum(v)
    ensures forall i :: 0 <= i < |u| && u[i] < v[i] ==> Sum(u) < Sum(v)
  {
    if u != [] {
      SumOrder(Init(u), Init(v));
      forall i | 0 <= i < |u| && u[i] < v[i] ensures Sum(u) < Sum(v) {
        assert i < |u| - 1 ==> Init(u)[i] < Init(v)[i];
      }
    }
  }

  lemma WithStepOnlyLowers(raw: Vec, step: real)
    requires NonNegative(raw)
    ensures var s := WithStep(raw, step);
            NonNegative(s) && Sum(s) <= Sum(raw) && forall i :: 0 <= i < |raw| ==> s[i] <= raw[i]
  {
    hide Sum, Stepped;
    if step > 0.0 {
      SteppedIsSpaced(raw, step);
    }
    SumOrder(WithStep(raw, step), raw);
  }

  // ----- the minimum order and the cap -------------------------------------------------

  /** np.maximum */
  function Floored(v: Vec, m: real): (r: Vec)
    ensures |r| == |v| && forall i :: 0 <= i < |v| ==> r[i] == Max(v[i], m)
  {
    seq(|v|, i requires 0 <= i < |v| => Max(v[i], m))
  }

  predicate AllAtLeast(v: Vec, m: real) {
    forall i :: 0 <= i < |v| ==> v[i] >= m
  }

  /** A total above the budget is scaled down, but only if every level stays at the minimum or above. */
  function Capped(v: Vec, budget: real, m: real): Vec
    requires budget >= 0.0
  {
    var total := Sum(v);
    if total > budget then
      var scaled := Scale(Over(budget, total), v);
      if AllAtLeast(scaled, m) then scaled else v
    else v
  }

  function Amounts(raw: Vec, budget: real, m: real, step: real): Vec
    requires budget >= 0.0
  {
    Floored(Capped(Floored(WithStep(raw, step), m), budget, m), m)
  }

  lemma ScalingDownShrinks(c: real, x: real)
    requires c < 1.0 && x > 0.0
    ensures Times(c, x) < x
  {
    TimesSign(1.0 - c, x);
    TimesDist(x, c, 1.0 - c);
    TimesUnits(x);
  }

  lemma RatioBelowOne(x: real, y: real)
    requires 0.0 <= x < y
    ensures Over(x, y) < 1.0
  {
    hide Times, Over;
    OverTimes(x, y);
    if Over(x, y) >= 1.0 {
      TimesOrder(y, 1.0, Over(x, y));
      TimesUnits(y);
      assert false;
    }
  }

  /** The scaling branch never takes effect: it would need every level above the minimum, and then the total fits. */
  lemma RescaleNeverApplies(lowered: Vec, budget: real, m: real)
    requires budget >= 0.0 && m > 0.0 && Sum(lowered) <= budget
    ensures Sum(Floored(lowered, m)) > budget ==>
              !AllAtLeast(Scale(Over(budget, Sum(Floored(lowered, m))), Floored(lowered, m)), m)
    ensures Capped(Floored(lowered, m), budget, m) == Floored(lowered, m)
  {
    hide Times, Over, Sum;
    var v := Floored(lowered, m);
    var total := Sum(v);
    if i :| 0 <= i < |v| && v[i] != lowered[i] {
      if total > budget {
        RatioBelowOne(budget, total);
        ScalingDownShrinks(Over(budget, total), m);
        assert Scale(Over(budget, total), v)[i] < m;
      }
    } else {
      assert v == lowered;
    }
  }

  /** What compute_amounts returns: the lowered amounts, raised to the minimum order. */
  lemma AmountsAreFloored(n: nat, blend: real, budget: real, m: real, step: real)
    requires n > 0 && 0.0 <= blend <= 1.0 && budget >= 0.0 && m > 0.0
    ensures Amounts(Raw(n, blend, budget), budget, m, step) == Floored(WithStep(Raw(n, blend, budget), step), m)
  {
    hide Capped, Raw, WithStep, Sum;
    RawSpendsTheBudget(n, blend, budget);
    var lowered := WithStep(Raw(n, blend, budget), step);
    WithStepOnlyLowers(Raw(n, blend, budget), step);
    RescaleNeverApplies(lowered, budget, m);
    assert Floored(Floored(lowered, m), m) == Floored(lowered, m);
  }

  // ----- what the amounts promise --------------------------------------------------------

  /**
   * Amounts do not grow outward and are at least the minimum order. With a minimum step,
   * each drop is at least the step, or the outer level is exactly the minimum order.
   */
  lemma AmountsAreSpaced(n: nat, blend: real, budget: real, m: real, step: real)
    requires n > 0 && 0.0 <= blend <= 1.0 && budget >= 0.0 && m > 0.0
    ensures var a := Amounts(Raw(n, blend, budget), budget, m, step);
            && |a| == n && NonIncreasing(a) && AllAtLeast(a, m)
            && (step > 0.0 ==> forall i :: 0 < i < n ==> a[i - 1] - a[i] >= step || a[i] == m)
  {
    hide Amounts, Raw, Sum, Stepped;
    RawSpendsTheBudget(n, blend, budget);
    AmountsAreFloored(n, blend, budget, m, step);
    var raw := Raw(n, blend, budget);
    var lowered := WithStep(raw, step);
    WithStepOnlyLowers(raw, step);
    var a := Floored(lowered, m);
    if step > 0.0 {
      SteppedIsSpaced(raw, step);
    }
    forall i | 0 < i < n
      ensures a[i] <= a[i - 1] && (step > 0.0 ==> a[i - 1] - a[i] >= step || a[i] == m)
    {
      assert a[i - 1] == Max(lowered[i - 1], m);
      assert lowered[i] <= lowered[i - 1];
    }
  }

  /** The quantities by which levels fall short of the minimum order. */
  function Shortfalls(v: Vec, m: real): (r: Vec)
    ensures |r| == |v| && forall i :: 0 <= i < |v| ==> r[i] == Max(0.0, m - v[i])
  {
    seq(|v|, i requires 0 <= i < |v| => Max(0.0, m - v[i]))
  }

  /**
   * The total is the lowered amounts plus their shortfalls, hence at most the side budget
   * plus the shortfalls of the raw amounts.
   */
  lemma TotalIsBounded(n: nat, blend: real, budget: real, m: real, step: real)
    requires n > 0 && 0.0 <= blend <= 1.0 && budget >= 0.0 && m > 0.0
    ensures var raw := Raw(n, blend, budget);
            var lowered := WithStep(raw, step);
            var total := Sum(Amounts(raw, budget, m, step));
            && total == Sum(lowered) + Sum(Shortfalls(lowered, m))
            && total <= budget + Sum(Shortfalls(raw, m))
  {
    hide Amounts, Raw, WithStep, Sum;
    var raw := Raw(n, blend, budget);
    var lowered := WithStep(raw, step);
    RawSpendsTheBudget(n, blend, budget);
    AmountsAreFloored(n, blend, budget, m, step);
    WithStepOnlyLowers(raw, step);
    var a := Floored(lowered, m);
    SumAdd(lowered, Shortfalls(lowered, m));
    assert a == Add(lowered, Shortfalls(lowered, m));
    SumAdd(raw, Shortfalls(raw, m));
    SumOrder(a, Add(raw, Shortfalls(raw, m)));
  }

  /**
   * The cap to the side budget fails for some inputs. Without a minimum step the total
   * fits exactly when the outermost raw amount already meets the minimum order; with one,
   * that is still enough.
   */
  lemma TotalFitsIff(n: nat, blend: real, budget: real, m: real, step: real)
    requires n > 0 && 0.0 <= blend <= 1.0 && budget >= 0.0 && m > 0.0
    ensures var raw := Raw(n, blend, budget);
            var total := Sum(Amounts(raw, budget, m, step));
            && (raw[n - 1] >= m ==> total <= budget)
            && (step <= 0.0 ==> (total <= budget <==> raw[n - 1] >= m))
  {
    hide Amounts, Raw, Sum, Stepped;
    var raw := Raw(n, blend, budget);
    RawSpendsTheBudget(n, blend, budget);
    AmountsAreFloored(n, blend, budget, m, step);
    WithStepOnlyLowers(raw, step);
    var a := Floored(WithStep(raw, step), m);
    OutermostIsLeast(raw);
    if raw[n - 1] >= m {
      SumOrder(a, raw);
    } else if step <= 0.0 {
      SumOrder(raw, a);
      assert raw[n - 1] < a[n - 1];
    }
  }

  /** The amounts with a minimum step, from the raw ones: the larger of the minimum order and the ceiling. */
  function Ceilings(raw: Vec, m: real, step: real): (r: Vec)
    ensures |r| == |raw| && forall i :: 0 <= i < |r| ==> r[i] == Max(m, Ceiling(raw, step, i, i))
  {
    seq(|raw|, i requires 0 <= i < |raw| => Max(m, Ceiling(raw, step, i, i)))
  }

  /**
   * With a minimum step level i costs max(m, min over j <= i of raw[j] - (i - j) * step), and
   * the total fits exactly when these add up to no more than the side budget.
   */
  lemma SteppedTotalFitsIff(n: nat, blend: real, budget: real, m: real, step: real)
    requires n > 0 && 0.0 <= blend <= 1.0 && budget >= 0.0 && m > 0.0 && step > 0.0
    ensures var raw := Raw(n, blend, budget);
            && Amounts(raw, budget, m, step) == Ceilings(raw, m, step)
            && (Sum(Amounts(raw, budget, m, step)) <= budget <==> Sum(Ceilings(raw, m, step)) <= budget)
  {
    hide Amounts, Raw, Sum, Stepped, Ceiling;
    var raw := Raw(n, blend, budget);
    RawSpendsTheBudget(n, blend, budget);
    AmountsAreFloored(n, blend, budget, m, step);
    LoneIsStepped(raw, step);
    forall i | 0 <= i < n ensures Floored(WithStep(raw, step), m)[i] == Ceilings(raw, m, step)[i] {
      SteppedClosedForm(raw, step, i);
    }
  }

  lemma LoneIsStepped(raw: Vec, step: real)
    requires step > 0.0
    ensures WithStep(raw, step) == Stepped(raw, step)
  {
  }

  /**
   * For every minimum step: the total fits the side budget exactly when what the minimum
   * order adds to the lowered levels is no more than what the step has taken off them.
   */
  lemma TotalFitsExactlyWhen(n: nat, blend: real, budget: real, m: real, step: real)
    requires n > 0 && 0.0 <= blend <= 1.0 && budget >= 0.0 && m > 0.0
    ensures var raw := Raw(n, blend, budget);
            var lowered := WithStep(raw, step);
            Sum(Amounts(raw, budget, m, step)) <= budget <==>
              Sum(Shortfalls(lowered, m)) <= Sum(raw) - Sum(lowered)
  {
    hide Amounts, Raw, WithStep, Sum;
    RawSpendsTheBudget(n, blend, budget);
    TotalIsBounded(n, blend, budget, m, step);
  }

  /**
   * The step can make room: shares of 10, 8 and 6.4 out of 24.4, with a minimum order of
   * 6.5, do not fit without a step and do with a step of 4.
   */
  lemma StepMakesRoom()
    ensures Raw(3, 0.0, 24.4) == [10.0, 8.0, 6.4]
    ensures Sum(Amounts(Raw(3, 0.0, 24.4), 24.4, 6.5, 0.0)) > 24.4
    ensures Sum(Amounts(Raw(3, 0.0, 24.4), 24.4, 6.5, 4.0)) <= 24.4
  {
    hide Amounts;
    PassiveOfThree();
    TotalFitsIff(3, 0.0, 24.4, 6.5, 0.0);
    SteppedOfThree();
    ShortfallsOfThree();
    SumOfThree(10.0, 6.0, 2.0);
    SumOfThree(0.0, 0.5, 4.5);
    SumOfThree(10.0, 8.0, 6.4);
    TotalFitsExactlyWhen(3, 0.0, 24.4, 6.5, 4.0);
  }

  lemma SumOfThree(x: real, y: real, z: real)
    ensures Sum([x, y, z]) == x + y + z
  {
    assert Init([x, y, z]) == [x, y] && Init([x, y]) == [x] && Init([x]) == [];
    assert Sum([x]) == x && Sum([x, y]) == x + y;
  }

  lemma PassiveOfThree()
    ensures Raw(3, 0.0, 24.4) == [10.0, 8.0, 6.4]
  {
    assert Power(0) == 1.0 && Power(1) == 0.8 && Power(2) == 0.64;
    assert Weights(3) == [1.0, 0.8, 0.64];
    SumOfThree(1.0, 0.8, 0.64);
    BlendEnds(3, 1);
    var r := Ratio(3, 0.0);
    assert r[0] == 1.0 / 2.44 && r[1] == 0.8 / 2.44 && r[2] == 0.64 / 2.44;
    assert Times(24.4, r[0]) == 10.0 && Times(24.4, r[1]) == 8.0 && Times(24.4, r[2]) == 6.4;
  }

  lemma SteppedOfThree()
    ensures WithStep([10.0, 8.0, 6.4], 4.0) == [10.0, 6.0, 2.0]
  {
    assert Init([10.0, 8.0, 6.4]) == [10.0, 8.0] && Init([10.0, 8.0]) == [10.0];
    assert Stepped([10.0, 8.0], 4.0) == [10.0, 6.0];
  }

  lemma ShortfallsOfThree()
    ensures Shortfalls([10.0, 6.0, 2.0], 6.5) == [0.0, 0.5, 4.5]
  {
  }

  lemma {:induction false} OutermostIsLeast(v: Vec)
    requires v != [] && NonIncreasing(v)
    ensures AllAtLeast(v, v[|v| - 1])
  {
    if |v| > 1 {
      OutermostIsLeast(Init(v));
      assert forall i :: 0 <= i < |v| - 1 ==> v[i] == Init(v)[i];
    }
  }

  /** Two equal levels of 5 with a minimum order of 6 cost 12 out of a budget of 10. */
  lemma BudgetCanBeExceeded()
    ensures Sum(Amounts(Raw(2, 1.0, 10.0), 10.0, 6.0, 0.0)) > 10.0
  {
    hide Amounts, Sum, Passive;
    assert Raw(2, 1.0, 10.0)[1] == 5.0;
    TotalFitsIff(2, 1.0, 10.0, 6.0, 0.0);
  }

  // ----- the engine ----------------------------------------------------------------------

  /** blend stands for the clipped aggressiveness raised to the curve strength. */
  method ComputeAmounts(totalBudget: real, mult: real, skew: real, side: Side,
                        blend: real, n: nat, minOrder: real, minStep: real)
    returns (amounts: Vec)
    requires n > 0 && 0.0 <= blend <= 1.0 && totalBudget > 0.0 && minOrder > 0.0
    ensures var budget := SideBudget(totalBudget, mult, skew, side);
            && budget >= 0.0
            && amounts == Amounts(Raw(n, blend, budget), budget, minOrder, minStep)
  {
    hide Raw, Sum, Stepped, Times, Over;
    var sideBudget := SideBudget(totalBudget, mult, skew, side);
    BudgetNonNegative(totalBudget, mult, skew, side);
    var start := Raw(n, blend, sideBudget);
    var raw := new real[n](i requires 0 <= i < n => start[i]);
    assert raw[..] == start;
    if minStep > 0.0 && n > 1 {
      EnforceStep(raw, minStep);
    }
    assert raw[..] == WithStep(start, minStep);
    amounts := Floored(raw[..], minOrder);
    var total := Sum(amounts);
    if total > sideBudget {
      var scaled := Scale(Over(sideBudget, total), amounts);
      if AllAtLeast(scaled, minOrder) {
        amounts := scaled;
      }
    }
    amounts := Floored(amounts, minOrder);
  }
}
