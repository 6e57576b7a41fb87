/** The numpy operations the HMM code relies on, over real vectors and matrices. */
module LinearAlgebra {
  type Vec = seq<real>
  type Mat = seq<seq<real>>

  // ----- real products ---------------------------------------------------------

  // Products and quotients are named, and their definitions hidden in the proofs
  // below, so that the solver rewrites with the laws stated here and never has to
  // do non-linear arithmetic of its own.

  function Times(x: real, y: real): real {
    x * y
  }

  function Over(x: real, y: real): real
    requires y != 0.0
  {
    x / y
  }

  lemma TimesComm(x: real, y: real)
    ensures Times(x, y) == Times(y, x)
  {
  }

  lemma TimesAssoc(x: real, y: real, z: real)
    ensures Times(Times(x, y), z) == Times(x, Times(y, z))
  {
  }

  lemma TimesDist(x: real, y: real, z: real)
    ensures Times(x, y + z) == Times(x, y) + Times(x, z)
    ensures Times(y + z, x) == Times(y, x) + Times(z, x)
  {
  }

  lemma TimesUnits(x: real)
    ensures Times(x, 0.0) == 0.0 == Times(0.0, x)
    ensures Times(x, 1.0) == x == Times(1.0, x)
  {
  }

  lemma TimesSign(x: real, y: real)
    ensures x >= 0.0 && y >= 0.0 ==> Times(x, y) >= 0.0
    ensures x > 0.0 && y > 0.0 ==> Times(x, y) > 0.0
    ensures Times(x, y) == 0.0 <==> x == 0.0 || y == 0.0
  {
  }

  lemma TimesCancel(c: real, x: real, y: real)
    requires c != 0.0 && Times(c, x) == Times(c, y)
    ensures x == y
  {
  }

  lemma OverTimes(x: real, y: real)
    requires y != 0.0
    ensures Times(y, Over(x, y)) == x
    ensures Over(x, y) == Times(Over(1.0, y), x)
    ensures Over(y, y) == 1.0
    ensures y > 0.0 && x >= 0.0 ==> Over(x, y) >= 0.0
    ensures y > 0.0 && x > 0.0 ==> Over(x, y) > 0.0
    ensures Over(0.0, y) == 0.0
  {
  }

  // ----- vectors and matrices --------------------------------------------------

  predicate IsMat(m: Mat, rows: nat, cols: nat) {
    |m| == rows && forall i :: 0 <= i < rows ==> |m[i]| == cols
  }

  predicate NonNegative(v: Vec) {
    forall i :: 0 <= i < |v| ==> v[i] >= 0.0
  }

  predicate Positive(v: Vec) {
    forall i :: 0 <= i < |v| ==> v[i] > 0.0
  }

  function Init<T>(v: seq<T>): seq<T>
    requires v != []
  {
    v[..|v| - 1]
  }

  function Last<T>(v: seq<T>): T
    requires v != []
  {
    v[|v| - 1]
  }

  function Sum(v: Vec): real {
    if v == [] then 0.0 else Sum(Init(v)) + Last(v)
  }

  function Product(v: Vec): real {
    if v == [] then 1.0 else Times(Product(Init(v)), Last(v))
  }

  function Const(n: nat, c: real): (r: Vec)
    ensures |r| == n && forall i :: 0 <= i < n ==> r[i] == c
  {
    seq(n, i => c)
  }

  /** Zero everywhere except for value x at index k. */
  function OneHot(n: nat, k: nat, x: real): (r: Vec)
    ensures |r| == n && forall i :: 0 <= i < n ==> r[i] == if i == k then x else 0.0
  {
    seq(n, i => if i == k then x else 0.0)
  }

  function Add(u: Vec, v: Vec): (r: Vec)
    requires |u| == |v|
    ensures |r| == |u| && forall i :: 0 <= i < |u| ==> r[i] == u[i] + v[i]
  {
    seq(|u|, i requires 0 <= i < |u| => u[i] + v[i])
  }

  function Mul(u: Vec, v: Vec): (r: Vec)
    requires |u| == |v|
    ensures |r| == |u| && forall i :: 0 <= i < |u| ==> r[i] == Times(u[i], v[i])
  {
    seq(|u|, i requires 0 <= i < |u| => Times(u[i], v[i]))
  }

  function Scale(c: real, v: Vec): (r: Vec)
    ensures |r| == |v| && forall i :: 0 <= i < |v| ==> r[i] == Times(c, v[i])
  {
    seq(|v|, i requires 0 <= i < |v| => Times(c, v[i]))
  }

  function Div(v: Vec, c: real): (r: Vec)
    requires c != 0.0
    ensures |r| == |v| && forall i :: 0 <= i < |v| ==> r[i] == Over(v[i], c)
  {
    seq(|v|, i requires 0 <= i < |v| => Over(v[i], c))
  }

  function Col(m: Mat, j: nat): (r: Vec)
    requires forall i :: 0 <= i < |m| ==> j < |m[i]|
    ensures |r| == |m| && forall i :: 0 <= i < |m| ==> r[i] == m[i][j]
  {
    seq(|m|, i requires 0 <= i < |m| => m[i][j])
  }

  function Dot(u: Vec, v: Vec): real
    requires |u| == |v|
  {
    Sum(Mul(u, v))
  }

  function RowSums(m: Mat): (r: Vec)
    ensures |r| == |m| && forall i :: 0 <= i < |m| ==> r[i] == Sum(m[i])
  {
    seq(|m|, i requires 0 <= i < |m| => Sum(m[i]))
  }

  function ColSums(m: Mat, cols: nat): (r: Vec)
    requires IsMat(m, |m|, cols)
    ensures |r| == cols && forall j :: 0 <= j < cols ==> r[j] == Sum(Col(m, j))
  {
    seq(cols, j requires 0 <= j < cols => Sum(Col(m, j)))
  }

  /** v @ m for a square m. */
  function VecMat(v: Vec, m: Mat): (r: Vec)
    requires IsMat(m, |v|, |v|)
    ensures |r| == |v| && forall j :: 0 <= j < |v| ==> r[j] == Dot(v, Col(m, j))
  {
    seq(|v|, j requires 0 <= j < |v| => Dot(v, Col(m, j)))
  }

  /** m @ v for a square m. */
  function MatVec(m: Mat, v: Vec): (r: Vec)
    requires IsMat(m, |v|, |v|)
    ensures |r| == |v| && forall i :: 0 <= i < |v| ==> r[i] == Dot(m[i], v)
  {
    seq(|v|, i requires 0 <= i < |v| => Dot(m[i], v))
  }

  function AddMat(x: Mat, y: Mat): (r: Mat)
    requires |x| == |y| && forall i :: 0 <= i < |x| ==> |x[i]| == |y[i]|
    ensures |r| == |x| && forall i :: 0 <= i < |x| ==> r[i] == Add(x[i], y[i])
  {
    seq(|x|, i requires 0 <= i < |x| => Add(x[i], y[i]))
  }

  function DivMat(m: Mat, c: real): (r: Mat)
    requires c != 0.0
    ensures |r| == |m| && forall i :: 0 <= i < |m| ==> r[i] == Div(m[i], c)
  {
    seq(|m|, i requires 0 <= i < |m| => Div(m[i], c))
  }

  function ZeroMat(rows: nat, cols: nat): (r: Mat)
    ensures IsMat(r, rows, cols)
    ensures forall i :: 0 <= i < rows ==> r[i] == Const(cols, 0.0)
  {
    seq(rows, i => Const(cols, 0.0))
  }

  /** np.outer(u, w) * m, for a square m. */
  function OuterTimes(u: Vec, w: Vec, m: Mat): (r: Mat)
    requires |u| == |w| && IsMat(m, |u|, |u|)
    ensures IsMat(r, |u|, |u|)
    ensures forall i :: 0 <= i < |u| ==> r[i] == Mul(Scale(u[i], w), m[i])
  {
    seq(|u|, i requires 0 <= i < |u| => Mul(Scale(u[i], w), m[i]))
  }

  // ----- laws of sums and products ---------------------------------------------

  lemma {:induction false} SumAdd(u: Vec, v: Vec)
    requires |u| == |v|
    ensures Sum(Add(u, v)) == Sum(u) + Sum(v)
  {
    if u != [] {
      SumAdd(Init(u), Init(v));
      assert Init(Add(u, v)) == Add(Init(u), Init(v));
    }
  }

  lemma {:induction false} SumScale(c: real, v: Vec)
    ensures Sum(Scale(c, v)) == Times(c, Sum(v))
  {
    hide Times;
    if v != [] {
      SumScale(c, Init(v));
      assert Init(Scale(c, v)) == Scale(c, Init(v));
      TimesDist(c, Sum(Init(v)), Last(v));
    } else {
      TimesUnits(c);
    }
  }

  lemma DivIsScale(v: Vec, c: real)
    requires c != 0.0
    ensures Div(v, c) == Scale(Over(1.0, c), v)
  {
    hide Times, Over;
    forall i | 0 <= i < |v| ensures Div(v, c)[i] == Scale(Over(1.0, c), v)[i] {
      OverTimes(v[i], c);
    }
  }

  lemma SumDiv(v: Vec, c: real)
    requires c != 0.0
    ensures Sum(Div(v, c)) == Over(Sum(v), c)
  {
    hide Times, Over;
    DivIsScale(v, c);
    SumScale(Over(1.0, c), v);
    OverTimes(Sum(v), c);
  }

  lemma ScaleDiv(v: Vec, c: real)
    requires c != 0.0
    ensures Scale(c, Div(v, c)) == v
  {
    hide Times, Over;
    forall i | 0 <= i < |v| ensures Scale(c, Div(v, c))[i] == v[i] {
      OverTimes(v[i], c);
    }
  }

  lemma {:induction false} SumConst(n: nat, c: real)
    ensures Sum(Const(n, c)) == Times(n as real, c)
  {
    if n > 0 {
      SumConst(n - 1, c);
      assert Init(Const(n, c)) == Const(n - 1, c);
    }
  }

  lemma SumZero(n: nat)
    ensures Sum(Const(n, 0.0)) == 0.0
  {
    SumConst(n, 0.0);
  }

  lemma {:induction false} SumOneHot(n: nat, k: nat, x: real)
    ensures Sum(OneHot(n, k, x)) == if k < n then x else 0.0
  {
    if n > 0 {
      SumOneHot(n - 1, k, x);
      assert Init(OneHot(n, k, x)) == OneHot(n - 1, k, x);
    }
  }

  lemma {:induction false} SumNonNegative(v: Vec)
    requires NonNegative(v)
    ensures Sum(v) >= 0.0
    ensures forall i :: 0 <= i < |v| ==> v[i] <= Sum(v)
  {
    if v != [] {
      SumNonNegative(Init(v));
      forall i | 0 <= i < |v| ensures v[i] <= Sum(v) {
        assert i < |v| - 1 ==> Init(v)[i] == v[i];
      }
    }
  }

  /** A non-negative vector sums to zero exactly when every entry is zero. */
  lemma SumZeroIff(v: Vec)
    requires NonNegative(v)
    ensures Sum(v) == 0.0 <==> v == Const(|v|, 0.0)
  {
    SumNonNegative(v);
    SumZero(|v|);
  }

  lemma {:induction false} ProductPositive(v: Vec)
    requires Positive(v)
    ensures Product(v) > 0.0
  {
    hide Times;
    if v != [] {
      ProductPositive(Init(v));
      TimesSign(Product(Init(v)), Last(v));
    }
  }

  /** Summing a matrix by rows or by columns gives the same total. */
  lemma {:induction false} SumSwap(m: Mat, cols: nat)
    requires IsMat(m, |m|, cols)
    ensures Sum(RowSums(m)) == Sum(ColSums(m, cols))
  {
    if m == [] {
      assert ColSums(m, cols) == Const(cols, 0.0) by {
        forall j | 0 <= j < cols ensures ColSums(m, cols)[j] == 0.0 {
          assert Col(m, j) == [];
        }
      }
      SumZero(cols);
    } else {
      SumSwap(Init(m), cols);
      assert Init(RowSums(m)) == RowSums(Init(m));
      assert ColSums(m, cols) == Add(ColSums(Init(m), cols), Last(m)) by {
        forall j | 0 <= j < cols ensures ColSums(m, cols)[j] == ColSums(Init(m), cols)[j] + Last(m)[j] {
          assert Init(Col(m, j)) == Col(Init(m), j);
        }
      }
      SumAdd(ColSums(Init(m), cols), Last(m));
    }
  }

  lemma MulComm(u: Vec, v: Vec)
    requires |u| == |v|
    ensures Mul(u, v) == Mul(v, u)
  {
    hide Times;
    forall i | 0 <= i < |u| ensures Mul(u, v)[i] == Mul(v, u)[i] {
      TimesComm(u[i], v[i]);
    }
  }

  lemma MulAssoc(u: Vec, v: Vec, w: Vec)
    requires |u| == |v| == |w|
    ensures Mul(Mul(u, v), w) == Mul(u, Mul(v, w))
  {
    hide Times;
    forall i | 0 <= i < |u| ensures Mul(Mul(u, v), w)[i] == Mul(u, Mul(v, w))[i] {
      TimesAssoc(u[i], v[i], w[i]);
    }
  }

  lemma ScaleMul(c: real, u: Vec, v: Vec)
    requires |u| == |v|
    ensures Mul(Scale(c, u), v) == Scale(c, Mul(u, v))
  {
    hide Times;
    forall i | 0 <= i < |u| ensures Mul(Scale(c, u), v)[i] == Scale(c, Mul(u, v))[i] {
      TimesAssoc(c, u[i], v[i]);
    }
  }

  lemma DotComm(u: Vec, v: Vec)
    requires |u| == |v|
    ensures Dot(u, v) == Dot(v, u)
  {
    MulComm(u, v);
  }

  lemma DotScale(c: real, u: Vec, v: Vec)
    requires |u| == |v|
    ensures Dot(Scale(c, u), v) == Times(c, Dot(u, v))
  {
    hide Times;
    ScaleMul(c, u, v);
    SumScale(c, Mul(u, v));
  }

  lemma DotOneHot(n: nat, k: nat, x: real, v: Vec)
    requires k < n == |v|
    ensures Mul(OneHot(n, k, x), v) == OneHot(n, k, Times(x, v[k]))
    ensures Dot(OneHot(n, k, x), v) == Times(x, v[k])
  {
    hide Times;
    forall i | 0 <= i < n ensures Mul(OneHot(n, k, x), v)[i] == OneHot(n, k, Times(x, v[k]))[i] {
      TimesUnits(v[i]);
    }
    assert Mul(OneHot(n, k, x), v) == OneHot(n, k, Times(x, v[k]));
    SumOneHot(n, k, Times(x, v[k]));
  }

  lemma DotZero(v: Vec)
    ensures Mul(Const(|v|, 0.0), v) == Const(|v|, 0.0)
    ensures Dot(Const(|v|, 0.0), v) == 0.0
  {
    hide Times;
    forall i | 0 <= i < |v| ensures Mul(Const(|v|, 0.0), v)[i] == 0.0 {
      TimesUnits(v[i]);
    }
    assert Mul(Const(|v|, 0.0), v) == Const(|v|, 0.0);
    SumZero(|v|);
  }

  lemma DotOnes(v: Vec)
    ensures Mul(v, Const(|v|, 1.0)) == v
    ensures Dot(v, Const(|v|, 1.0)) == Sum(v)
  {
    hide Times;
    forall i | 0 <= i < |v| ensures Mul(v, Const(|v|, 1.0))[i] == v[i] {
      TimesUnits(v[i]);
    }
    assert Mul(v, Const(|v|, 1.0)) == v;
  }

  lemma DotAdd(u: Vec, v: Vec, w: Vec)
    requires |u| == |v| == |w|
    ensures Dot(Add(u, v), w) == Dot(u, w) + Dot(v, w)
  {
    hide Times;
    forall i | 0 <= i < |u| ensures Mul(Add(u, v), w)[i] == Add(Mul(u, w), Mul(v, w))[i] {
      TimesDist(w[i], u[i], v[i]);
    }
    assert Mul(Add(u, v), w) == Add(Mul(u, w), Mul(v, w));
    SumAdd(Mul(u, w), Mul(v, w));
  }

  lemma MulNonNegative(u: Vec, v: Vec)
    requires |u| == |v| && NonNegative(u) && NonNegative(v)
    ensures NonNegative(Mul(u, v)) && Dot(u, v) >= 0.0
  {
    hide Times;
    forall i | 0 <= i < |u| ensures Mul(u, v)[i] >= 0.0 {
      TimesSign(u[i], v[i]);
    }
    SumNonNegative(Mul(u, v));
  }

  lemma DivNonNegative(v: Vec, c: real)
    requires NonNegative(v) && c > 0.0
    ensures NonNegative(Div(v, c))
  {
    hide Over;
    forall i | 0 <= i < |v| ensures Div(v, c)[i] >= 0.0 {
      OverTimes(v[i], c);
    }
  }

  lemma OuterRowSums(u: Vec, w: Vec, m: Mat)
    requires |u| == |w| && IsMat(m, |u|, |u|)
    ensures RowSums(OuterTimes(u, w, m)) == Mul(u, MatVec(m, w))
  {
    hide Times;
    forall i | 0 <= i < |u|
      ensures RowSums(OuterTimes(u, w, m))[i] == Mul(u, MatVec(m, w))[i]
    {
      DotScale(u[i], w, m[i]);
      DotComm(w, m[i]);
    }
  }

  lemma OuterColSums(u: Vec, w: Vec, m: Mat)
    requires |u| == |w| && IsMat(m, |u|, |u|)
    ensures ColSums(OuterTimes(u, w, m), |u|) == Mul(VecMat(u, m), w)
  {
    hide Times;
    forall j | 0 <= j < |u|
      ensures ColSums(OuterTimes(u, w, m), |u|)[j] == Mul(VecMat(u, m), w)[j]
    {
      OuterCol(u, w, m, j);
      SumScale(w[j], Mul(u, Col(m, j)));
      TimesComm(w[j], Dot(u, Col(m, j)));
    }
  }

  lemma OuterCol(u: Vec, w: Vec, m: Mat, j: nat)
    requires |u| == |w| && IsMat(m, |u|, |u|) && j < |u|
    ensures Col(OuterTimes(u, w, m), j) == Scale(w[j], Mul(u, Col(m, j)))
  {
    hide Times;
    forall i | 0 <= i < |u|
      ensures Col(OuterTimes(u, w, m), j)[i] == Scale(w[j], Mul(u, Col(m, j)))[i]
    {
      TimesComm(u[i], w[j]);
      TimesAssoc(w[j], u[i], m[i][j]);
    }
  }

  /** Moving a matrix from one side of a dot product to the other. */
  lemma Adjoint(u: Vec, m: Mat, w: Vec)
    requires |u| == |w| && IsMat(m, |u|, |u|)
    ensures Dot(VecMat(u, m), w) == Dot(u, MatVec(m, w))
  {
    hide Times;
    OuterRowSums(u, w, m);
    OuterColSums(u, w, m);
    SumSwap(OuterTimes(u, w, m), |u|);
  }
}
