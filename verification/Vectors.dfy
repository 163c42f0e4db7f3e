/** Real vectors and the few linear-algebra facts the numeric kernels rely on.
    A matrix is a sequence of rows; Column reads it the other way. */
module Vectors {

  type Vec = seq<real>

  function Zeros(n: nat): (z: Vec)
    ensures |z| == n
  {
    seq(n, _ => 0.0)
  }

  function Unit(n: nat, i: nat): (e: Vec)
    ensures |e| == n
  {
    seq(n, j => if j == i then 1.0 else 0.0)
  }

  function Scale(a: real, x: Vec): (y: Vec)
    ensures |y| == |x|
  {
    seq(|x|, i requires 0 <= i < |x| => a * x[i])
  }

  function Add(x: Vec, y: Vec): (z: Vec)
    requires |x| == |y|
    ensures |z| == |x|
  {
    seq(|x|, i requires 0 <= i < |x| => x[i] + y[i])
  }

  function Dot(x: Vec, y: Vec): real
    requires |x| == |y|
  {
    if |x| == 0 then 0.0
    else Dot(x[..|x| - 1], y[..|y| - 1]) + x[|x| - 1] * y[|y| - 1]
  }

  ghost predicate Shape(m: seq<Vec>, rows: nat, cols: nat) {
    |m| == rows && forall i :: 0 <= i < rows ==> |m[i]| == cols
  }

  function Column(m: seq<Vec>, j: nat): (c: Vec)
    requires forall i :: 0 <= i < |m| ==> j < |m[i]|
    ensures |c| == |m|
  {
    seq(|m|, i requires 0 <= i < |m| => m[i][j])
  }

  /** The combination w[0] * m[0] + ... of the rows of m, all of length n:
      one row of the matrix product w @ m. */
  function LinComb(w: Vec, m: seq<Vec>, n: nat): (z: Vec)
    requires |w| == |m|
    requires Shape(m, |m|, n)
    ensures |z| == n
  {
    if |w| == 0 then Zeros(n)
    else Add(LinComb(w[..|w| - 1], m[..|m| - 1], n), Scale(w[|w| - 1], m[|m| - 1]))
  }

  lemma ScalePrefix(a: real, x: Vec, n: nat)
    requires n <= |x|
    ensures Scale(a, x)[..n] == Scale(a, x[..n])
  {
    forall i | 0 <= i < n ensures Scale(a, x)[..n][i] == Scale(a, x[..n])[i] {
      assert x[..n][i] == x[i];
    }
  }

  lemma ScaleAdd(a: real, x: Vec, y: Vec)
    requires |x| == |y|
    ensures Scale(a, Add(x, y)) == Add(Scale(a, x), Scale(a, y))
  {
    forall i | 0 <= i < |x| ensures Scale(a, Add(x, y))[i] == Add(Scale(a, x), Scale(a, y))[i] {
      assert a * (x[i] + y[i]) == a * x[i] + a * y[i];
    }
  }

  lemma ScaleScale(a: real, b: real, ab: real, x: Vec)
    requires ab == a * b
    ensures Scale(a, Scale(b, x)) == Scale(ab, x)
  {
    forall i | 0 <= i < |x| ensures Scale(a, Scale(b, x))[i] == Scale(ab, x)[i] {
      assert a * (b * x[i]) == (a * b) * x[i];
    }
  }

  lemma ScaleAt(a: real, x: Vec, i: nat)
    requires i < |x|
    ensures Scale(a, x)[i] == a * x[i]
  {
  }

  lemma AddAt(x: Vec, y: Vec, i: nat)
    requires |x| == |y| && i < |x|
    ensures Add(x, y)[i] == x[i] + y[i]
  {
  }

  lemma ScaleSwap(a: real, b: real, x: Vec)
    ensures Scale(a, Scale(b, x)) == Scale(b, Scale(a, x))
  {
    forall i | 0 <= i < |x| ensures Scale(a, Scale(b, x))[i] == Scale(b, Scale(a, x))[i] {
      assert a * (b * x[i]) == b * (a * x[i]);
    }
  }

  lemma {:induction false} DotEqual(x: Vec, y: Vec, z: Vec)
    requires |x| == |y| == |z|
    requires forall i :: 0 <= i < |x| ==> x[i] == 0.0 || y[i] == z[i]
    ensures Dot(x, y) == Dot(x, z)
  {
    if |x| > 0 {
      var n := |x| - 1;
      DotEqual(x[..n], y[..n], z[..n]);
    }
  }

  lemma {:induction false} DotAdd(x: Vec, y: Vec, z: Vec)
    requires |x| == |y| == |z|
    ensures Dot(x, Add(y, z)) == Dot(x, y) + Dot(x, z)
  {
    if |x| > 0 {
      var n := |x| - 1;
      DotAdd(x[..n], y[..n], z[..n]);
      assert Add(y, z)[..n] == Add(y[..n], z[..n]);
    }
  }

  lemma {:induction false} DotScale(x: Vec, a: real, y: Vec)
    requires |x| == |y|
    ensures Dot(x, Scale(a, y)) == a * Dot(x, y)
  {
    if |x| > 0 {
      var n := |x| - 1;
      DotScale(x[..n], a, y[..n]);
      ScalePrefix(a, y, n);
    }
  }

  lemma {:induction false} DotSymmetric(x: Vec, y: Vec)
    requires |x| == |y|
    ensures Dot(x, y) == Dot(y, x)
  {
    if |x| > 0 {
      DotSymmetric(x[..|x| - 1], y[..|x| - 1]);
    }
  }

  lemma DotScaleLeft(a: real, x: Vec, y: Vec)
    requires |x| == |y|
    ensures Dot(Scale(a, x), y) == a * Dot(x, y)
  {
    hide Dot, Scale;
    DotSymmetric(Scale(a, x), y);
    DotScale(y, a, x);
    DotSymmetric(x, y);
  }

  lemma {:induction false} DotZeros(x: Vec)
    ensures Dot(x, Zeros(|x|)) == 0.0
  {
    if |x| > 0 {
      var n := |x| - 1;
      DotZeros(x[..n]);
      assert Zeros(|x|)[..n] == Zeros(n);
    }
  }

  lemma {:induction false} DotUnit(x: Vec, i: nat)
    requires i < |x|
    ensures Dot(x, Unit(|x|, i)) == x[i]
  {
    var n := |x| - 1;
    if i == n {
      DotZeros(x[..n]);
      assert Unit(|x|, i)[..n] == Zeros(n);
    } else {
      DotUnit(x[..n], i);
      assert Unit(|x|, i)[..n] == Unit(n, i);
    }
  }

  /** Each entry of a row of w @ m is w times the matching column of m. */
  lemma {:induction false} LinCombAt(w: Vec, m: seq<Vec>, n: nat, j: nat)
    requires |w| == |m| && Shape(m, |m|, n) && j < n
    ensures LinComb(w, m, n)[j] == Dot(w, Column(m, j))
  {
    if |w| > 0 {
      var l := |w| - 1;
      LinCombAt(w[..l], m[..l], n, j);
      assert Column(m, j)[..l] == Column(m[..l], j);
    }
  }

  lemma ApplyAt(m: seq<Vec>, x: Vec, i: nat)
    requires Shape(m, |m|, |x|) && i < |m|
    ensures Apply(m, x)[i] == Dot(x, m[i])
  {
  }

  lemma ApplyPrefix(m: seq<Vec>, x: Vec, n: nat)
    requires n <= |m| && Shape(m, |m|, |x|)
    ensures Apply(m, x)[..n] == Apply(m[..n], x)
  {
  }

  /** (w @ m) . x == w . (m @ x). */
  lemma {:induction false} DotLinComb(x: Vec, w: Vec, m: seq<Vec>)
    requires |w| == |m| && Shape(m, |m|, |x|)
    ensures Dot(x, LinComb(w, m, |x|)) == Dot(w, Apply(m, x))
  {
    hide Dot, Scale, Add;
    if |w| == 0 {
      DotZeros(x);
      DotZeros([]);
      assert w == Zeros(0) == Apply(m, x);
    } else {
      var l := |w| - 1;
      var mx := Apply(m, x);
      DotAdd(x, LinComb(w[..l], m[..l], |x|), Scale(w[l], m[l]));
      DotScale(x, w[l], m[l]);
      DotLinComb(x, w[..l], m[..l]);
      ApplyPrefix(m, x, l);
      DotLast(w, mx);
    }
  }

  lemma DotLast(x: Vec, y: Vec)
    requires |x| == |y| > 0
    ensures Dot(x, y) == Dot(x[..|x| - 1], y[..|y| - 1]) + x[|x| - 1] * y[|y| - 1]
  {
  }

  /** The product of a matrix with a column vector. */
  function Apply(m: seq<Vec>, x: Vec): (y: Vec)
    requires Shape(m, |m|, |x|)
    ensures |y| == |m|
  {
    seq(|m|, i requires 0 <= i < |m| => Dot(x, m[i]))
  }

  /** Scaling every row of m scales the combination. */
  lemma {:induction false} LinCombScaled(w: Vec, a: real, m: seq<Vec>, am: seq<Vec>, n: nat)
    requires |w| == |m| == |am| && Shape(m, |m|, n) && Shape(am, |m|, n)
    requires forall i :: 0 <= i < |m| ==> am[i] == Scale(a, m[i])
    ensures LinComb(w, am, n) == Scale(a, LinComb(w, m, n))
  {
    if |w| == 0 {
      assert Scale(a, Zeros(n)) == Zeros(n);
    } else {
      var l := |w| - 1;
      LinCombScaled(w[..l], a, m[..l], am[..l], n);
      ScaleAdd(a, LinComb(w[..l], m[..l], n), Scale(w[l], m[l]));
      ScaleSwap(w[l], a, m[l]);
    }
  }

  /** Entries of x beyond r being zero, only the first r terms count. */
  lemma {:induction false} DotPrefix(x: Vec, y: Vec, r: nat)
    requires |x| == |y| && r <= |x|
    requires forall i :: r <= i < |x| ==> x[i] == 0.0
    ensures Dot(x, y) == Dot(x[..r], y[..r])
  {
    if r == |x| {
      assert x[..r] == x && y[..r] == y;
    } else {
      var n := |x| - 1;
      DotPrefix(x[..n], y[..n], r);
      assert x[..n][..r] == x[..r] && y[..n][..r] == y[..r];
    }
  }

  function Sub(x: Vec, y: Vec): (z: Vec)
    requires |x| == |y|
    ensures |z| == |x|
  {
    seq(|x|, i requires 0 <= i < |x| => x[i] - y[i])
  }

  lemma {:induction false} DotSub(x: Vec, y: Vec, z: Vec)
    requires |x| == |y| == |z|
    ensures Dot(x, Sub(y, z)) == Dot(x, y) - Dot(x, z)
  {
    if |x| > 0 {
      var n := |x| - 1;
      DotSub(x[..n], y[..n], z[..n]);
      assert Sub(y, z)[..n] == Sub(y[..n], z[..n]);
    }
  }
}
