/** Softmax attention for one query row, and the running summary that online
    softmax keeps. Scores are extended reals: a masked position holds NegInf. */
module Softmax {
  import opened Vectors
  import opened Exponential

  datatype Score = NegInf | Fin(x: real)

  function MaxScore(a: Score, b: Score): Score {
    if a.NegInf? then b
    else if b.NegInf? then a
    else if a.x >= b.x then a else b
  }

  function Top(ss: seq<Score>): Score {
    if |ss| == 0 then NegInf else MaxScore(Top(ss[..|ss| - 1]), ss[|ss| - 1])
  }

  /** exp(a - b). Its precondition rules out -inf - (-inf), which is not a number. */
  function ExpDiff(E: real -> real, a: Score, b: Score): real
    requires b.Fin?
  {
    if a.NegInf? then 0.0 else E(a.x - b.x)
  }

  /** The sum of exp(ss[i] - m) * ys[i]. */
  function Mass(E: real -> real, ss: seq<Score>, m: Score, ys: Vec): real
    requires |ss| == |ys| && m.Fin?
  {
    if |ss| == 0 then 0.0
    else
      var n := |ss| - 1;
      Mass(E, ss[..n], m, ys[..n]) + ExpDiff(E, ss[n], m) * ys[n]
  }

  function Ones(n: nat): (v: Vec)
    ensures |v| == n
  {
    seq(n, _ => 1.0)
  }

  /** The textbook definition, with no maximum subtracted: one coordinate of the
      attention output for scores ss and values ys. */
  function Attend(E: real -> real, ss: seq<Score>, ys: Vec): real
    requires |ss| == |ys|
    requires Mass(E, ss, Fin(0.0), Ones(|ss|)) != 0.0
  {
    Mass(E, ss, Fin(0.0), ys) / Mass(E, ss, Fin(0.0), Ones(|ss|))
  }

  lemma {:induction false} MassConcat(E: real -> real, a: seq<Score>, b: seq<Score>, m: Score, ya: Vec, yb: Vec)
    requires |a| == |ya| && |b| == |yb| && m.Fin?
    ensures Mass(E, a + b, m, ya + yb) == Mass(E, a, m, ya) + Mass(E, b, m, yb)
  {
    hide ExpDiff;
    if |b| == 0 {
      assert a + b == a && ya + yb == ya;
    } else {
      var n := |b| - 1;
      MassConcat(E, a, b[..n], m, ya, yb[..n]);
      assert (a + b)[..|a + b| - 1] == a + b[..n];
      assert (ya + yb)[..|a + b| - 1] == ya + yb[..n];
      MassLast(E, a + b, m, ya + yb);
      MassLast(E, b, m, yb);
    }
  }

  lemma MassLast(E: real -> real, ss: seq<Score>, m: Score, ys: Vec)
    requires |ss| == |ys| > 0 && m.Fin?
    ensures var n := |ss| - 1;
      Mass(E, ss, m, ys) == Mass(E, ss[..n], m, ys[..n]) + ExpDiff(E, ss[n], m) * ys[n]
  {
  }

  /** Changing the reference point rescales the sum. */
  lemma {:induction false} MassShift(E: real -> real, ss: seq<Score>, m: Score, m': Score, ys: Vec)
    requires ExpLaw(E) && |ss| == |ys| && m.Fin? && m'.Fin?
    ensures Mass(E, ss, m', ys) == E(m.x - m'.x) * Mass(E, ss, m, ys)
  {
    hide ExpLaw, ExpDiff;
    if |ss| > 0 {
      var n := |ss| - 1;
      MassShift(E, ss[..n], m, m', ys[..n]);
      DiffShift(E, ss[n], m, m');
      ShiftArith(E(m.x - m'.x), Mass(E, ss[..n], m, ys[..n]), ExpDiff(E, ss[n], m), ExpDiff(E, ss[n], m'), ys[n]);
    }
  }

  lemma ShiftArith(e: real, rest: real, w: real, w': real, y: real)
    requires w' == e * w
    ensures e * rest + w' * y == e * (rest + w * y)
  {
  }

  lemma DiffShift(E: real -> real, s: Score, m: Score, m': Score)
    requires ExpLaw(E) && m.Fin? && m'.Fin?
    ensures ExpDiff(E, s, m') == E(m.x - m'.x) * ExpDiff(E, s, m)
  {
    if s.Fin? {
      var a, b, c := m.x - m'.x, s.x - m.x, s.x - m'.x;
      assert c == a + b;
      assert E(c) == E(a) * E(b) by { ExpSum(E, a, b); }
    }
  }

  lemma {:induction false} MassNonNegative(E: real -> real, ss: seq<Score>, m: Score)
    requires ExpLaw(E) && m.Fin?
    ensures Mass(E, ss, m, Ones(|ss|)) >= 0.0
    ensures (exists i :: 0 <= i < |ss| && ss[i].Fin?) ==> Mass(E, ss, m, Ones(|ss|)) > 0.0
    ensures m in ss ==> Mass(E, ss, m, Ones(|ss|)) >= 1.0
  {
    hide ExpLaw;
    if |ss| > 0 {
      var n := |ss| - 1;
      MassNonNegative(E, ss[..n], m);
      assert Ones(|ss|)[..n] == Ones(n);
      if ss[n].Fin? {
        ExpPositive(E, ss[n].x - m.x);
        if ss[n] == m {
          ExpZero(E);
          assert ss[n].x - m.x == 0.0;
        }
      }
      assert ss == ss[..n] + [ss[n]];
    }
  }

  /** Non-negative values, one of them positive and unmasked, have positive mass. */
  lemma {:induction false} MassPositiveAt(E: real -> real, ss: seq<Score>, m: Score, ys: Vec)
    requires ExpLaw(E) && |ss| == |ys| && m.Fin? && forall i :: 0 <= i < |ys| ==> ys[i] >= 0.0
    ensures Mass(E, ss, m, ys) >= 0.0
    ensures (exists i :: 0 <= i < |ss| && ss[i].Fin? && ys[i] > 0.0) ==> Mass(E, ss, m, ys) > 0.0
  {
    hide ExpLaw;
    if |ss| > 0 {
      var n := |ss| - 1;
      MassPositiveAt(E, ss[..n], m, ys[..n]);
      if ss[n].Fin? {
        ExpPositive(E, ss[n].x - m.x);
        MulNonNegative(ExpDiff(E, ss[n], m), ys[n]);
      }
    }
  }

  lemma {:induction false} MassOfZeros(E: real -> real, ss: seq<Score>, m: Score, ys: Vec)
    requires |ss| == |ys| && m.Fin? && forall i :: 0 <= i < |ys| ==> ys[i] == 0.0
    ensures Mass(E, ss, m, ys) == 0.0
  {
    hide ExpDiff;
    if |ss| > 0 {
      MassOfZeros(E, ss[..|ss| - 1], m, ys[..|ys| - 1]);
    }
  }

  lemma MulNonNegative(a: real, b: real)
    requires a > 0.0 && b >= 0.0
    ensures a * b >= 0.0 && (b > 0.0 ==> a * b > 0.0)
  {
  }

  ghost predicate HasFinite(ss: seq<Score>) {
    exists i :: 0 <= i < |ss| && ss[i].Fin?
  }

  /** The attention value may be computed relative to any reference point. */
  lemma AttendFrom(E: real -> real, ss: seq<Score>, m: Score, ys: Vec)
    requires ExpLaw(E) && |ss| == |ys| && m.Fin? && HasFinite(ss)
    ensures Mass(E, ss, Fin(0.0), Ones(|ss|)) != 0.0 && Mass(E, ss, m, Ones(|ss|)) > 0.0
    ensures Mass(E, ss, m, ys) / Mass(E, ss, m, Ones(|ss|)) == Attend(E, ss, ys)
  {
    hide ExpLaw, Mass;
    MassNonNegative(E, ss, m);
    MassNonNegative(E, ss, Fin(0.0));
    MassShift(E, ss, Fin(0.0), m, ys);
    MassShift(E, ss, Fin(0.0), m, Ones(|ss|));
    ExpPositive(E, 0.0 - m.x);
    QuotientScaled(E(0.0 - m.x), Mass(E, ss, Fin(0.0), ys), Mass(E, ss, Fin(0.0), Ones(|ss|)),
                   Mass(E, ss, m, ys), Mass(E, ss, m, Ones(|ss|)));
  }

  lemma QuotientScaled(e: real, a: real, b: real, ea: real, eb: real)
    requires e > 0.0 && b > 0.0 && ea == e * a && eb == e * b
    ensures eb > 0.0 && ea / eb == a / b
  {
    var q := a / b;
    assert q * b == a;
    assert q * eb == ea;
  }

  /** Masked positions contribute nothing. */
  lemma {:induction false} MassMasked(E: real -> real, ss: seq<Score>, m: Score, ys: Vec)
    requires |ss| == |ys| && m.Fin? && !HasFinite(ss)
    ensures Mass(E, ss, m, ys) == 0.0
  {
    if |ss| > 0 {
      MassMasked(E, ss[..|ss| - 1], m, ys[..|ss| - 1]);
    }
  }

  lemma AttendMasked(E: real -> real, a: seq<Score>, b: seq<Score>, ya: Vec, yb: Vec)
    requires ExpLaw(E) && |a| == |ya| && |b| == |yb| && HasFinite(a) && !HasFinite(b)
    ensures Mass(E, a, Fin(0.0), Ones(|a|)) != 0.0 && Mass(E, a + b, Fin(0.0), Ones(|a + b|)) != 0.0
    ensures Attend(E, a + b, ya + yb) == Attend(E, a, ya)
  {
    hide ExpLaw, Mass;
    AttendFrom(E, a, Fin(0.0), ya);
    assert Ones(|a + b|) == Ones(|a|) + Ones(|b|);
    MassConcat(E, a, b, Fin(0.0), ya, yb);
    MassConcat(E, a, b, Fin(0.0), Ones(|a|), Ones(|b|));
    MassMasked(E, b, Fin(0.0), yb);
    MassMasked(E, b, Fin(0.0), Ones(|b|));
  }

  lemma {:induction false} TopConcat(a: seq<Score>, b: seq<Score>)
    ensures Top(a + b) == MaxScore(Top(a), Top(b))
  {
    if |b| == 0 {
      assert a + b == a;
    } else {
      TopConcat(a, b[..|b| - 1]);
      assert (a + b)[..|a + b| - 1] == a + b[..|b| - 1];
    }
  }

  lemma {:induction false} TopFinite(ss: seq<Score>)
    ensures Top(ss).Fin? <==> HasFinite(ss)
    ensures Top(ss).Fin? ==> Top(ss) in ss
  {
    if |ss| > 0 {
      var n := |ss| - 1;
      TopFinite(ss[..n]);
      assert ss == ss[..n] + [ss[n]];
      if HasFinite(ss[..n]) {
        var i :| 0 <= i < n && ss[..n][i].Fin?;
        assert ss[i].Fin?;
      }
      if HasFinite(ss) && !ss[n].Fin? {
        var i :| 0 <= i < |ss| && ss[i].Fin?;
        assert ss[..n][i].Fin?;
      }
    }
  }

  // ---------------------------------------------------------------------
  // Online softmax: the running maximum, sum and output of one query row
  // ---------------------------------------------------------------------

  datatype Row = Row(m: Score, l: real, o: Vec)

  function EmptyRow(d: nat): Row {
    Row(NegInf, 0.0, Zeros(d))
  }

  function Exps(E: real -> real, ss: seq<Score>, m: Score): (w: Vec)
    requires m.Fin?
    ensures |w| == |ss|
  {
    seq(|ss|, i requires 0 <= i < |ss| => ExpDiff(E, ss[i], m))
  }

  /** Whether the new maximum is finite, so that no difference of infinities is
      taken by an update. */
  predicate UpdateDefined(row: Row, ss: seq<Score>) {
    MaxScore(row.m, Top(ss)).Fin?
  }

  function MulAdd(c: real, x: real, a: real): real {
    c * x + a
  }

  function UpdateRow(E: real -> real, row: Row, ss: seq<Score>, vs: seq<Vec>): (r: Row)
    requires UpdateDefined(row, ss) && Shape(vs, |ss|, |row.o|)
    ensures |r.o| == |row.o|
  {
    var m := MaxScore(row.m, Top(ss));
    var exps := Exps(E, ss, m);
    var correction := ExpDiff(E, row.m, m);
    Row(m, MulAdd(correction, row.l, Dot(exps, Ones(|ss|))),
        Add(Scale(correction, row.o), LinComb(exps, vs, |row.o|)))
  }

  /** The row has consumed exactly the scores ss with the values vs. */
  ghost predicate Summarises(E: real -> real, row: Row, ss: seq<Score>, vs: seq<Vec>) {
    && Shape(vs, |ss|, |row.o|)
    && row.m == Top(ss)
    && (row.m.NegInf? ==> row == EmptyRow(|row.o|))
    && (row.m.Fin? ==>
          && row.l == Mass(E, ss, row.m, Ones(|ss|))
          && forall c :: 0 <= c < |row.o| ==> row.o[c] == Mass(E, ss, row.m, Column(vs, c)))
  }

  lemma {:induction false} DotExps(E: real -> real, ss: seq<Score>, m: Score, ys: Vec)
    requires |ss| == |ys| && m.Fin?
    ensures Dot(Exps(E, ss, m), ys) == Mass(E, ss, m, ys)
  {
    hide ExpDiff;
    if |ss| > 0 {
      var n := |ss| - 1;
      DotExps(E, ss[..n], m, ys[..n]);
      assert Exps(E, ss, m)[..n] == Exps(E, ss[..n], m);
      DotLast(Exps(E, ss, m), ys);
      MassLast(E, ss, m, ys);
    }
  }

  /** One accumulator slot: whether it is the sum or an output coordinate, an
      update carries it from the old prefix to the longer one. */
  lemma SlotUpdate(E: real -> real, m0: Score, old0: real, a: seq<Score>, ya: Vec, b: seq<Score>, yb: Vec)
    requires ExpLaw(E) && |a| == |ya| && |b| == |yb| && m0 == Top(a)
    requires MaxScore(m0, Top(b)).Fin?
    requires if m0.Fin? then old0 == Mass(E, a, m0, ya) else old0 == 0.0
    ensures var m := MaxScore(m0, Top(b));
      MulAdd(ExpDiff(E, m0, m), old0, Dot(Exps(E, b, m), yb)) == Mass(E, a + b, m, ya + yb)
  {
    hide ExpLaw, Mass, Dot, Exps, ExpDiff, Top;
    var m := MaxScore(m0, Top(b));
    DotExps(E, b, m, yb);
    MassConcat(E, a, b, m, ya, yb);
    OldRescaled(E, m0, old0, a, ya, m);
  }

  /** The correction factor moves the old slot to the new reference point. */
  lemma OldRescaled(E: real -> real, m0: Score, old0: real, a: seq<Score>, ya: Vec, m: Score)
    requires ExpLaw(E) && |a| == |ya| && m0 == Top(a) && m.Fin?
    requires if m0.Fin? then old0 == Mass(E, a, m0, ya) else old0 == 0.0
    ensures ExpDiff(E, m0, m) * old0 == Mass(E, a, m, ya)
  {
    hide ExpLaw, Mass, Top;
    if m0.Fin? {
      MassShift(E, a, m0, m, ya);
    } else {
      TopFinite(a);
      MassMasked(E, a, m, ya);
    }
  }

  lemma UpdateSummarises(E: real -> real, row: Row, a: seq<Score>, va: seq<Vec>, b: seq<Score>, vb: seq<Vec>)
    requires ExpLaw(E) && Summarises(E, row, a, va)
    requires UpdateDefined(row, b) && Shape(vb, |b|, |row.o|)
    ensures Summarises(E, UpdateRow(E, row, b, vb), a + b, va + vb)
  {
    hide ExpLaw, Mass, Dot, Exps, LinComb, Scale, Top, MulAdd, ExpDiff;
    var r := UpdateRow(E, row, b, vb);
    TopConcat(a, b);
    assert Ones(|a + b|) == Ones(|a|) + Ones(|b|);
    SlotUpdate(E, row.m, row.l, a, Ones(|a|), b, Ones(|b|));
    forall c | 0 <= c < |row.o| ensures r.o[c] == Mass(E, a + b, r.m, Column(va + vb, c)) {
      OutputUpdate(E, row, a, va, b, vb, c);
    }
  }

  lemma OutputUpdate(E: real -> real, row: Row, a: seq<Score>, va: seq<Vec>, b: seq<Score>, vb: seq<Vec>, c: nat)
    requires ExpLaw(E) && Summarises(E, row, a, va) && c < |row.o|
    requires UpdateDefined(row, b) && Shape(vb, |b|, |row.o|)
    ensures UpdateRow(E, row, b, vb).o[c] == Mass(E, a + b, MaxScore(row.m, Top(b)), Column(va + vb, c))
  {
    hide ExpLaw, Mass, Dot, Exps, UpdateRow, Top, ExpDiff, MulAdd;
    assert Column(va + vb, c) == Column(va, c) + Column(vb, c);
    OutputSlot(E, row, b, vb, c);
    SlotUpdate(E, row.m, row.o[c], a, Column(va, c), b, Column(vb, c));
  }

  lemma OutputSlot(E: real -> real, row: Row, b: seq<Score>, vb: seq<Vec>, c: nat)
    requires UpdateDefined(row, b) && Shape(vb, |b|, |row.o|) && c < |row.o|
    ensures var m := MaxScore(row.m, Top(b));
      UpdateRow(E, row, b, vb).o[c] == MulAdd(ExpDiff(E, row.m, m), row.o[c], Dot(Exps(E, b, m), Column(vb, c)))
  {
    hide Dot, Exps, LinComb, Scale, Top, Column, ExpDiff;
    var m := MaxScore(row.m, Top(b));
    LinCombAt(Exps(E, b, m), vb, |row.o|, c);
    ScaleAt(ExpDiff(E, row.m, m), row.o, c);
  }

  /** Dividing the output by the sum gives softmax attention. */
  lemma SummaryIsAttention(E: real -> real, row: Row, ss: seq<Score>, vs: seq<Vec>, c: nat)
    requires ExpLaw(E) && Summarises(E, row, ss, vs) && HasFinite(ss) && c < |row.o|
    ensures row.l >= 1.0 && Mass(E, ss, Fin(0.0), Ones(|ss|)) != 0.0
    ensures row.o[c] / row.l == Attend(E, ss, Column(vs, c))
  {
    hide ExpLaw, Mass;
    TopFinite(ss);
    MassNonNegative(E, ss, row.m);
    AttendFrom(E, ss, row.m, Column(vs, c));
  }
}
