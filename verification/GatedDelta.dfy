/** The gated delta rule: the token-by-token recurrence (verify_single_card.py)
    and the chunked algorithm that replaces it for prefill (verify_gdn_cpp.py).
    A state holds one key-sized vector per value channel. */
module GatedDelta {
  import opened Vectors
  import opened Exponential
  import opened Arithmetic

  datatype Token = Token(q: Vec, k: Vec, v: Vec, g: real, beta: real)
  datatype Step = Step(state: seq<Vec>, out: Vec)

  ghost predicate TokenShape(t: Token, dk: nat, dv: nat) {
    |t.q| == dk && |t.k| == dk && |t.v| == dv
  }

  ghost predicate Shaped(toks: seq<Token>, dk: nat, dv: nat) {
    forall i :: 0 <= i < |toks| ==> TokenShape(toks[i], dk, dv)
  }

  // ---------------------------------------------------------------------
  // The recurrence
  // ---------------------------------------------------------------------

  /** The correction token t makes on value channel c of state vector s:
      beta times what the decayed state gets wrong about v. */
  function Delta(E: real -> real, s: Vec, t: Token, c: nat): real
    requires |t.k| == |s| && c < |t.v|
  {
    (t.v[c] - Dot(t.k, Scale(E(t.g), s))) * t.beta
  }

  /** The state vector of channel c after token t. */
  function Write(E: real -> real, s: Vec, t: Token, c: nat): (r: Vec)
    requires |t.k| == |s| && c < |t.v|
    ensures |r| == |s|
  {
    Add(Scale(E(t.g), s), Scale(Delta(E, s, t, c), t.k))
  }

  /** One decode step, broadcast over the value channels. */
  function DecodeStep(E: real -> real, state: seq<Vec>, t: Token, dk: nat): (r: Step)
    requires TokenShape(t, dk, |state|) && Shape(state, |state|, dk)
    ensures Shape(r.state, |state|, dk) && |r.out| == |state|
  {
    var next := seq(|state|, c requires 0 <= c < |state| => Write(E, state[c], t, c));
    Step(next, seq(|state|, c requires 0 <= c < |state| => Dot(t.q, next[c])))
  }

  /** The first n terms of what the decayed state holds under key k. */
  function Recalled(e: real, k: Vec, s: Vec, n: nat): real
    requires n <= |k| == |s|
  {
    if n == 0 then 0.0 else Recalled(e, k, s, n - 1) + k[n - 1] * (e * s[n - 1])
  }

  lemma {:induction false} RecalledIsDot(e: real, k: Vec, s: Vec, n: nat)
    requires n <= |k| == |s|
    ensures Dot(k[..n], Scale(e, s)[..n]) == Recalled(e, k, s, n)
  {
    if n > 0 {
      RecalledIsDot(e, k, s, n - 1);
      var x, y := k[..n], Scale(e, s)[..n];
      assert x[..n - 1] == k[..n - 1] && y[..n - 1] == Scale(e, s)[..n - 1];
    }
  }

  /** One decode step in numbers: the state decays, and moves along the key by what
      it got wrong about the value; the output reads the new state with the query. */
  lemma DecodeMeaning(E: real -> real, state: seq<Vec>, t: Token, dk: nat, c: nat, i: nat)
    requires TokenShape(t, dk, |state|) && Shape(state, |state|, dk) && c < |state| && i < dk
    ensures var r := DecodeStep(E, state, t, dk);
      && r.state[c][i] == E(t.g) * state[c][i] + (t.v[c] - Recalled(E(t.g), t.k, state[c], dk)) * t.beta * t.k[i]
      && r.out[c] == Recalled(1.0, t.q, r.state[c], dk)
  {
    hide Dot, Recalled;
    var next := DecodeStep(E, state, t, dk).state[c];
    RecalledIsDot(E(t.g), t.k, state[c], dk);
    RecalledIsDot(1.0, t.q, next, dk);
    ScaleOne(next, 1.0);
    assert t.k[..dk] == t.k && t.q[..dk] == t.q;
    assert Scale(E(t.g), state[c])[..dk] == Scale(E(t.g), state[c]) && Scale(1.0, next)[..dk] == next;
  }

  /** The state after decoding every token of toks in turn. */
  function Recur(E: real -> real, state: seq<Vec>, toks: seq<Token>, dk: nat): (r: seq<Vec>)
    requires Shaped(toks, dk, |state|) && Shape(state, |state|, dk)
    ensures Shape(r, |state|, dk)
  {
    if |toks| == 0 then state
    else
      var n := |toks| - 1;
      DecodeStep(E, Recur(E, state, toks[..n], dk), toks[n], dk).state
  }

  /** The output the recurrence produces at token t. */
  function RecurOut(E: real -> real, state: seq<Vec>, toks: seq<Token>, dk: nat, t: nat): (r: Vec)
    requires Shaped(toks, dk, |state|) && Shape(state, |state|, dk) && t < |toks|
    ensures |r| == |state|
  {
    DecodeStep(E, Recur(E, state, toks[..t], dk), toks[t], dk).out
  }

  lemma {:induction false} RecurAppend(E: real -> real, state: seq<Vec>, a: seq<Token>, b: seq<Token>, dk: nat)
    requires Shape(state, |state|, dk) && Shaped(a, dk, |state|) && Shaped(b, dk, |state|)
    ensures Shaped(a + b, dk, |state|)
    ensures Recur(E, state, a + b, dk) == Recur(E, Recur(E, state, a, dk), b, dk)
  {
    if |b| == 0 {
      assert a + b == a;
    } else {
      var n := |b| - 1;
      RecurAppend(E, state, a, b[..n], dk);
      assert (a + b)[..|a + b| - 1] == a + b[..n];
    }
  }

  // ---------------------------------------------------------------------
  // One value channel of the recurrence, in closed form
  // ---------------------------------------------------------------------

  function Channel(E: real -> real, s: Vec, toks: seq<Token>, c: nat, dv: nat): (r: Vec)
    requires Shaped(toks, |s|, dv) && c < dv
    ensures |r| == |s|
  {
    if |toks| == 0 then s
    else
      var n := |toks| - 1;
      Write(E, Channel(E, s, toks[..n], c, dv), toks[n], c)
  }

  function Deltas(E: real -> real, s: Vec, toks: seq<Token>, c: nat, dv: nat): (r: Vec)
    requires Shaped(toks, |s|, dv) && c < dv
    ensures |r| == |toks|
  {
    if |toks| == 0 then []
    else
      var n := |toks| - 1;
      Deltas(E, s, toks[..n], c, dv) + [Delta(E, Channel(E, s, toks[..n], c, dv), toks[n], c)]
  }

  lemma {:induction false} DeltasPrefix(E: real -> real, s: Vec, toks: seq<Token>, c: nat, dv: nat, r: nat)
    requires Shaped(toks, |s|, dv) && c < dv && r <= |toks|
    ensures Deltas(E, s, toks, c, dv)[..r] == Deltas(E, s, toks[..r], c, dv)
  {
    hide Delta, Write;
    if r == |toks| {
      assert toks[..r] == toks;
    } else {
      var n := |toks| - 1;
      DeltasPrefix(E, s, toks[..n], c, dv, r);
      assert toks[..n][..r] == toks[..r];
    }
  }

  lemma DeltasAt(E: real -> real, s: Vec, toks: seq<Token>, c: nat, dv: nat, r: nat)
    requires Shaped(toks, |s|, dv) && c < dv && r < |toks|
    ensures Deltas(E, s, toks, c, dv)[r] == Delta(E, Channel(E, s, toks[..r], c, dv), toks[r], c)
  {
    DeltasPrefix(E, s, toks, c, dv, r + 1);
    assert toks[..r + 1][..r] == toks[..r];
    assert Deltas(E, s, toks, c, dv)[r] == Deltas(E, s, toks, c, dv)[..r + 1][r];
  }

  /** The recurrence treats value channels independently. */
  lemma {:induction false} RecurChannel(E: real -> real, state: seq<Vec>, toks: seq<Token>, dk: nat, c: nat)
    requires Shaped(toks, dk, |state|) && Shape(state, |state|, dk) && c < |state|
    ensures Recur(E, state, toks, dk)[c] == Channel(E, state[c], toks, c, |state|)
  {
    hide Write;
    if |toks| > 0 {
      var n := |toks| - 1;
      RecurChannel(E, state, toks[..n], dk, c);
    }
  }

  /** The log decay accumulated over toks: an entry of the cumulative sum. */
  function Total(toks: seq<Token>): real {
    if |toks| == 0 then 0.0 else Total(toks[..|toks| - 1]) + toks[|toks| - 1].g
  }

  /** The keys of toks, each decayed from its own position to position at. */
  function Keys(E: real -> real, toks: seq<Token>, at: real, dk: nat): (m: seq<Vec>)
    requires forall i :: 0 <= i < |toks| ==> |toks[i].k| == dk
    ensures Shape(m, |toks|, dk)
  {
    seq(|toks|, s requires 0 <= s < |toks| => Scale(E(at - Total(toks[..s + 1])), toks[s].k))
  }

  /** What toks leave behind at log decay `at`: the decayed initial state plus
      every correction along its decayed key. */
  function Memory(E: real -> real, s: Vec, toks: seq<Token>, c: nat, dv: nat, at: real): (r: Vec)
    requires Shaped(toks, |s|, dv) && c < dv
    ensures |r| == |s|
  {
    Add(Scale(E(at), s), LinComb(Deltas(E, s, toks, c, dv), Keys(E, toks, at, |s|), |s|))
  }

  lemma KeyAt(E: real -> real, toks: seq<Token>, at: real, dk: nat, s: nat)
    requires s < |toks|
    requires forall i :: 0 <= i < |toks| ==> |toks[i].k| == dk
    ensures Keys(E, toks, at, dk)[s] == Scale(E(at - Total(toks[..s + 1])), toks[s].k)
  {
    hide Total, Scale;
  }

  lemma KeysScaled(E: real -> real, toks: seq<Token>, at: real, g: real, dk: nat, s: nat)
    requires ExpLaw(E) && s < |toks|
    requires forall i :: 0 <= i < |toks| ==> |toks[i].k| == dk
    ensures Keys(E, toks, at + g, dk)[s] == Scale(E(g), Keys(E, toks, at, dk)[s])
  {
    hide Total, Scale, Keys;
    KeyAt(E, toks, at, dk, s);
    KeyAt(E, toks, at + g, dk, s);
    var d := at - Total(toks[..s + 1]);
    var d' := (at + g) - Total(toks[..s + 1]);
    assert d' == g + d;
    assert E(d') == E(g) * E(d) by { ExpSum(E, g, d); }
    ScaleScale(E(g), E(d), E(d'), toks[s].k);
  }

  /** Letting what toks left behind decay by a further g. */
  lemma MemoryDecays(E: real -> real, s: Vec, toks: seq<Token>, c: nat, dv: nat, at: real, g: real)
    requires ExpLaw(E) && Shaped(toks, |s|, dv) && c < dv
    ensures Scale(E(g), Memory(E, s, toks, c, dv, at)) == Memory(E, s, toks, c, dv, at + g)
  {
    hide LinComb, Scale, Add, Keys, Deltas;
    var w, m, m' := Deltas(E, s, toks, c, dv), Keys(E, toks, at, |s|), Keys(E, toks, at + g, |s|);
    forall i | 0 <= i < |toks| ensures m'[i] == Scale(E(g), m[i]) {
      KeysScaled(E, toks, at, g, |s|, i);
    }
    LinCombScaled(w, E(g), m, m', |s|);
    ScaleAdd(E(g), Scale(E(at), s), LinComb(w, m, |s|));
    assert g + at == at + g;
    assert E(at + g) == E(g) * E(at) by { ExpSum(E, g, at); }
    ScaleScale(E(g), E(at), E(at + g), s);
  }

  lemma WrittenAppend(E: real -> real, s: Vec, toks: seq<Token>, c: nat, dv: nat, at: real)
    requires |toks| > 0 && Shaped(toks, |s|, dv) && c < dv
    ensures var n := |toks| - 1;
      LinComb(Deltas(E, s, toks, c, dv), Keys(E, toks, at, |s|), |s|)
      == Add(LinComb(Deltas(E, s, toks[..n], c, dv), Keys(E, toks[..n], at, |s|), |s|),
             Scale(Deltas(E, s, toks, c, dv)[n], Scale(E(at - Total(toks)), toks[n].k)))
  {
    hide Delta, Deltas, Scale, Add, Total, Keys;
    var n := |toks| - 1;
    DeltasPrefix(E, s, toks, c, dv, n);
    KeysPrefix(E, toks, at, |s|, n);
    KeysLast(E, toks, at, |s|);
  }

  lemma MemoryAppend(E: real -> real, s: Vec, toks: seq<Token>, c: nat, dv: nat, at: real)
    requires |toks| > 0 && Shaped(toks, |s|, dv) && c < dv
    ensures var n := |toks| - 1;
      Memory(E, s, toks, c, dv, at)
      == Add(Memory(E, s, toks[..n], c, dv, at),
             Scale(Deltas(E, s, toks, c, dv)[n], Scale(E(at - Total(toks)), toks[n].k)))
  {
    hide Delta, Deltas, Channel, LinComb, Scale, Add, Total, Keys;
    var n := |toks| - 1;
    WrittenAppend(E, s, toks, c, dv, at);
    AddAssoc(Scale(E(at), s), LinComb(Deltas(E, s, toks[..n], c, dv), Keys(E, toks[..n], at, |s|), |s|),
             Scale(Deltas(E, s, toks, c, dv)[n], Scale(E(at - Total(toks)), toks[n].k)));
  }

  lemma KeysPrefix(E: real -> real, toks: seq<Token>, at: real, dk: nat, n: nat)
    requires n <= |toks|
    requires forall i :: 0 <= i < |toks| ==> |toks[i].k| == dk
    ensures Keys(E, toks, at, dk)[..n] == Keys(E, toks[..n], at, dk)
  {
    hide Total, Scale, Keys;
    forall i | 0 <= i < n ensures Keys(E, toks, at, dk)[..n][i] == Keys(E, toks[..n], at, dk)[i] {
      assert toks[..n][..i + 1] == toks[..i + 1];
      KeyAt(E, toks, at, dk, i);
      KeyAt(E, toks[..n], at, dk, i);
    }
  }

  lemma KeysLast(E: real -> real, toks: seq<Token>, at: real, dk: nat)
    requires |toks| > 0
    requires forall i :: 0 <= i < |toks| ==> |toks[i].k| == dk
    ensures Keys(E, toks, at, dk)[|toks| - 1] == Scale(E(at - Total(toks)), toks[|toks| - 1].k)
  {
    hide Total, Scale, Keys;
    assert toks[..|toks|] == toks;
    KeyAt(E, toks, at, dk, |toks| - 1);
  }

  lemma AddAssoc(x: Vec, y: Vec, z: Vec)
    requires |x| == |y| == |z|
    ensures Add(x, Add(y, z)) == Add(Add(x, y), z)
  {
  }

  /** The recurrence's state in closed form. */
  lemma {:induction false} ChannelForm(E: real -> real, s: Vec, toks: seq<Token>, c: nat, dv: nat)
    requires ExpLaw(E) && Shaped(toks, |s|, dv) && c < dv
    ensures Channel(E, s, toks, c, dv) == Memory(E, s, toks, c, dv, Total(toks))
  {
    hide Delta, Memory, Scale, Add;
    if |toks| == 0 {
      EmptyMemory(E, s, toks, c, dv);
    } else {
      var n := |toks| - 1;
      var total := Total(toks);
      ChannelForm(E, s, toks[..n], c, dv);
      MemoryDecays(E, s, toks[..n], c, dv, Total(toks[..n]), toks[n].g);
      MemoryAppend(E, s, toks, c, dv, total);
      DeltasAt(E, s, toks, c, dv, n);
      ExpZero(E);
      assert total - total == 0.0;
      ScaleOne(toks[n].k, E(total - total));
    }
  }

  lemma ScaleOne(x: Vec, one: real)
    requires one == 1.0
    ensures Scale(one, x) == x
  {
  }

  lemma EmptyMemory(E: real -> real, s: Vec, toks: seq<Token>, c: nat, dv: nat)
    requires ExpLaw(E) && |toks| == 0 && c < dv
    ensures Memory(E, s, toks, c, dv, Total(toks)) == s
  {
    ExpZero(E);
    ScaleOne(s, E(Total(toks)));
  }

  /** What x reads from the state vector s decayed by the factor e. */
  function Recall(e: real, x: Vec, s: Vec): real
    requires |x| == |s|
  {
    e * Dot(x, s)
  }

  /** Reading the memory with a key or a query. */
  lemma DotMemory(E: real -> real, s: Vec, toks: seq<Token>, c: nat, dv: nat, at: real, x: Vec)
    requires Shaped(toks, |s|, dv) && c < dv && |x| == |s|
    ensures Dot(x, Memory(E, s, toks, c, dv, at))
            == Recall(E(at), x, s) + Dot(Deltas(E, s, toks, c, dv), Apply(Keys(E, toks, at, |s|), x))
  {
    hide Deltas, Keys, LinComb, Scale, Dot;
    var w, m := Deltas(E, s, toks, c, dv), Keys(E, toks, at, |s|);
    DotAdd(x, Scale(E(at), s), LinComb(w, m, |s|));
    DotScale(x, E(at), s);
    DotLinComb(x, w, m);
  }

  // ---------------------------------------------------------------------
  // Triangular systems
  // ---------------------------------------------------------------------

  ghost predicate StrictlyLower(A: seq<Vec>) {
    && Shape(A, |A|, |A|)
    && forall r, s :: 0 <= r <= s < |A| ==> A[r][s] == 0.0
  }

  /** (I - A) @ T == I, row by row. */
  ghost predicate InverseOf(A: seq<Vec>, T: seq<Vec>)
    requires Shape(A, |A|, |A|)
  {
    && Shape(T, |A|, |A|)
    && forall r :: 0 <= r < |A| ==> LinComb(Sub(Unit(|A|, r), A[r]), T, |A|) == Unit(|A|, r)
  }

  /** x solves x == u + A x. */
  ghost predicate Solves(A: seq<Vec>, u: Vec, x: Vec)
    requires Shape(A, |A|, |A|)
  {
    && |u| == |A| && |x| == |A|
    && forall r :: 0 <= r < |A| ==> x[r] == u[r] + Dot(A[r], x)
  }

  lemma {:induction false} SolutionUnique(A: seq<Vec>, u: Vec, x: Vec, y: Vec, n: nat)
    requires StrictlyLower(A) && Solves(A, u, x) && Solves(A, u, y) && n <= |A|
    ensures x[..n] == y[..n]
  {
    hide Dot;
    if n > 0 {
      SolutionUnique(A, u, x, y, n - 1);
      forall i | 0 <= i < |A| ensures A[n - 1][i] == 0.0 || x[i] == y[i] {
        if i < n - 1 {
          assert x[..n - 1][i] == y[..n - 1][i];
        }
      }
      DotEqual(A[n - 1], x, y);
    }
  }

  /** A row of (I - A) @ T, entry by entry. */
  lemma ResidualAt(A: seq<Vec>, T: seq<Vec>, r: nat, j: nat)
    requires Shape(A, |A|, |A|) && Shape(T, |A|, |A|) && r < |A| && j < |A|
    ensures LinComb(Sub(Unit(|A|, r), A[r]), T, |A|)[j] == T[r][j] - Dot(A[r], Column(T, j))
  {
    hide Dot, LinComb;
    var n := |A|;
    LinCombAt(Sub(Unit(n, r), A[r]), T, n, j);
    DotSub(Column(T, j), Unit(n, r), A[r]);
    DotUnit(Column(T, j), r);
    DotSymmetric(Column(T, j), A[r]);
    DotSymmetric(Column(T, j), Sub(Unit(n, r), A[r]));
  }

  /** Applying the inverse to u solves the system. */
  lemma InverseSolves(A: seq<Vec>, T: seq<Vec>, u: Vec)
    requires Shape(A, |A|, |A|) && InverseOf(A, T) && |u| == |A|
    ensures Solves(A, u, Apply(T, u))
  {
    hide Dot, LinComb;
    var n := |A|;
    forall r | 0 <= r < n ensures Apply(T, u)[r] == u[r] + Dot(A[r], Apply(T, u)) {
      InverseRow(A, T, r);
      DotAdd(u, Unit(n, r), LinComb(A[r], T, n));
      DotUnit(u, r);
      DotLinComb(u, A[r], T);
    }
  }

  lemma InverseRow(A: seq<Vec>, T: seq<Vec>, r: nat)
    requires Shape(A, |A|, |A|) && InverseOf(A, T) && r < |A|
    ensures T[r] == Add(Unit(|A|, r), LinComb(A[r], T, |A|))
  {
    hide Dot, LinComb;
    forall j | 0 <= j < |A| ensures T[r][j] == Add(Unit(|A|, r), LinComb(A[r], T, |A|))[j] {
      ResidualAt(A, T, r, j);
      LinCombAt(A[r], T, |A|, j);
    }
  }

  function Rows(a: array2<real>): (m: seq<Vec>)
    reads a
    ensures |m| == a.Length0 && forall i :: 0 <= i < |m| ==> |m[i]| == a.Length1
    ensures forall i, j :: 0 <= i < a.Length0 && 0 <= j < a.Length1 ==> m[i][j] == a[i, j]
  {
    seq(a.Length0, i requires 0 <= i < a.Length0 reads a =>
      seq(a.Length1, j requires 0 <= j < a.Length1 reads a => a[i, j]))
  }

  /** Row r of the matrix has been finished: it holds the original row plus the
      original row applied to the finished rows above it. */
  ghost predicate RowSolved(A: seq<Vec>, m: seq<Vec>, r: nat)
    requires Shape(A, |A|, |A|) && Shape(m, |A|, |A|) && r < |A|
  {
    forall j :: 0 <= j < |A| ==> m[r][j] == A[r][j] + Dot(A[r][..r], Column(m[..r], j))
  }

  function PlusIdentity(m: seq<Vec>): (t: seq<Vec>)
    requires Shape(m, |m|, |m|)
    ensures Shape(t, |m|, |m|)
  {
    seq(|m|, r requires 0 <= r < |m| => Add(m[r], Unit(|m|, r)))
  }

  lemma SolvedIsInverse(A: seq<Vec>, m: seq<Vec>)
    requires StrictlyLower(A) && Shape(m, |A|, |A|)
    requires forall r :: 0 <= r < |A| ==> RowSolved(A, m, r)
    ensures InverseOf(A, PlusIdentity(m))
  {
    hide Dot, LinComb;
    var n, T := |A|, PlusIdentity(m);
    forall r | 0 <= r < n ensures LinComb(Sub(Unit(n, r), A[r]), T, n) == Unit(n, r) {
      forall j | 0 <= j < n ensures LinComb(Sub(Unit(n, r), A[r]), T, n)[j] == Unit(n, r)[j] {
        ResidualAt(A, T, r, j);
        assert Column(T, j) == Add(Column(m, j), Unit(n, j));
        DotAdd(A[r], Column(m, j), Unit(n, j));
        DotUnit(A[r], j);
        DotPrefix(A[r], Column(m, j), r);
        assert Column(m, j)[..r] == Column(m[..r], j);
        assert RowSolved(A, m, r);
      }
    }
  }

  lemma FirstRowSolved(A: seq<Vec>)
    requires StrictlyLower(A) && |A| > 0
    ensures RowSolved(A, A, 0)
  {
  }

  /** Replacing row i by rowFinal solves it and keeps the rows above solved. */
  lemma RowStep(A: seq<Vec>, before: seq<Vec>, after: seq<Vec>, i: nat)
    requires StrictlyLower(A) && Shape(before, |A|, |A|) && Shape(after, |A|, |A|) && i < |A|
    requires before[i] == A[i]
    requires forall r, j :: 0 <= r < i && 0 <= j < |A| ==> after[r][j] == before[r][j]
    requires forall r, j :: 0 <= r <= j < |A| ==> before[r][j] == 0.0
    requires forall j :: 0 <= j < i ==> after[i][j] == A[i][j] + Dot(A[i][..i], Column(before[..i], j))
    requires forall j :: i <= j < |A| ==> after[i][j] == A[i][j]
    requires forall r :: 0 <= r < i ==> RowSolved(A, before, r)
    ensures forall r :: 0 <= r <= i ==> RowSolved(A, after, r)
  {
    hide Dot;
    assert after[..i] == before[..i] by {
      forall r | 0 <= r < i ensures after[r] == before[r] {
      }
    }
    forall r | 0 <= r < i ensures RowSolved(A, after, r) {
      assert RowSolved(A, before, r);
      assert after[r] == after[..i][r] == before[..i][r];
      assert after[..r] == after[..i][..r] == before[..r];
    }
    forall j | i <= j < |A| ensures Dot(A[i][..i], Column(after[..i], j)) == 0.0 {
      forall m | 0 <= m < i ensures Column(after[..i], j)[m] == 0.0 {
        assert after[..i][m] == before[..i][m] == before[m];
      }
      assert Column(after[..i], j) == Zeros(i);
      DotZeros(A[i][..i]);
    }
  }

  /** One turn of the row loop: row i picks up what the rows above contribute. */
  method SubstituteRow(attn: array2<real>, i: nat)
    requires attn.Length0 == attn.Length1 && i < attn.Length0
    modifies attn
    ensures forall r, j :: 0 <= r < attn.Length0 && 0 <= j < attn.Length1 && (r != i || i <= j) ==>
      attn[r, j] == old(attn[r, j])
    ensures forall j :: 0 <= j < i ==>
      attn[i, j] == old(attn[i, j] + Dot(Rows(attn)[i][..i], Column(Rows(attn)[..i], j)))
  {
    hide Dot, Column;
    var row := Rows(attn)[i][..i];
    var sub := Rows(attn)[..i];
    var rowFinal := seq(i, j requires 0 <= j < i => row[j] + Dot(row, Column(sub, j)));
    forall j | 0 <= j < i {
      attn[i, j] := rowFinal[j];
    }
  }

  /** The row loop: attn holds a strictly lower triangular A on entry; adding
      the identity to what it holds on exit gives the inverse of I - A. */
  method ForwardSubstitution(attn: array2<real>)
    requires attn.Length0 == attn.Length1
    requires StrictlyLower(Rows(attn))
    modifies attn
    ensures InverseOf(old(Rows(attn)), PlusIdentity(Rows(attn)))
  {
    hide Dot, Column, RowSolved, InverseOf, PlusIdentity;
    ghost var A := Rows(attn);
    var n := attn.Length0;
    if n == 0 {
      SolvedIsInverse(A, A);
      return;
    }
    assert RowSolved(A, Rows(attn), 0) by { FirstRowSolved(A); }
    for i := 1 to n
      invariant forall r, j :: i <= r < n && 0 <= j < n ==> attn[r, j] == A[r][j]
      invariant forall r :: 0 <= r < i ==> RowSolved(A, Rows(attn), r)
      invariant forall r, j :: 0 <= r <= j < n ==> attn[r, j] == 0.0
    {
      ghost var before := Rows(attn);
      SubstituteRow(attn, i);
      RowStep(A, before, Rows(attn), i);
    }
    SolvedIsInverse(A, Rows(attn));
  }

  // ---------------------------------------------------------------------
  // One chunk
  // ---------------------------------------------------------------------

  /** The cumulative sum of the log decays inside the chunk. */
  function CumDecay(toks: seq<Token>): (g: Vec)
    ensures |g| == |toks|
  {
    seq(|toks|, r requires 0 <= r < |toks| => Total(toks[..r + 1]))
  }

  /** The chunk's matrix before the row loop: minus the decayed key products,
      zero on and above the diagonal. */
  function ChunkSystem(E: real -> real, toks: seq<Token>, g: Vec, dk: nat, r: nat): (a: Vec)
    requires |g| == |toks| && r < |toks|
    requires forall i :: 0 <= i < |toks| ==> |toks[i].k| == dk
    ensures |a| == |toks|
  {
    seq(|toks|, s requires 0 <= s < |toks| =>
      if s < r then -(Dot(Scale(toks[r].beta, toks[r].k), toks[s].k) * E(g[r] - g[s])) else 0.0)
  }

  /** Row r of the decayed query-key products, causally masked. */
  function QueryRow(E: real -> real, toks: seq<Token>, g: Vec, dk: nat, r: nat): (a: Vec)
    requires |g| == |toks| && r < |toks|
    requires forall i :: 0 <= i < |toks| ==> |toks[i].k| == dk && |toks[i].q| == dk
    ensures |a| == |toks|
  {
    seq(|toks|, s requires 0 <= s < |toks| =>
      if s <= r then Dot(toks[r].q, toks[s].k) * E(g[r] - g[s]) else 0.0)
  }

  function ValueBeta(toks: seq<Token>, dk: nat, dv: nat): (m: seq<Vec>)
    requires Shaped(toks, dk, dv)
    ensures Shape(m, |toks|, dv)
  {
    seq(|toks|, s requires 0 <= s < |toks| => Scale(toks[s].beta, toks[s].v))
  }

  function KeyBetaDecay(E: real -> real, toks: seq<Token>, g: Vec, dk: nat, dv: nat): (m: seq<Vec>)
    requires Shaped(toks, dk, dv) && |g| == |toks|
    ensures Shape(m, |toks|, dk)
  {
    seq(|toks|, s requires 0 <= s < |toks| => Scale(E(g[s]), Scale(toks[s].beta, toks[s].k)))
  }

  /** The right-hand side of the chunk's triangular system on channel c. */
  function Target(E: real -> real, s: Vec, toks: seq<Token>, g: Vec, c: nat, dv: nat): (u: Vec)
    requires Shaped(toks, |s|, dv) && c < dv && |g| == |toks|
    ensures |u| == |toks|
  {
    Sub(Column(ValueBeta(toks, |s|, dv), c), Apply(KeyBetaDecay(E, toks, g, |s|, dv), s))
  }

  ghost function System(E: real -> real, toks: seq<Token>, dk: nat): (A: seq<Vec>)
    requires forall i :: 0 <= i < |toks| ==> |toks[i].k| == dk
    ensures StrictlyLower(A) && |A| == |toks|
  {
    seq(|toks|, r requires 0 <= r < |toks| => ChunkSystem(E, toks, CumDecay(toks), dk, r))
  }

  /** What token r reads back with x from the tokens before `upto`. */
  lemma ReadBack(E: real -> real, toks: seq<Token>, at: real, x: Vec, s: nat)
    requires s < |toks|
    requires forall i :: 0 <= i < |toks| ==> |toks[i].k| == |x|
    ensures Apply(Keys(E, toks, at, |x|), x)[s] == E(at - Total(toks[..s + 1])) * Dot(x, toks[s].k)
  {
    hide Dot, Scale, Keys, Total, Apply;
    ApplyAt(Keys(E, toks, at, |x|), x, s);
    KeyAt(E, toks, at, |x|, s);
    DotScale(x, E(at - Total(toks[..s + 1])), toks[s].k);
  }

  /** The recurrence's corrections solve the chunk's triangular system. */
  lemma DeltasSolve(E: real -> real, s: Vec, toks: seq<Token>, c: nat, dv: nat)
    requires ExpLaw(E) && Shaped(toks, |s|, dv) && c < dv
    ensures Solves(System(E, toks, |s|), Target(E, s, toks, CumDecay(toks), c, dv), Deltas(E, s, toks, c, dv))
  {
    hide Deltas, Target, System, Dot, CumDecay;
    forall r | 0 <= r < |toks|
      ensures Deltas(E, s, toks, c, dv)[r]
              == Target(E, s, toks, CumDecay(toks), c, dv)[r] + Dot(System(E, toks, |s|)[r], Deltas(E, s, toks, c, dv))
    {
      DeltaRow(E, s, toks, c, dv, r);
    }
  }

  /** The state token r decays, in closed form at r's own log decay. */
  lemma DecayedState(E: real -> real, s: Vec, toks: seq<Token>, c: nat, dv: nat, r: nat)
    requires ExpLaw(E) && Shaped(toks, |s|, dv) && c < dv && r < |toks|
    ensures Scale(E(toks[r].g), Channel(E, s, toks[..r], c, dv))
            == Memory(E, s, toks[..r], c, dv, Total(toks[..r + 1]))
  {
    hide Scale, Channel, Memory;
    ChannelForm(E, s, toks[..r], c, dv);
    MemoryDecays(E, s, toks[..r], c, dv, Total(toks[..r]), toks[r].g);
    assert toks[..r + 1][..r] == toks[..r];
  }

  lemma SystemRow(E: real -> real, s: Vec, toks: seq<Token>, r: nat)
    requires forall i :: 0 <= i < |toks| ==> |toks[i].k| == |s|
    requires r < |toks|
    ensures System(E, toks, |s|)[r][..r]
            == Scale(-toks[r].beta, Apply(Keys(E, toks[..r], Total(toks[..r + 1]), |s|), toks[r].k))
  {
    hide Dot, Scale, Keys, Total;
    var at, b, k := Total(toks[..r + 1]), toks[r].beta, toks[r].k;
    var w := Apply(Keys(E, toks[..r], at, |s|), k);
    forall i | 0 <= i < r ensures System(E, toks, |s|)[r][..r][i] == Scale(-b, w)[i] {
      ReadBack(E, toks[..r], at, k, i);
      assert toks[..r][..i + 1] == toks[..i + 1];
      DotSymmetric(Scale(b, k), toks[i].k);
      DotScale(toks[i].k, b, k);
      DotSymmetric(toks[i].k, k);
      ScaleAt(-b, w, i);
      var e, d := E(at - Total(toks[..i + 1])), Dot(k, toks[i].k);
      assert System(E, toks, |s|)[r][i] == -((b * d) * e);
      Rearrange(b, d, e);
    }
  }

  lemma Rearrange(b: real, d: real, e: real)
    ensures -((b * d) * e) == (-b) * (e * d)
  {
  }

  lemma DeltaRow(E: real -> real, s: Vec, toks: seq<Token>, c: nat, dv: nat, r: nat)
    requires ExpLaw(E) && Shaped(toks, |s|, dv) && c < dv && r < |toks|
    ensures Deltas(E, s, toks, c, dv)[r]
            == Target(E, s, toks, CumDecay(toks), c, dv)[r] + Dot(System(E, toks, |s|)[r], Deltas(E, s, toks, c, dv))
  {
    hide Deltas, System, Dot, Channel, Memory, Total, Keys, Scale;
    var t, at, b := toks[r], Total(toks[..r + 1]), toks[r].beta;
    var d, a := Deltas(E, s, toks, c, dv), System(E, toks, |s|)[r];
    var w := Apply(Keys(E, toks[..r], at, |s|), t.k);
    DeltasAt(E, s, toks, c, dv, r);
    DecayedState(E, s, toks, c, dv, r);
    DotMemory(E, s, toks[..r], c, dv, at, t.k);
    DeltasPrefix(E, s, toks, c, dv, r);
    var past := Dot(d[..r], w);
    assert d[r] == (t.v[c] - (E(at) * Dot(t.k, s) + past)) * b;
    assert Dot(a, d) == -b * past by {
      DotPrefix(a, d, r);
      SystemRow(E, s, toks, r);
      DotSymmetric(Scale(-b, w), d[..r]);
      DotScale(d[..r], -b, w);
    }
    assert Target(E, s, toks, CumDecay(toks), c, dv)[r] == b * t.v[c] - E(at) * (b * Dot(t.k, s)) by {
      TargetAt(E, s, toks, c, dv, r);
    }
    Distribute(t.v[c], E(at), Dot(t.k, s), past, b);
  }

  lemma Distribute(v: real, e: real, ks: real, past: real, b: real)
    ensures (v - (e * ks + past)) * b == (b * v - e * (b * ks)) + -b * past
  {
  }

  lemma TargetUnfold(E: real -> real, s: Vec, toks: seq<Token>, c: nat, dv: nat, r: nat)
    requires Shaped(toks, |s|, dv) && c < dv && r < |toks|
    ensures Target(E, s, toks, CumDecay(toks), c, dv)[r]
            == Scale(toks[r].beta, toks[r].v)[c]
               - Dot(s, Scale(E(Total(toks[..r + 1])), Scale(toks[r].beta, toks[r].k)))
  {
    hide Dot, Total, Scale, KeyBetaDecay, ValueBeta, CumDecay;
    BetaRows(E, toks, CumDecay(toks), |s|, dv, r);
    CumDecayAt(toks, r);
  }

  lemma CumDecayAt(toks: seq<Token>, r: nat)
    requires r < |toks|
    ensures CumDecay(toks)[r] == Total(toks[..r + 1])
  {
    hide Total;
  }

  lemma BetaRows(E: real -> real, toks: seq<Token>, g: Vec, dk: nat, dv: nat, r: nat)
    requires Shaped(toks, dk, dv) && |g| == |toks| && r < |toks|
    ensures ValueBeta(toks, dk, dv)[r] == Scale(toks[r].beta, toks[r].v)
    ensures KeyBetaDecay(E, toks, g, dk, dv)[r] == Scale(E(g[r]), Scale(toks[r].beta, toks[r].k))
  {
    hide Scale;
  }

  lemma TargetAt(E: real -> real, s: Vec, toks: seq<Token>, c: nat, dv: nat, r: nat)
    requires Shaped(toks, |s|, dv) && c < dv && r < |toks|
    ensures Target(E, s, toks, CumDecay(toks), c, dv)[r]
            == toks[r].beta * toks[r].v[c] - E(Total(toks[..r + 1])) * (toks[r].beta * Dot(toks[r].k, s))
  {
    hide Dot, Total, Scale, Target, CumDecay;
    TargetUnfold(E, s, toks, c, dv, r);
    ScaleAt(toks[r].beta, toks[r].v, c);
    DotScale(s, E(Total(toks[..r + 1])), Scale(toks[r].beta, toks[r].k));
    DotScale(s, toks[r].beta, toks[r].k);
    DotSymmetric(s, toks[r].k);
  }

  // What the chunk loop computes, given the inverse T.

  function Corrections(E: real -> real, T: seq<Vec>, toks: seq<Token>, state: seq<Vec>, dk: nat): (vn: seq<Vec>)
    requires Shape(T, |toks|, |toks|) && Shaped(toks, dk, |state|) && Shape(state, |state|, dk)
    ensures Shape(vn, |toks|, |state|)
  {
    var g := CumDecay(toks);
    var vb, kb := ValueBeta(toks, dk, |state|), KeyBetaDecay(E, toks, g, dk, |state|);
    seq(|toks|, r requires 0 <= r < |toks| =>
      Sub(LinComb(T[r], vb, |state|), Apply(state, LinComb(T[r], kb, dk))))
  }

  function ChunkOut(E: real -> real, toks: seq<Token>, state: seq<Vec>, vn: seq<Vec>, dk: nat, r: nat): (o: Vec)
    requires Shaped(toks, dk, |state|) && Shape(state, |state|, dk) && Shape(vn, |toks|, |state|) && r < |toks|
    ensures |o| == |state|
  {
    var g := CumDecay(toks);
    Add(Apply(state, Scale(E(g[r]), toks[r].q)), LinComb(QueryRow(E, toks, g, dk, r), vn, |state|))
  }

  function ChunkState(E: real -> real, toks: seq<Token>, state: seq<Vec>, vn: seq<Vec>, dk: nat): (next: seq<Vec>)
    requires |toks| > 0
    requires Shaped(toks, dk, |state|) && Shape(state, |state|, dk) && Shape(vn, |toks|, |state|)
    ensures Shape(next, |state|, dk)
  {
    var g := CumDecay(toks);
    var gl := g[|toks| - 1];
    var kg := DecayedKeys(E, toks, g, gl, dk);
    seq(|state|, c requires 0 <= c < |state| => Add(Scale(E(gl), state[c]), LinComb(Column(vn, c), kg, dk)))
  }

  function DecayedKeys(E: real -> real, toks: seq<Token>, g: Vec, gl: real, dk: nat): (kg: seq<Vec>)
    requires |g| == |toks|
    requires forall i :: 0 <= i < |toks| ==> |toks[i].k| == dk
    ensures Shape(kg, |toks|, dk)
  {
    seq(|toks|, s requires 0 <= s < |toks| => Scale(E(gl - g[s]), toks[s].k))
  }

  /** With the inverse in hand the chunk recovers every correction the
      recurrence would have made, on every value channel. */
  lemma CorrectionsAreDeltas(E: real -> real, T: seq<Vec>, toks: seq<Token>, state: seq<Vec>, dk: nat, c: nat)
    requires ExpLaw(E) && Shaped(toks, dk, |state|) && Shape(state, |state|, dk) && c < |state|
    requires InverseOf(System(E, toks, dk), T)
    ensures Column(Corrections(E, T, toks, state, dk), c) == Deltas(E, state[c], toks, c, |state|)
  {
    hide Deltas, Dot, System, CumDecay, Target, LinComb, Corrections, InverseOf, Solves;
    var A, n := System(E, toks, dk), |toks|;
    var u := Target(E, state[c], toks, CumDecay(toks), c, |state|);
    assert Shape(T, n, n) by { InverseShape(A, T); }
    var x, d := Apply(T, u), Deltas(E, state[c], toks, c, |state|);
    assert Column(Corrections(E, T, toks, state, dk), c) == x by {
      forall r | 0 <= r < n ensures Corrections(E, T, toks, state, dk)[r][c] == x[r] {
        CorrectionAt(E, T, toks, state, dk, c, r);
      }
    }
    InverseSolves(A, T, u);
    DeltasSolve(E, state[c], toks, c, |state|);
    SolutionUnique(A, u, x, d, n);
    assert x[..n] == x && d[..n] == d;
  }

  lemma InverseShape(A: seq<Vec>, T: seq<Vec>)
    requires Shape(A, |A|, |A|) && InverseOf(A, T)
    ensures Shape(T, |A|, |A|)
  {
  }

  lemma CorrectionAt(E: real -> real, T: seq<Vec>, toks: seq<Token>, state: seq<Vec>, dk: nat, c: nat, r: nat)
    requires Shaped(toks, dk, |state|) && Shape(state, |state|, dk) && c < |state|
    requires Shape(T, |toks|, |toks|) && r < |toks|
    ensures Corrections(E, T, toks, state, dk)[r][c]
            == Dot(Target(E, state[c], toks, CumDecay(toks), c, |state|), T[r])
  {
    hide Dot, CumDecay, LinComb, ValueBeta, KeyBetaDecay;
    var g := CumDecay(toks);
    var vb, kb := ValueBeta(toks, dk, |state|), KeyBetaDecay(E, toks, g, dk, |state|);
    LinCombAt(T[r], vb, |state|, c);
    DotLinComb(state[c], T[r], kb);
    DotSymmetric(state[c], LinComb(T[r], kb, dk));
    DotSub(T[r], Column(vb, c), Apply(kb, state[c]));
    DotSymmetric(T[r], Sub(Column(vb, c), Apply(kb, state[c])));
  }

  /** Column c of the corrected values holds the recurrence's corrections. */
  ghost predicate HoldsDeltas(E: real -> real, toks: seq<Token>, state: seq<Vec>, vn: seq<Vec>, dk: nat, c: nat)
    requires Shaped(toks, dk, |state|) && Shape(state, |state|, dk) && Shape(vn, |toks|, |state|) && c < |state|
  {
    Column(vn, c) == Deltas(E, state[c], toks, c, |state|)
  }

  ghost predicate AllDeltas(E: real -> real, toks: seq<Token>, state: seq<Vec>, vn: seq<Vec>, dk: nat)
    requires Shaped(toks, dk, |state|) && Shape(state, |state|, dk) && Shape(vn, |toks|, |state|)
  {
    forall c :: 0 <= c < |state| ==> HoldsDeltas(E, toks, state, vn, dk, c)
  }

  lemma QueryRowPrefix(E: real -> real, toks: seq<Token>, dk: nat, dv: nat, r: nat)
    requires Shaped(toks, dk, dv) && r < |toks|
    ensures QueryRow(E, toks, CumDecay(toks), dk, r)[..r + 1]
            == Apply(Keys(E, toks[..r + 1], Total(toks[..r + 1]), dk), toks[r].q)
  {
    hide Dot, Keys, Total, Apply, CumDecay;
    var q, at := toks[r].q, Total(toks[..r + 1]);
    var w := Apply(Keys(E, toks[..r + 1], at, dk), q);
    CumDecayAt(toks, r);
    forall i | 0 <= i <= r ensures QueryRow(E, toks, CumDecay(toks), dk, r)[..r + 1][i] == w[i] {
      CumDecayAt(toks, i);
      ReadBack(E, toks[..r + 1], at, q, i);
      assert toks[..r + 1][..i + 1] == toks[..i + 1];
    }
  }

  /** The chunk's output row is what the recurrence would have returned. */
  lemma ChunkOutCorrect(E: real -> real, toks: seq<Token>, state: seq<Vec>, vn: seq<Vec>, dk: nat, r: nat)
    requires ExpLaw(E) && Shaped(toks, dk, |state|) && Shape(state, |state|, dk) && Shape(vn, |toks|, |state|)
    requires AllDeltas(E, toks, state, vn, dk)
    requires r < |toks|
    ensures ChunkOut(E, toks, state, vn, dk, r) == RecurOut(E, state, toks, dk, r)
  {
    hide ChunkOut, RecurOut, HoldsDeltas;
    forall c | 0 <= c < |state| ensures ChunkOut(E, toks, state, vn, dk, r)[c] == RecurOut(E, state, toks, dk, r)[c] {
      ChunkOutAt(E, toks, state, vn, dk, r, c);
      RecurOutAt(E, state, toks, dk, r, c);
    }
  }

  lemma RecurOutAt(E: real -> real, state: seq<Vec>, toks: seq<Token>, dk: nat, r: nat, c: nat)
    requires ExpLaw(E) && Shaped(toks, dk, |state|) && Shape(state, |state|, dk) && r < |toks| && c < |state|
    ensures RecurOut(E, state, toks, dk, r)[c]
            == Dot(toks[r].q, Memory(E, state[c], toks[..r + 1], c, |state|, Total(toks[..r + 1])))
  {
    hide Dot, Total, Memory, Delta, Write;
    RecurChannel(E, state, toks[..r], dk, c);
    ChannelForm(E, state[c], toks[..r + 1], c, |state|);
    assert toks[..r + 1][..r] == toks[..r];
  }

  lemma ChunkOutAt(E: real -> real, toks: seq<Token>, state: seq<Vec>, vn: seq<Vec>, dk: nat, r: nat, c: nat)
    requires Shaped(toks, dk, |state|) && Shape(state, |state|, dk) && Shape(vn, |toks|, |state|)
    requires c < |state| && HoldsDeltas(E, toks, state, vn, dk, c)
    requires r < |toks|
    ensures ChunkOut(E, toks, state, vn, dk, r)[c]
            == Dot(toks[r].q, Memory(E, state[c], toks[..r + 1], c, |state|, Total(toks[..r + 1])))
  {
    hide Dot, Total, Memory, Deltas, QueryRow, CumDecay, Apply, Keys, Scale, LinComb, Column, ChunkOut, Recall;
    ChunkOutUnfold(E, toks, state, vn, dk, r, c);
    ReadCorrections(E, toks, state, vn, dk, r, c);
    DotMemory(E, state[c], toks[..r + 1], c, |state|, Total(toks[..r + 1]), toks[r].q);
  }

  /** Row r of the masked query-key products reads exactly the corrections made
      up to token r, each through its decayed key. */
  lemma ReadCorrections(E: real -> real, toks: seq<Token>, state: seq<Vec>, vn: seq<Vec>, dk: nat, r: nat, c: nat)
    requires Shaped(toks, dk, |state|) && Shape(state, |state|, dk) && Shape(vn, |toks|, |state|)
    requires c < |state| && HoldsDeltas(E, toks, state, vn, dk, c)
    requires r < |toks|
    ensures LinComb(QueryRow(E, toks, CumDecay(toks), dk, r), vn, |state|)[c]
            == Dot(Deltas(E, state[c], toks[..r + 1], c, |state|),
                   Apply(Keys(E, toks[..r + 1], Total(toks[..r + 1]), dk), toks[r].q))
  {
    hide Dot, Total, Deltas, QueryRow, CumDecay, Apply, Keys, LinComb, Column;
    LinCombAt(QueryRow(E, toks, CumDecay(toks), dk, r), vn, |state|, c);
    DotQueryRow(E, toks, dk, |state|, r, Deltas(E, state[c], toks, c, |state|));
    DeltasPrefix(E, state[c], toks, c, |state|, r + 1);
  }

  lemma ChunkOutUnfold(E: real -> real, toks: seq<Token>, state: seq<Vec>, vn: seq<Vec>, dk: nat, r: nat, c: nat)
    requires Shaped(toks, dk, |state|) && Shape(state, |state|, dk) && Shape(vn, |toks|, |state|)
    requires c < |state| && r < |toks|
    ensures ChunkOut(E, toks, state, vn, dk, r)[c]
            == Recall(E(Total(toks[..r + 1])), toks[r].q, state[c])
               + LinComb(QueryRow(E, toks, CumDecay(toks), dk, r), vn, |state|)[c]
  {
    hide Dot, Total, QueryRow, CumDecay, Apply, Scale, LinComb;
    var e, s, q := E(Total(toks[..r + 1])), state[c], toks[r].q;
    CumDecayAt(toks, r);
    ApplyAt(state, Scale(e, q), c);
    DotSymmetric(Scale(e, q), s);
    DotScale(s, e, q);
    DotSymmetric(s, q);
  }

  lemma DotQueryRow(E: real -> real, toks: seq<Token>, dk: nat, dv: nat, r: nat, d: Vec)
    requires Shaped(toks, dk, dv) && r < |toks| && |d| == |toks|
    ensures Dot(QueryRow(E, toks, CumDecay(toks), dk, r), d)
            == Dot(d[..r + 1], Apply(Keys(E, toks[..r + 1], Total(toks[..r + 1]), dk), toks[r].q))
  {
    hide Dot, Total, CumDecay, Apply, Keys;
    var a := QueryRow(E, toks, CumDecay(toks), dk, r);
    DotPrefix(a, d, r + 1);
    QueryRowPrefix(E, toks, dk, dv, r);
    DotSymmetric(a[..r + 1], d[..r + 1]);
  }

  /** The chunk leaves the state the recurrence would have left. */
  lemma ChunkStateCorrect(E: real -> real, toks: seq<Token>, state: seq<Vec>, vn: seq<Vec>, dk: nat)
    requires |toks| > 0
    requires ExpLaw(E) && Shaped(toks, dk, |state|) && Shape(state, |state|, dk) && Shape(vn, |toks|, |state|)
    requires AllDeltas(E, toks, state, vn, dk)
    ensures ChunkState(E, toks, state, vn, dk) == Recur(E, state, toks, dk)
  {
    hide ChunkState, Recur, HoldsDeltas, Channel, Memory;
    forall c | 0 <= c < |state| ensures ChunkState(E, toks, state, vn, dk)[c] == Recur(E, state, toks, dk)[c] {
      RecurChannel(E, state, toks, dk, c);
      ChannelForm(E, state[c], toks, c, |state|);
      ChunkStateAt(E, toks, state, vn, dk, c);
    }
  }

  lemma ChunkStateAt(E: real -> real, toks: seq<Token>, state: seq<Vec>, vn: seq<Vec>, dk: nat, c: nat)
    requires |toks| > 0
    requires Shaped(toks, dk, |state|) && Shape(state, |state|, dk) && Shape(vn, |toks|, |state|)
    requires c < |state| && HoldsDeltas(E, toks, state, vn, dk, c)
    ensures ChunkState(E, toks, state, vn, dk)[c] == Memory(E, state[c], toks, c, |state|, Total(toks))
  {
    hide Total, Deltas, Scale, LinComb, Column, Add, Keys, ChunkState;
    ChunkStateUnfold(E, toks, state, vn, dk, c);
  }

  lemma ChunkStateUnfold(E: real -> real, toks: seq<Token>, state: seq<Vec>, vn: seq<Vec>, dk: nat, c: nat)
    requires |toks| > 0
    requires Shaped(toks, dk, |state|) && Shape(state, |state|, dk) && Shape(vn, |toks|, |state|) && c < |state|
    ensures ChunkState(E, toks, state, vn, dk)[c]
            == Add(Scale(E(Total(toks)), state[c]), LinComb(Column(vn, c), Keys(E, toks, Total(toks), dk), dk))
  {
    hide Total, CumDecay, Scale, LinComb, Column, Add, Keys, DecayedKeys;
    assert toks[..|toks|] == toks;
    CumDecayAt(toks, |toks| - 1);
    DecayedKeysAreKeys(E, toks, dk);
  }

  lemma DecayedKeysAreKeys(E: real -> real, toks: seq<Token>, dk: nat)
    requires forall i :: 0 <= i < |toks| ==> |toks[i].k| == dk
    ensures DecayedKeys(E, toks, CumDecay(toks), Total(toks), dk) == Keys(E, toks, Total(toks), dk)
  {
    hide Total, CumDecay, Scale, Keys;
    forall i | 0 <= i < |toks|
      ensures DecayedKeys(E, toks, CumDecay(toks), Total(toks), dk)[i] == Keys(E, toks, Total(toks), dk)[i]
    {
      KeyAt(E, toks, Total(toks), dk, i);
      CumDecayAt(toks, i);
    }
  }

  /** The body of the chunk loop: the outputs and the state after one chunk. */
  method RunChunk(E: real -> real, toks: seq<Token>, state: seq<Vec>, dk: nat)
    returns (out: seq<Vec>, next: seq<Vec>)
    requires ExpLaw(E) && |toks| > 0 && Shaped(toks, dk, |state|) && Shape(state, |state|, dk)
    ensures |out| == |toks| && forall r :: 0 <= r < |toks| ==> out[r] == RecurOut(E, state, toks, dk, r)
    ensures next == Recur(E, state, toks, dk)
  {
    hide ChunkSystem, Corrections, ChunkOut, ChunkState, Recur, RecurOut, PlusIdentity, CumDecay;
    hide InverseOf, StrictlyLower, Deltas, DecodeStep, ExpLaw;
    var n := |toks|;
    var attn := SystemMatrix(E, toks, dk, |state|);
    ForwardSubstitution(attn);
    var T := PlusIdentity(Rows(attn));
    InverseShape(System(E, toks, dk), T);
    var vn := Corrections(E, T, toks, state, dk);
    out := seq(n, r requires 0 <= r < n => ChunkOut(E, toks, state, vn, dk, r));
    next := ChunkState(E, toks, state, vn, dk);
    forall c | 0 <= c < |state| ensures Column(vn, c) == Deltas(E, state[c], toks, c, |state|) {
      CorrectionsAreDeltas(E, T, toks, state, dk, c);
    }
    forall r | 0 <= r < n ensures out[r] == RecurOut(E, state, toks, dk, r) {
      ChunkOutCorrect(E, toks, state, vn, dk, r);
    }
    ChunkStateCorrect(E, toks, state, vn, dk);
  }

  /** The chunk's attn tensor as it stands before the row loop. */
  method SystemMatrix(E: real -> real, toks: seq<Token>, dk: nat, ghost dv: nat) returns (attn: array2<real>)
    requires Shaped(toks, dk, dv)
    ensures fresh(attn) && attn.Length0 == attn.Length1 == |toks|
    ensures StrictlyLower(Rows(attn)) && Rows(attn) == System(E, toks, dk)
  {
    hide ChunkSystem, CumDecay;
    var n, g := |toks|, CumDecay(toks);
    attn := new real[n, n]((i, j) requires 0 <= i < n && 0 <= j < n => ChunkSystem(E, toks, g, dk, i)[j]);
    forall i | 0 <= i < n ensures Rows(attn)[i] == System(E, toks, dk)[i] {
    }
    assert Rows(attn) == System(E, toks, dk);
  }

  function PadToken(dk: nat, dv: nat): (t: Token)
    ensures TokenShape(t, dk, dv)
  {
    Token(Zeros(dk), Zeros(dk), Zeros(dv), 0.0, 0.0)
  }

  /** A padding token leaves every state as it is. */
  lemma PadTokenInert(E: real -> real, state: seq<Vec>, dk: nat)
    requires ExpLaw(E) && Shape(state, |state|, dk)
    ensures DecodeStep(E, state, PadToken(dk, |state|), dk).state == state
  {
    hide Dot;
    ExpZero(E);
    forall c | 0 <= c < |state| ensures Write(E, state[c], PadToken(dk, |state|), c) == state[c] {
      var d := Delta(E, state[c], PadToken(dk, |state|), c);
      assert d == 0.0;
      assert Scale(d, Zeros(dk)) == Zeros(dk);
      ScaleOne(state[c], E(0.0));
    }
  }

  lemma {:induction false} PaddingInert(E: real -> real, state: seq<Vec>, dk: nat, pad: nat)
    requires ExpLaw(E) && Shape(state, |state|, dk)
    ensures Shaped(Padding(pad, dk, |state|), dk, |state|)
    ensures Recur(E, state, Padding(pad, dk, |state|), dk) == state
  {
    hide DecodeStep;
    if pad > 0 {
      PaddingInert(E, state, dk, pad - 1);
      assert Padding(pad, dk, |state|)[..pad - 1] == Padding(pad - 1, dk, |state|);
      PadTokenInert(E, state, dk);
    }
  }

  function Padding(pad: nat, dk: nat, dv: nat): (p: seq<Token>)
    ensures |p| == pad && Shaped(p, dk, dv)
  {
    seq(pad, _ => PadToken(dk, dv))
  }

  /** The whole prefill: pad to a multiple of the chunk size, run the chunks with
      the state carried across, and drop the padded outputs. */
  method ChunkGatedDeltaRule(E: real -> real, toks: seq<Token>, chunkSize: nat, initial: seq<Vec>, dk: nat)
    returns (out: seq<Vec>, state: seq<Vec>)
    requires ExpLaw(E) && chunkSize > 0 && Shaped(toks, dk, |initial|) && Shape(initial, |initial|, dk)
    ensures |out| == |toks| && forall t :: 0 <= t < |toks| ==> out[t] == RecurOut(E, initial, toks, dk, t)
    ensures state == Recur(E, initial, toks, dk)
  {
    hide Recur, RecurOut, DecodeStep, ExpLaw;
    var pad := (chunkSize - |toks| % chunkSize) % chunkSize;
    var padded := toks + Padding(pad, dk, |initial|);
    var nc := |padded| / chunkSize;
    PaddedLength(|toks|, chunkSize);
    state, out := initial, [];
    assert padded[..0] == [];
    RecurNothing(E, initial, dk);
    for i := 0 to nc
      invariant |out| == i * chunkSize <= |padded| && Shape(state, |initial|, dk)
      invariant Shaped(padded, dk, |initial|)
      invariant state == Recur(E, initial, padded[..i * chunkSize], dk)
      invariant forall t :: 0 <= t < |out| ==> out[t] == RecurOut(E, initial, padded, dk, t)
    {
      ChunkEnd(i, nc, chunkSize);
      var done := padded[..i * chunkSize];
      var chunk := padded[i * chunkSize..(i + 1) * chunkSize];
      var outs, next := RunChunk(E, chunk, state, dk);
      assert padded[..(i + 1) * chunkSize] == done + chunk;
      RecurAppend(E, initial, done, chunk, dk);
      assert padded == (done + chunk) + padded[(i + 1) * chunkSize..];
      forall r | 0 <= r < chunkSize ensures outs[r] == RecurOut(E, initial, padded, dk, i * chunkSize + r) {
        OutAcross(E, initial, done, chunk, dk, r);
        OutPrefix(E, initial, done + chunk, padded[(i + 1) * chunkSize..], dk, i * chunkSize + r);
      }
      out, state := out + outs, next;
    }
    assert padded[..nc * chunkSize] == padded;
    RecurAppend(E, initial, toks, Padding(pad, dk, |initial|), dk);
    PaddingInert(E, Recur(E, initial, toks, dk), dk, pad);
    out := out[..|toks|];
    forall t | 0 <= t < |toks| ensures out[t] == RecurOut(E, initial, toks, dk, t) {
      OutPrefix(E, initial, toks, Padding(pad, dk, |initial|), dk, t);
    }
  }

  lemma RecurNothing(E: real -> real, state: seq<Vec>, dk: nat)
    requires Shape(state, |state|, dk)
    ensures Recur(E, state, [], dk) == state
  {
  }

  lemma ChunkEnd(i: nat, nc: nat, c: nat)
    requires i < nc
    ensures (i + 1) * c == i * c + c && (i + 1) * c <= nc * c
  {
    MulOrder(i + 1, nc, c);
  }

  lemma PaddedLength(n: nat, c: nat)
    requires c > 0
    ensures var p := n + (c - n % c) % c; p / c * c == p
  {
    var q, r := n / c, n % c;
    if r == 0 {
      DivUnique(c, c, 1, 0);
      DivUnique(n, c, q, 0);
    } else {
      DivUnique(c - r, c, 0, c - r);
      DivUnique(n + (c - r), c, q + 1, 0);
    }
  }

  /** An output of the part after a, seen from the start of the sequence. */
  lemma OutAcross(E: real -> real, state: seq<Vec>, a: seq<Token>, b: seq<Token>, dk: nat, r: nat)
    requires Shaped(a, dk, |state|) && Shaped(b, dk, |state|) && Shape(state, |state|, dk) && r < |b|
    ensures Shaped(a + b, dk, |state|)
    ensures RecurOut(E, Recur(E, state, a, dk), b, dk, r) == RecurOut(E, state, a + b, dk, |a| + r)
  {
    hide Recur, DecodeStep, TokenShape;
    RecurAppend(E, state, a, b[..r], dk);
    assert (a + b)[..|a| + r] == a + b[..r];
  }

  lemma OutPrefix(E: real -> real, state: seq<Vec>, a: seq<Token>, b: seq<Token>, dk: nat, t: nat)
    requires Shaped(a, dk, |state|) && Shaped(b, dk, |state|) && Shape(state, |state|, dk) && t < |a|
    ensures RecurOut(E, state, a + b, dk, t) == RecurOut(E, state, a, dk, t)
  {
    hide Recur, DecodeStep;
    assert (a + b)[..t] == a[..t];
  }
}
