/** Prefill attention over several concatenated sequences: the batched fallback
    with one additive mask for all of them (patch_xformers_sdpa_batch.py), and the
    per-sequence fallback (patch_xformers_sdpa_seq_kernel.py). One head. */
module BatchedAttention {
  import opened Vectors
  import opened Exponential
  import opened Softmax
  import opened PrefixAttention

  /** Where sequence k starts. */
  function Start(lens: seq<nat>, k: nat): (s: nat)
    requires k <= |lens|
  {
    if k == 0 then 0 else Start(lens, k - 1) + lens[k - 1]
  }

  lemma {:induction false} StartMonotone(lens: seq<nat>, j: nat, k: nat)
    requires j <= k <= |lens|
    ensures Start(lens, j) <= Start(lens, k)
    decreases k
  {
    if j < k {
      StartMonotone(lens, j, k - 1);
    }
  }

  predicate InSeq(lens: seq<nat>, k: nat, t: nat)
    requires k < |lens|
  {
    Start(lens, k) <= t < Start(lens, k + 1)
  }

  lemma InOneSeq(lens: seq<nat>, j: nat, k: nat, t: nat)
    requires j < |lens| && k < |lens| && InSeq(lens, j, t) && InSeq(lens, k, t)
    ensures j == k
  {
    if j < k {
      StartMonotone(lens, j + 1, k);
    } else if k < j {
      StartMonotone(lens, k + 1, j);
    }
  }

  ghost predicate SameSeq(lens: seq<nat>, i: nat, j: nat) {
    exists k :: 0 <= k < |lens| && InSeq(lens, k, i) && InSeq(lens, k, j)
  }

  // ---------------------------------------------------------------------
  // The batched mask
  // ---------------------------------------------------------------------

  /** torch.tril: entries above the diagonal become 0. */
  function Tril(m: seq<Vec>): (t: seq<Vec>)
    requires Shape(m, |m|, |m|)
    ensures Shape(t, |m|, |m|)
  {
    seq(|m|, i requires 0 <= i < |m| =>
      seq(|m|, j requires 0 <= j < |m| => if j <= i then m[i][j] else 0.0))
  }

  function ZeroMatrix(n: nat): (m: seq<Vec>)
    ensures Shape(m, n, n)
  {
    seq(n, _ => Zeros(n))
  }

  lemma TrilOfZeros(n: nat, i: nat, j: nat)
    requires i < n && j < n
    ensures Tril(ZeroMatrix(n))[i][j] == 0.0
  {
  }

  /** The mask entry once the first n sequences have been filled in. */
  ghost function Entry(lens: seq<nat>, n: nat, i: nat, j: nat): Score
    requires n <= |lens|
  {
    if exists k :: 0 <= k < n && InSeq(lens, k, i) && InSeq(lens, k, j) then Fin(0.0) else NegInf
  }

  lemma EntryNext(lens: seq<nat>, k: nat, i: nat, j: nat)
    requires k < |lens|
    ensures Entry(lens, k + 1, i, j) == if InSeq(lens, k, i) && InSeq(lens, k, j) then Fin(0.0) else Entry(lens, k, i, j)
  {
    hide InSeq;
  }

  /** The mask is built from the lower triangle of an all-zero matrix, which is
      all zero: inside a sequence nothing is masked, in either direction. */
  method BuildMask(lens: seq<nat>, total: nat) returns (mask: array2<Score>)
    requires Start(lens, |lens|) == total
    ensures fresh(mask) && mask.Length0 == mask.Length1 == total
    ensures forall i, j :: 0 <= i < total && 0 <= j < total ==>
      mask[i, j] == if SameSeq(lens, i, j) then Fin(0.0) else NegInf
  {
    hide Tril, ZeroMatrix, Start;
    mask := new Score[total, total]((i, j) => NegInf);
    var start := 0;
    StartOfFirst(lens);
    for k := 0 to |lens|
      invariant start == Start(lens, k)
      invariant forall i, j :: 0 <= i < total && 0 <= j < total ==> mask[i, j] == Entry(lens, k, i, j)
    {
      StartMonotone(lens, k + 1, |lens|);
      StartNext(lens, k);
      FillBlock(mask, lens, k, start, start + lens[k]);
      start := start + lens[k];
    }
  }

  /** One slice assignment of the mask. */
  method FillBlock(mask: array2<Score>, lens: seq<nat>, k: nat, start: nat, end: nat)
    requires k < |lens| && start == Start(lens, k) && end == Start(lens, k + 1) == start + lens[k]
    requires end <= mask.Length0 == mask.Length1
    requires forall i, j :: 0 <= i < mask.Length0 && 0 <= j < mask.Length0 ==> mask[i, j] == Entry(lens, k, i, j)
    modifies mask
    ensures forall i, j :: 0 <= i < mask.Length0 && 0 <= j < mask.Length0 ==> mask[i, j] == Entry(lens, k + 1, i, j)
  {
    hide Tril, ZeroMatrix, Start, Entry;
    var block := Tril(ZeroMatrix(lens[k]));
    forall i, j | 0 <= i < lens[k] && 0 <= j < lens[k] ensures block[i][j] == 0.0 {
      TrilOfZeros(lens[k], i, j);
    }
    forall i, j | start <= i < end && start <= j < end {
      mask[i, j] := Fin(block[i - start][j - start]);
    }
    forall i, j | 0 <= i < mask.Length0 && 0 <= j < mask.Length0 ensures mask[i, j] == Entry(lens, k + 1, i, j) {
      EntryNext(lens, k, i, j);
      if InSeq(lens, k, i) && InSeq(lens, k, j) {
        assert block[i - start][j - start] == 0.0;
      }
    }
  }

  lemma StartOfFirst(lens: seq<nat>)
    ensures Start(lens, 0) == 0
  {
  }

  lemma StartNext(lens: seq<nat>, k: nat)
    requires k < |lens|
    ensures Start(lens, k + 1) == Start(lens, k) + lens[k]
  {
  }

  /** A score plus an additive mask entry. */
  function AddMask(s: real, m: Score): Score {
    if m.NegInf? then NegInf else Fin(s + m.x)
  }

  lemma AttendSurrounded(E: real -> real, pre: seq<Score>, ss: seq<Score>, post: seq<Score>, yp: Vec, ys: Vec, yq: Vec)
    requires ExpLaw(E) && |pre| == |yp| && |ss| == |ys| && |post| == |yq|
    requires HasFinite(ss) && !HasFinite(pre) && !HasFinite(post)
    ensures Mass(E, ss, Fin(0.0), Ones(|ss|)) != 0.0
    ensures Mass(E, pre + ss + post, Fin(0.0), Ones(|pre + ss + post|)) != 0.0
    ensures Attend(E, pre + ss + post, yp + ys + yq) == Attend(E, ss, ys)
  {
    hide ExpLaw, Mass;
    var o := Fin(0.0);
    AttendFrom(E, ss, o, ys);
    MassConcat(E, pre, ss, o, yp, ys);
    MassConcat(E, pre, ss, o, Ones(|pre|), Ones(|ss|));
    MassMasked(E, pre, o, yp);
    MassMasked(E, pre, o, Ones(|pre|));
    assert Ones(|pre + ss|) == Ones(|pre|) + Ones(|ss|);
    MassConcat(E, pre + ss, post, o, yp + ys, yq);
    MassConcat(E, pre + ss, post, o, Ones(|pre + ss|), Ones(|post|));
    MassMasked(E, post, o, yq);
    MassMasked(E, post, o, Ones(|post|));
    assert Ones(|pre + ss + post|) == Ones(|pre + ss|) + Ones(|post|);
  }

  /** Row t of the batched scores, given its mask row. */
  function BatchScores(q: Vec, kvs: seq<KV>, scale: real, maskRow: seq<Score>): (ss: seq<Score>)
    requires |maskRow| == |kvs| && KeyShape(kvs, |q|)
    ensures |ss| == |kvs|
  {
    seq(|kvs|, j requires 0 <= j < |kvs| => AddMask(RawScore(q, kvs[j].k, scale), maskRow[j]))
  }

  /** A batched row is attention over the whole of its own sequence and nothing
      else: sequences do not see each other, but a token sees its successors. */
  lemma BatchRowIsOwnSequence(E: real -> real, q: Vec, kvs: seq<KV>, scale: real, maskRow: seq<Score>, lens: seq<nat>,
                              k: nat, t: nat, dv: nat, c: nat)
    requires ExpLaw(E) && KVShape(kvs, |q|, dv) && c < dv && |maskRow| == |kvs| == Start(lens, |lens|)
    requires k < |lens| && InSeq(lens, k, t)
    requires forall j :: 0 <= j < |kvs| ==> maskRow[j] == if SameSeq(lens, t, j) then Fin(0.0) else NegInf
    ensures Start(lens, k + 1) <= |kvs|
    ensures Mass(E, BatchScores(q, kvs, scale, maskRow), Fin(0.0), Ones(|kvs|)) != 0.0
    ensures Attend(E, BatchScores(q, kvs, scale, maskRow), Column(Values(kvs), c))
            == CausalAttention(E, Scale(scale, q), kvs[Start(lens, k)..Start(lens, k + 1)], dv, c)
  {
    hide ExpLaw, Mass, Dot, Scale, Attend;
    var a, b := Start(lens, k), Start(lens, k + 1);
    StartMonotone(lens, k + 1, |lens|);
    var ss := BatchScores(q, kvs, scale, maskRow);
    RowParts(q, kvs, scale, maskRow, lens, k, t);
    assert ss == ss[..a] + ss[a..b] + ss[b..];
    var ys := Column(Values(kvs), c);
    assert ys == ys[..a] + ys[a..b] + ys[b..];
    assert ys[a..b] == Column(Values(kvs[a..b]), c);
    AttendSurrounded(E, ss[..a], ss[a..b], ss[b..], ys[..a], ys[a..b], ys[b..]);
  }

  lemma RowParts(q: Vec, kvs: seq<KV>, scale: real, maskRow: seq<Score>, lens: seq<nat>, k: nat, t: nat)
    requires |maskRow| == |kvs| == Start(lens, |lens|) && KeyShape(kvs, |q|)
    requires k < |lens| && InSeq(lens, k, t) && Start(lens, k + 1) <= |kvs|
    requires forall j :: 0 <= j < |kvs| ==> maskRow[j] == if SameSeq(lens, t, j) then Fin(0.0) else NegInf
    ensures var ss := BatchScores(q, kvs, scale, maskRow);
      var a, b := Start(lens, k), Start(lens, k + 1);
      && !HasFinite(ss[..a]) && !HasFinite(ss[b..]) && HasFinite(ss[a..b])
      && ss[a..b] == Scores(Scale(scale, q), kvs[a..b])
  {
    hide Dot, Scale, Start, SameSeq, AddMask, RawScore;
    assert forall s: real :: AddMask(s, NegInf) == NegInf by { MaskedScore(); }
    var ss := BatchScores(q, kvs, scale, maskRow);
    var a, b := Start(lens, k), Start(lens, k + 1);
    forall j | 0 <= j < |kvs|
      ensures ss[j] == if a <= j < b then Fin(Dot(Scale(scale, q), kvs[j].k)) else NegInf
    {
      SameSeqAt(lens, k, t, j);
      UnmaskedScore(RawScore(q, kvs[j].k, scale));
      ScaledScore(q, kvs[j].k, scale);
    }
    assert ss[a..b] == Scores(Scale(scale, q), kvs[a..b]);
    assert ss[t] == ss[a..b][t - a];
  }

  lemma MaskedScore()
    ensures forall s: real :: AddMask(s, NegInf) == NegInf
  {
  }

  lemma UnmaskedScore(s: real)
    ensures AddMask(s, Fin(0.0)) == Fin(s)
  {
  }

  lemma SameSeqAt(lens: seq<nat>, k: nat, t: nat, j: nat)
    requires k < |lens| && InSeq(lens, k, t)
    ensures SameSeq(lens, t, j) <==> Start(lens, k) <= j < Start(lens, k + 1)
  {
    hide Start;
    if SameSeq(lens, t, j) {
      var m :| 0 <= m < |lens| && InSeq(lens, m, t) && InSeq(lens, m, j);
      InOneSeq(lens, k, m, t);
    }
    if Start(lens, k) <= j < Start(lens, k + 1) {
      assert InSeq(lens, k, j);
    }
  }

  lemma {:induction false} SomeSeq(lens: seq<nat>, n: nat, t: nat) returns (k: nat)
    requires n <= |lens| && t < Start(lens, n)
    ensures k < n && InSeq(lens, k, t)
  {
    if t < Start(lens, n - 1) {
      k := SomeSeq(lens, n - 1, t);
    } else {
      k := n - 1;
    }
  }

  /** softmax(scores + mask) @ value, one row. */
  function SdpaRow(E: real -> real, q: Vec, kvs: seq<KV>, scale: real, maskRow: seq<Score>, dv: nat): (o: Vec)
    requires |maskRow| == |kvs| && KVShape(kvs, |q|, dv)
    requires Mass(E, BatchScores(q, kvs, scale, maskRow), Fin(0.0), Ones(|kvs|)) != 0.0
    ensures |o| == dv
  {
    seq(dv, c requires 0 <= c < dv => Attend(E, BatchScores(q, kvs, scale, maskRow), Column(Values(kvs), c)))
  }

  /** What the batched fallback returns for token t of sequence k. */
  ghost predicate IsBatchedRow(E: real -> real, q: Vec, kvs: seq<KV>, lens: seq<nat>, k: nat, dv: nat, o: Vec)
    requires ExpLaw(E) && KVShape(kvs, |q|, dv) && k < |lens| && Start(lens, k) < Start(lens, k + 1) <= |kvs|
  {
    && |o| == dv
    && forall c :: 0 <= c < dv ==> o[c] == CausalAttention(E, q, kvs[Start(lens, k)..Start(lens, k + 1)], dv, c)
  }

  /** Token t's batched row, whichever sequence t belongs to. */
  ghost predicate BatchedRowFor(E: real -> real, q: Vec, kvs: seq<KV>, lens: seq<nat>, t: nat, dv: nat, o: Vec)
    requires ExpLaw(E) && KVShape(kvs, |q|, dv)
  {
    forall k :: 0 <= k < |lens| && InSeq(lens, k, t) ==>
      Start(lens, k + 1) <= |kvs| && IsBatchedRow(E, q, kvs, lens, k, dv, o)
  }

  lemma BatchedRowCorrect(E: real -> real, q: Vec, kvs: seq<KV>, scale: real, maskRow: seq<Score>, lens: seq<nat>, t: nat, dv: nat)
    requires ExpLaw(E) && KVShape(kvs, |q|, dv) && |maskRow| == |kvs| == Start(lens, |lens|) && t < |kvs|
    requires forall j :: 0 <= j < |kvs| ==> maskRow[j] == if SameSeq(lens, t, j) then Fin(0.0) else NegInf
    ensures Mass(E, BatchScores(q, kvs, scale, maskRow), Fin(0.0), Ones(|kvs|)) != 0.0
    ensures BatchedRowFor(E, Scale(scale, q), kvs, lens, t, dv, SdpaRow(E, q, kvs, scale, maskRow, dv))
  {
    hide ExpLaw, Mass, Attend, BatchScores, Scale, SameSeq, CausalAttention;
    var n := SomeSeq(lens, |lens|, t);
    RowFinite(E, q, kvs, scale, maskRow, lens, n, t);
    forall k | 0 <= k < |lens| && InSeq(lens, k, t)
      ensures Start(lens, k + 1) <= |kvs| && IsBatchedRow(E, Scale(scale, q), kvs, lens, k, dv, SdpaRow(E, q, kvs, scale, maskRow, dv))
    {
      StartMonotone(lens, k + 1, |lens|);
      forall c | 0 <= c < dv
        ensures SdpaRow(E, q, kvs, scale, maskRow, dv)[c]
                == CausalAttention(E, Scale(scale, q), kvs[Start(lens, k)..Start(lens, k + 1)], dv, c)
      {
        BatchRowIsOwnSequence(E, q, kvs, scale, maskRow, lens, k, t, dv, c);
      }
    }
  }

  lemma RowFinite(E: real -> real, q: Vec, kvs: seq<KV>, scale: real, maskRow: seq<Score>, lens: seq<nat>, k: nat, t: nat)
    requires ExpLaw(E) && KeyShape(kvs, |q|) && |maskRow| == |kvs| == Start(lens, |lens|)
    requires k < |lens| && InSeq(lens, k, t)
    requires forall j :: 0 <= j < |kvs| ==> maskRow[j] == if SameSeq(lens, t, j) then Fin(0.0) else NegInf
    ensures Mass(E, BatchScores(q, kvs, scale, maskRow), Fin(0.0), Ones(|kvs|)) != 0.0
  {
    hide ExpLaw, Mass, Dot;
    StartMonotone(lens, k + 1, |lens|);
    assert SameSeq(lens, t, t);
    assert BatchScores(q, kvs, scale, maskRow)[t].Fin?;
    MassNonNegative(E, BatchScores(q, kvs, scale, maskRow), Fin(0.0));
  }

  /** Every token of sequence k gets the softmax-weighted mean over its sequence. */
  ghost predicate SeesWhole(E: real -> real, scale: real, qs: seq<Vec>, kvs: seq<KV>, lens: seq<nat>, k: nat, dv: nat, out: seq<Vec>)
    requires k < |lens| && |out| == |qs| == |kvs|
  {
    && Start(lens, k) + lens[k] <= |qs|
    && forall t :: Start(lens, k) <= t < Start(lens, k) + lens[k] ==>
        IsSoftmax(E, scale, qs[t], kvs[Start(lens, k)..Start(lens, k) + lens[k]], dv, out[t])
  }

  /** Every token of sequence k gets the softmax-weighted mean over its sequence up
      to itself. */
  ghost predicate SeesPrefix(E: real -> real, scale: real, qs: seq<Vec>, kvs: seq<KV>, lens: seq<nat>, k: nat, dv: nat, out: seq<Vec>)
    requires k < |lens| && |out| == |qs| == |kvs|
  {
    && Start(lens, k) + lens[k] <= |qs|
    && forall t :: Start(lens, k) <= t < Start(lens, k) + lens[k] ==>
        IsSoftmax(E, scale, qs[t], kvs[Start(lens, k)..t + 1], dv, out[t])
  }

  /** A token of sequence k sees the whole sequence. */
  lemma BatchedRowMeans(E: real -> real, scale: real, q: Vec, kvs: seq<KV>, lens: seq<nat>, k: nat, t: nat, dv: nat, o: Vec)
    requires ExpLaw(E) && KVShape(kvs, |q|, dv) && k < |lens| && |kvs| == Start(lens, |lens|)
    requires Start(lens, k) <= t < Start(lens, k) + lens[k] && BatchedRowFor(E, Scale(scale, q), kvs, lens, t, dv, o)
    ensures Start(lens, k) + lens[k] <= |kvs|
    ensures IsSoftmax(E, scale, q, kvs[Start(lens, k)..Start(lens, k) + lens[k]], dv, o)
  {
    hide ExpLaw, CausalAttention, IsSoftmax, Scale, Start;
    StartNext(lens, k);
    StartMonotone(lens, k + 1, |lens|);
    assert InSeq(lens, k, t);
    AttentionRowMeans(E, scale, q, kvs[Start(lens, k)..Start(lens, k + 1)], dv, o);
  }

  /** The batched fallback. */
  method RunBatched(E: real -> real, qs: seq<Vec>, kvs: seq<KV>, lens: seq<nat>, scale: real, ghost dk: nat, dv: nat)
    returns (out: seq<Vec>)
    requires ExpLaw(E) && Shape(qs, |kvs|, dk) && KVShape(kvs, dk, dv) && |kvs| == Start(lens, |lens|)
    ensures |out| == |qs|
    ensures forall t :: 0 <= t < |qs| ==> BatchedRowFor(E, Scale(scale, qs[t]), kvs, lens, t, dv, out[t])
    ensures forall k :: 0 <= k < |lens| ==> SeesWhole(E, scale, qs, kvs, lens, k, dv, out)
  {
    hide ExpLaw, Mass, SdpaRow, BatchScores, Scale, SameSeq, BatchedRowFor, Start, IsSoftmax;
    var total := |qs|;
    var mask := BuildMask(lens, total);
    var rows := seq(total, i requires 0 <= i < total reads mask =>
      seq(total, j requires 0 <= j < total reads mask => mask[i, j]));
    forall t | 0 <= t < total
      ensures Mass(E, BatchScores(qs[t], kvs, scale, rows[t]), Fin(0.0), Ones(|kvs|)) != 0.0
      ensures BatchedRowFor(E, Scale(scale, qs[t]), kvs, lens, t, dv, SdpaRow(E, qs[t], kvs, scale, rows[t], dv))
    {
      BatchedRowCorrect(E, qs[t], kvs, scale, rows[t], lens, t, dv);
    }
    out := seq(total, t requires 0 <= t < total => SdpaRow(E, qs[t], kvs, scale, rows[t], dv));
    BatchedRowsMean(E, scale, qs, kvs, lens, dk, dv, out);
  }

  lemma BatchedRowsMean(E: real -> real, scale: real, qs: seq<Vec>, kvs: seq<KV>, lens: seq<nat>, dk: nat, dv: nat, out: seq<Vec>)
    requires ExpLaw(E) && Shape(qs, |kvs|, dk) && KVShape(kvs, dk, dv) && |kvs| == Start(lens, |lens|) && |out| == |qs|
    requires forall t :: 0 <= t < |qs| ==> BatchedRowFor(E, Scale(scale, qs[t]), kvs, lens, t, dv, out[t])
    ensures forall k :: 0 <= k < |lens| ==> SeesWhole(E, scale, qs, kvs, lens, k, dv, out)
  {
    hide ExpLaw, Scale, BatchedRowFor, Start, IsSoftmax;
    forall k | 0 <= k < |lens| ensures SeesWhole(E, scale, qs, kvs, lens, k, dv, out) {
      InsideAll(lens, k);
      forall t | Start(lens, k) <= t < Start(lens, k) + lens[k]
        ensures IsSoftmax(E, scale, qs[t], kvs[Start(lens, k)..Start(lens, k) + lens[k]], dv, out[t])
      {
        BatchedRowMeans(E, scale, qs[t], kvs, lens, k, t, dv, out[t]);
      }
    }
  }

  lemma InsideAll(lens: seq<nat>, k: nat)
    requires k < |lens|
    ensures Start(lens, k) + lens[k] <= Start(lens, |lens|)
  {
    hide Start;
    StartNext(lens, k);
    StartMonotone(lens, k + 1, |lens|);
  }

  // ---------------------------------------------------------------------
  // One sequence at a time
  // ---------------------------------------------------------------------

  /** The explicit causal mask of one sequence: zeros, then -inf filled in
      strictly above the diagonal. */
  function CausalMaskRow(n: nat, i: nat): (m: seq<Score>)
    ensures |m| == n
  {
    seq(n, j => if j > i then NegInf else Fin(0.0))
  }

  /** What the per-sequence fallback returns for token i of a sequence. */
  ghost predicate IsCausalRow(E: real -> real, q: Vec, kvs: seq<KV>, i: nat, dv: nat, o: Vec)
    requires ExpLaw(E) && KVShape(kvs, |q|, dv) && i < |kvs|
  {
    && |o| == dv
    && forall c :: 0 <= c < dv ==> o[c] == CausalAttention(E, q, kvs[..i + 1], dv, c)
  }

  lemma CausalRowCorrect(E: real -> real, q: Vec, kvs: seq<KV>, scale: real, i: nat, dv: nat)
    requires ExpLaw(E) && KVShape(kvs, |q|, dv) && i < |kvs|
    ensures Mass(E, BatchScores(q, kvs, scale, CausalMaskRow(|kvs|, i)), Fin(0.0), Ones(|kvs|)) != 0.0
    ensures IsCausalRow(E, Scale(scale, q), kvs, i, dv, SdpaRow(E, q, kvs, scale, CausalMaskRow(|kvs|, i), dv))
  {
    hide ExpLaw, Mass, Attend, Scale, Dot, AddMask, RawScore;
    var ss := BatchScores(q, kvs, scale, CausalMaskRow(|kvs|, i));
    MaskedScore();
    forall j | 0 <= j < |kvs| ensures ss[j] == if j > i then NegInf else Fin(Dot(Scale(scale, q), kvs[j].k)) {
      ScaledScore(q, kvs[j].k, scale);
      UnmaskedScore(RawScore(q, kvs[j].k, scale));
    }
    assert ss[..i + 1] == Scores(Scale(scale, q), kvs[..i + 1]);
    assert ss == ss[..i + 1] + ss[i + 1..];
    assert ss[..i + 1][0].Fin?;
    forall c | 0 <= c < dv
      ensures Mass(E, ss, Fin(0.0), Ones(|kvs|)) != 0.0
      ensures Attend(E, ss, Column(Values(kvs), c)) == CausalAttention(E, Scale(scale, q), kvs[..i + 1], dv, c)
    {
      var ys := Column(Values(kvs), c);
      assert ys == ys[..i + 1] + ys[i + 1..];
      assert ys[..i + 1] == Column(Values(kvs[..i + 1]), c);
      AttendMasked(E, ss[..i + 1], ss[i + 1..], ys[..i + 1], ys[i + 1..]);
    }
    assert ss[0].Fin?;
    MassNonNegative(E, ss, Fin(0.0));
  }

  /** Token t's per-sequence row, whichever sequence t belongs to. */
  ghost predicate CausalRowFor(E: real -> real, q: Vec, kvs: seq<KV>, lens: seq<nat>, t: nat, dv: nat, o: Vec)
    requires ExpLaw(E) && KVShape(kvs, |q|, dv)
  {
    forall k :: 0 <= k < |lens| && InSeq(lens, k, t) ==>
      && Start(lens, k + 1) <= |kvs|
      && IsCausalRow(E, q, kvs[Start(lens, k)..Start(lens, k + 1)], t - Start(lens, k), dv, o)
  }

  lemma CausalRowInSeq(E: real -> real, q: Vec, kvs: seq<KV>, lens: seq<nat>, n: nat, t: nat, dv: nat, o: Vec)
    requires ExpLaw(E) && KVShape(kvs, |q|, dv) && n < |lens| && InSeq(lens, n, t) && Start(lens, n + 1) <= |kvs|
    requires IsCausalRow(E, q, kvs[Start(lens, n)..Start(lens, n + 1)], t - Start(lens, n), dv, o)
    ensures CausalRowFor(E, q, kvs, lens, t, dv, o)
  {
    hide IsCausalRow, Start;
    forall k | 0 <= k < |lens| && InSeq(lens, k, t) ensures k == n {
      InOneSeq(lens, k, n, t);
    }
  }

  /** One sequence's rows. */
  method SequenceRows(E: real -> real, qs: seq<Vec>, keys: seq<KV>, scale: real, ghost dk: nat, dv: nat) returns (rows: seq<Vec>)
    requires ExpLaw(E) && Shape(qs, |keys|, dk) && KVShape(keys, dk, dv)
    ensures |rows| == |keys|
    ensures forall i :: 0 <= i < |keys| ==> IsCausalRow(E, Scale(scale, qs[i]), keys, i, dv, rows[i])
  {
    hide ExpLaw, Mass, SdpaRow, BatchScores, Scale, IsCausalRow, CausalMaskRow;
    var n := |keys|;
    forall i | 0 <= i < n
      ensures Mass(E, BatchScores(qs[i], keys, scale, CausalMaskRow(n, i)), Fin(0.0), Ones(n)) != 0.0
      ensures IsCausalRow(E, Scale(scale, qs[i]), keys, i, dv, SdpaRow(E, qs[i], keys, scale, CausalMaskRow(n, i), dv))
    {
      CausalRowCorrect(E, qs[i], keys, scale, i, dv);
    }
    rows := seq(n, i requires 0 <= i < n => SdpaRow(E, qs[i], keys, scale, CausalMaskRow(n, i), dv));
  }

  /** A token of sequence k sees its sequence up to itself. */
  lemma CausalRowMeans(E: real -> real, scale: real, q: Vec, kvs: seq<KV>, lens: seq<nat>, k: nat, t: nat, dv: nat, o: Vec)
    requires ExpLaw(E) && KVShape(kvs, |q|, dv) && k < |lens| && |kvs| == Start(lens, |lens|)
    requires Start(lens, k) <= t < Start(lens, k) + lens[k] && CausalRowFor(E, Scale(scale, q), kvs, lens, t, dv, o)
    ensures t < |kvs| && IsSoftmax(E, scale, q, kvs[Start(lens, k)..t + 1], dv, o)
  {
    hide ExpLaw, CausalAttention, IsSoftmax, Scale, Start;
    StartNext(lens, k);
    StartMonotone(lens, k + 1, |lens|);
    var a, b := Start(lens, k), Start(lens, k + 1);
    assert InSeq(lens, k, t);
    assert kvs[a..b][..t - a + 1] == kvs[a..t + 1];
    AttentionRowMeans(E, scale, q, kvs[a..t + 1], dv, o);
  }

  lemma CausalRowsMean(E: real -> real, scale: real, qs: seq<Vec>, kvs: seq<KV>, lens: seq<nat>, dk: nat, dv: nat, out: seq<Vec>)
    requires ExpLaw(E) && Shape(qs, |kvs|, dk) && KVShape(kvs, dk, dv) && |kvs| == Start(lens, |lens|) && |out| == |qs|
    requires forall t :: 0 <= t < |qs| ==> CausalRowFor(E, Scale(scale, qs[t]), kvs, lens, t, dv, out[t])
    ensures forall k :: 0 <= k < |lens| ==> SeesPrefix(E, scale, qs, kvs, lens, k, dv, out)
  {
    hide ExpLaw, Scale, CausalRowFor, Start, IsSoftmax;
    forall k | 0 <= k < |lens| ensures SeesPrefix(E, scale, qs, kvs, lens, k, dv, out) {
      InsideAll(lens, k);
      forall t | Start(lens, k) <= t < Start(lens, k) + lens[k]
        ensures IsSoftmax(E, scale, qs[t], kvs[Start(lens, k)..t + 1], dv, out[t])
      {
        CausalRowMeans(E, scale, qs[t], kvs, lens, k, t, dv, out[t]);
      }
    }
  }

  /** The per-sequence fallback: each sequence writes its own slice. */
  method RunSequential(E: real -> real, qs: seq<Vec>, kvs: seq<KV>, lens: seq<nat>, scale: real, ghost dk: nat, dv: nat)
    returns (output: array<Vec>)
    requires ExpLaw(E) && Shape(qs, |kvs|, dk) && KVShape(kvs, dk, dv) && |kvs| == Start(lens, |lens|)
    ensures fresh(output) && output.Length == |qs|
    ensures forall t :: 0 <= t < |qs| ==> CausalRowFor(E, Scale(scale, qs[t]), kvs, lens, t, dv, output[t])
    ensures forall k :: 0 <= k < |lens| ==> SeesPrefix(E, scale, qs, kvs, lens, k, dv, output[..])
  {
    hide ExpLaw, Scale, IsCausalRow, CausalRowFor, Start, IsSoftmax;
    output := new Vec[|qs|](_ => []);
    var start := 0;
    StartOfFirst(lens);
    for n := 0 to |lens|
      invariant start == Start(lens, n) <= |qs|
      invariant forall t :: 0 <= t < start ==> CausalRowFor(E, Scale(scale, qs[t]), kvs, lens, t, dv, output[t])
    {
      StartNext(lens, n);
      StartMonotone(lens, n + 1, |lens|);
      var end := start + lens[n];
      var rows := SequenceRows(E, qs[start..end], kvs[start..end], scale, dk, dv);
      forall i | 0 <= i < end - start {
        output[start + i] := rows[i];
      }
      forall t | start <= t < end ensures CausalRowFor(E, Scale(scale, qs[t]), kvs, lens, t, dv, output[t]) {
        assert qs[start..end][t - start] == qs[t];
        assert output[start + (t - start)] == rows[t - start];
        CausalRowInSeq(E, Scale(scale, qs[t]), kvs, lens, n, t, dv, output[t]);
      }
      start := end;
    }
    CausalRowsMean(E, scale, qs, kvs, lens, dk, dv, output[..]);
  }

  // ---------------------------------------------------------------------
  // When the two agree
  // ---------------------------------------------------------------------

  /** On one input, every token's batched row may serve as its causal row. */
  ghost predicate Agree(E: real -> real, qs: seq<Vec>, kvs: seq<KV>, lens: seq<nat>, dk: nat, dv: nat)
    requires ExpLaw(E) && Shape(qs, |kvs|, dk) && KVShape(kvs, dk, dv) && |kvs| == Start(lens, |lens|)
  {
    forall t, o :: 0 <= t < |qs| && BatchedRowFor(E, qs[t], kvs, lens, t, dv, o) ==> CausalRowFor(E, qs[t], kvs, lens, t, dv, o)
  }

  ghost predicate AlwaysAgree(E: real -> real, lens: seq<nat>)
    requires ExpLaw(E)
  {
    forall qs, kvs, dk, dv :: Shape(qs, |kvs|, dk) && KVShape(kvs, dk, dv) && |kvs| == Start(lens, |lens|) ==>
      Agree(E, qs, kvs, lens, dk, dv)
  }

  /** The batched fallback is causal attention on every input exactly when no
      sequence has two tokens: its mask lets a token see its successors. */
  lemma AgreeIffSingletons(E: real -> real, lens: seq<nat>)
    requires ExpLaw(E)
    ensures AlwaysAgree(E, lens) <==> forall k :: 0 <= k < |lens| ==> lens[k] <= 1
  {
    hide ExpLaw, Agree;
    if forall k :: 0 <= k < |lens| ==> lens[k] <= 1 {
      forall qs, kvs, dk, dv | Shape(qs, |kvs|, dk) && KVShape(kvs, dk, dv) && |kvs| == Start(lens, |lens|)
        ensures Agree(E, qs, kvs, lens, dk, dv)
      {
        SingletonsAgree(E, qs, kvs, lens, dk, dv);
      }
    } else {
      var k :| 0 <= k < |lens| && lens[k] >= 2;
      SuccessorIsSeen(E, lens, k);
    }
  }

  lemma SingletonsAgree(E: real -> real, qs: seq<Vec>, kvs: seq<KV>, lens: seq<nat>, dk: nat, dv: nat)
    requires ExpLaw(E) && Shape(qs, |kvs|, dk) && KVShape(kvs, dk, dv) && |kvs| == Start(lens, |lens|)
    requires forall k :: 0 <= k < |lens| ==> lens[k] <= 1
    ensures Agree(E, qs, kvs, lens, dk, dv)
  {
    hide ExpLaw, CausalAttention, Start;
    forall t, o | 0 <= t < |qs| && BatchedRowFor(E, qs[t], kvs, lens, t, dv, o)
      ensures CausalRowFor(E, qs[t], kvs, lens, t, dv, o)
    {
      forall k | 0 <= k < |lens| && InSeq(lens, k, t)
        ensures Start(lens, k + 1) <= |kvs|
        ensures IsCausalRow(E, qs[t], kvs[Start(lens, k)..Start(lens, k + 1)], t - Start(lens, k), dv, o)
      {
        StartNext(lens, k);
        assert IsBatchedRow(E, qs[t], kvs, lens, k, dv, o);
        var own := kvs[Start(lens, k)..Start(lens, k + 1)];
        assert own[..1] == own;
      }
    }
  }

  /** A concrete input on which they differ: zero queries and keys, and the value
      1 only at the second token of a sequence. The first token's causal output
      is 0; its batched output is not. */
  lemma SuccessorIsSeen(E: real -> real, lens: seq<nat>, k: nat)
    requires ExpLaw(E) && k < |lens| && lens[k] >= 2
    ensures !AlwaysAgree(E, lens)
  {
    hide ExpLaw, CausalAttention, Start, AlwaysAgree;
    var total, a, b := Start(lens, |lens|), Start(lens, k), Start(lens, k + 1);
    StartNext(lens, k);
    StartMonotone(lens, k + 1, |lens|);
    var qs: seq<Vec> := seq(total, _ => [0.0]);
    var kvs := OneHotKv(total, a + 1);
    SliceShape(kvs, 1, 1, a, b);
    var x := CausalAttention(E, [0.0], kvs[a..b], 1, 0);
    assert BatchedRowFor(E, qs[a], kvs, lens, a, 1, [x]) by {
      forall j | 0 <= j < |lens| && InSeq(lens, j, a) ensures j == k {
        InOneSeq(lens, j, k, a);
      }
    }
    SeesHot(E, kvs[a..b], 1);
    if CausalRowFor(E, qs[a], kvs, lens, a, 1, [x]) {
      SeesNothing(E, kvs[a..b][..1]);
      FirstTokenRow(E, qs[a], kvs, lens, k, [x]);
      assert false;
    }
    assert !Agree(E, qs, kvs, lens, 1, 1);
    Disagreement(E, qs, kvs, lens, 1, 1);
  }

  lemma FirstTokenRow(E: real -> real, q: Vec, kvs: seq<KV>, lens: seq<nat>, k: nat, o: Vec)
    requires ExpLaw(E) && KVShape(kvs, |q|, 1) && k < |lens| && Start(lens, k) < Start(lens, k + 1)
    requires CausalRowFor(E, q, kvs, lens, Start(lens, k), 1, o)
    ensures Start(lens, k + 1) <= |kvs| && |o| == 1
    ensures o[0] == CausalAttention(E, q, kvs[Start(lens, k)..Start(lens, k + 1)][..1], 1, 0)
  {
    hide ExpLaw, CausalAttention, Start;
    assert InSeq(lens, k, Start(lens, k));
  }

  lemma Disagreement(E: real -> real, qs: seq<Vec>, kvs: seq<KV>, lens: seq<nat>, dk: nat, dv: nat)
    requires ExpLaw(E) && Shape(qs, |kvs|, dk) && KVShape(kvs, dk, dv) && |kvs| == Start(lens, |lens|)
    requires !Agree(E, qs, kvs, lens, dk, dv)
    ensures !AlwaysAgree(E, lens)
  {
    hide ExpLaw, Agree, Start;
  }
}
