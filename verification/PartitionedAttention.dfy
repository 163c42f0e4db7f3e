/** The two-phase decode kernels (paged_attention_v2_triton.py) for one sequence
    and one query head: each partition of the sequence is reduced to a
    normalised output with its maximum and sum, then the partitions are merged. */
module PartitionedAttention {
  import opened Vectors
  import opened Exponential
  import opened Arithmetic
  import opened Softmax
  import opened PagedCache
  import opened PrefixAttention

  const GUARD: real := 0.000001

  function MaxReal(a: real, b: real): real { if a >= b then a else b }

  /** The compound accumulator; acc is already divided by l. */
  datatype Part = Part(m: Score, l: real, acc: Vec)

  function EmptyPart(d: nat): Part {
    Part(NegInf, 0.0, Zeros(d))
  }

  /** One turn of the kernel's inner loop over a block of lanes. */
  function PartStep(E: real -> real, part: Part, lanes: seq<Score>, vs: seq<Vec>): (r: Part)
    requires Top(lanes).Fin? && Shape(vs, |lanes|, |part.acc|)
    ensures |r.acc| == |part.acc|
  {
    var mij := Top(lanes);
    var p := Exps(E, lanes, mij);
    var lij := Dot(p, Ones(|lanes|));
    var mNew := MaxScore(part.m, mij);
    var alpha := ExpDiff(E, part.m, mNew);
    var beta := ExpDiff(E, mij, mNew);
    var lNew := MulAdd(alpha, part.l, beta * lij);
    var safe := MaxReal(lNew, GUARD);
    Part(mNew, lNew, Blend(Ratio(alpha, part.l, safe), part.acc, Ratio(beta, 1.0, safe), p, vs))
  }

  function Ratio(a: real, l: real, safe: real): real
    requires safe > 0.0
  {
    a * l / safe
  }

  /** The old output scaled by a plus the block's values weighted by b * p. */
  function Blend(a: real, acc: Vec, b: real, p: Vec, vs: seq<Vec>): (r: Vec)
    requires Shape(vs, |p|, |acc|)
    ensures |r| == |acc|
  {
    Add(Scale(a, acc), LinComb(Scale(b, p), vs, |acc|))
  }

  lemma BlendAt(a: real, acc: Vec, b: real, p: Vec, vs: seq<Vec>, c: nat)
    requires Shape(vs, |p|, |acc|) && c < |acc|
    ensures Blend(a, acc, b, p, vs)[c] == a * acc[c] + b * Dot(p, Column(vs, c))
  {
    hide Dot, LinComb, Scale, Column, Add;
    AddAt(Scale(a, acc), LinComb(Scale(b, p), vs, |acc|), c);
    LinCombAt(Scale(b, p), vs, |acc|, c);
    DotScaleLeft(b, p, Column(vs, c));
    ScaleAt(a, acc, c);
  }

  /** The accumulator stands for the scores ss with values vs. */
  ghost predicate Normalised(E: real -> real, part: Part, ss: seq<Score>, vs: seq<Vec>) {
    && Shape(vs, |ss|, |part.acc|)
    && part.m == Top(ss)
    && (part.m.NegInf? ==> part == EmptyPart(|part.acc|))
    && (part.m.Fin? ==>
          && part.l == Mass(E, ss, part.m, Ones(|ss|))
          && forall c :: 0 <= c < |part.acc| ==> part.acc[c] * part.l == Mass(E, ss, part.m, Column(vs, c)))
  }

  lemma StepSum(E: real -> real, part: Part, ss: seq<Score>, vs: seq<Vec>, lanes: seq<Score>, lv: seq<Vec>)
    requires ExpLaw(E) && Normalised(E, part, ss, vs)
    requires Top(lanes).Fin? && Shape(lv, |lanes|, |part.acc|)
    ensures var r := PartStep(E, part, lanes, lv);
      && r.m == Top(ss + lanes) && r.m.Fin?
      && r.l == Mass(E, ss + lanes, r.m, Ones(|ss + lanes|))
      && r.l >= 1.0
  {
    hide ExpLaw, Mass, Dot, Exps, LinComb, Scale, Top, ExpDiff;
    var r := PartStep(E, part, lanes, lv);
    TopConcat(ss, lanes);
    TopFinite(ss + lanes);
    assert Ones(|ss + lanes|) == Ones(|ss|) + Ones(|lanes|);
    MassConcat(E, ss, lanes, r.m, Ones(|ss|), Ones(|lanes|));
    OldRescaled(E, part.m, part.l, ss, Ones(|ss|), r.m);
    LanesRescaled(E, lanes, Ones(|lanes|), r.m);
    MassNonNegative(E, ss + lanes, r.m);
  }

  /** The block's own sum, moved from its own maximum to the new one. */
  lemma LanesRescaled(E: real -> real, lanes: seq<Score>, ys: Vec, m: Score)
    requires ExpLaw(E) && |lanes| == |ys| && Top(lanes).Fin? && m.Fin?
    ensures ExpDiff(E, Top(lanes), m) * Dot(Exps(E, lanes, Top(lanes)), ys) == Mass(E, lanes, m, ys)
  {
    hide ExpLaw, Mass, Dot, Exps, Top;
    DotExps(E, lanes, Top(lanes), ys);
    MassShift(E, lanes, Top(lanes), m, ys);
  }

  lemma StepOutput(E: real -> real, part: Part, ss: seq<Score>, vs: seq<Vec>, lanes: seq<Score>, lv: seq<Vec>, c: nat)
    requires ExpLaw(E) && Normalised(E, part, ss, vs)
    requires Top(lanes).Fin? && Shape(lv, |lanes|, |part.acc|) && c < |part.acc|
    ensures var r := PartStep(E, part, lanes, lv);
      r.m.Fin? && r.acc[c] * r.l == Mass(E, ss + lanes, r.m, Column(vs + lv, c))
  {
    hide ExpLaw, Mass, Dot, Exps, PartStep, Top, ExpDiff, Ratio, Blend;
    var r := PartStep(E, part, lanes, lv);
    StepSum(E, part, ss, vs, lanes, lv);
    StepAcc(E, part, lanes, lv);
    var alpha, beta := ExpDiff(E, part.m, r.m), ExpDiff(E, Top(lanes), r.m);
    var p := Exps(E, lanes, Top(lanes));
    BlendAt(Ratio(alpha, part.l, r.l), part.acc, Ratio(beta, 1.0, r.l), p, lv, c);
    assert Column(vs + lv, c) == Column(vs, c) + Column(lv, c);
    MassConcat(E, ss, lanes, r.m, Column(vs, c), Column(lv, c));
    LanesRescaled(E, lanes, Column(lv, c), r.m);
    OldRescaled(E, part.m, if part.m.Fin? then part.acc[c] * part.l else 0.0, ss, Column(vs, c), r.m);
    NormaliseArith(alpha, part.l, part.acc[c], beta, Dot(p, Column(lv, c)), r.l, r.acc[c]);
  }

  lemma NormaliseArith(alpha: real, l: real, acc: real, beta: real, read: real, lNew: real, accNew: real)
    requires lNew >= 1.0
    requires accNew == Ratio(alpha, l, lNew) * acc + Ratio(beta, 1.0, lNew) * read
    ensures accNew * lNew == alpha * (acc * l) + beta * read
  {
    var x, y := Ratio(alpha, l, lNew), Ratio(beta, 1.0, lNew);
    assert x * lNew == alpha * l;
    assert y * lNew == beta;
    assert accNew * lNew == (x * lNew) * acc + (y * lNew) * read;
  }

  /** The guard on the divisor does nothing: the new sum is at least one. */
  lemma StepAcc(E: real -> real, part: Part, lanes: seq<Score>, lv: seq<Vec>)
    requires Top(lanes).Fin? && Shape(lv, |lanes|, |part.acc|)
    requires PartStep(E, part, lanes, lv).l >= 1.0
    ensures var r := PartStep(E, part, lanes, lv);
      && r.m == MaxScore(part.m, Top(lanes)) && r.m.Fin?
      && r.acc == Blend(Ratio(ExpDiff(E, part.m, r.m), part.l, r.l), part.acc,
                        Ratio(ExpDiff(E, Top(lanes), r.m), 1.0, r.l), Exps(E, lanes, Top(lanes)), lv)
  {
    hide Dot, Exps, Top, ExpDiff, Ratio, Blend, MulAdd;
  }

  lemma ShapeConcat(a: seq<Vec>, b: seq<Vec>, n: nat)
    requires Shape(a, |a|, n) && Shape(b, |b|, n)
    ensures Shape(a + b, |a + b|, n)
  {
  }

  lemma StepNormalised(E: real -> real, part: Part, ss: seq<Score>, vs: seq<Vec>, lanes: seq<Score>, lv: seq<Vec>)
    requires ExpLaw(E) && Normalised(E, part, ss, vs)
    requires Top(lanes).Fin? && Shape(lv, |lanes|, |part.acc|)
    ensures Normalised(E, PartStep(E, part, lanes, lv), ss + lanes, vs + lv)
    ensures PartStep(E, part, lanes, lv).l >= 1.0
  {
    hide ExpLaw, Mass, PartStep, Top, Column;
    ShapeConcat(vs, lv, |part.acc|);
    StepSum(E, part, ss, vs, lanes, lv);
    forall c | 0 <= c < |part.acc|
      ensures PartStep(E, part, lanes, lv).acc[c] * PartStep(E, part, lanes, lv).l
              == Mass(E, ss + lanes, PartStep(E, part, lanes, lv).m, Column(vs + lv, c))
    {
      StepOutput(E, part, ss, vs, lanes, lv, c);
    }
  }

  // ---------------------------------------------------------------------
  // Phase 1: one partition
  // ---------------------------------------------------------------------

  lemma DropMasked(E: real -> real, part: Part, ss: seq<Score>, vs: seq<Vec>, masked: seq<Score>, mv: seq<Vec>)
    requires |ss| == |vs| && |masked| == |mv| && !HasFinite(masked)
    requires Normalised(E, part, ss + masked, vs + mv)
    ensures Normalised(E, part, ss, vs)
  {
    hide Mass, Top;
    TopConcat(ss, masked);
    TopFinite(masked);
    forall i | 0 <= i < |vs| ensures |vs[i]| == |part.acc| {
      assert (vs + mv)[i] == vs[i];
    }
    forall i | 0 <= i < |mv| ensures |mv[i]| == |part.acc| {
      assert (vs + mv)[|vs| + i] == mv[i];
    }
    if part.m.Fin? {
      assert Ones(|ss + masked|) == Ones(|ss|) + Ones(|masked|);
      MassConcat(E, ss, masked, part.m, Ones(|ss|), Ones(|masked|));
      MassMasked(E, masked, part.m, Ones(|masked|));
      forall c | 0 <= c < |part.acc| ensures part.acc[c] * part.l == Mass(E, ss, part.m, Column(vs, c)) {
        assert Column(vs + mv, c) == Column(vs, c) + Column(mv, c);
        MassConcat(E, ss, masked, part.m, Column(vs, c), Column(mv, c));
        MassMasked(E, masked, part.m, Column(mv, c));
      }
    }
  }

  /** The paged read of one token. */
  function TokenAt(cache: seq<seq<KV>>, table: seq<nat>, blockSize: nat, t: nat): KV
    requires blockSize > 0
    requires BlockOf(t, blockSize) < |table| && table[BlockOf(t, blockSize)] < |cache|
    requires OffsetOf(t, blockSize) < |cache[table[BlockOf(t, blockSize)]]|
  {
    cache[table[BlockOf(t, blockSize)]][OffsetOf(t, blockSize)]
  }

  lemma TokenAtHeld(cache: seq<seq<KV>>, table: seq<nat>, cached: seq<KV>, blockSize: nat, t: nat)
    requires blockSize > 0 && CacheHolds(cache, table, cached, blockSize) && t < |cached|
    ensures BlockOf(t, blockSize) < |table| && table[BlockOf(t, blockSize)] < |cache|
    ensures OffsetOf(t, blockSize) < |cache[table[BlockOf(t, blockSize)]]|
    ensures TokenAt(cache, table, blockSize, t) == cached[t]
  {
    hide BlockOf, OffsetOf;
    assert HeldAt(cache, table, cached, blockSize, t);
  }

  /** One block of lanes: tokens at and beyond the partition's end are masked. */
  method LoadLanes(q: Vec, cache: seq<seq<KV>>, table: seq<nat>, blockSize: nat, start: nat, partEnd: nat, blockN: nat,
                   scale: real, dv: nat, ghost cached: seq<KV>)
    returns (scores: seq<Score>, vs: seq<Vec>)
    requires blockSize > 0 && CacheHolds(cache, table, cached, blockSize) && KVShape(cached, |q|, dv)
    requires start < partEnd <= |cached| && blockN > 0
    ensures var end := Min(start + blockN, partEnd);
      && |scores| == |vs| == blockN && end - start <= blockN
      && scores[..end - start] == Scores(Scale(scale, q), cached[start..end])
      && vs[..end - start] == Values(cached[start..end])
      && !HasFinite(scores[end - start..]) && Shape(vs, blockN, dv)
  {
    hide Dot, Scale, CacheHolds, BlockOf, OffsetOf, RawScore;
    forall t | 0 <= t < |cached|
      ensures BlockOf(t, blockSize) < |table| && table[BlockOf(t, blockSize)] < |cache|
      ensures OffsetOf(t, blockSize) < |cache[table[BlockOf(t, blockSize)]]|
      ensures TokenAt(cache, table, blockSize, t) == cached[t]
    {
      TokenAtHeld(cache, table, cached, blockSize, t);
    }
    ghost var end := Min(start + blockN, partEnd);
    scores := seq(blockN, i requires 0 <= i < blockN =>
      if start + i < partEnd then Fin(RawScore(q, TokenAt(cache, table, blockSize, start + i).k, scale)) else NegInf);
    vs := seq(blockN, i requires 0 <= i < blockN =>
      if start + i < partEnd then TokenAt(cache, table, blockSize, start + i).v else Zeros(dv));
    forall i | 0 <= i < blockN ensures |vs[i]| == dv {
      if start + i < partEnd {
        assert vs[i] == cached[start + i].v;
      } else {
        assert vs[i] == Zeros(dv);
      }
    }
    forall i | 0 <= i < end - start
      ensures scores[..end - start][i] == Scores(Scale(scale, q), cached[start..end])[i]
      ensures vs[..end - start][i] == Values(cached[start..end])[i]
    {
      assert cached[start..end][i] == cached[start + i];
      ScaledScore(q, cached[start + i].k, scale);
    }
  }

  /** Where partition p of a sequence of n tokens starts. */
  function Cut(p: nat, size: nat, n: nat): (c: nat)
    ensures c <= n
  {
    Min(p * size, n)
  }

  lemma CutNext(p: nat, size: nat, n: nat)
    ensures Cut(p, size, n) <= Cut(p + 1, size, n)
    ensures p * size < n ==> Cut(p, size, n) == p * size && Cut(p + 1, size, n) == Min(p * size + size, n)
    ensures p * size < n && size > 0 ==> Cut(p, size, n) < Cut(p + 1, size, n)
  {
    assert (p + 1) * size == p * size + size;
  }

  /** What phase 1 leaves for partition p: its tokens' summary, normalised. */
  ghost predicate PartHolds(E: real -> real, q: Vec, cached: seq<KV>, size: nat, p: nat, m: Score, l: real, out: Vec)
    requires KVShape(cached, |q|, |out|)
  {
    CutNext(p, size, |cached|);
    var slice := cached[Cut(p, size, |cached|)..Cut(p + 1, size, |cached|)];
    && m.Fin? && l >= 1.0
    && Normalised(E, Part(m, l, out), Scores(q, slice), Values(slice))
  }

  /** The inner loop of phase 1 over a non-empty partition. */
  method ReducePartition(E: real -> real, q: Vec, cache: seq<seq<KV>>, table: seq<nat>, blockSize: nat,
                         partStart: nat, partEnd: nat, blockN: nat, scale: real, dv: nat, ghost cached: seq<KV>)
    returns (acc: Part)
    requires ExpLaw(E) && blockSize > 0 && blockN > 0
    requires CacheHolds(cache, table, cached, blockSize) && KVShape(cached, |q|, dv)
    requires partStart < partEnd <= |cached|
    ensures |acc.acc| == dv && acc.m.Fin? && acc.l >= 1.0
    ensures Normalised(E, acc, Scores(Scale(scale, q), cached[partStart..partEnd]), Values(cached[partStart..partEnd]))
  {
    hide ExpLaw, CacheHolds, Mass, PartStep, Normalised, Scale, Scores, Values;
    ghost var sq := Scale(scale, q);
    acc := EmptyPart(dv);
    var startN := partStart;
    NothingSummarised(E, sq, dv);
    ghost var slice := cached[partStart..partStart];
    assert slice == [] && KVShape(slice, |q|, dv) by { SliceShape(cached, |q|, dv, partStart, partStart); }
    while startN < partEnd
      invariant partStart <= startN && |acc.acc| == dv
      invariant startN > partStart ==> acc.l >= 1.0
      invariant slice == cached[partStart..Min(startN, partEnd)] && KVShape(slice, |q|, dv)
      invariant Normalised(E, acc, Scores(sq, slice), Values(slice))
      decreases partEnd - startN
    {
      var scores, vs := LoadLanes(q, cache, table, blockSize, startN, partEnd, blockN, scale, dv, cached);
      acc := AddLanes(E, sq, acc, cached, partStart, startN, Min(startN + blockN, partEnd), scores, vs);
      startN := startN + blockN;
      slice := cached[partStart..Min(startN, partEnd)];
      SliceShape(cached, |q|, dv, partStart, Min(startN, partEnd));
    }
    AccumulatorFinite(E, acc, sq, cached[partStart..partEnd]);
  }

  /** One program of the phase-1 grid. */
  method PartitionKernel(E: real -> real, q: Vec, cache: seq<seq<KV>>, table: seq<nat>, seqLen: nat, blockSize: nat,
                         part: nat, size: nat, blockN: nat, scale: real, dv: nat, ghost cached: seq<KV>,
                         maxLogits: array<Score>, expSums: array<real>, tmpOutput: array<Vec>)
    requires ExpLaw(E) && blockSize > 0 && size > 0 && blockN > 0
    requires CacheHolds(cache, table, cached, blockSize) && KVShape(cached, |q|, dv) && |cached| == seqLen
    requires maxLogits.Length == expSums.Length == tmpOutput.Length && part < maxLogits.Length
    modifies maxLogits, expSums, tmpOutput
    ensures forall p :: 0 <= p < maxLogits.Length && p != part ==> maxLogits[p] == old(maxLogits[p])
    ensures forall p :: 0 <= p < expSums.Length && p != part ==> expSums[p] == old(expSums[p])
    ensures forall p :: 0 <= p < tmpOutput.Length && p != part ==> tmpOutput[p] == old(tmpOutput[p])
    ensures part * size >= seqLen ==> maxLogits[part] == NegInf && expSums[part] == 0.0
    ensures part * size < seqLen ==> |tmpOutput[part]| == dv
    ensures part * size < seqLen ==>
      PartHolds(E, Scale(scale, q), cached, size, part, maxLogits[part], expSums[part], tmpOutput[part])
  {
    hide ExpLaw, CacheHolds, Mass, PartStep, Normalised, Scale, Scores, Values, Cut;
    var partStart := part * size;
    var partEnd := Min(partStart + size, seqLen);
    if partStart >= seqLen {
      maxLogits[part] := NegInf;
      expSums[part] := 0.0;
      return;
    }
    var acc := ReducePartition(E, q, cache, table, blockSize, partStart, partEnd, blockN, scale, dv, cached);
    CutNext(part, size, seqLen);
    maxLogits[part], expSums[part], tmpOutput[part] := acc.m, acc.l, acc.acc;
  }

  lemma NothingSummarised(E: real -> real, q: Vec, dv: nat)
    ensures Normalised(E, EmptyPart(dv), Scores(q, []), Values([]))
  {
  }

  lemma AccumulatorFinite(E: real -> real, acc: Part, q: Vec, slice: seq<KV>)
    requires |slice| > 0 && KVShape(slice, |q|, |acc.acc|) && Normalised(E, acc, Scores(q, slice), Values(slice))
    ensures acc.m.Fin?
  {
    hide Mass, Top, Dot;
    TopFinite(Scores(q, slice));
    assert Scores(q, slice)[0].Fin?;
  }

  /** One turn of the inner loop: the block's unmasked tokens join the summary. */
  method AddLanes(E: real -> real, ghost q: Vec, acc: Part, ghost cached: seq<KV>, ghost from: nat, ghost start: nat,
                  ghost end: nat, scores: seq<Score>, vs: seq<Vec>)
    returns (next: Part)
    requires ExpLaw(E) && from <= start < end <= |cached| && KVShape(cached, |q|, |acc.acc|)
    requires Normalised(E, acc, Scores(q, cached[from..start]), Values(cached[from..start]))
    requires |scores| == |vs| >= end - start && Shape(vs, |vs|, |acc.acc|)
    requires scores[..end - start] == Scores(q, cached[start..end]) && vs[..end - start] == Values(cached[start..end])
    requires !HasFinite(scores[end - start..])
    ensures |next.acc| == |acc.acc| && next.l >= 1.0
    ensures Normalised(E, next, Scores(q, cached[from..end]), Values(cached[from..end]))
  {
    hide ExpLaw, Mass, PartStep, Normalised, Dot, Top;
    TopFinite(scores);
    assert scores[0] == scores[..end - start][0];
    next := PartStep(E, acc, scores, vs);
    ghost var ss, ws := Scores(q, cached[from..start]), Values(cached[from..start]);
    StepNormalised(E, acc, ss, ws, scores, vs);
    assert ss + scores == Scores(q, cached[from..end]) + scores[end - start..] by {
      assert cached[from..end] == cached[from..start] + cached[start..end];
      assert scores == scores[..end - start] + scores[end - start..];
    }
    assert ws + vs == Values(cached[from..end]) + vs[end - start..] by {
      assert cached[from..end] == cached[from..start] + cached[start..end];
      assert vs == vs[..end - start] + vs[end - start..];
    }
    DropMasked(E, next, Scores(q, cached[from..end]), Values(cached[from..end]), scores[end - start..], vs[end - start..]);
  }

  // ---------------------------------------------------------------------
  // Phase 2: merging the partitions
  // ---------------------------------------------------------------------

  /** Every partition below count holds its summary. */
  ghost predicate PartsHold(E: real -> real, q: Vec, cached: seq<KV>, size: nat, dv: nat, count: nat,
                            ms: seq<Score>, ls: seq<real>, outs: seq<Vec>)
    requires KVShape(cached, |q|, dv)
  {
    && |ms| == |ls| == |outs| && count <= |ms|
    && forall p :: 0 <= p < count ==> |outs[p]| == dv && PartHolds(E, q, cached, size, p, ms[p], ls[p], outs[p])
  }

  /** The lanes the merge kernel loads: partitions beyond num are masked. */
  function PartLanes(ms: seq<Score>, num: nat, cap: nat): (r: seq<Score>)
    requires Min(num, cap) <= |ms|
    ensures |r| == cap
  {
    seq(cap, p requires 0 <= p < cap => if p < num then ms[p] else NegInf)
  }

  function Rescaled(E: real -> real, ms: seq<Score>, ls: seq<real>, num: nat, cap: nat, g: Score): (r: Vec)
    requires Min(num, cap) <= |ms| == |ls| && g.Fin?
    ensures |r| == cap
  {
    seq(cap, p requires 0 <= p < cap => if p < num then Weigh(E, ms[p], g, ls[p]) else 0.0)
  }

  function Weigh(E: real -> real, m: Score, g: Score, l: real): real
    requires g.Fin?
  {
    ExpDiff(E, m, g) * l
  }

  /** The maximum over the first k lanes is the maximum over the tokens of the
      first k partitions. */
  lemma {:induction false} LanesTop(E: real -> real, q: Vec, cached: seq<KV>, size: nat, dv: nat, num: nat, k: nat,
                                    ms: seq<Score>, ls: seq<real>, outs: seq<Vec>)
    requires KVShape(cached, |q|, dv) && PartsHold(E, q, cached, size, dv, num, ms, ls, outs) && k <= num
    ensures Top(ms[..k]) == Top(Scores(q, cached[..Cut(k, size, |cached|)]))
  {
    hide Mass, Dot, Cut, Top;
    if k == 0 {
      assert cached[..Cut(0, size, |cached|)] == [] by { CutZero(size, |cached|); }
      assert ms[..0] == [] && Scores(q, []) == [];
    } else {
      LanesTop(E, q, cached, size, dv, num, k - 1, ms, ls, outs);
      SplitAtCut(q, cached, size, k - 1);
      var before, slice := cached[..Cut(k - 1, size, |cached|)], cached[Cut(k - 1, size, |cached|)..Cut(k, size, |cached|)];
      assert ms[..k] == ms[..k - 1] + [ms[k - 1]];
      TopConcat(ms[..k - 1], [ms[k - 1]]);
      TopConcat(Scores(q, before), Scores(q, slice));
      TopOne(ms[k - 1]);
      CutNext(k - 1, size, |cached|);
      assert PartHolds(E, q, cached, size, k - 1, ms[k - 1], ls[k - 1], outs[k - 1]);
    }
  }

  lemma CutZero(size: nat, n: nat)
    ensures Cut(0, size, n) == 0
  {
  }

  lemma TopOne(s: Score)
    ensures Top([s]) == s
  {
    assert [s][..0] == [];
  }

  lemma SplitAtCut(q: Vec, cached: seq<KV>, size: nat, p: nat)
    requires KeyShape(cached, |q|)
    ensures var a, b := Cut(p, size, |cached|), Cut(p + 1, size, |cached|);
      && a <= b
      && Scores(q, cached[..b]) == Scores(q, cached[..a]) + Scores(q, cached[a..b])
      && Values(cached[..b]) == Values(cached[..a]) + Values(cached[a..b])
  {
    hide Dot, Cut;
    CutNext(p, size, |cached|);
    var a, b := Cut(p, size, |cached|), Cut(p + 1, size, |cached|);
    assert cached[..b] == cached[..a] + cached[a..b];
  }

  /** One partition's contribution, moved to the global reference point. */
  lemma PartContribution(E: real -> real, q: Vec, cached: seq<KV>, size: nat, p: nat, m: Score, l: real, out: Vec, g: Score)
    requires ExpLaw(E) && KVShape(cached, |q|, |out|) && PartHolds(E, q, cached, size, p, m, l, out) && g.Fin?
    requires Cut(p, size, |cached|) <= Cut(p + 1, size, |cached|)
    ensures var slice := cached[Cut(p, size, |cached|)..Cut(p + 1, size, |cached|)];
      && Weigh(E, m, g, l) == Mass(E, Scores(q, slice), g, Ones(|slice|))
      && forall c :: 0 <= c < |out| ==> Weigh(E, m, g, l) * out[c] == Mass(E, Scores(q, slice), g, Column(Values(slice), c))
  {
    hide ExpLaw, Mass, Dot, Cut, Top, Scores, Values;
    var slice := cached[Cut(p, size, |cached|)..Cut(p + 1, size, |cached|)];
    var ss := Scores(q, slice);
    MassShift(E, ss, m, g, Ones(|slice|));
    forall c | 0 <= c < |out| ensures Weigh(E, m, g, l) * out[c] == Mass(E, ss, g, Column(Values(slice), c)) {
      MassShift(E, ss, m, g, Column(Values(slice), c));
      WeighArith(ExpDiff(E, m, g), l, out[c], Mass(E, ss, m, Column(Values(slice), c)));
    }
  }

  lemma WeighArith(e: real, l: real, o: real, mass: real)
    requires o * l == mass
    ensures e * l * o == e * mass
  {
    assert e * l * o == e * (o * l);
  }

  /** The sum of the first k rescaled lanes is the mass of their tokens. */
  lemma {:induction false} LanesSum(E: real -> real, q: Vec, cached: seq<KV>, size: nat, dv: nat, num: nat, cap: nat, k: nat,
                                    ms: seq<Score>, ls: seq<real>, outs: seq<Vec>, g: Score)
    requires ExpLaw(E) && KVShape(cached, |q|, dv) && PartsHold(E, q, cached, size, dv, Min(num, cap), ms, ls, outs)
    requires k <= Min(num, cap) && g.Fin?
    ensures var seen := cached[..Cut(k, size, |cached|)];
      Dot(Rescaled(E, ms, ls, num, cap, g)[..k], Ones(k)) == Mass(E, Scores(q, seen), g, Ones(|seen|))
  {
    hide ExpLaw, Mass, Dot, Cut, Weigh, Scores, Values, PartHolds;
    var r := Rescaled(E, ms, ls, num, cap, g);
    if k == 0 {
      CutZero(size, |cached|);
      assert cached[..Cut(0, size, |cached|)] == [] && r[..0] == [] && Ones(0) == [];
      EmptySums(E, q, g);
    } else {
      LanesSum(E, q, cached, size, dv, num, cap, k - 1, ms, ls, outs, g);
      SplitAtCut(q, cached, size, k - 1);
      var a, b := Cut(k - 1, size, |cached|), Cut(k, size, |cached|);
      PartContribution(E, q, cached, size, k - 1, ms[k - 1], ls[k - 1], outs[k - 1], g);
      MassConcat(E, Scores(q, cached[..a]), Scores(q, cached[a..b]), g, Ones(a), Ones(b - a));
      assert Ones(b) == Ones(a) + Ones(b - a);
      assert r[..k][..k - 1] == r[..k - 1] && Ones(k)[..k - 1] == Ones(k - 1);
      DotLast(r[..k], Ones(k));
    }
  }

  lemma EmptySums(E: real -> real, q: Vec, g: Score)
    requires g.Fin?
    ensures Dot([], []) == 0.0 && Mass(E, Scores(q, []), g, []) == 0.0
  {
  }

  function PartCount(n: nat, size: nat): nat
    requires size > 0
  {
    (n + size - 1) / size
  }

  /** Partitions below the count are non-empty and together cover the sequence. */
  lemma PartCountFacts(n: nat, size: nat, p: nat)
    requires size > 0
    ensures p < PartCount(n, size) <==> p * size < n
    ensures p >= PartCount(n, size) ==> Cut(p, size, n) == n
  {
    var num := PartCount(n, size);
    assert num * size >= n;
    assert num * size <= n + size - 1;
    if p < num {
      MulOrder(p + 1, num, size);
    } else {
      MulOrder(num, p, size);
    }
  }

  /** The tokens the merge covers: all of them unless the partitions outnumber
      the lanes. */
  lemma Covered(n: nat, size: nat, cap: nat)
    requires size > 0
    ensures Cut(Min(PartCount(n, size), cap), size, n) == Cut(cap, size, n)
    ensures PartCount(n, size) <= cap ==> Cut(cap, size, n) == n
  {
    hide PartCount, Cut;
    PartCountFacts(n, size, cap);
    PartCountFacts(n, size, PartCount(n, size));
  }

  lemma {:induction false} TopPadded(ms: seq<Score>, num: nat, cap: nat, k: nat)
    requires Min(num, cap) <= |ms| && Min(num, cap) <= k <= cap
    ensures Top(PartLanes(ms, num, cap)[..k]) == Top(ms[..Min(num, cap)])
  {
    var lanes := PartLanes(ms, num, cap);
    if k == Min(num, cap) {
      assert lanes[..k] == ms[..k];
    } else {
      TopPadded(ms, num, cap, k - 1);
      assert lanes[..k][..k - 1] == lanes[..k - 1];
    }
  }

  lemma {:induction false} SumPadded(r: Vec, count: nat, k: nat)
    requires count <= k <= |r| && forall p :: count <= p < |r| ==> r[p] == 0.0
    ensures Dot(r[..k], Ones(k)) == Dot(r[..count], Ones(count))
  {
    if k > count {
      SumPadded(r, count, k - 1);
      assert r[..k][..k - 1] == r[..k - 1] && Ones(k)[..k - 1] == Ones(k - 1);
    }
  }

  /** The merged total: the sum over the covered tokens, relative to the global
      maximum, and so at least one. */
  lemma MergeTotal(E: real -> real, q: Vec, cached: seq<KV>, size: nat, dv: nat, cap: nat,
                   ms: seq<Score>, ls: seq<real>, outs: seq<Vec>)
    requires ExpLaw(E) && size > 0 && cap > 0 && |cached| > 0 && KVShape(cached, |q|, dv)
    requires PartsHold(E, q, cached, size, dv, Min(PartCount(|cached|, size), cap), ms, ls, outs)
    ensures var num := PartCount(|cached|, size);
      var g := Top(PartLanes(ms, num, cap));
      var seen := cached[..Cut(cap, size, |cached|)];
      && |seen| > 0 && g.Fin?
      && Dot(Rescaled(E, ms, ls, num, cap, g), Ones(cap)) == Mass(E, Scores(q, seen), g, Ones(|seen|)) >= 1.0
  {
    hide ExpLaw, Mass, Dot, Cut, Scores, Values, PartHolds, PartCount, Top;
    var num := PartCount(|cached|, size);
    var count := Min(num, cap);
    var seen := cached[..Cut(cap, size, |cached|)];
    Covered(|cached|, size, cap);
    NonEmptyCut(|cached|, size, cap);
    var lanes := PartLanes(ms, num, cap);
    var g := Top(lanes);
    assert lanes[..cap] == lanes;
    TopPadded(ms, num, cap, cap);
    LanesTop(E, q, cached, size, dv, count, count, ms, ls, outs);
    FirstScoreFinite(q, seen);
    TopFinite(Scores(q, seen));
    LanesSum(E, q, cached, size, dv, num, cap, count, ms, ls, outs, g);
    var r := Rescaled(E, ms, ls, num, cap, g);
    SumPadded(r, count, cap);
    assert r[..cap] == r;
    MassNonNegative(E, Scores(q, seen), g);
  }

  lemma NonEmptyCut(n: nat, size: nat, cap: nat)
    requires n > 0 && size > 0 && cap > 0
    ensures Cut(cap, size, n) > 0
  {
    MulAtLeast(cap, size);
  }

  lemma FirstScoreFinite(q: Vec, kvs: seq<KV>)
    requires |kvs| > 0 && KeyShape(kvs, |q|)
    ensures HasFinite(Scores(q, kvs))
  {
    hide Dot;
    assert Scores(q, kvs)[0].Fin?;
  }

  /** Adding one partition's weighted output. */
  lemma MergeStep(E: real -> real, q: Vec, cached: seq<KV>, size: nat, p: nat, m: Score, l: real, out: Vec, g: Score,
                  total: real, acc: Vec)
    requires ExpLaw(E) && KVShape(cached, |q|, |out|) && PartHolds(E, q, cached, size, p, m, l, out) && g.Fin?
    requires |acc| == |out| && total >= 1.0
    requires forall c :: 0 <= c < |acc| ==> acc[c] * total == MassTo(E, q, cached, Cut(p, size, |cached|), g, c, |out|)
    ensures var next := Add(acc, Scale(Weigh(E, m, g, l) / total, out));
      forall c :: 0 <= c < |acc| ==> next[c] * total == MassTo(E, q, cached, Cut(p + 1, size, |cached|), g, c, |out|)
  {
    hide ExpLaw, Mass, Dot, Cut, Weigh, Scores, PartHolds, Scale;
    SplitAtCut(q, cached, size, p);
    var a, b := Cut(p, size, |cached|), Cut(p + 1, size, |cached|);
    var w := Weigh(E, m, g, l);
    PartContribution(E, q, cached, size, p, m, l, out, g);
    forall c | 0 <= c < |acc|
      ensures Add(acc, Scale(w / total, out))[c] * total == MassTo(E, q, cached, b, g, c, |out|)
    {
      assert cached[..b] == cached[..a] + cached[a..b];
      assert Column(Values(cached[..b]), c) == Column(Values(cached[..a]), c) + Column(Values(cached[a..b]), c);
      MassConcat(E, Scores(q, cached[..a]), Scores(q, cached[a..b]), g,
                 Column(Values(cached[..a]), c), Column(Values(cached[a..b]), c));
      ScaleAt(w / total, out, c);
      MergeArith(acc[c], w, total, out[c]);
    }
  }

  lemma MergeArith(acc: real, w: real, total: real, o: real)
    requires total >= 1.0
    ensures (acc + w / total * o) * total == acc * total + w * o
  {
    var x := w / total;
    assert x * total == w;
    assert (acc + x * o) * total == acc * total + (x * total) * o;
  }

  ghost function MassTo(E: real -> real, q: Vec, cached: seq<KV>, to: nat, g: Score, c: nat, dv: nat): real
    requires KVShape(cached, |q|, dv) && to <= |cached| && g.Fin? && c < dv
  {
    Mass(E, Scores(q, cached[..to]), g, Column(Values(cached[..to]), c))
  }

  /** One program of the phase-2 grid. The output is softmax attention over the
      tokens of the first cap partitions, which is the whole sequence whenever
      the partitions fit the lanes. */
  method ReduceKernel(E: real -> real, maxLogits: array<Score>, expSums: array<real>, tmpOutput: array<Vec>,
                      seqLen: nat, size: nat, cap: nat, dv: nat, ghost q: Vec, ghost cached: seq<KV>)
    returns (out: Vec)
    requires ExpLaw(E) && size > 0 && cap > 0 && seqLen == |cached| > 0 && KVShape(cached, |q|, dv)
    requires PartsHold(E, q, cached, size, dv, Min(PartCount(seqLen, size), cap), maxLogits[..], expSums[..], tmpOutput[..])
    ensures |out| == dv && 0 < Cut(cap, size, seqLen) <= seqLen
    ensures forall c :: 0 <= c < dv ==>
      out[c] == CausalAttention(E, q, cached[..Cut(cap, size, seqLen)], dv, c)
    ensures PartCount(seqLen, size) <= cap ==> Cut(cap, size, seqLen) == seqLen
  {
    hide ExpLaw, Mass, Dot, Cut, Weigh, Scores, Values, PartHolds, PartCount, Scale, PartLanes, Rescaled, CausalAttention;
    hide MassTo, Add, Top;
    var num := PartCount(seqLen, size);
    var ms, ls, outs := maxLogits[..], expSums[..], tmpOutput[..];
    Covered(seqLen, size, cap);
    NonEmptyCut(seqLen, size, cap);
    MergeTotal(E, q, cached, size, dv, cap, ms, ls, outs);
    var globalMax := Top(PartLanes(ms, num, cap));
    var rescale := Rescaled(E, ms, ls, num, cap, globalMax);
    var total := Dot(rescale, Ones(cap));
    out := Zeros(dv);
    NothingMerged(E, q, cached, size, globalMax, dv, total);
    for p := 0 to cap
      invariant |out| == dv
      invariant forall c :: 0 <= c < dv ==>
        out[c] * total == MassTo(E, q, cached, Cut(Min(p, num), size, seqLen), globalMax, c, dv)
    {
      if p < num {
        MergeStep(E, q, cached, size, p, ms[p], ls[p], outs[p], globalMax, total, out);
        var w := Weigh(E, maxLogits[p], globalMax, expSums[p]) / MaxReal(total, GUARD);
        out := Add(out, Scale(w, tmpOutput[p]));
      }
    }
    forall c | 0 <= c < dv ensures out[c] == CausalAttention(E, q, cached[..Cut(cap, size, seqLen)], dv, c) {
      MergedIsAttention(E, q, cached[..Cut(cap, size, seqLen)], globalMax, dv, c, total, out[c], cached);
    }
  }

  lemma NothingMerged(E: real -> real, q: Vec, cached: seq<KV>, size: nat, g: Score, dv: nat, total: real)
    requires KVShape(cached, |q|, dv) && g.Fin?
    ensures forall c :: 0 <= c < dv ==> Zeros(dv)[c] * total == MassTo(E, q, cached, Cut(0, size, |cached|), g, c, dv)
  {
    hide Dot;
    assert cached[..0] == [];
  }

  lemma MergedIsAttention(E: real -> real, q: Vec, seen: seq<KV>, g: Score, dv: nat, c: nat, total: real, o: real,
                          cached: seq<KV>)
    requires ExpLaw(E) && KVShape(cached, |q|, dv) && 0 < |seen| <= |cached| && seen == cached[..|seen|]
    requires g.Fin? && c < dv && total >= 1.0
    requires total == Mass(E, Scores(q, seen), g, Ones(|seen|))
    requires o * total == MassTo(E, q, cached, |seen|, g, c, dv)
    ensures o == CausalAttention(E, q, seen, dv, c)
  {
    hide ExpLaw, Mass, Dot, Scores;
    FirstScoreFinite(q, seen);
    AttendFrom(E, Scores(q, seen), g, Column(Values(seen), c));
    var y := Mass(E, Scores(q, seen), g, Column(Values(seen), c));
    assert y / total == o;
  }

  // ---------------------------------------------------------------------
  // The launcher
  // ---------------------------------------------------------------------

  const MAX_MERGED_PARTS: nat := 1024

  predicate IsPowerOfTwo(n: nat) {
    n == 1 || (n > 0 && n % 2 == 0 && IsPowerOfTwo(n / 2))
  }

  /** The next power of two after p is its double. */
  lemma {:induction false} PowersDouble(p: nat, m: nat)
    requires IsPowerOfTwo(p) && IsPowerOfTwo(m) && p < m
    ensures 2 * p <= m
  {
    if p != 1 && m != 1 {
      PowersDouble(p / 2, m / 2);
    }
  }

  /** The least power of two at or above both n and the power of two p. */
  function NextPowerOfTwo(n: nat, p: nat): (r: nat)
    requires IsPowerOfTwo(p)
    ensures IsPowerOfTwo(r) && r >= n && r >= p
    ensures forall m: nat :: IsPowerOfTwo(m) && m >= n && m >= p ==> m >= r
    decreases n - p
  {
    if p >= n then p
    else
      assert forall m: nat :: IsPowerOfTwo(m) && m >= n ==> m >= 2 * p by {
        forall m: nat | IsPowerOfTwo(m) && m >= n ensures m >= 2 * p { PowersDouble(p, m); }
      }
      NextPowerOfTwo(n, 2 * p)
  }

  // The cap is exact only where it is not reached.

  /** The cap in tokens. */
  lemma CapFacts(n: nat, size: nat)
    requires size > 0 && n > 0
    ensures PartCount(n, size) <= MAX_MERGED_PARTS <==> n <= 1024 * size
    ensures Cut(MAX_MERGED_PARTS, size, n) == Min(1024 * size, n) > 0
  {
    PartCountFacts(n, size, MAX_MERGED_PARTS);
  }

  /** Attention over what the merge covers, the first 1024 partitions, is attention
      over the whole sequence. */
  ghost predicate SameAnswer(E: real -> real, q: Vec, cached: seq<KV>, size: nat, dv: nat, c: nat)
    requires ExpLaw(E) && size > 0 && |cached| > 0 && KVShape(cached, |q|, dv) && c < dv
  {
    CausalAttention(E, q, cached[..Min(1024 * size, |cached|)], dv, c) == CausalAttention(E, q, cached, dv, c)
  }

  /** For every query and every cache contents of this length. */
  ghost predicate AlwaysExact(E: real -> real, n: nat, size: nat)
    requires ExpLaw(E) && size > 0 && n > 0
  {
    forall q: Vec, cached: seq<KV>, dv: nat, c: nat ::
      |cached| == n && KVShape(cached, |q|, dv) && c < dv ==> SameAnswer(E, q, cached, size, dv, c)
  }

  /** The merge returns attention over the sequence for all inputs of a length if
      and only if the sequence has at most 1024 partitions' tokens. */
  lemma ExactIffPartsFit(E: real -> real, n: nat, size: nat)
    requires ExpLaw(E) && size > 0 && n > 0
    ensures AlwaysExact(E, n, size) <==> n <= 1024 * size
  {
    hide ExpLaw, CausalAttention, SameAnswer, KVShape;
    if n <= 1024 * size {
      forall q: Vec, cached: seq<KV>, dv: nat, c: nat | |cached| == n && KVShape(cached, |q|, dv) && c < dv
        ensures SameAnswer(E, q, cached, size, dv, c)
      {
        FittingIsExact(E, q, cached, size, dv, c);
      }
    } else {
      LastTokenIgnored(E, n, size);
      assert !SameAnswer(E, [0.0], OneHotKv(n, n - 1), size, 1, 0);
    }
  }

  lemma FittingIsExact(E: real -> real, q: Vec, cached: seq<KV>, size: nat, dv: nat, c: nat)
    requires ExpLaw(E) && 0 < |cached| <= 1024 * size && KVShape(cached, |q|, dv) && c < dv
    ensures SameAnswer(E, q, cached, size, dv, c)
  {
    hide ExpLaw, CausalAttention, KVShape;
    assert cached[..|cached|] == cached;
  }

  /** Beyond the cap, zero queries and keys with the value 1 at the last token: the
      sequence's attention is positive, the merge returns zero. */
  lemma LastTokenIgnored(E: real -> real, n: nat, size: nat)
    requires ExpLaw(E) && size > 0 && n > 1024 * size
    ensures var kvs := OneHotKv(n, n - 1);
      CausalAttention(E, [0.0], kvs[..1024 * size], 1, 0) == 0.0 < CausalAttention(E, [0.0], kvs, 1, 0)
    ensures !SameAnswer(E, [0.0], OneHotKv(n, n - 1), size, 1, 0)
  {
    hide ExpLaw, CausalAttention;
    var kvs := OneHotKv(n, n - 1);
    SeesHot(E, kvs, n - 1);
    SeesNothing(E, kvs[..1024 * size]);
  }

  /** Both phases for one sequence and head: attention over the sequence as long as
      it has at most 1024 partitions, and over the tokens of the first 1024 beyond. */
  method PagedAttentionV2(E: real -> real, q: Vec, cache: seq<seq<KV>>, table: seq<nat>, seqLen: nat, maxSeqLen: nat,
                          blockSize: nat, size: nat, blockN: nat, scale: real, dv: nat,
                          maxLogits: array<Score>, expSums: array<real>, tmpOutput: array<Vec>, ghost cached: seq<KV>)
    returns (out: Vec)
    requires ExpLaw(E) && blockSize > 0 && size > 0 && blockN > 0
    requires CacheHolds(cache, table, cached, blockSize) && KVShape(cached, |q|, dv)
    requires 0 < seqLen == |cached| <= maxSeqLen
    requires maxLogits.Length == expSums.Length == tmpOutput.Length >= PartCount(maxSeqLen, size)
    modifies maxLogits, expSums, tmpOutput
    ensures seqLen <= 1024 * size ==> IsSoftmax(E, scale, q, cached, dv, out)
    ensures seqLen > 1024 * size ==> IsSoftmax(E, scale, q, cached[..1024 * size], dv, out)
    ensures |out| == dv && 0 < Min(1024 * size, seqLen) <= seqLen
    ensures forall c :: 0 <= c < dv ==>
      out[c] == CausalAttention(E, Scale(scale, q), cached[..Min(1024 * size, seqLen)], dv, c)
  {
    hide ExpLaw, CacheHolds, PartHolds, Scale, CausalAttention, Cut, PartCount, IsSoftmax;
    var numPartitions := PartCount(maxSeqLen, size);
    ghost var sq := Scale(scale, q);
    for p := 0 to numPartitions
      invariant forall k :: 0 <= k < p && k * size < seqLen ==>
        |tmpOutput[k]| == dv && PartHolds(E, sq, cached, size, k, maxLogits[k], expSums[k], tmpOutput[k])
    {
      PartitionKernel(E, q, cache, table, seqLen, blockSize, p, size, blockN, scale, dv, cached,
                      maxLogits, expSums, tmpOutput);
    }
    var maxNumParts := tmpOutput.Length;
    var cap := Min(NextPowerOfTwo(maxNumParts, 1), MAX_MERGED_PARTS);
    PartCountOrder(seqLen, maxSeqLen, size);
    CapFacts(seqLen, size);
    forall k | 0 <= k < Min(PartCount(seqLen, size), cap)
      ensures |tmpOutput[k]| == dv && PartHolds(E, sq, cached, size, k, maxLogits[k], expSums[k], tmpOutput[k])
    {
      PartCountFacts(seqLen, size, k);
    }
    out := ReduceKernel(E, maxLogits, expSums, tmpOutput, seqLen, size, cap, dv, sq, cached);
    assert cached[..seqLen] == cached;
    AttentionRowMeans(E, scale, q, cached[..Min(1024 * size, seqLen)], dv, out);
  }

  lemma PartCountOrder(a: nat, b: nat, size: nat)
    requires a <= b && size > 0
    ensures PartCount(a, size) <= PartCount(b, size)
  {
    var p := PartCount(b, size);
    PartCountFacts(a, size, p);
    PartCountFacts(b, size, p);
  }
}
