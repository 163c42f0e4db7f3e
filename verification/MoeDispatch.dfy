/** Mixture-of-experts dispatch (verify_moe_e2e.py, lines 40-69): pairs sorted by
    expert, one batch per expert, results scattered back and added up. */
module MoeDispatch {
  import opened Vectors
  import opened Arithmetic
  import opened ExpertOrder

  /** What an expert computes for one token's hidden state. */
  type Expert = (nat, Vec) -> Vec

  ghost predicate Yields(expert: Expert, h: nat) {
    forall e, v :: |expert(e, v)| == h
  }

  lemma TokenSpan(t: nat, tokens: nat, topk: nat)
    requires t < tokens
    ensures 0 <= t * topk <= t * topk + topk <= tokens * topk
  {
    MulOrder(t + 1, tokens, topk);
    MulOrder(0, t, topk);
  }

  lemma PairToken(p: nat, tokens: nat, topk: nat)
    requires topk > 0 && p < tokens * topk
    ensures 0 <= p / topk < tokens
  {
    if p / topk >= tokens {
      MulOrder(tokens, p / topk, topk);
    }
  }

  // ---------------------------------------------------------------------
  // The plain weighted sum
  // ---------------------------------------------------------------------

  function CombineToken(outputs: seq<Vec>, weights: Vec, topk: nat, tokens: nat, t: nat, h: nat): (z: Vec)
    requires |outputs| == |weights| == tokens * topk && Shape(outputs, |outputs|, h) && t < tokens
    ensures |z| == h
  {
    TokenSpan(t, tokens, topk);
    LinComb(weights[t * topk..t * topk + topk], outputs[t * topk..t * topk + topk], h)
  }

  /** Each token's weighted sum over its own experts' outputs. */
  function Combine(outputs: seq<Vec>, weights: Vec, topk: nat, tokens: nat, h: nat): (z: seq<Vec>)
    requires |outputs| == |weights| == tokens * topk && Shape(outputs, |outputs|, h)
    ensures Shape(z, tokens, h)
    ensures forall t :: 0 <= t < tokens ==> z[t] == CombineToken(outputs, weights, topk, tokens, t, h)
  {
    seq(tokens, t requires 0 <= t < tokens => CombineToken(outputs, weights, topk, tokens, t, h))
  }

  /** Channel by channel: a token's entry is the product of its own topk weights
      with its own topk outputs, and no other pair matters. */
  lemma CombineAt(outputs: seq<Vec>, weights: Vec, topk: nat, tokens: nat, t: nat, c: nat, h: nat)
    requires |outputs| == |weights| == tokens * topk && Shape(outputs, |outputs|, h) && t < tokens && c < h
    ensures 0 <= t * topk <= t * topk + topk <= |outputs|
    ensures Combine(outputs, weights, topk, tokens, h)[t][c]
            == Dot(weights[t * topk..t * topk + topk], Column(outputs[t * topk..t * topk + topk], c))
  {
    TokenSpan(t, tokens, topk);
    LinCombAt(weights[t * topk..t * topk + topk], outputs[t * topk..t * topk + topk], h, c);
  }

  /** The output of the pth pair: its expert on its token's row. */
  function PairOutput(x: seq<Vec>, ids: seq<nat>, topk: nat, expert: Expert, p: nat): Vec
    requires topk > 0 && |ids| == |x| * topk && p < |ids|
  {
    PairToken(p, |x|, topk);
    expert(ids[p], x[p / topk])
  }

  lemma PairOutputLength(x: seq<Vec>, ids: seq<nat>, topk: nat, expert: Expert, p: nat, h: nat)
    requires topk > 0 && |ids| == |x| * topk && p < |ids| && Yields(expert, h)
    ensures |PairOutput(x, ids, topk, expert, p)| == h
  {
  }

  ghost function ExpertOutputs(x: seq<Vec>, ids: seq<nat>, topk: nat, expert: Expert, h: nat): (z: seq<Vec>)
    requires topk > 0 && |ids| == |x| * topk && Yields(expert, h)
    ensures Shape(z, |ids|, h)
    ensures forall p :: 0 <= p < |ids| ==> z[p] == PairOutput(x, ids, topk, expert, p)
  {
    hide PairOutput;
    assert forall p :: 0 <= p < |ids| ==> |PairOutput(x, ids, topk, expert, p)| == h by {
      forall p | 0 <= p < |ids| ensures |PairOutput(x, ids, topk, expert, p)| == h {
        PairOutputLength(x, ids, topk, expert, p, h);
      }
    }
    seq(|ids|, p requires 0 <= p < |ids| => PairOutput(x, ids, topk, expert, p))
  }

  function Weighted(outputs: seq<Vec>, weights: Vec, h: nat): (rows: seq<Vec>)
    requires |outputs| == |weights| && Shape(outputs, |outputs|, h)
    ensures Shape(rows, |outputs|, h)
    ensures forall p :: 0 <= p < |rows| ==> rows[p] == Scale(weights[p], outputs[p])
  {
    seq(|outputs|, p requires 0 <= p < |outputs| => Scale(weights[p], outputs[p]))
  }

  // ---------------------------------------------------------------------
  // The mixture, said without its parts
  // ---------------------------------------------------------------------

  /** Channel c of the first n of token t's experts, each run on the token's own
      hidden state and weighted with the weight of its own pair. */
  function TokenSum(x: seq<Vec>, ids: seq<nat>, weights: Vec, topk: nat, expert: Expert, t: nat, c: nat, n: nat): real
    requires |ids| == |weights| == |x| * topk && t < |x| && n <= topk
    requires forall e: nat, v: Vec :: c < |expert(e, v)|
  {
    if n == 0 then 0.0
    else
      TokenSpan(t, |x|, topk);
      var p := t * topk + (n - 1);
      TokenSum(x, ids, weights, topk, expert, t, c, n - 1) + weights[p] * expert(ids[p], x[t])[c]
  }

  /** The outputs of token t's block are its experts' on its own hidden state. */
  lemma BlockOfToken(x: seq<Vec>, ids: seq<nat>, topk: nat, expert: Expert, h: nat, t: nat, b: nat)
    requires topk > 0 && |ids| == |x| * topk && Yields(expert, h) && t < |x| && b == t * topk
    ensures b + topk <= |ids|
    ensures var outputs := ExpertOutputs(x, ids, topk, expert, h);
      forall p :: b <= p < b + topk ==> outputs[p] == expert(ids[p], x[t])
  {
    hide Yields;
    TokenSpan(t, |x|, topk);
    forall p | b <= p < b + topk ensures ExpertOutputs(x, ids, topk, expert, h)[p] == expert(ids[p], x[t]) {
      DivUnique(p, topk, t, p - b);
    }
  }

  lemma TokenSumNext(x: seq<Vec>, ids: seq<nat>, weights: Vec, topk: nat, expert: Expert, h: nat, t: nat, c: nat, p: nat, n: nat)
    requires |ids| == |weights| == |x| * topk && Yields(expert, h) && t < |x| && c < h && 0 < n <= topk
    requires p == t * topk + (n - 1)
    ensures p < |ids|
    ensures TokenSum(x, ids, weights, topk, expert, t, c, n)
            == TokenSum(x, ids, weights, topk, expert, t, c, n - 1) + weights[p] * expert(ids[p], x[t])[c]
  {
    TokenSpan(t, |x|, topk);
  }

  lemma {:induction false} DotIsTokenSum(x: seq<Vec>, ids: seq<nat>, weights: Vec, topk: nat, expert: Expert, h: nat, t: nat, c: nat,
                                         outputs: seq<Vec>, b: nat, n: nat)
    requires topk > 0 && |ids| == |weights| == |outputs| == |x| * topk && Yields(expert, h) && t < |x| && c < h && n <= topk
    requires b == t * topk && b + topk <= |ids| && Shape(outputs, |outputs|, h)
    requires forall p :: b <= p < b + topk ==> outputs[p] == expert(ids[p], x[t])
    ensures Dot(weights[b..b + n], Column(outputs[b..b + n], c)) == TokenSum(x, ids, weights, topk, expert, t, c, n)
  {
    hide TokenSum, Dot;
    if n == 0 {
      NoTerms(x, ids, weights, topk, expert, h, t, c);
      assert weights[b..b] == [] && Column(outputs[b..b], c) == [];
    } else {
      var k := n - 1;
      DotIsTokenSum(x, ids, weights, topk, expert, h, t, c, outputs, b, k);
      TokenSumNext(x, ids, weights, topk, expert, h, t, c, b + k, n);
      var w, ys := weights[b..b + n], Column(outputs[b..b + n], c);
      assert w[..k] == weights[b..b + k] && ys[..k] == Column(outputs[b..b + k], c);
      assert w[k] == weights[b + k] && ys[k] == expert(ids[b + k], x[t])[c];
      DotLast(w, ys);
    }
  }

  lemma NoTerms(x: seq<Vec>, ids: seq<nat>, weights: Vec, topk: nat, expert: Expert, h: nat, t: nat, c: nat)
    requires |ids| == |weights| == |x| * topk && Yields(expert, h) && t < |x| && c < h
    ensures TokenSum(x, ids, weights, topk, expert, t, c, 0) == Dot([], []) == 0.0
  {
  }

  lemma CombineMeaning(x: seq<Vec>, ids: seq<nat>, weights: Vec, topk: nat, expert: Expert, h: nat, t: nat, c: nat)
    requires topk > 0 && |ids| == |weights| == |x| * topk && Yields(expert, h) && t < |x| && c < h
    ensures Combine(ExpertOutputs(x, ids, topk, expert, h), weights, topk, |x|, h)[t][c]
            == TokenSum(x, ids, weights, topk, expert, t, c, topk)
  {
    hide Combine, Dot, TokenSum, ExpertOutputs, Yields;
    var outputs, b := ExpertOutputs(x, ids, topk, expert, h), t * topk;
    CombineAt(outputs, weights, topk, |x|, t, c, h);
    BlockOfToken(x, ids, topk, expert, h, t, b);
    DotIsTokenSum(x, ids, weights, topk, expert, h, t, c, outputs, b, topk);
  }

  // ---------------------------------------------------------------------
  // Adding rows up in any order
  // ---------------------------------------------------------------------

  /** The rows of token t among the pairs listed, added in list order. */
  ghost function Collected(rows: seq<Vec>, topk: nat, order: seq<nat>, t: nat, h: nat): (z: Vec)
    requires topk > 0 && Shape(rows, |rows|, h) && forall i :: 0 <= i < |order| ==> order[i] < |rows|
    ensures |z| == h
  {
    if |order| == 0 then Zeros(h)
    else
      var before := Collected(rows, topk, order[..|order| - 1], t, h);
      var p := order[|order| - 1];
      if p / topk == t then Add(before, rows[p]) else before
  }

  ghost function InPairOrder(rows: seq<Vec>, topk: nat, n: nat, t: nat, h: nat): (z: Vec)
    requires topk > 0 && Shape(rows, |rows|, h) && n <= |rows|
    ensures |z| == h
  {
    if n == 0 then Zeros(h)
    else
      var before := InPairOrder(rows, topk, n - 1, t, h);
      if (n - 1) / topk == t then Add(before, rows[n - 1]) else before
  }

  lemma AddSwap(x: Vec, y: Vec, z: Vec)
    requires |x| == |y| == |z|
    ensures Add(Add(x, y), z) == Add(Add(x, z), y)
  {
  }

  /** A pair may be added last. */
  lemma {:induction false} CollectLast(rows: seq<Vec>, topk: nat, order: seq<nat>, i: nat, t: nat, h: nat)
    requires topk > 0 && Shape(rows, |rows|, h) && (forall j :: 0 <= j < |order| ==> order[j] < |rows|) && i < |order|
    ensures var rest := order[..i] + order[i + 1..];
      Collected(rows, topk, order, t, h)
      == if order[i] / topk == t then Add(Collected(rows, topk, rest, t, h), rows[order[i]]) else Collected(rows, topk, rest, t, h)
  {
    hide Add;
    var n := |order| - 1;
    var rest := order[..i] + order[i + 1..];
    if i == n {
      assert rest == order[..n];
    } else {
      CollectLast(rows, topk, order[..n], i, t, h);
      var shorter := order[..n][..i] + order[..n][i + 1..];
      assert rest[..n - 1] == shorter && rest[n - 1] == order[n];
      AddSwap(Collected(rows, topk, shorter, t, h), rows[order[i]], rows[order[n]]);
    }
  }

  lemma {:induction false} CollectPermuted(rows: seq<Vec>, topk: nat, order: seq<nat>, n: nat, t: nat, h: nat)
    requires topk > 0 && Shape(rows, |rows|, h) && n <= |rows| && Permutes(order, n)
    ensures Collected(rows, topk, order, t, h) == InPairOrder(rows, topk, n, t, h)
  {
    hide Add;
    if n > 0 {
      PermutesOnto(order, n, n - 1);
      var i :| 0 <= i < n && order[i] == n - 1;
      RemovePermutes(order, i, n - 1);
      CollectPermuted(rows, topk, order[..i] + order[i + 1..], n - 1, t, h);
      CollectLast(rows, topk, order, i, t, h);
    }
  }

  // In pair order a token's rows are consecutive.

  lemma {:induction false} BeforeToken(rows: seq<Vec>, topk: nat, n: nat, t: nat, h: nat)
    requires topk > 0 && Shape(rows, |rows|, h) && n <= |rows| && n <= t * topk
    ensures InPairOrder(rows, topk, n, t, h) == Zeros(h)
  {
    hide Add;
    if n > 0 {
      BeforeToken(rows, topk, n - 1, t, h);
      if (n - 1) / topk == t {
        QuotientInside(n - 1, t, topk);
        assert false;
      }
    }
  }

  lemma {:induction false} InsideToken(outputs: seq<Vec>, weights: Vec, topk: nat, base: nat, n: nat, t: nat, h: nat)
    requires topk > 0 && |outputs| == |weights| && Shape(outputs, |outputs|, h)
    requires base == t * topk && base <= n <= base + topk && n <= |outputs|
    ensures InPairOrder(Weighted(outputs, weights, h), topk, n, t, h) == LinComb(weights[base..n], outputs[base..n], h)
  {
    hide Add, Scale;
    if n == base {
      BeforeToken(Weighted(outputs, weights, h), topk, n, t, h);
    } else {
      var q := n - 1;
      InsideToken(outputs, weights, topk, base, q, t, h);
      DivUnique(q, topk, t, q - base);
      var w, m := weights[base..n], outputs[base..n];
      assert w[..q - base] == weights[base..q] && m[..q - base] == outputs[base..q];
    }
  }

  lemma {:induction false} AfterToken(rows: seq<Vec>, topk: nat, base: nat, n: nat, t: nat, h: nat)
    requires topk > 0 && Shape(rows, |rows|, h) && base == t * topk && base + topk <= n <= |rows|
    ensures InPairOrder(rows, topk, n, t, h) == InPairOrder(rows, topk, base + topk, t, h)
  {
    hide Add;
    if n > base + topk {
      AfterToken(rows, topk, base, n - 1, t, h);
      if (n - 1) / topk == t {
        QuotientInside(n - 1, t, topk);
        assert false;
      }
    }
  }

  lemma PairOrderIsToken(outputs: seq<Vec>, weights: Vec, topk: nat, n: nat, t: nat, h: nat)
    requires topk > 0 && |outputs| == |weights| && Shape(outputs, |outputs|, h) && n <= |outputs|
    ensures var base := t * topk;
      var j := if n <= base then 0 else if n - base <= topk then n - base else topk;
      && 0 <= base && (n > base ==> base + j <= |outputs|)
      && InPairOrder(Weighted(outputs, weights, h), topk, n, t, h)
         == if n <= base then Zeros(h) else LinComb(weights[base..base + j], outputs[base..base + j], h)
  {
    hide InPairOrder, LinComb, Weighted;
    var base := t * topk;
    MulOrder(0, t, topk);
    if n <= base {
      BeforeToken(Weighted(outputs, weights, h), topk, n, t, h);
    } else if n <= base + topk {
      InsideToken(outputs, weights, topk, base, n, t, h);
    } else {
      AfterToken(Weighted(outputs, weights, h), topk, base, n, t, h);
      InsideToken(outputs, weights, topk, base, base + topk, t, h);
    }
  }

  lemma QuotientInside(q: nat, t: nat, topk: nat)
    requires topk > 0 && q / topk == t
    ensures t * topk <= q < t * topk + topk
  {
  }

  lemma CollectIsCombine(outputs: seq<Vec>, weights: Vec, topk: nat, tokens: nat, order: seq<nat>, t: nat, h: nat)
    requires topk > 0 && |outputs| == |weights| == tokens * topk && Shape(outputs, |outputs|, h) && t < tokens
    requires Permutes(order, |outputs|)
    ensures Collected(Weighted(outputs, weights, h), topk, order, t, h) == CombineToken(outputs, weights, topk, tokens, t, h)
  {
    hide Collected, InPairOrder, LinComb, Weighted;
    TokenSpan(t, tokens, topk);
    CollectPermuted(Weighted(outputs, weights, h), topk, order, |outputs|, t, h);
    PairOrderIsToken(outputs, weights, topk, |outputs|, t, h);
  }

  // ---------------------------------------------------------------------
  // Segments and scatter-add
  // ---------------------------------------------------------------------

  /** Adding rows to the outputs of their tokens, one after another. */
  ghost function Scattered(out: seq<Vec>, tokens: seq<nat>, rows: seq<Vec>, n: nat, h: nat): (z: seq<Vec>)
    requires Shape(out, |out|, h) && Shape(rows, |tokens|, h) && n <= |tokens|
    requires forall i :: 0 <= i < |tokens| ==> tokens[i] < |out|
    ensures Shape(z, |out|, h)
  {
    if n == 0 then out
    else
      var before := Scattered(out, tokens, rows, n - 1, h);
      before[tokens[n - 1] := Add(before[tokens[n - 1]], rows[n - 1])]
  }

  method IndexAdd(out: array<Vec>, tokens: seq<nat>, rows: seq<Vec>, h: nat)
    requires Shape(out[..], out.Length, h) && Shape(rows, |tokens|, h)
    requires forall i :: 0 <= i < |tokens| ==> tokens[i] < out.Length
    modifies out
    ensures Shape(out[..], out.Length, h)
    ensures out[..] == Scattered(old(out[..]), tokens, rows, |tokens|, h)
  {
    hide Add;
    for i := 0 to |tokens|
      invariant out[..] == Scattered(old(out[..]), tokens, rows, i, h)
    {
      ghost var before := out[..];
      out[tokens[i]] := Add(out[tokens[i]], rows[i]);
      assert out[..] == before[tokens[i] := Add(before[tokens[i]], rows[i])];
    }
  }

  /** The pairs at the first n places of the order have been added up. */
  ghost predicate Added(out: seq<Vec>, rows: seq<Vec>, topk: nat, order: seq<nat>, n: nat, h: nat)
    requires topk > 0 && Shape(rows, |rows|, h) && n <= |order| && forall i :: 0 <= i < |order| ==> order[i] < |rows|
  {
    forall t :: 0 <= t < |out| ==> out[t] == Collected(rows, topk, order[..n], t, h)
  }

  /** Scattering the rows of a segment of the order adds its pairs. */
  lemma {:induction false} ScatterSegment(out: seq<Vec>, rows: seq<Vec>, topk: nat, order: seq<nat>, start: nat,
      tokens: seq<nat>, segment: seq<Vec>, n: nat, h: nat)
    requires topk > 0 && Shape(rows, |rows|, h) && start + n <= |order| && n <= |tokens|
    requires forall i :: 0 <= i < |order| ==> order[i] < |rows|
    requires Shape(out, |out|, h) && Shape(segment, |tokens|, h) && forall i :: 0 <= i < |tokens| ==> tokens[i] < |out|
    requires forall i :: 0 <= i < n ==> tokens[i] == order[start + i] / topk && segment[i] == rows[order[start + i]]
    requires Added(out, rows, topk, order, start, h)
    ensures Added(Scattered(out, tokens, segment, n, h), rows, topk, order, start + n, h)
  {
    hide Add;
    if n > 0 {
      ScatterSegment(out, rows, topk, order, start, tokens, segment, n - 1, h);
      var before := Scattered(out, tokens, segment, n - 1, h);
      var here := order[..start + n];
      assert here[..start + n - 1] == order[..start + n - 1] && here[start + n - 1] == order[start + n - 1];
      forall t | 0 <= t < |out|
        ensures Scattered(out, tokens, segment, n, h)[t] == Collected(rows, topk, here, t, h)
      {
        assert before[t] == Collected(rows, topk, order[..start + n - 1], t, h);
      }
    }
  }

  /** The batch of one expert: its tokens and their weighted outputs. */
  method ExpertBatch(x: seq<Vec>, ids: seq<nat>, weights: Vec, topk: nat, expert: Expert, h: nat, order: seq<nat>,
      start: nat, end: nat, eid: nat) returns (tokens: seq<nat>, rows: seq<Vec>)
    requires topk > 0 && |ids| == |weights| == |x| * topk && Yields(expert, h)
    requires StablySorts(order, ids) && start <= end <= |ids|
    requires forall i :: start <= i < end ==> ids[order[i]] == eid
    ensures Shape(rows, |tokens|, h) && |tokens| == end - start && forall i :: 0 <= i < |tokens| ==> tokens[i] < |x|
    ensures var all := Weighted(ExpertOutputs(x, ids, topk, expert, h), weights, h);
      forall i :: 0 <= i < end - start ==> tokens[i] == order[start + i] / topk && rows[i] == all[order[start + i]]
    ensures forall i :: 0 <= i < |tokens| ==> rows[i] == Scale(weights[order[start + i]], expert(eid, x[tokens[i]]))
  {
    hide Scale;
    tokens, rows := [], [];
    ghost var all := Weighted(ExpertOutputs(x, ids, topk, expert, h), weights, h);
    for i := start to end
      invariant |tokens| == |rows| == i - start
      invariant forall j :: 0 <= j < i - start ==> tokens[j] < |x| && |rows[j]| == h
      invariant forall j :: 0 <= j < i - start ==> tokens[j] == order[start + j] / topk && rows[j] == all[order[start + j]]
      invariant forall j :: 0 <= j < i - start ==> rows[j] == Scale(weights[order[start + j]], expert(eid, x[tokens[j]]))
    {
      var p := order[i];
      PairToken(p, |x|, topk);
      var row := Scale(weights[p], expert(eid, x[p / topk]));
      assert row == all[p];
      tokens, rows := tokens + [p / topk], rows + [row];
    }
  }

  /** The dispatch returns, for every token, the weighted sum over its experts. */
  method Dispatch(x: seq<Vec>, ids: seq<nat>, weights: Vec, topk: nat, experts: nat, expert: Expert, h: nat)
    returns (result: seq<Vec>)
    requires topk > 0 && |ids| == |weights| == |x| * topk && Yields(expert, h)
    requires forall p :: 0 <= p < |ids| ==> ids[p] < experts
    ensures result == Combine(ExpertOutputs(x, ids, topk, expert, h), weights, topk, |x|, h)
    ensures Shape(result, |x|, h)
    ensures forall t, c :: 0 <= t < |x| && 0 <= c < h ==> result[t][c] == TokenSum(x, ids, weights, topk, expert, t, c, topk)
  {
    hide Collected, Scattered, Weighted, LinComb, StablySorts, CombineToken, Added, Count, CountBelow, TokenSum;
    var out := new Vec[|x|](_ => Zeros(h));
    var order := StableArgsort(ids);
    var counts := Bincount(ids, experts);
    ghost var rows := Weighted(ExpertOutputs(x, ids, topk, expert, h), weights, h);
    SortsRange(order, ids);
    NothingAdded(out[..], rows, topk, order, h);
    CountBelowEnds(ids, experts);
    var start := 0;
    for eid := 0 to experts
      invariant start == CountBelow(ids, eid) <= |ids|
      invariant Shape(out[..], |x|, h) && Added(out[..], rows, topk, order, start, h)
    {
      CountBelowNext(ids, eid);
      var end := start + counts[eid];
      if counts[eid] != 0 {
        SegmentOf(ids, order, eid);
        var tokens, batch := ExpertBatch(x, ids, weights, topk, expert, h, order, start, end, eid);
        ScatterSegment(out[..], rows, topk, order, start, tokens, batch, end - start, h);
        IndexAdd(out, tokens, batch, h);
      }
      start := end;
    }
    result := out[..];
    Finished(result, x, ids, weights, topk, expert, h, order);
    forall t, c | 0 <= t < |x| && 0 <= c < h
      ensures result[t][c] == TokenSum(x, ids, weights, topk, expert, t, c, topk)
    {
      CombineMeaning(x, ids, weights, topk, expert, h, t, c);
    }
  }

  lemma SortsRange(order: seq<nat>, keys: seq<nat>)
    requires StablySorts(order, keys)
    ensures |order| == |keys| && forall i :: 0 <= i < |order| ==> order[i] < |keys|
  {
  }

  lemma NothingAdded(out: seq<Vec>, rows: seq<Vec>, topk: nat, order: seq<nat>, h: nat)
    requires topk > 0 && Shape(rows, |rows|, h) && forall i :: 0 <= i < |order| ==> order[i] < |rows|
    requires forall t :: 0 <= t < |out| ==> out[t] == Zeros(h)
    ensures Added(out, rows, topk, order, 0, h)
  {
    assert order[..0] == [];
  }

  lemma SegmentOf(keys: seq<nat>, order: seq<nat>, e: nat)
    requires StablySorts(order, keys)
    ensures |order| == |keys| && CountBelow(keys, e) + Count(keys, e) <= |keys|
    ensures forall i :: CountBelow(keys, e) <= i < CountBelow(keys, e) + Count(keys, e) ==>
      order[i] < |keys| && keys[order[i]] == e
  {
    hide CountBelow, Count;
    CountBelowNext(keys, e);
    forall i | CountBelow(keys, e) <= i < CountBelow(keys, e) + Count(keys, e)
      ensures order[i] < |keys| && keys[order[i]] == e
    {
      SegmentIsExpert(keys, order, e, i);
    }
  }

  lemma Finished(out: seq<Vec>, x: seq<Vec>, ids: seq<nat>, weights: Vec, topk: nat, expert: Expert, h: nat, order: seq<nat>)
    requires topk > 0 && |ids| == |weights| == |x| * topk && Yields(expert, h) && |out| == |x|
    requires StablySorts(order, ids) && |order| == |ids| && forall i :: 0 <= i < |order| ==> order[i] < |ids|
    requires Added(out, Weighted(ExpertOutputs(x, ids, topk, expert, h), weights, h), topk, order, |ids|, h)
    ensures out == Combine(ExpertOutputs(x, ids, topk, expert, h), weights, topk, |x|, h)
  {
    hide Collected, Weighted, LinComb, StablySorts, Yields, CombineToken;
    SortsPermutes(order, ids);
    assert order[..|ids|] == order;
    var outputs := ExpertOutputs(x, ids, topk, expert, h);
    forall t | 0 <= t < |x|
      ensures out[t] == CombineToken(outputs, weights, topk, |x|, t, h)
    {
      CollectIsCombine(outputs, weights, topk, |x|, order, t, h);
    }
  }
}
