/** The batched two-phase attention of paged_attention_v2_pytorch.py: scores padded
    and cut into partitions, one maximum, sum and weighted value per partition,
    and a merge that weights the partitions by their rescaled sums. */
module ReshapedPartitions {
  import opened Vectors
  import opened Arithmetic
  import opened Exponential
  import opened Softmax
  import opened PagedCache
  import opened PrefixAttention
  import opened PartitionedAttention

  const PARTITION_SIZE: nat := 1024

  // One head and one output channel: ss are the scores, ys the channel of the
  // values.

  function Padded<T>(s: seq<T>, len: nat, x: T): (r: seq<T>)
    requires |s| <= len
    ensures |r| == len
  {
    s + seq(len - |s|, _ => x)
  }

  function PaddedLen(n: nat): (len: nat)
    ensures len >= n && len == PartCount(n, PARTITION_SIZE) * PARTITION_SIZE
  {
    PartCount(n, PARTITION_SIZE) * PARTITION_SIZE
  }

  /** Partition p of the padded scores or values. */
  function Chunk<T>(s: seq<T>, p: nat, x: T): (r: seq<T>)
    requires p < PartCount(|s|, PARTITION_SIZE)
    ensures |r| == PARTITION_SIZE
  {
    Padded(s, PaddedLen(|s|), x)[p * PARTITION_SIZE..p * PARTITION_SIZE + PARTITION_SIZE]
  }

  /** The partition's maximum, sum and weighted value. */
  function PartMax(ss: seq<Score>, p: nat): Score
    requires p < PartCount(|ss|, PARTITION_SIZE)
  {
    Top(Chunk(ss, p, NegInf))
  }

  function PartSum(E: real -> real, ss: seq<Score>, p: nat): real
    requires p < PartCount(|ss|, PARTITION_SIZE) && PartMax(ss, p).Fin?
  {
    Dot(Exps(E, Chunk(ss, p, NegInf), PartMax(ss, p)), Ones(PARTITION_SIZE))
  }

  function PartOut(E: real -> real, ss: seq<Score>, ys: Vec, p: nat): real
    requires |ss| == |ys| && p < PartCount(|ss|, PARTITION_SIZE) && PartMax(ss, p).Fin?
  {
    Dot(Exps(E, Chunk(ss, p, NegInf), PartMax(ss, p)), Chunk(ys, p, 0.0))
  }

  ghost predicate MaxesFinite(ss: seq<Score>) {
    forall p :: 0 <= p < PartCount(|ss|, PARTITION_SIZE) ==> PartMax(ss, p).Fin?
  }

  function GlobalMax(ss: seq<Score>): Score {
    var num := PartCount(|ss|, PARTITION_SIZE);
    Top(seq(num, p requires 0 <= p < num => PartMax(ss, p)))
  }

  function Weight(E: real -> real, ss: seq<Score>, p: nat, g: Score): real
    requires p < PartCount(|ss|, PARTITION_SIZE) && PartMax(ss, p).Fin? && g.Fin?
  {
    ExpDiff(E, PartMax(ss, p), g) * PartSum(E, ss, p)
  }

  /** The sum of the first k weights. */
  function Total(E: real -> real, ss: seq<Score>, g: Score, k: nat): real
    requires MaxesFinite(ss) && k <= PartCount(|ss|, PARTITION_SIZE) && g.Fin?
  {
    if k == 0 then 0.0 else Total(E, ss, g, k - 1) + Weight(E, ss, k - 1, g)
  }

  function Term(E: real -> real, ss: seq<Score>, ys: Vec, p: nat, g: Score): real
    requires |ss| == |ys| && p < PartCount(|ss|, PARTITION_SIZE) && PartMax(ss, p).Fin? && g.Fin?
  {
    Weight(E, ss, p, g) * PartOut(E, ss, ys, p)
  }

  /** The weighted sum of the first k partition outputs. */
  function Merged(E: real -> real, ss: seq<Score>, ys: Vec, g: Score, k: nat): real
    requires |ss| == |ys| && MaxesFinite(ss) && k <= PartCount(|ss|, PARTITION_SIZE) && g.Fin?
  {
    if k == 0 then 0.0
    else Merged(E, ss, ys, g, k - 1) + Term(E, ss, ys, k - 1, g)
  }

  // ---------------------------------------------------------------------
  // The output and when it is attention
  // ---------------------------------------------------------------------

  ghost predicate AllFinite(ss: seq<Score>) {
    forall i :: 0 <= i < |ss| ==> ss[i].Fin?
  }

  lemma ChunkAt<T>(s: seq<T>, p: nat, x: T, i: nat)
    requires p < PartCount(|s|, PARTITION_SIZE) && i < PARTITION_SIZE
    ensures p * PARTITION_SIZE < |s|
    ensures Chunk(s, p, x)[i] == if p * PARTITION_SIZE + i < |s| then s[p * PARTITION_SIZE + i] else x
  {
    PartCountFacts(|s|, PARTITION_SIZE, p);
  }

  lemma PartMaxFinite(ss: seq<Score>, p: nat)
    requires AllFinite(ss) && p < PartCount(|ss|, PARTITION_SIZE)
    ensures PartMax(ss, p).Fin? && PartMax(ss, p) in Chunk(ss, p, NegInf)
  {
    hide PartCount, Chunk, Top;
    var lanes := Chunk(ss, p, NegInf);
    ChunkAt(ss, p, NegInf, 0);
    assert lanes[0].Fin?;
    TopFinite(lanes);
  }

  lemma GlobalMaxFinite(ss: seq<Score>)
    requires AllFinite(ss) && |ss| > 0
    ensures MaxesFinite(ss) && GlobalMax(ss).Fin?
  {
    hide PartCount, PartMax, Top, AllFinite;
    var num := PartCount(|ss|, PARTITION_SIZE);
    PartCountFacts(|ss|, PARTITION_SIZE, 0);
    forall p | 0 <= p < num ensures PartMax(ss, p).Fin? {
      PartMaxFinite(ss, p);
    }
    var maxes := seq(num, p requires 0 <= p < num => PartMax(ss, p));
    assert maxes[0].Fin?;
    TopFinite(maxes);
  }

  lemma WeightPositive(E: real -> real, ss: seq<Score>, p: nat, g: Score)
    requires ExpLaw(E) && AllFinite(ss) && p < PartCount(|ss|, PARTITION_SIZE) && g.Fin?
    ensures PartMax(ss, p).Fin? && Weight(E, ss, p, g) > 0.0
  {
    hide ExpLaw, PartCount, Chunk, PartMax, Dot, Exps, Mass;
    PartMaxFinite(ss, p);
    var lanes, m := Chunk(ss, p, NegInf), PartMax(ss, p);
    MassNonNegative(E, lanes, m);
    DotExps(E, lanes, m, Ones(PARTITION_SIZE));
    ExpPositive(E, m.x - g.x);
    MulNonNegative(ExpDiff(E, m, g), PartSum(E, ss, p));
  }

  lemma {:induction false} TotalPositive(E: real -> real, ss: seq<Score>, g: Score, k: nat)
    requires ExpLaw(E) && AllFinite(ss) && MaxesFinite(ss) && k <= PartCount(|ss|, PARTITION_SIZE) && g.Fin?
    ensures k > 0 ==> Total(E, ss, g, k) > 0.0
  {
    hide ExpLaw, AllFinite, PartCount, Weight;
    if k > 0 {
      TotalPositive(E, ss, g, k - 1);
      WeightPositive(E, ss, k - 1, g);
    }
  }

  /** What is written for one head and channel: plain softmax when one partition
      is enough, otherwise the merge. */
  ghost function Output(E: real -> real, ss: seq<Score>, ys: Vec): (o: real)
    requires ExpLaw(E) && AllFinite(ss) && |ss| == |ys| > 0
  {
    hide ExpLaw, Mass, PartCount, Total, Merged, MaxesFinite, GlobalMax;
    var num := PartCount(|ss|, PARTITION_SIZE);
    GlobalMaxFinite(ss);
    OnePartition(|ss|);
    if num == 1 then
      TopOfFinite(E, ss);
      Mass(E, ss, Top(ss), ys) / Mass(E, ss, Top(ss), Ones(|ss|))
    else
      TotalPositive(E, ss, GlobalMax(ss), num);
      Merged(E, ss, ys, GlobalMax(ss), num) / Total(E, ss, GlobalMax(ss), num)
  }

  lemma TopOfFinite(E: real -> real, ss: seq<Score>)
    requires ExpLaw(E) && AllFinite(ss) && |ss| > 0
    ensures HasFinite(ss) && Top(ss).Fin? && Mass(E, ss, Top(ss), Ones(|ss|)) > 0.0
  {
    hide ExpLaw, Mass;
    assert ss[0].Fin?;
    TopFinite(ss);
    MassNonNegative(E, ss, Top(ss));
  }

  lemma OnePartition(n: nat)
    requires n > 0
    ensures PartCount(n, PARTITION_SIZE) > 0
    ensures PartCount(n, PARTITION_SIZE) == 1 <==> n <= PARTITION_SIZE
  {
  }

  /** The output is attention over the sequence, for every query and cache of this
      length and in every channel. */
  ghost predicate AlwaysAttention(E: real -> real, n: nat)
    requires ExpLaw(E) && n > 0
  {
    forall q: Vec, cached: seq<KV>, dv: nat, c: nat ::
      |cached| == n && KVShape(cached, |q|, dv) && c < dv ==> IsAttention(E, q, cached, dv, c)
  }

  ghost predicate IsAttention(E: real -> real, q: Vec, cached: seq<KV>, dv: nat, c: nat)
    requires ExpLaw(E) && |cached| > 0 && KVShape(cached, |q|, dv) && c < dv
  {
    Output(E, Scores(q, cached), Column(Values(cached), c)) == CausalAttention(E, q, cached, dv, c)
  }

  /** A partition's sum is applied twice, once in its value and once in its weight:
      the result is attention for all inputs of a length if and only if the
      sequence fits one partition. */
  lemma ExactIffOnePartition(E: real -> real, n: nat)
    requires ExpLaw(E) && n > 0
    ensures AlwaysAttention(E, n) <==> n <= 1024
  {
    hide ExpLaw, IsAttention, KVShape;
    if n <= PARTITION_SIZE {
      forall q: Vec, cached: seq<KV>, dv: nat, c: nat | |cached| == n && KVShape(cached, |q|, dv) && c < dv
        ensures IsAttention(E, q, cached, dv, c)
      {
        OnePartitionIsAttention(E, q, cached, dv, c);
      }
    } else {
      FlatOverweighted(E, n);
      assert !IsAttention(E, [0.0], FlatKv(n), 1, 0);
    }
  }

  lemma OnePartitionIsAttention(E: real -> real, q: Vec, cached: seq<KV>, dv: nat, c: nat)
    requires ExpLaw(E) && 0 < |cached| <= PARTITION_SIZE && KVShape(cached, |q|, dv) && c < dv
    ensures IsAttention(E, q, cached, dv, c)
  {
    hide ExpLaw, Mass, Dot, Merged, Total, MaxesFinite, GlobalMax, PartCount, Top;
    var ss := Scores(q, cached);
    OnePartition(|cached|);
    TopOfFinite(E, ss);
    AttendFrom(E, ss, Top(ss), Column(Values(cached), c));
  }

  // The input on which it fails: equal scores and equal values.

  function FlatKv(n: nat): (kvs: seq<KV>)
    ensures |kvs| == n && KVShape(kvs, 1, 1)
  {
    seq(n, _ => KV([0.0], [1.0]))
  }

  function Flat(n: nat): (ss: seq<Score>)
    ensures |ss| == n && AllFinite(ss)
  {
    seq(n, _ => Fin(0.0))
  }

  /** The first a lanes score zero with value 1, the others are masked. */
  lemma {:induction false} FlatMass(E: real -> real, lanes: seq<Score>, ys: Vec, a: nat)
    requires ExpLaw(E) && |lanes| == |ys| && a <= |lanes|
    requires forall i :: 0 <= i < |lanes| ==> lanes[i] == if i < a then Fin(0.0) else NegInf
    requires forall i :: 0 <= i < a ==> ys[i] == 1.0
    ensures Mass(E, lanes, Fin(0.0), ys) == a as real
  {
    hide ExpLaw;
    if |lanes| > 0 {
      var k := |lanes| - 1;
      FlatMass(E, lanes[..k], ys[..k], if a <= k then a else k);
      ExpUnit(E, 0.0 - 0.0);
    }
  }

  /** How many tokens partition p holds. */
  function PartLength(n: nat, p: nat): (a: nat)
    requires p < PartCount(n, PARTITION_SIZE)
    ensures 0 < a <= PARTITION_SIZE
    ensures p == 0 && n > PARTITION_SIZE ==> a == PARTITION_SIZE
  {
    PartCountFacts(n, PARTITION_SIZE, p);
    Min(PARTITION_SIZE, n - p * PARTITION_SIZE)
  }

  lemma FlatPart(E: real -> real, n: nat, p: nat)
    requires ExpLaw(E) && p < PartCount(n, PARTITION_SIZE)
    ensures PartMax(Flat(n), p) == Fin(0.0)
    ensures PartSum(E, Flat(n), p) == PartOut(E, Flat(n), Ones(n), p) == PartLength(n, p) as real
  {
    hide ExpLaw, Chunk, Top, Dot, Exps, Mass;
    var lanes, ys, a := Chunk(Flat(n), p, NegInf), Chunk(Ones(n), p, 0.0), PartLength(n, p);
    forall i | 0 <= i < PARTITION_SIZE
      ensures lanes[i] == (if i < a then Fin(0.0) else NegInf) && (i < a ==> ys[i] == 1.0)
    {
      ChunkAt(Flat(n), p, NegInf, i);
      ChunkAt(Ones(n), p, 0.0, i);
    }
    PartMaxFinite(Flat(n), p);
    FlatMass(E, lanes, ys, a);
    FlatMass(E, lanes, Ones(PARTITION_SIZE), a);
    DotExps(E, lanes, Fin(0.0), ys);
    DotExps(E, lanes, Fin(0.0), Ones(PARTITION_SIZE));
  }

  lemma FlatMax(n: nat)
    requires n > 0 && forall p :: 0 <= p < PartCount(n, PARTITION_SIZE) ==> PartMax(Flat(n), p) == Fin(0.0)
    ensures MaxesFinite(Flat(n)) && GlobalMax(Flat(n)) == Fin(0.0)
  {
    hide PartMax, Flat;
    OnePartition(n);
    var num := PartCount(n, PARTITION_SIZE);
    var maxes := seq(num, p requires 0 <= p < num => PartMax(Flat(n), p));
    assert maxes[0].Fin?;
    TopFinite(maxes);
  }

  /** Each partition counts with the square of its length. */
  lemma FlatWeight(E: real -> real, n: nat, p: nat)
    requires ExpLaw(E) && n > PARTITION_SIZE && p < PartCount(n, PARTITION_SIZE) && PartMax(Flat(n), p).Fin?
    ensures Term(E, Flat(n), Ones(n), p, Fin(0.0)) >= Weight(E, Flat(n), p, Fin(0.0)) > 0.0
    ensures p == 0 ==> Term(E, Flat(n), Ones(n), p, Fin(0.0)) > Weight(E, Flat(n), p, Fin(0.0))
  {
    hide ExpLaw, PartCount, PartMax, PartSum, PartOut, Flat;
    FlatPart(E, n, p);
    ExpUnit(E, 0.0 - 0.0);
    Squared(PartLength(n, p));
  }

  lemma {:induction false} FlatMerge(E: real -> real, n: nat, k: nat)
    requires ExpLaw(E) && n > PARTITION_SIZE && k <= PartCount(n, PARTITION_SIZE) && MaxesFinite(Flat(n))
    ensures k > 0 ==> Merged(E, Flat(n), Ones(n), Fin(0.0), k) > Total(E, Flat(n), Fin(0.0), k) > 0.0
  {
    hide ExpLaw, PartCount, PartMax, Weight, Term, Flat;
    if k > 0 {
      FlatMerge(E, n, k - 1);
      FlatWeight(E, n, k - 1);
    }
  }

  lemma Squared(a: nat)
    requires a > 0
    ensures a as real * a as real >= a as real > 0.0
    ensures a > 1 ==> a as real * a as real > a as real
  {
  }

  lemma FlatOverweighted(E: real -> real, n: nat)
    requires ExpLaw(E) && n > 1024
    ensures CausalAttention(E, [0.0], FlatKv(n), 1, 0) == 1.0 < Output(E, Scores([0.0], FlatKv(n)), Column(Values(FlatKv(n)), 0))
    ensures !IsAttention(E, [0.0], FlatKv(n), 1, 0)
  {
    hide ExpLaw, Mass, Dot, Merged, Total, PartCount, MaxesFinite, GlobalMax, Top;
    var ss, ys := Scores([0.0], FlatKv(n)), Column(Values(FlatKv(n)), 0);
    var num := PartCount(n, PARTITION_SIZE);
    FlatScores(n);
    OnePartition(n);
    forall p | 0 <= p < num ensures PartMax(Flat(n), p) == Fin(0.0) {
      FlatPart(E, n, p);
    }
    FlatMax(n);
    FlatMerge(E, n, num);
    Exceeds(Merged(E, ss, ys, Fin(0.0), num), Total(E, ss, Fin(0.0), num));
    FlatMass(E, ss, ys, n);
  }

  lemma FlatScores(n: nat)
    ensures Scores([0.0], FlatKv(n)) == Flat(n) && Column(Values(FlatKv(n)), 0) == Ones(n)
  {
    assert Dot([0.0], [0.0]) == 0.0;
  }

  lemma Exceeds(a: real, b: real)
    requires a > b > 0.0
    ensures a / b > 1.0
  {
  }
}
