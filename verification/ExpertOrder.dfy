/** The order in which (token, expert) pairs are dispatched: sorted by expert,
    stably, with one contiguous segment per expert (verify_moe_e2e.py, lines 47-56,
    verify_moe_index_combine.py, lines 41-52). */
module ExpertOrder {

  /** A stable ascending argsort: positions in order of key, ties in order of
      position. */
  ghost predicate StablySorts(order: seq<nat>, keys: seq<nat>) {
    && |order| == |keys|
    && (forall i :: 0 <= i < |order| ==> order[i] < |keys|)
    && forall i, j :: 0 <= i < j < |order| ==> Before(keys, order[i], order[j])
  }

  predicate Before(keys: seq<nat>, p: nat, q: nat)
    requires p < |keys| && q < |keys|
  {
    keys[p] < keys[q] || (keys[p] == keys[q] && p < q)
  }

  function Insert(order: seq<nat>, keys: seq<nat>, p: nat): (r: seq<nat>)
    requires p < |keys| && forall i :: 0 <= i < |order| ==> order[i] < |keys|
    ensures |r| == |order| + 1
  {
    if |order| == 0 || keys[order[|order| - 1]] <= keys[p] then order + [p]
    else Insert(order[..|order| - 1], keys, p) + [order[|order| - 1]]
  }

  function StableArgsort(keys: seq<nat>): (order: seq<nat>)
    ensures StablySorts(order, keys)
  {
    SortedPrefix(keys, |keys|);
    ArgsortPrefix(keys, |keys|)
  }

  function ArgsortPrefix(keys: seq<nat>, n: nat): (order: seq<nat>)
    requires n <= |keys|
    ensures |order| == n && forall i :: 0 <= i < n ==> order[i] < |keys|
  {
    if n == 0 then []
    else
      InsertMembers(ArgsortPrefix(keys, n - 1), keys, n - 1);
      Insert(ArgsortPrefix(keys, n - 1), keys, n - 1)
  }

  ghost predicate Ordered(order: seq<nat>, keys: seq<nat>, bound: nat)
    requires bound <= |keys|
  {
    && (forall i :: 0 <= i < |order| ==> order[i] < bound)
    && forall i, j :: 0 <= i < j < |order| ==> Before(keys, order[i], order[j])
  }

  lemma {:induction false} InsertMembers(order: seq<nat>, keys: seq<nat>, p: nat)
    requires p < |keys| && forall i :: 0 <= i < |order| ==> order[i] < |keys|
    ensures forall i :: 0 <= i <= |order| ==> Insert(order, keys, p)[i] in order + [p]
    ensures forall i :: 0 <= i <= |order| ==> Insert(order, keys, p)[i] < |keys|
  {
    if |order| > 0 && keys[order[|order| - 1]] > keys[p] {
      InsertMembers(order[..|order| - 1], keys, p);
    }
  }

  lemma {:induction false} InsertSorted(order: seq<nat>, keys: seq<nat>, p: nat, bound: nat)
    requires bound <= p < |keys| && Ordered(order, keys, bound)
    ensures Ordered(Insert(order, keys, p), keys, p + 1)
  {
    InsertMembers(order, keys, p);
    if |order| > 0 && keys[order[|order| - 1]] > keys[p] {
      var front := order[..|order| - 1];
      InsertSorted(front, keys, p, bound);
      InsertMembers(front, keys, p);
      var r := Insert(front, keys, p);
      forall i | 0 <= i < |r|
        ensures Before(keys, r[i], order[|order| - 1])
      {
        assert r[i] in front + [p];
      }
    }
  }

  lemma {:induction false} SortedPrefix(keys: seq<nat>, n: nat)
    requires n <= |keys|
    ensures Ordered(ArgsortPrefix(keys, n), keys, n)
  {
    if n > 0 {
      SortedPrefix(keys, n - 1);
      InsertSorted(ArgsortPrefix(keys, n - 1), keys, n - 1, n - 1);
    }
  }

  // ---------------------------------------------------------------------
  // A permutation and its inverse
  // ---------------------------------------------------------------------

  ghost predicate Permutes(order: seq<nat>, n: nat) {
    && |order| == n
    && (forall i :: 0 <= i < n ==> order[i] < n)
    && forall i, j :: 0 <= i < j < n ==> order[i] != order[j]
  }

  lemma SortsPermutes(order: seq<nat>, keys: seq<nat>)
    requires StablySorts(order, keys)
    ensures Permutes(order, |keys|)
  {
  }

  ghost function Elements(order: seq<nat>): (s: set<nat>) {
    set i | 0 <= i < |order| :: order[i]
  }

  lemma {:induction false} DistinctSize(order: seq<nat>)
    requires forall i, j :: 0 <= i < j < |order| ==> order[i] != order[j]
    ensures |Elements(order)| == |order|
  {
    if |order| > 0 {
      var front := order[..|order| - 1];
      DistinctSize(front);
      assert forall i :: 0 <= i < |front| ==> front[i] == order[i];
      assert Elements(order) == Elements(front) + {order[|order| - 1]};
    }
  }

  ghost function UpTo(n: nat): (s: set<nat>)
    ensures |s| == n
    ensures forall i :: i in s <==> 0 <= i < n
  {
    if n == 0 then {} else UpTo(n - 1) + {n - 1}
  }

  lemma SubsetFull(a: set<nat>, b: set<nat>)
    requires a <= b && |a| == |b|
    ensures a == b
  {
    assert b == a + (b - a);
    assert |b| == |a| + |b - a|;
  }

  /** Every pair is dispatched somewhere. */
  lemma PermutesOnto(order: seq<nat>, n: nat, p: nat)
    requires Permutes(order, n) && p < n
    ensures exists i :: 0 <= i < n && order[i] == p
  {
    DistinctSize(order);
    SubsetFull(Elements(order), UpTo(n));
    assert p in Elements(order);
  }

  /** The two index maps undo each other. */
  ghost predicate Inverse(a: seq<nat>, b: seq<nat>) {
    && |a| == |b|
    && (forall i :: 0 <= i < |a| ==> a[i] < |b| && b[a[i]] == i)
    && (forall p :: 0 <= p < |b| ==> b[p] < |a| && a[b[p]] == p)
  }

  // ---------------------------------------------------------------------
  // Counting
  // ---------------------------------------------------------------------

  function Count(keys: seq<nat>, e: nat): (c: nat)
    ensures c <= |keys|
  {
    if |keys| == 0 then 0
    else Count(keys[..|keys| - 1], e) + if keys[|keys| - 1] == e then 1 else 0
  }

  function CountBelow(keys: seq<nat>, e: nat): (c: nat)
    ensures c <= |keys|
  {
    if |keys| == 0 then 0
    else CountBelow(keys[..|keys| - 1], e) + if keys[|keys| - 1] < e then 1 else 0
  }

  lemma {:induction false} CountBelowNext(keys: seq<nat>, e: nat)
    ensures CountBelow(keys, e + 1) == CountBelow(keys, e) + Count(keys, e)
  {
    if |keys| > 0 {
      CountBelowNext(keys[..|keys| - 1], e);
    }
  }

  lemma {:induction false} CountBelowEnds(keys: seq<nat>, e: nat)
    requires forall p :: 0 <= p < |keys| ==> keys[p] < e
    ensures CountBelow(keys, 0) == 0 && CountBelow(keys, e) == |keys|
  {
    if |keys| > 0 {
      CountBelowEnds(keys[..|keys| - 1], e);
    }
  }

  function Gathered(keys: seq<nat>, order: seq<nat>): (r: seq<nat>)
    requires forall i :: 0 <= i < |order| ==> order[i] < |keys|
    ensures |r| == |order| && forall i :: 0 <= i < |r| ==> r[i] == keys[order[i]]
  {
    seq(|order|, i requires 0 <= i < |order| => keys[order[i]])
  }

  /** In a sorted sequence the smaller elements come first. */
  lemma {:induction false} SortedCut(s: seq<nat>, e: nat, i: nat)
    requires i < |s| && forall a, b :: 0 <= a < b < |s| ==> s[a] <= s[b]
    ensures s[i] < e <==> i < CountBelow(s, e)
  {
    var n := |s| - 1;
    if s[n] < e {
      CountBelowEnds(s, e);
    } else if i < n {
      SortedCut(s[..n], e, i);
    }
  }

  lemma {:induction false} RemoveOne(keys: seq<nat>, i: nat, e: nat)
    requires i < |keys|
    ensures CountBelow(keys, e) == CountBelow(keys[..i] + keys[i + 1..], e) + if keys[i] < e then 1 else 0
  {
    var n := |keys| - 1;
    var rest := keys[..i] + keys[i + 1..];
    if i == n {
      assert rest == keys[..n];
    } else {
      RemoveOne(keys[..n], i, e);
      assert rest[..n - 1] == keys[..n][..i] + keys[..n][i + 1..];
    }
  }

  lemma GatheredRest(keys: seq<nat>, order: seq<nat>, i: nat)
    requires Permutes(order, |keys|) && i < |keys| && order[i] == |keys| - 1
    ensures var n := |keys| - 1;
      var rest := order[..i] + order[i + 1..];
      && Permutes(rest, n)
      && Gathered(keys, order)[..i] + Gathered(keys, order)[i + 1..] == Gathered(keys[..n], rest)
      && Gathered(keys, order)[i] == keys[n]
  {
    RemovePermutes(order, i, |keys| - 1);
  }

  /** Reordering keeps the counts. */
  lemma {:induction false} CountPermuted(keys: seq<nat>, order: seq<nat>, e: nat)
    requires Permutes(order, |keys|)
    ensures |order| == |keys| && forall i :: 0 <= i < |keys| ==> order[i] < |keys|
    ensures CountBelow(Gathered(keys, order), e) == CountBelow(keys, e)
  {
    hide Permutes;
    PermutesIndices(order, |keys|);
    if |keys| > 0 {
      var n := |keys| - 1;
      PermutesOnto(order, |keys|, n);
      var i :| 0 <= i <= n && order[i] == n;
      GatheredRest(keys, order, i);
      CountPermuted(keys[..n], order[..i] + order[i + 1..], e);
      RemoveOne(Gathered(keys, order), i, e);
    }
  }

  lemma PermutesIndices(order: seq<nat>, n: nat)
    requires Permutes(order, n)
    ensures |order| == n && forall i :: 0 <= i < n ==> order[i] < n
  {
  }

  lemma RemovePermutes(order: seq<nat>, i: nat, n: nat)
    requires Permutes(order, n + 1) && i <= n && order[i] == n
    ensures Permutes(order[..i] + order[i + 1..], n)
  {
    var rest := order[..i] + order[i + 1..];
    assert forall j :: 0 <= j < n ==> rest[j] == if j < i then order[j] else order[j + 1];
  }

  /** Expert e's pairs fill exactly the positions from the number of pairs of
      smaller experts up to that plus its own count, in their original order. */
  lemma SegmentIsExpert(keys: seq<nat>, order: seq<nat>, e: nat, i: nat)
    requires StablySorts(order, keys) && i < |keys|
    ensures keys[order[i]] == e <==> CountBelow(keys, e) <= i < CountBelow(keys, e) + Count(keys, e)
  {
    SortsPermutes(order, keys);
    var g := Gathered(keys, order);
    CountPermuted(keys, order, e);
    CountPermuted(keys, order, e + 1);
    SortedCut(g, e, i);
    SortedCut(g, e + 1, i);
    CountBelowNext(keys, e);
  }

  lemma SegmentIsStable(keys: seq<nat>, order: seq<nat>, e: nat, i: nat, j: nat)
    requires StablySorts(order, keys)
    requires CountBelow(keys, e) <= i < j < CountBelow(keys, e) + Count(keys, e) <= |keys|
    ensures order[i] < order[j] && keys[order[i]] == keys[order[j]] == e
  {
    SegmentIsExpert(keys, order, e, i);
    SegmentIsExpert(keys, order, e, j);
  }

  // ---------------------------------------------------------------------
  // The index computation
  // ---------------------------------------------------------------------

  /** Occurrences of each expert. */
  method Bincount(keys: seq<nat>, experts: nat) returns (counts: seq<nat>)
    requires forall p :: 0 <= p < |keys| ==> keys[p] < experts
    ensures |counts| == experts && forall e :: 0 <= e < experts ==> counts[e] == Count(keys, e)
  {
    var c := new nat[experts](_ => 0);
    for p := 0 to |keys|
      invariant forall e :: 0 <= e < experts ==> c[e] == Count(keys[..p], e)
    {
      assert keys[..p + 1][..p] == keys[..p];
      c[keys[p]] := c[keys[p]] + 1;
    }
    assert keys[..|keys|] == keys;
    return c[..];
  }

  /** Where each pair goes, which pair each place holds, and the counts. */
  method ComputeIndex(keys: seq<nat>, experts: nat) returns (srcDst: seq<nat>, dstSrc: seq<nat>, counts: seq<nat>)
    requires forall p :: 0 <= p < |keys| ==> keys[p] < experts
    ensures StablySorts(dstSrc, keys) && Inverse(dstSrc, srcDst)
    ensures |dstSrc| == |srcDst| == |keys|
    ensures forall p :: 0 <= p < |keys| ==> srcDst[p] < |keys| && dstSrc[srcDst[p]] == p
    ensures forall i :: 0 <= i < |keys| ==> dstSrc[i] < |keys| && srcDst[dstSrc[i]] == i
    ensures forall i, j :: 0 <= i < j < |keys| ==>
      keys[dstSrc[i]] < keys[dstSrc[j]] || (keys[dstSrc[i]] == keys[dstSrc[j]] && dstSrc[i] < dstSrc[j])
    ensures |counts| == experts && forall e :: 0 <= e < experts ==> counts[e] == Count(keys, e)
  {
    dstSrc := StableArgsort(keys);
    counts := Bincount(keys, experts);
    SortsPermutes(dstSrc, keys);
    var filled := new nat[|keys|](_ => 0);
    for i := 0 to |keys|
      invariant forall j :: 0 <= j < i ==> filled[dstSrc[j]] == j
    {
      filled[dstSrc[i]] := i;
    }
    srcDst := filled[..];
    forall p | 0 <= p < |keys|
      ensures srcDst[p] < |keys| && dstSrc[srcDst[p]] == p
    {
      PermutesOnto(dstSrc, |keys|, p);
      var i :| 0 <= i < |keys| && dstSrc[i] == p;
    }
  }
}
