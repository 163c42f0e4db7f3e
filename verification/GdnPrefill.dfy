/** Prefill steps of one request (gdn_prefix.py): where a step is cut so that a
    recurrent state can be captured, and what is captured in it. */
module GdnPrefill {
  import opened Outcome
  import opened Arithmetic
  import opened GdnPrefix

  /** A captured state: its offset inside the step, and its key. */
  datatype Point = Point(offset: int, key: Key)

  function Boundary(key: Key, blockSize: int): int {
    key.blocks * blockSize
  }

  ghost predicate AllWellFormed(keys: seq<Key>) {
    forall i :: 0 <= i < |keys| ==> WellFormed(keys[i])
  }

  // ---------------------------------------------------------------------
  // Sorted sets
  // ---------------------------------------------------------------------

  ghost predicate Ascending(s: seq<int>) {
    forall i, j :: 0 <= i < j < |s| ==> s[i] < s[j]
  }

  lemma {:induction false} LeastFrom(s: set<int>, x: int)
    requires x in s
    ensures exists m :: m in s && forall y :: y in s ==> m <= y
    decreases |s|
  {
    if y :| y in s && y < x {
      LeastFrom(s - {x}, y);
      var m :| m in s - {x} && forall z :: z in s - {x} ==> m <= z;
      assert m <= y;
      assert forall z :: z in s ==> z == x || z in s - {x};
    }
  }

  lemma LeastExists(s: set<int>)
    requires s != {}
    ensures exists m :: m in s && forall y :: y in s ==> m <= y
  {
    assert (forall x :: x !in s) ==> s == {};
    var x :| x in s;
    LeastFrom(s, x);
  }

  function Sorted(s: set<int>): (r: seq<int>)
    ensures Ascending(r)
    ensures forall x :: x in r <==> x in s
    decreases |s|
  {
    if s == {} then []
    else
      LeastExists(s);
      var m :| m in s && forall x :: x in s ==> m <= x;
      [m] + Sorted(s - {m})
  }

  /** A set has one ascending enumeration. */
  lemma {:induction false} AscendingUnique(a: seq<int>, b: seq<int>)
    requires Ascending(a) && Ascending(b)
    requires forall x :: x in a <==> x in b
    ensures a == b
  {
    assert |b| > 0 ==> b[0] in b && b[0] in a;
    assert |a| > 0 ==> a[0] in a && a[0] in b;
    if |a| > 0 {
      assert a[0] == b[0];
      assert forall x :: x in a[1..] <==> x in a && x != a[0];
      assert forall x :: x in b[1..] <==> x in b && x != b[0];
      assert a == [a[0]] + a[1..] && b == [b[0]] + b[1..];
      AscendingUnique(a[1..], b[1..]);
    }
  }

  // ---------------------------------------------------------------------
  // Captures of one step
  // ---------------------------------------------------------------------

  /** The captures that the first n targets ask for; the last target at a
      boundary wins. */
  function Selected(targets: seq<Key>, n: nat, context: int, end: int, blockSize: int): map<int, Key>
    requires n <= |targets|
  {
    if n == 0 then map[]
    else
      var before := Selected(targets, n - 1, context, end, blockSize);
      var boundary := Boundary(targets[n - 1], blockSize);
      if context < boundary <= end then before[boundary - context := targets[n - 1]] else before
  }

  /** Target i ends at x, and no later one does. */
  ghost predicate LastAt(targets: seq<Key>, n: nat, x: int, blockSize: int, i: nat)
    requires n <= |targets|
  {
    i < n && targets[i].blocks * blockSize == x && forall j :: i < j < n ==> targets[j].blocks * blockSize != x
  }

  /** Of several targets with one boundary the last is captured. */
  lemma {:induction false} SelectedLast(targets: seq<Key>, n: nat, context: int, end: int, blockSize: int, o: int) returns (i: nat)
    requires n <= |targets| && o in Selected(targets, n, context, end, blockSize)
    ensures LastAt(targets, n, context + o, blockSize, i) && Selected(targets, n, context, end, blockSize)[o] == targets[i]
  {
    var x := Boundary(targets[n - 1], blockSize);
    if context < x <= end && x - context == o {
      i := n - 1;
    } else {
      i := SelectedLast(targets, n - 1, context, end, blockSize, o);
      SelectedAt(targets, n - 1, context, end, blockSize, o);
    }
  }

  /** Every target inside the step is captured at its boundary, and nothing else is. */
  lemma {:induction false} SelectedAt(targets: seq<Key>, n: nat, context: int, end: int, blockSize: int, o: int)
    requires n <= |targets|
    ensures var m := Selected(targets, n, context, end, blockSize);
      && (o in m <==> context < context + o <= end && exists i :: 0 <= i < n && targets[i].blocks * blockSize == context + o)
      && (o in m ==> m[o] in targets && m[o].blocks * blockSize == context + o)
  {
    if n > 0 {
      SelectedAt(targets, n - 1, context, end, blockSize, o);
    }
  }

  function Points(m: map<int, Key>, offsets: seq<int>): (r: seq<Point>)
    requires forall i :: 0 <= i < |offsets| ==> offsets[i] in m
    ensures |r| == |offsets|
    ensures forall i :: 0 <= i < |r| ==> r[i] == Point(offsets[i], m[offsets[i]])
  {
    seq(|offsets|, i requires 0 <= i < |offsets| => Point(offsets[i], m[offsets[i]]))
  }

  method SelectTargets(targets: seq<Key>, context: int, end: int, blockSize: int) returns (r: Result<map<int, Key>, Error>)
    ensures r.Ok? <==> AllWellFormed(targets)
    ensures r.Ok? ==> r.value == Selected(targets, |targets|, context, end, blockSize)
    ensures r.Err? ==> r.error == NoCompleteBlock || r.error == WrongDigestLength
  {
    hide Boundary;
    var selected: map<int, Key> := map[];
    for i := 0 to |targets|
      invariant forall j :: 0 <= j < i ==> WellFormed(targets[j])
      invariant selected == Selected(targets, i, context, end, blockSize)
    {
      var made := MakePrefixKey(targets[i].blocks, targets[i].digest);
      if made.Err? {
        assert !WellFormed(targets[i]);
        return Err(made.error);
      }
      var boundary := Boundary(targets[i], blockSize);
      if context < boundary <= end {
        selected := selected[boundary - context := targets[i]];
      }
    }
    return Ok(selected);
  }

  method CapturePointsForStep(targets: seq<Key>, context: int, end: int, blockSize: int)
    returns (r: Result<seq<Point>, Error>)
    ensures context < 0 || end < 0 ==> r == Err(NegativePosition)
    ensures 0 <= end <= context ==> r == Ok([])
    ensures 0 <= context < end && !AllWellFormed(targets) ==> r == Err(NoCompleteBlock) || r == Err(WrongDigestLength)
    ensures 0 <= context < end && AllWellFormed(targets) ==>
      var m := Selected(targets, |targets|, context, end, blockSize);
      r == if |m.Keys| > 2 then Err(TooManyCapturePoints) else Ok(Points(m, Sorted(m.Keys)))
  {
    hide Selected, Sorted, AllWellFormed;
    if context < 0 || end < 0 {
      return Err(NegativePosition);
    }
    if end <= context {
      return Ok([]);
    }
    var selected := SelectTargets(targets, context, end, blockSize);
    if selected.Err? {
      return Err(selected.error);
    }
    SortedSize(selected.value.Keys);
    var points := Points(selected.value, Sorted(selected.value.Keys));
    if |points| > 2 {
      return Err(TooManyCapturePoints);
    }
    return Ok(points);
  }

  lemma {:induction false} SortedSize(s: set<int>)
    ensures |Sorted(s)| == |s|
    decreases |s|
  {
    if s != {} {
      LeastExists(s);
      var m :| m in s && forall x :: x in s ==> m <= x;
      SortedSize(s - {m});
    }
  }

  // ---------------------------------------------------------------------
  // Cutting a step at the next boundary
  // ---------------------------------------------------------------------

  ghost predicate IsTarget(targets: seq<Key>, x: int, blockSize: int) {
    exists t :: t in targets && Boundary(t, blockSize) == x
  }

  /** The end of the step is the earliest target boundary after its start, or the
      nominal end if that comes first. */
  ghost predicate IsCapped(capped: int, start: int, end: int, targets: seq<Key>, blockSize: int) {
    && (start < end ==> start < capped)
    && start <= capped <= end
    && (capped == end || IsTarget(targets, capped, blockSize))
    && forall t :: t in targets && start < Boundary(t, blockSize) ==> capped <= Boundary(t, blockSize)
  }

  method CapPrefillEnd(start: int, end: int, targets: seq<Key>, blockSize: int) returns (r: Result<int, Error>)
    ensures start < 0 || end < 0 ==> r == Err(NegativePosition)
    ensures 0 <= end < start ==> r == Err(EndBeforeStart)
    ensures 0 <= start <= end && blockSize <= 0 ==> r == Err(BlockSizeNotPositive)
    ensures 0 <= start <= end && blockSize > 0 ==> (r.Ok? <==> AllWellFormed(targets))
    ensures r.Ok? ==> 0 <= start <= end && blockSize > 0 && IsCapped(r.value, start, end, targets, blockSize)
  {
    if start < 0 || end < 0 {
      return Err(NegativePosition);
    }
    if end < start {
      return Err(EndBeforeStart);
    }
    if blockSize <= 0 {
      return Err(BlockSizeNotPositive);
    }
    var capped := end;
    for i := 0 to |targets|
      invariant forall j :: 0 <= j < i ==> WellFormed(targets[j])
      invariant IsCapped(capped, start, end, targets[..i], blockSize)
    {
      var key := targets[i];
      var made := MakePrefixKey(key.blocks, key.digest);
      if made.Err? {
        assert !WellFormed(targets[i]);
        return Err(made.error);
      }
      var boundary := key.blocks * blockSize;
      assert targets[..i + 1] == targets[..i] + [key];
      assert boundary == Boundary(key, blockSize);
      if start < boundary < capped {
        capped := boundary;
      }
    }
    assert targets[..|targets|] == targets;
    return Ok(capped);
  }

  // ---------------------------------------------------------------------
  // A whole prefill
  // ---------------------------------------------------------------------

  /** A step cut this way holds at most one capture, at its very end. */
  lemma CaptureOfCapped(targets: seq<Key>, start: int, capped: int, end: int, blockSize: int)
    requires start < end && IsCapped(capped, start, end, targets, blockSize)
    ensures Selected(targets, |targets|, start, capped, blockSize).Keys
      == if IsTarget(targets, capped, blockSize) then {capped - start} else {}
  {
    hide Selected;
    var m := Selected(targets, |targets|, start, capped, blockSize);
    forall o
      ensures o in m <==> o == capped - start && IsTarget(targets, capped, blockSize)
    {
      SelectedAt(targets, |targets|, start, capped, blockSize, o);
    }
  }

  /** What a step from start to end captures. */
  ghost predicate CapturesEnd(points: seq<Point>, start: int, end: int, targets: seq<Key>, blockSize: int) {
    if IsTarget(targets, end, blockSize) then
      |points| == 1 && points[0].offset == end - start && points[0].key in targets && Boundary(points[0].key, blockSize) == end
    else points == []
  }

  lemma PointsOfCapped(targets: seq<Key>, start: int, capped: int, end: int, blockSize: int)
    requires start < end && IsCapped(capped, start, end, targets, blockSize)
    ensures var m := Selected(targets, |targets|, start, capped, blockSize);
      |m.Keys| <= 1 && CapturesEnd(Points(m, Sorted(m.Keys)), start, capped, targets, blockSize)
  {
    hide Selected, IsCapped;
    var m := Selected(targets, |targets|, start, capped, blockSize);
    CaptureOfCapped(targets, start, capped, end, blockSize);
    SortedSize(m.Keys);
    if IsTarget(targets, capped, blockSize) {
      SelectedAt(targets, |targets|, start, capped, blockSize, capped - start);
      assert capped - start in Sorted(m.Keys);
    }
  }

  function StepStart(start: int, ends: seq<int>, i: nat): int
    requires i <= |ends|
  {
    if i == 0 then start else ends[i - 1]
  }

  /** The steps so far tile the tokens from start to here without a gap. */
  ghost predicate Tiles(start: int, here: int, ends: seq<int>) {
    && StepStart(start, ends, |ends|) == here
    && forall i :: 0 <= i < |ends| ==> StepStart(start, ends, i) < ends[i]
  }

  ghost predicate Reached(targets: seq<Key>, start: int, here: int, ends: seq<int>, blockSize: int) {
    forall t :: t in targets && start < Boundary(t, blockSize) <= here ==> Boundary(t, blockSize) in ends
  }

  lemma ReachedNext(targets: seq<Key>, start: int, here: int, capped: int, end: int, ends: seq<int>, blockSize: int)
    requires Reached(targets, start, here, ends, blockSize) && IsCapped(capped, here, end, targets, blockSize)
    ensures Reached(targets, start, capped, ends + [capped], blockSize)
  {
    hide Boundary;
    assert capped in ends + [capped];
  }

  ghost predicate AllCaptured(captured: seq<seq<Point>>, start: int, ends: seq<int>, targets: seq<Key>, blockSize: int)
    requires |captured| == |ends|
  {
    forall i :: 0 <= i < |ends| ==> CapturesEnd(captured[i], StepStart(start, ends, i), ends[i], targets, blockSize)
  }

  /** Prefill of the tokens from start to n, each step limited by the scheduler's
      budget and cut at the next target. */
  method RunPrefill(start: nat, n: nat, budget: nat -> nat, targets: seq<Key>, blockSize: int)
    returns (ends: seq<int>, captured: seq<seq<Point>>)
    requires start <= n && blockSize > 0 && AllWellFormed(targets)
    requires forall i :: budget(i) > 0
    ensures Tiles(start, n, ends) && |captured| == |ends| <= n - start
    ensures Reached(targets, start, n, ends, blockSize)
    ensures AllCaptured(captured, start, ends, targets, blockSize)
    // The same in numbers.
    ensures StepStart(start, ends, |ends|) == n
    ensures AllWhole(start, ends, n, budget, targets, blockSize)
    ensures forall i :: 0 <= i < |ends| ==> CapturedThere(captured[i], StepStart(start, ends, i), ends[i], targets, blockSize)
    ensures forall t :: t in targets && start < t.blocks * blockSize <= n ==> t.blocks * blockSize in ends
  {
    hide IsCapped, Reached, CapturesEnd, Selected, Points, Sorted, AllWellFormed, Tiles, AllCaptured, AllWhole, WholeStep, CapturedThere;
    ends, captured := [], [];
    var here := start;
    NothingYet(targets, start, blockSize);
    NothingWhole(start, n, budget, targets, blockSize);
    while here < n
      invariant start <= here <= n
      invariant Tiles(start, here, ends) && here == StepStart(start, ends, |ends|) && |captured| == |ends| <= here - start
      invariant Reached(targets, start, here, ends, blockSize)
      invariant AllCaptured(captured, start, ends, targets, blockSize)
      invariant AllWhole(start, ends, n, budget, targets, blockSize)
    {
      var end := if here + budget(|ends|) < n then here + budget(|ends|) else n;
      var capped := CapPrefillEnd(here, end, targets, blockSize);
      var points := CapturePointsForStep(targets, here, capped.value, blockSize);
      CappedMoves(capped.value, here, end, targets, blockSize);
      CappedIsWhole(capped.value, here, n, budget(|ends|), end, targets, blockSize);
      WholeNext(start, ends, capped.value, n, budget, targets, blockSize);
      PointsOfCapped(targets, here, capped.value, end, blockSize);
      CapturedNext(captured, points.value, start, ends, capped.value, targets, blockSize);
      TilesNext(start, here, ends, capped.value);
      ReachedNext(targets, start, here, capped.value, end, ends, blockSize);
      ends, captured, here := ends + [capped.value], captured + [points.value], capped.value;
    }
    forall i | 0 <= i < |ends|
      ensures CapturedThere(captured[i], StepStart(start, ends, i), ends[i], targets, blockSize)
    {
      CaptureMeans(captured, start, ends, targets, blockSize, i);
    }
    AllReached(targets, start, n, ends, blockSize);
  }

  /** A step takes what its budget and the prompt allow, or stops early at a target
      boundary; it never steps over one. */
  ghost predicate WholeStep(from: int, to: int, n: int, budget: nat, targets: seq<Key>, blockSize: int) {
    var nominal := Min(from + budget, n);
    && from < to <= nominal
    && (to == nominal || exists t :: t in targets && t.blocks * blockSize == to)
    && forall t :: t in targets && from < t.blocks * blockSize ==> to <= t.blocks * blockSize
  }

  /** A step that ends on a target boundary captures one such target there, any
      other step captures nothing. */
  ghost predicate CapturedThere(points: seq<Point>, from: int, to: int, targets: seq<Key>, blockSize: int) {
    if exists t :: t in targets && t.blocks * blockSize == to then
      |points| == 1 && points[0].offset == to - from && points[0].key in targets && points[0].key.blocks * blockSize == to
    else points == []
  }

  ghost predicate AllWhole(start: int, ends: seq<int>, n: int, budget: nat -> nat, targets: seq<Key>, blockSize: int) {
    forall i :: 0 <= i < |ends| ==> WholeStep(StepStart(start, ends, i), ends[i], n, budget(i), targets, blockSize)
  }

  lemma WholeNext(start: int, ends: seq<int>, next: int, n: int, budget: nat -> nat, targets: seq<Key>, blockSize: int)
    requires AllWhole(start, ends, n, budget, targets, blockSize)
    requires WholeStep(StepStart(start, ends, |ends|), next, n, budget(|ends|), targets, blockSize)
    ensures AllWhole(start, ends + [next], n, budget, targets, blockSize)
  {
    hide WholeStep, StepStart;
    var longer := ends + [next];
    forall i: nat | i < |longer|
      ensures WholeStep(StepStart(start, longer, i), longer[i], n, budget(i), targets, blockSize)
    {
      SameStart(start, ends, next, i);
      if i < |ends| {
        assert WholeStep(StepStart(start, ends, i), ends[i], n, budget(i), targets, blockSize);
      }
    }
  }

  lemma SameStart(start: int, ends: seq<int>, next: int, i: nat)
    requires i <= |ends|
    ensures StepStart(start, ends + [next], i) == StepStart(start, ends, i)
  {
  }

  lemma NothingWhole(start: int, n: int, budget: nat -> nat, targets: seq<Key>, blockSize: int)
    ensures AllWhole(start, [], n, budget, targets, blockSize)
  {
  }

  lemma CappedIsWhole(capped: int, from: int, n: int, budget: nat, end: int, targets: seq<Key>, blockSize: int)
    requires from < end == Min(from + budget, n) && IsCapped(capped, from, end, targets, blockSize)
    ensures WholeStep(from, capped, n, budget, targets, blockSize)
  {
    forall t | t in targets && from < t.blocks * blockSize ensures capped <= t.blocks * blockSize {
      assert Boundary(t, blockSize) == t.blocks * blockSize;
    }
  }

  lemma CaptureMeans(captured: seq<seq<Point>>, start: int, ends: seq<int>, targets: seq<Key>, blockSize: int, i: nat)
    requires |captured| == |ends| && i < |ends| && AllCaptured(captured, start, ends, targets, blockSize)
    ensures CapturedThere(captured[i], StepStart(start, ends, i), ends[i], targets, blockSize)
  {
    assert CapturesEnd(captured[i], StepStart(start, ends, i), ends[i], targets, blockSize);
    if t :| t in targets && t.blocks * blockSize == ends[i] {
      assert Boundary(t, blockSize) == ends[i];
    }
  }

  lemma AllReached(targets: seq<Key>, start: int, n: int, ends: seq<int>, blockSize: int)
    requires Reached(targets, start, n, ends, blockSize)
    ensures forall t :: t in targets && start < t.blocks * blockSize <= n ==> t.blocks * blockSize in ends
  {
    forall t | t in targets && start < t.blocks * blockSize <= n ensures t.blocks * blockSize in ends {
      assert Boundary(t, blockSize) == t.blocks * blockSize;
    }
  }

  lemma NothingYet(targets: seq<Key>, start: int, blockSize: int)
    ensures Tiles(start, start, []) && Reached(targets, start, start, [], blockSize)
    ensures AllCaptured([], start, [], targets, blockSize)
  {
  }

  lemma TilesNext(start: int, here: int, ends: seq<int>, next: int)
    requires Tiles(start, here, ends) && here < next
    ensures Tiles(start, next, ends + [next])
  {
    assert forall i :: 0 <= i <= |ends| ==> StepStart(start, ends + [next], i) == StepStart(start, ends, i);
  }

  lemma CapturedNext(captured: seq<seq<Point>>, points: seq<Point>, start: int, ends: seq<int>, next: int, targets: seq<Key>, blockSize: int)
    requires |captured| == |ends| && AllCaptured(captured, start, ends, targets, blockSize)
    requires CapturesEnd(points, StepStart(start, ends, |ends|), next, targets, blockSize)
    ensures AllCaptured(captured + [points], start, ends + [next], targets, blockSize)
  {
    hide CapturesEnd;
    forall i | 0 <= i <= |ends|
      ensures CapturesEnd((captured + [points])[i], StepStart(start, ends + [next], i), (ends + [next])[i], targets, blockSize)
    {
      assert StepStart(start, ends + [next], i) == StepStart(start, ends, i);
    }
  }

  lemma CappedMoves(capped: int, start: int, end: int, targets: seq<Key>, blockSize: int)
    requires start < end && IsCapped(capped, start, end, targets, blockSize)
    ensures start < capped <= end
  {
  }

  ghost predicate EndsOnlyStep(ends: seq<int>, i: int, x: int) {
    0 <= i < |ends| && ends[i] == x && forall j :: 0 <= j < |ends| && ends[j] == x ==> j == i
  }

  /** So every target boundary inside the prefill ends exactly one step, and that
      step captures it. */
  lemma EachTargetOnce(start: int, n: int, ends: seq<int>, targets: seq<Key>, blockSize: int, t: Key)
    requires Tiles(start, n, ends) && Reached(targets, start, n, ends, blockSize)
    requires t in targets && start < Boundary(t, blockSize) <= n
    ensures exists i :: EndsOnlyStep(ends, i, Boundary(t, blockSize))
  {
    var i :| 0 <= i < |ends| && ends[i] == Boundary(t, blockSize);
    forall j | 0 <= j < |ends| && j != i
      ensures ends[j] != ends[i]
    {
      if j < i {
        Climbs(start, n, ends, j, i);
      } else {
        Climbs(start, n, ends, i, j);
      }
    }
    assert EndsOnlyStep(ends, i, Boundary(t, blockSize));
  }

  lemma {:induction false} Climbs(start: int, n: int, ends: seq<int>, i: nat, j: nat)
    requires Tiles(start, n, ends) && i < j < |ends|
    ensures ends[i] < ends[j]
    decreases j
  {
    assert StepStart(start, ends, j) < ends[j];
    if i < j - 1 {
      Climbs(start, n, ends, i, j - 1);
    }
  }
}
