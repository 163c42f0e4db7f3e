/** The index of resident recurrent states (gdn_prefix.py, lines 217-291): a
    least-recently-used cache whose decisions the worker replays. */
module GdnStatePolicy {
  import opened Outcome
  import opened Arithmetic
  import opened GdnPrefix

  datatype Policy = Fine32 | Admission64 | Off

  function Capacity(policy: Policy): nat {
    match policy
    case Fine32 => 32
    case Admission64 => 64
    case Off => 0
  }

  // ---------------------------------------------------------------------
  // Recency
  // ---------------------------------------------------------------------

  function Without(s: seq<Key>, k: Key): (r: seq<Key>)
    ensures |r| <= |s|
    ensures forall x :: x in r <==> x in s && x != k
  {
    if |s| == 0 then []
    else
      var rest := Without(s[..|s| - 1], k);
      assert s == s[..|s| - 1] + [s[|s| - 1]];
      if s[|s| - 1] == k then rest else rest + [s[|s| - 1]]
  }

  /** Touching a key makes it the most recent one. */
  function Touched(s: seq<Key>, k: Key): (r: seq<Key>)
    ensures |r| > 0 && r[|r| - 1] == k
  {
    Without(s, k) + [k]
  }

  /** The most recent cap entries. */
  function Newest(s: seq<Key>, cap: nat): (r: seq<Key>)
    ensures |r| == if |s| <= cap then |s| else cap
  {
    if |s| <= cap then s else s[|s| - cap..]
  }

  function Oldest(s: seq<Key>, cap: nat): (r: seq<Key>)
    ensures |r| + |Newest(s, cap)| == |s|
  {
    if |s| <= cap then [] else s[..|s| - cap]
  }

  /** The distinct keys of a history of touches, least recent first. */
  function Recency(history: seq<Key>): seq<Key> {
    if |history| == 0 then [] else Touched(Recency(history[..|history| - 1]), history[|history| - 1])
  }

  /** Position of the last touch of a key; -1 if it was never touched. */
  function LastTouch(history: seq<Key>, k: Key): (t: int)
    ensures -1 <= t < |history|
    ensures t >= 0 <==> k in history
  {
    if |history| == 0 then -1
    else if history[|history| - 1] == k then |history| - 1
    else
      assert history == history[..|history| - 1] + [history[|history| - 1]];
      LastTouch(history[..|history| - 1], k)
  }

  /** The entries stand in the order of their last touches. */
  ghost predicate RecencyOrder(s: seq<Key>, history: seq<Key>) {
    && (forall i :: 0 <= i < |s| ==> s[i] in history)
    && forall i, j :: 0 <= i < j < |s| ==> LastTouch(history, s[i]) < LastTouch(history, s[j])
  }

  ghost predicate Distinct(s: seq<Key>) {
    forall i, j :: 0 <= i < j < |s| ==> s[i] != s[j]
  }

  lemma OrderIsDistinct(s: seq<Key>, history: seq<Key>)
    requires RecencyOrder(s, history)
    ensures Distinct(s)
  {
  }

  lemma {:induction false} WithoutJoin(a: seq<Key>, b: seq<Key>, k: Key)
    ensures Without(a + b, k) == Without(a, k) + Without(b, k)
  {
    if |b| == 0 {
      assert a + b == a;
    } else {
      WithoutJoin(a, b[..|b| - 1], k);
      assert (a + b)[..|a + b| - 1] == a + b[..|b| - 1];
    }
  }

  lemma {:induction false} WithoutAbsent(s: seq<Key>, k: Key)
    requires k !in s
    ensures Without(s, k) == s
  {
    if |s| > 0 {
      WithoutAbsent(s[..|s| - 1], k);
    }
  }

  /** Removing one of distinct entries. */
  lemma WithoutAt(s: seq<Key>, i: nat)
    requires Distinct(s) && i < |s|
    ensures Without(s, s[i]) == s[..i] + s[i + 1..]
  {
    hide Without;
    var k := s[i];
    var front, back := s[..i], s[i + 1..];
    assert s == (front + [k]) + back;
    WithoutJoin(front + [k], back, k);
    WithoutJoin(front, [k], k);
    WithoutAbsent(front, k);
    WithoutAbsent(back, k);
    WithoutItself(k);
  }

  lemma WithoutItself(k: Key)
    ensures Without([k], k) == []
  {
    assert [k][..0] == [];
  }

  lemma WithoutInOrder(s: seq<Key>, history: seq<Key>, k: Key)
    requires RecencyOrder(s, history)
    ensures RecencyOrder(Without(s, k), history)
  {
    hide Without, LastTouch;
    OrderIsDistinct(s, history);
    if k in s {
      var i :| 0 <= i < |s| && s[i] == k;
      WithoutAt(s, i);
    } else {
      WithoutAbsent(s, k);
    }
  }

  lemma LastTouchNext(history: seq<Key>, k: Key, x: Key)
    ensures LastTouch(history + [k], x) == if x == k then |history| else LastTouch(history, x)
  {
    assert (history + [k])[..|history|] == history;
  }

  lemma TouchedInOrder(s: seq<Key>, history: seq<Key>, k: Key)
    requires RecencyOrder(s, history)
    ensures RecencyOrder(Touched(s, k), history + [k])
  {
    hide Without, LastTouch;
    WithoutInOrder(s, history, k);
    var w := Without(s, k);
    forall i | 0 <= i < |w|
      ensures w[i] in history && w[i] != k
    {
      assert w[i] in w;
    }
    forall x
      ensures LastTouch(history + [k], x) == if x == k then |history| else LastTouch(history, x)
    {
      LastTouchNext(history, k, x);
    }
  }

  lemma NewestInOrder(s: seq<Key>, history: seq<Key>, cap: nat)
    requires RecencyOrder(s, history)
    ensures RecencyOrder(Newest(s, cap), history)
  {
  }

  // ---------------------------------------------------------------------
  // Admission
  // ---------------------------------------------------------------------

  function Admitted(s: seq<Key>, keys: seq<Key>, n: nat, cap: nat): seq<Key>
    requires n <= |keys|
  {
    if n == 0 then s else Newest(Touched(Admitted(s, keys, n - 1, cap), keys[n - 1]), cap)
  }

  function Evicted(s: seq<Key>, keys: seq<Key>, n: nat, cap: nat): seq<Key>
    requires n <= |keys|
  {
    if n == 0 then []
    else Evicted(s, keys, n - 1, cap) + Oldest(Touched(Admitted(s, keys, n - 1, cap), keys[n - 1]), cap)
  }

  /** The keys that were not resident when their turn came. */
  function Inserted(s: seq<Key>, keys: seq<Key>, n: nat, cap: nat): seq<Key>
    requires n <= |keys|
  {
    if n == 0 then []
    else
      Inserted(s, keys, n - 1, cap) + if keys[n - 1] in Admitted(s, keys, n - 1, cap) then [] else [keys[n - 1]]
  }

  lemma {:induction false} AdmittedInOrder(s: seq<Key>, history: seq<Key>, keys: seq<Key>, n: nat, cap: nat)
    requires RecencyOrder(s, history) && n <= |keys| && |s| <= cap
    ensures RecencyOrder(Admitted(s, keys, n, cap), history + keys[..n])
    ensures |Admitted(s, keys, n, cap)| <= cap
  {
    hide Touched, RecencyOrder;
    if n == 0 {
      assert history + keys[..0] == history;
    } else {
      AdmittedInOrder(s, history, keys, n - 1, cap);
      var before := Admitted(s, keys, n - 1, cap);
      TouchedInOrder(before, history + keys[..n - 1], keys[n - 1]);
      assert history + keys[..n - 1] + [keys[n - 1]] == history + keys[..n];
      NewestInOrder(Touched(before, keys[n - 1]), history + keys[..n], cap);
    }
  }

  /** One admission evicts at most one key, the least recently touched of all, and
      never the key just admitted. */
  lemma EvictsLeastRecent(s: seq<Key>, history: seq<Key>, k: Key, cap: nat)
    requires RecencyOrder(s, history) && |s| <= cap && cap > 0
    ensures var out := Oldest(Touched(s, k), cap);
      var kept := Newest(Touched(s, k), cap);
      && |out| <= 1 && k !in out && k in kept
      && (out == [] <==> k in s || |s| < cap)
      && forall e, x :: e in out && x in kept ==> LastTouch(history + [k], e) < LastTouch(history + [k], x)
  {
    var t := Touched(s, k);
    TouchedInOrder(s, history, k);
    OrderIsDistinct(s, history);
    if k in s {
      var i :| 0 <= i < |s| && s[i] == k;
      WithoutAt(s, i);
    } else {
      WithoutAbsent(s, k);
    }
    assert t[|t| - 1] == k;
    assert Newest(t, cap)[|Newest(t, cap)| - 1] == k;
  }

  /** Keys are reported in the order in which they were evicted. */
  lemma {:induction false} EvictedInOrder(s: seq<Key>, keys: seq<Key>, m: nat, n: nat, cap: nat)
    requires m <= n <= |keys|
    ensures Evicted(s, keys, m, cap) <= Evicted(s, keys, n, cap)
  {
    hide Admitted, Touched, Newest, Oldest;
    if m < n {
      EvictedInOrder(s, keys, m, n - 1, cap);
    }
  }

  lemma MovedToEnd(p: seq<Key>, k: Key, q: seq<Key>)
    ensures multiset(p + q + [k]) == multiset(p + [k] + q)
  {
  }

  lemma TouchedContent(s: seq<Key>, k: Key)
    requires Distinct(s)
    ensures multiset(Touched(s, k)) == multiset(s) + if k in s then multiset{} else multiset{k}
  {
    hide Without;
    if k in s {
      var i :| 0 <= i < |s| && s[i] == k;
      OneRemoved(s, i);
    } else {
      WithoutAbsent(s, k);
      assert Touched(s, k) == s + [k];
    }
  }

  lemma OneRemoved(s: seq<Key>, i: nat)
    requires Distinct(s) && i < |s|
    ensures multiset(Touched(s, s[i])) == multiset(s)
  {
    hide Without, Distinct;
    WithoutAt(s, i);
    assert s == s[..i] + [s[i]] + s[i + 1..];
    MovedToEnd(s[..i], s[i], s[i + 1..]);
  }

  lemma Regrouped(a: multiset<Key>, e: multiset<Key>, s: multiset<Key>, i: multiset<Key>, t: multiset<Key>, o: multiset<Key>, n: multiset<Key>, x: multiset<Key>)
    requires a + e == s + i && t == a + x && t == o + n
    ensures n + (e + o) == s + (i + x)
  {
    assert n + (e + o) == (o + n) + e;
    assert (a + x) + e == (a + e) + x;
    assert (s + i) + x == s + (i + x);
  }

  lemma SplitContent(t: seq<Key>, cap: nat)
    ensures multiset(t) == multiset(Oldest(t, cap)) + multiset(Newest(t, cap))
  {
    assert t == Oldest(t, cap) + Newest(t, cap);
  }

  /** Nothing is lost and nothing invented: what is resident and what was evicted
      is what was resident before and what was inserted. */
  lemma {:induction false} AdmitConserves(s: seq<Key>, history: seq<Key>, keys: seq<Key>, n: nat, cap: nat)
    requires RecencyOrder(s, history) && n <= |keys| && |s| <= cap
    ensures multiset(Admitted(s, keys, n, cap)) + multiset(Evicted(s, keys, n, cap))
      == multiset(s) + multiset(Inserted(s, keys, n, cap))
  {
    hide Without, Touched, Newest, Oldest, RecencyOrder;
    if n > 0 {
      AdmitConserves(s, history, keys, n - 1, cap);
      var before := Admitted(s, keys, n - 1, cap);
      AdmittedInOrder(s, history, keys, n - 1, cap);
      OrderIsDistinct(before, history + keys[..n - 1]);
      TouchedContent(before, keys[n - 1]);
      AdmitOneContent(s, keys, n, cap);
    }
  }

  lemma AdmitOneContent(s: seq<Key>, keys: seq<Key>, n: nat, cap: nat)
    requires 0 < n <= |keys|
    requires multiset(Admitted(s, keys, n - 1, cap)) + multiset(Evicted(s, keys, n - 1, cap))
      == multiset(s) + multiset(Inserted(s, keys, n - 1, cap))
    requires var before, k := Admitted(s, keys, n - 1, cap), keys[n - 1];
      multiset(Touched(before, k)) == multiset(before) + if k in before then multiset{} else multiset{k}
    ensures multiset(Admitted(s, keys, n, cap)) + multiset(Evicted(s, keys, n, cap))
      == multiset(s) + multiset(Inserted(s, keys, n, cap))
  {
    hide Touched, Newest, Oldest;
    var before, k := Admitted(s, keys, n - 1, cap), keys[n - 1];
    var t := Touched(before, k);
    SplitContent(t, cap);
    var added := if k in before then [] else [k];
    Regrouped(multiset(before), multiset(Evicted(s, keys, n - 1, cap)), multiset(s), multiset(Inserted(s, keys, n - 1, cap)),
              multiset(t), multiset(Oldest(t, cap)), multiset(Newest(t, cap)), multiset(added));
  }

  /** In numbers: the size changes by insertions less evictions. */
  lemma AdmitSize(s: seq<Key>, history: seq<Key>, keys: seq<Key>, n: nat, cap: nat)
    requires RecencyOrder(s, history) && n <= |keys| && |s| <= cap
    ensures |Admitted(s, keys, n, cap)| == |s| + |Inserted(s, keys, n, cap)| - |Evicted(s, keys, n, cap)|
  {
    hide Admitted, Evicted, Inserted, RecencyOrder;
    AdmitConserves(s, history, keys, n, cap);
    var a, e, i := Admitted(s, keys, n, cap), Evicted(s, keys, n, cap), Inserted(s, keys, n, cap);
    assert |multiset(a) + multiset(e)| == |a| + |e|;
    assert |multiset(s) + multiset(i)| == |s| + |i|;
  }

  lemma {:induction false} RecencyDistinct(history: seq<Key>)
    ensures Distinct(Recency(history))
    ensures RecencyOrder(Recency(history), history)
  {
    if |history| > 0 {
      var h := history[..|history| - 1];
      RecencyDistinct(h);
      TouchedInOrder(Recency(h), h, history[|history| - 1]);
      assert h + [history[|history| - 1]] == history;
    }
    OrderIsDistinct(Recency(history), history);
  }

  lemma NewestOfTouched(r: seq<Key>, k: Key, cap: nat)
    requires Distinct(r)
    ensures Newest(Touched(Newest(r, cap), k), cap) == Newest(Touched(r, k), cap)
  {
    hide Without;
    if |r| > cap {
      var m := |r| - cap;
      assert r == r[..m] + r[m..];
      WithoutJoin(r[..m], r[m..], k);
      if k in r[m..] {
        var i :| m <= i < |r| && r[i] == k;
        TouchedInside(r, i, m);
      } else {
        WithoutAbsent(r[m..], k);
        TouchedOutside(Without(r[..m], k), r[m..], k, cap);
      }
    }
  }

  lemma DistinctTail(r: seq<Key>, m: nat)
    requires Distinct(r) && m <= |r|
    ensures Distinct(r[m..])
  {
  }

  lemma TouchedInside(r: seq<Key>, i: nat, m: nat)
    requires Distinct(r) && m <= i < |r|
    ensures Newest(Touched(r[m..], r[i]), |r| - m) == Newest(Touched(r, r[i]), |r| - m)
  {
    hide Without, Distinct;
    var k := r[i];
    WithoutAt(r, i);
    DistinctTail(r, m);
    WithoutAt(r[m..], i - m);
    assert r[m..][i - m] == k;
    assert r[m..][..i - m] == r[m..i] && r[m..][i - m + 1..] == r[i + 1..];
    assert r[..i] == r[..m] + r[m..i];
    assert Touched(r, k) == r[..m] + (r[m..i] + r[i + 1..] + [k]);
  }

  lemma TouchedOutside(front: seq<Key>, last: seq<Key>, k: Key, cap: nat)
    requires |last| == cap
    ensures Newest(last + [k], cap) == Newest(front + last + [k], cap)
  {
  }

  lemma RecencyNext(history: seq<Key>, k: Key)
    ensures Recency(history + [k]) == Touched(Recency(history), k)
  {
    assert (history + [k])[..|history|] == history;
  }

  /** The cache is exactly the most recently touched distinct keys. */
  lemma {:induction false} AdmittedAreNewest(history: seq<Key>, keys: seq<Key>, n: nat, cap: nat)
    requires n <= |keys|
    ensures Admitted(Newest(Recency(history), cap), keys, n, cap) == Newest(Recency(history + keys[..n]), cap)
  {
    hide Recency, Touched, Newest, RecencyOrder, Distinct;
    if n == 0 {
      assert history + keys[..0] == history;
    } else {
      AdmittedAreNewest(history, keys, n - 1, cap);
      var before := history + keys[..n - 1];
      assert before + [keys[n - 1]] == history + keys[..n];
      RecencyNext(before, keys[n - 1]);
      RecencyDistinct(before);
      NewestOfTouched(Recency(before), keys[n - 1], cap);
    }
  }

  // ---------------------------------------------------------------------
  // The policy object
  // ---------------------------------------------------------------------

  /** The leading keys that are well formed. */
  function ValidPrefix(keys: seq<Key>): (n: nat)
    ensures n <= |keys|
    ensures forall i :: 0 <= i < n ==> WellFormed(keys[i])
    ensures n < |keys| ==> !WellFormed(keys[n])
  {
    if |keys| == 0 || !WellFormed(keys[0]) then 0 else 1 + ValidPrefix(keys[1..])
  }

  function Limited(live: seq<Key>, maxBlocks: int): seq<Key> {
    if maxBlocks <= 0 then [] else if maxBlocks >= |live| then live else live[..maxBlocks]
  }

  /** This key is resident and no later one of the list is. */
  ghost predicate LastResident(live: seq<Key>, best: Key, resident: seq<Key>) {
    exists i :: 0 <= i < |live| && live[i] == best && best in resident && forall j :: i < j < |live| ==> live[j] !in resident
  }

  class GdnPrefixStatePolicy {
    const policy: Policy
    const capacity: nat
    /** The resident keys, least recently used first. */
    var resident: seq<Key>
    /** Every touch so far: admissions and restores. */
    ghost var history: seq<Key>

    ghost predicate Valid()
      reads this
    {
      capacity == Capacity(policy) && |resident| <= capacity && RecencyOrder(resident, history)
    }

    constructor (policy: Policy)
      ensures Valid() && this.policy == policy && resident == [] && history == []
      ensures capacity == match policy case Fine32 => 32 case Admission64 => 64 case Off => 0
    {
      this.policy := policy;
      capacity := Capacity(policy);
      resident := [];
      history := [];
    }

    function ShouldCaptureFinal(key: Key): (r: Result<bool, Error>)
      reads this
      ensures r.Ok? <==> WellFormed(key)
      ensures WellFormed(key) && policy.Fine32? ==> r.value
      ensures WellFormed(key) && policy.Off? ==> !r.value
      ensures WellFormed(key) && policy.Admission64? ==> (r.value <==> Inserted(resident, [key], 1, capacity) == [key])
    {
      var made := MakePrefixKey(key.blocks, key.digest);
      if made.Err? then Err(made.error)
      else if policy.Off? then Ok(false)
      else if policy.Admission64? then Ok(key !in resident)
      else Ok(true)
    }

    /** The longest resident prefix, which becomes the most recent entry. */
    method SelectRestore(live: seq<Key>, maxBlocks: int) returns (best: Option<Key>)
      requires Valid()
      modifies this`resident, this`history
      ensures Valid()
      ensures best.None? <==> forall k :: k in Limited(live, maxBlocks) ==> k !in old(resident)
      ensures best.None? ==> resident == old(resident) && history == old(history)
      ensures best.Some? ==> LastResident(Limited(live, maxBlocks), best.value, old(resident))
      ensures best.Some? ==> resident == Touched(old(resident), best.value) && history == old(history) + [best.value]
      // Position by position: the last of the first maxBlocks that is resident.
      ensures best.None? <==> forall i :: 0 <= i < |live| && i < maxBlocks ==> live[i] !in old(resident)
      ensures best.Some? ==> exists i ::
        && 0 <= i < |live| && i < maxBlocks && live[i] == best.value && best.value in old(resident)
        && forall j :: i < j < |live| && j < maxBlocks ==> live[j] !in old(resident)
    {
      hide RecencyOrder, Touched, LastTouch, Without, LastResident;
      if capacity == 0 || maxBlocks <= 0 {
        return None;
      }
      best := None;
      var limited := Limited(live, maxBlocks);
      for i := 0 to |limited|
        invariant resident == old(resident) && history == old(history)
        invariant best.None? ==> forall j :: 0 <= j < i ==> limited[j] !in resident
        invariant best.Some? ==> LastResident(limited[..i], best.value, resident)
      {
        if limited[i] in resident {
          best := Some(limited[i]);
        }
        if best.Some? {
          StillLast(limited, i, best, resident);
        }
      }
      assert limited[..|limited|] == limited;
      if best.Some? {
        LimitedMeaning(live, maxBlocks, best.value, resident);
        Restored(resident, history, best.value);
        resident := Touched(resident, best.value);
        history := history + [best.value];
      } else {
        LimitedMeaning(live, maxBlocks, Key(0, []), resident);
      }
    }

    /** A repeated branch whose raw blocks are live but whose state is not. */
    function RepeatedBranchCandidate(live: seq<Key>, maxBlocks: int): (r: Option<Key>)
      reads this
      ensures var limited := Limited(live, maxBlocks);
        if policy.Admission64? && limited != [] && limited[|limited| - 1] !in resident then
          r == Some(limited[|limited| - 1])
        else r == None
    {
      if !policy.Admission64? || maxBlocks <= 0 || |live| == 0 then None
      else
        var candidate := live[Min(|live|, maxBlocks) - 1];
        if candidate in resident then None else Some(candidate)
    }

    /** Admits keys up to the first malformed one, which is an error. */
    method Admit(keys: seq<Key>) returns (r: Result<seq<Key>, Error>)
      requires Valid()
      modifies this`resident, this`history
      ensures Valid()
      ensures capacity == 0 ==> r == Ok([]) && resident == old(resident) && history == old(history)
      ensures capacity > 0 ==> resident == Admitted(old(resident), keys, ValidPrefix(keys), capacity)
      ensures capacity > 0 ==> history == old(history) + keys[..ValidPrefix(keys)]
      ensures capacity > 0 ==> (r.Ok? <==> ValidPrefix(keys) == |keys|)
      ensures capacity > 0 && r.Ok? ==> r.value == Evicted(old(resident), keys, |keys|, capacity)
    {
      hide RecencyOrder, Touched, Newest, Oldest;
      var evicted: seq<Key> := [];
      if capacity == 0 {
        return Ok([]);
      }
      ghost var good := ValidPrefix(keys);
      for i := 0 to |keys|
        invariant i <= good && |resident| <= capacity
        invariant resident == Admitted(old(resident), keys, i, capacity)
        invariant evicted == Evicted(old(resident), keys, i, capacity)
        invariant history == old(history) + keys[..i]
      {
        var key := keys[i];
        var made := MakePrefixKey(key.blocks, key.digest);
        if made.Err? {
          AdmittedInOrder(old(resident), old(history), keys, i, capacity);
          return Err(made.error);
        }
        var out := AdmitOne(key);
        evicted := evicted + out;
        assert keys[..i + 1] == keys[..i] + [key];
      }
      AdmittedInOrder(old(resident), old(history), keys, |keys|, capacity);
      return Ok(evicted);
    }

    /** One round of the admission loop. */
    method AdmitOne(key: Key) returns (out: seq<Key>)
      requires |resident| <= capacity
      modifies this`resident, this`history
      ensures resident == Newest(Touched(old(resident), key), capacity)
      ensures out == Oldest(Touched(old(resident), key), capacity)
      ensures history == old(history) + [key]
    {
      hide Without, Newest, Oldest;
      if key in resident {
        resident := Without(resident, key) + [key];
      } else {
        WithoutAbsent(resident, key);
        resident := resident + [key];
      }
      history := history + [key];
      out := Trim();
    }

    /** Drops the least recent entries until the capacity is met. */
    method Trim() returns (out: seq<Key>)
      modifies this`resident
      ensures resident == Newest(old(resident), capacity) && out == Oldest(old(resident), capacity)
    {
      out := [];
      while |resident| > capacity
        invariant |out| + |resident| == |old(resident)|
        invariant resident == old(resident)[|out|..] && out == old(resident)[..|out|]
        invariant out == [] || |resident| >= capacity
      {
        out, resident := out + [resident[0]], resident[1..];
      }
    }

    method Forget(keys: seq<Key>)
      requires Valid()
      modifies this`resident
      ensures Valid()
      ensures forall k :: k in resident <==> k in old(resident) && k !in keys
    {
      hide RecencyOrder, Without;
      for i := 0 to |keys|
        invariant |resident| <= capacity && RecencyOrder(resident, history)
        invariant forall k :: k in resident <==> k in old(resident) && k !in keys[..i]
      {
        WithoutInOrder(resident, history, keys[i]);
        assert forall k :: k in keys[..i + 1] <==> k in keys[..i] || k == keys[i];
        resident := Without(resident, keys[i]);
      }
      assert keys[..|keys|] == keys;
    }
  }

  /** A final state is asked for exactly when admitting its key would make a new
      entry: capturing puts the key into the index, so it is captured once, and a
      key that is turned down would have displaced nothing. */
  lemma CapturedOnce(index: GdnPrefixStatePolicy, key: Key)
    requires index.Valid() && index.policy.Admission64? && WellFormed(key)
    ensures index.ShouldCaptureFinal(key).value <==>
      multiset(Admitted(index.resident, [key], 1, index.capacity)) != multiset(index.resident)
    ensures key in Admitted(index.resident, [key], 1, index.capacity)
    ensures !index.ShouldCaptureFinal(key).value ==> Evicted(index.resident, [key], 1, index.capacity) == []
  {
    hide RecencyOrder, Touched, Newest, Oldest;
    var s := index.resident;
    assert Admitted(s, [key], 0, index.capacity) == s && Evicted(s, [key], 0, index.capacity) == [];
    EvictsLeastRecent(s, index.history, key, index.capacity);
    OrderIsDistinct(s, index.history);
    TouchedContent(s, key);
    SplitContent(Touched(s, key), index.capacity);
    if key !in s {
      assert key in multiset(Admitted(s, [key], 1, index.capacity)) && key !in multiset(s);
    } else {
      var t := Touched(s, key);
      assert Oldest(t, index.capacity) == [] && multiset(Newest(t, index.capacity)) == multiset(t) == multiset(s);
      assert Admitted(s, [key], 1, index.capacity) == Newest(t, index.capacity);
      assert Inserted(s, [key], 0, index.capacity) == [];
    }
  }

  lemma StillLast(limited: seq<Key>, i: nat, best: Option<Key>, resident: seq<Key>)
    requires i < |limited| && best.Some?
    requires if limited[i] in resident then best.value == limited[i] else LastResident(limited[..i], best.value, resident)
    ensures LastResident(limited[..i + 1], best.value, resident)
  {
    var next := limited[..i + 1];
    if limited[i] in resident {
      assert next[i] == best.value && |next| == i + 1;
    } else {
      var at :| 0 <= at < i && limited[..i][at] == best.value
        && forall j :: at < j < i ==> limited[..i][j] !in resident;
      assert forall j :: 0 <= j < i ==> next[j] == limited[..i][j];
      assert next[at] == best.value && forall j :: at < j < |next| ==> next[j] !in resident;
    }
  }

  /** The limited list, position by position. */
  lemma LimitedMeaning(live: seq<Key>, maxBlocks: int, best: Key, resident: seq<Key>)
    ensures (forall k :: k in Limited(live, maxBlocks) ==> k !in resident)
      <==> forall i :: 0 <= i < |live| && i < maxBlocks ==> live[i] !in resident
    ensures LastResident(Limited(live, maxBlocks), best, resident) ==> exists i ::
        && 0 <= i < |live| && i < maxBlocks && live[i] == best && best in resident
        && forall j :: i < j < |live| && j < maxBlocks ==> live[j] !in resident
  {
    var limited := Limited(live, maxBlocks);
    assert forall i :: 0 <= i < |limited| ==> limited[i] == live[i];
    forall i | 0 <= i < |live| && i < maxBlocks ensures live[i] in limited {
      assert limited[i] == live[i];
    }
    if LastResident(limited, best, resident) {
      var i :| 0 <= i < |limited| && limited[i] == best && best in resident
        && forall j :: i < j < |limited| ==> limited[j] !in resident;
      forall j | i < j < |live| && j < maxBlocks ensures live[j] !in resident {
        assert limited[j] == live[j];
      }
    }
  }

  /** A restore keeps the size and the order. */
  lemma Restored(s: seq<Key>, history: seq<Key>, k: Key)
    requires RecencyOrder(s, history) && k in s
    ensures RecencyOrder(Touched(s, k), history + [k]) && |Touched(s, k)| == |s|
  {
    hide Without, LastTouch;
    TouchedInOrder(s, history, k);
    OrderIsDistinct(s, history);
    var i :| 0 <= i < |s| && s[i] == k;
    WithoutAt(s, i);
  }

  // ---------------------------------------------------------------------
  // The scheduler's choice on a prefix hit
  // ---------------------------------------------------------------------

  /** The keys of the live prefixes that the restore mode accepts, shortest first. */
  ghost predicate EligibleKeys(live: seq<Key>, hashes: seq<Digest>, n: nat, promptTokens: int, blockSize: int, mode: Mode,
      alignment: int, final: Option<Key>)
    requires n <= |hashes|
  {
    && (forall i :: 0 <= i < |live| ==>
          && 0 < live[i].blocks <= n && live[i] == PrefixKey(hashes, live[i].blocks)
          && Eligible(hashes, live[i].blocks, promptTokens, blockSize, mode, alignment, final))
    && (forall i, j :: 0 <= i < j < |live| ==> live[i].blocks < live[j].blocks)
    && forall c :: 0 < c <= n && Eligible(hashes, c, promptTokens, blockSize, mode, alignment, final) ==>
        PrefixKey(hashes, c) in live
  }

  lemma KeyKept(live: seq<Key>, hashes: seq<Digest>, n: nat, promptTokens: int, blockSize: int, mode: Mode, alignment: int,
      final: Option<Key>)
    requires n < |hashes| && EligibleKeys(live, hashes, n, promptTokens, blockSize, mode, alignment, final)
    requires Eligible(hashes, n + 1, promptTokens, blockSize, mode, alignment, final)
    ensures EligibleKeys(live + [PrefixKey(hashes, n + 1)], hashes, n + 1, promptTokens, blockSize, mode, alignment, final)
  {
    hide Eligible;
    var key := PrefixKey(hashes, n + 1);
    forall c | 0 < c <= n + 1 && Eligible(hashes, c, promptTokens, blockSize, mode, alignment, final)
      ensures PrefixKey(hashes, c) in live + [key]
    {
      assert c <= n ==> PrefixKey(hashes, c) in live;
    }
  }

  lemma KeySkipped(live: seq<Key>, hashes: seq<Digest>, n: nat, promptTokens: int, blockSize: int, mode: Mode, alignment: int,
      final: Option<Key>)
    requires n < |hashes| && EligibleKeys(live, hashes, n, promptTokens, blockSize, mode, alignment, final)
    requires !Eligible(hashes, n + 1, promptTokens, blockSize, mode, alignment, final)
    ensures EligibleKeys(live, hashes, n + 1, promptTokens, blockSize, mode, alignment, final)
  {
    hide Eligible;
    forall c | 0 < c <= n + 1 && Eligible(hashes, c, promptTokens, blockSize, mode, alignment, final)
      ensures PrefixKey(hashes, c) in live
    {
      assert c <= n;
    }
  }

  /** Every key of a block hash, or the error of the first malformed digest. */
  method KeysFromBlockHashes(hashes: seq<Digest>) returns (r: Result<seq<Key>, Error>)
    ensures r.Ok? <==> DigestsOk(hashes)
    ensures r.Ok? ==> |r.value| == |hashes| && forall i :: 0 <= i < |hashes| ==> r.value[i] == Key(i + 1, hashes[i])
    ensures r.Err? ==> r.error == WrongDigestLength
  {
    var keys: seq<Key> := [];
    for i := 0 to |hashes|
      invariant |keys| == i && forall j :: 0 <= j < i ==> |hashes[j]| == DIGEST_BYTES
      invariant forall j :: 0 <= j < i ==> keys[j] == Key(j + 1, hashes[j])
    {
      var made := MakePrefixKey(i + 1, hashes[i]);
      if made.Err? {
        return Err(made.error);
      }
      keys := keys + [made.value];
    }
    return Ok(keys);
  }

  /** The eligibility of the first n keys can be decided: their digests are well
      formed and, if there is one, neither block size, mode nor the direct final
      key of the hybrid mode is rejected. The last two are looked at only when
      some block ends inside the prompt. */
  predicate Decidable(hashes: seq<Digest>, n: nat, promptTokens: int, blockSize: int, mode: Mode, final: Option<Key>)
    requires n <= |hashes|
  {
    && DigestsOk(hashes[..n])
    && (n > 0 ==> blockSize > 0)
    && (n > 0 && blockSize < promptTokens ==>
          !mode.Unknown? && (mode.Hybrid64? && final.Some? ==> WellFormed(final.value)))
  }

  /** If the first key is decided without an error, so is every one; if some key
      raises an error, the first does. */
  lemma FirstKeyDecides(hashes: seq<Digest>, n: nat, c: nat, promptTokens: int, blockSize: int, mode: Mode, alignment: int,
      final: Option<Key>)
    requires 0 < c <= n <= |hashes| && DigestsOk(hashes[..n])
    ensures Decidable(hashes, n, promptTokens, blockSize, mode, final) ==>
      RestoreKeyIsEligible(PrefixKey(hashes, c), promptTokens, blockSize, mode, alignment, final).Ok?
    ensures c == 1 && !Decidable(hashes, n, promptTokens, blockSize, mode, final) ==>
      RestoreKeyIsEligible(PrefixKey(hashes, c), promptTokens, blockSize, mode, alignment, final).Err?
  {
    assert hashes[..n][c - 1] == hashes[c - 1];
    if blockSize > 0 {
      MulOrder(1, c, blockSize);
    }
  }

  /** The live keys that the mode accepts, or the first error. */
  method FilterEligible(hashes: seq<Digest>, liveBlocks: nat, promptTokens: int, blockSize: int, mode: Mode, alignment: int,
      final: Option<Key>) returns (r: Result<seq<Key>, Error>)
    requires liveBlocks <= |hashes|
    ensures r.Ok? <==> Decidable(hashes, liveBlocks, promptTokens, blockSize, mode, final)
    ensures r.Ok? ==> EligibleKeys(r.value, hashes, liveBlocks, promptTokens, blockSize, mode, alignment, final)
    ensures r.Err? ==> if !DigestsOk(hashes[..liveBlocks]) then r.error == WrongDigestLength
      else Err(r.error) == RestoreKeyIsEligible(PrefixKey(hashes, 1), promptTokens, blockSize, mode, alignment, final)
  {
    hide EligibleKeys, RestoreKeyIsEligible, Decidable;
    var keys := KeysFromBlockHashes(hashes[..liveBlocks]);
    if keys.Err? {
      NotDecidable(hashes, liveBlocks, promptTokens, blockSize, mode, final);
      return Err(keys.error);
    }
    var live := [];
    NoKeysYet(hashes, promptTokens, blockSize, mode, alignment, final);
    for i := 0 to liveBlocks
      invariant EligibleKeys(live, hashes, i, promptTokens, blockSize, mode, alignment, final)
      invariant i > 0 ==> Decidable(hashes, liveBlocks, promptTokens, blockSize, mode, final)
    {
      assert keys.value[i] == PrefixKey(hashes, i + 1);
      FirstKeyDecides(hashes, liveBlocks, i + 1, promptTokens, blockSize, mode, alignment, final);
      var accepted := RestoreKeyIsEligible(keys.value[i], promptTokens, blockSize, mode, alignment, final);
      if accepted.Err? {
        return Err(accepted.error);
      }
      if accepted.value {
        KeyKept(live, hashes, i, promptTokens, blockSize, mode, alignment, final);
        live := live + [keys.value[i]];
      } else {
        KeySkipped(live, hashes, i, promptTokens, blockSize, mode, alignment, final);
      }
    }
    NothingToDecide(hashes, liveBlocks, promptTokens, blockSize, mode, final);
    return Ok(live);
  }

  lemma NotDecidable(hashes: seq<Digest>, n: nat, promptTokens: int, blockSize: int, mode: Mode, final: Option<Key>)
    requires n <= |hashes| && !DigestsOk(hashes[..n])
    ensures !Decidable(hashes, n, promptTokens, blockSize, mode, final)
  {
  }

  lemma NothingToDecide(hashes: seq<Digest>, n: nat, promptTokens: int, blockSize: int, mode: Mode, final: Option<Key>)
    requires n <= |hashes|
    ensures n == 0 ==> Decidable(hashes, n, promptTokens, blockSize, mode, final)
  {
  }

  lemma NoKeysYet(hashes: seq<Digest>, promptTokens: int, blockSize: int, mode: Mode, alignment: int, final: Option<Key>)
    ensures EligibleKeys([], hashes, 0, promptTokens, blockSize, mode, alignment, final)
  {
  }

  /** On a prefix hit the scheduler restores the longest resident state that the
      mode accepts, and nothing only when there is none. */
  method ChooseRestore(index: GdnPrefixStatePolicy, hashes: seq<Digest>, liveBlocks: nat, promptTokens: int, blockSize: int,
      mode: Mode, alignment: int, final: Option<Key>) returns (best: Result<Option<Key>, Error>)
    requires index.Valid() && liveBlocks <= |hashes|
    modifies index`resident, index`history
    ensures index.Valid()
    ensures best.Ok? <==> Decidable(hashes, liveBlocks, promptTokens, blockSize, mode, final)
    ensures best.Err? || best.value.None? ==> index.resident == old(index.resident) && index.history == old(index.history)
    ensures best == Ok(None) ==> forall c :: 0 < c <= liveBlocks && Eligible(hashes, c, promptTokens, blockSize, mode, alignment, final) ==>
      Key(c, hashes[c - 1]) !in old(index.resident)
    ensures best.Ok? && best.value.Some? ==> var key := best.value.value;
      && 0 < key.blocks <= liveBlocks && key.digest == hashes[key.blocks - 1] && key in old(index.resident)
      && Eligible(hashes, key.blocks, promptTokens, blockSize, mode, alignment, final)
      && index.resident == Touched(old(index.resident), key)
      && forall c :: key.blocks < c <= liveBlocks && Eligible(hashes, c, promptTokens, blockSize, mode, alignment, final) ==>
          Key(c, hashes[c - 1]) !in old(index.resident)
  {
    hide Eligible, RecencyOrder, Touched, Decidable, RestoreKeyIsEligible;
    var live := FilterEligible(hashes, liveBlocks, promptTokens, blockSize, mode, alignment, final);
    if live.Err? {
      return Err(live.error);
    }
    var restored := index.SelectRestore(live.value, |live.value|);
    assert Limited(live.value, |live.value|) == live.value;
    best := Ok(restored);
  }
}
