/** The recurrent-state slot allocator (mamba_cache.py). Each live sequence owns
    one column of the state tensors; scheduling moves columns around. What the
    manager must not change is the logical view: which state each sequence has. */
module MambaCache {
  import opened Outcome

  datatype Entry = Entry(sid: int, idx: nat)
  /** Request id to its sequences and their columns, in insertion order. */
  type Mapping = map<string, seq<Entry>>

  /** One sequence's state: a column of the conv and of the temporal tensor. */
  datatype Held<C, D> = Held(sid: int, conv: C, temporal: D)
  type Logical<C, D> = map<string, seq<Held<C, D>>>

  ghost predicate InRange(m: Mapping, n: nat) {
    forall r, i :: r in m && 0 <= i < |m[r]| ==> m[r][i].idx < n
  }

  ghost predicate Injective(m: Mapping) {
    forall r, i, s, j :: r in m && s in m && 0 <= i < |m[r]| && 0 <= j < |m[s]| && m[r][i].idx == m[s][j].idx ==>
      r == s && i == j
  }

  ghost predicate SidsDistinct(m: Mapping) {
    forall r, i, j :: r in m && 0 <= i < j < |m[r]| ==> m[r][i].sid != m[r][j].sid
  }

  ghost predicate NoneEmpty(m: Mapping) {
    forall r :: r in m ==> |m[r]| > 0
  }

  ghost predicate MappingOk(m: Mapping, n: nat) {
    InRange(m, n) && Injective(m) && SidsDistinct(m) && NoneEmpty(m)
  }

  ghost predicate IsOccupied(m: Mapping, slot: nat) {
    exists r, i :: r in m && 0 <= i < |m[r]| && m[r][i].idx == slot
  }

  ghost function Occupied(m: Mapping, n: nat): (s: set<nat>) {
    set slot: nat | slot < n && IsOccupied(m, slot)
  }

  /** Sequence sid of request rid is live, at this column. */
  ghost predicate SitsAt(m: Mapping, rid: string, sid: int, slot: nat) {
    rid in m && exists i :: 0 <= i < |m[rid]| && m[rid][i] == Entry(sid, slot)
  }

  // ---------------------------------------------------------------------
  // The logical view and the simple machine on it
  // ---------------------------------------------------------------------

  ghost function View<C, D>(m: Mapping, cs: seq<C>, ds: seq<D>): (v: Logical<C, D>)
    requires |cs| == |ds| && InRange(m, |cs|)
    ensures v.Keys == m.Keys
  {
    map r | r in m :: ViewOf(m[r], cs, ds)
  }

  ghost function ViewOf<C, D>(es: seq<Entry>, cs: seq<C>, ds: seq<D>): (v: seq<Held<C, D>>)
    requires |cs| == |ds| && forall i :: 0 <= i < |es| ==> es[i].idx < |cs|
    ensures |v| == |es|
  {
    seq(|es|, i requires 0 <= i < |es| => Held(es[i].sid, cs[es[i].idx], ds[es[i].idx]))
  }

  ghost predicate HasSid<C, D>(hs: seq<Held<C, D>>, sid: int) {
    exists i :: 0 <= i < |hs| && hs[i].sid == sid
  }

  /** Scheduling one sequence: a new request starts from zero, a new sibling from
      a copy of its request's first sequence, a known sequence keeps its state. */
  ghost function Assigned<C, D>(v: Logical<C, D>, rid: string, sid: int, zero: Held<C, D>): Logical<C, D>
    requires rid in v ==> |v[rid]| > 0
  {
    if rid !in v then v[rid := [zero.(sid := sid)]]
    else if !HasSid(v[rid], sid) then v[rid := v[rid] + [v[rid][0].(sid := sid)]]
    else v
  }

  ghost predicate AllHold<C, D>(v: Logical<C, D>) {
    forall r :: r in v ==> |v[r]| > 0
  }

  /** Scheduling a batch, skipping requests that finish at once. */
  ghost function Scheduled<C, D>(v: Logical<C, D>, pairs: seq<(string, int)>, finished: seq<string>, zero: Held<C, D>): (r: Logical<C, D>)
    requires AllHold(v)
    ensures AllHold(r)
  {
    if |pairs| == 0 then v
    else
      var k := |pairs| - 1;
      var before := Scheduled(v, pairs[..k], finished, zero);
      if pairs[k].0 in finished then before else Assigned(before, pairs[k].0, pairs[k].1, zero)
  }

  ghost function Released<C, D>(v: Logical<C, D>, finished: seq<string>): (r: Logical<C, D>) {
    map r | r in v && r !in finished :: v[r]
  }

  // ---------------------------------------------------------------------
  // What a scheduled sequence holds
  // ---------------------------------------------------------------------

  ghost predicate SameState<C, D>(a: Held<C, D>, b: Held<C, D>) {
    a.conv == b.conv && a.temporal == b.temporal
  }

  /** A request keeps the sequences it had; sequences that join it hold what its
      first one holds. */
  ghost predicate Joined<C, D>(before: seq<Held<C, D>>, after: seq<Held<C, D>>) {
    && 0 < |before| <= |after| && before == after[..|before|]
    && forall j :: |before| <= j < |after| ==> SameState(after[j], before[0])
  }

  ghost predicate Fresh<C, D>(after: seq<Held<C, D>>, zero: Held<C, D>) {
    forall j :: 0 <= j < |after| ==> SameState(after[j], zero)
  }

  lemma JoinedNext<C, D>(before: seq<Held<C, D>>, after: seq<Held<C, D>>, sid: int)
    requires Joined(before, after)
    ensures Joined(before, after + [after[0].(sid := sid)])
  {
    assert after[0] == before[0];
    assert (after + [after[0].(sid := sid)])[..|before|] == after[..|before|];
  }

  /** Scheduling a batch adds the requests that run, starts new ones from zero and
      new sequences of known ones from a copy of the first. */
  lemma {:induction false} ScheduledMeaning<C, D>(v: Logical<C, D>, pairs: seq<(string, int)>, finished: seq<string>, zero: Held<C, D>, r: string)
    requires AllHold(v)
    ensures var w := Scheduled(v, pairs, finished, zero);
      && (r in w <==> r in v || exists i :: 0 <= i < |pairs| && pairs[i].0 == r && r !in finished)
      && (r in v ==> Joined(v[r], w[r]))
      && (r !in v && r in w ==> Fresh(w[r], zero))
  {
    hide HasSid, Joined;
    if |pairs| == 0 {
      if r in v {
        JoinedSelf(v[r]);
      }
    } else {
      var k := |pairs| - 1;
      ScheduledMeaning(v, pairs[..k], finished, zero, r);
      assert forall i :: 0 <= i < k ==> pairs[..k][i] == pairs[i];
      var w := Scheduled(v, pairs[..k], finished, zero);
      if r in v {
        JoinedNext(v[r], w[r], pairs[k].1);
      }
    }
  }

  /** The state of a sequence is its column of both tensors. */
  lemma ViewAt<C, D>(m: Mapping, cs: seq<C>, ds: seq<D>, r: string, j: nat)
    requires |cs| == |ds| && InRange(m, |cs|) && r in m && j < |m[r]|
    ensures m[r][j].idx < |cs| && |View(m, cs, ds)[r]| == |m[r]|
    ensures View(m, cs, ds)[r][j] == Held(m[r][j].sid, cs[m[r][j].idx], ds[m[r][j].idx])
  {
  }

  lemma FirstAt<C, D>(m: Mapping, cs: seq<C>, ds: seq<D>, r: string)
    requires |cs| == |ds| && MappingOk(m, |cs|) && r in m
    ensures |m[r]| > 0 && m[r][0].idx < |cs| && |View(m, cs, ds)[r]| == |m[r]|
    ensures View(m, cs, ds)[r][0] == Held(m[r][0].sid, cs[m[r][0].idx], ds[m[r][0].idx])
  {
  }

  /** Column slot of a sequence that runs, in terms of the columns before: its own
      one if it was live, its request's first one if it joins a live request, and
      zero if the request is new. */
  lemma ColumnMeaning<C, D>(m: Mapping, cs: seq<C>, ds: seq<D>, m': Mapping, cs': seq<C>, ds': seq<D>,
                            pairs: seq<(string, int)>, finished: seq<string>, zero: Held<C, D>, r: string, sid: int, slot: nat)
    requires |cs| == |ds| && |cs'| == |ds'| && MappingOk(m, |cs|) && MappingOk(m', |cs'|) && r !in finished
    requires AllHold(Released(View(m, cs, ds), finished))
    requires View(m', cs', ds') == Scheduled(Released(View(m, cs, ds), finished), pairs, finished, zero)
    requires SitsAt(m', r, sid, slot)
    ensures slot < |cs'|
    ensures r !in m ==> cs'[slot] == zero.conv && ds'[slot] == zero.temporal
    ensures r in m ==> |m[r]| > 0 && forall j :: 0 <= j < |m[r]| ==> m[r][j].idx < |cs|
    ensures r in m ==> forall j :: 0 <= j < |m[r]| && m[r][j].sid == sid ==>
      cs'[slot] == cs[m[r][j].idx] && ds'[slot] == ds[m[r][j].idx]
    ensures r in m && (forall j :: 0 <= j < |m[r]| ==> m[r][j].sid != sid) ==>
      cs'[slot] == cs[m[r][0].idx] && ds'[slot] == ds[m[r][0].idx]
  {
    hide View, Scheduled, Injective, AllHold;
    var v := Released(View(m, cs, ds), finished);
    var w := View(m', cs', ds');
    var k :| 0 <= k < |m'[r]| && m'[r][k] == Entry(sid, slot);
    ViewAt(m', cs', ds', r, k);
    ScheduledMeaning(v, pairs, finished, zero, r);
    if r in m {
      ViewAt(m, cs, ds, r, 0);
      forall j | 0 <= j < |m[r]|
        ensures m[r][j].idx < |cs| && w[r][j] == Held(m[r][j].sid, cs[m[r][j].idx], ds[m[r][j].idx])
        ensures j < |m'[r]| && m'[r][j].sid == m[r][j].sid
      {
        ViewAt(m, cs, ds, r, j);
        ViewAt(m', cs', ds', r, j);
      }
    }
  }

  lemma JoinedSelf<C, D>(s: seq<Held<C, D>>)
    requires |s| > 0
    ensures Joined(s, s)
  {
  }

  // ---------------------------------------------------------------------
  // Moving columns
  // ---------------------------------------------------------------------

  function Exchange(i: nat, a: nat, b: nat): nat {
    if i == a then b else if i == b then a else i
  }

  function Replace(i: nat, a: nat, b: nat): nat {
    if i == a then b else i
  }

  function Exchanged(es: seq<Entry>, a: nat, b: nat): (r: seq<Entry>)
    ensures |r| == |es|
  {
    seq(|es|, i requires 0 <= i < |es| => es[i].(idx := Exchange(es[i].idx, a, b)))
  }

  function Replaced(es: seq<Entry>, a: nat, b: nat): (r: seq<Entry>)
    ensures |r| == |es|
  {
    seq(|es|, i requires 0 <= i < |es| => es[i].(idx := Replace(es[i].idx, a, b)))
  }

  ghost function ExchangedAll(m: Mapping, a: nat, b: nat): Mapping {
    map r | r in m :: Exchanged(m[r], a, b)
  }

  ghost function ReplacedAll(m: Mapping, a: nat, b: nat): Mapping {
    map r | r in m :: Replaced(m[r], a, b)
  }

  lemma ExchangeKeeps<C, D>(m: Mapping, cs: seq<C>, ds: seq<D>, a: nat, b: nat)
    requires |cs| == |ds| && MappingOk(m, |cs|) && a < |cs| && b < |cs|
    ensures MappingOk(ExchangedAll(m, a, b), |cs|)
    ensures View(ExchangedAll(m, a, b), cs[a := cs[b]][b := cs[a]], ds[a := ds[b]][b := ds[a]]) == View(m, cs, ds)
  {
    var m' := ExchangedAll(m, a, b);
    forall r | r in m ensures ViewOf(m'[r], cs[a := cs[b]][b := cs[a]], ds[a := ds[b]][b := ds[a]]) == ViewOf(m[r], cs, ds) {
      forall i | 0 <= i < |m[r]| ensures m'[r][i].idx < |cs| {
        assert m[r][i].idx < |cs|;
      }
    }
  }

  lemma MoveKeeps<C, D>(m: Mapping, cs: seq<C>, ds: seq<D>, a: nat, b: nat)
    requires |cs| == |ds| && MappingOk(m, |cs|) && a < |cs| && b < |cs| && !IsOccupied(m, b)
    ensures MappingOk(ReplacedAll(m, a, b), |cs|)
    ensures View(ReplacedAll(m, a, b), cs[b := cs[a]], ds[b := ds[a]]) == View(m, cs, ds)
    ensures a != b ==> !IsOccupied(ReplacedAll(m, a, b), a)
  {
    var m' := ReplacedAll(m, a, b);
    assert forall r, i :: r in m && 0 <= i < |m[r]| ==> m[r][i].idx != b;
    forall r | r in m ensures ViewOf(m'[r], cs[b := cs[a]], ds[b := ds[a]]) == ViewOf(m[r], cs, ds) {
    }
  }

  lemma WriteFreeKeeps<C, D>(m: Mapping, cs: seq<C>, ds: seq<D>, b: nat, c: C, d: D)
    requires |cs| == |ds| && MappingOk(m, |cs|) && b < |cs| && !IsOccupied(m, b)
    ensures View(m, cs[b := c], ds[b := d]) == View(m, cs, ds)
  {
    assert forall r, i :: r in m && 0 <= i < |m[r]| ==> m[r][i].idx != b;
    forall r | r in m ensures ViewOf(m[r], cs[b := c], ds[b := d]) == ViewOf(m[r], cs, ds) {
    }
  }

  function WithEntry(m: Mapping, rid: string, sid: int, slot: nat): Mapping {
    m[rid := (if rid in m then m[rid] else []) + [Entry(sid, slot)]]
  }

  predicate KnownSid(es: seq<Entry>, sid: int) {
    exists i :: 0 <= i < |es| && es[i].sid == sid
  }

  lemma AddOk(m: Mapping, n: nat, rid: string, sid: int, slot: nat)
    requires MappingOk(m, n) && slot < n && !IsOccupied(m, slot)
    requires rid in m ==> !KnownSid(m[rid], sid)
    ensures MappingOk(WithEntry(m, rid, sid, slot), n)
    ensures SitsAt(WithEntry(m, rid, sid, slot), rid, sid, slot)
  {
    hide InRange, Injective, SidsDistinct, NoneEmpty;
    var m' := WithEntry(m, rid, sid, slot);
    assert m'[rid][|m'[rid]| - 1] == Entry(sid, slot);
    AddInjective(m, n, rid, sid, slot);
    AddKeepsShape(m, n, rid, sid, slot);
  }

  /** The old entries of a request are where they were. */
  lemma OldEntry(m: Mapping, rid: string, sid: int, slot: nat, r: string, i: nat)
    requires r in WithEntry(m, rid, sid, slot) && i < |WithEntry(m, rid, sid, slot)[r]|
    ensures var e := WithEntry(m, rid, sid, slot)[r][i];
      if r in m && i < |m[r]| then e == m[r][i]
      else r == rid && e == Entry(sid, slot) && i == if rid in m then |m[rid]| else 0
  {
  }

  lemma AddInjective(m: Mapping, n: nat, rid: string, sid: int, slot: nat)
    requires MappingOk(m, n) && slot < n && !IsOccupied(m, slot)
    ensures Injective(WithEntry(m, rid, sid, slot))
  {
    hide WithEntry, InRange, SidsDistinct, NoneEmpty;
    var m': Mapping := WithEntry(m, rid, sid, slot);
    assert forall r, i :: r in m && 0 <= i < |m[r]| ==> m[r][i].idx != slot;
    forall r: string, i: nat, s: string, j: nat | r in m' && s in m' && 0 <= i < |m'[r]| && 0 <= j < |m'[s]| && m'[r][i].idx == m'[s][j].idx
      ensures r == s && i == j
    {
      OldEntry(m, rid, sid, slot, r, i);
      OldEntry(m, rid, sid, slot, s, j);
    }
  }

  lemma AddKeepsShape(m: Mapping, n: nat, rid: string, sid: int, slot: nat)
    requires MappingOk(m, n) && slot < n && (rid in m ==> !KnownSid(m[rid], sid))
    ensures var m' := WithEntry(m, rid, sid, slot);
      InRange(m', n) && SidsDistinct(m') && NoneEmpty(m')
  {
    hide Injective;
    if rid in m {
      assert forall i :: 0 <= i < |m[rid]| ==> m[rid][i].sid != sid;
    }
  }

  lemma AddView<C, D>(m: Mapping, cs: seq<C>, ds: seq<D>, rid: string, sid: int, slot: nat)
    requires |cs| == |ds| && InRange(m, |cs|) && slot < |cs|
    ensures InRange(WithEntry(m, rid, sid, slot), |cs|)
    ensures View(WithEntry(m, rid, sid, slot), cs, ds)
            == View(m, cs, ds)[rid := (if rid in m then View(m, cs, ds)[rid] else []) + [Held(sid, cs[slot], ds[slot])]]
  {
    var m' := WithEntry(m, rid, sid, slot);
    var before := if rid in m then View(m, cs, ds)[rid] else [];
    assert ViewOf(m'[rid], cs, ds) == before + [Held(sid, cs[slot], ds[slot])];
  }

  /** Sequences that sat at other columns than these have not moved. */
  ghost predicate Stay(m: Mapping, m': Mapping, slots: set<nat>) {
    forall r, s, x :: SitsAt(m, r, s, x) && x !in slots ==> SitsAt(m', r, s, x)
  }

  ghost predicate Known<C, D>(v: Logical<C, D>, rid: string, sid: int) {
    rid in v && HasSid(v[rid], sid)
  }

  lemma KnownInView<C, D>(m: Mapping, cs: seq<C>, ds: seq<D>, rid: string, sid: int)
    requires |cs| == |ds| && MappingOk(m, |cs|)
    ensures AllHold(View(m, cs, ds))
    ensures Known(View(m, cs, ds), rid, sid) <==> rid in m && KnownSid(m[rid], sid)
  {
    if rid in m {
      var es, v := m[rid], View(m, cs, ds)[rid];
      if KnownSid(es, sid) {
        var i :| 0 <= i < |es| && es[i].sid == sid;
        assert v[i].sid == sid;
      }
      if HasSid(v, sid) {
        var i :| 0 <= i < |v| && v[i].sid == sid;
        assert es[i].sid == sid;
      }
    }
  }

  lemma ColumnOwner(m: Mapping, n: nat, rid: string, sid: int, slot: nat)
    requires MappingOk(m, n) && SitsAt(m, rid, sid, slot)
    ensures forall r, s :: SitsAt(m, r, s, slot) ==> (r, s) == (rid, sid)
  {
    var i :| 0 <= i < |m[rid]| && m[rid][i] == Entry(sid, slot);
    forall r, s | SitsAt(m, r, s, slot) ensures (r, s) == (rid, sid) {
      var j :| 0 <= j < |m[r]| && m[r][j] == Entry(s, slot);
      assert m[r][j].idx == m[rid][i].idx;
    }
  }

  // How the occupied columns change.

  lemma RangeSize(lo: nat, hi: nat) returns (s: set<nat>)
    requires lo <= hi
    ensures (forall x :: x in s <==> lo <= x < hi) && |s| == hi - lo
    decreases hi - lo
  {
    if lo == hi {
      s := {};
    } else {
      var rest := RangeSize(lo + 1, hi);
      s := rest + {lo};
    }
  }

  /** Fewer occupied columns than the range has leave one of it free. */
  lemma FreeExists(m: Mapping, lo: nat, n: nat, others: set<nat>)
    requires lo <= n && others <= Occupied(m, n) && |Occupied(m, n) - others| < n - lo
    requires forall x :: x in others ==> x < lo
    ensures exists free :: lo <= free < n && !IsOccupied(m, free)
  {
    hide IsOccupied;
    if forall free :: lo <= free < n ==> IsOccupied(m, free) {
      var range := RangeSize(lo, n);
      SubsetSize(range, Occupied(m, n) - others);
      assert false;
    }
  }

  lemma SubsetSize(a: set<nat>, b: set<nat>)
    requires a <= b
    ensures |a| <= |b|
  {
    assert |b - a| + |a| == |b| by {
      assert b == (b - a) + a;
    }
  }

  lemma MoveOccupancy(m: Mapping, n: nat, a: nat, b: nat)
    requires MappingOk(m, n) && a < n && b < n && IsOccupied(m, a) && !IsOccupied(m, b)
    ensures Occupied(ReplacedAll(m, a, b), n) == Occupied(m, n) - {a} + {b}
    ensures |Occupied(ReplacedAll(m, a, b), n)| == |Occupied(m, n)|
    ensures !IsOccupied(ReplacedAll(m, a, b), a)
    ensures Stay(m, ReplacedAll(m, a, b), {a})
  {
    var m' := ReplacedAll(m, a, b);
    forall x ensures IsOccupied(m', x) <==> (x != a && IsOccupied(m, x)) || x == b {
      MovedAt(m, a, b, x);
    }
    assert Occupied(m', n) == Occupied(m, n) - {a} + {b};
    forall r, s, x | SitsAt(m, r, s, x) && x != a ensures SitsAt(m', r, s, x) {
      var i :| 0 <= i < |m[r]| && m[r][i] == Entry(s, x);
      assert m'[r][i] == Entry(s, x);
    }
  }

  lemma MovedAt(m: Mapping, a: nat, b: nat, x: nat)
    requires IsOccupied(m, a) && !IsOccupied(m, b)
    ensures IsOccupied(ReplacedAll(m, a, b), x) <==> (x != a && IsOccupied(m, x)) || x == b
  {
    var m' := ReplacedAll(m, a, b);
    if IsOccupied(m', x) {
      var r, i :| r in m' && 0 <= i < |m'[r]| && m'[r][i].idx == x;
      assert m[r][i].idx == x || m[r][i].idx == a;
    }
    if x != a && IsOccupied(m, x) {
      var r, i :| r in m && 0 <= i < |m[r]| && m[r][i].idx == x;
      assert m'[r][i].idx == x;
    }
    if x == b {
      var r, i :| r in m && 0 <= i < |m[r]| && m[r][i].idx == a;
      assert m'[r][i].idx == b;
    }
  }

  lemma ExchangeOccupancy(m: Mapping, n: nat, a: nat, b: nat)
    requires a < n && b < n && IsOccupied(m, a)
    ensures forall x :: IsOccupied(ExchangedAll(m, a, b), x) <==> IsOccupied(m, Exchange(x, a, b))
    ensures |Occupied(ExchangedAll(m, a, b), n)| == |Occupied(m, n)|
    ensures Stay(m, ExchangedAll(m, a, b), {a, b})
    ensures forall r, s :: SitsAt(m, r, s, a) ==> SitsAt(ExchangedAll(m, a, b), r, s, b)
  {
    var m' := ExchangedAll(m, a, b);
    forall x ensures IsOccupied(m', x) <==> IsOccupied(m, Exchange(x, a, b)) {
      ExchangedAt(m, a, b, x);
    }
    var o, o' := Occupied(m, n), Occupied(m', n);
    if b in o {
      assert o' == o;
    } else {
      assert o' == o - {a} + {b};
    }
    forall r, s, x | SitsAt(m, r, s, x) ensures SitsAt(m', r, s, Exchange(x, a, b)) {
      var i :| 0 <= i < |m[r]| && m[r][i] == Entry(s, x);
      assert m'[r][i] == Entry(s, Exchange(x, a, b));
    }
  }

  lemma ExchangedAt(m: Mapping, a: nat, b: nat, x: nat)
    ensures IsOccupied(ExchangedAll(m, a, b), x) <==> IsOccupied(m, Exchange(x, a, b))
  {
    var m' := ExchangedAll(m, a, b);
    if IsOccupied(m', x) {
      var r, i :| r in m' && 0 <= i < |m'[r]| && m'[r][i].idx == x;
      assert m[r][i].idx == Exchange(x, a, b);
    }
    if IsOccupied(m, Exchange(x, a, b)) {
      var r, i :| r in m && 0 <= i < |m[r]| && m[r][i].idx == Exchange(x, a, b);
      assert m'[r][i].idx == x;
    }
  }

  lemma AddOccupancy(m: Mapping, n: nat, rid: string, sid: int, slot: nat)
    requires slot < n && !IsOccupied(m, slot)
    ensures Occupied(WithEntry(m, rid, sid, slot), n) == Occupied(m, n) + {slot}
    ensures |Occupied(WithEntry(m, rid, sid, slot), n)| == |Occupied(m, n)| + 1
    ensures Stay(m, WithEntry(m, rid, sid, slot), {})
  {
    var m' := WithEntry(m, rid, sid, slot);
    forall x ensures IsOccupied(m', x) <==> IsOccupied(m, x) || x == slot {
      AddedAt(m, rid, sid, slot, x);
    }
    assert Occupied(m', n) == Occupied(m, n) + {slot};
    forall r, s, x | SitsAt(m, r, s, x) ensures SitsAt(m', r, s, x) {
      var i :| 0 <= i < |m[r]| && m[r][i] == Entry(s, x);
      assert m'[r][i] == Entry(s, x);
    }
  }

  lemma AddedAt(m: Mapping, rid: string, sid: int, slot: nat, x: nat)
    ensures IsOccupied(WithEntry(m, rid, sid, slot), x) <==> IsOccupied(m, x) || x == slot
  {
    var m' := WithEntry(m, rid, sid, slot);
    if IsOccupied(m', x) {
      var r, i :| r in m' && 0 <= i < |m'[r]| && m'[r][i].idx == x;
      if m'[r][i] != Entry(sid, slot) {
        assert m[r][i].idx == x;
      }
    }
    if IsOccupied(m, x) {
      var r, i :| r in m && 0 <= i < |m[r]| && m[r][i].idx == x;
      assert m'[r][i].idx == x;
    }
    assert m'[rid][|m'[rid]| - 1].idx == slot;
  }

  // ---------------------------------------------------------------------
  // The manager
  // ---------------------------------------------------------------------

  class MambaCacheManager<C, D> {
    const zeroConv: C
    const zeroTemporal: D
    const conv: array<C>
    const temporal: array<D>
    var mapping: Mapping

    ghost predicate Valid()
      reads this, conv, temporal
    {
      && conv.Length == temporal.Length && (conv as object) != (temporal as object)
      && MappingOk(mapping, conv.Length)
    }

    ghost function State(): Logical<C, D>
      requires Valid()
      reads this, conv, temporal
    {
      View(mapping, conv[..], temporal[..])
    }

    ghost function Zero(): Held<C, D> {
      Held(0, zeroConv, zeroTemporal)
    }

    constructor (maxBatchSize: nat, zeroConv: C, zeroTemporal: D)
      ensures Valid() && conv.Length == maxBatchSize && mapping == map[]
      ensures this.zeroConv == zeroConv && this.zeroTemporal == zeroTemporal
      ensures fresh(conv) && fresh(temporal)
    {
      this.zeroConv, this.zeroTemporal := zeroConv, zeroTemporal;
      conv := new C[maxBatchSize](_ => zeroConv);
      temporal := new D[maxBatchSize](_ => zeroTemporal);
      mapping := map[];
    }

    // Moving the data.

    method SwapCache(a: nat, b: nat)
      requires Valid() && a < conv.Length && b < conv.Length
      modifies conv, temporal
      ensures conv[..] == old(conv[..])[a := old(conv[b])][b := old(conv[a])]
      ensures temporal[..] == old(temporal[..])[a := old(temporal[b])][b := old(temporal[a])]
    {
      conv[a], conv[b] := conv[b], conv[a];
      temporal[a], temporal[b] := temporal[b], temporal[a];
    }

    method CopyCache(from: nat, to: nat)
      requires Valid() && from < conv.Length && to < conv.Length
      modifies conv, temporal
      ensures conv[..] == old(conv[..])[to := old(conv[from])]
      ensures temporal[..] == old(temporal[..])[to := old(temporal[from])]
    {
      conv[to] := conv[from];
      temporal[to] := temporal[from];
    }

    method ZeroCache(slot: nat)
      requires Valid() && slot < conv.Length
      modifies conv, temporal
      ensures conv[..] == old(conv[..])[slot := zeroConv]
      ensures temporal[..] == old(temporal[..])[slot := zeroTemporal]
    {
      conv[slot] := zeroConv;
      temporal[slot] := zeroTemporal;
    }

    // Keeping the index dictionary in step.

    method SwapMappingIndex(a: nat, b: nat)
      modifies this`mapping
      ensures mapping == ExchangedAll(old(mapping), a, b)
    {
      ghost var before := mapping;
      var todo := mapping.Keys;
      while todo != {}
        invariant mapping.Keys == before.Keys && todo <= before.Keys
        invariant forall r :: r in before && r in todo ==> mapping[r] == before[r]
        invariant forall r :: r in before && r !in todo ==> mapping[r] == Exchanged(before[r], a, b)
        decreases todo
      {
        var rid :| rid in todo;
        var es := mapping[rid];
        for j := 0 to |es|
          invariant |es| == |before[rid]|
          invariant forall i :: 0 <= i < j ==> es[i] == Exchanged(before[rid], a, b)[i]
          invariant forall i :: j <= i < |es| ==> es[i] == before[rid][i]
        {
          if es[j].idx == a {
            es := es[j := es[j].(idx := b)];
          } else if es[j].idx == b {
            es := es[j := es[j].(idx := a)];
          }
        }
        mapping := mapping[rid := es];
        todo := todo - {rid};
      }
    }

    /** Stops at the first entry found, which is the only one. */
    method UpdateMappingIndex(a: nat, b: nat)
      requires MappingOk(mapping, conv.Length)
      modifies this`mapping
      ensures mapping == ReplacedAll(old(mapping), a, b)
    {
      ghost var before := mapping;
      var todo := mapping.Keys;
      while todo != {}
        invariant mapping == before && todo <= before.Keys
        invariant forall r, i :: r in before && r !in todo && 0 <= i < |before[r]| ==> before[r][i].idx != a
        decreases todo
      {
        var rid :| rid in todo;
        var es := mapping[rid];
        for j := 0 to |es|
          invariant mapping == before
          invariant forall i :: 0 <= i < j ==> es[i].idx != a
        {
          if es[j].idx == a {
            mapping := mapping[rid := es[j := es[j].(idx := b)]];
            OneReplaced(before, a, b, rid, j);
            return;
          }
        }
        todo := todo - {rid};
      }
      NoneReplaced(before, a, b);
    }

    method GetAllOccupiedIndices() returns (s: set<nat>)
      ensures forall x :: x in s <==> IsOccupied(mapping, x)
    {
      s := set r, e | r in mapping && e in mapping[r] :: e.idx;
      forall x ensures x in s <==> IsOccupied(mapping, x) {
        if IsOccupied(mapping, x) {
          var r, i :| r in mapping && 0 <= i < |mapping[r]| && mapping[r][i].idx == x;
          assert mapping[r][i] in mapping[r];
        }
      }
    }

    /** None stands for the "couldn't find a free spot" exception. */
    method FirstFreeIndex(lo: nat, hi: nat) returns (r: Option<nat>)
      ensures r.Some? ==> lo <= r.value < hi && !IsOccupied(mapping, r.value)
      ensures r.Some? ==> forall i :: lo <= i < r.value ==> IsOccupied(mapping, i)
      ensures r.None? ==> forall i :: lo <= i < hi ==> IsOccupied(mapping, i)
    {
      var occupied := GetAllOccupiedIndices();
      var i := lo;
      while i < hi
        invariant lo <= i
        invariant forall k :: lo <= k < i ==> IsOccupied(mapping, k)
      {
        if i !in occupied {
          return Some(i);
        }
        i := i + 1;
      }
      return None;
    }

    method MoveCacheIndexAndMappings(from: nat, to: nat)
      requires Valid() && from < conv.Length && to < conv.Length && !IsOccupied(mapping, to)
      modifies this`mapping, conv, temporal
      ensures Valid() && State() == old(State())
      ensures mapping == ReplacedAll(old(mapping), from, to)
    {
      hide View, InRange, Injective, SidsDistinct, NoneEmpty, ReplacedAll;
      MoveKeeps(mapping, conv[..], temporal[..], from, to);
      CopyCache(from, to);
      UpdateMappingIndex(from, to);
    }

    method SwapPairIndicesAndMappings(from: nat, to: nat)
      requires Valid() && from < conv.Length && to < conv.Length
      modifies this`mapping, conv, temporal
      ensures Valid() && State() == old(State())
      ensures mapping == ExchangedAll(old(mapping), from, to)
    {
      hide View, InRange, Injective, SidsDistinct, NoneEmpty, ExchangedAll;
      ExchangeKeeps(mapping, conv[..], temporal[..], from, to);
      SwapCache(from, to);
      SwapMappingIndex(from, to);
    }

    /** Make a column free by moving its owner to the first free one. */
    method MoveOutIfAlreadyOccupied(slot: nat, occupied: set<nat>)
      requires Valid() && slot < conv.Length && |Occupied(mapping, conv.Length)| < conv.Length
      requires forall x :: x in occupied <==> IsOccupied(mapping, x)
      modifies this`mapping, conv, temporal
      ensures Valid() && State() == old(State()) && !IsOccupied(mapping, slot)
      ensures |Occupied(mapping, conv.Length)| == old(|Occupied(mapping, conv.Length)|)
      ensures Stay(old(mapping), mapping, {slot})
    {
      hide View, InRange, Injective, SidsDistinct, NoneEmpty, IsOccupied, ReplacedAll, Occupied;
      if slot in occupied {
        var free := FirstFreeIndex(0, conv.Length);
        FreeExists(mapping, 0, conv.Length, {});
        MoveOccupancy(mapping, conv.Length, slot, free.value);
        MoveCacheIndexAndMappings(slot, free.value);
      }
    }

    /** Record the sequence at a column that is free and already holds its state. */
    method AddEntry(rid: string, sid: int, slot: nat)
      requires Valid() && slot < conv.Length && !IsOccupied(mapping, slot)
      requires rid in mapping ==> !KnownSid(mapping[rid], sid)
      modifies this`mapping
      ensures Valid() && SitsAt(mapping, rid, sid, slot)
      ensures State() == old(State())[rid := (if rid in old(State()) then old(State())[rid] else [])
                                             + [Held(sid, conv[slot], temporal[slot])]]
      ensures |Occupied(mapping, conv.Length)| == old(|Occupied(mapping, conv.Length)|) + 1
      ensures Stay(old(mapping), mapping, {})
    {
      hide View, InRange, Injective, SidsDistinct, NoneEmpty, IsOccupied, Occupied, SitsAt, KnownSid, Stay;
      AddOk(mapping, conv.Length, rid, sid, slot);
      AddView(mapping, conv[..], temporal[..], rid, sid, slot);
      AddOccupancy(mapping, conv.Length, rid, sid, slot);
      mapping := WithEntry(mapping, rid, sid, slot);
    }

    /** Put sequence sid of request rid at a given column. */
    method Assign(rid: string, sid: int, slot: nat)
      requires Valid() && slot < conv.Length
      requires !Known(State(), rid, sid) ==> |Occupied(mapping, conv.Length)| < conv.Length
      modifies this`mapping, conv, temporal
      ensures Valid() && AllHold(old(State()))
      ensures State() == Assigned(old(State()), rid, sid, Zero())
      ensures SitsAt(mapping, rid, sid, slot)
      ensures forall r, s, x :: SitsAt(old(mapping), r, s, x) && x != slot && (r, s) != (rid, sid) ==> SitsAt(mapping, r, s, x)
      ensures |Occupied(mapping, conv.Length)|
              == old(|Occupied(mapping, conv.Length)|) + if Known(old(State()), rid, sid) then 0 else 1
      ensures rid !in old(mapping) ==> conv[slot] == zeroConv && temporal[slot] == zeroTemporal
      ensures rid in old(mapping) && !KnownSid(old(mapping)[rid], sid) ==>
        conv[slot] == old(conv[mapping[rid][0].idx]) && temporal[slot] == old(temporal[mapping[rid][0].idx])
    {
      hide View, InRange, Injective, SidsDistinct, NoneEmpty, IsOccupied, Occupied, SitsAt, KnownSid, HasSid;
      KnownInView(mapping, conv[..], temporal[..], rid, sid);
      var occupied := GetAllOccupiedIndices();
      if rid !in mapping {
        MoveOutIfAlreadyOccupied(slot, occupied);
        WriteFreeKeeps(mapping, conv[..], temporal[..], slot, zeroConv, zeroTemporal);
        ZeroCache(slot);
        AddEntry(rid, sid, slot);
        assert [] + [Held(sid, conv[slot], temporal[slot])] == [Zero().(sid := sid)];
      } else if !KnownSid(mapping[rid], sid) {
        MoveOutIfAlreadyOccupied(slot, occupied);
        KnownInView(mapping, conv[..], temporal[..], rid, sid);
        CopySibling(rid, slot);
        assert Held(sid, conv[slot], temporal[slot]) == old(State())[rid][0].(sid := sid);
        FirstAt(old(mapping), old(conv[..]), old(temporal[..]), rid);
        AddEntry(rid, sid, slot);
      } else {
        PlaceKnown(rid, sid, slot);
      }
    }

    /** A free column receives the state of the request's first sequence. */
    method CopySibling(rid: string, slot: nat)
      requires Valid() && slot < conv.Length && !IsOccupied(mapping, slot) && rid in mapping
      modifies conv, temporal
      ensures Valid() && State() == old(State()) && |State()[rid]| > 0
      ensures conv[slot] == State()[rid][0].conv && temporal[slot] == State()[rid][0].temporal
    {
      hide Injective, SidsDistinct;
      var indexExists := mapping[rid][0].idx;
      WriteFreeKeeps(mapping, conv[..], temporal[..], slot, conv[indexExists], temporal[indexExists]);
      CopyCache(indexExists, slot);
    }

    /** A sequence that already has a column trades places with whoever holds the
        one it should have. */
    method PlaceKnown(rid: string, sid: int, slot: nat)
      requires Valid() && slot < conv.Length && rid in mapping && KnownSid(mapping[rid], sid)
      modifies this`mapping, conv, temporal
      ensures Valid() && State() == old(State()) && SitsAt(mapping, rid, sid, slot)
      ensures forall r, s, x :: SitsAt(old(mapping), r, s, x) && x != slot && (r, s) != (rid, sid) ==> SitsAt(mapping, r, s, x)
      ensures |Occupied(mapping, conv.Length)| == old(|Occupied(mapping, conv.Length)|)
    {
      hide View, SidsDistinct, Occupied, ExchangedAll;
      var i :| 0 <= i < |mapping[rid]| && mapping[rid][i].sid == sid;
      var existing := mapping[rid][i].idx;
      ghost var before := mapping;
      assert SitsAt(before, rid, sid, existing) by {
        assert before[rid][i] == Entry(sid, existing);
      }
      assert IsOccupied(before, existing);
      ColumnOwner(before, conv.Length, rid, sid, existing);
      if existing != slot {
        ExchangeOccupancy(before, conv.Length, existing, slot);
        SwapPairIndicesAndMappings(existing, slot);
      }
    }

    /** Give the i-th scheduled sequence column i, skipping requests that finish
        at once, then clear the batch window of everyone else. */
    method Prepare(pairs: seq<(string, int)>, finished: seq<string>)
      requires Valid() && |pairs| <= conv.Length
      requires forall i, j :: 0 <= i < j < |pairs| ==> pairs[i] != pairs[j]
      requires Live() + NewCount(State(), pairs, finished, Zero()) <= conv.Length
      requires |pairs| < conv.Length ==>
        Live() + NewCount(State(), pairs, finished, Zero()) - |Running(pairs, finished)| <= conv.Length - |pairs|
      modifies this`mapping, conv, temporal
      ensures Valid() && AllHold(old(State()))
      ensures State() == Scheduled(old(State()), pairs, finished, Zero())
      ensures forall i :: i in Running(pairs, finished) ==> SitsAt(mapping, pairs[i].0, pairs[i].1, i)
      ensures WindowClear(mapping, pairs, finished) <==>
        |pairs| < conv.Length || Live() == |Running(pairs, finished)|
      ensures Live() == old(Live()) + NewCount(old(State()), pairs, finished, Zero())
    {
      hide View, InRange, Injective, SidsDistinct, NoneEmpty, IsOccupied, Occupied, SitsAt, HasSid, WindowClear,
           Scheduled, NewCount;
      AssignAll(pairs, finished);
      CleanUp(pairs, finished);
    }

    method AssignAll(pairs: seq<(string, int)>, finished: seq<string>)
      requires Valid() && |pairs| <= conv.Length
      requires forall i, j :: 0 <= i < j < |pairs| ==> pairs[i] != pairs[j]
      requires Live() + NewCount(State(), pairs, finished, Zero()) <= conv.Length
      modifies this`mapping, conv, temporal
      ensures Valid() && AllHold(old(State()))
      ensures State() == Scheduled(old(State()), pairs, finished, Zero())
      ensures forall i :: i in Running(pairs, finished) ==> SitsAt(mapping, pairs[i].0, pairs[i].1, i)
      ensures Live() == old(Live()) + NewCount(old(State()), pairs, finished, Zero())
    {
      hide View, InRange, Injective, SidsDistinct, NoneEmpty, IsOccupied, Occupied, SitsAt, HasSid;
      ghost var before, live := State(), Live();
      StateHolds();
      assert pairs[..0] == [];
      for k := 0 to |pairs|
        invariant Valid() && AllHold(before)
        invariant State() == Scheduled(before, pairs[..k], finished, Zero())
        invariant Live() == live + NewCount(before, pairs[..k], finished, Zero())
        invariant forall i :: 0 <= i < k && pairs[i].0 !in finished ==> SitsAt(mapping, pairs[i].0, pairs[i].1, i)
      {
        assert pairs[..k + 1][..k] == pairs[..k];
        NewCountMonotone(before, pairs, k + 1, finished, Zero());
        if pairs[k].0 !in finished {
          Assign(pairs[k].0, pairs[k].1, k);
        }
      }
      assert pairs[..|pairs|] == pairs;
    }

    ghost function Live(): nat
      reads this
    {
      |Occupied(mapping, conv.Length)|
    }

    lemma StateHolds()
      requires Valid()
      ensures AllHold(State())
    {
    }

    /** Move everyone not running out of the first |pairs| columns, unless the
        batch fills the whole cache: then they stay where they are, so the window
        is clear only if nobody is left over. */
    method CleanUp(pairs: seq<(string, int)>, finished: seq<string>)
      requires Valid() && |pairs| <= conv.Length
      requires forall i :: i in Running(pairs, finished) ==> SitsAt(mapping, pairs[i].0, pairs[i].1, i)
      requires |pairs| < conv.Length ==> Live() - |Running(pairs, finished)| <= conv.Length - |pairs|
      modifies this`mapping, conv, temporal
      ensures Valid() && State() == old(State()) && Live() == old(Live())
      ensures forall i :: i in Running(pairs, finished) ==> SitsAt(mapping, pairs[i].0, pairs[i].1, i)
      ensures WindowClear(mapping, pairs, finished) <==>
        |pairs| < conv.Length || Live() == |Running(pairs, finished)|
    {
      hide View, InRange, Injective, SidsDistinct, NoneEmpty, IsOccupied, Occupied, SitsAt, ExchangedAll;
      if |pairs| >= conv.Length {
        FullWindow(mapping, conv.Length, pairs, finished);
        return;
      }
      ghost var running := Running(pairs, finished);
      for d := 0 to |pairs|
        invariant Valid() && State() == old(State()) && Live() == old(Live())
        invariant forall i :: i in running ==> SitsAt(mapping, pairs[i].0, pairs[i].1, i)
        invariant forall i :: 0 <= i < d && IsOccupied(mapping, i) ==> i in running
      {
        var occupied := GetAllOccupiedIndices();
        if d in occupied && (d >= |pairs| || pairs[d].0 in finished) {
          RoomOutside(mapping, conv.Length, pairs, finished, d);
          var free := FirstFreeIndex(|pairs|, conv.Length);
          ExchangeOccupancy(mapping, conv.Length, d, free.value);
          SwapPairIndicesAndMappings(d, free.value);
        }
      }
    }

    /** Forget finished requests and zero their columns. */
    method ReleaseFinished(finished: seq<string>)
      requires Valid()
      modifies this`mapping, conv, temporal
      ensures Valid() && State() == Released(old(State()), finished)
      ensures mapping == DroppedAll(old(mapping), finished)
      ensures forall r, i :: r in old(mapping) && r in finished && 0 <= i < |old(mapping)[r]| ==>
        IsZero(old(mapping)[r][i].idx)
    {
      hide View, InRange, Injective, SidsDistinct, NoneEmpty;
      ghost var before, m := State(), mapping;
      assert finished[..0] == [];
      DropNothing(mapping, before);
      for k := 0 to |finished|
        invariant Valid() && State() == Released(before, finished[..k])
        invariant mapping == DroppedAll(m, finished[..k])
        invariant forall r, i :: r in m && r in finished[..k] && 0 <= i < |m[r]| ==> m[r][i].idx < conv.Length && IsZero(m[r][i].idx)
      {
        assert finished[..k + 1] == finished[..k] + [finished[k]];
        if finished[k] in mapping {
          ReleaseOne(finished[k]);
        }
        assert State() == Released(before, finished[..k + 1]);
        assert mapping == DroppedAll(m, finished[..k + 1]);
      }
      assert finished[..|finished|] == finished;
    }

    ghost predicate IsZero(slot: nat)
      requires slot < conv.Length == temporal.Length
      reads conv, temporal
    {
      conv[slot] == zeroConv && temporal[slot] == zeroTemporal
    }

    /** Pop one request and zero the columns it owned, which nobody else owns. */
    method ReleaseOne(rid: string)
      requires Valid() && rid in mapping
      modifies this`mapping, conv, temporal
      ensures Valid() && mapping == old(mapping) - {rid}
      ensures State() == old(State()) - {rid}
      ensures forall i :: 0 <= i < |old(mapping)[rid]| ==> old(mapping)[rid][i].idx < conv.Length && IsZero(old(mapping)[rid][i].idx)
      ensures forall s: nat :: s < conv.Length && old(IsZero(s)) ==> IsZero(s)
    {
      hide View, SidsDistinct, NoneEmpty, Injective, InRange;
      ghost var m := mapping;
      var es := mapping[rid];
      DropRequest(m, conv[..], temporal[..], rid);
      mapping := mapping - {rid};
      for j := 0 to |es|
        invariant Valid() && mapping == m - {rid} && State() == old(State()) - {rid}
        invariant forall i :: 0 <= i < j ==> es[i].idx < conv.Length && IsZero(es[i].idx)
        invariant forall s: nat :: s < conv.Length && old(IsZero(s)) ==> IsZero(s)
      {
        OwnedByNoOther(m, conv.Length, rid, j);
        WriteFreeKeeps(mapping, conv[..], temporal[..], es[j].idx, zeroConv, zeroTemporal);
        ZeroCache(es[j].idx);
      }
    }

    /** The manager's whole step for an eager run; the caller then runs the model
        on the first |pairs| columns. Someone not running is among them exactly
        when the batch fills the cache and more sequences live than run. */
    method CurrentRun(pairs: seq<(string, int)>, finished: seq<string>)
      requires Valid() && |pairs| <= conv.Length
      requires forall i, j :: 0 <= i < j < |pairs| ==> pairs[i] != pairs[j]
      requires Fits(pairs, finished)
      modifies this`mapping, conv, temporal
      ensures Valid() && AllHold(Released(old(State()), finished))
      ensures State() == Scheduled(Released(old(State()), finished), pairs, finished, Zero())
      ensures forall i :: i in Running(pairs, finished) ==> SitsAt(mapping, pairs[i].0, pairs[i].1, i)
      ensures Live() == old(LiveAfter(pairs, finished))
      ensures WindowClear(mapping, pairs, finished) <==>
        |pairs| < conv.Length || old(LiveAfter(pairs, finished)) == |Running(pairs, finished)|
      // The same in terms of the tensors: what the model finds in column i.
      ensures forall i :: i in Running(pairs, finished) && pairs[i].0 !in old(mapping) ==>
        conv[i] == zeroConv && temporal[i] == zeroTemporal
      ensures forall i, j :: i in Running(pairs, finished) && pairs[i].0 in old(mapping) && 0 <= j < |old(mapping)[pairs[i].0]| ==>
        old(mapping)[pairs[i].0][j].sid == pairs[i].1 ==>
          && conv[i] == old(conv[mapping[pairs[i].0][j].idx])
          && temporal[i] == old(temporal[mapping[pairs[i].0][j].idx])
      ensures forall i :: i in Running(pairs, finished) && pairs[i].0 in old(mapping) ==>
        (forall j :: 0 <= j < |old(mapping)[pairs[i].0]| ==> old(mapping)[pairs[i].0][j].sid != pairs[i].1) ==>
          && conv[i] == old(conv[mapping[pairs[i].0][0].idx])
          && temporal[i] == old(temporal[mapping[pairs[i].0][0].idx])
      ensures forall r :: r in old(mapping) && r !in finished ==>
        r in mapping && |State()[r]| >= |old(State()[r])| && State()[r][..|old(State()[r])|] == old(State()[r])
      ensures forall r :: r in finished ==> r !in mapping
    {
      hide View, InRange, Injective, SidsDistinct, NoneEmpty, Occupied, IsOccupied, SitsAt, Scheduled, NewCount, DroppedAll,
           WindowClear;
      ghost var m: Mapping := mapping;
      ghost var cs, ds := conv[..], temporal[..];
      ReleaseFinished(finished);
      Prepare(pairs, finished);
      forall i | i in Running(pairs, finished)
        ensures pairs[i].0 !in m ==> conv[i] == zeroConv && temporal[i] == zeroTemporal
        ensures pairs[i].0 in m ==> |m[pairs[i].0]| > 0 && forall j :: 0 <= j < |m[pairs[i].0]| ==> m[pairs[i].0][j].idx < |cs|
        ensures pairs[i].0 in m ==> forall j :: 0 <= j < |m[pairs[i].0]| && m[pairs[i].0][j].sid == pairs[i].1 ==>
          conv[i] == cs[m[pairs[i].0][j].idx] && temporal[i] == ds[m[pairs[i].0][j].idx]
        ensures pairs[i].0 in m && (forall j :: 0 <= j < |m[pairs[i].0]| ==> m[pairs[i].0][j].sid != pairs[i].1) ==>
          conv[i] == cs[m[pairs[i].0][0].idx] && temporal[i] == ds[m[pairs[i].0][0].idx]
      {
        ColumnMeaning(m, cs, ds, mapping, conv[..], temporal[..], pairs, finished, Zero(), pairs[i].0, pairs[i].1, i);
      }
      forall r
        ensures r in m && r !in finished ==>
          r in mapping && |State()[r]| >= |old(State()[r])| && State()[r][..|old(State()[r])|] == old(State()[r])
        ensures r in finished ==> r !in mapping
      {
        ScheduledMeaning(Released(old(State()), finished), pairs, finished, Zero(), r);
      }
    }

    /** How many sequences live after a step: those that the release leaves and
        the new ones. */
    ghost function LiveAfter(pairs: seq<(string, int)>, finished: seq<string>): nat
      requires Valid()
      reads this, conv, temporal
    {
      StateHolds();
      |Occupied(DroppedAll(mapping, finished), conv.Length)|
      + NewCount(Released(State(), finished), pairs, finished, Zero())
    }

    /** They fit the cache, and those that do not run fit outside the batch window. */
    ghost predicate Fits(pairs: seq<(string, int)>, finished: seq<string>)
      requires Valid()
      reads this, conv, temporal
    {
      var live := LiveAfter(pairs, finished);
      && live <= conv.Length
      && (|pairs| < conv.Length ==> live - |Running(pairs, finished)| <= conv.Length - |pairs|)
    }

    /** The model writes new states into the batch window: every sequence inside
        gets its column's, all others keep their own. With a clear window only
        running sequences are inside. */
    method WriteBack(pairs: seq<(string, int)>, finished: seq<string>, cs: seq<C>, ds: seq<D>)
      requires Valid() && |cs| == |ds| == |pairs| <= conv.Length
      modifies conv, temporal
      ensures Valid() && State().Keys == old(State()).Keys
      ensures forall r, i :: r in mapping && 0 <= i < |mapping[r]| ==>
        var slot := mapping[r][i].idx;
        if slot < |pairs| then State()[r][i] == Held(mapping[r][i].sid, cs[slot], ds[slot])
        else State()[r][i] == old(State())[r][i]
      ensures WindowClear(mapping, pairs, finished) <==>
        forall r, i :: r in mapping && 0 <= i < |mapping[r]| && mapping[r][i].idx < |pairs| ==>
          mapping[r][i].idx in Running(pairs, finished)
    {
      forall k | 0 <= k < |pairs| {
        conv[k] := cs[k];
      }
      forall k | 0 <= k < |pairs| {
        temporal[k] := ds[k];
      }
      forall r, i | r in mapping && 0 <= i < |mapping[r]| ensures IsOccupied(mapping, mapping[r][i].idx) {
      }
    }
  }

  /** Only running sequences sit in the columns handed to the model. */
  ghost predicate WindowClear(m: Mapping, pairs: seq<(string, int)>, finished: seq<string>) {
    forall i :: 0 <= i < |pairs| && IsOccupied(m, i) ==> i in Running(pairs, finished)
  }

  /** A window over the whole cache is clear exactly when all who live run. */
  lemma FullWindow(m: Mapping, n: nat, pairs: seq<(string, int)>, finished: seq<string>)
    requires |pairs| == n
    requires forall i :: i in Running(pairs, finished) ==> SitsAt(m, pairs[i].0, pairs[i].1, i)
    ensures WindowClear(m, pairs, finished) <==> |Occupied(m, n)| == |Running(pairs, finished)|
  {
    hide IsOccupied, SitsAt;
    var running := Running(pairs, finished);
    forall i | i in running ensures IsOccupied(m, i) {
      SittingOccupies(m, pairs[i].0, pairs[i].1, i);
    }
    assert running <= Occupied(m, n);
    DifferenceSize(Occupied(m, n), running);
    if WindowClear(m, pairs, finished) {
      assert Occupied(m, n) == running;
    }
    if |Occupied(m, n)| == |running| {
      assert Occupied(m, n) - running == {};
      forall i | 0 <= i < |pairs| && IsOccupied(m, i) ensures i in running {
        assert i in Occupied(m, n);
      }
    }
  }

  lemma OccupiedSize(m: Mapping, n: nat)
    ensures |Occupied(m, n)| <= n
  {
    hide IsOccupied;
    var range := RangeSize(0, n);
    SubsetSize(Occupied(m, n), range);
  }

  lemma ScheduledOne<C, D>(v: Logical<C, D>, rid: string, sid: int, finished: seq<string>, zero: Held<C, D>)
    requires AllHold(v)
    ensures Scheduled(v, [(rid, sid)], finished, zero) == if rid in finished then v else Assigned(v, rid, sid, zero)
    ensures NewCount(v, [(rid, sid)], finished, zero) == if rid in finished || Known(v, rid, sid) then 0 else 1
  {
    hide Known, Assigned;
    assert [(rid, sid)][..0] == [];
    assert Scheduled(v, [], finished, zero) == v;
  }

  /** One live sequence in a cache of one column. */
  lemma OnlyColumn<C, D>(m: Mapping, cs: seq<C>, ds: seq<D>, rid: string, h: Held<C, D>)
    requires |cs| == |ds| == 1 && MappingOk(m, 1) && View(m, cs, ds) == map[rid := [h]]
    ensures m == map[rid := [Entry(h.sid, 0)]]
  {
    assert rid in m && View(m, cs, ds)[rid] == ViewOf(m[rid], cs, ds) == [h];
    assert ViewOf(m[rid], cs, ds)[0] == h;
    assert m[rid][0].idx < 1;
    assert m[rid] == [Entry(h.sid, 0)];
    assert m.Keys == {rid};
  }

  lemma SameLengths<C, D>(m: Mapping, cs: seq<C>, ds: seq<D>)
    requires |cs| == |ds| && InRange(m, |cs|)
    ensures forall r :: r in m ==> |View(m, cs, ds)[r]| == |m[r]|
  {
  }

  method OneSequence(rid: string, sid: int, x: int) returns (manager: MambaCacheManager<int, int>)
    ensures fresh(manager) && fresh(manager.conv) && fresh(manager.temporal)
    ensures manager.Valid() && manager.conv.Length == 1 && manager.State() == map[rid := [Held(sid, x, x)]]
  {
    hide View, InRange, Injective, SidsDistinct, NoneEmpty, Occupied, IsOccupied, Scheduled, NewCount, WindowClear, SitsAt;
    manager := new MambaCacheManager(1, 0, 0);
    ghost var pairs := [(rid, sid)];
    var none := [];
    assert manager.mapping == map[] && manager.State() == map[];
    OccupiedNone(1);
    assert DroppedAll(map[], none) == map[];
    assert Released(manager.State(), none) == map[];
    ScheduledOne(manager.State(), rid, sid, none, manager.Zero());
    manager.CurrentRun([(rid, sid)], none);
    assert manager.State() == map[rid := [Held(sid, 0, 0)]];
    OnlyColumn(manager.mapping, manager.conv[..], manager.temporal[..], rid, Held(sid, 0, 0));
    manager.WriteBack([(rid, sid)], none, [x], [x]);
    SameLengths(manager.mapping, manager.conv[..], manager.temporal[..]);
    assert manager.mapping[rid][0].idx == 0;
    assert manager.State()[rid] == [Held(sid, x, x)];
    assert manager.State().Keys == {rid};
  }

  lemma OccupiedNone(n: nat)
    ensures Occupied(map[], n) == {}
  {
  }

  /** A batch that fills the cache and finishes at once overwrites the survivor. */
  method FinishedBatchWrites(manager: MambaCacheManager<int, int>, rid: string, sid: int, x: int, other: string, y: int)
    requires manager.Valid() && manager.conv.Length == 1 && manager.State() == map[rid := [Held(sid, x, x)]]
    requires other != rid
    modifies manager, manager.conv, manager.temporal
    ensures manager.Valid() && manager.State() == map[rid := [Held(sid, y, y)]]
  {
    hide View, InRange, Injective, SidsDistinct, NoneEmpty, Occupied, IsOccupied, Scheduled, NewCount, WindowClear, SitsAt;
    var done := [other];
    assert Released(manager.State(), done) == manager.State();
    ScheduledOne(manager.State(), other, 0, done, manager.Zero());
    OccupiedSize(DroppedAll(manager.mapping, done), 1);
    manager.CurrentRun([(other, 0)], done);
    OnlyColumn(manager.mapping, manager.conv[..], manager.temporal[..], rid, Held(sid, x, x));
    manager.WriteBack([(other, 0)], done, [y], [y]);
    SameLengths(manager.mapping, manager.conv[..], manager.temporal[..]);
    assert manager.mapping[rid][0].idx == 0;
    assert manager.State()[rid] == [Held(sid, y, y)];
    assert manager.State().Keys == {rid};
  }

  /** One column. Request B runs and its state becomes 1; the next batch consists
      of request A alone, which finishes at once. B stays in column 0, which is
      handed to the model, and its state is gone. */
  method FullBatchLosesState() returns (manager: MambaCacheManager<int, int>, ghost kept: Logical<int, int>)
    ensures fresh(manager) && manager.Valid() && manager.conv.Length == 1
    ensures kept == map["B" := [Held(7, 1, 1)]]
    ensures manager.State() == map["B" := [Held(7, 2, 2)]]
  {
    manager := OneSequence("B", 7, 1);
    kept := manager.State();
    FinishedBatchWrites(manager, "B", 7, 1, "A", 2);
  }

  ghost function DroppedAll(m: Mapping, finished: seq<string>): Mapping {
    map r | r in m && r !in finished :: m[r]
  }

  lemma DropNothing<C, D>(m: Mapping, v: Logical<C, D>)
    ensures DroppedAll(m, []) == m && Released(v, []) == v
  {
  }

  lemma DropRequest<C, D>(m: Mapping, cs: seq<C>, ds: seq<D>, rid: string)
    requires |cs| == |ds| && MappingOk(m, |cs|)
    ensures MappingOk(m - {rid}, |cs|)
    ensures View(m - {rid}, cs, ds) == View(m, cs, ds) - {rid}
  {
    var m' := m - {rid};
    assert forall r :: r in m' ==> r in m && m'[r] == m[r];
    forall r | r in m' ensures ViewOf(m'[r], cs, ds) == ViewOf(m[r], cs, ds) {
    }
  }

  lemma OwnedByNoOther(m: Mapping, n: nat, rid: string, j: nat)
    requires MappingOk(m, n) && rid in m && j < |m[rid]|
    ensures m[rid][j].idx < n && !IsOccupied(m - {rid}, m[rid][j].idx)
  {
    assert forall r, i :: r in m - {rid} && 0 <= i < |m[r]| ==> m[r][i].idx != m[rid][j].idx;
  }

  /** The scheduled positions whose sequences actually run. */
  ghost function Running(pairs: seq<(string, int)>, finished: seq<string>): (s: set<nat>)
    ensures forall i :: i in s <==> 0 <= i < |pairs| && pairs[i].0 !in finished
  {
    set i: nat | i < |pairs| && pairs[i].0 !in finished
  }

  /** How many of the scheduled sequences are new. */
  ghost function NewCount<C, D>(v: Logical<C, D>, pairs: seq<(string, int)>, finished: seq<string>, zero: Held<C, D>): nat
    requires AllHold(v)
  {
    if |pairs| == 0 then 0
    else
      var k := |pairs| - 1;
      NewCount(v, pairs[..k], finished, zero)
      + if pairs[k].0 in finished || Known(Scheduled(v, pairs[..k], finished, zero), pairs[k].0, pairs[k].1) then 0 else 1
  }

  lemma {:induction false} NewCountMonotone<C, D>(v: Logical<C, D>, pairs: seq<(string, int)>, k: nat, finished: seq<string>, zero: Held<C, D>)
    requires AllHold(v) && k <= |pairs|
    ensures NewCount(v, pairs[..k], finished, zero) <= NewCount(v, pairs, finished, zero)
  {
    hide Scheduled, Known;
    if k == |pairs| {
      assert pairs[..k] == pairs;
    } else {
      NewCountMonotone(v, pairs[..|pairs| - 1], k, finished, zero);
      assert pairs[..|pairs| - 1][..k] == pairs[..k];
    }
  }

  /** While someone not running is inside the window, a column outside is free. */
  lemma RoomOutside(m: Mapping, n: nat, pairs: seq<(string, int)>, finished: seq<string>, d: nat)
    requires |pairs| < n && d < |pairs| && d !in Running(pairs, finished) && IsOccupied(m, d)
    requires forall i :: i in Running(pairs, finished) ==> SitsAt(m, pairs[i].0, pairs[i].1, i)
    requires |Occupied(m, n)| - |Running(pairs, finished)| <= n - |pairs|
    ensures exists free :: |pairs| <= free < n && !IsOccupied(m, free)
  {
    hide IsOccupied;
    var running := Running(pairs, finished);
    var others := running + {d};
    forall i | i in running ensures i in Occupied(m, n) {
      SittingOccupies(m, pairs[i].0, pairs[i].1, i);
    }
    assert |others| == |running| + 1;
    DifferenceSize(Occupied(m, n), others);
    FreeExists(m, |pairs|, n, others);
  }

  lemma SittingOccupies(m: Mapping, rid: string, sid: int, slot: nat)
    requires SitsAt(m, rid, sid, slot)
    ensures IsOccupied(m, slot)
  {
    var i :| 0 <= i < |m[rid]| && m[rid][i] == Entry(sid, slot);
    assert m[rid][i].idx == slot;
  }

  lemma DifferenceSize(a: set<nat>, b: set<nat>)
    requires b <= a
    ensures |a - b| == |a| - |b|
  {
    assert a == (a - b) + b;
  }

  lemma OneReplaced(m: Mapping, a: nat, b: nat, rid: string, j: nat)
    requires Injective(m) && rid in m && j < |m[rid]| && m[rid][j].idx == a
    ensures ReplacedAll(m, a, b) == m[rid := m[rid][j := m[rid][j].(idx := b)]]
  {
    forall r | r in m
      ensures Replaced(m[r], a, b) == if r == rid then m[rid][j := m[rid][j].(idx := b)] else m[r]
    {
      forall i | 0 <= i < |m[r]| && m[r][i].idx == a ensures r == rid && i == j {
      }
    }
  }

  lemma NoneReplaced(m: Mapping, a: nat, b: nat)
    requires forall r, i :: r in m && 0 <= i < |m[r]| ==> m[r][i].idx != a
    ensures ReplacedAll(m, a, b) == m
  {
    forall r | r in m ensures Replaced(m[r], a, b) == m[r] {
    }
  }
}
