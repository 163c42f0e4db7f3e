/** Expert parallelism (ep_fused_moe_patch.py): each rank keeps a contiguous share
    of the experts, masks the pairs of the others, and the ranks' partial outputs
    are added. */
module ExpertParallel {
  import opened Outcome
  import opened Vectors
  import opened Arithmetic
  import opened MoeDispatch

  datatype EpError = NotDivisible

  /** A rank's share: its first global expert and how many it holds. */
  datatype Share = Share(start: nat, count: nat)

  /** The expert partition set up by the layer's constructor. */
  function EpInit(experts: nat, epSize: nat, rank: nat): (r: Result<Share, EpError>)
    requires rank < epSize
    ensures r.Ok? <==> experts % epSize == 0
    ensures r.Ok? ==> r.value.count * epSize == experts && r.value.start == rank * r.value.count
  {
    var perRank := experts / epSize;
    MulOrder(0, rank, perRank);
    var start := rank * perRank;
    if experts % epSize != 0 then Err(NotDivisible) else Ok(Share(start, perRank))
  }

  predicate IsLocal(id: nat, share: Share) {
    share.start <= id < share.start + share.count
  }

  /** With the experts divisible by the ranks, an expert is local on exactly one
      rank. */
  lemma LocalOnOneRank(experts: nat, epSize: nat, id: nat, rank: nat)
    requires rank < epSize && experts % epSize == 0 && id < experts
    ensures experts / epSize > 0
    ensures EpInit(experts, epSize, rank).Ok?
    ensures IsLocal(id, EpInit(experts, epSize, rank).value) <==> rank == id / (experts / epSize)
    ensures id / (experts / epSize) < epSize
  {
    var each := experts / epSize;
    assert each * epSize == experts;
    if each > 0 {
      if rank * each <= id < rank * each + each {
        DivUnique(id, each, rank, id - rank * each);
      }
      if id / each >= epSize {
        MulOrder(epSize, id / each, each);
      }
    }
  }

  // ---------------------------------------------------------------------
  // Mask and remap
  // ---------------------------------------------------------------------

  function LocalId(id: nat, share: Share): nat
    requires share.count > 0
  {
    if IsLocal(id, share) then id - share.start else id % share.count
  }

  function LocalIds(ids: seq<nat>, share: Share): (r: seq<nat>)
    requires |ids| > 0 ==> share.count > 0
    ensures |r| == |ids| && forall p :: 0 <= p < |ids| ==> r[p] == LocalId(ids[p], share) < share.count
  {
    seq(|ids|, p requires 0 <= p < |ids| => LocalId(ids[p], share))
  }

  function Masked(ids: seq<nat>, weights: Vec, share: Share): (r: Vec)
    requires |ids| == |weights|
    ensures |r| == |ids| && forall p :: 0 <= p < |ids| ==> r[p] == if IsLocal(ids[p], share) then weights[p] else 0.0
  {
    seq(|ids|, p requires 0 <= p < |ids| => if IsLocal(ids[p], share) then weights[p] else 0.0)
  }

  /** The rank's own ids, its weights with the other ranks' pairs zeroed, and the
      mask. */
  method MaskAndRemap(ids: seq<nat>, weights: Vec, share: Share) returns (localIds: seq<nat>, masked: Vec, mask: seq<bool>)
    requires |ids| == |weights| && (|ids| > 0 ==> share.count > 0)
    ensures |localIds| == |masked| == |mask| == |ids|
    ensures forall p :: 0 <= p < |ids| ==> mask[p] == IsLocal(ids[p], share)
    ensures forall p :: 0 <= p < |ids| ==> masked[p] == if mask[p] then weights[p] else 0.0
    ensures forall p :: 0 <= p < |ids| ==> localIds[p] < share.count
    ensures localIds == LocalIds(ids, share) && masked == Masked(ids, weights, share)
    ensures forall p :: 0 <= p < |ids| ==> mask[p] == (share.start <= ids[p] < share.start + share.count)
    ensures forall p :: 0 <= p < |ids| ==> localIds[p] == if mask[p] then ids[p] - share.start else ids[p] % share.count
  {
    mask := seq(|ids|, p requires 0 <= p < |ids| => IsLocal(ids[p], share));
    masked := seq(|ids|, p requires 0 <= p < |ids| => weights[p] * if mask[p] then 1.0 else 0.0);
    var remapped := new int[|ids|](p requires 0 <= p < |ids| => ids[p] - share.start);
    for p := 0 to |ids|
      invariant forall q :: 0 <= q < p ==> 0 <= remapped[q] < share.count
      invariant forall q :: 0 <= q < p ==> remapped[q] == LocalId(ids[q], share)
      invariant forall q :: p <= q < |ids| ==> remapped[q] == ids[q] - share.start
    {
      if !mask[p] {
        remapped[p] := ids[p] % share.count;
      }
    }
    localIds := seq(|ids|, p requires 0 <= p < |ids| && 0 <= remapped[p] reads remapped => remapped[p]);
  }

  // ---------------------------------------------------------------------
  // Loading
  // ---------------------------------------------------------------------

  /** The gate, down and up projections of one expert. */
  datatype Shard = W1 | W2 | W3 | OtherShard(name: string)
  datatype Load<W> = Load(expert: nat, shard: Shard, weight: seq<W>)
  datatype LoadError = UnknownShard | WeightTooShort

  /** An expert's parameters along the sharded dimension: w1 and w3 share a tensor. */
  datatype Slot<W> = Slot(w13: seq<W>, w2: seq<W>)

  predicate SlotShape<W>(slot: Slot<W>, inter: nat) {
    |slot.w13| == 2 * inter && |slot.w2| == inter
  }

  function Part<W>(slot: Slot<W>, shard: Shard, inter: nat): (part: seq<W>)
    requires SlotShape(slot, inter)
    ensures |part| == inter
  {
    match shard
    case W1 => slot.w13[..inter]
    case W3 => slot.w13[inter..]
    case _ => slot.w2
  }

  function WithPart<W>(slot: Slot<W>, shard: Shard, rows: seq<W>, inter: nat): (r: Slot<W>)
    requires SlotShape(slot, inter) && !shard.OtherShard? && |rows| == inter
    ensures SlotShape(r, inter)
    ensures forall s: Shard :: !s.OtherShard? ==> Part(r, s, inter) == if s == shard then rows else Part(slot, s, inter)
  {
    match shard
    case W1 => slot.(w13 := rows + slot.w13[inter..])
    case W3 => slot.(w13 := slot.w13[..inter] + rows)
    case _ => slot.(w2 := rows)
  }

  predicate Acceptable<W>(load: Load<W>, inter: nat) {
    !load.shard.OtherShard? && |load.weight| >= inter
  }

  /** The last weight loaded for this shard of expert e. */
  function LastLoaded<W>(loads: seq<Load<W>>, e: nat, shard: Shard, inter: nat): (w: Option<seq<W>>)
    requires forall i :: 0 <= i < |loads| && loads[i].expert == e ==> Acceptable(loads[i], inter)
    ensures w.Some? ==> |w.value| == inter
  {
    if |loads| == 0 then None
    else
      var last := loads[|loads| - 1];
      assert last.expert == e ==> Acceptable(last, inter);
      if last.expert == e && last.shard == shard then Some(last.weight[..inter])
      else LastLoaded(loads[..|loads| - 1], e, shard, inter)
  }

  class EpFusedMoe<W> {
    const share: Share
    /** The full intermediate size: experts are not split further. */
    const inter: nat
    /** One slot per local expert. */
    var params: seq<Slot<W>>

    ghost predicate Valid()
      reads this
    {
      |params| == share.count && forall j :: 0 <= j < |params| ==> SlotShape(params[j], inter)
    }

    constructor (share: Share, inter: nat, blank: W)
      ensures Valid() && this.share == share && this.inter == inter
    {
      this.share, this.inter := share, inter;
      params := seq(share.count, _ => Slot(seq(2 * inter, _ => blank), seq(inter, _ => blank)));
    }

    /** The loader being patched: cuts the tensor-parallel rank's part out of the
        weight, which fails if the weight ends before it, and copies it to the
        place of its shard. */
    method OrigWeightLoader(weight: seq<W>, shard: Shard, expertId: nat, tpRank: nat) returns (r: Result<(), LoadError>)
      requires Valid() && expertId < share.count
      modifies this`params
      ensures Valid()
      ensures r.Ok? <==> !shard.OtherShard? && |weight| >= inter * tpRank + inter
      ensures r == Err(UnknownShard) <==> shard.OtherShard?
      ensures r == Err(WeightTooShort) <==> !shard.OtherShard? && |weight| < inter * tpRank + inter
      ensures r.Err? ==> params == old(params)
      ensures r.Ok? ==>
        && 0 <= inter * tpRank
        && params == old(params)[expertId := WithPart(old(params)[expertId], shard,
                                                      weight[inter * tpRank..inter * tpRank + inter], inter)]
      // The gate projection is the first half of w13, the up projection the second.
      ensures r.Ok? ==>
        var before, after, rows := old(params)[expertId], params[expertId], weight[inter * tpRank..inter * tpRank + inter];
        match shard
        case W1 => after == Slot(rows + before.w13[inter..], before.w2)
        case W3 => after == Slot(before.w13[..inter] + rows, before.w2)
        case _ => after == Slot(before.w13, rows)
    {
      if shard.OtherShard? {
        return Err(UnknownShard);
      }
      MulOrder(0, tpRank, inter);
      var start := inter * tpRank;
      if start + inter > |weight| {
        return Err(WeightTooShort);
      }
      params := params[expertId := WithPart(params[expertId], shard, weight[start..start + inter], inter)];
      return Ok(());
    }

    ghost predicate Accepts(load: Load<W>) {
      IsLocal(load.expert, share) ==> Acceptable(load, inter)
    }

    /** Skips experts of other ranks and stores a local one in its slot; the rank
        is taken to be 0, so a weight of full size is stored whole. */
    method LoadWeight(load: Load<W>) returns (r: Result<(), LoadError>)
      requires Valid()
      modifies this`params
      ensures Valid()
      ensures r.Ok? <==> Accepts(load)
      ensures r.Err? || !IsLocal(load.expert, share) ==> params == old(params)
      ensures r.Ok? && IsLocal(load.expert, share) ==>
        var j := load.expert - share.start;
        params == old(params)[j := WithPart(old(params)[j], load.shard, load.weight[..inter], inter)]
      ensures r.Ok? && IsLocal(load.expert, share) ==>
        var before, after, rows := old(params)[load.expert - share.start], params[load.expert - share.start], load.weight[..inter];
        match load.shard
        case W1 => after == Slot(rows + before.w13[inter..], before.w2)
        case W3 => after == Slot(before.w13[..inter] + rows, before.w2)
        case _ => after == Slot(before.w13, rows)
    {
      if load.expert < share.start || load.expert >= share.start + share.count {
        return Ok(());
      }
      var localExpertId := load.expert - share.start;
      assert inter * 0 == 0;
      r := OrigWeightLoader(load.weight, load.shard, localExpertId, 0);
    }

    /** Each shard of slot j ends up with the last weight loaded for that shard of
        global expert start + j, whatever the order. */
    method LoadCheckpoint(loads: seq<Load<W>>, ghost checkpoint: (nat, Shard) -> seq<W>) returns (r: Result<(), LoadError>)
      requires Valid()
      modifies this`params
      ensures Valid()
      ensures r.Ok? <==> forall i :: 0 <= i < |loads| ==> Accepts(loads[i])
      ensures r.Ok? ==> forall j, s: Shard :: 0 <= j < share.count && !s.OtherShard? ==>
        Part(params[j], s, inter) == Expected(old(params)[j], loads, share.start + j, s)
      // Loads from one checkpoint leave, for every expert it holds in full, the
      // gate and up projections one after the other and the down projection.
      ensures LoadsOf(loads, checkpoint, inter) ==> forall j :: 0 <= j < share.count && HoldsAll(loads, share.start + j) ==>
        && params[j].w13 == checkpoint(share.start + j, W1) + checkpoint(share.start + j, W3)
        && params[j].w2 == checkpoint(share.start + j, W2)
    {
      hide WithPart, Part, HoldsAll, Expected;
      ghost var before := params;
      NothingLoaded(before);
      for i := 0 to |loads|
        invariant Valid() && forall k :: 0 <= k < i ==> Accepts(loads[k])
        invariant forall j, s: Shard :: 0 <= j < share.count && !s.OtherShard? ==>
          Part(params[j], s, inter) == Expected(before[j], loads[..i], share.start + j, s)
      {
        r := LoadWeight(loads[i]);
        if r.Err? {
          return;
        }
        forall j, s: Shard | 0 <= j < share.count && !s.OtherShard?
          ensures Part(params[j], s, inter) == Expected(before[j], loads[..i + 1], share.start + j, s)
        {
          ExpectedNext(before[j], loads, i, share.start + j, s);
        }
      }
      assert loads[..|loads|] == loads;
      if LoadsOf(loads, checkpoint, inter) {
        forall j | 0 <= j < share.count && HoldsAll(loads, share.start + j)
          ensures params[j].w13 == checkpoint(share.start + j, W1) + checkpoint(share.start + j, W3)
          ensures params[j].w2 == checkpoint(share.start + j, W2)
        {
          SlotFilled(params[j], before[j], loads, checkpoint, share.start + j);
        }
      }
      return Ok(());
    }

    lemma SlotFilled(slot: Slot<W>, before: Slot<W>, loads: seq<Load<W>>, checkpoint: (nat, Shard) -> seq<W>, e: nat)
      requires SlotShape(slot, inter) && SlotShape(before, inter) && IsLocal(e, share)
      requires forall i :: 0 <= i < |loads| ==> Accepts(loads[i])
      requires forall s: Shard :: !s.OtherShard? ==> Part(slot, s, inter) == Expected(before, loads, e, s)
      requires LoadsOf(loads, checkpoint, inter) && HoldsAll(loads, e)
      ensures slot.w13 == checkpoint(e, W1) + checkpoint(e, W3) && slot.w2 == checkpoint(e, W2)
    {
      hide Part, LoadsOf, HoldsShard;
      CheckpointFills(loads, checkpoint, e, W1, inter);
      CheckpointFills(loads, checkpoint, e, W2, inter);
      CheckpointFills(loads, checkpoint, e, W3, inter);
      Parts(slot, inter);
    }

    lemma NothingLoaded(before: seq<Slot<W>>)
      requires |before| == share.count && forall j :: 0 <= j < |before| ==> SlotShape(before[j], inter)
      ensures forall j, s: Shard :: 0 <= j < share.count && !s.OtherShard? ==>
        Part(before[j], s, inter) == Expected(before[j], [], share.start + j, s)
    {
    }

    lemma ExpectedNext(slot: Slot<W>, loads: seq<Load<W>>, i: nat, e: nat, s: Shard)
      requires SlotShape(slot, inter) && IsLocal(e, share) && i < |loads| && forall k :: 0 <= k <= i ==> Accepts(loads[k])
      ensures Expected(slot, loads[..i + 1], e, s)
              == if loads[i].expert == e && loads[i].shard == s then loads[i].weight[..inter] else Expected(slot, loads[..i], e, s)
    {
      assert loads[..i + 1][..i] == loads[..i];
    }

    /** The last weight loaded, or what was there. */
    ghost function Expected(slot: Slot<W>, loads: seq<Load<W>>, e: nat, s: Shard): seq<W>
      requires SlotShape(slot, inter) && IsLocal(e, share) && forall i :: 0 <= i < |loads| ==> Accepts(loads[i])
    {
      assert forall i :: 0 <= i < |loads| && loads[i].expert == e ==> Accepts(loads[i]);
      var w := LastLoaded(loads, e, s, inter);
      if w.Some? then w.value else Part(slot, s, inter)
    }
  }

  /** A slot is its gate, up and down projections in their places. */
  lemma Parts<W>(slot: Slot<W>, inter: nat)
    requires SlotShape(slot, inter)
    ensures slot.w13 == Part(slot, W1, inter) + Part(slot, W3, inter) && slot.w2 == Part(slot, W2, inter)
  {
  }

  ghost predicate HoldsShard<W>(loads: seq<Load<W>>, e: nat, s: Shard) {
    exists i :: 0 <= i < |loads| && loads[i].expert == e && loads[i].shard == s
  }

  ghost predicate HoldsAll<W>(loads: seq<Load<W>>, e: nat) {
    HoldsShard(loads, e, W1) && HoldsShard(loads, e, W2) && HoldsShard(loads, e, W3)
  }

  /** All loads are full-size weights of this checkpoint. */
  ghost predicate LoadsOf<W>(loads: seq<Load<W>>, checkpoint: (nat, Shard) -> seq<W>, inter: nat) {
    forall i :: 0 <= i < |loads| ==>
      && loads[i].weight == checkpoint(loads[i].expert, loads[i].shard)
      && !loads[i].shard.OtherShard? && |loads[i].weight| == inter
  }

  /** A checkpoint that holds a shard of an expert fills its place, in any order. */
  lemma {:induction false} CheckpointFills<W>(loads: seq<Load<W>>, checkpoint: (nat, Shard) -> seq<W>, e: nat, s: Shard, inter: nat)
    requires LoadsOf(loads, checkpoint, inter) && HoldsShard(loads, e, s)
    ensures LastLoaded(loads, e, s, inter) == Some(checkpoint(e, s))
  {
    var n := |loads| - 1;
    if !(loads[n].expert == e && loads[n].shard == s) {
      var i :| 0 <= i < |loads| && loads[i].expert == e && loads[i].shard == s;
      assert loads[..n][i] == loads[i];
      CheckpointFills(loads[..n], checkpoint, e, s, inter);
    } else {
      assert loads[n].weight[..inter] == loads[n].weight;
    }
  }

  // ---------------------------------------------------------------------
  // One rank
  // ---------------------------------------------------------------------

  /** Slot j computes global expert start + j. */
  function LocalExpert(expert: Expert, share: Share): (local: Expert)
    ensures forall j: nat, v: Vec :: local(j, v) == expert(share.start + j, v)
  {
    (j: nat, v: Vec) => expert(share.start + j, v)
  }

  lemma LocalYields(expert: Expert, share: Share, h: nat)
    requires Yields(expert, h)
    ensures Yields(LocalExpert(expert, share), h)
  {
    var local := LocalExpert(expert, share);
    forall j: nat, v: Vec
      ensures |local(j, v)| == h
    {
      assert local(j, v) == expert(share.start + j, v);
    }
  }

  ghost function RankOutput(x: seq<Vec>, ids: seq<nat>, weights: Vec, topk: nat, expert: Expert, h: nat, share: Share): (z: seq<Vec>)
    requires topk > 0 && |ids| == |weights| == |x| * topk && Yields(expert, h) && (|ids| > 0 ==> share.count > 0)
    ensures Shape(z, |x|, h)
  {
    LocalYields(expert, share, h);
    Combine(ExpertOutputs(x, LocalIds(ids, share), topk, LocalExpert(expert, share), h), Masked(ids, weights, share), topk, |x|, h)
  }

  method RankForward(x: seq<Vec>, ids: seq<nat>, weights: Vec, topk: nat, expert: Expert, h: nat, share: Share)
    returns (routed: seq<Vec>)
    requires topk > 0 && |ids| == |weights| == |x| * topk && Yields(expert, h) && (|ids| > 0 ==> share.count > 0)
    ensures routed == RankOutput(x, ids, weights, topk, expert, h, share)
    ensures Shape(routed, |x|, h)
    ensures forall t, c :: 0 <= t < |x| && 0 <= c < h ==> routed[t][c] == LocalSum(x, ids, weights, topk, expert, share, t, c, topk)
  {
    hide Combine, ExpertOutputs, TokenSum, LocalSum;
    LocalYields(expert, share, h);
    var localIds, masked, mask := MaskAndRemap(ids, weights, share);
    routed := Dispatch(x, localIds, masked, topk, share.count, LocalExpert(expert, share), h);
    forall t, c | 0 <= t < |x| && 0 <= c < h
      ensures routed[t][c] == LocalSum(x, ids, weights, topk, expert, share, t, c, topk)
    {
      LocalIsTokenSum(x, ids, weights, topk, expert, h, share, t, c, topk);
    }
  }

  /** Channel c of those of token t's first n experts that live on the rank. */
  function LocalSum(x: seq<Vec>, ids: seq<nat>, weights: Vec, topk: nat, expert: Expert, share: Share, t: nat, c: nat, n: nat): real
    requires |ids| == |weights| == |x| * topk && t < |x| && n <= topk
    requires forall e: nat, v: Vec :: c < |expert(e, v)|
  {
    if n == 0 then 0.0
    else
      TokenSpan(t, |x|, topk);
      var p := t * topk + (n - 1);
      LocalSum(x, ids, weights, topk, expert, share, t, c, n - 1)
      + if share.start <= ids[p] < share.start + share.count then weights[p] * expert(ids[p], x[t])[c] else 0.0
  }

  lemma {:induction false} LocalIsTokenSum(x: seq<Vec>, ids: seq<nat>, weights: Vec, topk: nat, expert: Expert, h: nat, share: Share,
                                           t: nat, c: nat, n: nat)
    requires topk > 0 && |ids| == |weights| == |x| * topk && Yields(expert, h) && (|ids| > 0 ==> share.count > 0)
    requires t < |x| && c < h && n <= topk && Yields(LocalExpert(expert, share), h)
    ensures TokenSum(x, LocalIds(ids, share), Masked(ids, weights, share), topk, LocalExpert(expert, share), t, c, n)
            == LocalSum(x, ids, weights, topk, expert, share, t, c, n)
  {
    hide LocalExpert, TokenSum, LocalSum;
    if n == 0 {
      NoTerms(x, LocalIds(ids, share), Masked(ids, weights, share), topk, LocalExpert(expert, share), h, t, c);
      NoLocalTerms(x, ids, weights, topk, expert, h, share, t, c);
    } else {
      LocalIsTokenSum(x, ids, weights, topk, expert, h, share, t, c, n - 1);
      var p := t * topk + (n - 1);
      LocalSumNext(x, ids, weights, topk, expert, h, share, t, c, p, n);
      TokenSumNext(x, LocalIds(ids, share), Masked(ids, weights, share), topk, LocalExpert(expert, share), h, t, c, p, n);
      LocalTerm(ids, weights, expert, share, x[t], p, c);
    }
  }

  lemma NoLocalTerms(x: seq<Vec>, ids: seq<nat>, weights: Vec, topk: nat, expert: Expert, h: nat, share: Share, t: nat, c: nat)
    requires |ids| == |weights| == |x| * topk && Yields(expert, h) && t < |x| && c < h
    ensures LocalSum(x, ids, weights, topk, expert, share, t, c, 0) == 0.0
  {
  }

  lemma LocalSumNext(x: seq<Vec>, ids: seq<nat>, weights: Vec, topk: nat, expert: Expert, h: nat, share: Share, t: nat, c: nat,
                     p: int, n: nat)
    requires |ids| == |weights| == |x| * topk && Yields(expert, h) && t < |x| && c < h && 0 < n <= topk
    requires p == t * topk + (n - 1)
    ensures 0 <= p < |ids|
    ensures LocalSum(x, ids, weights, topk, expert, share, t, c, n)
            == LocalSum(x, ids, weights, topk, expert, share, t, c, n - 1)
               + if share.start <= ids[p] < share.start + share.count then weights[p] * expert(ids[p], x[t])[c] else 0.0
  {
    TokenSpan(t, |x|, topk);
  }

  lemma LocalTerm(ids: seq<nat>, weights: Vec, expert: Expert, share: Share, v: Vec, p: nat, c: nat)
    requires |ids| == |weights| && p < |ids| && share.count > 0
    requires forall e: nat, v: Vec :: c < |expert(e, v)|
    ensures Masked(ids, weights, share)[p] * LocalExpert(expert, share)(LocalIds(ids, share)[p], v)[c]
            == if share.start <= ids[p] < share.start + share.count then weights[p] * expert(ids[p], v)[c] else 0.0
  {
  }

  // ---------------------------------------------------------------------
  // All ranks together
  // ---------------------------------------------------------------------

  function AddRows(a: seq<Vec>, b: seq<Vec>, h: nat): (z: seq<Vec>)
    requires |a| == |b| && Shape(a, |a|, h) && Shape(b, |b|, h)
    ensures Shape(z, |a|, h) && forall t :: 0 <= t < |a| ==> z[t] == Add(a[t], b[t])
  {
    seq(|a|, t requires 0 <= t < |a| => Add(a[t], b[t]))
  }

  function ZeroRows(rows: nat, h: nat): (z: seq<Vec>)
    ensures Shape(z, rows, h) && forall t :: 0 <= t < rows ==> z[t] == Zeros(h)
  {
    seq(rows, _ => Zeros(h))
  }

  ghost predicate AllShape(parts: seq<seq<Vec>>, rows: nat, h: nat) {
    forall r :: 0 <= r < |parts| ==> Shape(parts[r], rows, h)
  }

  /** The sum that an all-reduce leaves on every rank. */
  function AllReduce(parts: seq<seq<Vec>>, rows: nat, h: nat): (z: seq<Vec>)
    requires AllShape(parts, rows, h)
    ensures Shape(z, rows, h)
  {
    if |parts| == 0 then ZeroRows(rows, h)
    else AddRows(AllReduce(parts[..|parts| - 1], rows, h), parts[|parts| - 1], h)
  }

  /** Each rank adds its shared-expert partial to its routed partial, and the sums
      are reduced once. */
  function ReduceOutput(routed: seq<seq<Vec>>, shared: seq<seq<Vec>>, rows: nat, h: nat): (z: seq<Vec>)
    requires |routed| == |shared| && AllShape(routed, rows, h) && AllShape(shared, rows, h)
    ensures Shape(z, rows, h)
  {
    AllReduce(seq(|routed|, r requires 0 <= r < |routed| => AddRows(routed[r], shared[r], h)), rows, h)
  }

  lemma AddExchange(a: Vec, b: Vec, c: Vec, d: Vec)
    requires |a| == |b| == |c| == |d|
    ensures Add(Add(a, b), Add(c, d)) == Add(Add(a, c), Add(b, d))
  {
  }

  lemma AddRowsExchange(a: seq<Vec>, b: seq<Vec>, c: seq<Vec>, d: seq<Vec>, h: nat)
    requires |a| == |b| == |c| == |d| && Shape(a, |a|, h) && Shape(b, |a|, h) && Shape(c, |a|, h) && Shape(d, |a|, h)
    ensures AddRows(AddRows(a, b, h), AddRows(c, d, h), h) == AddRows(AddRows(a, c, h), AddRows(b, d, h), h)
  {
    hide Add;
    forall t | 0 <= t < |a|
      ensures AddRows(AddRows(a, b, h), AddRows(c, d, h), h)[t] == AddRows(AddRows(a, c, h), AddRows(b, d, h), h)[t]
    {
      AddExchange(a[t], b[t], c[t], d[t]);
    }
  }

  /** One reduction of the sums is the sum of two reductions. */
  lemma {:induction false} ReduceSplits(routed: seq<seq<Vec>>, shared: seq<seq<Vec>>, rows: nat, h: nat)
    requires |routed| == |shared| && AllShape(routed, rows, h) && AllShape(shared, rows, h)
    ensures ReduceOutput(routed, shared, rows, h) == AddRows(AllReduce(routed, rows, h), AllReduce(shared, rows, h), h)
  {
    hide Add, AddRows;
    if |routed| == 0 {
      ZeroPlusZero(rows, h);
    } else {
      var n := |routed| - 1;
      ReduceSplits(routed[..n], shared[..n], rows, h);
      var sums := seq(|routed|, r requires 0 <= r < |routed| => AddRows(routed[r], shared[r], h));
      assert sums[..n] == seq(n, r requires 0 <= r < n => AddRows(routed[..n][r], shared[..n][r], h));
      AddRowsExchange(AllReduce(routed[..n], rows, h), AllReduce(shared[..n], rows, h), routed[n], shared[n], h);
    }
  }

  lemma ZeroPlusZero(rows: nat, h: nat)
    ensures AddRows(ZeroRows(rows, h), ZeroRows(rows, h), h) == ZeroRows(rows, h)
  {
    assert Add(Zeros(h), Zeros(h)) == Zeros(h);
  }

  /** Two combinations with complementary weights make one. */
  lemma {:induction false} LinCombMerge(a: Vec, m: seq<Vec>, b: Vec, k: seq<Vec>, c: Vec, h: nat)
    requires |a| == |m| == |b| == |k| == |c| && Shape(m, |m|, h) && Shape(k, |k|, h)
    requires forall i :: 0 <= i < |a| ==> (b[i] == 0.0 && c[i] == a[i]) || (a[i] == 0.0 && c[i] == b[i] && k[i] == m[i])
    ensures Add(LinComb(a, m, h), LinComb(b, k, h)) == LinComb(c, m, h)
  {
    hide Add, Scale;
    if |a| == 0 {
      ZeroVectors(h);
    } else {
      var n := |a| - 1;
      LinCombMerge(a[..n], m[..n], b[..n], k[..n], c[..n], h);
      AddExchange(LinComb(a[..n], m[..n], h), Scale(a[n], m[n]), LinComb(b[..n], k[..n], h), Scale(b[n], k[n]));
      OneTerm(a[n], m[n], b[n], k[n], c[n]);
    }
  }

  lemma ZeroVectors(h: nat)
    ensures Add(Zeros(h), Zeros(h)) == Zeros(h)
  {
  }

  lemma OneTerm(a: real, m: Vec, b: real, k: Vec, c: real)
    requires |m| == |k| && ((b == 0.0 && c == a) || (a == 0.0 && c == b && k == m))
    ensures Add(Scale(a, m), Scale(b, k)) == Scale(c, m)
  {
    forall i | 0 <= i < |m|
      ensures Add(Scale(a, m), Scale(b, k))[i] == Scale(c, m)[i]
    {
      assert b == 0.0 ==> b * k[i] == 0.0;
      assert a == 0.0 ==> a * m[i] == 0.0;
    }
  }

  /** The weights of the pairs whose expert is below a bound. */
  function Below(ids: seq<nat>, weights: Vec, bound: nat): (r: Vec)
    requires |ids| == |weights|
    ensures |r| == |ids| && forall p :: 0 <= p < |ids| ==> r[p] == if ids[p] < bound then weights[p] else 0.0
  {
    seq(|ids|, p requires 0 <= p < |ids| => if ids[p] < bound then weights[p] else 0.0)
  }

  lemma RankAdds(x: seq<Vec>, ids: seq<nat>, weights: Vec, topk: nat, expert: Expert, h: nat, share: Share)
    requires topk > 0 && |ids| == |weights| == |x| * topk && Yields(expert, h) && (|ids| > 0 ==> share.count > 0)
    ensures var full := ExpertOutputs(x, ids, topk, expert, h);
      AddRows(Combine(full, Below(ids, weights, share.start), topk, |x|, h), RankOutput(x, ids, weights, topk, expert, h, share), h)
      == Combine(full, Below(ids, weights, share.start + share.count), topk, |x|, h)
  {
    hide Add, LinComb;
    var full := ExpertOutputs(x, ids, topk, expert, h);
    LocalYields(expert, share, h);
    var own := ExpertOutputs(x, LocalIds(ids, share), topk, LocalExpert(expert, share), h);
    var before, mine, after :=
      Below(ids, weights, share.start), Masked(ids, weights, share), Below(ids, weights, share.start + share.count);
    assert forall p :: 0 <= p < |ids| && IsLocal(ids[p], share) ==> own[p] == full[p];
    forall t | 0 <= t < |x|
      ensures Add(CombineToken(full, before, topk, |x|, t, h), CombineToken(own, mine, topk, |x|, t, h))
        == CombineToken(full, after, topk, |x|, t, h)
    {
      TokenSpan(t, |x|, topk);
      var lo, hi := t * topk, t * topk + topk;
      LinCombMerge(before[lo..hi], full[lo..hi], mine[lo..hi], own[lo..hi], after[lo..hi], h);
    }
  }

  lemma {:induction false} NoWeight(w: Vec, m: seq<Vec>, h: nat)
    requires |w| == |m| && Shape(m, |m|, h) && forall i :: 0 <= i < |w| ==> w[i] == 0.0
    ensures LinComb(w, m, h) == Zeros(h)
  {
    if |w| > 0 {
      NoWeight(w[..|w| - 1], m[..|m| - 1], h);
      assert Scale(0.0, m[|m| - 1]) == Zeros(h);
      ZeroVectors(h);
    }
  }

  lemma NothingBelowZero(full: seq<Vec>, ids: seq<nat>, weights: Vec, topk: nat, tokens: nat, h: nat)
    requires |ids| == |weights| == |full| == tokens * topk && Shape(full, |full|, h)
    ensures Combine(full, Below(ids, weights, 0), topk, tokens, h) == ZeroRows(tokens, h)
  {
    hide LinComb;
    var w := Below(ids, weights, 0);
    forall t | 0 <= t < tokens
      ensures CombineToken(full, w, topk, tokens, t, h) == Zeros(h)
    {
      TokenSpan(t, tokens, topk);
      NoWeight(w[t * topk..t * topk + topk], full[t * topk..t * topk + topk], h);
    }
  }

  ghost function RankOutputs(x: seq<Vec>, ids: seq<nat>, weights: Vec, topk: nat, expert: Expert, h: nat, experts: nat,
      epSize: nat, n: nat): (z: seq<seq<Vec>>)
    requires topk > 0 && |ids| == |weights| == |x| * topk && Yields(expert, h)
    requires 0 < epSize && n <= epSize && experts % epSize == 0 && forall p :: 0 <= p < |ids| ==> ids[p] < experts
    ensures |z| == n && AllShape(z, |x|, h)
  {
    if n == 0 then []
    else
      SharesHold(ids, experts, epSize, n - 1);
      RankOutputs(x, ids, weights, topk, expert, h, experts, epSize, n - 1)
      + [RankOutput(x, ids, weights, topk, expert, h, EpInit(experts, epSize, n - 1).value)]
  }

  lemma SharesHold(ids: seq<nat>, experts: nat, epSize: nat, rank: nat)
    requires rank < epSize && experts % epSize == 0 && forall p :: 0 <= p < |ids| ==> ids[p] < experts
    ensures EpInit(experts, epSize, rank).Ok? && (|ids| > 0 ==> EpInit(experts, epSize, rank).value.count > 0)
  {
    if |ids| > 0 {
      LocalOnOneRank(experts, epSize, ids[0], rank);
    }
  }

  /** After n ranks the sum is the unsharded output restricted to their experts. */
  lemma {:induction false} PartialSum(x: seq<Vec>, ids: seq<nat>, weights: Vec, topk: nat, expert: Expert, h: nat, experts: nat,
      epSize: nat, n: nat)
    requires topk > 0 && |ids| == |weights| == |x| * topk && Yields(expert, h)
    requires 0 < epSize && n <= epSize && experts % epSize == 0 && forall p :: 0 <= p < |ids| ==> ids[p] < experts
    ensures 0 <= n * (experts / epSize)
    ensures AllReduce(RankOutputs(x, ids, weights, topk, expert, h, experts, epSize, n), |x|, h)
      == Combine(ExpertOutputs(x, ids, topk, expert, h), Below(ids, weights, n * (experts / epSize)), topk, |x|, h)
  {
    hide Combine, ExpertOutputs, Yields, RankOutput, Below, AddRows, AllReduce, EpInit;
    var each := experts / epSize;
    MulOrder(0, n, each);
    if n == 0 {
      NothingBelowZero(ExpertOutputs(x, ids, topk, expert, h), ids, weights, topk, |x|, h);
      NothingReduced(|x|, h);
    } else {
      PartialSum(x, ids, weights, topk, expert, h, experts, epSize, n - 1);
      SharesHold(ids, experts, epSize, n - 1);
      var share := EpInit(experts, epSize, n - 1).value;
      ShareEnds(experts, epSize, n - 1);
      RankAdds(x, ids, weights, topk, expert, h, share);
      ReduceNext(RankOutputs(x, ids, weights, topk, expert, h, experts, epSize, n - 1),
                 RankOutput(x, ids, weights, topk, expert, h, share), |x|, h);
    }
  }

  lemma ShareEnds(experts: nat, epSize: nat, rank: nat)
    requires rank < epSize && EpInit(experts, epSize, rank).Ok?
    ensures var share := EpInit(experts, epSize, rank).value;
      share.start == rank * (experts / epSize) && share.start + share.count == (rank + 1) * (experts / epSize)
  {
  }

  lemma NothingReduced(rows: nat, h: nat)
    ensures AllReduce([], rows, h) == ZeroRows(rows, h)
  {
  }

  lemma ReduceNext(parts: seq<seq<Vec>>, part: seq<Vec>, rows: nat, h: nat)
    requires AllShape(parts, rows, h) && Shape(part, rows, h)
    ensures AllShape(parts + [part], rows, h)
    ensures AllReduce(parts + [part], rows, h) == AddRows(AllReduce(parts, rows, h), part, h)
  {
    hide AddRows;
    assert (parts + [part])[..|parts|] == parts;
  }

  /** Every rank ends with the unsharded mixture plus the shared expert's output. */
  lemma EpMatchesUnsharded(x: seq<Vec>, ids: seq<nat>, weights: Vec, topk: nat, expert: Expert, h: nat, experts: nat, epSize: nat,
      shared: seq<seq<Vec>>)
    requires topk > 0 && |ids| == |weights| == |x| * topk && Yields(expert, h)
    requires 0 < epSize == |shared| && experts % epSize == 0 && AllShape(shared, |x|, h)
    requires forall p :: 0 <= p < |ids| ==> ids[p] < experts
    ensures ReduceOutput(RankOutputs(x, ids, weights, topk, expert, h, experts, epSize, epSize), shared, |x|, h)
      == AddRows(Combine(ExpertOutputs(x, ids, topk, expert, h), weights, topk, |x|, h), AllReduce(shared, |x|, h), h)
  {
    hide Combine, ExpertOutputs, Yields, RankOutput, AddRows, AllReduce, ReduceOutput, RankOutputs;
    PartialSum(x, ids, weights, topk, expert, h, experts, epSize, epSize);
    assert Below(ids, weights, epSize * (experts / epSize)) == weights;
    ReduceSplits(RankOutputs(x, ids, weights, topk, expert, h, experts, epSize, epSize), shared, |x|, h);
  }

  /** In numbers: every entry is the token's own experts on its own hidden state,
      weighted, plus what all ranks computed of the shared experts. */
  lemma EpMeaning(x: seq<Vec>, ids: seq<nat>, weights: Vec, topk: nat, expert: Expert, h: nat, experts: nat, epSize: nat,
      shared: seq<seq<Vec>>, t: nat, c: nat)
    requires topk > 0 && |ids| == |weights| == |x| * topk && Yields(expert, h)
    requires 0 < epSize == |shared| && experts % epSize == 0 && AllShape(shared, |x|, h)
    requires forall p :: 0 <= p < |ids| ==> ids[p] < experts
    requires t < |x| && c < h
    ensures ReduceOutput(RankOutputs(x, ids, weights, topk, expert, h, experts, epSize, epSize), shared, |x|, h)[t][c]
      == TokenSum(x, ids, weights, topk, expert, t, c, topk) + SumAt(shared, |x|, h, t, c)
  {
    hide TokenSum, SumAt, Combine, ExpertOutputs, RankOutput, AllReduce, ReduceOutput, RankOutputs;
    EpMatchesUnsharded(x, ids, weights, topk, expert, h, experts, epSize, shared);
    CombineMeaning(x, ids, weights, topk, expert, h, t, c);
    ReducedAt(shared, |x|, h, t, c);
    AddedAt(Combine(ExpertOutputs(x, ids, topk, expert, h), weights, topk, |x|, h), AllReduce(shared, |x|, h), h, t, c);
  }

  lemma AddedAt(a: seq<Vec>, b: seq<Vec>, h: nat, t: nat, c: nat)
    requires |a| == |b| && Shape(a, |a|, h) && Shape(b, |b|, h) && t < |a| && c < h
    ensures AddRows(a, b, h)[t][c] == a[t][c] + b[t][c]
  {
  }

  /** The sum of all parts at one place. */
  function SumAt(parts: seq<seq<Vec>>, rows: nat, h: nat, t: nat, c: nat): real
    requires AllShape(parts, rows, h) && t < rows && c < h
  {
    if |parts| == 0 then 0.0 else SumAt(parts[..|parts| - 1], rows, h, t, c) + parts[|parts| - 1][t][c]
  }

  lemma {:induction false} ReducedAt(parts: seq<seq<Vec>>, rows: nat, h: nat, t: nat, c: nat)
    requires AllShape(parts, rows, h) && t < rows && c < h
    ensures AllReduce(parts, rows, h)[t][c] == SumAt(parts, rows, h, t, c)
  {
    if |parts| > 0 {
      ReducedAt(parts[..|parts| - 1], rows, h, t, c);
    }
  }
}
