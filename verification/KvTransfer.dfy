/** What the block-major pipelines amount to: the layer-major swap of CacheEngine
    seen through layer_views, round trips, and the order of one worker step. */
module KvTransfer {
  import opened Outcome
  import opened Arithmetic
  import opened BlockMajorKv

  // ---------------------------------------------------------------------
  // The layer-major reference
  // ---------------------------------------------------------------------

  /** swap_blocks on one plane: the mapped blocks, one pair after another. */
  function SwapBlocks<T>(src: seq<T>, dst: seq<T>, srcs: seq<nat>, dsts: seq<nat>): (r: seq<T>)
    requires |srcs| == |dsts| && Below(srcs, |src|) && Below(dsts, |dst|)
    ensures |r| == |dst|
  {
    if |srcs| == 0 then dst
    else
      var k := |srcs| - 1;
      SwapBlocks(src, dst, srcs[..k], dsts[..k])[dsts[k] := src[srcs[k]]]
  }

  lemma {:induction false} SwapBlocksAt<T>(src: seq<T>, dst: seq<T>, srcs: seq<nat>, dsts: seq<nat>)
    requires |srcs| == |dsts| && Below(srcs, |src|) && Below(dsts, |dst|) && Distinct(dsts)
    ensures PlaneCopied(src, dst, srcs, dsts, SwapBlocks(src, dst, srcs, dsts))
  {
    if |srcs| > 0 {
      var k := |srcs| - 1;
      SwapBlocksAt(src, dst, srcs[..k], dsts[..k]);
      var before, after := SwapBlocks(src, dst, srcs[..k], dsts[..k]), SwapBlocks(src, dst, srcs, dsts);
      forall r | 0 <= r < |srcs| ensures after[dsts[r]] == src[srcs[r]] {
        if r < k {
          assert dsts[..k][r] == dsts[r] != dsts[k] && srcs[..k][r] == srcs[r];
        }
      }
      forall b | 0 <= b < |dst| && b !in dsts ensures after[b] == dst[b] {
        assert b != dsts[k] && b !in dsts[..k];
      }
    }
  }

  /** The mapped blocks of a plane are copies and the others are as they were. */
  ghost predicate PlaneCopied<T>(src: seq<T>, dst: seq<T>, srcs: seq<nat>, dsts: seq<nat>, after: seq<T>)
    requires |srcs| == |dsts| && Below(srcs, |src|) && Below(dsts, |dst|)
  {
    && |after| == |dst|
    && (forall r :: 0 <= r < |srcs| ==> after[dsts[r]] == src[srcs[r]])
    && forall b :: 0 <= b < |dst| && b !in dsts ==> after[b] == dst[b]
  }

  /** layer_views[l][p]: the pool read as one layer's plane. */
  function LayerView<T>(pool: seq<Block<T>>, l: nat, p: nat): (v: seq<T>)
    requires BlocksShape(pool) && l < NUM_ATTENTION_LAYERS && p < KV_PLANES
    ensures |v| == |pool|
  {
    seq(|pool|, b requires 0 <= b < |pool| => assert BlockShape(pool[b]); pool[b][l][p])
  }

  lemma {:induction false} RowsThroughView<T>(pool: seq<Block<T>>, gpu: GpuCache<T>, n: nat, srcs: seq<nat>, dsts: seq<nat>,
                                              l: nat, p: nat)
    requires BlocksShape(pool) && GpuShape(gpu, n) && Below(srcs, n) && Below(dsts, |pool|) && |srcs| == |dsts|
    requires l < NUM_ATTENTION_LAYERS && p < KV_PLANES
    ensures BlocksShape(PutRows(pool, dsts, GpuBlocks(gpu, n, srcs)))
    ensures LayerView(PutRows(pool, dsts, GpuBlocks(gpu, n, srcs)), l, p)
            == SwapBlocks(gpu[l][p], LayerView(pool, l, p), srcs, dsts)
  {
    PutRowsShape(pool, dsts, GpuBlocks(gpu, n, srcs));
    if |srcs| > 0 {
      var k := |srcs| - 1;
      RowsThroughView(pool, gpu, n, srcs[..k], dsts[..k], l, p);
      GpuBlocksSlice(gpu, n, srcs, 0, k);
      assert srcs[0..k] == srcs[..k] && GpuBlocks(gpu, n, srcs)[0..k] == GpuBlocks(gpu, n, srcs)[..k];
      ViewOfUpdate(PutRows(pool, dsts[..k], GpuBlocks(gpu, n, srcs[..k])), dsts[k], GpuBlock(gpu, n, srcs[k]), l, p);
    }
  }

  lemma ViewOfUpdate<T>(pool: seq<Block<T>>, b: nat, x: Block<T>, l: nat, p: nat)
    requires BlocksShape(pool) && BlockShape(x) && b < |pool| && l < NUM_ATTENTION_LAYERS && p < KV_PLANES
    ensures BlocksShape(pool[b := x])
    ensures LayerView(pool[b := x], l, p) == LayerView(pool, l, p)[b := x[l][p]]
  {
  }

  /** After swap_out every layer view is the CPU cache the per-layer, per-plane
      loop would have produced. */
  lemma SwapOutRefinesLayers<T>(pool: seq<Block<T>>, gpu: GpuCache<T>, n: nat, m: Mapping, l: nat, p: nat)
    requires BlocksShape(pool) && GpuShape(gpu, n) && MappingShape(m, n, |pool|)
    requires l < NUM_ATTENTION_LAYERS && p < KV_PLANES
    ensures BlocksShape(CopyOut(pool, gpu, n, m))
    ensures LayerView(CopyOut(pool, gpu, n, m), l, p) == SwapBlocks(gpu[l][p], LayerView(pool, l, p), m.srcs, m.dsts)
  {
    hide PutRows, SwapBlocks, LayerView, GpuBlocks;
    RowsThroughView(pool, gpu, n, m.srcs, m.dsts, l, p);
  }

  lemma {:induction false} GpuRowsAt<T>(gpu: GpuCache<T>, n: nat, pool: seq<Block<T>>, srcs: seq<nat>, dsts: seq<nat>, l: nat, p: nat)
    requires BlocksShape(pool) && GpuShape(gpu, n) && Below(srcs, |pool|) && Below(dsts, n) && |srcs| == |dsts|
    requires l < NUM_ATTENTION_LAYERS && p < KV_PLANES
    ensures PutGpuBlocks(gpu, n, dsts, GetRows(pool, srcs))[l][p]
            == SwapBlocks(LayerView(pool, l, p), gpu[l][p], srcs, dsts)
  {
    if |srcs| > 0 {
      var k := |srcs| - 1;
      GpuRowsAt(gpu, n, pool, srcs[..k], dsts[..k], l, p);
      assert GetRows(pool, srcs)[..k] == GetRows(pool, srcs[..k]);
      assert LayerView(pool, l, p)[srcs[k]] == pool[srcs[k]][l][p];
    }
  }

  /** The same for swap_in, plane by plane on the GPU. */
  lemma SwapInRefinesLayers<T>(gpu: GpuCache<T>, n: nat, pool: seq<Block<T>>, m: Mapping, l: nat, p: nat)
    requires BlocksShape(pool) && GpuShape(gpu, n) && MappingShape(m, |pool|, n)
    requires l < NUM_ATTENTION_LAYERS && p < KV_PLANES
    ensures CopyIn(gpu, n, pool, m)[l][p] == SwapBlocks(LayerView(pool, l, p), gpu[l][p], m.srcs, m.dsts)
  {
    hide PutGpuBlocks, SwapBlocks, LayerView, GetRows;
    GpuRowsAt(gpu, n, pool, m.srcs, m.dsts, l, p);
  }

  // ---------------------------------------------------------------------
  // The cache engine
  // ---------------------------------------------------------------------

  /** Where block b of plane p of layer l lies in the one buffer of all layers. */
  function BufferIndex(l: nat, p: nat, b: nat, n: nat): nat {
    l * (KV_PLANES * n) + (p * n + b)
  }

  /** The layer, plane and block that a cell of the buffer belongs to. */
  function CellOwner(i: nat, n: nat): (int, int, int)
    requires n > 0
  {
    var size := KV_PLANES * n;
    var inside := i % size;
    (i / size, inside / n, inside % n)
  }

  /** The layer views tile the buffer: each place has a cell inside it, which
      belongs to no other place. */
  lemma ViewsDisjoint(l: nat, p: nat, b: nat, layers: nat, n: nat)
    requires l < layers && p < KV_PLANES && b < n
    ensures BufferIndex(l, p, b, n) < layers * (KV_PLANES * n)
    ensures CellOwner(BufferIndex(l, p, b, n), n) == (l, p, b)
  {
    var size, inside := KV_PLANES * n, p * n + b;
    MulOrder(l + 1, layers, size);
    assert inside < size;
    DivUnique(l * size + inside, size, l, inside);
    DivUnique(inside, n, p, b);
  }

  /** And each cell of the buffer belongs to some place. */
  lemma ViewsCover(i: nat, layers: nat, n: nat) returns (l: nat, p: nat, b: nat)
    requires n > 0 && i < layers * (KV_PLANES * n)
    ensures l < layers && p < KV_PLANES && b < n && BufferIndex(l, p, b, n) == i
  {
    var inside;
    l, inside := DivParts(i, KV_PLANES * n);
    p, b := DivParts(inside, n);
    if l >= layers {
      MulOrder(layers, l, KV_PLANES * n);
    }
    if p >= KV_PLANES {
      MulOrder(KV_PLANES, p, n);
    }
  }

  /** What the allocation returns: no layers at all when there are no blocks. */
  ghost predicate CacheShape<T>(cache: GpuCache<T>, n: nat) {
    if n == 0 then cache == [] else GpuShape(cache, n)
  }

  ghost predicate AllZero<T>(cache: GpuCache<T>, zero: T) {
    forall l, p, b :: 0 <= l < |cache| && 0 <= p < |cache[l]| && 0 <= b < |cache[l][p]| ==> cache[l][p][b] == zero
  }

  /** The layer reads its own range of the buffer. */
  ghost predicate IsView<T>(layer: seq<seq<T>>, buffer: seq<T>, l: nat, n: nat) {
    && LayerFits(layer, n)
    && forall p, b :: 0 <= p < KV_PLANES && 0 <= b < n ==>
         BufferIndex(l, p, b, n) < |buffer| && layer[p][b] == buffer[BufferIndex(l, p, b, n)]
  }

  lemma SliceIsView<T>(buffer: seq<T>, start: nat, l: nat, n: nat)
    requires start == l * (KV_PLANES * n) && start + KV_PLANES * n <= |buffer|
    ensures IsView([buffer[start..start + n], buffer[start + n..start + KV_PLANES * n]], buffer, l, n)
  {
    forall p: nat, b: nat | p < KV_PLANES && b < n
      ensures BufferIndex(l, p, b, n) == if p == 0 then start + b else start + n + b
    {
    }
  }

  /** One zeroed buffer for all layers, cut into a view per layer. */
  method AllocateKvCache<T>(layers: nat, numBlocks: nat, zero: T) returns (cache: GpuCache<T>, buffer: seq<T>)
    ensures layers == 0 || numBlocks == 0 ==> cache == []
    ensures layers > 0 && numBlocks > 0 ==> |cache| == layers && |buffer| == layers * (KV_PLANES * numBlocks)
    ensures forall l :: 0 <= l < |cache| ==> IsView(cache[l], buffer, l, numBlocks)
    ensures forall i :: 0 <= i < |buffer| ==> buffer[i] == zero
  {
    hide IsView, BufferIndex;
    cache, buffer := [], [];
    if layers == 0 || numBlocks == 0 {
      return;
    }
    var layerNumel := KV_PLANES * numBlocks;
    MulOrder(0, layers, layerNumel);
    buffer := seq(layers * layerNumel, _ => zero);
    for l := 0 to layers
      invariant |cache| == l
      invariant forall k :: 0 <= k < l ==> IsView(cache[k], buffer, k, numBlocks)
    {
      var start := l * layerNumel;
      MulOrder(0, l, layerNumel);
      MulOrder(l + 1, layers, layerNumel);
      SliceIsView(buffer, start, l, numBlocks);
      var layerFlat := buffer[start..start + layerNumel];
      assert layerFlat[..numBlocks] == buffer[start..start + numBlocks];
      assert layerFlat[numBlocks..] == buffer[start + numBlocks..start + layerNumel];
      cache := cache + [[layerFlat[..numBlocks], layerFlat[numBlocks..]]];
    }
  }

  lemma ViewsAreZero<T>(cache: GpuCache<T>, buffer: seq<T>, n: nat, zero: T)
    requires forall l :: 0 <= l < |cache| ==> IsView(cache[l], buffer, l, n)
    requires forall i :: 0 <= i < |buffer| ==> buffer[i] == zero
    ensures AllZero(cache, zero)
    ensures |cache| == NUM_ATTENTION_LAYERS ==> GpuShape(cache, n)
  {
    hide BufferIndex;
    forall l: nat | l < |cache|
      ensures LayerFits(cache[l], n) && forall p, b :: 0 <= p < KV_PLANES && 0 <= b < n ==> cache[l][p][b] == zero
    {
      assert IsView(cache[l], buffer, l, n);
    }
    if |cache| == NUM_ATTENTION_LAYERS {
      ShapeFits(cache, |cache|, n);
    }
  }

  /** CacheEngine without the block-major pool: one loop over layers, two planes
      each. */
  class CacheEngine<T> {
    var gpuCache: GpuCache<T>
    var cpuCache: GpuCache<T>
    const numGpuBlocks: nat
    const numCpuBlocks: nat

    ghost predicate Valid()
      reads this
    {
      CacheShape(gpuCache, numGpuBlocks) && CacheShape(cpuCache, numCpuBlocks)
    }

    constructor (numGpuBlocks: nat, numCpuBlocks: nat, zero: T)
      ensures Valid() && AllZero(gpuCache, zero) && AllZero(cpuCache, zero)
      ensures this.numGpuBlocks == numGpuBlocks && this.numCpuBlocks == numCpuBlocks
    {
      this.numGpuBlocks, this.numCpuBlocks := numGpuBlocks, numCpuBlocks;
      var gpu, gpuBuffer := AllocateKvCache(NUM_ATTENTION_LAYERS, numGpuBlocks, zero);
      var cpu, cpuBuffer := AllocateKvCache(NUM_ATTENTION_LAYERS, numCpuBlocks, zero);
      ViewsAreZero(gpu, gpuBuffer, numGpuBlocks, zero);
      ViewsAreZero(cpu, cpuBuffer, numCpuBlocks, zero);
      gpuCache, cpuCache := gpu, cpu;
    }

    method SwapOut(m: Mapping)
      requires Valid() && numGpuBlocks > 0 && numCpuBlocks > 0 && MappingShape(m, numGpuBlocks, numCpuBlocks)
      modifies this`cpuCache
      ensures Valid()
      ensures forall l, p :: 0 <= l < NUM_ATTENTION_LAYERS && 0 <= p < KV_PLANES ==>
        cpuCache[l][p] == SwapBlocks(gpuCache[l][p], old(cpuCache)[l][p], m.srcs, m.dsts)
      ensures forall l, p :: 0 <= l < 10 && 0 <= p < 2 ==>
        PlaneCopied(gpuCache[l][p], old(cpuCache)[l][p], m.srcs, m.dsts, cpuCache[l][p])
    {
      hide SwapBlocks, Below, Distinct, PlaneCopied;
      for l := 0 to |cpuCache|
        invariant Valid()
        invariant forall k :: l <= k < NUM_ATTENTION_LAYERS ==> cpuCache[k] == old(cpuCache)[k]
        invariant forall k, p :: 0 <= k < l && 0 <= p < KV_PLANES ==>
          cpuCache[k][p] == SwapBlocks(gpuCache[k][p], old(cpuCache)[k][p], m.srcs, m.dsts)
      {
        var keys := SwapBlocks(gpuCache[l][0], cpuCache[l][0], m.srcs, m.dsts);
        var values := SwapBlocks(gpuCache[l][1], cpuCache[l][1], m.srcs, m.dsts);
        cpuCache := cpuCache[l := [keys, values]];
      }
      forall l, p | 0 <= l < 10 && 0 <= p < 2
        ensures PlaneCopied(gpuCache[l][p], old(cpuCache)[l][p], m.srcs, m.dsts, cpuCache[l][p])
      {
        SwapBlocksAt(gpuCache[l][p], old(cpuCache)[l][p], m.srcs, m.dsts);
      }
    }

    method SwapIn(m: Mapping)
      requires Valid() && numGpuBlocks > 0 && numCpuBlocks > 0 && MappingShape(m, numCpuBlocks, numGpuBlocks)
      modifies this`gpuCache
      ensures Valid()
      ensures forall l, p :: 0 <= l < NUM_ATTENTION_LAYERS && 0 <= p < KV_PLANES ==>
        gpuCache[l][p] == SwapBlocks(cpuCache[l][p], old(gpuCache)[l][p], m.srcs, m.dsts)
      ensures forall l, p :: 0 <= l < 10 && 0 <= p < 2 ==>
        PlaneCopied(cpuCache[l][p], old(gpuCache)[l][p], m.srcs, m.dsts, gpuCache[l][p])
    {
      hide SwapBlocks, Below, Distinct, PlaneCopied;
      for l := 0 to |gpuCache|
        invariant Valid()
        invariant forall k :: l <= k < NUM_ATTENTION_LAYERS ==> gpuCache[k] == old(gpuCache)[k]
        invariant forall k, p :: 0 <= k < l && 0 <= p < KV_PLANES ==>
          gpuCache[k][p] == SwapBlocks(cpuCache[k][p], old(gpuCache)[k][p], m.srcs, m.dsts)
      {
        var keys := SwapBlocks(cpuCache[l][0], gpuCache[l][0], m.srcs, m.dsts);
        var values := SwapBlocks(cpuCache[l][1], gpuCache[l][1], m.srcs, m.dsts);
        gpuCache := gpuCache[l := [keys, values]];
      }
      forall l, p | 0 <= l < 10 && 0 <= p < 2
        ensures PlaneCopied(cpuCache[l][p], old(gpuCache)[l][p], m.srcs, m.dsts, gpuCache[l][p])
      {
        SwapBlocksAt(cpuCache[l][p], old(gpuCache)[l][p], m.srcs, m.dsts);
      }
    }
  }

  // ---------------------------------------------------------------------
  // Round trips and the order of a worker step
  // ---------------------------------------------------------------------

  function Inverse(m: Mapping): Mapping {
    Mapping(m.dsts, m.srcs)
  }

  /** Swapping out and later back in restores the swapped blocks, whatever has
      happened to the GPU cache in between, and touches no other block. */
  lemma RoundTrip<T>(pool: seq<Block<T>>, gpu: GpuCache<T>, later: GpuCache<T>, n: nat, m: Mapping, b: nat)
    requires BlocksShape(pool) && GpuShape(gpu, n) && GpuShape(later, n) && MappingShape(m, n, |pool|) && b < n
    ensures BlocksShape(CopyOut(pool, gpu, n, m)) && MappingShape(Inverse(m), |CopyOut(pool, gpu, n, m)|, n)
    ensures GpuBlock(CopyIn(later, n, CopyOut(pool, gpu, n, m), Inverse(m)), n, b)
            == if b in m.srcs then GpuBlock(gpu, n, b) else GpuBlock(later, n, b)
  {
    hide GpuShape, GpuBlock, PutGpuBlocks, PutRows;
    var out := CopyOut(pool, gpu, n, m);
    PutRowsShape(pool, m.dsts, GpuBlocks(gpu, n, m.srcs));
    CopyOutBlocks(pool, gpu, n, m);
    PutGpuAt(later, n, m.srcs, GetRows(out, m.dsts), b);
    if b in m.srcs {
      var r :| 0 <= r < |m.srcs| && m.srcs[r] == b;
      assert GetRows(out, m.dsts)[r] == out[m.dsts[r]];
    }
  }

  /** The victims of a step: the blocks swapped out, as they were before it. */
  ghost predicate VictimsKept<T>(pool: seq<Block<T>>, gpu: GpuCache<T>, n: nat, out: Mapping)
    requires GpuShape(gpu, n) && MappingShape(out, n, |pool|)
  {
    forall r :: 0 <= r < |out.dsts| ==> pool[out.dsts[r]] == GpuBlock(gpu, n, out.srcs[r])
  }

  /** A worker step with every device-to-host copy first; an absent or empty
      mapping is skipped, and a rejected one ends the step. */
  method OrderedStep<T>(cache: BlockMajorCpuKVCache<T>, out: seq<(int, int)>, into: seq<(int, int)>)
    returns (ro: Result<Mapping, MappingError>, ri: Result<Mapping, MappingError>)
    requires cache.Valid() && cache.stream == []
    modifies cache
    ensures cache.Valid() && cache.stream == []
    ensures ro.Ok? && |out| > 0 ==>
      MappingShape(ro.value, cache.numGpuBlocks, cache.numCpuBlocks)
      && ro.value.srcs == Firsts(out) && ro.value.dsts == Seconds(out)
      && cache.cpuPool == CopyOut(old(cache.cpuPool), old(cache.mem.gpu), cache.numGpuBlocks, ro.value)
      && VictimsKept(cache.cpuPool, old(cache.mem.gpu), cache.numGpuBlocks, ro.value)
      && CopiedOut(old(cache.cpuPool), old(cache.mem.gpu), cache.cpuPool, out)
    ensures ro.Err? || |out| == 0 ==> cache.cpuPool == old(cache.cpuPool)
    ensures ro.Ok? && ri.Ok? && |into| > 0 ==>
      MappingShape(ri.value, cache.numCpuBlocks, cache.numGpuBlocks)
      && ri.value.srcs == Firsts(into) && ri.value.dsts == Seconds(into)
      && cache.mem.gpu == CopyIn(old(cache.mem.gpu), cache.numGpuBlocks, cache.cpuPool, ri.value)
      && CopiedIn(old(cache.mem.gpu), cache.numGpuBlocks, cache.cpuPool, cache.mem.gpu, into)
    ensures ro.Err? || ri.Err? || |into| == 0 ==> cache.mem.gpu == old(cache.mem.gpu)
  {
    hide GpuShape, GpuBlock, CopyIn, CopyOut, Firsts, Seconds, Below, Distinct, CopiedOut, CopiedIn;
    ro, ri := Ok(Mapping([], [])), Ok(Mapping([], []));
    if |out| > 0 {
      ro := cache.SwapOut(out);
      if ro.Err? {
        return;
      }
      CopyOutBlocks(old(cache.cpuPool), old(cache.mem.gpu), cache.numGpuBlocks, ro.value);
    }
    if |into| > 0 {
      ri := cache.SwapIn(into);
    }
  }

  /** The pool after the opposite order, host-to-device copies first. */
  function PoolAfterInFirst<T>(pool: seq<Block<T>>, gpu: GpuCache<T>, n: nat, out: Mapping, into: Mapping): (r: seq<Block<T>>)
    requires BlocksShape(pool) && GpuShape(gpu, n) && MappingShape(out, n, |pool|) && MappingShape(into, |pool|, n)
    ensures |r| == |pool|
  {
    CopyOut(pool, CopyIn(gpu, n, pool, into), n, out)
  }

  ghost predicate InFirstKeepsVictims<T(!new)>(size: nat, n: nat, out: Mapping, into: Mapping)
    requires MappingShape(out, n, size) && MappingShape(into, size, n)
  {
    forall pool: seq<Block<T>>, gpu: GpuCache<T> ::
      |pool| == size && BlocksShape(pool) && GpuShape(gpu, n) ==> VictimsKept(PoolAfterInFirst(pool, gpu, n, out, into), gpu, n, out)
  }

  ghost predicate SlotReused(out: Mapping, into: Mapping) {
    exists b :: b in out.srcs && b in into.dsts
  }

  /** The order matters exactly when a victim's GPU block is refilled in the same
      step: then copying in first loses it for some contents. */
  lemma InFirstIffNoReuse<T(!new)>(size: nat, n: nat, out: Mapping, into: Mapping, x: T, y: T)
    requires MappingShape(out, n, size) && MappingShape(into, size, n) && x != y
    ensures InFirstKeepsVictims<T>(size, n, out, into) <==> !SlotReused(out, into)
  {
    hide GpuShape, BlocksShape, VictimsKept, PoolAfterInFirst;
    if SlotReused(out, into) {
      var b :| b in out.srcs && b in into.dsts;
      ReuseLosesVictim(size, n, out, into, b, x, y);
    } else {
      forall pool: seq<Block<T>>, gpu: GpuCache<T> | |pool| == size && BlocksShape(pool) && GpuShape(gpu, n)
        ensures VictimsKept(PoolAfterInFirst(pool, gpu, n, out, into), gpu, n, out)
      {
        NoReuseKeeps(pool, gpu, n, out, into);
      }
    }
  }

  lemma NoReuseKeeps<T>(pool: seq<Block<T>>, gpu: GpuCache<T>, n: nat, out: Mapping, into: Mapping)
    requires BlocksShape(pool) && GpuShape(gpu, n) && MappingShape(out, n, |pool|) && MappingShape(into, |pool|, n)
    requires !SlotReused(out, into)
    ensures VictimsKept(PoolAfterInFirst(pool, gpu, n, out, into), gpu, n, out)
  {
    hide GpuShape, BlockShape, GpuBlock, PutRows, PutGpuBlocks;
    var mid := CopyIn(gpu, n, pool, into);
    CopyOutBlocks(pool, mid, n, out);
    forall r | 0 <= r < |out.dsts| ensures GpuBlock(mid, n, out.srcs[r]) == GpuBlock(gpu, n, out.srcs[r]) {
      assert out.srcs[r] in out.srcs;
      PutGpuAt(gpu, n, into.dsts, GetRows(pool, into.srcs), out.srcs[r]);
    }
  }

  function Constant<T>(n: nat, x: T): (g: GpuCache<T>)
    ensures GpuShape(g, n)
  {
    seq(NUM_ATTENTION_LAYERS, _ => seq(KV_PLANES, _ => seq(n, _ => x)))
  }

  lemma ReuseLosesVictim<T(!new)>(size: nat, n: nat, out: Mapping, into: Mapping, b: nat, x: T, y: T)
    requires MappingShape(out, n, size) && MappingShape(into, size, n) && x != y
    requires b in out.srcs && b in into.dsts
    ensures !InFirstKeepsVictims<T>(size, n, out, into)
  {
    hide GpuShape, PutRows, PutGpuBlocks, GpuBlock, Constant;
    var pool, gpu := seq(size, _ => ZeroBlock(x)), Constant(n, y);
    var r :| 0 <= r < |out.srcs| && out.srcs[r] == b;
    var s :| 0 <= s < |into.dsts| && into.dsts[s] == b;
    var mid := CopyIn(gpu, n, pool, into);
    PutGpuAt(gpu, n, into.dsts, GetRows(pool, into.srcs), b);
    assert GpuBlock(mid, n, b) == ZeroBlock(x);
    CopyOutBlocks(pool, mid, n, out);
    assert PoolAfterInFirst(pool, gpu, n, out, into)[out.dsts[r]] == ZeroBlock(x);
    ConstantBlock(n, b, x, y);
    assert !VictimsKept(PoolAfterInFirst(pool, gpu, n, out, into), gpu, n, out);
  }

  lemma ConstantBlock<T>(n: nat, b: nat, x: T, y: T)
    requires b < n && x != y
    ensures GpuBlock(Constant(n, y), n, b) != ZeroBlock(x)
  {
    assert GpuBlock(Constant(n, y), n, b)[0][0] == y;
    assert ZeroBlock(x)[0][0] == x;
  }
}
