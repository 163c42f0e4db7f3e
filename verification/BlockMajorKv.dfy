/** The block-major CPU pool for KV swapping (block_major_kv_cache.py). Copies go
    through two staging slots; kernels and copies are queued on one stream that
    runs on its own, in order, at any time until the host waits for it. */
module BlockMajorKv {
  import opened Outcome

  const NUM_ATTENTION_LAYERS: nat := 10
  const KV_PLANES: nat := 2
  const STAGING_BLOCKS: nat := 512
  const STAGING_BUFFER_COUNT: nat := 2

  /** One block of every layer and plane: block[layer][plane]. */
  type Block<T> = seq<seq<T>>
  /** The GPU's layer-major cache: gpu[layer][plane][block]. */
  type GpuCache<T> = seq<seq<seq<T>>>

  ghost predicate BlockShape<T>(b: Block<T>) {
    |b| == NUM_ATTENTION_LAYERS && forall l :: 0 <= l < |b| ==> |b[l]| == KV_PLANES
  }

  ghost predicate BlocksShape<T>(bs: seq<Block<T>>) {
    forall i :: 0 <= i < |bs| ==> BlockShape(bs[i])
  }

  ghost predicate GpuShape<T>(g: GpuCache<T>, n: nat) {
    && |g| == NUM_ATTENTION_LAYERS
    && (forall l :: 0 <= l < |g| ==> |g[l]| == KV_PLANES)
    && forall l, p :: 0 <= l < |g| && 0 <= p < |g[l]| ==> |g[l][p]| == n
  }

  /** Block b gathered from every layer and plane. */
  function GpuBlock<T>(g: GpuCache<T>, n: nat, b: nat): (r: Block<T>)
    requires GpuShape(g, n) && b < n
    ensures BlockShape(r)
  {
    seq(|g|, l requires 0 <= l < |g| => seq(|g[l]|, p requires 0 <= p < |g[l]| => g[l][p][b]))
  }

  function PutGpuBlock<T>(g: GpuCache<T>, n: nat, b: nat, x: Block<T>): (r: GpuCache<T>)
    requires GpuShape(g, n) && b < n && BlockShape(x)
    ensures GpuShape(r, n)
  {
    seq(|g|, l requires 0 <= l < |g| => seq(|g[l]|, p requires 0 <= p < |g[l]| => g[l][p][b := x[l][p]]))
  }

  predicate Below(ids: seq<nat>, n: nat) {
    forall i :: 0 <= i < |ids| ==> ids[i] < n
  }

  function GpuBlocks<T>(g: GpuCache<T>, n: nat, ids: seq<nat>): (r: seq<Block<T>>)
    requires GpuShape(g, n) && Below(ids, n)
    ensures |r| == |ids| && BlocksShape(r)
  {
    seq(|ids|, i requires 0 <= i < |ids| => GpuBlock(g, n, ids[i]))
  }

  function PutGpuBlocks<T>(g: GpuCache<T>, n: nat, ids: seq<nat>, rows: seq<Block<T>>): (r: GpuCache<T>)
    requires GpuShape(g, n) && Below(ids, n) && |rows| == |ids| && BlocksShape(rows)
    ensures GpuShape(r, n)
  {
    if |ids| == 0 then g
    else
      var k := |ids| - 1;
      PutGpuBlock(PutGpuBlocks(g, n, ids[..k], rows[..k]), n, ids[k], rows[k])
  }

  function PutRows<T>(pool: seq<T>, ids: seq<nat>, rows: seq<T>): (r: seq<T>)
    requires Below(ids, |pool|) && |rows| == |ids|
    ensures |r| == |pool|
  {
    if |ids| == 0 then pool
    else
      var k := |ids| - 1;
      PutRows(pool, ids[..k], rows[..k])[ids[k] := rows[k]]
  }

  function GetRows<T>(pool: seq<T>, ids: seq<nat>): (r: seq<T>)
    requires Below(ids, |pool|)
    ensures |r| == |ids|
  {
    seq(|ids|, i requires 0 <= i < |ids| => pool[ids[i]])
  }

  /** The plain block copies that the two pipelines must amount to. */
  function CopyOut<T>(pool: seq<Block<T>>, gpu: GpuCache<T>, n: nat, m: Mapping): (r: seq<Block<T>>)
    requires GpuShape(gpu, n) && MappingShape(m, n, |pool|)
    ensures |r| == |pool|
  {
    PutRows(pool, m.dsts, GpuBlocks(gpu, n, m.srcs))
  }

  function CopyIn<T>(gpu: GpuCache<T>, n: nat, pool: seq<Block<T>>, m: Mapping): (r: GpuCache<T>)
    requires GpuShape(gpu, n) && BlocksShape(pool) && MappingShape(m, |pool|, n)
    ensures GpuShape(r, n)
  {
    PutGpuBlocks(gpu, n, m.dsts, GetRows(pool, m.srcs))
  }

  // ---------------------------------------------------------------------
  // The stream
  // ---------------------------------------------------------------------

  /** Memory the stream works on. cpuStaging is pinned host memory, so the host
      touches it as well; error is the flag that the kernels raise. */
  datatype Memory<T> = Memory(gpu: GpuCache<T>, gpuStaging: seq<seq<Block<T>>>, cpuStaging: seq<seq<Block<T>>>,
                              error: bool)

  datatype Op =
    | Pack(ids: seq<nat>, slot: nat)
    | CopyDown(slot: nat, count: nat)
    | CopyUp(slot: nat, count: nat)
    | Scatter(ids: seq<nat>, slot: nat)
    | Record(slot: nat)

  ghost predicate StagingShape<T>(s: seq<seq<Block<T>>>) {
    && |s| == STAGING_BUFFER_COUNT
    && forall i :: 0 <= i < |s| ==> |s[i]| == STAGING_BLOCKS && BlocksShape(s[i])
  }

  ghost predicate MemShape<T>(m: Memory<T>, n: nat) {
    GpuShape(m.gpu, n) && StagingShape(m.gpuStaging) && StagingShape(m.cpuStaging)
  }

  ghost predicate OpShape(op: Op) {
    && op.slot < STAGING_BUFFER_COUNT
    && match op
       case Pack(ids, _) => |ids| <= STAGING_BLOCKS
       case CopyDown(_, count) => count <= STAGING_BLOCKS
       case CopyUp(_, count) => count <= STAGING_BLOCKS
       case Scatter(ids, _) => |ids| <= STAGING_BLOCKS
       case Record(_) => true
  }

  ghost predicate OpsShape(ops: seq<Op>) {
    forall i :: 0 <= i < |ops| ==> OpShape(ops[i])
  }

  /** The first rows of a staging slot replaced. */
  function Fill<T>(staging: seq<seq<Block<T>>>, slot: nat, rows: seq<Block<T>>): (r: seq<seq<Block<T>>>)
    requires StagingShape(staging) && slot < |staging| && |rows| <= STAGING_BLOCKS && BlocksShape(rows)
    ensures StagingShape(r)
    ensures r[slot][..|rows|] == rows && forall s :: 0 <= s < |r| && s != slot ==> r[s] == staging[s]
  {
    var filled := rows + staging[slot][|rows|..];
    assert BlocksShape(filled) by {
      forall i | 0 <= i < |filled| ensures BlockShape(filled[i]) {
        if i >= |rows| {
          assert filled[i] == staging[slot][i];
        }
      }
    }
    staging[slot := filled]
  }

  // The kernels skip ids outside the GPU cache.

  function PackRows<T>(g: GpuCache<T>, n: nat, ids: seq<nat>, staged: seq<Block<T>>): (rows: seq<Block<T>>)
    requires GpuShape(g, n) && |ids| <= |staged| && BlocksShape(staged)
    ensures |rows| == |ids| && BlocksShape(rows)
    ensures Below(ids, n) ==> rows == GpuBlocks(g, n, ids)
  {
    seq(|ids|, i requires 0 <= i < |ids| => if ids[i] < n then GpuBlock(g, n, ids[i]) else staged[i])
  }

  function ScatterRows<T>(g: GpuCache<T>, n: nat, ids: seq<nat>, rows: seq<Block<T>>): (r: GpuCache<T>)
    requires GpuShape(g, n) && |rows| == |ids| && BlocksShape(rows)
    ensures GpuShape(r, n)
    ensures Below(ids, n) ==> r == PutGpuBlocks(g, n, ids, rows)
  {
    if |ids| == 0 then g
    else
      var k := |ids| - 1;
      var before := ScatterRows(g, n, ids[..k], rows[..k]);
      if ids[k] < n then PutGpuBlock(before, n, ids[k], rows[k]) else before
  }

  /** What one stream operation does when it runs. */
  function Exec<T>(op: Op, m: Memory<T>, n: nat): (r: Memory<T>)
    requires OpShape(op) && MemShape(m, n)
    ensures MemShape(r, n)
  {
    match op
    case Pack(ids, slot) =>
      m.(gpuStaging := Fill(m.gpuStaging, slot, PackRows(m.gpu, n, ids, m.gpuStaging[slot])), error := m.error || !Below(ids, n))
    case CopyDown(slot, count) => m.(cpuStaging := Fill(m.cpuStaging, slot, m.gpuStaging[slot][..count]))
    case CopyUp(slot, count) => m.(gpuStaging := Fill(m.gpuStaging, slot, m.cpuStaging[slot][..count]))
    case Scatter(ids, slot) =>
      m.(gpu := ScatterRows(m.gpu, n, ids, m.gpuStaging[slot][..|ids|]), error := m.error || !Below(ids, n))
    case Record(_) => m
  }

  function ExecAll<T>(ops: seq<Op>, m: Memory<T>, n: nat): (r: Memory<T>)
    requires OpsShape(ops) && MemShape(m, n)
    ensures MemShape(r, n)
  {
    if |ops| == 0 then m else Exec(ops[|ops| - 1], ExecAll(ops[..|ops| - 1], m, n), n)
  }

  lemma {:induction false} ExecConcat<T>(a: seq<Op>, b: seq<Op>, m: Memory<T>, n: nat)
    requires OpsShape(a) && OpsShape(b) && MemShape(m, n)
    ensures OpsShape(a + b)
    ensures ExecAll(a + b, m, n) == ExecAll(b, ExecAll(a, m, n), n)
  {
    hide Exec, MemShape, OpShape;
    if |b| == 0 {
      assert a + b == a;
    } else {
      ExecConcat(a, b[..|b| - 1], m, n);
      assert (a + b)[..|a + b| - 1] == a + b[..|b| - 1];
    }
  }

  predicate Untouched(ops: seq<Op>, slot: nat) {
    forall i :: 0 <= i < |ops| ==> ops[i].slot != slot
  }

  /** The last operation queued on the slot, if any, is a record of its event. */
  ghost predicate Fenced(ops: seq<Op>, slot: nat) {
    if |ops| == 0 then true
    else
      var last := ops[|ops| - 1];
      last == Record(slot) || (last.slot != slot && Fenced(ops[..|ops| - 1], slot))
  }

  /** Host writes to a slot commute with queued operations on other slots. */
  lemma {:induction false} HostWriteCommutes<T>(ops: seq<Op>, m: Memory<T>, n: nat, slot: nat, rows: seq<Block<T>>)
    requires OpsShape(ops) && MemShape(m, n) && Untouched(ops, slot)
    requires slot < STAGING_BUFFER_COUNT && |rows| <= STAGING_BLOCKS && BlocksShape(rows)
    ensures var w := m.(cpuStaging := Fill(m.cpuStaging, slot, rows));
      && ExecAll(ops, m, n).cpuStaging[slot] == m.cpuStaging[slot]
      && ExecAll(ops, w, n) == ExecAll(ops, m, n).(cpuStaging := Fill(ExecAll(ops, m, n).cpuStaging, slot, rows))
  {
    if |ops| > 0 {
      var k := |ops| - 1;
      HostWriteCommutes(ops[..k], m, n, slot, rows);
      StepCommutes(ops[k], ExecAll(ops[..k], m, n), n, slot, rows);
    }
  }

  lemma StepCommutes<T>(op: Op, m: Memory<T>, n: nat, slot: nat, rows: seq<Block<T>>)
    requires OpShape(op) && MemShape(m, n) && op.slot != slot
    requires slot < STAGING_BUFFER_COUNT && |rows| <= STAGING_BLOCKS && BlocksShape(rows)
    ensures var w := m.(cpuStaging := Fill(m.cpuStaging, slot, rows));
      && Exec(op, m, n).cpuStaging[slot] == m.cpuStaging[slot]
      && Exec(op, w, n) == Exec(op, m, n).(cpuStaging := Fill(Exec(op, m, n).cpuStaging, slot, rows))
  {
    hide PackRows, ScatterRows;
  }

  // ---------------------------------------------------------------------
  // Block mappings
  // ---------------------------------------------------------------------

  datatype MappingError =
    | LimitsNotPositive
    | SourceOutOfRange(row: nat)
    | DestinationOutOfRange(row: nat)
    | DuplicateSource(row: nat)
    | DuplicateDestination(row: nat)

  /** A validated mapping: row i copies block srcs[i] to block dsts[i]. */
  datatype Mapping = Mapping(srcs: seq<nat>, dsts: seq<nat>)

  ghost predicate Distinct(s: seq<int>) {
    forall i, j :: 0 <= i < j < |s| ==> s[i] != s[j]
  }

  ghost predicate MappingShape(m: Mapping, srcLimit: nat, dstLimit: nat) {
    && |m.srcs| == |m.dsts| && Below(m.srcs, srcLimit) && Below(m.dsts, dstLimit)
    && Distinct(m.srcs) && Distinct(m.dsts)
  }

  function Firsts(pairs: seq<(int, int)>): (r: seq<int>)
    ensures |r| == |pairs|
  {
    seq(|pairs|, i requires 0 <= i < |pairs| => pairs[i].0)
  }

  function Seconds(pairs: seq<(int, int)>): (r: seq<int>)
    ensures |r| == |pairs|
  {
    seq(|pairs|, i requires 0 <= i < |pairs| => pairs[i].1)
  }

  ghost predicate PairsValid(pairs: seq<(int, int)>, srcLimit: int, dstLimit: int) {
    && (forall i :: 0 <= i < |pairs| ==> 0 <= pairs[i].0 < srcLimit && 0 <= pairs[i].1 < dstLimit)
    && Distinct(Firsts(pairs)) && Distinct(Seconds(pairs))
  }

  /** Why row `row` is the first to be rejected. */
  ghost predicate FirstFault(pairs: seq<(int, int)>, srcLimit: int, dstLimit: int, row: nat, e: MappingError)
    requires row < |pairs|
  {
    var s, d := pairs[row].0, pairs[row].1;
    && PairsValid(pairs[..row], srcLimit, dstLimit)
    && match e
       case LimitsNotPositive => false
       case SourceOutOfRange(_) => !(0 <= s < srcLimit)
       case DestinationOutOfRange(_) => 0 <= s < srcLimit && !(0 <= d < dstLimit)
       case DuplicateSource(_) => 0 <= s < srcLimit && 0 <= d < dstLimit && s in Firsts(pairs[..row])
       case DuplicateDestination(_) =>
         0 <= s < srcLimit && 0 <= d < dstLimit && s !in Firsts(pairs[..row]) && d in Seconds(pairs[..row])
  }

  method ValidateBlockMapping(pairs: seq<(int, int)>, srcLimit: int, dstLimit: int) returns (r: Result<Mapping, MappingError>)
    ensures r.Ok? <==> srcLimit > 0 && dstLimit > 0 && PairsValid(pairs, srcLimit, dstLimit)
    ensures r.Ok? ==> MappingShape(r.value, srcLimit, dstLimit)
    ensures r.Ok? ==> r.value.srcs == Firsts(pairs) && r.value.dsts == Seconds(pairs)
    ensures r == Err(LimitsNotPositive) <==> srcLimit <= 0 || dstLimit <= 0
    ensures r.Err? && !r.error.LimitsNotPositive? ==>
      r.error.row < |pairs| && FirstFault(pairs, srcLimit, dstLimit, r.error.row, r.error)
  {
    if srcLimit <= 0 || dstLimit <= 0 {
      return Err(LimitsNotPositive);
    }
    var sources: set<int>, destinations: set<int> := {}, {};
    for row := 0 to |pairs|
      invariant PairsValid(pairs[..row], srcLimit, dstLimit)
      invariant forall x :: x in sources <==> x in Firsts(pairs[..row])
      invariant forall x :: x in destinations <==> x in Seconds(pairs[..row])
    {
      var (source, destination) := pairs[row];
      NextRow(pairs, srcLimit, dstLimit, row);
      if !(0 <= source < srcLimit) {
        return Err(SourceOutOfRange(row));
      }
      if !(0 <= destination < dstLimit) {
        return Err(DestinationOutOfRange(row));
      }
      if source in sources {
        return Err(DuplicateSource(row));
      }
      if destination in destinations {
        return Err(DuplicateDestination(row));
      }
      sources, destinations := sources + {source}, destinations + {destination};
    }
    assert pairs[..|pairs|] == pairs;
    var srcs: seq<nat> := seq(|pairs|, i requires 0 <= i < |pairs| => pairs[i].0);
    var dsts: seq<nat> := seq(|pairs|, i requires 0 <= i < |pairs| => pairs[i].1);
    assert srcs == Firsts(pairs) && dsts == Seconds(pairs);
    return Ok(Mapping(srcs, dsts));
  }

  lemma NextRow(pairs: seq<(int, int)>, srcLimit: int, dstLimit: int, row: nat)
    requires row < |pairs| && PairsValid(pairs[..row], srcLimit, dstLimit)
    ensures Firsts(pairs[..row + 1]) == Firsts(pairs[..row]) + [pairs[row].0]
    ensures Seconds(pairs[..row + 1]) == Seconds(pairs[..row]) + [pairs[row].1]
    ensures PairsValid(pairs[..row + 1], srcLimit, dstLimit) <==>
      && 0 <= pairs[row].0 < srcLimit && 0 <= pairs[row].1 < dstLimit
      && pairs[row].0 !in Firsts(pairs[..row]) && pairs[row].1 !in Seconds(pairs[..row])
    ensures !PairsValid(pairs[..row + 1], srcLimit, dstLimit) ==> !PairsValid(pairs, srcLimit, dstLimit)
  {
    DistinctNext(Firsts(pairs[..row]), pairs[row].0);
    DistinctNext(Seconds(pairs[..row]), pairs[row].1);
    assert pairs[..row + 1] == pairs[..row] + [pairs[row]];
    assert Firsts(pairs[..row + 1]) == Firsts(pairs[..row]) + [pairs[row].0];
    assert Seconds(pairs[..row + 1]) == Seconds(pairs[..row]) + [pairs[row].1];
    if PairsValid(pairs, srcLimit, dstLimit) {
      assert Firsts(pairs)[..row + 1] == Firsts(pairs[..row + 1]);
      assert Seconds(pairs)[..row + 1] == Seconds(pairs[..row + 1]);
      DistinctPrefix(Firsts(pairs), row + 1);
      DistinctPrefix(Seconds(pairs), row + 1);
    }
  }

  lemma DistinctNext(s: seq<int>, x: int)
    requires Distinct(s)
    ensures Distinct(s + [x]) <==> x !in s
  {
    if x in s {
      var i :| 0 <= i < |s| && s[i] == x;
      assert (s + [x])[i] == (s + [x])[|s|];
    }
  }

  lemma DistinctPrefix(s: seq<int>, n: nat)
    requires Distinct(s) && n <= |s|
    ensures Distinct(s[..n])
  {
  }

  // ---------------------------------------------------------------------
  // The cache
  // ---------------------------------------------------------------------

  datatype InitError = WrongLayerCount | InconsistentGeometry(layer: nat) | CpuBlocksNotPositive | NotPinned

  predicate LayerFits<T>(layer: seq<seq<T>>, n: nat) {
    |layer| == KV_PLANES && forall p :: 0 <= p < |layer| ==> |layer[p]| == n
  }

  predicate FitAll<T>(g: GpuCache<T>, k: nat, n: nat)
    requires k <= |g|
  {
    forall l :: 0 <= l < k ==> LayerFits(g[l], n)
  }

  /** The first k layers have two planes each and one number of blocks. */
  ghost predicate LayersFit<T>(g: GpuCache<T>, k: nat)
    requires k <= |g|
  {
    exists n: nat :: FitAll(g, k, n)
  }

  /** Ten layers of two planes; the first one sets the number of blocks. */
  method ValidateGpuCache<T>(gpu: GpuCache<T>) returns (r: Result<nat, InitError>)
    ensures r.Ok? <==> exists n: nat :: GpuShape(gpu, n)
    ensures r.Ok? ==> GpuShape(gpu, r.value)
    ensures r == Err(WrongLayerCount) <==> |gpu| != NUM_ATTENTION_LAYERS
    ensures r.Err? ==> match r.error
      case WrongLayerCount => true
      case InconsistentGeometry(layer) => layer < |gpu| && LayersFit(gpu, layer) && !LayersFit(gpu, layer + 1)
      case _ => false
  {
    if |gpu| != NUM_ATTENTION_LAYERS {
      return Err(WrongLayerCount);
    }
    var blocks: nat := if |gpu[0]| == 0 then 0 else |gpu[0][0]|;
    for layer := 0 to |gpu|
      invariant FitAll(gpu, layer, blocks)
    {
      if !LayerFits(gpu[layer], blocks) {
        forall n: nat ensures !FitAll(gpu, layer + 1, n) && !GpuShape(gpu, n) {
          OddLayer(gpu, layer, blocks, n);
          ShapeFits(gpu, layer + 1, n);
        }
        return Err(InconsistentGeometry(layer));
      }
    }
    ShapeFits(gpu, |gpu|, blocks);
    return Ok(blocks);
  }

  lemma OddLayer<T>(gpu: GpuCache<T>, layer: nat, blocks: nat, n: nat)
    requires layer < |gpu| == NUM_ATTENTION_LAYERS && !LayerFits(gpu[layer], blocks)
    requires blocks == if |gpu[0]| == 0 then 0 else |gpu[0][0]|
    ensures !FitAll(gpu, layer + 1, n)
  {
    var first, odd := LayerFits(gpu[0], n), LayerFits(gpu[layer], n);
    assert first && odd ==> n == blocks;
  }

  lemma ShapeFits<T>(gpu: GpuCache<T>, k: nat, n: nat)
    requires k <= |gpu| == NUM_ATTENTION_LAYERS
    ensures GpuShape(gpu, n) ==> FitAll(gpu, k, n)
    ensures FitAll(gpu, |gpu|, n) ==> GpuShape(gpu, n)
  {
    forall l: nat | FitAll(gpu, |gpu|, n) && l < |gpu|
      ensures |gpu[l]| == KV_PLANES && forall p :: 0 <= p < |gpu[l]| ==> |gpu[l][p]| == n
    {
      assert LayerFits(gpu[l], n);
    }
  }

  class BlockMajorCpuKVCache<T> {
    var mem: Memory<T>
    var cpuPool: seq<Block<T>>
    var stream: seq<Op>
    const numGpuBlocks: nat
    const numCpuBlocks: nat

    ghost predicate Valid()
      reads this
    {
      && MemShape(mem, numGpuBlocks) && OpsShape(stream)
      && |cpuPool| == numCpuBlocks && BlocksShape(cpuPool)
      && forall s :: 0 <= s < STAGING_BUFFER_COUNT ==> Fenced(stream, s)
    }

    /** The memory once everything queued so far has run. */
    ghost function Eventual(): (m: Memory<T>)
      requires MemShape(mem, numGpuBlocks) && OpsShape(stream)
      reads this
      ensures MemShape(m, numGpuBlocks)
    {
      ExecAll(stream, mem, numGpuBlocks)
    }

    /** The staging slots hold whatever their memory held. */
    constructor (gpu: GpuCache<T>, numGpuBlocks: nat, numCpuBlocks: nat, gpuStaging: seq<seq<Block<T>>>,
                 cpuStaging: seq<seq<Block<T>>>, zero: T)
      requires GpuShape(gpu, numGpuBlocks) && StagingShape(gpuStaging) && StagingShape(cpuStaging)
      ensures Valid() && stream == [] && mem == Memory(gpu, gpuStaging, cpuStaging, false)
      ensures this.numGpuBlocks == numGpuBlocks && this.numCpuBlocks == numCpuBlocks
      ensures forall b :: 0 <= b < numCpuBlocks ==> cpuPool[b] == ZeroBlock(zero)
    {
      this.numGpuBlocks, this.numCpuBlocks := numGpuBlocks, numCpuBlocks;
      mem := Memory(gpu, gpuStaging, cpuStaging, false);
      cpuPool := seq(numCpuBlocks, _ => ZeroBlock(zero));
      stream := [];
    }

    /** The checks that come before anything is allocated. */
    static method Create(gpu: GpuCache<T>, numCpuBlocks: int, pinMemory: bool, gpuStaging: seq<seq<Block<T>>>,
                         cpuStaging: seq<seq<Block<T>>>, zero: T) returns (r: Result<BlockMajorCpuKVCache<T>, InitError>)
      requires StagingShape(gpuStaging) && StagingShape(cpuStaging)
      ensures r.Ok? <==> (exists n: nat :: GpuShape(gpu, n)) && numCpuBlocks > 0 && pinMemory
      ensures r == Err(CpuBlocksNotPositive) <==> (exists n: nat :: GpuShape(gpu, n)) && numCpuBlocks <= 0
      ensures r == Err(NotPinned) <==> (exists n: nat :: GpuShape(gpu, n)) && numCpuBlocks > 0 && !pinMemory
      ensures r.Ok? ==> fresh(r.value) && r.value.Valid() && r.value.stream == []
      ensures r.Ok? ==> r.value.mem == Memory(gpu, gpuStaging, cpuStaging, false) && GpuShape(gpu, r.value.numGpuBlocks)
      ensures r.Ok? ==> r.value.cpuPool == seq(numCpuBlocks, _ => ZeroBlock(zero))
      ensures r.Ok? ==> |r.value.mem.cpuStaging| == |r.value.mem.gpuStaging| == 2
      ensures r.Ok? ==> forall s :: 0 <= s < 2 ==> |r.value.mem.cpuStaging[s]| == |r.value.mem.gpuStaging[s]| == 512
    {
      var blocks := ValidateGpuCache(gpu);
      if blocks.Err? {
        return Err(blocks.error);
      }
      if numCpuBlocks <= 0 {
        return Err(CpuBlocksNotPositive);
      }
      if !pinMemory {
        return Err(NotPinned);
      }
      var cache := new BlockMajorCpuKVCache(gpu, blocks.value, numCpuBlocks, gpuStaging, cpuStaging, zero);
      return Ok(cache);
    }

    /** The stream may run any number of its queued operations at any point. */
    method Advance()
      requires MemShape(mem, numGpuBlocks) && OpsShape(stream)
      modifies this`mem, this`stream
      ensures MemShape(mem, numGpuBlocks) && OpsShape(stream)
      ensures Eventual() == old(Eventual())
      ensures exists k :: 0 <= k <= |old(stream)| && stream == old(stream)[k..]
    {
      var k :| 0 <= k <= |stream|;
      RunFirst(k);
    }

    /** The first k queued operations run. */
    method RunFirst(k: nat)
      requires MemShape(mem, numGpuBlocks) && OpsShape(stream) && k <= |stream|
      modifies this`mem, this`stream
      ensures MemShape(mem, numGpuBlocks) && OpsShape(stream)
      ensures Eventual() == old(Eventual()) && stream == old(stream)[k..]
    {
      hide Exec;
      ExecConcat(stream[..k], stream[k..], mem, numGpuBlocks);
      assert stream[..k] + stream[k..] == stream;
      mem := ExecAll(stream[..k], mem, numGpuBlocks);
      stream := stream[k..];
    }

    /** A kernel launch or an asynchronous copy: queued, and possibly run. */
    method Enqueue(op: Op)
      requires MemShape(mem, numGpuBlocks) && OpsShape(stream) && OpShape(op)
      modifies this`mem, this`stream
      ensures MemShape(mem, numGpuBlocks) && OpsShape(stream)
      ensures Eventual() == Exec(op, old(Eventual()), numGpuBlocks)
      ensures forall s :: (op == Record(s) || (op.slot != s && Fenced(old(stream), s))) ==> Fenced(stream, s)
      ensures forall s :: op.slot != s && Untouched(old(stream), s) ==> Untouched(stream, s)
    {
      hide Exec, ExecAll, MemShape, OpShape, Untouched;
      ExecConcat(stream, [op], mem, numGpuBlocks);
      ExecOne(op, Eventual(), numGpuBlocks);
      ghost var s0 := stream;
      stream := stream + [op];
      ghost var s1 := stream;
      Advance();
      forall s | op == Record(s) || (op.slot != s && Fenced(s0, s)) ensures Fenced(stream, s) {
        assert s1[..|s0|] == s0;
        FencedAfterRun(s1, s, stream);
      }
      forall s | op.slot != s && Untouched(s0, s) ensures Untouched(stream, s) {
        UntouchedAfterRun(s0, op, s, stream);
      }
    }

    /** Waiting for a slot's event: everything up to its latest record has run. */
    method Synchronize(slot: nat)
      requires MemShape(mem, numGpuBlocks) && OpsShape(stream)
      requires slot < STAGING_BUFFER_COUNT && Fenced(stream, slot)
      modifies this`mem, this`stream
      ensures MemShape(mem, numGpuBlocks) && OpsShape(stream)
      ensures Eventual() == old(Eventual()) && Untouched(stream, slot)
      ensures forall s :: Fenced(old(stream), s) ==> Fenced(stream, s)
    {
      hide ExecAll, MemShape, OpShape, Fenced;
      var k :| 0 <= k <= |stream| && Record(slot) !in stream[k..];
      forall s | Fenced(stream, s) ensures Fenced(stream[k..], s) {
        FencedSuffix(stream, s, k);
      }
      FencedUntouched(stream[k..], slot);
      RunFirst(k);
    }

    /** cpu_scatter: staged rows go to their blocks of the pool. Nothing queued
        may still touch the slot it reads. */
    method CpuScatter(slot: nat, ids: seq<nat>)
      requires MemShape(mem, numGpuBlocks) && OpsShape(stream)
      requires slot < STAGING_BUFFER_COUNT && |ids| <= STAGING_BLOCKS && Below(ids, |cpuPool|)
      requires Untouched(stream, slot)
      modifies this`cpuPool
      ensures cpuPool == PutRows(old(cpuPool), ids, Eventual().cpuStaging[slot][..|ids|])
    {
      hide Exec, PutRows;
      HostWriteCommutes(stream, mem, numGpuBlocks, slot, []);
      cpuPool := PutRows(cpuPool, ids, mem.cpuStaging[slot][..|ids|]);
    }

    /** cpu_gather: blocks of the pool go to a staging slot, which nothing queued
        may still touch. */
    method CpuGather(ids: seq<nat>, slot: nat)
      requires MemShape(mem, numGpuBlocks) && OpsShape(stream)
      requires slot < STAGING_BUFFER_COUNT && |ids| <= STAGING_BLOCKS && Below(ids, |cpuPool|) && BlocksShape(cpuPool)
      requires Untouched(stream, slot)
      modifies this`mem
      ensures MemShape(mem, numGpuBlocks)
      ensures Eventual() == old(Eventual().(cpuStaging := Fill(Eventual().cpuStaging, slot, GetRows(cpuPool, ids))))
    {
      hide Exec, Fill;
      var rows := GetRows(cpuPool, ids);
      HostWriteCommutes(stream, mem, numGpuBlocks, slot, rows);
      mem := mem.(cpuStaging := Fill(mem.cpuStaging, slot, rows));
    }

    /** check_error waits for the whole stream, then looks at the flag. */
    method CheckError() returns (ok: bool)
      requires MemShape(mem, numGpuBlocks) && OpsShape(stream)
      modifies this`mem, this`stream
      ensures MemShape(mem, numGpuBlocks) && stream == [] && mem == old(Eventual())
      ensures ok <==> !mem.error
    {
      hide Exec;
      mem := ExecAll(stream, mem, numGpuBlocks);
      stream := [];
      ok := !mem.error;
    }

    /** Clears the flag; nothing is queued between calls. */
    method Begin()
      requires Valid() && stream == []
      modifies this`mem
      ensures Valid() && mem == old(mem).(error := false)
    {
      mem := mem.(error := false);
    }

    /** One chunk on its way down: packed on the GPU, copied to the host slot,
        the slot's event recorded. */
    method StageDown(ids: seq<nat>, slot: nat)
      requires Valid() && slot < STAGING_BUFFER_COUNT && |ids| <= STAGING_BLOCKS && Below(ids, numGpuBlocks)
      modifies this`mem, this`stream
      ensures Valid()
      ensures Eventual().gpu == old(Eventual().gpu) && Eventual().error == old(Eventual().error)
      ensures Eventual().cpuStaging[slot][..|ids|] == GpuBlocks(old(Eventual().gpu), numGpuBlocks, ids)
      ensures forall s :: 0 <= s < STAGING_BUFFER_COUNT && s != slot ==>
        Eventual().cpuStaging[s] == old(Eventual().cpuStaging[s])
    {
      hide Exec, Fill, GpuBlocks, ExecAll, MemShape, BlocksShape, Fenced;
      StagedDown(Eventual(), numGpuBlocks, ids, slot);
      Enqueue(Pack(ids, slot));
      Enqueue(CopyDown(slot, |ids|));
      Enqueue(Record(slot));
    }

    /** Wait for a staged chunk and scatter it into the pool. */
    method ScatterPending(slot: nat, ids: seq<nat>)
      requires Valid() && slot < STAGING_BUFFER_COUNT && |ids| <= STAGING_BLOCKS && Below(ids, numCpuBlocks)
      modifies this`mem, this`stream, this`cpuPool
      ensures Valid()
      ensures Eventual() == old(Eventual())
      ensures cpuPool == PutRows(old(cpuPool), ids, old(Eventual()).cpuStaging[slot][..|ids|])
    {
      hide ExecAll, PutRows, Fenced;
      Synchronize(slot);
      CpuScatter(slot, ids);
      PutRowsShape(old(cpuPool), ids, Eventual().cpuStaging[slot][..|ids|]);
    }

    /** Device to host: the mapped blocks reach the pool and nothing else
        changes, whenever the stream happens to run. */
    method SwapOut(pairs: seq<(int, int)>) returns (r: Result<Mapping, MappingError>)
      requires Valid() && stream == []
      modifies this
      ensures Valid() && stream == [] && mem.gpu == old(mem.gpu)
      ensures r.Ok? <==> numGpuBlocks > 0 && numCpuBlocks > 0 && PairsValid(pairs, numGpuBlocks, numCpuBlocks)
      ensures r.Err? ==> cpuPool == old(cpuPool)
      ensures r.Ok? ==> r.value.srcs == Firsts(pairs) && r.value.dsts == Seconds(pairs)
      ensures r.Ok? ==> MappingShape(r.value, numGpuBlocks, numCpuBlocks)
      ensures r.Ok? ==> cpuPool == CopyOut(old(cpuPool), old(mem.gpu), numGpuBlocks, r.value)
      ensures r.Ok? && |pairs| > 0 ==> !mem.error
      ensures r.Ok? ==> CopiedOut(old(cpuPool), old(mem.gpu), cpuPool, pairs)
    {
      hide PutRows, GpuBlocks, Fenced, Firsts, Seconds, CopiedOut;
      r := ValidateBlockMapping(pairs, numGpuBlocks, numCpuBlocks);
      if r.Err? {
        return;
      }
      if |r.value.srcs| == 0 {
        NoRows(cpuPool, r.value.dsts, GpuBlocks(mem.gpu, numGpuBlocks, r.value.srcs));
        CopyOutMeaning(cpuPool, mem.gpu, numGpuBlocks, r.value, pairs);
        return;
      }
      CopyOutMeaning(cpuPool, mem.gpu, numGpuBlocks, r.value, pairs);
      Begin();
      PipelineDown(r.value);
    }

    /** The chunk loop of swap_out. */
    method PipelineDown(m: Mapping)
      requires Valid() && stream == [] && MappingShape(m, numGpuBlocks, numCpuBlocks) && |m.srcs| > 0
      requires !mem.error
      modifies this
      ensures Valid() && stream == [] && mem.gpu == old(mem.gpu) && !mem.error
      ensures cpuPool == CopyOut(old(cpuPool), old(mem.gpu), numGpuBlocks, m)
    {
      hide PutRows, GpuBlocks, Fenced, GpuShape, BlockShape, Below, Distinct, RowsPut, ExecAll, OpShape, OpsShape, BlocksShape;
      var srcs, dsts, n := m.srcs, m.dsts, |m.srcs|;
      ghost var gpu, pool := mem.gpu, cpuPool;
      EmptyStream(mem, numGpuBlocks);
      var pending: (nat, seq<nat>) := (0, []);
      var start, index := 0, 0;
      ghost var from, upto := 0, 0;
      ghost var rows := GpuBlocks(gpu, numGpuBlocks, srcs);
      BelowSlices(dsts, numCpuBlocks, 0, 0);
      NoRowsPut(pool, dsts, rows);
      while start < n
        invariant Valid() && Eventual().gpu == gpu && !Eventual().error
        invariant upto == (if start < n then start else n) && from <= upto <= from + STAGING_BLOCKS
        invariant start == 0 ==> from == 0
        invariant start > 0 ==> index > 0 && from < upto && pending.0 == (index - 1) % STAGING_BUFFER_COUNT
        invariant pending.1 == dsts[from..upto] && Below(pending.1, numCpuBlocks)
        invariant start > 0 ==> Eventual().cpuStaging[pending.0][..upto - from] == rows[from..upto]
        invariant RowsPut(pool, dsts, rows, from, cpuPool)
        decreases n - start
      {
        var end := if start + STAGING_BLOCKS < n then start + STAGING_BLOCKS else n;
        var slot := index % STAGING_BUFFER_COUNT;
        BelowSlices(srcs, numGpuBlocks, start, end);
        BelowSlices(dsts, numCpuBlocks, start, end);
        StageDown(srcs[start..end], slot);
        GpuBlocksSlice(gpu, numGpuBlocks, srcs, start, end);
        if start > 0 {
          ChunkJoined(pool, dsts, rows, from, upto, cpuPool);
          ScatterPending(pending.0, pending.1);
        }
        pending := (slot, dsts[start..end]);
        from, upto := start, end;
        start, index := start + STAGING_BLOCKS, index + 1;
      }
      ChunkJoined(pool, dsts, rows, from, n, cpuPool);
      ScatterPending(pending.0, pending.1);
      AllRowsPut(pool, dsts, rows, cpuPool);
      var ok := CheckError();
      assert ok;
      EmptyFenced();
    }

    /** One chunk on its way up: copied to the GPU slot, scattered to its blocks,
        the slot's event recorded. */
    method StageUp(ids: seq<nat>, slot: nat)
      requires Valid() && slot < STAGING_BUFFER_COUNT && |ids| <= STAGING_BLOCKS && Below(ids, numGpuBlocks)
      modifies this`mem, this`stream
      ensures Valid()
      ensures BlocksShape(old(Eventual()).cpuStaging[slot][..|ids|])
      ensures Eventual().gpu == PutGpuBlocks(old(Eventual()).gpu, numGpuBlocks, ids, old(Eventual()).cpuStaging[slot][..|ids|])
      ensures Eventual().error == old(Eventual().error)
      ensures forall s :: s != slot && Untouched(old(stream), s) ==> Untouched(stream, s)
    {
      hide Exec, Fill, GpuBlocks, PutGpuBlocks, ExecAll, MemShape, BlockShape, Fenced, Untouched;
      StagedUp(Eventual(), numGpuBlocks, ids, slot);
      Enqueue(CopyUp(slot, |ids|));
      Enqueue(Scatter(ids, slot));
      Enqueue(Record(slot));
    }

    /** Refill a staging slot from the pool once nothing queued touches it. */
    method GatherInto(ids: seq<nat>, slot: nat)
      requires Valid() && slot < STAGING_BUFFER_COUNT && |ids| <= STAGING_BLOCKS && Below(ids, numCpuBlocks)
      requires Untouched(stream, slot)
      modifies this`mem
      ensures Valid()
      ensures Eventual().gpu == old(Eventual()).gpu && Eventual().error == old(Eventual().error)
      ensures Eventual().cpuStaging[slot][..|ids|] == GetRows(cpuPool, ids)
    {
      hide ExecAll, Fenced, Untouched;
      CpuGather(ids, slot);
    }

    /** The chunk loop of swap_in. The first chunks find their slots untouched;
        from then on the slot's previous chunk is waited for. */
    method PipelineUp(m: Mapping)
      requires Valid() && stream == [] && MappingShape(m, numCpuBlocks, numGpuBlocks)
      requires !mem.error
      modifies this`mem, this`stream
      ensures Valid() && stream == [] && !mem.error
      ensures mem.gpu == CopyIn(old(mem.gpu), numGpuBlocks, cpuPool, m)
    {
      hide PutGpuBlocks, Fenced, Untouched, GpuShape, BlockShape, ExecAll, OpShape, OpsShape;
      var srcs, dsts, n := m.srcs, m.dsts, |m.srcs|;
      ghost var gpu := mem.gpu;
      EmptyStream(mem, numGpuBlocks);
      var start, index := 0, 0;
      ghost var rows := GetRows(cpuPool, srcs);
      NoBlocksPut(gpu, numGpuBlocks, dsts[..0], rows[..0]);
      EmptyUntouched();
      ghost var done := 0;
      while start < n
        invariant Valid() && 0 <= done <= n && done == if start < n then start else n
        invariant forall s :: 0 <= index <= s < STAGING_BUFFER_COUNT ==> Untouched(stream, s)
        invariant index >= 0 && !Eventual().error
        invariant Eventual().gpu == PutGpuBlocks(gpu, numGpuBlocks, dsts[..done], rows[..done])
        decreases n - start
      {
        var end := if start + STAGING_BLOCKS < n then start + STAGING_BLOCKS else n;
        var slot := index % STAGING_BUFFER_COUNT;
        if index >= STAGING_BUFFER_COUNT {
          Synchronize(slot);
        }
        GatherInto(srcs[start..end], slot);
        assert GetRows(cpuPool, srcs[start..end]) == rows[start..end];
        StageUp(dsts[start..end], slot);
        ChunkJoinedUp(gpu, numGpuBlocks, dsts, rows, start, end);
        start, index, done := start + STAGING_BLOCKS, index + 1, end;
      }
      assert dsts[..n] == dsts && rows[..n] == rows;
      var ok := CheckError();
      assert ok;
      EmptyFenced();
    }

    /** Host to device: the mapped blocks reach the GPU and nothing else changes,
        whenever the stream happens to run. */
    method SwapIn(pairs: seq<(int, int)>) returns (r: Result<Mapping, MappingError>)
      requires Valid() && stream == []
      modifies this`mem, this`stream
      ensures Valid() && stream == []
      ensures r.Ok? <==> numCpuBlocks > 0 && numGpuBlocks > 0 && PairsValid(pairs, numCpuBlocks, numGpuBlocks)
      ensures r.Err? ==> mem == old(mem)
      ensures r.Ok? ==> r.value.srcs == Firsts(pairs) && r.value.dsts == Seconds(pairs)
      ensures r.Ok? ==> MappingShape(r.value, numCpuBlocks, numGpuBlocks)
      ensures r.Ok? ==> mem.gpu == CopyIn(old(mem.gpu), numGpuBlocks, cpuPool, r.value)
      ensures r.Ok? && |pairs| > 0 ==> !mem.error
      ensures r.Ok? ==> CopiedIn(old(mem.gpu), numGpuBlocks, cpuPool, mem.gpu, pairs)
    {
      hide PutGpuBlocks, GetRows, Fenced, Firsts, Seconds, CopiedIn;
      r := ValidateBlockMapping(pairs, numCpuBlocks, numGpuBlocks);
      if r.Err? {
        return;
      }
      if |r.value.srcs| == 0 {
        NoBlocksPut(mem.gpu, numGpuBlocks, r.value.dsts, GetRows(cpuPool, r.value.srcs));
        CopyInMeaning(mem.gpu, numGpuBlocks, cpuPool, r.value, pairs);
        return;
      }
      CopyInMeaning(mem.gpu, numGpuBlocks, cpuPool, r.value, pairs);
      Begin();
      PipelineUp(r.value);
    }
  }

  function ZeroBlock<T>(zero: T): (b: Block<T>)
    ensures BlockShape(b)
  {
    seq(NUM_ATTENTION_LAYERS, _ => seq(KV_PLANES, _ => zero))
  }

  lemma ExecOne<T>(op: Op, m: Memory<T>, n: nat)
    requires OpShape(op) && MemShape(m, n)
    ensures ExecAll([op], m, n) == Exec(op, m, n)
  {
    assert [op][..0] == [];
  }

  lemma {:induction false} FencedUntouched(ops: seq<Op>, slot: nat)
    requires Fenced(ops, slot) && Record(slot) !in ops
    ensures Untouched(ops, slot)
  {
    if |ops| > 0 {
      FencedUntouched(ops[..|ops| - 1], slot);
    }
  }

  lemma {:induction false} FencedSuffix(ops: seq<Op>, slot: nat, k: nat)
    requires k <= |ops| && Fenced(ops, slot)
    ensures Fenced(ops[k..], slot)
  {
    if k < |ops| && ops[|ops| - 1] != Record(slot) {
      FencedSuffix(ops[..|ops| - 1], slot, k);
      assert ops[k..][..|ops[k..]| - 1] == ops[..|ops| - 1][k..];
    }
  }

  /** After any number of queued operations have run, what was fenced still is. */
  lemma FencedAfterRun(ops: seq<Op>, slot: nat, now: seq<Op>)
    requires exists k :: 0 <= k <= |ops| && now == ops[k..]
    requires Fenced(ops, slot)
    ensures Fenced(now, slot)
  {
    var k :| 0 <= k <= |ops| && now == ops[k..];
    FencedSuffix(ops, slot, k);
  }

  /** Queueing an operation on another slot, and running some, leaves a slot alone. */
  lemma UntouchedAfterRun(ops: seq<Op>, op: Op, slot: nat, now: seq<Op>)
    requires exists k :: 0 <= k <= |ops| + 1 && now == (ops + [op])[k..]
    requires Untouched(ops, slot) && op.slot != slot
    ensures Untouched(now, slot)
  {
  }

  lemma EmptyStream<T>(m: Memory<T>, n: nat)
    requires MemShape(m, n)
    ensures ExecAll([], m, n) == m
  {
  }

  lemma EmptyFenced()
    ensures forall s :: Fenced([], s)
  {
  }

  lemma EmptyUntouched()
    ensures forall s :: Untouched([], s)
  {
  }

  lemma NoRows<T>(pool: seq<T>, ids: seq<nat>, rows: seq<T>)
    requires |ids| == |rows| == 0
    ensures PutRows(pool, ids, rows) == pool
  {
  }

  lemma {:induction false} PutRowsShape<T>(pool: seq<Block<T>>, ids: seq<nat>, rows: seq<Block<T>>)
    requires Below(ids, |pool|) && |rows| == |ids| && BlocksShape(pool) && BlocksShape(rows)
    ensures BlocksShape(PutRows(pool, ids, rows))
  {
    hide BlockShape;
    if |ids| > 0 {
      PutRowsShape(pool, ids[..|ids| - 1], rows[..|ids| - 1]);
    }
  }

  lemma {:induction false} PutRowsConcat<T>(pool: seq<T>, a: seq<nat>, ra: seq<T>, b: seq<nat>, rb: seq<T>)
    requires Below(a, |pool|) && Below(b, |pool|) && |ra| == |a| && |rb| == |b|
    ensures PutRows(PutRows(pool, a, ra), b, rb) == PutRows(pool, a + b, ra + rb)
  {
    if |b| == 0 {
      assert a + b == a && ra + rb == ra;
    } else {
      var k := |b| - 1;
      PutRowsConcat(pool, a, ra, b[..k], rb[..k]);
      assert (a + b)[..|a + b| - 1] == a + b[..k] && (ra + rb)[..|a + b| - 1] == ra + rb[..k];
    }
  }

  /** The pool now holds the first k rows in their blocks, and is otherwise as it was. */
  ghost predicate RowsPut<T>(pool: seq<T>, ids: seq<nat>, rows: seq<T>, k: nat, now: seq<T>) {
    && k <= |ids| == |rows|
    && Below(ids[..k], |pool|)
    && now == PutRows(pool, ids[..k], rows[..k])
  }

  lemma AllRowsPut<T>(pool: seq<T>, ids: seq<nat>, rows: seq<T>, now: seq<T>)
    requires RowsPut(pool, ids, rows, |ids|, now)
    ensures Below(ids, |pool|) && now == PutRows(pool, ids, rows)
  {
    hide PutRows, Below;
    assert ids[..|ids|] == ids && rows[..|ids|] == rows;
  }

  lemma NoRowsPut<T>(pool: seq<T>, ids: seq<nat>, rows: seq<T>)
    requires |ids| == |rows|
    ensures RowsPut(pool, ids, rows, 0, pool)
  {
  }

  /** Scattering one more chunk extends the copied prefix. */
  lemma ChunkJoined<T>(pool: seq<T>, ids: seq<nat>, rows: seq<T>, from: nat, to: nat, now: seq<T>)
    requires RowsPut(pool, ids, rows, from, now) && Below(ids, |pool|) && from <= to <= |ids|
    ensures Below(ids[from..to], |now|) && RowsPut(pool, ids, rows, to, PutRows(now, ids[from..to], rows[from..to]))
  {
    hide PutRows, Below;
    BelowSlices(ids, |pool|, from, to);
    Joined(ids, from, to);
    Joined(rows, from, to);
    PutRowsConcat(pool, ids[..from], rows[..from], ids[from..to], rows[from..to]);
  }

  lemma BelowSlices(ids: seq<nat>, n: nat, from: nat, to: nat)
    requires Below(ids, n) && from <= to <= |ids|
    ensures Below(ids[..from], n) && Below(ids[from..to], n) && Below(ids[..to], n)
  {
  }

  lemma Joined<T>(s: seq<T>, from: nat, to: nat)
    requires from <= to <= |s|
    ensures s[..to] == s[..from] + s[from..to]
  {
  }

  lemma GpuBlocksSlice<T>(gpu: GpuCache<T>, n: nat, ids: seq<nat>, from: nat, to: nat)
    requires GpuShape(gpu, n) && Below(ids, n) && from <= to <= |ids|
    ensures GpuBlocks(gpu, n, ids[from..to]) == GpuBlocks(gpu, n, ids)[from..to]
  {
    hide GpuBlock, GpuShape;
  }

  lemma NoBlocksPut<T>(gpu: GpuCache<T>, n: nat, ids: seq<nat>, rows: seq<Block<T>>)
    requires GpuShape(gpu, n) && |ids| == |rows| == 0
    ensures PutGpuBlocks(gpu, n, ids, rows) == gpu
  {
  }

  lemma {:induction false} PutGpuConcat<T>(gpu: GpuCache<T>, n: nat, a: seq<nat>, ra: seq<Block<T>>, b: seq<nat>, rb: seq<Block<T>>)
    requires GpuShape(gpu, n) && Below(a, n) && Below(b, n) && |ra| == |a| && |rb| == |b|
    requires BlocksShape(ra) && BlocksShape(rb)
    ensures PutGpuBlocks(PutGpuBlocks(gpu, n, a, ra), n, b, rb) == PutGpuBlocks(gpu, n, a + b, ra + rb)
  {
    hide GpuShape, BlockShape, PutGpuBlock;
    if |b| == 0 {
      assert a + b == a && ra + rb == ra;
    } else {
      var k := |b| - 1;
      PutGpuConcat(gpu, n, a, ra, b[..k], rb[..k]);
      assert (a + b)[..|a + b| - 1] == a + b[..k] && (ra + rb)[..|a + b| - 1] == ra + rb[..k];
    }
  }

  lemma ChunkJoinedUp<T>(gpu: GpuCache<T>, n: nat, ids: seq<nat>, rows: seq<Block<T>>, from: nat, to: nat)
    requires GpuShape(gpu, n) && BlocksShape(rows) && Below(ids, n) && |rows| == |ids| && from <= to <= |ids|
    ensures PutGpuBlocks(PutGpuBlocks(gpu, n, ids[..from], rows[..from]), n, ids[from..to], rows[from..to])
            == PutGpuBlocks(gpu, n, ids[..to], rows[..to])
  {
    hide PutGpuBlocks, GpuShape, BlockShape, Below;
    BelowSlices(ids, n, from, to);
    Joined(ids, from, to);
    Joined(rows, from, to);
    PutGpuConcat(gpu, n, ids[..from], rows[..from], ids[from..to], rows[from..to]);
  }

  lemma StagedUp<T>(m: Memory<T>, n: nat, ids: seq<nat>, slot: nat)
    requires MemShape(m, n) && slot < STAGING_BUFFER_COUNT && |ids| <= STAGING_BLOCKS && Below(ids, n)
    ensures BlocksShape(m.cpuStaging[slot][..|ids|])
    ensures var r := Exec(Record(slot), Exec(Scatter(ids, slot), Exec(CopyUp(slot, |ids|), m, n), n), n);
      r.gpu == PutGpuBlocks(m.gpu, n, ids, m.cpuStaging[slot][..|ids|]) && r.error == m.error
  {
    hide PutGpuBlocks, ScatterRows;
  }

  lemma StagedDown<T>(m: Memory<T>, n: nat, ids: seq<nat>, slot: nat)
    requires MemShape(m, n) && slot < STAGING_BUFFER_COUNT && |ids| <= STAGING_BLOCKS && Below(ids, n)
    ensures var r := Exec(Record(slot), Exec(CopyDown(slot, |ids|), Exec(Pack(ids, slot), m, n), n), n);
      && r.gpu == m.gpu && r.error == m.error
      && r.cpuStaging[slot][..|ids|] == GpuBlocks(m.gpu, n, ids)
      && forall s :: 0 <= s < STAGING_BUFFER_COUNT && s != slot ==> r.cpuStaging[s] == m.cpuStaging[s]
  {
    hide GpuBlocks, PackRows;
  }

  // ---------------------------------------------------------------------
  // What the copies mean, block by block
  // ---------------------------------------------------------------------

  lemma {:induction false} PutRowsAt<T>(pool: seq<T>, ids: seq<nat>, rows: seq<T>)
    requires Below(ids, |pool|) && |rows| == |ids| && Distinct(ids)
    ensures forall r :: 0 <= r < |ids| ==> PutRows(pool, ids, rows)[ids[r]] == rows[r]
    ensures forall b :: 0 <= b < |pool| && b !in ids ==> PutRows(pool, ids, rows)[b] == pool[b]
  {
    if |ids| > 0 {
      var k := |ids| - 1;
      PutRowsAt(pool, ids[..k], rows[..k]);
      var before := PutRows(pool, ids[..k], rows[..k]);
      forall r | 0 <= r < |ids| ensures PutRows(pool, ids, rows)[ids[r]] == rows[r] {
        if r < k {
          assert ids[..k][r] == ids[r] != ids[k];
          assert before[ids[r]] == rows[..k][r];
        }
      }
      forall b | 0 <= b < |pool| && b !in ids ensures PutRows(pool, ids, rows)[b] == pool[b] {
        assert b != ids[k] && b !in ids[..k];
      }
    }
  }

  /** Exactly the mapped blocks are copied out, the rest of the pool is kept. */
  lemma CopyOutBlocks<T>(pool: seq<Block<T>>, gpu: GpuCache<T>, n: nat, m: Mapping)
    requires GpuShape(gpu, n) && MappingShape(m, n, |pool|)
    ensures forall r :: 0 <= r < |m.dsts| ==> CopyOut(pool, gpu, n, m)[m.dsts[r]] == GpuBlock(gpu, n, m.srcs[r])
    ensures forall b :: 0 <= b < |pool| && b !in m.dsts ==> CopyOut(pool, gpu, n, m)[b] == pool[b]
  {
    hide GpuBlock, PutRows, GpuShape;
    PutRowsAt(pool, m.dsts, GpuBlocks(gpu, n, m.srcs));
  }

  lemma {:induction false} PutGpuAt<T>(gpu: GpuCache<T>, n: nat, ids: seq<nat>, rows: seq<Block<T>>, b: nat)
    requires GpuShape(gpu, n) && Below(ids, n) && |rows| == |ids| && BlocksShape(rows) && Distinct(ids) && b < n
    ensures b !in ids ==> GpuBlock(PutGpuBlocks(gpu, n, ids, rows), n, b) == GpuBlock(gpu, n, b)
    ensures forall r :: 0 <= r < |ids| && ids[r] == b ==> GpuBlock(PutGpuBlocks(gpu, n, ids, rows), n, b) == rows[r]
  {
    hide GpuShape, GpuBlock, PutGpuBlock;
    if |ids| > 0 {
      var k := |ids| - 1;
      PutGpuAt(gpu, n, ids[..k], rows[..k], b);
      PutOneAt(PutGpuBlocks(gpu, n, ids[..k], rows[..k]), n, ids[k], rows[k], b);
      forall r | 0 <= r < |ids| && ids[r] == b ensures GpuBlock(PutGpuBlocks(gpu, n, ids, rows), n, b) == rows[r] {
        if r < k {
          assert ids[..k][r] == b && rows[..k][r] == rows[r];
        }
      }
    }
  }

  lemma PutOneAt<T>(gpu: GpuCache<T>, n: nat, at: nat, x: Block<T>, b: nat)
    requires GpuShape(gpu, n) && at < n && b < n && BlockShape(x)
    ensures GpuBlock(PutGpuBlock(gpu, n, at, x), n, b) == if b == at then x else GpuBlock(gpu, n, b)
  {
    var g, r := PutGpuBlock(gpu, n, at, x), if b == at then x else GpuBlock(gpu, n, b);
    forall l | 0 <= l < NUM_ATTENTION_LAYERS ensures GpuBlock(g, n, b)[l] == r[l] {
      assert |x[l]| == KV_PLANES;
      forall p | 0 <= p < KV_PLANES ensures GpuBlock(g, n, b)[l][p] == r[l][p] {
      }
    }
  }

  /** The destination of a pair receives its source, in every layer and plane, and
      blocks that are no destination stay. */
  lemma CopyOutMeaning<T>(pool: seq<Block<T>>, gpu: GpuCache<T>, n: nat, m: Mapping, pairs: seq<(int, int)>)
    requires GpuShape(gpu, n) && BlocksShape(pool) && MappingShape(m, n, |pool|) && PairsValid(pairs, n, |pool|)
    requires m.srcs == Firsts(pairs) && m.dsts == Seconds(pairs)
    ensures BlocksShape(CopyOut(pool, gpu, n, m))
    ensures CopiedOut(pool, gpu, CopyOut(pool, gpu, n, m), pairs)
  {
    hide PutRows, Distinct;
    var out := CopyOut(pool, gpu, n, m);
    PutRowsShape(pool, m.dsts, GpuBlocks(gpu, n, m.srcs));
    CopyOutBlocks(pool, gpu, n, m);
    forall i, l, p | 0 <= i < |pairs| && 0 <= l < 10 && 0 <= p < 2
      ensures 0 <= pairs[i].0 < n && 0 <= pairs[i].1 < |pool|
      ensures |out[pairs[i].1]| == 10 && |out[pairs[i].1][l]| == 2
      ensures out[pairs[i].1][l][p] == gpu[l][p][pairs[i].0]
    {
      assert m.srcs[i] == pairs[i].0 && m.dsts[i] == pairs[i].1;
    }
    forall b: nat | b < |pool| && forall i :: 0 <= i < |pairs| ==> pairs[i].1 != b
      ensures out[b] == pool[b]
    {
      assert b !in m.dsts;
    }
  }

  /** after is pool with gpu's blocks copied to their partners. */
  ghost predicate CopiedOut<T>(pool: seq<Block<T>>, gpu: GpuCache<T>, after: seq<Block<T>>, pairs: seq<(int, int)>) {
    && |after| == |pool| && |gpu| == 10
    && (forall i, l, p :: 0 <= i < |pairs| && 0 <= l < 10 && 0 <= p < 2 ==>
          && |gpu[l]| == 2 && 0 <= pairs[i].0 < |gpu[l][p]|
          && 0 <= pairs[i].1 < |after| && |after[pairs[i].1]| == 10 && |after[pairs[i].1][l]| == 2
          && after[pairs[i].1][l][p] == gpu[l][p][pairs[i].0])
    && forall b: nat :: b < |pool| && (forall i :: 0 <= i < |pairs| ==> pairs[i].1 != b) ==> after[b] == pool[b]
  }

  lemma CopyInMeaning<T>(gpu: GpuCache<T>, n: nat, pool: seq<Block<T>>, m: Mapping, pairs: seq<(int, int)>)
    requires GpuShape(gpu, n) && BlocksShape(pool) && MappingShape(m, |pool|, n) && PairsValid(pairs, |pool|, n)
    requires m.srcs == Firsts(pairs) && m.dsts == Seconds(pairs)
    ensures CopiedIn(gpu, n, pool, CopyIn(gpu, n, pool, m), pairs)
  {
    hide PutGpuBlocks, Distinct;
    var after := CopyIn(gpu, n, pool, m);
    forall i, l, p | 0 <= i < |pairs| && 0 <= l < 10 && 0 <= p < 2
      ensures 0 <= pairs[i].0 < |pool| && 0 <= pairs[i].1 < n
      ensures |pool[pairs[i].0]| == 10 && |pool[pairs[i].0][l]| == 2
      ensures after[l][p][pairs[i].1] == pool[pairs[i].0][l][p]
    {
      assert m.srcs[i] == pairs[i].0 && m.dsts[i] == pairs[i].1;
      assert BlockShape(pool[pairs[i].0]);
      PutGpuAt(gpu, n, m.dsts, GetRows(pool, m.srcs), pairs[i].1);
      assert GpuBlock(after, n, pairs[i].1) == pool[pairs[i].0];
      assert GpuBlock(after, n, pairs[i].1)[l][p] == after[l][p][pairs[i].1];
    }
    forall b: nat, l, p | b < n && 0 <= l < 10 && 0 <= p < 2 && forall i :: 0 <= i < |pairs| ==> pairs[i].1 != b
      ensures after[l][p][b] == gpu[l][p][b]
    {
      assert b !in m.dsts;
      PutGpuAt(gpu, n, m.dsts, GetRows(pool, m.srcs), b);
      assert GpuBlock(after, n, b)[l][p] == after[l][p][b];
      assert GpuBlock(gpu, n, b)[l][p] == gpu[l][p][b];
    }
  }

  /** after is gpu with pool's blocks copied to their partners. */
  ghost predicate CopiedIn<T>(gpu: GpuCache<T>, n: nat, pool: seq<Block<T>>, after: GpuCache<T>, pairs: seq<(int, int)>) {
    && GpuShape(gpu, n) && GpuShape(after, n) && |after| == |gpu| == 10
    && (forall i, l, p :: 0 <= i < |pairs| && 0 <= l < 10 && 0 <= p < 2 ==>
          && 0 <= pairs[i].0 < |pool| && 0 <= pairs[i].1 < n
          && |pool[pairs[i].0]| == 10 && |pool[pairs[i].0][l]| == 2
          && after[l][p][pairs[i].1] == pool[pairs[i].0][l][p])
    && forall b: nat, l, p :: b < n && 0 <= l < 10 && 0 <= p < 2 && (forall i :: 0 <= i < |pairs| ==> pairs[i].1 != b) ==>
        after[l][p][b] == gpu[l][p][b]
  }
}
