# Serving kernels and schedulers of the BI100 runtime, verified

This project models the algorithmic core of an LLM-serving runtime and proves
that its fast or stateful forms do what their simple forms say.

- **Recurrent layers.** The chunked gated delta rule (padding, in-place triangular
  substitution, a state carried from chunk to chunk) is the token-by-token decode
  recurrence, for every length and chunk size (`GatedDelta`).
- **Attention.** The online softmax over context tiles and causally masked tiles,
  the segmentation of a prefill at the strict prefix boundary, the paged gather, the
  two-phase partitioned kernels and the batched block-diagonal fallback are compared
  with plain softmax attention over the visible tokens (`Softmax`, `PagedCache`,
  `PrefixAttention`, `PrefixRequests`, `PartitionedAttention`, `ReshapedPartitions`,
  `BatchedAttention`).
- **KV transfer.** The double-buffered block-major swap, whose stream operations may
  run at any time up to the next synchronisation, is a plain block copy and refines
  the per-layer copies of the cache engine (`BlockMajorKv`, `KvTransfer`).
- **State slots.** The Mamba/GDN slot allocator is a class over two arrays and a map,
  proved against a machine that only knows which sequence has which state
  (`MambaCache`).
- **Prefix states.** Which recurrent state is captured and which may be restored,
  where prefill steps are cut, which segments a resumed request runs, and the
  least-recently-used index (`GdnPrefix`, `GdnPrefill`, `GdnSegments`,
  `GdnStatePolicy`).
- **Mixture of experts.** Sorted dispatch with scatter-add is the per-token weighted
  sum, and the masked work of all expert-parallel ranks adds up to the unsharded
  output (`ExpertOrder`, `MoeDispatch`, `ExpertParallel`).
- **Workers.** The driver, worker and result-handler protocol as a state machine over
  its atomic steps, and what its runs do told by the steps alone (`WorkerProtocol`,
  `WorkerRuns`).

`dafny verify dfyconfig.toml` checks everything.

Conventions. Numbers are reals; `exp` is a parameter `E: real -> real` assumed only to
be positive and to turn sums into products (`ExpLaw`), and minus infinity is a separate
value of `Score`. Errors that the code raises are `Err` or `None` results. Methods that
write tensors in place use arrays or class fields; their specification functions carry
the theorems.

## Where the code and its promise differ

- `patch_xformers_sdpa_batch.py` documents a block-diagonal *causal* mask (lines 43-54),
  but line 80 fills each diagonal block with the lower triangle of an all-zero matrix,
  which is zero everywhere. Every token therefore also sees the later tokens of its own
  sequence. `BatchedAttention.AgreeIffSingletons`: the batched and the per-sequence
  fallback agree on all inputs exactly when no sequence is longer than one token, and
  `BatchedAttention.SuccessorIsSeen` gives inputs on which a longer sequence differs.
- `final_capture_key` in the `chunk64` and `aligned` modes can return a key that
  `restore_key_is_eligible` rejects, when the content hashes stop short inside an
  aligned region. `GdnPrefix.AlignedKeyIsLongest` gives the exact condition and
  `GdnPrefix.ShortHashesCaptureUnusableKey` an input.
- `canonical_direct_segment_offsets` for separate scheduler chunks gives the same
  boundaries as one call over the whole prompt for every block size of two or more,
  however many hashes are known. With blocks of one token it can lose a boundary.
  `GdnSegments.SeparateChunksAgree` is the exact condition and
  `GdnSegments.OneTokenBlocksDiffer` an input.
- `paged_attention_v2_triton` caps the merge at 1024 partitions (lines 321-323). The
  result is attention over the sequence for all inputs exactly when there are no more
  than that (`PartitionedAttention.ExactIffPartsFit`); beyond, it is attention over the
  first 1024 partitions (`PartitionedAttention.PagedAttentionV2`), and
  `PartitionedAttention.LastTokenIgnored` gives inputs on which the two differ.
- `paged_attention_v2_pytorch` stores each partition's weighted value without dividing it
  by the partition's sum (lines 264-288) and then weights it by that sum again (lines
  315-324). The output is softmax attention for all inputs exactly when the sequence
  fits one partition, where the code takes plain softmax
  (`ReshapedPartitions.ExactIffOnePartition`); `ReshapedPartitions.FlatOverweighted`
  gives inputs for every longer sequence.
- `_clean_up_first_bs_blocks` does nothing when the batch fills the whole cache
  (mamba_cache.py, lines 178-180). If a scheduled request finishes at once, a live
  sequence that does not run can then stay among the columns handed to the model, and
  its state is lost. `MambaCache.MambaCacheManager.CurrentRun` gives the exact
  condition and `MambaCache.FullBatchLosesState` a run.
- Copying in before copying out, the order that `patch_worker_cache_transfer_order.py`
  replaces, loses a victim exactly when its GPU block is refilled in the same step
  (`KvTransfer.InFirstIffNoReuse`).

## Model

| member | source | states |
|---|---|---|
| GatedDelta.ChunkGatedDeltaRule | verify_gdn_cpp.py:73-130 | for every length and chunk size, all outputs and the final state are those of decoding token by token |
| GatedDelta.RunChunk | verify_gdn_cpp.py:97-128 | one chunk's outputs and next state equal the recurrence over the chunk from the incoming state |
| GatedDelta.ForwardSubstitution | verify_gdn_cpp.py:97-104 | the in-place row loop followed by adding the identity yields T with (I - A) T = I |
| GatedDelta.SubstituteRow | verify_gdn_cpp.py:99-102 | row i becomes itself plus itself times the rows above it; every other entry stays as it was |
| GatedDelta.SystemMatrix | verify_gdn_cpp.py:92-97 | the matrix handed to the row loop is strictly lower and is the chunk's own linear system |
| GatedDelta.SolvedIsInverse | verify_gdn_cpp.py:97-104 | when every row has been solved in terms of the earlier ones, the matrix plus identity inverts I - A |
| GatedDelta.SolutionUnique | verify_gdn_cpp.py:97-104 | a unit lower-triangular system has at most one solution |
| GatedDelta.InverseSolves | verify_gdn_cpp.py:104-106 | multiplying by that inverse solves the system for any right-hand side |
| GatedDelta.DeltasSolve | verify_gdn_cpp.py:92-106 | the corrections the recurrence makes inside a chunk solve the chunk's linear system |
| GatedDelta.CorrectionsAreDeltas | verify_gdn_cpp.py:105-122 | the values computed with the inverse, less the part read from the carried state, are the recurrence's corrections |
| GatedDelta.ChannelForm | verify_single_card.py:248-251 | the state after a run of tokens is the decayed initial state plus every key weighted by its correction and its remaining decay |
| GatedDelta.MemoryDecays | verify_gdn_cpp.py:93-95 | measuring decays at a later point scales the whole memory by the decay in between |
| GatedDelta.ChunkOutCorrect | verify_gdn_cpp.py:117-124 | the output of row r of a chunk is the recurrence's output at that token |
| GatedDelta.ChunkStateCorrect | verify_gdn_cpp.py:125-128 | the carried state after a chunk is the recurrence's state after its last token |
| GatedDelta.PadTokenInert | verify_gdn_cpp.py:73-79 | a zero token with zero decay and beta leaves any state as it is |
| GatedDelta.PaddingInert | verify_gdn_cpp.py:73-79 | any number of padding tokens leaves the final state as it is |
| GatedDelta.RecurAppend | verify_single_card.py:248-252 | decoding a then b is decoding their concatenation |
| GatedDelta.DecodeMeaning | verify_single_card.py:248-252 | entry by entry, a decode step scales the state, adds the key times beta times what the decayed state got wrong about the value, and reads the new state with the query |
| Exponential.LawSatisfiable | verify_gdn_cpp.py:93-95 | the law assumed of exp can be met, so results that assume it are about some function |
| Softmax.MassShift | qwen3_6_scripts/paged_attn.py:2275-2278 | changing the reference maximum multiplies the weighted sum by one factor |
| Softmax.AttendFrom | qwen3_6_scripts/paged_attn.py:2273-2282 | softmax attention does not depend on the finite maximum subtracted |
| Softmax.AttendMasked | qwen3_6_scripts/paged_attn.py:2239-2240 | positions masked with minus infinity may be dropped |
| Softmax.UpdateSummarises | qwen3_6_scripts/paged_attn.py:2273-2282 | one update turns the running max, sum and output of the tokens seen so far into those of the tokens seen so far followed by the tile |
| Softmax.SummaryIsAttention | qwen3_6_scripts/paged_attn.py:2245 | dividing the running output by the running sum gives softmax attention over everything summarised |
| PagedCache.GatherReads | qwen3_6_scripts/paged_attn.py:2201-2216 | gathering whole blocks and slicing by offset reads exactly the cached tokens of the range |
| PagedCache.CacheGatherable | qwen3_6_scripts/paged_attn.py:2201-2204 | every range of cached tokens stays inside the block table and the cache |
| PagedCache.HoldsMeaning | qwen3_6_scripts/paged_attn.py:2201-2216 | token j of the cached prefix is entry j mod block size of the block that entry j div block size of the block table names |
| PrefixAttention.StrictPrefixQuerySegments | qwen3_6_scripts/paged_attn.py:1019-1033 | the segments are non-empty, follow each other and cover the query; there are two exactly when the strict prefix boundary lies beyond the context, and the second starts at it |
| PrefixAttention.StrictPrefix | qwen3_6_scripts/paged_attn.py:1028 | the boundary is the largest multiple of the block size strictly inside the request |
| PrefixAttention.PrefixContextTileSpans | qwen3_6_scripts/paged_attn.py:1225-1248 | negative lengths and empty tiles are rejected, otherwise the spans are the absolute-aligned tiles of cache and preceding query |
| PrefixAttention.SpansAreTiles | qwen3_6_scripts/paged_attn.py:1232-1247 | concatenating both ranges of every span gives the tiles of the logical context, whatever part of it is cached |
| PrefixAttention.ReadTilesAreLogical | qwen3_6_scripts/paged_attn.py:2196-2226 | the tiles read block by block through the table are the tiles of the logical context, given only that the cache holds its cached tokens |
| PrefixAttention.LoopTilesAreSegmentTiles | qwen3_6_scripts/paged_attn.py:2190-2243 | the tiles that both loops build from spans, gather and key slices are those of the tokens alone, whatever is cached and where |
| PrefixAttention.TilesAt | qwen3_6_scripts/paged_attn.py:1240-1247 | tile k of the context begins at the absolute position k times the tile size and is full unless it is the last |
| PrefixAttention.CurrentTilesAt | qwen3_6_scripts/paged_attn.py:2229-2230 | the same for the tiles of the segment's own keys, each with its position |
| PrefixAttention.FoldUnrolls | qwen3_6_scripts/paged_attn.py:2196-2243 | every tile is shown to the update once, in order |
| PrefixAttention.KernelIsAFold | qwen3_6_scripts/paged_attn.py:2173-2243 | the kernel's own update of all rows is one such update, and row r of its fold is the online row |
| PrefixAttention.OnlineRowSummarises | qwen3_6_scripts/paged_attn.py:2196-2243 | folding the update over tiles never subtracts minus infinity from itself when the first tile has a visible key, and the row then summarises all tiles |
| PrefixAttention.SegmentTilesConsume | qwen3_6_scripts/paged_attn.py:2196-2243 | the tiles of a segment present every context token and every key, causally masked, exactly once and in order |
| PrefixAttention.SegmentRowIsAttention | qwen3_6_scripts/paged_attn.py:2179-2245 | for every tile size, row r is causal softmax attention over the context and the segment's keys up to r |
| PrefixAttention.AttentionMeaning | qwen3_6_scripts/paged_attn.py:2239-2245 | attention times the sum of exp(scale q.k) over the visible tokens is the sum of exp(scale q.k) v, channel by channel, and the first sum is positive |
| PrefixAttention.SegmentRowMeaning | qwen3_6_scripts/paged_attn.py:2179-2245 | a finished row of a segment is that weighted mean of the values of the context and the keys up to its own, channel by channel |
| PrefixAttention.SegmentRowSum | qwen3_6_scripts/paged_attn.py:2245 | the final division is never by zero |
| PrefixAttention.ScaledScore | qwen3_6_scripts/paged_attn.py:2183 | scaling the query first scales the score |
| PrefixAttention.UpdateOnlineSoftmaxFromScores | qwen3_6_scripts/paged_attn.py:2265-2282 | in place, every row's max, sum and output become the updated ones |
| PrefixAttention.ApplyTile | qwen3_6_scripts/paged_attn.py:2227-2243 | applying one tile to all rows shows exactly that tile next and advances each row's fold by it |
| PrefixAttention.SpanKeys | qwen3_6_scripts/paged_attn.py:2199-2223 | the keys and values read for a span through the block table and from the query are its slice of the logical context |
| PrefixAttention.ContextPhase | qwen3_6_scripts/paged_attn.py:2196-2227 | the loop shows the update exactly the tiles that the spans read through the block table and the earlier query, in order, and every row has folded them |
| PrefixAttention.CurrentPhase | qwen3_6_scripts/paged_attn.py:2229-2243 | the second loop then shows exactly the segment's own key tiles, in order, and every row has folded them |
| PrefixAttention.ForwardPrefixSegment | qwen3_6_scripts/paged_attn.py:2179-2250 | fails exactly when the context needs more blocks than the table has; otherwise each output row is, channel by channel, the softmax-weighted mean of the values of the context and the keys up to its own, and the tiles shown to the update are those the two loops build |
| PrefixRequests.SegmentOf | qwen3_6_scripts/paged_attn.py:1019-1033 | every query position lies in exactly one segment of its request |
| PrefixRequests.WarmEqualsCold | qwen3_6_scripts/paged_attn.py:1911-1952 | for an arbitrary, uninterpreted update of the whole segment's accumulators, two runs of a request restored at any two depths, whose caches and block tables each hold its tokens up to there, leave identical accumulators for all rows from the strict boundary on |
| PrefixRequests.LastSegmentFed | qwen3_6_scripts/paged_attn.py:2190-2243 | the tiles shown for the segment after the strict boundary are those of the tokens before and after it, and no others, however many were cached |
| PrefixRequests.LastFromTokens | qwen3_6_scripts/paged_attn.py:2190-2243 | the accumulators that the loops leave for that segment are a fold over tiles that depend only on the tokens |
| PrefixRequests.RequestRowIsAttention | qwen3_6_scripts/paged_attn.py:1911-1952 | in exact arithmetic segmentation and tiling are invisible: each row is causal softmax attention over the whole request |
| PrefixRequests.RequestRowMeaning | qwen3_6_scripts/paged_attn.py:1911-1952 | row i is, channel by channel, the softmax-weighted mean of the values of the cached tokens and the query tokens up to i |
| PrefixRequests.WarmRowsEqualCold | qwen3_6_scripts/paged_attn.py:1911-1952 | with the kernel's own update, output rows from the strict boundary on are equal for any two restored depths |
| PrefixRequests.ForwardPrefix | qwen3_6_scripts/paged_attn.py:1911-1952 | the segment loop writes every row as the softmax-weighted mean of the values it may see, shows each segment the tiles its loops build, and fails exactly when the context does not fit the block table |
| PrefixRequests.ForwardSegment | qwen3_6_scripts/paged_attn.py:1915-1952 | one turn writes exactly its slice of the output |
| PartitionedAttention.StepNormalised | paged_attention_v2_triton.py:157-185 | one block of lanes keeps the accumulator equal to the normalised attention over the lanes seen, and the running sum is at least one |
| PartitionedAttention.LoadLanes | paged_attention_v2_triton.py:140-159 | the lanes read the cached tokens through the block table; lanes past the end score minus infinity |
| PartitionedAttention.ReducePartition | paged_attention_v2_triton.py:135-185 | the inner loop leaves the partition's maximum, sum and normalised output |
| PartitionedAttention.PartitionKernel | paged_attention_v2_triton.py:100-194 | a used partition stores its statistics, an unused one stores minus infinity and zero, other partitions stay as they were |
| PartitionedAttention.MergeTotal | paged_attention_v2_triton.py:240-251 | the global maximum is the sequence's and the rescaled total is its softmax denominator, at least one, so the guard changes nothing |
| PartitionedAttention.MergeStep | paged_attention_v2_triton.py:255-261 | adding one partition's weighted output extends the covered tokens by that partition |
| PartitionedAttention.ReduceKernel | paged_attention_v2_triton.py:227-266 | the merged output is softmax attention over the tokens of the partitions that fit the cap |
| PartitionedAttention.PagedAttentionV2 | paged_attention_v2_triton.py:289-337 | for every length of at least one, the output is the softmax-weighted mean of the values of the whole sequence if it has at most 1024 partitions' tokens, and of the first 1024 partitions' tokens beyond |
| PartitionedAttention.ExactIffPartsFit | paged_attention_v2_triton.py:321-323 | for every length n and partition size, the merged result is attention over the sequence for all queries and caches if and only if n is at most 1024 times the partition size |
| PartitionedAttention.LastTokenIgnored | paged_attention_v2_triton.py:321-323 | with more partitions, zero keys and the value 1 at the last token, attention over the sequence is positive and the merged result zero |
| ReshapedPartitions.ExactIffOnePartition | paged_attention_v2_pytorch.py:113-325 | for every length, the output is softmax attention for all queries and caches if and only if the sequence fits one partition |
| ReshapedPartitions.FlatOverweighted | paged_attention_v2_pytorch.py:264-325 | with more than one partition, equal scores and all values 1, attention is 1 and the merged output is greater |
| ReshapedPartitions.TotalPositive | paged_attention_v2_pytorch.py:310-324 | the merge never divides by zero |
| ReshapedPartitions.PartMaxFinite | paged_attention_v2_pytorch.py:219-235 | the padding never reaches a partition's maximum, so no exponential is undefined |
| PartitionedAttention.NextPowerOfTwo | paged_attention_v2_triton.py:321 | the least power of two that is at least the number of partitions |
| BatchedAttention.BuildMask | qwen3_6_scripts/patch_xformers_sdpa_batch.py:71-84 | the mask is zero for two tokens of the same sequence and minus infinity otherwise |
| BatchedAttention.FillBlock | qwen3_6_scripts/patch_xformers_sdpa_batch.py:79-84 | one iteration fills its diagonal block and nothing else |
| BatchedAttention.TrilOfZeros | qwen3_6_scripts/patch_xformers_sdpa_batch.py:80-83 | the lower triangle of an all-zero matrix is zero above the diagonal too |
| BatchedAttention.BatchRowIsOwnSequence | qwen3_6_scripts/patch_xformers_sdpa_batch.py:97-104 | under the mask a row attends to all tokens of its own sequence and to no other |
| BatchedAttention.RunBatched | qwen3_6_scripts/patch_xformers_sdpa_batch.py:69-106 | every output row is the softmax-weighted mean of the values of its whole own sequence |
| BatchedAttention.RunSequential | qwen3_6_scripts/patch_xformers_sdpa_seq_kernel.py:58-95 | every output row is the softmax-weighted mean of the values of its own sequence up to itself |
| BatchedAttention.SequenceRows | qwen3_6_scripts/patch_xformers_sdpa_seq_kernel.py:62-91 | one sequence with its explicit mask gives causal rows |
| BatchedAttention.CausalRowCorrect | qwen3_6_scripts/patch_xformers_sdpa_seq_kernel.py:74-91 | masking above the diagonal leaves attention over the tokens up to the row's own |
| BatchedAttention.AgreeIffSingletons | qwen3_6_scripts/patch_xformers_sdpa_batch.py:43-84 | the two fallbacks agree on all inputs if and only if every sequence has at most one token |
| BatchedAttention.SuccessorIsSeen | qwen3_6_scripts/patch_xformers_sdpa_batch.py:80-83 | for a sequence of two or more tokens there are inputs on which the batched result differs |
| BlockMajorKv.ValidateBlockMapping | qwen3_6_scripts/block_major_kv_cache.py:102-138 | accepts exactly the mappings with positive limits, ids in range and no duplicates, and otherwise reports the first fault |
| BlockMajorKv.HostWriteCommutes | qwen3_6_scripts/block_major_kv_cache.py:341-347 | a host access to a staging slot that no queued operation touches may happen before or after the queue runs |
| BlockMajorKv.ExecConcat | qwen3_6_scripts/block_major_kv_cache.py:334-338 | running a queue in two parts is running it at once |
| BlockMajorKv.BlockMajorCpuKVCache.constructor | qwen3_6_scripts/block_major_kv_cache.py:165-220 | the pool starts all zero, the stream empty, the staging slots with whatever their memory held |
| BlockMajorKv.ValidateGpuCache | qwen3_6_scripts/block_major_kv_cache.py:235-262 | accepts exactly ten layers of two planes with one number of blocks, and otherwise names the first layer that breaks this |
| BlockMajorKv.BlockMajorCpuKVCache.Create | qwen3_6_scripts/block_major_kv_cache.py:143-185 | a cache is made exactly for a valid GPU cache, a positive block count and pinned memory; the errors come in the code's order |
| BlockMajorKv.BlockMajorCpuKVCache.Advance | qwen3_6_scripts/block_major_kv_cache.py:334-338 | the stream may run any prefix of its queue at any time; what memory will eventually be does not change |
| BlockMajorKv.BlockMajorCpuKVCache.Enqueue | qwen3_6_scripts/block_major_kv_cache.py:327-338 | a queued operation applies to the eventual memory, and slots it does not use stay untouched |
| BlockMajorKv.BlockMajorCpuKVCache.Synchronize | qwen3_6_scripts/block_major_kv_cache.py:341-341 | after waiting for a slot's event nothing queued touches the slot |
| BlockMajorKv.BlockMajorCpuKVCache.CpuScatter | qwen3_6_scripts/block_major_kv_cache.py:342-347 | reads the slot's eventual contents, which needs that nothing queued still touches it |
| BlockMajorKv.BlockMajorCpuKVCache.CpuGather | qwen3_6_scripts/block_major_kv_cache.py:380-385 | overwrites a slot only when nothing queued still touches it |
| BlockMajorKv.BlockMajorCpuKVCache.CheckError | qwen3_6_scripts/block_major_kv_cache.py:295-297 | waits for the whole stream and reports whether a kernel met an id outside the GPU cache |
| BlockMajorKv.BlockMajorCpuKVCache.Begin | qwen3_6_scripts/block_major_kv_cache.py:286-287 | clears that flag and nothing else |
| BlockMajorKv.BlockMajorCpuKVCache.StageDown | qwen3_6_scripts/block_major_kv_cache.py:326-338 | the slot will hold the chunk's GPU blocks and the other slot keeps its contents |
| BlockMajorKv.BlockMajorCpuKVCache.ScatterPending | qwen3_6_scripts/block_major_kv_cache.py:339-347 | the pending chunk reaches its blocks of the pool |
| BlockMajorKv.BlockMajorCpuKVCache.PipelineDown | qwen3_6_scripts/block_major_kv_cache.py:321-359 | for any number of chunks and every schedule the pool ends with exactly the mapped blocks copied, and no kernel reports an error |
| BlockMajorKv.BlockMajorCpuKVCache.SwapOut | qwen3_6_scripts/block_major_kv_cache.py:309-359 | a valid mapping copies, layer by layer and plane by plane, the first block of every pair to the second and changes no other block; an invalid one changes nothing |
| BlockMajorKv.BlockMajorCpuKVCache.StageUp | qwen3_6_scripts/block_major_kv_cache.py:386-397 | the slot's rows will reach their GPU blocks |
| BlockMajorKv.BlockMajorCpuKVCache.GatherInto | qwen3_6_scripts/block_major_kv_cache.py:380-385 | a slot that nothing queued touches is refilled with the chunk's pool blocks |
| BlockMajorKv.BlockMajorCpuKVCache.PipelineUp | qwen3_6_scripts/block_major_kv_cache.py:373-398 | waiting only from the third chunk on, for any number of chunks and every schedule the GPU cache ends with exactly the mapped blocks copied, and no kernel reports an error |
| BlockMajorKv.BlockMajorCpuKVCache.SwapIn | qwen3_6_scripts/block_major_kv_cache.py:361-398 | the same in the other direction |
| BlockMajorKv.CopyOutMeaning | qwen3_6_scripts/block_major_kv_cache.py:309-359 | the pool block of each pair holds, for all ten layers and two planes, the pair's GPU block, and no other pool block changes |
| BlockMajorKv.CopyInMeaning | qwen3_6_scripts/block_major_kv_cache.py:361-398 | the GPU block of each pair holds, for all ten layers and two planes, the pair's pool block, and no other GPU block changes |
| BlockMajorKv.CopyOutBlocks | qwen3_6_scripts/block_major_kv_cache.py:309-359 | after the copy each mapped pool block is its GPU block and every other pool block is unchanged |
| KvTransfer.SwapOutRefinesLayers | qwen3_6_scripts/block_major_kv_cache.py:187-192 | every layer view of the pool equals the per-layer, per-plane copy of the layer-major cache |
| KvTransfer.SwapInRefinesLayers | qwen3_6_scripts/cache_engine.py:134-140 | every layer and plane of the GPU cache equals the per-layer copy from its view |
| KvTransfer.CacheEngine.SwapOut | qwen3_6_scripts/cache_engine.py:142-148 | in every layer and both planes the mapped blocks are copied and the others stay |
| KvTransfer.CacheEngine.SwapIn | qwen3_6_scripts/cache_engine.py:134-140 | in every layer and both planes the mapped blocks are copied and the others stay |
| KvTransfer.SwapBlocksAt | qwen3_6_scripts/cache_engine.py:134-148 | copying pair after pair leaves each destination block equal to its source and every other block as it was |
| KvTransfer.CacheEngine.constructor | qwen3_6_scripts/cache_engine.py:70-83 | both caches are all zero, and have no layers at all when they have no blocks |
| KvTransfer.AllocateKvCache | qwen3_6_scripts/cache_engine.py:85-132 | one zeroed buffer of all layers, of which each layer reads its own range; nothing when there are no layers or no blocks |
| KvTransfer.ViewsDisjoint | qwen3_6_scripts/cache_engine.py:125-130 | every layer, plane and block has its own cell inside the buffer |
| KvTransfer.ViewsCover | qwen3_6_scripts/cache_engine.py:115-130 | every cell of the buffer belongs to a layer, plane and block |
| KvTransfer.RoundTrip | qwen3_6_scripts/block_major_kv_cache.py:309-398 | swapping out by a mapping and in by its inverse restores the GPU blocks, whatever the GPU held in between |
| KvTransfer.OrderedStep | qwen3_6_scripts/patch_worker_cache_transfer_order.py:17-28 | with copies out first, the pool holds the victims as they were before the step, and the copies in read that pool |
| KvTransfer.InFirstIffNoReuse | qwen3_6_scripts/patch_worker_cache_transfer_order.py:6-15 | the opposite order keeps every victim for all contents if and only if no victim's GPU block is refilled in the step |
| KvTransfer.ReuseLosesVictim | qwen3_6_scripts/patch_worker_cache_transfer_order.py:18-19 | when a block is reused there are contents for which the opposite order loses it |
| MambaCache.ExchangeKeeps | qwen3_6_scripts/mamba_cache.py:224-234 | swapping two columns and both indices in the mapping leaves each sequence with its own state |
| MambaCache.MoveKeeps | qwen3_6_scripts/mamba_cache.py:220-222 | copying a column to a free one and updating the index leaves each sequence with its own state |
| MambaCache.WriteFreeKeeps | qwen3_6_scripts/mamba_cache.py:104-105 | writing a column nobody owns changes no sequence's state |
| MambaCache.RoomOutside | qwen3_6_scripts/mamba_cache.py:187-193 | when live sequences fit, a non-running one inside the batch window finds a free column outside it |
| MambaCache.MambaCacheManager.SwapCache | qwen3_6_scripts/mamba_cache.py:72-76 | exactly two columns of both tensors change places |
| MambaCache.MambaCacheManager.CopyCache | qwen3_6_scripts/mamba_cache.py:78-82 | exactly one column of both tensors is overwritten |
| MambaCache.MambaCacheManager.ZeroCache | qwen3_6_scripts/mamba_cache.py:104-105 | exactly one column of both tensors becomes zero |
| MambaCache.MambaCacheManager.SwapMappingIndex | qwen3_6_scripts/mamba_cache.py:228-234 | every entry at either index gets the other one |
| MambaCache.MambaCacheManager.UpdateMappingIndex | qwen3_6_scripts/mamba_cache.py:236-241 | the one entry at the old index gets the new one |
| MambaCache.MambaCacheManager.GetAllOccupiedIndices | qwen3_6_scripts/mamba_cache.py:160-165 | the set of columns in use |
| MambaCache.MambaCacheManager.FirstFreeIndex | qwen3_6_scripts/mamba_cache.py:252-263 | the least free column of the range, or nothing when all are in use |
| MambaCache.MambaCacheManager.MoveCacheIndexAndMappings | qwen3_6_scripts/mamba_cache.py:220-222 | no sequence's state changes, the old column becomes free |
| MambaCache.MambaCacheManager.SwapPairIndicesAndMappings | qwen3_6_scripts/mamba_cache.py:224-226 | no sequence's state changes, the two columns' owners change places |
| MambaCache.MambaCacheManager.MoveOutIfAlreadyOccupied | qwen3_6_scripts/mamba_cache.py:84-90 | the column becomes free without changing any sequence's state |
| MambaCache.MambaCacheManager.Assign | qwen3_6_scripts/mamba_cache.py:92-132 | the sequence ends at the requested column, which holds zeros for a new request, the first sequence's column for a new sibling and its own state for a known one; no other state changes |
| MambaCache.MambaCacheManager.Prepare | qwen3_6_scripts/mamba_cache.py:134-158 | the i-th scheduled, not finished pair sits at column i; someone not running is left in the batch window exactly when the batch fills the cache and more sequences live than run |
| MambaCache.MambaCacheManager.CleanUp | qwen3_6_scripts/mamba_cache.py:167-218 | running sequences stay put and no state changes; someone not running is left in the batch window exactly when the batch fills the cache and more sequences live than run |
| MambaCache.MambaCacheManager.ReleaseFinished | qwen3_6_scripts/mamba_cache.py:243-250 | finished requests disappear, their columns are zero, the others keep their states |
| MambaCache.MambaCacheManager.ReleaseOne | qwen3_6_scripts/mamba_cache.py:246-250 | one request disappears and its columns become zero |
| MambaCache.MambaCacheManager.CurrentRun | qwen3_6_scripts/mamba_cache.py:28-46 | afterwards column i holds, for the i-th running pair, its own old column, its request's first old column if it is a new sibling, or zeros if the request is new; every surviving sequence keeps its state, finished requests are gone; someone not running is left in the batch window exactly when the batch fills the cache and more sequences live than run |
| MambaCache.MambaCacheManager.WriteBack | qwen3_6_scripts/mamba_cache.py:155-158 | a model run on the first columns, up to all of them, gives every sequence placed there its column's new state and changes no other; only running ones are placed there exactly when the window is clear |
| MambaCache.ScheduledMeaning | qwen3_6_scripts/mamba_cache.py:134-158 | for any batch: known requests keep their sequences, joining ones copy the first, new requests are zero, and exactly the running requests are added |
| MambaCache.ColumnMeaning | qwen3_6_scripts/mamba_cache.py:92-132 | the same in terms of the columns before and after |
| MambaCache.FullWindow | qwen3_6_scripts/mamba_cache.py:178-180 | a window over the whole cache holds only running sequences exactly when all who live run |
| MambaCache.FullBatchLosesState | qwen3_6_scripts/mamba_cache.py:178-180 | one column: a batch of one request that finishes at once overwrites the state of the sequence that survives |
| GdnPrefix.RestoreAlignment | qwen3_6_scripts/gdn_prefix.py:38-55 | the block size, the kernel chunk of 64 or the scheduler chunk, by mode; a positive multiple of the block size; each error under exactly its condition |
| GdnPrefix.MakePrefixKey | qwen3_6_scripts/gdn_prefix.py:58-63 | succeeds exactly for a positive count and a digest of 32 bytes |
| GdnPrefix.StrictPrefixBlockCount | qwen3_6_scripts/gdn_prefix.py:71-76 | the number of complete blocks that leaves at least one token |
| GdnPrefix.DirectClosedForm | qwen3_6_scripts/gdn_prefix.py:91-101 | stepping back one block when a single token is left equals dividing the tokens less two |
| GdnPrefix.DirectKeyIsLongest | qwen3_6_scripts/gdn_prefix.py:88-128 | direct mode captures the longest key that may be restored, and nothing only if nothing may be |
| GdnPrefix.HybridKeyIsLongest | qwen3_6_scripts/gdn_prefix.py:88-135 | the hybrid key, passed as direct final key, may be restored exactly when there is an alignment, and no longer one may |
| GdnPrefix.AlignedKeyIsLongest | qwen3_6_scripts/gdn_prefix.py:102-139 | no key longer than the captured one may be restored; the captured one may exactly when its end is aligned, which holds whenever the hashes reach the last boundary |
| GdnPrefix.DirectKeyMeaning | qwen3_6_scripts/gdn_prefix.py:88-101 | the captured key is the longest run of hashed blocks that leaves two tokens, with the hash of its last block, and nothing only if no block fits |
| GdnPrefix.AlignedKeyMeaning | qwen3_6_scripts/gdn_prefix.py:102-112 | as many hashed blocks as fit before the last aligned boundary strictly inside the prompt |
| GdnPrefix.NoKeyMeaning | qwen3_6_scripts/gdn_prefix.py:88-109 | when nothing is captured whatever the hashes, and which calls are errors |
| GdnPrefix.EligibleMeaning | qwen3_6_scripts/gdn_prefix.py:115-139 | what each mode asks of a key, in tokens |
| GdnPrefix.ShortHashesCaptureUnusableKey | qwen3_6_scripts/gdn_prefix.py:107-112 | with hashes that stop short, the captured key may not be restored |
| GdnPrefill.SelectTargets | qwen3_6_scripts/gdn_prefix.py:149-154 | collects the targets inside the step and rejects malformed keys |
| GdnPrefill.SelectedAt | qwen3_6_scripts/gdn_prefix.py:149-154 | an offset is selected exactly when some target's boundary lies there inside the step, and its key has that boundary |
| GdnPrefill.SelectedLast | qwen3_6_scripts/gdn_prefix.py:149-154 | of several targets with one boundary the last is captured |
| GdnPrefill.CapturePointsForStep | qwen3_6_scripts/gdn_prefix.py:142-158 | errors for negative positions, malformed keys and more than two points; otherwise the selected captures in order of offset |
| GdnPrefill.CapPrefillEnd | qwen3_6_scripts/gdn_prefix.py:161-178 | the step ends at the earliest target boundary after its start or at its nominal end, and always moves when it can |
| GdnPrefill.PointsOfCapped | qwen3_6_scripts/gdn_prefix.py:142-178 | a capped step has at most one capture, at its end, so the limit of two is never exceeded |
| GdnPrefill.RunPrefill | qwen3_6_scripts/gdn_prefix.py:142-178 | every step takes what its budget and the prompt allow or stops early at a target boundary, never steps over one, and captures one target exactly when it ends on a boundary; the steps follow each other to the end and reach every boundary |
| GdnPrefill.EachTargetOnce | qwen3_6_scripts/gdn_prefix.py:172-178 | every target boundary inside the prefill is the end of exactly one step |
| GdnPrefill.AscendingUnique | qwen3_6_scripts/gdn_prefix.py:155 | sorting a set has one result |
| GdnSegments.CanonicalDirectSegmentOffsets | qwen3_6_scripts/gdn_prefix.py:181-207 | argument errors in order; otherwise the chunk ends and captured boundaries strictly between context and end, sorted and counted from the context |
| GdnSegments.AddDirect | qwen3_6_scripts/gdn_prefix.py:198-202 | adds the boundary of the key captured at a step end, if there is one |
| GdnSegments.DirectTokensLargest | qwen3_6_scripts/gdn_prefix.py:91-101 | that boundary is the largest hashed multiple of the block size leaving two tokens |
| GdnSegments.MarksAligned | qwen3_6_scripts/gdn_prefix.py:195-207 | every boundary is block-aligned in absolute position |
| GdnSegments.WarmIsColdBeyondContext | qwen3_6_scripts/gdn_prefix.py:185-207 | a resumed run's offsets, shifted by its context, are the cold boundaries beyond that context, in the same order |
| GdnSegments.SeparateAt | qwen3_6_scripts/gdn_prefix.py:196-207 | closed form of the boundaries when every scheduler chunk runs by itself |
| GdnSegments.SeparateChunksAgree | qwen3_6_scripts/gdn_prefix.py:181-207 | separate chunks give the boundaries of one call if and only if no one-token block is captured as the last token of a chunk |
| GdnSegments.OneTokenBlocksDiffer | qwen3_6_scripts/gdn_prefix.py:196-207 | nine tokens, blocks of one, chunks of four: boundary seven is lost |
| GdnStatePolicy.GdnPrefixStatePolicy.constructor | qwen3_6_scripts/gdn_prefix.py:220-225 | the index starts empty with the policy's capacity |
| GdnStatePolicy.CapturedOnce | qwen3_6_scripts/gdn_prefix.py:236-243 | under admission a final state is asked for exactly when admitting its key changes who is resident; afterwards the key is resident, so it is captured once, and a key turned down would have evicted nothing |
| GdnStatePolicy.GdnPrefixStatePolicy.SelectRestore | qwen3_6_scripts/gdn_prefix.py:245-256 | the last resident key among the first live ones, which becomes the most recent; nothing exactly when none is resident |
| GdnStatePolicy.GdnPrefixStatePolicy.RepeatedBranchCandidate | qwen3_6_scripts/gdn_prefix.py:258-272 | the last live key, only under admission and only when it is not resident |
| GdnStatePolicy.GdnPrefixStatePolicy.Admit | qwen3_6_scripts/gdn_prefix.py:274-287 | admits keys in order up to the first malformed one and returns what was evicted |
| GdnStatePolicy.GdnPrefixStatePolicy.AdmitOne | qwen3_6_scripts/gdn_prefix.py:280-286 | touches the key and drops the oldest entries beyond the capacity |
| GdnStatePolicy.GdnPrefixStatePolicy.Trim | qwen3_6_scripts/gdn_prefix.py:284-286 | keeps the newest entries and returns the others |
| GdnStatePolicy.GdnPrefixStatePolicy.Forget | qwen3_6_scripts/gdn_prefix.py:289-291 | exactly the named keys leave; the order of the rest is still recency order |
| GdnStatePolicy.AdmittedInOrder | qwen3_6_scripts/gdn_prefix.py:274-287 | admission keeps the residents in order of last touch and within capacity |
| GdnStatePolicy.EvictsLeastRecent | qwen3_6_scripts/gdn_prefix.py:280-286 | an admission evicts at most one key, the least recently touched, never the one admitted, and only when a new key meets a full index |
| GdnStatePolicy.EvictedInOrder | qwen3_6_scripts/gdn_prefix.py:276-287 | evicted keys are reported in the order of their eviction |
| GdnStatePolicy.AdmitConserves | qwen3_6_scripts/gdn_prefix.py:274-287 | residents plus evicted keys are the old residents plus the inserted keys |
| GdnStatePolicy.AdmitSize | qwen3_6_scripts/gdn_prefix.py:274-287 | the size changes by insertions less evictions |
| GdnStatePolicy.AdmittedAreNewest | qwen3_6_scripts/gdn_prefix.py:274-287 | the index is exactly the most recently touched distinct keys, up to the capacity |
| GdnStatePolicy.Restored | qwen3_6_scripts/gdn_prefix.py:254-256 | a restore keeps the size and the recency order |
| GdnStatePolicy.FilterEligible | qwen3_6_scripts/scheduler.py:1119-1135 | the live keys the restore mode accepts, shortest first, none missing; an error exactly when a digest is malformed or the first key cannot be decided |
| GdnStatePolicy.KeysFromBlockHashes | qwen3_6_scripts/gdn_prefix.py:66-68 | one key per hash in order, or the error of a malformed digest |
| GdnStatePolicy.ChooseRestore | qwen3_6_scripts/scheduler.py:1119-1138 | a prefix hit restores the longest resident state that the mode accepts, and nothing only when there is none; on an error or a miss the index stays as it was |
| ExpertOrder.StableArgsort | verify_moe_e2e.py:48 | the order is sorted by expert, ties in pair order |
| ExpertOrder.PermutesOnto | verify_moe_index_combine.py:46-51 | every pair is dispatched to some position |
| ExpertOrder.SegmentIsExpert | verify_moe_e2e.py:54-60 | the positions between the running start and start plus count are exactly those of the expert's pairs |
| ExpertOrder.SegmentIsStable | verify_moe_e2e.py:48-60 | inside a segment pairs keep their original order |
| ExpertOrder.CountPermuted | verify_moe_e2e.py:52 | sorting keeps the number of pairs of smaller experts |
| ExpertOrder.Bincount | verify_moe_e2e.py:52 | one count per expert, the number of its pairs |
| ExpertOrder.ComputeIndex | verify_moe_index_combine.py:41-52 | the two index maps are inverse to each other, the order is the stable sort, the counts are right |
| MoeDispatch.CombineAt | verify_moe_index_combine.py:55-60 | channel by channel a token's entry is the product of its own top-k weights with its own top-k outputs, and no other pair matters |
| MoeDispatch.CombineMeaning | verify_moe_e2e.py:46-69 | the plain combination of the pair outputs is that sum |
| MoeDispatch.CollectPermuted | verify_moe_e2e.py:54-68 | adding a token's rows in any permutation of the pairs gives the sum in pair order |
| MoeDispatch.PairOrderIsToken | verify_moe_index_combine.py:58-60 | the sum in pair order is the combination over the token's top-k block |
| MoeDispatch.CollectIsCombine | verify_moe_e2e.py:54-68 | adding a token's weighted rows in any dispatch order gives its row of the plain combination |
| MoeDispatch.ScatterSegment | verify_moe_e2e.py:60-67 | one scatter-add adds exactly the segment's pairs to their tokens |
| MoeDispatch.IndexAdd | verify_moe_e2e.py:67 | rows are added to their tokens one after another, repeated tokens included |
| MoeDispatch.ExpertBatch | verify_moe_e2e.py:60-66 | the batch holds the segment's tokens and, for each, the expert on that token's hidden state scaled by the pair's weight |
| MoeDispatch.Dispatch | verify_moe_e2e.py:46-69 | entry by entry, a token gets the sum of its own experts on its own hidden state, each with the weight of its own pair, for any routing |
| ExpertParallel.EpInit | qwen3_6_scripts/ep_fused_moe_patch.py:189-194 | rejects a count the ranks do not divide; otherwise equal shares starting at rank times share |
| ExpertParallel.LocalOnOneRank | qwen3_6_scripts/ep_fused_moe_patch.py:82-86 | every expert is local on exactly one rank |
| ExpertParallel.MaskAndRemap | qwen3_6_scripts/ep_fused_moe_patch.py:66-101 | the mask marks local pairs, other weights are zero, every remapped id is in the local range |
| ExpertParallel.EpFusedMoe.LoadWeight | qwen3_6_scripts/ep_fused_moe_patch.py:240-269 | a local expert's gate goes whole to the first half of w13, its up projection to the second, its down projection to w2; loads for other ranks are skipped; an error exactly for an unknown shard or a short weight of a local expert |
| ExpertParallel.EpFusedMoe.LoadCheckpoint | qwen3_6_scripts/ep_fused_moe_patch.py:251-267 | after a load in any order from one checkpoint, slot j of an expert held in full is the gate followed by the up projection, and the down projection, of global expert start + j; in general each shard holds the last weight loaded for it |
| ExpertParallel.EpFusedMoe.OrigWeightLoader | qwen3_6_scripts/vendor_overrides/vllm/model_executor/layers/fused_moe/layer.py:591-625 | the rank's part of the weight goes to the first half of w13 for w1, the second for w3, and to w2; a weight that ends before that part, as one of full size does for any rank but 0, is an error |
| ExpertParallel.CheckpointFills | qwen3_6_scripts/ep_fused_moe_patch.py:251-267 | a checkpoint that holds a shard of an expert fills its place with the right weight, in any order |
| ExpertParallel.RankForward | qwen3_6_scripts/ep_fused_moe_patch.py:85-101 | entry by entry, the rank's partial output is the weighted sum of those of the token's experts that live on the rank |
| ExpertParallel.RankAdds | qwen3_6_scripts/ep_fused_moe_patch.py:88-99 | a rank's partial extends the output restricted to smaller experts by its own share |
| ExpertParallel.ReduceSplits | qwen3_6_scripts/ep_fused_moe_patch.py:126-128 | one reduction of routed plus shared is the sum of the two reductions |
| ExpertParallel.EpMatchesUnsharded | qwen3_6_scripts/ep_fused_moe_patch.py:112-128 | the reduced output of all ranks is the unsharded mixture plus the reduced shared experts |
| ExpertParallel.EpMeaning | qwen3_6_scripts/ep_fused_moe_patch.py:112-128 | every entry of the reduced output is the weighted sum of the token's own experts on its own hidden state plus all ranks' shared-expert parts |
| WorkerProtocol.InitialInv | qwen3_6_scripts/multiproc_worker_utils.py:65-69 | the empty state satisfies the invariant |
| WorkerProtocol.PartitionNext | qwen3_6_scripts/multiproc_worker_utils.py:160-168 | every step keeps each registered task in exactly one place: entering, queued, executing or reported, in the result queue, or lost with its worker |
| WorkerProtocol.CarriedNext | qwen3_6_scripts/multiproc_worker_utils.py:211-231 | every step keeps each message's call or answer the one of its own task id, and with the worker it was registered for |
| WorkerProtocol.AccountedNext | qwen3_6_scripts/multiproc_worker_utils.py:71-83 | every step keeps each future pending, failed, being resolved, or resolved with its own answer |
| WorkerProtocol.StepInv | qwen3_6_scripts/multiproc_worker_utils.py:71-231 | every step of any interleaving keeps the invariant |
| WorkerProtocol.HandlerNeverMisses | qwen3_6_scripts/multiproc_worker_utils.py:72-73 | in every reachable state the task of every queued result is registered, so the handler's pop succeeds |
| WorkerProtocol.ResolvedOnce | qwen3_6_scripts/multiproc_worker_utils.py:50-52 | only unresolved futures are resolved, and a resolved one is never changed by a step |
| WorkerProtocol.ResolvedForGood | qwen3_6_scripts/multiproc_worker_utils.py:54-59 | over any run a resolved future keeps its answer |
| WorkerProtocol.ResolvedWithOwnAnswer | qwen3_6_scripts/multiproc_worker_utils.py:160-179 | a resolved future holds what running the call registered with it gave |
| WorkerProtocol.LostNeverResolved | qwen3_6_scripts/multiproc_worker_utils.py:221-224 | a task held by a worker that exits, or queued for one that has exited, stays registered and its future is never resolved |
| WorkerProtocol.ExitStrands | qwen3_6_scripts/multiproc_worker_utils.py:211-231 | an exiting worker strands the task it holds and every task queued for it |
| WorkerProtocol.StrandedIsOpen | qwen3_6_scripts/multiproc_worker_utils.py:71-83 | a stranded task is still registered and its future unresolved |
| WorkerProtocol.QuietOrMoves | qwen3_6_scripts/multiproc_worker_utils.py:211-231 | while anything is under way and nobody has exited, some step is possible |
| WorkerProtocol.MoveShrinksWork | qwen3_6_scripts/multiproc_worker_utils.py:211-231 | each such step takes exactly one unit off the remaining work |
| WorkerProtocol.DrainResolvesAll | qwen3_6_scripts/multiproc_worker_utils.py:71-83 | a draining run is bounded by the work, and when it cannot go on every future whose put succeeded is resolved with its own answer |
| WorkerRuns.RoutedToOwnWorker | qwen3_6_scripts/multiproc_worker_utils.py:136-168 | in every reachable state a call made on one worker is neither queued for nor held by another |
| WorkerRuns.RunByOwnWorker | qwen3_6_scripts/multiproc_worker_utils.py:160-221 | a call is run by the worker it was made on, with the method and arguments it was made with, after it was made |
| WorkerRuns.RunsOnce | qwen3_6_scripts/multiproc_worker_utils.py:211-231 | no call runs twice |
| WorkerRuns.AnsweredByOwnWorker | qwen3_6_scripts/multiproc_worker_utils.py:71-83 | a resolved future holds the answer that the worker it was asked of gave when it ran the call it was made for |
| WorkerRuns.InOrderSent | qwen3_6_scripts/multiproc_worker_utils.py:165-213 | what the steps send to a worker is what it has started on, in that order, followed by its queue |
| WorkerRuns.InOrderReported | qwen3_6_scripts/multiproc_worker_utils.py:72-87 | what workers report is what the handler has dealt with, in that order, followed by the result queue; so the handler stops only after everything reported before the stop |
| WorkerRuns.RegisteredByStep | qwen3_6_scripts/multiproc_worker_utils.py:160-164 | an id is registered, with its future, worker and call, exactly by a registering step |
| WorkerRuns.RanByStep | qwen3_6_scripts/multiproc_worker_utils.py:211-231 | a recorded run is a worker executing that call and giving that answer |

## Left out

- Floating-point rounding, dtype conversion and overflow: the numeric theorems are over the reals. `PrefixRequests.WarmEqualsCold` is the one about bitwise identity and uses no arithmetic law.
- Batch, head and GQA dimensions, and the physical layout of cache tensors: one head of one sequence is modelled, a cached token being one key/value pair.
- L2 normalisation of q and k and the scale on q in the gated delta rule: applied before the modelled code.
- ChunkGatedDeltaRule: a missing initial state is not a case of its own; the caller passes zeros. The tensor products that the code computes for all chunks before its chunk loop are computed chunk by chunk.
- The clamp of uninitialised context lengths (paged_attn.py:1890-1906): lengths are taken to be within the cache.
- Fused native prefill paths, activation capture, shadow reports, profiling and logging.
- The gather, grouped-query branch, key and value scales and ALiBi bias of paged_attention_v2_pytorch.py: `ReshapedPartitions` starts from the scores and values of one head.
- The index arithmetic of the native transfer kernels (corex_block_major_kv_transfer.cu): pack, scatter, cpu_gather and cpu_scatter move whole blocks row by row, skip ids outside the GPU cache and raise the error flag, as those kernels do.
- ValidateBlockMapping: the checks of tensor type, device, dtype, layout and shape come before what is modelled.
- BlockMajorKv.BlockMajorCpuKVCache: GPU cache, staging slots and pool are sequences held in fields rather than arrays, so aliasing between tensors is not captured; the layer views are functions of the pool. The flag's reset, queued on the stream in the code, takes effect at once: nothing else is queued at that point.
- Device, dtype, contiguity, environment and runtime checks of the block-major cache constructor.
- KvTransfer.AllocateKvCache: layers are copies of their ranges of the buffer, so writes through a view are not seen in it; that ranges do not overlap is `ViewsDisjoint`.
- CUDA-graph helpers of the slot allocator. Its two cache tensors are arrays of columns.
- MambaCache.MambaCacheManager.Prepare: requires room for the new sequences (and outside the batch window for those that do not run); without it the code raises in its search for a free column, which `FirstFreeIndex` models as no result.
- GdnStatePolicy: an unknown policy name, an error in the constructor, is excluded by the type; admit-time errors are modelled.
- The choice of nominal prefill steps by the scheduler: `RunPrefill` takes any positive budgets.
- Top-k selection and routing softmax: expert ids and weights are inputs, and an expert is any function of a hidden state with the right output length.
- The reduce-scatter variant for data parallelism, and the loader's quantised, packed and transposed weight formats.
- WorkerProtocol: a state machine over values rather than classes, since its subject is the interleaving of threads and processes; queues are FIFO and their operations atomic, and process start, kill, monitoring and signals appear only as the step by which a worker exits.
- MRoPE position slicing, chat-template variable search, HTTP and CLI code, environment parsing, the other patch scripts and benchmarks.
