/** Prefix keys and token boundaries of the recurrent-state cache
    (gdn_prefix.py): which state is captured for a prompt, which one may be
    restored, and where prefill steps stop so that it can be captured. */
module GdnPrefix {
  import opened Outcome
  import opened Arithmetic

  const GDN_KERNEL_CHUNK_TOKENS := 64
  const GDN_DIRECT_MIN_REPLAY_TOKENS := 2
  const DIGEST_BYTES := 32

  type Byte = x: int | 0 <= x < 256
  type Digest = seq<Byte>

  /** A number of complete blocks and the digest of their content. */
  datatype Key = Key(blocks: int, digest: Digest)

  datatype Mode = Direct | Hybrid64 | Chunk64 | Aligned | Unknown(name: string)

  datatype Error =
    | NoCompleteBlock
    | WrongDigestLength
    | BlockSizeNotPositive
    | SizesNotPositive
    | ChunkNotMultipleOfBlock
    | UnknownMode
    | BadAlignment
    | ModuloByZero
    | NegativePosition
    | EndBeforeStart
    | TooManyCapturePoints

  predicate WellFormed(key: Key) {
    key.blocks > 0 && |key.digest| == DIGEST_BYTES
  }

  predicate DigestsOk(hashes: seq<Digest>) {
    forall i :: 0 <= i < |hashes| ==> |hashes[i]| == DIGEST_BYTES
  }

  // ---------------------------------------------------------------------
  // Keys
  // ---------------------------------------------------------------------

  function MakePrefixKey(blockCount: int, digest: Digest): (r: Result<Key, Error>)
    ensures r.Ok? <==> blockCount > 0 && |digest| == 32
    ensures r.Ok? ==> WellFormed(r.value) && r.value == Key(blockCount, digest)
  {
    if blockCount <= 0 then Err(NoCompleteBlock)
    else if |digest| != DIGEST_BYTES then Err(WrongDigestLength)
    else Ok(Key(blockCount, digest))
  }

  /** The key of the first count blocks of a prompt. */
  function PrefixKey(hashes: seq<Digest>, count: int): Key
    requires 0 < count <= |hashes|
  {
    Key(count, hashes[count - 1])
  }

  function RestoreAlignment(mode: Mode, blockSize: int, schedulerChunk: int): (r: Result<int, Error>)
    ensures r.Ok? ==> blockSize > 0 && r.value > 0 && r.value % blockSize == 0
    ensures r.Ok? ==> r.value == match mode
      case Direct => blockSize
      case Aligned => schedulerChunk
      case _ => 64
    ensures r == Err(BlockSizeNotPositive) <==> blockSize <= 0
    ensures r == Err(UnknownMode) <==> blockSize > 0 && mode.Unknown?
    ensures r == Err(BadAlignment) <==>
      && blockSize > 0
      && (((mode.Hybrid64? || mode.Chunk64?) && 64 % blockSize != 0)
          || (mode.Aligned? && (schedulerChunk <= 0 || schedulerChunk % blockSize != 0)))
  {
    if blockSize <= 0 then Err(BlockSizeNotPositive)
    else if mode.Direct? then Ok(blockSize)
    else if mode.Unknown? then Err(UnknownMode)
    else
      var alignment := if mode.Aligned? then schedulerChunk else GDN_KERNEL_CHUNK_TOKENS;
      if alignment <= 0 || alignment % blockSize != 0 then Err(BadAlignment) else Ok(alignment)
  }

  function StrictPrefixBlockCount(tokens: int, blockSize: int): (r: Result<int, Error>)
    ensures r.Err? <==> blockSize <= 0
    ensures r.Ok? ==> r.value >= 0
    ensures r.Ok? && tokens >= 1 ==> r.value * blockSize < tokens <= (r.value + 1) * blockSize
  {
    if blockSize <= 0 then Err(BlockSizeNotPositive)
    else if tokens <= 1 then Ok(0)
    else Ok((tokens - 1) / blockSize)
  }

  /** The optional key at a block count, as the capture functions build it. */
  function KeyAt(hashes: seq<Digest>, count: int): Result<Option<Key>, Error>
    requires count <= |hashes|
  {
    if count <= 0 then Ok(None)
    else
      var made := MakePrefixKey(count, hashes[count - 1]);
      if made.Err? then Err(made.error) else Ok(Some(made.value))
  }

  function FinalCaptureKey(
      hashes: seq<Digest>, promptTokens: int, blockSize: int, mode: Mode, alignment: int): Result<Option<Key>, Error>
  {
    if mode.Direct? || mode.Hybrid64? then
      var strict := StrictPrefixBlockCount(promptTokens, blockSize);
      if strict.Err? then Err(strict.error)
      else
        var count := Min(|hashes|, strict.value);
        var replayed :=
          if count > 0 && promptTokens - count * blockSize < GDN_DIRECT_MIN_REPLAY_TOKENS then count - 1 else count;
        KeyAt(hashes, replayed)
    else if mode.Unknown? then Err(UnknownMode)
    else if alignment <= 0 then Ok(None)
    else if blockSize == 0 then Err(ModuloByZero)
    else if alignment % blockSize != 0 || promptTokens <= 1 then Ok(None)
    else
      var boundary := (promptTokens - 1) / alignment * alignment;
      KeyAt(hashes, Min(|hashes|, boundary / blockSize))
  }

  function RestoreKeyIsEligible(
      key: Key, promptTokens: int, blockSize: int, mode: Mode, alignment: int, directFinal: Option<Key>)
      : Result<bool, Error>
  {
    var made := MakePrefixKey(key.blocks, key.digest);
    if made.Err? then Err(made.error)
    else if blockSize <= 0 then Err(BlockSizeNotPositive)
    else
      var boundary := key.blocks * blockSize;
      var remaining := promptTokens - boundary;
      if remaining <= 0 then Ok(false)
      else if mode.Direct? then Ok(remaining >= GDN_DIRECT_MIN_REPLAY_TOKENS)
      else if mode.Hybrid64? then
        if directFinal.Some? && !WellFormed(directFinal.value) then
          Err(MakePrefixKey(directFinal.value.blocks, directFinal.value.digest).error)
        else
          Ok(remaining >= GDN_DIRECT_MIN_REPLAY_TOKENS && alignment > 0
             && (boundary % alignment == 0 || Some(key) == directFinal))
      else if mode.Unknown? then Err(UnknownMode)
      else Ok(alignment > 0 && boundary % alignment == 0)
  }

  predicate Eligible(
      hashes: seq<Digest>, count: int, promptTokens: int, blockSize: int, mode: Mode, alignment: int,
      directFinal: Option<Key>)
    requires 0 < count <= |hashes|
  {
    RestoreKeyIsEligible(PrefixKey(hashes, count), promptTokens, blockSize, mode, alignment, directFinal) == Ok(true)
  }

  /** No key longer than count blocks may be restored. */
  predicate NoneLonger(
      hashes: seq<Digest>, count: int, promptTokens: int, blockSize: int, mode: Mode, alignment: int,
      directFinal: Option<Key>)
    requires count >= 0
  {
    forall c :: count < c <= |hashes| ==>
      !Eligible(hashes, c, promptTokens, blockSize, mode, alignment, directFinal)
  }

  // ---------------------------------------------------------------------
  // The captured key is the best one that may be restored
  // ---------------------------------------------------------------------

  /** Block count of the direct final key; 0 stands for no key. */
  function DirectBlocks(available: nat, promptTokens: int, blockSize: int): (c: nat)
    requires blockSize > 0
    ensures c <= available
  {
    if promptTokens < GDN_DIRECT_MIN_REPLAY_TOKENS then 0
    else Min(available, (promptTokens - GDN_DIRECT_MIN_REPLAY_TOKENS) / blockSize)
  }

  lemma QuotientBounds(x: int, b: int)
    requires b > 0
    ensures x / b * b <= x < (x / b + 1) * b
  {
  }

  lemma QuotientAtLeast(x: int, b: int, c: int)
    requires b > 0
    ensures c <= x / b <==> c * b <= x
  {
    QuotientBounds(x, b);
    if c <= x / b {
      MulOrder(c, x / b, b);
    } else {
      MulOrder(x / b + 1, c, b);
    }
  }

  lemma StepBack(available: nat, n: int, b: int)
    requires n >= 2 && b > 0
    ensures var count := Min(available, (n - 1) / b);
      (if count > 0 && n - count * b < 2 then count - 1 else count) == Min(available, (n - 2) / b) >= 0
  {
    var count := Min(available, (n - 1) / b);
    QuotientAtLeast(n - 1, b, count);
    QuotientAtLeast(n - 2, b, 0);
    QuotientAtLeast(n - 2, b, count);
    QuotientAtLeast(n - 2, b, count - 1);
    QuotientAtLeast(n - 2, b, count + 1);
    QuotientAtLeast(n - 1, b, count + 1);
  }

  /** Stepping back one block when only one token is left to replay is division
      of the tokens less two. */
  lemma DirectClosedForm(hashes: seq<Digest>, promptTokens: int, blockSize: int, mode: Mode, alignment: int)
    requires DigestsOk(hashes) && blockSize > 0 && (mode.Direct? || mode.Hybrid64?)
    ensures var c := DirectBlocks(|hashes|, promptTokens, blockSize);
      FinalCaptureKey(hashes, promptTokens, blockSize, mode, alignment)
      == Ok(if c == 0 then None else Some(PrefixKey(hashes, c)))
  {
    if promptTokens >= 2 {
      StepBack(|hashes|, promptTokens, blockSize);
    }
  }

  lemma DirectEligible(hashes: seq<Digest>, c: int, promptTokens: int, blockSize: int, alignment: int, d: Option<Key>)
    requires DigestsOk(hashes) && blockSize > 0 && 0 < c <= |hashes|
    ensures Eligible(hashes, c, promptTokens, blockSize, Direct, alignment, d)
      <==> c <= DirectBlocks(|hashes|, promptTokens, blockSize)
  {
    if promptTokens >= 2 {
      QuotientAtLeast(promptTokens - 2, blockSize, c);
    } else {
      MulAtLeast(c, blockSize);
    }
  }

  /** Direct mode: the captured key may be restored, no longer one may, and when
      nothing is captured nothing may be restored. */
  lemma DirectKeyIsLongest(hashes: seq<Digest>, promptTokens: int, blockSize: int, alignment: int, d: Option<Key>)
    requires DigestsOk(hashes) && blockSize > 0
    ensures var c := DirectBlocks(|hashes|, promptTokens, blockSize);
      && FinalCaptureKey(hashes, promptTokens, blockSize, Direct, alignment)
         == Ok(if c == 0 then None else Some(PrefixKey(hashes, c)))
      && (c > 0 ==> Eligible(hashes, c, promptTokens, blockSize, Direct, alignment, d))
      && NoneLonger(hashes, c, promptTokens, blockSize, Direct, alignment, d)
  {
    DirectClosedForm(hashes, promptTokens, blockSize, Direct, alignment);
    forall c | 0 < c <= |hashes|
      ensures Eligible(hashes, c, promptTokens, blockSize, Direct, alignment, d)
        <==> c <= DirectBlocks(|hashes|, promptTokens, blockSize)
    {
      DirectEligible(hashes, c, promptTokens, blockSize, alignment, d);
    }
  }

  lemma HybridEligible(hashes: seq<Digest>, c: int, promptTokens: int, blockSize: int, alignment: int, d: Option<Key>)
    requires DigestsOk(hashes) && blockSize > 0 && 0 < c <= |hashes|
    requires d.Some? ==> WellFormed(d.value)
    ensures Eligible(hashes, c, promptTokens, blockSize, Hybrid64, alignment, d)
      <==> c <= DirectBlocks(|hashes|, promptTokens, blockSize) && alignment > 0
           && (c * blockSize % alignment == 0 || d == Some(PrefixKey(hashes, c)))
  {
    DirectEligible(hashes, c, promptTokens, blockSize, alignment, d);
  }

  /** Hybrid mode: the captured key, passed as the direct final key, may be
      restored exactly when there is a replay alignment, and no longer key may. */
  lemma HybridKeyIsLongest(hashes: seq<Digest>, promptTokens: int, blockSize: int, alignment: int)
    requires DigestsOk(hashes) && blockSize > 0
    ensures var c := DirectBlocks(|hashes|, promptTokens, blockSize);
      var final := if c == 0 then None else Some(PrefixKey(hashes, c));
      && FinalCaptureKey(hashes, promptTokens, blockSize, Hybrid64, alignment) == Ok(final)
      && (c > 0 ==> (Eligible(hashes, c, promptTokens, blockSize, Hybrid64, alignment, final) <==> alignment > 0))
      && NoneLonger(hashes, c, promptTokens, blockSize, Hybrid64, alignment, final)
  {
    hide Eligible, FinalCaptureKey;
    var c := DirectBlocks(|hashes|, promptTokens, blockSize);
    var final := if c == 0 then None else Some(PrefixKey(hashes, c));
    DirectClosedForm(hashes, promptTokens, blockSize, Hybrid64, alignment);
    forall c' | 0 < c' <= |hashes|
      ensures Eligible(hashes, c', promptTokens, blockSize, Hybrid64, alignment, final) ==> c' <= c && alignment > 0
      ensures c' == c && alignment > 0 ==> Eligible(hashes, c', promptTokens, blockSize, Hybrid64, alignment, final)
    {
      HybridEligible(hashes, c', promptTokens, blockSize, alignment, final);
    }
  }

  /** The last multiple of the alignment strictly inside the prompt, in blocks. */
  function AlignedBlocks(promptTokens: int, blockSize: int, alignment: int): (c: nat)
    requires blockSize > 0 && alignment > 0 && promptTokens > 0
  {
    QuotientAtLeast(promptTokens - 1, alignment, 0);
    MulOrder(0, (promptTokens - 1) / alignment, alignment);
    QuotientAtLeast((promptTokens - 1) / alignment * alignment, blockSize, 0);
    (promptTokens - 1) / alignment * alignment / blockSize
  }

  lemma MultipleOfMultiple(q: int, a: int, b: int)
    requires a > 0 && b > 0 && a % b == 0
    ensures (q * a) % b == 0 && q * a / b * b == q * a
  {
    var f := a / b;
    assert a == f * b;
    assert q * a == q * (f * b) == (q * f) * b;
    DivUnique(q * a, b, q * f, 0);
  }

  lemma AlignedBoundary(promptTokens: int, blockSize: int, alignment: int)
    requires blockSize > 0 && alignment > 0 && alignment % blockSize == 0 && promptTokens > 0
    ensures var c := AlignedBlocks(promptTokens, blockSize, alignment);
      c * blockSize == (promptTokens - 1) / alignment * alignment < promptTokens
  {
    MultipleOfMultiple((promptTokens - 1) / alignment, alignment, blockSize);
    QuotientBounds(promptTokens - 1, alignment);
  }

  /** A restorable key ends on an aligned boundary inside the prompt, hence not
      beyond the last one. */
  lemma AlignedEligible(hashes: seq<Digest>, c: int, promptTokens: int, blockSize: int, mode: Mode, alignment: int, d: Option<Key>)
    requires DigestsOk(hashes) && blockSize > 0 && (mode.Chunk64? || mode.Aligned?)
    requires alignment > 0 && alignment % blockSize == 0 && 0 < c <= |hashes|
    ensures Eligible(hashes, c, promptTokens, blockSize, mode, alignment, d)
      <==> promptTokens > 0 && c <= AlignedBlocks(promptTokens, blockSize, alignment) && c * blockSize % alignment == 0
  {
    hide AlignedBlocks;
    MulAtLeast(c, blockSize);
    if promptTokens > 0 && c * blockSize % alignment == 0 {
      InsideLastBoundary(c, promptTokens, blockSize, alignment);
    }
  }

  lemma InsideLastBoundary(c: int, promptTokens: int, blockSize: int, alignment: int)
    requires blockSize > 0 && alignment > 0 && alignment % blockSize == 0 && promptTokens > 0
    requires c * blockSize % alignment == 0
    ensures c * blockSize < promptTokens <==> c <= AlignedBlocks(promptTokens, blockSize, alignment)
  {
    hide AlignedBlocks;
    AlignedBoundary(promptTokens, blockSize, alignment);
    var most := AlignedBlocks(promptTokens, blockSize, alignment);
    var x := c * blockSize;
    if c <= most {
      MulOrder(c, most, blockSize);
    } else {
      MulOrder(most + 1, c, blockSize);
      var last := (promptTokens - 1) / alignment;
      QuotientAtLeast(promptTokens - 1, alignment, x / alignment);
      if x / alignment <= last {
        MulOrder(x / alignment, last, alignment);
      }
    }
  }

  /** Chunk and aligned modes: no key longer than the captured one may be
      restored; the captured one may be restored exactly when the hashes do not
      cut it off inside an aligned region; if they reach the last aligned
      boundary it always may. */
  lemma AlignedKeyIsLongest(hashes: seq<Digest>, promptTokens: int, blockSize: int, mode: Mode, alignment: int, d: Option<Key>)
    requires DigestsOk(hashes) && blockSize > 0 && (mode.Chunk64? || mode.Aligned?)
    requires alignment > 0 && alignment % blockSize == 0
    ensures var c := if promptTokens <= 1 then 0 else Min(|hashes|, AlignedBlocks(promptTokens, blockSize, alignment));
      && FinalCaptureKey(hashes, promptTokens, blockSize, mode, alignment)
         == Ok(if c == 0 then None else Some(PrefixKey(hashes, c)))
      && NoneLonger(hashes, c, promptTokens, blockSize, mode, alignment, d)
      && (c > 0 ==>
            (Eligible(hashes, c, promptTokens, blockSize, mode, alignment, d) <==> c * blockSize % alignment == 0))
      && (c > 0 && AlignedBlocks(promptTokens, blockSize, alignment) <= |hashes| ==>
            Eligible(hashes, c, promptTokens, blockSize, mode, alignment, d))
  {
    forall c | 0 < c <= |hashes|
      ensures Eligible(hashes, c, promptTokens, blockSize, mode, alignment, d)
        <==> promptTokens > 0 && c <= AlignedBlocks(promptTokens, blockSize, alignment) && c * blockSize % alignment == 0
    {
      AlignedEligible(hashes, c, promptTokens, blockSize, mode, alignment, d);
    }
    if promptTokens > 0 {
      AlignedBoundary(promptTokens, blockSize, alignment);
      var last := (promptTokens - 1) / alignment;
      DivUnique(last * alignment, alignment, last, 0);
    }
  }

  /** Hashes that stop short: four blocks of 16 tokens are needed for a boundary
      at 64, only two are known, and the key captured at 32 may not be restored. */
  lemma ShortHashesCaptureUnusableKey(digest: Digest)
    requires |digest| == DIGEST_BYTES
    ensures FinalCaptureKey([digest, digest], 100, 16, Chunk64, 64) == Ok(Some(Key(2, digest)))
    ensures RestoreKeyIsEligible(Key(2, digest), 100, 16, Chunk64, 64, None) == Ok(false)
  {
    assert 99 / 64 * 64 == 64;
    assert [digest, digest][1] == digest;
  }

  // ---------------------------------------------------------------------
  // The same in numbers
  // ---------------------------------------------------------------------

  /** Direct and hybrid modes capture the longest run of complete, hashed blocks
      that leaves two tokens of the prompt, with the hash of its last block. */
  lemma DirectKeyMeaning(hashes: seq<Digest>, promptTokens: int, blockSize: int, mode: Mode, alignment: int)
    requires DigestsOk(hashes) && blockSize > 0 && (mode.Direct? || mode.Hybrid64?)
    ensures var r := FinalCaptureKey(hashes, promptTokens, blockSize, mode, alignment);
      && r.Ok?
      && (r.value.None? <==> |hashes| == 0 || blockSize + 2 > promptTokens)
      && (r.value.Some? ==>
            var b := r.value.value.blocks;
            && 0 < b <= |hashes| && r.value.value.digest == hashes[b - 1] && b * blockSize + 2 <= promptTokens
            && (b < |hashes| ==> (b + 1) * blockSize + 2 > promptTokens))
  {
    DirectClosedForm(hashes, promptTokens, blockSize, mode, alignment);
    if promptTokens >= 2 {
      var most := (promptTokens - 2) / blockSize;
      QuotientAtLeast(promptTokens - 2, blockSize, 1);
      QuotientAtLeast(promptTokens - 2, blockSize, DirectBlocks(|hashes|, promptTokens, blockSize));
      QuotientAtLeast(promptTokens - 2, blockSize, DirectBlocks(|hashes|, promptTokens, blockSize) + 1);
    }
  }

  /** Chunk and aligned modes capture as many hashed blocks as fit before the last
      aligned boundary strictly inside the prompt. */
  lemma AlignedKeyMeaning(hashes: seq<Digest>, promptTokens: int, blockSize: int, mode: Mode, alignment: int)
    requires DigestsOk(hashes) && blockSize > 0 && (mode.Chunk64? || mode.Aligned?)
    requires alignment > 0 && alignment % blockSize == 0 && promptTokens > 1
    ensures var r := FinalCaptureKey(hashes, promptTokens, blockSize, mode, alignment);
      var last := (promptTokens - 1) / alignment * alignment;
      && last < promptTokens <= last + alignment
      && r.Ok?
      && (r.value.None? <==> |hashes| == 0 || blockSize > last)
      && (r.value.Some? ==>
            var b := r.value.value.blocks;
            && 0 < b <= |hashes| && r.value.value.digest == hashes[b - 1] && b * blockSize <= last
            && (b < |hashes| ==> (b + 1) * blockSize > last))
  {
    var last := (promptTokens - 1) / alignment * alignment;
    var most := last / blockSize;
    QuotientBounds(promptTokens - 1, alignment);
    QuotientAtLeast(last, blockSize, 1);
    QuotientAtLeast(last, blockSize, Min(|hashes|, most));
    QuotientAtLeast(last, blockSize, Min(|hashes|, most) + 1);
  }

  /** When nothing is captured whatever the hashes, and when the call is an error. */
  lemma NoKeyMeaning(hashes: seq<Digest>, promptTokens: int, blockSize: int, mode: Mode, alignment: int)
    ensures var r := FinalCaptureKey(hashes, promptTokens, blockSize, mode, alignment);
      && (mode.Unknown? ==> r == Err(UnknownMode))
      && (mode.Direct? || mode.Hybrid64? ==> (r == Err(BlockSizeNotPositive) <==> blockSize <= 0))
      && (mode.Chunk64? || mode.Aligned? ==>
            && (r == Err(ModuloByZero) <==> alignment > 0 && blockSize == 0)
            && (alignment <= 0 || (blockSize > 0 && alignment % blockSize != 0) || (blockSize > 0 && promptTokens <= 1) ==>
                  r == Ok(None)))
  {
  }

  /** What each mode asks of a key of c blocks. */
  lemma EligibleMeaning(hashes: seq<Digest>, c: int, promptTokens: int, blockSize: int, mode: Mode, alignment: int, d: Option<Key>)
    requires DigestsOk(hashes) && blockSize > 0 && 0 < c <= |hashes| && !mode.Unknown?
    requires d.Some? ==> d.value.blocks > 0 && |d.value.digest| == 32
    ensures Eligible(hashes, c, promptTokens, blockSize, mode, alignment, d) <==>
      match mode
      case Direct => c * blockSize + 2 <= promptTokens
      case Hybrid64 =>
        && c * blockSize + 2 <= promptTokens && alignment > 0
        && (c * blockSize % alignment == 0 || (d.Some? && d.value.blocks == c && d.value.digest == hashes[c - 1]))
      case _ => c * blockSize < promptTokens && alignment > 0 && c * blockSize % alignment == 0
  {
  }
}
