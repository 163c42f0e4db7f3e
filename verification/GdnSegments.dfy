/** Segment boundaries of a resumed prefill (gdn_prefix.py, lines 181-207). A
    request that fast-forwards over a cached prefix must split its remaining
    tokens where the cold run, one scheduler chunk at a time, would. */
module GdnSegments {
  import opened Outcome
  import opened Arithmetic
  import opened GdnPrefix
  import opened GdnPrefill

  /** Tokens covered by the direct final key of a prompt of this length. */
  function DirectTokens(available: nat, tokens: int, blockSize: int): int
    requires blockSize > 0
  {
    DirectBlocks(available, tokens, blockSize) * blockSize
  }

  /** It is the largest multiple of the block size that the hashes cover and that
      leaves two tokens to replay. */
  lemma DirectTokensLargest(available: nat, tokens: int, blockSize: int, blocks: nat)
    requires blockSize > 0
    ensures var d := DirectTokens(available, tokens, blockSize);
      && 0 <= d && d % blockSize == 0
      && (d > 0 ==> d <= tokens - 2 && d <= available * blockSize)
      && (blocks <= available && blocks * blockSize <= tokens - 2 ==> blocks * blockSize <= d)
  {
    var c := DirectBlocks(available, tokens, blockSize);
    DivUnique(c * blockSize, blockSize, c, 0);
    MulOrder(0, c, blockSize);
    MulOrder(c, available, blockSize);
    MulOrder(0, blocks, blockSize);
    if tokens >= 2 {
      QuotientAtLeast(tokens - 2, blockSize, c);
      QuotientAtLeast(tokens - 2, blockSize, blocks);
      if blocks <= c {
        MulOrder(blocks, c, blockSize);
      }
    }
  }

  lemma DirectTokensGrow(available: nat, s: int, t: int, blockSize: int)
    requires blockSize > 0 && s <= t
    ensures DirectTokens(available, s, blockSize) <= DirectTokens(available, t, blockSize)
  {
    var c := DirectBlocks(available, s, blockSize);
    DirectTokensLargest(available, s, blockSize, 0);
    DirectTokensLargest(available, t, blockSize, c);
    if c == 0 {
      DirectTokensLargest(available, t, blockSize, 0);
    } else {
      MulAtLeast(c, blockSize);
    }
  }

  /** Where the scheduler ends a chunk of the cold run. */
  ghost predicate IsStepEnd(s: int, end: int, chunk: int)
    requires chunk > 0
  {
    s == end || (0 < s < end && s % chunk == 0)
  }

  ghost predicate IsMark(available: nat, x: int, end: int, blockSize: int, chunk: int)
    requires blockSize > 0 && chunk > 0
  {
    x % chunk == 0 || exists s :: IsStepEnd(s, end, chunk) && DirectTokens(available, s, blockSize) == x
  }

  /** The boundaries strictly between context and end, in absolute tokens. */
  ghost function Marks(available: nat, context: int, end: int, blockSize: int, chunk: int): (m: set<int>)
    requires blockSize > 0 && chunk > 0
  {
    set x | context < x < end && IsMark(available, x, end, blockSize, chunk)
  }

  function Shifted(s: seq<int>, delta: int): (r: seq<int>)
    ensures |r| == |s| && forall i :: 0 <= i < |r| ==> r[i] == s[i] + delta
  {
    seq(|s|, i requires 0 <= i < |s| => s[i] + delta)
  }

  /** Adds the boundary that a step ending here captures. */
  method AddDirect(hashes: seq<Digest>, stepEnd: int, blockSize: int, boundaries: set<int>)
    returns (r: Result<set<int>, Error>)
    requires blockSize > 0
    ensures DigestsOk(hashes) ==> r.Ok?
    ensures r.Ok? && DigestsOk(hashes) ==>
      forall x :: x in r.value <==> x in boundaries || (x > 0 && x == DirectTokens(|hashes|, stepEnd, blockSize))
  {
    var key := FinalCaptureKey(hashes, stepEnd, blockSize, Direct, blockSize);
    if key.Err? {
      if DigestsOk(hashes) {
        DirectClosedForm(hashes, stepEnd, blockSize, Direct, blockSize);
      }
      return Err(key.error);
    }
    if DigestsOk(hashes) {
      DirectClosedForm(hashes, stepEnd, blockSize, Direct, blockSize);
      DirectTokensLargest(|hashes|, stepEnd, blockSize, 0);
      MulAtLeast(Positive(DirectBlocks(|hashes|, stepEnd, blockSize)), blockSize);
    }
    if key.value.Some? {
      return Ok(boundaries + {key.value.value.blocks * blockSize});
    }
    return Ok(boundaries);
  }

  function Positive(c: nat): (r: nat)
    ensures r >= 1
  {
    if c == 0 then 1 else c
  }

  /** The offsets, counted from the context, at which a resumed prefill splits. */
  method CanonicalDirectSegmentOffsets(hashes: seq<Digest>, context: int, end: int, blockSize: int, chunk: int)
    returns (r: Result<seq<int>, Error>)
    ensures context < 0 || end < 0 ==> r == Err(NegativePosition)
    ensures context >= 0 && end >= 0 && (blockSize <= 0 || chunk <= 0) ==> r == Err(SizesNotPositive)
    ensures context >= 0 && end >= 0 && blockSize > 0 && chunk > 0 && chunk % blockSize != 0 ==> r == Err(ChunkNotMultipleOfBlock)
    ensures 0 <= context && 0 <= end && blockSize > 0 && chunk > 0 && chunk % blockSize == 0 && DigestsOk(hashes) ==>
      r == Ok(Shifted(Sorted(Marks(|hashes|, context, end, blockSize, chunk)), -context))
  {
    hide Sorted, IsMark, DirectTokens;
    if context < 0 || end < 0 {
      return Err(NegativePosition);
    }
    if blockSize <= 0 || chunk <= 0 {
      return Err(SizesNotPositive);
    }
    if chunk % blockSize != 0 {
      return Err(ChunkNotMultipleOfBlock);
    }
    if end <= context {
      assert Marks(|hashes|, context, end, blockSize, chunk) == {};
      SortedSize({});
      return Ok([]);
    }
    var boundaries: set<int> := {};
    var stepEnds: set<int> := {};
    var stepEnd := chunk;
    while stepEnd < end
      invariant stepEnd >= chunk && stepEnd % chunk == 0
      invariant forall s :: s in stepEnds <==> 0 < s < stepEnd && s < end && s % chunk == 0
      invariant DigestsOk(hashes) ==> HoldsDirect(boundaries, stepEnds, |hashes|, blockSize)
    {
      var added := AddDirect(hashes, stepEnd, blockSize, boundaries);
      if added.Err? {
        return Err(added.error);
      }
      boundaries, stepEnds := added.value, stepEnds + {stepEnd};
      NextMultiple(stepEnd, chunk);
      stepEnd := stepEnd + chunk;
    }
    var added := AddDirect(hashes, end, blockSize, boundaries);
    if added.Err? {
      return Err(added.error);
    }
    boundaries := added.value + stepEnds;
    var kept := set x | x in boundaries && context < x < end;
    if DigestsOk(hashes) {
      KeptAreMarks(kept, boundaries, added.value, stepEnds, |hashes|, context, end, blockSize, chunk);
    }
    return Ok(Shifted(Sorted(kept), -context));
  }

  ghost predicate HoldsDirect(boundaries: set<int>, stepEnds: set<int>, available: nat, blockSize: int)
    requires blockSize > 0
  {
    forall x :: x in boundaries <==> x > 0 && exists s :: s in stepEnds && x == DirectTokens(available, s, blockSize)
  }

  lemma NextMultiple(c: int, chunk: int)
    requires chunk > 0 && c % chunk == 0
    ensures (c + chunk) % chunk == 0
    ensures forall x :: c < x < c + chunk ==> x % chunk != 0
  {
    DivUnique(c + chunk, chunk, c / chunk + 1, 0);
    forall x | c < x < c + chunk
      ensures x % chunk != 0
    {
      DivUnique(x, chunk, c / chunk, x - c);
    }
  }

  lemma KeptAreMarks(kept: set<int>, boundaries: set<int>, direct: set<int>, stepEnds: set<int>, available: nat,
      context: int, end: int, blockSize: int, chunk: int)
    requires blockSize > 0 && chunk > 0 && 0 <= context < end
    requires forall s :: s in stepEnds <==> 0 < s < end && s % chunk == 0
    requires HoldsDirect(direct, stepEnds + {end}, available, blockSize)
    requires boundaries == direct + stepEnds && kept == set x | x in boundaries && context < x < end
    ensures kept == Marks(available, context, end, blockSize, chunk)
  {
    hide DirectTokens;
    forall x | context < x < end
      ensures x in boundaries <==> IsMark(available, x, end, blockSize, chunk)
    {
      assert forall s :: s in stepEnds + {end} <==> IsStepEnd(s, end, chunk);
    }
  }

  // ---------------------------------------------------------------------
  // A resumed run splits where the cold run does
  // ---------------------------------------------------------------------

  lemma MarksAligned(available: nat, context: int, end: int, blockSize: int, chunk: int, x: int)
    requires blockSize > 0 && chunk > 0 && chunk % blockSize == 0 && context >= 0
    requires x in Marks(available, context, end, blockSize, chunk)
    ensures x % blockSize == 0 && context < x < end
  {
    if x % chunk == 0 {
      MultipleOfMultiple(x / chunk, chunk, blockSize);
    } else {
      var s :| IsStepEnd(s, end, chunk) && DirectTokens(available, s, blockSize) == x;
      DirectTokensLargest(available, s, blockSize, 0);
    }
  }

  /** The cold boundaries beyond the context, in order, are exactly the resumed
      run's offsets moved back by the context; the rest lie at or before it. */
  lemma WarmIsColdBeyondContext(available: nat, context: int, end: int, blockSize: int, chunk: int)
    requires blockSize > 0 && chunk > 0 && context >= 0
    ensures var cold := Sorted(Marks(available, 0, end, blockSize, chunk));
      var warm := Shifted(Sorted(Marks(available, context, end, blockSize, chunk)), -context);
      exists k :: SplitsAt(cold, k, context) && cold[k..] == Shifted(warm, context)
  {
    hide IsMark, Sorted;
    var all := Marks(available, 0, end, blockSize, chunk);
    var beyond := Marks(available, context, end, blockSize, chunk);
    assert beyond == set x | x in all && x > context;
    var k := SortedSplit(all, context, beyond);
    var warm := Shifted(Sorted(beyond), -context);
    assert Shifted(warm, context) == Sorted(beyond);
    assert SplitsAt(Sorted(all), k, context) && Sorted(all)[k..] == Shifted(warm, context);
  }

  lemma SortedSplit(all: set<int>, context: int, beyond: set<int>) returns (k: nat)
    requires beyond == set x | x in all && x > context
    ensures SplitsAt(Sorted(all), k, context) && Sorted(all)[k..] == Sorted(beyond)
  {
    hide Sorted;
    var before := set x | x in all && x <= context;
    var a, b := Sorted(before), Sorted(beyond);
    forall i | 0 <= i < |a|
      ensures a[i] <= context
    {
      assert a[i] in a;
    }
    forall i | 0 <= i < |b|
      ensures b[i] > context
    {
      assert b[i] in b;
    }
    AscendingUnique(Sorted(all), a + b);
    k := |a|;
  }

  ghost predicate SplitsAt(s: seq<int>, k: int, x: int) {
    0 <= k <= |s| && (forall i :: 0 <= i < k ==> s[i] <= x) && forall i :: k <= i < |s| ==> s[i] > x
  }

  // ---------------------------------------------------------------------
  // One forward over everything, or one per scheduler chunk
  // ---------------------------------------------------------------------

  /** The boundaries when each scheduler chunk runs by itself, with its own
      segments, and ends where the next one starts. */
  ghost function SeparateMarks(available: nat, from: int, n: int, blockSize: int, chunk: int): set<int>
    requires blockSize > 0 && chunk > 0
    decreases n - from
  {
    if from >= n then {}
    else
      var end := Min(from + chunk, n);
      Marks(available, from, end, blockSize, chunk)
      + (if end < n then {end} else {})
      + SeparateMarks(available, end, n, blockSize, chunk)
  }

  /** Inside one chunk only the state captured at its end gives a boundary. */
  lemma ChunkMarks(available: nat, from: int, end: int, blockSize: int, chunk: int, x: int)
    requires blockSize > 0 && chunk > 0 && from >= 0 && from % chunk == 0 && from < end <= from + chunk
    ensures x in Marks(available, from, end, blockSize, chunk)
      <==> from < x < end && x == DirectTokens(available, end, blockSize)
  {
    hide DirectTokens;
    NextMultiple(from, chunk);
    if x in Marks(available, from, end, blockSize, chunk) {
      var s :| IsStepEnd(s, end, chunk) && DirectTokens(available, s, blockSize) == x;
      DirectTokensLargest(available, s, blockSize, 0);
      assert s == end;
    } else {
      assert IsStepEnd(end, end, chunk);
    }
  }

  function ChunkEnd(x: int, n: int, chunk: int): int
    requires chunk > 0
  {
    Min(x / chunk * chunk + chunk, n)
  }

  lemma ChunkEndBounds(x: int, n: int, chunk: int)
    requires chunk > 0 && 0 <= x < n
    ensures x < ChunkEnd(x, n, chunk) <= n && IsStepEnd(ChunkEnd(x, n, chunk), n, chunk)
    ensures ChunkEnd(x, n, chunk) <= x - x % chunk + chunk
    ensures ChunkEnd(x, n, chunk) < n ==> ChunkEnd(x, n, chunk) == x - x % chunk + chunk
  {
    var q := x / chunk;
    QuotientBounds(x, chunk);
    DivUnique((q + 1) * chunk, chunk, q + 1, 0);
  }

  lemma ChunkEndInside(x: int, from: int, n: int, chunk: int)
    requires chunk > 0 && from >= 0 && from % chunk == 0 && from <= x < from + chunk
    ensures ChunkEnd(x, n, chunk) == Min(from + chunk, n)
  {
    DivUnique(x, chunk, from / chunk, x - from);
  }

  lemma {:induction false} SeparateAt(available: nat, from: int, n: int, blockSize: int, chunk: int, x: int)
    requires blockSize > 0 && chunk > 0 && from >= 0 && from % chunk == 0
    ensures x in SeparateMarks(available, from, n, blockSize, chunk)
      <==> from < x < n && (x % chunk == 0 || x == DirectTokens(available, ChunkEnd(x, n, chunk), blockSize))
    decreases n - from
  {
    hide DirectTokens, Marks, ChunkEnd;
    if from < n {
      var end := Min(from + chunk, n);
      ChunkMarks(available, from, end, blockSize, chunk, x);
      NextMultiple(from, chunk);
      if end == n {
        assert SeparateMarks(available, end, n, blockSize, chunk) == {};
      } else {
        SeparateAt(available, end, n, blockSize, chunk, x);
      }
      if from <= x < from + chunk {
        ChunkEndInside(x, from, n, chunk);
      }
    }
  }

  /** The last boundary a cold run can capture, for blocks of one token. */
  function LastCaptured(available: nat, n: int): int {
    Min(available, n - 2)
  }

  /** With blocks of one token, a capture two tokens before the end of a longer
      prompt, or at the last hashed token, can be the last token of a chunk. */
  predicate Straddles(available: nat, n: int, blockSize: int, chunk: int)
    requires chunk > 0
  {
    blockSize == 1 && chunk >= 2 && LastCaptured(available, n) > 0 && LastCaptured(available, n) % chunk == chunk - 1
  }

  lemma SeparateInWhole(available: nat, n: int, blockSize: int, chunk: int, x: int)
    requires blockSize > 0 && chunk > 0
    requires x in SeparateMarks(available, 0, n, blockSize, chunk)
    ensures x in Marks(available, 0, n, blockSize, chunk)
  {
    hide DirectTokens, ChunkEnd, SeparateMarks;
    SeparateAt(available, 0, n, blockSize, chunk, x);
    ChunkEndBounds(x, n, chunk);
  }

  /** A boundary of the whole run that is not a chunk end was captured at the end
      of some step s; it is then also captured at the end of its own chunk,
      unless it is the token just before that end. */
  lemma WholeInSeparate(available: nat, n: int, blockSize: int, chunk: int, x: int)
    requires blockSize > 0 && chunk > 0 && chunk % blockSize == 0
    requires x in Marks(available, 0, n, blockSize, chunk) && !Straddles(available, n, blockSize, chunk)
    ensures x in SeparateMarks(available, 0, n, blockSize, chunk)
  {
    hide DirectTokens, ChunkEnd, SeparateMarks, Straddles, IsStepEnd;
    SeparateAt(available, 0, n, blockSize, chunk, x);
    if x % chunk != 0 {
      var s :| IsStepEnd(s, n, chunk) && DirectTokens(available, s, blockSize) == x;
      CapturedInOwnChunk(available, n, s, x, blockSize, chunk);
    }
  }

  lemma CapturedInOwnChunk(available: nat, n: int, s: int, x: int, blockSize: int, chunk: int)
    requires blockSize > 0 && chunk > 0 && chunk % blockSize == 0 && 0 < x < n && x % chunk != 0
    requires IsStepEnd(s, n, chunk) && DirectTokens(available, s, blockSize) == x
    requires !Straddles(available, n, blockSize, chunk)
    ensures x == DirectTokens(available, ChunkEnd(x, n, chunk), blockSize)
  {
    hide DirectTokens, ChunkEnd, Straddles, IsStepEnd;
    var end := ChunkEnd(x, n, chunk);
    DirectTokensLargest(available, s, blockSize, 0);
    StepAfter(x, s, n, chunk);
    DirectTokensGrow(available, end, s, blockSize);
    if s != end {
      RoomInChunk(available, n, s, x, blockSize, chunk);
      ExactBlocks(x, available, blockSize);
      DirectTokensLargest(available, end, blockSize, x / blockSize);
    }
  }

  lemma ExactBlocks(x: int, available: nat, blockSize: int)
    requires blockSize > 0 && x >= 0 && x % blockSize == 0 && x <= available * blockSize
    ensures 0 <= x / blockSize <= available && x / blockSize * blockSize == x
  {
    if x / blockSize > available {
      MulOrder(available + 1, x / blockSize, blockSize);
    }
  }

  lemma StepAfter(x: int, s: int, n: int, chunk: int)
    requires chunk > 0 && 0 < x < s && x < n && IsStepEnd(s, n, chunk)
    ensures x < ChunkEnd(x, n, chunk) <= s
  {
    ChunkEndBounds(x, n, chunk);
    if s < n {
      QuotientBounds(x, chunk);
      if s / chunk < x / chunk + 1 {
        MulOrder(s / chunk, x / chunk, chunk);
      } else {
        MulOrder(x / chunk + 1, s / chunk, chunk);
      }
    }
  }

  /** A captured boundary strictly inside a chunk leaves two tokens of it, if the
      capture was not made at the chunk's own end. */
  lemma RoomInChunk(available: nat, n: int, s: int, x: int, blockSize: int, chunk: int)
    requires blockSize > 0 && chunk > 0 && chunk % blockSize == 0 && 0 < x < n && x % chunk != 0
    requires ChunkEnd(x, n, chunk) < s && IsStepEnd(s, n, chunk)
    requires DirectTokens(available, s, blockSize) == x && !Straddles(available, n, blockSize, chunk)
    ensures x <= ChunkEnd(x, n, chunk) - 2
  {
    hide DirectTokens, ChunkEnd, Straddles;
    var end := ChunkEnd(x, n, chunk);
    DirectTokensLargest(available, s, blockSize, 0);
    ChunkEndBounds(x, n, chunk);
    if x == end - 1 {
      OneBefore(x, blockSize, chunk);
      LastToken(available, n, s, x, chunk);
    }
  }

  lemma OneBefore(x: int, blockSize: int, chunk: int)
    requires blockSize > 0 && chunk > 0 && chunk % blockSize == 0
    requires x % blockSize == 0 && x % chunk == chunk - 1
    ensures blockSize == 1
  {
    MultipleOfMultiple(x / chunk + 1, chunk, blockSize);
    assert (x / chunk + 1) * chunk == x + 1;
    if blockSize > 1 {
      DivUnique(x + 1, blockSize, x / blockSize, 1);
    }
  }

  lemma OneTokenBlocks(available: nat, s: int)
    ensures DirectTokens(available, s, 1) == if s < 2 then 0 else Min(available, s - 2)
  {
  }

  lemma LastToken(available: nat, n: int, s: int, x: int, chunk: int)
    requires chunk >= 2 && 0 < x && x % chunk == chunk - 1
    requires IsStepEnd(s, n, chunk) && x < s <= n && DirectTokens(available, s, 1) == x
    ensures Straddles(available, n, 1, chunk)
  {
    hide DirectTokens;
    OneTokenBlocks(available, s);
    if x == s - 2 && s < n {
      TwoAfter(x, chunk);
      assert false;
    }
  }

  lemma TwoAfter(x: int, chunk: int)
    requires chunk >= 2 && x % chunk == chunk - 1
    ensures (x + 2) % chunk == 1 % chunk
  {
    var q := x / chunk;
    if chunk == 2 {
    } else {
      DivUnique(x + 2, chunk, q + 1, 1);
    }
  }

  lemma StraddledIsLost(available: nat, n: int, chunk: int)
    requires chunk > 0 && Straddles(available, n, 1, chunk)
    ensures var x := LastCaptured(available, n);
      x in Marks(available, 0, n, 1, chunk) && x !in SeparateMarks(available, 0, n, 1, chunk)
  {
    hide DirectTokens, ChunkEnd, SeparateMarks;
    var x := LastCaptured(available, n);
    OneTokenBlocks(available, n);
    assert IsStepEnd(n, n, chunk);
    SeparateAt(available, 0, n, 1, chunk, x);
    ChunkEndBounds(x, n, chunk);
    OneTokenBlocks(available, ChunkEnd(x, n, chunk));
  }

  /** Running the chunks separately gives the same boundaries as one forward for
      every prompt and any number of hashes, except when a one-token block is
      captured as the last token of a chunk. */
  lemma SeparateChunksAgree(available: nat, n: int, blockSize: int, chunk: int)
    requires blockSize > 0 && chunk > 0 && chunk % blockSize == 0
    ensures SeparateMarks(available, 0, n, blockSize, chunk) == Marks(available, 0, n, blockSize, chunk)
      <==> !Straddles(available, n, blockSize, chunk)
  {
    hide Marks, SeparateMarks, Straddles;
    if Straddles(available, n, blockSize, chunk) {
      assert blockSize == 1 by { StraddlesOne(available, n, blockSize, chunk); }
      StraddledIsLost(available, n, chunk);
    } else {
      forall x
        ensures x in SeparateMarks(available, 0, n, blockSize, chunk) <==> x in Marks(available, 0, n, blockSize, chunk)
      {
        if x in Marks(available, 0, n, blockSize, chunk) {
          WholeInSeparate(available, n, blockSize, chunk, x);
        }
        if x in SeparateMarks(available, 0, n, blockSize, chunk) {
          SeparateInWhole(available, n, blockSize, chunk, x);
        }
      }
    }
  }

  lemma StraddlesOne(available: nat, n: int, blockSize: int, chunk: int)
    requires chunk > 0 && Straddles(available, n, blockSize, chunk)
    ensures blockSize == 1
  {
  }

  /** Blocks of one token, chunks of four, nine tokens: one forward also splits at
      token seven, separate chunks do not. */
  lemma OneTokenBlocksDiffer()
    ensures 7 in Marks(9, 0, 9, 1, 4) && 7 !in SeparateMarks(9, 0, 9, 1, 4)
  {
    assert LastCaptured(9, 9) == 7;
    StraddledIsLost(9, 9, 4);
  }
}
