/** Prefix attention over a paged key/value cache (paged_attn.py): queries split
    at the strict block boundary, context tiles aligned to absolute positions,
    and an online softmax updated in place tile by tile. One head. */
module PrefixAttention {
  import opened Outcome
  import opened Vectors
  import opened Exponential
  import opened Arithmetic
  import opened Softmax
  import opened PagedCache

  datatype KV = KV(k: Vec, v: Vec)

  // ---------------------------------------------------------------------
  // Query segments
  // ---------------------------------------------------------------------

  datatype Segment = Segment(start: nat, end: nat, context: nat)

  /** The last checkpoint a request of n tokens may restore from. */
  function StrictPrefix(n: nat, blockSize: nat): (l: nat)
    requires n > 0 && blockSize > 0
    ensures l < n <= l + blockSize && l % blockSize == 0
  {
    var blocks := (n - 1) / blockSize;
    DivUnique(blocks * blockSize, blockSize, blocks, 0);
    blocks * blockSize
  }

  /** Split a query at the strict prefix-cache checkpoint, if it crosses it. */
  function StrictPrefixQuerySegments(contextLen: nat, queryLen: int, blockSize: nat): (s: seq<Segment>)
    requires blockSize > 0
    ensures |s| <= 2 && (|s| == 0 <==> queryLen <= 0)
    ensures |s| > 0 ==> s[0].start == 0 && s[|s| - 1].end == queryLen
    ensures |s| == 2 ==> s[0].end == s[1].start && s[1].context == StrictPrefix(contextLen + queryLen, blockSize)
    ensures queryLen > 0 ==> (|s| == 2 <==> contextLen < StrictPrefix(contextLen + queryLen, blockSize))
    ensures forall i :: 0 <= i < |s| ==> s[i].start < s[i].end && s[i].context == contextLen + s[i].start
  {
    if queryLen <= 0 then []
    else
      var total := contextLen + queryLen;
      var strict := (total - 1) / blockSize * blockSize;
      var split := strict - contextLen;
      if 0 < split < queryLen then
        [Segment(0, split, contextLen), Segment(split, queryLen, strict)]
      else
        [Segment(0, queryLen, contextLen)]
  }

  // ---------------------------------------------------------------------
  // Context tiles
  // ---------------------------------------------------------------------

  datatype Span = Span(blockStart: nat, blockEnd: nat, prefixStart: nat, prefixEnd: nat)

  function SpanFrom(start: nat, blockLen: nat, total: nat, tile: nat): Span {
    var end := Min(start + tile, total);
    Span(Min(start, blockLen), Min(end, blockLen), Max(0, start - blockLen), Max(0, end - blockLen))
  }

  /** The spans from position start on. */
  function SpansFrom(start: nat, blockLen: nat, total: nat, tile: nat): seq<Span>
    requires tile > 0
    decreases total - start
  {
    if start >= total then [] else [SpanFrom(start, blockLen, total, tile)] + SpansFrom(start + tile, blockLen, total, tile)
  }

  method PrefixContextTileSpans(blockLen: int, prefixLen: int, tile: int) returns (r: Option<seq<Span>>)
    ensures r.None? <==> blockLen < 0 || prefixLen < 0 || tile <= 0
    ensures r.Some? ==> r.value == SpansFrom(0, blockLen, blockLen + prefixLen, tile)
  {
    if blockLen < 0 || prefixLen < 0 || tile <= 0 {
      return None;
    }
    var spans := [];
    var total := blockLen + prefixLen;
    var tileStart := 0;
    while tileStart < total
      invariant 0 <= tileStart
      invariant spans + SpansFrom(tileStart, blockLen, total, tile) == SpansFrom(0, blockLen, total, tile)
      decreases total - tileStart
    {
      var tileEnd := Min(tileStart + tile, total);
      var blockStart := Min(tileStart, blockLen);
      var blockEnd := Min(tileEnd, blockLen);
      var prefixStart := Max(0, tileStart - blockLen);
      var prefixEnd := Max(0, tileEnd - blockLen);
      spans := spans + [Span(blockStart, blockEnd, prefixStart, prefixEnd)];
      tileStart := tileStart + tile;
    }
    return Some(spans);
  }

  /** A sequence cut into tiles of the given size, from position start on. */
  function TilesFrom<T>(s: seq<T>, start: nat, tile: nat): (t: seq<seq<T>>)
    requires tile > 0
    decreases |s| - start
  {
    if start >= |s| then [] else [s[start..Min(start + tile, |s|)]] + TilesFrom(s, start + tile, tile)
  }

  function SpanTokens<T>(span: Span, cached: seq<T>, prefix: seq<T>): seq<T>
    requires span.blockStart <= span.blockEnd <= |cached| && span.prefixStart <= span.prefixEnd <= |prefix|
  {
    cached[span.blockStart..span.blockEnd] + prefix[span.prefixStart..span.prefixEnd]
  }

  /** The spans reconstruct the logical context tile by tile, wherever the
      boundary between the block cache and the preceding query tokens falls. */
  lemma {:induction false} SpansAreTiles<T>(cached: seq<T>, prefix: seq<T>, start: nat, tile: nat)
    requires tile > 0
    ensures var spans := SpansFrom(start, |cached|, |cached + prefix|, tile);
      var tiles := TilesFrom(cached + prefix, start, tile);
      && |spans| == |tiles|
      && forall i :: 0 <= i < |spans| ==>
           && spans[i].blockStart <= spans[i].blockEnd <= |cached|
           && spans[i].prefixStart <= spans[i].prefixEnd <= |prefix|
           && SpanTokens(spans[i], cached, prefix) == tiles[i]
           && (spans[i].blockStart < spans[i].blockEnd || spans[i].prefixStart < spans[i].prefixEnd)
    decreases |cached + prefix| - start
  {
    if start < |cached + prefix| {
      SpansAreTiles(cached, prefix, start + tile, tile);
      SpanIsTile(cached, prefix, start, Min(start + tile, |cached + prefix|));
    }
  }

  lemma SpanIsTile<T>(cached: seq<T>, prefix: seq<T>, start: nat, end: nat)
    requires start < end <= |cached + prefix|
    ensures (cached + prefix)[start..end]
            == cached[Min(start, |cached|)..Min(end, |cached|)]
               + prefix[Max(0, start - |cached|)..Max(0, end - |cached|)]
  {
    var n := |cached|;
    if end <= n {
      assert (cached + prefix)[start..end] == cached[start..end];
    } else if start >= n {
      assert (cached + prefix)[start..end] == prefix[start - n..end - n];
    } else {
      assert (cached + prefix)[start..end] == cached[start..] + prefix[..end - n];
    }
  }

  // ---------------------------------------------------------------------
  // What one query row of a segment consumes
  // ---------------------------------------------------------------------

  /** A tile as the update sees it: context tiles are visible to every row,
      current tiles start at position keyStart of the segment and are masked. */
  datatype Tile = Context(kvs: seq<KV>) | Current(kvs: seq<KV>, keyStart: nat)

  predicate KeyShape(kvs: seq<KV>, dk: nat) {
    forall i :: 0 <= i < |kvs| ==> |kvs[i].k| == dk
  }

  predicate KVShape(kvs: seq<KV>, dk: nat, dv: nat) {
    KeyShape(kvs, dk) && forall i :: 0 <= i < |kvs| ==> |kvs[i].v| == dv
  }

  lemma SliceShape(kvs: seq<KV>, dk: nat, dv: nat, from: nat, to: nat)
    requires KVShape(kvs, dk, dv) && from <= to <= |kvs|
    ensures KVShape(kvs[from..to], dk, dv)
  {
  }

  function Values(kvs: seq<KV>): (vs: seq<Vec>)
    ensures |vs| == |kvs|
  {
    seq(|kvs|, i requires 0 <= i < |kvs| => kvs[i].v)
  }

  /** Unmasked scores. */
  function Scores(q: Vec, kvs: seq<KV>): (ss: seq<Score>)
    requires KeyShape(kvs, |q|)
    ensures |ss| == |kvs|
  {
    seq(|kvs|, i requires 0 <= i < |kvs| => Fin(Dot(q, kvs[i].k)))
  }

  /** A score as the kernels compute it, scaling after the product. */
  function RawScore(q: Vec, k: Vec, scale: real): real
    requires |q| == |k|
  {
    Dot(q, k) * scale
  }

  lemma ScaledScore(q: Vec, k: Vec, scale: real)
    requires |q| == |k|
    ensures RawScore(q, k, scale) == Dot(Scale(scale, q), k)
  {
    hide Dot, Scale;
    DotScaleLeft(scale, q, k);
  }

  /** Scores of the keys from position keyStart of the segment for query row r:
      later keys are masked. */
  function MaskedScores(q: Vec, kvs: seq<KV>, keyStart: nat, r: nat): (ss: seq<Score>)
    requires KeyShape(kvs, |q|)
    ensures |ss| == |kvs|
  {
    seq(|kvs|, i requires 0 <= i < |kvs| => if keyStart + i > r then NegInf else Fin(Dot(q, kvs[i].k)))
  }

  function TileScores(q: Vec, r: nat, t: Tile): (ss: seq<Score>)
    requires KeyShape(t.kvs, |q|)
    ensures |ss| == |t.kvs|
  {
    match t
    case Context(kvs) => Scores(q, kvs)
    case Current(kvs, keyStart) => MaskedScores(q, kvs, keyStart, r)
  }

  function ContextTiles(parts: seq<seq<KV>>): (t: seq<Tile>)
    ensures |t| == |parts|
  {
    seq(|parts|, i requires 0 <= i < |parts| => Context(parts[i]))
  }

  function CurrentTilesFrom(key: seq<KV>, start: nat, tile: nat): seq<Tile>
    requires tile > 0
    decreases |key| - start
  {
    if start >= |key| then []
    else [Current(key[start..Min(start + tile, |key|)], start)] + CurrentTilesFrom(key, start + tile, tile)
  }

  /** The tile sequence of one segment: the logical context, cut at absolute
      multiples of the tile size, then the segment's own keys. */
  function SegmentTiles(context: seq<KV>, key: seq<KV>, tile: nat): seq<Tile>
    requires tile > 0
  {
    ContextTiles(TilesFrom(context, 0, tile)) + CurrentTilesFrom(key, 0, tile)
  }

  /** Tile k of the context holds its tokens from k * tile on, tile of them or what
      is left; so tiles start at absolute multiples of the tile size. */
  lemma {:induction false} TilesAt<T>(s: seq<T>, start: nat, tile: nat, k: nat, at: nat)
    requires tile > 0 && at == start + k * tile
    ensures k < |TilesFrom(s, start, tile)| <==> at < |s|
    ensures at < |s| ==> TilesFrom(s, start, tile)[k] == s[at..Min(at + tile, |s|)]
    decreases k
  {
    if k > 0 {
      OneLess(k, tile);
      if start < |s| {
        TilesAt(s, start + tile, tile, k - 1, at);
      }
    }
  }

  lemma {:induction false} CurrentTilesAt(key: seq<KV>, start: nat, tile: nat, k: nat, at: nat)
    requires tile > 0 && at == start + k * tile
    ensures k < |CurrentTilesFrom(key, start, tile)| <==> at < |key|
    ensures at < |key| ==> CurrentTilesFrom(key, start, tile)[k] == Current(key[at..Min(at + tile, |key|)], at)
    decreases k
  {
    if k > 0 {
      OneLess(k, tile);
      if start < |key| {
        CurrentTilesAt(key, start + tile, tile, k - 1, at);
      }
    }
  }

  lemma OneLess(k: nat, tile: nat)
    requires k > 0
    ensures k * tile == tile + (k - 1) * tile && (k - 1) * tile >= 0
  {
    MulOrder(0, k - 1, tile);
  }

  // ---------------------------------------------------------------------
  // The tiles as the loops build them
  // ---------------------------------------------------------------------

  /** The reads of one span stay inside the block table, the cache and the
      preceding query tokens. */
  ghost predicate SpanReadable(span: Span, prefix: seq<KV>, cache: seq<seq<KV>>, table: seq<nat>, blockSize: nat)
    requires blockSize > 0
  {
    && (span.blockStart < span.blockEnd ==>
          Gatherable(cache, table, BlockOf(span.blockStart, blockSize), BlocksFor(span.blockEnd, blockSize), blockSize))
    && span.prefixStart <= span.prefixEnd <= |prefix|
  }

  /** Cached tokens gathered through the block table, then earlier query tokens. */
  function ReadSpan(span: Span, prefix: seq<KV>, cache: seq<seq<KV>>, table: seq<nat>, blockSize: nat): seq<KV>
    requires blockSize > 0 && SpanReadable(span, prefix, cache, table, blockSize)
  {
    (if span.blockStart < span.blockEnd then Gather(cache, table, span.blockStart, span.blockEnd, blockSize) else [])
    + prefix[span.prefixStart..span.prefixEnd]
  }

  ghost predicate Readable(prefix: seq<KV>, cache: seq<seq<KV>>, table: seq<nat>, blockContextLen: nat, blockSize: nat,
                           tile: nat)
    requires blockSize > 0 && tile > 0
  {
    var spans := SpansFrom(0, blockContextLen, blockContextLen + |prefix|, tile);
    forall i :: 0 <= i < |spans| ==> SpanReadable(spans[i], prefix, cache, table, blockSize)
  }

  /** The context tiles, span by span, as the physical cache delivers them. */
  function ReadTiles(prefix: seq<KV>, cache: seq<seq<KV>>, table: seq<nat>, blockContextLen: nat, blockSize: nat,
                     tile: nat): (t: seq<Tile>)
    requires blockSize > 0 && tile > 0 && Readable(prefix, cache, table, blockContextLen, blockSize, tile)
    ensures |t| == |SpansFrom(0, blockContextLen, blockContextLen + |prefix|, tile)|
  {
    var spans := SpansFrom(0, blockContextLen, blockContextLen + |prefix|, tile);
    seq(|spans|, i requires 0 <= i < |spans| => Context(ReadSpan(spans[i], prefix, cache, table, blockSize)))
  }

  /** Every tile the two loops of a segment present to the update, in order. */
  function LoopTiles(prefix: seq<KV>, key: seq<KV>, cache: seq<seq<KV>>, table: seq<nat>, blockContextLen: nat,
                     blockSize: nat, tile: nat): seq<Tile>
    requires blockSize > 0 && tile > 0 && Readable(prefix, cache, table, blockContextLen, blockSize, tile)
  {
    ReadTiles(prefix, cache, table, blockContextLen, blockSize, tile) + CurrentTilesFrom(key, 0, tile)
  }

  /** One span read from a cache that holds the tokens. */
  lemma ReadSpanTokens(span: Span, prefix: seq<KV>, cache: seq<seq<KV>>, table: seq<nat>, cached: seq<KV>, blockSize: nat)
    requires blockSize > 0 && CacheHolds(cache, table, cached, blockSize)
    requires span.blockStart <= span.blockEnd <= |cached| && span.prefixStart <= span.prefixEnd <= |prefix|
    ensures SpanReadable(span, prefix, cache, table, blockSize)
    ensures ReadSpan(span, prefix, cache, table, blockSize) == SpanTokens(span, cached, prefix)
  {
    hide CacheHolds, Gather, Gatherable;
    if span.blockStart < span.blockEnd {
      GatherReads(cache, table, cached, blockSize, span.blockStart, span.blockEnd);
    }
  }

  /** A cache that holds the tokens, in whatever blocks, delivers the logical
      context cut at absolute multiples of the tile size. */
  lemma ReadTilesAreLogical(prefix: seq<KV>, cache: seq<seq<KV>>, table: seq<nat>, cached: seq<KV>, blockSize: nat,
                            tile: nat)
    requires blockSize > 0 && tile > 0 && CacheHolds(cache, table, cached, blockSize)
    ensures Readable(prefix, cache, table, |cached|, blockSize, tile)
    ensures ReadTiles(prefix, cache, table, |cached|, blockSize, tile) == ContextTiles(TilesFrom(cached + prefix, 0, tile))
  {
    hide CacheHolds, SpansFrom, TilesFrom, SpanReadable, ReadSpan;
    var spans := SpansFrom(0, |cached|, |cached| + |prefix|, tile);
    SpansAreTiles(cached, prefix, 0, tile);
    forall i | 0 <= i < |spans|
      ensures SpanReadable(spans[i], prefix, cache, table, blockSize)
      ensures ReadSpan(spans[i], prefix, cache, table, blockSize) == TilesFrom(cached + prefix, 0, tile)[i]
    {
      ReadSpanTokens(spans[i], prefix, cache, table, cached, blockSize);
    }
  }

  lemma LoopTilesAreSegmentTiles(prefix: seq<KV>, key: seq<KV>, cache: seq<seq<KV>>, table: seq<nat>, cached: seq<KV>,
                                 blockSize: nat, tile: nat)
    requires blockSize > 0 && tile > 0 && CacheHolds(cache, table, cached, blockSize)
    ensures Readable(prefix, cache, table, |cached|, blockSize, tile)
    ensures LoopTiles(prefix, key, cache, table, |cached|, blockSize, tile) == SegmentTiles(cached + prefix, key, tile)
  {
    hide CacheHolds, Readable, ReadTiles;
    ReadTilesAreLogical(prefix, cache, table, cached, blockSize, tile);
  }

  /** Running any update of a whole segment's accumulators over a tile sequence.
      Nothing is assumed of the update: it sees all query rows at once. */
  function FoldSegment<A>(update: (A, seq<Vec>, Tile) -> A, start: A, qs: seq<Vec>, tiles: seq<Tile>): A {
    if |tiles| == 0 then start
    else update(FoldSegment(update, start, qs, tiles[..|tiles| - 1]), qs, tiles[|tiles| - 1])
  }

  /** Every tile is shown to the update exactly once, in order. */
  lemma FoldUnrolls<A>(update: (A, seq<Vec>, Tile) -> A, start: A, qs: seq<Vec>, tiles: seq<Tile>, t: Tile)
    ensures FoldSegment(update, start, qs, []) == start
    ensures FoldSegment(update, start, qs, tiles + [t]) == update(FoldSegment(update, start, qs, tiles), qs, t)
  {
    assert (tiles + [t])[..|tiles|] == tiles;
  }

  /** The kernel's own update is one of them: all rows of the segment at once. */
  ghost function KernelUpdate(E: real -> real): (seq<Option<Row>>, seq<Vec>, Tile) -> seq<Option<Row>> {
    (rows: seq<Option<Row>>, qs: seq<Vec>, t: Tile) =>
      seq(|rows|, r => if 0 <= r < |rows| && r < |qs| then OnlineStep(E, rows[r], qs[r], r, t) else None)
  }

  lemma {:induction false} KernelIsAFold(E: real -> real, qs: seq<Vec>, tiles: seq<Tile>, dv: nat, r: nat)
    requires r < |qs|
    ensures var rows := FoldSegment(KernelUpdate(E), seq(|qs|, _ => Some(EmptyRow(dv))), qs, tiles);
      |rows| == |qs| && rows[r] == OnlineRow(E, qs[r], r, tiles, dv)
  {
    hide OnlineStep;
    if |tiles| > 0 {
      KernelIsAFold(E, qs, tiles[..|tiles| - 1], dv, r);
    }
  }

  /** Running a per-tile update over a tile sequence for query q at row r. */
  function FoldRow<A>(update: (A, Vec, nat, Tile) -> A, start: A, q: Vec, r: nat, tiles: seq<Tile>): A {
    if |tiles| == 0 then start
    else update(FoldRow(update, start, q, r, tiles[..|tiles| - 1]), q, r, tiles[|tiles| - 1])
  }

  /** The online-softmax update; None stands for the not-a-number that a
      difference of infinities would leave. */
  ghost function OnlineStep(E: real -> real, acc: Option<Row>, q: Vec, r: nat, t: Tile): Option<Row> {
    if acc.Some? && KVShape(t.kvs, |q|, |acc.value.o|) && UpdateDefined(acc.value, TileScores(q, r, t))
    then Some(UpdateRow(E, acc.value, TileScores(q, r, t), Values(t.kvs)))
    else None
  }

  ghost function OnlineRow(E: real -> real, q: Vec, r: nat, tiles: seq<Tile>, dv: nat): Option<Row> {
    FoldRow(OnlineUpdate(E), Some(EmptyRow(dv)), q, r, tiles)
  }

  ghost function OnlineUpdate(E: real -> real): (Option<Row>, Vec, nat, Tile) -> Option<Row> {
    (acc: Option<Row>, q: Vec, r: nat, t: Tile) => OnlineStep(E, acc, q, r, t)
  }

  ghost predicate TilesShape(tiles: seq<Tile>, dk: nat, dv: nat) {
    forall i :: 0 <= i < |tiles| ==> KVShape(tiles[i].kvs, dk, dv)
  }

  ghost predicate TilesKeys(tiles: seq<Tile>, dk: nat) {
    forall i :: 0 <= i < |tiles| ==> KeyShape(tiles[i].kvs, dk)
  }

  ghost function AllScores(q: Vec, r: nat, tiles: seq<Tile>): (ss: seq<Score>)
    requires TilesKeys(tiles, |q|)
  {
    if |tiles| == 0 then []
    else AllScores(q, r, tiles[..|tiles| - 1]) + TileScores(q, r, tiles[|tiles| - 1])
  }

  ghost function AllTokens(tiles: seq<Tile>): seq<KV> {
    if |tiles| == 0 then [] else AllTokens(tiles[..|tiles| - 1]) + tiles[|tiles| - 1].kvs
  }

  /** As soon as the first tile shows the row one unmasked key, no update of the
      row is undefined, however many fully masked tiles follow, and the row
      summarises everything it was shown. */
  lemma {:induction false} OnlineRowSummarises(E: real -> real, q: Vec, r: nat, tiles: seq<Tile>, dv: nat)
    requires ExpLaw(E) && TilesShape(tiles, |q|, dv)
    requires |tiles| > 0 ==> HasFinite(TileScores(q, r, tiles[0]))
    ensures OnlineRow(E, q, r, tiles, dv).Some?
    ensures |OnlineRow(E, q, r, tiles, dv).value.o| == dv
    ensures Summarises(E, OnlineRow(E, q, r, tiles, dv).value, AllScores(q, r, tiles), Values(AllTokens(tiles)))
    ensures |tiles| > 0 ==> HasFinite(AllScores(q, r, tiles))
  {
    hide ExpLaw, Mass, UpdateRow, Summarises, TileScores;
    if |tiles| == 0 {
      assert Summarises(E, EmptyRow(dv), [], []) by { EmptySummarises(E, dv); }
      assert Values([]) == [];
    } else {
      var n := |tiles| - 1;
      OnlineRowSummarises(E, q, r, tiles[..n], dv);
      var row, ss, vs := OnlineRow(E, q, r, tiles[..n], dv).value, AllScores(q, r, tiles[..n]), Values(AllTokens(tiles[..n]));
      var t := tiles[n];
      StillFinite(E, row, ss, vs, TileScores(q, r, t), n > 0);
      assert KVShape(t.kvs, |q|, dv);
      assert Shape(Values(t.kvs), |t.kvs|, dv);
      UpdateSummarises(E, row, ss, vs, TileScores(q, r, t), Values(t.kvs));
      assert Values(AllTokens(tiles)) == vs + Values(t.kvs);
    }
  }

  lemma EmptySummarises(E: real -> real, dv: nat)
    ensures Summarises(E, EmptyRow(dv), [], [])
  {
  }

  lemma StillFinite(E: real -> real, row: Row, ss: seq<Score>, vs: seq<Vec>, next: seq<Score>, some: bool)
    requires Summarises(E, row, ss, vs)
    requires if some then HasFinite(ss) else HasFinite(next)
    ensures UpdateDefined(row, next) && HasFinite(ss + next)
  {
    hide Mass, Top;
    TopFinite(ss);
    TopFinite(next);
    if some {
      var i :| 0 <= i < |ss| && ss[i].Fin?;
      assert (ss + next)[i].Fin?;
    } else {
      var i :| 0 <= i < |next| && next[i].Fin?;
      assert (ss + next)[|ss| + i].Fin?;
    }
  }

  lemma LastTokens(t: seq<Tile>)
    ensures |t| == 0 ==> AllTokens(t) == []
    ensures |t| > 0 ==> AllTokens(t) == AllTokens(t[..|t| - 1]) + t[|t| - 1].kvs
  {
  }

  lemma {:induction false} TokensConcat(a: seq<Tile>, b: seq<Tile>)
    ensures AllTokens(a + b) == AllTokens(a) + AllTokens(b)
  {
    hide AllTokens;
    LastTokens(b);
    if |b| == 0 {
      assert a + b == a;
    } else {
      var n := |b| - 1;
      TokensConcat(a, b[..n]);
      var ab := a + b;
      LastTokens(ab);
      assert ab[..|ab| - 1] == a + b[..n] && ab[|ab| - 1] == b[n];
    }
  }

  lemma {:induction false} ScoresConcat(q: Vec, r: nat, a: seq<Tile>, b: seq<Tile>)
    requires TilesKeys(a, |q|) && TilesKeys(b, |q|)
    ensures TilesKeys(a + b, |q|)
    ensures AllScores(q, r, a + b) == AllScores(q, r, a) + AllScores(q, r, b)
  {
    hide TileScores, KeyShape;
    if |b| == 0 {
      assert a + b == a;
    } else {
      var n := |b| - 1;
      ScoresConcat(q, r, a, b[..n]);
      var ab := a + b;
      assert ab[..|ab| - 1] == a + b[..n];
      assert ab[|ab| - 1] == b[n];
      assert AllScores(q, r, b) == AllScores(q, r, b[..n]) + TileScores(q, r, b[n]);
    }
  }

  lemma AllConcat(q: Vec, r: nat, a: seq<Tile>, b: seq<Tile>)
    requires TilesKeys(a, |q|) && TilesKeys(b, |q|)
    ensures TilesKeys(a + b, |q|)
    ensures AllTokens(a + b) == AllTokens(a) + AllTokens(b)
    ensures AllScores(q, r, a + b) == AllScores(q, r, a) + AllScores(q, r, b)
  {
    hide AllTokens, AllScores;
    TokensConcat(a, b);
    ScoresConcat(q, r, a, b);
  }

  lemma AllSingle(q: Vec, r: nat, t: Tile, dv: nat)
    requires KVShape(t.kvs, |q|, dv)
    ensures AllTokens([t]) == t.kvs && AllScores(q, r, [t]) == TileScores(q, r, t)
  {
    assert [t][..0] == [];
  }

  lemma {:induction false} ContextTilesConsume(q: Vec, r: nat, s: seq<KV>, start: nat, tile: nat, dv: nat)
    requires tile > 0 && start <= |s| + tile && KVShape(s, |q|, dv)
    ensures var tiles := ContextTiles(TilesFrom(s, start, tile));
      && TilesShape(tiles, |q|, dv)
      && AllTokens(tiles) == s[Min(start, |s|)..]
      && AllScores(q, r, tiles) == Scores(q, s[Min(start, |s|)..])
    decreases |s| - start
  {
    hide AllTokens, AllScores, Scores, Dot;
    var tiles := ContextTiles(TilesFrom(s, start, tile));
    if start >= |s| {
      AllNone(q, r, dv);
      NoScores(q);
      assert tiles == [];
    } else {
      var end := Min(start + tile, |s|);
      ContextTilesConsume(q, r, s, start + tile, tile, dv);
      var rest := ContextTiles(TilesFrom(s, start + tile, tile));
      assert tiles == [Context(s[start..end])] + rest;
      AllConcat(q, r, [Context(s[start..end])], rest);
      AllSingle(q, r, Context(s[start..end]), dv);
      ScoresSplit(q, s, start, end, dv);
    }
  }

  lemma NoScores(q: Vec)
    ensures Scores(q, []) == []
  {
  }

  lemma ScoresSplit(q: Vec, s: seq<KV>, start: nat, end: nat, dv: nat)
    requires start <= end <= |s| && KVShape(s, |q|, dv)
    ensures s[start..] == s[start..end] + s[end..]
    ensures Scores(q, s[start..]) == Scores(q, s[start..end]) + Scores(q, s[end..])
  {
    hide Dot;
  }

  lemma AllNone(q: Vec, r: nat, dv: nat)
    ensures AllTokens([]) == [] && AllScores(q, r, []) == []
  {
  }

  lemma {:induction false} CurrentTilesConsume(q: Vec, r: nat, s: seq<KV>, start: nat, tile: nat, dv: nat)
    requires tile > 0 && start <= |s| + tile && KVShape(s, |q|, dv)
    ensures var tiles := CurrentTilesFrom(s, start, tile);
      && TilesShape(tiles, |q|, dv)
      && AllTokens(tiles) == s[Min(start, |s|)..]
      && AllScores(q, r, tiles) == MaskedScores(q, s[Min(start, |s|)..], Min(start, |s|), r)
    decreases |s| - start
  {
    hide AllTokens, AllScores;
    var tiles := CurrentTilesFrom(s, start, tile);
    if start >= |s| {
      AllNone(q, r, dv);
      assert tiles == [];
    } else {
      var end := Min(start + tile, |s|);
      CurrentTilesConsume(q, r, s, start + tile, tile, dv);
      var rest := CurrentTilesFrom(s, start + tile, tile);
      AllConcat(q, r, [Current(s[start..end], start)], rest);
      AllSingle(q, r, Current(s[start..end], start), dv);
      assert s[start..] == s[start..end] + s[end..];
      assert MaskedScores(q, s[start..], start, r)
          == MaskedScores(q, s[start..end], start, r) + MaskedScores(q, s[end..], end, r);
    }
  }

  lemma SegmentTilesConsume(q: Vec, r: nat, context: seq<KV>, key: seq<KV>, tile: nat, dv: nat)
    requires tile > 0 && KVShape(context, |q|, dv) && KVShape(key, |q|, dv) && r < |key|
    ensures var tiles := SegmentTiles(context, key, tile);
      && |tiles| > 0
      && TilesShape(tiles, |q|, dv)
      && HasFinite(TileScores(q, r, tiles[0]))
      && AllTokens(tiles) == context + key
      && AllScores(q, r, tiles) == Scores(q, context) + MaskedScores(q, key, 0, r)
  {
    hide AllTokens, AllScores;
    var tiles := SegmentTiles(context, key, tile);
    ContextTilesConsume(q, r, context, 0, tile, dv);
    CurrentTilesConsume(q, r, key, 0, tile, dv);
    assert context[0..] == context && key[0..] == key;
    AllConcat(q, r, ContextTiles(TilesFrom(context, 0, tile)), CurrentTilesFrom(key, 0, tile));
    assert TileScores(q, r, tiles[0])[0].Fin?;
  }

  /** One coordinate of plain causal softmax attention of query q over visible. */
  ghost function CausalAttention(E: real -> real, q: Vec, visible: seq<KV>, dv: nat, c: nat): (o: real)
    requires ExpLaw(E) && |visible| > 0 && KVShape(visible, |q|, dv) && c < dv
  {
    FiniteMass(E, Scores(q, visible));
    Attend(E, Scores(q, visible), Column(Values(visible), c))
  }

  lemma FiniteMass(E: real -> real, ss: seq<Score>)
    requires ExpLaw(E) && |ss| > 0 && ss[0].Fin?
    ensures Mass(E, ss, Fin(0.0), Ones(|ss|)) != 0.0
  {
    hide Mass, ExpLaw;
    MassNonNegative(E, ss, Fin(0.0));
  }

  // The meaning of attention, said without its parts: output times the sum of the
  // weights is the weighted sum of the values.

  function ExpScore(E: real -> real, scale: real, q: Vec, k: Vec): real
    requires |q| == |k|
  {
    E(scale * Dot(q, k))
  }

  /** The sum of exp(scale * q.k) over the visible tokens. */
  function Den(E: real -> real, scale: real, q: Vec, visible: seq<KV>): real
    requires KeyShape(visible, |q|)
  {
    if |visible| == 0 then 0.0
    else Den(E, scale, q, visible[..|visible| - 1]) + ExpScore(E, scale, q, visible[|visible| - 1].k)
  }

  /** The sum of exp(scale * q.k) * v[c] over the visible tokens. */
  function Num(E: real -> real, scale: real, q: Vec, visible: seq<KV>, dv: nat, c: nat): real
    requires KVShape(visible, |q|, dv) && c < dv
  {
    if |visible| == 0 then 0.0
    else
      var last := visible[|visible| - 1];
      Num(E, scale, q, visible[..|visible| - 1], dv, c) + ExpScore(E, scale, q, last.k) * last.v[c]
  }

  /** An output row is the softmax-weighted mean of the visible values. */
  ghost predicate IsSoftmax(E: real -> real, scale: real, q: Vec, visible: seq<KV>, dv: nat, out: Vec)
  {
    && KVShape(visible, |q|, dv) && |out| == dv && Den(E, scale, q, visible) > 0.0
    && forall c :: 0 <= c < dv ==> out[c] * Den(E, scale, q, visible) == Num(E, scale, q, visible, dv, c)
  }

  lemma ScoreWeight(E: real -> real, scale: real, q: Vec, k: Vec)
    requires |q| == |k|
    ensures ExpDiff(E, Fin(Dot(Scale(scale, q), k)), Fin(0.0)) == ExpScore(E, scale, q, k)
  {
    hide Dot, Scale;
    DotScaleLeft(scale, q, k);
    assert Dot(Scale(scale, q), k) - 0.0 == scale * Dot(q, k);
  }

  lemma {:induction false} DenIsMass(E: real -> real, scale: real, q: Vec, visible: seq<KV>)
    requires KeyShape(visible, |q|)
    ensures Mass(E, Scores(Scale(scale, q), visible), Fin(0.0), Ones(|visible|)) == Den(E, scale, q, visible)
  {
    hide Dot, Scale, ExpDiff, ExpScore;
    if |visible| > 0 {
      var n := |visible| - 1;
      var ss := Scores(Scale(scale, q), visible);
      DenIsMass(E, scale, q, visible[..n]);
      assert ss[..n] == Scores(Scale(scale, q), visible[..n]) && Ones(|visible|)[..n] == Ones(n);
      ScoreWeight(E, scale, q, visible[n].k);
    }
  }

  lemma {:induction false} NumIsMass(E: real -> real, scale: real, q: Vec, visible: seq<KV>, dv: nat, c: nat)
    requires KVShape(visible, |q|, dv) && c < dv
    ensures Mass(E, Scores(Scale(scale, q), visible), Fin(0.0), Column(Values(visible), c))
            == Num(E, scale, q, visible, dv, c)
  {
    hide Dot, Scale, ExpDiff, ExpScore;
    if |visible| > 0 {
      var n := |visible| - 1;
      var ss, ys := Scores(Scale(scale, q), visible), Column(Values(visible), c);
      NumIsMass(E, scale, q, visible[..n], dv, c);
      assert ss[..n] == Scores(Scale(scale, q), visible[..n]) && ys[..n] == Column(Values(visible[..n]), c);
      ScoreWeight(E, scale, q, visible[n].k);
    }
  }

  lemma DenPositive(E: real -> real, scale: real, q: Vec, visible: seq<KV>)
    requires ExpLaw(E) && |visible| > 0 && KeyShape(visible, |q|)
    ensures Den(E, scale, q, visible) > 0.0
  {
    hide ExpLaw, Mass, Den, Dot, Scale;
    var ss := Scores(Scale(scale, q), visible);
    DenIsMass(E, scale, q, visible);
    assert ss[0].Fin?;
    MassNonNegative(E, ss, Fin(0.0));
  }

  /** Softmax attention, for any scale put on the query. */
  lemma AttentionMeaning(E: real -> real, scale: real, q: Vec, visible: seq<KV>, dv: nat, c: nat)
    requires ExpLaw(E) && |visible| > 0 && KVShape(visible, |q|, dv) && c < dv
    ensures Den(E, scale, q, visible) > 0.0
    ensures CausalAttention(E, Scale(scale, q), visible, dv, c) * Den(E, scale, q, visible) == Num(E, scale, q, visible, dv, c)
  {
    hide ExpLaw, Mass, Den, Num, Dot, Scale;
    DenPositive(E, scale, q, visible);
    DenIsMass(E, scale, q, visible);
    NumIsMass(E, scale, q, visible, dv, c);
    QuotientTimes(Num(E, scale, q, visible, dv, c), Den(E, scale, q, visible));
  }

  lemma QuotientTimes(a: real, b: real)
    requires b > 0.0
    ensures a / b * b == a
  {
  }

  lemma AttentionRowMeans(E: real -> real, scale: real, q: Vec, visible: seq<KV>, dv: nat, out: Vec)
    requires ExpLaw(E) && |visible| > 0 && KVShape(visible, |q|, dv) && |out| == dv
    requires forall c :: 0 <= c < dv ==> out[c] == CausalAttention(E, Scale(scale, q), visible, dv, c)
    ensures IsSoftmax(E, scale, q, visible, dv, out)
  {
    hide ExpLaw, CausalAttention, Den, Num, Scale;
    DenPositive(E, scale, q, visible);
    forall c | 0 <= c < dv
      ensures out[c] * Den(E, scale, q, visible) == Num(E, scale, q, visible, dv, c)
    {
      AttentionMeaning(E, scale, q, visible, dv, c);
    }
  }

  /** Tiling is invisible: the online row over a segment's tiles, divided by its
      running sum, is plain causal softmax over the context and the keys up to
      the row's own position, for every tile size. */
  lemma SegmentRowIsAttention(E: real -> real, q: Vec, r: nat, context: seq<KV>, key: seq<KV>, tile: nat, dv: nat, c: nat)
    requires ExpLaw(E) && tile > 0 && r < |key| && c < dv
    requires KVShape(context, |q|, dv) && KVShape(key, |q|, dv)
    ensures var row := OnlineRow(E, q, r, SegmentTiles(context, key, tile), dv);
      && row.Some? && |row.value.o| == dv && row.value.l >= 1.0
      && row.value.o[c] / row.value.l == CausalAttention(E, q, context + key[..r + 1], dv, c)
  {
    hide ExpLaw, Mass, OnlineRow, AllScores, AllTokens, Summarises, Dot, SegmentTiles;
    var tiles := SegmentTiles(context, key, tile);
    SegmentTilesConsume(q, r, context, key, tile, dv);
    OnlineRowSummarises(E, q, r, tiles, dv);
    var row := OnlineRow(E, q, r, tiles, dv).value;
    var seen, masked := context + key[..r + 1], MaskedScores(q, key[r + 1..], r + 1, r);
    assert AllScores(q, r, tiles) == Scores(q, seen) + masked;
    assert context + key == seen + key[r + 1..];
    assert Column(Values(context + key), c) == Column(Values(seen), c) + Column(Values(key[r + 1..]), c);
    SummaryIsAttention(E, row, AllScores(q, r, tiles), Values(context + key), c);
    assert Scores(q, seen)[0].Fin?;
    AttendMasked(E, Scores(q, seen), masked, Column(Values(seen), c), Column(Values(key[r + 1..]), c));
  }

  // ---------------------------------------------------------------------
  // The in-place kernel
  // ---------------------------------------------------------------------

  /** The update of all query rows of a segment, in place, tensor operation by
      tensor operation. */
  method UpdateOnlineSoftmaxFromScores(E: real -> real, scores: seq<seq<Score>>, value: seq<Vec>, dv: nat,
                                       m: array<Score>, l: array<real>, o: array<Vec>)
    requires m.Length == l.Length == o.Length == |scores|
    requires forall r :: 0 <= r < |scores| ==>
      |scores[r]| == |value| && |o[r]| == dv && UpdateDefined(Row(m[r], l[r], o[r]), scores[r])
    requires Shape(value, |value|, dv)
    modifies m, l, o
    ensures forall r :: 0 <= r < |scores| ==>
      Row(m[r], l[r], o[r]) == UpdateRow(E, old(Row(m[r], l[r], o[r])), scores[r], value)
  {
    hide Top, Dot, LinComb, Exps, MaxScore, Scale, Add, ExpDiff, MulAdd, Ones;
    var n := |scores|;
    var newMax := seq(n, r requires 0 <= r < n reads m => MaxScore(m[r], Top(scores[r])));
    assert forall r :: 0 <= r < n ==> newMax[r] == MaxScore(m[r], Top(scores[r]));
    assert forall r :: 0 <= r < n ==> UpdateDefined(Row(m[r], l[r], o[r]), scores[r]) && newMax[r].Fin?;
    var expScores := seq(n, r requires 0 <= r < n => Exps(E, scores[r], newMax[r]));
    var correction := seq(n, r requires 0 <= r < n reads m => ExpDiff(E, m[r], newMax[r]));
    forall r | 0 <= r < n {
      m[r] := newMax[r];
    }
    forall r | 0 <= r < n {
      l[r] := MulAdd(correction[r], l[r], Dot(expScores[r], Ones(|value|)));
    }
    forall r | 0 <= r < n {
      o[r] := Add(Scale(correction[r], o[r]), LinComb(expScores[r], value, dv));
    }
  }

  /** Every row's accumulators are the online row over the tiles done so far. */
  ghost predicate RowsHold(E: real -> real, qs: seq<Vec>, done: seq<Tile>, dv: nat,
                           m: array<Score>, l: array<real>, o: array<Vec>)
    reads m, l, o
  {
    && m.Length == l.Length == o.Length == |qs|
    && forall r :: 0 <= r < |qs| ==> OnlineRow(E, qs[r], r, done, dv) == Some(Row(m[r], l[r], o[r]))
  }

  /** One more tile: the update is defined, and it is the online step. */
  lemma StepDefined(E: real -> real, q: Vec, r: nat, context: seq<KV>, key: seq<KV>, tile: nat, dv: nat, i: nat, row: Row)
    requires ExpLaw(E) && tile > 0 && KVShape(context, |q|, dv) && KVShape(key, |q|, dv) && r < |key|
    requires i < |SegmentTiles(context, key, tile)|
    requires OnlineRow(E, q, r, SegmentTiles(context, key, tile)[..i], dv) == Some(row)
    ensures var t := SegmentTiles(context, key, tile)[i];
      && KVShape(t.kvs, |q|, dv) && |row.o| == dv
      && UpdateDefined(row, TileScores(q, r, t))
      && OnlineRow(E, q, r, SegmentTiles(context, key, tile)[..i + 1], dv)
         == Some(UpdateRow(E, row, TileScores(q, r, t), Values(t.kvs)))
  {
    hide ExpLaw, Mass, UpdateRow, Summarises, SegmentTiles, AllScores, AllTokens, TileScores, UpdateDefined;
    var tiles := SegmentTiles(context, key, tile);
    SegmentTilesConsume(q, r, context, key, tile, dv);
    OnlineRowSummarises(E, q, r, tiles[..i], dv);
    OnlineRowSummarises(E, q, r, tiles[..i + 1], dv);
    assert tiles[..i + 1][..i] == tiles[..i];
  }

  /** Show one tile to every row of the segment; applied records the tiles in the
      order they are shown. */
  method ApplyTile(E: real -> real, qs: seq<Vec>, t: Tile, m: array<Score>, l: array<real>, o: array<Vec>,
                   ghost context: seq<KV>, ghost key: seq<KV>, ghost tile: nat, ghost before: seq<Tile>, ghost dk: nat,
                   dv: nat)
    returns (ghost applied: seq<Tile>)
    requires ExpLaw(E) && tile > 0 && |key| > 0
    requires KVShape(context, dk, dv) && KVShape(key, dk, dv) && Shape(qs, |key|, dk)
    requires before + [t] <= SegmentTiles(context, key, tile)
    requires RowsHold(E, qs, before, dv, m, l, o)
    modifies m, l, o
    ensures applied == before + [t]
    ensures RowsHold(E, qs, applied, dv, m, l, o)
  {
    hide ExpLaw, Mass, UpdateRow, SegmentTiles, TileScores, OnlineRow, UpdateDefined;
    ghost var i := |before|;
    assert before == SegmentTiles(context, key, tile)[..i] && (before + [t])[i] == SegmentTiles(context, key, tile)[i];
    forall r | 0 <= r < |qs|
      ensures KVShape(t.kvs, dk, dv) && |o[r]| == dv
      ensures UpdateDefined(Row(m[r], l[r], o[r]), TileScores(qs[r], r, t))
      ensures OnlineRow(E, qs[r], r, SegmentTiles(context, key, tile)[..i + 1], dv)
              == Some(UpdateRow(E, Row(m[r], l[r], o[r]), TileScores(qs[r], r, t), Values(t.kvs)))
    {
      StepDefined(E, qs[r], r, context, key, tile, dv, i, Row(m[r], l[r], o[r]));
    }
    assert KVShape(t.kvs, dk, dv) && |qs[0]| == dk;
    var scores := seq(|qs|, r requires 0 <= r < |qs| => TileScores(qs[r], r, t));
    UpdateOnlineSoftmaxFromScores(E, scores, Values(t.kvs), dv, m, l, o);
    applied := before + [t];
    assert applied == SegmentTiles(context, key, tile)[..i + 1];
  }

  /** The running sum is at least one, so the final division is safe. */
  lemma SegmentRowSum(E: real -> real, q: Vec, r: nat, context: seq<KV>, key: seq<KV>, tile: nat, dv: nat)
    requires ExpLaw(E) && tile > 0 && r < |key|
    requires KVShape(context, |q|, dv) && KVShape(key, |q|, dv)
    ensures var row := OnlineRow(E, q, r, SegmentTiles(context, key, tile), dv);
      row.Some? && |row.value.o| == dv && row.value.l >= 1.0
  {
    hide ExpLaw, Mass, OnlineRow, AllScores, AllTokens, Dot, SegmentTiles;
    var tiles := SegmentTiles(context, key, tile);
    SegmentTilesConsume(q, r, context, key, tile, dv);
    OnlineRowSummarises(E, q, r, tiles, dv);
    var ss := AllScores(q, r, tiles);
    TopFinite(ss);
    MassNonNegative(E, ss, Top(ss));
  }

  function Finish(row: Row): (o: Vec)
    requires row.l != 0.0
    ensures |o| == |row.o|
  {
    seq(|row.o|, c requires 0 <= c < |row.o| => row.o[c] / row.l)
  }

  /** The output row of query q at row r of a segment. */
  ghost predicate IsSegmentRow(E: real -> real, q: Vec, r: nat, context: seq<KV>, key: seq<KV>, tile: nat, dv: nat, out: Vec)
    requires tile > 0
  {
    var row := OnlineRow(E, q, r, SegmentTiles(context, key, tile), dv);
    row.Some? && row.value.l != 0.0 && out == Finish(row.value)
  }

  lemma SegmentOutput(E: real -> real, q: Vec, r: nat, context: seq<KV>, key: seq<KV>, tile: nat, dv: nat, out: Vec, c: nat)
    requires ExpLaw(E) && tile > 0 && r < |key| && c < dv && KVShape(context, |q|, dv) && KVShape(key, |q|, dv)
    requires IsSegmentRow(E, q, r, context, key, tile, dv, out)
    ensures |out| == dv && out[c] == CausalAttention(E, q, context + key[..r + 1], dv, c)
  {
    hide ExpLaw, OnlineRow, SegmentTiles, CausalAttention;
    SegmentRowIsAttention(E, q, r, context, key, tile, dv, c);
  }

  lemma SegmentRowMeaning(E: real -> real, scale: real, q: Vec, r: nat, context: seq<KV>, key: seq<KV>, tile: nat, dv: nat,
                          out: Vec)
    requires ExpLaw(E) && tile > 0 && r < |key| && KVShape(context, |q|, dv) && KVShape(key, |q|, dv)
    requires IsSegmentRow(E, Scale(scale, q), r, context, key, tile, dv, out)
    ensures IsSoftmax(E, scale, q, context + key[..r + 1], dv, out)
  {
    hide ExpLaw, OnlineRow, SegmentTiles, CausalAttention, Den, Num, Scale;
    var visible := context + key[..r + 1];
    DenPositive(E, scale, q, visible);
    SegmentRowSum(E, Scale(scale, q), r, context, key, tile, dv);
    forall c | 0 <= c < dv
      ensures out[c] * Den(E, scale, q, visible) == Num(E, scale, q, visible, dv, c)
    {
      SegmentRowIsAttention(E, Scale(scale, q), r, context, key, tile, dv, c);
      AttentionMeaning(E, scale, q, visible, dv, c);
    }
  }

  lemma SegmentRowsMean(E: real -> real, scale: real, query: seq<Vec>, context: seq<KV>, key: seq<KV>, tile: nat, dk: nat,
                        dv: nat, outs: seq<Vec>)
    requires ExpLaw(E) && tile > 0 && Shape(query, |key|, dk) && KVShape(context, dk, dv) && KVShape(key, dk, dv)
    requires |outs| == |query|
    requires forall r :: 0 <= r < |query| ==> IsSegmentRow(E, Scale(scale, query[r]), r, context, key, tile, dv, outs[r])
    ensures forall r :: 0 <= r < |query| ==> IsSoftmax(E, scale, query[r], context + key[..r + 1], dv, outs[r])
  {
    hide ExpLaw, IsSegmentRow, IsSoftmax, Scale;
    forall r | 0 <= r < |query|
      ensures IsSoftmax(E, scale, query[r], context + key[..r + 1], dv, outs[r])
    {
      SegmentRowMeaning(E, scale, query[r], r, context, key, tile, dv, outs[r]);
    }
  }

  lemma RowFinished(E: real -> real, q: Vec, r: nat, context: seq<KV>, key: seq<KV>, tile: nat, dv: nat, row: Row)
    requires tile > 0 && row.l != 0.0
    requires OnlineRow(E, q, r, SegmentTiles(context, key, tile), dv) == Some(row)
    ensures IsSegmentRow(E, q, r, context, key, tile, dv, Finish(row))
  {
    hide OnlineRow, SegmentTiles, Finish;
  }

  lemma InitialRow(E: real -> real, q: Vec, r: nat, dv: nat)
    ensures OnlineRow(E, q, r, [], dv) == Some(EmptyRow(dv))
  {
  }

  lemma CurrentHead(key: seq<KV>, start: nat, tile: nat)
    requires tile > 0 && start < |key|
    ensures var t := CurrentTilesFrom(key, start, tile);
      && |t| > 0 && t[0] == Current(key[start..Min(start + tile, |key|)], start)
      && t[1..] == CurrentTilesFrom(key, start + tile, tile)
  {
  }

  lemma CurrentDone(key: seq<KV>, start: nat, tile: nat)
    requires tile > 0 && start >= |key|
    ensures CurrentTilesFrom(key, start, tile) == []
  {
  }

  /** One span of the context: cached blocks through the block table, then the
      request's own earlier tokens. */
  method SpanKeys(span: Span, prefix: seq<KV>, cache: seq<seq<KV>>, table: seq<nat>, blockSize: nat, ghost cached: seq<KV>)
    returns (kvs: seq<KV>)
    requires blockSize > 0 && CacheHolds(cache, table, cached, blockSize)
    requires span.blockStart <= span.blockEnd <= |cached| && span.prefixStart <= span.prefixEnd <= |prefix|
    ensures SpanReadable(span, prefix, cache, table, blockSize)
    ensures kvs == ReadSpan(span, prefix, cache, table, blockSize) == SpanTokens(span, cached, prefix)
  {
    hide CacheHolds, Gather, Gatherable;
    kvs := [];
    ReadSpanTokens(span, prefix, cache, table, cached, blockSize);
    if span.blockEnd > span.blockStart {
      kvs := Gather(cache, table, span.blockStart, span.blockEnd, blockSize);
    }
    if span.prefixEnd > span.prefixStart {
      kvs := kvs + prefix[span.prefixStart..span.prefixEnd];
    }
  }

  /** The context loop: every span in turn. */
  method ContextPhase(E: real -> real, qs: seq<Vec>, ghost key: seq<KV>, prefix: seq<KV>,
                      cache: seq<seq<KV>>, table: seq<nat>, blockContextLen: nat, blockSize: nat, tile: nat,
                      ghost dk: nat, dv: nat, ghost cached: seq<KV>, m: array<Score>, l: array<real>, o: array<Vec>)
    returns (ghost applied: seq<Tile>)
    requires ExpLaw(E) && blockSize > 0 && tile > 0 && |key| > 0 && CacheHolds(cache, table, cached, blockSize)
    requires Shape(qs, |key|, dk) && KVShape(key, dk, dv) && KVShape(cached + prefix, dk, dv)
    requires |cached| == blockContextLen
    requires RowsHold(E, qs, [], dv, m, l, o)
    modifies m, l, o
    ensures Readable(prefix, cache, table, blockContextLen, blockSize, tile)
    ensures applied == ReadTiles(prefix, cache, table, blockContextLen, blockSize, tile)
    ensures RowsHold(E, qs, applied, dv, m, l, o)
  {
    hide ExpLaw, CacheHolds, TilesFrom, CurrentTilesFrom, RowsHold, SpansFrom, KVShape, ReadSpan, SpanReadable;
    ghost var context := cached + prefix;
    var spans := PrefixContextTileSpans(blockContextLen, |prefix|, tile);
    SpansAreTiles(cached, prefix, 0, tile);
    ReadTilesAreLogical(prefix, cache, table, cached, blockSize, tile);
    ghost var tiles := ReadTiles(prefix, cache, table, blockContextLen, blockSize, tile);
    applied := [];
    for i := 0 to |spans.value|
      invariant applied == tiles[..i]
      invariant RowsHold(E, qs, applied, dv, m, l, o)
    {
      var kvs := SpanKeys(spans.value[i], prefix, cache, table, blockSize, cached);
      assert applied + [Context(kvs)] == tiles[..i + 1] <= SegmentTiles(context, key, tile);
      applied := ApplyTile(E, qs, Context(kvs), m, l, o, context, key, tile, applied, dk, dv);
    }
  }

  /** The current loop: the segment's own keys, causally masked. */
  method CurrentPhase(E: real -> real, qs: seq<Vec>, key: seq<KV>, ghost context: seq<KV>, tile: nat,
                      ghost before: seq<Tile>, ghost dk: nat, dv: nat, m: array<Score>, l: array<real>, o: array<Vec>)
    returns (ghost applied: seq<Tile>)
    requires ExpLaw(E) && tile > 0 && |key| > 0
    requires Shape(qs, |key|, dk) && KVShape(key, dk, dv) && KVShape(context, dk, dv)
    requires before == ContextTiles(TilesFrom(context, 0, tile)) && RowsHold(E, qs, before, dv, m, l, o)
    modifies m, l, o
    ensures applied == before + CurrentTilesFrom(key, 0, tile)
    ensures RowsHold(E, qs, applied, dv, m, l, o)
  {
    hide ExpLaw, TilesFrom, CurrentTilesFrom, RowsHold, KVShape;
    ghost var tiles := SegmentTiles(context, key, tile);
    applied := before;
    var keyStart := 0;
    while keyStart < |key|
      invariant 0 <= keyStart && applied + CurrentTilesFrom(key, keyStart, tile) == tiles
      invariant RowsHold(E, qs, applied, dv, m, l, o)
      decreases |key| - keyStart
    {
      var keyEnd := Min(keyStart + tile, |key|);
      CurrentHead(key, keyStart, tile);
      ghost var rest := CurrentTilesFrom(key, keyStart, tile);
      assert rest == [rest[0]] + rest[1..];
      assert applied + [rest[0]] + rest[1..] == tiles;
      applied := ApplyTile(E, qs, Current(key[keyStart..keyEnd], keyStart), m, l, o, context, key, tile, applied, dk, dv);
      keyStart := keyStart + tile;
    }
    CurrentDone(key, keyStart, tile);
  }

  /** The tiles shown are those the span loop and the key loop build. */
  ghost predicate Feeds(fed: seq<Tile>, prefix: seq<KV>, key: seq<KV>, cache: seq<seq<KV>>, table: seq<nat>,
                        blockContextLen: nat, blockSize: nat, tile: nat)
    requires blockSize > 0 && tile > 0
  {
    && Readable(prefix, cache, table, blockContextLen, blockSize, tile)
    && fed == LoopTiles(prefix, key, cache, table, blockContextLen, blockSize, tile)
  }

  /** Attention for one segment; None is the undersized-block-table error. fed
      records the tiles shown to the update. */
  method ForwardPrefixSegment(E: real -> real, query: seq<Vec>, key: seq<KV>, prefix: seq<KV>,
                              cache: seq<seq<KV>>, table: seq<nat>, blockContextLen: nat, blockSize: nat, tile: nat,
                              scale: real, ghost dk: nat, dv: nat, ghost cached: seq<KV>)
    returns (output: Option<seq<Vec>>, ghost fed: seq<Tile>)
    requires ExpLaw(E) && blockSize > 0 && tile > 0 && |key| > 0
    requires Shape(query, |key|, dk) && KVShape(key, dk, dv) && KVShape(cached + prefix, dk, dv)
    requires |cached| == blockContextLen
    requires BlocksFor(blockContextLen, blockSize) <= |table| ==> CacheHolds(cache, table, cached, blockSize)
    ensures output.None? <==> blockContextLen > 0 && BlocksFor(blockContextLen, blockSize) > |table|
    ensures output.None? <==> blockContextLen > |table| * blockSize
    ensures output.Some? ==> |output.value| == |query|
    ensures output.Some? ==> forall r :: 0 <= r < |query| ==>
      IsSegmentRow(E, Scale(scale, query[r]), r, cached + prefix, key, tile, dv, output.value[r])
    ensures output.Some? ==> Feeds(fed, prefix, key, cache, table, blockContextLen, blockSize, tile)
    ensures output.Some? ==> forall r :: 0 <= r < |query| ==>
      IsSoftmax(E, scale, query[r], cached + prefix + key[..r + 1], dv, output.value[r])
  {
    hide ExpLaw, CacheHolds, BlocksFor, Scale, SegmentTiles, Finish, OnlineRow, IsSegmentRow, TilesFrom;
    hide Readable, ReadTiles, CurrentTilesFrom, IsSoftmax, Dot;
    var n := |query|;
    var qs := seq(n, r requires 0 <= r < n => Scale(scale, query[r]));
    var m, l, o := new Score[n](_ => NegInf), new real[n](_ => 0.0), new Vec[n](_ => Zeros(dv));
    BlocksForMeaning(blockContextLen, |table|, blockSize);
    if blockContextLen > 0 && BlocksFor(blockContextLen, blockSize) > |table| {
      return None, [];
    }
    NoBlocks(blockSize);
    ghost var context := cached + prefix;
    forall r | 0 <= r < n ensures OnlineRow(E, qs[r], r, [], dv) == Some(Row(m[r], l[r], o[r])) {
      InitialRow(E, qs[r], r, dv);
    }
    ReadTilesAreLogical(prefix, cache, table, cached, blockSize, tile);
    fed := ContextPhase(E, qs, key, prefix, cache, table, blockContextLen, blockSize, tile, dk, dv, cached, m, l, o);
    fed := CurrentPhase(E, qs, key, context, tile, fed, dk, dv, m, l, o);
    LoopTilesAreSegmentTiles(prefix, key, cache, table, cached, blockSize, tile);
    forall r | 0 <= r < n ensures l[r] != 0.0 {
      SegmentRowSum(E, qs[r], r, context, key, tile, dv);
    }
    label Accumulated:
    forall r | 0 <= r < n {
      o[r] := Finish(Row(m[r], l[r], o[r]));
    }
    forall r | 0 <= r < n ensures IsSegmentRow(E, qs[r], r, context, key, tile, dv, o[r]) {
      RowFinished(E, qs[r], r, context, key, tile, dv, old@Accumulated(Row(m[r], l[r], o[r])));
    }
    SegmentRowsMean(E, scale, query, context, key, tile, dk, dv, o[..]);
    return Some(o[..]), fed;
  }

  lemma NoBlocks(blockSize: nat)
    requires blockSize > 0
    ensures BlocksFor(0, blockSize) == 0
  {
  }

  // ---------------------------------------------------------------------
  // Inputs that tell which tokens are seen
  // ---------------------------------------------------------------------

  /** Zero keys, and the value 1 at one token only. */
  function OneHotKv(n: nat, hot: nat): (kvs: seq<KV>)
    ensures |kvs| == n && KVShape(kvs, 1, 1)
    ensures forall j :: 0 <= j < n ==> kvs[j].v == [if j == hot then 1.0 else 0.0]
  {
    seq(n, j => KV([0.0], [if j == hot then 1.0 else 0.0]))
  }

  /** Attention over tokens that include the hot one is positive. */
  lemma SeesHot(E: real -> real, seen: seq<KV>, hot: nat)
    requires ExpLaw(E) && hot < |seen| && KVShape(seen, 1, 1) && seen[hot].v == [1.0]
    requires forall j :: 0 <= j < |seen| ==> seen[j].v[0] >= 0.0
    ensures CausalAttention(E, [0.0], seen, 1, 0) > 0.0
  {
    hide ExpLaw, Mass, Dot;
    var ss, ys := Scores([0.0], seen), Column(Values(seen), 0);
    MassNonNegative(E, ss, Fin(0.0));
    assert ss[hot].Fin? && ys[hot] > 0.0;
    MassPositiveAt(E, ss, Fin(0.0), ys);
    PositiveQuotient(Mass(E, ss, Fin(0.0), ys), Mass(E, ss, Fin(0.0), Ones(|ss|)));
  }

  /** Attention over tokens without it is zero. */
  lemma SeesNothing(E: real -> real, seen: seq<KV>)
    requires ExpLaw(E) && |seen| > 0 && KVShape(seen, 1, 1)
    requires forall j :: 0 <= j < |seen| ==> seen[j].v == [0.0]
    ensures CausalAttention(E, [0.0], seen, 1, 0) == 0.0
  {
    hide ExpLaw, Mass, Dot;
    var ss, ys := Scores([0.0], seen), Column(Values(seen), 0);
    FiniteMass(E, ss);
    MassOfZeros(E, ss, Fin(0.0), ys);
  }

  lemma PositiveQuotient(a: real, b: real)
    requires a > 0.0 && b > 0.0
    ensures a / b > 0.0
  {
  }
}
