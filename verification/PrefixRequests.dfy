/** Whole requests: the segment loop over one request's query, and what it means
    that a prefix was restored from the cache instead of recomputed. */
module PrefixRequests {
  import opened Outcome
  import opened Vectors
  import opened Exponential
  import opened Softmax
  import opened PagedCache
  import opened PrefixAttention

  /** The segment that computes row i of the query. */
  function SegmentOf(contextLen: nat, queryLen: nat, blockSize: nat, i: nat): (s: Segment)
    requires blockSize > 0 && i < queryLen
    ensures s in StrictPrefixQuerySegments(contextLen, queryLen, blockSize)
    ensures s.start <= i < s.end <= queryLen
    ensures forall t :: t in StrictPrefixQuerySegments(contextLen, queryLen, blockSize) && t.start <= i < t.end ==> t == s
  {
    var s := StrictPrefixQuerySegments(contextLen, queryLen, blockSize);
    if |s| == 2 && i >= s[1].start then s[1] else s[0]
  }

  // ---------------------------------------------------------------------
  // A restored prefix changes nothing
  // ---------------------------------------------------------------------

  /** The segment that ends the query: the one from the strict boundary on. */
  function LastSegment(contextLen: nat, queryLen: nat, blockSize: nat): (s: Segment)
    requires blockSize > 0 && queryLen > 0
    ensures s in StrictPrefixQuerySegments(contextLen, queryLen, blockSize)
    ensures s.start < s.end == queryLen && s.context == contextLen + s.start
    ensures contextLen <= StrictPrefix(contextLen + queryLen, blockSize) ==>
      s.context == StrictPrefix(contextLen + queryLen, blockSize)
  {
    var s := StrictPrefixQuerySegments(contextLen, queryLen, blockSize);
    s[|s| - 1]
  }

  /** The tiles that segment k of a request shows to the update. */
  ghost predicate SegmentFeeds(fed: seq<Tile>, s: Segment, kvs: seq<KV>, cache: seq<seq<KV>>, table: seq<nat>,
                               contextLen: nat, blockSize: nat, tile: nat)
    requires blockSize > 0 && tile > 0 && s.start <= s.end <= |kvs|
  {
    Feeds(fed, kvs[..s.start], kvs[s.start..s.end], cache, table, contextLen, blockSize, tile)
  }

  /** Whatever part of a request is cached, and in whatever physical blocks, its
      last segment is shown the tiles of the tokens before the strict boundary
      and then of those after it. */
  lemma LastSegmentFed(fed: seq<Tile>, tokens: seq<KV>, c: nat, cache: seq<seq<KV>>, table: seq<nat>, blockSize: nat,
                       tile: nat)
    requires blockSize > 0 && tile > 0 && |tokens| > 0 && c <= StrictPrefix(|tokens|, blockSize)
    requires CacheHolds(cache, table, tokens[..c], blockSize)
    ensures var l := StrictPrefix(|tokens|, blockSize);
      SegmentFeeds(fed, LastSegment(c, |tokens| - c, blockSize), tokens[c..], cache, table, c, blockSize, tile)
      <==> fed == SegmentTiles(tokens[..l], tokens[l..], tile)
  {
    hide CacheHolds, Readable, LoopTiles, SegmentTiles;
    var l, n := StrictPrefix(|tokens|, blockSize), |tokens|;
    var s := LastSegment(c, n - c, blockSize);
    var prefix, key := tokens[c..][..s.start], tokens[c..][s.start..s.end];
    assert tokens[..c] + prefix == tokens[..l] && key == tokens[l..];
    LoopTilesAreSegmentTiles(prefix, key, cache, table, tokens[..c], blockSize, tile);
  }

  /** What any update of the whole segment's accumulators leaves after the last
      segment, from the tiles its loops build out of this cache. */
  function LastAccumulators<A>(update: (A, seq<Vec>, Tile) -> A, start: seq<Vec> -> A, query: seq<Vec>, kvs: seq<KV>,
                               cache: seq<seq<KV>>, table: seq<nat>, contextLen: nat, blockSize: nat, tile: nat): A
    requires blockSize > 0 && tile > 0 && |query| == |kvs| > 0
    requires LastReadable(kvs, cache, table, contextLen, blockSize, tile)
  {
    var s := LastSegment(contextLen, |kvs|, blockSize);
    var qs := query[s.start..s.end];
    FoldSegment(update, start(qs), qs,
                LoopTiles(kvs[..s.start], kvs[s.start..s.end], cache, table, contextLen, blockSize, tile))
  }

  ghost predicate LastReadable(kvs: seq<KV>, cache: seq<seq<KV>>, table: seq<nat>, contextLen: nat, blockSize: nat,
                               tile: nat)
    requires blockSize > 0 && tile > 0 && |kvs| > 0
  {
    Readable(kvs[..LastSegment(contextLen, |kvs|, blockSize).start], cache, table, contextLen, blockSize, tile)
  }

  lemma LastFromTokens<A>(update: (A, seq<Vec>, Tile) -> A, start: seq<Vec> -> A, query: seq<Vec>, tokens: seq<KV>, c: nat,
                          cache: seq<seq<KV>>, table: seq<nat>, blockSize: nat, tile: nat)
    requires blockSize > 0 && tile > 0 && |query| == |tokens| > 0 && c <= StrictPrefix(|tokens|, blockSize)
    requires CacheHolds(cache, table, tokens[..c], blockSize)
    ensures LastReadable(tokens[c..], cache, table, c, blockSize, tile)
    ensures var l := StrictPrefix(|tokens|, blockSize);
      LastAccumulators(update, start, query[c..], tokens[c..], cache, table, c, blockSize, tile)
      == FoldSegment(update, start(query[l..]), query[l..], SegmentTiles(tokens[..l], tokens[l..], tile))
  {
    hide CacheHolds, Readable, LoopTiles, SegmentTiles, FoldSegment;
    var l, n := StrictPrefix(|tokens|, blockSize), |tokens|;
    var s := LastSegment(c, n - c, blockSize);
    var prefix, key := tokens[c..][..s.start], tokens[c..][s.start..s.end];
    assert tokens[..c] + prefix == tokens[..l] && key == tokens[l..] && query[c..][s.start..s.end] == query[l..];
    LoopTilesAreSegmentTiles(prefix, key, cache, table, tokens[..c], blockSize, tile);
  }

  /** A warm request and a cold one, or two warm ones restored at different
      depths, leave identical accumulators for every row from the strict boundary
      on, given only that each cache holds the request's tokens. The update is
      arbitrary, so no law of its arithmetic is used. */
  lemma WarmEqualsCold<A>(update: (A, seq<Vec>, Tile) -> A, start: seq<Vec> -> A, query: seq<Vec>, tokens: seq<KV>,
                          warm: nat, warmCache: seq<seq<KV>>, warmTable: seq<nat>,
                          cold: nat, coldCache: seq<seq<KV>>, coldTable: seq<nat>, blockSize: nat, tile: nat)
    requires blockSize > 0 && tile > 0 && |query| == |tokens| > 0
    requires warm <= StrictPrefix(|tokens|, blockSize) && CacheHolds(warmCache, warmTable, tokens[..warm], blockSize)
    requires cold <= StrictPrefix(|tokens|, blockSize) && CacheHolds(coldCache, coldTable, tokens[..cold], blockSize)
    ensures LastReadable(tokens[warm..], warmCache, warmTable, warm, blockSize, tile)
    ensures LastReadable(tokens[cold..], coldCache, coldTable, cold, blockSize, tile)
    ensures LastAccumulators(update, start, query[warm..], tokens[warm..], warmCache, warmTable, warm, blockSize, tile)
            == LastAccumulators(update, start, query[cold..], tokens[cold..], coldCache, coldTable, cold, blockSize, tile)
  {
    hide CacheHolds, LastReadable, LastAccumulators, FoldSegment, SegmentTiles;
    LastFromTokens(update, start, query, tokens, warm, warmCache, warmTable, blockSize, tile);
    LastFromTokens(update, start, query, tokens, cold, coldCache, coldTable, blockSize, tile);
  }

  // ---------------------------------------------------------------------
  // A whole request
  // ---------------------------------------------------------------------

  /** With the kernel's own update: a row from the strict boundary on is the same
      for two runs of a request restored at any two depths. */
  lemma WarmRowsEqualCold(E: real -> real, q: Vec, tokens: seq<KV>, warm: nat, cold: nat, blockSize: nat, tile: nat, dv: nat,
                          i: nat, outWarm: Vec, outCold: Vec)
    requires blockSize > 0 && tile > 0 && i < |tokens| && StrictPrefix(|tokens|, blockSize) <= i
    requires warm <= StrictPrefix(|tokens|, blockSize) && cold <= StrictPrefix(|tokens|, blockSize)
    requires IsRequestRow(E, q, tokens[..warm], tokens[warm..], blockSize, tile, dv, i - warm, outWarm)
    requires IsRequestRow(E, q, tokens[..cold], tokens[cold..], blockSize, tile, dv, i - cold, outCold)
    ensures outWarm == outCold
  {
    hide IsSegmentRow;
    LastRow(E, q, tokens, warm, blockSize, tile, dv, i, outWarm);
    LastRow(E, q, tokens, cold, blockSize, tile, dv, i, outCold);
    OneSegmentRow(E, q, i - StrictPrefix(|tokens|, blockSize), tokens[..StrictPrefix(|tokens|, blockSize)],
                  tokens[StrictPrefix(|tokens|, blockSize)..], tile, dv, outWarm, outCold);
  }

  lemma OneSegmentRow(E: real -> real, q: Vec, r: nat, context: seq<KV>, key: seq<KV>, tile: nat, dv: nat, a: Vec, b: Vec)
    requires tile > 0 && IsSegmentRow(E, q, r, context, key, tile, dv, a) && IsSegmentRow(E, q, r, context, key, tile, dv, b)
    ensures a == b
  {
    hide OnlineRow, SegmentTiles;
  }

  lemma LastRow(E: real -> real, q: Vec, tokens: seq<KV>, c: nat, blockSize: nat, tile: nat, dv: nat, i: nat, out: Vec)
    requires blockSize > 0 && tile > 0 && |tokens| > 0 && StrictPrefix(|tokens|, blockSize) <= i < |tokens|
    requires c <= StrictPrefix(|tokens|, blockSize)
    requires IsRequestRow(E, q, tokens[..c], tokens[c..], blockSize, tile, dv, i - c, out)
    ensures var l := StrictPrefix(|tokens|, blockSize);
      IsSegmentRow(E, q, i - l, tokens[..l], tokens[l..], tile, dv, out)
  {
    hide IsSegmentRow, StrictPrefixQuerySegments, SegmentOf, LastSegment, StrictPrefix;
    var l, n := StrictPrefix(|tokens|, blockSize), |tokens|;
    var s := LastSegment(c, n - c, blockSize);
    assert SegmentOf(c, n - c, blockSize, i - c) == s;
    SplitAt(tokens, c, s.start);
  }

  lemma SplitAt(tokens: seq<KV>, c: nat, start: nat)
    requires c + start <= |tokens|
    ensures tokens[..c] + tokens[c..][..start] == tokens[..c + start]
    ensures tokens[c..][start..|tokens| - c] == tokens[c + start..]
  {
  }

  /** The output row i of a request, with the online-softmax update. */
  ghost predicate IsRequestRow(E: real -> real, q: Vec, cached: seq<KV>, kvs: seq<KV>, blockSize: nat, tile: nat,
                               dv: nat, i: nat, out: Vec)
    requires blockSize > 0 && tile > 0 && i < |kvs|
  {
    var s := SegmentOf(|cached|, |kvs|, blockSize, i);
    IsSegmentRow(E, q, i - s.start, cached + kvs[..s.start], kvs[s.start..s.end], tile, dv, out)
  }

  lemma SeenTokens(cached: seq<KV>, kvs: seq<KV>, start: nat, end: nat, i: nat)
    requires start <= i < end <= |kvs|
    ensures cached + kvs[..start] + kvs[start..end][..i - start + 1] == cached + kvs[..i + 1]
  {
  }

  /** Segmentation and tiling are both invisible in exact arithmetic: row i is
      causal softmax over the cached context and the query tokens up to i. */
  lemma RequestRowIsAttention(E: real -> real, q: Vec, cached: seq<KV>, kvs: seq<KV>, blockSize: nat, tile: nat,
                              dv: nat, i: nat, out: Vec, c: nat)
    requires ExpLaw(E) && blockSize > 0 && tile > 0 && i < |kvs| && c < dv
    requires KVShape(cached, |q|, dv) && KVShape(kvs, |q|, dv)
    requires IsRequestRow(E, q, cached, kvs, blockSize, tile, dv, i, out)
    ensures |out| == dv && KVShape(cached + kvs[..i + 1], |q|, dv)
    ensures out[c] == CausalAttention(E, q, cached + kvs[..i + 1], dv, c)
  {
    hide ExpLaw, IsSegmentRow, CausalAttention, SegmentOf;
    var s := SegmentOf(|cached|, |kvs|, blockSize, i);
    SegmentOutput(E, q, i - s.start, cached + kvs[..s.start], kvs[s.start..s.end], tile, dv, out, c);
    SeenTokens(cached, kvs, s.start, s.end, i);
  }

  /** The same without tiles, rows and summaries: row i is the softmax-weighted mean
      of the values of the cached tokens and the query tokens up to i. */
  lemma RequestRowMeaning(E: real -> real, scale: real, q: Vec, cached: seq<KV>, kvs: seq<KV>, blockSize: nat, tile: nat,
                          dv: nat, i: nat, out: Vec)
    requires ExpLaw(E) && blockSize > 0 && tile > 0 && i < |kvs|
    requires KVShape(cached, |q|, dv) && KVShape(kvs, |q|, dv)
    requires IsRequestRow(E, Scale(scale, q), cached, kvs, blockSize, tile, dv, i, out)
    ensures IsSoftmax(E, scale, q, cached + kvs[..i + 1], dv, out)
  {
    hide ExpLaw, IsSegmentRow, IsSoftmax, Scale, SegmentOf;
    var s := SegmentOf(|cached|, |kvs|, blockSize, i);
    SegmentRowMeaning(E, scale, q, i - s.start, cached + kvs[..s.start], kvs[s.start..s.end], tile, dv, out);
    SeenTokens(cached, kvs, s.start, s.end, i);
  }

  lemma RowsMean(E: real -> real, query: seq<Vec>, scale: real, cached: seq<KV>, kvs: seq<KV>, blockSize: nat, tile: nat,
                 dk: nat, dv: nat, out: seq<Vec>)
    requires ExpLaw(E) && blockSize > 0 && tile > 0 && |query| == |out|
    requires Shape(query, |kvs|, dk) && KVShape(kvs, dk, dv) && KVShape(cached, dk, dv)
    requires RowsDone(E, query, scale, cached, kvs, blockSize, tile, dv, |query|, out)
    ensures forall i :: 0 <= i < |query| ==> IsSoftmax(E, scale, query[i], cached + kvs[..i + 1], dv, out[i])
  {
    hide ExpLaw, IsRequestRow, IsSoftmax, Scale;
    forall i | 0 <= i < |query|
      ensures IsSoftmax(E, scale, query[i], cached + kvs[..i + 1], dv, out[i])
    {
      RequestRowMeaning(E, scale, query[i], cached, kvs, blockSize, tile, dv, i, out[i]);
    }
  }

  /** The first n output rows are the request's rows. */
  ghost predicate RowsDone(E: real -> real, query: seq<Vec>, scale: real, cached: seq<KV>, kvs: seq<KV>, blockSize: nat,
                           tile: nat, dv: nat, n: nat, out: seq<Vec>)
    requires blockSize > 0 && tile > 0 && n <= |query| <= |kvs| && |query| == |out|
  {
    forall i :: 0 <= i < n ==> IsRequestRow(E, Scale(scale, query[i]), cached, kvs, blockSize, tile, dv, i, out[i])
  }

  /** Entry k of fed holds the tiles shown for segment k. */
  ghost predicate AllFed(fed: seq<seq<Tile>>, segments: seq<Segment>, kvs: seq<KV>, cache: seq<seq<KV>>, table: seq<nat>,
                         contextLen: nat, blockSize: nat, tile: nat)
    requires blockSize > 0 && tile > 0 && forall k :: 0 <= k < |segments| ==> segments[k].start <= segments[k].end <= |kvs|
  {
    && |fed| == |segments|
    && forall k :: 0 <= k < |fed| ==>
        SegmentFeeds(fed[k], segments[k], kvs, cache, table, contextLen, blockSize, tile)
  }

  lemma SegmentShapes(query: seq<Vec>, kvs: seq<KV>, cached: seq<KV>, s: Segment, dk: nat, dv: nat)
    requires Shape(query, |kvs|, dk) && KVShape(kvs, dk, dv) && KVShape(cached, dk, dv) && s.start < s.end <= |kvs|
    ensures |query| == |kvs| && Shape(query[s.start..s.end], |kvs[s.start..s.end]|, dk)
    ensures KVShape(kvs[s.start..s.end], dk, dv) && KVShape(cached + kvs[..s.start], dk, dv)
  {
  }

  lemma NothingFed(segments: seq<Segment>, kvs: seq<KV>, cache: seq<seq<KV>>, table: seq<nat>, contextLen: nat,
                   blockSize: nat, tile: nat)
    requires blockSize > 0 && tile > 0
    ensures AllFed([], segments[..0], kvs, cache, table, contextLen, blockSize, tile)
  {
  }

  lemma FedNext(fed: seq<seq<Tile>>, tiles: seq<Tile>, segments: seq<Segment>, k: nat, kvs: seq<KV>, cache: seq<seq<KV>>,
                table: seq<nat>, contextLen: nat, blockSize: nat, tile: nat)
    requires blockSize > 0 && tile > 0 && forall i :: 0 <= i < |segments| ==> segments[i].start <= segments[i].end <= |kvs|
    requires k < |segments| && AllFed(fed, segments[..k], kvs, cache, table, contextLen, blockSize, tile)
    requires SegmentFeeds(tiles, segments[k], kvs, cache, table, contextLen, blockSize, tile)
    ensures AllFed(fed + [tiles], segments[..k + 1], kvs, cache, table, contextLen, blockSize, tile)
  {
    hide SegmentFeeds;
  }

  lemma SegmentsInside(contextLen: nat, queryLen: nat, blockSize: nat)
    requires blockSize > 0
    ensures var s := StrictPrefixQuerySegments(contextLen, queryLen, blockSize);
      forall k :: 0 <= k < |s| ==> s[k].start <= s[k].end <= queryLen
  {
  }

  /** The loop over a request's segments, each writing its slice of output; fed
      records the tiles shown for each. */
  method ForwardPrefix(E: real -> real, query: seq<Vec>, kvs: seq<KV>, cache: seq<seq<KV>>, table: seq<nat>,
                       contextLen: nat, blockSize: nat, tile: nat, scale: real, ghost dk: nat, dv: nat,
                       ghost cached: seq<KV>)
    returns (ok: bool, output: array<Vec>, ghost fed: seq<seq<Tile>>)
    requires ExpLaw(E) && blockSize > 0 && tile > 0
    requires Shape(query, |kvs|, dk) && KVShape(kvs, dk, dv) && KVShape(cached, dk, dv) && |cached| == contextLen
    requires BlocksFor(contextLen, blockSize) <= |table| ==> CacheHolds(cache, table, cached, blockSize)
    ensures ok <==> |query| == 0 || contextLen == 0 || BlocksFor(contextLen, blockSize) <= |table|
    ensures ok <==> |query| == 0 || contextLen <= |table| * blockSize
    ensures output.Length == |query|
    ensures ok ==> RowsDone(E, query, scale, cached, kvs, blockSize, tile, dv, |query|, output[..])
    ensures ok ==> forall i :: 0 <= i < |query| ==> IsSoftmax(E, scale, query[i], cached + kvs[..i + 1], dv, output[i])
    ensures ok ==> AllFed(fed, StrictPrefixQuerySegments(contextLen, |query|, blockSize), kvs, cache, table, contextLen, blockSize, tile)
  {
    hide ExpLaw, CacheHolds, BlocksFor, StrictPrefixQuerySegments, RowsDone, AllFed, IsSoftmax, KVShape;
    output := new Vec[|query|](_ => []);
    fed := [];
    var segments := StrictPrefixQuerySegments(contextLen, |query|, blockSize);
    NoRowsDone(E, query, scale, cached, kvs, blockSize, tile, dv, output[..]);
    NothingFed(segments, kvs, cache, table, contextLen, blockSize, tile);
    SegmentsInside(contextLen, |query|, blockSize);
    BlocksForMeaning(contextLen, |table|, blockSize);
    NoBlocks(blockSize);
    ghost var at := 0;
    for k := 0 to |segments|
      invariant k > 0 ==> contextLen == 0 || BlocksFor(contextLen, blockSize) <= |table|
      invariant at == (if k == 0 then 0 else segments[k - 1].end) && 0 <= at <= |query|
      invariant RowsDone(E, query, scale, cached, kvs, blockSize, tile, dv, at, output[..])
      invariant AllFed(fed, segments[..k], kvs, cache, table, contextLen, blockSize, tile)
    {
      SegmentFollows(contextLen, |query|, blockSize, k);
      ghost var tiles;
      ok, tiles := ForwardSegment(E, query, kvs, cache, table, contextLen, blockSize, tile, scale, dk, dv, cached, k,
                                  segments[k], output);
      if !ok {
        return false, output, fed;
      }
      FedNext(fed, tiles, segments, k, kvs, cache, table, contextLen, blockSize, tile);
      at, fed := segments[k].end, fed + [tiles];
    }
    assert segments[..|segments|] == segments;
    RowsMean(E, query, scale, cached, kvs, blockSize, tile, dk, dv, output[..]);
    return true, output, fed;
  }

  /** One turn of that loop. */
  method ForwardSegment(E: real -> real, query: seq<Vec>, kvs: seq<KV>, cache: seq<seq<KV>>, table: seq<nat>,
                        contextLen: nat, blockSize: nat, tile: nat, scale: real, ghost dk: nat, dv: nat,
                        ghost cached: seq<KV>, ghost k: nat, s: Segment, output: array<Vec>)
    returns (ok: bool, ghost tiles: seq<Tile>)
    requires ExpLaw(E) && blockSize > 0 && tile > 0
    requires Shape(query, |kvs|, dk) && KVShape(kvs, dk, dv) && KVShape(cached, dk, dv) && |cached| == contextLen
    requires BlocksFor(contextLen, blockSize) <= |table| ==> CacheHolds(cache, table, cached, blockSize)
    requires k < |StrictPrefixQuerySegments(contextLen, |query|, blockSize)|
    requires s == StrictPrefixQuerySegments(contextLen, |query|, blockSize)[k] && s.start < s.end <= |query|
    requires output.Length == |query| && RowsDone(E, query, scale, cached, kvs, blockSize, tile, dv, s.start, output[..])
    modifies output
    ensures ok <==> contextLen == 0 || BlocksFor(contextLen, blockSize) <= |table|
    ensures ok ==> RowsDone(E, query, scale, cached, kvs, blockSize, tile, dv, s.end, output[..])
    ensures ok ==> SegmentFeeds(tiles, s, kvs, cache, table, contextLen, blockSize, tile)
  {
    hide ExpLaw, CacheHolds, BlocksFor, Scale, StrictPrefixQuerySegments, IsSegmentRow, RowsDone, Feeds, KVShape;
    SegmentShapes(query, kvs, cached, s, dk, dv);
    var rows;
    rows, tiles := ForwardPrefixSegment(E, query[s.start..s.end], kvs[s.start..s.end], kvs[..s.start], cache, table,
                                        contextLen, blockSize, tile, scale, dk, dv, cached);
    if rows.None? {
      return false, tiles;
    }
    MoreRowsDone(E, query, scale, cached, kvs, blockSize, tile, dv, k, output[..], rows.value);
    WriteRows(output, s.start, rows.value);
    return true, tiles;
  }

  method WriteRows(output: array<Vec>, start: nat, rows: seq<Vec>)
    requires start + |rows| <= output.Length
    modifies output
    ensures output[..] == old(output[..start]) + rows + old(output[start + |rows|..])
  {
    forall i | start <= i < start + |rows| {
      output[i] := rows[i - start];
    }
  }

  lemma NoRowsDone(E: real -> real, query: seq<Vec>, scale: real, cached: seq<KV>, kvs: seq<KV>, blockSize: nat,
                   tile: nat, dv: nat, out: seq<Vec>)
    requires blockSize > 0 && tile > 0 && |query| <= |kvs| && |query| == |out|
    ensures RowsDone(E, query, scale, cached, kvs, blockSize, tile, dv, 0, out)
  {
  }

  lemma MoreRowsDone(E: real -> real, query: seq<Vec>, scale: real, cached: seq<KV>, kvs: seq<KV>, blockSize: nat,
                     tile: nat, dv: nat, k: nat, out: seq<Vec>, rows: seq<Vec>)
    requires blockSize > 0 && tile > 0 && |query| == |kvs| == |out|
    requires k < |StrictPrefixQuerySegments(|cached|, |query|, blockSize)|
    requires var s := StrictPrefixQuerySegments(|cached|, |query|, blockSize)[k];
      && s.start < s.end <= |query| && |rows| == s.end - s.start
      && RowsDone(E, query, scale, cached, kvs, blockSize, tile, dv, s.start, out)
      && forall r :: 0 <= r < |rows| ==>
        IsSegmentRow(E, Scale(scale, query[s.start..s.end][r]), r, cached + kvs[..s.start], kvs[s.start..s.end], tile, dv, rows[r])
    ensures var s := StrictPrefixQuerySegments(|cached|, |query|, blockSize)[k];
      RowsDone(E, query, scale, cached, kvs, blockSize, tile, dv, s.end, out[..s.start] + rows + out[s.end..])
  {
    hide Scale, StrictPrefixQuerySegments, IsSegmentRow, IsRequestRow;
    var s := StrictPrefixQuerySegments(|cached|, |query|, blockSize)[k];
    var next := out[..s.start] + rows + out[s.end..];
    forall i | s.start <= i < s.end
      ensures IsRequestRow(E, Scale(scale, query[i]), cached, kvs, blockSize, tile, dv, i, next[i])
    {
      assert query[s.start..s.end][i - s.start] == query[i] && next[i] == rows[i - s.start];
      RowOfSegment(E, Scale(scale, query[i]), cached, kvs, blockSize, tile, dv, i, k, next[i]);
    }
  }

  lemma SegmentFollows(contextLen: nat, queryLen: nat, blockSize: nat, k: nat)
    requires blockSize > 0 && k < |StrictPrefixQuerySegments(contextLen, queryLen, blockSize)|
    ensures var s := StrictPrefixQuerySegments(contextLen, queryLen, blockSize);
      && s[k].start == (if k == 0 then 0 else s[k - 1].end) && s[k].start < s[k].end <= queryLen
  {
  }

  lemma RowOfSegment(E: real -> real, q: Vec, cached: seq<KV>, kvs: seq<KV>, blockSize: nat, tile: nat,
                     dv: nat, i: nat, k: nat, out: Vec)
    requires blockSize > 0 && tile > 0 && i < |kvs|
    requires k < |StrictPrefixQuerySegments(|cached|, |kvs|, blockSize)|
    requires var s := StrictPrefixQuerySegments(|cached|, |kvs|, blockSize)[k];
      && s.start <= i < s.end <= |kvs|
      && IsSegmentRow(E, q, i - s.start, cached + kvs[..s.start], kvs[s.start..s.end], tile, dv, out)
    ensures IsRequestRow(E, q, cached, kvs, blockSize, tile, dv, i, out)
  {
    hide FoldRow, SegmentTiles;
    assert SegmentOf(|cached|, |kvs|, blockSize, i) == StrictPrefixQuerySegments(|cached|, |kvs|, blockSize)[k];
  }
}
