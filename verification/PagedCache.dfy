/** The paged key/value cache: a sequence's tokens live in fixed-size blocks that
    its block table points at. */
module PagedCache {
  import opened Arithmetic

  function Flatten<T>(blocks: seq<seq<T>>): seq<T> {
    if |blocks| == 0 then [] else Flatten(blocks[..|blocks| - 1]) + blocks[|blocks| - 1]
  }

  function BlockOf(j: nat, blockSize: nat): (b: nat)
    requires blockSize > 0
  {
    j / blockSize
  }

  function OffsetOf(j: nat, blockSize: nat): (o: nat)
    requires blockSize > 0
    ensures o < blockSize
  {
    j % blockSize
  }

  /** How many blocks the first n positions need. */
  function BlocksFor(n: nat, blockSize: nat): (b: nat)
    requires blockSize > 0
  {
    (n + blockSize - 1) / blockSize
  }

  function Base(b: nat, blockSize: nat): (p: nat) {
    b * blockSize
  }

  /** The cache holds the tokens of cached, block by block, where the block
      table points. */
  ghost predicate CacheHolds<T>(cache: seq<seq<T>>, table: seq<nat>, cached: seq<T>, blockSize: nat)
    requires blockSize > 0
  {
    && (forall b :: 0 <= b < |cache| ==> |cache[b]| == blockSize)
    && forall j :: 0 <= j < |cached| ==> HeldAt(cache, table, cached, blockSize, j)
  }

  ghost predicate HeldAt<T>(cache: seq<seq<T>>, table: seq<nat>, cached: seq<T>, blockSize: nat, j: nat)
    requires blockSize > 0 && j < |cached|
  {
    var b, o := BlockOf(j, blockSize), OffsetOf(j, blockSize);
    b < |table| && table[b] < |cache| && o < |cache[table[b]]| && cache[table[b]][o] == cached[j]
  }

  ghost predicate Gatherable<T>(cache: seq<seq<T>>, table: seq<nat>, first: nat, last: nat, blockSize: nat) {
    && first <= last <= |table|
    && forall b :: first <= b < last ==> table[b] < |cache| && |cache[table[b]]| == blockSize
  }

  function Blocks<T>(cache: seq<seq<T>>, table: seq<nat>, first: nat, last: nat, blockSize: nat): (r: seq<seq<T>>)
    requires Gatherable(cache, table, first, last, blockSize)
    ensures |r| == last - first
  {
    seq(last - first, b requires 0 <= b < last - first => cache[table[first + b]])
  }

  /** Reading positions [start, end) of a sequence through its block table:
      whole blocks are gathered, then cut to the range. */
  function Gather<T>(cache: seq<seq<T>>, table: seq<nat>, start: nat, end: nat, blockSize: nat): (r: seq<T>)
    requires blockSize > 0 && start < end
    requires Gatherable(cache, table, BlockOf(start, blockSize), BlocksFor(end, blockSize), blockSize)
    ensures |r| == end - start
  {
    var first, last := BlockOf(start, blockSize), BlocksFor(end, blockSize);
    var offset := start - Base(first, blockSize);
    var blocks := Blocks(cache, table, first, last, blockSize);
    FlattenLength(blocks, blockSize);
    BlockBounds(start, end, blockSize);
    Flatten(blocks)[offset..offset + (end - start)]
  }

  lemma {:induction false} FlattenLength<T>(blocks: seq<seq<T>>, blockSize: nat)
    requires forall b :: 0 <= b < |blocks| ==> |blocks[b]| == blockSize
    ensures |Flatten(blocks)| == Base(|blocks|, blockSize)
  {
    if |blocks| > 0 {
      FlattenLength(blocks[..|blocks| - 1], blockSize);
      assert |blocks| * blockSize == (|blocks| - 1) * blockSize + blockSize;
    }
  }

  lemma {:induction false} FlattenAt<T>(blocks: seq<seq<T>>, blockSize: nat, b: nat, o: nat, at: nat)
    requires forall i :: 0 <= i < |blocks| ==> |blocks[i]| == blockSize
    requires b < |blocks| && o < blockSize && at == Base(b, blockSize) + o
    ensures at < |Flatten(blocks)| && Flatten(blocks)[at] == blocks[b][o]
  {
    hide Base;
    var n := |blocks| - 1;
    FlattenLength(blocks[..n], blockSize);
    if b < n {
      FlattenAt(blocks[..n], blockSize, b, o, at);
    }
  }

  /** The gathered blocks cover the range. */
  lemma BlockBounds(start: nat, end: nat, blockSize: nat)
    requires blockSize > 0 && start < end
    ensures BlockOf(start, blockSize) < BlocksFor(end, blockSize)
    ensures Base(BlockOf(start, blockSize), blockSize) <= start
    ensures Base(BlocksFor(end, blockSize) - BlockOf(start, blockSize), blockSize)
            >= end - Base(BlockOf(start, blockSize), blockSize)
  {
    var p, q := start / blockSize, (end + blockSize - 1) / blockSize;
    assert p * blockSize <= start;
    assert q * blockSize >= end;
    if p >= q {
      MulOrder(q, p, blockSize);
      assert false;
    }
    assert (q - p) * blockSize == q * blockSize - p * blockSize;
  }

  /** A block before the last one needed starts inside the range. */
  lemma BlockStart(b: nat, end: nat, blockSize: nat)
    requires blockSize > 0 && b < BlocksFor(end, blockSize)
    ensures Base(b, blockSize) < end && BlockOf(Base(b, blockSize), blockSize) == b
  {
    var last := (end + blockSize - 1) / blockSize;
    assert last * blockSize <= end + blockSize - 1;
    MulOrder(b + 1, last, blockSize);
    DivUnique(b * blockSize, blockSize, b, 0);
  }

  /** Where position j of the range falls among the gathered blocks. */
  lemma PositionInBlocks(j: nat, start: nat, end: nat, blockSize: nat)
    requires blockSize > 0 && start <= j < end
    ensures BlockOf(start, blockSize) <= BlockOf(j, blockSize) < BlocksFor(end, blockSize)
    ensures j - Base(BlockOf(start, blockSize), blockSize)
            == Base(BlockOf(j, blockSize) - BlockOf(start, blockSize), blockSize) + OffsetOf(j, blockSize)
  {
    var first, last, b := start / blockSize, (end + blockSize - 1) / blockSize, j / blockSize;
    assert b * blockSize + j % blockSize == j;
    assert first * blockSize <= start;
    assert last * blockSize >= end;
    if b >= last {
      MulOrder(last, b, blockSize);
      assert false;
    }
    if b < first {
      MulOrder(b + 1, first, blockSize);
      assert false;
    }
    assert (b - first) * blockSize == b * blockSize - first * blockSize;
  }

  lemma CacheGatherable<T>(cache: seq<seq<T>>, table: seq<nat>, cached: seq<T>, blockSize: nat, start: nat, end: nat)
    requires blockSize > 0 && start < end <= |cached| && CacheHolds(cache, table, cached, blockSize)
    ensures Gatherable(cache, table, BlockOf(start, blockSize), BlocksFor(end, blockSize), blockSize)
  {
    hide BlockOf, BlocksFor, OffsetOf, Base;
    var first, last := BlockOf(start, blockSize), BlocksFor(end, blockSize);
    BlockBounds(start, end, blockSize);
    forall b | first <= b < last ensures b < |table| && table[b] < |cache| && |cache[table[b]]| == blockSize {
      BlockStart(b, end, blockSize);
      assert HeldAt(cache, table, cached, blockSize, Base(b, blockSize));
    }
    BlockStart(last - 1, end, blockSize);
    assert HeldAt(cache, table, cached, blockSize, Base(last - 1, blockSize));
  }

  /** The gather returns the tokens the cache holds, whatever blocks they are in. */
  lemma GatherReads<T>(cache: seq<seq<T>>, table: seq<nat>, cached: seq<T>, blockSize: nat, start: nat, end: nat)
    requires blockSize > 0 && start < end <= |cached| && CacheHolds(cache, table, cached, blockSize)
    ensures Gatherable(cache, table, BlockOf(start, blockSize), BlocksFor(end, blockSize), blockSize)
    ensures Gather(cache, table, start, end, blockSize) == cached[start..end]
  {
    hide BlockOf, BlocksFor, OffsetOf, Base, Flatten;
    CacheGatherable(cache, table, cached, blockSize, start, end);
    var first, last := BlockOf(start, blockSize), BlocksFor(end, blockSize);
    var blocks := Blocks(cache, table, first, last, blockSize);
    var base := Base(first, blockSize);
    BlockBounds(start, end, blockSize);
    FlattenLength(blocks, blockSize);
    forall i | 0 <= i < end - start
      ensures Gather(cache, table, start, end, blockSize)[i] == cached[start..end][i]
    {
      var j := start + i;
      var b, o := BlockOf(j, blockSize), OffsetOf(j, blockSize);
      PositionInBlocks(j, start, end, blockSize);
      FlattenAt(blocks, blockSize, b - first, o, j - base);
      assert HeldAt(cache, table, cached, blockSize, j);
      assert first + (b - first) == b;
      assert blocks[b - first] == cache[table[b]];
      assert Gather(cache, table, start, end, blockSize)[i] == Flatten(blocks)[j - base];
    }
  }

  // ---------------------------------------------------------------------
  // The same in numbers
  // ---------------------------------------------------------------------

  /** Token j lies in entry j % blockSize of the block that entry j / blockSize of
      the block table names. */
  lemma HoldsMeaning<T>(cache: seq<seq<T>>, table: seq<nat>, cached: seq<T>, blockSize: nat)
    requires blockSize > 0 && forall b :: 0 <= b < |cache| ==> |cache[b]| == blockSize
    ensures CacheHolds(cache, table, cached, blockSize) <==>
      forall j :: 0 <= j < |cached| ==>
        && 0 <= j / blockSize < |table| && table[j / blockSize] < |cache|
        && cache[table[j / blockSize]][j % blockSize] == cached[j]
  {
    if CacheHolds(cache, table, cached, blockSize) {
      forall j | 0 <= j < |cached|
        ensures 0 <= j / blockSize < |table| && table[j / blockSize] < |cache|
        ensures cache[table[j / blockSize]][j % blockSize] == cached[j]
      {
        assert HeldAt(cache, table, cached, blockSize, j);
      }
    }
  }

  /** A table of t blocks is long enough for n tokens when they fit in t blocks. */
  lemma BlocksForMeaning(n: nat, t: nat, blockSize: nat)
    requires blockSize > 0
    ensures BlocksFor(n, blockSize) <= t <==> n <= t * blockSize
  {
    var b := BlocksFor(n, blockSize);
    assert b * blockSize >= n && b * blockSize < n + blockSize;
    if b <= t {
      MulOrder(b, t, blockSize);
    } else {
      MulOrder(t + 1, b, blockSize);
    }
  }
}
