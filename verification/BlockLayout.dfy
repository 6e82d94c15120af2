/** Block arithmetic of the block cache, and the two populates that make an entry visible:
    one splits a body into blocks, the other stores it whole. */
module BlockLayout {
  type Bytes = seq<int>

  function Max(a: int, b: int): int { if a > b then a else b }
  function Min(a: int, b: int): int { if a < b then a else b }

  /** Inclusive byte bounds of block i; the last block is clamped to the object. */
  function BlockBounds(i: int, blockSize: int, length: int): (int, int) {
    (i * blockSize, Min(i * blockSize + blockSize - 1, length - 1))
  }

  /** Inclusive range of block indices covering the bytes [s, e]. */
  function CoveringBlocks(s: int, e: int, blockSize: int): (int, int)
    requires blockSize > 0
  {
    (s / blockSize, e / blockSize)
  }

  /** The part of [s, e] that lies in block i, in block-local offsets. */
  function BlockLocalRange(i: int, s: int, e: int, blockSize: int, length: int): (int, int) {
    var (first, last) := BlockBounds(i, blockSize, length);
    (Max(s, first) - first, Min(e, last) - first)
  }

  /** A byte range inside an object of the given length. */
  predicate InObject(s: int, e: int, blockSize: int, length: int) {
    0 <= s <= e < length && 0 < blockSize
  }

  predicate IsBlock(i: int, blockSize: int, length: int) {
    0 <= i && 0 < blockSize && i * blockSize < length
  }

  /** What a correctly populated block i holds. */
  function Block(content: Bytes, blockSize: int, i: int): Bytes
    requires IsBlock(i, blockSize, |content|)
  {
    assert 0 <= i * blockSize;
    var (first, last) := BlockBounds(i, blockSize, |content|);
    content[first..last + 1]
  }

  lemma DivBounds(x: int, b: int)
    requires 0 < b && 0 <= x
    ensures 0 <= x / b && x / b * b <= x < x / b * b + b
  {
  }

  lemma MulMonotone(i: int, j: int, b: int)
    requires i <= j && 0 <= b
    ensures i * b <= j * b
  {
  }

  lemma NextBlock(i: int, b: int)
    ensures (i + 1) * b == i * b + b
  {
  }

  /** Each covering block meets the range: its local bounds are proper, and in object offsets they
      run from the later of the two starts to the earlier of the two ends. */
  lemma CoveringBlockMeets(i: int, s: int, e: int, blockSize: int, length: int)
    requires InObject(s, e, blockSize, length)
    requires s / blockSize <= i <= e / blockSize
    ensures IsBlock(i, blockSize, length) && i * blockSize <= e && s < i * blockSize + blockSize
    ensures var (first, last) := BlockBounds(i, blockSize, length);
            var (from, to) := BlockLocalRange(i, s, e, blockSize, length);
            && 0 <= from <= to <= last - first
            && first + from == (if i == s / blockSize then s else first)
            && first + to == (if i == e / blockSize then e else last)
            && (i < e / blockSize ==> last + 1 == (i + 1) * blockSize)
  {
    DivBounds(s, blockSize);
    DivBounds(e, blockSize);
    MulMonotone(s / blockSize, i, blockSize);
    MulMonotone(i, e / blockSize, blockSize);
    NextBlock(i, blockSize);
    if i > s / blockSize {
      MulMonotone(s / blockSize + 1, i, blockSize);
      NextBlock(s / blockSize, blockSize);
    }
    if i < e / blockSize { MulMonotone(i + 1, e / blockSize, blockSize); }
  }

  lemma CoveringOrder(s: int, e: int, blockSize: int)
    requires 0 <= s <= e && 0 < blockSize
    ensures 0 <= s / blockSize <= e / blockSize
  {
    DivBounds(s, blockSize);
    DivBounds(e, blockSize);
    if e / blockSize < s / blockSize {
      MulMonotone(e / blockSize + 1, s / blockSize, blockSize);
      NextBlock(e / blockSize, blockSize);
    }
  }

  /** The slice of block i that a request for [s, e] reads. */
  function LocalSlice(content: Bytes, blockSize: int, i: int, s: int, e: int): Bytes
    requires InObject(s, e, blockSize, |content|) && s / blockSize <= i <= e / blockSize
  {
    CoveringBlockMeets(i, s, e, blockSize, |content|);
    var (from, to) := BlockLocalRange(i, s, e, blockSize, |content|);
    Block(content, blockSize, i)[from..to + 1]
  }

  /** Object offset at which block i's slice starts, for i up to one past the last covering block. */
  function SliceStart(i: int, s: int, e: int, blockSize: int): int
    requires 0 < blockSize
  {
    if i <= s / blockSize then s else if i <= e / blockSize then i * blockSize else e + 1
  }

  lemma SliceBounds(i: int, s: int, e: int, blockSize: int, length: int)
    requires InObject(s, e, blockSize, length) && s / blockSize <= i <= e / blockSize
    ensures var (from, to) := BlockLocalRange(i, s, e, blockSize, length);
            var first := BlockBounds(i, blockSize, length).0;
            && s <= first + from == SliceStart(i, s, e, blockSize)
            && first + from <= first + to == SliceStart(i + 1, s, e, blockSize) - 1 <= e
  {
    CoveringBlockMeets(i, s, e, blockSize, length);
    hide BlockBounds, BlockLocalRange;
  }

  /** Block i's local slice is exactly the object's bytes from one slice start to the next; the two
      ways the source computes its offset (a running total, and block start plus local start minus
      range start) agree. */
  lemma SliceTiles(content: Bytes, blockSize: int, i: int, s: int, e: int)
    requires InObject(s, e, blockSize, |content|) && s / blockSize <= i <= e / blockSize
    ensures var a, b := SliceStart(i, s, e, blockSize), SliceStart(i + 1, s, e, blockSize);
            var (from, to) := BlockLocalRange(i, s, e, blockSize, |content|);
            && s <= a < b <= e + 1
            && LocalSlice(content, blockSize, i, s, e) == content[a..b]
            && BlockBounds(i, blockSize, |content|).0 + from - s == a - s
            && to - from + 1 == b - a
  {
    CoveringBlockMeets(i, s, e, blockSize, |content|);
    SliceBounds(i, s, e, blockSize, |content|);
    var (first, last) := BlockBounds(i, blockSize, |content|);
    var (from, to) := BlockLocalRange(i, s, e, blockSize, |content|);
    SubSlice(content, first, last + 1, from, to + 1);
    hide SliceStart, BlockLocalRange, BlockBounds;
  }

  lemma SubSlice(x: Bytes, a: int, b: int, c: int, d: int)
    requires 0 <= a <= b <= |x| && 0 <= c <= d <= b - a
    ensures x[a..b][c..d] == x[a + c..a + d]
  {
    var y, z := x[a..b][c..d], x[a + c..a + d];
    assert |y| == |z|;
    forall k | 0 <= k < |y| ensures y[k] == z[k] {
      assert y[k] == x[a..b][c + k] == x[a + (c + k)];
    }
  }

  /** The slices of blocks [s/b .. n), one after the other. */
  function Assembled(content: Bytes, blockSize: int, s: int, e: int, n: int): Bytes
    requires InObject(s, e, blockSize, |content|)
    requires s / blockSize <= n <= e / blockSize + 1
    decreases n - s / blockSize
  {
    if n == s / blockSize then []
    else Assembled(content, blockSize, s, e, n - 1) + LocalSlice(content, blockSize, n - 1, s, e)
  }

  /** Concatenating the local slices of the covering blocks gives exactly the requested bytes. */
  lemma {:induction false} SlicesReassembleRange(content: Bytes, blockSize: int, s: int, e: int, n: int)
    requires InObject(s, e, blockSize, |content|)
    requires s / blockSize <= n <= e / blockSize + 1
    ensures s <= SliceStart(n, s, e, blockSize) <= e + 1
    ensures Assembled(content, blockSize, s, e, n) == content[s..SliceStart(n, s, e, blockSize)]
    ensures n == e / blockSize + 1 ==> Assembled(content, blockSize, s, e, n) == content[s..e + 1]
    decreases n - s / blockSize
  {
    hide LocalSlice, BlockLocalRange, BlockBounds;
    CoveringOrder(s, e, blockSize);
    if n > s / blockSize {
      SlicesReassembleRange(content, blockSize, s, e, n - 1);
      SliceTiles(content, blockSize, n - 1, s, e);
    }
  }

  /** A range no longer than a block touches at most two blocks. */
  lemma ShortRangeTouchesTwo(s: int, e: int, blockSize: int, length: int)
    requires InObject(s, e, blockSize, length) && e - s + 1 <= blockSize
    ensures e / blockSize - s / blockSize <= 1
  {
    DivBounds(s, blockSize);
    DivBounds(e, blockSize);
    if e / blockSize >= s / blockSize + 2 {
      MulMonotone(s / blockSize + 2, e / blockSize, blockSize);
      NextBlock(s / blockSize, blockSize);
      NextBlock(s / blockSize + 1, blockSize);
    }
  }

  /** An upstream body: the bytes it yields, and whether it then ends cleanly or with an error. */
  datatype Source = Source(data: Bytes, clean: bool)

  datatype ReadEnd = Filled | EOF | Broken

  /** Fill a buffer of n bytes from position pos: EOF only when nothing was left and the source
      ended cleanly, otherwise a short read is broken. */
  function ReadFull(src: Source, pos: nat, n: nat): (r: (Bytes, ReadEnd))
    requires pos <= |src.data|
    ensures r.1 == Filled <==> pos + n <= |src.data|
    ensures r.1 == Filled ==> r.0 == src.data[pos..pos + n]
    ensures n > 0 ==> (r.1 == EOF <==> pos == |src.data| && src.clean)
  {
    if pos + n <= |src.data| then (src.data[pos..pos + n], Filled)
    else (src.data[pos..], if pos == |src.data| && src.clean then EOF else Broken)
  }

  datatype Populate = Published | PreconditionLost | NotCacheable | ShortBody | WrongLength | StoreFailed

  /** Every stored block is the body's own bytes at that block's place, at its full length. */
  ghost predicate OnlyFullBlocks(blocks: map<int, Bytes>, data: Bytes, blockSize: int, length: int) {
    forall i :: i in blocks ==>
      && IsBlock(i, blockSize, length)
      && var (first, last) := BlockBounds(i, blockSize, length);
         && 0 <= first <= last < |data|
         && blocks[i] == data[first..last + 1]
  }

  /** Exactly the blocks 0..n are present. */
  ghost predicate Exactly(blocks: map<int, Bytes>, n: int) {
    forall i :: i in blocks <==> 0 <= i < n
  }

  /** Bytes taken by the first i blocks. */
  function BlockStart(i: int, blockSize: int, length: int): int {
    Min(i * blockSize, length)
  }

  lemma BlockStep(i: int, blockSize: int, length: int)
    requires 0 < length && 0 < blockSize && 0 <= i <= (length - 1) / blockSize
    ensures IsBlock(i, blockSize, length)
    ensures var (first, last) := BlockBounds(i, blockSize, length);
            0 <= first == BlockStart(i, blockSize, length) <= last == BlockStart(i + 1, blockSize, length) - 1 < length
    ensures i == (length - 1) / blockSize ==> BlockStart(i + 1, blockSize, length) == length
  {
    DivBounds(length - 1, blockSize);
    MulMonotone(i, (length - 1) / blockSize, blockSize);
    NextBlock(i, blockSize);
  }

  lemma NoBlocksYet(data: Bytes, blockSize: int, length: int)
    requires 0 < length && 0 < blockSize
    ensures OnlyFullBlocks(map[], data, blockSize, length) && BlockStart(0, blockSize, length) == 0
    ensures 0 <= (length - 1) / blockSize
  {
    DivBounds(length - 1, blockSize);
  }

  lemma OneMoreBlock(blocks: map<int, Bytes>, data: Bytes, blockSize: int, length: int, i: int, buf: Bytes)
    requires OnlyFullBlocks(blocks, data, blockSize, length) && IsBlock(i, blockSize, length)
    requires var (first, last) := BlockBounds(i, blockSize, length);
             0 <= first <= last < |data| && buf == data[first..last + 1]
    ensures OnlyFullBlocks(blocks[i := buf], data, blockSize, length)
  {
  }

  /** What a request for [s, e] reads from the stored blocks [s/b .. n): each block's local slice, or
      nothing where it is not stored that far. */
  function ServedFrom(blocks: map<int, Bytes>, blockSize: int, length: int, s: int, e: int, n: int): Bytes
    requires 0 < blockSize && s / blockSize <= n
    decreases n - s / blockSize
  {
    if n == s / blockSize then [] else
    var (from, to) := BlockLocalRange(n - 1, s, e, blockSize, length);
    ServedFrom(blocks, blockSize, length, s, e, n - 1)
    + if n - 1 in blocks && 0 <= from <= to < |blocks[n - 1]| then blocks[n - 1][from..to + 1] else []
  }

  /** Every range of the body can be read back from its covering blocks. */
  ghost predicate ServesEveryRange(blocks: map<int, Bytes>, data: Bytes, blockSize: int)
    requires 0 < blockSize
  {
    forall s, e :: 0 <= s <= e < |data| ==> ServesRange(blocks, data, blockSize, s, e)
  }

  ghost predicate ServesRange(blocks: map<int, Bytes>, data: Bytes, blockSize: int, s: int, e: int)
    requires 0 < blockSize && 0 <= s <= e < |data|
  {
    CoveringOrder(s, e, blockSize);
    ServedFrom(blocks, blockSize, |data|, s, e, e / blockSize + 1) == data[s..e + 1]
  }

  lemma {:induction false} ServedIsAssembled(blocks: map<int, Bytes>, data: Bytes, blockSize: int, s: int, e: int, n: int)
    requires InObject(s, e, blockSize, |data|) && s / blockSize <= n <= e / blockSize + 1
    requires OnlyFullBlocks(blocks, data, blockSize, |data|) && Exactly(blocks, (|data| - 1) / blockSize + 1)
    ensures ServedFrom(blocks, blockSize, |data|, s, e, n) == Assembled(data, blockSize, s, e, n)
    decreases n - s / blockSize
  {
    hide OnlyFullBlocks, Exactly, LocalSlice, BlockLocalRange, BlockBounds;
    if n > s / blockSize {
      ServedIsAssembled(blocks, data, blockSize, s, e, n - 1);
      StoredIsBlock(blocks, data, blockSize, s, e, n - 1);
    }
  }

  lemma StoredIsBlock(blocks: map<int, Bytes>, data: Bytes, blockSize: int, s: int, e: int, i: int)
    requires InObject(s, e, blockSize, |data|) && s / blockSize <= i <= e / blockSize
    requires OnlyFullBlocks(blocks, data, blockSize, |data|) && Exactly(blocks, (|data| - 1) / blockSize + 1)
    ensures i in blocks
    ensures var (from, to) := BlockLocalRange(i, s, e, blockSize, |data|);
            0 <= from <= to < |blocks[i]| && blocks[i][from..to + 1] == LocalSlice(data, blockSize, i, s, e)
  {
    CoveringBlockMeets(i, s, e, blockSize, |data|);
    CoveringOrder(e, |data| - 1, blockSize);
    CoveringOrder(0, s, blockSize);
  }

  /** A published entry serves every range: the stored blocks' slices, concatenated over the covering
      blocks, are exactly the bytes asked for. */
  lemma PublishedBlocksServeEveryRange(blocks: map<int, Bytes>, data: Bytes, blockSize: int)
    requires 0 < blockSize
    requires OnlyFullBlocks(blocks, data, blockSize, |data|) && Exactly(blocks, (|data| - 1) / blockSize + 1)
    ensures ServesEveryRange(blocks, data, blockSize)
  {
    hide ServedFrom, OnlyFullBlocks, Exactly;
    forall s, e | 0 <= s <= e < |data| ensures ServesRange(blocks, data, blockSize, s, e) {
      CoveringOrder(s, e, blockSize);
      ServedIsAssembled(blocks, data, blockSize, s, e, e / blockSize + 1);
      SlicesReassembleRange(data, blockSize, s, e, e / blockSize + 1);
    }
  }

  /** Split a streamed body into blocks, then publish the entry's metadata. Whatever the body does
      (ends early, runs long, breaks off) and whichever store write fails, no short block is stored;
      the metadata is attempted only for a body of exactly the declared length that ended cleanly,
      and then every block of that body is present and every range of it can be served from them. */
  method PutBlocksFromStream(src: Source, length: int, blockSize: int, storeFails: int -> bool, won: bool)
    returns (blocks: map<int, Bytes>, r: Populate)
    requires 0 < length && 0 < blockSize
    ensures OnlyFullBlocks(blocks, src.data, blockSize, length)
    ensures r in {Published, PreconditionLost, ShortBody, WrongLength, StoreFailed}
    ensures r in {Published, PreconditionLost} ==>
              && src.clean && |src.data| == length
              && Exactly(blocks, (length - 1) / blockSize + 1)
              && ServesEveryRange(blocks, src.data, blockSize)
    ensures r == ShortBody ==> |src.data| < length
    ensures r == WrongLength ==> |src.data| > length || (|src.data| == length && !src.clean)
    ensures r == StoreFailed ==> exists i :: 0 <= i <= (length - 1) / blockSize && storeFails(i)
    ensures r == Published ==> won
    ensures r == PreconditionLost ==> !won
  {
    hide OnlyFullBlocks, BlockStart, BlockBounds, IsBlock, ServesEveryRange;
    blocks := map[];
    NoBlocksYet(src.data, blockSize, length);
    var lastBlock := (length - 1) / blockSize;
    var pos: nat, i := 0, 0;
    while i <= lastBlock
      invariant 0 <= i <= lastBlock + 1
      invariant pos == BlockStart(i, blockSize, length) <= |src.data|
      invariant OnlyFullBlocks(blocks, src.data, blockSize, length)
      invariant Exactly(blocks, i)
    {
      BlockStep(i, blockSize, length);
      var (first, last) := BlockBounds(i, blockSize, length);
      var want := last - first + 1;
      var (buf, end) := ReadFull(src, pos, want);
      if end != Filled { return blocks, ShortBody; }
      if storeFails(i) { return blocks, StoreFailed; }
      OneMoreBlock(blocks, src.data, blockSize, length, i, buf);
      blocks := blocks[i := buf];
      pos := pos + want;
      i := i + 1;
    }
    BlockStep(lastBlock, blockSize, length);
    var (_, end) := ReadFull(src, pos, 1);
    if end != EOF { return blocks, WrongLength; }
    PublishedBlocksServeEveryRange(blocks, src.data, blockSize);
    r := if won then Published else PreconditionLost;
  }

  /** Store a streamed body whole, then publish its metadata. The store reports how many bytes it
      consumed; a dishonest store may take a broken stream for a finished one. Metadata is attempted
      only after the body, and a declared length is matched exactly even by a dishonest store. A body
      of unknown length is only as complete as the store is honest. */
  method PutWithMetaStream(src: Source, hasETag: bool, length: int, ghost honest: bool)
    returns (body: Bytes, r: Populate)
    ensures r in {Published, PreconditionLost, NotCacheable, WrongLength, StoreFailed}
    ensures r == NotCacheable <==> !hasETag
    ensures r in {Published, PreconditionLost} ==>
              && body <= src.data
              && (length >= 0 ==> |body| == length)
              && (honest ==> body == src.data && src.clean)
    ensures r == WrongLength ==> 0 <= length && (honest ==> length != |src.data|)
  {
    if !hasETag { return [], NotCacheable; }
    var consumed, ok := StoreBody(src, honest);
    body := src.data[..consumed];
    if !ok { return body, StoreFailed; }
    if length >= 0 && consumed != length { return body, WrongLength; }
    var won: bool := *;
    r := if won then Published else PreconditionLost;
  }

  /** The store's streaming put. */
  method StoreBody(src: Source, ghost honest: bool) returns (consumed: nat, ok: bool)
    ensures consumed <= |src.data|
    ensures honest && ok ==> consumed == |src.data| && src.clean
  {
    consumed, ok := |src.data|, src.clean;
  }
}
