/** Assembling a short range in a buffer before anything is sent. */
module BlockAssembly {
  import opened BlockLayout
  import opened BlockStream

  /** The part of the buffer that belongs to block i holds that block's bytes. */
  ghost predicate Landed(buf: Bytes, content: Bytes, blockSize: int, s: int, e: int, i: int)
    requires InObject(s, e, blockSize, |content|) && s / blockSize <= i <= e / blockSize
    requires |buf| == e - s + 1
  {
    SliceTiles(content, blockSize, i, s, e);
    var a, b := SliceStart(i, s, e, blockSize), SliceStart(i + 1, s, e, blockSize);
    buf[a - s..b - s] == content[a..b]
  }

  lemma SlicesInOrder(content: Bytes, blockSize: int, s: int, e: int, i: int, j: int)
    requires InObject(s, e, blockSize, |content|)
    requires s / blockSize <= i < j <= e / blockSize
    ensures SliceStart(i + 1, s, e, blockSize) <= SliceStart(j, s, e, blockSize)
  {
    MulMonotone(i + 1, j, blockSize);
  }

  /** Writing one block's part leaves every other block's part as it was. */
  lemma OthersStayLanded(buf: Bytes, buf': Bytes, content: Bytes, blockSize: int, s: int, e: int, i: int, j: int)
    requires InObject(s, e, blockSize, |content|) && |buf| == |buf'| == e - s + 1
    requires s / blockSize <= i <= e / blockSize && s / blockSize <= j <= e / blockSize && i != j
    requires forall p :: 0 <= p < |buf| && !(SliceStart(i, s, e, blockSize) - s <= p < SliceStart(i + 1, s, e, blockSize) - s)
               ==> buf'[p] == buf[p]
    requires Landed(buf, content, blockSize, s, e, j)
    ensures Landed(buf', content, blockSize, s, e, j)
  {
    if i < j { SlicesInOrder(content, blockSize, s, e, i, j); } else { SlicesInOrder(content, blockSize, s, e, j, i); }
    SliceTiles(content, blockSize, j, s, e);
    hide SliceStart;
    var a, b := SliceStart(j, s, e, blockSize) - s, SliceStart(j + 1, s, e, blockSize) - s;
    assert forall p :: a <= p < b ==> buf'[p] == buf[p];
    assert buf'[a..b] == buf[a..b];
  }

  /** A buffer in which every covering block has landed is the requested range. */
  lemma {:induction false} AllLanded(buf: Bytes, content: Bytes, blockSize: int, s: int, e: int, n: int)
    requires InObject(s, e, blockSize, |content|) && |buf| == e - s + 1
    requires s / blockSize <= n <= e / blockSize + 1
    requires forall j :: s / blockSize <= j < n ==> Landed(buf, content, blockSize, s, e, j)
    ensures s <= SliceStart(n, s, e, blockSize) <= e + 1
    ensures buf[..SliceStart(n, s, e, blockSize) - s] == content[s..SliceStart(n, s, e, blockSize)]
    decreases n - s / blockSize
  {
    CoveringOrder(s, e, blockSize);
    if n == s / blockSize {
      StartsAtRange(s, e, blockSize);
    } else {
      AllLanded(buf, content, blockSize, s, e, n - 1);
      SliceTiles(content, blockSize, n - 1, s, e);
      assert Landed(buf, content, blockSize, s, e, n - 1);
      hide SliceStart;
      var a, b := SliceStart(n - 1, s, e, blockSize), SliceStart(n, s, e, blockSize);
      assert buf[..b - s] == buf[..a - s] + buf[a - s..b - s];
      assert content[s..b] == content[s..a] + content[a..b];
    }
  }

  /** Place a slice at its offset in the buffer; nothing else in the buffer changes. */
  method Place(buf: array<int>, off: int, data: Bytes)
    requires 0 <= off && off + |data| <= buf.Length
    modifies buf
    ensures buf[off..off + |data|] == data
    ensures forall p :: 0 <= p < buf.Length && !(off <= p < off + |data|) ==> buf[p] == old(buf[p])
  {
    for k := 0 to |data|
      invariant forall p :: 0 <= p < k ==> buf[off + p] == data[p]
      invariant forall p :: 0 <= p < buf.Length && !(off <= p < off + k) ==> buf[p] == old(buf[p])
    {
      buf[off + k] := data[k];
    }
  }

  /** Write a prefix of block i's slice into its place. */
  method Land(serve: BlockServe, buf: array<int>, off: int, i: int, data: Bytes)
    requires serve.Valid() && buf.Length == serve.last - serve.first + 1
    requires serve.first / serve.blockSize <= i <= serve.last / serve.blockSize
    requires off == SliceStart(i, serve.first, serve.last, serve.blockSize) - serve.first
    requires data <= LocalSlice(serve.content, serve.blockSize, i, serve.first, serve.last)
    modifies buf
    ensures OnlyBlockWritten(serve, old(buf[..]), buf[..], i)
    ensures data == LocalSlice(serve.content, serve.blockSize, i, serve.first, serve.last)
        ==> Landed(buf[..], serve.content, serve.blockSize, serve.first, serve.last, i)
  {
    SliceTiles(serve.content, serve.blockSize, i, serve.first, serve.last);
    hide SliceStart, BlockLocalRange, BlockBounds, LocalSlice;
    Place(buf, off, data);
  }

  /** Read block i's slice into its place, or leave a prefix of it there. */
  method ReadInto(serve: BlockServe, buf: array<int>, off: int, i: int) returns (fault: Fault)
    requires serve.Valid() && buf.Length == serve.last - serve.first + 1
    requires serve.first / serve.blockSize <= i <= serve.last / serve.blockSize
    requires off == SliceStart(i, serve.first, serve.last, serve.blockSize) - serve.first
    modifies buf
    ensures fault in {NoFault, NotFound, Transient}
    ensures OnlyBlockWritten(serve, old(buf[..]), buf[..], i)
    ensures fault == NoFault ==> Landed(buf[..], serve.content, serve.blockSize, serve.first, serve.last, i)
  {
    var s, e, blockSize := serve.first, serve.last, serve.blockSize;
    CoveringBlockMeets(i, s, e, blockSize, |serve.content|);
    var (from, to) := BlockLocalRange(i, s, e, blockSize, |serve.content|);
    hide SliceStart, BlockLocalRange, BlockBounds, Block, Landed, OnlyBlockWritten;
    var dst;
    dst, fault := serve.ReadSlice(i, from, to);
    Land(serve, buf, off, i, dst);
  }

  /** Only block i's part of the buffer differs. */
  ghost predicate OnlyBlockWritten(serve: BlockServe, before: Bytes, after: Bytes, i: int)
    requires 0 < serve.blockSize
  {
    && |before| == |after|
    && forall p :: 0 <= p < |before|
         && !(SliceStart(i, serve.first, serve.last, serve.blockSize) <= serve.first + p
                < SliceStart(i + 1, serve.first, serve.last, serve.blockSize))
         ==> after[p] == before[p]
  }

  /** Every covering block up to n that is not listed as missing has landed. */
  ghost predicate LandedExcept(serve: BlockServe, buf: Bytes, n: int, missing: seq<int>)
    requires InObject(serve.first, serve.last, serve.blockSize, |serve.content|)
    requires |buf| == serve.last - serve.first + 1
    requires n <= serve.last / serve.blockSize + 1
  {
    forall j :: serve.first / serve.blockSize <= j < n && j !in missing ==>
      Landed(buf, serve.content, serve.blockSize, serve.first, serve.last, j)
  }

  /** One block's write adds at most that block to the landed ones. */
  lemma OneMoreLanded(serve: BlockServe, before: Bytes, after: Bytes, i: int, n: int, n': int, missing: seq<int>, missing': seq<int>)
    requires InObject(serve.first, serve.last, serve.blockSize, |serve.content|)
    requires |before| == |after| == serve.last - serve.first + 1
    requires serve.first / serve.blockSize <= i <= serve.last / serve.blockSize
    requires n <= serve.last / serve.blockSize + 1 && n' <= serve.last / serve.blockSize + 1
    requires OnlyBlockWritten(serve, before, after, i) && LandedExcept(serve, before, n, missing)
    requires i in missing' || Landed(after, serve.content, serve.blockSize, serve.first, serve.last, i)
    requires forall j :: j < n' && j !in missing' && j != i ==> j < n && j !in missing
    ensures LandedExcept(serve, after, n', missing')
  {
    forall j | serve.first / serve.blockSize <= j < n' && j !in missing'
      ensures Landed(after, serve.content, serve.blockSize, serve.first, serve.last, j)
    {
      if j != i {
        OthersStayLanded(before, after, serve.content, serve.blockSize, serve.first, serve.last, i, j);
      }
    }
  }

  lemma NoneLanded(serve: BlockServe, buf: Bytes)
    requires InObject(serve.first, serve.last, serve.blockSize, |serve.content|)
    requires |buf| == serve.last - serve.first + 1
    ensures serve.first / serve.blockSize <= serve.last / serve.blockSize + 1
    ensures LandedExcept(serve, buf, serve.first / serve.blockSize, [])
  {
    CoveringOrder(serve.first, serve.last, serve.blockSize);
  }

  lemma Complete(serve: BlockServe, buf: Bytes)
    requires InObject(serve.first, serve.last, serve.blockSize, |serve.content|)
    requires |buf| == serve.last - serve.first + 1
    requires LandedExcept(serve, buf, serve.last / serve.blockSize + 1, [])
    ensures buf == serve.content[serve.first..serve.last + 1]
  {
    CoveringOrder(serve.first, serve.last, serve.blockSize);
    AllLanded(buf, serve.content, serve.blockSize, serve.first, serve.last, serve.last / serve.blockSize + 1);
    EndsAtRange(serve.first, serve.last, serve.blockSize);
  }

  /** What an assembly reports is what happened: stale exactly when upstream showed another version,
      and then the entry was invalidated last; a failed client exactly when it was lost. */
  ghost predicate Truthful(log: seq<Event>, fault: Fault) {
    && (fault == Stale <==> StaleSeen in log)
    && (fault == Stale ==> log[|log| - 1] == Invalidated)
    && (fault == ClientFailed <==> ClientLost in log)
  }

  lemma AskedMore(log: seq<Event>, i: int, otherVersion: bool)
    ensures var log' := Asked(log, BlockRequested(i), otherVersion);
            && (ClientLost in log' <==> ClientLost in log)
            && (StaleSeen in log' <==> StaleSeen in log || otherVersion)
  {
    var log' := Asked(log, BlockRequested(i), otherVersion);
    assert otherVersion ==> log'[|log'| - 1] == StaleSeen;
    assert forall e :: e in log' <==> e in log || e == BlockRequested(i) || (otherVersion && e == StaleSeen);
  }

  /** Fetch the missing blocks. All are tried; a stale signal outranks a transient failure and
      invalidates the entry. A block this request fetched comes back whole; one that another writer
      stored meanwhile does not. */
  method FetchForAssembly(serve: BlockServe, missing: seq<int>) returns (fetched: map<int, Bytes>, fault: Fault)
    requires serve.Valid() && Open(serve.log)
    requires forall i :: i in missing ==> serve.first / serve.blockSize <= i <= serve.last / serve.blockSize
    modifies serve`log
    ensures fault in {NoFault, Transient, Stale} && Truthful(serve.log, fault)
    ensures fault != Stale ==> Open(serve.log)
    ensures Remainders(serve.log) == old(Remainders(serve.log))
    ensures Fetches(serve.log) <= old(Fetches(serve.log)) + |missing|
    ensures forall i :: i in fetched ==> IsBlock(i, serve.blockSize, |serve.content|)
                                         && fetched[i] == Block(serve.content, serve.blockSize, i)
  {
    hide Ends, Open, Fetches, Remainders, Invalidations, Block, Asked, Truthful;
    var s, e, blockSize := serve.first, serve.last, serve.blockSize;
    assert InObject(s, e, blockSize, |serve.content|);
    fetched := map[];
    var stale, transient := false, false;
    OpenMeans(serve.log);
    for k := 0 to |missing|
      invariant Remainders(serve.log) == old(Remainders(serve.log))
      invariant Fetches(serve.log) <= old(Fetches(serve.log)) + k
      invariant ClientLost !in serve.log && (stale <==> StaleSeen in serve.log)
      invariant forall i :: i in fetched ==> IsBlock(i, serve.blockSize, |serve.content|)
                                             && fetched[i] == Block(serve.content, serve.blockSize, i)
    {
      var i := missing[k];
      assert i in missing;
      CoveringBlockMeets(i, s, e, blockSize, |serve.content|);
      var present: bool := *;
      if !present {
        ghost var before := serve.log;
        var data, err := serve.FetchBlock(i);
        AskedOnce(before, BlockRequested(i), err == Stale);
        AskedMore(before, i, err == Stale);
        if err == NoFault { fetched := fetched[i := data]; }
        else if err == Stale { stale := true; }
        else { transient := true; }
      }
    }
    if stale {
      serve.Invalidate();
      StaleTruthfully(serve.log);
      return fetched, Stale;
    }
    fault := if transient then Transient else NoFault;
    OpenMeans(serve.log);
  }

  lemma OpenMeans(log: seq<Event>)
    ensures Open(log) <==> StaleSeen !in log && ClientLost !in log
    ensures Open(log) ==> Truthful(log, NoFault) && Truthful(log, Transient)
  {
  }

  lemma StaleTruthfully(log: seq<Event>)
    requires log != [] && log[|log| - 1] == Invalidated
    requires StaleSeen in log[..|log| - 1] && ClientLost !in log[..|log| - 1]
    ensures Truthful(log, Stale)
  {
    assert log == log[..|log| - 1] + [Invalidated];
  }

  /** First pass: read every covering block once, noting the absent ones. */
  method ReadPresent(serve: BlockServe, buf: array<int>) returns (missing: seq<int>, fault: Fault)
    requires serve.Valid() && buf.Length == serve.last - serve.first + 1
    modifies buf
    ensures fault in {NoFault, Transient}
    ensures serve.first / serve.blockSize <= serve.last / serve.blockSize
    ensures |missing| <= serve.last / serve.blockSize - serve.first / serve.blockSize + 1
    ensures forall j :: j in missing ==> serve.first / serve.blockSize <= j <= serve.last / serve.blockSize
    ensures fault == NoFault ==> LandedExcept(serve, buf[..], serve.last / serve.blockSize + 1, missing)
  {
    hide SliceStart, BlockBounds, BlockLocalRange, Block, Landed, LocalSlice, OnlyBlockWritten, LandedExcept;
    var s, e, blockSize := serve.first, serve.last, serve.blockSize;
    var (b0, bK) := CoveringBlocks(s, e, blockSize);
    CoveringOrder(s, e, blockSize);
    StartsAtRange(s, e, blockSize);
    var off, i := 0, b0;
    missing, fault := [], NoFault;
    NoneLanded(serve, buf[..]);
    while i <= bK
      invariant b0 <= i <= bK + 1 && off == SliceStart(i, s, e, blockSize) - s
      invariant |missing| <= i - b0
      invariant forall j :: j in missing ==> b0 <= j < i
      invariant LandedExcept(serve, buf[..], i, missing)
    {
      SliceTiles(serve.content, blockSize, i, s, e);
      ghost var before, missing0 := buf[..], missing;
      fault := ReadInto(serve, buf, off, i);
      if fault == Transient { return; }
      if fault == NotFound { missing := missing + [i]; }
      OneMoreLanded(serve, before, buf[..], i, i, i + 1, missing0, missing);
      var (from, to) := BlockLocalRange(i, s, e, blockSize, |serve.content|);
      off := off + to - from + 1;
      i := i + 1;
    }
    fault := NoFault;
  }

  lemma SliceOfBlock(content: Bytes, blockSize: int, i: int, s: int, e: int)
    requires InObject(s, e, blockSize, |content|) && s / blockSize <= i <= e / blockSize
    ensures IsBlock(i, blockSize, |content|)
    ensures var (from, to) := BlockLocalRange(i, s, e, blockSize, |content|);
            && 0 <= from <= to < |Block(content, blockSize, i)|
            && LocalSlice(content, blockSize, i, s, e) == Block(content, blockSize, i)[from..to + 1]
  {
    CoveringBlockMeets(i, s, e, blockSize, |content|);
  }

  /** Second pass: put the missing blocks in place, from the fetched bytes or by reading again. */
  method FillMissing(serve: BlockServe, buf: array<int>, missing: seq<int>, fetched: map<int, Bytes>)
    returns (fault: Fault)
    requires serve.Valid() && buf.Length == serve.last - serve.first + 1
    requires forall j :: j in missing ==> serve.first / serve.blockSize <= j <= serve.last / serve.blockSize
    requires forall i :: i in fetched ==> IsBlock(i, serve.blockSize, |serve.content|)
                                          && fetched[i] == Block(serve.content, serve.blockSize, i)
    requires LandedExcept(serve, buf[..], serve.last / serve.blockSize + 1, missing)
    modifies buf
    ensures fault in {NoFault, Transient}
    ensures fault == NoFault ==> LandedExcept(serve, buf[..], serve.last / serve.blockSize + 1, [])
  {
    hide SliceStart, BlockBounds, BlockLocalRange, Block, Landed, LocalSlice, OnlyBlockWritten, LandedExcept;
    var s, e, blockSize := serve.first, serve.last, serve.blockSize;
    ghost var n := e / blockSize + 1;
    var k := 0;
    assert missing[k..] == missing;
    while k < |missing|
      invariant 0 <= k <= |missing|
      invariant LandedExcept(serve, buf[..], n, missing[k..])
    {
      var i := missing[k];
      assert i in missing;
      SliceTiles(serve.content, blockSize, i, s, e);
      SliceOfBlock(serve.content, blockSize, i, s, e);
      var (from, to) := BlockLocalRange(i, s, e, blockSize, |serve.content|);
      var goff := BlockBounds(i, blockSize, |serve.content|).0 + from - s;
      ghost var before := buf[..];
      if i in fetched {
        Land(serve, buf, goff, i, fetched[i][from..to + 1]);
      } else {
        fault := ReadInto(serve, buf, goff, i);
        if fault != NoFault { return Transient; }
      }
      OneMoreLanded(serve, before, buf[..], i, n, n, missing[k..], missing[k + 1..]);
      k := k + 1;
    }
    assert missing[k..] == [];
    fault := NoFault;
  }

  /** Assemble the whole promised range in memory, then send it in one write. A serve that fails
      before the write leaves the response untouched; one that succeeds sent exactly the range; and
      nothing is sent once upstream showed another version. */
  method ServeAssembled(serve: BlockServe) returns (served: bool, fault: Fault)
    requires serve.Valid() && serve.body == [] && serve.log == []
    modifies serve
    ensures serve.Valid() && Truthful(serve.log, fault) && Remainders(serve.log) == 0
    ensures !served ==> serve.body == [] && fault != NoFault
    ensures served ==> fault in {NoFault, ClientFailed}
    ensures served && fault == NoFault ==> serve.body == serve.content[serve.first..serve.last + 1]
    ensures Fetches(serve.log) <= serve.last / serve.blockSize - serve.first / serve.blockSize + 1
  {
    hide Ends, Open, Fetches, Remainders, Invalidations, Landed, LandedExcept, Block, Truthful;
    NothingYet();
    OpenMeans([]);
    var buf := new int[serve.last - serve.first + 1];
    var missing;
    missing, fault := ReadPresent(serve, buf);
    if fault != NoFault { return false, fault; }
    var fetched;
    fetched, fault := FetchForAssembly(serve, missing);
    if fault != NoFault { return false, fault; }
    OpenMeans(serve.log);
    fault := FillMissing(serve, buf, missing, fetched);
    if fault != NoFault { return false, fault; }
    Complete(serve, buf[..]);
    served := true;
    var n, ok := serve.Write(buf[..]);
    fault := if ok then NoFault else ClientFailed;
    SentTruthfully(serve.log, fault);
  }

  lemma SentTruthfully(log: seq<Event>, fault: Fault)
    requires fault in {NoFault, ClientFailed} && Ends(log, fault)
    ensures Truthful(log, fault)
  {
    if fault == ClientFailed { assert log == log[..|log| - 1] + [ClientLost]; }
  }
}
