/** Serving a byte range from a block-cached entry: cache reads that may miss, fall short or run
    over, inline recovery of absent blocks, and the one-shot upstream remainder. */
module BlockStream {
  import opened BlockLayout

  const MAX_INLINE_FETCHES := 2
  const MAX_PREFETCH := 32

  datatype Fault = NoFault | NotFound | Transient | Stale | Degraded(mostlyAbsent: bool) | ClientFailed

  /** What happens in one serve, in order. Requests, what upstream shows to be another version, bytes
      the client took and the loss of the client are recorded by the environment; invalidating the
      entry is the serve's own doing. */
  datatype Event = Sent(count: nat) | BlockRequested(index: int) | RemainderRequested(from: int)
                 | StaleSeen | ClientLost | Invalidated

  function Fetches(log: seq<Event>): nat {
    if log == [] then 0
    else Fetches(log[..|log| - 1]) + if log[|log| - 1].BlockRequested? then 1 else 0
  }

  function Remainders(log: seq<Event>): nat {
    if log == [] then 0
    else Remainders(log[..|log| - 1]) + if log[|log| - 1].RemainderRequested? then 1 else 0
  }

  function Invalidations(log: seq<Event>): nat {
    if log == [] then 0
    else Invalidations(log[..|log| - 1]) + if log[|log| - 1].Invalidated? then 1 else 0
  }

  /** No other object version was seen and the client is still there. */
  ghost predicate Open(log: seq<Event>) {
    forall k :: 0 <= k < |log| ==> log[k] !in {StaleSeen, ClientLost}
  }

  /** How a serve that returns this fault ends. Stale means upstream showed another version, the entry
      was invalidated, and nothing else came after; a failed client is the last thing seen; any other
      result means neither happened at all. */
  ghost predicate Ends(log: seq<Event>, fault: Fault) {
    if fault == Stale then
      |log| >= 2 && log[|log| - 2] == StaleSeen && log[|log| - 1] == Invalidated && Open(log[..|log| - 2])
    else if fault == ClientFailed then log != [] && log[|log| - 1] == ClientLost && Open(log[..|log| - 1])
    else Open(log)
  }

  lemma Appended(log: seq<Event>, e: Event)
    ensures Fetches(log + [e]) == Fetches(log) + if e.BlockRequested? then 1 else 0
    ensures Remainders(log + [e]) == Remainders(log) + if e.RemainderRequested? then 1 else 0
    ensures Invalidations(log + [e]) == Invalidations(log) + if e.Invalidated? then 1 else 0
  {
    assert (log + [e])[..|log|] == log;
  }

  lemma StaysOpen(log: seq<Event>, e: Event)
    requires Open(log) && e !in {StaleSeen, ClientLost}
    ensures Open(log + [e])
  {
  }

  /** The log after upstream was asked once; e is the request. */
  function Asked(log: seq<Event>, e: Event, otherVersion: bool): seq<Event> {
    log + [e] + if otherVersion then [StaleSeen] else []
  }

  lemma AskedOnce(log: seq<Event>, e: Event, otherVersion: bool)
    requires e.BlockRequested? || e.RemainderRequested?
    ensures var log' := Asked(log, e, otherVersion);
            && Fetches(log') == Fetches(log) + (if e.BlockRequested? then 1 else 0)
            && Remainders(log') == Remainders(log) + (if e.RemainderRequested? then 1 else 0)
            && Invalidations(log') == Invalidations(log)
            && (Open(log) && !otherVersion ==> Open(log'))
            && (Open(log) && otherVersion ==> Ends(log' + [Invalidated], Stale))
  {
    Appended(log, e);
    Appended(log + [e], StaleSeen);
    assert log + [e] + [] == log + [e];
    if Open(log) {
      StaysOpen(log, e);
      var ended := log + [e] + [StaleSeen] + [Invalidated];
      assert ended[..|ended| - 2] == log + [e];
    }
  }

  lemma SentThen(log: seq<Event>, n: nat, ok: bool)
    requires Open(log)
    ensures var log' := log + [Sent(n)] + if ok then [] else [ClientLost];
            && Ends(log', if ok then NoFault else ClientFailed)
            && Fetches(log') == Fetches(log) && Remainders(log') == Remainders(log)
            && Invalidations(log') == Invalidations(log)
  {
    Appended(log, Sent(n));
    Appended(log + [Sent(n)], ClientLost);
    StaysOpen(log, Sent(n));
    assert log + [Sent(n)] + [] == log + [Sent(n)];
    assert (log + [Sent(n)] + [ClientLost])[..|log| + 1] == log + [Sent(n)];
  }

  lemma PrefixExtends(whole: Bytes, body: Bytes, p: Bytes, n: nat)
    requires body <= whole && n <= |p| && |body| + n <= |whole|
    requires forall k :: 0 <= k < n ==> p[k] == whole[|body| + k]
    ensures body + p[..n] <= whole
  {
  }

  datatype Tag = SameTag | OtherTag | NoTag

  /** An upstream range response: its headers, then the bytes it yields and how they end. */
  datatype Response = Response(status: int, tag: Tag, contentLength: int, exactRange: bool, src: Source)
                    | NoResponse
  {
    /** Partial content of the entry's own version, for exactly the range asked for. */
    predicate Trusted() {
      Response? && status == 206 && tag == SameTag && exactRange
    }

    /** The object is gone, or its content is of another version, whatever the shape. */
    predicate OtherVersion() {
      Response? && (status == 404 || (status == 206 && tag == OtherTag))
    }
  }

  /** One response being served from the blocks of one entry. The client was promised the bytes
      [first, last]; its connection takes no more than that. */
  class BlockServe {
    const content: Bytes
    const blockSize: int
    const first: int
    const last: int
    const steadyClient: bool   // the client takes everything it was promised
    const boundedStore: bool   // the cache never delivers past the end it was asked for
    const goodUpstream: bool   // upstream still has this version and answers completely
    var body: Bytes
    var log: seq<Event>

    /** The client holds a prefix of what it was promised. */
    ghost predicate Valid()
      reads this
    {
      && InObject(first, last, blockSize, |content|)
      && body <= content[first..last + 1]
    }

    /** Object offset of the next byte the client expects. */
    function Next(): int
      reads this
    {
      first + |body|
    }

    /** p agrees with the object from the next byte on, as far as the client will read. */
    ghost predicate Continues(p: Bytes)
      requires Valid()
      reads this
    {
      forall k :: 0 <= k < |p| && Next() + k <= last ==> p[k] == content[Next() + k]
    }

    /** Local bounds [from, to] of the part of block i that comes next. */
    ghost predicate NextSlice(i: int, from: int, to: int)
      requires Valid()
      reads this
    {
      && IsBlock(i, blockSize, |content|)
      && 0 <= from <= to < |Block(content, blockSize, i)|
      && Next() == i * blockSize + from && i * blockSize + to <= last
      && (to == |Block(content, blockSize, i)| - 1 || i * blockSize + to == last)
    }

    constructor (content: Bytes, blockSize: int, first: int, last: int,
                 steadyClient: bool, boundedStore: bool, goodUpstream: bool)
      requires InObject(first, last, blockSize, |content|)
      ensures this.content == content && this.blockSize == blockSize && this.first == first && this.last == last
      ensures this.steadyClient == steadyClient && this.boundedStore == boundedStore && this.goodUpstream == goodUpstream
      ensures Valid() && body == [] && log == []
    {
      this.content, this.blockSize, this.first, this.last := content, blockSize, first, last;
      this.steadyClient, this.boundedStore, this.goodUpstream := steadyClient, boundedStore, goodUpstream;
      body, log := [], [];
    }

    /** The client connection: it may take any part of p, but never more than was promised. */
    method Write(p: Bytes) returns (n: nat, ok: bool)
      requires Valid() && Continues(p) && Open(log)
      modifies this
      ensures Valid() && n <= |p| && body == old(body) + p[..n]
      ensures ok ==> n == |p|
      ensures steadyClient && |p| <= last + 1 - old(Next()) ==> ok
      ensures Ends(log, if ok then NoFault else ClientFailed)
      ensures Fetches(log) == old(Fetches(log)) && Remainders(log) == old(Remainders(log))
      ensures Invalidations(log) == old(Invalidations(log))
    {
      hide Ends, Open, Fetches, Remainders, Invalidations;
      ghost var promised := content[first..last + 1];
      var room := last + 1 - Next();
      var taken: int, failed: bool := *, *;
      n := if 0 <= taken <= |p| && taken <= room && !steadyClient then taken else if |p| <= room then |p| else room;
      ok := n == |p| && (steadyClient || !failed);
      PrefixExtends(promised, body, p, n);
      SentThen(log, n, ok);
      body := body + p[..n];
      log := log + [Sent(n)] + if ok then [] else [ClientLost];
    }

    /** Drop the entry from the cache. */
    method Invalidate()
      modifies this`log
      ensures log == old(log) + [Invalidated]
      ensures Fetches(log) == old(Fetches(log)) && Remainders(log) == old(Remainders(log))
      ensures Invalidations(log) == old(Invalidations(log)) + 1
    {
      Appended(log, Invalidated);
      log := log + [Invalidated];
    }

    /** The block's bytes from the next position on are what the client expects. */
    lemma BlockContinues(i: int, from: int, got: int)
      requires Valid() && IsBlock(i, blockSize, |content|) && Next() == i * blockSize + from
      requires 0 <= from && 0 <= got && from + got <= |Block(content, blockSize, i)|
      ensures Continues(Block(content, blockSize, i)[from..from + got])
    {
      var block := Block(content, blockSize, i);
      var part, base := block[from..from + got], i * blockSize;
      assert block == content[base..base + |block|];
      forall k | 0 <= k < |part| && Next() + k <= last ensures part[k] == content[Next() + k] {
        assert part[k] == block[from + k] == content[base + (from + k)];
      }
    }

    /** A cache read streamed straight to the client. The store may deliver any part of the block
        from the requested start, even past the requested end; a nil result means the whole slice,
        and zero bytes without an error means the block is absent. */
    method ReadToClient(i: int, from: int, to: int) returns (fault: Fault)
      requires Valid() && NextSlice(i, from, to) && Open(log)
      modifies this
      ensures Valid() && old(body) <= body
      ensures fault in {NoFault, NotFound, Transient, ClientFailed} && Ends(log, fault)
      ensures fault == NoFault ==> |body| == |old(body)| + to - from + 1
      ensures steadyClient && boundedStore ==> fault != ClientFailed
      ensures Fetches(log) == old(Fetches(log)) && Remainders(log) == old(Remainders(log))
      ensures Invalidations(log) == old(Invalidations(log))
    {
      var block := Block(content, blockSize, i);
      var want := to - from + 1;
      var got: nat, storeFault: bool, storeMiss: bool := *, *, *;
      if from == 0 && to == 0 {
        // Byte 0 alone is asked for as two bytes, buffered, and the second is dropped.
        if storeFault { return if storeMiss then NotFound else Transient; }
        if got == 0 { return NotFound; }
        BlockContinues(i, 0, 1);
        assert block[..1] == block[0..1];
        var _, ok := Write(block[..1]);
        return if ok then NoFault else ClientFailed;
      }
      var most := if boundedStore then want else |block| - from;
      got := if got <= most then got else most;
      BlockContinues(i, from, got);
      hide Ends, Open, Fetches, Remainders, Invalidations;
      EndsMeans(log, NotFound);
      EndsMeans(log, Transient);
      var n := 0;
      if got > 0 {
        var ok;
        n, ok := Write(block[from..from + got]);
        if !ok { return ClientFailed; }
        assert |body| <= |content[first..last + 1]|;
        EndsMeans(log, NoFault);
        EndsMeans(log, NotFound);
        EndsMeans(log, Transient);
      }
      if storeFault { return if storeMiss then NotFound else Transient; }
      if n == 0 { return NotFound; }
      fault := if n != want then Transient else NoFault;
    }

    /** A cache read into a scratch buffer of exactly the slice's length. */
    method ReadSlice(i: int, from: int, to: int) returns (dst: Bytes, fault: Fault)
      requires IsBlock(i, blockSize, |content|) && 0 <= from <= to < |Block(content, blockSize, i)|
      ensures fault in {NoFault, NotFound, Transient}
      ensures dst <= Block(content, blockSize, i)[from..to + 1]
      ensures fault == NoFault ==> dst == Block(content, blockSize, i)[from..to + 1]
    {
      var block := Block(content, blockSize, i);
      var want := to - from + 1;
      var got: nat, storeFault: bool, storeMiss: bool := *, *, *;
      got := if got <= |block| - from then got else |block| - from;
      dst := block[from..from + if got <= want then got else want];
      if got > want { return dst, Transient; }
      if storeFault { return dst, if storeMiss then NotFound else Transient; }
      if got == 0 { return dst, NotFound; }
      fault := if got != want then Transient else NoFault;
    }

    /** Ask upstream for block i. A trusted response agrees with the block as far as it goes. */
    method RequestBlock(i: int) returns (resp: Response)
      requires IsBlock(i, blockSize, |content|)
      modifies this`log
      ensures log == Asked(old(log), BlockRequested(i), resp.OtherVersion())
      ensures goodUpstream ==> !resp.OtherVersion()
      ensures resp.Trusted() ==>
                forall k :: 0 <= k < |resp.src.data| && k < |Block(content, blockSize, i)| ==>
                  resp.src.data[k] == Block(content, blockSize, i)[k]
    {
      var status: int, tag: Tag, length: int, exact: bool, clean: bool, lost: bool := *, *, *, *, *, *;
      resp := if lost then NoResponse
              else if goodUpstream then
                Response(206, SameTag, |Block(content, blockSize, i)|, true, Source(Block(content, blockSize, i), true))
              else Response(status, tag, length, exact, Source(Block(content, blockSize, i), clean));
      log := Asked(log, BlockRequested(i), resp.OtherVersion());
    }

    /** Fetch block i from upstream and validate it: version before shape, so an overwrite is reported
        as stale even when it also changed the length. An accepted body is exactly the block, and stale
        is reported exactly when upstream showed another version. */
    method FetchBlock(i: int) returns (data: Bytes, fault: Fault)
      requires IsBlock(i, blockSize, |content|)
      modifies this`log
      ensures fault in {NoFault, Stale, Transient} && (goodUpstream ==> fault != Stale)
      ensures fault == NoFault ==> data == Block(content, blockSize, i)
      ensures log == Asked(old(log), BlockRequested(i), fault == Stale)
    {
      hide Asked;
      var want := |Block(content, blockSize, i)|;
      var resp := RequestBlock(i);
      data := [];
      if resp.NoResponse? { return data, Transient; }
      if resp.status == 404 { return data, Stale; }
      if resp.status != 206 || resp.tag == NoTag { return data, Transient; }
      if resp.tag == OtherTag { return data, Stale; }
      if resp.contentLength != want || !resp.exactRange { return data, Transient; }
      var (buf, end) := ReadFull(resp.src, 0, want);
      if end != Filled { return data, Transient; }
      assert buf == Block(content, blockSize, i);
      return buf, NoFault;
    }

    /** Fetch an absent block into the cache; a stale signal invalidates the entry. */
    method FetchToCache(i: int) returns (fault: Fault)
      requires Open(log) && IsBlock(i, blockSize, |content|)
      modifies this`log
      ensures fault in {NoFault, Stale, Transient} && Ends(log, fault) && (goodUpstream ==> fault != Stale)
      ensures Fetches(log) == old(Fetches(log)) + 1 && Remainders(log) == old(Remainders(log))
      ensures Invalidations(log) == old(Invalidations(log)) + if fault == Stale then 1 else 0
    {
      hide Open, Ends, Fetches, Remainders, Invalidations, Asked;
      var data;
      data, fault := FetchBlock(i);
      AskedOnce(old(log), BlockRequested(i), fault == Stale);
      EndsMeans(log, fault);
      if fault == Stale { Invalidate(); }
    }

    /** Recover a slice whose read reported the block absent: read again before charging the
        allowance, then fetch and read once more. Only a stale signal is left unwrapped. */
    method RecoverSlice(i: int, from: int, to: int, capped: bool, fetchesLeft: int)
      returns (dst: Bytes, fault: Fault, left: int)
      requires IsBlock(i, blockSize, |content|) && 0 <= from <= to < |Block(content, blockSize, i)|
      requires Open(log)
      modifies this`log
      ensures (fault in {NoFault, Stale} || fault.Degraded?) && (goodUpstream ==> fault != Stale)
      ensures fault == NoFault ==> dst == Block(content, blockSize, i)[from..to + 1]
      ensures Ends(log, fault)
      ensures fault == Degraded(true) ==> capped && left == fetchesLeft <= 0
      ensures fetchesLeft - 1 <= left <= fetchesLeft && (capped && fetchesLeft >= 0 ==> left >= 0)
      ensures Fetches(log) == old(Fetches(log)) + fetchesLeft - left
      ensures Remainders(log) == old(Remainders(log))
      ensures Invalidations(log) == old(Invalidations(log)) + if fault == Stale then 1 else 0
    {
      left := fetchesLeft;
      dst, fault := ReadSlice(i, from, to);
      if fault == NoFault { return; }
      if fault != NotFound { fault := Degraded(false); return; }
      if capped && fetchesLeft <= 0 { fault := Degraded(true); return; }
      left := fetchesLeft - 1;
      fault := FetchToCache(i);
      if fault == Stale { return; }
      if fault != NoFault { fault := Degraded(false); return; }
      dst, fault := ReadSlice(i, from, to);
      if fault != NoFault { fault := Degraded(false); }
    }

    /** Read one slice, recovering the block if it is absent. */
    method ReadBlockSlice(i: int, from: int, to: int) returns (dst: Bytes, fault: Fault)
      requires IsBlock(i, blockSize, |content|) && 0 <= from <= to < |Block(content, blockSize, i)|
      requires Open(log)
      modifies this`log
      ensures (fault in {NoFault, Stale} || fault.Degraded?) && (goodUpstream ==> fault != Stale)
      ensures fault == NoFault ==> dst == Block(content, blockSize, i)[from..to + 1]
      ensures Ends(log, fault)
      ensures Fetches(log) <= old(Fetches(log)) + 1 && Remainders(log) == old(Remainders(log))
      ensures Invalidations(log) == old(Invalidations(log)) + if fault == Stale then 1 else 0
    {
      dst, fault := ReadSlice(i, from, to);
      if fault == NotFound {
        var left;
        dst, fault, left := RecoverSlice(i, from, to, false, 0);
      } else if fault != NoFault {
        fault := Degraded(false);
      }
    }

    /** The slice of block i comes next when the client has everything before it. */
    lemma SliceComesNext(i: int, start: int)
      requires Valid() && first <= start <= last
      requires start / blockSize <= i <= last / blockSize
      requires Next() == SliceStart(i, start, last, blockSize)
      ensures var (from, to) := BlockLocalRange(i, start, last, blockSize, |content|);
              && NextSlice(i, from, to)
              && Next() + to - from + 1 == SliceStart(i + 1, start, last, blockSize)
              && Block(content, blockSize, i)[from..to + 1] == content[Next()..Next() + to - from + 1]
    {
      SliceTiles(content, blockSize, i, start, last);
      CoveringBlockMeets(i, start, last, blockSize, |content|);
    }

    /** Stream the rest of the promised range block by block, straight from the cache. */
    method StreamSequential() returns (fault: Fault)
      requires Valid() && Next() <= last && Open(log)
      modifies this
      ensures Valid() && old(body) <= body && Ends(log, fault)
      ensures fault in {NoFault, Stale, ClientFailed} || fault.Degraded?
      ensures fault == NoFault ==> body == content[first..last + 1]
      ensures steadyClient && boundedStore && goodUpstream ==> fault !in {Stale, ClientFailed}
      ensures fault == Degraded(true) ==> Fetches(log) == old(Fetches(log)) + MAX_INLINE_FETCHES
      ensures Fetches(log) <= old(Fetches(log)) + MAX_INLINE_FETCHES
      ensures Remainders(log) == old(Remainders(log))
      ensures Invalidations(log) == old(Invalidations(log)) + if fault == Stale then 1 else 0
    {
      hide BlockLocalRange, BlockBounds, SliceStart, Block, Ends, Open, Fetches, Remainders, Invalidations;
      var start := Next();
      var (b0, bK) := CoveringBlocks(start, last, blockSize);
      CoveringOrder(start, last, blockSize);
      var fetchesLeft := MAX_INLINE_FETCHES;
      var i := b0;
      StartsAtRange(start, last, blockSize);
      while i <= bK
        invariant b0 <= i <= bK + 1 && Valid() && old(body) <= body
        invariant Next() == SliceStart(i, start, last, blockSize)
        invariant 0 <= fetchesLeft <= MAX_INLINE_FETCHES
        invariant Fetches(log) == old(Fetches(log)) + MAX_INLINE_FETCHES - fetchesLeft
        invariant Remainders(log) == old(Remainders(log)) && Open(log)
        invariant Invalidations(log) == old(Invalidations(log))
      {
        SliceComesNext(i, start);
        var (from, to) := BlockLocalRange(i, start, last, blockSize, |content|);
        var before := |body|;
        var readFault := ReadToClient(i, from, to);
        EndsMeans(log, readFault);
        if readFault == NotFound && |body| == before {
          if fetchesLeft <= 0 { EndsMeans(log, Degraded(true)); return Degraded(true); }
          fetchesLeft := fetchesLeft - 1;
          var fetchFault := FetchToCache(i);
          EndsMeans(log, fetchFault);
          if fetchFault == Stale { return Stale; }
          if fetchFault != NoFault { EndsMeans(log, Degraded(false)); return Degraded(false); }
          readFault := ReadToClient(i, from, to);
          EndsMeans(log, readFault);
        }
        if readFault != NoFault {
          if readFault == ClientFailed { return ClientFailed; }
          EndsMeans(log, Degraded(false));
          return Degraded(false);
        }
        i := i + 1;
      }
      EndsAtRange(start, last, blockSize);
      EndsMeans(log, NoFault);
      fault := NoFault;
    }

    /** A pending prefetch of block i holds that block's slice, or says why not. */
    ghost predicate Prefetched(i: int, start: int, read: (Bytes, Fault))
      requires InObject(start, last, blockSize, |content|) && start / blockSize <= i <= last / blockSize
    {
      && read.1 in {NoFault, NotFound, Transient}
      && (read.1 == NoFault ==> read.0 == LocalSlice(content, blockSize, i, start, last))
    }

    /** Start the prefetch of block i. Its outcome is fixed only by the cache, so when it completes
        does not matter. */
    method StartRead(i: int, start: int) returns (read: (Bytes, Fault))
      requires InObject(start, last, blockSize, |content|) && start / blockSize <= i <= last / blockSize
      ensures Prefetched(i, start, read)
    {
      CoveringBlockMeets(i, start, last, blockSize, |content|);
      var (from, to) := BlockLocalRange(i, start, last, blockSize, |content|);
      var dst, fault := ReadSlice(i, from, to);
      read := (dst, fault);
    }

    /** Turn the prefetch of block i into its bytes, recovering the block if it was absent. */
    method Settle(i: int, start: int, read: (Bytes, Fault), fetchesLeft: int)
      returns (data: Bytes, fault: Fault, left: int)
      requires InObject(start, last, blockSize, |content|) && start / blockSize <= i <= last / blockSize
      requires Prefetched(i, start, read) && fetchesLeft >= 0 && Open(log)
      modifies this`log
      ensures (fault in {NoFault, Stale} || fault.Degraded?) && (goodUpstream ==> fault != Stale)
      ensures fault == NoFault ==> data == LocalSlice(content, blockSize, i, start, last)
      ensures Ends(log, fault) && 0 <= left <= fetchesLeft && (fault == Degraded(true) ==> left == 0)
      ensures Fetches(log) == old(Fetches(log)) + fetchesLeft - left
      ensures Remainders(log) == old(Remainders(log))
      ensures Invalidations(log) == old(Invalidations(log)) + if fault == Stale then 1 else 0
    {
      data, fault, left := read.0, read.1, fetchesLeft;
      if fault == NotFound {
        CoveringBlockMeets(i, start, last, blockSize, |content|);
        var (from, to) := BlockLocalRange(i, start, last, blockSize, |content|);
        data, fault, left := RecoverSlice(i, from, to, true, fetchesLeft);
      } else if fault != NoFault {
        fault := Degraded(false);
      }
    }

    /** Stream the rest of the promised range through an ordered window of prefetched blocks. */
    method StreamPipelined(window: int) returns (fault: Fault)
      requires Valid() && Next() <= last && Open(log) && window >= 1
      modifies this
      ensures Valid() && old(body) <= body && Ends(log, fault)
      ensures fault in {NoFault, Stale, ClientFailed} || fault.Degraded?
      ensures fault == NoFault ==> body == content[first..last + 1]
      ensures steadyClient && boundedStore && goodUpstream ==> fault !in {Stale, ClientFailed}
      ensures fault == Degraded(true) ==> Fetches(log) == old(Fetches(log)) + MAX_INLINE_FETCHES
      ensures Fetches(log) <= old(Fetches(log)) + MAX_INLINE_FETCHES
      ensures Remainders(log) == old(Remainders(log))
      ensures Invalidations(log) == old(Invalidations(log)) + if fault == Stale then 1 else 0
    {
      hide BlockLocalRange, BlockBounds, SliceStart, Block, LocalSlice, Ends, Open, Prefetched, Fetches, Remainders, Invalidations;
      var start := Next();
      var (b0, bK) := CoveringBlocks(start, last, blockSize);
      CoveringOrder(start, last, blockSize);
      StartsAtRange(start, last, blockSize);
      var pending: map<int, (Bytes, Fault)>, next := map[], b0;
      while next <= bK && next - b0 < window
        modifies {}
        invariant b0 <= next <= bK + 1 && next <= b0 + window
        invariant forall k :: k in pending <==> b0 <= k < next
        invariant forall k :: b0 <= k < next ==> Prefetched(k, start, pending[k])
      {
        var read := StartRead(next, start);
        pending := pending[next := read];
        next := next + 1;
      }
      var fetchesLeft, i := MAX_INLINE_FETCHES, b0;
      while i <= bK
        invariant b0 <= i <= bK + 1 && Valid() && old(body) <= body
        invariant Next() == SliceStart(i, start, last, blockSize)
        invariant i <= next <= bK + 1 && next <= i + window && (i <= bK ==> i < next)
        invariant forall k :: k in pending <==> i <= k < next
        invariant forall k :: i <= k < next ==> Prefetched(k, start, pending[k])
        invariant 0 <= fetchesLeft <= MAX_INLINE_FETCHES
        invariant Fetches(log) == old(Fetches(log)) + MAX_INLINE_FETCHES - fetchesLeft
        invariant Remainders(log) == old(Remainders(log)) && Open(log)
        invariant Invalidations(log) == old(Invalidations(log))
      {
        var data;
        data, fault, fetchesLeft := Settle(i, start, pending[i], fetchesLeft);
        EndsMeans(log, fault);
        if fault != NoFault { return; }
        SliceTiles(content, blockSize, i, start, last);
        var n, ok := Write(data);
        EndsMeans(log, if ok then NoFault else ClientFailed);
        pending := pending - {i};
        if !ok { return ClientFailed; }
        if next <= bK {
          var read := StartRead(next, start);
          pending := pending[next := read];
          next := next + 1;
        }
        i := i + 1;
      }
      EndsAtRange(start, last, blockSize);
      EndsMeans(log, NoFault);
      fault := NoFault;
    }

    /** One upstream request for the bytes from the next one to the last. A partial response that
        carries the entry's ETag and exactly that range holds those bytes, possibly cut short. */
    method RequestRest() returns (resp: Response)
      requires Valid() && Next() <= last
      modifies this`log
      ensures log == Asked(old(log), RemainderRequested(Next()), resp.OtherVersion())
      ensures goodUpstream ==> resp.Trusted() && resp.src == Source(content[Next()..last + 1], true)
      ensures resp.Trusted() ==> Continues(resp.src.data)
    {
      var status: int, tag: Tag, length: int, exact: bool, clean: bool, lost: bool := *, *, *, *, *, *;
      var rest := content[Next()..last + 1];
      resp := if goodUpstream then Response(206, SameTag, |rest|, true, Source(rest, true))
              else if lost then NoResponse
              else Response(status, tag, length, exact, Source(rest, clean));
      log := Asked(log, RemainderRequested(Next()), resp.OtherVersion());
    }

    /** Finish the response from upstream, uncached. */
    method StreamRemainder() returns (fault: Fault)
      requires Valid() && Next() <= last && Open(log)
      modifies this
      ensures Valid() && old(body) <= body && Ends(log, fault)
      ensures fault in {NoFault, Transient, Stale, ClientFailed}
      ensures fault == NoFault ==> body == content[first..last + 1]
      ensures steadyClient && goodUpstream ==> fault == NoFault
      ensures Remainders(log) == old(Remainders(log)) + 1 && Fetches(log) == old(Fetches(log))
      ensures Invalidations(log) == old(Invalidations(log)) + if fault == Stale then 1 else 0
    {
      hide Ends, Open, Fetches, Remainders, Invalidations, Asked;
      var want := last + 1 - Next();
      var resp := RequestRest();
      AskedOnce(old(log), RemainderRequested(Next()), resp.OtherVersion());
      EndsMeans(log, Transient);
      if resp.NoResponse? { return Transient; }
      if resp.status == 404 {
        Invalidate();
        return Stale;
      }
      if resp.status != 206 || resp.tag == NoTag { return Transient; }
      if resp.tag == OtherTag {
        Invalidate();
        return Stale;
      }
      if !resp.exactRange { return Transient; }
      var n, ok := Write(resp.src.data);
      if !ok { return ClientFailed; }
      EndsMeans(log, NoFault);
      EndsMeans(log, Transient);
      fault := if !resp.src.clean || n != want then Transient else NoFault;
    }

    /** Stream from the cache: through the largest prefetch window of at least two blocks that the
        staging budget admits, else sequentially. */
    method StreamCached() returns (fault: Fault)
      requires Valid() && Next() <= last && Open(log)
      modifies this
      ensures Valid() && old(body) <= body && Ends(log, fault)
      ensures fault in {NoFault, Stale, ClientFailed} || fault.Degraded?
      ensures fault == NoFault ==> body == content[first..last + 1]
      ensures steadyClient && boundedStore && goodUpstream ==> fault !in {Stale, ClientFailed}
      ensures fault == Degraded(true) ==> Fetches(log) == old(Fetches(log)) + MAX_INLINE_FETCHES
      ensures Fetches(log) <= old(Fetches(log)) + MAX_INLINE_FETCHES
      ensures Remainders(log) == old(Remainders(log))
      ensures Invalidations(log) == old(Invalidations(log)) + if fault == Stale then 1 else 0
    {
      var (b0, bK) := CoveringBlocks(Next(), last, blockSize);
      if b0 < bK {
        var window := Min(bK - b0 + 1, MAX_PREFETCH);
        while window >= 2
          modifies {}
        {
          var admitted: bool := *;
          if admitted { break; }
          window := window - 1;
        }
        if window >= 2 {
          fault := StreamPipelined(window);
          return;
        }
      }
      fault := StreamSequential();
    }

    /** Stream the rest of a committed response. Whatever the cache, upstream and the client do, the
        client holds a prefix of the promised bytes, and all of them when no fault is returned; at
        most two blocks are fetched inline and one remainder is requested; nothing is written or
        requested once upstream showed another version or the client failed; and the entry is dropped
        exactly for another version, or after a completed salvage of one that lost too many blocks. And
        whatever the cache alone does, short of running over, a client that stays gets everything as
        long as upstream still has this version. cached is how the part served from blocks ended. */
    method StreamRange() returns (fault: Fault, alive: bool, ghost cached: Fault)
      requires Valid() && Next() <= last && Open(log)
      modifies this
      ensures Valid() && old(body) <= body && Ends(log, fault)
      ensures fault == NoFault ==> body == content[first..last + 1]
      ensures steadyClient && boundedStore && goodUpstream && alive ==> body == content[first..last + 1]
      ensures Fetches(log) <= old(Fetches(log)) + MAX_INLINE_FETCHES
      ensures Remainders(log) <= old(Remainders(log)) + 1
      ensures cached == Degraded(true) ==> Fetches(log) == old(Fetches(log)) + MAX_INLINE_FETCHES
      ensures Invalidations(log) == old(Invalidations(log))
                + if fault == Stale || (fault == NoFault && cached == Degraded(true)) then 1 else 0
    {
      hide Ends, Open, Fetches, Remainders, Invalidations;
      fault := StreamCached();
      cached := fault;
      alive := *;
      EndsMeans(log, fault);
      if fault.Degraded? && alive && Next() <= last {
        var mostlyAbsent := fault.mostlyAbsent;
        fault := StreamRemainder();
        if fault == NoFault && mostlyAbsent {
          Salvaged(log);
          Invalidate();
        }
      }
    }

    /** Serve a complete entry: the first slice is staged before anything is sent, so a failure there
        leaves the response untouched. */
    method ServeComplete() returns (served: bool, fault: Fault, alive: bool)
      requires Valid() && body == [] && log == []
      modifies this
      ensures Valid() && Ends(log, fault)
      ensures !served ==> body == [] && fault != NoFault
      ensures served && fault == NoFault ==> body == content[first..last + 1]
      ensures served && steadyClient && boundedStore && goodUpstream && alive ==> body == content[first..last + 1]
      ensures Fetches(log) <= 1 + MAX_INLINE_FETCHES && Remainders(log) <= 1
    {
      hide BlockLocalRange, BlockBounds, SliceStart, Block, Ends, Open, Fetches, Remainders, Invalidations;
      var (b0, bK) := CoveringBlocks(first, last, blockSize);
      CoveringOrder(first, last, blockSize);
      StartsAtRange(first, last, blockSize);
      EndsAtRange(first, last, blockSize);
      SliceComesNext(b0, first);
      SliceTiles(content, blockSize, b0, first, last);
      NothingYet();
      var (from, to) := BlockLocalRange(b0, first, last, blockSize, |content|);
      var buf;
      buf, fault := ReadBlockSlice(b0, from, to);
      if fault != NoFault { return false, fault, true; }
      served, alive := true, true;
      EndsMeans(log, NoFault);
      var n, ok := Write(buf);
      EndsMeans(log, if ok then NoFault else ClientFailed);
      if !ok { return true, ClientFailed, true; }
      EndsMeans(log, NoFault);
      ghost var cached;
      if Next() <= last { fault, alive, cached := StreamRange(); }
    }
  }

  lemma StartsAtRange(s: int, e: int, blockSize: int)
    requires 0 < blockSize
    ensures SliceStart(s / blockSize, s, e, blockSize) == s
  {
  }

  lemma EndsAtRange(s: int, e: int, blockSize: int)
    requires 0 < blockSize && s / blockSize <= e / blockSize
    ensures SliceStart(e / blockSize + 1, s, e, blockSize) == e + 1
  {
  }

  lemma EndsMeans(log: seq<Event>, fault: Fault)
    ensures fault !in {Stale, ClientFailed} ==> (Ends(log, fault) <==> Open(log))
  {
  }

  lemma Salvaged(log: seq<Event>)
    requires Ends(log, NoFault)
    ensures Ends(log + [Invalidated], NoFault)
  {
    StaysOpen(log, Invalidated);
  }

  lemma NothingYet()
    ensures Open([]) && Fetches([]) == 0 && Remainders([]) == 0 && Invalidations([]) == 0
  {
  }
}
