/** Serving a cached whole body under its declared length: the last promised byte is held back until
    the stream has ended cleanly at exactly that length. */
module BoundedWriter {
  import opened Options

  type Bytes = seq<int>

  function Flatten(chunks: seq<Bytes>): Bytes {
    if chunks == [] then [] else Flatten(chunks[..|chunks| - 1]) + chunks[|chunks| - 1]
  }

  lemma {:induction false} FlattenPrefix(chunks: seq<Bytes>, i: nat)
    requires i <= |chunks|
    ensures Flatten(chunks[..i]) <= Flatten(chunks)
  {
    if i == |chunks| {
      assert chunks[..i] == chunks;
    } else {
      FlattenPrefix(chunks[..|chunks| - 1], i);
      assert chunks[..|chunks| - 1][..i] == chunks[..i];
    }
  }

  class LengthBoundedWriter {
    const limit: int
    var out: Bytes
    var held: Option<int>
    var downstreamFailed: bool
    ghost var taken: Bytes

    /** The bytes accepted so far are those forwarded, then the held one; the last promised byte is
        never forwarded, only held. */
    ghost predicate Valid()
      reads this
    {
      && taken == out + (if held.Some? then [held.value] else [])
      && (limit > 0 ==> |out| < limit)
      && (limit > 0 ==> (held.Some? <==> |taken| == limit))
      && (limit < 0 ==> held == None)
    }

    constructor (limit: int)
      requires limit != 0
      ensures this.limit == limit && Valid() && out == [] && taken == [] && !downstreamFailed
    {
      this.limit := limit;
      out, held, downstreamFailed, taken := [], None, false, [];
    }

    function Seen(): int
      reads this
    {
      |out| + if held.Some? then 1 else 0
    }

    /** The client connection takes any part of p, all of it unless it fails. */
    method Forward(p: Bytes) returns (n: nat, ok: bool)
      modifies this`out, this`downstreamFailed
      ensures n <= |p| && out == old(out) + p[..n] && (ok ==> n == |p|)
      ensures downstreamFailed == (old(downstreamFailed) || !ok)
    {
      var take: int, fails: bool := *, *;
      ok := !fails;
      n := if ok then |p| else if 0 <= take <= |p| then take else 0;
      out := out + p[..n];
      downstreamFailed := downstreamFailed || !ok;
    }

    /** One chunk of the cache stream. An excess chunk is refused whole. */
    method Write(p: Bytes) returns (ok: bool)
      requires Valid() && limit != 0
      modifies this
      ensures ok ==> Valid() && taken == old(taken) + p
      ensures limit > 0 ==> |out| < limit
      ensures out <= old(taken) + p
      ensures !ok ==> downstreamFailed || (limit >= 0 && |old(taken)| + |p| > limit)
      ensures ok ==> downstreamFailed == old(downstreamFailed)
    {
      if |p| == 0 {
        assert taken + p == taken;
        return true;
      }
      var n;
      if limit < 0 {
        n, ok := Forward(p);
        if ok { taken := taken + p; }
        return;
      }
      var next := Seen() + |p|;
      if next > limit { return false; }
      var forward := p;
      if next == limit {
        forward := p[..|p| - 1];
        held := Some(p[|p| - 1]);
      }
      if |forward| > 0 {
        n, ok := Forward(forward);
        if !ok { return false; }
      }
      ok := true;
      taken := taken + p;
    }

    /** Forward the held byte. */
    method Release() returns (ok: bool)
      modifies this
      ensures out <= old(out) + (if old(held).Some? then [old(held).value] else [])
      ensures ok ==> out == old(out) + (if old(held).Some? then [old(held).value] else [])
      ensures downstreamFailed == (old(downstreamFailed) || !ok)
    {
      if held == None { return true; }
      var last := held.value;
      held := None;
      var n;
      n, ok := Forward([last]);
    }

    /** Serve a cached body that arrives in the given chunks and then ends cleanly or fails. Whatever
        the chunking, what the client has is a prefix of the body; it has as many bytes as declared only
        if the body ended cleanly with exactly that many, and then they are the body; and the serve
        succeeds exactly when that is so and the client took everything. */
    method Serve(chunks: seq<Bytes>, clean: bool) returns (ok: bool)
      requires Valid() && limit != 0 && taken == [] && !downstreamFailed
      modifies this
      ensures out <= Flatten(chunks)
      ensures limit > 0 && |out| >= limit ==> clean && |Flatten(chunks)| == limit && out == Flatten(chunks)
      ensures ok <==> clean && !downstreamFailed && (limit > 0 ==> |Flatten(chunks)| == limit)
      ensures ok ==> out == Flatten(chunks)
    {
      var i := 0;
      while i < |chunks|
        invariant 0 <= i <= |chunks| && Valid() && !downstreamFailed
        invariant taken == Flatten(chunks[..i])
      {
        var wrote := Write(chunks[i]);
        assert chunks[..i + 1][..i] == chunks[..i];
        FlattenPrefix(chunks, i + 1);
        if !wrote { return false; }
        i := i + 1;
      }
      assert chunks[..i] == chunks;
      if !clean { return false; }
      if limit >= 0 && Seen() != limit { return false; }
      ok := Release();
    }
  }
}
