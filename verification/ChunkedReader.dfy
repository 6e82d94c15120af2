/** The streaming aws-chunked decoder (proxy/chunked_reader.go) and the signature chain it
    checks (auth/chunk_verifier.go). The reader is driven by reads of any size over a
    transport that hands out any amount at a time; each read is proved against
    ChunkedStream's account of what the rest of the stream must deliver. */
module ChunkedReader {
  import opened Options
  import opened ChunkedStream

  /** One read against the stream's account before and after it: bytes come off the front,
      and an error (EOF included) is reported exactly where the stream ends. */
  ghost predicate Delivers(before: Outcome, data: Bytes, e: Option<End>, after: Outcome) {
    if e.None? then before == after.After(data) else before == Outcome(data, e.value)
  }

  /** Taking n bytes off a chunk that keeps at least one. */
  lemma ChunkAdvances(key: Option<Signer>, input: Bytes, broken: bool, remaining: int, seen: Bytes,
                      signature: string, previous: string, undeclared: int, n: nat)
    requires n < remaining && n <= |input|
    ensures DecodeChunk(key, input, broken, remaining, seen, signature, previous, undeclared) ==
            DecodeChunk(key, input[n..], broken, remaining - n, if key.None? then seen else seen + input[..n],
                        signature, previous, undeclared).After(input[..n])
  {
    hide CloseFrame, CloseChunk;
    var rest := input[n..];
    if |input| < remaining {
      assert input[..n] + rest == input;
    } else {
      assert input[remaining..] == rest[remaining - n..];
      assert seen + input[..remaining] == seen + input[..n] + rest[..remaining - n];
      assert input[..remaining] == input[..n] + rest[..remaining - n];
      assert input[..remaining - 1] == input[..n] + rest[..remaining - n - 1];
    }
  }

  lemma StarvedChunk(key: Option<Signer>, broken: bool, remaining: int, seen: Bytes,
                     signature: string, previous: string, undeclared: int)
    requires remaining > 0
    ensures DecodeChunk(key, [], broken, remaining, seen, signature, previous, undeclared) == Outcome([], OutOfInput(broken))
  {
  }

  /** The end of a chunk, framing only. */
  lemma FrameCloses(input: Bytes, broken: bool, n: int, previous: string, undeclared: int)
    requires 0 < n <= |input|
    ensures var o := DecodeChunk(None, input, broken, n, [], "", previous, undeclared);
            var tail := input[n..];
            if |tail| < 2 then o == Outcome(input[..n], OutOfInput(broken))
            else if tail[..2] != CRLF then o == Outcome(input[..n], BadTrailer)
            else o == Decode(None, tail[2..], broken, previous, undeclared).After(input[..n])
  {
    hide Decode;
    var o := CloseFrame(input[n..], broken, previous, undeclared);
    assert o.After(input[..n]).bytes == input[..n] + o.bytes;
  }

  /** The end of a chunk, verifying: what the withheld byte waits for. */
  lemma LastByteCloses(k: Signer, input: Bytes, broken: bool, seen: Bytes, signature: string, previous: string, undeclared: int)
    requires input != []
    ensures var o := DecodeChunk(Some(k), input, broken, 1, seen, signature, previous, undeclared);
            var tail := input[1..];
            if |tail| < 2 then o == Outcome([], OutOfInput(broken))
            else if tail[..2] != CRLF then o == Outcome([], BadTrailer)
            else if signature != ChunkSignature(k, previous, seen + input[..1]) then o == Outcome([], Mismatch)
            else
              match AcceptHeader(Some(k), ReadHeader(tail[2..], broken), signature, undeclared)
              case Refused(end) => o == Outcome([], end)
              case Finished => o == Outcome(input[..1], Eof)
              case Chunk(size, next, left, rest) =>
                o == DecodeChunk(Some(k), rest, broken, size, [], next, signature, left).After(input[..1])
  {
    hide ReadHeader, ChunkSignature;
    var o := CloseChunk(k, seen + input[..1], input[0], input[1..], broken, signature, previous, undeclared);
    assert o.After(input[..0]) == o;
  }

  class ChunkVerifier {
    const key: Signer
    var previous: string

    constructor (key: Signer, seed: string)
      ensures this.key == key && previous == seed
    {
      this.key, previous := key, seed;
    }

    /** Advances the chain on a match and leaves it alone otherwise. */
    method VerifyChunk(signature: string, digest: Digest) returns (ok: bool)
      modifies this
      ensures ok <==> signature == SignatureOver(key, old(previous), digest)
      ensures previous == if ok then signature else old(previous)
    {
      var expected := SignatureOver(key, previous, digest);
      ok := expected == signature;
      if ok {
        previous := expected;
      }
    }
  }

  class AwsChunkedReader {
    var input: Bytes        // what the transport has yet to hand out
    const broken: bool      // whether it then fails instead of ending
    const verifier: ChunkVerifier?
    var remaining: int
    var done: bool
    var chunkSig: string
    var hashed: Bytes       // what chunkHash has been fed
    var err: Option<End>
    var undeclared: int

    ghost function Key(): Option<Signer> {
      if verifier == null then None else Some(verifier.key)
    }

    ghost function Previous(): string
      reads this, verifier
    {
      if verifier == null then "" else verifier.previous
    }

    ghost predicate Valid()
      reads this
    {
      && 0 <= remaining && (done ==> remaining == 0)
      && (verifier == null ==> hashed == [] && chunkSig == "")
    }

    /** Everything the stream still has to deliver, and how it ends. */
    ghost function Rest(): Outcome
      reads this, verifier
      requires Valid()
    {
      if err.Some? then Outcome([], err.value)
      else if done then Outcome([], Eof)
      else if remaining == 0 then Decode(Key(), input, broken, Previous(), undeclared)
      else DecodeChunk(Key(), input, broken, remaining, hashed, chunkSig, Previous(), undeclared)
    }

    constructor (body: Bytes, broken: bool, verifier: ChunkVerifier?, decodedLength: int)
      ensures Valid() && this.verifier == verifier
      ensures Rest() == Decode(if verifier == null then None else Some(verifier.key), body, broken,
                               if verifier == null then "" else verifier.previous,
                               if verifier != null && decodedLength >= 0 then decodedLength else -1)
    {
      input, this.broken, this.verifier := body, broken, verifier;
      remaining, done, chunkSig, hashed, err := 0, false, "", [], None;
      undeclared := if verifier != null && decodedLength >= 0 then decodedLength else -1;
    }

    /** One line, byte by byte, refused once it outgrows the limit. */
    method ReadLine() returns (line: string, end: Option<End>)
      modifies this`input
      ensures var i := IndexOf(old(input), '\n');
              if i > MAX_HEADER then end == Some(BadHeader)
              else if i == |old(input)| then end == Some(OutOfInput(broken))
              else end == None && line == TrimCR(old(input)[..i]) && input == old(input)[i + 1..]
    {
      line := [];
      ghost var n := 0;
      while true
        invariant n == |line| <= MAX_HEADER && n <= |old(input)|
        invariant line == old(input)[..n] && input == old(input)[n..] && '\n' !in line
        invariant n <= IndexOf(old(input), '\n')
        decreases |input|
      {
        if input == [] {
          return line, Some(OutOfInput(broken));
        }
        var b := input[0];
        input := input[1..];
        if b == '\n' {
          assert IndexOf(old(input), '\n') == n by {
            assert old(input) == line + ['\n'] + input;
            IndexOfFirst(line, '\n', input);
          }
          return TrimCR(line), None;
        }
        assert IndexOf(old(input), '\n') != n;
        line := line + [b];
        n := n + 1;
        if |line| > MAX_HEADER {
          return line, Some(BadHeader);
        }
      }
    }
  
    /** Reads the next frame header and applies every check on it; a signature or length
        failure is sticky. */
    method ReadChunkHeader() returns (e: Option<End>)
      requires Valid() && remaining == 0 && !done && err.None?
      modifies this, verifier
      ensures Valid()
      ensures match AcceptHeader(Key(), ReadHeader(old(input), broken), old(Previous()), old(undeclared))
              case Chunk(size, signature, left, rest) =>
                && e.None? && err.None? && !done && remaining == size && input == rest
                && undeclared == left && hashed == [] && chunkSig == signature && Previous() == old(Previous())
              case Finished => e.None? && err.None? && done
              case Refused(end) => e == Some(end) && (end == Mismatch ==> err == e)
    {
      hide ParseSize, FindSignature, TrimSpace, TrimCR, IndexOf, SignatureOver;
      var line, end := ReadLine();
      if end.Some? {
        return end;
      }
      var semi := IndexOf(line, ';');
      var parsed := ParseSize(TrimSpace(line[..semi]));
      if parsed.None? {
        return Some(BadHeader);
      }
      var size := parsed.value;
      if verifier != null {
        var found := FindSignature(if semi < |line| then line[semi + 1..] else []);
        if found.None? {
          err := Some(Mismatch);
          return err;
        }
        if size <= 0 {
          var ok := verifier.VerifyChunk(found.value, verifier.key.sha256([]));
          if !ok || undeclared > 0 {
            err := Some(Mismatch);
            return err;
          }
        } else if undeclared >= 0 && size > undeclared {
          err := Some(Mismatch);
          return err;
        } else if undeclared >= 0 {
          undeclared := undeclared - size;
        }
        chunkSig, hashed := found.value, [];
      }
      if size <= 0 {
        done := true;
        return None;
      }
      remaining := size;
      return None;
    }

    method ReadTrailingCRLF() returns (e: Option<End>)
      modifies this`input
      ensures if |old(input)| < 2 then e == Some(OutOfInput(broken))
              else if old(input)[..2] != CRLF then e == Some(BadTrailer)
              else e.None? && input == old(input)[2..]
    {
      if |input| < 2 {
        input := [];
        return Some(OutOfInput(broken));
      }
      var two := input[..2];
      input := input[2..];
      return if two != CRLF then Some(BadTrailer) else None;
    }
  
    /** The withheld last byte: out only after its chunk and the header that follows verified. */
    method ReadVerifiedLastByte(room: nat) returns (data: Bytes, e: Option<End>)
      requires Valid() && verifier != null && remaining == 1 && err.None? && !done
      modifies this, verifier
      ensures Valid() && |data| <= room
      ensures Delivers(old(Rest()), data, e, Rest())
      ensures e.None? && room > 0 ==> data != []
    {
      hide ReadHeader, SignatureOver, DecodeChunk;
      if room == 0 {
        return [], None;
      }
      if input == [] {
        StarvedChunk(Key(), broken, remaining, hashed, chunkSig, Previous(), undeclared);
        return [], Some(OutOfInput(broken));
      }
      LastByteCloses(verifier.key, input, broken, hashed, chunkSig, Previous(), undeclared);
      var last := input[..1];
      input := input[1..];
      hashed := hashed + last;
      e := ReadTrailingCRLF();
      if e.Some? {
        return [], e;
      }
      var ok := verifier.VerifyChunk(chunkSig, verifier.key.sha256(hashed));
      if !ok {
        err := Some(Mismatch);
        return [], err;
      }
      remaining := 0;
      e := ReadChunkHeader();
      if e.Some? {
        return [], e;
      }
      return last, None;
    }

    /** Read: room is the caller's buffer, ready how much the transport hands out now. */
    method Read(room: nat, ready: nat) returns (data: Bytes, e: Option<End>)
      requires Valid() && ready > 0
      modifies this, verifier
      ensures Valid() && |data| <= room
      ensures Delivers(old(Rest()), data, e, Rest())
      ensures e.None? && room > 0 ==> data != []
    {
      if err.Some? {
        return [], err;
      }
      if done {
        return [], Some(Eof);
      }
      ghost var whole := Rest();
      if remaining == 0 {
        e := ReadChunkHeader();
        if e.Some? {
          return [], e;
        }
        if done {
          return [], Some(Eof);
        }
      }
      assert Rest() == whole;
      if verifier != null && remaining == 1 {
        data, e := ReadVerifiedLastByte(room);
        return;
      }
      var toRead := if room > remaining then remaining else room;
      if verifier != null && toRead == remaining {
        toRead := toRead - 1;
      }
      data, e := ReadData(toRead, ready);
    }

    /** The plain part of a read: data bytes of the current chunk, and its trailer when a
        framing-only read reaches the end of it. */
    method ReadData(toRead: nat, ready: nat) returns (data: Bytes, e: Option<End>)
      requires Valid() && ready > 0 && err.None? && !done
      requires toRead <= remaining && 0 < remaining && (verifier != null ==> toRead < remaining)
      modifies this
      ensures Valid() && |data| <= toRead
      ensures Delivers(old(Rest()), data, e, Rest())
      ensures e.None? && toRead > 0 ==> data != []
    {
      hide Decode, DecodeChunk;
      if toRead > 0 && input == [] {
        StarvedChunk(Key(), broken, remaining, hashed, chunkSig, Previous(), undeclared);
        return [], Some(OutOfInput(broken));
      }
      var n := if ready < toRead then ready else toRead;
      n := if |input| < n then |input| else n;
      if n < remaining {
        ChunkAdvances(Key(), input, broken, remaining, hashed, chunkSig, Previous(), undeclared, n);
      } else {
        FrameCloses(input, broken, n, Previous(), undeclared);
      }
      data := input[..n];
      input, remaining := input[n..], remaining - n;
      if verifier != null {
        hashed := hashed + data;
      }
      if remaining > 0 {
        return data, None;
      }
      e := ReadTrailingCRLF();
    }
  }

  lemma AfterTwice(o: Outcome, a: Bytes, b: Bytes)
    ensures o.After(b).After(a) == o.After(a + b)
  {
    assert a + (b + o.bytes) == a + b + o.bytes;
  }

  /** A consumer that reads to the first error or EOF, in reads of any size over a
      transport of any pace, receives exactly what the input determines. */
  method ReadAll(r: AwsChunkedReader) returns (body: Bytes, end: End)
    requires r.Valid()
    modifies r, r.verifier
    ensures Outcome(body, end) == old(r.Rest())
  {
    hide Decode, DecodeChunk;
    body := [];
    while true
      invariant r.Valid()
      invariant old(r.Rest()) == r.Rest().After(body)
      decreases |r.Rest().bytes|
    {
      var room: nat, ready: nat := *, *;
      var data, e := r.Read(room + 1, ready + 1);
      AfterTwice(r.Rest(), body, data);
      body := body + data;
      if e.Some? {
        return body, e.value;
      }
    }
  }

  /** A signed upload read in full through the verifying decoder. Holding the declared
      number of bytes, or seeing EOF, means the whole chain verified, terminal frame
      included, and the bytes are exactly its chunks. */
  method ReadVerifiedBody(wire: Bytes, broken: bool, key: Signer, seed: string, declared: int) returns (body: Bytes, end: End)
    requires declared >= -1
    ensures declared >= 0 ==> |body| <= declared
    ensures end == Eof || (declared > 0 && |body| == declared) <==>
            exists chunks :: Signed(key, wire, seed, chunks) && (declared >= 0 ==> |Concat(chunks)| == declared)
    ensures forall chunks | Signed(key, wire, seed, chunks) && (declared >= 0 ==> |Concat(chunks)| == declared) ::
              body == Concat(chunks) && end == Eof
  {
    hide Decode, DecodeChunk, Signed;
    var verifier := new ChunkVerifier(key, seed);
    var reader := new AwsChunkedReader(wire, broken, verifier, declared);
    body, end := ReadAll(reader);
    VerifiedDecoding(key, wire, broken, seed, declared);
  }
  /** The framing round trip through the reader: whatever nonempty chunks a client cuts its body into,
      whatever follows on the wire, however the transport paces it and however the consumer sizes its
      reads, what arrives is the body, then EOF. */
  method SendAndRead(key: Signer, seed: string, chunks: seq<Bytes>, trailer: Bytes, broken: bool, declared: int)
    returns (body: Bytes, end: End)
    requires forall c | c in chunks :: 0 < |c| <= MAX_INT64
    requires declared == -1 || declared == |Concat(chunks)|
    ensures body == Concat(chunks) && end == Eof
  {
    hide Signed, Encode;
    var wire := Encode(key, seed, chunks) + trailer;
    EncodedIsSigned(key, seed, chunks, trailer);
    body, end := ReadVerifiedBody(wire, broken, key, seed, declared);
  }
}
