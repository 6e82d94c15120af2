/** The aws-chunked wire format: how one frame header reads, what a decoder must deliver
    for a given input, and what a chain-signed stream is. Bytes are characters. */
module ChunkedStream {
  import opened Options

  type Bytes = seq<char>

  const CRLF: Bytes := "\r\n"
  const MAX_HEADER: nat := 256
  const MAX_INT64: int := 0x7FFF_FFFF_FFFF_FFFF
  const SIGNATURE_KEY: string := "chunk-signature="

  // ---- Header lines -------------------------------------------------------------------

  /** The index of c, or |s|. */
  function IndexOf(s: Bytes, c: char): (i: nat)
    ensures i <= |s| && c !in s[..i] && (i < |s| ==> s[i] == c)
  {
    if s == [] || s[0] == c then 0 else
      var i := 1 + IndexOf(s[1..], c);
      assert s[..i] == [s[0]] + s[1..][..i - 1];
      i
  }

  predicate IsSpace(c: char) {
    c == ' ' || ('\t' <= c <= '\r')
  }

  function TrimLeft(s: string): string {
    if s != [] && IsSpace(s[0]) then TrimLeft(s[1..]) else s
  }

  function TrimRight(s: string): string {
    if s != [] && IsSpace(s[|s| - 1]) then TrimRight(s[..|s| - 1]) else s
  }

  function TrimSpace(s: string): string {
    TrimRight(TrimLeft(s))
  }

  function TrimCR(s: string): string {
    if s != [] && s[|s| - 1] == '\r' then TrimCR(s[..|s| - 1]) else s
  }

  function HexValue(c: char): Option<nat> {
    if '0' <= c <= '9' then Some(c as nat - '0' as nat)
    else if 'a' <= c <= 'f' then Some(c as nat - 'a' as nat + 10)
    else if 'A' <= c <= 'F' then Some(c as nat - 'A' as nat + 10)
    else None
  }

  function ParseDigits(s: string): Option<nat> {
    if s == [] then Some(0) else
      var high, low := ParseDigits(s[..|s| - 1]), HexValue(s[|s| - 1]);
      if high.Some? && low.Some? then Some(16 * high.value + low.value) else None
  }

  /** ParseInt(s, 16, 64): an optional sign, at least one digit, and no overflow. */
  function ParseSize(s: string): Option<int> {
    var digits := if s != [] && (s[0] == '+' || s[0] == '-') then s[1..] else s;
    if digits == [] then None else
      match ParseDigits(digits)
      case None => None
      case Some(n) =>
        var value := if s[0] == '-' then 0 - n else n as int;
        if -MAX_INT64 - 1 <= value <= MAX_INT64 then Some(value) else None
  }

  /** The first extension named chunk-signature, among those separated by ';'. */
  function FindSignature(ext: string): Option<string>
    decreases |ext|
  {
    var i := IndexOf(ext, ';');
    var part := TrimSpace(ext[..i]);
    if SIGNATURE_KEY <= part then Some(part[|SIGNATURE_KEY|..])
    else if i < |ext| then FindSignature(ext[i + 1..])
    else None
  }

  /** Where a stream that yields nothing more ends: cleanly, or broken by the transport. */
  datatype End = Eof | Truncated | Broken | BadHeader | BadTrailer | Mismatch

  /** A header read off the front of the input. */
  datatype Header =
    | Line(size: int, signature: Option<string>, rest: Bytes)
    | NoLine(end: End)

  function OutOfInput(broken: bool): End {
    if broken then Broken else Truncated
  }

  function ReadHeader(input: Bytes, broken: bool): (h: Header)
    ensures h.Line? ==> |h.rest| < |input| && h.rest == input[|input| - |h.rest|..]
    ensures h.Line? ==> h.size <= MAX_INT64
    ensures h.NoLine? ==> h.end != Eof
  {
    var i := IndexOf(input, '\n');
    if i > MAX_HEADER then NoLine(BadHeader)
    else if i == |input| then NoLine(OutOfInput(broken))
    else
      var line := TrimCR(input[..i]);
      var semi := IndexOf(line, ';');
      match ParseSize(TrimSpace(line[..semi]))
      case None => NoLine(BadHeader)
      case Some(size) => Line(size, FindSignature(if semi < |line| then line[semi + 1..] else []), input[i + 1..])
  }

  // ---- Signatures ---------------------------------------------------------------------

  type Octet = x: int | 0 <= x < 256
  type Digest = d: seq<Octet> | |d| == 32 witness seq(32, i => 0)

  /** A request's signing material, its hash functions left uninterpreted. prefix is the
      algorithm, date and scope that start every chunk's string to sign. */
  datatype Signer = Signer(prefix: string, hmac: string -> Digest, sha256: Bytes -> Digest)

  const HEX: string := "0123456789abcdef"

  function HexOf(b: seq<Octet>): (r: string)
    ensures |r| == 2 * |b| && forall c | c in r :: c in HEX
  {
    if b == [] then [] else [HEX[b[0] / 16], HEX[b[0] % 16]] + HexOf(b[1..])
  }

  function SignatureOver(k: Signer, previous: string, digest: Digest): (r: string)
    ensures |r| == 64 && forall c | c in r :: c in HEX
  {
    HexOf(k.hmac(k.prefix + previous + "\n" + HexOf(k.sha256([])) + "\n" + HexOf(digest)))
  }

  /** The signature a chunk must carry after previous: VerifyChunk's expected value. */
  function ChunkSignature(k: Signer, previous: string, data: Bytes): (r: string)
    ensures |r| == 64 && forall c | c in r :: c in HEX
  {
    SignatureOver(k, previous, k.sha256(data))
  }

  // ---- What a decoder delivers --------------------------------------------------------

  /** Everything a consumer that reads to the first error or EOF receives. */
  datatype Outcome = Outcome(bytes: Bytes, end: End) {
    function After(prefix: Bytes): Outcome {
      Outcome(prefix + bytes, end)
    }
  }

  /** What accepting a header leads to. undeclared is how much of the declared length no
      frame has claimed yet, -1 when none was declared. */
  datatype Next =
    | Chunk(size: int, signature: string, undeclared: int, rest: Bytes)
    | Finished
    | Refused(end: End)

  /** The checks on a frame header: with a signer, a signature must be there, a terminal
      frame must verify and leave nothing undeclared, and no frame may over-claim. */
  function AcceptHeader(key: Option<Signer>, h: Header, previous: string, undeclared: int): (n: Next)
    ensures n.Chunk? ==> h.Line? && n.rest == h.rest && n.size == h.size > 0
    ensures n.Refused? && h.Line? ==> n.end == Mismatch
  {
    if h.NoLine? then Refused(h.end)
    else if key.None? then (if h.size <= 0 then Finished else Chunk(h.size, "", undeclared, h.rest))
    else if h.signature.None? then Refused(Mismatch)
    else if h.size <= 0 then
      (if h.signature.value != ChunkSignature(key.value, previous, []) || undeclared > 0 then Refused(Mismatch)
       else Finished)
    else if undeclared >= 0 && h.size > undeclared then Refused(Mismatch)
    else Chunk(h.size, h.signature.value, if undeclared >= 0 then undeclared - h.size else undeclared, h.rest)
  }

  /** The stream from a frame boundary on. */
  function Decode(key: Option<Signer>, input: Bytes, broken: bool, previous: string, undeclared: int): Outcome
    decreases |input|
  {
    match AcceptHeader(key, ReadHeader(input, broken), previous, undeclared)
    case Refused(end) => Outcome([], end)
    case Finished => Outcome([], Eof)
    case Chunk(size, signature, left, rest) => DecodeChunk(key, rest, broken, size, [], signature, previous, left)
  }

  /** The stream from inside a chunk: remaining bytes of it are still to come, seen have
      been read already. With a signer its last byte is withheld. */
  function DecodeChunk(key: Option<Signer>, input: Bytes, broken: bool, remaining: int, seen: Bytes,
                       signature: string, previous: string, undeclared: int): Outcome
    requires remaining > 0
    decreases |input|
  {
    if |input| < remaining then Outcome(input, OutOfInput(broken))
    else if key.None? then
      CloseFrame(input[remaining..], broken, previous, undeclared).After(input[..remaining])
    else
      CloseChunk(key.value, seen + input[..remaining], input[remaining - 1], input[remaining..], broken,
                 signature, previous, undeclared).After(input[..remaining - 1])
  }

  /** Framing only: after a chunk's data, its trailer and the next frame. */
  function CloseFrame(input: Bytes, broken: bool, previous: string, undeclared: int): Outcome
    decreases |input|
  {
    if |input| < 2 then Outcome([], OutOfInput(broken))
    else if input[..2] != CRLF then Outcome([], BadTrailer)
    else Decode(None, input[2..], broken, previous, undeclared)
  }

  /** Verifying: the withheld last byte goes out only once the trailer was right, the
      chunk's signature matched, and the header after it was accepted. */
  function CloseChunk(k: Signer, data: Bytes, last: char, input: Bytes, broken: bool,
                      signature: string, previous: string, undeclared: int): Outcome
    decreases |input|
  {
    if |input| < 2 then Outcome([], OutOfInput(broken))
    else if input[..2] != CRLF then Outcome([], BadTrailer)
    else if signature != ChunkSignature(k, previous, data) then Outcome([], Mismatch)
    else
      match AcceptHeader(Some(k), ReadHeader(input[2..], broken), signature, undeclared)
      case Refused(end) => Outcome([], end)
      case Finished => Outcome([last], Eof)
      case Chunk(size, next, left, rest) =>
        DecodeChunk(Some(k), rest, broken, size, [], next, signature, left).After([last])
  }

  // ---- Chain-signed streams -----------------------------------------------------------

  function Concat(chunks: seq<Bytes>): Bytes {
    if chunks == [] then [] else chunks[0] + Concat(chunks[1..])
  }

  /** input carries exactly these chunks, each framed and each signature continuing the
      chain from previous, closed by a verified terminal frame. Nothing here withholds or
      counts: it is what the format promises. */
  ghost predicate Signed(k: Signer, input: Bytes, previous: string, chunks: seq<Bytes>)
    decreases |chunks|
  {
    var h := ReadHeader(input, false);
    h.Line? && h.signature.Some? &&
    if chunks == [] then
      h.size <= 0 && h.signature.value == ChunkSignature(k, previous, [])
    else
      && h.size == |chunks[0]| > 0
      && h.signature.value == ChunkSignature(k, previous, chunks[0])
      && chunks[0] + CRLF <= h.rest
      && Signed(k, h.rest[|chunks[0]| + 2..], h.signature.value, chunks[1..])
  }

  // ---- Verified decoding --------------------------------------------------------------

  /** ReadHeader does not depend on how the transport ends when it finds a line. */
  lemma HeaderIgnoresBreak(input: Bytes, broken: bool)
    ensures ReadHeader(input, broken).Line? || ReadHeader(input, false).Line? ==>
              ReadHeader(input, broken) == ReadHeader(input, false)
  {
  }

  /** Never more bytes than the frames may still claim, and all of them only at a clean end. */
  lemma {:induction false} ChunkIsBounded(k: Signer, input: Bytes, broken: bool, remaining: int, seen: Bytes,
                                          signature: string, previous: string, undeclared: int)
    requires remaining > 0 && undeclared >= 0
    ensures var o := DecodeChunk(Some(k), input, broken, remaining, seen, signature, previous, undeclared);
            && |o.bytes| <= remaining + undeclared
            && (|o.bytes| == remaining + undeclared ==> o.end == Eof)
    decreases |input|
  {
    hide ReadHeader, ChunkSignature;
    if |input| >= remaining + 2 {
      var n := AcceptHeader(Some(k), ReadHeader(input[remaining..][2..], broken), signature, undeclared);
      if n.Chunk? {
        ChunkIsBounded(k, n.rest, broken, n.size, [], n.signature, signature, n.undeclared);
      }
    }
  }

  /** Putting one more chunk in front of a chain-signed stream, and taking it off. */
  lemma SignedCons(k: Signer, input: Bytes, previous: string, size: int, tail: seq<Bytes>)
    requires var h := ReadHeader(input, false);
             && h.Line? && h.size == size > 0 && h.signature.Some?
             && |h.rest| >= size + 2 && h.rest[size..][..2] == CRLF
             && h.signature.value == ChunkSignature(k, previous, h.rest[..size])
             && Signed(k, h.rest[size..][2..], h.signature.value, tail)
    ensures Signed(k, input, previous, [ReadHeader(input, false).rest[..size]] + tail)
    ensures Concat([ReadHeader(input, false).rest[..size]] + tail) == ReadHeader(input, false).rest[..size] + Concat(tail)
  {
    hide ReadHeader, ChunkSignature;
    var h := ReadHeader(input, false);
    var chunk := h.rest[..size];
    assert ([chunk] + tail)[1..] == tail;
    assert chunk + CRLF == h.rest[..size + 2];
    assert h.rest[size + 2..] == h.rest[size..][2..];
  }

  lemma SignedUncons(k: Signer, input: Bytes, previous: string, chunks: seq<Bytes>)
    requires chunks != [] && Signed(k, input, previous, chunks)
    ensures var h := ReadHeader(input, false);
            var size := |chunks[0]|;
            && h.Line? && h.size == size > 0 && h.signature.Some?
            && |h.rest| >= size + 2 && h.rest[size..][..2] == CRLF && h.rest[..size] == chunks[0]
            && h.signature.value == ChunkSignature(k, previous, h.rest[..size])
            && Signed(k, h.rest[size..][2..], h.signature.value, chunks[1..])
  {
    hide ReadHeader, ChunkSignature;
    var h := ReadHeader(input, false);
    var size := |chunks[0]|;
    assert h.rest[..size + 2] == chunks[0] + CRLF;
    assert h.rest[..size] == chunks[0];
    assert h.rest[size..][..2] == h.rest[..size + 2][size..];
    assert h.rest[size + 2..] == h.rest[size..][2..];
  }

  lemma SignedEmpty(k: Signer, input: Bytes, previous: string)
    ensures var h := ReadHeader(input, false);
            Signed(k, input, previous, []) <==>
              h.Line? && h.signature.Some? && h.size <= 0 && h.signature.value == ChunkSignature(k, previous, [])
  {
    hide ReadHeader, ChunkSignature;
  }

  lemma Rejoin(a: Bytes, n: int, b: Bytes)
    requires 0 < n <= |a|
    ensures a[..n - 1] + ([a[n - 1]] + b) == a[..n] + b
  {
  }

  /** Inside a chunk a verified stream is what it closes to. */
  lemma ChunkCloses(k: Signer, input: Bytes, broken: bool, remaining: int, signature: string, previous: string, undeclared: int)
    requires 0 < remaining <= |input|
    ensures var o := CloseChunk(k, input[..remaining], input[remaining - 1], input[remaining..], broken, signature, previous, undeclared);
            DecodeChunk(Some(k), input, broken, remaining, [], signature, previous, undeclared) == o.After(input[..remaining - 1])
  {
    hide CloseChunk;
    assert [] + input[..remaining] == input[..remaining];
  }

  /** A clean end is exactly a chain-signed stream of the declared length (here, from the
      end of a chunk's data), and then the delivered bytes are exactly its chunks. */
  lemma {:induction false} CloseEndsCleanly(k: Signer, data: Bytes, last: char, input: Bytes, broken: bool,
                                            signature: string, previous: string, undeclared: int)
    returns (chunks: seq<Bytes>)
    requires undeclared >= -1
    requires CloseChunk(k, data, last, input, broken, signature, previous, undeclared).end == Eof
    ensures |input| >= 2 && input[..2] == CRLF && signature == ChunkSignature(k, previous, data)
    ensures Signed(k, input[2..], signature, chunks)
    ensures undeclared >= 0 ==> |Concat(chunks)| == undeclared
    decreases |input|
  {
    hide ReadHeader, ChunkSignature;
    HeaderIgnoresBreak(input[2..], broken);
    var n := AcceptHeader(Some(k), ReadHeader(input[2..], broken), signature, undeclared);
    if n.Finished? {
      chunks := [];
    } else {
      ChunkCloses(k, n.rest, broken, n.size, n.signature, signature, n.undeclared);
      var tail := CloseEndsCleanly(k, n.rest[..n.size], n.rest[n.size - 1], n.rest[n.size..], broken,
                                   n.signature, signature, n.undeclared);
      SignedCons(k, input[2..], signature, n.size, tail);
      chunks := [n.rest[..n.size]] + tail;
    }
  }

  /** The header of a chain-signed stream of the declared length is accepted. */
  lemma SignedAccepted(k: Signer, input: Bytes, broken: bool, previous: string, undeclared: int, chunks: seq<Bytes>)
    requires undeclared >= -1 && Signed(k, input, previous, chunks)
    requires undeclared >= 0 ==> |Concat(chunks)| == undeclared
    ensures var n := AcceptHeader(Some(k), ReadHeader(input, broken), previous, undeclared);
            if chunks == [] then n.Finished? else
              && n.Chunk? && n.size == |chunks[0]| > 0 && |n.rest| >= n.size + 2
              && n.rest[n.size..][..2] == CRLF && n.rest[..n.size] == chunks[0]
              && n.signature == ChunkSignature(k, previous, n.rest[..n.size])
              && Signed(k, n.rest[n.size..][2..], n.signature, chunks[1..])
              && n.undeclared >= -1 && (n.undeclared >= 0 ==> |Concat(chunks[1..])| == n.undeclared)
  {
    hide ReadHeader, ChunkSignature, Signed;
    HeaderIgnoresBreak(input, broken);
    SignedEmpty(k, input, previous);
    if chunks != [] { SignedUncons(k, input, previous, chunks); }
  }

  lemma {:induction false} SignedCloses(k: Signer, data: Bytes, last: char, input: Bytes, broken: bool,
                                        signature: string, previous: string, undeclared: int, chunks: seq<Bytes>)
    requires undeclared >= -1
    requires |input| >= 2 && input[..2] == CRLF && signature == ChunkSignature(k, previous, data)
    requires Signed(k, input[2..], signature, chunks)
    requires undeclared >= 0 ==> |Concat(chunks)| == undeclared
    ensures CloseChunk(k, data, last, input, broken, signature, previous, undeclared) == Outcome([last] + Concat(chunks), Eof)
    decreases |chunks|
  {
    hide ReadHeader, ChunkSignature, Signed, AcceptHeader;
    SignedAccepted(k, input[2..], broken, signature, undeclared, chunks);
    var n := AcceptHeader(Some(k), ReadHeader(input[2..], broken), signature, undeclared);
    if chunks != [] {
      ChunkCloses(k, n.rest, broken, n.size, n.signature, signature, n.undeclared);
      SignedCloses(k, n.rest[..n.size], n.rest[n.size - 1], n.rest[n.size..], broken,
                   n.signature, signature, n.undeclared, chunks[1..]);
      Rejoin(n.rest, n.size, Concat(chunks[1..]));
    }
  }

  /** Verified decoding, for every input and every declared length: at most the declared
      bytes come out; EOF comes out exactly for a chain-signed stream of that length, with
      exactly its chunks; and the full count never comes out without it. declared is -1
      when the request declared none. */
  lemma VerifiedDecoding(k: Signer, input: Bytes, broken: bool, seed: string, declared: int)
    requires declared >= -1
    ensures var o := Decode(Some(k), input, broken, seed, declared);
            && (declared >= 0 ==> |o.bytes| <= declared)
            && (declared > 0 && |o.bytes| == declared ==> o.end == Eof)
            && (o.end == Eof <==> exists chunks :: Signed(k, input, seed, chunks) && (declared >= 0 ==> |Concat(chunks)| == declared))
            && (forall chunks | Signed(k, input, seed, chunks) && (declared >= 0 ==> |Concat(chunks)| == declared) ::
                  o == Outcome(Concat(chunks), Eof))
  {
    hide ReadHeader, ChunkSignature;
    HeaderIgnoresBreak(input, broken);
    var o := Decode(Some(k), input, broken, seed, declared);
    var n := AcceptHeader(Some(k), ReadHeader(input, broken), seed, declared);
    if n.Chunk? && declared >= 0 {
      ChunkIsBounded(k, n.rest, broken, n.size, [], n.signature, seed, n.undeclared);
    }
    if o.end == Eof {
      var chunks := CleanEndIsSigned(k, input, broken, seed, declared);
    }
    forall chunks | Signed(k, input, seed, chunks) && (declared >= 0 ==> |Concat(chunks)| == declared)
      ensures o == Outcome(Concat(chunks), Eof)
    {
      SignedDecodes(k, input, broken, seed, declared, chunks);
    }
  }

  lemma CleanEndIsSigned(k: Signer, input: Bytes, broken: bool, seed: string, declared: int) returns (chunks: seq<Bytes>)
    requires declared >= -1 && Decode(Some(k), input, broken, seed, declared).end == Eof
    ensures Signed(k, input, seed, chunks) && (declared >= 0 ==> |Concat(chunks)| == declared)
  {
    hide ReadHeader, ChunkSignature, CloseChunk;
    HeaderIgnoresBreak(input, broken);
    var n := AcceptHeader(Some(k), ReadHeader(input, broken), seed, declared);
    if n.Finished? {
      chunks := [];
    } else {
      ChunkCloses(k, n.rest, broken, n.size, n.signature, seed, n.undeclared);
      var tail := CloseEndsCleanly(k, n.rest[..n.size], n.rest[n.size - 1], n.rest[n.size..], broken,
                                   n.signature, seed, n.undeclared);
      SignedCons(k, input, seed, n.size, tail);
      chunks := [n.rest[..n.size]] + tail;
    }
  }

  lemma SignedDecodes(k: Signer, input: Bytes, broken: bool, seed: string, declared: int, chunks: seq<Bytes>)
    requires declared >= -1 && Signed(k, input, seed, chunks) && (declared >= 0 ==> |Concat(chunks)| == declared)
    ensures Decode(Some(k), input, broken, seed, declared) == Outcome(Concat(chunks), Eof)
  {
    hide ReadHeader, ChunkSignature, CloseChunk, Signed, AcceptHeader;
    SignedAccepted(k, input, broken, seed, declared, chunks);
    var n := AcceptHeader(Some(k), ReadHeader(input, broken), seed, declared);
    if chunks != [] {
      ChunkCloses(k, n.rest, broken, n.size, n.signature, seed, n.undeclared);
      SignedCloses(k, n.rest[..n.size], n.rest[n.size - 1], n.rest[n.size..], broken,
                   n.signature, seed, n.undeclared, chunks[1..]);
      Rejoin(n.rest, n.size, Concat(chunks[1..]));
    }
  }

  // ---- Framing round trip -------------------------------------------------------------

  function HexSize(n: nat): (r: string)
    ensures r != [] && forall c | c in r :: c in HEX
  {
    if n < 16 then [HEX[n]] else HexSize(n / 16) + [HEX[n % 16]]
  }

  function HeaderLine(size: nat, signature: string): string {
    HexSize(size) + ";" + (SIGNATURE_KEY + signature)
  }

  /** What a client sends for these chunks: each framed, chain-signed, then the terminal frame. */
  function Encode(k: Signer, previous: string, chunks: seq<Bytes>): Bytes
    decreases |chunks|
  {
    if chunks == [] then
      HeaderLine(0, ChunkSignature(k, previous, [])) + CRLF
    else
      var signature := ChunkSignature(k, previous, chunks[0]);
      HeaderLine(|chunks[0]|, signature) + CRLF + (chunks[0] + CRLF + Encode(k, signature, chunks[1..]))
  }

  lemma HexCharIsPlain(c: char)
    requires c in HEX
    ensures HexValue(c).Some? && !IsSpace(c) && c != ';' && c != '+' && c != '-'
  {
    var i :| 0 <= i < |HEX| && HEX[i] == c;
    assert '0' <= HEX[i] <= '9' || 'a' <= HEX[i] <= 'f';
  }

  lemma HexDigitValue(d: nat)
    requires d < 16
    ensures HexValue(HEX[d]) == Some(d)
  {
  }

  lemma {:induction false} SizeParses(n: nat)
    ensures ParseDigits(HexSize(n)) == Some(n)
  {
    HexDigitValue(n % 16);
    if n < 16 {
      assert HexSize(n)[..0] == [];
    } else {
      SizeParses(n / 16);
      assert HexSize(n)[..|HexSize(n)| - 1] == HexSize(n / 16);
    }
  }

  function Pow16(m: nat): nat {
    if m == 0 then 1 else 16 * Pow16(m - 1)
  }

  lemma {:induction false} SizeLength(n: nat, m: nat)
    requires 0 < m && n < Pow16(m)
    ensures |HexSize(n)| <= m
  {
    if n >= 16 {
      assert Pow16(1) == 16 * Pow16(0) == 16;
      SizeLength(n / 16, m - 1);
    }
  }

  lemma Pow16Of16()
    ensures Pow16(16) == 0x1_0000_0000_0000_0000
  {
    assert Pow16(2) == 0x100;
    assert Pow16(4) == 0x1_0000;
    assert Pow16(6) == 0x100_0000;
    assert Pow16(8) == 0x1_0000_0000;
    assert Pow16(10) == 0x100_0000_0000;
    assert Pow16(12) == 0x1_0000_0000_0000;
    assert Pow16(14) == 0x100_0000_0000_0000;
  }

  lemma {:induction false} IndexOfFirst(a: Bytes, c: char, b: Bytes)
    requires c !in a
    ensures IndexOf(a + [c] + b, c) == |a|
  {
    if a != [] {
      assert (a + [c] + b)[1..] == a[1..] + [c] + b;
      IndexOfFirst(a[1..], c, b);
    }
  }

  lemma {:induction false} IndexOfAbsent(a: Bytes, c: char)
    requires c !in a
    ensures IndexOf(a, c) == |a|
  {
    if a != [] {
      IndexOfAbsent(a[1..], c);
    }
  }

  lemma PlainEndsTrim(s: string)
    requires s != [] && !IsSpace(s[0]) && !IsSpace(s[|s| - 1])
    ensures TrimSpace(s) == s && TrimCR(s) == s
  {
  }

  lemma SignatureFound(signature: string)
    requires signature != [] && forall c | c in signature :: c in HEX
    ensures FindSignature(SIGNATURE_KEY + signature) == Some(signature)
  {
    var ext := SIGNATURE_KEY + signature;
    forall c | c in signature ensures !IsSpace(c) && c != ';' {
      HexCharIsPlain(c);
    }
    IndexOfAbsent(ext, ';');
    assert ext[..|ext|] == ext && ext[|ext| - 1] == signature[|signature| - 1];
    PlainEndsTrim(ext);
  }

  lemma SizeFieldParses(size: nat)
    requires size <= MAX_INT64
    ensures ParseSize(TrimSpace(HexSize(size))) == Some(size)
    ensures |HexSize(size)| <= 16 && ';' !in HexSize(size) && '\n' !in HexSize(size)
  {
    var digits := HexSize(size);
    forall c | c in digits ensures !IsSpace(c) && c != ';' && c != '+' && c != '-' {
      HexCharIsPlain(c);
    }
    PlainEndsTrim(digits);
    SizeParses(size);
    Pow16Of16();
    SizeLength(size, 16);
  }

  /** How a well-formed line is taken apart. */
  lemma LineReads(digits: string, ext: string, size: nat, signature: string, rest: Bytes)
    requires ParseSize(TrimSpace(digits)) == Some(size) && FindSignature(ext) == Some(signature)
    requires ';' !in digits && '\n' !in digits && '\n' !in ext && ext != [] && ext[|ext| - 1] != '\r'
    requires |digits| + |ext| + 2 <= MAX_HEADER && size <= MAX_INT64
    ensures ReadHeader(digits + [';'] + ext + CRLF + rest, false) == Line(size, Some(signature), rest)
  {
    hide ReadHeader, ParseSize, FindSignature, TrimSpace, IndexOf, TrimCR;
    LineSplits(digits, ext, rest);
    var line := digits + [';'] + ext;
    HeaderOf(line + CRLF + rest, line, |line| + 1, |digits|, size, signature, rest);
  }

  lemma HeaderOf(input: Bytes, line: string, i: nat, semi: nat, size: nat, signature: string, rest: Bytes)
    requires IndexOf(input, '\n') == i <= MAX_HEADER && i < |input| && TrimCR(input[..i]) == line && input[i + 1..] == rest
    requires IndexOf(line, ';') == semi < |line| && size <= MAX_INT64
    requires ParseSize(TrimSpace(line[..semi])) == Some(size) && FindSignature(line[semi + 1..]) == Some(signature)
    ensures ReadHeader(input, false) == Line(size, Some(signature), rest)
  {
    hide ParseSize, FindSignature, TrimSpace, IndexOf, TrimCR;
  }

  lemma LineSplits(digits: string, ext: string, rest: Bytes)
    requires ';' !in digits && '\n' !in digits && '\n' !in ext && ext != [] && ext[|ext| - 1] != '\r'
    ensures var line := digits + [';'] + ext;
            var input := line + CRLF + rest;
            && IndexOf(input, '\n') == |line| + 1 < |input|
            && TrimCR(input[..|line| + 1]) == line && input[|line| + 2..] == rest
            && IndexOf(line, ';') == |digits| < |line| && line[..|digits|] == digits && line[|digits| + 1..] == ext
  {
    var line := digits + [';'] + ext;
    var input := line + CRLF + rest;
    assert input == (line + ['\r']) + ['\n'] + rest;
    IndexOfFirst(line + ['\r'], '\n', rest);
    IndexOfFirst(digits, ';', ext);
    hide IndexOf;
    assert input[..|line| + 1] == line + ['\r'];
    assert (line + ['\r'])[..|line|] == line && line[|line| - 1] == ext[|ext| - 1];
    assert TrimCR(line + ['\r']) == TrimCR(line) == line;
  }

  lemma HeaderReads(size: nat, signature: string, rest: Bytes)
    requires size <= MAX_INT64 && |signature| == 64 && forall c | c in signature :: c in HEX
    ensures ReadHeader(HeaderLine(size, signature) + CRLF + rest, false) == Line(size, Some(signature), rest)
  {
    hide ReadHeader, ParseSize, FindSignature, TrimSpace, HexSize;
    SizeFieldParses(size);
    SignatureFound(signature);
    forall c | c in signature ensures !IsSpace(c) {
      HexCharIsPlain(c);
    }
    var ext := SIGNATURE_KEY + signature;
    assert ext[|ext| - 1] == signature[63] && signature[63] in signature;
    LineReads(HexSize(size), ext, size, signature, rest);
  }

  lemma {:induction false} EncodedIsSigned(k: Signer, previous: string, chunks: seq<Bytes>, trailer: Bytes)
    requires forall c | c in chunks :: 0 < |c| <= MAX_INT64
    ensures Signed(k, Encode(k, previous, chunks) + trailer, previous, chunks)
    decreases |chunks|
  {
    hide ReadHeader, ChunkSignature, HeaderLine, Signed;
    if chunks == [] {
      SignedEmpty(k, Encode(k, previous, chunks) + trailer, previous);
      HeaderReads(0, ChunkSignature(k, previous, []), trailer);
    } else {
      var data, tail := chunks[0], chunks[1..];
      var signature := ChunkSignature(k, previous, data);
      var rest := data + CRLF + (Encode(k, signature, tail) + trailer);
      assert Encode(k, previous, chunks) + trailer == HeaderLine(|data|, signature) + CRLF + rest;
      HeaderReads(|data|, signature, rest);
      EncodedIsSigned(k, signature, tail, trailer);
      assert rest[..|data|] == data && rest[|data|..][..2] == CRLF;
      assert rest[|data|..][2..] == Encode(k, signature, tail) + trailer;
      SignedCons(k, Encode(k, previous, chunks) + trailer, previous, |data|, tail);
      assert chunks == [data] + tail;
    }
  }

  /** Any body cut into any nonempty chunks, framed and chain-signed, decodes to exactly
      that body and then EOF, whatever follows it on the wire. */
  lemma FramingRoundTrip(k: Signer, seed: string, chunks: seq<Bytes>, trailer: Bytes, broken: bool)
    requires forall c | c in chunks :: 0 < |c| <= MAX_INT64
    ensures Decode(Some(k), Encode(k, seed, chunks) + trailer, broken, seed, |Concat(chunks)|) ==
            Outcome(Concat(chunks), Eof)
  {
    EncodedIsSigned(k, seed, chunks, trailer);
    SignedDecodes(k, Encode(k, seed, chunks) + trailer, broken, seed, |Concat(chunks)|, chunks);
  }
}
