# TAG: verified models of the caching proxy's hard parts

TAG is a caching proxy in front of an S3-compatible object store. It serves objects from a local or
clustered cache, fills that cache while it streams, and can own objects itself in a local tier. This
project models the parts of it where being wrong means serving wrong bytes, losing a write or leaking
memory, and proves what they promise. `dafny verify dfyconfig.toml` checks everything.

How the models are built:

- **Concurrent protocols** are step machines. A state, a step datatype with one constructor per atomic
  action of the source (a store call, a critical section, an atomic instruction), a total function `Do`
  in which a step that is not enabled changes nothing, and `Run` over any finite sequence of steps. The
  theorems are about all runs. `ReadAfterWrite`, `TieredStore`, `RetierClaims`, `BlockFetch`,
  `ByteBudget` and `HandlerDrain` have this form.
- **Imperative code** is classes and loops. What the network, the store, the client and other requests do
  is left open by nondeterministic choices and by calls such as `Race`, `Others` and `Consume`, whose
  contracts allow any interference. `TieredHandlers` carries a ghost run of `TieredStore`: each store call
  is one of its steps, so the handlers inherit its theorems.
- **Codecs** are functions with an independent reading of the format beside them.

Modules, by source:

| module | source | subject |
|---|---|---|
| MetaStore | cache/coordinator.go | the versioned metadata row and its compare-and-swap coordinator |
| ReadAfterWrite | proxy/service.go, proxy/caching.go, proxy/get_object.go | populates racing invalidate-forward-invalidate writes |
| TieredStore, TieredHandlers | proxy/localstore.go, proxy/tiered.go | conditional local PUTs, re-tiering, body reclaim |
| RetierClaims | proxy/tiered.go | the claim handshake between writes and re-tiers |
| ChunkedStream, ChunkedReader | proxy/chunked_reader.go, auth/chunk_verifier.go | aws-chunked decoding with chained signatures |
| BlockLayout, BlockStream, BlockAssembly | proxy/block_cache.go, cache/cache.go | block arithmetic, populates, and serving a range from blocks |
| BlockFetch | proxy/block_cache.go | coalesced block fetches and their pooled buffers |
| Broadcasting | proxy/broadcast/broadcaster.go | one upstream body to many listeners |
| ByteBudget, PopulateReservation | proxy/service.go, proxy/caching.go | the populate memory budget and one populate's hold on it |
| BoundedWriter | proxy/revalidation.go | serving a cached body under its declared length |
| HandlerDrain | handlers/server.go | draining handlers at shutdown |
| CanonicalQuery | auth/signer.go | the canonical query string |

What the proofs assume of the environment: the store's conditional put and delete are atomic and version
numbers never repeat; cached blocks are keyed by ETag, so a read returns bytes of the right block (maybe
too few or too many, or none); the store passes its writer's error on; a response that carries an ETag
carries bytes of that version; the client connection takes no more bytes than the response declared; a
reader or writer that reports success did everything it was asked.

## Model
| member | source | states |
|---|---|---|
| MetaStore.Client.Swap | cache/coordinator.go:104-120 | an applied conditional call replaced exactly the version it expected, a refused one changed nothing; a lost reply says neither |
| MetaStore.CasCoordinator.PutMeta | cache/coordinator.go:104-148 | under a token the commit replaces exactly that version or leaves the newer row alone; without one it retries and gives up only after eight lost races |
| MetaStore.CasCoordinator.DeleteMeta | cache/coordinator.go:150-172 | success means the row was a fence at an instant inside the call, under a version newer than any token read before it; running out of attempts needs 63 writes by others |
| MetaStore.CasCoordinator.DeleteMetaIfETag | cache/coordinator.go:174-204 | what is removed is exactly the row whose ETag was compared; it refuses only if there is no such row or the row changed during the call |
| MetaStore.CasCoordinator.DeleteMetaIfVersion | cache/coordinator.go:206-219 | only the observed version is removed; a refusal means the row had moved on |
| ReadAfterWrite.StepKeepsInv | proxy/caching.go:486-545 | every step of populates, promotions, writes and deletes keeps the invariant tying tokens, fences and what was fetched |
| ReadAfterWrite.StaleOnlyWhileUnfenced | proxy/service.go:747-796 | in every run the visible entry is a true past object, and if it is older than upstream every mutation since is one whose handler has not fenced yet |
| ReadAfterWrite.ReadAfterWriteHolds | proxy/write_through.go:225-280 | once a write's second invalidation has returned, nothing that happens later makes content from before that write visible |
| ReadAfterWrite.TokenAfterFetchBreaksIt | proxy/get_object.go:402-440 | if one populate may read its token after its fetch, a run exists that shows the object from before a settled delete |
| TieredStore.StepKeepsInv | proxy/localstore.go:366-446 | every step of PUTs, re-tiers, sweeps, repairs, deletes, expiry and eviction keeps the tier's invariant |
| TieredStore.NoDanglingBody | proxy/localstore.go:541-567 | in every run a visible local row's body is present at exactly the advertised length unless an eviction took it, through lost replies, aborted uploads and reclaimed bodies |
| TieredStore.NoDanglingBodyWithoutEviction | proxy/localstore.go:603-719 | with no eviction of that body it is present, at exactly that length |
| TieredStore.NoLostUpdate | proxy/localstore.go:652-719 | every committed PUT replaced exactly the row it decided on, and its precondition was true of that row at that instant |
| TieredStore.AtMostOneCreate | proxy/localstore.go:366-446 | of two successful create-only PUTs the second needed a removal, or an evicted body, in between |
| TieredStore.SuccessWasVisible | proxy/localstore.go:690-719 | a PUT that answered 200 was the live row at an instant within the request |
| TieredStore.BackgroundNeverReplacesNewer | proxy/tiered.go:606-794 | background work replaces or removes only the row of its own snapshot, and a re-tier only turns a marker into a local body of the same identity |
| TieredHandlers.HandleOriginlessPut | proxy/localstore.go:352-446 | 200 exactly when this PUT's commit was heard to land, with the declared length and agreeing digests; on any other path its staged body is reclaimed or, after a lost commit, kept; 404 exactly when the judged row failed If-Match for want of a servable row, 412 only to a conditional PUT, 400 only for a bad body, and none of these after a lost commit |
| TieredHandlers.StageAndCommit | proxy/localstore.go:541-719 | the two flags that steer the deferred reclaim: committed means stored, ambiguous means it may be, neither means the body is this request's to delete |
| TieredHandlers.RetierOnRead | proxy/tiered.go:560-795 | re-tiered exactly when the commit under the marker's own version was heard to land, and then only with a complete same-object body within the threshold; its staged body is reclaimed on every definite failure and no ambiguous one |
| RetierClaims.Registry.ClaimRetierWrite | proxy/tiered.go:803-811 | the key's count is one higher, its registered re-tier is cancelled, other keys and the registrations stand |
| RetierClaims.Registry.ReleaseRetierWrite | proxy/tiered.go:813-823 | the key's count is one lower and disappears at zero; nothing else changes |
| RetierClaims.Registry.TryRegisterRetier | proxy/tiered.go:825-834 | registers exactly when the key has no claim and no re-tier; a refusal changes nothing |
| RetierClaims.ClaimExcludesRetier | proxy/tiered.go:803-834 | in every run a held claim means any registered re-tier of that key is cancelled, none can register, and there is at most one per key |
| RetierClaims.ClaimsDrain | proxy/tiered.go:813-840 | claims are exactly the writes in progress, so none outlives its write |
| ChunkedStream.ReadHeader | proxy/chunked_reader.go:258-336 | a header line is consumed from the front, its size fits 63 bits, and failing to find one is never a clean end |
| ChunkedStream.ChunkIsBounded | proxy/chunked_reader.go:139-234 | never more bytes than the frames may still claim, and all of them only at a clean end |
| ChunkedStream.CleanEndIsSigned | proxy/chunked_reader.go:206-316 | a clean end implies a chain-signed stream of the declared length |
| ChunkedStream.SignedDecodes | proxy/chunked_reader.go:139-316 | a chain-signed stream of the declared length decodes to exactly its chunks, then EOF |
| ChunkedStream.VerifiedDecoding | proxy/chunked_reader.go:139-316 | for every input and declared length: at most that many bytes; EOF if and only if the input is a chain-signed stream of that length; the full count never without it |
| ChunkedStream.EncodedIsSigned | proxy/chunked_reader.go:206-348 | what a client sends for any nonempty chunks is a chain-signed stream |
| ChunkedStream.FramingRoundTrip | proxy/chunked_reader.go:139-348 | any body cut into any nonempty chunks, framed and signed, decodes to that body and EOF, whatever follows on the wire |
| ChunkedReader.ChunkVerifier.VerifyChunk | auth/chunk_verifier.go:38-46 | accepts exactly the chained signature and advances the chain only then |
| ChunkedReader.AwsChunkedReader.constructor | proxy/chunked_reader.go:116-137 | the fresh reader's future is the decoding of its whole input |
| ChunkedReader.AwsChunkedReader.ReadLine | proxy/chunked_reader.go:320-336 | takes the line up to the first newline, refuses one past the limit, reports end of input otherwise |
| ChunkedReader.AwsChunkedReader.ReadChunkHeader | proxy/chunked_reader.go:258-316 | applies the same checks as the reference outcome and moves to the state it names |
| ChunkedReader.AwsChunkedReader.ReadTrailingCRLF | proxy/chunked_reader.go:338-348 | accepts exactly a CRLF |
| ChunkedReader.AwsChunkedReader.ReadVerifiedLastByte | proxy/chunked_reader.go:206-234 | the withheld byte comes out only as the reference outcome allows |
| ChunkedReader.AwsChunkedReader.ReadData | proxy/chunked_reader.go:160-200 | the plain part of a read delivers a prefix of what the stream still owes |
| ChunkedReader.AwsChunkedReader.Read | proxy/chunked_reader.go:139-200 | a read of any size delivers the next bytes of the reference outcome, or its end, and leaves exactly the rest |
| ChunkedReader.ReadAll | proxy/chunked_reader.go:139-200 | reading to the first error in reads of any sizes yields exactly the reference outcome |
| ChunkedReader.ReadVerifiedBody | proxy/chunked_reader.go:127-316 | through the verifying reader: at most the declared bytes; EOF or the full count exactly for a chain-signed stream of that length; and then exactly its chunks |
| ChunkedReader.SendAndRead | proxy/chunked_reader.go:139-348 | the round trip through the reader: any nonempty chunks, any trailer, any pacing and read sizes, a declared length or none, give the body and EOF |
| BlockLayout.CoveringBlockMeets | proxy/block_cache.go:164-184 | each covering block meets the range, with proper local bounds clamped at both ends |
| BlockLayout.SliceTiles | proxy/block_cache.go:612-676 | a block's local slice is the object's bytes from one slice start to the next; the running offset equals block start plus local start minus range start |
| BlockLayout.SlicesReassembleRange | proxy/block_cache.go:164-184 | the local slices of the covering blocks, concatenated, are exactly the requested bytes |
| BlockLayout.ShortRangeTouchesTwo | proxy/block_cache.go:175-177 | a range no longer than a block covers at most two blocks |
| BlockLayout.PutBlocksFromStream | proxy/block_cache.go:1890-1932 | no short block is ever stored; metadata is attempted only for a body of exactly the declared length that ended cleanly, with every block present and every range of the body readable from them; each refusal says why |
| BlockLayout.PublishedBlocksServeEveryRange | proxy/block_cache.go:1890-1932 | for every range of a published body, the local slices of the stored covering blocks concatenate to exactly the bytes asked for |
| BlockLayout.PutWithMetaStream | cache/cache.go:291-380 | metadata only after the body and only for the declared length, even over a store that takes a broken stream for a finished one; with an honest store the body is whole |
| BlockStream.BlockServe.Write | proxy/block_cache.go:966-983 | the client takes a prefix of what it is given and never more than it was promised |
| BlockStream.BlockServe.ReadToClient | cache/cache.go:647-715 | a nil result means the whole slice reached the client, even over a store that delivers short, over or nothing |
| BlockStream.BlockServe.ReadSlice | proxy/block_cache.go:920-927 | a nil result means the buffer is exactly the slice; otherwise it holds a prefix of it |
| BlockStream.BlockServe.FetchBlock | proxy/block_cache.go:1651-1737 | an accepted block response is exactly the block; stale is reported exactly when upstream answered 404 or another ETag, whatever the length and range |
| BlockStream.BlockServe.RecoverSlice | proxy/block_cache.go:936-964 | the slice is exact or the fault is stale or degraded; each fetch is charged once, and only an exhausted allowance reports the entry mostly absent |
| BlockStream.BlockServe.ReadBlockSlice | proxy/block_cache.go:905-915 | one slice read with at most one fetch; only a stale signal passes unwrapped |
| BlockStream.BlockServe.StreamSequential | proxy/block_cache.go:991-1028 | the client holds a prefix, all of it on success; at most two inline fetches, no remainder; nothing after upstream showed another version or the client failed, and the entry is invalidated exactly then |
| BlockStream.BlockServe.Settle | proxy/block_cache.go:858-876 | a prefetched slice, recovered if absent, is exact or the fault says why |
| BlockStream.BlockServe.StreamPipelined | proxy/block_cache.go:815-889 | the same as the sequential form, for every window |
| BlockStream.BlockServe.StreamRemainder | proxy/block_cache.go:1037-1070 | success means the response was completed from the same version; exactly one request; another version invalidates the entry and ends the serve |
| BlockStream.BlockServe.StreamCached | proxy/block_cache.go:744-772 | whichever form the budget selects keeps the same promise |
| BlockStream.BlockServe.StreamRange | proxy/block_cache.go:737-807 | in all outcomes a prefix, on success everything, at most two fetches and one remainder, nothing after upstream showed another version or the client was lost, the entry dropped exactly for another version or after salvaging one with too many blocks gone; and a steady client gets everything whatever the cache does (short of over-delivering) while upstream still has the version |
| BlockStream.BlockServe.ServeComplete | proxy/block_cache.go:1227-1290 | a failure before the first byte leaves the response untouched; after it the stream's promise holds from the second slice on |
| BlockAssembly.OthersStayLanded | proxy/block_cache.go:625-676 | writing one block's part of the assembly buffer leaves every other part as it was |
| BlockAssembly.AllLanded | proxy/block_cache.go:625-676 | a buffer in which every covering block has landed is the requested range |
| BlockAssembly.FetchForAssembly | proxy/block_cache.go:1600-1643 | returned blocks are exact; the result is stale exactly when any answer showed another version, and then the entry is invalidated last |
| BlockAssembly.ReadPresent | proxy/block_cache.go:618-639 | after the first pass every block not listed missing has landed |
| BlockAssembly.FillMissing | proxy/block_cache.go:657-678 | after the second pass every block has landed, from fetched bytes or a re-read |
| BlockAssembly.ServeAssembled | proxy/block_cache.go:604-698 | served means exactly the range was sent (or the client failed); not served means nothing was; stale is reported exactly when upstream showed another version |
| BlockFetch.RunKeepsInv | proxy/block_cache.go:1409-1540 | every interleaving of joins, leases, releases, cancellations, writes and finishes keeps the reference-count invariant |
| BlockFetch.LeasedBufferIsLive | proxy/block_cache.go:1545-1570 | a leased buffer is not in the pool and is the one its own fetch staged |
| BlockFetch.WrittenBufferIsLive | proxy/block_cache.go:1731-1782 | a buffer a cache write is reading is not in the pool |
| BlockFetch.ReturnedExactlyOnce | proxy/block_cache.go:1504-1540 | no buffer returns twice, and once its fetch finished and its callers released it, it has returned |
| BlockFetch.ReturnedOnlyWhenUnused | proxy/block_cache.go:1504-1540 | the step that returns a buffer found it never published, or leaves its fetch done with every joined caller released, waiting ones included |
| BlockFetch.OneFetchPerKey | proxy/block_cache.go:1457-1525 | two fetches of one block key never overlap until the first one's write has ended |
| BlockFetch.CountsAreExact | proxy/block_cache.go:1457-1540 | a fetch's count is exactly its unreleased callers; populate slots taken are exactly those of fetches between admission and the end of their write |
| BlockFetch.NoLateJoiner | proxy/block_cache.go:1504-1525 | after a fetch left the table no step joins it |
| BlockFetch.NobodyJoinsLater | proxy/block_cache.go:1504-1525 | nor does any continuation of the run |
| BlockFetch.EveryRunDrains | proxy/block_cache.go:1651-1782 | every run extends to one in which every staged buffer is back in the pool, no slot is held and no key is in flight |
| Broadcasting.CloseKeeps | proxy/broadcast/broadcaster.go:165-172 | closing with an error never displaces, drops or reorders queued data |
| Broadcasting.CleanEndIsWhole | proxy/broadcast/broadcaster.go:138-153 | a channel drained to its close without a terminal error delivered everything broadcast; with one, a prefix |
| Broadcasting.OwnerInserted | proxy/broadcast/broadcaster.go:395-405 | re-inserting the owner restores the order of all accepting listeners |
| Broadcasting.OwnerHasRoom | proxy/broadcast/broadcaster.go:356-400 | the listener chosen for its room still has it when its turn comes, since only the broadcaster fills queues |
| Broadcasting.Broadcaster.constructor | proxy/broadcast/broadcaster.go:202-210 | a fresh broadcaster is consistent and empty |
| Broadcasting.Broadcaster.Subscribe | proxy/broadcast/broadcaster.go:222-265 | refused exactly while streaming; a new listener has everything sent so far (nothing), joins last, or gets the terminal result at once |
| Broadcasting.Broadcaster.SetHeaders | proxy/broadcast/broadcaster.go:268-287 | every registered listener learns of the headers; no stream changes |
| Broadcasting.Broadcaster.CopyOf | proxy/broadcast/broadcaster.go:28-36 | a copy comes from a free or new buffer and is equal to its source; no queued buffer changes |
| Broadcasting.Broadcaster.Deliver | proxy/broadcast/broadcaster.go:328-345 | a send hands the buffer over or, when the queue is full, disconnects the listener and leaves the buffer with the producer; nobody else is affected |
| Broadcasting.Broadcaster.Broadcast | proxy/broadcast/broadcaster.go:311-349 | listeners that keep up get the chunk and stay in order; one with room is never dropped; a dropped one holds exactly what was sent before and knows it; no copy goes astray (a buffer that was free is free again or with a listener that kept up); the caller keeps its buffer |
| Broadcasting.Broadcaster.FindOwner | proxy/broadcast/broadcaster.go:357-363 | finds the first listener with room, exactly when there is one |
| Broadcasting.Broadcaster.OfferOthers | proxy/broadcast/broadcaster.go:364-390 | in-place compaction keeps the accepting listeners in order on both sides of the owner's place, while consumers drain |
| Broadcasting.Broadcaster.InsertOwner | proxy/broadcast/broadcaster.go:400-404 | the owner goes back at its position, everything after it shifted by one |
| Broadcasting.Broadcaster.BroadcastOwned | proxy/broadcast/broadcaster.go:303-413 | true exactly when some listener had room, and then the input buffer belongs to one registered listener's queue; false leaves it with the caller; otherwise as Broadcast |
| Broadcasting.Broadcaster.Complete | proxy/broadcast/broadcaster.go:427-460 | every registered listener is closed with the result and holds everything; completing before headers is an error; a second call changes nothing |
| ByteBudget.NewBudget | proxy/service.go:448-468 | the reserve lies within the total, is zero for a nonpositive or not-a-number share, and otherwise fits one populate that fits the budget |
| ByteBudget.Conservation | proxy/service.go:426-581 | in every run free, populate and staging bytes add up to the total, nothing is negative, staging stays under its cap, pending demand is the sum of the waiters |
| ByteBudget.PopulateFloor | proxy/service.go:474-486 | with no warm waiting, a read miss that fits beside the other populates outside staging's share is admitted after any run |
| ByteBudget.HalfIsForPopulates | proxy/service.go:200-201 | with staging capped at half, as the service sets it, the other half is there for a read miss after any run |
| ByteBudget.WarmNotStarved | proxy/service.go:474-545 | while a warm within the reserve waits, read-miss and staging acquisitions neither take the free bytes below its weight nor shrink them while below; once the holders from before the wait released, it is admitted |
| ByteBudget.Semaphore.constructor | proxy/service.go:448-468 | builds that budget, with the staging cap its owner gives it |
| ByteBudget.Semaphore.TryAcquireReadMiss | proxy/service.go:474-486 | is the read-miss step, succeeding exactly when it took a hold |
| ByteBudget.Semaphore.TryAcquireWarm | proxy/service.go:491-504 | is the non-waiting warm step and leaves no pending demand |
| ByteBudget.Semaphore.TryAcquireStaging | proxy/service.go:554-570 | is the staging step, within cap and reserve |
| ByteBudget.Semaphore.Release | proxy/service.go:540-545 | gives a populate hold back, once |
| ByteBudget.Semaphore.ReleaseStaging | proxy/service.go:575-581 | gives a staging hold back, once, with its share of the cap |
| ByteBudget.Semaphore.AcquireWarm | proxy/service.go:511-540 | under any interference: pending only while it waits, a hold of exactly its weight exactly on success, failure only with too little free |
| PopulateReservation.Reservation.AcquireCacheSlot | proxy/service.go:644-695 | takes a slot and the bytes, or nothing, in either order and with either limiter off |
| PopulateReservation.Reservation.AdmitScratch | proxy/caching.go:601-626 | after the scratch re-admission the populate holds the combined weight, the old one, or nothing |
| PopulateReservation.Reservation.FetchFull | proxy/caching.go:486-676 | one deferred release, steered by the ownership flag and the weight as they stand, covers every exit: everything taken was given back, unless the writer still runs and holds exactly what it will release |
| PopulateReservation.Reservation.FetchAndWrite | proxy/caching.go:520-655 | at every return the flag and the weight say exactly what is still held |
| PopulateReservation.Reservation.FetchToTheEnd | proxy/caching.go:643-676 | once such a writer exits nothing stays reserved |
| BoundedWriter.LengthBoundedWriter.Write | proxy/revalidation.go:399-430 | an excess chunk is refused whole, and the last promised byte is held, never forwarded |
| BoundedWriter.LengthBoundedWriter.Release | proxy/revalidation.go:435-443 | forwards the held byte |
| BoundedWriter.LengthBoundedWriter.Serve | proxy/revalidation.go:509-530 | for every chunking the client has a prefix, and as many bytes as declared only if the stream ended cleanly at exactly that length; success exactly then, with the client taking everything |
| HandlerDrain.WordArithmetic | handlers/server.go:26-27 | counting never disturbs the stop bit, and setting the bit never disturbs the count |
| HandlerDrain.RunKeepsInv | handlers/server.go:98-119 | every interleaving of atomic enter, leave and stop keeps the word equal to the live handlers and the stop bit |
| HandlerDrain.ClosedOnceAndDrained | handlers/server.go:107-119 | the done channel is closed at most once, only after a stop, with no admitted handler left |
| HandlerDrain.NothingAdmittedAfterStop | handlers/server.go:98-105 | after a stop no step admits a handler |
| HandlerDrain.DrainCompletes | handlers/server.go:107-119 | once a stop was made and every thread has left and acted on what it saw, the channel is closed |
| CanonicalQuery.EncodeIsFaithful | auth/signer.go:461-475 | the encoding decodes to its input, at most triples its length, and emits neither separator |
| CanonicalQuery.WriteEncoded | auth/signer.go:461-475 | the loop appends exactly that encoding |
| CanonicalQuery.JoinReadsBack | auth/signer.go:290-303 | a joined list of pairs reads back as exactly that list |
| CanonicalQuery.OrderedIsUnique | auth/signer.go:274-288 | an ordered list of pairs is determined by its contents |
| CanonicalQuery.CanonicalQueryString | auth/signer.go:269-306 | the result is the canonical string: each value of each key as often as the query has it, in order, encoded and joined |
| CanonicalQuery.CanonicalFormIsFaithful | auth/signer.go:269-306 | two canonical strings are equal if and only if the queries carry the same values per key as multisets |

## Left out
- One object key at a time: the metadata row, tier and read-after-write models are about a single key, as the source's ordering is per key.
- ReadAfterWrite.ReadAfterWriteHolds: only for populates that read their token before their fetch; the two paths that read it later (proxy/block_cache.go:1958-1980, proxy/revalidation.go:237) are outside it, and TokenAfterFetchBreaksIt shows why the order matters.
- The legacy tombstone coordinator (cache/coordinator.go:244-420): its gate read and its put are two steps, so it does not promise what the compare-and-swap one does.
- Expiry, eviction and the cache engine: eviction is a step that may remove any body, expiry one that may remove the row; replication and storage formats are not modelled.
- Hash functions: HMAC and SHA-256 are uninterpreted functions, digests of a local PUT are an input that agrees or not, and entity tags are opaque.
- Parsing of header values: condition headers, Range and Content-Range arrive parsed; white space outside ASCII in a chunk header is not modelled.
- ChunkedReader.AwsChunkedReader.Read: a zero-length read while the transport has a pending error is not modelled.
- BlockLayout.PutWithMetaStream: for a body of unknown length the published entry is only as complete as the store is honest, as in the source.
- BlockStream.BlockServe.ReadToClient: several writes of one cache read are one write of their concatenation.
- BlockAssembly.FetchForAssembly: the concurrent fetches are tried one after the other.
- BlockStream.BlockServe.StreamRange: metrics, the Parquet footer hint and the staging weights are not modelled; whether the budget admits a window is left open.
- The certified-range path (proxy/block_cache.go:339-532) and the probe-first full-object path (proxy/block_cache.go:1082-1205): they read and send the same slices and would add only easy members.
- Broadcasting.Broadcaster.HandToOwner: the branch for a failed send to the chosen owner is not there, because the send cannot fail.
- Broadcasting.Broadcaster.Broadcast: sending after completion, on which the source panics, is excluded by the precondition.
- BoundedWriter.LengthBoundedWriter.Serve: a declared length of zero does not reach the writer; its caller answers without a body.
- BlockLayout.PutBlocksFromStream: only nonempty objects are block-cached, so the length is positive.
- HTTP header waiting (proxy/broadcast/broadcaster.go:107-127), the broadcast manager and Parquet prefetching.
- ByteBudget.NewBudget: the share times the total is exact, not rounded to a 64-bit float.
- ByteBudget.Semaphore.AcquireWarm: the deadline is a bound on wake-ups.
- PopulateReservation.Reservation.FetchFull: response handling is reduced to the exits it has; the limiters' answers are left open.
- HandlerDrain.RunKeepsInv: a handler does not enter while the 63-bit counter is full.
- CanonicalQuery.CanonicalQueryString: the in-place reordering of the caller's values is not modelled, nor is the capacity reserved for the builder.
- Canonical header values, capped buffers and the wire-size formula, request routing, TLS, configuration, metrics, logging and S3 error documents.
