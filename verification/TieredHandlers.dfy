/** The local-tier PUT handler and the re-tier worker as code: flags, bounded retry and
    reclaim, running against a store that other requests use between any two of their calls.
    The store shadows every call with the step of TieredStore it performs, so a handler
    that verifies here is one of the processes TieredStore's theorems speak about. */
module TieredHandlers {
  import opened Options
  import opened MetaStore
  import opened TieredStore

  /** The cache as one request sees it: the row, the bodies, and the BodyRef source. */
  class Store {
    var cell: Cell<Meta>
    var bodies: map<Ref, Bytes>
    var minted: nat
    ghost var steps: seq<Step>
    ghost var shadow: State

    ghost predicate Valid()
      reads this
    {
      && shadow == Run(steps)
      && shadow.cell == cell && shadow.bodies == bodies && |shadow.owners| == minted
    }

    /** The process request id is in the shadow run. */
    ghost function Me(id: Id): Process
      reads this
    {
      if id in shadow.processes then shadow.processes[id] else Ended
    }

    constructor ()
      ensures Valid() && steps == []
    {
      cell, bodies, minted := Cell(1, None), map[], 0;
      steps, shadow := [], START;
    }

    ghost method Shadow(step: Step)
      requires shadow == Run(steps)
      modifies this`steps, this`shadow
      ensures shadow == Run(steps) == Do(old(shadow), step)
      ensures steps == old(steps) + [step]
    {
      assert (steps + [step])[..|steps|] == steps;
      steps, shadow := steps + [step], Do(shadow, step);
    }

    /** Other requests run; this one's own process does not move. */
    method Others(ghost id: Id)
      requires Valid()
      modifies this
      ensures Valid() && old(steps) <= steps
      ensures id in shadow.processes <==> id in old(shadow.processes)
      ensures Me(id) == old(Me(id))
    {
    }

    method GetMetaWithVersion(ghost id: Id, ghost cond: Cond) returns (row: Option<Meta>, version: nat, failed: bool)
      requires Valid() && id !in shadow.processes
      modifies this
      ensures Valid() && old(steps) <= steps
      ensures failed ==> id !in shadow.processes
      ensures !failed ==>
                && Me(id).Evaluate? && Me(id).cond == cond
                && Me(id).token == version && Me(id).prior == row
    {
      Others(id);
      failed := *;
      row, version := cell.row, cell.version;
      if !failed {
        Shadow(BeginPut(id, cond));
      }
    }

    /** The instant the PUT is judged, with entryServable when the handler asks for it. */
    method Probe(ghost id: Id, prior: Option<Meta>, asks: bool) returns (exists_: bool, failed: bool)
      requires Valid() && Me(id).Evaluate? && Me(id).prior == prior
      requires asks == (Me(id).cond.Conditional() && prior.Some? && prior.value.Local?)
      modifies this
      ensures Valid() && old(steps) <= steps
      ensures failed ==> Me(id).Ended?
      ensures exists_ ==> prior.Some?
      ensures !failed ==> exists_ == (prior.Some? && (!asks || Servable(bodies, prior.value)))
      ensures !failed ==>
                var p := old(Me(id));
                if Judge(p.cond, prior, exists_) != Proceed then Me(id).Ended?
                else Me(id).Ready? && Me(id).cond == p.cond && Me(id).token == p.token
    {
      Others(id);
      failed := *;
      failed := failed && asks;
      if failed {
        Shadow(GiveUp(id));
        return false, true;
      }
      exists_ := prior.Some? && (!asks || Servable(bodies, prior.value));
      Shadow(JudgePut(id));
    }

    method NewBodyRef(ghost id: Id) returns (ref: Ref)
      requires Valid() && (Me(id).Ready? || (Me(id).Watch? && Me(id).job.Healing?))
      modifies this
      ensures Valid() && old(steps) <= steps
      ensures old(Me(id)).Ready? ==> Me(id).Stage? && Me(id).cond == old(Me(id)).cond
      ensures old(Me(id)).Watch? ==> Me(id).HealStage? && Me(id).prior == old(Me(id)).prior
      ensures Me(id).ref == ref && Me(id).token == old(Me(id)).token
    {
      Others(id);
      ref, minted := minted, minted + 1;
      Shadow(MintRef(id));
    }

    /** PutBodyStream: data is whatever part of the upload reached the store. */
    method PutBodyStream(ghost id: Id, ref: Ref, data: Bytes, complete: bool, ghost declared: nat, ghost etag: ETag)
      requires Valid() && Me(id).Stage? && Me(id).ref == ref
      modifies this
      ensures Valid() && old(steps) <= steps
      ensures if complete && |data| == declared
              then
                && Me(id).Commit? && Me(id).cond == old(Me(id)).cond && Me(id).token == old(Me(id)).token
                && Me(id).body == Body(etag, ref, declared) && Me(id).tries == 0
              else Me(id) == Reclaim(ref)
    {
      Others(id);
      bodies := bodies[ref := data];
      Shadow(StageBody(id, data, complete, declared, etag));
    }

    /** PutMetaIfVersion: answered, or failed without saying whether the row changed. */
    method PutMetaIfVersion(ghost id: Id, body: Body, token: nat) returns (wrote: bool, failed: bool)
      requires Valid() && Me(id).Commit? && Me(id).body == body && Me(id).token == token
      modifies this
      ensures Valid() && old(steps) <= steps
      ensures failed ==> Me(id) == Ambiguous(body.ref)
      ensures !failed && wrote ==> Me(id).Stored? && Me(id).body == body
      ensures !failed && !wrote ==>
                var p := old(Me(id));
                if p.cond.Conditional() || p.tries == MAX_RETRIES then Me(id) == Reclaim(body.ref)
                else Me(id) == Refresh(p.cond, p.since, body, p.tries + 1)
    {
      Others(id);
      var lost: bool := *;
      var applies: bool := *;
      if lost && !applies {
        Shadow(CommitPut(id, LostBefore));
        return false, true;
      }
      var (next, verdict) := PutIfVersion(cell, token, Local(body));
      cell, wrote, failed := next, verdict == Applied, lost;
      Shadow(CommitPut(id, if lost then LostAfter else Heard));
    }

    /** The retry's fresh token; a failed read aborts the retry. */
    method Reread(ghost id: Id) returns (version: nat, failed: bool)
      requires Valid() && Me(id).Refresh?
      modifies this
      ensures Valid() && old(steps) <= steps
      ensures failed ==> Me(id) == Reclaim(old(Me(id)).body.ref)
      ensures !failed ==>
                && Me(id).Commit? && Me(id).token == version && Me(id).cond == old(Me(id)).cond
                && Me(id).body == old(Me(id)).body && Me(id).tries == old(Me(id)).tries
    {
      Others(id);
      failed := *;
      version := cell.version;
      Shadow(if failed then GiveUp(id) else RefreshToken(id));
    }

    /** A failure of the request before any further store call. */
    ghost method Abandon(id: Id)
      requires Valid() && (Me(id).Refresh? || Me(id).Commit?)
      modifies this`steps, this`shadow
      ensures Valid() && old(steps) <= steps
      ensures Me(id) == Reclaim(old(Me(id)).body.ref)
    {
      Shadow(GiveUp(id));
    }

    // ---- The re-tier worker's calls --------------------------------------------------

    /** The triggering GET's read, which makes a re-tier of an eligible marker. */
    method ReadMarker(ghost id: Id) returns (row: Option<Meta>, version: nat)
      requires Valid() && id !in shadow.processes
      modifies this
      ensures Valid() && old(steps) <= steps
      ensures if Wanted(Heal, row) then Me(id).Watch? && Me(id).job == Heal && Me(id).token == version && Me(id).prior == row
              else id !in shadow.processes
    {
      Others(id);
      row, version := cell.row, cell.version;
      Shadow(Snapshot(id, Heal));
    }

    method StillCurrent(ghost id: Id, marker: Meta, version: nat) returns (current: bool)
      requires Valid() && Me(id).Watch? && Me(id).job == Heal && Me(id).token == version && Me(id).prior == Some(marker)
      modifies this
      ensures Valid() && old(steps) <= steps
      ensures if current then Me(id).Watch? && Me(id) == old(Me(id)).(job := Healing) else Me(id).Ended?
    {
      Others(id);
      var failed: bool := *;
      if failed {
        Shadow(GiveUp(id));
        return false;
      }
      current := cell == Cell(version, Some(marker));
      Shadow(VerifyMarker(id));
    }

    /** Removes a marker whose object is gone upstream, under the marker's own version. */
    method RemoveMarker(ghost id: Id, version: nat)
      requires Valid() && Me(id).Watch? && Me(id).job == Healing && Me(id).token == version
      modifies this
      ensures Valid() && old(steps) <= steps && Me(id).Ended?
    {
      Others(id);
      var applies: bool := *;
      if applies {
        cell := DeleteIfVersion(cell, version).0;
        Shadow(RemoveGuarded(id, LostAfter));
      }
      Leave(id);
    }

    /** Rewrites a marker whose object was replaced upstream, under its own version. */
    method RewriteMarker(ghost id: Id, version: nat, marker: Meta)
      requires Valid() && Me(id).Watch? && Me(id).job == Healing && Me(id).token == version && marker.Marker?
      modifies this
      ensures Valid() && old(steps) <= steps && Me(id).Ended?
    {
      Others(id);
      var applies: bool := *;
      if applies {
        cell := PutIfVersion(cell, version, marker).0;
        Shadow(SwapMarker(id, marker, Heard));
      } else {
        Leave(id);
      }
    }

    method PutHealedBody(ghost id: Id, ref: Ref, data: Bytes, complete: bool)
      requires Valid() && Me(id).HealStage? && Me(id).ref == ref
      requires Me(id).prior.Some? && Me(id).prior.value.Marker?
      modifies this
      ensures Valid() && old(steps) <= steps
      ensures var marker := old(Me(id)).prior.value;
              if complete && |data| == marker.length
              then
                && Me(id).HealCommit? && Me(id).token == old(Me(id)).token
                && Me(id).body == Body(marker.etag, ref, |data|)
              else Me(id) == Reclaim(ref)
    {
      Others(id);
      bodies := bodies[ref := data];
      Shadow(StageBody(id, data, complete, 0, 0));
    }

    /** The identity re-read before the commit; a changed row or a cancelled context ends it. */
    method StillMarker(ghost id: Id, etag: ETag) returns (go: bool)
      requires Valid() && Me(id).HealCommit?
      modifies this
      ensures Valid() && old(steps) <= steps
      ensures if go then Me(id) == old(Me(id)) else Me(id) == Reclaim(old(Me(id)).body.ref)
    {
      Others(id);
      var failed: bool := *;
      var cancelled: bool := *;
      go := !failed && !cancelled && cell.row.Some? && cell.row.value.Marker? && cell.row.value.etag == etag;
      if !go {
        Shadow(GiveUp(id));
      }
    }

    method PutHealedMeta(ghost id: Id, body: Body, token: nat) returns (wrote: bool, failed: bool)
      requires Valid() && Me(id).HealCommit? && Me(id).body == body && Me(id).token == token
      modifies this
      ensures Valid() && old(steps) <= steps
      ensures failed ==> Me(id) == Ambiguous(body.ref)
      ensures !failed ==> if wrote then Me(id).Stored? && Me(id).body == body else Me(id) == Reclaim(body.ref)
    {
      Others(id);
      var lost: bool := *;
      var applies: bool := *;
      if lost && !applies {
        Shadow(CommitHeal(id, LostBefore));
        return false, true;
      }
      var (next, verdict) := PutIfVersion(cell, token, Local(body));
      cell, wrote, failed := next, verdict == Applied, lost;
      Shadow(CommitHeal(id, if lost then LostAfter else Heard));
    }

    /** The worker stops before it staged anything. */
    ghost method Leave(id: Id)
      requires Valid() && Me(id).Watch?
      modifies this`steps, this`shadow
      ensures Valid() && old(steps) <= steps && Me(id).Ended?
    {
      Shadow(GiveUp(id));
    }

    /** Legal only for a body whose own commit can no longer exist. */
    method DeleteBody(ghost id: Id, ref: Ref)
      requires Valid() && Me(id) == Reclaim(ref)
      modifies this
      ensures Valid() && old(steps) <= steps && Me(id).Ended?
    {
      Others(id);
      var deleted: bool := *;
      if deleted {
        bodies := bodies - {ref};
      }
      Shadow(ReclaimBody(id, deleted));
    }
  }

  datatype Status = Ok | NotFound | Precondition | BadBody | Unavailable

  /** What reached the server of the uploaded body: the bytes, whether the stream ended
      cleanly, and whether the digests the client sent agree. */
  datatype Upload = Upload(data: Bytes, clean: bool, digestsAgree: bool, etag: ETag)

  /** HandleOriginlessPut. Whatever races it and whatever calls are lost: a 200 means this
      PUT's row became visible and the reply was heard, and on every other path its staged
      body is either reclaimed or, after a lost commit, kept. A refusal says what was wrong:
      judged holds once the PUT was judged on the row prior, existed being whether it was
      servable then; only a conditional PUT is refused for its condition, and a lost commit is
      never reported as a refusal. */
  method HandleOriginlessPut(store: Store, ghost id: Id, cond: Cond, declared: nat, upload: Upload)
    returns (status: Status, ghost judged: bool, ghost prior: Option<Meta>, ghost existed: bool)
    requires store.Valid() && id !in store.shadow.processes
    modifies store
    ensures store.Valid() && old(store.steps) <= store.steps
    ensures status == Ok <==> store.Me(id).Stored?
    ensures status == Ok ==>
              |upload.data| == declared && upload.clean && upload.digestsAgree
              && store.Me(id).body.etag == upload.etag && store.Me(id).body.length == declared
    ensures store.Me(id).Ended? || store.Me(id).Stored? || store.Me(id).Ambiguous?
    ensures existed ==> prior.Some?
    ensures status == NotFound <==> judged && Judge(cond, prior, existed) == NoSuchKey
    ensures judged && Judge(cond, prior, existed) == PreconditionFailed ==> status == Precondition
    ensures status == Precondition ==>
              judged && cond.Conditional() && Judge(cond, prior, existed) != NoSuchKey
    ensures status == BadBody ==>
              judged && (!upload.clean || |upload.data| != declared || !upload.digestsAgree)
    ensures status in {NotFound, Precondition, BadBody} ==> store.Me(id).Ended?
  {
    hide Run, Do, Servable;
    judged, prior, existed := false, None, false;
    var row, expected, failed := store.GetMetaWithVersion(id, cond);
    if failed {
      return Unavailable, judged, prior, existed;
    }
    var asks := cond.Conditional() && row.Some? && row.value.Local?;
    var exists_;
    exists_, failed := store.Probe(id, row, asks);
    if failed {
      return Unavailable, judged, prior, existed;
    }
    judged, prior, existed := true, row, exists_;
    match Judge(cond, row, exists_) {
      case NoSuchKey => return NotFound, judged, prior, existed;
      case PreconditionFailed => return Precondition, judged, prior, existed;
      case Proceed =>
    }
    var ref := store.NewBodyRef(id);
    var committed, ambiguousCommit;
    status, committed, ambiguousCommit := StageAndCommit(store, id, cond, ref, expected, declared, upload);
    // The deferred reclaim.
    if !committed && !ambiguousCommit {
      store.DeleteBody(id, ref);
    }
  }

  /** From the staged body to the verdict; the two flags steer the deferred reclaim. */
  method StageAndCommit(store: Store, ghost id: Id, cond: Cond, ref: Ref, expected: nat, declared: nat, upload: Upload)
    returns (status: Status, committed: bool, ambiguousCommit: bool)
    requires store.Valid() && store.Me(id).Stage? && store.Me(id).ref == ref
    requires store.Me(id).cond == cond && store.Me(id).token == expected
    modifies store
    ensures store.Valid() && old(store.steps) <= store.steps
    ensures committed ==> status == Ok && store.Me(id).Stored?
    ensures status == Ok ==>
              && committed && |upload.data| == declared && upload.clean && upload.digestsAgree
              && store.Me(id).body == Body(upload.etag, ref, declared)
    ensures ambiguousCommit ==> !committed && store.Me(id) == Ambiguous(ref)
    ensures !committed && !ambiguousCommit ==> store.Me(id) == Reclaim(ref)
    ensures ambiguousCommit ==> status == Unavailable
    ensures status == Precondition ==> cond.Conditional()
    ensures status == BadBody <==> !upload.clean || |upload.data| != declared || !upload.digestsAgree
    ensures status != NotFound
  {
    hide Run, Do;
    committed, ambiguousCommit := false, false;
    store.PutBodyStream(id, ref, upload.data, upload.clean && upload.digestsAgree, declared, upload.etag);
    if !upload.clean || |upload.data| != declared || !upload.digestsAgree {
      return BadBody, false, false;
    }
    var body := Body(upload.etag, ref, declared);
    var wrote, failed := store.PutMetaIfVersion(id, body, expected);
    if failed {
      return Unavailable, false, true;
    }
    if !wrote && cond.Conditional() {
      return Precondition, false, false;
    }
    var attempt := 0;
    while attempt < MAX_RETRIES && !wrote
      invariant store.Valid() && old(store.steps) <= store.steps
      invariant attempt <= MAX_RETRIES && (!wrote ==> !cond.Conditional())
      invariant wrote ==> store.Me(id).Stored? && store.Me(id).body == body
      invariant !wrote ==>
                  if attempt == MAX_RETRIES then store.Me(id) == Reclaim(ref)
                  else
                    && store.Me(id).Refresh? && store.Me(id).body == body && store.Me(id).cond == cond
                    && store.Me(id).tries == attempt + 1
      decreases MAX_RETRIES - attempt
    {
      var cancelled: bool := *;
      if cancelled {
        store.Abandon(id);
        return Unavailable, false, false;
      }
      var token;
      token, failed := store.Reread(id);
      if failed {
        return Unavailable, false, false;
      }
      wrote, failed := store.PutMetaIfVersion(id, body, token);
      if failed {
        return Unavailable, false, true;
      }
      attempt := attempt + 1;
    }
    if !wrote {
      return Unavailable, false, false;
    }
    return Ok, true, false;
  }

  /** What the worker's upstream fetch returned. */
  datatype Fetched =
    | SameObject(data: Bytes, complete: bool)
    | Replaced(etag: ETag, length: int)
    | Missing
    | Transient

  datatype Heal = Retiered | Changed | Errored | Skipped

  /** maybeRetierOnRead's worker. It moves the object into the local tier only if the very
      marker its GET read is still the row, and reclaims its staged body on every definite
      failure and on none that is ambiguous. */
  method RetierOnRead(store: Store, ghost id: Id, threshold: nat, fetched: Fetched) returns (outcome: Heal)
    requires store.Valid() && id !in store.shadow.processes
    modifies store
    ensures store.Valid() && old(store.steps) <= store.steps
    ensures outcome == Retiered <==> store.Me(id).Stored?
    ensures outcome == Retiered ==>
              fetched.SameObject? && fetched.complete && store.Me(id).body.length == |fetched.data| <= threshold
    ensures store.Me(id).Ended? || store.Me(id).Stored? || store.Me(id).Ambiguous? || outcome == Skipped
  {
    hide Run, Do;
    var row, version := store.ReadMarker(id);
    if row.None? || row.value.Local? || row.value.length < 0 || row.value.length > threshold {
      return Skipped;
    }
    var marker := row.value;
    var current := store.StillCurrent(id, marker, version);
    if !current {
      return Changed;
    }
    match fetched
    case Transient =>
      store.Leave(id);
      return Errored;
    case Missing =>
      store.RemoveMarker(id, version);
      return Changed;
    case Replaced(etag, length) =>
      store.RewriteMarker(id, version, Marker(etag, length));
      return Changed;
    case SameObject(data, complete) =>
      var ref := store.NewBodyRef(id);
      store.PutHealedBody(id, ref, data, complete);
      if !complete || |data| != marker.length {
        store.DeleteBody(id, ref);
        return if complete then Changed else Errored;
      }
      var go := store.StillMarker(id, marker.etag);
      if !go {
        store.DeleteBody(id, ref);
        return Changed;
      }
      var wrote, failed := store.PutHealedMeta(id, Body(marker.etag, ref, |data|), version);
      if failed {
        return Errored;
      }
      if !wrote {
        store.DeleteBody(id, ref);
        return Changed;
      }
      return Retiered;
  }
}
