/** Tiered mode: local-tier PUTs, upstream markers, deletes and background repairs race on
    one object's row while staging and reclaiming bodies of their own
    (proxy/localstore.go, proxy/tiered.go). Every store call is one atomic step; a run is
    any interleaving of steps, with any call's reply lost, and bodies evicted at any time. */
module TieredStore {
  import opened Options
  import opened MetaStore

  type ETag = nat
  type Ref = nat
  type Id = nat
  type Bytes = seq<int>

  /** A row's metadata: a body in the local tier under its own BodyRef, or a marker for
      a body upstream (length -1 when unknown). */
  datatype Meta = Local(body: Body) | Marker(etag: ETag, length: int)
  datatype Body = Body(etag: ETag, ref: Ref, length: nat)

  function Tag(m: Meta): ETag {
    if m.Local? then m.body.etag else m.etag
  }

  // ---- Preconditions ------------------------------------------------------------------

  datatype Match = Star | Tags(tags: set<ETag>)
  datatype Cond = Cond(ifMatch: Option<Match>, ifNoneMatch: Option<Match>) {
    predicate Conditional() {
      ifMatch.Some? || ifNoneMatch.Some?
    }
  }

  datatype Answer = Proceed | NoSuchKey | PreconditionFailed

  predicate Matches(m: Match, etag: ETag) {
    m.Star? || etag in m.tags
  }

  /** The precondition of a conditional PUT, on the row it read. exists means servable. */
  function Judge(c: Cond, prior: Option<Meta>, exists_: bool): Answer
    requires exists_ ==> prior.Some?
  {
    if c.ifMatch.Some? && !exists_ then NoSuchKey
    else if c.ifMatch.Some? && !Matches(c.ifMatch.value, Tag(prior.value)) then PreconditionFailed
    else if c.ifNoneMatch.Some? && exists_ && Matches(c.ifNoneMatch.value, Tag(prior.value)) then PreconditionFailed
    else Proceed
  }

  // ---- History ------------------------------------------------------------------------

  /** Who changed the row, and on what snapshot: seen is the length of the history when
      the token was read. */
  datatype Role =
    | Put(cond: Cond, existed: bool)
    | Background
    | Unguarded

  datatype Event =
    | Wrote(who: Id, role: Role, seen: nat, prior: Option<Meta>, meta: Meta)
    | Removed(who: Id, role: Role, seen: nat, prior: Option<Meta>)
    | Evicted(ref: Ref)

  type History = seq<Event>

  /** The row as the history left it. */
  function RowAt(h: History): Option<Meta> {
    if h == [] then None else
      match h[|h| - 1]
      case Wrote(_, _, _, _, meta) => Some(meta)
      case Removed(_, _, _, _) => None
      case Evicted(_) => RowAt(h[..|h| - 1])
  }

  /** No row change between two points of the history. */
  ghost predicate Quiet(h: History, lo: nat, hi: nat)
    requires hi <= |h|
  {
    forall k | lo <= k < hi :: h[k].Evicted?
  }

  ghost predicate Gone(h: History, ref: Ref) {
    Evicted(ref) in h
  }

  // ---- Processes ----------------------------------------------------------------------

  const MAX_RETRIES: nat := 8

  /** What a snapshot was taken for. */
  datatype Job =
    | Heal                 // re-tier on read: the triggering GET's read
    | Healing              // re-tier worker that found its marker still current
    | LargePut             // marker for a body just written upstream
    | Upgrade(etag: ETag)  // multipart completion: fill in the marker's length
    | Repair(etag: ETag)   // after a cleanup delete upstream
    | Converge             // forwarded DELETE, or an orphaned row found by a serve

  /** token is the version a process decided on, seen the history length at that read,
      prior the row it read, since the history length when its request began. */
  datatype Process =
    | Evaluate(cond: Cond, token: nat, seen: nat, prior: Option<Meta>, since: nat)
    | Ready(cond: Cond, existed: bool, token: nat, seen: nat, prior: Option<Meta>, since: nat)
    | Stage(cond: Cond, existed: bool, token: nat, seen: nat, prior: Option<Meta>, since: nat, ref: Ref)
    | Commit(cond: Cond, existed: bool, token: nat, seen: nat, prior: Option<Meta>, since: nat, body: Body, tries: nat)
    | Refresh(cond: Cond, since: nat, body: Body, tries: nat)
    | Stored(body: Body, at: nat, since: nat)
    | Ambiguous(ref: Ref)
    | Reclaim(ref: Ref)
    | Watch(job: Job, token: nat, seen: nat, prior: Option<Meta>)
    | Sweep(token: nat, seen: nat, prior: Option<Meta>)
    | HealStage(token: nat, seen: nat, prior: Option<Meta>, ref: Ref)
    | HealCommit(token: nat, seen: nat, prior: Option<Meta>, body: Body)
    | Deleting(expected: nat)
    | Ended

  /** owners[r] is the process that minted BodyRef r. */
  datatype State = State(
    cell: Cell<Meta>,
    bodies: map<Ref, Bytes>,
    owners: seq<Id>,
    processes: map<Id, Process>,
    history: History)

  /** How a commit attempt ends: answered, or lost with the write applied or not. */
  datatype Delivery = Heard | LostAfter | LostBefore

  datatype Step =
    | BeginPut(id: Id, cond: Cond)
    | JudgePut(id: Id)
    | MintRef(id: Id)
    | StageBody(id: Id, data: Bytes, complete: bool, declared: nat, etag: ETag)
    | CommitPut(id: Id, delivery: Delivery)
    | RefreshToken(id: Id)
    | GiveUp(id: Id)
    | ReclaimBody(id: Id, deleted: bool)
    | Snapshot(id: Id, job: Job)
    | VerifyMarker(id: Id)
    | CommitHeal(id: Id, delivery: Delivery)
    | SwapMarker(id: Id, marker: Meta, delivery: Delivery)
    | RemoveGuarded(id: Id, delivery: Delivery)
    | BeginDelete(id: Id)
    | TryDelete(id: Id)
    | Expire
    | Evict(ref: Ref)

  function Set(s: State, id: Id, p: Process): State {
    s.(processes := s.processes[id := p])
  }

  /** The store call every commit makes, and the history entry it leaves. */
  function Write(s: State, expected: nat, e: Event): State
    requires e.Wrote?
  {
    match PutIfVersion(s.cell, expected, e.meta)
    case (c, Applied) => s.(cell := c, history := s.history + [e])
    case (c, Mismatch(_)) => s
  }

  function Remove(s: State, expected: nat, e: Event): State
    requires e.Removed?
  {
    match DeleteIfVersion(s.cell, expected)
    case (c, Applied) => s.(cell := c, history := s.history + [e])
    case (c, Mismatch(_)) => s
  }

  /** entryServable: an empty object needs no body; otherwise its first byte must be there. */
  predicate Servable(bodies: map<Ref, Bytes>, m: Meta) {
    m.Marker? || m.body.length == 0 || (m.body.ref in bodies && 0 < |bodies[m.body.ref]|)
  }

  // ---- Steps --------------------------------------------------------------------------

  /** The request reads the row once; that read is its decision-time token. */
  function DoBeginPut(s: State, id: Id, cond: Cond): State {
    if id in s.processes then s else
      Set(s, id, Evaluate(cond, s.cell.version, |s.history|, s.cell.row, |s.history|))
  }

  /** The precondition, with existence probed on the local body. */
  function DoJudgePut(s: State, id: Id): State {
    if id !in s.processes || !s.processes[id].Evaluate? then s else
      var p := s.processes[id];
      var existed := p.prior.Some? && (!p.cond.Conditional() || Servable(s.bodies, p.prior.value));
      if Judge(p.cond, p.prior, existed) != Proceed then Set(s, id, Ended) else
        Set(s, id, Ready(p.cond, existed, p.token, p.seen, p.prior, p.since))
  }

  /** NewBodyRef: a body key no other write will ever use. */
  function DoMintRef(s: State, id: Id): State {
    if id !in s.processes then s else
      match s.processes[id]
      case Ready(cond, existed, token, seen, prior, since) =>
        Set(s, id, Stage(cond, existed, token, seen, prior, since, |s.owners|)).(owners := s.owners + [id])
      case Watch(Healing, token, seen, prior) =>
        Set(s, id, HealStage(token, seen, prior, |s.owners|)).(owners := s.owners + [id])
      case _ => s
  }

  /** The body streams into the store. A stream that failed, or delivered another length
      than declared, leads to the deferred reclaim; so does a digest that disagrees. */
  function DoStageBody(s: State, id: Id, data: Bytes, complete: bool, declared: nat, etag: ETag): State {
    if id !in s.processes then s else
      var p := s.processes[id];
      if p.Stage? then
        Set(s, id,
          if complete && |data| == declared
          then Commit(p.cond, p.existed, p.token, p.seen, p.prior, p.since, Body(etag, p.ref, declared), 0)
          else Reclaim(p.ref)).(bodies := s.bodies[p.ref := data])
      else if p.HealStage? then
        Set(s, id,
          if complete && p.prior.Some? && p.prior.value.Marker? && |data| == p.prior.value.length
          then HealCommit(p.token, p.seen, p.prior, Body(p.prior.value.etag, p.ref, |data|))
          else Reclaim(p.ref)).(bodies := s.bodies[p.ref := data])
      else s
  }

  /** One commit attempt. Refused conditional: 412 and reclaim. Refused unconditional:
      another try under a fresh token, eight at most. Lost: the body must be kept. */
  function DoCommitPut(s: State, id: Id, d: Delivery): State {
    if id !in s.processes || !s.processes[id].Commit? then s else
      var p := s.processes[id];
      var e := Wrote(id, Put(p.cond, p.existed), p.seen, p.prior, Local(p.body));
      var s' := Write(s, p.token, e);
      match d
      case LostBefore => Set(s, id, Ambiguous(p.body.ref))
      case LostAfter => Set(s', id, Ambiguous(p.body.ref))
      case Heard =>
        if s'.cell != s.cell then Set(s', id, Stored(p.body, |s.history|, p.since))
        else if p.cond.Conditional() || p.tries == MAX_RETRIES then Set(s, id, Reclaim(p.body.ref))
        else Set(s, id, Refresh(p.cond, p.since, p.body, p.tries + 1))
  }

  function DoRefreshToken(s: State, id: Id): State {
    if id !in s.processes || !s.processes[id].Refresh? then s else
      var p := s.processes[id];
      Set(s, id, Commit(p.cond, s.cell.row.Some?, s.cell.version, |s.history|, s.cell.row, p.since, p.body, p.tries))
  }

  /** Any abort between staging and commit: errors, cancellation, even a panic. */
  function DoGiveUp(s: State, id: Id): State {
    if id !in s.processes then s else
      var p := s.processes[id];
      match p
      case Stage(_, _, _, _, _, _, ref) => Set(s, id, Reclaim(ref))
      case HealStage(_, _, _, ref) => Set(s, id, Reclaim(ref))
      case Commit(_, _, _, _, _, _, Body(_, ref, _), _) => Set(s, id, Reclaim(ref))
      case Refresh(_, _, Body(_, ref, _), _) => Set(s, id, Reclaim(ref))
      case HealCommit(_, _, _, Body(_, ref, _)) => Set(s, id, Reclaim(ref))
      case Evaluate(_, _, _, _, _) => Set(s, id, Ended)
      case Ready(_, _, _, _, _, _) => Set(s, id, Ended)
      case Watch(_, _, _, _) => Set(s, id, Ended)
      case Sweep(_, _, _) => Set(s, id, Ended)
      case Deleting(_) => Set(s, id, Ended)
      case _ => s
  }

  function DoReclaimBody(s: State, id: Id, deleted: bool): State {
    if id !in s.processes || !s.processes[id].Reclaim? then s else
      Set(s, id, Ended).(bodies := if deleted then s.bodies - {s.processes[id].ref} else s.bodies)
  }

  predicate Wanted(job: Job, row: Option<Meta>) {
    match job
    case Heal => row.Some? && row.value.Marker? && 0 <= row.value.length
    case Healing => row.Some? && row.value.Marker? && 0 <= row.value.length
    case LargePut => true
    case Upgrade(etag) => row.Some? && row.value.Marker? && row.value.etag == etag && row.value.length < 0
    case Repair(etag) => row.Some? && row.value.Marker? && row.value.etag == etag
    case Converge => true
  }

  function DoSnapshot(s: State, id: Id, job: Job): State {
    if id in s.processes || job.Healing? || !Wanted(job, s.cell.row) then s else
      Set(s, id, Watch(job, s.cell.version, |s.history|, s.cell.row))
  }

  /** The worker checks that its marker is still the current version before it fetches. */
  function DoVerifyMarker(s: State, id: Id): State {
    if id !in s.processes || !s.processes[id].Watch? || !s.processes[id].job.Heal? then s else
      var p := s.processes[id];
      Set(s, id, if s.cell == Cell(p.token, p.prior) then Watch(Healing, p.token, p.seen, p.prior) else Ended)
  }

  function DoCommitHeal(s: State, id: Id, d: Delivery): State {
    if id !in s.processes || !s.processes[id].HealCommit? then s else
      var p := s.processes[id];
      var s' := Write(s, p.token, Wrote(id, Background, p.seen, p.prior, Local(p.body)));
      match d
      case LostBefore => Set(s, id, Ambiguous(p.body.ref))
      case LostAfter => Set(s', id, Ambiguous(p.body.ref))
      case Heard =>
        if s'.cell != s.cell then Set(s', id, Stored(p.body, |s.history|, p.seen)) else Set(s, id, Reclaim(p.body.ref))
  }

  /** A marker commit: a large PUT's, a completion's upgrade, or a heal that found the
      object replaced. A large PUT that was refused or lost goes on to its sweep. */
  function DoSwapMarker(s: State, id: Id, marker: Meta, d: Delivery): State {
    if id !in s.processes || !s.processes[id].Watch? || marker.Local? then s else
      var p := s.processes[id];
      if p.job.Heal? || p.job.Repair? || p.job.Converge? then s else
        var s' := Write(s, p.token, Wrote(id, Background, p.seen, p.prior, marker));
        var after := if d.LostBefore? then s else s';
        var next := if p.job.LargePut? && (d != Heard || s'.cell == s.cell)
                    then Sweep(p.token, p.seen, p.prior) else Ended;
        Set(after, id, next)
  }

  /** A version-guarded removal. The sweep needs a prior; a heal removes a marker whose
      object is gone. */
  function DoRemoveGuarded(s: State, id: Id, d: Delivery): State {
    if id !in s.processes then s else
      var p := s.processes[id];
      var removes := match p
        case Watch(job, _, _, _) => job.Repair? || job.Converge? || job.Healing?
        case Sweep(_, _, prior) => prior.Some?
        case _ => false;
      if !removes then s else
        var s' := Remove(s, p.token, Removed(id, Background, p.seen, p.prior));
        // A lost reply may be retried, so only an answer ends the process.
        match d
        case LostBefore => s
        case LostAfter => s'
        case Heard => Set(s', id, Ended)
  }

  function DoBeginDelete(s: State, id: Id): State {
    if id in s.processes then s else Set(s, id, Deleting(0))
  }

  /** One attempt of the unconditional fenced delete. */
  function DoTryDelete(s: State, id: Id): State {
    if id !in s.processes || !s.processes[id].Deleting? then s else
      var e := s.processes[id].expected;
      match DeleteIfVersion(s.cell, e)
      case (_, Mismatch(current)) => Set(s, id, Deleting(current))
      case (_, Applied) => Set(Remove(s, e, Removed(id, Unguarded, |s.history|, s.cell.row)), id, Ended)
  }

  function Do(s: State, step: Step): State {
    match step
    case BeginPut(id, cond) => DoBeginPut(s, id, cond)
    case JudgePut(id) => DoJudgePut(s, id)
    case MintRef(id) => DoMintRef(s, id)
    case StageBody(id, data, complete, declared, etag) => DoStageBody(s, id, data, complete, declared, etag)
    case CommitPut(id, d) => DoCommitPut(s, id, d)
    case RefreshToken(id) => DoRefreshToken(s, id)
    case GiveUp(id) => DoGiveUp(s, id)
    case ReclaimBody(id, deleted) => DoReclaimBody(s, id, deleted)
    case Snapshot(id, job) => DoSnapshot(s, id, job)
    case VerifyMarker(id) => DoVerifyMarker(s, id)
    case CommitHeal(id, d) => DoCommitHeal(s, id, d)
    case SwapMarker(id, marker, d) => DoSwapMarker(s, id, marker, d)
    case RemoveGuarded(id, d) => DoRemoveGuarded(s, id, d)
    case BeginDelete(id) => DoBeginDelete(s, id)
    case TryDelete(id) => DoTryDelete(s, id)
    case Expire => Remove(s, s.cell.version, Removed(0, Unguarded, |s.history|, s.cell.row))
    case Evict(ref) => s.(bodies := s.bodies - {ref}, history := s.history + [Evicted(ref)])
  }

  const START := State(Cell(1, None), map[], [], map[], [])

  function Run(steps: seq<Step>): State
  {
    if steps == [] then START else Do(Run(steps[..|steps| - 1]), steps[|steps| - 1])
  }

  // ---- What every reachable state satisfies -------------------------------------------

  /** A token, the history length at its read, and the row that read returned. */
  ghost predicate Read(s: State, token: nat, seen: nat, prior: Option<Meta>) {
    && 0 < token <= s.cell.version
    && seen <= |s.history|
    && prior == RowAt(s.history[..seen])
    && (token == s.cell.version ==> Quiet(s.history, seen, |s.history|))
  }

  ghost predicate Owns(s: State, id: Id, ref: Ref) {
    ref < |s.owners| && s.owners[ref] == id
  }

  /** The body is there in full, unless it was evicted. */
  ghost predicate Whole(s: State, b: Body) {
    Gone(s.history, b.ref) || (b.ref in s.bodies && |s.bodies[b.ref]| == b.length)
  }

  /** The precondition held; a row taken for nonexistent had really lost its body. */
  ghost predicate Judged(h: History, cond: Cond, existed: bool, prior: Option<Meta>) {
    && (existed ==> prior.Some?)
    && Judge(cond, prior, existed) == Proceed
    && (cond.Conditional() && !existed && prior.Some? ==>
          prior.value.Local? && prior.value.body.length > 0 && Gone(h, prior.value.body.ref))
  }

  ghost predicate ProcessOk(s: State, id: Id, p: Process) {
    match p
    case Evaluate(_, token, seen, prior, since) => Read(s, token, seen, prior) && since <= seen
    case Ready(cond, existed, token, seen, prior, since) =>
      Read(s, token, seen, prior) && since <= seen && Judged(s.history, cond, existed, prior)
    case Stage(cond, existed, token, seen, prior, since, ref) =>
      Read(s, token, seen, prior) && since <= seen && Judged(s.history, cond, existed, prior) && Owns(s, id, ref)
    case Commit(cond, existed, token, seen, prior, since, body, tries) =>
      && Read(s, token, seen, prior) && since <= seen && Judged(s.history, cond, existed, prior)
      && Owns(s, id, body.ref) && Whole(s, body) && tries <= MAX_RETRIES
    case Refresh(cond, since, body, tries) =>
      && since <= |s.history| && !cond.Conditional() && 0 < tries <= MAX_RETRIES
      && Owns(s, id, body.ref) && Whole(s, body)
    case Stored(body, at, since) =>
      && since <= at < |s.history|
      && s.history[at].Wrote? && s.history[at].who == id && s.history[at].meta == Local(body)
    case Ambiguous(ref) => Owns(s, id, ref)
    case Reclaim(ref) => Owns(s, id, ref)
    case Watch(job, token, seen, prior) => Read(s, token, seen, prior) && Wanted(job, prior)
    case Sweep(token, seen, prior) => Read(s, token, seen, prior)
    case HealStage(token, seen, prior, ref) => Read(s, token, seen, prior) && Owns(s, id, ref)
    case HealCommit(token, seen, prior, body) =>
      && Read(s, token, seen, prior) && Owns(s, id, body.ref) && Whole(s, body)
      && prior == Some(Marker(body.etag, body.length))
    case Deleting(_) => true
    case Ended => true
  }

  predicate Keeps(p: Process) {
    p.Stored? || p.Ambiguous?
  }

  ghost predicate EventOk(s: State, i: nat)
    requires i < |s.history|
  {
    match s.history[i]
    case Wrote(who, role, seen, prior, meta) =>
      && seen <= i && Quiet(s.history, seen, i)
      && prior == RowAt(s.history[..seen])
      && (meta.Local? ==>
            && Owns(s, who, meta.body.ref) && Whole(s, meta.body)
            && who in s.processes && Keeps(s.processes[who]))
      && (role.Put? ==> Judged(s.history[..i], role.cond, role.existed, prior))
      && (role.Background? && meta.Local? ==> prior == Some(Marker(meta.body.etag, meta.body.length)))
    case Removed(_, role, seen, prior) =>
      seen <= i && Quiet(s.history, seen, i) && prior == RowAt(s.history[..seen])
    case Evicted(_) => true
  }

  ghost predicate Inv(s: State) {
    && ValidCell(s.cell)
    && s.cell.row == RowAt(s.history)
    && (forall r | 0 <= r < |s.owners| :: s.owners[r] in s.processes)
    && (forall id | id in s.processes :: ProcessOk(s, id, s.processes[id]))
    && (forall i | 0 <= i < |s.history| :: EventOk(s, i))
  }

  lemma QuietKeepsRow(h: History, lo: nat, hi: nat)
    requires lo <= hi <= |h| && Quiet(h, lo, hi)
    ensures RowAt(h[..hi]) == RowAt(h[..lo])
  {
    if lo < hi {
      QuietKeepsRow(h, lo, hi - 1);
      assert h[..hi][..hi - 1] == h[..hi - 1];
    }
  }

  /** One step later: history, owners and versions only grow, and while the version
      stands still so does the row. */
  ghost predicate Later(s: State, s': State) {
    && s.history <= s'.history && s.owners <= s'.owners
    && s.cell.version <= s'.cell.version
    && (s.cell.version == s'.cell.version ==> Quiet(s'.history, |s.history|, |s'.history|))
  }

  ghost predicate BodyKept(s: State, s': State, ref: Ref) {
    Gone(s'.history, ref) || (ref in s.bodies ==> ref in s'.bodies && s'.bodies[ref] == s.bodies[ref])
  }

  lemma ReadStable(s: State, s': State, token: nat, seen: nat, prior: Option<Meta>)
    requires Later(s, s') && Read(s, token, seen, prior)
    ensures Read(s', token, seen, prior)
  {
    assert s'.history[..seen] == s.history[..seen];
  }

  lemma ProcessStable(s: State, s': State, id: Id, p: Process)
    requires Later(s, s') && ProcessOk(s, id, p)
    requires forall r | Owns(s, id, r) :: BodyKept(s, s', r)
    ensures ProcessOk(s', id, p)
  {
    if p.Evaluate? || p.Ready? || p.Stage? || p.Commit? || p.Watch? || p.Sweep? || p.HealStage? || p.HealCommit? {
      ReadStable(s, s', p.token, p.seen, p.prior);
    }
  }

  lemma EventStable(s: State, s': State, i: nat)
    requires Later(s, s') && i < |s.history| && EventOk(s, i)
    requires forall id | id in s.processes && Keeps(s.processes[id]) ::
               id in s'.processes && Keeps(s'.processes[id]) && (forall r | Owns(s, id, r) :: BodyKept(s, s', r))
    ensures EventOk(s', i)
  {
    assert s'.history[i] == s.history[i] && s'.history[..i] == s.history[..i];
    var e := s.history[i];
    if !e.Evicted? {
      assert s'.history[..e.seen] == s.history[..e.seen];
    }
  }

  /** A step of one process: what has to be shown of it. */
  lemma StepOf(s: State, s': State, id: Id)
    requires Inv(s) && Later(s, s') && ValidCell(s'.cell) && s'.cell.row == RowAt(s'.history)
    requires id in s'.processes && ProcessOk(s', id, s'.processes[id])
    requires s'.processes == s.processes[id := s'.processes[id]]
    requires id in s.processes && Keeps(s.processes[id]) ==> Keeps(s'.processes[id])
    requires forall r | |s.owners| <= r < |s'.owners| :: s'.owners[r] == id
    requires forall x, r | x != id && Owns(s, x, r) :: BodyKept(s, s', r)
    requires id in s.processes && Keeps(s.processes[id]) ==> forall r | Owns(s, id, r) :: BodyKept(s, s', r)
    requires forall i | |s.history| <= i < |s'.history| :: EventOk(s', i)
    ensures Inv(s')
  {
    forall x | x in s'.processes ensures ProcessOk(s', x, s'.processes[x]) {
      if x != id {
        ProcessStable(s, s', x, s.processes[x]);
      }
    }
    forall i | 0 <= i < |s'.history| ensures EventOk(s', i) {
      if i < |s.history| {
        EventStable(s, s', i);
      }
    }
  }

  lemma OkOf(s: State, id: Id)
    requires Inv(s) && id in s.processes
    ensures ProcessOk(s, id, s.processes[id])
  {
  }

  /** A step that moves only its own process. */
  lemma ProcessMoves(s: State, id: Id, p: Process)
    requires Inv(s) && ProcessOk(s, id, p)
    requires id in s.processes && Keeps(s.processes[id]) ==> Keeps(p)
    ensures Inv(Set(s, id, p))
  {
    StepOf(s, Set(s, id, p), id);
  }

  /** The state right after a row change recorded by e: the row and the entry agree. */
  lemma Recorded(s: State, s': State, e: Event)
    requires Inv(s) && !e.Evicted? && s'.history == s.history + [e]
    requires e.seen <= |s.history| && Quiet(s.history, e.seen, |s.history|) && e.prior == RowAt(s.history[..e.seen])
    ensures RowAt(s'.history) == if e.Wrote? then Some(e.meta) else None
    ensures s'.history[|s.history|] == e && s'.history[..|s.history|] == s.history
    ensures Quiet(s'.history, e.seen, |s.history|)
    ensures e.prior == RowAt(s'.history[..e.seen])
  {
    assert s'.history[..e.seen] == s.history[..e.seen];
  }

  lemma BeginPutKeeps(s: State, id: Id, cond: Cond)
    requires Inv(s)
    ensures Inv(DoBeginPut(s, id, cond))
  {
    if id !in s.processes {
      assert s.history[..|s.history|] == s.history;
      ProcessMoves(s, id, Evaluate(cond, s.cell.version, |s.history|, s.cell.row, |s.history|));
    }
  }

  lemma JudgePutKeeps(s: State, id: Id)
    requires Inv(s)
    ensures Inv(DoJudgePut(s, id))
  {
    var s' := DoJudgePut(s, id);
    if s' != s {
      var p := s.processes[id];
      assert ProcessOk(s, id, p);
      if p.prior.Some? && p.prior.value.Local? {
        SnapshotBody(s, p.seen, p.prior.value.body);
      }
      hide Inv;
      ProcessMoves(s, id, s'.processes[id]);
    }
  }

  lemma MintRefKeeps(s: State, id: Id)
    requires Inv(s)
    ensures Inv(DoMintRef(s, id))
  {
    var s' := DoMintRef(s, id);
    if s' != s {
      var p := s.processes[id];
      assert ProcessOk(s, id, p);
      ReadStable(s, s', p.token, p.seen, p.prior);
      StepOf(s, s', id);
    }
  }

  lemma StageBodyKeeps(s: State, id: Id, data: Bytes, complete: bool, declared: nat, etag: ETag)
    requires Inv(s)
    ensures Inv(DoStageBody(s, id, data, complete, declared, etag))
  {
    var s' := DoStageBody(s, id, data, complete, declared, etag);
    if s' != s {
      var p := s.processes[id];
      assert ProcessOk(s, id, p);
      ReadStable(s, s', p.token, p.seen, p.prior);
      StepOf(s, s', id);
    }
  }

  lemma RefreshTokenKeeps(s: State, id: Id)
    requires Inv(s)
    ensures Inv(DoRefreshToken(s, id))
  {
    var s' := DoRefreshToken(s, id);
    if s' != s {
      assert s.history[..|s.history|] == s.history;
      OkOf(s, id);
      ProcessMoves(s, id, s'.processes[id]);
    }
  }

  /** A row that was ever visible has its body, unless that was evicted. */
  lemma SnapshotBody(s: State, seen: nat, b: Body)
    requires Inv(s) && seen <= |s.history| && RowAt(s.history[..seen]) == Some(Local(b))
    ensures Whole(s, b)
  {
    if seen > 0 {
      assert s.history[..seen][..seen - 1] == s.history[..seen - 1];
      if s.history[seen - 1].Evicted? {
        SnapshotBody(s, seen - 1, b);
      } else {
        assert EventOk(s, seen - 1);
      }
    }
  }

  /** A commit that lands, whoever makes it: the row replaced is the row its token named. */
  lemma WriteKeeps(s: State, token: nat, e: Event, id: Id, p: Process)
    requires Inv(s) && e.Wrote? && e.who == id && Accepts(s.cell, token)
    requires Read(s, token, e.seen, e.prior)
    requires id in s.processes && !Keeps(s.processes[id])
    requires e.meta.Local? ==> Owns(s, id, e.meta.body.ref) && Whole(s, e.meta.body) && Keeps(p)
    requires e.role.Put? ==> Judged(s.history, e.role.cond, e.role.existed, e.prior)
    requires e.role.Background? && e.meta.Local? ==> e.prior == Some(Marker(e.meta.body.etag, e.meta.body.length))
    requires ProcessOk(Set(Write(s, token, e), id, p), id, p)
    ensures Inv(Set(Write(s, token, e), id, p))
  {
    var s' := Set(Write(s, token, e), id, p);
    Recorded(s, s', e);
    StepOf(s, s', id);
  }

  lemma CommitPutKeeps(s: State, id: Id, d: Delivery)
    requires Inv(s)
    ensures Inv(DoCommitPut(s, id, d))
  {
    hide Inv, EventOk;
    var s' := DoCommitPut(s, id, d);
    if s' != s {
      var p := s.processes[id];
      OkOf(s, id);
      var e := Wrote(id, Put(p.cond, p.existed), p.seen, p.prior, Local(p.body));
      if Accepts(s.cell, p.token) && !d.LostBefore? {
        WriteKeeps(s, p.token, e, id, s'.processes[id]);
      } else {
        ProcessMoves(s, id, s'.processes[id]);
      }
    }
  }

  lemma CommitHealKeeps(s: State, id: Id, d: Delivery)
    requires Inv(s)
    ensures Inv(DoCommitHeal(s, id, d))
  {
    hide Inv, EventOk;
    var s' := DoCommitHeal(s, id, d);
    if s' != s {
      var p := s.processes[id];
      OkOf(s, id);
      var e := Wrote(id, Background, p.seen, p.prior, Local(p.body));
      if Accepts(s.cell, p.token) && !d.LostBefore? {
        WriteKeeps(s, p.token, e, id, s'.processes[id]);
      } else {
        ProcessMoves(s, id, s'.processes[id]);
      }
    }
  }

  lemma SnapshotKeeps(s: State, id: Id, job: Job)
    requires Inv(s)
    ensures Inv(DoSnapshot(s, id, job))
  {
    var s' := DoSnapshot(s, id, job);
    if s' != s {
      assert s.history[..|s.history|] == s.history;
      ProcessMoves(s, id, s'.processes[id]);
    }
  }

  lemma VerifyMarkerKeeps(s: State, id: Id)
    requires Inv(s)
    ensures Inv(DoVerifyMarker(s, id))
  {
    hide Inv;
    var s' := DoVerifyMarker(s, id);
    if s' != s {
      OkOf(s, id);
      ProcessMoves(s, id, s'.processes[id]);
    }
  }

  lemma SwapMarkerKeeps(s: State, id: Id, marker: Meta, d: Delivery)
    requires Inv(s)
    ensures Inv(DoSwapMarker(s, id, marker, d))
  {
    var s' := DoSwapMarker(s, id, marker, d);
    if s' != s {
      var p := s.processes[id];
      assert ProcessOk(s, id, p);
      var e := Wrote(id, Background, p.seen, p.prior, marker);
      if Accepts(s.cell, p.token) && !d.LostBefore? {
        Recorded(s, s', e);
        ReadStable(s, s', p.token, p.seen, p.prior);
        WriteKeeps(s, p.token, e, id, s'.processes[id]);
      } else {
        StepOf(s, s', id);
      }
    }
  }

  lemma RemoveGuardedKeeps(s: State, id: Id, d: Delivery)
    requires Inv(s)
    ensures Inv(DoRemoveGuarded(s, id, d))
  {
    var s' := DoRemoveGuarded(s, id, d);
    if s' != s {
      var p := s.processes[id];
      assert ProcessOk(s, id, p);
      if s'.history != s.history {
        Recorded(s, s', Removed(id, Background, p.seen, p.prior));
      }
      ReadStable(s, s', p.token, p.seen, p.prior);
      StepOf(s, s', id);
    }
  }

  lemma GiveUpKeeps(s: State, id: Id)
    requires Inv(s)
    ensures Inv(DoGiveUp(s, id))
  {
    hide Inv;
    var s' := DoGiveUp(s, id);
    if s' != s {
      OkOf(s, id);
      GivenUp(s, id);
      hide DoGiveUp, ProcessOk;
      ProcessMoves(s, id, s'.processes[id]);
    }
  }

  /** Giving up leads nowhere but to the end, or to reclaiming the process's own body. */
  lemma GivenUp(s: State, id: Id)
    requires id in s.processes && ProcessOk(s, id, s.processes[id]) && DoGiveUp(s, id) != s
    ensures var s' := DoGiveUp(s, id);
            && id in s'.processes && s' == Set(s, id, s'.processes[id])
            && ProcessOk(s, id, s'.processes[id]) && !Keeps(s.processes[id])
  {
  }

  lemma ReclaimBodyKeeps(s: State, id: Id, deleted: bool)
    requires Inv(s)
    ensures Inv(DoReclaimBody(s, id, deleted))
  {
    var s' := DoReclaimBody(s, id, deleted);
    if s' != s {
      assert ProcessOk(s, id, s.processes[id]);
      StepOf(s, s', id);
    }
  }

  lemma DeleteKeeps(s: State, id: Id)
    requires Inv(s)
    ensures Inv(DoBeginDelete(s, id)) && Inv(DoTryDelete(s, id))
  {
    if id !in s.processes {
      ProcessMoves(s, id, Deleting(0));
    }
    var s' := DoTryDelete(s, id);
    if s' != s {
      assert s.history[..|s.history|] == s.history;
      if s'.history != s.history {
        Recorded(s, s', Removed(id, Unguarded, |s.history|, s.cell.row));
      }
      StepOf(s, s', id);
    }
  }

  lemma ExpireKeeps(s: State)
    requires Inv(s)
    ensures Inv(Do(s, Expire))
  {
    var s' := Do(s, Expire);
    assert s.history[..|s.history|] == s.history;
    Recorded(s, s', s'.history[|s.history|]);
    EnvironmentKeeps(s, s');
  }

  lemma EvictKeeps(s: State, ref: Ref)
    requires Inv(s)
    ensures Inv(Do(s, Evict(ref)))
  {
    var s' := Do(s, Evict(ref));
    assert s'.history[..|s'.history| - 1] == s.history;
    assert s'.history[|s.history|] == Evicted(ref);
    EnvironmentKeeps(s, s');
  }

  /** A step of the cache itself: no process moves. */
  lemma EnvironmentKeeps(s: State, s': State)
    requires Inv(s) && Later(s, s') && ValidCell(s'.cell) && s'.cell.row == RowAt(s'.history)
    requires s'.processes == s.processes && s'.owners == s.owners && forall r :: BodyKept(s, s', r)
    requires forall i | |s.history| <= i < |s'.history| :: EventOk(s', i)
    ensures Inv(s')
  {
    forall x | x in s'.processes ensures ProcessOk(s', x, s'.processes[x]) {
      ProcessStable(s, s', x, s.processes[x]);
    }
    forall i | 0 <= i < |s'.history| ensures EventOk(s', i) {
      if i < |s.history| {
        EventStable(s, s', i);
      }
    }
  }

  lemma StepKeepsInv(s: State, step: Step)
    requires Inv(s)
    ensures Inv(Do(s, step))
  {
    hide Inv, DoBeginPut, DoJudgePut, DoMintRef, DoStageBody, DoCommitPut, DoRefreshToken, DoSnapshot,
      DoVerifyMarker, DoCommitHeal, DoSwapMarker, DoRemoveGuarded, DoGiveUp, DoReclaimBody, DoBeginDelete, DoTryDelete;
    match step
    case BeginPut(id, cond) => BeginPutKeeps(s, id, cond);
    case JudgePut(id) => JudgePutKeeps(s, id);
    case MintRef(id) => MintRefKeeps(s, id);
    case StageBody(id, data, complete, declared, etag) => StageBodyKeeps(s, id, data, complete, declared, etag);
    case CommitPut(id, d) => CommitPutKeeps(s, id, d);
    case RefreshToken(id) => RefreshTokenKeeps(s, id);
    case Snapshot(id, job) => SnapshotKeeps(s, id, job);
    case VerifyMarker(id) => VerifyMarkerKeeps(s, id);
    case CommitHeal(id, d) => CommitHealKeeps(s, id, d);
    case SwapMarker(id, marker, d) => SwapMarkerKeeps(s, id, marker, d);
    case RemoveGuarded(id, d) => RemoveGuardedKeeps(s, id, d);
    case GiveUp(id) => GiveUpKeeps(s, id);
    case ReclaimBody(id, deleted) => ReclaimBodyKeeps(s, id, deleted);
    case BeginDelete(id) => DeleteKeeps(s, id);
    case TryDelete(id) => DeleteKeeps(s, id);
    case Expire => ExpireKeeps(s);
    case Evict(ref) => EvictKeeps(s, ref);
  }

  lemma {:induction false} RunKeepsInv(steps: seq<Step>)
    ensures Inv(Run(steps))
  {
    if steps != [] {
      RunKeepsInv(steps[..|steps| - 1]);
      StepKeepsInv(Run(steps[..|steps| - 1]), steps[|steps| - 1]);
    }
  }

  // ---- The promises -------------------------------------------------------------------

  /** No dangling body: whatever row is visible, its body is present in exactly the length
      the row advertises, unless an eviction took it. Holds through lost replies, aborted
      uploads and the reclaiming of staged bodies. */
  lemma NoDanglingBody(steps: seq<Step>)
    ensures var s := Run(steps);
            s.cell.row.Some? && s.cell.row.value.Local? ==> Whole(s, s.cell.row.value.body)
  {
    RunKeepsInv(steps);
    var s := Run(steps);
    if s.cell.row.Some? && s.cell.row.value.Local? {
      assert s.history[..|s.history|] == s.history;
      SnapshotBody(s, |s.history|, s.cell.row.value.body);
    }
  }

  lemma WriteRecords(s: State, expected: nat, e: Event)
    ensures e.Wrote? ==> Write(s, expected, e).history == s.history || Write(s, expected, e).history == s.history + [e]
    ensures e.Removed? ==> Remove(s, expected, e).history == s.history || Remove(s, expected, e).history == s.history + [e]
  {
  }

  /** Every other step records a write, a removal, or nothing. */
  lemma HistoryGrows(s: State, step: Step)
    requires !step.Evict?
    ensures var h, h' := s.history, Do(s, step).history;
            h' == h || (|h'| == |h| + 1 && h'[..|h|] == h && !h'[|h|].Evicted?)
  {
    hide Judge, Servable, Wanted, Write, Remove;
    match step
    case CommitPut(id, _) =>
      if id in s.processes && s.processes[id].Commit? {
        var p := s.processes[id];
        WriteRecords(s, p.token, Wrote(id, Put(p.cond, p.existed), p.seen, p.prior, Local(p.body)));
      }
    case CommitHeal(id, _) =>
      if id in s.processes && s.processes[id].HealCommit? {
        var p := s.processes[id];
        WriteRecords(s, p.token, Wrote(id, Background, p.seen, p.prior, Local(p.body)));
      }
    case SwapMarker(id, marker, _) =>
      if id in s.processes && s.processes[id].Watch? {
        var p := s.processes[id];
        WriteRecords(s, p.token, Wrote(id, Background, p.seen, p.prior, marker));
      }
    case RemoveGuarded(id, _) =>
      if id in s.processes && (s.processes[id].Watch? || s.processes[id].Sweep?) {
        var p := s.processes[id];
        WriteRecords(s, p.token, Removed(id, Background, p.seen, p.prior));
      }
    case TryDelete(id) =>
      if id in s.processes && s.processes[id].Deleting? {
        WriteRecords(s, s.processes[id].expected, Removed(id, Unguarded, |s.history|, s.cell.row));
      }
    case Expire => WriteRecords(s, s.cell.version, Removed(0, Unguarded, |s.history|, s.cell.row));
    case _ =>
  }

  lemma OnlyEvictionEvicts(s: State, step: Step, ref: Ref)
    requires step != Evict(ref)
    ensures Gone(Do(s, step).history, ref) ==> Gone(s.history, ref)
  {
    var h, h' := s.history, Do(s, step).history;
    if step.Evict? {
      assert h' == h + [Evicted(step.ref)];
    } else {
      HistoryGrows(s, step);
    }
  }

  lemma {:induction false} NothingGoneWithoutEviction(steps: seq<Step>, ref: Ref)
    requires Evict(ref) !in steps
    ensures !Gone(Run(steps).history, ref)
  {
    if steps != [] {
      var step := steps[|steps| - 1];
      NothingGoneWithoutEviction(steps[..|steps| - 1], ref);
      OnlyEvictionEvicts(Run(steps[..|steps| - 1]), step, ref);
    }
  }

  lemma NoDanglingBodyWithoutEviction(steps: seq<Step>, b: Body)
    requires Run(steps).cell.row == Some(Local(b)) && Evict(b.ref) !in steps
    ensures b.ref in Run(steps).bodies && |Run(steps).bodies[b.ref]| == b.length
  {
    NoDanglingBody(steps);
    NothingGoneWithoutEviction(steps, b.ref);
  }

  /** Every committed PUT replaced exactly the row it decided on: nothing changed the row
      between its read and its commit, and a conditional PUT's precondition was true of
      the row at the instant it was replaced (sections 3.1 and 3.2 of RFC 7232). A row it
      took for nonexistent had lost its body. */
  lemma NoLostUpdate(steps: seq<Step>, i: nat)
    requires i < |Run(steps).history| && Run(steps).history[i].Wrote? && Run(steps).history[i].role.Put?
    ensures var h := Run(steps).history;
            var Put(cond, existed) := h[i].role;
            && h[i].seen <= i && Quiet(h, h[i].seen, i)
            && Judged(h[..i], cond, existed, RowAt(h[..i]))
  {
    RunKeepsInv(steps);
    var h := Run(steps).history;
    assert EventOk(Run(steps), i);
    QuietKeepsRow(h, h[i].seen, i);
  }

  lemma LiveUntilRemoved(h: History, i: nat, j: nat) returns (m: nat)
    requires i < j <= |h| && h[i].Wrote?
    requires forall k | i < k < j :: !h[k].Removed?
    ensures i <= m < j && h[m].Wrote? && RowAt(h[..j]) == Some(h[m].meta)
  {
    assert h[..j][..j - 1] == h[..j - 1];
    if h[j - 1].Wrote? {
      m := j - 1;
    } else {
      m := LiveUntilRemoved(h, i, j - 1);
    }
  }

  ghost predicate CreateOnly(e: Event) {
    e.Wrote? && e.role.Put? && e.role.cond.ifNoneMatch == Some(Star)
  }

  /** Of any two successful `If-None-Match: *` PUTs, the second one needed a removal in
      between, or a row committed since the first that lost its body to an eviction. */
  lemma AtMostOneCreate(steps: seq<Step>, i: nat, j: nat)
    requires i < j < |Run(steps).history|
    requires CreateOnly(Run(steps).history[i]) && CreateOnly(Run(steps).history[j])
    ensures var h := Run(steps).history;
            || (exists k | i < k < j :: h[k].Removed?)
            || (exists m | i <= m < j :: h[m].Wrote? && h[m].meta.Local? && Gone(h[..j], h[m].meta.body.ref))
  {
    var h := Run(steps).history;
    if forall k | i < k < j :: !h[k].Removed? {
      NoLostUpdate(steps, j);
      var m := LiveUntilRemoved(h, i, j);
    }
  }

  /** A PUT that answered 200 was the live row at an instant within the request. */
  lemma SuccessWasVisible(steps: seq<Step>, id: Id)
    requires id in Run(steps).processes && Run(steps).processes[id].Stored?
    ensures var s := Run(steps);
            var Stored(body, at, since) := s.processes[id];
            && since <= at < |s.history|
            && RowAt(s.history[..at + 1]) == Some(Local(body))
  {
    hide Run, Inv;
    RunKeepsInv(steps);
    var s := Run(steps);
    OkOf(s, id);
    var at := s.processes[id].at;
    assert s.history[..at + 1][at] == s.history[at];
  }

  /** Background work never replaces or removes a row committed after its own snapshot,
      and a re-tier only ever turns a marker into a local body of the same identity. */
  lemma BackgroundNeverReplacesNewer(steps: seq<Step>, i: nat)
    requires i < |Run(steps).history| && !Run(steps).history[i].Evicted?
    requires Run(steps).history[i].role.Background?
    ensures var h := Run(steps).history;
            && h[i].seen <= i && Quiet(h, h[i].seen, i)
            && RowAt(h[..i]) == RowAt(h[..h[i].seen]) == h[i].prior
            && (h[i].Wrote? && h[i].meta.Local? ==>
                  h[i].prior == Some(Marker(h[i].meta.body.etag, h[i].meta.body.length)))
  {
    RunKeepsInv(steps);
    assert EventOk(Run(steps), i);
    QuietKeepsRow(Run(steps).history, Run(steps).history[i].seen, i);
  }
}
