/** Proxy mode: populates race client writes on one object. Every handler is a process
    that takes one store call or one upstream call at a time, and a run is any
    interleaving of those steps. */
module ReadAfterWrite {
  import opened Options
  import opened MetaStore

  type ETag = nat
  type Id = nat

  /** A visible cache entry: its content, and the upstream epoch it was fetched from. */
  datatype Entry = Entry(etag: ETag, asOf: nat)

  /** A populate, from its decision-time token to its commit. teed is the ETag of a
      write-through body, which only a HEAD reporting that same ETag may publish.
      A promotion rewrites the entry it re-reads, under an earlier token. */
  datatype Populate =
    | Decided(token: nat, teed: Option<ETag>)
    | Fetched(token: nat, entry: Entry)
    | Promoting(token: nat)
    | Reread(token: nat, entry: Entry)
    | Finished

  /** A PUT or DELETE handler: invalidate, forward, and after a 2xx invalidate again.
      expected is the state of the fenced-delete loop. */
  datatype Writer =
    | Before(expected: nat)
    | Forwarding
    | Confirmed(epoch: nat, expected: nat)
    | Settled(epoch: nat, fence: nat)
    | Rejected

  /** upstream[i] is the object after i mutations; None means it does not exist. */
  datatype State = State(
    cell: Cell<Entry>,
    upstream: seq<Option<ETag>>,
    populates: map<Id, Populate>,
    writers: map<Id, Writer>)

  datatype Step =
    | Decide(p: Id, teed: Option<ETag>)
    | Fetch(p: Id)
    | Publish(p: Id)
    | DecidePromotion(p: Id, etag: ETag)
    | RereadForPromotion(p: Id, etag: ETag)
    | Abandon(p: Id)
    | LateToken(p: Id)
    | BeginWrite(w: Id)
    | InvalidateBefore(w: Id)
    | StopInvalidating(w: Id)
    | Mutate(w: Id, result: Option<ETag>)
    | Refuse(w: Id)
    | InvalidateAfter(w: Id)
    | GuardedDelete(expected: nat)

  function Current(s: State): Option<ETag>
    requires |s.upstream| > 0
  {
    s.upstream[|s.upstream| - 1]
  }

  function SetPopulate(s: State, p: Id, v: Populate): State {
    s.(populates := s.populates[p := v])
  }

  function SetWriter(s: State, w: Id, v: Writer): State {
    s.(writers := s.writers[w := v])
  }

  /** One attempt of the fenced-delete loop: stop on success, else chase the version. */
  function TryFence(c: Cell<Entry>, expected: nat): (Cell<Entry>, Option<nat>) {
    match DeleteIfVersion(c, expected)
    case (c', Applied) => (c', None)
    case (c', Mismatch(current)) => (c', Some(current))
  }

  /** The effect of a step; a step that is not enabled changes nothing. */
  function Do(s: State, step: Step): State
    requires |s.upstream| > 0
  {
    match step
    // A populate reads its token before it talks to upstream.
    case Decide(p, teed) =>
      if p in s.populates then s else SetPopulate(s, p, Decided(s.cell.version, teed))
    case Fetch(p) =>
      if p in s.populates && s.populates[p].Decided? && Current(s).Some?
         && (s.populates[p].teed.Some? ==> s.populates[p].teed == Current(s)) then
        SetPopulate(s, p, Fetched(s.populates[p].token, Entry(Current(s).value, |s.upstream| - 1)))
      else s
    case Publish(p) =>
      if p in s.populates && (s.populates[p].Fetched? || s.populates[p].Reread?) then
        SetPopulate(s, p, Finished).(
          cell := PutIfVersion(s.cell, s.populates[p].token, s.populates[p].entry).0)
      else s
    case DecidePromotion(p, etag) =>
      if p !in s.populates && s.cell.row.Some? && s.cell.row.value.etag == etag then
        SetPopulate(s, p, Promoting(s.cell.version))
      else s
    case RereadForPromotion(p, etag) =>
      if p in s.populates && s.populates[p].Promoting?
         && s.cell.row.Some? && s.cell.row.value.etag == etag then
        SetPopulate(s, p, Reread(s.populates[p].token, s.cell.row.value))
      else s
    case Abandon(p) =>
      if p in s.populates then SetPopulate(s, p, Finished) else s
    // The order the token discipline forbids; only TokenAfterFetchBreaksIt uses it.
    case LateToken(p) =>
      if p in s.populates && s.populates[p].Fetched? then
        SetPopulate(s, p, Fetched(s.cell.version, s.populates[p].entry))
      else s
    // A write invalidates, forwards, and invalidates again once upstream confirmed it.
    case BeginWrite(w) =>
      if w in s.writers then s else SetWriter(s, w, Before(0))
    case InvalidateBefore(w) =>
      if w in s.writers && s.writers[w].Before? then
        var (cell, again) := TryFence(s.cell, s.writers[w].expected);
        SetWriter(s, w, if again.Some? then Before(again.value) else Forwarding).(cell := cell)
      else s
    case StopInvalidating(w) =>
      if w in s.writers && s.writers[w].Before? then SetWriter(s, w, Forwarding) else s
    case Mutate(w, result) =>
      if w in s.writers && s.writers[w].Forwarding? then
        SetWriter(s, w, Confirmed(|s.upstream|, 0)).(upstream := s.upstream + [result])
      else s
    case Refuse(w) =>
      if w in s.writers && s.writers[w].Forwarding? then SetWriter(s, w, Rejected) else s
    case InvalidateAfter(w) =>
      if w in s.writers && s.writers[w].Confirmed? then
        var (cell, again) := TryFence(s.cell, s.writers[w].expected);
        SetWriter(s, w,
          if again.Some? then Confirmed(s.writers[w].epoch, again.value)
          else Settled(s.writers[w].epoch, cell.version)).(cell := cell)
      else s
    // Stale-entry cleanup, expiry, or a delete whose reply was lost.
    case GuardedDelete(expected) =>
      s.(cell := DeleteIfVersion(s.cell, expected).0)
  }

  function Start(version: nat, initial: Option<ETag>): State {
    State(Cell(version, None), [initial], map[], map[])
  }

  /** A run is any finite sequence of steps. */
  function Run(s: State, steps: seq<Step>): (r: State)
    requires |s.upstream| > 0
    ensures |r.upstream| > 0
    decreases |steps|
  {
    if steps == [] then s else
      var r := Run(s, steps[..|steps| - 1]);
      DoGrows(r, steps[|steps| - 1]);
      Do(r, steps[|steps| - 1])
  }

  /** A handler that mutated upstream at this epoch and has not fenced it yet. */
  ghost predicate Unfenced(s: State, epoch: nat) {
    exists w | w in s.writers :: s.writers[w].Confirmed? && s.writers[w].epoch == epoch
  }

  ghost predicate Accounted(s: State, epoch: nat) {
    exists w | w in s.writers ::
      (s.writers[w].Confirmed? || s.writers[w].Settled?) && s.writers[w].epoch == epoch
  }

  /** Every populate read its token before its fetch. */
  ghost predicate TokensFirst(steps: seq<Step>) {
    forall step | step in steps :: !step.LateToken?
  }

  ghost predicate TrueEntry(s: State, e: Entry) {
    e.asOf < |s.upstream| && s.upstream[e.asOf] == Some(e.etag)
  }

  /** Every fence that came after the epoch this token's content was fetched from is
      newer than the token. */
  ghost predicate Ordered(s: State, token: nat, asOf: nat) {
    forall w | w in s.writers && s.writers[w].Settled? && asOf < s.writers[w].epoch ::
      token < s.writers[w].fence
  }

  ghost predicate PopulateOk(s: State, p: Populate) {
    match p
    case Decided(token, _) => 0 < token <= s.cell.version
    case Fetched(token, entry) =>
      0 < token <= s.cell.version && TrueEntry(s, entry) && Ordered(s, token, entry.asOf)
    case Promoting(token) => 0 < token <= s.cell.version
    case Reread(token, entry) =>
      0 < token <= s.cell.version && (token == s.cell.version ==> s.cell.row == Some(entry))
    case Finished => true
  }

  ghost predicate WriterOk(s: State, w: Writer) {
    match w
    case Confirmed(epoch, _) => 1 <= epoch < |s.upstream|
    case Settled(epoch, fence) =>
      && 1 <= epoch < |s.upstream|
      && fence <= s.cell.version
      && (s.cell.row.Some? ==> epoch <= s.cell.row.value.asOf)
    case _ => true
  }

  ghost predicate Inv(s: State) {
    && ValidCell(s.cell) && |s.upstream| > 0
    && (s.cell.row.Some? ==> TrueEntry(s, s.cell.row.value))
    && (forall p | p in s.populates :: PopulateOk(s, s.populates[p]))
    && (forall w | w in s.writers :: WriterOk(s, s.writers[w]))
    && (forall i | 1 <= i < |s.upstream| :: Accounted(s, i))
  }

  lemma DoGrows(s: State, step: Step)
    requires |s.upstream| > 0
    ensures s.upstream <= Do(s, step).upstream
    ensures s.cell.version <= Do(s, step).cell.version
  {
  }

  lemma StepKeepsAccounts(s: State, step: Step, i: nat)
    requires Inv(s) && 1 <= i < |Do(s, step).upstream|
    ensures Accounted(Do(s, step), i)
  {
    var s' := Do(s, step);
    if i < |s.upstream| {
      assert Accounted(s, i);
      var w :| w in s.writers && (s.writers[w].Confirmed? || s.writers[w].Settled?) && s.writers[w].epoch == i;
      assert w in s'.writers;
    } else {
      assert s'.writers[step.w].epoch == i;
    }
  }

  lemma StepKeepsRow(s: State, step: Step)
    requires Inv(s) && !step.LateToken?
    ensures var s' := Do(s, step);
            ValidCell(s'.cell) && |s'.upstream| > 0 && (s'.cell.row.Some? ==> TrueEntry(s', s'.cell.row.value))
  {
    if step.Publish? && step.p in s.populates { assert PopulateOk(s, s.populates[step.p]); }
  }

  lemma StepKeepsPopulate(s: State, step: Step, p: Id)
    requires Inv(s) && !step.LateToken? && p in Do(s, step).populates
    ensures PopulateOk(Do(s, step), Do(s, step).populates[p])
  {
    DoGrows(s, step);
    if p in s.populates { assert PopulateOk(s, s.populates[p]); }
  }

  lemma StepKeepsWriter(s: State, step: Step, w: Id)
    requires Inv(s) && !step.LateToken? && w in Do(s, step).writers
    ensures WriterOk(Do(s, step), Do(s, step).writers[w])
  {
    DoGrows(s, step);
    if w in s.writers { assert WriterOk(s, s.writers[w]); }
    if step.Publish? && step.p in s.populates { assert PopulateOk(s, s.populates[step.p]); }
  }

  lemma StepKeepsInv(s: State, step: Step)
    requires Inv(s) && !step.LateToken?
    ensures Inv(Do(s, step))
  {
    hide Do, PopulateOk, WriterOk, Accounted, TrueEntry;
    var s' := Do(s, step);
    StepKeepsRow(s, step);
    forall p | p in s'.populates ensures PopulateOk(s', s'.populates[p]) { StepKeepsPopulate(s, step, p); }
    forall w | w in s'.writers ensures WriterOk(s', s'.writers[w]) { StepKeepsWriter(s, step, w); }
    forall i | 1 <= i < |s'.upstream| ensures Accounted(s', i) { StepKeepsAccounts(s, step, i); }
  }

  lemma {:induction false} RunKeepsInv(s: State, steps: seq<Step>)
    requires Inv(s) && TokensFirst(steps)
    ensures Inv(Run(s, steps))
    decreases |steps|
  {
    if steps != [] {
      RunKeepsInv(s, steps[..|steps| - 1]);
      StepKeepsInv(Run(s, steps[..|steps| - 1]), steps[|steps| - 1]);
    }
  }

  lemma {:induction false} RunSplits(s: State, a: seq<Step>, b: seq<Step>)
    requires |s.upstream| > 0
    ensures Run(s, a + b) == Run(Run(s, a), b)
    decreases |b|
  {
    if b == [] {
      assert a + b == a;
    } else {
      RunSplits(s, a, b[..|b| - 1]);
      assert (a + b)[..|a + b| - 1] == a + b[..|b| - 1];
    }
  }

  /** A settled writer stays settled. */
  lemma {:induction false} SettledForGood(s: State, steps: seq<Step>, w: Id)
    requires |s.upstream| > 0 && w in s.writers && s.writers[w].Settled?
    ensures w in Run(s, steps).writers && Run(s, steps).writers[w] == s.writers[w]
    ensures s.upstream <= Run(s, steps).upstream
    decreases |steps|
  {
    if steps != [] {
      SettledForGood(s, steps[..|steps| - 1], w);
      DoGrows(Run(s, steps[..|steps| - 1]), steps[|steps| - 1]);
    }
  }

  /** In every reachable state the visible entry really was the upstream object, and if
      it is older than upstream then every mutation since it has been applied upstream
      without its handler having fenced the key yet. */
  lemma StaleOnlyWhileUnfenced(version: nat, initial: Option<ETag>, steps: seq<Step>)
    requires 0 < version && TokensFirst(steps)
    ensures var s := Run(Start(version, initial), steps);
            s.cell.row.Some? ==>
              && TrueEntry(s, s.cell.row.value)
              && forall i | s.cell.row.value.asOf < i < |s.upstream| :: Unfenced(s, i)
  {
    RunKeepsInv(Start(version, initial), steps);
    var s := Run(Start(version, initial), steps);
    if s.cell.row.Some? {
      forall i | s.cell.row.value.asOf < i < |s.upstream| ensures Unfenced(s, i) {
        assert Accounted(s, i);
        var w :| w in s.writers && (s.writers[w].Confirmed? || s.writers[w].Settled?) && s.writers[w].epoch == i;
        assert WriterOk(s, s.writers[w]);
      }
    }
  }

  /** Read-after-write: once a write's second invalidation has returned, nothing that
      happens later can make content from before that write visible again. */
  lemma ReadAfterWriteHolds(version: nat, initial: Option<ETag>, before: seq<Step>, after: seq<Step>, w: Id)
    requires 0 < version && TokensFirst(before + after)
    requires w in Run(Start(version, initial), before).writers
    requires Run(Start(version, initial), before).writers[w].Settled?
    ensures var epoch := Run(Start(version, initial), before).writers[w].epoch;
            var s := Run(Start(version, initial), before + after);
            s.cell.row.Some? ==> epoch <= s.cell.row.value.asOf && TrueEntry(s, s.cell.row.value)
  {
    var mid := Run(Start(version, initial), before);
    RunSplits(Start(version, initial), before, after);
    RunKeepsInv(Start(version, initial), before + after);
    SettledForGood(mid, after, w);
    assert WriterOk(Run(mid, after), mid.writers[w]);
  }

  lemma RunOfTwo(s: State, a: Step, b: Step)
    requires |s.upstream| > 0
    ensures |Do(s, a).upstream| > 0 && Run(s, [a, b]) == Do(Do(s, a), b)
  {
    DoGrows(s, a);
    assert [a, b][..1] == [a] && [a][..0] == [];
    assert Run(s, [a]) == Do(Run(s, []), a);
  }

  // The counterexample, two steps at a time: a populate fetches, a DELETE starts, the
  // DELETE settles, and the populate publishes under a token read only then.
  const FETCHED := State(Cell(1, None), [Some(7)], map[1 := Fetched(1, Entry(7, 0))], map[])
  const STARTED := FETCHED.(writers := map[2 := Forwarding])
  const SETTLED := STARTED.(cell := Cell(2, None), upstream := [Some(7), None], writers := map[2 := Settled(1, 2)])

  lemma PopulateFetches()
    ensures Run(Start(1, Some(7)), [Decide(1, None), Fetch(1)]) == FETCHED
  {
    RunOfTwo(Start(1, Some(7)), Decide(1, None), Fetch(1));
  }

  lemma DeleteStarts()
    ensures Run(FETCHED, [BeginWrite(2), StopInvalidating(2)]) == STARTED
  {
    RunOfTwo(FETCHED, BeginWrite(2), StopInvalidating(2));
  }

  lemma DeleteSettles()
    ensures Run(STARTED, [Mutate(2, None), InvalidateAfter(2)]) == SETTLED
  {
    RunOfTwo(STARTED, Mutate(2, None), InvalidateAfter(2));
  }

  lemma LatePublish()
    ensures Run(SETTLED, [LateToken(1), Publish(1)]).cell.row == Some(Entry(7, 0))
    ensures Run(SETTLED, [LateToken(1), Publish(1)]).writers == SETTLED.writers
  {
    RunOfTwo(SETTLED, LateToken(1), Publish(1));
  }

  /** What the token order buys: let one populate take its token after its fetch, and a
      run exists that shows the object from before a settled write (here, a delete). */
  lemma TokenAfterFetchBreaksIt()
    ensures exists steps: seq<Step> ::
              && LateToken(1) in steps
              && var s := Run(Start(1, Some(7)), steps);
                 && s.cell.row == Some(Entry(7, 0))
                 && 2 in s.writers && s.writers[2] == Settled(1, 2)
  {
    hide Run, Do;
    var s0 := Start(1, Some(7));
    var a, b := [Decide(1, None), Fetch(1)], [BeginWrite(2), StopInvalidating(2)];
    var c, d := [Mutate(2, None), InvalidateAfter(2)], [LateToken(1), Publish(1)];
    PopulateFetches();
    DeleteStarts();
    DeleteSettles();
    LatePublish();
    RunSplits(s0, a, b);
    RunSplits(s0, a + b, c);
    RunSplits(s0, a + b + c, d);
    assert (a + b + c + d)[6] == LateToken(1);
  }
}
