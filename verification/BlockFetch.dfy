/** Coalesced block fetches: one detached fetch per block key, shared by any number of callers, over
    a pooled buffer that goes back to the pool once the cache write and every caller are done with
    it. Each step is one critical section of the source. */
module BlockFetch {
  import opened Options

  type Key = string

  /** Where the detached fetch task stands. Staged and Writing name the buffer it holds. */
  datatype Phase = Begun | Fetching | Staged(buf: nat) | Writing(buf: nat) | Finishing | Unmapped | Done

  datatype Fetch = Fetch(key: Key, phase: Phase, published: Option<nat>, consumers: int)

  /** An assembling caller leases the published buffer; a plain one only waits for the write. */
  datatype Use = Waiting | Leased(buf: nat) | Released

  datatype Caller = Caller(fetch: nat, assembling: bool, use: Use)

  /** returned[b] counts how often staged buffer b went back to the pool; owner[b] is the fetch that
      took it out. */
  datatype State = State(inFlight: map<Key, nat>, fetches: seq<Fetch>, callers: seq<Caller>,
                         returned: seq<nat>, owner: seq<nat>, slots: int)

  datatype Step =
    | Begin(key: Key, assembling: bool)
    | Skip(f: nat)                    // refused task, block already present, or budget declined
    | Admit(f: nat)
    | Abort(f: nat)                   // upstream failed or did not match
    | Stage(f: nat)
    | ShortBody(f: nat)
    | LocalWriteEnds(f: nat, stored: bool)
    | PublishThenWrite(f: nat)
    | RemoteWriteEnds(f: nat)
    | Unmap(f: nat)
    | Finish(f: nat)
    | Wake(c: nat)
    | Release(c: nat)

  const START := State(map[], [], [], [], [], 0)

  function SetFetch(s: State, f: nat, fetch: Fetch): State
    requires f < |s.fetches|
  {
    s.(fetches := s.fetches[f := fetch])
  }

  /** Put a buffer back into the pool. */
  function Return(s: State, buf: Option<nat>): State {
    if buf.Some? && buf.value < |s.returned| then s.(returned := s.returned[buf.value := s.returned[buf.value] + 1]) else s
  }

  /** Drop a caller's consumer count; the last one after the write returned the buffer. */
  function DropConsumer(s: State, c: nat): State
    requires c < |s.callers|
  {
    var caller := s.callers[c];
    var s' := s.(callers := s.callers[c := caller.(use := Released)]);
    if caller.fetch >= |s.fetches| then s' else
    var fetch := s.fetches[caller.fetch].(consumers := s.fetches[caller.fetch].consumers - 1);
    if fetch.phase.Done? && fetch.consumers == 0 then
      Return(SetFetch(s', caller.fetch, fetch.(published := None)), fetch.published)
    else SetFetch(s', caller.fetch, fetch)
  }

  function DoCaller(s: State, step: Step): State
    requires step.Wake? || step.Release?
  {
    match step
    case Wake(c) =>
      if c < |s.callers| && s.callers[c].use.Waiting? && s.callers[c].fetch < |s.fetches| then
        var caller, fetch := s.callers[c], s.fetches[s.callers[c].fetch];
        if caller.assembling && (fetch.phase.Writing? || fetch.phase.Finishing? || fetch.phase.Unmapped? || fetch.phase.Done?) then
          match fetch.published
          case Some(b) => s.(callers := s.callers[c := caller.(use := Leased(b))])
          case None => DropConsumer(s, c)
        else if !caller.assembling && fetch.phase.Done? then DropConsumer(s, c)
        else s
      else s
    case Release(c) =>
      if c < |s.callers| && !s.callers[c].use.Released? then DropConsumer(s, c) else s
  }

  function DoBegin(s: State, key: Key, assembling: bool): State {
    if key in s.inFlight && s.inFlight[key] < |s.fetches| then
      var f := s.inFlight[key];
      SetFetch(s, f, s.fetches[f].(consumers := s.fetches[f].consumers + 1))
        .(callers := s.callers + [Caller(f, assembling, Waiting)])
    else
      s.(inFlight := s.inFlight[key := |s.fetches|],
         fetches := s.fetches + [Fetch(key, Begun, None, 1)],
         callers := s.callers + [Caller(|s.fetches|, assembling, Waiting)])
  }

  function DoFetch(s: State, f: nat, step: Step): State
    requires f < |s.fetches|
  {
    var fetch := s.fetches[f];
    match (step, fetch.phase)
    case (Skip(_), Begun) => SetFetch(s, f, fetch.(phase := Finishing))
    case (Admit(_), Begun) => SetFetch(s, f, fetch.(phase := Fetching)).(slots := s.slots + 1)
    case (Abort(_), Fetching) => SetFetch(s, f, fetch.(phase := Finishing)).(slots := s.slots - 1)
    case (Stage(_), Fetching) =>
      SetFetch(s, f, fetch.(phase := Staged(|s.returned|))).(returned := s.returned + [0], owner := s.owner + [f])
    case (ShortBody(_), Staged(b)) =>
      Return(SetFetch(s, f, fetch.(phase := Finishing)), Some(b)).(slots := s.slots - 1)
    case (LocalWriteEnds(_, stored), Staged(b)) =>
      if stored then SetFetch(s, f, fetch.(phase := Finishing, published := Some(b))).(slots := s.slots - 1)
      else Return(SetFetch(s, f, fetch.(phase := Finishing)), Some(b)).(slots := s.slots - 1)
    case (PublishThenWrite(_), Staged(b)) => SetFetch(s, f, fetch.(phase := Writing(b), published := Some(b)))
    case (RemoteWriteEnds(_), Writing(_)) => SetFetch(s, f, fetch.(phase := Finishing)).(slots := s.slots - 1)
    case (Unmap(_), Finishing) =>
      SetFetch(s, f, fetch.(phase := Unmapped))
        .(inFlight := if fetch.key in s.inFlight && s.inFlight[fetch.key] == f then s.inFlight - {fetch.key} else s.inFlight)
    case (Finish(_), Unmapped) =>
      if fetch.consumers == 0 then Return(SetFetch(s, f, fetch.(phase := Done, published := None)), fetch.published)
      else SetFetch(s, f, fetch.(phase := Done))
    case _ => s
  }

  function Do(s: State, step: Step): State {
    match step
    case Begin(key, assembling) => DoBegin(s, key, assembling)
    case Wake(_) => DoCaller(s, step)
    case Release(_) => DoCaller(s, step)
    case _ => if step.f < |s.fetches| then DoFetch(s, step.f, step) else s
  }

  function Run(steps: seq<Step>): State {
    if steps == [] then START else Do(Run(steps[..|steps| - 1]), steps[|steps| - 1])
  }

  /** Callers of fetch f that have not released it. */
  function Unreleased(callers: seq<Caller>, f: nat): nat {
    if callers == [] then 0
    else Unreleased(callers[..|callers| - 1], f)
         + if callers[|callers| - 1].fetch == f && !callers[|callers| - 1].use.Released? then 1 else 0
  }

  predicate HoldsSlot(fetch: Fetch) {
    fetch.phase.Fetching? || fetch.phase.Staged? || fetch.phase.Writing?
  }

  function SlotHolders(fetches: seq<Fetch>): nat {
    if fetches == [] then 0
    else SlotHolders(fetches[..|fetches| - 1]) + if HoldsSlot(fetches[|fetches| - 1]) then 1 else 0
  }

  lemma {:induction false} UnreleasedUpdate(callers: seq<Caller>, c: nat, caller: Caller, f: nat)
    requires c < |callers|
    ensures Unreleased(callers[c := caller], f)
         == Unreleased(callers, f)
            - (if callers[c].fetch == f && !callers[c].use.Released? then 1 else 0)
            + (if caller.fetch == f && !caller.use.Released? then 1 else 0)
  {
    var n := |callers| - 1;
    if c < n {
      assert callers[c := caller][..n] == callers[..n][c := caller];
      UnreleasedUpdate(callers[..n], c, caller, f);
    } else {
      assert callers[c := caller][..n] == callers[..n];
    }
  }

  lemma {:induction false} SlotsUpdate(fetches: seq<Fetch>, f: nat, fetch: Fetch)
    requires f < |fetches|
    ensures SlotHolders(fetches[f := fetch])
         == SlotHolders(fetches) - (if HoldsSlot(fetches[f]) then 1 else 0) + (if HoldsSlot(fetch) then 1 else 0)
  {
    var n := |fetches| - 1;
    if f < n {
      assert fetches[f := fetch][..n] == fetches[..n][f := fetch];
      SlotsUpdate(fetches[..n], f, fetch);
    } else {
      assert fetches[f := fetch][..n] == fetches[..n];
    }
  }

  predicate Refers(fetch: Fetch, b: nat) {
    fetch.phase == Staged(b) || fetch.published == Some(b)
  }

  /** The fetch is still the one new callers of its key join. */
  predicate Joinable(fetch: Fetch) {
    !fetch.phase.Unmapped? && !fetch.phase.Done?
  }

  ghost predicate MapInv(s: State) {
    && (forall k :: k in s.inFlight ==>
          (s.inFlight[k] < |s.fetches| && s.fetches[s.inFlight[k]].key == k && Joinable(s.fetches[s.inFlight[k]])))
    && (forall f :: 0 <= f < |s.fetches| && Joinable(s.fetches[f]) ==>
          s.fetches[f].key in s.inFlight && s.inFlight[s.fetches[f].key] == f)
  }

  ghost predicate FetchInv(s: State, f: nat)
    requires f < |s.fetches|
  {
    var fetch := s.fetches[f];
    && fetch.consumers == Unreleased(s.callers, f)
    && (fetch.phase.Begun? || fetch.phase.Fetching? || fetch.phase.Staged? ==> fetch.published == None)
    && (fetch.phase.Writing? ==> fetch.published == Some(fetch.phase.buf))
    && (fetch.phase.Done? && fetch.consumers == 0 ==> fetch.published == None)
    && (forall b: nat :: Refers(fetch, b) ==> b < |s.owner| && s.owner[b] == f)
  }

  ghost predicate BufInv(s: State, b: nat)
    requires b < |s.returned| && |s.owner| == |s.returned|
  {
    && s.owner[b] < |s.fetches|
    && s.returned[b] == if Refers(s.fetches[s.owner[b]], b) then 0 else 1
  }

  ghost predicate CallerInv(s: State, c: nat)
    requires c < |s.callers|
  {
    var caller := s.callers[c];
    && caller.fetch < |s.fetches|
    && (caller.use.Leased? ==> s.fetches[caller.fetch].published == Some(caller.use.buf))
  }

  ghost predicate Inv(s: State) {
    && MapInv(s)
    && |s.owner| == |s.returned|
    && (forall f :: 0 <= f < |s.fetches| ==> FetchInv(s, f))
    && (forall b :: 0 <= b < |s.returned| ==> BufInv(s, b))
    && (forall c :: 0 <= c < |s.callers| ==> CallerInv(s, c))
    && s.slots == SlotHolders(s.fetches)
  }

  lemma {:induction false} NoCallers(s: State, callers: seq<Caller>, f: nat)
    requires callers <= s.callers && f >= |s.fetches|
    requires forall c :: 0 <= c < |s.callers| ==> CallerInv(s, c)
    ensures Unreleased(callers, f) == 0
  {
    if callers != [] {
      assert CallerInv(s, |callers| - 1);
      NoCallers(s, callers[..|callers| - 1], f);
    }
  }

  /** Fetch f, and no other, was replaced by one of the same key that refers to the same buffers. */
  ghost predicate Moved(s: State, s': State, f: nat) {
    && f < |s.fetches| == |s'.fetches|
    && s'.fetches == s.fetches[f := s'.fetches[f]]
    && s'.fetches[f].key == s.fetches[f].key
  }

  lemma MapStays(s: State, s': State, f: nat)
    requires MapInv(s) && Moved(s, s', f)
    requires s'.inFlight == s.inFlight && (Joinable(s'.fetches[f]) <==> Joinable(s.fetches[f]))
    ensures MapInv(s')
  {
  }

  lemma Unmapping(s: State, s': State, f: nat)
    requires MapInv(s) && Moved(s, s', f) && Joinable(s.fetches[f]) && !Joinable(s'.fetches[f])
    requires s'.inFlight == s.inFlight - {s.fetches[f].key}
    ensures MapInv(s')
  {
  }

  ghost predicate BufsInv(s: State) {
    && |s.owner| == |s.returned|
    && (forall b :: 0 <= b < |s.returned| ==> BufInv(s, b))
  }

  lemma BufsStay(s: State, s': State, f: nat)
    requires BufsInv(s) && Moved(s, s', f) && s'.returned == s.returned && s'.owner == s.owner
    requires forall b: nat :: Refers(s'.fetches[f], b) <==> Refers(s.fetches[f], b)
    ensures BufsInv(s')
  {
    forall b | 0 <= b < |s'.returned| ensures BufInv(s', b) { assert BufInv(s, b); }
  }

  lemma BufReturned(s: State, s': State, f: nat, b0: nat)
    requires BufsInv(s) && Moved(s, s', f) && b0 < |s.returned| && s.owner[b0] == f
    requires s'.returned == s.returned[b0 := s.returned[b0] + 1] && s'.owner == s.owner
    requires forall b: nat :: Refers(s.fetches[f], b) <==> b == b0
    requires forall b: nat :: !Refers(s'.fetches[f], b)
    ensures BufsInv(s')
  {
    forall b | 0 <= b < |s'.returned| ensures BufInv(s', b) { assert BufInv(s, b); }
  }

  lemma BufStaged(s: State, s': State, f: nat)
    requires BufsInv(s) && Moved(s, s', f)
    requires s'.returned == s.returned + [0] && s'.owner == s.owner + [f]
    requires forall b: nat :: !Refers(s.fetches[f], b)
    requires forall b: nat :: Refers(s'.fetches[f], b) <==> b == |s.returned|
    ensures BufsInv(s')
  {
    forall b | 0 <= b < |s'.returned| ensures BufInv(s', b) { if b < |s.returned| { assert BufInv(s, b); } }
  }

  lemma FetchKeepsMap(s: State, f: nat, step: Step)
    requires MapInv(s) && f < |s.fetches|
    ensures MapInv(DoFetch(s, f, step)) && Moved(s, DoFetch(s, f, step), f)
    ensures DoFetch(s, f, step).callers == s.callers
  {
    var s' := DoFetch(s, f, step);
    assert Moved(s, s', f);
    if step.Unmap? && s.fetches[f].phase.Finishing? { Unmapping(s, s', f); } else { MapStays(s, s', f); }
  }

  lemma FetchKeepsBufs(s: State, f: nat, step: Step)
    requires BufsInv(s) && f < |s.fetches| && FetchInv(s, f) && Moved(s, DoFetch(s, f, step), f)
    ensures BufsInv(DoFetch(s, f, step)) && FetchInv(DoFetch(s, f, step), f)
    ensures s.owner <= DoFetch(s, f, step).owner
  {
    var s', fetch := DoFetch(s, f, step), s.fetches[f];
    if fetch.phase.Fetching? && step.Stage? {
      BufStaged(s, s', f);
    } else if fetch.phase.Staged? && (step.ShortBody? || (step.LocalWriteEnds? && !step.stored)) {
      assert Refers(fetch, fetch.phase.buf);
      BufReturned(s, s', f, fetch.phase.buf);
    } else if fetch.phase.Unmapped? && step.Finish? && fetch.consumers == 0 && fetch.published.Some? {
      assert Refers(fetch, fetch.published.value);
      BufReturned(s, s', f, fetch.published.value);
    } else {
      BufsStay(s, s', f);
    }
  }

  lemma FetchKeeps(s: State, f: nat, step: Step)
    requires Inv(s) && f < |s.fetches|
    ensures Inv(DoFetch(s, f, step))
  {
    var s' := DoFetch(s, f, step);
    assert FetchInv(s, f);
    FetchKeepsMap(s, f, step);
    FetchKeepsBufs(s, f, step);
    SlotsUpdate(s.fetches, f, s'.fetches[f]);
    FetchKeepsSlots(s, f, step);
    if s.fetches[f].published.Some? && s.fetches[f].consumers != 0 { FetchKeepsLeases(s, f, step); }
    hide DoFetch;
    forall g | 0 <= g < |s'.fetches| ensures FetchInv(s', g) { assert FetchInv(s, g); }
    forall c | 0 <= c < |s'.callers| ensures CallerInv(s', c) {
      assert CallerInv(s, c);
      if s.callers[c].use.Leased? && s.callers[c].fetch == f { HasConsumer(s.callers, c); }
    }
  }

  lemma FetchKeepsSlots(s: State, f: nat, step: Step)
    requires f < |s.fetches|
    ensures var s' := DoFetch(s, f, step);
            && f < |s'.fetches|
            && s'.slots == s.slots - (if HoldsSlot(s.fetches[f]) then 1 else 0) + (if HoldsSlot(s'.fetches[f]) then 1 else 0)
  {
  }

  /** A fetch gives up its published buffer only when nobody is left to use it. */
  lemma FetchKeepsLeases(s: State, f: nat, step: Step)
    requires f < |s.fetches| && s.fetches[f].published.Some? && s.fetches[f].consumers != 0 && FetchInv(s, f)
    ensures var s' := DoFetch(s, f, step);
            f < |s'.fetches| && s'.fetches[f].published == s.fetches[f].published
  {
  }

  lemma {:induction false} HasConsumer(callers: seq<Caller>, c: nat)
    requires c < |callers| && !callers[c].use.Released?
    ensures Unreleased(callers, callers[c].fetch) >= 1
  {
    if c < |callers| - 1 { HasConsumer(callers[..|callers| - 1], c); }
  }

  /** A new caller joins the fetch of its key, or starts one. */
  lemma BeginKeeps(s: State, key: Key, assembling: bool)
    requires Inv(s)
    ensures Inv(DoBegin(s, key, assembling))
  {
    var s' := DoBegin(s, key, assembling);
    if key in s.inFlight { JoinKeeps(s, key, assembling); } else { StartKeeps(s, key, assembling); }
  }

  lemma JoinKeeps(s: State, key: Key, assembling: bool)
    requires Inv(s) && key in s.inFlight
    ensures Inv(DoBegin(s, key, assembling))
  {
    var s', f := DoBegin(s, key, assembling), s.inFlight[key];
    assert s'.callers[..|s.callers|] == s.callers;
    assert FetchInv(s, f);
    MapStays(s, s', f);
    BufsStay(s, s', f);
    SlotsUpdate(s.fetches, f, s'.fetches[f]);
    hide MapInv, BufsInv;
    forall g | 0 <= g < |s'.fetches| ensures FetchInv(s', g) { assert FetchInv(s, g); }
    forall c | 0 <= c < |s'.callers| ensures CallerInv(s', c) { if c < |s.callers| { assert CallerInv(s, c); } }
  }

  lemma StartKeeps(s: State, key: Key, assembling: bool)
    requires Inv(s) && key !in s.inFlight
    ensures Inv(DoBegin(s, key, assembling))
  {
    var s', n := DoBegin(s, key, assembling), |s.fetches|;
    assert s'.callers[..|s.callers|] == s.callers && s'.fetches[..n] == s.fetches;
    NoCallers(s, s.callers, n);
    forall g | 0 <= g < |s'.fetches| ensures FetchInv(s', g) { if g < n { assert FetchInv(s, g); } }
    forall b | 0 <= b < |s'.returned| ensures BufInv(s', b) { assert BufInv(s, b); }
    forall c | 0 <= c < |s'.callers| ensures CallerInv(s', c) { if c < |s.callers| { assert CallerInv(s, c); } }
  }

  lemma DropKeepsBufs(s: State, c: nat)
    requires c < |s.callers| && s.callers[c].fetch < |s.fetches| && MapInv(s) && BufsInv(s)
    requires FetchInv(s, s.callers[c].fetch)
    ensures var s', f := DropConsumer(s, c), s.callers[c].fetch;
            && Moved(s, s', f) && MapInv(s') && BufsInv(s') && s'.owner == s.owner && s'.slots == s.slots
            && (HoldsSlot(s'.fetches[f]) <==> HoldsSlot(s.fetches[f]))
  {
    var s', f := DropConsumer(s, c), s.callers[c].fetch;
    var fetch := s.fetches[f];
    MapStays(s, s', f);
    if fetch.phase.Done? && fetch.consumers == 1 && fetch.published.Some? {
      assert Refers(fetch, fetch.published.value);
      BufReturned(s, s', f, fetch.published.value);
    } else {
      BufsStay(s, s', f);
    }
  }

  lemma DropMeans(s: State, c: nat)
    requires c < |s.callers| && s.callers[c].fetch < |s.fetches|
    ensures var s', caller, fetch := DropConsumer(s, c), s.callers[c], s.fetches[s.callers[c].fetch];
            && s'.callers == s.callers[c := caller.(use := Released)] && s'.owner == s.owner
            && s'.fetches == s.fetches[caller.fetch :=
                 fetch.(consumers := fetch.consumers - 1,
                        published := if fetch.phase.Done? && fetch.consumers == 1 then None else fetch.published)]
  {
  }

  lemma DropKeepsFetch(s: State, c: nat, g: nat)
    requires c < |s.callers| && s.callers[c].fetch < |s.fetches| && !s.callers[c].use.Released?
    requires g < |s.fetches| && FetchInv(s, g)
    ensures g < |DropConsumer(s, c).fetches| && FetchInv(DropConsumer(s, c), g)
  {
    DropMeans(s, c);
    var s' := DropConsumer(s, c);
    UnreleasedUpdate(s.callers, c, s'.callers[c], g);
    hide DropConsumer, Unreleased;
    forall b: nat | Refers(s'.fetches[g], b) ensures Refers(s.fetches[g], b) {}
  }

  lemma DropKeeps(s: State, c: nat)
    requires Inv(s) && c < |s.callers| && !s.callers[c].use.Released?
    ensures Inv(DropConsumer(s, c))
  {
    var s' := DropConsumer(s, c);
    assert CallerInv(s, c);
    var f := s.callers[c].fetch;
    assert FetchInv(s, f);
    DropKeepsBufs(s, c);
    DropMeans(s, c);
    hide DropConsumer, MapInv, BufsInv;
    SlotsUpdate(s.fetches, f, s'.fetches[f]);
    forall g | 0 <= g < |s'.fetches| ensures FetchInv(s', g) {
      assert FetchInv(s, g);
      DropKeepsFetch(s, c, g);
    }
    forall k | 0 <= k < |s'.callers| ensures CallerInv(s', k) {
      assert CallerInv(s, k);
      if k != c && s.callers[k].use.Leased? && s.callers[k].fetch == f {
        UnreleasedUpdate(s.callers, c, s'.callers[c], f);
        HasConsumer(s'.callers, k);
      }
    }
  }

  lemma CallerKeeps(s: State, step: Step)
    requires Inv(s) && (step.Wake? || step.Release?)
    ensures Inv(DoCaller(s, step))
  {
    var c := step.c;
    if c < |s.callers| && !s.callers[c].use.Released? {
      DropKeeps(s, c);
      assert CallerInv(s, c);
      var s' := DoCaller(s, step);
      if s' != s && s' != DropConsumer(s, c) {
        forall g | 0 <= g < |s'.fetches| ensures FetchInv(s', g) {
          assert FetchInv(s, g);
          UnreleasedUpdate(s.callers, c, s'.callers[c], g);
        }
        forall b | 0 <= b < |s'.returned| ensures BufInv(s', b) { assert BufInv(s, b); }
        forall k | 0 <= k < |s'.callers| ensures CallerInv(s', k) { assert CallerInv(s, k); }
      }
    }
  }

  lemma {:induction false} RunKeepsInv(steps: seq<Step>)
    ensures Inv(Run(steps))
  {
    if steps != [] {
      RunKeepsInv(steps[..|steps| - 1]);
      var s, step := Run(steps[..|steps| - 1]), steps[|steps| - 1];
      match step {
        case Begin(key, assembling) => BeginKeeps(s, key, assembling);
        case Wake(_) => CallerKeeps(s, step);
        case Release(_) => CallerKeeps(s, step);
        case _ => if step.f < |s.fetches| { FetchKeeps(s, step.f, step); }
      }
    }
  }

  /** A leased buffer is never in the pool, and it is the one its own fetch staged. */
  lemma LeasedBufferIsLive(steps: seq<Step>, c: nat)
    requires c < |Run(steps).callers| && Run(steps).callers[c].use.Leased?
    ensures var s, b := Run(steps), Run(steps).callers[c].use.buf;
            b < |s.returned| == |s.owner| && s.returned[b] == 0 && s.owner[b] == s.callers[c].fetch
  {
    RunKeepsInv(steps);
    BufferIsLive(Run(steps), Run(steps).callers[c].fetch, Run(steps).callers[c].use.buf) by { assert CallerInv(Run(steps), c); }
  }

  /** A buffer that a cache write is reading is never in the pool. */
  lemma WrittenBufferIsLive(steps: seq<Step>, f: nat)
    requires f < |Run(steps).fetches| && (Run(steps).fetches[f].phase.Staged? || Run(steps).fetches[f].phase.Writing?)
    ensures var s, b := Run(steps), Run(steps).fetches[f].phase.buf;
            b < |s.returned| == |s.owner| && s.returned[b] == 0 && s.owner[b] == f
  {
    RunKeepsInv(steps);
    BufferIsLive(Run(steps), f, Run(steps).fetches[f].phase.buf) by { assert FetchInv(Run(steps), f); }
  }

  lemma BufferIsLive(s: State, f: nat, b: nat)
    requires Inv(s) && f < |s.fetches| && Refers(s.fetches[f], b)
    ensures b < |s.returned| == |s.owner| && s.returned[b] == 0 && s.owner[b] == f
  {
    assert FetchInv(s, f);
    assert BufInv(s, b);
  }

  /** No buffer goes back twice; and once a fetch has finished and all of its callers have released
      it, its buffer is back. */
  lemma ReturnedExactlyOnce(steps: seq<Step>, b: nat)
    requires b < |Run(steps).returned|
    ensures var s := Run(steps);
            && |s.owner| == |s.returned| && s.owner[b] < |s.fetches| && s.returned[b] <= 1
            && (s.fetches[s.owner[b]].phase.Done?
                && (forall c :: 0 <= c < |s.callers| && s.callers[c].fetch == s.owner[b] ==> s.callers[c].use.Released?)
                ==> s.returned[b] == 1)
  {
    RunKeepsInv(steps);
    var s := Run(steps);
    assert BufInv(s, b);
    assert FetchInv(s, s.owner[b]);
    if forall c :: 0 <= c < |s.callers| && s.callers[c].fetch == s.owner[b] ==> s.callers[c].use.Released? {
      AllReleased(s.callers, s.owner[b]);
    }
  }

  /** The step that puts a buffer back found nobody using it: either it was staged and never published
      (so no caller ever saw it), or after the step its fetch is done, its write over, and every caller
      that joined the fetch, waiting ones too, has released it. */
  lemma ReturnedOnlyWhenUnused(steps: seq<Step>, step: Step, b: nat)
    requires b < |Run(steps).returned| && Run(steps).returned[b] == 0
    requires b < |Run(steps + [step]).returned| && Run(steps + [step]).returned[b] != 0
    ensures var s, s' := Run(steps), Run(steps + [step]);
            && |s.owner| == |s.returned| && s.owner[b] < |s.fetches| <= |s'.fetches|
            && var f := s.owner[b];
               || (s.fetches[f].phase == Staged(b) && s.fetches[f].published == None
                   && forall c :: 0 <= c < |s.callers| && s.callers[c].fetch == f ==> !s.callers[c].use.Leased?)
               || (s'.fetches[f].phase.Done? && s'.fetches[f].consumers == 0
                   && forall c :: 0 <= c < |s'.callers| && s'.callers[c].fetch == f ==> s'.callers[c].use.Released?)
  {
    RunKeepsInv(steps);
    RunKeepsInv(steps + [step]);
    RunOneMore(steps, step);
    var s, s' := Run(steps), Run(steps + [step]);
    assert BufInv(s, b) && BufInv(s', b);
    var f := s.owner[b];
    OwnerStays(s, step, b);
    assert FetchInv(s, f) && FetchInv(s', f);
    LetGo(s, step, f, b);
    if s.fetches[f].phase == Staged(b) {
      forall c | 0 <= c < |s.callers| && s.callers[c].fetch == f ensures !s.callers[c].use.Leased? {
        assert CallerInv(s, c);
      }
    } else {
      forall c | 0 <= c < |s'.callers| && s'.callers[c].fetch == f ensures s'.callers[c].use.Released? {
        if !s'.callers[c].use.Released? { HasConsumer(s'.callers, c); }
      }
    }
  }

  lemma RunOneMore(steps: seq<Step>, step: Step)
    ensures Run(steps + [step]) == Do(Run(steps), step)
  {
    assert (steps + [step])[..|steps|] == steps;
  }

  lemma OwnerStays(s: State, step: Step, b: nat)
    requires b < |s.owner|
    ensures b < |Do(s, step).owner| && Do(s, step).owner[b] == s.owner[b]
    ensures |s.fetches| <= |Do(s, step).fetches|
  {
  }

  /** A fetch lets go of a buffer before publishing it, or once it is done with no caller left. */
  lemma LetGo(s: State, step: Step, f: nat, b: nat)
    requires f < |s.fetches| && FetchInv(s, f) && Refers(s.fetches[f], b)
    requires f < |Do(s, step).fetches| && !Refers(Do(s, step).fetches[f], b)
    ensures s.fetches[f].phase == Staged(b)
         || (Do(s, step).fetches[f].phase.Done? && Do(s, step).fetches[f].consumers == 0)
  {
    hide DropConsumer, DoFetch;
    if step.Wake? || step.Release? {
      if step.c < |s.callers| {
        if s.callers[step.c].fetch < |s.fetches| { DropMeans(s, step.c); } else { DropNothing(s, step.c); }
      }
    } else if !step.Begin? && step.f < |s.fetches| {
      FetchLetsGo(s, step.f, step, f, b);
    }
  }

  lemma DropNothing(s: State, c: nat)
    requires c < |s.callers| && s.callers[c].fetch >= |s.fetches|
    ensures DropConsumer(s, c).fetches == s.fetches
  {
  }

  lemma FetchLetsGo(s: State, g: nat, step: Step, f: nat, b: nat)
    requires g < |s.fetches| && f < |s.fetches| && FetchInv(s, f) && Refers(s.fetches[f], b)
    ensures var s' := DoFetch(s, g, step);
            && f < |s'.fetches|
            && (Refers(s'.fetches[f], b) || s.fetches[f].phase == Staged(b)
                || (s'.fetches[f].phase.Done? && s'.fetches[f].consumers == 0))
  {
  }

  lemma {:induction false} AllReleased(callers: seq<Caller>, f: nat)
    requires forall c :: 0 <= c < |callers| && callers[c].fetch == f ==> callers[c].use.Released?
    ensures Unreleased(callers, f) == 0
  {
    if callers != [] { AllReleased(callers[..|callers| - 1], f); }
  }

  /** Two fetches of one block never overlap: until a fetch's cache write has ended, callers of its
      key join it. */
  lemma OneFetchPerKey(steps: seq<Step>, f: nat, g: nat)
    requires f < |Run(steps).fetches| && g < |Run(steps).fetches|
    requires Run(steps).fetches[f].key == Run(steps).fetches[g].key
    requires Joinable(Run(steps).fetches[f]) && Joinable(Run(steps).fetches[g])
    ensures f == g
  {
    RunKeepsInv(steps);
  }

  /** The count a fetch keeps is exactly its callers that have not let go, and the slots taken are
      exactly those of fetches between admission and the end of their write. */
  lemma CountsAreExact(steps: seq<Step>, f: nat)
    requires f < |Run(steps).fetches|
    ensures Run(steps).fetches[f].consumers == Unreleased(Run(steps).callers, f)
    ensures Run(steps).slots == SlotHolders(Run(steps).fetches)
  {
    RunKeepsInv(steps);
    assert FetchInv(Run(steps), f);
  }

  lemma DropJoinsNobody(s: State, c: nat, f: nat)
    requires c < |s.callers| && f < |s.fetches| && !Joinable(s.fetches[f])
    ensures var s' := DropConsumer(s, c);
            f < |s'.fetches| && !Joinable(s'.fetches[f]) && s'.fetches[f].consumers <= s.fetches[f].consumers
  {
    if s.callers[c].fetch < |s.fetches| { DropMeans(s, c); }
  }

  lemma FetchJoinsNobody(s: State, g: nat, step: Step, f: nat)
    requires g < |s.fetches| && f < |s.fetches| && !Joinable(s.fetches[f])
    ensures var s' := DoFetch(s, g, step);
            f < |s'.fetches| && !Joinable(s'.fetches[f]) && s'.fetches[f].consumers == s.fetches[f].consumers
  {
  }

  /** Nobody joins a fetch that left the table, whatever the step. */
  lemma NoLateJoiner(s: State, step: Step, f: nat)
    requires MapInv(s) && f < |s.fetches| && !Joinable(s.fetches[f])
    ensures f < |Do(s, step).fetches| && !Joinable(Do(s, step).fetches[f])
    ensures Do(s, step).fetches[f].consumers <= s.fetches[f].consumers
  {
    hide DropConsumer, DoFetch;
    if step.Wake? || step.Release? {
      if step.c < |s.callers| { DropJoinsNobody(s, step.c, f); }
    } else if !step.Begin? && step.f < |s.fetches| {
      FetchJoinsNobody(s, step.f, step, f);
    }
  }

  /** And so in every continuation of a run. */
  lemma {:induction false} NobodyJoinsLater(steps: seq<Step>, more: seq<Step>, f: nat)
    requires f < |Run(steps).fetches| && !Joinable(Run(steps).fetches[f])
    ensures var s, s' := Run(steps), Run(steps + more);
            f < |s'.fetches| && !Joinable(s'.fetches[f]) && s'.fetches[f].consumers <= s.fetches[f].consumers
    decreases |more|
  {
    hide Run, Do;
    if more == [] {
      assert steps + more == steps;
    } else {
      var init, step := more[..|more| - 1], more[|more| - 1];
      NobodyJoinsLater(steps, init, f);
      RunKeepsInv(steps + init);
      NoLateJoiner(Run(steps + init), step, f);
      RunOneMore(steps + init, step);
      assert steps + more == steps + init + [step];
    }
  }

  // ---- Every run can be drained -------------------------------------------------------

  function Rank(phase: Phase): nat {
    match phase
    case Begun => 3
    case Fetching => 3
    case Staged(_) => 3
    case Writing(_) => 3
    case Finishing => 2
    case Unmapped => 1
    case Done => 0
  }

  /** A step of its own that an unfinished fetch can always take. */
  function Onward(f: nat, phase: Phase): Step {
    match phase
    case Begun => Skip(f)
    case Fetching => Abort(f)
    case Staged(_) => LocalWriteEnds(f, true)
    case Writing(_) => RemoteWriteEnds(f)
    case Finishing => Unmap(f)
    case _ => Finish(f)
  }

  lemma OnwardAdvances(s: State, f: nat)
    requires f < |s.fetches| && !s.fetches[f].phase.Done?
    ensures var s' := Do(s, Onward(f, s.fetches[f].phase));
            && s'.callers == s.callers && |s'.fetches| == |s.fetches|
            && Rank(s'.fetches[f].phase) < Rank(s.fetches[f].phase)
            && forall g :: 0 <= g < |s.fetches| && g != f ==> s'.fetches[g] == s.fetches[g]
  {
  }

  lemma {:induction false} FinishOne(steps: seq<Step>, f: nat) returns (more: seq<Step>)
    requires f < |Run(steps).fetches|
    ensures var s, s' := Run(steps), Run(steps + more);
            && s'.callers == s.callers && |s'.fetches| == |s.fetches| && s'.fetches[f].phase.Done?
            && forall g :: 0 <= g < |s.fetches| && g != f ==> s'.fetches[g] == s.fetches[g]
    decreases Rank(Run(steps).fetches[f].phase)
  {
    hide Run, Do;
    var s := Run(steps);
    if s.fetches[f].phase.Done? {
      more := [];
      assert steps + more == steps;
    } else {
      var step := Onward(f, s.fetches[f].phase);
      OnwardAdvances(s, f);
      RunOneMore(steps, step);
      var rest := FinishOne(steps + [step], f);
      more := [step] + rest;
      assert steps + more == steps + [step] + rest;
    }
  }

  lemma {:induction false} FinishAll(steps: seq<Step>, n: nat) returns (more: seq<Step>)
    requires n <= |Run(steps).fetches|
    ensures var s, s' := Run(steps), Run(steps + more);
            && s'.callers == s.callers && |s'.fetches| == |s.fetches|
            && forall g :: 0 <= g < n ==> s'.fetches[g].phase.Done?
  {
    hide Run;
    if n == 0 {
      more := [];
      assert steps + more == steps;
    } else {
      var first := FinishAll(steps, n - 1);
      var last := FinishOne(steps + first, n - 1);
      more := first + last;
      assert steps + more == steps + first + last;
    }
  }

  ghost predicate AllDone(s: State) {
    forall g :: 0 <= g < |s.fetches| ==> s.fetches[g].phase.Done?
  }

  lemma ReleaseOne(s: State, c: nat)
    requires AllDone(s) && c < |s.callers| && s.callers[c].fetch < |s.fetches|
    ensures var s' := Do(s, Release(c));
            && AllDone(s') && |s'.fetches| == |s.fetches|
            && s'.callers == s.callers[c := s.callers[c].(use := Released)]
  {
    DropMeans(s, c);
  }

  lemma {:induction false} ReleaseAll(steps: seq<Step>, n: nat) returns (more: seq<Step>)
    requires AllDone(Run(steps)) && n <= |Run(steps).callers|
    ensures var s, s' := Run(steps), Run(steps + more);
            && AllDone(s') && |s'.callers| == |s.callers|
            && forall c :: 0 <= c < n ==> s'.callers[c].use.Released?
  {
    hide Run, Do;
    if n == 0 {
      more := [];
      assert steps + more == steps;
    } else {
      var first := ReleaseAll(steps, n - 1);
      var mid := steps + first;
      RunKeepsInv(mid);
      assert CallerInv(Run(mid), n - 1);
      ReleaseOne(Run(mid), n - 1);
      RunOneMore(mid, Release(n - 1));
      more := first + [Release(n - 1)];
      assert steps + more == mid + [Release(n - 1)];
    }
  }

  /** Every buffer ever staged is back in the pool, no slot is held, and no key is in flight. */
  ghost predicate Drained(s: State) {
    && (forall b :: 0 <= b < |s.returned| ==> s.returned[b] == 1)
    && s.slots == 0 && s.inFlight == map[]
  }

  /** Nothing leaks or gets stuck: every run extends to one in which everything taken is back. */
  lemma EveryRunDrains(steps: seq<Step>)
    ensures exists more :: Drained(Run(steps + more))
  {
    hide Run;
    var finish := FinishAll(steps, |Run(steps).fetches|);
    var release := ReleaseAll(steps + finish, |Run(steps + finish).callers|);
    var all := steps + finish + release;
    var s := Run(all);
    RunKeepsInv(all);
    forall b | 0 <= b < |s.returned| ensures s.returned[b] == 1 { ReturnedExactlyOnce(all, b); }
    NoSlots(s.fetches);
    assert forall k :: k !in s.inFlight;
    assert all == steps + (finish + release);
    assert Drained(Run(steps + (finish + release)));
  }

  lemma {:induction false} NoSlots(fetches: seq<Fetch>)
    requires forall g :: 0 <= g < |fetches| ==> fetches[g].phase.Done?
    ensures SlotHolders(fetches) == 0
  {
    if fetches != [] { NoSlots(fetches[..|fetches| - 1]); }
  }
}
