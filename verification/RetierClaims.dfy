/** The handshake between client writes and background re-tiers (proxy/tiered.go): a
    write claims its key for its whole duration, which cancels a running re-tier of that
    key and keeps new ones from starting. */
module RetierClaims {

  type Key = string
  type Id = nat

  /** retierClaims, retierInflight, and the contexts cancelled so far. */
  datatype Table = Table(claims: map<Key, int>, inflight: map<Key, Id>, cancelled: set<Id>)

  function Count(t: Table, k: Key): int {
    if k in t.claims then t.claims[k] else 0
  }

  function Claimed(t: Table, k: Key): Table {
    t.(claims := t.claims[k := Count(t, k) + 1],
       cancelled := if k in t.inflight then t.cancelled + {t.inflight[k]} else t.cancelled)
  }

  function Released(t: Table, k: Key): Table {
    var left := Count(t, k) - 1;
    t.(claims := if left <= 0 then t.claims - {k} else t.claims[k := left])
  }

  predicate MayRegister(t: Table, k: Key) {
    Count(t, k) <= 0 && k !in t.inflight
  }

  function Registered(t: Table, k: Key, task: Id): Table {
    if MayRegister(t, k) then t.(inflight := t.inflight[k := task]) else t
  }

  function Unregistered(t: Table, k: Key): Table {
    t.(inflight := t.inflight - {k})
  }

  /** The Service fields the handshake lives in; each method is one critical section. */
  class Registry {
    var claims: map<Key, int>
    var inflight: map<Key, Id>
    var cancelled: set<Id>

    ghost function View(): Table
      reads this
    {
      Table(claims, inflight, cancelled)
    }

    constructor ()
      ensures View() == Table(map[], map[], {})
    {
      claims, inflight, cancelled := map[], map[], {};
    }

    method ClaimRetierWrite(k: Key)
      modifies this
      ensures View() == Claimed(old(View()), k)
      ensures Count(View(), k) == old(Count(View(), k)) + 1 && inflight == old(inflight)
      ensures k in inflight ==> inflight[k] in cancelled
      ensures forall j :: j != k ==> Count(View(), j) == old(Count(View(), j))
      ensures old(cancelled) <= cancelled <= old(cancelled) + inflight.Values
    {
      claims := claims[k := (if k in claims then claims[k] else 0) + 1];
      if k in inflight {
        cancelled := cancelled + {inflight[k]};
      }
    }

    method ReleaseRetierWrite(k: Key)
      modifies this
      ensures View() == Released(old(View()), k)
      ensures old(Count(View(), k)) > 0 ==> Count(View(), k) == old(Count(View(), k)) - 1
      ensures forall j :: j != k ==> Count(View(), j) == old(Count(View(), j))
      ensures inflight == old(inflight) && cancelled == old(cancelled)
    {
      claims := claims[k := (if k in claims then claims[k] else 0) - 1];
      if claims[k] <= 0 {
        claims := claims - {k};
      }
    }

    method TryRegisterRetier(k: Key, task: Id) returns (ok: bool)
      modifies this
      ensures ok == MayRegister(old(View()), k)
      ensures View() == Registered(old(View()), k, task)
      ensures ok ==> k in inflight && inflight[k] == task && old(Count(View(), k)) <= 0 && k !in old(inflight)
      ensures !ok ==> View() == old(View())
      ensures claims == old(claims) && cancelled == old(cancelled)
      ensures forall j :: j != k ==> (j in inflight <==> j in old(inflight)) && (j in inflight ==> inflight[j] == old(inflight)[j])
    {
      if (k in claims && claims[k] > 0) || k in inflight {
        return false;
      }
      inflight := inflight[k := task];
      return true;
    }

    method UnregisterRetier(k: Key)
      modifies this
      ensures View() == Unregistered(old(View()), k)
      ensures k !in inflight && claims == old(claims) && cancelled == old(cancelled)
      ensures forall j :: j != k ==> (j in inflight <==> j in old(inflight)) && (j in inflight ==> inflight[j] == old(inflight)[j])
    {
      inflight := inflight - {k};
    }
  }

  // ---- Runs ---------------------------------------------------------------------------

  /** Writes in progress and re-tier workers in progress, each with its key. */
  datatype State = State(table: Table, writes: map<Id, Key>, workers: map<Id, Key>)

  datatype Step =
    | BeginWrite(id: Id, key: Key)
    | EndWrite(id: Id)
    | BeginRetier(id: Id, key: Key)
    | EndRetier(id: Id)

  function Do(s: State, step: Step): State {
    match step
    case BeginWrite(w, k) =>
      if w in s.writes then s else s.(table := Claimed(s.table, k), writes := s.writes[w := k])
    case EndWrite(w) =>
      if w !in s.writes then s else s.(table := Released(s.table, s.writes[w]), writes := s.writes - {w})
    // A fresh worker context; it runs only if it was registered.
    case BeginRetier(t, k) =>
      if t in s.workers || t in s.table.cancelled || !MayRegister(s.table, k) then s
      else s.(table := Registered(s.table, k, t), workers := s.workers[t := k])
    case EndRetier(t) =>
      if t !in s.workers then s else s.(table := Unregistered(s.table, s.workers[t]), workers := s.workers - {t})
  }

  const START := State(Table(map[], map[], {}), map[], map[])

  function Run(steps: seq<Step>): State {
    if steps == [] then START else Do(Run(steps[..|steps| - 1]), steps[|steps| - 1])
  }

  ghost function Writing(s: State, k: Key): set<Id> {
    set w | w in s.writes && s.writes[w] == k
  }

  ghost predicate Counted(s: State, k: Key) {
    Count(s.table, k) == |Writing(s, k)| && (k in s.table.claims ==> s.table.claims[k] > 0)
  }

  /** Workers and registrations are the same thing, and a claimed key's one is cancelled. */
  ghost predicate Linked(s: State) {
    && (forall t | t in s.workers :: s.workers[t] in s.table.inflight && s.table.inflight[s.workers[t]] == t)
    && (forall k | k in s.table.inflight :: s.table.inflight[k] in s.workers && s.workers[s.table.inflight[k]] == k)
    && (forall k | k in s.table.inflight && Count(s.table, k) > 0 :: s.table.inflight[k] in s.table.cancelled)
  }

  lemma OneMore(s: State, s': State, w: Id, key: Key, k: Key)
    requires w !in s.writes && s'.writes == s.writes[w := key]
    ensures |Writing(s', k)| == |Writing(s, k)| + if k == key then 1 else 0
  {
    assert Writing(s', k) == if k == key then Writing(s, k) + {w} else Writing(s, k);
  }

  lemma StepKeepsCount(s: State, step: Step, k: Key)
    requires Counted(s, k)
    ensures Counted(Do(s, step), k)
  {
    var s' := Do(s, step);
    match step
    case BeginWrite(w, key) =>
      if w !in s.writes {
        OneMore(s, s', w, key, k);
      }
    case EndWrite(w) =>
      if w in s.writes {
        OneMore(s', s, w, s.writes[w], k);
      }
    case _ =>
      assert Writing(s', k) == Writing(s, k);
  }

  lemma WriteKeepsLinks(s: State, step: Step)
    requires Linked(s) && (step.BeginWrite? || step.EndWrite?)
    ensures Linked(Do(s, step))
  {
  }

  lemma StepKeepsLinks(s: State, step: Step)
    requires Linked(s)
    ensures Linked(Do(s, step))
  {
    if step.BeginWrite? || step.EndWrite? {
      WriteKeepsLinks(s, step);
      hide Linked, Do;
    }
  }

  lemma {:induction false} RunKeepsInv(steps: seq<Step>, k: Key)
    ensures Counted(Run(steps), k) && Linked(Run(steps))
  {
    if steps == [] {
      assert Writing(START, k) == {};
    } else {
      RunKeepsInv(steps[..|steps| - 1], k);
      StepKeepsCount(Run(steps[..|steps| - 1]), steps[|steps| - 1], k);
      StepKeepsLinks(Run(steps[..|steps| - 1]), steps[|steps| - 1]);
    }
  }

  /** In every state: a key being written has no live re-tier, every re-tier running on
      it is cancelled and none can register; and no key ever has two re-tiers running. */
  lemma ClaimExcludesRetier(steps: seq<Step>)
    ensures var s := Run(steps);
            && (forall w, t | w in s.writes && t in s.workers && s.writes[w] == s.workers[t] :: t in s.table.cancelled)
            && (forall w | w in s.writes :: !MayRegister(s.table, s.writes[w]))
            && (forall t, u | t in s.workers && u in s.workers && s.workers[t] == s.workers[u] :: t == u)
  {
    RunKeepsInv(steps, "");
    var s := Run(steps);
    forall w | w in s.writes ensures Count(s.table, s.writes[w]) > 0 {
      RunKeepsInv(steps, s.writes[w]);
      assert w in Writing(s, s.writes[w]);
    }
  }

  /** Claims are exactly the writes in progress, so once every write of a key has ended
      and its re-tier too, a new re-tier can register. */
  lemma ClaimsDrain(steps: seq<Step>, k: Key)
    requires var s := Run(steps);
             (forall w | w in s.writes :: s.writes[w] != k) && (forall t | t in s.workers :: s.workers[t] != k)
    ensures MayRegister(Run(steps).table, k) && k !in Run(steps).table.claims
  {
    RunKeepsInv(steps, k);
    assert Writing(Run(steps), k) == {};
  }
}
