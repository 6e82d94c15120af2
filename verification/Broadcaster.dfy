/** One upstream body streamed to many listeners at once. Listeners own bounded queues of pooled
    buffers; consumers drain them at any time, also in the middle of a send. */
module Broadcasting {
  import opened Options

  type Bytes = seq<int>

  datatype Err = SlowConsumer | BeforeHeaders | Upstream(code: int)

  /** A queued chunk: a data buffer, or the best-effort terminal chunk. */
  datatype Item = Buf(id: nat) | End(err: Option<Err>)

  /** got is what the consumer has taken so far; err is the terminal error, meaningful once closed. */
  datatype Listener = Listener(queue: seq<Item>, got: seq<Bytes>, closed: bool, err: Option<Err>,
                               headersReady: bool, headerErr: Option<Err>)

  /** Who owns a buffer. */
  datatype Place = Pool | Producer | Queued(listener: nat) | Taken(listener: nat)

  /** All listeners ever made, the buffers' contents, and their owners. */
  datatype Net = Net(all: map<nat, Listener>, mem: map<nat, Bytes>, place: map<nat, Place>)

  function Contents(queue: seq<Item>, mem: map<nat, Bytes>): seq<Bytes> {
    if queue == [] then []
    else Contents(queue[..|queue| - 1], mem)
         + match queue[|queue| - 1] {
             case Buf(b) => if b in mem then [mem[b]] else []
             case End(_) => []
           }
  }

  /** Everything listener l has been given: what its consumer took, then what is still queued. */
  function Received(net: Net, l: nat): seq<Bytes>
    requires l in net.all
  {
    net.all[l].got + Contents(net.all[l].queue, net.mem)
  }

  ghost predicate SoundListener(net: Net, l: nat, limit: nat)
    requires l in net.all
  {
    var x := net.all[l];
    && |x.queue| <= limit
    && (forall i :: 0 <= i < |x.queue| && x.queue[i].Buf? ==>
          (x.queue[i].id in net.mem && x.queue[i].id in net.place && net.place[x.queue[i].id] == Queued(l)))
    && (forall i, j :: 0 <= i < j < |x.queue| && x.queue[i].Buf? && x.queue[j].Buf? ==> x.queue[i].id != x.queue[j].id)
    && (forall i :: 0 <= i < |x.queue| && x.queue[i].End? ==> x.closed && i == |x.queue| - 1 && x.queue[i].err == x.err)
  }

  /** Every buffer has one owner, and a queued one is in its owner's queue. */
  ghost predicate Sound(net: Net, limit: nat) {
    && (forall l :: l in net.all ==> SoundListener(net, l, limit))
    && (forall b :: b in net.place && net.place[b].Queued? ==>
          net.place[b].listener in net.all && Buf(b) in net.all[net.place[b].listener].queue)
    && (forall b :: b in net.place <==> b in net.mem)
  }

  /** What consumers may do meanwhile: take chunks from the front of their queues, and let go of what
      they took. Buffers in the producer's hands are out of their reach; so are the queues' tails. */
  ghost predicate Drained(net: Net, net': Net) {
    && net'.all.Keys == net.all.Keys && Passed(net.place, net'.place)
    && (forall l :: l in net.all ==> DrainedListener(net, net', l))
    && (forall b :: b in net.place && net.place[b] == Producer ==>
          (b in net.mem && b in net'.place && b in net'.mem && net'.place[b] == Producer && net'.mem[b] == net.mem[b]))
  }

  /** How a buffer's owner may change without the producer: from a queue to its consumer, and from
      either to the pool. */
  predicate Moves(p: Place, p': Place) {
    p' == p || (p.Queued? && (p' == Taken(p.listener) || p' == Pool)) || (p.Taken? && p' == Pool)
  }

  ghost predicate Passed(place: map<nat, Place>, place': map<nat, Place>) {
    place'.Keys == place.Keys && forall x :: x in place ==> Moves(place[x], place'[x])
  }

  /** As consumers may, except for the buffer c in the producer's hands. */
  ghost predicate MovedOn(place: map<nat, Place>, place': map<nat, Place>, c: nat) {
    place'.Keys == place.Keys && forall x :: x in place && x != c ==> Moves(place[x], place'[x])
  }

  lemma PassedThenPut(place: map<nat, Place>, place': map<nat, Place>, c: nat, p: Place)
    requires Passed(place, place') && c in place
    ensures MovedOn(place, place'[c := p], c) && MovedOn(place, place', c)
  {
  }

  ghost predicate DrainedListener(net: Net, net': Net, l: nat)
    requires l in net.all && l in net'.all
  {
    var x, y := net.all[l], net'.all[l];
    && |y.queue| <= |x.queue| && y.queue == x.queue[|x.queue| - |y.queue|..]
    && Received(net', l) == Received(net, l)
    && y.closed == x.closed && y.err == x.err && y.headersReady == x.headersReady && y.headerErr == x.headerErr
  }

  /** The listeners among ids that are still open, in order. */
  function StillOpen(ids: seq<nat>, all: map<nat, Listener>): seq<nat> {
    if ids == [] then []
    else StillOpen(ids[..|ids| - 1], all)
         + if ids[|ids| - 1] in all && !all[ids[|ids| - 1]].closed then [ids[|ids| - 1]] else []
  }

  function Enqueue(net: Net, l: nat, b: nat): Net
    requires l in net.all
  {
    var x := net.all[l];
    net.(all := net.all[l := x.(queue := x.queue + [Buf(b)])], place := net.place[b := Queued(l)])
  }

  /** Record the terminal error and close; the terminal chunk is queued only if there is room. */
  function CloseWithError(net: Net, l: nat, err: Option<Err>, limit: nat): Net
    requires l in net.all
  {
    var x := net.all[l];
    net.(all := net.all[l := x.(closed := true, err := err,
                                queue := if |x.queue| < limit then x.queue + [End(err)] else x.queue)])
  }

  lemma {:induction false} SameContents(queue: seq<Item>, mem: map<nat, Bytes>, mem': map<nat, Bytes>)
    requires forall i :: 0 <= i < |queue| && queue[i].Buf? ==>
               (queue[i].id in mem && queue[i].id in mem' && mem'[queue[i].id] == mem[queue[i].id])
    ensures Contents(queue, mem') == Contents(queue, mem)
  {
    if queue != [] { SameContents(queue[..|queue| - 1], mem, mem'); }
  }

  /** A listener whose own state and buffers did not change stays sound. */
  lemma StaysSound(net: Net, net': Net, k: nat, limit: nat)
    requires k in net.all && k in net'.all && net'.all[k] == net.all[k] && SoundListener(net, k, limit)
    requires forall b :: b in net.place && b in net.mem && net.place[b] == Queued(k) ==>
               b in net'.place && b in net'.mem && net'.place[b] == Queued(k) && net'.mem[b] == net.mem[b]
    ensures SoundListener(net', k, limit) && Received(net', k) == Received(net, k)
  {
    SameContents(net.all[k].queue, net.mem, net'.mem);
  }

  lemma QueueGrows(net: Net, l: nat, b: nat, limit: nat)
    requires l in net.all && SoundListener(net, l, limit) && !net.all[l].closed && |net.all[l].queue| < limit
    requires b in net.place && b in net.mem && net.place[b] == Producer
    ensures var net' := Enqueue(net, l, b);
            SoundListener(net', l, limit) && Received(net', l) == Received(net, l) + [net.mem[b]]
  {
    var q := net.all[l].queue;
    assert (q + [Buf(b)])[..|q|] == q;
  }

  lemma EnqueueAdds(net: Net, l: nat, b: nat, limit: nat)
    requires Sound(net, limit) && l in net.all && !net.all[l].closed && |net.all[l].queue| < limit
    requires b in net.place && b in net.mem && net.place[b] == Producer
    ensures var net' := Enqueue(net, l, b);
            && Sound(net', limit)
            && Received(net', l) == Received(net, l) + [net.mem[b]]
            && (forall k :: k in net.all && k != l ==> Received(net', k) == Received(net, k))
  {
    var net' := Enqueue(net, l, b);
    assert SoundListener(net, l, limit);
    QueueGrows(net, l, b, limit);
    forall k | k in net'.all && k != l ensures SoundListener(net', k, limit) && Received(net', k) == Received(net, k) {
      assert SoundListener(net, k, limit);
      StaysSound(net, net', k, limit);
    }
    hide SoundListener, Received;
    forall c | c in net'.place && net'.place[c].Queued?
      ensures net'.place[c].listener in net'.all && Buf(c) in net'.all[net'.place[c].listener].queue
    {
      if c == b { assert net'.all[l].queue[|net.all[l].queue|] == Buf(b); }
    }
  }

  lemma CloseOne(net: Net, l: nat, err: Option<Err>, limit: nat)
    requires l in net.all && SoundListener(net, l, limit) && !net.all[l].closed
    ensures var net' := CloseWithError(net, l, err, limit);
            SoundListener(net', l, limit) && Received(net', l) == Received(net, l)
    ensures var net' := CloseWithError(net, l, err, limit);
            && net'.mem == net.mem && net'.place == net.place && net'.all == net.all[l := net'.all[l]]
            && (net'.all[l].queue == net.all[l].queue || net'.all[l].queue == net.all[l].queue + [End(err)])
  {
    EndAddsNothing(net.all[l].queue, err, net.mem);
    hide Contents;
  }

  lemma EndAddsNothing(q: seq<Item>, err: Option<Err>, mem: map<nat, Bytes>)
    ensures Contents(q + [End(err)], mem) == Contents(q, mem)
  {
    assert (q + [End(err)])[..|q|] == q;
  }

  lemma CloseKeeps(net: Net, l: nat, err: Option<Err>, limit: nat)
    requires Sound(net, limit) && l in net.all && !net.all[l].closed
    ensures var net' := CloseWithError(net, l, err, limit);
            && Sound(net', limit) && (forall k :: k in net.all ==> Received(net', k) == Received(net, k))
  {
    var net' := CloseWithError(net, l, err, limit);
    hide Contents;
    SoundOne(net, l, limit);
    CloseOne(net, l, err, limit);
    hide CloseWithError, Sound, SoundListener;
    Replaced(net, net', l, limit);
  }

  lemma SoundOne(net: Net, l: nat, limit: nat)
    requires Sound(net, limit) && l in net.all
    ensures SoundListener(net, l, limit)
  {
  }

  /** One listener's own state changed, its queue at most by growing. */
  lemma Replaced(net: Net, net': Net, l: nat, limit: nat)
    requires Sound(net, limit) && l in net.all && net'.mem == net.mem && net'.place == net.place
    requires l in net'.all && net'.all == net.all[l := net'.all[l]]
    requires SoundListener(net', l, limit) && net.all[l].queue <= net'.all[l].queue
    ensures Sound(net', limit) && forall k :: k in net.all && k != l ==> Received(net', k) == Received(net, k)
  {
    hide Contents;
    forall k | k in net.all && k != l ensures SoundListener(net', k, limit) && Received(net', k) == Received(net, k) {
      SoundOne(net, k, limit);
      StaysSound(net, net', k, limit);
    }
    hide SoundListener, Received;
    forall c | c in net'.place && net'.place[c].Queued?
      ensures net'.place[c].listener in net'.all && Buf(c) in net'.all[net'.place[c].listener].queue
    {
      assert net.place[c].listener in net.all && Buf(c) in net.all[net.place[c].listener].queue;
    }
  }

  /** The producer gives a buffer back. */
  lemma Pooled(net: Net, b: nat, limit: nat)
    requires Sound(net, limit) && b in net.place && net.place[b] == Producer
    ensures var net' := net.(place := net.place[b := Pool]);
            Sound(net', limit) && (forall k :: k in net.all ==> Received(net', k) == Received(net, k))
  {
    var net' := net.(place := net.place[b := Pool]);
    forall k | k in net'.all ensures SoundListener(net', k, limit) && Received(net', k) == Received(net, k) {
      assert SoundListener(net, k, limit);
      StaysSound(net, net', k, limit);
    }
    hide SoundListener, Received;
  }

  lemma Joined(net: Net, net': Net, id: nat, limit: nat)
    requires Sound(net, limit) && id !in net.all && 0 < limit
    requires net' == net.(all := net'.all) && id in net'.all && net'.all == net.all[id := net'.all[id]]
    requires net'.all[id].got == [] && (net'.all[id].queue == [] || (net'.all[id].closed && net'.all[id].queue == [End(net'.all[id].err)]))
    ensures Sound(net', limit) && Received(net', id) == []
    ensures forall k :: k in net.all ==> Received(net', k) == Received(net, k)
  {
    EndAddsNothing([], net'.all[id].err, net.mem);
    assert [] + [End(net'.all[id].err)] == [End(net'.all[id].err)];
    forall k | k in net.all ensures SoundListener(net', k, limit) && Received(net', k) == Received(net, k) {
      assert SoundListener(net, k, limit);
      StaysSound(net, net', k, limit);
    }
  }

  /** Listener l was sent one more chunk d, or dropped as too slow; no other listener is affected,
      except that consumers may have drained. */
  ghost predicate Offered(net: Net, net': Net, l: nat, d: Bytes, ok: bool, limit: nat)
    requires l in net.all
  {
    && net'.all.Keys == net.all.Keys
    && (forall k :: k in net.all && k != l ==> Untouched(net, net', k))
    && net'.all[l].closed == !ok
    && Received(net', l) == Received(net, l) + (if ok then [d] else [])
    && (!ok ==> net'.all[l].err == Some(SlowConsumer))
    && (|net.all[l].queue| < limit ==> ok)
  }

  ghost predicate Untouched(net: Net, net': Net, k: nat)
    requires k in net.all && k in net'.all
  {
    && Received(net', k) == Received(net, k) && |net'.all[k].queue| <= |net.all[k].queue|
    && net'.all[k].closed == net.all[k].closed && net'.all[k].err == net.all[k].err
  }

  lemma StillThere(net: Net, net': Net, l: nat)
    requires Drained(net, net') && l in net.all
    ensures l in net'.all && net'.all[l].closed == net.all[l].closed && |net'.all[l].queue| <= |net.all[l].queue|
  {
    assert DrainedListener(net, net', l);
  }

  lemma EnqueueOffers(net: Net, drained: Net, l: nat, c: nat, limit: nat)
    requires l in net.all && Drained(net, drained) && !net.all[l].closed
    requires c in net.mem && c in drained.mem && drained.mem[c] == net.mem[c]
    requires Received(Enqueue(drained, l, c), l) == Received(drained, l) + [drained.mem[c]]
    requires forall k :: k in drained.all && k != l ==> Received(Enqueue(drained, l, c), k) == Received(drained, k)
    ensures var net' := Enqueue(drained, l, c);
            Offered(net, net', l, net.mem[c], true, limit) && net'.mem == drained.mem && net'.place == drained.place[c := Queued(l)]
  {
    hide Received;
    forall k | k in net.all && k != l ensures Untouched(net, Enqueue(drained, l, c), k) {
      assert DrainedListener(net, drained, k);
    }
    assert DrainedListener(net, drained, l);
  }

  lemma CloseOffers(net: Net, drained: Net, l: nat, d: Bytes, limit: nat)
    requires l in net.all && Drained(net, drained) && |drained.all[l].queue| >= limit
    requires forall k :: k in drained.all ==>
               Received(CloseWithError(drained, l, Some(SlowConsumer), limit), k) == Received(drained, k)
    ensures var net' := CloseWithError(drained, l, Some(SlowConsumer), limit);
            Offered(net, net', l, d, false, limit) && net'.mem == drained.mem && net'.place == drained.place
  {
    hide Received;
    forall k | k in net.all && k != l ensures Untouched(net, CloseWithError(drained, l, Some(SlowConsumer), limit), k) {
      assert DrainedListener(net, drained, k);
    }
    assert DrainedListener(net, drained, l);
  }

  lemma OfferedMeans(net: Net, net': Net, l: nat, d: Bytes, ok: bool, limit: nat)
    requires l in net.all && Offered(net, net', l, d, ok, limit)
    ensures net'.all.Keys == net.all.Keys && net'.all[l].closed == !ok
    ensures |net.all[l].queue| < limit ==> ok
  {
  }

  /** What offering listener l a copy does to buffers: those that were owned only moved on, and a free or
      new one is free still unless l took it. */
  ghost predicate Handed(place: map<nat, Place>, place': map<nat, Place>, l: nat, ok: bool) {
    && place.Keys <= place'.Keys
    && (forall x :: x in place' ==>
          if x in place && place[x] != Pool then Moves(place[x], place'[x])
          else place'[x] == Pool || (ok && place'[x] == Queued(l)))
  }

  lemma HandedOver(place: map<nat, Place>, place': map<nat, Place>, l: nat, c: nat, ok: bool)
    requires c !in place || place[c] == Pool
    requires MovedOn(place[c := Producer], place', c) && c in place' && (ok ==> place'[c] == Queued(l))
    ensures Handed(place, if ok then place' else place'[c := Pool], l, ok)
  {
  }

  /** No copy goes astray: the producer holds no buffer it did not hold before, and a buffer that was
      free is free again or with a listener that kept up. */
  ghost predicate Homed(place: map<nat, Place>, net: Net, ids: seq<nat>) {
    forall x :: x in net.place ==> HomedOne(place, net, ids, x)
  }

  ghost predicate HomedOne(place: map<nat, Place>, net: Net, ids: seq<nat>, x: nat)
    requires x in net.place
  {
    var p := net.place[x];
    && (p == Producer ==> x in place && place[x] == Producer)
    && (x !in place || place[x] == Pool ==>
          p == Pool || ((p.Queued? || p.Taken?) && p.listener in ids && p.listener in net.all && !net.all[p.listener].closed))
  }

  lemma HomedStep(place: map<nat, Place>, net: Net, net': Net, ids: seq<nat>, i: int, d: Bytes, ok: bool, limit: nat)
    requires 0 <= i < |ids| && Distinct(ids) && Homed(place, net, ids[..i])
    requires ids[i] in net.all && Offered(net, net', ids[i], d, ok, limit) && Handed(net.place, net'.place, ids[i], ok)
    ensures Homed(place, net', ids[..i + 1])
  {
    hide Received;
    assert ids[..i + 1] == ids[..i] + [ids[i]] && ids[i] !in ids[..i];
    forall x | x in net'.place ensures HomedOne(place, net', ids[..i + 1], x) {
      if x in net.place {
        assert HomedOne(place, net, ids[..i], x);
        var p := net.place[x];
        if (p.Queued? || p.Taken?) && p.listener in ids[..i] && p.listener in net.all {
          assert Untouched(net, net', p.listener);
        }
      }
    }
  }

  /** Handing the owner the input itself: every other buffer only moves on. */
  lemma HomedOwner(place: map<nat, Place>, net: Net, net': Net, ids: seq<nat>, owner: nat, b: nat, d: Bytes, limit: nat)
    requires Homed(place, net, ids) && b in place && place[b] == Producer
    requires owner in net.all && !net.all[owner].closed && Offered(net, net', owner, d, true, limit)
    requires MovedOn(net.place, net'.place, b) && b in net'.place && net'.place[b] == Queued(owner)
    ensures Homed(place, net', ids)
  {
    hide Received;
    forall x | x in net'.place ensures HomedOne(place, net', ids, x) {
      assert HomedOne(place, net, ids, x);
      var p := net.place[x];
      if x != b && (p.Queued? || p.Taken?) && p.listener in net.all && p.listener != owner {
        assert Untouched(net, net', p.listener);
      }
    }
  }

  lemma ProgressMeans(net0: Net, net: Net, ids: seq<nat>, i: int, skip: int, sent: seq<Bytes>, b: nat, d: Bytes, limit: nat)
    requires InProgress(net0, net, ids, i, skip, sent, b, d, limit)
    ensures Sound(net, limit) && net.all.Keys == net0.all.Keys
    ensures Offering(net, ids, i, skip, sent, d) && Fair(net0, net, ids, i, skip, limit)
    ensures b in net.place && b in net.mem && net.place[b] == Producer && net.mem[b] == d
    ensures 0 <= i <= |ids| && Homed(net0.place, net, ids[..i])
    ensures b in net0.place && net0.place[b] == Producer
  {
    assert HomedOne(net0.place, net, ids[..i], b);
  }

  /** A listener has a prefix of everything broadcast; all of it while it is open, and all of it if
      it was closed without an error. */
  ghost predicate Informed(net: Net, ids: seq<nat>, sent: seq<Bytes>, done: bool, headerSet: bool, l: nat)
    requires l in net.all
  {
    && Received(net, l) <= sent
    && (!net.all[l].closed ==> Received(net, l) == sent && l in ids)
    && (net.all[l].closed && net.all[l].err == None ==> done && headerSet && Received(net, l) == sent)
  }

  /** The broadcaster's state, with registered listeners ids. */
  ghost predicate Consistent(net: Net, ids: seq<nat>, sent: seq<Bytes>, streaming: bool, done: bool, headerSet: bool,
                             err: Option<Err>, limit: nat)
  {
    && 0 < limit && Sound(net, limit) && Distinct(ids)
    && (forall k :: 0 <= k < |ids| ==> ids[k] in net.all && net.all[ids[k]].closed == done)
    && (forall l :: l in net.all ==> Informed(net, ids, sent, done, headerSet, l))
    && (!streaming ==> sent == [])
    && (done && err == None ==> headerSet)
  }

  predicate Distinct(ids: seq<nat>) {
    forall i, j :: 0 <= i < j < |ids| ==> ids[i] != ids[j]
  }

  /** Where one chunk d has got to after i of the listeners ids were offered it, leaving out skip. */
  ghost predicate Offering(net: Net, ids: seq<nat>, i: int, skip: int, sent: seq<Bytes>, d: Bytes) {
    && (forall k :: 0 <= k < |ids| ==> ids[k] in net.all && AtStage(net, ids[k], k < i && k != skip, sent, d))
    && (forall l :: l in net.all && l !in ids ==> Gone(net, l, sent))
  }

  ghost predicate AtStage(net: Net, l: nat, offered: bool, sent: seq<Bytes>, d: Bytes)
    requires l in net.all
  {
    if net.all[l].closed then offered && net.all[l].err == Some(SlowConsumer) && Received(net, l) == sent
    else Received(net, l) == if offered then sent + [d] else sent
  }

  ghost predicate Gone(net: Net, l: nat, sent: seq<Bytes>)
    requires l in net.all
  {
    net.all[l].closed && net.all[l].err.Some? && Received(net, l) <= sent
  }

  /** A listener with room at the start is not dropped: nobody but the broadcaster fills its queue. */
  ghost predicate Fair(net0: Net, net: Net, ids: seq<nat>, i: int, skip: int, limit: nat) {
    forall k :: 0 <= k < |ids| && ids[k] in net0.all && ids[k] in net.all ==>
      if k < i && k != skip then |net0.all[ids[k]].queue| < limit ==> !net.all[ids[k]].closed
      else |net.all[ids[k]].queue| <= |net0.all[ids[k]].queue|
  }

  lemma OfferingStep(net0: Net, net: Net, net': Net, ids: seq<nat>, i: int, skip: int, sent: seq<Bytes>, d: Bytes, ok: bool, limit: nat)
    requires Distinct(ids) && 0 <= i < |ids| && i != skip
    requires Offering(net, ids, i, skip, sent, d) && Fair(net0, net, ids, i, skip, limit)
    requires Offered(net, net', ids[i], d, ok, limit)
    ensures Offering(net', ids, i + 1, skip, sent, d) && Fair(net0, net', ids, i + 1, skip, limit)
    ensures StillOpen(ids[..i], net'.all) == StillOpen(ids[..i], net.all)
    ensures forall a, b :: 0 <= a <= b <= i ==> StillOpen(ids[a..b], net'.all) == StillOpen(ids[a..b], net.all)
  {
    hide Received;
    forall k | 0 <= k < |ids| ensures ids[k] in net'.all && AtStage(net', ids[k], k < i + 1 && k != skip, sent, d) {
      if k != i { assert Untouched(net, net', ids[k]); }
    }
    forall l | l in net'.all && l !in ids ensures Gone(net', l, sent) {
      assert Untouched(net, net', l);
    }
    forall k | 0 <= k < i ensures net'.all[ids[k]].closed == net.all[ids[k]].closed {
      assert Untouched(net, net', ids[k]);
    }
    forall a, b | 0 <= a <= b <= i ensures StillOpen(ids[a..b], net'.all) == StillOpen(ids[a..b], net.all) {
      SameOpen(ids[a..b], net.all, net'.all);
    }
    assert ids[0..i] == ids[..i];
  }

  /** Everything a broadcast in progress keeps, after i listeners. */
  ghost predicate InProgress(net0: Net, net: Net, ids: seq<nat>, i: int, skip: int, sent: seq<Bytes>, b: nat, d: Bytes, limit: nat) {
    && Sound(net, limit) && net.all.Keys == net0.all.Keys
    && Offering(net, ids, i, skip, sent, d) && Fair(net0, net, ids, i, skip, limit)
    && b in net.place && b in net.mem && net.place[b] == Producer && net.mem[b] == d
    && 0 <= i <= |ids| && Homed(net0.place, net, ids[..i])
  }

  /** The listener at i is open when its turn comes. */
  lemma TurnOf(net: Net, ids: seq<nat>, i: int, skip: int, sent: seq<Bytes>, d: Bytes)
    requires Offering(net, ids, i, skip, sent, d) && 0 <= i < |ids|
    ensures ids[i] in net.all && !net.all[ids[i]].closed
  {
    assert AtStage(net, ids[i], false, sent, d);
  }

  /** After all were offered d: whoever is open has it, whoever is not knows why and has a prefix. */
  lemma StageInforms(net: Net, ids: seq<nat>, sent: seq<Bytes>, d: Bytes, l: nat)
    requires Offering(net, ids, |ids|, -1, sent, d) && l in net.all
    ensures Received(net, l) <= sent + [d]
    ensures !net.all[l].closed ==> l in ids && Received(net, l) == sent + [d]
    ensures net.all[l].closed ==> net.all[l].err.Some?
    ensures net.all[l].closed && l in ids ==> net.all[l].err == Some(SlowConsumer) && Received(net, l) == sent
  {
    hide Received;
    if l in ids {
      var k :| 0 <= k < |ids| && ids[k] == l;
      assert AtStage(net, ids[k], true, sent, d);
    } else {
      assert Gone(net, l, sent);
    }
  }

  /** One broadcast's effect on the listeners ids: one with room at the start was not dropped, and one
      that was dropped was told so and holds exactly what was sent before. */
  ghost predicate Served(net0: Net, net: Net, ids: seq<nat>, sent0: seq<Bytes>, limit: nat) {
    forall l :: l in ids ==>
      && l in net0.all && l in net.all
      && (|net0.all[l].queue| < limit ==> !net.all[l].closed)
      && (net.all[l].closed ==> net.all[l].err == Some(SlowConsumer) && Received(net, l) == sent0)
  }

  lemma Outcome(net0: Net, net: Net, ids: seq<nat>, sent0: seq<Bytes>, d: Bytes, limit: nat)
    requires Offering(net, ids, |ids|, -1, sent0, d) && Fair(net0, net, ids, |ids|, -1, limit)
    requires net.all.Keys == net0.all.Keys
    ensures Served(net0, net, ids, sent0, limit)
  {
    hide Received;
    forall l | l in ids
      ensures l in net0.all && l in net.all && (|net0.all[l].queue| < limit ==> !net.all[l].closed)
      ensures net.all[l].closed ==> net.all[l].err == Some(SlowConsumer) && Received(net, l) == sent0
    {
      var k :| 0 <= k < |ids| && ids[k] == l;
      StageInforms(net, ids, sent0, d, l);
    }
  }

  lemma SkipOwner(net0: Net, net: Net, ids: seq<nat>, o: int, sent: seq<Bytes>, b: nat, d: Bytes, limit: nat)
    requires InProgress(net0, net, ids, o, o, sent, b, d, limit) && o < |ids|
    ensures InProgress(net0, net, ids, o + 1, o, sent, b, d, limit)
  {
    hide Received, Sound;
    assert ids[..o + 1] == ids[..o] + [ids[o]];
    forall x | x in net.place ensures HomedOne(net0.place, net, ids[..o + 1], x) {
      assert HomedOne(net0.place, net, ids[..o], x);
    }
    forall k | 0 <= k < |ids| ensures ids[k] in net.all && AtStage(net, ids[k], k < o + 1 && k != o, sent, d) {
      assert AtStage(net, ids[k], k < o && k != o, sent, d);
    }
  }

  lemma Kept(all: map<nat, Listener>, all': map<nat, Listener>, ids: seq<nat>, i: int, x: int, y: int)
    requires 0 <= x <= y <= i <= |ids| && KeptOpen(all, all', ids, i)
    ensures StillOpen(ids[x..y], all') == StillOpen(ids[x..y], all)
  {
  }

  predicate SameClosed(ids: seq<nat>, all: map<nat, Listener>, all': map<nat, Listener>) {
    forall k :: 0 <= k < |ids| ==> ids[k] in all && ids[k] in all' && all'[ids[k]].closed == all[ids[k]].closed
  }

  lemma {:induction false} SameOpen(ids: seq<nat>, all: map<nat, Listener>, all': map<nat, Listener>)
    requires SameClosed(ids, all, all')
    ensures StillOpen(ids, all') == StillOpen(ids, all)
  {
    if ids != [] { SameOpen(ids[..|ids| - 1], all, all'); }
  }

  ghost predicate KeptOpen(all: map<nat, Listener>, all': map<nat, Listener>, ids: seq<nat>, i: int)
    requires i <= |ids|
  {
    forall x, y :: 0 <= x <= y <= i ==> StillOpen(ids[x..y], all') == StillOpen(ids[x..y], all)
  }

  /** kept is what compaction has left of the first i listeners without the one at o, which belongs
      at position p once it has been passed. */
  ghost predicate Compacted(kept: seq<nat>, p: int, ids: seq<nat>, i: int, o: int, all: map<nat, Listener>)
    requires 0 <= i <= |ids|
  {
    if 0 <= o < i then
      0 <= p <= |kept| < i && kept[..p] == StillOpen(ids[0..o], all) && kept[p..] == StillOpen(ids[o + 1..i], all)
    else
      |kept| <= i && kept == StillOpen(ids[0..i], all) && p == if o >= 0 then |kept| else 0
  }

  ghost predicate HasRoom(net: Net, ids: seq<nat>, limit: nat) {
    exists k :: 0 <= k < |ids| && ids[k] in net.all && |net.all[ids[k]].queue| < limit
  }

  lemma CompactedNone(ids: seq<nat>, o: int, all: map<nat, Listener>)
    ensures Compacted([], 0, ids, 0, o, all)
  {
  }

  lemma CompactedSkip(kept: seq<nat>, p: int, ids: seq<nat>, o: int, all: map<nat, Listener>)
    requires 0 <= o < |ids| && Compacted(kept, p, ids, o, o, all)
    ensures Compacted(kept, p, ids, o + 1, o, all)
  {
    assert ids[o + 1..o + 1] == [];
  }

  lemma CompactedStep(kept: seq<nat>, p: int, ids: seq<nat>, i: int, o: int, all: map<nat, Listener>, all': map<nat, Listener>, ok: bool)
    requires 0 <= i < |ids| && i != o && Compacted(kept, p, ids, i, o, all) && KeptOpen(all, all', ids, i)
    requires ids[i] in all' && all'[ids[i]].closed == !ok
    ensures Compacted(if ok then kept + [ids[i]] else kept, if ok && i < o then p + 1 else p, ids, i + 1, o, all')
  {
    hide StillOpen;
    if 0 <= o < i {
      OpenOneMore(ids, o + 1, i, all');
    } else {
      OpenOneMore(ids, 0, i, all');
    }
  }

  lemma CompactedAll(kept: seq<nat>, p: int, ids: seq<nat>, all: map<nat, Listener>)
    requires Compacted(kept, p, ids, |ids|, -1, all)
    ensures kept == StillOpen(ids, all)
  {
    assert ids[0..|ids|] == ids;
  }

  /** Re-inserting the open owner restores the order of all open listeners. */
  lemma OwnerInserted(kept: seq<nat>, p: int, ids: seq<nat>, o: int, all: map<nat, Listener>, all': map<nat, Listener>)
    requires 0 <= o < |ids| && Compacted(kept, p, ids, |ids|, o, all)
    requires SameClosed(ids, all, all') && !all[ids[o]].closed
    ensures 0 <= p <= |kept| < |ids| && kept[..p] + [ids[o]] + kept[p..] == StillOpen(ids, all')
  {
    hide StillOpen;
    SameOpen(ids, all, all');
    OpenOneMore(ids, 0, o, all);
    OpenConcat(ids[0..o + 1], ids[o + 1..], all);
    assert ids[0..o + 1] + ids[o + 1..] == ids && ids[o + 1..] == ids[o + 1..|ids|];
  }

  lemma {:induction false} OpenConcat(x: seq<nat>, y: seq<nat>, all: map<nat, Listener>)
    ensures StillOpen(x + y, all) == StillOpen(x, all) + StillOpen(y, all)
  {
    if y == [] {
      assert x + y == x;
    } else {
      OpenConcat(x, y[..|y| - 1], all);
      assert (x + y)[..|x + y| - 1] == x + y[..|y| - 1];
    }
  }

  /** The owner chosen for its room still has it when its turn comes, last. */
  lemma OwnerHasRoom(net0: Net, net: Net, ids: seq<nat>, o: int, sent: seq<Bytes>, d: Bytes, limit: nat)
    requires Offering(net, ids, |ids|, o, sent, d) && Fair(net0, net, ids, |ids|, o, limit)
    requires 0 <= o < |ids| && ids[o] in net0.all && |net0.all[ids[o]].queue| < limit
    ensures ids[o] in net.all && !net.all[ids[o]].closed && |net.all[ids[o]].queue| < limit
  {
    assert AtStage(net, ids[o], false, sent, d);
  }

  lemma OwnerStep(net0: Net, net: Net, net': Net, ids: seq<nat>, o: int, sent: seq<Bytes>, d: Bytes, limit: nat)
    requires Distinct(ids) && 0 <= o < |ids|
    requires Offering(net, ids, |ids|, o, sent, d) && Fair(net0, net, ids, |ids|, o, limit)
    requires ids[o] in net.all && Offered(net, net', ids[o], d, true, limit) && !net.all[ids[o]].closed
    ensures Offering(net', ids, |ids|, -1, sent, d) && Fair(net0, net', ids, |ids|, -1, limit)
    ensures net'.all.Keys == net.all.Keys
    ensures SameClosed(ids, net.all, net'.all)
  {
    hide Received;
    forall k | 0 <= k < |ids|
      ensures ids[k] in net'.all && AtStage(net', ids[k], true, sent, d)
      ensures ids[k] in net.all && net'.all[ids[k]].closed == net.all[ids[k]].closed
    {
      assert AtStage(net, ids[k], k != o, sent, d);
      if k != o { assert Untouched(net, net', ids[k]); }
    }
    forall l | l in net'.all && l !in ids ensures Gone(net', l, sent) {
      assert Untouched(net, net', l);
    }
  }

  lemma OpenOneMore(ids: seq<nat>, a: int, i: int, all: map<nat, Listener>)
    requires 0 <= a <= i < |ids|
    ensures StillOpen(ids[a..i + 1], all)
         == StillOpen(ids[a..i], all) + if ids[i] in all && !all[ids[i]].closed then [ids[i]] else []
    ensures |StillOpen(ids[a..i], all)| <= i - a
  {
    var more := ids[a..i + 1];
    assert more[..|more| - 1] == ids[a..i] && more[|more| - 1] == ids[i];
    OpenAtMost(ids[a..i], all);
  }

  lemma NoneOpen(all: map<nat, Listener>)
    ensures StillOpen([], all) == []
  {
  }

  lemma {:induction false} OpenAtMost(ids: seq<nat>, all: map<nat, Listener>)
    ensures |StillOpen(ids, all)| <= |ids|
    ensures forall l :: l in StillOpen(ids, all) <==> l in ids && l in all && !all[l].closed
  {
    if ids != [] { OpenAtMost(ids[..|ids| - 1], all); }
  }

  lemma {:induction false} OpenDistinct(ids: seq<nat>, all: map<nat, Listener>)
    requires Distinct(ids)
    ensures Distinct(StillOpen(ids, all))
  {
    if ids != [] {
      OpenDistinct(ids[..|ids| - 1], all);
      OpenAtMost(ids[..|ids| - 1], all);
    }
  }

  /** All listeners were offered d: the state is consistent again, for the longer stream. */
  lemma Settled(net: Net, ids: seq<nat>, sent: seq<Bytes>, d: Bytes, headerSet: bool, err: Option<Err>, limit: nat)
    requires 0 < limit && Sound(net, limit) && Distinct(ids) && Offering(net, ids, |ids|, -1, sent, d)
    ensures Consistent(net, StillOpen(ids, net.all), sent + [d], true, false, headerSet, err, limit)
  {
    hide Received, Sound, StillOpen, Offering;
    OpenAtMost(ids, net.all);
    OpenDistinct(ids, net.all);
    var open := StillOpen(ids, net.all);
    forall k | 0 <= k < |open| ensures open[k] in net.all && !net.all[open[k]].closed { assert open[k] in open; }
    forall l | l in net.all ensures Informed(net, open, sent + [d], false, headerSet, l) {
      StageInforms(net, ids, sent, d, l);
    }
  }

  lemma Starting(net: Net, ids: seq<nat>, sent: seq<Bytes>, streaming: bool, headerSet: bool, err: Option<Err>,
                 b: nat, skip: int, limit: nat)
    requires Consistent(net, ids, sent, streaming, false, headerSet, err, limit)
    requires b in net.place && b in net.mem && net.place[b] == Producer
    ensures 0 < limit && Distinct(ids) && InProgress(net, net, ids, 0, skip, sent, b, net.mem[b], limit)
  {
    hide Received, Sound;
    forall l | l in net.all && l !in ids ensures Gone(net, l, sent) {
      assert Informed(net, ids, sent, false, headerSet, l);
    }
    forall k | 0 <= k < |ids| ensures AtStage(net, ids[k], false, sent, net.mem[b]) {
      assert Informed(net, ids, sent, false, headerSet, ids[k]);
    }
  }

  lemma NothingSent(net: Net, ids: seq<nat>, sent: seq<Bytes>, done: bool, headerSet: bool, err: Option<Err>, limit: nat)
    requires Consistent(net, ids, sent, false, done, headerSet, err, limit)
    ensures sent == [] && (done && err == None ==> headerSet)
  {
  }

  lemma JoinedConsistent(net: Net, net': Net, ids: seq<nat>, id: nat, streaming: bool, done: bool, headerSet: bool,
                         err: Option<Err>, limit: nat)
    requires Consistent(net, ids, [], streaming, done, headerSet, err, limit)
    requires id !in net.all && net' == net.(all := net'.all) && id in net'.all && net'.all == net.all[id := net'.all[id]]
    requires net'.all[id].got == [] && net'.all[id].closed == done && (done ==> net'.all[id].err == err)
    requires net'.all[id].queue == [] || (done && net'.all[id].queue == [End(err)])
    ensures Consistent(net', if done then ids else ids + [id], [], streaming, done, headerSet, err, limit)
    ensures Received(net', id) == []
  {
    hide Received, Sound, Informed;
    Joined(net, net', id, limit);
    var ids' := if done then ids else ids + [id];
    assert Distinct(ids');
    forall l | l in net'.all ensures Informed(net', ids', [], done, headerSet, l) {
      if l != id {
        assert Informed(net, ids, [], done, headerSet, l);
        StillInformed(net, net', ids, ids', done, headerSet, l);
      } else {
        NewcomerInformed(net', ids', done, headerSet, id);
      }
    }
  }

  lemma StillInformed(net: Net, net': Net, ids: seq<nat>, ids': seq<nat>, done: bool, headerSet: bool, l: nat)
    requires l in net.all && l in net'.all && Informed(net, ids, [], done, headerSet, l) && ids <= ids'
    requires Received(net', l) == Received(net, l) && net'.all[l] == net.all[l]
    ensures Informed(net', ids', [], done, headerSet, l)
  {
  }

  lemma NewcomerInformed(net: Net, ids: seq<nat>, done: bool, headerSet: bool, l: nat)
    requires l in net.all && Received(net, l) == [] && net.all[l].closed == done
    requires !done ==> l in ids
    requires done && net.all[l].err == None ==> headerSet
    ensures Informed(net, ids, [], done, headerSet, l)
  {
  }

  /** The first i of the listeners are closed with e, the rest are open; all have everything. */
  ghost predicate Closing(net: Net, ids: seq<nat>, i: int, sent: seq<Bytes>, e: Option<Err>) {
    && (forall k :: 0 <= k < |ids| ==> ids[k] in net.all && ClosingOne(net, ids[k], k < i, sent, e))
    && (forall l :: l in net.all && l !in ids ==> Gone(net, l, sent))
  }

  ghost predicate ClosingOne(net: Net, l: nat, closed: bool, sent: seq<Bytes>, e: Option<Err>)
    requires l in net.all
  {
    net.all[l].closed == closed && Received(net, l) == sent && (closed ==> net.all[l].err == e)
  }

  lemma ClosingStarts(net: Net, ids: seq<nat>, sent: seq<Bytes>, streaming: bool, headerSet: bool, err: Option<Err>,
                      e: Option<Err>, limit: nat)
    requires Consistent(net, ids, sent, streaming, false, headerSet, err, limit)
    ensures 0 < limit && Sound(net, limit) && Distinct(ids) && Closing(net, ids, 0, sent, e)
  {
    hide Received, Sound;
    forall k | 0 <= k < |ids| ensures ClosingOne(net, ids[k], false, sent, e) {
      assert Informed(net, ids, sent, false, headerSet, ids[k]);
    }
    forall l | l in net.all && l !in ids ensures Gone(net, l, sent) {
      assert Informed(net, ids, sent, false, headerSet, l);
    }
  }

  /** A change that leaves every listener's stream and closing as they were. */
  lemma ClosingStays(net: Net, net': Net, ids: seq<nat>, i: int, sent: seq<Bytes>, e: Option<Err>)
    requires Closing(net, ids, i, sent, e) && net'.all.Keys == net.all.Keys
    requires forall l :: l in net.all ==>
               Received(net', l) == Received(net, l) && net'.all[l].closed == net.all[l].closed && net'.all[l].err == net.all[l].err
    ensures Closing(net', ids, i, sent, e)
  {
    hide Received;
    forall k | 0 <= k < |ids| ensures ClosingOne(net', ids[k], k < i, sent, e) {
      assert ClosingOne(net, ids[k], k < i, sent, e);
    }
    forall l | l in net'.all && l !in ids ensures Gone(net', l, sent) { assert Gone(net, l, sent); }
  }

  lemma ClosingStep(net: Net, ids: seq<nat>, i: int, sent: seq<Bytes>, e: Option<Err>, limit: nat)
    requires Sound(net, limit) && Distinct(ids) && 0 <= i < |ids| && Closing(net, ids, i, sent, e)
    ensures ids[i] in net.all
    ensures var net' := CloseWithError(net, ids[i], e, limit); Sound(net', limit) && Closing(net', ids, i + 1, sent, e)
  {
    hide Received, Sound;
    assert ClosingOne(net, ids[i], false, sent, e);
    CloseKeeps(net, ids[i], e, limit);
    var net' := CloseWithError(net, ids[i], e, limit);
    forall k | 0 <= k < |ids| ensures ClosingOne(net', ids[k], k < i + 1, sent, e) {
      assert ClosingOne(net, ids[k], k < i, sent, e);
    }
    forall l | l in net'.all && l !in ids ensures Gone(net', l, sent) { assert Gone(net, l, sent); }
  }

  lemma Registered(net: Net, ids: seq<nat>, i: int, k: int, sent: seq<Bytes>, e: Option<Err>)
    requires Closing(net, ids, i, sent, e) && 0 <= k < |ids|
    ensures ids[k] in net.all
  {
  }

  lemma SentNothingYet(net: Net, ids: seq<nat>, sent: seq<Bytes>, streaming: bool, headerSet: bool, err: Option<Err>, limit: nat)
    requires Consistent(net, ids, sent, streaming, false, headerSet, err, limit)
    ensures !streaming ==> sent == []
  {
  }

  lemma DrainedKeeps(net: Net, net': Net)
    requires Drained(net, net')
    ensures net'.all.Keys == net.all.Keys
    ensures forall l :: l in net.all ==>
              Received(net', l) == Received(net, l) && net'.all[l].closed == net.all[l].closed && net'.all[l].err == net.all[l].err
  {
    hide Received;
    forall l | l in net.all
      ensures Received(net', l) == Received(net, l) && net'.all[l].closed == net.all[l].closed && net'.all[l].err == net.all[l].err
    {
      assert DrainedListener(net, net', l);
    }
  }

  lemma ClosingEnds(net: Net, ids: seq<nat>, sent: seq<Bytes>, streaming: bool, headerSet: bool, e: Option<Err>, limit: nat)
    requires 0 < limit && Sound(net, limit) && Distinct(ids) && Closing(net, ids, |ids|, sent, e)
    requires (!streaming ==> sent == []) && (e == None ==> headerSet)
    ensures Consistent(net, ids, sent, streaming, true, headerSet, e, limit)
    ensures forall k :: 0 <= k < |ids| ==> ids[k] in net.all && net.all[ids[k]].err == e && Received(net, ids[k]) == sent
  {
    hide Received, Sound;
    forall k | 0 <= k < |ids|
      ensures ids[k] in net.all && net.all[ids[k]].closed && net.all[ids[k]].err == e && Received(net, ids[k]) == sent
    {
      assert ClosingOne(net, ids[k], true, sent, e);
    }
    forall l | l in net.all ensures Informed(net, ids, sent, true, headerSet, l) {
      if l in ids {
        var k :| 0 <= k < |ids| && ids[k] == l;
        assert ClosingOne(net, ids[k], true, sent, e);
      } else {
        assert Gone(net, l, sent);
      }
    }
  }

  /** What a consumer concludes: a channel drained to its close without a terminal error delivered
      every byte that was broadcast, in order; with one, it delivered a prefix. Nothing is cut short
      silently, whether the terminal chunk found room or not. */
  lemma CleanEndIsWhole(net: Net, ids: seq<nat>, sent: seq<Bytes>, streaming: bool, done: bool, headerSet: bool,
                        err: Option<Err>, limit: nat, l: nat)
    requires Consistent(net, ids, sent, streaming, done, headerSet, err, limit)
    requires l in net.all && net.all[l].closed && net.all[l].queue == []
    ensures net.all[l].got <= sent
    ensures net.all[l].err == None ==> net.all[l].got == sent && done && headerSet
  {
    assert Informed(net, ids, sent, done, headerSet, l);
  }

  /** Publish headers, or a completion before headers, to a listener. */
  function Announce(net: Net, l: nat, headerErr: Option<Err>): Net
    requires l in net.all
  {
    net.(all := net.all[l := net.all[l].(headersReady := true, headerErr := headerErr)])
  }

  lemma AnnounceKeeps(net: Net, l: nat, headerErr: Option<Err>, limit: nat)
    requires Sound(net, limit) && l in net.all
    ensures var net' := Announce(net, l, headerErr);
            Sound(net', limit) && forall k :: k in net.all ==> Received(net', k) == Received(net, k)
  {
    var net' := Announce(net, l, headerErr);
    SoundOne(net, l, limit);
    assert SoundListener(net', l, limit);
    hide Sound, SoundListener, Contents;
    Replaced(net, net', l, limit);
  }

  lemma HeadersKnown(net: Net, ids: seq<nat>, sent: seq<Bytes>, streaming: bool, done: bool, headerSet: bool, err: Option<Err>, limit: nat)
    requires Consistent(net, ids, sent, streaming, done, headerSet, err, limit)
    ensures Consistent(net, ids, sent, streaming, done, true, err, limit)
    ensures forall k :: 0 <= k < |ids| ==> ids[k] in net.all
  {
    hide Received, Sound;
    forall l | l in net.all ensures Informed(net, ids, sent, done, true, l) {
      assert Informed(net, ids, sent, done, headerSet, l);
    }
  }

  lemma AnnounceConsistent(net: Net, ids: seq<nat>, l: nat, sent: seq<Bytes>, streaming: bool, done: bool, err: Option<Err>, limit: nat)
    requires Consistent(net, ids, sent, streaming, done, true, err, limit) && l in net.all
    ensures var net' := Announce(net, l, net.all[l].headerErr);
            && Consistent(net', ids, sent, streaming, done, true, err, limit)
            && (forall k :: k in net.all ==> Received(net', k) == Received(net, k))
  {
    hide Received, Sound;
    AnnounceKeeps(net, l, net.all[l].headerErr, limit);
    var net' := Announce(net, l, net.all[l].headerErr);
    forall k | k in net'.all ensures Informed(net', ids, sent, done, true, k) {
      assert Informed(net, ids, sent, done, true, k);
    }
  }

  class Broadcaster {
    const limit: nat
    var net: Net
    var slots: array<nat>
    var n: nat
    var streaming: bool
    var done: bool
    var headerSet: bool
    var err: Option<Err>
    ghost var sent: seq<Bytes>

    /** The registered listeners, in order. */
    ghost function Slice(): seq<nat>
      requires n <= slots.Length
      reads this, slots
    {
      slots[..n]
    }

    ghost predicate Valid()
      reads this, slots
    {
      n <= slots.Length && Consistent(net, slots[..n], sent, streaming, done, headerSet, err, limit)
    }

    constructor (channelBuf: int)
      ensures Valid() && Slice() == [] && sent == [] && !done && !streaming && net.all == map[]
    {
      limit := if channelBuf <= 0 then 1024 else channelBuf;
      net := Net(map[], map[], map[]);
      slots := new nat[0];
      n, streaming, done, headerSet, err, sent := 0, false, false, false, None, [];
    }

    /** Consumers run. */
    method Consume()
      requires Sound(net, limit)
      modifies this`net
      ensures Sound(net, limit) && Drained(old(net), net)
    {
      assert forall l :: l in net.all ==> net.all[l].queue == net.all[l].queue[0..];
    }

    /** Take a buffer from the pool, or a new one, and copy b into it. */
    method CopyOf(b: nat) returns (c: nat)
      requires Sound(net, limit) && b in net.place && net.place[b] == Producer
      modifies this`net
      ensures Sound(net, limit) && net.all == old(net.all)
      ensures c != b && c in net.place && c in net.mem && net.place[c] == Producer && net.mem[c] == old(net.mem[b])
      ensures b in net.place && b in net.mem && net.place[b] == Producer && net.mem[b] == old(net.mem[b])
      ensures forall k :: k in net.all ==> Received(net, k) == old(Received(net, k))
      ensures c !in old(net.place) || old(net.place[c]) == Pool
      ensures net.place == old(net.place)[c := Producer]
    {
      var pooled: bool, candidate: nat := *, *;
      c := candidate;
      if !(pooled && c in net.place && net.place[c] == Pool) {
        c := Fresh(net.place.Keys);
      }
      ghost var before := net;
      net := net.(mem := net.mem[c := net.mem[b]], place := net.place[c := Producer]);
      forall k | k in net.all ensures SoundListener(net, k, limit) && Received(net, k) == Received(before, k) {
        assert SoundListener(before, k, limit);
        StaysSound(before, net, k, limit);
      }
      hide SoundListener, Received;
    }

    /** Non-blocking send of buffer c to listener l, whose consumer may drain just before. A full queue
        disconnects it, and the producer keeps the buffer. */
    method Deliver(l: nat, c: nat) returns (ok: bool)
      requires Sound(net, limit) && l in net.all && !net.all[l].closed
      requires c in net.place && c in net.mem && net.place[c] == Producer
      modifies this`net
      ensures Sound(net, limit) && Offered(old(net), net, l, old(net.mem[c]), ok, limit)
      ensures c in net.place && net.place[c] == (if ok then Queued(l) else Producer)
      ensures c in net.mem && net.mem[c] == old(net.mem[c])
      ensures forall x :: x in old(net).place && old(net).place[x] == Producer && x != c && x in old(net).mem ==>
                x in net.place && x in net.mem && net.place[x] == Producer && net.mem[x] == old(net).mem[x]
      ensures MovedOn(old(net).place, net.place, c)
    {
      hide Sound, SoundListener, Contents, Received, Passed, MovedOn, Offered, Enqueue, CloseWithError;
      ghost var before := net;
      Consume();
      PassedThenPut(before.place, net.place, c, Queued(l));
      StillThere(before, net, l);
      ok := |net.all[l].queue| < limit;
      if ok {
        EnqueueAdds(net, l, c, limit);
        EnqueueOffers(before, net, l, c, limit);
        net := Enqueue(net, l, c);
      } else {
        CloseKeeps(net, l, Some(SlowConsumer), limit);
        CloseOffers(before, net, l, before.mem[c], limit);
        net := CloseWithError(net, l, Some(SlowConsumer), limit);
      }
    }

    /** Offer listener l its own copy of buffer b; if it is dropped the copy goes back to the pool. */
    method OfferCopy(l: nat, b: nat) returns (ok: bool)
      requires Sound(net, limit) && l in net.all && !net.all[l].closed
      requires b in net.place && b in net.mem && net.place[b] == Producer
      modifies this`net
      ensures Sound(net, limit) && Offered(old(net), net, l, old(net.mem[b]), ok, limit)
      ensures b in net.place && b in net.mem && net.place[b] == Producer && net.mem[b] == old(net.mem[b])
      ensures Handed(old(net.place), net.place, l, ok)
    {
      hide Sound, SoundListener, Contents, Received, MovedOn, Handed;
      ghost var before := net.place;
      var c := CopyOf(b);
      ok := Deliver(l, c);
      HandedOver(before, net.place, l, c, ok);
      if !ok {
        Pooled(net, c, limit);
        net := net.(place := net.place[c := Pool]);
      }
    }

    /** Copying broadcast: every open listener is offered its own copy of the caller's buffer b. The
        listeners that keep up get the chunk and stay, in order; one with room is never dropped; a
        dropped one holds exactly what was sent before, and learns of it, and its copy goes back to the
        pool. The caller keeps b. An empty chunk is ignored. */
    method Broadcast(b: nat)
      requires Valid() && !done && b in net.place && b in net.mem && net.place[b] == Producer
      modifies this, slots
      ensures Valid() && slots == old(slots) && !done && headerSet == old(headerSet)
      ensures old(net.mem[b]) == [] ==>
                net == old(net) && Slice() == old(Slice()) && sent == old(sent) && streaming == old(streaming)
      ensures old(net.mem[b]) != [] ==>
                && sent == old(sent) + [old(net.mem[b])] && streaming
                && Slice() == StillOpen(old(Slice()), net.all)
                && Served(old(net), net, old(Slice()), old(sent), limit)
                && Homed(old(net.place), net, old(Slice()))
      ensures b in net.place && b in net.mem && net.place[b] == Producer && net.mem[b] == old(net.mem[b])
    {
      hide Received, StillOpen, InProgress, Offering, Fair, Sound, Consistent, Distinct, KeptOpen, Served, Homed;
      if net.mem[b] == [] { return; }
      Starting(net, Slice(), sent, streaming, headerSet, err, b, -1, limit);
      ghost var ids, d, net0, sent0 := Slice(), net.mem[b], net, sent;
      streaming := true;
      var w, i, count := 0, 0, n;
      NoneOpen(net.all);
      assert ids[0..0] == [];
      while i < count
        invariant 0 <= w <= i <= count == n == |ids| <= slots.Length
        invariant slots == old(slots) && !done && streaming && headerSet == old(headerSet) && sent == sent0
        invariant InProgress(net0, net, ids, i, -1, sent0, b, d, limit)
        invariant forall k :: i <= k < n ==> slots[k] == ids[k]
        invariant slots[..w] == StillOpen(ids[0..i], net.all)
      {
        var l := slots[i];
        ghost var before := net;
        var ok := OfferAt(l, b, net0, ids, i, -1, sent0, d);
        Kept(before.all, net.all, ids, i, 0, i);
        OpenOneMore(ids, 0, i, net.all);
        if ok {
          slots[w] := l;
          w := w + 1;
        }
        i := i + 1;
      }
      n := w;
      sent := sent + [d];
      assert ids[0..count] == ids && ids[..i] == ids;
      ProgressMeans(net0, net, ids, i, -1, sent0, b, d, limit);
      Settled(net, ids, sent0, d, headerSet, err, limit);
      Outcome(net0, net, ids, sent0, d, limit);
    }

    /** Offer a copy of b to the listener whose turn it is. */
    method OfferAt(l: nat, b: nat, ghost net0: Net, ghost ids: seq<nat>, ghost i: int, ghost skip: int, ghost sent0: seq<Bytes>, ghost d: Bytes)
      returns (ok: bool)
      requires Distinct(ids) && 0 <= i < |ids| && i != skip && l == ids[i]
      requires InProgress(net0, net, ids, i, skip, sent0, b, d, limit)
      modifies this`net
      ensures InProgress(net0, net, ids, i + 1, skip, sent0, b, d, limit)
      ensures l in net.all && net.all[l].closed == !ok
      ensures KeptOpen(old(net.all), net.all, ids, i)
    {
      hide Received, Sound, Offered, Offering, Fair, StillOpen, Homed, Handed;
      TurnOf(net, ids, i, skip, sent0, d);
      ghost var before := net;
      ok := OfferCopy(l, b);
      OfferedMeans(before, net, l, d, ok, limit);
      OfferingStep(net0, before, net, ids, i, skip, sent0, d, ok, limit);
      HomedStep(net0.place, before, net, ids, i, d, ok, limit);
    }

    /** The first listener with room, if there is one. */
    method FindOwner() returns (o: int)
      requires Valid() && !done
      ensures -1 <= o < n
      ensures o >= 0 ==> slots[o] in net.all && |net.all[slots[o]].queue| < limit
      ensures forall k :: 0 <= k < o ==> slots[k] in net.all && |net.all[slots[k]].queue| >= limit
      ensures o >= 0 <==> HasRoom(net, Slice(), limit)
    {
      hide Sound, Informed;
      o := 0;
      while o < n
        invariant 0 <= o <= n
        invariant forall k :: 0 <= k < o ==> slots[k] in net.all && |net.all[slots[k]].queue| >= limit
      {
        if |net.all[slots[o]].queue| < limit { return; }
        o := o + 1;
      }
      o := -1;
    }

    /** Offer copies of b to all listeners but the one at o, compacting the slice in place; p is where
        the one left out belongs. */
    method OfferOthers(o: int, b: nat) returns (w: nat, p: nat)
      requires Valid() && !done && -1 <= o < n
      requires b in net.place && b in net.mem && net.place[b] == Producer
      modifies this`net, slots
      ensures InProgress(old(net), net, old(Slice()), n, o, sent, b, old(net.mem[b]), limit)
      ensures Distinct(old(Slice())) && w <= n <= slots.Length
      ensures Compacted(slots[..w], p, old(Slice()), n, o, net.all)
    {
      hide Received, StillOpen, InProgress, Offering, Fair, Sound, Consistent, Distinct, KeptOpen, Compacted;
      Starting(net, Slice(), sent, streaming, headerSet, err, b, o, limit);
      ghost var ids, d, net0 := Slice(), net.mem[b], net;
      w, p := 0, 0;
      CompactedNone(ids, o, net.all);
      for i := 0 to n
        invariant w <= i && InProgress(net0, net, ids, i, o, sent, b, d, limit)
        invariant forall k :: i <= k < n ==> slots[k] == ids[k]
        invariant Compacted(slots[..w], p, ids, i, o, net.all)
      {
        if i == o {
          SkipOwner(net0, net, ids, i, sent, b, d, limit);
          CompactedSkip(slots[..w], p, ids, i, net.all);
        } else {
          var l := slots[i];
          ghost var before, kept := net, slots[..w];
          var ok := OfferAt(l, b, net0, ids, i, o, sent, d);
          CompactedStep(kept, p, ids, i, o, before.all, net.all, ok);
          if ok {
            slots[w] := l;
            w := w + 1;
            if 0 <= o && i < o { p := p + 1; }
            assert slots[..w] == kept + [l];
          }
        }
      }
    }

    /** Put the owner back at its place among the w listeners kept. */
    method InsertOwner(owner: nat, w: nat, p: nat)
      requires p <= w < slots.Length
      modifies this`n, slots
      ensures slots == old(slots) && n == w + 1
      ensures slots[..n] == old(slots[..p]) + [owner] + old(slots[p..w])
    {
      forall k | p <= k < w { slots[k + 1] := slots[k]; }
      slots[p] := owner;
      n := w + 1;
    }

    /** Hand b itself to the owner at o, last. The send cannot fail: the owner had room, and only the
        broadcaster fills queues. */
    method HandToOwner(owner: nat, o: int, b: nat, ghost ids: seq<nat>, ghost net0: Net, ghost d: Bytes)
      requires 0 <= o < |ids| && Distinct(ids) && owner == ids[o] && owner in net0.all && |net0.all[owner].queue| < limit
      requires InProgress(net0, net, ids, |ids|, o, sent, b, d, limit)
      modifies this`net
      ensures Sound(net, limit) && net.all.Keys == net0.all.Keys
      ensures Offering(net, ids, |ids|, -1, sent, d) && Fair(net0, net, ids, |ids|, -1, limit)
      ensures SameClosed(ids, old(net.all), net.all)
      ensures b in net.place && b in net.mem && net.mem[b] == d
      ensures owner in net.all && !net.all[owner].closed && net.place[b] == Queued(owner)
      ensures Homed(net0.place, net, ids)
    {
      hide Received, InProgress, Offering, Fair, Distinct, Offered, Sound, Homed, MovedOn;
      assert ids[..|ids|] == ids;
      ProgressMeans(net0, net, ids, |ids|, o, sent, b, d, limit);
      OwnerHasRoom(net0, net, ids, o, sent, d, limit);
      ghost var before := net;
      var moved := Deliver(owner, b);
      OfferedMeans(before, net, owner, d, moved, limit);
      OwnerStep(net0, before, net, ids, o, sent, d, limit);
      HomedOwner(net0.place, before, net, ids, owner, b, d, limit);
    }

    /** Hand b to the owner and put the owner back in its place. */
    method GiveToOwner(owner: nat, o: int, b: nat, w: nat, p: nat, ghost ids: seq<nat>, ghost net0: Net, ghost d: Bytes)
      requires !done && 0 <= o < |ids| == n <= slots.Length && w <= n && Distinct(ids) && 0 < limit
      requires owner == ids[o] && owner in net0.all && |net0.all[owner].queue| < limit
      requires InProgress(net0, net, ids, |ids|, o, sent, b, d, limit)
      requires Compacted(slots[..w], p, ids, n, o, net.all)
      modifies this`net, this`n, slots
      ensures n <= slots.Length && Sound(net, limit) && net.all.Keys == net0.all.Keys
      ensures Offering(net, ids, |ids|, -1, sent, d) && Fair(net0, net, ids, |ids|, -1, limit)
      ensures Slice() == StillOpen(ids, net.all)
      ensures b in net.place && b in net.mem && net.mem[b] == d
      ensures owner in net.all && !net.all[owner].closed && net.place[b] == Queued(owner)
      ensures Homed(net0.place, net, ids)
    {
      hide Received, StillOpen, InProgress, Offering, Fair, Distinct, Compacted, Sound, Homed;
      ghost var before := net.all;
      HandToOwner(owner, o, b, ids, net0, d);
      OwnerInserted(slots[..w], p, ids, o, before, net.all);
      InsertOwner(owner, w, p);
    }

    /** Ownership-passing broadcast: the first listener with room gets the caller's buffer b itself,
        after every other listener was offered a copy. True moves b to that listener; false leaves it
        with the caller. Everything else is as for Broadcast. */
    method BroadcastOwned(b: nat) returns (moved: bool)
      requires Valid() && !done && b in net.place && b in net.mem && net.place[b] == Producer
      modifies this, slots
      ensures Valid() && slots == old(slots) && !done && headerSet == old(headerSet)
      ensures old(net.mem[b]) == [] ==>
                net == old(net) && Slice() == old(Slice()) && sent == old(sent) && streaming == old(streaming)
      ensures old(net.mem[b]) != [] ==>
                && sent == old(sent) + [old(net.mem[b])] && streaming
                && Slice() == StillOpen(old(Slice()), net.all)
                && Served(old(net), net, old(Slice()), old(sent), limit)
                && Homed(old(net.place), net, old(Slice()))
      ensures b in net.place && b in net.mem && net.mem[b] == old(net.mem[b])
      ensures if moved then net.place[b].Queued? && net.place[b].listener in Slice() else net.place[b] == Producer
      ensures moved <==> old(net.mem[b]) != [] && HasRoom(old(net), old(Slice()), limit)
    {
      hide Received, StillOpen, InProgress, Offering, Fair, Sound, Consistent, Distinct, Compacted, Served, Homed;
      if net.mem[b] == [] { return false; }
      Starting(net, Slice(), sent, streaming, headerSet, err, b, -1, limit);
      ghost var ids, d, net0, sent0 := Slice(), net.mem[b], net, sent;
      var o := FindOwner();
      var owner := if o >= 0 then slots[o] else 0;
      var w, p := OfferOthers(o, b);
      moved := o >= 0;
      if moved {
        assert ids[o] == owner;
        GiveToOwner(owner, o, b, w, p, ids, net0, d);
        OpenAtMost(ids, net.all);
      } else {
        CompactedAll(slots[..w], p, ids, net.all);
        assert ids[..|ids|] == ids;
        ProgressMeans(net0, net, ids, |ids|, -1, sent0, b, d, limit);
        n := w;
      }
      streaming := true;
      sent := sent + [d];
      Settled(net, ids, sent0, d, headerSet, err, limit);
      Outcome(net0, net, ids, sent0, d, limit);
    }

    /** A new listener, unless streaming has begun. On a finished broadcast it gets the terminal result
        at once; otherwise it joins behind the others. */
    method Subscribe() returns (l: Option<nat>)
      requires Valid()
      modifies this, slots
      ensures Valid() && (slots == old(slots) || fresh(slots)) && sent == old(sent)
      ensures streaming == old(streaming) && done == old(done) && headerSet == old(headerSet) && err == old(err)
      ensures l == None <==> streaming
      ensures l == None ==> net == old(net) && Slice() == old(Slice())
      ensures l.Some? ==>
                && l.value !in old(net.all) && net.all.Keys == old(net.all.Keys) + {l.value}
                && Received(net, l.value) == sent == []
                && (forall k :: k in old(net.all) ==> net.all[k] == old(net.all[k]))
                && net.all[l.value].closed == done
                && Slice() == old(Slice()) + (if done then [] else [l.value])
                && (done ==> net.all[l.value].err == err && net.all[l.value].headersReady)
                && (done && !headerSet ==> net.all[l.value].headerErr == err)
    {
      hide Sound, Received, Consistent;
      if streaming { return None; }
      NothingSent(net, Slice(), sent, done, headerSet, err, limit);
      var id := Fresh(net.all.Keys);
      var x := Listener([], [], false, None, headerSet, None);
      if done {
        x := Listener(if err.Some? then [End(err)] else [], [], true, err, true, if headerSet then None else err);
      }
      ghost var before := net;
      net := net.(all := net.all[id := x]);
      JoinedConsistent(before, net, Slice(), id, streaming, done, headerSet, err, limit);
      if !done { Append(id); }
      l := Some(id);
    }

    /** Append to the listener slice, growing its array when it is full. */
    method Append(id: nat)
      requires n <= slots.Length
      modifies this`slots, this`n, slots
      ensures n == old(n) + 1 <= slots.Length && slots[..n] == old(slots[..n]) + [id]
      ensures slots == old(slots) || fresh(slots)
    {
      if n == slots.Length {
        var grown := new nat[2 * n + 1];
        forall k | 0 <= k < n { grown[k] := slots[k]; }
        slots := grown;
      }
      slots[n] := id;
      n := n + 1;
    }

    /** End the broadcast. Completing before headers is an error even when the producer saw none. Each
        registered listener is closed with the result and holds everything sent; calling again
        changes nothing. */
    method Complete(result: Option<Err>)
      requires Valid()
      modifies this
      ensures Valid() && done && Slice() == old(Slice()) && slots == old(slots) && sent == old(sent)
      ensures headerSet == old(headerSet) && streaming == old(streaming)
      ensures old(done) ==> err == old(err) && net == old(net)
      ensures !old(done) ==>
                && err == (if result == None && !headerSet then Some(BeforeHeaders) else result)
                && (forall k :: 0 <= k < n ==>
                      slots[k] in net.all && net.all[slots[k]].err == err && Received(net, slots[k]) == sent)
    {
      hide Received, Sound, Closing, Consistent, Distinct;
      if done { return; }
      done := true;
      ghost var ids, err0 := Slice(), err;
      err := if result == None && !headerSet then Some(BeforeHeaders) else result;
      ClosingStarts(net, ids, sent, streaming, headerSet, err0, err, limit);
      SentNothingYet(net, ids, sent, streaming, headerSet, err0, limit);
      var i := 0;
      while i < n && !headerSet
        modifies this`net
        invariant 0 <= i <= n && Sound(net, limit) && Closing(net, ids, 0, sent, err)
      {
        ghost var before := net;
        Registered(net, ids, 0, i, sent, err);
        AnnounceKeeps(net, slots[i], err, limit);
        net := Announce(net, slots[i], err);
        ClosingStays(before, net, ids, 0, sent, err);
        i := i + 1;
      }
      i := 0;
      while i < n
        modifies this`net
        invariant 0 <= i <= n && Sound(net, limit) && Closing(net, ids, i, sent, err)
      {
        ghost var before := net;
        Consume();
        DrainedKeeps(before, net);
        ClosingStays(before, net, ids, i, sent, err);
        ClosingStep(net, ids, i, sent, err, limit);
        net := CloseWithError(net, slots[i], err, limit);
        i := i + 1;
      }
      ClosingEnds(net, ids, sent, streaming, headerSet, err, limit);
    }

    /** Publish the response headers to every registered listener. */
    method SetHeaders()
      requires Valid()
      modifies this`net, this`headerSet
      ensures Valid() && headerSet
      ensures forall k :: 0 <= k < n ==> slots[k] in net.all && net.all[slots[k]].headersReady
      ensures net.all.Keys == old(net.all.Keys)
      ensures forall l :: l in net.all ==> Received(net, l) == old(Received(net, l))
    {
      hide Received, Sound, Consistent;
      ghost var ids, before := Slice(), net;
      HeadersKnown(net, ids, sent, streaming, done, headerSet, err, limit);
      headerSet := true;
      for i := 0 to n
        modifies this`net
        invariant Consistent(net, ids, sent, streaming, done, true, err, limit)
        invariant net.all.Keys == before.all.Keys
        invariant forall l :: l in net.all ==> Received(net, l) == Received(before, l)
        invariant forall k :: 0 <= k < n ==> ids[k] in net.all && (k < i ==> net.all[ids[k]].headersReady)
      {
        AnnounceConsistent(net, ids, slots[i], sent, streaming, done, err, limit);
        net := Announce(net, slots[i], net.all[slots[i]].headerErr);
      }
    }
  }

  /** An id outside the set. */
  method Fresh(ids: set<nat>) returns (id: nat)
    ensures id !in ids
  {
    var rest := ids;
    id := 0;
    while rest != {}
      invariant forall b :: b in ids && b !in rest ==> b < id
      decreases |rest|
    {
      var b :| b in rest;
      if b >= id { id := b + 1; }
      rest := rest - {b};
    }
  }
}
