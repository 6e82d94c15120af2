/** A background full-object populate's hold on the byte budget and the populate slots, from admission
    through the scratch re-admission to the hand-over to the cache writer. */
module PopulateReservation {

  datatype Outcome = Declined | Failed | Skipped | Finished | TimedOut

  /** The ledger of one populate: the bytes and slots it took and has not given back. Either limiter may
      be disabled; what the limiters answer depends on everyone else and is left open. */
  class Reservation {
    const budgeted: bool
    const slotted: bool
    ghost var bytes: int
    ghost var slots: int

    /** What a reservation of the given weight adds to the ledger. */
    ghost function Charge(weight: nat): int { if budgeted then weight else 0 }
    ghost function Slot(): int { if slotted then 1 else 0 }

    ghost predicate Holds(weight: nat, bytes0: int, slots0: int)
      reads this
    {
      bytes == bytes0 + Charge(weight) && slots == slots0 + Slot()
    }

    method TakeBytes(weight: nat) returns (ok: bool)
      modifies this`bytes
      ensures bytes == old(bytes) + if ok then Charge(weight) else 0
      ensures weight == 0 || !budgeted ==> ok
    {
      if weight == 0 || !budgeted { return true; }
      ok := *;
      if ok { bytes := bytes + weight; }
    }

    method TakeSlot() returns (ok: bool)
      modifies this`slots
      ensures slots == old(slots) + if ok then Slot() else 0
      ensures !slotted ==> ok
    {
      if !slotted { return true; }
      ok := *;
      if ok { slots := slots + 1; }
    }

    method GiveBytes(weight: nat)
      modifies this`bytes
      ensures bytes == old(bytes) - Charge(weight)
    {
      if budgeted { bytes := bytes - weight; }
    }

    method GiveSlot()
      modifies this`slots
      ensures slots == old(slots) - Slot()
    {
      if slotted { slots := slots - 1; }
    }

    /** Take a slot and weight bytes, or nothing. A warm-on-write waits for its bytes before it takes a
        slot; a read miss takes the slot first and hands it back if the bytes are not there. */
    method AcquireCacheSlot(weight: nat, warm: bool) returns (ok: bool)
      modifies this
      ensures if ok then Holds(weight, old(bytes), old(slots)) else bytes == old(bytes) && slots == old(slots)
    {
      var diskOverBudget: bool := *;
      if diskOverBudget { return false; }
      if warm {
        ok := TakeBytes(weight);
        if !ok { return; }
        ok := TakeSlot();
        if !ok { GiveBytes(weight); }
        return;
      }
      ok := TakeSlot();
      if !ok { return; }
      ok := TakeBytes(weight);
      if !ok { GiveSlot(); }
    }

    method ReleaseCacheSlot(weight: nat)
      modifies this
      ensures bytes == old(bytes) - Charge(weight) && slots == old(slots) - Slot()
    {
      GiveBytes(weight);
      GiveSlot();
    }

    /** Add the block writer's scratch to a reservation that is already held. If it does not fit, a warm
        gives everything back and asks again for the whole; a read miss is shed. */
    method AdmitScratch(weight: nat, scratch: nat, warm: bool, ghost bytes0: int, ghost slots0: int)
      returns (owned: bool, total: nat, admitted: bool)
      requires Holds(weight, bytes0, slots0)
      modifies this
      ensures if owned then Holds(total, bytes0, slots0) else bytes == bytes0 && slots == slots0
      ensures admitted ==> owned && total == weight + scratch
    {
      owned, total := true, weight;
      admitted := TakeBytes(scratch);
      if admitted { return true, weight + scratch, true; }
      if warm {
        ReleaseCacheSlot(weight);
        owned := false;
        admitted := AcquireCacheSlot(weight + scratch, true);
        if admitted { owned, total := true, weight + scratch; }
      }
    }

    /** Fetch an object and write it to the cache. One deferred release, steered by slotOwned and the
        weight as they stand at the return, covers every exit: afterwards the ledger is as it was before
        the call, unless the writer is still running; then it holds exactly the weight that writer will
        release. */
    method FetchFull(weight: nat, scratch: nat, warm: bool) returns (outcome: Outcome, writerWeight: nat)
      modifies this
      ensures outcome != TimedOut ==> bytes == old(bytes) && slots == old(slots)
      ensures outcome == TimedOut ==> Holds(writerWeight, old(bytes), old(slots))
      ensures outcome in {TimedOut, Finished} ==> writerWeight in {weight, weight + scratch}
    {
      var acquired := AcquireCacheSlot(weight, warm);
      if !acquired { return Declined, weight; }
      var slotOwned;
      outcome, slotOwned, writerWeight := FetchAndWrite(weight, scratch, warm, old(bytes), old(slots));
      if slotOwned { ReleaseCacheSlot(writerWeight); }
    }

    /** The body under the deferred release: it returns without releasing, with slotOwned and the weight
        it then holds. */
    method FetchAndWrite(initial: nat, scratch: nat, warm: bool, ghost bytes0: int, ghost slots0: int)
      returns (outcome: Outcome, slotOwned: bool, weight: nat)
      requires Holds(initial, bytes0, slots0)
      modifies this
      ensures slotOwned ==> Holds(weight, bytes0, slots0) && outcome !in {TimedOut, Finished}
      ensures !slotOwned ==>
                if outcome == TimedOut then Holds(weight, bytes0, slots0) else bytes == bytes0 && slots == slots0
      ensures outcome in {TimedOut, Finished} ==> weight in {initial, initial + scratch}
    {
      slotOwned, weight := true, initial;
      var answered: bool, acceptable: bool, forbidden: bool, cacheable: bool := *, *, *, *;
      if !answered { return Failed, slotOwned, weight; }
      if !acceptable { return if forbidden then Declined else Failed, slotOwned, weight; }
      if !cacheable { return Skipped, slotOwned, weight; }
      var blockMode: bool := *;
      if blockMode {
        var admitted;
        slotOwned, weight, admitted := AdmitScratch(weight, scratch, warm, bytes0, slots0);
        if !admitted { return Declined, slotOwned, weight; }
      }
      var started: bool := *;
      if !started { return Failed, slotOwned, weight; }
      // The registered writer owns the reservation from here, through its own exit.
      slotOwned := false;
      var inTime: bool := *;
      if !inTime { return TimedOut, slotOwned, weight; }
      ReleaseCacheSlot(weight);
      outcome := Finished;
    }

    /** Fetch, then let the writer that may have outlived it exit: nothing stays reserved. */
    method FetchToTheEnd(weight: nat, scratch: nat, warm: bool)
      modifies this
      ensures bytes == old(bytes) && slots == old(slots)
    {
      var outcome, writerWeight := FetchFull(weight, scratch, warm);
      if outcome == TimedOut { ReleaseCacheSlot(writerWeight); }
    }
  }
}
