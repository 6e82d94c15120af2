/** The versioned metadata row of one object, and the CAS coordinator that orders
    every writer of it (cache/coordinator.go).

    The store gives each key a version that is never reused. A row is either live or
    fenced; a delete leaves a fence under a fresh version, and absence has a version
    too, so a token read from an absent key orders a later commit just as well. */
module MetaStore {

  import opened Options

  /** What the store holds for one metadata key: row == None is a fence or plain absence. */
  datatype Cell<+M> = Cell(version: nat, row: Option<M>)

  /** Versions start above zero, so 0 is never a version and never a decision-time token. */
  predicate ValidCell<M>(c: Cell<M>) {
    0 < c.version
  }

  datatype Verdict = Applied | Mismatch(current: nat)

  /** The store accepts a conditional call on exactly these expectations; 0 is the
      unordered put-if-absent, and the delete that fences an absent key. */
  predicate Accepts<M>(c: Cell<M>, expected: nat) {
    expected == c.version || (expected == 0 && c.row.None?)
  }

  function PutIfVersion<M>(c: Cell<M>, expected: nat, m: M): (r: (Cell<M>, Verdict)) {
    if Accepts(c, expected) then (Cell(c.version + 1, Some(m)), Applied) else (c, Mismatch(c.version))
  }

  function DeleteIfVersion<M>(c: Cell<M>, expected: nat): (r: (Cell<M>, Verdict)) {
    if Accepts(c, expected) then (Cell(c.version + 1, None), Applied) else (c, Mismatch(c.version))
  }

  /** A client call either answers, or fails without saying whether it was applied. */
  datatype Reply = Answered(verdict: Verdict) | Lost

  /** The store client of one key, seen from one request. rows records what the row
      held at every version so far: at version v it was rows[v - 1]. Other requests use
      the same key between any two calls of this one (Race). */
  class Client<M(==)> {
    var cell: Cell<M>
    ghost var rows: seq<Option<M>>

    ghost predicate Valid()
      reads this
    {
      && ValidCell(cell)
      && |rows| == cell.version
      && rows[cell.version - 1] == cell.row
    }

    constructor ()
      ensures Valid() && cell.row.None?
    {
      cell := Cell(1, None);
      rows := [None];
    }

    /** Any number of other requests' writes and deletes land; history only grows. */
    method Race()
      requires Valid()
      modifies this
      ensures Valid() && old(rows) <= rows
    {
    }

    method Get() returns (row: Option<M>, version: nat, failed: bool)
      requires Valid()
      modifies this
      ensures Valid() && old(rows) <= rows
      ensures !failed ==> row == cell.row && version == cell.version
    {
      Race();
      failed := *;
      row, version := cell.row, cell.version;
    }

    /** One conditional call that would leave row behind. An applied call replaced
        exactly the version it expected; a refused one changed nothing. */
    method Swap(expected: nat, row: Option<M>) returns (reply: Reply)
      requires Valid()
      modifies this
      ensures Valid() && old(rows) <= rows
      ensures reply == Answered(Applied) ==>
                && |old(rows)| < |rows| && cell.row == row
                && Accepts(Cell(|rows| - 1, rows[|rows| - 2]), expected)
      ensures reply.Answered? && reply.verdict.Mismatch? ==>
                reply.verdict.current == cell.version && !Accepts(cell, expected)
    {
      Race();
      var lost: bool := *;
      var applies: bool := *;
      if lost && !applies {
        return Lost;
      }
      var (next, verdict) :=
        match row
        case Some(m) => PutIfVersion(cell, expected, m)
        case None => DeleteIfVersion(cell, expected);
      if verdict.Applied? {
        cell, rows := next, rows + [next.row];
      }
      reply := if lost then Lost else Answered(verdict);
    }
  }

  datatype Expected = VersionAny | Token(version: nat)
  datatype Outcome = Done | Refused | StoreFailed | ContextEnded | RacesLost

  const PUT_ATTEMPTS: nat := 8
  const DELETE_ATTEMPTS: nat := 64

  /** casCoordinator: every ordering decision about the meta key. */
  class CasCoordinator<M(==)> {
    const client: Client<M>

    constructor (c: Client<M>)
      ensures client == c
    {
      client := c;
    }

    /** Under a token the commit either replaces exactly that version or leaves the newer
        state alone; VersionAny retries, and gives up only after eight lost races. */
    method PutMeta(m: M, expected: Expected) returns (outcome: Outcome)
      requires client.Valid()
      modifies client
      ensures client.Valid() && old(client.rows) <= client.rows
      ensures outcome == Done ==> |old(client.rows)| < |client.rows| && client.cell.row == Some(m)
      ensures outcome == Done && expected.Token? && 0 < expected.version ==>
                expected.version == |client.rows| - 1
      ensures outcome == Refused ==> expected.Token? && expected.version != client.cell.version
      ensures outcome == RacesLost ==>
                expected.VersionAny? && |old(client.rows)| + PUT_ATTEMPTS <= |client.rows|
    {
      if expected.Token? {
        var reply := client.Swap(expected.version, Some(m));
        match reply
        case Lost => return StoreFailed;
        case Answered(Mismatch(_)) => return Refused;
        case Answered(Applied) => return Done;
      }
      for attempt := 0 to PUT_ATTEMPTS
        invariant client.Valid() && old(client.rows) <= client.rows
        invariant |old(client.rows)| + attempt <= |client.rows|
      {
        var _, version, failed := client.Get();
        if failed {
          return StoreFailed;
        }
        var reply := client.Swap(version, Some(m));
        match reply
        case Lost => return StoreFailed;
        case Answered(Applied) => return Done;
        case Answered(Mismatch(_)) =>
      }
      return RacesLost;
    }

    /** The unconditional fenced delete. Success means the row was a fence at an instant
        inside the call, under a version no earlier token can carry (fence). Each lost
        round costs one write by someone else, so exhaustion needs 63 of them. */
    method DeleteMeta() returns (outcome: Outcome, ghost fence: nat)
      requires client.Valid()
      modifies client
      ensures client.Valid() && old(client.rows) <= client.rows
      ensures outcome == Done ==>
                |old(client.rows)| < fence <= |client.rows| && client.rows[fence - 1].None?
      ensures outcome == RacesLost ==>
                |old(client.rows)| + DELETE_ATTEMPTS - 1 <= |client.rows|
      ensures outcome != Refused
    {
      fence := 0;
      var expected := 0;
      for attempt := 0 to DELETE_ATTEMPTS
        invariant client.Valid() && old(client.rows) <= client.rows
        invariant attempt == 0 || |old(client.rows)| + attempt - 1 <= |client.rows|
        invariant attempt == 0 <==> expected == 0
        invariant expected <= |client.rows|
        invariant attempt == 0 || |old(client.rows)| + attempt - 1 <= expected
      {
        var ended: bool := *;
        if ended {
          return ContextEnded, 0;
        }
        var reply := client.Swap(expected, None);
        match reply
        case Lost => return StoreFailed, 0;
        case Answered(Applied) => return Done, client.cell.version;
        case Answered(Mismatch(current)) => expected := current;
      }
      return RacesLost, 0;
    }

    /** Invalidates only a row that still carries staleETag; what it removes is exactly
        the version it compared. It refuses only if there is no such row, or the row changed
        during the call. */
    method DeleteMetaIfETag<E(==)>(etag: M -> E, stale: E) returns (outcome: Outcome)
      requires client.Valid()
      modifies client
      ensures client.Valid() && old(client.rows) <= client.rows
      ensures outcome == Done ==>
                && |old(client.rows)| < |client.rows| && client.cell.row.None?
                && client.rows[|client.rows| - 2].Some?
                && etag(client.rows[|client.rows| - 2].value) == stale
      ensures outcome == Refused ==>
                || client.cell.row.None? || etag(client.cell.row.value) != stale
                || |old(client.rows)| < |client.rows|
      ensures outcome !in {ContextEnded, RacesLost}
    {
      var row, version, failed := client.Get();
      if failed {
        return StoreFailed;
      }
      if row.None? || etag(row.value) != stale {
        return Refused;
      }
      ghost var seen := client.rows;
      var reply := client.Swap(version, None);
      match reply
      case Lost => return StoreFailed;
      case Answered(Mismatch(_)) => return Refused;
      case Answered(Applied) =>
        assert client.rows[..|seen|] == seen;
        return Done;
    }

    /** Invalidates only the version the caller observed. */
    method DeleteMetaIfVersion(version: nat) returns (outcome: Outcome)
      requires client.Valid()
      modifies client
      ensures client.Valid() && old(client.rows) <= client.rows
      ensures outcome == Done ==>
                && |old(client.rows)| < |client.rows| && client.cell.row.None?
                && (0 < version ==> version == |client.rows| - 1)
      ensures outcome == Refused ==> version != client.cell.version
      ensures outcome in {Done, Refused, StoreFailed}
    {
      var reply := client.Swap(version, None);
      match reply
      case Lost => return StoreFailed;
      case Answered(Mismatch(_)) => return Refused;
      case Answered(Applied) => return Done;
    }
  }
}
