/** The priority-aware byte budget shared by cache populates and block-serve staging buffers. */
module ByteBudget {

  /** Bytes reserved by one acquisition; zero once given back. */
  datatype Hold = Hold(bytes: nat, staging: bool)

  /** waiting[k] is the weight of the k-th warm-on-write acquirer while it waits, else zero. */
  datatype Budget = Budget(total: int, remaining: int, pendingWarm: int, reserveCap: int,
                           stagingInUse: int, stagingCap: int, holds: seq<Hold>, waiting: seq<nat>)

  datatype Step =
    | ReadMiss(n: nat)
    | TryWarm(n: nat)
    | WarmWaits(n: nat)
    | WarmAdmitted(k: nat)
    | WarmGivesUp(k: nat)
    | Stage(n: nat)
    | Release(h: nat)

  function Min(a: int, b: int): int { if a < b then a else b }

  /** What read misses and staging must leave free for waiting warm-on-writes. */
  function Reserve(b: Budget): int { Min(b.pendingWarm, b.reserveCap) }

  function Take(b: Budget, n: nat, staging: bool): Budget {
    b.(remaining := b.remaining - n,
       stagingInUse := if staging then b.stagingInUse + n else b.stagingInUse,
       holds := b.holds + [Hold(n, staging)])
  }

  function StopWaiting(b: Budget, k: nat): Budget
    requires k < |b.waiting|
  {
    b.(pendingWarm := b.pendingWarm - b.waiting[k], waiting := b.waiting[k := 0])
  }

  function Do(b: Budget, step: Step): Budget {
    match step
    case ReadMiss(n) => if b.remaining - n < Reserve(b) then b else Take(b, n, false)
    case TryWarm(n) => if n > b.total || b.remaining < n then b else Take(b, n, false)
    case WarmWaits(n) => if n > b.total then b else b.(pendingWarm := b.pendingWarm + n, waiting := b.waiting + [n])
    case WarmAdmitted(k) =>
      if k < |b.waiting| && b.remaining >= b.waiting[k] then Take(StopWaiting(b, k), b.waiting[k], false) else b
    case WarmGivesUp(k) => if k < |b.waiting| then StopWaiting(b, k) else b
    case Stage(n) =>
      if b.stagingInUse + n > b.stagingCap || b.remaining - n < Reserve(b) then b else Take(b, n, true)
    case Release(h) =>
      if h < |b.holds| then
        b.(remaining := b.remaining + b.holds[h].bytes,
           stagingInUse := if b.holds[h].staging then b.stagingInUse - b.holds[h].bytes else b.stagingInUse,
           holds := b.holds[h := b.holds[h].(bytes := 0)])
      else b
  }

  function DoAll(b: Budget, steps: seq<Step>): Budget {
    if steps == [] then b else Do(DoAll(b, steps[..|steps| - 1]), steps[|steps| - 1])
  }

  /** Bytes held by the given holds, for staging or for populates. */
  function Held(holds: seq<Hold>, staging: bool): nat {
    if holds == [] then 0
    else Held(holds[..|holds| - 1], staging)
         + if holds[|holds| - 1].staging == staging then holds[|holds| - 1].bytes else 0
  }

  function Sum(ns: seq<nat>): nat {
    if ns == [] then 0 else Sum(ns[..|ns| - 1]) + ns[|ns| - 1]
  }

  lemma {:induction false} HeldUpdate(holds: seq<Hold>, h: nat, x: Hold, staging: bool)
    requires h < |holds| && x.staging == holds[h].staging
    ensures Held(holds[h := x], staging)
         == Held(holds, staging) + if x.staging == staging then x.bytes - holds[h].bytes else 0
  {
    var m := |holds| - 1;
    if h < m {
      assert holds[h := x][..m] == holds[..m][h := x];
      HeldUpdate(holds[..m], h, x, staging);
    } else {
      assert holds[h := x][..m] == holds[..m];
    }
  }

  lemma {:induction false} SumUpdate(ns: seq<nat>, k: nat, x: nat)
    requires k < |ns|
    ensures Sum(ns[k := x]) == Sum(ns) - ns[k] + x
  {
    var m := |ns| - 1;
    if k < m {
      assert ns[k := x][..m] == ns[..m][k := x];
      SumUpdate(ns[..m], k, x);
    } else {
      assert ns[k := x][..m] == ns[..m];
    }
  }

  lemma {:induction false} SumCovers(ns: seq<nat>, k: nat)
    requires k < |ns|
    ensures ns[k] <= Sum(ns)
  {
    if k < |ns| - 1 { SumCovers(ns[..|ns| - 1], k); }
  }

  /** Every byte is accounted for. */
  ghost predicate Balanced(b: Budget) {
    && b.remaining + Held(b.holds, false) + Held(b.holds, true) == b.total
    && 0 <= b.remaining
    && b.stagingInUse == Held(b.holds, true) <= b.stagingCap
    && b.pendingWarm == Sum(b.waiting)
    && 0 <= b.reserveCap <= b.total
  }

  /** A configured share; not-a-number disables the reservation. */
  datatype Share = NaN | Share(value: real)

  /** The share as a fraction; not-a-number counts as none. */
  function Clamp(share: Share): (f: real)
    ensures 0.0 <= f <= 1.0
  {
    if share.NaN? || share.value < 0.0 then 0.0 else if share.value > 1.0 then 1.0 else share.value
  }

  lemma FloorBounds(total: int, f: real)
    requires 0 <= total && 0.0 <= f <= 1.0
    ensures 0 <= (total as real * f).Floor <= total
  {
    assert total as real * f <= total as real;
  }

  /** The bytes set aside for waiting warm-on-writes: a share of the total, at least one populate if
      there is a share at all, and never more than the total. */
  function ReserveCap(total: int, share: Share, perPopulateCap: int): (cap: int)
    requires 0 <= total
    ensures 0 <= cap <= total
    ensures share.NaN? || share.value <= 0.0 ==> cap == 0
    ensures share.Share? && share.value > 0.0 ==> cap >= Min(perPopulateCap, total)
  {
    var f := Clamp(share);
    FloorBounds(total, f);
    var part := (total as real * f).Floor;
    var floored := if f > 0.0 && part < perPopulateCap then perPopulateCap else part;
    if floored > total then total else floored
  }

  /** A fresh budget. The reserve never exceeds the total, and a positive share makes it large enough
      for one whole populate that fits the budget at all. */
  function NewBudget(total: int, share: Share, perPopulateCap: int): (b: Budget)
    requires 0 <= total
    ensures Balanced(b) && b.remaining == b.total == b.stagingCap == total
    ensures share.NaN? || share.value <= 0.0 ==> b.reserveCap == 0
    ensures share.Share? && share.value > 0.0 ==> b.reserveCap >= Min(perPopulateCap, total)
  {
    Budget(total, total, 0, ReserveCap(total, share, perPopulateCap), 0, total, [], [])
  }

  lemma SumOneMore(ns: seq<nat>, n: nat)
    ensures Sum(ns + [n]) == Sum(ns) + n
  {
    assert (ns + [n])[..|ns|] == ns;
  }

  lemma TakeKeeps(b: Budget, n: nat, staging: bool)
    requires Balanced(b) && n <= b.remaining && (staging ==> b.stagingInUse + n <= b.stagingCap)
    ensures Balanced(Take(b, n, staging))
  {
    assert (b.holds + [Hold(n, staging)])[..|b.holds|] == b.holds;
  }

  lemma StopWaitingKeeps(b: Budget, k: nat)
    requires Balanced(b) && k < |b.waiting|
    ensures Balanced(StopWaiting(b, k))
  {
    hide Held;
    SumUpdate(b.waiting, k, 0);
  }

  lemma ReleaseKeeps(b: Budget, h: nat)
    requires Balanced(b) && h < |b.holds|
    ensures Balanced(Do(b, Release(h)))
  {
    hide Sum;
    HeldUpdate(b.holds, h, b.holds[h].(bytes := 0), false);
    HeldUpdate(b.holds, h, b.holds[h].(bytes := 0), true);
    hide Held;
  }

  lemma StepKeepsBalance(b: Budget, step: Step)
    requires Balanced(b)
    ensures Balanced(Do(b, step)) && Do(b, step).total == b.total
    ensures Do(b, step).stagingCap == b.stagingCap && Do(b, step).reserveCap == b.reserveCap
  {
    hide Held, Sum;
    match step
    case ReadMiss(n) => if Do(b, step) != b { TakeKeeps(b, n, false); }
    case TryWarm(n) => if Do(b, step) != b { TakeKeeps(b, n, false); }
    case WarmWaits(n) => SumOneMore(b.waiting, n);
    case WarmAdmitted(k) =>
      if k < |b.waiting| {
        StopWaitingKeeps(b, k);
        if b.remaining >= b.waiting[k] { TakeKeeps(StopWaiting(b, k), b.waiting[k], false); }
      }
    case WarmGivesUp(k) => if k < |b.waiting| { StopWaitingKeeps(b, k); }
    case Stage(n) => if Do(b, step) != b { TakeKeeps(b, n, true); }
    case Release(h) => if h < |b.holds| { ReleaseKeeps(b, h); }
  }

  /** In every run the free bytes, the populates' and the staging buffers' add up to the total, nothing
      goes negative, and staging stays under its cap. */
  lemma {:induction false} Conservation(b: Budget, steps: seq<Step>)
    requires Balanced(b)
    ensures Balanced(DoAll(b, steps)) && DoAll(b, steps).total == b.total
    ensures DoAll(b, steps).stagingCap == b.stagingCap && DoAll(b, steps).reserveCap == b.reserveCap
  {
    if steps != [] {
      Conservation(b, steps[..|steps| - 1]);
      StepKeepsBalance(DoAll(b, steps[..|steps| - 1]), steps[|steps| - 1]);
    }
  }

  /** Staging cannot crowd out populates: with no warm waiting, a read miss that fits beside the other
      populates in what staging may not touch is admitted, after any run. */
  lemma PopulateFloor(b: Budget, steps: seq<Step>, n: nat)
    requires Balanced(b)
    requires var s := DoAll(b, steps); s.pendingWarm == 0 && Held(s.holds, false) + n <= b.total - b.stagingCap
    ensures var s := DoAll(b, steps); Do(s, ReadMiss(n)) == Take(s, n, false)
  {
    Conservation(b, steps);
  }

  /** The service gives staging half of the total. So from the start of the service on, whatever was
      staged, a read miss of up to the other half is admitted when no populate holds bytes and no warm
      waits. */
  lemma HalfIsForPopulates(total: nat, share: Share, perPopulateCap: int, steps: seq<Step>, n: nat)
    requires var s := DoAll(NewBudget(total, share, perPopulateCap).(stagingCap := total / 2), steps);
             s.pendingWarm == 0 && Held(s.holds, false) == 0 && n <= total - total / 2
    ensures var s := DoAll(NewBudget(total, share, perPopulateCap).(stagingCap := total / 2), steps);
            Do(s, ReadMiss(n)) == Take(s, n, false)
  {
    PopulateFloor(NewBudget(total, share, perPopulateCap).(stagingCap := total / 2), steps, n);
  }

  /** During the run no warm-on-write is admitted, and waiter k keeps waiting. */
  ghost predicate KeepsWaiting(b: Budget, steps: seq<Step>, k: nat) {
    && k < |b.waiting|
    && (forall i :: 0 <= i < |steps| ==>
          !steps[i].TryWarm? && !steps[i].WarmAdmitted? && !(steps[i].WarmGivesUp? && steps[i].k == k))
  }

  /** While a warm-on-write that fits the reserve waits, read misses and staging can neither take the
      free bytes below its weight nor shrink them while they are below it; and the free bytes together
      with what was held when the wait began always cover it. So once those holders have released, the
      waiter is admitted, however many acquisitions came and went meanwhile. */
  lemma {:induction false} WarmNotStarved(b: Budget, steps: seq<Step>, k: nat)
    requires Balanced(b) && KeepsWaiting(b, steps, k) && b.waiting[k] <= b.reserveCap
    ensures var s, n := DoAll(b, steps), b.waiting[k];
            && k < |s.waiting| && s.waiting[k] == n && |b.holds| <= |s.holds|
            && Min(s.remaining, n) >= Min(b.remaining, n)
            && s.remaining + Held(s.holds[..|b.holds|], false) + Held(s.holds[..|b.holds|], true) >= n
            && ((forall h :: 0 <= h < |b.holds| ==> s.holds[h].bytes == 0) ==> Do(s, WarmAdmitted(k)) != s || n == 0)
  {
    var s, n, m := DoAll(b, steps), b.waiting[k], |b.holds|;
    if steps == [] {
      assert b.holds[..m] == b.holds;
    } else {
      WarmNotStarved(b, steps[..|steps| - 1], k);
      Conservation(b, steps[..|steps| - 1]);
      WaitingStep(DoAll(b, steps[..|steps| - 1]), steps[|steps| - 1], k, m);
    }
    if forall h :: 0 <= h < m ==> s.holds[h].bytes == 0 {
      NothingHeld(s.holds[..m], false);
      NothingHeld(s.holds[..m], true);
    }
  }

  /** One step while warm-on-write k waits; m holds were there when it began to. */
  lemma WaitingStep(s: Budget, step: Step, k: nat, m: nat)
    requires Balanced(s) && m <= |s.holds| && k < |s.waiting| && s.waiting[k] <= s.reserveCap
    requires !step.TryWarm? && !step.WarmAdmitted? && !(step.WarmGivesUp? && step.k == k)
    requires s.remaining + Held(s.holds[..m], false) + Held(s.holds[..m], true) >= s.waiting[k]
    ensures var s', n := Do(s, step), s.waiting[k];
            && k < |s'.waiting| && s'.waiting[k] == n && m <= |s'.holds|
            && Min(s'.remaining, n) >= Min(s.remaining, n)
            && s'.remaining + Held(s'.holds[..m], false) + Held(s'.holds[..m], true) >= n
  {
    var s' := Do(s, step);
    SumCovers(s.waiting, k);
    if step.Release? && step.h < m {
      HeldUpdate(s.holds[..m], step.h, s'.holds[step.h], false);
      HeldUpdate(s.holds[..m], step.h, s'.holds[step.h], true);
      assert s'.holds[..m] == s.holds[..m][step.h := s'.holds[step.h]];
    } else {
      assert s'.holds[..m] == s.holds[..m];
    }
  }

  lemma {:induction false} NothingHeld(holds: seq<Hold>, staging: bool)
    requires forall h :: 0 <= h < |holds| ==> holds[h].bytes == 0
    ensures Held(holds, staging) == 0
  {
    if holds != [] { NothingHeld(holds[..|holds| - 1], staging); }
  }

  /** The budget as the mutex guards it. The reservations and waiters behind the counters are ghost. */
  class Semaphore {
    const total: int
    const reserveCap: int
    var stagingCap: int
    var remaining: int
    var pendingWarm: int
    var stagingInUse: int
    ghost var holds: seq<Hold>
    ghost var waiting: seq<nat>

    ghost function Abs(): Budget
      reads this
    {
      Budget(total, remaining, pendingWarm, reserveCap, stagingInUse, stagingCap, holds, waiting)
    }

    ghost predicate Valid()
      reads this
    {
      Balanced(Abs())
    }

    constructor (total: int, share: Share, perPopulateCap: int, stagingCap: int)
      requires 0 <= stagingCap <= total
      ensures Valid() && Abs() == NewBudget(total, share, perPopulateCap).(stagingCap := stagingCap)
    {
      hide ReserveCap;
      this.total, remaining, this.stagingCap := total, total, stagingCap;
      reserveCap := ReserveCap(total, share, perPopulateCap);
      pendingWarm, stagingInUse, holds, waiting := 0, 0, [], [];
    }

    method TryAcquireReadMiss(n: nat) returns (ok: bool)
      requires Valid()
      modifies this
      ensures Valid() && Abs() == Do(old(Abs()), ReadMiss(n)) && ok == (|holds| > |old(holds)|)
    {
      hide Balanced, Held, Sum;
      StepKeepsBalance(Abs(), ReadMiss(n));
      var reserve := pendingWarm;
      if reserve > reserveCap { reserve := reserveCap; }
      if remaining - n < reserve { return false; }
      remaining := remaining - n;
      holds := holds + [Hold(n, false)];
      ok := true;
    }

    method TryAcquireWarm(n: nat) returns (ok: bool)
      requires Valid()
      modifies this
      ensures Valid() && Abs() == Do(old(Abs()), TryWarm(n)) && ok == (|holds| > |old(holds)|)
    {
      hide Balanced, Held, Sum;
      StepKeepsBalance(Abs(), TryWarm(n));
      if n > total { return false; }
      pendingWarm := pendingWarm + n;
      ok := remaining >= n;
      if ok {
        remaining := remaining - n;
        holds := holds + [Hold(n, false)];
      }
      pendingWarm := pendingWarm - n;
    }

    method TryAcquireStaging(n: nat) returns (ok: bool)
      requires Valid()
      modifies this
      ensures Valid() && Abs() == Do(old(Abs()), Stage(n)) && ok == (|holds| > |old(holds)|)
    {
      hide Balanced, Held, Sum;
      StepKeepsBalance(Abs(), Stage(n));
      if stagingInUse + n > stagingCap { return false; }
      var reserve := pendingWarm;
      if reserve > reserveCap { reserve := reserveCap; }
      if remaining - n < reserve { return false; }
      remaining := remaining - n;
      stagingInUse := stagingInUse + n;
      holds := holds + [Hold(n, true)];
      ok := true;
    }

    /** Give back the n bytes of a populate hold h. */
    method Release(n: nat, ghost h: nat)
      requires Valid() && h < |holds| && holds[h] == Hold(n, false)
      modifies this
      ensures Valid() && Abs() == Do(old(Abs()), Step.Release(h))
    {
      hide Balanced, Held, Sum;
      StepKeepsBalance(Abs(), Step.Release(h));
      remaining := remaining + n;
      holds := holds[h := Hold(0, false)];
    }

    /** Give back the n bytes of a staging hold h. */
    method ReleaseStaging(n: nat, ghost h: nat)
      requires Valid() && h < |holds| && holds[h] == Hold(n, true)
      modifies this
      ensures Valid() && Abs() == Do(old(Abs()), Step.Release(h))
    {
      hide Balanced, Held, Sum;
      StepKeepsBalance(Abs(), Step.Release(h));
      remaining := remaining + n;
      stagingInUse := stagingInUse - n;
      holds := holds[h := Hold(0, true)];
    }

    /** What waiting on the condition variable lets others do: anything that keeps the budget balanced,
        except stop waiter k. */
    method Others(ghost k: nat)
      requires Valid() && k < |waiting|
      modifies this
      ensures Valid() && k < |waiting| && waiting[k] == old(waiting[k])
      ensures stagingCap == old(stagingCap)
    {
    }

    /** Reserve n bytes for a warm-on-write, waiting until they are free or the deadline strikes, which
        it does after at most the given number of wake-ups. While it waits it is counted as pending;
        afterwards it is not, and it holds n bytes exactly when it succeeded. */
    method AcquireWarm(n: nat, wakeups: nat) returns (ok: bool, ghost k: nat)
      requires Valid()
      modifies this
      ensures Valid() && stagingCap == old(stagingCap)
      ensures n > total ==> !ok && Abs() == old(Abs())
      ensures n <= total ==> k < |waiting| && waiting[k] == 0
      ensures ok ==> |holds| > 0 && holds[|holds| - 1] == Hold(n, false)
      ensures !ok && n <= total ==> remaining < n
    {
      hide Balanced, Held, Sum;
      k := |waiting|;
      if n > total { return false, k; }
      StepKeepsBalance(Abs(), WarmWaits(n));
      pendingWarm := pendingWarm + n;
      waiting := waiting + [n];
      var left := wakeups;
      while remaining < n
        invariant Valid() && k < |waiting| && waiting[k] == n && stagingCap == old(stagingCap)
        decreases left
      {
        if left == 0 {
          StepKeepsBalance(Abs(), WarmGivesUp(k));
          pendingWarm := pendingWarm - n;
          waiting := waiting[k := 0];
          return false, k;
        }
        Others(k);
        left := left - 1;
      }
      StepKeepsBalance(Abs(), WarmAdmitted(k));
      remaining := remaining - n;
      holds := holds + [Hold(n, false)];
      pendingWarm := pendingWarm - n;
      waiting := waiting[k := 0];
      ok := true;
    }
  }
}
