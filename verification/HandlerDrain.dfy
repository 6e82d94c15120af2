/** Draining the HTTP handlers: one atomic word counts handlers and carries the stop bit; whoever sees
    it stopping with no handler left closes the done channel. Each step is one atomic operation of one
    thread, or its decision on the value that operation returned. */
module HandlerDrain {

  const STOP: int := 0x8000_0000_0000_0000
  const WORD: int := 0x1_0000_0000_0000_0000

  predicate Stopping(word: int) { word >= STOP }
  function Count(word: int): int { word % STOP }
  function Increment(word: int): int { (word + 1) % WORD }
  function Decrement(word: int): int { (word + (WORD - 1)) % WORD }
  function SetStop(word: int): int { if Stopping(word) then word else word + STOP }

  /** A request's handler. Entered has incremented and holds the new word; Left has decremented and
      holds the new word. */
  datatype Handler = Entered(word: int) | Running | Rejected | Left(word: int) | Gone

  /** A call that stops admission. Marked has set the bit and holds the word as it was before. */
  datatype Stopper = Marked(before: int) | Returned

  datatype State = State(word: int, handlers: seq<Handler>, stoppers: seq<Stopper>, closes: nat)

  datatype Step =
    | Enter                // a new request increments the word
    | Decide(h: nat)       // admitted unless the incremented word was stopping
    | Leave(h: nat)        // a finished or rejected handler decrements the word
    | AfterLeave(h: nat)   // closes the channel if the decremented word said so
    | Stop                 // set the stop bit
    | AfterStop(t: nat)

  const START := State(0, [], [], 0)

  /** Close through the once-guard. */
  function CloseOnce(s: State): State { if s.closes == 0 then s.(closes := 1) else s }

  function SetHandler(s: State, h: nat, x: Handler): State
    requires h < |s.handlers|
  {
    s.(handlers := s.handlers[h := x])
  }

  function Do(s: State, step: Step): State {
    match step
    case Enter =>
      // The counter has 63 bits; as many handlers at once do not occur.
      if Count(s.word) == STOP - 1 then s else
      s.(word := Increment(s.word), handlers := s.handlers + [Entered(Increment(s.word))])
    case Decide(h) =>
      if h < |s.handlers| && s.handlers[h].Entered? then
        SetHandler(s, h, if Stopping(s.handlers[h].word) then Rejected else Running)
      else s
    case Leave(h) =>
      if h < |s.handlers| && (s.handlers[h].Running? || s.handlers[h].Rejected?) then
        SetHandler(s, h, Left(Decrement(s.word))).(word := Decrement(s.word))
      else s
    case AfterLeave(h) =>
      if h < |s.handlers| && s.handlers[h].Left? then
        var s' := SetHandler(s, h, Gone);
        if Stopping(s.handlers[h].word) && Count(s.handlers[h].word) == 0 then CloseOnce(s') else s'
      else s
    case Stop => s.(word := SetStop(s.word), stoppers := s.stoppers + [Marked(s.word)])
    case AfterStop(t) =>
      if t < |s.stoppers| && s.stoppers[t].Marked? then
        var s' := s.(stoppers := s.stoppers[t := Returned]);
        if Count(s.stoppers[t].before) == 0 then CloseOnce(s') else s'
      else s
  }

  function Run(steps: seq<Step>): State {
    if steps == [] then START else Do(Run(steps[..|steps| - 1]), steps[|steps| - 1])
  }

  /** Handlers the word counts: incremented and not yet decremented. */
  predicate Counted(x: Handler) { x.Entered? || x.Running? || x.Rejected? }

  function Live(handlers: seq<Handler>): nat {
    if handlers == [] then 0
    else Live(handlers[..|handlers| - 1]) + if Counted(handlers[|handlers| - 1]) then 1 else 0
  }

  lemma {:induction false} LiveUpdate(handlers: seq<Handler>, h: nat, x: Handler)
    requires h < |handlers|
    ensures Live(handlers[h := x])
         == Live(handlers) - (if Counted(handlers[h]) then 1 else 0) + (if Counted(x) then 1 else 0)
  {
    var m := |handlers| - 1;
    if h < m {
      assert handlers[h := x][..m] == handlers[..m][h := x];
      LiveUpdate(handlers[..m], h, x);
    } else {
      assert handlers[h := x][..m] == handlers[..m];
    }
  }

  lemma {:induction false} LiveCovers(handlers: seq<Handler>, h: nat)
    requires h < |handlers| && Counted(handlers[h])
    ensures Live(handlers) >= 1
  {
    if h < |handlers| - 1 { LiveCovers(handlers[..|handlers| - 1], h); }
  }

  /** Admitted: past the gate, or about to be. */
  predicate Admitted(x: Handler) { x.Running? || (x.Entered? && !Stopping(x.word)) }

  /** The thread was told to close the channel and has not done so yet. */
  predicate WillClose(x: Handler) { x.Left? && Stopping(x.word) && Count(x.word) == 0 }
  predicate StopperWillClose(x: Stopper) { x.Marked? && Count(x.before) == 0 }

  ghost predicate SomeoneCloses(s: State) {
    || s.closes == 1
    || (exists h :: 0 <= h < |s.handlers| && WillClose(s.handlers[h]))
    || (exists t :: 0 <= t < |s.stoppers| && StopperWillClose(s.stoppers[t]))
  }

  ghost predicate Inv(s: State) {
    && 0 <= s.word < WORD && Count(s.word) == Live(s.handlers) && s.closes <= 1
    && (SomeoneCloses(s) ==> Stopping(s.word) && forall h :: 0 <= h < |s.handlers| ==> !Admitted(s.handlers[h]))
    && (Stopping(s.word) && Live(s.handlers) == 0 ==> SomeoneCloses(s))
    && (s.stoppers != [] <==> Stopping(s.word))
  }

  /** Counting stays clear of the stop bit. */
  lemma WordArithmetic(word: int)
    requires 0 <= word < WORD
    ensures Count(word) < STOP - 1 ==>
              0 <= Increment(word) < WORD && Count(Increment(word)) == Count(word) + 1 && Stopping(Increment(word)) == Stopping(word)
    ensures Count(word) > 0 ==>
              0 <= Decrement(word) < WORD && Count(Decrement(word)) == Count(word) - 1 && Stopping(Decrement(word)) == Stopping(word)
    ensures 0 <= SetStop(word) < WORD && Stopping(SetStop(word)) && Count(SetStop(word)) == Count(word)
  {
    if word >= STOP {
      assert Count(word) == word - STOP;
    } else {
      assert Count(word) == word;
    }
  }

  lemma EnterKeeps(s: State)
    requires Inv(s)
    ensures Inv(Do(s, Enter))
  {
    WordArithmetic(s.word);
    hide Count, Increment;
    var s' := Do(s, Enter);
    if s' != s {
      assert s'.handlers[..|s.handlers|] == s.handlers;
      if SomeoneCloses(s') { assert SomeoneCloses(s); }
    }
  }

  lemma DecideKeeps(s: State, h: nat)
    requires Inv(s)
    ensures Inv(Do(s, Decide(h)))
  {
    hide Count;
    var s' := Do(s, Decide(h));
    if s' != s {
      LiveUpdate(s.handlers, h, s'.handlers[h]);
      LiveCovers(s.handlers, h);
      if SomeoneCloses(s') { assert SomeoneCloses(s); }
    }
  }

  lemma LeaveKeeps(s: State, h: nat)
    requires Inv(s)
    ensures Inv(Do(s, Leave(h)))
  {
    var s' := Do(s, Leave(h));
    if s' != s {
      LiveUpdate(s.handlers, h, s'.handlers[h]);
      LiveCovers(s.handlers, h);
      WordArithmetic(s.word);
      hide Count, Decrement;
      if WillClose(s'.handlers[h]) {
        forall k | 0 <= k < |s'.handlers| ensures !Admitted(s'.handlers[k]) {
          if Counted(s'.handlers[k]) { LiveCovers(s'.handlers, k); }
        }
      } else if SomeoneCloses(s') {
        assert SomeoneCloses(s);
      }
      if Stopping(s'.word) && Live(s'.handlers) == 0 { assert WillClose(s'.handlers[h]); }
    }
  }

  lemma AfterLeaveKeeps(s: State, h: nat)
    requires Inv(s)
    ensures Inv(Do(s, AfterLeave(h)))
  {
    hide Count;
    var s' := Do(s, AfterLeave(h));
    if s' != s {
      LiveUpdate(s.handlers, h, s'.handlers[h]);
      if WillClose(s.handlers[h]) { assert SomeoneCloses(s); }
      if SomeoneCloses(s') { assert SomeoneCloses(s); }
      if SomeoneCloses(s) && s'.closes == 0 { StillSomeone(s, s', h); }
    }
  }

  /** A thread that was not told to close leaves the others who were. */
  lemma StillSomeone(s: State, s': State, h: nat)
    requires SomeoneCloses(s) && s.closes == 0 && h < |s.handlers| == |s'.handlers| && !WillClose(s.handlers[h])
    requires s'.stoppers == s.stoppers && forall k :: 0 <= k < |s.handlers| && k != h ==> s'.handlers[k] == s.handlers[k]
    ensures SomeoneCloses(s')
  {
    if k :| 0 <= k < |s.handlers| && WillClose(s.handlers[k]) {
      assert WillClose(s'.handlers[k]);
    } else {
      var t :| 0 <= t < |s.stoppers| && StopperWillClose(s.stoppers[t]);
      assert StopperWillClose(s'.stoppers[t]);
    }
  }

  lemma StopKeeps(s: State)
    requires Inv(s)
    ensures Inv(Do(s, Stop))
  {
    WordArithmetic(s.word);
    hide Count;
    var s', t := Do(s, Stop), |s.stoppers|;
    if StopperWillClose(s'.stoppers[t]) {
      forall k | 0 <= k < |s'.handlers| ensures !Admitted(s'.handlers[k]) {
        if Counted(s'.handlers[k]) { LiveCovers(s'.handlers, k); }
      }
    } else if SomeoneCloses(s') {
      assert SomeoneCloses(s) by {
        if s'.closes == 0 && !(exists h :: 0 <= h < |s'.handlers| && WillClose(s'.handlers[h])) {
          var u :| 0 <= u < |s'.stoppers| && StopperWillClose(s'.stoppers[u]);
          assert StopperWillClose(s.stoppers[u]);
        }
      }
    }
  }

  lemma AfterStopKeeps(s: State, t: nat)
    requires Inv(s)
    ensures Inv(Do(s, AfterStop(t)))
  {
    hide Count;
    var s' := Do(s, AfterStop(t));
    if s' != s {
      if StopperWillClose(s.stoppers[t]) { assert SomeoneCloses(s); }
      if SomeoneCloses(s') { assert SomeoneCloses(s); }
      if SomeoneCloses(s) && s'.closes == 0 {
        if u :| 0 <= u < |s.stoppers| && StopperWillClose(s.stoppers[u]) {
          assert StopperWillClose(s'.stoppers[u]);
        }
      }
    }
  }

  lemma {:induction false} RunKeepsInv(steps: seq<Step>)
    ensures Inv(Run(steps))
  {
    if steps != [] {
      RunKeepsInv(steps[..|steps| - 1]);
      var s := Run(steps[..|steps| - 1]);
      match steps[|steps| - 1] {
        case Enter => EnterKeeps(s);
        case Decide(h) => DecideKeeps(s, h);
        case Leave(h) => LeaveKeeps(s, h);
        case AfterLeave(h) => AfterLeaveKeeps(s, h);
        case Stop => StopKeeps(s);
        case AfterStop(t) => AfterStopKeeps(s, t);
      }
    }
  }

  /** In every run the done channel is closed at most once, and only after a stop, with no admitted
      handler running then or about to. */
  lemma ClosedOnceAndDrained(steps: seq<Step>)
    ensures var s := Run(steps);
            && s.closes <= 1
            && (s.closes == 1 ==> s.stoppers != [] && forall h :: 0 <= h < |s.handlers| ==> !Admitted(s.handlers[h]))
  {
    RunKeepsInv(steps);
  }

  /** After a stop no further request is admitted, whatever the step. */
  lemma NothingAdmittedAfterStop(steps: seq<Step>, step: Step, h: nat)
    requires Run(steps).stoppers != []
    requires h < |Do(Run(steps), step).handlers| && Admitted(Do(Run(steps), step).handlers[h])
    ensures h < |Run(steps).handlers| && Admitted(Run(steps).handlers[h])
  {
    RunKeepsInv(steps);
    WordArithmetic(Run(steps).word);
  }

  /** Shutdown is never stuck: once a stop was made and every handler has left, and every thread has
      acted on what it saw, the channel is closed. */
  lemma DrainCompletes(steps: seq<Step>)
    requires var s := Run(steps);
             && s.stoppers != []
             && (forall h :: 0 <= h < |s.handlers| ==> s.handlers[h].Gone?)
             && (forall t :: 0 <= t < |s.stoppers| ==> s.stoppers[t].Returned?)
    ensures Run(steps).closes == 1
  {
    RunKeepsInv(steps);
    NobodyLive(Run(steps).handlers);
  }

  lemma {:induction false} NobodyLive(handlers: seq<Handler>)
    requires forall h :: 0 <= h < |handlers| ==> handlers[h].Gone?
    ensures Live(handlers) == 0
  {
    if handlers != [] { NobodyLive(handlers[..|handlers| - 1]); }
  }
}
