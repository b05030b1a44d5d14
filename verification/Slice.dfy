/** A running slice: the goroutine that watches its process, and any number of
    concurrent `Wait` and `Stop` calls. */
module Slice {
  import opened Common

  type Error = int

  datatype Process = Running | Exited(err: Error)

  /** What the watcher goroutine does next. */
  datatype Watcher = Reaping | Cancelling(err: Error) | Recording(err: Error) | Closing | Finished

  datatype Caller =
    | Waiting                   // Wait, blocked on the exit channel
    | Reading
    | Returned(err: Error)
    | Interrupting              // Stop
    | Selecting
    | Killing
    | Draining                  // blocked on the exit channel after the kill
    | Stopped

  datatype Signal = Interrupt | Kill

  datatype Slice = Slice(
    process: Process,
    watcher: Watcher,
    waitErr: Option<Error>,
    closes: nat,                // how often the exit channel was closed
    signals: seq<(nat, Signal)>,   // sent to the process group, and by which call
    callers: map<nat, Caller>)

  datatype Action =
    | Exit(err: Error)
    | Watch
    | CallWait(c: nat)
    | CallStop(c: nat)
    | Go(c: nat, timeout: bool)

  const LAUNCHED: Slice := Slice(Running, Reaping, None, 0, [], map[])

  predicate Closed(s: Slice) { s.closes > 0 }

  /** The watcher: cmd.Wait, cancel, record the error, close the channel. */
  function WatchStep(s: Slice): Option<Slice> {
    match s.watcher
    case Reaping => if s.process.Exited? then Some(s.(watcher := Cancelling(s.process.err))) else None
    case Cancelling(e) => Some(s.(watcher := Recording(e)))
    case Recording(e) => Some(s.(watcher := Closing, waitErr := Some(e)))
    case Closing => Some(s.(watcher := Finished, closes := s.closes + 1))
    case Finished => None
  }

  function Move(s: Slice, c: nat, to: Caller): Slice { s.(callers := s.callers[c := to]) }

  function Sent(s: Slice, c: nat, g: Signal): Slice { s.(signals := s.signals + [(c, g)]) }

  /** A call goes on. Receiving from the exit channel needs it closed; reading the
      error before it is recorded would give the zero error, nil. */
  function CallerStep(s: Slice, c: nat, timeout: bool): Option<Slice>
    requires c in s.callers
  {
    match s.callers[c]
    case Waiting => if Closed(s) then Some(Move(s, c, Reading)) else None
    case Reading => Some(Move(s, c, Returned(if s.waitErr.Some? then s.waitErr.value else 0)))
    case Returned(_) => None
    case Interrupting => Some(Sent(Move(s, c, Selecting), c, Interrupt))
    case Selecting =>
      if timeout then Some(Move(s, c, Killing)) else if Closed(s) then Some(Move(s, c, Stopped)) else None
    case Killing => Some(Sent(Move(s, c, Draining), c, Kill))
    case Draining => if Closed(s) then Some(Move(s, c, Stopped)) else None
    case Stopped => None
  }

  function Step(s: Slice, a: Action): Option<Slice> {
    match a
    case Exit(e) => if s.process == Running then Some(s.(process := Exited(e))) else None
    case Watch => WatchStep(s)
    case CallWait(c) => if c in s.callers then None else Some(Move(s, c, Waiting))
    case CallStop(c) => if c in s.callers then None else Some(Move(s, c, Interrupting))
    case Go(c, timeout) => if c in s.callers then CallerStep(s, c, timeout) else None
  }

  function Exec(s: Slice, acts: seq<Action>): Option<Slice> {
    if acts == [] then Some(s)
    else
      match Exec(s, acts[..|acts| - 1])
      case None => None
      case Some(m) => Step(m, acts[|acts| - 1])
  }

  predicate Killed(s: Slice, c: nat) { (c, Kill) in s.signals }

  ghost predicate Inv(s: Slice) {
    && (s.closes == if s.watcher == Finished then 1 else 0)
    && (s.watcher != Reaping ==> s.process.Exited?)
    && (s.watcher.Cancelling? || s.watcher.Recording? ==> s.watcher.err == s.process.err)
    && (s.waitErr.Some? <==> s.watcher == Closing || s.watcher == Finished)
    && (s.waitErr.Some? ==> s.waitErr.value == s.process.err)
    && (forall c ::
          c in s.callers && (s.callers[c].Reading? || s.callers[c].Returned? || s.callers[c].Stopped?) ==> Closed(s))
    && (forall c :: c in s.callers && s.callers[c].Returned? ==> s.callers[c].err == s.process.err)
    && (forall c :: c in s.callers && s.callers[c].Draining? ==> Killed(s, c))
  }

  lemma StepKeeps(s: Slice, a: Action, s': Slice)
    requires Inv(s) && Step(s, a) == Some(s')
    ensures Inv(s')
  {
  }

  lemma {:induction false} RunKeeps(acts: seq<Action>, s: Slice)
    requires Exec(LAUNCHED, acts) == Some(s)
    ensures Inv(s)
    decreases |acts|
  {
    if acts == [] {
    } else {
      var m := Exec(LAUNCHED, acts[..|acts| - 1]).value;
      RunKeeps(acts[..|acts| - 1], m);
      StepKeeps(m, acts[|acts| - 1], s);
    }
  }

  /** In every interleaving the channel is closed at most once and only after the
      error is recorded, all `Wait` calls return that one error, which is the
      process's, and once a `Stop` has returned no `Wait` blocks. */
  lemma ExitIsBroadcast(acts: seq<Action>, s: Slice)
    requires Exec(LAUNCHED, acts) == Some(s)
    ensures s.closes <= 1 && (Closed(s) ==> s.waitErr.Some? && s.process == Exited(s.waitErr.value))
    ensures forall c :: c in s.callers && s.callers[c].Returned? ==> s.waitErr == Some(s.callers[c].err)
    ensures (exists c :: c in s.callers && s.callers[c].Stopped?) ==>
              forall w :: w in s.callers && s.callers[w].Waiting? ==> Step(s, Go(w, false)).Some?
  {
    RunKeeps(acts, s);
  }

  // ------------------------------------------------------------- which signals Stop sends

  /** The signals that call `c` has sent, in order. */
  function SignalsOf(signals: seq<(nat, Signal)>, c: nat): seq<Signal> {
    if signals == [] then []
    else
      var last := signals[|signals| - 1];
      SignalsOf(signals[..|signals| - 1], c) + if last.0 == c then [last.1] else []
  }

  /** Call `c` timed out in its select. */
  predicate TimedOut(acts: seq<Action>, c: nat) {
    acts != []
    && (|| TimedOut(acts[..|acts| - 1], c)
        || match Exec(LAUNCHED, acts[..|acts| - 1])
           case None => false
           case Some(m) => TimesOutNow(m, acts[|acts| - 1], c))
  }

  predicate TimesOutNow(s: Slice, a: Action, c: nat) {
    a == Go(c, true) && c in s.callers && s.callers[c] == Selecting
  }

  /** What a call has sent when it is at `at`, by whether it timed out. */
  predicate Fits(at: Caller, sent: seq<Signal>, timedOut: bool) {
    match at
    case Selecting => sent == [Interrupt] && !timedOut
    case Killing => sent == [Interrupt] && timedOut
    case Draining => sent == [Interrupt, Kill] && timedOut
    case Stopped => sent == if timedOut then [Interrupt, Kill] else [Interrupt]
    case _ => sent == [] && !timedOut
  }

  predicate SignalsFit(s: Slice, c: nat, timedOut: bool) {
    Fits(if c in s.callers then s.callers[c] else Waiting, SignalsOf(s.signals, c), timedOut)
  }

  lemma SentIsLast(signals: seq<(nat, Signal)>, who: nat, g: Signal, c: nat)
    ensures SignalsOf(signals + [(who, g)], c) == SignalsOf(signals, c) + if who == c then [g] else []
  {
    var longer := signals + [(who, g)];
    assert longer[..|longer| - 1] == signals;
  }

  lemma OwnSignals(s: Slice, c: nat, timeout: bool, s': Slice, timedOut: bool)
    requires SignalsFit(s, c, timedOut) && c in s.callers && CallerStep(s, c, timeout) == Some(s')
    ensures SignalsFit(s', c, timedOut || (timeout && s.callers[c] == Selecting))
  {
    match s.callers[c] {
      case Interrupting => SentIsLast(s.signals, c, Interrupt, c);
      case Killing =>
        SentIsLast(s.signals, c, Kill, c);
        assert [Interrupt] + [Kill] == [Interrupt, Kill];
      case _ =>
    }
  }

  /** What one step sends, and whom it moves. */
  lemma StepSends(s: Slice, a: Action, s': Slice)
    requires Step(s, a) == Some(s')
    ensures || s'.signals == s.signals
            || (a.Go? && exists g :: s'.signals == s.signals + [(a.c, g)])
    ensures a.Go? ==> forall c :: c != a.c ==> (c in s'.callers <==> c in s.callers)
    ensures forall c :: c in s.callers ==> c in s'.callers && (s'.callers[c] == s.callers[c] || (a.Go? && a.c == c))
    ensures forall c :: c in s'.callers && c !in s.callers ==> s'.callers[c] == Waiting || s'.callers[c] == Interrupting
  {
    if a.Go? && s.callers[a.c] == Interrupting { assert s'.signals == s.signals + [(a.c, Interrupt)]; }
    if a.Go? && s.callers[a.c] == Killing { assert s'.signals == s.signals + [(a.c, Kill)]; }
  }

  lemma OtherSignals(s: Slice, a: Action, s': Slice, c: nat, timedOut: bool)
    requires SignalsFit(s, c, timedOut) && Step(s, a) == Some(s') && !(a.Go? && a.c == c)
    ensures SignalsFit(s', c, timedOut)
  {
    StepSends(s, a, s');
    if s'.signals != s.signals {
      var g :| s'.signals == s.signals + [(a.c, g)];
      SentIsLast(s.signals, a.c, g, c);
    }
    assert SignalsOf(s'.signals, c) == SignalsOf(s.signals, c);
  }

  lemma SignalsStep(s: Slice, a: Action, s': Slice, c: nat, timedOut: bool)
    requires SignalsFit(s, c, timedOut) && Step(s, a) == Some(s')
    ensures SignalsFit(s', c, timedOut || TimesOutNow(s, a, c))
  {
    if a.Go? && a.c == c { OwnSignals(s, c, a.timeout, s', timedOut); } else { OtherSignals(s, a, s', c, timedOut); }
  }

  /** In every run a `Stop` first interrupts the process group, kills it exactly if it
      timed out waiting for the exit, and sends nothing else; `Wait` sends nothing. */
  lemma {:induction false} KillsOnlyAfterTimeout(acts: seq<Action>, s: Slice, c: nat)
    requires Exec(LAUNCHED, acts) == Some(s)
    ensures SignalsFit(s, c, TimedOut(acts, c))
    decreases |acts|
  {
    if acts == [] {
    } else {
      var m := Exec(LAUNCHED, acts[..|acts| - 1]).value;
      KillsOnlyAfterTimeout(acts[..|acts| - 1], m, c);
      SignalsStep(m, acts[|acts| - 1], s, c, TimedOut(acts[..|acts| - 1], c));
    }
  }

  // ------------------------------------------------------------- Stop terminates

  function WatcherToGo(w: Watcher): nat {
    match w
    case Reaping => 4
    case Cancelling(_) => 3
    case Recording(_) => 2
    case Closing => 1
    case Finished => 0
  }

  function CallerToGo(c: Caller): nat {
    match c
    case Waiting => 2
    case Reading => 1
    case Returned(_) => 0
    case Interrupting => 4
    case Selecting => 3
    case Killing => 2
    case Draining => 1
    case Stopped => 0
  }

  /** How far call `c` is from its return, counting what it waits for. */
  function ToGo(s: Slice, c: nat): nat
    requires c in s.callers
  {
    CallerToGo(s.callers[c]) + WatcherToGo(s.watcher) + if s.process == Running then 1 else 0
  }

  predicate Unfinished(s: Slice, c: nat) {
    c in s.callers && !s.callers[c].Returned? && !s.callers[c].Stopped?
  }

  /** The action that call `c` depends on next: its own, else the watcher's, else
      the exit of the process. */
  function Needed(s: Slice, c: nat): Action
    requires c in s.callers
  {
    if Closed(s) || !(s.callers[c].Waiting? || s.callers[c].Draining?) then Go(c, true)
    else if s.process.Exited? then Watch
    else Exit(0)
  }

  /** Action `a` is one that call `c` waits for, or its own. */
  predicate Helps(s: Slice, c: nat, a: Action) {
    Unfinished(s, c) && (a == Needed(s, c) || (a.Exit? && Needed(s, c).Exit?) || (a.Go? && a.c == c))
  }

  lemma NeededHelps(s: Slice, c: nat)
    requires Inv(s) && Unfinished(s, c)
    ensures Helps(s, c, Needed(s, c)) && Step(s, Needed(s, c)).Some?
    ensures Needed(s, c).Exit? ==> Killed(s, c) || s.callers[c].Waiting?
  {
  }

  lemma HelpingIsProgress(s: Slice, c: nat, a: Action, s': Slice)
    requires Inv(s) && Helps(s, c, a) && Step(s, a) == Some(s')
    ensures c in s'.callers && ToGo(s', c) < ToGo(s, c)
  {
  }

  lemma NeverFurther(s: Slice, c: nat, a: Action, s': Slice)
    requires Inv(s) && c in s.callers && Step(s, a) == Some(s')
    ensures c in s'.callers && ToGo(s', c) <= ToGo(s, c)
  {
  }

  /** How many actions of a run helped call `c`. */
  function Helped(s: Slice, acts: seq<Action>, c: nat): nat {
    if acts == [] then 0
    else
      Helped(s, acts[..|acts| - 1], c)
      + match Exec(s, acts[..|acts| - 1])
        case None => 0
        case Some(m) => if Helps(m, c, acts[|acts| - 1]) then 1 else 0
  }

  lemma {:induction false} HelpAddsUp(s: Slice, acts: seq<Action>, c: nat, s': Slice)
    requires Inv(s) && c in s.callers && Exec(s, acts) == Some(s')
    ensures Inv(s') && c in s'.callers && ToGo(s', c) + Helped(s, acts, c) <= ToGo(s, c)
    decreases |acts|
  {
    if acts == [] {
    } else {
      var m, a := Exec(s, acts[..|acts| - 1]).value, acts[|acts| - 1];
      HelpAddsUp(s, acts[..|acts| - 1], c, m);
      StepKeeps(m, a, s');
      NeverFurther(m, c, a, s');
      if Helps(m, c, a) { HelpingIsProgress(m, c, a, s'); }
    }
  }

  /** Every `Stop` and `Wait` returns: while a call has not, an action that helps
      it is possible, which for a `Stop` is the exit of the process only after its
      own kill was sent; and whatever else runs, after at most nine helping actions
      the call has returned. */
  lemma CallsTerminate(acts: seq<Action>, s: Slice, c: nat, more: seq<Action>, s': Slice)
    requires Exec(LAUNCHED, acts) == Some(s) && c in s.callers && Exec(s, more) == Some(s')
    ensures Helped(s, more, c) <= 9 && (Helped(s, more, c) == 9 ==> !Unfinished(s', c))
    ensures Unfinished(s', c) ==> Helps(s', c, Needed(s', c)) && Step(s', Needed(s', c)).Some?
    ensures Unfinished(s', c) && Needed(s', c).Exit? ==> Killed(s', c) || s'.callers[c].Waiting?
  {
    RunKeeps(acts, s);
    HelpAddsUp(s, more, c, s');
    if Unfinished(s', c) { NeededHelps(s', c); }
  }
}
