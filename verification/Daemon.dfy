/**
 The daemon's handlers and the driver as imperative code over the protocol state,
 under interference: before each command any number of actions of other threads
 may happen. Every method is proved to extend the daemon's one run.
 */
module Daemon {
  import opened Common
  import opened Zeroing
  import opened Lifecycle
  import opened LifecycleCells
  import opened LifecycleInv
  import opened LifecycleTheorems
  import opened LifecycleRetry
  import opened LifecycleRollback
  import opened LifecycleSanitized
  import opened Naming
  import opened Router

  /** A thread of the daemon, and the part of the state that only it moves. */
  datatype Thread = Launcher(n: nat) | Stopper(t: nat) | Sweeper(k: nat)

  predicate Mine(me: Thread, a: Action) {
    match me
    case Launcher(n) => (a.Launch? || a.Register?) && a.n == n
    case Stopper(t) => a.Tear? && a.t == t
    case Sweeper(k) => (a.SweepBegin? || a.SweepVisit? || a.SweepEnd?) && a.k == k
  }

  ghost predicate Running(me: Thread, s: State) {
    match me
    case Launcher(n) => n in s.inst && s.inst[n].pc != Up
    case Stopper(t) => t in s.tears
    case Sweeper(k) => k in s.sweeps && s.sweeps[k].current == None
  }

  ghost predicate Kept(me: Thread, s: State, s': State) {
    match me
    case Launcher(n) =>
      && n in s.inst && n in s'.inst
      && s'.inst[n].pc == s.inst[n].pc && s'.inst[n].diskResidue == s.inst[n].diskResidue
    case Stopper(t) => t in s.tears && t in s'.tears && s'.tears[t] == s.tears[t] && SweepKept(s.tears[t], s, s')
    case Sweeper(k) => k in s.sweeps && k in s'.sweeps && s'.sweeps[k] == s.sweeps[k]
  }

  /** The sweep that teardown `T` belongs to is where it was. */
  predicate SweepKept(T: Teardown, s: State, s': State) {
    T.origin.BySweep? && T.origin.k in s.sweeps ==>
      T.origin.k in s'.sweeps && s'.sweeps[T.origin.k] == s.sweeps[T.origin.k]
  }

  /** No other thread's action moves what this thread owns. */
  lemma OthersKeep(names: Names, me: Thread, s: State, a: Action, s': State)
    requires Injective(names.overlay) && Sound(names, s) && Step(names, s, a) == Some(s') && !Mine(me, a)
    requires (a.Create? ==> s.issued + 1 < WRAP) && Running(me, s)
    ensures Kept(me, s, s')
  {
    match me {
      case Launcher(n) =>
        OthersKeepPc(names, n, s, a, s');
        OthersKeepRecord(names, n, s, a, s');
      case Stopper(t) =>
        OthersKeepSweepOf(names, t, s, a, s');
        if a.Tear? { var next := TearShape(names, s, a.t, a.out, a.count, s'); } else { QuietShape(names, s, a, s'); }
      case Sweeper(k) => OthersKeepSweep(names, k, s, a, s');
    }
  }

  lemma OthersKeepPc(names: Names, n: nat, s: State, a: Action, s': State)
    requires Base(names, s) && Step(names, s, a) == Some(s') && !Mine(Launcher(n), a)
    requires (a.Create? ==> s.issued + 1 < WRAP) && n in s.inst && s.inst[n].pc != Up
    ensures n in s'.inst && s'.inst[n].pc == s.inst[n].pc
  {
    OthersKeepProgress(names, s, a, s', n);
    if s.inst[n].pc == Ready { OnlyRegisterRaises(names, s, a, s', n); }
  }

  /** Nor do they touch the record of what the launch has left behind. */
  lemma OthersKeepRecord(names: Names, n: nat, s: State, a: Action, s': State)
    requires Base(names, s) && Step(names, s, a) == Some(s') && !Mine(Launcher(n), a)
    requires (a.Create? ==> s.issued + 1 < WRAP) && n in s.inst && s.inst[n].pc != Up
    requires n in s'.inst && s'.inst[n].pc != Up
    ensures s'.inst[n].diskResidue == s.inst[n].diskResidue
  {
    RecordStep(names, s, a, s', n, if s.inst[n].diskResidue then {OverlayKept} else {}, false);
  }

  /** A handle that waits to be stored is stored by its own launch. */
  lemma OnlyRegisterRaises(names: Names, s: State, a: Action, s': State, n: nat)
    requires Base(names, s) && Step(names, s, a) == Some(s') && !Mine(Launcher(n), a)
    requires n in s.inst && s.inst[n].pc == Ready && n in s'.inst
    ensures s'.inst[n].pc != Up
  {
    if WritesCell(a) {
      WrittenIsStep(names, s, a, s');
    } else if a.Tear? {
      var c', next := TearParts(names, s, a.t, a.out, a.count, s');
      assert TearOk(names, s, s.tears[a.t]);
      ReplyLog(names, s, a.t, c', next);
    } else if !a.Create? {
      StartShape(names, s, a, s');
    }
  }

  lemma OthersKeepSweep(names: Names, k: nat, s: State, a: Action, s': State)
    requires Sound(names, s) && Step(names, s, a) == Some(s') && !Mine(Sweeper(k), a)
    requires k in s.sweeps && s.sweeps[k].current == None && (a.Create? ==> s.issued + 1 < WRAP)
    ensures k in s'.sweeps && s'.sweeps[k] == s.sweeps[k]
  {
    if a.Tear? {
      TearSweepLog(names, s, a.t, a.out, a.count, s');
      assert Awaited(s, s.tears[a.t]);
    } else if !a.SweepBegin? && !a.SweepVisit? && !a.SweepEnd? {
      OthersSkipSweeps(names, s, a, s');
    }
  }

  predicate HasCommand(pc: Pc) { pc != Failed && pc != Ready && pc != Up }

  lemma OthersKeepSweepOf(names: Names, t: nat, s: State, a: Action, s': State)
    requires Sound(names, s) && Step(names, s, a) == Some(s') && !Mine(Stopper(t), a)
    requires t in s.tears && (a.Create? ==> s.issued + 1 < WRAP)
    ensures SweepKept(s.tears[t], s, s')
  {
    assert Awaited(s, s.tears[t]);
    if a.Tear? {
      TearSweepLog(names, s, a.t, a.out, a.count, s');
    } else if a.SweepBegin? || a.SweepVisit? || a.SweepEnd? {
      SweepWaits(names, s, a, s', s.tears[t]);
    } else {
      OthersSkipSweeps(names, s, a, s');
    }
  }

  /** No sweep starts, moves on or ends while it waits for a teardown. */
  lemma SweepWaits(names: Names, s: State, a: Action, s': State, T: Teardown)
    requires Step(names, s, a) == Some(s') && (a.SweepBegin? || a.SweepVisit? || a.SweepEnd?) && Awaited(s, T)
    ensures SweepKept(T, s, s')
  {
  }

  /** A refused command is always possible, so a thread never gets stuck. */
  lemma RefusalIsPossible(names: Names, s: State, n: nat)
    ensures n in s.inst && HasCommand(s.inst[n].pc) ==> Step(names, s, Launch(n, Refused, [])).Some?
  {
    if n in s.inst && HasCommand(s.inst[n].pc) { assert LaunchCell(View(names, s, n), Refused, []).Some?; }
  }

  lemma RefusedTear(names: Names, s: State, t: nat)
    requires t in s.tears && s.tears[t].n in s.inst
    ensures TearStep(names, s, t, Refused, 0).Some?
  {
  }

  /** What the host answers to the twelve orders of one launch and to its rollback (0 the
      stop, 1 the removal of the overlay, 2 that of the link), and what the image holds. */
  datatype LaunchAnswers = LaunchAnswers(orders: nat -> Outcome, rollback: nat -> Outcome, image: seq<byte>)

  /** What the host answers to one `Stop`: to the steps of the shredder, with how far a
      write that fails gets, and to the release. */
  datatype StopAnswers = StopAnswers(shred: nat -> Outcome, written: nat, release: Outcome)

  /** The orders `lo` to `hi` are answered well. */
  ghost predicate OrdersWork(host: LaunchAnswers, lo: nat, hi: nat) {
    forall k: nat :: lo <= k < hi ==> host.orders(k) == Done
  }

  ghost predicate AllOrdersWork(host: LaunchAnswers) { OrdersWork(host, 0, 12) }

  lemma OrdersJoin(host: LaunchAnswers, lo: nat, mid: nat, hi: nat)
    requires lo <= mid <= hi
    ensures OrdersWork(host, lo, hi) <==> OrdersWork(host, lo, mid) && OrdersWork(host, mid, hi)
  {
  }

  predicate LinkOrdersWork(host: LaunchAnswers) {
    host.orders(1) == Done && host.orders(2) == Done && host.orders(3) == Done
  }

  lemma LinkOrders(host: LaunchAnswers)
    ensures OrdersWork(host, 1, 4) <==> LinkOrdersWork(host)
  {
  }

  lemma OneOrder(host: LaunchAnswers, k: nat)
    ensures OrdersWork(host, k, k + 1) <==> host.orders(k) == Done
  {
  }

  /** The launch leaves its overlay: the copy fails after creating it, or a later order
      fails and the removal does too. */
  ghost predicate OverlayLeft(host: LaunchAnswers) {
    && OrdersWork(host, 0, 4)
    && (|| host.orders(4) == Interrupted
        || (host.orders(4) == Done && !OrdersWork(host, 5, 12) && host.rollback(1) != Done))
  }

  /** The launch leaves its link: the command that makes it does so and reports failure,
      or a later order fails and the link cannot be deleted. */
  ghost predicate LinkLeft(host: LaunchAnswers) {
    && host.orders(0) == Done
    && (|| host.orders(1) == Interrupted
        || (host.orders(1) == Done && !OrdersWork(host, 2, 12) && host.rollback(2) == Refused))
  }

  /** The same of AllocateTAP. */
  predicate LinkStays(host: LaunchAnswers) {
    || host.orders(1) == Interrupted
    || (host.orders(1) == Done && !(host.orders(2) == Done && host.orders(3) == Done) && host.rollback(2) == Refused)
  }

  /** The same of all that comes before the process. */
  predicate BreaksCopy(host: LaunchAnswers) {
    host.orders(0) == Done && LinkOrdersWork(host) && host.orders(4) == Interrupted
  }

  predicate LinkStaysEarly(host: LaunchAnswers) {
    && host.orders(0) == Done
    && (LinkStays(host) || (LinkOrdersWork(host) && host.orders(4) != Done && host.rollback(2) == Refused))
  }

  lemma FirstFive(host: LaunchAnswers)
    ensures OrdersWork(host, 0, 5) <==> host.orders(0) == Done && LinkOrdersWork(host) && host.orders(4) == Done
  {
    OrdersJoin(host, 0, 1, 5);
    OrdersJoin(host, 1, 4, 5);
    LinkOrders(host);
    OneOrder(host, 0);
    OneOrder(host, 4);
  }

  /** How the parts add up. */
  lemma PartsLeft(host: LaunchAnswers)
    ensures !OrdersWork(host, 0, 5) ==>
              (OverlayLeft(host) <==> BreaksCopy(host)) && (LinkLeft(host) <==> LinkStaysEarly(host))
    ensures OrdersWork(host, 0, 5) && !OrdersWork(host, 5, 12) ==>
              (OverlayLeft(host) <==> host.rollback(1) != Done) && (LinkLeft(host) <==> host.rollback(2) == Refused)
  {
    OrdersJoin(host, 0, 4, 5);
    OrdersJoin(host, 0, 1, 4);
    OrdersJoin(host, 2, 5, 12);
    OrdersJoin(host, 2, 4, 5);
    OrdersJoin(host, 1, 2, 4);
    OneOrder(host, 0);
    OneOrder(host, 1);
    OneOrder(host, 4);
    LinkOrders(host);
  }

  /** The command at `pc` itself leaves the overlay, or the link. */
  predicate LeavesOverlayAt(pc: Pc, out: Outcome) {
    (pc == Copy && out == Interrupted) || (pc == DropOverlay && out != Done)
  }

  predicate LeavesLinkAt(pc: Pc, out: Outcome) {
    (pc == AddTap && out == Interrupted) || ((pc == UndoTap || pc == DropTap) && out == Refused)
  }

  ghost predicate ShredderWorks(host: StopAnswers) { forall k: nat :: host.shred(k) == Done }

  /** What stands in the way of a step of a teardown: an overlay or a link that is gone. */
  lemma OnlyAbsenceBlocks(names: Names, s: State, t: nat, count: nat)
    requires Base(names, s) && t in s.tears && s.tears[t].n in s.inst && TearStep(names, s, t, Done, count) == None
    ensures s.tears[t].stage.Opening? || s.tears[t].stage.Unlinking? ==> s.inst[s.tears[t].n].unlinked
    ensures s.tears[t].stage.Opening? || s.tears[t].stage.Unlinking? || s.tears[t].stage.Releasing?
    ensures s.tears[t].stage.Releasing? ==> names.tap(s.tears[t].n) !in s.links
  {
    var T := s.tears[t];
    assert TearOk(names, s, T) && CellInv(View(names, s, T.n));
    assert TearCell(View(names, s, T.n), T.n, T.stage, Done, count) == None;
    if Shredding(T.stage) {
      assert ShredCell(View(names, s, T.n), T.n, T.stage, Done, count) == None;
    } else {
      assert StopCell(View(names, s, T.n), T.stage, Done) == None;
    }
  }

  /** What a command does to the record of its own launch. */
  lemma CellRecords(c: Cell, out: Outcome, image: seq<byte>, c': Cell)
    requires CellInv(c) && HasCommand(c.i.pc) && LaunchCell(c, out, image) == Some(c')
    ensures c'.i.diskResidue <==> c.i.diskResidue || LeavesOverlayAt(c.i.pc, out)
    ensures (c.tap <==> TapHeldAt(c.i.pc)) ==> (c'.i.tapResidue <==> LeavesLinkAt(c.i.pc, out))
  {
  }

  /** Only a link that is there already stands in the way of an order or a rollback. */
  lemma CellAllows(c: Cell, out: Outcome, image: seq<byte>)
    requires CellInv(c) && HasCommand(c.i.pc) && LaunchCell(c, out, image) == None
    ensures c.i.pc == AddTap || c.i.pc == UndoTap || c.i.pc == DropTap
    ensures !(c.tap <==> TapHeldAt(c.i.pc))
    ensures out != Refused
  {
  }

  lemma Answered(names: Names, s: State, n: nat, out: Outcome, image: seq<byte>, answer: Outcome, s': State)
    requires Base(names, s) && n in s.inst && HasCommand(s.inst[n].pc) && Sent(names, s, n, out, image, answer, s')
    ensures n in s'.inst && (s'.inst[n].diskResidue <==> s.inst[n].diskResidue || LeavesOverlayAt(s.inst[n].pc, out))
    ensures OwnLink(names, s, n) ==> answer == out && (s'.inst[n].tapResidue <==> LeavesLinkAt(s.inst[n].pc, out))
    ensures answer != out ==> answer == Refused && (OrderAt(s.inst[n].pc).Some? ==> s.inst[n].pc == AddTap)
  {
    var c := View(names, s, n);
    assert CellInv(c);
    if LaunchCell(c, out, image) == None {
      CellAllows(c, out, image);
      CellRecords(c, Refused, [], LaunchCell(c, Refused, []).value);
    } else {
      CellRecords(c, out, image, LaunchCell(c, out, image).value);
    }
  }

  lemma HeldIsThere(c: Cell, foreign: bool)
    requires TapInv(c, foreign) && !foreign && HasCommand(c.i.pc)
    ensures c.tap <==> TapHeldAt(c.i.pc)
  {
  }

  /** The host answers `out` if the command can end so, and refuses it otherwise. */
  ghost predicate Sent(
    names: Names, s: State, n: nat, out: Outcome, image: seq<byte>, answer: Outcome, s': State)
    requires n in s.inst
  {
    var c := View(names, s, n);
    match LaunchCell(c, out, image)
    case Some(c') => answer == out && s' == PutCell(names, s, n, c')
    case None => answer == Refused && PutOption(names, s, n, LaunchCell(c, Refused, [])) == Some(s')
  }

  /** The link that bears the name of `n` is the one its launch holds, if it holds one. */
  ghost predicate OwnLink(names: Names, s: State, n: nat)
    requires n in s.inst
  {
    names.tap(n) in s.links <==> TapHeldAt(s.inst[n].pc)
  }

  class Daemon {
    const names: Names
    var st: State
    ghost const s0: State
    ghost var trace: seq<Action>

    /** The state is reached by the run so far, below 2^64 creates. */
    ghost predicate Valid()
      reads this
    {
      Injective(names.overlay) && Run(names, s0, trace, st) && Creates(trace) < WRAP
    }

    constructor (names: Names, host: State)
      requires Init(host) && Injective(names.overlay)
      ensures Valid() && this.names == names && st == host == s0 && trace == []
    {
      this.names := names;
      st := host;
      s0 := host;
      trace := [];
    }

    lemma StateIsSound()
      requires Valid()
      ensures Sound(names, st) && st.issued == Creates(trace)
    {
      RunIsSound(names, s0, trace, st);
    }

    /** One action of this thread or another. */
    method Do(a: Action)
      requires Valid() && Step(names, st, a).Some? && (a.Create? ==> Creates(trace) + 1 < WRAP)
      modifies this
      ensures Valid() && trace == old(trace) + [a] && Some(st) == Step(names, old(st), a)
      ensures Creates(trace) == Creates(old(trace)) + if a.Create? then 1 else 0
    {
      var next := Step(names, st, a).value;
      RunOneMore(names, s0, trace, st, a, next);
      st, trace := next, trace + [a];
    }

    /** Any number of actions of other threads. */
    method Others(me: Thread)
      requires Valid() && Running(me, st)
      modifies this
      ensures Valid() && old(trace) <= trace && Kept(me, old(st), st)
    {
      var rounds: nat := *;
      while rounds > 0
        invariant Valid() && Running(me, st)
        invariant old(trace) <= trace && Kept(me, old(st), st)
      {
        var a: Action := *;
        if !Mine(me, a) && Step(names, st, a).Some? && (a.Create? ==> st.issued + 1 < WRAP) {
          StateIsSound();
          OthersKeep(names, me, st, a, Step(names, st, a).value);
          Do(a);
        }
        rounds := rounds - 1;
      }
    }

    // ----------------------------------------------------------- LaunchVM

    /** The overlay of `n` is a fresh copy of the image. */
    ghost predicate HoldsImage(n: nat, image: seq<byte>)
      reads this
    {
      names.overlay(n) in st.disks && st.disks[names.overlay(n)] == Disk(image, {})
    }

    /** The overlay of `n` is on the host, and was not there before the daemon. */
    ghost predicate HasOverlay(n: nat)
      reads this
    {
      names.overlay(n) in st.disks && names.overlay(n) !in st.strayFiles
    }

    /** No other instance issued so far, and no link there before, bears the name of `n`. */
    ghost predicate OwnName(n: nat)
      reads this
    {
      InjectiveUpTo(names.tap, Creates(trace)) && names.tap(n) !in s0.links
    }

    lemma LinkIsOwn(n: nat)
      requires Valid() && OwnName(n) && n in st.inst && HasCommand(st.inst[n].pc)
      ensures OwnLink(names, st, n)
    {
      RunKeepsTaps(names, s0, trace, st);
      RunKeepsStrays(names, s0, trace, st);
      HeldIsThere(View(names, st, n), names.tap(n) in st.strayLinks);
    }

    /** The next command of the launch of `n`, which the host answers with `out`; only
        a link of its name that is there stands in the way. */
    method Command(n: nat, ghost pc: Pc, out: Outcome, image: seq<byte>) returns (ok: bool)
      requires Valid() && n in st.inst && st.inst[n].pc == pc && HasCommand(pc)
      modifies this
      ensures Valid() && old(trace) <= trace && n in st.inst
      ensures st.inst[n].pc == AfterCommand(pc, ok)
      ensures ok ==> out == Done
      ensures !ok && out == Done && OrderAt(pc).Some? ==> pc == AddTap && !OwnName(n)
      ensures ok && pc == Copy ==> HoldsImage(n, image)
      ensures st.inst[n].diskResidue <==> old(st.inst[n].diskResidue) || LeavesOverlayAt(pc, out)
      ensures OwnName(n) ==> (st.inst[n].tapResidue <==> LeavesLinkAt(pc, out))
    {
      Others(Launcher(n));
      StateIsSound();
      ghost var before, own := st, OwnName(n);
      if own { LinkIsOwn(n); }
      var answer, written := out, image;
      if Step(names, st, Launch(n, out, image)).None? {
        answer, written := Refused, [];
        RefusalIsPossible(names, st, n);
      }
      Do(Launch(n, answer, written));
      ok := answer == Done;
      LaunchMoves(names, before, n, answer, written, st);
      if ok && pc == Copy { CopyMakes(names, before, n, written, st); }
      Answered(names, before, n, out, image, answer, st);
      assert OwnName(n) ==> own;
    }

    /** FirecrackerDriver.LaunchVM with its hand-written rollback. In whatever way
        the commands fail and whatever runs beside it, it returns a handle exactly
        when all its commands were given, in order, and succeeded; otherwise the launch
        is over, nothing is registered, and the host keeps its TAP or overlay exactly if
        one of its own commands went astray. Where no other link has its name, that is
        when the host answers all twelve orders well; and what is left of a launch that
        fails is told by the answers to its rollback. */
    method LaunchVM(n: nat, host: LaunchAnswers) returns (ok: bool)
      requires Valid() && n in st.inst && st.inst[n].pc == Bridge
      modifies this
      ensures Valid() && old(trace) <= trace && n in st.inst
      ensures st.inst[n].pc == if ok then Ready else Failed
      ensures InOrder(Orders(names, s0, trace, n)) && (ok <==> Complete(Orders(names, s0, trace, n)))
      ensures ok ==> AllOrdersWork(host)
      ensures OwnName(n) ==> (ok <==> AllOrdersWork(host))
      ensures OwnName(n) && !ok ==> (HasOverlay(n) <==> OverlayLeft(host))
      ensures OwnName(n) && !ok ==> (names.tap(n) in st.links <==> LinkLeft(host))
      ensures !ok ==> !st.inst[n].registered && (st.inst[n].alive ==> st.inst[n].stopped)
      ensures !ok ==> (HasOverlay(n) <==> LeavesOverlay(Mishaps(names, s0, trace, n)))
      ensures !ok && InjectiveUpTo(names.tap, Creates(trace)) ==>
                (names.tap(n) in st.links && names.tap(n) !in s0.links <==> LeavesTap(Mishaps(names, s0, trace, n)))
    {
      StateIsSound();
      assert CellInv(View(names, st, n));
      ok := Acquire(n, host);
      HandleIffComplete(names, s0, trace, st, n);
      if !ok {
        RollbackIsExact(names, s0, trace, st, n);
        if InjectiveUpTo(names.tap, Creates(trace)) {
          RollbackReleasesLink(names, s0, trace, st, n);
        }
        RunRecords(names, s0, trace, st, n, InjectiveUpTo(names.tap, Creates(trace)));
      }
    }

    /** The stages and rollbacks of LaunchVM, as the code branches. */
    method Acquire(n: nat, host: LaunchAnswers) returns (ok: bool)
      requires Valid() && n in st.inst && st.inst[n].pc == Bridge && !st.inst[n].diskResidue
      modifies this
      ensures Valid() && old(trace) <= trace && n in st.inst
      ensures st.inst[n].pc == if ok then Ready else Failed
      ensures ok ==> AllOrdersWork(host)
      ensures !ok && AllOrdersWork(host) ==> !OwnName(n)
      ensures !ok && OwnName(n) ==>
                (st.inst[n].diskResidue <==> OverlayLeft(host)) && (st.inst[n].tapResidue <==> LinkLeft(host))
    {
      OrdersJoin(host, 0, 5, 12);
      PartsLeft(host);
      ok := Prepare(n, host);
      if !ok { return false; }
      ok := SpawnAndBoot(n, host);
    }

    /** Spawn the process and boot it. */
    method SpawnAndBoot(n: nat, host: LaunchAnswers) returns (ok: bool)
      requires Valid() && n in st.inst && st.inst[n].pc == Spawn && !st.inst[n].diskResidue
      modifies this
      ensures Valid() && old(trace) <= trace && n in st.inst && st.inst[n].pc == if ok then Ready else Failed
      ensures ok <==> OrdersWork(host, 5, 12)
      ensures !ok ==> (st.inst[n].diskResidue <==> host.rollback(1) != Done)
      ensures !ok && OwnName(n) ==> (st.inst[n].tapResidue <==> host.rollback(2) == Refused)
    {
      OrdersJoin(host, 5, 6, 12);
      OneOrder(host, 5);
      ok := Command(n, Spawn, host.orders(5), []);
      if !ok {
        RemoveAndRelease(n, host);
        return false;
      }
      ok := Boot(n, host);
    }

    /** Bridge, TAP and overlay. */
    method Prepare(n: nat, host: LaunchAnswers) returns (ok: bool)
      requires Valid() && n in st.inst && st.inst[n].pc == Bridge && !st.inst[n].diskResidue
      modifies this
      ensures Valid() && old(trace) <= trace && n in st.inst
      ensures st.inst[n].pc == if ok then Spawn else Failed
      ensures ok ==> OrdersWork(host, 0, 5) && HoldsImage(n, host.image)
      ensures !ok && OrdersWork(host, 0, 5) ==> !OwnName(n)
      ensures ok ==> !st.inst[n].diskResidue
      ensures !ok && OwnName(n) ==>
                (st.inst[n].diskResidue <==> BreaksCopy(host)) && (st.inst[n].tapResidue <==> LinkStaysEarly(host))
    {
      FirstFive(host);
      ok := Command(n, Bridge, host.orders(0), []);
      if !ok { return false; }
      ok := AllocateTAP(n, host);
      if !ok { return false; }
      ok := CopyOverlay(n, host);
    }

    /** copyFile; if it fails the link is released. */
    method CopyOverlay(n: nat, host: LaunchAnswers) returns (ok: bool)
      requires Valid() && n in st.inst && st.inst[n].pc == Copy && !st.inst[n].diskResidue
      modifies this
      ensures Valid() && old(trace) <= trace && n in st.inst
      ensures st.inst[n].pc == if ok then Spawn else Failed
      ensures ok <==> host.orders(4) == Done
      ensures ok ==> HoldsImage(n, host.image)
      ensures st.inst[n].diskResidue <==> host.orders(4) == Interrupted
      ensures !ok && OwnName(n) ==> (st.inst[n].tapResidue <==> host.rollback(2) == Refused)
    {
      ok := Command(n, Copy, host.orders(4), host.image);
      if !ok { var _ := Command(n, DropTap, host.rollback(2), []); }
    }

    /** Wait for the socket, then send the requests; any failure rolls everything back. */
    method Boot(n: nat, host: LaunchAnswers) returns (ok: bool)
      requires Valid() && n in st.inst && st.inst[n].pc == Poll
      modifies this
      ensures Valid() && old(trace) <= trace && n in st.inst && st.inst[n].pc == if ok then Ready else Failed
      ensures ok <==> OrdersWork(host, 6, 12)
      ensures !ok ==> (st.inst[n].diskResidue <==> old(st.inst[n].diskResidue) || host.rollback(1) != Done)
      ensures !ok && OwnName(n) ==> (st.inst[n].tapResidue <==> host.rollback(2) == Refused)
    {
      OrdersJoin(host, 6, 7, 12);
      OneOrder(host, 6);
      ok := Command(n, Poll, host.orders(6), []);
      if ok { ok := SendRequests(n, host); }
      if !ok { StopRemoveAndRelease(n, host); }
    }

    /** Configure, ConfigureNetwork and StartVM. */
    method SendRequests(n: nat, host: LaunchAnswers) returns (ok: bool)
      requires Valid() && n in st.inst && st.inst[n].pc == Put(0)
      modifies this
      ensures Valid() && old(trace) <= trace && n in st.inst && st.inst[n].pc == if ok then Ready else Halt
      ensures ok <==> OrdersWork(host, 7, 12)
      ensures st.inst[n].diskResidue == old(st.inst[n].diskResidue)
    {
      var acked: nat := 0;
      while acked < PUTS
        invariant acked <= PUTS && Valid() && old(trace) <= trace && n in st.inst
        invariant st.inst[n].pc == if acked < PUTS then Put(acked) else Ready
        invariant OrdersWork(host, 7, 7 + acked) && st.inst[n].diskResidue == old(st.inst[n].diskResidue)
      {
        OneOrder(host, 7 + acked);
        ok := SendRequest(n, acked, host);
        if !ok { return; }
        acked := acked + 1;
      }
      return true;
    }

    method SendRequest(n: nat, acked: nat, host: LaunchAnswers) returns (ok: bool)
      requires Valid() && n in st.inst && st.inst[n].pc == Put(acked) && acked < PUTS
      modifies this
      ensures Valid() && old(trace) <= trace && n in st.inst
      ensures st.inst[n].pc == if !ok then Halt else if acked + 1 < PUTS then Put(acked + 1) else Ready
      ensures ok <==> host.orders(7 + acked) == Done
      ensures st.inst[n].diskResidue == old(st.inst[n].diskResidue)
    {
      ok := Command(n, Put(acked), host.orders(7 + acked), []);
    }

    method AllocateTAP(n: nat, host: LaunchAnswers) returns (ok: bool)
      requires Valid() && n in st.inst && st.inst[n].pc == AddTap
      modifies this
      ensures Valid() && old(trace) <= trace && n in st.inst
      ensures st.inst[n].pc == if ok then Copy else Failed
      ensures ok ==> LinkOrdersWork(host)
      ensures !ok && LinkOrdersWork(host) ==> !OwnName(n)
      ensures st.inst[n].diskResidue == old(st.inst[n].diskResidue)
      ensures !ok && OwnName(n) ==> (st.inst[n].tapResidue <==> LinkStays(host))
    {
      ok := Command(n, AddTap, host.orders(1), []);
      if !ok { return false; }
      ok := BringLinkUp(n, host);
    }

    /** Attach the link and raise it, or delete it again. */
    method BringLinkUp(n: nat, host: LaunchAnswers) returns (ok: bool)
      requires Valid() && n in st.inst && st.inst[n].pc == AttachTap
      modifies this
      ensures Valid() && old(trace) <= trace && n in st.inst
      ensures st.inst[n].pc == if ok then Copy else Failed
      ensures ok <==> host.orders(2) == Done && host.orders(3) == Done
      ensures st.inst[n].diskResidue == old(st.inst[n].diskResidue)
      ensures !ok && OwnName(n) ==> (st.inst[n].tapResidue <==> host.rollback(2) == Refused)
    {
      ok := Command(n, AttachTap, host.orders(2), []);
      if !ok {
        UndoLink(n, host);
        return false;
      }
      ok := Command(n, RaiseTap, host.orders(3), []);
      if !ok { UndoLink(n, host); }
    }

    method UndoLink(n: nat, host: LaunchAnswers)
      requires Valid() && n in st.inst && st.inst[n].pc == UndoTap
      modifies this
      ensures Valid() && old(trace) <= trace && n in st.inst && st.inst[n].pc == Failed
      ensures st.inst[n].diskResidue == old(st.inst[n].diskResidue)
      ensures OwnName(n) ==> (st.inst[n].tapResidue <==> host.rollback(2) == Refused)
    {
      var _ := Command(n, UndoTap, host.rollback(2), []);
    }

    method RemoveAndRelease(n: nat, host: LaunchAnswers)
      requires Valid() && n in st.inst && st.inst[n].pc == DropOverlay
      modifies this
      ensures Valid() && old(trace) <= trace && n in st.inst && st.inst[n].pc == Failed
      ensures st.inst[n].diskResidue <==> old(st.inst[n].diskResidue) || host.rollback(1) != Done
      ensures OwnName(n) ==> (st.inst[n].tapResidue <==> host.rollback(2) == Refused)
    {
      var _ := Command(n, DropOverlay, host.rollback(1), []);
      var _ := Command(n, DropTap, host.rollback(2), []);
    }

    method StopRemoveAndRelease(n: nat, host: LaunchAnswers)
      requires Valid() && n in st.inst && st.inst[n].pc == Halt
      modifies this
      ensures Valid() && old(trace) <= trace && n in st.inst && st.inst[n].pc == Failed
      ensures st.inst[n].diskResidue <==> old(st.inst[n].diskResidue) || host.rollback(1) != Done
      ensures OwnName(n) ==> (st.inst[n].tapResidue <==> host.rollback(2) == Refused)
    {
      var _ := Command(n, Halt, host.rollback(0), []);
      RemoveAndRelease(n, host);
    }

    // ----------------------------------------------------------- the Stop closure

    /** The next step of teardown `t`, which the host answers with `out`; only an
        overlay or a link that is gone stands in the way. `before` is the state that the
        step found, `answer` how it ended. */
    method TearCommand(t: nat, out: Outcome, written: nat)
      returns (ok: bool, ghost before: State, ghost answer: Outcome, ghost count: nat)
      requires Valid() && t in st.tears
      modifies this
      ensures Valid() && old(trace) <= trace && trace[|trace| - 1..] == [Tear(t, answer, count)] && Sound(names, before)
      ensures Kept(Stopper(t), old(st), before)
      ensures TearStep(names, before, t, answer, count) == Some(st) && (ok <==> answer == Done)
      ensures ok ==> out == Done
      ensures !ok && out == Done ==> TearStep(names, before, t, Done, count) == None
    {
      Others(Stopper(t));
      StateIsSound();
      var step := TearAnswer(names, st, t, out, written);
      AnswerFits(names, st, t, out, written);
      before, answer, count := st, step.0, step.1;
      Do(Tear(t, step.0, step.1));
      ok := step.0 == Done;
    }

    /** A step of teardown `t` that does not end it. */
    method TearTo(t: nat, out: Outcome, written: nat) returns (ok: bool)
      requires Valid() && t in st.tears && st.tears[t].stage != Dropping
      requires !(st.tears[t].stage == Reporting && st.tears[t].origin.ByDelete?)
      modifies this
      ensures Valid() && old(trace) <= trace
      ensures t in st.tears && st.tears[t] == old(st.tears[t]).(stage := st.tears[t].stage)
      ensures StageAfter(old(st.tears[t].stage), st.tears[t].stage, ok)
      ensures SweepKept(old(st.tears[t]), old(st), st)
      ensures ok ==> out == Done
      ensures !ok && out == Done ==> Blocked(names, st, old(st.tears[t]))
      ensures ok && old(st.tears[t].stage) == Releasing ==> IsReleased(st, old(st.tears[t].n))
    {
      ghost var before, answer, count;
      ok, before, answer, count := TearCommand(t, out, written);
      TearMoves(names, before, t, answer, count, st);
      if !ok && out == Done { BlockedStays(names, before, t, answer, count, st); }
      if ok && before.tears[t].stage == Releasing { ReleaseReleases(names, before, t, count, st); }
    }

    /** ShredFile on the overlay, then the audit if it succeeded. If the host answers
        every step well, the overlay is gone for good. */
    method ShredOverlay(t: nat, host: StopAnswers)
      requires Valid() && t in st.tears && st.tears[t].stage == Opening
      modifies this
      ensures Valid() && old(trace) <= trace
      ensures t in st.tears && st.tears[t] == old(st.tears[t]).(stage := Releasing)
      ensures SweepKept(old(st.tears[t]), old(st), st)
      ensures ShredderWorks(host) ==> Unlinked(st, st.tears[t].n)
    {
      var ok := TearTo(t, host.shred(0), host.written);           // open and stat
      if !ok { return; }
      var k: nat := 1;
      while st.tears[t].stage.off < st.tears[t].stage.size
        invariant Valid() && old(trace) <= trace && t in st.tears && st.tears[t].stage.Wiping?
        invariant st.tears[t] == old(st.tears[t]).(stage := st.tears[t].stage)
        invariant SweepKept(old(st.tears[t]), old(st), st)
        decreases st.tears[t].stage.size - st.tears[t].stage.off
      {
        ok := TearTo(t, host.shred(k), host.written);             // write zeros
        if !ok { return; }
        k := k + 1;
      }
      ok := TearTo(t, host.shred(k), host.written);               // sync, seek, read, hash
      if !ok { return; }
      ok := TearTo(t, host.shred(k + 1), host.written);           // unlink
      if !ok { return; }
      WriteAudit(t);
    }

    /** RegisterAudit. */
    method WriteAudit(t: nat)
      requires Valid() && t in st.tears && st.tears[t].stage.Auditing?
      modifies this
      ensures Valid() && old(trace) <= trace
      ensures t in st.tears && st.tears[t] == old(st.tears[t]).(stage := Releasing)
      ensures SweepKept(old(st.tears[t]), old(st), st)
      ensures Unlinked(st, st.tears[t].n)
    {
      ghost var tr, s := trace, st;
      StateIsSound();
      assert TearOk(names, st, st.tears[t]);
      var _ := TearTo(t, Done, 0);
      HistoriesGrow(tr, s, s.tears[t].n);
    }

    /** What the host answered well is done: the overlay is gone, and, where names are
        distinct, the link. */
    ghost predicate DoneAs(n: nat, host: StopAnswers)
      reads this
    {
      && (ShredderWorks(host) ==> Unlinked(st, n))
      && (host.release == Done && InjectiveUpTo(names.tap, Creates(trace)) ==> IsReleased(st, n))
    }

    /** And stays done. */
    lemma DoneStays(tr: seq<Action>, s: State, n: nat, host: StopAnswers)
      requires Valid() && Run(names, s0, tr, s) && tr <= trace && IsUp(s, n)
      requires ShredderWorks(host) ==> Unlinked(s, n)
      requires host.release == Done && InjectiveUpTo(names.tap, Creates(tr)) ==> IsReleased(s, n)
      ensures DoneAs(n, host)
    {
      HistoriesGrow(tr, s, n);
      CreatesGrow(tr);
    }

    /** The Stop closure: stop the process, shred, audit, release the TAP. It fails
        exactly if the release does. */
    method Stop(t: nat, host: StopAnswers) returns (failed: bool)
      requires Valid() && t in st.tears && st.tears[t].stage == Halting
      modifies this
      ensures Valid() && old(trace) <= trace
      ensures t in st.tears && st.tears[t] == old(st.tears[t]).(stage := if failed then Reporting else Dropping)
      ensures SweepKept(old(st.tears[t]), old(st), st)
      ensures host.release != Done ==> failed
      ensures DoneAs(st.tears[t].n, host)
    {
      var _ := TearTo(t, Done, 0);
      ShredOverlay(t, host);
      failed := Release(t, host);
    }

    /** ReleaseTAP. */
    method Release(t: nat, host: StopAnswers) returns (failed: bool)
      requires Valid() && t in st.tears && st.tears[t].stage == Releasing
      modifies this
      ensures Valid() && old(trace) <= trace
      ensures t in st.tears && st.tears[t] == old(st.tears[t]).(stage := if failed then Reporting else Dropping)
      ensures SweepKept(old(st.tears[t]), old(st), st)
      ensures Unlinked(old(st), old(st.tears[t].n)) ==> Unlinked(st, st.tears[t].n)
      ensures host.release != Done ==> failed
      ensures host.release == Done && InjectiveUpTo(names.tap, Creates(trace)) ==> IsReleased(st, st.tears[t].n)
    {
      ghost var tr, s := trace, st;
      StateIsSound();
      assert TearOk(names, st, st.tears[t]);
      var ok := TearTo(t, host.release, 0);
      HistoriesGrow(tr, s, s.tears[t].n);
      failed := !ok;
      if failed && host.release == Done && InjectiveUpTo(names.tap, Creates(trace)) {
        NoLinkMeansReleased(s.tears[t].n);
      }
    }

    /** Where names are distinct, the link of an instance that came up is only gone if it
        was released. */
    lemma NoLinkMeansReleased(n: nat)
      requires Valid() && InjectiveUpTo(names.tap, Creates(trace)) && IsUp(st, n) && names.tap(n) !in st.links
      ensures IsReleased(st, n)
    {
      RunKeepsTaps(names, s0, trace, st);
      assert TapInv(View(names, st, n), names.tap(n) in st.strayLinks);
    }

    /** What is on record of an instance that came up stays on record. */
    lemma HistoriesGrow(tr: seq<Action>, s: State, n: nat)
      requires Valid() && Run(names, s0, tr, s) && tr <= trace && IsUp(s, n)
      ensures IsUp(st, n) && InstLater(s.inst[n], st.inst[n])
    {
      var rest := trace[|tr|..];
      assert trace == tr + rest;
      ExecSplit(names, s0, tr, rest);
      RunIsSound(names, s0, tr, s);
      RunIsLater(names, s, rest, st, n);
    }

    // ----------------------------------------------------------- the handlers

    /** handleCreateInstance. A body that does not decode issues no id. */
    method HandleCreate(wellFormed: bool, host: LaunchAnswers) returns (code: nat, ghost n: nat)
      requires Valid() && Creates(trace) + 1 < WRAP
      modifies this
      ensures Valid() && old(trace) <= trace
      ensures code == 400 <==> !wellFormed
      ensures code == 400 ==> st == old(st)
      ensures code != 400 ==> n == old(st.issued) + 1 && n !in old(st.inst) && n in st.inst
      ensures code == 201 ==> Registered(st, n) && AllOrdersWork(host)
      ensures code == 500 ==> st.inst[n].pc == Failed && !st.inst[n].registered
      ensures code == 500 && OwnName(n) ==> !AllOrdersWork(host)
      ensures code == 500 && OwnName(n) ==> (HasOverlay(n) <==> OverlayLeft(host))
      ensures code == 500 && OwnName(n) ==> (names.tap(n) in st.links <==> LinkLeft(host))
      ensures code in {400, 201, 500}
    {
      if !wellFormed { return 400, 0; }
      StateIsSound();
      CreateShape(names, st, Step(names, st, Create).value);
      Do(Create);
      var id := st.issued;
      var ok := LaunchVM(id, host);
      if !ok { return 500, id; }
      Store(id);
      return 201, id;
    }

    /** sync.Map.Store of the handle. */
    method Store(n: nat)
      requires Valid() && n in st.inst && st.inst[n].pc == Ready
      modifies this
      ensures Valid() && old(trace) <= trace && Registered(st, n)
    {
      Others(Launcher(n));
      ghost var before := st;
      assert Step(names, st, Register(n)).Some?;
      Do(Register(n));
      RegisterRegisters(names, before, n, st);
    }

    /** sync.Map.Load. */
    method Load(id: string) returns (found: bool, n: nat)
      ensures found ==> Registered(st, n) && InstanceId(n) == id
      ensures !found ==> forall m: nat :: Registered(st, m) ==> InstanceId(m) != id
    {
      if exists m | m in st.inst :: st.inst[m].registered && InstanceId(m) == id {
        n :| n in st.inst && st.inst[n].registered && InstanceId(n) == id;
        return true, n;
      }
      return false, 0;
    }

    /** handleDeleteInstance. A 204 means the instance is unregistered for good and
        its TAP is gone; a 500 means its Stop failed, and the entry is still there
        unless another DELETE was answered 204 or a StopAll visited it meanwhile. */
    method HandleDelete(id: string, host: StopAnswers) returns (code: nat, ghost n: nat)
      requires Valid()
      modifies this
      ensures Valid() && old(trace) <= trace
      ensures code in {404, 204, 500}
      ensures code == 404 ==> st == old(st) && forall m: nat :: Registered(st, m) ==> InstanceId(m) != id
      ensures code != 404 ==> Registered(old(st), n) && InstanceId(n) == id
      ensures code != 404 ==> st.replies != [] && st.replies[|st.replies| - 1] == Reply(n, code)
      ensures code != 404 ==> DoneAs(n, host)
      ensures code == 204 ==> Removed(st, n) && host.release == Done
      ensures code == 204 && InjectiveUpTo(names.tap, Creates(trace)) ==> names.tap(n) !in st.links
      ensures code == 500 ==> EntryKept(old(st), old(trace), n)
    {
      var found, m := Load(id);
      if !found { return 404, 0; }
      ghost var tr, s := trace, st;
      code := StopAndAnswer(m, host);
      EntryIsThere(tr, s, m);
      if InjectiveUpTo(names.tap, Creates(trace)) && code == 204 { NoTapAfterReply(m); }
      n := m;
    }

    /** The entry of `n` is there, or was answered 204 or visited by a StopAll since `tr`. */
    ghost predicate EntryKept(s: State, tr: seq<Action>, n: nat)
      requires tr <= trace
      reads this
    {
      Registered(st, n) || AnsweredSince(s, st, n) || Swept(names, s, trace[|tr|..], n)
    }

    /** Stop a registered instance, then delete its entry or answer 500. */
    method StopAndAnswer(n: nat, host: StopAnswers) returns (code: nat)
      requires Valid() && Registered(st, n)
      modifies this
      ensures Valid() && old(trace) <= trace && code in {204, 500}
      ensures st.replies != [] && st.replies[|st.replies| - 1] == Reply(n, code)
      ensures code == 204 ==> Removed(st, n) && host.release == Done
      ensures DoneAs(n, host)
    {
      var t := BeginDelete(n);
      var failed := Stop(t, host);
      code := if failed then 500 else 204;
      Report(t, code);
    }

    /** The answer, after which everything on record is still on record. */
    method Report(t: nat, code: nat)
      requires Valid() && t in st.tears && st.tears[t].origin.ByDelete?
      requires (code == 204 && st.tears[t].stage == Dropping) || (code == 500 && st.tears[t].stage == Reporting)
      modifies this
      ensures Valid() && old(trace) <= trace && Creates(trace) >= Creates(old(trace))
      ensures st.replies != [] && st.replies[|st.replies| - 1] == Reply(old(st.tears[t].n), code)
      ensures code == 204 ==> Removed(st, old(st.tears[t].n))
      ensures Unlinked(old(st), old(st.tears[t].n)) ==> Unlinked(st, old(st.tears[t].n))
      ensures IsReleased(old(st), old(st.tears[t].n)) ==> IsReleased(st, old(st.tears[t].n))
    {
      ghost var tr, s := trace, st;
      StateIsSound();
      assert TearOk(names, st, st.tears[t]);
      Answer(t, code);
      HistoriesGrow(tr, s, s.tears[t].n);
      CreatesGrow(tr);
    }

    lemma CreatesGrow(tr: seq<Action>)
      requires Valid() && tr <= trace
      ensures Creates(tr) <= Creates(trace)
    {
      var rest := trace[|tr|..];
      assert trace == tr + rest;
      ExecSplit(names, s0, tr, rest);
    }

    method BeginDelete(n: nat) returns (t: nat)
      requires Valid() && Registered(st, n)
      modifies this
      ensures Valid() && old(trace) <= trace && t in st.tears && st.tears[t] == Teardown(n, ByDelete, Halting)
    {
      FreshNumber(st.tears.Keys);
      t :| t !in st.tears;
      Do(Delete(n, t));
    }

    method Answer(t: nat, code: nat)
      requires Valid() && t in st.tears && st.tears[t].origin.ByDelete?
      requires (code == 204 && st.tears[t].stage == Dropping) || (code == 500 && st.tears[t].stage == Reporting)
      modifies this
      ensures Valid() && old(trace) <= trace
      ensures st.replies != [] && st.replies[|st.replies| - 1] == Reply(old(st.tears[t].n), code)
      ensures code == 204 ==> Removed(st, old(st.tears[t].n))
    {
      ghost var before, answer, count;
      var ok;
      ok, before, answer, count := TearCommand(t, Done, 0);
      EndsDelete(names, before, t, answer, count, st);
    }

    lemma NoTapAfterReply(n: nat)
      requires Valid() && InjectiveUpTo(names.tap, Creates(trace))
      requires st.replies != [] && st.replies[|st.replies| - 1] == Reply(n, 204)
      ensures names.tap(n) !in st.links
    {
      DeletedOnceAndGone(names, s0, trace, st);
    }

    /** An entry that was there is there, but for a 204 or a StopAll since. */
    lemma EntryIsThere(tr: seq<Action>, s: State, n: nat)
      requires Valid() && Run(names, s0, tr, s) && tr <= trace && Registered(s, n)
      ensures EntryKept(s, tr, n)
    {
      var rest := trace[|tr|..];
      assert trace == tr + rest;
      ExecSplit(names, s0, tr, rest);
      RunIsSound(names, s0, tr, s);
      EntryStays(names, s, rest, st, n);
    }

    /** What is removed stays removed. */
    lemma StaysRemoved(tr: seq<Action>, s: State, n: nat)
      requires Valid() && Run(names, s0, tr, s) && tr <= trace && Removed(s, n)
      ensures Removed(st, n)
    {
      HistoriesGrow(tr, s, n);
    }

    /** One entry of the range: skipped if it is gone, stopped and deleted if not. */
    method Visit(k: nat, n: nat, host: StopAnswers)
      requires Valid() && k in st.sweeps && st.sweeps[k].current == None && n !in st.sweeps[k].visited && IsUp(st, n)
      modifies this
      ensures Valid() && old(trace) <= trace
      ensures k in st.sweeps && st.sweeps[k].current == None && st.sweeps[k].start == old(st.sweeps[k].start)
      ensures Removed(st, n) && old(st.sweeps[k].visited) <= st.sweeps[k].visited <= old(st.sweeps[k].visited) + {n}
      ensures n in st.sweeps[k].visited ==> DoneAs(n, host)
    {
      ghost var tr, s := trace, st;
      Others(Sweeper(k));
      if !(n in st.inst && st.inst[n].registered) {
        HistoriesGrow(tr, s, n);
        return;
      }
      var t := BeginVisit(k, n);
      var failed := Stop(t, host);
      ghost var tr1, s1 := trace, st;
      HistoriesGrow(tr, s, n);
      if failed { var _ := TearTo(t, Done, 0); }
      EndVisit(k, t);
      DoneStays(tr1, s1, n, host);
    }

    method BeginVisit(k: nat, n: nat) returns (t: nat)
      requires Valid() && k in st.sweeps && st.sweeps[k].current == None && n !in st.sweeps[k].visited
      requires Registered(st, n)
      modifies this
      ensures Valid() && old(trace) <= trace && t in st.tears && st.tears[t] == Teardown(n, BySweep(k), Halting)
      ensures k in st.sweeps && st.sweeps[k].start == old(st.sweeps[k].start)
      ensures st.sweeps[k].visited == old(st.sweeps[k].visited) + {n}
    {
      FreshNumber(st.tears.Keys);
      t :| t !in st.tears;
      Do(SweepVisit(k, n, t));
    }

    method EndVisit(k: nat, t: nat)
      requires Valid() && t in st.tears && st.tears[t].origin == BySweep(k) && st.tears[t].stage == Dropping
      requires k in st.sweeps
      modifies this
      ensures Valid() && old(trace) <= trace && Removed(st, old(st.tears[t].n))
      ensures k in st.sweeps && st.sweeps[k] == old(st.sweeps[k]).(current := None)
    {
      ghost var before, answer, count;
      var ok;
      ok, before, answer, count := TearCommand(t, Done, 0);
      EndsVisit(names, before, t, answer, count, st);
    }

    /** What was up is still up, and what was gone is still gone. */
    lemma KeepTally(tr: seq<Action>, s: State, start: set<nat>, todo: set<nat>)
      requires Valid() && Run(names, s0, tr, s) && tr <= trace
      requires forall n :: n in start ==> IsUp(s, n) && (n !in todo ==> Removed(s, n))
      ensures forall n :: n in start ==> IsUp(st, n) && (n !in todo ==> Removed(st, n))
    {
      forall n | n in start ensures IsUp(st, n) && (n !in todo ==> Removed(st, n)) {
        HistoriesGrow(tr, s, n);
        if n !in todo { StaysRemoved(tr, s, n); }
      }
    }

    lemma KeepDone(tr: seq<Action>, s: State, visited: set<nat>, host: nat -> StopAnswers)
      requires Valid() && Run(names, s0, tr, s) && tr <= trace && forall n :: n in visited ==> IsUp(s, n)
      requires forall n :: n in visited && ShredderWorks(host(n)) ==> Unlinked(s, n)
      requires InjectiveUpTo(names.tap, Creates(tr)) ==>
                 forall n :: n in visited && host(n).release == Done ==> IsReleased(s, n)
      ensures forall n :: n in visited ==> DoneAs(n, host(n))
    {
      forall n | n in visited ensures DoneAs(n, host(n)) { DoneStays(tr, s, n, host(n)); }
    }

    method BeginSweep() returns (k: nat)
      requires Valid()
      modifies this
      ensures Valid() && old(trace) <= trace
      ensures k in st.sweeps && st.sweeps[k] == Sweep(old(Registry(st)), {}, None)
      ensures forall n :: n in old(Registry(st)) ==> IsUp(st, n)
    {
      FreshNumber(st.sweeps.Keys);
      k :| k !in st.sweeps;
      StateIsSound();
      RegistryIsUp(names, st);
      Do(SweepBegin(k));
    }

    method EndSweep(k: nat)
      requires Valid() && k in st.sweeps && st.sweeps[k].current == None
      requires forall n :: n in st.sweeps[k].start ==> Removed(st, n)
      modifies this
      ensures Valid() && trace == old(trace) + [SweepEnd(k)] && st.inst == old(st.inst)
      ensures Creates(trace) == Creates(old(trace))
      ensures forall n :: n in old(st.sweeps[k].start) ==> n in st.inst && st.inst[n].stopped && !Registered(st, n)
    {
      StateIsSound();
      ghost var before := st;
      Do(SweepEnd(k));
      SweepIsDone(names, before, k, st);
    }

    /** StopAll: everything registered when it starts is told to stop and is no
        longer registered when it returns, whatever fails and whatever runs beside it.
        `last` is the state that its end found: what it visited itself, and the host
        answered well, is shredded and released. */
    method StopAll(host: nat -> StopAnswers) returns (ghost k: nat, ghost last: State)
      requires Valid()
      modifies this
      ensures Valid() && old(trace) < trace && trace[|trace| - 1] == SweepEnd(k)
      ensures Run(names, s0, trace[..|trace| - 1], last)
      ensures k in last.sweeps && last.sweeps[k].start == old(Registry(st))
      ensures forall n :: n in old(Registry(st)) ==> n in st.inst && st.inst[n].stopped && !Registered(st, n)
      ensures forall n :: n in last.sweeps[k].visited ==> DoneAs(n, host(n))
    {
      var todo := Registry(st);
      ghost var start := todo;
      var sweep := BeginSweep();
      while todo != {}
        invariant Valid() && old(trace) <= trace
        invariant sweep in st.sweeps && st.sweeps[sweep].current == None && st.sweeps[sweep].start == start
        invariant todo <= start && st.sweeps[sweep].visited <= start - todo
        invariant forall n :: n in start ==> IsUp(st, n) && (n !in todo ==> Removed(st, n))
        invariant forall n :: n in st.sweeps[sweep].visited ==> DoneAs(n, host(n))
        decreases todo
      {
        var n :| n in todo;
        ghost var tr, s := trace, st;
        Visit(sweep, n, host(n));
        KeepTally(tr, s, start, todo);
        KeepDone(tr, s, s.sweeps[sweep].visited, host);
        todo := todo - {n};
      }
      k, last := sweep, st;
      EndSweep(sweep);
    }

    /** ServeHTTP: authorisation, routing, and the handler's status. A request
        without the token changes nothing, and only POST and DELETE change anything. */
    method ServeHTTP(
      token: string, header: string, verb: string, path: string, wellFormed: bool,
      launch: LaunchAnswers, stop: StopAnswers)
      returns (code: nat)
      requires Valid() && Creates(trace) + 1 < WRAP
      modifies this
      ensures Valid() && old(trace) <= trace
      ensures code == 401 <==> token != "" && header != "Bearer " + token
      ensures code == 401 || code == 405 || verb == "GET" ==> st == old(st) && trace == old(trace)
      ensures code == 405 <==> Serve(token, header, verb, path) == NotAllowed
      ensures Serve(token, header, verb, path) == NotFound ==> code == 404 && st == old(st)
      ensures Serve(token, header, verb, path) == Creating ==>
                CreateAnswered(old(st), old(st.issued) + 1, code, wellFormed, launch)
      ensures Serve(token, header, verb, path).Deleting? ==>
                && (code == 404 <==> forall n :: Registered(old(st), n) ==> path != PREFIX + InstanceId(n))
                && (code == 404 ==> st == old(st))
                && forall n :: Registered(old(st), n) && path == PREFIX + InstanceId(n) ==>
                     DeleteAnswered(old(st), old(trace), n, code, stop)
      ensures Serve(token, header, verb, path).Showing? || Serve(token, header, verb, path).Logging? ==>
                code in {200, 404}
      ensures code == 200 <==> verb == "GET" && code != 401 && exists n ::
                Registered(st, n) && (path == PREFIX + InstanceId(n) || path == PREFIX + InstanceId(n) + "/logs")
    {
      NoTokenNoHandler(token, header, verb, path);
      IssuedPaths(verb, path);
      var route := Serve(token, header, verb, path);
      match route {
        case Unauthorized => return 401;
        case NotAllowed => return 405;
        case NotFound => return 404;
        case Creating =>
          RouterIsExact(verb, path, "");
          ghost var n;
          code, n := HandleCreate(wellFormed, launch);
        case Deleting(id) => code := DeleteAt(id, verb, path, stop);
        case Showing(id) => code := Read(id, verb, path);
        case Logging(id) => code := Read(id, verb, path);
      }
    }

    /** The DELETE of the instance a path names. */
    method DeleteAt(id: string, verb: string, path: string, stop: StopAnswers) returns (code: nat)
      requires Valid() && RouteOf(verb, path) == Deleting(id)
      modifies this
      ensures Valid() && old(trace) <= trace && code in {404, 204, 500}
      ensures code == 404 <==> forall n :: Registered(old(st), n) ==> path != PREFIX + InstanceId(n)
      ensures code == 404 ==> st == old(st)
      ensures forall n :: Registered(old(st), n) && path == PREFIX + InstanceId(n) ==>
                DeleteAnswered(old(st), old(trace), n, code, stop)
    {
      RouterIsExact(verb, path, id);
      ghost var n;
      code, n := HandleDelete(id, stop);
      OneInstance(old(st), path, id, n, code);
    }

    /** What the status of a create means for the id it issued. */
    ghost predicate CreateAnswered(was: State, n: nat, code: nat, wellFormed: bool, host: LaunchAnswers)
      reads this
    {
      && code in {400, 201, 500} && (code == 400 <==> !wellFormed) && (code == 400 ==> st == was)
      && (code == 201 ==> Registered(st, n) && AllOrdersWork(host))
      && (code == 500 ==> n in st.inst && st.inst[n].pc == Failed && !Registered(st, n))
      && (code == 500 && OwnName(n) ==> !AllOrdersWork(host))
    }

    /** What the status of a DELETE means for the instance it names. */
    ghost predicate DeleteAnswered(was: State, tr: seq<Action>, n: nat, code: nat, host: StopAnswers)
      requires tr <= trace
      reads this
    {
      && code in {204, 500} && st.replies != [] && st.replies[|st.replies| - 1] == Reply(n, code)
      && DoneAs(n, host)
      && (code == 204 ==> Removed(st, n) && host.release == Done)
      && (code == 500 ==> EntryKept(was, tr, n))
    }

    /** handleGetInstance and handleGetInstanceLogs. */
    method Read(id: string, verb: string, path: string) returns (code: nat)
      requires RouteOf(verb, path) == Showing(id) || RouteOf(verb, path) == Logging(id)
      ensures code == 200 || code == 404
      ensures code == 200 <==> exists n ::
                Registered(st, n) && (path == PREFIX + InstanceId(n) || path == PREFIX + InstanceId(n) + "/logs")
    {
      var found, n := Load(id);
      RouterIsExact(verb, path, id);
      IssuedPaths(verb, path);
      code := if found then 200 else 404;
    }
  }

  /** A path names one instance. */
  lemma OneInstance(s: State, path: string, id: string, n: nat, code: nat)
    requires path == PREFIX + id && (code == 404 || (Registered(s, n) && InstanceId(n) == id))
    requires code == 404 ==> forall m: nat :: Registered(s, m) ==> InstanceId(m) != id
    ensures forall m: nat :: Registered(s, m) && path == PREFIX + InstanceId(m) ==> m == n && code != 404
  {
    forall m: nat | Registered(s, m) && path == PREFIX + InstanceId(m) ensures m == n && code != 404 {
      assert path[|PREFIX|..] == id == InstanceId(m);
      if code != 404 { InstanceIdInjective(m, n); }
    }
  }

  /** What a step that was answered well and failed all the same found: the overlay of
      its instance was unlinked, or its link was gone. */
  predicate Blocked(names: Names, s: State, T: Teardown) {
    && T.n in s.inst
    && (T.stage.Opening? || T.stage.Unlinking? || T.stage.Releasing?)
    && (T.stage.Opening? || T.stage.Unlinking? ==> s.inst[T.n].unlinked)
    && (T.stage.Releasing? ==> names.tap(T.n) !in s.links)
  }

  /** How a step of a teardown ends that the host answers with `out`: as answered, or
      refused where that cannot be. */
  function TearAnswer(names: Names, s: State, t: nat, out: Outcome, written: nat): (Outcome, nat) {
    if TearStep(names, s, t, out, written).Some? then (out, written) else (Refused, 0)
  }

  lemma AnswerFits(names: Names, s: State, t: nat, out: Outcome, written: nat)
    requires Base(names, s) && t in s.tears
    ensures var (o, k) := TearAnswer(names, s, t, out, written);
            && TearStep(names, s, t, o, k).Some? && (o == Done ==> out == Done)
            && (o != Done && out == Done ==> TearStep(names, s, t, Done, k) == None)
  {
    assert TearOk(names, s, s.tears[t]);
    if TearStep(names, s, t, out, written).None? {
      RefusedTear(names, s, t);
      CountIsForFailures(names, s, t, written);
    }
  }

  /** How far a failing write gets does not matter to a step that succeeds. */
  lemma CountIsForFailures(names: Names, s: State, t: nat, count: nat)
    ensures TearStep(names, s, t, Done, count) == None ==> TearStep(names, s, t, Done, 0) == None
  {
    if t in s.tears && s.tears[t].n in s.inst {
      var c, T := View(names, s, s.tears[t].n), s.tears[t];
      assert TearCell(c, T.n, T.stage, Done, count) == TearCell(c, T.n, T.stage, Done, 0);
    }
  }

  /** A refused step of a teardown leaves what stood in its way as it was. */
  lemma BlockedStays(names: Names, s: State, t: nat, answer: Outcome, count: nat, s': State)
    requires Injective(names.overlay) && Sound(names, s) && TearStep(names, s, t, answer, count) == Some(s')
    requires answer != Done && TearStep(names, s, t, Done, count) == None
    ensures Blocked(names, s', s.tears[t])
  {
    var c', next := TearParts(names, s, t, answer, count, s');
    var T := s.tears[t];
    assert TearOk(names, s, T);
    OnlyAbsenceBlocks(names, s, t, count);
    TearPurges(View(names, s, T.n), T.n, T.stage, answer, count, c', next);
    ReplyLog(names, s, t, c', next);
    AdvanceShape(PutCell(names, s, T.n, c'), t, next);
    if T.stage.Releasing? { assert StopCell(View(names, s, T.n), T.stage, answer) == Some((c', next)); }
  }

  /** A GET of an issued id, or of its logs, is routed to it. */
  lemma IssuedPaths(verb: string, path: string)
    ensures forall m :: verb == "GET" && path == PREFIX + InstanceId(m) ==>
              RouteOf(verb, path) == Showing(InstanceId(m))
    ensures forall m :: verb == "GET" && path == PREFIX + InstanceId(m) + "/logs" ==>
              RouteOf(verb, path) == Logging(InstanceId(m))
  {
    forall m | verb == "GET" && (path == PREFIX + InstanceId(m) || path == PREFIX + InstanceId(m) + "/logs")
      ensures path == PREFIX + InstanceId(m) ==> RouteOf(verb, path) == Showing(InstanceId(m))
      ensures path == PREFIX + InstanceId(m) + "/logs" ==> RouteOf(verb, path) == Logging(InstanceId(m))
    {
      IssuedIdsAreClean(m);
      RouterIsExact(verb, path, InstanceId(m));
    }
  }

  lemma {:induction false} ExecSplit(names: Names, s: State, first: seq<Action>, rest: seq<Action>)
    requires Exec(names, s, first + rest).Some?
    ensures Exec(names, s, first).Some?
    ensures Exec(names, Exec(names, s, first).value, rest) == Exec(names, s, first + rest)
    ensures Creates(first + rest) == Creates(first) + Creates(rest)
    decreases |rest|
  {
    if rest == [] {
      assert first + rest == first;
    } else {
      var front, last := rest[..|rest| - 1], rest[|rest| - 1];
      assert front + [last] == rest && (first + front) + [last] == first + rest;
      ExecLast(names, s, first + front, last);
      ExecSplit(names, s, first, front);
      ExecLast(names, Exec(names, s, first).value, front, last);
    }
  }

  /** The last step of a sweep's teardown. */
  lemma EndsVisit(names: Names, s: State, t: nat, out: Outcome, count: nat, s': State)
    requires Sound(names, s) && TearStep(names, s, t, out, count) == Some(s')
    requires t in s.tears && s.tears[t].origin.BySweep? && s.tears[t].stage == Dropping
    ensures var k := s.tears[t].origin.k;
            k in s.sweeps && k in s'.sweeps && s'.sweeps[k] == s.sweeps[k].(current := None)
    ensures Removed(s', s.tears[t].n)
  {
    assert Awaited(s, s.tears[t]);
    TearSweepLog(names, s, t, out, count, s');
  }

  /** The step that stores the handle. */
  lemma RegisterRegisters(names: Names, s: State, n: nat, s': State)
    requires Step(names, s, Register(n)) == Some(s')
    ensures Registered(s', n)
  {
    WrittenIsStep(names, s, Register(n), s');
  }

  /** The last step of a DELETE. */
  lemma EndsDelete(names: Names, s: State, t: nat, out: Outcome, count: nat, s': State)
    requires Sound(names, s) && TearStep(names, s, t, out, count) == Some(s')
    requires t in s.tears && s.tears[t].origin.ByDelete?
    requires (s.tears[t].stage == Dropping || s.tears[t].stage == Reporting)
    ensures s'.replies == s.replies + [Reply(s.tears[t].n, if s.tears[t].stage == Dropping then 204 else 500)]
    ensures s.tears[t].stage == Dropping ==> Removed(s', s.tears[t].n)
  {
    var c', next := TearParts(names, s, t, out, count, s');
    assert TearOk(names, s, s.tears[t]);
    ReplyLog(names, s, t, c', next);
  }

  /** Where a step takes a teardown, by whether its command succeeded. */
  ghost predicate StageAfter(stage: Stage, next: Stage, ok: bool) {
    match stage
    case Halting => next == Opening
    case Opening => if ok then next.Wiping? && next.off == 0 else next == Releasing
    case Wiping(off, size, reaped) =>
      if !ok then next == Releasing
      else if off < size then next == Wiping(off + Chunk(off, size), size, reaped)
      else next == Unlinking(size, reaped)
    case Unlinking(_, _) => if ok then next.Auditing? else next == Releasing
    case Auditing(_) => next == Releasing
    case Releasing => next == if ok then Dropping else Reporting
    case Reporting => next == Dropping
    case Dropping => true
  }

  lemma ShredAfter(c: Cell, n: nat, stage: Stage, out: Outcome, count: nat, c': Cell, next: Stage)
    requires ShredCell(c, n, stage, out, count) == Some((c', next))
    ensures StageAfter(stage, next, out == Done)
  {
  }

  lemma StopAfter(c: Cell, stage: Stage, out: Outcome, c': Cell, next: Stage)
    requires StopCell(c, stage, out) == Some((c', next))
    ensures StageAfter(stage, next, out == Done)
  {
  }

  lemma TearMoves(names: Names, s: State, t: nat, out: Outcome, count: nat, s': State)
    requires Injective(names.overlay) && Sound(names, s) && TearStep(names, s, t, out, count) == Some(s')
    requires t in s.tears && !Ending(s.tears[t])
    ensures t in s'.tears && s'.tears[t] == s.tears[t].(stage := s'.tears[t].stage)
    ensures StageAfter(s.tears[t].stage, s'.tears[t].stage, out == Done)
    ensures SweepKept(s.tears[t], s, s')
  {
    TearSweepLog(names, s, t, out, count, s');
    assert Awaited(s, s.tears[t]);
    var c', next := TearParts(names, s, t, out, count, s');
    var T := s.tears[t];
    if Shredding(T.stage) { ShredAfter(View(names, s, T.n), T.n, T.stage, out, count, c', next); }
    else { StopAfter(View(names, s, T.n), T.stage, out, c', next); }
    AdvanceGoes(PutCell(names, s, T.n, c'), t, next);
  }

  lemma ReleaseReleases(names: Names, s: State, t: nat, count: nat, s': State)
    requires TearStep(names, s, t, Done, count) == Some(s') && t in s.tears && s.tears[t].stage == Releasing
    ensures IsReleased(s', s.tears[t].n)
  {
    var c', next := TearParts(names, s, t, Done, count, s');
    assert StopCell(View(names, s, s.tears[t].n), Releasing, Done) == Some((c', next));
  }

  lemma AdvanceGoes(s: State, t: nat, next: Stage)
    requires t in s.tears && !Ending(s.tears[t])
    ensures t in Advance(s, t, next).tears && Advance(s, t, next).tears[t] == s.tears[t].(stage := next)
  {
  }

  lemma CopyMakes(names: Names, s: State, n: nat, image: seq<byte>, s': State)
    requires Step(names, s, Launch(n, Done, image)) == Some(s') && n in s.inst && s.inst[n].pc == Copy
    ensures names.overlay(n) in s'.disks && s'.disks[names.overlay(n)] == Disk(image, {})
  {
    WrittenIsStep(names, s, Launch(n, Done, image), s');
  }

  lemma LaunchMoves(names: Names, s: State, n: nat, out: Outcome, image: seq<byte>, s': State)
    requires Step(names, s, Launch(n, out, image)) == Some(s')
    ensures n in s.inst && n in s'.inst && s'.inst[n].pc == AfterCommand(s.inst[n].pc, out == Done)
  {
    var a := Launch(n, out, image);
    WrittenIsStep(names, s, a, s');
    MovesOn(View(names, s, n), out, image, Written(names, s, a).value.1, s.inst[n].pc);
  }
}
