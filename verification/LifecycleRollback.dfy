/** Failed launches: exactly what a rollback leaves behind. */
module LifecycleRollback {
  import opened Common
  import opened Zeroing
  import opened Lifecycle
  import opened LifecycleCells
  import opened LifecycleInv
  import opened LifecycleTheorems
  import Orchestrator

  /** The ways one launch can leave something on the host. */
  datatype Mishap =
    | TapUnseen     // the link was made, but its command reported failure
    | TapKept       // the rollback could not delete the link
    | CopyPartial   // copyFile failed after it had created the overlay
    | OverlayKept   // the rollback could not remove the overlay

  /** The mishap of instance `n` that action `a` is, if it is one. */
  function MishapOf(s: State, a: Action, n: nat): set<Mishap> {
    if a.Launch? && a.n == n && n in s.inst then
      match s.inst[n].pc
      case AddTap => if a.out == Interrupted then {TapUnseen} else {}
      case UndoTap => if a.out == Refused then {TapKept} else {}
      case DropTap => if a.out == Refused then {TapKept} else {}
      case Copy => if a.out == Interrupted then {CopyPartial} else {}
      case DropOverlay => if a.out != Done then {OverlayKept} else {}
      case _ => {}
    else {}
  }

  function Mishaps(names: Names, s0: State, acts: seq<Action>, n: nat): set<Mishap> {
    if acts == [] then {}
    else
      match Exec(names, s0, acts[..|acts| - 1])
      case None => {}
      case Some(m) => Mishaps(names, s0, acts[..|acts| - 1], n) + MishapOf(m, acts[|acts| - 1], n)
  }

  predicate LeavesTap(ms: set<Mishap>) { TapUnseen in ms || TapKept in ms }

  predicate LeavesOverlay(ms: set<Mishap>) { CopyPartial in ms || OverlayKept in ms }

  /** While an instance is not up, its residue record is its mishaps so far; the
      record of its link, if `links` says so. */
  ghost predicate Recorded(s: State, n: nat, ms: set<Mishap>, links: bool) {
    if n !in s.inst then ms == {}
    else s.inst[n].pc != Up ==>
           (links ==> (s.inst[n].tapResidue <==> LeavesTap(ms))) && (s.inst[n].diskResidue <==> LeavesOverlay(ms))
  }

  lemma LaunchRecords(c: Cell, foreign: bool, links: bool, s: State, a: Action, n: nat, c': Cell)
    requires a.Launch? && a.n == n && n in s.inst && s.inst[n] == c.i
    requires CellInv(c) && (links ==> TapInv(c, foreign)) && LaunchCell(c, a.out, a.image) == Some(c')
    ensures links ==> (c'.i.tapResidue <==> c.i.tapResidue || LeavesTap(MishapOf(s, a, n)))
    ensures c'.i.diskResidue <==> c.i.diskResidue || LeavesOverlay(MishapOf(s, a, n))
  {
  }

  lemma HostRecords(names: Names, s: State, a: Action, n: nat, c: Cell)
    requires !a.Launch? && Written(names, s, a) == Some((n, c)) && n in s.inst
    ensures c.i.tapResidue == s.inst[n].tapResidue && c.i.diskResidue == s.inst[n].diskResidue
    ensures c.i.pc == Up || c.i.pc == s.inst[n].pc
  {
  }

  lemma RecordLaunch(names: Names, s: State, a: Action, n: nat, c: Cell, links: bool)
    requires CellsOk(names, s) && (links ==> TapCellsOk(names, s))
    requires a.Launch? && Written(names, s, a) == Some((n, c)) && n in s.inst
    ensures s.inst[n].pc != Up
    ensures links ==> (c.i.tapResidue <==> s.inst[n].tapResidue || LeavesTap(MishapOf(s, a, n)))
    ensures c.i.diskResidue <==> s.inst[n].diskResidue || LeavesOverlay(MishapOf(s, a, n))
  {
    var v := View(names, s, n);
    var foreign := names.tap(n) in s.strayLinks;
    assert CellInv(v) && (links ==> TapInv(v, foreign));
    LaunchRecords(v, foreign, links, s, a, n, c);
    LaunchKeeps(v, a.out, a.image, c);
  }

  lemma RecordWritten(names: Names, s: State, a: Action, n: nat, m: nat, c: Cell, ms: set<Mishap>, links: bool)
    requires Base(names, s) && (links ==> Taps(names, s)) && Recorded(s, n, ms, links)
    requires Written(names, s, a) == Some((m, c)) && m in s.inst
    ensures Recorded(PutCell(names, s, m, c), n, ms + MishapOf(s, a, n), links)
  {
    if a.Launch? {
      RecordLaunch(names, s, a, m, c, links);
    } else {
      HostRecords(names, s, a, m, c);
    }
    RecordPut(names, s, n, m, c, ms, MishapOf(s, a, n), links);
  }

  lemma RecordPut(
    names: Names, s: State, n: nat, m: nat, c: Cell, ms: set<Mishap>, fresh': set<Mishap>, links: bool)
    requires Recorded(s, n, ms, links) && m in s.inst
    requires m != n ==> fresh' == {}
    requires m == n && c.i.pc != Up ==>
               && s.inst[n].pc != Up
               && (links ==> (c.i.tapResidue <==> s.inst[n].tapResidue || LeavesTap(fresh')))
               && (c.i.diskResidue <==> s.inst[n].diskResidue || LeavesOverlay(fresh'))
    ensures Recorded(PutCell(names, s, m, c), n, ms + fresh', links)
  {
  }

  lemma RecordTear(names: Names, s: State, a: Action, s': State, n: nat, ms: set<Mishap>, links: bool)
    requires Base(names, s) && Step(names, s, a) == Some(s') && a.Tear? && Recorded(s, n, ms, links)
    ensures Recorded(s', n, ms + MishapOf(s, a, n), links)
  {
    var c', next := TearParts(names, s, a.t, a.out, a.count, s');
    var T := s.tears[a.t];
    assert TearOk(names, s, T);
    TearEvolves(View(names, s, T.n), T.n, T.stage, a.out, a.count, c', next);
    ReplyLog(names, s, a.t, c', next);
  }

  lemma RecordStep(names: Names, s: State, a: Action, s': State, n: nat, ms: set<Mishap>, links: bool)
    requires Base(names, s) && (links ==> Taps(names, s)) && Step(names, s, a) == Some(s')
    requires (a.Create? ==> s.issued + 1 < WRAP) && Recorded(s, n, ms, links)
    ensures Recorded(s', n, ms + MishapOf(s, a, n), links)
  {
    if WritesCell(a) {
      WrittenIsStep(names, s, a, s');
      var (m, c) := Written(names, s, a).value;
      RecordWritten(names, s, a, n, m, c, ms, links);
    } else if a.Tear? {
      RecordTear(names, s, a, s', n, ms, links);
    } else {
      RecordQuiet(names, s, a, s', n, ms, links);
    }
  }

  lemma RecordQuiet(names: Names, s: State, a: Action, s': State, n: nat, ms: set<Mishap>, links: bool)
    requires Ids(s) && Step(names, s, a) == Some(s') && !WritesCell(a) && !a.Tear?
    requires (a.Create? ==> s.issued + 1 < WRAP) && Recorded(s, n, ms, links)
    ensures Recorded(s', n, ms + MishapOf(s, a, n), links)
  {
    if a.Create? { CreateShape(names, s, s'); } else { StartShape(names, s, a, s'); }
    assert ms + MishapOf(s, a, n) == ms;
  }

  /** Until an instance is up, its residue record is exactly the mishaps of its own
      commands in the run: that of its overlay in every run, that of its link if the
      link names are distinct. */
  lemma {:induction false} RunRecords(names: Names, s0: State, acts: seq<Action>, s: State, n: nat, links: bool)
    requires Injective(names.overlay) && Run(names, s0, acts, s) && Creates(acts) < WRAP
    requires links ==> InjectiveUpTo(names.tap, Creates(acts))
    ensures Recorded(s, n, Mishaps(names, s0, acts, n), links)
    decreases |acts|
  {
    if acts == [] {
    } else {
      var m := LastStep(names, s0, acts, s);
      var before := acts[..|acts| - 1];
      RunRecords(names, s0, before, m, n, links);
      RunIsSound(names, s0, before, m);
      if links { RunKeepsTaps(names, s0, before, m); }
      RecordStep(names, m, acts[|acts| - 1], s, n, Mishaps(names, s0, before, n), links);
    }
  }

  // ------------------------------------------------------------- the commands of a launch

  /** What a launch asks of the host on its way up. */
  datatype Order =
    | SetUpBridge | MakeLink | AttachLink | RaiseLink | CopyImage | SpawnProcess | AwaitSocket
    | Send(request: Orchestrator.Request)

  /** All of it, in order. */
  const LAUNCH: seq<Order> := [
    SetUpBridge, MakeLink, AttachLink, RaiseLink, CopyImage, SpawnProcess, AwaitSocket,
    Send(Orchestrator.MachineConfig), Send(Orchestrator.BootSource), Send(Orchestrator.RootDrive),
    Send(Orchestrator.NetworkInterface), Send(Orchestrator.InstanceStart)]

  /** Its requests are those of the boot protocol, one each, in order. */
  lemma RequestsAreBoot()
    ensures |LAUNCH| == 7 + |Orchestrator.BOOT|
    ensures forall k :: 0 <= k < |Orchestrator.BOOT| ==> LAUNCH[7 + k] == Send(Orchestrator.BOOT[k])
  {
  }

  /** What the next command of a launch asks, if it is on its way up. */
  function OrderAt(pc: Pc): Option<Order> {
    match pc
    case Bridge => Some(SetUpBridge)
    case AddTap => Some(MakeLink)
    case AttachTap => Some(AttachLink)
    case RaiseTap => Some(RaiseLink)
    case Copy => Some(CopyImage)
    case Spawn => Some(SpawnProcess)
    case Poll => Some(AwaitSocket)
    case Put(acked) => if acked < |Orchestrator.BOOT| then Some(Send(Orchestrator.BOOT[acked])) else None
    case _ => None
  }

  /** An order, and how it ended. */
  datatype Given = Given(order: Order, out: Outcome)

  /** The orders that the launch of `n` gave in the run, without its rollback. */
  function Orders(names: Names, s0: State, acts: seq<Action>, n: nat): seq<Given> {
    if acts == [] then []
    else
      match Exec(names, s0, acts[..|acts| - 1])
      case None => []
      case Some(m) => WithOrder(Orders(names, s0, acts[..|acts| - 1], n), m, acts[|acts| - 1], n)
  }

  function WithOrder(gs: seq<Given>, s: State, a: Action, n: nat): seq<Given> {
    if a.Launch? && a.n == n && n in s.inst then WithCommand(gs, s.inst[n].pc, a.out) else gs
  }

  function WithCommand(gs: seq<Given>, pc: Pc, out: Outcome): seq<Given> {
    match OrderAt(pc)
    case None => gs
    case Some(order) => gs + [Given(order, out)]
  }

  /** The orders are the first of the list, and all but perhaps the last succeeded. */
  predicate InOrder(gs: seq<Given>) {
    && |gs| <= |LAUNCH|
    && forall i :: 0 <= i < |gs| ==> gs[i].order == LAUNCH[i] && (i < |gs| - 1 ==> gs[i].out == Done)
  }

  predicate AllDone(gs: seq<Given>) { forall i :: 0 <= i < |gs| ==> gs[i].out == Done }

  /** How many orders a launch that has come this far has behind it. */
  function Behind(pc: Pc): nat {
    match pc
    case Bridge => 0
    case AddTap => 1
    case AttachTap => 2
    case RaiseTap => 3
    case Copy => 4
    case Spawn => 5
    case Poll => 6
    case Put(acked) => 7 + acked
    case _ => |LAUNCH|
  }

  /** A launch is on its way up while all its orders succeeded, and ends with the first
      that does not. */
  ghost predicate Reported(pc: Pc, gs: seq<Given>) {
    && InOrder(gs)
    && if RollingBack(pc) || pc == Failed then gs != [] && gs[|gs| - 1].out != Done
       else AllDone(gs) && |gs| == Behind(pc) && (pc.Put? ==> pc.acked < |Orchestrator.BOOT|)
  }

  lemma OneMoreOrder(gs: seq<Given>, g: Given)
    requires InOrder(gs) && AllDone(gs) && |gs| < |LAUNCH| && g.order == LAUNCH[|gs|]
    ensures InOrder(gs + [g]) && (AllDone(gs + [g]) <==> g.out == Done)
  {
    var longer := gs + [g];
    assert longer[|gs|] == g && forall i :: 0 <= i < |gs| ==> longer[i] == gs[i];
  }

  lemma OrderIsNext(pc: Pc)
    requires OrderAt(pc).Some?
    ensures Behind(pc) < |LAUNCH| && OrderAt(pc).value == LAUNCH[Behind(pc)]
  {
    RequestsAreBoot();
  }

  lemma CommandReports(pc: Pc, out: Outcome, gs: seq<Given>)
    requires Reported(pc, gs) && pc != Failed && pc != Ready && pc != Up
    ensures Reported(AfterCommand(pc, out == Done), WithCommand(gs, pc, out))
  {
    if OrderAt(pc).Some? {
      OrderIsNext(pc);
      OneMoreOrder(gs, Given(OrderAt(pc).value, out));
    }
  }

  lemma LaunchReports(c: Cell, out: Outcome, image: seq<byte>, c': Cell, gs: seq<Given>)
    requires Reported(c.i.pc, gs) && LaunchCell(c, out, image) == Some(c')
    ensures Reported(c'.i.pc, WithCommand(gs, c.i.pc, out))
  {
    MovesOn(c, out, image, c', c.i.pc);
    CommandReports(c.i.pc, out, gs);
  }

  /** A command of another instance, or one that is not of its launch, leaves the
      progress of `n` alone, but for the store of its handle. */
  ghost predicate SamePc(s: State, s': State, n: nat) {
    if n in s.inst then
      n in s'.inst && (s'.inst[n].pc == s.inst[n].pc || (s.inst[n].pc == Ready && s'.inst[n].pc == Up))
    else n in s'.inst ==> s'.inst[n].pc == Bridge
  }

  lemma TearKeepsPc(names: Names, s: State, t: nat, out: Outcome, count: nat, s': State, n: nat)
    requires Base(names, s) && TearStep(names, s, t, out, count) == Some(s')
    ensures SamePc(s, s', n)
  {
    var c', next := TearParts(names, s, t, out, count, s');
    var T := s.tears[t];
    assert TearOk(names, s, T);
    TearEvolves(View(names, s, T.n), T.n, T.stage, out, count, c', next);
    ReplyLog(names, s, t, c', next);
  }

  lemma HostKeepsPc(names: Names, s: State, a: Action, n: nat, c: Cell)
    requires !a.Launch? && Written(names, s, a) == Some((n, c)) && n in s.inst
    ensures c.i.pc == s.inst[n].pc || (s.inst[n].pc == Ready && c.i.pc == Up)
  {
  }

  lemma OthersKeepProgress(names: Names, s: State, a: Action, s': State, n: nat)
    requires Base(names, s) && Step(names, s, a) == Some(s') && (a.Create? ==> s.issued + 1 < WRAP)
    requires !(a.Launch? && a.n == n)
    ensures SamePc(s, s', n)
  {
    if WritesCell(a) {
      WrittenIsStep(names, s, a, s');
      if !a.Launch? { HostKeepsPc(names, s, a, Written(names, s, a).value.0, Written(names, s, a).value.1); }
    } else if a.Tear? {
      TearKeepsPc(names, s, a.t, a.out, a.count, s', n);
    } else if a.Create? {
      CreateShape(names, s, s');
    } else {
      StartShape(names, s, a, s');
    }
  }

  ghost predicate ReportOk(s: State, n: nat, gs: seq<Given>) {
    if n in s.inst then Reported(s.inst[n].pc, gs) else gs == []
  }

  lemma ReportKeeps(s: State, s': State, n: nat, gs: seq<Given>)
    requires ReportOk(s, n, gs) && SamePc(s, s', n)
    ensures ReportOk(s', n, gs)
  {
  }

  lemma OwnReports(names: Names, s: State, a: Action, s': State, n: nat, gs: seq<Given>)
    requires Step(names, s, a) == Some(s') && a.Launch? && a.n == n
    requires ReportOk(s, n, gs)
    ensures ReportOk(s', n, WithOrder(gs, s, a, n))
  {
    WrittenIsStep(names, s, a, s');
    LaunchReports(View(names, s, n), a.out, a.image, Written(names, s, a).value.1, gs);
  }

  lemma ReportStep(names: Names, s: State, a: Action, s': State, n: nat, gs: seq<Given>)
    requires Base(names, s) && Step(names, s, a) == Some(s') && (a.Create? ==> s.issued + 1 < WRAP)
    requires ReportOk(s, n, gs)
    ensures ReportOk(s', n, WithOrder(gs, s, a, n))
  {
    if a.Launch? && a.n == n {
      OwnReports(names, s, a, s', n, gs);
    } else {
      OthersKeepProgress(names, s, a, s', n);
      ReportKeeps(s, s', n, gs);
    }
  }

  lemma {:induction false} RunReports(names: Names, s0: State, acts: seq<Action>, s: State, n: nat)
    requires Injective(names.overlay) && Run(names, s0, acts, s) && Creates(acts) < WRAP
    ensures ReportOk(s, n, Orders(names, s0, acts, n))
    decreases |acts|
  {
    if acts == [] {
    } else {
      var m := LastStep(names, s0, acts, s);
      RunReports(names, s0, acts[..|acts| - 1], m, n);
      RunIsSound(names, s0, acts[..|acts| - 1], m);
      ReportStep(names, m, acts[|acts| - 1], s, n, Orders(names, s0, acts[..|acts| - 1], n));
    }
  }

  predicate Complete(gs: seq<Given>) { InOrder(gs) && |gs| == 12 && AllDone(gs) }

  lemma HandleReports(pc: Pc, gs: seq<Given>)
    requires Reported(pc, gs)
    ensures pc == Ready || pc == Up <==> Complete(gs)
  {
  }

  /** In every run a launch gives the twelve orders of the list in order, up to the first
      that fails, and has handed out its handle exactly if it gave them all and all of
      them succeeded. */
  lemma HandleIffComplete(names: Names, s0: State, acts: seq<Action>, s: State, n: nat)
    requires Injective(names.overlay) && Run(names, s0, acts, s) && Creates(acts) < WRAP && n in s.inst
    ensures InOrder(Orders(names, s0, acts, n))
    ensures s.inst[n].pc == Ready || s.inst[n].pc == Up <==> Complete(Orders(names, s0, acts, n))
    ensures s.inst[n].pc == Failed ==> !AllDone(Orders(names, s0, acts, n))
  {
    RunReports(names, s0, acts, s, n);
    HandleReports(s.inst[n].pc, Orders(names, s0, acts, n));
  }

  // ------------------------------------------------------------- launches that fail

  /** A failed launch registers nothing and hands out nothing, its process has been
      told to stop, and whatever ran beside it the host keeps its overlay exactly if one
      of the launch's own commands went astray: a removal that failed, or a copy that
      failed after creating its destination. */
  lemma RollbackIsExact(names: Names, s0: State, acts: seq<Action>, s: State, n: nat)
    requires Injective(names.overlay) && Run(names, s0, acts, s) && Creates(acts) < WRAP
    requires n in s.inst && s.inst[n].pc == Failed
    ensures !s.inst[n].registered && (forall t :: t in s.tears ==> s.tears[t].n != n)
    ensures s.inst[n].alive ==> s.inst[n].stopped
    ensures names.overlay(n) in s.disks && names.overlay(n) !in s.strayFiles <==>
            LeavesOverlay(Mishaps(names, s0, acts, n))
  {
    RunIsSound(names, s0, acts, s);
    RunRecords(names, s0, acts, s, n, false);
    assert CellInv(View(names, s, n));
    forall t | t in s.tears ensures s.tears[t].n != n { assert TearOk(names, s, s.tears[t]); }
  }

  /** And, where link names are distinct, its link exactly if it was made behind a
      reported failure, or its removal failed. */
  lemma RollbackReleasesLink(names: Names, s0: State, acts: seq<Action>, s: State, n: nat)
    requires Injective(names.overlay) && Run(names, s0, acts, s) && Creates(acts) < WRAP
    requires InjectiveUpTo(names.tap, Creates(acts)) && n in s.inst && s.inst[n].pc == Failed
    ensures names.tap(n) in s.links && names.tap(n) !in s0.links <==> LeavesTap(Mishaps(names, s0, acts, n))
  {
    RunKeepsTaps(names, s0, acts, s);
    RunKeepsStrays(names, s0, acts, s);
    RunRecords(names, s0, acts, s, n, true);
    assert TapInv(View(names, s, n), names.tap(n) in s.strayLinks);
  }

  /** Once nothing is in flight or registered and no failed removal of an overlay is on
      record, the host holds no file that it did not hold before the daemon, and every
      process that is left has been told to stop. If no failed removal of a link is on
      record either, and link names are distinct, it holds the links it held. */
  lemma NothingLeaks(names: Names, s0: State, acts: seq<Action>, s: State)
    requires Injective(names.overlay) && Run(names, s0, acts, s) && Creates(acts) < WRAP
    requires forall n :: n in s.inst ==> !InFlight(s.inst[n]) && !s.inst[n].registered && !s.inst[n].diskResidue
    ensures s.disks.Keys == s.strayFiles <= s0.disks.Keys
    ensures forall n :: n in s.inst && s.inst[n].alive ==> s.inst[n].stopped
    ensures InjectiveUpTo(names.tap, Creates(acts)) && (forall n :: n in s.inst ==> !s.inst[n].tapResidue) ==>
              s.links == s0.links
  {
    OverlayConservation(names, s0, acts, s);
    ProcessesAreHeld(names, s0, acts, s);
    assert HeldOverlays(names, s) == {};
    if InjectiveUpTo(names.tap, Creates(acts)) && forall n :: n in s.inst ==> !s.inst[n].tapResidue {
      TapConservation(names, s0, acts, s);
      assert HeldTaps(names, s) == {};
    }
  }
}
