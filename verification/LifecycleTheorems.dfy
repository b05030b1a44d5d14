/** What holds of every run: each theorem quantifies over all lists of actions. */
module LifecycleTheorems {
  import opened Common
  import opened Zeroing
  import opened Lifecycle
  import opened LifecycleCells
  import opened LifecycleInv

  /** `acts` is a run of a freshly started daemon from `s0` to `s`. */
  ghost predicate Run(names: Names, s0: State, acts: seq<Action>, s: State) {
    Init(s0) && Exec(names, s0, acts) == Some(s)
  }

  lemma ExecLast(names: Names, s: State, acts: seq<Action>, a: Action)
    ensures Exec(names, s, acts + [a]).Some? ==> Exec(names, s, acts).Some?
    ensures Exec(names, s, acts + [a]) ==
              match Exec(names, s, acts) { case None => None case Some(m) => Step(names, m, a) }
    ensures Creates(acts + [a]) == Creates(acts) + if a.Create? then 1 else 0
  {
    var longer := acts + [a];
    assert longer[..|longer| - 1] == acts && longer[|longer| - 1] == a;
  }

  lemma RunOneMore(names: Names, s0: State, acts: seq<Action>, s: State, a: Action, s': State)
    requires Run(names, s0, acts, s) && Step(names, s, a) == Some(s')
    ensures Run(names, s0, acts + [a], s') && Creates(acts + [a]) == Creates(acts) + if a.Create? then 1 else 0
  {
    ExecLast(names, s0, acts, a);
  }

  ghost predicate Sound(names: Names, s: State) {
    Base(names, s) && AuditsOnce(s) && SweepsInOrder(s)
  }

  // ------------------------------------------------------- induction over runs

  lemma LastStep(names: Names, s0: State, acts: seq<Action>, s: State) returns (m: State)
    requires acts != [] && Exec(names, s0, acts) == Some(s)
    ensures Exec(names, s0, acts[..|acts| - 1]) == Some(m) && Step(names, m, acts[|acts| - 1]) == Some(s)
  {
    m := Exec(names, s0, acts[..|acts| - 1]).value;
  }

  lemma {:induction false} ExecKeepsSound(names: Names, s: State, acts: seq<Action>, s': State)
    requires Injective(names.overlay) && Sound(names, s) && Exec(names, s, acts) == Some(s')
    requires s.issued + Creates(acts) < WRAP
    ensures Sound(names, s') && s'.issued == s.issued + Creates(acts)
    decreases |acts|
  {
    if acts == [] {
    } else {
      var m := LastStep(names, s, acts, s');
      var a := acts[|acts| - 1];
      ExecKeepsSound(names, s, acts[..|acts| - 1], m);
      BaseStep(names, m, a, s');
      AuditStep(names, m, a, s');
      SweepStep(names, m, a, s');
      IssuedStep(names, m, a, s');
    }
  }

  lemma RunIsSound(names: Names, s0: State, acts: seq<Action>, s: State)
    requires Injective(names.overlay) && Run(names, s0, acts, s) && Creates(acts) < WRAP
    ensures Sound(names, s) && s.issued == Creates(acts)
  {
    ExecKeepsSound(names, s0, acts, s);
  }

  lemma {:induction false} RunKeepsTaps(names: Names, s0: State, acts: seq<Action>, s: State)
    requires Injective(names.overlay) && Run(names, s0, acts, s) && Creates(acts) < WRAP
    requires InjectiveUpTo(names.tap, Creates(acts))
    ensures Taps(names, s) && DeletedOnce(s)
    decreases |acts|
  {
    if acts == [] {
    } else {
      var m := LastStep(names, s0, acts, s);
      var a := acts[|acts| - 1];
      RunIsSound(names, s0, acts[..|acts| - 1], m);
      RunKeepsTaps(names, s0, acts[..|acts| - 1], m);
      TapStep(names, m, a, s);
      ReplyStep(names, m, a, s);
    }
  }

  lemma IssuedStep(names: Names, s: State, a: Action, s': State)
    requires Step(names, s, a) == Some(s')
    ensures s'.issued == if a.Create? then (s.issued + 1) % WRAP else s.issued
  {
    if WritesCell(a) { WrittenIsStep(names, s, a, s'); }
    else if a.Tear? {
      var c', next := TearParts(names, s, a.t, a.out, a.count, s');
      AdvanceShape(PutCell(names, s, s.tears[a.t].n, c'), a.t, next);
    }
  }

  /** What is on record of an instance that came up stays on record over any run. */
  lemma {:induction false} RunIsLater(names: Names, s: State, more: seq<Action>, s': State, n: nat)
    requires Injective(names.overlay) && Sound(names, s) && Exec(names, s, more) == Some(s')
    requires s.issued + Creates(more) < WRAP && IsUp(s, n)
    ensures IsUp(s', n) && InstLater(s.inst[n], s'.inst[n])
    decreases |more|
  {
    if more == [] {
    } else {
      var m := LastStep(names, s, more, s');
      RunIsLater(names, s, more[..|more| - 1], m, n);
      ExecKeepsSound(names, s, more[..|more| - 1], m);
      LaterStep(names, m, more[|more| - 1], s');
    }
  }

  /** Leftovers of other programs: links are never touched, and a file is only
      lost by an overlay being created in its place. */
  lemma StrayStep(names: Names, s: State, a: Action, s': State)
    requires Step(names, s, a) == Some(s')
    ensures s'.strayLinks == s.strayLinks && s'.strayFiles <= s.strayFiles
    ensures forall p :: p in s.strayFiles && p !in s'.strayFiles ==> exists n :: n in s.inst && p == names.overlay(n)
  {
    if WritesCell(a) { WrittenIsStep(names, s, a, s'); }
    else if a.Tear? {
      var c', next := TearParts(names, s, a.t, a.out, a.count, s');
      AdvanceShape(PutCell(names, s, s.tears[a.t].n, c'), a.t, next);
    }
  }

  lemma {:induction false} RunKeepsStrays(names: Names, s0: State, acts: seq<Action>, s: State)
    requires Injective(names.overlay) && Run(names, s0, acts, s) && Creates(acts) < WRAP
    ensures s.strayLinks == s0.links && s.strayFiles <= s0.disks.Keys
    ensures forall p :: p in s0.disks && p !in s.strayFiles ==> exists n :: n in s.inst && p == names.overlay(n)
    decreases |acts|
  {
    if acts == [] {
    } else {
      var m := LastStep(names, s0, acts, s);
      RunKeepsStrays(names, s0, acts[..|acts| - 1], m);
      RunIsSound(names, s0, acts[..|acts| - 1], m);
      StrayStep(names, m, acts[|acts| - 1], s);
      LaterStep(names, m, acts[|acts| - 1], s);
    }
  }

  // ------------------------------------------------------------- conservation

  /** Why an instance may still account for a resource. */
  predicate InFlight(i: Inst) { i.pc != Up && i.pc != Failed }

  function HeldTaps(names: Names, s: State): set<string> {
    set n | n in s.inst && HoldsTap(s.inst[n]) :: names.tap(n)
  }

  function HeldOverlays(names: Names, s: State): set<string> {
    set n | n in s.inst && HoldsDisk(s.inst[n]) :: names.overlay(n)
  }

  lemma TapFacts(names: Names, s: State)
    requires CellsOk(names, s) && TapCellsOk(names, s)
    ensures forall n :: n in s.inst ==>
              (HoldsTap(s.inst[n]) <==> names.tap(n) in s.links && names.tap(n) !in s.strayLinks)
    ensures forall n :: n in s.inst && HoldsTap(s.inst[n]) ==>
              InFlight(s.inst[n]) || s.inst[n].registered || s.inst[n].tapResidue
    ensures forall n :: n in s.inst && s.inst[n].registered && !s.inst[n].released ==> HoldsTap(s.inst[n])
  {
    forall n | n in s.inst
      ensures HoldsTap(s.inst[n]) <==> names.tap(n) in s.links && names.tap(n) !in s.strayLinks
      ensures HoldsTap(s.inst[n]) ==> InFlight(s.inst[n]) || s.inst[n].registered || s.inst[n].tapResidue
      ensures s.inst[n].registered && !s.inst[n].released ==> HoldsTap(s.inst[n])
    {
      assert TapInv(View(names, s, n), names.tap(n) in s.strayLinks) && CellInv(View(names, s, n));
    }
  }

  lemma LinksAreHeld(names: Names, s: State)
    requires LinksOk(names, s)
    requires forall n :: n in s.inst ==>
               (HoldsTap(s.inst[n]) <==> names.tap(n) in s.links && names.tap(n) !in s.strayLinks)
    ensures s.links == s.strayLinks + HeldTaps(names, s) && s.strayLinks !! HeldTaps(names, s)
  {
  }

  /** In every interleaving, with any command failing, the live TAP links are
      those the host had before, plus exactly one for each instance whose launch
      is in flight past its allocation, or that is registered and whose TAP no
      teardown has removed, or whose failed cleanup is on record. */
  lemma TapConservation(names: Names, s0: State, acts: seq<Action>, s: State)
    requires Injective(names.overlay) && Run(names, s0, acts, s) && Creates(acts) < WRAP
    requires InjectiveUpTo(names.tap, Creates(acts))
    ensures s.links == s0.links + HeldTaps(names, s) && s0.links !! HeldTaps(names, s)
    ensures forall n, m :: n in s.inst && m in s.inst && n != m ==> names.tap(n) != names.tap(m)
    ensures forall n :: n in s.inst && HoldsTap(s.inst[n]) ==>
              InFlight(s.inst[n]) || s.inst[n].registered || s.inst[n].tapResidue
    ensures forall n :: n in s.inst && s.inst[n].registered && !s.inst[n].released ==> HoldsTap(s.inst[n])
  {
    RunIsSound(names, s0, acts, s);
    RunKeepsTaps(names, s0, acts, s);
    RunKeepsStrays(names, s0, acts, s);
    TapFacts(names, s);
    LinksAreHeld(names, s);
  }

  lemma DiskFacts(names: Names, s: State)
    requires CellsOk(names, s)
    ensures forall n :: n in s.inst ==>
              (HoldsDisk(s.inst[n]) <==> names.overlay(n) in s.disks && names.overlay(n) !in s.strayFiles)
    ensures forall n :: n in s.inst && HoldsDisk(s.inst[n]) ==>
              InFlight(s.inst[n]) || s.inst[n].registered || s.inst[n].diskResidue
    ensures forall n :: n in s.inst && s.inst[n].registered && !s.inst[n].unlinked ==> HoldsDisk(s.inst[n])
  {
    forall n | n in s.inst
      ensures HoldsDisk(s.inst[n]) <==> names.overlay(n) in s.disks && names.overlay(n) !in s.strayFiles
      ensures HoldsDisk(s.inst[n]) ==> InFlight(s.inst[n]) || s.inst[n].registered || s.inst[n].diskResidue
      ensures s.inst[n].registered && !s.inst[n].unlinked ==> HoldsDisk(s.inst[n])
    {
      assert CellInv(View(names, s, n));
    }
  }

  lemma FilesAreHeld(names: Names, s: State)
    requires FilesOk(names, s)
    requires forall n :: n in s.inst ==>
               (HoldsDisk(s.inst[n]) <==> names.overlay(n) in s.disks && names.overlay(n) !in s.strayFiles)
    ensures s.disks.Keys == s.strayFiles + HeldOverlays(names, s) && s.strayFiles !! HeldOverlays(names, s)
  {
  }

  /** The same for overlay files; a file the host had before is only lost to an
      overlay of the same path. */
  lemma OverlayConservation(names: Names, s0: State, acts: seq<Action>, s: State)
    requires Injective(names.overlay) && Run(names, s0, acts, s) && Creates(acts) < WRAP
    ensures s.disks.Keys == s.strayFiles + HeldOverlays(names, s) && s.strayFiles !! HeldOverlays(names, s)
    ensures s.strayFiles <= s0.disks.Keys
    ensures forall p :: p in s0.disks && p !in s.strayFiles ==> exists n :: n in s.inst && p == names.overlay(n)
    ensures forall n :: n in s.inst && HoldsDisk(s.inst[n]) ==>
              InFlight(s.inst[n]) || s.inst[n].registered || s.inst[n].diskResidue
    ensures forall n :: n in s.inst && s.inst[n].registered && !s.inst[n].unlinked ==> HoldsDisk(s.inst[n])
  {
    RunIsSound(names, s0, acts, s);
    RunKeepsStrays(names, s0, acts, s);
    DiskFacts(names, s);
    FilesAreHeld(names, s);
  }

  /** A process that lives belongs to a launch in flight or to a registered instance,
      or it has been told to stop. */
  lemma ProcessesAreHeld(names: Names, s0: State, acts: seq<Action>, s: State)
    requires Injective(names.overlay) && Run(names, s0, acts, s) && Creates(acts) < WRAP
    ensures forall n :: n in s.inst && s.inst[n].alive ==>
              InFlight(s.inst[n]) || s.inst[n].registered || s.inst[n].stopped
  {
    RunIsSound(names, s0, acts, s);
    forall n | n in s.inst && s.inst[n].alive
      ensures InFlight(s.inst[n]) || s.inst[n].registered || s.inst[n].stopped
    {
      assert CellInv(View(names, s, n));
    }
  }

  // ------------------------------------------------------- audits and deletion

  /** Each instance has at most one destruction audit, in every interleaving of
      deletes, retries and sweeps. Its overlay is gone for good, every byte of it
      was zero when its name was removed, but for bytes the guest wrote behind
      the shredder, and there are none of those if the process had exited when
      the shredder opened the file. */
  lemma AuditedOnceAndWiped(names: Names, s0: State, acts: seq<Action>, s: State)
    requires Injective(names.overlay) && Run(names, s0, acts, s) && Creates(acts) < WRAP
    ensures forall i, j :: 0 <= i < j < |s.audits| ==> s.audits[i].n != s.audits[j].n
    ensures forall i :: 0 <= i < |s.audits| ==>
              var a := s.audits[i];
              && a.n in s.inst && s.inst[a.n].unlinked && names.overlay(a.n) !in s.disks
              && |a.bytes| == a.size
              && (forall o :: 0 <= o < a.size && a.bytes[o] != 0 ==> o in a.dirty)
              && (a.reaped ==> AllZero(a.bytes))
  {
    RunIsSound(names, s0, acts, s);
    forall i | 0 <= i < |s.audits| ensures names.overlay(s.audits[i].n) !in s.disks {
      var n := s.audits[i].n;
      assert CellInv(View(names, s, n));
    }
  }

  /** Every instance that a DELETE answered 204 for is unregistered. */
  ghost predicate AnsweredAreRemoved(s: State) {
    forall i :: 0 <= i < |s.replies| && s.replies[i].code == 204 ==> Removed(s, s.replies[i].n)
  }

  lemma LaterKeepsAnswers(s: State, s': State)
    requires AnsweredAreRemoved(s) && Later(s, s')
    requires s'.replies == s.replies || exists r: Reply ::
               s'.replies == s.replies + [r] && (r.code == 204 ==> Removed(s', r.n))
    ensures AnsweredAreRemoved(s')
  {
  }

  lemma AnswerStep(names: Names, s: State, a: Action, s': State)
    requires Base(names, s) && AnsweredAreRemoved(s) && Step(names, s, a) == Some(s')
    requires a.Create? ==> s.issued + 1 < WRAP
    ensures AnsweredAreRemoved(s')
  {
    LaterStep(names, s, a, s');
    if a.Tear? {
      TearAnswers(names, s, a.t, a.out, a.count, s');
    } else {
      QuietShape(names, s, a, s');
    }
    LaterKeepsAnswers(s, s');
  }

  lemma TearAnswers(names: Names, s: State, t: nat, out: Outcome, count: nat, s': State)
    requires Base(names, s) && TearStep(names, s, t, out, count) == Some(s')
    ensures s'.replies == s.replies || exists r: Reply ::
              s'.replies == s.replies + [r] && (r.code == 204 ==> Removed(s', r.n))
  {
    var c', next := TearParts(names, s, t, out, count, s');
    var T := s.tears[t];
    assert TearOk(names, s, T);
    ReplyLog(names, s, t, c', next);
    assert Answering(T) ==> Removed(s', T.n);
  }

  lemma {:induction false} RunAnswers(names: Names, s0: State, acts: seq<Action>, s: State)
    requires Injective(names.overlay) && Run(names, s0, acts, s) && Creates(acts) < WRAP
    ensures AnsweredAreRemoved(s)
    decreases |acts|
  {
    if acts == [] {
    } else {
      var m := LastStep(names, s0, acts, s);
      RunAnswers(names, s0, acts[..|acts| - 1], m);
      RunIsSound(names, s0, acts[..|acts| - 1], m);
      AnswerStep(names, m, acts[|acts| - 1], s);
    }
  }

  /** Where link names are distinct, at most one DELETE of an instance is ever answered
      204, and then the instance is unregistered, its TAP is gone, and it has at most one audit. */
  lemma DeletedOnceAndGone(names: Names, s0: State, acts: seq<Action>, s: State)
    requires Injective(names.overlay) && Run(names, s0, acts, s) && Creates(acts) < WRAP
    requires InjectiveUpTo(names.tap, Creates(acts))
    ensures forall i, j :: 0 <= i < j < |s.replies| && s.replies[i].code == 204 && s.replies[j].code == 204
              ==> s.replies[i].n != s.replies[j].n
    ensures forall i :: 0 <= i < |s.replies| && s.replies[i].code == 204 ==>
              var n := s.replies[i].n;
              && Removed(s, n) && names.tap(n) !in s.links
              && forall k, l :: 0 <= k < l < |s.audits| && s.audits[k].n == n ==> s.audits[l].n != n
  {
    RunIsSound(names, s0, acts, s);
    RunKeepsTaps(names, s0, acts, s);
    forall i | 0 <= i < |s.replies| && s.replies[i].code == 204 ensures names.tap(s.replies[i].n) !in s.links {
      var n := s.replies[i].n;
      assert TapInv(View(names, s, n), names.tap(n) in s.strayLinks);
    }
  }

  // ------------------------------------------------------------- the lifecycle

  datatype Phase = Unallocated | Launching | LaunchFailed | Serving | Gone

  function PhaseOf(s: State, n: nat): Phase {
    if n !in s.inst then Unallocated
    else if s.inst[n].pc == Failed then LaunchFailed
    else if s.inst[n].pc != Up then Launching
    else if s.inst[n].registered then Serving else Gone
  }

  /** The moves an id may make in one step. */
  predicate Moves(p: Phase, q: Phase) {
    p == q || (p, q) in {(Unallocated, Launching), (Launching, LaunchFailed), (Launching, Serving), (Serving, Gone)}
  }

  /** The moves an id may make in any number of steps. */
  predicate Progresses(p: Phase, q: Phase) {
    match p
    case Unallocated => true
    case Launching => q != Unallocated
    case LaunchFailed => q == LaunchFailed
    case Serving => q == Serving || q == Gone
    case Gone => q == Gone
  }

  lemma CellMoves(c: Cell, c': Cell)
    requires CellInv(c)
    requires (exists out, image :: LaunchCell(c, out, image) == Some(c')) || RegisterCell(c) == Some(c')
             || ExitCell(c) == Some(c') || exists i, b :: GuestCell(c, i, b) == Some(c')
    ensures c.i.pc == Failed ==> c'.i.pc == Failed
    ensures c.i.pc != Up && c'.i.pc == Up ==> c.i.pc == Ready && c'.i.registered
  {
  }

  lemma PhaseStep(names: Names, s: State, a: Action, s': State, n: nat)
    requires Injective(names.overlay) && Base(names, s) && Step(names, s, a) == Some(s')
    requires a.Create? ==> s.issued + 1 < WRAP
    ensures Moves(PhaseOf(s, n), PhaseOf(s', n))
  {
    if WritesCell(a) {
      WrittenIsStep(names, s, a, s');
      WrittenPhase(names, s, a, n);
    } else if a.Create? {
      CreateShape(names, s, s');
    } else if a.Tear? {
      TearPhase(names, s, a.t, a.out, a.count, s', n);
    } else {
      StartShape(names, s, a, s');
    }
  }

  lemma TearPhase(names: Names, s: State, t: nat, out: Outcome, count: nat, s': State, n: nat)
    requires Base(names, s) && TearStep(names, s, t, out, count) == Some(s')
    ensures Moves(PhaseOf(s, n), PhaseOf(s', n))
  {
    var c', next := TearParts(names, s, t, out, count, s');
    var T := s.tears[t];
    assert TearOk(names, s, T);
    TearEvolves(View(names, s, T.n), T.n, T.stage, out, count, c', next);
    ReplyLog(names, s, t, c', next);
  }

  lemma WrittenPhase(names: Names, s: State, a: Action, n: nat)
    requires Injective(names.overlay) && Base(names, s) && WritesCell(a) && Written(names, s, a).Some?
    requires Written(names, s, a).value.0 in s.inst
    ensures var (m, c) := Written(names, s, a).value; Moves(PhaseOf(s, n), PhaseOf(PutCell(names, s, m, c), n))
  {
    var (m, c) := Written(names, s, a).value;
    WrittenKeeps(names, s, a, m, c);
    WrittenMoves(names, s, a, m, c);
  }

  lemma WrittenMoves(names: Names, s: State, a: Action, n: nat, c: Cell)
    requires Written(names, s, a) == Some((n, c)) && n in s.inst && CellInv(View(names, s, n))
    ensures s.inst[n].pc == Failed ==> c.i.pc == Failed
    ensures s.inst[n].pc != Up && c.i.pc == Up ==> c.i.registered
  {
    var v := View(names, s, n);
    match a {
      case Launch(_, out, image) => assert LaunchCell(v, out, image) == Some(c); CellMoves(v, c);
      case Register(_) => CellMoves(v, c);
      case Exit(_) => CellMoves(v, c);
      case GuestWrite(_, i, b) => assert GuestCell(v, i, b) == Some(c); CellMoves(v, c);
    }
  }

  /** An id only ever moves unallocated, launching, registered, removed, or from
      launching to failed, whatever else the daemon does meanwhile. */
  lemma {:induction false} LifecycleIsMonotone(
    names: Names, s0: State, acts: seq<Action>, s: State, more: seq<Action>, s': State, n: nat)
    requires Injective(names.overlay) && Run(names, s0, acts, s) && Exec(names, s, more) == Some(s')
    requires Creates(acts) + Creates(more) < WRAP
    ensures Progresses(PhaseOf(s, n), PhaseOf(s', n))
    decreases |more|
  {
    if more == [] {
    } else {
      var m := LastStep(names, s, more, s');
      LifecycleIsMonotone(names, s0, acts, s, more[..|more| - 1], m, n);
      RunIsSound(names, s0, acts, s);
      ExecKeepsSound(names, s, more[..|more| - 1], m);
      PhaseStep(names, m, more[|more| - 1], s', n);
    }
  }

  /** Each create issues an id that was never issued before: the number of creates so far. */
  lemma CreateIsFresh(names: Names, s0: State, acts: seq<Action>, s: State, s': State)
    requires Injective(names.overlay) && Run(names, s0, acts, s) && Creates(acts) + 1 < WRAP
    requires Step(names, s, Create) == Some(s')
    ensures s'.issued == Creates(acts) + 1
    ensures PhaseOf(s, s'.issued) == Unallocated && PhaseOf(s', s'.issued) == Launching
  {
    RunIsSound(names, s0, acts, s);
  }

  /** After a GET of a removed (or failed) id, every later GET of it answers 404. */
  lemma GoneStaysGone(names: Names, s0: State, acts: seq<Action>, s: State, more: seq<Action>, s': State, n: nat)
    requires Injective(names.overlay) && Run(names, s0, acts, s) && Exec(names, s, more) == Some(s')
    requires Creates(acts) + Creates(more) < WRAP && PhaseOf(s, n) in {Gone, LaunchFailed}
    ensures Step(names, s', Get(n)) == Some(s'.(replies := s'.replies + [Reply(n, 404)]))
  {
    LifecycleIsMonotone(names, s0, acts, s, more, s', n);
    RunIsSound(names, s0, acts, s);
    ExecKeepsSound(names, s, more, s');
    RegistryIsUp(names, s');
  }

  // ------------------------------------------------------------- StopAll

  lemma SweepKeepsStart(names: Names, s: State, a: Action, s': State, k: nat)
    requires Step(names, s, a) == Some(s') && a != SweepBegin(k) && k in s'.sweeps
    ensures k in s.sweeps && s'.sweeps[k].start == s.sweeps[k].start
  {
    if WritesCell(a) { WrittenIsStep(names, s, a, s'); }
    else if a.Tear? {
      var c', next := TearParts(names, s, a.t, a.out, a.count, s');
      SweepLog(names, s, a.t, c', next);
    }
  }

  lemma {:induction false} SweepRemembers(names: Names, s: State, mid: seq<Action>, s': State, k: nat)
    requires Exec(names, s, mid) == Some(s') && SweepBegin(k) !in mid && k in s'.sweeps
    ensures k in s.sweeps && s'.sweeps[k].start == s.sweeps[k].start
    decreases |mid|
  {
    if mid == [] {
    } else {
      var m := LastStep(names, s, mid, s');
      SweepKeepsStart(names, m, mid[|mid| - 1], s', k);
      SweepRemembers(names, s, mid[..|mid| - 1], m, k);
    }
  }

  lemma RegistryOnlyShrinks(names: Names, s: State, a: Action, s': State)
    requires Injective(names.overlay) && Base(names, s) && Step(names, s, a) == Some(s') && !a.Register?
    requires a.Create? ==> s.issued + 1 < WRAP
    ensures forall n :: Registered(s', n) ==> Registered(s, n)
  {
    LaterStep(names, s, a, s');
    if WritesCell(a) {
      WrittenIsStep(names, s, a, s');
      var (m, c) := Written(names, s, a).value;
      WrittenKeeps(names, s, a, m, c);
      PutFrame(names, s, m, c);
    } else if a.Tear? {
      var c', next := TearParts(names, s, a.t, a.out, a.count, s');
      assert TearOk(names, s, s.tears[a.t]);
      ReplyLog(names, s, a.t, c', next);
    } else if a.Create? {
      CreateShape(names, s, s');
    } else {
      StartShape(names, s, a, s');
    }
  }

  lemma {:induction false} NothingRegisters(names: Names, s: State, mid: seq<Action>, s': State)
    requires Injective(names.overlay) && Sound(names, s) && Exec(names, s, mid) == Some(s')
    requires s.issued + Creates(mid) < WRAP && forall a :: a in mid ==> !a.Register?
    ensures forall n :: Registered(s', n) ==> Registered(s, n)
    decreases |mid|
  {
    if mid == [] {
    } else {
      var m := LastStep(names, s, mid, s');
      NothingRegisters(names, s, mid[..|mid| - 1], m);
      ExecKeepsSound(names, s, mid[..|mid| - 1], m);
      RegistryOnlyShrinks(names, m, mid[|mid| - 1], s');
    }
  }

  lemma SweepIsDone(names: Names, s: State, k: nat, s': State)
    requires Sound(names, s) && Step(names, s, SweepEnd(k)) == Some(s')
    ensures k in s.sweeps
    ensures forall n :: n in s.sweeps[k].start ==> n in s'.inst && s'.inst[n].stopped && !Registered(s', n)
    ensures forall n :: Registered(s', n) <==> Registered(s, n)
  {
    assert SweepOk(s, s.sweeps[k]);
    forall n | n in s.sweeps[k].start ensures n in s'.inst && s'.inst[n].stopped && !Registered(s', n) {
      assert CellInv(View(names, s, n));
    }
  }

  /** When `StopAll` returns, everything that was registered when it began was
      told to stop and is unregistered, whether or not a stop failed and whatever
      ran beside it; and if nothing was registered meanwhile, nothing is left. */
  lemma StopAllCovers(names: Names, s0: State, acts: seq<Action>, s: State, k: nat, begun: State,
                      mid: seq<Action>, last: State, s': State)
    requires Injective(names.overlay) && Run(names, s0, acts, s) && Creates(acts) + Creates(mid) < WRAP
    requires Step(names, s, SweepBegin(k)) == Some(begun) && SweepBegin(k) !in mid
    requires Exec(names, begun, mid) == Some(last) && Step(names, last, SweepEnd(k)) == Some(s')
    ensures forall n :: n in Registry(s) ==> n in s'.inst && s'.inst[n].stopped && !Registered(s', n)
    ensures (forall a :: a in mid ==> !a.Register?) ==> Registry(s') == {}
  {
    RunIsSound(names, s0, acts, s);
    SweepHasBegun(names, s, k, begun);
    ExecKeepsSound(names, begun, mid, last);
    SweepIsDone(names, last, k, s');
    SweepRemembers(names, begun, mid, last, k);
    if forall a :: a in mid ==> !a.Register? {
      NothingRegisters(names, begun, mid, last);
      assert forall n :: Registered(s', n) ==> n in Registry(s);
    }
  }

  lemma SweepHasBegun(names: Names, s: State, k: nat, begun: State)
    requires Injective(names.overlay) && Sound(names, s) && Step(names, s, SweepBegin(k)) == Some(begun)
    ensures Sound(names, begun) && begun.issued == s.issued && begun.inst == s.inst
    ensures k in begun.sweeps && begun.sweeps[k].start == Registry(s)
  {
    BaseStep(names, s, SweepBegin(k), begun);
    AuditStep(names, s, SweepBegin(k), begun);
    SweepStep(names, s, SweepBegin(k), begun);
  }
}
