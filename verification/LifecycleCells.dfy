/** What a single instance's commands keep, before any interleaving. */
module LifecycleCells {
  import opened Common
  import opened Zeroing
  import opened Lifecycle

  // ---------------------------------------------------------------- ownership

  /** The launch is past `AllocateTAP` and has not given the link back. */
  predicate TapHeldAt(p: Pc) {
    match p
    case Bridge => false
    case AddTap => false
    case Failed => false
    case Up => false
    case _ => true
  }

  /** The launch is past `copyFile` and has not removed the overlay. */
  predicate DiskHeldAt(p: Pc) {
    p.Spawn? || p.Poll? || p.Put? || p.Halt? || p.DropOverlay? || p.Ready?
  }

  predicate SpawnedAt(p: Pc) {
    p.Poll? || p.Put? || p.Halt? || p.DropOverlay? || p.DropTap? || p.Failed? || p.Ready? || p.Up?
  }

  /** An instance accounts for a live TAP: its launch holds it, or it came up and
      no teardown removed it, or its failed cleanup is on record. */
  predicate HoldsTap(i: Inst) {
    TapHeldAt(i.pc) || (i.pc == Up && !i.released) || (i.pc == Failed && i.tapResidue)
  }

  predicate HoldsDisk(i: Inst) {
    DiskHeldAt(i.pc) || (i.pc == Up && !i.unlinked) || ((i.pc == DropTap || i.pc == Failed) && i.diskResidue)
  }

  // ---------------------------------------------------------------- invariants

  ghost predicate InstInv(i: Inst) {
    && (i.registered || i.released || i.unlinked ==> i.pc == Up)
    && (i.stopped ==> i.pc == DropOverlay || i.pc == DropTap || i.pc == Failed || i.pc == Up)
    && (i.alive && (i.pc == DropOverlay || i.pc == DropTap || i.pc == Failed) ==> i.stopped)
    && (i.tapResidue ==> i.pc == Failed || i.pc == Up)
    && (i.diskResidue ==> i.pc == DropTap || i.pc == Failed || i.pc == Up)
    && (i.alive ==> SpawnedAt(i.pc))
    && (i.pc == Up && !i.registered ==> i.stopped && (i.unlinked || i.diskResidue))
  }

  /** The overlay file exists exactly while the instance accounts for it. */
  ghost predicate DiskInv(c: Cell) {
    && (HoldsDisk(c.i) <==> c.disk.Some? && !c.stray)
    && (c.stray ==> c.disk.Some? && !DiskHeldAt(c.i.pc) && c.i.pc != Up)
  }

  ghost predicate CellInv(c: Cell) { InstInv(c.i) && DiskInv(c) }

  /** The link exists exactly while the instance accounts for it; `foreign` says
      that a link of that name was there before the daemon. */
  ghost predicate TapInv(c: Cell, foreign: bool) {
    && (HoldsTap(c.i) <==> c.tap && !foreign)
    && (foreign ==> c.tap && !TapHeldAt(c.i.pc) && c.i.pc != Up)
    && (c.i.pc == Up && !c.i.registered ==> c.i.released || c.i.tapResidue)
  }

  /** The first `off` bytes are zero, but for bytes the guest wrote afterwards. */
  ghost predicate Zeroed(bytes: seq<byte>, dirty: set<nat>, off: nat, size: nat, reaped: bool) {
    && off <= size == |bytes|
    && (forall i :: 0 <= i < off ==> bytes[i] == 0 || i in dirty)
    && (reaped ==> forall i :: 0 <= i < off ==> i !in dirty)
  }

  ghost predicate AuditInv(a: Audit) { Zeroed(a.bytes, a.dirty, a.size, a.size, a.reaped) }

  ghost predicate WipeInv(c: Cell, off: nat, size: nat, reaped: bool) {
    && off <= size
    && (c.disk.Some? ==> Zeroed(c.disk.value.bytes, c.disk.value.dirty, off, size, reaped))
    && (reaped ==> !c.i.alive)
  }

  ghost predicate StageInv(c: Cell, n: nat, stage: Stage) {
    && c.i.pc == Up
    && (stage != Halting ==> c.i.stopped)
    && match stage
       case Halting => true
       case Opening => true
       case Wiping(off, size, reaped) => WipeInv(c, off, size, reaped)
       case Unlinking(size, reaped) => WipeInv(c, size, size, reaped)
       case Auditing(a) => c.i.unlinked && a.n == n && AuditInv(a)
       case _ => c.i.unlinked || c.i.diskResidue
  }

  /** The TAP's side of a `Stop` call: a 204 is only on its way after the link
      was removed by this instance's own release. */
  ghost predicate TapStageInv(i: Inst, origin: Origin, stage: Stage) {
    match stage
    case Reporting => i.released || i.tapResidue
    case Dropping => i.released || (i.tapResidue && origin.BySweep?)
    case _ => true
  }

  ghost predicate InstLater(i: Inst, i': Inst) {
    i.pc == Up ==>
      && i'.pc == Up
      && (i.stopped ==> i'.stopped) && (i.unlinked ==> i'.unlinked) && (i.released ==> i'.released)
      && (i.diskResidue ==> i'.diskResidue) && (i.tapResidue ==> i'.tapResidue)
      && (i'.alive ==> i.alive) && (i'.registered ==> i.registered)
  }

  /** How an instance that came up may change, whoever changes it. */
  ghost predicate Evolves(c: Cell, c': Cell) {
    c.i.pc == Up ==>
      && InstLater(c.i, c'.i)
      && (c'.disk.Some? ==>
            && c.disk.Some?
            && |c'.disk.value.bytes| == |c.disk.value.bytes|
            && forall i :: 0 <= i < |c'.disk.value.bytes| ==>
                 || (&& c'.disk.value.bytes[i] == c.disk.value.bytes[i]
                     && (i in c'.disk.value.dirty <==> i in c.disk.value.dirty))
                 || (c'.disk.value.bytes[i] == 0 && i !in c'.disk.value.dirty)
                 || (i in c'.disk.value.dirty && c.i.alive))
  }

  // ---------------------------------------------------------------- one command

  lemma AcquireKeeps(c: Cell, out: Outcome, image: seq<byte>, c': Cell)
    requires CellInv(c) && AcquireCell(c, out, image) == Some(c')
    ensures InstInv(c'.i) && c.i.pc != Up && c'.i.pc != Up && (c'.stray ==> c.stray)
  {
  }

  lemma AcquireKeepsDisk(c: Cell, out: Outcome, image: seq<byte>, c': Cell)
    requires CellInv(c) && AcquireCell(c, out, image) == Some(c')
    ensures DiskInv(c')
  {
  }

  lemma RollbackKeeps(c: Cell, out: Outcome, c': Cell)
    requires CellInv(c) && RollbackCell(c, out) == Some(c')
    ensures CellInv(c') && c.i.pc != Up && c'.i.pc != Up && c'.stray == c.stray
  {
  }

  lemma LaunchKeeps(c: Cell, out: Outcome, image: seq<byte>, c': Cell)
    requires CellInv(c) && LaunchCell(c, out, image) == Some(c')
    ensures CellInv(c') && c.i.pc != Up && c'.i.pc != Up && (c'.stray ==> c.stray)
  {
    if RollingBack(c.i.pc) {
      RollbackKeeps(c, out, c');
    } else {
      AcquireKeeps(c, out, image, c');
      AcquireKeepsDisk(c, out, image, c');
    }
  }

  lemma LaunchKeepsTap(c: Cell, foreign: bool, out: Outcome, image: seq<byte>, c': Cell)
    requires InstInv(c.i) && TapInv(c, foreign) && LaunchCell(c, out, image) == Some(c')
    ensures TapInv(c', foreign)
  {
  }

  lemma RegisterKeeps(c: Cell, c': Cell)
    requires CellInv(c) && RegisterCell(c) == Some(c')
    ensures CellInv(c') && c.i.pc != Up && c'.stray == c.stray
    ensures forall foreign :: TapInv(c, foreign) ==> TapInv(c', foreign)
  {
  }

  lemma HostKeeps(c: Cell, c': Cell)
    requires CellInv(c)
    requires ExitCell(c) == Some(c') || exists i, b :: GuestCell(c, i, b) == Some(c')
    ensures CellInv(c') && Evolves(c, c') && c'.stray == c.stray && c'.i.registered == c.i.registered
    ensures forall foreign :: TapInv(c, foreign) ==> TapInv(c', foreign)
  {
  }

  lemma WipedKeeps(c: Cell, lo: nat, hi: nat)
    ensures Evolves(c, Wiped(c, lo, hi))
    ensures forall size, reaped :: WipeInv(c, lo, size, reaped) && lo <= hi <= size ==>
              WipeInv(Wiped(c, lo, hi), hi, size, reaped)
  {
  }

  lemma ShredKeeps(c: Cell, n: nat, stage: Stage, out: Outcome, count: nat, c': Cell, next: Stage)
    requires CellInv(c) && StageInv(c, n, stage) && ShredCell(c, n, stage, out, count) == Some((c', next))
    ensures CellInv(c') && c'.stray == c.stray && c'.i.registered == c.i.registered
  {
  }

  lemma StopKeeps(c: Cell, n: nat, stage: Stage, out: Outcome, c': Cell, next: Stage)
    requires CellInv(c) && StageInv(c, n, stage) && StopCell(c, stage, out) == Some((c', next))
    ensures CellInv(c') && c'.stray == c.stray
    ensures stage != Dropping ==> c'.i.registered == c.i.registered
  {
  }

  lemma TearKeeps(c: Cell, n: nat, stage: Stage, out: Outcome, count: nat, c': Cell, next: Stage)
    requires CellInv(c) && StageInv(c, n, stage) && TearCell(c, n, stage, out, count) == Some((c', next))
    ensures CellInv(c') && c'.stray == c.stray
    ensures stage != Dropping ==> c'.i.registered == c.i.registered
  {
    if Shredding(stage) {
      ShredKeeps(c, n, stage, out, count, c', next);
    } else {
      StopKeeps(c, n, stage, out, c', next);
    }
  }

  lemma SameEvolves(c: Cell, c': Cell)
    requires InstLater(c.i, c'.i) && (c'.disk == c.disk || c'.disk == None)
    ensures Evolves(c, c')
  {
  }

  lemma ShredEvolves(c: Cell, n: nat, stage: Stage, out: Outcome, count: nat, c': Cell, next: Stage)
    requires ShredCell(c, n, stage, out, count) == Some((c', next))
    ensures Evolves(c, c')
  {
    if stage.Wiping? && stage.off < stage.size {
      WriteEvolves(c, n, stage.off, stage.size, stage.reaped, out, count, c', next);
    } else {
      SameEvolves(c, c');
    }
  }

  lemma WriteEvolves(
    c: Cell, n: nat, off: nat, size: nat, reaped: bool, out: Outcome, count: nat, c': Cell, next: Stage)
    requires off < size && ShredCell(c, n, Wiping(off, size, reaped), out, count) == Some((c', next))
    ensures Evolves(c, c')
  {
    WipedKeeps(c, off, off + Chunk(off, size));
    WipedKeeps(c, off, off + count);
  }

  lemma TearEvolves(c: Cell, n: nat, stage: Stage, out: Outcome, count: nat, c': Cell, next: Stage)
    requires StageInv(c, n, stage) && TearCell(c, n, stage, out, count) == Some((c', next))
    ensures Evolves(c, c')
  {
    if Shredding(stage) { ShredEvolves(c, n, stage, out, count, c', next); }
  }

  lemma TearStage(c: Cell, n: nat, stage: Stage, out: Outcome, count: nat, c': Cell, next: Stage)
    requires CellInv(c) && StageInv(c, n, stage) && TearCell(c, n, stage, out, count) == Some((c', next))
    ensures stage != Dropping ==> StageInv(c', n, next)
    ensures next.Auditing? ==> stage.Unlinking? && !c.i.unlinked
  {
    if stage.Wiping? && stage.off < stage.size {
      WipedKeeps(c, stage.off, stage.off + Chunk(stage.off, stage.size));
    }
  }

  lemma ShredKeepsTap(c: Cell, foreign: bool, n: nat, stage: Stage, out: Outcome, count: nat, c': Cell, next: Stage)
    requires TapInv(c, foreign) && ShredCell(c, n, stage, out, count) == Some((c', next))
    ensures TapInv(c', foreign) && c'.tap == c.tap && c'.i.released == c.i.released
    ensures !next.Reporting? && !next.Dropping?
  {
  }

  /** The next step of the teardown is its last. */
  predicate Ending(T: Teardown) { T.stage == Dropping || (T.stage == Reporting && T.origin.ByDelete?) }

  lemma TearKeepsTap(c: Cell, foreign: bool, n: nat, T: Teardown, out: Outcome, count: nat, c': Cell, next: Stage)
    requires StageInv(c, n, T.stage) && TapInv(c, foreign) && TapStageInv(c.i, T.origin, T.stage)
    requires TearCell(c, n, T.stage, out, count) == Some((c', next))
    ensures TapInv(c', foreign)
    ensures !Ending(T) ==> TapStageInv(c'.i, T.origin, next)
    ensures c'.tap != c.tap ==> !c.i.released && c'.i.released
    ensures T.stage == Releasing && next == Dropping ==> !c.i.released && c'.i.released
  {
    if Shredding(T.stage) { ShredKeepsTap(c, foreign, n, T.stage, out, count, c', next); }
  }

  lemma ShredReleases(c: Cell, n: nat, stage: Stage, out: Outcome, count: nat, c': Cell, next: Stage)
    requires ShredCell(c, n, stage, out, count) == Some((c', next))
    ensures c'.i.released == c.i.released
  {
    if stage.Wiping? && stage.off < stage.size {
      assert c' == if out == Done then Wiped(c, stage.off, stage.off + Chunk(stage.off, stage.size))
                   else ShredError(Wiped(c, stage.off, stage.off + count)).0;
    } else if out != Done {
      assert c' == ShredError(c).0;
    } else if stage.Unlinking? {
      assert c' == c.(disk := None, i := c.i.(unlinked := true));
    } else {
      assert c' == c;
    }
  }

  lemma StopReleases(c: Cell, stage: Stage, out: Outcome, c': Cell, next: Stage)
    requires StopCell(c, stage, out) == Some((c', next))
    ensures c'.i.released <==> c.i.released || (stage.Releasing? && out != Refused)
  {
    if stage.Halting? {
      assert c' == c.(i := c.i.(stopped := true));
    } else if stage.Dropping? {
      assert c' == c.(i := c.i.(registered := false));
    } else if !stage.Releasing? {
      assert c' == c;
    } else if out == Refused {
      assert c' == c.(i := c.i.(tapResidue := c.i.tapResidue || c.tap));
    } else {
      assert c' == c.(tap := false, i := c.i.(released := true));
    }
  }

  lemma TearReleases(c: Cell, n: nat, stage: Stage, out: Outcome, count: nat, c': Cell, next: Stage)
    requires TearCell(c, n, stage, out, count) == Some((c', next))
    ensures c'.i.released <==> c.i.released || (stage.Releasing? && out != Refused)
  {
    if Shredding(stage) {
      ShredReleases(c, n, stage, out, count, c', next);
    } else {
      StopReleases(c, stage, out, c', next);
    }
  }

  lemma ShredPurges(c: Cell, n: nat, stage: Stage, out: Outcome, count: nat, c': Cell, next: Stage)
    requires ShredCell(c, n, stage, out, count) == Some((c', next))
    ensures c'.i.unlinked <==> c.i.unlinked || (stage.Unlinking? && out == Done)
  {
    if stage.Wiping? && stage.off < stage.size {
      assert c' == if out == Done then Wiped(c, stage.off, stage.off + Chunk(stage.off, stage.size))
                   else ShredError(Wiped(c, stage.off, stage.off + count)).0;
    } else if out != Done {
      assert c' == ShredError(c).0;
    } else if stage.Unlinking? {
      assert c' == c.(disk := None, i := c.i.(unlinked := true));
    } else {
      assert c' == c;
    }
  }

  lemma StopPurges(c: Cell, stage: Stage, out: Outcome, c': Cell, next: Stage)
    requires StopCell(c, stage, out) == Some((c', next))
    ensures c'.i.unlinked == c.i.unlinked
  {
    if stage.Halting? {
      assert c' == c.(i := c.i.(stopped := true));
    } else if stage.Dropping? {
      assert c' == c.(i := c.i.(registered := false));
    } else if !stage.Releasing? {
      assert c' == c;
    }
  }

  lemma TearPurges(c: Cell, n: nat, stage: Stage, out: Outcome, count: nat, c': Cell, next: Stage)
    requires TearCell(c, n, stage, out, count) == Some((c', next))
    ensures c'.i.unlinked <==> c.i.unlinked || (stage.Unlinking? && out == Done)
  {
    if Shredding(stage) {
      ShredPurges(c, n, stage, out, count, c', next);
    } else {
      StopPurges(c, stage, out, c', next);
    }
  }

  /** Whatever an instance goes through, a `Stop` call in progress keeps its ground. */
  lemma StageSurvives(c: Cell, c': Cell, n: nat, stage: Stage)
    requires StageInv(c, n, stage) && Evolves(c, c')
    ensures StageInv(c', n, stage)
  {
  }

  /** The progress of a launch after a command that succeeded or did not. */
  function AfterCommand(pc: Pc, ok: bool): Pc {
    match pc
    case Bridge => if ok then AddTap else Failed
    case AddTap => if ok then AttachTap else Failed
    case AttachTap => if ok then RaiseTap else UndoTap
    case RaiseTap => if ok then Copy else UndoTap
    case UndoTap => Failed
    case Copy => if ok then Spawn else DropTap
    case Spawn => if ok then Poll else DropOverlay
    case Poll => if ok then Put(0) else Halt
    case Put(acked) => if !ok then Halt else if acked + 1 < PUTS then Put(acked + 1) else Ready
    case Halt => DropOverlay
    case DropOverlay => DropTap
    case DropTap => Failed
    case _ => pc
  }

  lemma MovesOn(c: Cell, out: Outcome, image: seq<byte>, c': Cell, pc: Pc)
    requires LaunchCell(c, out, image) == Some(c') && c.i.pc == pc
    ensures c'.i.pc == AfterCommand(pc, out == Done)
  {
    if RollingBack(pc) {
      assert RollbackCell(c, out) == Some(c');
      if pc.Halt? { return; }
      if pc.DropOverlay? { return; }
      assert c' == GiveUp(c, out);
    } else {
      assert AcquireCell(c, out, image) == Some(c');
    }
  }
}
