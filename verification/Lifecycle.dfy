/**
 The daemon's microVM lifecycle as one concurrent protocol.

 An `Action` is one atomic step of one handler, of `StopAll`, or of the host;
 every external command carries its outcome, so a list of actions is one
 interleaving with one choice of failures. A command of instance `n` sees and
 changes one `Cell`: the record of `n`, the link that bears its TAP name and the
 file at its overlay path. `Put` writes a cell back, so two instances whose
 names coincide do share a link.
 */
module Lifecycle {
  import opened Common
  import opened Zeroing

  /** The names derived from an instance number: its TAP link and its overlay path. */
  datatype Names = Names(tap: nat -> string, overlay: nat -> string)

  /** Progress of `LaunchVM` for one instance: what it will do next. */
  datatype Pc =
    | Bridge
    | AddTap
    | AttachTap
    | RaiseTap
    | UndoTap             // AllocateTAP removes the link it made
    | Copy
    | Spawn
    | Poll                // wait for the API socket
    | Put(acked: nat)     // configuration requests acknowledged so far
    | Halt                // rollback: stop the process
    | DropOverlay         // rollback: remove the overlay
    | DropTap             // rollback: release the TAP
    | Failed
    | Ready               // a handle was returned, not yet stored
    | Up                  // the handle has been stored in the registry

  const PUTS: nat := 5

  /** One instance. The last five fields are histories: the process was told to
      stop, a teardown removed the TAP, a teardown removed the overlay, and a failed
      cleanup left the TAP or the overlay behind. */
  datatype Inst = Inst(
    pc: Pc, alive: bool, registered: bool,
    stopped: bool, released: bool, unlinked: bool, tapResidue: bool, diskResidue: bool)

  const NEW: Inst := Inst(Bridge, false, false, false, false, false, false, false)

  /** An overlay file; `dirty` are the offsets whose last writer was the guest. */
  datatype Disk = Disk(bytes: seq<byte>, dirty: set<nat>)

  /** What one instance's commands can see: its record, whether a link bears its
      TAP name, the file at its overlay path, and whether that file is a leftover
      this daemon did not make. */
  datatype Cell = Cell(i: Inst, tap: bool, disk: Option<Disk>, stray: bool)

  /** What the audit log says of one destroyed overlay. `bytes` and `dirty` are
      the overlay at the moment its name was removed; `reaped` says that the
      process had exited when the shredder opened the file. */
  datatype Audit = Audit(n: nat, size: nat, reaped: bool, bytes: seq<byte>, dirty: set<nat>)

  /** Progress of one call of an instance's `Stop` closure. */
  datatype Stage =
    | Halting
    | Opening
    | Wiping(off: nat, size: nat, reaped: bool)
    | Unlinking(size: nat, reaped: bool)
    | Auditing(audit: Audit)
    | Releasing
    | Reporting           // Stop returned an error
    | Dropping            // remove the registry entry

  /** A `Stop` call runs for a DELETE request or for a `StopAll` sweep. */
  datatype Origin = ByDelete | BySweep(k: nat)

  datatype Teardown = Teardown(n: nat, origin: Origin, stage: Stage)

  /** One `StopAll`: what was registered when it began, what it has visited, and
      the instance it is stopping now. */
  datatype Sweep = Sweep(start: set<nat>, visited: set<nat>, current: Option<nat>)

  datatype Reply = Reply(n: nat, code: nat)

  datatype State = State(
    issued: nat,                  // vmSeq
    inst: map<nat, Inst>,
    links: set<string>,
    strayLinks: set<string>,      // links this daemon did not make
    disks: map<string, Disk>,
    strayFiles: set<string>,      // files this daemon did not make
    tears: map<nat, Teardown>,
    sweeps: map<nat, Sweep>,
    audits: seq<Audit>,
    replies: seq<Reply>)

  datatype Action =
    | Create
    | Launch(n: nat, out: Outcome, image: seq<byte>)
    | Register(n: nat)
    | Get(n: nat)
    | Delete(n: nat, t: nat)
    | Tear(t: nat, out: Outcome, count: nat)
    | SweepBegin(k: nat)
    | SweepVisit(k: nat, n: nat, t: nat)
    | SweepEnd(k: nat)
    | Exit(n: nat)
    | GuestWrite(n: nat, i: nat, b: byte)

  /** vmSeq is an unsigned 64-bit counter. */
  const WRAP: nat := 0x1_0000_0000_0000_0000

  predicate Registered(s: State, n: nat) { n in s.inst && s.inst[n].registered }

  function Registry(s: State): set<nat> { set n | n in s.inst && s.inst[n].registered }

  /** The first state of a daemon, on a host that may already hold links and files. */
  predicate Init(s: State) {
    && s.issued == 0 && s.inst == map[] && s.links == s.strayLinks && s.disks.Keys == s.strayFiles
    && s.tears == map[] && s.sweeps == map[] && s.audits == [] && s.replies == []
  }

  // ------------------------------------------------ one instance's own commands

  /** `ip link delete`: it can only take effect on a link that is there. */
  predicate CanDelete(c: Cell, out: Outcome) { out == Refused || c.tap }

  /** The last command of a failing launch: remove the link and give up. */
  function GiveUp(c: Cell, out: Outcome): Cell {
    if out == Refused then c.(i := c.i.(pc := Failed, tapResidue := c.i.tapResidue || c.tap))
    else c.(tap := false, i := c.i.(pc := Failed))
  }

  function At(c: Cell, pc: Pc): Cell { c.(i := c.i.(pc := pc)) }

  /** `os.Create` of the overlay, with what was written to it. */
  function Created(c: Cell, image: seq<byte>): Cell { c.(disk := Some(Disk(image, {})), stray := false) }

  predicate RollingBack(pc: Pc) { pc.UndoTap? || pc.Halt? || pc.DropOverlay? || pc.DropTap? }

  /** The acquisitions of LaunchVM, in order. */
  function AcquireCell(c: Cell, out: Outcome, image: seq<byte>): Option<Cell> {
    match c.i.pc
    case Bridge => Some(At(c, if out == Done then AddTap else Failed))
    case AddTap =>
      if out == Refused then Some(At(c, Failed))
      else if c.tap then None
      else if out == Done then Some(At(c, AttachTap).(tap := true))
      else Some(c.(tap := true, i := c.i.(pc := Failed, tapResidue := true)))
    case AttachTap => Some(At(c, if out == Done then RaiseTap else UndoTap))
    case RaiseTap => Some(At(c, if out == Done then Copy else UndoTap))
    case Copy =>
      if out == Refused then Some(At(c, DropTap))
      else if out == Done then Some(At(Created(c, image), Spawn))
      else Some(Created(c, image).(i := c.i.(pc := DropTap, diskResidue := true)))
    case Spawn => if out == Done then Some(c.(i := c.i.(pc := Poll, alive := true))) else Some(At(c, DropOverlay))
    case Poll => Some(At(c, if out == Done then Put(0) else Halt))
    case Put(acked) => Some(At(c, if out != Done then Halt else if acked + 1 < PUTS then Put(acked + 1) else Ready))
    case _ => None
  }

  /** The rollback of LaunchVM: stop, remove the overlay, release the TAP, each
      with its error ignored. */
  function RollbackCell(c: Cell, out: Outcome): Option<Cell> {
    match c.i.pc
    case Halt => Some(c.(i := c.i.(pc := DropOverlay, stopped := true)))
    case DropOverlay =>
      if out != Done then Some(c.(i := c.i.(pc := DropTap, diskResidue := c.i.diskResidue || c.disk.Some?)))
      else if c.disk.Some? then Some(At(c, DropTap).(disk := None))
      else None
    case UndoTap => if CanDelete(c, out) then Some(GiveUp(c, out)) else None
    case DropTap => if CanDelete(c, out) then Some(GiveUp(c, out)) else None
    case _ => None
  }

  /** The next command of LaunchVM, with its outcome. */
  function LaunchCell(c: Cell, out: Outcome, image: seq<byte>): Option<Cell> {
    if RollingBack(c.i.pc) then RollbackCell(c, out) else AcquireCell(c, out, image)
  }

  /** The handle is stored under its id. */
  function RegisterCell(c: Cell): Option<Cell> {
    if c.i.pc == Ready then Some(c.(i := c.i.(pc := Up, registered := true))) else None
  }

  /** Overwrite `lo..hi` of the overlay; a file that has lost its name is no
      longer part of the state. */
  function Wiped(c: Cell, lo: nat, hi: nat): Cell {
    match c.disk
    case None => c
    case Some(d) => c.(disk := Some(Disk(ZeroRange(d.bytes, lo, hi), set i | i in d.dirty && !(lo <= i < hi))))
  }

  /** ShredFile returned an error: it is printed, and the teardown goes on. */
  function ShredError(c: Cell): (Cell, Stage) {
    (c.(i := c.i.(diskResidue := c.i.diskResidue || c.disk.Some?)), Releasing)
  }

  predicate Shredding(stage: Stage) { stage.Opening? || stage.Wiping? || stage.Unlinking? }

  /** The next step of ShredFile on the overlay of instance `n`. */
  function ShredCell(c: Cell, n: nat, stage: Stage, out: Outcome, count: nat): Option<(Cell, Stage)> {
    match stage
    case Opening =>
      if out != Done then Some(ShredError(c))
      else if c.disk.Some? then Some((c, Wiping(0, |c.disk.value.bytes|, !c.i.alive)))
      else None
    case Wiping(off, size, reaped) =>
      if off < size then
        if out == Done then Some((Wiped(c, off, off + Chunk(off, size)), Wiping(off + Chunk(off, size), size, reaped)))
        else if count <= Chunk(off, size) then Some(ShredError(Wiped(c, off, off + count)))
        else None
      else if out == Done then Some((c, Unlinking(size, reaped)))
      else Some(ShredError(c))
    case Unlinking(size, reaped) =>
      if out != Done then Some(ShredError(c))
      else if c.disk.Some? then
        Some((c.(disk := None, i := c.i.(unlinked := true)),
              Auditing(Audit(n, size, reaped, c.disk.value.bytes, c.disk.value.dirty))))
      else None
    case _ => None
  }

  /** The next step of the `Stop` closure and of its caller, outside ShredFile. */
  function StopCell(c: Cell, stage: Stage, out: Outcome): Option<(Cell, Stage)> {
    match stage
    case Halting => Some((c.(i := c.i.(stopped := true)), Opening))
    case Auditing(a) => Some((c, Releasing))
    case Releasing =>
      if !CanDelete(c, out) then None
      else if out == Refused then Some((c.(i := c.i.(tapResidue := c.i.tapResidue || c.tap)), Reporting))
      else Some((c.(tap := false, i := c.i.(released := true)), if out == Done then Dropping else Reporting))
    case Reporting => Some((c, Dropping))
    case Dropping => Some((c.(i := c.i.(registered := false)), Dropping))
    case _ => None
  }

  function TearCell(c: Cell, n: nat, stage: Stage, out: Outcome, count: nat): Option<(Cell, Stage)> {
    if Shredding(stage) then ShredCell(c, n, stage, out, count) else StopCell(c, stage, out)
  }

  function GuestCell(c: Cell, i: nat, b: byte): Option<Cell> {
    if c.i.alive && c.disk.Some? && i < |c.disk.value.bytes|
    then Some(c.(disk := Some(Disk(c.disk.value.bytes[i := b], c.disk.value.dirty + {i})))) else None
  }

  function ExitCell(c: Cell): Option<Cell> {
    if c.i.alive then Some(c.(i := c.i.(alive := false))) else None
  }

  // ------------------------------------------------------------ the whole daemon

  function View(names: Names, s: State, n: nat): Cell
    requires n in s.inst
  {
    var path := names.overlay(n);
    var disk := if path in s.disks then Some(s.disks[path]) else None;
    Cell(s.inst[n], names.tap(n) in s.links, disk, path in s.strayFiles)
  }

  function PutCell(names: Names, s: State, n: nat, c: Cell): State {
    var tap, path := names.tap(n), names.overlay(n);
    s.(inst := s.inst[n := c.i],
       links := if c.tap then s.links + {tap} else s.links - {tap},
       disks := if c.disk.Some? then s.disks[path := c.disk.value] else s.disks - {path},
       strayFiles := if c.stray then s.strayFiles else s.strayFiles - {path})
  }

  function PutOption(names: Names, s: State, n: nat, c: Option<Cell>): Option<State> {
    if c.Some? then Some(PutCell(names, s, n, c.value)) else None
  }

  /** Teardown `t` ends: a DELETE writes its status, a sweep moves on. */
  function Finish(s: State, t: nat, code: nat): State
    requires t in s.tears
  {
    var T := s.tears[t];
    match T.origin
    case ByDelete => s.(tears := s.tears - {t}, replies := s.replies + [Reply(T.n, code)])
    case BySweep(k) =>
      s.(tears := s.tears - {t},
         sweeps := if k in s.sweeps then s.sweeps[k := s.sweeps[k].(current := None)] else s.sweeps)
  }

  /** The bookkeeping of teardown `t` after a step took it from its stage to `next`. */
  function Advance(s: State, t: nat, next: Stage): State
    requires t in s.tears
  {
    var T := s.tears[t];
    match T.stage
    case Auditing(a) => s.(audits := s.audits + [a], tears := s.tears[t := T.(stage := next)])
    case Reporting => if T.origin.ByDelete? then Finish(s, t, 500) else s.(tears := s.tears[t := T.(stage := next)])
    case Dropping => Finish(s, t, 204)
    case _ => s.(tears := s.tears[t := T.(stage := next)])
  }

  function TearStep(names: Names, s: State, t: nat, out: Outcome, count: nat): Option<State> {
    if t in s.tears && s.tears[t].n in s.inst then
      var n := s.tears[t].n;
      var r := TearCell(View(names, s, n), n, s.tears[t].stage, out, count);
      if r.Some? then Some(Advance(PutCell(names, s, n, r.value.0), t, r.value.1)) else None
    else None
  }

  /** One atomic action; None when the action cannot happen in `s`. */
  function Step(names: Names, s: State, a: Action): Option<State> {
    match a
    case Create =>
      var n := (s.issued + 1) % WRAP;
      Some(s.(issued := n, inst := s.inst[n := NEW]))
    case Launch(n, out, image) =>
      if n in s.inst then PutOption(names, s, n, LaunchCell(View(names, s, n), out, image)) else None
    case Register(n) =>
      if n in s.inst then PutOption(names, s, n, RegisterCell(View(names, s, n))) else None
    case Get(n) => Some(s.(replies := s.replies + [Reply(n, if Registered(s, n) then 200 else 404)]))
    case Delete(n, t) =>
      if !Registered(s, n) then Some(s.(replies := s.replies + [Reply(n, 404)]))
      else if t in s.tears then None
      else Some(s.(tears := s.tears[t := Teardown(n, ByDelete, Halting)]))
    case Tear(t, out, count) => TearStep(names, s, t, out, count)
    case SweepBegin(k) =>
      if k in s.sweeps then None else Some(s.(sweeps := s.sweeps[k := Sweep(Registry(s), {}, None)]))
    case SweepVisit(k, n, t) =>
      if k in s.sweeps && s.sweeps[k].current == None && Registered(s, n) && n !in s.sweeps[k].visited && t !in s.tears
      then Some(s.(sweeps := s.sweeps[k := s.sweeps[k].(visited := s.sweeps[k].visited + {n}, current := Some(n))],
                   tears := s.tears[t := Teardown(n, BySweep(k), Halting)]))
      else None
    case SweepEnd(k) =>
      if k in s.sweeps && s.sweeps[k].current == None
         && forall n | n in s.sweeps[k].start :: n in s.sweeps[k].visited || !Registered(s, n)
      then Some(s.(sweeps := s.sweeps - {k})) else None
    case Exit(n) => if n in s.inst then PutOption(names, s, n, ExitCell(View(names, s, n))) else None
    case GuestWrite(n, i, b) => if n in s.inst then PutOption(names, s, n, GuestCell(View(names, s, n), i, b)) else None
  }

  /** The state after a whole run; None when some action was not possible. */
  function Exec(names: Names, s: State, acts: seq<Action>): Option<State> {
    if acts == [] then Some(s)
    else
      match Exec(names, s, acts[..|acts| - 1])
      case None => None
      case Some(m) => Step(names, m, acts[|acts| - 1])
  }

  function Creates(acts: seq<Action>): nat {
    if acts == [] then 0 else Creates(acts[..|acts| - 1]) + if acts[|acts| - 1].Create? then 1 else 0
  }
}
