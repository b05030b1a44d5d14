/** What the audit log says: that it is complete, and what each record proves. */
module LifecycleAudits {
  import opened Common
  import opened Zeroing
  import opened Lifecycle
  import opened LifecycleCells
  import opened LifecycleInv
  import opened LifecycleTheorems
  import opened LifecycleSanitized

  // ------------------------------------------------------------- completeness

  ghost predicate Audited(s: State, n: nat) { exists i :: 0 <= i < |s.audits| && s.audits[i].n == n }

  /** A `Stop` call has unlinked the overlay of `n` and is about to write its audit. */
  ghost predicate AuditComing(s: State, n: nat) {
    exists t :: t in s.tears && s.tears[t].n == n && s.tears[t].stage.Auditing?
  }

  ghost predicate Logged(s: State) {
    forall n :: Unlinked(s, n) ==> Audited(s, n) || AuditComing(s, n)
  }

  lemma StaysLogged(s: State, s': State, n: nat)
    requires Audited(s, n) && s.audits <= s'.audits
    ensures Audited(s', n)
  {
    var i :| 0 <= i < |s.audits| && s.audits[i].n == n;
    assert s'.audits[i] == s.audits[i];
  }

  lemma PurgeIsAudited(c: Cell, n: nat, stage: Stage, count: nat, c': Cell, next: Stage)
    requires stage.Unlinking? && TearCell(c, n, stage, Done, count) == Some((c', next))
    ensures next.Auditing?
  {
  }

  lemma TearLogs(names: Names, s: State, t: nat, out: Outcome, count: nat, s': State)
    requires Base(names, s) && Logged(s) && TearStep(names, s, t, out, count) == Some(s')
    requires forall n :: Unlinked(s', n) <==> Unlinked(s, n) || PurgesNow(s, Tear(t, out, count), n)
    ensures Logged(s')
  {
    var c', next := TearParts(names, s, t, out, count, s');
    var T := s.tears[t];
    AuditShape(names, s, t, c', next);
    AdvanceShape(PutCell(names, s, T.n, c'), t, next);
    if T.stage.Unlinking? && out == Done {
      PurgeIsAudited(View(names, s, T.n), T.n, T.stage, count, c', next);
      assert s'.tears[t] == T.(stage := next);
    }
    if T.stage.Auditing? {
      assert TearOk(names, s, T) && s'.audits[|s.audits|] == T.stage.audit;
    }
    forall n | Unlinked(s', n) ensures Audited(s', n) || AuditComing(s', n) {
      if Audited(s, n) {
        StaysLogged(s, s', n);
      } else if AuditComing(s, n) {
        var u :| u in s.tears && s.tears[u].n == n && s.tears[u].stage.Auditing?;
        if u != t { assert s'.tears[u] == s.tears[u]; }
      }
    }
  }

  lemma LogStep(names: Names, s: State, a: Action, s': State)
    requires Base(names, s) && Logged(s) && Step(names, s, a) == Some(s') && (a.Create? ==> s.issued + 1 < WRAP)
    ensures Logged(s')
  {
    forall n ensures Unlinked(s', n) <==> Unlinked(s, n) || PurgesNow(s, a, n) { StepPurges(names, s, a, s', n); }
    if a.Tear? {
      TearLogs(names, s, a.t, a.out, a.count, s');
    } else {
      QuietShape(names, s, a, s');
      QuietLogs(s, s');
    }
  }

  lemma QuietLogs(s: State, s': State)
    requires Logged(s) && s'.audits == s.audits && forall n :: Unlinked(s', n) ==> Unlinked(s, n)
    requires forall u :: u in s.tears ==> u in s'.tears && s'.tears[u] == s.tears[u]
    ensures Logged(s')
  {
    forall n | Unlinked(s', n) ensures Audited(s', n) || AuditComing(s', n) {
      if Audited(s, n) { StaysLogged(s, s', n); }
    }
  }

  lemma {:induction false} RunLogs(names: Names, s0: State, acts: seq<Action>, s: State)
    requires Injective(names.overlay) && Run(names, s0, acts, s) && Creates(acts) < WRAP
    ensures Logged(s)
    decreases |acts|
  {
    if acts == [] {
    } else {
      var m := LastStep(names, s0, acts, s);
      RunLogs(names, s0, acts[..|acts| - 1], m);
      RunIsSound(names, s0, acts[..|acts| - 1], m);
      LogStep(names, m, acts[|acts| - 1], s);
    }
  }

  ghost predicate AuditedOnce(s: State, n: nat) {
    exists i ::
      && 0 <= i < |s.audits| && s.audits[i].n == n
      && forall j :: 0 <= j < |s.audits| && j != i ==> s.audits[j].n != n
  }

  /** Every overlay that a ShredFile removed, and no other, has exactly one audit, or a
      `Stop` call that is about to write it. */
  lemma AuditsAreComplete(names: Names, s0: State, acts: seq<Action>, s: State, n: nat)
    requires Injective(names.overlay) && Run(names, s0, acts, s) && Creates(acts) < WRAP
    ensures Purged(names, s0, acts, n) <==> AuditedOnce(s, n) || AuditComing(s, n)
    ensures !(AuditedOnce(s, n) && AuditComing(s, n))
  {
    RunIsSound(names, s0, acts, s);
    RunPurges(names, s0, acts, s, n);
    RunLogs(names, s0, acts, s);
    if Audited(s, n) {
      var i :| 0 <= i < |s.audits| && s.audits[i].n == n;
      assert AuditedOnce(s, n);
    }
    if AuditComing(s, n) {
      var t :| t in s.tears && s.tears[t].n == n && s.tears[t].stage.Auditing?;
      assert TearOk(names, s, s.tears[t]);
    }
  }

  // ------------------------------------------------------------- what a record proves

  /** What action `a` makes of the offsets of the overlay of `n` whose last writer was
      the guest and wrote no zero. Writes to a file that has lost its name do not count. */
  function Soil(names: Names, s: State, a: Action, n: nat, g: set<nat>): set<nat> {
    match a
    case GuestWrite(m, i, b) => if m != n then g else if b != 0 then g + {i} else g - {i}
    case Tear(t, out, count) =>
      if t in s.tears && s.tears[t].n == n && names.overlay(n) in s.disks
      then SoilLeft(s.tears[t].stage, out, count, g) else g
    case _ => g
  }

  function SoilLeft(stage: Stage, out: Outcome, count: nat, g: set<nat>): set<nat> {
    if stage.Wiping? && stage.off < stage.size then
      var hi := stage.off + if out == Done then Chunk(stage.off, stage.size) else count;
      set o | o in g && !(stage.off <= o < hi)
    else g
  }

  /** The offsets of the overlay of `n` whose last write in the run, while the file had
      its name, was a guest's, of a byte that is not zero. */
  function Soiled(names: Names, s0: State, acts: seq<Action>, n: nat): set<nat> {
    if acts == [] then {}
    else
      match Exec(names, s0, acts[..|acts| - 1])
      case None => {}
      case Some(m) => Soil(names, m, acts[|acts| - 1], n, Soiled(names, s0, acts[..|acts| - 1], n))
  }

  function NonZero(bytes: seq<byte>, dirty: set<nat>): set<nat> {
    set o | o in dirty && o < |bytes| && bytes[o] != 0
  }

  predicate BeforeCopy(p: Pc) {
    p.Bridge? || p.AddTap? || p.AttachTap? || p.RaiseTap? || p.UndoTap? || p.Copy?
  }

  ghost predicate SoilCell(c: Cell, g: set<nat>) {
    && (BeforeCopy(c.i.pc) ==> g == {})
    && (c.disk.Some? && !c.stray ==> g == NonZero(c.disk.value.bytes, c.disk.value.dirty))
  }

  ghost predicate SoilStage(T: Teardown, n: nat, g: set<nat>) {
    T.n == n && T.stage.Auditing? ==> g == NonZero(T.stage.audit.bytes, T.stage.audit.dirty)
  }

  ghost predicate SoilAudit(a: Audit, n: nat, g: set<nat>) { a.n == n ==> g == NonZero(a.bytes, a.dirty) }

  ghost predicate SoilOk(names: Names, s: State, n: nat, g: set<nat>) {
    && (if n in s.inst then SoilCell(View(names, s, n), g) else g == {})
    && (forall t :: t in s.tears ==> SoilStage(s.tears[t], n, g))
    && (forall i :: 0 <= i < |s.audits| ==> SoilAudit(s.audits[i], n, g))
  }

  lemma LaunchSoils(c: Cell, out: Outcome, image: seq<byte>, c': Cell, g: set<nat>)
    requires CellInv(c) && SoilCell(c, g) && LaunchCell(c, out, image) == Some(c')
    ensures SoilCell(c', g)
  {
    if RollingBack(c.i.pc) {
      assert RollbackCell(c, out) == Some(c');
    } else if c.i.pc.Copy? {
      assert out != Refused ==> c'.disk == Some(Disk(image, {}));
    } else {
      assert c'.disk == c.disk && c'.stray == c.stray;
    }
  }

  lemma GuestSoils(c: Cell, i: nat, b: byte, c': Cell, g: set<nat>)
    requires CellInv(c) && SoilCell(c, g) && GuestCell(c, i, b) == Some(c')
    ensures SoilCell(c', if b != 0 then g + {i} else g - {i})
    ensures !c.i.unlinked
  {
    assert !BeforeCopy(c.i.pc);
  }

  lemma ShredSoils(c: Cell, n: nat, stage: Stage, out: Outcome, count: nat, c': Cell, next: Stage, g: set<nat>)
    requires CellInv(c) && StageInv(c, n, stage) && SoilCell(c, g)
    requires ShredCell(c, n, stage, out, count) == Some((c', next))
    ensures SoilCell(c', if c.disk.Some? then SoilLeft(stage, out, count, g) else g)
    ensures next.Auditing? ==> g == NonZero(next.audit.bytes, next.audit.dirty) && SoilLeft(stage, out, count, g) == g
  {
    if stage.Wiping? && stage.off < stage.size {
      var hi := stage.off + if out == Done then Chunk(stage.off, stage.size) else count;
      assert c'.disk == Wiped(c, stage.off, hi).disk;
      if c.disk.Some? { WipedSoils(c, stage.off, hi, g); }
    }
  }

  lemma WipedSoils(c: Cell, lo: nat, hi: nat, g: set<nat>)
    requires c.disk.Some? && g == NonZero(c.disk.value.bytes, c.disk.value.dirty)
    ensures var d := Wiped(c, lo, hi).disk.value; NonZero(d.bytes, d.dirty) == set o | o in g && !(lo <= o < hi)
  {
  }

  lemma StopSoils(c: Cell, stage: Stage, out: Outcome, c': Cell, next: Stage, g: set<nat>)
    requires c.i.pc == Up && SoilCell(c, g) && StopCell(c, stage, out) == Some((c', next))
    ensures SoilCell(c', g) && !next.Auditing?
  {
  }

  /** Only an unlinked overlay has an audit written or on its way. */
  ghost predicate RecordsFinal(s: State, n: nat) {
    && (forall t :: t in s.tears && s.tears[t].n == n && s.tears[t].stage.Auditing? ==> Unlinked(s, n))
    && (forall i :: 0 <= i < |s.audits| && s.audits[i].n == n ==> Unlinked(s, n))
  }

  lemma RecordedIsUnlinked(names: Names, s: State, n: nat)
    requires Base(names, s) && AuditsOnce(s)
    ensures RecordsFinal(s, n)
  {
    forall t | t in s.tears && s.tears[t].n == n && s.tears[t].stage.Auditing? ensures Unlinked(s, n) {
      assert TearOk(names, s, s.tears[t]);
    }
  }

  lemma SoilPut(names: Names, s: State, m: nat, c: Cell, n: nat, g: set<nat>, g': set<nat>)
    requires Injective(names.overlay) && SoilOk(names, s, n, g) && RecordsFinal(s, n) && m in s.inst
    requires c.stray ==> names.overlay(m) in s.strayFiles
    requires if m == n then SoilCell(c, g') && (Unlinked(s, n) ==> g' == g) else g' == g
    ensures SoilOk(names, PutCell(names, s, m, c), n, g')
  {
    var s' := PutCell(names, s, m, c);
    PutFrame(names, s, m, c);
    forall t | t in s'.tears ensures SoilStage(s'.tears[t], n, g') { assert SoilStage(s.tears[t], n, g); }
    forall i | 0 <= i < |s'.audits| ensures SoilAudit(s'.audits[i], n, g') { assert SoilAudit(s.audits[i], n, g); }
  }

  lemma WrittenSoilsCell(names: Names, s: State, a: Action, n: nat, c: Cell, g: set<nat>)
    requires Written(names, s, a) == Some((n, c)) && n in s.inst && CellInv(View(names, s, n))
    requires SoilCell(View(names, s, n), g)
    ensures SoilCell(c, Soil(names, s, a, n, g))
    ensures Unlinked(s, n) ==> Soil(names, s, a, n, g) == g
  {
    var v := View(names, s, n);
    match a {
      case Launch(_, out, image) => LaunchSoils(v, out, image, c, g);
      case Register(_) => assert c.disk == v.disk && c.stray == v.stray;
      case Exit(_) => assert c.disk == v.disk && c.stray == v.stray && c.i.pc == v.i.pc;
      case GuestWrite(_, i, b) => GuestSoils(v, i, b, c, g);
    }
  }

  lemma SoilWritten(names: Names, s: State, a: Action, m: nat, c: Cell, n: nat, g: set<nat>)
    requires Injective(names.overlay) && Base(names, s) && AuditsOnce(s) && SoilOk(names, s, n, g)
    requires Written(names, s, a) == Some((m, c)) && m in s.inst
    ensures SoilOk(names, PutCell(names, s, m, c), n, Soil(names, s, a, n, g))
  {
    assert CellInv(View(names, s, m));
    WrittenKeeps(names, s, a, m, c);
    if m == n { WrittenSoilsCell(names, s, a, n, c, g); }
    RecordedIsUnlinked(names, s, n);
    SoilPut(names, s, m, c, n, g, Soil(names, s, a, n, g));
  }

  function SoilAfter(c: Cell, stage: Stage, out: Outcome, count: nat, g: set<nat>): set<nat> {
    if c.disk.Some? then SoilLeft(stage, out, count, g) else g
  }

  lemma TearSoilsCell(c: Cell, T: Teardown, out: Outcome, count: nat, c': Cell, next: Stage, g: set<nat>)
    requires CellInv(c) && StageInv(c, T.n, T.stage) && SoilCell(c, g)
    requires TearCell(c, T.n, T.stage, out, count) == Some((c', next))
    ensures SoilCell(c', SoilAfter(c, T.stage, out, count, g))
    ensures next.Auditing? ==> g == NonZero(next.audit.bytes, next.audit.dirty) && SoilLeft(T.stage, out, count, g) == g
  {
    if Shredding(T.stage) {
      ShredSoils(c, T.n, T.stage, out, count, c', next, g);
    } else {
      StopSoils(c, T.stage, out, c', next, g);
    }
  }

  lemma UnlinkedHasNoDisk(c: Cell)
    requires CellInv(c) && c.i.unlinked
    ensures c.disk == None
  {
  }

  lemma SoilIs(names: Names, s: State, t: nat, out: Outcome, count: nat, g: set<nat>)
    requires t in s.tears && s.tears[t].n in s.inst
    ensures Soil(names, s, Tear(t, out, count), s.tears[t].n, g) ==
            SoilAfter(View(names, s, s.tears[t].n), s.tears[t].stage, out, count, g)
  {
  }

  lemma TearSoilsOwn(
    names: Names, s: State, t: nat, out: Outcome, count: nat, c': Cell, next: Stage, g: set<nat>)
    requires Base(names, s) && t in s.tears && s.tears[t].n in s.inst && SoilCell(View(names, s, s.tears[t].n), g)
    requires TearCell(View(names, s, s.tears[t].n), s.tears[t].n, s.tears[t].stage, out, count) == Some((c', next))
    ensures var n, g' := s.tears[t].n, Soil(names, s, Tear(t, out, count), s.tears[t].n, g);
            && SoilCell(c', g') && (Unlinked(s, n) ==> g' == g)
            && (next.Auditing? ==> g' == g == NonZero(next.audit.bytes, next.audit.dirty))
  {
    var T := s.tears[t];
    assert TearOk(names, s, T) && CellInv(View(names, s, T.n));
    SoilIs(names, s, t, out, count, g);
    TearSoilsCell(View(names, s, T.n), T, out, count, c', next, g);
    if Unlinked(s, T.n) { UnlinkedHasNoDisk(View(names, s, T.n)); }
  }

  lemma SoilTear(names: Names, s: State, t: nat, out: Outcome, count: nat, s': State, n: nat, g: set<nat>)
    requires Injective(names.overlay) && Base(names, s) && AuditsOnce(s) && SoilOk(names, s, n, g)
    requires TearStep(names, s, t, out, count) == Some(s')
    ensures SoilOk(names, s', n, Soil(names, s, Tear(t, out, count), n, g))
  {
    var c', next := TearParts(names, s, t, out, count, s');
    var T := s.tears[t];
    var c := View(names, s, T.n);
    var g' := Soil(names, s, Tear(t, out, count), n, g);
    assert TearOk(names, s, T) && CellInv(c) && SoilStage(T, n, g);
    TearKeeps(c, T.n, T.stage, out, count, c', next);
    if T.n == n { TearSoilsOwn(names, s, t, out, count, c', next, g); }
    RecordedIsUnlinked(names, s, n);
    SoilPut(names, s, T.n, c', n, g, g');
    SoilAdvance(names, PutCell(names, s, T.n, c'), t, next, n, g');
  }

  lemma SoilAdvance(names: Names, m: State, t: nat, next: Stage, n: nat, g: set<nat>)
    requires SoilOk(names, m, n, g) && t in m.tears && SoilStage(m.tears[t].(stage := next), n, g)
    requires m.tears[t].stage.Auditing? ==> m.tears[t].stage.audit.n == m.tears[t].n
    ensures SoilOk(names, Advance(m, t, next), n, g)
  {
    var s' := Advance(m, t, next);
    AdvanceShape(m, t, next);
    assert n in m.inst ==> View(names, s', n) == View(names, m, n);
    assert s'.audits == if m.tears[t].stage.Auditing? then m.audits + [m.tears[t].stage.audit] else m.audits;
    assert SoilStage(m.tears[t], n, g);
    forall u | u in s'.tears ensures SoilStage(s'.tears[u], n, g) {
      if u != t { assert SoilStage(m.tears[u], n, g); }
    }
  }

  lemma SoilStep(names: Names, s: State, a: Action, s': State, n: nat, g: set<nat>)
    requires Injective(names.overlay) && Base(names, s) && AuditsOnce(s) && SoilOk(names, s, n, g)
    requires Step(names, s, a) == Some(s') && (a.Create? ==> s.issued + 1 < WRAP)
    ensures SoilOk(names, s', n, Soil(names, s, a, n, g))
  {
    if WritesCell(a) {
      WrittenIsStep(names, s, a, s');
      var (m, c) := Written(names, s, a).value;
      SoilWritten(names, s, a, m, c, n, g);
    } else if a.Tear? {
      SoilTear(names, s, a.t, a.out, a.count, s', n, g);
    } else {
      SoilQuiet(names, s, a, s', n, g);
    }
  }

  lemma SoilQuiet(names: Names, s: State, a: Action, s': State, n: nat, g: set<nat>)
    requires Injective(names.overlay) && Base(names, s) && SoilOk(names, s, n, g) && Step(names, s, a) == Some(s')
    requires !WritesCell(a) && !a.Tear? && (a.Create? ==> s.issued + 1 < WRAP)
    ensures SoilOk(names, s', n, g)
  {
    QuietShape(names, s, a, s');
    if a.Create? {
      CreateShape(names, s, s');
      BaseStep(names, s, a, s');
      if n in s'.inst { assert CellInv(View(names, s', n)); }
    } else {
      StartShape(names, s, a, s');
      assert n in s.inst ==> View(names, s', n) == View(names, s, n);
    }
    forall t | t in s'.tears ensures SoilStage(s'.tears[t], n, g) {
      if t in s.tears { assert SoilStage(s.tears[t], n, g); }
    }
  }

  lemma {:induction false} RunSoils(names: Names, s0: State, acts: seq<Action>, s: State, n: nat)
    requires Injective(names.overlay) && Run(names, s0, acts, s) && Creates(acts) < WRAP
    ensures SoilOk(names, s, n, Soiled(names, s0, acts, n))
    decreases |acts|
  {
    if acts == [] {
    } else {
      var m := LastStep(names, s0, acts, s);
      RunSoils(names, s0, acts[..|acts| - 1], m, n);
      RunIsSound(names, s0, acts[..|acts| - 1], m);
      SoilStep(names, m, acts[|acts| - 1], s, n, Soiled(names, s0, acts[..|acts| - 1], n));
    }
  }

  /** An audited overlay was not zero exactly at the offsets whose last write, before it
      was unlinked, was a guest's, of a byte that is not zero; so it was entirely zero
      exactly if there are none, and there are none if the process had exited when the
      shredder opened the file. */
  lemma AuditProvesZeroIff(names: Names, s0: State, acts: seq<Action>, s: State, i: nat)
    requires Injective(names.overlay) && Run(names, s0, acts, s) && Creates(acts) < WRAP && i < |s.audits|
    ensures var a, g := s.audits[i], Soiled(names, s0, acts, s.audits[i].n);
            && (forall o: nat :: o in g <==> o < |a.bytes| && a.bytes[o] != 0)
            && (AllZero(a.bytes) <==> g == {}) && (a.reaped ==> g == {})
  {
    var a := s.audits[i];
    RunIsSound(names, s0, acts, s);
    RunSoils(names, s0, acts, s, a.n);
    assert SoilAudit(a, a.n, Soiled(names, s0, acts, a.n)) && AuditInv(a);
  }
}
