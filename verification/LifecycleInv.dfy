/** What every step of the whole protocol keeps. */
module LifecycleInv {
  import opened Common
  import opened Lifecycle
  import opened LifecycleCells

  ghost predicate Injective(f: nat -> string) {
    forall i: nat, j: nat :: f(i) == f(j) ==> i == j
  }

  ghost predicate InjectiveUpTo(f: nat -> string, bound: nat) {
    forall i: nat, j: nat :: 1 <= i < j <= bound ==> f(i) != f(j)
  }

  predicate IsUp(s: State, n: nat) { n in s.inst && s.inst[n].pc == Up }

  /** The instance was registered once and is registered no longer. */
  predicate Removed(s: State, n: nat) { IsUp(s, n) && !s.inst[n].registered }

  ghost predicate Ids(s: State) {
    s.issued < WRAP && forall n: nat :: n in s.inst <==> 1 <= n <= s.issued
  }

  ghost predicate CellsOk(names: Names, s: State) {
    forall n :: n in s.inst ==> CellInv(View(names, s, n))
  }

  ghost predicate TearOk(names: Names, s: State, T: Teardown) {
    T.n in s.inst && StageInv(View(names, s, T.n), T.n, T.stage)
  }

  ghost predicate TearsOk(names: Names, s: State) {
    forall t :: t in s.tears ==> TearOk(names, s, s.tears[t])
  }

  /** Every file is a leftover or some instance's overlay. */
  ghost predicate FilesOk(names: Names, s: State) {
    && (forall p :: p in s.strayFiles ==> p in s.disks)
    && (forall p :: p in s.disks && p !in s.strayFiles ==> exists n :: n in s.inst && names.overlay(n) == p)
  }

  ghost predicate Base(names: Names, s: State) {
    Ids(s) && CellsOk(names, s) && TearsOk(names, s) && FilesOk(names, s)
  }

  ghost predicate TapCellsOk(names: Names, s: State) {
    forall n :: n in s.inst ==> TapInv(View(names, s, n), names.tap(n) in s.strayLinks)
  }

  ghost predicate TapTearOk(s: State, T: Teardown) {
    T.n in s.inst && s.inst[T.n].pc == Up && TapStageInv(s.inst[T.n], T.origin, T.stage)
  }

  ghost predicate TapTearsOk(s: State) {
    forall t :: t in s.tears ==> TapTearOk(s, s.tears[t])
  }

  /** Every link is foreign or some instance's TAP. */
  ghost predicate LinksOk(names: Names, s: State) {
    && (forall l :: l in s.strayLinks ==> l in s.links)
    && (forall l :: l in s.links && l !in s.strayLinks ==> exists n :: n in s.inst && names.tap(n) == l)
  }

  ghost predicate Taps(names: Names, s: State) {
    TapCellsOk(names, s) && TapTearsOk(s) && LinksOk(names, s)
  }

  /** No instance has two audits, or an audit written and another on its way. */
  ghost predicate AuditsOnce(s: State) {
    && (forall i :: 0 <= i < |s.audits| ==>
          (AuditInv(s.audits[i]) && s.audits[i].n in s.inst && s.inst[s.audits[i].n].unlinked))
    && (forall i, j :: 0 <= i < j < |s.audits| ==> s.audits[i].n != s.audits[j].n)
    && (forall t, i :: t in s.tears && s.tears[t].stage.Auditing? && 0 <= i < |s.audits| ==>
          s.audits[i].n != s.tears[t].n)
    && (forall t, u ::
          t in s.tears && u in s.tears && t != u && s.tears[t].stage.Auditing? && s.tears[u].stage.Auditing?
          ==> s.tears[t].n != s.tears[u].n)
  }

  predicate Answering(T: Teardown) { T.origin.ByDelete? && T.stage.Dropping? }

  /** No instance gets two 204s, or a 204 written and another on its way. */
  ghost predicate DeletedOnce(s: State) {
    && (forall i :: 0 <= i < |s.replies| && s.replies[i].code == 204 ==>
          Removed(s, s.replies[i].n) && s.inst[s.replies[i].n].released)
    && (forall i, j :: 0 <= i < j < |s.replies| && s.replies[i].code == 204 && s.replies[j].code == 204
          ==> s.replies[i].n != s.replies[j].n)
    && (forall t, i :: t in s.tears && Answering(s.tears[t]) && 0 <= i < |s.replies| && s.replies[i].code == 204
          ==> s.replies[i].n != s.tears[t].n)
    && (forall t, u :: t in s.tears && u in s.tears && t != u && Answering(s.tears[t]) && Answering(s.tears[u])
          ==> s.tears[t].n != s.tears[u].n)
  }

  /** The sweep that runs teardown `T` is in progress and waits for it. */
  predicate Awaited(s: State, T: Teardown) {
    T.origin.BySweep? ==> T.origin.k in s.sweeps && s.sweeps[T.origin.k].current == Some(T.n)
  }

  /** What the sweep began with came up once; what it visited is gone, but for
      the instance it is stopping now. */
  ghost predicate SweepOk(s: State, w: Sweep) {
    && (forall n :: n in w.start ==> IsUp(s, n))
    && (forall n :: n in w.visited ==> Removed(s, n) || (IsUp(s, n) && w.current == Some(n)))
  }

  /** A sweep runs one teardown at a time. */
  ghost predicate SweepsInOrder(s: State) {
    && (forall k :: k in s.sweeps ==> SweepOk(s, s.sweeps[k]))
    && (forall t :: t in s.tears ==> Awaited(s, s.tears[t]))
    && (forall t, u ::
          t in s.tears && u in s.tears && s.tears[t].origin.BySweep? && s.tears[u].origin == s.tears[t].origin
          ==> t == u)
  }

  // ---------------------------------------------------------------- writing a cell back

  lemma PutFrame(names: Names, s: State, n: nat, c: Cell)
    requires Injective(names.overlay) && n in s.inst && (c.stray ==> names.overlay(n) in s.strayFiles)
    ensures var s' := PutCell(names, s, n, c);
            && s'.inst.Keys == s.inst.Keys && View(names, s', n) == c
            && (forall m :: m in s.inst && m != n ==> s'.inst[m] == s.inst[m])
            && (forall m :: m in s.inst && m != n ==> (View(names, s', m) ==
                  View(names, s, m).(tap := if names.tap(m) == names.tap(n) then c.tap else View(names, s, m).tap)))
  {
  }

  lemma PutKeepsBase(names: Names, s: State, n: nat, c: Cell)
    requires Injective(names.overlay) && Base(names, s) && n in s.inst
    requires CellInv(c) && Evolves(View(names, s, n), c) && (c.stray ==> names.overlay(n) in s.strayFiles)
    ensures Base(names, PutCell(names, s, n, c))
  {
    PutFrame(names, s, n, c);
    PutKeepsTears(names, s, n, c);
    PutKeepsFiles(names, s, n, c);
  }

  lemma PutKeepsTears(names: Names, s: State, n: nat, c: Cell)
    requires Injective(names.overlay) && TearsOk(names, s) && n in s.inst
    requires Evolves(View(names, s, n), c) && (c.stray ==> names.overlay(n) in s.strayFiles)
    ensures TearsOk(names, PutCell(names, s, n, c))
  {
    var s' := PutCell(names, s, n, c);
    PutFrame(names, s, n, c);
    forall t | t in s'.tears ensures TearOk(names, s', s'.tears[t]) {
      assert TearOk(names, s, s.tears[t]);
      if s.tears[t].n == n { StageSurvives(View(names, s, n), c, n, s.tears[t].stage); }
      else {
        var m := s.tears[t].n;
        StageSurvives(View(names, s, m), View(names, s', m), m, s.tears[t].stage);
      }
    }
  }

  lemma PutKeepsFiles(names: Names, s: State, n: nat, c: Cell)
    requires FilesOk(names, s) && n in s.inst && DiskInv(c) && (c.stray ==> names.overlay(n) in s.strayFiles)
    ensures FilesOk(names, PutCell(names, s, n, c))
  {
  }

  lemma PutKeepsTaps(names: Names, s: State, n: nat, c: Cell)
    requires Injective(names.overlay) && Ids(s) && Taps(names, s) && InjectiveUpTo(names.tap, s.issued) && n in s.inst
    requires TapInv(c, names.tap(n) in s.strayLinks)
    requires Evolves(View(names, s, n), c) && (c.stray ==> names.overlay(n) in s.strayFiles)
    ensures Taps(names, PutCell(names, s, n, c))
  {
    PutFrame(names, s, n, c);
    assert TapCellsOk(names, PutCell(names, s, n, c)) by {
      assert forall m :: m in s.inst && m != n ==> names.tap(m) != names.tap(n);
    }
    PutKeepsTapTears(names, s, n, c);
    PutKeepsLinks(names, s, n, c);
  }

  lemma PutKeepsTapTears(names: Names, s: State, n: nat, c: Cell)
    requires TapTearsOk(s) && n in s.inst && Evolves(View(names, s, n), c)
    ensures TapTearsOk(PutCell(names, s, n, c))
  {
    forall t | t in s.tears ensures TapTearOk(PutCell(names, s, n, c), s.tears[t]) {
      assert TapTearOk(s, s.tears[t]);
    }
  }

  lemma PutKeepsLinks(names: Names, s: State, n: nat, c: Cell)
    requires LinksOk(names, s) && n in s.inst && TapInv(c, names.tap(n) in s.strayLinks)
    ensures LinksOk(names, PutCell(names, s, n, c))
  {
  }

  // ---------------------------------------------------------------- one step

  /** The instance whose cell a host or launch action writes, and what it writes. */
  function Written(names: Names, s: State, a: Action): Option<(nat, Cell)> {
    match a
    case Launch(n, out, image) => if n in s.inst then Pair(n, LaunchCell(View(names, s, n), out, image)) else None
    case Register(n) => if n in s.inst then Pair(n, RegisterCell(View(names, s, n))) else None
    case Exit(n) => if n in s.inst then Pair(n, ExitCell(View(names, s, n))) else None
    case GuestWrite(n, i, b) => if n in s.inst then Pair(n, GuestCell(View(names, s, n), i, b)) else None
    case _ => None
  }

  function Pair(n: nat, c: Option<Cell>): Option<(nat, Cell)> {
    if c.Some? then Some((n, c.value)) else None
  }

  predicate WritesCell(a: Action) { a.Launch? || a.Register? || a.Exit? || a.GuestWrite? }

  lemma WrittenIsStep(names: Names, s: State, a: Action, s': State)
    requires WritesCell(a) && Step(names, s, a) == Some(s')
    ensures Written(names, s, a).Some?
    ensures var (n, c) := Written(names, s, a).value; n in s.inst && s' == PutCell(names, s, n, c)
  {
  }

  lemma WrittenKeeps(names: Names, s: State, a: Action, n: nat, c: Cell)
    requires Written(names, s, a) == Some((n, c)) && n in s.inst && CellInv(View(names, s, n))
    ensures CellInv(c) && Evolves(View(names, s, n), c) && (c.stray ==> names.overlay(n) in s.strayFiles)
    ensures a.Register? || c.i.registered == s.inst[n].registered
    ensures a.Register? ==> s.inst[n].pc == Ready
    ensures forall foreign :: TapInv(View(names, s, n), foreign) ==> TapInv(c, foreign)
  {
    var v := View(names, s, n);
    match a {
      case Launch(_, out, image) =>
        LaunchKeeps(v, out, image, c);
        forall foreign | TapInv(v, foreign) ensures TapInv(c, foreign) { LaunchKeepsTap(v, foreign, out, image, c); }
      case Register(_) => RegisterKeeps(v, c);
      case Exit(_) => HostKeeps(v, c);
      case GuestWrite(_, i, b) => assert GuestCell(v, i, b) == Some(c); HostKeeps(v, c);
    }
  }

  /** The host and the instance records are the same in both states. */
  predicate SameHost(s: State, s': State) {
    && s'.issued == s.issued && s'.inst == s.inst && s'.links == s.links && s'.strayLinks == s.strayLinks
    && s'.disks == s.disks && s'.strayFiles == s.strayFiles
  }

  /** Teardown `u` of `s'` is new, and its instance is registered. */
  predicate Started(s: State, s': State, u: nat) {
    u in s'.tears && u !in s.tears && s'.tears[u].stage == Halting && Registered(s, s'.tears[u].n)
  }

  lemma AdvanceShape(s: State, t: nat, next: Stage)
    requires t in s.tears
    ensures var s' := Advance(s, t, next);
            && SameHost(s, s')
            && (forall u :: u != t ==> (u in s'.tears <==> u in s.tears))
            && (forall u :: u != t && u in s'.tears ==> s'.tears[u] == s.tears[u])
            && (t in s'.tears ==> !Ending(s.tears[t])
                                  && s'.tears[t] == s.tears[t].(stage := next))
  {
  }

  lemma StartShape(names: Names, s: State, a: Action, s': State)
    requires Step(names, s, a) == Some(s') && !WritesCell(a) && !a.Create? && !a.Tear?
    ensures SameHost(s, s') && s'.audits == s.audits
    ensures forall u :: u in s'.tears ==> (u in s.tears && s'.tears[u] == s.tears[u]) || Started(s, s', u)
  {
  }

  /** Once up, an instance stays up, its histories only grow, and it is never
      registered again after its removal. */
  ghost predicate Later(s: State, s': State) {
    && (forall n :: n in s.inst ==> n in s'.inst && InstLater(s.inst[n], s'.inst[n]))
    && (forall n :: n in s'.inst && n !in s.inst ==> s'.inst[n] == NEW)
  }

  /** The base invariant only reads the host and the teardowns. */
  lemma BaseFrame(names: Names, s: State, s': State)
    requires Base(names, s) && SameHost(s, s')
    requires forall t :: t in s'.tears ==> TearOk(names, s, s'.tears[t])
    ensures Base(names, s')
  {
    assert forall n :: n in s.inst ==> View(names, s', n) == View(names, s, n);
    forall t | t in s'.tears ensures TearOk(names, s', s'.tears[t]) {
      assert TearOk(names, s, s'.tears[t]);
    }
  }

  /** A teardown step is a command on its instance's cell, then its own bookkeeping. */
  lemma TearParts(names: Names, s: State, t: nat, out: Outcome, count: nat, s': State) returns (c': Cell, next: Stage)
    requires TearStep(names, s, t, out, count) == Some(s')
    ensures t in s.tears && s.tears[t].n in s.inst
    ensures TearCell(View(names, s, s.tears[t].n), s.tears[t].n, s.tears[t].stage, out, count) == Some((c', next))
    ensures s' == Advance(PutCell(names, s, s.tears[t].n, c'), t, next)
  {
    var r := TearCell(View(names, s, s.tears[t].n), s.tears[t].n, s.tears[t].stage, out, count);
    c', next := r.value.0, r.value.1;
  }

  lemma TearKeepsBase(names: Names, s: State, t: nat, out: Outcome, count: nat, s': State)
    requires Injective(names.overlay) && Base(names, s) && TearStep(names, s, t, out, count) == Some(s')
    ensures Base(names, s')
  {
    var c', next := TearParts(names, s, t, out, count, s');
    var T := s.tears[t];
    var c := View(names, s, T.n);
    assert TearOk(names, s, T);
    TearKeeps(c, T.n, T.stage, out, count, c', next);
    TearEvolves(c, T.n, T.stage, out, count, c', next);
    TearStage(c, T.n, T.stage, out, count, c', next);
    PutKeepsBase(names, s, T.n, c');
    PutFrame(names, s, T.n, c');
    var m := PutCell(names, s, T.n, c');
    AdvanceShape(m, t, next);
    forall u | u in s'.tears ensures TearOk(names, m, s'.tears[u]) {
      if u != t { assert TearOk(names, m, m.tears[u]); }
    }
    BaseFrame(names, m, s');
  }

  lemma CreateShape(names: Names, s: State, s': State)
    requires Ids(s) && s.issued + 1 < WRAP && Step(names, s, Create) == Some(s')
    ensures s' == s.(issued := s.issued + 1, inst := s.inst[s.issued + 1 := NEW]) && Ids(s') && s.issued + 1 !in s.inst
    ensures forall m :: m in s.inst ==> View(names, s', m) == View(names, s, m)
  {
  }

  lemma CreateKeepsBase(names: Names, s: State, s': State)
    requires Injective(names.overlay) && Base(names, s) && s.issued + 1 < WRAP && Step(names, s, Create) == Some(s')
    ensures Base(names, s')
  {
    CreateShape(names, s, s');
    var n := s.issued + 1;
    assert CellInv(View(names, s', n)) by { assert FilesOk(names, s); }
    forall t | t in s'.tears ensures TearOk(names, s', s'.tears[t]) {
      assert TearOk(names, s, s.tears[t]);
    }
    assert FilesOk(names, s') by { assert forall m :: m in s.inst ==> m in s'.inst; }
  }

  /** Requests and sweeps that start only add a teardown at its first stage. */
  lemma StartKeepsBase(names: Names, s: State, a: Action, s': State)
    requires Base(names, s) && Step(names, s, a) == Some(s')
    requires !WritesCell(a) && !a.Create? && !a.Tear?
    ensures Base(names, s')
  {
    StartShape(names, s, a, s');
    forall t | t in s'.tears ensures TearOk(names, s, s'.tears[t]) {
      if !Started(s, s', t) {
        assert TearOk(names, s, s.tears[t]);
      } else {
        assert CellInv(View(names, s, s'.tears[t].n));
      }
    }
    BaseFrame(names, s, s');
  }

  lemma BaseStep(names: Names, s: State, a: Action, s': State)
    requires Injective(names.overlay) && Base(names, s) && Step(names, s, a) == Some(s')
    requires a.Create? ==> s.issued + 1 < WRAP
    ensures Base(names, s')
  {
    if WritesCell(a) {
      WrittenIsStep(names, s, a, s');
      var (n, c) := Written(names, s, a).value;
      WrittenKeeps(names, s, a, n, c);
      PutKeepsBase(names, s, n, c);
    } else if a.Create? {
      CreateKeepsBase(names, s, s');
    } else if a.Tear? {
      TearKeepsBase(names, s, a.t, a.out, a.count, s');
    } else {
      StartKeepsBase(names, s, a, s');
    }
  }

  lemma TapsFrame(names: Names, s: State, s': State)
    requires Taps(names, s) && SameHost(s, s')
    requires forall t :: t in s'.tears ==> TapTearOk(s, s'.tears[t])
    ensures Taps(names, s')
  {
    assert forall n :: n in s.inst ==> View(names, s', n) == View(names, s, n);
    forall t | t in s'.tears ensures TapTearOk(s', s'.tears[t]) {
      assert TapTearOk(s, s'.tears[t]);
    }
  }

  lemma TearKeepsTaps(names: Names, s: State, t: nat, out: Outcome, count: nat, s': State)
    requires Injective(names.overlay) && Base(names, s) && Taps(names, s) && InjectiveUpTo(names.tap, s.issued)
    requires TearStep(names, s, t, out, count) == Some(s')
    ensures Taps(names, s')
  {
    var c', next := TearParts(names, s, t, out, count, s');
    var T := s.tears[t];
    var c := View(names, s, T.n);
    assert TearOk(names, s, T) && TapTearOk(s, T);
    TearKeeps(c, T.n, T.stage, out, count, c', next);
    TearEvolves(c, T.n, T.stage, out, count, c', next);
    TearKeepsTap(c, names.tap(T.n) in s.strayLinks, T.n, T, out, count, c', next);
    PutKeepsTaps(names, s, T.n, c');
    var m := PutCell(names, s, T.n, c');
    AdvanceShape(m, t, next);
    forall u | u in s'.tears ensures TapTearOk(m, s'.tears[u]) {
      assert TapTearOk(m, m.tears[u]);
    }
    TapsFrame(names, m, s');
  }

  lemma CreateKeepsTaps(names: Names, s: State, s': State)
    requires Ids(s) && Taps(names, s) && InjectiveUpTo(names.tap, s.issued + 1)
    requires s.issued + 1 < WRAP && Step(names, s, Create) == Some(s')
    ensures Taps(names, s')
  {
    CreateShape(names, s, s');
    var n := s.issued + 1;
    assert TapInv(View(names, s', n), names.tap(n) in s.strayLinks) by { assert LinksOk(names, s); }
    forall t | t in s'.tears ensures TapTearOk(s', s'.tears[t]) {
      assert TapTearOk(s, s.tears[t]);
    }
    assert LinksOk(names, s') by { assert forall m :: m in s.inst ==> m in s'.inst; }
  }

  lemma TapStep(names: Names, s: State, a: Action, s': State)
    requires Injective(names.overlay) && Base(names, s) && Taps(names, s) && Step(names, s, a) == Some(s')
    requires a.Create? ==> s.issued + 1 < WRAP
    requires InjectiveUpTo(names.tap, if a.Create? then s.issued + 1 else s.issued)
    ensures Taps(names, s')
  {
    if WritesCell(a) {
      WrittenIsStep(names, s, a, s');
      var (n, c) := Written(names, s, a).value;
      WrittenKeeps(names, s, a, n, c);
      PutKeepsTaps(names, s, n, c);
    } else if a.Create? {
      CreateKeepsTaps(names, s, s');
    } else if a.Tear? {
      TearKeepsTaps(names, s, a.t, a.out, a.count, s');
    } else {
      StartShape(names, s, a, s');
      forall t | t in s'.tears ensures TapTearOk(s, s'.tears[t]) {
        if !Started(s, s', t) {
          assert TapTearOk(s, s.tears[t]);
        } else {
          assert CellInv(View(names, s, s'.tears[t].n));
        }
      }
      TapsFrame(names, s, s');
    }
  }

  lemma TearLater(names: Names, s: State, t: nat, out: Outcome, count: nat, s': State)
    requires TearsOk(names, s) && TearStep(names, s, t, out, count) == Some(s')
    ensures Later(s, s')
  {
    var c', next := TearParts(names, s, t, out, count, s');
    var T := s.tears[t];
    assert TearOk(names, s, T);
    TearEvolves(View(names, s, T.n), T.n, T.stage, out, count, c', next);
    ReplyLog(names, s, t, c', next);
  }

  lemma WrittenLater(names: Names, s: State, a: Action, n: nat, c: Cell)
    requires CellsOk(names, s) && Written(names, s, a) == Some((n, c)) && n in s.inst
    ensures Later(s, PutCell(names, s, n, c))
  {
    WrittenKeeps(names, s, a, n, c);
  }

  lemma LaterStep(names: Names, s: State, a: Action, s': State)
    requires Base(names, s) && Step(names, s, a) == Some(s')
    requires a.Create? ==> s.issued + 1 < WRAP
    ensures Later(s, s')
  {
    if WritesCell(a) {
      WrittenIsStep(names, s, a, s');
      var (n, c) := Written(names, s, a).value;
      WrittenLater(names, s, a, n, c);
    } else if a.Create? {
      CreateShape(names, s, s');
    } else if a.Tear? {
      TearLater(names, s, a.t, a.out, a.count, s');
    } else {
      StartShape(names, s, a, s');
    }
  }

  /** Only the step out of `Auditing` writes the audit log. */
  lemma AuditShape(names: Names, s: State, t: nat, c': Cell, next: Stage)
    requires t in s.tears && s.tears[t].n in s.inst
    ensures var s' := Advance(PutCell(names, s, s.tears[t].n, c'), t, next);
            s'.audits == if s.tears[t].stage.Auditing? then s.audits + [s.tears[t].stage.audit] else s.audits
  {
  }

  lemma AuditsFrame(s: State, s': State)
    requires AuditsOnce(s) && Later(s, s') && s'.audits == s.audits
    requires forall i :: 0 <= i < |s.audits| ==> IsUp(s, s.audits[i].n)
    requires forall t :: t in s'.tears && s'.tears[t].stage.Auditing? ==> t in s.tears && s'.tears[t] == s.tears[t]
    ensures AuditsOnce(s')
  {
  }

  /** Teardown `t` has just unlinked an overlay that nobody had unlinked. */
  lemma AuditsPending(s: State, s': State, t: nat)
    requires AuditsOnce(s) && Later(s, s') && s'.audits == s.audits
    requires forall i :: 0 <= i < |s.audits| ==> IsUp(s, s.audits[i].n)
    requires t in s.tears && t in s'.tears && s'.tears[t].n == s.tears[t].n && s'.tears[t].stage.Auditing?
    requires s.tears[t].n in s.inst && !s.inst[s.tears[t].n].unlinked
    requires forall u :: u in s.tears && u != t && s.tears[u].stage.Auditing? ==> s.tears[u].n != s.tears[t].n
    requires forall u :: u in s'.tears && u != t && s'.tears[u].stage.Auditing? ==>
               u in s.tears && s'.tears[u] == s.tears[u]
    ensures AuditsOnce(s')
  {
  }

  /** Teardown `t` has just written its audit. */
  lemma AuditsWritten(s: State, s': State, t: nat)
    requires AuditsOnce(s) && Later(s, s') && t in s.tears && s.tears[t].stage.Auditing?
    requires forall i :: 0 <= i < |s.audits| ==> IsUp(s, s.audits[i].n)
    requires var a := s.tears[t].stage.audit;
             s'.audits == s.audits + [a] && a.n == s.tears[t].n && AuditInv(a) && IsUp(s, a.n) && s.inst[a.n].unlinked
    requires forall u :: u in s'.tears && s'.tears[u].stage.Auditing? ==>
               u != t && u in s.tears && s'.tears[u] == s.tears[u]
    ensures AuditsOnce(s')
  {
    forall i, j | 0 <= i < j < |s'.audits| ensures s'.audits[i].n != s'.audits[j].n {
      if j == |s.audits| { assert s'.audits[i] == s.audits[i]; }
    }
  }

  lemma AuditedAreUp(names: Names, s: State)
    requires Base(names, s) && AuditsOnce(s)
    ensures forall i :: 0 <= i < |s.audits| ==> IsUp(s, s.audits[i].n)
  {
    forall i | 0 <= i < |s.audits| ensures IsUp(s, s.audits[i].n) {
      assert CellInv(View(names, s, s.audits[i].n));
    }
  }

  /** Everything but a teardown step leaves running teardowns and audits alone
      and writes no 204. */
  lemma QuietShape(names: Names, s: State, a: Action, s': State)
    requires Ids(s) && Step(names, s, a) == Some(s') && !a.Tear? && (a.Create? ==> s.issued + 1 < WRAP)
    ensures s'.audits == s.audits
    ensures s'.replies == s.replies || exists r: Reply :: r.code != 204 && s'.replies == s.replies + [r]
    ensures forall u :: u in s.tears ==> u in s'.tears && s'.tears[u] == s.tears[u]
    ensures forall u :: u in s'.tears && u !in s.tears ==> Started(s, s', u)
  {
    match a {
      case Get(n) => assert s'.replies == s.replies + [Reply(n, if Registered(s, n) then 200 else 404)];
      case Delete(n, t) => if !Registered(s, n) { assert s'.replies == s.replies + [Reply(n, 404)]; }
      case _ =>
    }
  }

  lemma AuditStep(names: Names, s: State, a: Action, s': State)
    requires Injective(names.overlay) && Base(names, s) && AuditsOnce(s) && Step(names, s, a) == Some(s')
    requires a.Create? ==> s.issued + 1 < WRAP
    ensures AuditsOnce(s')
  {
    LaterStep(names, s, a, s');
    if a.Tear? {
      TearAudits(names, s, a.t, a.out, a.count, s');
    } else {
      AuditedAreUp(names, s);
      QuietShape(names, s, a, s');
      AuditsFrame(s, s');
    }
  }

  /** What a teardown step does to the teardowns and to the audit log. */
  lemma TearShape(names: Names, s: State, t: nat, out: Outcome, count: nat, s': State) returns (next: Stage)
    requires Base(names, s) && TearStep(names, s, t, out, count) == Some(s')
    ensures t in s.tears && TearOk(names, s, s.tears[t])
    ensures forall u :: u != t ==> (u in s'.tears <==> u in s.tears)
    ensures forall u :: u != t && u in s'.tears ==> s'.tears[u] == s.tears[u]
    ensures t in s'.tears ==> s'.tears[t] == s.tears[t].(stage := next)
    ensures t in s'.tears ==> !Ending(s.tears[t])
    ensures s'.audits == if s.tears[t].stage.Auditing? then s.audits + [s.tears[t].stage.audit] else s.audits
    ensures next.Auditing? ==> s.tears[t].stage.Unlinking? && !s.inst[s.tears[t].n].unlinked
  {
    var c', next' := TearParts(names, s, t, out, count, s');
    next := next';
    var T := s.tears[t];
    assert TearOk(names, s, T) && CellInv(View(names, s, T.n));
    TearStage(View(names, s, T.n), T.n, T.stage, out, count, c', next);
    AuditShape(names, s, t, c', next);
    AdvanceShape(PutCell(names, s, T.n, c'), t, next);
  }

  lemma NobodyAudits(names: Names, s: State, n: nat)
    requires TearsOk(names, s) && n in s.inst && !s.inst[n].unlinked
    ensures forall u :: u in s.tears && s.tears[u].stage.Auditing? ==> s.tears[u].n != n
  {
    forall u | u in s.tears && s.tears[u].stage.Auditing? ensures s.tears[u].n != n {
      assert TearOk(names, s, s.tears[u]);
    }
  }

  lemma AuditIsSound(names: Names, s: State, t: nat)
    requires TearsOk(names, s) && t in s.tears && s.tears[t].stage.Auditing?
    ensures var a := s.tears[t].stage.audit;
            a.n == s.tears[t].n && AuditInv(a) && IsUp(s, a.n) && s.inst[a.n].unlinked
  {
    assert TearOk(names, s, s.tears[t]);
  }

  lemma TearAudits(names: Names, s: State, t: nat, out: Outcome, count: nat, s': State)
    requires Base(names, s) && AuditsOnce(s) && Later(s, s')
    requires TearStep(names, s, t, out, count) == Some(s')
    ensures AuditsOnce(s')
  {
    var next := TearShape(names, s, t, out, count, s');
    AuditedAreUp(names, s);
    if s.tears[t].stage.Auditing? {
      AuditIsSound(names, s, t);
      AuditsWritten(s, s', t);
    } else if next.Auditing? && t in s'.tears {
      NobodyAudits(names, s, s.tears[t].n);
      AuditsPending(s, s', t);
    } else {
      AuditsFrame(s, s');
    }
  }

  // ---------------------------------------------------------------- one 204 per instance

  lemma RepliesFrame(s: State, s': State)
    requires DeletedOnce(s) && Later(s, s')
    requires s'.replies == s.replies || exists r: Reply :: r.code != 204 && s'.replies == s.replies + [r]
    requires forall t :: t in s'.tears && Answering(s'.tears[t]) ==> t in s.tears && s'.tears[t] == s.tears[t]
    ensures DeletedOnce(s')
  {
  }

  /** Teardown `t` has just removed a TAP that nobody had removed. */
  lemma ReplyPending(s: State, s': State, t: nat)
    requires DeletedOnce(s) && Later(s, s') && s'.replies == s.replies
    requires t in s.tears && s.tears[t].n in s.inst && !s.inst[s.tears[t].n].released
    requires t in s'.tears && s'.tears[t].n == s.tears[t].n
    requires forall u :: u in s.tears && u != t && Answering(s.tears[u]) ==> s.tears[u].n != s.tears[t].n
    requires forall u :: u in s'.tears && u != t && Answering(s'.tears[u]) ==> u in s.tears && s'.tears[u] == s.tears[u]
    ensures DeletedOnce(s')
  {
  }

  /** Teardown `t` has just answered 204. */
  lemma ReplyWritten(s: State, s': State, t: nat)
    requires DeletedOnce(s) && Later(s, s') && t in s.tears && Answering(s.tears[t])
    requires s'.replies == s.replies + [Reply(s.tears[t].n, 204)]
    requires Removed(s', s.tears[t].n) && s'.inst[s.tears[t].n].released
    requires forall u :: u in s'.tears && Answering(s'.tears[u]) ==> u != t && u in s.tears && s'.tears[u] == s.tears[u]
    ensures DeletedOnce(s')
  {
    forall i, j | 0 <= i < j < |s'.replies| && s'.replies[i].code == 204 && s'.replies[j].code == 204
      ensures s'.replies[i].n != s'.replies[j].n
    {
      if j == |s.replies| { assert s'.replies[i] == s.replies[i]; }
    }
  }

  lemma NobodyAnswers(s: State, n: nat)
    requires TapTearsOk(s) && n in s.inst && !s.inst[n].released
    ensures forall u :: u in s.tears && Answering(s.tears[u]) ==> s.tears[u].n != n
  {
    forall u | u in s.tears && Answering(s.tears[u]) ensures s.tears[u].n != n {
      assert TapTearOk(s, s.tears[u]);
    }
  }

  lemma ReplyLog(names: Names, s: State, t: nat, c': Cell, next: Stage)
    requires t in s.tears && s.tears[t].n in s.inst
    ensures var s' := Advance(PutCell(names, s, s.tears[t].n, c'), t, next);
            && s'.inst == s.inst[s.tears[t].n := c'.i]
            && s'.replies ==
               if Answering(s.tears[t]) then s.replies + [Reply(s.tears[t].n, 204)]
               else if s.tears[t].origin.ByDelete? && s.tears[t].stage == Reporting
               then s.replies + [Reply(s.tears[t].n, 500)]
               else s.replies
  {
  }

  /** When a 204 becomes certain, and when it is answered, on one instance. */
  lemma AnswerCell(c: Cell, foreign: bool, T: Teardown, out: Outcome, count: nat, c': Cell, next: Stage)
    requires StageInv(c, T.n, T.stage) && TapInv(c, foreign) && TapStageInv(c.i, T.origin, T.stage)
    requires TearCell(c, T.n, T.stage, out, count) == Some((c', next))
    ensures Answering(T) ==> c'.i.pc == Up && !c'.i.registered && c'.i.released
    ensures T.origin.ByDelete? && next == Dropping && T.stage != Reporting && T.stage != Dropping ==> !c.i.released
  {
    TearKeepsTap(c, foreign, T.n, T, out, count, c', next);
  }

  lemma TearReplies(names: Names, s: State, t: nat, out: Outcome, count: nat, s': State)
    requires Injective(names.overlay) && Base(names, s) && Taps(names, s) && DeletedOnce(s) && Later(s, s')
    requires TearStep(names, s, t, out, count) == Some(s')
    ensures DeletedOnce(s')
  {
    var c', next := TearParts(names, s, t, out, count, s');
    var T := s.tears[t];
    assert TearOk(names, s, T) && TapTearOk(s, T) && TapInv(View(names, s, T.n), names.tap(T.n) in s.strayLinks);
    AnswerCell(View(names, s, T.n), names.tap(T.n) in s.strayLinks, T, out, count, c', next);
    ReplyLog(names, s, t, c', next);
    AdvanceShape(PutCell(names, s, T.n, c'), t, next);
    TearRepliesCases(s, s', t, next);
  }

  lemma TearRepliesCases(s: State, s': State, t: nat, next: Stage)
    requires TapTearsOk(s) && DeletedOnce(s) && Later(s, s') && t in s.tears && s.tears[t].n in s.inst
    requires s.tears[t].n in s'.inst
    requires var T := s.tears[t];
             && s'.replies == (if Answering(T) then s.replies + [Reply(T.n, 204)]
                               else if T.origin.ByDelete? && T.stage == Reporting then s.replies + [Reply(T.n, 500)]
                               else s.replies)
             && (Answering(T) ==> Removed(s', T.n) && s'.inst[T.n].released)
             && (T.origin.ByDelete? && next == Dropping && T.stage != Reporting && T.stage != Dropping ==>
                   !s.inst[T.n].released)
             && (forall u :: u != t ==> (u in s'.tears <==> u in s.tears))
             && (forall u :: u != t && u in s'.tears ==> s'.tears[u] == s.tears[u])
             && (t in s'.tears ==> !Ending(T) && s'.tears[t] == T.(stage := next))
    ensures DeletedOnce(s')
  {
    var T := s.tears[t];
    if Answering(T) {
      ReplyWritten(s, s', t);
    } else if t in s'.tears && Answering(s'.tears[t]) {
      NobodyAnswers(s, T.n);
      ReplyPending(s, s', t);
    } else {
      assert T.origin.ByDelete? && T.stage == Reporting ==> s'.replies == s.replies + [Reply(T.n, 500)];
      RepliesFrame(s, s');
    }
  }

  lemma ReplyStep(names: Names, s: State, a: Action, s': State)
    requires Injective(names.overlay) && Base(names, s) && Taps(names, s) && DeletedOnce(s)
    requires Step(names, s, a) == Some(s')
    requires a.Create? ==> s.issued + 1 < WRAP
    ensures DeletedOnce(s')
  {
    LaterStep(names, s, a, s');
    if a.Tear? {
      TearReplies(names, s, a.t, a.out, a.count, s');
    } else {
      QuietShape(names, s, a, s');
      RepliesFrame(s, s');
    }
  }

  // ---------------------------------------------------------------- sweeps

  /** The sweeps after a step of teardown `T`: its last one lets its sweep move on. */
  function SweepsAfter(s: State, T: Teardown): map<nat, Sweep> {
    if T.stage == Dropping && T.origin.BySweep? && T.origin.k in s.sweeps
    then s.sweeps[T.origin.k := s.sweeps[T.origin.k].(current := None)] else s.sweeps
  }

  lemma SweepLog(names: Names, s: State, t: nat, c': Cell, next: Stage)
    requires t in s.tears && s.tears[t].n in s.inst
    ensures Advance(PutCell(names, s, s.tears[t].n, c'), t, next).sweeps == SweepsAfter(s, s.tears[t])
  {
  }

  lemma SweepLater(s: State, s': State, w: Sweep)
    requires SweepOk(s, w) && Later(s, s')
    ensures SweepOk(s', w)
  {
  }

  lemma SweepsFrame(s: State, s': State)
    requires SweepsInOrder(s) && Later(s, s') && s'.sweeps == s.sweeps
    requires forall t :: t in s'.tears && s'.tears[t].origin.BySweep? ==>
               (t in s.tears && s'.tears[t].n == s.tears[t].n && s'.tears[t].origin == s.tears[t].origin)
    ensures SweepsInOrder(s')
  {
    forall k | k in s'.sweeps ensures SweepOk(s', s'.sweeps[k]) { SweepLater(s, s', s.sweeps[k]); }
    forall t | t in s'.tears ensures Awaited(s', s'.tears[t]) {
      if s'.tears[t].origin.BySweep? { assert Awaited(s, s.tears[t]); }
    }
  }

  /** The teardown that sweep `k` waited for has removed the registry entry. */
  lemma SweepMovesOn(s: State, s': State, t: nat, k: nat)
    requires SweepsInOrder(s) && Later(s, s') && t in s.tears && s.tears[t].origin == BySweep(k) && t !in s'.tears
    requires k in s.sweeps && Removed(s', s.tears[t].n)
    requires s'.sweeps == s.sweeps[k := s.sweeps[k].(current := None)]
    requires forall u :: u in s'.tears ==> u in s.tears && s'.tears[u] == s.tears[u]
    ensures SweepsInOrder(s')
  {
    assert Awaited(s, s.tears[t]);
    forall j | j in s'.sweeps ensures SweepOk(s', s'.sweeps[j]) { SweepLater(s, s', s.sweeps[j]); }
    forall u | u in s'.tears ensures Awaited(s', s'.tears[u]) {
      assert Awaited(s, s.tears[u]);
    }
  }

  lemma TearSweeps(names: Names, s: State, t: nat, out: Outcome, count: nat, s': State)
    requires Base(names, s) && SweepsInOrder(s) && Later(s, s') && TearStep(names, s, t, out, count) == Some(s')
    ensures SweepsInOrder(s')
  {
    var next := TearShape(names, s, t, out, count, s');
    TearSweepLog(names, s, t, out, count, s');
    TearSweepCases(s, t, s', next);
  }

  lemma TearSweepCases(s: State, t: nat, s': State, next: Stage)
    requires SweepsInOrder(s) && Later(s, s') && t in s.tears
    requires forall u :: u != t ==> (u in s'.tears <==> u in s.tears)
    requires forall u :: u != t && u in s'.tears ==> s'.tears[u] == s.tears[u]
    requires t in s'.tears ==> s'.tears[t] == s.tears[t].(stage := next)
    requires s.tears[t].stage == Dropping ==> Removed(s', s.tears[t].n) && t !in s'.tears
    requires s'.sweeps == SweepsAfter(s, s.tears[t])
    ensures SweepsInOrder(s')
  {
    var T := s.tears[t];
    if T.stage == Dropping && T.origin.BySweep? {
      assert Awaited(s, T);
      SweepMovesOn(s, s', t, T.origin.k);
    } else {
      SweepsFrame(s, s');
    }
  }

  lemma TearSweepLog(names: Names, s: State, t: nat, out: Outcome, count: nat, s': State)
    requires Base(names, s) && TearStep(names, s, t, out, count) == Some(s')
    ensures t in s.tears
    ensures s'.sweeps == SweepsAfter(s, s.tears[t])
    ensures s.tears[t].stage == Dropping ==> Removed(s', s.tears[t].n) && t !in s'.tears
  {
    var c', next := TearParts(names, s, t, out, count, s');
    assert TearOk(names, s, s.tears[t]);
    SweepLog(names, s, t, c', next);
    ReplyLog(names, s, t, c', next);
    AdvanceShape(PutCell(names, s, s.tears[t].n, c'), t, next);
  }

  lemma SweepBegins(names: Names, s: State, k: nat, s': State)
    requires Base(names, s) && SweepsInOrder(s) && Step(names, s, SweepBegin(k)) == Some(s')
    ensures SweepsInOrder(s')
  {
    RegistryIsUp(names, s);
    forall j | j in s'.sweeps ensures SweepOk(s', s'.sweeps[j]) { assert j != k ==> SweepOk(s, s.sweeps[j]); }
    forall t | t in s'.tears ensures Awaited(s', s'.tears[t]) { assert Awaited(s, s.tears[t]); }
  }

  lemma RegistryIsUp(names: Names, s: State)
    requires CellsOk(names, s)
    ensures forall n :: Registered(s, n) ==> IsUp(s, n)
  {
    forall n | Registered(s, n) ensures IsUp(s, n) { assert CellInv(View(names, s, n)); }
  }

  lemma SweepVisits(names: Names, s: State, k: nat, n: nat, t: nat, s': State)
    requires CellsOk(names, s) && SweepsInOrder(s) && Step(names, s, SweepVisit(k, n, t)) == Some(s')
    ensures SweepsInOrder(s')
  {
    RegistryIsUp(names, s);
    VisitKeepsOrder(s, k, n, t, s');
  }

  lemma VisitKeepsOrder(s: State, k: nat, n: nat, t: nat, s': State)
    requires SweepsInOrder(s) && k in s.sweeps && s.sweeps[k].current == None && IsUp(s, n) && t !in s.tears
    requires s' == s.(sweeps := s.sweeps[k := s.sweeps[k].(visited := s.sweeps[k].visited + {n}, current := Some(n))],
                      tears := s.tears[t := Teardown(n, BySweep(k), Halting)])
    ensures SweepsInOrder(s')
  {
    forall j | j in s'.sweeps ensures SweepOk(s', s'.sweeps[j]) { assert SweepOk(s, s.sweeps[j]); }
    forall u | u in s.tears ensures s.tears[u].origin != BySweep(k) { assert Awaited(s, s.tears[u]); }
    forall u | u in s'.tears ensures Awaited(s', s'.tears[u]) { if u != t { assert Awaited(s, s.tears[u]); } }
  }

  lemma SweepEnds(names: Names, s: State, k: nat, s': State)
    requires SweepsInOrder(s) && Step(names, s, SweepEnd(k)) == Some(s')
    ensures SweepsInOrder(s')
  {
    forall j | j in s'.sweeps ensures SweepOk(s', s'.sweeps[j]) { assert SweepOk(s, s.sweeps[j]); }
    forall u | u in s'.tears ensures Awaited(s', s'.tears[u]) { assert Awaited(s, s.tears[u]); }
  }

  lemma OthersSkipSweeps(names: Names, s: State, a: Action, s': State)
    requires Ids(s) && Step(names, s, a) == Some(s') && (a.Create? ==> s.issued + 1 < WRAP)
    requires !a.Tear? && !a.SweepBegin? && !a.SweepVisit? && !a.SweepEnd?
    ensures s'.sweeps == s.sweeps
    ensures forall u :: u in s'.tears && s'.tears[u].origin.BySweep? ==> u in s.tears && s'.tears[u] == s.tears[u]
  {
  }

  lemma SweepStep(names: Names, s: State, a: Action, s': State)
    requires Injective(names.overlay) && Base(names, s) && SweepsInOrder(s) && Step(names, s, a) == Some(s')
    requires a.Create? ==> s.issued + 1 < WRAP
    ensures SweepsInOrder(s')
  {
    if a.Tear? {
      LaterStep(names, s, a, s');
      TearSweeps(names, s, a.t, a.out, a.count, s');
    } else if a.SweepBegin? {
      SweepBegins(names, s, a.k, s');
    } else if a.SweepVisit? {
      SweepVisits(names, s, a.k, a.n, a.t, s');
    } else if a.SweepEnd? {
      SweepEnds(names, s, a.k, s');
    } else {
      LaterStep(names, s, a, s');
      OthersSkipSweeps(names, s, a, s');
      SweepsFrame(s, s');
    }
  }
}
