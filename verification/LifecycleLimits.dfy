/** Where the guarantees stop: exact conditions, with runs that show each one needed. */
module LifecycleLimits {
  import opened Common
  import opened Zeroing
  import opened Lifecycle
  import opened LifecycleCells
  import opened LifecycleInv
  import opened LifecycleTheorems
  import opened LifecycleRetry

  // ------------------------------------------------------------- driving a run

  const EMPTY: State := State(0, map[], {}, {}, map[], {}, map[], map[], [], [])

  /** `s` is reachable by a daemon started on an empty host, with `k` creates. */
  ghost predicate Reaches(names: Names, s: State, k: nat) {
    exists acts: seq<Action> :: Run(names, EMPTY, acts, s) && Creates(acts) == k
  }

  lemma Extend(names: Names, s: State, k: nat, a: Action, s': State)
    requires Reaches(names, s, k) && Step(names, s, a) == Some(s')
    ensures Reaches(names, s', if a.Create? then k + 1 else k)
  {
    var acts: seq<Action> :| Run(names, EMPTY, acts, s) && Creates(acts) == k;
    RunOneMore(names, EMPTY, acts, s, a, s');
  }

  /** `j` creates, none of which has started to launch. */
  ghost predicate JustIssued(s: State, j: nat) {
    && s == EMPTY.(issued := j, inst := s.inst)
    && (forall n: nat :: n in s.inst <==> 1 <= n <= j)
    && (forall n: nat :: n in s.inst ==> s.inst[n] == NEW)
  }

  lemma {:induction false} IssueMany(names: Names, j: nat) returns (s: State)
    requires j < WRAP
    ensures Reaches(names, s, j) && JustIssued(s, j)
  {
    if j == 0 {
      s := EMPTY;
      assert Run(names, EMPTY, [], EMPTY) && Creates([]) == 0;
    } else {
      var m := IssueMany(names, j - 1);
      s := IssueOne(names, m, j);
    }
  }

  lemma IssueOne(names: Names, m: State, j: nat) returns (s: State)
    requires 1 <= j < WRAP && Reaches(names, m, j - 1) && JustIssued(m, j - 1)
    ensures Reaches(names, s, j) && JustIssued(s, j)
  {
    s := m.(issued := j, inst := m.inst[j := NEW]);
    assert Step(names, m, Create) == Some(s);
    Extend(names, m, j - 1, Create, s);
  }

  /** One cell-writing action, seen from its instance and from another one. */
  lemma Drive(names: Names, s: State, k: nat, a: Action, n: nat, c: Cell) returns (s': State)
    requires Injective(names.overlay) && Reaches(names, s, k) && n in s.inst && CellInv(View(names, s, n))
    requires WritesCell(a) && Written(names, s, a) == Some((n, c))
    ensures Reaches(names, s', k) && s' == PutCell(names, s, n, c) && View(names, s', n) == c
    ensures s'.inst.Keys == s.inst.Keys && s'.tears == s.tears && s'.audits == s.audits
    ensures forall m :: m in s.inst && m != n ==> s'.inst[m] == s.inst[m]
  {
    s' := PutCell(names, s, n, c);
    WrittenKeeps(names, s, a, n, c);
    PutFrame(names, s, n, c);
    Extend(names, s, k, a, s');
  }

  /** A launch on its way up, all commands having succeeded so far. */
  ghost predicate Climbing(c: Cell, image: seq<byte>) {
    && CellInv(c) && TapInv(c, false) && !c.stray
    && !RollingBack(c.i.pc) && c.i.pc != Failed && c.i.pc != Up
    && (c.i.pc.Put? ==> c.i.pc.acked < PUTS)
    && (DiskHeldAt(c.i.pc) ==> c.disk == Some(Disk(image, {})))
    && (c.i.pc.Poll? || c.i.pc.Put? || c.i.pc.Ready? ==> c.i.alive)
    && c.i == NEW.(pc := c.i.pc, alive := c.i.alive)
  }

  function ToGo(pc: Pc): nat {
    match pc
    case Bridge => 12
    case AddTap => 11
    case AttachTap => 10
    case RaiseTap => 9
    case Copy => 8
    case Spawn => 7
    case Poll => 6
    case Put(acked) => if acked < PUTS then PUTS - acked else 0
    case _ => 0
  }

  lemma ClimbOne(c: Cell, image: seq<byte>) returns (c': Cell)
    requires Climbing(c, image) && c.i.pc != Ready
    ensures LaunchCell(c, Done, image) == Some(c') && Climbing(c', image) && ToGo(c'.i.pc) < ToGo(c.i.pc)
  {
    c' := AcquireCell(c, Done, image).value;
    LaunchKeeps(c, Done, image, c');
    LaunchKeepsTap(c, false, Done, image, c');
  }

  lemma {:induction false} Climb(names: Names, s: State, k: nat, n: nat, image: seq<byte>) returns (s': State)
    requires Injective(names.overlay) && Reaches(names, s, k) && n in s.inst && Climbing(View(names, s, n), image)
    ensures Reaches(names, s', k) && s'.inst.Keys == s.inst.Keys && s'.tears == s.tears && s'.audits == s.audits
    ensures Climbing(View(names, s', n), image) && s'.inst[n].pc == Ready
    ensures forall m :: m in s.inst && m != n ==> s'.inst[m] == s.inst[m]
    decreases ToGo(s.inst[n].pc)
  {
    if s.inst[n].pc == Ready {
      s' := s;
    } else {
      var c := ClimbOne(View(names, s, n), image);
      var m := Drive(names, s, k, Launch(n, Done, image), n, c);
      s' := Climb(names, m, k, n, image);
    }
  }

  /** A run that brings instance `n` up, with its process alive. */
  lemma BringUp(names: Names, j: nat, n: nat, image: seq<byte>) returns (s: State)
    requires Injective(names.overlay) && 1 <= n <= j < WRAP
    ensures Reaches(names, s, j) && s.tears == map[] && s.audits == []
    ensures forall m: nat :: m in s.inst <==> 1 <= m <= j
    ensures forall m :: m in s.inst && m != n ==> s.inst[m] == NEW
    ensures n in s.inst && View(names, s, n) ==
            Cell(NEW.(pc := Up, alive := true, registered := true), true, Some(Disk(image, {})), false)
  {
    var start := IssueMany(names, j);
    var r := Climb(names, start, j, n, image);
    var c := RegisterCell(View(names, r, n)).value;
    s := Drive(names, r, j, Register(n), n, c);
  }

  /** One teardown step that neither answers nor writes an audit. */
  lemma DriveTear(names: Names, s: State, k: nat, t: nat, out: Outcome, c': Cell, next: Stage) returns (s': State)
    requires Injective(names.overlay) && Reaches(names, s, k) && t in s.tears && s.tears[t].n in s.inst
    requires TearCell(View(names, s, s.tears[t].n), s.tears[t].n, s.tears[t].stage, out, 0) == Some((c', next))
    requires !s.tears[t].stage.Reporting? && !s.tears[t].stage.Dropping? && !s.tears[t].stage.Auditing?
    requires !View(names, s, s.tears[t].n).stray && !c'.stray
    ensures Reaches(names, s', k) && Step(names, s, Tear(t, out, 0)) == Some(s')
    ensures s'.tears == s.tears[t := s.tears[t].(stage := next)] && s'.audits == s.audits
    ensures s'.inst.Keys == s.inst.Keys && View(names, s', s.tears[t].n) == c'
    ensures forall m :: m in s.inst && m != s.tears[t].n ==> s'.inst[m] == s.inst[m]
  {
    s' := TearGoes(names, s, t, out, c', next);
    Extend(names, s, k, Tear(t, out, 0), s');
  }

  // ------------------------------------------------------------- whose link is removed

  /** The instance an action works for. */
  function ActorOf(s: State, a: Action): Option<nat> {
    match a
    case Launch(n, _, _) => Some(n)
    case Register(n) => Some(n)
    case Tear(t, _, _) => if t in s.tears then Some(s.tears[t].n) else None
    case Exit(n) => Some(n)
    case GuestWrite(n, _, _) => Some(n)
    case _ => None
  }

  /** Action `a` removes the live TAP of an instance it does not work for. */
  ghost predicate Robs(names: Names, s: State, a: Action) {
    && Step(names, s, a).Some?
    && exists m: nat ::
         && m in s.inst && HoldsTap(s.inst[m]) && ActorOf(s, a) != Some(m)
         && names.tap(m) in s.links && names.tap(m) !in Step(names, s, a).value.links
  }

  lemma PutRobsNobody(names: Names, s: State, n: nat, c: Cell)
    requires Ids(s) && InjectiveUpTo(names.tap, s.issued) && n in s.inst
    ensures forall m :: m in s.inst && m != n && names.tap(m) in s.links ==>
              names.tap(m) in PutCell(names, s, n, c).links
  {
    assert forall m :: m in s.inst && m != n ==> names.tap(m) != names.tap(n);
  }

  lemma NeverRobs(names: Names, s: State, a: Action)
    requires Ids(s) && InjectiveUpTo(names.tap, s.issued)
    ensures !Robs(names, s, a)
  {
    var r := Step(names, s, a);
    if r.Some? {
      if WritesCell(a) {
        WrittenIsStep(names, s, a, r.value);
        PutRobsNobody(names, s, Written(names, s, a).value.0, Written(names, s, a).value.1);
      } else if a.Tear? {
        var c', next := TearParts(names, s, a.t, a.out, a.count, r.value);
        PutRobsNobody(names, s, s.tears[a.t].n, c');
        AdvanceShape(PutCell(names, s, s.tears[a.t].n, c'), a.t, next);
      } else if !a.Create? {
        StartShape(names, s, a, r.value);
      }
    }
  }

  /** Two instances with one TAP name: a DELETE of `i` has released the link, `j` has
      made its own since, and a second DELETE of `i` is about to release. */
  lemma SharedName(names: Names, i: nat, j: nat) returns (s: State)
    requires Injective(names.overlay) && 1 <= i < j < WRAP && names.tap(i) == names.tap(j)
    ensures Reaches(names, s, j) && i in s.inst && j in s.inst && HoldsTap(s.inst[j])
    ensures View(names, s, i).tap && View(names, s, j).tap && !View(names, s, i).stray
    ensures s.tears == map[0 := Teardown(i, ByDelete, Dropping), 1 := Teardown(i, ByDelete, Releasing)]
  {
    var s1 := ReleasePending(names, i, j);
    var c := View(names, s1, i);
    var s2 := DriveTear(names, s1, j, 0, Done, c.(tap := false, i := c.i.(released := true)), Dropping);
    assert View(names, s2, j).i == NEW && !View(names, s2, j).tap;
    s := Relaunch(names, s2, j);
    assert s.tears == map[0 := Teardown(i, ByDelete, Dropping), 1 := Teardown(i, ByDelete, Releasing)];
    ReachedIsBase(names, s, j);
    NotStray(names, s, 0);
  }

  /** The overlay of an instance that is being stopped is its own. */
  lemma NotStray(names: Names, s: State, t: nat)
    requires Base(names, s) && t in s.tears
    ensures s.tears[t].n in s.inst && !View(names, s, s.tears[t].n).stray
  {
    assert TearOk(names, s, s.tears[t]) && CellInv(View(names, s, s.tears[t].n));
  }

  /** The second release of `i` then removes the link that `j` made. */
  lemma SharedNameRobs(names: Names, i: nat, j: nat) returns (s: State, a: Action)
    requires Injective(names.overlay) && 1 <= i < j < WRAP && names.tap(i) == names.tap(j)
    ensures Reaches(names, s, j) && Robs(names, s, a)
  {
    s := SharedName(names, i, j);
    a := Tear(1, Done, 0);
    assert Step(names, s, a).Some?;
    var c', next := TearParts(names, s, 1, Done, 0, Step(names, s, a).value);
    AdvanceShape(PutCell(names, s, i, c'), 1, next);
  }

  /** `n` was answered 204 twice. */
  ghost predicate AnsweredTwice(s: State, n: nat) {
    exists i, j :: 0 <= i < j < |s.replies| && s.replies[i] == Reply(n, 204) && s.replies[j] == Reply(n, 204)
  }

  /** And both DELETEs of `i` are answered 204. */
  lemma SharedNameAnswersTwice(names: Names, i: nat, j: nat) returns (s: State)
    requires Injective(names.overlay) && 1 <= i < j < WRAP && names.tap(i) == names.tap(j)
    ensures Reaches(names, s, j) && AnsweredTwice(s, i)
  {
    var s1 := SharedName(names, i, j);
    var c := View(names, s1, i);
    var s2 := DriveTear(names, s1, j, 1, Done, c.(tap := false, i := c.i.(released := true)), Dropping);
    var s3 := AnswerNow(names, s2, 0);
    Extend(names, s2, j, Tear(0, Done, 0), s3);
    s := AnswerNow(names, s3, 1);
    Extend(names, s3, j, Tear(1, Done, 0), s);
    var k := |s2.replies|;
    assert s.replies[k] == Reply(i, 204) && s.replies[k + 1] == Reply(i, 204);
  }

  /** Instance `i` is up, and two deletes of it are about to release its TAP. */
  lemma ReleasePending(names: Names, i: nat, j: nat) returns (s: State)
    requires Injective(names.overlay) && 1 <= i < j < WRAP
    ensures Reaches(names, s, j) && i in s.inst && j in s.inst && s.inst[j] == NEW
    ensures View(names, s, i).tap && !View(names, s, i).stray
    ensures s.tears == map[0 := Teardown(i, ByDelete, Releasing), 1 := Teardown(i, ByDelete, Releasing)]
  {
    var s0 := BringUp(names, j, i, []);
    var s1 := Unwind(names, s0, j, i, j, 0);
    s := Unwind(names, s1, j, i, j, 1);
  }

  /** A delete of `i` whose shredder cannot open the overlay, up to its release. */
  lemma Unwind(names: Names, s: State, k: nat, i: nat, j: nat, t: nat) returns (s': State)
    requires Injective(names.overlay) && Reaches(names, s, k) && i in s.inst && j in s.inst && i != j && t !in s.tears
    requires s.inst[i].registered && View(names, s, i).tap && !View(names, s, i).stray
    ensures Reaches(names, s', k) && s'.tears == s.tears[t := Teardown(i, ByDelete, Releasing)]
    ensures i in s'.inst && j in s'.inst && s'.inst[j] == s.inst[j]
    ensures s'.inst[i].registered && View(names, s', i).tap && !View(names, s', i).stray
    ensures View(names, s', i).disk == View(names, s, i).disk
  {
    var m := s.(tears := s.tears[t := Teardown(i, ByDelete, Halting)]);
    assert Step(names, s, Delete(i, t)) == Some(m);
    Extend(names, s, k, Delete(i, t), m);
    assert View(names, m, i) == View(names, s, i);
    var c := View(names, m, i);
    var c1 := c.(i := c.i.(stopped := true));
    var o := DriveTear(names, m, k, t, Done, c1, Opening);
    s' := DriveTear(names, o, k, t, Refused, ShredError(c1).0, Releasing);
  }

  /** Instance `j` makes its TAP. */
  lemma Relaunch(names: Names, s: State, j: nat) returns (s': State)
    requires Injective(names.overlay) && Reaches(names, s, j) && j in s.inst && j < WRAP
    requires s.inst[j] == NEW && !View(names, s, j).tap
    ensures Reaches(names, s', j) && s'.tears == s.tears && s'.inst.Keys == s.inst.Keys
    ensures View(names, s', j).tap && HoldsTap(s'.inst[j])
  {
    var c := View(names, s, j);
    var m := DriveLaunch(names, s, j, At(c, AddTap));
    s' := DriveLaunch(names, m, j, At(c, AttachTap).(tap := true));
  }

  lemma DriveLaunch(names: Names, s: State, n: nat, c: Cell) returns (s': State)
    requires Injective(names.overlay) && Reaches(names, s, n) && n in s.inst && n < WRAP
    requires LaunchCell(View(names, s, n), Done, []) == Some(c)
    ensures Reaches(names, s', n) && s'.tears == s.tears && s'.inst.Keys == s.inst.Keys && View(names, s', n) == c
  {
    ReachedIsBase(names, s, n);
    assert CellInv(View(names, s, n));
    s' := Drive(names, s, n, Launch(n, Done, []), n, c);
  }

  /** The release of teardown `t` removes the link and reports failure. */
  lemma ReleaseFails(names: Names, s: State, k: nat, n: nat, t: nat) returns (s': State)
    requires Injective(names.overlay) && Reaches(names, s, k) && n in s.inst && s.inst[n].registered
    requires s.tears == map[t := Teardown(n, ByDelete, Releasing)]
    requires View(names, s, n).tap && !View(names, s, n).stray
    ensures Reaches(names, s', k) && s'.tears == map[t := Teardown(n, ByDelete, Reporting)] && n in s'.inst
    ensures s'.inst[n] == s.inst[n].(released := true) && !View(names, s', n).tap
  {
    var c := View(names, s, n);
    var gone := c.(tap := false, i := c.i.(released := true));
    s' := DriveTear(names, s, k, t, Interrupted, gone, Reporting);
    assert View(names, s', n) == gone;
  }

  /** A DELETE whose release removed the link but reported failure: the entry is stuck. */
  lemma StuckEntry(names: Names) returns (s: State)
    requires Injective(names.overlay)
    ensures Reaches(names, s, 2) && Registered(s, 1) && Stuck(s, 1) && names.tap(1) !in s.links
  {
    var s0 := BringUp(names, 2, 1, []);
    var s1 := Unwind(names, s0, 2, 1, 2, 0);
    s := ReleaseFails(names, s1, 2, 1, 0);
    ReachedIsBase(names, s, 2);
    RegistryIsUp(names, s);
  }

  lemma ReachedIsBase(names: Names, s: State, k: nat)
    requires Injective(names.overlay) && Reaches(names, s, k) && k < WRAP
    ensures Base(names, s)
  {
    var acts: seq<Action> :| Run(names, EMPTY, acts, s) && Creates(acts) == k;
    RunIsSound(names, EMPTY, acts, s);
  }

  /** In all runs with at most `bound` creates no command ever removes another
      instance's TAP, exactly if the TAP names of the first `bound` ids are
      pairwise distinct. */
  lemma OwnLinksOnly(names: Names, bound: nat)
    requires Injective(names.overlay) && bound < WRAP
    ensures (forall s0, acts, s, a :: Run(names, s0, acts, s) && Creates(acts) <= bound ==> !Robs(names, s, a))
            <==> InjectiveUpTo(names.tap, bound)
  {
    if InjectiveUpTo(names.tap, bound) {
      forall s0, acts, s, a | Run(names, s0, acts, s) && Creates(acts) <= bound ensures !Robs(names, s, a) {
        RunIsSound(names, s0, acts, s);
        NeverRobs(names, s, a);
      }
    } else {
      var i: nat, j: nat :| 1 <= i < j <= bound && names.tap(i) == names.tap(j);
      var s, a := SharedNameRobs(names, i, j);
      var acts: seq<Action> :| Run(names, EMPTY, acts, s) && Creates(acts) == j;
      assert Robs(names, s, a);
    }
  }

  /** In all runs with at most `bound` creates no instance is answered 204 twice,
      exactly if the TAP names of the first `bound` ids are pairwise distinct. */
  lemma AnsweredOnce(names: Names, bound: nat)
    requires Injective(names.overlay) && bound < WRAP
    ensures (forall s0, acts, s, n :: Run(names, s0, acts, s) && Creates(acts) <= bound ==> !AnsweredTwice(s, n))
            <==> InjectiveUpTo(names.tap, bound)
  {
    if InjectiveUpTo(names.tap, bound) {
      forall s0, acts, s, n | Run(names, s0, acts, s) && Creates(acts) <= bound ensures !AnsweredTwice(s, n) {
        DeletedOnceAndGone(names, s0, acts, s);
      }
    } else {
      var i: nat, j: nat :| 1 <= i < j <= bound && names.tap(i) == names.tap(j);
      var s := SharedNameAnswersTwice(names, i, j);
      var acts: seq<Action> :| Run(names, EMPTY, acts, s) && Creates(acts) == j;
      assert AnsweredTwice(s, i);
    }
  }

  // ------------------------------------------------------------- what an audit proves

  /** Instance 1, up and told to stop, with its process still there or not. */
  function Told(alive: bool): Inst { NEW.(pc := Up, alive := alive, registered := true, stopped := true) }

  ghost predicate Wiping1(names: Names, s: State, alive: bool, bytes: seq<byte>, dirty: set<nat>, stage: Stage) {
    && Reaches(names, s, 1) && s.inst.Keys == {1} && s.audits == []
    && View(names, s, 1) == Cell(Told(alive), true, Some(Disk(bytes, dirty)), false)
    && s.tears == map[0 := Teardown(1, ByDelete, stage)]
  }

  lemma BringUpAlone(names: Names, alive: bool) returns (s: State)
    requires Injective(names.overlay)
    ensures Reaches(names, s, 1) && s.inst.Keys == {1} && s.tears == map[] && s.audits == []
    ensures View(names, s, 1) ==
            Cell(NEW.(pc := Up, alive := alive, registered := true), true, Some(Disk([7], {})), false)
  {
    s := BringUp(names, 1, 1, [7]);
    assert forall m: nat :: m in s.inst <==> m == 1;
    if !alive {
      s := ExitAlone(names, s);
    }
  }

  /** The only process exits. */
  lemma ExitAlone(names: Names, s: State) returns (s': State)
    requires Injective(names.overlay) && Reaches(names, s, 1) && s.inst.Keys == {1}
    requires s.inst[1].alive && !View(names, s, 1).stray
    ensures Reaches(names, s', 1) && s'.inst.Keys == {1} && s'.tears == s.tears && s'.audits == s.audits
    ensures View(names, s', 1) == View(names, s, 1).(i := s.inst[1].(alive := false))
  {
    ReachedIsBase(names, s, 1);
    var c := View(names, s, 1);
    s' := Drive(names, s, 1, Exit(1), 1, c.(i := c.i.(alive := false)));
  }

  /** Instance 1 is up with a one-byte overlay, and a shredder has opened it. */
  lemma OpenOne(names: Names, alive: bool) returns (s: State)
    requires Injective(names.overlay)
    ensures Wiping1(names, s, alive, [7], {}, Wiping(0, 1, !alive))
  {
    var s0 := BringUpAlone(names, alive);
    var s1 := s0.(tears := map[0 := Teardown(1, ByDelete, Halting)]);
    assert Step(names, s0, Delete(1, 0)) == Some(s1);
    Extend(names, s0, 1, Delete(1, 0), s1);
    assert View(names, s1, 1) == View(names, s0, 1);
    var c := View(names, s1, 1).(i := Told(alive));
    var s2 := DriveTear(names, s1, 1, 0, Done, c, Opening);
    s := DriveTear(names, s2, 1, 0, Done, c, Wiping(0, 1, !alive));
  }

  lemma WipeOne(names: Names, s: State, alive: bool) returns (s': State)
    requires Injective(names.overlay) && Wiping1(names, s, alive, [7], {}, Wiping(0, 1, !alive))
    ensures Wiping1(names, s', alive, [0], {}, Wiping(1, 1, !alive))
  {
    var c := View(names, s, 1);
    var none: set<nat> := {};
    assert ZeroRange([7], 0, 1) == [0] && (set i | i in none && !(0 <= i < 1)) == none;
    assert Wiped(c, 0, 1) == c.(disk := Some(Disk([0], none)));
    s' := DriveTear(names, s, 1, 0, Done, c.(disk := Some(Disk([0], {}))), Wiping(1, 1, !alive));
  }

  lemma DirtyOne(names: Names, s: State) returns (s': State)
    requires Injective(names.overlay) && Wiping1(names, s, true, [0], {}, Wiping(1, 1, false))
    ensures Wiping1(names, s', true, [7], {0}, Wiping(1, 1, false))
  {
    var c := View(names, s, 1);
    assert [0][0 := 7] == [7] && {} + {0 as nat} == {0};
    ReachedIsBase(names, s, 1);
    s' := Drive(names, s, 1, GuestWrite(1, 0, 7), 1, c.(disk := Some(Disk([7], {0}))));
  }

  /** A process that outlives its stop writes behind the shredder: the overlay is
      audited although its only byte is not zero. */
  lemma UnreapedAudit(names: Names) returns (s: State)
    requires Injective(names.overlay)
    ensures Reaches(names, s, 1) && s.audits == [Audit(1, 1, false, [7], {0})]
  {
    var s0 := OpenOne(names, true);
    var s1 := WipeOne(names, s0, true);
    var s2 := DirtyOne(names, s1);
    s := UnlinkOne(names, s2, true, [7], {0});
  }

  /** The file is certified, unlinked and audited. */
  lemma UnlinkOne(names: Names, s: State, alive: bool, bytes: seq<byte>, dirty: set<nat>) returns (s': State)
    requires Injective(names.overlay) && Wiping1(names, s, alive, bytes, dirty, Wiping(1, 1, !alive))
    ensures Reaches(names, s', 1) && s'.audits == [Audit(1, 1, !alive, bytes, dirty)] && s'.inst.Keys == {1}
    ensures View(names, s', 1) == Cell(Told(alive).(unlinked := true), true, None, false)
    ensures s'.tears == map[0 := Teardown(1, ByDelete, Releasing)]
  {
    var c := View(names, s, 1);
    var m0 := DriveTear(names, s, 1, 0, Done, c, Unlinking(1, !alive));
    var gone := Cell(Told(alive).(unlinked := true), true, None, false);
    var m := DriveTear(names, m0, 1, 0, Done, gone, Auditing(Audit(1, 1, !alive, bytes, dirty)));
    s' := AuditOne(names, m, Audit(1, 1, !alive, bytes, dirty));
  }

  /** The record is written and the link is next. */
  lemma AuditOne(names: Names, s: State, record: Audit) returns (s': State)
    requires Injective(names.overlay) && Reaches(names, s, 1) && s.inst.Keys == {1} && s.audits == []
    requires s.tears == map[0 := Teardown(1, ByDelete, Auditing(record))] && !View(names, s, 1).stray
    ensures Reaches(names, s', 1) && s'.audits == [record] && s'.inst.Keys == {1}
    ensures View(names, s', 1) == View(names, s, 1)
    ensures s'.tears == map[0 := Teardown(1, ByDelete, Releasing)]
  {
    s' := Advance(PutCell(names, s, 1, View(names, s, 1)), 0, Releasing);
    assert Step(names, s, Tear(0, Done, 0)) == Some(s');
    PutFrame(names, s, 1, View(names, s, 1));
    Extend(names, s, 1, Tear(0, Done, 0), s');
  }

  /** A whole life: created, launched, registered, deleted. The process exits before the
      shredder opens the overlay, everything is answered well, and at the end the DELETE
      has its 204, the audit stands for a zero overlay, and the host is as it was. */
  lemma WholeLife(names: Names) returns (s: State)
    requires Injective(names.overlay)
    ensures Reaches(names, s, 1) && Registry(s) == {} && s.tears == map[]
    ensures s.replies != [] && s.replies[|s.replies| - 1] == Reply(1, 204)
    ensures s.audits == [Audit(1, 1, true, [0], {})]
    ensures s.links == {} && s.disks == map[]
  {
    var s0 := OpenOne(names, false);
    var s1 := WipeOne(names, s0, false);
    var s2 := UnlinkOne(names, s1, false, [0], {});
    var c := View(names, s2, 1);
    var c' := c.(tap := false, i := c.i.(released := true));
    var s3 := DriveTear(names, s2, 1, 0, Done, c', Dropping);
    s := AnswerNow(names, s3, 0);
    Extend(names, s3, 1, Tear(0, Done, 0), s);
    assert s.inst[1] == Told(false).(unlinked := true, released := true, registered := false);
    EndsClean(names, s);
  }

  lemma EndsClean(names: Names, s: State)
    requires Injective(names.overlay) && Reaches(names, s, 1) && s.inst.Keys == {1}
    requires s.inst[1] == Told(false).(unlinked := true, released := true, registered := false)
    ensures s.links == {} && s.disks == map[] && Registry(s) == {}
  {
    var acts: seq<Action> :| Run(names, EMPTY, acts, s) && Creates(acts) == 1;
    TapConservation(names, EMPTY, acts, s);
    OverlayConservation(names, EMPTY, acts, s);
    assert HeldTaps(names, s) == {} && HeldOverlays(names, s) == {};
    assert s.disks.Keys == {};
  }

  ghost predicate OnRecord(names: Names, s0: State, acts: seq<Action>, s: State, a: Audit) {
    Run(names, s0, acts, s) && Creates(acts) < WRAP && a in s.audits
  }

  /** That the process had exited when the shredder opened the file is a sufficient
      guard for an audit: in no run does such an audit stand for an overlay that was not
      zero. Without the guard some audit does. */
  lemma ReapedAuditsProveZero(names: Names)
    requires Injective(names.overlay)
    ensures forall s0, acts, s, a :: OnRecord(names, s0, acts, s, a) && a.reaped ==> AllZero(a.bytes)
    ensures exists s0, acts, s, a :: OnRecord(names, s0, acts, s, a) && !a.reaped && !AllZero(a.bytes)
  {
    forall s0, acts, s, a | OnRecord(names, s0, acts, s, a) && a.reaped ensures AllZero(a.bytes) {
      AuditedOnceAndWiped(names, s0, acts, s);
    }
    var s := UnreapedAudit(names);
    var acts: seq<Action> :| Run(names, EMPTY, acts, s) && Creates(acts) == 1;
    assert OnRecord(names, EMPTY, acts, s, s.audits[0]) && s.audits[0].bytes[0] == 7;
  }
}
