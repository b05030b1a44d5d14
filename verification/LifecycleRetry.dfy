/** Repeating a DELETE: when it can still be answered 204, and when it never will. */
module LifecycleRetry {
  import opened Common
  import opened Lifecycle
  import opened LifecycleCells
  import opened LifecycleInv
  import opened LifecycleTheorems

  /** A 204 for `n` is among the answers written since `s`. */
  ghost predicate AnsweredSince(s: State, s': State, n: nat) {
    exists i :: |s.replies| <= i < |s'.replies| && s'.replies[i] == Reply(n, 204)
  }

  /** Some DELETE of `n` has released the TAP and is about to answer. */
  ghost predicate Pending(s: State, n: nat) {
    exists t :: t in s.tears && s.tears[t].n == n && Answering(s.tears[t])
  }

  /** `s'` can follow `s`, with at most `bound` ids issued in all. */
  ghost predicate Leads(names: Names, s: State, bound: nat, s': State) {
    exists more: seq<Action> :: Exec(names, s, more) == Some(s') && s.issued + Creates(more) <= bound
  }

  lemma LeadsOn(names: Names, s: State, bound: nat, m: State, a: Action, s': State)
    requires Leads(names, s, bound, m) && Step(names, m, a) == Some(s') && !a.Create?
    ensures Leads(names, s, bound, s')
  {
    var more: seq<Action> :| Exec(names, s, more) == Some(m) && s.issued + Creates(more) <= bound;
    ExecLast(names, s, more, a);
  }

  // ------------------------------------------------------------- how an entry disappears

  /** Action `a` ends the visit of a `StopAll` to `n`. */
  predicate SweepsNow(s: State, a: Action, n: nat) {
    a.Tear? && a.t in s.tears && s.tears[a.t].n == n && s.tears[a.t].origin.BySweep? && s.tears[a.t].stage == Dropping
  }

  /** Some `StopAll` ended its visit to `n` in the actions `more` from `s`. */
  predicate Swept(names: Names, s: State, more: seq<Action>, n: nat) {
    more != []
    && (|| Swept(names, s, more[..|more| - 1], n)
        || match Exec(names, s, more[..|more| - 1])
           case None => false
           case Some(m) => SweepsNow(m, more[|more| - 1], n))
  }

  lemma RecordDrops(s: State, s': State, m: nat, i: Inst, n: nat, T: Teardown)
    requires Registered(s, n) && m in s.inst && s'.inst == s.inst[m := i] && T.n == m
    requires T.stage != Dropping ==> i.registered == s.inst[m].registered
    requires s.replies <= s'.replies && (Answering(T) ==> s'.replies == s.replies + [Reply(m, 204)])
    ensures Registered(s', n) || AnsweredSince(s, s', n) || (m == n && T.origin.BySweep? && T.stage == Dropping)
  {
    if Answering(T) { assert s'.replies[|s.replies|] == Reply(m, 204); }
  }

  lemma TearDrops(names: Names, s: State, t: nat, out: Outcome, count: nat, s': State, n: nat)
    requires Base(names, s) && Registered(s, n) && TearStep(names, s, t, out, count) == Some(s')
    ensures s.replies <= s'.replies
    ensures Registered(s', n) || AnsweredSince(s, s', n) || SweepsNow(s, Tear(t, out, count), n)
  {
    var c', next := TearParts(names, s, t, out, count, s');
    var T := s.tears[t];
    assert TearOk(names, s, T) && CellInv(View(names, s, T.n));
    TearKeeps(View(names, s, T.n), T.n, T.stage, out, count, c', next);
    ReplyLog(names, s, t, c', next);
    RecordDrops(s, s', T.n, c'.i, n, T);
  }

  lemma RepliesGrow(names: Names, s: State, a: Action, s': State)
    requires Base(names, s) && Step(names, s, a) == Some(s') && (a.Create? ==> s.issued + 1 < WRAP)
    ensures s.replies <= s'.replies
  {
    if a.Tear? {
      var c', next := TearParts(names, s, a.t, a.out, a.count, s');
      ReplyLog(names, s, a.t, c', next);
    } else {
      QuietShape(names, s, a, s');
    }
  }

  lemma EntryStep(names: Names, s: State, a: Action, s': State, n: nat)
    requires Base(names, s) && Registered(s, n) && Step(names, s, a) == Some(s')
    requires a.Create? ==> s.issued + 1 < WRAP
    ensures Registered(s', n) || AnsweredSince(s, s', n) || SweepsNow(s, a, n)
  {
    if a.Tear? {
      TearDrops(names, s, a.t, a.out, a.count, s', n);
    } else if WritesCell(a) {
      WrittenIsStep(names, s, a, s');
      var (m, c) := Written(names, s, a).value;
      assert CellInv(View(names, s, m));
      WrittenKeeps(names, s, a, m, c);
      assert m == n ==> c.i.registered;
    } else if a.Create? {
      CreateShape(names, s, s');
    } else {
      StartShape(names, s, a, s');
    }
  }

  lemma {:induction false} RunReplies(names: Names, s: State, more: seq<Action>, s': State)
    requires Injective(names.overlay) && Sound(names, s) && Exec(names, s, more) == Some(s')
    requires s.issued + Creates(more) < WRAP
    ensures s.replies <= s'.replies
    decreases |more|
  {
    if more == [] {
    } else {
      var m := LastStep(names, s, more, s');
      RunReplies(names, s, more[..|more| - 1], m);
      ExecKeepsSound(names, s, more[..|more| - 1], m);
      RepliesGrow(names, m, more[|more| - 1], s');
    }
  }

  lemma StillAnswered(s: State, m: State, s': State, n: nat)
    requires s.replies <= m.replies <= s'.replies
    ensures AnsweredSince(s, m, n) || AnsweredSince(m, s', n) ==> AnsweredSince(s, s', n)
  {
    if AnsweredSince(s, m, n) {
      var i :| |s.replies| <= i < |m.replies| && m.replies[i] == Reply(n, 204);
      assert s'.replies[i] == Reply(n, 204);
    }
  }

  /** Over any run an entry disappears only with a 204 for it or with a `StopAll` that
      visits it; in particular no DELETE that is answered 500 removes it at any of its
      steps, whatever runs beside it, and so the DELETE can be repeated. */
  lemma {:induction false} EntryStays(names: Names, s: State, more: seq<Action>, s': State, n: nat)
    requires Injective(names.overlay) && Sound(names, s) && Exec(names, s, more) == Some(s')
    requires s.issued + Creates(more) < WRAP && Registered(s, n)
    ensures Registered(s', n) || AnsweredSince(s, s', n) || Swept(names, s, more, n)
    decreases |more|
  {
    if more == [] {
    } else {
      var m := LastStep(names, s, more, s');
      var before, a := more[..|more| - 1], more[|more| - 1];
      EntryStays(names, s, before, m, n);
      ExecKeepsSound(names, s, before, m);
      RunReplies(names, s, before, m);
      RepliesGrow(names, m, a, s');
      StillAnswered(s, m, s', n);
      if Registered(m, n) { EntryStep(names, m, a, s', n); }
    }
  }

  /** And as long as it is there, every GET of it answers 200. */
  lemma EntryAnswers(names: Names, s: State, more: seq<Action>, s': State, n: nat)
    requires Injective(names.overlay) && Sound(names, s) && Exec(names, s, more) == Some(s')
    requires s.issued + Creates(more) < WRAP && Registered(s, n)
    requires !AnsweredSince(s, s', n) && !Swept(names, s, more, n)
    ensures Step(names, s', Get(n)) == Some(s'.(replies := s'.replies + [Reply(n, 200)]))
  {
    EntryStays(names, s, more, s', n);
  }

  /** Every answer but a 404 is about an instance that came up, and there are four. */
  ghost predicate AnswersAreKnown(s: State) {
    forall i :: 0 <= i < |s.replies| ==>
      s.replies[i].code == 404 || (s.replies[i].code in {200, 204, 500} && IsUp(s, s.replies[i].n))
  }

  predicate Knowable(s: State, r: Reply) { r.code == 404 || (r.code in {200, 204, 500} && IsUp(s, r.n)) }

  lemma OneMoreKnown(s: State, s': State)
    requires AnswersAreKnown(s) && Later(s, s')
    requires s'.replies == s.replies || exists r: Reply :: s'.replies == s.replies + [r] && Knowable(s', r)
    ensures AnswersAreKnown(s')
  {
  }

  lemma TearIsKnowable(names: Names, s: State, t: nat, out: Outcome, count: nat, s': State)
    requires Base(names, s) && TearStep(names, s, t, out, count) == Some(s')
    ensures s'.replies == s.replies || exists r: Reply :: s'.replies == s.replies + [r] && Knowable(s', r)
  {
    var c', next := TearParts(names, s, t, out, count, s');
    var T := s.tears[t];
    assert TearOk(names, s, T);
    TearEvolves(View(names, s, T.n), T.n, T.stage, out, count, c', next);
    ReplyLog(names, s, t, c', next);
    assert Knowable(s', Reply(T.n, 204)) && Knowable(s', Reply(T.n, 500));
  }

  lemma QuietIsKnowable(names: Names, s: State, a: Action, s': State)
    requires CellsOk(names, s) && Step(names, s, a) == Some(s') && !a.Tear?
    ensures s'.replies == s.replies || exists r: Reply :: s'.replies == s.replies + [r] && Knowable(s', r)
  {
    RegistryIsUp(names, s);
    match a {
      case Get(n) => assert Knowable(s', Reply(n, if Registered(s, n) then 200 else 404));
      case Delete(n, t) => if !Registered(s, n) { assert Knowable(s', Reply(n, 404)); }
      case _ =>
    }
  }

  lemma {:induction false} RunIsKnown(names: Names, s0: State, acts: seq<Action>, s: State)
    requires Injective(names.overlay) && Run(names, s0, acts, s) && Creates(acts) < WRAP
    ensures AnswersAreKnown(s)
    decreases |acts|
  {
    if acts == [] {
    } else {
      var m, a := Exec(names, s0, acts[..|acts| - 1]).value, acts[|acts| - 1];
      RunIsKnown(names, s0, acts[..|acts| - 1], m);
      RunIsSound(names, s0, acts[..|acts| - 1], m);
      LaterStep(names, m, a, s);
      if a.Tear? { TearIsKnowable(names, m, a.t, a.out, a.count, s); } else { QuietIsKnowable(names, m, a, s); }
      OneMoreKnown(m, s);
    }
  }

  // ------------------------------------------------------------- what the release record means

  /** Action `a` is a release of `n` that takes effect, whatever it reports. */
  predicate ReleasesNow(s: State, a: Action, n: nat) {
    a.Tear? && a.t in s.tears && s.tears[a.t].n == n && s.tears[a.t].stage.Releasing? && a.out != Refused
  }

  /** Some release of `n` took effect in the run. */
  predicate ReleaseTook(names: Names, s0: State, acts: seq<Action>, n: nat) {
    acts != []
    && (|| ReleaseTook(names, s0, acts[..|acts| - 1], n)
        || match Exec(names, s0, acts[..|acts| - 1])
           case None => false
           case Some(m) => ReleasesNow(m, acts[|acts| - 1], n))
  }

  predicate IsReleased(s: State, n: nat) { n in s.inst && s.inst[n].released }

  lemma RecordReleases(s: State, s': State, m: nat, i: Inst, n: nat, releases: bool)
    requires m in s.inst && s'.inst == s.inst[m := i] && (i.released <==> s.inst[m].released || releases)
    ensures IsReleased(s', n) <==> IsReleased(s, n) || (m == n && releases)
  {
  }

  lemma TearStepReleases(names: Names, s: State, t: nat, out: Outcome, count: nat, s': State, n: nat)
    requires TearStep(names, s, t, out, count) == Some(s')
    ensures IsReleased(s', n) <==> IsReleased(s, n) || ReleasesNow(s, Tear(t, out, count), n)
  {
    var c', next := TearParts(names, s, t, out, count, s');
    var T := s.tears[t];
    TearReleases(View(names, s, T.n), T.n, T.stage, out, count, c', next);
    ReplyLog(names, s, t, c', next);
    RecordReleases(s, s', T.n, c'.i, n, T.stage.Releasing? && out != Refused);
  }

  lemma WrittenReleasesNothing(names: Names, s: State, a: Action, n: nat, c: Cell)
    requires Written(names, s, a) == Some((n, c)) && n in s.inst && CellInv(View(names, s, n))
    ensures c.i.released == s.inst[n].released
  {
    if a.Launch? { LaunchKeeps(View(names, s, n), a.out, a.image, c); }
  }

  lemma StepReleases(names: Names, s: State, a: Action, s': State, n: nat)
    requires Base(names, s) && Step(names, s, a) == Some(s') && (a.Create? ==> s.issued + 1 < WRAP)
    ensures IsReleased(s', n) <==> IsReleased(s, n) || ReleasesNow(s, a, n)
  {
    if WritesCell(a) {
      WrittenIsStep(names, s, a, s');
      var (m, c) := Written(names, s, a).value;
      assert CellInv(View(names, s, m));
      WrittenReleasesNothing(names, s, a, m, c);
    } else if a.Tear? {
      TearStepReleases(names, s, a.t, a.out, a.count, s', n);
    } else if a.Create? {
      CreateShape(names, s, s');
    } else {
      StartShape(names, s, a, s');
    }
  }

  /** An instance is on record as released exactly if a release of it took effect. */
  lemma {:induction false} RunReleases(names: Names, s0: State, acts: seq<Action>, s: State, n: nat)
    requires Injective(names.overlay) && Run(names, s0, acts, s) && Creates(acts) < WRAP
    ensures IsReleased(s, n) <==> ReleaseTook(names, s0, acts, n)
    decreases |acts|
  {
    if acts == [] {
    } else {
      var m := LastStep(names, s0, acts, s);
      RunReleases(names, s0, acts[..|acts| - 1], m, n);
      RunIsSound(names, s0, acts[..|acts| - 1], m);
      StepReleases(names, m, acts[|acts| - 1], s, n);
    }
  }

  // ------------------------------------------------------------- an entry without its link

  ghost predicate Stuck(s: State, n: nat) { IsUp(s, n) && s.inst[n].released && !Pending(s, n) }

  lemma StuckTear(names: Names, s: State, t: nat, out: Outcome, count: nat, s': State, n: nat)
    requires Base(names, s) && Taps(names, s) && Stuck(s, n) && Later(s, s')
    requires TearStep(names, s, t, out, count) == Some(s')
    ensures Stuck(s', n) && s.replies <= s'.replies && !AnsweredSince(s, s', n)
  {
    var c', next := TearParts(names, s, t, out, count, s');
    var T := s.tears[t];
    var foreign := names.tap(T.n) in s.strayLinks;
    assert TearOk(names, s, T) && TapTearOk(s, T) && TapInv(View(names, s, T.n), foreign);
    AnswerCell(View(names, s, T.n), foreign, T, out, count, c', next);
    ReplyLog(names, s, t, c', next);
    AdvanceShape(PutCell(names, s, T.n, c'), t, next);
  }

  lemma StuckStep(names: Names, s: State, a: Action, s': State, n: nat)
    requires Injective(names.overlay) && Base(names, s) && Taps(names, s) && Stuck(s, n)
    requires Step(names, s, a) == Some(s') && (a.Create? ==> s.issued + 1 < WRAP)
    ensures Stuck(s', n) && s.replies <= s'.replies && !AnsweredSince(s, s', n)
  {
    LaterStep(names, s, a, s');
    if a.Tear? {
      StuckTear(names, s, a.t, a.out, a.count, s', n);
    } else {
      QuietShape(names, s, a, s');
    }
  }

  /** `n` is stuck in `m`, and no 204 for it has been written since `s`. */
  ghost predicate Hopeless(names: Names, s: State, m: State, n: nat) {
    Base(names, m) && Taps(names, m) && Stuck(m, n) && s.replies <= m.replies && !AnsweredSince(s, m, n)
  }

  lemma HopelessKept(names: Names, s: State, m: State, a: Action, s': State, n: nat)
    requires Injective(names.overlay) && Hopeless(names, s, m, n) && Step(names, m, a) == Some(s')
    requires a.Create? ==> m.issued + 1 < WRAP
    requires InjectiveUpTo(names.tap, if a.Create? then m.issued + 1 else m.issued)
    ensures Hopeless(names, s, s', n)
  {
    BaseStep(names, m, a, s');
    TapStep(names, m, a, s');
    StuckStep(names, m, a, s', n);
    NoAnswerYet(s, m, s', n);
  }

  lemma NoAnswerYet(s: State, m: State, s': State, n: nat)
    requires s.replies <= m.replies <= s'.replies && !AnsweredSince(s, m, n) && !AnsweredSince(m, s', n)
    ensures !AnsweredSince(s, s', n)
  {
    forall i | |s.replies| <= i < |s'.replies| ensures s'.replies[i] != Reply(n, 204) {
      if i < |m.replies| { assert s'.replies[i] == m.replies[i]; }
    }
  }

  lemma InjectiveBelow(f: nat -> string, small: nat, bound: nat)
    requires InjectiveUpTo(f, bound) && small <= bound
    ensures InjectiveUpTo(f, small)
  {
  }

  lemma {:induction false} ExecIssues(names: Names, s: State, more: seq<Action>, s': State)
    requires Exec(names, s, more) == Some(s') && s.issued + Creates(more) < WRAP
    ensures s'.issued == s.issued + Creates(more)
    decreases |more|
  {
    if more == [] {
    } else {
      var m := LastStep(names, s, more, s');
      ExecIssues(names, s, more[..|more| - 1], m);
      IssuedStep(names, m, more[|more| - 1], s');
    }
  }

  lemma {:induction false} StuckForGood(names: Names, s: State, more: seq<Action>, s': State, n: nat, bound: nat)
    requires Injective(names.overlay) && Hopeless(names, s, s, n) && Exec(names, s, more) == Some(s')
    requires InjectiveUpTo(names.tap, bound) && s.issued + Creates(more) <= bound < WRAP
    ensures Hopeless(names, s, s', n)
    decreases |more|
  {
    if more == [] {
    } else {
      var m := LastStep(names, s, more, s');
      StuckForGood(names, s, more[..|more| - 1], m, n, bound);
      ExecIssues(names, s, more[..|more| - 1], m);
      InjectiveBelow(names.tap, s.issued + Creates(more), bound);
      HopelessKept(names, s, m, more[|more| - 1], s', n);
    }
  }

  // ------------------------------------------------------------- a DELETE that succeeds

  /** One step of teardown `t` that neither answers nor writes an audit. */
  lemma TearGoes(names: Names, s: State, t: nat, out: Outcome, c': Cell, next: Stage) returns (s': State)
    requires Injective(names.overlay) && t in s.tears && s.tears[t].n in s.inst
    requires TearCell(View(names, s, s.tears[t].n), s.tears[t].n, s.tears[t].stage, out, 0) == Some((c', next))
    requires !s.tears[t].stage.Reporting? && !s.tears[t].stage.Dropping? && !s.tears[t].stage.Auditing?
    requires c'.stray ==> names.overlay(s.tears[t].n) in s.strayFiles
    ensures Step(names, s, Tear(t, out, 0)) == Some(s')
    ensures s'.tears == s.tears[t := s.tears[t].(stage := next)] && s'.replies == s.replies && s'.audits == s.audits
    ensures s'.inst.Keys == s.inst.Keys && View(names, s', s.tears[t].n) == c'
    ensures forall m :: m in s.inst && m != s.tears[t].n ==> s'.inst[m] == s.inst[m]
  {
    var m := PutCell(names, s, s.tears[t].n, c');
    PutFrame(names, s, s.tears[t].n, c');
    s' := Advance(m, t, next);
    AdvanceShape(m, t, next);
  }

  lemma AnswerNow(names: Names, s: State, t: nat) returns (s': State)
    requires t in s.tears && s.tears[t].n in s.inst && Answering(s.tears[t])
    ensures Step(names, s, Tear(t, Done, 0)) == Some(s') && s'.replies == s.replies + [Reply(s.tears[t].n, 204)]
    ensures s'.tears == s.tears - {t} && s'.audits == s.audits
    ensures s'.inst == s.inst[s.tears[t].n := s.inst[s.tears[t].n].(registered := false)]
  {
    s' := Step(names, s, Tear(t, Done, 0)).value;
    var c', next := TearParts(names, s, t, Done, 0, s');
    ReplyLog(names, s, t, c', next);
  }

  /** Between `s` and `m` a DELETE of `n` began and got as far as `stage`. */
  ghost predicate Under(names: Names, s: State, bound: nat, m: State, n: nat, t: nat, stage: Stage) {
    && Leads(names, s, bound, m) && Base(names, m) && m.replies == s.replies
    && t in m.tears && m.tears[t] == Teardown(n, ByDelete, stage) && n in m.inst
  }

  lemma GetsUnder(names: Names, s: State, bound: nat, n: nat, t: nat) returns (m: State)
    requires Injective(names.overlay) && Base(names, s) && s.issued <= bound && t !in s.tears && Registered(s, n)
    ensures Under(names, s, bound, m, n, t, Halting) && View(names, m, n) == View(names, s, n)
  {
    m := s.(tears := s.tears[t := Teardown(n, ByDelete, Halting)]);
    assert Step(names, s, Delete(n, t)) == Some(m);
    BaseStep(names, s, Delete(n, t), m);
    assert Leads(names, s, bound, s) by { assert Exec(names, s, []) == Some(s); }
    LeadsOn(names, s, bound, s, Delete(n, t), m);
  }

  lemma GoesOn(
    names: Names, s: State, bound: nat, m: State, n: nat, t: nat, stage: Stage, out: Outcome, c': Cell, next: Stage)
    returns (m': State)
    requires Injective(names.overlay) && Under(names, s, bound, m, n, t, stage)
    requires TearCell(View(names, m, n), n, stage, out, 0) == Some((c', next))
    requires !stage.Reporting? && !stage.Dropping? && !stage.Auditing?
    ensures Under(names, s, bound, m', n, t, next) && View(names, m', n) == c'
  {
    assert TearOk(names, m, m.tears[t]) && CellInv(View(names, m, n));
    TearKeeps(View(names, m, n), n, stage, out, 0, c', next);
    m' := TearGoes(names, m, t, out, c', next);
    BaseStep(names, m, Tear(t, out, 0), m');
    LeadsOn(names, s, bound, m, Tear(t, out, 0), m');
  }

  /** A new DELETE of `n` whose shredder fails, up to its release. */
  lemma ReachRelease(names: Names, s: State, bound: nat, n: nat, t: nat) returns (m: State)
    requires Injective(names.overlay) && Base(names, s) && s.issued <= bound && t !in s.tears && Registered(s, n)
    ensures Under(names, s, bound, m, n, t, Releasing) && (names.tap(n) in s.links ==> View(names, m, n).tap)
  {
    var c := View(names, s, n).(i := s.inst[n].(stopped := true));
    m := GetsUnder(names, s, bound, n, t);
    m := GoesOn(names, s, bound, m, n, t, Halting, Done, c, Opening);
    m := GoesOn(names, s, bound, m, n, t, Opening, Refused, ShredError(c).0, Releasing);
  }

  /** And on to its answer, the release having succeeded. */
  lemma DeleteOnce(names: Names, s: State, bound: nat, n: nat, t: nat) returns (m: State)
    requires Injective(names.overlay) && Base(names, s) && s.issued <= bound && t !in s.tears
    requires Registered(s, n) && names.tap(n) in s.links
    ensures Under(names, s, bound, m, n, t, Dropping)
  {
    m := ReachRelease(names, s, bound, n, t);
    var c := View(names, m, n);
    m := GoesOn(names, s, bound, m, n, t, Releasing, Done, c.(tap := false, i := c.i.(released := true)), Dropping);
  }

  lemma FreshNumber(s: set<nat>)
    ensures exists n: nat :: n !in s
  {
    var m := 0;
    var rest := s;
    while rest != {}
      invariant forall x :: x in s && x !in rest ==> x < m
      decreases rest
    {
      var x :| x in rest;
      if x >= m { m := x + 1; }
      rest := rest - {x};
    }
    assert m !in s;
  }

  lemma CanSucceed(names: Names, s: State, bound: nat, n: nat) returns (s': State)
    requires Injective(names.overlay) && Base(names, s) && s.issued <= bound && Registered(s, n)
    requires names.tap(n) in s.links || Pending(s, n)
    ensures Leads(names, s, bound, s') && AnsweredSince(s, s', n)
  {
    var m: State, t: nat := s, 0;
    if Pending(s, n) {
      t :| t in s.tears && s.tears[t].n == n && Answering(s.tears[t]);
      assert Leads(names, s, bound, s) by { assert Exec(names, s, []) == Some(s); }
    } else {
      FreshNumber(s.tears.Keys);
      t :| t !in s.tears;
      m := DeleteOnce(names, s, bound, n, t);
    }
    s' := AnswerNow(names, m, t);
    LeadsOn(names, s, bound, m, Tear(t, Done, 0), s');
    assert s'.replies[|s.replies|] == Reply(n, 204);
  }

  /** A registered instance can still be deleted exactly while its link exists, or
      while a DELETE that removed the link has not answered yet. Once a release has
      removed the link behind a reported failure, every repetition is answered 500. */
  lemma RetryCanSucceed(names: Names, s0: State, acts: seq<Action>, s: State, bound: nat, n: nat)
    requires Injective(names.overlay) && Run(names, s0, acts, s) && Creates(acts) <= bound < WRAP
    requires InjectiveUpTo(names.tap, bound) && Registered(s, n)
    ensures (exists s' :: Leads(names, s, bound, s') && AnsweredSince(s, s', n))
            <==> names.tap(n) in s.links || Pending(s, n)
  {
    RunIsSound(names, s0, acts, s);
    RunKeepsTaps(names, s0, acts, s);
    assert CellInv(View(names, s, n)) && TapInv(View(names, s, n), names.tap(n) in s.strayLinks);
    if names.tap(n) in s.links || Pending(s, n) {
      var s' := CanSucceed(names, s, bound, n);
    } else {
      forall s' | Leads(names, s, bound, s') ensures !AnsweredSince(s, s', n) {
        var more: seq<Action> :| Exec(names, s, more) == Some(s') && s.issued + Creates(more) <= bound;
        StuckForGood(names, s, more, s', n, bound);
      }
    }
  }
}
