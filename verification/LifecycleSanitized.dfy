/** What a 204 says about the overlay. */
module LifecycleSanitized {
  import opened Common
  import opened Zeroing
  import opened Lifecycle
  import opened LifecycleCells
  import opened LifecycleInv
  import opened LifecycleTheorems
  import opened LifecycleRetry
  import opened LifecycleLimits

  /** Action `a` is the last step of a ShredFile on the overlay of `n` that succeeds. */
  predicate PurgesNow(s: State, a: Action, n: nat) {
    a.Tear? && a.t in s.tears && s.tears[a.t].n == n && s.tears[a.t].stage.Unlinking? && a.out == Done
  }

  /** Some ShredFile on the overlay of `n` succeeded in the run. */
  predicate Purged(names: Names, s0: State, acts: seq<Action>, n: nat) {
    acts != []
    && (|| Purged(names, s0, acts[..|acts| - 1], n)
        || match Exec(names, s0, acts[..|acts| - 1])
           case None => false
           case Some(m) => PurgesNow(m, acts[|acts| - 1], n))
  }

  predicate Unlinked(s: State, n: nat) { n in s.inst && s.inst[n].unlinked }

  lemma WrittenPurgesNothing(names: Names, s: State, a: Action, n: nat, c: Cell)
    requires Written(names, s, a) == Some((n, c)) && n in s.inst && CellInv(View(names, s, n))
    ensures c.i.unlinked == s.inst[n].unlinked
  {
    if a.Launch? { LaunchKeeps(View(names, s, n), a.out, a.image, c); }
  }

  lemma RecordPurges(s: State, s': State, m: nat, i: Inst, n: nat, purges: bool)
    requires m in s.inst && s'.inst == s.inst[m := i] && (i.unlinked <==> s.inst[m].unlinked || purges)
    ensures Unlinked(s', n) <==> Unlinked(s, n) || (m == n && purges)
  {
  }

  lemma TearStepPurges(names: Names, s: State, t: nat, out: Outcome, count: nat, s': State, n: nat)
    requires Base(names, s) && TearStep(names, s, t, out, count) == Some(s')
    ensures Unlinked(s', n) <==> Unlinked(s, n) || PurgesNow(s, Tear(t, out, count), n)
  {
    var c', next := TearParts(names, s, t, out, count, s');
    var T := s.tears[t];
    TearPurges(View(names, s, T.n), T.n, T.stage, out, count, c', next);
    ReplyLog(names, s, t, c', next);
    RecordPurges(s, s', T.n, c'.i, n, T.stage.Unlinking? && out == Done);
  }

  lemma StepPurges(names: Names, s: State, a: Action, s': State, n: nat)
    requires Base(names, s) && Step(names, s, a) == Some(s') && (a.Create? ==> s.issued + 1 < WRAP)
    ensures Unlinked(s', n) <==> Unlinked(s, n) || PurgesNow(s, a, n)
  {
    if WritesCell(a) {
      WrittenIsStep(names, s, a, s');
      var (m, c) := Written(names, s, a).value;
      assert CellInv(View(names, s, m));
      WrittenPurgesNothing(names, s, a, m, c);
    } else if a.Tear? {
      TearStepPurges(names, s, a.t, a.out, a.count, s', n);
    } else if a.Create? {
      CreateShape(names, s, s');
    } else {
      StartShape(names, s, a, s');
    }
  }

  lemma {:induction false} RunPurges(names: Names, s0: State, acts: seq<Action>, s: State, n: nat)
    requires Injective(names.overlay) && Run(names, s0, acts, s) && Creates(acts) < WRAP
    ensures Unlinked(s, n) <==> Purged(names, s0, acts, n)
    decreases |acts|
  {
    if acts == [] {
    } else {
      var m := LastStep(names, s0, acts, s);
      RunPurges(names, s0, acts[..|acts| - 1], m, n);
      RunIsSound(names, s0, acts[..|acts| - 1], m);
      StepPurges(names, m, acts[|acts| - 1], s, n);
    }
  }

  ghost predicate Answered204(s: State, n: nat) {
    exists i :: 0 <= i < |s.replies| && s.replies[i] == Reply(n, 204)
  }

  /** An instance that a DELETE answered 204 for has lost its overlay exactly if
      some ShredFile on it succeeded; otherwise the overlay stays on the host with
      its failed cleanup on record, and nothing audits it. */
  lemma DeletedIsSanitizedIffPurged(names: Names, s0: State, acts: seq<Action>, s: State, n: nat)
    requires Injective(names.overlay) && Run(names, s0, acts, s) && Creates(acts) < WRAP && Answered204(s, n)
    ensures names.overlay(n) !in s.disks <==> Purged(names, s0, acts, n)
    ensures names.overlay(n) in s.disks ==>
              n in s.inst && s.inst[n].diskResidue && forall i :: 0 <= i < |s.audits| ==> s.audits[i].n != n
  {
    RunIsSound(names, s0, acts, s);
    RunAnswers(names, s0, acts, s);
    RunPurges(names, s0, acts, s, n);
    assert Removed(s, n);
    assert CellInv(View(names, s, n));
  }

  /** A 204 alone does not promise it: the shredder cannot open the overlay, the
      error is only printed, and the DELETE goes on to its 204. */
  lemma DeletedNotSanitized(names: Names, image: seq<byte>) returns (s: State)
    requires Injective(names.overlay)
    ensures Reaches(names, s, 2) && Answered204(s, 1) && names.overlay(1) in s.disks
    ensures s.disks[names.overlay(1)].bytes == image
  {
    var s0 := BringUp(names, 2, 1, image);
    var s1 := Unwind(names, s0, 2, 1, 2, 0);
    var c := View(names, s1, 1);
    var s2 := DriveTear(names, s1, 2, 0, Done, c.(tap := false, i := c.i.(released := true)), Dropping);
    s := AnswerNow(names, s2, 0);
    Extend(names, s2, 2, Tear(0, Done, 0), s);
    assert s.replies[|s2.replies|] == Reply(1, 204);
    assert s.disks == s2.disks;
  }
}
