/** The shredder as a method on a file and as steps of the protocol: that they are the
    same while nobody else writes to the file. */
module LifecycleShred {
  import opened Common
  import opened Zeroing
  import opened Lifecycle
  import Purge

  /** A list of shredder steps, each with its outcome and how far a failed write came. */
  function ShredAll(c: Cell, n: nat, steps: seq<(Outcome, nat)>): Option<(Cell, Stage)> {
    if steps == [] then Some((c, Opening))
    else
      match ShredAll(c, n, steps[..|steps| - 1])
      case None => None
      case Some((m, stage)) => ShredCell(m, n, stage, steps[|steps| - 1].0, steps[|steps| - 1].1)
  }

  /** The overlay with its first `off` bytes zeroed; offsets that the guest wrote stay
      on record beyond them. */
  function ZeroedTo(c: Cell, off: nat): Cell { Wiped(c, 0, off) }

  lemma OneMore(c: Cell, n: nat, steps: seq<(Outcome, nat)>, m: Cell, stage: Stage, out: Outcome, count: nat)
    requires ShredAll(c, n, steps) == Some((m, stage))
    ensures ShredAll(c, n, steps + [(out, count)]) == ShredCell(m, n, stage, out, count)
  {
    var longer := steps + [(out, count)];
    assert longer[..|longer| - 1] == steps;
  }

  lemma WipedOn(c: Cell, lo: nat, hi: nat)
    requires c.disk.Some? && lo <= hi
    ensures Wiped(ZeroedTo(c, lo), lo, hi) == ZeroedTo(c, hi)
  {
    var d := c.disk.value;
    assert ZeroRange(ZeroRange(d.bytes, 0, lo), lo, hi) == ZeroRange(d.bytes, 0, hi);
    var left := set i | i in d.dirty && !(0 <= i < lo);
    assert (set i | i in left && !(lo <= i < hi)) == set i | i in d.dirty && !(0 <= i < hi);
  }

  lemma NothingWiped(c: Cell)
    requires c.disk.Some?
    ensures ZeroedTo(c, 0) == c
  {
    var d := c.disk.value;
    assert ZeroRange(d.bytes, 0, 0) == d.bytes && (set i | i in d.dirty && !(0 <= i < 0)) == d.dirty;
  }

  predicate Boundary(off: nat, size: nat) { off <= size && (off % BLOCK == 0 || off == size) }

  /** The boundary before `off`. */
  function Previous(off: nat, size: nat): (p: nat)
    requires 0 < off && Boundary(off, size)
    ensures p < off && p % BLOCK == 0 && Chunk(p, size) == off - p
  {
    if off % BLOCK == 0 then off - BLOCK else off - off % BLOCK
  }

  function Size(c: Cell): nat
    requires c.disk.Some?
  {
    |c.disk.value.bytes|
  }

  /** Writes that succeed reach every block boundary. */
  lemma {:induction false} ReachBoundary(c: Cell, n: nat, off: nat) returns (steps: seq<(Outcome, nat)>)
    requires c.disk.Some? && Boundary(off, Size(c))
    ensures ShredAll(c, n, steps) == Some((ZeroedTo(c, off), Wiping(off, Size(c), !c.i.alive)))
    decreases off
  {
    if off == 0 {
      steps := [] + [(Done, 0)];
      OneMore(c, n, [], c, Opening, Done, 0);
      NothingWiped(c);
    } else {
      var p := Previous(off, Size(c));
      var before := ReachBoundary(c, n, p);
      steps := before + [(Done, 0)];
      OneMore(c, n, before, ZeroedTo(c, p), Wiping(p, Size(c), !c.i.alive), Done, 0);
      WipedOn(c, p, off);
    }
  }

  /** What the method may leave when it fails, some failing list of steps leaves. */
  lemma FailureIsReached(c: Cell, n: nat, e: Purge.ShredError, now: seq<byte>)
    returns (steps: seq<(Outcome, nat)>, z: nat)
    requires c.disk.Some? && Purge.LeftBy(e, c.disk.value.bytes, now)
    ensures ShredAll(c, n, steps) == Some((ShredError(ZeroedTo(c, z)).0, Releasing))
    ensures now == ZeroRange(c.disk.value.bytes, 0, z)
  {
    var was := c.disk.value.bytes;
    match e {
      case OpenFailed => steps, z := FailToOpen(c, n);
      case StatFailed => steps, z := FailToOpen(c, n);
      case Cancelled =>
        z :| z < |was| && z % BLOCK == 0 && now == ZeroRange(was, 0, z);
        steps := FailAt(c, n, z, 0);
      case WriteFailed(at) =>
        z :| at <= z <= at + Chunk(at, |was|) && now == ZeroRange(was, 0, z);
        steps := FailAt(c, n, at, z - at);
      case _ =>
        steps := FailLate(c, n);
        z := |was|;
    }
  }

  lemma FailToOpen(c: Cell, n: nat) returns (steps: seq<(Outcome, nat)>, z: nat)
    requires c.disk.Some?
    ensures z == 0 && ZeroRange(c.disk.value.bytes, 0, 0) == c.disk.value.bytes
    ensures ShredAll(c, n, steps) == Some((ShredError(ZeroedTo(c, z)).0, Releasing))
  {
    steps, z := [] + [(Refused, 0)], 0;
    OneMore(c, n, [], c, Opening, Refused, 0);
    NothingWiped(c);
  }

  lemma FailLate(c: Cell, n: nat) returns (steps: seq<(Outcome, nat)>)
    requires c.disk.Some?
    ensures ShredAll(c, n, steps) == Some((ShredError(ZeroedTo(c, Size(c))).0, Releasing))
  {
    var before := ReachBoundary(c, n, Size(c));
    steps := before + [(Refused, 0)];
    OneMore(c, n, before, ZeroedTo(c, Size(c)), Wiping(Size(c), Size(c), !c.i.alive), Refused, 0);
  }

  lemma FailAt(c: Cell, n: nat, at: nat, count: nat) returns (steps: seq<(Outcome, nat)>)
    requires c.disk.Some? && at < Size(c) && at % BLOCK == 0 && count <= Chunk(at, Size(c))
    ensures ShredAll(c, n, steps) == Some((ShredError(ZeroedTo(c, at + count)).0, Releasing))
  {
    var before := ReachBoundary(c, n, at);
    steps := before + [(Refused, count)];
    OneMore(c, n, before, ZeroedTo(c, at), Wiping(at, Size(c), !c.i.alive), Refused, count);
    WipedOn(c, at, at + count);
  }

  /** The audit that a purge leads to. */
  function Certified(c: Cell, n: nat): Audit
    requires c.disk.Some?
  {
    var d := ZeroedTo(c, Size(c)).disk.value;
    Audit(n, Size(c), !c.i.alive, d.bytes, d.dirty)
  }

  lemma SuccessIsReached(c: Cell, n: nat) returns (steps: seq<(Outcome, nat)>, c': Cell)
    requires c.disk.Some?
    ensures ShredAll(c, n, steps) == Some((c', Auditing(Certified(c, n)))) && c'.disk == None
  {
    var before := ReachBoundary(c, n, Size(c));
    var m, reaped := ZeroedTo(c, Size(c)), !c.i.alive;
    OneMore(c, n, before, m, Wiping(Size(c), Size(c), reaped), Done, 0);
    OneMore(c, n, before + [(Done, 0)], m, Unlinking(Size(c), reaped), Done, 0);
    steps := before + [(Done, 0)] + [(Done, 0)];
    c' := ShredAll(c, n, steps).value.0;
  }

  // ------------------------------------------------------------- and nothing else is

  ghost predicate OnPath(c: Cell, n: nat, m: Cell, stage: Stage)
    requires c.disk.Some?
  {
    match stage
    case Opening => m == c
    case Wiping(off, size, reaped) =>
      size == Size(c) && reaped == !c.i.alive && Boundary(off, size) && m == ZeroedTo(c, off)
    case Unlinking(size, reaped) => size == Size(c) && reaped == !c.i.alive && m == ZeroedTo(c, size)
    case Auditing(a) => m.disk == None && a == Certified(c, n)
    case Releasing => m.disk.Some? && exists e :: Purge.LeftBy(e, c.disk.value.bytes, m.disk.value.bytes)
    case _ => false
  }

  lemma WriteOnPath(c: Cell, n: nat, m: Cell, stage: Stage, out: Outcome, count: nat, m': Cell, next: Stage)
    requires c.disk.Some? && stage.Wiping? && stage.off < stage.size && OnPath(c, n, m, stage)
    requires ShredCell(m, n, stage, out, count) == Some((m', next))
    ensures OnPath(c, n, m', next)
  {
    var off, was := stage.off, c.disk.value.bytes;
    if out == Done {
      WipedOn(c, off, off + Chunk(off, |was|));
      Purge.NextBlock(off, |was|);
    } else {
      WipedOn(c, off, off + count);
      assert Purge.LeftBy(Purge.WriteFailed(off), was, ZeroRange(was, 0, off + count));
    }
  }

  lemma StepOnPath(c: Cell, n: nat, m: Cell, stage: Stage, out: Outcome, count: nat, m': Cell, next: Stage)
    requires c.disk.Some? && OnPath(c, n, m, stage) && ShredCell(m, n, stage, out, count) == Some((m', next))
    ensures OnPath(c, n, m', next)
  {
    if stage.Wiping? && stage.off < stage.size {
      WriteOnPath(c, n, m, stage, out, count, m', next);
    } else {
      var was := c.disk.value.bytes;
      assert Purge.LeftBy(Purge.OpenFailed, was, was);
      assert Purge.LeftBy(Purge.RemoveFailed, was, ZeroRange(was, 0, |was|));
      NothingWiped(c);
    }
  }

  lemma {:induction false} StepsOnPath(c: Cell, n: nat, steps: seq<(Outcome, nat)>, m: Cell, stage: Stage)
    requires c.disk.Some? && ShredAll(c, n, steps) == Some((m, stage))
    ensures OnPath(c, n, m, stage)
    decreases |steps|
  {
    if steps != [] {
      var before, last := steps[..|steps| - 1], steps[|steps| - 1];
      var r := ShredAll(c, n, before).value;
      StepsOnPath(c, n, before, r.0, r.1);
      StepOnPath(c, n, r.0, r.1, last.0, last.1, m, stage);
    }
  }

  /** Without the file, opening fails, and that is all. */
  lemma {:induction false} NoFileNoPurge(c: Cell, n: nat, steps: seq<(Outcome, nat)>, m: Cell, stage: Stage)
    requires c.disk.None? && steps != [] && ShredAll(c, n, steps) == Some((m, stage))
    ensures |steps| == 1 && steps[0].0 != Done && m == c && stage == Releasing
    decreases |steps|
  {
    var before := steps[..|steps| - 1];
    if before != [] {
      var r := ShredAll(c, n, before).value;
      NoFileNoPurge(c, n, before, r.0, r.1);
    }
  }

  ghost predicate FailsLeaving(c: Cell, n: nat, now: seq<byte>) {
    exists steps: seq<(Outcome, nat)>, m: Cell ::
      ShredAll(c, n, steps) == Some((m, Releasing)) && m.disk.Some? && m.disk.value.bytes == now
  }

  ghost predicate SucceedsWith(c: Cell, n: nat, a: Audit) {
    exists steps: seq<(Outcome, nat)>, m: Cell :: ShredAll(c, n, steps) == Some((m, Auditing(a))) && m.disk == None
  }

  /** While only the shredder writes to an overlay, whatever the guest wrote before, the
      method and the protocol's steps leave the same: a failure exactly what some error
      of the method may leave, and a success exactly the audit of the whole file zeroed,
      with the name gone. */
  lemma MethodIsProtocol(c: Cell, n: nat, now: seq<byte>, a: Audit)
    requires c.disk.Some?
    ensures FailsLeaving(c, n, now) <==> exists e :: Purge.LeftBy(e, c.disk.value.bytes, now)
    ensures SucceedsWith(c, n, a) <==> a == Certified(c, n)
    ensures Certified(c, n).bytes == ZeroRange(c.disk.value.bytes, 0, Size(c)) && AllZero(Certified(c, n).bytes)
    ensures forall o :: o in Certified(c, n).dirty ==> o in c.disk.value.dirty && o >= Size(c)
  {
    if e :| Purge.LeftBy(e, c.disk.value.bytes, now) {
      var steps, z := FailureIsReached(c, n, e, now);
      assert ShredError(ZeroedTo(c, z)).0.disk.value.bytes == now;
      assert FailsLeaving(c, n, now);
    }
    if FailsLeaving(c, n, now) {
      var steps: seq<(Outcome, nat)>, m: Cell :|
        ShredAll(c, n, steps) == Some((m, Releasing)) && m.disk.Some? && m.disk.value.bytes == now;
      StepsOnPath(c, n, steps, m, Releasing);
    }
    var done, c' := SuccessIsReached(c, n);
    if SucceedsWith(c, n, a) {
      var steps: seq<(Outcome, nat)>, m: Cell :|
        ShredAll(c, n, steps) == Some((m, Auditing(a))) && m.disk == None;
      StepsOnPath(c, n, steps, m, Auditing(a));
    }
  }
}
