/** The names the daemon derives from an instance number. */
module Naming {
  import opened Text
  import opened Lifecycle
  import opened LifecycleInv
  import opened LifecycleTheorems
  import opened LifecycleCells
  import opened LifecycleLimits

  function InstanceId(n: nat): string { "inst-" + Decimal(n) }

  /** Linux interface names hold at most 15 characters. */
  const IFNAME_MAX: nat := 15

  function Truncate(s: string, max: nat): string { if |s| > max then s[..max] else s }

  function TapName(n: nat): string { Truncate("dvr-t-" + InstanceId(n), IFNAME_MAX) }

  function OverlayPath(dir: string, n: nat): string { dir + "/dvr-fc-overlay-" + InstanceId(n) + ".ext4" }

  /** The number that the first four digits of `n` spell. */
  function Head(n: nat): (h: nat)
    ensures h < 10000
  {
    if n < 10000 then n else Head(n / 10)
  }

  lemma DecimalLength(n: nat)
    requires n < 10000
    ensures |Decimal(n)| <= 4 && (n >= 1000 ==> |Decimal(n)| == 4)
  {
    assert n / 10 < 1000 && n / 10 / 10 < 100 && n / 10 / 10 / 10 < 10;
    if n >= 10 {
      assert |Decimal(n)| == |Decimal(n / 10)| + 1;
      if n / 10 >= 10 {
        assert |Decimal(n / 10)| == |Decimal(n / 10 / 10)| + 1;
        if n / 10 / 10 >= 10 { assert |Decimal(n / 10 / 10)| == |Decimal(n / 10 / 10 / 10)| + 1; }
      }
    }
  }

  lemma {:induction false} DecimalHead(n: nat)
    ensures |Decimal(n)| <= 4 <==> n < 10000
    ensures n >= 10000 ==> Decimal(n)[..4] == Decimal(Head(n))
  {
    if n < 10000 {
      DecimalLength(n);
    } else {
      DecimalHead(n / 10);
      var s := Decimal(n);
      assert s[..|s| - 1] == Decimal(n / 10);
      if n / 10 < 10000 {
        DecimalLength(n / 10);
        assert s[..4] == Decimal(n / 10);
      } else {
        assert s[..4] == Decimal(n / 10)[..4];
      }
    }
  }

  /** The truncated name keeps exactly the first four digits. */
  lemma TapNameIsHead(n: nat)
    ensures TapName(n) == "dvr-t-inst-" + Decimal(Head(n))
  {
    DecimalHead(n);
    var prefix := "dvr-t-inst-";
    assert "dvr-t-" + InstanceId(n) == prefix + Decimal(n);
    assert |Decimal(n)| > 4 ==> (prefix + Decimal(n))[..15] == prefix + Decimal(n)[..4];
  }

  /** Two instances share a TAP name exactly if their first four digits agree. */
  lemma SameTapName(n: nat, m: nat)
    ensures TapName(n) == TapName(m) <==> Head(n) == Head(m)
  {
    TapNameIsHead(n);
    TapNameIsHead(m);
    var p := "dvr-t-inst-";
    if TapName(n) == TapName(m) {
      assert (p + Decimal(Head(n)))[|p|..] == Decimal(Head(n));
      assert (p + Decimal(Head(m)))[|p|..] == Decimal(Head(m));
      DecimalInjective(Head(n), Head(m));
    }
  }

  /** The TAP names of the first `bound` ids are distinct exactly up to 9999 ids. */
  lemma TapNamesDistinct(bound: nat)
    ensures InjectiveUpTo(TapName, bound) <==> bound <= 9999
  {
    if bound <= 9999 {
      forall i: nat, j: nat | 1 <= i < j <= bound ensures TapName(i) != TapName(j) { SameTapName(i, j); }
    } else {
      SameTapName(1000, 10000);
      assert Head(10000) == Head(1000);
      assert 1 <= 1000 < 10000 <= bound && TapName(1000) == TapName(10000);
    }
  }

  /** The first two ids that share a name. */
  lemma FirstCollision()
    ensures TapName(1000) == TapName(10000) == "dvr-t-inst-1000"
  {
    TapNameIsHead(1000);
    SameTapName(1000, 10000);
    assert Head(10000) == Head(1000) && Decimal(1000) == "1000" by {
      assert Decimal(1) == "1" && Decimal(10) == "10" && Decimal(100) == "100";
    }
  }

  lemma InstanceIdInjective(n: nat, m: nat)
    requires InstanceId(n) == InstanceId(m)
    ensures n == m
  {
    assert InstanceId(n)[5..] == Decimal(n) && InstanceId(m)[5..] == Decimal(m);
    DecimalInjective(n, m);
  }

  /** Overlay paths are not truncated, and never collide. */
  lemma OverlayPathInjective(dir: string, n: nat, m: nat)
    requires OverlayPath(dir, n) == OverlayPath(dir, m)
    ensures n == m
  {
    var p := dir + "/dvr-fc-overlay-";
    var s, t := OverlayPath(dir, n), OverlayPath(dir, m);
    assert s[|p|..|s| - 5] == InstanceId(n) && t[|p|..|t| - 5] == InstanceId(m);
    InstanceIdInjective(n, m);
  }

  /** The ids of the first `k` creates are pairwise distinct exactly up to 2^64
      creates, where the counter wraps. */
  lemma IssuedIdsDistinct(k: nat)
    ensures WRAP == 18446744073709551616
    ensures (forall i: nat, j: nat :: 1 <= i < j <= k ==> InstanceId(i % WRAP) != InstanceId(j % WRAP)) <==> k <= WRAP
  {
    if k <= WRAP {
      forall i: nat, j: nat | 1 <= i < j <= k ensures InstanceId(i % WRAP) != InstanceId(j % WRAP) {
        if InstanceId(i % WRAP) == InstanceId(j % WRAP) { InstanceIdInjective(i % WRAP, j % WRAP); }
      }
    } else {
      var i, j: nat := 1, WRAP + 1;
      assert InstanceId(i % WRAP) == InstanceId(j % WRAP);
    }
  }

  /** How the overlay of an instance is called. */
  lemma OverlayIsSpelled(dir: string, n: nat)
    ensures OverlayPath(dir, n) == dir + "/dvr-fc-overlay-inst-" + Decimal(n) + ".ext4"
  {
    assert "/dvr-fc-overlay-" + "inst-" == "/dvr-fc-overlay-inst-";
    assert dir + "/dvr-fc-overlay-" + ("inst-" + Decimal(n)) == dir + ("/dvr-fc-overlay-" + "inst-") + Decimal(n);
  }

  // ------------------------------------------------------------- the daemon's own names

  function DaemonNames(dir: string): Names { Names(TapName, (n: nat) => OverlayPath(dir, n)) }

  lemma DaemonOverlays(dir: string)
    ensures Injective(DaemonNames(dir).overlay)
  {
    var f := DaemonNames(dir).overlay;
    forall i: nat, j: nat | f(i) == f(j) ensures i == j { OverlayPathInjective(dir, i, j); }
  }

  /** With the daemon's own names, no command ever removes another instance's TAP
      in any run with at most `bound` creates, exactly if that is at most 9999. */
  lemma DaemonOwnLinksOnly(dir: string, bound: nat)
    requires bound < WRAP
    ensures (forall s0, acts, s, a ::
               Run(DaemonNames(dir), s0, acts, s) && Creates(acts) <= bound ==> !Robs(DaemonNames(dir), s, a))
            <==> bound <= 9999
  {
    DaemonOverlays(dir);
    OwnLinksOnly(DaemonNames(dir), bound);
    TapNamesDistinct(bound);
    assert InjectiveUpTo(DaemonNames(dir).tap, bound) <==> InjectiveUpTo(TapName, bound);
  }

  /** And no instance is answered 204 twice exactly up to the same bound. */
  lemma DaemonAnswersOnce(dir: string, bound: nat)
    requires bound < WRAP
    ensures (forall s0, acts, s, n ::
               Run(DaemonNames(dir), s0, acts, s) && Creates(acts) <= bound ==> !AnsweredTwice(s, n))
            <==> bound <= 9999
  {
    DaemonOverlays(dir);
    AnsweredOnce(DaemonNames(dir), bound);
    TapNamesDistinct(bound);
    assert InjectiveUpTo(DaemonNames(dir).tap, bound) <==> InjectiveUpTo(TapName, bound);
  }

  /** Conservation for the daemon's own names, below ten thousand creates. */
  lemma DaemonConserves(dir: string, s0: State, acts: seq<Action>, s: State)
    requires Run(DaemonNames(dir), s0, acts, s) && Creates(acts) <= 9999
    ensures s.links == s0.links + HeldTaps(DaemonNames(dir), s) && s0.links !! HeldTaps(DaemonNames(dir), s)
    ensures s.disks.Keys == s.strayFiles + HeldOverlays(DaemonNames(dir), s) && s.strayFiles <= s0.disks.Keys
    ensures forall n :: n in s.inst && (HoldsTap(s.inst[n]) || HoldsDisk(s.inst[n])) ==>
              InFlight(s.inst[n]) || s.inst[n].registered || s.inst[n].tapResidue || s.inst[n].diskResidue
  {
    var names := DaemonNames(dir);
    DaemonOverlays(dir);
    TapNamesDistinct(9999);
    assert InjectiveUpTo(names.tap, Creates(acts)) by { assert InjectiveUpTo(TapName, 9999); }
    TapConservation(names, s0, acts, s);
    OverlayConservation(names, s0, acts, s);
  }
}
