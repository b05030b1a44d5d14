/** Calls of `SetupBridge` on one host, overlapping in any way. */
module BridgeCalls {
  import opened Common
  import opened Firewall
  import opened Bridge

  /** What a call does next: look for the bridge, run command number `k`, or nothing. */
  datatype Pc = Looking | At(k: nat) | Returned(ok: bool)

  /** The host and the calls on it. The last two fields are histories of the call that
      created the bridge: how many of its commands are behind it or took effect, and
      which of its deletions had no effect. */
  datatype Host = Host(net: Net, calls: map<nat, Pc>, passed: nat, missed: set<Command>)

  datatype Action = Begin(c: nat) | Look(c: nat, shown: bool) | Run(c: nat, out: Outcome)

  const LAST: nat := 11

  function Fresh(n0: Net): Host { Host(n0, map[], 0, {}) }

  predicate Runs(h: Host, c: nat) { c in h.calls && h.calls[c].At? && h.calls[c].k < LAST }

  /** The deletions: their errors are ignored. */
  predicate Ignored(k: nat) { k == 3 || k == 5 || k == 7 || k == 9 }

  lemma IgnoredAreDeletions(subnet: string, k: nat)
    requires k < LAST
    ensures Ignored(k) <==> Commands(subnet)[k].DeleteNat? || Commands(subnet)[k].DeleteRule?
  {
  }

  /** Where a call is after command `k`. */
  function After(k: nat, ok: bool): Pc {
    if !ok then Returned(false) else if k + 1 < LAST then At(k + 1) else Returned(true)
  }

  /** One step of one call; None when it cannot happen: only a bridge that is there is
      shown, and a second one of its name cannot be added. */
  function Step(subnet: string, h: Host, a: Action): Option<Host> {
    match a
    case Begin(c) => if c in h.calls then None else Some(h.(calls := h.calls[c := Looking]))
    case Look(c, shown) =>
      if c !in h.calls || h.calls[c] != Looking || (shown && !h.net.bridge) then None
      else Some(h.(calls := h.calls[c := if shown then Returned(true) else At(0)]))
    case Run(c, out) =>
      if !Runs(h, c) || (h.calls[c].k == 0 && h.net.bridge && out != Refused) then None
      else
        var k := h.calls[c].k;
        var cmd := Commands(subnet)[k];
        Some(Host(if out != Refused then Effect(h.net, cmd, {}) else h.net,
                  h.calls[c := After(k, out == Done || Ignored(k))],
                  if out != Refused || Ignored(k) then k + 1 else h.passed,
                  if out == Refused && Ignored(k) then h.missed + {cmd} else h.missed))
  }

  function Exec(subnet: string, h: Host, acts: seq<Action>): Option<Host> {
    if acts == [] then Some(h)
    else
      match Exec(subnet, h, acts[..|acts| - 1])
      case None => None
      case Some(m) => Step(subnet, m, acts[|acts| - 1])
  }

  // ------------------------------------------------------------- one sequential execution

  predicate Working(h: Host, c: nat) { Runs(h, c) && h.calls[c].k > 0 }

  /** Whatever overlaps, the host is as if the creating call had run alone. */
  ghost predicate Inv(n0: Net, subnet: string, h: Host) {
    && h.passed <= LAST
    && h.net == AfterFirst(n0, Commands(subnet), h.passed, h.missed)
    && (h.net.bridge <==> n0.bridge || h.passed > 0) && (n0.bridge ==> h.passed == 0)
    && (forall i :: 0 <= i < LAST && (h.passed <= i || !Ignored(i)) ==> Commands(subnet)[i] !in h.missed)
    && (forall c :: c in h.calls && h.calls[c].At? ==> Runs(h, c))
    && (forall c :: Working(h, c) ==> h.calls[c].k == h.passed)
    && (forall c, d :: Working(h, c) && Working(h, d) ==> c == d)
    && (forall c :: c in h.calls && h.calls[c] == Returned(true) ==> h.net.bridge)
  }

  lemma DistinctCommands(subnet: string, i: nat, j: nat)
    requires i < j < LAST
    ensures Commands(subnet)[i] != Commands(subnet)[j]
  {
  }

  /** Command `k` after the first `k`, on the host alone. */
  lemma NextCommand(n0: Net, subnet: string, k: nat, missed: set<Command>, out: Outcome)
    requires k < LAST && forall i :: k <= i < LAST ==> Commands(subnet)[i] !in missed
    requires out != Refused || Ignored(k)
    ensures var cs, n := Commands(subnet), AfterFirst(n0, Commands(subnet), k, missed);
            var missed' := if out == Refused then missed + {cs[k]} else missed;
            && AfterFirst(n0, cs, k + 1, missed') == (if out != Refused then Effect(n, cs[k], {}) else n)
            && forall i :: 0 <= i < LAST && i != k ==> (cs[i] in missed' <==> cs[i] in missed)
  {
    var cs := Commands(subnet);
    IgnoredAreDeletions(subnet, k);
    var missed' := if out == Refused then missed + {cs[k]} else missed;
    forall i | 0 <= i < LAST && i != k ensures cs[i] != cs[k] {
      if i < k { DistinctCommands(subnet, i, k); } else { DistinctCommands(subnet, k, i); }
    }
    MissedLater(n0, cs, k, missed, missed');
  }

  lemma BridgeStays(n: Net, c: Command)
    ensures Effect(n, c, {}).bridge <==> n.bridge || c == AddBridge
  {
  }

  /** A command that ran to its end, or a deletion that failed, moves the one execution on. */
  lemma RunPasses(n0: Net, subnet: string, h: Host, c: nat, out: Outcome, h': Host)
    requires Inv(n0, subnet, h) && Step(subnet, h, Run(c, out)) == Some(h')
    requires out != Refused || Ignored(h.calls[c].k)
    ensures Inv(n0, subnet, h')
  {
    var k := h.calls[c].k;
    assert k == h.passed by {
      if k > 0 { assert Working(h, c); }
    }
    NextCommand(n0, subnet, k, h.missed, out);
    BridgeStays(h.net, Commands(subnet)[k]);
    assert Commands(subnet)[0] == AddBridge;
    assert k > 0 ==> Working(h, c);
    assert forall d :: d != c && Working(h', d) ==> Working(h, d);
  }

  lemma InvStep(n0: Net, subnet: string, h: Host, a: Action, h': Host)
    requires Inv(n0, subnet, h) && Step(subnet, h, a) == Some(h')
    ensures Inv(n0, subnet, h')
  {
    if a.Run? && (a.out != Refused || Ignored(h.calls[a.c].k)) {
      RunPasses(n0, subnet, h, a.c, a.out, h');
    } else {
      assert h'.net == h.net && h'.passed == h.passed && h'.missed == h.missed;
      forall d | Working(h', d) ensures Working(h, d) && h'.calls[d] == h.calls[d] {
      }
    }
  }

  lemma {:induction false} RunKeeps(n0: Net, subnet: string, acts: seq<Action>, h: Host)
    requires Exec(subnet, Fresh(n0), acts) == Some(h)
    ensures Inv(n0, subnet, h)
    decreases |acts|
  {
    if acts == [] {
    } else {
      var m := Exec(subnet, Fresh(n0), acts[..|acts| - 1]).value;
      RunKeeps(n0, subnet, acts[..|acts| - 1], m);
      InvStep(n0, subnet, m, acts[|acts| - 1], h);
    }
  }

  // ------------------------------------------------------------- when tenants are isolated

  /** Action `a` is command `k` of a call, and takes effect. */
  predicate TakesEffect(h: Host, a: Action, k: nat) {
    a.Run? && Runs(h, a.c) && h.calls[a.c].k == k && a.out != Refused
  }

  /** Command `k` of some call took effect in the run. */
  predicate TookEffect(subnet: string, n0: Net, acts: seq<Action>, k: nat) {
    acts != []
    && (|| TookEffect(subnet, n0, acts[..|acts| - 1], k)
        || match Exec(subnet, Fresh(n0), acts[..|acts| - 1])
           case None => false
           case Some(m) => TakesEffect(m, acts[|acts| - 1], k))
  }

  /** That is how far the one execution has come, but for deletions that had none. */
  lemma {:induction false} PassedExactly(n0: Net, subnet: string, acts: seq<Action>, h: Host, k: nat)
    requires Exec(subnet, Fresh(n0), acts) == Some(h) && k < LAST
    ensures TookEffect(subnet, n0, acts, k) <==> h.passed > k && Commands(subnet)[k] !in h.missed
    decreases |acts|
  {
    if acts == [] {
    } else {
      var m, a := Exec(subnet, Fresh(n0), acts[..|acts| - 1]).value, acts[|acts| - 1];
      RunKeeps(n0, subnet, acts[..|acts| - 1], m);
      PassedExactly(n0, subnet, acts[..|acts| - 1], m, k);
      StepPasses(n0, subnet, m, a, h, k);
    }
  }

  lemma StepPasses(n0: Net, subnet: string, m: Host, a: Action, h: Host, k: nat)
    requires Inv(n0, subnet, m) && Step(subnet, m, a) == Some(h) && k < LAST
    ensures h.passed > k && Commands(subnet)[k] !in h.missed <==>
            (m.passed > k && Commands(subnet)[k] !in m.missed) || TakesEffect(m, a, k)
  {
    if a.Run? {
      var j := m.calls[a.c].k;
      assert j > 0 ==> Working(m, a.c);
      if j < k { DistinctCommands(subnet, j, k); }
      if k < j { DistinctCommands(subnet, k, j); }
    }
  }

  /** In every interleaving of any number of calls, each command taking effect or not
      and reporting what it likes, and whatever rules the host held before, the
      isolation rule is there exactly if the last command of the call that created the
      bridge has taken effect, or the host held it and its deletion, if that took
      effect, left a copy. The bridge is there exactly if it was, or the first command
      of a call has taken effect. */
  lemma IsolatedIffFinished(n0: Net, subnet: string, acts: seq<Action>, h: Host)
    requires Exec(subnet, Fresh(n0), acts) == Some(h)
    ensures Isolate in h.net.forward <==> Isolated(subnet, n0, acts)
    ensures h.net.bridge <==> n0.bridge || TookEffect(subnet, n0, acts, 0)
    ensures forall c :: c in h.calls && h.calls[c] == Returned(true) ==> h.net.bridge
  {
    RunKeeps(n0, subnet, acts, h);
    PassedExactly(n0, subnet, acts, h, LAST - 1);
    PassedExactly(n0, subnet, acts, h, LAST - 2);
    PassedExactly(n0, subnet, acts, h, 0);
    IsolationComesLast(n0, subnet, h.passed, h.missed);
    assert Commands(subnet)[LAST - 2] == DeleteRule(Isolate);
  }

  /** The append of the isolation rule took effect, or more copies were there than the
      deletion before it removed. */
  predicate Isolated(subnet: string, n0: Net, acts: seq<Action>) {
    || TookEffect(subnet, n0, acts, LAST - 1)
    || Count(n0.forward, Isolate) > (if TookEffect(subnet, n0, acts, LAST - 2) then 1 else 0)
  }

  lemma FinishedNet(n0: Net, subnet: string, acts: seq<Action>, h: Host)
    requires Exec(subnet, Fresh(n0), acts) == Some(h) && TookEffect(subnet, n0, acts, LAST - 1)
    ensures h.net == AfterFirst(n0, Commands(subnet), LAST, h.missed)
  {
    RunKeeps(n0, subnet, acts, h);
    PassedExactly(n0, subnet, acts, h, LAST - 1);
  }

  /** Once that command has taken effect, the bridge is up with its address and its NAT
      rule, and the chain is reinstalled. */
  lemma FinishedReinstalls(n0: Net, subnet: string, acts: seq<Action>, h: Host)
    requires Exec(subnet, Fresh(n0), acts) == Some(h) && TookEffect(subnet, n0, acts, LAST - 1)
    ensures h.net.forward == ReinstallUnless(n0.forward, MissedRules(h.missed))
    ensures h.net.bridge && h.net.addressed && h.net.raised && subnet in h.net.nat_
  {
    FinishedNet(n0, subnet, acts, h);
    CompleteForward(n0, subnet, h.missed);
  }

  /** Once that command has taken effect, and whatever rules were there before, every
      packet from a guest to a guest is dropped, over any trace of traffic, but for error
      reports on what the receiver has opened to the outside. */
  lemma FinishedMeansIsolated(
    n0: Net, subnet: string, acts: seq<Action>, h: Host, foreign: (nat, Tracked, Packet) -> bool, policy: Target,
    guest: Endpoint -> bool, t0: Tracked, es: seq<Event>, p: Packet)
    requires Exec(subnet, Fresh(n0), acts) == Some(h) && TookEffect(subnet, n0, acts, LAST - 1)
    requires NoForeignBridging(foreign, n0.forward) && Separated(guest, t0)
    requires forall e :: e in es ==> Routed(guest, e)
    requires Routed(guest, Forward(p)) && p.fromBridge && p.toBridge
    ensures var t := TrackAll(foreign, policy, h.net.forward, t0, es);
            Verdict(foreign, policy, h.net.forward, t, p) == Drop || ReportsOutside(guest, t, p)
  {
    FinishedReinstalls(n0, subnet, acts, h);
    TenantsAreIsolated(foreign, policy, n0.forward, MissedRules(h.missed), guest, t0, es, p);
  }

  // ------------------------------------------------------------- success without isolation

  lemma OneMore(subnet: string, h: Host, acts: seq<Action>, m: Host, a: Action, h': Host)
    requires Exec(subnet, h, acts) == Some(m) && Step(subnet, m, a) == Some(h')
    ensures Exec(subnet, h, acts + [a]) == Some(h')
  {
    var longer := acts + [a];
    assert longer[..|longer| - 1] == acts;
  }

  /** Call 0 creates the bridge and has run its first `k` commands. */
  lemma {:induction false} RunFirst(n0: Net, subnet: string, k: nat) returns (acts: seq<Action>, h: Host)
    requires !n0.bridge && k < LAST
    ensures Exec(subnet, Fresh(n0), acts) == Some(h) && h.calls == map[0 := At(k)] && h.passed == k && h.missed == {}
  {
    if k == 0 {
      var m0 := Fresh(n0);
      var m1 := Step(subnet, m0, Begin(0)).value;
      OneMore(subnet, m0, [], m0, Begin(0), m1);
      h := Step(subnet, m1, Look(0, false)).value;
      acts := [] + [Begin(0)] + [Look(0, false)];
      OneMore(subnet, m0, [] + [Begin(0)], m1, Look(0, false), h);
      assert h.calls == map[0 := At(0)];
    } else {
      var before, m := RunFirst(n0, subnet, k - 1);
      RunKeeps(n0, subnet, before, m);
      acts, h := before + [Run(0, Done)], Step(subnet, m, Run(0, Done)).value;
      OneMore(subnet, Fresh(n0), before, m, Run(0, Done), h);
      assert h.calls == map[0 := At(k)];
    }
  }

  /** On a host that did not hold the rule: wherever the creating call is between its
      first and its last command, another call can return success, and tenants are not
      isolated. */
  lemma SuccessBeforeIsolation(n0: Net, subnet: string, k: nat) returns (acts: seq<Action>, h: Host)
    requires !n0.bridge && Isolate !in n0.forward && 1 <= k < LAST
    ensures Exec(subnet, Fresh(n0), acts) == Some(h)
    ensures h.calls == map[0 := At(k), 1 := Returned(true)] && Isolate !in h.net.forward
  {
    var first, m := RunFirst(n0, subnet, k);
    RunKeeps(n0, subnet, first, m);
    acts, h := LookAgain(n0, subnet, k, first, m);
    CountIn(n0.forward, Isolate);
    IsolationComesLast(n0, subnet, m.passed, m.missed);
  }

  /** The creating call can fail for good at any command and leave the same to all
      later calls. */
  lemma InterruptedSetupIsNotIsolated(n0: Net, subnet: string, k: nat) returns (acts: seq<Action>, h: Host)
    requires !n0.bridge && Isolate !in n0.forward && 1 <= k < LAST && !Ignored(k)
    ensures Exec(subnet, Fresh(n0), acts) == Some(h)
    ensures h.calls == map[0 := Returned(false), 1 := Returned(true)] && Isolate !in h.net.forward
  {
    var first, m := RunFirst(n0, subnet, k);
    RunKeeps(n0, subnet, first, m);
    CountIn(n0.forward, Isolate);
    IsolationComesLast(n0, subnet, k, m.missed);
    acts, h := FailAndSucceed(n0, subnet, k, first, m);
  }

  /** The creating call is refused its next command, and another call sees the bridge. */
  lemma FailAndSucceed(n0: Net, subnet: string, k: nat, first: seq<Action>, m: Host)
    returns (acts: seq<Action>, h: Host)
    requires Exec(subnet, Fresh(n0), first) == Some(m) && m.calls == map[0 := At(k)] && m.net.bridge
    requires 1 <= k < LAST && !Ignored(k)
    ensures Exec(subnet, Fresh(n0), acts) == Some(h)
    ensures h.calls == map[0 := Returned(false), 1 := Returned(true)] && h.net == m.net
  {
    var second, m' := LookAgain(n0, subnet, k, first, m);
    acts, h := second + [Run(0, Refused)], m'.(calls := m'.calls[0 := Returned(false)]);
    OneMore(subnet, Fresh(n0), second, m', Run(0, Refused), h);
  }

  /** Another call sees the bridge and returns. */
  lemma LookAgain(n0: Net, subnet: string, k: nat, first: seq<Action>, m: Host) returns (acts: seq<Action>, h: Host)
    requires Exec(subnet, Fresh(n0), first) == Some(m) && m.calls == map[0 := At(k)] && m.net.bridge
    ensures Exec(subnet, Fresh(n0), acts) == Some(h)
    ensures h == m.(calls := map[0 := At(k), 1 := Returned(true)])
  {
    var m' := m.(calls := m.calls[1 := Looking]);
    OneMore(subnet, Fresh(n0), first, m, Begin(1), m');
    acts, h := first + [Begin(1)] + [Look(1, true)], m'.(calls := m'.calls[1 := Returned(true)]);
    OneMore(subnet, Fresh(n0), first + [Begin(1)], m', Look(1, true), h);
  }

  /** A host that held the isolation rule can lose it: the creating call deletes it, and
      fails before it appends it again, for good if the command is refused. Until then
      tenants were isolated; now another call returns success without. */
  lemma SetupWithdrawsIsolation(n0: Net, subnet: string) returns (acts: seq<Action>, h: Host)
    requires !n0.bridge && Count(n0.forward, Isolate) == 1
    ensures Isolate in n0.forward
    ensures Exec(subnet, Fresh(n0), acts) == Some(h)
    ensures h.calls == map[0 := Returned(false), 1 := Returned(true)] && Isolate !in h.net.forward
  {
    CountIn(n0.forward, Isolate);
    var first, m := RunFirst(n0, subnet, LAST - 1);
    RunKeeps(n0, subnet, first, m);
    IsolationComesLast(n0, subnet, LAST - 1, {});
    acts, h := FailAndSucceed(n0, subnet, LAST - 1, first, m);
  }

  /** And it can report failure although its last command took effect. */
  lemma FailureWithIsolation(n0: Net, subnet: string) returns (acts: seq<Action>, h: Host)
    requires !n0.bridge
    ensures Exec(subnet, Fresh(n0), acts) == Some(h)
    ensures h.calls == map[0 := Returned(false)] && Isolate in h.net.forward
  {
    var first, m := RunFirst(n0, subnet, LAST - 1);
    assert Commands(subnet)[LAST - 1] == AppendRule(Isolate);
    acts, h := first + [Run(0, Interrupted)], Step(subnet, m, Run(0, Interrupted)).value;
    OneMore(subnet, Fresh(n0), first, m, Run(0, Interrupted), h);
    assert h.net.forward == m.net.forward + [Isolate];
  }

  /** The host lets every command work whose failure is not ignored: the three that
      make the bridge, and the four that append a rule. */
  predicate AllMandatory(outs: nat -> Outcome) { CreationWorks(outs) && RulesWork(outs) }

  predicate CreationWorks(outs: nat -> Outcome) { outs(0) == Done && outs(1) == Done && outs(2) == Done }

  predicate RulesWork(outs: nat -> Outcome) {
    outs(4) == Done && outs(6) == Done && outs(8) == Done && outs(10) == Done
  }

  // ------------------------------------------------------------- the method

  /** linuxNetworkManager: its host, with any other calls running beside. */
  class NetworkManager {
    const bridgeIP: string
    const subnet: string
    var host: Host
    ghost const n0: Net
    ghost var trace: seq<Action>

    ghost predicate Valid()
      reads this
    {
      subnet == DeriveSubnet(bridgeIP) && Exec(subnet, Fresh(n0), trace) == Some(host)
    }

    constructor (bridgeIP: string, net: Net)
      ensures Valid() && this.bridgeIP == bridgeIP && n0 == net && host == Fresh(net) && trace == []
    {
      this.bridgeIP := bridgeIP;
      subnet := DeriveSubnet(bridgeIP);
      host := Fresh(net);
      n0 := net;
      trace := [];
    }

    method Do(a: Action)
      requires Valid() && Step(subnet, host, a).Some?
      modifies this
      ensures Valid() && trace == old(trace) + [a] && Some(host) == Step(subnet, old(host), a)
    {
      ghost var before := host;
      host := Step(subnet, host, a).value;
      OneMore(subnet, Fresh(n0), trace, before, a, host);
      trace := trace + [a];
    }

    /** Any number of steps of other calls. */
    method Others(me: nat)
      requires Valid()
      modifies this
      ensures Valid() && old(trace) <= trace && (old(host.net.bridge) ==> host.net.bridge)
      ensures me in host.calls <==> me in old(host.calls)
      ensures me in host.calls ==> host.calls[me] == old(host.calls[me])
    {
      var rounds: nat := *;
      while rounds > 0
        invariant Valid() && old(trace) <= trace && (old(host.net.bridge) ==> host.net.bridge)
        invariant me in host.calls <==> me in old(host.calls)
        invariant me in host.calls ==> host.calls[me] == old(host.calls[me])
      {
        var a: Action := *;
        if a.c != me && Step(subnet, host, a).Some? {
          BridgeRemains(subnet, host, a);
          Do(a);
        }
        rounds := rounds - 1;
      }
    }

    /** Command `k` of call `me`, which the host answers with `out`; only a bridge that
        is there already stands in the way. */
    method Next(me: nat, k: nat, out: Outcome) returns (ok: bool)
      requires Valid() && me in host.calls && host.calls[me] == At(k) && k < LAST
      modifies this
      ensures Valid() && old(trace) <= trace && me in host.calls && host.calls[me] == After(k, ok)
      ensures Ignored(k) ==> ok
      ensures !Ignored(k) && ok ==> out == Done && TookEffect(subnet, n0, trace, k)
      ensures !ok && out == Done ==> k == 0 && host.net.bridge
    {
      Others(me);
      var answer := if k == 0 && host.net.bridge then Refused else out;
      ok := answer == Done || Ignored(k);
      ghost var before := trace;
      Do(Run(me, answer));
      assert trace[..|trace| - 1] == before;
    }

    /** SetupBridge. `works` says whether the host can show a link that is there, and
        `outs` how it answers each command. The call returns early exactly if it is
        shown the bridge, as it is if the bridge was there before; otherwise it succeeds
        only if all its mandatory commands do, and fails without any of them failing
        only if another call was first to add the bridge. Success of either kind says no
        more of the isolation rule than whether the creating call has come to its end. */
    method SetupBridge(me: nat, works: bool, outs: nat -> Outcome) returns (ok: bool, seen: bool)
      requires Valid() && me !in host.calls
      modifies this
      ensures Valid() && old(trace) <= trace && me in host.calls && host.calls[me] == Returned(ok)
      ensures (works && old(host.net.bridge) ==> seen) && (seen ==> ok && works)
      ensures ok ==> host.net.bridge
      ensures ok && !seen ==> TookEffect(subnet, n0, trace, LAST - 1) && AllMandatory(outs)
      ensures !ok && AllMandatory(outs) ==> host.net.bridge
      ensures Isolate in host.net.forward <==> Isolated(subnet, n0, trace)
    {
      ok, seen := Attempt(me, works, outs);
      RunKeeps(n0, subnet, trace, host);
      IsolatedIffFinished(n0, subnet, trace, host);
    }

    /** The check and the commands, as the code branches. */
    method Attempt(me: nat, works: bool, outs: nat -> Outcome) returns (ok: bool, seen: bool)
      requires Valid() && me !in host.calls
      modifies this
      ensures Valid() && old(trace) <= trace && me in host.calls && host.calls[me] == Returned(ok)
      ensures (works && old(host.net.bridge) ==> seen) && (seen ==> ok && works)
      ensures ok && !seen ==> TookEffect(subnet, n0, trace, LAST - 1) && AllMandatory(outs)
      ensures !ok && AllMandatory(outs) ==> host.net.bridge
    {
      seen := LookForBridge(me, works);
      if seen { return true, true; }
      ok := CreateBridge(me, outs);
      if !ok { return; }
      ok := InstallRules(me, outs);
    }

    method LookForBridge(me: nat, works: bool) returns (seen: bool)
      requires Valid() && me !in host.calls
      modifies this
      ensures Valid() && old(trace) <= trace && me in host.calls
      ensures host.calls[me] == if seen then Returned(true) else At(0)
      ensures (works && old(host.net.bridge) ==> seen) && (seen ==> works && host.net.bridge)
    {
      Do(Begin(me));
      Others(me);
      seen := host.net.bridge && works;
      Do(Look(me, seen));
    }

    method CreateBridge(me: nat, outs: nat -> Outcome) returns (ok: bool)
      requires Valid() && me in host.calls && host.calls[me] == At(0)
      modifies this
      ensures Valid() && old(trace) <= trace && me in host.calls
      ensures host.calls[me] == if ok then At(3) else Returned(false)
      ensures ok ==> CreationWorks(outs)
      ensures !ok && CreationWorks(outs) ==> host.net.bridge
    {
      ok := Next(me, 0, outs(0));       // ip link add
      if !ok { return; }
      ok := Next(me, 1, outs(1));       // ip addr add
      if !ok { return; }
      ok := Next(me, 2, outs(2));       // ip link set up
    }

    method InstallRules(me: nat, outs: nat -> Outcome) returns (ok: bool)
      requires Valid() && me in host.calls && host.calls[me] == At(3)
      modifies this
      ensures Valid() && old(trace) <= trace && me in host.calls && host.calls[me] == Returned(ok)
      ensures ok ==> TookEffect(subnet, n0, trace, LAST - 1)
      ensures ok <==> RulesWork(outs)
    {
      ok := Refresh(me, 3, outs);       // NAT
      if !ok { return; }
      ok := Refresh(me, 5, outs);       // out of the bridge
      if !ok { return; }
      ok := SeparateGuests(me, outs);
    }

    method SeparateGuests(me: nat, outs: nat -> Outcome) returns (ok: bool)
      requires Valid() && me in host.calls && host.calls[me] == At(7)
      modifies this
      ensures Valid() && old(trace) <= trace && me in host.calls && host.calls[me] == Returned(ok)
      ensures ok ==> TookEffect(subnet, n0, trace, LAST - 1)
      ensures ok <==> outs(8) == Done && outs(10) == Done
    {
      ok := Refresh(me, 7, outs);       // replies to the bridge
      if !ok { return; }
      ok := Refresh(me, 9, outs);       // bridge to bridge
    }

    /** Delete a rule, whether or not it is there, then append it. */
    method Refresh(me: nat, k: nat, outs: nat -> Outcome) returns (ok: bool)
      requires Valid() && me in host.calls && host.calls[me] == At(k) && k in {3, 5, 7, 9}
      modifies this
      ensures Valid() && old(trace) <= trace && me in host.calls && host.calls[me] == After(k + 1, ok)
      ensures ok ==> TookEffect(subnet, n0, trace, k + 1)
      ensures ok <==> outs(k + 1) == Done
    {
      var _ := Next(me, k, outs(k));
      ok := Next(me, k + 1, outs(k + 1));
    }
  }

  /** No command of a call removes the bridge. */
  lemma BridgeRemains(subnet: string, h: Host, a: Action)
    requires Step(subnet, h, a).Some?
    ensures h.net.bridge ==> Step(subnet, h, a).value.net.bridge
  {
    if a.Run? { BridgeStays(h.net, Commands(subnet)[h.calls[a.c].k]); }
  }
}
