/** The network plane: the FORWARD chain that `SetupBridge` installs, and what it
    does to packets. */
module Firewall {
  import opened Common

  // ------------------------------------------------------------- rules and chains

  datatype Target = Accept | Drop

  /** A rule of the FORWARD chain: one of the three that `SetupBridge` manages, or
      one that somebody else put there. */
  datatype Rule =
    | Outbound                      // -i br ! -o br -j ACCEPT
    | Return                        // -o br --ctstate RELATED,ESTABLISHED -j ACCEPT
    | Isolate                       // -i br -o br -j DROP
    | Foreign(id: nat, target: Target)

  type Chain = seq<Rule>

  predicate Managed(r: Rule) { !r.Foreign? }

  /** The managed rules in the order of installation. */
  const INSTALLED: Chain := [Outbound, Return, Isolate]

  /** `iptables -D`: the first rule that matches is removed; without one it fails. */
  function Remove<T(==)>(c: seq<T>, r: T): (c': seq<T>)
    ensures r !in c ==> c' == c
  {
    if c == [] then [] else if c[0] == r then c[1..] else [c[0]] + Remove(c[1..], r)
  }

  /** `iptables -D` with its error ignored, then `iptables -A`. */
  function Refresh(c: Chain, r: Rule): Chain { Remove(c, r) + [r] }

  function Reinstall(c: Chain): Chain {
    Refresh(Refresh(Refresh(c, Outbound), Return), Isolate)
  }

  /** The chain without its first copy of each managed rule. */
  function Stripped(c: Chain): Chain { Remove(Remove(Remove(c, Outbound), Return), Isolate) }

  function Count(c: Chain, r: Rule): nat {
    if c == [] then 0 else (if c[0] == r then 1 else 0) + Count(c[1..], r)
  }

  /** The rules that `SetupBridge` does not manage, in order. */
  function ForeignRules(c: Chain): Chain {
    if c == [] then [] else if Managed(c[0]) then ForeignRules(c[1..]) else [c[0]] + ForeignRules(c[1..])
  }

  lemma {:induction false} RemoveFromFront(c: Chain, r: Rule, x: Rule)
    requires x != r
    ensures Remove(c + [x], r) == Remove(c, r) + [x]
  {
    if c == [] {
    } else {
      assert (c + [x])[1..] == c[1..] + [x];
      RemoveFromFront(c[1..], r, x);
    }
  }

  lemma {:induction false} CountAppend(a: Chain, b: Chain, r: Rule)
    ensures Count(a + b, r) == Count(a, r) + Count(b, r)
  {
    if a == [] { assert a + b == b; } else { assert (a + b)[1..] == a[1..] + b; CountAppend(a[1..], b, r); }
  }

  lemma {:induction false} ForeignAppend(a: Chain, b: Chain)
    ensures ForeignRules(a + b) == ForeignRules(a) + ForeignRules(b)
  {
    if a == [] { assert a + b == b; } else { assert (a + b)[1..] == a[1..] + b; ForeignAppend(a[1..], b); }
  }

  lemma {:induction false} RemoveCounts(c: Chain, r: Rule, x: Rule)
    ensures Count(Remove(c, r), x) == if x == r && Count(c, r) > 0 then Count(c, r) - 1 else Count(c, x)
    ensures Managed(r) ==> ForeignRules(Remove(c, r)) == ForeignRules(c)
  {
    if c != [] {
      RemoveCounts(c[1..], r, x);
      if c[0] != r { assert ([c[0]] + Remove(c[1..], r))[1..] == Remove(c[1..], r); }
    }
  }

  lemma {:induction false} CountIn(c: Chain, r: Rule)
    ensures Count(c, r) == 0 <==> r !in c
  {
    if c != [] {
      CountIn(c[1..], r);
      assert r in c <==> r == c[0] || r in c[1..];
    }
  }

  lemma ReinstallForm(c: Chain)
    ensures Reinstall(c) == Stripped(c) + INSTALLED
  {
    var a := Remove(c, Outbound);
    RemoveFromFront(a, Return, Outbound);
    var b := Remove(a, Return);
    RemoveFromFront(b + [Outbound], Isolate, Return);
    RemoveFromFront(b, Isolate, Outbound);
    assert b + [Outbound] + [Return] == b + [Outbound, Return];
    assert Remove(b, Isolate) + [Outbound] + [Return] + [Isolate] == Remove(b, Isolate) + [Outbound, Return, Isolate];
  }

  lemma ThreeRules(r: Rule)
    ensures var three := INSTALLED; ForeignRules(three) == [] && Count(three, r) == if Managed(r) then 1 else 0
  {
    var three := INSTALLED;
    assert three[1..] == [Return, Isolate] && three[1..][1..] == [Isolate] && three[1..][1..][1..] == [];
    assert Count(three[1..][1..], r) == if r == Isolate then 1 else 0;
    assert ForeignRules(three[1..][1..]) == [];
  }

  lemma StrippedCounts(c: Chain, r: Rule)
    ensures ForeignRules(Stripped(c)) == ForeignRules(c)
    ensures Count(Stripped(c), r) == if Managed(r) && Count(c, r) > 0 then Count(c, r) - 1 else Count(c, r)
  {
    var a := Remove(c, Outbound);
    var b := Remove(a, Return);
    RemoveCounts(c, Outbound, r);
    RemoveCounts(a, Return, r);
    RemoveCounts(b, Isolate, r);
  }

  /** From any chain, the managed rules end up last and in fixed order, other
      rules keep their order, and a rule that was there n times is there max(1, n)
      times if it is managed, n times if not. */
  lemma ReinstallNormalForm(c: Chain, r: Rule)
    ensures |Reinstall(c)| >= 3 && Reinstall(c)[|Reinstall(c)| - 3..] == INSTALLED
    ensures ForeignRules(Reinstall(c)) == ForeignRules(c)
    ensures Count(Reinstall(c), r) == if Managed(r) && Count(c, r) == 0 then 1 else Count(c, r)
  {
    ReinstallForm(c);
    StrippedCounts(c, r);
    ThreeRules(r);
    ForeignAppend(Stripped(c), INSTALLED);
    CountAppend(Stripped(c), INSTALLED, r);
  }

  // ------------------------------------------------------------- installing twice

  function Piece(c: Chain, r: Rule): Chain { if r in c then [r] else [] }

  /** The managed rules that the chain holds, each once, in the order of installation. */
  function Held(c: Chain): Chain { Piece(c, Outbound) + Piece(c, Return) + Piece(c, Isolate) }

  /** The chain holds no managed rule, or it ends with those that it holds, each once
      and in order, and the same is true of what is before them. */
  predicate Settled(c: Chain) {
    var k := |Held(c)|;
    k == 0 || (k <= |c| && c[|c| - k..] == Held(c) && Settled(c[..|c| - k]))
  }

  lemma RemoveLater(h: Rule, c: Chain, r: Rule)
    requires h != r
    ensures Remove([h] + c, r) == [h] + Remove(c, r)
  {
    assert ([h] + c)[1..] == c;
  }

  lemma {:induction false} RemoveWithin(s: Chain, rest: Chain, r: Rule)
    requires r in s
    ensures Remove(s + rest, r) == Remove(s, r) + rest
  {
    var h, tail := s[0], s[1..];
    assert s + rest == [h] + (tail + rest);
    if h == r {
      assert (s + rest)[0] == r && (s + rest)[1..] == tail + rest;
    } else {
      RemoveWithin(tail, rest, r);
      RemoveLater(h, tail + rest, r);
      assert [h] + (Remove(tail, r) + rest) == ([h] + Remove(tail, r)) + rest;
    }
  }

  lemma {:induction false} RemovePast(s: Chain, rest: Chain, r: Rule)
    requires r !in s
    ensures Remove(s + rest, r) == s + Remove(rest, r)
  {
    if s == [] {
      assert s + rest == rest && s + Remove(rest, r) == Remove(rest, r);
    } else {
      var h, tail := s[0], s[1..];
      assert s == [h] + tail && s + rest == [h] + (tail + rest);
      RemovePast(tail, rest, r);
      RemoveLater(h, tail + rest, r);
      assert [h] + (tail + Remove(rest, r)) == s + Remove(rest, r);
    }
  }

  lemma RemoveMiddle(before: Chain, x: Chain, after: Chain, r: Rule)
    requires r !in before && r !in after && (x == [r] || x == [])
    ensures Remove(before + x + after, r) == before + after
  {
    assert before + x + after == before + (x + after);
    RemovePast(before, x + after, r);
    if x == [r] { assert (x + after)[1..] == after; } else { assert x + after == after; }
  }

  /** `x` is one copy of `r`, or nothing where `u` does not hold `r` either. */
  predicate Once(u: Chain, x: Chain, r: Rule) { x == [r] || (x == [] && r !in u) }

  /** Removing `r` from `u`, followed by rules that hold it once if `u` does. */
  lemma RemoveFrom(u: Chain, before: Chain, x: Chain, after: Chain, r: Rule)
    requires r !in before && r !in after && Once(u, x, r)
    ensures Remove(u + (before + x + after), r) == Remove(u, r) + (before + Piece(u, r) + after)
  {
    if r in u {
      RemoveWithin(u, before + x + after, r);
    } else {
      RemovePast(u, before + x + after, r);
      RemoveMiddle(before, x, after, r);
      assert before + [] + after == before + after;
    }
  }

  lemma {:induction false} RemoveKeepsOthers(c: Chain, r: Rule, x: Rule)
    requires x != r
    ensures x in Remove(c, r) <==> x in c
  {
    if c != [] {
      RemoveKeepsOthers(c[1..], r, x);
      assert x in c <==> x == c[0] || x in c[1..];
      if c[0] != r {
        assert x in [c[0]] + Remove(c[1..], r) <==> x == c[0] || x in Remove(c[1..], r);
      }
    }
  }

  lemma StripThrough(u: Chain, o: Chain, t: Chain, i: Chain)
    requires Once(u, o, Outbound) && Once(u, t, Return) && Once(u, i, Isolate)
    ensures Stripped(u + (o + t + i)) == Stripped(u) + (Piece(u, Outbound) + Piece(u, Return) + Piece(u, Isolate))
  {
    var u1 := Remove(u, Outbound);
    var u2 := Remove(u1, Return);
    var o' := Piece(u, Outbound);
    var t' := Piece(u, Return);
    RemoveKeepsOthers(u, Outbound, Return);
    RemoveKeepsOthers(u, Outbound, Isolate);
    RemoveKeepsOthers(u1, Return, Isolate);
    assert Remove(u + (o + t + i), Outbound) == u1 + (o' + t + i) by {
      RemoveFront(u, o, t + i, Outbound);
      Assoc(o, t, i);
      Assoc(o', t, i);
    }
    assert Remove(u1 + (o' + t + i), Return) == u2 + (o' + t' + i) by { RemoveFrom(u1, o', t, i, Return); }
    assert Remove(u2 + (o' + t' + i), Isolate) == Remove(u2, Isolate) + (o' + t' + Piece(u, Isolate)) by {
      RemoveBack(u2, o' + t', i, Isolate);
    }
  }

  lemma Assoc(a: Chain, b: Chain, c: Chain)
    ensures a + b + c == a + (b + c)
  {
  }

  lemma RemoveFront(u: Chain, x: Chain, after: Chain, r: Rule)
    requires r !in after && Once(u, x, r)
    ensures Remove(u + (x + after), r) == Remove(u, r) + (Piece(u, r) + after)
  {
    RemoveFrom(u, [], x, after, r);
    assert [] + x + after == x + after && [] + Piece(u, r) + after == Piece(u, r) + after;
  }

  lemma RemoveBack(u: Chain, before: Chain, x: Chain, r: Rule)
    requires r !in before && Once(u, x, r)
    ensures Remove(u + (before + x), r) == Remove(u, r) + (before + Piece(u, r))
  {
    RemoveFrom(u, before, x, [], r);
    assert before + x + [] == before + x && before + Piece(u, r) + [] == before + Piece(u, r);
  }

  predicate HoldsAll(a: Chain, u: Chain) { forall r :: Managed(r) && r in u ==> r in a }

  /** One copy of each managed rule of `u` survives behind it. */
  lemma StripBehind(u: Chain, a: Chain)
    requires HoldsAll(a, u)
    ensures Stripped(u + Held(a)) == Stripped(u) + Held(u)
  {
    StripThrough(u, Piece(a, Outbound), Piece(a, Return), Piece(a, Isolate));
  }

  lemma StripLength(c: Chain)
    ensures |Stripped(c)| + |Held(c)| == |c|
  {
    var u1 := Remove(c, Outbound);
    RemoveLength(c, Outbound);
    RemoveKeepsOthers(c, Outbound, Return);
    RemoveLength(u1, Return);
    RemoveKeepsOthers(c, Outbound, Isolate);
    RemoveKeepsOthers(u1, Return, Isolate);
    RemoveLength(Remove(u1, Return), Isolate);
  }

  lemma {:induction false} RemoveLength(c: Chain, r: Rule)
    ensures |Remove(c, r)| + (if r in c then 1 else 0) == |c|
  {
    if c != [] {
      RemoveLength(c[1..], r);
      assert r in c <==> r == c[0] || r in c[1..];
    }
  }

  /** Stripping a chain and putting back what it held gives the chain exactly if it is settled. */
  lemma {:induction false} SettledExactly(c: Chain)
    ensures Stripped(c) + Held(c) == c <==> Settled(c)
    decreases |c|
  {
    var k := |Held(c)|;
    StripLength(c);
    if k == 0 {
      assert forall r :: Managed(r) ==> |Piece(c, r)| == 0;
      StripNothing(c);
      assert Stripped(c) + Held(c) == c;
    } else {
      var u := c[..|c| - k];
      if c[|c| - k..] == Held(c) {
        assert c == u + Held(c);
        StripBehind(u, c);
        SettledExactly(u);
        SamePrefix(Stripped(c), u, Held(c));
      } else {
        assert (Stripped(c) + Held(c))[|c| - k..] == Held(c);
      }
    }
  }

  lemma SamePrefix(a: Chain, b: Chain, tail: Chain)
    ensures a + tail == b + tail <==> a == b
  {
    if a + tail == b + tail {
      assert |a| == |b|;
      assert (a + tail)[..|a|] == a && (b + tail)[..|a|] == b;
    }
  }

  lemma StripNothing(c: Chain)
    requires forall r :: Managed(r) ==> r !in c
    ensures Stripped(c) == c
  {
  }

  /** Installing again changes nothing exactly if the chain without its first copy of
      each managed rule is settled: the copies that are left stand at the end already,
      in blocks that are in order. */
  lemma ReinstallIdempotentIff(c: Chain)
    ensures Reinstall(Reinstall(c)) == Reinstall(c) <==> Settled(Stripped(c))
  {
    var d := Stripped(c);
    ReinstallForm(c);
    ReinstallForm(Reinstall(c));
    StripInstalled(d);
    SamePrefix(Stripped(d + INSTALLED), d, INSTALLED);
    SettledExactly(d);
  }

  lemma StripInstalled(d: Chain)
    ensures Stripped(d + INSTALLED) == Stripped(d) + Held(d)
  {
    assert forall r :: Managed(r) ==> r in INSTALLED;
    assert Held(INSTALLED) == INSTALLED;
    StripBehind(d, INSTALLED);
  }

  lemma StrippedHasNone(c: Chain, r: Rule)
    requires Managed(r) && Count(c, r) <= 1
    ensures r !in Stripped(c)
  {
    StrippedCounts(c, r);
    CountIn(Stripped(c), r);
  }

  /** So it changes nothing if no managed rule was there twice. */
  lemma ReinstallIdempotent(c: Chain)
    requires forall r :: Managed(r) ==> Count(c, r) <= 1
    ensures Reinstall(Reinstall(c)) == Reinstall(c)
  {
    ReinstallIdempotentIff(c);
    forall r | Managed(r) ensures r !in Stripped(c) { StrippedHasNone(c, r); }
    assert Held(Stripped(c)) == [];
  }

  /** A second copy before another rule is moved to the back. */
  lemma ReinstallMovesDuplicates()
    ensures var c := [Outbound, Outbound, Foreign(0, Drop)]; Reinstall(Reinstall(c)) != Reinstall(c)
  {
    var c, d := [Outbound, Outbound, Foreign(0, Drop)], [Outbound, Foreign(0, Drop)];
    SecondCopy(Foreign(0, Drop));
    assert Held(d) == [Outbound] && d[|d| - 1..] == [Foreign(0, Drop)];
    ReinstallIdempotentIff(c);
  }

  lemma SecondCopy(last: Rule)
    requires last.Foreign?
    ensures Stripped([Outbound, Outbound, last]) == [Outbound, last]
  {
    assert Remove([Outbound, Outbound, last], Outbound) == [Outbound, last];
  }

  /** A second copy at the end is not. */
  lemma ReinstallKeepsSettledDuplicates()
    ensures var c := [Outbound, Outbound]; Count(c, Outbound) == 2 && Reinstall(Reinstall(c)) == Reinstall(c)
  {
    var c, d := [Outbound, Outbound], [Outbound];
    assert Remove(c, Outbound) == d && Stripped(c) == d && Count(d, Outbound) == 1;
    assert Held(d) == d && d[..0] == [] && Held([]) == [];
    ReinstallIdempotentIff(c);
  }

  // ------------------------------------------------------------- packets

  /** A transport endpoint. */
  type Endpoint = nat

  /** A packet that traverses FORWARD: the sides it enters and leaves by, its
      endpoints, and the tracked connection it reports on, if it is an error
      message about one. */
  datatype Packet = Packet(
    fromBridge: bool, toBridge: bool, src: Endpoint, dst: Endpoint, about: Option<(Endpoint, Endpoint)>)

  /** Connections by their endpoints, as conntrack has confirmed them. */
  type Tracked = set<(Endpoint, Endpoint)>

  predicate Knows(t: Tracked, a: Endpoint, b: Endpoint) { (a, b) in t || (b, a) in t }

  predicate Established(t: Tracked, p: Packet) { Knows(t, p.src, p.dst) }

  /** RELATED: an error report on a tracked connection, sent to one of its ends by
      whomever. */
  predicate Related(t: Tracked, p: Packet) {
    p.about.Some? && Knows(t, p.about.value.0, p.about.value.1)
    && (p.dst == p.about.value.0 || p.dst == p.about.value.1)
  }

  /** What a rule for RELATED,ESTABLISHED matches. An error report belongs to the
      connection it is about, and to none of its own. */
  predicate Belongs(t: Tracked, p: Packet) {
    if p.about.Some? then Related(t, p) else Established(t, p)
  }

  /** `foreign` tells which packets the rules of others match, given the connections. */
  predicate Matches(foreign: (nat, Tracked, Packet) -> bool, t: Tracked, r: Rule, p: Packet) {
    match r
    case Outbound => p.fromBridge && !p.toBridge
    case Return => p.toBridge && Belongs(t, p)
    case Isolate => p.fromBridge && p.toBridge
    case Foreign(id, _) => foreign(id, t, p)
  }

  function TargetOf(r: Rule): Target {
    match r
    case Outbound => Accept
    case Return => Accept
    case Isolate => Drop
    case Foreign(_, t) => t
  }

  /** The first matching rule decides; without one the chain's policy does. */
  function Verdict(foreign: (nat, Tracked, Packet) -> bool, policy: Target, c: Chain, t: Tracked, p: Packet): Target {
    if c == [] then policy
    else if Matches(foreign, t, c[0], p) then TargetOf(c[0])
    else Verdict(foreign, policy, c[1..], t, p)
  }

  /** Rules of others in `c` accept a packet from the bridge to the bridge only if it
      belongs to a tracked connection, as a rule for RELATED,ESTABLISHED does. */
  ghost predicate NoForeignBridging(foreign: (nat, Tracked, Packet) -> bool, c: Chain) {
    forall r, t: Tracked, p: Packet ::
      r in c && r.Foreign? && r.target == Accept && p.fromBridge && p.toBridge && foreign(r.id, t, p) ==>
        Belongs(t, p)
  }

  lemma {:induction false} ForeignIn(c: Chain, r: Rule)
    requires r.Foreign?
    ensures r in ForeignRules(c) <==> r in c
  {
    if c != [] {
      ForeignIn(c[1..], r);
      assert r in c <==> r == c[0] || r in c[1..];
    }
  }

  /** On an installed chain a packet from the bridge to the bridge is accepted only if
      it belongs to a tracked connection: the Return rule comes before Isolate. */
  lemma {:induction false} BridgingVerdict(
    foreign: (nat, Tracked, Packet) -> bool, policy: Target, c: Chain, t: Tracked, p: Packet)
    requires Isolate in c && NoForeignBridging(foreign, c) && p.fromBridge && p.toBridge
    ensures Verdict(foreign, policy, c, t, p) == Accept ==> Belongs(t, p)
  {
    if !Matches(foreign, t, c[0], p) {
      assert c[0] != Isolate && Isolate in c[1..];
      BridgingVerdict(foreign, policy, c[1..], t, p);
    }
  }

  /** Without other rules that is exact. */
  lemma BridgingVerdictExact(foreign: (nat, Tracked, Packet) -> bool, policy: Target, t: Tracked, p: Packet)
    requires p.fromBridge && p.toBridge
    ensures Verdict(foreign, policy, Reinstall([]), t, p) == Accept <==> Belongs(t, p)
  {
    ReinstallForm([]);
    var c := Reinstall([]);
    assert c == [Outbound, Return, Isolate] && c[1..] == [Return, Isolate] && c[1..][1..] == [Isolate];
    assert Verdict(foreign, policy, c, t, p) == Verdict(foreign, policy, c[1..], t, p);
    assert Verdict(foreign, policy, c[1..][1..], t, p) == Drop;
  }

  // ------------------------------------------------------------- what every rule is for

  /** The first rule that matches decides. */
  lemma {:induction false} FirstMatchDecides(
    foreign: (nat, Tracked, Packet) -> bool, policy: Target, c: Chain, t: Tracked, p: Packet, i: nat)
    requires i < |c| && Matches(foreign, t, c[i], p) && forall j :: 0 <= j < i ==> !Matches(foreign, t, c[j], p)
    ensures Verdict(foreign, policy, c, t, p) ==
            match c[i] {
              case Outbound => Accept
              case Return => Accept
              case Isolate => Drop
              case Foreign(_, target) => target
            }
  {
    if i > 0 { FirstMatchDecides(foreign, policy, c[1..], t, p, i - 1); }
  }

  lemma {:induction false} NoMatchIsPolicy(
    foreign: (nat, Tracked, Packet) -> bool, policy: Target, c: Chain, t: Tracked, p: Packet)
    requires forall r :: r in c ==> !Matches(foreign, t, r, p)
    ensures Verdict(foreign, policy, c, t, p) == policy
  {
    if c != [] { NoMatchIsPolicy(foreign, policy, c[1..], t, p); }
  }

  ghost predicate NoForeignMatch(foreign: (nat, Tracked, Packet) -> bool, c: Chain, t: Tracked, p: Packet) {
    forall r :: r in c && r.Foreign? ==> !foreign(r.id, t, p)
  }

  /** A packet that one rule alone can match is decided by that rule, if it is there. */
  lemma {:induction false} OnlyRuleDecides(
    foreign: (nat, Tracked, Packet) -> bool, policy: Target, c: Chain, t: Tracked, p: Packet, r: Rule)
    requires r in c && Matches(foreign, t, r, p) && forall q :: q in c && q != r ==> !Matches(foreign, t, q, p)
    ensures Verdict(foreign, policy, c, t, p) == Verdict(foreign, policy, [r], t, p)
  {
    if c[0] != r { OnlyRuleDecides(foreign, policy, c[1..], t, p, r); }
  }

  lemma InstalledRules(c: Chain, r: Rule)
    ensures Managed(r) ==> r in Reinstall(c)
    ensures r.Foreign? ==> (r in Reinstall(c) <==> r in c)
  {
    ReinstallNormalForm(c, r);
    CountIn(Reinstall(c), r);
    CountIn(c, r);
  }

  /** Whatever the policy, on any chain after installation a packet of a guest to the
      outside is accepted, and one from the outside to a guest exactly if it belongs to a
      tracked connection or the policy is to accept, unless somebody else's rule matches
      it. */
  lemma GuestsAreConnected(foreign: (nat, Tracked, Packet) -> bool, policy: Target, c0: Chain, t: Tracked, p: Packet)
    requires NoForeignMatch(foreign, c0, t, p)
    ensures p.fromBridge && !p.toBridge ==> Verdict(foreign, policy, Reinstall(c0), t, p) == Accept
    ensures !p.fromBridge && p.toBridge ==>
              Verdict(foreign, policy, Reinstall(c0), t, p) == if Belongs(t, p) then Accept else policy
    ensures !p.fromBridge && !p.toBridge ==> Verdict(foreign, policy, Reinstall(c0), t, p) == policy
  {
    var c := Reinstall(c0);
    forall r ensures (Managed(r) ==> r in c) && (r.Foreign? ==> (r in c <==> r in c0)) { InstalledRules(c0, r); }
    if p.fromBridge && !p.toBridge {
      OnlyRuleDecides(foreign, policy, c, t, p, Outbound);
      FirstMatchDecides(foreign, policy, [Outbound], t, p, 0);
    } else if !p.fromBridge && p.toBridge && Belongs(t, p) {
      OnlyRuleDecides(foreign, policy, c, t, p, Return);
      FirstMatchDecides(foreign, policy, [Return], t, p, 0);
    } else if !p.fromBridge {
      NoMatchIsPolicy(foreign, policy, c, t, p);
    }
  }

  // ------------------------------------------------------------- isolation over traces

  /** What happens on the host: a packet is forwarded, a local process talks to
      `peer`, or a tracked connection expires. */
  datatype Event =
    | Forward(p: Packet)
    | Local(host: Endpoint, peer: Endpoint)
    | Expire(conn: (Endpoint, Endpoint))

  /** The connections tracked after an event: conntrack confirms a connection when
      its packet is let through; an error report makes none. */
  function Track(foreign: (nat, Tracked, Packet) -> bool, policy: Target, c: Chain, t: Tracked, e: Event): Tracked {
    match e
    case Forward(p) =>
      if Verdict(foreign, policy, c, t, p) == Accept && p.about.None? && !Knows(t, p.src, p.dst)
      then t + {(p.src, p.dst)} else t
    case Local(h, q) => t + {(h, q)}
    case Expire(x) => t - {x}
  }

  function TrackAll(
    foreign: (nat, Tracked, Packet) -> bool, policy: Target, c: Chain, t: Tracked, es: seq<Event>): Tracked
  {
    if es == [] then t else Track(foreign, policy, c, TrackAll(foreign, policy, c, t, es[..|es| - 1]), es[|es| - 1])
  }

  /** Packets enter and leave by the side their endpoints are on, and the host's
      own endpoints are not guests. `guest` tells which endpoints are guests. */
  ghost predicate Routed(guest: Endpoint -> bool, e: Event) {
    match e
    case Forward(p) => p.fromBridge == guest(p.src) && p.toBridge == guest(p.dst)
    case Local(h, _) => !guest(h)
    case Expire(_) => true
  }

  /** No tracked connection has both ends on the bridge. */
  ghost predicate Separated(guest: Endpoint -> bool, t: Tracked) {
    forall a, b :: (a, b) in t ==> !(guest(a) && guest(b))
  }

  lemma {:induction false} StaysSeparated(
    foreign: (nat, Tracked, Packet) -> bool, policy: Target, c: Chain, guest: Endpoint -> bool,
    t: Tracked, es: seq<Event>)
    requires Isolate in c && NoForeignBridging(foreign, c) && Separated(guest, t)
    requires forall e :: e in es ==> Routed(guest, e)
    ensures Separated(guest, TrackAll(foreign, policy, c, t, es))
    decreases |es|
  {
    if es == [] {
    } else {
      var e := es[|es| - 1];
      StaysSeparated(foreign, policy, c, guest, t, es[..|es| - 1]);
      assert Routed(guest, e);
      var before := TrackAll(foreign, policy, c, t, es[..|es| - 1]);
      if e.Forward? && e.p.fromBridge && e.p.toBridge {
        BridgingVerdict(foreign, policy, c, before, e.p);
      }
    }
  }

  /** The same when some deletions failed although their rule was there. */
  function ReinstallUnless(c: Chain, missed: set<Rule>): Chain {
    RefreshUnless(RefreshUnless(RefreshUnless(c, Outbound, missed), Return, missed), Isolate, missed)
  }

  function RefreshUnless(c: Chain, r: Rule, missed: set<Rule>): Chain {
    (if r in missed then c else Remove(c, r)) + [r]
  }

  lemma RefreshKeepsForeign(c: Chain, r: Rule, missed: set<Rule>)
    requires Managed(r)
    ensures ForeignRules(RefreshUnless(c, r, missed)) == ForeignRules(c)
  {
    RemoveCounts(c, r, r);
    ForeignAppend(if r in missed then c else Remove(c, r), [r]);
  }

  /** `p` is an error report on a tracked connection that its receiver has with the
      outside. */
  ghost predicate ReportsOutside(guest: Endpoint -> bool, t: Tracked, p: Packet) {
    exists a: Endpoint ::
      !guest(a) && Knows(t, p.dst, a) && (p.about == Some((p.dst, a)) || p.about == Some((a, p.dst)))
  }

  /** Between guests nothing else belongs to a connection. */
  lemma OnlyReportsBelong(guest: Endpoint -> bool, t: Tracked, p: Packet)
    requires Separated(guest, t) && guest(p.src) && guest(p.dst)
    ensures Belongs(t, p) <==> ReportsOutside(guest, t, p)
  {
    if Belongs(t, p) {
      var (x, y) := p.about.value;
      var a := if p.dst == x then y else x;
      assert !guest(a) && Knows(t, p.dst, a);
    }
  }

  /** Tenant isolation: on the chain that one complete `SetupBridge` leaves behind,
      over any trace of traffic, a packet from a guest to a guest that traverses FORWARD
      is accepted only if it is an error report on a connection of the receiver with the
      outside; any other is dropped, provided no other rule accepts one that belongs to
      no tracked connection, and no connection between guests was tracked before. */
  lemma TenantsAreIsolated(foreign: (nat, Tracked, Packet) -> bool, policy: Target, c0: Chain, missed: set<Rule>,
                           guest: Endpoint -> bool, t0: Tracked, es: seq<Event>, p: Packet)
    requires NoForeignBridging(foreign, c0) && Separated(guest, t0)
    requires forall e :: e in es ==> Routed(guest, e)
    requires Routed(guest, Forward(p)) && p.fromBridge && p.toBridge
    ensures var c := ReinstallUnless(c0, missed);
            var t := TrackAll(foreign, policy, c, t0, es);
            Verdict(foreign, policy, c, t, p) == Drop || ReportsOutside(guest, t, p)
  {
    var a := RefreshUnless(c0, Outbound, missed);
    var b := RefreshUnless(a, Return, missed);
    var c := ReinstallUnless(c0, missed);
    RefreshKeepsForeign(c0, Outbound, missed);
    RefreshKeepsForeign(a, Return, missed);
    RefreshKeepsForeign(b, Isolate, missed);
    assert Isolate in c by { assert c[|c| - 1] == Isolate; }
    forall r | r in c && r.Foreign? ensures r in c0 {
      ForeignIn(c, r);
      ForeignIn(c0, r);
    }
    StaysSeparated(foreign, policy, c, guest, t0, es);
    BridgingVerdict(foreign, policy, c, TrackAll(foreign, policy, c, t0, es), p);
    OnlyReportsBelong(guest, TrackAll(foreign, policy, c, t0, es), p);
  }

  /** On the bare installed chain that is exact: such a report is accepted. */
  lemma IsolationIsExact(foreign: (nat, Tracked, Packet) -> bool, policy: Target,
                         guest: Endpoint -> bool, t0: Tracked, es: seq<Event>, p: Packet)
    requires Separated(guest, t0) && forall e :: e in es ==> Routed(guest, e)
    requires Routed(guest, Forward(p)) && p.fromBridge && p.toBridge
    ensures var t := TrackAll(foreign, policy, Reinstall([]), t0, es);
            Verdict(foreign, policy, Reinstall([]), t, p) == Accept <==> ReportsOutside(guest, t, p)
  {
    var c := Reinstall([]);
    ReinstallForm([]);
    StaysSeparated(foreign, policy, c, guest, t0, es);
    BridgingVerdictExact(foreign, policy, TrackAll(foreign, policy, c, t0, es), p);
    OnlyReportsBelong(guest, TrackAll(foreign, policy, c, t0, es), p);
  }

  /** A report that is accepted: guest 1 has talked to 9 outside, and guest 2 reports an
      error on that to guest 1. */
  lemma ReportReachesTenant(foreign: (nat, Tracked, Packet) -> bool, policy: Target)
    ensures var t := TrackAll(foreign, policy, Reinstall([]), {}, [Forward(Packet(true, false, 1, 9, None))]);
            Verdict(foreign, policy, Reinstall([]), t, Packet(true, true, 2, 1, Some((1, 9)))) == Accept
  {
    var opening := Packet(true, false, 1, 9, None);
    var es := [Forward(opening)];
    GuestsAreConnected(foreign, policy, [], {}, opening);
    assert es[..0] == [] && TrackAll(foreign, policy, Reinstall([]), {}, []) == {};
    var t := TrackAll(foreign, policy, Reinstall([]), {}, es);
    assert Knows(t, 1, 9);
    BridgingVerdictExact(foreign, policy, t, Packet(true, true, 2, 1, Some((1, 9))));
  }

  /** An event that does not end the connection between `a` and `b` leaves it tracked. */
  lemma {:induction false} StaysTracked(
    foreign: (nat, Tracked, Packet) -> bool, policy: Target, c: Chain, t: Tracked, es: seq<Event>,
    a: Endpoint, b: Endpoint)
    requires Knows(t, a, b) && Expire((a, b)) !in es && Expire((b, a)) !in es
    ensures Knows(TrackAll(foreign, policy, c, t, es), a, b)
    decreases |es|
  {
    if es != [] { StaysTracked(foreign, policy, c, t, es[..|es| - 1], a, b); }
  }

  /** Guests reach the outside and are answered: on an installed chain a packet of a
      guest to the outside is accepted, and from then on, until the connection expires
      and whatever other traffic there is, so is every reply to it, and every report on it. */
  lemma RepliesReturn(foreign: (nat, Tracked, Packet) -> bool, policy: Target, c0: Chain, t0: Tracked,
                      p: Packet, es: seq<Event>, reply: Packet)
    requires p.fromBridge && !p.toBridge && p.about.None? && NoForeignMatch(foreign, c0, t0, p)
    requires Expire((p.src, p.dst)) !in es && Expire((p.dst, p.src)) !in es
    requires !reply.fromBridge && reply.toBridge && reply.dst == p.src
    requires (reply.about.None? && reply.src == p.dst) || reply.about == Some((p.src, p.dst))
    requires NoForeignMatch(foreign, c0, TrackAll(foreign, policy, Reinstall(c0), t0, [Forward(p)] + es), reply)
    ensures Verdict(foreign, policy, Reinstall(c0), t0, p) == Accept
    ensures var t := TrackAll(foreign, policy, Reinstall(c0), t0, [Forward(p)] + es);
            Verdict(foreign, policy, Reinstall(c0), t, reply) == Accept
  {
    var c := Reinstall(c0);
    GuestsAreConnected(foreign, policy, c0, t0, p);
    TrackOneThenAll(foreign, policy, c, t0, Forward(p), es);
    StaysTracked(foreign, policy, c, Track(foreign, policy, c, t0, Forward(p)), es, p.src, p.dst);
    GuestsAreConnected(foreign, policy, c0, TrackAll(foreign, policy, c, t0, [Forward(p)] + es), reply);
  }

  /** And no longer: once the connection has expired, whatever came before, a packet from
      the outside that would have been a reply is left to the policy. */
  lemma RepliesStop(foreign: (nat, Tracked, Packet) -> bool, policy: Target, c0: Chain, t0: Tracked,
                    es: seq<Event>, reply: Packet)
    requires !reply.fromBridge && reply.toBridge && reply.about.None?
    requires var ending := [Expire((reply.src, reply.dst)), Expire((reply.dst, reply.src))];
             NoForeignMatch(foreign, c0, TrackAll(foreign, policy, Reinstall(c0), t0, es + ending), reply)
    ensures var ending := [Expire((reply.src, reply.dst)), Expire((reply.dst, reply.src))];
            Verdict(foreign, policy, Reinstall(c0), TrackAll(foreign, policy, Reinstall(c0), t0, es + ending), reply)
            == policy
  {
    var c, there, back := Reinstall(c0), Expire((reply.src, reply.dst)), Expire((reply.dst, reply.src));
    var all := es + [there, back];
    assert all[|all| - 1] == back && all[..|all| - 1] == es + [there];
    assert (es + [there])[..|es|] == es && (es + [there])[|es|] == there;
    assert !Knows(TrackAll(foreign, policy, c, t0, all), reply.src, reply.dst);
    GuestsAreConnected(foreign, policy, c0, TrackAll(foreign, policy, c, t0, all), reply);
  }

  lemma {:induction false} TrackOneThenAll(
    foreign: (nat, Tracked, Packet) -> bool, policy: Target, c: Chain, t: Tracked, e: Event, es: seq<Event>)
    ensures TrackAll(foreign, policy, c, t, [e] + es) ==
            TrackAll(foreign, policy, c, Track(foreign, policy, c, t, e), es)
    decreases |es|
  {
    var all := [e] + es;
    if es == [] {
      assert all[..0] == [] && all[0] == e;
    } else {
      TrackOneThenAll(foreign, policy, c, t, e, es[..|es| - 1]);
      assert all[..|all| - 1] == [e] + es[..|es| - 1] && all[|all| - 1] == es[|es| - 1];
    }
  }
}
