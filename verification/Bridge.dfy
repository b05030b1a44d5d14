/** `SetupBridge`: the host commands that create the bridge and its rules. */
module Bridge {
  import opened Text
  import opened Firewall

  // ------------------------------------------------------------- the subnet

  /** A dotted IPv4 address. */
  function Dotted(a: nat, b: nat, c: nat, d: nat): string {
    Join([Decimal(a), Decimal(b), Decimal(c), Decimal(d)], '.')
  }

  function Cidr(a: nat, b: nat, c: nat, d: nat, len: nat): string {
    Join([Dotted(a, b, c, d), Decimal(len)], '/')
  }

  /** The subnet for the NAT rule, as SetupBridge computes it from the bridge address. */
  function DeriveSubnet(bridgeIP: string): string {
    var parts := Split(bridgeIP, '/');
    if |parts| != 2 then "172.20.0.0/16"
    else
      var ip := Split(parts[0], '.');
      if |ip| != 4 then "172.20.0.0/16" else ip[0] + "." + ip[1] + ".0.0/" + parts[1]
  }

  lemma DecimalHolds(n: nat)
    ensures '.' !in Decimal(n) && '/' !in Decimal(n)
  {
    DecimalIsDigits(n);
  }

  lemma JoinFour(p: string, q: string, r: string, s: string)
    ensures Join([p, q, r, s], '.') == p + "." + q + "." + r + "." + s
  {
    assert [p, q, r, s][1..] == [q, r, s] && [q, r, s][1..] == [r, s] && [r, s][1..] == [s];
    assert Join([r, s], '.') == r + "." + s;
    assert Join([q, r, s], '.') == q + "." + (r + "." + s);
  }

  lemma JoinTwo(p: string, q: string, c: char)
    ensures Join([p, q], c) == p + [c] + q
  {
    assert [p, q][1..] == [q];
  }

  /** A well-formed bridge address a.b.c.d/len yields a.b.0.0/len. */
  lemma SubnetOfAddress(a: nat, b: nat, c: nat, d: nat, len: nat)
    ensures DeriveSubnet(Cidr(a, b, c, d, len)) == Cidr(a, b, 0, 0, len)
  {
    DecimalHolds(a); DecimalHolds(b); DecimalHolds(c); DecimalHolds(d); DecimalHolds(len);
    var four := [Decimal(a), Decimal(b), Decimal(c), Decimal(d)];
    JoinFour(four[0], four[1], four[2], four[3]);
    SplitJoin(four, '.');
    SplitJoin([Dotted(a, b, c, d), Decimal(len)], '/');
    JoinFour(Decimal(a), Decimal(b), "0", "0");
    JoinTwo(Dotted(a, b, 0, 0), Decimal(len), '/');
    assert Dotted(a, b, 0, 0) + "/" == Decimal(a) + "." + Decimal(b) + ".0.0/";
  }

  function Address(a: nat, b: nat, c: nat, d: nat): nat { 65536 * (256 * a + b) + 256 * c + d }

  /** `ip` shifted right by `bits`. */
  function Shift(ip: nat, bits: nat): nat {
    if bits == 0 then ip else Shift(ip / 2, bits - 1)
  }

  /** The network of an address: its first `len` bits, section 3.1 of RFC 4632. */
  function Network(ip: nat, len: nat): nat
    requires len <= 32
  {
    Shift(ip, 32 - len)
  }

  function Pow2(n: nat): (p: nat)
    ensures p > 0
  {
    if n == 0 then 1 else 2 * Pow2(n - 1)
  }

  lemma {:induction false} ShiftAdds(v: nat, m: nat, n: nat)
    ensures Shift(v, m + n) == Shift(Shift(v, m), n)
  {
    if m > 0 { ShiftAdds(v / 2, m - 1, n); }
  }

  lemma {:induction false} ShiftSmall(y: nat, m: nat)
    requires y < Pow2(m)
    ensures Shift(y, m) == 0
  {
    if m > 0 { ShiftSmall(y / 2, m - 1); }
  }

  /** Shifting by at most `m` bits works on the low `m` bits alone. */
  lemma {:induction false} ShiftSplit(x: nat, y: nat, m: nat, n: nat)
    requires y < Pow2(m) && n <= m
    ensures Shift(Pow2(m) * x + y, n) == Pow2(m - n) * x + Shift(y, n)
  {
    if n > 0 {
      var half := Pow2(m - 1) * x;
      assert Pow2(m) * x == 2 * half by { assert Pow2(m) == 2 * Pow2(m - 1); Associate(Pow2(m - 1), x); }
      assert (2 * half + y) / 2 == half + y / 2;
      ShiftSplit(x, y / 2, m - 1, n - 1);
    }
  }

  lemma Associate(p: nat, x: nat)
    ensures (2 * p) * x == 2 * (p * x)
  {
  }

  lemma Pow16()
    ensures Pow2(16) == 65536
  {
    assert Pow2(4) == 16;
    assert Pow2(8) == 256;
    assert Pow2(12) == 4096;
  }

  /** The derived subnet is the network of the bridge address exactly when the
      prefix has at most 16 bits, or the rest of the address is zero up to it. */
  lemma SubnetIsBridgeNetwork(a: nat, b: nat, c: nat, d: nat, len: nat)
    requires a < 256 && b < 256 && c < 256 && d < 256 && len <= 32
    ensures Network(Address(a, b, 0, 0), len) == Network(Address(a, b, c, d), len)
            <==> len <= 16 || Shift(256 * c + d, 32 - len) == 0
  {
    Pow16();
    var x, y := 256 * a + b, 256 * c + d;
    if len <= 16 {
      ShiftSplit(x, y, 16, 16);
      ShiftSplit(x, 0, 16, 16);
      ShiftSmall(y, 16);
      ShiftSmall(0, 16);
      ShiftAdds(65536 * x + y, 16, 16 - len);
      ShiftAdds(65536 * x, 16, 16 - len);
    } else {
      ShiftSplit(x, y, 16, 32 - len);
      ShiftSplit(x, 0, 16, 32 - len);
      ShiftSmall(0, 32 - len);
    }
  }

  /** For 10.0.1.1/24 the derived 10.0.0.0/24 is another network. */
  lemma LongPrefixMissesNetwork()
    ensures DeriveSubnet(Cidr(10, 0, 1, 1, 24)) == Cidr(10, 0, 0, 0, 24)
    ensures Network(Address(10, 0, 0, 0), 24) != Network(Address(10, 0, 1, 1), 24)
  {
    SubnetOfAddress(10, 0, 1, 1, 24);
    SubnetIsBridgeNetwork(10, 0, 1, 1, 24);
    assert Shift(257, 8) == Shift(64, 6) == Shift(16, 4) == Shift(4, 2) == Shift(1, 0) == 1;
  }

  lemma SpellDefault()
    ensures Cidr(172, 20, 0, 0, 16) == "172.20.0.0/16"
  {
    Numerals();
    JoinFour("172", "20", "0", "0");
    JoinTwo("172.20.0.0", "16", '/');
    assert "172" + "." + "20" + "." + "0" + "." + "0" == "172.20.0.0";
    assert "172.20.0.0" + ['/'] + "16" == "172.20.0.0/16";
  }

  lemma Numerals()
    ensures Decimal(172) == "172" && Decimal(20) == "20" && Decimal(16) == "16" && Decimal(0) == "0"
  {
    assert Decimal(1) == "1" && Decimal(17) == "17" && Decimal(2) == "2";
  }

  /** What is not an address of four parts with one prefix yields the subnet that the
      driver's own address 172.20.0.1/16 yields. */
  lemma FallbackSubnet(bridgeIP: string)
    requires |Split(bridgeIP, '/')| != 2 || |Split(Split(bridgeIP, '/')[0], '.')| != 4
    ensures DeriveSubnet(bridgeIP) == DeriveSubnet(Cidr(172, 20, 0, 1, 16))
  {
    SubnetOfAddress(172, 20, 0, 1, 16);
    SpellDefault();
  }

  // ------------------------------------------------------------- the commands

  datatype Net = Net(bridge: bool, addressed: bool, raised: bool, nat_: seq<string>, forward: Chain)

  /** The commands of SetupBridge, in order. */
  datatype Command =
    | AddBridge | AddAddress | Raise
    | DeleteNat(subnet: string) | AppendNat(subnet: string)
    | DeleteRule(r: Rule) | AppendRule(r: Rule)

  function Commands(subnet: string): seq<Command> {
    [AddBridge, AddAddress, Raise, DeleteNat(subnet), AppendNat(subnet),
     DeleteRule(Outbound), AppendRule(Outbound), DeleteRule(Return), AppendRule(Return),
     DeleteRule(Isolate), AppendRule(Isolate)]
  }

  /** The effect of a command that ran; `missed` holds the deletions that failed. */
  function Effect(n: Net, c: Command, missed: set<Command>): Net {
    match c
    case AddBridge => n.(bridge := true)
    case AddAddress => n.(addressed := true)
    case Raise => n.(raised := true)
    case DeleteNat(s) => if c in missed then n else n.(nat_ := Remove(n.nat_, s))
    case AppendNat(s) => n.(nat_ := n.nat_ + [s])
    case DeleteRule(r) => if c in missed then n else n.(forward := Remove(n.forward, r))
    case AppendRule(r) => n.(forward := n.forward + [r])
  }

  /** The effect of the first `k` commands. */
  function AfterFirst(n: Net, cs: seq<Command>, k: nat, missed: set<Command>): Net
    requires k <= |cs|
  {
    if k == 0 then n else Effect(AfterFirst(n, cs, k - 1, missed), cs[k - 1], missed)
  }

  function MissedRules(missed: set<Command>): set<Rule> {
    set r: Rule | r in {Outbound, Return, Isolate} && DeleteRule(r) in missed
  }

  lemma EarlySetup(n: Net, subnet: string, missed: set<Command>)
    ensures AfterFirst(n, Commands(subnet), 5, missed) ==
            var kept := if DeleteNat(subnet) in missed then n.nat_ else Remove(n.nat_, subnet);
            Net(true, true, true, kept + [subnet], n.forward)
  {
    var cs := Commands(subnet);
    assert AfterFirst(n, cs, 1, missed) == n.(bridge := true);
    assert AfterFirst(n, cs, 2, missed) == n.(bridge := true, addressed := true);
    assert AfterFirst(n, cs, 3, missed) == n.(bridge := true, addressed := true, raised := true);
    assert cs[3] == DeleteNat(subnet) && cs[4] == AppendNat(subnet);
  }

  /** All commands: the bridge is up, and the chain is reinstalled. */
  lemma CompleteSetup(n: Net, subnet: string, missed: set<Command>)
    ensures AfterFirst(n, Commands(subnet), 11, missed) ==
            AfterFirst(n, Commands(subnet), 5, missed).(forward := ReinstallUnless(n.forward, MissedRules(missed)))
  {
    EarlySetup(n, subnet, missed);
    var cs, rules := Commands(subnet), MissedRules(missed);
    var m5 := AfterFirst(n, cs, 5, missed);
    assert cs[5] == DeleteRule(Outbound) && cs[6] == AppendRule(Outbound);
    var m7 := AfterFirst(n, cs, 7, missed);
    assert m7 == Effect(AfterFirst(n, cs, 6, missed), cs[6], missed);
    assert cs[7] == DeleteRule(Return) && cs[8] == AppendRule(Return);
    var m9 := AfterFirst(n, cs, 9, missed);
    assert m9 == Effect(AfterFirst(n, cs, 8, missed), cs[8], missed);
    assert cs[9] == DeleteRule(Isolate) && cs[10] == AppendRule(Isolate);
    assert AfterFirst(n, cs, 11, missed) == Effect(AfterFirst(n, cs, 10, missed), cs[10], missed);
  }

  lemma CompleteForward(n: Net, subnet: string, missed: set<Command>)
    ensures var done := AfterFirst(n, Commands(subnet), 11, missed);
            && done.forward == ReinstallUnless(n.forward, MissedRules(missed))
            && done.bridge && done.addressed && done.raised && subnet in done.nat_
  {
    CompleteSetup(n, subnet, missed);
    EarlySetup(n, subnet, missed);
    var nat_ := AfterFirst(n, Commands(subnet), 5, missed).nat_;
    assert nat_[|nat_| - 1] == subnet;
  }

  /** How often the isolation rule is there after the first `k` commands: one copy less
      from its deletion on, one more with the last command. */
  lemma {:induction false} IsolationCount(n: Net, subnet: string, k: nat, missed: set<Command>)
    requires k <= 11
    ensures var before := Count(n.forward, Isolate);
            var after := Count(AfterFirst(n, Commands(subnet), k, missed).forward, Isolate);
            var deleted := if k >= 10 && DeleteRule(Isolate) !in missed && before > 0 then 1 else 0;
            after == before - deleted + if k == 11 then 1 else 0
    ensures AfterFirst(n, Commands(subnet), k, missed).bridge <==> n.bridge || k > 0
  {
    if k > 0 {
      IsolationCount(n, subnet, k - 1, missed);
      var m, c := AfterFirst(n, Commands(subnet), k - 1, missed), Commands(subnet)[k - 1];
      EffectCounts(m, c, missed);
      assert Commands(subnet)[9] == DeleteRule(Isolate) && Commands(subnet)[10] == AppendRule(Isolate);
      assert k != 10 && k != 11 ==> c != DeleteRule(Isolate) && c != AppendRule(Isolate);
    }
  }

  lemma EffectCounts(n: Net, c: Command, missed: set<Command>)
    ensures var before := Count(n.forward, Isolate);
            Count(Effect(n, c, missed).forward, Isolate) ==
            if c == DeleteRule(Isolate) && c !in missed && before > 0 then before - 1
            else if c == AppendRule(Isolate) then before + 1 else before
    ensures Effect(n, c, missed).bridge <==> n.bridge || c == AddBridge
  {
    match c {
      case DeleteRule(r) => RemoveCounts(n.forward, r, Isolate);
      case AppendRule(r) =>
        CountAppend(n.forward, [r], Isolate);
        assert [r][1..] == [];
      case _ =>
    }
  }

  /** The rule that isolates tenants is there after the first `k` commands exactly if
      these are all, or it was there before and its deletion left a copy. */
  lemma IsolationComesLast(n: Net, subnet: string, k: nat, missed: set<Command>)
    requires k <= 11
    ensures Isolate in AfterFirst(n, Commands(subnet), k, missed).forward <==>
            k == 11 || Count(n.forward, Isolate) > (if k >= 10 && DeleteRule(Isolate) !in missed then 1 else 0)
    ensures AfterFirst(n, Commands(subnet), k, missed).bridge <==> n.bridge || k > 0
  {
    IsolationCount(n, subnet, k, missed);
    CountIn(AfterFirst(n, Commands(subnet), k, missed).forward, Isolate);
  }

  /** What is missed later does not change what ran before. */
  lemma {:induction false} MissedLater(n: Net, cs: seq<Command>, k: nat, missed: set<Command>, more: set<Command>)
    requires k <= |cs| && forall i :: 0 <= i < k ==> (cs[i] in missed <==> cs[i] in more)
    ensures AfterFirst(n, cs, k, missed) == AfterFirst(n, cs, k, more)
  {
    if k > 0 { MissedLater(n, cs, k - 1, missed, more); }
  }
}
