/** Target declarations of a Kraftfile: the parser of their two forms, and the printer. */
module Kraftfile {
  import opened Common
  import opened Text

  /** A decoded YAML value. */
  datatype Value = Text(text: string) | Table(fields: map<string, Value>) | Other

  datatype Target = Target(name: string, plat: string, arch: string, kconfig: map<string, string>)

  const EMPTY := Target("", "", "", map[])

  /** A string field of a table. */
  function Field(fields: map<string, Value>, key: string): string {
    if key in fields && fields[key].Text? then fields[key].text else ""
  }

  /** The first key if it gives a non-empty string, else its long alias. */
  function Either(fields: map<string, Value>, key: string, alias: string): string {
    if Field(fields, key) != "" then Field(fields, key) else Field(fields, alias)
  }

  function KConfig(fields: map<string, Value>): map<string, string> {
    if "kconfig" in fields && fields["kconfig"].Table? then
      var t := fields["kconfig"].fields;
      map k | k in t && t[k].Text? :: t[k].text
    else map[]
  }

  /** One entry of the list: a shorthand string, a table, or something ignored. */
  function ParseItem(v: Value): Target {
    match v
    case Text(s) =>
      var parts := SplitTwo(s, '/');
      if |parts| == 2 then EMPTY.(plat := parts[0], arch := parts[1]) else EMPTY.(name := s)
    case Table(f) =>
      Target(Field(f, "name"), Either(f, "plat", "platform"), Either(f, "arch", "architecture"), KConfig(f))
    case Other => EMPTY
  }

  predicate Kept(t: Target) { t.plat != "" || t.arch != "" || t.name != "" }

  function ParseAll(raw: seq<Value>): seq<Target> {
    if raw == [] then []
    else ParseAll(raw[..|raw| - 1]) + if Kept(ParseItem(raw[|raw| - 1])) then [ParseItem(raw[|raw| - 1])] else []
  }

  function Print(t: Target): string {
    if t.name != "" && (t.plat == "" || t.arch == "") then t.name
    else if t.plat != "" && t.arch != "" then t.plat + "/" + t.arch
    else if t.plat != "" then t.plat
    else t.name
  }

  function PrintAll(ts: seq<Target>): seq<string> { seq(|ts|, i requires 0 <= i < |ts| => Print(ts[i])) }

  class KraftTargets {
    var targets: seq<Target>

    constructor ()
      ensures targets == []
    {
      targets := [];
    }

    /** Append the targets that a YAML list declares. */
    method UnmarshalYAML(raw: seq<Value>)
      modifies this
      ensures targets == old(targets) + ParseAll(raw)
    {
      for i := 0 to |raw|
        invariant targets == old(targets) + ParseAll(raw[..i])
      {
        var t := ParseItem(raw[i]);
        assert raw[..i + 1][..i] == raw[..i];
        if t.plat != "" || t.arch != "" || t.name != "" {
          targets := targets + [t];
        }
      }
      assert raw[..|raw|] == raw;
    }

    method ListTargetStrings() returns (out: seq<string>)
      ensures out == PrintAll(targets)
    {
      out := [];
      for i := 0 to |targets|
        invariant out == PrintAll(targets[..i])
      {
        out := out + [Print(targets[i])];
      }
      assert targets[..|targets|] == targets;
    }

    method HasTarget(target: string) returns (found: bool)
      ensures found <==> target in PrintAll(targets)
    {
      var names := ListTargetStrings();
      for i := 0 to |names|
        invariant forall j :: 0 <= j < i ==> names[j] != target
      {
        if names[i] == target { return true; }
      }
      return false;
    }
  }

  // ------------------------------------------------------------- the shorthand round trip

  function Texts(ss: seq<string>): seq<Value> { seq(|ss|, i requires 0 <= i < |ss| => Text(ss[i])) }

  /** The declared strings that declare something. */
  function Declaring(ss: seq<string>): seq<string> {
    if ss == [] then []
    else Declaring(ss[..|ss| - 1]) + if ss[|ss| - 1] == "" || ss[|ss| - 1] == "/" then [] else [ss[|ss| - 1]]
  }

  /** One slash-free name and a final slash. */
  predicate Dangling(s: string) { s != "" && s[|s| - 1] == '/' && '/' !in s[..|s| - 1] }

  /** What a declared string is listed as. */
  function Listed(s: string): string {
    if s != "" && s[0] == '/' then "" else if Dangling(s) then s[..|s| - 1] else s
  }

  lemma ItemRoundTrip(s: string)
    ensures Kept(ParseItem(Text(s))) <==> s != "" && s != "/"
    ensures Print(ParseItem(Text(s))) == Listed(s)
  {
    var i := IndexOf(s, '/');
    if i < |s| {
      assert s == s[..i] + "/" + s[i + 1..];
      assert i < |s| - 1 ==> s[..|s| - 1][i] == '/';
    }
  }

  function ListedAll(ss: seq<string>): seq<string> { seq(|ss|, i requires 0 <= i < |ss| => Listed(ss[i])) }

  /** Parsing and listing keeps the order of the declared strings, drops exactly
      "" and "/", and prints every other one as `Listed` says. */
  lemma {:induction false} ShorthandRoundTrip(ss: seq<string>)
    ensures PrintAll(ParseAll(Texts(ss))) == ListedAll(Declaring(ss))
  {
    if ss == [] {
      assert Texts(ss) == [] && PrintAll([]) == [] && ListedAll([]) == [];
    } else {
      var init, s := ss[..|ss| - 1], ss[|ss| - 1];
      ShorthandRoundTrip(init);
      ParseOneMore(init, s);
      assert init + [s] == ss;
    }
  }

  /** One more declared string adds what it is listed as, or nothing. */
  lemma ParseOneMore(ss: seq<string>, s: string)
    ensures PrintAll(ParseAll(Texts(ss + [s]))) ==
            PrintAll(ParseAll(Texts(ss))) + if s == "" || s == "/" then [] else [Listed(s)]
    ensures ListedAll(Declaring(ss + [s])) ==
            ListedAll(Declaring(ss)) + if s == "" || s == "/" then [] else [Listed(s)]
  {
    ItemRoundTrip(s);
    var raw, t := Texts(ss + [s]), ParseItem(Text(s));
    assert raw[..|raw| - 1] == Texts(ss) && raw[|raw| - 1] == Text(s);
    assert ParseAll(raw) == ParseAll(Texts(ss)) + if Kept(t) then [t] else [];
    assert (ss + [s])[..|ss + [s]| - 1] == ss;
  }

  lemma {:induction false} DeclaringHolds(ss: seq<string>, s: string)
    ensures s in Declaring(ss) <==> s in ss && s != "" && s != "/"
  {
    if ss != [] {
      DeclaringHolds(ss[..|ss| - 1], s);
      assert s in ss <==> s in ss[..|ss| - 1] || s == ss[|ss| - 1];
    }
  }

  /** `HasTarget` finds a declared string exactly if that string prints as itself,
      but for the empty string, which only strings like "/arch" print as. */
  lemma DeclaredIsFound(ss: seq<string>, s: string)
    requires s in ss
    ensures s in PrintAll(ParseAll(Texts(ss))) <==>
            if s == "" then exists r :: r in ss && r != "" && r != "/" && r[0] == '/'
            else s[0] != '/' && !Dangling(s)
  {
    ShorthandRoundTrip(ss);
    var kept := Declaring(ss);
    var out := PrintAll(ParseAll(Texts(ss)));
    forall r ensures r in kept <==> r in ss && r != "" && r != "/" { DeclaringHolds(ss, r); }
    if s in out {
      var i :| 0 <= i < |out| && out[i] == s;
      assert Listed(kept[i]) == s && kept[i] in kept;
      ListedShape(kept[i]);
    }
    if s != "" && s[0] != '/' && !Dangling(s) {
      assert s in kept;
      var i :| 0 <= i < |kept| && kept[i] == s;
      assert out[i] == s;
    }
    if s == "" {
      if r :| r in ss && r != "" && r != "/" && r[0] == '/' {
        assert r in kept;
        var i :| 0 <= i < |kept| && kept[i] == r;
        assert out[i] == "";
      }
    }
  }

  lemma ListedShape(s: string)
    requires s != "" && s != "/"
    ensures Listed(s) == "" <==> s[0] == '/'
    ensures Listed(s) != "" ==> Listed(s)[0] != '/' && !Dangling(Listed(s))
  {
  }

  /** Two declared targets that are not found. */
  lemma SlashesAreLost()
    ensures "/x86_64" !in PrintAll(ParseAll(Texts(["/x86_64", "qemu/"])))
    ensures "qemu/" !in PrintAll(ParseAll(Texts(["/x86_64", "qemu/"])))
  {
    var ss := ["/x86_64", "qemu/"];
    assert "/x86_64" in ss && "qemu/" in ss;
    assert "/x86_64"[0] == '/' && "qemu/"[0] == 'q';
    assert "qemu/"[4] == '/' && "qemu/"[..4] == "qemu" && Dangling("qemu/");
    DeclaredIsFound(ss, "/x86_64");
    DeclaredIsFound(ss, "qemu/");
  }

  // ------------------------------------------------------------- the long form

  lemma ParseLast(raw: seq<Value>, v: Value)
    ensures ParseAll(raw + [v]) == ParseAll(raw) + if Kept(ParseItem(v)) then [ParseItem(v)] else []
  {
    var longer := raw + [v];
    assert longer[..|longer| - 1] == raw && longer[|longer| - 1] == v;
  }

  lemma {:induction false} ParseAppend(a: seq<Value>, b: seq<Value>)
    ensures ParseAll(a + b) == ParseAll(a) + ParseAll(b)
  {
    if b == [] {
      assert a + b == a;
    } else {
      var init, last := b[..|b| - 1], b[|b| - 1];
      ParseAppend(a, init);
      ParseLast(a + init, last);
      ParseLast(init, last);
      Associate(ParseAll(a), ParseAll(init), if Kept(ParseItem(last)) then [ParseItem(last)] else []);
      assert init + [last] == b && (a + init) + [last] == a + b;
    }
  }

  lemma Associate(x: seq<Target>, y: seq<Target>, z: seq<Target>)
    ensures (x + y) + z == x + (y + z)
  {
  }

  lemma PrintAppend(a: seq<Target>, b: seq<Target>)
    ensures PrintAll(a + b) == PrintAll(a) + PrintAll(b)
  {
  }

  /** Under `key` the table holds the text `t`, which is not empty. */
  predicate Holds(f: map<string, Value>, key: string, t: string) { key in f && f[key] == Text(t) && t != "" }

  /** What the table says under `key`, or, if that gives no text, under `alias`. */
  ghost predicate Says(f: map<string, Value>, key: string, alias: string, o: Option<string>) {
    match o
    case Some(t) => Holds(f, key, t) || ((forall u :: !Holds(f, key, u)) && Holds(f, alias, t))
    case None => forall u :: !Holds(f, key, u) && !Holds(f, alias, u)
  }

  /** What a table is listed as: platform and architecture if it says both, else its
      name, else its platform; a table that says nothing is not listed. */
  function TableListing(n: Option<string>, p: Option<string>, a: Option<string>): seq<string> {
    if n.None? && p.None? && a.None? then []
    else if p.Some? && a.Some? then [p.value + "/" + a.value]
    else if n.Some? then [n.value]
    else if p.Some? then [p.value]
    else [""]
  }

  function OrEmpty(o: Option<string>): string { if o.Some? then o.value else "" }

  lemma TableFields(f: map<string, Value>, n: Option<string>, p: Option<string>, a: Option<string>)
    requires Says(f, "name", "name", n) && Says(f, "plat", "platform", p) && Says(f, "arch", "architecture", a)
    ensures ParseItem(Table(f)).name == OrEmpty(n)
    ensures ParseItem(Table(f)).plat == OrEmpty(p)
    ensures ParseItem(Table(f)).arch == OrEmpty(a)
  {
    assert forall key :: Field(f, key) != "" ==> Holds(f, key, Field(f, key));
    assert forall key, t :: Holds(f, key, t) ==> Field(f, key) == t;
  }

  /** A table is listed at its place in the order, whatever is declared around it. */
  lemma TableRoundTrip(pre: seq<Value>, f: map<string, Value>, post: seq<Value>,
                       n: Option<string>, p: Option<string>, a: Option<string>)
    requires Says(f, "name", "name", n) && Says(f, "plat", "platform", p) && Says(f, "arch", "architecture", a)
    ensures PrintAll(ParseAll(pre + [Table(f)] + post)) ==
            PrintAll(ParseAll(pre)) + TableListing(n, p, a) + PrintAll(ParseAll(post))
  {
    var t := ParseItem(Table(f));
    TableFields(f, n, p, a);
    TablePrints(t, n, p, a);
    ParseLast(pre, Table(f));
    ParseAppend(pre + [Table(f)], post);
    PrintAppend(ParseAll(pre + [Table(f)]), ParseAll(post));
    PrintAppend(ParseAll(pre), if Kept(t) then [t] else []);
  }

  lemma TablePrints(t: Target, n: Option<string>, p: Option<string>, a: Option<string>)
    requires t.name == OrEmpty(n) && t.plat == OrEmpty(p) && t.arch == OrEmpty(a)
    requires (n.Some? ==> n.value != "") && (p.Some? ==> p.value != "") && (a.Some? ==> a.value != "")
    ensures PrintAll(if Kept(t) then [t] else []) == TableListing(n, p, a)
  {
    assert PrintAll([t]) == [Print(t)];
  }

  /** So `HasTarget` finds a table that says both, under either key and whether or not
      it has a name. */
  lemma TableIsFound(pre: seq<Value>, f: map<string, Value>, post: seq<Value>, n: Option<string>, p: string, a: string)
    requires Says(f, "name", "name", n)
    requires Says(f, "plat", "platform", Some(p)) && Says(f, "arch", "architecture", Some(a))
    ensures p + "/" + a in PrintAll(ParseAll(pre + [Table(f)] + post))
  {
    TableRoundTrip(pre, f, post, n, Some(p), Some(a));
    var out := PrintAll(ParseAll(pre + [Table(f)] + post));
    assert out[|ParseAll(pre)|] == p + "/" + a;
  }

  /** An entry that is neither a text nor a table declares nothing. */
  lemma OthersAreIgnored(pre: seq<Value>, post: seq<Value>)
    ensures ParseAll(pre + [Other] + post) == ParseAll(pre) + ParseAll(post)
  {
    ParseAppend(pre + [Other], post);
    ParseLast(pre, Other);
  }

  /** The kconfig of a table holds exactly the text entries of its own. */
  lemma KConfigIsText(f: map<string, Value>, key: string, t: string)
    ensures var kc := ParseItem(Table(f)).kconfig;
            key in kc && kc[key] == t <==>
            "kconfig" in f && f["kconfig"].Table? && key in f["kconfig"].fields && f["kconfig"].fields[key] == Text(t)
  {
  }
}
