/** The daemon's request router and the client that builds requests for it. */
module Router {
  import opened Common
  import opened Text
  import opened Naming

  const COLLECTION := "/v1/instances"
  const PREFIX := "/v1/instances/"

  /** Which handler a request reaches. */
  datatype Route =
    | Unauthorized
    | Creating
    | Showing(id: string)
    | Deleting(id: string)
    | Logging(id: string)
    | NotAllowed
    | NotFound

  /** The router, as ServeHTTP branches. */
  function RouteOf(verb: string, path: string): Route {
    if path == COLLECTION then (if verb == "POST" then Creating else NotAllowed)
    else if HasPrefix(path, PREFIX) then
      var parts := Split(path[|PREFIX|..], '/');
      if |parts| == 1 && parts[0] != "" then
        if verb == "GET" then Showing(parts[0])
        else if verb == "DELETE" then Deleting(parts[0])
        else NotAllowed
      else if |parts| == 2 && parts[0] != "" && parts[1] == "logs" then
        if verb == "GET" then Logging(parts[0]) else NotAllowed
      else NotFound
    else NotFound
  }

  /** ServeHTTP: the bearer token first, an empty token admitting everyone. */
  function Serve(token: string, header: string, verb: string, path: string): Route {
    if token != "" && header != "Bearer " + token then Unauthorized else RouteOf(verb, path)
  }

  predicate IsName(id: string) { id != "" && '/' !in id }

  // ------------------------------------------------------------- the router, exactly

  lemma PathOfParts(path: string)
    requires HasPrefix(path, PREFIX)
    ensures var parts := Split(path[|PREFIX|..], '/');
            && (|parts| == 1 ==> path == PREFIX + parts[0])
            && (|parts| == 2 ==> path == PREFIX + parts[0] + "/" + parts[1])
  {
    var rest := path[|PREFIX|..];
    JoinSplit(rest, '/');
    assert path == PREFIX + rest;
    var parts := Split(rest, '/');
    if |parts| == 2 {
      assert Join(parts, '/') == parts[0] + ['/'] + Join(parts[1..], '/') && Join(parts[1..], '/') == parts[1];
    }
  }

  lemma PartsOfPath(id: string)
    requires '/' !in id
    ensures Split((PREFIX + id)[|PREFIX|..], '/') == [id]
    ensures Split((PREFIX + id + "/logs")[|PREFIX|..], '/') == [id, "logs"]
  {
    assert (PREFIX + id)[|PREFIX|..] == id;
    SplitJoin([id], '/');
    assert Join([id, "logs"], '/') == id + ['/'] + Join(["logs"], '/') by { assert [id, "logs"][1..] == ["logs"]; }
    assert (PREFIX + id + "/logs")[|PREFIX|..] == id + "/logs" == Join([id, "logs"], '/');
    SplitJoin([id, "logs"], '/');
  }

  /** A path that the router knows spells out one id. */
  predicate Spells(path: string, id: string) { IsName(id) && (path == PREFIX + id || path == PREFIX + id + "/logs") }

  /** On a path that spells out an id, the router branches on that id. */
  lemma RouteOfNamed(verb: string, path: string, id: string)
    requires Spells(path, id)
    ensures path != COLLECTION
    ensures path == PREFIX + id ==> path != PREFIX + id + "/logs"
    ensures path == PREFIX + id ==>
              (RouteOf(verb, path) ==
               if verb == "GET" then Showing(id) else if verb == "DELETE" then Deleting(id) else NotAllowed)
    ensures path == PREFIX + id + "/logs" ==> RouteOf(verb, path) == if verb == "GET" then Logging(id) else NotAllowed
  {
    PartsOfPath(id);
    assert PREFIX <= path && !(PREFIX <= COLLECTION);
    assert path == PREFIX + id ==> |path| < |PREFIX + id + "/logs"|;
  }

  /** Any other path is the collection or unknown. */
  lemma RouteOfOther(verb: string, path: string)
    requires path != COLLECTION && RouteOf(verb, path) != NotFound
    ensures exists id :: Spells(path, id)
  {
    PathOfParts(path);
    var id := Split(path[|PREFIX|..], '/')[0];
    assert Spells(path, id);
  }

  /** Every handler is reached by exactly its own method and path; any other
      method on a known path is refused, and every other path is unknown. */
  lemma RouterIsExact(verb: string, path: string, id: string)
    ensures RouteOf(verb, path) == Creating <==> verb == "POST" && path == COLLECTION
    ensures RouteOf(verb, path) == Showing(id) <==> verb == "GET" && IsName(id) && path == PREFIX + id
    ensures RouteOf(verb, path) == Deleting(id) <==> verb == "DELETE" && IsName(id) && path == PREFIX + id
    ensures RouteOf(verb, path) == Logging(id) <==> verb == "GET" && IsName(id) && path == PREFIX + id + "/logs"
    ensures IsName(id) && path == PREFIX + id ==>
              (RouteOf(verb, path) == NotAllowed <==> verb != "GET" && verb != "DELETE")
    ensures IsName(id) && path == PREFIX + id + "/logs" ==> (RouteOf(verb, path) == NotAllowed <==> verb != "GET")
    ensures RouteOf(verb, path) == NotFound <==> path != COLLECTION && forall n :: !Spells(path, n)
  {
    forall n | Spells(path, n) ensures RouteOf(verb, path) != NotFound && path != COLLECTION {
      RouteOfNamed(verb, path, n);
    }
    if path != COLLECTION && RouteOf(verb, path) != NotFound {
      RouteOfOther(verb, path);
      var n :| Spells(path, n);
      RouteOfNamed(verb, path, n);
    }
    if Spells(path, id) { RouteOfNamed(verb, path, id); }
  }

  /** No handler is reached without the token. */
  lemma NoTokenNoHandler(token: string, header: string, verb: string, path: string)
    ensures Serve(token, header, verb, path) == Unauthorized <==> token != "" && header != "Bearer " + token
  {
    assert RouteOf(verb, path) != Unauthorized;
  }

  // ------------------------------------------------------------- the client

  predicate IsControl(c: char) { c < ' ' || c == 127 as char }

  predicate IsHex(c: char) { '0' <= c <= '9' || 'a' <= c <= 'f' || 'A' <= c <= 'F' }

  function HexValue(c: char): (v: nat)
    requires IsHex(c)
    ensures v < 16
  {
    if c <= '9' then (c - '0') as nat else if c >= 'a' then (c - 'a') as nat + 10 else (c - 'A') as nat + 10
  }

  /** Percent-decoding of a URL path; None is a malformed escape. */
  function Unescape(s: string): Option<string> {
    if s == "" then Some("")
    else if s[0] != '%' then
      (match Unescape(s[1..])
       case None => None
       case Some(r) => Some([s[0]] + r))
    else if |s| < 3 || !IsHex(s[1]) || !IsHex(s[2]) then None
    else
      match Unescape(s[3..])
      case None => None
      case Some(r) => Some([(16 * HexValue(s[1]) + HexValue(s[2])) as char] + r)
  }

  /** The path a request for `scheme://host` + `target` arrives with: the URL must
      hold no control character, a fragment and a query are cut off, and escapes
      are decoded. None: the client cannot build the request. */
  function Arrives(target: string): Option<string> {
    if exists i :: 0 <= i < |target| && IsControl(target[i]) then None
    else if Unescape(target[|Before(target, '#')|..]) == None then None
    else Unescape(Before(Before(target, '#'), '?'))
  }

  /** The targets the client formats after its base URL, and its authorization header. */
  function CreateTarget(): string { "/v1/instances" }

  function ClientHeader(token: string): string { "Bearer " + token }

  function InstanceTarget(id: string): string { "/v1/instances/" + id }

  function LogsTarget(id: string): string { "/v1/instances/" + id + "/logs" }

  /** Where a client request ends up on the server. */
  function Lands(verb: string, target: string): Option<Route> {
    match Arrives(target)
    case None => None
    case Some(path) => Some(RouteOf(verb, path))
  }

  /** An id that a URL path carries unchanged as one segment. */
  predicate Clean(id: string) {
    forall c :: c in id ==> c != '/' && c != '?' && c != '#' && c != '%' && !IsControl(c)
  }

  lemma {:induction false} UnescapeShrinks(s: string)
    ensures '%' !in s ==> Unescape(s) == Some(s)
    ensures Unescape(s).Some? ==> |Unescape(s).value| <= |s|
    ensures Unescape(s).Some? && |Unescape(s).value| == |s| ==> '%' !in s
  {
    if s == "" {
    } else if s[0] != '%' {
      UnescapeShrinks(s[1..]);
      assert s == [s[0]] + s[1..];
    } else if |s| >= 3 {
      UnescapeShrinks(s[3..]);
    }
  }

  predicate Plain(s: string) {
    forall c :: c in s ==> c != '?' && c != '#' && c != '%' && !IsControl(c)
  }

  lemma ArrivesUnchanged(target: string)
    ensures Arrives(target) == Some(target) <==> Plain(target)
  {
    var cut := Before(Before(target, '#'), '?');
    UnescapeShrinks(cut);
    assert target[|target|..] == "";
    if Arrives(target) == Some(target) {
      assert cut == target;
    }
  }

  lemma PlainTargets(id: string)
    ensures Plain(InstanceTarget(id)) <==> Plain(id)
    ensures Plain(LogsTarget(id)) <==> Plain(id)
  {
    assert Plain(PREFIX) && Plain("/logs");
    assert forall c :: c in id ==> c in InstanceTarget(id) && c in LogsTarget(id);
    assert forall c :: c in InstanceTarget(id) ==> c in PREFIX || c in id;
    assert forall c :: c in LogsTarget(id) ==> c in PREFIX || c in id || c in "/logs";
  }

  /** The client's get, delete and logs requests reach the matching handler with
      the same id exactly for the non-empty ids that need no escaping and hold no
      slash. */
  lemma ClientMeetsServer(id: string)
    ensures Lands("GET", InstanceTarget(id)) == Some(Showing(id)) <==> id != "" && Clean(id)
    ensures Lands("DELETE", InstanceTarget(id)) == Some(Deleting(id)) <==> id != "" && Clean(id)
    ensures Lands("GET", LogsTarget(id)) == Some(Logging(id)) <==> id != "" && Clean(id)
  {
    assert id != "" && Clean(id) <==> Plain(id) && IsName(id);
    PlainTargets(id);
    LandsExactly("GET", InstanceTarget(id), id);
    LandsExactly("DELETE", InstanceTarget(id), id);
    LandsExactly("GET", LogsTarget(id), id);
  }

  /** And its create requests reach the handler of creates. */
  lemma CreateMeetsServer()
    ensures Lands("POST", CreateTarget()) == Some(Creating)
  {
    assert Plain(CreateTarget());
    ArrivesUnchanged(CreateTarget());
  }

  /** A client with the server's token is never refused as unauthorized, and one with
      another token always, unless the server has none. */
  lemma TokenOpensServer(server: string, client: string, verb: string, path: string)
    ensures Serve(server, ClientHeader(client), verb, path) == Unauthorized <==> server != "" && client != server
  {
    NoTokenNoHandler(server, ClientHeader(client), verb, path);
    assert ClientHeader(client)[7..] == client && ("Bearer " + server)[7..] == server;
  }

  // ------------------------------------------------------------- escapes

  function HexDigit(v: nat): char
    requires v < 16
  {
    if v < 10 then '0' + v as char else 'A' + (v - 10) as char
  }

  predicate Bytes(s: string) { forall i :: 0 <= i < |s| ==> s[i] < 256 as char }

  /** Every byte percent-escaped. */
  function Escape(s: string): string
    requires Bytes(s)
  {
    if s == "" then "" else ['%', HexDigit(s[0] as nat / 16), HexDigit(s[0] as nat % 16)] + Escape(s[1..])
  }

  lemma HexRoundTrip(v: nat)
    requires v < 16
    ensures IsHex(HexDigit(v)) && HexValue(HexDigit(v)) == v
  {
  }

  /** Decoding undoes escaping. */
  lemma {:induction false} EscapeRoundTrip(s: string)
    requires Bytes(s)
    ensures Unescape(Escape(s)) == Some(s)
  {
    if s != "" {
      var hi, lo := s[0] as nat / 16, s[0] as nat % 16;
      HexRoundTrip(hi);
      HexRoundTrip(lo);
      EscapeRoundTrip(s[1..]);
      var e := Escape(s);
      assert e[0] == '%' && e[1] == HexDigit(hi) && e[2] == HexDigit(lo) && e[3..] == Escape(s[1..]);
      assert s == [s[0]] + s[1..] && (16 * hi + lo) as char == s[0];
    }
  }

  lemma LandsExactly(verb: string, target: string, id: string)
    requires target == InstanceTarget(id) || target == LogsTarget(id)
    ensures verb == "GET" && target == InstanceTarget(id) ==>
              (Lands(verb, target) == Some(Showing(id)) <==> Plain(target) && IsName(id))
    ensures verb == "DELETE" && target == InstanceTarget(id) ==>
              (Lands(verb, target) == Some(Deleting(id)) <==> Plain(target) && IsName(id))
    ensures verb == "GET" && target == LogsTarget(id) ==>
              (Lands(verb, target) == Some(Logging(id)) <==> Plain(target) && IsName(id))
  {
    ArrivesUnchanged(target);
    if Arrives(target).Some? { RouterIsExact(verb, Arrives(target).value, id); }
  }

  /** Every id the server issues is such an id. */
  lemma IssuedIdsAreClean(n: nat)
    ensures InstanceId(n) != "" && Clean(InstanceId(n))
  {
    DecimalIsDigits(n);
    forall c | c in InstanceId(n) ensures c != '/' && c != '?' && c != '#' && c != '%' && !IsControl(c) {
      assert c in "inst-" || c in Decimal(n);
    }
  }
}
