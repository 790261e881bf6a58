/** The APIs a workspace exposes through annotations, and which of them a request
    reaches over HTTP or over a WebSocket. */
module ApiRouting {
  import opened Sorting
  import opened Pods
  import opened Text

  datatype Api = Api(name: string, port: string, path: string, verbs: string, visibility: string)

  const PREFIX := "nogoo9/api."

  const FIELDS := {"port", "path", "desc", "method", "refresh", "visibility"}

  // ----- parsing

  /** `nogoo9/api.<name>.<field>`, when the key has that form. */
  function ParseKey(key: string): Option<(string, string)> {
    if !(PREFIX <= key) then None
    else
      var parts := Split(key[|PREFIX|..], '.');
      if |parts| == 2 && parts[0] != "" && parts[1] in FIELDS then Some((parts[0], parts[1])) else None
  }

  ghost predicate IsKey(key: string, name: string, field: string) {
    && name != "" && '.' !in name && key == "nogoo9/api." + name + "." + field
    && field in {"port", "path", "desc", "method", "refresh", "visibility"}
  }

  lemma KeyParses(key: string, name: string, field: string)
    requires IsKey(key, name, field)
    ensures ParseKey(key) == Some((name, field))
  {
    var both := [name, field];
    JoinSplits(both, '.');
    assert Join(both[1..], '.') == field;
    assert key == PREFIX + Join(both, '.');
    assert key[|PREFIX|..] == Join(both, '.');
  }

  /** Which annotations describe an API: the prefix, a name without dots, a known field. */
  lemma ParseKeyMeaning(key: string, name: string, field: string)
    ensures ParseKey(key) == Some((name, field)) <==> IsKey(key, name, field)
  {
    if IsKey(key, name, field) {
      KeyParses(key, name, field);
    } else if PREFIX <= key {
      var rest := key[|PREFIX|..];
      var parts := Split(rest, '.');
      SplitJoins(rest, '.');
      assert key == PREFIX + rest;
      if |parts| == 2 {
        assert Join(parts[1..], '.') == parts[1];
        assert rest == parts[0] + "." + parts[1];
      }
    }
  }

  /** Without an annotation, statistics and activity are for administrators, whatever the
      case of the letters, and anything else is private. */
  lemma DefaultVisibilityMeaning(name: string)
    ensures DefaultVisibility(name) ==
            if SameLetters(name, "stats") || SameLetters(name, "last_activity") || SameLetters(name, "last-activity")
            then "admin" else "private"
  {
    SameUpper(name, "stats", "STATS");
    SameUpper(name, "last_activity", "LAST_ACTIVITY");
    SameUpper(name, "last-activity", "LAST-ACTIVITY");
  }

  lemma SameUpper(name: string, word: string, upper: string)
    requires |word| == |upper|
    requires forall i :: 0 <= i < |word| ==>
               upper[i] == (if 'a' <= word[i] <= 'z' then word[i] - 'a' + 'A' else word[i]) && !('A' <= word[i] <= 'Z')
    ensures SameLetters(name, word) <==> Upper(name) == upper
  {
    if SameLetters(name, word) {
      forall i | 0 <= i < |name| ensures Upper(name)[i] == upper[i] {
        assert SameLetter(name[i], word[i]);
      }
    }
    if Upper(name) == upper {
      forall i | 0 <= i < |name| ensures SameLetter(name[i], word[i]) {
        assert Upper(name)[i] == upper[i];
      }
    }
  }

  predicate SameLetter(c: char, d: char) { c == d || ('a' <= d <= 'z' && c == d - 'a' + 'A') }

  ghost predicate SameLetters(name: string, word: string) {
    |name| == |word| && forall i :: 0 <= i < |name| ==> SameLetter(name[i], word[i])
  }

  datatype Table = Table(names: seq<string>, records: map<string, map<string, string>>)

  function AddEntry(t: Table, entry: (string, string)): Table {
    match ParseKey(entry.0)
    case None => t
    case Some((name, field)) =>
      if name in t.records
      then t.(records := t.records[name := t.records[name][field := entry.1]])
      else Table(t.names + [name], t.records[name := map[field := entry.1]])
  }

  function Collect(entries: seq<(string, string)>): Table {
    if entries == [] then Table([], map[])
    else AddEntry(Collect(entries[..|entries| - 1]), entries[|entries| - 1])
  }

  function DefaultVisibility(name: string): string {
    if Upper(name) in {"STATS", "LAST_ACTIVITY", "LAST-ACTIVITY"} then "admin" else "private"
  }

  function ToApi(name: string, record: map<string, string>): Api {
    Api(name, Lookup(record, "port"), if "path" in record then record["path"] else "/",
        Lookup(record, "method"),
        if Lookup(record, "visibility") != "" then record["visibility"] else DefaultVisibility(name))
  }

  function ToApis(names: seq<string>, records: map<string, map<string, string>>): seq<Api>
    requires forall n :: n in names ==> n in records
  {
    if names == [] then []
    else
      var name := names[|names| - 1];
      var rest := ToApis(names[..|names| - 1], records);
      if Lookup(records[name], "port") != "" then rest + [ToApi(name, records[name])] else rest
  }

  /** Annotations in the order `Object.entries` gives them. */
  method ParseWorkspaceApis(entries: seq<(string, string)>) returns (apis: seq<Api>)
    ensures var t := Collect(entries);
            (forall n :: n in t.names ==> n in t.records) && apis == ToApis(t.names, t.records)
  {
    var t := Table([], map[]);
    var k := 0;
    while k < |entries|
      invariant 0 <= k <= |entries|
      invariant t == Collect(entries[..k])
    {
      assert entries[..k + 1][..k] == entries[..k];
      t := AddEntry(t, entries[k]);
      k := k + 1;
    }
    assert entries[..k] == entries;
    NamesHaveRecords(entries);
    apis := [];
    k := 0;
    while k < |t.names|
      invariant 0 <= k <= |t.names|
      invariant apis == ToApis(t.names[..k], t.records)
    {
      assert t.names[..k + 1][..k] == t.names[..k];
      if Lookup(t.records[t.names[k]], "port") != "" {
        apis := apis + [ToApi(t.names[k], t.records[t.names[k]])];
      }
      k := k + 1;
    }
    assert t.names[..k] == t.names;
  }

  /** The last value annotated under a name and a field. */
  function Annotated(entries: seq<(string, string)>, name: string, field: string): Option<string> {
    if entries == [] then None
    else if ParseKey(entries[|entries| - 1].0) == Some((name, field)) then Some(entries[|entries| - 1].1)
    else Annotated(entries[..|entries| - 1], name, field)
  }

  ghost predicate TableOk(t: Table) {
    && (forall n :: n in t.names <==> n in t.records)
    && (forall i, j :: 0 <= i < j < |t.names| ==> t.names[i] != t.names[j])
  }

  lemma AddEntryOk(t: Table, entry: (string, string))
    requires TableOk(t)
    ensures TableOk(AddEntry(t, entry))
  {
    var r := AddEntry(t, entry);
    assert forall n :: n in t.names ==> n in r.names;
    if |r.names| > |t.names| {
      assert r.names[|t.names|] !in t.names;
    }
  }

  /** Every name has one record, and no name is listed twice. */
  lemma {:induction false} NamesHaveRecords(entries: seq<(string, string)>)
    ensures TableOk(Collect(entries))
  {
    if entries != [] {
      NamesHaveRecords(entries[..|entries| - 1]);
      AddEntryOk(Collect(entries[..|entries| - 1]), entries[|entries| - 1]);
    }
  }

  predicate IsAbout(entry: (string, string), name: string) {
    match ParseKey(entry.0) case Some((n, _)) => n == name case None => false
  }

  /** The first annotation of `a` comes before any of `b`. */
  ghost predicate ComesFirst(entries: seq<(string, string)>, a: string, b: string) {
    exists k :: 0 <= k < |entries| && IsAbout(entries[k], a) && forall l :: 0 <= l <= k ==> !IsAbout(entries[l], b)
  }

  ghost predicate IsNamed(entries: seq<(string, string)>, name: string) {
    exists k :: 0 <= k < |entries| && IsAbout(entries[k], name)
  }

  ghost predicate InOrder(entries: seq<(string, string)>, names: seq<string>) {
    && (forall name :: name in names <==> IsNamed(entries, name))
    && (forall i, j :: 0 <= i < j < |names| ==> ComesFirst(entries, names[i], names[j]))
  }

  lemma NamedAppend(front: seq<(string, string)>, last: (string, string), name: string)
    ensures IsNamed(front + [last], name) <==> IsNamed(front, name) || IsAbout(last, name)
  {
    var entries := front + [last];
    if k :| 0 <= k < |front| && IsAbout(front[k], name) { assert IsAbout(entries[k], name); }
    if k :| 0 <= k < |entries| && IsAbout(entries[k], name) {
      assert k < |front| ==> front[k] == entries[k];
    }
    assert entries[|front|] == last;
  }

  /** Names are listed in the order in which they are first annotated. */
  lemma {:induction false} NamesInOrder(entries: seq<(string, string)>)
    ensures InOrder(entries, Collect(entries).names)
  {
    if entries != [] {
      var front, last := entries[..|entries| - 1], entries[|entries| - 1];
      var before, names := Collect(front).names, Collect(entries).names;
      assert entries == front + [last];
      NamesInOrder(front);
      NamesHaveRecords(front);
      forall name ensures name in names <==> IsNamed(entries, name) { NamedAppend(front, last, name); }
      forall i, j | 0 <= i < j < |names| ensures ComesFirst(entries, names[i], names[j]) {
        OrderCarries(front, last, before, names, i, j);
      }
    }
  }

  lemma OrderCarries(front: seq<(string, string)>, last: (string, string), before: seq<string>, names: seq<string>, i: nat, j: nat)
    requires InOrder(front, before) && i < j < |names|
    requires names == before || (|names| == |before| + 1 && names[..|before|] == before && names[|before|] !in before)
    ensures ComesFirst(front + [last], names[i], names[j])
  {
    assert names[i] == before[i] && before[i] in before;
    if j < |before| {
      assert names[j] == before[j];
    } else {
      OnlyNamed(front, names[i], names[j]);
    }
    FirstStays(front, last, names[i], names[j]);
  }

  lemma OnlyNamed(entries: seq<(string, string)>, a: string, b: string)
    requires IsNamed(entries, a) && !IsNamed(entries, b)
    ensures ComesFirst(entries, a, b)
  {
    var k :| 0 <= k < |entries| && IsAbout(entries[k], a);
  }

  lemma FirstStays(front: seq<(string, string)>, last: (string, string), a: string, b: string)
    requires ComesFirst(front, a, b)
    ensures ComesFirst(front + [last], a, b)
  {
    var entries := front + [last];
    var k :| 0 <= k < |front| && IsAbout(front[k], a) && forall l :: 0 <= l <= k ==> !IsAbout(front[l], b);
    assert entries[k] == front[k];
    forall l | 0 <= l <= k ensures !IsAbout(entries[l], b) { assert entries[l] == front[l]; }
  }

  lemma {:induction false} RecordsHoldAnnotations(entries: seq<(string, string)>, name: string, field: string)
    ensures var t := Collect(entries);
            Annotated(entries, name, field) ==
            if name in t.records && field in t.records[name] then Some(t.records[name][field]) else None
  {
    if entries != [] {
      RecordsHoldAnnotations(entries[..|entries| - 1], name, field);
    }
  }

  /** What a name amounts to, read off the annotations directly. */
  function ApiOf(entries: seq<(string, string)>, name: string): Api {
    var field := (f: string) => Annotated(entries, name, f);
    Api(name,
        field("port").GetOr(""), field("path").GetOr("/"), field("method").GetOr(""),
        if field("visibility").GetOr("") != "" then field("visibility").GetOr("") else DefaultVisibility(name))
  }

  lemma {:induction false} ToApisIn(names: seq<string>, records: map<string, map<string, string>>, a: Api)
    requires forall n :: n in names ==> n in records
    ensures a in ToApis(names, records) <==>
            a.name in names && Lookup(records[a.name], "port") != "" && a == ToApi(a.name, records[a.name])
  {
    if names != [] {
      var front, last := names[..|names| - 1], names[|names| - 1];
      assert names == front + [last];
      ToApisIn(front, records, a);
    }
  }

  /** The parsed list holds exactly the names that have a port, each with its
      last annotated fields and the documented defaults. */
  lemma ParsedApisAreAnnotated(entries: seq<(string, string)>, a: Api)
    ensures var t := Collect(entries);
            && (forall n :: n in t.names ==> n in t.records)
            && (a in ToApis(t.names, t.records) <==> a == ApiOf(entries, a.name) && a.port != "")
  {
    NamesHaveRecords(entries);
    var t := Collect(entries);
    ToApisIn(t.names, t.records, a);
    RecordsHoldAnnotations(entries, a.name, "port");
    RecordsHoldAnnotations(entries, a.name, "path");
    RecordsHoldAnnotations(entries, a.name, "method");
    RecordsHoldAnnotations(entries, a.name, "visibility");
  }

  // ----- matching

  /** The API's path without one trailing slash. */
  function Trimmed(path: string): string {
    if path != [] && path[|path| - 1] == '/' then path[..|path| - 1] else path
  }

  /** The path is the API's path or lies below it. */
  predicate Hits(api: Api, path: string) {
    var t := Trimmed(api.path);
    t != "" && (path == t || t + "/" <= path)
  }

  predicate Allows(api: Api, verb: string) {
    api.verbs == "" || "*" in Items(Upper(api.verbs), ',') || verb in Items(Upper(api.verbs), ',')
  }

  /** A path leads to an API if it is the API's own path without its last slash, or goes on
      behind that with a slash; what goes on is what the API gets to see. */
  lemma HitsMeaning(api: Api, path: string)
    ensures Hits(api, path) <==> exists own, rest :: Leads(api, path, own, rest)
    ensures forall own, rest :: Leads(api, path, own, rest) ==> Rest(api, path) == if rest == "" then "/" else rest
  {
    var t := Trimmed(api.path);
    if Hits(api, path) {
      var rest := path[|t|..];
      if path == t {
        assert path == t + "" && rest == "";
      } else {
        assert (t + "/")[|t|] == '/' && path[|t|] == '/';
        assert path == t + rest;
      }
      assert t + "/" == api.path || t == api.path;
      assert Leads(api, path, t, rest);
    }
    forall own, rest | Leads(api, path, own, rest)
      ensures Hits(api, path) && Rest(api, path) == if rest == "" then "/" else rest
    {
      assert own == t;
      if rest != "" {
        assert rest == "/" + rest[1..];
        assert path == own + "/" + rest[1..];
      }
      assert path[|t|..] == rest;
    }
  }

  ghost predicate Leads(api: Api, path: string, own: string, rest: string) {
    && own != "" && (api.path == own + "/" || (api.path == own && own[|own| - 1] != '/'))
    && path == own + rest && (rest == "" || rest[0] == '/')
  }

  /** An API allows every method unless it lists some, in any case and with blanks around
      them; then those, or all if a star is among them. */
  lemma AllowsMeaning(api: Api, verb: string)
    ensures Allows(api, verb) <==>
            api.verbs == "" ||
            exists part :: HasPart(Upper(api.verbs), Is(','), part) && (Trim(part) == verb || Trim(part) == "*")
  {
    ItemsMeaning(Upper(api.verbs), ',', verb);
    ItemsMeaning(Upper(api.verbs), ',', "*");
  }

  predicate LongerFirst(a: Api, b: Api) { |a.path| >= |b.path| }

  /** What is left for the API behind its own path. */
  function Rest(api: Api, path: string): string
    requires Hits(api, path)
  {
    var rest := path[|Trimmed(api.path)|..];
    if rest == "" then "/" else rest
  }

  datatype Match = NoMatch | Match(api: Api, rest: string)

  /** `verb` is the HTTP method, or absent for a WebSocket, which tests none. */
  predicate Takes(api: Api, path: string, verb: Option<string>) {
    Hits(api, path) && (verb.None? || Allows(api, verb.value))
  }

  function FirstMatch(apis: seq<Api>, path: string, verb: Option<string>): Match {
    if apis == [] then NoMatch
    else if Takes(apis[0], path, verb) then Match(apis[0], Rest(apis[0], path))
    else FirstMatch(apis[1..], path, verb)
  }

  function Route(apis: seq<Api>, path: string, verb: Option<string>): Match {
    FirstMatch(Sort(LongerFirst, apis), path, verb)
  }

  /** The loop of the HTTP proxy: port, and the subpath when it is rewritten. */
  method MatchHttp(apis: seq<Api>, path: string, verb: string, workspacePort: string)
    returns (matched: Option<Api>, port: string, rewritten: Option<string>)
    ensures matched == (match Route(apis, path, Some(verb)) case Match(api, _) => Some(api) case NoMatch => None)
    ensures port == (match Route(apis, path, Some(verb)) case Match(api, _) => api.port case NoMatch => workspacePort)
    ensures rewritten == (match Route(apis, path, Some(verb))
                          case Match(api, rest) => if api.port != workspacePort then Some(rest) else None
                          case NoMatch => None)
  {
    matched, port, rewritten := None, workspacePort, None;
    var sorted := Sort(LongerFirst, apis);
    var k := 0;
    while k < |sorted|
      invariant 0 <= k <= |sorted|
      invariant matched == None && port == workspacePort && rewritten == None
      invariant FirstMatch(sorted[k..], path, Some(verb)) == Route(apis, path, Some(verb))
    {
      var api := sorted[k];
      var trimmed := Trimmed(api.path);
      if trimmed != "" {
        var pathMatches := path == trimmed || trimmed + "/" <= path;
        if pathMatches && Allows(api, verb) {
          matched, port := Some(api), api.port;
          if port != workspacePort {
            var rest := path[|trimmed|..];
            rewritten := Some(if rest == "" then "/" else rest);
          }
          return;
        }
      }
      assert sorted[k..][1..] == sorted[k + 1..];
      k := k + 1;
    }
  }

  /** The loop of the WebSocket proxy, which always has a path to send on. */
  method MatchWebSocket(apis: seq<Api>, path: string, workspacePort: string)
    returns (matched: Option<Api>, port: string, rewritten: string)
    ensures matched == (match Route(apis, path, None) case Match(api, _) => Some(api) case NoMatch => None)
    ensures port == (match Route(apis, path, None) case Match(api, _) => api.port case NoMatch => workspacePort)
    ensures rewritten == (match Route(apis, path, None)
                          case Match(api, rest) => if api.port != workspacePort then rest else path
                          case NoMatch => path)
  {
    matched, port, rewritten := None, workspacePort, path;
    var sorted := Sort(LongerFirst, apis);
    var k := 0;
    while k < |sorted|
      invariant 0 <= k <= |sorted|
      invariant matched == None && port == workspacePort && rewritten == path
      invariant FirstMatch(sorted[k..], path, None) == Route(apis, path, None)
    {
      var api := sorted[k];
      var trimmed := Trimmed(api.path);
      if trimmed != "" && (path == trimmed || trimmed + "/" <= path) {
        matched, port := Some(api), api.port;
        if port != workspacePort {
          var rest := path[|trimmed|..];
          rewritten := if rest == "" then "/" else rest;
        }
        return;
      }
      assert sorted[k..][1..] == sorted[k + 1..];
      k := k + 1;
    }
  }

  // ----- longest prefix

  /** Among APIs that hit the same path, a longer trimmed path has a longer raw
      path too, although sorting counts the trailing slash and matching does not. */
  lemma RawLengthFollowsTrimmed(a: Api, b: Api, path: string)
    requires Hits(a, path) && Hits(b, path) && |Trimmed(a.path)| > |Trimmed(b.path)|
    ensures |a.path| > |b.path|
  {
    var ta, tb := Trimmed(a.path), Trimmed(b.path);
    assert ta <= path by {
      if path != ta { assert ta <= ta + "/"; }
    }
    assert tb + "/" <= path && (tb + "/")[|tb|] == '/';
    assert path[|tb|] == '/';
    assert ta[|tb|] == '/';
    if |ta| == |tb| + 1 {
      assert ta[|ta| - 1] == '/';
      assert a.path != ta;
    }
  }

  lemma {:induction false} FirstMatchMeaning(apis: seq<Api>, path: string, verb: Option<string>)
    ensures match FirstMatch(apis, path, verb)
            case NoMatch => forall a :: a in apis ==> !Takes(a, path, verb)
            case Match(api, rest) =>
              exists i :: 0 <= i < |apis| && apis[i] == api && Takes(api, path, verb) && rest == Rest(api, path) &&
                          forall k :: 0 <= k < i ==> !Takes(apis[k], path, verb)
  {
    if apis != [] && !Takes(apis[0], path, verb) {
      FirstMatchMeaning(apis[1..], path, verb);
      if FirstMatch(apis, path, verb).Match? {
        var Match(api, rest) := FirstMatch(apis, path, verb);
        var i :| 0 <= i < |apis[1..]| && apis[1..][i] == api && Takes(api, path, verb) && rest == Rest(api, path) &&
                 forall k :: 0 <= k < i ==> !Takes(apis[1..][k], path, verb);
        assert apis[i + 1] == api;
        forall k | 0 <= k < i + 1 ensures !Takes(apis[k], path, verb) {
          if k > 0 { assert apis[k] == apis[1..][k - 1]; }
        }
      }
    }
  }

  lemma LongerFirstIsPreorder()
    ensures TotalPreorder(LongerFirst)
  {
  }

  /** Routing is longest-prefix matching: the chosen API is one that takes the
      request, no API that takes it has a longer path, and a request goes
      unmatched only if none takes it. */
  lemma RouteIsLongestPrefix(apis: seq<Api>, path: string, verb: Option<string>)
    ensures match Route(apis, path, verb)
            case NoMatch => forall a :: a in apis ==> !Takes(a, path, verb)
            case Match(api, rest) =>
              && api in apis && Takes(api, path, verb) && rest == Rest(api, path)
              && forall a :: a in apis && Takes(a, path, verb) ==> |Trimmed(a.path)| <= |Trimmed(api.path)|
  {
    var sorted := Sort(LongerFirst, apis);
    SortSameElements(LongerFirst, apis);
    LongerFirstIsPreorder();
    SortSorts(LongerFirst, apis);
    FirstMatchMeaning(sorted, path, verb);
    if Route(apis, path, verb).Match? {
      var Match(api, rest) := Route(apis, path, verb);
      var i :| 0 <= i < |sorted| && sorted[i] == api && Takes(api, path, verb) && rest == Rest(api, path) &&
               forall k :: 0 <= k < i ==> !Takes(sorted[k], path, verb);
      forall a | a in apis && Takes(a, path, verb) ensures |Trimmed(a.path)| <= |Trimmed(api.path)| {
        assert a in sorted;
        var j :| 0 <= j < |sorted| && sorted[j] == a;
        assert i == j || LongerFirst(sorted[i], sorted[j]);
        if |Trimmed(a.path)| > |Trimmed(api.path)| {
          RawLengthFollowsTrimmed(a, api, path);
        }
      }
    } else {
      assert forall a :: a in apis ==> a in sorted;
    }
  }

  /** The rest always starts with a slash, and together with the API's path it
      is the requested path again, unless the request named the API itself. */
  lemma RestCompletesPath(api: Api, path: string)
    requires Hits(api, path)
    ensures Rest(api, path)[..1] == "/"
    ensures if path == Trimmed(api.path) then Rest(api, path) == "/" else Trimmed(api.path) + Rest(api, path) == path
  {
    var t := Trimmed(api.path);
    if path != t {
      assert (t + "/")[|t|] == '/' && path[|t|] == '/';
      assert path == path[..|t|] + path[|t|..];
    }
  }

  lemma {:induction false} FirstMatchWithVerb(apis: seq<Api>, path: string, verb: string)
    ensures FirstMatch(apis, path, Some(verb)) == FirstMatch(apis, path, None) <==>
            var ws := FirstMatch(apis, path, None);
            ws.NoMatch? || Allows(ws.api, verb)
  {
    FirstMatchMeaning(apis, path, Some(verb));
    if apis != [] && !Takes(apis[0], path, None) {
      FirstMatchWithVerb(apis[1..], path, verb);
    }
  }

  /** Both proxies send a request to the same API, port and subpath exactly if
      the API the WebSocket proxy picks allows the HTTP method as well; so they
      always agree when every API allows it. */
  lemma ProxiesAgree(apis: seq<Api>, path: string, verb: string)
    ensures Route(apis, path, Some(verb)) == Route(apis, path, None) <==>
            var ws := Route(apis, path, None);
            ws.NoMatch? || Allows(ws.api, verb)
    ensures (forall a :: a in apis ==> Allows(a, verb)) ==>
              Route(apis, path, Some(verb)) == Route(apis, path, None)
  {
    FirstMatchWithVerb(Sort(LongerFirst, apis), path, verb);
    RouteIsLongestPrefix(apis, path, None);
  }
}
