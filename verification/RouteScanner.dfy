/** The scanner that reads the method and path of every `.route("..", ..)` call out of the
    server's source text. */
module RouteScanner {
  import opened Basics

  const NEEDLE: string := ".route("

  datatype Scan = Scan(depth: int, quote: Option<char>, escaped: bool)

  /** One character: parentheses count outside quotes, and a backslash inside them escapes. */
  function Step(s: Scan, c: char): Scan {
    if s.quote.Some? then
      if s.escaped then s.(escaped := false)
      else if c == '\\' then s.(escaped := true)
      else if c == s.quote.value then s.(quote := None)
      else s
    else if c == '"' || c == '\'' then s.(quote := Some(c))
    else if c == '(' then s.(depth := s.depth + 1)
    else if c == ')' then s.(depth := s.depth - 1)
    else s
  }

  /** The state after a text. */
  function After(s: Scan, text: string): Scan
    decreases |text|
  {
    if text == [] then s else Step(After(s, text[..|text| - 1]), text[|text| - 1])
  }

  const INSIDE: Scan := Scan(1, None, false)

  /** The depth stays positive throughout the text. */
  ghost predicate StaysOpen(s: Scan, text: string) {
    forall k :: 0 <= k <= |text| ==> After(s, text[..k]).depth > 0
  }

  /** The parenthesis open before `start` closes at `e`: the least place where the depth
      outside quotes is zero. */
  ghost predicate ClosesAt(source: string, start: nat, e: int)
    requires start <= |source|
  {
    start <= e < |source| && StaysOpen(INSIDE, source[start..e]) && After(INSIDE, source[start..e + 1]).depth <= 0
  }

  lemma ClosesOutsideQuotes(source: string, start: nat, e: int)
    requires start <= |source| && ClosesAt(source, start, e)
    ensures source[e] == ')' && After(INSIDE, source[start..e]).quote.None?
            && After(INSIDE, source[start..e + 1]).depth == 0
  {
    var text := source[start..e + 1];
    assert text[..|text| - 1] == source[start..e] && text[|text| - 1] == source[e];
    assert source[start..e][..e - start] == source[start..e];
  }

  /** There is only one such place. */
  lemma ClosesOnce(source: string, start: nat, i: int, j: int)
    requires start <= |source| && ClosesAt(source, start, i) && ClosesAt(source, start, j)
    ensures i == j
  {
    if i < j {
      OpenBefore(source, start, i, j);
    } else if j < i {
      OpenBefore(source, start, j, i);
    }
  }

  lemma OpenBefore(source: string, start: nat, i: nat, j: nat)
    requires start <= i < j < |source| && StaysOpen(INSIDE, source[start..j])
    ensures After(INSIDE, source[start..i + 1]).depth > 0
  {
    assert source[start..j][..i + 1 - start] == source[start..i + 1];
  }

  lemma ClosesHere(source: string, start: nat, n: nat)
    requires start + n < |source| && After(INSIDE, source[start..][..n + 1]).depth <= 0
    requires forall k :: 0 <= k <= n ==> After(INSIDE, source[start..][..k]).depth > 0
    ensures ClosesAt(source, start, start + n)
  {
    var text, front := source[start..], source[start..start + n];
    assert front == text[..n] && source[start..start + n + 1] == text[..n + 1];
    forall k | 0 <= k <= n ensures After(INSIDE, front[..k]).depth > 0 {
      assert front[..k] == text[..k];
    }
  }

  lemma NeverCloses(source: string, start: nat)
    requires start <= |source|
    requires forall k :: 0 <= k <= |source| - start ==> After(INSIDE, source[start..][..k]).depth > 0
    ensures forall e :: !ClosesAt(source, start, e)
  {
    forall e | start <= e < |source| ensures !ClosesAt(source, start, e) {
      assert source[start..e + 1] == source[start..][..e + 1 - start];
    }
  }

  method MatchingRouteCallEnd(source: string, bodyStart: nat) returns (end: Option<nat>)
    requires bodyStart <= |source|
    ensures end.Some? ==> ClosesAt(source, bodyStart, end.value)
    ensures end.None? ==> forall e :: !ClosesAt(source, bodyStart, e)
  {
    var depth: int, quote: Option<char>, escaped := 1, None, false;
    var index := bodyStart;
    ghost var text := source[bodyStart..];
    hide ClosesAt;
    while index < |source|
      invariant bodyStart <= index <= |source| && depth > 0
      invariant After(INSIDE, text[..index - bodyStart]) == Scan(depth, quote, escaped)
      invariant quote.None? ==> !escaped
      invariant forall k :: 0 <= k <= index - bodyStart ==> After(INSIDE, text[..k]).depth > 0
    {
      ghost var n := index - bodyStart;
      var byte := source[index];
      assert text[..n + 1] == text[..n] + [byte];
      if quote.Some? {
        if escaped {
          escaped := false;
        } else if byte == '\\' {
          escaped := true;
        } else if byte == quote.value {
          quote := None;
        }
      } else if byte == '"' || byte == '\'' {
        quote := Some(byte);
      } else if byte == '(' {
        depth := depth + 1;
      } else if byte == ')' {
        depth := depth - 1;
        if depth == 0 {
          ClosesHere(source, bodyStart, n);
          return Some(index);
        }
      }
      index := index + 1;
    }
    NeverCloses(source, bodyStart);
    end := None;
  }

  // ----- looking for calls --------------------------------------------------------------------

  predicate IsIdent(c: char) {
    'a' <= c <= 'z' || 'A' <= c <= 'Z' || '0' <= c <= '9' || c == '_'
  }

  /** ASCII white space as the scanner skips it; a vertical tab is not part of it. */
  predicate IsSpace(c: char) {
    c in {' ', '\t', '\n', '\r', '\U{0C}'}
  }

  predicate OccursAt(source: string, name: string, i: int) {
    0 <= i && i + |name| <= |source| && source[i..i + |name|] == name
  }

  /** The name stands at `i` on its own, followed by the parenthesis at `open`. */
  predicate CallsAt(source: string, name: string, i: int, open: int) {
    && OccursAt(source, name, i) && !(i > 0 && IsIdent(source[i - 1]))
    && i + |name| <= open < |source| && source[open] == '('
    && forall k | i + |name| <= k < open :: IsSpace(source[k])
  }

  ghost predicate HasCall(source: string, name: string) {
    exists i, open :: CallsAt(source, name, i, open)
  }

  method Find(source: string, needle: string, start: nat) returns (at: Option<nat>)
    requires start <= |source|
    ensures at.Some? ==> start <= at.value && OccursAt(source, needle, at.value)
    ensures forall k :: start <= k && (at.Some? ==> k < at.value) ==> !OccursAt(source, needle, k)
  {
    var i := start;
    while i + |needle| <= |source|
      invariant start <= i
      invariant forall k :: start <= k < i ==> !OccursAt(source, needle, k)
    {
      if source[i..i + |needle|] == needle { return Some(i); }
      i := i + 1;
    }
    at := None;
  }

  /** `contains_call`. An occurrence that overlaps the one before it is preceded by a letter of
      the name, so skipping it loses nothing. */
  method ContainsCall(source: string, name: string) returns (found: bool)
    requires name != [] && forall k :: 0 <= k < |name| ==> IsIdent(name[k])
    ensures found <==> HasCall(source, name)
  {
    var start := 0;
    while start + |name| <= |source|
      invariant start <= |source|
      invariant forall i, open :: i < start ==> !CallsAt(source, name, i, open)
      decreases |source| - start
    {
      var at := Find(source, name, start);
      if at.None? {
        assert forall i, open :: CallsAt(source, name, i, open) ==> OccursAt(source, name, i);
        return false;
      }
      var index := at.value;
      var beforeIsIdent := index > 0 && IsIdent(source[index - 1]);
      var after := index + |name|;
      while after < |source| && IsSpace(source[after])
        invariant index + |name| <= after <= |source|
        invariant forall k :: index + |name| <= k < after ==> IsSpace(source[k])
      {
        after := after + 1;
      }
      if !beforeIsIdent && after < |source| && source[after] == '(' {
        assert CallsAt(source, name, index, after);
        return true;
      }
      forall i, open | i < index + |name| ensures !CallsAt(source, name, i, open) {
        if i < start {
        } else if i < index {
          assert !OccursAt(source, name, i);
        } else if i > index {
          OverlapIsNoCall(source, name, index, i, open);
        } else if !beforeIsIdent {
          NoOpening(source, name, i, open, after);
        }
      }
      start := index + |name|;
    }
    found := false;
  }

  lemma OverlapIsNoCall(source: string, name: string, index: nat, i: nat, open: int)
    requires OccursAt(source, name, index) && index < i < index + |name|
    requires forall k :: 0 <= k < |name| ==> IsIdent(name[k])
    ensures !CallsAt(source, name, i, open)
  {
    assert source[i - 1] == source[index..index + |name|][i - 1 - index];
  }

  lemma NoOpening(source: string, name: string, i: nat, open: int, after: nat)
    requires i + |name| <= after <= |source|
    requires forall k :: i + |name| <= k < after ==> IsSpace(source[k])
    requires after < |source| ==> !IsSpace(source[after]) && source[after] != '('
    ensures !CallsAt(source, name, i, open)
  {
  }

  // ----- the routes of a source ------------------------------------------------------------------

  datatype Route = Route(verb: string, path: string)

  predicate IsVersioned(path: string) {
    |path| >= 4 && path[..4] == "/v1/"
  }

  function TrimStart(s: string): string {
    if s != [] && IsWhite(s[0]) then TrimStart(s[1..]) else s
  }

  function QuoteIn(s: string): Option<nat> {
    if s == [] then None
    else if s[0] == '"' then Some(0)
    else match QuoteIn(s[1..])
      case None => None
      case Some(i) => Some(i + 1)
  }

  /** The path a call's body begins with, if it begins with a quoted one under /v1/. */
  function VersionedPath(body: string): Option<string> {
    var trimmed := TrimStart(body);
    if trimmed == [] || trimmed[0] != '"' then None
    else match QuoteIn(trimmed[1..])
      case None => None
      case Some(end) =>
        if end < |trimmed| && IsVersioned(trimmed[1..][..end]) then Some(trimmed[1..][..end]) else None
  }

  ghost function BodyRoutes(body: string): set<Route> {
    match VersionedPath(body)
    case None => {}
    case Some(path) => set verb | verb in {"get", "post"} && HasCall(body, verb) :: Route(verb, path)
  }

  /** Where the next `.route(` begins. */
  function NextRoute(source: string, i: nat): (at: Option<nat>)
    requires i <= |source|
    ensures at.Some? ==> i <= at.value && OccursAt(source, NEEDLE, at.value)
    ensures forall k :: i <= k && (at.Some? ==> k < at.value) ==> !OccursAt(source, NEEDLE, k)
    decreases |source| - i
  {
    if OccursAt(source, NEEDLE, i) then Some(i) else if i == |source| then None else NextRoute(source, i + 1)
  }

  ghost function CloseOf(source: string, start: nat): (e: Option<nat>)
    requires start <= |source|
    ensures e.Some? ==> ClosesAt(source, start, e.value)
    ensures e.None? ==> forall k :: !ClosesAt(source, start, k)
  {
    if exists k :: ClosesAt(source, start, k) then
      var k :| ClosesAt(source, start, k);
      Some(k)
    else None
  }

  /** The routes of the rest of a source; None is an unterminated call. */
  ghost function RoutesFrom(source: string, cursor: nat): Option<set<Route>>
    requires cursor <= |source|
    decreases |source| - cursor
  {
    match NextRoute(source, cursor)
    case None => Some({})
    case Some(call) =>
      var start := call + |NEEDLE|;
      match CloseOf(source, start)
      case None => None
      case Some(end) =>
        match RoutesFrom(source, end + 1)
        case None => None
        case Some(rest) => Some(BodyRoutes(source[start..end]) + rest)
  }

  method RoutesOfBody(body: string) returns (routes: set<Route>)
    ensures routes == BodyRoutes(body)
  {
    routes := {};
    var path := VersionedPath(body);
    if path.Some? {
      var get := ContainsCall(body, "get");
      if get { routes := routes + {Route("get", path.value)}; }
      var post := ContainsCall(body, "post");
      if post { routes := routes + {Route("post", path.value)}; }
      BodyRoutesAre(body, get, post);
    }
  }

  lemma NoMoreRoutes(source: string, cursor: nat)
    requires cursor <= |source| && NextRoute(source, cursor).None?
    ensures RoutesFrom(source, cursor) == Some({})
  {
  }

  lemma Unterminated(source: string, cursor: nat, call: nat, start: nat)
    requires cursor <= |source| && NextRoute(source, cursor) == Some(call) && start == call + |NEEDLE| <= |source|
    requires forall e :: !ClosesAt(source, start, e)
    ensures RoutesFrom(source, cursor).None?
  {
  }

  /** One call's routes, then those of the rest. */
  lemma RoutesStep(source: string, cursor: nat, call: nat, end: nat)
    requires cursor <= |source| && NextRoute(source, cursor) == Some(call)
    requires call + |NEEDLE| <= |source| && ClosesAt(source, call + |NEEDLE|, end)
    ensures RoutesFrom(source, cursor) == match RoutesFrom(source, end + 1)
                                          case None => None
                                          case Some(rest) => Some(BodyRoutes(source[call + |NEEDLE|..end]) + rest)
  {
    hide ClosesAt, BodyRoutes, OccursAt;
    assert CloseOf(source, call + |NEEDLE|).Some?;
    ClosesOnce(source, call + |NEEDLE|, end, CloseOf(source, call + |NEEDLE|).value);
  }

  function Added(output: set<Route>, routes: Option<set<Route>>): Option<set<Route>> {
    match routes
    case None => None
    case Some(found) => Some(output + found)
  }

  lemma AddedStep(found: set<Route>, more: set<Route>, rest: Option<set<Route>>)
    ensures Added(found, match rest case None => None case Some(r) => Some(more + r)) == Added(found + more, rest)
  {
    if rest.Some? { assert found + (more + rest.value) == (found + more) + rest.value; }
  }

  /** `parse_axum_routes`: adds to the set it is given. */
  method ParseAxumRoutes(source: string, output: set<Route>) returns (routes: Option<set<Route>>)
    ensures routes == Added(output, RoutesFrom(source, 0))
  {
    hide ClosesAt, BodyRoutes, RoutesFrom, NextRoute;
    var found := output;
    var cursor := 0;
    while true
      invariant cursor <= |source|
      invariant Added(output, RoutesFrom(source, 0)) == Added(found, RoutesFrom(source, cursor))
      decreases |source| - cursor
    {
      var call := Find(source, NEEDLE, cursor);
      SameFirst(source, cursor, call, NextRoute(source, cursor));
      if call.None? {
        NoMoreRoutes(source, cursor);
        assert found + {} == found;
        return Some(found);
      }
      var start := call.value + |NEEDLE|;
      var end := MatchingRouteCallEnd(source, start);
      if end.None? {
        Unterminated(source, cursor, call.value, start);
        return None;
      }
      assert start <= end.value < |source| by { CloseIsInside(source, start, end.value); }
      RoutesStep(source, cursor, call.value, end.value);
      var more := RoutesOfBody(source[start..end.value]);
      AddedStep(found, more, RoutesFrom(source, end.value + 1));
      found := found + more;
      cursor := end.value + 1;
    }
  }

  lemma CloseIsInside(source: string, start: nat, e: int)
    requires start <= |source| && ClosesAt(source, start, e)
    ensures start <= e < |source|
  {
  }

  lemma BodyRoutesAre(body: string, get: bool, post: bool)
    requires get == HasCall(body, "get") && post == HasCall(body, "post") && VersionedPath(body).Some?
    ensures var path := VersionedPath(body).value;
            BodyRoutes(body)
                == (if get then {Route("get", path)} else {}) + (if post then {Route("post", path)} else {})
  {
    var path := VersionedPath(body).value;
    var right := (if get then {Route("get", path)} else {}) + (if post then {Route("post", path)} else {});
    forall r ensures r in BodyRoutes(body) <==> r in right {
      if r in right { assert r.verb in {"get", "post"} && HasCall(body, r.verb); }
    }
  }

  lemma SameFirst(source: string, start: nat, a: Option<nat>, b: Option<nat>)
    requires a.Some? ==> start <= a.value && OccursAt(source, NEEDLE, a.value)
    requires b.Some? ==> start <= b.value && OccursAt(source, NEEDLE, b.value)
    requires forall k :: start <= k && (a.Some? ==> k < a.value) ==> !OccursAt(source, NEEDLE, k)
    requires forall k :: start <= k && (b.Some? ==> k < b.value) ==> !OccursAt(source, NEEDLE, k)
    ensures a == b
  {
  }

  // ----- a rendered router is read back --------------------------------------------------------------

  /** One route call of a router: what stands before it, its path, and its handlers by verb. */
  datatype RouteCall = RouteCall(lead: string, path: string, handlers: seq<(string, string)>)

  const VERBS: set<string> := {"get", "post", "put", "patch", "delete"}

  /** Free of quotes, backslashes and parentheses. */
  predicate Clean(text: string) {
    forall i | 0 <= i < |text| :: text[i] !in {'"', '\'', '\\', '(', ')'}
  }

  predicate NoDot(text: string) {
    forall i | 0 <= i < |text| :: text[i] != '.'
  }

  ghost predicate Plain(call: RouteCall) {
    NoDot(call.lead) && Clean(call.path) && call.handlers != []
    && forall h :: h in call.handlers ==> h.0 in VERBS && Clean(h.1)
  }

  /** `get(h).post(k)` */
  function Handlers(handlers: seq<(string, string)>): string {
    if handlers == [] then [] else
      handlers[0].0 + "(" + handlers[0].1 + ")" + if |handlers| == 1 then [] else "." + Handlers(handlers[1..])
  }

  function Body(call: RouteCall): string {
    "\"" + call.path + "\", " + Handlers(call.handlers)
  }

  function Rendered(calls: seq<RouteCall>): string {
    if calls == [] then [] else calls[0].lead + NEEDLE + Body(calls[0]) + ")" + Rendered(calls[1..])
  }

  /** The routes a router declares under /v1/. */
  ghost function Declared(calls: seq<RouteCall>): set<Route> {
    set call, h | call in calls && h in call.handlers && h.0 in {"get", "post"}
        && IsVersioned(call.path) :: Route(h.0, call.path)
  }

  lemma {:induction false} AfterAppend(s: Scan, a: string, b: string)
    ensures After(s, a + b) == After(After(s, a), b)
    decreases |b|
  {
    if b == [] {
      assert a + b == a;
    } else {
      var n := |b| - 1;
      assert (a + b)[..|a + b| - 1] == a + b[..n];
      AfterAppend(s, a, b[..n]);
    }
  }

  lemma OpenAppend(s: Scan, a: string, b: string)
    requires StaysOpen(s, a) && StaysOpen(After(s, a), b)
    ensures StaysOpen(s, a + b) && After(s, a + b) == After(After(s, a), b)
  {
    forall k | 0 <= k <= |a + b| ensures After(s, (a + b)[..k]).depth > 0 {
      if k <= |a| {
        assert (a + b)[..k] == a[..k];
      } else {
        assert (a + b)[..k] == a + b[..k - |a|];
        AfterAppend(s, a, b[..k - |a|]);
      }
    }
    AfterAppend(s, a, b);
  }

  lemma OpenChar(s: Scan, c: char)
    requires s.depth > 0 && Step(s, c).depth > 0
    ensures StaysOpen(s, [c]) && After(s, [c]) == Step(s, c)
  {
    assert [c][..0] == [] && [c][..1] == [c];
  }

  /** Clean text changes nothing, inside quotes or outside. */
  lemma {:induction false} CleanKeeps(s: Scan, text: string)
    requires Clean(text) && s.depth > 0 && !s.escaped && (s.quote.Some? ==> s.quote.value == '"')
    ensures After(s, text) == s && StaysOpen(s, text)
    decreases |text|
  {
    if text != [] {
      var n := |text| - 1;
      CleanKeeps(s, text[..n]);
      forall k | 0 <= k <= n ensures text[..k] == text[..n][..k] {
      }
      assert text[..|text|] == text;
    }
  }

  lemma VerbsAreClean(verb: string)
    requires verb in VERBS
    ensures Clean(verb) && verb != [] && forall i :: 0 <= i < |verb| ==> IsIdent(verb[i]) && !IsSpace(verb[i])
  {
  }

  /** One handler is a balanced piece. */
  lemma HandlerBalanced(verb: string, handler: string)
    requires verb in VERBS && Clean(handler)
    ensures StaysOpen(INSIDE, verb + "(" + handler + ")") && After(INSIDE, verb + "(" + handler + ")") == INSIDE
  {
    var inner := Scan(2, None, false);
    VerbsAreClean(verb);
    CleanKeeps(INSIDE, verb);
    OpenChar(INSIDE, '(');
    OpenAppend(INSIDE, verb, "(");
    CleanKeeps(inner, handler);
    OpenAppend(INSIDE, verb + "(", handler);
    OpenChar(inner, ')');
    OpenAppend(INSIDE, verb + "(" + handler, ")");
  }

  lemma {:induction false} HandlersBalanced(handlers: seq<(string, string)>)
    requires forall h :: h in handlers ==> h.0 in VERBS && Clean(h.1)
    ensures StaysOpen(INSIDE, Handlers(handlers)) && After(INSIDE, Handlers(handlers)) == INSIDE
    decreases |handlers|
  {
    if handlers == [] {
      CleanKeeps(INSIDE, []);
    } else {
      var first := handlers[0].0 + "(" + handlers[0].1 + ")";
      HandlerBalanced(handlers[0].0, handlers[0].1);
      if |handlers| == 1 {
        assert first + [] == first;
      } else {
        HandlersBalanced(handlers[1..]);
        OpenChar(INSIDE, '.');
        OpenAppend(INSIDE, ".", Handlers(handlers[1..]));
        OpenAppend(INSIDE, first, "." + Handlers(handlers[1..]));
      }
    }
  }

  lemma BodyBalanced(call: RouteCall)
    requires Plain(call)
    ensures StaysOpen(INSIDE, Body(call)) && After(INSIDE, Body(call)) == INSIDE
  {
    var quoted := Scan(1, Some('"'), false);
    OpenChar(INSIDE, '"');
    CleanKeeps(quoted, call.path);
    OpenAppend(INSIDE, "\"", call.path);
    OpenChar(quoted, '"');
    CleanKeeps(INSIDE, ", ");
    OpenAppend(quoted, "\"", ", ");
    assert "\"" + ", " == "\", ";
    OpenAppend(INSIDE, "\"" + call.path, "\", ");
    HandlersBalanced(call.handlers);
    OpenAppend(INSIDE, "\"" + call.path + "\", ", Handlers(call.handlers));
  }

  /** The scan of a rendered call ends at its own parenthesis. */
  lemma RenderedCloses(before: string, call: RouteCall, after: string)
    requires Plain(call)
    ensures ClosesAt(before + Body(call) + ")" + after, |before|, |before| + |Body(call)|)
  {
    var source := before + Body(call) + ")" + after;
    var e := |before| + |Body(call)|;
    BodyBalanced(call);
    assert source[|before|..e] == Body(call);
    assert source[|before|..e + 1] == Body(call) + ")";
    AfterAppend(INSIDE, Body(call), ")");
    assert After(INSIDE, ")") == Step(INSIDE, ')') by { assert ")"[..0] == []; }
  }

  ghost predicate HasVerb(handlers: seq<(string, string)>, verb: string) {
    exists h :: h in handlers && h.0 == verb
  }

  function Tail(handlers: seq<(string, string)>): string
    requires handlers != []
  {
    if |handlers| == 1 then [] else "." + Handlers(handlers[1..])
  }

  /** The first handler, and how the rest continues. */
  lemma HandlerShape(before: string, handlers: seq<(string, string)>)
    requires handlers != []
    ensures var first, handler := handlers[0].0, handlers[0].1;
            && before + Handlers(handlers) == before + first + ("(" + handler + ")" + Tail(handlers))
            && (|handlers| > 1 ==>
                  before + Handlers(handlers)
                      == (before + first + ("(" + handler + ")" + ".")) + Handlers(handlers[1..]))
  {
    var first, handler, tail := handlers[0].0, handlers[0].1, Tail(handlers);
    assert Handlers(handlers) == first + "(" + handler + ")" + tail;
    RegroupHandler(before, first, handler, tail, if |handlers| > 1 then Handlers(handlers[1..]) else []);
  }

  lemma RegroupHandler(a: string, f: string, h: string, t: string, r: string)
    ensures a + (f + "(" + h + ")" + t) == a + f + ("(" + h + ")" + t)
    ensures t == "." + r ==> a + f + ("(" + h + ")" + t) == (a + f + ("(" + h + ")" + ".")) + r
  {
    hide Handlers;
    if t == "." + r {
      assert "(" + h + ")" + t == ("(" + h + ")" + ".") + r;
    }
  }

  /** No call opens inside a handler: the next parenthesis is past its end and the dot. */
  lemma NextOpening(head: string, handler: string, tail: string, open: int)
    requires Clean(handler) && (tail != [] ==> tail[0] == '.')
    requires |head| < open < |head + ("(" + handler + ")" + tail)| && (head + ("(" + handler + ")" + tail))[open] == '('
    ensures tail != [] && open >= |head| + |handler| + 3
  {
    var source := head + ("(" + handler + ")" + tail);
    var at := |head| + 1 + |handler|;
    assert forall k :: 0 <= k < |handler| ==> source[|head| + 1 + k] == handler[k];
    assert source[at] == ')';
    assert tail != [] ==> source[at + 1] == tail[0];
  }

  /** A call found past a prefix that does not end in a letter is the verb of a handler. */
  lemma {:induction false} CallIsAHandler(before: string, handlers: seq<(string, string)>, verb: string, i: int,
                                          open: int)
    requires before != [] && !IsIdent(before[|before| - 1])
    requires forall h :: h in handlers ==> h.0 in VERBS && Clean(h.1)
    requires verb in VERBS && CallsAt(before + Handlers(handlers), verb, i, open) && open >= |before|
    ensures HasVerb(handlers, verb)
    decreases |handlers|
  {
    hide CallsAt, Clean, IsIdent, Handlers;
    CallIsInside(before + Handlers(handlers), verb, i, open);
    assert handlers != [] by { NoHandlersNoCall(before, handlers, open); }
    var first, handler := handlers[0].0, handlers[0].1;
    HandlerShape(before, handlers);
    assert handlers[0] in handlers;
    var rest := "(" + handler + ")" + Tail(handlers);
    if open <= |before| + |first| {
      OpenIsAfterVerb(before, first, rest, verb, i, open);
    } else {
      NextOpening(before + first, handler, Tail(handlers), open);
      var next := before + first + ("(" + handler + ")" + ".");
      assert next[|next| - 1] == '.';
      assert !IsIdent('.') by { DotIsNoLetter(); }
      CallIsAHandler(next, handlers[1..], verb, i, open);
      var h :| h in handlers[1..] && h.0 == verb;
      assert h in handlers;
    }
  }

  lemma DotIsNoLetter()
    ensures !IsIdent('.')
  {
  }

  lemma CallIsInside(source: string, verb: string, i: int, open: int)
    requires CallsAt(source, verb, i, open)
    ensures 0 <= open < |source| && source[open] == '('
  {
  }

  lemma NoHandlersNoCall(before: string, handlers: seq<(string, string)>, open: int)
    requires |before| <= open < |before + Handlers(handlers)|
    ensures handlers != []
  {
  }

  /** The parenthesis that follows a verb belongs to exactly that verb. */
  lemma OpenIsAfterVerb(before: string, first: string, rest: string, verb: string, i: int, open: int)
    requires before != [] && !IsIdent(before[|before| - 1]) && first in VERBS && verb in VERBS
    requires rest != [] && rest[0] == '('
    requires CallsAt(before + first + rest, verb, i, open) && |before| <= open <= |before| + |first|
    ensures verb == first
  {
    var source := before + first + rest;
    VerbsAreClean(first);
    VerbsAreClean(verb);
    var here := |before| + |first|;
    assert forall k :: |before| <= k < here ==> source[k] == first[k - |before|];
    assert open == here;
    assert !IsSpace(source[here - 1]);
    assert i + |verb| == here;
    forall j | i <= j < here ensures source[j] == verb[j - i] {
      assert source[i..i + |verb|][j - i] == source[j];
    }
    assert source[|before| - 1] == before[|before| - 1];
    assert i >= |before|;
    assert i == |before|;
    assert source[i..i + |verb|] == first;
  }

  lemma {:induction false} HandlerIsACall(before: string, handlers: seq<(string, string)>, verb: string)
    requires before != [] && !IsIdent(before[|before| - 1])
    requires HasVerb(handlers, verb) && verb in VERBS
    ensures HasCall(before + Handlers(handlers), verb)
    decreases |handlers|
  {
    var source := before + Handlers(handlers);
    var first, handler := handlers[0].0, handlers[0].1;
    var tail := if |handlers| == 1 then [] else "." + Handlers(handlers[1..]);
    assert source == before + first + ("(" + handler + ")" + tail);
    if first == verb {
      assert source[|before|..|before| + |verb|] == verb;
      assert source[|before| + |verb|] == '(';
      assert CallsAt(source, verb, |before|, |before| + |verb|);
    } else {
      var next := before + first + "(" + handler + ")" + ".";
      assert source == next + Handlers(handlers[1..]);
      HandlerIsACall(next, handlers[1..], verb);
    }
  }

  lemma {:induction false} QuoteAfterClean(text: string, rest: string)
    requires Clean(text)
    ensures QuoteIn(text + ("\"" + rest)) == Some(|text|)
    decreases |text|
  {
    if text == [] {
      assert text + ("\"" + rest) == "\"" + rest;
    } else {
      assert (text + ("\"" + rest))[1..] == text[1..] + ("\"" + rest);
      QuoteAfterClean(text[1..], rest);
    }
  }

  lemma PathOfBody(call: RouteCall)
    requires Plain(call)
    ensures VersionedPath(Body(call)) == if IsVersioned(call.path) then Some(call.path) else None
  {
    var rest := ", " + Handlers(call.handlers);
    var body := Body(call);
    assert body == "\"" + (call.path + ("\"" + rest));
    assert body[1..] == call.path + ("\"" + rest);
    QuoteAfterClean(call.path, rest);
    assert body[1..][..|call.path|] == call.path;
  }

  /** The calls in a body are its handlers' verbs. */
  lemma CallsOfBody(call: RouteCall, verb: string)
    requires Plain(call) && verb in VERBS
    ensures HasCall(Body(call), verb) <==> HasVerb(call.handlers, verb)
  {
    var before := "\"" + call.path + "\", ";
    assert Body(call) == before + Handlers(call.handlers);
    VerbsAreClean(verb);
    if HasVerb(call.handlers, verb) {
      HandlerIsACall(before, call.handlers, verb);
    }
    if HasCall(Body(call), verb) {
      var i, open :| CallsAt(Body(call), verb, i, open);
      forall k | 0 <= k < |before| ensures before[k] != '(' {
        if 1 <= k < 1 + |call.path| { assert before[k] == call.path[k - 1]; }
      }
      assert forall k :: 0 <= k < |before| ==> Body(call)[k] == before[k];
      assert open >= |before|;
      CallIsAHandler(before, call.handlers, verb, i, open);
    }
  }

  lemma BodyDeclares(call: RouteCall)
    requires Plain(call)
    ensures BodyRoutes(Body(call)) == Declared([call])
  {
    PathOfBody(call);
    CallsOfBody(call, "get");
    CallsOfBody(call, "post");
    var body := Body(call);
    forall r ensures r in BodyRoutes(body) <==> r in Declared([call]) {
      if r in BodyRoutes(body) {
        assert HasVerb(call.handlers, r.verb);
        var h :| h in call.handlers && h.0 == r.verb;
        assert call in [call] && h in call.handlers && h.0 in {"get", "post"};
        assert r == Route(h.0, call.path);
      }
      if r in Declared([call]) {
        var h :| h in call.handlers && h.0 in {"get", "post"} && r == Route(h.0, call.path);
        assert HasVerb(call.handlers, h.0);
      }
    }
  }

  lemma DeclaredSplits(calls: seq<RouteCall>)
    requires calls != []
    ensures Declared(calls) == Declared([calls[0]]) + Declared(calls[1..])
  {
    forall r ensures r in Declared(calls) <==> r in Declared([calls[0]]) + Declared(calls[1..]) {
      if r in Declared(calls) {
        var call, h :| call in calls && h in call.handlers && h.0 in {"get", "post"} && IsVersioned(call.path)
            && r == Route(h.0, call.path);
        assert call in [calls[0]] || call in calls[1..];
      }
    }
  }

  /** The next `.route(` after a stretch without dots is the one that follows it. */
  lemma NextAfterLead(before: string, lead: string, after: string)
    requires NoDot(lead)
    ensures NextRoute(before + lead + NEEDLE + after, |before|) == Some(|before| + |lead|)
  {
    var source := before + lead + NEEDLE + after;
    var at := |before| + |lead|;
    assert source[at..at + |NEEDLE|] == NEEDLE;
    assert OccursAt(source, NEEDLE, at);
    forall k | |before| <= k < at ensures !OccursAt(source, NEEDLE, k) {
      assert source[k] == lead[k - |before|];
      if k + |NEEDLE| <= |source| { assert source[k..k + |NEEDLE|][0] == source[k]; }
    }
  }

  lemma NoneAfterTail(before: string, tail: string)
    requires NoDot(tail)
    ensures NextRoute(before + tail, |before|).None?
  {
    var source := before + tail;
    forall k | |before| <= k ensures !OccursAt(source, NEEDLE, k) {
      if k + |NEEDLE| <= |source| { assert source[k..k + |NEEDLE|][0] == tail[k - |before|]; }
    }
  }

  lemma NothingLeft(source: string, cursor: nat)
    requires cursor <= |source| && NextRoute(source, cursor).None?
    ensures RoutesFrom(source, cursor) == Some(Declared([]))
  {
    assert Declared([]) == {};
  }

  lemma Regroup(a: string, b: string, c: string, d: string, e: string, f: string, g: string)
    ensures a + (b + c + d + e + f) + g == a + b + c + (d + e + (f + g))
    ensures a + (b + c + d + e + f) + g == a + b + c + d + e + (f + g)
    ensures a + (b + c + d + e + f) + g == a + b + c + d + e + f + g
    ensures (a + (b + c + d + e + f) + g)[|a| + |b| + |c|..|a| + |b| + |c| + |d|] == d
  {
  }

  /** Reading a rendered router gives exactly the routes it declares under /v1/: none is missed,
      and none is made up. */
  lemma {:induction false} RenderedRouterReadsBack(before: string, calls: seq<RouteCall>, tail: string)
    requires forall call :: call in calls ==> Plain(call)
    requires NoDot(tail)
    ensures RoutesFrom(before + Rendered(calls) + tail, |before|) == Some(Declared(calls))
    decreases |calls|
  {
    hide ClosesAt, OccursAt, BodyRoutes, Plain, IsVersioned, Body, RoutesFrom, Declared;
    var source := before + Rendered(calls) + tail;
    if calls == [] {
      assert source == before + tail;
      NoneAfterTail(before, tail);
      NothingLeft(source, |before|);
    } else {
      var call := calls[0];
      var start := before + call.lead + NEEDLE;
      var next := start + Body(call) + ")";
      var rest := Rendered(calls[1..]) + tail;
      Regroup(before, call.lead, NEEDLE, Body(call), ")", Rendered(calls[1..]), tail);
      assert NoDot(call.lead) by { PlainLead(call); }
      NextAfterLead(before, call.lead, Body(call) + ")" + rest);
      RenderedCloses(start, call, rest);
      RenderedRouterReadsBack(next, calls[1..], tail);
      var end := |start| + |Body(call)|;
      RoutesStep(source, |before|, |before| + |call.lead|, end);
      BodyDeclares(call);
      DeclaredSplits(calls);
    }
  }

  lemma PlainLead(call: RouteCall)
    requires Plain(call)
    ensures NoDot(call.lead)
  {
  }
}
