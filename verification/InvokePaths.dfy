/** The invoke paths of REST and HTTP APIs, and the CloudFront edge path that is rewritten to one of them. */
module InvokePaths {
  import opened Wrappers
  import opened GoStrings

  datatype Invocation = Invocation(apiID: string, stage: string, routePath: string)
  datatype EdgePath = EdgePath(distributionID: string, objectKey: string)

  /** The path without one slash at its end and one at its start. */
  function Inner(path: string): string {
    TrimPrefix(TrimSuffix(path, "/"), "/")
  }

  function Parts(path: string): seq<string> {
    Split(Inner(path), '/')
  }

  function RouteOf(rest: seq<string>): string {
    if rest == [] then "/" else "/" + Join(rest, '/')
  }

  const HTTP_API := "http-api"
  const REST_APIS := "restapis"
  const USER_REQUEST := "_user_request_"
  const CLOUDFRONT := "cloudfront"
  const DEFAULT_STAGE := "$default"

  predicate IsHTTPAPIInvokePath(path: string) {
    IsAPIPath(Parts(path), HTTP_API)
  }

  predicate IsAPIPath(parts: seq<string>, word: string) {
    |parts| >= 3 && parts[0] == word && parts[1] != "" && parts[2] != ""
  }

  function ParseHTTPAPIInvokePath(path: string): Option<Invocation> {
    ParseAPI(Parts(path), HTTP_API)
  }

  function ParseAPI(parts: seq<string>, word: string): Option<Invocation> {
    if |parts| < 3 || parts[0] != word then None
    else if parts[1] == "" || parts[2] == "" then None
    else Some(Invocation(parts[1], parts[2], RouteOf(parts[3..])))
  }

  predicate IsRestAPIInvokePath(path: string) {
    IsMarkedPath(Parts(path), REST_APIS, USER_REQUEST)
  }

  predicate IsMarkedPath(parts: seq<string>, word: string, mark: string) {
    |parts| >= 4 && parts[0] == word && parts[1] != "" && parts[2] != "" && parts[3] == mark
  }

  function ParseRestAPIInvokePath(path: string): Option<Invocation> {
    ParseMarked(Parts(path), REST_APIS, USER_REQUEST)
  }

  function ParseMarked(parts: seq<string>, word: string, mark: string): Option<Invocation> {
    if |parts| < 4 || parts[0] != word || parts[3] != mark then None
    else if parts[1] == "" || parts[2] == "" then None
    else Some(Invocation(parts[1], parts[2], RouteOf(parts[4..])))
  }

  function ParseCloudFrontEdgePath(path: string): Option<EdgePath> {
    ParseEdge(Parts(path), CLOUDFRONT)
  }

  function ParseEdge(parts: seq<string>, word: string): Option<EdgePath> {
    if |parts| < 2 || parts[0] != word || parts[1] == "" then None
    else if |parts| == 2 then Some(EdgePath(parts[1], ""))
    else Some(EdgePath(parts[1], Join(parts[2..], '/')))
  }

  // ---------------------------------------------------------------- splitting

  predicate Segment(s: string) {
    s != "" && '/' !in s
  }

  /** The text of some leading segments and a route: a route "/" may be written or left out. */
  ghost predicate Spells(inner: string, base: string, route: string) {
    HasPrefix(route, "/") && (inner == base + route || (route == "/" && inner == base))
  }

  /** A text splits into a first segment and a route exactly when it spells them. */
  lemma HeadAndRoute(s: string, a: string, route: string)
    requires '/' !in a
    ensures Split(s, '/')[0] == a && RouteOf(Split(s, '/')[1..]) == route <==> Spells(s, a, route)
  {
    var i := IndexOf(s, '/');
    if i == |s| {
      SplitFree(s, '/');
      if HasPrefix(route, "/") {
        assert (a + route)[|a|] == '/';
        assert s != a + route;
      }
    } else {
      var h, t := s[..i], s[i + 1..];
      assert s == h + ['/'] + t;
      SplitFirst(h, '/', t);
      JoinSplit(t, '/');
      assert Split(s, '/')[1..] == Split(t, '/');
      SameFirst(h, t, a, route);
      assert '/' in s;
    }
  }

  lemma SameFirst(h: string, t: string, a: string, route: string)
    requires '/' !in h && '/' !in a
    ensures h == a && "/" + t == route <==> HasPrefix(route, "/") && h + ['/'] + t == a + route
  {
    if HasPrefix(route, "/") && h + ['/'] + t == a + route {
      var r := route[1..];
      assert route == ['/'] + r;
      assert a + route == a + ['/'] + r;
      IndexAfter(h, '/', t);
      IndexAfter(a, '/', r);
      assert (h + ['/'] + t)[..|h|] == h && (a + ['/'] + r)[..|a|] == a;
      assert (h + ['/'] + t)[|h| + 1..] == t && (a + ['/'] + r)[|a| + 1..] == r;
    }
    assert h + ['/'] + t == h + ("/" + t);
  }

  /** One more leading segment. */
  lemma PeelSegment(s: string, a: string, base: string, route: string)
    ensures Spells(s, a + "/" + base, route) <==> a + "/" <= s && Spells(s[|a| + 1..], base, route)
  {
    var whole := a + "/" + base + route;
    assert whole == a + "/" + (base + route);
    if a + "/" <= s {
      var rest := s[|a| + 1..];
      assert s == a + "/" + rest;
      assert rest == base + route ==> s == whole;
      assert s == whole ==> rest == base + route;
      assert s == a + "/" + base ==> rest == base;
    }
  }

  /** A text splits into leading segments and a route exactly when it spells them. */
  lemma {:induction false} LeadingSegments(s: string, lead: seq<string>, route: string)
    requires lead != [] && FreeOf(lead, '/')
    ensures Leads(Split(s, '/'), lead, route) <==> Spells(s, Join(lead, '/'), route)
  {
    var a, rest := lead[0], lead[1..];
    assert a in lead && lead == [a] + rest;
    if |lead| == 1 {
      HeadAndRoute(s, a, route);
      assert lead <= Split(s, '/') <==> a == Split(s, '/')[0];
    } else {
      PeelSegment(s, a, Join(rest, '/'), route);
      if a + "/" <= s {
        var t := s[|a| + 1..];
        assert s == a + ['/'] + t;
        SplitFirst(a, '/', t);
        assert forall p | p in rest :: p in lead;
        LeadingSegments(t, rest, route);
        LeadsCons(a, rest, Split(t, '/'), route);
      } else {
        FirstTwo(s);
      }
    }
  }

  /** The first segments are the given ones and the others make the route. */
  ghost predicate Leads(parts: seq<string>, lead: seq<string>, route: string) {
    lead <= parts && RouteOf(parts[|lead|..]) == route
  }

  lemma LeadsCons(a: string, rest: seq<string>, ps: seq<string>, route: string)
    ensures Leads([a] + ps, [a] + rest, route) <==> Leads(ps, rest, route)
  {
    PrefixCons(a, rest, ps);
  }

  lemma PrefixCons(a: string, rest: seq<string>, ps: seq<string>)
    ensures [a] + rest <= [a] + ps <==> rest <= ps
    ensures rest <= ps ==> ([a] + ps)[|rest| + 1..] == ps[|rest|..]
  {
    if [a] + rest <= [a] + ps {
      assert rest == ([a] + rest)[1..] && ps == ([a] + ps)[1..];
      assert ([a] + ps)[..|rest| + 1] == [a] + rest;
      assert ps[..|rest|] == ([a] + ps)[..|rest| + 1][1..];
    }
  }

  lemma FirstTwo(s: string)
    ensures |Split(s, '/')| > 1 ==> Split(s, '/')[0] + "/" <= s
  {
    var i := IndexOf(s, '/');
    if i < |s| {
      assert s[..i] + "/" == s[..i + 1];
    }
  }

  lemma Join3(a: string, b: string, c: string)
    ensures Join([a, b, c], '/') == a + "/" + b + "/" + c
  {
    assert [a, b, c][1..] == [b, c] && [b, c][1..] == [c];
    assert Join([b, c], '/') == b + "/" + c;
    assert a + "/" + (b + "/" + c) == a + "/" + b + "/" + c;
  }

  lemma Join4(a: string, b: string, c: string, d: string)
    ensures Join([a, b, c, d], '/') == a + "/" + b + "/" + c + "/" + d
  {
    assert [a, b, c, d][1..] == [b, c, d];
    Join3(b, c, d);
    assert a + "/" + (b + "/" + c + "/" + d) == a + "/" + b + "/" + c + "/" + d;
  }

  // ---------------------------------------------------------------- the parsers

  /** Main result: the HTTP API parser reads exactly the paths that spell an API, a stage and a route. */
  lemma ParseHTTPIff(path: string, inv: Invocation)
    ensures ParseHTTPAPIInvokePath(path) == Some(inv) <==>
              && Segment(inv.apiID) && Segment(inv.stage)
              && Spells(Inner(path), HTTP_API + "/" + inv.apiID + "/" + inv.stage, inv.routePath)
    ensures IsHTTPAPIInvokePath(path) <==> ParseHTTPAPIInvokePath(path).Some?
  {
    assert '/' !in HTTP_API;
    ThreeLeading(Inner(path), HTTP_API, inv);
  }

  lemma ThreeLeading(s: string, word: string, inv: Invocation)
    requires '/' !in word
    ensures ParseAPI(Split(s, '/'), word) == Some(inv) <==>
              && Segment(inv.apiID) && Segment(inv.stage)
              && Spells(s, word + "/" + inv.apiID + "/" + inv.stage, inv.routePath)
  {
    var parts := Split(s, '/');
    var lead := [word, inv.apiID, inv.stage];
    JoinSplit(s, '/');
    Join3(word, inv.apiID, inv.stage);
    if |parts| >= 3 {
      assert parts[1] in parts && parts[2] in parts;
    }
    if '/' !in inv.apiID && '/' !in inv.stage {
      LeadingSegments(s, lead, inv.routePath);
      assert lead <= parts <==> |parts| >= 3 && parts[0] == lead[0] && parts[1] == lead[1] && parts[2] == lead[2];
    }
  }

  /** Main result: the same for REST APIs. */
  lemma ParseRestIff(path: string, inv: Invocation)
    ensures ParseRestAPIInvokePath(path) == Some(inv) <==>
              && Segment(inv.apiID) && Segment(inv.stage)
              && Spells(Inner(path), REST_APIS + "/" + inv.apiID + "/" + inv.stage + "/" + USER_REQUEST, inv.routePath)
    ensures IsRestAPIInvokePath(path) <==> ParseRestAPIInvokePath(path).Some?
  {
    assert '/' !in REST_APIS && '/' !in USER_REQUEST;
    FourLeading(Inner(path), REST_APIS, USER_REQUEST, inv);
  }

  lemma FourLeading(s: string, word: string, mark: string, inv: Invocation)
    requires '/' !in word && '/' !in mark
    ensures ParseMarked(Split(s, '/'), word, mark) == Some(inv) <==>
              && Segment(inv.apiID) && Segment(inv.stage)
              && Spells(s, word + "/" + inv.apiID + "/" + inv.stage + "/" + mark, inv.routePath)
  {
    var parts := Split(s, '/');
    var lead := [word, inv.apiID, inv.stage, mark];
    JoinSplit(s, '/');
    Join4(word, inv.apiID, inv.stage, mark);
    if |parts| >= 4 {
      assert parts[1] in parts && parts[2] in parts;
    }
    if '/' !in inv.apiID && '/' !in inv.stage {
      LeadingSegments(s, lead, inv.routePath);
      assert lead <= parts <==>
             |parts| >= 4 && parts[0] == lead[0] && parts[1] == lead[1] && parts[2] == lead[2] && parts[3] == lead[3];
    }
  }

  // ---------------------------------------------------------------- the edge

  function RouteFor(key: string): string {
    if key == "" then "/" else if !HasPrefix(key, "/") then "/" + key else key
  }

  /** The path that cloudFrontEdgeFetchAPIGateway invokes; None for a blank origin. */
  function RewriteToHTTPAPI(apiID: string, routePath: string): Option<string> {
    var id := TrimSpace(apiID);
    if id == "" then None
    else
      Some("/" + HTTP_API + "/" + id + "/" + DEFAULT_STAGE + RouteFor(routePath))
  }

  /** An edge request up to the invocation it ends in. */
  function EdgeInvocation(path: string, apiID: string): Option<Invocation> {
    var edge := ParseCloudFrontEdgePath(path);
    if edge.None? then None
    else
      var rewritten := RewriteToHTTPAPI(apiID, edge.value.objectKey);
      if rewritten.None? then None else ParseHTTPAPIInvokePath(rewritten.value)
  }

  predicate NoOuterSlash(key: string) {
    key == "" || (key[0] != '/' && key[|key| - 1] != '/')
  }

  /** The object key of an edge path: the text after the distribution, less one slash at its end. */
  lemma EdgeKey(word: string, dist: string, key: string)
    requires '/' !in word && Segment(dist)
    ensures ParseEdge(Parts("/" + word + "/" + dist + "/" + key), word) == Some(EdgePath(dist, TrimSuffix(key, "/")))
  {
    var path := "/" + word + "/" + dist + "/" + key;
    assert path == "/" + (word + "/" + dist) + ("/" + key);
    InnerOf(word + "/" + dist, "/" + key, path);
    if key == "" {
      assert "/" + key == "/" && TrimSuffix("/", "/") == "";
      assert Inner(path) == word + "/" + dist;
      NoKey(word, dist);
    } else {
      var k := TrimSuffix(key, "/");
      TrimAfter("/", key);
      assert word + "/" + dist + ("/" + k) == word + "/" + (dist + "/" + k);
      SomeKey(word, dist, k);
    }
  }

  lemma NoKey(word: string, dist: string)
    requires '/' !in word && Segment(dist)
    ensures ParseEdge(Split(word + "/" + dist, '/'), word) == Some(EdgePath(dist, ""))
  {
    SplitFirst(word, '/', dist);
    SplitFree(dist, '/');
  }

  lemma SomeKey(word: string, dist: string, k: string)
    requires '/' !in word && Segment(dist)
    ensures ParseEdge(Split(word + "/" + (dist + "/" + k), '/'), word) == Some(EdgePath(dist, k))
  {
    SplitFirst(word, '/', dist + "/" + k);
    SplitFirst(dist, '/', k);
    JoinSplit(k, '/');
    ParseThree(word, dist, Split(k, '/'));
  }

  lemma ParseThree(word: string, dist: string, keys: seq<string>)
    requires dist != "" && keys != []
    ensures ParseEdge([word] + ([dist] + keys), word) == Some(EdgePath(dist, Join(keys, '/')))
  {
    var parts := [word] + ([dist] + keys);
    assert parts[0] == word && parts[1] == dist && parts[2..] == keys;
  }

  lemma TrimAfter(a: string, b: string)
    requires b != ""
    ensures TrimSuffix(a + b, "/") == a + TrimSuffix(b, "/")
  {
    assert (a + b)[|a + b| - 1] == b[|b| - 1];
  }

  lemma InnerOf(base: string, route: string, path: string)
    requires path == "/" + base + route && HasPrefix(route, "/")
    ensures Inner(path) == base + TrimSuffix(route, "/")
  {
    TrimAfter("/" + base, route);
    assert TrimSuffix(path, "/") == "/" + (base + TrimSuffix(route, "/"));
  }

  /** Where a rewritten route is read back: at itself less one slash at its end. */
  lemma RewrittenRoute(word: string, id: string, stage: string, route: string)
    requires '/' !in word && Segment(id) && Segment(stage) && HasPrefix(route, "/")
    ensures var r := TrimSuffix(route, "/");
            ParseAPI(Parts("/" + word + "/" + id + "/" + stage + route), word)
            == Some(Invocation(id, stage, if r == "" then "/" else r))
  {
    var r := TrimSuffix(route, "/");
    var path := "/" + word + "/" + id + "/" + stage + route;
    var base := word + "/" + id + "/" + stage;
    assert path == "/" + base + route;
    InnerOf(base, route, path);
    assert r == "" ==> base + r == base;
    assert r != "" ==> HasPrefix(r, "/");
    ThreeLeading(Inner(path), word, Invocation(id, stage, if r == "" then "/" else r));
  }

  /** Main result: an edge request invokes the default stage of the origin's API at "/" and its object key
      exactly when the key has no slash at either end. */
  lemma EdgeInvokesKey(dist: string, apiID: string, key: string)
    requires Segment(dist) && Segment(TrimSpace(apiID))
    ensures var inv := EdgeInvocation("/" + CLOUDFRONT + "/" + dist + "/" + key, apiID);
            && inv.Some? && inv.value.apiID == TrimSpace(apiID) && inv.value.stage == DEFAULT_STAGE
            && (inv.value.routePath == "/" + key <==> NoOuterSlash(key))
  {
    EdgeEndsAt(dist, apiID, key);
    RouteIsKey(key);
  }

  /** The route at which an edge request for a key ends. */
  function RouteEnd(key: string): string {
    var r := TrimSuffix(RouteFor(TrimSuffix(key, "/")), "/");
    if r == "" then "/" else r
  }

  lemma EdgeEndsAt(dist: string, apiID: string, key: string)
    requires Segment(dist) && Segment(TrimSpace(apiID))
    ensures EdgeInvocation("/" + CLOUDFRONT + "/" + dist + "/" + key, apiID)
         == Some(Invocation(TrimSpace(apiID), DEFAULT_STAGE, RouteEnd(key)))
  {
    EdgeParsed(dist, key);
    EdgeForwards("/" + CLOUDFRONT + "/" + dist + "/" + key, apiID, EdgePath(dist, TrimSuffix(key, "/")));
    KeyInvokes(TrimSpace(apiID), TrimSuffix(key, "/"));
  }

  lemma EdgeParsed(dist: string, key: string)
    requires Segment(dist)
    ensures ParseCloudFrontEdgePath("/" + CLOUDFRONT + "/" + dist + "/" + key)
         == Some(EdgePath(dist, TrimSuffix(key, "/")))
  {
    assert '/' !in CLOUDFRONT;
    EdgeKey(CLOUDFRONT, dist, key);
  }

  lemma EdgeForwards(path: string, apiID: string, edge: EdgePath)
    requires ParseCloudFrontEdgePath(path) == Some(edge) && TrimSpace(apiID) != ""
    ensures var id, route := TrimSpace(apiID), RouteFor(edge.objectKey);
            EdgeInvocation(path, apiID)
            == ParseHTTPAPIInvokePath("/" + HTTP_API + "/" + id + "/" + DEFAULT_STAGE + route)
  {
  }

  lemma KeyInvokes(id: string, k: string)
    requires Segment(id)
    ensures var r := TrimSuffix(RouteFor(k), "/");
            ParseHTTPAPIInvokePath("/" + HTTP_API + "/" + id + "/" + DEFAULT_STAGE + RouteFor(k))
            == Some(Invocation(id, DEFAULT_STAGE, if r == "" then "/" else r))
  {
    assert '/' !in HTTP_API && '/' !in DEFAULT_STAGE && DEFAULT_STAGE != "";
    RewrittenRoute(HTTP_API, id, DEFAULT_STAGE, RouteFor(k));
  }

  lemma RouteIsKey(key: string)
    ensures RouteEnd(key) == "/" + key <==> NoOuterSlash(key)
  {
    var k := TrimSuffix(key, "/");
    var route := RouteFor(k);
    var r := TrimSuffix(route, "/");
    if HasSuffix(key, "/") || HasPrefix(key, "/") {
      assert |r| <= |route| && |k| <= |key|;
      assert HasPrefix(key, "/") ==> |route| <= |key| || k == "";
      assert HasSuffix(key, "/") ==> |k| < |key|;
    } else if key != "" {
      assert k == key && route == "/" + key;
      assert route[|route| - 1] == key[|key| - 1];
    }
  }

  /** Keys of the failing kind: a leading slash is lost. */
  lemma LeadingSlashLost(dist: string, apiID: string, k: string)
    requires Segment(dist) && Segment(TrimSpace(apiID))
    ensures var key := "/" + k;
            var inv := EdgeInvocation("/" + CLOUDFRONT + "/" + dist + "/" + key, apiID);
            inv.Some? && inv.value.routePath != "/" + key
  {
    EdgeInvokesKey(dist, apiID, "/" + k);
  }
}
