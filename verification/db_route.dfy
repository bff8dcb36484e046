/**
 * The proxy's database route: which endpoint a request is sent to, how the
 * upstream request is shaped per query engine, and how the route answers.
 * URL parsing, the fetch itself and IAM request signing are outside the
 * model: a parsed URL is given by its parts, and URL parsing, signing and the
 * upstream database are parameters.
 */
module DbRoute {
  import opened Wrappers
  import opened OrderedMaps
  import opened Seqs
  import opened Strs
  import opened JsValues
  import opened Connection
  import opened DatabaseRequests
  import Environment

  /**
   * The parts of a parsed `http:` or `https:` URL the route reads: the
   * protocol (with its colon), the host (with its port), the path and the
   * query.
   */
  datatype Url = Url(protocol: string, host: string, pathname: string, search: string)

  /** The path every engine serves its queries on. */
  function ExpectedEndpoint(e: QueryEngine): (r: string)
    ensures |r| > 1 && r[0] == '/'
    ensures r[1..] == EngineName(e)
  {
    match e
    case Gremlin => "/gremlin"
    case OpenCypher => "/openCypher"
    case Sparql => "/sparql"
  }

  predicate NonRoot(p: string)
  {
    p != "" && p != "/"
  }

  /** `[pathname, endpoint].filter(p => p !== "" && p !== "/").join("")`. */
  function CombinePaths(pathname: string, endpoint: string): (r: string)
    requires NonRoot(endpoint)
    ensures NonRoot(pathname) ==> r == pathname + endpoint
    ensures !NonRoot(pathname) ==> r == endpoint
  {
    FilterPair(pathname, endpoint);
    Join("", Filter([pathname, endpoint], NonRoot))
  }

  lemma FilterPair(pathname: string, endpoint: string)
    requires NonRoot(endpoint)
    ensures NonRoot(pathname) ==> Join("", Filter([pathname, endpoint], NonRoot)) == pathname + endpoint
    ensures !NonRoot(pathname) ==> Join("", Filter([pathname, endpoint], NonRoot)) == endpoint
  {
    var parts := Filter([pathname, endpoint], NonRoot);
    assert [pathname, endpoint][1..] == [endpoint];
    assert [pathname, endpoint][1..][1..] == [];
    assert Filter([endpoint], NonRoot) == [endpoint];
    if NonRoot(pathname) {
      assert parts == [pathname, endpoint];
      assert Join("", parts) == pathname + "" + endpoint;
    } else {
      assert parts == [endpoint];
    }
  }

  /** The text after the leading slashes. */
  function DropSlashes(s: string): (r: string)
    ensures |r| <= |s| && r == s[|s| - |r|..]
    ensures |r| == 0 || r[0] != '/'
    ensures (forall j :: 0 <= j < |s| - |r| ==> s[j] == '/')
  {
    if |s| > 0 && s[0] == '/' then DropSlashes(s[1..]) else s
  }

  /**
   * `new URL(path, base)` for a path starting with `/` and a base with a
   * special scheme (the WHATWG URL standard, relative-slash and authority
   * states). A path starting with `//` is a network-path reference: after
   * the leading slashes comes a new host, up to the next `/`, and the rest is
   * the path; an empty host makes the constructor throw. Any other path
   * replaces the base's path and query on the base's host.
   */
  function Resolve(path: string, base: Url): (r: Option<Url>)
    ensures !StartsWith(path, "//") ==> r == Some(Url(base.protocol, base.host, path, ""))
    ensures r.Some? ==> r.value.protocol == base.protocol && r.value.search == ""
  {
    if StartsWith(path, "//") then
      var rest := DropSlashes(path);
      var k := IndexOf(rest, '/');
      if k == 0 then None
      else Some(Url(base.protocol, rest[..k], if k == |rest| then "/" else rest[k..], ""))
    else Some(Url(base.protocol, base.host, path, ""))
  }

  /** The path replaced on the base's own host, whatever the path looks like. */
  function ResolvePath(path: string, base: Url): (r: Url)
    ensures r.protocol == base.protocol && r.host == base.host && r.pathname == path && r.search == ""
  {
    Url(base.protocol, base.host, path, "")
  }

  /**
   * `createEndpointUrl` as the code computes it: a base whose path already
   * contains the engine's endpoint is kept; otherwise the endpoint is
   * appended to the base path, or replaces a root path, and the result is
   * resolved against the base (`None` when `new URL` throws).
   */
  function CreateEndpointUrlAsWritten(base: Url, e: QueryEngine): (r: Option<Url>)
    ensures Contains(base.pathname, ExpectedEndpoint(e)) ==> r == Some(base)
    ensures r.Some? ==> r.value.protocol == base.protocol
  {
    var endpoint := ExpectedEndpoint(e);
    if Contains(base.pathname, endpoint) then Some(base)
    else Resolve(CombinePaths(base.pathname, endpoint), base)
  }

  /**
   * For a base path that does not start with `//`, the request goes to the
   * engine's endpoint on the base's protocol and host, and applying the rule
   * again changes nothing. Whatever the base, the protocol is kept.
   */
  lemma EndpointUrlAsWrittenProperties(base: Url, e: QueryEngine)
    ensures Contains(base.pathname, ExpectedEndpoint(e)) ==> CreateEndpointUrlAsWritten(base, e) == Some(base)
    ensures var r := CreateEndpointUrlAsWritten(base, e);
      r.Some? ==> r.value.protocol == base.protocol
    ensures var r := CreateEndpointUrlAsWritten(base, e);
      !StartsWith(base.pathname, "//") ==>
        && r.Some? && r.value.host == base.host
        && Contains(r.value.pathname, ExpectedEndpoint(e))
        && CreateEndpointUrlAsWritten(r.value, e) == r
    ensures var r := CreateEndpointUrlAsWritten(base, e);
      !Contains(base.pathname, ExpectedEndpoint(e)) && !StartsWith(base.pathname, "//") ==>
        r.value.search == "" && r.value.pathname == (if NonRoot(base.pathname) then base.pathname else "") + ExpectedEndpoint(e)
  {
    var endpoint := ExpectedEndpoint(e);
    if !Contains(base.pathname, endpoint) {
      var q := if NonRoot(base.pathname) then base.pathname else "";
      AppendedEndpoint(q, endpoint);
      if !StartsWith(base.pathname, "//") {
        assert CombinePaths(base.pathname, endpoint) == q + endpoint;
        NoNetworkPath(q, endpoint, base.pathname);
      }
    }
  }

  /** The combined path starts with `//` only when the base path does. */
  lemma NoNetworkPath(q: string, endpoint: string, pathname: string)
    requires q == "" || (NonRoot(pathname) && q == pathname)
    requires |endpoint| > 1 && endpoint[0] == '/' && endpoint[1] != '/'
    requires !StartsWith(pathname, "//")
    ensures !StartsWith(q + endpoint, "//")
  {
    if |q| >= 2 {
      assert (q + endpoint)[..2] == q[..2];
    } else if |q| == 1 {
      assert (q + endpoint)[0] == q[0] != '/';
    } else {
      assert (q + endpoint)[1] == endpoint[1];
    }
  }

  /** A network-path reference `//host/path` resolves to that host and path. */
  lemma ResolveNetworkPath(host: string, path: string, base: Url)
    requires |host| > 0 && (forall j :: 0 <= j < |host| ==> host[j] != '/')
    requires |path| > 0 && path[0] == '/'
    ensures Resolve("//" + host + path, base) == Some(Url(base.protocol, host, path, ""))
  {
    var t := host + path;
    assert "//" + host + path == "//" + t;
    DropTwoSlashes(t);
    HostEnd(host, path);
    assert Resolve("//" + t, base) == Some(Url(base.protocol, t[..|host|], t[|host|..], ""));
  }

  lemma DropTwoSlashes(t: string)
    requires |t| > 0 && t[0] != '/'
    ensures StartsWith("//" + t, "//") && DropSlashes("//" + t) == t
  {
    var c := "//" + t;
    assert c[..2] == "//";
    var c1 := c[1..];
    assert c[0] == '/' && DropSlashes(c) == DropSlashes(c1);
    assert c1[0] == '/' && c1[1..] == t;
    assert DropSlashes(c1) == DropSlashes(t) == t;
  }

  lemma HostEnd(host: string, path: string)
    requires |host| > 0 && (forall j :: 0 <= j < |host| ==> host[j] != '/')
    requires |path| > 0 && path[0] == '/'
    ensures IndexOf(host + path, '/') == |host|
    ensures (host + path)[..|host|] == host && (host + path)[|host|..] == path
  {
    var t := host + path;
    assert t[|host|] == '/';
    assert forall j :: 0 <= j < |host| ==> t[j] == host[j];
  }

  /**
   * A base path with a trailing slash gets a doubled slash in front of the
   * endpoint: `/db/` becomes `/db//gremlin`, where `/db/gremlin` was
   * evidently meant.
   */
  lemma EndpointUrlAsWrittenDoubleSlash()
    ensures CreateEndpointUrlAsWritten(Url("https:", "db.example:8182", "/db/", ""), Gremlin)
      == Some(Url("https:", "db.example:8182", "/db//gremlin", ""))
    ensures CreateEndpointUrl(Url("https:", "db.example:8182", "/db/", ""), Gremlin).pathname == "/db/gremlin"
  {
    var base := Url("https:", "db.example:8182", "/db/", "");
    var endpoint := "/gremlin";
    assert "/db/" + endpoint == "/db//gremlin";
    assert "/db" + endpoint == "/db/gremlin";
    assert Environment.StripTrailingSlash("/db/") == "/db";
    assert !StartsWith("/db//gremlin", "//") by {
      assert "/db//gremlin"[1] == 'd';
    }
    ContainsShorter("/db/", endpoint);
    AsWrittenAppends(base, Gremlin);
    CorrectedAppends(base, Gremlin);
  }

  /** A base path that lacks the endpoint has it appended, and the result is resolved. */
  lemma AsWrittenAppends(base: Url, e: QueryEngine)
    requires !Contains(base.pathname, ExpectedEndpoint(e)) && NonRoot(base.pathname)
    ensures CreateEndpointUrlAsWritten(base, e) == Resolve(base.pathname + ExpectedEndpoint(e), base)
  {
  }

  /** The intended rule appends the endpoint to the base path less one trailing slash. */
  lemma CorrectedAppends(base: Url, e: QueryEngine)
    requires !Contains(base.pathname, ExpectedEndpoint(e)) && NonRoot(Environment.StripTrailingSlash(base.pathname))
    ensures CreateEndpointUrl(base, e)
      == Url(base.protocol, base.host, Environment.StripTrailingSlash(base.pathname) + ExpectedEndpoint(e), "")
  {
  }

  /**
   * A base path starting with `//` turns the combined path into a
   * network-path reference: the database URL `https://db.example:8182//db`
   * sends Gremlin queries to the host `db`, where the configured host was
   * evidently meant.
   */
  lemma EndpointUrlAsWrittenNetworkPath()
    ensures CreateEndpointUrlAsWritten(Url("https:", "db.example:8182", "//db", ""), Gremlin)
      == Some(Url("https:", "db", "/gremlin", ""))
    ensures CreateEndpointUrl(Url("https:", "db.example:8182", "//db", ""), Gremlin)
      == Url("https:", "db.example:8182", "//db/gremlin", "")
  {
    var base := Url("https:", "db.example:8182", "//db", "");
    var host, endpoint := "db", "/gremlin";
    assert "//db" + endpoint == "//db/gremlin";
    assert "//db" + endpoint == "//" + host + endpoint;
    assert Environment.StripTrailingSlash("//db") == "//db";
    ContainsShorter("//db", endpoint);
    AsWrittenAppends(base, Gremlin);
    ResolveNetworkPath(host, endpoint, base);
    CorrectedAppends(base, Gremlin);
  }

  /**
   * `createEndpointUrl` as evidently intended: as the code, but one trailing
   * slash of the base path is dropped before the endpoint is appended, and
   * the path always stays on the base's host.
   */
  function CreateEndpointUrl(base: Url, e: QueryEngine): (r: Url)
    ensures r.protocol == base.protocol && r.host == base.host
    ensures Contains(base.pathname, ExpectedEndpoint(e)) ==> r == base
  {
    var endpoint := ExpectedEndpoint(e);
    if Contains(base.pathname, endpoint) then base
    else ResolvePath(CombinePaths(Environment.StripTrailingSlash(base.pathname), endpoint), base)
  }

  /**
   * The intended rule targets the engine's endpoint on the base's protocol
   * and host, is idempotent, agrees with the code on every base path that
   * neither ends with a slash nor starts with two, and never puts a slash
   * right before the endpoint it appends (unless the base path already ends
   * with two).
   */
  lemma EndpointUrlProperties(base: Url, e: QueryEngine)
    ensures var r := CreateEndpointUrl(base, e);
      Contains(r.pathname, ExpectedEndpoint(e)) && r.protocol == base.protocol && r.host == base.host
    ensures var r := CreateEndpointUrl(base, e);
      CreateEndpointUrl(r, e) == r
    ensures (!EndsWith(base.pathname, "/") || base.pathname == "/") && !StartsWith(base.pathname, "//") ==>
      CreateEndpointUrlAsWritten(base, e) == Some(CreateEndpointUrl(base, e))
    ensures var r := CreateEndpointUrl(base, e);
      var endpoint := ExpectedEndpoint(e);
      !Contains(base.pathname, endpoint) && !EndsWith(base.pathname, "//") ==>
        EndsWith(r.pathname, endpoint) && !EndsWith(r.pathname[..|r.pathname| - |endpoint|], "/")
  {
    var endpoint := ExpectedEndpoint(e);
    var p := Environment.StripTrailingSlash(base.pathname);
    EndpointUrlAsWrittenProperties(base, e);
    if !Contains(base.pathname, endpoint) {
      var q := if NonRoot(p) then p else "";
      assert CreateEndpointUrl(base, e) == Url(base.protocol, base.host, q + endpoint, "");
      AppendedEndpoint(q, endpoint);
      if !EndsWith(base.pathname, "//") {
        StripNoSlash(base.pathname);
      }
    }
  }

  /** A path that ends with the endpoint contains it, and what precedes the endpoint is the prefix. */
  lemma AppendedEndpoint(q: string, endpoint: string)
    ensures Contains(q + endpoint, endpoint) && EndsWith(q + endpoint, endpoint)
    ensures (q + endpoint)[..|q + endpoint| - |endpoint|] == q
  {
    ContainsMiddle(q, endpoint, "");
    assert q + endpoint + "" == q + endpoint;
    var r := q + endpoint;
    assert r[|r| - |endpoint|..] == endpoint;
  }

  /** Dropping one trailing slash leaves none, unless there were two. */
  lemma StripNoSlash(s: string)
    requires !EndsWith(s, "//")
    ensures !EndsWith(Environment.StripTrailingSlash(s), "/")
  {
  }

  /** The upstream request body: JSON for Gremlin, a form for the others. */
  datatype Body = JsonBody(gremlin: string) | FormBody(query: string)

  datatype RequestOptions = RequestOptions(httpMethod: string, headers: Entries<string, string>, body: Body)

  function EngineHeaders(e: QueryEngine): Entries<string, string>
  {
    match e
    case Gremlin => [("Content-Type", "application/json"), ("Accept", "application/vnd.gremlin-v3.0+json")]
    case OpenCypher => [("Content-Type", "application/x-www-form-urlencoded"), ("Accept", "application/json")]
    case Sparql =>
      [("Content-Type", "application/x-www-form-urlencoded"), ("Accept", "application/sparql-results+json")]
  }

  function EngineBody(e: QueryEngine, query: string): Body
  {
    if e == Gremlin then JsonBody(query) else FormBody(query)
  }

  function BodyQuery(b: Body): string
  {
    match b
    case JsonBody(q) => q
    case FormBody(q) => q
  }

  /**
   * `createRequestOptions`: always a POST with the engine's headers and body;
   * under IAM the signed headers, when signing produced any, replace the
   * engine headers entirely.
   */
  function CreateRequestOptions(req: DatabaseRequest, signed: Option<Entries<string, string>>): (r: RequestOptions)
    ensures r.httpMethod == "POST"
    ensures BodyQuery(r.body) == req.query
    ensures r.body.JsonBody? <==> req.queryEngine == Gremlin
    ensures req.authMode.Public? ==> r.headers == EngineHeaders(req.queryEngine)
    ensures req.authMode.Iam? && signed.Some? ==> r.headers == signed.value
    ensures req.authMode.Iam? && signed.None? ==> r.headers == EngineHeaders(req.queryEngine)
  {
    var iamHeaders := if req.authMode.Iam? then signed else None;
    RequestOptions("POST", iamHeaders.GetOr(EngineHeaders(req.queryEngine)), EngineBody(req.queryEngine, req.query))
  }

  /** Each engine announces the result format it expects. */
  lemma AcceptHeaders(e: QueryEngine)
    ensures Get(EngineHeaders(e), "Accept") == Some(
      match e
      case Gremlin => "application/vnd.gremlin-v3.0+json"
      case OpenCypher => "application/json"
      case Sparql => "application/sparql-results+json")
    ensures Get(EngineHeaders(e), "Content-Type") == Some(if e == Gremlin then "application/json" else "application/x-www-form-urlencoded")
  {
  }

  /** What the upstream database answered. */
  datatype Upstream = Upstream(status: int, statusText: string, text: string)

  /** The route's answer: an error object, or the upstream text passed through. */
  datatype ResponseBody = ErrorBody(message: string, errors: Option<seq<string>>) | Text(text: string)

  datatype Response = Response(status: int, statusText: string, body: ResponseBody)

  /**
   * What `POST` sends upstream for a valid request: the endpoint URL built
   * from the database URL (`parseUrl` stands for `new URL`) by the rule as
   * the code computes it, and the options shaped for the engine. Resolving
   * the endpoint throws before anything is signed; under IAM the headers are
   * then signed by `sign`, which fails when no credentials are found. Nothing
   * is sent in either case.
   */
  function Outgoing(req: DatabaseRequest, parseUrl: string -> Url,
                    sign: (DatabaseRequest, Url) -> Result<Option<Entries<string, string>>, string>): (r: Result<(Url, RequestOptions), string>)
    ensures var url := CreateEndpointUrlAsWritten(parseUrl(req.databaseUrl), req.queryEngine);
      r.Failure? <==> url.None? || (req.authMode.Iam? && sign(req, url.value).Failure?)
    ensures var url := CreateEndpointUrlAsWritten(parseUrl(req.databaseUrl), req.queryEngine);
      r.Success? ==> r.value.0 == url.value
    ensures r.Success? ==>
      var base := parseUrl(req.databaseUrl);
      && r.value.0.protocol == base.protocol
      && (!StartsWith(base.pathname, "//") ==>
            r.value.0.host == base.host && Contains(r.value.0.pathname, ExpectedEndpoint(req.queryEngine)))
      && (Contains(base.pathname, ExpectedEndpoint(req.queryEngine)) ==> r.value.0 == base)
    ensures r.Success? ==>
      && r.value.1.httpMethod == "POST" && BodyQuery(r.value.1.body) == req.query
      && (r.value.1.body.JsonBody? <==> req.queryEngine == Gremlin)
      && (req.authMode.Public? ==> r.value.1.headers == EngineHeaders(req.queryEngine))
  {
    var url := CreateEndpointUrlAsWritten(parseUrl(req.databaseUrl), req.queryEngine);
    EndpointUrlAsWrittenProperties(parseUrl(req.databaseUrl), req.queryEngine);
    if url.None? then Failure("Invalid URL")
    else if req.authMode.Iam? then
      match sign(req, url.value)
      case Failure(e) => Failure(e)
      case Success(signed) => Success((url.value, CreateRequestOptions(req, signed)))
    else Success((url.value, CreateRequestOptions(req, None)))
  }

  /**
   * `POST`. `json` is the parsed body (`None` when it is not JSON) and
   * `fetch` is the upstream database (`Failure` when the call throws). A
   * body that fails validation gets 400; anything that throws, from reading
   * the body to signing and fetching, gets 500; otherwise the upstream
   * status, status text and body text are passed through.
   */
  function Post(json: Option<Js>, isUrl: string -> bool, parseUrl: string -> Url,
                sign: (DatabaseRequest, Url) -> Result<Option<Entries<string, string>>, string>,
                fetch: (Url, RequestOptions) -> Result<Upstream, string>): (r: Response)
    ensures json.None? ==> r.status == 500
    ensures json.Some? && ParseDatabaseRequest(json.value, isUrl).Failure? ==>
      r.status == 400 && r.body == ErrorBody("Invalid request", Some(ParseDatabaseRequest(json.value, isUrl).error))
    ensures json.Some? && ParseDatabaseRequest(json.value, isUrl).Success? ==>
      var out := Outgoing(ParseDatabaseRequest(json.value, isUrl).value, parseUrl, sign);
      && (out.Failure? ==> r.status == 500 && r.body == ErrorBody("Failed to process request", None))
      && (out.Success? && fetch(out.value.0, out.value.1).Failure? ==>
            r.status == 500 && r.body == ErrorBody("Failed to process request", None))
      && (out.Success? && fetch(out.value.0, out.value.1).Success? ==>
            var u := fetch(out.value.0, out.value.1).value;
            r == Response(u.status, u.statusText, Text(u.text)))
  {
    if json.None? then Response(500, "", ErrorBody("Failed to process request", None))
    else match ParseDatabaseRequest(json.value, isUrl)
      case Failure(errors) => Response(400, "", ErrorBody("Invalid request", Some(errors)))
      case Success(req) =>
        match Outgoing(req, parseUrl, sign)
        case Failure(_) => Response(500, "", ErrorBody("Failed to process request", None))
        case Success(out) =>
          match fetch(out.0, out.1)
          case Failure(_) => Response(500, "", ErrorBody("Failed to process request", None))
          case Success(u) => Response(u.status, u.statusText, Text(u.text))
  }

  /**
   * An invalid or unreadable body is answered before anything is sent
   * upstream: the answer does not depend on the upstream outcome.
   */
  lemma RejectedBeforeFetch(json: Option<Js>, isUrl: string -> bool, parseUrl: string -> Url,
                            sign: (DatabaseRequest, Url) -> Result<Option<Entries<string, string>>, string>,
                            f1: (Url, RequestOptions) -> Result<Upstream, string>,
                            f2: (Url, RequestOptions) -> Result<Upstream, string>)
    requires json.None? || ParseDatabaseRequest(json.value, isUrl).Failure?
    ensures Post(json, isUrl, parseUrl, sign, f1) == Post(json, isUrl, parseUrl, sign, f2)
    ensures Post(json, isUrl, parseUrl, sign, f1).status in {400, 500}
  {
  }

  /**
   * For a valid body whose endpoint resolves and whose signing (under IAM)
   * succeeds, `POST` fetches exactly the endpoint URL the code builds from
   * the database URL, with options carrying the request's query and shaped
   * by the signed headers; its answer depends on nothing but that one fetch,
   * and a successful fetch is passed through.
   */
  lemma PostSends(json: Js, isUrl: string -> bool, parseUrl: string -> Url,
                  sign: (DatabaseRequest, Url) -> Result<Option<Entries<string, string>>, string>,
                  f1: (Url, RequestOptions) -> Result<Upstream, string>,
                  f2: (Url, RequestOptions) -> Result<Upstream, string>)
    requires ParseDatabaseRequest(json, isUrl).Success?
    requires var req := ParseDatabaseRequest(json, isUrl).value;
      CreateEndpointUrlAsWritten(parseUrl(req.databaseUrl), req.queryEngine).Some?
    requires var req := ParseDatabaseRequest(json, isUrl).value;
      var url := CreateEndpointUrlAsWritten(parseUrl(req.databaseUrl), req.queryEngine).value;
      req.authMode.Iam? ==> sign(req, url).Success?
    ensures var req := ParseDatabaseRequest(json, isUrl).value;
      var url := CreateEndpointUrlAsWritten(parseUrl(req.databaseUrl), req.queryEngine).value;
      var opts := CreateRequestOptions(req, if req.authMode.Iam? then sign(req, url).value else None);
      && BodyQuery(opts.body) == req.query
      && (f1(url, opts) == f2(url, opts) ==> Post(Some(json), isUrl, parseUrl, sign, f1) == Post(Some(json), isUrl, parseUrl, sign, f2))
      && (f1(url, opts).Success? ==>
            var u := f1(url, opts).value;
            Post(Some(json), isUrl, parseUrl, sign, f1) == Response(u.status, u.statusText, Text(u.text)))
  {
    var req := ParseDatabaseRequest(json, isUrl).value;
    OutgoingSends(req, parseUrl, sign);
  }

  /** When the URL resolves and signing succeeds, the request goes to that URL with those options. */
  lemma OutgoingSends(req: DatabaseRequest, parseUrl: string -> Url,
                      sign: (DatabaseRequest, Url) -> Result<Option<Entries<string, string>>, string>)
    requires CreateEndpointUrlAsWritten(parseUrl(req.databaseUrl), req.queryEngine).Some?
    requires var url := CreateEndpointUrlAsWritten(parseUrl(req.databaseUrl), req.queryEngine).value;
      req.authMode.Iam? ==> sign(req, url).Success?
    ensures var url := CreateEndpointUrlAsWritten(parseUrl(req.databaseUrl), req.queryEngine).value;
      Outgoing(req, parseUrl, sign)
        == Success((url, CreateRequestOptions(req, if req.authMode.Iam? then sign(req, url).value else None)))
  {
  }
}
