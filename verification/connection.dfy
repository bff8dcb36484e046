/**
 * Connection settings: the query engines and service types, the stored
 * connection record, the default-connection schema, the equality that decides
 * whether the active connection changed, and the explorer chosen per engine.
 */
module Connection {
  import opened Wrappers
  import opened OrderedMaps
  import opened JsValues

  datatype QueryEngine = Gremlin | Sparql | OpenCypher
  datatype ServiceType = NeptuneDb | NeptuneGraph

  function EngineName(e: QueryEngine): string
  {
    match e
    case Gremlin => "gremlin"
    case Sparql => "sparql"
    case OpenCypher => "openCypher"
  }

  /** The enum `["gremlin", "sparql", "openCypher"]`. */
  function ParseEngine(s: string): (r: Option<QueryEngine>)
    ensures r.Some? <==> s in {"gremlin", "sparql", "openCypher"}
    ensures r.Some? ==> EngineName(r.value) == s
  {
    match s
    case "gremlin" => Some(Gremlin)
    case "sparql" => Some(Sparql)
    case "openCypher" => Some(OpenCypher)
    case _ => None
  }

  function ServiceTypeName(t: ServiceType): string
  {
    match t
    case NeptuneDb => "neptune-db"
    case NeptuneGraph => "neptune-graph"
  }

  /** The enum `["neptune-db", "neptune-graph"]`. */
  function ParseServiceType(s: string): (r: Option<ServiceType>)
    ensures r.Some? <==> s in {"neptune-db", "neptune-graph"}
    ensures r.Some? ==> ServiceTypeName(r.value) == s
  {
    match s
    case "neptune-db" => Some(NeptuneDb)
    case "neptune-graph" => Some(NeptuneGraph)
    case _ => None
  }

  /** A connection; every property is optional in the stored form. */
  datatype ConnectionConfig = ConnectionConfig(
    url: Option<string>,
    queryEngine: Option<QueryEngine>,
    proxyConnection: Option<bool>,
    graphDbUrl: Option<string>,
    awsAuthEnabled: Option<bool>,
    serviceType: Option<ServiceType>,
    awsRegion: Option<string>,
    fetchTimeoutMs: Option<int>,
    nodeExpansionLimit: Option<int>)

  /** The engine in effect: an absent engine means Gremlin. */
  function EffectiveEngine(c: ConnectionConfig): QueryEngine
  {
    c.queryEngine.GetOr(Gremlin)
  }

  /** What `DefaultConnectionSchema` demands of a connection it produced. */
  predicate ValidDefaultConnection(c: ConnectionConfig, isUrl: string -> bool)
  {
    && c.url.Some? && isUrl(c.url.value)
    && (c.graphDbUrl.Some? ==> isUrl(c.graphDbUrl.value))
    && (c.fetchTimeoutMs.Some? ==> c.fetchTimeoutMs.value > 0)
    && (c.nodeExpansionLimit.Some? ==> c.nodeExpansionLimit.value > 0)
  }

  predicate UrlOk(v: Js, name: string, isUrl: string -> bool)
  {
    StringField(v, name).Some? && isUrl(StringField(v, name).value)
  }

  predicate OptUrlOk(v: Js, name: string, isUrl: string -> bool)
  {
    Missing(v, name) || UrlOk(v, name, isUrl)
  }

  predicate OptStrOk(v: Js, name: string)
  {
    Missing(v, name) || StringField(v, name).Some?
  }

  predicate OptBoolOk(v: Js, name: string)
  {
    Missing(v, name) || BoolField(v, name).Some?
  }

  predicate OptPositiveOk(v: Js, name: string)
  {
    Missing(v, name) || (NumField(v, name).Some? && NumField(v, name).value > 0)
  }

  predicate OptEngineOk(v: Js)
  {
    Missing(v, "queryEngine")
      || (StringField(v, "queryEngine").Some? && ParseEngine(StringField(v, "queryEngine").value).Some?)
  }

  predicate OptServiceTypeOk(v: Js)
  {
    Missing(v, "serviceType")
      || (StringField(v, "serviceType").Some? && ParseServiceType(StringField(v, "serviceType").value).Some?)
  }

  function ParsedEngine(v: Js): Option<QueryEngine>
  {
    if StringField(v, "queryEngine").Some? then ParseEngine(StringField(v, "queryEngine").value) else None
  }

  function ParsedServiceType(v: Js): Option<ServiceType>
  {
    if StringField(v, "serviceType").Some? then ParseServiceType(StringField(v, "serviceType").value) else None
  }

  function ErrorIf(bad: bool, name: string): seq<string>
  {
    if bad then [name] else []
  }

  /** Every property check of `DefaultConnectionSchema` passes. */
  predicate FieldsOk(v: Js, isUrl: string -> bool)
  {
    && UrlOk(v, "url", isUrl)
    && OptEngineOk(v)
    && OptBoolOk(v, "proxyConnection")
    && OptUrlOk(v, "graphDbUrl", isUrl)
    && OptBoolOk(v, "awsAuthEnabled")
    && OptServiceTypeOk(v)
    && OptStrOk(v, "awsRegion")
    && OptPositiveOk(v, "fetchTimeoutMs")
    && OptPositiveOk(v, "nodeExpansionLimit")
  }

  /** The names of the rejected properties, in declaration order. */
  function FieldErrors(v: Js, isUrl: string -> bool): (r: seq<string>)
    ensures |r| == 0 <==> FieldsOk(v, isUrl)
    ensures !UrlOk(v, "url", isUrl) ==> |r| > 0 && r[0] == "url"
  {
    ErrorIf(!UrlOk(v, "url", isUrl), "url")
    + ErrorIf(!OptEngineOk(v), "queryEngine")
    + ErrorIf(!OptBoolOk(v, "proxyConnection"), "proxyConnection")
    + ErrorIf(!OptUrlOk(v, "graphDbUrl", isUrl), "graphDbUrl")
    + ErrorIf(!OptBoolOk(v, "awsAuthEnabled"), "awsAuthEnabled")
    + ErrorIf(!OptServiceTypeOk(v), "serviceType")
    + ErrorIf(!OptStrOk(v, "awsRegion"), "awsRegion")
    + ErrorIf(!OptPositiveOk(v, "fetchTimeoutMs"), "fetchTimeoutMs")
    + ErrorIf(!OptPositiveOk(v, "nodeExpansionLimit"), "nodeExpansionLimit")
  }

  /**
   * `DefaultConnectionSchema.safeParse`: a plain object whose `url` is a URL
   * string and whose optional properties, when given, have the declared type,
   * enum value or positive number. The failure names every rejected property.
   */
  function ValidateDefaultConnection(v: Js, isUrl: string -> bool): (r: Result<ConnectionConfig, seq<string>>)
    ensures r.Success? ==> ValidDefaultConnection(r.value, isUrl)
    ensures r.Success? <==> v.JObj? && FieldsOk(v, isUrl)
    ensures r.Failure? && v.JObj? ==> r.error == FieldErrors(v, isUrl)
    ensures r.Success? ==>
      && r.value.url == StringField(v, "url") && r.value.graphDbUrl == StringField(v, "graphDbUrl")
      && r.value.queryEngine == ParsedEngine(v) && r.value.serviceType == ParsedServiceType(v)
      && r.value.proxyConnection == BoolField(v, "proxyConnection")
      && r.value.awsAuthEnabled == BoolField(v, "awsAuthEnabled")
      && r.value.awsRegion == StringField(v, "awsRegion")
      && r.value.fetchTimeoutMs == NumField(v, "fetchTimeoutMs")
      && r.value.nodeExpansionLimit == NumField(v, "nodeExpansionLimit")
  {
    if !v.JObj? then Failure([""])
    else
      var errors := FieldErrors(v, isUrl);
      if |errors| > 0 then Failure(errors)
      else Success(ConnectionConfig(
        StringField(v, "url"),
        ParsedEngine(v),
        BoolField(v, "proxyConnection"),
        StringField(v, "graphDbUrl"),
        BoolField(v, "awsAuthEnabled"),
        ParsedServiceType(v),
        StringField(v, "awsRegion"),
        NumField(v, "fetchTimeoutMs"),
        NumField(v, "nodeExpansionLimit")))
  }

  /** The connection written as a plain object; an absent property is written as `undefined`. */
  function Encode(c: ConnectionConfig): (r: Js)
    ensures r.JObj? && r.props.Keys == {"url", "queryEngine", "proxyConnection", "graphDbUrl", "awsAuthEnabled",
                                        "serviceType", "awsRegion", "fetchTimeoutMs", "nodeExpansionLimit"}
  {
    JObj(map[
      "url" := JsOfStr(c.url),
      "queryEngine" := JsOfStr(if c.queryEngine.Some? then Some(EngineName(c.queryEngine.value)) else None),
      "proxyConnection" := JsOfBool(c.proxyConnection),
      "graphDbUrl" := JsOfStr(c.graphDbUrl),
      "awsAuthEnabled" := JsOfBool(c.awsAuthEnabled),
      "serviceType" := JsOfStr(if c.serviceType.Some? then Some(ServiceTypeName(c.serviceType.value)) else None),
      "awsRegion" := JsOfStr(c.awsRegion),
      "fetchTimeoutMs" := JsOfNum(c.fetchTimeoutMs),
      "nodeExpansionLimit" := JsOfNum(c.nodeExpansionLimit)])
  }

  lemma EngineRoundTrip(e: QueryEngine)
    ensures ParseEngine(EngineName(e)) == Some(e)
  {
  }

  lemma ServiceTypeRoundTrip(t: ServiceType)
    ensures ParseServiceType(ServiceTypeName(t)) == Some(t)
  {
  }

  /** The encoding reads back, property by property, as the connection's own values. */
  lemma EncodeReads(c: ConnectionConfig)
    ensures StringField(Encode(c), "url") == c.url
    ensures ParsedEngine(Encode(c)) == c.queryEngine
    ensures BoolField(Encode(c), "proxyConnection") == c.proxyConnection
    ensures StringField(Encode(c), "graphDbUrl") == c.graphDbUrl
    ensures BoolField(Encode(c), "awsAuthEnabled") == c.awsAuthEnabled
    ensures ParsedServiceType(Encode(c)) == c.serviceType
    ensures StringField(Encode(c), "awsRegion") == c.awsRegion
    ensures NumField(Encode(c), "fetchTimeoutMs") == c.fetchTimeoutMs
    ensures NumField(Encode(c), "nodeExpansionLimit") == c.nodeExpansionLimit
  {
    EncodeStrings(c);
    EncodeEnumNames(c);
    EncodeFlags(c);
    EncodeNumbers(c);
    if c.queryEngine.Some? {
      EngineRoundTrip(c.queryEngine.value);
    }
    if c.serviceType.Some? {
      ServiceTypeRoundTrip(c.serviceType.value);
    }
  }

  lemma EncodeStrings(c: ConnectionConfig)
    ensures StringField(Encode(c), "url") == c.url
    ensures StringField(Encode(c), "graphDbUrl") == c.graphDbUrl
    ensures StringField(Encode(c), "awsRegion") == c.awsRegion
  {
  }

  /** The engine and the service type are written by name. */
  lemma EncodeEnumNames(c: ConnectionConfig)
    ensures StringField(Encode(c), "queryEngine") ==
      if c.queryEngine.Some? then Some(EngineName(c.queryEngine.value)) else None
    ensures StringField(Encode(c), "serviceType") ==
      if c.serviceType.Some? then Some(ServiceTypeName(c.serviceType.value)) else None
  {
  }

  lemma EncodeFlags(c: ConnectionConfig)
    ensures BoolField(Encode(c), "proxyConnection") == c.proxyConnection
    ensures BoolField(Encode(c), "awsAuthEnabled") == c.awsAuthEnabled
  {
  }

  lemma EncodeNumbers(c: ConnectionConfig)
    ensures NumField(Encode(c), "fetchTimeoutMs") == c.fetchTimeoutMs
    ensures NumField(Encode(c), "nodeExpansionLimit") == c.nodeExpansionLimit
  {
  }

  /** A property is absent from the encoding exactly when the connection leaves it unset. */
  lemma EncodeOmits(c: ConnectionConfig)
    ensures Missing(Encode(c), "queryEngine") <==> c.queryEngine.None?
    ensures Missing(Encode(c), "serviceType") <==> c.serviceType.None?
    ensures Missing(Encode(c), "graphDbUrl") <==> c.graphDbUrl.None?
    ensures Missing(Encode(c), "proxyConnection") <==> c.proxyConnection.None?
    ensures Missing(Encode(c), "awsAuthEnabled") <==> c.awsAuthEnabled.None?
    ensures Missing(Encode(c), "awsRegion") <==> c.awsRegion.None?
    ensures Missing(Encode(c), "fetchTimeoutMs") <==> c.fetchTimeoutMs.None?
    ensures Missing(Encode(c), "nodeExpansionLimit") <==> c.nodeExpansionLimit.None?
  {
  }

  /**
   * Encoding a valid connection and validating it again gives it back, so the
   * schema accepts exactly what it describes.
   */
  lemma ValidateEncode(c: ConnectionConfig, isUrl: string -> bool)
    requires ValidDefaultConnection(c, isUrl)
    ensures ValidateDefaultConnection(Encode(c), isUrl) == Success(c)
  {
    EncodeReads(c);
    EncodeOmits(c);
    assert FieldsOk(Encode(c), isUrl);
  }

  /** The eight properties whose change makes the active connection a new one. */
  predicate SameTracked(a: ConnectionConfig, b: ConnectionConfig)
  {
    && a.url == b.url
    && a.queryEngine == b.queryEngine
    && a.proxyConnection == b.proxyConnection
    && a.graphDbUrl == b.graphDbUrl
    && a.awsAuthEnabled == b.awsAuthEnabled
    && a.awsRegion == b.awsRegion
    && a.fetchTimeoutMs == b.fetchTimeoutMs
    && a.nodeExpansionLimit == b.nodeExpansionLimit
  }

  /** The `equals` of the active-connection selector. */
  function ActiveConnectionEquals(latest: Option<ConnectionConfig>, prior: Option<ConnectionConfig>): (r: bool)
    ensures latest == prior ==> r
    ensures latest.None? != prior.None? ==> !r
    ensures latest.Some? && prior.Some? ==> (r <==> SameTracked(latest.value, prior.value))
  {
    if latest == prior then true
    else if latest.None? || prior.None? then false
    else SameTracked(latest.value, prior.value)
  }

  /** The service type is not compared: changing only it keeps the connection equal. */
  lemma ServiceTypeIgnored(c: ConnectionConfig, t: Option<ServiceType>)
    ensures ActiveConnectionEquals(Some(c), Some(c.(serviceType := t)))
  {
  }

  /** The comparison is an equivalence: symmetric and transitive. */
  lemma EqualsEquivalence(a: Option<ConnectionConfig>, b: Option<ConnectionConfig>, c: Option<ConnectionConfig>)
    ensures ActiveConnectionEquals(a, b) == ActiveConnectionEquals(b, a)
    ensures ActiveConnectionEquals(a, b) && ActiveConnectionEquals(b, c) ==> ActiveConnectionEquals(a, c)
  {
  }

  datatype Explorer =
    | GremlinExplorer(connection: ConnectionConfig)
    | SparqlExplorer(connection: ConnectionConfig)
    | OpenCypherExplorer(connection: ConnectionConfig)

  function ExplorerEngine(x: Explorer): QueryEngine
  {
    match x
    case GremlinExplorer(_) => Gremlin
    case SparqlExplorer(_) => Sparql
    case OpenCypherExplorer(_) => OpenCypher
  }

  /** `explorerSelector`: no connection, no explorer; otherwise one per engine. */
  function ExplorerFor(connection: Option<ConnectionConfig>): (r: Option<Explorer>)
    ensures r.None? <==> connection.None?
    ensures r.Some? ==> r.value.connection == connection.value
  {
    if connection.None? then None
    else match connection.value.queryEngine
      case Some(OpenCypher) => Some(OpenCypherExplorer(connection.value))
      case Some(Sparql) => Some(SparqlExplorer(connection.value))
      case _ => Some(GremlinExplorer(connection.value))
  }

  /** The explorer speaks the connection's effective engine, Gremlin when none is set. */
  lemma ExplorerMatchesEngine(c: ConnectionConfig)
    ensures ExplorerFor(Some(c)).Some?
    ensures ExplorerEngine(ExplorerFor(Some(c)).value) == EffectiveEngine(c)
  {
  }
}
