/**
 * The body the proxy's database route accepts: a database URL, a query
 * engine, an authentication mode (public by default, or IAM with a region
 * and a service type) and the query text.
 */
module DatabaseRequests {
  import opened Wrappers
  import opened JsValues
  import opened Connection

  /** `AuthModeSchema`: a union told apart by `name` alone. */
  datatype AuthMode = Public | Iam(region: string, serviceType: ServiceType)

  datatype DatabaseRequest = DatabaseRequest(databaseUrl: string, queryEngine: QueryEngine, authMode: AuthMode, query: string)

  /** The problems with an IAM auth object: a missing region, a bad service type. */
  function IamErrors(a: Js): seq<string>
  {
    ErrorIf(StringField(a, "region").None?, "authMode.region")
    + ErrorIf(ParsedServiceType(a).None?, "authMode.serviceType")
  }

  /**
   * `authMode`, with its default: an absent value is public; otherwise it
   * must be an object whose `name` is `PUBLIC` or `IAM`, and an IAM mode
   * needs a `region` string and a known `serviceType`.
   */
  function ParseAuthMode(v: Js): (r: Result<AuthMode, seq<string>>)
    ensures Missing(v, "authMode") ==> r == Success(Public)
    ensures r.Success? && r.value.Iam? ==>
      var a := Field(v, "authMode").value;
      StringField(a, "name") == Some("IAM") && StringField(a, "region") == Some(r.value.region)
      && ParsedServiceType(a) == Some(r.value.serviceType)
    ensures r.Success? && !Missing(v, "authMode") ==>
      StringField(Field(v, "authMode").value, "name") in {Some("PUBLIC"), Some("IAM")}
    ensures r.Failure? ==> |r.error| > 0
  {
    if Missing(v, "authMode") then Success(Public)
    else
      var a := Field(v, "authMode").value;
      if !a.JObj? then Failure(["authMode"])
      else match StringField(a, "name")
        case Some("PUBLIC") => Success(Public)
        case Some("IAM") =>
          if |IamErrors(a)| > 0 then Failure(IamErrors(a))
          else Success(Iam(StringField(a, "region").value, ParsedServiceType(a).value))
        case _ => Failure(["authMode.name"])
  }

  function ParsedRequestEngine(v: Js): Option<QueryEngine>
  {
    if StringField(v, "queryEngine").Some? then ParseEngine(StringField(v, "queryEngine").value) else None
  }

  /** The names of the rejected properties, in declaration order. */
  function RequestErrors(v: Js, isUrl: string -> bool): seq<string>
  {
    ErrorIf(!UrlOk(v, "databaseUrl", isUrl), "databaseUrl")
    + ErrorIf(ParsedRequestEngine(v).None?, "queryEngine")
    + (if ParseAuthMode(v).Failure? then ParseAuthMode(v).error else [])
    + ErrorIf(StringField(v, "query").None?, "query")
  }

  /**
   * `DatabaseRequestSchema.safeParse`: a plain object with a URL, a required
   * engine, an optional auth mode and a query string; the failure names
   * every rejected property.
   */
  function ParseDatabaseRequest(v: Js, isUrl: string -> bool): (r: Result<DatabaseRequest, seq<string>>)
    ensures r.Success? <==> v.JObj? && |RequestErrors(v, isUrl)| == 0
    ensures r.Success? ==> isUrl(r.value.databaseUrl) && Field(v, "query") == Some(JStr(r.value.query))
    ensures r.Success? ==> Field(v, "queryEngine") == Some(JStr(EngineName(r.value.queryEngine)))
    ensures r.Success? && Missing(v, "authMode") ==> r.value.authMode == Public
    ensures r.Success? ==> StringField(v, "databaseUrl") == Some(r.value.databaseUrl)
    ensures r.Success? ==> ParseAuthMode(v) == Success(r.value.authMode)
    ensures r.Failure? ==> |r.error| > 0
  {
    if !v.JObj? then Failure([""])
    else
      var errors := RequestErrors(v, isUrl);
      if |errors| > 0 then Failure(errors)
      else Success(DatabaseRequest(
        StringField(v, "databaseUrl").value,
        ParsedRequestEngine(v).value,
        ParseAuthMode(v).value,
        StringField(v, "query").value))
  }

  function EncodeAuthMode(a: AuthMode): Js
  {
    match a
    case Public => JObj(map["name" := JStr("PUBLIC")])
    case Iam(region, t) =>
      JObj(map["name" := JStr("IAM"), "region" := JStr(region), "serviceType" := JStr(ServiceTypeName(t))])
  }

  /** A request written as a plain object; `omitAuth` leaves `authMode` out. */
  function EncodeRequest(r: DatabaseRequest, omitAuth: bool): Js
  {
    var fields := map[
      "databaseUrl" := JStr(r.databaseUrl),
      "queryEngine" := JStr(EngineName(r.queryEngine)),
      "query" := JStr(r.query)];
    JObj(if omitAuth then fields else fields["authMode" := EncodeAuthMode(r.authMode)])
  }

  lemma AuthModeRoundTrip(r: DatabaseRequest, omitAuth: bool)
    ensures ParseAuthMode(EncodeRequest(r, omitAuth)) == Success(if omitAuth then Public else r.authMode)
  {
    if !omitAuth && r.authMode.Iam? {
      ServiceTypeRoundTrip(r.authMode.serviceType);
      var a := EncodeAuthMode(r.authMode);
      assert StringField(a, "name") == Some("IAM");
      assert IamErrors(a) == [];
    }
  }

  /**
   * A request with a URL reads back as itself; written without `authMode`
   * it reads back as the same request with public access.
   */
  lemma RequestRoundTrip(r: DatabaseRequest, omitAuth: bool, isUrl: string -> bool)
    requires isUrl(r.databaseUrl)
    ensures ParseDatabaseRequest(EncodeRequest(r, omitAuth), isUrl) ==
      Success(if omitAuth then r.(authMode := Public) else r)
  {
    var v := EncodeRequest(r, omitAuth);
    AuthModeRoundTrip(r, omitAuth);
    EngineRoundTrip(r.queryEngine);
    assert StringField(v, "databaseUrl") == Some(r.databaseUrl);
    assert ParsedRequestEngine(v) == Some(r.queryEngine);
    assert StringField(v, "query") == Some(r.query);
    assert RequestErrors(v, isUrl) == [];
  }
}
