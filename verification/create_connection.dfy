/**
 * The connection form (`CreateConnection`): its validation with the four
 * cross-field rules, the conversions between a stored connection and the
 * form, the save rule that clears a schema's sync state, and the rule that
 * Neptune Analytics forces openCypher.
 */
module CreateConnection {
  import opened Wrappers
  import opened OrderedMaps
  import opened Connection
  import opened Schema
  import opened Migrate

  /** The form values; the numbers are already coerced. */
  datatype ConnectionForm = ConnectionForm(
    name: string,
    url: string,
    queryEngine: QueryEngine,
    proxyConnection: bool,
    graphDbUrl: Option<string>,
    awsAuthEnabled: bool,
    serviceType: ServiceType,
    awsRegion: Option<string>,
    fetchTimeoutEnabled: bool,
    fetchTimeoutMs: Option<int>,
    nodeExpansionLimitEnabled: bool,
    nodeExpansionLimit: Option<int>)

  /** A validation issue: the field it is reported on and its message. */
  datatype Issue = Issue(path: string, message: string)

  function IssueIf(bad: bool, path: string, message: string): (r: seq<Issue>)
    ensures |r| == (if bad then 1 else 0)
    ensures bad ==> r[0] == Issue(path, message)
  {
    if bad then [Issue(path, message)] else []
  }

  /** JavaScript truthiness of an optional number. */
  predicate TruthyNum(n: Option<int>) { n.Some? && n.value != 0 }

  /** The checks on single fields, in declaration order. */
  function FieldIssues(f: ConnectionForm, isUrl: string -> bool): seq<Issue>
  {
    IssueIf(f.name == "", "name", "Name is required")
    + IssueIf(f.url == "", "url", "URL is required")
    + IssueIf(!isUrl(f.url), "url", "Invalid url")
    + IssueIf(f.graphDbUrl == Some(""), "graphDbUrl", "Graph database URL is required")
    + IssueIf(f.graphDbUrl.Some? && !isUrl(f.graphDbUrl.value), "graphDbUrl", "Invalid url")
    + IssueIf(f.awsRegion == Some(""), "awsRegion", "AWS region is required")
    + IssueIf(f.fetchTimeoutMs.Some? && f.fetchTimeoutMs.value < 1, "fetchTimeoutMs", "Fetch timeout must be greater than 0")
    + IssueIf(f.nodeExpansionLimit.Some? && f.nodeExpansionLimit.value < 1, "nodeExpansionLimit", "Node expansion limit must be greater than 0")
  }

  /** The four refinements; they run even when a field check has failed. */
  function RefinementIssues(f: ConnectionForm): seq<Issue>
  {
    IssueIf(f.proxyConnection && !TruthyStr(f.graphDbUrl), "graphDbUrl", "Proxy connection requires a graph database URL")
    + IssueIf(f.awsAuthEnabled && !TruthyStr(f.awsRegion), "awsRegion", "AWS IAM Auth requires an AWS region")
    + IssueIf(f.fetchTimeoutEnabled && !TruthyNum(f.fetchTimeoutMs), "fetchTimeoutMs", "Fetch timeout requires a value")
    + IssueIf(f.nodeExpansionLimitEnabled && !TruthyNum(f.nodeExpansionLimit), "nodeExpansionLimit", "Node expansion limit requires a value")
  }

  function ValidateForm(f: ConnectionForm, isUrl: string -> bool): (r: Result<ConnectionForm, seq<Issue>>)
    ensures r.Success? ==> r.value == f
    ensures r.Failure? ==> |r.error| > 0
    ensures r.Success? <==> |FieldIssues(f, isUrl)| == 0 && |RefinementIssues(f)| == 0
    ensures r.Failure? ==> r.error == FieldIssues(f, isUrl) + RefinementIssues(f)
  {
    var issues := FieldIssues(f, isUrl) + RefinementIssues(f);
    if |issues| == 0 then Success(f) else Failure(issues)
  }

  predicate HasIssue(r: Result<ConnectionForm, seq<Issue>>, i: Issue)
  {
    r.Failure? && i in r.error
  }

  /**
   * The refinements: a proxy connection needs a database URL, IAM auth needs
   * a region, and an enabled timeout or limit needs a value; each failure is
   * reported on the field that is missing.
   */
  lemma RefinementsReported(f: ConnectionForm, isUrl: string -> bool)
    ensures f.proxyConnection && !TruthyStr(f.graphDbUrl) ==>
      HasIssue(ValidateForm(f, isUrl), Issue("graphDbUrl", "Proxy connection requires a graph database URL"))
    ensures f.awsAuthEnabled && !TruthyStr(f.awsRegion) ==>
      HasIssue(ValidateForm(f, isUrl), Issue("awsRegion", "AWS IAM Auth requires an AWS region"))
    ensures f.fetchTimeoutEnabled && !TruthyNum(f.fetchTimeoutMs) ==>
      HasIssue(ValidateForm(f, isUrl), Issue("fetchTimeoutMs", "Fetch timeout requires a value"))
    ensures f.nodeExpansionLimitEnabled && !TruthyNum(f.nodeExpansionLimit) ==>
      HasIssue(ValidateForm(f, isUrl), Issue("nodeExpansionLimit", "Node expansion limit requires a value"))
  {
    var fi := FieldIssues(f, isUrl);
    var ri := RefinementIssues(f);
    RefinementIn(fi, ri);
  }

  /** Every refinement issue is among all the issues reported. */
  lemma RefinementIn(fi: seq<Issue>, ri: seq<Issue>)
    ensures forall i :: i in ri ==> i in fi + ri
  {
  }

  /**
   * A form that validates has a name and a URL, and satisfies all four
   * cross-field rules with positive numbers.
   */
  lemma ValidFormSatisfiesRules(f: ConnectionForm, isUrl: string -> bool)
    requires ValidateForm(f, isUrl).Success?
    ensures f.name != "" && isUrl(f.url)
    ensures f.proxyConnection ==> TruthyStr(f.graphDbUrl) && isUrl(f.graphDbUrl.value)
    ensures f.awsAuthEnabled ==> TruthyStr(f.awsRegion)
    ensures f.fetchTimeoutEnabled ==> f.fetchTimeoutMs.Some? && f.fetchTimeoutMs.value >= 1
    ensures f.nodeExpansionLimitEnabled ==> f.nodeExpansionLimit.Some? && f.nodeExpansionLimit.value >= 1
  {
    assert |FieldIssues(f, isUrl)| == 0 && |RefinementIssues(f)| == 0;
  }

  /** Every single-field check and every cross-field rule holds. */
  predicate SatisfiesRules(f: ConnectionForm, isUrl: string -> bool)
  {
    && f.name != "" && f.url != "" && isUrl(f.url)
    && f.graphDbUrl != Some("") && (f.graphDbUrl.Some? ==> isUrl(f.graphDbUrl.value))
    && f.awsRegion != Some("")
    && (f.fetchTimeoutMs.Some? ==> f.fetchTimeoutMs.value >= 1)
    && (f.nodeExpansionLimit.Some? ==> f.nodeExpansionLimit.value >= 1)
    && (f.proxyConnection ==> TruthyStr(f.graphDbUrl))
    && (f.awsAuthEnabled ==> TruthyStr(f.awsRegion))
    && (f.fetchTimeoutEnabled ==> TruthyNum(f.fetchTimeoutMs))
    && (f.nodeExpansionLimitEnabled ==> TruthyNum(f.nodeExpansionLimit))
  }

  /** A form validates exactly when it satisfies every check and rule. */
  lemma ValidateFormIff(f: ConnectionForm, isUrl: string -> bool)
    ensures ValidateForm(f, isUrl).Success? <==> SatisfiesRules(f, isUrl)
  {
  }

  /**
   * `mapToConnection`: every field is copied, except that a timeout or a
   * limit whose toggle is off is dropped.
   */
  function MapToConnection(f: ConnectionForm): (c: ConnectionConfig)
    ensures c.url == Some(f.url) && c.queryEngine == Some(f.queryEngine)
    ensures c.proxyConnection == Some(f.proxyConnection) && c.graphDbUrl == f.graphDbUrl
    ensures c.awsAuthEnabled == Some(f.awsAuthEnabled) && c.serviceType == Some(f.serviceType)
    ensures c.awsRegion == f.awsRegion
    ensures c.fetchTimeoutMs == (if f.fetchTimeoutEnabled then f.fetchTimeoutMs else None)
    ensures c.nodeExpansionLimit == (if f.nodeExpansionLimitEnabled then f.nodeExpansionLimit else None)
  {
    ConnectionConfig(
      Some(f.url), Some(f.queryEngine), Some(f.proxyConnection), f.graphDbUrl,
      Some(f.awsAuthEnabled), Some(f.serviceType), f.awsRegion,
      if f.fetchTimeoutEnabled then f.fetchTimeoutMs else None,
      if f.nodeExpansionLimitEnabled then f.nodeExpansionLimit else None)
  }

  /** The configuration being edited, if any. */
  datatype ExistingConfig = ExistingConfig(id: string, displayLabel: Option<string>, connection: Option<ConnectionConfig>)

  /**
   * `mapToInitialData`: the form for an existing configuration, or a blank
   * one. Missing or falsy enums and flags take their defaults, each toggle
   * is on iff its value is truthy, and the name falls back to the id and
   * then to a label built from the clock (`dateLabel`).
   */
  function MapToInitialData(existing: Option<ExistingConfig>, dateLabel: string): (f: ConnectionForm)
    ensures var c := if existing.Some? && existing.value.connection.Some? then Some(existing.value.connection.value) else None;
      && f.queryEngine == (if c.Some? then c.value.queryEngine.GetOr(Gremlin) else Gremlin)
      && f.serviceType == (if c.Some? then c.value.serviceType.GetOr(NeptuneDb) else NeptuneDb)
      && f.proxyConnection == (c.Some? && c.value.proxyConnection == Some(true))
      && f.awsAuthEnabled == (c.Some? && c.value.awsAuthEnabled == Some(true))
      && f.fetchTimeoutEnabled == (c.Some? && TruthyNum(c.value.fetchTimeoutMs))
      && f.nodeExpansionLimitEnabled == (c.Some? && TruthyNum(c.value.nodeExpansionLimit))
      && f.url == (if c.Some? then c.value.url.GetOr("") else "")
      && f.graphDbUrl == (if c.Some? then c.value.graphDbUrl else None)
      && f.awsRegion == (if c.Some? then c.value.awsRegion else None)
      && f.fetchTimeoutMs == (if c.Some? then c.value.fetchTimeoutMs else None)
      && f.nodeExpansionLimit == (if c.Some? then c.value.nodeExpansionLimit else None)
    ensures existing.Some? && TruthyStr(existing.value.displayLabel) ==> f.name == existing.value.displayLabel.value
    ensures existing.Some? && !TruthyStr(existing.value.displayLabel) && existing.value.id != "" ==> f.name == existing.value.id
    ensures (existing.None? || (!TruthyStr(existing.value.displayLabel) && existing.value.id == "")) ==>
      f.name == "Connection (" + dateLabel + ")"
    ensures f.name != ""
  {
    var c := if existing.Some? then existing.value.connection else None;
    ConnectionForm(
      if existing.Some? && TruthyStr(existing.value.displayLabel) then existing.value.displayLabel.value
      else if existing.Some? && existing.value.id != "" then existing.value.id
      else "Connection (" + dateLabel + ")",
      if c.Some? then c.value.url.GetOr("") else "",
      if c.Some? then c.value.queryEngine.GetOr(Gremlin) else Gremlin,
      c.Some? && c.value.proxyConnection == Some(true),
      if c.Some? then c.value.graphDbUrl else None,
      c.Some? && c.value.awsAuthEnabled == Some(true),
      if c.Some? then c.value.serviceType.GetOr(NeptuneDb) else NeptuneDb,
      if c.Some? then c.value.awsRegion else None,
      c.Some? && TruthyNum(c.value.fetchTimeoutMs),
      if c.Some? then c.value.fetchTimeoutMs else None,
      c.Some? && TruthyNum(c.value.nodeExpansionLimit),
      if c.Some? then c.value.nodeExpansionLimit else None)
  }

  /**
   * A form whose toggles agree with its values (on iff the value is truthy)
   * and whose name is set survives saving and reopening unchanged.
   */
  lemma FormRoundTrip(f: ConnectionForm, id: string, dateLabel: string)
    requires f.name != ""
    requires f.fetchTimeoutEnabled <==> TruthyNum(f.fetchTimeoutMs)
    requires f.nodeExpansionLimitEnabled <==> TruthyNum(f.nodeExpansionLimit)
    requires !f.fetchTimeoutEnabled ==> f.fetchTimeoutMs.None?
    requires !f.nodeExpansionLimitEnabled ==> f.nodeExpansionLimit.None?
    ensures MapToInitialData(Some(ExistingConfig(id, Some(f.name), Some(MapToConnection(f)))), dateLabel) == f
  {
  }

  /**
   * A stored connection reopened in the form and saved again comes back
   * with its defaults filled in and a zero timeout or limit dropped; a fully
   * specified connection comes back unchanged.
   */
  lemma ConnectionRoundTrip(c: ConnectionConfig, e: ExistingConfig, dateLabel: string)
    requires e.connection == Some(c)
    ensures var back := MapToConnection(MapToInitialData(Some(e), dateLabel));
      && back.url == Some(c.url.GetOr(""))
      && back.queryEngine == Some(c.queryEngine.GetOr(Gremlin))
      && back.serviceType == Some(c.serviceType.GetOr(NeptuneDb))
      && back.graphDbUrl == c.graphDbUrl && back.awsRegion == c.awsRegion
      && back.fetchTimeoutMs == (if TruthyNum(c.fetchTimeoutMs) then c.fetchTimeoutMs else None)
      && back.nodeExpansionLimit == (if TruthyNum(c.nodeExpansionLimit) then c.nodeExpansionLimit else None)
    ensures c.url.Some? && c.queryEngine.Some? && c.serviceType.Some?
      && c.proxyConnection.Some? && c.awsAuthEnabled.Some?
      && (c.fetchTimeoutMs.None? || TruthyNum(c.fetchTimeoutMs))
      && (c.nodeExpansionLimit.None? || TruthyNum(c.nodeExpansionLimit))
      ==> MapToConnection(MapToInitialData(Some(e), dateLabel)) == c
  {
    var back := MapToConnection(MapToInitialData(Some(e), dateLabel));
    if c.url.Some? && c.queryEngine.Some? && c.serviceType.Some?
      && c.proxyConnection.Some? && c.awsAuthEnabled.Some?
      && (c.fetchTimeoutMs.None? || TruthyNum(c.fetchTimeoutMs))
      && (c.nodeExpansionLimit.None? || TruthyNum(c.nodeExpansionLimit))
    {
      var f := MapToInitialData(Some(e), dateLabel);
      assert f.proxyConnection == c.proxyConnection.value by {
        if c.proxyConnection.value { assert c.proxyConnection == Some(true); }
      }
      assert f.awsAuthEnabled == c.awsAuthEnabled.value by {
        if c.awsAuthEnabled.value { assert c.awsAuthEnabled == Some(true); }
      }
    }
  }

  /**
   * The `onSave` schema rule: when the URL or the engine changed, the
   * schema keeps its type lists and prefixes but loses its sync state and
   * totals; otherwise nothing changes.
   */
  function ResetSyncState(schemas: Entries<string, SchemaInference>, configId: string, initial: ConnectionForm, data: ConnectionForm): (r: Entries<string, SchemaInference>)
    ensures initial.url == data.url && initial.queryEngine == data.queryEngine ==> r == schemas
    ensures forall k :: k != configId ==> Get(r, k) == Get(schemas, k)
    ensures initial.url != data.url || initial.queryEngine != data.queryEngine ==>
      var prev := Get(schemas, configId);
      var s := Get(r, configId);
      && s.Some? && s.value.lastUpdate.None? && s.value.lastSyncFail.None? && s.value.triedToSync.None?
      && s.value.vertices == (if prev.Some? then prev.value.vertices else [])
      && s.value.edges == (if prev.Some? then prev.value.edges else [])
      && s.value.prefixes == Some(if prev.Some? then prev.value.prefixes.GetOr([]) else [])
  {
    if initial.url == data.url && initial.queryEngine == data.queryEngine then schemas
    else
      var prev := Get(schemas, configId);
      var entry := SchemaInference(
        if prev.Some? then prev.value.vertices else [],
        if prev.Some? then prev.value.edges else [],
        Some(if prev.Some? && prev.value.prefixes.Some? then prev.value.prefixes.value else []),
        None, None, None, None, None);
      PutOthers(schemas, configId, entry);
      Put(schemas, configId, entry)
  }

  /** The configurations, the active one and the schemas `onSave` writes. */
  datatype SavedState = SavedState(
    configs: Entries<string, RawConfiguration>,
    active: Option<string>,
    schemas: Entries<string, SchemaInference>)

  /**
   * `onSave`. A new configuration gets a fresh id (`newId`), is added and
   * becomes active, and the schemas are untouched. An edited one keeps its
   * other stored properties, takes the new name and connection, stays in
   * place, and its schema's sync state is reset by the rule above.
   */
  function OnSave(st: SavedState, configId: Option<string>, newId: string, initial: ConnectionForm, data: ConnectionForm): (r: SavedState)
    ensures !TruthyStr(configId) ==>
      && Get(r.configs, newId) == Some(RawConfiguration(newId, Some(data.name), None, Some(MapToConnection(data))))
      && r.active == Some(newId) && r.schemas == st.schemas
    ensures TruthyStr(configId) ==>
      var id := configId.value;
      var prev := Get(st.configs, id);
      && Get(r.configs, id) == Some(RawConfiguration(id, Some(data.name),
           if prev.Some? then prev.value.fileBase else None, Some(MapToConnection(data))))
      && r.active == st.active
      && r.schemas == ResetSyncState(st.schemas, id, initial, data)
    ensures forall k :: k != (if TruthyStr(configId) then configId.value else newId) ==> Get(r.configs, k) == Get(st.configs, k)
  {
    if !TruthyStr(configId) then
      var config := RawConfiguration(newId, Some(data.name), None, Some(MapToConnection(data)));
      PutOthers(st.configs, newId, config);
      SavedState(Put(st.configs, newId, config), Some(newId), st.schemas)
    else
      var id := configId.value;
      var prev := Get(st.configs, id);
      var config := RawConfiguration(id, Some(data.name), if prev.Some? then prev.value.fileBase else None, Some(MapToConnection(data)));
      PutOthers(st.configs, id, config);
      SavedState(Put(st.configs, id, config), st.active, ResetSyncState(st.schemas, id, initial, data))
  }

  /**
   * The effect on the form: choosing Neptune Analytics switches the engine
   * to openCypher; any other choice leaves the engine alone.
   */
  function EnforceEngine(f: ConnectionForm): (r: ConnectionForm)
    ensures r.serviceType == NeptuneGraph ==> r.queryEngine == OpenCypher
    ensures f.serviceType == NeptuneDb ==> r == f
    ensures r == f.(queryEngine := r.queryEngine)
  {
    if f.serviceType == NeptuneGraph && f.queryEngine != OpenCypher then f.(queryEngine := OpenCypher) else f
  }

  /** The effect settles after one run. */
  lemma EnforceEngineIdempotent(f: ConnectionForm)
    ensures EnforceEngine(EnforceEngine(f)) == EnforceEngine(f)
  {
  }
}
