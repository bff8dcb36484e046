/**
 * Migration of the configuration map read back from browser storage into the
 * current shape: malformed entries are dropped, the database URL is chosen
 * from the legacy proxy fields and unknown enum strings fall back to their
 * defaults.
 */
module Migrate {
  import opened Wrappers
  import opened OrderedMaps
  import opened JsValues
  import opened Connection

  /** A stored configuration entry. */
  datatype RawConfiguration = RawConfiguration(
    id: string,
    displayLabel: Option<string>,
    fileBase: Option<bool>,
    connection: Option<ConnectionConfig>)

  /** `toQueryEngine`: a known engine name is kept, anything else is Gremlin. */
  function ToQueryEngine(s: string): (r: QueryEngine)
    ensures ParseEngine(s).Some? ==> r == ParseEngine(s).value
    ensures ParseEngine(s).None? ==> r == Gremlin
  {
    match s
    case "gremlin" => Gremlin
    case "openCypher" => OpenCypher
    case "sparql" => Sparql
    case _ => Gremlin
  }

  /** `toServiceType`: a known service type is kept, anything else is Neptune DB. */
  function ToServiceType(s: string): (r: ServiceType)
    ensures ParseServiceType(s).Some? ==> r == ParseServiceType(s).value
    ensures ParseServiceType(s).None? ==> r == NeptuneDb
  {
    match s
    case "neptune-db" => NeptuneDb
    case "neptune-graph" => NeptuneGraph
    case _ => NeptuneDb
  }

  /** Every engine's own name migrates to that engine. */
  lemma ToQueryEngineName(e: QueryEngine)
    ensures ToQueryEngine(EngineName(e)) == e
  {
    EngineRoundTrip(e);
  }

  lemma ToServiceTypeName(t: ServiceType)
    ensures ToServiceType(ServiceTypeName(t)) == t
  {
    ServiceTypeRoundTrip(t);
  }

  /**
   * The one database URL kept: `graphDbUrl` for a proxy connection that has
   * one, else `url`, else `graphDbUrl`, each only when it is a string.
   */
  function DbUrl(v: Js): (r: Option<string>)
    ensures r.Some? ==> r == StringField(v, "url") || r == StringField(v, "graphDbUrl")
    ensures r.None? <==> StringField(v, "url").None? && StringField(v, "graphDbUrl").None?
    ensures BoolField(v, "proxyConnection") == Some(true) && StringField(v, "graphDbUrl").Some?
      ==> r == StringField(v, "graphDbUrl")
    ensures BoolField(v, "proxyConnection") != Some(true) && StringField(v, "url").Some?
      ==> r == StringField(v, "url")
  {
    if BoolField(v, "proxyConnection") == Some(true) && StringField(v, "graphDbUrl").Some? then
      StringField(v, "graphDbUrl")
    else if StringField(v, "url").Some? then StringField(v, "url")
    else StringField(v, "graphDbUrl")
  }

  /** A connection in the migrated shape: no `url`, no `proxyConnection`, an explicit auth flag. */
  predicate Migrated(c: ConnectionConfig)
  {
    c.url.None? && c.proxyConnection.None? && c.awsAuthEnabled.Some?
  }

  /** `migrateConnection`: `null` and non-objects give nothing. */
  function MigrateConnection(v: Js): (r: Option<ConnectionConfig>)
    ensures r.Some? <==> IsObject(v) && !v.JNull?
    ensures r.Some? ==> Migrated(r.value)
    ensures r.Some? ==> r.value.graphDbUrl == DbUrl(v)
    ensures r.Some? ==> r.value.awsAuthEnabled == Some(BoolField(v, "awsAuthEnabled").GetOr(false))
    ensures r.Some? ==> (r.value.queryEngine.Some? <==> StringField(v, "queryEngine").Some?)
    ensures r.Some? && r.value.queryEngine.Some? ==>
      r.value.queryEngine.value == ToQueryEngine(StringField(v, "queryEngine").value)
    ensures r.Some? ==> (r.value.serviceType.Some? <==> StringField(v, "serviceType").Some?)
    ensures r.Some? && r.value.serviceType.Some? ==>
      r.value.serviceType.value == ToServiceType(StringField(v, "serviceType").value)
    ensures r.Some? ==> r.value.awsRegion == StringField(v, "awsRegion")
    ensures r.Some? ==> r.value.fetchTimeoutMs == NumField(v, "fetchTimeoutMs")
    ensures r.Some? ==> r.value.nodeExpansionLimit == NumField(v, "nodeExpansionLimit")
  {
    if IsNullish(v) || !IsObject(v) then None
    else Some(ConnectionConfig(
      url := None,
      queryEngine := if StringField(v, "queryEngine").Some? then Some(ToQueryEngine(StringField(v, "queryEngine").value)) else None,
      proxyConnection := None,
      graphDbUrl := DbUrl(v),
      awsAuthEnabled := Some(BoolField(v, "awsAuthEnabled").GetOr(false)),
      serviceType := if StringField(v, "serviceType").Some? then Some(ToServiceType(StringField(v, "serviceType").value)) else None,
      awsRegion := StringField(v, "awsRegion"),
      fetchTimeoutMs := NumField(v, "fetchTimeoutMs"),
      nodeExpansionLimit := NumField(v, "nodeExpansionLimit")))
  }

  /** `migrateConfigEntry`: `null`, `undefined` and non-objects are dropped. */
  function MigrateEntry(key: string, v: Js): (r: Option<RawConfiguration>)
    ensures r.Some? <==> IsObject(v) && !v.JNull?
    ensures r.Some? ==> r.value.id == StringField(v, "id").GetOr(key)
    ensures r.Some? ==> r.value.displayLabel == StringField(v, "displayLabel")
    ensures r.Some? ==> r.value.fileBase == BoolField(v, "__fileBase")
    ensures r.Some? && r.value.connection.Some? ==> Migrated(r.value.connection.value)
    ensures r.Some? ==>
      r.value.connection == (if Field(v, "connection").Some? && IsObject(Field(v, "connection").value)
                             then MigrateConnection(Field(v, "connection").value) else None)
  {
    if IsNullish(v) || !IsObject(v) then None
    else Some(RawConfiguration(
      id := StringField(v, "id").GetOr(key),
      displayLabel := StringField(v, "displayLabel"),
      fileBase := BoolField(v, "__fileBase"),
      connection :=
        if Field(v, "connection").Some? && IsObject(Field(v, "connection").value)
        then MigrateConnection(Field(v, "connection").value)
        else None))
  }

  /** The loop over the stored entries, writing every migrated one under its key. */
  function MigrateEntries(es: Entries<string, Js>): (r: Entries<string, RawConfiguration>)
    ensures DistinctKeys(r)
    decreases |es|
  {
    if |es| == 0 then []
    else
      var init := es[..|es| - 1];
      var (k, v) := es[|es| - 1];
      var acc := MigrateEntries(init);
      var m := MigrateEntry(k, v);
      if m.None? then acc
      else (PutDistinct(acc, k, m.value); Put(acc, k, m.value))
  }

  /** `migrateConfiguration`: anything but a `Map` gives an empty map. */
  function MigrateConfiguration(stored: Js): (r: Entries<string, RawConfiguration>)
    ensures !stored.JMap? ==> r == []
    ensures DistinctKeys(r)
  {
    if !stored.JMap? then [] else MigrateEntries(stored.entries)
  }

  /** The kept entries in input order: a reference definition for the loop. */
  function KeptEntries(es: Entries<string, Js>): Entries<string, RawConfiguration>
  {
    if |es| == 0 then []
    else
      var m := MigrateEntry(es[0].0, es[0].1);
      (if m.Some? then [(es[0].0, m.value)] else []) + KeptEntries(es[1..])
  }

  lemma {:induction false} KeptEntriesSnoc(es: Entries<string, Js>)
    requires |es| > 0
    ensures KeptEntries(es) == KeptEntries(es[..|es| - 1])
      + (var m := MigrateEntry(es[|es| - 1].0, es[|es| - 1].1);
         if m.Some? then [(es[|es| - 1].0, m.value)] else [])
  {
    if |es| > 1 {
      assert es[1..][..|es[1..]| - 1] == es[..|es| - 1][1..];
      KeptEntriesSnoc(es[1..]);
    }
  }

  lemma {:induction false} KeptEntriesKeys(es: Entries<string, Js>, k: string)
    ensures HasKey(KeptEntries(es), k) ==> HasKey(es, k)
  {
    if |es| > 0 && HasKey(KeptEntries(es), k) {
      var m := MigrateEntry(es[0].0, es[0].1);
      var head := if m.Some? then [(es[0].0, m.value)] else [];
      GetConcat(head, KeptEntries(es[1..]), k);
      if k != es[0].0 {
        assert Keys(es) == [es[0].0] + Keys(es[1..]);
        KeptEntriesKeys(es[1..], k);
      }
    }
  }

  /**
   * On a stored `Map` (whose keys are distinct) the loop keeps exactly the
   * entries that migrate, under their own keys, in their original order.
   */
  lemma {:induction false} MigrateEntriesKept(es: Entries<string, Js>)
    requires DistinctKeys(es)
    ensures MigrateEntries(es) == KeptEntries(es)
    decreases |es|
  {
    if |es| > 0 {
      var init := es[..|es| - 1];
      var (k, v) := es[|es| - 1];
      assert DistinctKeys(init);
      MigrateEntriesKept(init);
      KeptEntriesSnoc(es);
      assert !HasKey(init, k) by {
        forall i | 0 <= i < |init|
          ensures Keys(init)[i] != k
        {
          assert es[i].0 != es[|es| - 1].0;
        }
      }
      KeptEntriesKeys(init, k);
      PutAbsent(KeptEntries(init), k, MigrateEntry(k, v).GetOr(RawConfiguration("", None, None, None)));
    }
  }

  /** Writing a key not yet present appends it. */
  lemma {:induction false} PutAbsent<K, V>(m: Entries<K, V>, k: K, v: V)
    ensures !HasKey(m, k) ==> Put(m, k, v) == m + [(k, v)]
  {
    if |m| > 0 && !HasKey(m, k) {
      assert Keys(m) == [m[0].0] + Keys(m[1..]);
      PutAbsent(m[1..], k, v);
      assert [m[0]] + (m[1..] + [(k, v)]) == m + [(k, v)];
    }
  }

  /**
   * Looking a key up after migration finds exactly the migrated stored entry:
   * nothing under a dropped key, and every kept entry under its own key.
   */
  lemma {:induction false} MigrateGet(es: Entries<string, Js>, k: string)
    requires DistinctKeys(es)
    ensures Get(MigrateEntries(es), k) == if HasKey(es, k) then MigrateEntry(k, Get(es, k).value) else None
  {
    MigrateEntriesKept(es);
    KeptGet(es, k);
  }

  lemma {:induction false} KeptGet(es: Entries<string, Js>, k: string)
    requires DistinctKeys(es)
    ensures Get(KeptEntries(es), k) == if HasKey(es, k) then MigrateEntry(k, Get(es, k).value) else None
  {
    if |es| > 0 {
      var m := MigrateEntry(es[0].0, es[0].1);
      var head := if m.Some? then [(es[0].0, m.value)] else [];
      GetConcat(head, KeptEntries(es[1..]), k);
      assert Keys(es) == [es[0].0] + Keys(es[1..]);
      HeadKeyFresh(es);
      KeptGet(es[1..], k);
    }
  }

  /** A stored connection object written with `undefined` for every absent property. */
  function EncodeRaw(c: RawConfiguration): Js
  {
    JObj(map[
      "id" := JStr(c.id),
      "displayLabel" := JsOfStr(c.displayLabel),
      "__fileBase" := JsOfBool(c.fileBase),
      "connection" := if c.connection.Some? then Encode(c.connection.value) else JUndefined])
  }

  /**
   * Migrating an encoded connection keeps every property but the two URLs,
   * the proxy flag and the IAM flag, which default to false.
   */
  lemma MigrateEncoded(c: ConnectionConfig)
    ensures MigrateConnection(Encode(c)) ==
      Some(c.(url := None, proxyConnection := None, graphDbUrl := DbUrl(Encode(c)),
              awsAuthEnabled := Some(c.awsAuthEnabled.GetOr(false))))
  {
    EncodeStrings(c);
    EncodeEnumNames(c);
    EncodeFlags(c);
    EncodeNumbers(c);
    if c.queryEngine.Some? {
      ToQueryEngineName(c.queryEngine.value);
    }
    if c.serviceType.Some? {
      ToServiceTypeName(c.serviceType.value);
    }
  }

  /** A connection already in the migrated shape migrates to itself. */
  lemma MigrateConnectionIdempotent(c: ConnectionConfig)
    requires Migrated(c)
    ensures MigrateConnection(Encode(c)) == Some(c)
  {
    MigrateEncoded(c);
    EncodeReads(c);
  }

  /**
   * A legacy proxy connection keeps the database URL and drops the proxy
   * server URL and the proxy flag.
   */
  lemma MigrateProxyConnection(c: ConnectionConfig)
    requires c.proxyConnection == Some(true) && c.graphDbUrl.Some?
    ensures MigrateConnection(Encode(c)) ==
      Some(c.(url := None, proxyConnection := None, awsAuthEnabled := Some(c.awsAuthEnabled.GetOr(false))))
  {
    MigrateEncoded(c);
    EncodeReads(c);
  }

  /** A legacy direct connection moves its `url` into `graphDbUrl`. */
  lemma MigrateDirectConnection(c: ConnectionConfig)
    requires c.proxyConnection != Some(true) && c.url.Some?
    ensures MigrateConnection(Encode(c)) ==
      Some(c.(url := None, proxyConnection := None, graphDbUrl := c.url,
              awsAuthEnabled := Some(c.awsAuthEnabled.GetOr(false))))
  {
    MigrateEncoded(c);
    EncodeReads(c);
  }

  predicate MigratedEntry(c: RawConfiguration)
  {
    c.connection.Some? ==> Migrated(c.connection.value)
  }

  /** An already migrated entry migrates to itself, whatever key it is stored under. */
  lemma MigrateEntryIdempotent(key: string, c: RawConfiguration)
    requires MigratedEntry(c)
    ensures MigrateEntry(key, EncodeRaw(c)) == Some(c)
  {
    var v := EncodeRaw(c);
    var props := v.props;
    StringFieldOf(props, "id", Some(c.id));
    StringFieldOf(props, "displayLabel", c.displayLabel);
    BoolFieldOf(props, "__fileBase", c.fileBase);
    var conn := Field(v, "connection");
    if c.connection.Some? {
      assert conn == Some(Encode(c.connection.value));
      MigrateConnectionIdempotent(c.connection.value);
    } else {
      assert conn == Some(JUndefined);
    }
    var m := MigrateEntry(key, v);
    assert m.Some? && m.value.connection == c.connection;
    assert m.value == c;
  }

  function EncodeAll(cs: Entries<string, RawConfiguration>): (r: Entries<string, Js>)
    ensures Keys(r) == Keys(cs)
  {
    if |cs| == 0 then [] else [(cs[0].0, EncodeRaw(cs[0].1))] + EncodeAll(cs[1..])
  }

  /** Migrating a map of already migrated entries returns the same map. */
  lemma {:induction false} MigrateConfigurationIdempotent(cs: Entries<string, RawConfiguration>)
    requires DistinctKeys(cs)
    requires forall i :: 0 <= i < |cs| ==> MigratedEntry(cs[i].1)
    ensures MigrateConfiguration(JMap(EncodeAll(cs))) == cs
  {
    var es := EncodeAll(cs);
    assert DistinctKeys(es) by {
      forall i, j | 0 <= i < j < |es|
        ensures es[i].0 != es[j].0
      {
        assert Keys(es)[i] == Keys(cs)[i] && Keys(es)[j] == Keys(cs)[j];
      }
    }
    MigrateEntriesKept(es);
    KeptEncodeAll(cs);
  }

  lemma {:induction false} KeptEncodeAll(cs: Entries<string, RawConfiguration>)
    requires forall i :: 0 <= i < |cs| ==> MigratedEntry(cs[i].1)
    ensures KeptEntries(EncodeAll(cs)) == cs
  {
    if |cs| > 0 {
      var es := EncodeAll(cs);
      assert es[0] == (cs[0].0, EncodeRaw(cs[0].1));
      assert es[1..] == EncodeAll(cs[1..]);
      MigrateEntryIdempotent(cs[0].0, cs[0].1);
      assert KeptEntries(es) == [cs[0]] + KeptEntries(EncodeAll(cs[1..]));
      assert forall i :: 0 <= i < |cs[1..]| ==> MigratedEntry(cs[1..][i].1) by {
        forall i | 0 <= i < |cs[1..]|
          ensures MigratedEntry(cs[1..][i].1)
        {
          assert cs[1..][i] == cs[i + 1];
        }
      }
      KeptEncodeAll(cs[1..]);
      assert cs == [cs[0]] + cs[1..];
    }
  }
}
