/**
 * The per-connection schema the explorer keeps (`SchemaInference`): vertex
 * and edge type configurations, namespace prefixes and the sync bookkeeping.
 */
module Schema {
  import opened Wrappers

  datatype AttributeConfig = AttributeConfig(name: string, displayLabel: string, hidden: bool)

  /** A vertex or edge type; `total` is the count a schema sync reports. */
  datatype TypeConfig = TypeConfig(ttype: string, displayLabel: string, attributes: seq<AttributeConfig>, total: Option<int>)

  datatype Prefix = Prefix(prefix: string, uri: string)

  /** Every property but the two type lists is optional. */
  datatype SchemaInference = SchemaInference(
    vertices: seq<TypeConfig>,
    edges: seq<TypeConfig>,
    prefixes: Option<seq<Prefix>>,
    lastUpdate: Option<int>,
    triedToSync: Option<bool>,
    lastSyncFail: Option<bool>,
    totalVertices: Option<int>,
    totalEdges: Option<int>)

  /** The type names a list of configurations covers. */
  function TypeSet(s: seq<TypeConfig>): set<string>
  {
    set i | 0 <= i < |s| :: s[i].ttype
  }

  /** No type is configured twice. */
  predicate DistinctTypes(s: seq<TypeConfig>)
  {
    forall i, j :: 0 <= i < j < |s| ==> s[i].ttype != s[j].ttype
  }

  lemma TypeSetSnoc(s: seq<TypeConfig>, c: TypeConfig)
    ensures TypeSet(s + [c]) == TypeSet(s) + {c.ttype}
  {
    var r := s + [c];
    assert r[|s|].ttype == c.ttype;
    forall t | t in TypeSet(s)
      ensures t in TypeSet(r)
    {
      var i :| 0 <= i < |s| && s[i].ttype == t;
      assert r[i] == s[i];
    }
  }
}
