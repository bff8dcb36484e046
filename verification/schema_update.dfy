/**
 * Recording the outcome of a schema sync for one connection
 * (`useUpdateSchema`): the new counts and type lists replace the old ones,
 * a missing outcome marks the sync as failed when a schema was already
 * known, and the prefixes always survive.
 */
module SchemaUpdate {
  import opened Wrappers
  import opened OrderedMaps
  import opened Schema

  /** A partial sync response: every property may be missing. */
  datatype SchemaResponse = SchemaResponse(
    totalVertices: Option<int>,
    vertices: Option<seq<TypeConfig>>,
    totalEdges: Option<int>,
    edges: Option<seq<TypeConfig>>)

  /**
   * `options.schema`: absent, a value, or a function of the previous schema.
   */
  datatype SchemaArg =
    | NoSchema
    | Given(response: SchemaResponse)
    | Computed(f: Option<SchemaInference> -> SchemaResponse)

  /** The response in effect once a function argument has been applied. */
  function CurrentSchema(arg: SchemaArg, prev: Option<SchemaInference>): Option<SchemaResponse>
  {
    match arg
    case NoSchema => None
    case Given(s) => Some(s)
    case Computed(f) => Some(f(prev))
  }

  /**
   * The entry written for the connection. A list is taken as given (an empty
   * list counts as present); the vertex list falls back to empty, the edge
   * list to the previous edges. `now` is the clock reading.
   */
  function UpdatedEntry(current: Option<SchemaResponse>, prev: Option<SchemaInference>, now: int): (s: SchemaInference)
    ensures s.triedToSync == Some(true)
    ensures s.lastSyncFail == Some(current.None? && prev.Some?)
    ensures s.lastUpdate == (if current.None? then (if prev.Some? then prev.value.lastUpdate else None) else Some(now))
    ensures s.prefixes == Some(if prev.Some? then prev.value.prefixes.GetOr([]) else [])
    ensures current.Some? && current.value.vertices.Some? ==> s.vertices == current.value.vertices.value
    ensures current.None? || current.value.vertices.None? ==> s.vertices == []
    ensures current.Some? && current.value.edges.Some? ==> s.edges == current.value.edges.value
    ensures (current.None? || current.value.edges.None?) && prev.Some? ==> s.edges == prev.value.edges
    ensures (current.None? || current.value.edges.None?) && prev.None? ==> s.edges == []
    ensures s.totalVertices == Some(if current.Some? then current.value.totalVertices.GetOr(0) else 0)
    ensures s.totalEdges == Some(if current.Some? then current.value.totalEdges.GetOr(0) else 0)
  {
    var vertices := if current.Some? && current.value.vertices.Some? then current.value.vertices.value else [];
    var edges :=
      if current.Some? && current.value.edges.Some? then current.value.edges.value
      else if prev.Some? then prev.value.edges
      else [];
    SchemaInference(
      vertices,
      edges,
      Some(if prev.Some? && prev.value.prefixes.Some? then prev.value.prefixes.value else []),
      if current.None? then (if prev.Some? then prev.value.lastUpdate else None) else Some(now),
      Some(true),
      Some(current.None? && prev.Some?),
      Some(if current.Some? && current.value.totalVertices.Some? then current.value.totalVertices.value else 0),
      Some(if current.Some? && current.value.totalEdges.Some? then current.value.totalEdges.value else 0))
  }

  /** The whole update: only the entry for `id` is (re)written. */
  function UpdateSchema(schemas: Entries<string, SchemaInference>, id: string, arg: SchemaArg, now: int): (r: Entries<string, SchemaInference>)
    ensures Get(r, id) == Some(UpdatedEntry(CurrentSchema(arg, Get(schemas, id)), Get(schemas, id), now))
    ensures forall k :: k != id ==> Get(r, k) == Get(schemas, k)
    ensures HasKey(schemas, id) ==> Keys(r) == Keys(schemas)
    ensures !HasKey(schemas, id) ==> Keys(r) == Keys(schemas) + [id]
  {
    var prev := Get(schemas, id);
    var entry := UpdatedEntry(CurrentSchema(arg, prev), prev, now);
    PutKeys(schemas, id, entry);
    PutOthers(schemas, id, entry);
    Put(schemas, id, entry)
  }

  /**
   * A failed sync after a successful one keeps what was learnt: the type
   * lists are cleared only for vertices, the edges, prefixes and last update
   * time are kept, and the failure is flagged.
   */
  lemma FailedSyncKeepsHistory(schemas: Entries<string, SchemaInference>, id: string, now: int)
    requires HasKey(schemas, id)
    ensures var prev := Get(schemas, id).value;
      var s := Get(UpdateSchema(schemas, id, NoSchema, now), id).value;
      && s.lastSyncFail == Some(true) && s.triedToSync == Some(true)
      && s.vertices == [] && s.edges == prev.edges
      && s.lastUpdate == prev.lastUpdate && s.prefixes == Some(prev.prefixes.GetOr([]))
      && s.totalVertices == Some(0) && s.totalEdges == Some(0)
  {
  }

  /**
   * A complete response is recorded as it is, stamped with the clock, and
   * writing the same response again gives the same entry: the update is
   * idempotent up to the clock.
   */
  lemma CompleteResponseRecorded(schemas: Entries<string, SchemaInference>, id: string, resp: SchemaResponse, now: int)
    requires resp.vertices.Some? && resp.edges.Some? && resp.totalVertices.Some? && resp.totalEdges.Some?
    ensures var once := UpdateSchema(schemas, id, Given(resp), now);
      var s := Get(once, id).value;
      && s.vertices == resp.vertices.value && s.edges == resp.edges.value
      && s.totalVertices == resp.totalVertices && s.totalEdges == resp.totalEdges
      && s.lastUpdate == Some(now) && s.lastSyncFail == Some(false)
      && UpdateSchema(once, id, Given(resp), now) == once
  {
    var once := UpdateSchema(schemas, id, Given(resp), now);
    var s := Get(once, id).value;
    var twice := UpdateSchema(once, id, Given(resp), now);
    assert Get(twice, id) == Get(once, id);
    PutSame(once, id, s);
  }
}
