/**
 * SPARQL result terms and the vertex built from a raw result
 * (`mapRawResultToVertex`). Attribute values are the lexical text of the
 * RDF term.
 */
module SparqlTypes {
  import opened Wrappers
  import opened OrderedMaps

  /**
   * An RDF term as encoded by the SPARQL 1.1 Query Results JSON Format,
   * section 3.2.2: its `type` ("uri", "literal", "bnode") and its `value`.
   */
  datatype RawValue = RawValue(kind: string, value: string)

  /** A subject with its class, attribute record and blank-node flag. */
  datatype RawResult = RawResult(uri: string, className: string, attributes: Entries<string, string>, isBlank: bool)

  /** A neighbour count: the total and the count per class. */
  datatype NeighborsCount = NeighborsCount(totalCount: int, counts: Entries<string, int>)

  datatype Vertex = Vertex(
    id: string,
    idType: string,
    vtype: string,
    neighborsCount: int,
    neighborsCountByType: Entries<string, int>,
    attributes: Entries<string, string>,
    isBlank: bool)

  /**
   * `mapRawResultToVertex`. Without counts the vertex has no neighbours
   * recorded; `totalCount || 0` keeps an integer total as it is, and a
   * counts record is always truthy.
   */
  function MapRawResultToVertex(raw: RawResult, counts: Option<NeighborsCount>): (v: Vertex)
    ensures v.idType == "string"
    ensures counts.None? ==> v.neighborsCount == 0 && v.neighborsCountByType == []
    ensures counts.Some? ==> v.neighborsCount == counts.value.totalCount
    ensures counts.Some? ==> v.neighborsCountByType == counts.value.counts
  {
    Vertex(raw.uri, "string", raw.className,
      if counts.Some? then counts.value.totalCount else 0,
      if counts.Some? then counts.value.counts else [],
      raw.attributes, raw.isBlank)
  }

  /** The raw result a vertex carries: id, type, attributes and blank flag. */
  function RawOf(v: Vertex): RawResult
  {
    RawResult(v.id, v.vtype, v.attributes, v.isBlank)
  }

  /** The vertex passes the raw result through unchanged, whatever the counts. */
  lemma RawResultRoundTrip(raw: RawResult, counts: Option<NeighborsCount>)
    ensures RawOf(MapRawResultToVertex(raw, counts)) == raw
  {
  }
}
