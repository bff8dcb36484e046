/**
 * Expanding a vertex (`ExpandNodeProvider`): the guards that decide
 * whether an expansion is submitted, the limit fallback, the neighbours
 * request built from the vertex, and what happens when no explorer is
 * available.
 */
module ExpandNode {
  import opened Wrappers
  import opened Strs
  import opened JsValues

  /** The parts of a vertex the expansion reads. */
  datatype Vertex = Vertex(
    id: string,
    idType: string,
    vtype: string,
    types: Option<seq<string>>,
    unfetchedNeighborCount: Option<int>)

  /** Expansion filters: the limit, and every other filter property by name. */
  datatype Filters = Filters(limit: Option<int>, rest: map<string, Js>)

  datatype ExpandNodeRequest = ExpandNodeRequest(vertex: Vertex, filters: Filters)

  datatype NeighborsRequest = NeighborsRequest(
    vertexId: string,
    idType: string,
    vertexType: string,
    limit: Option<int>,
    rest: map<string, Js>)

  /** What a call of `expandNode` does. */
  datatype ExpandAction =
    | Ignored
    | NotifyNoMoreNeighbors
    | Submit(request: ExpandNodeRequest)

  /**
   * `filters?.limit || connection?.nodeExpansionLimit`: a limit of 0 is
   * falsy and falls back like a missing one.
   */
  function EffectiveLimit(filters: Option<Filters>, nodeExpansionLimit: Option<int>): (r: Option<int>)
    ensures filters.Some? && filters.value.limit.Some? && filters.value.limit.value != 0 ==> r == filters.value.limit
    ensures !(filters.Some? && filters.value.limit.Some? && filters.value.limit.value != 0) ==> r == nodeExpansionLimit
  {
    if filters.Some? && filters.value.limit.Some? && filters.value.limit.value != 0 then filters.value.limit
    else nodeExpansionLimit
  }

  /**
   * `expandNode`: the request always carries the caller's filters with the
   * effective limit; nothing happens while an expansion is pending; a vertex
   * known to have no unfetched neighbours only raises a notification.
   */
  function ExpandNode(vertex: Vertex, filters: Option<Filters>, isPending: bool, nodeExpansionLimit: Option<int>): (r: ExpandAction)
    ensures isPending ==> r == Ignored
    ensures !isPending && vertex.unfetchedNeighborCount == Some(0) ==> r == NotifyNoMoreNeighbors
    ensures r.Submit? <==> !isPending && vertex.unfetchedNeighborCount != Some(0)
    ensures r.Submit? ==> r.request.vertex == vertex
    ensures r.Submit? ==> r.request.filters.limit == EffectiveLimit(filters, nodeExpansionLimit)
    ensures r.Submit? && filters.Some? ==> r.request.filters.rest == filters.value.rest
    ensures r.Submit? && filters.None? ==> r.request.filters.rest == map[]
  {
    var request := ExpandNodeRequest(vertex,
      Filters(EffectiveLimit(filters, nodeExpansionLimit), if filters.Some? then filters.value.rest else map[]));
    if isPending then Ignored
    else if vertex.unfetchedNeighborCount == Some(0) then NotifyNoMoreNeighbors
    else Submit(request)
  }

  /** `types?.join("::") ?? type`: an empty type list joins to the empty string. */
  function VertexType(v: Vertex): string
  {
    if v.types.Some? then Join("::", v.types.value) else v.vtype
  }

  /** The neighbours request built in `mutationFn`. */
  function ToNeighborsRequest(req: ExpandNodeRequest): (r: NeighborsRequest)
    ensures r.vertexId == req.vertex.id && r.idType == req.vertex.idType
    ensures r.limit == req.filters.limit && r.rest == req.filters.rest
  {
    NeighborsRequest(req.vertex.id, req.vertex.idType, VertexType(req.vertex), req.filters.limit, req.filters.rest)
  }

  /**
   * The request type names every type of a multi-typed vertex, and a vertex
   * whose type list is just its type asks for that type.
   */
  lemma VertexTypeNamesTypes(v: Vertex)
    ensures v.types.Some? ==> forall i :: 0 <= i < |v.types.value| ==> Contains(VertexType(v), v.types.value[i])
    ensures v.types == Some([v.vtype]) || v.types.None? ==> VertexType(v) == v.vtype
  {
    if v.types.Some? {
      forall i | 0 <= i < |v.types.value| ensures Contains(VertexType(v), v.types.value[i]) {
        JoinContains("::", v.types.value, i);
      }
    }
  }

  /**
   * `mutationFn`: the request passed to the explorer's `fetchNeighbors`, or
   * nothing (a `null` result) when there is no explorer.
   */
  function FetchRequest(hasExplorer: bool, req: ExpandNodeRequest): (r: Option<NeighborsRequest>)
    ensures r.Some? <==> hasExplorer
    ensures r.Some? ==> r.value.vertexId == req.vertex.id && r.value.limit == req.filters.limit
  {
    if hasExplorer then Some(ToNeighborsRequest(req)) else None
  }

  /** `onSuccess`: a `null` result leaves the entities; a response is merged in by `merge`. */
  function OnSuccess<E, D>(entities: E, data: Option<D>, merge: (E, D) -> E): E
  {
    if data.None? then entities else merge(entities, data.value)
  }

  /**
   * The mutation end to end: without an explorer no request is made and the
   * graph is left as it was, whatever the merge does; with one, the response
   * to the request built from the vertex is merged.
   */
  function ExpandAndMerge<E, D>(entities: E, hasExplorer: bool, req: ExpandNodeRequest,
                                fetch: NeighborsRequest -> D, merge: (E, D) -> E): (r: E)
    ensures !hasExplorer ==> r == entities
    ensures hasExplorer ==> r == merge(entities, fetch(ToNeighborsRequest(req)))
  {
    var sent := FetchRequest(hasExplorer, req);
    OnSuccess(entities, if sent.Some? then Some(fetch(sent.value)) else None, merge)
  }

  /**
   * An expansion that is submitted, with an explorer present, asks the
   * explorer for the neighbours of that very vertex with the effective
   * limit and the caller's other filters, under a type that names every
   * type of the vertex.
   */
  lemma SubmittedRequestSent(vertex: Vertex, filters: Option<Filters>, isPending: bool, nodeExpansionLimit: Option<int>)
    ensures var a := ExpandNode(vertex, filters, isPending, nodeExpansionLimit);
      a.Submit? ==>
        var sent := FetchRequest(true, a.request);
        && sent.Some?
        && sent.value.vertexId == vertex.id && sent.value.idType == vertex.idType
        && sent.value.limit == EffectiveLimit(filters, nodeExpansionLimit)
        && sent.value.rest == (if filters.Some? then filters.value.rest else map[])
        && (vertex.types.Some? ==> forall i :: 0 <= i < |vertex.types.value| ==> Contains(sent.value.vertexType, vertex.types.value[i]))
        && (vertex.types.None? ==> sent.value.vertexType == vertex.vtype)
  {
    VertexTypeNamesTypes(vertex);
  }

  /**
   * Expanding again with the filters of a submitted request keeps its
   * limit: a limit taken from the connection is not replaced by a later
   * fallback, so re-submission is stable.
   */
  lemma ResubmitKeepsLimit(vertex: Vertex, filters: Option<Filters>, nodeExpansionLimit: Option<int>, other: Option<int>)
    requires ExpandNode(vertex, filters, false, nodeExpansionLimit).Submit?
    requires EffectiveLimit(filters, nodeExpansionLimit).Some? && EffectiveLimit(filters, nodeExpansionLimit).value != 0
    ensures var first := ExpandNode(vertex, filters, false, nodeExpansionLimit).request;
      var again := ExpandNode(vertex, Some(first.filters), false, other);
      again == Submit(first)
  {
  }
}
