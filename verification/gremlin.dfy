/**
 * Normalisation of Gremlin query results: GraphSON 3.0 values are flattened
 * into vertices, edges and scalars, vertices and edges are deduplicated by id,
 * and every edge endpoint missing from the result gets a fragment vertex.
 */
module Gremlin {
  import opened Wrappers
  import opened OrderedMaps
  import opened Seqs
  import BooleanString

  /**
   * A vertex and an edge as produced by the vertex and edge mappers, which are
   * not part of this model: only the fields the flattening reads are kept.
   */
  datatype Vertex = Vertex(id: string, types: seq<string>, isFragment: bool)
  datatype Edge = Edge(id: string, source: string, sourceTypes: seq<string>, target: string, targetTypes: seq<string>)

  /** A scalar result: JSON string, boolean or number. */
  datatype Scalar = SStr(s: string) | SBool(b: bool) | SNum(n: int)

  /** The numeric GraphSON 3.0 types. */
  datatype NumType = Int32 | Int64 | Double

  /**
   * A GraphSON 3.0 value: a bare JSON string or boolean, or a typed value
   * (`g:Int32`, `g:Int64`, `g:Double`, `g:Vertex`, `g:Edge`, `g:Path`,
   * `g:Map`, `g:List`, `g:Set`); any other `@type` is `GOther`.
   * A `g:Map` holds its keys and values interleaved.
   */
  datatype GValue =
    | GString(s: string)
    | GBool(b: bool)
    | GNumber(numType: NumType, n: int)
    | GVertex(vertex: Vertex)
    | GEdge(edge: Edge)
    | GPath(objects: GValue)
    | GMap(entries: seq<GValue>)
    | GList(items: seq<GValue>)
    | GSet(items: seq<GValue>)
    | GOther(typeName: string)

  datatype Item = VertexItem(vertex: Vertex) | EdgeItem(edge: Edge) | ScalarItem(scalar: Scalar)

  /** `mapAnyValue`: one item per vertex, edge or scalar reached, in traversal order. */
  function MapAnyValue(g: GValue): (r: seq<Item>)
    ensures g.GString? ==> r == [ScalarItem(SStr(g.s))]
    ensures g.GBool? ==> r == [ScalarItem(SBool(g.b))]
    ensures g.GNumber? ==> r == [ScalarItem(SNum(g.n))]
    ensures g.GVertex? ==> r == [VertexItem(g.vertex)]
    ensures g.GEdge? ==> r == [EdgeItem(g.edge)]
    ensures g.GOther? ==> r == []
    decreases g, 1
  {
    match g
    case GString(s) => [ScalarItem(SStr(s))]
    case GBool(b) => [ScalarItem(SBool(b))]
    case GNumber(_, n) => [ScalarItem(SNum(n))]
    case GEdge(e) => [EdgeItem(e)]
    case GVertex(v) => [VertexItem(v)]
    case GPath(objects) => MapAnyValue(objects)
    case GMap(entries) => MapMapValues(entries)
    case GList(items) => MapAll(items)
    case GSet(items) => MapAll(items)
    case GOther(_) => []
  }

  /** `flatMap(mapAnyValue)` over a list. */
  function MapAll(xs: seq<GValue>): seq<Item>
    decreases xs, 0
  {
    if |xs| == 0 then [] else MapAnyValue(xs[0]) + MapAll(xs[1..])
  }

  /** The values of a `g:Map`: the keys at even positions are skipped. */
  function MapMapValues(xs: seq<GValue>): seq<Item>
    decreases xs, 0
  {
    if |xs| < 2 then [] else MapAnyValue(xs[1]) + MapMapValues(xs[2..])
  }

  /** Flattening a list distributes over concatenation: elements are flattened in order. */
  lemma {:induction false} MapAllConcat(a: seq<GValue>, b: seq<GValue>)
    ensures MapAll(a + b) == MapAll(a) + MapAll(b)
  {
    if |a| == 0 {
      assert a + b == b;
    } else {
      assert (a + b)[0] == a[0];
      assert (a + b)[1..] == a[1..] + b;
      MapAllConcat(a[1..], b);
    }
  }

  /** A `g:Map` maps exactly as the list of its odd-position entries. */
  lemma {:induction false} MapValuesOdd(xs: seq<GValue>)
    ensures MapMapValues(xs) == MapAll(OddIndexed(xs))
  {
    if |xs| >= 2 {
      MapValuesOdd(xs[2..]);
      assert OddIndexed(xs)[1..] == OddIndexed(xs[2..]);
    }
  }

  /** The keys of a `g:Map` never contribute to the result. */
  lemma {:induction false} MapKeysIgnored(xs: seq<GValue>, ys: seq<GValue>)
    requires |xs| == |ys|
    requires forall i :: 0 <= i < |xs| / 2 ==> xs[2 * i + 1] == ys[2 * i + 1]
    ensures MapAnyValue(GMap(xs)) == MapAnyValue(GMap(ys))
  {
    MapValuesOdd(xs);
    MapValuesOdd(ys);
    assert OddIndexed(xs) == OddIndexed(ys);
  }

  /** Lists, sets, paths and unknown types, stated against the elements' own flattening. */
  lemma CollectionShapes(xs: seq<GValue>, x: GValue, name: string)
    ensures MapAnyValue(GList(xs)) == MapAnyValue(GSet(xs)) == MapAll(xs)
    ensures MapAnyValue(GList([x])) == MapAnyValue(x)
    ensures MapAnyValue(GPath(GList(xs))) == MapAnyValue(GList(xs))
    ensures MapAnyValue(GOther(name)) == []
  {
    assert [x][1..] == [];
  }

  function VerticesOf(items: seq<Item>): (r: seq<Vertex>)
    ensures |r| <= |items|
  {
    if |items| == 0 then []
    else (if items[0].VertexItem? then [items[0].vertex] else []) + VerticesOf(items[1..])
  }

  function EdgesOf(items: seq<Item>): (r: seq<Edge>)
    ensures |r| <= |items|
  {
    if |items| == 0 then []
    else (if items[0].EdgeItem? then [items[0].edge] else []) + EdgesOf(items[1..])
  }

  function ScalarsOf(items: seq<Item>): (r: seq<Scalar>)
    ensures |r| <= |items|
  {
    if |items| == 0 then []
    else (if items[0].ScalarItem? then [items[0].scalar] else []) + ScalarsOf(items[1..])
  }

  /** Every scalar reached is kept, duplicates included, in order. */
  lemma {:induction false} ScalarsConcat(a: seq<Item>, b: seq<Item>)
    ensures ScalarsOf(a + b) == ScalarsOf(a) + ScalarsOf(b)
  {
    if |a| == 0 {
      assert a + b == b;
    } else {
      assert (a + b)[0] == a[0];
      assert (a + b)[1..] == a[1..] + b;
      ScalarsConcat(a[1..], b);
    }
  }

  /** Scalars are not deduplicated: a list repeating a scalar yields it twice. */
  lemma ScalarsNotDeduplicated(s: string)
    ensures ScalarsOf(MapAnyValue(GList([GString(s), GString(s)]))) == [SStr(s), SStr(s)]
  {
    var xs := [GString(s), GString(s)];
    assert xs[1..][1..] == [];
    assert MapAll(xs) == [ScalarItem(SStr(s))] + MapAll(xs[1..]);
    assert MapAll(xs[1..]) == [ScalarItem(SStr(s))];
    var items := [ScalarItem(SStr(s)), ScalarItem(SStr(s))];
    assert MapAnyValue(GList(xs)) == items;
    assert items[1..][1..] == [];
    assert ScalarsOf(items[1..]) == [SStr(s)];
  }

  function VertexId(v: Vertex): string
  {
    v.id
  }

  function EdgeId(e: Edge): string
  {
    e.id
  }

  /** Every entry is stored under its own vertex id. */
  predicate VertexKeyed(k: string, v: Vertex)
  {
    v.id == k
  }

  predicate EdgeKeyed(k: string, e: Edge)
  {
    e.id == k
  }

  /** The fragment constructor keeps the id it is given; it is otherwise unknown. */
  ghost predicate FragmentKeepsId(fragment: (string, seq<string>) -> Vertex)
  {
    forall id, types :: fragment(id, types).id == id
  }

  /** Writes `id` unless a vertex is already stored under it. */
  function Ensure(vm: Entries<string, Vertex>, id: string, types: seq<string>,
                  fragment: (string, seq<string>) -> Vertex): (r: Entries<string, Vertex>)
    ensures HasKey(vm, id) ==> r == vm
    ensures !HasKey(vm, id) ==> r == vm + [(id, fragment(id, types))]
  {
    if HasKey(vm, id) then vm
    else (PutAbsentAppends(vm, id, fragment(id, types)); Put(vm, id, fragment(id, types)))
  }

  lemma {:induction false} PutAbsentAppends<K, V>(m: Entries<K, V>, k: K, v: V)
    requires !HasKey(m, k)
    ensures Put(m, k, v) == m + [(k, v)]
  {
    if |m| > 0 {
      assert Keys(m) == [m[0].0] + Keys(m[1..]);
      PutAbsentAppends(m[1..], k, v);
      assert [m[0]] + (m[1..] + [(k, v)]) == m + [(k, v)];
    }
  }

  /**
   * The loop over the deduplicated edges: each missing endpoint is added as a
   * fragment after the vertices already present.
   */
  function AddFragments(vm: Entries<string, Vertex>, edges: seq<Edge>,
                        fragment: (string, seq<string>) -> Vertex): (r: Entries<string, Vertex>)
    ensures |vm| <= |r| && r[..|vm|] == vm
    decreases |edges|
  {
    if |edges| == 0 then vm
    else
      var e := edges[0];
      var vm1 := Ensure(vm, e.source, e.sourceTypes, fragment);
      var vm2 := Ensure(vm1, e.target, e.targetTypes, fragment);
      AddFragments(vm2, edges[1..], fragment)
  }

  /** The loop keeps keys distinct and every vertex stored under its own id. */
  lemma {:induction false} AddFragmentsKeeps(vm: Entries<string, Vertex>, edges: seq<Edge>,
                                             fragment: (string, seq<string>) -> Vertex)
    requires FragmentKeepsId(fragment)
    ensures DistinctKeys(vm) ==> DistinctKeys(AddFragments(vm, edges, fragment))
    ensures AllEntries(vm, VertexKeyed) ==> AllEntries(AddFragments(vm, edges, fragment), VertexKeyed)
    decreases |edges|
  {
    if |edges| > 0 {
      var e := edges[0];
      var vm1 := Ensure(vm, e.source, e.sourceTypes, fragment);
      var vm2 := Ensure(vm1, e.target, e.targetTypes, fragment);
      EnsureFacts(vm, e.source, e.sourceTypes, fragment);
      EnsureFacts(vm1, e.target, e.targetTypes, fragment);
      AddFragmentsKeeps(vm2, edges[1..], fragment);
      assert AddFragments(vm, edges, fragment) == AddFragments(vm2, edges[1..], fragment);
    }
  }

  /** No key present before the loop is lost. */
  lemma AddFragmentsKeepsKey(vm: Entries<string, Vertex>, edges: seq<Edge>,
                             fragment: (string, seq<string>) -> Vertex, k: string)
    requires HasKey(vm, k)
    ensures HasKey(AddFragments(vm, edges, fragment), k)
  {
    var r := AddFragments(vm, edges, fragment);
    var i :| 0 <= i < |Keys(vm)| && Keys(vm)[i] == k;
    assert r[..|vm|][i] == vm[i];
    assert Keys(r)[i] == k;
  }

  /** `Ensure` makes its own id present and loses no key. */
  lemma EnsurePresent(vm: Entries<string, Vertex>, id: string, types: seq<string>,
                      fragment: (string, seq<string>) -> Vertex, k: string)
    requires k == id || HasKey(vm, k)
    ensures HasKey(Ensure(vm, id, types, fragment), k)
  {
    if !HasKey(vm, id) {
      PutKeys(vm, id, fragment(id, types));
    }
  }

  /** One step of the loop makes the first edge's endpoints present. */
  lemma FirstEdgeEndpoints(vm: Entries<string, Vertex>, e: Edge,
                           fragment: (string, seq<string>) -> Vertex)
    ensures var vm1 := Ensure(vm, e.source, e.sourceTypes, fragment);
      var vm2 := Ensure(vm1, e.target, e.targetTypes, fragment);
      HasKey(vm2, e.source) && HasKey(vm2, e.target)
  {
    var vm1 := Ensure(vm, e.source, e.sourceTypes, fragment);
    EnsurePresent(vm, e.source, e.sourceTypes, fragment, e.source);
    EnsurePresent(vm1, e.target, e.targetTypes, fragment, e.source);
    EnsurePresent(vm1, e.target, e.targetTypes, fragment, e.target);
  }

  /** After the loop the source and target of edge `i` are present. */
  lemma {:induction false} AddFragmentsHasEndpoint(vm: Entries<string, Vertex>, edges: seq<Edge>,
                                                   fragment: (string, seq<string>) -> Vertex, i: nat)
    requires i < |edges|
    ensures HasKey(AddFragments(vm, edges, fragment), edges[i].source)
    ensures HasKey(AddFragments(vm, edges, fragment), edges[i].target)
    decreases i
  {
    var e := edges[0];
    var vm2 := Ensure(Ensure(vm, e.source, e.sourceTypes, fragment), e.target, e.targetTypes, fragment);
    assert AddFragments(vm, edges, fragment) == AddFragments(vm2, edges[1..], fragment);
    if i == 0 {
      FirstEdgeEndpoints(vm, e, fragment);
      AddFragmentsKeepsKey(vm2, edges[1..], fragment, e.source);
      AddFragmentsKeepsKey(vm2, edges[1..], fragment, e.target);
    } else {
      AddFragmentsHasEndpoint(vm2, edges[1..], fragment, i - 1);
      assert edges[1..][i - 1] == edges[i];
    }
  }

  /** After the loop every edge's source and target are present, and no key is lost. */
  lemma AddFragmentsFacts(vm: Entries<string, Vertex>, edges: seq<Edge>,
                          fragment: (string, seq<string>) -> Vertex)
    ensures forall i :: 0 <= i < |edges| ==>
      HasKey(AddFragments(vm, edges, fragment), edges[i].source) && HasKey(AddFragments(vm, edges, fragment), edges[i].target)
    ensures forall k :: HasKey(vm, k) ==> HasKey(AddFragments(vm, edges, fragment), k)
  {
    forall i | 0 <= i < |edges|
      ensures HasKey(AddFragments(vm, edges, fragment), edges[i].source)
      ensures HasKey(AddFragments(vm, edges, fragment), edges[i].target)
    {
      AddFragmentsHasEndpoint(vm, edges, fragment, i);
    }
    forall k | HasKey(vm, k)
      ensures HasKey(AddFragments(vm, edges, fragment), k)
    {
      AddFragmentsKeepsKey(vm, edges, fragment, k);
    }
  }

  lemma EnsureFacts(vm: Entries<string, Vertex>, id: string, types: seq<string>,
                    fragment: (string, seq<string>) -> Vertex)
    requires FragmentKeepsId(fragment)
    ensures HasKey(Ensure(vm, id, types, fragment), id)
    ensures forall k :: HasKey(vm, k) ==> HasKey(Ensure(vm, id, types, fragment), k)
    ensures DistinctKeys(vm) ==> DistinctKeys(Ensure(vm, id, types, fragment))
    ensures AllEntries(vm, VertexKeyed) ==> AllEntries(Ensure(vm, id, types, fragment), VertexKeyed)
  {
    if !HasKey(vm, id) {
      var f := fragment(id, types);
      PutKeys(vm, id, f);
      if DistinctKeys(vm) {
        PutDistinct(vm, id, f);
      }
      if AllEntries(vm, VertexKeyed) {
        PutAll(vm, id, f, VertexKeyed);
      }
    }
  }

  datatype MappedResults = MappedResults(vertices: seq<Vertex>, edges: seq<Edge>, scalars: seq<Scalar>)

  function VertexIds(vs: seq<Vertex>): (r: seq<string>)
    ensures |r| == |vs|
    ensures forall i :: 0 <= i < |vs| ==> r[i] == vs[i].id
  {
    if |vs| == 0 then [] else [vs[0].id] + VertexIds(vs[1..])
  }

  /** The deduplicated vertex and edge maps with the fragments added, and the scalars. */
  function Assemble(vertexMap: Entries<string, Vertex>, edgeMap: Entries<string, Edge>, scalars: seq<Scalar>,
                    fragment: (string, seq<string>) -> Vertex): (r: MappedResults)
    ensures r.edges == Values(edgeMap) && r.scalars == scalars
  {
    MappedResults(Values(AddFragments(vertexMap, Values(edgeMap), fragment)), Values(edgeMap), scalars)
  }

  /** `mapResults`: scalars are kept as reached; vertices and edges are deduplicated by id. */
  function MapResults(g: GValue, fragment: (string, seq<string>) -> Vertex): (r: MappedResults)
    ensures r.scalars == ScalarsOf(MapAnyValue(g))
    ensures |r.edges| <= |EdgesOf(MapAnyValue(g))|
  {
    var values := MapAnyValue(g);
    var vertexMap := FromEntries(KeyedBy(VerticesOf(values), VertexId));
    var edgeMap := FromEntries(KeyedBy(EdgesOf(values), EdgeId));
    FromEntriesLength(KeyedBy(EdgesOf(values), EdgeId));
    Assemble(vertexMap, edgeMap, ScalarsOf(values), fragment)
  }

  lemma {:induction false} FromEntriesLength<K, V>(es: Entries<K, V>)
    ensures |FromEntries(es)| <= |es|
    decreases |es|
  {
    if |es| > 0 {
      FromEntriesLength(es[..|es| - 1]);
      PutKeys(FromEntries(es[..|es| - 1]), es[|es| - 1].0, es[|es| - 1].1);
    }
  }

  predicate ResultsWellFormed(r: MappedResults)
  {
    && Distinct(VertexIds(r.vertices))
    && (forall i, j :: 0 <= i < j < |r.edges| ==> r.edges[i].id != r.edges[j].id)
    && (forall i :: 0 <= i < |r.edges| ==>
          r.edges[i].source in VertexIds(r.vertices) && r.edges[i].target in VertexIds(r.vertices))
  }

  lemma AssembleFacts(vertexMap: Entries<string, Vertex>, edgeMap: Entries<string, Edge>, scalars: seq<Scalar>,
                      fragment: (string, seq<string>) -> Vertex)
    requires FragmentKeepsId(fragment)
    requires DistinctKeys(vertexMap) && AllEntries(vertexMap, VertexKeyed)
    requires DistinctKeys(edgeMap) && AllEntries(edgeMap, EdgeKeyed)
    ensures ResultsWellFormed(Assemble(vertexMap, edgeMap, scalars, fragment))
  {
    var edges := Values(edgeMap);
    var finalMap := AddFragments(vertexMap, edges, fragment);
    var r := Assemble(vertexMap, edgeMap, scalars, fragment);
    AddFragmentsKeeps(vertexMap, edges, fragment);
    AddFragmentsFacts(vertexMap, edges, fragment);
    KeyedValuesDistinct(finalMap);
    KeysAmongVertexIds(finalMap);
  }

  /** In a map whose entries are stored under their ids, every key is a vertex id. */
  lemma KeysAmongVertexIds(m: Entries<string, Vertex>)
    requires AllEntries(m, VertexKeyed)
    ensures forall id :: HasKey(m, id) ==> id in VertexIds(Values(m))
  {
    forall id | HasKey(m, id)
      ensures id in VertexIds(Values(m))
    {
      var i :| 0 <= i < |Keys(m)| && Keys(m)[i] == id;
      assert VertexIds(Values(m))[i] == id;
    }
  }

  /**
   * The vertices have pairwise distinct ids, so do the edges, and every edge's
   * source and target is among the vertices.
   */
  lemma MapResultsProperties(g: GValue, fragment: (string, seq<string>) -> Vertex)
    requires FragmentKeepsId(fragment)
    ensures ResultsWellFormed(MapResults(g, fragment))
  {
    var values := MapAnyValue(g);
    DedupFacts(values);
    AssembleFacts(FromEntries(KeyedBy(VerticesOf(values), VertexId)), FromEntries(KeyedBy(EdgesOf(values), EdgeId)),
                  ScalarsOf(values), fragment);
  }

  lemma DedupFacts(values: seq<Item>)
    ensures DistinctKeys(FromEntries(KeyedBy(VerticesOf(values), VertexId)))
    ensures AllEntries(FromEntries(KeyedBy(VerticesOf(values), VertexId)), VertexKeyed)
    ensures DistinctKeys(FromEntries(KeyedBy(EdgesOf(values), EdgeId)))
    ensures AllEntries(FromEntries(KeyedBy(EdgesOf(values), EdgeId)), EdgeKeyed)
  {
    var ve := KeyedBy(VerticesOf(values), VertexId);
    var ee := KeyedBy(EdgesOf(values), EdgeId);
    FromEntriesDistinct(ve);
    FromEntriesAll(ve, VertexKeyed);
    FromEntriesDistinct(ee);
    FromEntriesAll(ee, EdgeKeyed);
  }

  /** A map without repeated keys whose entries are stored under their ids has distinct vertex ids. */
  lemma KeyedValuesDistinct(m: Entries<string, Vertex>)
    requires DistinctKeys(m) && AllEntries(m, VertexKeyed)
    ensures Distinct(VertexIds(Values(m)))
  {
  }

  /**
   * A vertex present in the result before the fragments are added is the one
   * returned: fragments only fill in missing endpoints.
   */
  lemma {:induction false} FragmentsNeverReplace(vm: Entries<string, Vertex>, edges: seq<Edge>,
                                                 fragment: (string, seq<string>) -> Vertex, k: string)
    requires FragmentKeepsId(fragment)
    requires HasKey(vm, k)
    ensures Get(AddFragments(vm, edges, fragment), k) == Get(vm, k)
  {
    var r := AddFragments(vm, edges, fragment);
    GetConcat(vm, r[|vm|..], k);
    assert r == vm + r[|vm|..];
  }

  /** The fragment `mapResults` builds for a missing endpoint of `e`. */
  predicate EndpointFragment(v: Vertex, e: Edge, fragment: (string, seq<string>) -> Vertex)
  {
    v == fragment(e.source, e.sourceTypes) || v == fragment(e.target, e.targetTypes)
  }

  /** The loop only adds fragments for the endpoints of the edges it walks. */
  lemma {:induction false} AddFragmentsEntries(vm: Entries<string, Vertex>, edges: seq<Edge>,
                                               fragment: (string, seq<string>) -> Vertex)
    ensures forall x :: x in AddFragments(vm, edges, fragment) ==>
      x in vm || exists e :: e in edges && EndpointFragment(x.1, e, fragment)
    decreases |edges|
  {
    if |edges| > 0 {
      var e := edges[0];
      var vm1 := Ensure(vm, e.source, e.sourceTypes, fragment);
      var vm2 := Ensure(vm1, e.target, e.targetTypes, fragment);
      AddFragmentsEntries(vm2, edges[1..], fragment);
      assert AddFragments(vm, edges, fragment) == AddFragments(vm2, edges[1..], fragment);
      assert forall x :: x in vm2 ==> x in vm || EndpointFragment(x.1, e, fragment);
      assert forall d :: d in edges[1..] ==> d in edges;
    }
  }

  /** Every vertex read from the result's first occurrence of its id is in the vertex map, and no key is lost. */
  lemma VertexInputPresent(values: seq<Item>, i: nat)
    requires i < |VerticesOf(values)|
    ensures HasKey(FromEntries(KeyedBy(VerticesOf(values), VertexId)), VerticesOf(values)[i].id)
  {
    var ve := KeyedBy(VerticesOf(values), VertexId);
    FromEntriesKeys(ve, ve[i].0);
    assert Keys(ve)[i] == ve[i].0;
  }

  /** Every vertex returned was read, or is the fragment made for an endpoint of a returned edge. */
  predicate VerticesFromInput(r: MappedResults, vs: seq<Vertex>, fragment: (string, seq<string>) -> Vertex)
  {
    forall v :: v in r.vertices ==> v in vs || exists e :: e in r.edges && EndpointFragment(v, e, fragment)
  }

  /** Every edge returned was read. */
  predicate EdgesFromInput(r: MappedResults, es: seq<Edge>)
  {
    forall e :: e in r.edges ==> e in es
  }

  /** Every vertex and edge id read is returned. */
  predicate IdsReturned(r: MappedResults, vs: seq<Vertex>, es: seq<Edge>)
  {
    && (forall i :: 0 <= i < |vs| ==> vs[i].id in VertexIds(r.vertices))
    && (forall i :: 0 <= i < |es| ==> exists j :: 0 <= j < |r.edges| && r.edges[j].id == es[i].id)
  }

  /** The last vertex and the last edge read under each id are the ones returned. */
  predicate LastReadReturned(r: MappedResults, vs: seq<Vertex>, es: seq<Edge>)
  {
    && (forall i :: 0 <= i < |vs| && (forall j :: i < j < |vs| ==> vs[j].id != vs[i].id) ==> vs[i] in r.vertices)
    && (forall i :: 0 <= i < |es| && (forall j :: i < j < |es| ==> es[j].id != es[i].id) ==> es[i] in r.edges)
  }

  /** `mapResults` with the maps it builds spelled out. */
  function AssembleFrom(values: seq<Item>, fragment: (string, seq<string>) -> Vertex): MappedResults
  {
    Assemble(FromEntries(KeyedBy(VerticesOf(values), VertexId)), FromEntries(KeyedBy(EdgesOf(values), EdgeId)),
             ScalarsOf(values), fragment)
  }

  /**
   * What comes out is what went in: every vertex returned was read from the
   * results or is the fragment made for an endpoint of a returned edge;
   * every edge returned was read from the results; every vertex and edge id
   * read is returned; and the last vertex or edge read under an id is the
   * one returned.
   */
  lemma MapResultsCoverage(g: GValue, fragment: (string, seq<string>) -> Vertex)
    requires FragmentKeepsId(fragment)
    ensures VerticesFromInput(MapResults(g, fragment), VerticesOf(MapAnyValue(g)), fragment)
    ensures EdgesFromInput(MapResults(g, fragment), EdgesOf(MapAnyValue(g)))
    ensures IdsReturned(MapResults(g, fragment), VerticesOf(MapAnyValue(g)), EdgesOf(MapAnyValue(g)))
    ensures LastReadReturned(MapResults(g, fragment), VerticesOf(MapAnyValue(g)), EdgesOf(MapAnyValue(g)))
  {
    var values := MapAnyValue(g);
    assert MapResults(g, fragment) == AssembleFrom(values, fragment);
    MapResultsOrigin(values, fragment);
    MapResultsIds(values, fragment);
    MapResultsLastWins(values, fragment);
  }

  /** The vertices and edges returned come from the results or are fragments. */
  lemma MapResultsOrigin(values: seq<Item>, fragment: (string, seq<string>) -> Vertex)
    ensures VerticesFromInput(AssembleFrom(values, fragment), VerticesOf(values), fragment)
    ensures EdgesFromInput(AssembleFrom(values, fragment), EdgesOf(values))
  {
    var ve := KeyedBy(VerticesOf(values), VertexId);
    var ee := KeyedBy(EdgesOf(values), EdgeId);
    var vm, em := FromEntries(ve), FromEntries(ee);
    var edges := Values(em);
    var final := AddFragments(vm, edges, fragment);
    FromEntriesEntries(ve);
    FromEntriesEntries(ee);
    AddFragmentsEntries(vm, edges, fragment);
    forall e | e in edges
      ensures e in EdgesOf(values)
    {
      var k :| 0 <= k < |em| && edges[k] == e;
      assert em[k] in ee;
      var j :| 0 <= j < |ee| && ee[j] == em[k];
    }
    forall v | v in Values(final)
      ensures v in VerticesOf(values) || exists e :: e in edges && EndpointFragment(v, e, fragment)
    {
      var k :| 0 <= k < |final| && Values(final)[k] == v;
      assert final[k] in final;
      if final[k] in vm {
        var j :| 0 <= j < |ve| && ve[j] == final[k];
      }
    }
  }

  /** Every vertex and edge id read comes back out. */
  lemma MapResultsIds(values: seq<Item>, fragment: (string, seq<string>) -> Vertex)
    requires FragmentKeepsId(fragment)
    ensures IdsReturned(AssembleFrom(values, fragment), VerticesOf(values), EdgesOf(values))
  {
    var vs, es := VerticesOf(values), EdgesOf(values);
    var ve, ee := KeyedBy(vs, VertexId), KeyedBy(es, EdgeId);
    var vm, em := FromEntries(ve), FromEntries(ee);
    var final := AddFragments(vm, Values(em), fragment);
    DedupFacts(values);
    AddFragmentsKeeps(vm, Values(em), fragment);
    KeysAmongVertexIds(final);
    forall i | 0 <= i < |vs|
      ensures vs[i].id in VertexIds(Values(final))
    {
      VertexInputPresent(values, i);
      AddFragmentsKeepsKey(vm, Values(em), fragment, vs[i].id);
    }
    forall i | 0 <= i < |es|
      ensures exists j :: 0 <= j < |Values(em)| && Values(em)[j].id == es[i].id
    {
      FromEntriesKeys(ee, ee[i].0);
      assert Keys(ee)[i] == ee[i].0;
      var j :| 0 <= j < |Keys(em)| && Keys(em)[j] == es[i].id;
      assert EdgeKeyed(em[j].0, em[j].1);
    }
  }

  /** The last vertex or edge read under an id is the one returned. */
  lemma MapResultsLastWins(values: seq<Item>, fragment: (string, seq<string>) -> Vertex)
    requires FragmentKeepsId(fragment)
    ensures LastReadReturned(AssembleFrom(values, fragment), VerticesOf(values), EdgesOf(values))
  {
    forall i | 0 <= i < |VerticesOf(values)| && (forall j :: i < j < |VerticesOf(values)| ==> VerticesOf(values)[j].id != VerticesOf(values)[i].id)
      ensures VerticesOf(values)[i] in Values(AddFragments(FromEntries(KeyedBy(VerticesOf(values), VertexId)),
                                                           Values(FromEntries(KeyedBy(EdgesOf(values), EdgeId))), fragment))
    {
      LastVertexKept(values, fragment, i);
    }
    forall i | 0 <= i < |EdgesOf(values)| && (forall j :: i < j < |EdgesOf(values)| ==> EdgesOf(values)[j].id != EdgesOf(values)[i].id)
      ensures EdgesOf(values)[i] in Values(FromEntries(KeyedBy(EdgesOf(values), EdgeId)))
    {
      LastEdgeKept(values, i);
    }
  }

  lemma LastVertexKept(values: seq<Item>, fragment: (string, seq<string>) -> Vertex, i: nat)
    requires FragmentKeepsId(fragment)
    requires i < |VerticesOf(values)| && forall j :: i < j < |VerticesOf(values)| ==> VerticesOf(values)[j].id != VerticesOf(values)[i].id
    ensures VerticesOf(values)[i] in Values(AddFragments(FromEntries(KeyedBy(VerticesOf(values), VertexId)),
                                                         Values(FromEntries(KeyedBy(EdgesOf(values), EdgeId))), fragment))
  {
    var vs := VerticesOf(values);
    var ve := KeyedBy(vs, VertexId);
    var vm := FromEntries(ve);
    var edges := Values(FromEntries(KeyedBy(EdgesOf(values), EdgeId)));
    var final := AddFragments(vm, edges, fragment);
    FromEntriesLastWins(ve, i);
    FragmentsNeverReplace(vm, edges, fragment, vs[i].id);
    GetIn(final, vs[i].id);
  }

  lemma LastEdgeKept(values: seq<Item>, i: nat)
    requires i < |EdgesOf(values)| && forall j :: i < j < |EdgesOf(values)| ==> EdgesOf(values)[j].id != EdgesOf(values)[i].id
    ensures EdgesOf(values)[i] in Values(FromEntries(KeyedBy(EdgesOf(values), EdgeId)))
  {
    var ee := KeyedBy(EdgesOf(values), EdgeId);
    FromEntriesLastWins(ee, i);
    GetIn(FromEntries(ee), ee[i].0);
  }

  /** A property value of an edge: a string, a boolean or a typed number. */
  datatype PropertyValue = PString(s: string) | PBool(b: bool) | PTyped(numType: NumType, n: int)

  datatype StringOrNumber = Str(s: string) | Num(n: int)

  /**
   * `parseEdgeProperty`: strings are kept, booleans become their text and
   * typed numbers their nested value; the result is never a boolean.
   */
  function ParseEdgeProperty(p: PropertyValue): (r: StringOrNumber)
    ensures p.PString? ==> r == Str(p.s)
    ensures p.PBool? ==> r == Str(if p.b then "true" else "false") && BooleanString.Parse(r.s) == Success(p.b)
    ensures p.PTyped? ==> r == Num(p.n)
  {
    match p
    case PString(s) => Str(s)
    case PBool(b) => BooleanString.RoundTrip(b); Str(BooleanString.Text(b))
    case PTyped(_, n) => Num(n)
  }
}
