/**
 * Replacing the node list or the edge list of the graph (`nodesSelector`,
 * `edgesSelector`): the ID sets that depend on the list are pruned to the
 * ids still present, and the active connection's schema learns the types
 * it has not seen yet.
 */
module GraphState {
  import opened Wrappers
  import opened OrderedMaps
  import opened Schema

  /** A vertex or an edge, as far as the write looks at it. */
  datatype Entity = Entity(id: string, etype: string, attributes: Entries<string, string>)

  /** The selected, hidden, out-of-focus and filtered ids of one list. */
  datatype IdSets = IdSets(selected: set<string>, hidden: set<string>, outOfFocus: set<string>, filtered: set<string>)

  datatype ListState = ListState(items: seq<Entity>, ids: IdSets)

  /** The node list, the edge list and the schema map keyed by connection id. */
  datatype Graph = Graph(nodes: ListState, edges: ListState, schemas: Entries<string, SchemaInference>)

  /** What a list atom is written with: `RESET` or a new list. */
  datatype Write = Reset | Replace(items: seq<Entity>)

  /** The state after a write, and whether the write threw part-way. */
  datatype Written = Written(graph: Graph, threw: bool)

  /** Which list of a schema a write infers into. */
  datatype Side = VertexSide | EdgeSide

  function EntityIds(items: seq<Entity>): set<string>
  {
    set i | 0 <= i < |items| :: items[i].id
  }

  function ItemTypes(items: seq<Entity>): set<string>
  {
    set i | 0 <= i < |items| :: items[i].etype
  }

  /**
   * `cleanFn` behind its guard: a non-empty set keeps the ids some new item
   * carries; an empty set is left alone. Either way the result is the
   * intersection with the new ids.
   */
  function CleanIfAny(curr: set<string>, items: seq<Entity>): (r: set<string>)
    ensures r == curr * EntityIds(items)
    ensures r <= curr
  {
    if |curr| > 0 then set id | id in curr && id in EntityIds(items) else curr
  }

  predicate CleanedBy(before: IdSets, after: IdSets, items: seq<Entity>)
  {
    && after.selected == before.selected * EntityIds(items)
    && after.hidden == before.hidden * EntityIds(items)
    && after.outOfFocus == before.outOfFocus * EntityIds(items)
    && after.filtered == before.filtered * EntityIds(items)
  }

  function CleanIds(ids: IdSets, items: seq<Entity>): (r: IdSets)
    ensures CleanedBy(ids, r, items)
  {
    IdSets(CleanIfAny(ids.selected, items), CleanIfAny(ids.hidden, items),
      CleanIfAny(ids.outOfFocus, items), CleanIfAny(ids.filtered, items))
  }

  /** Pruning never adds an id, and pruning again with the same list changes nothing. */
  lemma CleanedSubset(before: IdSets, after: IdSets, items: seq<Entity>)
    requires CleanedBy(before, after, items)
    ensures after.selected <= before.selected && after.hidden <= before.hidden
    ensures after.outOfFocus <= before.outOfFocus && after.filtered <= before.filtered
    ensures CleanIds(after, items) == after
  {
  }

  /** The type entry made for an item whose type is new: empty label, every attribute visible. */
  function NewEntry(e: Entity, sanitize: string -> string): (c: TypeConfig)
    ensures c.ttype == e.etype && c.displayLabel == "" && c.total == None
    ensures |c.attributes| == |e.attributes|
  {
    TypeConfig(e.etype, "",
      seq(|e.attributes|, i requires 0 <= i < |e.attributes| =>
        AttributeConfig(e.attributes[i].0, sanitize(e.attributes[i].0), false)),
      None)
  }

  function AttributeNames(c: TypeConfig): (ns: seq<string>)
    ensures |ns| == |c.attributes|
  {
    seq(|c.attributes|, i requires 0 <= i < |c.attributes| => c.attributes[i].name)
  }

  /** The new entry lists exactly the item's attribute keys, in order, none hidden. */
  lemma NewEntryAttributes(e: Entity, sanitize: string -> string)
    ensures AttributeNames(NewEntry(e, sanitize)) == Keys(e.attributes)
    ensures forall i :: 0 <= i < |e.attributes| ==> !NewEntry(e, sanitize).attributes[i].hidden
  {
  }

  /** One step of the reduce: push an entry unless the type is already there. */
  function Step(acc: seq<TypeConfig>, e: Entity, sanitize: string -> string): seq<TypeConfig>
  {
    if e.etype in TypeSet(acc) then acc else acc + [NewEntry(e, sanitize)]
  }

  /** The type inference reduce, left to right over the new list. */
  function InferTypes(acc: seq<TypeConfig>, items: seq<Entity>, sanitize: string -> string): (r: seq<TypeConfig>)
    ensures |acc| <= |r| <= |acc| + |items| && r[..|acc|] == acc
    decreases |items|
  {
    if |items| == 0 then acc else InferTypes(Step(acc, items[0], sanitize), items[1..], sanitize)
  }

  /** The first item of type `t`, if any. */
  function FirstOfType(items: seq<Entity>, t: string): (r: Option<Entity>)
    ensures r.Some? <==> t in ItemTypes(items)
    ensures r.Some? ==> r.value.etype == t
  {
    if |items| == 0 then None
    else if items[0].etype == t then Some(items[0])
    else
      ItemTypesCons(items);
      FirstOfType(items[1..], t)
  }

  lemma ItemTypesCons(items: seq<Entity>)
    requires |items| > 0
    ensures ItemTypes(items) == {items[0].etype} + ItemTypes(items[1..])
  {
    forall x | x in ItemTypes(items) ensures x in {items[0].etype} + ItemTypes(items[1..]) {
      var i :| 0 <= i < |items| && items[i].etype == x;
      if i > 0 { assert items[1..][i - 1] == items[i]; }
    }
    forall x | x in ItemTypes(items[1..]) ensures x in ItemTypes(items) {
      var i :| 0 <= i < |items[1..]| && items[1..][i].etype == x;
      assert items[i + 1] == items[1..][i];
    }
  }

  lemma StepTypes(acc: seq<TypeConfig>, e: Entity, sanitize: string -> string)
    ensures TypeSet(Step(acc, e, sanitize)) == TypeSet(acc) + {e.etype}
  {
    if e.etype !in TypeSet(acc) {
      TypeSetSnoc(acc, NewEntry(e, sanitize));
    }
  }

  /** Entries already in the schema stay where they are, unchanged. */
  lemma {:induction false} InferTypesKeepsExisting(acc: seq<TypeConfig>, items: seq<Entity>, sanitize: string -> string)
    ensures |acc| <= |InferTypes(acc, items, sanitize)|
    ensures InferTypes(acc, items, sanitize)[..|acc|] == acc
    decreases |items|
  {
    if |items| > 0 {
      var next := Step(acc, items[0], sanitize);
      InferTypesKeepsExisting(next, items[1..], sanitize);
      var r := InferTypes(acc, items, sanitize);
      assert r == InferTypes(next, items[1..], sanitize);
      assert next[..|acc|] == acc;
      assert r[..|acc|] == r[..|next|][..|acc|];
    }
  }

  /** Afterwards every type of the new list is configured, and no other type was added. */
  lemma {:induction false} InferTypesCovers(acc: seq<TypeConfig>, items: seq<Entity>, sanitize: string -> string)
    ensures TypeSet(InferTypes(acc, items, sanitize)) == TypeSet(acc) + ItemTypes(items)
    decreases |items|
  {
    if |items| == 0 {
      assert ItemTypes(items) == {};
    } else {
      var next := Step(acc, items[0], sanitize);
      InferTypesCovers(next, items[1..], sanitize);
      StepTypes(acc, items[0], sanitize);
      ItemTypesCons(items);
    }
  }

  /** A schema without repeated types gets none: a type is pushed only when it is absent. */
  lemma {:induction false} InferTypesDistinct(acc: seq<TypeConfig>, items: seq<Entity>, sanitize: string -> string)
    requires DistinctTypes(acc)
    ensures DistinctTypes(InferTypes(acc, items, sanitize))
    decreases |items|
  {
    if |items| > 0 {
      var next := Step(acc, items[0], sanitize);
      if items[0].etype !in TypeSet(acc) {
        var c := NewEntry(items[0], sanitize);
        forall i, j | 0 <= i < j < |next| ensures next[i].ttype != next[j].ttype {
          if j == |acc| {
            assert next[j] == c;
            assert next[i] == acc[i];
          } else {
            assert next[i] == acc[i] && next[j] == acc[j];
          }
        }
      }
      InferTypesDistinct(next, items[1..], sanitize);
    }
  }

  /**
   * Each appended entry is for a type the schema lacked, and it is built
   * from the first item of that type in the new list.
   */
  lemma {:induction false} InferTypesNewEntries(acc: seq<TypeConfig>, items: seq<Entity>, sanitize: string -> string)
    ensures var r := InferTypes(acc, items, sanitize);
      forall k :: |acc| <= k < |r| ==>
        r[k].ttype !in TypeSet(acc) && FirstOfType(items, r[k].ttype).Some?
        && r[k] == NewEntry(FirstOfType(items, r[k].ttype).value, sanitize)
    decreases |items|
  {
    if |items| > 0 {
      var e := items[0];
      var next := Step(acc, e, sanitize);
      var r := InferTypes(acc, items, sanitize);
      assert r == InferTypes(next, items[1..], sanitize);
      InferTypesNewEntries(next, items[1..], sanitize);
      InferTypesKeepsExisting(next, items[1..], sanitize);
      StepTypes(acc, e, sanitize);
      forall k | |acc| <= k < |r|
        ensures r[k].ttype !in TypeSet(acc) && FirstOfType(items, r[k].ttype).Some?
        && r[k] == NewEntry(FirstOfType(items, r[k].ttype).value, sanitize)
      {
        if k < |next| {
          assert r[k] == r[..|next|][k] == next[k];
          assert next[k] == NewEntry(e, sanitize);
        } else {
          assert r[k].ttype !in TypeSet(next);
          assert r[k].ttype != e.etype;
        }
      }
    }
  }

  /** A fresh schema's lists before anything is inferred: the other list defaults to empty. */
  function EmptySchema(): SchemaInference
  {
    SchemaInference([], [], None, None, None, None, None, None)
  }

  function SideTypes(s: SchemaInference, side: Side): seq<TypeConfig>
  {
    match side
    case VertexSide => s.vertices
    case EdgeSide => s.edges
  }

  /**
   * The object the write stores for the active connection. With a previous
   * schema, every property is spread back and the side's list gains the new
   * types. Without one, the reduce is seeded with `undefined`: an empty
   * list leaves it `undefined` and the other list defaults to `[]`, while a
   * non-empty list makes the first step throw.
   */
  function InferInto(prev: Option<SchemaInference>, side: Side, items: seq<Entity>, sanitize: string -> string): (r: Result<SchemaInference, string>)
    ensures r.Failure? <==> prev.None? && |items| > 0
    ensures r.Success? && prev.Some? ==>
      match side
      case VertexSide => r.value == prev.value.(vertices := InferTypes(prev.value.vertices, items, sanitize))
      case EdgeSide => r.value == prev.value.(edges := InferTypes(prev.value.edges, items, sanitize))
    ensures r.Success? && prev.None? ==> r.value == EmptySchema()
  {
    match prev
    case None => if |items| > 0 then Failure("TypeError") else Success(EmptySchema())
    case Some(p) =>
      match side
      case VertexSide => Success(p.(vertices := InferTypes(p.vertices, items, sanitize)))
      case EdgeSide => Success(p.(edges := InferTypes(p.edges, items, sanitize)))
  }

  /**
   * The schema-map update: nothing without an active connection; otherwise
   * the active entry is replaced in place (or added last), every other entry
   * keeps its key, position and value.
   */
  function UpdateSchemas(schemas: Entries<string, SchemaInference>, active: Option<string>, side: Side,
                         items: seq<Entity>, sanitize: string -> string): (r: Result<Entries<string, SchemaInference>, string>)
    ensures !TruthyStr(active) ==> r == Success(schemas)
    ensures r.Failure? <==> TruthyStr(active) && !HasKey(schemas, active.value) && |items| > 0
    ensures r.Success? && TruthyStr(active) ==>
      Get(r.value, active.value) == Some(InferInto(Get(schemas, active.value), side, items, sanitize).value)
      && (forall k :: k != active.value ==> Get(r.value, k) == Get(schemas, k))
      && (HasKey(schemas, active.value) ==> Keys(r.value) == Keys(schemas))
  {
    if !TruthyStr(active) then Success(schemas)
    else
      var a := active.value;
      match InferInto(Get(schemas, a), side, items, sanitize)
      case Failure(err) => Failure(err)
      case Success(s) =>
        PutOthers(schemas, a, s);
        PutKeys(schemas, a, s);
        Success(Put(schemas, a, s))
  }

  /**
   * Writing the node list. `RESET` only empties the list. A new list is
   * stored, the four node-ID sets are pruned to its ids, and then the schema
   * map is updated; when that throws, the list and the ID sets have already
   * been written and the schema map is unchanged. The edges are never touched.
   */
  function WriteNodes(g: Graph, w: Write, active: Option<string>, sanitize: string -> string): (r: Written)
    ensures r.graph.edges == g.edges
    ensures w.Reset? ==> !r.threw && r.graph == g.(nodes := g.nodes.(items := []))
    ensures w.Replace? ==> r.graph.nodes.items == w.items && CleanedBy(g.nodes.ids, r.graph.nodes.ids, w.items)
    ensures w.Replace? ==> (r.threw <==> TruthyStr(active) && !HasKey(g.schemas, active.value) && |w.items| > 0)
    ensures r.threw || !TruthyStr(active) ==> r.graph.schemas == g.schemas
    ensures w.Replace? && !r.threw ==>
      r.graph.schemas == UpdateSchemas(g.schemas, active, VertexSide, w.items, sanitize).value
  {
    match w
    case Reset => Written(g.(nodes := g.nodes.(items := [])), false)
    case Replace(items) =>
      var nodes := ListState(items, CleanIds(g.nodes.ids, items));
      match UpdateSchemas(g.schemas, active, VertexSide, items, sanitize)
      case Failure(_) => Written(g.(nodes := nodes), true)
      case Success(schemas) => Written(Graph(nodes, g.edges, schemas), false)
  }

  /** Writing the edge list: the same rule with the edge-ID sets and the schema's edge list. */
  function WriteEdges(g: Graph, w: Write, active: Option<string>, sanitize: string -> string): (r: Written)
    ensures r.graph.nodes == g.nodes
    ensures w.Reset? ==> !r.threw && r.graph == g.(edges := g.edges.(items := []))
    ensures w.Replace? ==> r.graph.edges.items == w.items && CleanedBy(g.edges.ids, r.graph.edges.ids, w.items)
    ensures w.Replace? ==> (r.threw <==> TruthyStr(active) && !HasKey(g.schemas, active.value) && |w.items| > 0)
    ensures r.threw || !TruthyStr(active) ==> r.graph.schemas == g.schemas
    ensures w.Replace? && !r.threw ==>
      r.graph.schemas == UpdateSchemas(g.schemas, active, EdgeSide, w.items, sanitize).value
  {
    match w
    case Reset => Written(g.(edges := g.edges.(items := [])), false)
    case Replace(items) =>
      var edges := ListState(items, CleanIds(g.edges.ids, items));
      match UpdateSchemas(g.schemas, active, EdgeSide, items, sanitize)
      case Failure(_) => Written(g.(edges := edges), true)
      case Success(schemas) => Written(Graph(g.nodes, edges, schemas), false)
  }

  /**
   * After a node write with an active connection whose schema exists, that
   * schema keeps its edge list and every other property, its vertex list
   * keeps the old entries as a prefix and covers exactly the old types plus
   * the new list's types; every other connection's schema is unchanged.
   * An empty id is falsy, so it counts as no active connection.
   */
  lemma NodesWriteSchema(g: Graph, items: seq<Entity>, a: string, sanitize: string -> string)
    requires HasKey(g.schemas, a)
    ensures var r := WriteNodes(g, Replace(items), Some(a), sanitize);
      var prev := Get(g.schemas, a).value;
      var now := Get(r.graph.schemas, a).value;
      && !r.threw
      && (a == "" ==> r.graph.schemas == g.schemas)
      && (a != "" ==> now == prev.(vertices := now.vertices))
      && (a != "" ==> |prev.vertices| <= |now.vertices| && now.vertices[..|prev.vertices|] == prev.vertices)
      && (a != "" ==> TypeSet(now.vertices) == TypeSet(prev.vertices) + ItemTypes(items))
      && (a != "" ==> (DistinctTypes(prev.vertices) ==> DistinctTypes(now.vertices)))
      && (a != "" ==> forall k :: k != a ==> Get(r.graph.schemas, k) == Get(g.schemas, k))
  {
    var prev := Get(g.schemas, a).value;
    InferTypesKeepsExisting(prev.vertices, items, sanitize);
    InferTypesCovers(prev.vertices, items, sanitize);
    if DistinctTypes(prev.vertices) {
      InferTypesDistinct(prev.vertices, items, sanitize);
    }
  }

  /** The same for an edge write: the vertex list and the other properties are kept. */
  lemma EdgesWriteSchema(g: Graph, items: seq<Entity>, a: string, sanitize: string -> string)
    requires HasKey(g.schemas, a)
    ensures var r := WriteEdges(g, Replace(items), Some(a), sanitize);
      var prev := Get(g.schemas, a).value;
      var now := Get(r.graph.schemas, a).value;
      && !r.threw
      && (a == "" ==> r.graph.schemas == g.schemas)
      && (a != "" ==> now == prev.(edges := now.edges))
      && (a != "" ==> |prev.edges| <= |now.edges| && now.edges[..|prev.edges|] == prev.edges)
      && (a != "" ==> TypeSet(now.edges) == TypeSet(prev.edges) + ItemTypes(items))
      && (a != "" ==> (DistinctTypes(prev.edges) ==> DistinctTypes(now.edges)))
      && (a != "" ==> forall k :: k != a ==> Get(r.graph.schemas, k) == Get(g.schemas, k))
  {
    var prev := Get(g.schemas, a).value;
    InferTypesKeepsExisting(prev.edges, items, sanitize);
    InferTypesCovers(prev.edges, items, sanitize);
    if DistinctTypes(prev.edges) {
      InferTypesDistinct(prev.edges, items, sanitize);
    }
  }
}
