/**
 * Blank-node neighbours over SPARQL: the lookup query that re-finds a blank
 * node from its class and attributes, and the grouping of the response
 * into one vertex per subject. The fetches are outside the model: the
 * response and the predicate edges are parameters.
 */
module SparqlBlankNodes {
  import opened Wrappers
  import opened OrderedMaps
  import opened Seqs
  import opened Strs
  import opened Groups
  import opened SparqlTypes

  /** One solution of the blank-node one-hop query. */
  datatype BlankBinding = BlankBinding(bNode: RawValue, subject: RawValue, pred: RawValue, value: RawValue,
                                       subjectClass: RawValue)

  /** A blank node to expand: its vertex and the stored sub-query that found it. */
  datatype BlankNodeItem = BlankNodeItem(vertex: Vertex, subQueryTemplate: string)

  datatype BlankNeighbors<E> = BlankNeighbors(totalCount: int, counts: Entries<string, int>,
                                              vertices: seq<Vertex>, edges: seq<E>)

  function SubjectKey(b: BlankBinding): string
  {
    b.subject.value
  }

  /** The (predicate, value) pairs of a group, in order. */
  function Pairs(bs: seq<BlankBinding>): (r: seq<(string, string)>)
    ensures |r| == |bs|
    ensures forall i :: 0 <= i < |bs| ==> r[i] == (bs[i].pred.value, bs[i].value.value)
  {
    if |bs| == 0 then [] else [(bs[0].pred.value, bs[0].value.value)] + Pairs(bs[1..])
  }

  /**
   * The raw result of one subject: class and blank flag from the group's
   * first binding (blank iff its subject term has type `bnode`), attributes
   * written one after another so the last value of a predicate wins.
   */
  function GroupResult(uri: string, group: seq<BlankBinding>): (r: RawResult)
    requires |group| > 0
    ensures r.uri == uri && r.className == group[0].subjectClass.value
    ensures r.isBlank <==> group[0].subject.kind == "bnode"
  {
    RawResult(uri, group[0].subjectClass.value, FromEntries(Pairs(group)), group[0].subject.kind == "bnode")
  }

  predicate NonEmptyGroups<K, T>(groups: Entries<K, seq<T>>)
  {
    forall i :: 0 <= i < |groups| ==> |groups[i].1| > 0
  }

  function VerticesOfGroups(groups: Entries<string, seq<BlankBinding>>): (r: seq<Vertex>)
    requires NonEmptyGroups(groups)
    ensures |r| == |groups|
    ensures forall i :: 0 <= i < |groups| ==> RawOf(r[i]) == GroupResult(groups[i].0, groups[i].1)
  {
    if |groups| == 0 then []
    else
      RawResultRoundTrip(GroupResult(groups[0].0, groups[0].1), None);
      [MapRawResultToVertex(GroupResult(groups[0].0, groups[0].1), None)] + VerticesOfGroups(groups[1..])
  }

  lemma {:induction false} GroupByNonEmpty<T, K>(xs: seq<T>, key: T -> K)
    ensures NonEmptyGroups(GroupBy(xs, key))
    decreases |xs|
  {
    if |xs| > 0 {
      var m := GroupBy(xs[..|xs| - 1], key);
      var x := xs[|xs| - 1];
      GroupByNonEmpty(xs[..|xs| - 1], key);
      var p := (k: K, g: seq<T>) => |g| > 0;
      assert AllEntries(m, p);
      PutAll(m, key(x), Get(m, key(x)).GetOr([]) + [x], p);
    }
  }

  /** `mapOneHop`: one vertex per subject group, in order of first appearance. */
  function MapOneHop(bs: seq<BlankBinding>): (r: seq<Vertex>)
    ensures |r| <= |bs|
  {
    GroupByNonEmpty(bs, SubjectKey);
    GroupBySize(bs, SubjectKey);
    GroupsAtMostSize(GroupBy(bs, SubjectKey));
    VerticesOfGroups(GroupBy(bs, SubjectKey))
  }

  lemma {:induction false} GroupsAtMostSize<K, T>(groups: Entries<K, seq<T>>)
    requires NonEmptyGroups(groups)
    ensures |groups| <= TotalSize(groups)
  {
    if |groups| > 0 {
      GroupsAtMostSize(groups[1..]);
    }
  }

  /** The vertex ids are the group keys, in order. */
  lemma MapOneHopKeys(bs: seq<BlankBinding>)
    ensures var vs := MapOneHop(bs); var groups := GroupBy(bs, SubjectKey);
      |vs| == |groups| && forall i :: 0 <= i < |vs| ==> vs[i].id == groups[i].0
  {
    GroupByNonEmpty(bs, SubjectKey);
    var groups := GroupBy(bs, SubjectKey);
    var vs := MapOneHop(bs);
    forall i | 0 <= i < |vs|
      ensures vs[i].id == groups[i].0
    {
      assert RawOf(vs[i]) == GroupResult(groups[i].0, groups[i].1);
    }
  }

  /**
   * `mapOneHop` yields exactly one vertex per distinct subject: its ids are
   * pairwise distinct and are exactly the subjects of the bindings.
   */
  lemma MapOneHopIds(bs: seq<BlankBinding>, u: string)
    ensures var vs := MapOneHop(bs);
      forall i, j :: 0 <= i < j < |vs| ==> vs[i].id != vs[j].id
    ensures var vs := MapOneHop(bs);
      (exists i :: 0 <= i < |vs| && vs[i].id == u) <==> (exists j :: 0 <= j < |bs| && bs[j].subject.value == u)
  {
    var groups := GroupBy(bs, SubjectKey);
    var vs := MapOneHop(bs);
    MapOneHopKeys(bs);
    GroupByDistinct(bs, SubjectKey);
    MapOneHopSubjects(bs, u, groups, vs);
  }

  lemma MapOneHopSubjects(bs: seq<BlankBinding>, u: string, groups: Entries<string, seq<BlankBinding>>, vs: seq<Vertex>)
    requires groups == GroupBy(bs, SubjectKey)
    requires |vs| == |groups| && forall i :: 0 <= i < |vs| ==> vs[i].id == groups[i].0
    ensures (exists i :: 0 <= i < |vs| && vs[i].id == u) <==> (exists j :: 0 <= j < |bs| && bs[j].subject.value == u)
  {
    GroupByGet(bs, SubjectKey, u);
    WithKeyEmpty(bs, SubjectKey, u);
    var ks := Keys(groups);
    assert forall i :: 0 <= i < |vs| ==> ks[i] == vs[i].id;
    assert HasKey(groups, u) <==> (exists i :: 0 <= i < |ks| && ks[i] == u);
  }

  /** A key has no elements exactly when no element carries it. */
  lemma {:induction false} WithKeyEmpty<T, K>(xs: seq<T>, key: T -> K, k: K)
    ensures |WithKey(xs, key, k)| == 0 <==> forall j :: 0 <= j < |xs| ==> key(xs[j]) != k
    decreases |xs|
  {
    if |xs| > 0 {
      WithKeyEmpty(xs[..|xs| - 1], key, k);
    }
  }

  /** The first element of a key's group is the first element carrying that key. */
  lemma {:induction false} WithKeyFirst<T, K>(xs: seq<T>, key: T -> K, k: K) returns (j: nat)
    requires |WithKey(xs, key, k)| > 0
    ensures j < |xs| && key(xs[j]) == k && WithKey(xs, key, k)[0] == xs[j]
    ensures forall l :: 0 <= l < j ==> key(xs[l]) != k
    decreases |xs|
  {
    var init := xs[..|xs| - 1];
    if |WithKey(init, key, k)| > 0 {
      j := WithKeyFirst(init, key, k);
    } else {
      WithKeyEmpty(init, key, k);
      j := |xs| - 1;
    }
  }

  /**
   * The vertex of subject `u` takes its class and blank flag from the first
   * binding of `u`, and its attributes from all of `u`'s bindings written in
   * order, so the last value of a repeated predicate wins.
   */
  lemma MapOneHopVertex(bs: seq<BlankBinding>, i: nat)
    requires i < |MapOneHop(bs)|
    ensures var v := MapOneHop(bs)[i];
      exists j: nat :: FirstBindingOf(bs, j, v.id)
        && v.vtype == bs[j].subjectClass.value && (v.isBlank <==> bs[j].subject.kind == "bnode")
    ensures var v := MapOneHop(bs)[i];
      v.attributes == FromEntries(Pairs(WithKey(bs, SubjectKey, v.id)))
  {
    var j := MapOneHopFirst(bs, i);
  }

  /** Binding `j` is the first binding whose subject is `u`. */
  predicate FirstBindingOf(bs: seq<BlankBinding>, j: nat, u: string)
  {
    j < |bs| && bs[j].subject.value == u && forall l :: 0 <= l < j ==> bs[l].subject.value != u
  }

  /** The first binding of the subject of vertex `i`, from which that vertex is built. */
  lemma MapOneHopFirst(bs: seq<BlankBinding>, i: nat) returns (j: nat)
    requires i < |MapOneHop(bs)|
    ensures var v := MapOneHop(bs)[i];
      FirstBindingOf(bs, j, v.id)
      && v.vtype == bs[j].subjectClass.value && (v.isBlank <==> bs[j].subject.kind == "bnode")
    ensures var v := MapOneHop(bs)[i];
      v.attributes == FromEntries(Pairs(WithKey(bs, SubjectKey, v.id)))
  {
    var groups := GroupBy(bs, SubjectKey);
    GroupByNonEmpty(bs, SubjectKey);
    GroupByDistinct(bs, SubjectKey);
    var u := groups[i].0;
    GetAt(groups, i);
    GroupByGet(bs, SubjectKey, u);
    assert groups[i].1 == WithKey(bs, SubjectKey, u);
    j := WithKeyFirst(bs, SubjectKey, u);
  }

  /** `?attributeValue<n>`. */
  function AttributeVar(n: nat): string
  {
    "?attributeValue" + NatToString(n)
  }

  /** Different attribute positions use different variables. */
  lemma AttributeVarsDistinct(m: nat, n: nat)
    requires m != n
    ensures AttributeVar(m) != AttributeVar(n)
  {
    if AttributeVar(m) == AttributeVar(n) {
      var p := "?attributeValue";
      assert NatToString(m) == AttributeVar(m)[|p|..];
      assert NatToString(n) == AttributeVar(n)[|p|..];
      NatToStringInjective(m, n);
    }
  }

  function MatchLine(key: string, n: nat): string
  {
    "<" + key + "> " + AttributeVar(n) + " ;"
  }

  function FilterLine(value: string, n: nat): string
  {
    "FILTER (regex(str(" + AttributeVar(n) + "), \"" + value + "\", \"i\"))"
  }

  function MatchLines(attrs: Entries<string, string>, first: nat): (r: seq<string>)
    ensures |r| == |attrs|
    ensures forall i :: 0 <= i < |attrs| ==> r[i] == MatchLine(attrs[i].0, first + i)
  {
    if |attrs| == 0 then [] else [MatchLine(attrs[0].0, first)] + MatchLines(attrs[1..], first + 1)
  }

  function FilterLines(attrs: Entries<string, string>, first: nat): (r: seq<string>)
    ensures |r| == |attrs|
    ensures forall i :: 0 <= i < |attrs| ==> r[i] == FilterLine(attrs[i].1, first + i)
  {
    if |attrs| == 0 then [] else [FilterLine(attrs[0].1, first)] + FilterLines(attrs[1..], first + 1)
  }

  /**
   * `findBlankNodeTemplate`: no query for a node without attributes;
   * otherwise a query matching the class and, for the i-th attribute
   * (counting from 1), one triple pattern binding `?attributeValue<i>` and
   * one case-insensitive regex filter on that same variable.
   */
  function FindBlankNodeTemplate(vtype: string, attrs: Entries<string, string>): (r: Option<seq<string>>)
    ensures r.None? <==> |attrs| == 0
    ensures r.Some? ==> var n := |attrs|;
      |r.value| == 4 + 2 * n && r.value[0] == "SELECT DISTINCT ?bNode" &&
      r.value[2] == "?bNode a <" + vtype + "> ;" && r.value[3 + 2 * n] == "}" &&
      (forall i :: 0 <= i < n ==> r.value[3 + i] == MatchLine(attrs[i].0, i + 1)) &&
      (forall i :: 0 <= i < n ==> r.value[3 + n + i] == FilterLine(attrs[i].1, i + 1))
  {
    if |attrs| == 0 then None
    else
      var head := ["SELECT DISTINCT ?bNode", "WHERE {", "?bNode a <" + vtype + "> ;"];
      var lines := head + MatchLines(attrs, 1) + FilterLines(attrs, 1) + ["}"];
      assert forall i :: 0 <= i < |attrs| ==> lines[3 + i] == MatchLines(attrs, 1)[i];
      assert forall i :: 0 <= i < |attrs| ==> lines[3 + |attrs| + i] == FilterLines(attrs, 1)[i];
      Some(lines)
  }

  /** The sub-query sent: the lookup query when there is one, else the stored sub-query. */
  function SubQueryFor(item: BlankNodeItem): (r: string)
    ensures |item.vertex.attributes| == 0 ==> r == item.subQueryTemplate
    ensures |item.vertex.attributes| > 0 ==> StartsWith(r, "SELECT DISTINCT ?bNode\n")
  {
    match FindBlankNodeTemplate(item.vertex.vtype, item.vertex.attributes)
    case None => item.subQueryTemplate
    case Some(lines) =>
      JoinStartsWith(lines);
      Join("\n", lines)
  }

  lemma JoinStartsWith(lines: seq<string>)
    requires |lines| > 1 && lines[0] == "SELECT DISTINCT ?bNode"
    ensures StartsWith(Join("\n", lines), "SELECT DISTINCT ?bNode\n")
  {
    var j := Join("\n", lines);
    assert j == lines[0] + "\n" + Join("\n", lines[1..]);
    assert j[..|lines[0]| + 1] == lines[0] + "\n";
  }

  /** Per-type counts: each group's size under its type. */
  function CountsOf(groups: Entries<string, seq<Vertex>>): (r: Entries<string, int>)
    ensures Keys(r) == Keys(groups)
    ensures forall i :: 0 <= i < |groups| ==> r[i].1 == |groups[i].1|
  {
    if |groups| == 0 then [] else [(groups[0].0, |groups[0].1|)] + CountsOf(groups[1..])
  }

  function SumCounts(counts: Entries<string, int>): int
  {
    if |counts| == 0 then 0 else counts[0].1 + SumCounts(counts[1..])
  }

  lemma {:induction false} SumCountsOf(groups: Entries<string, seq<Vertex>>)
    ensures SumCounts(CountsOf(groups)) == TotalSize(groups)
  {
    if |groups| > 0 {
      SumCountsOf(groups[1..]);
    }
  }

  function VertexType(v: Vertex): string
  {
    v.vtype
  }

  predicate FromResource(id: string, b: BlankBinding)
  {
    b.bNode.value == id
  }

  /**
   * `fetchBlankNodeNeighbors` after its two fetches. An error response
   * becomes a failure carrying its message; otherwise only the bindings of
   * this blank node are kept and grouped into vertices.
   */
  function FetchBlankNodeNeighbors<E>(item: BlankNodeItem, response: Result<seq<BlankBinding>, string>,
                                      edges: seq<E>): (r: Result<BlankNeighbors<E>, string>)
    ensures r.Failure? <==> response.Failure?
    ensures response.Failure? ==> r.error == response.error
    ensures r.Success? ==> r.value.totalCount == |r.value.vertices| && r.value.edges == edges
  {
    match response
    case Failure(message) => Failure(message)
    case Success(bs) =>
      var kept := Filter(bs, b => FromResource(item.vertex.id, b));
      var vs := MapOneHop(kept);
      Success(BlankNeighbors(|vs|, CountsOf(GroupBy(vs, VertexType)), vs, edges))
  }

  /**
   * The per-type counts have one entry per type, add up to the total, and
   * every vertex is the subject of a binding of this blank node.
   */
  lemma BlankNeighborsCounts<E>(item: BlankNodeItem, bs: seq<BlankBinding>, edges: seq<E>)
    ensures var r := FetchBlankNodeNeighbors(item, Success(bs), edges).value;
      DistinctKeys(r.counts) && SumCounts(r.counts) == r.totalCount
    ensures var r := FetchBlankNodeNeighbors(item, Success(bs), edges).value;
      forall i :: 0 <= i < |r.vertices| ==>
        exists b :: b in bs && b.bNode.value == item.vertex.id && b.subject.value == r.vertices[i].id
  {
    var kept := Filter(bs, b => FromResource(item.vertex.id, b));
    var vs := MapOneHop(kept);
    var groups := GroupBy(vs, VertexType);
    GroupByDistinct(vs, VertexType);
    assert Keys(CountsOf(groups)) == Keys(groups);
    SumCountsOf(groups);
    GroupBySize(vs, VertexType);
    forall i | 0 <= i < |vs|
      ensures exists b :: b in bs && b.bNode.value == item.vertex.id && b.subject.value == vs[i].id
    {
      var j := MapOneHopFirst(kept, i);
      assert kept[j] in bs;
    }
  }
}
