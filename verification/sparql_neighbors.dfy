/**
 * The pure part of the SPARQL one-hop neighbour fetch: the response triples
 * are split into node triples (which build draft nodes) and edge triples
 * (incoming and outgoing). The query, the fetch and the edge mappers are
 * outside the model; the mappers are parameters.
 */
module SparqlNeighbors {
  import opened Wrappers
  import opened OrderedMaps
  import opened Seqs
  import opened SparqlTypes

  /** One solution of the one-hop query: `?subject ?p ?value`. */
  datatype Binding = Binding(subject: RawValue, p: RawValue, value: RawValue)

  const RDF_TYPE: string := "http://www.w3.org/1999/02/" + "22-rdf-syntax-ns#type"

  /** A node under construction: its class (the last `rdf:type` seen) and its attributes in order. */
  datatype Draft = Draft(uri: string, classTerm: Option<RawValue>, attributes: seq<(string, string)>)

  /** The connection of an edge triple handed to the incoming or outgoing edge mapper. */
  datatype Connection = Connection(subject: RawValue, pred: RawValue, subjectClass: Option<RawValue>)

  datatype OneHop<E> = OneHop(vertices: seq<Vertex>, bNodesEdges: seq<E>, edges: seq<E>)

  datatype Neighbors<E> = Neighbors(vertices: seq<Vertex>, edges: seq<E>)

  /** A triple describing a neighbour: neither its subject nor its value is the resource. */
  predicate IsNodeTriple(resourceUri: string, b: Binding)
  {
    b.subject.value != resourceUri && b.value.value != resourceUri
  }

  function NodeTriples(resourceUri: string, bs: seq<Binding>): seq<Binding>
  {
    Filter(bs, b => IsNodeTriple(resourceUri, b))
  }

  /** One step of the draft fold: `rdf:type` sets the class, anything else appends an attribute. */
  function DraftStep(nodes: Entries<string, Draft>, b: Binding): (r: Entries<string, Draft>)
    ensures HasKey(r, b.subject.value)
    ensures |r| == |nodes| + (if HasKey(nodes, b.subject.value) then 0 else 1)
  {
    var uri := b.subject.value;
    var d := Get(nodes, uri).GetOr(Draft(uri, None, []));
    PutKeys(nodes, uri, d.(classTerm := Some(b.value)));
    PutKeys(nodes, uri, d.(attributes := d.attributes + [(b.p.value, b.value.value)]));
    if b.p.value == RDF_TYPE then Put(nodes, uri, d.(classTerm := Some(b.value)))
    else Put(nodes, uri, d.(attributes := d.attributes + [(b.p.value, b.value.value)]))
  }

  /** The `reduce` over the node triples into a map of drafts keyed by subject. */
  function Drafts(bs: seq<Binding>): (r: Entries<string, Draft>)
    ensures |r| <= |bs|
    ensures |bs| > 0 ==> HasKey(r, bs[|bs| - 1].subject.value)
    decreases |bs|
  {
    if |bs| == 0 then [] else DraftStep(Drafts(bs[..|bs| - 1]), bs[|bs| - 1])
  }

  /** Reference definition: the value of the last `rdf:type` triple of `u`. */
  function LastClass(bs: seq<Binding>, u: string): Option<RawValue>
    decreases |bs|
  {
    if |bs| == 0 then None
    else
      var b := bs[|bs| - 1];
      if b.subject.value == u && b.p.value == RDF_TYPE then Some(b.value) else LastClass(bs[..|bs| - 1], u)
  }

  /** Reference definition: the non-type triples of `u` as (predicate, value), in order. */
  function AttributesOf(bs: seq<Binding>, u: string): seq<(string, string)>
    decreases |bs|
  {
    if |bs| == 0 then []
    else
      var b := bs[|bs| - 1];
      AttributesOf(bs[..|bs| - 1], u) +
        (if b.subject.value == u && b.p.value != RDF_TYPE then [(b.p.value, b.value.value)] else [])
  }

  predicate Mentions(bs: seq<Binding>, u: string)
  {
    exists i :: 0 <= i < |bs| && bs[i].subject.value == u
  }

  /**
   * The fold builds exactly one draft per subject, and that draft holds the
   * subject's last class and all of its attributes in triple order.
   */
  lemma {:induction false} DraftsCharacterised(bs: seq<Binding>, u: string)
    ensures Get(Drafts(bs), u) ==
      if Mentions(bs, u) then Some(Draft(u, LastClass(bs, u), AttributesOf(bs, u))) else None
    decreases |bs|
  {
    if |bs| > 0 {
      var init := bs[..|bs| - 1];
      var b := bs[|bs| - 1];
      DraftsCharacterised(init, u);
      DraftStepGet(Drafts(init), b, u);
      MentionsSnoc(init, b, u);
      ReferenceSnoc(init, b, u);
      assert init + [b] == bs;
      assert Drafts(bs) == DraftStep(Drafts(init), b);
      if !Mentions(init, u) {
        NotMentioned(init, u);
      }
      if b.subject.value != u {
        assert Get(Drafts(bs), u) == Get(Drafts(init), u);
        assert Mentions(bs, u) == Mentions(init, u);
        assert LastClass(bs, u) == LastClass(init, u);
        assert AttributesOf(bs, u) == AttributesOf(init, u);
      } else if Mentions(init, u) {
        assert Get(Drafts(init), u) == Some(Draft(u, LastClass(init, u), AttributesOf(init, u)));
        assert Mentions(bs, u);
        if b.p.value == RDF_TYPE {
          assert LastClass(bs, u) == Some(b.value);
          assert AttributesOf(bs, u) == AttributesOf(init, u);
        } else {
          assert LastClass(bs, u) == LastClass(init, u);
          assert AttributesOf(bs, u) == AttributesOf(init, u) + [(b.p.value, b.value.value)];
        }
      } else {
        assert Get(Drafts(init), u) == None;
      }
    }
  }

  /** One fold step touches only the draft of the triple's subject. */
  lemma DraftStepGet(nodes: Entries<string, Draft>, b: Binding, u: string)
    ensures b.subject.value != u ==> Get(DraftStep(nodes, b), u) == Get(nodes, u)
    ensures b.subject.value == u && b.p.value == RDF_TYPE ==>
      Get(DraftStep(nodes, b), u) == Some(Get(nodes, u).GetOr(Draft(u, None, [])).(classTerm := Some(b.value)))
    ensures b.subject.value == u && b.p.value != RDF_TYPE ==>
      var d := Get(nodes, u).GetOr(Draft(u, None, []));
      Get(DraftStep(nodes, b), u) == Some(d.(attributes := d.attributes + [(b.p.value, b.value.value)]))
  {
    var d := Get(nodes, b.subject.value).GetOr(Draft(b.subject.value, None, []));
    PutGet(nodes, b.subject.value, d.(classTerm := Some(b.value)), u);
    PutGet(nodes, b.subject.value, d.(attributes := d.attributes + [(b.p.value, b.value.value)]), u);
  }

  lemma ReferenceSnoc(init: seq<Binding>, b: Binding, u: string)
    ensures LastClass(init + [b], u) ==
      if b.subject.value == u && b.p.value == RDF_TYPE then Some(b.value) else LastClass(init, u)
    ensures AttributesOf(init + [b], u) == AttributesOf(init, u) +
      (if b.subject.value == u && b.p.value != RDF_TYPE then [(b.p.value, b.value.value)] else [])
  {
    assert (init + [b])[..|init|] == init;
  }

  /** A subject without triples has no class and no attributes. */
  lemma {:induction false} NotMentioned(bs: seq<Binding>, u: string)
    requires !Mentions(bs, u)
    ensures LastClass(bs, u) == None && AttributesOf(bs, u) == []
    decreases |bs|
  {
    if |bs| > 0 {
      var init := bs[..|bs| - 1];
      MentionsSnoc(init, bs[|bs| - 1], u);
      assert init + [bs[|bs| - 1]] == bs;
      NotMentioned(init, u);
    }
  }

  lemma MentionsSnoc(init: seq<Binding>, b: Binding, u: string)
    ensures Mentions(init + [b], u) <==> Mentions(init, u) || b.subject.value == u
  {
    if Mentions(init, u) {
      var i :| 0 <= i < |init| && init[i].subject.value == u;
      assert (init + [b])[i] == init[i];
    }
    if b.subject.value == u {
      assert (init + [b])[|init|] == b;
    }
  }

  lemma DraftsKeysDistinct(bs: seq<Binding>)
    ensures DistinctKeys(Drafts(bs))
    decreases |bs|
  {
    if |bs| > 0 {
      var nodes := Drafts(bs[..|bs| - 1]);
      var b := bs[|bs| - 1];
      DraftsKeysDistinct(bs[..|bs| - 1]);
      var d := Get(nodes, b.subject.value).GetOr(Draft(b.subject.value, None, []));
      PutDistinct(nodes, b.subject.value, d.(classTerm := Some(b.value)));
      PutDistinct(nodes, b.subject.value, d.(attributes := d.attributes + [(b.p.value, b.value.value)]));
    }
  }

  /**
   * A draft becomes a raw node only when it has a class; its attributes are
   * written into a record one after another, so the last value of a
   * repeated predicate wins. The node is never blank.
   */
  function RawNode(d: Draft): (r: Option<RawResult>)
    ensures r.Some? <==> d.classTerm.Some?
    ensures r.Some? ==> r.value.uri == d.uri && r.value.className == d.classTerm.value.value && !r.value.isBlank
  {
    if d.classTerm.None? then None
    else Some(RawResult(d.uri, d.classTerm.value.value, FromEntries(d.attributes), false))
  }

  /** The drafts that have a class, as vertices, in draft order. */
  function VerticesOf(drafts: Entries<string, Draft>): (r: seq<Vertex>)
    ensures |r| <= |drafts|
    ensures forall i :: 0 <= i < |r| ==> !r[i].isBlank && r[i].idType == "string"
  {
    if |drafts| == 0 then []
    else
      var d := drafts[0].1;
      (if d.classTerm.Some? then [MapRawResultToVertex(RawNode(d).value, None)] else []) + VerticesOf(drafts[1..])
  }

  /** A vertex for `u` is produced exactly when a draft for `u` has a class, and it is that draft's node. */
  lemma {:induction false} VerticesOfDrafts(drafts: Entries<string, Draft>, u: string)
    requires forall i :: 0 <= i < |drafts| ==> drafts[i].1.uri == drafts[i].0
    requires DistinctKeys(drafts)
    ensures (exists i :: 0 <= i < |VerticesOf(drafts)| && VerticesOf(drafts)[i].id == u) <==>
      Get(drafts, u).Some? && Get(drafts, u).value.classTerm.Some?
    ensures forall i :: 0 <= i < |VerticesOf(drafts)| && VerticesOf(drafts)[i].id == u ==>
      RawOf(VerticesOf(drafts)[i]) == RawNode(Get(drafts, u).value).value
  {
    if |drafts| > 0 {
      var rest := drafts[1..];
      VerticesOfDrafts(rest, u);
      var d := drafts[0].1;
      var vs := VerticesOf(drafts);
      var head := if d.classTerm.Some? then [MapRawResultToVertex(RawNode(d).value, None)] else [];
      assert vs == head + VerticesOf(rest);
      forall i | 0 <= i < |VerticesOf(rest)|
        ensures vs[|head| + i] == VerticesOf(rest)[i]
      {
      }
      if drafts[0].0 == u {
        assert !HasKey(rest, u);
        assert Get(drafts, u) == Some(d);
        if d.classTerm.Some? {
          RawResultRoundTrip(RawNode(d).value, None);
          assert vs[0].id == u;
          assert exists i :: 0 <= i < |VerticesOf(drafts)| && VerticesOf(drafts)[i].id == u;
        }
      }
    }
  }

  /** The edge mapper's input for an incoming triple `?subject ?p <resource>`. */
  function IncomingOf(nodes: Entries<string, Draft>, b: Binding): Connection
  {
    Connection(b.subject, b.p, if Get(nodes, b.subject.value).Some? then Get(nodes, b.subject.value).value.classTerm else None)
  }

  /** The edge mapper's input for an outgoing triple `<resource> ?p ?value`. */
  function OutgoingOf(nodes: Entries<string, Draft>, b: Binding): Connection
  {
    Connection(b.value, b.p, if Get(nodes, b.value.value).Some? then Get(nodes, b.value.value).value.classTerm else None)
  }

  function MapIncoming<E>(nodes: Entries<string, Draft>, bs: seq<Binding>, edge: Connection -> E): (r: seq<E>)
    ensures |r| == |bs|
    ensures forall i :: 0 <= i < |bs| ==> r[i] == edge(IncomingOf(nodes, bs[i]))
  {
    if |bs| == 0 then [] else [edge(IncomingOf(nodes, bs[0]))] + MapIncoming(nodes, bs[1..], edge)
  }

  function MapOutgoing<E>(nodes: Entries<string, Draft>, bs: seq<Binding>, edge: Connection -> E): (r: seq<E>)
    ensures |r| == |bs|
    ensures forall i :: 0 <= i < |bs| ==> r[i] == edge(OutgoingOf(nodes, bs[i]))
  {
    if |bs| == 0 then [] else [edge(OutgoingOf(nodes, bs[0]))] + MapOutgoing(nodes, bs[1..], edge)
  }

  predicate ValueIs(resourceUri: string, b: Binding)
  {
    b.value.value == resourceUri
  }

  predicate SubjectIs(resourceUri: string, b: Binding)
  {
    b.subject.value == resourceUri
  }

  /** The triples `?subject ?p <resource>`, in response order. */
  function IncomingTriples(resourceUri: string, bs: seq<Binding>): (r: seq<Binding>)
    ensures forall b :: b in r <==> b in bs && ValueIs(resourceUri, b)
  {
    Filter(bs, b => ValueIs(resourceUri, b))
  }

  /** The triples `<resource> ?p ?value`, in response order. */
  function OutgoingTriples(resourceUri: string, bs: seq<Binding>): (r: seq<Binding>)
    ensures forall b :: b in r <==> b in bs && SubjectIs(resourceUri, b)
  {
    Filter(bs, b => SubjectIs(resourceUri, b))
  }

  /**
   * `fetchOneHopNeighbors` after the fetch. `incoming` and `outgoing` stand
   * for `mapIncomingToEdge` / `mapOutgoingToEdge` applied to the resource.
   */
  function FetchOneHop<E>(resourceUri: string, bs: seq<Binding>,
                          incoming: Connection -> E, outgoing: Connection -> E): (r: OneHop<E>)
    ensures r.bNodesEdges == []
    ensures forall i :: 0 <= i < |r.vertices| ==> !r.vertices[i].isBlank && r.vertices[i].id != resourceUri
  {
    var nodes := Drafts(NodeTriples(resourceUri, bs));
    VerticesNotResource(resourceUri, bs);
    OneHop(
      VerticesOf(nodes),
      [],
      MapIncoming(nodes, IncomingTriples(resourceUri, bs), incoming) +
      MapOutgoing(nodes, OutgoingTriples(resourceUri, bs), outgoing))
  }

  /** `fetchNeighbors`: the one-hop vertices, and its edges followed by its blank-node edges. */
  function FetchNeighbors<E>(resourceUri: string, bs: seq<Binding>,
                             incoming: Connection -> E, outgoing: Connection -> E): (r: Neighbors<E>)
    ensures r.edges == FetchOneHop(resourceUri, bs, incoming, outgoing).edges
    ensures r.vertices == FetchOneHop(resourceUri, bs, incoming, outgoing).vertices
  {
    var one := FetchOneHop(resourceUri, bs, incoming, outgoing);
    Neighbors(one.vertices, one.edges + one.bNodesEdges)
  }

  /** No draft, and so no vertex, is keyed by the resource itself. */
  lemma VerticesNotResource(resourceUri: string, bs: seq<Binding>)
    ensures forall i :: 0 <= i < |VerticesOf(Drafts(NodeTriples(resourceUri, bs)))| ==>
      VerticesOf(Drafts(NodeTriples(resourceUri, bs)))[i].id != resourceUri
  {
    var nt := NodeTriples(resourceUri, bs);
    DraftsCharacterised(nt, resourceUri);
    DraftsShape(nt);
    DraftsKeysDistinct(nt);
    VerticesOfDrafts(Drafts(nt), resourceUri);
    assert !Mentions(nt, resourceUri);
  }

  /** One step of the reduce keeps every draft stored under its own uri. */
  lemma DraftStepShape(nodes: Entries<string, Draft>, b: Binding)
    requires DistinctKeys(nodes)
    requires forall i :: 0 <= i < |nodes| ==> nodes[i].1.uri == nodes[i].0
    ensures forall i :: 0 <= i < |DraftStep(nodes, b)| ==> DraftStep(nodes, b)[i].1.uri == DraftStep(nodes, b)[i].0
  {
    var p := (k: string, d: Draft) => d.uri == k;
    assert AllEntries(nodes, p);
    var d := Get(nodes, b.subject.value).GetOr(Draft(b.subject.value, None, []));
    if HasKey(nodes, b.subject.value) {
      var j :| 0 <= j < |nodes| && Keys(nodes)[j] == b.subject.value;
      GetAt(nodes, j);
    }
    assert d.uri == b.subject.value;
    if b.p.value == RDF_TYPE {
      PutAll(nodes, b.subject.value, d.(classTerm := Some(b.value)), p);
    } else {
      PutAll(nodes, b.subject.value, d.(attributes := d.attributes + [(b.p.value, b.value.value)]), p);
    }
    assert AllEntries(DraftStep(nodes, b), p);
  }

  /** Every draft is stored under its own uri. */
  lemma {:induction false} DraftsShape(bs: seq<Binding>)
    ensures forall i :: 0 <= i < |Drafts(bs)| ==> Drafts(bs)[i].1.uri == Drafts(bs)[i].0
    decreases |bs|
  {
    if |bs| > 0 {
      DraftsShape(bs[..|bs| - 1]);
      DraftsKeysDistinct(bs[..|bs| - 1]);
      DraftStepShape(Drafts(bs[..|bs| - 1]), bs[|bs| - 1]);
    }
  }

  /**
   * The one-hop vertices are exactly the neighbours that have a class among
   * the node triples; each carries its last class and its attributes written
   * in triple order, so the last value of a repeated predicate wins.
   */
  lemma OneHopVertices<E>(resourceUri: string, bs: seq<Binding>,
                          incoming: Connection -> E, outgoing: Connection -> E, u: string)
    ensures var vs := FetchOneHop(resourceUri, bs, incoming, outgoing).vertices;
      var nt := NodeTriples(resourceUri, bs);
      (exists i :: 0 <= i < |vs| && vs[i].id == u) <==> LastClass(nt, u).Some?
    ensures var vs := FetchOneHop(resourceUri, bs, incoming, outgoing).vertices;
      var nt := NodeTriples(resourceUri, bs);
      forall i :: 0 <= i < |vs| && vs[i].id == u ==>
        vs[i].vtype == LastClass(nt, u).value.value && vs[i].attributes == FromEntries(AttributesOf(nt, u))
  {
    var nt := NodeTriples(resourceUri, bs);
    DraftsCharacterised(nt, u);
    DraftsShape(nt);
    DraftsKeysDistinct(nt);
    VerticesOfDrafts(Drafts(nt), u);
    assert FetchOneHop(resourceUri, bs, incoming, outgoing).vertices == VerticesOf(Drafts(nt));
    if !Mentions(nt, u) {
      NotMentioned(nt, u);
    }
  }

  /** A triple that touches the resource never changes the neighbour vertices. */
  lemma ResourceTriplesIgnored<E>(resourceUri: string, bs: seq<Binding>, b: Binding,
                                  incoming: Connection -> E, outgoing: Connection -> E)
    requires b.subject.value == resourceUri || b.value.value == resourceUri
    ensures FetchOneHop(resourceUri, bs + [b], incoming, outgoing).vertices ==
      FetchOneHop(resourceUri, bs, incoming, outgoing).vertices
  {
    FilterConcat(bs, [b], b => IsNodeTriple(resourceUri, b));
    assert NodeTriples(resourceUri, bs + [b]) == NodeTriples(resourceUri, bs);
  }

  /** The class handed to an edge mapper is the neighbour's last class among the node triples. */
  lemma EdgeClasses(resourceUri: string, bs: seq<Binding>, b: Binding)
    ensures var nt := NodeTriples(resourceUri, bs);
      IncomingOf(Drafts(nt), b).subjectClass == LastClass(nt, b.subject.value) &&
      OutgoingOf(Drafts(nt), b).subjectClass == LastClass(nt, b.value.value)
  {
    var nt := NodeTriples(resourceUri, bs);
    DraftsCharacterised(nt, b.subject.value);
    DraftsCharacterised(nt, b.value.value);
    if !Mentions(nt, b.subject.value) {
      NotMentioned(nt, b.subject.value);
    }
    if !Mentions(nt, b.value.value) {
      NotMentioned(nt, b.value.value);
    }
  }

  /**
   * The edges are the incoming ones, one per triple whose value is the
   * resource (in response order), followed by the outgoing ones, one per
   * triple whose subject is the resource; the neighbour result appends no
   * blank-node edges.
   */
  lemma OneHopEdges<E>(resourceUri: string, bs: seq<Binding>, incoming: Connection -> E, outgoing: Connection -> E)
    ensures var r := FetchOneHop(resourceUri, bs, incoming, outgoing);
      var fin := IncomingTriples(resourceUri, bs);
      var fout := OutgoingTriples(resourceUri, bs);
      var nodes := Drafts(NodeTriples(resourceUri, bs));
      |r.edges| == |fin| + |fout| &&
      (forall i :: 0 <= i < |fin| ==> r.edges[i] == incoming(IncomingOf(nodes, fin[i]))) &&
      (forall i :: 0 <= i < |fout| ==> r.edges[|fin| + i] == outgoing(OutgoingOf(nodes, fout[i])))
    ensures FetchNeighbors(resourceUri, bs, incoming, outgoing).edges == FetchOneHop(resourceUri, bs, incoming, outgoing).edges
  {
    var nodes := Drafts(NodeTriples(resourceUri, bs));
    var fin := IncomingTriples(resourceUri, bs);
    var fout := OutgoingTriples(resourceUri, bs);
    var ein := MapIncoming(nodes, fin, incoming);
    var eout := MapOutgoing(nodes, fout, outgoing);
    assert FetchOneHop(resourceUri, bs, incoming, outgoing).edges == ein + eout;
    forall i | 0 <= i < |fout|
      ensures (ein + eout)[|fin| + i] == eout[i]
    {
    }
  }
}
