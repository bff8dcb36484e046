/**
 * The SPARQL 1.1 query texts sent for neighbor counts and one-hop neighbors.
 * A query is modelled as its sequence of lines; indentation, blank lines and
 * `#` comment lines (which SPARQL ignores) are left out, and a `${...}` slot
 * is one line, empty when the slot renders the empty string. Long literal
 * lines are written as two concatenated pieces so that the verifier can read
 * their first characters.
 */
module SparqlTemplates {
  import opened Wrappers
  import opened Strs
  import opened Seqs

  /** An IRI reference `<iri>`. */
  function Iri(iri: string): string
  {
    "<" + iri + ">"
  }

  function LimitLine(limit: int): string
  {
    if limit > 0 then "LIMIT " + IntToString(limit) else ""
  }

  /**
   * `neighborsCountTemplate`: counts the neighbors of `resourceURI` by class,
   * over subjects linked to it in either direction. An omitted limit is 0.
   */
  function NeighborsCountTemplate(resourceUri: string, limit: Option<int>): (r: seq<string>)
    ensures |r| == 17
    ensures r[14] == LimitLine(limit.GetOr(0)) && r[16] == "GROUP BY ?class"
  {
    CountHead() + CountIncoming(resourceUri) + CountOutgoing(resourceUri)
    + [LimitLine(limit.GetOr(0)), "}", "GROUP BY ?class"]
  }

  function CountHead(): seq<string>
  {
    [ "SELECT ?class " + "(COUNT(DISTINCT ?subject) as ?count)",
      "WHERE {",
      "SELECT ?subject " + "(MIN(?class) as ?class) WHERE {",
      "{" ]
  }

  function CountIncoming(resourceUri: string): seq<string>
  {
    [ "?subject ?p " + Iri(resourceUri) + " .",
      "?subject a ?class .",
      "}",
      "UNION",
      "{" ]
  }

  function CountOutgoing(resourceUri: string): seq<string>
  {
    [ Iri(resourceUri) + " ?p ?subject .",
      "?subject a ?class .",
      "}",
      "}",
      "GROUP BY ?subject" ]
  }

  /** The line that starts a LIMIT clause. */
  predicate IsLimitLine(line: string)
  {
    StartsWith(line, "LIMIT ")
  }

  predicate NoLimitLines(lines: seq<string>)
  {
    forall i :: 0 <= i < |lines| ==> !IsLimitLine(lines[i])
  }

  /** A line that is empty or does not start with `L` is no LIMIT line. */
  lemma NotLimitLine(line: string)
    requires |line| == 0 || line[0] != 'L'
    ensures !IsLimitLine(line)
  {
    if |line| >= 6 {
      assert line[..6][0] == line[0];
    }
  }

  /** Only the limit slot of the count query can hold a LIMIT line. */
  lemma CountBlocksHaveNoLimit(resourceUri: string)
    ensures NoLimitLines(CountHead())
    ensures NoLimitLines(CountIncoming(resourceUri))
    ensures NoLimitLines(CountOutgoing(resourceUri))
  {
    var a, b, c := CountHead(), CountIncoming(resourceUri), CountOutgoing(resourceUri);
    assert b[0][0] == '?' && c[0][0] == '<';
    forall i | 0 <= i < 4
      ensures !IsLimitLine(a[i])
    {
      assert a[i] in a;
      NotLimitLine(a[i]);
    }
    forall i | 0 <= i < 5
      ensures !IsLimitLine(b[i]) && !IsLimitLine(c[i])
    {
      assert b[i] in b && c[i] in c;
      NotLimitLine(b[i]);
      NotLimitLine(c[i]);
    }
  }

  /**
   * A LIMIT line is emitted exactly when the limit is positive, and the
   * number it carries reads back as the limit.
   */
  lemma NeighborsCountLimit(resourceUri: string, limit: Option<int>)
    ensures (exists i :: 0 <= i < 17 && IsLimitLine(NeighborsCountTemplate(resourceUri, limit)[i]))
      <==> limit.GetOr(0) > 0
    ensures limit.GetOr(0) > 0 ==>
      var line := NeighborsCountTemplate(resourceUri, limit)[14];
      IsLimitLine(line) && ParseNat(line[6..]) == Some(limit.GetOr(0))
  {
    var r := NeighborsCountTemplate(resourceUri, limit);
    var n := limit.GetOr(0);
    if n > 0 {
      assert IsLimitLine(r[14]);
      assert r[14][6..] == NatToString(n);
      NatRoundTrip(n);
    } else {
      CountBlocksHaveNoLimit(resourceUri);
      var tail := [LimitLine(n), "}", "GROUP BY ?class"];
      forall i | 0 <= i < 3
        ensures !IsLimitLine(tail[i])
      {
        assert tail[i] in tail;
        NotLimitLine(tail[i]);
      }
      forall i | 0 <= i < 17
        ensures !IsLimitLine(r[i])
      {
        if i < 4 {
          assert r[i] == CountHead()[i];
        } else if i < 9 {
          assert r[i] == CountIncoming(resourceUri)[i - 4];
        } else if i < 14 {
          assert r[i] == CountOutgoing(resourceUri)[i - 9];
        } else {
          assert r[i] == tail[i - 14];
        }
      }
    }
  }

  /**
   * The resource IRI appears in the incoming branch, before the UNION, and in
   * the outgoing branch after it; the subjects are grouped before the classes.
   */
  lemma NeighborsCountShape(resourceUri: string, limit: Option<int>)
    ensures var r := NeighborsCountTemplate(resourceUri, limit);
      && r[7] == "UNION"
      && Contains(r[4], Iri(resourceUri)) && Contains(r[9], Iri(resourceUri))
      && r[13] == "GROUP BY ?subject" && r[16] == "GROUP BY ?class"
  {
    ContainsMiddle("?subject ?p ", Iri(resourceUri), " .");
    ContainsMiddle("", Iri(resourceUri), " ?p ?subject .");
    assert "" + Iri(resourceUri) + " ?p ?subject ." == Iri(resourceUri) + " ?p ?subject .";
  }

  /** `BIND(<resourceURI> AS ?source)`. */
  function BindSource(resourceUri: string): string
  {
    "BIND(" + Iri(resourceUri) + " AS ?source)"
  }

  /** A line that is empty, or differs from a binding of the source at its first or sixth character. */
  lemma NotBindSource(line: string, resourceUri: string)
    requires |line| == 0 || line[0] != 'B' || (|line| > 5 && line[5] != '<')
    ensures line != BindSource(resourceUri)
  {
    var b := BindSource(resourceUri);
    assert b[0] == 'B' && b[5] == '<';
  }

  /**
   * One branch of the neighbor sub-query: the neighbor is linked to the
   * source by `link`, has a class and a value, optionally a literal value,
   * and satisfies the filter clause.
   */
  function NeighborBranch(link: string, literalFilter: bool, filters: string): (r: seq<string>)
    ensures |r| == BranchLength(literalFilter)
    ensures r[|r| - 2] == filters
    ensures literalFilter ==> r[|r| - 3] == "FILTER(isLiteral(?sValue))"
  {
    ["{", link, "?neighbor ?pClass ?class .", "?neighbor ?pValue ?sValue ."]
    + (if literalFilter then ["FILTER(isLiteral(?sValue))"] else [])
    + [filters, "}"]
  }

  function IncomingBranch(literalFilter: bool, filters: string): seq<string>
  {
    NeighborBranch("?neighbor ?pToSource ?source .", literalFilter, filters)
  }

  function OutgoingBranch(literalFilter: bool, filters: string): seq<string>
  {
    NeighborBranch("?source ?pFromSource ?neighbor .", literalFilter, filters)
  }

  function SubqueryHead(resourceUri: string, classes: string): (r: seq<string>)
    ensures |r| == 7
  {
    [ "SELECT DISTINCT ?subject ?p ?value",
      "WHERE {",
      "{",
      "SELECT DISTINCT ?neighbor",
      "WHERE {",
      BindSource(resourceUri),
      classes ]
  }

  function SubqueryTail(limit: string): (r: seq<string>)
    ensures |r| == 4
  {
    ["}", "ORDER BY ?neighbor", limit, "}"]
  }

  /**
   * One branch of the predicate sub-query: the source bound, the link
   * between the source and the neighbor, and the three bindings that name
   * the subject, the predicate and the value.
   */
  function PredicateBranch(resourceUri: string, link: string, first: string, second: string, third: string): (r: seq<string>)
    ensures |r| == 7
  {
    ["{", BindSource(resourceUri), link, first, second, third, "}"]
  }

  /** The neighbor points at the source. */
  function IncomingPredicate(resourceUri: string): (r: seq<string>)
    ensures |r| == 7
  {
    PredicateBranch(resourceUri, "?neighbor ?pToSource ?source",
      "BIND(?neighbor as ?subject)", "BIND(?pToSource as ?p)", "BIND(?source as ?value)")
  }

  /** The source points at the neighbor. */
  function OutgoingPredicate(resourceUri: string): (r: seq<string>)
    ensures |r| == 7
  {
    PredicateBranch(resourceUri, "?source ?pFromSource ?neighbor",
      "BIND(?neighbor as ?value)", "BIND(?pFromSource as ?p)", "BIND(?source as ?subject)")
  }

  function ClassAndValues(): (r: seq<string>)
    ensures |r| == 15
  {
    [ "{",
      "?neighbor ?pClass ?class .",
      "?neighbor a ?class .",
      "BIND(?neighbor as ?subject)",
      "BIND(?pClass as ?p)",
      "BIND(?class as ?value)",
      "}",
      "UNION",
      "{",
      "?neighbor ?p ?value",
      "FILTER (isLiteral(?value))",
      "BIND(?neighbor as ?subject)",
      "}",
      "}",
      "ORDER BY ?subject" ]
  }

  /**
   * The one-hop neighbors query, given the texts of its three slots: the
   * VALUES clause of subject classes, the FILTER clause and the LIMIT
   * clause. `literalFilter` adds the literal-value filter to both neighbor
   * branches.
   */
  function OneHopLines(resourceUri: string, classes: string, filters: string, limit: string,
                       literalFilter: bool): (r: seq<string>)
    ensures |r| == 43 + 2 * BranchLength(literalFilter)
    ensures r[|r| - 1] == "ORDER BY ?subject"
    ensures r[5] == BindSource(resourceUri) && r[6] == classes
  {
    var s := Subquery(resourceUri, classes, filters, limit, literalFilter);
    var c := Connections(resourceUri);
    assert (s + c)[|s| + 30] == c[30];
    s + c
  }

  /** The limit clause is the third line from the end of the sub-query. */
  lemma OneHopLimitSlot(resourceUri: string, classes: string, filters: string, limit: string, literalFilter: bool)
    ensures OneHopLines(resourceUri, classes, filters, limit, literalFilter)[10 + 2 * BranchLength(literalFilter)] == limit
  {
    var s := Subquery(resourceUri, classes, filters, limit, literalFilter);
    assert (s + Connections(resourceUri))[10 + 2 * BranchLength(literalFilter)] == s[10 + 2 * BranchLength(literalFilter)];
  }

  /** The sub-query selecting the distinct neighbors, within the limit. */
  function Subquery(resourceUri: string, classes: string, filters: string, limit: string,
                    literalFilter: bool): (r: seq<string>)
    ensures var n := BranchLength(literalFilter);
      && |r| == 12 + 2 * n
      && r[5] == BindSource(resourceUri) && r[6] == classes
      && r[7 + n] == "UNION" && r[10 + 2 * n] == limit
  {
    SubqueryHead(resourceUri, classes)
    + IncomingBranch(literalFilter, filters) + ["UNION"] + OutgoingBranch(literalFilter, filters)
    + SubqueryTail(limit)
  }

  /** The two neighbor branches sit on either side of the `UNION`. */
  lemma SubqueryBranches(resourceUri: string, classes: string, filters: string, limit: string, literalFilter: bool)
    ensures var r := Subquery(resourceUri, classes, filters, limit, literalFilter);
      var n := BranchLength(literalFilter);
      && r[7..7 + n] == IncomingBranch(literalFilter, filters)
      && r[8 + n..8 + 2 * n] == OutgoingBranch(literalFilter, filters)
  {
    var n := BranchLength(literalFilter);
    var head := SubqueryHead(resourceUri, classes);
    var inc := IncomingBranch(literalFilter, filters);
    var out := OutgoingBranch(literalFilter, filters);
    var r := head + inc + ["UNION"] + out + SubqueryTail(limit);
    assert r[7..7 + n] == inc;
    assert r[8 + n..8 + 2 * n] == out;
  }

  /** The four unions reading the predicates, classes and values of the neighbors. */
  function Connections(resourceUri: string): (r: seq<string>)
    ensures |r| == 31 && r[30] == "ORDER BY ?subject"
  {
    IncomingPredicate(resourceUri) + ["UNION"] + OutgoingPredicate(resourceUri) + ["UNION"]
    + ClassAndValues()
  }

  function BranchLength(literalFilter: bool): nat
  {
    if literalFilter then 7 else 6
  }

  /**
   * The incoming and the outgoing neighbor branch agree line by line except
   * for the triple linking the neighbor to the source, so both carry the same
   * filter clause (and the literal-value filter when it is asked for).
   */
  lemma BranchesAgree(resourceUri: string, classes: string, filters: string, limit: string, literalFilter: bool)
    ensures var r := OneHopLines(resourceUri, classes, filters, limit, literalFilter);
      var n := BranchLength(literalFilter);
      && r[7 + n] == "UNION"
      && var incoming := r[7..7 + n];
      var outgoing := r[8 + n..8 + 2 * n];
      && (forall k :: 0 <= k < n && k != 1 ==> incoming[k] == outgoing[k])
      && r[7 + n - 2] == filters && r[8 + 2 * n - 2] == filters
      && (literalFilter ==> r[7 + n - 3] == "FILTER(isLiteral(?sValue))" == r[8 + 2 * n - 3])
  {
    var r := OneHopLines(resourceUri, classes, filters, limit, literalFilter);
    var n := BranchLength(literalFilter);
    var inc := IncomingBranch(literalFilter, filters);
    var out := OutgoingBranch(literalFilter, filters);
    var s := Subquery(resourceUri, classes, filters, limit, literalFilter);
    SubqueryBranches(resourceUri, classes, filters, limit, literalFilter);
    assert r[..|s|] == s;
    assert r[7..7 + n] == inc;
    assert r[8 + n..8 + 2 * n] == out;
    assert r[7 + n - 2] == inc[n - 2] && r[8 + 2 * n - 2] == out[n - 2];
    assert r[7 + n - 3] == inc[n - 3] && r[8 + 2 * n - 3] == out[n - 3];
  }

  predicate NoBindSource(lines: seq<string>, resourceUri: string)
  {
    forall i :: 0 <= i < |lines| ==> lines[i] != BindSource(resourceUri)
  }

  /** The source is bound at the listed positions of `lines`, and nowhere else. */
  predicate BindsExactlyAt(lines: seq<string>, resourceUri: string, p: int, q: int, t: int)
  {
    forall i :: 0 <= i < |lines| ==> (lines[i] == BindSource(resourceUri) <==> i == p || i == q || i == t)
  }

  lemma ClassAndValuesNoBindSource(resourceUri: string)
    ensures NoBindSource(ClassAndValues(), resourceUri)
  {
    var v := ClassAndValues();
    forall i | 0 <= i < |v|
      ensures v[i] != BindSource(resourceUri)
    {
      assert v[i] in v;
      NotBindSource(v[i], resourceUri);
    }
  }

  lemma BranchNoBindSource(literalFilter: bool, filters: string, resourceUri: string)
    requires filters != BindSource(resourceUri)
    ensures NoBindSource(IncomingBranch(literalFilter, filters), resourceUri)
    ensures NoBindSource(OutgoingBranch(literalFilter, filters), resourceUri)
  {
    var a, b := IncomingBranch(literalFilter, filters), OutgoingBranch(literalFilter, filters);
    forall i | 0 <= i < |a|
      ensures a[i] != BindSource(resourceUri) && b[i] != BindSource(resourceUri)
    {
      assert a[i] in a && b[i] in b;
      if a[i] != filters {
        NotBindSource(a[i], resourceUri);
      }
      if b[i] != filters {
        NotBindSource(b[i], resourceUri);
      }
    }
  }

  /** A predicate branch binds the source once, on its second line, when no other line does. */
  lemma PredicateBranchBindsOnce(resourceUri: string, link: string, first: string, second: string, third: string)
    requires |link| == 0 || link[0] != 'B'
    requires |first| > 5 && first[5] != '<' && |second| > 5 && second[5] != '<' && |third| > 5 && third[5] != '<'
    ensures BindsExactlyAt(PredicateBranch(resourceUri, link, first, second, third), resourceUri, 1, 1, 1)
  {
    var a := PredicateBranch(resourceUri, link, first, second, third);
    forall i | 0 <= i < 7 && i != 1
      ensures a[i] != BindSource(resourceUri)
    {
      NotBindSource(a[i], resourceUri);
    }
  }

  lemma IncomingPredicateBindsOnce(resourceUri: string)
    ensures BindsExactlyAt(IncomingPredicate(resourceUri), resourceUri, 1, 1, 1)
  {
    PredicateBranchBindsOnce(resourceUri, "?neighbor ?pToSource ?source",
      "BIND(?neighbor as ?subject)", "BIND(?pToSource as ?p)", "BIND(?source as ?value)");
  }

  lemma OutgoingPredicateBindsOnce(resourceUri: string)
    ensures BindsExactlyAt(OutgoingPredicate(resourceUri), resourceUri, 1, 1, 1)
  {
    PredicateBranchBindsOnce(resourceUri, "?source ?pFromSource ?neighbor",
      "BIND(?neighbor as ?value)", "BIND(?pFromSource as ?p)", "BIND(?source as ?subject)");
  }

  lemma SubqueryBindsOnce(resourceUri: string, classes: string, filters: string, limit: string,
                          literalFilter: bool)
    requires classes != BindSource(resourceUri)
    requires filters != BindSource(resourceUri)
    requires limit != BindSource(resourceUri)
    ensures BindsExactlyAt(Subquery(resourceUri, classes, filters, limit, literalFilter), resourceUri, 5, 5, 5)
  {
    var s := Subquery(resourceUri, classes, filters, limit, literalFilter);
    var n := BranchLength(literalFilter);
    var b := BindSource(resourceUri);
    var head := SubqueryHead(resourceUri, classes);
    var inc := IncomingBranch(literalFilter, filters);
    var out := OutgoingBranch(literalFilter, filters);
    var tail := SubqueryTail(limit);
    assert |inc| == n && |out| == n;
    BranchNoBindSource(literalFilter, filters, resourceUri);
    forall i | 0 <= i < 7 && i != 5
      ensures head[i] != b
    {
      if i != 6 {
        assert head[i] in head[..5];
        NotBindSource(head[i], resourceUri);
      }
    }
    forall i | 0 <= i < 4
      ensures tail[i] != b
    {
      if i != 2 {
        assert tail[i] in tail[..2] + tail[3..];
        NotBindSource(tail[i], resourceUri);
      }
    }
    forall i | 0 <= i < |s|
      ensures s[i] == b <==> i == 5
    {
      if i < 7 { assert s[i] == head[i]; }
      else if i < 7 + n { assert s[i] == inc[i - 7]; }
      else if i == 7 + n { assert s[i] == "UNION"; }
      else if i < 8 + 2 * n { assert s[i] == out[i - 8 - n]; }
      else { assert s[i] == tail[i - 8 - 2 * n]; }
    }
  }

  lemma ConnectionsBindTwice(resourceUri: string)
    ensures BindsExactlyAt(Connections(resourceUri), resourceUri, 1, 9, 9)
  {
    var c := Connections(resourceUri);
    var b := BindSource(resourceUri);
    var ip := IncomingPredicate(resourceUri);
    var op := OutgoingPredicate(resourceUri);
    var cv := ClassAndValues();
    ClassAndValuesNoBindSource(resourceUri);
    IncomingPredicateBindsOnce(resourceUri);
    OutgoingPredicateBindsOnce(resourceUri);
    forall i | 0 <= i < |c|
      ensures c[i] == b <==> (i == 1 || i == 9)
    {
      if i < 7 { assert c[i] == ip[i]; }
      else if i == 7 { assert c[i] == "UNION"; }
      else if i < 15 { assert c[i] == op[i - 8]; }
      else if i == 15 { assert c[i] == "UNION"; }
      else { assert c[i] == cv[i - 16]; }
    }
  }

  /**
   * The source is bound in exactly three places: in the neighbor sub-query
   * and in each of the two connection-predicate branches (provided no slot
   * text is itself such a binding).
   */
  lemma OneHopBindsSourceThrice(resourceUri: string, classes: string, filters: string, limit: string,
                                literalFilter: bool)
    requires classes != BindSource(resourceUri)
    requires filters != BindSource(resourceUri)
    requires limit != BindSource(resourceUri)
    ensures var n := BranchLength(literalFilter);
      BindsExactlyAt(OneHopLines(resourceUri, classes, filters, limit, literalFilter), resourceUri,
                     5, 13 + 2 * n, 21 + 2 * n)
  {
    var s := Subquery(resourceUri, classes, filters, limit, literalFilter);
    var c := Connections(resourceUri);
    var n := BranchLength(literalFilter);
    SubqueryBindsOnce(resourceUri, classes, filters, limit, literalFilter);
    ConnectionsBindTwice(resourceUri);
    assert |s| == 12 + 2 * n;
    forall i | |s| <= i < |s| + |c|
      ensures (s + c)[i] == c[i - |s|]
    {
    }
  }

  /** A filter criterion: a predicate IRI and the text its value must match. */
  datatype Criterion = Criterion(predicateIri: string, objectText: string)

  function Iris(classes: seq<string>): (r: seq<string>)
    ensures |r| == |classes|
    ensures forall i :: 0 <= i < |classes| ==> r[i] == Iri(classes[i])
  {
    if |classes| == 0 then [] else [Iri(classes[0])] + Iris(classes[1..])
  }

  /** `getSubjectClasses` of the inline template: `VALUES ?class { <c1> <c2> ... }`, or nothing. */
  function SubjectClassesClause(classes: seq<string>): (r: string)
    ensures r == "" <==> |classes| == 0
    ensures |classes| > 0 ==> r[0] == 'V'
  {
    if |classes| == 0 then "" else "VALUES ?class { " + Join(" ", Iris(classes)) + " }"
  }

  /** One disjunct: the predicate matches and the value matches the object text, case-insensitively. */
  function Disjunct(c: Criterion): (r: string)
    ensures Contains(r, Iri(c.predicateIri))
    ensures Contains(r, c.objectText)
  {
    var head := "(?sPred=";
    var mid := " && regex(str(?sValue), \"";
    var tail := "\", \"i\"))";
    var r := head + Iri(c.predicateIri) + mid + c.objectText + tail;
    assert r == head + Iri(c.predicateIri) + (mid + c.objectText + tail);
    ContainsMiddle(head, Iri(c.predicateIri), mid + c.objectText + tail);
    assert r == (head + Iri(c.predicateIri) + mid) + c.objectText + tail;
    ContainsMiddle(head + Iri(c.predicateIri) + mid, c.objectText, tail);
    r
  }

  function Disjuncts(criteria: seq<Criterion>): (r: seq<string>)
    ensures |r| == |criteria|
    ensures forall i :: 0 <= i < |criteria| ==> r[i] == Disjunct(criteria[i])
  {
    if |criteria| == 0 then [] else [Disjunct(criteria[0])] + Disjuncts(criteria[1..])
  }

  /**
   * `getFilters` of the inline template: one disjunct per criterion joined by
   * `||` inside a FILTER, or nothing. The object text is inserted verbatim.
   */
  function FiltersClause(criteria: seq<Criterion>): (r: string)
    ensures r == "" <==> |criteria| == 0
    ensures |criteria| > 0 ==> r[0] == 'F'
    ensures forall i :: 0 <= i < |criteria| ==> Contains(r, Disjunct(criteria[i]))
  {
    if |criteria| == 0 then ""
    else
      var r := "FILTER(" + Join(" || ", Disjuncts(criteria)) + ")";
      forall i | 0 <= i < |criteria|
        ensures Contains(r, Disjunct(criteria[i]))
      {
        JoinContains(" || ", Disjuncts(criteria), i);
        ContainsWithin("FILTER(", Join(" || ", Disjuncts(criteria)), ")", Disjunct(criteria[i]));
      }
      r
  }

  /** The limit clause: `LIMIT l OFFSET o` for a positive limit, nothing otherwise. */
  function LimitClause(limit: int, offset: int): (r: string)
    ensures r == "" <==> limit <= 0
    ensures limit > 0 ==> IsLimitLine(r)
  {
    if limit > 0 then "LIMIT " + IntToString(limit) + " OFFSET " + IntToString(offset) else ""
  }

  /** Reads `LIMIT <digits> OFFSET <rest>` back into the limit and the offset text. */
  function ParseLimitClause(line: string): Option<(nat, string)>
  {
    if !IsLimitLine(line) then None
    else
      var body := line[6..];
      var k := IndexOf(body, ' ');
      if !StartsWith(body[k..], " OFFSET ") then None
      else match ParseNat(body[..k])
        case None => None
        case Some(l) => Some((l, body[k + 8..]))
  }

  /** The limit clause carries exactly the limit and the offset it was built from. */
  lemma LimitClauseRoundTrip(limit: nat, offset: int)
    requires limit > 0
    ensures ParseLimitClause(LimitClause(limit, offset)) == Some((limit, IntToString(offset)))
  {
    var digits := NatToString(limit);
    var rest := "OFFSET " + IntToString(offset);
    NatToStringDigits(limit);
    NatRoundTrip(limit);
    LimitClauseSplit(digits, limit, IntToString(offset));
    assert StartsWith(rest, "OFFSET ") by {
      assert rest[..7] == "OFFSET ";
    }
    assert rest[7..] == IntToString(offset);
    ParseLimitParts(digits, rest);
  }

  lemma LimitClauseSplit(digits: string, limit: nat, offset: string)
    requires limit > 0 && digits == NatToString(limit)
    ensures "LIMIT " + IntToString(limit) + " OFFSET " + offset == "LIMIT " + (digits + [' '] + ("OFFSET " + offset))
  {
    assert " OFFSET " == [' '] + "OFFSET ";
  }

  lemma ParseLimitParts(digits: string, rest: string)
    requires forall i :: 0 <= i < |digits| ==> IsDigit(digits[i])
    requires StartsWith(rest, "OFFSET ")
    ensures ParseLimitClause("LIMIT " + (digits + [' '] + rest)) ==
      if ParseNat(digits).Some? then Some((ParseNat(digits).value, rest[7..])) else None
  {
    var body := digits + [' '] + rest;
    LimitPrefix(body);
    LimitBodyParts(digits, rest);
    ParseLimitAt("LIMIT " + body, digits, rest[7..]);
  }

  lemma LimitPrefix(body: string)
    ensures IsLimitLine("LIMIT " + body) && ("LIMIT " + body)[6..] == body
  {
    assert ("LIMIT " + body)[..6] == "LIMIT ";
  }

  /** The digits end at the first space, and `OFFSET ` follows it. */
  lemma LimitBodyParts(digits: string, rest: string)
    requires forall i :: 0 <= i < |digits| ==> IsDigit(digits[i])
    requires StartsWith(rest, "OFFSET ")
    ensures var body := digits + [' '] + rest;
      && IndexOf(body, ' ') == |digits|
      && body[..|digits|] == digits
      && StartsWith(body[|digits|..], " OFFSET ")
      && body[|digits| + 8..] == rest[7..]
  {
    var body := digits + [' '] + rest;
    forall i | 0 <= i < |digits|
      ensures digits[i] != ' '
    {
      assert IsDigit(digits[i]);
    }
    IndexOfAfter(digits, ' ', rest);
    assert body[|digits|..] == [' '] + rest;
    assert ([' '] + rest)[..8] == [' '] + rest[..7];
  }

  lemma ParseLimitAt(line: string, digits: string, rest: string)
    requires IsLimitLine(line)
    requires IndexOf(line[6..], ' ') == |digits|
    requires line[6..][..|digits|] == digits
    requires StartsWith(line[6..][|digits|..], " OFFSET ")
    requires line[6..][|digits| + 8..] == rest
    ensures ParseLimitClause(line) == if ParseNat(digits).Some? then Some((ParseNat(digits).value, rest)) else None
  {
  }

  /** Reads a space-separated list of IRI references `<a> <b> ...` back into the IRIs. */
  function ParseIris(s: string): Option<seq<string>>
    decreases |s|
  {
    if |s| == 0 || s[0] != '<' then None
    else
      var k := IndexOf(s[1..], '>');
      if k == |s| - 1 then None
      else
        var iri := s[1..k + 1];
        var rest := s[k + 2..];
        if |rest| == 0 then Some([iri])
        else if rest[0] != ' ' then None
        else match ParseIris(rest[1..])
          case None => None
          case Some(more) => Some([iri] + more)
  }

  /** The IRI does not contain the closing bracket `>`. */
  predicate NoBracket(iri: string)
  {
    forall j :: 0 <= j < |iri| ==> iri[j] != '>'
  }

  /** No IRI contains the closing bracket `>`. */
  predicate PlainIris(classes: seq<string>)
  {
    forall i :: 0 <= i < |classes| ==> NoBracket(classes[i])
  }

  lemma {:induction false} IrisRoundTrip(classes: seq<string>)
    requires |classes| > 0 && PlainIris(classes)
    ensures ParseIris(Join(" ", Iris(classes))) == Some(classes)
  {
    var c := classes[0];
    var more := IrisTail(classes);
    IrisJoin(classes);
    assert NoBracket(c);
    ParseIrisCons(c, more);
    if |classes| > 1 {
      assert PlainIris(classes[1..]);
      IrisRoundTrip(classes[1..]);
      assert classes == [c] + classes[1..];
    } else {
      assert classes == [c];
    }
  }

  /** What follows the first IRI: nothing, or a space and the remaining IRIs. */
  function IrisTail(classes: seq<string>): string
    requires |classes| > 0
  {
    if |classes| == 1 then "" else " " + Join(" ", Iris(classes[1..]))
  }

  /** The joined IRIs are the first one in brackets followed by the tail. */
  lemma {:induction false} IrisJoin(classes: seq<string>)
    requires |classes| > 0
    ensures Join(" ", Iris(classes)) == ['<'] + (classes[0] + ['>'] + IrisTail(classes))
    ensures |classes| > 1 ==> IrisTail(classes)[0] == ' ' && IrisTail(classes)[1..] == Join(" ", Iris(classes[1..]))
  {
    var c := classes[0];
    var more := IrisTail(classes);
    var xs := Iris(classes);
    assert Iri(c) == ['<'] + c + ['>'];
    assert ['<'] + c + ['>'] + more == ['<'] + (c + ['>'] + more);
    if |classes| > 1 {
      assert xs[1..] == Iris(classes[1..]);
      assert Join(" ", xs) == xs[0] + " " + Join(" ", xs[1..]);
      assert more == " " + Join(" ", xs[1..]);
    } else {
      assert more == [];
      assert Join(" ", xs) == Iri(c) + more;
    }
  }

  /** Reading `<c>more` up to the first `>` gives back `c` and `more`. */
  lemma {:induction false} BracketSplit(c: string, more: string)
    requires NoBracket(c)
    ensures var s := ['<'] + (c + ['>'] + more);
      && |s| == |c| + 2 + |more| && s[0] == '<'
      && IndexOf(s[1..], '>') == |c|
      && s[1..|c| + 1] == c && s[|c| + 2..] == more
  {
    var t := c + ['>'] + more;
    var s := ['<'] + t;
    assert s[1..] == t;
    assert s[1..|c| + 1] == t[..|c|] == c;
    assert s[|c| + 2..] == t[|c| + 1..] == more;
    IndexOfAfter(c, '>', more);
  }

  /** One step of `ParseIris`: the first IRI is read and the rest follows a space. */
  lemma ParseIrisStep(s: string, c: string, more: string)
    requires |s| == |c| + 2 + |more| && s[0] == '<'
    requires IndexOf(s[1..], '>') == |c|
    requires s[1..|c| + 1] == c && s[|c| + 2..] == more
    ensures |more| == 0 ==> ParseIris(s) == Some([c])
    ensures |more| > 0 && more[0] == ' ' && ParseIris(more[1..]).Some? ==>
      ParseIris(s) == Some([c] + ParseIris(more[1..]).value)
  {
  }

  /** `ParseIris` on `<c>more`, for an IRI `c` without `>`. */
  lemma ParseIrisCons(c: string, more: string)
    requires NoBracket(c)
    ensures |more| == 0 ==> ParseIris(['<'] + (c + ['>'] + more)) == Some([c])
    ensures |more| > 0 && more[0] == ' ' && ParseIris(more[1..]).Some? ==>
      ParseIris(['<'] + (c + ['>'] + more)) == Some([c] + ParseIris(more[1..]).value)
  {
    BracketSplit(c, more);
    ParseIrisStep(['<'] + (c + ['>'] + more), c, more);
  }

  /** Reads the VALUES clause back into its classes; the empty clause means no classes. */
  function ParseSubjectClasses(clause: string): Option<seq<string>>
  {
    if clause == "" then Some([])
    else if |clause| >= 18 && clause[..16] == "VALUES ?class { " && clause[|clause| - 2..] == " }" then
      ParseIris(clause[16..|clause| - 2])
    else None
  }

  /**
   * The VALUES clause lists exactly the given classes, in order: reading it
   * back gives them again (for IRIs without `>`).
   */
  lemma SubjectClassesRoundTrip(classes: seq<string>)
    requires PlainIris(classes)
    ensures ParseSubjectClasses(SubjectClassesClause(classes)) == Some(classes)
  {
    if |classes| > 0 {
      var j := Join(" ", Iris(classes));
      var r := SubjectClassesClause(classes);
      assert j[0] == '<' by {
        assert Iris(classes)[0] == Iri(classes[0]);
        if |classes| > 1 {
          assert Iris(classes)[1..] == Iris(classes[1..]);
        }
      }
      assert r == "VALUES ?class { " + j + " }";
      assert r[..16] == "VALUES ?class { ";
      assert r[16..|r| - 2] == j;
      IrisRoundTrip(classes);
    }
  }

  /**
   * `oneHopNeighborsTemplate` with its clauses built inline. Omitted classes
   * and criteria are empty lists; an omitted limit or offset is 0.
   */
  function OneHopNeighborsTemplate(resourceUri: string, subjectClasses: Option<seq<string>>,
                                   filterCriteria: Option<seq<Criterion>>,
                                   limit: Option<int>, offset: Option<int>): (r: seq<string>)
    ensures |r| == 55 && r[54] == "ORDER BY ?subject"
    ensures BindsExactlyAt(r, resourceUri, 5, 25, 33)
  {
    var classes := SubjectClassesClause(subjectClasses.GetOr([]));
    var filters := FiltersClause(filterCriteria.GetOr([]));
    var limitLine := LimitClause(limit.GetOr(0), offset.GetOr(0));
    ClausesNotBindSource(resourceUri, subjectClasses, filterCriteria, limit, offset);
    OneHopBindsSourceThrice(resourceUri, classes, filters, limitLine, false);
    OneHopLines(resourceUri, classes, filters, limitLine, false)
  }

  /** No clause built inline starts like a binding of the source. */
  lemma ClausesNotBindSource(resourceUri: string, subjectClasses: Option<seq<string>>,
                             filterCriteria: Option<seq<Criterion>>, limit: Option<int>, offset: Option<int>)
    ensures SubjectClassesClause(subjectClasses.GetOr([])) != BindSource(resourceUri)
    ensures FiltersClause(filterCriteria.GetOr([])) != BindSource(resourceUri)
    ensures LimitClause(limit.GetOr(0), offset.GetOr(0)) != BindSource(resourceUri)
  {
    var classes := SubjectClassesClause(subjectClasses.GetOr([]));
    var filters := FiltersClause(filterCriteria.GetOr([]));
    var limitLine := LimitClause(limit.GetOr(0), offset.GetOr(0));
    var b := BindSource(resourceUri);
    assert b[0] == 'B';
    if classes != "" { assert classes[0] != b[0]; }
    if filters != "" { assert filters[0] != b[0]; }
    if limitLine != "" { assert limitLine[0] == 'L'; }
  }

  /**
   * The slots of the inline template: the VALUES clause of the classes, the
   * same FILTER clause in both neighbor branches, and the limit clause.
   */
  lemma OneHopNeighborsTemplateSlots(resourceUri: string, subjectClasses: Option<seq<string>>,
                                     filterCriteria: Option<seq<Criterion>>,
                                     limit: Option<int>, offset: Option<int>)
    ensures var r := OneHopNeighborsTemplate(resourceUri, subjectClasses, filterCriteria, limit, offset);
      && r[6] == SubjectClassesClause(subjectClasses.GetOr([]))
      && r[11] == r[18] == FiltersClause(filterCriteria.GetOr([]))
      && r[22] == LimitClause(limit.GetOr(0), offset.GetOr(0))
  {
    var classes := SubjectClassesClause(subjectClasses.GetOr([]));
    var filters := FiltersClause(filterCriteria.GetOr([]));
    var limitLine := LimitClause(limit.GetOr(0), offset.GetOr(0));
    BranchesAgree(resourceUri, classes, filters, limitLine, false);
    OneHopLimitSlot(resourceUri, classes, filters, limitLine, false);
  }

  /**
   * `oneHopNeighborsTemplate` built from the clause helpers, which are not
   * part of this model and are given as functions; the literal-value filter
   * is added to both neighbor branches.
   */
  function OneHopNeighborsWithHelpers(resourceUri: string, subjectClasses: Option<seq<string>>,
                                      filterCriteria: Option<seq<Criterion>>,
                                      limit: Option<int>, offset: Option<int>,
                                      getSubjectClasses: seq<string> -> string,
                                      getFilters: seq<Criterion> -> string,
                                      getLimit: (int, int) -> string): (r: seq<string>)
    ensures |r| == 57 && r[56] == "ORDER BY ?subject"
    ensures r[5] == BindSource(resourceUri) && r[6] == getSubjectClasses(subjectClasses.GetOr([]))
  {
    OneHopLines(resourceUri, getSubjectClasses(subjectClasses.GetOr([])), getFilters(filterCriteria.GetOr([])),
                getLimit(limit.GetOr(0), offset.GetOr(0)), true)
  }

  /**
   * The slots of the helper-built template: the filters and the
   * literal-value filter in both neighbor branches, and the limit clause.
   */
  lemma OneHopNeighborsWithHelpersSlots(resourceUri: string, subjectClasses: Option<seq<string>>,
                                        filterCriteria: Option<seq<Criterion>>,
                                        limit: Option<int>, offset: Option<int>,
                                        getSubjectClasses: seq<string> -> string,
                                        getFilters: seq<Criterion> -> string,
                                        getLimit: (int, int) -> string)
    ensures var r := OneHopNeighborsWithHelpers(resourceUri, subjectClasses, filterCriteria, limit, offset,
                                                getSubjectClasses, getFilters, getLimit);
      && r[12] == r[20] == getFilters(filterCriteria.GetOr([]))
      && r[11] == r[19] == "FILTER(isLiteral(?sValue))"
      && r[24] == getLimit(limit.GetOr(0), offset.GetOr(0))
  {
    var classes := getSubjectClasses(subjectClasses.GetOr([]));
    var filters := getFilters(filterCriteria.GetOr([]));
    var limitLine := getLimit(limit.GetOr(0), offset.GetOr(0));
    BranchesAgree(resourceUri, classes, filters, limitLine, true);
    OneHopLimitSlot(resourceUri, classes, filters, limitLine, true);
  }
}
