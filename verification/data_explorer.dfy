/**
 * The data explorer table (`DataExplorer`): pagination kept in the URL's
 * search parameters, the keyword-search request for a page, the row count
 * the pager is given, and the display-name styling update.
 */
module DataExplorer {
  import opened Wrappers
  import opened OrderedMaps
  import opened Strs

  const DEFAULT_PAGE: nat := 1
  const DEFAULT_PAGE_SIZE: nat := 20

  /** URL search parameters; `get` returns the first value of a name. */
  type SearchParams = Entries<string, string>

  /**
   * `Number(params.get(name) || default)`. A missing or empty parameter
   * gives the default; decimal digits give their value; any other text is
   * `NaN`, here `None`.
   */
  function ParamNumber(params: SearchParams, name: string, default: nat): (r: Option<nat>)
    ensures Get(params, name).None? || Get(params, name) == Some("") ==> r == Some(default)
  {
    var p := Get(params, name);
    if p.None? || p.value == "" then Some(default) else ParseNat(p.value)
  }

  /** `String(n)` of a parsed number: its decimal digits, or `NaN`. */
  function NumberText(n: Option<nat>): (r: string)
    ensures r == "NaN" <==> n.None?
    ensures n.Some? ==> forall i :: 0 <= i < |r| ==> IsDigit(r[i])
  {
    if n.Some? then
      NatToStringDigits(n.value);
      assert IsDigit(NatToString(n.value)[0]) && "NaN"[0] == 'N';
      NatToString(n.value)
    else "NaN"
  }

  lemma NumberTextRoundTrip(n: Option<nat>)
    ensures NumberText(n) != "" && ParseNat(NumberText(n)) == n
  {
    if n.Some? {
      NatToStringDigits(n.value);
      NatRoundTrip(n.value);
    } else {
      assert !IsDigit(NumberText(n)[2]);
    }
  }

  datatype Pagination = Pagination(pageIndex: Option<int>, pageSize: Option<nat>)

  /** The initial state: the page number minus one, and the page size (20 by default). */
  function InitialPagination(params: SearchParams): (p: Pagination)
    ensures Get(params, "page").None? ==> p.pageIndex == Some(0)
    ensures Get(params, "pageSize").None? ==> p.pageSize == Some(DEFAULT_PAGE_SIZE)
    ensures ParamNumber(params, "page", DEFAULT_PAGE).Some? ==> p.pageIndex == Some(ParamNumber(params, "page", DEFAULT_PAGE).value - 1)
  {
    var page := ParamNumber(params, "page", DEFAULT_PAGE);
    Pagination(if page.Some? then Some(page.value - 1) else None, ParamNumber(params, "pageSize", DEFAULT_PAGE_SIZE))
  }

  /**
   * `onPageIndexChange`: the parameters become exactly the one-based page
   * and the current page size; any other parameter is dropped.
   */
  function OnPageIndexChange(params: SearchParams, pageIndex: nat): (r: SearchParams)
    ensures Keys(r) == ["page", "pageSize"]
  {
    [("page", NatToString(pageIndex + 1)),
     ("pageSize", NumberText(ParamNumber(params, "pageSize", DEFAULT_PAGE_SIZE)))]
  }

  /** `onPageSizeChange`: the new page size, and the current page number. */
  function OnPageSizeChange(params: SearchParams, pageSize: nat): (r: SearchParams)
    ensures Keys(r) == ["page", "pageSize"]
  {
    [("page", NumberText(ParamNumber(params, "page", DEFAULT_PAGE))),
     ("pageSize", NatToString(pageSize))]
  }

  /**
   * Reading the parameters back after a page change gives the chosen page
   * and the page size in effect before, so a reload shows the same page.
   */
  lemma PageIndexChangeReadsBack(params: SearchParams, pageIndex: nat)
    ensures InitialPagination(OnPageIndexChange(params, pageIndex))
      == Pagination(Some(pageIndex), InitialPagination(params).pageSize)
  {
    var r := OnPageIndexChange(params, pageIndex);
    NumberTextRoundTrip(Some(pageIndex + 1));
    NumberTextRoundTrip(ParamNumber(params, "pageSize", DEFAULT_PAGE_SIZE));
    assert Get(r, "page") == Some(NatToString(pageIndex + 1));
    assert Get(r, "pageSize") == Some(NumberText(ParamNumber(params, "pageSize", DEFAULT_PAGE_SIZE)));
  }

  /** The same for a page-size change: the new size and the page in effect before. */
  lemma PageSizeChangeReadsBack(params: SearchParams, pageSize: nat)
    ensures InitialPagination(OnPageSizeChange(params, pageSize))
      == Pagination(InitialPagination(params).pageIndex, Some(pageSize))
  {
    var r := OnPageSizeChange(params, pageSize);
    NumberTextRoundTrip(Some(pageSize));
    NumberTextRoundTrip(ParamNumber(params, "page", DEFAULT_PAGE));
    assert Get(r, "page") == Some(NumberText(ParamNumber(params, "page", DEFAULT_PAGE)));
    assert Get(r, "pageSize") == Some(NatToString(pageSize));
  }

  datatype KeywordSearchRequest = KeywordSearchRequest(vertexTypes: seq<string>, limit: int, offset: int)

  /**
   * The query for one page: nothing is requested without a vertex type or
   * an explorer (the result is an empty page); otherwise one page of that
   * type.
   */
  function PageRequest(vertexType: Option<string>, hasExplorer: bool, pageIndex: int, pageSize: int): (r: Option<KeywordSearchRequest>)
    ensures r.Some? <==> vertexType.Some? && vertexType.value != "" && hasExplorer
    ensures r.Some? ==> r.value.vertexTypes == [vertexType.value] && r.value.limit == pageSize
  {
    if vertexType.None? || vertexType.value == "" || !hasExplorer then None
    else Some(KeywordSearchRequest([vertexType.value], pageSize, pageIndex * pageSize))
  }

  /** Consecutive pages are adjacent: each starts where the previous one ends. */
  lemma PagesTile(vertexType: string, pageIndex: int, pageSize: int)
    requires vertexType != ""
    ensures var a := PageRequest(Some(vertexType), true, pageIndex, pageSize).value;
      var b := PageRequest(Some(vertexType), true, pageIndex + 1, pageSize).value;
      b.offset == a.offset + a.limit && a.offset == pageIndex * pageSize
  {
  }

  /**
   * `vertexConfig?.total ?? pageSize * (pageIndex + 2)`: without a known
   * total the pager always sees one more page beyond the current one.
   */
  function TotalRows(total: Option<int>, pageIndex: int, pageSize: int): (r: int)
    ensures total.Some? ==> r == total.value
    ensures total.None? && pageSize > 0 && pageIndex >= 0 ==> r > (pageIndex + 1) * pageSize
  {
    if total.Some? then total.value else pageSize * (pageIndex + 2)
  }

  /** A vertex type's styling preferences; `color` stands for the others. */
  datatype VertexPreferences = VertexPreferences(
    vtype: string,
    displayNameAttribute: Option<string>,
    longDisplayNameAttribute: Option<string>,
    color: Option<string>)

  datatype UserStyling = UserStyling(vertices: Option<seq<VertexPreferences>>, edges: Option<seq<string>>)

  datatype DisplayField = Name | LongName

  /** The preferences whose type is not `t`, in their order. */
  function OtherTypes(s: seq<VertexPreferences>, t: string): (r: seq<VertexPreferences>)
    ensures forall i :: 0 <= i < |r| ==> r[i].vtype != t && r[i] in s
    ensures forall i :: 0 <= i < |s| && s[i].vtype != t ==> s[i] in r
  {
    if |s| == 0 then []
    else if s[0].vtype != t then [s[0]] + OtherTypes(s[1..], t)
    else OtherTypes(s[1..], t)
  }

  /** The first preferences of type `t`, as `find` returns them. */
  function FindType(s: seq<VertexPreferences>, t: string): (r: Option<VertexPreferences>)
    ensures r.Some? ==> r.value in s && r.value.vtype == t
    ensures r.None? ==> forall i :: 0 <= i < |s| ==> s[i].vtype != t
  {
    if |s| == 0 then None
    else if s[0].vtype == t then Some(s[0])
    else FindType(s[1..], t)
  }

  /**
   * `onDisplayNameChange(field)(value)`: the vertex type's preferences
   * (a copy of the first existing entry, or empty ones) get the field set,
   * and the list becomes every other type's entry followed by that one.
   * Nothing changes without a vertex type.
   */
  function OnDisplayNameChange(st: UserStyling, vertexType: Option<string>, field: DisplayField, value: string): (r: UserStyling)
    ensures vertexType.None? || vertexType.value == "" ==> r == st
    ensures r.edges == st.edges
  {
    if vertexType.None? || vertexType.value == "" then st
    else
      var t := vertexType.value;
      var prev := if st.vertices.Some? then st.vertices.value else [];
      var found := FindType(prev, t);
      var item := if found.Some? then found.value else VertexPreferences(t, None, None, None);
      var item' := match field
        case Name => item.(displayNameAttribute := Some(value))
        case LongName => item.(longDisplayNameAttribute := Some(value));
      st.(vertices := Some(OtherTypes(prev, t) + [item'.(vtype := t)]))
  }

  /** How many preferences in `s` have type `t`. */
  function CountType(s: seq<VertexPreferences>, t: string): nat
  {
    if |s| == 0 then 0 else (if s[0].vtype == t then 1 else 0) + CountType(s[1..], t)
  }

  lemma {:induction false} OtherTypesCount(s: seq<VertexPreferences>, t: string, u: string)
    ensures CountType(OtherTypes(s, t), t) == 0
    ensures u != t ==> CountType(OtherTypes(s, t), u) == CountType(s, u)
  {
    if |s| > 0 {
      OtherTypesCount(s[1..], t, u);
    }
  }

  lemma {:induction false} CountTypeConcat(a: seq<VertexPreferences>, b: seq<VertexPreferences>, t: string)
    ensures CountType(a + b, t) == CountType(a, t) + CountType(b, t)
  {
    if |a| == 0 {
      assert a + b == b;
    } else {
      assert (a + b)[0] == a[0];
      assert (a + b)[1..] == a[1..] + b;
      CountTypeConcat(a[1..], b, t);
    }
  }

  /**
   * After a display-name change for type `t`: exactly one entry has type
   * `t` and it is the last; it carries the new value and keeps the other
   * preferences of the entry it copied; every other type keeps its entries,
   * in their order.
   */
  lemma DisplayNameChangeShape(st: UserStyling, t: string, field: DisplayField, value: string)
    requires t != ""
    ensures var r := OnDisplayNameChange(st, Some(t), field, value);
      var prev := if st.vertices.Some? then st.vertices.value else [];
      var found := FindType(prev, t);
      r.vertices.Some? && |r.vertices.value| > 0
      && var vs := r.vertices.value;
      && CountType(vs, t) == 1
      && vs[|vs| - 1].vtype == t
      && vs[..|vs| - 1] == OtherTypes(prev, t)
      && (forall u :: u != t ==> CountType(vs, u) == CountType(prev, u))
      && (field == Name ==> vs[|vs| - 1].displayNameAttribute == Some(value))
      && (field == LongName ==> vs[|vs| - 1].longDisplayNameAttribute == Some(value))
      && (found.Some? ==> vs[|vs| - 1].color == found.value.color)
      && (found.Some? && field == Name ==> vs[|vs| - 1].longDisplayNameAttribute == found.value.longDisplayNameAttribute)
      && (found.Some? && field == LongName ==> vs[|vs| - 1].displayNameAttribute == found.value.displayNameAttribute)
  {
    var prev := if st.vertices.Some? then st.vertices.value else [];
    var vs := OnDisplayNameChange(st, Some(t), field, value).vertices.value;
    var last := vs[|vs| - 1];
    OtherTypesCount(prev, t, t);
    CountTypeConcat(OtherTypes(prev, t), [last], t);
    assert vs == OtherTypes(prev, t) + [last];
    forall u | u != t ensures CountType(vs, u) == CountType(prev, u) {
      OtherTypesCount(prev, t, u);
      CountTypeConcat(OtherTypes(prev, t), [last], u);
    }
  }
}
