/**
 * The graph workspace layout (`GraphExplorer`): the sidebar and view
 * toggles, the table resize, when the sidebar counts as open, and when the
 * details panel opens by itself after a selection.
 */
module Layout {
  import opened Wrappers
  import opened Connection

  datatype TableView = TableView(height: Option<int>)

  /** The user layout; `activeSidebarItem` is `null` when no item is open. */
  datatype UserLayout = UserLayout(
    activeSidebarItem: Option<string>,
    activeToggles: set<string>,
    tableView: Option<TableView>,
    detailsAutoOpenOnSelection: Option<bool>)

  const DEFAULT_TABLE_HEIGHT: int := 300
  const DETAILS: string := "details"
  const NAMESPACES: string := "namespaces"

  /** `closeSidebar`. */
  function CloseSidebar(l: UserLayout): (r: UserLayout)
    ensures r.activeSidebarItem.None?
    ensures r == l.(activeSidebarItem := None)
  {
    l.(activeSidebarItem := None)
  }

  /** `toggleSidebar(item)`: closes the item if it is open, otherwise opens it. */
  function ToggleSidebar(l: UserLayout, item: string): (r: UserLayout)
    ensures l.activeSidebarItem == Some(item) ==> r.activeSidebarItem.None?
    ensures l.activeSidebarItem != Some(item) ==> r.activeSidebarItem == Some(item)
    ensures r == l.(activeSidebarItem := r.activeSidebarItem)
  {
    if l.activeSidebarItem == Some(item) then l.(activeSidebarItem := None)
    else l.(activeSidebarItem := Some(item))
  }

  /**
   * Toggling the same item twice restores the layout exactly when nothing
   * or that item was open; with another item open, the second toggle closes
   * the sidebar instead.
   */
  lemma ToggleSidebarTwice(l: UserLayout, item: string)
    ensures ToggleSidebar(ToggleSidebar(l, item), item) == l
      <==> l.activeSidebarItem.None? || l.activeSidebarItem == Some(item)
  {
    if l.activeSidebarItem.Some? && l.activeSidebarItem != Some(item) {
      assert ToggleSidebar(ToggleSidebar(l, item), item).activeSidebarItem.None?;
    }
  }

  /** `toggleView(item)`: flips the item's membership in the toggle set. */
  function ToggleView(l: UserLayout, item: string): (r: UserLayout)
    ensures item in r.activeToggles <==> item !in l.activeToggles
    ensures forall x :: x != item ==> (x in r.activeToggles <==> x in l.activeToggles)
    ensures r == l.(activeToggles := r.activeToggles)
  {
    var toggles := if item in l.activeToggles then l.activeToggles - {item} else l.activeToggles + {item};
    l.(activeToggles := toggles)
  }

  /** Toggling a view twice restores the layout. */
  lemma ToggleViewInvolution(l: UserLayout, item: string)
    ensures ToggleView(ToggleView(l, item), item) == l
  {
    var r := ToggleView(ToggleView(l, item), item);
    assert r.activeToggles == l.activeToggles;
  }

  /** The table height in effect: the stored one, or 300. */
  function TableHeight(l: UserLayout): int
  {
    if l.tableView.Some? && l.tableView.value.height.Some? then l.tableView.value.height.value
    else DEFAULT_TABLE_HEIGHT
  }

  /** `onTableViewResizeStop`: the height grows by the drag's delta. */
  function ResizeTable(l: UserLayout, delta: int): (r: UserLayout)
    ensures r.tableView.Some? && r.tableView.value.height == Some(TableHeight(l) + delta)
    ensures r == l.(tableView := r.tableView)
  {
    l.(tableView := Some(TableView(Some(TableHeight(l) + delta))))
  }

  /** Two resizes add up, and a resize by 0 only records the height in effect. */
  lemma ResizeAdds(l: UserLayout, a: int, b: int)
    ensures TableHeight(ResizeTable(ResizeTable(l, a), b)) == TableHeight(l) + a + b
    ensures TableHeight(ResizeTable(l, 0)) == TableHeight(l)
  {
  }

  /** `config?.connection?.queryEngine === "sparql"`. */
  function HasNamespaces(connection: Option<ConnectionConfig>): bool
  {
    connection.Some? && connection.value.queryEngine == Some(Sparql)
  }

  /** Namespaces exist exactly for a SPARQL connection; an absent engine is Gremlin. */
  lemma HasNamespacesIffSparql(connection: Option<ConnectionConfig>)
    ensures HasNamespaces(connection) <==> connection.Some? && EffectiveEngine(connection.value) == Sparql
  {
  }

  /** `isSidebarOpen`: the namespaces panel never counts as open without namespaces. */
  function IsSidebarOpen(hasNamespaces: bool, l: UserLayout): (r: bool)
    ensures r <==> l.activeSidebarItem.Some? && (hasNamespaces || l.activeSidebarItem.value != NAMESPACES)
  {
    if !hasNamespaces && l.activeSidebarItem == Some(NAMESPACES) then false
    else l.activeSidebarItem.Some?
  }

  /**
   * The auto-open decision behind the debounce: the details panel opens
   * only when exactly one node or edge is selected, auto-open is not turned
   * off, and neither the current nor the previous sidebar item is set. The
   * result is the new layout, or nothing when the layout is left alone.
   */
  function AutoOpenDetails(nodesSelected: nat, edgesSelected: nat, l: UserLayout, prevActiveSidebarItem: Option<string>): (r: Option<UserLayout>)
    ensures r.Some? <==>
      nodesSelected + edgesSelected == 1 && l.detailsAutoOpenOnSelection != Some(false)
      && l.activeSidebarItem.None? && prevActiveSidebarItem.None?
    ensures r.Some? ==> r.value == l.(activeSidebarItem := Some(DETAILS))
  {
    if nodesSelected + edgesSelected != 1 then None
    else if l.detailsAutoOpenOnSelection == Some(false) || l.activeSidebarItem.Some? then None
    else if prevActiveSidebarItem.Some? then None
    else Some(l.(activeSidebarItem := Some(DETAILS)))
  }

  /** After an auto-open the sidebar is open on the details, whatever the engine. */
  lemma AutoOpenOpensSidebar(nodesSelected: nat, edgesSelected: nat, l: UserLayout, prev: Option<string>, hasNamespaces: bool)
    requires AutoOpenDetails(nodesSelected, edgesSelected, l, prev).Some?
    ensures IsSidebarOpen(hasNamespaces, AutoOpenDetails(nodesSelected, edgesSelected, l, prev).value)
    ensures !IsSidebarOpen(hasNamespaces, l)
  {
  }
}
