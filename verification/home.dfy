/**
 `HomeTab` and the page as a whole (app/page.tsx). The home tab owns the
 table filter, which a click on a tree node replaces by that node's
 `(category, value)` pair; the page holds the tab set, the home tab and the
 login tab side by side. Hidden panels stay mounted, so switching tabs keeps
 every other component's state.
 The lookup of the clicked node in the tree is not modelled: the click
 handler receives the pair directly.
 */
module Home {
  import opened Options
  import opened Customers
  import opened Login
  import opened Tabs

  datatype HomeState = HomeState(tableFilter: Option<Filter>)

  function InitialHome(): HomeState
  {
    HomeState(None)
  }

  /** `filterTableData`: the clicked node's pair becomes the filter. */
  function ClickNode(h: HomeState, category: Category, value: string): (r: HomeState)
    ensures r.tableFilter == Some(Filter(category, value))
  {
    HomeState(Some(Filter(category, value)))
  }

  /** The rows the table receives for the given fixture. */
  function VisibleRows(items: seq<Item>, h: HomeState): seq<Row>
  {
    FilteredRows(items, h.tableFilter)
  }

  datatype AppState = AppState(tabs: Tabset, home: HomeState, login: LoginState)

  function InitialApp(): AppState
  {
    AppState(InitialTabset(), InitialHome(), InitialLogin())
  }

  /** A selection in the tab menu. */
  function ChangeTab(a: AppState, v: int): (r: AppState)
    ensures r.tabs.tabIndex == v && r.home == a.home && r.login == a.login
  {
    a.(tabs := HandleChange(a.tabs, v))
  }

  // ---------------------------------------------------------------------

  /** Before any click the table shows every row of the fixture. */
  lemma InitialShowsAll(items: seq<Item>)
    ensures VisibleRows(items, InitialHome()) == Rows(items)
    ensures |VisibleRows(items, InitialHome())| == |items|
  {
  }

  /** After a click on a node the table shows exactly the rows whose named
      field equals the node's value, in fixture order, whatever filter was
      there before. */
  lemma ClickNodeShowsMatching(items: seq<Item>, h: HomeState, c: Category, v: string, x: Row)
    ensures VisibleRows(items, ClickNode(h, c, v)) == Keep(Rows(items), Filter(c, v))
    ensures x in VisibleRows(items, ClickNode(h, c, v)) <==> x in Rows(items) && Field(x, c) == v
    ensures |VisibleRows(items, ClickNode(h, c, v))| <= |items|
  {
    KeepSoundAndComplete(Rows(items), Filter(c, v), x);
  }

  /** A second click replaces the first filter; it does not narrow it. */
  lemma ClickNodeReplaces(h: HomeState, c1: Category, v1: string, c2: Category, v2: string)
    ensures ClickNode(ClickNode(h, c1, v1), c2, v2) == ClickNode(h, c2, v2)
  {
  }

  /** Switching tabs changes only the active index: switching to another
      tab and back leaves the filter and the typed login fields as they
      were. */
  lemma TabSwitchKeepsState(a: AppState, v: int)
    ensures ChangeTab(a, v).home == a.home && ChangeTab(a, v).login == a.login
    ensures ChangeTab(ChangeTab(a, v), a.tabs.tabIndex) == a
  {
  }
}
