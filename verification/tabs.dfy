/**
 `Tabset`, `TabMenu` and `TabPanel` (app/page.tsx). The tab set holds the
 active index; the menu offers four tabs; a panel is hidden exactly when its
 index differs from the active one. Only panels 0 (home) and 1 (login)
 exist, so selecting the third or fourth tab shows no panel.
 */
module Tabs {

  datatype Tabset = Tabset(tabIndex: int)

  function InitialTabset(): Tabset
  {
    Tabset(0)
  }

  /** `handleChange`: the menu reports the chosen index. */
  function HandleChange(t: Tabset, newValue: int): (r: Tabset)
    ensures r.tabIndex == newValue
  {
    Tabset(newValue)
  }

  /** The `hidden` attribute of `TabPanel`. */
  predicate PanelHidden(value: int, index: int) {
    value != index
  }

  /** The labels `TabMenu` renders; the menu reports a label's position. */
  function TabLabels(): seq<string>
  {
    ["Home", "Profile", "Messages", "Settings"]
  }

  /** The indices `Tabset` renders a panel for. */
  function PanelIndices(): seq<int>
  {
    [0, 1]
  }

  // ---------------------------------------------------------------------

  /** A change sets the index to the reported value, whatever it was. */
  lemma HandleChangeSets(t: Tabset, v: int)
    ensures HandleChange(t, v).tabIndex == v
    ensures HandleChange(HandleChange(t, v), v) == HandleChange(t, v)
  {
  }

  /** For any active index, at most one panel is visible, and the visible
      one is the panel whose index is the active one. */
  lemma AtMostOnePanelVisible(t: Tabset)
    ensures forall i, j :: 0 <= i < j < |PanelIndices()| ==>
      PanelHidden(t.tabIndex, PanelIndices()[i]) || PanelHidden(t.tabIndex, PanelIndices()[j])
    ensures forall i :: 0 <= i < |PanelIndices()| ==>
      (!PanelHidden(t.tabIndex, PanelIndices()[i]) <==> t.tabIndex == PanelIndices()[i])
  {
  }

  /** The page opens on the home panel. */
  lemma InitialShowsHome()
    ensures !PanelHidden(InitialTabset().tabIndex, 0) && PanelHidden(InitialTabset().tabIndex, 1)
  {
  }

  /** Choosing one of the first two menu tabs shows a panel; a menu tab
      beyond the second shows no panel at all. */
  lemma PanelsOfMenuTabs(t: Tabset, k: int)
    requires 0 <= k < |TabLabels()|
    ensures (exists i :: 0 <= i < |PanelIndices()| && !PanelHidden(HandleChange(t, k).tabIndex, PanelIndices()[i]))
            <==> k < 2
  {
    if k < 2 {
      assert !PanelHidden(HandleChange(t, k).tabIndex, PanelIndices()[k]);
    }
  }
}
