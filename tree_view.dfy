/**
 * The two tree views of the editor (`TabTreeDataProvider` in
 * flowtabs/src/views/TabTreeDataProvider.ts): the stored list, the children
 * shown, the label that tells favourites apart and the icon choice.
 */
module TreeView {
  import opened JsValues
  import opened Items
  import Seqs
  import Ranker

  /** Tabs whose url starts with this are never shown. */
  const NewTabPrefix: string := "chrome://newtab/"

  /** Windows are always shown; tabs unless they are a new-tab page. */
  function Shown(): Item -> bool {
    (x: Item) => !(x.Tab? && StartsWith(x.url, NewTabPrefix))
  }

  /** Where an element's icon comes from. */
  datatype IconChoice =
    | RemoteIcon(uri: string)   // a tab's favicon url
    | LocalIcon(path: string)   // a window icon file, relative to the extension
    | ThemeIcon(name: string)   // a built-in icon

  /** The icon of `getTreeItem`: the element's own icon when it has one,
      otherwise the built-in "globe" for a tab and "window" for a window. */
  function IconOf(element: Item): (r: IconChoice)
    ensures r.ThemeIcon? <==> element.icon == ""
    ensures r.ThemeIcon? ==> r.name == (if element.Tab? then "globe" else "window")
    ensures r.RemoteIcon? <==> element.Tab? && element.icon != ""
    ensures !r.ThemeIcon? ==> (r.RemoteIcon? && r.uri == element.icon) || (r.LocalIcon? && r.path == element.icon)
  {
    if element.Tab? then
      (if element.icon != "" then RemoteIcon(element.icon) else ThemeIcon("globe"))
    else
      (if element.icon != "" then LocalIcon(element.icon) else ThemeIcon("window"))
  }

  class TabTreeDataProvider {
    var tabs: seq<Item>
    /** How many times the view has been told to redraw. */
    var changes: nat
    const tabScoreCalculator: Ranker.TabScoreCalculator

    constructor(tabScoreCalculator: Ranker.TabScoreCalculator)
      ensures tabs == [] && changes == 0 && this.tabScoreCalculator == tabScoreCalculator
    {
      tabs := [];
      changes := 0;
      this.tabScoreCalculator := tabScoreCalculator;
    }

    /** The elements shown: every window and every tab that is not a new-tab
        page, in stored order. */
    function GetChildren(): (r: seq<Item>)
      reads this
      ensures forall x :: x in r <==> x in tabs && (x.Window? || !StartsWith(x.url, NewTabPrefix))
      ensures Seqs.IsSubsequence(r, tabs)
    {
      Seqs.FilterIsSubsequence(tabs, Shown());
      Seqs.Filter(tabs, Shown())
    }

    /** The label used for the favourite commands: "favoriteTab" exactly when
        the element's id is among the calculator's favourites. */
    function ContextValue(element: Item): (r: string)
      reads this, tabScoreCalculator
      ensures r == "favoriteTab" <==> element.id in Ids(tabScoreCalculator.favoriteTabs)
      ensures r != "favoriteTab" ==> r == "tab"
    {
      if tabScoreCalculator.CheckFavoriteTab(element) then "favoriteTab" else "tab"
    }

    /** Replaces the stored list and redraws. */
    method UpdateTabs(tabs: seq<Item>)
      modifies this
      ensures this.tabs == tabs && changes == old(changes) + 1
    {
      this.tabs := tabs;
      changes := changes + 1;
    }

    /** Redraws; the stored list stays. */
    method Refresh()
      modifies this
      ensures tabs == old(tabs) && changes == old(changes) + 1
    {
      changes := changes + 1;
    }
  }
}
