/**
 * The current relevance ranker (`TabScoreCalculator` in
 * flowtabs/src/tabScoreCalculator.ts): it holds the latest tab list and window
 * list, the favourites, and the list last evaluated.
 */
module Ranker {
  import opened JsValues
  import opened Items
  import opened Scoring
  import opened Ranking
  import Favourites

  /** The `type` argument of `updateItems`. */
  datatype ListKind = TabList | WindowList

  class TabScoreCalculator {
    /** The list last evaluated. */
    var tabs: seq<Item>
    var newTabs: seq<Item>
    var newWindows: seq<Item>
    var favoriteTabs: seq<Item>

    constructor(tabs: seq<Item>)
      ensures this.tabs == tabs && newTabs == [] && newWindows == [] && favoriteTabs == []
    {
      this.tabs := tabs;
      newTabs := [];
      newWindows := [];
      favoriteTabs := [];
    }

    /** Replaces the list named by `kind` and nothing else. */
    method UpdateItems(items: seq<Item>, kind: ListKind)
      modifies this
      ensures kind == TabList ==> newTabs == items && newWindows == old(newWindows)
      ensures kind == WindowList ==> newWindows == items && newTabs == old(newTabs)
      ensures tabs == old(tabs) && favoriteTabs == old(favoriteTabs)
    {
      if kind == TabList {
        newTabs := items;
      } else {
        newWindows := items;
      }
    }

    /** Favourite membership is by id alone: it holds exactly when the id is
        among the favourites' ids. */
    function CheckFavoriteTab(tab: Item): (r: bool)
      reads this
      ensures r <==> tab.id in Ids(favoriteTabs)
    {
      var r := HasId(favoriteTabs, tab.id);
      assert r ==> tab.id in Ids(favoriteTabs) by {
        if r {
          var x :| x in favoriteTabs && x.id == tab.id;
          var i :| 0 <= i < |favoriteTabs| && favoriteTabs[i] == x;
          assert Ids(favoriteTabs)[i] == tab.id;
        }
      }
      assert tab.id in Ids(favoriteTabs) ==> r by {
        if tab.id in Ids(favoriteTabs) {
          var i :| 0 <= i < |favoriteTabs| && Ids(favoriteTabs)[i] == tab.id;
          assert favoriteTabs[i] in favoriteTabs;
        }
      }
      r
    }

    /** Appends `tab` unless its id is already a favourite. */
    method AddFavoriteTab(tab: Item)
      modifies this
      ensures favoriteTabs == Favourites.Added(old(favoriteTabs), tab)
      ensures tabs == old(tabs) && newTabs == old(newTabs) && newWindows == old(newWindows)
    {
      if !CheckFavoriteTab(tab) {
        favoriteTabs := favoriteTabs + [tab];
      }
    }

    /** Drops every favourite with `tab`'s id. */
    method RemoveFavoriteTab(tab: Item)
      modifies this
      ensures favoriteTabs == Favourites.Removed(old(favoriteTabs), tab.id)
      ensures tabs == old(tabs) && newTabs == old(newTabs) && newWindows == old(newWindows)
    {
      favoriteTabs := Favourites.Removed(favoriteTabs, tab.id);
    }

    /** Evaluates the tabs followed by the windows: the evaluated list becomes
        their ranking, and the result is its split into the overflow and the
        relevant view. */
    method GetScore(now: int, decay: int -> real) returns (allTabs: seq<Item>, relevantTabsWithFavorites: seq<Item>)
      modifies this
      ensures tabs == Rank(newTabs + newWindows, FinalScores(newTabs + newWindows, now, decay))
      ensures allTabs == ScoreViews(newTabs + newWindows, favoriteTabs, now, decay).allTabs
      ensures relevantTabsWithFavorites == ScoreViews(newTabs + newWindows, favoriteTabs, now, decay).relevant
      ensures newTabs == old(newTabs) && newWindows == old(newWindows) && favoriteTabs == old(favoriteTabs)
    {
      tabs := newTabs + newWindows;
      var score := CalculateScore(tabs, now, decay);
      tabs := Rank(tabs, score);
      var views := Split(tabs, score, favoriteTabs);
      allTabs, relevantTabsWithFavorites := views.allTabs, views.relevant;
    }
  }
}
