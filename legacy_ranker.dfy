/**
 * The older relevance ranker (`TabScoreCalculator` in flowtabs/src/utils.ts):
 * one evaluated list, replaced wholesale and sorted in place by `getScore`,
 * and the favourites.
 */
module LegacyRanker {
  import opened JsValues
  import opened Items
  import opened Scoring
  import opened Ranking
  import Favourites
  import StableSort

  class TabScoreCalculator {
    var tabs: seq<Item>
    var favoriteTabs: seq<Item>

    constructor(tabs: seq<Item>)
      ensures this.tabs == tabs && favoriteTabs == []
    {
      this.tabs := tabs;
      favoriteTabs := [];
    }

    /** Replaces the evaluated list and leaves the favourites alone. */
    method UpdateTabs(newTabs: seq<Item>)
      modifies this
      ensures tabs == newTabs && favoriteTabs == old(favoriteTabs)
    {
      tabs := newTabs;
    }

    /** Favourite membership is by id alone: it holds exactly when some
        favourite carries the id, wherever it sits in the list. */
    function CheckFavoriteTab(tab: Item): (r: bool)
      reads this
      ensures r <==> FirstWithId(favoriteTabs, tab.id).Some?
    {
      HasId(favoriteTabs, tab.id)
    }

    method AddFavoriteTab(tab: Item)
      modifies this
      ensures favoriteTabs == Favourites.Added(old(favoriteTabs), tab)
      ensures tabs == old(tabs)
    {
      if !CheckFavoriteTab(tab) {
        favoriteTabs := favoriteTabs + [tab];
      }
    }

    method RemoveFavoriteTab(tab: Item)
      modifies this
      ensures favoriteTabs == Favourites.Removed(old(favoriteTabs), tab.id)
      ensures tabs == old(tabs)
    {
      favoriteTabs := Favourites.Removed(favoriteTabs, tab.id);
    }

    /** Scores the evaluated list, leaves it sorted by non-increasing score as a
        permutation of what it was, and returns the older split. */
    method GetScore(now: int, decay: int -> real) returns (allTabs: seq<Item>, relevantTabs: seq<Item>)
      modifies this
      ensures StableSort.SortedDesc(tabs, ScoreKey(FinalScores(old(tabs), now, decay)))
      ensures multiset(tabs) == multiset(old(tabs))
      ensures tabs == Rank(old(tabs), FinalScores(old(tabs), now, decay))
      ensures allTabs == LegacyScoreViews(old(tabs), favoriteTabs, now, decay).allTabs
      ensures relevantTabs == LegacyScoreViews(old(tabs), favoriteTabs, now, decay).relevant
      ensures favoriteTabs == old(favoriteTabs)
    {
      var score := CalculateScore(tabs, now, decay);
      RankIsStableSort(tabs, score);
      tabs := Rank(tabs, score);
      var views := LegacySplit(tabs, score, favoriteTabs);
      allTabs, relevantTabs := views.allTabs, views.relevant;
    }
  }
}
