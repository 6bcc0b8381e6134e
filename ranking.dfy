/**
 * The ranking and the split into the two views (`getScore` in
 * flowtabs/src/tabScoreCalculator.ts and in flowtabs/src/utils.ts): the list is
 * sorted by score, favourites are separated from the rest, and the rest is cut
 * at the first item scoring below 0.5.
 */
module Ranking {
  import opened JsValues
  import opened Items
  import opened Scoring
  import Seqs
  import StableSort

  /** Items scoring below this go to the overflow view. */
  const Threshold: real := 0.5

  function IsFavourite(favs: seq<Item>): Item -> bool {
    (x: Item) => HasId(favs, x.id)
  }

  function NotFavourite(favs: seq<Item>): Item -> bool {
    Seqs.Not(IsFavourite(favs))
  }

  /** `s.findIndex(t => score[t.id] < 0.5)`, with `None` for -1. */
  function FirstBelow(s: seq<Item>, score: map<Key, real>): (r: Option<nat>)
    ensures r.None? ==> forall i :: 0 <= i < |s| ==> ScoreKey(score)(s[i]) >= Threshold
    ensures r.Some? ==> r.value < |s| && ScoreKey(score)(s[r.value]) < Threshold
                        && forall j :: 0 <= j < r.value ==> ScoreKey(score)(s[j]) >= Threshold
  {
    if s == [] then None
    else if ScoreKey(score)(s[0]) < Threshold then Some(0)
    else match FirstBelow(s[1..], score)
      case None => None
      case Some(i) => Some(i + 1)
  }

  /** The two outputs of `getScore`: the overflow list `allTabs` and the
      relevant list. */
  datatype Views = Views(allTabs: seq<Item>, relevant: seq<Item>)

  /** `tabs.sort((a, b) => score[b.id] - score[a.id])`. */
  function Rank(items: seq<Item>, score: map<Key, real>): seq<Item> {
    StableSort.SortDesc(items, ScoreKey(score))
  }

  function Favourites(ranked: seq<Item>, favs: seq<Item>): seq<Item> {
    Seqs.Filter(ranked, IsFavourite(favs))
  }

  function Others(ranked: seq<Item>, favs: seq<Item>): seq<Item> {
    Seqs.Filter(ranked, NotFavourite(favs))
  }

  /** The split of the current ranker: the favourites always follow the
      relevant prefix (`relevantTabsWithFavorites`). */
  function Split(ranked: seq<Item>, score: map<Key, real>, favs: seq<Item>): Views {
    var favourites, others := Favourites(ranked, favs), Others(ranked, favs);
    var c := Cut(others, score);
    Views(others[c..], others[..c] + favourites)
  }

  /** The split of the older ranker as written: the favourites are appended only
      when some non-favourite scores below 0.5. */
  function LegacySplit(ranked: seq<Item>, score: map<Key, real>, favs: seq<Item>): Views {
    var favourites, others := Favourites(ranked, favs), Others(ranked, favs);
    match FirstBelow(others, score)
    case None => Views([], others)
    case Some(i) => Views(others[i..], others[..i] + favourites)
  }

  /** The ranked list is the input sorted by non-increasing score, a permutation
      of the input, and items with equal scores keep their input order. */
  lemma RankIsStableSort(items: seq<Item>, score: map<Key, real>)
    ensures StableSort.SortedDesc(Rank(items, score), ScoreKey(score))
    ensures multiset(Rank(items, score)) == multiset(items)
    ensures forall v :: StableSort.KeyFilter(Rank(items, score), ScoreKey(score), v)
                        == StableSort.KeyFilter(items, ScoreKey(score), v)
  {
    StableSort.SortDescStable(items, ScoreKey(score));
  }

  /** Without any assumption on order: the relevant view is a prefix of
      non-favourites scoring at least 0.5 followed by all the favourites, in
      ranked order; that prefix followed by the overflow view is the
      non-favourites in ranked order. */
  lemma {:induction false} SplitFavouritesAtTail(ranked: seq<Item>, score: map<Key, real>, favs: seq<Item>)
    ensures var v, fs := Split(ranked, score, favs), Favourites(ranked, favs);
      && |fs| <= |v.relevant|
      && v.relevant[|v.relevant| - |fs|..] == fs
      && v.relevant[..|v.relevant| - |fs|] + v.allTabs == Others(ranked, favs)
      && forall i :: 0 <= i < |v.relevant| - |fs| ==>
           !HasId(favs, v.relevant[i].id) && ScoreKey(score)(v.relevant[i]) >= Threshold
  {
    var v, fs, others := Split(ranked, score, favs), Favourites(ranked, favs), Others(ranked, favs);
    var k := Cut(others, score);
    assert v.relevant == others[..k] + fs;
    Seqs.PartsOfAppend(others[..k], fs);
    Seqs.CutJoin(others, k);
    forall i | 0 <= i < k ensures !HasId(favs, others[i].id) {
      assert others[i] in others;
    }
  }

  /** On a list sorted by score each part of the views keeps the ranked order:
      the overflow view, the non-favourite prefix of the relevant view and its
      favourite tail are each sorted by non-increasing score. (The relevant
      view as a whole is not: a favourite may outscore the items before it.) */
  lemma {:induction false} SplitKeepsSorted(ranked: seq<Item>, score: map<Key, real>, favs: seq<Item>)
    requires StableSort.SortedDesc(ranked, ScoreKey(score))
    ensures var v, fs := Split(ranked, score, favs), Favourites(ranked, favs);
      && |fs| <= |v.relevant|
      && StableSort.SortedDesc(v.allTabs, ScoreKey(score))
      && StableSort.SortedDesc(v.relevant[..|v.relevant| - |fs|], ScoreKey(score))
      && StableSort.SortedDesc(v.relevant[|v.relevant| - |fs|..], ScoreKey(score))
  {
    var v, fs, others := Split(ranked, score, favs), Favourites(ranked, favs), Others(ranked, favs);
    var c := Cut(others, score);
    assert StableSort.SortedDesc(others, ScoreKey(score)) by {
      StableSort.FilterKeepsSorted(ranked, NotFavourite(favs), ScoreKey(score));
    }
    assert StableSort.SortedDesc(fs, ScoreKey(score)) by {
      StableSort.FilterKeepsSorted(ranked, IsFavourite(favs), ScoreKey(score));
    }
    StableSort.CutKeepsSorted(others, c, ScoreKey(score));
    assert v.relevant == others[..c] + fs;
    Seqs.PartsOfAppend(others[..c], fs);
  }

  /** Without any assumption on order: the overflow view holds no favourite and
      starts below 0.5. */
  lemma {:induction false} SplitOverflowHasNoFavourite(ranked: seq<Item>, score: map<Key, real>, favs: seq<Item>)
    ensures var v := Split(ranked, score, favs);
      && (forall x :: x in v.allTabs ==> x in ranked && !HasId(favs, x.id))
      && (v.allTabs != [] ==> ScoreKey(score)(v.allTabs[0]) < Threshold)
  {
    var others := Others(ranked, favs);
    match FirstBelow(others, score)
    case None =>
    case Some(i) =>
      forall x | x in others[i..] ensures x in others {
        var j :| i <= j < |others| && others[j] == x;
      }
  }

  /** The two views together are a permutation of the ranked list. */
  lemma {:induction false} SplitIsPermutation(ranked: seq<Item>, score: map<Key, real>, favs: seq<Item>)
    ensures var v := Split(ranked, score, favs);
      multiset(v.relevant) + multiset(v.allTabs) == multiset(ranked)
  {
    var favourites, others := Favourites(ranked, favs), Others(ranked, favs);
    Seqs.FilterComplement(ranked, IsFavourite(favs));
    assert multiset(favourites) + multiset(others) == multiset(ranked);
    var c := Cut(others, score);
    var v := Split(ranked, score, favs);
    assert v.relevant == others[..c] + favourites && v.allTabs == others[c..];
    Seqs.CutMultiset(others, c);
    assert multiset(v.relevant) == multiset(others[..c]) + multiset(favourites);
  }

  /** Where the non-favourites are cut: at the first item below 0.5, or after
      the last item when there is none. */
  function Cut(s: seq<Item>, score: map<Key, real>): (c: nat)
    ensures c <= |s|
  {
    match FirstBelow(s, score) case None => |s| case Some(i) => i
  }

  /** On a sorted list, the items before the cut are exactly those at or above
      0.5. */
  lemma CutIndices(s: seq<Item>, score: map<Key, real>)
    requires StableSort.SortedDesc(s, ScoreKey(score))
    ensures forall j :: 0 <= j < |s| ==> (j < Cut(s, score) <==> ScoreKey(score)(s[j]) >= Threshold)
  {
  }

  /** A cut that separates the elements satisfying `p` from the others by
      position separates them by membership too. */
  lemma {:induction false} CutMembership<T>(s: seq<T>, c: nat, p: T -> bool)
    requires c <= |s|
    requires forall j :: 0 <= j < |s| ==> (j < c <==> p(s[j]))
    ensures forall x :: x in s[..c] <==> x in s && p(x)
    ensures forall x :: x in s[c..] <==> x in s && !p(x)
  {
    forall x | x in s[..c] ensures x in s && p(x) {
      var j :| 0 <= j < c && s[..c][j] == x;
      assert s[j] == x;
    }
    forall x | x in s[c..] ensures x in s && !p(x) {
      var j :| 0 <= j < |s| - c && s[c..][j] == x;
      assert s[c + j] == x;
    }
    forall x | x in s ensures (p(x) ==> x in s[..c]) && (!p(x) ==> x in s[c..]) {
      var j :| 0 <= j < |s| && s[j] == x;
      if j < c { assert s[..c][j] == x; } else { assert s[c..][j - c] == x; }
    }
  }

  function AtLeastThreshold(score: map<Key, real>): Item -> bool {
    (x: Item) => ScoreKey(score)(x) >= Threshold
  }

  /** On a sorted list, the items from the cut onwards are exactly those below
      0.5, and the items before it those at or above. */
  lemma CutAtFirstBelow(s: seq<Item>, score: map<Key, real>)
    requires StableSort.SortedDesc(s, ScoreKey(score))
    ensures forall x :: x in s[Cut(s, score)..] <==> x in s && ScoreKey(score)(x) < Threshold
    ensures forall x :: x in s[..Cut(s, score)] <==> x in s && ScoreKey(score)(x) >= Threshold
  {
    CutIndices(s, score);
    CutMembership(s, Cut(s, score), AtLeastThreshold(score));
  }

  /** On a list sorted by score the overflow view holds exactly the
      non-favourites scoring below 0.5. */
  lemma SplitOverflowExactly(ranked: seq<Item>, score: map<Key, real>, favs: seq<Item>)
    requires StableSort.SortedDesc(ranked, ScoreKey(score))
    ensures forall x :: x in Split(ranked, score, favs).allTabs
                        <==> x in ranked && !HasId(favs, x.id) && ScoreKey(score)(x) < Threshold
  {
    var others := Others(ranked, favs);
    StableSort.FilterKeepsSorted(ranked, NotFavourite(favs), ScoreKey(score));
    CutAtFirstBelow(others, score);
    assert others[|others|..] == [];
  }

  /** On a list sorted by score the relevant view holds exactly the favourites
      and the non-favourites scoring at least 0.5. */
  lemma SplitRelevantExactly(ranked: seq<Item>, score: map<Key, real>, favs: seq<Item>)
    requires StableSort.SortedDesc(ranked, ScoreKey(score))
    ensures forall x :: x in Split(ranked, score, favs).relevant
                        <==> x in ranked && (HasId(favs, x.id) || ScoreKey(score)(x) >= Threshold)
  {
    var others := Others(ranked, favs);
    StableSort.FilterKeepsSorted(ranked, NotFavourite(favs), ScoreKey(score));
    CutAtFirstBelow(others, score);
    assert others[..|others|] == others;
  }

  /** When some non-favourite scores below 0.5 the older ranker agrees with the
      current one. */
  lemma LegacySplitAgreesWhenSomeBelow(ranked: seq<Item>, score: map<Key, real>, favs: seq<Item>)
    requires FirstBelow(Others(ranked, favs), score).Some?
    ensures LegacySplit(ranked, score, favs) == Split(ranked, score, favs)
  {
  }

  /** When no non-favourite scores below 0.5 the older ranker returns exactly the
      non-favourites as relevant, an empty overflow, and no favourite at all. */
  lemma LegacySplitDropsFavourites(ranked: seq<Item>, score: map<Key, real>, favs: seq<Item>)
    requires FirstBelow(Others(ranked, favs), score).None?
    ensures LegacySplit(ranked, score, favs) == Views([], Others(ranked, favs))
    ensures forall x :: x in LegacySplit(ranked, score, favs).relevant ==> !HasId(favs, x.id)
    ensures LegacySplit(ranked, score, favs).allTabs == []
  {
  }

  /** A favourite the older ranker loses and the current one keeps: the only
      item is a favourite, so no non-favourite falls below 0.5. */
  lemma LegacyLosesOnlyFavourite(fav: Item, score: map<Key, real>)
    ensures LegacySplit([fav], score, [fav]) == Views([], [])
    ensures Split([fav], score, [fav]) == Views([], [fav])
  {
    assert HasId([fav], fav.id) by { assert fav in [fav]; }
    assert Seqs.Filter([fav], NotFavourite([fav])) == [];
    assert Seqs.Filter([fav], IsFavourite([fav])) == [fav];
  }

  /** What `getScore` returns for the evaluated list `items`: the list is
      scored, ranked and split. */
  function ScoreViews(items: seq<Item>, favs: seq<Item>, now: int, decay: int -> real): Views {
    var score := FinalScores(items, now, decay);
    Split(Rank(items, score), score, favs)
  }

  /** What the older `getScore` returns for `items`. */
  function LegacyScoreViews(items: seq<Item>, favs: seq<Item>, now: int, decay: int -> real): Views {
    var score := FinalScores(items, now, decay);
    LegacySplit(Rank(items, score), score, favs)
  }

  /** End to end: the overflow view is exactly the non-favourites of the list
      scoring below 0.5, the relevant view exactly the favourites and the
      non-favourites scoring at least 0.5, and together they are a permutation
      of the list. */
  lemma ScoreViewsExactly(items: seq<Item>, favs: seq<Item>, now: int, decay: int -> real)
    ensures var score, v := FinalScores(items, now, decay), ScoreViews(items, favs, now, decay);
      && (forall x :: x in v.allTabs
                      <==> x in items && !HasId(favs, x.id) && ScoreKey(score)(x) < Threshold)
      && (forall x :: x in v.relevant
                      <==> x in items && (HasId(favs, x.id) || ScoreKey(score)(x) >= Threshold))
      && multiset(v.relevant) + multiset(v.allTabs) == multiset(items)
    ensures var score, v := FinalScores(items, now, decay), ScoreViews(items, favs, now, decay);
      var ranked := Rank(items, score);
      var fs := Favourites(ranked, favs);
      && |fs| <= |v.relevant|
      && v.relevant[|v.relevant| - |fs|..] == fs
      && v.relevant[..|v.relevant| - |fs|] + v.allTabs == Others(ranked, favs)
      && StableSort.SortedDesc(v.allTabs, ScoreKey(score))
      && StableSort.SortedDesc(v.relevant[..|v.relevant| - |fs|], ScoreKey(score))
      && StableSort.SortedDesc(v.relevant[|v.relevant| - |fs|..], ScoreKey(score))
  {
    var score := FinalScores(items, now, decay);
    var ranked := Rank(items, score);
    assert StableSort.SortedDesc(ranked, ScoreKey(score)) && multiset(ranked) == multiset(items) by {
      RankIsStableSort(items, score);
    }
    assert forall x :: x in ranked <==> x in items by {
      forall x ensures x in ranked <==> x in items {
        assert x in ranked <==> x in multiset(ranked);
        assert x in items <==> x in multiset(items);
      }
    }
    SplitOverflowExactly(ranked, score, favs);
    SplitRelevantExactly(ranked, score, favs);
    SplitIsPermutation(ranked, score, favs);
    SplitFavouritesAtTail(ranked, score, favs);
    SplitKeepsSorted(ranked, score, favs);
  }
}
