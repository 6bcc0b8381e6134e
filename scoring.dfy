/**
 * The score maps of the rankers (`calculateFrequency`, `calculateRecency` and
 * `calculateScore` in flowtabs/src/tabScoreCalculator.ts and flowtabs/src/utils.ts),
 * as functions of the evaluated list. Each map is keyed by item id and filled by
 * one pass over the list, so a later item overwrites an earlier one with the
 * same id.
 *
 * The recency term `Math.exp(-0.07 * elapsedMinutes) || 0` is the parameter
 * `decay`, applied to the elapsed milliseconds `now - lastAccessed`; an item
 * without `lastAccessed` gets `NaN || 0`, that is 0.
 */
module Scoring {
  import opened JsValues
  import opened Items

  /** Weight of the frequency share. */
  const Alpha: real := 0.3
  /** Weight of the recency term. */
  const Beta: real := 0.7

  /** `items.forEach(x => m[x.id] = f(x))` on an empty map. */
  function ScoreMapOf(items: seq<Item>, f: Item -> real): (m: map<Key, real>)
    ensures forall k :: k in m <==> HasId(items, k)
  {
    if items == [] then map[]
    else
      var init, last := items[..|items| - 1], items[|items| - 1];
      assert items == init + [last];
      ScoreMapOf(init, f)[last.id := f(last)]
  }

  /** The entry for an id is computed from the last item that carries it. */
  lemma {:induction false} ScoreMapOfLast(items: seq<Item>, f: Item -> real, i: nat)
    requires i < |items|
    requires forall j :: i < j < |items| ==> items[j].id != items[i].id
    ensures ScoreMapOf(items, f)[items[i].id] == f(items[i])
  {
    var n := |items| - 1;
    var init, last := items[..n], items[n];
    assert ScoreMapOf(items, f) == ScoreMapOf(init, f)[last.id := f(last)];
    if i < n {
      assert init[i] == items[i];
      assert forall j :: i < j < |init| ==> init[j] == items[j];
      ScoreMapOfLast(init, f, i);
      assert last.id != items[i].id;
    }
  }

  /** Every entry lies within the bounds that `f` keeps on the items. */
  lemma {:induction false} ScoreMapOfRange(items: seq<Item>, f: Item -> real, lo: real, hi: real)
    requires forall i :: 0 <= i < |items| ==> lo <= f(items[i]) <= hi
    ensures forall k :: k in ScoreMapOf(items, f) ==> lo <= ScoreMapOf(items, f)[k] <= hi
  {
    if items != [] {
      ScoreMapOfRange(items[..|items| - 1], f, lo, hi);
    }
  }

  /** `items.reduce((acc, x) => acc + (x.frequency || 0), 0)`. */
  function SumFrequency(items: seq<Item>): nat {
    if items == [] then 0 else SumFrequency(items[..|items| - 1]) + items[|items| - 1].frequency
  }

  lemma {:induction false} FrequencyAtMostSum(items: seq<Item>, i: nat)
    requires i < |items|
    ensures items[i].frequency <= SumFrequency(items)
  {
    var n := |items| - 1;
    if i < n {
      assert items[..n][i] == items[i];
      FrequencyAtMostSum(items[..n], i);
    }
  }

  /** `x.frequency / total || 0`: the share of the total, and 0 when the total is
      0 (then `0 / 0` is `NaN`). */
  function FreqScore(total: nat): Item -> real {
    (x: Item) => if total == 0 then 0.0 else x.frequency as real / total as real
  }

  function FrequencyScores(items: seq<Item>): map<Key, real> {
    ScoreMapOf(items, FreqScore(SumFrequency(items)))
  }

  function RecencyOf(now: int, decay: int -> real): Item -> real {
    (x: Item) => match x.lastAccessed
      case None => 0.0
      case Some(t) => decay(now - t)
  }

  function RecencyScores(items: seq<Item>, now: int, decay: int -> real): map<Key, real> {
    ScoreMapOf(items, RecencyOf(now, decay))
  }

  /** `score[id] = 0.3 * frequency[id] + 0.7 * recency[id]` for every id of the list. */
  function FinalScores(items: seq<Item>, now: int, decay: int -> real): (r: map<Key, real>)
    ensures forall k :: k in r <==> HasId(items, k)
  {
    var freq, rec := FrequencyScores(items), RecencyScores(items, now, decay);
    map k | k in freq :: Alpha * freq[k] + Beta * rec[k]
  }

  /** The sort key: the score of the item's id (every id of the list has one). */
  function ScoreKey(score: map<Key, real>): Item -> real {
    (x: Item) => if x.id in score then score[x.id] else 0.0
  }

  /** With a zero total every frequency score is 0. */
  lemma ZeroTotalGivesZeroScores(items: seq<Item>)
    requires SumFrequency(items) == 0
    ensures forall k :: k in FrequencyScores(items) ==> FrequencyScores(items)[k] == 0.0
  {
    ScoreMapOfRange(items, FreqScore(0), 0.0, 0.0);
  }

  /** Every frequency score is a share between 0 and 1. */
  lemma FrequencyScoresInUnitRange(items: seq<Item>)
    ensures forall k :: k in FrequencyScores(items) ==> 0.0 <= FrequencyScores(items)[k] <= 1.0
  {
    var total := SumFrequency(items);
    forall i | 0 <= i < |items| ensures 0.0 <= FreqScore(total)(items[i]) <= 1.0 {
      FrequencyAtMostSum(items, i);
      if total > 0 {
        assert items[i].frequency as real <= total as real;
      }
    }
    ScoreMapOfRange(items, FreqScore(total), 0.0, 1.0);
  }

  /** `Σ scores[x.id]` over the list. */
  function SumScores(items: seq<Item>, scores: map<Key, real>): real {
    if items == [] then 0.0
    else
      var last := items[|items| - 1];
      SumScores(items[..|items| - 1], scores) + (if last.id in scores then scores[last.id] else 0.0)
  }

  lemma AddShares(a: real, b: real, t: real)
    requires t > 0.0
    ensures a / t + b / t == (a + b) / t
  {
    var q1, q2 := a / t, b / t;
    assert q1 * t == a && q2 * t == b;
    assert (q1 + q2) * t == a + b;
  }

  lemma DivSelf(t: real)
    requires t > 0.0
    ensures t / t == 1.0
  {
  }

  lemma {:induction false} SumOfShares(items: seq<Item>, scores: map<Key, real>, total: nat)
    requires total > 0
    requires forall i :: 0 <= i < |items| ==>
               items[i].id in scores && scores[items[i].id] == items[i].frequency as real / total as real
    ensures SumScores(items, scores) == SumFrequency(items) as real / total as real
  {
    if items != [] {
      var n := |items| - 1;
      var init := items[..n];
      assert forall i :: 0 <= i < |init| ==> init[i] == items[i];
      SumOfShares(init, scores, total);
      AddShares(SumFrequency(init) as real, items[n].frequency as real, total as real);
    }
  }

  /** For a list with distinct ids and a positive total, the frequency scores of
      the items add up to 1. */
  lemma FrequencyScoresSumToOne(items: seq<Item>)
    requires DistinctIds(items)
    requires SumFrequency(items) > 0
    ensures SumScores(items, FrequencyScores(items)) == 1.0
  {
    var total := SumFrequency(items);
    var freq := FrequencyScores(items);
    forall i | 0 <= i < |items|
      ensures items[i].id in freq && freq[items[i].id] == items[i].frequency as real / total as real
    {
      assert HasId(items, items[i].id) by { assert items[i] in items; }
      ScoreMapOfLast(items, FreqScore(total), i);
      assert FreqScore(total)(items[i]) == items[i].frequency as real / total as real;
    }
    SumOfShares(items, freq, total);
    DivSelf(total as real);
  }

  /** The score of an item that is the last one with its id: 0.3 times its share
      of the total frequency (0 for a zero total) plus 0.7 times its recency. */
  lemma FinalScoreOfItem(items: seq<Item>, now: int, decay: int -> real, i: nat)
    requires i < |items|
    requires forall j :: i < j < |items| ==> items[j].id != items[i].id
    ensures items[i].id in FinalScores(items, now, decay)
    ensures FinalScores(items, now, decay)[items[i].id]
            == Alpha * (if SumFrequency(items) == 0 then 0.0
                        else items[i].frequency as real / SumFrequency(items) as real)
               + Beta * RecencyOf(now, decay)(items[i])
  {
    assert HasId(items, items[i].id) by { assert items[i] in items; }
    ScoreMapOfLast(items, FreqScore(SumFrequency(items)), i);
    ScoreMapOfLast(items, RecencyOf(now, decay), i);
  }

  /** When the recency term stays within [0, 1], so does every final score. */
  lemma FinalScoresInUnitRange(items: seq<Item>, now: int, decay: int -> real)
    requires forall e :: 0.0 <= decay(e) <= 1.0
    ensures forall k :: k in FinalScores(items, now, decay) ==> 0.0 <= FinalScores(items, now, decay)[k] <= 1.0
  {
    FrequencyScoresInUnitRange(items);
    forall i | 0 <= i < |items| ensures 0.0 <= RecencyOf(now, decay)(items[i]) <= 1.0 {
      match items[i].lastAccessed
      case None =>
      case Some(t) => assert 0.0 <= decay(now - t) <= 1.0;
    }
    ScoreMapOfRange(items, RecencyOf(now, decay), 0.0, 1.0);
  }

  /** Having an id after appending one item. */
  lemma HasIdSnoc(s: seq<Item>, x: Item, k: Key)
    ensures HasId(s + [x], k) <==> HasId(s, k) || x.id == k
  {
    if HasId(s + [x], k) {
      var y :| y in s + [x] && y.id == k;
      assert y in s || y == x;
    }
    if HasId(s, k) {
      var y :| y in s && y.id == k;
      assert y in s + [x];
    }
    assert x in s + [x];
  }

  /** `calculateFrequency`: a pass summing the frequencies (`reduce`), then a
      pass writing each item's share into the map (`forEach`). */
  method CalculateFrequency(tabs: seq<Item>) returns (scoreFrequency: map<Key, real>)
    ensures scoreFrequency == FrequencyScores(tabs)
  {
    var sumFrequency: nat := 0;
    var i := 0;
    while i < |tabs|
      invariant 0 <= i <= |tabs|
      invariant sumFrequency == SumFrequency(tabs[..i])
    {
      assert tabs[..i + 1][..i] == tabs[..i];
      sumFrequency := sumFrequency + tabs[i].frequency;
      i := i + 1;
    }
    assert tabs[..i] == tabs;
    scoreFrequency := map[];
    i := 0;
    while i < |tabs|
      invariant 0 <= i <= |tabs|
      invariant scoreFrequency == ScoreMapOf(tabs[..i], FreqScore(sumFrequency))
    {
      var tab := tabs[i];
      assert tabs[..i + 1][..i] == tabs[..i];
      scoreFrequency := scoreFrequency[tab.id :=
        if sumFrequency == 0 then 0.0 else tab.frequency as real / sumFrequency as real];
      i := i + 1;
    }
    assert tabs[..i] == tabs;
  }

  /** `calculateRecency`: a pass writing each item's recency into the map. */
  method CalculateRecency(tabs: seq<Item>, now: int, decay: int -> real) returns (scoreRecency: map<Key, real>)
    ensures scoreRecency == RecencyScores(tabs, now, decay)
  {
    scoreRecency := map[];
    var i := 0;
    while i < |tabs|
      invariant 0 <= i <= |tabs|
      invariant scoreRecency == ScoreMapOf(tabs[..i], RecencyOf(now, decay))
    {
      var tab := tabs[i];
      assert tabs[..i + 1][..i] == tabs[..i];
      var r := match tab.lastAccessed case None => 0.0 case Some(t) => decay(now - t);
      scoreRecency := scoreRecency[tab.id := r];
      i := i + 1;
    }
    assert tabs[..i] == tabs;
  }

  /** `calculateScore`: a pass that, for each item, recomputes both maps over
      the whole list and writes the weighted sum for the item's id. */
  method CalculateScore(tabs: seq<Item>, now: int, decay: int -> real) returns (score: map<Key, real>)
    ensures score == FinalScores(tabs, now, decay)
  {
    ghost var final := FinalScores(tabs, now, decay);
    score := map[];
    var i := 0;
    while i < |tabs|
      invariant 0 <= i <= |tabs|
      invariant forall j :: 0 <= j < i ==> tabs[j].id in score
      invariant forall k :: k in score ==> k in final && score[k] == final[k]
    {
      var tab := tabs[i];
      var frequency := CalculateFrequency(tabs);
      var recency := CalculateRecency(tabs, now, decay);
      assert HasId(tabs, tab.id) by { assert tab in tabs; }
      score := score[tab.id := Alpha * frequency[tab.id] + Beta * recency[tab.id]];
      i := i + 1;
    }
    forall k | k in final ensures k in score {
      var x :| x in tabs && x.id == k;
    }
  }
}
