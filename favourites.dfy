/**
 * The favourites list of both rankers (`checkFavoriteTab`, `addFavoriteTab`,
 * `removeFavoriteTab` in flowtabs/src/tabScoreCalculator.ts and
 * flowtabs/src/utils.ts): a list of items looked up by id only.
 */
module Favourites {
  import opened JsValues
  import opened Items
  import Seqs

  /** The list after `addFavoriteTab(t)`: `t` is appended unless an entry with
      its id is already there. */
  function Added(favs: seq<Item>, t: Item): (r: seq<Item>)
    ensures HasId(r, t.id)
    ensures HasId(favs, t.id) ==> r == favs
    ensures !HasId(favs, t.id) ==> r == favs + [t]
  {
    if HasId(favs, t.id) then favs else favs + [t]
  }

  function OtherId(k: Key): Item -> bool {
    (x: Item) => x.id != k
  }

  /** The list after `removeFavoriteTab(t)` with `t.id == k`: every entry with
      id `k` is gone, every other entry stays, and the order is kept. */
  function Removed(favs: seq<Item>, k: Key): (r: seq<Item>)
    ensures !HasId(r, k)
    ensures forall x :: x in r <==> x in favs && x.id != k
    ensures Seqs.IsSubsequence(r, favs)
  {
    Seqs.FilterIsSubsequence(favs, OtherId(k));
    Seqs.Filter(favs, OtherId(k))
  }

  /** Adding an item whose id is already a favourite, whatever its other fields,
      leaves the list unchanged; so adding twice is adding once. */
  lemma AddIdempotentById(favs: seq<Item>, t: Item, u: Item)
    requires u.id == t.id
    ensures Added(Added(favs, t), u) == Added(favs, t)
  {
  }

  /** Adding never creates a second entry with the same id. */
  lemma {:induction false} AddKeepsIdsDistinct(favs: seq<Item>, t: Item)
    requires DistinctIds(favs)
    ensures DistinctIds(Added(favs, t))
  {
    if !HasId(favs, t.id) {
      var r := favs + [t];
      forall i, j | 0 <= i < j < |r| ensures r[i].id != r[j].id {
        if j == |favs| {
          assert r[i] == favs[i];
        }
      }
    }
  }

  /** Removing an id that is not a favourite changes nothing. */
  lemma {:induction false} RemoveAbsentIsIdentity(favs: seq<Item>, k: Key)
    requires !HasId(favs, k)
    ensures Removed(favs, k) == favs
  {
    Seqs.FilterAllKept(favs, OtherId(k));
  }

  /** Removal undoes an addition of a new id. */
  lemma {:induction false} RemoveUndoesAdd(favs: seq<Item>, t: Item)
    requires !HasId(favs, t.id)
    ensures Removed(Added(favs, t), t.id) == favs
  {
    Seqs.FilterConcat(favs, [t], OtherId(t.id));
    Seqs.FilterAllKept(favs, OtherId(t.id));
    assert Seqs.Filter([t], OtherId(t.id)) == [];
  }
}
