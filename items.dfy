/**
 * The items the ranker works on: browser tabs and OS windows (`Tab`, `Window`
 * and `TabOrWindow` in flowtabs/src/tabScoreCalculator.ts), and the lookups by
 * id that every component performs with `===`.
 */
module Items {
  import opened JsValues

  /** A tab or a window. An absent `frequency` behaves as 0 everywhere it is read
      (`frequency || 0`, `frequency / sum || 0`, `frequency ? frequency + 1 : 1`),
      so it is a `nat` here; an absent `lastAccessed` is `None`; an absent icon is "". */
  datatype Item =
    | Tab(id: Key, title: string, url: string, icon: string,
          lastAccessed: Option<int>, frequency: nat)
    | Window(id: Key, title: string, processName: string, icon: string, exePath: string,
             lastAccessed: Option<int>, frequency: nat)

  /** Some element of `s` has id `k` (`s.some(t => t.id === k)`). */
  predicate HasId(s: seq<Item>, k: Key) {
    exists x :: x in s && x.id == k
  }

  predicate DistinctIds(s: seq<Item>) {
    forall i, j :: 0 <= i < j < |s| ==> s[i].id != s[j].id
  }

  /** The ids of `s`, in order. */
  function Ids(s: seq<Item>): (r: seq<Key>)
    ensures |r| == |s| && forall i :: 0 <= i < |s| ==> r[i] == s[i].id
  {
    if s == [] then [] else [s[0].id] + Ids(s[1..])
  }

  /** The index of the first element with id `k` (`findIndex(t => t.id === k)`). */
  function FirstWithId(s: seq<Item>, k: Key): (r: Option<nat>)
    ensures r.None? <==> !HasId(s, k)
    ensures r.Some? ==> r.value < |s| && s[r.value].id == k
                        && forall j :: 0 <= j < r.value ==> s[j].id != k
  {
    if s == [] then None
    else if s[0].id == k then Some(0)
    else match FirstWithId(s[1..], k)
      case None => None
      case Some(i) => Some(i + 1)
  }

  /** The first index carrying an id is the one `FirstWithId` finds. */
  lemma FirstWithIdUnique(s: seq<Item>, k: Key, i: nat)
    requires i < |s| && s[i].id == k
    requires forall j :: 0 <= j < i ==> s[j].id != k
    ensures FirstWithId(s, k) == Some(i)
  {
    assert s[i] in s;
  }

  lemma FirstWithIdInFirstPart(a: seq<Item>, b: seq<Item>, k: Key)
    requires HasId(a, k)
    ensures FirstWithId(a + b, k) == FirstWithId(a, k)
  {
    var ab, i := a + b, FirstWithId(a, k).value;
    assert forall j :: 0 <= j < i ==> ab[j] == a[j];
    FirstWithIdUnique(ab, k, i);
  }

  lemma FirstWithIdInSecondPart(a: seq<Item>, b: seq<Item>, k: Key)
    requires !HasId(a, k) && HasId(b, k)
    ensures FirstWithId(a + b, k).Some?
    ensures FirstWithId(a + b, k).value == |a| + FirstWithId(b, k).value
  {
    var ab, j := a + b, FirstWithId(b, k).value;
    forall l | 0 <= l < |a| ensures ab[l].id != k {
      assert ab[l] == a[l];
      assert a[l] in a;
    }
    forall l | |a| <= l < |a| + j ensures ab[l].id != k {
      assert ab[l] == b[l - |a|];
    }
    assert ab[|a| + j] == b[j];
    FirstWithIdUnique(ab, k, |a| + j);
  }

  lemma FirstWithIdInNeither(a: seq<Item>, b: seq<Item>, k: Key)
    requires !HasId(a, k) && !HasId(b, k)
    ensures FirstWithId(a + b, k) == None
  {
    forall x | x in a + b ensures x.id != k {
      assert x in a || x in b;
    }
  }

  /** Looking an id up in a concatenation looks in the first part, then in the
      second, past the first part's length. */
  lemma FirstWithIdConcat(a: seq<Item>, b: seq<Item>, k: Key)
    ensures HasId(a, k) ==> FirstWithId(a + b, k) == FirstWithId(a, k)
    ensures !HasId(a, k) ==> (FirstWithId(a + b, k).None? <==> FirstWithId(b, k).None?)
    ensures !HasId(a, k) && HasId(b, k) ==> FirstWithId(a + b, k).value == |a| + FirstWithId(b, k).value
  {
    if HasId(a, k) {
      FirstWithIdInFirstPart(a, b, k);
    } else if HasId(b, k) {
      FirstWithIdInSecondPart(a, b, k);
    } else {
      FirstWithIdInNeither(a, b, k);
    }
  }

  /** Two lists with the same ids position by position agree on every lookup. */
  lemma {:induction false} FirstWithIdSameIds(s: seq<Item>, t: seq<Item>, k: Key)
    requires |s| == |t| && forall i :: 0 <= i < |s| ==> s[i].id == t[i].id
    ensures FirstWithId(s, k) == FirstWithId(t, k)
  {
    if s != [] {
      FirstWithIdSameIds(s[1..], t[1..], k);
    }
  }
}
