/**
 * `Array.prototype.sort` with a comparator `(a, b) => key(b) - key(a)`: a
 * stable sort into non-increasing key order. It is given here as an insertion
 * sort; any stable sort produces the same sequence, because a sorted sequence
 * is determined by its order and by the order within each group of equal keys
 * (see `SortDescStable`).
 */
module StableSort {
  import Seqs

  /** Keys never increase from left to right. */
  predicate SortedDesc<T>(s: seq<T>, key: T -> real) {
    forall i, j :: 0 <= i < j < |s| ==> key(s[i]) >= key(s[j])
  }

  /** The elements of `s` whose key is `v`, in their original order. */
  function KeyFilter<T>(s: seq<T>, key: T -> real, v: real): seq<T> {
    if s == [] then [] else (if key(s[0]) == v then [s[0]] else []) + KeyFilter(s[1..], key, v)
  }

  /** Puts `x` after every element whose key is at least `x`'s. */
  function Insert<T>(x: T, s: seq<T>, key: T -> real): seq<T> {
    if s == [] then [x]
    else if key(s[0]) >= key(x) then [s[0]] + Insert(x, s[1..], key)
    else [x] + s
  }

  function SortDesc<T>(s: seq<T>, key: T -> real): seq<T> {
    if s == [] then [] else Insert(s[|s| - 1], SortDesc(s[..|s| - 1], key), key)
  }

  lemma {:induction false} KeyFilterConcat<T>(a: seq<T>, b: seq<T>, key: T -> real, v: real)
    ensures KeyFilter(a + b, key, v) == KeyFilter(a, key, v) + KeyFilter(b, key, v)
  {
    if a != [] {
      assert (a + b)[1..] == a[1..] + b;
      KeyFilterConcat(a[1..], b, key, v);
    } else {
      assert a + b == b;
    }
  }

  lemma {:induction false} KeyFilterNone<T>(s: seq<T>, key: T -> real, v: real)
    requires forall i :: 0 <= i < |s| ==> key(s[i]) < v
    ensures KeyFilter(s, key, v) == []
  {
    if s != [] {
      KeyFilterNone(s[1..], key, v);
    }
  }

  lemma {:induction false} InsertMultiset<T>(x: T, s: seq<T>, key: T -> real)
    ensures multiset(Insert(x, s, key)) == multiset(s) + multiset{x}
  {
    if s != [] && key(s[0]) >= key(x) {
      InsertMultiset(x, s[1..], key);
      assert s == [s[0]] + s[1..];
    }
  }

  lemma {:induction false} InsertSorted<T>(x: T, s: seq<T>, key: T -> real)
    requires SortedDesc(s, key)
    ensures SortedDesc(Insert(x, s, key), key)
  {
    if s != [] && key(s[0]) >= key(x) {
      var t := Insert(x, s[1..], key);
      var r := [s[0]] + t;
      InsertSorted(x, s[1..], key);
      InsertMultiset(x, s[1..], key);
      forall j | 0 < j < |r| ensures key(r[0]) >= key(r[j]) {
        assert r[j] in multiset(t);
        assert r[j] == x || r[j] in s[1..];
      }
    }
  }

  /** Inserting past the head: the head's group is unaffected. */
  lemma InsertKeyFilterPast<T>(x: T, s: seq<T>, key: T -> real, v: real)
    requires s != [] && key(s[0]) >= key(x)
    requires KeyFilter(Insert(x, s[1..], key), key, v)
             == KeyFilter(s[1..], key, v) + (if key(x) == v then [x] else [])
    ensures KeyFilter(Insert(x, s, key), key, v)
            == KeyFilter(s, key, v) + (if key(x) == v then [x] else [])
  {
    var t := Insert(x, s[1..], key);
    var head := if key(s[0]) == v then [s[0]] else [];
    var fx := if key(x) == v then [x] else [];
    var rest := KeyFilter(s[1..], key, v);
    assert Insert(x, s, key) == [s[0]] + t;
    assert KeyFilter([s[0]] + t, key, v) == head + KeyFilter(t, key, v) by {
      assert ([s[0]] + t)[1..] == t;
    }
    assert KeyFilter(s, key, v) == head + rest;
    assert head + (rest + fx) == (head + rest) + fx;
  }

  /** Inserting before the head: nothing that follows has `x`'s key. */
  lemma InsertKeyFilterBefore<T>(x: T, s: seq<T>, key: T -> real, v: real)
    requires s != [] && key(s[0]) < key(x)
    requires key(x) == v ==> KeyFilter(s, key, v) == []
    ensures KeyFilter(Insert(x, s, key), key, v)
            == KeyFilter(s, key, v) + (if key(x) == v then [x] else [])
  {
    assert Insert(x, s, key) == [x] + s;
    assert ([x] + s)[1..] == s;
  }

  lemma {:induction false} InsertKeyFilter<T>(x: T, s: seq<T>, key: T -> real, v: real)
    requires SortedDesc(s, key)
    ensures KeyFilter(Insert(x, s, key), key, v)
            == KeyFilter(s, key, v) + (if key(x) == v then [x] else [])
  {
    if s == [] {
      assert KeyFilter([x], key, v) == (if key(x) == v then [x] else []) + KeyFilter([x][1..], key, v);
    } else if key(s[0]) >= key(x) {
      assert SortedDesc(s[1..], key);
      InsertKeyFilter(x, s[1..], key, v);
      InsertKeyFilterPast(x, s, key, v);
    } else {
      if key(x) == v {
        assert forall i :: 0 <= i < |s| ==> key(s[i]) <= key(s[0]);
        KeyFilterNone(s, key, v);
      }
      InsertKeyFilterBefore(x, s, key, v);
    }
  }

  /** The sorted sequence is ordered by non-increasing key, is a permutation of
      the input, and keeps the input order among elements with equal keys. */
  lemma {:induction false} SortDescStable<T>(s: seq<T>, key: T -> real)
    ensures SortedDesc(SortDesc(s, key), key)
    ensures multiset(SortDesc(s, key)) == multiset(s)
    ensures forall v :: KeyFilter(SortDesc(s, key), key, v) == KeyFilter(s, key, v)
  {
    if s != [] {
      var init, last := s[..|s| - 1], s[|s| - 1];
      var sorted := SortDesc(init, key);
      SortDescStable(init, key);
      assert SortDesc(s, key) == Insert(last, sorted, key);
      assert SortedDesc(SortDesc(s, key), key) by {
        InsertSorted(last, sorted, key);
      }
      assert s == init + [last];
      assert multiset(SortDesc(s, key)) == multiset(s) by {
        InsertMultiset(last, sorted, key);
      }
      forall v ensures KeyFilter(SortDesc(s, key), key, v) == KeyFilter(s, key, v) {
        InsertKeyFilter(last, sorted, key, v);
        KeyFilterConcat(init, [last], key, v);
      }
    }
  }

  lemma SortDescLength<T>(s: seq<T>, key: T -> real)
    ensures |SortDesc(s, key)| == |s|
  {
    SortDescStable(s, key);
    assert |multiset(SortDesc(s, key))| == |multiset(s)|;
  }

  /** Both parts of a sorted sequence cut at `c` are sorted. */
  lemma CutKeepsSorted<T>(s: seq<T>, c: nat, key: T -> real)
    requires SortedDesc(s, key) && c <= |s|
    ensures SortedDesc(s[..c], key) && SortedDesc(s[c..], key)
  {
    forall a, b | 0 <= a < b < |s| - c ensures key(s[c..][a]) >= key(s[c..][b]) {
      assert s[c..][a] == s[c + a] && s[c..][b] == s[c + b];
    }
  }

  /** Filtering a sorted sequence leaves it sorted. */
  lemma {:induction false} FilterKeepsSorted<T(!new)>(s: seq<T>, p: T -> bool, key: T -> real)
    requires SortedDesc(s, key)
    ensures SortedDesc(Seqs.Filter(s, p), key)
  {
    if s != [] {
      var t := Seqs.Filter(s[1..], p);
      FilterKeepsSorted(s[1..], p, key);
      if p(s[0]) {
        var r := [s[0]] + t;
        forall i, j | 0 <= i < j < |r| ensures key(r[i]) >= key(r[j]) {
          if i == 0 {
            assert r[j] in t;
            assert r[j] in s[1..];
          }
        }
      }
    }
  }
}
