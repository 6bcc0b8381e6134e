/**
 * Order-preserving filtering of sequences (JavaScript's `Array.prototype.filter`)
 * and the sub-sequence relation it establishes.
 */
module Seqs {

  /** The elements of `s` that satisfy `p`, in their original order. */
  function Filter<T(!new)>(s: seq<T>, p: T -> bool): (r: seq<T>)
    ensures |r| <= |s|
    ensures forall x :: x in r <==> x in s && p(x)
  {
    if s == [] then [] else (if p(s[0]) then [s[0]] else []) + Filter(s[1..], p)
  }

  /** `r` can be obtained from `s` by deleting elements: the elements of `r`
      occur in `s` in the same relative order. */
  predicate IsSubsequence<T(==)>(r: seq<T>, s: seq<T>) {
    if r == [] then true
    else if s == [] then false
    else if r[0] == s[0] then IsSubsequence(r[1..], s[1..])
    else IsSubsequence(r, s[1..])
  }

  /** Putting an element in front keeps every sub-sequence a sub-sequence. */
  lemma {:induction false} SubsequenceCons<T>(r: seq<T>, a: T, t: seq<T>)
    requires IsSubsequence(r, t)
    ensures IsSubsequence(r, [a] + t)
    decreases |t|
  {
    assert ([a] + t)[1..] == t;
    if r != [] && r[0] == a {
      assert t != [];
      assert t == [t[0]] + t[1..];
      if r[0] == t[0] {
        SubsequenceCons(r[1..], t[0], t[1..]);
      } else {
        SubsequenceCons(r, a, t[1..]);
        assert ([a] + t[1..])[1..] == t[1..];
        SubsequenceCons(r[1..], t[0], t[1..]);
      }
    }
  }

  /** Filtering keeps the relative order of the elements it keeps. */
  lemma {:induction false} FilterIsSubsequence<T(!new)>(s: seq<T>, p: T -> bool)
    ensures IsSubsequence(Filter(s, p), s)
  {
    if s != [] {
      var t := Filter(s[1..], p);
      FilterIsSubsequence(s[1..], p);
      if p(s[0]) {
        assert Filter(s, p) == [s[0]] + t;
        TailOfAppend([s[0]], t);
      } else {
        assert Filter(s, p) == t;
        SubsequenceCons(t, s[0], s[1..]);
        assert [s[0]] + s[1..] == s;
      }
    }
  }

  lemma {:induction false} FilterConcat<T(!new)>(a: seq<T>, b: seq<T>, p: T -> bool)
    ensures Filter(a + b, p) == Filter(a, p) + Filter(b, p)
  {
    if a != [] {
      var head := if p(a[0]) then [a[0]] else [];
      calc {
        Filter(a + b, p);
        { TailOfAppend(a, b); }
        head + Filter(a[1..] + b, p);
        { FilterConcat(a[1..], b, p); }
        head + (Filter(a[1..], p) + Filter(b, p));
        { AppendAssoc(head, Filter(a[1..], p), Filter(b, p)); }
        Filter(a, p) + Filter(b, p);
      }
    } else {
      assert a + b == b;
    }
  }

  /** The negation of a predicate. */
  function Not<T>(p: T -> bool): T -> bool {
    (x: T) => !p(x)
  }

  /** Filtering with a predicate and with its negation splits the sequence:
      the two results together are a permutation of it. */
  lemma {:induction false} FilterComplement<T(!new)>(s: seq<T>, p: T -> bool)
    ensures multiset(Filter(s, p)) + multiset(Filter(s, Not(p))) == multiset(s)
  {
    if s != [] {
      var x, t := s[0], s[1..];
      FilterComplement(t, p);
      var a, b := Filter(t, p), Filter(t, Not(p));
      assert multiset(s) == multiset{x} + multiset(t) by {
        assert s == [x] + t;
      }
      if p(x) {
        assert multiset(Filter(s, p)) == multiset{x} + multiset(a) by {
          assert Filter(s, p) == [x] + a;
        }
        assert Filter(s, Not(p)) == b;
      } else {
        assert Filter(s, p) == a;
        assert multiset(Filter(s, Not(p))) == multiset{x} + multiset(b) by {
          assert Filter(s, Not(p)) == [x] + b;
        }
      }
    }
  }

  lemma {:induction false} FilterAllKept<T(!new)>(s: seq<T>, p: T -> bool)
    requires forall i :: 0 <= i < |s| ==> p(s[i])
    ensures Filter(s, p) == s
  {
    if s != [] {
      FilterAllKept(s[1..], p);
      assert s == [s[0]] + s[1..];
    }
  }

  lemma AppendAssoc<T>(a: seq<T>, b: seq<T>, c: seq<T>)
    ensures a + b + c == a + (b + c)
  {
  }

  lemma TailOfAppend<T>(a: seq<T>, b: seq<T>)
    requires a != []
    ensures (a + b)[0] == a[0] && (a + b)[1..] == a[1..] + b
  {
  }

  /** Cutting a list in two keeps every element, as often as it occurs. */
  lemma PartsOfAppend<T>(a: seq<T>, b: seq<T>)
    ensures (a + b)[..|a|] == a && (a + b)[|a|..] == b
  {
  }

  lemma CutJoin<T>(s: seq<T>, c: nat)
    requires c <= |s|
    ensures s[..c] + s[c..] == s
  {
  }

  lemma CutMultiset<T>(s: seq<T>, c: nat)
    requires c <= |s|
    ensures multiset(s[..c]) + multiset(s[c..]) == multiset(s)
  {
    assert s == s[..c] + s[c..];
  }

  /** `s.map(f)`. */
  function Map<T, U>(s: seq<T>, f: T -> U): (r: seq<U>)
    ensures |r| == |s| && forall i :: 0 <= i < |s| ==> r[i] == f(s[i])
  {
    seq(|s|, i requires 0 <= i < |s| => f(s[i]))
  }

  lemma MapConcat<T, U>(a: seq<T>, b: seq<T>, f: T -> U)
    ensures Map(a + b, f) == Map(a, f) + Map(b, f)
  {
    var l, r := Map(a + b, f), Map(a, f) + Map(b, f);
    forall k | 0 <= k < |l| ensures l[k] == r[k] {
      if k < |a| {
        assert (a + b)[k] == a[k];
      } else {
        assert (a + b)[k] == b[k - |a|];
      }
    }
  }

  /** Taking the same element out of two permutations of each other leaves
      two permutations of each other. */
  lemma RemoveMatching<T>(s: seq<T>, t: seq<T>, k: nat)
    requires multiset(s) == multiset(t) && s != [] && k < |t| && t[k] == s[0]
    ensures multiset(s[1..]) == multiset(t[..k] + t[k + 1..])
  {
    var x, a, b := s[0], t[..k], t[k + 1..];
    assert s == [x] + s[1..];
    assert t == a + [x] + b;
    var l, r := multiset(s[1..]), multiset(a + b);
    forall y ensures l[y] == r[y] {
      assert multiset(s)[y] == multiset([x])[y] + l[y];
      assert multiset(t)[y] == multiset(a)[y] + multiset([x])[y] + multiset(b)[y];
      assert r[y] == multiset(a)[y] + multiset(b)[y];
    }
  }

  /** Mapping two permutations of each other gives two permutations of each
      other. */
  lemma {:induction false} MapPermutation<T, U>(s: seq<T>, t: seq<T>, f: T -> U)
    requires multiset(s) == multiset(t)
    ensures multiset(Map(s, f)) == multiset(Map(t, f))
    decreases |s|
  {
    if s == [] {
      assert |t| == |multiset(t)| == 0;
    } else {
      var x := s[0];
      assert x in multiset(t) by { assert s == [x] + s[1..]; }
      var k :| 0 <= k < |t| && t[k] == x;
      var a, b := t[..k], t[k + 1..];
      RemoveMatching(s, t, k);
      MapPermutation(s[1..], a + b, f);
      assert s == [x] + s[1..];
      assert t == a + [x] + b;
      MapConcat([x], s[1..], f);
      MapConcat(a + [x], b, f);
      MapConcat(a, [x], f);
      MapConcat(a, b, f);
      var fx, l, ma, mb := Map([x], f), Map(s[1..], f), Map(a, f), Map(b, f);
      assert Map(s, f) == fx + l;
      assert Map(t, f) == ma + fx + mb;
      MovePermutation(fx, l, ma, mb);
    }
  }

  /** Moving a piece into the middle keeps the elements. */
  lemma MovePermutation<T>(x: seq<T>, l: seq<T>, a: seq<T>, b: seq<T>)
    requires multiset(l) == multiset(a + b)
    ensures multiset(x + l) == multiset(a + x + b)
  {
    forall y ensures multiset(x + l)[y] == multiset(a + x + b)[y] {
      assert multiset(l)[y] == multiset(a)[y] + multiset(b)[y];
    }
  }

  /** Filtering with a predicate no element satisfies gives nothing. */
  lemma FilterNoneKept<T(!new)>(s: seq<T>, p: T -> bool)
    requires forall x :: x in s ==> !p(x)
    ensures Filter(s, p) == []
  {
    if Filter(s, p) != [] {
      assert Filter(s, p)[0] in Filter(s, p);
    }
  }
}
