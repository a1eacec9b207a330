/**
  * Go's string order and sort.SliceStable.
  */
module Ordering {

  /** Byte-wise lexicographic order, Go's `<` on strings. */
  predicate LexLess(a: string, b: string) {
    if b == [] then false
    else if a == [] then true
    else a[0] < b[0] || (a[0] == b[0] && LexLess(a[1..], b[1..]))
  }

  lemma {:induction false} LexTotal(a: string, b: string)
    ensures LexLess(a, b) || a == b || LexLess(b, a)
  {
    if a != [] && b != [] && a[0] == b[0] {
      LexTotal(a[1..], b[1..]);
      assert a == [a[0]] + a[1..] && b == [b[0]] + b[1..];
    }
  }

  lemma {:induction false} LexAsymmetric(a: string, b: string)
    ensures !(LexLess(a, b) && LexLess(b, a))
  {
    if a != [] && b != [] {
      LexAsymmetric(a[1..], b[1..]);
    }
  }

  lemma {:induction false} LexTransitive(a: string, b: string, c: string)
    requires LexLess(a, b) && LexLess(b, c)
    ensures LexLess(a, c)
  {
    if a != [] && a[0] == b[0] == c[0] {
      LexTransitive(a[1..], b[1..], c[1..]);
    }
  }

  // ---------- stable sorting ----------

  /** A comparison that sort.SliceStable accepts: a strict weak order. */
  ghost predicate WeakOrder<T(!new)>(less: (T, T) -> bool) {
    && (forall a, b :: less(a, b) ==> !less(b, a))
    && (forall a, b, c :: less(a, c) ==> less(a, b) || less(b, c))
  }

  ghost predicate Pairwise<T>(s: seq<T>, r: (T, T) -> bool) {
    forall i, j :: 0 <= i < j < |s| ==> r(s[i], s[j])
  }

  /** Places `x` behind every element that does not have to come after it. */
  function Insert<T>(s: seq<T>, x: T, less: (T, T) -> bool): (r: seq<T>)
    ensures multiset(r) == multiset(s) + multiset{x}
  {
    if s == [] then [x]
    else
      var last := s[|s| - 1];
      assert s == s[..|s| - 1] + [last];
      if less(x, last) then Insert(s[..|s| - 1], x, less) + [last] else s + [x]
  }

  function StableSort<T>(s: seq<T>, less: (T, T) -> bool): (r: seq<T>)
    ensures multiset(r) == multiset(s)
    ensures |r| == |s|
  {
    if s == [] then []
    else
      var init, last := s[..|s| - 1], s[|s| - 1];
      assert s == init + [last];
      var r := Insert(StableSort(init, less), last, less);
      assert |multiset(r)| == |multiset(s)|;
      r
  }

  /** `first` decides; `second` decides where `first` does not. */
  function Then<T>(first: (T, T) -> bool, second: (T, T) -> bool): (T, T) -> bool {
    (a, b) => first(a, b) || (!first(b, a) && second(a, b))
  }

  lemma InsertMember<T>(s: seq<T>, x: T, less: (T, T) -> bool, y: T)
    requires y in Insert(s, x, less)
    ensures y in s || y == x
  {
  }

  /** An element that may stay behind the last one may stay behind all. */
  lemma InsertBehind<T(!new)>(s: seq<T>, x: T, less: (T, T) -> bool, r: (T, T) -> bool, i: nat)
    requires WeakOrder(less) && i < |s| && r(s[i], x) && !less(x, s[|s| - 1])
    requires i < |s| - 1 ==> Then(less, r)(s[i], s[|s| - 1])
    ensures Then(less, r)(s[i], x)
  {
  }

  lemma {:induction false} InsertPairwise<T(!new)>(s: seq<T>, x: T, less: (T, T) -> bool, r: (T, T) -> bool)
    requires WeakOrder(less) && Pairwise(s, Then(less, r))
    requires forall i :: 0 <= i < |s| ==> r(s[i], x)
    ensures Pairwise(Insert(s, x, less), Then(less, r))
  {
    hide WeakOrder, Then;
    if s != [] {
      var n := |s| - 1;
      if less(x, s[n]) {
        InsertPairwise(s[..n], x, less, r);
        var t := Insert(s[..n], x, less);
        forall i | 0 <= i < |t| ensures Then(less, r)(t[i], s[n]) {
          InsertMember(s[..n], x, less, t[i]);
          if t[i] != x {
            var k :| 0 <= k < n && s[k] == t[i];
          } else {
            ThenFirst(less, r, x, s[n]);
          }
        }
      } else {
        forall i | 0 <= i < |s| ensures Then(less, r)(s[i], x) {
          InsertBehind(s, x, less, r, i);
        }
      }
    }
  }

  lemma ThenFirst<T>(less: (T, T) -> bool, r: (T, T) -> bool, a: T, b: T)
    requires less(a, b)
    ensures Then(less, r)(a, b)
  {
  }

  /**
    * Stability: whatever order the input was in survives between elements the comparison
    * does not separate.
    */
  lemma {:induction false} SortPairwise<T(!new)>(s: seq<T>, less: (T, T) -> bool, r: (T, T) -> bool)
    requires WeakOrder(less) && Pairwise(s, r)
    ensures Pairwise(StableSort(s, less), Then(less, r))
  {
    if s != [] {
      var n := |s| - 1;
      var init := s[..n];
      SortPairwise(init, less, r);
      var t := StableSort(init, less);
      forall i | 0 <= i < |t| ensures r(t[i], s[n]) {
        assert t[i] in multiset(t);
        assert t[i] in init;
        var k :| 0 <= k < n && init[k] == t[i];
        assert r(s[k], s[n]);
      }
      InsertPairwise(t, s[n], less, r);
    }
  }

  /** Sorting by a comparison leaves no pair the wrong way round. */
  lemma SortSorted<T(!new)>(s: seq<T>, less: (T, T) -> bool)
    requires WeakOrder(less)
    ensures forall i, j :: 0 <= i < j < |s| ==> !less(StableSort(s, less)[j], StableSort(s, less)[i])
  {
    SortPairwise(s, less, (a: T, b: T) => true);
    var t := StableSort(s, less);
    forall i, j | 0 <= i < j < |s| ensures !less(t[j], t[i]) {
      assert Then(less, (a: T, b: T) => true)(t[i], t[j]);
    }
  }

  lemma HasMember<T>(s: seq<T>)
    ensures s == [] || exists x :: x in s
  {
    if s != [] {
      assert s[0] in s;
    }
  }

  /** Strictly ordered sequences with the same elements are the same sequence. */
  lemma {:induction false} SortedUnique<T(!new)>(s: seq<T>, t: seq<T>, r: (T, T) -> bool)
    requires forall a, b :: r(a, b) ==> !r(b, a)
    requires Pairwise(s, r) && Pairwise(t, r)
    requires forall x :: x in s <==> x in t
    ensures s == t
    decreases |s|
  {
    HasMember(s);
    HasMember(t);
    if s != [] {
      assert s[0] in t && t != [] && t[0] in s;
      assert s[0] == t[0];
      forall x ensures x in s[1..] <==> x in t[1..] {
        if x in s[1..] {
          var i :| 0 < i < |s| && s[i] == x;
          assert x in t && r(s[0], s[i]);
        }
        if x in t[1..] {
          var i :| 0 < i < |t| && t[i] == x;
          assert x in s && r(t[0], t[i]);
        }
      }
      SortedUnique(s[1..], t[1..], r);
      assert s == [s[0]] + s[1..] && t == [t[0]] + t[1..];
    }
  }
}
