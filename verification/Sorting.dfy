// sort.Slice leaves "some sorted permutation"; when it is the only one.
module Sorting {
  import opened Base

  /** byte-wise text order */
  predicate TextLess(a: string, b: string) {
    b != "" && (a == "" || a[0] < b[0] || (a[0] == b[0] && TextLess(a[1..], b[1..])))
  }

  /** a comes first if it is a proper start of b, or has the smaller character where they first differ. */
  lemma {:induction false} TextLessIs(a: string, b: string)
    ensures TextLess(a, b) <==>
            exists n :: 0 <= n <= |a| && n < |b| && a[..n] == b[..n] && (n == |a| || a[n] < b[n])
    decreases |a|
  {
    if a == "" {
      if b != "" { assert a[..0] == b[..0]; }
    } else if b != "" {
      TextLessIs(a[1..], b[1..]);
      if a[0] < b[0] {
        assert a[..0] == b[..0];
      } else if a[0] == b[0] && TextLess(a[1..], b[1..]) {
        var n :| 0 <= n <= |a[1..]| && n < |b[1..]| && a[1..][..n] == b[1..][..n] &&
                 (n == |a[1..]| || a[1..][n] < b[1..][n]);
        var m := n + 1;
        assert a[..m] == [a[0]] + a[1..][..n] && b[..m] == [b[0]] + b[1..][..n];
      }
      if m :| 0 <= m <= |a| && m < |b| && a[..m] == b[..m] && (m == |a| || a[m] < b[m]) {
        if m > 0 {
          assert a[0] == a[..m][0] == b[..m][0] == b[0];
          assert a[1..][..m - 1] == a[..m][1..] == b[..m][1..] == b[1..][..m - 1];
        }
      }
    }
  }

  lemma {:induction false} TextLessTotal(a: string, b: string)
    ensures a != b ==> TextLess(a, b) || TextLess(b, a)
    ensures !(TextLess(a, b) && TextLess(b, a))
    decreases |a| + |b|
  {
    if a != "" && b != "" {
      TextLessTotal(a[1..], b[1..]);
      assert a == [a[0]] + a[1..] && b == [b[0]] + b[1..];
    }
  }

  lemma {:induction false} TextLessTransitive(a: string, b: string, c: string)
    ensures TextLess(a, b) && TextLess(b, c) ==> TextLess(a, c)
    ensures !TextLess(b, a) && !TextLess(c, b) ==> !TextLess(c, a)
    decreases |a|
  {
    if a != "" && b != "" && c != "" {
      TextLessTransitive(a[1..], b[1..], c[1..]);
      TextLessTotal(a[1..], b[1..]);
      TextLessTotal(b[1..], c[1..]);
      TextLessTotal(a[1..], c[1..]);
    }
  }

  /** What sort.Slice asks of its comparator. */
  ghost predicate WeakOrder<T(!new)>(less: (T, T) -> bool) {
    && (forall a, b :: less(a, b) ==> !less(b, a))
    && (forall a, b, c :: !less(b, a) && !less(c, b) ==> !less(c, a))
  }

  ghost predicate SortedBy<T>(s: seq<T>, less: (T, T) -> bool) {
    forall i, j :: 0 <= i < j < |s| ==> !less(s[j], s[i])
  }

  ghost predicate SortedPermutation<T>(s: seq<T>, r: seq<T>, less: (T, T) -> bool) {
    multiset(r) == multiset(s) && SortedBy(r, less)
  }

  function Insert<T>(x: T, s: seq<T>, less: (T, T) -> bool): seq<T> {
    if s == [] || less(x, s[0]) then [x] + s else [s[0]] + Insert(x, s[1..], less)
  }

  function Sorted<T>(s: seq<T>, less: (T, T) -> bool): seq<T> {
    if s == [] then [] else Insert(s[0], Sorted(s[1..], less), less)
  }

  lemma PrependSorted<T>(x: T, s: seq<T>, less: (T, T) -> bool)
    requires SortedBy(s, less) && forall y :: y in s ==> !less(y, x)
    ensures SortedBy([x] + s, less)
  {
  }

  lemma {:induction false} InsertSorts<T(!new)>(x: T, s: seq<T>, less: (T, T) -> bool)
    requires WeakOrder(less) && SortedBy(s, less)
    ensures multiset(Insert(x, s, less)) == multiset(s) + multiset{x}
    ensures SortedBy(Insert(x, s, less), less)
    decreases |s|
  {
    if s == [] || less(x, s[0]) {
      forall y | y in s ensures !less(y, x) {
        assert !less(s[0], s[0]);
        assert s != [] && !less(y, s[0]);
      }
      PrependSorted(x, s, less);
    } else {
      var rest := Insert(x, s[1..], less);
      InsertSorts(x, s[1..], less);
      assert s == [s[0]] + s[1..];
      forall y | y in rest ensures !less(y, s[0]) {
        assert y in multiset(rest);
        assert y == x || y in s[1..];
      }
      PrependSorted(s[0], rest, less);
    }
  }

  lemma {:induction false} SortedSorts<T(!new)>(s: seq<T>, less: (T, T) -> bool)
    requires WeakOrder(less)
    ensures SortedPermutation(s, Sorted(s, less), less)
    decreases |s|
  {
    if s != [] {
      assert s == [s[0]] + s[1..];
      SortedSorts(s[1..], less);
      InsertSorts(s[0], Sorted(s[1..], less), less);
    }
  }

  /** Callers learn no more than the library promises. */
  method SortSlice<T(!new)>(s: seq<T>, less: (T, T) -> bool) returns (r: seq<T>)
    requires WeakOrder(less)
    ensures SortedPermutation(s, r, less)
  {
    SortedSorts(s, less);
    r := Sorted(s, less);
  }

  lemma OutsidePrefix<T>(s: seq<T>, n: nat, i: nat)
    requires n <= |s| && i < |s| && s[i] !in s[..n]
    ensures i >= n
  {
  }

  /** out holds, once each, the values of a map whose keys can be read off the values. */
  ghost predicate ListsValues<K, V(!new)>(m: map<K, V>, keyOf: V -> K, out: seq<V>) {
    NoDup(out) && |out| == |m| && forall v :: v in out <==> keyOf(v) in m && m[keyOf(v)] == v
  }

  /** Collecting the values of a map in the order of a range over it. */
  method MapValues<K, V(!new)>(m: map<K, V>, keyOf: V -> K) returns (out: seq<V>)
    requires forall k :: k in m ==> keyOf(m[k]) == k
    ensures ListsValues(m, keyOf, out)
  {
    out := [];
    var rest := m.Keys;
    while rest != {}
      invariant rest <= m.Keys && |out| + |rest| == |m|
      invariant NoDup(out) && forall v :: v in out <==> keyOf(v) in m && keyOf(v) !in rest && m[keyOf(v)] == v
    {
      var k := NextKey(rest);
      NoDupConcat(out, [m[k]]);
      out := out + [m[k]];
      rest := rest - {k};
    }
  }

  method SortedValues<K, V(!new)>(m: map<K, V>, keyOf: V -> K, less: (V, V) -> bool) returns (out: seq<V>)
    requires WeakOrder(less) && forall k :: k in m ==> keyOf(m[k]) == k
    ensures ListsValues(m, keyOf, out) && SortedBy(out, less)
  {
    var all := MapValues(m, keyOf);
    out := SortSlice(all, less);
    SameElements(all, out);
    NoDupPermutation(all, out);
  }

  lemma SameHead<T>(a: seq<T>, b: seq<T>, less: (T, T) -> bool)
    requires a != [] && b != [] && SortedBy(a, less) && SortedBy(b, less)
    requires a[0] in b && b[0] in a
    requires a[0] != b[0] ==> less(a[0], b[0]) || less(b[0], a[0])
    ensures a[0] == b[0]
  {
  }

  /** less tells any two different elements apart. */
  ghost predicate Separates<T>(elements: multiset<T>, less: (T, T) -> bool) {
    forall x, y :: x in elements && y in elements && x != y ==> less(x, y) || less(y, x)
  }

  lemma TailSorted<T>(a: seq<T>, less: (T, T) -> bool)
    requires a != [] && SortedBy(a, less)
    ensures SortedBy(a[1..], less)
    ensures a == [a[0]] + a[1..] && multiset(a) == multiset{a[0]} + multiset(a[1..])
  {
  }

  lemma SameElements<T>(a: seq<T>, b: seq<T>)
    requires multiset(a) == multiset(b)
    ensures |a| == |b|
    ensures forall x :: x in a <==> x in b
    ensures a != [] ==> a[0] in b && b[0] in a && a[0] in multiset(a)
  {
    assert |multiset(a)| == |a| && |multiset(b)| == |b|;
    forall x ensures x in a <==> x in b { assert x in a <==> x in multiset(a); assert x in b <==> x in multiset(b); }
  }

  /** Elements that the comparator tells apart have one sorted order. */
  lemma {:induction false} SortedUnique<T>(a: seq<T>, b: seq<T>, elements: multiset<T>, less: (T, T) -> bool)
    requires multiset(a) == multiset(b) <= elements && Separates(elements, less)
    requires SortedBy(a, less) && SortedBy(b, less)
    ensures a == b
    decreases |a|
  {
    SameElements(a, b);
    if a != [] {
      SameHead(a, b, less);
      TailSorted(a, less);
      TailSorted(b, less);
      assert multiset(a[1..]) == multiset(a) - multiset{a[0]} == multiset(b) - multiset{b[0]} == multiset(b[1..]);
      SortedUnique(a[1..], b[1..], elements, less);
    }
  }
}
