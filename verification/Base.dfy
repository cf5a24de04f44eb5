// Values shared by every component: timestamps, wrapping counters, and the few
// facts about strings, sequences and sets the proofs lean on.
module Base {

  // ------------------------------------------------------------- time ------

  /** Nanoseconds since the zero time; 0 is the zero time itself. */
  type Time = int

  const SECOND: int := 1_000_000_000
  const MIN_DURATION: int := -0x8000_0000_0000_0000
  const MAX_DURATION: int := 0x7FFF_FFFF_FFFF_FFFF

  /** time.Time.Sub: a difference that does not fit 64 bits saturates. */
  function Sub(a: Time, b: Time): (d: int)
    ensures MIN_DURATION <= d <= MAX_DURATION
  {
    if a - b < MIN_DURATION then MIN_DURATION
    else if a - b > MAX_DURATION then MAX_DURATION
    else a - b
  }

  /** `if d < 0 { d = -d }` on 64 bits: negating the least duration gives it back. */
  function Magnitude(d: int): int
    requires MIN_DURATION <= d <= MAX_DURATION
  {
    if d < 0 && d != MIN_DURATION then -d else d
  }

  /** 1970 on the clock whose zero is year 1. */
  const UNIX_EPOCH: Time := 62_135_596_800 * SECOND

  function UnixTime(nanos: int): Time { UNIX_EPOCH + nanos }

  // --------------------------------------------------- wrapping counters ---

  const U64_MODULUS: int := 0x1_0000_0000_0000_0000

  type U64 = x: int | 0 <= x < U64_MODULUS

  function Wrap(x: nat): (r: U64) { x % U64_MODULUS }

  /** Addition of unsigned 64-bit counters. */
  function Add64(a: U64, b: U64): (r: U64)
    ensures r == Wrap(a + b)
  {
    if a + b < U64_MODULUS then a + b else a + b - U64_MODULUS
  }

  lemma WrapAdd(a: nat, b: U64)
    ensures Add64(Wrap(a), b) == Wrap(a + b)
  {
  }

  // ----------------------------------------------------------- sequences ---

  ghost predicate NoDup<T>(s: seq<T>) {
    forall i, j :: 0 <= i < j < |s| ==> s[i] != s[j]
  }

  lemma NoDupConcat<T>(a: seq<T>, b: seq<T>)
    requires NoDup(a) && NoDup(b)
    requires forall x :: x in a ==> x !in b
    ensures NoDup(a + b)
  {
    var c := a + b;
    forall i, j | 0 <= i < j < |c| ensures c[i] != c[j] {
      if i < |a| <= j {
        assert c[i] in a && c[j] in b;
      }
    }
  }

  lemma {:induction false} OnceEach<T>(s: seq<T>, x: T)
    requires NoDup(s)
    ensures multiset(s)[x] == if x in s then 1 else 0
    decreases |s|
  {
    if s != [] {
      assert s == [s[0]] + s[1..];
      assert forall i :: 0 <= i < |s| - 1 ==> s[1..][i] == s[i + 1];
      OnceEach(s[1..], x);
      assert s[0] !in s[1..];
    }
  }

  lemma NoDupSameMultiset<T>(a: seq<T>, b: seq<T>)
    requires NoDup(a) && NoDup(b) && forall x :: x in a <==> x in b
    ensures multiset(a) == multiset(b)
  {
    forall x ensures multiset(a)[x] == multiset(b)[x] {
      OnceEach(a, x);
      OnceEach(b, x);
    }
  }

  /** A permutation of a list without duplicates has none either. */
  lemma NoDupPermutation<T>(a: seq<T>, b: seq<T>)
    requires NoDup(a) && multiset(a) == multiset(b)
    ensures NoDup(b)
  {
    forall i, j | 0 <= i < j < |b| ensures b[i] != b[j] {
      if b[i] == b[j] {
        OnceEach(a, b[i]);
        TwiceIn(b, i, j);
      }
    }
  }

  lemma TwiceIn<T>(s: seq<T>, i: nat, j: nat)
    requires i < j < |s| && s[i] == s[j]
    ensures multiset(s)[s[i]] >= 2
  {
    var a, b := s[..j], s[j + 1..];
    assert s == a + [s[j]] + b;
    assert a[i] == s[i] && s[i] in a;
  }

  ghost predicate Ascending(s: seq<int>) {
    forall i, j :: 0 <= i < j < |s| ==> s[i] < s[j]
  }

  lemma {:induction false} AscendingUnique(a: seq<int>, b: seq<int>)
    requires Ascending(a) && Ascending(b)
    requires forall x :: x in a <==> x in b
    ensures a == b
    decreases |a|
  {
    if a == [] {
      assert forall i :: 0 <= i < |b| ==> b[i] in b;
    } else {
      assert a[0] in b && a[|a| - 1] in b;
      var m, n := |a| - 1, |b| - 1;
      assert b[n] in a;
      assert a[m] == b[n];
      var a', b' := a[..m], b[..n];
      forall x ensures x in a' <==> x in b' {
        if x in a' { assert x in a; assert x < a[m]; }
        if x in b' { assert x in b; assert x < b[n]; }
      }
      AscendingUnique(a', b');
      assert a == a' + [a[m]] && b == b' + [b[n]];
    }
  }

  ghost function AnyOf<T>(s: set<T>): (x: T)
    requires s != {}
    ensures x in s
  {
    var x :| x in s; x
  }

  // ------------------------------------------------------------ map range --

  /** The next key of a `range` over a map: any of those not visited yet. */
  method NextKey<K>(rest: set<K>) returns (k: K)
    requires rest != {}
    ensures k in rest
  {
    k :| k in rest;
  }
}
