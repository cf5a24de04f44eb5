// Occurrences of one text in another.
module Text {

  predicate HasPrefix(s: string, p: string) { |p| <= |s| && s[..|p|] == p }

  predicate EndsWith(s: string, suffix: string) { |suffix| <= |s| && s[|s| - |suffix|..] == suffix }

  predicate OccursAt(c: string, p: string, i: nat) {
    i + |p| <= |c| && c[i..i + |p|] == p
  }

  /** strings.Index from position i on: the first occurrence, or -1. */
  function IndexFrom(c: string, p: string, i: nat): (r: int)
    ensures r >= 0 ==> i <= r && OccursAt(c, p, r) && forall j :: i <= j < r ==> !OccursAt(c, p, j)
    ensures r < 0 ==> forall j :: i <= j ==> !OccursAt(c, p, j)
    decreases |c| - i
  {
    if i + |p| > |c| then -1
    else if OccursAt(c, p, i) then i
    else IndexFrom(c, p, i + 1)
  }

  function Index(c: string, p: string): int { IndexFrom(c, p, 0) }

  ghost predicate Contains(c: string, p: string) {
    exists i :: OccursAt(c, p, i)
  }

  lemma CharAt(c: string, p: string, i: nat, k: nat)
    requires OccursAt(c, p, i) && k < |p|
    ensures c[i + k] == p[k] && p[k] in p
  {
  }

  lemma OccursInContext(a: string, b: string, d: string, m: string, j: nat)
    requires OccursAt(b, m, j)
    ensures OccursAt(a + b + d, m, |a| + j)
  {
  }

  lemma OccursInPrefix(a: string, d: string, m: string, j: nat)
    requires j + |m| <= |a|
    ensures OccursAt(a + d, m, j) <==> OccursAt(a, m, j)
  {
  }
}
