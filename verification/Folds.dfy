// "Last text that is not empty", "first time that is set", "latest time", and sums
// of token counters over the values of a map.
module Folds {
  import opened Base
  import opened Model

  function Map<A, B>(f: A -> B, s: seq<A>): (r: seq<B>)
    ensures |r| == |s| && forall i :: 0 <= i < |s| ==> r[i] == f(s[i])
  {
    seq(|s|, i requires 0 <= i < |s| => f(s[i]))
  }

  lemma MapConcat<A, B>(f: A -> B, a: seq<A>, b: seq<A>)
    ensures Map(f, a + b) == Map(f, a) + Map(f, b)
  {
  }

  lemma MapSnoc<A, B>(f: A -> B, a: seq<A>, x: A)
    ensures Map(f, a + [x]) == Map(f, a) + [f(x)]
  {
  }

  // ------------------------------------------------- texts and times ---------

  function LastText(texts: seq<string>): string {
    if texts == [] then ""
    else if texts[|texts| - 1] != "" then texts[|texts| - 1]
    else LastText(texts[..|texts| - 1])
  }

  lemma {:induction false} LastTextConcat(a: seq<string>, b: seq<string>)
    ensures LastText(a + b) == if LastText(b) != "" then LastText(b) else LastText(a)
    decreases |b|
  {
    if b == [] {
      assert a + b == a;
    } else {
      LastTextConcat(a, b[..|b| - 1]);
      assert (a + b)[..|a + b| - 1] == a + b[..|b| - 1];
    }
  }

  function LastPositive(numbers: seq<int>): int {
    if numbers == [] then 0
    else if numbers[|numbers| - 1] > 0 then numbers[|numbers| - 1]
    else LastPositive(numbers[..|numbers| - 1])
  }

  function LastTime(times: seq<Time>): Time {
    if times == [] then 0
    else if times[|times| - 1] != 0 then times[|times| - 1]
    else LastTime(times[..|times| - 1])
  }

  function FirstTime(times: seq<Time>): Time {
    if times == [] then 0 else if times[0] != 0 then times[0] else FirstTime(times[1..])
  }

  lemma {:induction false} FirstTimeConcat(a: seq<Time>, b: seq<Time>)
    ensures FirstTime(a + b) == if FirstTime(a) != 0 then FirstTime(a) else FirstTime(b)
    decreases |a|
  {
    if a == [] {
      assert a + b == b;
    } else {
      FirstTimeConcat(a[1..], b);
      assert (a + b)[1..] == a[1..] + b;
    }
  }

  /** The latest time after the zero time; 0 if there is none. */
  function LatestTime(times: seq<Time>): (t: Time)
    ensures t >= 0 && (t == 0 || t in times)
    ensures forall x :: x in times ==> x <= t
  {
    if times == [] then 0
    else
      var t, last := LatestTime(times[..|times| - 1]), times[|times| - 1];
      assert times == times[..|times| - 1] + [last];
      if last > t then last else t
  }

  lemma LatestTimeConcat(a: seq<Time>, b: seq<Time>)
    ensures LatestTime(a + b) == if LatestTime(a) > LatestTime(b) then LatestTime(a) else LatestTime(b)
  {
    var t, u, v := LatestTime(a + b), LatestTime(a), LatestTime(b);
    assert t != 0 ==> t in a || t in b;
    assert u != 0 ==> u in a + b;
    assert v != 0 ==> v in a + b;
  }

  // ---------------------------------------------------------- plain sums -----

  function SumOf<T>(f: T -> nat, s: seq<T>): nat {
    if s == [] then 0 else f(s[0]) + SumOf(f, s[1..])
  }

  lemma {:induction false} SumOfConcat<T>(f: T -> nat, a: seq<T>, b: seq<T>)
    ensures SumOf(f, a + b) == SumOf(f, a) + SumOf(f, b)
    decreases |a|
  {
    if a == [] {
      assert a + b == b;
    } else {
      SumOfConcat(f, a[1..], b);
      assert (a + b)[1..] == a[1..] + b;
    }
  }

  lemma SumOfRemove<T>(f: T -> nat, b: seq<T>, j: nat)
    requires j < |b|
    ensures SumOf(f, b) == SumOf(f, b[..j] + b[j + 1..]) + f(b[j])
  {
    var l, x, r := b[..j], [b[j]], b[j + 1..];
    assert b == l + (x + r);
    SumOfConcat(f, l, x + r);
    SumOfConcat(f, x, r);
    SumOfConcat(f, l, r);
    SumOfOne(f, b[j]);
  }

  lemma SumOfOne<T>(f: T -> nat, x: T)
    ensures SumOf(f, [x]) == f(x)
  {
    assert [x][1..] == [];
  }

  lemma MultisetRemove<T>(b: seq<T>, j: nat)
    requires j < |b|
    ensures multiset(b[..j] + b[j + 1..]) == multiset(b) - multiset{b[j]}
  {
    assert b == b[..j] + [b[j]] + b[j + 1..];
  }

  lemma {:induction false} SumOfPermutation<T>(f: T -> nat, a: seq<T>, b: seq<T>)
    requires multiset(a) == multiset(b)
    ensures SumOf(f, a) == SumOf(f, b)
    decreases |a|
  {
    assert |multiset(a)| == |a| && |multiset(b)| == |b|;
    if a != [] {
      assert a[0] in multiset(b);
      var j :| 0 <= j < |b| && b[j] == a[0];
      var rest := b[..j] + b[j + 1..];
      SumOfRemove(f, b, j);
      MultisetRemove(b, j);
      assert a == [a[0]] + a[1..];
      assert multiset(a[1..]) == multiset(a) - multiset{a[0]};
      SumOfPermutation(f, a[1..], rest);
    }
  }

  // -------------------------------------------------------- counter sums -----

  lemma Add64Swap(a: U64, b: U64, c: U64)
    ensures Add64(Add64(a, b), c) == Add64(Add64(a, c), b)
    ensures Add64(Add64(a, b), c) == Add64(a, Add64(b, c))
    ensures Add64(a, b) == Add64(b, a) && Add64(a, 0) == a
  {
  }

  lemma AddUsageSwap(a: TokenUsage, b: TokenUsage, c: TokenUsage)
    ensures AddUsage(AddUsage(a, b), c) == AddUsage(AddUsage(a, c), b)
    ensures AddUsage(AddUsage(a, b), c) == AddUsage(a, AddUsage(b, c))
    ensures AddUsage(a, b) == AddUsage(b, a) && AddUsage(a, NO_USAGE) == a
  {
    Add64Swap(a.input, b.input, c.input);
    Add64Swap(a.cachedInput, b.cachedInput, c.cachedInput);
    Add64Swap(a.cacheWrite, b.cacheWrite, c.cacheWrite);
    Add64Swap(a.output, b.output, c.output);
    Add64Swap(a.reasoning, b.reasoning, c.reasoning);
    Add64Swap(a.total, b.total, c.total);
  }

  /** The usage of the entries at keys, added up. */
  ghost function SumKeys<V>(m: map<string, V>, f: V -> TokenUsage, keys: set<string>): TokenUsage
    requires keys <= m.Keys
  {
    if keys == {} then NO_USAGE
    else var k := AnyOf(keys); AddUsage(SumKeys(m, f, keys - {k}), f(m[k]))
  }

  lemma {:induction false} SumKeysRemove<V>(m: map<string, V>, f: V -> TokenUsage, keys: set<string>, k: string)
    requires keys <= m.Keys && k in keys
    ensures SumKeys(m, f, keys) == AddUsage(SumKeys(m, f, keys - {k}), f(m[k]))
    decreases keys
  {
    var p := AnyOf(keys);
    if p != k {
      SumKeysRemove(m, f, keys - {p}, k);
      SumKeysRemove(m, f, keys - {k}, p);
      assert keys - {p} - {k} == keys - {k} - {p};
      AddUsageSwap(SumKeys(m, f, keys - {p} - {k}), f(m[k]), f(m[p]));
    }
  }

  lemma SumKeysAdd<V>(m: map<string, V>, f: V -> TokenUsage, keys: set<string>, k: string)
    requires keys <= m.Keys && k in m && k !in keys
    ensures SumKeys(m, f, keys + {k}) == AddUsage(SumKeys(m, f, keys), f(m[k]))
  {
    SumKeysRemove(m, f, keys + {k}, k);
    assert keys + {k} - {k} == keys;
  }

  lemma {:induction false} SumKeysUnion<V>(m: map<string, V>, f: V -> TokenUsage, a: set<string>, b: set<string>)
    requires a <= m.Keys && b <= m.Keys && a !! b
    ensures SumKeys(m, f, a + b) == AddUsage(SumKeys(m, f, a), SumKeys(m, f, b))
    decreases b
  {
    if b == {} {
      assert a + b == a;
      AddUsageSwap(SumKeys(m, f, a), NO_USAGE, NO_USAGE);
    } else {
      var k := AnyOf(b);
      SumKeysRemove(m, f, a + b, k);
      assert a + b - {k} == a + (b - {k});
      SumKeysUnion(m, f, a, b - {k});
      SumKeysRemove(m, f, b, k);
      AddUsageSwap(SumKeys(m, f, a), SumKeys(m, f, b - {k}), f(m[k]));
    }
  }

  // ------------------------------------------- counter sums as plain sums ----

  function InputOf(u: TokenUsage): nat { u.input }
  function CachedInputOf(u: TokenUsage): nat { u.cachedInput }
  function CacheWriteOf(u: TokenUsage): nat { u.cacheWrite }
  function OutputOf(u: TokenUsage): nat { u.output }
  function ReasoningOf(u: TokenUsage): nat { u.reasoning }
  function TotalOf(u: TokenUsage): nat { u.total }

  /** Each counter of u is the plain sum of that counter over parts, modulo 2^64. */
  ghost predicate IsSum(u: TokenUsage, parts: seq<TokenUsage>) {
    && u.input == SumOf(InputOf, parts) % 0x1_0000_0000_0000_0000
    && u.cachedInput == SumOf(CachedInputOf, parts) % 0x1_0000_0000_0000_0000
    && u.cacheWrite == SumOf(CacheWriteOf, parts) % 0x1_0000_0000_0000_0000
    && u.output == SumOf(OutputOf, parts) % 0x1_0000_0000_0000_0000
    && u.reasoning == SumOf(ReasoningOf, parts) % 0x1_0000_0000_0000_0000
    && u.total == SumOf(TotalOf, parts) % 0x1_0000_0000_0000_0000
  }

  lemma SumOfSnoc<T>(f: T -> nat, s: seq<T>, x: T)
    ensures SumOf(f, s + [x]) == SumOf(f, s) + f(x)
  {
    SumOfConcat(f, s, [x]);
    SumOfOne(f, x);
  }

  lemma Add64Sum(a: U64, n: nat, b: U64)
    requires a == n % 0x1_0000_0000_0000_0000
    ensures Add64(a, b) == (n + b) % 0x1_0000_0000_0000_0000
  {
    WrapAdd(n, b);
  }

  lemma CounterSnoc<T>(f: T -> nat, parts: seq<T>, a: U64, v: T, b: U64)
    requires a == SumOf(f, parts) % 0x1_0000_0000_0000_0000 && b == f(v)
    ensures Add64(a, b) == SumOf(f, parts + [v]) % 0x1_0000_0000_0000_0000
  {
    SumOfSnoc(f, parts, v);
    Add64Sum(a, SumOf(f, parts), b);
  }

  lemma IsSumSnoc(u: TokenUsage, parts: seq<TokenUsage>, v: TokenUsage)
    requires IsSum(u, parts)
    ensures IsSum(AddUsage(u, v), parts + [v])
  {
    CounterSnoc(InputOf, parts, u.input, v, v.input);
    CounterSnoc(CachedInputOf, parts, u.cachedInput, v, v.cachedInput);
    CounterSnoc(CacheWriteOf, parts, u.cacheWrite, v, v.cacheWrite);
    CounterSnoc(OutputOf, parts, u.output, v, v.output);
    CounterSnoc(ReasoningOf, parts, u.reasoning, v, v.reasoning);
    CounterSnoc(TotalOf, parts, u.total, v, v.total);
  }

  /** One counter added up over the entries at keys. */
  ghost function SumAt<V>(m: map<string, V>, f: V -> TokenUsage, counter: TokenUsage -> nat, keys: set<string>): nat
    requires keys <= m.Keys
  {
    if keys == {} then 0 else var k := AnyOf(keys); SumAt(m, f, counter, keys - {k}) + counter(f(m[k]))
  }

  lemma {:induction false} SumAtRemove<V>(
      m: map<string, V>, f: V -> TokenUsage, counter: TokenUsage -> nat, keys: set<string>, k: string)
    requires keys <= m.Keys && k in keys
    ensures SumAt(m, f, counter, keys) == SumAt(m, f, counter, keys - {k}) + counter(f(m[k]))
    decreases keys
  {
    var p := AnyOf(keys);
    if p != k {
      SumAtRemove(m, f, counter, keys - {p}, k);
      SumAtRemove(m, f, counter, keys - {k}, p);
      assert keys - {p} - {k} == keys - {k} - {p};
    }
  }

  /** Each counter of u is the plain sum of that counter over the entries at keys, modulo 2^64. */
  ghost predicate IsSumAt<V>(u: TokenUsage, m: map<string, V>, f: V -> TokenUsage, keys: set<string>)
    requires keys <= m.Keys
  {
    && u.input == SumAt(m, f, InputOf, keys) % 0x1_0000_0000_0000_0000
    && u.cachedInput == SumAt(m, f, CachedInputOf, keys) % 0x1_0000_0000_0000_0000
    && u.cacheWrite == SumAt(m, f, CacheWriteOf, keys) % 0x1_0000_0000_0000_0000
    && u.output == SumAt(m, f, OutputOf, keys) % 0x1_0000_0000_0000_0000
    && u.reasoning == SumAt(m, f, ReasoningOf, keys) % 0x1_0000_0000_0000_0000
    && u.total == SumAt(m, f, TotalOf, keys) % 0x1_0000_0000_0000_0000
  }

  lemma CounterAt<V>(
      m: map<string, V>, f: V -> TokenUsage, counter: TokenUsage -> nat, keys: set<string>, k: string, a: U64, b: U64)
    requires keys <= m.Keys && k in keys && b == counter(f(m[k]))
    requires a == SumAt(m, f, counter, keys - {k}) % 0x1_0000_0000_0000_0000
    ensures Add64(a, b) == SumAt(m, f, counter, keys) % 0x1_0000_0000_0000_0000
  {
    SumAtRemove(m, f, counter, keys, k);
    Add64Sum(a, SumAt(m, f, counter, keys - {k}), b);
  }

  lemma {:induction false} SumKeysIsSum<V>(m: map<string, V>, f: V -> TokenUsage, keys: set<string>)
    requires keys <= m.Keys
    ensures IsSumAt(SumKeys(m, f, keys), m, f, keys)
    decreases keys
  {
    if keys != {} {
      var k := AnyOf(keys);
      var u, v := SumKeys(m, f, keys - {k}), f(m[k]);
      SumKeysIsSum(m, f, keys - {k});
      CounterAt(m, f, InputOf, keys, k, u.input, v.input);
      CounterAt(m, f, CachedInputOf, keys, k, u.cachedInput, v.cachedInput);
      CounterAt(m, f, CacheWriteOf, keys, k, u.cacheWrite, v.cacheWrite);
      CounterAt(m, f, OutputOf, keys, k, u.output, v.output);
      CounterAt(m, f, ReasoningOf, keys, k, u.reasoning, v.reasoning);
      CounterAt(m, f, TotalOf, keys, k, u.total, v.total);
    }
  }

  function AddedOf(m: AgentMetrics): nat { m.linesAdded }
  function RemovedOf(m: AgentMetrics): nat { m.linesRemoved }
  function CommitsOf(m: AgentMetrics): nat { m.commits }
  function PullRequestsOf(m: AgentMetrics): nat { m.pullRequests }
  function CostOf(m: AgentMetrics): real { m.costUSD }
  function ActiveOf(m: AgentMetrics): real { m.activeSeconds }

  function SumReal<T>(f: T -> real, s: seq<T>): real {
    if s == [] then 0.0 else SumReal(f, s[..|s| - 1]) + f(s[|s| - 1])
  }

  /** The integer metrics of m are plain sums modulo 2^64, cost and time real sums. */
  ghost predicate IsMetricSum(m: AgentMetrics, parts: seq<AgentMetrics>) {
    && m.linesAdded == SumOf(AddedOf, parts) % 0x1_0000_0000_0000_0000
    && m.linesRemoved == SumOf(RemovedOf, parts) % 0x1_0000_0000_0000_0000
    && m.commits == SumOf(CommitsOf, parts) % 0x1_0000_0000_0000_0000
    && m.pullRequests == SumOf(PullRequestsOf, parts) % 0x1_0000_0000_0000_0000
    && m.costUSD == SumReal(CostOf, parts) && m.activeSeconds == SumReal(ActiveOf, parts)
  }

  lemma IsMetricSumSnoc(m: AgentMetrics, parts: seq<AgentMetrics>, v: AgentMetrics)
    requires IsMetricSum(m, parts)
    ensures IsMetricSum(AddMetrics(m, v), parts + [v])
  {
    CounterSnoc(AddedOf, parts, m.linesAdded, v, v.linesAdded);
    CounterSnoc(RemovedOf, parts, m.linesRemoved, v, v.linesRemoved);
    CounterSnoc(CommitsOf, parts, m.commits, v, v.commits);
    CounterSnoc(PullRequestsOf, parts, m.pullRequests, v, v.pullRequests);
    assert (parts + [v])[..|parts|] == parts;
  }

  // ------------------------------------- what "last" and "first" come down to --

  /** x is the last of the items that is not blank, or blank if all are. */
  ghost predicate IsLastSet<T>(items: seq<T>, blank: T, x: T) {
    if x == blank then forall i :: 0 <= i < |items| ==> items[i] == blank
    else exists i :: 0 <= i < |items| && items[i] == x && forall j :: i < j < |items| ==> items[j] == blank
  }

  lemma EndsBlank<T>(items: seq<T>, blank: T, x: T)
    requires items != [] && items[|items| - 1] == blank && IsLastSet(items[..|items| - 1], blank, x)
    ensures IsLastSet(items, blank, x)
  {
    var init := items[..|items| - 1];
    if x != blank {
      var i :| 0 <= i < |init| && init[i] == x && forall j :: i < j < |init| ==> init[j] == blank;
      assert items[i] == x && forall j :: i < j < |init| ==> items[j] == init[j];
    } else {
      assert forall j :: 0 <= j < |init| ==> items[j] == init[j];
    }
  }

  lemma EndsSet<T>(items: seq<T>, blank: T)
    requires items != []
    ensures items[|items| - 1] != blank ==> IsLastSet(items, blank, items[|items| - 1])
  {
  }

  lemma {:induction false} LastTextIs(texts: seq<string>)
    ensures IsLastSet(texts, "", LastText(texts))
    decreases |texts|
  {
    if texts != [] {
      EndsSet(texts, "");
      if texts[|texts| - 1] == "" {
        LastTextIs(texts[..|texts| - 1]);
        EndsBlank(texts, "", LastText(texts));
      }
    }
  }

  lemma {:induction false} LastTimeIs(times: seq<Time>)
    ensures IsLastSet(times, 0, LastTime(times))
    decreases |times|
  {
    if times != [] {
      EndsSet(times, 0);
      if times[|times| - 1] == 0 {
        LastTimeIs(times[..|times| - 1]);
        EndsBlank(times, 0, LastTime(times));
      }
    }
  }

  /** n is the last of the numbers above 0, or 0 if none is. */
  ghost predicate IsLastPositive(numbers: seq<int>, n: int) {
    if n == 0 then forall i :: 0 <= i < |numbers| ==> numbers[i] <= 0
    else exists i :: 0 <= i < |numbers| && numbers[i] == n > 0 && forall j :: i < j < |numbers| ==> numbers[j] <= 0
  }

  lemma {:induction false} LastPositiveIs(numbers: seq<int>)
    ensures IsLastPositive(numbers, LastPositive(numbers))
    decreases |numbers|
  {
    if numbers != [] && numbers[|numbers| - 1] <= 0 {
      var init := numbers[..|numbers| - 1];
      LastPositiveIs(init);
      if LastPositive(numbers) != 0 {
        var i :| 0 <= i < |init| && init[i] == LastPositive(numbers) > 0 && forall j :: i < j < |init| ==> init[j] <= 0;
        assert numbers[i] == LastPositive(numbers);
      }
    }
  }

  /** t is the first of the times that is set, or unset if none is. */
  ghost predicate IsFirstTime(times: seq<Time>, t: Time) {
    if t == 0 then forall i :: 0 <= i < |times| ==> times[i] == 0
    else exists i :: 0 <= i < |times| && times[i] == t && forall j :: 0 <= j < i ==> times[j] == 0
  }

  lemma {:induction false} FirstTimeIs(times: seq<Time>)
    ensures IsFirstTime(times, FirstTime(times))
    decreases |times|
  {
    if times != [] && times[0] == 0 {
      var rest := times[1..];
      FirstTimeIs(rest);
      if FirstTime(times) != 0 {
        var i :| 0 <= i < |rest| && rest[i] == FirstTime(times) && forall j :: 0 <= j < i ==> rest[j] == 0;
        assert times[i + 1] == FirstTime(times);
      }
    }
  }

  /** t is the latest of the times after the zero time, or zero if none is. */
  ghost predicate IsLatest(times: seq<Time>, t: Time) {
    t >= 0 && (t == 0 || t in times) && forall x :: x in times ==> x <= t
  }
}
