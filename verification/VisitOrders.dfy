// Orders in which a set of keys can be visited.
module VisitOrders {
  import opened Base
  import opened ComposeSafety
  import opened Composition

  /** The keys of an order that belong to a set, in that order. */
  function Among(order: seq<string>, keys: set<string>): seq<string> {
    if order == [] then []
    else Among(order[..|order| - 1], keys) + if order[|order| - 1] in keys then [order[|order| - 1]] else []
  }

  lemma AmongLast(order: seq<string>, keys: set<string>)
    requires order != []
    ensures var init, last := Among(order[..|order| - 1], keys), order[|order| - 1];
            Among(order, keys) == if last in keys then init + [last] else init
  {
  }

  lemma {:induction false} AmongConcat(a: seq<string>, b: seq<string>, keys: set<string>)
    ensures Among(a + b, keys) == Among(a, keys) + Among(b, keys)
    decreases |b|
  {
    if b == [] {
      assert a + b == a;
    } else {
      var init := b[..|b| - 1];
      AmongConcat(a, init, keys);
      assert (a + b)[..|a + b| - 1] == a + init;
      AmongLast(a + b, keys);
      AmongLast(b, keys);
    }
  }

  lemma {:induction false} AmongMembers(order: seq<string>, keys: set<string>)
    ensures forall k :: k in Among(order, keys) <==> k in order && k in keys
    ensures (forall k :: k in order ==> k in keys) ==> Among(order, keys) == order
    ensures NoDup(order) ==> NoDup(Among(order, keys))
    decreases |order|
  {
    if order != [] {
      var init, last := order[..|order| - 1], order[|order| - 1];
      assert order == init + [last];
      AmongMembers(init, keys);
      AmongLast(order, keys);
      if NoDup(order) {
        SplitLast(order);
        if last in keys { NoDupConcat(Among(init, keys), [last]); }
      }
    }
  }

  ghost function SomeOrder(keys: set<string>): (order: seq<string>)
    ensures OrderOf(order, keys)
  {
    if keys == {} then []
    else
      var k := AnyOf(keys);
      NoDupConcat([k], SomeOrder(keys - {k}));
      [k] + SomeOrder(keys - {k})
  }

  /** Any order of some of the keys is what an order of all of them looks like among those. */
  lemma Extend(a: seq<string>, part: set<string>, keys: set<string>) returns (order: seq<string>)
    requires OrderOf(a, part) && part <= keys
    ensures OrderOf(order, keys) && Among(order, part) == a
    ensures a <= order
  {
    var rest := SomeOrder(keys - part);
    order := a + rest;
    NoDupConcat(a, rest);
    AmongConcat(a, rest, part);
    AmongMembers(a, part);
    AmongMembers(rest, part);
    NoneLeft(Among(rest, part));
  }

  lemma FirstThreeIn(a: seq<string>)
    ensures (|a| > 0 ==> a[0] in a) && (|a| > 1 ==> a[1] in a) && (|a| > 2 ==> a[2] in a)
  {
  }

  /** Two keys have two orders. */
  lemma SmallOrders(a: seq<string>, keys: set<string>, k: string, l: string)
    requires OrderOf(a, keys) && keys <= {k, l} && k != l
    ensures a == if k in keys then (if l in keys then (if a == [k, l] then [k, l] else [l, k]) else [k])
                 else (if l in keys then [l] else [])
  {
    FirstThreeIn(a);
    if k in keys { assert k in a; }
    if l in keys { assert l in a; }
  }

  lemma OnlyOne(a: seq<string>, keys: set<string>, k: string)
    requires NoDup(a) && (forall l :: l in a ==> l in keys) && keys <= {k} && (k in keys ==> k in a)
    ensures a == if k in keys then [k] else []
  {
    FirstThreeIn(a);
  }

  lemma NoneLeft(a: seq<string>)
    requires forall k :: k !in a
    ensures a == []
  {
    FirstThreeIn(a);
  }

  lemma OneOrTwo(keys: set<string>, k: string, l: string)
    requires keys <= {k, l} && k != l
    ensures k in keys && l in keys ==> OrderOf([k, l], keys) && OrderOf([l, k], keys)
    ensures k !in keys ==> OrderOf(if l in keys then [l] else [], keys)
  {
    if k in keys && l in keys { TwoOrders(keys, k, l); }
  }

  lemma TwoOrders(keys: set<string>, k: string, l: string)
    requires keys == {k, l} && k != l
    ensures OrderOf([k, l], keys) && OrderOf([l, k], keys)
  {
  }
}
