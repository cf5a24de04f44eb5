// filepath.Clean and filepath.Base on slash-separated paths.
module Paths {

  function Split(path: string): (r: seq<string>)
    ensures |r| > 0
  {
    if path == "" then [""]
    else
      var rest := Split(path[1..]);
      if path[0] == '/' then [""] + rest else [[path[0]] + rest[0]] + rest[1..]
  }

  function JoinSlash(parts: seq<string>): string {
    if parts == [] then "" else if |parts| == 1 then parts[0] else parts[0] + "/" + JoinSlash(parts[1..])
  }

  /** One path element pushed onto the elements kept so far. */
  function PushElement(kept: seq<string>, part: string, rooted: bool): seq<string> {
    if part == "" || part == "." then kept
    else if part != ".." then kept + [part]
    else if kept != [] && kept[|kept| - 1] != ".." then kept[..|kept| - 1]
    else if rooted then kept
    else kept + [".."]
  }

  function Elements(parts: seq<string>, rooted: bool): seq<string> {
    if parts == [] then []
    else PushElement(Elements(parts[..|parts| - 1], rooted), parts[|parts| - 1], rooted)
  }

  function Clean(path: string): string {
    var rooted := path != "" && path[0] == '/';
    var kept := Elements(Split(path), rooted);
    if rooted then "/" + JoinSlash(kept) else if kept == [] then "." else JoinSlash(kept)
  }

  function TrimSlashes(path: string): string {
    if path != "" && path[|path| - 1] == '/' then TrimSlashes(path[..|path| - 1]) else path
  }

  function LastElement(path: string): string {
    if path == "" || path[|path| - 1] == '/' then "" else LastElement(path[..|path| - 1]) + [path[|path| - 1]]
  }

  function Base(path: string): string {
    if path == "" then "."
    else
      var name := LastElement(TrimSlashes(path));
      if name == "" then "/" else name
  }

  function ProjectName(cwd: string): string {
    var name := Base(Clean(cwd));
    if name == "." || name == "/" || name == "" then "unknown" else name
  }

  // --------------------------------------------------- splitting at slashes --

  /** Splitting is what a slash between two texts does to them. */
  lemma {:induction false} SplitSlash(p: string, q: string)
    ensures Split(p + "/" + q) == Split(p) + Split(q)
    decreases |p|
  {
    var all := p + "/" + q;
    if p == "" {
      assert all[1..] == q;
    } else {
      assert all[1..] == p[1..] + "/" + q;
      SplitSlash(p[1..], q);
    }
  }

  lemma {:induction false} SplitPlain(x: string)
    requires '/' !in x
    ensures Split(x) == [x]
    decreases |x|
  {
    if x != "" {
      assert x == [x[0]] + x[1..];
      SplitPlain(x[1..]);
    }
  }

  /** Elements have no slash, and joined they are the path. */
  lemma {:induction false} SplitParts(p: string)
    ensures forall i :: 0 <= i < |Split(p)| ==> '/' !in Split(p)[i]
    ensures JoinSlash(Split(p)) == p
    decreases |p|
  {
    if p != "" {
      SplitParts(p[1..]);
      var rest := Split(p[1..]);
      assert p == [p[0]] + p[1..];
      if p[0] == '/' {
        assert ([""] + rest)[1..] == rest;
        assert JoinSlash(Split(p)) == "" + "/" + JoinSlash(rest);
      } else {
        PrependJoin(p[0], rest);
      }
    }
  }

  lemma PrependJoin(c: char, parts: seq<string>)
    requires parts != []
    ensures JoinSlash([[c] + parts[0]] + parts[1..]) == [c] + JoinSlash(parts)
  {
    var more := [[c] + parts[0]] + parts[1..];
    if |parts| > 1 {
      assert more[1..] == parts[1..];
      assert more[0] + "/" + JoinSlash(parts[1..]) == [c] + (parts[0] + "/" + JoinSlash(parts[1..]));
    } else {
      assert more == [[c] + parts[0]];
    }
  }

  lemma {:induction false} SplitJoin(parts: seq<string>)
    requires parts != [] && forall i :: 0 <= i < |parts| ==> '/' !in parts[i]
    ensures Split(JoinSlash(parts)) == parts
    decreases |parts|
  {
    SplitPlain(parts[0]);
    if |parts| > 1 {
      SplitJoin(parts[1..]);
      SplitSlash(parts[0], JoinSlash(parts[1..]));
    }
  }

  // ------------------------------------------------------------- clean paths --

  /** Names only, after ".." in a relative path at most. */
  ghost predicate Normal(kept: seq<string>, rooted: bool) {
    && (forall i :: 0 <= i < |kept| ==> kept[i] != "" && kept[i] != "." && '/' !in kept[i])
    && (forall i :: 0 <= i < |kept| && kept[i] == ".." ==> !rooted && forall j :: 0 <= j < i ==> kept[j] == "..")
  }

  /**
   * A path in normal form: the root, the current directory, or elements none of which is
   * empty or ".", with ".." only where a relative path starts.
   */
  ghost predicate IsClean(p: string) {
    p == "." || p == "/" || (p != "" && Normal(if p[0] == '/' then Split(p)[1..] else Split(p), p[0] == '/'))
  }

  lemma PushNormal(kept: seq<string>, part: string, rooted: bool)
    requires Normal(kept, rooted) && '/' !in part
    ensures Normal(PushElement(kept, part, rooted), rooted)
  {
  }

  lemma {:induction false} ElementsNormal(parts: seq<string>, rooted: bool)
    requires forall i :: 0 <= i < |parts| ==> '/' !in parts[i]
    ensures Normal(Elements(parts, rooted), rooted)
    decreases |parts|
  {
    if parts != [] {
      ElementsNormal(parts[..|parts| - 1], rooted);
      PushNormal(Elements(parts[..|parts| - 1], rooted), parts[|parts| - 1], rooted);
    }
  }

  lemma {:induction false} ElementsFix(parts: seq<string>, rooted: bool)
    requires Normal(parts, rooted)
    ensures Elements(parts, rooted) == parts
    decreases |parts|
  {
    if parts != [] {
      var init, last := parts[..|parts| - 1], parts[|parts| - 1];
      assert parts == init + [last];
      ElementsFix(init, rooted);
      if last == ".." && init != [] { assert init[|init| - 1] == ".."; }
    }
  }

  /** What comes after sees only the elements kept so far. */
  lemma {:induction false} SameElementsAfter(a: seq<string>, b: seq<string>, rest: seq<string>, rooted: bool)
    requires Elements(a, rooted) == Elements(b, rooted)
    ensures Elements(a + rest, rooted) == Elements(b + rest, rooted)
    decreases |rest|
  {
    if rest == [] {
      assert a + rest == a && b + rest == b;
    } else {
      var init := rest[..|rest| - 1];
      SameElementsAfter(a, b, init, rooted);
      assert (a + rest)[..|a + rest| - 1] == a + init && (b + rest)[..|b + rest| - 1] == b + init;
    }
  }

  lemma ElementsSnoc(parts: seq<string>, part: string, rooted: bool)
    ensures Elements(parts + [part], rooted) == PushElement(Elements(parts, rooted), part, rooted)
  {
    assert (parts + [part])[..|parts|] == parts;
  }

  lemma EmptyFirst(parts: seq<string>, rooted: bool)
    ensures Elements([""] + parts, rooted) == Elements(parts, rooted)
  {
    ElementsSnoc([], "", rooted);
    assert [] + [""] == [""] && [] + parts == parts;
    SameElementsAfter([""], [], parts, rooted);
  }

  /** The result of cleaning is clean. */
  lemma CleanIsClean(p: string)
    ensures IsClean(Clean(p))
  {
    var rooted := p != "" && p[0] == '/';
    var kept := Elements(Split(p), rooted);
    SplitParts(p);
    ElementsNormal(Split(p), rooted);
    if kept != [] {
      SplitJoin(kept);
      SplitSlash("", JoinSlash(kept));
      assert "" + "/" + JoinSlash(kept) == "/" + JoinSlash(kept);
      JoinStarts(kept);
    }
  }

  lemma JoinStarts(parts: seq<string>)
    requires parts != [] && parts[0] != "" && '/' !in parts[0]
    ensures JoinSlash(parts) != "" && JoinSlash(parts)[0] != '/'
  {
    assert parts[0][0] in parts[0];
  }

  /** Cleaning leaves exactly the clean paths alone. */
  lemma CleanExactly(p: string)
    ensures Clean(p) == p <==> IsClean(p)
  {
    if Clean(p) == p { CleanIsClean(p); }
    if IsClean(p) { CleanKeeps(p); }
  }

  lemma CleanKeeps(p: string)
    requires IsClean(p)
    ensures Clean(p) == p
  {
    SplitParts(p);
    if p == "." {
      SplitPlain(".");
      ElementsSnoc([], ".", false);
      assert [] + ["."] == ["."];
    } else if p == "/" {
      SplitSlash("", "");
      assert "" + "/" + "" == "/";
      EmptyFirst([""], true);
      EmptyFirst([], true);
      assert [""] + [""] == ["", ""] && [""] + [] == [""];
    } else if p[0] == '/' {
      RootedParts(p);
      EmptyFirst(Split(p)[1..], true);
      ElementsFix(Split(p)[1..], true);
    } else {
      ElementsFix(Split(p), false);
    }
  }

  lemma RootedParts(p: string)
    requires p != "" && p[0] == '/'
    ensures Split(p) == [""] + Split(p)[1..] && Split(p)[1..] == Split(p[1..])
    ensures p == "/" + JoinSlash(Split(p)[1..])
  {
    SplitParts(p[1..]);
    assert p == "/" + p[1..];
  }

  lemma CleanTwice(p: string)
    ensures Clean(Clean(p)) == Clean(p)
  {
    CleanIsClean(p);
    CleanExactly(Clean(p));
  }

  /** Paths that start alike and keep the same elements clean alike, whatever follows. */
  lemma SameClean(p: string, q: string)
    requires p != "" && q != "" && (p[0] == '/' <==> q[0] == '/')
    requires Elements(Split(p), p[0] == '/') == Elements(Split(q), p[0] == '/')
    ensures Clean(p) == Clean(q)
  {
  }

  /** An empty element and "." between slashes mean nothing. */
  lemma CleanDrops(p: string, part: string, q: string)
    requires part == "" || part == "."
    ensures Clean(p + "/" + part + "/" + q) == Clean(p + "/" + q)
  {
    var rooted := p == "" || p[0] == '/';
    SplitSlash(p + "/" + part, q);
    SplitSlash(p, part);
    SplitSlash(p, q);
    SplitPlain(part);
    ElementsSnoc(Split(p), part, rooted);
    SameElementsAfter(Split(p) + [part], Split(p), Split(q), rooted);
    SameClean(p + "/" + part + "/" + q, p + "/" + q);
  }

  /** Nor do they at the end. */
  lemma CleanDropsLast(p: string, part: string)
    requires p != "" && (part == "" || part == ".")
    ensures Clean(p + "/" + part) == Clean(p)
  {
    SplitSlash(p, part);
    SplitPlain(part);
    ElementsSnoc(Split(p), part, p[0] == '/');
    SameClean(p + "/" + part, p);
  }

  predicate IsName(x: string) { x != "" && x != "." && x != ".." && '/' !in x }

  lemma NameAndBack(kept: seq<string>, x: string, rooted: bool)
    requires IsName(x)
    ensures PushElement(PushElement(kept, x, rooted), "..", rooted) == kept
  {
    assert (kept + [x])[..|kept|] == kept;
  }

  lemma SplitNameBack(p: string, x: string)
    requires IsName(x)
    ensures Split(p + "/" + x + "/..") == Split(p) + [x] + [".."]
  {
    SplitSlash(p + "/" + x, "..");
    SplitSlash(p, x);
    SplitPlain(x);
    SplitPlain("..");
    assert p + "/" + x + "/" + ".." == p + "/" + x + "/..";
  }

  lemma ElementsBack(p: string, x: string, rooted: bool)
    requires IsName(x)
    ensures Elements(Split(p + "/" + x + "/.."), rooted) == Elements(Split(p), rooted)
  {
    SplitNameBack(p, x);
    ElementsSnoc(Split(p), x, rooted);
    ElementsSnoc(Split(p) + [x], "..", rooted);
    NameAndBack(Elements(Split(p), rooted), x, rooted);
  }

  /** A name and the ".." behind it cancel, in the middle and at the end. */
  lemma CleanBacks(p: string, x: string, q: string)
    requires IsName(x)
    ensures Clean(p + "/" + x + "/../" + q) == Clean(p + "/" + q)
    ensures p != "" ==> Clean(p + "/" + x + "/..") == Clean(p)
  {
    var rooted := p == "" || p[0] == '/';
    var back := p + "/" + x + "/..";
    ElementsBack(p, x, rooted);
    SplitSlash(back, q);
    SplitSlash(p, q);
    assert back + "/" + q == p + "/" + x + "/../" + q;
    SameElementsAfter(Split(back), Split(p), Split(q), rooted);
    SameClean(p + "/" + x + "/../" + q, p + "/" + q);
    if p != "" { SameClean(back, p); }
  }

  lemma SplitRootParent(q: string)
    ensures Split("/../" + q) == [""] + [".."] + Split(q) && Split("/" + q) == [""] + Split(q)
  {
    SplitSlash("", q);
    SplitSlash("..", q);
    SplitSlash("", "../" + q);
    SplitPlain("..");
    assert "" + "/" + q == "/" + q && ".." + "/" + q == "../" + q && "" + "/" + ("../" + q) == "/../" + q;
  }

  /** There is nothing above the root. */
  lemma CleanRootParent(q: string)
    ensures Clean("/../" + q) == Clean("/" + q)
  {
    SplitRootParent(q);
    ElementsSnoc([""], "..", true);
    ElementsSnoc([], "", true);
    assert [] + [""] == [""];
    SameElementsAfter([""] + [".."], [""], Split(q), true);
    SameClean("/../" + q, "/" + q);
  }

  /** A relative path starts in the current directory anyway. */
  lemma CleanLeadingDot(q: string)
    requires q != "" && q[0] != '/'
    ensures Clean("./" + q) == Clean(q)
  {
    SplitPlain(".");
    SplitSlash(".", q);
    assert "." + "/" + q == "./" + q;
    ElementsSnoc([], ".", false);
    assert [] + ["."] == ["."] && [] + Split(q) == Split(q);
    SameElementsAfter(["."], [], Split(q), false);
    SameClean("./" + q, q);
  }

  lemma CleanEmpty()
    ensures Clean("") == "."
  {
    ElementsSnoc([], "", false);
    assert [] + [""] == [""];
  }

  // ---------------------------------------------------------- the last element --

  lemma {:induction false} SplitAppend(p: string, c: char)
    requires c != '/'
    ensures var s := Split(p); Split(p + [c]) == s[..|s| - 1] + [s[|s| - 1] + [c]]
    decreases |p|
  {
    if p == "" {
      SplitPlain([c]);
      assert "" + [c] == [c] && [""][..0] + [[c]] == [[c]];
    } else {
      assert (p + [c])[1..] == p[1..] + [c];
      SplitAppend(p[1..], c);
      var rest := Split(p[1..]);
      if p[0] == '/' {
        assert ([""] + rest)[..|rest|] == [""] + rest[..|rest| - 1];
      } else {
        PrependLast(p[0], rest, c);
      }
    }
  }

  lemma PrependLast(d: char, rest: seq<string>, c: char)
    requires rest != []
    ensures var more := rest[..|rest| - 1] + [rest[|rest| - 1] + [c]];
            var s := [[d] + rest[0]] + rest[1..];
            [[d] + more[0]] + more[1..] == s[..|s| - 1] + [s[|s| - 1] + [c]]
  {
    var more := rest[..|rest| - 1] + [rest[|rest| - 1] + [c]];
    var s := [[d] + rest[0]] + rest[1..];
    var l, r := [[d] + more[0]] + more[1..], s[..|s| - 1] + [s[|s| - 1] + [c]];
    forall i | 0 <= i < |l| ensures l[i] == r[i] {
      if i == 0 && |rest| == 1 { assert [d] + (rest[0] + [c]) == [d] + rest[0] + [c]; }
    }
  }

  lemma {:induction false} LastElementIs(p: string)
    ensures LastElement(p) == Split(p)[|Split(p)| - 1]
    decreases |p|
  {
    if p != "" {
      var init, c := p[..|p| - 1], p[|p| - 1];
      assert p == init + [c];
      if c == '/' {
        assert p == init + "/" + "";
        SplitSlash(init, "");
      } else {
        LastElementIs(init);
        SplitAppend(init, c);
      }
    }
  }

  /** name is the last element of the path that is not empty, if there is one. */
  ghost predicate IsLastName(p: string, name: string) {
    var s := Split(p);
    if name == "" then forall i :: 0 <= i < |s| ==> s[i] == ""
    else exists i :: 0 <= i < |s| && s[i] == name && forall j :: i < j < |s| ==> s[j] == ""
  }

  lemma {:induction false} TrimmedLast(p: string)
    ensures IsLastName(p, LastElement(TrimSlashes(p)))
    decreases |p|
  {
    var s := Split(p);
    if p != "" && p[|p| - 1] == '/' {
      var init := p[..|p| - 1];
      assert p == init + "/" + "";
      SplitSlash(init, "");
      TrimmedLast(init);
      LastNameSnoc(init, p, LastElement(TrimSlashes(p)));
    } else {
      LastElementIs(p);
      if p != "" { LastNotEmpty(p); }
      assert s[|s| - 1] == LastElement(p);
    }
  }

  lemma LastNotEmpty(p: string)
    requires p != "" && p[|p| - 1] != '/'
    ensures LastElement(p) != ""
  {
  }

  lemma LastNameSnoc(p: string, q: string, name: string)
    requires IsLastName(p, name) && Split(q) == Split(p) + [""]
    ensures IsLastName(q, name)
  {
    if name != "" {
      var s := Split(p);
      var i :| 0 <= i < |s| && s[i] == name && forall j :: i < j < |s| ==> s[j] == "";
      assert Split(q)[i] == name;
    }
  }

  /** The base name of a path is its last element that is not empty; "/" if all are, "." for no path. */
  lemma BaseIsLast(p: string)
    ensures p == "" ==> Base(p) == "."
    ensures p != "" && (forall i :: 0 <= i < |Split(p)| ==> Split(p)[i] == "") ==> Base(p) == "/"
    ensures p != "" && (exists i :: 0 <= i < |Split(p)| && Split(p)[i] != "") ==>
              Base(p) != "" && IsLastName(p, Base(p))
  {
    if p != "" { TrimmedLast(p); }
  }

  lemma CleanLast(c: string)
    requires IsClean(c) && c != "/"
    ensures c != "" && Split(c)[|Split(c)| - 1] != "" && (c != "." ==> Split(c)[|Split(c)| - 1] != ".")
  {
    SplitPlain(".");
    SplitParts(c);
    if c != "." && c[0] == '/' {
      RootedParts(c);
      assert Split(c)[|Split(c)| - 1] == Split(c)[1..][|Split(c)| - 2];
    }
  }

  lemma BaseOfClean(c: string)
    requires IsClean(c)
    ensures Base(c) == if c == "/" then "/" else Split(c)[|Split(c)| - 1]
  {
    BaseIsLast(c);
    if c == "/" {
      SplitSlash("", "");
      assert "" + "/" + "" == "/";
    } else {
      CleanLast(c);
      LastNameLast(c, Base(c));
    }
  }

  /** A project is named after the last element of its cleaned directory. */
  lemma ProjectIsLast(cwd: string)
    ensures var c := Clean(cwd);
            ProjectName(cwd) == if c == "." || c == "/" then "unknown" else Split(c)[|Split(c)| - 1]
  {
    var c := Clean(cwd);
    CleanIsClean(cwd);
    BaseOfClean(c);
    SplitParts(c);
    if c == "." {
      SplitPlain(".");
    } else if c != "/" {
      CleanLast(c);
      assert "/"[0] == '/';
    }
  }

  lemma LastNameLast(c: string, name: string)
    requires name != "" && IsLastName(c, name) && Split(c)[|Split(c)| - 1] != ""
    ensures name == Split(c)[|Split(c)| - 1]
  {
  }
}
