// The marked block that `biewer hooks install` keeps in the shell's rc file:
// how it is found, removed and re-added (internal/cli/hooks_cmd.go).
module RcBlock {
  import opened Text

  /** A newline-free marker lies wholly before or wholly after a given newline. */
  lemma NoStraddle(a: string, b: string, m: string, j: nat)
    requires '\n' !in m && m != ""
    requires OccursAt(a + "\n" + b, m, j)
    ensures OccursAt(a, m, j) || (j > |a| && OccursAt(b, m, j - |a| - 1))
  {
    var c := a + "\n" + b;
    if j > |a| {
      assert c[j..j + |m|] == b[j - |a| - 1..j - |a| - 1 + |m|];
    } else if j + |m| <= |a| {
      assert c[j..j + |m|] == a[j..j + |m|];
    } else {
      CharAt(c, m, j, |a| - j);
    }
  }

  // -------------------------------------------------------------- the code --

  function StripMarkedBlock(content: string, begin: string, end: string): string {
    var startIdx := Index(content, begin);
    if startIdx < 0 then content
    else
      var found := Index(content[startIdx..], end);
      if found < 0 then content
      else
        var endIdx := startIdx + found + |end|;
        var endIdx' := if endIdx < |content| && content[endIdx] == '\n' then endIdx + 1 else endIdx;
        var startIdx' := if startIdx > 0 && content[startIdx - 1] == '\n' then startIdx - 1 else startIdx;
        content[..startIdx'] + content[endIdx'..]
  }

  /** The newline install adds to a text that is neither empty nor newline-terminated. */
  function Normalize(c: string): string {
    if c != "" && c[|c| - 1] != '\n' then c + "\n" else c
  }

  /** A block of shell text between its two markers. */
  datatype Block = Block(begin: string, body: string, end: string) {

    function Text(): string { begin + body + end + "\n" }

    function Strip(content: string): string { StripMarkedBlock(content, begin, end) }

    /** The rc text `hooks install` writes over an existing one. */
    function Install(existing: string): string {
      Normalize(Strip(existing)) + "\n" + Text()
    }

    /** The rc text after `hooks uninstall`, and whether the file is written at all. */
    function Uninstall(existing: string): (string, bool) {
      var stripped := Strip(existing);
      (stripped, stripped != existing)
    }

    /** Markers are lines of their own and the block's end marker is its first. */
    ghost predicate WellMarked() {
      && '\n' !in begin && '\n' !in end && |begin| > 1 && end != ""
      && forall j :: 0 <= j < |begin + body| ==> !OccursAt(begin + body + end, end, j)
    }
  }

  // ------------------------------------------------ markers and the block ---

  /** The first end marker after a block's begin is the block's own. */
  lemma EndMarkerOfBlock(b: Block, q: string)
    requires b.WellMarked()
    ensures Index(b.Text() + q, b.end) == |b.begin + b.body|
  {
    var x := b.begin + b.body;
    var c := b.Text() + q;
    assert c == x + b.end + ("\n" + q);
    assert OccursAt(b.end, b.end, 0);
    OccursInContext(x, b.end, "\n" + q, b.end, 0);
    forall j | 0 <= j < |x| ensures !OccursAt(c, b.end, j) {
      OccursInPrefix(x + b.end, "\n" + q, b.end, j);
    }
  }

  /** A begin marker is first found where the text before it has none. */
  lemma BeginMarkerAfter(b: Block, p: string, q: string)
    requires b.WellMarked() && !Contains(p, b.begin)
    ensures Index(p + "\n" + b.Text() + q, b.begin) == |p| + 1
  {
    var c := p + "\n" + b.Text() + q;
    var r := b.Text() + q;
    assert r[..|b.begin|] == b.begin;
    assert c == (p + "\n") + r + "";
    OccursInContext(p + "\n", r, "", b.begin, 0);
    forall j | 0 <= j <= |p| ensures !OccursAt(c, b.begin, j) {
      if OccursAt(c, b.begin, j) {
        assert c == p + "\n" + r;
        NoStraddle(p, r, b.begin, j);
      }
    }
  }

  // ----------------------------------------------------------- round trips ---

  /** Whatever surrounds an installed block comes back untouched, if no begin marker precedes it. */
  lemma BlockRemoved(b: Block, p: string, q: string)
    requires b.WellMarked() && !Contains(p, b.begin)
    ensures b.Strip(p + "\n" + b.Text() + q) == p + q
  {
    var c := p + "\n" + b.Text() + q;
    BeginMarkerAfter(b, p, q);
    var start := |p| + 1;
    assert c[start..] == b.Text() + q;
    EndMarkerOfBlock(b, q);
    var endIdx := start + |b.begin + b.body| + |b.end|;
    assert c[endIdx] == '\n';
    assert c[start - 1] == '\n';
    assert c[..start - 1] == p;
    assert c[endIdx + 1..] == q;
  }

  lemma NormalizeAddsNoMarker(b: Block, c: string)
    requires b.WellMarked() && !Contains(c, b.begin)
    ensures !Contains(Normalize(c), b.begin)
  {
    if j: nat :| OccursAt(Normalize(c), b.begin, j) {
      if Normalize(c) != c {
        assert Normalize(c) == c + "\n" + "";
        NoStraddle(c, "", b.begin, j);
      }
    }
  }

  /** Uninstall after install gives the text back, newline-terminated unless empty. */
  lemma UninstallUndoesInstall(b: Block, c: string)
    requires b.WellMarked() && !Contains(b.Strip(c), b.begin)
    ensures b.Uninstall(b.Install(c)) == (Normalize(b.Strip(c)), true)
    ensures !Contains(c, b.begin) ==> b.Uninstall(b.Install(c)).0 == Normalize(c)
  {
    var k := Normalize(b.Strip(c));
    NormalizeAddsNoMarker(b, b.Strip(c));
    BlockRemoved(b, k, "");
    assert k + "\n" + b.Text() + "" == b.Install(c);
    assert k + "" == k;
    assert |b.Install(c)| > |k|;
  }

  /** Installing again rewrites the same text. */
  lemma InstallTwice(b: Block, c: string)
    requires b.WellMarked() && !Contains(b.Strip(c), b.begin)
    ensures b.Install(b.Install(c)) == b.Install(c)
  {
    UninstallUndoesInstall(b, c);
    assert Normalize(Normalize(b.Strip(c))) == Normalize(b.Strip(c));
  }

  /** After an install the text ends in an empty line, the two markers with the body between them, and a newline. */
  lemma InstallShows(b: Block, c: string)
    ensures exists p :: b.Install(c) == p + "\n" + b.begin + b.body + b.end + "\n"
                        && (p == b.Strip(c) || p == b.Strip(c) + "\n") && (p == "" || p[|p| - 1] == '\n')
  {
    InOnePiece(Normalize(b.Strip(c)) + "\n", b.begin, b.body, b.end, "\n");
  }

  lemma InOnePiece(p: string, x: string, y: string, z: string, end: string)
    ensures p + (x + y + z + end) == p + x + y + z + end
  {
    assert p + (x + y + z + end) == p + (x + y + z) + end;
    assert p + (x + y + z) == p + (x + y) + z;
    assert p + (x + y) == p + x + y;
  }

  /** Without either marker stripping changes nothing, and uninstall writes nothing. */
  lemma NothingToStrip(b: Block, c: string)
    requires !Contains(c, b.begin)
    ensures b.Strip(c) == c && b.Uninstall(c) == (c, false)
  {
  }

  // ------------------------------------------------- an orphan begin marker --

  lemma FirstBeginKept(c: string, rest: string, m: string, i: nat)
    requires Index(c, m) == i
    ensures Index(c + rest, m) == i
  {
    forall j | 0 <= j <= i ensures OccursAt(c + rest, m, j) <==> OccursAt(c, m, j) {
      OccursInPrefix(c, rest, m, j);
    }
  }

  lemma OrphanEnd(b: Block, u: string, lead: string)
    requires b.WellMarked() && Index(u, b.end) < 0
    requires lead == u || lead == u + "\n"
    ensures Index(lead + "\n" + b.Text(), b.end) == |lead| + |b.Text()| - |b.end|
  {
    EndMarkerOfBlock(b, "");
    assert b.Text() + "" == b.Text();
    var at := |b.begin + b.body|;
    var c := lead + "\n" + b.Text();
    assert c == (lead + "\n") + b.Text() + "";
    OccursInContext(lead + "\n", b.Text(), "", b.end, at);
    forall j | 0 <= j < |lead| + 1 + at ensures !OccursAt(c, b.end, j) {
      if OccursAt(c, b.end, j) {
        NoStraddle(lead, b.Text(), b.end, j);
        if lead != u {
          assert lead == u + "\n" + "";
          if OccursAt(lead, b.end, j) { NoStraddle(u, "", b.end, j); }
        }
      }
    }
  }

  /** Where strip starts to cut when it finds a begin marker at i: one newline earlier, if there is one. */
  function CutAt(c: string, i: nat): nat
    requires i <= |c|
  {
    if i > 0 && c[i - 1] == '\n' then i - 1 else i
  }

  lemma StripToEnd(b: Block, t: string, i: nat)
    requires Index(t, b.begin) == i <= |t| && |t| > 0 && t[|t| - 1] == '\n'
    requires Index(t[i..], b.end) == |t| - i - 1 - |b.end| >= 0
    ensures b.Strip(t) == t[..CutAt(t, i)]
  {
  }

  lemma SliceConcat(c: string, rest: string, i: nat)
    requires i <= |c|
    ensures (c + rest)[i..] == c[i..] + rest
    ensures (c + rest)[..i] == c[..i]
    ensures CutAt(c + rest, i) == CutAt(c, i)
    ensures rest != "" ==> (c + rest)[|c + rest| - 1] == rest[|rest| - 1]
  {
  }

  lemma Regroup(u: string, pad: string, x: string)
    ensures u + (pad + "\n" + x) == (u + pad) + "\n" + x
  {
  }

  lemma OrphanTail(b: Block, c: string, pad: string, i: nat)
    requires b.WellMarked() && (pad == "" || pad == "\n")
    requires Index(c, b.begin) == i < |c| && Index(c[i..], b.end) < 0
    ensures b.Strip(c + (pad + "\n" + b.Text())) == c[..CutAt(c, i)]
  {
    var rest := pad + "\n" + b.Text();
    var t := c + rest;
    FirstBeginKept(c, rest, b.begin, i);
    OrphanEnd(b, c[i..], c[i..] + pad);
    SliceConcat(c, rest, i);
    Regroup(c[i..], pad, b.Text());
    assert rest[|rest| - 1] == '\n';
    StripToEnd(b, t, i);
    SliceConcat(c, rest, CutAt(c, i));
  }

  /**
   * A begin marker without an end marker after it: strip leaves such a text alone,
   * but once a block is appended the next strip runs from the orphan to the block's
   * end, and everything after the orphan is lost.
   */
  lemma OrphanLosesTail(b: Block, c: string, i: nat)
    requires b.WellMarked()
    requires Index(c, b.begin) == i < |c| && Index(c[i..], b.end) < 0
    ensures b.Strip(c) == c
    ensures b.Strip(b.Install(c)) == c[..CutAt(c, i)]
  {
    var pad := Padding(c);
    OrphanTail(b, c, pad, i);
    Regroup(c, pad, b.Text());
  }

  lemma Padding(c: string) returns (pad: string)
    ensures (pad == "" || pad == "\n") && Normalize(c) == c + pad
  {
    pad := if Normalize(c) == c then "" else "\n";
  }

  // -------------------------------------------- exactly when nothing piles up --

  /** n copies of a text. */
  function Copies(t: string, n: nat): string {
    if n == 0 then "" else t + Copies(t, n - 1)
  }

  lemma {:induction false} OneMoreCopy(t: string, n: nat)
    ensures Copies(t, n) + t == Copies(t, n + 1)
    decreases n
  {
    if n == 0 {
      assert Copies(t, 1) == t + "";
    } else {
      OneMoreCopy(t, n - 1);
      assert Copies(t, n) + t == t + (Copies(t, n - 1) + t);
    }
  }

  /** k is a text without a begin marker and then the shipped block, any number of times. */
  ghost predicate Stacked(b: Block, k: string) {
    exists p, n: nat :: !Contains(p, b.begin) && k == p + Copies("\n" + b.Text(), n)
  }

  lemma PeelOne(b: Block, p: string, n: nat)
    requires b.WellMarked() && !Contains(p, b.begin)
    ensures b.Strip(p + Copies("\n" + b.Text(), n) + ("\n" + b.Text())) == p + Copies("\n" + b.Text(), n)
  {
    var t := "\n" + b.Text();
    OneMoreCopy(t, n);
    assert p + Copies(t, n) + t == p + (Copies(t, n) + t);
    assert p + (t + Copies(t, n)) == p + "\n" + b.Text() + Copies(t, n);
    BlockRemoved(b, p, Copies(t, n));
  }

  /** Where strip cuts, and where it goes on, once it has found both markers. */
  lemma StripFound(b: Block, c: string, i: nat, e: nat)
    requires Index(c, b.begin) == i <= |c| && Index(c[i..], b.end) == e && i + e + |b.end| <= |c|
    ensures var z := i + e + |b.end|;
            b.Strip(c) == c[..CutAt(c, i)] + c[if z < |c| && c[z] == '\n' then z + 1 else z..]
  {
  }

  lemma FoundLater(b: Block, c: string, rest: string, i: nat, e: nat)
    requires Index(c, b.begin) == i <= |c| && Index(c[i..], b.end) == e && i + e + |b.end| <= |c|
    ensures Index(c + rest, b.begin) == i && Index((c + rest)[i..], b.end) == e
  {
    FirstBeginKept(c, rest, b.begin, i);
    SliceConcat(c, rest, i);
    FirstBeginKept(c[i..], rest, b.end, e);
  }

  /** A text appended behind the first block, and not right behind it, is not touched. */
  lemma StripBefore(b: Block, c: string, rest: string, i: nat, e: nat)
    requires Index(c, b.begin) == i <= |c| && Index(c[i..], b.end) == e && i + e + |b.end| < |c|
    ensures b.Strip(c + rest) == b.Strip(c) + rest
  {
    var z := i + e + |b.end|;
    StripFound(b, c, i, e);
    FoundLater(b, c, rest, i, e);
    StripFound(b, c + rest, i, e);
    SliceConcat(c, rest, i);
    assert (c + rest)[z] == c[z];
    SlicesConcat(c, rest, CutAt(c, i), if c[z] == '\n' then z + 1 else z);
  }

  lemma SlicesConcat(c: string, rest: string, i: nat, z: nat)
    requires i <= |c| && z <= |c|
    ensures (c + rest)[..i] + (c + rest)[z..] == c[..i] + c[z..] + rest
  {
  }

  lemma AfterNewline(c: string, text: string)
    ensures (c + ("\n" + text))[|c|] == '\n' && (c + ("\n" + text))[|c| + 1..] == text
  {
  }

  /** Right behind it, the newline that leads the appended text goes with the first block. */
  lemma StripAtEnd(b: Block, c: string, text: string, i: nat, e: nat)
    requires Index(c, b.begin) == i <= |c| && Index(c[i..], b.end) == e && i + e + |b.end| == |c|
    ensures b.Strip(c + ("\n" + text)) == c[..CutAt(c, i)] + text
  {
    var all := c + ("\n" + text);
    FoundLater(b, c, "\n" + text, i, e);
    AfterNewline(c, text);
    StripFound(b, all, i, e);
    CutBefore(c, "\n" + text, i);
  }

  lemma CutBefore(c: string, rest: string, i: nat)
    requires i <= |c|
    ensures (c + rest)[..CutAt(c + rest, i)] == c[..CutAt(c, i)]
  {
    SliceConcat(c, rest, i);
    SliceConcat(c, rest, CutAt(c, i));
  }

  lemma EndsInMarker(b: Block, c: string, i: nat, e: nat)
    requires b.WellMarked()
    requires i <= |c| && Index(c[i..], b.end) == e && i + e + |b.end| == |c|
    ensures c != "" && c[|c| - 1] != '\n'
  {
    CharAt(c[i..], b.end, e, |b.end| - 1);
  }

  lemma FoundFits(c: string, m: string, i: nat)
    requires i <= |c|
    ensures Index(c, m) >= 0 ==> Index(c, m) + |m| <= |c|
    ensures Index(c[i..], m) >= 0 ==> i + Index(c[i..], m) + |m| <= |c|
  {
  }

  /** The orphan case: much of k is lost. */
  lemma OrphanAppended(b: Block, k: string, i: nat)
    requires b.WellMarked() && Index(k, b.begin) == i && i + |b.begin| <= |k| && Index(k[i..], b.end) < 0
    ensures |b.Strip(k + ("\n" + b.Text()))| + 1 < |k|
  {
    OrphanTail(b, k, "", i);
    assert "" + "\n" + b.Text() == "\n" + b.Text();
  }

  lemma InsideAppended(b: Block, k: string, i: nat, e: nat)
    requires b.WellMarked()
    requires Index(k, b.begin) == i <= |k| && Index(k[i..], b.end) == e && i + e + |b.end| < |k|
    ensures b.Strip(k + ("\n" + b.Text())) == b.Strip(k) + ("\n" + b.Text()) && |b.Strip(k)| < |k|
  {
    StripBefore(b, k, "\n" + b.Text(), i, e);
    StripFound(b, k, i, e);
  }

  lemma AtEndAppended(b: Block, k: string, i: nat, e: nat)
    requires b.WellMarked()
    requires Index(k, b.begin) == i <= |k| && Index(k[i..], b.end) == e && i + e + |b.end| == |k|
    ensures EndsLine(b.Strip(k + ("\n" + b.Text()))) && !EndsLine(k)
  {
    StripAtEnd(b, k, b.Text(), i, e);
    EndsInMarker(b, k, i, e);
    TextEndsLine(b, k[..CutAt(k, i)]);
  }

  predicate EndsLine(c: string) { c != "" && c[|c| - 1] == '\n' }

  lemma TextEndsLine(b: Block, p: string)
    ensures EndsLine(p + b.Text())
  {
  }

  /** What one more strip does to k and an appended block, by what it finds in k first. */
  lemma StripAppended(b: Block, k: string)
    requires b.WellMarked() && Contains(k, b.begin)
    ensures var s := b.Strip(k + ("\n" + b.Text()));
            || (s == b.Strip(k) + ("\n" + b.Text()) && |b.Strip(k)| < |k|)
            || (EndsLine(s) && !EndsLine(k))
            || |s| + 1 < |k|
  {
    var i := Index(k, b.begin);
    FoundFits(k, b.begin, i);
    var e := Index(k[i..], b.end);
    FoundFits(k, b.end, i);
    if e < 0 {
      OrphanAppended(b, k, i);
    } else if i + e + |b.end| < |k| {
      InsideAppended(b, k, i, e);
    } else {
      AtEndAppended(b, k, i, e);
    }
  }

  lemma StackOneMore(b: Block, k: string)
    requires Stacked(b, k)
    ensures Stacked(b, k + ("\n" + b.Text()))
  {
    var t := "\n" + b.Text();
    var p, n: nat :| !Contains(p, b.begin) && k == p + Copies(t, n);
    var m := n + 1;
    OneMoreCopy(t, n);
    assert k + t == p + (Copies(t, n) + t) == p + Copies(t, m);
  }

  lemma PlainIsStacked(b: Block, k: string)
    requires !Contains(k, b.begin)
    ensures Stacked(b, k)
  {
    assert k == k + Copies("\n" + b.Text(), 0);
  }

  lemma Peeled(b: Block, k: string)
    requires b.WellMarked() && Contains(k, b.begin) && b.Strip(k + ("\n" + b.Text())) == k
    ensures k == b.Strip(k) + ("\n" + b.Text()) && |b.Strip(k)| < |k|
  {
    StripAppended(b, k);
  }

  /** A text that comes back from under one more block is a stack. */
  lemma {:induction false} ReturnedIsStacked(b: Block, k: string)
    requires b.WellMarked() && b.Strip(k + ("\n" + b.Text())) == k
    ensures Stacked(b, k)
    decreases |k|
  {
    if Contains(k, b.begin) {
      Peeled(b, k);
      ReturnedIsStacked(b, b.Strip(k));
      StackOneMore(b, b.Strip(k));
    } else {
      PlainIsStacked(b, k);
    }
  }

  lemma StackedReturns(b: Block, k: string)
    requires b.WellMarked() && Stacked(b, k)
    ensures b.Strip(k + ("\n" + b.Text())) == k
  {
    var p, n: nat :| !Contains(p, b.begin) && k == p + Copies("\n" + b.Text(), n);
    PeelOne(b, p, n);
  }

  lemma NormalizedReturns(b: Block, k: string)
    requires b.WellMarked() && Normalize(k) == k && Normalize(b.Strip(k + ("\n" + b.Text()))) == k
    ensures Stacked(b, k)
  {
    if Contains(k, b.begin) {
      StripAppended(b, k);
      ReturnedIsStacked(b, k);
    } else {
      PlainIsStacked(b, k);
    }
  }

  /**
   * For every text: uninstalling after an install gives the text without its first block
   * back, and installing again changes nothing, exactly if below that first block there is
   * no begin marker but those of further copies of the shipped block at the very end.
   */
  lemma RoundTripExactly(b: Block, c: string)
    requires b.WellMarked()
    ensures b.Uninstall(b.Install(c)).0 == Normalize(b.Strip(c)) <==> Stacked(b, Normalize(b.Strip(c)))
    ensures b.Install(b.Install(c)) == b.Install(c) <==> Stacked(b, Normalize(b.Strip(c)))
  {
    var k, t := Normalize(b.Strip(c)), "\n" + b.Text();
    assert b.Install(c) == k + t && Normalize(k) == k;
    var s := b.Strip(k + t);
    assert b.Install(b.Install(c)) == Normalize(s) + t;
    SameBefore(Normalize(s), k, t);
    if Stacked(b, k) { StackedReturns(b, k); }
    if s == k { ReturnedIsStacked(b, k); }
    if Normalize(s) == k { NormalizedReturns(b, k); }
  }

  lemma SameBefore(a: string, k: string, t: string)
    ensures a + t == k + t <==> a == k
  {
    if a + t == k + t {
      assert |a| == |k|;
      assert (a + t)[..|a|] == a && (k + t)[..|k|] == k;
    }
  }

  /** Two blocks that are not the shipped one: the second survives, and one more install leaves two wrappers. */
  lemma TwoBlocksStay(b: Block, x: Block, y: Block)
    requires b.WellMarked() && x.WellMarked() && y.WellMarked() && y.body != b.body
    requires x.begin == y.begin == b.begin && x.end == y.end == b.end
    ensures var c := "\n" + x.Text() + "\n" + y.Text();
            && b.Install(c) == "\n" + y.Text() + "\n" + b.Text()
            && b.Install(b.Install(c)) == "\n" + b.Text() + "\n" + b.Text()
            && b.Install(b.Install(c)) != b.Install(c)
  {
    var c := "\n" + x.Text() + "\n" + y.Text();
    NoBegin(b);
    FirstOfTwo(b, x, y.Text());
    FirstOfTwo(b, y, b.Text());
    assert Normalize("\n" + y.Text()) == "\n" + y.Text() && Normalize("\n" + b.Text()) == "\n" + b.Text();
    TwoTexts(b, y);
  }

  lemma NoBegin(b: Block)
    requires b.WellMarked()
    ensures !Contains("", b.begin)
  {
  }

  lemma FirstOfTwo(b: Block, x: Block, rest: string)
    requires x.WellMarked() && x.begin == b.begin && x.end == b.end && !Contains("", b.begin)
    ensures b.Strip("\n" + x.Text() + "\n" + rest) == "\n" + rest
  {
    BlockRemoved(x, "", "\n" + rest);
    assert "" + "\n" + x.Text() + ("\n" + rest) == "\n" + x.Text() + "\n" + rest;
    assert "" + ("\n" + rest) == "\n" + rest;
  }

  lemma TwoTexts(b: Block, y: Block)
    requires y.begin == b.begin && y.end == b.end && y.body != b.body
    ensures "\n" + y.Text() + "\n" + b.Text() != "\n" + b.Text() + "\n" + b.Text()
  {
    var tail := y.end + "\n" + ("\n" + b.Text());
    assert "\n" + y.Text() + "\n" + b.Text() == "\n" + y.begin + y.body + tail;
    assert "\n" + b.Text() + "\n" + b.Text() == "\n" + y.begin + b.body + tail;
    if "\n" + y.begin + y.body + tail == "\n" + y.begin + b.body + tail {
      Cancel("\n" + y.begin, y.body, b.body, tail);
    }
  }

  lemma Cancel(a: string, x: string, y: string, z: string)
    requires a + x + z == a + y + z
    ensures x == y
  {
    assert |x| == |y|;
    assert (a + x + z)[|a|..|a| + |x|] == x && (a + y + z)[|a|..|a| + |y|] == y;
  }

  /** The rc file and the two commands that rewrite it. */
  class RcFile {
    var text: string

    constructor (existing: string)
      ensures text == existing
    {
      text := existing;
    }

    method Install(b: Block)
      modifies this
      ensures text == b.Install(old(text))
    {
      var updated := b.Strip(text);
      if updated != "" && updated[|updated| - 1] != '\n' {
        updated := updated + "\n";
      }
      updated := updated + ("\n" + b.Text());
      assert updated == Normalize(b.Strip(text)) + "\n" + b.Text();
      text := updated;
    }

    method Uninstall(b: Block) returns (removed: bool)
      modifies this
      ensures (text, removed) == b.Uninstall(old(text))
    {
      var stripped := b.Strip(text);
      if stripped == text { return false; }
      text := stripped;
      return true;
    }
  }
}
