// The incremental transcript index (Collector in internal/usage/collector.go):
// files whose size and modification time are unchanged are not parsed again.
module Collector {
  import opened Base
  import opened Model
  import opened Projects
  import opened Sorting
  import opened Text
  import opened Transcripts
  import Paths

  /** A transcript file; a text decodes under either record format. */
  datatype Content = Unreadable | Lines(claude: seq<ClaudeRecord>, codex: seq<CodexRecord>)

  /** A signed 64-bit count of nanoseconds. */
  type UnixNano = n: int | MIN_DURATION <= n <= MAX_DURATION

  datatype File = File(size: int, modifiedUnixNano: UnixNano, content: Content)

  type Files = map<string, File>
  type Index = map<string, UsageSource>

  datatype Config = Config(claudeRoot: string, codexRoots: seq<string>)

  predicate ContainsText(s: string, t: string) {
    exists i :: 0 <= i <= |s| && OccursAt(s, t, i)
  }

  predicate Under(root: string, path: string) {
    root != "" && |root| < |path| && path[..|root|] == root && path[|root|] == '/' && EndsWith(path, ".jsonl")
  }

  predicate UnderCodex(cfg: Config, path: string) {
    exists r :: r in cfg.codexRoots && Under(r, path)
  }

  // ------------------------------------------------------------- one file ---

  ghost function Parsed(agent: Agent, content: Content): Option<UsageSource> {
    if content.Unreadable? then None
    else if agent == AGENT_CLAUDE then Some(ClaudeSource(content.claude))
    else Some(CodexSource(content.codex))
  }

  /** The path, file stamp and defaults that scanRoot adds to a parsed source. */
  function Stamped(source: UsageSource, path: string, agent: Agent, file: File): UsageSource {
    var updated := if source.updatedAt == 0 then UnixTime(file.modifiedUnixNano) else source.updatedAt;
    source.(
      path := path, agent := agent, size := file.size, modifiedUnixNano := file.modifiedUnixNano,
      updatedAt := updated,
      startedAt := if source.startedAt == 0 then updated else source.startedAt,
      archived := ContainsText(path, "/archived_sessions/"),
      project := Paths.ProjectName(source.cwd))
  }

  /** The index entry of a fresh parse; none if the file yields no usable source. */
  ghost function EntryOf(path: string, agent: Agent, file: File): Option<UsageSource> {
    var p := Parsed(agent, file.content);
    if p.None? || p.value.cwd == "" || p.value.usage.total == 0 then None
    else Some(Stamped(p.value, path, agent, file))
  }

  /** The stamp of an entry matches the file, so the file is not read. */
  predicate Cached(entry: UsageSource, file: File) {
    && entry.size == file.size && entry.modifiedUnixNano == file.modifiedUnixNano
    && entry.updatedAt != 0 && entry.startedAt != 0
  }

  ghost function Visit(entry: Option<UsageSource>, path: string, agent: Agent, file: File): Option<UsageSource> {
    if entry.Some? && Cached(entry.value, file) then entry
    else
      var parsed := EntryOf(path, agent, file);
      if parsed.Some? then parsed else entry
  }

  function Get(index: Index, path: string): Option<UsageSource> {
    if path in index then Some(index[path]) else None
  }

  /** The paths that the walk over the Claude root and those over the Codex roots have visited. */
  datatype Done = Done(claude: set<string>, codex: set<string>)

  const NOTHING := Done({}, {})

  ghost predicate Within(done: Done, files: Files) {
    done.claude <= files.Keys && done.codex <= files.Keys
  }

  /** The index after these visits: the Claude parser has the first try where both kinds of root cover a path. */
  ghost function Refreshed(index: Index, files: Files, cfg: Config, done: Done): Index
    requires Within(done, files)
  {
    map p | p in index.Keys + done.claude + done.codex && Entry(index, files, cfg, done, p).Some? ::
      Entry(index, files, cfg, done, p).value
  }

  ghost function Entry(index: Index, files: Files, cfg: Config, done: Done, p: string): Option<UsageSource>
    requires Within(done, files)
  {
    var first := ClaudeEntry(index, files, cfg, done, p);
    if p in done.codex && UnderCodex(cfg, p) then Visit(first, p, AGENT_CODEX, files[p]) else first
  }

  ghost function ClaudeEntry(index: Index, files: Files, cfg: Config, done: Done, p: string): Option<UsageSource>
    requires Within(done, files)
  {
    if p in done.claude && Under(cfg.claudeRoot, p) then Visit(Get(index, p), p, AGENT_CLAUDE, files[p])
    else Get(index, p)
  }

  /** After a scan of all roots. */
  ghost function AfterScan(index: Index, files: Files, cfg: Config): Index {
    Refreshed(index, files, cfg, Done(files.Keys, files.Keys))
  }

  lemma RefreshedEntry(index: Index, files: Files, cfg: Config, done: Done, p: string)
    requires Within(done, files)
    ensures Get(Refreshed(index, files, cfg, done), p) == Entry(index, files, cfg, done, p)
  {
  }

  lemma SameIndex(a: Index, b: Index)
    requires forall p :: Get(a, p) == Get(b, p)
    ensures a == b
  {
    forall p ensures p in a <==> p in b { assert Get(a, p) == Get(b, p); }
    forall p | p in a ensures a[p] == b[p] { assert Get(a, p) == Get(b, p); }
  }

  /** A second visit finds the entry cached or the file as unusable as before. */
  lemma VisitTwice(entry: Option<UsageSource>, path: string, agent: Agent, file: File)
    ensures Visit(Visit(entry, path, agent, file), path, agent, file) == Visit(entry, path, agent, file)
  {
  }

  // ------------------------------------------------------------- the scan ---

  class Collector {
    const cfg: Config
    var sources: Index

    constructor (cfg: Config, persisted: seq<UsageSource>)
      ensures this.cfg == cfg && sources == FromPersisted(persisted) && FiledByPath(sources)
    {
      PersistedByPath(persisted);
      this.cfg := cfg;
      sources := FromPersisted(persisted);
    }

    method Parse(agent: Agent, content: Content) returns (source: Option<UsageSource>)
      ensures source == Parsed(agent, content)
    {
      if content.Unreadable? { return None; }
      var s;
      if agent == AGENT_CLAUDE { s := ParseClaude(content.claude); } else { s := ParseCodex(content.codex); }
      source := Some(s);
    }

    method VisitFile(path: string, agent: Agent, file: File)
      modifies this
      ensures forall p :: Get(sources, p) ==
                if p == path then Visit(old(Get(sources, path)), path, agent, file) else old(Get(sources, p))
    {
      if path in sources && Cached(sources[path], file) { return; }
      var source := Parse(agent, file.content);
      if source.None? || source.value.cwd == "" || source.value.usage.total == 0 { return; }
      sources := sources[path := Stamped(source.value, path, agent, file)];
    }

    /** The walk over one root, in any order; ghost done collects what earlier walks visited. */
    method ScanRoot(files: Files, root: string, agent: Agent, ghost before: Index, ghost done: Done)
      requires Within(done, files) && sources == Refreshed(before, files, cfg, done)
      requires (agent == AGENT_CLAUDE && root == cfg.claudeRoot && done == NOTHING) ||
               (agent == AGENT_CODEX && root in cfg.codexRoots)
      modifies this
      ensures sources == Refreshed(before, files, cfg, More(done, agent, PathsUnder(files, root)))
    {
      if root == "" {
        assert PathsUnder(files, root) == {};
        assert More(done, agent, {}) == done;
        return;
      }
      var rest := PathsUnder(files, root);
      ghost var all, seen := rest, {};
      assert More(done, agent, seen) == done;
      while rest != {}
        invariant seen + rest == all && seen !! rest && all == PathsUnder(files, root)
        invariant sources == Refreshed(before, files, cfg, More(done, agent, seen))
        decreases rest
      {
        var path := NextKey(rest);
        ghost var was := sources;
        VisitFile(path, agent, files[path]);
        VisitedOneMore(before, files, cfg, More(done, agent, seen), path, agent, was, sources);
        assert More(More(done, agent, seen), agent, {path}) == More(done, agent, seen + {path});
        rest, seen := rest - {path}, seen + {path};
      }
      assert seen == all;
    }

    method Scan(files: Files) returns (projects: seq<ProjectUsage>, out: seq<UsageSource>)
      requires FiledByPath(sources)
      modifies this
      ensures sources == AfterScan(old(sources), files, cfg) && FiledByPath(sources)
      ensures ListsValues(sources, PathOf, out) && SortedBy(out, PathLess)
      ensures IsAggregation(Dedup(out), projects) && SortedBy(projects, ProjectLess)
    {
      ghost var before, done := sources, NOTHING;
      SameIndexUnvisited(sources, files, cfg);
      ScanRoot(files, cfg.claudeRoot, AGENT_CLAUDE, before, done);
      done := More(done, AGENT_CLAUDE, PathsUnder(files, cfg.claudeRoot));
      for i := 0 to |cfg.codexRoots|
        invariant done.claude == PathsUnder(files, cfg.claudeRoot)
        invariant done.codex == set p | p in files && exists j :: 0 <= j < i && Under(cfg.codexRoots[j], p)
        invariant sources == Refreshed(before, files, cfg, done)
      {
        var root := cfg.codexRoots[i];
        ScanRoot(files, root, AGENT_CODEX, before, done);
        done := More(done, AGENT_CODEX, PathsUnder(files, root));
      }
      CoveredIsEnough(before, files, cfg, done);
      RefreshedByPath(before, files, cfg, Done(files.Keys, files.Keys));
      PathOrder();
      out := SortedValues(sources, PathOf, PathLess);
      projects := AggregateProjects(out);
    }
  }

  function PathsUnder(files: Files, root: string): set<string> {
    set p | p in files && Under(root, p)
  }

  ghost function More(done: Done, agent: Agent, paths: set<string>): Done {
    if agent == AGENT_CLAUDE then done.(claude := done.claude + paths) else done.(codex := done.codex + paths)
  }

  function PathOf(s: UsageSource): string { s.path }

  predicate PathLess(a: UsageSource, b: UsageSource) { TextLess(a.path, b.path) }

  lemma PathOrder()
    ensures WeakOrder(PathLess)
  {
    forall a, b | PathLess(a, b) ensures !PathLess(b, a) { TextLessTotal(a.path, b.path); }
    forall a, b, c | !PathLess(b, a) && !PathLess(c, b) ensures !PathLess(c, a) {
      TextLessTransitive(a.path, b.path, c.path);
    }
  }

  /** Every entry sits under its own path. */
  ghost predicate FiledByPath(index: Index) {
    forall p :: p in index ==> PathOf(index[p]) == p
  }

  lemma RefreshedByPath(index: Index, files: Files, cfg: Config, done: Done)
    requires FiledByPath(index) && Within(done, files)
    ensures FiledByPath(Refreshed(index, files, cfg, done))
  {
  }

  function FromPersisted(persisted: seq<UsageSource>): Index {
    if persisted == [] then map[]
    else FromPersisted(persisted[..|persisted| - 1])[persisted[|persisted| - 1].path := persisted[|persisted| - 1]]
  }

  lemma {:induction false} PersistedByPath(persisted: seq<UsageSource>)
    ensures FiledByPath(FromPersisted(persisted))
    decreases |persisted|
  {
    if persisted != [] { PersistedByPath(persisted[..|persisted| - 1]); }
  }

  /** A restart reads back the index that a scan wrote out. */
  lemma RestartReadsIndex(index: Index, out: seq<UsageSource>)
    requires FiledByPath(index) && ListsValues(index, PathOf, out)
    ensures FromPersisted(out) == index
  {
    forall p ensures Get(FromPersisted(out), p) == Get(index, p) {
      PersistedEntry(index, out, p);
      if p in index { assert index[p] in out; }
    }
    SameIndex(FromPersisted(out), index);
  }

  lemma {:induction false} PersistedEntry(index: Index, out: seq<UsageSource>, p: string)
    requires forall s :: s in out ==> PathOf(s) in index && index[PathOf(s)] == s
    ensures p in FromPersisted(out) <==> p in index && index[p] in out && PathOf(index[p]) == p
    ensures p in FromPersisted(out) ==> FromPersisted(out)[p] == index[p]
    decreases |out|
  {
    if out != [] {
      var init, last := out[..|out| - 1], out[|out| - 1];
      assert out == init + [last];
      assert last in out;
      PersistedEntry(index, init, p);
    }
  }

  lemma SameIndexUnvisited(index: Index, files: Files, cfg: Config)
    ensures Refreshed(index, files, cfg, NOTHING) == index
  {
  }

  lemma VisitedOneMore(
      before: Index, files: Files, cfg: Config, done: Done, path: string, agent: Agent, was: Index, now: Index)
    requires Within(done, files) && path in files
    requires (agent == AGENT_CLAUDE && Under(cfg.claudeRoot, path) && done.codex == {}) ||
             (agent == AGENT_CODEX && UnderCodex(cfg, path))
    requires was == Refreshed(before, files, cfg, done)
    requires forall p :: Get(now, p) ==
               if p == path then Visit(Get(was, path), path, agent, files[path]) else Get(was, p)
    ensures now == Refreshed(before, files, cfg, More(done, agent, {path}))
  {
    var more := More(done, agent, {path});
    forall p ensures Get(now, p) == Get(Refreshed(before, files, cfg, more), p) {
      RefreshedEntry(before, files, cfg, more, p);
      RefreshedEntry(before, files, cfg, done, p);
      if p == path {
        VisitTwice(Get(before, p), p, AGENT_CLAUDE, files[p]);
        VisitTwice(ClaudeEntry(before, files, cfg, done, p), p, AGENT_CODEX, files[p]);
      }
    }
    SameIndex(now, Refreshed(before, files, cfg, more));
  }

  /** Files outside every root do not matter. */
  lemma CoveredIsEnough(before: Index, files: Files, cfg: Config, done: Done)
    requires Within(done, files)
    requires forall p :: p in files && Under(cfg.claudeRoot, p) ==> p in done.claude
    requires forall p :: p in files && UnderCodex(cfg, p) ==> p in done.codex
    ensures Refreshed(before, files, cfg, done) == AfterScan(before, files, cfg)
  {
    forall p ensures Get(Refreshed(before, files, cfg, done), p) == Get(AfterScan(before, files, cfg), p) {
      RefreshedEntry(before, files, cfg, done, p);
      RefreshedEntry(before, files, cfg, Done(files.Keys, files.Keys), p);
    }
    SameIndex(Refreshed(before, files, cfg, done), AfterScan(before, files, cfg));
  }

  // ----------------------------------------------------- runs of the daemon --

  /** Files on disk, the index in memory and on disk, and every state the files were ever in. */
  datatype World = World(files: Files, index: Index, persisted: Index, history: seq<Files>)

  datatype Step = FilesChange | ScanSaved | ScanCutShort(done: Done) | Restart

  ghost predicate Next(cfg: Config, w: World, w': World, step: Step) {
    match step
    case FilesChange => w' == w.(files := w'.files, history := w.history + [w'.files])
    case ScanSaved =>
      var index := AfterScan(w.index, w.files, cfg);
      w' == w.(index := index, persisted := index)
    case ScanCutShort(done) => Reaches(cfg, w.files, done) && w' == w.(index := Refreshed(w.index, w.files, cfg, done))
    case Restart => w' == w.(index := w.persisted)
  }

  /** How far a scan can have come: the Codex roots are walked after the whole Claude root. */
  ghost predicate Reaches(cfg: Config, files: Files, done: Done) {
    Within(done, files) && (done.codex != {} ==> PathsUnder(files, cfg.claudeRoot) <= done.claude)
  }

  ghost predicate Initial(w: World) {
    w.index == w.persisted == map[] && w.history == [w.files]
  }

  ghost predicate IsRun(cfg: Config, ws: seq<World>, steps: seq<Step>) {
    && |ws| == |steps| + 1 && Initial(ws[0])
    && forall i :: 0 <= i < |steps| ==> Next(cfg, ws[i], ws[i + 1], steps[i])
  }

  /** What reading a file afresh gives: the usable Claude parse if that root covers it, else the Codex parse. */
  ghost function FreshEntry(cfg: Config, p: string, file: File): Option<UsageSource> {
    if Under(cfg.claudeRoot, p) && EntryOf(p, AGENT_CLAUDE, file).Some? then EntryOf(p, AGENT_CLAUDE, file)
    else if UnderCodex(cfg, p) then EntryOf(p, AGENT_CODEX, file)
    else None
  }

  /** Each entry is the fresh entry of some version its file once had. */
  ghost predicate FromHistory(cfg: Config, index: Index, history: seq<Files>) {
    forall p :: p in index ==> OnceParsed(cfg, p, index[p], history)
  }

  ghost predicate OnceParsed(cfg: Config, p: string, e: UsageSource, history: seq<Files>) {
    exists i :: 0 <= i < |history| && p in history[i] && FreshEntry(cfg, p, history[i][p]) == Some(e)
  }

  ghost predicate Inv(cfg: Config, w: World) {
    && w.history != [] && w.history[|w.history| - 1] == w.files
    && FromHistory(cfg, w.index, w.history) && FromHistory(cfg, w.persisted, w.history)
  }

  /** A scan, complete or not, keeps an entry or replaces it by the fresh one. */
  lemma OldOrFresh(cfg: Config, index: Index, files: Files, done: Done, p: string)
    requires Reaches(cfg, files, done)
    ensures var e := Entry(index, files, cfg, done, p);
            e == Get(index, p) || (p in files && e == FreshEntry(cfg, p, files[p]))
  {
    if p in files { assert Under(cfg.claudeRoot, p) ==> p in PathsUnder(files, cfg.claudeRoot); }
  }

  lemma RefreshFromHistory(cfg: Config, w: World, done: Done)
    requires Inv(cfg, w) && Reaches(cfg, w.files, done)
    ensures FromHistory(cfg, Refreshed(w.index, w.files, cfg, done), w.history)
  {
    var now := Refreshed(w.index, w.files, cfg, done);
    forall p | p in now ensures OnceParsed(cfg, p, now[p], w.history) {
      RefreshedEntry(w.index, w.files, cfg, done, p);
      OldOrFresh(cfg, w.index, w.files, done, p);
    }
  }

  lemma HistoryGrows(cfg: Config, index: Index, history: seq<Files>, more: Files)
    requires FromHistory(cfg, index, history)
    ensures FromHistory(cfg, index, history + [more])
  {
    forall p | p in index ensures OnceParsed(cfg, p, index[p], history + [more]) {
      var i :| 0 <= i < |history| && p in history[i] &&
               FreshEntry(cfg, p, history[i][p]) == Some(index[p]);
      assert (history + [more])[i] == history[i];
    }
  }

  lemma NextKeepsInv(cfg: Config, w: World, w': World, step: Step)
    requires Inv(cfg, w) && Next(cfg, w, w', step)
    ensures Inv(cfg, w') && w.history <= w'.history
  {
    match step
    case FilesChange =>
      HistoryGrows(cfg, w.index, w.history, w'.files);
      HistoryGrows(cfg, w.persisted, w.history, w'.files);
    case ScanSaved =>
      RefreshFromHistory(cfg, w, Done(w.files.Keys, w.files.Keys));
    case ScanCutShort(done) =>
      RefreshFromHistory(cfg, w, done);
    case Restart =>
  }

  lemma {:induction false} RunKeepsInv(cfg: Config, ws: seq<World>, steps: seq<Step>, k: nat)
    requires IsRun(cfg, ws, steps) && k <= |steps|
    ensures Inv(cfg, ws[k])
    decreases k
  {
    if k > 0 {
      RunKeepsInv(cfg, ws, steps, k - 1);
      NextKeepsInv(cfg, ws[k - 1], ws[k], steps[k - 1]);
    }
  }

  /** Whatever the index went through, sources of one directory share its project name. */
  lemma NamesFollowDirectories(cfg: Config, ws: seq<World>, steps: seq<Step>, k: nat, out: seq<UsageSource>)
    requires IsRun(cfg, ws, steps) && k <= |steps| && ListsValues(ws[k].index, PathOf, out)
    ensures NamedByDirectory(Dedup(out))
  {
    var index, dedup := ws[k].index, Dedup(out);
    RunKeepsInv(cfg, ws, steps, k);
    DedupKeepsNewest(out);
    forall key | key in dedup ensures dedup[key].project == Paths.ProjectName(dedup[key].cwd) {
      assert Keeps(out, key, dedup[key]);
      var s := dedup[key];
      assert s in out;
      assert OnceParsed(cfg, s.path, index[s.path], ws[k].history);
    }
  }

  /** So the projects shown after any run do not depend on the order of any map. */
  lemma ProjectsDetermined(
      cfg: Config, ws: seq<World>, steps: seq<Step>, k: nat, out: seq<UsageSource>,
      a: seq<ProjectUsage>, b: seq<ProjectUsage>)
    requires IsRun(cfg, ws, steps) && k <= |steps| && ListsValues(ws[k].index, PathOf, out)
    requires IsAggregation(Dedup(out), a) && IsAggregation(Dedup(out), b)
    ensures multiset(a) == multiset(b)
  {
    NamesFollowDirectories(cfg, ws, steps, k, out);
    AggregationUnique(Dedup(out), a, b);
  }

  /** Over the files' history, path, size and modification time decide the content. */
  ghost predicate StampDecides(history: seq<Files>) {
    forall i, j, p :: 0 <= i < |history| && 0 <= j < |history| && p in history[i] && p in history[j] ==>
      SameStamp(history[i][p], history[j][p]) ==> history[i][p] == history[j][p]
  }

  ghost predicate SameStamp(f: File, g: File) {
    f.size == g.size && f.modifiedUnixNano == g.modifiedUnixNano
  }

  /**
   * In every run, a completed scan leaves each usable transcript with the entry of a
   * fresh parse; a file that is gone or unusable keeps whatever entry it had.
   */
  lemma ScanIsFresh(cfg: Config, ws: seq<World>, steps: seq<Step>, k: nat, p: string)
    requires IsRun(cfg, ws, steps) && k < |steps| && steps[k].ScanSaved?
    requires StampDecides(ws[k].history)
    ensures var w, w' := ws[k], ws[k + 1];
            var parsed := if p in w.files then FreshEntry(cfg, p, w.files[p]) else None;
            Get(w'.index, p) == if parsed.Some? then parsed else Get(w.index, p)
  {
    var w := ws[k];
    RunKeepsInv(cfg, ws, steps, k);
    assert Next(cfg, w, ws[k + 1], steps[k]);
    RefreshedEntry(w.index, w.files, cfg, Done(w.files.Keys, w.files.Keys), p);
    if p in w.files { VisitsAreFresh(cfg, w, p); }
  }

  /** Where the fields of a parsed entry come from; a zero time falls back on the file's own. */
  lemma EntryFields(path: string, agent: Agent, file: File)
    requires EntryOf(path, agent, file).Some?
    ensures var e, p := EntryOf(path, agent, file).value, Parsed(agent, file.content).value;
            && e.path == path && e.agent == agent && e.size == file.size
            && e.modifiedUnixNano == file.modifiedUnixNano && e.project == Paths.ProjectName(e.cwd)
            && e.sessionID == p.sessionID && e.cwd == p.cwd != "" && e.model == p.model
            && e.usage == p.usage && e.usage.total > 0
            && e.updatedAt == (if p.updatedAt != 0 then p.updatedAt else UnixTime(file.modifiedUnixNano))
            && e.startedAt == (if p.startedAt != 0 then p.startedAt else e.updatedAt)
            && Cached(e, file)
  {
  }

  lemma FreshStamp(cfg: Config, p: string, file: File)
    requires FreshEntry(cfg, p, file).Some?
    ensures var e := FreshEntry(cfg, p, file).value;
            e.size == file.size && e.modifiedUnixNano == file.modifiedUnixNano
  {
  }

  lemma CachedIsFresh(cfg: Config, history: seq<Files>, e: UsageSource, p: string, j: nat)
    requires StampDecides(history) && j < |history| && p in history[j] && Cached(e, history[j][p])
    requires OnceParsed(cfg, p, e, history)
    ensures FreshEntry(cfg, p, history[j][p]) == Some(e)
  {
    var i: nat :| i < |history| && p in history[i] && FreshEntry(cfg, p, history[i][p]) == Some(e);
    FreshStamp(cfg, p, history[i][p]);
    SameVersion(history, i, j, p);
  }

  lemma SameVersion(history: seq<Files>, i: nat, j: nat, p: string)
    requires StampDecides(history) && i < |history| && j < |history| && p in history[i] && p in history[j]
    ensures SameStamp(history[i][p], history[j][p]) ==> history[i][p] == history[j][p]
  {
  }

  /** Visits that find no matching stamp leave the fresh entry, if there is one. */
  lemma VisitsRefresh(cfg: Config, index: Index, files: Files, p: string)
    requires p in files && (p in index ==> !Cached(index[p], files[p]))
    ensures var parsed := FreshEntry(cfg, p, files[p]);
            Entry(index, files, cfg, Done(files.Keys, files.Keys), p) ==
            if parsed.Some? then parsed else Get(index, p)
  {
  }

  lemma VisitsAreFresh(cfg: Config, w: World, p: string)
    requires Inv(cfg, w) && StampDecides(w.history) && p in w.files
    ensures var parsed := FreshEntry(cfg, p, w.files[p]);
            Entry(w.index, w.files, cfg, Done(w.files.Keys, w.files.Keys), p) ==
            if parsed.Some? then parsed else Get(w.index, p)
  {
    if p in w.index && Cached(w.index[p], w.files[p]) {
      CachedIsFresh(cfg, w.history, w.index[p], p, |w.history| - 1);
    } else {
      VisitsRefresh(cfg, w.index, w.files, p);
    }
  }

  /**
   * What the stamp is worth on its own: after scanning one usable version of a file
   * and then another, the entry is the newer one's exactly when the stamps differ or
   * the two parse alike.
   */
  lemma NewerVersionSeen(path: string, agent: Agent, older: File, newer: File)
    ensures var first, second := EntryOf(path, agent, older), EntryOf(path, agent, newer);
            first.Some? && second.Some? ==>
              (Visit(first, path, agent, newer) == second <==> !SameStamp(older, newer) || first == second)
  {
  }

  // -------------------------------------------------------- in plain terms ---

  /** A root covers the paths below it, at any depth, whose name ends in .jsonl. */
  lemma UnderExactly(root: string, path: string)
    ensures Under(root, path) <==>
            root != "" && (exists rest :: path == root + "/" + rest) && exists start :: path == start + ".jsonl"
  {
    if Under(root, path) {
      assert path == root + "/" + path[|root| + 1..] && path == path[..|path| - 6] + ".jsonl";
    }
  }

  /** The sources are listed by path. */
  lemma ListedByPath(out: seq<UsageSource>)
    requires SortedBy(out, PathLess)
    ensures forall i, j :: 0 <= i < j < |out| ==> !TextLess(out[j].path, out[i].path)
  {
  }

  lemma ContainsExactly(s: string, t: string)
    ensures ContainsText(s, t) <==> exists a, b :: s == a + t + b
  {
    if i :| 0 <= i <= |s| && OccursAt(s, t, i) {
      assert s == s[..i] + t + s[i + |t|..];
    }
    if a, b :| s == a + t + b {
      assert OccursAt(s, t, |a|);
    }
  }

  /** An archived transcript is one somewhere below a directory of that name. */
  lemma ArchivedExactly(path: string, agent: Agent, file: File)
    requires EntryOf(path, agent, file).Some?
    ensures EntryOf(path, agent, file).value.archived <==> exists a, b :: path == a + "/archived_sessions/" + b
  {
    ContainsExactly(path, "/archived_sessions/");
  }

  /** A file yields an entry exactly if it can be read and names a directory and some tokens. */
  lemma EntryExactly(path: string, agent: Agent, file: File)
    ensures EntryOf(path, agent, file).Some? <==>
            && file.content.Lines?
            && var s :=
                 if agent == "claude" then ClaudeSource(file.content.claude) else CodexSource(file.content.codex);
               s.cwd != "" && s.usage.total > 0
    ensures EntryOf(path, agent, file).Some? ==>
              var s := if agent == "claude" then ClaudeSource(file.content.claude) else CodexSource(file.content.codex);
              var e := EntryOf(path, agent, file).value;
              e.sessionID == s.sessionID && e.cwd == s.cwd && e.model == s.model && e.usage == s.usage
  {
  }
}
