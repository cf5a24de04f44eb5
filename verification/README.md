# Biewer, verified

Biewer's daemon joins three unreliable sources into one list of session rows: scans of the
process table, hook events from the coding agents, and logs (telemetry and transcripts). This
project models that engine in Dafny and proves what the list, the totals and the stored records
can be relied on for. Times are nanoseconds since Go's zero time; counters are unsigned 64-bit
numbers that wrap. A `range` over a Go map takes the next key from `Base.NextKey`, whose contract
says only that the key is one not yet visited, and `sort.Slice` promises only "some sorted
permutation", so every theorem holds for every order Go may choose.

`dafny verify dfyconfig.toml` checks everything.

| module | what it models |
|---|---|
| `ProcScan`, `ProcessTree` | the parent graph of a scan (cycles allowed), breadth-first and depth-first descent, the totals over a tree |
| `Discover` | auto-discovered roots and how their trees divide the process table |
| `Attribution` | the process rows of one tick: tracked sessions, then roots nobody announced |
| `Matching` | process identity, and the unique directory-and-time match |
| `Composition`, `Compose`, `ComposeEvidence` | the composition of rows: its steps as functions of a visiting order, the running code, and what evidence leads to which row |
| `ComposeSafety`, `ComposeRows`, `ComposeLocal`, `ComposeResult`, `RowTables` | what composition keeps, what each row shows, the list |
| `ComposeOrder`, `VisitOrders`, `ComposeExact`, `ComposeList` | exactly when the order of map iteration can be seen, in the final state and in the list |
| `TelemetryIngest` | telemetry totals behind a 256-entry fingerprint window |
| `Transcripts`, `Collector`, `Projects` | transcript parsing, the incremental index, project totals |
| `Store`, `Lifecycle`, `Revival`, `Tracking` | stored sessions, the fields of tracked ones, runs of events, ticks, delayed writes, restarts and crashes, what makes a session active, and which ended ones come back |
| `RcBlock`, `CodexWrapper`, `HookSettings` | the reversible edits to the user's rc file and settings tree |
| `Daemon` | the supervisor object whose methods put all of this together |
| `Base`, `Model`, `Text`, `Paths`, `Folds`, `Sorting` | shared values and small facts |

Code that updates state or loops is a method (`Daemon.Daemon`, `Store.DB`, `Collector.Collector`,
`HookSettings.SettingsFile`, `RcBlock.RcFile` and the loops beside them) proved against a function
or predicate; the theorems are about those. The step systems of `Lifecycle` and `Collector` use the
same functions as the methods, so a step there is what the method does in one go. Those functions
are tied down by statements that do not name them, in terms of the inputs and of the constants the
program uses: which row evidence leads to (`ComposeEvidence`), what a cleaned path is (`Paths`), what
a node and a row show (`ProcessTree`, `Attribution`), counters as plain sums modulo 2^64 (`Folds`),
each field of a session after an event (`Tracking`), and what transcripts and settings come to.

## Where the code is weaker than it looks

Each of these is a theorem with a concrete or general witness.

- Map order can show. Two recent telemetry sessions with one launch ID and no row of their own name
  the row after whichever the range visits last (`ComposeExact.LaunchContentionOccurs` is a concrete
  input). The exact condition, `Uncontended`: no two telemetry sessions compete for a row, and where
  a row's own session shares it with one other, the two agree on every value the later one would
  overwrite. It is exact for the state the loops end in (`ComposeExact.OrderFreeExactly`) and for the
  composed list when the limit has room for every recent session without a row of its own
  (`ComposeList.ListFreeExactly`); for smaller limits it is sufficient
  (`ComposeResult.VisitOrderIrrelevant`).
- `if delta < 0 { delta = -delta }` overflows for the least duration, so a start earlier by 2^63 ns
  or more passes both time windows (`Matching.MagnitudeTest`, `UndatedStartFits`).
- Matched processes that see each other around a parent cycle hide each other: none is reported as
  a root (`Discover.CycleHasNoRoot`); `Discover.CoverageExactly` says exactly when that happens.
- Two roots can have overlapping trees when the upward walk stops at pid 0 or after 1000 links with
  a matched process further up (`Discover.TreesMeet`, a concrete table); `DisjointExactly` and
  `NestingIsFar` say exactly when.
- The comment on `stripMarkedBlock` calls installing again idempotent, with no wrappers piling up.
  An rc file with a begin marker and no end marker after it loses everything behind the marker on
  the second install or on uninstall (`RcBlock.OrphanLosesTail`), and of two blocks already there
  only one goes, so two wrappers stay (`RcBlock.TwoBlocksStay`). `RcBlock.RoundTripExactly` gives
  the exact condition for every text.
- An ended session becomes active again by ordinary activity: five minutes after its end it is
  pruned, and a late event then tracks it anew, over its ended record (`Revival.LateActivityRevives`).
  `Revival.RevivedExactly` lists, over all runs, everything that makes a session active again.
- A session ended in memory can come back as active after a clean restart when its copies reached
  the store out of order (`Lifecycle.StaleWriteRevives`). `Revival.RestartRevivesExactly` says when,
  over all runs and whatever memory said: the last copy written says active. With writes in the order
  of the copies and no crash, only an event can bring it back, pruned or not (`Revival.InOrderNeverRevives`).
- Session IDs can share a record, and so their stored peak: every ID with characters outside
  letters, digits, `-` and `_` does, and so does every ID with a `_` (`Store.UnsafeNamesCollide`,
  `UnderscoreShares`). `Store.OwnRecordExactly` says that no others do.
- `HandleEvent` accepts a session ID such as `auto-7`. A tracked session with the ID and agent of an
  auto-discovered root shares its key; `Attribution.TickRowsApart` says that nothing else does.
- The comment above `IngestTelemetry` speaks of the latest record only; the code remembers 256
  fingerprints, so after 257 different deliveries the first one counts again
  (`TelemetryIngest.WindowFallsShort`). `WindowIsExact` says exactly when the window is as good as
  remembering all.

## Model

| member | source | states |
|---|---|---|
| ComposeResult.SessionsUnique | internal/daemon/daemon.go:661-775 | For every order of both maps and every sorted order of the rows, no two rows of the composed list have the same agent and session ID. |
| ComposeResult.OrderIrrelevant | internal/daemon/daemon.go:661-788 | When sessions are uncontended, the composed list is the same sequence for every order of maps and rows, positions and cut-off included. |
| ComposeResult.VisitOrderIrrelevant | internal/daemon/daemon.go:687-774 | The same for given sorted rows: when sessions are uncontended the visiting orders of the two maps cannot be seen in the list. |
| ComposeResult.ResourcesConserved | internal/daemon/daemon.go:755-773 | The process rows reappear as the sorted suffix with everything the scan contributed unchanged, the rows before them carry no resources, and the memory shown equals the memory scanned. |
| ComposeResult.OneHome | internal/daemon/daemon.go:687-756 | Every recent session has exactly one home before truncation: its own logical row, or the process row the ID table gives it; a logical row shows the transcript's usage or telemetry's, never a sum, and says where its other fields come from. |
| ComposeResult.SharedKeepsName | internal/daemon/daemon.go:698-752 | A row of a shared or resource-free scope is never renamed by PID or directory-and-time evidence, only by a session carrying its launch ID. |
| ComposeResult.DroppedNotNewer | internal/daemon/daemon.go:758-772 | In every composed list, a session without a process that the limit cuts off is no newer than any such session shown, and exactly limit of them are shown. |
| ComposeResult.RowOrder | internal/daemon/daemon.go:777-788 | The row comparator is a strict weak order, as sort.Slice demands. |
| ComposeResult.LogicalOrder | internal/daemon/daemon.go:762-769 | So is the newest-first comparator of logical rows. |
| ComposeResult.ListOrder | internal/daemon/daemon.go:757-788 | In the composed list, rows without a process come newest first, then the process rows, composed by scope, project, agent and ID; equal times fall back on the same order. |
| Sorting.TextLessIs | internal/daemon/daemon.go:777-788 | One text is before another iff it is a proper start of it or has the smaller character where they first differ. |
| ComposeOrder.RunBothSettled | internal/daemon/daemon.go:687-756 | When telemetry sessions do not compete for a row, both loops end, for every pair of orders, with the tables and logical rows an order-free specification names, and each row is the fold of the few sessions that end up on it. |
| ComposeOrder.SettledUnique | internal/daemon/daemon.go:687-756 | That specification determines the ID table, the matched rows and the logical rows. |
| ComposeExact.OrderFreeExactly | internal/daemon/daemon.go:687-756 | For all inputs: every two orders of both maps leave the same state of both loops, tables included, iff sessions are uncontended, a condition on the inputs alone. |
| ComposeList.ListFreeExactly | internal/daemon/daemon.go:687-774 | With a limit that has room for every recent session without a row of its own: all orders of both maps give the same composed list iff sessions are uncontended. |
| ComposeList.WeakShows | internal/daemon/daemon.go:702-729 | With such a limit, a session with process or guessed evidence beside any other claimant of its row gives two different lists. |
| ComposeExact.UncontendedIsFree | internal/daemon/daemon.go:687-756 | Uncontended sessions leave the same state behind for any two pairs of orders. |
| ComposeExact.RowFreeExactly | internal/daemon/daemon.go:687-756 | With separated sessions, one row comes out the same from all orders of its own sessions iff the pair sharing it, if there is one, agrees. |
| ComposeExact.SeparationNeeded | internal/daemon/daemon.go:687-729 | If no order shows, no two telemetry sessions compete: two claims on a row are those of its own session and of one with its launch ID. |
| ComposeExact.WeakContentionShows | internal/daemon/daemon.go:702-716 | A session with process or guessed evidence gets its row if visited before another claimant, and not if visited right after it. |
| ComposeExact.TelemetryOrder | internal/daemon/daemon.go:959-973 | The row's own telemetry and that of a session with its launch ID merge alike in both orders iff metrics, usage and the values filling gaps agree; a later transcript hides the usage. |
| ComposeExact.TranscriptOrder | internal/daemon/daemon.go:938-957 | Two transcripts merge alike in both orders iff usage and time agree and so do the values that fill the gaps of directory, project, model and path. |
| ComposeExact.GuessOrder | internal/daemon/daemon.go:739-749 | The same for the own transcript of a row and one that was only guessed, older telemetry included. |
| ComposeExact.LaunchContentionOccurs | internal/daemon/daemon.go:698-701 | A concrete input with two sessions of one launch: the two visiting orders name the row differently. |
| ComposeOrder.LaunchContention | internal/daemon/daemon.go:698-701 | A telemetry session that claims a row by launch ID last gives the row its name, whatever happened before. |
| ComposeOrder.LaunchContentionShows | internal/daemon/daemon.go:698-701 | Two recent telemetry sessions that both claim a row by launch ID give rows with different IDs, each for any order that visits it last. |
| ComposeSafety.RunBothSafe | internal/daemon/daemon.go:687-756 | After both loops, in any order: every current row key maps to its row, rows keep the scan's data, logical keys stay apart from row keys, and every visited recent session is housed. |
| ComposeSafety.DeleteRemovesNothing | internal/daemon/daemon.go:739-748 | The delete from the logical map in the transcript loop never finds a row to remove. |
| ComposeSafety.MatchedAgent | internal/daemon/daemon.go:694-716 | A match by launch ID, process identity or guess leads to a row of the session's own agent, and the two weaker grades to an owned row. |
| ComposeRows.MatchedRowShows | internal/daemon/daemon.go:717-726 | A row that one recent session alone ends up on, with no competition anywhere or none that could drive another session to it, bears that session's key; usage comes from the transcript if there is one, gaps are filled by telemetry and then the transcript, known values stay, and the attribution follows the grade of evidence. |
| ComposeRows.UnclaimedRowUnchanged | internal/daemon/daemon.go:687-756 | A row no recent session ends up on, with no competition anywhere or no evidence at all leading to it, is shown as it was scanned. |
| ComposeLocal.RunBothLocal | internal/daemon/daemon.go:687-756 | A row that one session alone can reach comes out as that session alone leaves it, whatever other sessions compete for elsewhere and in whatever order. |
| ComposeRows.LogicalShows | internal/daemon/daemon.go:907-957 | Field by field, which source the row of a session without a process takes its values from. |
| Compose.ComposeSessions | internal/daemon/daemon.go:661-775 | The running composition returns a list that the specification allows for some sorted order of the rows and some visiting order of each map. |
| Compose.Prepare | internal/daemon/daemon.go:661-685 | Sorted rows, their index, the deduplicated sources and the confirmed guesses, each as specified. |
| Compose.ListRows | internal/daemon/daemon.go:687-774 | Both loops, then the logical rows newest first, cut off at the limit, before the process rows. |
| Compose.TakeTelemetrySession | internal/daemon/daemon.go:688-729 | One turn of the telemetry loop, branch by branch, is one step of the specification. |
| ComposeEvidence.FindRowExactly | internal/daemon/daemon.go:694-716 | At any point of the telemetry loop, for each grade as an iff: the row the ID table gives; else the last row with the agent and launch ID; else, unless taken, the last row whose tree shows the process; else, unless taken, the guess. |
| ComposeEvidence.IdentityExactly | internal/daemon/daemon.go:790-811 | Process identity holds for a row iff it is owned, of the session's agent, the last to show the PID, and shows it with a set start within two seconds of the session's, or 2^63 ns or more before it. |
| ComposeEvidence.OwnRowFirst | internal/daemon/daemon.go:673-677 | The loop starts with each session at the last row with its agent and ID. |
| ComposeEvidence.RecentExactly | internal/daemon/daemon.go:975-977 | The sessions that take part are those with a set update time no older than the window; a transcript must also name its session. |
| Compose.TakeUsageSource | internal/daemon/daemon.go:730-756 | One turn of the transcript loop is one step of the specification. |
| Compose.MatchTelemetry | internal/daemon/daemon.go:687-729 | The telemetry loop visits every session once, in some order, and computes the run over that order. |
| Compose.MatchTranscripts | internal/daemon/daemon.go:730-756 | Likewise for the transcripts. |
| Compose.IndexProcessRows | internal/daemon/daemon.go:669-682 | The loop that fills the four lookup tables computes the index whose meaning RowTables states. |
| Compose.DedupKeyed | internal/usage/collector.go:292-305 | Deduplicated sources that name a session sit under that session's key. |
| Compose.ComposedSafely | internal/daemon/daemon.go:661-775 | From keyed maps and distinct process rows, whatever Go leaves open: no session twice, resources conserved. |
| Compose.ComposedUniquely | internal/daemon/daemon.go:661-788 | When sessions are uncontended, the list is also independent of the order the process rows arrived in. |
| RowTables.OwnerIsLastHolder | internal/daemon/daemon.go:678-681 | A pid is in the owner table iff some row's tree shows it; it points at the last such row, with the start time shown there. |
| RowTables.KeyIsLatest | internal/daemon/daemon.go:674 | A session key is in its table iff some row has it, and points at the last such row. |
| RowTables.IndexRowsIsIndex | internal/daemon/daemon.go:669-682 | The four tables as filled mean what the composition theorems ask of them. |
| RowTables.IsIndexUnique | internal/daemon/daemon.go:669-682 | That meaning determines the tables. |
| RowTables.LaunchIsLatest | internal/daemon/daemon.go:675-677 | A launch key is in its table iff some row carries it, and points at the last such row. |
| Matching.BuildProbableMatches | internal/daemon/daemon.go:847-885 | The result is exactly the pairs (session, row) where the row is the session's only fit and no other recent session's only fit. |
| Matching.FindProbableProcess | internal/daemon/daemon.go:813-839 | Success means the row is the one row outside the given taken set that fits the hint; failure means there is no such row. |
| ComposeEvidence.CompatibleExactly | internal/daemon/daemon.go:814-832 | A row can be guessed iff it is owned, of the hint's agent and cleaned directory, and started within 45 seconds, or 2^63 ns or more before. |
| ComposeEvidence.HintFields | internal/daemon/daemon.go:848-867 | Field by field, where the hint of a recent session comes from. |
| Paths.CleanExactly | internal/daemon/daemon.go:817-823 | Cleaning leaves a path alone iff it is in normal form: no empty or "." element, ".." only at the start of a relative path. |
| Paths.CleanIsClean | internal/daemon/daemon.go:817-823 | The result of cleaning is in that form. |
| Paths.CleanTwice | internal/daemon/daemon.go:817-823 | Cleaning again changes nothing. |
| Paths.CleanDrops | internal/daemon/daemon.go:817-823 | Empty and "." elements make no difference, in any context. |
| Paths.CleanDropsLast | internal/daemon/daemon.go:817-823 | Nor do they at the end: a trailing slash or "/." is ignored. |
| Paths.CleanBacks | internal/daemon/daemon.go:817-823 | A name and the ".." behind it cancel, in the middle and at the end. |
| Paths.CleanRootParent | internal/daemon/daemon.go:817-823 | There is nothing above the root. |
| Paths.CleanLeadingDot | internal/daemon/daemon.go:817-823 | A leading "./" makes no difference. |
| Paths.CleanEmpty | internal/daemon/daemon.go:817-823 | The empty path is the current directory. |
| Paths.SplitSlash | internal/daemon/daemon.go:817-823 | Splitting into elements: a slash between two texts splits them. |
| Paths.BaseIsLast | internal/daemon/daemon.go:219-222 | The base name is the last element that is not empty; "/" if all are, "." for no path. |
| Paths.ProjectIsLast | internal/usage/collector.go:316-322 | A project is named after the last element of its cleaned directory, "unknown" for the root and the current directory. |
| Matching.CollectHints | internal/daemon/daemon.go:848-867 | The two loops collect, for every recent session, telemetry's hint overlaid with the transcript's directory and start. |
| Matching.ProbableInjective | internal/daemon/daemon.go:869-884 | The match is an injective map and does not depend on iteration order. |
| Matching.MagnitudeTest | internal/daemon/daemon.go:806-810 | What the duration test accepts exactly: differences within the slack, and starts earlier by 2^63 ns or more. |
| Matching.UndatedStartFits | internal/daemon/daemon.go:826-832 | A row with the zero start time therefore passes the time test against every hint from year 293 on. |
| Model.SessionKeyInjective | internal/daemon/daemon.go:979 | Agent names without a colon make the key determine agent and ID. |
| Discover.FindRoots | internal/discover/patterns.go:122-141 | The roots are, once each, exactly the matched and not excluded processes the bounded walk sees no matched ancestor of, with the first matching pattern. |
| Discover.HasMatchedAncestor | internal/discover/patterns.go:146-165 | True iff some ancestor within 1000 links, before pid 0 or a repeat, is matched. |
| Discover.MatchOne | internal/discover/patterns.go:98-105 | The first matching pattern, or proof that none matches. |
| Discover.RootsPartition | internal/discover/patterns.go:122-165 | With parent chains that end within the walk, the roots' trees are pairwise disjoint and every candidate lies in one of them. |
| Discover.CoverageExactly | internal/discover/patterns.go:122-165 | For any table, every candidate lies below a root iff no candidates see each other in a ring. |
| Discover.DisjointExactly | internal/discover/patterns.go:122-165 | For any table, the roots' trees are disjoint iff no two different candidates that see no candidate lie on one parent chain. |
| Discover.NestingIsFar | internal/discover/patterns.go:146-165 | Such candidates are more than 1000 links apart, or the chain between them passes pid 0. |
| Discover.TreesMeet | internal/discover/patterns.go:146-165 | A concrete table of three processes whose two roots have overlapping trees. |
| Discover.AutoMeetsHookOnlyFromAbove | internal/daemon/daemon.go:313-335 | An auto tree meets a tracked session's tree only if the tracked root is strictly below the auto root. |
| Discover.CycleHasNoRoot | internal/discover/patterns.go:146-165 | Two matched processes that are each other's parent yield no root. |
| ProcScan.Children | internal/procscan/types.go:48-54 | The index lists each process once, under its parent. |
| ProcScan.Descendants | internal/procscan/types.go:61-80 | For any snapshot, cyclic ones included: each process whose parent chain reaches a listed root, once, and nothing for an unlisted root. |
| ProcScan.SubtreeIsBranch | internal/procscan/types.go:61-80 | Cutting the root's own parent link loses no descendant, so one notion of descent serves both walks. |
| ProcessTree.BuildTree | internal/daemon/daemon.go:472-503 | The tree below the root is complete: every child of every node, in ascending order, except the root itself. |
| ProcessTree.TreeFields | internal/daemon/daemon.go:485-491 | Every node of a tree shows the scan's parent, command, start, memory, CPU and ports of its own process. |
| ProcessTree.Build | internal/daemon/daemon.go:482-501 | The recursive closure terminates on any snapshot and visits exactly the branch below its process. |
| ProcessTree.VisitedOnlyRoot | internal/daemon/daemon.go:494-497 | The depth-first walk meets a visited process only when it is the root, that is, when the root lies on a cycle. |
| ProcessTree.FlattenTree | internal/findings/rules.go:63-76 | The recursive closure appends the trees in pre-order. |
| ProcessTree.FlattenIsSubtree | internal/daemon/daemon.go:472-503 | Flattening the tree lists every process whose parent chain reaches the root, once each: the breadth-first and the depth-first walk agree. |
| ProcessTree.TreeUnique | internal/daemon/daemon.go:472-503 | The snapshot leaves no freedom in the tree. |
| ProcessTree.Totals | internal/daemon/daemon.go:326-335 | The running totals of memory (on 64-bit counters), CPU and ports over the flat list. |
| ProcessTree.TreeAccounts | internal/daemon/daemon.go:324-335 | The total over the flat list is the wrapped sum of memory over the set of processes below the root. |
| ProcessTree.TreeTotals | internal/daemon/daemon.go:324-335 | The list has one entry per process below the root; its CPU is the sum over that set, and a port is listed iff one of them listens on it. |
| ProcessTree.PortsConcat | internal/daemon/daemon.go:330-334 | Ports are listed in the order of the processes, each with all of its own. |
| ProcessTree.Attribute | internal/daemon/daemon.go:324-335 | Tree, flat list and totals as a tick chains them. |
| ProcessTree.MemoryFinding | internal/findings/rules.go:90-110 | The memory finding is raised iff the memory attributed to the row exceeds the threshold. |
| Attribution.TickRowsApart | internal/daemon/daemon.go:345-367 | For agent names without a colon, the rows a tick hands to the composition have different keys iff no tracked session has both the ID and the agent of an auto-discovered root. |
| Attribution.TickRowsDetermined | internal/daemon/daemon.go:313-367 | One scan gives one collection of rows, whatever order the maps are visited in. |
| Attribution.AutoRowsPartition | internal/daemon/daemon.go:397-464 | Where the parent chains of the matched processes end within the walk, auto rows show disjoint sets of processes and together every matched process no tracked session covers. |
| Attribution.SharedProcessFromAbove | internal/daemon/daemon.go:313-367 | A process attributed to a tracked session and to an auto root has the tracked root strictly below the auto root. |
| Attribution.HookRowShows | internal/daemon/daemon.go:324-354 | The row of a tracked session shows the session, exactly the processes below its root with their number, memory modulo 2^64, CPU and ports, and the session's peak. |
| Attribution.AutoRowShows | internal/daemon/daemon.go:413-457 | So does the row of an auto root; its ID, directory, project, times, scope and attribution come from the root process, its pattern and the first-seen table, as stated field by field. |
| Attribution.AutoIDReads | internal/daemon/daemon.go:414-416 | An auto ID is "auto-" and the pid in decimal digits. |
| Attribution.FirstSeenStartsStreak | internal/daemon/daemon.go:404-412 | Over any run of ticks, an auto root's start is the first tick of its unbroken presence. |
| Attribution.AutoIDInjective | internal/daemon/daemon.go:414-424 | Auto session IDs tell pids apart. |
| TelemetryIngest.IngestBatch | internal/daemon/daemon.go:573-625 | The loop over a batch computes the specified sessions. |
| TelemetryIngest.SeenBefore | internal/daemon/daemon.go:646-659 | True iff the fingerprint is non-empty and is the last one or in the window. |
| TelemetryIngest.WindowIsExact | internal/daemon/daemon.go:583-625 | The 256-entry window accepts what unbounded memory accepts iff every redelivery arrives while at most 256 events new to the session have been delivered since; otherwise it accepts strictly more. |
| TelemetryIngest.WindowFallsShort | internal/daemon/daemon.go:583-659 | After 257 different deliveries, delivering the first again counts it twice. |
| TelemetryIngest.WindowFallsShortSomewhere | internal/daemon/daemon.go:583-659 | There are such deliveries. |
| TelemetryIngest.SessionAccumulates | internal/daemon/daemon.go:573-625 | Over any events of a session: each counter is the plain sum over the accepted events modulo 2^64 (cost and time real sums), the window is the last 256 accepted fingerprints, each descriptive field the last, first or latest that was set, and the first event names the session, an unknown agent being Codex. |
| TelemetryIngest.RunAccumulates | internal/daemon/daemon.go:573-625 | Over any events of a session: every total is the sum over the accepted events, the window is the last min(n, 256) accepted fingerprints, and each descriptive field is the last (or first, or latest) that was set. |
| TelemetryIngest.FiledUnder | internal/daemon/daemon.go:574-579 | Sessions are keyed by agent and ID. |
| TelemetryIngest.TotalsAreExact | internal/daemon/daemon.go:583-625 | With redeliveries in time, each counter of usage and metrics is the plain sum over distinct fingerprints modulo 2^64. |
| TelemetryIngest.BatchTotalsAreExact | internal/daemon/daemon.go:569-659 | Over any list of batches, with redeliveries in time, each counter of a session is the plain sum over its distinct fingerprints modulo 2^64, and its window the last 256 of them. |
| TelemetryIngest.ReplayBatch | internal/daemon/daemon.go:569-659 | Delivering a batch of at most 256 fresh events per session twice has the effect of delivering it once. |
| TelemetryIngest.IngestByKey | internal/daemon/daemon.go:573-625 | A session's state depends on the events with its key only. |
| TelemetryIngest.InterleavingIrrelevant | internal/daemon/daemon.go:573-625 | Interleaving the sessions' events in any way gives the same state. |
| TelemetryIngest.IngestConcat | internal/daemon/daemon.go:573-625 | Batch boundaries cannot be seen. |
| TelemetryIngest.IngestKeeps | internal/daemon/daemon.go:573-625 | Every entry stays under its own key with a bounded window, and no session is dropped. |
| TelemetryIngest.RestartRestores | internal/daemon/daemon.go:158-166 | A restart rebuilds the map that was saved, in whatever order it was saved. |
| Collector.ScanIsFresh | internal/usage/collector.go:55-118 | In every run of file changes, complete and cut-short scans and restarts, if path, size and time decide content, a complete scan leaves each usable transcript with a fresh parse, by the Claude parser where its root covers the file and the parse is usable, else by the Codex parser; other entries stay as they were. |
| Collector.RunKeepsInv | internal/usage/collector.go:45-118 | In every run, overlapping roots included, each entry in memory and on disk is the fresh entry of some version its file once had. |
| Collector.NewerVersionSeen | internal/usage/collector.go:93-96 | Without the stamp premise: a newer version is seen iff its size or time differs or it parses alike. |
| Collector.EntryFields | internal/usage/collector.go:97-116 | Where the fields of a fresh entry come from, and that the cache recognises it. |
| Collector.EntryExactly | internal/usage/collector.go:99-102 | A file yields an entry iff it can be read and its parse names a directory and a positive total; session, directory, model and usage are the parse's. |
| Collector.ListedByPath | internal/usage/collector.go:65-69 | Sources are listed by path. |
| Collector.UnderExactly | internal/usage/collector.go:75-91 | A root covers exactly the paths below it that end in .jsonl. |
| Collector.ArchivedExactly | internal/usage/collector.go:113 | An entry is archived iff its path has a directory archived_sessions. |
| Collector.NamesFollowDirectories | internal/usage/collector.go:115 | In every run, sources of one directory share its project name. |
| Collector.ProjectsDetermined | internal/usage/collector.go:256-287 | So the projects after any run do not depend on map order. |
| Collector.RestartReadsIndex | internal/usage/collector.go:45-50 | A restart reads back the index a scan wrote. |
| Collector.Collector.Scan | internal/usage/collector.go:55-73 | Every covered file is visited by the parser of each root over it, Claude first; the result lists the index by path and aggregates it. |
| Collector.Collector.ScanRoot | internal/usage/collector.go:75-118 | The walk over one root, in any order, whatever earlier walks visited. |
| Collector.Collector.VisitFile | internal/usage/collector.go:93-116 | Visiting a file replaces its entry only by a fresh usable parse, and leaves all others. |
| Transcripts.ParseClaude | internal/usage/collector.go:144-181 | The loop computes: last session and directory, first and latest time, usage summed over distinct assistant messages with the total equal to its four parts. |
| Transcripts.ClaudeUsageReads | internal/usage/collector.go:166-179 | Each counter is that of the distinct assistant messages added up, the total all four added up, modulo 2^64. |
| Transcripts.ClaudeHeaderReads | internal/usage/collector.go:152-165 | Last session and directory given, first and latest time. |
| Transcripts.MessageIsLast | internal/usage/collector.go:166-168 | A message counts iff some assistant record carries its ID, with the usage of the last such record. |
| Transcripts.ClaudeRereadTail | internal/usage/collector.go:144-181 | Reading any tail of a transcript twice gives the same source; with an empty head, the whole of it. |
| Transcripts.ParseCodex | internal/usage/collector.go:211-247 | The loop computes the last metadata, the last positive token count with cached input split off, first start and latest time. |
| Transcripts.CodexUsageReads | internal/usage/collector.go:232-246 | Usage is that of the last positive token count, with cached input counted apart from the input it is part of; none without one. |
| Transcripts.CodexMetaReads | internal/usage/collector.go:219-221 | Session and directory are those of the last metadata record. |
| Transcripts.CodexHeaderReads | internal/usage/collector.go:222-231 | Last model given, first metadata time, latest time. |
| Transcripts.CodexRereadTail | internal/usage/collector.go:211-247 | The same re-reading law for Codex. |
| Projects.DeduplicateSources | internal/usage/collector.go:292-305 | The loop computes the specified map. |
| Projects.FiledUnder | internal/usage/collector.go:295-298 | Sources are keyed by agent and session ID, or by path without a session. |
| Projects.DedupKeepsNewest | internal/usage/collector.go:292-305 | Under each key that occurs sits the first among the sources modified last. |
| Projects.IsDedupUnique | internal/usage/collector.go:292-305 | That determines the map. |
| Projects.AggregateProjects | internal/usage/collector.go:256-287 | One row per directory, accounting exactly for its deduplicated sources, sorted. |
| Projects.ListedByTokens | internal/usage/collector.go:280-285 | Projects are listed by total tokens, most first, then by name. |
| Projects.AggregationConserves | internal/usage/collector.go:256-287 | Each counter added up over projects and over the deduplicated sources is the same modulo 2^64, and each row's counters are those of its directory's sources; session counts add up to their number. |
| Projects.AggregationUnique | internal/usage/collector.go:256-287 | With one name per directory, the collection of projects does not depend on map order. |
| Projects.LatestIsMaximum | internal/usage/collector.go:270-273 | A project's time is the latest modification among its sources. |
| Projects.TimeIsModification | internal/usage/collector.go:270-273 | In terms of the rows: the Unix time in nanoseconds of the latest modification in the directory. |
| Lifecycle.DrainedPeakIsMaximum | internal/daemon/daemon.go:336-383 | In every run of events, ticks, prunes, late writes and clean restarts, once pending copies are written the stored peak is the largest total any tick attributed under that name. |
| Lifecycle.OwnPeakIsMaximum | internal/db/db.go:66-94 | For an ID that shares its record with no other ID attributed in the run, it is the session's own maximum. |
| Lifecycle.StoredPeakNeverDecreases | internal/db/db.go:84-94 | In every run, crashes included, a stored peak never decreases. |
| Lifecycle.StoredPeakIsReal | internal/daemon/daemon.go:336-339 | Even when a crash loses copies, a stored peak was really attributed. |
| Lifecycle.EndedHasEndTime | internal/daemon/daemon.go:201-273 | In every run a session is ended exactly when its end time is set, in memory, in flight and in the store. |
| Revival.RevivedExactly | internal/daemon/daemon.go:168-261 | In every run, crashes included, a session not active at one point is active later iff some step in between activated it and no end event or restart came since: its own start event, any other event of it but an end while it was not tracked, or a restart that read back its active record. |
| Revival.ActiveNext | internal/daemon/daemon.go:168-320 | Step by step: what makes a session active and what settles it, as an iff over all kinds of steps. |
| Revival.LateActivityRevives | internal/daemon/daemon.go:240-269 | A run in which an ended session is pruned, a late activity event tracks it as active without an end time, and the copy replaces the ended record. |
| Lifecycle.EventStates | internal/daemon/daemon.go:201-261 | A start activates, an end ends, activity keeps the state, unknown or anonymous events change nothing, and no event touches another session or any peak. |
| Tracking.EventFields | internal/daemon/daemon.go:205-261 | For each kind of event and for known and unknown sessions, every field of the session afterwards; the copy in flight is that session; no other session changes. |
| Tracking.EventRejected | internal/daemon/daemon.go:201-253 | An event without a session or of an unknown kind changes nothing. |
| Tracking.TickFields | internal/daemon/daemon.go:321-340 | A tick sets the process start, once, changes no other field, and attributes the memory below the session's root process. |
| Tracking.RootIsLastSet | internal/daemon/daemon.go:201-253 | In every run, a tracked session's root process is that of its last start event, unless it was tracked anew since: then none, or after a restart the stored record's. |
| Tracking.TickAttributesRoot | internal/daemon/daemon.go:321-339 | So a tick attributes to it the memory below that process. |
| Lifecycle.PrunesExactlyExpired | internal/daemon/daemon.go:315-319 | A tick drops exactly the sessions that ended more than the grace period ago. |
| Lifecycle.StaleWriteRevives | internal/daemon/daemon.go:262-271 | A run in which copies land out of order and a clean restart tracks an ended session as active. |
| Revival.StoredIsLastWritten | internal/db/db.go:84-94 | In every run, crashes included, the stored session is that of the last copy written under its name, however old the copy. |
| Revival.RestartRevivesExactly | internal/daemon/daemon.go:168-189 | In every run and for every ID, a clean restart tracks the session iff the last copy written under its name is its own, says active, and is among the records read. |
| Revival.InOrderNeverRevives | internal/daemon/daemon.go:262-271 | If the copies under a session's name are written in the order they were taken, a session that has ended, pruned or not, is active at a later point with no crash in between only if an event activated it in between. |
| Store.DB.UpsertSession | internal/db/db.go:84-94 | The record becomes the caller's copy with the larger of the two peaks. |
| Store.DB.RecentSessions | internal/db/db.go:137-165 | The most recently started records up to the limit, each once, latest first. |
| Store.LatestStarted | internal/db/db.go:159-163 | They come latest start first, and none left out started later than one returned. |
| Store.SafeNamesDiffer | internal/db/db.go:66-79 | Two IDs of safe characters never share a record. |
| Store.NameExactly | internal/db/db.go:66-79 | Letters, digits, - and _ stay; every other character becomes _. |
| Store.OwnRecordExactly | internal/db/db.go:66-79 | An ID shares its record with no other ID whatever iff it has only safe characters and no underscore. |
| Store.UnderscoreShares | internal/db/db.go:66-79 | A safe ID with an underscore and an unsafe one with the same record. |
| Store.UnsafeNamesCollide | internal/db/db.go:66-79 | Every ID with another character shares its record with the safe one it is sanitised to. |
| Store.UpsertRaises | internal/db/db.go:84-94 | Writing a copy never lowers a peak and touches no other record. |
| RcBlock.UninstallUndoesInstall | internal/cli/hooks_cmd.go:308-346 | If stripping leaves no begin marker, uninstall after install gives the stripped text back, newline-terminated unless empty, and reports a change. |
| RcBlock.InstallShows | internal/cli/hooks_cmd.go:317-323 | After an install the text is the stripped one, newline-terminated unless empty, an empty line, and the markers around the body. |
| RcBlock.NothingToStrip | internal/cli/hooks_cmd.go:338-341 | Without a begin marker uninstall writes nothing. |
| RcBlock.InstallTwice | internal/cli/hooks_cmd.go:308-327 | Installing again writes the same text, if no begin marker is left once a block is stripped. |
| RcBlock.BlockRemoved | internal/cli/hooks_cmd.go:362-382 | Whatever surrounds an installed block comes back untouched. |
| RcBlock.RoundTripExactly | internal/cli/hooks_cmd.go:308-382 | For every text: the round trip and idempotence each hold iff the text without its first block, newline-terminated, is one without a begin marker followed by any number of copies of the shipped block. |
| RcBlock.TwoBlocksStay | internal/cli/hooks_cmd.go:359-382 | A text of two other blocks: one survives the first install, and after the second there are two wrappers. |
| RcBlock.OrphanLosesTail | internal/cli/hooks_cmd.go:362-382 | With an orphan begin marker, stripping after an install cuts the text off there. |
| RcBlock.RcFile.Install | internal/cli/hooks_cmd.go:308-327 | The rc file after install, in the order the command edits it. |
| RcBlock.RcFile.Uninstall | internal/cli/hooks_cmd.go:329-346 | The rc file after uninstall, and whether it was written. |
| CodexWrapper.MarkersFit | internal/cli/hooks_cmd.go:30-59 | Between the shipped markers, any text without a `<` makes a block as the round-trip theorems ask: markers without newlines, no end marker before its own; the block reads as shipped. |
| HookSettings.UninstallUndoesInstall | internal/cli/hooks_cmd.go:159-215 | Uninstall after install restores the settings tree iff hooks is absent or a non-empty object whose managed events are non-empty lists of groups, none empty and none ours. |
| HookSettings.UninstallIgnoresInstall | internal/cli/hooks_cmd.go:184-215 | Uninstall gives the same tree whether or not install ran first iff hooks is absent or an object. |
| HookSettings.InstallTwice | internal/cli/hooks_cmd.go:159-182 | A second install changes nothing, whatever the tree. |
| HookSettings.UninstallTwice | internal/cli/hooks_cmd.go:184-215 | After uninstall only the user's hooks remain, so a second one changes nothing. |
| HookSettings.InstallKeepsUserHooks | internal/cli/hooks_cmd.go:220-233 | Every managed event ends up with the command behind the groups it had; nothing else moves. |
| HookSettings.InstallsCommands | internal/cli/hooks_cmd.go:11-28 | After an install each of the four events runs its command, and nothing has changed under any other. |
| HookSettings.AddedGroup | internal/cli/hooks_cmd.go:220-233 | An event that runs the command keeps its groups; another gets one more, of the shape Claude Code reads. |
| HookSettings.UninstallKeepsUserHooks | internal/cli/hooks_cmd.go:184-215 | Uninstall touches nothing but the four events, which keep what removal leaves of them or go, as does a hooks object left empty. |
| HookSettings.KeptInOrder | internal/cli/hooks_cmd.go:263-275 | Removal drops exactly the hooks whose command starts with Biewer's, and keeps the rest in order. |
| HookSettings.GroupsInOrder | internal/cli/hooks_cmd.go:257-284 | It keeps groups in order with their other fields, and drops those left without hooks. |
| HookSettings.RemoveCommandHook | internal/cli/hooks_cmd.go:255-285 | The nested loops drop exactly our commands and the groups left empty. |
| HookSettings.OurCommands | internal/cli/hooks_cmd.go:11-28 | All installed commands are recognised by removal. |
| HookSettings.SettingsFile.Install | internal/cli/hooks_cmd.go:159-182 | The tree after the install command. |
| HookSettings.SettingsFile.Uninstall | internal/cli/hooks_cmd.go:184-215 | The tree after the uninstall command. |
| Daemon.Daemon.constructor | internal/daemon/daemon.go:116-193 | Defaults, the transcript index and telemetry map read back, and the active ones among the 200 most recently started sessions. |
| Daemon.DefaultsApply | internal/daemon/daemon.go:132-137 | A window of a day and a limit of 50 where the settings give none. |
| Daemon.Daemon.HandleEvent | internal/daemon/daemon.go:201-273 | The tracked sessions after an event, the copy that is stored, and the two rejected kinds that change nothing. |
| Daemon.ApplyEvent | internal/daemon/daemon.go:211-261 | The switch and the field updates of one event, assignment by assignment. |
| Daemon.Daemon.Tick | internal/daemon/daemon.go:302-385 | Sessions pruned and rescanned, the rows built from the scan, a composition of them shown, and exactly the raised peaks written. |
| Daemon.ScanSessions | internal/daemon/daemon.go:315-360 | The loop over the tracked sessions: rows, covered processes, raised peaks and prunes. |
| Daemon.ScanSession | internal/daemon/daemon.go:321-356 | One session against a scan: process start, tree, totals, peak and row. |
| Daemon.Daemon.AutoDiscoverLocked | internal/daemon/daemon.go:397-464 | A row for each root nobody announced, and first-seen times that live as long as their root. |
| Daemon.Daemon.IngestTelemetry | internal/daemon/daemon.go:569-643 | The sessions after a batch, a composition shown, and a list saved by session ID that reads back as the same map. |
| Daemon.Daemon.RefreshUsage | internal/daemon/daemon.go:541-565 | The index refreshed, listed and saved, projects aggregated, a composition shown. |
| Daemon.TickShowsOnce | internal/daemon/daemon.go:302-385 | End to end, with or without auto-discovery, for agent names without a colon and no tracked session with the ID and agent of an auto-discovered root: after a tick no session is shown twice and the memory shown is the memory of the tick's rows. |
| Daemon.TickDetermined | internal/daemon/daemon.go:662-668 | Two ticks that start alike and see the same scan show the same list, position by position, when sessions are uncontended, agent names have no colon, and no tracked session has the ID and agent of an auto-discovered root. |

## Left out

- Unix socket and HTTP server, client, signals, process killing, pidfiles, loggers: input and output.
- Scanning with ps, lsof and /proc: a tick starts from an arbitrary snapshot.
- JSON and OTLP decoding, hashing, time and number formatting: records and fingerprints are given values; a transcript is the list of its decoded lines, under either format.
- Findings other than the memory one: messages and substring lists; `findings.Evaluate` is any function of session, tree and time.
- Concrete command patterns: `Match` is any predicate.
- Failing writes, directory-walk errors and permission errors: the stores are maps and writes succeed, except that `Lifecycle.Crash` may lose pending copies and `ScanCutShort` may stop a scan anywhere.
- Symbolic links and path cleaning in transcript roots: a file is under a root if its path extends the root by a slash and ends in `.jsonl`.
- The append-only event log, session lookup by ID prefix and the `Plan` commands: easier than the rest.
- A settings file holding the literal `null`, which loads as a nil map and makes the install command panic.
- Floating-point rounding: cost, active seconds and CPU shares add up as reals.
- Persisting the composed snapshot itself, and its `Storage` label.
- Tables, sparklines, key handling and human-readable sizes: user interface.
- Files that change while a scan walks over them: a scan sees one state of the files.
- The text of the shell wrapper: `CodexWrapper` keeps its markers; the wrapper at internal/cli/hooks_cmd.go:33-58 contains no `<`, which is what `MarkersFit` asks.
- Discover.RootsPartition: asks for chains that end within the walk; for other tables `CoverageExactly` and `DisjointExactly` give the exact conditions.
- Compose.TakeTelemetrySession: takes and returns the local maps and the row slice as one value, so updates in place through `&combined[index]` are modelled on values.
- Daemon.ScanSessions: works on the session map as a value that the tick then stores, not through pointers to the tracked sessions.
- Daemon.Daemon.Tick: the lock is one method call; interleavings with delayed store writes are the subject of `Lifecycle`.
