// The records the daemon works on (internal/model/types.go, internal/telemetry).
module Model {
  import opened Base
  import opened ProcessTree

  type Agent = string

  const AGENT_CLAUDE: Agent := "claude"
  const AGENT_CODEX: Agent := "codex"
  const AGENT_CLAUDE_DESKTOP: Agent := "claude-desktop"
  const AGENT_CHATGPT: Agent := "chatgpt"
  const AGENT_CODEX_DESKTOP: Agent := "codex-desktop"
  const AGENT_UNKNOWN: Agent := "unknown"

  datatype SessionSource = Hook | Auto | Transcript | Telemetry

  datatype ResourceScope = Owned | Shared | NoResources

  /** The scope's text, which is what rows are ordered by. */
  function ScopeText(s: ResourceScope): string {
    match s
    case Owned => "owned"
    case Shared => "shared"
    case NoResources => "none"
  }

  datatype Attribution = Confirmed | Probable | SharedTree | NoAttribution

  datatype SessionState = Active | Ended

  datatype Option<+T> = None | Some(value: T)

  datatype Session = Session(
    id: string, launchID: string, agent: Agent, project: string, cwd: string, rootPID: int,
    processStartedAt: Time, startedAt: Time, endedAt: Option<Time>, state: SessionState,
    source: SessionSource, lastActivityAt: Time, transcriptPath: string, model: string)

  datatype TokenUsage = TokenUsage(
    input: U64, cachedInput: U64, cacheWrite: U64, output: U64, reasoning: U64, total: U64)

  const NO_USAGE := TokenUsage(0, 0, 0, 0, 0, 0)

  function AddUsage(a: TokenUsage, b: TokenUsage): TokenUsage {
    TokenUsage(Add64(a.input, b.input), Add64(a.cachedInput, b.cachedInput), Add64(a.cacheWrite, b.cacheWrite),
               Add64(a.output, b.output), Add64(a.reasoning, b.reasoning), Add64(a.total, b.total))
  }

  datatype AgentMetrics = AgentMetrics(
    costUSD: real, activeSeconds: real, linesAdded: U64, linesRemoved: U64, commits: U64, pullRequests: U64)

  const NO_METRICS := AgentMetrics(0.0, 0.0, 0, 0, 0, 0)

  function AddMetrics(a: AgentMetrics, b: AgentMetrics): AgentMetrics {
    AgentMetrics(a.costUSD + b.costUSD, a.activeSeconds + b.activeSeconds, Add64(a.linesAdded, b.linesAdded),
                 Add64(a.linesRemoved, b.linesRemoved), Add64(a.commits, b.commits),
                 Add64(a.pullRequests, b.pullRequests))
  }

  datatype UsageSource = UsageSource(
    path: string, agent: Agent, sessionID: string, project: string, cwd: string, usage: TokenUsage,
    startedAt: Time, updatedAt: Time, model: string, archived: bool, size: int, modifiedUnixNano: int)

  datatype Finding = Finding(severity: string, message: string, attribution: string, confidence: string)

  datatype SessionSnapshot = SessionSnapshot(
    session: Session, processTree: seq<Process>, processCount: nat, cpuSeconds: real, memoryBytes: U64,
    peakMemoryBytes: U64, listenPorts: seq<int>, findings: seq<Finding>, usage: TokenUsage,
    usageUpdatedAt: Time, metrics: AgentMetrics, resourceScope: ResourceScope, attribution: Attribution)

  datatype TelemetrySession = TelemetrySession(
    sessionID: string, agent: Agent, project: string, cwd: string, model: string, launchID: string,
    processPID: int, processCreatedAt: Time, usage: TokenUsage, metrics: AgentMetrics, startedAt: Time,
    updatedAt: Time, lastFingerprint: string, recentFingerprints: seq<string>)

  function SessionKey(agent: Agent, id: string): string { agent + ":" + id }

  lemma ShorterAgentDiffers(a: Agent, i: string, b: Agent, j: string)
    requires ':' !in b && |a| < |b|
    ensures SessionKey(a, i) != SessionKey(b, j)
  {
    assert SessionKey(a, i)[|a|] == ':';
    assert SessionKey(b, j)[|a|] == b[|a|];
    assert b[|a|] in b;
  }

  /** Agent names without a colon make the key say both its parts. */
  lemma SessionKeyInjective(a: Agent, i: string, b: Agent, j: string)
    requires ':' !in a && ':' !in b && SessionKey(a, i) == SessionKey(b, j)
    ensures a == b && i == j
  {
    if |a| < |b| { ShorterAgentDiffers(a, i, b, j); }
    if |b| < |a| { ShorterAgentDiffers(b, j, a, i); }
    var k := SessionKey(a, i);
    assert a == k[..|a|] == b;
    assert i == k[|a| + 1..] == j;
  }

  predicate RecentEnough(updatedAt: Time, now: Time, window: int) {
    updatedAt != 0 && updatedAt >= now - window
  }

  function ScopeForAgent(agent: Agent): ResourceScope {
    if agent == AGENT_CLAUDE_DESKTOP || agent == AGENT_CHATGPT || agent == AGENT_CODEX_DESKTOP
    then Shared else Owned
  }
}
