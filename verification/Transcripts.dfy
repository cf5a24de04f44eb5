// Folding the decoded lines of one transcript into a usage source (parseClaude and
// parseCodex in internal/usage/collector.go).
module Transcripts {
  import opened Base
  import opened Model
  import opened Folds

  const NO_SOURCE := UsageSource("", "", "", "", "", NO_USAGE, 0, 0, "", false, 0, 0)

  // ------------------------------------------------------------------ Claude --

  datatype ClaudeUsage = ClaudeUsage(input: U64, cacheRead: U64, cacheCreate: U64, output: U64)

  datatype ClaudeRecord = ClaudeRecord(
    sessionID: string, cwd: string, timestamp: Time, messageID: string, role: string, usage: ClaudeUsage)

  function SessionOf(r: ClaudeRecord): string { r.sessionID }
  function CwdOf(r: ClaudeRecord): string { r.cwd }
  function TimeOf(r: ClaudeRecord): Time { r.timestamp }

  function AsUsage(u: ClaudeUsage): TokenUsage {
    TokenUsage(u.input, u.cacheRead, u.cacheCreate, u.output, 0, 0)
  }

  predicate IsMessage(r: ClaudeRecord) { r.role == "assistant" && r.messageID != "" }

  /** The usage each assistant message was last seen with. */
  function Messages(records: seq<ClaudeRecord>): map<string, ClaudeUsage> {
    if records == [] then map[]
    else
      var m, r := Messages(records[..|records| - 1]), records[|records| - 1];
      if IsMessage(r) then m[r.messageID := r.usage] else m
  }

  /** Four counters added over messages, and their sum as the total. */
  ghost function ClaudeTotals(messages: map<string, ClaudeUsage>): TokenUsage {
    var sum := SumKeys(messages, AsUsage, messages.Keys);
    sum.(total := Add64(Add64(Add64(sum.input, sum.cachedInput), sum.cacheWrite), sum.output))
  }

  function ClaudeHeader(records: seq<ClaudeRecord>): UsageSource {
    NO_SOURCE.(
      sessionID := LastText(Map(SessionOf, records)),
      cwd := LastText(Map(CwdOf, records)),
      startedAt := FirstTime(Map(TimeOf, records)),
      updatedAt := LatestTime(Map(TimeOf, records)))
  }

  ghost function ClaudeSource(records: seq<ClaudeRecord>): UsageSource {
    ClaudeHeader(records).(usage := ClaudeTotals(Messages(records)))
  }

  /** One record's effect on the fields before the totals. */
  function ClaudeLine(source: UsageSource, r: ClaudeRecord): UsageSource {
    source.(
      sessionID := if r.sessionID != "" then r.sessionID else source.sessionID,
      cwd := if r.cwd != "" then r.cwd else source.cwd,
      startedAt := if source.startedAt == 0 then r.timestamp else source.startedAt,
      updatedAt := if r.timestamp > source.updatedAt then r.timestamp else source.updatedAt)
  }

  lemma ClaudeSnoc(records: seq<ClaudeRecord>, r: ClaudeRecord)
    ensures ClaudeHeader(records + [r]) == ClaudeLine(ClaudeHeader(records), r)
  {
    MapSnoc(SessionOf, records, r);
    MapSnoc(CwdOf, records, r);
    MapSnoc(TimeOf, records, r);
    LastTextConcat(Map(SessionOf, records), [r.sessionID]);
    LastTextConcat(Map(CwdOf, records), [r.cwd]);
    FirstTimeConcat(Map(TimeOf, records), [r.timestamp]);
    var times := Map(TimeOf, records);
    assert (times + [r.timestamp])[..|times|] == times;
  }

  method ReadClaudeLine(before: UsageSource, rec: ClaudeRecord) returns (source: UsageSource)
    requires before.updatedAt >= 0
    ensures source == ClaudeLine(before, rec)
  {
    source := before;
    if rec.sessionID != "" { source := source.(sessionID := rec.sessionID); }
    if rec.cwd != "" { source := source.(cwd := rec.cwd); }
    if rec.timestamp != 0 {
      if source.startedAt == 0 { source := source.(startedAt := rec.timestamp); }
      if rec.timestamp > source.updatedAt { source := source.(updatedAt := rec.timestamp); }
    }
  }

  method ParseClaude(records: seq<ClaudeRecord>) returns (source: UsageSource)
    ensures source == ClaudeSource(records)
  {
    source := NO_SOURCE;
    var messages: map<string, ClaudeUsage> := map[];
    for i := 0 to |records|
      invariant messages == Messages(records[..i])
      invariant source == ClaudeHeader(records[..i]) && source.updatedAt >= 0
    {
      var rec := records[i];
      assert records[..i + 1] == records[..i] + [rec] && records[..i + 1][..i] == records[..i];
      ClaudeSnoc(records[..i], rec);
      source := ReadClaudeLine(source, rec);
      if rec.role == "assistant" && rec.messageID != "" {
        messages := messages[rec.messageID := rec.usage];
      }
    }
    assert records[..|records|] == records;
    var usage := AddMessages(messages);
    source := source.(usage := usage);
  }

  method AddMessages(messages: map<string, ClaudeUsage>) returns (usage: TokenUsage)
    ensures usage == ClaudeTotals(messages)
  {
    usage := NO_USAGE;
    var rest := messages.Keys;
    ghost var done := {};
    while rest != {}
      invariant done + rest == messages.Keys && done !! rest
      invariant usage == SumKeys(messages, AsUsage, done)
      decreases rest
    {
      var id := NextKey(rest);
      SumKeysAdd(messages, AsUsage, done, id);
      var u := messages[id];
      usage := TokenUsage(Add64(usage.input, u.input), Add64(usage.cachedInput, u.cacheRead),
                          Add64(usage.cacheWrite, u.cacheCreate), Add64(usage.output, u.output),
                          usage.reasoning, usage.total);
      rest, done := rest - {id}, done + {id};
    }
    assert done == messages.Keys;
    usage := usage.(
      total := Add64(Add64(Add64(usage.input, usage.cachedInput), usage.cacheWrite), usage.output));
  }

  /** Each message counts once, with the usage of its last record. */
  lemma {:induction false} MessageIsLast(records: seq<ClaudeRecord>, id: string)
    ensures id in Messages(records) <==>
            id != "" && exists r :: r in records && r.role == "assistant" && r.messageID == id
    ensures id in Messages(records) ==>
              exists i :: 0 <= i < |records| && records[i].role == "assistant" && records[i].messageID == id
                          && Messages(records)[id] == records[i].usage
                          && forall j :: i < j < |records| && records[j].role == "assistant" ==>
                                           records[j].messageID != id
    decreases |records|
  {
    if records != [] {
      var n := |records| - 1;
      var init, r := records[..n], records[n];
      assert records == init + [r];
      MessageIsLast(init, id);
      if id in Messages(records) && !(IsMessage(r) && r.messageID == id) {
        var i :| 0 <= i < |init| && init[i].role == "assistant" && init[i].messageID == id
                 && Messages(init)[id] == init[i].usage
                 && forall j :: i < j < |init| && init[j].role == "assistant" ==> init[j].messageID != id;
        assert records[i] == init[i];
        forall j | i < j < |records| && records[j].role == "assistant" ensures records[j].messageID != id {
          if j < n { assert init[j] == records[j]; }
        }
      }
    }
  }

  lemma {:induction false} MessagesConcat(a: seq<ClaudeRecord>, b: seq<ClaudeRecord>)
    ensures Messages(a + b) == Messages(a) + Messages(b)
    decreases |b|
  {
    if b == [] {
      assert a + b == a;
    } else {
      MessagesConcat(a, b[..|b| - 1]);
      assert (a + b)[..|a + b| - 1] == a + b[..|b| - 1];
    }
  }

  /** Reading the tail of a transcript twice changes nothing; with a == [], reading all of it twice. */
  lemma ClaudeRereadTail(a: seq<ClaudeRecord>, b: seq<ClaudeRecord>)
    ensures ClaudeSource(a + b + b) == ClaudeSource(a + b)
  {
    MessagesConcat(a, b);
    MessagesConcat(a + b, b);
    assert Messages(a) + Messages(b) + Messages(b) == Messages(a) + Messages(b);
    MapConcat(SessionOf, a, b);
    MapConcat(SessionOf, a + b, b);
    LastTextConcat(Map(SessionOf, a), Map(SessionOf, b));
    LastTextConcat(Map(SessionOf, a + b), Map(SessionOf, b));
    MapConcat(CwdOf, a, b);
    MapConcat(CwdOf, a + b, b);
    LastTextConcat(Map(CwdOf, a), Map(CwdOf, b));
    LastTextConcat(Map(CwdOf, a + b), Map(CwdOf, b));
    MapConcat(TimeOf, a, b);
    MapConcat(TimeOf, a + b, b);
    FirstTimeConcat(Map(TimeOf, a), Map(TimeOf, b));
    FirstTimeConcat(Map(TimeOf, a + b), Map(TimeOf, b));
    LatestTimeConcat(Map(TimeOf, a), Map(TimeOf, b));
    LatestTimeConcat(Map(TimeOf, a + b), Map(TimeOf, b));
  }

  // ------------------------------------------------------------------- Codex --

  datatype CodexTokens = CodexTokens(input: U64, cached: U64, output: U64, reasoning: U64, total: U64)

  datatype CodexRecord = CodexRecord(
    timestamp: Time, kind: string, payloadKind: string, id: string, cwd: string, model: string, tokens: CodexTokens)

  const NO_TOKENS := CodexTokens(0, 0, 0, 0, 0)

  function StampOf(r: CodexRecord): Time { r.timestamp }
  function ModelOf(r: CodexRecord): string { r.model }

  /** Only session metadata can set the start. */
  function MetaStampOf(r: CodexRecord): Time { if r.kind == "session_meta" then r.timestamp else 0 }

  predicate IsMeta(r: CodexRecord) { r.kind == "session_meta" }

  predicate IsCount(r: CodexRecord) {
    r.kind == "event_msg" && r.payloadKind == "token_count" && r.tokens.total > 0
  }

  function LastMeta(records: seq<CodexRecord>): Option<CodexRecord> {
    if records == [] then None
    else if IsMeta(records[|records| - 1]) then Some(records[|records| - 1])
    else LastMeta(records[..|records| - 1])
  }

  function LastCount(records: seq<CodexRecord>): Option<CodexRecord> {
    if records == [] then None
    else if IsCount(records[|records| - 1]) then Some(records[|records| - 1])
    else LastCount(records[..|records| - 1])
  }

  function CodexUsage(latest: CodexTokens): TokenUsage {
    TokenUsage(if latest.cached <= latest.input then latest.input - latest.cached else latest.input,
               latest.cached, 0, latest.output, latest.reasoning, latest.total)
  }

  function LatestTokens(records: seq<CodexRecord>): CodexTokens {
    var c := LastCount(records);
    if c.Some? then c.value.tokens else NO_TOKENS
  }

  function CodexHeader(records: seq<CodexRecord>): UsageSource {
    var meta := LastMeta(records);
    NO_SOURCE.(
      sessionID := if meta.Some? then meta.value.id else "",
      cwd := if meta.Some? then meta.value.cwd else "",
      model := LastText(Map(ModelOf, records)),
      startedAt := FirstTime(Map(MetaStampOf, records)),
      updatedAt := LatestTime(Map(StampOf, records)))
  }

  function CodexSource(records: seq<CodexRecord>): UsageSource {
    CodexHeader(records).(usage := CodexUsage(LatestTokens(records)))
  }

  function CodexLine(source: UsageSource, r: CodexRecord): UsageSource {
    source.(
      sessionID := if IsMeta(r) then r.id else source.sessionID,
      cwd := if IsMeta(r) then r.cwd else source.cwd,
      model := if r.model != "" then r.model else source.model,
      startedAt := if IsMeta(r) && source.startedAt == 0 then r.timestamp else source.startedAt,
      updatedAt := if r.timestamp > source.updatedAt then r.timestamp else source.updatedAt)
  }

  lemma CodexSnoc(records: seq<CodexRecord>, r: CodexRecord)
    ensures CodexHeader(records + [r]) == CodexLine(CodexHeader(records), r)
    ensures LatestTokens(records + [r]) == if IsCount(r) then r.tokens else LatestTokens(records)
  {
    var more := records + [r];
    assert more[..|records|] == records;
    MapSnoc(ModelOf, records, r);
    MapSnoc(MetaStampOf, records, r);
    MapSnoc(StampOf, records, r);
    LastTextConcat(Map(ModelOf, records), [r.model]);
    FirstTimeConcat(Map(MetaStampOf, records), [MetaStampOf(r)]);
    var times := Map(StampOf, records);
    assert (times + [r.timestamp])[..|times|] == times;
  }

  method ReadCodexLine(before: UsageSource, rec: CodexRecord) returns (source: UsageSource)
    requires before.updatedAt >= 0
    ensures source == CodexLine(before, rec)
  {
    source := before;
    if rec.kind == "session_meta" {
      source := source.(sessionID := rec.id, cwd := rec.cwd);
      if source.startedAt == 0 { source := source.(startedAt := rec.timestamp); }
    }
    if rec.model != "" { source := source.(model := rec.model); }
    if rec.timestamp != 0 && rec.timestamp > source.updatedAt { source := source.(updatedAt := rec.timestamp); }
  }

  method ParseCodex(records: seq<CodexRecord>) returns (source: UsageSource)
    ensures source == CodexSource(records)
  {
    source := NO_SOURCE;
    var latest := NO_TOKENS;
    for i := 0 to |records|
      invariant latest == LatestTokens(records[..i])
      invariant source == CodexHeader(records[..i]) && source.updatedAt >= 0
    {
      var rec := records[i];
      assert records[..i + 1] == records[..i] + [rec];
      CodexSnoc(records[..i], rec);
      source := ReadCodexLine(source, rec);
      if rec.kind == "event_msg" && rec.payloadKind == "token_count" && rec.tokens.total > 0 {
        latest := rec.tokens;
      }
    }
    assert records[..|records|] == records;
    var uncached := latest.input;
    if latest.cached <= uncached { uncached := uncached - latest.cached; }
    source := source.(
      usage := TokenUsage(uncached, latest.cached, 0, latest.output, latest.reasoning, latest.total));
  }

  lemma {:induction false} LastRecordsConcat(a: seq<CodexRecord>, b: seq<CodexRecord>)
    ensures LastMeta(a + b) == if LastMeta(b).Some? then LastMeta(b) else LastMeta(a)
    ensures LastCount(a + b) == if LastCount(b).Some? then LastCount(b) else LastCount(a)
    decreases |b|
  {
    if b == [] {
      assert a + b == a;
    } else {
      LastRecordsConcat(a, b[..|b| - 1]);
      assert (a + b)[..|a + b| - 1] == a + b[..|b| - 1];
    }
  }

  /** The Codex counters are cumulative already, so the same holds for them. */
  lemma CodexRereadTail(a: seq<CodexRecord>, b: seq<CodexRecord>)
    ensures CodexSource(a + b + b) == CodexSource(a + b)
  {
    LastRecordsConcat(a, b);
    LastRecordsConcat(a + b, b);
    MapConcat(ModelOf, a, b);
    MapConcat(ModelOf, a + b, b);
    LastTextConcat(Map(ModelOf, a), Map(ModelOf, b));
    LastTextConcat(Map(ModelOf, a + b), Map(ModelOf, b));
    MapConcat(MetaStampOf, a, b);
    MapConcat(MetaStampOf, a + b, b);
    FirstTimeConcat(Map(MetaStampOf, a), Map(MetaStampOf, b));
    FirstTimeConcat(Map(MetaStampOf, a + b), Map(MetaStampOf, b));
    MapConcat(StampOf, a, b);
    MapConcat(StampOf, a + b, b);
    LatestTimeConcat(Map(StampOf, a), Map(StampOf, b));
    LatestTimeConcat(Map(StampOf, a + b), Map(StampOf, b));
  }

  // ------------------------------------------------------ in plain terms ------

  /** What a Claude transcript comes to: its last session and directory, its first and latest time, no model. */
  lemma ClaudeHeaderReads(records: seq<ClaudeRecord>)
    ensures var s := ClaudeSource(records);
            && IsLastSet(Map(SessionOf, records), "", s.sessionID) && IsLastSet(Map(CwdOf, records), "", s.cwd)
            && IsFirstTime(Map(TimeOf, records), s.startedAt) && IsLatest(Map(TimeOf, records), s.updatedAt)
            && s.model == ""
  {
    LastTextIs(Map(SessionOf, records));
    LastTextIs(Map(CwdOf, records));
    FirstTimeIs(Map(TimeOf, records));
  }

  /** One counter of the assistant messages at ids added up. */
  ghost function MessageSum(m: map<string, ClaudeUsage>, counter: ClaudeUsage -> nat, ids: set<string>): nat
    requires ids <= m.Keys
  {
    if ids == {} then 0 else var k := AnyOf(ids); MessageSum(m, counter, ids - {k}) + counter(m[k])
  }

  function ReadTokens(u: ClaudeUsage): nat { u.cacheRead }
  function CreateTokens(u: ClaudeUsage): nat { u.cacheCreate }
  function InputTokens(u: ClaudeUsage): nat { u.input }
  function OutputTokens(u: ClaudeUsage): nat { u.output }

  lemma {:induction false} MessageSums(m: map<string, ClaudeUsage>, ids: set<string>)
    requires ids <= m.Keys
    ensures SumAt(m, AsUsage, InputOf, ids) == MessageSum(m, InputTokens, ids)
    ensures SumAt(m, AsUsage, CachedInputOf, ids) == MessageSum(m, ReadTokens, ids)
    ensures SumAt(m, AsUsage, CacheWriteOf, ids) == MessageSum(m, CreateTokens, ids)
    ensures SumAt(m, AsUsage, OutputOf, ids) == MessageSum(m, OutputTokens, ids)
    ensures SumAt(m, AsUsage, ReasoningOf, ids) == 0
    decreases ids
  {
    if ids != {} { MessageSums(m, ids - {AnyOf(ids)}); }
  }

  lemma WrapFour(a: nat, b: nat, c: nat, d: nat)
    ensures Add64(Add64(Add64(Wrap(a), Wrap(b)), Wrap(c)), Wrap(d)) == Wrap(a + b + c + d)
  {
    WrapTwo(a, b);
    WrapTwo(a + b, c);
    WrapTwo(a + b + c, d);
  }

  lemma WrapTwo(a: nat, b: nat)
    ensures Add64(Wrap(a), Wrap(b)) == Wrap(a + b)
  {
    var q := b / U64_MODULUS;
    WrapAdd(a, Wrap(b));
    assert a + b == a + Wrap(b) + q * U64_MODULUS;
    WrapMore(a + Wrap(b), q);
  }

  lemma {:induction false} WrapMore(n: nat, q: nat)
    ensures Wrap(n + q * U64_MODULUS) == Wrap(n)
    decreases q
  {
    if q > 0 { WrapMore(n, q - 1); }
  }

  /** Each counter of u is that of the assistant messages added up, and the total all four, modulo 2^64. */
  ghost predicate CountsMessages(u: TokenUsage, m: map<string, ClaudeUsage>) {
    var a, b := MessageSum(m, InputTokens, m.Keys), MessageSum(m, ReadTokens, m.Keys);
    var c, d := MessageSum(m, CreateTokens, m.Keys), MessageSum(m, OutputTokens, m.Keys);
    && u.input == Wrap(a) && u.cachedInput == Wrap(b) && u.cacheWrite == Wrap(c) && u.output == Wrap(d)
    && u.reasoning == 0 && u.total == Wrap(a + b + c + d)
  }

  ghost predicate CountsFour(u: TokenUsage, m: map<string, ClaudeUsage>) {
    && u.input == Wrap(MessageSum(m, InputTokens, m.Keys)) && u.cachedInput == Wrap(MessageSum(m, ReadTokens, m.Keys))
    && u.cacheWrite == Wrap(MessageSum(m, CreateTokens, m.Keys))
    && u.output == Wrap(MessageSum(m, OutputTokens, m.Keys)) && u.reasoning == 0
  }

  lemma MessageCounters(m: map<string, ClaudeUsage>)
    ensures CountsFour(SumKeys(m, AsUsage, m.Keys), m)
  {
    SumKeysIsSum(m, AsUsage, m.Keys);
    MessageSums(m, m.Keys);
  }

  lemma WithTotal(u: TokenUsage, m: map<string, ClaudeUsage>)
    requires CountsFour(u, m)
    ensures CountsMessages(u.(total := Add64(Add64(Add64(u.input, u.cachedInput), u.cacheWrite), u.output)), m)
  {
    WrapFour(MessageSum(m, InputTokens, m.Keys), MessageSum(m, ReadTokens, m.Keys),
             MessageSum(m, CreateTokens, m.Keys), MessageSum(m, OutputTokens, m.Keys));
  }

  /** The usage of a Claude transcript. */
  lemma ClaudeUsageReads(records: seq<ClaudeRecord>)
    ensures CountsMessages(ClaudeSource(records).usage, Messages(records))
  {
    MessageCounters(Messages(records));
    WithTotal(SumKeys(Messages(records), AsUsage, Messages(records).Keys), Messages(records));
  }

  /** i is the last of the records that pass. */
  ghost predicate IsLastRecord(records: seq<CodexRecord>, passes: CodexRecord -> bool, i: nat) {
    i < |records| && passes(records[i]) && forall j :: i < j < |records| ==> !passes(records[j])
  }

  lemma {:induction false} LastMetaIs(records: seq<CodexRecord>)
    ensures LastMeta(records).None? ==> forall r :: r in records ==> !IsMeta(r)
    ensures LastMeta(records).Some? ==>
              exists i: nat :: IsLastRecord(records, IsMeta, i) && records[i] == LastMeta(records).value
    decreases |records|
  {
    if records != [] {
      var n := |records| - 1;
      var init := records[..n];
      assert records == init + [records[n]];
      LastMetaIs(init);
      if IsMeta(records[n]) {
        assert IsLastRecord(records, IsMeta, n);
      } else if LastMeta(records).Some? {
        var i: nat :| IsLastRecord(init, IsMeta, i) && init[i] == LastMeta(records).value;
        assert IsLastRecord(records, IsMeta, i) && records[i] == init[i];
      }
    }
  }

  lemma {:induction false} LastCountIs(records: seq<CodexRecord>)
    ensures LastCount(records).None? ==> forall r :: r in records ==> !IsCount(r)
    ensures LastCount(records).Some? ==>
              exists i: nat :: IsLastRecord(records, IsCount, i) && records[i] == LastCount(records).value
    decreases |records|
  {
    if records != [] {
      var n := |records| - 1;
      var init := records[..n];
      assert records == init + [records[n]];
      LastCountIs(init);
      if IsCount(records[n]) {
        assert IsLastRecord(records, IsCount, n);
      } else if LastCount(records).Some? {
        var i: nat :| IsLastRecord(init, IsCount, i) && init[i] == LastCount(records).value;
        assert IsLastRecord(records, IsCount, i) && records[i] == init[i];
      }
    }
  }

  /** Session and directory of a Codex transcript come from its last metadata record. */
  lemma CodexMetaReads(records: seq<CodexRecord>)
    ensures var s := CodexSource(records);
            if forall r :: r in records ==> r.kind != "session_meta" then s.sessionID == "" && s.cwd == ""
            else exists i :: 0 <= i < |records| && records[i].kind == "session_meta"
                             && s.sessionID == records[i].id && s.cwd == records[i].cwd
                             && forall j :: i < j < |records| ==> records[j].kind != "session_meta"
  {
    LastMetaIs(records);
    if LastMeta(records).Some? {
      var i: nat :| IsLastRecord(records, IsMeta, i) && records[i] == LastMeta(records).value;
      assert records[i] in records && forall j :: i < j < |records| ==> !IsMeta(records[j]);
    } else if r :| r in records && r.kind == "session_meta" {
      assert IsMeta(r);
    }
  }

  /** Its usage comes from the last token count above 0, with the cached input taken out of the input it is part of. */
  lemma CodexUsageReads(records: seq<CodexRecord>)
    ensures var u := CodexSource(records).usage;
            if forall r :: r in records ==> !CountsTokens(r) then u == TokenUsage(0, 0, 0, 0, 0, 0)
            else exists i :: 0 <= i < |records| && CountsTokens(records[i]) && SplitsTokens(u, records[i].tokens)
                             && forall j :: i < j < |records| ==> !CountsTokens(records[j])
  {
    LastCountIs(records);
    assert forall r: CodexRecord :: CountsTokens(r) <==> IsCount(r);
    if LastCount(records).Some? {
      var i: nat :| IsLastRecord(records, IsCount, i) && records[i] == LastCount(records).value;
      assert records[i] in records && CountsTokens(records[i]);
      assert forall j :: i < j < |records| ==> !IsCount(records[j]);
    }
  }

  /** A count that tells, as the log writes it. */
  predicate CountsTokens(r: CodexRecord) {
    r.kind == "event_msg" && r.payloadKind == "token_count" && r.tokens.total > 0
  }

  /** Cached input is counted apart, unless there is more of it than input. */
  predicate SplitsTokens(u: TokenUsage, t: CodexTokens) {
    && (t.cached <= t.input ==> u.input + u.cachedInput == t.input) && (t.cached > t.input ==> u.input == t.input)
    && u.cachedInput == t.cached && u.cacheWrite == 0
    && u.output == t.output && u.reasoning == t.reasoning && u.total == t.total
  }

  /** Its model is the last given, its start the first metadata time, its update the latest time. */
  lemma CodexHeaderReads(records: seq<CodexRecord>)
    ensures var s := CodexSource(records);
            && IsLastSet(Map(ModelOf, records), "", s.model) && IsLatest(Map(StampOf, records), s.updatedAt)
            && IsFirstTime(Map(MetaStampOf, records), s.startedAt)
    ensures forall i :: 0 <= i < |records| ==>
              Map(MetaStampOf, records)[i] == if records[i].kind == "session_meta" then records[i].timestamp else 0
  {
    LastTextIs(Map(ModelOf, records));
    FirstTimeIs(Map(MetaStampOf, records));
  }
}
