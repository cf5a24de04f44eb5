// Adding Biewer's hooks to Claude Code's settings tree and taking them out again
// (internal/cli/hooks_cmd.go). The tree is arbitrary user data.
module HookSettings {
  import opened Base
  import opened Text

  datatype Json =
    | JNull
    | JBool(b: bool)
    | JNumber(n: real)
    | JString(s: string)
    | JArray(items: seq<Json>)
    | JObject(fields: map<string, Json>)

  const SESSION_START_CMD := "biewer hook claude session_start $PPID"
  const USER_PROMPT_CMD := "biewer hook claude user_prompt_submit"
  const PRE_TOOL_CMD := "biewer hook claude pre_tool_use"
  const SESSION_END_CMD := "biewer hook claude session_end"
  const HOOK_CMD_PREFIX := "biewer hook claude"

  const HOOK_EVENTS: map<string, string> := map[
    "SessionStart" := SESSION_START_CMD,
    "UserPromptSubmit" := USER_PROMPT_CMD,
    "PreToolUse" := PRE_TOOL_CMD,
    "SessionEnd" := SESSION_END_CMD
  ]

  // A failed type assertion in the program yields the zero value: a missing key or
  // a value of another type reads as no list, no object, or the empty string.

  function Lookup(fields: map<string, Json>, key: string): Json {
    if key in fields then fields[key] else JNull
  }

  function ListOf(v: Json): seq<Json> { if v.JArray? then v.items else [] }

  function CommandOf(hook: map<string, Json>): string {
    var c := Lookup(hook, "command");
    if c.JString? then c.s else ""
  }

  // ----------------------------------------------------------- add a hook ---

  predicate HasCommand(group: Json, command: string) {
    group.JObject? &&
    exists h :: h in ListOf(Lookup(group.fields, "hooks")) && h.JObject? && CommandOf(h.fields) == command
  }

  function NewGroup(command: string): Json {
    JObject(map["hooks" := JArray([JObject(map["type" := JString("command"), "command" := JString(command)])])])
  }

  predicate Installed(list: seq<Json>, command: string) {
    exists g :: g in list && HasCommand(g, command)
  }

  function AddCommandHook(existing: Json, command: string): seq<Json> {
    var list := ListOf(existing);
    if Installed(list, command) then list else list + [NewGroup(command)]
  }

  // ------------------------------------------------------- remove our hooks ---

  predicate IsOurs(h: Json, prefix: string) {
    h.JObject? && HasPrefix(CommandOf(h.fields), prefix)
  }

  function KeptHooks(inner: seq<Json>, prefix: string): seq<Json> {
    if inner == [] then []
    else KeptHooks(inner[..|inner| - 1], prefix) +
         if IsOurs(inner[|inner| - 1], prefix) then [] else [inner[|inner| - 1]]
  }

  /** What is left of one matcher-group: nothing, or one group. */
  function KeptGroup(group: Json, prefix: string): seq<Json> {
    if !group.JObject? then [group]
    else
      var keep := KeptHooks(ListOf(Lookup(group.fields, "hooks")), prefix);
      if keep == [] then [] else [JObject(group.fields["hooks" := JArray(keep)])]
  }

  function KeptGroups(list: seq<Json>, prefix: string): seq<Json> {
    if list == [] then []
    else KeptGroups(list[..|list| - 1], prefix) + KeptGroup(list[|list| - 1], prefix)
  }

  method RemoveCommandHook(existing: Json, prefix: string) returns (out: seq<Json>)
    ensures out == KeptGroups(ListOf(existing), prefix)
  {
    var list := ListOf(existing);
    out := [];
    for i := 0 to |list|
      invariant out == KeptGroups(list[..i], prefix)
    {
      var group := list[i];
      assert list[..i + 1][..i] == list[..i];
      if !group.JObject? {
        out := out + [group];
        continue;
      }
      var inner := ListOf(Lookup(group.fields, "hooks"));
      var keep: seq<Json> := [];
      for j := 0 to |inner|
        invariant keep == KeptHooks(inner[..j], prefix)
      {
        assert inner[..j + 1][..j] == inner[..j];
        if inner[j].JObject? && HasPrefix(CommandOf(inner[j].fields), prefix) { continue; }
        keep := keep + [inner[j]];
      }
      assert inner[..|inner|] == inner;
      if keep == [] { continue; }
      out := out + [JObject(group.fields["hooks" := JArray(keep)])];
    }
    assert list[..|list|] == list;
  }

  // ------------------------------------------------------- the whole tree ---

  function HooksOf(root: map<string, Json>): map<string, Json> {
    var h := Lookup(root, "hooks");
    if h.JObject? then h.fields else map[]
  }

  /** Biewer's command added under every event of done. */
  function WithEvents(hooks: map<string, Json>, events: map<string, string>, done: set<string>): map<string, Json>
    requires done <= events.Keys
  {
    hooks + map e | e in done :: JArray(AddCommandHook(Lookup(hooks, e), events[e]))
  }

  lemma WithOneMore(hooks: map<string, Json>, events: map<string, string>, done: set<string>, e: string)
    requires done <= events.Keys && e in events && e !in done
    ensures var w := WithEvents(hooks, events, done);
            w[e := JArray(AddCommandHook(Lookup(w, e), events[e]))] == WithEvents(hooks, events, done + {e})
  {
  }

  function WithoutOurs(v: Json): seq<Json> { KeptGroups(ListOf(v), HOOK_CMD_PREFIX) }

  /** Biewer's commands dropped under every event of done; an event left empty goes too. */
  function CleanEvents(hooks: map<string, Json>, done: set<string>): map<string, Json> {
    map e | e in hooks && (e in done ==> WithoutOurs(hooks[e]) != []) ::
      if e in done then JArray(WithoutOurs(hooks[e])) else hooks[e]
  }

  function InstalledTree(root: map<string, Json>, events: map<string, string>): map<string, Json> {
    root["hooks" := JObject(WithEvents(HooksOf(root), events, events.Keys))]
  }

  function UninstalledTree(root: map<string, Json>, events: map<string, string>): map<string, Json> {
    if !Lookup(root, "hooks").JObject? then root
    else
      SetHooks(root, CleanEvents(HooksOf(root), events.Keys))
  }

  /** An empty hooks object is not written back. */
  function SetHooks(root: map<string, Json>, hooks: map<string, Json>): map<string, Json> {
    if hooks == map[] then root - {"hooks"} else root["hooks" := JObject(hooks)]
  }

  method InstallEvents(root: map<string, Json>, events: map<string, string>) returns (root': map<string, Json>)
    ensures root' == InstalledTree(root, events)
  {
    var hooks := HooksOf(root);
    var rest := events.Keys;
    ghost var done := {};
    while rest != {}
      invariant done + rest == events.Keys && done !! rest
      invariant hooks == WithEvents(HooksOf(root), events, done)
      decreases rest
    {
      var event := NextKey(rest);
      WithOneMore(HooksOf(root), events, done, event);
      hooks := hooks[event := JArray(AddCommandHook(Lookup(hooks, event), events[event]))];
      rest, done := rest - {event}, done + {event};
    }
    assert done == events.Keys;
    root' := root["hooks" := JObject(hooks)];
  }

  method UninstallEvents(root: map<string, Json>, events: map<string, string>) returns (root': map<string, Json>)
    ensures root' == UninstalledTree(root, events)
  {
    if !Lookup(root, "hooks").JObject? { return root; }
    var hooks := HooksOf(root);
    var rest := events.Keys;
    ghost var done := {};
    assert hooks == CleanEvents(HooksOf(root), done);
    while rest != {}
      invariant done + rest == events.Keys && done !! rest
      invariant hooks == CleanEvents(HooksOf(root), done)
      decreases rest
    {
      var event := NextKey(rest);
      rest, done := rest - {event}, done + {event};
      if event in hooks {
        var cleaned := RemoveCommandHook(hooks[event], HOOK_CMD_PREFIX);
        if cleaned == [] {
          hooks := hooks - {event};
        } else {
          hooks := hooks[event := JArray(cleaned)];
        }
      }
      assert hooks == CleanEvents(HooksOf(root), done);
    }
    assert done == events.Keys;
    root' := if hooks == map[] then root - {"hooks"} else root["hooks" := JObject(hooks)];
  }

  /** The settings file: each command loads the tree, edits its maps and saves it back. */
  class SettingsFile {
    var root: map<string, Json>

    constructor (loaded: map<string, Json>)
      ensures root == loaded
    {
      root := loaded;
    }

    method Install()
      modifies this
      ensures root == InstalledTree(old(root), HOOK_EVENTS)
    {
      root := InstallEvents(root, HOOK_EVENTS);
    }

    method Uninstall()
      modifies this
      ensures root == UninstalledTree(old(root), HOOK_EVENTS)
    {
      root := UninstallEvents(root, HOOK_EVENTS);
    }
  }

  // ------------------------------------------- what removal leaves unchanged --

  /** A group that removal passes through: not a matcher-group, or a non-empty list of hooks none of which is ours. */
  ghost predicate Untouched(group: Json) {
    group.JObject? ==>
      && Lookup(group.fields, "hooks").JArray?
      && ListOf(group.fields["hooks"]) != []
      && forall h :: h in ListOf(group.fields["hooks"]) ==> !IsOurs(h, HOOK_CMD_PREFIX)
  }

  lemma {:induction false} KeptHooksShort(inner: seq<Json>, prefix: string)
    ensures |KeptHooks(inner, prefix)| <= |inner|
    ensures KeptHooks(inner, prefix) == inner <==> forall h :: h in inner ==> !IsOurs(h, prefix)
    ensures forall h :: h in KeptHooks(inner, prefix) ==> !IsOurs(h, prefix)
    decreases |inner|
  {
    if inner != [] {
      var init, last := inner[..|inner| - 1], inner[|inner| - 1];
      assert inner == init + [last];
      KeptHooksShort(init, prefix);
      if KeptHooks(inner, prefix) == inner {
        assert |KeptHooks(init, prefix)| == |init|;
        assert KeptHooks(inner, prefix)[..|init|] == KeptHooks(init, prefix);
      }
    }
  }

  lemma KeptGroupUntouched(group: Json)
    ensures KeptGroup(group, HOOK_CMD_PREFIX) == [group] <==> Untouched(group)
    ensures |KeptGroup(group, HOOK_CMD_PREFIX)| <= 1
    ensures forall g :: g in KeptGroup(group, HOOK_CMD_PREFIX) ==> Untouched(g)
  {
    if group.JObject? {
      var fields := group.fields;
      var inner := ListOf(Lookup(fields, "hooks"));
      KeptHooksShort(inner, HOOK_CMD_PREFIX);
      var keep := KeptHooks(inner, HOOK_CMD_PREFIX);
      if keep != [] {
        SameField(fields, keep);
        KeptIsUntouched(fields, keep);
      }
    }
  }

  lemma SameField(fields: map<string, Json>, keep: seq<Json>)
    ensures fields["hooks" := JArray(keep)] == fields <==> Lookup(fields, "hooks") == JArray(keep)
  {
  }

  lemma KeptIsUntouched(fields: map<string, Json>, keep: seq<Json>)
    requires keep != [] && forall h :: h in keep ==> !IsOurs(h, HOOK_CMD_PREFIX)
    ensures Untouched(JObject(fields["hooks" := JArray(keep)]))
  {
  }

  lemma {:induction false} KeptGroupsUntouched(list: seq<Json>)
    ensures |WithoutOurs(JArray(list))| <= |list|
    ensures WithoutOurs(JArray(list)) == list <==> forall g :: g in list ==> Untouched(g)
    ensures forall g :: g in WithoutOurs(JArray(list)) ==> Untouched(g)
    decreases |list|
  {
    if list != [] {
      var init, last := list[..|list| - 1], list[|list| - 1];
      assert list == init + [last];
      KeptGroupsUntouched(init);
      KeptGroupUntouched(last);
      var out := WithoutOurs(JArray(list));
      if out == list {
        assert |KeptGroup(last, HOOK_CMD_PREFIX)| == 1 && |WithoutOurs(JArray(init))| == |init|;
        assert out[..|init|] == WithoutOurs(JArray(init));
      }
    }
  }

  /** Nothing that install adds survives removal. */
  lemma RemoveUndoesAdd(existing: Json, command: string)
    requires HasPrefix(command, HOOK_CMD_PREFIX)
    ensures KeptGroups(AddCommandHook(existing, command), HOOK_CMD_PREFIX) == WithoutOurs(existing)
  {
    var list := ListOf(existing);
    if !Installed(list, command) {
      var group := NewGroup(command);
      var hook := JObject(map["type" := JString("command"), "command" := JString(command)]);
      assert (list + [group])[..|list|] == list;
      assert ListOf(Lookup(group.fields, "hooks")) == [hook];
      assert IsOurs(hook, HOOK_CMD_PREFIX);
      assert KeptHooks([hook], HOOK_CMD_PREFIX) == KeptHooks([hook][..0], HOOK_CMD_PREFIX) + [];
    }
  }

  lemma AddedIsInstalled(existing: Json, command: string)
    ensures Installed(AddCommandHook(existing, command), command)
    ensures ListOf(existing) <= AddCommandHook(existing, command)
    ensures AddCommandHook(JArray(AddCommandHook(existing, command)), command) == AddCommandHook(existing, command)
  {
    var list := ListOf(existing);
    if !Installed(list, command) {
      var group := NewGroup(command);
      var hook := JObject(map["type" := JString("command"), "command" := JString(command)]);
      assert hook in ListOf(Lookup(group.fields, "hooks"));
      assert HasCommand(group, command);
      assert group in list + [group];
    }
  }

  // ------------------------------------------------------------- theorems ---

  /** Every command to install is one that removal recognises. */
  ghost predicate AllOurs(events: map<string, string>) {
    forall e :: e in events ==> HasPrefix(events[e], HOOK_CMD_PREFIX)
  }

  /** Cleaning forgets whether the events were installed first. */
  lemma CleanAfterInstall(hooks: map<string, Json>, events: map<string, string>)
    requires AllOurs(events)
    ensures CleanEvents(WithEvents(hooks, events, events.Keys), events.Keys) == CleanEvents(hooks, events.Keys)
  {
    var w := WithEvents(hooks, events, events.Keys);
    var c, d := CleanEvents(w, events.Keys), CleanEvents(hooks, events.Keys);
    forall e ensures e in c <==> e in d
      ensures e in c ==> c[e] == d[e]
    {
      if e in events {
        RemoveUndoesAdd(Lookup(hooks, e), events[e]);
        assert WithoutOurs(w[e]) == WithoutOurs(Lookup(hooks, e));
      } else {
        assert e in w <==> e in hooks;
      }
    }
  }

  /** The hook maps on which cleaning changes nothing. */
  ghost predicate CleanHooks(hooks: map<string, Json>, events: set<string>) {
    forall e :: e in events && e in hooks ==>
      hooks[e].JArray? && hooks[e].items != [] && forall g :: g in hooks[e].items ==> Untouched(g)
  }

  lemma CleanChangesNothing(hooks: map<string, Json>, events: set<string>)
    ensures CleanEvents(hooks, events) == hooks <==> CleanHooks(hooks, events)
  {
    var c := CleanEvents(hooks, events);
    if CleanHooks(hooks, events) {
      forall e | e in events && e in hooks ensures WithoutOurs(hooks[e]) == hooks[e].items {
        KeptGroupsUntouched(hooks[e].items);
      }
      assert c.Keys == hooks.Keys;
    }
    if c == hooks {
      forall e | e in events && e in hooks
        ensures hooks[e].JArray? && hooks[e].items != [] && forall g :: g in hooks[e].items ==> Untouched(g)
      {
        assert e in c;
        assert hooks[e] == JArray(WithoutOurs(hooks[e]));
        KeptGroupsUntouched(hooks[e].items);
      }
    }
  }

  /** The settings that install followed by uninstall leaves as they were. */
  ghost predicate Restorable(root: map<string, Json>, events: set<string>) {
    "hooks" in root ==>
      && root["hooks"].JObject? && root["hooks"].fields != map[]
      && CleanHooks(root["hooks"].fields, events)
  }

  /** Uninstall undoes install on exactly the restorable trees. */
  lemma UninstallUndoesInstall(root: map<string, Json>, events: map<string, string>)
    requires AllOurs(events)
    ensures UninstalledTree(InstalledTree(root, events), events) == root <==> Restorable(root, events.Keys)
  {
    var hooks := HooksOf(root);
    CleanAfterInstall(hooks, events);
    CleanChangesNothing(hooks, events.Keys);
    UninstallSetsHooks(root, events);
    SetHooksSame(root, CleanEvents(hooks, events.Keys));
  }

  lemma UninstallSetsHooks(root: map<string, Json>, events: map<string, string>)
    requires AllOurs(events)
    ensures UninstalledTree(InstalledTree(root, events), events) ==
            SetHooks(root, CleanEvents(HooksOf(root), events.Keys))
  {
    var w := WithEvents(HooksOf(root), events, events.Keys);
    CleanAfterInstall(HooksOf(root), events);
    var t := InstalledTree(root, events);
    assert Lookup(t, "hooks") == JObject(w);
    assert t - {"hooks"} == root - {"hooks"};
    var c := JObject(CleanEvents(HooksOf(root), events.Keys));
    assert t["hooks" := c] == root["hooks" := c];
  }

  lemma SetHooksSame(root: map<string, Json>, c: map<string, Json>)
    ensures SetHooks(root, c) == root <==>
            if "hooks" in root then c != map[] && root["hooks"] == JObject(c) else c == map[]
  {
  }

  /** Uninstall cannot tell whether install ran, exactly when install had no non-object to replace. */
  lemma UninstallIgnoresInstall(root: map<string, Json>, events: map<string, string>)
    requires AllOurs(events)
    ensures UninstalledTree(InstalledTree(root, events), events) == UninstalledTree(root, events) <==>
            ("hooks" in root ==> root["hooks"].JObject?)
  {
    UninstallSetsHooks(root, events);
    SetHooksSame(root, CleanEvents(HooksOf(root), events.Keys));
    if "hooks" !in root {
      assert CleanEvents(map[], events.Keys) == map[];
      assert root - {"hooks"} == root;
    }
  }

  /** Every managed event ends up with the command, behind the groups it already had; nothing else moves. */
  lemma InstallKeepsUserHooks(root: map<string, Json>, events: map<string, string>)
    ensures var hooks' := HooksOf(InstalledTree(root, events));
            && (forall e :: e in events ==>
                  && e in hooks' && hooks'[e].JArray? && Installed(hooks'[e].items, events[e])
                  && ListOf(Lookup(HooksOf(root), e)) <= hooks'[e].items)
            && (forall e :: e !in events ==> Lookup(hooks', e) == Lookup(HooksOf(root), e))
    ensures InstalledTree(root, events) - {"hooks"} == root - {"hooks"}
  {
    var hooks := HooksOf(root);
    var w := WithEvents(hooks, events, events.Keys);
    assert HooksOf(InstalledTree(root, events)) == w;
    forall e | e in events
      ensures Installed(ListOf(w[e]), events[e]) && ListOf(Lookup(hooks, e)) <= ListOf(w[e])
    {
      AddedIsInstalled(Lookup(hooks, e), events[e]);
    }
  }

  lemma WithEventsTwice(hooks: map<string, Json>, events: map<string, string>)
    ensures var w := WithEvents(hooks, events, events.Keys); WithEvents(w, events, events.Keys) == w
  {
    var w := WithEvents(hooks, events, events.Keys);
    var w' := WithEvents(w, events, events.Keys);
    forall k | k in w ensures w'[k] == w[k] {
      if k in events {
        AddedIsInstalled(Lookup(hooks, k), events[k]);
      }
    }
    assert w'.Keys == w.Keys;
  }

  /** A second install changes nothing, whatever the tree. */
  lemma InstallTwice(root: map<string, Json>, events: map<string, string>)
    ensures InstalledTree(InstalledTree(root, events), events) == InstalledTree(root, events)
  {
    WithEventsTwice(HooksOf(root), events);
  }

  /** After an uninstall only user hooks remain under the managed events, so a second one changes nothing. */
  lemma UninstallTwice(root: map<string, Json>, events: map<string, string>)
    ensures CleanHooks(HooksOf(UninstalledTree(root, events)), events.Keys)
    ensures UninstalledTree(UninstalledTree(root, events), events) == UninstalledTree(root, events)
  {
    var hooks := HooksOf(root);
    var c := CleanEvents(hooks, events.Keys);
    forall e | e in events && e in c
      ensures c[e].JArray? && c[e].items != [] && forall g :: g in c[e].items ==> Untouched(g)
    {
      KeptGroupsUntouched(ListOf(hooks[e]));
    }
    CleanChangesNothing(c, events.Keys);
  }

  lemma OurCommands()
    ensures AllOurs(HOOK_EVENTS)
  {
    assert HasPrefix(SESSION_START_CMD, HOOK_CMD_PREFIX);
    assert HasPrefix(USER_PROMPT_CMD, HOOK_CMD_PREFIX);
    assert HasPrefix(PRE_TOOL_CMD, HOOK_CMD_PREFIX);
    assert HasPrefix(SESSION_END_CMD, HOOK_CMD_PREFIX);
  }

  // -------------------------------------------------------- in plain terms ---

  /** The command that the settings run under each managed event. */
  predicate Runs(group: Json, command: string) {
    && group.JObject? && "hooks" in group.fields && group.fields["hooks"].JArray?
    && exists h :: h in group.fields["hooks"].items && h.JObject? && "command" in h.fields &&
                   h.fields["command"] == JString(command)
  }

  /** What install appends to an event that does not run the command yet. */
  lemma AddedGroup(existing: Json, command: string)
    requires command != ""
    ensures var list := if existing.JArray? then existing.items else [];
            AddCommandHook(existing, command) ==
            if exists g :: g in list && Runs(g, command) then list
            else list + [JObject(map["hooks" := JArray(
                   [JObject(map["type" := JString("command"), "command" := JString(command)])])])]
  {
    forall g ensures HasCommand(g, command) <==> Runs(g, command) {}
  }

  /** After an install the four events run Biewer's commands, and no other event has changed. */
  lemma InstallsCommands(root: map<string, Json>)
    ensures var hooks := HooksOf(InstalledTree(root, HOOK_EVENTS));
            && InstallRuns(hooks, "SessionStart", "biewer hook claude session_start $PPID")
            && InstallRuns(hooks, "UserPromptSubmit", "biewer hook claude user_prompt_submit")
            && InstallRuns(hooks, "PreToolUse", "biewer hook claude pre_tool_use")
            && InstallRuns(hooks, "SessionEnd", "biewer hook claude session_end")
            && InstallLeaves(hooks, HooksOf(root), {"SessionStart", "UserPromptSubmit", "PreToolUse", "SessionEnd"})
  {
    EventsAre();
    InstallRunsAll(root, HOOK_EVENTS);
    assert InstallLeaves(HooksOf(InstalledTree(root, HOOK_EVENTS)), HooksOf(root), HOOK_EVENTS.Keys);
  }

  /** Only these events have changed. */
  ghost predicate InstallLeaves(hooks: map<string, Json>, was: map<string, Json>, events: set<string>) {
    forall e :: e !in events ==> Lookup(hooks, e) == Lookup(was, e)
  }

  lemma InstallRunsAll(root: map<string, Json>, events: map<string, string>)
    ensures var hooks := HooksOf(InstalledTree(root, events));
            && (forall e :: e in events && events[e] != "" ==> InstallRuns(hooks, e, events[e]))
            && forall e :: e !in events ==> Lookup(hooks, e) == Lookup(HooksOf(root), e)
  {
    InstallKeepsUserHooks(root, events);
    var hooks := HooksOf(InstalledTree(root, events));
    forall e | e in events && events[e] != "" ensures InstallRuns(hooks, e, events[e]) {
      var g :| g in hooks[e].items && HasCommand(g, events[e]);
      assert Runs(g, events[e]);
    }
  }

  ghost predicate InstallRuns(hooks: map<string, Json>, event: string, command: string) {
    event in hooks && hooks[event].JArray? && exists g :: g in hooks[event].items && Runs(g, command)
  }

  lemma EventsAre()
    ensures HOOK_EVENTS.Keys == {"SessionStart", "UserPromptSubmit", "PreToolUse", "SessionEnd"}
    ensures HOOK_EVENTS["SessionStart"] == "biewer hook claude session_start $PPID"
    ensures HOOK_EVENTS["UserPromptSubmit"] == "biewer hook claude user_prompt_submit"
    ensures HOOK_EVENTS["PreToolUse"] == "biewer hook claude pre_tool_use"
    ensures HOOK_EVENTS["SessionEnd"] == "biewer hook claude session_end"
  {
  }

  /** A hook that starts with Biewer's command, whatever comes after it. */
  predicate BiewerHook(h: Json) {
    && h.JObject? && "command" in h.fields && h.fields["command"].JString?
    && var c := h.fields["command"].s; |c| >= 18 && c[..18] == "biewer hook claude"
  }

  lemma KeptOne(h: Json)
    ensures KeptHooks([h], HOOK_CMD_PREFIX) == if BiewerHook(h) then [] else [h]
  {
    assert |HOOK_CMD_PREFIX| == 18;
    assert [h][..0] == [];
    assert IsOurs(h, HOOK_CMD_PREFIX) <==> BiewerHook(h);
  }

  lemma {:induction false} KeptConcat(a: seq<Json>, b: seq<Json>, prefix: string)
    ensures KeptHooks(a + b, prefix) == KeptHooks(a, prefix) + KeptHooks(b, prefix)
    decreases |b|
  {
    if b == [] {
      assert a + b == a;
    } else {
      KeptConcat(a, b[..|b| - 1], prefix);
      assert (a + b)[..|a + b| - 1] == a + b[..|b| - 1];
    }
  }

  /** Removal drops exactly Biewer's hooks and keeps the others in order. */
  lemma KeptInOrder(a: seq<Json>, h: Json)
    ensures KeptHooks(a + [h], HOOK_CMD_PREFIX) == KeptHooks(a, HOOK_CMD_PREFIX) + if BiewerHook(h) then [] else [h]
    ensures KeptHooks([], HOOK_CMD_PREFIX) == []
  {
    KeptConcat(a, [h], HOOK_CMD_PREFIX);
    KeptOne(h);
  }

  /** Of each group what is left of its hooks is left, with its other fields; a group left without hooks goes. */
  lemma GroupsInOrder(a: seq<Json>, g: Json)
    ensures KeptGroups(a + [g], HOOK_CMD_PREFIX) ==
            KeptGroups(a, HOOK_CMD_PREFIX) +
            if !g.JObject? then [g]
            else
              var hooks := Lookup(g.fields, "hooks");
              var left := KeptHooks(if hooks.JArray? then hooks.items else [], HOOK_CMD_PREFIX);
              if left == [] then [] else [JObject(g.fields["hooks" := JArray(left)])]
    ensures KeptGroups([], HOOK_CMD_PREFIX) == []
  {
    assert (a + [g])[..|a|] == a;
  }

  /**
   * Uninstall touches nothing but the managed events of a hooks object: those keep what removal
   * leaves of them, and go when that is nothing, as does a hooks object left empty.
   */
  lemma UninstallKeepsUserHooks(root: map<string, Json>)
    ensures UninstalledTree(root, HOOK_EVENTS) - {"hooks"} == root - {"hooks"}
    ensures "hooks" in root && !root["hooks"].JObject? ==> UninstalledTree(root, HOOK_EVENTS) == root
    ensures "hooks" in root && root["hooks"].JObject? ==>
              var was, after := root["hooks"].fields, HooksOf(UninstalledTree(root, HOOK_EVENTS));
              && (forall e :: e !in {"SessionStart", "UserPromptSubmit", "PreToolUse", "SessionEnd"} ==>
                    Lookup(after, e) == Lookup(was, e) && (e in after <==> e in was))
              && (forall e :: e in {"SessionStart", "UserPromptSubmit", "PreToolUse", "SessionEnd"} ==>
                    var left := KeptGroups(ListOf(Lookup(was, e)), HOOK_CMD_PREFIX);
                    if left == [] then e !in after else e in after && after[e] == JArray(left))
              && ("hooks" in UninstalledTree(root, HOOK_EVENTS) <==> after != map[])
  {
    EventsAre();
    if "hooks" in root && root["hooks"].JObject? {
      var c := CleanEvents(root["hooks"].fields, HOOK_EVENTS.Keys);
      assert HooksOf(UninstalledTree(root, HOOK_EVENTS)) == c;
    }
  }
}
