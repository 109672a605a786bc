/** What a transcript says about its tool results: how many were spilled and read back, how
    many truncated Bash commands were run again, and where the bytes came from. */
module Audits {
  import opened Results
  import opened Lines
  import opened Utf8

  /** What the auditor reads in a result: its text, the artifact it was spilled to, and
      whether it is a Bash envelope with an elided channel. */
  datatype Content = Content(text: string, artifact: Option<string>, truncated: bool)

  /** One record block, in document order; a field that is no string is absent. */
  datatype Block =
    | ToolUse(name: Option<string>, id: Option<string>, command: Option<string>, wanted: Option<string>)
    | ToolResult(content: Option<Content>, useId: Option<string>)
    | OtherBlock

  const BASH := "Bash"

  const RECOVERY_TOOLS := {"ReadArtifact", "Grep", "Read"}

  // ---------------------------------------------------------------- reruns

  /** `_is_rerun` */
  predicate IsRerun(previous: string, current: string) {
    |previous| >= 8 && |current| >= 8 && (Contains(current, previous) || Contains(previous, current))
  }

  /** The behaviour the rerun count is for: the command again, with a filter added or removed. */
  lemma FilteredRepeatIsARerun(before: string, command: string, after: string)
    requires |command| >= 8
    ensures IsRerun(command, before + command + after) && IsRerun(before + command + after, command)
  {
    var longer := before + command + after;
    assert command <= longer[|before|..];
  }

  // ---------------------------------------------------------------- what a transcript contains

  predicate HasCommand(b: Block) {
    b.ToolUse? && b.command.Some? && b.command.value != ""
  }

  function SizeIn(b: Block): seq<nat> {
    if b.ToolResult? && b.content.Some? then [Size(b.content.value.text)] else []
  }

  predicate IsSpill(b: Block, id: string) {
    b.ToolResult? && b.content.Some? && b.content.value.artifact == Some(id)
  }

  predicate IsAnySpill(b: Block) {
    b.ToolResult? && b.content.Some? && b.content.value.artifact.Some?
  }

  predicate IsRead(b: Block, id: string) {
    b.ToolUse? && b.name.Some? && b.name.value in RECOVERY_TOOLS && b.wanted == Some(id)
  }

  predicate IsBashUse(b: Block) {
    b.ToolUse? && b.name == Some(BASH)
  }

  predicate IsTruncation(b: Block) {
    b.ToolResult? && b.content.Some? && b.content.value.truncated
  }

  predicate ReadAfter(blocks: seq<Block>, i: nat, id: string) {
    exists j :: i < j < |blocks| && IsRead(blocks[j], id)
  }

  /** Block `i` is a spill that a later recovery tool call asks for by its id. */
  predicate IsRecovered(blocks: seq<Block>, i: nat)
    requires i < |blocks|
  {
    IsAnySpill(blocks[i]) && ReadAfter(blocks, i, blocks[i].content.value.artifact.value)
  }

  /** How many blocks from `i` on are recovered spills. */
  function Recovered(blocks: seq<Block>, i: nat): nat
    requires i <= |blocks|
    decreases |blocks| - i
  {
    if i == |blocks| then 0 else (if IsRecovered(blocks, i) then 1 else 0) + Recovered(blocks, i + 1)
  }

  /** How many blocks from `i` on are spills of `id` that nothing later asks for. */
  function Unread(blocks: seq<Block>, id: string, i: nat): nat
    requires i <= |blocks|
    decreases |blocks| - i
  {
    if i == |blocks| then 0
    else (if IsSpill(blocks[i], id) && !ReadAfter(blocks, i, id) then 1 else 0) + Unread(blocks, id, i + 1)
  }

  function Spills(blocks: seq<Block>): nat {
    if blocks == [] then 0 else Spills(blocks[..|blocks| - 1]) + if IsAnySpill(blocks[|blocks| - 1]) then 1 else 0
  }

  function Truncations(blocks: seq<Block>): nat {
    if blocks == [] then 0
    else Truncations(blocks[..|blocks| - 1]) + if IsTruncation(blocks[|blocks| - 1]) then 1 else 0
  }

  /** The tool that the last use of an id names. */
  function ToolOf(blocks: seq<Block>, id: Option<string>): Option<string> {
    if blocks == [] || id.None? then None
    else
      var last := blocks[|blocks| - 1];
      if last.ToolUse? && last.name.Some? && last.id == id then last.name else ToolOf(blocks[..|blocks| - 1], id)
  }

  /** The last command line that a use of an id carries. */
  function CommandOf(blocks: seq<Block>, id: Option<string>): Option<string> {
    if blocks == [] || id.None? then None
    else
      var last := blocks[|blocks| - 1];
      if last.ToolUse? && last.name.Some? && last.id == id && HasCommand(last)
      then last.command else CommandOf(blocks[..|blocks| - 1], id)
  }

  /** The command of the nearest truncated Bash result, if no Bash call came after it. */
  function Armed(blocks: seq<Block>): Option<string> {
    if blocks == [] then None
    else
      var before, last := blocks[..|blocks| - 1], blocks[|blocks| - 1];
      if IsBashUse(last) then None
      else if IsTruncation(last) then CommandOf(before, last.useId)
      else Armed(before)
  }

  predicate IsRerunBlock(before: seq<Block>, b: Block) {
    && IsBashUse(b) && HasCommand(b)
    && Armed(before).Some? && IsRerun(Armed(before).value, b.command.value)
  }

  function Reruns(blocks: seq<Block>): nat {
    if blocks == [] then 0
    else
      Reruns(blocks[..|blocks| - 1])
      + if IsRerunBlock(blocks[..|blocks| - 1], blocks[|blocks| - 1]) then 1 else 0
  }

  /** The sizes of the results that `p` selects by the tool they answer. */
  function Sizes(blocks: seq<Block>, p: Option<string> -> bool): seq<nat> {
    if blocks == [] then []
    else
      var before, last := blocks[..|blocks| - 1], blocks[|blocks| - 1];
      Sizes(before, p) + if last.ToolResult? && p(ToolOf(before, last.useId)) then SizeIn(last) else []
  }

  function AnyTool(): Option<string> -> bool {
    (tool: Option<string>) => true
  }

  function NoTool(): Option<string> -> bool {
    (tool: Option<string>) => tool.None?
  }

  function Tool(name: string): Option<string> -> bool {
    (tool: Option<string>) => tool == Some(name)
  }

  function Calls(blocks: seq<Block>, name: string): nat {
    if blocks == [] then 0
    else
      var last := blocks[|blocks| - 1];
      Calls(blocks[..|blocks| - 1], name) + if last.ToolUse? && last.name == Some(name) then 1 else 0
  }

  function Over(sizes: seq<nat>, budget: nat): nat {
    if sizes == [] then 0 else Over(sizes[..|sizes| - 1], budget) + if sizes[|sizes| - 1] > budget then 1 else 0
  }

  // ---------------------------------------------------------------- one more block

  lemma OverOneMore(sizes: seq<nat>, size: nat, budget: nat)
    ensures Over(sizes + [size], budget) == Over(sizes, budget) + if size > budget then 1 else 0
  {
  }

  lemma ReadAfterOneMore(blocks: seq<Block>, b: Block, i: nat, id: string)
    requires i < |blocks|
    ensures ReadAfter(blocks + [b], i, id) <==> ReadAfter(blocks, i, id) || IsRead(b, id)
  {
    var longer := blocks + [b];
    assert longer[|blocks|] == b;
    if ReadAfter(blocks, i, id) {
      var j :| i < j < |blocks| && IsRead(blocks[j], id);
      assert IsRead(longer[j], id);
    }
    if ReadAfter(longer, i, id) {
      var j :| i < j < |longer| && IsRead(longer[j], id);
      assert j < |blocks| ==> IsRead(blocks[j], id);
    }
  }

  lemma {:induction false} RecoveredOneMore(blocks: seq<Block>, b: Block, i: nat)
    requires i <= |blocks|
    ensures forall id | IsRead(b, id) :: Recovered(blocks + [b], i) == Recovered(blocks, i) + Unread(blocks, id, i)
    ensures (forall id :: !IsRead(b, id)) ==> Recovered(blocks + [b], i) == Recovered(blocks, i)
    decreases |blocks| - i
  {
    var longer := blocks + [b];
    if i < |blocks| {
      RecoveredOneMore(blocks, b, i + 1);
      assert longer[i] == blocks[i];
      if IsAnySpill(blocks[i]) {
        ReadAfterOneMore(blocks, b, i, blocks[i].content.value.artifact.value);
      }
    } else {
      assert !IsRecovered(longer, i);
      assert Recovered(longer, i + 1) == 0;
    }
  }

  lemma {:induction false} UnreadOneMore(blocks: seq<Block>, b: Block, id: string, i: nat)
    requires i <= |blocks|
    ensures Unread(blocks + [b], id, i) ==
            if IsRead(b, id) then 0 else Unread(blocks, id, i) + if IsSpill(b, id) then 1 else 0
    decreases |blocks| - i
  {
    var longer := blocks + [b];
    if i < |blocks| {
      UnreadOneMore(blocks, b, id, i + 1);
      assert longer[i] == blocks[i];
      ReadAfterOneMore(blocks, b, i, id);
    } else {
      assert longer[i] == b && !ReadAfter(longer, i, id);
      assert Unread(longer, id, i + 1) == 0;
    }
  }

  // ---------------------------------------------------------------- totals over tools

  /** All sizes filed under a tool, over the tools in `names`. */
  ghost function Filed(byTool: map<string, seq<nat>>, names: set<string>): nat
    requires names <= byTool.Keys
  {
    if names == {} then 0
    else
      var name :| name in names;
      |byTool[name]| + Filed(byTool, names - {name})
  }

  lemma {:induction false} FiledWithout(byTool: map<string, seq<nat>>, names: set<string>, name: string)
    requires names <= byTool.Keys && name in names
    ensures Filed(byTool, names) == |byTool[name]| + Filed(byTool, names - {name})
  {
    var first :| first in names && Filed(byTool, names) == |byTool[first]| + Filed(byTool, names - {first});
    if first == name {
    } else {
      FiledWithout(byTool, names - {first}, name);
      FiledWithout(byTool, names - {name}, first);
      assert names - {first} - {name} == names - {name} - {first};
    }
  }

  lemma {:induction false} FiledElsewhere(a: map<string, seq<nat>>, b: map<string, seq<nat>>, names: set<string>)
    requires names <= a.Keys && names <= b.Keys && forall name <- names :: a[name] == b[name]
    ensures Filed(a, names) == Filed(b, names)
  {
    if names == {} {
    } else {
      var name :| name in names;
      FiledWithout(a, names, name);
      FiledWithout(b, names, name);
      FiledElsewhere(a, b, names - {name});
    }
  }

  lemma FiledOneMore(byTool: map<string, seq<nat>>, name: string, size: nat)
    ensures var longer := byTool[name := (if name in byTool then byTool[name] else []) + [size]];
            Filed(longer, longer.Keys) == Filed(byTool, byTool.Keys) + 1
  {
    var longer := byTool[name := (if name in byTool then byTool[name] else []) + [size]];
    FiledWithout(longer, longer.Keys, name);
    FiledElsewhere(byTool, longer, byTool.Keys - {name});
    assert longer.Keys - {name} == byTool.Keys - {name};
    if name in byTool {
      FiledWithout(byTool, byTool.Keys, name);
    } else {
      assert byTool.Keys - {name} == byTool.Keys;
    }
  }

  // ---------------------------------------------------------------- the auditor

  /** What one session's walk remembers between blocks. */
  datatype Walk = Walk(
    toolOfUse: map<string, string>,
    commandOfUse: map<string, string>,
    pendingSpills: multiset<string>,
    truncatedCommand: Option<string>)

  function Lookup(m: map<string, string>, key: Option<string>): Option<string> {
    if key.Some? && key.value in m then Some(m[key.value]) else None
  }

  /** The walk remembers exactly what the blocks so far determine. */
  ghost predicate Remembers(walk: Walk, blocks: seq<Block>) {
    && (forall id :: Lookup(walk.toolOfUse, id) == ToolOf(blocks, id))
    && (forall id :: Lookup(walk.commandOfUse, id) == CommandOf(blocks, id))
    && (forall id :: walk.pendingSpills[id] == Unread(blocks, id, 0))
    && walk.truncatedCommand == Armed(blocks)
  }

  /** The memory after a tool call: it is filed under its id, a recovery call resolves every
      pending spill of the id it asks for, and a Bash call disarms the rerun check. */
  function AfterUse(walk: Walk, b: Block): Walk
    requires b.ToolUse?
  {
    if b.name.None? then walk
    else
      Walk(
        if b.id.Some? then walk.toolOfUse[b.id.value := b.name.value] else walk.toolOfUse,
        if b.id.Some? && HasCommand(b) then walk.commandOfUse[b.id.value := b.command.value] else walk.commandOfUse,
        if b.name.value in RECOVERY_TOOLS && b.wanted.Some? then walk.pendingSpills[b.wanted.value := 0]
        else walk.pendingSpills,
        if b.name.value == BASH then None else walk.truncatedCommand)
  }

  function AfterResult(walk: Walk, b: Block): Walk
    requires b.ToolResult?
  {
    if b.content.None? then walk
    else
      walk.(
        pendingSpills := walk.pendingSpills
          + if b.content.value.artifact.Some? then multiset{b.content.value.artifact.value} else multiset{},
        truncatedCommand :=
          if b.content.value.truncated then Lookup(walk.commandOfUse, b.useId) else walk.truncatedCommand)
  }

  /** How many pending spills a call reads back. */
  function ReadBack(walk: Walk, b: Block): nat {
    if b.ToolUse? && b.name.Some? && b.name.value in RECOVERY_TOOLS && b.wanted.Some?
    then walk.pendingSpills[b.wanted.value] else 0
  }

  predicate RunsAgain(walk: Walk, b: Block) {
    && IsBashUse(b) && HasCommand(b)
    && walk.truncatedCommand.Some? && IsRerun(walk.truncatedCommand.value, b.command.value)
  }

  lemma SnocMemory(before: seq<Block>, b: Block)
    ensures forall id :: ToolOf(before + [b], id) ==
              if id.Some? && b.ToolUse? && b.name.Some? && b.id == id then b.name else ToolOf(before, id)
    ensures forall id :: CommandOf(before + [b], id) ==
              if id.Some? && b.ToolUse? && b.name.Some? && b.id == id && HasCommand(b)
              then b.command else CommandOf(before, id)
    ensures Armed(before + [b]) ==
            if IsBashUse(b) then None else if IsTruncation(b) then CommandOf(before, b.useId) else Armed(before)
    ensures Reruns(before + [b]) == Reruns(before) + if IsRerunBlock(before, b) then 1 else 0
    ensures forall name :: Calls(before + [b], name) ==
              Calls(before, name) + if b.ToolUse? && b.name == Some(name) then 1 else 0
  {
  }

  lemma UseIsRemembered(walk: Walk, before: seq<Block>, b: Block)
    requires b.ToolUse? && Remembers(walk, before)
    ensures Remembers(AfterUse(walk, b), before + [b])
  {
    hide Unread, Reruns, Armed, ToolOf, CommandOf;
    var next := AfterUse(walk, b);
    SnocMemory(before, b);
    forall id ensures Lookup(next.toolOfUse, id) == ToolOf(before + [b], id) {}
    forall id ensures Lookup(next.commandOfUse, id) == CommandOf(before + [b], id) {}
    forall id ensures next.pendingSpills[id] == Unread(before + [b], id, 0) { UnreadOneMore(before, b, id, 0); }
  }

  lemma UseIsCounted(walk: Walk, before: seq<Block>, b: Block)
    requires b.ToolUse? && Remembers(walk, before)
    ensures Recovered(before + [b], 0) == Recovered(before, 0) + ReadBack(walk, b)
    ensures IsRerunBlock(before, b) <==> RunsAgain(walk, b)
  {
    hide Recovered, Unread, Reruns, Armed, IsRerun;
    RecoveredOneMore(before, b, 0);
    if b.name.Some? && b.name.value in RECOVERY_TOOLS && b.wanted.Some? {
      assert IsRead(b, b.wanted.value);
    }
  }

  lemma ResultIsRemembered(walk: Walk, before: seq<Block>, b: Block)
    requires b.ToolResult? && Remembers(walk, before)
    ensures Remembers(AfterResult(walk, b), before + [b])
    ensures Recovered(before + [b], 0) == Recovered(before, 0)
    ensures !IsRerunBlock(before, b)
  {
    hide Recovered, Unread, Calls, Reruns, Armed, ToolOf, CommandOf, IsRerun;
    SnocMemory(before, b);
    RecoveredOneMore(before, b, 0);
    forall id { UnreadOneMore(before, b, id, 0); }
  }

  /** The totals of an audit. */
  datatype Totals = Totals(
    sizes: seq<nat>,
    byTool: map<string, seq<nat>>,
    toolCalls: map<string, nat>,
    spilled: nat,
    recovered: nat,
    bashTruncated: nat,
    unattributed: nat,
    truncatedResults: nat,
    reruns: nat)
  {
    function SizesOf(name: string): seq<nat> {
      if name in byTool then byTool[name] else []
    }

    function CallsOf(name: string): nat {
      if name in toolCalls then toolCalls[name] else 0
    }
  }

  /** `now` is `start` and what the blocks contain. */
  ghost predicate Counted(start: Totals, now: Totals, blocks: seq<Block>) {
    && now.sizes == start.sizes + Sizes(blocks, AnyTool())
    && now.unattributed == start.unattributed + |Sizes(blocks, NoTool())|
    && (forall name :: now.SizesOf(name) == start.SizesOf(name) + Sizes(blocks, Tool(name)))
    && (forall name :: now.CallsOf(name) == start.CallsOf(name) + Calls(blocks, name))
    && now.spilled == start.spilled + Spills(blocks)
    && now.recovered == start.recovered + Recovered(blocks, 0)
    && now.truncatedResults == start.truncatedResults + Truncations(blocks)
    && now.bashTruncated == start.bashTruncated + Truncations(blocks)
    && now.reruns == start.reruns + Reruns(blocks)
  }

  lemma NothingYet(start: Totals)
    ensures Counted(start, start, []) && Remembers(Walk(map[], map[], multiset{}, None), [])
    ensures Recovered([], 0) == 0 && Spills([]) == 0 && Reruns([]) == 0 && Truncations([]) == 0
  {
  }

  lemma SnocCounts(before: seq<Block>, b: Block)
    ensures Spills(before + [b]) == Spills(before) + if IsAnySpill(b) then 1 else 0
    ensures Truncations(before + [b]) == Truncations(before) + if IsTruncation(b) then 1 else 0
    ensures forall p :: Sizes(before + [b], p) ==
              Sizes(before, p) + if b.ToolResult? && p(ToolOf(before, b.useId)) then SizeIn(b) else []
  {
  }

  lemma UseIsCountedIn(start: Totals, was: Totals, now: Totals, walk: Walk, before: seq<Block>, b: Block)
    requires b.ToolUse? && Remembers(walk, before) && Counted(start, was, before)
    requires now == was.(toolCalls := now.toolCalls, recovered := was.recovered + ReadBack(walk, b),
                         reruns := was.reruns + if RunsAgain(walk, b) then 1 else 0)
    requires forall name :: now.CallsOf(name) == was.CallsOf(name) + if b.name == Some(name) then 1 else 0
    ensures Counted(start, now, before + [b])
    ensures Recovered(before + [b], 0) == Recovered(before, 0) + ReadBack(walk, b)
    ensures Spills(before + [b]) == Spills(before) && Truncations(before + [b]) == Truncations(before)
    ensures Reruns(before + [b]) == Reruns(before) + if RunsAgain(walk, b) then 1 else 0
    ensures AfterUse(walk, b).truncatedCommand.Some? ==> walk.truncatedCommand.Some? && !RunsAgain(walk, b)
    ensures RunsAgain(walk, b) ==> walk.truncatedCommand.Some? && AfterUse(walk, b).truncatedCommand.None?
  {
    hide Remembers, Recovered, Reruns, Truncations, Spills, Sizes, Calls, IsRerun;
    UseIsCounted(walk, before, b);
    SnocMemory(before, b);
    SnocCounts(before, b);
  }

  /** What filing a result adds to the totals. */
  ghost predicate ResultAdded(was: Totals, now: Totals, walk: Walk, b: Block)
    requires b.ToolResult?
  {
    var tool := Lookup(walk.toolOfUse, b.useId);
    && now.sizes == was.sizes + SizeIn(b)
    && now.unattributed == was.unattributed + (if tool.None? then |SizeIn(b)| else 0)
    && (forall name :: now.SizesOf(name) == was.SizesOf(name) + if tool == Some(name) then SizeIn(b) else [])
    && now.spilled == was.spilled + (if IsAnySpill(b) then 1 else 0)
    && now.bashTruncated == was.bashTruncated + (if IsTruncation(b) then 1 else 0)
    && now.truncatedResults == was.truncatedResults + (if IsTruncation(b) then 1 else 0)
    && now.toolCalls == was.toolCalls && now.recovered == was.recovered && now.reruns == was.reruns
  }

  lemma ResultSizesOf(start: Totals, was: Totals, now: Totals, walk: Walk, before: seq<Block>, b: Block, name: string)
    requires b.ToolResult? && Remembers(walk, before)
    requires was.SizesOf(name) == start.SizesOf(name) + Sizes(before, Tool(name))
    requires now.SizesOf(name) ==
             was.SizesOf(name) + if Lookup(walk.toolOfUse, b.useId) == Some(name) then SizeIn(b) else []
    ensures now.SizesOf(name) == start.SizesOf(name) + Sizes(before + [b], Tool(name))
  {
  }

  lemma Reassociate(a: seq<nat>, b: seq<nat>, c: seq<nat>)
    ensures a + b + c == a + (b + c)
  {
  }

  lemma SizesOneMore(walk: Walk, before: seq<Block>, b: Block)
    requires b.ToolResult? && Remembers(walk, before)
    ensures Sizes(before + [b], AnyTool()) == Sizes(before, AnyTool()) + SizeIn(b)
    ensures var tool := Lookup(walk.toolOfUse, b.useId);
            && Sizes(before + [b], NoTool()) == Sizes(before, NoTool()) + (if tool.None? then SizeIn(b) else [])
            && forall name :: Sizes(before + [b], Tool(name)) ==
                              Sizes(before, Tool(name)) + if tool == Some(name) then SizeIn(b) else []
  {
  }

  lemma ResultSizes(start: Totals, was: Totals, now: Totals, walk: Walk, before: seq<Block>, b: Block)
    requires b.ToolResult? && Remembers(walk, before) && Counted(start, was, before)
    requires ResultAdded(was, now, walk, b)
    ensures now.sizes == start.sizes + Sizes(before + [b], AnyTool())
    ensures now.unattributed == start.unattributed + |Sizes(before + [b], NoTool())|
    ensures forall name :: now.SizesOf(name) == start.SizesOf(name) + Sizes(before + [b], Tool(name))
  {
    hide Recovered, Reruns, Truncations, Spills, Sizes, Calls, Remembers, SizeIn, AnyTool, NoTool, Tool,
         IsAnySpill, IsTruncation;
    SizesOneMore(walk, before, b);
    Reassociate(start.sizes, Sizes(before, AnyTool()), SizeIn(b));
    forall name ensures now.SizesOf(name) == start.SizesOf(name) + Sizes(before + [b], Tool(name)) {
      ResultSizesOf(start, was, now, walk, before, b, name);
    }
  }

  lemma ResultIsCountedIn(start: Totals, was: Totals, now: Totals, walk: Walk, before: seq<Block>, b: Block)
    requires b.ToolResult? && Remembers(walk, before) && Counted(start, was, before)
    requires ResultAdded(was, now, walk, b)
    ensures Counted(start, now, before + [b])
    ensures Recovered(before + [b], 0) == Recovered(before, 0) && Reruns(before + [b]) == Reruns(before)
    ensures Spills(before + [b]) == Spills(before) + if IsAnySpill(b) then 1 else 0
    ensures Truncations(before + [b]) == Truncations(before) + if IsTruncation(b) then 1 else 0
    ensures AfterResult(walk, b).truncatedCommand.Some? ==> IsTruncation(b) || walk.truncatedCommand.Some?
  {
    hide Recovered, Reruns, Truncations, Spills, Sizes, Calls, Remembers, Armed, SizeIn, AnyTool, NoTool, Tool;
    ResultIsRemembered(walk, before, b);
    SnocMemory(before, b);
    SnocCounts(before, b);
    ResultSizes(start, was, now, walk, before, b);
  }

  lemma OtherIsCountedIn(start: Totals, was: Totals, walk: Walk, before: seq<Block>)
    requires Remembers(walk, before) && Counted(start, was, before)
    ensures Remembers(walk, before + [OtherBlock]) && Counted(start, was, before + [OtherBlock])
    ensures Recovered(before + [OtherBlock], 0) == Recovered(before, 0)
    ensures Reruns(before + [OtherBlock]) == Reruns(before)
    ensures Spills(before + [OtherBlock]) == Spills(before) && Truncations(before + [OtherBlock]) == Truncations(before)
  {
    hide Recovered, Reruns, Truncations, Spills, Sizes, Calls, IsRerun, ToolOf, CommandOf, Armed, Unread;
    var b := OtherBlock;
    SnocMemory(before, b);
    SnocCounts(before, b);
    RecoveredOneMore(before, b, 0);
    forall id { UnreadOneMore(before, b, id, 0); }
  }

  lemma EndOfSession(start: Totals, now: Totals, walk: Walk, blocks: seq<Block>)
    requires Counted(start, now, blocks) && Remembers(walk, blocks)
    ensures forall id :: walk.pendingSpills[id] == Unread(blocks, id, 0)
    ensures now.recovered - start.recovered == Recovered(blocks, 0) && now.spilled - start.spilled == Spills(blocks)
    ensures now.reruns - start.reruns == Reruns(blocks)
    ensures now.truncatedResults - start.truncatedResults == Truncations(blocks)
    ensures now.bashTruncated - start.bashTruncated == Truncations(blocks)
  {
  }

  class Audit {
    const budget: nat
    var sessions: nat
    var sizes: seq<nat>
    var byTool: map<string, seq<nat>>
    var toolCalls: map<string, nat>
    var spilled: nat
    var spillsRecovered: nat
    var bashTruncated: nat
    var overBudget: nat
    var unattributed: nat
    var truncatedBashResults: nat
    var rerunsAfterTruncation: nat

    /** What holds of the totals after any sessions. */
    ghost predicate Valid()
      reads this
    {
      && spillsRecovered <= spilled
      && rerunsAfterTruncation <= truncatedBashResults == bashTruncated
      && Accounted()
    }

    /** Every result size is counted once, under its tool or as unattributed. */
    ghost predicate Accounted()
      reads `sizes, `unattributed, `byTool, `overBudget
    {
      |sizes| == unattributed + Filed(byTool, byTool.Keys) && overBudget == Over(sizes, budget)
    }

    constructor (budget: nat)
      ensures Valid() && this.budget == budget && sessions == 0 && sizes == []
    {
      this.budget := budget;
      sessions, sizes, byTool, toolCalls := 0, [], map[], map[];
      spilled, spillsRecovered, bashTruncated, overBudget := 0, 0, 0, 0;
      unattributed, truncatedBashResults, rerunsAfterTruncation := 0, 0, 0;
    }

    function CallsOf(name: string): nat
      reads this
    {
      if name in toolCalls then toolCalls[name] else 0
    }

    function SizesOf(name: string): seq<nat>
      reads this
    {
      if name in byTool then byTool[name] else []
    }

    method AddUse(b: Block, walk: Walk) returns (next: Walk)
      requires b.ToolUse?
      modifies `toolCalls, `spillsRecovered, `rerunsAfterTruncation
      ensures next == AfterUse(walk, b)
      ensures spillsRecovered == old(spillsRecovered) + ReadBack(walk, b)
      ensures |next.pendingSpills| == |walk.pendingSpills| - ReadBack(walk, b)
      ensures rerunsAfterTruncation == old(rerunsAfterTruncation) + if RunsAgain(walk, b) then 1 else 0
      ensures forall name :: CallsOf(name) == old(CallsOf(name)) + if b.name == Some(name) then 1 else 0
    {
      hide IsRerun;
      next := walk;
      if b.name.None? { return; }
      var name := b.name.value;
      toolCalls := toolCalls[name := CallsOf(name) + 1];
      if b.id.Some? {
        next := next.(toolOfUse := next.toolOfUse[b.id.value := name]);
        if HasCommand(b) {
          next := next.(commandOfUse := next.commandOfUse[b.id.value := b.command.value]);
        }
      }
      if next.pendingSpills != multiset{} && name in RECOVERY_TOOLS && b.wanted.Some? {
        var wanted := b.wanted.value;
        spillsRecovered := spillsRecovered + next.pendingSpills[wanted];
        next := next.(pendingSpills := next.pendingSpills[wanted := 0]);
      }
      if name == BASH && next.truncatedCommand.Some? {
        if HasCommand(b) && IsRerun(next.truncatedCommand.value, b.command.value) {
          rerunsAfterTruncation := rerunsAfterTruncation + 1;
        }
        next := next.(truncatedCommand := None);
      }
    }

    /** `_add_result` */
    method FileResult(content: Content, tool: Option<string>)
      requires Accounted()
      modifies `sizes, `overBudget, `unattributed, `byTool, `spilled, `bashTruncated
      ensures Accounted()
      ensures sizes == old(sizes) + [Size(content.text)]
      ensures unattributed == old(unattributed) + if tool.None? then 1 else 0
      ensures forall name ::
                SizesOf(name) == old(SizesOf(name)) + if tool == Some(name) then [Size(content.text)] else []
      ensures spilled == old(spilled) + if content.artifact.Some? then 1 else 0
      ensures bashTruncated == old(bashTruncated) + if content.truncated then 1 else 0
    {
      hide Filed, Size, Over;
      var size := Size(content.text);
      OverOneMore(sizes, size, budget);
      sizes := sizes + [size];
      if size > budget { overBudget := overBudget + 1; }
      if tool.None? {
        unattributed := unattributed + 1;
      } else {
        FiledOneMore(byTool, tool.value, size);
        byTool := byTool[tool.value := SizesOf(tool.value) + [size]];
      }
      if content.artifact.Some? { spilled := spilled + 1; }
      if content.truncated { bashTruncated := bashTruncated + 1; }
    }

    method AddResult(b: Block, walk: Walk) returns (next: Walk)
      requires b.ToolResult? && Accounted()
      modifies `sizes, `overBudget, `unattributed, `byTool, `spilled, `bashTruncated, `truncatedBashResults
      ensures next == AfterResult(walk, b)
      ensures Accounted()
      ensures var tool := Lookup(walk.toolOfUse, b.useId);
              && sizes == old(sizes) + SizeIn(b)
              && unattributed == old(unattributed) + (if tool.None? then |SizeIn(b)| else 0)
              && forall name :: SizesOf(name) == old(SizesOf(name)) + if tool == Some(name) then SizeIn(b) else []
      ensures spilled == old(spilled) + if IsAnySpill(b) then 1 else 0
      ensures |next.pendingSpills| - |walk.pendingSpills| == spilled - old(spilled)
      ensures bashTruncated == old(bashTruncated) + if IsTruncation(b) then 1 else 0
      ensures truncatedBashResults == old(truncatedBashResults) + if IsTruncation(b) then 1 else 0
    {
      hide Accounted, Lookup;
      next := walk;
      if b.content.None? { return; }
      var content := b.content.value;
      FileResult(content, Lookup(walk.toolOfUse, b.useId));
      if content.artifact.Some? {
        next := next.(pendingSpills := next.pendingSpills + multiset{content.artifact.value});
      }
      if content.truncated {
        truncatedBashResults := truncatedBashResults + 1;
        next := next.(truncatedCommand := Lookup(walk.commandOfUse, b.useId));
      }
    }

    ghost function Now(): Totals
      reads this
    {
      Totals(sizes, byTool, toolCalls, spilled, spillsRecovered, bashTruncated, unattributed,
                    truncatedBashResults, rerunsAfterTruncation)
    }

    /** `add_session`: every total moves by exactly what the transcript contains, and each
        spill is either recovered or left pending at the end. */
    method AddSession(blocks: seq<Block>) returns (ghost left: multiset<string>)
      requires Valid()
      modifies this
      ensures Valid() && sessions == old(sessions) + 1
      ensures Counted(old(Now()), Now(), blocks)
      ensures forall id :: left[id] == Unread(blocks, id, 0)
      ensures Spills(blocks) == Recovered(blocks, 0) + |left|
    {
      hide Counted, Remembers, Accounted, Recovered, Spills, Reruns, Truncations, AfterUse, AfterResult, ReadBack,
           RunsAgain, SizeIn, Unread;
      sessions := sessions + 1;
      ghost var start := Now();
      var walk := Walk(map[], map[], multiset{}, None);
      NothingYet(start);
      for n := 0 to |blocks|
        invariant Accounted()
        invariant Remembers(walk, blocks[..n])
        invariant Counted(start, Now(), blocks[..n])
        invariant |walk.pendingSpills| + Recovered(blocks[..n], 0) == Spills(blocks[..n])
        invariant Reruns(blocks[..n]) + (if walk.truncatedCommand.Some? then 1 else 0) <= Truncations(blocks[..n])
        invariant sessions == old(sessions) + 1
      {
        var b := blocks[n];
        ghost var before, was, memory := blocks[..n], Now(), walk;
        assert blocks[..n + 1] == before + [b];
        match b {
          case ToolUse(_, _, _, _) =>
            walk := AddUse(b, walk);
            UseIsRemembered(memory, before, b);
            UseIsCountedIn(start, was, Now(), memory, before, b);
          case ToolResult(_, _) =>
            walk := AddResult(b, walk);
            ResultIsRemembered(memory, before, b);
            ResultIsCountedIn(start, was, Now(), memory, before, b);
          case OtherBlock =>
            OtherIsCountedIn(start, was, memory, before);
        }
      }
      assert blocks[..|blocks|] == blocks;
      left := walk.pendingSpills;
      EndOfSession(start, Now(), walk, blocks);
    }
  }
}
