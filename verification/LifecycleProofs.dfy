/** Every reachable state passes the version gate, versions only rise, and history is
    only appended to. */
module LifecycleProofs {
  import opened Results
  import opened Versions
  import opened Ledgers
  import opened Trees
  import opened Cuts
  import opened Planning
  import opened Effects
  import opened Publishing
  import opened Lifecycle
  import Refusals

  lemma {:induction false} FoundTag(tags: seq<Tag>, version: Version)
    ensures FindTag(tags, version).Some? ==> FindTag(tags, version).value in tags
                                             && FindTag(tags, version).value.version == version
    ensures FindTag(tags, version).None? ==> forall tag <- tags :: tag.version != version
  {
    if tags == [] || tags[0].version == version {
    } else {
      FoundTag(tags[1..], version);
      assert tags == [tags[0]] + tags[1..];
    }
  }

  lemma LastTagIsHighest(s: State, tag: Tag)
    requires s.tags != [] && TagsAscend(s.tags) && tag in s.tags
    ensures AtMost(tag.version, LastTag(s).version)
  {
  }

  lemma InitialStatesFit(s: State, tools: Tools, seen: set<Inputs>)
    requires Initial(s) && InputsOf(Files(s.tree)) in seen
    ensures Inv(s, tools, seen)
  {
  }

  /** A run may start from a `-dev` tree with an empty ledger, above all tags. */
  lemma InitialMayStart(s: State, events: seq<Event>, tools: Tools)
    requires Initial(s) && CollisionFree(tools.hash, InputsSeen(s, events))
    ensures MayStart(s, events, tools)
  {
    hide Inv, CollisionFree, InputsOf, Files, MainVersion, PackageFindings, MainFilesSay, AbiRevisionOf, Agree,
         HasAgentCore;
    InitialStatesFit(s, tools, InputsSeen(s, events));
  }

  lemma EditKeepsInv(s: State, after: Tree, work: Tree, tools: Tools, seen: set<Inputs>)
    requires Inv(s, tools, seen) && EditAllowed(s.tree, after) && InputsOf(Files(after)) in seen
    ensures Inv(s.(tree := after, work := work), tools, seen)
  {
    hide MainVersion, MainFilesSay, PackageFindings, AbiRevisionOf, Files, ValidReleases, LastMain,
         RevisionsRecorded, TagsAscend, TagKept;
    assert after.ledger == s.tree.ledger;
    assert TreeConsistent(after, tools.hash);
  }

  // ---------------------------------------------------------------- cuts

  lemma KeptAt(older: Ledger, newer: Ledger, k: nat)
    requires Grows(older, newer) && k < |older.releases|
    ensures k < |newer.releases|
    ensures newer.releases[k].inputDigest == older.releases[k].inputDigest
    ensures newer.releases[k].abiRevision == older.releases[k].abiRevision
  {
  }

  lemma NewRevisionsRecorded(t: Tree, after: Ledger, version: VersionText, main: VersionText, d: Decision, hash: Hash,
                             seen: set<Inputs>)
    requires CollisionFree(hash, seen) && RevisionsRecorded(t.ledger, hash, seen) && InputsOf(Files(t)) in seen
    requires Recorded(FactsOf(t, hash), version, main, d) && after == d.ledger
    ensures RevisionsRecorded(after, hash, seen)
  {
    hide AbiRevisionOf, AbiVersionOf, ValidReleases, InputsOf, Files, Grows, Mains;
    var inputs := InputsOf(Files(t));
    InputsDeclareTheAbi(Files(t));
    forall k, x | 0 <= k < |after.releases| && x in seen && hash(x) == after.releases[k].inputDigest
      ensures AbiRevisionOf(x).Success? && AbiRevisionOf(x).value == after.releases[k].abiRevision
    {
      if k < |t.ledger.releases| {
        KeptAt(t.ledger, after, k);
      } else {
        assert after.releases[k].inputDigest == hash(inputs);
        assert !Collides(hash, x, inputs);
      }
    }
  }

  /** The recorded revision of a cut is the one its tree declares. */
  lemma CutRecordsRevision(t: Tree, version: VersionText, main: VersionText, d: Decision, hash: Hash, seen: set<Inputs>)
    requires t.ledger.Valid() && AbiRevisionOf(Files(t)).Success?
    requires RevisionsRecorded(t.ledger, hash, seen) && InputsOf(Files(t)) in seen
    requires Recorded(FactsOf(t, hash), version, main, d)
    ensures d.ledger.releases[|d.ledger.releases| - 1].abiRevision == AbiRevisionOf(Files(t)).value
  {
    hide AbiRevisionOf, ValidReleases, InputsOf, Files;
    InputsDeclareTheAbi(Files(t));
    if d.kind.Reused? {
      var k := |t.ledger.releases| - 1;
      assert hash(InputsOf(Files(t))) == t.ledger.releases[k].inputDigest;
      SameIdentityFields(d.ledger.releases[k], t.ledger.releases[k]);
    }
  }

  lemma CutParts(t: Tree, lastTag: VersionText, request: Request, tools: Tools)
    requires CommandCut(t, lastTag, request, tools).result.Success?
    ensures var cut := CommandCut(t, lastTag, request, tools);
            var main := Final(cut.result.value.main);
            var version := Final(cut.result.value.plan.version);
            && ChosenVersion(t, lastTag, request) == Success(cut.result.value.main)
            && PlanCut(t, request.agentcoreLevel, request.force, request.agentcoreCommits, tools.hash)
               == Success(cut.result.value.plan)
            && WriteCut(t, main, request.date, version, request.date, tools).result.Success?
            && cut.tree == WriteCut(t, main, request.date, version, request.date, tools).tree
  {
    hide DecideCommandCut, ChosenVersion, PlanCut, WriteCut;
    Refusals.DecidedParts(t, lastTag, request, tools.hash);
  }

  lemma CutTreeConsistent(t: Tree, after: Tree, main: VersionText, version: VersionText, d: Decision, hash: Hash,
                          seen: set<Inputs>)
    requires TreeConsistent(t, hash) && RevisionsRecorded(t.ledger, hash, seen) && InputsOf(Files(t)) in seen
    requires SameSources(t, after) && MainFilesSay(after, main) && main.Final?
    requires Recorded(FactsOf(t, hash), version, main, d) && after.ledger == d.ledger
    requires after.sdkVersion == version && PackageFindings(after) == []
    ensures TreeConsistent(after, hash)
    ensures MainVersion(after) == Some(main)
    ensures LastMain(after.ledger.releases) == Some(main.v)
    ensures InputsOf(Files(after)) in seen
  {
    hide AbiRevisionOf, AbiVersionOf, ValidReleases, InputsOf, Files, SetDeclared, DeclaredValues, Mains, Grows,
         RevisionsRecorded, PackageFindings, MainFilesSay, SameSources, MainVersion, CurrentVersion;
    MainFilesAreRead(after, main);
    SourcesDeclareTheAbi(t, after);
    DigestIgnoresVersions(t, after, hash);
    CutRecordsRevision(t, version, main, d, hash, seen);
  }

  /** What a successful cut makes of a consistent tree. */
  lemma CutEffect(t: Tree, lastTag: VersionText, request: Request, tools: Tools, seen: set<Inputs>)
    requires TreeConsistent(t, tools.hash) && RevisionsRecorded(t.ledger, tools.hash, seen)
    requires InputsOf(Files(t)) in seen
    requires CollisionFree(tools.hash, seen) && lastTag.Final?
    requires CommandCut(t, lastTag, request, tools).result.Success?
    ensures var after := CommandCut(t, lastTag, request, tools).tree;
            var main := CommandCut(t, lastTag, request, tools).result.value.main;
            && TreeConsistent(after, tools.hash) && RevisionsRecorded(after.ledger, tools.hash, seen)
            && InputsOf(Files(after)) in seen
            && MainVersion(after) == Some(Final(main)) && Less(lastTag.v, main)
            && LastMain(after.ledger.releases) == Some(main)
            && Grows(t.ledger, after.ledger)
  {
    hide CommandCut, WriteCut, ChosenVersion, PlanCut, DecideCut, TreeConsistent, RevisionsRecorded, Grows,
         InputsOf, Files, CollisionFree, Changelog.RewriteChangelog, MainVersion;
    var cut := CommandCut(t, lastTag, request, tools);
    CutParts(t, lastTag, request, tools);
    var main, version := Final(cut.result.value.main), Final(cut.result.value.plan.version);
    Refusals.ChosenIsAbove(t, lastTag, request);
    WriteCutEffect(t, main, request.date, version, request.date, tools);
    DecisionRecords(FactsOf(t, tools.hash), version, main, request.date);
    var d := DecideCut(FactsOf(t, tools.hash), version, main, request.date).value;
    CutTreeConsistent(t, cut.tree, main, version, d, tools.hash, seen);
    NewRevisionsRecorded(t, cut.tree.ledger, version, main, d, tools.hash, seen);
  }

  lemma CutKeepsInv(s: State, request: Request, tools: Tools, seen: set<Inputs>)
    requires Inv(s, tools, seen) && CollisionFree(tools.hash, seen)
    ensures Inv(AfterCommand(s, CommandCut(s.tree, Final(LastTag(s).version), request, tools)), tools, seen)
    ensures var after := AfterCommand(s, CommandCut(s.tree, Final(LastTag(s).version), request, tools));
            Grows(s.tree.ledger, after.tree.ledger)
  {
    hide CommandCut, TreeConsistent, RevisionsRecorded, Grows, InputsOf, Files, CollisionFree, MainVersion;
    var lastTag := Final(LastTag(s).version);
    GrowsIsAPartialOrder(s.tree.ledger, s.tree.ledger, s.tree.ledger);
    if CommandCut(s.tree, lastTag, request, tools).result.Success? {
      CutEffect(s.tree, lastTag, request, tools, seen);
      var after := CommandCut(s.tree, lastTag, request, tools).tree;
      forall tag | tag in s.tags ensures TagKept(tag, after.ledger) {
        if tag.ledger.Some? {
          GrowsIsAPartialOrder(tag.ledger.value, s.tree.ledger, after.ledger);
        }
      }
    }
  }

  // ---------------------------------------------------------------- tags and reopens

  lemma ReleaseIsRecorded(t: Tree, main: Version, hash: Hash)
    requires TreeConsistent(t, hash) && MainVersion(t) == Some(Final(main))
    ensures t.ledger.Valid() && t.ledger.releases != [] && LastMain(t.ledger.releases) == Some(main)
  {
    hide ValidReleases, Files, AbiRevisionOf, PackageFindings, MainFilesSay, InputsOf;
  }

  lemma TagKeepsInv(s: State, main: Version, tools: Tools, seen: set<Inputs>)
    requires Inv(s, tools, seen) && MainVersion(s.tree) == Some(Final(main)) && FindTag(s.tags, main).None?
    ensures Inv(s.(tags := s.tags + [Tag(main, Some(s.tree.ledger))]), tools, seen)
  {
    hide TreeConsistent, ValidReleases, LastMain, Files, InputsOf, MainVersion, RevisionsRecorded, Grows;
    ReleaseIsRecorded(s.tree, main, tools.hash);
    var tag := Tag(main, Some(s.tree.ledger));
    var after := s.(tags := s.tags + [tag]);
    FoundTag(s.tags, main);
    assert LastTag(s) in s.tags;
    forall i | 0 <= i < |s.tags| ensures Less(s.tags[i].version, main) {
      LastTagIsHighest(s, s.tags[i]);
    }
    GrowsIsAPartialOrder(s.tree.ledger, s.tree.ledger, s.tree.ledger);
  }

  lemma ReopenParts(t: Tree, main: VersionText, level: Level, agentcoreLevel: Level, tagged: bool, tools: Tools)
    requires CommandReopen(t, level, agentcoreLevel, tagged, tools).result.Success?
    requires CurrentVersion(t) == Success(main) && main.Final?
    ensures var after := CommandReopen(t, level, agentcoreLevel, tagged, tools);
            var target, agentcoreTarget := NextDev(main, level), ReopenTarget(t.ledger, agentcoreLevel);
            && target.Success? && target.value.Dev? && Less(main.v, target.value.v)
            && agentcoreTarget.Success? && agentcoreTarget.value.Dev?
            && t.ledger.releases != []
            && t.ledger.Latest().value.version.Final?
            && Less(t.ledger.Latest().value.version.v, agentcoreTarget.value.v)
            && after == WriteReopen(t, target.value, agentcoreTarget.value, tools)
  {
    hide WriteReopen, ValidReleases, CurrentVersion;
    BumpIsTheNextOfItsLevel(main.v, level, main.v);
    LatestIsFinal(t.ledger);
    BumpIsTheNextOfItsLevel(t.ledger.Latest().value.version.v, agentcoreLevel, main.v);
  }

  lemma ReopenStarts(t: Tree, level: Level, agentcoreLevel: Level, tagged: bool, tools: Tools)
    requires CommandReopen(t, level, agentcoreLevel, tagged, tools).result.Success?
    ensures tagged && CurrentVersion(t).Success? && CurrentVersion(t).value.Final?
  {
    hide WriteReopen, CurrentVersion;
  }

  lemma ReopenKeepsInv(s: State, level: Level, agentcoreLevel: Level, tools: Tools, seen: set<Inputs>)
    requires Inv(s, tools, seen)
    ensures Inv(AfterCommand(s, CommandReopen(s.tree, level, agentcoreLevel, IsTagged(s), tools)), tools, seen)
    ensures AfterCommand(s, CommandReopen(s.tree, level, agentcoreLevel, IsTagged(s), tools)).tree.ledger
            == s.tree.ledger
  {
    hide CommandReopen, WriteReopen, NextDev, ReopenTarget, ValidReleases, Files, AbiRevisionOf, InputsOf,
         DeclaredValues, SetDeclared, RevisionsRecorded, TagsAscend, TagKept, MainVersion, CurrentVersion,
         PackageFindings;
    var done := CommandReopen(s.tree, level, agentcoreLevel, IsTagged(s), tools);
    if done.result.Success? {
      ReopenStarts(s.tree, level, agentcoreLevel, IsTagged(s), tools);
      var main := MainVersion(s.tree).value;
      FoundTag(s.tags, main.v);
      LastTagIsHighest(s, FindTag(s.tags, main.v).value);
      MainFilesAreRead(s.tree, main);
      ReopenParts(s.tree, main, level, agentcoreLevel, IsTagged(s), tools);
      var after := done.tree;
      var target, agentcoreTarget := NextDev(main, level).value, ReopenTarget(s.tree.ledger, agentcoreLevel).value;
      WriteReopenEffect(s.tree, target, agentcoreTarget, tools);
      MainFilesAreRead(after, target);
      SourcesDeclareTheAbi(s.tree, after);
      DigestIgnoresVersions(s.tree, after, tools.hash);
      assert TreeConsistent(after, tools.hash);
    }
  }

  // ---------------------------------------------------------------- runs

  lemma EditKeepsLedger(t: Tree, after: Tree)
    requires EditAllowed(t, after)
    ensures after.ledger == t.ledger
  {
  }

  /** The invariant is about what is committed and tagged. */
  lemma OthersKeepInv(s: State, work: Tree, published: map<Version, Sums>, tools: Tools, seen: set<Inputs>)
    requires Inv(s, tools, seen)
    ensures Inv(s.(work := work, published := published), tools, seen)
  {
    hide TreeConsistent, RevisionsRecorded, InputsOf, Files, TagsAscend, TagKept, MainVersion, LastMain;
  }

  lemma NextKeepsInv(s: State, e: Event, tools: Tools, seen: set<Inputs>)
    requires Inv(s, tools, seen) && CollisionFree(tools.hash, seen) && EditsAmong([e], seen)
    ensures var next := Next(s, e, tools);
            next.Some? ==>
              Inv(next.value, tools, seen) && Grows(s.tree.ledger, next.value.tree.ledger) && s.tags <= next.value.tags
  {
    hide CommandCut, CommandReopen, EditAllowed, TreeConsistent, Grows, RevisionsRecorded, TagsFit, TagsAscend,
         TagKept, IsTagged;
    GrowsIsAPartialOrder(s.tree.ledger, s.tree.ledger, s.tree.ledger);
    match e
    case Edit(after) =>
      if EditAllowed(s.tree, after) {
        EditKeepsInv(s, after, Next(s, e, tools).value.work, tools, seen);
        EditKeepsLedger(s.tree, after);
      }
    case CutRelease(request) => CutKeepsInv(s, request, tools, seen);
    case TagRelease =>
      if Next(s, e, tools).Some? {
        TagKeepsInv(s, MainVersion(s.tree).value.v, tools, seen);
      }
    case Reopen(level, agentcoreLevel) => ReopenKeepsInv(s, level, agentcoreLevel, tools, seen);
    case Restore => OthersKeepInv(s, s.tree, s.published, tools, seen);
    case Publish(_, _, _, _) =>
      if Next(s, e, tools).Some? {
        OthersKeepInv(s, s.work, Next(s, e, tools).value.published, tools, seen);
      }
  }

  /** Along every run the ledger only grows and no tag is moved or dropped. */
  lemma {:induction false} RunsKeepInv(s: State, events: seq<Event>, tools: Tools, seen: set<Inputs>)
    requires Inv(s, tools, seen) && CollisionFree(tools.hash, seen) && EditsAmong(events, seen)
    ensures var r := Run(s, events, tools);
            Inv(r, tools, seen) && Grows(s.tree.ledger, r.tree.ledger) && s.tags <= r.tags
    decreases |events|
  {
    GrowsIsAPartialOrder(s.tree.ledger, s.tree.ledger, s.tree.ledger);
    if events == [] {
    } else {
      hide Next, Inv, Grows;
      NextKeepsInv(s, events[0], tools, seen);
      var next := Next(s, events[0], tools);
      var t := if next.Some? then next.value else s;
      RunsKeepInv(t, events[1..], tools, seen);
      GrowsIsAPartialOrder(s.tree.ledger, t.tree.ledger, Run(t, events[1..], tools).tree.ledger);
    }
  }

  // ---------------------------------------------------------------- what a reader may rely on

  lemma GatePasses(s: State, tools: Tools, seen: set<Inputs>)
    requires Inv(s, tools, seen)
    ensures StateFindings(s.tree, MainVersion(s.tree).value, LastTag(s).ledger, tools.hash) == []
  {
    hide Files, AbiRevisionOf, InputsOf, DeclaredValues, PackageFindings, RevisionsRecorded, Grows;
    var t, main := s.tree, MainVersion(s.tree).value;
    assert LastTag(s) in s.tags;
    assert TagKept(LastTag(s), t.ledger);
    if main.Final? {
      var k := |t.ledger.releases| - 1;
      assert main in t.ledger.releases[k].mainReleases;
      CarriedByItsEntry(t.ledger.releases, k, main);
    }
  }

  lemma SeenByTheRun(s: State, before: seq<Event>, more: seq<Event>, seen: set<Inputs>)
    requires seen == InputsSeen(s, before + more)
    ensures InputsOf(Files(s.tree)) in seen && EditsAmong(before, seen) && EditsAmong(more, seen)
  {
  }

  lemma RunHoldsInv(s: State, events: seq<Event>, tools: Tools)
    requires MayStart(s, events, tools)
    ensures Inv(Run(s, events, tools), tools, InputsSeen(s, events))
  {
    hide Run, Inv, InputsSeen, CollisionFree, InputsOf, Files, EditsAmong;
    assert events + [] == events;
    SeenByTheRun(s, events, [], InputsSeen(s, events));
    RunsKeepInv(s, events, tools, InputsSeen(s, events));
  }

  lemma StateIsInStep(s: State, tools: Tools, seen: set<Inputs>)
    requires Inv(s, tools, seen)
    ensures var main := MainVersion(s.tree);
            && main.Some? && main.value.IsVersion()
            && StateFindings(s.tree, main.value, LastTag(s).ledger, tools.hash) == []
            && main.value.Dev? == s.tree.sdkVersion.Dev?
            && (s.tree.sdkVersion.Final? ==>
                  s.tree.ledger.Latest().Some? && s.tree.ledger.Latest().value.version == s.tree.sdkVersion)
            && (s.tree.sdkVersion.Dev? && s.tree.ledger.Latest().Some? ==>
                  s.tree.ledger.Latest().value.version.Final?
                  && Less(s.tree.ledger.Latest().value.version.v, s.tree.sdkVersion.v))
            && TagsAscend(s.tags)
            && (main.value.Dev? ==> Less(LastTag(s).version, main.value.v))
  {
    hide StateFindings, MainVersion, Files, AbiRevisionOf, InputsOf, DeclaredValues, PackageFindings,
         MainFilesSay, RevisionsRecorded, Grows, ValidReleases, LastMain, TagKept, TagsAscend;
    GatePasses(s, tools, seen);
  }

  /** From any state with the invariant, after any edits, cuts, tags, publications and
      reopens: the version gate finds nothing; a release state carries the latest
      ledger version and a development state lies above it; and main versions rise. */
  lemma EveryReachableStatePassesTheGate(s: State, events: seq<Event>, tools: Tools)
    requires MayStart(s, events, tools)
    ensures var r := Run(s, events, tools);
            var main := MainVersion(r.tree);
            && main.Some? && main.value.IsVersion()
            && StateFindings(r.tree, main.value, LastTag(r).ledger, tools.hash) == []
            && main.value.Dev? == r.tree.sdkVersion.Dev?
            && (r.tree.sdkVersion.Final? ==>
                  r.tree.ledger.Latest().Some? && r.tree.ledger.Latest().value.version == r.tree.sdkVersion)
            && (r.tree.sdkVersion.Dev? && r.tree.ledger.Latest().Some? ==>
                  r.tree.ledger.Latest().value.version.Final?
                  && Less(r.tree.ledger.Latest().value.version.v, r.tree.sdkVersion.v))
            && TagsAscend(r.tags)
            && (main.value.Dev? ==> Less(LastTag(r).version, main.value.v))
  {
    hide Run, Inv, InputsSeen, CollisionFree, StateFindings, MainVersion, TagsAscend;
    RunHoldsInv(s, events, tools);
    StateIsInStep(Run(s, events, tools), tools, InputsSeen(s, events));
  }

  lemma CutFollowsTheLedger(s: State, request: Request, tools: Tools, seen: set<Inputs>)
    requires Inv(s, tools, seen) && ChosenVersion(s.tree, Final(LastTag(s).version), request).Success?
    ensures FollowsTheLedger(s.tree.ledger, Final(ChosenVersion(s.tree, Final(LastTag(s).version), request).value))
  {
    hide ChosenVersion, ValidReleases, LastMain, RevisionsRecorded, TagsAscend, TagKept, Files, InputsOf,
         AbiRevisionOf;
    MainFilesAreRead(s.tree, MainVersion(s.tree).value);
    Refusals.ChosenIsAbove(s.tree, Final(LastTag(s).version), request);
  }

  /** In every run the main version a cut computes comes after every one the ledger names. */
  lemma ReachableCutFollowsTheLedger(s: State, events: seq<Event>, request: Request, tools: Tools)
    requires MayStart(s, events, tools)
    ensures var r := Run(s, events, tools);
            var chosen := ChosenVersion(r.tree, Final(LastTag(r).version), request);
            chosen.Success? ==> FollowsTheLedger(r.tree.ledger, Final(chosen.value))
  {
    hide Run, Inv, InputsSeen, CollisionFree, ChosenVersion, FollowsTheLedger;
    var seen := InputsSeen(s, events);
    RunHoldsInv(s, events, tools);
    var r := Run(s, events, tools);
    if ChosenVersion(r.tree, Final(LastTag(r).version), request).Success? {
      CutFollowsTheLedger(r, request, tools, seen);
    }
  }

  /** A cut that is refused after its decisions leaves the checkout rewritten; neither command
      starts again before the checkout is restored, and that undoes the refused cut. */
  lemma RefusedCutBlocks(s: State, request: Request, tools: Tools)
    requires s.tags != [] && s.work == s.tree
    ensures var decided := DecideCommandCut(s.tree, Final(LastTag(s).version), request, tools.hash);
            var next := Next(s, CutRelease(request), tools);
            && next.Some?
            && (decided.Success? && |DeclaredValues(s.tree.zon)| == 1
                && !Refusals.CutGoesThrough(s.tree, decided.value, request.date, tools.hash) ==>
                  && next.value.tree == s.tree && next.value.work != s.tree
                  && (forall e: Event :: e.CutRelease? || e.Reopen? ==> Next(next.value, e, tools).None?)
                  && Next(next.value, Restore, tools) == Some(s))
  {
    hide DecideCommandCut, CommandCut, CommandReopen, Refusals.CutGoesThrough, DeclaredValues;
    Refusals.CommandCutOutcome(s.tree, Final(LastTag(s).version), request, tools);
  }

  /** Whether a main release builds its AgentCore, or whose it reuses, never changes. */
  lemma ModeSurvivesGrowth(older: Ledger, newer: Ledger, main: VersionText)
    requires Grows(older, newer) && older.ByMainRelease(main).Some?
    ensures ReleaseMode(older, main) == ReleaseMode(newer, main)
  {
    hide Grows, FirstCarrying;
    GrowthKeepsAnswers(older, newer, main, main);
    CarrierAt(older.releases, main);
  }

  /** A later run never changes what the ledger of an earlier state answers: which
      AgentCore a main release carries, who built it, and whether it was a reuse. */
  lemma HistoryIsNeverRewritten(s: State, before: seq<Event>, more: seq<Event>, version: VersionText,
                                main: VersionText, tools: Tools)
    requires MayStart(s, before + more, tools)
    ensures var a := Run(s, before, tools);
            var b := Run(a, more, tools);
            && SameAnswer(a.tree.ledger.ByVersion(version), b.tree.ledger.ByVersion(version))
            && SameAnswer(a.tree.ledger.ByMainRelease(main), b.tree.ledger.ByMainRelease(main))
            && (a.tree.ledger.ByMainRelease(main).Some? ==>
                  ReleaseMode(a.tree.ledger, main) == ReleaseMode(b.tree.ledger, main))
  {
    var seen := InputsSeen(s, before + more);
    hide Run, Inv, Grows, InputsSeen, EditsAmong, CollisionFree, FirstOfVersion, FirstCarrying, ReleaseMode;
    SeenByTheRun(s, before, more, seen);
    RunsKeepInv(s, before, tools, seen);
    var a := Run(s, before, tools);
    RunsKeepInv(a, more, tools, seen);
    var b := Run(a, more, tools);
    GrowthKeepsAnswers(a.tree.ledger, b.tree.ledger, version, main);
    if a.tree.ledger.ByMainRelease(main).Some? {
      ModeSurvivesGrowth(a.tree.ledger, b.tree.ledger, main);
    }
  }
}
