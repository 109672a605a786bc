/** What the two commands do in every state a run can reach: when they succeed, and what a
    refusal leaves behind. */
module ReachableCommands {
  import opened Results
  import opened Versions
  import opened Ledgers
  import opened Changelog
  import opened Trees
  import opened Cuts
  import opened Planning
  import opened Effects
  import opened Lifecycle
  import opened LifecycleProofs
  import opened Refusals

  /** In a state with the invariant every file declares its version once. */
  lemma InvDeclares(s: State, tools: Tools, seen: set<Inputs>)
    requires Inv(s, tools, seen)
    ensures |DeclaredValues(s.tree.zon)| == 1 && |DeclaredValues(s.tree.versionZig)| == 1 && PackagesDeclareOnce(s.tree)
    ensures AbiRevisionOf(Files(s.tree)).Success?
    ensures MainVersion(s.tree).Some? && CurrentVersion(s.tree) == Success(MainVersion(s.tree).value)
    ensures MainVersion(s.tree).value.Final? ==>
              s.tree.sdkVersion.Final? && s.tree.ledger.Valid() && s.tree.ledger.releases != []
  {
    hide DeclaredValues, Files, AbiRevisionOf, InputsOf, ValidReleases, RevisionsRecorded, TagsAscend, TagKept,
         LastMain, MainVersion;
    MainFilesAreRead(s.tree, MainVersion(s.tree).value);
  }

  lemma InvTags(s: State, tools: Tools, seen: set<Inputs>)
    requires Inv(s, tools, seen)
    ensures s.tags != [] && TagsAscend(s.tags) && TreeConsistent(s.tree, tools.hash)
    ensures RevisionsRecorded(s.tree.ledger, tools.hash, seen) && InputsOf(Files(s.tree)) in seen
  {
    hide TagsAscend, TreeConsistent, RevisionsRecorded, TagKept, TagsFit, Files, InputsOf;
  }

  // ---------------------------------------------------------------- the cut

  /** AgentCore's facts that a build still needs. */
  predicate BuildIsReady(f: Facts, version: Version, date: string) {
    && f.abiRevision.Success? && f.abiVersion.Success?
    && (forall r <- f.ledger.releases :: r.inputDigest != f.digest)
    && AbiFollows(f.ledger, version, f.abiVersion.value, f.abiRevision.value)
    && ChangelogReady(f, version, date)
  }

  lemma GoesThroughIff(t: Tree, cut: Cut, date: string, hash: Hash)
    requires |DeclaredValues(t.zon)| == 1 && |DeclaredValues(t.versionZig)| == 1 && PackagesDeclareOnce(t)
    requires FollowsTheLedger(t.ledger, Final(cut.main))
    ensures CutGoesThrough(t, cut, date, hash) <==>
            (cut.plan.kind.Built? ==> BuildIsReady(FactsOf(t, hash), cut.plan.version, date))
  {
    hide AbiRevisionOf, AbiVersionOf, Files, InputsOf, DeclaredValues, PackagesDeclareOnce, FollowsTheLedger,
         AbiFollows, ChangelogReady;
  }

  /** A decided reuse always succeeds, and a decided build exactly when AgentCore's facts allow
      it; a decided cut that is refused has written the main version. */
  lemma CutSucceedsExactly(s: State, request: Request, tools: Tools, seen: set<Inputs>)
    requires Inv(s, tools, seen)
    ensures var lastTag := Final(LastTag(s).version);
            var decided := DecideCommandCut(s.tree, lastTag, request, tools.hash);
            var done := CommandCut(s.tree, lastTag, request, tools);
            && (done.result.Success? <==>
                  && decided.Success?
                  && (decided.value.plan.kind.Built? ==>
                        BuildIsReady(FactsOf(s.tree, tools.hash), decided.value.plan.version, request.date)))
            && (decided.Success? && done.result.Failure? ==> done.tree != s.tree)
  {
    hide DecideCommandCut, CommandCut, ChosenVersion, Inv, CutGoesThrough, BuildIsReady, PackagesDeclareOnce,
         FollowsTheLedger, FactsOf;
    InvTags(s, tools, seen);
    var lastTag := Final(LastTag(s).version);
    CommandCutOutcome(s.tree, lastTag, request, tools);
    InvDeclares(s, tools, seen);
    var decided := DecideCommandCut(s.tree, lastTag, request, tools.hash);
    if decided.Success? {
      DecidedParts(s.tree, lastTag, request, tools.hash);
      CutFollowsTheLedger(s, request, tools, seen);
      GoesThroughIff(s.tree, decided.value, request.date, tools.hash);
    }
  }

  lemma ReachableCutSucceedsExactly(s: State, events: seq<Event>, request: Request, tools: Tools)
    requires MayStart(s, events, tools)
    ensures var r := Run(s, events, tools);
            var lastTag := Final(LastTag(r).version);
            var decided := DecideCommandCut(r.tree, lastTag, request, tools.hash);
            var done := CommandCut(r.tree, lastTag, request, tools);
            && (done.result.Success? <==>
                  && decided.Success?
                  && (decided.value.plan.kind.Built? ==>
                        BuildIsReady(FactsOf(r.tree, tools.hash), decided.value.plan.version, request.date)))
            && (decided.Success? && done.result.Failure? ==> done.tree != r.tree)
  {
    hide Run, Inv, InputsSeen, CollisionFree, CommandCut, DecideCommandCut, BuildIsReady, FactsOf;
    RunHoldsInv(s, events, tools);
    CutSucceedsExactly(Run(s, events, tools), request, tools, InputsSeen(s, events));
  }

  // ---------------------------------------------------------------- the reopen

  predicate OffersReopen(level: Level) {
    level.Patch? || level.Minor?
  }

  lemma ReopenIsDecided(t: Tree, level: Level, agentcoreLevel: Level)
    requires CurrentVersion(t).Success? && CurrentVersion(t).value.Final? && t.ledger.Valid() && t.ledger.releases != []
    requires OffersReopen(level) && OffersReopen(agentcoreLevel)
    ensures DecideCommandReopen(t, level, agentcoreLevel, true).Success?
  {
    hide CurrentVersion, ValidReleases;
    LatestIsFinal(t.ledger);
  }

  /** At a tagged release a reopen succeeds if and only if both changelogs can take
      `## Unreleased`. Refused, it has written the next main version, although the gate had
      nothing to report: the gate reads neither changelog. */
  lemma ReopenSucceedsExactly(s: State, level: Level, agentcoreLevel: Level, tools: Tools, seen: set<Inputs>)
    requires Inv(s, tools, seen) && IsTagged(s)
    requires OffersReopen(level) && OffersReopen(agentcoreLevel)
    ensures var done := CommandReopen(s.tree, level, agentcoreLevel, true, tools);
            && (done.result.Success? <==>
                  EnsureUnreleased(s.tree.changelog).Success? && EnsureUnreleased(s.tree.sdkChangelog).Success?)
            && (done.result.Failure? ==> done.tree != s.tree)
            && StateFindings(s.tree, MainVersion(s.tree).value, LastTag(s).ledger, tools.hash) == []
  {
    hide CommandReopen, Inv, DeclaredValues, PackagesDeclareOnce, AbiRevisionOf, EnsureUnreleased, StateFindings,
         MainVersion, FindTag, ReopenRefusal;
    GatePasses(s, tools, seen);
    InvDeclares(s, tools, seen);
    ReopenIsDecided(s.tree, level, agentcoreLevel);
    ReopenRefusalIff(s.tree, level, agentcoreLevel, true);
    CommandReopenOutcome(s.tree, level, agentcoreLevel, true, tools);
  }

  lemma ReachableReopenSucceedsExactly(s: State, events: seq<Event>, level: Level, agentcoreLevel: Level, tools: Tools)
    requires MayStart(s, events, tools) && IsTagged(Run(s, events, tools))
    requires OffersReopen(level) && OffersReopen(agentcoreLevel)
    ensures var r := Run(s, events, tools);
            var done := CommandReopen(r.tree, level, agentcoreLevel, true, tools);
            && (done.result.Success? <==>
                  EnsureUnreleased(r.tree.changelog).Success? && EnsureUnreleased(r.tree.sdkChangelog).Success?)
            && (done.result.Failure? ==> done.tree != r.tree)
            && StateFindings(r.tree, MainVersion(r.tree).value, LastTag(r).ledger, tools.hash) == []
  {
    hide Run, Inv, InputsSeen, CollisionFree, CommandReopen, EnsureUnreleased, StateFindings, FindTag;
    RunHoldsInv(s, events, tools);
    ReopenSucceedsExactly(Run(s, events, tools), level, agentcoreLevel, tools, InputsSeen(s, events));
  }

  // ---------------------------------------------------------------- a release that cannot be reopened

  lemma ReuseKeepsSdkChangelog(t: Tree, lastTag: VersionText, request: Request, tools: Tools)
    requires CommandCut(t, lastTag, request, tools).result.Success?
    requires CommandCut(t, lastTag, request, tools).result.value.plan.kind.Reused?
    ensures CommandCut(t, lastTag, request, tools).tree.sdkChangelog == t.sdkChangelog
  {
    hide CommandCut, WriteCut, FactsOf, SameSources, MainFilesSay, PackageFindings, RewriteChangelog,
         ChosenVersion, PlanCut, ValidReleases, Grows;
    var cut := CommandCut(t, lastTag, request, tools).result.value;
    CutParts(t, lastTag, request, tools);
    KindIsPlanned(t, lastTag, request, tools);
    CutIsDone(t, Final(cut.main), request.date, Final(cut.plan.version), request.date, tools);
    SdkChangelogOfFacts(t, tools.hash);
  }

  /** The states after the cut, and after its tag. */
  function AfterCut(s: State, request: Request, tools: Tools): State
    requires s.tags != []
  {
    var after := CommandCut(s.tree, Final(LastTag(s).version), request, tools).tree;
    s.(tree := after, work := after)
  }

  function AfterTag(s: State, main: Version): State {
    s.(tags := s.tags + [Tag(main, Some(s.tree.ledger))])
  }

  lemma CutStep(s: State, request: Request, tools: Tools)
    requires s.tags != [] && s.work == s.tree
    requires CommandCut(s.tree, Final(LastTag(s).version), request, tools).result.Success?
    ensures Next(s, CutRelease(request), tools) == Some(AfterCut(s, request, tools))
  {
    hide CommandCut;
  }

  lemma TagStep(s: State, main: Version, tools: Tools)
    requires s.tags != [] && MainVersion(s.tree) == Some(Final(main)) && FindTag(s.tags, main).None?
    ensures Next(s, TagRelease, tools) == Some(AfterTag(s, main)) && IsTagged(AfterTag(s, main))
  {
    hide CommandCut, CommandReopen, MainVersion, FindTag, EditAllowed, AgentCoreAssets;
    var tag := Tag(main, Some(s.tree.ledger));
    FoundTag(s.tags + [tag], main);
    assert (s.tags + [tag])[|s.tags|] == tag;
  }

  lemma NewMainIsUntagged(s: State, main: Version)
    requires s.tags != [] && TagsAscend(s.tags) && Less(LastTag(s).version, main)
    ensures FindTag(s.tags, main).None?
  {
    FoundTag(s.tags, main);
    if FindTag(s.tags, main).Some? { LastTagIsHighest(s, FindTag(s.tags, main).value); }
  }

  lemma CutAndTag(s: State, request: Request, tools: Tools, seen: set<Inputs>)
    requires Inv(s, tools, seen) && CollisionFree(tools.hash, seen) && s.work == s.tree
    requires CommandCut(s.tree, Final(LastTag(s).version), request, tools).result.Success?
    ensures var main := CommandCut(s.tree, Final(LastTag(s).version), request, tools).result.value.main;
            var cut := AfterCut(s, request, tools);
            && Next(s, CutRelease(request), tools) == Some(cut)
            && Next(cut, TagRelease, tools) == Some(AfterTag(cut, main))
            && Inv(AfterTag(cut, main), tools, seen) && IsTagged(AfterTag(cut, main))
            && MainVersion(cut.tree) == Some(Final(main))
  {
    hide CommandCut, Next, Inv, IsTagged, CollisionFree, MainVersion, FindTag, TreeConsistent, RevisionsRecorded,
         TagsAscend, LastMain, Grows, Files, InputsOf;
    InvTags(s, tools, seen);
    var lastTag := LastTag(s).version;
    var cut := AfterCut(s, request, tools);
    var main := CommandCut(s.tree, Final(lastTag), request, tools).result.value.main;
    CutStep(s, request, tools);
    CutEffect(s.tree, Final(lastTag), request, tools, seen);
    CutKeepsInv(s, request, tools, seen);
    NewMainIsUntagged(s, main);
    TagStep(cut, main, tools);
    TagKeepsInv(cut, main, tools, seen);
  }

  /** A reopen that is refused after writing, as a step. */
  lemma RefusedReopenStep(s: State, level: Level, agentcoreLevel: Level, tools: Tools)
    requires s.tags != [] && s.work == s.tree && IsTagged(s)
    requires var done := CommandReopen(s.tree, level, agentcoreLevel, true, tools);
             done.result.Failure? && done.tree != s.tree
    ensures var next := Next(s, Reopen(level, agentcoreLevel), tools);
            next.Some? && next.value.tree == s.tree && next.value.work != s.tree
  {
    hide CommandReopen, CommandCut, IsTagged;
  }

  /** A decided reuse from a checkout whose AgentCore changelog has neither `## Unreleased` nor
      a release heading: the cut and the tag go through and the gate finds nothing, but the
      release cannot be reopened, and each attempt leaves the checkout changed. */
  lemma ReuseThatCannotReopen(s: State, request: Request, level: Level, agentcoreLevel: Level, tools: Tools,
                              seen: set<Inputs>)
    requires Inv(s, tools, seen) && CollisionFree(tools.hash, seen) && s.work == s.tree
    requires EnsureUnreleased(s.tree.sdkChangelog).Failure?
    requires var decided := DecideCommandCut(s.tree, Final(LastTag(s).version), request, tools.hash);
             decided.Success? && decided.value.plan.kind.Reused?
    requires OffersReopen(level) && OffersReopen(agentcoreLevel)
    ensures var main := DecideCommandCut(s.tree, Final(LastTag(s).version), request, tools.hash).value.main;
            var cut := AfterCut(s, request, tools);
            var tagged := AfterTag(cut, main);
            && Next(s, CutRelease(request), tools) == Some(cut)
            && Next(cut, TagRelease, tools) == Some(tagged)
            && IsTagged(tagged) && MainVersion(tagged.tree) == Some(Final(main))
            && StateFindings(tagged.tree, Final(main), LastTag(tagged).ledger, tools.hash) == []
            && var reopened := Next(tagged, Reopen(level, agentcoreLevel), tools);
               reopened.Some? && reopened.value.tree == tagged.tree && reopened.value.work != tagged.tree
  {
    hide CommandCut, DecideCommandCut, CommandReopen, Next, Inv, IsTagged, CollisionFree, BuildIsReady,
         EnsureUnreleased, StateFindings, MainVersion, TreeConsistent, RevisionsRecorded, TagsAscend, Files,
         InputsOf, CutGoesThrough;
    InvTags(s, tools, seen);
    var lastTag := Final(LastTag(s).version);
    CutSucceedsExactly(s, request, tools, seen);
    CommandCutOutcome(s.tree, lastTag, request, tools);
    ReuseKeepsSdkChangelog(s.tree, lastTag, request, tools);
    CutAndTag(s, request, tools, seen);
    var main := DecideCommandCut(s.tree, lastTag, request, tools.hash).value.main;
    var tagged := AfterTag(AfterCut(s, request, tools), main);
    InvTags(tagged, tools, seen);
    ReopenSucceedsExactly(tagged, level, agentcoreLevel, tools, seen);
    RefusedReopenStep(tagged, level, agentcoreLevel, tools);
  }
}
