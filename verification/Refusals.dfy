/** When a cut or a reopen succeeds, and when a refused one has written nothing. */
module Refusals {
  import opened Results
  import opened Versions
  import opened Ledgers
  import opened Lines
  import opened Changelog
  import opened Commits
  import opened Trees
  import opened Cuts
  import opened Planning
  import ChangelogProofs

  // ---------------------------------------------------------------- AgentCore's cut

  /** The facts under which a cut at `version` reuses the latest release. */
  predicate CanReuse(f: Facts, version: VersionText, main: VersionText) {
    && f.ledger.releases != []
    && var latest := f.ledger.releases[|f.ledger.releases| - 1];
       f.digest == latest.inputDigest && version == latest.version && FollowsTheLedger(f.ledger, main)
  }

  /** The facts under which it builds a new one. */
  predicate CanBuild(f: Facts, version: Version, main: VersionText, date: string)
    requires f.sdkVersion.IsVersion()
  {
    AtMost(f.sdkVersion.v, version) && AboveLedger(f.ledger, version) && Buildable(f, version, main, date)
  }

  /** What a caller can check before the call. */
  predicate CutAllowed(f: Facts, version: VersionText, main: VersionText, date: string) {
    && version.Final? && f.sdkVersion.Dev? && f.ledger.Valid() && f.abiRevision.Success?
    && (CanReuse(f, version, main) || CanBuild(f, version.v, main, date))
  }

  lemma NewVersionIsAbsent(ledger: Ledger, version: VersionText)
    requires ledger.Valid() && version.Final?
    ensures AboveLedger(ledger, version.v) ==> ledger.ByVersion(version).None?
  {
    hide ValidReleases;
    if AboveLedger(ledger, version.v) {
      forall r | r in ledger.releases ensures r.version != version { LatestTopsTheLedger(ledger, r); }
      VersionAbsent(ledger.releases, version);
    }
  }

  lemma DecidesIffAllowed(f: Facts, version: VersionText, main: VersionText, date: string)
    ensures DecideCut(f, version, main, date).Success? <==> CutAllowed(f, version, main, date)
    ensures DecideCut(f, version, main, date).Success? ==>
              (DecideCut(f, version, main, date).value.kind.Reused? <==> CanReuse(f, version, main))
  {
    hide ValidReleases, AbiFollows, ChangelogReady, DecideBuild, Carrying, FirstOfVersion, LastMain;
    if version.Final? && f.sdkVersion.Dev? && f.ledger.Valid() && f.abiRevision.Success? {
      BuildDecision(f, version.v, main, date);
      NewVersionIsAbsent(f.ledger, version);
      if f.ledger.releases != [] {
        CarryingAccepts(f.ledger, main);
        assert f.ledger.releases[|f.ledger.releases| - 1] in f.ledger.releases;
      }
    }
  }

  lemma {:induction false} SetToItself(text: Text, value: string)
    requires forall v <- DeclaredValues(text) :: v == value
    ensures SetDeclared(text, value) == text
  {
    if text == [] {
    } else {
      assert forall v <- DeclaredValues(text[1..]) :: v in DeclaredValues(text);
      SetToItself(text[1..], value);
      assert text == [text[0]] + text[1..];
      if text[0].Declared? { assert text[0].value in DeclaredValues(text); }
    }
  }

  /** Writing a version leaves a file as it is exactly when the file says it already. */
  lemma VersionTextUnchanged(text: Text, value: string)
    ensures SetVersionText(text, value) == Some(text) <==> DeclaredValues(text) == [value]
  {
    if DeclaredValues(text) == [value] { SetToItself(text, value); }
    if SetVersionText(text, value) == Some(text) { VersionTextIsSet(text, value); }
  }

  /** The packages stop the writing of `version` before anything changed: the first one that
      does not declare once comes after none but packages that say the version already. */
  predicate StopsUnchanged(t: Tree, version: VersionText) {
    || |DeclaredValues(t.pyProject)| != 1
    || (DeclaredValues(t.pyProject) == [PythonText(version)]
        && (|DeclaredValues(t.pyInit)| != 1
            || (DeclaredValues(t.pyInit) == [PythonText(version)] && |DeclaredValues(t.nodePackage)| != 1)))
  }

  lemma SetsWhenOnce(text: Text, value: string)
    ensures SetVersionText(text, value).Some? <==> |DeclaredValues(text)| == 1
  {
  }

  lemma SetStopsUnchanged(t: Tree, version: VersionText)
    requires version.IsVersion() && !PackagesDeclareOnce(t)
    ensures SetSdkVersion(t, version).tree == t <==> StopsUnchanged(t, version)
  {
    hide SetVersionText, SetDeclared;
    VersionTextUnchanged(t.pyProject, PythonText(version));
    VersionTextUnchanged(t.pyInit, PythonText(version));
    SetsWhenOnce(t.pyProject, PythonText(version));
    SetsWhenOnce(t.pyInit, PythonText(version));
    SetsWhenOnce(t.nodePackage, NodeText(version));
  }

  lemma SdkChangelogOfFacts(t: Tree, hash: Hash)
    ensures FactsOf(t, hash).sdkChangelog == t.sdkChangelog
  {
  }

  /** A build's decision rewrites the changelog, a reuse's does not. */
  lemma DecisionWrites(f: Facts, version: VersionText, main: VersionText, date: string)
    requires OneLine(date)
    ensures DecideCut(f, version, main, date).Success? ==>
              && version.Final?
              && (DecideCut(f, version, main, date).value.kind.Built? <==>
                    DecideCut(f, version, main, date).value.sdkChangelog != f.sdkChangelog)
  {
    hide RewriteChangelog, ValidReleases, FirstOfVersion, Fmt, HasMigration;
    if version.Final? && RewriteChangelog(f.sdkChangelog, Fmt(version.v), date, SDK_SUBSECTIONS).Success? {
      FmtIsDotted(version.v);
      DottedIsOneLine(Fmt(version.v));
      ChangelogProofs.RewriteChangesTheFile(f.sdkChangelog, Fmt(version.v), date, SDK_SUBSECTIONS);
    }
  }

  /** `apply_cut` succeeds if and only if the cut is allowed and every package declares its
      version once. Refused, it leaves the checkout as it was if and only if the cut was not
      allowed, or it is a reuse whose packages stop it before the first one changes: a
      build has rewritten AgentCore's changelog by then. */
  lemma ApplyCutOutcome(t: Tree, version: VersionText, main: VersionText, date: string, hash: Hash)
    requires OneLine(date)
    ensures var f, applied := FactsOf(t, hash), ApplyCut(t, version, main, date, hash);
            && (applied.result.Success? <==> CutAllowed(f, version, main, date) && PackagesDeclareOnce(t))
            && (applied.result.Failure? && applied.tree == t <==>
                  || !CutAllowed(f, version, main, date)
                  || (CanReuse(f, version, main) && !PackagesDeclareOnce(t) && StopsUnchanged(t, version)))
  {
    hide CutAllowed, CanReuse, StopsUnchanged, FactsOf, DecideCut, SetSdkVersion, DeclaredValues, SetDeclared;
    var f := FactsOf(t, hash);
    DecidesIffAllowed(f, version, main, date);
    DecisionWrites(f, version, main, date);
    SdkChangelogOfFacts(t, hash);
    var decision := DecideCut(f, version, main, date);
    if decision.Success? {
      var rewritten := t.(sdkChangelog := decision.value.sdkChangelog);
      SetSdkVersionEffect(rewritten, version);
      if decision.value.kind.Reused? {
        assert rewritten == t;
        if !PackagesDeclareOnce(t) { SetStopsUnchanged(t, version); }
      }
    }
  }

  // ---------------------------------------------------------------- the cut command

  /** When a main version is chosen at all. */
  lemma ChosenIff(t: Tree, lastTag: VersionText, request: Request)
    ensures ChosenVersion(t, lastTag, request).Success? <==>
              && CurrentVersion(t).Success? && CurrentVersion(t).value.Dev? && lastTag.Final?
              && !ChosenLevel(request).NoLevel?
              && (request.level.Explicit? && !request.force ==>
                    ChosenLevel(request).Rank() >= DerivedLevel(request.commits).Rank())
  {
    hide CurrentVersion;
    if CurrentVersion(t).Success? {
      ComputedVersionIsLeast(lastTag, CurrentVersion(t).value, ChosenLevel(request));
    }
  }

  /** What else a decided cut needs: the facts for its kind, and single declarations. */
  predicate CutGoesThrough(t: Tree, cut: Cut, date: string, hash: Hash) {
    && |DeclaredValues(t.zon)| == 1 && |DeclaredValues(t.versionZig)| == 1 && PackagesDeclareOnce(t)
    && (if cut.plan.kind.Built? then Buildable(FactsOf(t, hash), cut.plan.version, Final(cut.main), date)
        else FollowsTheLedger(t.ledger, Final(cut.main)))
  }

  lemma DecidedParts(t: Tree, lastTag: VersionText, request: Request, hash: Hash)
    requires DecideCommandCut(t, lastTag, request, hash).Success?
    ensures var cut := DecideCommandCut(t, lastTag, request, hash).value;
            && ChosenVersion(t, lastTag, request) == Success(cut.main)
            && RewriteChangelog(t.changelog, Fmt(cut.main), request.date, MAIN_SUBSECTIONS).Success?
            && PlanCut(t, request.agentcoreLevel, request.force, request.agentcoreCommits, hash) == Success(cut.plan)
            && CurrentVersion(t).Success? && CurrentVersion(t).value.Dev? && lastTag.Final?
  {
    hide ChosenVersion, RewriteChangelog, PlanCut, CutBody, CurrentVersion;
    ChosenIff(t, lastTag, request);
  }

  lemma ChosenIsAbove(t: Tree, lastTag: VersionText, request: Request)
    requires ChosenVersion(t, lastTag, request).Success? && lastTag.Final?
    ensures Less(lastTag.v, ChosenVersion(t, lastTag, request).value)
    ensures CurrentVersion(t).Success? && CurrentVersion(t).value.Dev?
    ensures AtMost(CurrentVersion(t).value.v, ChosenVersion(t, lastTag, request).value)
  {
    hide CurrentVersion;
    var derived := DerivedLevel(request.commits);
    var level := if request.level.Auto? then derived else request.level.level;
    ComputedVersionIsLeast(lastTag, CurrentVersion(t).value, level);
    var chosen := ChosenVersion(t, lastTag, request).value;
    assert AtMost(chosen, chosen);
  }

  /** A decided cut goes up: main above the tag and not below the checkout's version; AgentCore
      above every release and not below its own, or at the latest release that it reuses. */
  predicate CutsAbove(t: Tree, lastTag: VersionText, cut: Cut) {
    && lastTag.Final? && Less(lastTag.v, cut.main)
    && CurrentVersion(t).Success? && CurrentVersion(t).value.Dev? && AtMost(CurrentVersion(t).value.v, cut.main)
    && t.sdkVersion.Dev?
    && (if cut.plan.kind.Built? then AtMost(t.sdkVersion.v, cut.plan.version) && AboveLedger(t.ledger, cut.plan.version)
        else t.ledger.releases != [] && t.ledger.releases[|t.ledger.releases| - 1].version == Final(cut.plan.version))
  }

  lemma PlannedIsAbove(t: Tree, levelArg: LevelArg, force: bool, messages: Messages, hash: Hash)
    requires PlanCut(t, levelArg, force, messages, hash).Success?
    ensures var plan := PlanCut(t, levelArg, force, messages, hash).value;
            && t.sdkVersion.Dev?
            && (if plan.kind.Built? then AtMost(t.sdkVersion.v, plan.version) && AboveLedger(t.ledger, plan.version)
                else
                  && t.ledger.releases != []
                  && t.ledger.releases[|t.ledger.releases| - 1].version == Final(plan.version))
  {
    hide Files, InputsOf, AbiRevisionOf, ValidReleases, FirstOfVersion;
    PlannedBuildIsFresh(t, levelArg, force, messages, hash);
    if t.ledger.Valid() && t.ledger.releases != [] { LatestIsFinal(t.ledger); }
  }

  lemma DecidedIsAbove(t: Tree, lastTag: VersionText, request: Request, hash: Hash)
    requires DecideCommandCut(t, lastTag, request, hash).Success?
    ensures CutsAbove(t, lastTag, DecideCommandCut(t, lastTag, request, hash).value)
  {
    hide DecideCommandCut, ChosenVersion, RewriteChangelog, CurrentVersion;
    DecidedParts(t, lastTag, request, hash);
    ChosenIsAbove(t, lastTag, request);
    PlannedIsAbove(t, request.agentcoreLevel, request.force, request.agentcoreCommits, hash);
  }

  /** Planner and applier together: a decided cut is applied exactly as planned. */
  lemma PlannedCutIsApplied(t: Tree, lastTag: VersionText, request: Request, hash: Hash)
    requires DecideCommandCut(t, lastTag, request, hash).Success?
    ensures var cut := DecideCommandCut(t, lastTag, request, hash).value;
            var applied := ApplyCut(t, Final(cut.plan.version), Final(cut.main), request.date, hash);
            && (applied.result.Success? <==>
                  && PackagesDeclareOnce(t)
                  && (if cut.plan.kind.Built? then
                        Buildable(FactsOf(t, hash), cut.plan.version, Final(cut.main), request.date)
                      else FollowsTheLedger(t.ledger, Final(cut.main))))
            && (applied.result.Success? ==> applied.result.value == cut.plan.kind)
  {
    hide DecideCommandCut, PlanCut, ApplyCut, Buildable, FollowsTheLedger, PackagesDeclareOnce;
    DecidedParts(t, lastTag, request, hash);
    var cut := DecideCommandCut(t, lastTag, request, hash).value;
    if cut.plan.kind.Built? {
      PlannedBuildIsApplied(t, request.agentcoreLevel, request.force, request.agentcoreCommits, Final(cut.main),
                            request.date, hash);
    } else {
      PlannedReuseIsApplied(t, request.agentcoreLevel, request.force, request.agentcoreCommits, Final(cut.main),
                            request.date, hash);
    }
  }

  /** The first write of a cut or a reopen: the main version, which then differs. */
  lemma FirstWriteShows(t: Tree, main: VersionText)
    requires CurrentVersion(t).Success? && CurrentVersion(t).value != main && main.IsVersion()
    ensures var after := ApplyVersion(t, main);
            && (|DeclaredValues(t.zon)| != 1 ==> after.result.Failure? && after.tree == t)
            && (|DeclaredValues(t.zon)| == 1 ==> MainVersion(after.tree) == Some(main) && MainVersion(t) != Some(main))
  {
    ApplyVersionEffect(t, main);
    if |DeclaredValues(t.zon)| == 1 {
      DeclarationIsSet(t.zon, Render(main));
      ClassifiedText(main);
    }
  }

  lemma SameZon(a: Tree, b: Tree)
    ensures a.zon == b.zon ==> MainVersion(a) == MainVersion(b)
  {
  }

  lemma MainCutWrites(t: Tree, main: VersionText, date: string)
    requires CurrentVersion(t).Success? && CurrentVersion(t).value != main && main.IsVersion()
    requires RewriteChangelog(t.changelog, Render(main), date, MAIN_SUBSECTIONS).Success?
    ensures var prepared := WriteMainCut(t, main, date);
            && (prepared.result.Success? <==> |DeclaredValues(t.zon)| == 1 && |DeclaredValues(t.versionZig)| == 1)
            && (|DeclaredValues(t.zon)| != 1 ==> prepared.tree == t)
            && (|DeclaredValues(t.zon)| == 1 ==>
                  MainVersion(prepared.tree) == Some(main) && MainVersion(t) != Some(main))
            && SameSources(t, prepared.tree)
            && prepared.tree == t.(zon := prepared.tree.zon, versionZig := prepared.tree.versionZig,
                                   changelog := prepared.tree.changelog)
  {
    hide RewriteChangelog, CurrentVersion, DeclaredValues, SetDeclared;
    FirstWriteShows(t, main);
    ApplyVersionEffect(t, main);
    SameZon(ApplyVersion(t, main).tree, WriteMainCut(t, main, date).tree);
  }

  /** AgentCore's half of a cut never touches the main version. */
  lemma ApplyCutKeepsZon(t: Tree, version: VersionText, main: VersionText, date: string, hash: Hash)
    ensures ApplyCut(t, version, main, date, hash).tree.zon == t.zon
  {
    hide DecideCut, FactsOf, SetVersionText;
  }

  /** `cmd_cut`, exactly. It succeeds if and only if the cut is decided, every file declares
      its version once and the facts hold for what was planned; then it did what was planned.
      Refused, it has written nothing if and only if it was refused while deciding or the
      main version is not declared once: every later refusal - by the applier as well - comes
      after the checkout already says the new main version. */
  lemma CommandCutOutcome(t: Tree, lastTag: VersionText, request: Request, tools: Tools)
    ensures var decided := DecideCommandCut(t, lastTag, request, tools.hash);
            var done := CommandCut(t, lastTag, request, tools);
            && (done.result.Success? <==>
                  decided.Success? && CutGoesThrough(t, decided.value, request.date, tools.hash))
            && (done.result.Success? ==> done.result == decided)
            && (done.result.Failure? && done.tree == t <==> decided.Failure? || |DeclaredValues(t.zon)| != 1)
            && (decided.Success? && |DeclaredValues(t.zon)| == 1 ==>
                  MainVersion(done.tree) == Some(Final(decided.value.main)))
  {
    hide DecideCommandCut, RewriteChangelog, PlanCut, ApplyCut, FactsOf, WriteMainCut, MainVersion,
         CurrentVersion, Buildable, FollowsTheLedger, DeclaredValues, PackagesDeclareOnce, SameSources;
    var decided := DecideCommandCut(t, lastTag, request, tools.hash);
    if decided.Success? {
      var main, version := Final(decided.value.main), Final(decided.value.plan.version);
      DecidedParts(t, lastTag, request, tools.hash);
      PlannedCutIsApplied(t, lastTag, request, tools.hash);
      MainCutWrites(t, main, request.date);
      var prepared := WriteMainCut(t, main, request.date);
      if prepared.result.Success? {
        MainFilesDoNotMatter(t, prepared.tree, version, main, request.date, tools.hash);
        ApplyCutKeepsZon(prepared.tree, version, main, request.date, tools.hash);
        var cut := ApplyCut(prepared.tree, version, main, request.date, tools.hash);
        SameZon(prepared.tree, cut.tree);
        SameZon(cut.tree, Repinned(cut.tree, tools));
      }
    }
  }

  lemma KindIsPlanned(t: Tree, lastTag: VersionText, request: Request, tools: Tools)
    requires CommandCut(t, lastTag, request, tools).result.Success?
    ensures var cut := CommandCut(t, lastTag, request, tools).result.value;
            WriteCut(t, Final(cut.main), request.date, Final(cut.plan.version), request.date, tools).result
            == Success(cut.plan.kind)
  {
    hide DecideCommandCut, RewriteChangelog, ApplyCut, FactsOf, WriteMainCut, CurrentVersion, Buildable,
         FollowsTheLedger, DeclaredValues, PackagesDeclareOnce, SameSources;
    var cut := CommandCut(t, lastTag, request, tools).result.value;
    var main, version := Final(cut.main), Final(cut.plan.version);
    DecidedParts(t, lastTag, request, tools.hash);
    PlannedCutIsApplied(t, lastTag, request, tools.hash);
    MainCutWrites(t, main, request.date);
    MainFilesDoNotMatter(t, WriteMainCut(t, main, request.date).tree, version, main, request.date, tools.hash);
  }

  // ---------------------------------------------------------------- the reopen command

  /** A decided reopen goes up: to `-dev` versions above the release and above the ledger. */
  predicate ReopensAbove(t: Tree, to: Reopening) {
    && CurrentVersion(t).Success? && CurrentVersion(t).value.Final?
    && to.main.Dev? && Less(CurrentVersion(t).value.v, to.main.v)
    && t.ledger.releases != []
    && var latest := t.ledger.releases[|t.ledger.releases| - 1];
       latest.version.Final? && to.sdk.Dev? && Less(latest.version.v, to.sdk.v)
  }

  lemma ReopeningParts(t: Tree, level: Level, agentcoreLevel: Level, tagged: bool)
    requires DecideCommandReopen(t, level, agentcoreLevel, tagged).Success?
    ensures tagged && ReopensAbove(t, DecideCommandReopen(t, level, agentcoreLevel, tagged).value)
  {
    hide CurrentVersion, ValidReleases;
    var released := CurrentVersion(t).value.v;
    BumpIsTheNextOfItsLevel(released, level, released);
    LatestIsFinal(t.ledger);
    BumpIsTheNextOfItsLevel(t.ledger.Latest().value.version.v, agentcoreLevel, released);
  }

  /** What a decided reopen still needs. */
  predicate ReopenGoesThrough(t: Tree, to: Reopening) {
    && |DeclaredValues(t.zon)| == 1 && |DeclaredValues(t.versionZig)| == 1 && PackagesDeclareOnce(t)
    && EnsureUnreleased(t.changelog).Success? && EnsureUnreleased(t.sdkChangelog).Success?
    && ReopenRefusal(t, to.sdk).None?
  }

  /** AgentCore's own refusal, for the two levels the command line offers. */
  lemma ReopenRefusalIff(t: Tree, level: Level, agentcoreLevel: Level, tagged: bool)
    requires DecideCommandReopen(t, level, agentcoreLevel, tagged).Success?
    requires (agentcoreLevel.Patch? || agentcoreLevel.Minor?)
    ensures ReopenRefusal(t, DecideCommandReopen(t, level, agentcoreLevel, tagged).value.sdk).None?
            <==> t.sdkVersion.Final?
  {
    hide CurrentVersion, NextDev, ValidReleases;
  }

  lemma ReopenRefusalReads(a: Tree, b: Tree, target: VersionText)
    requires a.sdkVersion == b.sdkVersion && a.ledger == b.ledger
    ensures ReopenRefusal(a, target) == ReopenRefusal(b, target)
  {
  }

  lemma MainReopenWrites(t: Tree, main: VersionText)
    requires CurrentVersion(t).Success? && CurrentVersion(t).value != main && main.IsVersion()
    ensures var prepared := WriteMainReopen(t, main);
            && (prepared.result.Success? <==>
                  && |DeclaredValues(t.zon)| == 1 && |DeclaredValues(t.versionZig)| == 1
                  && EnsureUnreleased(t.changelog).Success?)
            && (|DeclaredValues(t.zon)| != 1 ==> prepared.tree == t)
            && (|DeclaredValues(t.zon)| == 1 ==>
                  MainVersion(prepared.tree) == Some(main) && MainVersion(t) != Some(main))
            && prepared.tree == t.(zon := prepared.tree.zon, versionZig := prepared.tree.versionZig,
                                   changelog := prepared.tree.changelog)
  {
    hide EnsureUnreleased, CurrentVersion, DeclaredValues, SetDeclared;
    FirstWriteShows(t, main);
    ApplyVersionEffect(t, main);
    SameZon(ApplyVersion(t, main).tree, WriteMainReopen(t, main).tree);
  }

  lemma ApplyReopenDoes(t: Tree, target: VersionText)
    requires target.IsVersion()
    ensures var after := ApplyReopen(t, target);
            && after.tree.zon == t.zon
            && (after.result.Success? <==>
                  ReopenRefusal(t, target).None? && PackagesDeclareOnce(t) && EnsureUnreleased(t.sdkChangelog).Success?)
  {
    hide EnsureUnreleased, ReopenTarget, DeclaredValues, SetDeclared;
    SetSdkVersionEffect(t, target);
  }

  lemma SamePackages(a: Tree, b: Tree)
    requires a.pyProject == b.pyProject && a.pyInit == b.pyInit && a.nodePackage == b.nodePackage
    ensures PackagesDeclareOnce(a) == PackagesDeclareOnce(b)
  {
  }

  /** `cmd_reopen`, exactly: as for the cut, every refusal after the decisions leaves the
      checkout at the next main version. */
  lemma CommandReopenOutcome(t: Tree, level: Level, agentcoreLevel: Level, tagged: bool, tools: Tools)
    ensures var decided := DecideCommandReopen(t, level, agentcoreLevel, tagged);
            var done := CommandReopen(t, level, agentcoreLevel, tagged, tools);
            && (done.result.Success? <==> decided.Success? && ReopenGoesThrough(t, decided.value))
            && (done.result.Failure? && done.tree == t <==> decided.Failure? || |DeclaredValues(t.zon)| != 1)
            && (decided.Success? && |DeclaredValues(t.zon)| == 1 ==> MainVersion(done.tree) == Some(decided.value.main))
  {
    hide DecideCommandReopen, EnsureUnreleased, WriteMainReopen, ApplyReopen, ReopenRefusal, MainVersion,
         CurrentVersion, DeclaredValues, PackagesDeclareOnce;
    var decided := DecideCommandReopen(t, level, agentcoreLevel, tagged);
    if decided.Success? {
      var to := decided.value;
      ReopeningParts(t, level, agentcoreLevel, tagged);
      MainReopenWrites(t, to.main);
      var prepared := WriteMainReopen(t, to.main);
      if prepared.result.Success? {
        ApplyReopenDoes(prepared.tree, to.sdk);
        ReopenRefusalReads(t, prepared.tree, to.sdk);
        SamePackages(t, prepared.tree);
        var reopened := ApplyReopen(prepared.tree, to.sdk);
        SameZon(prepared.tree, reopened.tree);
        SameZon(reopened.tree, Repinned(reopened.tree, tools));
      }
    }
  }
}
