/** The fast path accepts every generated cut and reopen, and nothing that differs from one. */
module FastPathProofs {
  import opened Results
  import opened Versions
  import opened Ledgers
  import opened Changelog
  import opened Trees
  import opened Cuts
  import opened Planning
  import opened Effects
  import opened FastPath
  import ChangelogProofs
  import LifecycleProofs
  import Refusals

  // ---------------------------------------------------------------- soundness

  /** Outside the generated files a tree is its other files. */
  lemma OutsideGenerated(a: Tree, b: Tree, name: string)
    requires a.others == b.others && name !in GENERATED
    ensures name in Files(a) <==> name in Files(b)
    ensures name in Files(a) ==> Files(a)[name] == Files(b)[name]
  {
  }

  lemma ReopenKeepsSources(t: Tree, main: VersionText, target: VersionText, tools: Tools)
    ensures SameSources(t, WriteReopen(t, main, target, tools).tree)
  {
    hide Changelog.EnsureUnreleased, ReopenTarget, SetDeclared, DeclaredValues;
    ApplyVersionEffect(t, main);
    if target.IsVersion() {
      SetSdkVersionEffect(WriteMainReopen(t, main).tree, target);
    }
  }

  lemma BumpKeepsSources(base: Tree, candidate: Tree, tools: Tools)
    requires Regenerated(base, candidate, tools).Success?
    ensures SameSources(base, Regenerated(base, candidate, tools).value.1)
  {
    hide WriteCut, WriteReopen, MainVersion, ChangelogDate, SdkDate, SetDeclared, DeclaredValues;
    var version := MainVersion(candidate).value;
    if IsDevText(MainVersion(base).value) && version.Final? {
      var date := ChangelogDate(candidate.changelog, Render(version)).value;
      WriteCutEffect(base, version, date, candidate.sdkVersion, SdkDate(candidate), tools);
    } else {
      ReopenKeepsSources(base, version, candidate.sdkVersion, tools);
    }
  }

  /** An accepted candidate is the regeneration of its base, file for file, so it is built
      from its base's AgentCore inputs. */
  lemma AcceptedIsTheRegeneration(base: Tree, candidate: Tree, tools: Tools)
    requires Verified(base, candidate, tools).Success?
    ensures var regenerated := Regenerated(base, candidate, tools);
            && regenerated.Success? && regenerated.value.0 == Verified(base, candidate, tools).value
            && Files(candidate) == Files(regenerated.value.1)
            && (forall name | name !in GENERATED && name in Files(base).Keys + Files(candidate).Keys ::
                  name in Files(base) && name in Files(candidate) && Files(candidate)[name] == Files(base)[name])
            && InputDigest(candidate, tools.hash) == InputDigest(base, tools.hash)
  {
    hide Regenerated, Files, InputsOf;
    var tree := Regenerated(base, candidate, tools).value.1;
    BumpKeepsSources(base, candidate, tools);
    DigestIgnoresVersions(base, tree, tools.hash);
    var b, c, r := Files(base), Files(candidate), Files(tree);
    forall name | name !in GENERATED && name in b.Keys + c.Keys
      ensures name in b && name in c && c[name] == b[name]
    {
      assert name !in ChangedPaths(b, c);
    }
    forall name | name !in GENERATED ensures (name in r <==> name in c) && (name in r ==> r[name] == c[name]) {
      OutsideGenerated(base, tree, name);
      assert name in b.Keys + c.Keys <==> name in b || name in c;
    }
    assert r.Keys == c.Keys by {
      forall name ensures name in r <==> name in c {
        if name in GENERATED {}
      }
    }
    assert r == c;
  }

  // ---------------------------------------------------------------- completeness

  lemma SdkDateOnlyForBuilds(f: Facts, version: VersionText, main: VersionText, a: string, b: string)
    requires DecideCut(f, version, main, a).Success? && DecideCut(f, version, main, a).value.kind.Reused?
    ensures DecideCut(f, version, main, b) == DecideCut(f, version, main, a)
  {
  }

  /** The decision of a built release rewrote the changelog with its version and date. */
  lemma BuiltRewrites(f: Facts, version: VersionText, main: VersionText, date: string)
    requires DecideCut(f, version, main, date).Success? && DecideCut(f, version, main, date).value.kind.Built?
    ensures version.Final?
    ensures var rewritten := RewriteChangelog(f.sdkChangelog, Render(version), date, SDK_SUBSECTIONS);
            rewritten.Success? && DecideCut(f, version, main, date).value.sdkChangelog == rewritten.value.text
  {
    hide Carrying, Appended, RewriteChangelog, ValidReleases, FirstOfVersion;
  }

  lemma DateReadsBack(text: string, version: VersionText, date: string, subsections: seq<string>)
    requires version.Final? && IsDate(date)
    requires RewriteChangelog(text, Render(version), date, subsections).Success?
    ensures var cut := RewriteChangelog(text, Render(version), date, subsections).value;
            ChangelogDate(cut.text, Render(version)) == Some(date)
  {
    hide RewriteChangelog, ChangelogDate;
    FmtIsDotted(version.v);
    ChangelogProofs.CutFileReads(text, Render(version), date, subsections);
  }

  lemma BuiltDateReadsBack(f: Facts, version: VersionText, main: VersionText, date: string, after: Tree)
    requires DecideCut(f, version, main, date).Success? && DecideCut(f, version, main, date).value.kind.Built?
    requires IsDate(date) && after.sdkVersion == version
    requires after.sdkChangelog == DecideCut(f, version, main, date).value.sdkChangelog
    ensures SdkDate(after) == date
  {
    hide DecideCut, RewriteChangelog, ChangelogDate;
    BuiltRewrites(f, version, main, date);
    DateReadsBack(f.sdkChangelog, version, date, SDK_SUBSECTIONS);
  }

  lemma SameDecisionSameCut(t: Tree, main: VersionText, date: string, version: VersionText, a: string, b: string,
                            tools: Tools)
    requires DecideCut(FactsOf(t, tools.hash), version, main, a) == DecideCut(FactsOf(t, tools.hash), version, main, b)
    ensures WriteCut(t, main, date, version, a, tools) == WriteCut(t, main, date, version, b, tools)
  {
    hide DecideCut, FactsOf, ApplyVersion, RewriteChangelog, Finalized, SetDeclared, DeclaredValues;
    ApplyVersionEffect(t, main);
    var prepared := WriteMainCut(t, main, date).tree;
    MainFilesDoNotMatter(t, prepared, version, main, a, tools.hash);
  }

  lemma RecoveredDatesReplay(t: Tree, main: VersionText, date: string, version: VersionText, sdkDate: string,
                             tools: Tools)
    requires main.Final? && IsDate(date) && IsDate(sdkDate)
    requires WriteCut(t, main, date, version, sdkDate, tools).result.Success?
    ensures var after := WriteCut(t, main, date, version, sdkDate, tools).tree;
            && ChangelogDate(after.changelog, Render(main)) == Some(date)
            && WriteCut(t, main, date, after.sdkVersion, SdkDate(after), tools)
               == WriteCut(t, main, date, version, sdkDate, tools)
  {
    hide ChangelogDate, RewriteChangelog, WriteCut, DecideCut, FactsOf, SdkDate, SetDeclared, DeclaredValues,
         IsDate;
    var after := WriteCut(t, main, date, version, sdkDate, tools).tree;
    WriteCutEffect(t, main, date, version, sdkDate, tools);
    DateReadsBack(t.changelog, main, date, MAIN_SUBSECTIONS);
    var f := FactsOf(t, tools.hash);
    if DecideCut(f, version, main, sdkDate).value.kind.Built? {
      BuiltDateReadsBack(f, version, main, sdkDate, after);
    } else {
      SdkDateOnlyForBuilds(f, version, main, sdkDate, SdkDate(after));
      SameDecisionSameCut(t, main, date, version, sdkDate, SdkDate(after), tools);
    }
  }

  lemma NewMainVersionShows(a: Tree, b: Tree)
    requires MainVersion(a).Some? && MainVersion(b).Some? && MainVersion(a) != MainVersion(b)
    ensures ChangedPaths(Files(a), Files(b)) != {}
  {
    FileAt(a);
    FileAt(b);
    assert ZON in ChangedPaths(Files(a), Files(b));
  }

  lemma OnlyGeneratedChanged(a: Tree, b: Tree)
    requires a.others == b.others
    ensures forall name <- ChangedPaths(Files(a), Files(b)) :: name in GENERATED
  {
    forall name | name in ChangedPaths(Files(a), Files(b)) ensures name in GENERATED {
      if name !in GENERATED {
        OutsideGenerated(a, b, name);
      }
    }
  }

  lemma SameAsItself(t: Tree)
    ensures SameGenerated(Files(t), Files(t))
  {
  }

  /** Every generated cut is accepted: its versions and dates are read back from it. */
  lemma EveryCutIsAccepted(base: Tree, main: VersionText, date: string, version: VersionText, sdkDate: string,
                           tools: Tools)
    requires MainVersion(base).Some? && MainVersion(base).value.Dev? && main.Final?
    requires IsDate(date) && IsDate(sdkDate)
    requires WriteCut(base, main, date, version, sdkDate, tools).result.Success?
    ensures Verified(base, WriteCut(base, main, date, version, sdkDate, tools).tree, tools)
            == Success(BumpFound(IsCut, main))
  {
    hide WriteCut, WriteReopen, MainVersion, ChangelogDate, SdkDate, Files, SameGenerated, ChangedPaths,
         DecideCut, RewriteChangelog;
    var candidate := WriteCut(base, main, date, version, sdkDate, tools).tree;
    WriteCutEffect(base, main, date, version, sdkDate, tools);
    MainFilesAreRead(candidate, main);
    RecoveredDatesReplay(base, main, date, version, sdkDate, tools);
    NewMainVersionShows(base, candidate);
    OnlyGeneratedChanged(base, candidate);
    SameAsItself(candidate);
  }

  /** Every generated reopen is accepted. */
  lemma EveryReopenIsAccepted(base: Tree, main: VersionText, target: VersionText, tools: Tools)
    requires MainVersion(base).Some? && MainVersion(base).value.Final? && main.Dev? && target.IsVersion()
    requires WriteReopen(base, main, target, tools).result.Success?
    ensures Verified(base, WriteReopen(base, main, target, tools).tree, tools) == Success(BumpFound(IsReopen, main))
  {
    hide WriteCut, WriteReopen, MainVersion, ChangelogDate, SdkDate, Files, SameGenerated, ChangedPaths,
         EnsureUnreleased, PackageFindings, MainFilesSay, CurrentVersion;
    var candidate := WriteReopen(base, main, target, tools).tree;
    WriteReopenEffect(base, main, target, tools);
    MainFilesAreRead(candidate, main);
    NewMainVersionShows(base, candidate);
    OnlyGeneratedChanged(base, candidate);
    SameAsItself(candidate);
  }

  lemma ReopenReadsVersion(t: Tree, level: Level, agentcoreLevel: Level, tagged: bool, tools: Tools)
    requires CommandReopen(t, level, agentcoreLevel, tagged, tools).result.Success?
    ensures CurrentVersion(t).Success? && MainVersion(t) == Some(CurrentVersion(t).value)
  {
    hide WriteReopen, NextDev, ReopenTarget;
  }

  /** What the two commands produce from a base always takes the fast path. */
  lemma CommandsTakeTheFastPath(base: Tree, lastTag: VersionText, request: Request, level: Level, agentcoreLevel: Level,
                                tagged: bool, tools: Tools)
    requires lastTag.Final? && IsDate(request.date)
    ensures var cut := CommandCut(base, lastTag, request, tools);
            cut.result.Success? ==>
              Verified(base, cut.tree, tools) == Success(BumpFound(IsCut, Final(cut.result.value.main)))
    ensures var reopened := CommandReopen(base, level, agentcoreLevel, tagged, tools);
            reopened.result.Success? && CurrentVersion(base).value.Final? ==>
              && MainVersion(reopened.tree).Some?
              && Verified(base, reopened.tree, tools) == Success(BumpFound(IsReopen, MainVersion(reopened.tree).value))
  {
    hide CommandCut, CommandReopen, WriteCut, WriteReopen, Verified, ChosenVersion, NextDev, ReopenTarget,
         EnsureUnreleased, ValidReleases;
    var cut := CommandCut(base, lastTag, request, tools);
    if cut.result.Success? {
      LifecycleProofs.CutParts(base, lastTag, request, tools);
      Refusals.ChosenIsAbove(base, lastTag, request);
      EveryCutIsAccepted(base, Final(cut.result.value.main), request.date, Final(cut.result.value.plan.version),
                         request.date, tools);
    }
    var reopened := CommandReopen(base, level, agentcoreLevel, tagged, tools);
    if reopened.result.Success? {
      ReopenReadsVersion(base, level, agentcoreLevel, tagged, tools);
      var main := CurrentVersion(base).value;
      if main.Final? {
        LifecycleProofs.ReopenParts(base, main, level, agentcoreLevel, tagged, tools);
        var target, agentcoreTarget := NextDev(main, level).value, ReopenTarget(base.ledger, agentcoreLevel).value;
        WriteReopenEffect(base, target, agentcoreTarget, tools);
        MainFilesAreRead(reopened.tree, target);
        EveryReopenIsAccepted(base, target, agentcoreTarget, tools);
      }
    }
  }
}
