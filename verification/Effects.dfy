/** What a successful cut and a successful reopen have done to the checkout. */
module Effects {
  import opened Results
  import opened Versions
  import opened Ledgers
  import opened Changelog
  import opened Trees
  import opened Cuts
  import opened Planning

  /** The ledger of a successful cut: it grew, and its last entry is the cut's version,
      with the digest of the inputs, carried last by the main release. */
  predicate Recorded(f: Facts, version: VersionText, main: VersionText, d: Decision) {
    && d.ledger.Valid() && Grows(f.ledger, d.ledger)
    && d.ledger.releases != []
    && var latest := d.ledger.releases[|d.ledger.releases| - 1];
       && latest.version == version && version.Final?
       && latest.inputDigest == f.digest
       && latest.mainReleases != [] && latest.mainReleases[|latest.mainReleases| - 1] == main
       && Mains(d.ledger.releases) == Mains(f.ledger.releases) + [main]
       && (if d.kind.Reused? then
             && f.ledger.Latest().Some? && f.ledger.Latest().value.inputDigest == f.digest
             && latest.Identity() == f.ledger.Latest().value.Identity()
             && |d.ledger.releases| == |f.ledger.releases|
             && d.sdkChangelog == f.sdkChangelog
           else
             && f.abiRevision.Success? && f.abiVersion.Success?
             && latest == NewRelease(version, f.abiVersion.value, f.abiRevision.value, f.digest, main)
             && d.ledger.releases == f.ledger.releases + [latest])
  }

  lemma ReuseRecords(f: Facts, main: VersionText)
    requires f.ledger.Valid() && f.ledger.releases != []
    requires f.digest == f.ledger.Latest().value.inputDigest
    ensures var d := DecideReuse(f, f.ledger.Latest().value, main);
            d.Success? ==> Recorded(f, f.ledger.Latest().value.version, main, d.value)
  {
    CarryingAccepts(f.ledger, main);
    LatestIsFinal(f.ledger);
  }

  lemma AppendedEntries(ledger: Ledger, release: Release)
    ensures var r := Appended(ledger, release);
            r.Success? ==> r.value.releases == ledger.releases + [release]
  {
  }

  lemma BuildRecords(f: Facts, version: VersionText, main: VersionText, date: string)
    requires f.ledger.Valid() && f.abiRevision.Success? && version.Final?
    ensures var d := DecideBuild(f, version, main, date);
            d.Success? ==> Recorded(f, version, main, d.value)
  {
    hide RewriteChangelog, HasMigration, ValidReleases, EntryError, Grows, Mains, Appended;
    if f.abiVersion.Success? {
      var release := NewRelease(version, f.abiVersion.value, f.abiRevision.value, f.digest, main);
      AppendedAccepts(f.ledger, release);
      AppendedEntries(f.ledger, release);
    }
  }

  lemma DecisionRecords(f: Facts, version: VersionText, main: VersionText, date: string)
    requires DecideCut(f, version, main, date).Success?
    ensures f.ledger.Valid() && f.sdkVersion.Dev? && f.abiRevision.Success?
    ensures Recorded(f, version, main, DecideCut(f, version, main, date).value)
  {
    hide ValidReleases, FirstOfVersion, RewriteChangelog, HasMigration;
    var latest := f.ledger.Latest();
    if latest.Some? && f.digest == latest.value.inputDigest {
      ReuseRecords(f, main);
    } else {
      BuildRecords(f, version, main, date);
    }
  }

  predicate MainFilesSay(t: Tree, main: VersionText) {
    DeclaredValues(t.zon) == [Render(main)] && DeclaredValues(t.versionZig) == [Render(main)]
  }

  lemma MainFilesAreRead(t: Tree, main: VersionText)
    requires MainFilesSay(t, main) && main.IsVersion()
    ensures MainVersion(t) == Some(main) && CurrentVersion(t) == Success(main)
  {
    ClassifiedText(main);
  }

  lemma FinalizedEffect(t: Tree, version: VersionText, ledger: Ledger, kind: Kind)
    requires version.IsVersion()
    ensures var after := Finalized(t, version, ledger, kind);
            after.result.Success? ==>
              && after.result.value == kind
              && OnlySdkFiles(t, after.tree) && SameSources(t, after.tree)
              && after.tree.ledger == ledger && after.tree.sdkChangelog == t.sdkChangelog
              && after.tree.sdkVersion == version && PackageFindings(after.tree) == []
  {
    SetSdkVersionEffect(t, version);
  }

  /** `AgentCore`'s files after a cut. */
  lemma ApplyCutEffect(t: Tree, version: VersionText, main: VersionText, date: string, hash: Hash)
    requires ApplyCut(t, version, main, date, hash).result.Success?
    ensures var after := ApplyCut(t, version, main, date, hash).tree;
            var decision := DecideCut(FactsOf(t, hash), version, main, date);
            && decision.Success? && ApplyCut(t, version, main, date, hash).result.value == decision.value.kind
            && OnlySdkFiles(t, after) && SameSources(t, after)
            && after.ledger == decision.value.ledger && after.sdkChangelog == decision.value.sdkChangelog
            && after.sdkVersion == version && version.Final? && PackageFindings(after) == []
  {
    hide DecideReuse, DecideBuild, ValidReleases, FirstOfVersion, FactsOf, SetDeclared, DeclaredValues;
    var decision := DecideCut(FactsOf(t, hash), version, main, date);
    FinalizedEffect(t.(sdkChangelog := decision.value.sdkChangelog), version, decision.value.ledger,
                    decision.value.kind);
  }

  /** A whole cut: both projects' files say the new versions, the ledger records them,
      and AgentCore's inputs are the ones the cut started from. */
  lemma WriteCutEffect(t: Tree, main: VersionText, date: string, version: VersionText, sdkDate: string, tools: Tools)
    requires WriteCut(t, main, date, version, sdkDate, tools).result.Success?
    ensures var after := WriteCut(t, main, date, version, sdkDate, tools).tree;
            var decision := DecideCut(FactsOf(t, tools.hash), version, main, sdkDate);
            var rewritten := RewriteChangelog(t.changelog, Render(main), date, MAIN_SUBSECTIONS);
            && SameSources(t, after) && MainFilesSay(after, main)
            && rewritten.Success? && after.changelog == rewritten.value.text
            && decision.Success? && WriteCut(t, main, date, version, sdkDate, tools).result.value == decision.value.kind
            && after.ledger == decision.value.ledger && after.sdkChangelog == decision.value.sdkChangelog
            && after.sdkVersion == version && version.Final? && PackageFindings(after) == []
  {
    hide RewriteChangelog, ApplyCut, DecideCut, FactsOf, SetDeclared, DeclaredValues;
    var prepared := WriteMainCut(t, main, date).tree;
    ApplyVersionEffect(t, main);
    MainFilesDoNotMatter(t, prepared, version, main, sdkDate, tools.hash);
    ApplyCutEffect(prepared, version, main, sdkDate, tools.hash);
  }

  /** `after` is a reopen of `t`: both projects' files say the next versions, `## Unreleased`
      is there, and the ledger and AgentCore's inputs are untouched. */
  ghost predicate IsReopenOf(t: Tree, after: Tree, main: VersionText, target: VersionText) {
    && SameSources(t, after) && MainFilesSay(after, main)
    && after.ledger == t.ledger && after.sdkVersion == target && PackageFindings(after) == []
    && EnsureUnreleased(t.changelog) == Success(after.changelog)
    && EnsureUnreleased(t.sdkChangelog) == Success(after.sdkChangelog)
  }

  lemma WriteReopenEffect(t: Tree, main: VersionText, target: VersionText, tools: Tools)
    requires WriteReopen(t, main, target, tools).result.Success? && target.IsVersion()
    ensures IsReopenOf(t, WriteReopen(t, main, target, tools).tree, main, target)
  {
    hide EnsureUnreleased, ReopenTarget, SetDeclared, DeclaredValues;
    var prepared := WriteMainReopen(t, main).tree;
    ApplyVersionEffect(t, main);
    SetSdkVersionEffect(prepared, target);
  }

  /** `after` is a cut of `t`: both projects' files say the new versions, the changelog has
      the section, the ledger records the cut, and AgentCore's inputs are untouched. */
  ghost predicate IsCutOf(t: Tree, after: Tree, main: VersionText, date: string, version: VersionText, kind: Kind,
                          hash: Hash) {
    && SameSources(t, after) && MainFilesSay(after, main)
    && after.sdkVersion == version && PackageFindings(after) == []
    && RewriteChangelog(t.changelog, Render(main), date, MAIN_SUBSECTIONS).Success?
    && after.changelog == RewriteChangelog(t.changelog, Render(main), date, MAIN_SUBSECTIONS).value.text
    && Recorded(FactsOf(t, hash), version, main, Decision(kind, after.ledger, after.sdkChangelog))
  }

  lemma CutIsDone(t: Tree, main: VersionText, date: string, version: VersionText, sdkDate: string, tools: Tools)
    requires WriteCut(t, main, date, version, sdkDate, tools).result.Success?
    ensures var written := WriteCut(t, main, date, version, sdkDate, tools);
            IsCutOf(t, written.tree, main, date, version, written.result.value, tools.hash)
  {
    hide WriteCut, RewriteChangelog, DecideCut, FactsOf, Recorded, SameSources, PackageFindings;
    WriteCutEffect(t, main, date, version, sdkDate, tools);
    DecisionRecords(FactsOf(t, tools.hash), version, main, sdkDate);
  }
}
