/** When a planned cut is applied, and what every step of a cut or a reopen leaves alone. */
module Planning {
  import opened Results
  import opened Versions
  import opened Ledgers
  import opened Changelog
  import opened Commits
  import opened Trees
  import opened Cuts

  // ---------------------------------------------------------------- what a step writes

  /** `after` differs from `t` at most in the files a bump of AgentCore generates. */
  predicate OnlySdkFiles(t: Tree, after: Tree) {
    after == t.(pyProject := after.pyProject, pyInit := after.pyInit, nodePackage := after.nodePackage,
                sdkVersion := after.sdkVersion, sdkChangelog := after.sdkChangelog, ledger := after.ledger)
  }

  lemma DeclarationIsSet(text: Text, value: string)
    ensures var after := SetVersionText(text, value);
            after.Some? ==>
              DeclaredValues(after.value) == [value] && SetDeclared(after.value, BLANK) == SetDeclared(text, BLANK)
  {
    if SetVersionText(text, value).Some? {
      VersionTextIsSet(text, value);
      SetDeclaredMeaning(text, value, BLANK);
    }
  }

  lemma SetSdkVersionEffect(t: Tree, version: VersionText)
    requires version.IsVersion()
    ensures var after := SetSdkVersion(t, version);
            && (after.result.Success? <==> PackagesDeclareOnce(t))
            && (PackagesDeclareOnce(t) <==> PackagesDeclareOnce(after.tree))
            && SameSources(t, after.tree) && OnlySdkFiles(t, after.tree)
            && after.tree.ledger == t.ledger && after.tree.sdkChangelog == t.sdkChangelog
            && (after.result.Success? ==> after.tree.sdkVersion == version && PackageFindings(after.tree) == [])
  {
    DeclarationIsSet(t.pyProject, PythonText(version));
    DeclarationIsSet(t.pyInit, PythonText(version));
    DeclarationIsSet(t.nodePackage, NodeText(version));
  }

  lemma ApplyVersionEffect(t: Tree, version: VersionText)
    ensures var after := ApplyVersion(t, version);
            && (after.result.Success? <==> |DeclaredValues(t.zon)| == 1 && |DeclaredValues(t.versionZig)| == 1)
            && SameSources(t, after.tree)
            && after.tree == t.(zon := after.tree.zon, versionZig := after.tree.versionZig)
            && (after.result.Success? ==>
                  && DeclaredValues(after.tree.zon) == [Render(version)]
                  && DeclaredValues(after.tree.versionZig) == [Render(version)])
  {
    DeclarationIsSet(t.zon, Render(version));
    DeclarationIsSet(t.versionZig, Render(version));
  }

  lemma SourcesDeclareTheAbi(a: Tree, b: Tree)
    requires SameSources(a, b)
    ensures AbiRevisionOf(Files(a)) == AbiRevisionOf(Files(b)) && AbiVersionOf(Files(a)) == AbiVersionOf(Files(b))
  {
    DigestIgnoresVersions(a, b, _ => ZeroDigest());
    InputsDeclareTheAbi(Files(a));
    InputsDeclareTheAbi(Files(b));
  }

  // ---------------------------------------------------------------- the planned version

  lemma LatestTopsTheLedger(ledger: Ledger, r: Release)
    requires ledger.Valid() && r in ledger.releases
    ensures ledger.Latest().Some? && ledger.Latest().value.version.Final? && r.version.Final?
    ensures AtMost(r.version.v, ledger.Latest().value.version.v)
  {
    ValidIffConsistent(ledger.releases);
    var i :| 0 <= i < |ledger.releases| && ledger.releases[i] == r;
    assert ledger.releases[|ledger.releases| - 1] in ledger.releases;
    if i < |ledger.releases| - 1 {
      assert Precedes(r, ledger.releases[|ledger.releases| - 1]);
    }
  }

  lemma {:induction false} VersionAbsent(rs: seq<Release>, version: VersionText)
    ensures FirstOfVersion(rs, version).None? <==> forall r <- rs :: r.version != version
  {
    if rs == [] {
    } else {
      VersionAbsent(rs[1..], version);
      assert rs == [rs[0]] + rs[1..];
    }
  }

  /** A planned build takes a version above every released one and at or above the floor. */
  lemma PlannedBuildIsFresh(t: Tree, levelArg: LevelArg, force: bool, messages: Messages, hash: Hash)
    requires PlanCut(t, levelArg, force, messages, hash).Success?
    ensures var plan := PlanCut(t, levelArg, force, messages, hash).value;
            && t.ledger.Valid() && t.sdkVersion.Dev?
            && (plan.kind.Built? ==>
                  && AtMost(t.sdkVersion.v, plan.version)
                  && t.ledger.ByVersion(Final(plan.version)).None?
                  && (t.ledger.releases != [] ==>
                        && t.ledger.Latest().value.version.Final?
                        && Less(t.ledger.Latest().value.version.v, plan.version)))
  {
    var plan := PlanCut(t, levelArg, force, messages, hash).value;
    if plan.kind.Built? && t.ledger.releases != [] {
      LatestIsFinal(t.ledger);
      var latest := t.ledger.Latest().value;
      var bumped := Bump(latest.version.v, plan.level.value).value;
      BumpIsTheNextOfItsLevel(latest.version.v, plan.level.value, bumped);
      assert plan.version == Larger(bumped, t.sdkVersion.v);
      forall r | r in t.ledger.releases ensures r.version != Final(plan.version) {
        LatestTopsTheLedger(t.ledger, r);
      }
      VersionAbsent(t.ledger.releases, Final(plan.version));
    }
  }

  /** Unforced, a planned build's level covers everything asked of it - a patch, the commits,
      a moved revision - and its version is the least one that honours that level and the
      `-dev` floor. */
  lemma PlannedVersionIsLeast(t: Tree, levelArg: LevelArg, messages: Messages, hash: Hash)
    requires PlanCut(t, levelArg, false, messages, hash).Success? && t.ledger.releases != []
    ensures var plan := PlanCut(t, levelArg, false, messages, hash).value;
            plan.kind.Built? ==>
              var latest := t.ledger.Latest().value;
              && latest.version.Final? && latest.mainReleases != [] && plan.level.Some?
              && plan.level.value.Rank() >= 1
              && plan.level.value.Rank() >= DerivedLevel(messages(latest.BuiltBy())).Rank()
              && (ChangedAbi(t.ledger, plan.abiRevision) ==> plan.level.value.Rank() >= 2)
              && (levelArg.Auto? ==> plan.level.value.Rank() <= 2 || DerivedLevel(messages(latest.BuiltBy())).Major?)
              && forall w :: AtMost(plan.version, w) <==>
                             AtMost(Bump(latest.version.v, plan.level.value).value, w) && AtMost(t.sdkVersion.v, w)
  {
    LatestIsFinal(t.ledger);
  }

  /** Without `--force-level`, a moved interface revision always gets at least a minor version. */
  lemma UnforcedAbiMoveIsMinor(t: Tree, levelArg: LevelArg, messages: Messages, hash: Hash)
    requires PlanCut(t, levelArg, false, messages, hash).Success?
    ensures var plan := PlanCut(t, levelArg, false, messages, hash).value;
            plan.kind.Built? && ChangedAbi(t.ledger, plan.abiRevision) ==>
              && t.ledger.Latest().value.version.Final?
              && MinorApart(t.ledger.Latest().value.version.v, plan.version)
  {
    var plan := PlanCut(t, levelArg, false, messages, hash).value;
    if plan.kind.Built? && ChangedAbi(t.ledger, plan.abiRevision) {
      LatestIsFinal(t.ledger);
      var latest := t.ledger.Latest().value;
      BumpIsTheNextOfItsLevel(latest.version.v, plan.level.value, plan.version);
    }
  }

  // ---------------------------------------------------------------- planner and applier

  /** The main release comes after every one the ledger names. */
  predicate FollowsTheLedger(ledger: Ledger, main: VersionText) {
    main.Final? && (LastMain(ledger.releases).Some? ==> Less(LastMain(ledger.releases).value, main.v))
  }

  /** The interface does not go down, and moves only across a minor version. */
  predicate AbiFollows(ledger: Ledger, version: Version, abiVersion: int, revision: int) {
    && abiVersion >= 1 && revision >= 1
    && (ledger.releases != [] ==>
          var latest := ledger.releases[|ledger.releases| - 1];
          && (abiVersion > latest.abiVersion || (abiVersion == latest.abiVersion && revision >= latest.abiRevision))
          && (abiVersion != latest.abiVersion || revision != latest.abiRevision ==>
                latest.version.Final? && MinorApart(latest.version.v, version)))
  }

  /** The changelog holds an entry, and a migration entry when the revision moves. */
  predicate ChangelogReady(f: Facts, version: Version, date: string) {
    var rewritten := RewriteChangelog(f.sdkChangelog, Fmt(version), date, SDK_SUBSECTIONS);
    && f.abiRevision.Success? && rewritten.Success?
    && (ChangedAbi(f.ledger, f.abiRevision.value) ==> HasMigration(rewritten.value.section))
  }

  /** The version lies above every released one. */
  predicate AboveLedger(ledger: Ledger, version: Version) {
    ledger.releases != [] ==>
      var latest := ledger.releases[|ledger.releases| - 1];
      latest.version.Final? && Less(latest.version.v, version)
  }

  /** What a maintainer can check before cutting: the facts a build needs beyond its plan. */
  predicate Buildable(f: Facts, version: Version, main: VersionText, date: string) {
    && f.abiRevision.Success? && f.abiVersion.Success?
    && (forall r <- f.ledger.releases :: r.inputDigest != f.digest)
    && FollowsTheLedger(f.ledger, main)
    && AbiFollows(f.ledger, version, f.abiVersion.value, f.abiRevision.value)
    && ChangelogReady(f, version, date)
  }

  lemma NewReleaseAccepted(ledger: Ledger, release: Release)
    requires ledger.Valid() && release.version.Final? && IsDigest(release.inputDigest)
    requires |release.mainReleases| == 1
    ensures EntryError(ledger.releases, release).None? <==>
              && AboveLedger(ledger, release.version.v)
              && (forall r <- ledger.releases :: r.inputDigest != release.inputDigest)
              && FollowsTheLedger(ledger, release.mainReleases[0])
              && AbiFollows(ledger, release.version.v, release.abiVersion, release.abiRevision)
  {
    var last := LastMain(ledger.releases);
    var mains := release.mainReleases;
    assert MainsError(last, mains) ==
           if !mains[0].Final? then Some(MainNotFinal)
           else if last.Some? && AtMost(mains[0].v, last.value) then Some(MainOutOfOrder)
           else MainsError(Some(mains[0].v), mains[1..]);
    assert mains[1..] == [];
    if ledger.releases != [] { LatestIsFinal(ledger); }
  }

  lemma BuildDecision(f: Facts, version: Version, main: VersionText, date: string)
    requires f.ledger.Valid() && f.abiRevision.Success?
    ensures var decision := DecideBuild(f, Final(version), main, date);
            && (decision.Success? <==> AboveLedger(f.ledger, version) && Buildable(f, version, main, date))
            && (decision.Success? ==> decision.value.kind == Built)
  {
    hide ValidReleases, EntryError, AboveLedger, RewriteChangelog, HasMigration, AbiFollows, FollowsTheLedger,
         Carrying;
    if f.abiVersion.Success? {
      var release := NewRelease(Final(version), f.abiVersion.value, f.abiRevision.value, f.digest, main);
      NewReleaseAccepted(f.ledger, release);
      AppendedAccepts(f.ledger, release);
    }
  }

  lemma BuildIsReached(t: Tree, levelArg: LevelArg, force: bool, messages: Messages,
                       main: VersionText, date: string, hash: Hash)
    requires PlanCut(t, levelArg, force, messages, hash).Success?
    requires PlanCut(t, levelArg, force, messages, hash).value.kind.Built?
    ensures var plan := PlanCut(t, levelArg, force, messages, hash).value;
            var facts := FactsOf(t, hash);
            && facts.abiRevision.Success?
            && DecideCut(facts, Final(plan.version), main, date) == DecideBuild(facts, Final(plan.version), main, date)
  {
    PlannedBuildIsFresh(t, levelArg, force, messages, hash);
  }

  /** A planned build is applied with the kind and version it was planned with exactly
      when it is buildable and the packages declare their version once: nothing else can
      turn the applier against the planner. */
  lemma PlannedBuildIsApplied(t: Tree, levelArg: LevelArg, force: bool, messages: Messages,
                              main: VersionText, date: string, hash: Hash)
    requires PlanCut(t, levelArg, force, messages, hash).Success?
    requires PlanCut(t, levelArg, force, messages, hash).value.kind.Built?
    ensures var plan := PlanCut(t, levelArg, force, messages, hash).value;
            var applied := ApplyCut(t, Final(plan.version), main, date, hash);
            && (applied.result.Success? <==>
                  Buildable(FactsOf(t, hash), plan.version, main, date) && PackagesDeclareOnce(t))
            && (applied.result.Success? ==> applied.result.value == Built)
  {
    var plan := PlanCut(t, levelArg, force, messages, hash).value;
    PlannedBuildIsFresh(t, levelArg, force, messages, hash);
    var facts := FactsOf(t, hash);
    BuildDecision(facts, plan.version, main, date);
    BuildIsReached(t, levelArg, force, messages, main, date, hash);
    var decision := DecideCut(facts, Final(plan.version), main, date);
    if decision.Success? {
      SetSdkVersionEffect(t.(sdkChangelog := decision.value.sdkChangelog), Final(plan.version));
    }
  }

  /** The interface does not go down, and its version moves without its revision only
      across a minor version. */
  predicate AbiMovesTogether(ledger: Ledger, version: Version, abiVersion: int, revision: int) {
    && abiVersion >= 1 && revision >= 1
    && (ledger.releases != [] ==>
          var latest := ledger.releases[|ledger.releases| - 1];
          && (abiVersion > latest.abiVersion || (abiVersion == latest.abiVersion && revision >= latest.abiRevision))
          && (abiVersion != latest.abiVersion && revision == latest.abiRevision ==>
                latest.version.Final? && MinorApart(latest.version.v, version)))
  }

  /** Without `--force-level` a moved revision never outruns the planned version: the applier
      accepts a planned build exactly when the inputs are new, the interface moves as it
      should, the main release is a later one, the changelog is ready and the packages
      declare their version once. */
  lemma UnforcedPlanIsApplied(t: Tree, levelArg: LevelArg, messages: Messages, main: VersionText, date: string,
                              hash: Hash)
    requires PlanCut(t, levelArg, false, messages, hash).Success?
    requires PlanCut(t, levelArg, false, messages, hash).value.kind.Built?
    ensures var plan, f := PlanCut(t, levelArg, false, messages, hash).value, FactsOf(t, hash);
            ApplyCut(t, Final(plan.version), main, date, hash).result == Success(Built) <==>
              && f.abiVersion.Success? && (forall r <- f.ledger.releases :: r.inputDigest != f.digest)
              && AbiMovesTogether(f.ledger, plan.version, f.abiVersion.value, plan.abiRevision)
              && FollowsTheLedger(f.ledger, main) && PackagesDeclareOnce(t)
              && ChangelogReady(f, plan.version, date)
  {
    hide ValidReleases, Files, AbiVersionOf, InputsOf, ApplyCut, ChangelogReady;
    PlannedBuildIsApplied(t, levelArg, false, messages, main, date, hash);
    UnforcedAbiMoveIsMinor(t, levelArg, messages, hash);
    PlannedBuildIsFresh(t, levelArg, false, messages, hash);
  }

  /** A planned reuse is applied exactly when the main release is a later final version
      and every package declares its version once. */
  lemma PlannedReuseIsApplied(t: Tree, levelArg: LevelArg, force: bool, messages: Messages,
                              main: VersionText, date: string, hash: Hash)
    requires PlanCut(t, levelArg, force, messages, hash).Success?
    requires PlanCut(t, levelArg, force, messages, hash).value.kind.Reused?
    ensures var plan := PlanCut(t, levelArg, force, messages, hash).value;
            var applied := ApplyCut(t, Final(plan.version), main, date, hash);
            && (applied.result.Success? <==> FollowsTheLedger(t.ledger, main) && PackagesDeclareOnce(t))
            && (applied.result.Success? ==> applied.result.value == Reused)
  {
    hide ValidReleases, Files, InputsOf, AbiRevisionOf, AbiVersionOf, Carrying, LastMain, SetSdkVersion,
         DeclaredValues;
    LatestIsFinal(t.ledger);
    CarryingAccepts(t.ledger, main);
    SetSdkVersionEffect(t, t.ledger.Latest().value.version);
  }

  lemma SameFinalResult(a: Tree, b: Tree, version: VersionText, ledger: Ledger, kind: Kind)
    requires a.pyProject == b.pyProject && a.pyInit == b.pyInit && a.nodePackage == b.nodePackage
    ensures Finalized(a, version, ledger, kind).result == Finalized(b, version, ledger, kind).result
  {
  }

  /** The applier runs after the main version and changelog were written; those writes
      change nothing it looks at. */
  lemma MainFilesDoNotMatter(t: Tree, after: Tree, version: VersionText, main: VersionText, date: string, hash: Hash)
    requires SameSources(t, after)
    requires after == t.(zon := after.zon, versionZig := after.versionZig, changelog := after.changelog)
    ensures FactsOf(after, hash) == FactsOf(t, hash)
    ensures ApplyCut(after, version, main, date, hash).result == ApplyCut(t, version, main, date, hash).result
  {
    DigestIgnoresVersions(t, after, hash);
    SourcesDeclareTheAbi(t, after);
    var decision := DecideCut(FactsOf(t, hash), version, main, date);
    if decision.Success? {
      SameFinalResult(t.(sdkChangelog := decision.value.sdkChangelog),
                      after.(sdkChangelog := decision.value.sdkChangelog),
                      version, decision.value.ledger, decision.value.kind);
    }
  }
}
