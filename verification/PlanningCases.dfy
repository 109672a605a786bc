/** Plans that always go through, and plans the applier must refuse, with a checkout
    that shows each. */
module PlanningCases {
  import opened Results
  import opened Versions
  import opened Ledgers
  import opened Changelog
  import opened Commits
  import opened Trees
  import opened Cuts
  import opened Planning
  import opened Effects
  import opened Lifecycle
  import opened Examples
  import LifecycleProofs
  import Refusals

  lemma ReopenedIsUnchanged(t: Tree, level: Level, agentcoreLevel: Level, tagged: bool, tools: Tools)
    requires TreeConsistent(t, tools.hash) && t.sdkVersion.Final?
    requires CommandReopen(t, level, agentcoreLevel, tagged, tools).result.Success?
    ensures var reopened := CommandReopen(t, level, agentcoreLevel, tagged, tools).tree;
            && reopened.ledger == t.ledger && t.ledger.Valid() && t.ledger.releases != []
            && reopened.sdkVersion.Dev? && PackagesDeclareOnce(reopened)
            && AbiRevisionOf(Files(reopened)).Success?
            && var latest := t.ledger.releases[|t.ledger.releases| - 1];
               latest.version == t.sdkVersion && latest.inputDigest == InputDigest(reopened, tools.hash)
  {
    hide CommandReopen, WriteReopen, NextDev, ReopenTarget, ValidReleases, Files, AbiRevisionOf, InputsOf,
         SetDeclared, MainVersion;
    var reopened := CommandReopen(t, level, agentcoreLevel, tagged, tools).tree;
    var released := MainVersion(t).value;
    MainFilesAreRead(t, released);
    LifecycleProofs.ReopenParts(t, released, level, agentcoreLevel, tagged, tools);
    WriteReopenEffect(t, NextDev(released, level).value, ReopenTarget(t.ledger, agentcoreLevel).value, tools);
    SourcesDeclareTheAbi(t, reopened);
    DigestIgnoresVersions(t, reopened, tools.hash);
  }

  /** A checkout whose inputs are the latest entry's is planned and applied as its reuse. */
  lemma SameInputsAreReused(t: Tree, force: bool, messages: Messages, version: VersionText, main: VersionText,
                            date: string, hash: Hash)
    requires t.ledger.Valid() && t.ledger.releases != [] && t.sdkVersion.Dev? && PackagesDeclareOnce(t)
    requires AbiRevisionOf(Files(t)).Success?
    requires t.ledger.releases[|t.ledger.releases| - 1].inputDigest == InputDigest(t, hash)
    ensures var plan := PlanCut(t, Auto, force, messages, hash);
            var latest := t.ledger.releases[|t.ledger.releases| - 1];
            && plan.Success? && plan.value.kind.Reused? && Final(plan.value.version) == latest.version
            && (ApplyCut(t, version, main, date, hash).result == Success(Reused) <==>
                  version == latest.version && FollowsTheLedger(t.ledger, main))
            && ApplyCut(t, version, main, date, hash).result != Success(Built)
  {
    hide ValidReleases, Files, AbiRevisionOf, InputsOf, SetDeclared, Carrying, PackagesDeclareOnce,
         FollowsTheLedger, DecideCut;
    var latest := t.ledger.releases[|t.ledger.releases| - 1];
    PlannedReuseIsApplied(t, Auto, force, messages, main, date, hash);
    Refusals.DecidesIffAllowed(FactsOf(t, hash), version, main, date);
    LatestIsFinal(t.ledger);
    assert latest in t.ledger.releases;
    assert DecideCut(FactsOf(t, hash), version, main, date).Success? ==>
             Refusals.CanReuse(FactsOf(t, hash), version, main);
  }

  /** Reopen a release and cut again without an edit: AgentCore is planned as reused at
      its version, whatever the commits say, and every later main release may carry it,
      under that version and no other. */
  lemma UntouchedAgentCoreIsReused(t: Tree, level: Level, agentcoreLevel: Level, tagged: bool, force: bool,
                                   messages: Messages,
                                   version: VersionText, main: VersionText, date: string, tools: Tools)
    requires TreeConsistent(t, tools.hash) && t.sdkVersion.Final?
    requires CommandReopen(t, level, agentcoreLevel, tagged, tools).result.Success?
    ensures var reopened := CommandReopen(t, level, agentcoreLevel, tagged, tools).tree;
            var plan := PlanCut(reopened, Auto, force, messages, tools.hash);
            && plan.Success? && plan.value.kind.Reused? && Final(plan.value.version) == t.sdkVersion
            && (ApplyCut(reopened, version, main, date, tools.hash).result == Success(Reused) <==>
                  version == t.sdkVersion && FollowsTheLedger(t.ledger, main))
            && ApplyCut(reopened, version, main, date, tools.hash).result != Success(Built)
  {
    hide CommandReopen, PlanCut, ApplyCut, TreeConsistent, MainVersion, AbiRevisionOf, InputDigest, Files,
         PackagesDeclareOnce, FollowsTheLedger;
    ReopenedIsUnchanged(t, level, agentcoreLevel, tagged, tools);
    SameInputsAreReused(CommandReopen(t, level, agentcoreLevel, tagged, tools).tree, force, messages, version, main,
                        date, tools.hash);
  }

  /** Inputs that an earlier, not the latest, release was built from are planned as a new
      build and refused by the applier, for every main release and date. */
  lemma RevertedInputsAreRefused(t: Tree, levelArg: LevelArg, force: bool, messages: Messages, k: nat,
                                 main: VersionText, date: string, hash: Hash)
    requires PlanCut(t, levelArg, force, messages, hash).Success?
    requires k + 1 < |t.ledger.releases| && t.ledger.releases[k].inputDigest == InputDigest(t, hash)
    ensures var plan := PlanCut(t, levelArg, force, messages, hash).value;
            && plan.kind.Built?
            && ApplyCut(t, Final(plan.version), main, date, hash).result.Failure?
  {
    var rs := t.ledger.releases;
    ValidIffConsistent(rs);
    assert Precedes(rs[k], rs[|rs| - 1]);
    PlannedBuildIsApplied(t, levelArg, force, messages, main, date, hash);
    assert rs[k] in rs;
  }

  /** The planner compares interface revisions only: an interface version that moves alone,
      with commits that ask for a patch, is planned as a patch and refused. */
  lemma VersionAloneIsRefused(t: Tree, force: bool, messages: Messages, main: VersionText, date: string, hash: Hash)
    requires PlanCut(t, Auto, force, messages, hash).Success? && AbiVersionOf(Files(t)).Success?
    requires t.ledger.releases != []
    requires var latest := t.ledger.releases[|t.ledger.releases| - 1];
             && latest.inputDigest != InputDigest(t, hash)
             && latest.mainReleases != [] && DerivedLevel(messages(latest.BuiltBy())).Rank() <= 1
             && latest.abiRevision == AbiRevisionOf(Files(t)).value && latest.abiVersion != AbiVersionOf(Files(t)).value
             && latest.version.Final? && t.sdkVersion.Dev? && SameMinor(latest.version.v, t.sdkVersion.v)
    ensures var plan := PlanCut(t, Auto, force, messages, hash).value;
            && plan.kind.Built? && plan.level == Some(Patch)
            && ApplyCut(t, Final(plan.version), main, date, hash).result.Failure?
  {
    hide Files, AbiRevisionOf, AbiVersionOf, InputsOf, ValidReleases;
    PlannedBuildIsApplied(t, Auto, force, messages, main, date, hash);
  }

  /** `--force-level` can plan a patch over a moved revision, which the applier refuses. */
  lemma ForcedPatchIsRefused(t: Tree, messages: Messages, main: VersionText, date: string, hash: Hash)
    requires PlanCut(t, Explicit(Patch), true, messages, hash).Success?
    requires t.ledger.releases != []
    requires var latest := t.ledger.releases[|t.ledger.releases| - 1];
             && latest.abiRevision != AbiRevisionOf(Files(t)).value
             && latest.version.Final? && t.sdkVersion.Dev? && SameMinor(latest.version.v, t.sdkVersion.v)
    ensures var plan := PlanCut(t, Explicit(Patch), true, messages, hash).value;
            && plan.kind.Built? && plan.level == Some(Patch)
            && ApplyCut(t, Final(plan.version), main, date, hash).result.Failure?
  {
    hide Files, AbiRevisionOf, AbiVersionOf, InputsOf, ValidReleases;
    PlannedBuildIsApplied(t, Explicit(Patch), true, messages, main, date, hash);
  }

  // ---------------------------------------------------------------- concrete checkouts

  const NEXT_MAIN := Version(1, 1, 1)

  /** All that a build needs besides a digest of its own and an interface that follows. */
  predicate ReadyButForLedger(t: Tree, version: Version, hash: Hash) {
    var f := FactsOf(t, hash);
    && f.abiVersion.Success? && FollowsTheLedger(f.ledger, Final(NEXT_MAIN))
    && ChangelogReady(f, version, DATE) && PackagesDeclareOnce(t)
  }

  /** The release that a build would add. */
  function Added(t: Tree, version: Version, hash: Hash): Release
    requires FactsOf(t, hash).abiVersion.Success? && FactsOf(t, hash).abiRevision.Success?
  {
    var f := FactsOf(t, hash);
    NewRelease(Final(version), f.abiVersion.value, f.abiRevision.value, f.digest, Final(NEXT_MAIN))
  }

  /** With everything else ready, the applier says what the ledger says of the new entry. */
  lemma LedgerDecides(t: Tree, levelArg: LevelArg, force: bool, messages: Messages, hash: Hash)
    requires var plan := PlanCut(t, levelArg, force, messages, hash);
             plan.Success? && plan.value.kind.Built? && ReadyButForLedger(t, plan.value.version, hash)
    ensures FactsOf(t, hash).abiRevision.Success?
    ensures var version := PlanCut(t, levelArg, force, messages, hash).value.version;
            ApplyCut(t, Final(version), Final(NEXT_MAIN), DATE, hash).result ==
            match EntryError(t.ledger.releases, Added(t, version, hash))
            case None => Success(Built)
            case Some(rule) => Failure(LedgerRefused(rule))
  {
    hide ValidReleases, Files, AbiRevisionOf, AbiVersionOf, InputsOf, RewriteChangelog, EntryError, HasMigration;
    var plan := PlanCut(t, levelArg, force, messages, hash).value;
    PlannedBuildIsApplied(t, levelArg, force, messages, Final(NEXT_MAIN), DATE, hash);
    BuildIsReached(t, levelArg, force, messages, Final(NEXT_MAIN), DATE, hash);
    AppendedAccepts(t.ledger, Added(t, plan.version, hash));
  }

  lemma ExampleFacts(abiVersion: nat, revision: nat, c: char)
    requires 'a' <= c <= 'f'
    ensures var t, f := ExampleTree(abiVersion, revision), FactsOf(ExampleTree(abiVersion, revision), Hashing(c));
            && t.ledger.Valid() && f.ledger == t.ledger && f.digest == DigestOf(c) && f.sdkChangelog == MigrationLog()
            && f.abiRevision == Success(revision) && f.abiVersion == Success(abiVersion)
            && AbiRevisionOf(Files(t)) == Success(revision) && InputDigest(t, Hashing(c)) == DigestOf(c)
  {
    hide Files, InputsOf, AbiRevisionOf, AbiVersionOf, ValidReleases, MigrationLog, DigestOf;
    ExampleLedgerIsValid();
    ExampleDeclaresAbi(abiVersion, revision);
  }

  lemma ExampleIsReady(abiVersion: nat, revision: nat, c: char, version: Version)
    requires 'a' <= c <= 'f'
    ensures ReadyButForLedger(ExampleTree(abiVersion, revision), version, Hashing(c))
  {
    hide FactsOf, RewriteChangelog, HasMigration, MigrationLog, DigestOf, Fmt;
    ExampleFacts(abiVersion, revision, c);
    MigrationLogIsReady(version);
    OneDeclaration("0.2.1.dev0");
    OneDeclaration("0.2.1-dev.0");
  }

  /** The plans: a patch, or a minor when the revision moved and nothing is forced. */
  lemma ExamplePlan(abiVersion: nat, revision: nat, c: char, levelArg: LevelArg, force: bool)
    requires 'a' <= c <= 'f' && c != 'b' && (levelArg.Auto? || (levelArg == Explicit(Patch) && force))
    ensures var level := if levelArg.Auto? && revision != 1 then Minor else Patch;
            var version := if level == Minor then Version(0, 3, 0) else Version(0, 2, 1);
            PlanCut(ExampleTree(abiVersion, revision), levelArg, force, _ => [], Hashing(c))
            == Success(CutPlan(Built, version, revision, Some(level)))
  {
    hide Files, InputDigest, AbiRevisionOf, ValidReleases, DigestOf, Hashing;
    ExampleFacts(abiVersion, revision, c);
    assert DigestOf(c)[0] != DigestOf('b')[0];
  }

  lemma NewEntryRule(abiVersion: nat, revision: nat, c: char, version: Version)
    requires 'a' <= c <= 'f' && version in {Version(0, 2, 1), Version(0, 3, 0)}
    requires abiVersion >= 1 && revision >= 1
    ensures EntryError([FirstRelease(), SecondRelease()],
                       NewRelease(Final(version), abiVersion, revision, DigestOf(c), Final(NEXT_MAIN)))
            == if c == 'a' || c == 'b' then Some(RepeatedDigest)
               else if (abiVersion != 1 || revision != 1) && version == Version(0, 2, 1) then Some(AbiNeedsMinor)
               else None
  {
    hide DigestOf;
    var rs := [FirstRelease(), SecondRelease()];
    var entry := NewRelease(Final(version), abiVersion, revision, DigestOf(c), Final(NEXT_MAIN));
    assert rs[0] in rs && rs[1] in rs;
    assert DigestOf(c)[0] == c && DigestOf('a')[0] == 'a' && DigestOf('b')[0] == 'b';
    assert (exists r <- rs :: r.inputDigest == entry.inputDigest) <==> c == 'a' || c == 'b';
    assert LastMain(rs) == Some(Version(1, 1, 0));
    assert entry.mainReleases[1..] == [];
    assert MainsError(LastMain(rs), entry.mainReleases).None?;
  }

  /** What the ledger says of the new entry. */
  lemma ExampleRule(abiVersion: nat, revision: nat, c: char, version: Version)
    requires 'a' <= c <= 'f' && version in {Version(0, 2, 1), Version(0, 3, 0)}
    requires abiVersion >= 1 && revision >= 1
    ensures FactsOf(ExampleTree(abiVersion, revision), Hashing(c)).abiVersion.Success?
    ensures FactsOf(ExampleTree(abiVersion, revision), Hashing(c)).abiRevision.Success?
    ensures var t := ExampleTree(abiVersion, revision);
            EntryError(t.ledger.releases, Added(t, version, Hashing(c))) ==
            if c == 'a' || c == 'b' then Some(RepeatedDigest)
            else if (abiVersion != 1 || revision != 1) && version == Version(0, 2, 1) then Some(AbiNeedsMinor)
            else None
  {
    hide FactsOf, MigrationLog, DigestOf, EntryError;
    ExampleFacts(abiVersion, revision, c);
    NewEntryRule(abiVersion, revision, c, version);
  }

  /** The example is planned as built, ready but for the ledger, and the applier ends so. */
  predicate Ends(abiVersion: nat, revision: nat, c: char, levelArg: LevelArg, force: bool, outcome: Result<Kind,
                 CutError>)
    requires 'a' <= c <= 'f'
  {
    var t := ExampleTree(abiVersion, revision);
    var plan := PlanCut(t, levelArg, force, _ => [], Hashing(c));
    && plan.Success? && plan.value.kind.Built? && ReadyButForLedger(t, plan.value.version, Hashing(c))
    && ApplyCut(t, Final(plan.value.version), Final(NEXT_MAIN), DATE, Hashing(c)).result == outcome
  }

  lemma ExampleOutcome(abiVersion: nat, revision: nat, c: char, levelArg: LevelArg, force: bool)
    requires 'a' <= c <= 'f' && c != 'b' && (levelArg.Auto? || (levelArg == Explicit(Patch) && force))
    requires abiVersion >= 1 && revision >= 1
    ensures Ends(abiVersion, revision, c, levelArg, force,
                 if c == 'a' then Failure(LedgerRefused(RepeatedDigest))
                 else if (abiVersion != 1 || revision != 1) && (levelArg.Explicit? || revision == 1)
                 then Failure(LedgerRefused(AbiNeedsMinor))
                 else Success(Built))
  {
    hide PlanCut, ApplyCut, ReadyButForLedger, ExampleTree, Hashing, EntryError, FactsOf;
    ExamplePlan(abiVersion, revision, c, levelArg, force);
    var plan := PlanCut(ExampleTree(abiVersion, revision), levelArg, force, _ => [], Hashing(c)).value;
    ExampleIsReady(abiVersion, revision, c, plan.version);
    LedgerDecides(ExampleTree(abiVersion, revision), levelArg, force, _ => [], Hashing(c));
    ExampleRule(abiVersion, revision, c, plan.version);
  }

  /** Each refusal above on a checkout where everything else is ready: inputs that an older
      release was built from, an interface version that moved alone, a patch forced over a
      moved revision. Without the offending fact the applier takes the plan. */
  lemma RefusedPlansExist()
    ensures Ends(1, 1, 'a', Auto, false, Failure(LedgerRefused(RepeatedDigest)))
    ensures Ends(1, 1, 'c', Auto, false, Success(Built))
    ensures Ends(2, 1, 'c', Auto, false, Failure(LedgerRefused(AbiNeedsMinor)))
    ensures Ends(2, 2, 'c', Auto, false, Success(Built))
    ensures Ends(1, 2, 'c', Explicit(Patch), true, Failure(LedgerRefused(AbiNeedsMinor)))
    ensures Ends(1, 2, 'c', Auto, false, Success(Built))
  {
    hide Ends;
    ExampleOutcome(1, 1, 'a', Auto, false);
    ExampleOutcome(1, 1, 'c', Auto, false);
    ExampleOutcome(2, 1, 'c', Auto, false);
    ExampleOutcome(2, 2, 'c', Auto, false);
    ExampleOutcome(1, 2, 'c', Explicit(Patch), true);
    ExampleOutcome(1, 2, 'c', Auto, false);
  }
}
