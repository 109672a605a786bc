/** Cutting and reopening AgentCore and the main project, each step in the order the
    scripts write the checkout, and the version gate over the result. */
module Cuts {
  import opened Results
  import opened Versions
  import opened Ledgers
  import opened Changelog
  import opened Commits
  import opened Trees
  import Decimal
  import PrBody
  import Utf8

  datatype CutError =
    | MalformedVersion
    | NotFinalVersion
    | MidFlight
    | NothingToReopen
    | NothingReleased
    | WrongReopenTarget
    | LedgerRefused(ledger: LedgerError)
    | AbiRefused(abi: AbiError)
    | NotOneDeclaration
    | MirrorDisagrees
    | UnchangedKeepsVersion
    | UnchangedTakesNoLevel
    | AlreadyReleased
    | BelowFloor
    | BelowDerivedLevel
    | FirstTakesNoLevel
    | CannotBump
    | ChangelogRefused(changelog: ChangelogError)
    | NoMigration
    | VersionRefused(version: VersionError)
    | BodyTooLong
    | NotTagged

  /** What a step leaves in the checkout, and whether it succeeded. */
  datatype Outcome<+T> = Outcome(tree: Tree, result: Result<T, CutError>)

  // ---------------------------------------------------------------- planning

  datatype Kind = Built | Reused

  datatype LevelArg = Auto | Explicit(level: Level)

  datatype CutPlan = CutPlan(kind: Kind, version: Version, abiRevision: nat, level: Option<Level>)

  type Messages = VersionText -> seq<Commit>

  predicate ChangedAbi(ledger: Ledger, revision: int) {
    ledger.Latest().Some? && ledger.Latest().value.abiRevision != revision
  }

  /** The level a changed AgentCore asks for: never below a patch, and a moved
      interface revision is at least a minor. */
  function NeededLevel(ledger: Ledger, revision: int, commits: seq<Commit>): Level {
    var derived := Higher(DerivedLevel(commits), Patch);
    if ChangedAbi(ledger, revision) then Higher(derived, Minor) else derived
  }

  lemma LatestIsFinal(ledger: Ledger)
    requires ledger.Valid() && ledger.releases != []
    ensures ledger.Latest().Some? && WellShaped(ledger.Latest().value)
  {
    ValidIffConsistent(ledger.releases);
    assert ledger.Latest().value in ledger.releases;
  }

  /** `plan_cut` */
  function PlanCut(t: Tree, levelArg: LevelArg, force: bool, messages: Messages, hash: Hash): Result<CutPlan, CutError>
  {
    var abi := AbiRevisionOf(Files(t));
    if !t.ledger.Valid() then Failure(LedgerRefused(InvalidLedger))
    else if abi.Failure? then Failure(AbiRefused(abi.error))
    else if !t.sdkVersion.IsVersion() then Failure(MalformedVersion)
    else if !t.sdkVersion.Dev? then Failure(CutError.MidFlight)
    else
      var floor, revision, latest := t.sdkVersion.v, abi.value, t.ledger.Latest();
      if latest.None? then
        if levelArg.Explicit? && !force then Failure(FirstTakesNoLevel)
        else Success(CutPlan(Built, floor, revision, None))
      else if InputDigest(t, hash) == latest.value.inputDigest then
        if levelArg.Explicit? then Failure(UnchangedTakesNoLevel)
        else LatestIsFinal(t.ledger); Success(CutPlan(Reused, latest.value.version.v, revision, Some(NoLevel)))
      else
        LatestIsFinal(t.ledger);
        var needed := NeededLevel(t.ledger, revision, messages(latest.value.BuiltBy()));
        var level := if levelArg.Auto? then needed else levelArg.level;
        if levelArg.Explicit? && !force && level.Rank() < needed.Rank() then Failure(BelowDerivedLevel)
        else
          var bumped := Bump(latest.value.version.v, level);
          if bumped.Failure? then Failure(CannotBump)
          else Success(CutPlan(Built, Larger(bumped.value, floor), revision, Some(level)))
  }

  // ---------------------------------------------------------------- writing versions

  /** `set_sdk_version`: the packages in order, then `sdk/VERSION`. */
  function SetSdkVersion(t: Tree, version: VersionText): Outcome<()> {
    if !version.IsVersion() then Outcome(t, Failure(MalformedVersion)) else
      var pyProject := SetVersionText(t.pyProject, PythonText(version));
      if pyProject.None? then Outcome(t, Failure(NotOneDeclaration)) else
        var t := t.(pyProject := pyProject.value);
        var pyInit := SetVersionText(t.pyInit, PythonText(version));
        if pyInit.None? then Outcome(t, Failure(NotOneDeclaration)) else
          var t := t.(pyInit := pyInit.value);
          var nodePackage := SetVersionText(t.nodePackage, NodeText(version));
          if nodePackage.None? then Outcome(t, Failure(NotOneDeclaration)) else
            Outcome(t.(nodePackage := nodePackage.value, sdkVersion := version), Success(()))
  }

  /** Every package declares its version exactly once. */
  predicate PackagesDeclareOnce(t: Tree) {
    && |DeclaredValues(t.pyProject)| == 1
    && |DeclaredValues(t.pyInit)| == 1
    && |DeclaredValues(t.nodePackage)| == 1
  }

  /** `apply_version` */
  function ApplyVersion(t: Tree, version: VersionText): Outcome<()> {
    var zon := SetVersionText(t.zon, Render(version));
    if zon.None? then Outcome(t, Failure(NotOneDeclaration)) else
      var t := t.(zon := zon.value);
      var versionZig := SetVersionText(t.versionZig, Render(version));
      if versionZig.None? then Outcome(t, Failure(NotOneDeclaration)) else
        Outcome(t.(versionZig := versionZig.value), Success(()))
  }

  // ---------------------------------------------------------------- AgentCore's cut

  /** The entry a built release adds to the ledger. */
  function NewRelease(version: VersionText, abiVersion: nat, abiRevision: nat, digest: Digest,
                      main: VersionText): Release {
    Release(version, abiVersion, abiRevision, digest, [main])
  }

  /** What `apply_cut` reads before it decides. */
  datatype Facts = Facts(
    sdkVersion: VersionText,
    ledger: Ledger,
    sdkChangelog: string,
    abiRevision: Result<nat, AbiError>,
    abiVersion: Result<nat, AbiError>,
    digest: Digest)

  function FactsOf(t: Tree, hash: Hash): Facts {
    Facts(t.sdkVersion, t.ledger, t.sdkChangelog, AbiRevisionOf(Files(t)), AbiVersionOf(Files(t)), InputDigest(t, hash))
  }

  /** What a cut will write for AgentCore. */
  datatype Decision = Decision(kind: Kind, ledger: Ledger, sdkChangelog: string)

  function DecideReuse(f: Facts, latest: Release, main: VersionText): Result<Decision, CutError> {
    var updated := Carrying(f.ledger, latest, main);
    if updated.Failure? then Failure(LedgerRefused(updated.error))
    else Success(Decision(Reused, updated.value, f.sdkChangelog))
  }

  function DecideBuild(f: Facts, version: VersionText, main: VersionText, date: string): (r: Result<Decision, CutError>)
    requires f.abiRevision.Success?
    ensures r.Success? ==> r.value.kind.Built? && r.value.ledger.Valid()
  {
    if f.abiVersion.Failure? then Failure(AbiRefused(f.abiVersion.error)) else
      var updated := Appended(f.ledger, NewRelease(version, f.abiVersion.value, f.abiRevision.value, f.digest, main));
      if updated.Failure? then Failure(LedgerRefused(updated.error)) else
        var rewritten := RewriteChangelog(f.sdkChangelog, Render(version), date, SDK_SUBSECTIONS);
        if rewritten.Failure? then Failure(ChangelogRefused(rewritten.error))
        else if ChangedAbi(f.ledger, f.abiRevision.value) && !HasMigration(rewritten.value.section)
        then Failure(NoMigration)
        else Success(Decision(Built, updated.value, rewritten.value.text))
  }

  /** The part of `apply_cut` before its first write. */
  function DecideCut(f: Facts, version: VersionText, main: VersionText, date: string): Result<Decision, CutError> {
    var latest := f.ledger.Latest();
    if !version.Final? then Failure(NotFinalVersion)
    else if !f.sdkVersion.IsVersion() then Failure(MalformedVersion)
    else if !f.sdkVersion.Dev? then Failure(CutError.MidFlight)
    else if !f.ledger.Valid() then Failure(LedgerRefused(InvalidLedger))
    else if f.abiRevision.Failure? then Failure(AbiRefused(f.abiRevision.error))
    else if latest.Some? && f.digest == latest.value.inputDigest then
      if version != latest.value.version then Failure(UnchangedKeepsVersion)
      else DecideReuse(f, latest.value, main)
    else if f.ledger.ByVersion(version).Some? then Failure(AlreadyReleased)
    else if Less(version.v, f.sdkVersion.v) then Failure(BelowFloor)
    else DecideBuild(f, version, main, date)
  }

  /** The last writes of a cut: the packages, then the ledger. */
  function Finalized(t: Tree, version: VersionText, ledger: Ledger, kind: Kind): Outcome<Kind> {
    var set' := SetSdkVersion(t, version);
    match set'.result
    case Failure(error) => Outcome(set'.tree, Failure(error))
    case Success(_) => Outcome(set'.tree.(ledger := ledger), Success(kind))
  }

  /** `apply_cut` */
  function ApplyCut(t: Tree, version: VersionText, main: VersionText, date: string, hash: Hash): Outcome<Kind> {
    match DecideCut(FactsOf(t, hash), version, main, date)
    case Failure(error) => Outcome(t, Failure(error))
    case Success(d) => Finalized(t.(sdkChangelog := d.sdkChangelog), version, d.ledger, d.kind)
  }

  // ---------------------------------------------------------------- AgentCore's reopen

  /** `reopen_target` */
  function ReopenTarget(ledger: Ledger, level: Level): Result<VersionText, CutError> {
    if !ledger.Valid() then Failure(LedgerRefused(InvalidLedger))
    else if ledger.Latest().None? then Failure(NothingReleased)
    else
      LatestIsFinal(ledger);
      var bumped := Bump(ledger.Latest().value.version.v, level);
      if bumped.Failure? then Failure(CannotBump) else Success(Dev(bumped.value))
  }

  /** Why `apply_reopen` refuses before its first write. */
  function ReopenRefusal(t: Tree, target: VersionText): Option<CutError> {
    if !t.sdkVersion.IsVersion() then Some(MalformedVersion)
    else if t.sdkVersion.Dev? then Some(NothingToReopen)
    else
      var patch, minor := ReopenTarget(t.ledger, Patch), ReopenTarget(t.ledger, Minor);
      if patch.Failure? then Some(patch.error)
      else if target != patch.value && minor.Success? && target != minor.value then Some(WrongReopenTarget)
      else None
  }

  /** `apply_reopen` */
  function ApplyReopen(t: Tree, target: VersionText): Outcome<()> {
    var refusal := ReopenRefusal(t, target);
    if refusal.Some? then Outcome(t, Failure(refusal.value)) else
      var set' := SetSdkVersion(t, target);
      if set'.result.Failure? then set' else
        var log := EnsureUnreleased(set'.tree.sdkChangelog);
        if log.Failure? then Outcome(set'.tree, Failure(ChangelogRefused(log.error)))
        else Outcome(set'.tree.(sdkChangelog := log.value), Success(()))
  }

  // ---------------------------------------------------------------- the commands

  datatype Request = Request(
    level: LevelArg,
    force: bool,
    agentcoreLevel: LevelArg,
    commits: seq<Commit>,
    agentcoreCommits: Messages,
    squashed: seq<string>,
    date: string)

  type Repin = Tree -> string

  datatype Tools = Tools(hash: Hash, repin: Repin)

  function CurrentVersion(t: Tree): Result<VersionText, CutError> {
    if FirstDeclared(t.zon).None? || FirstDeclared(t.versionZig).None? then Failure(NotOneDeclaration)
    else if FirstDeclared(t.zon) != FirstDeclared(t.versionZig) then Failure(MirrorDisagrees)
    else Success(Classify(FirstDeclared(t.zon).value))
  }

  /** The level `cmd_cut` cuts at: the one asked for, or the derived one. */
  function ChosenLevel(request: Request): Level {
    if request.level.Auto? then DerivedLevel(request.commits) else request.level.level
  }

  /** The main version `cmd_cut` chooses. */
  function ChosenVersion(t: Tree, lastTag: VersionText, request: Request): Result<Version, CutError> {
    var dev :- CurrentVersion(t);
    var derived, level := DerivedLevel(request.commits), ChosenLevel(request);
    if derived.NoLevel? && request.level.Auto? && !request.force then Failure(VersionRefused(NoLevelDerived))
    else if request.level.Explicit? && !request.force && level.Rank() < derived.Rank() then Failure(BelowDerivedLevel)
    else match ComputeVersion(lastTag, dev, level)
      case Failure(error) => Failure(VersionRefused(error))
      case Success(version) => Success(version)
  }

  /** The main project's files of a cut. */
  function WriteMainCut(t: Tree, main: VersionText, date: string): Outcome<()> {
    var versioned := ApplyVersion(t, main);
    if versioned.result.Failure? then versioned else
      var rewritten := RewriteChangelog(t.changelog, Render(main), date, MAIN_SUBSECTIONS);
      if rewritten.Failure? then Outcome(versioned.tree, Failure(ChangelogRefused(rewritten.error)))
      else Outcome(versioned.tree.(changelog := rewritten.value.text), Success(()))
  }

  function Repinned(t: Tree, tools: Tools): Tree {
    t.(protocol := tools.repin(t))
  }

  /** What a cut writes once everything is decided; the fast path replays this. */
  function WriteCut(t: Tree, main: VersionText, date: string, sdkVersion: VersionText, sdkDate: string,
                    tools: Tools): Outcome<Kind> {
    var prepared := WriteMainCut(t, main, date);
    if prepared.result.Failure? then Outcome(prepared.tree, Failure(prepared.result.error)) else
      var cut := ApplyCut(prepared.tree, sdkVersion, main, sdkDate, tools.hash);
      if cut.result.Failure? then cut else Outcome(Repinned(cut.tree, tools), cut.result)
  }

  datatype Cut = Cut(main: Version, plan: CutPlan)

  function LevelName(level: Level): string {
    match level
    case NoLevel => "none"
    case Patch => "patch"
    case Minor => "minor"
    case Major => "major"
  }

  /** `agentcore_summary` */
  function Summary(ledger: Ledger, plan: CutPlan): string {
    var version := "AgentCore **" + Fmt(plan.version) + "** is ";
    var latest := ledger.Latest();
    var since := if latest.None? then "" else Render(latest.value.version);
    (if plan.kind.Reused? then
       version + "reused: inputs unchanged since " + since
       + ", so this release delivers the artifacts of the main release that built it."
     else
       version + "built by this release ("
       + (if latest.None? then "first formal release, at the -dev floor" else "inputs changed since " + since)
       + "; level " + (if plan.level.None? then "first" else LevelName(plan.level.value)) + ").")
    + " It implements ABI revision " + Decimal.Numeral(plan.abiRevision) + ".\n\n"
  }

  /** The pull request body of a cut, after AgentCore's summary and within what that leaves. */
  function CutBody(ledger: Ledger, main: Version, section: string, plan: CutPlan, request: Request): Option<string> {
    var lists := PrBody.Lists(
      LinesAt(request.commits, Major), LinesAt(request.commits, Minor), LinesAt(request.commits, Patch),
      UnknownLines(request.commits), request.squashed);
    PrBody.Composed(Fmt(main), LevelName(ChosenLevel(request)), section, lists,
                    PrBody.LIMIT - Utf8.Size(Summary(ledger, plan)))
  }

  /** What `cmd_cut` decides before the first write: version, changelog, plan and body. */
  function DecideCommandCut(t: Tree, lastTag: VersionText, request: Request, hash: Hash): Result<Cut, CutError> {
    var chosen := ChosenVersion(t, lastTag, request);
    if chosen.Failure? then Failure(chosen.error) else
      var rewritten := RewriteChangelog(t.changelog, Fmt(chosen.value), request.date, MAIN_SUBSECTIONS);
      if rewritten.Failure? then Failure(ChangelogRefused(rewritten.error)) else
        var plan := PlanCut(t, request.agentcoreLevel, request.force, request.agentcoreCommits, hash);
        if plan.Failure? then Failure(plan.error)
        else if CutBody(t.ledger, chosen.value, rewritten.value.section, plan.value, request).None?
        then Failure(BodyTooLong)
        else Success(Cut(chosen.value, plan.value))
  }

  /** `cmd_cut` */
  function CommandCut(t: Tree, lastTag: VersionText, request: Request, tools: Tools): Outcome<Cut> {
    match DecideCommandCut(t, lastTag, request, tools.hash)
    case Failure(error) => Outcome(t, Failure(error))
    case Success(cut) =>
      var written := WriteCut(t, Final(cut.main), request.date, Final(cut.plan.version), request.date, tools);
      match written.result
      case Failure(error) => Outcome(written.tree, Failure(error))
      case Success(_) => Outcome(written.tree, Success(cut))
  }

  /** The main project's files of a reopen. */
  function WriteMainReopen(t: Tree, main: VersionText): Outcome<()> {
    var versioned := ApplyVersion(t, main);
    if versioned.result.Failure? then versioned else
      var log := EnsureUnreleased(t.changelog);
      if log.Failure? then Outcome(versioned.tree, Failure(ChangelogRefused(log.error)))
      else Outcome(versioned.tree.(changelog := log.value), Success(()))
  }

  function WriteReopen(t: Tree, main: VersionText, sdkVersion: VersionText, tools: Tools): Outcome<()> {
    var prepared := WriteMainReopen(t, main);
    if prepared.result.Failure? then prepared else
      var reopened := ApplyReopen(prepared.tree, sdkVersion);
      if reopened.result.Failure? then reopened else Outcome(Repinned(reopened.tree, tools), reopened.result)
  }

  datatype Reopening = Reopening(main: VersionText, sdk: VersionText)

  /** What `cmd_reopen` decides before the first write; `tagged` says that the release's tag
      is on the remote and in this history. */
  function DecideCommandReopen(t: Tree, level: Level, agentcoreLevel: Level, tagged: bool): Result<Reopening,
                               CutError> {
    var released := CurrentVersion(t);
    if released.Failure? then Failure(released.error)
    else if released.value.Dev? then Failure(NothingToReopen)
    else if !tagged then Failure(NotTagged)
    else
      var target := NextDev(released.value, level);
      if target.Failure? then Failure(VersionRefused(target.error)) else
        var agentcoreTarget := ReopenTarget(t.ledger, agentcoreLevel);
        if agentcoreTarget.Failure? then Failure(agentcoreTarget.error)
        else Success(Reopening(target.value, agentcoreTarget.value))
  }

  /** `cmd_reopen` */
  function CommandReopen(t: Tree, level: Level, agentcoreLevel: Level, tagged: bool, tools: Tools): Outcome<()> {
    match DecideCommandReopen(t, level, agentcoreLevel, tagged)
    case Failure(error) => Outcome(t, Failure(error))
    case Success(to) => WriteReopen(t, to.main, to.sdk, tools)
  }

  // ---------------------------------------------------------------- the gate

  datatype Finding =
    | Unreadable
    | PackageDisagrees(name: string)
    | NotMovedTogether
    | NotAboveReleased
    | NotInLedger
    | OtherVersionRecorded
    | OtherRevisionRecorded
    | OtherInputsRecorded
    | TaggedUnreadable
    | HistoryRewritten

  function PackageFindings(t: Tree): seq<Finding> {
    (if DeclaredValues(t.pyProject) == [PythonText(t.sdkVersion)] then [] else [PackageDisagrees(PY_PROJECT)])
    + (if DeclaredValues(t.pyInit) == [PythonText(t.sdkVersion)] then [] else [PackageDisagrees(PY_INIT)])
    + (if DeclaredValues(t.nodePackage) == [NodeText(t.sdkVersion)] then [] else [PackageDisagrees(NODE_PACKAGE)])
  }

  function ReleaseStateFindings(t: Tree, revision: nat, main: VersionText, hash: Hash): seq<Finding> {
    match t.ledger.ByMainRelease(main)
    case None => [NotInLedger]
    case Some(entry) =>
      (if entry.version != t.sdkVersion then [OtherVersionRecorded] else [])
      + (if entry.abiRevision != revision then [OtherRevisionRecorded] else [])
      + (if InputDigest(t, hash) != entry.inputDigest then [OtherInputsRecorded] else [])
  }

  predicate IsDevText(main: VersionText) {
    main.Dev? || (main.Other? && |main.text| >= 4 && main.text[|main.text| - 4..] == DEV_SUFFIX)
  }

  /** `state_findings`, against the ledger at the last tag when there is one. */
  function StateFindings(t: Tree, main: VersionText, tagged: Option<Ledger>, hash: Hash): seq<Finding> {
    var abi := AbiRevisionOf(Files(t));
    if !t.ledger.Valid() || !t.sdkVersion.IsVersion() || abi.Failure? then [Unreadable] else
      PackageFindings(t)
      + (if IsDevText(main) != t.sdkVersion.Dev? then [NotMovedTogether] else [])
      + (if t.sdkVersion.Dev? then
           if t.ledger.releases == [] then []
           else
             LatestIsFinal(t.ledger);
             if Less(t.ledger.Latest().value.version.v, t.sdkVersion.v) then [] else [NotAboveReleased]
         else ReleaseStateFindings(t, abi.value, main, hash))
      + (if tagged.None? then []
         else if !tagged.value.Valid() then [TaggedUnreadable]
         else if !Grows(tagged.value, t.ledger) then [HistoryRewritten] else [])
  }

  /** What the gate demands of a release: its ledger entry says what the checkout says. */
  predicate RecordedAsIs(t: Tree, revision: nat, main: VersionText, hash: Hash) {
    var entry := t.ledger.ByMainRelease(main);
    && entry.Some? && entry.value.version == t.sdkVersion
    && entry.value.abiRevision == revision && entry.value.inputDigest == InputDigest(t, hash)
  }

  lemma AllBelow(ledger: Ledger, v: Version)
    requires ledger.Valid() && ledger.releases != []
    ensures ledger.Latest().value.version.Final?
    ensures Less(ledger.Latest().value.version.v, v) <==>
            forall r <- ledger.releases :: r.version.Final? && Less(r.version.v, v)
  {
    var rs := ledger.releases;
    ValidIffConsistent(rs);
    assert rs[|rs| - 1] in rs;
    forall r | r in rs && Less(rs[|rs| - 1].version.v, v) ensures r.version.Final? && Less(r.version.v, v) {
      var i :| 0 <= i < |rs| && rs[i] == r;
      if i < |rs| - 1 { assert Precedes(rs[i], rs[|rs| - 1]); }
    }
  }

  /** The gate finds nothing exactly when every part of the release state is in step. */
  lemma GateFindsEveryFault(t: Tree, main: VersionText, tagged: Option<Ledger>, hash: Hash)
    ensures StateFindings(t, main, tagged, hash) == [] <==>
              && t.ledger.Valid() && t.sdkVersion.IsVersion() && AbiRevisionOf(Files(t)).Success?
              && DeclaredValues(t.pyProject) == [PythonText(t.sdkVersion)]
              && DeclaredValues(t.pyInit) == [PythonText(t.sdkVersion)]
              && DeclaredValues(t.nodePackage) == [NodeText(t.sdkVersion)]
              && IsDevText(main) == t.sdkVersion.Dev?
              && (t.sdkVersion.Dev? ==>
                    forall r <- t.ledger.releases :: r.version.Final? && Less(r.version.v, t.sdkVersion.v))
              && (t.sdkVersion.Final? ==> RecordedAsIs(t, AbiRevisionOf(Files(t)).value, main, hash))
              && (tagged.Some? ==> tagged.value.Valid() && Grows(tagged.value, t.ledger))
  {
    hide ValidReleases, Files, AbiRevisionOf, InputsOf, DeclaredValues, Grows, Consistent;
    if t.ledger.Valid() && t.ledger.releases != [] {
      LatestIsFinal(t.ledger);
      if t.sdkVersion.IsVersion() { AllBelow(t.ledger, t.sdkVersion.v); }
    }
  }
}
