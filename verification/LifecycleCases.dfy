/** Concrete checkouts: cuts and reopens that go through, and cuts that are refused after
    they have written. */
module LifecycleCases {
  import opened Results
  import opened Versions
  import opened Ledgers
  import opened Lines
  import opened Utf8
  import opened Changelog
  import opened Trees
  import opened Cuts
  import opened Planning
  import opened Effects
  import opened Lifecycle
  import Decimal
  import opened Examples
  import ChangelogProofs
  import FastPathProofs
  import PrBody
  import Refusals

  const DEV := Dev(Version(1, 1, 1))

  const SDK_DEV := Dev(Version(0, 2, 1))

  /** Development after main release 1.1.0, before the first AgentCore release. */
  function FirstTree(): Tree {
    ExampleTree(1, 1).(
      zon := [Declared(Render(DEV))], versionZig := [Declared(Render(DEV))], sdkVersion := SDK_DEV,
      pyProject := [Declared(PythonText(SDK_DEV))], pyInit := [Declared(PythonText(SDK_DEV))],
      nodePackage := [Declared(NodeText(SDK_DEV))],
      changelog := Log(), sdkChangelog := Log(), ledger := Ledger([]))
  }

  function FirstState(): State {
    State(FirstTree(), FirstTree(), [Tag(Version(1, 1, 0), None)], map[])
  }

  function FirstRequest(): Request {
    Request(Explicit(Patch), true, Auto, [], _ => [], [], DATE)
  }

  function SomeTools(): Tools {
    Tools(_ => DigestOf('a'), _ => "")
  }

  lemma MirrorIsOther(a: Tree, b: Tree, name: string)
    requires a.others == b.others && IsInput(name) && name !in VERSION_LINES
    ensures (name in Files(a) <==> name in Files(b)) && (name in Files(a) ==> Files(a)[name] == Files(b)[name])
  {
    GeneratedOutsideTheDigest();
  }

  lemma OthersDeclareTheAbi(a: Tree, b: Tree)
    requires a.others == b.others
    ensures AbiRevisionOf(Files(a)) == AbiRevisionOf(Files(b)) && AbiVersionOf(Files(a)) == AbiVersionOf(Files(b))
  {
    hide FirstRevision, FirstVersion, IsInput;
    MirrorsAreInputs();
    forall name | name in ABI_MIRRORS
      ensures (name in Files(a) <==> name in Files(b)) && (name in Files(a) ==> Files(a)[name] == Files(b)[name])
    {
      assert IsInput(name) && name !in VERSION_LINES;
      MirrorIsOther(a, b, name);
    }
    assert ABI_MIRRORS[0] == ABI_AUTHORITY && ABI_AUTHORITY in ABI_MIRRORS;
  }

  lemma FirstTreeDeclares()
    ensures AbiRevisionOf(Files(FirstTree())) == Success(1) && AbiVersionOf(Files(FirstTree())) == Success(1)
    ensures MainVersion(FirstTree()) == Some(DEV) && CurrentVersion(FirstTree()) == Success(DEV)
    ensures PackageFindings(FirstTree()) == [] && PackagesDeclareOnce(FirstTree())
    ensures MainFilesSay(FirstTree(), DEV)
  {
    hide Files, AbiRevisionOf, AbiVersionOf, Classify, Render, PythonText, NodeText, InputsOf;
    ExampleDeclaresAbi(1, 1);
    OthersDeclareTheAbi(ExampleTree(1, 1), FirstTree());
    OneDeclaration(Render(DEV));
    OneDeclaration(PythonText(SDK_DEV));
    OneDeclaration(NodeText(SDK_DEV));
    ClassifiedText(DEV);
  }

  // ---------------------------------------------------------------- a short body fits

  lemma {:induction false} JoinIsShort(lines: seq<string>)
    requires forall line <- lines :: |line| <= 300
    ensures |Join(lines)| <= 301 * |lines|
  {
    if |lines| > 1 {
      assert forall line <- lines[1..] :: line in lines;
      JoinIsShort(lines[1..]);
      assert lines[0] in lines;
    } else if |lines| == 1 {
      assert lines[0] in lines;
    }
  }

  lemma FinishIsShort(lines: seq<string>)
    requires forall line <- lines :: |line| <= 300
    ensures Size(Finish(lines)) <= 4 * (301 * |lines| + 1)
  {
    JoinIsShort(lines);
    RStripIsShorter(Join(lines));
    SizeIsBounded(Finish(lines));
  }

  predicate IsSmall(v: Version) {
    v.major < 10 && v.minor < 10 && v.patch < 10
  }

  lemma SmallText(v: Version)
    requires IsSmall(v)
    ensures |Fmt(v)| == 5
  {
  }

  lemma SmallNumeral(n: nat)
    requires n < 10
    ensures |Decimal.Numeral(n)| == 1
  {
  }

  lemma ShortBody(version: string, section: string, limit: int)
    requires |section| <= 100 && limit >= 10000
    ensures PrBody.Composed(version, "patch", section, PrBody.Lists([], [], [], [], []), limit).Some?
  {
    hide PrBody.Kept, PrBody.SectionPointer, Size, Finish;
    var head := [section, "", "## Bump derivation", "", "Level: **patch**", "", PrBody.CLOSING];
    assert PrBody.Parts("patch", section, PrBody.Lists([], [], [], [], []), None) == head by {
      assert "Level: **" + "patch" + "**" == "Level: **patch**";
    }
    assert |PrBody.CLOSING| <= 300;
    FinishIsShort(head);
  }

  lemma ShortSummary(ledger: Ledger, plan: CutPlan)
    requires IsSmall(plan.version) && plan.abiRevision < 10
    requires ledger.Latest().Some? ==> ledger.Latest().value.version.Final? && IsSmall(ledger.Latest().value.version.v)
    ensures Size(Summary(ledger, plan)) <= 4 * 500
  {
    hide Size, Fmt, Decimal.Numeral;
    SmallText(plan.version);
    SmallNumeral(plan.abiRevision);
    if ledger.Latest().Some? { SmallText(ledger.Latest().value.version.v); }
    SizeIsBounded(Summary(ledger, plan));
  }

  lemma ShortCutBody(ledger: Ledger, main: Version, section: string, plan: CutPlan)
    requires IsSmall(plan.version) && plan.abiRevision < 10 && |section| <= 100
    requires ledger.Latest().Some? ==> ledger.Latest().value.version.Final? && IsSmall(ledger.Latest().value.version.v)
    ensures CutBody(ledger, main, section, plan, FirstRequest()).Some?
  {
    hide Summary, PrBody.Composed, Size;
    ShortSummary(ledger, plan);
    ShortBody(Fmt(main), section, PrBody.LIMIT - Size(Summary(ledger, plan)));
  }

  lemma LogBlock()
    ensures UnreleasedBlock(SplitLines(Log())) == Some([UNRELEASED, "- entry"])
  {
    var lines := [UNRELEASED, "- entry"];
    hide SplitLines, Finish;
    LogLines();
    assert "- entry"[0] == '-' && SECTION_PREFIX[0] == '#';
    assert !IsSection("- entry");
    assert First(lines, Equals(UNRELEASED), 0) == 0;
    assert First(lines, IsSection, 1) == 2;
    ChangelogProofs.BlockIs(lines, Equals(UNRELEASED), IsSection, 0, 2);
    assert lines[0..2] == lines;
  }

  lemma TwoLines(a: string, b: string)
    ensures |Finish([a, b])| <= |a| + |b| + 2
  {
    assert [a, b][1..] == [b];
    assert Join([a, b]) == a + "\n" + b;
    RStripIsShorter(Join([a, b]));
  }

  /** The section that a small version gets from the one-entry changelog is short, and its
      file keeps `## Unreleased`. */
  lemma LogSection(version: Version, subsections: seq<string>)
    requires IsSmall(version)
    ensures var rewritten := RewriteChangelog(Log(), Fmt(version), DATE, subsections);
            && rewritten.Success? && |rewritten.value.section| <= 100
            && EnsureUnreleased(rewritten.value.text).Success?
  {
    hide RewriteChangelog, EnsureUnreleased, Fmt, SplitLines, Finish, UnreleasedBlock;
    LogRewrites(version, subsections);
    FmtIsDotted(version);
    SmallText(version);
    ChangelogProofs.CutReadsBack(Log(), Fmt(version), DATE, subsections, Fmt(version));
    ChangelogProofs.RewriteInsertsTheHeading(Log(), Fmt(version), DATE, subsections);
    LogBlock();
    var lines := [HeadingLine(Fmt(version), DATE), "- entry"];
    assert [HeadingLine(Fmt(version), DATE)] + ["- entry"] == lines;
    TwoLines(lines[0], lines[1]);
  }

  // ---------------------------------------------------------------- the first cut

  const MAIN := Version(1, 1, 1)

  const NEXT_MAIN := Version(1, 1, 2)

  const SDK := Version(0, 2, 1)

  function FirstPlan(): CutPlan {
    CutPlan(Built, SDK, 1, None)
  }

  /** The first checkout, but for one package's version and AgentCore's changelog. */
  predicate LikeFirst(t: Tree) {
    t == FirstTree().(pyInit := t.pyInit, sdkChangelog := t.sdkChangelog)
  }

  lemma LikeFirstDeclares(t: Tree)
    requires LikeFirst(t)
    ensures AbiRevisionOf(Files(t)) == Success(1) && AbiVersionOf(Files(t)) == Success(1)
    ensures MainVersion(t) == Some(DEV) && CurrentVersion(t) == Success(DEV)
  {
    hide Files, AbiRevisionOf, AbiVersionOf;
    FirstTreeDeclares();
    OthersDeclareTheAbi(FirstTree(), t);
  }

  lemma FirstIsDecided(t: Tree)
    requires LikeFirst(t)
    ensures DecideCommandCut(t, Final(Version(1, 1, 0)), FirstRequest(), SomeTools().hash)
            == Success(Cut(MAIN, FirstPlan()))
  {
    hide Files, InputsOf, AbiRevisionOf, AbiVersionOf, RewriteChangelog, Fmt, Log, CutBody, CurrentVersion;
    LikeFirstDeclares(t);
    LogSection(MAIN, MAIN_SUBSECTIONS);
    var section := RewriteChangelog(Log(), Fmt(MAIN), DATE, MAIN_SUBSECTIONS).value.section;
    ShortCutBody(t.ledger, MAIN, section, FirstPlan());
  }

  lemma FirstIsBuildable(t: Tree, main: VersionText)
    requires LikeFirst(t) && t.sdkChangelog == Log() && main.Final?
    ensures Buildable(FactsOf(t, SomeTools().hash), SDK, main, DATE)
  {
    hide Files, InputsOf, AbiRevisionOf, AbiVersionOf, RewriteChangelog, Fmt, Log;
    LikeFirstDeclares(t);
    LogRewrites(SDK, SDK_SUBSECTIONS);
  }

  lemma FirstGoesThrough()
    ensures Refusals.CutGoesThrough(FirstTree(), Cut(MAIN, FirstPlan()), DATE, SomeTools().hash)
  {
    hide Files, InputsOf, AbiRevisionOf, AbiVersionOf, RewriteChangelog, Render, Buildable, Log;
    OneDeclaration(Render(DEV));
    FirstTreeDeclares();
    FirstIsBuildable(FirstTree(), Final(MAIN));
  }

  /** A decided cut that goes through has done what was planned. */
  lemma CutIsTaken(t: Tree, lastTag: VersionText, request: Request, tools: Tools)
    requires DecideCommandCut(t, lastTag, request, tools.hash).Success?
    requires var cut := DecideCommandCut(t, lastTag, request, tools.hash).value;
             Refusals.CutGoesThrough(t, cut, request.date, tools.hash)
    ensures var cut := DecideCommandCut(t, lastTag, request, tools.hash).value;
            var done := CommandCut(t, lastTag, request, tools);
            && done.result == Success(cut)
            && IsCutOf(t, done.tree, Final(cut.main), request.date, Final(cut.plan.version), cut.plan.kind, tools.hash)
  {
    hide DecideCommandCut, Refusals.CutGoesThrough, IsCutOf, WriteCut;
    Refusals.CommandCutOutcome(t, lastTag, request, tools);
    Refusals.KindIsPlanned(t, lastTag, request, tools);
    var cut := DecideCommandCut(t, lastTag, request, tools.hash).value;
    CutIsDone(t, Final(cut.main), request.date, Final(cut.plan.version), request.date, tools);
  }

  predicate CarriedBy(ledger: Ledger, mains: seq<VersionText>) {
    && |ledger.releases| == 1
    && ledger.releases[0].version == Final(SDK) && ledger.releases[0].abiRevision == 1
    && ledger.releases[0].inputDigest == DigestOf('a')
    && ledger.releases[0].mainReleases == mains
  }

  /** A checkout at a release of the first AgentCore version, carried by `mains`. */
  ghost predicate AtRelease(t: Tree, main: Version, mains: seq<VersionText>) {
    && SameSources(FirstTree(), t) && MainFilesSay(t, Final(main))
    && t.sdkVersion == Final(SDK) && PackageFindings(t) == []
    && t.ledger.Valid() && CarriedBy(t.ledger, mains)
    && EnsureUnreleased(t.changelog).Success? && EnsureUnreleased(t.sdkChangelog).Success?
  }

  lemma FirstRewritesItsChangelog()
    ensures var done := CommandCut(FirstTree(), Final(Version(1, 1, 0)), FirstRequest(), SomeTools());
            EnsureUnreleased(done.tree.sdkChangelog).Success?
  {
    hide DecideCommandCut, Refusals.CutGoesThrough, RewriteChangelog, EnsureUnreleased, FactsOf, DecideCut,
         WriteCut, Log, Fmt;
    var t, tools := FirstTree(), SomeTools();
    FirstIsDecided(FirstTree());
    FirstGoesThrough();
    CutIsTaken(t, Final(Version(1, 1, 0)), FirstRequest(), tools);
    Refusals.KindIsPlanned(t, Final(Version(1, 1, 0)), FirstRequest(), tools);
    WriteCutEffect(t, Final(MAIN), DATE, Final(SDK), DATE, tools);
    FastPathProofs.BuiltRewrites(FactsOf(t, tools.hash), Final(SDK), Final(MAIN), DATE);
    Refusals.SdkChangelogOfFacts(t, tools.hash);
    LogSection(SDK, SDK_SUBSECTIONS);
  }

  lemma FirstCutIsTaken()
    ensures var done := CommandCut(FirstTree(), Final(Version(1, 1, 0)), FirstRequest(), SomeTools());
            && done.result == Success(Cut(MAIN, FirstPlan()))
            && AtRelease(done.tree, MAIN, [Final(MAIN)])
  {
    hide CommandCut, DecideCommandCut, Refusals.CutGoesThrough, SameSources, MainFilesSay, PackageFindings,
         RewriteChangelog, EnsureUnreleased, ValidReleases, Files, AbiRevisionOf, AbiVersionOf, InputsOf, Log,
         Fmt;
    FirstIsDecided(FirstTree());
    FirstGoesThrough();
    CutIsTaken(FirstTree(), Final(Version(1, 1, 0)), FirstRequest(), SomeTools());
    FirstTreeDeclares();
    LogSection(MAIN, MAIN_SUBSECTIONS);
    LogSection(SDK, SDK_SUBSECTIONS);
    FirstRewritesItsChangelog();
  }

  // ---------------------------------------------------------------- refused cuts that wrote

  /** AgentCore's changelog has no entry to cut. */
  function Silent(): Tree {
    FirstTree().(sdkChangelog := Finish([UNRELEASED]))
  }

  /** One package declares no version. */
  function Undeclared(): Tree {
    FirstTree().(pyInit := [])
  }

  lemma NoEntryNoSection(version: string, subsections: seq<string>)
    ensures RewriteChangelog(Finish([UNRELEASED]), version, DATE, subsections).Failure?
  {
    var lines := [UNRELEASED];
    hide SplitLines, Finish;
    assert OneLine(UNRELEASED);
    assert Trimmed(lines) == lines;
    SplitOfFinish(lines);
    assert First(lines, Equals(UNRELEASED), 0) == 0;
    assert First(lines, IsSection, 1) == 1;
    assert lines[1..1] == [];
  }

  lemma SilentIsNotBuildable()
    ensures !Buildable(FactsOf(Silent(), SomeTools().hash), SDK, Final(MAIN), DATE)
  {
    hide Files, InputsOf, AbiRevisionOf, AbiVersionOf, RewriteChangelog, Fmt, Finish;
    NoEntryNoSection(Fmt(SDK), SDK_SUBSECTIONS);
  }

  lemma UndeclaredIsAllowed()
    ensures var f := FactsOf(Undeclared(), SomeTools().hash);
            Refusals.CutAllowed(f, Final(SDK), Final(MAIN), DATE) && !Refusals.CanReuse(f, Final(SDK), Final(MAIN))
    ensures !PackagesDeclareOnce(Undeclared())
  {
    hide Files, InputsOf, AbiRevisionOf, AbiVersionOf, Buildable, Log;
    LikeFirstDeclares(Undeclared());
    FirstIsBuildable(Undeclared(), Final(MAIN));
  }

  /** Both commands below were refused by AgentCore's half, and the checkout already says
      the new main version; in the second AgentCore's changelog is rewritten as well. */
  lemma RefusedCutsHaveWritten()
    ensures forall t <- {Silent(), Undeclared()} ::
              var done := CommandCut(t, Final(Version(1, 1, 0)), FirstRequest(), SomeTools());
              done.result.Failure? && MainVersion(t) == Some(DEV) && MainVersion(done.tree) == Some(Final(MAIN))
    ensures var applied := ApplyCut(Undeclared(), Final(SDK), Final(MAIN), DATE, SomeTools().hash);
            applied.result.Failure? && applied.tree != Undeclared()
  {
    hide CommandCut, DecideCommandCut, ApplyCut, Buildable, DecideCut, RewriteChangelog, MainVersion,
         ChangelogReady, FactsOf, Fmt, Log, Finish, Render;
    forall t | t in {Silent(), Undeclared()}
      ensures var done := CommandCut(t, Final(Version(1, 1, 0)), FirstRequest(), SomeTools());
              done.result.Failure? && MainVersion(t) == Some(DEV) && MainVersion(done.tree) == Some(Final(MAIN))
    {
      LikeFirstDeclares(t);
      FirstIsDecided(t);
      OneDeclaration(Render(DEV));
      if t == Silent() { SilentIsNotBuildable(); }
      Refusals.CommandCutOutcome(t, Final(Version(1, 1, 0)), FirstRequest(), SomeTools());
    }
    var t := Undeclared();
    FirstIsBuildable(t, Final(MAIN));
    Refusals.ApplyCutOutcome(t, Final(SDK), Final(MAIN), DATE, SomeTools().hash);
    UndeclaredIsAllowed();
  }

  // ---------------------------------------------------------------- the reopen and the second cut

  /** Development again, with a new entry in the main changelog. */
  ghost predicate InDevelopment(t: Tree) {
    && SameSources(FirstTree(), t) && MainFilesSay(t, Dev(NEXT_MAIN))
    && t.sdkVersion == Dev(Version(0, 2, 2)) && PackageFindings(t) == []
    && t.ledger.Valid() && CarriedBy(t.ledger, [Final(MAIN)])
  }

  lemma PackagesOnce(t: Tree)
    requires PackageFindings(t) == []
    ensures PackagesDeclareOnce(t)
  {
  }

  lemma ReopenWrites(t: Tree, level: Level, agentcoreLevel: Level, tagged: bool, tools: Tools)
    requires DecideCommandReopen(t, level, agentcoreLevel, tagged).Success?
    ensures var to := DecideCommandReopen(t, level, agentcoreLevel, tagged).value;
            CommandReopen(t, level, agentcoreLevel, tagged, tools) == WriteReopen(t, to.main, to.sdk, tools)
  {
  }

  lemma SameSourcesThrough(a: Tree, b: Tree, c: Tree)
    requires SameSources(a, b) && SameSources(b, c)
    ensures SameSources(a, c)
  {
  }

  lemma ReopenIsTaken(t: Tree)
    requires AtRelease(t, MAIN, [Final(MAIN)])
    ensures var done := CommandReopen(t, Patch, Patch, true, SomeTools());
            done.result.Success? && InDevelopment(done.tree) && EnsureUnreleased(done.tree.sdkChangelog).Success?
  {
    hide CommandReopen, WriteReopen, SameSources, PackageFindings, PackagesDeclareOnce, EnsureUnreleased,
         ValidReleases, CurrentVersion, MainVersion;
    MainFilesAreRead(t, Final(MAIN));
    assert DecideCommandReopen(t, Patch, Patch, true) == Success(Reopening(Dev(NEXT_MAIN), Dev(Version(0, 2, 2))));
    Refusals.ReopenRefusalIff(t, Patch, Patch, true);
    PackagesOnce(t);
    Refusals.CommandReopenOutcome(t, Patch, Patch, true, SomeTools());
    ReopenWrites(t, Patch, Patch, true, SomeTools());
    WriteReopenEffect(t, Dev(NEXT_MAIN), Dev(Version(0, 2, 2)), SomeTools());
    SameSourcesThrough(FirstTree(), t, CommandReopen(t, Patch, Patch, true, SomeTools()).tree);
    ChangelogProofs.ReopenKeepsSections(t.sdkChangelog, "");
  }

  /** The edit that gives the next main release something to say. */
  function WithEntry(t: Tree): Tree {
    t.(changelog := Log())
  }

  lemma EntryMayBeAdded(t: Tree, after: Tree)
    requires InDevelopment(t) && after == WithEntry(t).(sdkChangelog := after.sdkChangelog)
    ensures EditAllowed(t, after) && InDevelopment(after)
    ensures InputsOf(Files(after)) == InputsOf(Files(FirstTree()))
    ensures AbiRevisionOf(Files(after)) == Success(1)
  {
    hide Files, InputsOf, AbiRevisionOf, AbiVersionOf, ValidReleases, MainVersion, DeclaredValues, SetDeclared,
         Log;
    MainFilesAreRead(t, Dev(NEXT_MAIN));
    MainFilesAreRead(after, Dev(NEXT_MAIN));
    FirstTreeDeclares();
    SourcesDeclareTheAbi(FirstTree(), after);
    DigestIgnoresVersions(FirstTree(), after, SomeTools().hash);
  }

  function SecondPlan(): CutPlan {
    CutPlan(Reused, SDK, 1, Some(NoLevel))
  }

  lemma SecondIsDecided(t: Tree)
    requires InDevelopment(t) && t.changelog == Log() && AbiRevisionOf(Files(t)) == Success(1)
    ensures DecideCommandCut(t, Final(MAIN), FirstRequest(), SomeTools().hash) == Success(Cut(NEXT_MAIN, SecondPlan()))
    ensures Refusals.CutGoesThrough(t, Cut(NEXT_MAIN, SecondPlan()), DATE, SomeTools().hash)
  {
    hide Files, InputsOf, AbiRevisionOf, ValidReleases, RewriteChangelog, Fmt, Log, CutBody, CurrentVersion,
         PackageFindings, PackagesDeclareOnce, SameSources, EnsureUnreleased;
    MainFilesAreRead(t, Dev(NEXT_MAIN));
    PackagesOnce(t);
    LogSection(NEXT_MAIN, MAIN_SUBSECTIONS);
    var section := RewriteChangelog(Log(), Fmt(NEXT_MAIN), DATE, MAIN_SUBSECTIONS).value.section;
    ShortCutBody(t.ledger, NEXT_MAIN, section, SecondPlan());
  }

  lemma OneEntryMains(rs: seq<Release>)
    requires |rs| == 1
    ensures Mains(rs) == rs[0].mainReleases
  {
    assert rs[..0] == [];
  }

  lemma CarriedOnce(before: Ledger, after: Ledger)
    requires CarriedBy(before, [Final(MAIN)]) && |after.releases| == 1
    requires after.releases[0].Identity() == before.releases[0].Identity()
    requires Mains(after.releases) == Mains(before.releases) + [Final(NEXT_MAIN)]
    ensures CarriedBy(after, [Final(MAIN), Final(NEXT_MAIN)])
  {
    SameIdentityFields(after.releases[0], before.releases[0]);
    OneEntryMains(before.releases);
    OneEntryMains(after.releases);
  }

  lemma SecondCutIsTaken(t: Tree)
    requires InDevelopment(t) && t.changelog == Log() && AbiRevisionOf(Files(t)) == Success(1)
    requires EnsureUnreleased(t.sdkChangelog).Success?
    ensures var done := CommandCut(t, Final(MAIN), FirstRequest(), SomeTools());
            && done.result == Success(Cut(NEXT_MAIN, SecondPlan()))
            && AtRelease(done.tree, NEXT_MAIN, [Final(MAIN), Final(NEXT_MAIN)])
  {
    hide CommandCut, DecideCommandCut, Refusals.CutGoesThrough, SameSources, MainFilesSay, PackageFindings,
         RewriteChangelog, EnsureUnreleased, ValidReleases, Files, AbiRevisionOf, AbiVersionOf, InputsOf, Log,
         Fmt, Grows;
    SecondIsDecided(t);
    CutIsTaken(t, Final(MAIN), FirstRequest(), SomeTools());
    LogSection(NEXT_MAIN, MAIN_SUBSECTIONS);
    var after := CommandCut(t, Final(MAIN), FirstRequest(), SomeTools()).tree;
    SameSourcesThrough(FirstTree(), t, after);
    CarriedOnce(t.ledger, after.ledger);
  }
}
