/** Concrete checkouts and changelogs. */
module Examples {
  import opened Results
  import opened Versions
  import opened Ledgers
  import opened Lines
  import opened Changelog
  import opened Trees

  const DATE := "2026-01-31"

  // ---------------------------------------------------------------- changelogs

  function Log(): string {
    Finish([UNRELEASED, "- entry"])
  }

  lemma LogLines()
    ensures SplitLines(Log()) == [UNRELEASED, "- entry"]
  {
    var lines := [UNRELEASED, "- entry"];
    assert OneLine(UNRELEASED) && OneLine("- entry");
    assert Trimmed(lines) == lines;
    SplitOfFinish(lines);
  }

  lemma LogRewrites(version: Version, subsections: seq<string>)
    ensures RewriteChangelog(Log(), Fmt(version), DATE, subsections).Success?
  {
    var lines := [UNRELEASED, "- entry"];
    hide SplitLines, Finish, Fmt;
    LogLines();
    assert lines[1..2] == ["- entry"] && "- entry" in lines[1..2];
    assert First(lines, Equals(UNRELEASED), 0) == 0;
    assert First(lines, Equals(UNRELEASED), 2) == 2;
    assert "- entry"[0] == '-' && SECTION_PREFIX[0] == '#';
    assert !IsSection("- entry");
    assert First(lines, IsSection, 1) == 2;
    assert ReadHeading(UNRELEASED).None? && ReadHeading("- entry").None?;
    assert First(lines, Naming(Fmt(version)), 0) == 2;
  }

  /** A changelog whose one entry is about migration. */
  function MigrationLog(): string {
    Finish([UNRELEASED, MIGRATION_HEADING, "- entry"])
  }

  lemma MigrationLines(heading: string)
    requires OneLine(heading)
    ensures SplitLines(Finish([heading, MIGRATION_HEADING, "- entry"])) == [heading, MIGRATION_HEADING, "- entry"]
  {
    var lines := [heading, MIGRATION_HEADING, "- entry"];
    assert OneLine(MIGRATION_HEADING) && OneLine("- entry");
    assert Trimmed(lines) == lines;
    SplitOfFinish(lines);
  }

  lemma EntryIsNoHash()
    ensures !IsHash("- entry") && !IsSection("- entry") && !IsSection(MIGRATION_HEADING)
  {
    assert "- entry"[0] == '-' && SECTION_PREFIX[0] == '#' && MIGRATION_HEADING[2] == '#' && SECTION_PREFIX[2] == ' ';
  }

  lemma MigrationBlock(heading: string)
    requires OneLine(heading) && heading != MIGRATION_HEADING
    ensures HasMigration(Finish([heading, MIGRATION_HEADING, "- entry"]))
  {
    var lines := [heading, MIGRATION_HEADING, "- entry"];
    hide SplitLines, Finish, IsHash;
    MigrationLines(heading);
    EntryIsNoHash();
    assert First(lines, Equals(MIGRATION_HEADING), 0) == 1;
    assert First(lines, IsHash, 2) == 3;
    assert lines[1..3][1..] == ["- entry"];
    assert "- entry" in lines[1..3][1..] && IsEntry("- entry");
  }

  lemma HeadingIsRelease(version: string)
    ensures HeadingLine(version, DATE) != MIGRATION_HEADING
  {
    assert HeadingLine(version, DATE)[2] == ' ' && MIGRATION_HEADING[2] == '#';
  }

  lemma MigrationIsKnown()
    ensures KnownSubsections([MIGRATION_HEADING, "- entry"], SDK_SUBSECTIONS)
  {
    assert MIGRATION_HEADING[4..] == "Migration" == SDK_SUBSECTIONS[6];
    assert "- entry"[0] == '-' && SUBSECTION_PREFIX[0] == '#';
  }

  lemma MigrationLogRewrites(version: string)
    ensures var rewritten := RewriteChangelog(MigrationLog(), version, DATE, SDK_SUBSECTIONS);
            && rewritten.Success?
            && rewritten.value.section == Finish([HeadingLine(version, DATE), MIGRATION_HEADING, "- entry"])
  {
    var lines := [UNRELEASED, MIGRATION_HEADING, "- entry"];
    hide SplitLines, Finish, IsSection, HeadingLine, KnownSubsections;
    assert OneLine(UNRELEASED);
    MigrationLines(UNRELEASED);
    EntryIsNoHash();
    assert First(lines, Equals(UNRELEASED), 0) == 0;
    assert First(lines, Equals(UNRELEASED), 1) == 3;
    assert First(lines, IsSection, 1) == 3;
    assert lines[1..3] == [MIGRATION_HEADING, "- entry"];
    assert ReadHeading(UNRELEASED).None? && ReadHeading(MIGRATION_HEADING).None? && ReadHeading("- entry").None?;
    assert First(lines, Naming(version), 0) == 3;
    MigrationIsKnown();
    assert "- entry" in lines[1..3] && IsEntry("- entry");
    assert [HeadingLine(version, DATE)] + lines[1..3] == [HeadingLine(version, DATE), MIGRATION_HEADING, "- entry"];
  }

  /** Every version's section can be cut from it, and announces a migration. */
  lemma MigrationLogIsReady(version: Version)
    ensures var rewritten := RewriteChangelog(MigrationLog(), Fmt(version), DATE, SDK_SUBSECTIONS);
            rewritten.Success? && HasMigration(rewritten.value.section)
  {
    var heading := HeadingLine(Fmt(version), DATE);
    hide SplitLines, Finish, Fmt, HasMigration, First, HeadingLine;
    MigrationLogRewrites(Fmt(version));
    FmtIsDotted(version);
    HeadingReadsBack(Fmt(version), DATE);
    HeadingIsRelease(Fmt(version));
    MigrationBlock(heading);
  }

  // ---------------------------------------------------------------- checkouts

  function DigestOf(c: char): (s: Digest)
    requires 'a' <= c <= 'f'
    ensures |s| == 64 && forall k | 0 <= k < 64 :: s[k] == c
  {
    seq(64, _ => c)
  }

  function FirstRelease(): Release {
    Release(Final(Version(0, 1, 0)), 1, 1, DigestOf('a'), [Final(Version(1, 0, 0))])
  }

  function SecondRelease(): Release {
    Release(Final(Version(0, 2, 0)), 1, 1, DigestOf('b'), [Final(Version(1, 1, 0))])
  }

  function Hashing(c: char): Hash
    requires 'a' <= c <= 'f'
  {
    _ => DigestOf(c)
  }

  function ExampleMirror(abiVersion: nat, revision: nat): Text {
    [AbiVersion(abiVersion), AbiRevision(revision)]
  }

  function ExampleTree(abiVersion: nat, revision: nat): Tree {
    Tree([Declared("1.1.1-dev")], [Declared("1.1.1-dev")], "", "", Dev(Version(0, 2, 1)),
         [Declared("0.2.1.dev0")], [Declared("0.2.1.dev0")], [Declared("0.2.1-dev.0")],
         MigrationLog(), Ledger([FirstRelease(), SecondRelease()]),
         map[ABI_MIRRORS[0] := ExampleMirror(abiVersion, revision),
             ABI_MIRRORS[1] := ExampleMirror(abiVersion, revision),
             ABI_MIRRORS[2] := ExampleMirror(abiVersion, revision),
             ABI_MIRRORS[3] := ExampleMirror(abiVersion, revision),
             ABI_MIRRORS[4] := ExampleMirror(abiVersion, revision)])
  }

  lemma ExampleLedgerIsValid()
    ensures ValidReleases([FirstRelease(), SecondRelease()])
  {
    assert [FirstRelease(), SecondRelease()][..1] == [FirstRelease()] && [FirstRelease()][..0] == [];
    assert MainsError(None, FirstRelease().mainReleases[1..]).None?;
    assert MainsError(None, SecondRelease().mainReleases[1..]).None?;
    assert FirstRelease().mainReleases[1..] == [] && SecondRelease().mainReleases[1..] == [];
    assert EntryError([], FirstRelease()).None?;
    assert FirstRelease().inputDigest[0] != SecondRelease().inputDigest[0];
    assert EntryError([FirstRelease()], SecondRelease()).None?;
  }

  lemma ExampleDeclaresAbi(abiVersion: nat, revision: nat)
    ensures AbiRevisionOf(Files(ExampleTree(abiVersion, revision))) == Success(revision)
    ensures AbiVersionOf(Files(ExampleTree(abiVersion, revision))) == Success(abiVersion)
  {
    var t := ExampleTree(abiVersion, revision);
    var files := Files(t);
    MirrorsAreInputs();
    GeneratedOutsideTheDigest();
    var text := ExampleMirror(abiVersion, revision);
    assert text[1..] == [AbiRevision(revision)];
    assert FirstRevision(text) == FirstRevision(text[1..]) == Some(revision);
    assert FirstVersion(text) == Some(abiVersion);
    forall name | name in ABI_MIRRORS ensures name in files && files[name] == Source(text) {
      assert IsInput(name) && name !in VERSION_LINES;
    }
    assert forall name <- ABI_MIRRORS :: RevisionAt(files, name) == Some(revision);
    assert ABI_AUTHORITY in ABI_MIRRORS by { assert ABI_MIRRORS[0] == ABI_AUTHORITY; }
  }

  lemma OneDeclaration(value: string)
    ensures DeclaredValues([Declared(value)]) == [value]
  {
    assert [Declared(value)][1..] == [];
  }
}
