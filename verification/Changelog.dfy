/** Changelog files: turning `## Unreleased` into a release section, reading a
    section and its date back, and restoring `## Unreleased` on a reopen. */
module Changelog {
  import opened Results
  import opened Versions
  import opened Lines
  import Decimal

  const UNRELEASED := "## Unreleased"

  const SECTION_PREFIX := "## "

  const SUBSECTION_PREFIX := "### "

  const ENTRY_PREFIX := "- "

  const MIGRATION_HEADING := "### Migration"

  const DASH := " — "

  const MAIN_SUBSECTIONS := ["Added", "Changed", "Deprecated", "Removed", "Fixed", "Security"]

  const SDK_SUBSECTIONS := ["Added", "Changed", "Deprecated", "Removed", "Fixed", "Security", "Migration"]

  datatype ChangelogError =
    | NotOneUnreleased
    | SectionExists
    | UnknownSubsection
    | NoEntry
    | NoReleaseHeading
    | NoSection

  // ---------------------------------------------------------------- headings

  /** `\d+\.\d+\.\d+` */
  predicate IsDotted(s: string) {
    var i := IndexOf(s, '.');
    && i < |s|
    && var rest := s[i + 1..];
       var j := IndexOf(rest, '.');
       j < |rest| && Decimal.IsDigits(s[..i]) && Decimal.IsDigits(rest[..j]) && Decimal.IsDigits(rest[j + 1..])
  }

  lemma FmtIsDotted(v: Version)
    ensures IsDotted(Fmt(v))
  {
    ParseOfFmt(v);
  }

  /** `\d{4}-\d{2}-\d{2}` */
  predicate IsDate(s: string) {
    |s| == 10 && forall i | 0 <= i < 10 :: if i == 4 || i == 7 then s[i] == '-' else Decimal.IsDigit(s[i])
  }

  datatype Heading = Heading(version: string, date: string)

  function HeadingLine(version: string, date: string): string {
    SECTION_PREFIX + version + DASH + date
  }

  /** `RELEASE_HEADING_RE` */
  function ReadHeading(line: string): Option<Heading> {
    if |line| < 16 || line[..3] != SECTION_PREFIX then None else
      var version, dash, date := line[3..|line| - 13], line[|line| - 13..|line| - 10], line[|line| - 10..];
      if dash == DASH && IsDotted(version) && IsDate(date) then Some(Heading(version, date)) else None
  }

  predicate IsSection(line: string) {
    SECTION_PREFIX <= line
  }

  predicate Names(line: string, version: string) {
    ReadHeading(line).Some? && ReadHeading(line).value.version == version
  }

  lemma DateIsOneLine(s: string)
    requires IsDate(s)
    ensures OneLine(s) && |s| == 10
  {
  }

  lemma DottedIsOneLine(s: string)
    requires IsDotted(s)
    ensures OneLine(s)
  {
    var i := IndexOf(s, '.');
    var rest := s[i + 1..];
    var j := IndexOf(rest, '.');
    SplitAt(s, i);
    SplitAt(rest, j);
    NoSeparator(s[..i], '\n');
    NoSeparator(rest[..j], '\n');
    NoSeparator(rest[j + 1..], '\n');
  }

  lemma HeadingReadsBack(version: string, date: string)
    requires IsDotted(version) && IsDate(date)
    ensures ReadHeading(HeadingLine(version, date)) == Some(Heading(version, date))
    ensures IsSection(HeadingLine(version, date)) && OneLine(HeadingLine(version, date))
  {
    hide IsDotted, IsDate;
    DottedIsOneLine(version);
    DateIsOneLine(date);
    var line := HeadingLine(version, date);
    assert line[..3] == SECTION_PREFIX;
    assert line[3..|line| - 13] == version;
    assert line[|line| - 13..|line| - 10] == DASH;
    assert line[|line| - 10..] == date;
  }

  // ---------------------------------------------------------------- sections

  /** The first index from `from` on whose line satisfies `p`, or the length. */
  function First(lines: seq<string>, p: string -> bool, from: nat): (i: nat)
    requires from <= |lines|
    ensures from <= i <= |lines|
    ensures i < |lines| ==> p(lines[i])
    decreases |lines| - from
  {
    if from == |lines| || p(lines[from]) then from else First(lines, p, from + 1)
  }

  function Naming(version: string): string -> bool {
    line => Names(line, version)
  }

  function Equals(wanted: string): string -> bool {
    line => line == wanted
  }

  predicate IsRelease(line: string) {
    ReadHeading(line).Some?
  }

  predicate IsHash(line: string) {
    "#" <= line
  }

  /** The lines from the first one satisfying `p` up to the next one satisfying `end`. */
  function Block(lines: seq<string>, p: string -> bool, end: string -> bool): Option<seq<string>> {
    var start := First(lines, p, 0);
    if start == |lines| then None else Some(lines[start..First(lines, end, start + 1)])
  }

  function SectionLines(lines: seq<string>, version: string): Option<seq<string>> {
    Block(lines, Naming(version), IsSection)
  }

  /** `release_section` */
  function ReleaseSection(text: string, version: string): Result<string, ChangelogError> {
    match SectionLines(SplitLines(text), version)
    case None => Failure(NoSection)
    case Some(lines) => Success(Finish(lines))
  }

  /** `changelog_date` */
  function ChangelogDate(text: string, version: string): Option<string> {
    var lines := SplitLines(text);
    var i := First(lines, Naming(version), 0);
    if i == |lines| then None else Some(ReadHeading(lines[i]).value.date)
  }

  /** `## Unreleased` and what stands under it, up to the next section. */
  function UnreleasedBlock(lines: seq<string>): Option<seq<string>> {
    Block(lines, Equals(UNRELEASED), IsSection)
  }

  predicate IsEntry(line: string) {
    ENTRY_PREFIX <= line
  }

  predicate HasEntry(lines: seq<string>) {
    exists line <- lines :: IsEntry(line)
  }

  predicate KnownSubsections(block: seq<string>, subsections: seq<string>) {
    forall line <- block :: SUBSECTION_PREFIX <= line ==> line[4..] in subsections
  }

  datatype Rewritten = Rewritten(text: string, section: string)

  /** `rewrite_changelog` */
  function RewriteChangelog(text: string, version: string, date: string, subsections: seq<string>):
    Result<Rewritten, ChangelogError>
  {
    var lines := SplitLines(text);
    var start := First(lines, Equals(UNRELEASED), 0);
    if start == |lines| || First(lines, Equals(UNRELEASED), start + 1) < |lines| then Failure(NotOneUnreleased)
    else if First(lines, Naming(version), 0) < |lines| then Failure(SectionExists)
    else
      var end := First(lines, IsSection, start + 1);
      var block := lines[start + 1..end];
      if !KnownSubsections(block, subsections) then Failure(UnknownSubsection)
      else if !HasEntry(block) then Failure(NoEntry)
      else
        var heading := HeadingLine(version, date);
        Success(Rewritten(
          Finish(lines[..start] + [UNRELEASED, "", heading] + block + lines[end..]),
          Finish([heading] + block)))
  }

  /** `ensure_unreleased` */
  function EnsureUnreleased(text: string): Result<string, ChangelogError> {
    var lines := SplitLines(text);
    if UNRELEASED in lines then Success(text)
    else
      var first := First(lines, IsRelease, 0);
      if first == |lines| then Failure(NoReleaseHeading)
      else Success(Finish(lines[..first] + [UNRELEASED, ""] + lines[first..]))
  }

  /** `has_migration`: the first `### Migration` block of a section has an entry. */
  predicate HasMigration(section: string) {
    var block := Block(SplitLines(section), Equals(MIGRATION_HEADING), IsHash);
    block.Some? && HasEntry(block.value[1..])
  }
}
