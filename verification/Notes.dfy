/** The GitHub release notes: AgentCore's block and the main section, each cut after the
    last whole entry that fits. */
module Notes {
  import opened Results
  import opened Versions
  import opened Ledgers
  import opened Lines
  import opened Changelog
  import opened Utf8
  import Decimal

  const RELEASE_BODY_LIMIT := 125000

  const AGENTCORE_NOTES_LIMIT := 40000

  datatype NotesError = NoAgentCore | NoNotesSection | DoesNotFit

  /** Which text says how many lines were dropped. */
  datatype Tail = MainTail | SdkTail

  /** `pointer` and `sdk_pointer`, around the count. */
  function TailBefore(tail: Tail): string {
    match tail
    case MainTail => "\n_The notes stop here: "
    case SdkTail => "\n_"
  }

  function TailAfter(tail: Tail, version: string): string {
    match tail
    case MainTail =>
      " more lines do not fit a GitHub release. The full section is in `CHANGELOG.md` at tag `" + version
      + "`, and every archive below carries it as `share/doc/CHANGELOG-" + version + ".md`._\n"
    case SdkTail =>
      " more lines of AgentCore's notes do not fit here. The full section is in `sdk/CHANGELOG.md` at this tag, under `## "
      + version + "`._\n\n"
  }

  function TailText(tail: Tail, version: string, dropped: nat): string {
    TailBefore(tail) + Decimal.Numeral(dropped) + TailAfter(tail, version)
  }

  /** Where a section may be cut: after its heading, or before a whole entry or subsection. */
  predicate IsCut(lines: seq<string>, k: nat) {
    1 <= k < |lines| && (k == 1 || ENTRY_PREFIX <= lines[k] || SUBSECTION_PREFIX <= lines[k])
  }

  function CutSize(lines: seq<string>, tail: Tail, version: string, k: nat): nat
    requires k <= |lines|
  {
    LinesSize(lines[..k]) + Size(TailText(tail, version, |lines| - k))
  }

  predicate CutFits(lines: seq<string>, tail: Tail, version: string, limit: int, k: nat) {
    IsCut(lines, k) && CutSize(lines, tail, version, k) <= limit
  }

  /** The last cut at or before `k` that fits. */
  function LastCut(lines: seq<string>, tail: Tail, version: string, limit: int, k: nat): Option<nat>
    requires k <= |lines|
  {
    if k == 0 then None
    else if CutFits(lines, tail, version, limit, k) then Some(k)
    else LastCut(lines, tail, version, limit, k - 1)
  }

  function SectionToLines(section: string): seq<string> {
    SplitLines(RStrip(section))
  }

  function CutOf(section: string, version: string, limit: int, tail: Tail): Option<nat> {
    var lines := SectionToLines(section);
    LastCut(lines, tail, version, limit, |lines|)
  }

  lemma {:induction false} LastCutIsACut(lines: seq<string>, tail: Tail, version: string, limit: int, k: nat)
    requires k <= |lines|
    ensures var r := LastCut(lines, tail, version, limit, k);
            r.Some? ==> r.value <= k && CutFits(lines, tail, version, limit, r.value)
  {
    hide CutFits;
    if k == 0 {
    } else {
      LastCutIsACut(lines, tail, version, limit, k - 1);
    }
  }

  function Fitted(section: string, version: string, limit: int, tail: Tail): Result<string, NotesError> {
    var lines := SectionToLines(section);
    if Size(section) <= limit then Success(section)
    else
      match LastCut(lines, tail, version, limit, |lines|)
      case None => Failure(DoesNotFit)
      case Some(k) =>
        LastCutIsACut(lines, tail, version, limit, |lines|);
        Success(Finish(lines[..k]) + TailText(tail, version, |lines| - k))
  }

  lemma CutBounds(lines: seq<string>, tail: Tail, version: string, limit: int, k: nat)
    requires CutFits(lines, tail, version, limit, k)
    ensures 1 <= k < |lines|
  {
  }

  lemma {:induction false} NoLaterCut(lines: seq<string>, tail: Tail, version: string, limit: int, k: nat, j: nat)
    requires j <= k <= |lines| && CutFits(lines, tail, version, limit, j)
    ensures var r := LastCut(lines, tail, version, limit, k); r.Some? && j <= r.value
  {
    hide CutFits;
    if j == k {
      CutBounds(lines, tail, version, limit, j);
    } else {
      NoLaterCut(lines, tail, version, limit, k - 1, j);
    }
  }

  lemma PrefixSum(lines: seq<string>, k: nat)
    requires k < |lines|
    ensures LinesSize(lines[..k + 1]) == LinesSize(lines[..k]) + Size(lines[k]) + 1
  {
    assert lines[..k + 1] == lines[..k] + [lines[k]];
    LinesSizeOfConcat(lines[..k], [lines[k]]);
    assert LinesSize([lines[k]]) == Size(lines[k]) + 1;
  }

  /** The cuts from the last line down, as the scan visits them. */
  function CutsDown(lines: seq<string>, k: nat): seq<nat>
    requires k <= |lines|
  {
    if k == 0 then [] else (if IsCut(lines, k) then [k] else []) + CutsDown(lines, k - 1)
  }

  function FirstFitting(cuts: seq<nat>, lines: seq<string>, tail: Tail, version: string, limit: int): Option<nat> {
    if cuts == [] then None
    else if CutFits(lines, tail, version, limit, cuts[0]) then Some(cuts[0])
    else FirstFitting(cuts[1..], lines, tail, version, limit)
  }

  lemma {:induction false} ScanFindsTheLastCut(lines: seq<string>, tail: Tail, version: string, limit: int, k: nat)
    requires k <= |lines|
    ensures FirstFitting(CutsDown(lines, k), lines, tail, version, limit) == LastCut(lines, tail, version, limit, k)
  {
    hide CutSize, IsCut;
    if k == 0 {
    } else {
      ScanFindsTheLastCut(lines, tail, version, limit, k - 1);
      if IsCut(lines, k) {
        assert CutsDown(lines, k) == [k] + CutsDown(lines, k - 1);
        assert CutsDown(lines, k)[1..] == CutsDown(lines, k - 1);
      } else {
        assert CutsDown(lines, k) == CutsDown(lines, k - 1);
      }
    }
  }

  method PrefixSums(lines: seq<string>) returns (prefix: seq<nat>)
    ensures |prefix| == |lines| + 1
    ensures forall k | 0 <= k <= |lines| :: prefix[k] == LinesSize(lines[..k])
  {
    hide Size;
    prefix := [0];
    for i := 0 to |lines|
      invariant |prefix| == i + 1
      invariant forall k | 0 <= k <= i :: prefix[k] == LinesSize(lines[..k])
    {
      PrefixSum(lines, i);
      prefix := prefix + [prefix[i] + Size(lines[i]) + 1];
    }
  }

  method Cuts(lines: seq<string>) returns (cuts: seq<nat>)
    ensures cuts == CutsDown(lines, |lines|)
    ensures forall i | 0 <= i < |cuts| :: IsCut(lines, cuts[i])
  {
    hide IsCut;
    cuts := [];
    var k := |lines|;
    while k > 0
      invariant 0 <= k <= |lines|
      invariant cuts + CutsDown(lines, k) == CutsDown(lines, |lines|)
      invariant forall i | 0 <= i < |cuts| :: IsCut(lines, cuts[i])
    {
      if IsCut(lines, k) { cuts := cuts + [k]; }
      k := k - 1;
    }
  }

  lemma CutIndex(lines: seq<string>, k: nat)
    requires IsCut(lines, k)
    ensures 1 <= k < |lines|
  {
  }

  /** `fit_notes` */
  method FitNotes(section: string, version: string, limit: int, tail: Tail) returns (r: Result<string, NotesError>)
    ensures r == Fitted(section, version, limit, tail)
  {
    hide TailText, Finish, SplitLines, RStrip, IsCut, LinesSize, Size, LastCut, CutsDown;
    if Size(section) <= limit { return Success(section); }
    var lines := SectionToLines(section);
    var prefix := PrefixSums(lines);
    var cuts := Cuts(lines);
    ScanFindsTheLastCut(lines, tail, version, limit, |lines|);
    for i := 0 to |cuts|
      invariant FirstFitting(cuts[i..], lines, tail, version, limit) == LastCut(lines, tail, version, limit, |lines|)
    {
      assert cuts[i..][0] == cuts[i] && cuts[i..][1..] == cuts[i + 1..];
      var k := cuts[i];
      CutIndex(lines, k);
      var text := TailText(tail, version, |lines| - k);
      if prefix[k] + Size(text) <= limit {
        return Success(Finish(lines[..k]) + text);
      }
    }
    r := Failure(DoesNotFit);
  }

  // ---------------------------------------------------------------- what is kept

  lemma RStripShrinks(text: string)
    ensures Size(RStrip(text)) <= Size(text)
  {
    if text == "" || text[|text| - 1] != '\n' {
    } else {
      RStripShrinks(text[..|text| - 1]);
      assert text == text[..|text| - 1] + [text[|text| - 1]];
      SizeOfConcat(text[..|text| - 1], [text[|text| - 1]]);
    }
  }

  lemma KeptIsNotEmpty(lines: seq<string>, k: nat)
    requires IsCut(lines, k)
    ensures lines[..k] != []
  {
  }

  lemma OneLineFeed()
    ensures Size("\n") == 1
  {
  }

  /** Whatever it returns fits the limit. */
  lemma FittedFits(section: string, version: string, limit: int, tail: Tail)
    ensures Fitted(section, version, limit, tail).Success? ==>
              Size(Fitted(section, version, limit, tail).value) <= limit
  {
    hide TailText, SplitLines, IsCut;
    var lines := SectionToLines(section);
    LastCutIsACut(lines, tail, version, limit, |lines|);
    var r := LastCut(lines, tail, version, limit, |lines|);
    if Size(section) > limit && r.Some? {
      var kept := lines[..r.value];
      KeptIsNotEmpty(lines, r.value);
      RStripShrinks(Join(kept));
      SizeOfJoin(kept);
      SizeOfConcat(RStrip(Join(kept)), "\n");
      SizeOfConcat(Finish(kept), TailText(tail, version, |lines| - r.value));
      OneLineFeed();
    }
  }

  lemma SizeOfTail(tail: Tail, version: string, dropped: nat)
    ensures Size(TailText(tail, version, dropped)) ==
              Size(TailBefore(tail)) + |Decimal.Numeral(dropped)| + Size(TailAfter(tail, version))
  {
    hide TailBefore, TailAfter, Size;
    SizeOfConcat(TailBefore(tail), Decimal.Numeral(dropped));
    SizeOfConcat(TailBefore(tail) + Decimal.Numeral(dropped), TailAfter(tail, version));
    AsciiSize(Decimal.Numeral(dropped));
  }

  lemma DropOneLine(lines: seq<string>, tail: Tail, version: string, k: nat)
    requires k < |lines|
    ensures CutSize(lines, tail, version, k) <= CutSize(lines, tail, version, k + 1)
  {
    hide LinesSize, Size, TailText, TailBefore, TailAfter, Decimal.Numeral;
    PrefixSum(lines, k);
    var dropped := |lines| - (k + 1);
    SizeOfTail(tail, version, dropped);
    SizeOfTail(tail, version, dropped + 1);
    Decimal.NumeralGrows(dropped);
  }

  /** Dropping one more line frees at least its line feed, and lengthens the count by at
      most one digit: once a cut fits, every earlier one does. */
  lemma {:induction false} EarlierCutsFit(lines: seq<string>, tail: Tail, version: string, j: nat, k: nat)
    requires j <= k <= |lines|
    ensures CutSize(lines, tail, version, j) <= CutSize(lines, tail, version, k)
    decreases k
  {
    hide CutSize;
    if j == k {
    } else {
      EarlierCutsFit(lines, tail, version, j, k - 1);
      DropOneLine(lines, tail, version, k - 1);
    }
  }

  /** A section is refused exactly when it is too long and either is a lone heading or has
      one that does not fit with its pointer. */
  lemma RefusedIffHeadingDoesNotFit(section: string, version: string, limit: int, tail: Tail)
    ensures Fitted(section, version, limit, tail).Failure? <==>
            && Size(section) > limit
            && (|SectionToLines(section)| < 2 || CutSize(SectionToLines(section), tail, version, 1) > limit)
  {
    hide CutSize, Size, SectionToLines, LastCut, Finish, TailText;
    var lines := SectionToLines(section);
    LastCutIsACut(lines, tail, version, limit, |lines|);
    var r := LastCut(lines, tail, version, limit, |lines|);
    if r.Some? {
      EarlierCutsFit(lines, tail, version, 1, r.value);
    } else if |lines| >= 2 && CutFits(lines, tail, version, limit, 1) {
      NoLaterCut(lines, tail, version, limit, |lines|, 1);
    }
  }

  lemma {:induction false} JoinOfParts(a: seq<string>, b: seq<string>)
    requires a != [] && b != []
    ensures Join(a + b) == Join(a) + "\n" + Join(b)
  {
    if |a| == 1 {
      assert (a + b)[1..] == b;
    } else {
      JoinOfParts(a[1..], b);
      assert (a + b)[1..] == a[1..] + b;
    }
  }

  lemma JoinOfOne(line: string)
    ensures Join([line]) == line
  {
  }

  lemma {:induction false} JoinOfSplit(text: string)
    requires text != "" && text[|text| - 1] != '\n'
    ensures Join(SplitLines(text)) == text
    decreases |text|
  {
    hide Join;
    var i := IndexOf(text, '\n');
    JoinOfOne(text);
    if i == |text| {
    } else {
      hide SplitLines, IndexOf;
      var line, rest := text[..i], text[i + 1..];
      assert text == line + "\n" + rest && rest[|rest| - 1] == text[|text| - 1];
      SplitCons(line, rest);
      JoinOfSplit(rest);
      JoinOfParts([line], SplitLines(rest));
      JoinOfOne(line);
    }
  }

  lemma RStripEnds(text: string)
    ensures RStrip(text) == "" || RStrip(text)[|RStrip(text)| - 1] != '\n'
  {
  }

  lemma SplitAtCut(section: string, k: nat)
    requires 1 <= k < |SectionToLines(section)|
    ensures var lines := SectionToLines(section); RStrip(section) == Join(lines[..k]) + "\n" + Join(lines[k..])
  {
    hide Join;
    var lines := SectionToLines(section);
    RStripEnds(section);
    JoinOfSplit(RStrip(section));
    assert lines == lines[..k] + lines[k..];
    JoinOfParts(lines[..k], lines[k..]);
  }

  /** A cut text is the section up to the last cut that fits: what is dropped starts with a
      whole entry or subsection (or is all but the heading), every later cut is too long, and
      the pointer counts exactly the dropped lines. */
  lemma NotesStopAtTheLastCut(section: string, version: string, limit: int, tail: Tail, k: nat)
    requires Size(section) > limit && CutOf(section, version, limit, tail) == Some(k)
    ensures var lines := SectionToLines(section);
            && IsCut(lines, k)
            && RStrip(section) == Join(lines[..k]) + "\n" + Join(lines[k..])
            && Fitted(section, version, limit, tail)
               == Success(Finish(lines[..k]) + TailText(tail, version, |lines[k..]|))
            && forall j | k < j < |lines| && IsCut(lines, j) :: CutSize(lines, tail, version, j) > limit
  {
    hide CutSize, TailText, IsCut, Join, Size;
    var lines := SectionToLines(section);
    LastCutIsACut(lines, tail, version, limit, |lines|);
    CutIndex(lines, k);
    SplitAtCut(section, k);
    forall j | k < j < |lines| && IsCut(lines, j) ensures CutSize(lines, tail, version, j) > limit {
      if CutSize(lines, tail, version, j) <= limit {
        NoLaterCut(lines, tail, version, limit, |lines|, j);
      }
    }
  }

  // ---------------------------------------------------------------- AgentCore's block

  function IntText(n: int): string {
    if n < 0 then "-" + Decimal.Numeral(-n) else Decimal.Numeral(n)
  }

  function NotesHead(entry: Release): seq<string> {
    var version := Render(entry.version);
    [ "## AgentCore " + version,
      "",
      "This release includes AgentCore **" + version + "**, binary ABI v" + IntText(entry.abiVersion) + " revision "
      + IntText(entry.abiRevision) + ": `metacodes` " + PythonText(entry.version) + " on Python, `metacodes` "
      + NodeText(entry.version) + " on Node, and the `metask-agentcore-" + version
      + "-*` archives for C, C++, Zig and Rust.",
      "" ]
  }

  function ReusedNote(builder: VersionText): string {
    "AgentCore is unchanged since metacodes " + Render(builder)
    + ": it keeps its version and these are the same artifacts, byte for byte. "
    + "Its changes and migration steps are in the notes of metacodes " + Render(builder)
    + ". No migration is needed for this release."
  }

  function Demoted(line: string): string {
    if SUBSECTION_PREFIX <= line then "#" + line else line
  }

  function DemotedLines(lines: seq<string>): (r: seq<string>)
    ensures |r| == |lines|
  {
    if lines == [] then [] else [Demoted(lines[0])] + DemotedLines(lines[1..])
  }

  function LStrip(text: string): string {
    if text != "" && text[0] == '\n' then LStrip(text[1..]) else text
  }

  const NO_MIGRATION := ["", MIGRATION_HEADING, "", "- No migration steps."]

  /** The lines under an AgentCore section's heading, with a Migration subsection. */
  function SectionBody(section: string): seq<string> {
    var lines := SectionToLines(section);
    var body := if lines == [] then [] else lines[1..];
    if MIGRATION_HEADING in body then body else body + NO_MIGRATION
  }

  function BuiltBlock(entry: Release, section: string): string {
    Join(NotesHead(entry)) + "\n" + RStrip(LStrip(Join(DemotedLines(SectionBody(section))))) + "\n\n"
  }

  /** `agentcore_notes` */
  function AgentCoreNotes(ledger: Ledger, sdkChangelog: string, main: VersionText): Result<string, NotesError> {
    var entry := ledger.ByMainRelease(main);
    if entry.None? then Failure(NoAgentCore)
    else
      CarrierAt(ledger.releases, main);
      if entry.value.BuiltBy() != main then
        Success(Join(NotesHead(entry.value) + [ReusedNote(entry.value.BuiltBy())]) + "\n\n")
      else
        match ReleaseSection(sdkChangelog, Render(entry.value.version))
        case Failure(_) => Failure(NoNotesSection)
        case Success(section) =>
          Fitted(BuiltBlock(entry.value, section), Render(entry.value.version), AGENTCORE_NOTES_LIMIT, SdkTail)
  }

  /** `release_notes` */
  function ReleaseNotes(ledger: Ledger, sdkChangelog: string, changelog: string, main: VersionText): Result<string,
                        NotesError> {
    match AgentCoreNotes(ledger, sdkChangelog, main)
    case Failure(e) => Failure(e)
    case Success(block) =>
      match ReleaseSection(changelog, Render(main))
      case Failure(_) => Failure(NoNotesSection)
      case Success(section) =>
        match Fitted(section, Render(main), RELEASE_BODY_LIMIT - Size(block), MainTail)
        case Failure(e) => Failure(e)
        case Success(text) => Success(block + text)
  }

  /** Whatever notes are written, GitHub accepts them: however long either changelog is. */
  lemma ReleaseNotesFit(ledger: Ledger, sdkChangelog: string, changelog: string, main: VersionText)
    ensures var r := ReleaseNotes(ledger, sdkChangelog, changelog, main);
            r.Success? ==> Size(r.value) <= RELEASE_BODY_LIMIT
  {
    hide Fitted, AgentCoreNotes, ReleaseSection, Size;
    var block := AgentCoreNotes(ledger, sdkChangelog, main);
    var section := ReleaseSection(changelog, Render(main));
    if block.Success? && section.Success? {
      FittedFits(section.value, Render(main), RELEASE_BODY_LIMIT - Size(block.value), MainTail);
      var text := Fitted(section.value, Render(main), RELEASE_BODY_LIMIT - Size(block.value), MainTail);
      if text.Success? {
        SizeOfConcat(block.value, text.value);
      }
    }
  }

  /** When the notes send the reader to the release that built AgentCore, that release's
      notes are the ones with its changes. */
  lemma BuilderHasTheChanges(ledger: Ledger, sdkChangelog: string, main: VersionText)
    requires ledger.Valid() && ledger.ByMainRelease(main).Some?
    ensures var entry := ledger.ByMainRelease(main).value;
            && main in entry.mainReleases
            && ledger.ByMainRelease(entry.BuiltBy()) == Some(entry)
            && AgentCoreNotes(ledger, sdkChangelog, entry.BuiltBy()) ==
               var section := ReleaseSection(sdkChangelog, Render(entry.version));
               if section.Failure? then Failure(NoNotesSection)
               else Fitted(BuiltBlock(entry, section.value), Render(entry.version), AGENTCORE_NOTES_LIMIT, SdkTail)
  {
    hide ValidReleases, Fitted, BuiltBlock, NotesHead, ReleaseSection;
    CarrierAt(ledger.releases, main);
    var entry := ledger.ByMainRelease(main).value;
    var k :| 0 <= k < |ledger.releases| && ledger.releases[k] == entry;
    CarriedByItsEntry(ledger.releases, k, entry.BuiltBy());
  }

  lemma SameBlocks(a: Release, b: Release)
    requires a.Identity() == b.Identity()
    ensures a.version == b.version && NotesHead(a) == NotesHead(b)
    ensures forall section :: BuiltBlock(a, section) == BuiltBlock(b, section)
  {
  }

  /** History is append-only, so AgentCore's block in the notes of a past main release is the
      same at every later ledger. */
  lemma PastNotesNeverChange(older: Ledger, newer: Ledger, sdkChangelog: string, main: VersionText)
    requires Grows(older, newer) && older.ByMainRelease(main).Some?
    ensures AgentCoreNotes(older, sdkChangelog, main) == AgentCoreNotes(newer, sdkChangelog, main)
  {
    hide Grows, Fitted, BuiltBlock, NotesHead, ReleaseSection, ReusedNote;
    GrowthKeepsAnswers(older, newer, Final(Version(0, 0, 0)), main);
    CarrierAt(older.releases, main);
    var earlier, later := older.ByMainRelease(main).value, newer.ByMainRelease(main).value;
    SameBlocks(earlier, later);
  }
}
