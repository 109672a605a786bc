/** What a cut and a reopen do to a changelog: the released section reads back, every
    other section stays, and `## Unreleased` starts again empty. */
module ChangelogProofs {
  import opened Results
  import opened Lines
  import opened Changelog

  lemma SectionMarks()
    ensures IsSection(UNRELEASED) && !IsRelease(UNRELEASED)
    ensures !IsSection("") && !IsRelease("") && !IsEntry("")
    ensures OneLine(UNRELEASED) && OneLine("")
  {
  }

  lemma {:induction false} FirstIs(lines: seq<string>, p: string -> bool, from: nat, i: nat)
    requires from <= i <= |lines|
    requires forall k | from <= k < i :: !p(lines[k])
    requires i < |lines| ==> p(lines[i])
    ensures First(lines, p, from) == i
    decreases i - from
  {
    if from == i {
    } else {
      FirstIs(lines, p, from + 1, i);
    }
  }

  lemma {:induction false} NoneBeforeFirst(lines: seq<string>, p: string -> bool, from: nat, k: nat)
    requires from <= |lines| && from <= k < First(lines, p, from)
    ensures !p(lines[k])
    decreases k - from
  {
    if from == k {
    } else {
      NoneBeforeFirst(lines, p, from + 1, k);
    }
  }

  // ---------------------------------------------------------------- blank lines at the end

  /** Two readings of a file that differ only in blank lines at its end. */
  predicate SameBlock(a: Option<seq<string>>, b: Option<seq<string>>) {
    && a.Some? == b.Some?
    && (a.Some? ==> Finish(a.value) == Finish(b.value))
  }

  lemma BlockIs(lines: seq<string>, p: string -> bool, end: string -> bool, i: nat, stop: nat)
    requires i < stop <= |lines|
    requires First(lines, p, 0) == i && First(lines, end, i + 1) == stop
    ensures Block(lines, p, end) == Some(lines[i..stop])
  {
  }

  lemma LongerByABlank(block: seq<string>)
    requires AllOneLine(block)
    ensures SameBlock(Some(block + [""]), Some(block))
  {
    FinishIgnoresTrailingBlanks(block);
  }

  lemma FirstWithTrailingBlank(lines: seq<string>, p: string -> bool, from: nat)
    requires from <= |lines| && !p("")
    ensures var i := First(lines, p, from);
            First(lines + [""], p, from) == if i < |lines| then i else |lines| + 1
  {
    var i := First(lines, p, from);
    var j := if i < |lines| then i else |lines| + 1;
    forall k | from <= k < j ensures !p((lines + [""])[k]) {
      if k < |lines| { NoneBeforeFirst(lines, p, from, k); }
    }
    FirstIs(lines + [""], p, from, j);
  }

  lemma BlockWithTrailingBlank(lines: seq<string>, p: string -> bool, end: string -> bool, i: nat, stop: nat)
    requires AllOneLine(lines) && i < stop <= |lines|
    requires First(lines, p, 0) == i && First(lines, end, i + 1) == stop
    requires First(lines + [""], p, 0) == i
    requires First(lines + [""], end, i + 1) == if stop < |lines| then stop else |lines| + 1
    ensures SameBlock(Block(lines + [""], p, end), Block(lines, p, end))
  {
    BlockIs(lines, p, end, i, stop);
    if stop < |lines| {
      BlockIs(lines + [""], p, end, i, stop);
      assert (lines + [""])[i..stop] == lines[i..stop];
    } else {
      BlockIs(lines + [""], p, end, i, stop + 1);
      assert (lines + [""])[i..stop + 1] == lines[i..stop] + [""];
      LongerByABlank(lines[i..stop]);
    }
  }

  lemma TrailingBlankKeepsBlocks(lines: seq<string>, p: string -> bool, end: string -> bool)
    requires AllOneLine(lines) && !p("") && !end("")
    ensures SameBlock(Block(lines + [""], p, end), Block(lines, p, end))
    ensures First(lines, p, 0) < |lines| ==> First(lines + [""], p, 0) == First(lines, p, 0)
  {
    FirstWithTrailingBlank(lines, p, 0);
    var i := First(lines, p, 0);
    if i < |lines| {
      FirstWithTrailingBlank(lines, end, i + 1);
      BlockWithTrailingBlank(lines, p, end, i, First(lines, end, i + 1));
    }
  }

  lemma {:induction false} TrimmedKeepsBlocks(lines: seq<string>, p: string -> bool, end: string -> bool)
    requires AllOneLine(lines) && !p("") && !end("")
    ensures SameBlock(Block(Trimmed(lines), p, end), Block(lines, p, end))
    ensures First(lines, p, 0) < |lines| ==>
              First(Trimmed(lines), p, 0) == First(lines, p, 0) < |Trimmed(lines)|
  {
    if lines == [] || lines[|lines| - 1] != "" {
    } else {
      var shorter := lines[..|lines| - 1];
      assert lines == shorter + [""];
      TrimmedKeepsBlocks(shorter, p, end);
      TrailingBlankKeepsBlocks(shorter, p, end);
    }
  }

  lemma {:induction false} TrimmedKeepsText(lines: seq<string>, k: nat)
    requires k < |lines| && lines[k] != ""
    ensures k < |Trimmed(lines)|
  {
    if lines[|lines| - 1] != "" {
    } else {
      TrimmedKeepsText(lines[..|lines| - 1], k);
    }
  }

  lemma TextOfLines(text: string, lines: seq<string>, k: nat)
    requires AllOneLine(lines) && k < |lines| && lines[k] != "" && text == Finish(lines)
    ensures SplitLines(text) == Trimmed(lines) && k < |Trimmed(lines)|
  {
    TrimmedKeepsText(lines, k);
    SplitOfFinish(lines);
  }

  // ---------------------------------------------------------------- inserted lines

  /** `lines` with `added` put before index `at`. */
  function Inserted(lines: seq<string>, at: nat, added: seq<string>): seq<string>
    requires at <= |lines|
  {
    lines[..at] + added + lines[at..]
  }

  lemma InsertedAt(lines: seq<string>, at: nat, added: seq<string>, k: nat)
    requires at <= |lines| && k < |lines| + |added|
    ensures Inserted(lines, at, added)[k] ==
            if k < at then lines[k] else if k < at + |added| then added[k - at] else lines[k - |added|]
  {
  }

  /** Where a line is found again after other lines were inserted. */
  lemma FirstAfterInsertion(lines: seq<string>, at: nat, added: seq<string>, p: string -> bool, from: nat)
    requires from <= at <= |lines|
    requires forall line <- added :: !p(line)
    ensures var i := First(lines, p, from);
            First(Inserted(lines, at, added), p, from) == if i < at then i else i + |added|
  {
    var longer := Inserted(lines, at, added);
    var i := First(lines, p, from);
    var j := if i < at then i else i + |added|;
    forall k | from <= k < j ensures !p(longer[k]) {
      InsertedAt(lines, at, added, k);
      if k < at {
        NoneBeforeFirst(lines, p, from, k);
      } else if k < at + |added| {
        assert added[k - at] in added;
      } else {
        NoneBeforeFirst(lines, p, from, k - |added|);
      }
    }
    if j < |longer| {
      InsertedAt(lines, at, added, j);
    }
    FirstIs(longer, p, from, j);
  }

  lemma FirstBehindInsertion(lines: seq<string>, at: nat, added: seq<string>, p: string -> bool, from: nat)
    requires at <= from <= |lines|
    ensures First(Inserted(lines, at, added), p, from + |added|) == First(lines, p, from) + |added|
  {
    var longer := Inserted(lines, at, added);
    var j := First(lines, p, from) + |added|;
    forall k | from + |added| <= k < j ensures !p(longer[k]) {
      InsertedAt(lines, at, added, k);
      NoneBeforeFirst(lines, p, from, k - |added|);
    }
    if j < |longer| {
      InsertedAt(lines, at, added, j);
    }
    FirstIs(longer, p, from + |added|, j);
  }

  lemma FirstInInsertion(lines: seq<string>, at: nat, first: string, second: string, p: string -> bool)
    requires at <= |lines| && !p(first) && p(second)
    requires forall k | 0 <= k < at :: !p(lines[k])
    ensures First(Inserted(lines, at, [first, second]), p, 0) == at + 1
    ensures Inserted(lines, at, [first, second])[at + 1] == second
  {
    var longer := Inserted(lines, at, [first, second]);
    forall k | 0 <= k <= at ensures !p(longer[k]) {
      InsertedAt(lines, at, [first, second], k);
    }
    InsertedAt(lines, at, [first, second], at + 1);
    FirstIs(longer, p, 0, at + 1);
  }

  lemma SliceBefore(lines: seq<string>, at: nat, added: seq<string>, i: nat, stop: nat)
    requires i <= stop <= at <= |lines|
    ensures Inserted(lines, at, added)[i..stop] == lines[i..stop]
  {
  }

  lemma SliceBehind(lines: seq<string>, at: nat, added: seq<string>, i: nat, stop: nat)
    requires at <= i <= stop <= |lines|
    ensures Inserted(lines, at, added)[i + |added|..stop + |added|] == lines[i..stop]
  {
  }

  lemma FirstBeforeInsertion(lines: seq<string>, at: nat, added: seq<string>, p: string -> bool, from: nat)
    requires from <= at <= |lines| && First(lines, p, from) < at
    ensures First(Inserted(lines, at, added), p, from) == First(lines, p, from)
  {
    var stop := First(lines, p, from);
    var longer := Inserted(lines, at, added);
    forall k | from <= k < stop ensures !p(longer[k]) {
      InsertedAt(lines, at, added, k);
      NoneBeforeFirst(lines, p, from, k);
    }
    InsertedAt(lines, at, added, stop);
    FirstIs(longer, p, from, stop);
  }

  /** A block keeps its lines when the inserted ones cannot start it and do not fall inside it. */
  lemma InsertionKeepsBlocks(lines: seq<string>, at: nat, added: seq<string>, p: string -> bool, end: string -> bool)
    requires at <= |lines|
    requires forall line <- added :: !p(line)
    requires First(lines, p, 0) < at ==> First(lines, end, First(lines, p, 0) + 1) < at
    ensures var longer := Inserted(lines, at, added);
            var i, j := First(lines, p, 0), First(longer, p, 0);
            && (i < |lines| <==> j < |longer|)
            && (i < |lines| ==> lines[i] == longer[j])
    ensures Block(Inserted(lines, at, added), p, end) == Block(lines, p, end)
  {
    hide First;
    var longer := Inserted(lines, at, added);
    var i := First(lines, p, 0);
    FirstAfterInsertion(lines, at, added, p, 0);
    if i < at {
      var stop := First(lines, end, i + 1);
      FirstBeforeInsertion(lines, at, added, end, i + 1);
      InsertedAt(lines, at, added, i);
      SliceBefore(lines, at, added, i, stop);
      BlockIs(longer, p, end, i, stop);
    } else if i < |lines| {
      var stop := First(lines, end, i + 1);
      FirstBehindInsertion(lines, at, added, end, i + 1);
      InsertedAt(lines, at, added, i + |added|);
      SliceBehind(lines, at, added, i, stop);
      BlockIs(longer, p, end, i + |added|, stop + |added|);
    }
  }

  // ---------------------------------------------------------------- the cut

  /** The lines a rewrite produces, before the file is finished. */
  function CutLines(lines: seq<string>, start: nat, heading: string): seq<string>
    requires start < |lines|
  {
    Inserted(lines, start + 1, ["", heading])
  }

  lemma RewriteInsertsTheHeading(text: string, version: string, date: string, subsections: seq<string>)
    requires RewriteChangelog(text, version, date, subsections).Success?
    ensures var lines := SplitLines(text);
            var start := First(lines, Equals(UNRELEASED), 0);
            var heading := HeadingLine(version, date);
            var cut := RewriteChangelog(text, version, date, subsections).value;
            && start < |lines|
            && First(lines, Naming(version), 0) == |lines|
            && UnreleasedBlock(lines).Some?
            && HasEntry(UnreleasedBlock(lines).value[1..])
            && cut.text == Finish(CutLines(lines, start, heading))
            && cut.section == Finish([heading] + UnreleasedBlock(lines).value[1..])
  {
    hide SplitLines, First, Finish, HeadingLine, KnownSubsections, Naming;
    var lines := SplitLines(text);
    var start := First(lines, Equals(UNRELEASED), 0);
    var end := First(lines, IsSection, start + 1);
    var heading := HeadingLine(version, date);
    assert lines[..start + 1] == lines[..start] + [UNRELEASED];
    assert lines[start + 1..] == lines[start + 1..end] + lines[end..];
    assert lines[..start] + [UNRELEASED, "", heading] == lines[..start + 1] + ["", heading];
    assert lines[..start] + [UNRELEASED, "", heading] + lines[start + 1..end] + lines[end..]
           == CutLines(lines, start, heading);
    assert lines[start..end][1..] == lines[start + 1..end];
  }

  lemma CutLinesHeading(lines: seq<string>, start: nat, heading: string, p: string -> bool)
    requires start < |lines| && First(lines, p, 0) == |lines| && !p("") && p(heading)
    ensures First(CutLines(lines, start, heading), p, 0) == start + 2
    ensures CutLines(lines, start, heading)[start + 2] == heading
  {
    forall k | 0 <= k < start + 1 ensures !p(lines[k]) {
      NoneBeforeFirst(lines, p, 0, k);
    }
    FirstInInsertion(lines, start + 1, "", heading, p);
  }

  lemma CutLinesUnreleased(lines: seq<string>, start: nat, heading: string, p: string -> bool, end: string -> bool)
    requires start < |lines| && start == First(lines, p, 0) && end(heading) && !end("")
    ensures Block(CutLines(lines, start, heading), p, end) == Some([lines[start], ""])
  {
    hide First, Block;
    var cut := CutLines(lines, start, heading);
    FirstBeforeInsertion(lines, start + 1, ["", heading], p, 0);
    InsertedAt(lines, start + 1, ["", heading], start);
    InsertedAt(lines, start + 1, ["", heading], start + 1);
    InsertedAt(lines, start + 1, ["", heading], start + 2);
    assert |cut| == |lines| + 2 && cut[start] == lines[start] && cut[start + 1] == "" && cut[start + 2] == heading;
    hide *;
    FirstIs(cut, end, start + 1, start + 2);
    BlockIs(cut, p, end, start, start + 2);
    assert cut[start..start + 2] == [lines[start], ""];
  }

  lemma CutLinesSlice(lines: seq<string>, start: nat, heading: string, stop: nat)
    requires start < stop <= |lines|
    ensures CutLines(lines, start, heading)[start + 2..stop + 2] == [heading] + lines[start..stop][1..]
  {
  }

  lemma CutLinesSection(lines: seq<string>, start: nat, heading: string, p: string -> bool, q: string -> bool,
                        end: string -> bool, stop: nat)
    requires start < |lines| && start == First(lines, q, 0) && stop == First(lines, end, start + 1)
    requires First(CutLines(lines, start, heading), p, 0) == start + 2
    ensures Block(lines, q, end).Some? && Block(lines, q, end).value != []
    ensures Block(CutLines(lines, start, heading), p, end) == Some([heading] + Block(lines, q, end).value[1..])
  {
    FirstBehindInsertion(lines, start + 1, ["", heading], end, start + 1);
    BlockIs(lines, q, end, start, stop);
    BlockIs(CutLines(lines, start, heading), p, end, start + 2, stop + 2);
    CutLinesSlice(lines, start, heading, stop);
  }

  lemma CutLinesOneLine(lines: seq<string>, start: nat, heading: string)
    requires AllOneLine(lines) && OneLine(heading) && start < |lines|
    ensures AllOneLine(CutLines(lines, start, heading))
  {
  }

  /** What a cut's file says when it is read again. */
  lemma CutFileReads(text: string, version: string, date: string, subsections: seq<string>)
    requires RewriteChangelog(text, version, date, subsections).Success?
    requires IsDotted(version) && IsDate(date)
    ensures var cut := RewriteChangelog(text, version, date, subsections).value;
            var lines := SplitLines(text);
            var start := First(lines, Equals(UNRELEASED), 0);
            var cutLines := CutLines(lines, start, HeadingLine(version, date));
            && AllOneLine(cutLines)
            && SplitLines(cut.text) == Trimmed(cutLines)
            && ReleaseSection(cut.text, version) == Success(cut.section)
            && ChangelogDate(cut.text, version) == Some(date)
  {
    var lines := SplitLines(text);
    var start := First(lines, Equals(UNRELEASED), 0);
    var heading := HeadingLine(version, date);
    var cut := RewriteChangelog(text, version, date, subsections).value;
    RewriteInsertsTheHeading(text, version, date, subsections);
    HeadingReadsBack(version, date);
    SectionMarks();
    CutLinesOneLine(lines, start, heading);
    CutLinesHeading(lines, start, heading, Naming(version));
    CutLinesSection(lines, start, heading, Naming(version), Equals(UNRELEASED), IsSection,
                    First(lines, IsSection, start + 1));
    var cutLines := CutLines(lines, start, heading);
    TextOfLines(cut.text, cutLines, start + 2);
    TrimmedKeepsBlocks(cutLines, Naming(version), IsSection);
  }

  lemma BareBlock(block: Option<seq<string>>, line: string)
    requires OneLine(line) && SameBlock(block, Some([line, ""]))
    ensures block.Some? && Finish(block.value) == Finish([line])
  {
    assert [line, ""] == [line] + [""];
    LongerByABlank([line]);
  }

  lemma FirstFinds(lines: seq<string>, line: string)
    requires Block(lines, Equals(line), IsSection).Some?
    ensures line in lines
  {
  }

  lemma CutKeepsUnreleased(text: string, version: string, date: string, subsections: seq<string>)
    requires RewriteChangelog(text, version, date, subsections).Success?
    requires IsDotted(version) && IsDate(date)
    ensures var cut := RewriteChangelog(text, version, date, subsections).value;
            && UnreleasedBlock(SplitLines(cut.text)).Some?
            && Finish(UnreleasedBlock(SplitLines(cut.text)).value) == Finish([UNRELEASED])
            && UNRELEASED in SplitLines(cut.text)
  {
    var lines := SplitLines(text);
    var start := First(lines, Equals(UNRELEASED), 0);
    var heading := HeadingLine(version, date);
    RewriteInsertsTheHeading(text, version, date, subsections);
    CutFileReads(text, version, date, subsections);
    HeadingReadsBack(version, date);
    SectionMarks();
    CutLinesUnreleased(lines, start, heading, Equals(UNRELEASED), IsSection);
    TrimmedKeepsBlocks(CutLines(lines, start, heading), Equals(UNRELEASED), IsSection);
    BareBlock(UnreleasedBlock(Trimmed(CutLines(lines, start, heading))), UNRELEASED);
    FirstFinds(Trimmed(CutLines(lines, start, heading)), UNRELEASED);
  }

  lemma CutLinesKeepOthers(lines: seq<string>, start: nat, heading: string, p: string -> bool, end: string -> bool)
    requires start < |lines| && end(lines[start]) && !p(lines[start]) && !p(heading) && !p("")
    ensures var cut := CutLines(lines, start, heading);
            var i, j := First(lines, p, 0), First(cut, p, 0);
            && (i < |lines| <==> j < |cut|)
            && (i < |lines| ==> lines[i] == cut[j])
            && Block(cut, p, end) == Block(lines, p, end)
  {
    var i := First(lines, p, 0);
    if i < start + 1 {
      assert i != start;
      if start < First(lines, end, i + 1) {
        NoneBeforeFirst(lines, end, i + 1, start);
      }
    }
    InsertionKeepsBlocks(lines, start + 1, ["", heading], p, end);
  }

  lemma CutKeepsOthers(text: string, version: string, date: string, subsections: seq<string>, other: string)
    requires RewriteChangelog(text, version, date, subsections).Success?
    requires IsDotted(version) && IsDate(date) && other != version
    ensures var cut := RewriteChangelog(text, version, date, subsections).value;
            && ReleaseSection(cut.text, other) == ReleaseSection(text, other)
            && ChangelogDate(cut.text, other) == ChangelogDate(text, other)
  {
    var lines := SplitLines(text);
    var start := First(lines, Equals(UNRELEASED), 0);
    var heading := HeadingLine(version, date);
    RewriteInsertsTheHeading(text, version, date, subsections);
    CutFileReads(text, version, date, subsections);
    HeadingReadsBack(version, date);
    SectionMarks();
    CutLinesKeepOthers(lines, start, heading, Naming(other), IsSection);
    TrimmedKeepsBlocks(CutLines(lines, start, heading), Naming(other), IsSection);
  }

  /** A cut's changelog gives back the section and the date it was cut with, keeps every
      other release's section and date, and needs no `## Unreleased` on the reopen. */
  lemma CutReadsBack(text: string, version: string, date: string, subsections: seq<string>, other: string)
    requires RewriteChangelog(text, version, date, subsections).Success?
    requires IsDotted(version) && IsDate(date)
    ensures var cut := RewriteChangelog(text, version, date, subsections).value;
            && ReleaseSection(cut.text, version) == Success(cut.section)
            && ChangelogDate(cut.text, version) == Some(date)
            && (other != version ==>
                  && ReleaseSection(cut.text, other) == ReleaseSection(text, other)
                  && ChangelogDate(cut.text, other) == ChangelogDate(text, other))
            && EnsureUnreleased(cut.text) == Success(cut.text)
  {
    CutFileReads(text, version, date, subsections);
    CutKeepsUnreleased(text, version, date, subsections);
    if other != version {
      CutKeepsOthers(text, version, date, subsections, other);
    }
  }

  lemma UnreleasedIsOneLine(lines: seq<string>)
    requires AllOneLine(lines) && UnreleasedBlock(lines).Some?
    ensures AllOneLine(UnreleasedBlock(lines).value) && UnreleasedBlock(lines).value != []
  {
  }

  lemma NoEntryInBareUnreleased(block: seq<string>)
    requires AllOneLine(block) && block != []
    requires Finish(block) == Finish([UNRELEASED])
    ensures !HasEntry(block[1..])
  {
    hide SplitLines, Finish;
    if HasEntry(block[1..]) {
      var k :| 1 <= k < |block| && IsEntry(block[k]);
      TextOfLines(Finish(block), block, k);
      SplitOfFinish([UNRELEASED]);
    }
  }

  lemma SecondCutIsRefused(text: string, version: string, date: string, subsections: seq<string>,
                           nextVersion: string, nextDate: string, nextSubsections: seq<string>)
    requires RewriteChangelog(text, version, date, subsections).Success?
    requires IsDotted(version) && IsDate(date)
    ensures var cut := RewriteChangelog(text, version, date, subsections).value;
            RewriteChangelog(cut.text, nextVersion, nextDate, nextSubsections).Failure?
  {
    hide RewriteChangelog, SplitLines, Finish, UnreleasedBlock, HeadingLine, HasEntry, First;
    CutKeepsUnreleased(text, version, date, subsections);
    var cut := RewriteChangelog(text, version, date, subsections).value;
    if RewriteChangelog(cut.text, nextVersion, nextDate, nextSubsections).Success? {
      RewriteInsertsTheHeading(cut.text, nextVersion, nextDate, nextSubsections);
      UnreleasedIsOneLine(SplitLines(cut.text));
      NoEntryInBareUnreleased(UnreleasedBlock(SplitLines(cut.text)).value);
    }
  }

  /** Every entry under `## Unreleased` moves to the released section, in order, and to no
      other place: that section is the heading and the block, every other section stays as
      it was, and a second cut without a new entry is refused. */
  lemma EntriesMoveOnce(text: string, version: string, date: string, subsections: seq<string>, other: string,
                        nextVersion: string, nextDate: string, nextSubsections: seq<string>)
    requires RewriteChangelog(text, version, date, subsections).Success?
    requires IsDotted(version) && IsDate(date)
    ensures var cut := RewriteChangelog(text, version, date, subsections).value;
            var block := UnreleasedBlock(SplitLines(text)).value[1..];
            && HasEntry(block)
            && cut.section == Finish([HeadingLine(version, date)] + block)
            && ReleaseSection(cut.text, version) == Success(cut.section)
            && (other != version ==> ReleaseSection(cut.text, other) == ReleaseSection(text, other))
            && RewriteChangelog(cut.text, nextVersion, nextDate, nextSubsections).Failure?
  {
    hide RewriteChangelog, ReleaseSection, EnsureUnreleased, SplitLines, Finish, UnreleasedBlock, HeadingLine,
         HasEntry, First;
    RewriteInsertsTheHeading(text, version, date, subsections);
    CutReadsBack(text, version, date, subsections, other);
    SecondCutIsRefused(text, version, date, subsections, nextVersion, nextDate, nextSubsections);
  }

  /** The block of an entry does not end with the heading. */
  lemma NothingFollows(lines: seq<string>, start: nat)
    requires start < |lines| && start == First(lines, Equals(UNRELEASED), 0)
    requires HasEntry(UnreleasedBlock(lines).value[1..])
    ensures start + 1 < |lines|
  {
  }

  lemma LongerThanRead(lines: seq<string>, start: nat, heading: string)
    requires AllOneLine(lines) && OneLine(heading) && start + 1 < |lines|
    ensures SplitLines(Finish(CutLines(lines, start, heading))) != lines
  {
    var longer := CutLines(lines, start, heading);
    CutLinesOneLine(lines, start, heading);
    assert longer[|longer| - 1] == lines[|lines| - 1];
    assert longer[start + 2] == heading;
    if lines[|lines| - 1] != "" {
      assert Trimmed(longer) == longer;
      SplitOfFinish(longer);
    } else if Trimmed(longer) != [] {
      SplitOfFinish(longer);
    } else {
      RStripOfJoin(longer);
      SplitCons("", "");
      SplitNothing();
    }
  }

  /** A rewrite always changes the file, whatever is given as its date. */
  lemma RewriteChangesTheFile(text: string, version: string, date: string, subsections: seq<string>)
    requires RewriteChangelog(text, version, date, subsections).Success?
    requires OneLine(version) && OneLine(date)
    ensures RewriteChangelog(text, version, date, subsections).value.text != text
  {
    RewriteInsertsTheHeading(text, version, date, subsections);
    var lines := SplitLines(text);
    var start := First(lines, Equals(UNRELEASED), 0);
    var heading := HeadingLine(version, date);
    NothingFollows(lines, start);
    assert OneLine(heading) && OneLine("");
    if Finish(CutLines(lines, start, heading)) == text {
      LongerThanRead(lines, start, heading);
    }
  }

  // ---------------------------------------------------------------- the reopen

  /** A changelog without `## Unreleased`, before the reopened file is finished. */
  function ReopenedLines(lines: seq<string>): seq<string> {
    Inserted(lines, First(lines, IsRelease, 0), [UNRELEASED, ""])
  }

  lemma ReopenedReads(text: string)
    requires EnsureUnreleased(text).Success? && UNRELEASED !in SplitLines(text)
    ensures var reopened := EnsureUnreleased(text).value;
            && SplitLines(reopened) == Trimmed(ReopenedLines(SplitLines(text)))
            && UNRELEASED in SplitLines(reopened)
  {
    hide IsRelease, SplitLines, Finish, Trimmed;
    var lines := SplitLines(text);
    var first := First(lines, IsRelease, 0);
    var longer := ReopenedLines(lines);
    SectionMarks();
    assert lines[..first] + [UNRELEASED, ""] + lines[first..] == longer;
    assert longer[first] == UNRELEASED;
    TextOfLines(Finish(longer), longer, first);
    assert Trimmed(longer)[first] == UNRELEASED;
  }

  lemma ReopenedKeepsBlock(lines: seq<string>, version: string)
    requires AllOneLine(lines) && First(lines, IsRelease, 0) < |lines|
    ensures var reopened := Trimmed(ReopenedLines(lines));
            var i, j := First(lines, Naming(version), 0), First(reopened, Naming(version), 0);
            && (i < |lines| <==> j < |reopened|)
            && (i < |lines| ==> lines[i] == reopened[j])
            && SameBlock(SectionLines(reopened, version), SectionLines(lines, version))
  {
    var first := First(lines, IsRelease, 0);
    var added := [UNRELEASED, ""];
    var named := First(lines, Naming(version), 0);
    SectionMarks();
    if named < first {
      NoneBeforeFirst(lines, IsRelease, 0, named);
    }
    InsertionKeepsBlocks(lines, first, added, Naming(version), IsSection);
    TrimmedKeepsBlocks(Inserted(lines, first, added), Naming(version), IsSection);
  }

  /** A reopen leaves every section as it was and needs to be done only once. */
  lemma ReopenKeepsSections(text: string, version: string)
    requires EnsureUnreleased(text).Success?
    ensures var reopened := EnsureUnreleased(text).value;
            && UNRELEASED in SplitLines(reopened)
            && EnsureUnreleased(reopened) == Success(reopened)
            && ReleaseSection(reopened, version) == ReleaseSection(text, version)
            && ChangelogDate(reopened, version) == ChangelogDate(text, version)
  {
    if UNRELEASED !in SplitLines(text) {
      ReopenedReads(text);
      ReopenedKeepsBlock(SplitLines(text), version);
    }
  }
}
