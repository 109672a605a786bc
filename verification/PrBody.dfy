/** The release pull request's body under GitHub's size limit: the section or a pointer
    to it, and as many entries of each derivation list as fit. */
module PrBody {
  import opened Results
  import opened Versions
  import opened Lines
  import opened Numbers
  import opened Utf8
  import Bisection
  import Decimal

  const LIMIT := 65536

  /** The derivation lists: commits that drove the level, unparsed ones, squashed ones. */
  datatype Lists = Lists(major: seq<string>, minor: seq<string>, patch: seq<string>,
                         unknown: seq<string>, squashed: seq<string>)

  const MORE_PREFIX := "- … and "

  const MORE_SUFFIX := " more"

  function MoreLine(left: nat): string {
    MORE_PREFIX + Decimal.Numeral(left) + MORE_SUFFIX
  }

  function Bullets(subjects: seq<string>): (r: seq<string>)
    ensures |r| == |subjects|
  {
    if subjects == [] then [] else ["- " + subjects[0]] + Bullets(subjects[1..])
  }

  /** `listed`: all subjects, or the first `keep` and how many were left out. */
  function Listed(subjects: seq<string>, keep: Option<nat>): seq<string> {
    if keep.None? || keep.value >= |subjects| then Bullets(subjects)
    else Bullets(subjects[..keep.value]) + [MoreLine(|subjects| - keep.value)]
  }

  function Block(title: string, subjects: seq<string>, keep: Option<nat>): seq<string> {
    if subjects == [] then [] else [title] + Listed(subjects, keep) + [""]
  }

  const UNKNOWN_TITLE := "Commits whose subject does not follow `type(scope): text` (contributed nothing to the level; raise it by hand if one of them is a feature or a breaking change):"

  const SQUASHED_TITLE := "Squash/rebase-merged PRs (only the squash subject was classified; their inner commit types are not visible):"

  const CLOSING := "Merging this PR is the decision to release; `release-tag.yml` tags the merge commit and starts `release.yml`. Then run `python3 scripts/release_cut.py --reopen`."

  function Head(level: string, section: string): seq<string> {
    [section, "", "## Bump derivation", "", "Level: **" + level + "**", ""]
  }

  function Parts(level: string, section: string, lists: Lists, keep: Option<nat>): seq<string> {
    Head(level, section)
    + Block("major:", lists.major, keep) + Block("minor:", lists.minor, keep) + Block("patch:", lists.patch, keep)
    + Block(UNKNOWN_TITLE, lists.unknown, keep) + Block(SQUASHED_TITLE, lists.squashed, keep)
    + [CLOSING]
  }

  function Body(level: string, section: string, lists: Lists, keep: Option<nat>): string {
    Finish(Parts(level, section, lists, keep))
  }

  method Append(parts: seq<string>, title: string, subjects: seq<string>, keep: Option<nat>) returns (r: seq<string>)
    ensures r == parts + Block(title, subjects, keep)
  {
    hide Listed;
    r := parts;
    if subjects != [] {
      r := r + [title];
      r := r + Listed(subjects, keep);
      r := r + [""];
    }
  }

  /** `_pr_body` */
  method WriteBody(level: string, section: string, lists: Lists, keep: Option<nat>) returns (text: string)
    ensures text == Body(level, section, lists, keep)
  {
    hide Block, Finish;
    var parts := Head(level, section);
    parts := Append(parts, "major:", lists.major, keep);
    parts := Append(parts, "minor:", lists.minor, keep);
    parts := Append(parts, "patch:", lists.patch, keep);
    parts := Append(parts, UNKNOWN_TITLE, lists.unknown, keep);
    parts := Append(parts, SQUASHED_TITLE, lists.squashed, keep);
    parts := parts + [CLOSING];
    text := Finish(parts);
  }

  // ---------------------------------------------------------------- sizes

  function ListedSize(subjects: seq<string>, keep: nat): nat {
    LinesSize(Listed(subjects, Some(keep)))
  }

  function BlockSize(title: string, subjects: seq<string>, keep: nat): nat {
    if subjects == [] then 0 else Size(title) + 2 + ListedSize(subjects, keep)
  }

  function BodySize(level: string, section: string, lists: Lists, keep: nat): nat {
    LinesSize(Head(level, section))
    + BlockSize("major:", lists.major, keep) + BlockSize("minor:", lists.minor, keep)
    + BlockSize("patch:", lists.patch, keep)
    + BlockSize(UNKNOWN_TITLE, lists.unknown, keep) + BlockSize(SQUASHED_TITLE, lists.squashed, keep)
    + LinesSize([CLOSING])
  }

  lemma SizeOfBlock(title: string, subjects: seq<string>, keep: nat)
    ensures LinesSize(Block(title, subjects, Some(keep))) == BlockSize(title, subjects, keep)
  {
    if subjects != [] {
      LinesSizeOfConcat([title], Listed(subjects, Some(keep)));
      LinesSizeOfConcat([title] + Listed(subjects, Some(keep)), [""]);
      assert LinesSize([title]) == Size(title) + 1;
      assert LinesSize([""]) == 1;
    }
  }

  lemma ClosingEnds()
    ensures |CLOSING| > 0 && CLOSING[|CLOSING| - 1] == '.'
  {
  }

  lemma SizeOfBody(level: string, section: string, lists: Lists, keep: nat)
    ensures Size(Body(level, section, lists, Some(keep))) == BodySize(level, section, lists, keep)
  {
    hide Block, BlockSize, Head, Finish, Size, LinesSize;
    var kept := Some(keep);
    var a := Head(level, section);
    var b, c := Block("major:", lists.major, kept), Block("minor:", lists.minor, kept);
    var d := Block("patch:", lists.patch, kept);
    var e, f := Block(UNKNOWN_TITLE, lists.unknown, kept), Block(SQUASHED_TITLE, lists.squashed, kept);
    SizeOfBlock("major:", lists.major, keep);
    SizeOfBlock("minor:", lists.minor, keep);
    SizeOfBlock("patch:", lists.patch, keep);
    SizeOfBlock(UNKNOWN_TITLE, lists.unknown, keep);
    SizeOfBlock(SQUASHED_TITLE, lists.squashed, keep);
    LinesSizeOfConcat(a, b);
    LinesSizeOfConcat(a + b, c);
    LinesSizeOfConcat(a + b + c, d);
    LinesSizeOfConcat(a + b + c + d, e);
    LinesSizeOfConcat(a + b + c + d + e, f);
    LinesSizeOfConcat(a + b + c + d + e + f, [CLOSING]);
    var parts := Parts(level, section, lists, kept);
    assert parts == a + b + c + d + e + f + [CLOSING];
    ClosingEnds();
    SizeOfFinish(parts);
  }

  lemma NumeralIsAscii(n: nat)
    ensures Size(Decimal.Numeral(n)) == |Decimal.Numeral(n)|
  {
    AsciiSize(Decimal.Numeral(n));
  }

  lemma MorePieces()
    ensures Size(MORE_PREFIX) == 10 && Size(MORE_SUFFIX) == 5
  {
  }

  /** The line that counts what was left out: fifteen bytes and a numeral. */
  lemma SizeOfMoreLine(left: nat)
    ensures Size(MoreLine(left)) == 15 + |Decimal.Numeral(left)|
  {
    NumeralIsAscii(left);
    SizeOfConcat(MORE_PREFIX, Decimal.Numeral(left));
    SizeOfConcat(MORE_PREFIX + Decimal.Numeral(left), MORE_SUFFIX);
    MorePieces();
  }

  lemma {:induction false} BulletsSnoc(subjects: seq<string>, last: string)
    ensures Bullets(subjects + [last]) == Bullets(subjects) + ["- " + last]
  {
    if subjects == [] {
    } else {
      BulletsSnoc(subjects[1..], last);
      assert (subjects + [last])[1..] == subjects[1..] + [last];
    }
  }

  lemma SizeOfOneMore(subjects: seq<string>, last: string)
    ensures LinesSize(Bullets(subjects + [last])) == LinesSize(Bullets(subjects)) + Size(last) + 3
  {
    BulletsSnoc(subjects, last);
    LinesSizeOfConcat(Bullets(subjects), ["- " + last]);
    SizeOfConcat("- ", last);
    AsciiSize("- ");
    assert LinesSize(["- " + last]) == Size("- " + last) + 1;
  }

  /** What showing subject `keep` adds to its list, in bytes: its bullet, less the digit its
      count may lose, or less the whole line that counted it as the last one left out. */
  function ListGain(subjects: seq<string>, keep: nat): int {
    if keep >= |subjects| then 0
    else if keep + 1 == |subjects| then Size(subjects[keep]) - 14
    else Size(subjects[keep]) + 3 - (|Decimal.Numeral(|subjects| - keep)| - |Decimal.Numeral(|subjects| - keep - 1)|)
  }

  lemma SizeOfCount(left: nat)
    ensures LinesSize([MoreLine(left)]) == 16 + |Decimal.Numeral(left)|
    ensures left < 10 ==> |Decimal.Numeral(left)| == 1
  {
    SizeOfMoreLine(left);
    assert LinesSize([MoreLine(left)]) == Size(MoreLine(left)) + 1;
  }

  lemma ListedStep(subjects: seq<string>, keep: nat)
    ensures ListedSize(subjects, keep + 1) == ListedSize(subjects, keep) + ListGain(subjects, keep)
  {
    if keep < |subjects| {
      var shown, next := subjects[..keep], subjects[keep];
      var left := |subjects| - keep;
      SizeOfOneMore(shown, next);
      assert subjects[..keep + 1] == shown + [next];
      LinesSizeOfConcat(Bullets(shown), [MoreLine(left)]);
      SizeOfCount(left);
      if left > 1 {
        LinesSizeOfConcat(Bullets(shown + [next]), [MoreLine(left - 1)]);
        SizeOfCount(left - 1);
      } else {
        assert subjects == shown + [next];
      }
    }
  }

  /** Only a list's last subject can be shorter than the line that counts it as left out. */
  predicate LastIsLong(subjects: seq<string>) {
    subjects != [] ==> Size(subjects[|subjects| - 1]) >= 14
  }

  lemma GainOfOne(subjects: seq<string>, keep: nat)
    ensures keep + 1 != |subjects| ==> ListGain(subjects, keep) >= 0
    ensures keep + 1 == |subjects| ==> (ListGain(subjects, keep) >= 0 <==> LastIsLong(subjects))
  {
    if keep + 1 < |subjects| {
      Decimal.NumeralGrows(|subjects| - keep - 1);
    }
  }

  lemma LastIndex(subjects: seq<string>) returns (last: nat)
    requires !LastIsLong(subjects)
    ensures last + 1 == |subjects|
  {
    last := |subjects| - 1;
  }

  /** Showing one more subject never shortens a list exactly when its last subject has
      fourteen bytes. */
  lemma ListedGrowsExactly(subjects: seq<string>)
    ensures LastIsLong(subjects) <==> forall keep: nat :: ListedSize(subjects, keep) <= ListedSize(subjects, keep + 1)
  {
    hide ListedSize, ListGain, LastIsLong;
    forall keep: nat
      ensures ListedSize(subjects, keep + 1) == ListedSize(subjects, keep) + ListGain(subjects, keep)
      ensures ListGain(subjects, keep) >= 0 || (keep + 1 == |subjects| && !LastIsLong(subjects))
    {
      ListedStep(subjects, keep);
      GainOfOne(subjects, keep);
    }
    if !LastIsLong(subjects) {
      var last := LastIndex(subjects);
      GainOfOne(subjects, last);
      assert ListedSize(subjects, last) > ListedSize(subjects, last + 1);
    }
  }

  /** What one more entry of each list adds to the body. */
  function Gain(lists: Lists, keep: nat): int {
    ListGain(lists.major, keep) + ListGain(lists.minor, keep) + ListGain(lists.patch, keep)
    + ListGain(lists.unknown, keep) + ListGain(lists.squashed, keep)
  }

  lemma BlockStep(title: string, subjects: seq<string>, keep: nat)
    ensures BlockSize(title, subjects, keep + 1) == BlockSize(title, subjects, keep) + ListGain(subjects, keep)
  {
    hide ListedSize, Size;
    ListedStep(subjects, keep);
  }

  lemma BodyStep(level: string, section: string, lists: Lists, keep: nat)
    ensures BodySize(level, section, lists, keep + 1) == BodySize(level, section, lists, keep) + Gain(lists, keep)
  {
    hide BlockSize, Head, LinesSize, ListGain;
    BlockStep("major:", lists.major, keep);
    BlockStep("minor:", lists.minor, keep);
    BlockStep("patch:", lists.patch, keep);
    BlockStep(UNKNOWN_TITLE, lists.unknown, keep);
    BlockStep(SQUASHED_TITLE, lists.squashed, keep);
  }

  function Longest(lists: Lists): nat {
    Max(Max(Max(|lists.major|, |lists.minor|), |lists.patch|), Max(|lists.unknown|, |lists.squashed|))
  }

  /** No entry of the lists shortens the body by being shown with the others of its rank. */
  predicate NeverShrinks(lists: Lists) {
    forall keep | 0 <= keep < Longest(lists) :: Gain(lists, keep) >= 0
  }

  /** The body's size never falls exactly when, at every rank, the gains of the five lists
      do not add up to a loss: one list's short last subject can be outweighed by another. */
  lemma BodyGrowsExactly(level: string, section: string, lists: Lists)
    ensures NeverShrinks(lists) <==>
            forall keep | 0 <= keep < Longest(lists) ::
              BodySize(level, section, lists, keep) <= BodySize(level, section, lists, keep + 1)
  {
    hide BodySize, Gain;
    forall keep | 0 <= keep < Longest(lists)
      ensures Gain(lists, keep) >= 0 <==>
                BodySize(level, section, lists, keep) <= BodySize(level, section, lists, keep + 1)
    {
      BodyStep(level, section, lists, keep);
    }
    if !NeverShrinks(lists) {
      var keep :| 0 <= keep < Longest(lists) && Gain(lists, keep) < 0;
      assert BodySize(level, section, lists, keep) > BodySize(level, section, lists, keep + 1);
    }
  }

  predicate LastsAreLong(lists: Lists) {
    && LastIsLong(lists.major) && LastIsLong(lists.minor) && LastIsLong(lists.patch)
    && LastIsLong(lists.unknown) && LastIsLong(lists.squashed)
  }

  lemma LongLastsNeverShrink(lists: Lists)
    requires LastsAreLong(lists)
    ensures NeverShrinks(lists)
  {
    hide LastIsLong, ListGain;
    forall keep | 0 <= keep < Longest(lists) ensures Gain(lists, keep) >= 0 {
      GainOfOne(lists.major, keep);
      GainOfOne(lists.minor, keep);
      GainOfOne(lists.patch, keep);
      GainOfOne(lists.unknown, keep);
      GainOfOne(lists.squashed, keep);
    }
  }

  // ---------------------------------------------------------------- the search

  function Thousands(n: nat): string {
    if n < 1000 then Decimal.Numeral(n)
    else
      var low := Decimal.Numeral(n % 1000);
      Thousands(n / 1000) + "," + (if |low| == 1 then "00" else if |low| == 2 then "0" else "") + low
  }

  /** `section_pointer` */
  function SectionPointer(version: string, section: string): string {
    var lines := SplitLines(RStrip(section));
    (if lines != [] then lines[0] else "## " + version) + "\n\n"
    + "This section is " + Decimal.Numeral(|lines|) + " lines (" + Thousands(Size(section))
    + " bytes), more than a pull request body holds. "
    + "It is in this PR's `CHANGELOG.md` diff, and `release.yml` turns it into the release notes "
    + "(`scripts/release_notes.py " + version + "`).\n"
  }

  predicate Fits(level: string, pointer: string, lists: Lists, limit: int, keep: nat) {
    Size(Body(level, pointer, lists, Some(keep))) <= limit
  }

  /** The body's size for every count that the search may try. */
  function Sizes(level: string, pointer: string, lists: Lists): (r: seq<nat>)
    ensures |r| == Longest(lists) + 1
  {
    seq(Longest(lists) + 1, keep requires 0 <= keep => Size(Body(level, pointer, lists, Some(keep))))
  }

  lemma SizeAt(level: string, pointer: string, lists: Lists, limit: int, keep: nat)
    requires keep <= Longest(lists)
    ensures Sizes(level, pointer, lists)[keep] == BodySize(level, pointer, lists, keep)
    ensures Sizes(level, pointer, lists)[keep] <= limit <==> Fits(level, pointer, lists, limit, keep)
  {
    hide Body, BodySize;
    SizeOfBody(level, pointer, lists, keep);
  }

  /** The count that `pr_body` keeps of each list, or a refusal. */
  function Kept(level: string, pointer: string, lists: Lists, limit: int): Option<nat> {
    Bisection.Answer(Sizes(level, pointer, lists), limit)
  }

  method Search(level: string, pointer: string, lists: Lists, limit: int) returns (r: Option<nat>)
    ensures r == Kept(level, pointer, lists, limit)
  {
    hide Body;
    ghost var sizes := Sizes(level, pointer, lists);
    var lo, hi := 0, Longest(lists);
    while lo < hi
      invariant 0 <= lo <= hi < |sizes|
      invariant Bisection.Find(sizes, limit, lo, hi) == Bisection.Find(sizes, limit, 0, |sizes| - 1)
    {
      var mid := (lo + hi + 1) / 2;
      var body := WriteBody(level, pointer, lists, Some(mid));
      if Size(body) <= limit {
        lo := mid;
      } else {
        hi := mid - 1;
      }
    }
    var body := WriteBody(level, pointer, lists, Some(lo));
    r := if Size(body) > limit then None else Some(lo);
  }

  function Composed(version: string, level: string, section: string, lists: Lists, limit: int): Option<string> {
    var full, pointer := Body(level, section, lists, None), SectionPointer(version, section);
    var keep := Kept(level, pointer, lists, limit);
    if Size(full) <= limit then Some(full)
    else if keep.None? then None
    else Some(Body(level, pointer, lists, keep))
  }

  /** `pr_body` */
  method Compose(version: string, level: string, section: string, lists: Lists, limit: int) returns (r: Option<string>)
    ensures r == Composed(version, level, section, lists, limit)
  {
    hide Body, SectionPointer, Kept;
    var full := WriteBody(level, section, lists, None);
    if Size(full) <= limit { return Some(full); }
    var pointer := SectionPointer(version, section);
    var keep := Search(level, pointer, lists, limit);
    if keep.None? { return None; }
    var body := WriteBody(level, pointer, lists, keep);
    r := Some(body);
  }

  /** For every input: a kept count fits and the next one does not, unless nothing is left
      out; a refusal means that neither no entry nor one entry fits. */
  lemma KeptIsAnEdge(level: string, pointer: string, lists: Lists, limit: int)
    ensures var r := Kept(level, pointer, lists, limit);
            && (r.Some? ==> r.value <= Longest(lists) && Fits(level, pointer, lists, limit, r.value))
            && (r.Some? && r.value < Longest(lists) ==> !Fits(level, pointer, lists, limit, r.value + 1))
            && (r.None? ==> !Fits(level, pointer, lists, limit, 0))
            && (r.None? && Longest(lists) > 0 ==> !Fits(level, pointer, lists, limit, 1))
  {
    hide Fits, Sizes, BodySize, Bisection.Find;
    var sizes, n := Sizes(level, pointer, lists), Longest(lists);
    Bisection.FoundIsAnEdge(sizes, limit, 0, n);
    var found := Bisection.Find(sizes, limit, 0, n);
    SizeAt(level, pointer, lists, limit, found);
    if found < n { SizeAt(level, pointer, lists, limit, found + 1); }
  }

  /** What the search is for: nothing beyond the kept count fits, and a refusal means that
      no count does. */
  predicate IsTheMost(level: string, pointer: string, lists: Lists, limit: int) {
    var r := Kept(level, pointer, lists, limit);
    && (r.Some? ==> r.value <= Longest(lists) && Fits(level, pointer, lists, limit, r.value))
    && forall k | 0 <= k <= Longest(lists) ::
         Fits(level, pointer, lists, limit, k) ==> r.Some? && k <= r.value
  }

  lemma MostIsLargest(level: string, pointer: string, lists: Lists, limit: int)
    ensures IsTheMost(level, pointer, lists, limit) <==>
            Bisection.IsLargest(Sizes(level, pointer, lists), limit, Kept(level, pointer, lists, limit))
  {
    hide Fits, Sizes, BodySize, Bisection.Answer;
    forall k | 0 <= k <= Longest(lists)
      ensures Sizes(level, pointer, lists)[k] <= limit <==> Fits(level, pointer, lists, limit, k)
    {
      SizeAt(level, pointer, lists, limit, k);
    }
  }

  /** The kept count is the most that fits, under every limit, if and only if no probe of
      the search hides a smaller size of a later count from a limit that leads to it. */
  lemma SearchIsExactIff(level: string, pointer: string, lists: Lists)
    ensures (forall limit: int :: IsTheMost(level, pointer, lists, limit)) <==>
            Bisection.NoProbeHides(Sizes(level, pointer, lists), 0, Longest(lists), 0, None)
  {
    hide IsTheMost, Sizes, Bisection.IsLargest, Bisection.NoProbeHides;
    forall limit: int
      ensures IsTheMost(level, pointer, lists, limit) <==>
              Bisection.IsLargest(Sizes(level, pointer, lists), limit, Kept(level, pointer, lists, limit))
    {
      MostIsLargest(level, pointer, lists, limit);
    }
    var sizes := Sizes(level, pointer, lists);
    assert forall limit: int :: Kept(level, pointer, lists, limit) == Bisection.Answer(sizes, limit);
    Bisection.LargestForEveryLimit(sizes);
  }

  lemma {:induction false} BodyGrows(level: string, pointer: string, lists: Lists, i: nat, j: nat)
    requires i <= j <= Longest(lists)
    requires forall keep | 0 <= keep < Longest(lists) ::
               BodySize(level, pointer, lists, keep) <= BodySize(level, pointer, lists, keep + 1)
    ensures BodySize(level, pointer, lists, i) <= BodySize(level, pointer, lists, j)
    decreases j
  {
    hide BodySize;
    if i == j {
    } else {
      BodyGrows(level, pointer, lists, i, j - 1);
      assert BodySize(level, pointer, lists, j - 1) <= BodySize(level, pointer, lists, j - 1 + 1);
    }
  }

  lemma SizesRise(level: string, pointer: string, lists: Lists)
    requires NeverShrinks(lists)
    ensures Bisection.Rising(Sizes(level, pointer, lists))
  {
    hide NeverShrinks, Sizes, BodySize;
    BodyGrowsExactly(level, pointer, lists);
    forall i, j | 0 <= i <= j <= Longest(lists)
      ensures Sizes(level, pointer, lists)[i] <= Sizes(level, pointer, lists)[j]
    {
      SizeAt(level, pointer, lists, 0, i);
      SizeAt(level, pointer, lists, 0, j);
      BodyGrows(level, pointer, lists, i, j);
    }
  }

  /** When the body never shrinks, as with long last subjects, the kept count is the most
      that fits, and the cut is refused exactly when not even the empty lists fit. */
  lemma KeptIsTheMost(level: string, pointer: string, lists: Lists, limit: int, other: nat)
    requires NeverShrinks(lists) && other <= Longest(lists)
    ensures Kept(level, pointer, lists, limit).Some? ==>
              (Fits(level, pointer, lists, limit, other) <==> other <= Kept(level, pointer, lists, limit).value)
    ensures Kept(level, pointer, lists, limit).None? <==> !Fits(level, pointer, lists, limit, 0)
  {
    hide Kept, Fits, NeverShrinks, Sizes, BodySize, Bisection.NoProbeHides;
    SizesRise(level, pointer, lists);
    var sizes, n := Sizes(level, pointer, lists), Longest(lists);
    Bisection.RisingHidesNothing(sizes, 0, n, 0, None);
    SearchIsExactIff(level, pointer, lists);
    assert IsTheMost(level, pointer, lists, limit);
    SizeAt(level, pointer, lists, limit, other);
    SizeAt(level, pointer, lists, limit, 0);
    var r := Kept(level, pointer, lists, limit);
    if r.Some? { SizeAt(level, pointer, lists, limit, r.value); }
  }

  /** Lists of at most one entry are searched exactly, however short their subjects are. */
  lemma OneEntryIsNeverHidden(level: string, pointer: string, lists: Lists, limit: int)
    requires Longest(lists) <= 1
    ensures IsTheMost(level, pointer, lists, limit)
  {
    hide IsTheMost;
    SearchIsExactIff(level, pointer, lists);
  }

  /** A full body shows every entry, as one does that keeps as many as the longest list has. */
  lemma FullBodySize(level: string, section: string, lists: Lists)
    ensures Size(Body(level, section, lists, None)) == BodySize(level, section, lists, Longest(lists))
  {
    hide BodySize, Bullets, Finish, Size;
    assert Parts(level, section, lists, None) == Parts(level, section, lists, Some(Longest(lists)));
    SizeOfBody(level, section, lists, Longest(lists));
  }

  lemma HeadSize(level: string, section: string)
    ensures LinesSize(Head(level, section)) == Size(section) + LinesSize(Head(level, section)[1..]) + 1
    ensures Head(level, section)[1..] == Head(level, "")[1..]
  {
    hide Size;
  }

  lemma SectionSize(level: string, a: string, b: string, lists: Lists, keep: nat)
    ensures BodySize(level, a, lists, keep) - Size(a) == BodySize(level, b, lists, keep) - Size(b)
  {
    hide BlockSize, Size;
    HeadSize(level, a);
    HeadSize(level, b);
  }

  // ---------------------------------------------------------------- short subjects

  /** Two commits whose subjects the pattern does not follow. */
  function ShortLists(): Lists {
    Lists([], [], [], ["a", "b"], [])
  }

  /** Showing one of the two adds four bytes; showing the second takes thirteen off. */
  lemma ShortGains()
    ensures Gain(ShortLists(), 0) == 4 && Gain(ShortLists(), 1) == -13
  {
    assert Size("a") == 1 && Size("b") == 1 by {
      assert "a"[1..] == "" && "b"[1..] == "";
    }
    assert |Decimal.Numeral(1)| == 1 && |Decimal.Numeral(2)| == 1;
  }

  /** Short subjects defeat the search: a section that is longer than its pointer does not
      fit, the pointer with both subjects does, and the cut is refused, because the search
      starts from one subject and a count. */
  lemma ShortSubjectsAreRefused(version: string, level: string, section: string)
    requires Size(section) > Size(SectionPointer(version, section))
    ensures var pointer := SectionPointer(version, section);
            var limit := Size(Body(level, pointer, ShortLists(), Some(2)));
            Longest(ShortLists()) == 2 && Composed(version, level, section, ShortLists(), limit) == None
  {
    hide Body, BodySize, Sizes, Size, ListGain, SectionPointer;
    var lists, pointer := ShortLists(), SectionPointer(version, section);
    SizeOfBody(level, pointer, lists, 2);
    var limit := BodySize(level, pointer, lists, 2);
    FullBodySize(level, section, lists);
    SectionSize(level, section, pointer, lists, 2);
    SizeAt(level, pointer, lists, limit, 0);
    SizeAt(level, pointer, lists, limit, 1);
    SizeAt(level, pointer, lists, limit, 2);
    BodyStep(level, pointer, lists, 0);
    BodyStep(level, pointer, lists, 1);
    ShortGains();
    var sizes := Sizes(level, pointer, lists);
    assert Bisection.Find(sizes, limit, 0, 2) == Bisection.Find(sizes, limit, 0, 0) == 0;
  }

  function Xs(): string {
    seq(2000, _ => 'x')
  }

  /** A heading and one long entry. */
  function LongSection(): string {
    "## 1.2.3" + "\n" + ("- " + Xs())
  }

  lemma {:induction false} NoFeedInside(s: string)
    requires '\n' !in s
    ensures IndexOf(s, '\n') == |s|
  {
    if s == "" {
    } else {
      NoFeedInside(s[1..]);
    }
  }

  lemma OneLineReads(s: string)
    requires s != "" && '\n' !in s
    ensures SplitLines(s) == [s]
  {
    NoFeedInside(s);
  }

  lemma LongSectionReads()
    ensures SplitLines(RStrip(LongSection())) == ["## 1.2.3", "- " + Xs()]
    ensures Size(LongSection()) == 2011
  {
    var first, rest, section := "## 1.2.3", "- " + Xs(), LongSection();
    hide Size, SplitLines;
    assert section[|section| - 1] == 'x';
    assert RStrip(section) == section;
    assert OneLine(first);
    SplitCons(first, rest);
    OneLineReads(rest);
    AsciiSize(section);
  }

  lemma ThousandsOfLong()
    ensures |Thousands(2011)| == 5
  {
    assert Thousands(2) == Decimal.Numeral(2);
    assert |Decimal.Numeral(2)| == 1 && |Decimal.Numeral(11)| == 2;
  }

  lemma LongSectionIsPointedTo()
    ensures Size(LongSection()) > Size(SectionPointer("1.2.3", LongSection()))
  {
    hide Size, LongSection, RStrip, SplitLines;
    LongSectionReads();
    var pointer := SectionPointer("1.2.3", LongSection());
    assert |Decimal.Numeral(2)| == 1;
    ThousandsOfLong();
    assert |pointer| <= 400;
    SizeIsBounded(pointer);
  }

  /** A body that shows everything it may within the limit, and a refusal all the same. */
  lemma AFittingBodyIsRefused(level: string)
    ensures var pointer := SectionPointer("1.2.3", LongSection());
            var limit := Size(Body(level, pointer, ShortLists(), Some(2)));
            && Fits(level, pointer, ShortLists(), limit, 2)
            && Composed("1.2.3", level, LongSection(), ShortLists(), limit) == None
  {
    hide Size, Body, SectionPointer, LongSection, Composed;
    LongSectionIsPointedTo();
    ShortSubjectsAreRefused("1.2.3", level, LongSection());
  }

  /** `cmd_cut` gives the lists what AgentCore's summary leaves of GitHub's limit, so the
      body it hands to `open_pr` never meets the size refusal there. */
  lemma ComposedBodyFits(summary: string, version: string, level: string, section: string, lists: Lists)
    ensures var r := Composed(version, level, section, lists, LIMIT - Size(summary));
            r.Some? ==> Size(summary + r.value) <= LIMIT
  {
    hide Body, SectionPointer, Kept, Size;
    var pointer := SectionPointer(version, section);
    KeptIsAnEdge(level, pointer, lists, LIMIT - Size(summary));
    var r := Composed(version, level, section, lists, LIMIT - Size(summary));
    if r.Some? {
      SizeOfConcat(summary, r.value);
    }
  }
}
