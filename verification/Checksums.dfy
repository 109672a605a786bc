/** The checksum file of a release: collected from the archives' sidecars, rendered, and
    parsed back by the release that reuses it. */
module Checksums {
  import opened Results
  import opened Versions
  import opened Ledgers
  import opened Lines
  import opened Publishing
  import Sorting

  const SEPARATOR := "  "

  const SIDECAR_SUFFIX := ".sha256"

  datatype Entry = Entry(digest: string, name: string)

  function EntryLine(e: Entry): string {
    e.digest + SEPARATOR + e.name
  }

  // ---------------------------------------------------------------- parsing

  /** The first index of two spaces, or the length. */
  function IndexOfSeparator(s: string): (i: nat)
    ensures i <= |s|
    ensures i < |s| ==> SEPARATOR <= s[i..]
  {
    if s == "" || SEPARATOR <= s then 0
    else
      var i := IndexOfSeparator(s[1..]);
      assert s[1..][i..] == s[1 + i..];
      1 + i
  }

  /** One line of a checksum file: digest, two spaces, name. */
  function ParseLine(line: string): Option<Entry> {
    var i := IndexOfSeparator(line);
    if i < |line| && IsDigest(line[..i]) && i + 2 < |line| then Some(Entry(line[..i], line[i + 2..])) else None
  }

  function ParseLines(lines: seq<string>): Option<Sums> {
    if lines == [] then Some(map[])
    else
      var before, entry := ParseLines(lines[..|lines| - 1]), ParseLine(lines[|lines| - 1]);
      if before.None? || entry.None? || entry.value.name in before.value then None
      else Some(before.value[entry.value.name := entry.value.digest])
  }

  lemma {:induction false} BadLineStopsParsing(lines: seq<string>, k: nat)
    requires k <= |lines| && ParseLines(lines[..k]).None?
    ensures ParseLines(lines).None?
  {
    if k < |lines| {
      assert lines[..|lines| - 1][..k] == lines[..k];
      BadLineStopsParsing(lines[..|lines| - 1], k);
    } else {
      assert lines[..k] == lines;
    }
  }

  /** `parse_sums` */
  method ParseSums(text: string) returns (r: Option<Sums>)
    ensures r == ParseLines(SplitLines(text))
  {
    hide SplitLines, ParseLine;
    var lines := SplitLines(text);
    var entries: Sums := map[];
    for i := 0 to |lines|
      invariant ParseLines(lines[..i]) == Some(entries)
    {
      var entry := ParseLine(lines[i]);
      assert lines[..i + 1][..i] == lines[..i];
      if entry.None? || entry.value.name in entries {
        BadLineStopsParsing(lines, i + 1);
        return None;
      }
      entries := entries[entry.value.name := entry.value.digest];
    }
    assert lines[..|lines|] == lines;
    r := Some(entries);
  }

  // ---------------------------------------------------------------- rendering

  function Render(entries: seq<Entry>): string {
    if entries == [] then "" else EntryLine(entries[0]) + "\n" + Render(entries[1..])
  }

  function Table(entries: seq<Entry>): Sums {
    if entries == [] then map[]
    else
      var last := entries[|entries| - 1];
      Table(entries[..|entries| - 1])[last.name := last.digest]
  }

  /** What whitespace is to the sidecar pattern. */
  predicate IsBlankChar(c: char) {
    c in "\t\n\U{0b}\U{0c}\r\U{1c}\U{1d}\U{1e}\U{1f} "
  }

  predicate IsWord(s: string) {
    s != "" && forall c <- s :: !IsBlankChar(c)
  }

  predicate GoodEntry(e: Entry) {
    IsDigest(e.digest) && IsWord(e.name)
  }

  predicate NamesDistinct(entries: seq<Entry>) {
    forall i, j | 0 <= i < j < |entries| :: entries[i].name != entries[j].name
  }

  function LinesOf(entries: seq<Entry>): (r: seq<string>)
    ensures |r| == |entries| && forall i | 0 <= i < |r| :: r[i] == EntryLine(entries[i])
  {
    seq(|entries|, i requires 0 <= i < |entries| => EntryLine(entries[i]))
  }

  lemma {:induction false} SeparatorAfterDigest(digest: string, rest: string)
    requires ' ' !in digest
    ensures IndexOfSeparator(digest + SEPARATOR + rest) == |digest|
  {
    if digest != "" {
      SeparatorAfterDigest(digest[1..], rest);
      assert (digest + SEPARATOR + rest)[1..] == digest[1..] + SEPARATOR + rest;
      assert digest[0] in digest;
      assert (digest + SEPARATOR + rest)[0] == digest[0];
    } else {
      assert digest + SEPARATOR + rest == SEPARATOR + rest;
    }
  }

  lemma LineParsesBack(e: Entry)
    requires GoodEntry(e)
    ensures ParseLine(EntryLine(e)) == Some(e)
    ensures OneLine(EntryLine(e))
  {
    SeparatorAfterDigest(e.digest, e.name);
    var line := EntryLine(e);
    assert line[..64] == e.digest && line[66..] == e.name;
  }

  lemma {:induction false} RenderedLines(entries: seq<Entry>)
    requires forall e <- entries :: GoodEntry(e)
    ensures SplitLines(Render(entries)) == LinesOf(entries)
  {
    if entries == [] {
    } else {
      var line := EntryLine(entries[0]);
      LineParsesBack(entries[0]);
      RenderedLines(entries[1..]);
      assert Render(entries) == line + ['\n'] + Render(entries[1..]);
      IndexOfConcat(line, '\n', Render(entries[1..]));
      assert LinesOf(entries) == [line] + LinesOf(entries[1..]);
    }
  }

  lemma {:induction false} LinesParseToTable(entries: seq<Entry>)
    requires (forall e <- entries :: GoodEntry(e)) && NamesDistinct(entries)
    ensures ParseLines(LinesOf(entries)) == Some(Table(entries))
    ensures forall name :: name in Table(entries) <==> exists e <- entries :: e.name == name
  {
    if entries == [] {
    } else {
      var init, last := entries[..|entries| - 1], entries[|entries| - 1];
      hide ParseLine, EntryLine, GoodEntry;
      LinesParseToTable(init);
      LineParsesBack(last);
      assert LinesOf(entries)[..|entries| - 1] == LinesOf(init);
      assert forall e :: e in entries <==> e in init || e == last;
    }
  }

  /** A rendered checksum file parses back to exactly the table it was rendered from,
      for any number of entries. */
  lemma ChecksumsRoundTrip(entries: seq<Entry>)
    requires (forall e <- entries :: GoodEntry(e)) && NamesDistinct(entries)
    ensures ParseLines(SplitLines(Render(entries))) == Some(Table(entries))
  {
    RenderedLines(entries);
    LinesParseToTable(entries);
  }

  // ---------------------------------------------------------------- a directory of archives

  /** An archive under the release directory: its path, its file name, its own digest. */
  datatype Archive = Archive(path: string, name: string, digest: string)

  datatype CollectError = NoArchives | NoSidecar(name: string) | NotAscii(name: string) | MalformedSidecar(name: string)
                        | WrongDigest(name: string) | SharedName(name: string) | StraySidecar

  /** What `read_text(encoding="ascii")` can read. */
  predicate IsAscii(s: string) {
    forall c <- s :: c < '\U{80}'
  }

  /** The sidecar says exactly this archive's digest and name. */
  predicate Attested(a: Archive, sidecars: map<string, string>) {
    && a.path + SIDECAR_SUFFIX in sidecars
    && IsWord(a.name) && IsDigest(a.digest) && IsAscii(sidecars[a.path + SIDECAR_SUFFIX])
    && sidecars[a.path + SIDECAR_SUFFIX] == a.digest + SEPARATOR + a.name + "\n"
  }

  /** Every archive has its sidecar, every sidecar its archive, and no name repeats. */
  predicate ConsistentDist(archives: seq<Archive>, sidecars: map<string, string>) {
    && archives != []
    && (forall a <- archives :: Attested(a, sidecars))
    && (forall i, j | 0 <= i < j < |archives| :: archives[i].name != archives[j].name)
    && (forall path <- sidecars :: exists a <- archives :: a.path + SIDECAR_SUFFIX == path)
  }

  /** `SIDECAR_LINE`: the digest and the name a sidecar states. */
  function ReadSidecar(text: string): Option<Entry> {
    if |text| > 67 && text[|text| - 1] == '\n' && IsDigest(text[..64]) && text[64..66] == SEPARATOR
       && IsWord(text[66..|text| - 1])
    then Some(Entry(text[..64], text[66..|text| - 1]))
    else None
  }

  lemma SidecarStates(text: string, e: Entry)
    ensures ReadSidecar(text) == Some(e) <==> GoodEntry(e) && text == e.digest + SEPARATOR + e.name + "\n"
  {
    if ReadSidecar(text) == Some(e) {
      assert text == text[..64] + text[64..66] + text[66..|text| - 1] + text[|text| - 1..];
    }
    if GoodEntry(e) && text == e.digest + SEPARATOR + e.name + "\n" {
      assert text[..64] == e.digest && text[64..66] == SEPARATOR && text[66..|text| - 1] == e.name;
    }
  }

  lemma SuffixKeepsPaths(a: string, b: string)
    ensures a + SIDECAR_SUFFIX == b + SIDECAR_SUFFIX <==> a == b
  {
    if a + SIDECAR_SUFFIX == b + SIDECAR_SUFFIX {
      assert (a + SIDECAR_SUFFIX)[..|a|] == a && (b + SIDECAR_SUFFIX)[..|b|] == b;
    }
  }

  // ---------------------------------------------------------------- the order of the file

  /** Code point order on names. */
  predicate NameAtMost(a: string, b: string) {
    a == "" || (b != "" && (a[0] < b[0] || (a[0] == b[0] && NameAtMost(a[1..], b[1..]))))
  }

  lemma {:induction false} NameOrder(a: string, b: string, c: string)
    ensures NameAtMost(a, b) || NameAtMost(b, a)
    ensures NameAtMost(a, b) && NameAtMost(b, c) ==> NameAtMost(a, c)
  {
    if a != "" && b != "" && c != "" {
      NameOrder(a[1..], b[1..], c[1..]);
    } else if a != "" && b != "" {
      NameOrder(a[1..], b[1..], "");
    }
  }

  predicate SortedByName(entries: seq<Entry>) {
    forall i, j | 0 <= i < j < |entries| :: NameAtMost(entries[i].name, entries[j].name)
  }

  function ByName(): (Entry, Entry) -> bool {
    (a: Entry, b: Entry) => NameAtMost(a.name, b.name)
  }

  /** `sorted(entries, key=name)` */
  function SortByName(entries: seq<Entry>): (r: seq<Entry>)
    ensures multiset(r) == multiset(entries)
  {
    Sorting.Sort(entries, ByName())
  }

  lemma SortSorts(entries: seq<Entry>)
    ensures SortedByName(SortByName(entries))
  {
    forall a: Entry, b: Entry ensures ByName()(a, b) || ByName()(b, a) { NameOrder(a.name, b.name, ""); }
    forall a: Entry, b: Entry, c: Entry | ByName()(a, b) && ByName()(b, c) ensures ByName()(a, c) {
      NameOrder(a.name, b.name, c.name);
    }
    Sorting.SortSorts(entries, ByName());
    assert forall i, j | 0 <= i < j < |entries| :: ByName()(SortByName(entries)[i], SortByName(entries)[j]) by {
      assert |SortByName(entries)| == |multiset(SortByName(entries))|;
    }
  }

  lemma {:induction false} TableEntry(entries: seq<Entry>, name: string) returns (e: Entry)
    requires name in Table(entries)
    ensures e in entries && e.name == name && Table(entries)[name] == e.digest
  {
    var init, last := entries[..|entries| - 1], entries[|entries| - 1];
    if last.name == name {
      e := last;
    } else {
      e := TableEntry(init, name);
      assert e in init;
    }
  }

  lemma {:induction false} TableOfDistinct(entries: seq<Entry>)
    requires NamesDistinct(entries)
    ensures forall e <- entries :: e.name in Table(entries) && Table(entries)[e.name] == e.digest
  {
    if entries == [] {
    } else {
      var init, last := entries[..|entries| - 1], entries[|entries| - 1];
      TableOfDistinct(init);
      assert entries == init + [last];
    }
  }

  lemma SameTable(a: seq<Entry>, b: seq<Entry>)
    requires NamesDistinct(a) && NamesDistinct(b) && forall e :: e in a <==> e in b
    ensures Table(a) == Table(b)
  {
    TableOfDistinct(a);
    TableOfDistinct(b);
    forall name ensures name in Table(a) <==> name in Table(b) {
      if name in Table(a) { var e := TableEntry(a, name); }
      if name in Table(b) { var e := TableEntry(b, name); }
    }
    forall name | name in Table(a) ensures Table(a)[name] == Table(b)[name] {
      var e := TableEntry(a, name);
    }
  }

  function NamesDiffer(): (Entry, Entry) -> bool {
    (a: Entry, b: Entry) => a.name != b.name
  }

  lemma Differ(entries: seq<Entry>)
    ensures Sorting.Pairwise(entries, NamesDiffer()) <==> NamesDistinct(entries)
  {
  }

  lemma SortKeepsEntries(entries: seq<Entry>)
    requires NamesDistinct(entries) && forall e <- entries :: GoodEntry(e)
    ensures NamesDistinct(SortByName(entries)) && forall e <- SortByName(entries) :: GoodEntry(e)
    ensures Table(SortByName(entries)) == Table(entries)
  {
    var sorted := SortByName(entries);
    Sorting.SameMembers(entries, sorted);
    Sorting.SortKeepsPairwise(entries, ByName(), NamesDiffer());
    Differ(entries);
    Differ(sorted);
    SameTable(entries, sorted);
  }

  // ---------------------------------------------------------------- collecting

  function EntriesOf(archives: seq<Archive>): (r: seq<Entry>)
    ensures |r| == |archives| && forall i | 0 <= i < |r| :: r[i] == Entry(archives[i].digest, archives[i].name)
  {
    seq(|archives|, i requires 0 <= i < |archives| => Entry(archives[i].digest, archives[i].name))
  }

  /** The sidecar's digest and name, compared with the archive's own. */
  method CheckSidecar(archive: Archive, sidecars: map<string, string>) returns (error: Option<CollectError>)
    requires archive.path + SIDECAR_SUFFIX in sidecars && IsDigest(archive.digest)
    ensures error.None? <==> Attested(archive, sidecars)
  {
    hide ReadSidecar, IsWord, IsDigest;
    var text := sidecars[archive.path + SIDECAR_SUFFIX];
    if !IsAscii(text) { return Some(NotAscii(archive.name)); }
    var stated := ReadSidecar(text);
    SidecarStates(text, Entry(archive.digest, archive.name));
    if stated.None? || stated.value.name != archive.name { return Some(MalformedSidecar(archive.name)); }
    error := if archive.digest != stated.value.digest then Some(WrongDigest(archive.name)) else None;
  }

  lemma AttestedHasSidecar(a: Archive, sidecars: map<string, string>)
    requires Attested(a, sidecars)
    ensures a.path + SIDECAR_SUFFIX in sidecars
  {
  }

  predicate AllAttested(archives: seq<Archive>, sidecars: map<string, string>) {
    && (forall a <- archives :: Attested(a, sidecars))
    && (forall i, j | 0 <= i < j < |archives| :: archives[i].name != archives[j].name)
  }

  predicate IsSidecarOf(archives: seq<Archive>, path: string) {
    exists a <- archives :: a.path + SIDECAR_SUFFIX == path
  }

  lemma NotYetRead(archives: seq<Archive>, i: nat)
    requires i < |archives| && forall j, k | 0 <= j < k < |archives| :: archives[j].path != archives[k].path
    ensures !IsSidecarOf(archives[..i], archives[i].path + SIDECAR_SUFFIX)
  {
    forall a | a in archives[..i] ensures a.path + SIDECAR_SUFFIX != archives[i].path + SIDECAR_SUFFIX {
      SuffixKeepsPaths(a.path, archives[i].path);
    }
  }

  /** The loop of `collect`, and the sidecars it leaves over. */
  method CollectEach(archives: seq<Archive>, sidecars: map<string, string>)
    returns (error: Option<CollectError>, entries: seq<Entry>, pending: set<string>)
    requires forall i, j | 0 <= i < j < |archives| :: archives[i].path != archives[j].path
    requires forall a <- archives :: IsDigest(a.digest)
    ensures error.None? <==> AllAttested(archives, sidecars)
    ensures error.None? ==> entries == EntriesOf(archives)
    ensures error.None? ==> forall path :: path in pending <==> path in sidecars && !IsSidecarOf(archives, path)
  {
    hide Attested, IsDigest;
    error, entries, pending := None, [], sidecars.Keys;
    var names: set<string> := {};
    for i := 0 to |archives|
      invariant error.None? && AllAttested(archives[..i], sidecars)
      invariant entries == EntriesOf(archives[..i])
      invariant forall name :: name in names <==> exists k :: 0 <= k < i && archives[k].name == name
      invariant forall path :: path in pending <==> path in sidecars && !IsSidecarOf(archives[..i], path)
    {
      var archive := archives[i];
      assert archives[..i + 1] == archives[..i] + [archive] && archive in archives;
      var sidecar := archive.path + SIDECAR_SUFFIX;
      NotYetRead(archives, i);
      if sidecar !in pending {
        if Attested(archive, sidecars) { AttestedHasSidecar(archive, sidecars); }
        return Some(NoSidecar(archive.name)), entries, pending;
      }
      pending := pending - {sidecar};
      error := CheckSidecar(archive, sidecars);
      if error.Some? { return; }
      if archive.name in names { return Some(SharedName(archive.name)), entries, pending; }
      names := names + {archive.name};
      entries := entries + [Entry(archive.digest, archive.name)];
    }
    assert archives[..|archives|] == archives;
  }

  /** `collect`: succeeds exactly on a consistent directory, with one entry for each
      archive, sorted by name. */
  method Collect(archives: seq<Archive>, sidecars: map<string, string>) returns (r: Result<seq<Entry>, CollectError>)
    requires forall i, j | 0 <= i < j < |archives| :: archives[i].path != archives[j].path
    requires forall a <- archives :: IsDigest(a.digest)
    ensures r.Success? <==> ConsistentDist(archives, sidecars)
    ensures r.Success? ==> r.value == SortByName(EntriesOf(archives))
  {
    hide SortByName, Attested, EntriesOf;
    if archives == [] { return Failure(NoArchives); }
    var error, entries, pending := CollectEach(archives, sidecars);
    if error.Some? { return Failure(error.value); }
    if pending != {} {
      var path :| path in pending;
      return Failure(StraySidecar);
    }
    assert forall path <- sidecars :: IsSidecarOf(archives, path);
    r := Success(SortByName(entries));
  }

  lemma CollectedAreGood(archives: seq<Archive>, sidecars: map<string, string>)
    requires ConsistentDist(archives, sidecars)
    ensures NamesDistinct(EntriesOf(archives)) && forall e <- EntriesOf(archives) :: GoodEntry(e)
  {
    var entries := EntriesOf(archives);
    forall e | e in entries ensures GoodEntry(e) {
      var i :| 0 <= i < |entries| && entries[i] == e;
      assert Attested(archives[i], sidecars);
    }
  }

  /** For every consistent release directory, the written checksum file is sorted by name
      and parses to exactly the table from archive name to archive digest. */
  lemma WrittenSumsReadBack(archives: seq<Archive>, sidecars: map<string, string>)
    requires ConsistentDist(archives, sidecars)
    ensures SortedByName(SortByName(EntriesOf(archives)))
    ensures ParseLines(SplitLines(Render(SortByName(EntriesOf(archives))))).Some?
    ensures var sums := ParseLines(SplitLines(Render(SortByName(EntriesOf(archives))))).value;
            && (forall i | 0 <= i < |archives| ::
                  archives[i].name in sums && sums[archives[i].name] == archives[i].digest)
            && (forall name <- sums :: exists i :: 0 <= i < |archives| && archives[i].name == name)
  {
    hide ConsistentDist, ParseLines, Render, SplitLines, Table, NameAtMost, SortByName;
    var entries := EntriesOf(archives);
    CollectedAreGood(archives, sidecars);
    SortSorts(entries);
    SortKeepsEntries(entries);
    ChecksumsRoundTrip(SortByName(entries));
    TableOfDistinct(entries);
    assert forall i | 0 <= i < |entries| :: entries[i] in entries;
    forall name | name in Table(entries) ensures exists i :: 0 <= i < |archives| && archives[i].name == name {
      var e := TableEntry(entries, name);
    }
  }
}
