/** The validators of bundled TinyKG executables: universal Mach-O, static ELF, and PE, read
    from bytes that promise nothing. */
module Executables {
  import opened Numbers
  import opened Results
  import Sorting

  newtype byte = x: int | 0 <= x < 256

  type Bytes = seq<byte>

  datatype Architecture = X8664 | Aarch64

  datatype StageError =
    | WrongFormat | BadHeader | BadSlice | BadCommands | SlicesOverlap | WrongArchitecture
    | BadProgramHeaders | NotStatic | NoLoadableSegment | BadOptionalHeader | NotConsole

  // ---------------------------------------------------------------- reading numbers

  /** A little-endian number; it can only be asked for inside the data. */
  function Le(data: Bytes, at: nat, width: nat): nat
    requires at + width <= |data|
    decreases width
  {
    if width == 0 then 0 else data[at] as nat + 256 * Le(data, at + 1, width - 1)
  }

  function Be(data: Bytes, at: nat, width: nat): nat
    requires at + width <= |data|
  {
    if width == 0 then 0 else 256 * Be(data, at, width - 1) + data[at + width - 1] as nat
  }

  predicate StandsAt(data: Bytes, at: nat, mark: Bytes) {
    at + |mark| <= |data| && data[at..at + |mark|] == mark
  }

  // ---------------------------------------------------------------- load commands

  const BUILD_VERSION := 0x32

  const PLATFORM_MACOS := 1

  predicate IsCommand(data: Bytes, cursor: nat, end: nat)
    requires end <= |data|
  {
    && cursor + 8 <= end
    && var size := Le(data, cursor + 4, 4);
       && size >= 8 && size % 8 == 0 && cursor + size <= end
       && (Le(data, cursor, 4) == BUILD_VERSION ==> size >= 24 && Le(data, cursor + 8, 4) == PLATFORM_MACOS)
  }

  /** `count` whole commands from `cursor` on, the last one ending exactly at `end`. */
  predicate Tiled(data: Bytes, cursor: nat, end: nat, count: nat)
    requires end <= |data|
    decreases count
  {
    if count == 0 then cursor == end
    else IsCommand(data, cursor, end) && Tiled(data, cursor + Le(data, cursor + 4, 4), end, count - 1)
  }

  predicate NamesMacOs(data: Bytes, cursor: nat, end: nat, count: nat)
    requires end <= |data|
    decreases count
  {
    && count > 0 && IsCommand(data, cursor, end)
    && (Le(data, cursor, 4) == BUILD_VERSION || NamesMacOs(data, cursor + Le(data, cursor + 4, 4), end, count - 1))
  }

  /** Where the commands start and end. */
  function Spans(data: Bytes, cursor: nat, end: nat, count: nat): seq<(nat, nat)>
    requires end <= |data| && Tiled(data, cursor, end, count)
    decreases count
  {
    if count == 0 then []
    else
      var next := cursor + Le(data, cursor + 4, 4);
      [(cursor, next)] + Spans(data, next, end, count - 1)
  }

  lemma {:induction false} TiledEnds(data: Bytes, start: nat, end: nat, count: nat)
    requires end <= |data| && Tiled(data, start, end, count)
    ensures start <= end
    decreases count
  {
  }

  /** Tiled commands leave no gap and never overlap: each starts where the one before ends,
      from the first byte of the table to its last. */
  lemma {:induction false} TilesAreContiguous(data: Bytes, start: nat, end: nat, count: nat)
    requires end <= |data| && count > 0 && Tiled(data, start, end, count)
    ensures var spans := Spans(data, start, end, count);
            && |spans| == count
            && spans[0].0 == start && spans[count - 1].1 == end
            && (forall i | 0 <= i < count - 1 :: spans[i].1 == spans[i + 1].0)
            && forall i | 0 <= i < count :: spans[i].0 + 8 <= spans[i].1 <= end
    decreases count
  {
    var next := start + Le(data, start + 4, 4);
    if count <= 1 {
    } else {
      TilesAreContiguous(data, next, end, count - 1);
      TiledEnds(data, next, end, count - 1);
    }
  }

  method ScanCommands(data: Bytes, start: nat, end: nat, count: nat) returns (ok: bool)
    requires end <= |data|
    ensures ok <==> Tiled(data, start, end, count) && NamesMacOs(data, start, end, count)
  {
    var cursor: nat, left: nat, macosBuild := start, count, false;
    while left > 0
      invariant Tiled(data, start, end, count) <==> Tiled(data, cursor, end, left)
      invariant NamesMacOs(data, start, end, count) <==> macosBuild || NamesMacOs(data, cursor, end, left)
    {
      if cursor + 8 > end { return false; }
      var command, size := Le(data, cursor, 4), Le(data, cursor + 4, 4);
      if size < 8 || size % 8 != 0 || cursor + size > end { return false; }
      if command == BUILD_VERSION {
        if size < 24 || Le(data, cursor + 8, 4) != PLATFORM_MACOS { return false; }
        macosBuild := true;
      }
      cursor, left := cursor + size, left - 1;
    }
    ok := cursor == end && macosBuild;
  }

  // ---------------------------------------------------------------- universal Mach-O

  datatype FatEntry = FatEntry(cpu: nat, offset: nat, size: nat, alignment: nat) {
    function End(): nat {
      offset + size
    }
  }

  function EntryAt(data: Bytes, i: nat): FatEntry
    requires 8 + (i + 1) * 20 <= |data|
  {
    var entry := 8 + i * 20;
    FatEntry(Be(data, entry, 4), Be(data, entry + 8, 4), Be(data, entry + 12, 4), Be(data, entry + 16, 4))
  }

  function CpuName(cpu: nat): Option<Architecture> {
    if cpu == 0x01000007 then Some(X8664) else if cpu == 0x0100000C then Some(Aarch64) else None
  }

  const FAT_MAGIC: Bytes := [0xca, 0xfe, 0xba, 0xbe]

  const MACHO_MAGIC: Bytes := [0xcf, 0xfa, 0xed, 0xfe]

  /** A slice inside the data that is an executable for the CPU its entry names, whose load
      commands tile their table and name macOS. */
  predicate GoodSlice(data: Bytes, e: FatEntry) {
    && CpuName(e.cpu).Some? && e.size >= 32 && e.End() <= |data|
    && e.alignment <= 30 && e.offset % Pow2(e.alignment) == 0
    && StandsAt(data, e.offset, MACHO_MAGIC)
    && Le(data, e.offset + 4, 4) == e.cpu
    && Le(data, e.offset + 12, 4) == 2
    && var count, start := Le(data, e.offset + 16, 4), e.offset + 32;
       var end := start + Le(data, e.offset + 20, 4);
       && count > 0 && end <= e.End()
       && Tiled(data, start, end, count) && NamesMacOs(data, start, end, count)
  }

  method CheckSlice(data: Bytes, e: FatEntry) returns (error: Option<StageError>)
    ensures error.None? <==> GoodSlice(data, e)
  {
    hide Tiled, NamesMacOs, Le, Pow2;
    if CpuName(e.cpu).None? || e.size < 32 || e.offset + e.size > |data| || e.alignment > 30
       || e.offset % Pow2(e.alignment) != 0 { return Some(BadSlice); }
    if data[e.offset..e.offset + 4] != MACHO_MAGIC { return Some(WrongFormat); }
    if Le(data, e.offset + 4, 4) != e.cpu { return Some(WrongArchitecture); }
    if Le(data, e.offset + 12, 4) != 2 { return Some(WrongFormat); }
    var count, bytes := Le(data, e.offset + 16, 4), Le(data, e.offset + 20, 4);
    var start := e.offset + 32;
    var end := start + bytes;
    if count == 0 || end > e.offset + e.size { return Some(BadCommands); }
    var ok := ScanCommands(data, start, end, count);
    error := if ok then None else Some(BadCommands);
  }

  type Span = (nat, nat)

  predicate SpanAtMost(a: Span, b: Span) {
    a.0 < b.0 || (a.0 == b.0 && a.1 <= b.1)
  }

  predicate Sorted(spans: seq<Span>) {
    forall i, j | 0 <= i < j < |spans| :: SpanAtMost(spans[i], spans[j])
  }

  function ByStart(): (Span, Span) -> bool {
    (a: Span, b: Span) => SpanAtMost(a, b)
  }

  /** `slices.sort()` */
  function Sort(spans: seq<Span>): (r: seq<Span>)
    ensures multiset(r) == multiset(spans)
  {
    Sorting.Sort(spans, ByStart())
  }

  lemma SortSorts(spans: seq<Span>)
    ensures Sorted(Sort(spans))
  {
    Sorting.SortSorts(spans, ByStart());
    assert forall i, j | 0 <= i < j < |Sort(spans)| :: ByStart()(Sort(spans)[i], Sort(spans)[j]);
  }

  predicate Apart(a: Span, b: Span) {
    a.1 <= b.0 || b.1 <= a.0
  }

  predicate AllApart(spans: seq<Span>) {
    forall i, j | 0 <= i < j < |spans| :: Apart(spans[i], spans[j])
  }

  predicate NeighboursApart(spans: seq<Span>) {
    forall i | 0 <= i < |spans| - 1 :: spans[i].1 <= spans[i + 1].0
  }

  predicate AllNonEmpty(spans: seq<Span>) {
    forall i | 0 <= i < |spans| :: spans[i].0 < spans[i].1
  }

  lemma {:induction false} EndsBefore(spans: seq<Span>, i: nat, j: nat)
    requires AllNonEmpty(spans) && NeighboursApart(spans) && i < j < |spans|
    ensures spans[i].1 <= spans[j].0
  {
    if i + 1 == j {
    } else {
      EndsBefore(spans, i, j - 1);
      assert spans[j - 1].1 <= spans[j - 1 + 1].0;
    }
  }

  /** Comparing neighbours of the sorted slices is enough: it finds an overlap exactly when
      some two slices overlap. */
  lemma NeighboursAreEnough(spans: seq<Span>)
    requires Sorted(spans) && AllNonEmpty(spans)
    ensures NeighboursApart(spans) <==> AllApart(spans)
  {
    if NeighboursApart(spans) {
      forall i, j | 0 <= i < j < |spans| ensures Apart(spans[i], spans[j]) { EndsBefore(spans, i, j); }
    }
    if AllApart(spans) {
      forall i | 0 <= i < |spans| - 1 ensures spans[i].1 <= spans[i + 1].0 {
        assert Apart(spans[i], spans[i + 1]) && SpanAtMost(spans[i], spans[i + 1]);
      }
    }
  }

  function Clear(): (Span, Span) -> bool {
    (a: Span, b: Span) => Apart(a, b)
  }

  lemma SameApart(spans: seq<Span>)
    ensures Sorting.Pairwise(spans, Clear()) <==> AllApart(spans)
  {
  }

  /** Being pairwise apart does not depend on the order. */
  lemma SortKeepsApart(spans: seq<Span>)
    ensures AllApart(Sort(spans)) <==> AllApart(spans)
  {
    Sorting.SortKeepsPairwise(spans, ByStart(), Clear());
    SameApart(spans);
    SameApart(Sort(spans));
  }

  function EntriesOf(data: Bytes, count: nat): (r: seq<FatEntry>)
    requires 8 + count * 20 <= |data|
    ensures |r| == count
  {
    if count == 0 then [] else EntriesOf(data, count - 1) + [EntryAt(data, count - 1)]
  }

  function SpansOf(entries: seq<FatEntry>): (r: seq<Span>)
    ensures |r| == |entries|
  {
    if entries == [] then []
    else SpansOf(entries[..|entries| - 1]) + [(entries[|entries| - 1].offset, entries[|entries| - 1].End())]
  }

  function NamesOf(entries: seq<FatEntry>): set<Architecture> {
    set e <- entries | CpuName(e.cpu).Some? :: CpuName(e.cpu).value
  }

  function FatCount(data: Bytes): nat
    requires |data| >= 8
  {
    Be(data, 4, 4)
  }

  predicate FatHeader(data: Bytes) {
    |data| >= 48 && data[..4] == FAT_MAGIC && FatCount(data) > 0 && 8 + FatCount(data) * 20 <= |data|
  }

  /** A universal binary for exactly these architectures. */
  predicate IsUniversal(data: Bytes, architectures: seq<Architecture>) {
    && FatHeader(data)
    && var entries := EntriesOf(data, FatCount(data));
       && (forall e <- entries :: GoodSlice(data, e))
       && AllApart(SpansOf(entries))
       && NamesOf(entries) == (set a <- architectures)
       && |entries| == |architectures|
  }

  lemma {:induction false} EntriesBegin(data: Bytes, i: nat, count: nat)
    requires i <= count && 8 + count * 20 <= |data|
    ensures EntriesOf(data, count)[..i] == EntriesOf(data, i)
  {
    if i == count {
    } else {
      EntriesBegin(data, i, count - 1);
    }
  }

  lemma GoodNamed(data: Bytes, e: FatEntry)
    requires GoodSlice(data, e)
    ensures CpuName(e.cpu).Some? && e.size >= 32 && e.End() <= |data|
  {
  }

  lemma OneMoreSlice(entries: seq<FatEntry>, e: FatEntry)
    requires CpuName(e.cpu).Some?
    ensures SpansOf(entries + [e]) == SpansOf(entries) + [(e.offset, e.End())]
    ensures NamesOf(entries + [e]) == NamesOf(entries) + {CpuName(e.cpu).value}
  {
  }

  method ReadSlices(data: Bytes, count: nat) returns (error: Option<StageError>, observed: set<Architecture>,
                    slices: seq<Span>)
    requires 8 + count * 20 <= |data|
    ensures error.None? <==> forall e <- EntriesOf(data, count) :: GoodSlice(data, e)
    ensures error.None? ==> slices == SpansOf(EntriesOf(data, count)) && observed == NamesOf(EntriesOf(data, count))
  {
    hide GoodSlice, Be;
    error, observed, slices := None, {}, [];
    ghost var all := EntriesOf(data, count);
    for i := 0 to count
      invariant error.None? && forall e <- EntriesOf(data, i) :: GoodSlice(data, e)
      invariant slices == SpansOf(EntriesOf(data, i))
      invariant observed == NamesOf(EntriesOf(data, i))
    {
      var e := EntryAt(data, i);
      ghost var before := EntriesOf(data, i);
      assert EntriesOf(data, i + 1) == before + [e];
      error := CheckSlice(data, e);
      if error.Some? {
        EntriesBegin(data, i + 1, count);
        assert e in before + [e] && e in all;
        return;
      }
      GoodNamed(data, e);
      OneMoreSlice(before, e);
      observed := observed + {CpuName(e.cpu).value};
      slices := slices + [(e.offset, e.offset + e.size)];
    }
  }

  lemma {:induction false} SpanAt(entries: seq<FatEntry>, i: nat)
    requires i < |entries|
    ensures SpansOf(entries)[i] == (entries[i].offset, entries[i].End())
  {
    if i == |entries| - 1 {
    } else {
      SpanAt(entries[..|entries| - 1], i);
    }
  }

  lemma SortKeepsNonEmpty(spans: seq<Span>)
    requires AllNonEmpty(spans)
    ensures AllNonEmpty(Sort(spans))
  {
    hide Sort;
    forall i | 0 <= i < |Sort(spans)| ensures Sort(spans)[i].0 < Sort(spans)[i].1 {
      assert Sort(spans)[i] in multiset(spans);
      assert Sort(spans)[i] in spans;
    }
  }

  lemma OrderedOverlap(data: Bytes, entries: seq<FatEntry>)
    requires forall e <- entries :: GoodSlice(data, e)
    ensures NeighboursApart(Sort(SpansOf(entries))) <==> AllApart(SpansOf(entries))
  {
    hide GoodSlice, Sort, AllApart, NeighboursApart;
    var spans := SpansOf(entries);
    forall i | 0 <= i < |spans| ensures spans[i].0 < spans[i].1 {
      assert entries[i] in entries;
      GoodNamed(data, entries[i]);
      SpanAt(entries, i);
    }
    SortSorts(spans);
    SortKeepsApart(spans);
    SortKeepsNonEmpty(spans);
    NeighboursAreEnough(Sort(spans));
  }

  /** `_validate_mach_o_universal` */
  method ValidateMachO(data: Bytes, architectures: seq<Architecture>) returns (r: Result<seq<Span>, StageError>)
    ensures r.Success? <==> IsUniversal(data, architectures)
    ensures r.Success? ==> r.value == Sort(SpansOf(EntriesOf(data, FatCount(data))))
  {
    hide GoodSlice, Sort, AllApart, Be, SpansOf, EntriesOf, NamesOf;
    if |data| < 48 || data[..4] != FAT_MAGIC { return Failure(WrongFormat); }
    var count := FatCount(data);
    if count == 0 || 8 + count * 20 > |data| { return Failure(BadHeader); }
    ghost var entries := EntriesOf(data, count);
    var error, observed, slices := ReadSlices(data, count);
    if error.Some? { return Failure(error.value); }
    OrderedOverlap(data, entries);
    slices := Sort(slices);
    if exists i | 0 <= i < |slices| - 1 :: slices[i].1 > slices[i + 1].0 { return Failure(SlicesOverlap); }
    assert NeighboursApart(slices);
    if observed != (set a <- architectures) || count != |architectures| { return Failure(WrongArchitecture); }
    r := Success(slices);
  }

  predicate IsOnlySlice(entries: seq<FatEntry>, a: Architecture, i: nat) {
    && i < |entries| && CpuName(entries[i].cpu) == Some(a)
    && forall j | 0 <= j < |entries| :: CpuName(entries[j].cpu) == Some(a) ==> j == i
  }

  lemma {:induction false} DistinctSize(architectures: seq<Architecture>)
    requires forall i, j | 0 <= i < j < |architectures| :: architectures[i] != architectures[j]
    ensures |(set a <- architectures)| == |architectures|
  {
    if architectures == [] {
    } else {
      var init, last := architectures[..|architectures| - 1], architectures[|architectures| - 1];
      DistinctSize(init);
      assert architectures == init + [last];
      assert (set a <- architectures) == (set a <- init) + {last};
      assert last !in init;
    }
  }

  lemma {:induction false} NamesAtMost(entries: seq<FatEntry>)
    ensures |NamesOf(entries)| <= |entries|
  {
    if entries == [] {
      assert NamesOf(entries) == {};
    } else {
      var init, last := entries[..|entries| - 1], entries[|entries| - 1];
      NamesAtMost(init);
      assert entries == init + [last];
      if CpuName(last.cpu).Some? {
        OneMoreSlice(init, last);
      } else {
        assert NamesOf(entries) == NamesOf(init);
      }
    }
  }

  /** Two slices with one name leave fewer names than slices. */
  lemma NamesShare(entries: seq<FatEntry>, i: nat, j: nat)
    requires i < |entries| && j < |entries| && i != j
    requires CpuName(entries[i].cpu) == CpuName(entries[j].cpu)
    ensures |NamesOf(entries)| < |entries|
  {
    var rest := entries[..i] + entries[i + 1..];
    assert entries[j] in rest by { assert rest[if j < i then j else j - 1] == entries[j]; }
    assert NamesOf(rest) == NamesOf(entries) by {
      assert entries == entries[..i] + [entries[i]] + entries[i + 1..];
    }
    NamesAtMost(rest);
  }

  /** In an accepted binary for distinct architectures, each has exactly one slice. */
  lemma OneSliceForEach(data: Bytes, architectures: seq<Architecture>, a: Architecture)
    requires IsUniversal(data, architectures) && a in architectures
    requires forall i, j | 0 <= i < j < |architectures| :: architectures[i] != architectures[j]
    ensures exists i: nat :: IsOnlySlice(EntriesOf(data, FatCount(data)), a, i)
  {
    hide GoodSlice, AllApart, SpansOf;
    var entries := EntriesOf(data, FatCount(data));
    assert a in NamesOf(entries);
    var e :| e in entries && CpuName(e.cpu) == Some(a);
    var i :| 0 <= i < |entries| && entries[i] == e;
    DistinctSize(architectures);
    forall j | 0 <= j < |entries| && CpuName(entries[j].cpu) == Some(a) ensures j == i {
      if j != i { NamesShare(entries, i, j); }
    }
    assert IsOnlySlice(entries, a, i);
  }

  /** Although only neighbours of the sorted slices are compared, no two slices share a byte,
      and every slice lies inside the data with its commands tiling their table. */
  lemma SlicesAreDisjoint(data: Bytes, architectures: seq<Architecture>, i: nat, j: nat)
    requires IsUniversal(data, architectures) && i < j < FatCount(data)
    ensures var a, b := EntriesOf(data, FatCount(data))[i], EntriesOf(data, FatCount(data))[j];
            && a.End() <= |data| && b.End() <= |data|
            && (a.End() <= b.offset || b.End() <= a.offset)
            && GoodSlice(data, a) && GoodSlice(data, b)
  {
    hide GoodSlice;
    var entries := EntriesOf(data, FatCount(data));
    SpanAt(entries, i);
    SpanAt(entries, j);
    assert entries[i] in entries && entries[j] in entries;
    GoodNamed(data, entries[i]);
    GoodNamed(data, entries[j]);
    assert Apart(SpansOf(entries)[i], SpansOf(entries)[j]);
  }

  // ---------------------------------------------------------------- ELF

  function Machine(a: Architecture): nat {
    match a
    case X8664 => 62
    case Aarch64 => 183
  }

  const ELF_MAGIC: Bytes := [0x7f, 0x45, 0x4c, 0x46, 2, 1, 1]

  const PT_LOAD := 1

  const PT_DYNAMIC := 2

  const PT_INTERP := 3

  predicate ElfHeader(data: Bytes) {
    && |data| >= 64 && data[..7] == ELF_MAGIC
    && Le(data, 16, 2) == 2 && Le(data, 20, 4) == 1 && Le(data, 52, 2) == 64
  }

  predicate ProgramTable(data: Bytes)
    requires |data| >= 64
  {
    Le(data, 54, 2) == 56 && Le(data, 56, 2) > 0 && Le(data, 32, 8) + 56 * Le(data, 56, 2) <= |data|
  }

  /** Program header `i` describes bytes of the file and needs no dynamic loader. */
  predicate GoodSegment(data: Bytes, at: nat)
    requires at + 56 <= |data|
  {
    && Le(data, at + 8, 8) + Le(data, at + 32, 8) <= |data|
    && Le(data, at, 4) != PT_DYNAMIC && Le(data, at, 4) != PT_INTERP
  }

  predicate IsLoad(data: Bytes, at: nat)
    requires at + 56 <= |data|
  {
    Le(data, at, 4) == PT_LOAD
  }

  predicate IsStaticElf(data: Bytes, architectures: seq<Architecture>) {
    && ElfHeader(data) && |architectures| == 1 && Le(data, 18, 2) == Machine(architectures[0])
    && ProgramTable(data)
    && var table, count := Le(data, 32, 8), Le(data, 56, 2);
       && (forall i | 0 <= i < count :: GoodSegment(data, table + i * 56))
       && exists i | 0 <= i < count :: IsLoad(data, table + i * 56)
  }

  /** `_validate_elf` */
  method ValidateElf(data: Bytes, architectures: seq<Architecture>) returns (error: Option<StageError>)
    ensures error.None? <==> IsStaticElf(data, architectures)
  {
    hide Le;
    if !ElfHeader(data) { return Some(WrongFormat); }
    if |architectures| != 1 || Le(data, 18, 2) != Machine(architectures[0]) { return Some(WrongArchitecture); }
    var table, entrySize, count := Le(data, 32, 8), Le(data, 54, 2), Le(data, 56, 2);
    if entrySize != 56 || count == 0 || table + entrySize * count > |data| { return Some(BadProgramHeaders); }
    var sawLoad := false;
    for index := 0 to count
      invariant forall i | 0 <= i < index :: GoodSegment(data, table + i * 56)
      invariant sawLoad <==> exists i | 0 <= i < index :: IsLoad(data, table + i * 56)
    {
      var at := table + index * 56;
      var kind, offset, size := Le(data, at, 4), Le(data, at + 8, 8), Le(data, at + 32, 8);
      if offset + size > |data| { return Some(BadProgramHeaders); }
      sawLoad := sawLoad || kind == PT_LOAD;
      if kind == PT_DYNAMIC || kind == PT_INTERP { return Some(NotStatic); }
      assert IsLoad(data, at) <==> kind == PT_LOAD;
    }
    error := if sawLoad then None else Some(NoLoadableSegment);
  }

  // ---------------------------------------------------------------- PE

  const PE_MAGIC: Bytes := [0x50, 0x45, 0, 0]

  predicate IsConsolePe(data: Bytes, architectures: seq<Architecture>) {
    && |data| >= 256 && data[..2] == [0x4d, 0x5a] && architectures == [X8664]
    && var pe := Le(data, 0x3C, 4);
       && pe + 26 <= |data| && StandsAt(data, pe, PE_MAGIC) && Le(data, pe + 4, 2) == 0x8664
       && var sections, optional := Le(data, pe + 6, 2), Le(data, pe + 20, 2);
          && sections > 0 && optional >= 70 && (Le(data, pe + 22, 2) / 2) % 2 == 1
          && pe + 24 + optional + sections * 40 <= |data|
          && Le(data, pe + 24, 2) == 0x20B && Le(data, pe + 92, 2) == 3
  }

  /** `_validate_pe` */
  method ValidatePe(data: Bytes, architectures: seq<Architecture>) returns (error: Option<StageError>)
    ensures error.None? <==> IsConsolePe(data, architectures)
  {
    hide Le;
    if |data| < 256 || data[..2] != [0x4d, 0x5a] || architectures != [X8664] { return Some(WrongFormat); }
    var pe := Le(data, 0x3C, 4);
    if pe + 26 > |data| || data[pe..pe + 4] != PE_MAGIC { return Some(WrongFormat); }
    if Le(data, pe + 4, 2) != 0x8664 { return Some(WrongArchitecture); }
    var sections, optional, characteristics := Le(data, pe + 6, 2), Le(data, pe + 20, 2), Le(data, pe + 22, 2);
    if sections == 0 || (characteristics / 2) % 2 == 0 || optional < 2 || pe + 24 + optional + sections * 40 > |data| {
      return Some(BadOptionalHeader);
    }
    if Le(data, pe + 24, 2) != 0x20B { return Some(WrongFormat); }
    if optional < 70 || Le(data, pe + 92, 2) != 3 { return Some(NotConsole); }
    error := None;
  }
}
