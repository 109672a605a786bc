/** Whether a disassembly printed every data-in-code range as data and decoded no
    instruction inside one: a sorted table searched by bisection. */
module DataInCode {
  import opened Results
  import Sorting

  /** One `LC_DATA_IN_CODE` entry. */
  datatype Range = Range(start: nat, length: nat, kind: nat) {
    function End(): nat {
      start + length
    }

    predicate Holds(address: nat) {
      start <= address < End()
    }
  }

  /** What a line of the disassembly is: data printed at an address, an instruction decoded
      at one, or neither. */
  datatype Line = Data(address: nat) | Instruction(address: nat) | OtherLine

  datatype Finding = DecodedInside(address: nat, range: Range) | NotPrinted(range: Range)

  // ---------------------------------------------------------------- the sorted table

  predicate AtMost(a: Range, b: Range) {
    || a.start < b.start
    || (a.start == b.start && a.length < b.length)
    || (a.start == b.start && a.length == b.length && a.kind <= b.kind)
  }

  predicate Sorted(ranges: seq<Range>) {
    forall i, j | 0 <= i < j < |ranges| :: AtMost(ranges[i], ranges[j])
  }

  function ByStart(): (Range, Range) -> bool {
    (a: Range, b: Range) => AtMost(a, b)
  }

  function Sort(ranges: seq<Range>): seq<Range> {
    Sorting.Sort(ranges, ByStart())
  }

  /** The entries that cover a byte. */
  function Covering(entries: seq<Range>): (r: seq<Range>)
    ensures forall range :: range in r <==> range in entries && range.length > 0
  {
    if entries == [] then []
    else
      assert entries == [entries[0]] + entries[1..];
      (if entries[0].length > 0 then [entries[0]] else []) + Covering(entries[1..])
  }

  lemma SortSorts(ranges: seq<Range>)
    ensures Sorted(Sort(ranges))
    ensures forall range :: range in Sort(ranges) <==> range in ranges
  {
    Sorting.SortSorts(ranges, ByStart());
    Sorting.SameMembers(Sort(ranges), ranges);
    assert forall i, j | 0 <= i < j < |Sort(ranges)| :: ByStart()(Sort(ranges)[i], Sort(ranges)[j]);
  }

  /** `bisect_right` on the starts. */
  method BisectRight(ranges: seq<Range>, address: nat) returns (index: nat)
    requires Sorted(ranges)
    ensures index <= |ranges|
    ensures forall i | 0 <= i < index :: ranges[i].start <= address
    ensures forall i | index <= i < |ranges| :: address < ranges[i].start
  {
    var lo, hi := 0, |ranges|;
    while lo < hi
      invariant 0 <= lo <= hi <= |ranges|
      invariant forall i | 0 <= i < lo :: ranges[i].start <= address
      invariant forall i | hi <= i < |ranges| :: address < ranges[i].start
    {
      var mid := (lo + hi) / 2;
      if address < ranges[mid].start {
        forall i | mid <= i < |ranges| ensures address < ranges[i].start {
          assert i == mid || AtMost(ranges[mid], ranges[i]);
        }
        hi := mid;
      } else {
        forall i | 0 <= i <= mid ensures ranges[i].start <= address {
          assert i == mid || AtMost(ranges[i], ranges[mid]);
        }
        lo := mid + 1;
      }
    }
    index := lo;
  }

  // ---------------------------------------------------------------- the check

  predicate IsLastStart(ranges: seq<Range>, k: int, address: nat) {
    && 0 <= k < |ranges| && ranges[k].start <= address
    && forall i | k < i < |ranges| :: address < ranges[i].start
  }

  /** The last range that starts at or before the address holds it: what bisection sees. */
  predicate IsCaught(ranges: seq<Range>, address: nat) {
    exists k | 0 <= k < |ranges| :: IsLastStart(ranges, k, address) && ranges[k].Holds(address)
  }

  predicate IsHeld(ranges: seq<Range>, address: nat) {
    exists range <- ranges :: range.Holds(address)
  }

  predicate Printed(lines: seq<Line>, address: nat) {
    Data(address) in lines
  }

  predicate AllPrinted(lines: seq<Line>, ranges: seq<Range>) {
    forall range <- ranges :: Printed(lines, range.start)
  }

  /** What the sorted table and the bisection accept. */
  ghost predicate Accepts(lines: seq<Line>, entries: seq<Range>) {
    && (forall address | Instruction(address) in lines :: !IsCaught(Sort(Covering(entries)), address))
    && AllPrinted(lines, Covering(entries))
  }

  lemma OneLastStart(ranges: seq<Range>, k: nat, address: nat)
    requires IsLastStart(ranges, k, address) && !ranges[k].Holds(address)
    ensures !IsCaught(ranges, address)
  {
  }

  /** `check_data_in_code` */
  method CheckDataInCode(lines: seq<Line>, entries: seq<Range>) returns (r: Option<Finding>)
    ensures r.None? <==> Accepts(lines, entries)
    ensures r.Some? && r.value.DecodedInside? ==>
              && Instruction(r.value.address) in lines && r.value.range.Holds(r.value.address)
              && r.value.range in entries
    ensures r.Some? && r.value.NotPrinted? ==>
              && r.value.range in entries && r.value.range.length > 0 && !Printed(lines, r.value.range.start)
  {
    hide Sort;
    var ranges := Sort(Covering(entries));
    SortSorts(Covering(entries));
    if ranges == [] { return None; }
    var asData: set<nat> := {};
    for i := 0 to |lines|
      invariant forall a :: a in asData <==> Data(a) in lines[..i]
      invariant forall a | Instruction(a) in lines[..i] :: !IsCaught(ranges, a)
    {
      assert lines[..i + 1] == lines[..i] + [lines[i]];
      match lines[i] {
        case Data(address) => asData := asData + {address};
        case OtherLine =>
        case Instruction(address) =>
          var index := BisectRight(ranges, address);
          if index > 0 {
            assert IsLastStart(ranges, index - 1, address);
            if address < ranges[index - 1].End() {
              assert lines[i] in lines;
              return Some(DecodedInside(address, ranges[index - 1]));
            }
            OneLastStart(ranges, index - 1, address);
          }
      }
    }
    assert lines[..|lines|] == lines;
    for i := 0 to |ranges|
      invariant forall k | 0 <= k < i :: ranges[k].start in asData
    {
      assert ranges[i] in ranges;
      if ranges[i].start !in asData { return Some(NotPrinted(ranges[i])); }
    }
    r := None;
  }

  // ---------------------------------------------------------------- against the plain check

  predicate Disjoint(entries: seq<Range>) {
    forall i, j | 0 <= i < j < |entries| :: entries[i].End() <= entries[j].start || entries[j].End() <= entries[i].start
  }

  /** Range `k` ends in the gap before the next start, and the earlier `i` runs on past it. */
  predicate Outruns(ranges: seq<Range>, i: nat, k: nat)
    requires i < k < |ranges|
  {
    ranges[i].End() > ranges[k].End() && (k + 1 < |ranges| ==> ranges[k + 1].start > ranges[k].End())
  }

  predicate NoneOutruns(ranges: seq<Range>) {
    forall i, k | 0 <= i < k < |ranges| :: !Outruns(ranges, i, k)
  }

  lemma LastStart(ranges: seq<Range>, i: nat, address: nat) returns (k: nat)
    requires Sorted(ranges) && i < |ranges| && ranges[i].start <= address
    ensures i <= k < |ranges| && IsLastStart(ranges, k, address)
    decreases |ranges| - i
  {
    if i + 1 < |ranges| && ranges[i + 1].start <= address {
      k := LastStart(ranges, i + 1, address);
    } else {
      k := i;
      assert forall j | i + 1 < j < |ranges| :: AtMost(ranges[i + 1], ranges[j]);
    }
  }

  lemma HeldIsCaught(ranges: seq<Range>, address: nat)
    requires Sorted(ranges) && NoneOutruns(ranges) && IsHeld(ranges, address)
    ensures IsCaught(ranges, address)
  {
    var range :| range in ranges && range.Holds(address);
    var i :| 0 <= i < |ranges| && ranges[i] == range;
    var k := LastStart(ranges, i, address);
    if i < k {
      assert !Outruns(ranges, i, k);
      assert k + 1 < |ranges| ==> address < ranges[k + 1].start;
    }
    assert ranges[k].Holds(address);
  }

  lemma CaughtIsHeld(ranges: seq<Range>, address: nat)
    requires IsCaught(ranges, address)
    ensures IsHeld(ranges, address)
  {
  }

  lemma OutrunPair(ranges: seq<Range>) returns (i: nat, k: nat)
    requires !NoneOutruns(ranges)
    ensures i < k < |ranges| && ranges[i].End() > ranges[k].End()
    ensures k + 1 < |ranges| ==> ranges[k + 1].start > ranges[k].End()
  {
    i, k :| 0 <= i < k < |ranges| && Outruns(ranges, i, k);
  }

  lemma MissedAddress(ranges: seq<Range>, i: nat, k: nat)
    requires Sorted(ranges) && i < k < |ranges| && ranges[i].End() > ranges[k].End()
    requires k + 1 < |ranges| ==> ranges[k + 1].start > ranges[k].End()
    ensures IsHeld(ranges, ranges[k].End()) && !IsCaught(ranges, ranges[k].End())
  {
    var address := ranges[k].End();
    assert AtMost(ranges[i], ranges[k]);
    assert ranges[i] in ranges && ranges[i].Holds(address);
    forall j | k < j < |ranges| ensures address < ranges[j].start {
      assert j == k + 1 || AtMost(ranges[k + 1], ranges[j]);
    }
    assert IsLastStart(ranges, k, address);
    OneLastStart(ranges, k, address);
  }

  /** On a sorted table, bisection sees every address that some range holds exactly when no
      range outruns a later one into a gap. */
  lemma BisectionIsExact(ranges: seq<Range>)
    requires Sorted(ranges)
    ensures (forall address: nat :: IsHeld(ranges, address) <==> IsCaught(ranges, address)) <==> NoneOutruns(ranges)
  {
    hide NoneOutruns, IsHeld, IsCaught, Sorted;
    if NoneOutruns(ranges) {
      forall address: nat ensures IsHeld(ranges, address) <==> IsCaught(ranges, address) {
        if IsHeld(ranges, address) { HeldIsCaught(ranges, address); }
        if IsCaught(ranges, address) { CaughtIsHeld(ranges, address); }
      }
    } else {
      var i, k := OutrunPair(ranges);
      MissedAddress(ranges, i, k);
    }
  }

  /** The plain check: every range printed as data, no instruction decoded inside one. */
  ghost predicate PlainlyAccepts(lines: seq<Line>, entries: seq<Range>) {
    && (forall address | Instruction(address) in lines :: !IsHeld(Covering(entries), address))
    && AllPrinted(lines, Covering(entries))
  }

  lemma SortedHolds(entries: seq<Range>, address: nat)
    ensures Sorted(Sort(Covering(entries)))
    ensures IsHeld(Sort(Covering(entries)), address) <==> IsHeld(Covering(entries), address)
  {
    SortSorts(Covering(entries));
  }

  function PrintAll(ranges: seq<Range>): seq<Line> {
    if ranges == [] then [] else [Data(ranges[0].start)] + PrintAll(ranges[1..])
  }

  lemma {:induction false} PrintedAll(ranges: seq<Range>)
    ensures AllPrinted(PrintAll(ranges), ranges)
    ensures forall line <- PrintAll(ranges) :: line.Data?
  {
    if ranges == [] {
    } else {
      PrintedAll(ranges[1..]);
      assert ranges == [ranges[0]] + ranges[1..];
    }
  }

  /** Print every range, and decode the one address that bisection misses. */
  lemma PassesUnseen(entries: seq<Range>, address: nat)
    requires IsHeld(Covering(entries), address) && !IsCaught(Sort(Covering(entries)), address)
    ensures exists lines :: Accepts(lines, entries) && !PlainlyAccepts(lines, entries)
  {
    hide Sort, IsHeld, IsCaught, Covering;
    var lines := PrintAll(Covering(entries)) + [Instruction(address)];
    PrintedAll(Covering(entries));
    assert Instruction(address) in lines;
    assert Accepts(lines, entries) && !PlainlyAccepts(lines, entries);
  }

  /** The check agrees with the plain one on every disassembly exactly when no range outruns
      a later one into a gap. */
  lemma AcceptanceIsExactIff(entries: seq<Range>)
    ensures (forall lines :: Accepts(lines, entries) <==> PlainlyAccepts(lines, entries)) <==>
            NoneOutruns(Sort(Covering(entries)))
  {
    hide Sort, NoneOutruns, IsHeld, IsCaught, AllPrinted, Covering;
    var ranges := Sort(Covering(entries));
    SortedHolds(entries, 0);
    BisectionIsExact(ranges);
    if NoneOutruns(ranges) {
      forall address: nat ensures IsCaught(ranges, address) <==> IsHeld(Covering(entries), address) {
        SortedHolds(entries, address);
      }
    } else {
      var address: nat :| !(IsHeld(ranges, address) <==> IsCaught(ranges, address));
      SortedHolds(entries, address);
      if IsCaught(ranges, address) { CaughtIsHeld(ranges, address); }
      PassesUnseen(entries, address);
    }
  }

  lemma DisjointNeverOutrun(entries: seq<Range>)
    requires Disjoint(Covering(entries))
    ensures NoneOutruns(Sort(Covering(entries)))
  {
    hide Sort;
    var covering, ranges := Covering(entries), Sort(Covering(entries));
    SortSorts(covering);
    forall i, k | 0 <= i < k < |ranges| ensures ranges[i].End() <= ranges[k].End() {
      assert AtMost(ranges[i], ranges[k]) && ranges[i] in ranges && ranges[k] in ranges;
      var a :| 0 <= a < |covering| && covering[a] == ranges[i];
      var b :| 0 <= b < |covering| && covering[b] == ranges[k];
      assert covering[a] in covering;
    }
  }

  /** For pairwise disjoint ranges, given in any order, the check accepts exactly the
      disassemblies that print every range as data and decode no instruction inside one. */
  lemma DisjointRangesAreCheckedExactly(lines: seq<Line>, entries: seq<Range>)
    requires Disjoint(Covering(entries))
    ensures Accepts(lines, entries) <==> PlainlyAccepts(lines, entries)
  {
    hide Accepts, PlainlyAccepts, Sort;
    DisjointNeverOutrun(entries);
    AcceptanceIsExactIff(entries);
  }

  /** With overlapping ranges an instruction inside one can pass: address 5 lies in the
      first range, but the search only looks at the second. */
  lemma NestedRangeHidesAnInstruction()
    ensures var entries := [Range(0, 10, 1), Range(2, 1, 1)];
            && IsHeld(Covering(entries), 5)
            && !IsCaught(Sort(Covering(entries)), 5)
  {
    var entries := [Range(0, 10, 1), Range(2, 1, 1)];
    assert Covering(entries[1..]) == [Range(2, 1, 1)];
    assert Covering(entries) == entries;
    assert entries[1..] == [Range(2, 1, 1)] && entries[1..][1..] == [];
    assert Sorting.Sort(entries[1..], ByStart()) == entries[1..];
    assert Sort(entries) == entries;
    assert entries[0].Holds(5) && entries[0] in entries;
  }
}
