/** The AgentCore release ledger: which binary interface, inputs and main-project
    releases belong to each AgentCore version. */
module Ledgers {
  import opened Results
  import opened Versions

  predicate IsDigest(s: string) {
    |s| == 64 && forall c <- s :: '0' <= c <= '9' || 'a' <= c <= 'f'
  }

  function ZeroDigest(): string {
    seq(64, _ => '0')
  }

  type Digest = s: string | IsDigest(s) witness ZeroDigest()

  /** One AgentCore release. It is built once, for the first of its main releases;
      the later ones deliver the same artifacts. */
  datatype Release = Release(
    version: VersionText,
    abiVersion: int,
    abiRevision: int,
    inputDigest: string,
    mainReleases: seq<VersionText>)
  {
    function BuiltBy(): VersionText
      requires mainReleases != []
    {
      mainReleases[0]
    }

    function Identity(): Release {
      this.(mainReleases := [])
    }

    predicate SameAbi(other: Release) {
      abiVersion == other.abiVersion && abiRevision == other.abiRevision
    }

    predicate LowerAbi(other: Release) {
      abiVersion < other.abiVersion || (abiVersion == other.abiVersion && abiRevision < other.abiRevision)
    }
  }

  function FirstOfVersion(rs: seq<Release>, version: VersionText): Option<Release> {
    if rs == [] then None
    else if rs[0].version == version then Some(rs[0])
    else FirstOfVersion(rs[1..], version)
  }

  function FirstCarrying(rs: seq<Release>, main: VersionText): Option<Release> {
    if rs == [] then None
    else if main in rs[0].mainReleases then Some(rs[0])
    else FirstCarrying(rs[1..], main)
  }

  // ---------------------------------------------------------------- the ledger's own rules

  datatype LedgerError =
    | NotFinal
    | BadAbi
    | BadDigest
    | RepeatedDigest
    | NoMainRelease
    | MainNotFinal
    | MainOutOfOrder
    | VersionNotAbove
    | LowersAbi
    | AbiNeedsMinor
    | OnlyLatestIsReused
    | InvalidLedger

  function MainsError(last: Option<Version>, mains: seq<VersionText>): Option<LedgerError>
    decreases |mains|
  {
    if mains == [] then None
    else if !mains[0].Final? then Some(MainNotFinal)
    else if last.Some? && AtMost(mains[0].v, last.value) then Some(MainOutOfOrder)
    else MainsError(Some(mains[0].v), mains[1..])
  }

  /** The last main release named before the next entry. */
  function LastMain(before: seq<Release>): Option<Version> {
    if before == [] then None else
      var mains := before[|before| - 1].mainReleases;
      if mains != [] && mains[|mains| - 1].Final? then Some(mains[|mains| - 1].v) else None
  }

  /** The first rule `entry` breaks when it is appended to `before`. */
  function EntryError(before: seq<Release>, entry: Release): Option<LedgerError> {
    if !entry.version.Final? then Some(NotFinal)
    else if entry.abiVersion < 1 || entry.abiRevision < 1 then Some(BadAbi)
    else if !IsDigest(entry.inputDigest) then Some(BadDigest)
    else if exists r <- before :: r.inputDigest == entry.inputDigest then Some(RepeatedDigest)
    else if entry.mainReleases == [] then Some(NoMainRelease)
    else if MainsError(LastMain(before), entry.mainReleases).Some? then MainsError(LastMain(before), entry.mainReleases)
    else if before == [] then None
    else
      var previous := before[|before| - 1];
      if !previous.version.Final? || AtMost(entry.version.v, previous.version.v) then Some(VersionNotAbove)
      else if entry.LowerAbi(previous) then Some(LowersAbi)
      else if !entry.SameAbi(previous) && !MinorApart(previous.version.v, entry.version.v) then Some(AbiNeedsMinor)
      else None
  }

  /** Each entry is checked against the entries before it, as one pass over the ledger does. */
  predicate ValidReleases(rs: seq<Release>) {
    rs == [] || (ValidReleases(rs[..|rs| - 1]) && EntryError(rs[..|rs| - 1], rs[|rs| - 1]).None?)
  }

  datatype Ledger = Ledger(releases: seq<Release>) {
    function Latest(): Option<Release> {
      if releases == [] then None else Some(releases[|releases| - 1])
    }

    function ByVersion(version: VersionText): Option<Release> {
      FirstOfVersion(releases, version)
    }

    function ByMainRelease(main: VersionText): Option<Release> {
      FirstCarrying(releases, main)
    }

    predicate Valid() {
      ValidReleases(releases)
    }
  }

  datatype Refusal = Refusal(index: nat, error: LedgerError)

  /** The inner loop of `validated`: main releases rise within an entry and from the last one. */
  method CheckMains(last: Option<Version>, mains: seq<VersionText>) returns (error: Option<LedgerError>,
                    newLast: Option<Version>)
    ensures error == MainsError(last, mains)
    ensures error.None? ==>
              if mains == [] then newLast == last
              else mains[|mains| - 1].Final? && newLast == Some(mains[|mains| - 1].v)
  {
    newLast := last;
    for k := 0 to |mains|
      invariant MainsError(newLast, mains[k..]) == MainsError(last, mains)
      invariant if k == 0 then newLast == last else mains[k - 1].Final? && newLast == Some(mains[k - 1].v)
    {
      assert mains[k..][1..] == mains[k + 1..];
      if !mains[k].Final? { return Some(MainNotFinal), newLast; }
      if newLast.Some? && AtMost(mains[k].v, newLast.value) { return Some(MainOutOfOrder), newLast; }
      newLast := Some(mains[k].v);
    }
    error := None;
  }

  /** The body of the loop of `validated`, on what the loop remembers of the entries before. */
  method CheckEntry(entry: Release, previous: Option<Release>, lastMain: Option<Version>, digests: set<string>,
                    ghost before: seq<Release>)
    returns (error: Option<LedgerError>, newLast: Option<Version>)
    requires previous == if before == [] then None else Some(before[|before| - 1])
    requires previous.Some? ==> previous.value.version.Final?
    requires lastMain == LastMain(before)
    requires forall d :: d in digests <==> exists r <- before :: r.inputDigest == d
    ensures error == EntryError(before, entry)
    ensures error.None? ==> newLast == LastMain(before + [entry])
  {
    newLast := lastMain;
    if !entry.version.Final? { return Some(NotFinal), newLast; }
    if entry.abiVersion < 1 || entry.abiRevision < 1 { return Some(BadAbi), newLast; }
    if !IsDigest(entry.inputDigest) { return Some(BadDigest), newLast; }
    if entry.inputDigest in digests { return Some(RepeatedDigest), newLast; }
    if entry.mainReleases == [] { return Some(NoMainRelease), newLast; }
    error, newLast := CheckMains(lastMain, entry.mainReleases);
    if error.Some? { return; }
    if previous.Some? {
      if AtMost(entry.version.v, previous.value.version.v) { return Some(VersionNotAbove), newLast; }
      if entry.LowerAbi(previous.value) { return Some(LowersAbi), newLast; }
      if !entry.SameAbi(previous.value) && !MinorApart(previous.value.version.v, entry.version.v) {
        return Some(AbiNeedsMinor), newLast;
      }
    }
  }

  lemma NoMainYet()
    ensures LastMain([]) == None
  {
  }

  lemma AcceptedIsFinal(before: seq<Release>, entry: Release)
    requires EntryError(before, entry).None?
    ensures entry.version.Final?
  {
  }

  /** Every beginning of a valid ledger is valid, so an invalid one makes it invalid. */
  lemma {:induction false} PrefixesOfValid(rs: seq<Release>, k: nat)
    requires k < |rs|
    ensures ValidReleases(rs) ==> ValidReleases(rs[..k]) && EntryError(rs[..k], rs[k]).None?
  {
    var init := rs[..|rs| - 1];
    if k >= |init| {
    } else {
      PrefixesOfValid(init, k);
      assert init[..k] == rs[..k];
    }
  }

  /** `validated`: accepts exactly the valid ledgers, and otherwise names the first
      entry, with the first rule it breaks, after a valid beginning. */
  method Validate(ledger: Ledger) returns (r: Result<Ledger, Refusal>)
    ensures r.Success? <==> ledger.Valid()
    ensures r.Success? ==> r.value == ledger
    ensures r.Failure? ==>
              var i := r.error.index;
              && i < |ledger.releases|
              && ValidReleases(ledger.releases[..i])
              && EntryError(ledger.releases[..i], ledger.releases[i]) == Some(r.error.error)
  {
    hide EntryError, LastMain;
    var rs := ledger.releases;
    var previous: Option<Release> := None;
    var lastMain: Option<Version> := None;
    var digests: set<string> := {};
    NoMainYet();
    for i := 0 to |rs|
      invariant ValidReleases(rs[..i])
      invariant previous == if i == 0 then None else Some(rs[i - 1])
      invariant i > 0 ==> rs[i - 1].version.Final?
      invariant lastMain == LastMain(rs[..i])
      invariant forall d :: d in digests <==> exists r <- rs[..i] :: r.inputDigest == d
    {
      var entry := rs[i];
      ghost var before := rs[..i];
      PrefixesOfValid(rs, i);
      var error, newLast := CheckEntry(entry, previous, lastMain, digests, before);
      if error.Some? { return Failure(Refusal(i, error.value)); }
      assert rs[..i + 1] == before + [entry] && rs[..i + 1][..i] == before;
      AcceptedIsFinal(before, entry);
      digests := digests + {entry.inputDigest};
      previous, lastMain := Some(entry), newLast;
    }
    assert rs[..|rs|] == rs;
    return Success(ledger);
  }

  // ---------------------------------------------------------------- what the rules amount to

  /** All main releases in ledger order. */
  function Mains(rs: seq<Release>): seq<VersionText> {
    if rs == [] then [] else Mains(rs[..|rs| - 1]) + rs[|rs| - 1].mainReleases
  }

  predicate WellShaped(r: Release) {
    && r.version.Final?
    && r.abiVersion >= 1 && r.abiRevision >= 1
    && IsDigest(r.inputDigest)
    && r.mainReleases != []
    && forall m <- r.mainReleases :: m.Final?
  }

  predicate Ascending(mains: seq<VersionText>) {
    && (forall m <- mains :: m.Final?)
    && forall i, j | 0 <= i < j < |mains| :: Less(mains[i].v, mains[j].v)
  }

  /** What any two entries owe each other, the earlier one first. */
  predicate Precedes(a: Release, b: Release) {
    && a.version.Final? && b.version.Final?
    && Less(a.version.v, b.version.v)
    && a.inputDigest != b.inputDigest
    && !b.LowerAbi(a)
    && (SameMinor(a.version.v, b.version.v) ==> a.SameAbi(b))
  }

  /** The ledger's guarantee stated over all pairs of entries. */
  predicate Consistent(rs: seq<Release>) {
    && (forall r <- rs :: WellShaped(r))
    && Ascending(Mains(rs))
    && forall i, j | 0 <= i < j < |rs| :: Precedes(rs[i], rs[j])
  }

  lemma EntryMeaning(before: seq<Release>, entry: Release)
    requires EntryError(before, entry).None? && (before != [] ==> before[|before| - 1].version.Final?)
    ensures forall r <- before :: r.inputDigest != entry.inputDigest
    ensures MainsError(LastMain(before), entry.mainReleases).None?
    ensures before != [] ==> Precedes(before[|before| - 1], entry)
  {
  }

  lemma AllPrecede(before: seq<Release>, entry: Release)
    requires forall i, j | 0 <= i < j < |before| :: Precedes(before[i], before[j])
    requires forall r <- before :: r.inputDigest != entry.inputDigest
    requires before != [] ==> Precedes(before[|before| - 1], entry)
    ensures forall i | 0 <= i < |before| :: Precedes(before[i], entry)
  {
  }

  lemma MainsAccepted(before: seq<Release>, entry: Release)
    requires EntryError(before, entry).None?
    ensures entry.mainReleases != [] && MainsError(LastMain(before), entry.mainReleases).None?
  {
  }

  lemma EntryIsShaped(before: seq<Release>, entry: Release)
    requires EntryError(before, entry).None? && Ascending(entry.mainReleases)
    ensures WellShaped(entry)
  {
  }

  lemma AscendingConcat(a: seq<VersionText>, b: seq<VersionText>)
    requires Ascending(a) && Ascending(b)
    requires a != [] && b != [] ==> Less(a[|a| - 1].v, b[0].v)
    ensures Ascending(a + b)
  {
  }

  lemma AscendingParts(a: seq<VersionText>, b: seq<VersionText>)
    requires Ascending(a + b)
    ensures Ascending(a) && Ascending(b)
    ensures a != [] && b != [] ==> Less(a[|a| - 1].v, b[0].v)
  {
    var ab := a + b;
    forall i | 0 <= i < |a| ensures a[i] == ab[i] {}
    forall i | 0 <= i < |b| ensures b[i] == ab[|a| + i] {}
    forall m | m in a || m in b ensures m.Final? { assert m in ab; }
  }

  lemma {:induction false} MainsErrorMeaning(last: Option<Version>, mains: seq<VersionText>)
    ensures MainsError(last, mains).None? <==>
            Ascending(mains) && (last.Some? && mains != [] ==> Less(last.value, mains[0].v))
    decreases |mains|
  {
    if mains == [] || !mains[0].Final? {
    } else {
      var rest := mains[1..];
      MainsErrorMeaning(Some(mains[0].v), rest);
      assert mains == [mains[0]] + rest;
      if Ascending(rest) && (rest != [] ==> Less(mains[0].v, rest[0].v)) {
        AscendingConcat([mains[0]], rest);
      }
      if Ascending(mains) {
        AscendingParts([mains[0]], rest);
      }
    }
  }

  lemma LastMainIsLast(rs: seq<Release>)
    requires forall r <- rs :: WellShaped(r)
    ensures rs == [] ==> Mains(rs) == [] && LastMain(rs).None?
    ensures rs != [] ==> Mains(rs) != [] && LastMain(rs).Some? &&
                         Mains(rs)[|Mains(rs)| - 1] == Final(LastMain(rs).value)
  {
    if rs != [] {
      var entry := rs[|rs| - 1];
      assert entry in rs;
      assert entry.mainReleases[|entry.mainReleases| - 1] in entry.mainReleases;
    }
  }

  lemma AppendKeepsConsistent(before: seq<Release>, entry: Release)
    requires Consistent(before) && EntryError(before, entry).None?
    ensures Consistent(before + [entry])
  {
    hide EntryError, MainsError, LastMain, IsDigest, Precedes, Ascending;
    var rs := before + [entry];
    assert rs[..|rs| - 1] == before;
    MainsAccepted(before, entry);
    MainsErrorMeaning(LastMain(before), entry.mainReleases);
    assert before != [] ==> before[|before| - 1] in before;
    LastMainIsLast(before);
    EntryMeaning(before, entry);
    AscendingConcat(Mains(before), entry.mainReleases);
    AllPrecede(before, entry);
    assert WellShaped(entry) by { EntryIsShaped(before, entry); }
  }

  lemma ConsistentBeginning(before: seq<Release>, entry: Release)
    requires Consistent(before + [entry])
    ensures Consistent(before) && EntryError(before, entry).None?
  {
    var rs := before + [entry];
    assert rs[..|rs| - 1] == before && rs[|before|] == entry;
    forall r | r in before ensures WellShaped(r) { assert r in rs; }
    assert entry in rs;
    var mains := Mains(before);
    assert Mains(rs) == mains + entry.mainReleases;
    AscendingParts(mains, entry.mainReleases);
    LastMainIsLast(before);
    MainsErrorMeaning(LastMain(before), entry.mainReleases);
    forall i, j | 0 <= i < j < |before| ensures Precedes(before[i], before[j]) {
      assert rs[i] == before[i] && rs[j] == before[j];
    }
    forall i | 0 <= i < |before| ensures Precedes(before[i], entry) {
      assert rs[i] == before[i];
    }
  }

  /** The one-pass rules hold exactly when the all-pairs guarantee does: no version,
      digest or main release repeats, and one major.minor has one binary interface. */
  lemma {:induction false} ValidIffConsistent(rs: seq<Release>)
    ensures ValidReleases(rs) <==> Consistent(rs)
  {
    if rs == [] {
    } else {
      var before, entry := rs[..|rs| - 1], rs[|rs| - 1];
      ValidIffConsistent(before);
      if ValidReleases(rs) {
        AppendKeepsConsistent(before, entry);
      }
      if Consistent(rs) {
        ConsistentBeginning(before, entry);
      }
      assert rs == before + [entry];
    }
  }

  lemma VersionsDiffer(rs: seq<Release>, i: nat, j: nat)
    requires Consistent(rs) && i < |rs| && j < |rs|
    ensures i != j ==> rs[i].version != rs[j].version
  {
    assert i < j ==> Precedes(rs[i], rs[j]);
    assert j < i ==> Precedes(rs[j], rs[i]);
  }

  /** A ledger may be cut back inside its last entry, down to the release that built it. */
  lemma CutBackInsideLastEntry(rs: seq<Release>, k: nat, kept: nat)
    requires ValidReleases(rs) && k < |rs|
    requires 0 < kept <= |rs[k].mainReleases|
    ensures ValidReleases(rs[..k])
    ensures ValidReleases(rs[..k] + [rs[k].(mainReleases := rs[k].mainReleases[..kept])])
  {
    var before, entry := rs[..k], rs[k];
    var shorter := entry.(mainReleases := entry.mainReleases[..kept]);
    PrefixesOfValid(rs, k);
    MainsErrorMeaning(LastMain(before), entry.mainReleases);
    assert entry.mainReleases == entry.mainReleases[..kept] + entry.mainReleases[kept..];
    AscendingParts(entry.mainReleases[..kept], entry.mainReleases[kept..]);
    MainsErrorMeaning(LastMain(before), shorter.mainReleases);
    assert EntryError(before, shorter).None?;
    var cut := before + [shorter];
    assert cut[..|cut| - 1] == before;
  }

  // ---------------------------------------------------------------- growth

  /** The first rule that a ledger breaks. */
  function FirstError(rs: seq<Release>): (error: Option<LedgerError>)
    ensures error.None? <==> ValidReleases(rs)
  {
    if rs == [] then None
    else
      var before := rs[..|rs| - 1];
      if FirstError(before).Some? then FirstError(before) else EntryError(before, rs[|rs| - 1])
  }

  function Checked(ledger: Ledger): Result<Ledger, LedgerError> {
    match FirstError(ledger.releases)
    case None => Success(ledger)
    case Some(error) => Failure(error)
  }

  /** The ledger with `main` added to `release`, its latest. */
  function Carrying(ledger: Ledger, release: Release, main: VersionText): Result<Ledger, LedgerError> {
    if ledger.Latest() != Some(release) then Failure(OnlyLatestIsReused)
    else
      var updated := release.(mainReleases := release.mainReleases + [main]);
      Checked(Ledger(ledger.releases[..|ledger.releases| - 1] + [updated]))
  }

  function Appended(ledger: Ledger, release: Release): Result<Ledger, LedgerError> {
    Checked(Ledger(ledger.releases + [release]))
  }

  /** How entry `earlier` may look in a later ledger: the last entry may have gained main releases. */
  predicate EntryKept(earlier: Release, later: Release, last: bool) {
    && earlier.Identity() == later.Identity()
    && (if last then earlier.mainReleases <= later.mainReleases else earlier.mainReleases == later.mainReleases)
  }

  predicate Grows(older: Ledger, newer: Ledger) {
    && |older.releases| <= |newer.releases|
    && forall i | 0 <= i < |older.releases| ::
         EntryKept(older.releases[i], newer.releases[i], i == |older.releases| - 1)
  }

  datatype PrefixFinding = Dropped | Changed(version: VersionText)

  /** `is_prefix_of`: no finding exactly when history was only appended to. */
  method IsPrefixOf(older: Ledger, newer: Ledger) returns (finding: Option<PrefixFinding>)
    ensures finding.None? <==> Grows(older, newer)
    ensures finding == Some(Dropped) <==> |newer.releases| < |older.releases|
    ensures finding.Some? && finding.value.Changed? ==>
              exists i :: 0 <= i < |older.releases| <= |newer.releases|
                       && finding.value.version == older.releases[i].version
                       && !EntryKept(older.releases[i], newer.releases[i], i == |older.releases| - 1)
  {
    if |newer.releases| < |older.releases| { return Some(Dropped); }
    for index := 0 to |older.releases|
      invariant forall i | 0 <= i < index ::
                  EntryKept(older.releases[i], newer.releases[i], i == |older.releases| - 1)
    {
      var earlier, later := older.releases[index], newer.releases[index];
      var last := index == |older.releases| - 1;
      var sameIdentity := earlier.Identity() == later.Identity();
      var shown := if |later.mainReleases| < |earlier.mainReleases| then later.mainReleases
                   else later.mainReleases[..|earlier.mainReleases|];
      if !sameIdentity || (if last then shown != earlier.mainReleases else later.mainReleases != earlier.mainReleases) {
        assert !EntryKept(earlier, later, last);
        return Some(Changed(earlier.version));
      }
    }
    finding := None;
  }

  lemma GrowsIsAPartialOrder(a: Ledger, b: Ledger, c: Ledger)
    ensures Grows(a, a)
    ensures Grows(a, b) && Grows(b, c) ==> Grows(a, c)
    ensures Grows(a, b) && Grows(b, a) ==> a == b
  {
  }

  lemma SameIdentityFields(a: Release, b: Release)
    requires a.Identity() == b.Identity()
    ensures a.version == b.version && a.abiVersion == b.abiVersion
    ensures a.abiRevision == b.abiRevision && a.inputDigest == b.inputDigest
  {
  }

  /** What a lookup answers survives growth: version, interface, digest and builder. */
  predicate SameAnswer(earlier: Option<Release>, later: Option<Release>) {
    earlier.Some? ==>
      && later.Some?
      && earlier.value.Identity() == later.value.Identity()
      && earlier.value.mainReleases <= later.value.mainReleases
  }

  lemma {:induction false} GrowthKeepsAnswers(older: Ledger, newer: Ledger, version: VersionText, main: VersionText)
    requires Grows(older, newer)
    ensures SameAnswer(older.ByVersion(version), newer.ByVersion(version))
    ensures SameAnswer(older.ByMainRelease(main), newer.ByMainRelease(main))
    decreases |older.releases|
  {
    if older.releases == [] {
    } else {
      var earlier, later := older.releases[0], newer.releases[0];
      assert EntryKept(earlier, later, 0 == |older.releases| - 1);
      assert earlier.Identity().version == later.Identity().version;
      var olderRest, newerRest := Ledger(older.releases[1..]), Ledger(newer.releases[1..]);
      forall i | 0 <= i < |olderRest.releases|
        ensures EntryKept(olderRest.releases[i], newerRest.releases[i], i == |olderRest.releases| - 1)
      {
        assert EntryKept(older.releases[i + 1], newer.releases[i + 1], i + 1 == |older.releases| - 1);
      }
      GrowthKeepsAnswers(olderRest, newerRest, version, main);
    }
  }

  lemma CarriedEntry(before: seq<Release>, entry: Release, main: VersionText)
    requires EntryError(before, entry).None?
    ensures entry.mainReleases != [] && entry.mainReleases[|entry.mainReleases| - 1].Final?
    ensures EntryError(before, entry.(mainReleases := entry.mainReleases + [main])).None? <==>
            main.Final? && Less(entry.mainReleases[|entry.mainReleases| - 1].v, main.v)
  {
    var mains := entry.mainReleases;
    var updated := entry.(mainReleases := mains + [main]);
    MainsErrorMeaning(LastMain(before), mains);
    assert mains[|mains| - 1] in mains;
    MainsErrorMeaning(LastMain(before), mains + [main]);
    assert main in mains + [main];
    if main.Final? && Less(mains[|mains| - 1].v, main.v) {
      AscendingConcat(mains, [main]);
    } else if Ascending(mains + [main]) {
      AscendingParts(mains, [main]);
    }
  }

  /** A reuse is accepted exactly for a later final main release; it moves the ledger up. */
  lemma CarryingAccepts(ledger: Ledger, main: VersionText)
    requires ledger.Valid() && ledger.releases != []
    ensures LastMain(ledger.releases).Some?
    ensures var r := Carrying(ledger, ledger.Latest().value, main);
            && (r.Success? <==> main.Final? && Less(LastMain(ledger.releases).value, main.v))
            && (r.Success? ==>
                  && r.value.Valid() && Grows(ledger, r.value)
                  && r.value.Latest() == Some(ledger.Latest().value.(
                       mainReleases := ledger.Latest().value.mainReleases + [main]))
                  && |r.value.releases| == |ledger.releases|
                  && Mains(r.value.releases) == Mains(ledger.releases) + [main])
  {
    var rs := ledger.releases;
    var before, entry := rs[..|rs| - 1], rs[|rs| - 1];
    CarriedEntry(before, entry, main);
    var updated := entry.(mainReleases := entry.mainReleases + [main]);
    var carried := before + [updated];
    assert carried[..|carried| - 1] == before;
    assert Mains(carried) == Mains(before) + updated.mainReleases;
    assert Mains(before) + updated.mainReleases == Mains(rs) + [main];
  }

  /** A new release is accepted exactly when it breaks no rule; it moves the ledger up. */
  lemma AppendedAccepts(ledger: Ledger, release: Release)
    requires ledger.Valid()
    ensures var r := Appended(ledger, release);
            && (r.Success? <==> EntryError(ledger.releases, release).None?)
            && (r.Failure? ==> EntryError(ledger.releases, release) == Some(r.error))
            && (r.Success? ==>
                  && r.value.Valid() && Grows(ledger, r.value)
                  && r.value.Latest() == Some(release)
                  && Mains(r.value.releases) == Mains(ledger.releases) + release.mainReleases)
  {
  }

  lemma {:induction false} FirstCarryingAt(rs: seq<Release>, k: nat, main: VersionText)
    requires k < |rs| && main in rs[k].mainReleases
    requires forall i | 0 <= i < k :: main !in rs[i].mainReleases
    ensures FirstCarrying(rs, main) == Some(rs[k])
  {
    if k == 0 {
    } else {
      FirstCarryingAt(rs[1..], k - 1, main);
    }
  }

  lemma {:induction false} MainInMains(rs: seq<Release>, k: nat, main: VersionText)
    requires k < |rs| && main in rs[k].mainReleases
    ensures main in Mains(rs)
  {
    if k == |rs| - 1 {
    } else {
      MainInMains(rs[..|rs| - 1], k, main);
    }
  }

  lemma {:induction false} EarlierMainsAreLess(rs: seq<Release>, i: nat, j: nat, a: VersionText, b: VersionText)
    requires Ascending(Mains(rs))
    requires i < j < |rs| && a in rs[i].mainReleases && b in rs[j].mainReleases
    ensures a.Final? && b.Final? && Less(a.v, b.v)
  {
    var before, entry := rs[..|rs| - 1], rs[|rs| - 1];
    var mains := Mains(before) + entry.mainReleases;
    assert mains == Mains(rs);
    if j < |before| {
      AscendingParts(Mains(before), entry.mainReleases);
      EarlierMainsAreLess(before, i, j, a, b);
    } else {
      MainInMains(before, i, a);
      var p :| 0 <= p < |Mains(before)| && Mains(before)[p] == a;
      var q :| 0 <= q < |entry.mainReleases| && entry.mainReleases[q] == b;
      assert mains[p] == a && mains[|Mains(before)| + q] == b;
      assert a in mains && b in mains;
    }
  }

  /** A main release of a valid ledger is carried by exactly the entry that lists it. */
  lemma {:induction false} CarriedByItsEntry(rs: seq<Release>, k: nat, main: VersionText)
    requires ValidReleases(rs) && k < |rs| && main in rs[k].mainReleases
    ensures FirstCarrying(rs, main) == Some(rs[k])
  {
    ValidIffConsistent(rs);
    forall i | 0 <= i < k ensures main !in rs[i].mainReleases {
      if main in rs[i].mainReleases {
        EarlierMainsAreLess(rs, i, k, main, main);
      }
    }
    FirstCarryingAt(rs, k, main);
  }

  /** Whatever a lookup by main release finds is an entry that lists it. */
  lemma {:induction false} CarrierAt(rs: seq<Release>, main: VersionText)
    ensures FirstCarrying(rs, main).Some? ==> FirstCarrying(rs, main).value in rs
                                              && main in FirstCarrying(rs, main).value.mainReleases
  {
    if rs == [] || main in rs[0].mainReleases {
    } else {
      CarrierAt(rs[1..], main);
    }
  }
}
