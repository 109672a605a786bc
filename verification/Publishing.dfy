/** What a main release publishes: asset names and their digests, the artifacts a reused
    AgentCore is fetched from, and the check against everything already published. */
module Publishing {
  import opened Results
  import opened Versions
  import opened Lines

  /** A `SHA256SUMS` file: asset name to digest. */
  type Sums = map<string, string>

  // ---------------------------------------------------------------- asset names

  const ARCHIVE_PREFIX := "metask-agentcore-"

  const WHEEL_PREFIX := "metacodes-"

  const NODE_PREFIX := "metacodes-node-"

  const WHEEL_SUFFIX := ".whl"

  predicate EndsWith(s: string, suffix: string) {
    |s| >= |suffix| && s[|s| - |suffix|..] == suffix
  }

  predicate IsArchive(name: string) {
    ARCHIVE_PREFIX <= name
  }

  predicate IsWheel(name: string) {
    EndsWith(name, WHEEL_SUFFIX)
  }

  predicate IsNodePackage(name: string) {
    NODE_PREFIX <= name
  }

  /** The assets the door checks as parts of AgentCore. */
  predicate IsAgentCoreAsset(name: string) {
    IsArchive(name) || IsWheel(name) || IsNodePackage(name)
  }

  function ArchiveStem(v: Version): string {
    ARCHIVE_PREFIX + Fmt(v) + "-"
  }

  function WheelStem(v: Version): string {
    WHEEL_PREFIX + Fmt(v) + "-py3-none-"
  }

  function NodeStem(v: Version): string {
    NODE_PREFIX + Fmt(v) + "-"
  }

  /** What `verify_dist` demands of an AgentCore asset's name: it names version `v`. */
  predicate NamesVersion(name: string, v: Version) {
    && (IsArchive(name) ==> ArchiveStem(v) <= name)
    && (IsWheel(name) ==> WheelStem(v) <= name)
    && (IsNodePackage(name) ==> NodeStem(v) <= name)
  }

  /** The version is readable from the name: it ends at the first dash after the prefix. */
  lemma VersionReadsBack(prefix: string, v: Version, rest: string, name: string)
    requires prefix + Fmt(v) + "-" + rest == name
    ensures ParseBare(name[|prefix|..][..IndexOf(name[|prefix|..], '-')]) == Some(v)
  {
    FmtCharacters(v);
    assert name[|prefix|..] == Fmt(v) + ['-'] + rest;
    IndexOfConcat(Fmt(v), '-', rest);
    ParseOfFmt(v);
  }

  lemma StemTellsVersion(prefix: string, a: Version, b: Version, name: string)
    requires prefix + Fmt(a) + "-" <= name && prefix + Fmt(b) + "-" <= name
    ensures a == b
  {
    var stemA, stemB := prefix + Fmt(a) + "-", prefix + Fmt(b) + "-";
    assert stemA + name[|stemA|..] == name;
    assert stemB + name[|stemB|..] == name;
    VersionReadsBack(prefix, a, name[|stemA|..], name);
    VersionReadsBack(prefix, b, name[|stemB|..], name);
  }

  lemma WheelStemTail(v: Version, name: string)
    requires WheelStem(v) <= name
    ensures WHEEL_PREFIX + Fmt(v) + "-" <= name
  {
  }

  /** Names of different AgentCore versions never collide. */
  lemma NamesNeverCollide(name: string, a: Version, b: Version)
    requires IsAgentCoreAsset(name) && NamesVersion(name, a) && NamesVersion(name, b)
    ensures a == b
  {
    if IsArchive(name) {
      StemTellsVersion(ARCHIVE_PREFIX, a, b, name);
    } else if IsWheel(name) {
      WheelStemTail(a, name);
      WheelStemTail(b, name);
      StemTellsVersion(WHEEL_PREFIX, a, b, name);
    } else {
      StemTellsVersion(NODE_PREFIX, a, b, name);
    }
  }

  // ---------------------------------------------------------------- fetching a reused AgentCore

  /** A platform: its target id and its wheel's platform tag. */
  datatype Target = Target(id: string, tag: string) {
    predicate IsWindows() {
      Contains(id, "-windows-")
    }
  }

  function ArchiveName(v: Version, target: Target): string {
    ArchiveStem(v) + target.id + if target.IsWindows() then ".zip" else ".tar.gz"
  }

  function WheelName(v: Version, target: Target): string {
    WheelStem(v) + target.tag + WHEEL_SUFFIX
  }

  function NodeName(v: Version, target: Target): string {
    NodeStem(v) + target.id + ".tgz"
  }

  lemma ArchiveNamesTheVersion(v: Version, target: Target)
    ensures IsAgentCoreAsset(ArchiveName(v, target)) && NamesVersion(ArchiveName(v, target), v)
  {
    hide Fmt;
    var archive := ArchiveName(v, target);
    assert archive[4] == 's' && NODE_PREFIX[4] == 'c';
    assert archive[|archive| - 1] != 'l' && WHEEL_SUFFIX[|WHEEL_SUFFIX| - 1] == 'l';
    assert ArchiveStem(v) <= archive;
  }

  lemma FmtIsNotEmpty(v: Version)
    ensures Fmt(v) != ""
  {
  }

  lemma WheelNamesTheVersion(v: Version, target: Target)
    ensures IsAgentCoreAsset(WheelName(v, target)) && NamesVersion(WheelName(v, target), v)
  {
    FmtCharacters(v);
    FmtIsNotEmpty(v);
    hide Fmt;
    var wheel := WheelName(v, target);
    assert wheel[4] == 'c' && ARCHIVE_PREFIX[4] == 's';
    assert wheel[10] == Fmt(v)[0] && NODE_PREFIX[10] == 'n' && Fmt(v)[0] in Fmt(v);
    assert WheelStem(v) <= wheel;
    assert wheel[|wheel| - |WHEEL_SUFFIX|..] == WHEEL_SUFFIX;
  }

  lemma NodeNamesTheVersion(v: Version, target: Target)
    ensures IsAgentCoreAsset(NodeName(v, target)) && NamesVersion(NodeName(v, target), v)
  {
    hide Fmt;
    var node := NodeName(v, target);
    assert node[4] == 'c' && ARCHIVE_PREFIX[4] == 's';
    assert node[|node| - 1] == 'z' && WHEEL_SUFFIX[|WHEEL_SUFFIX| - 1] == 'l';
    assert NodeStem(v) <= node;
  }

  /** Whatever the target, the names a reuse asks for are AgentCore's and name its version. */
  lemma TargetNamesNameTheVersion(v: Version, target: Target)
    ensures forall name <- [ArchiveName(v, target), WheelName(v, target), NodeName(v, target)] ::
              IsAgentCoreAsset(name) && NamesVersion(name, v)
  {
    hide Fmt, ArchiveName, WheelName, NodeName, NamesVersion, IsAgentCoreAsset;
    ArchiveNamesTheVersion(v, target);
    WheelNamesTheVersion(v, target);
    NodeNamesTheVersion(v, target);
  }

  /** The assets of one target that a reuse delivers, when the builder published them. */
  function ReusedNames(v: Version, target: Target, sums: Sums): Option<seq<string>> {
    var archive, wheel, node := ArchiveName(v, target), WheelName(v, target), NodeName(v, target);
    if archive !in sums || wheel !in sums then None
    else if node in sums then Some([archive, wheel, node])
    else if target.IsWindows() then Some([archive, wheel])
    else None
  }

  function EntriesOf(names: seq<string>, sums: Sums): Sums {
    map name | name in names && name in sums :: sums[name]
  }

  lemma OneMoreEntry(before: Sums, names: seq<string>, name: string, sums: Sums)
    requires name in sums
    ensures (before + EntriesOf(names, sums))[name := sums[name]] == before + EntriesOf(names + [name], sums)
  {
  }

  lemma NoEntries(before: Sums, sums: Sums)
    ensures before + EntriesOf([], sums) == before
  {
  }

  /** Those assets with the builder's digests. */
  function FetchedOf(v: Version, target: Target, sums: Sums): Option<Sums> {
    match ReusedNames(v, target, sums)
    case None => None
    case Some(names) => Some(EntriesOf(names, sums))
  }

  lemma FetchedNames(v: Version, target: Target, sums: Sums)
    ensures FetchedOf(v, target, sums).Some? ==>
              forall name :: name in FetchedOf(v, target, sums).value <==> name in ReusedNames(v, target, sums).value
  {
    hide ArchiveName, WheelName, NodeName;
  }

  datatype FetchError = Missing(name: string) | Damaged(name: string)

  /** The release directory one job fills. */
  class Dist {
    var files: Sums

    constructor ()
      ensures files == map[]
    {
      files := map[];
    }

    /** The inner `fetch`: a download that is not the file its checksum names is removed. */
    method Fetch(name: string, sums: Sums, download: string -> string) returns (error: Option<FetchError>)
      modifies this
      ensures error.None? ==> name in sums && download(name) == sums[name] && files == old(files)[name := sums[name]]
      ensures error.Some? ==>
                && (name in sums ==> download(name) != sums[name])
                && files == old(files) - (if name in sums then {name} else {})
    {
      if name !in sums { return Some(Missing(name)); }
      files := files[name := download(name)];
      if files[name] != sums[name] {
        files := files - {name};
        return Some(Damaged(name));
      }
      error := None;
    }

    /** `fetch_reused` for one target: all of its assets with the builder's digests, or
        a refusal after which only such assets were added. */
    method FetchReused(v: Version, target: Target, sums: Sums, download: string -> string)
      returns (r: Result<seq<string>, FetchError>)
      modifies this
      ensures r.Success? <==> FetchedOf(v, target, sums).Some?
                              && forall name <- FetchedOf(v, target, sums).value :: download(name) == sums[name]
      ensures r.Success? ==> r.value == ReusedNames(v, target, sums).value
      ensures r.Success? ==> files == old(files) + FetchedOf(v, target, sums).value
      ensures forall name :: name in files ==> (name in sums && files[name] == sums[name])
                                               || (name in old(files) && files[name] == old(files)[name])
    {
      hide ArchiveName, WheelName, NodeName, EntriesOf;
      var archive, wheel, node := ArchiveName(v, target), WheelName(v, target), NodeName(v, target);
      var made := [];
      FetchedNames(v, target, sums);
      NoEntries(files, sums);
      var error := Fetch(archive, sums, download);
      if error.Some? { return Failure(error.value); }
      OneMoreEntry(old(files), made, archive, sums);
      made := made + [archive];
      error := Fetch(wheel, sums, download);
      if error.Some? { return Failure(error.value); }
      OneMoreEntry(old(files), made, wheel, sums);
      made := made + [wheel];
      if node in sums {
        error := Fetch(node, sums, download);
        if error.Some? { return Failure(error.value); }
        OneMoreEntry(old(files), made, node, sums);
        made := made + [node];
      } else if !target.IsWindows() {
        return Failure(Missing(node));
      }
      r := Success(made);
    }
  }

  /** What a reuse delivers for all targets: the builder's own entries. */
  function FetchedAll(v: Version, targets: seq<Target>, sums: Sums): Option<Sums> {
    if targets == [] then Some(map[]) else
      var rest, first := FetchedAll(v, targets[1..], sums), FetchedOf(v, targets[0], sums);
      if rest.None? || first.None? then None else Some(rest.value + first.value)
  }

  lemma {:induction false} FetchedIsTheBuilders(v: Version, targets: seq<Target>, sums: Sums)
    ensures var fetched := FetchedAll(v, targets, sums);
            fetched.Some? ==>
              forall name <- fetched.value :: name in sums && fetched.value[name] == sums[name]
  {
    if targets == [] {
    } else {
      FetchedIsTheBuilders(v, targets[1..], sums);
    }
  }

  // ---------------------------------------------------------------- the door

  predicate Agree(a: Sums, b: Sums) {
    forall name | name in a && name in b :: a[name] == b[name]
  }

  datatype Asset = Asset(name: string, digest: string)

  predicate InConflict(asset: Asset, history: seq<Sums>) {
    exists sums <- history :: asset.name in sums && sums[asset.name] != asset.digest
  }

  function ConflictingNames(assets: seq<Asset>, history: seq<Sums>): seq<string> {
    if assets == [] then []
    else
      var init, last := assets[..|assets| - 1], assets[|assets| - 1];
      ConflictingNames(init, history) + if InConflict(last, history) then [last.name] else []
  }

  lemma {:induction false} NoConflictingNames(assets: seq<Asset>, history: seq<Sums>)
    ensures ConflictingNames(assets, history) == [] <==> forall asset <- assets :: !InConflict(asset, history)
  {
    if assets == [] {
    } else {
      var init, last := assets[..|assets| - 1], assets[|assets| - 1];
      assert assets == init + [last];
      NoConflictingNames(init, history);
    }
  }

  predicate HistoryAgrees(history: seq<Sums>) {
    forall i, j | 0 <= i < j < |history| :: Agree(history[i], history[j])
  }

  /** Everything published so far, by name. */
  function Published(history: seq<Sums>): Sums {
    if history == [] then map[] else Published(history[..|history| - 1]) + history[|history| - 1]
  }

  lemma {:induction false} PublishedMeaning(history: seq<Sums>, name: string)
    requires HistoryAgrees(history)
    ensures name in Published(history) <==> exists sums <- history :: name in sums
    ensures forall sums <- history :: name in sums ==> Published(history)[name] == sums[name]
  {
    if history == [] {
    } else {
      var init, last := history[..|history| - 1], history[|history| - 1];
      assert HistoryAgrees(init);
      PublishedMeaning(init, name);
      assert forall sums :: sums in history <==> sums in init || sums == last;
      assert Published(history) == Published(init) + last;
      forall sums | sums in init && name in sums && name in last ensures sums[name] == last[name] {
        var k :| 0 <= k < |init| && init[k] == sums;
        assert Agree(history[k], history[|history| - 1]);
      }
    }
  }

  /** The history goes on agreeing exactly when the next sums agree with all before. */
  lemma AgreesWithAll(history: seq<Sums>, sums: Sums)
    requires HistoryAgrees(history)
    ensures HistoryAgrees(history + [sums]) <==> Agree(Published(history), sums)
  {
    var longer := history + [sums];
    forall name { PublishedMeaning(history, name); }
    if Agree(Published(history), sums) {
      forall i, j | 0 <= i < j < |longer| ensures Agree(longer[i], longer[j]) {
        if j == |history| { assert longer[i] in history; } else { assert Agree(history[i], history[j]); }
      }
    }
    if HistoryAgrees(longer) {
      forall name | name in Published(history) && name in sums ensures Published(history)[name] == sums[name] {
        var earlier :| earlier in history && name in earlier;
        var k :| 0 <= k < |history| && history[k] == earlier;
        assert Agree(longer[k], longer[|history|]);
      }
    }
  }

  lemma BeginningAgrees(history: seq<Sums>, k: nat)
    requires k <= |history|
    ensures HistoryAgrees(history) ==> HistoryAgrees(history[..k])
  {
  }

  method Merge(published: Sums, sums: Sums) returns (r: Result<Sums, string>)
    ensures r.Success? ==> Agree(published, sums) && r.value == published + sums
    ensures r.Failure? ==> r.error in published && r.error in sums && published[r.error] != sums[r.error]
  {
    var merged, pending := published, sums.Keys;
    while pending != {}
      invariant pending <= sums.Keys
      invariant merged.Keys == published.Keys + (sums.Keys - pending)
      invariant forall name | name in sums && name !in pending :: merged[name] == sums[name]
      invariant forall name | name in published :: merged[name] == published[name]
    {
      var name :| name in pending;
      if name in merged && merged[name] != sums[name] { return Failure(name); }
      merged := merged[name := sums[name]];
      pending := pending - {name};
    }
    r := Success(merged);
  }

  /** The first loop of `check_published`: every published name with its one digest, or the
      name on which the history contradicts itself. */
  method ReadHistory(history: seq<Sums>) returns (r: Result<Sums, string>)
    ensures r.Success? <==> HistoryAgrees(history)
    ensures r.Success? ==> r.value == Published(history)
  {
    var published: Sums := map[];
    for i := 0 to |history|
      invariant HistoryAgrees(history[..i])
      invariant published == Published(history[..i])
    {
      hide HistoryAgrees;
      assert history[..i + 1] == history[..i] + [history[i]] && history[..i + 1][..i] == history[..i];
      AgreesWithAll(history[..i], history[i]);
      BeginningAgrees(history, i + 1);
      var merged := Merge(published, history[i]);
      if merged.Failure? {
        assert !Agree(published, history[i]);
        return Failure(merged.error);
      }
      published := merged.value;
    }
    assert history[..|history|] == history;
    r := Success(published);
  }

  /** `check_published`: a history that already contradicts itself stops the release;
      otherwise exactly the assets published with other contents are reported, in order. */
  method CheckPublished(assets: seq<Asset>, history: seq<Sums>) returns (r: Result<seq<string>, string>)
    ensures r.Success? <==> HistoryAgrees(history)
    ensures r.Success? ==> r.value == ConflictingNames(assets, history)
  {
    hide HistoryAgrees;
    var known := ReadHistory(history);
    if known.Failure? { return Failure(known.error); }
    var published := known.value;
    var findings := [];
    for i := 0 to |assets|
      invariant findings == ConflictingNames(assets[..i], history)
    {
      var asset := assets[i];
      assert assets[..i + 1][..i] == assets[..i];
      if asset.name in published && published[asset.name] != asset.digest {
        findings := findings + [asset.name];
      }
      PublishedMeaning(history, asset.name);
      assert InConflict(asset, history) <==> asset.name in published && published[asset.name] != asset.digest;
    }
    assert assets[..|assets|] == assets;
    r := Success(findings);
  }
}
