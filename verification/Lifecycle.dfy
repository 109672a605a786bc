/** The repository over time: development edits, cuts, tags, publications and reopens
    in any order, and what holds in every state such a run can reach. */
module Lifecycle {
  import opened Results
  import opened Versions
  import opened Ledgers
  import opened Trees
  import opened Cuts
  import opened Effects
  import opened Publishing

  /** A tagged main release; tags older than the ledger carry none. */
  datatype Tag = Tag(version: Version, ledger: Option<Ledger>)

  /** What is committed, the maintainer's checkout of it, the tags and the published releases. */
  datatype State = State(tree: Tree, work: Tree, tags: seq<Tag>, published: map<Version, Sums>)

  datatype Event =
    | Edit(after: Tree)
    | CutRelease(request: Request)
    | TagRelease
    | Publish(main: Version, units: Sums, built: Sums, targets: seq<Target>)
    | Reopen(level: Level, agentcoreLevel: Level)
    | Restore

  function LastTag(s: State): Tag
    requires s.tags != []
  {
    s.tags[|s.tags| - 1]
  }

  // ---------------------------------------------------------------- steps

  /** A change merged between releases: the ledger stays, versions keep `-dev` and at most
      rise, every package follows, and the interface mirrors agree. */
  predicate EditAllowed(t: Tree, after: Tree) {
    && MainVersion(t).Some? && MainVersion(t).value.Dev? && t.sdkVersion.Dev?
    && after.ledger == t.ledger
    && after.sdkVersion.Dev? && AtMost(t.sdkVersion.v, after.sdkVersion.v)
    && PackageFindings(after) == []
    && AbiRevisionOf(Files(after)).Success?
    && MainVersion(after).Some? && MainVersion(after).value.Dev?
    && AtMost(MainVersion(t).value.v, MainVersion(after).value.v)
    && MainFilesSay(after, MainVersion(after).value)
  }

  function FindTag(tags: seq<Tag>, version: Version): Option<Tag> {
    if tags == [] then None
    else if tags[0].version == version then Some(tags[0])
    else FindTag(tags[1..], version)
  }

  /** `release_mode`: the main release to fetch AgentCore from, when it is an earlier one. */
  function ReleaseMode(ledger: Ledger, main: VersionText): Option<Option<VersionText>> {
    if IsDevText(main) then Some(None) else
      match ledger.ByMainRelease(main)
      case None => None
      case Some(entry) =>
        if entry.mainReleases == [] then None
        else Some(if entry.BuiltBy() == main then None else Some(entry.BuiltBy()))
  }

  /** AgentCore's assets for main release `main`: built under the entry's version, or
      fetched from the release that built it. */
  function AgentCoreAssets(s: State, ledger: Ledger, main: Version, built: Sums, targets: seq<Target>): Option<Sums> {
    var entry, mode := ledger.ByMainRelease(Final(main)), ReleaseMode(ledger, Final(main));
    if entry.None? || !entry.value.version.Final? || mode.None? then None
    else if mode.value.None? then
      if forall name <- built :: IsAgentCoreAsset(name) && NamesVersion(name, entry.value.version.v)
      then Some(built) else None
    else if mode.value.value.Final? && mode.value.value.v in s.published then
      FetchedAll(entry.value.version.v, targets, s.published[mode.value.value.v])
    else None
  }

  /** `check_published` over the whole history finds nothing. */
  predicate DoorOpen(assets: Sums, published: map<Version, Sums>) {
    forall m <- published :: Agree(assets, published[m])
  }

  /** `assets` are the files and digests of `sums`, in some order. */
  predicate AreAssetsOf(assets: seq<Asset>, sums: Sums) {
    && (forall asset <- assets :: asset.name in sums && sums[asset.name] == asset.digest)
    && (forall name <- sums :: Asset(name, sums[name]) in assets)
  }

  /** `history` is what was published, in some order. */
  predicate IsHistoryOf(history: seq<Sums>, published: map<Version, Sums>) {
    && (forall sums <- history :: exists m <- published :: published[m] == sums)
    && (forall m <- published :: published[m] in history)
  }

  /** The door is open exactly when the check reports nothing. */
  lemma DoorIsTheCheck(assets: seq<Asset>, sums: Sums, history: seq<Sums>, published: map<Version, Sums>)
    requires AreAssetsOf(assets, sums) && IsHistoryOf(history, published)
    ensures DoorOpen(sums, published) <==> ConflictingNames(assets, history) == []
  {
    NoConflictingNames(assets, history);
    if ConflictingNames(assets, history) == [] {
      forall m, name | m in published && name in sums && name in published[m] ensures sums[name] == published[m][name] {
        assert !InConflict(Asset(name, sums[name]), history);
      }
    }
    if DoorOpen(sums, published) {
      forall asset | asset in assets ensures !InConflict(asset, history) {
        forall old' | old' in history && asset.name in old' ensures old'[asset.name] == asset.digest {
          var m :| m in published && published[m] == old';
          assert Agree(sums, published[m]);
        }
      }
    }
  }

  /** A command that succeeded is committed; one that was refused leaves the checkout as it
      stopped, maybe half rewritten. */
  function AfterCommand<T>(s: State, done: Outcome<T>): State {
    if done.result.Success? then s.(tree := done.tree, work := done.tree) else s.(work := done.tree)
  }

  /** The release the tree carries has its tag. */
  predicate IsTagged(s: State) {
    var main := MainVersion(s.tree);
    main.Some? && main.value.Final? && FindTag(s.tags, main.value.v).Some?
  }

  /** One step, or nothing when it cannot be taken: the commands start only from a clean
      checkout of what is committed, so a refused one has to be undone first. */
  function Next(s: State, e: Event, tools: Tools): Option<State>
    requires s.tags != []
  {
    match e
    case Edit(after) =>
      if !EditAllowed(s.tree, after) then None
      else Some(s.(tree := after, work := if s.work == s.tree then after else s.work))
    case CutRelease(request) =>
      if s.work != s.tree then None
      else Some(AfterCommand(s, CommandCut(s.tree, Final(LastTag(s).version), request, tools)))
    case TagRelease =>
      var main := MainVersion(s.tree);
      if main.Some? && main.value.Final? && FindTag(s.tags, main.value.v).None?
      then Some(s.(tags := s.tags + [Tag(main.value.v, Some(s.tree.ledger))])) else None
    case Reopen(level, agentcoreLevel) =>
      if s.work != s.tree then None
      else Some(AfterCommand(s, CommandReopen(s.tree, level, agentcoreLevel, IsTagged(s), tools)))
    case Restore =>
      Some(s.(work := s.tree))
    case Publish(main, units, built, targets) =>
      var tag := FindTag(s.tags, main);
      if tag.None? || tag.value.ledger.None? || main in s.published then None else
        var assets := AgentCoreAssets(s, tag.value.ledger.value, main, built, targets);
        if assets.None? || (exists name <- units :: IsAgentCoreAsset(name)) then None
        else if !DoorOpen(units + assets.value, s.published) then None
        else Some(s.(published := s.published[main := units + assets.value]))
  }

  /** A run: steps that cannot be taken change nothing. */
  function Run(s: State, events: seq<Event>, tools: Tools): (r: State)
    requires s.tags != []
    ensures r.tags != []
    decreases |events|
  {
    if events == [] then s else
      var next := Next(s, events[0], tools);
      Run(if next.Some? then next.value else s, events[1..], tools)
  }

  predicate HistoryAgreesEverywhere(published: map<Version, Sums>) {
    forall a, b | a in published && b in published :: Agree(published[a], published[b])
  }

  predicate HasAgentCore(sums: Sums) {
    exists name <- sums :: IsAgentCoreAsset(name)
  }

  predicate TagsAscend(tags: seq<Tag>) {
    forall i, j | 0 <= i < j < |tags| :: Less(tags[i].version, tags[j].version)
  }

  /** Where a run starts: a `-dev` tree with an empty ledger, above all old tags, and an
      agreeing history of releases that carried no AgentCore. */
  predicate Initial(s: State) {
    && s.tags != [] && TagsAscend(s.tags) && (forall tag <- s.tags :: tag.ledger.None?)
    && HistoryAgreesEverywhere(s.published) && (forall m <- s.published :: !HasAgentCore(s.published[m]))
    && s.tree.ledger == Ledger([])
    && s.tree.sdkVersion.Dev? && PackageFindings(s.tree) == []
    && AbiRevisionOf(Files(s.tree)).Success?
    && MainVersion(s.tree).Some? && MainVersion(s.tree).value.Dev?
    && MainFilesSay(s.tree, MainVersion(s.tree).value)
    && Less(LastTag(s).version, MainVersion(s.tree).value.v)
  }

  // ---------------------------------------------------------------- the invariant

  /** The input trees a run starts from and edits to. */
  ghost function InputsSeen(s: State, events: seq<Event>): set<Inputs> {
    {InputsOf(Files(s.tree))} + set e | e in events && e.Edit? :: InputsOf(Files(e.after))
  }

  ghost predicate EditsAmong(events: seq<Event>, seen: set<Inputs>) {
    forall e <- events :: e.Edit? ==> InputsOf(Files(e.after)) in seen
  }

  /** Each entry's interface revision is the one its inputs declare. */
  predicate RevisionsRecorded(ledger: Ledger, hash: Hash, seen: set<Inputs>) {
    forall k, inputs | 0 <= k < |ledger.releases| && inputs in seen && hash(inputs) == ledger.releases[k].inputDigest ::
      AbiRevisionOf(inputs).Success? && AbiRevisionOf(inputs).value == ledger.releases[k].abiRevision
  }

  /** What the versions and the ledger of the checkout say about each other. */
  predicate TreeConsistent(t: Tree, hash: Hash) {
    && t.ledger.Valid() && t.sdkVersion.IsVersion() && PackageFindings(t) == []
    && AbiRevisionOf(Files(t)).Success?
    && MainVersion(t).Some? && MainVersion(t).value.IsVersion() && MainFilesSay(t, MainVersion(t).value)
    && MainVersion(t).value.Dev? == t.sdkVersion.Dev?
    && (t.ledger.releases != [] ==>
          var latest := t.ledger.releases[|t.ledger.releases| - 1];
          && latest.version.Final? && latest.mainReleases != []
          && (if t.sdkVersion.Dev? then Less(latest.version.v, t.sdkVersion.v)
              else
                && latest.version == t.sdkVersion
                && latest.mainReleases[|latest.mainReleases| - 1] == MainVersion(t).value
                && latest.abiRevision == AbiRevisionOf(Files(t)).value
                && latest.inputDigest == InputDigest(t, hash)))
    && (t.sdkVersion.Final? ==> t.ledger.releases != [])
  }

  /** A tag's ledger is valid, ends in the tagged release, and only grew since. */
  predicate TagKept(tag: Tag, ledger: Ledger) {
    tag.ledger.Some? ==>
      && tag.ledger.value.Valid() && tag.ledger.value.releases != []
      && LastMain(tag.ledger.value.releases) == Some(tag.version)
      && Grows(tag.ledger.value, ledger)
  }

  /** The tree is at the last tag's release, on the way to a new one, or past it. */
  predicate TagsFit(s: State)
    requires s.tags != [] && MainVersion(s.tree).Some? && MainVersion(s.tree).value.IsVersion()
  {
    var main, last := MainVersion(s.tree).value, LastTag(s).version;
    && (main.Dev? ==> Less(last, main.v))
    && (main.Final? ==> main.v == last || Less(last, main.v))
    && (LastMain(s.tree.ledger.releases).Some? ==>
          var recorded := LastMain(s.tree.ledger.releases).value;
          if main.Final? then recorded == main.v else AtMost(recorded, last))
  }

  predicate Inv(s: State, tools: Tools, seen: set<Inputs>) {
    && s.tags != []
    && TreeConsistent(s.tree, tools.hash)
    && RevisionsRecorded(s.tree.ledger, tools.hash, seen) && InputsOf(Files(s.tree)) in seen
    && TagsAscend(s.tags)
    && (forall tag <- s.tags :: TagKept(tag, s.tree.ledger))
    && TagsFit(s)
  }

  /** Where a run may start: in any state with the invariant, when the input trees that the
      run sees have digests of their own. */
  ghost predicate MayStart(s: State, events: seq<Event>, tools: Tools) {
    var seen := InputsSeen(s, events);
    s.tags != [] && Inv(s, tools, seen) && CollisionFree(tools.hash, seen)
  }
}
