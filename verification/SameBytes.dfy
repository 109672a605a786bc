/** One AgentCore version is one set of bytes, in every run of edits, cuts, tags,
    publications and reopens. */
module SameBytes {
  import opened Results
  import opened Versions
  import opened Ledgers
  import opened Trees
  import opened Cuts
  import opened Publishing
  import opened Lifecycle
  import opened LifecycleProofs

  ghost predicate IsTraced(published: map<Version, Sums>, ledger: Ledger, m: Version)
    requires m in published
  {
    var entry := ledger.ByMainRelease(Final(m));
    && entry.Some? && entry.value.version.Final? && entry.value.mainReleases != []
    && entry.value.BuiltBy().Final? && entry.value.BuiltBy().v in published
    && forall name | name in published[m] && IsAgentCoreAsset(name) ::
      && NamesVersion(name, entry.value.version.v)
      && name in published[entry.value.BuiltBy().v]
      && published[m][name] == published[entry.value.BuiltBy().v][name]
  }

  /** A published release's AgentCore assets, if it has any, name the version its ledger entry
      gives it, and are the ones the release that built that version published. */
  ghost predicate FromItsBuilder(published: map<Version, Sums>, ledger: Ledger, m: Version)
    requires m in published
  {
    HasAgentCore(published[m]) ==> IsTraced(published, ledger, m)
  }

  ghost predicate PublishedInv(s: State) {
    forall m <- s.published :: FromItsBuilder(s.published, s.tree.ledger, m)
  }

  lemma GrowthKeepsBuilders(published: map<Version, Sums>, older: Ledger, newer: Ledger, m: Version)
    requires m in published && Grows(older, newer) && FromItsBuilder(published, older, m)
    ensures FromItsBuilder(published, newer, m)
  {
    hide Grows, NamesVersion, IsAgentCoreAsset, HasAgentCore;
    if HasAgentCore(published[m]) {
      var main := Final(m);
      GrowthKeepsAnswers(older, newer, main, main);
      SameIdentityFields(older.ByMainRelease(main).value, newer.ByMainRelease(main).value);
    }
  }

  lemma MorePublishedKeepsBuilders(published: map<Version, Sums>, ledger: Ledger, m: Version, added: Version,
                                   sums: Sums)
    requires m in published && added !in published && FromItsBuilder(published, ledger, m)
    ensures FromItsBuilder(published[added := sums], ledger, m)
  {
  }

  // ---------------------------------------------------------------- one publication

  lemma {:induction false} FetchedAreAgentCore(v: Version, targets: seq<Target>, sums: Sums)
    ensures FetchedAll(v, targets, sums).Some? ==>
              forall name <- FetchedAll(v, targets, sums).value :: IsAgentCoreAsset(name)
  {
    if targets == [] {
    } else {
      FetchedAreAgentCore(v, targets[1..], sums);
      TargetNamesNameTheVersion(v, targets[0]);
    }
  }

  lemma TreeLedgerIsValid(s: State, tools: Tools, seen: set<Inputs>)
    requires Inv(s, tools, seen)
    ensures s.tree.ledger.Valid()
  {
  }

  lemma LastMainListed(rs: seq<Release>)
    requires rs != [] && LastMain(rs).Some?
    ensures Final(LastMain(rs).value) in rs[|rs| - 1].mainReleases
    ensures ValidReleases(rs) ==> rs[|rs| - 1].mainReleases[0].Final?
  {
    if ValidReleases(rs) {
      ValidIffConsistent(rs);
      assert WellShaped(rs[|rs| - 1]);
    }
  }

  /** The entry of a tagged release, as its own ledger and as the current one give it. */
  lemma TaggedEntry(s: State, tag: Tag, tools: Tools, seen: set<Inputs>)
    requires Inv(s, tools, seen) && tag in s.tags && tag.ledger.Some?
    ensures var old' := tag.ledger.value.ByMainRelease(Final(tag.version));
            var now := s.tree.ledger.ByMainRelease(Final(tag.version));
            && old'.Some? && now.Some?
            && old'.value.version.Final? && old'.value.mainReleases != [] && old'.value.BuiltBy().Final?
            && now.value.version == old'.value.version && now.value.mainReleases != []
            && now.value.BuiltBy() == old'.value.BuiltBy()
            && s.tree.ledger.ByMainRelease(now.value.BuiltBy()) == now
  {
    hide TreeConsistent, RevisionsRecorded, TagsAscend, TagsFit, Grows, ValidReleases;
    assert TagKept(tag, s.tree.ledger);
    assert s.tree.ledger.Valid() by { TreeLedgerIsValid(s, tools, seen); }
    var main, ledger := Final(tag.version), tag.ledger.value;
    var k := |ledger.releases| - 1;
    LatestIsFinal(ledger);
    LastMainListed(ledger.releases);
    CarriedByItsEntry(ledger.releases, k, main);
    GrowthKeepsAnswers(ledger, s.tree.ledger, main, main);
    var entry := s.tree.ledger.ByMainRelease(main).value;
    SameIdentityFields(ledger.releases[k], entry);
    CarrierAt(s.tree.ledger.releases, main);
    var j :| 0 <= j < |s.tree.ledger.releases| && s.tree.ledger.releases[j] == entry;
    assert entry.BuiltBy() in entry.mainReleases;
    CarriedByItsEntry(s.tree.ledger.releases, j, entry.BuiltBy());
  }

  /** What is published for AgentCore comes from the builder: this release, or an earlier
      one whose own assets are copied. */
  lemma NewAssetsFromTheBuilder(s: State, tag: Tag, built: Sums, targets: seq<Target>, tools: Tools, seen: set<Inputs>)
    requires Inv(s, tools, seen) && PublishedInv(s) && tag in s.tags && tag.ledger.Some?
    requires AgentCoreAssets(s, tag.ledger.value, tag.version, built, targets).Some?
    ensures var assets := AgentCoreAssets(s, tag.ledger.value, tag.version, built, targets).value;
            var entry := s.tree.ledger.ByMainRelease(Final(tag.version));
            && entry.Some? && entry.value.version.Final? && entry.value.mainReleases != []
            && entry.value.BuiltBy().Final?
            && (entry.value.BuiltBy().v == tag.version || entry.value.BuiltBy().v in s.published)
            && forall name | name in assets ::
                 && IsAgentCoreAsset(name) && NamesVersion(name, entry.value.version.v)
                 && (entry.value.BuiltBy().v != tag.version ==>
                       name in s.published[entry.value.BuiltBy().v]
                       && assets[name] == s.published[entry.value.BuiltBy().v][name])
  {
    hide Inv, IsAgentCoreAsset, NamesVersion, ReusedNames, FetchedAll;
    TaggedEntry(s, tag, tools, seen);
    var entry := s.tree.ledger.ByMainRelease(Final(tag.version)).value;
    var builder := entry.BuiltBy();
    if builder.v != tag.version {
      var sums := s.published[builder.v];
      FetchedIsTheBuilders(entry.version.v, targets, sums);
      FetchedAreAgentCore(entry.version.v, targets, sums);
      assert FromItsBuilder(s.published, s.tree.ledger, builder.v);
    }
  }

  predicate IsSharedAsset(s: State, tag: Tag, built: Sums, targets: seq<Target>, m: Version, name: string)
    requires tag.ledger.Some? && m in s.published
    requires AgentCoreAssets(s, tag.ledger.value, tag.version, built, targets).Some?
  {
    name in AgentCoreAssets(s, tag.ledger.value, tag.version, built, targets).value && name in s.published[m]
  }

  lemma OneEntryPerVersion(s: State, a: VersionText, b: VersionText, tools: Tools, seen: set<Inputs>)
    requires Inv(s, tools, seen)
    requires s.tree.ledger.ByMainRelease(a).Some? && s.tree.ledger.ByMainRelease(b).Some?
    requires s.tree.ledger.ByMainRelease(a).value.version == s.tree.ledger.ByMainRelease(b).value.version
    ensures s.tree.ledger.ByMainRelease(a) == s.tree.ledger.ByMainRelease(b)
  {
    TreeLedgerIsValid(s, tools, seen);
    hide Inv;
    var rs := s.tree.ledger.releases;
    CarrierAt(rs, a);
    CarrierAt(rs, b);
    ValidIffConsistent(rs);
    var i :| 0 <= i < |rs| && rs[i] == FirstCarrying(rs, a).value;
    var j :| 0 <= j < |rs| && rs[j] == FirstCarrying(rs, b).value;
    VersionsDiffer(rs, i, j);
  }

  lemma SharedAssetIsReused(s: State, tag: Tag, built: Sums, targets: seq<Target>, m: Version, name: string,
                            tools: Tools, seen: set<Inputs>)
    requires Inv(s, tools, seen) && PublishedInv(s) && tag in s.tags && tag.ledger.Some?
    requires AgentCoreAssets(s, tag.ledger.value, tag.version, built, targets).Some?
    requires m in s.published && IsSharedAsset(s, tag, built, targets, m, name)
    ensures var entry := s.tree.ledger.ByMainRelease(Final(tag.version));
            && entry.Some? && entry.value.mainReleases != [] && entry.value.BuiltBy().Final?
            && entry.value.BuiltBy().v in s.published
            && (entry.value.BuiltBy().v != tag.version ==>
                  AgentCoreAssets(s, tag.ledger.value, tag.version, built, targets).value[name] == s.published[m][name])
  {
    hide Inv, IsAgentCoreAsset, NamesVersion, AgentCoreAssets;
    NewAssetsFromTheBuilder(s, tag, built, targets, tools, seen);
    assert FromItsBuilder(s.published, s.tree.ledger, m);
    var entry := s.tree.ledger.ByMainRelease(Final(tag.version)).value;
    var other := s.tree.ledger.ByMainRelease(Final(m)).value;
    NamesNeverCollide(name, entry.version.v, other.version.v);
    OneEntryPerVersion(s, Final(tag.version), Final(m), tools, seen);
  }

  /** AgentCore's assets never trip the door: each one that a reuse fetched agrees with every
      asset of its name published before, and a release's own build meets no published name
      at all, without looking at what the door itself refuses. */
  lemma AgentCoreNeverTripsTheDoor(s: State, tag: Tag, built: Sums, targets: seq<Target>, m: Version, tools: Tools,
                                   seen: set<Inputs>)
    requires Inv(s, tools, seen) && PublishedInv(s) && tag in s.tags && tag.ledger.Some?
    requires AgentCoreAssets(s, tag.ledger.value, tag.version, built, targets).Some?
    requires m in s.published
    ensures var mode := ReleaseMode(tag.ledger.value, Final(tag.version));
            var assets := AgentCoreAssets(s, tag.ledger.value, tag.version, built, targets).value;
            && mode.Some?
            && (mode.value.Some? || tag.version !in s.published ==> Agree(assets, s.published[m]))
            && (mode.value.None? && tag.version !in s.published ==> assets.Keys !! s.published[m].Keys)
  {
    hide Inv, IsAgentCoreAsset, NamesVersion, AgentCoreAssets;
    TaggedEntry(s, tag, tools, seen);
    if ReleaseMode(tag.ledger.value, Final(tag.version)).value.Some? || tag.version !in s.published {
      forall name | IsSharedAsset(s, tag, built, targets, m, name)
        ensures ReleaseMode(tag.ledger.value, Final(tag.version)).value.Some?
        ensures AgentCoreAssets(s, tag.ledger.value, tag.version, built, targets).value[name] == s.published[m][name]
      {
        SharedAssetIsReused(s, tag, built, targets, m, name, tools, seen);
      }
    }
  }

  // ---------------------------------------------------------------- runs

  /** The publication `main` adds, when the scripts let it through. */
  predicate Publishes(s: State, tag: Tag, units: Sums, built: Sums, targets: seq<Target>, sums: Sums) {
    && tag in s.tags && tag.ledger.Some? && tag.version !in s.published
    && (forall name <- units :: !IsAgentCoreAsset(name))
    && var assets := AgentCoreAssets(s, tag.ledger.value, tag.version, built, targets);
       assets.Some? && sums == units + assets.value && DoorOpen(sums, s.published)
  }

  lemma PublishIsOne(s: State, main: Version, units: Sums, built: Sums, targets: seq<Target>, tools: Tools)
    requires s.tags != [] && Next(s, Publish(main, units, built, targets), tools).Some?
    ensures var next := Next(s, Publish(main, units, built, targets), tools).value;
            && FindTag(s.tags, main).Some? && FindTag(s.tags, main).value.version == main
            && main in next.published
            && next == s.(published := s.published[main := next.published[main]])
            && Publishes(s, FindTag(s.tags, main).value, units, built, targets, next.published[main])
  {
    hide AgentCoreAssets, IsAgentCoreAsset;
    FoundTag(s.tags, main);
  }

  lemma OnlyAssetsCount(units: Sums, assets: Sums)
    requires forall name <- units :: !IsAgentCoreAsset(name)
    ensures forall name | name in units + assets && IsAgentCoreAsset(name) ::
              name in assets && (units + assets)[name] == assets[name]
  {
  }

  lemma PublicationFromItsBuilder(s: State, tag: Tag, units: Sums, built: Sums, targets: seq<Target>, sums: Sums,
                                  tools: Tools, seen: set<Inputs>)
    requires Inv(s, tools, seen) && PublishedInv(s) && Publishes(s, tag, units, built, targets, sums)
    ensures FromItsBuilder(s.published[tag.version := sums], s.tree.ledger, tag.version)
  {
    hide Inv, PublishedInv, IsAgentCoreAsset, NamesVersion, AgentCoreAssets, FirstCarrying, DoorOpen;
    NewAssetsFromTheBuilder(s, tag, built, targets, tools, seen);
    var assets := AgentCoreAssets(s, tag.ledger.value, tag.version, built, targets).value;
    OnlyAssetsCount(units, assets);
  }

  lemma PublicationAgrees(published: map<Version, Sums>, main: Version, sums: Sums)
    requires HistoryAgreesEverywhere(published) && DoorOpen(sums, published)
    ensures HistoryAgreesEverywhere(published[main := sums])
  {
  }

  lemma PublishKeepsPublishedInv(s: State, main: Version, units: Sums, built: Sums, targets: seq<Target>,
                                 tools: Tools, seen: set<Inputs>)
    requires s.tags != []
    requires Inv(s, tools, seen) && PublishedInv(s) && HistoryAgreesEverywhere(s.published)
    requires Next(s, Publish(main, units, built, targets), tools).Some?
    ensures var next := Next(s, Publish(main, units, built, targets), tools).value;
            PublishedInv(next) && HistoryAgreesEverywhere(next.published)
  {
    hide Inv, Next, AgentCoreAssets, FromItsBuilder, HistoryAgreesEverywhere;
    PublishIsOne(s, main, units, built, targets, tools);
    var next := Next(s, Publish(main, units, built, targets), tools).value;
    var tag := FindTag(s.tags, main).value;
    PublicationFromItsBuilder(s, tag, units, built, targets, next.published[main], tools, seen);
    PublicationAgrees(s.published, main, next.published[main]);
    forall m | m in next.published ensures FromItsBuilder(next.published, next.tree.ledger, m) {
      if m != main {
        MorePublishedKeepsBuilders(s.published, s.tree.ledger, m, main, next.published[main]);
      }
    }
  }

  lemma NextKeepsPublishedInv(s: State, e: Event, tools: Tools, seen: set<Inputs>)
    requires s.tags != []
    requires Inv(s, tools, seen) && PublishedInv(s) && HistoryAgreesEverywhere(s.published)
    requires CollisionFree(tools.hash, seen)
    requires EditsAmong([e], seen)
    ensures var next := Next(s, e, tools);
            next.Some? ==> PublishedInv(next.value) && HistoryAgreesEverywhere(next.value.published)
  {
    hide Inv, CommandCut, CommandReopen, EditAllowed, AgentCoreAssets, FromItsBuilder;
    if e.Publish? {
      if Next(s, e, tools).Some? {
        PublishKeepsPublishedInv(s, e.main, e.units, e.built, e.targets, tools, seen);
      }
    } else if Next(s, e, tools).Some? {
      NextKeepsInv(s, e, tools, seen);
      var next := Next(s, e, tools).value;
      forall m | m in next.published ensures FromItsBuilder(next.published, next.tree.ledger, m) {
        GrowthKeepsBuilders(s.published, s.tree.ledger, next.tree.ledger, m);
      }
    }
  }

  lemma {:induction false} RunsKeepPublishedInv(s: State, events: seq<Event>, tools: Tools, seen: set<Inputs>)
    requires s.tags != []
    requires Inv(s, tools, seen) && PublishedInv(s) && HistoryAgreesEverywhere(s.published)
    requires CollisionFree(tools.hash, seen)
    requires EditsAmong(events, seen)
    ensures var r := Run(s, events, tools);
            Inv(r, tools, seen) && PublishedInv(r) && HistoryAgreesEverywhere(r.published)
    decreases |events|
  {
    hide Next, Inv, PublishedInv, HistoryAgreesEverywhere;
    if events == [] {
    } else {
      NextKeepsInv(s, events[0], tools, seen);
      NextKeepsPublishedInv(s, events[0], tools, seen);
      var next := Next(s, events[0], tools);
      RunsKeepPublishedInv(if next.Some? then next.value else s, events[1..], tools, seen);
    }
  }

  /** Where a run may start with something published: whatever carries AgentCore comes from
      its builder, and no two releases disagree about a name. */
  ghost predicate MayStartPublished(s: State, events: seq<Event>, tools: Tools) {
    MayStart(s, events, tools) && PublishedInv(s) && HistoryAgreesEverywhere(s.published)
  }

  lemma InitialMayStartPublished(s: State, events: seq<Event>, tools: Tools)
    requires Initial(s) && CollisionFree(tools.hash, InputsSeen(s, events))
    ensures MayStartPublished(s, events, tools)
  {
    hide MayStart, CollisionFree, InputsSeen, MainVersion, PackageFindings, AbiRevisionOf, Files, Agree, IsTraced;
    InitialMayStart(s, events, tools);
  }

  lemma ReachablePublishedInv(s: State, events: seq<Event>, tools: Tools)
    requires MayStartPublished(s, events, tools)
    ensures var r := Run(s, events, tools);
            Inv(r, tools, InputsSeen(s, events)) && PublishedInv(r) && HistoryAgreesEverywhere(r.published)
  {
    hide Run, Inv, InputsSeen, CollisionFree, InputsOf, Files, EditsAmong, PublishedInv, HistoryAgreesEverywhere;
    var seen := InputsSeen(s, events);
    assert events + [] == events;
    SeenByTheRun(s, events, [], seen);
    RunsKeepPublishedInv(s, events, tools, seen);
  }

  lemma HistoryAgreesOn(published: map<Version, Sums>, a: Version, b: Version, name: string)
    requires HistoryAgreesEverywhere(published)
    requires a in published && b in published && name in published[a] && name in published[b]
    ensures published[a][name] == published[b][name]
  {
  }

  /** In every run, two published main releases deliver an AgentCore asset of one name
      only under one version, and with one digest; so do the whole published history's
      other assets. */
  lemma SameVersionSameBytes(s: State, events: seq<Event>, a: Version, b: Version, name: string, tools: Tools)
    requires MayStartPublished(s, events, tools)
    ensures var r := Run(s, events, tools);
            a in r.published && b in r.published && name in r.published[a] && name in r.published[b] ==>
              && r.published[a][name] == r.published[b][name]
              && (IsAgentCoreAsset(name) ==>
                    && r.tree.ledger.ByMainRelease(Final(a)).Some? && r.tree.ledger.ByMainRelease(Final(b)).Some?
                    && r.tree.ledger.ByMainRelease(Final(a)) == r.tree.ledger.ByMainRelease(Final(b)))
  {
    var seen := InputsSeen(s, events);
    hide Run, Inv, IsAgentCoreAsset, NamesVersion, FirstCarrying, InputsSeen, CollisionFree,
         HistoryAgreesEverywhere, Files, InputsOf;
    ReachablePublishedInv(s, events, tools);
    var r := Run(s, events, tools);
    if a in r.published && b in r.published && name in r.published[a] && name in r.published[b] {
      HistoryAgreesOn(r.published, a, b, name);
      if IsAgentCoreAsset(name) {
        assert FromItsBuilder(r.published, r.tree.ledger, a) && FromItsBuilder(r.published, r.tree.ledger, b);
        NamesNeverCollide(name, r.tree.ledger.ByMainRelease(Final(a)).value.version.v,
                          r.tree.ledger.ByMainRelease(Final(b)).value.version.v);
        OneEntryPerVersion(r, Final(a), Final(b), tools, seen);
      }
    }
  }

  lemma AssetsHaveAMode(s: State, ledger: Ledger, main: Version, built: Sums, targets: seq<Target>)
    requires AgentCoreAssets(s, ledger, main, built, targets).Some?
    ensures ReleaseMode(ledger, Final(main)).Some?
  {
    hide ReleaseMode, FirstCarrying, FetchedAll, IsAgentCoreAsset, NamesVersion;
  }

  /** In every run, no release is stopped at the door by its AgentCore assets: a reuse's are
      the builder's, and those of a release that builds are named as none published before. */
  lemma ReachableAgentCorePassesTheDoor(s: State, events: seq<Event>, main: Version, built: Sums,
                                        targets: seq<Target>, tools: Tools)
    requires MayStartPublished(s, events, tools)
    ensures var r := Run(s, events, tools);
            var tag := FindTag(r.tags, main);
            tag.Some? && tag.value.ledger.Some? ==>
              var mode := ReleaseMode(tag.value.ledger.value, Final(main));
              var assets := AgentCoreAssets(r, tag.value.ledger.value, main, built, targets);
              assets.Some? ==>
                && mode.Some?
                && (mode.value.Some? || main !in r.published ==> DoorOpen(assets.value, r.published))
                && (mode.value.None? && main !in r.published ==>
                      forall m <- r.published :: assets.value.Keys !! r.published[m].Keys)
  {
    var seen := InputsSeen(s, events);
    hide Run, Inv, AgentCoreAssets, PublishedInv, ReleaseMode, InputsSeen, CollisionFree, HistoryAgreesEverywhere,
         Agree;
    ReachablePublishedInv(s, events, tools);
    var r := Run(s, events, tools);
    var tag := FindTag(r.tags, main);
    FoundTag(r.tags, main);
    if tag.Some? && tag.value.ledger.Some? && AgentCoreAssets(r, tag.value.ledger.value, main, built, targets).Some? {
      AssetsHaveAMode(r, tag.value.ledger.value, main, built, targets);
      forall m | m in r.published
        ensures var mode := ReleaseMode(tag.value.ledger.value, Final(main));
                var assets := AgentCoreAssets(r, tag.value.ledger.value, main, built, targets).value;
                && mode.Some?
                && (mode.value.Some? || main !in r.published ==> Agree(assets, r.published[m]))
                && (mode.value.None? && main !in r.published ==> assets.Keys !! r.published[m].Keys)
      {
        AgentCoreNeverTripsTheDoor(r, tag.value, built, targets, m, tools, seen);
      }
    }
  }
}
