/** Which commits a bundle may be archived from. */
module Channels {
  import opened Results
  import opened Versions
  import opened Ledgers
  import opened Lifecycle

  datatype Kind = AgentCoreBundle | CliBundle

  datatype Channel = Pre | Stable

  datatype Bundle = Bundle(kind: Kind, channel: Channel, version: VersionText, dirty: Option<bool>,
                           commit: Option<string>)

  /** What the gate asks of the repository; `builtBy` is the ledger's answer for the version. */
  datatype GitFacts = GitFacts(headTag: Option<VersionText>, headCommit: Option<string>, builtBy: Option<VersionText>)

  datatype ChannelError = DevelopmentOnRelease | NotClean | NotTagged | BuiltElsewhere | NotItsTag

  predicate IsCleanAt(b: Bundle, facts: GitFacts) {
    b.dirty == Some(false) && b.commit.Some? && b.commit == facts.headCommit
  }

  /** `enforce_channel` */
  function EnforceChannel(b: Bundle, facts: GitFacts): Option<ChannelError> {
    match (b.channel, b.kind)
    case (Pre, AgentCoreBundle) =>
      if facts.headTag.Some? && facts.headTag.value.Final? then Some(DevelopmentOnRelease) else None
    case (Pre, CliBundle) => None
    case (Stable, AgentCoreBundle) =>
      if !IsCleanAt(b, facts) then Some(NotClean)
      else if facts.headTag.None? || !facts.headTag.value.Final? then Some(NotTagged)
      else if facts.builtBy != facts.headTag then Some(BuiltElsewhere)
      else None
    case (Stable, CliBundle) =>
      if b.dirty != Some(false) then Some(NotClean)
      else if facts.headTag != Some(b.version) then Some(NotItsTag)
      else None
  }

  /** The facts at a tagged release whose ledger is `ledger`. */
  function FactsAt(ledger: Ledger, tag: VersionText, head: string, version: VersionText): GitFacts {
    var entry := ledger.ByVersion(version);
    GitFacts(Some(tag), Some(head),
             if entry.Some? && entry.value.mainReleases != [] then Some(entry.value.BuiltBy()) else None)
  }

  lemma {:induction false} VersionAt(rs: seq<Release>, version: VersionText)
    ensures FirstOfVersion(rs, version).Some? ==>
              FirstOfVersion(rs, version).value in rs && FirstOfVersion(rs, version).value.version == version
  {
    if rs == [] || rs[0].version == version {
    } else {
      VersionAt(rs[1..], version);
    }
  }

  lemma {:induction false} VersionListed(rs: seq<Release>, entry: Release)
    requires entry in rs
    ensures FirstOfVersion(rs, entry.version).Some?
  {
    if rs[0].version == entry.version {
    } else {
      VersionListed(rs[1..], entry);
    }
  }

  lemma EntryByVersion(ledger: Ledger, entry: Release)
    requires ledger.Valid() && entry in ledger.releases
    ensures ledger.ByVersion(entry.version) == Some(entry) && entry.mainReleases != []
  {
    var rs := ledger.releases;
    ValidIffConsistent(rs);
    VersionAt(rs, entry.version);
    VersionListed(rs, entry);
    var i :| 0 <= i < |rs| && rs[i] == entry;
    var j :| 0 <= j < |rs| && rs[j] == FirstOfVersion(rs, entry.version).value;
    VersionsDiffer(rs, i, j);
  }

  /** A clean stable AgentCore archive is let through at a release exactly when that
      release carries this version and the release job is told to build, not to reuse. */
  lemma ArchivedIffBuiltHere(ledger: Ledger, tag: VersionText, b: Bundle, head: string)
    requires ledger.Valid() && tag.Final? && b.kind.AgentCoreBundle? && b.channel.Stable?
    requires IsCleanAt(b, FactsAt(ledger, tag, head, b.version))
    ensures EnforceChannel(b, FactsAt(ledger, tag, head, b.version)).None? <==>
              && ledger.ByMainRelease(tag).Some?
              && ledger.ByMainRelease(tag).value.version == b.version
              && ReleaseMode(ledger, tag) == Some(None)
  {
    hide ValidReleases;
    var rs := ledger.releases;
    VersionAt(rs, b.version);
    CarrierAt(rs, tag);
    if ledger.ByVersion(b.version).Some? {
      var entry := ledger.ByVersion(b.version).value;
      EntryByVersion(ledger, entry);
      var k :| 0 <= k < |rs| && rs[k] == entry;
      CarriedByItsEntry(rs, k, entry.BuiltBy());
    }
    if ledger.ByMainRelease(tag).Some? {
      EntryByVersion(ledger, ledger.ByMainRelease(tag).value);
    }
  }

  /** As the ledger grows, one AgentCore version is never archived as stable from two main
      releases. */
  lemma OneReleaseArchivesAVersion(older: Ledger, newer: Ledger, a: VersionText, b: VersionText,
                                   first: Bundle, second: Bundle, headA: string, headB: string)
    requires Grows(older, newer) && first.version == second.version
    requires first.kind.AgentCoreBundle? && first.channel.Stable?
    requires second.kind.AgentCoreBundle? && second.channel.Stable?
    requires EnforceChannel(first, FactsAt(older, a, headA, first.version)).None?
    requires EnforceChannel(second, FactsAt(newer, b, headB, second.version)).None?
    ensures a == b
  {
    hide Grows;
    GrowthKeepsAnswers(older, newer, first.version, a);
  }
}
