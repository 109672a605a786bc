/** One run with everything in it: a first cut, its publication, a reopen, an edit, a
    second cut that reuses AgentCore, and the publication of that reuse. */
module ReuseRun {
  import opened Results
  import opened Versions
  import opened Ledgers
  import opened Changelog
  import opened Trees
  import opened Cuts
  import opened Effects
  import opened Publishing
  import opened Lifecycle
  import opened LifecycleProofs
  import opened LifecycleCases
  import opened Examples

  const TARGET := Target("riscv64-linux-gnu", "manylinux_2_28_riscv64")

  function BuiltAssets(): Sums {
    map[ArchiveName(SDK, TARGET) := "archive", WheelName(SDK, TARGET) := "wheel", NodeName(SDK, TARGET) := "node"]
  }

  // ---------------------------------------------------------------- the checkouts along the run

  function Released(): Tree {
    CommandCut(FirstTree(), Final(Version(1, 1, 0)), FirstRequest(), SomeTools()).tree
  }

  function Reopened(): Tree {
    CommandReopen(Released(), Patch, Patch, true, SomeTools()).tree
  }

  function Edited(): Tree {
    WithEntry(Reopened())
  }

  function ReleasedAgain(): Tree {
    CommandCut(Edited(), Final(MAIN), FirstRequest(), SomeTools()).tree
  }

  function FirstTags(): seq<Tag> {
    FirstState().tags + [Tag(MAIN, Some(Released().ledger))]
  }

  function FirstEvents(): seq<Event> {
    [CutRelease(FirstRequest()), TagRelease, Publish(MAIN, map[], BuiltAssets(), [TARGET])]
  }

  function SecondEvents(): seq<Event> {
    [Reopen(Patch, Patch), Edit(Edited()), CutRelease(FirstRequest()), TagRelease,
     Publish(NEXT_MAIN, map[], map[], [TARGET])]
  }

  /** The first release is out. */
  function Between(): State {
    State(Released(), Released(), FirstTags(), map[MAIN := BuiltAssets()])
  }

  /** The second one as well, with the first one's AgentCore. */
  function Last(): State {
    State(ReleasedAgain(), ReleasedAgain(), FirstTags() + [Tag(NEXT_MAIN, Some(ReleasedAgain().ledger))],
          map[MAIN := BuiltAssets(), NEXT_MAIN := BuiltAssets()])
  }

  // ---------------------------------------------------------------- the steps

  lemma OneStep(s: State, events: seq<Event>, next: State)
    requires s.tags != [] && next.tags != [] && events != [] && Next(s, events[0], SomeTools()) == Some(next)
    ensures Run(s, events, SomeTools()) == Run(next, events[1..], SomeTools())
  {
    hide Next;
  }

  lemma NoStep(s: State)
    requires s.tags != []
    ensures Run(s, [], SomeTools()) == s
  {
  }

  lemma FirstStateIsInitial()
    ensures Initial(FirstState())
  {
    hide Files, AbiRevisionOf, AbiVersionOf, CurrentVersion, PackagesDeclareOnce, MainVersion, PackageFindings,
         MainFilesSay, HasAgentCore, Agree, ExampleTree, Log, Render, PythonText, NodeText;
    FirstTreeDeclares();
  }

  lemma FirstStateHasATag()
    ensures FirstState().tags != []
  {
  }

  lemma ReleaseIsNamed(t: Tree, main: Version, mains: seq<VersionText>)
    requires AtRelease(t, main, mains)
    ensures MainVersion(t) == Some(Final(main)) && CarriedBy(t.ledger, mains)
  {
    hide SameSources, PackageFindings, ValidReleases, EnsureUnreleased;
    MainFilesAreRead(t, Final(main));
  }

  /** AgentCore's assets of a release that carries the first version: built by 1.1.1,
      fetched from it by every later one. */
  lemma AssetsOf(s: State, ledger: Ledger, main: Version, mains: seq<VersionText>, built: Sums)
    requires CarriedBy(ledger, mains) && mains != [] && mains[0] == Final(MAIN) && Final(main) in mains
    requires main == MAIN ==> built == BuiltAssets()
    requires main != MAIN ==> MAIN in s.published && s.published[MAIN] == BuiltAssets()
    ensures ReleaseMode(ledger, Final(main)) == Some(if main == MAIN then None else Some(Final(MAIN)))
    ensures AgentCoreAssets(s, ledger, main, built, [TARGET]) == Some(BuiltAssets())
  {
    hide IsAgentCoreAsset, NamesVersion, ArchiveName, WheelName, NodeName;
    TargetNamesNameTheVersion(SDK, TARGET);
    var archive, wheel, node := ArchiveName(SDK, TARGET), WheelName(SDK, TARGET), NodeName(SDK, TARGET);
    assert forall name <- BuiltAssets() :: name in [archive, wheel, node];
    assert ReusedNames(SDK, TARGET, BuiltAssets()) == Some([archive, wheel, node]);
    assert [TARGET][1..] == [];
    assert FetchedAll(SDK, [], BuiltAssets()) == Some(map[]);
    assert FetchedAll(SDK, [TARGET], BuiltAssets()).value == BuiltAssets();
  }

  lemma NewTag(tags: seq<Tag>, tag: Tag)
    requires forall other <- tags :: other.version != tag.version
    ensures FindTag(tags, tag.version).None? && FindTag(tags + [tag], tag.version) == Some(tag)
  {
    FoundTag(tags, tag.version);
    FoundTag(tags + [tag], tag.version);
    assert (tags + [tag])[|tags|] == tag;
  }

  lemma TagsAreNew()
    ensures forall tag <- FirstState().tags :: tag.version != MAIN
    ensures forall tag <- FirstTags() :: tag.version != NEXT_MAIN
  {
  }

  lemma PublishStep(s: State, main: Version, ledger: Ledger, built: Sums, next: State)
    requires s.tags != [] && FindTag(s.tags, main) == Some(Tag(main, Some(ledger))) && main !in s.published
    requires AgentCoreAssets(s, ledger, main, built, [TARGET]) == Some(BuiltAssets())
    requires forall m <- s.published :: s.published[m] == BuiltAssets()
    requires next == s.(published := s.published[main := BuiltAssets()])
    ensures Next(s, Publish(main, map[], built, [TARGET]), SomeTools()) == Some(next)
  {
    hide AgentCoreAssets, IsAgentCoreAsset, BuiltAssets;
    assert map[] + BuiltAssets() == BuiltAssets();
  }

  /** The first cut, its tag and its publication all go through. */
  lemma AFirstReleaseExists()
    ensures Run(FirstState(), FirstEvents(), SomeTools()) == Between()
  {
    hide CommandCut, MainVersion, AgentCoreAssets, Run, BuiltAssets, FirstTree, FirstPlan, AtRelease, FindTag,
         CarriedBy, ReleaseMode;
    var s, events := FirstState(), FirstEvents();
    var cut := s.(tree := Released(), work := Released());
    var tagged := cut.(tags := FirstTags());
    FirstCutIsTaken();
    ReleaseIsNamed(Released(), MAIN, [Final(MAIN)]);
    OneStep(s, events, cut);
    TagsAreNew();
    NewTag(s.tags, Tag(MAIN, Some(Released().ledger)));
    OneStep(cut, events[1..], tagged);
    AssetsOf(tagged, Released().ledger, MAIN, [Final(MAIN)], BuiltAssets());
    PublishStep(tagged, MAIN, Released().ledger, BuiltAssets(), Between());
    OneStep(tagged, events[2..], Between());
    NoStep(Between());
    assert events[3..] == [];
  }

  lemma ReopenStep()
    ensures AtRelease(Released(), MAIN, [Final(MAIN)])
    ensures Next(Between(), Reopen(Patch, Patch), SomeTools())
            == Some(Between().(tree := Reopened(), work := Reopened()))
    ensures InDevelopment(Reopened()) && EnsureUnreleased(Reopened().sdkChangelog).Success?
  {
    hide CommandCut, CommandReopen, MainVersion, AtRelease, FindTag, CarriedBy, InDevelopment, FirstTree,
         FirstPlan, EnsureUnreleased;
    FirstCutIsTaken();
    ReleaseIsNamed(Released(), MAIN, [Final(MAIN)]);
    TagsAreNew();
    NewTag(FirstState().tags, Tag(MAIN, Some(Released().ledger)));
    ReopenIsTaken(Released());
  }

  lemma EditStep()
    ensures InDevelopment(Edited()) && EditAllowed(Reopened(), Edited())
    ensures InputsOf(Files(Edited())) == InputsOf(Files(FirstTree()))
    ensures AtRelease(ReleasedAgain(), NEXT_MAIN, [Final(MAIN), Final(NEXT_MAIN)])
    ensures CommandCut(Edited(), Final(MAIN), FirstRequest(), SomeTools()).result.Success?
  {
    hide CommandCut, CommandReopen, AtRelease, InDevelopment, EditAllowed, FirstTree, FirstPlan, InputsOf, Files,
         AbiRevisionOf, Log, EnsureUnreleased;
    ReopenStep();
    EntryMayBeAdded(Reopened(), Edited());
    SecondCutIsTaken(Edited());
  }

  lemma SecondRelease()
    ensures Run(Between(), SecondEvents(), SomeTools()) == Last()
  {
    hide CommandCut, CommandReopen, MainVersion, AgentCoreAssets, Run, BuiltAssets, FirstTree, FirstPlan,
         AtRelease, InDevelopment, EditAllowed, FindTag, CarriedBy, ReleaseMode, InputsOf, Files, Released,
         Reopened, Edited, EnsureUnreleased;
    var s, events := Between(), SecondEvents();
    var reopened := s.(tree := Reopened(), work := Reopened());
    var edited := s.(tree := Edited(), work := Edited());
    var cut := s.(tree := ReleasedAgain(), work := ReleasedAgain());
    var tagged := cut.(tags := Last().tags);
    ReopenStep();
    OneStep(s, events, reopened);
    EditStep();
    OneStep(reopened, events[1..], edited);
    OneStep(edited, events[2..], cut);
    ReleaseIsNamed(ReleasedAgain(), NEXT_MAIN, [Final(MAIN), Final(NEXT_MAIN)]);
    TagsAreNew();
    NewTag(FirstTags(), Tag(NEXT_MAIN, Some(ReleasedAgain().ledger)));
    OneStep(cut, events[3..], tagged);
    AssetsOf(tagged, ReleasedAgain().ledger, NEXT_MAIN, [Final(MAIN), Final(NEXT_MAIN)], map[]);
    PublishStep(tagged, NEXT_MAIN, ReleasedAgain().ledger, map[], Last());
    OneStep(tagged, events[4..], Last());
    NoStep(Last());
    assert events[5..] == [];
  }

  // ---------------------------------------------------------------- the whole run

  lemma {:induction false} RunInTwo(s: State, before: seq<Event>, more: seq<Event>)
    requires s.tags != []
    ensures Run(s, before + more, SomeTools()) == Run(Run(s, before, SomeTools()), more, SomeTools())
    decreases |before|
  {
    if before == [] {
      assert before + more == more;
    } else {
      var next := Next(s, before[0], SomeTools());
      var t := if next.Some? then next.value else s;
      assert (before + more)[1..] == before[1..] + more;
      RunInTwo(t, before[1..], more);
    }
  }

  lemma OneEdit()
    ensures forall e <- FirstEvents() + SecondEvents() :: e.Edit? ==> e.after == Edited()
  {
    hide Edited, BuiltAssets;
    var events := FirstEvents() + SecondEvents();
    forall e | e in events && e.Edit? ensures e.after == Edited() {
      var k :| 0 <= k < |events| && events[k] == e;
    }
  }

  lemma EditKeepsInputs()
    ensures InputsOf(Files(Edited())) == InputsOf(Files(FirstTree()))
  {
    hide *;
    EditStep();
  }

  lemma OneInputTree(inputs: Inputs)
    requires inputs == InputsOf(Files(FirstTree()))
    ensures forall seen <- InputsSeen(FirstState(), FirstEvents() + SecondEvents()) :: seen == inputs
  {
    hide InputsOf, Files, FirstTree, Edited, FirstEvents, SecondEvents;
    EditKeepsInputs();
    OneEdit();
  }

  lemma NothingCollides()
    ensures CollisionFree(SomeTools().hash, InputsSeen(FirstState(), FirstEvents() + SecondEvents()))
  {
    hide InputsSeen, InputsOf, Files, FirstTree, FirstEvents, SecondEvents;
    OneInputTree(InputsOf(Files(FirstTree())));
  }

  lemma BuiltIsAgentCore()
    ensures HasAgentCore(BuiltAssets())
  {
    hide IsAgentCoreAsset, ArchiveName, WheelName, NodeName;
    TargetNamesNameTheVersion(SDK, TARGET);
    assert ArchiveName(SDK, TARGET) in BuiltAssets();
  }

  lemma WhatWasPublished()
    ensures var r := Last();
            && r.published.Keys == {MAIN, NEXT_MAIN}
            && r.published[MAIN] == r.published[NEXT_MAIN] == BuiltAssets()
            && (forall main <- r.published :: HasAgentCore(r.published[main]))
            && FindTag(r.tags, NEXT_MAIN) == Some(Tag(NEXT_MAIN, Some(r.tree.ledger)))
            && ReleaseMode(r.tree.ledger, Final(NEXT_MAIN)) == Some(Some(Final(MAIN)))
  {
    hide CommandCut, CommandReopen, AgentCoreAssets, BuiltAssets, AtRelease, CarriedBy, ReleaseMode, FindTag,
         HasAgentCore, MainVersion, Edited, EditAllowed, InDevelopment, Files, InputsOf, FirstTree,
         IsAgentCoreAsset;
    EditStep();
    ReleaseIsNamed(ReleasedAgain(), NEXT_MAIN, [Final(MAIN), Final(NEXT_MAIN)]);
    AssetsOf(Last(), ReleasedAgain().ledger, NEXT_MAIN, [Final(MAIN), Final(NEXT_MAIN)], map[]);
    TagsAreNew();
    NewTag(FirstTags(), Tag(NEXT_MAIN, Some(ReleasedAgain().ledger)));
    BuiltIsAgentCore();
  }

  /** From a state a run may start in, with no two input trees of one digest: 1.1.1 builds
      AgentCore 0.2.1 and publishes it, and 1.1.2 is published with the same bytes, fetched. */
  lemma AReuseExists()
    ensures Initial(FirstState())
    ensures CollisionFree(SomeTools().hash, InputsSeen(FirstState(), FirstEvents() + SecondEvents()))
    ensures var r := Run(FirstState(), FirstEvents() + SecondEvents(), SomeTools());
            && r.published.Keys == {MAIN, NEXT_MAIN}
            && r.published[MAIN] == r.published[NEXT_MAIN] == BuiltAssets()
            && (forall main <- r.published :: HasAgentCore(r.published[main]))
            && FindTag(r.tags, NEXT_MAIN) == Some(Tag(NEXT_MAIN, Some(r.tree.ledger)))
            && ReleaseMode(r.tree.ledger, Final(NEXT_MAIN)) == Some(Some(Final(MAIN)))
  {
    hide *;
    FirstStateIsInitial();
    FirstStateHasATag();
    NothingCollides();
    AFirstReleaseExists();
    SecondRelease();
    RunInTwo(FirstState(), FirstEvents(), SecondEvents());
    WhatWasPublished();
  }
}
