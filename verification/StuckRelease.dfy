/** A run to a release that passes the gate and cannot be reopened: a reuse never looks at
    AgentCore's changelog, and the reopen after it refuses a file it cannot restore. */
module StuckRelease {
  import opened Results
  import opened Versions
  import opened Changelog
  import opened Trees
  import opened Cuts
  import opened Examples
  import opened Lifecycle
  import opened LifecycleProofs
  import opened LifecycleCases
  import opened ReuseRun
  import opened ReachableCommands

  /** The edit between the releases also empties `sdk/CHANGELOG.md`. */
  function Emptied(): Tree {
    WithEntry(Reopened()).(sdkChangelog := "")
  }

  function EmptyingEvents(): seq<Event> {
    FirstEvents() + [Reopen(Patch, Patch), Edit(Emptied())]
  }

  function Ready(): State {
    State(Emptied(), Emptied(), FirstTags(), map[MAIN := BuiltAssets()])
  }

  lemma NothingToRestore()
    ensures EnsureUnreleased("").Failure?
  {
  }

  lemma EmptyingIsAllowed()
    ensures EditAllowed(Reopened(), Emptied()) && InDevelopment(Emptied())
    ensures InputsOf(Files(Emptied())) == InputsOf(Files(FirstTree())) && AbiRevisionOf(Files(Emptied())) == Success(1)
  {
    hide CommandCut, CommandReopen, AtRelease, InDevelopment, EditAllowed, FirstTree, FirstPlan, InputsOf, Files,
         AbiRevisionOf, Log, EnsureUnreleased, Reopened;
    ReopenStep();
    EntryMayBeAdded(Reopened(), Emptied());
  }

  lemma EmptyingRun()
    ensures Run(FirstState(), EmptyingEvents(), SomeTools()) == Ready()
  {
    hide CommandCut, CommandReopen, MainVersion, Run, BuiltAssets, FirstTree, FirstPlan, AtRelease, InDevelopment,
         EditAllowed, Released, Reopened, FindTag, CarriedBy, InputsOf, Files, FirstEvents, Emptied;
    var s := Between();
    var events := [Reopen(Patch, Patch), Edit(Emptied())];
    var reopened := s.(tree := Reopened(), work := Reopened());
    FirstStateHasATag();
    RunInTwo(FirstState(), FirstEvents(), events);
    AFirstReleaseExists();
    ReopenStep();
    OneStep(s, events, reopened);
    EmptyingIsAllowed();
    OneStep(reopened, events[1..], Ready());
    NoStep(Ready());
    assert events[2..] == [];
  }

  lemma OneInputTree(inputs: Inputs)
    requires inputs == InputsOf(Files(FirstTree()))
    ensures forall seen <- InputsSeen(FirstState(), EmptyingEvents()) :: seen == inputs
  {
    hide InputsOf, Files, FirstTree, Emptied, EditAllowed, InDevelopment;
    EmptyingIsAllowed();
    var events := EmptyingEvents();
    forall e | e in events && e.Edit? ensures e.after == Emptied() {
      var k :| 0 <= k < |events| && events[k] == e;
    }
  }

  lemma EmptyingMayStart()
    ensures MayStart(FirstState(), EmptyingEvents(), SomeTools())
  {
    hide Initial, Inv, InputsSeen, InputsOf, Files, FirstTree, EmptyingEvents, MayStart;
    FirstStateIsInitial();
    OneInputTree(InputsOf(Files(FirstTree())));
    InitialMayStart(FirstState(), EmptyingEvents(), SomeTools());
  }

  lemma ReadyHoldsInv()
    ensures var seen := InputsSeen(FirstState(), EmptyingEvents());
            Inv(Ready(), SomeTools(), seen) && CollisionFree(SomeTools().hash, seen)
  {
    hide Run, Inv, CollisionFree, InputsSeen, EmptyingEvents, Ready, FirstTree;
    EmptyingMayStart();
    RunHoldsInv(FirstState(), EmptyingEvents(), SomeTools());
    EmptyingRun();
  }

  lemma ReadyIsDecided()
    ensures LastTag(Ready()).version == MAIN
    ensures DecideCommandCut(Emptied(), Final(MAIN), FirstRequest(), SomeTools().hash)
            == Success(Cut(NEXT_MAIN, SecondPlan()))
  {
    hide DecideCommandCut, Released, Reopened, InDevelopment, Files, AbiRevisionOf, Log, FirstTree, EditAllowed,
         InputsOf;
    EmptyingIsAllowed();
    SecondIsDecided(Emptied());
  }

  /** The release after the reuse, tagged. */
  function Stuck(): State {
    AfterTag(AfterCut(Ready(), FirstRequest(), SomeTools()), NEXT_MAIN)
  }

  lemma StuckSteps(level: Level, agentcoreLevel: Level)
    requires OffersReopen(level) && OffersReopen(agentcoreLevel)
    ensures var cut := AfterCut(Ready(), FirstRequest(), SomeTools());
            && Next(Ready(), CutRelease(FirstRequest()), SomeTools()) == Some(cut)
            && Next(cut, TagRelease, SomeTools()) == Some(Stuck())
    ensures IsTagged(Stuck()) && MainVersion(Stuck().tree) == Some(Final(NEXT_MAIN))
    ensures StateFindings(Stuck().tree, Final(NEXT_MAIN), LastTag(Stuck()).ledger, SomeTools().hash) == []
    ensures var next := Next(Stuck(), Reopen(level, agentcoreLevel), SomeTools());
            next.Some? && next.value.tree == Stuck().tree && next.value.work != Stuck().tree
  {
    hide CommandCut, DecideCommandCut, Next, IsTagged, MainVersion, StateFindings, Inv, CollisionFree, InputsSeen,
         EmptyingEvents, Released, Reopened, EnsureUnreleased, BuiltAssets, FirstTree, Log;
    NothingToRestore();
    ReadyHoldsInv();
    ReadyIsDecided();
    ReuseThatCannotReopen(Ready(), FirstRequest(), level, agentcoreLevel, SomeTools(),
                          InputsSeen(FirstState(), EmptyingEvents()));
  }

  lemma StuckRun()
    ensures Run(FirstState(), EmptyingEvents() + [CutRelease(FirstRequest()), TagRelease], SomeTools()) == Stuck()
  {
    hide CommandCut, Next, Run, IsTagged, MainVersion, StateFindings, EmptyingEvents, Released, Reopened,
         BuiltAssets, FirstTree, Log, Emptied;
    var s, events := Ready(), [CutRelease(FirstRequest()), TagRelease];
    var cut := AfterCut(s, FirstRequest(), SomeTools());
    FirstStateHasATag();
    RunInTwo(FirstState(), EmptyingEvents(), events);
    EmptyingRun();
    StuckSteps(Patch, Patch);
    OneStep(s, events, cut);
    OneStep(cut, events[1..], Stuck());
    NoStep(Stuck());
    assert events[2..] == [];
  }

  /** The run is allowed, its release is tagged and passes the gate, and no reopen of it goes
      through: each one stops after writing. */
  lemma AReleaseCannotBeReopened(level: Level, agentcoreLevel: Level)
    requires OffersReopen(level) && OffersReopen(agentcoreLevel)
    ensures Initial(FirstState()) && MayStart(FirstState(), EmptyingEvents(), SomeTools())
    ensures var r := Run(FirstState(), EmptyingEvents() + [CutRelease(FirstRequest()), TagRelease], SomeTools());
            && MainVersion(r.tree) == Some(Final(NEXT_MAIN)) && IsTagged(r)
            && StateFindings(r.tree, Final(NEXT_MAIN), LastTag(r).ledger, SomeTools().hash) == []
            && var next := Next(r, Reopen(level, agentcoreLevel), SomeTools());
               next.Some? && next.value.tree == r.tree && next.value.work != r.tree
  {
    hide *;
    FirstStateIsInitial();
    EmptyingMayStart();
    StuckRun();
    StuckSteps(level, agentcoreLevel);
  }
}
