# Verified models of the release scripts

This project models the Python scripts that version, cut, publish and audit metacodes and
its embeddable AgentCore, and proves in Dafny 4.11 what those scripts promise. `dafny verify
dfyconfig.toml` checks everything.

What the scripts do, and the files here that model it:

- **The release state machine** (`Versions`, `Ledgers`, `Changelog`, `Trees`, `Commits`, `Cuts`,
  `Workspaces`, `Planning`, `Effects`, `Refusals`, `Publishing`, `Lifecycle`, `Channels`). A checkout carries
  version declarations, two changelogs and an append-only ledger that maps each AgentCore
  version to its binary interface, the digest of its inputs and the main releases that carry
  it. Between releases the checkout is at `-dev` versions and may be edited. A cut plans an
  AgentCore version (built when its inputs changed, reused otherwise), rewrites every version
  file and changelog, and records the release; a tag, a publication and a reopen follow.
  `Workspaces.Workspace` is the checkout as an object whose methods write it file by file;
  `Cuts` says what each method must leave behind; `Refusals` says when each command succeeds
  and when a refused one has written nothing; `Lifecycle` runs edits, cuts, tags,
  publications and reopens in any order, from any state with its invariant (a `-dev` tree with
  an empty ledger is one); `ReachableCommands` says what the commands do in every state of such
  a run. `Examples`, `ReuseRun` and `StuckRelease` are concrete checkouts and runs.
- **The CI fast path** (`FastPath`): replays a cut or reopen from its base commit and compares.
- **Texts under a byte limit** (`Lines`, `Utf8`, `Bisection`, `PrBody`, `Notes`): the release pull request's
  body and the GitHub release notes.
- **Checksum files** (`Checksums`), **transcript audit** (`Audits`), **data-in-code check**
  (`DataInCode`), **ledger reconciliation** (`Reconciliation`), **statistics** (`Statistics`) and
  **executable validators** (`Executables`).

Version strings are kept as what the scripts recognise in them (`Final`, `Dev`, or other text);
`Versions.TextOfClassified` and `Versions.ClassifiedText` show that nothing is lost. A source
file is a list of pieces: plain text, version declarations and interface declarations. The
hash is a function parameter; where a theorem needs it, it assumes no two of the input trees
seen in that run have the same digest. The fingerprint in the plugin protocol is an unknown
function of the tree. Commits, dates, the last tag, downloads, published checksum files,
disassembly lines and parsed JSON records are inputs.

Findings that differ from the scripts' own words, kept as the code has them:

- A refused cut or reopen is meant to have written nothing. That holds if and only if it was
  refused while deciding - version, changelog, plan and body, all before the first write - or
  `build.zig.zon` does not declare its version once. Every later refusal, by AgentCore's half
  too, leaves the checkout at the new main version (`Refusals.CommandCutOutcome`,
  `Refusals.CommandReopenOutcome`); AgentCore's half on its own also rewrites its changelog
  before a build is refused, and a reuse leaves the checkout alone exactly when no package
  changed before the one that stops it (`Refusals.ApplyCutOutcome`).
  `LifecycleCases.RefusedCutsHaveWritten` gives two checkouts.
- A release that passed the gate is meant to be reopened. In every reachable state, the reopen of
  a tagged release succeeds if and only if both changelogs have `## Unreleased` or a release
  heading (`ReachableCommands.ReopenSucceedsExactly`), which the gate does not look at. A build
  has put AgentCore's there; a reuse never reads `sdk/CHANGELOG.md`, so with that file emptied
  the cut and the tag go through and every reopen is refused after writing
  (`ReachableCommands.ReuseThatCannotReopen`, and the run `StuckRelease.AReleaseCannotBeReopened`).
- The planner can plan what the applier refuses: inputs reverted to an older release, an
  interface version that moves without its revision, and a patch forced over a moved revision
  (`PlanningCases`, where `RefusedPlansExist` has a checkout for each with nothing else missing).
  `Planning.PlannedBuildIsApplied` says exactly when a plan is applied.
- The pull request body's search is meant to keep the most entries that fit. It does, under
  every limit, if and only if no probe of its bisection hides a smaller body with more entries
  (`PrBody.SearchIsExactIff`). Bodies that never shrink as entries are added satisfy this, and
  those are the ones where no rank loses bytes over the five lists together
  (`PrBody.BodyGrowsExactly`); last subjects of fourteen bytes suffice
  (`PrBody.LongLastsNeverShrink`), and lists of one entry are always searched exactly. Two
  short subjects that fit can be refused (`PrBody.ShortSubjectsAreRefused`,
  `PrBody.AFittingBodyIsRefused`).
- The data-in-code check sees every decoded address inside a range, on every disassembly,
  exactly when no range outruns a later one into a gap (`DataInCode.AcceptanceIsExactIff`),
  which disjoint ranges satisfy.

## Model

| member | source | states |
|---|---|---|
| Decimal.NumeralOfValue | scripts/agentcore_contract.py:56-75 | printing a parsed numeral without leading zeros gives it back, so string and number equality coincide |
| Versions.BumpIsTheNextOfItsLevel | scripts/release_common.py:51-61 | a patch bump is the next version, a minor bump the first of a later minor, larger levels never give smaller versions |
| Versions.ComputedVersionIsLeast | scripts/release_cut.py:80-94 | a cut's main version is the least one above the tag that honours the level and the `-dev` floor; the final refusal is unreachable |
| Versions.ParseOfFmt | scripts/release_common.py:96-97 | a printed version parses back |
| Versions.TextOfClassified | scripts/agentcore_contract.py:56-79 | a version string is recovered from what is recognised in it |
| Versions.ClassifiedText | scripts/agentcore_contract.py:56-79 | a final or `-dev` version is recognised in its own text |
| Versions.PackageTextsAreInjective | scripts/agentcore_contract.py:82-89 | the Python and Node renderings tell every version apart |
| Commits.DeriveLevel | scripts/release_common.py:79-93 | the loop's level and unknown subjects are those of all commits |
| Commits.DerivedIsTheHighest | scripts/release_common.py:64-93 | no commit asks for more than the derived level, and some commit asks for it |
| Commits.CollectDrivers | scripts/release_cut.py:334-341 | the loop collects under each level exactly the commits that ask for it, in order |
| Ledgers.CheckMains | scripts/agentcore_contract.py:236-242 | the inner loop reports the first main release out of order and hands on the last one |
| Ledgers.CheckEntry | scripts/agentcore_contract.py:225-252 | with its running set and previous entry, one pass step reports the first rule an entry breaks |
| Ledgers.Validate | scripts/agentcore_contract.py:218-254 | accepts exactly the valid ledgers, else names the first bad entry after a valid beginning |
| Ledgers.ValidIffConsistent | scripts/agentcore_contract.py:214-254 | the local checks hold exactly when all versions and flattened main releases rise, digests are distinct, interfaces never go down and one major.minor has one interface |
| Ledgers.PrefixesOfValid | scripts/agentcore_contract.py:218-254 | every beginning of an accepted ledger is accepted |
| Ledgers.CutBackInsideLastEntry | scripts/agentcore_contract.py:218-254 | a ledger cut inside the last entry's main releases, leaving one, is accepted |
| Ledgers.CarryingAccepts | scripts/agentcore_contract.py:203-208 | carrying a main release succeeds exactly when it is final and later than all recorded ones |
| Ledgers.AppendedAccepts | scripts/agentcore_contract.py:210-211 | appending succeeds exactly when the new entry breaks no rule, and otherwise says which rule it breaks first |
| Ledgers.IsPrefixOf | scripts/agentcore_contract.py:301-311 | finds nothing exactly when the newer ledger only grew, and otherwise names an entry that changed |
| Ledgers.GrowsIsAPartialOrder | scripts/agentcore_contract.py:301-311 | growth is reflexive, transitive and antisymmetric |
| Ledgers.GrowthKeepsAnswers | scripts/agentcore_contract.py:197-201 | lookups keep version, interface, digest and builder as the ledger grows |
| Ledgers.CarriedByItsEntry | scripts/agentcore_contract.py:200-201 | in a valid ledger a main release is found in the one entry that lists it |
| Lines.SplitOfFinish | scripts/release_common.py:126-129 | a rewritten file splits back into its lines without trailing blank ones |
| Changelog.HeadingReadsBack | scripts/release_common.py:126-126 | a written heading reads back as its version and date |
| ChangelogProofs.CutReadsBack | scripts/release_common.py:107-150 | the section read from a rewritten changelog is the section the rewrite returned, its date is the date written, the `## Unreleased` heading stays and a reopen changes nothing |
| ChangelogProofs.EntriesMoveOnce | scripts/release_common.py:107-129 | every Unreleased entry moves into the new section, every other section stays as it was, and a second cut without a new entry is refused |
| ChangelogProofs.RewriteChangesTheFile | scripts/release_common.py:107-129 | a successful rewrite never leaves the file as it was, for any one-line version and date |
| ChangelogProofs.ReopenKeepsSections | scripts/release_common.py:132-141 | a reopen keeps every release's section |
| Trees.VersionTextIsSet | scripts/release_common.py:100-104 | a set version is the file's one declaration, and setting again forgets it |
| Trees.DigestIgnoresVersions | scripts/agentcore_release.py:68-116 | trees that differ only in versions, changelogs, ledger and fingerprint have the same input digest |
| Trees.GeneratedOutsideTheDigest | scripts/agentcore_release.py:46-100 | no generated prose, ledger or version file is an input |
| Trees.AbiRevisionIsAgreed | scripts/agentcore_contract.py:141-160 | a revision is read exactly when every mirror declares that one |
| Trees.InputsDeclareTheAbi | scripts/agentcore_contract.py:141-167 | the interface is read the same from the inputs alone, so it cannot move without the digest |
| Workspaces.Workspace.constructor | scripts/release_fast_path.py:124-126 | a scratch checkout starts as its base |
| Workspaces.Workspace.SetSdkVersion | scripts/agentcore_contract.py:112-124 | writes the packages in order and stops at the first without one declaration; done, no package disagrees; ledger, changelogs and main version stay |
| Workspaces.Workspace.ApplyVersion | scripts/release_cut.py:244-246 | writes both version files, or stops where one has no single declaration; done, both declare the version and no other |
| Workspaces.Workspace.DecideCut | scripts/agentcore_release.py:171-205 | decides and refuses as specified before anything is written |
| Workspaces.Workspace.Finalize | scripts/agentcore_release.py:208-210 | writes the version and then the ledger |
| Workspaces.Workspace.ApplyCut | scripts/agentcore_release.py:171-210 | leaves exactly the specified tree, also when it fails half-way |
| Workspaces.Workspace.ApplyReopen | scripts/agentcore_release.py:231-237 | refuses any target but the next patch or minor, else writes it and restores Unreleased |
| Workspaces.Workspace.WriteMainCut | scripts/release_cut.py:359-360 | writes the main version and then its changelog |
| Workspaces.Workspace.WriteCut | scripts/release_cut.py:359-362 | the writes of a cut in order, fingerprint last; done, the checkout is a cut of what it was: versions, section, record, and the same inputs |
| Workspaces.Workspace.ComposeBody | scripts/release_cut.py:334-346 | the body is composed from the commits behind the level, and with AgentCore's summary in front |
| Workspaces.Workspace.DecideCommandCut | scripts/release_cut.py:321-346 | decides version, changelog, plan and body in this order and writes nothing; what it decides lies above the tag and every AgentCore release, or at the release it reuses |
| Workspaces.Workspace.CommandCut | scripts/release_cut.py:321-365 | decides, then writes; done, the checkout is a cut of what it was, of the planned kind |
| Workspaces.Workspace.WriteMainReopen | scripts/release_cut.py:390-391 | writes the next `-dev` version and restores Unreleased |
| Workspaces.Workspace.WriteReopen | scripts/release_cut.py:390-393 | the writes of a reopen in order, fingerprint last; done, the checkout is a reopen of what it was |
| Workspaces.Workspace.DecideCommandReopen | scripts/release_cut.py:368-389 | refuses a version that is not a tagged release, then decides `-dev` versions above the release and above the ledger, and writes nothing |
| Workspaces.Workspace.CommandReopen | scripts/release_cut.py:368-396 | decides, then writes; done, the checkout is a reopen of what it was |
| Refusals.DecidesIffAllowed | scripts/agentcore_release.py:171-205 | a cut is decided if and only if its facts allow a reuse or a build, and it is a reuse exactly when they allow one |
| Refusals.ApplyCutOutcome | scripts/agentcore_release.py:171-210 | succeeds if and only if the facts allow it and every package declares its version once; refused, the checkout is as it was if and only if they do not, or a reuse stops at a package before any changed |
| Refusals.ChosenIff | scripts/release_cut.py:323-333 | when a main version is chosen, in terms of the declarations, the tag and the levels |
| Refusals.PlannedCutIsApplied | scripts/release_cut.py:344-361 | a decided cut is applied if and only if the facts hold for the planned kind, and then with that kind |
| Refusals.CommandCutOutcome | scripts/release_cut.py:321-365 | the command succeeds if and only if the cut is decided, every file declares once and the facts hold for the planned kind; refused, it has written nothing if and only if it was refused while deciding or the main version is not declared once, and otherwise the checkout says the new main version |
| Refusals.ReopenRefusalIff | scripts/agentcore_release.py:213-237 | with the levels the command offers, AgentCore refuses a decided reopen exactly when it is not at a release |
| Refusals.CommandReopenOutcome | scripts/release_cut.py:368-396 | the same for the reopen command |
| Planning.PlannedBuildIsFresh | scripts/agentcore_release.py:139-168 | a planned build lies above every released version and not below the floor |
| Planning.PlannedVersionIsLeast | scripts/agentcore_release.py:139-168 | an unforced plan's level covers a patch, the commits and a moved revision, and its version is the least above the floor that honours it |
| Planning.UnforcedAbiMoveIsMinor | scripts/agentcore_release.py:134-168 | without force, a moved interface revision gets a later minor |
| Planning.PlannedBuildIsApplied | scripts/agentcore_release.py:139-210 | a planned build is applied, as built, if and only if its facts allow it and the packages declare their version once |
| Planning.UnforcedPlanIsApplied | scripts/agentcore_release.py:139-210 | an unforced build is applied if and only if its digest is new, the interface does not go down and its version moves alone only across a minor version, the main release is later, the changelog ready and every package declares once |
| Planning.PlannedReuseIsApplied | scripts/agentcore_release.py:139-210 | a planned reuse is applied, as reused, if and only if the main release is later and the packages declare their version once |
| Planning.MainFilesDoNotMatter | scripts/release_cut.py:359-361 | writing the main version and changelog first changes nothing the applier decides on |
| PlanningCases.UntouchedAgentCoreIsReused | scripts/agentcore_release.py:139-240 | reopening and cutting again without edits always plans and applies a reuse, under no other version |
| PlanningCases.RevertedInputsAreRefused | scripts/agentcore_release.py:139-210 | inputs of an older release are planned as built and refused |
| PlanningCases.VersionAloneIsRefused | scripts/agentcore_release.py:134-168 | an interface version moving alone is planned as a patch and refused |
| PlanningCases.ForcedPatchIsRefused | scripts/agentcore_release.py:139-168 | a patch forced over a moved revision is planned and refused |
| PlanningCases.RefusedPlansExist | scripts/agentcore_release.py:139-210 | for each of the three causes a concrete checkout with everything else ready, refused with the ledger rule it breaks, and taken once the offending fact is gone |
| Effects.DecisionRecords | scripts/agentcore_release.py:171-207 | an accepted cut grows the ledger by exactly this main release, and the last entry has its version and digest |
| Effects.WriteCutEffect | scripts/release_cut.py:359-362 | after a cut all files say the new versions and the inputs are those it started from |
| Effects.WriteReopenEffect | scripts/release_cut.py:390-393 | after a reopen all files say the next versions and the ledger is untouched |
| Cuts.GateFindsEveryFault | scripts/agentcore_release.py:250-295 | the gate finds nothing if and only if ledger, interface, packages, both projects' development states, versions and history are in step |
| LifecycleProofs.NextKeepsInv | scripts/agentcore_release.py:171-240 | every edit, cut, tag, publication, reopen and restored checkout keeps the invariant, grows the ledger and keeps the tags; a refused command too |
| LifecycleProofs.RunsKeepInv | scripts/agentcore_release.py:171-240 | so does every run |
| LifecycleProofs.GatePasses | scripts/agentcore_release.py:250-295 | the version gate finds nothing in a state with the invariant |
| LifecycleProofs.InitialMayStart | scripts/agentcore_release.py:250-295 | a `-dev` tree with an empty ledger above all tags is a state a run may start in |
| LifecycleProofs.EveryReachableStatePassesTheGate | scripts/agentcore_release.py:250-295 | from any state with the invariant, in every reachable state the gate finds nothing, a release state carries the latest ledger version, a development state lies above it, and main versions rise |
| LifecycleProofs.ReachableCutFollowsTheLedger | scripts/release_cut.py:80-94 | in every run the next main version comes after all recorded ones |
| LifecycleProofs.ModeSurvivesGrowth | scripts/agentcore_release.py:440-448 | which release a past main release fetches AgentCore from never changes |
| LifecycleProofs.HistoryIsNeverRewritten | scripts/agentcore_contract.py:301-311 | a later run never changes the version, interface, digest, builder or mode of what an earlier state recorded |
| LifecycleProofs.RefusedCutBlocks | scripts/release_cut.py:184-198 | a cut refused after deciding leaves an unclean checkout; neither command starts before it is restored, which undoes the refused cut |
| ReachableCommands.CutSucceedsExactly | scripts/release_cut.py:321-365 | in a state with the invariant a decided reuse succeeds, and a decided build exactly when AgentCore's own facts allow it |
| ReachableCommands.ReachableCutSucceedsExactly | scripts/release_cut.py:321-365 | so in every state of a run |
| ReachableCommands.ReopenSucceedsExactly | scripts/release_cut.py:368-396 | at a tagged release, a reopen succeeds if and only if both changelogs can take `## Unreleased`; refused, it has written, although the gate had nothing to report |
| ReachableCommands.ReachableReopenSucceedsExactly | scripts/release_cut.py:368-396 | so in every state of a run |
| ReachableCommands.ReuseThatCannotReopen | scripts/agentcore_release.py:171-240 | after a reuse from a checkout whose AgentCore changelog cannot take `## Unreleased`, the tagged release passes the gate and no reopen goes through |
| StuckRelease.AReleaseCannotBeReopened | scripts/agentcore_release.py:171-240 | a concrete run to such a release |
| LifecycleCases.FirstCutIsTaken | scripts/release_cut.py:321-365 | from a concrete checkout the first cut goes through as a build |
| LifecycleCases.ReopenIsTaken | scripts/release_cut.py:368-396 | the reopen after it goes through |
| LifecycleCases.SecondCutIsTaken | scripts/release_cut.py:321-365 | the next cut goes through as a reuse |
| LifecycleCases.RefusedCutsHaveWritten | scripts/release_cut.py:321-365 | two concrete checkouts whose cut is refused by AgentCore's half and which then say the new main version |
| ReuseRun.AFirstReleaseExists | scripts/release_cut.py:321-365 | the first cut, its tag and its publication go through |
| ReuseRun.AReuseExists | scripts/agentcore_release.py:440-576 | a run from an allowed start builds AgentCore for one release, and publishes the next release with the same assets, fetched from the first |
| Publishing.NamesNeverCollide | scripts/agentcore_release.py:384-386 | an AgentCore asset name belongs to one version |
| Publishing.TargetNamesNameTheVersion | scripts/agentcore_release.py:501-511 | the names a reuse asks for are AgentCore's and name its version, for every target |
| Publishing.Dist.Fetch | scripts/agentcore_release.py:487-499 | a download is kept only with the digest its release published, else removed |
| Publishing.Dist.FetchReused | scripts/agentcore_release.py:472-511 | succeeds exactly when all assets of the target are published and undamaged; then exactly those were added, with the builder's digests |
| Publishing.FetchedIsTheBuilders | scripts/agentcore_release.py:472-511 | what a reuse delivers for all targets are the builder's own entries |
| Publishing.ReadHistory | scripts/agentcore_release.py:565-571 | reads the history into one table exactly when it does not contradict itself |
| Publishing.CheckPublished | scripts/agentcore_release.py:560-576 | stops on a contradictory history, else reports exactly the assets published with other contents |
| Lifecycle.DoorIsTheCheck | scripts/agentcore_release.py:560-576 | the door of the runs is open exactly when the check reports no asset |
| SameBytes.InitialMayStartPublished | scripts/agentcore_release.py:560-576 | a run may start from an agreeing history without AgentCore assets |
| SameBytes.AgentCoreNeverTripsTheDoor | scripts/agentcore_release.py:472-576 | a reused asset agrees with every published asset of its name, and the assets of a release that builds meet no published name |
| SameBytes.SameVersionSameBytes | scripts/agentcore_release.py:440-576 | in every run, published assets of one name have one digest, and two releases share an AgentCore asset name only under one ledger entry |
| SameBytes.ReachableAgentCorePassesTheDoor | scripts/agentcore_release.py:560-576 | in every run, no release is stopped at the door by its AgentCore assets, reused or built |
| Channels.ArchivedIffBuiltHere | scripts/release_archive.py:227-262 | a clean stable AgentCore archive passes exactly at the release that carries its version and is told to build |
| Channels.OneReleaseArchivesAVersion | scripts/release_archive.py:227-262 | one AgentCore version is archived from one main release only |
| FastPath.CompareGenerated | scripts/release_fast_path.py:143-145 | the comparison loop accepts exactly equal generated files |
| FastPath.VerifyBump | scripts/release_fast_path.py:97-148 | the replay in a scratch checkout decides as specified |
| FastPathProofs.AcceptedIsTheRegeneration | scripts/release_fast_path.py:97-148 | an accepted candidate is the regeneration file for file, the base elsewhere, with the base's input digest |
| FastPathProofs.EveryCutIsAccepted | scripts/release_fast_path.py:78-148 | every generated cut is accepted: versions and both dates are recovered from it |
| FastPathProofs.EveryReopenIsAccepted | scripts/release_fast_path.py:97-148 | every generated reopen is accepted |
| FastPathProofs.CommandsTakeTheFastPath | scripts/release_cut.py:321-396 | whatever the two commands produce takes the fast path |
| Checksums.ParseSums | scripts/agentcore_release.py:455-462 | the loop accepts and returns what the line-by-line specification does |
| Checksums.ChecksumsRoundTrip | scripts/release_sums.py:69-70 | a rendered checksum file parses back to its table, for any number of entries |
| Checksums.CheckSidecar | scripts/release_sums.py:53-58 | passes exactly when the sidecar states this archive's digest and name |
| Checksums.CollectEach | scripts/release_sums.py:44-64 | the loop passes exactly when every archive has its own sidecar, and leaves exactly the sidecars of no archive |
| Checksums.Collect | scripts/release_sums.py:37-66 | succeeds exactly on a consistent directory with ASCII sidecars, with one sorted entry for each archive |
| Checksums.WrittenSumsReadBack | scripts/release_sums.py:37-70 | for every consistent directory the written file parses to exactly the archive names and digests |
| PrBody.WriteBody | scripts/release_cut.py:154-178 | the body assembled by appending is the specified one |
| PrBody.SizeOfBody | scripts/release_cut.py:106-178 | the body's UTF-8 size is the sum of its parts |
| PrBody.ListedGrowsExactly | scripts/release_cut.py:155-160 | showing more subjects never shortens a list exactly when its last subject has fourteen bytes |
| PrBody.Search | scripts/release_cut.py:128-138 | the loop computes the bisection |
| PrBody.KeptIsAnEdge | scripts/release_cut.py:128-138 | for every input a kept count fits and the next does not, and a refusal means neither none nor one entry fits |
| Bisection.LargestForEveryLimit | scripts/release_cut.py:128-138 | a bisection over any sizes finds the largest fitting index for every limit if and only if no probe hides a smaller later size |
| PrBody.SearchIsExactIff | scripts/release_cut.py:128-138 | the kept count is the most that fits and a refusal means nothing fits, under every limit, if and only if no probe hides a smaller later body |
| PrBody.BodyGrowsExactly | scripts/release_cut.py:119-178 | the body never shrinks as entries are added if and only if at no rank the five lists lose bytes together |
| PrBody.LongLastsNeverShrink | scripts/release_cut.py:155-160 | last subjects of fourteen bytes suffice for that |
| PrBody.KeptIsTheMost | scripts/release_cut.py:119-138 | when the body never shrinks, exactly the counts up to the kept one fit, and a refusal means not even none fits |
| PrBody.OneEntryIsNeverHidden | scripts/release_cut.py:128-138 | lists of at most one entry are searched exactly, however short |
| PrBody.ShortSubjectsAreRefused | scripts/release_cut.py:119-139 | for every section longer than its pointer, a limit at which the pointer fits with both of two short unclassified subjects, and the cut is refused |
| PrBody.AFittingBodyIsRefused | scripts/release_cut.py:119-139 | a concrete section for which this happens |
| PrBody.Compose | scripts/release_cut.py:119-139 | the full body when it fits, else the pointer body with the kept count, else a refusal |
| PrBody.ComposedBodyFits | scripts/release_cut.py:265-274 | with AgentCore's summary in front, the body never meets the size refusal before pushing |
| Notes.FitNotes | scripts/release_notes.py:31-45 | prefix sums and the scan over cuts find the specified cut |
| Notes.FittedFits | scripts/release_notes.py:31-45 | whatever is returned fits the limit |
| Notes.EarlierCutsFit | scripts/release_notes.py:37-44 | an earlier cut with its longer count is never larger |
| Notes.RefusedIffHeadingDoesNotFit | scripts/release_notes.py:31-45 | a section is refused exactly when it is too long and its heading alone with the pointer does not fit |
| Notes.NotesStopAtTheLastCut | scripts/release_notes.py:31-45 | the kept text is the input up to the last entry boundary that fits, and the pointer counts exactly the dropped lines |
| Notes.ReleaseNotesFit | scripts/release_notes.py:56-93 | written notes never exceed GitHub's limit, however long either changelog is |
| Notes.BuilderHasTheChanges | scripts/release_notes.py:56-83 | the release a reuse refers to is the one whose notes hold the changes |
| Notes.PastNotesNeverChange | scripts/release_notes.py:56-83 | AgentCore's block of a past release is the same at every later ledger |
| Audits.FilteredRepeatIsARerun | scripts/audit_trajectories.py:305-316 | a command repeated with something bolted on counts as a rerun, in both directions |
| Audits.RecoveredOneMore | scripts/audit_trajectories.py:123-132 | a recovery call recovers exactly the spills of its id that nothing asked for yet |
| Audits.UnreadOneMore | scripts/audit_trajectories.py:123-146 | the pending count of an id is the number of its spills nothing asked for since |
| Audits.UseIsCounted | scripts/audit_trajectories.py:123-137 | the counters' view of a call is the transcript's |
| Audits.Audit.AddUse | scripts/audit_trajectories.py:113-137 | one tool call moves the counters and the walk's memory as specified |
| Audits.Audit.FileResult | scripts/audit_trajectories.py:251-267 | one result size is filed once, under its tool or as unattributed |
| Audits.Audit.AddResult | scripts/audit_trajectories.py:138-149 | one tool result moves the counters and the walk's memory as specified |
| Audits.Audit.AddSession | scripts/audit_trajectories.py:89-149 | a session adds exactly the spills later asked for, spills are recovered or left, reruns never exceed truncated results, sizes are accounted once |
| DataInCode.BisectRight | scripts/check_binary_baseline.py:383-383 | splits the starts at the address |
| DataInCode.CheckDataInCode | scripts/check_binary_baseline.py:365-390 | accepts exactly when all ranges were printed and bisection catches no instruction; findings are true |
| DataInCode.BisectionIsExact | scripts/check_binary_baseline.py:382-387 | bisection sees every held address exactly when no range outruns a later one |
| DataInCode.AcceptanceIsExactIff | scripts/check_binary_baseline.py:365-390 | the check accepts every disassembly that prints all ranges and decodes nothing inside one, and no other, if and only if no range outruns a later one into a gap |
| DataInCode.DisjointRangesAreCheckedExactly | scripts/check_binary_baseline.py:365-390 | for disjoint ranges in any order, acceptance is exactly that |
| DataInCode.NestedRangeHidesAnInstruction | scripts/check_binary_baseline.py:382-387 | a nested range lets an instruction inside the outer one pass |
| Reconciliation.ReadRows | scripts/metask_reconcile.py:121-126 | the table holds the last row of each id; problems are exactly the repeated ids |
| Reconciliation.ReadRecords | scripts/metask_reconcile.py:127-135 | the table holds the last complete record of each id; problems are exactly the malformed and repeated ones |
| Reconciliation.ComparePair | scripts/metask_reconcile.py:142-150 | reports exactly the fields that differ and the missing charge |
| Reconciliation.ComparePairs | scripts/metask_reconcile.py:136-152 | matched counts exactly the ids both sides list and agree on |
| Reconciliation.Reconcile | scripts/metask_reconcile.py:116-156 | reports every discrepancy and no other, none exactly when the two lists match one to one, and then matched, ledger and server counts are equal |
| Reconciliation.NoProblemIffReconciled | scripts/metask_reconcile.py:116-156 | no problem exists exactly when ids are distinct on both sides, equal as sets, and each pair agrees and is charged |
| Statistics.TwiceTheTail | scripts/eval/statistics.py:121-123 | twice the lower tail passes 2^n exactly for equal counts and meets it exactly for counts one apart |
| Statistics.PValueRange | scripts/eval/statistics.py:109-123 | the p-value lies in (0, 1], is symmetric, and is 1 exactly when the counts differ by at most one |
| Statistics.LopsidedIsMoreSignificant | scripts/eval/statistics.py:109-123 | at a fixed number of discordant pairs a smaller minimum gives a strictly smaller p-value |
| Statistics.PValueIsTheExtremeShare | scripts/eval/statistics.py:109-123 | the p-value is the share of equally likely outcomes at least as lopsided as the observed one |
| Statistics.ClampsAreNoOps | scripts/eval/statistics.py:43-56 | whatever the successes and z, the unclamped Wilson interval lies in [0, 1]; it contains the observed proportion if and only if that is one |
| Statistics.WilsonIsTheScoreInterval | scripts/eval/statistics.py:43-56 | whatever the successes and z, the proportions between its ends are exactly those the score test does not reject |
| Executables.ScanCommands | scripts/stage_tinykg_binary.py:392-410 | accepts exactly the tables that whole commands tile with a macOS build command |
| Executables.TilesAreContiguous | scripts/stage_tinykg_binary.py:392-410 | tiled commands start where the one before ends, from first to last byte |
| Executables.CheckSlice | scripts/stage_tinykg_binary.py:365-410 | accepts exactly the well-formed slices, reading only inside the data |
| Executables.NeighboursAreEnough | scripts/stage_tinykg_binary.py:413-415 | among sorted slices, neighbours are apart exactly when all are |
| Executables.ValidateMachO | scripts/stage_tinykg_binary.py:353-418 | accepts exactly the universal binaries for the declared architectures and returns their sorted slices |
| Executables.OneSliceForEach | scripts/stage_tinykg_binary.py:411-418 | with distinct architectures each has exactly one slice |
| Executables.SlicesAreDisjoint | scripts/stage_tinykg_binary.py:353-418 | no two accepted slices share a byte and all lie inside the data |
| Executables.ValidateElf | scripts/stage_tinykg_binary.py:313-350 | accepts exactly the static executables of the architecture, reading only inside the data |
| Executables.ValidatePe | scripts/stage_tinykg_binary.py:421-444 | accepts exactly the console executables, reading only inside the data |

## Left out

- Publishing.Dist.FetchReused: the wheel's platform tag, read from the fetched archive's manifest, is an input, and the sidecar files are not written.
- Refusals.CommandCutOutcome: the fingerprint tool and the opening of the pull request, both after the writes, are taken to succeed.
- Refusals.CommandReopenOutcome: the same.
- LifecycleProofs.EveryReachableStatePassesTheGate: speaks of the committed tree; what a refused command left half-written is kept beside it until it is restored, and is never committed, tagged or published. It assumes no digest collision among the input trees of the run, and edits that keep the ledger, the packages and the interface mirrors in step.
- Text is split on line feeds only; the other separators of `str.splitlines` and carriage returns are not modelled.
- Regular expressions: `\d` means the ten ASCII digits, and `$` the end of the text, not also before a final line feed.
- Main-project version strings with leading zeros, which its patterns allow, are not versions here.
- The mapping from files to declarations: a file is given as its pieces, and only its first interface declaration is read.
- JSON texts of the ledger, manifests, transcripts and usage records; records are given parsed. Token counts, times and ids of other JSON types are not modelled.
- SHA-256, archive and wheel contents, `verify_dist` beyond asset names and `check_published`, and the manifest a reuse reads its wheel tag from (the tag is an input).
- `fetch_published_sums`, git, gh and other subprocesses, the clock, the network, file modes, temporary files and crashes between writes.
- The branch and remote checks of the clean-tree rule (that the checkout is what is committed is in `Lifecycle.Next`), open and merged pull requests, and dry runs of the cut and reopen commands.
- The plan's reason texts and the wording of error messages; a refusal carries its kind.
- Floating point: p-values and the Wilson interval are over exact reals, and the square root is given by its defining property. Means, sample variances, percentiles and the t-table's confidence interval are left out: they compute reports and no other part here depends on them.
- Disassembler line patterns and the instruction-set rules of the binary baseline check; lines arrive classified.
- Store contracts, staging and atomic copies of the TinyKG stager, and its version marker in each slice.
- Reports and percentiles of the transcript audit.
- `rule_control.py` looks for marker texts in sources, workflows and test files, type-checks Lean kernels and runs feedback commands; those kernels and commands are not part of this model.
- `ci_scope.py` maps changed paths to test suites by fixed prefixes; the evaluation harness beyond its statistics, its validators and test data.
- Documentation link and fact checks, generated notices, install prefixes and kernel provenance: file comparisons that read and write no state modelled here.
