/** Whether a candidate commit is exactly a generated cut or reopen of its base. */
module FastPath {
  import opened Results
  import opened Versions
  import opened Changelog
  import opened Trees
  import opened Cuts
  import opened Workspaces

  const GENERATED: seq<string> := [ZON, VERSION_ZIG, CHANGELOG, PROTOCOL, SDK_VERSION, PY_PROJECT, PY_INIT,
                                   NODE_PACKAGE, SDK_CHANGELOG, LEDGER]

  datatype NotABump =
    | NothingChanged
    | OtherFilesChanged
    | NoVersion
    | NeitherCutNorReopen
    | NoDate
    | NotGenerated(error: CutError)
    | Differs

  datatype BumpKind = IsCut | IsReopen

  datatype BumpFound = BumpFound(kind: BumpKind, version: VersionText)

  /** The paths `git diff` names between two commits. */
  function ChangedPaths(a: map<string, Content>, b: map<string, Content>): set<string> {
    set name | name in a.Keys + b.Keys && !(name in a && name in b && a[name] == b[name])
  }

  /** `sdk_changelog_date`: a missing section reads as no date. */
  function SdkDate(t: Tree): string {
    var date := ChangelogDate(t.sdkChangelog, Render(t.sdkVersion));
    if date.Some? then date.value else ""
  }

  predicate SameGenerated(a: map<string, Content>, b: map<string, Content>) {
    forall name <- GENERATED :: name in a && name in b && a[name] == b[name]
  }

  /** What regenerating the bump from the base gives. */
  function Regenerated(base: Tree, candidate: Tree, tools: Tools): Result<(BumpFound, Tree), NotABump> {
    var baseVersion, version := MainVersion(base), MainVersion(candidate);
    if baseVersion.None? || version.None? then Failure(NoVersion)
    else if IsDevText(baseVersion.value) && version.value.Final? then
      var date := ChangelogDate(candidate.changelog, Render(version.value));
      if date.None? then Failure(NoDate) else
        var cut := WriteCut(base, version.value, date.value, candidate.sdkVersion, SdkDate(candidate), tools);
        if cut.result.Failure? then Failure(NotGenerated(cut.result.error))
        else Success((BumpFound(IsCut, version.value), cut.tree))
    else if baseVersion.value.Final? && IsDevText(version.value) then
      var reopened := WriteReopen(base, version.value, candidate.sdkVersion, tools);
      if reopened.result.Failure? then Failure(NotGenerated(reopened.result.error))
      else Success((BumpFound(IsReopen, version.value), reopened.tree))
    else Failure(NeitherCutNorReopen)
  }

  /** What `verify_bump` decides. */
  function Verified(base: Tree, candidate: Tree, tools: Tools): Result<BumpFound, NotABump> {
    var changed := ChangedPaths(Files(base), Files(candidate));
    if changed == {} then Failure(NothingChanged)
    else if exists name <- changed :: name !in GENERATED then Failure(OtherFilesChanged)
    else
      var regenerated := Regenerated(base, candidate, tools);
      if regenerated.Failure? then Failure(regenerated.error)
      else if !SameGenerated(Files(regenerated.value.1), Files(candidate)) then Failure(Differs)
      else Success(regenerated.value.0)
  }

  /** The comparison loop over the generated files. */
  method CompareGenerated(a: Tree, b: Tree) returns (same: bool)
    ensures same <==> SameGenerated(Files(a), Files(b))
  {
    var x, y := Files(a), Files(b);
    for i := 0 to |GENERATED|
      invariant forall k | 0 <= k < i :: GENERATED[k] in x && GENERATED[k] in y && x[GENERATED[k]] == y[GENERATED[k]]
    {
      var name := GENERATED[i];
      if name !in x || name !in y || x[name] != y[name] {
        assert GENERATED[i] in GENERATED;
        return false;
      }
    }
    same := true;
  }

  /** `verify_bump`: replays the bump in a scratch checkout of the base, file by file. */
  method VerifyBump(base: Tree, candidate: Tree, tools: Tools) returns (r: Result<BumpFound, NotABump>)
    ensures r == Verified(base, candidate, tools)
  {
    hide Cuts.WriteCut, Cuts.WriteReopen, Files, MainVersion, IsDevText, ChangelogDate, SameGenerated, SdkDate;
    var changed := ChangedPaths(Files(base), Files(candidate));
    if changed == {} { return Failure(NothingChanged); }
    if exists name <- changed :: name !in GENERATED { return Failure(OtherFilesChanged); }
    var baseVersion, version := MainVersion(base), MainVersion(candidate);
    if baseVersion.None? || version.None? { return Failure(NoVersion); }
    var scratch := new Workspace(base);
    var found;
    if IsDevText(baseVersion.value) && version.value.Final? {
      var date := ChangelogDate(candidate.changelog, Render(version.value));
      if date.None? { return Failure(NoDate); }
      var cut := scratch.WriteCut(version.value, date.value, candidate.sdkVersion, SdkDate(candidate), tools);
      if cut.Failure? { return Failure(NotGenerated(cut.error)); }
      found := BumpFound(IsCut, version.value);
    } else if baseVersion.value.Final? && IsDevText(version.value) {
      var reopened := scratch.WriteReopen(version.value, candidate.sdkVersion, tools);
      if reopened.Failure? { return Failure(NotGenerated(reopened.error)); }
      found := BumpFound(IsReopen, version.value);
    } else {
      return Failure(NeitherCutNorReopen);
    }
    var same := CompareGenerated(scratch.Snapshot(), candidate);
    if !same { return Failure(Differs); }
    r := Success(found);
  }
}
