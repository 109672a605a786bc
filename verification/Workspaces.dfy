/** The checkout the release scripts rewrite in place, file by file. Each method is proved to
    leave exactly the tree, and give the answer, that `Cuts` says, and states what that
    means for the checkout: what changed, what did not, and when it succeeds. */
module Workspaces {
  import opened Results
  import opened Versions
  import opened Ledgers
  import opened Changelog
  import opened Commits
  import opened Trees
  import opened Cuts
  import opened Planning
  import opened Effects
  import Refusals
  import PrBody
  import Utf8

  function At(drivers: map<Level, seq<string>>, level: Level): seq<string> {
    if level in drivers then drivers[level] else []
  }

  class Workspace {
    var zon: Text
    var versionZig: Text
    var changelog: string
    var protocol: string
    var sdkVersion: VersionText
    var pyProject: Text
    var pyInit: Text
    var nodePackage: Text
    var sdkChangelog: string
    var ledger: Ledger
    const others: map<string, Text>

    function Snapshot(): Tree
      reads this
    {
      Tree(zon, versionZig, changelog, protocol, sdkVersion, pyProject, pyInit, nodePackage, sdkChangelog, ledger,
           others)
    }

    constructor (t: Tree)
      ensures Snapshot() == t
    {
      zon, versionZig, changelog, protocol := t.zon, t.versionZig, t.changelog, t.protocol;
      sdkVersion, pyProject, pyInit, nodePackage := t.sdkVersion, t.pyProject, t.pyInit, t.nodePackage;
      sdkChangelog, ledger, others := t.sdkChangelog, t.ledger, t.others;
    }

    method SetSdkVersion(version: VersionText) returns (r: Result<(), CutError>)
      modifies this
      ensures Outcome(Snapshot(), r) == Cuts.SetSdkVersion(old(Snapshot()), version)
      ensures r.Success? <==> version.IsVersion() && PackagesDeclareOnce(old(Snapshot()))
      ensures SameSources(old(Snapshot()), Snapshot()) && ledger == old(ledger) && sdkChangelog == old(sdkChangelog)
      ensures unchanged(`zon, `versionZig, `changelog, `protocol)
      ensures r.Success? ==> sdkVersion == version && PackageFindings(Snapshot()) == []
    {
      if version.IsVersion() { SetSdkVersionEffect(Snapshot(), version); }
      if !version.IsVersion() { return Failure(MalformedVersion); }
      var text := SetVersionText(pyProject, PythonText(version));
      if text.None? { return Failure(NotOneDeclaration); }
      pyProject := text.value;
      text := SetVersionText(pyInit, PythonText(version));
      if text.None? { return Failure(NotOneDeclaration); }
      pyInit := text.value;
      text := SetVersionText(nodePackage, NodeText(version));
      if text.None? { return Failure(NotOneDeclaration); }
      nodePackage := text.value;
      sdkVersion := version;
      r := Success(());
    }

    method ApplyVersion(version: VersionText) returns (r: Result<(), CutError>)
      modifies `zon, `versionZig
      ensures Outcome(Snapshot(), r) == Cuts.ApplyVersion(old(Snapshot()), version)
      ensures r.Success? <==> |DeclaredValues(old(zon))| == 1 && |DeclaredValues(old(versionZig))| == 1
      ensures SameSources(old(Snapshot()), Snapshot())
      ensures r.Success? ==> DeclaredValues(zon) == [Render(version)] && DeclaredValues(versionZig) == [Render(version)]
    {
      ApplyVersionEffect(Snapshot(), version);
      var text := SetVersionText(zon, Render(version));
      if text.None? { return Failure(NotOneDeclaration); }
      zon := text.value;
      text := SetVersionText(versionZig, Render(version));
      if text.None? { return Failure(NotOneDeclaration); }
      versionZig := text.value;
      r := Success(());
    }

    /** The refusals of `apply_cut` that come before its first write. */
    method DecideCut(version: VersionText, main: VersionText, date: string, hash: Hash) returns (r: Result<Decision,
                     CutError>)
      ensures r == Cuts.DecideCut(FactsOf(Snapshot(), hash), version, main, date)
      ensures r.Success? && r.value.kind.Reused? ==> r.value.sdkChangelog == sdkChangelog
    {
      hide Files, InputsOf, AbiRevisionOf, AbiVersionOf, DecideBuild, ValidReleases, FirstOfVersion;
      if !version.Final? { return Failure(NotFinalVersion); }
      if !sdkVersion.IsVersion() { return Failure(MalformedVersion); }
      if !sdkVersion.Dev? { return Failure(CutError.MidFlight); }
      var validated := Validate(ledger);
      if validated.Failure? { return Failure(LedgerRefused(InvalidLedger)); }
      var facts := FactsOf(Snapshot(), hash);
      if facts.abiRevision.Failure? { return Failure(AbiRefused(facts.abiRevision.error)); }
      var latest := ledger.Latest();
      if latest.Some? && facts.digest == latest.value.inputDigest {
        if version != latest.value.version { return Failure(UnchangedKeepsVersion); }
        var updated := Carrying(ledger, latest.value, main);
        if updated.Failure? { return Failure(LedgerRefused(updated.error)); }
        return Success(Decision(Reused, updated.value, sdkChangelog));
      }
      if ledger.ByVersion(version).Some? { return Failure(AlreadyReleased); }
      if Less(version.v, sdkVersion.v) { return Failure(BelowFloor); }
      r := DecideBuild(facts, version, main, date);
    }

    /** The last writes of `apply_cut`. */
    method Finalize(version: VersionText, updated: Ledger, kind: Kind) returns (r: Result<Kind, CutError>)
      modifies this
      ensures Outcome(Snapshot(), r) == Cuts.Finalized(old(Snapshot()), version, updated, kind)
    {
      var written := SetSdkVersion(version);
      if written.Failure? { return Failure(written.error); }
      ledger := updated;
      r := Success(kind);
    }

    method ApplyCut(version: VersionText, main: VersionText, date: string, hash: Hash) returns (r: Result<Kind,
                    CutError>)
      modifies this
      ensures Outcome(Snapshot(), r) == Cuts.ApplyCut(old(Snapshot()), version, main, date, hash)
      ensures r.Success? ==>
                && OnlySdkFiles(old(Snapshot()), Snapshot()) && SameSources(old(Snapshot()), Snapshot())
                && sdkVersion == version && PackageFindings(Snapshot()) == []
                && Recorded(FactsOf(old(Snapshot()), hash), version, main, Decision(r.value, ledger, sdkChangelog))
    {
      ghost var was := Snapshot();
      var decision := DecideCut(version, main, date, hash);
      if decision.Failure? { return Failure(decision.error); }
      if decision.value.kind.Built? {
        sdkChangelog := decision.value.sdkChangelog;
      }
      assert Snapshot() == old(Snapshot()).(sdkChangelog := decision.value.sdkChangelog);
      r := Finalize(version, decision.value.ledger, decision.value.kind);
      if r.Success? {
        ApplyCutEffect(was, version, main, date, hash);
        DecisionRecords(FactsOf(was, hash), version, main, date);
      }
    }

    method ApplyReopen(target: VersionText) returns (r: Result<(), CutError>)
      modifies this
      ensures Outcome(Snapshot(), r) == Cuts.ApplyReopen(old(Snapshot()), target)
    {
      var refusal := ReopenRefusal(Snapshot(), target);
      if refusal.Some? { return Failure(refusal.value); }
      r := SetSdkVersion(target);
      if r.Failure? { return; }
      var log := EnsureUnreleased(sdkChangelog);
      if log.Failure? { return Failure(ChangelogRefused(log.error)); }
      sdkChangelog := log.value;
    }

    method WriteMainCut(main: VersionText, date: string) returns (r: Result<(), CutError>)
      modifies this
      ensures Outcome(Snapshot(), r) == Cuts.WriteMainCut(old(Snapshot()), main, date)
    {
      r := ApplyVersion(main);
      if r.Failure? { return; }
      var rewritten := RewriteChangelog(changelog, Render(main), date, MAIN_SUBSECTIONS);
      if rewritten.Failure? { return Failure(ChangelogRefused(rewritten.error)); }
      changelog := rewritten.value.text;
    }

    method WriteCut(main: VersionText, date: string, version: VersionText, sdkDate: string, tools: Tools)
      returns (r: Result<Kind, CutError>)
      modifies this
      ensures Outcome(Snapshot(), r) == Cuts.WriteCut(old(Snapshot()), main, date, version, sdkDate, tools)
      ensures r.Success? ==> IsCutOf(old(Snapshot()), Snapshot(), main, date, version, r.value, tools.hash)
    {
      hide Cuts.WriteMainCut, Cuts.ApplyCut, FactsOf, Recorded, SameSources, PackageFindings, RewriteChangelog;
      ghost var was := Snapshot();
      var prepared := WriteMainCut(main, date);
      if prepared.Failure? { return Failure(prepared.error); }
      r := ApplyCut(version, main, sdkDate, tools.hash);
      if r.Failure? { return; }
      protocol := tools.repin(Snapshot());
      CutIsDone(was, main, date, version, sdkDate, tools);
    }

    /** AgentCore's summary, the commits behind the level, and the pull request body. */
    method ComposeBody(main: Version, section: string, plan: CutPlan, request: Request) returns (body: Option<string>)
      ensures body == CutBody(ledger, main, section, plan, request)
    {
      hide PrBody.Composed, Summary, LinesAt;
      var drivers := CollectDrivers(request.commits);
      var _, unknown := DeriveLevel(request.commits);
      assert forall level <- [Major, Minor, Patch] :: At(drivers, level) == LinesAt(request.commits, level);
      assert Major in [Major, Minor, Patch] && Minor in [Major, Minor, Patch] && Patch in [Major, Minor, Patch];
      var lists := PrBody.Lists(At(drivers, Major), At(drivers, Minor), At(drivers, Patch), unknown, request.squashed);
      body := PrBody.Compose(Fmt(main), LevelName(ChosenLevel(request)), section, lists,
                             PrBody.LIMIT - Utf8.Size(Summary(ledger, plan)));
    }

    /** Everything `cmd_cut` decides before its first write. */
    method DecideCommandCut(lastTag: VersionText, request: Request, hash: Hash) returns (r: Result<Cut, CutError>)
      ensures r == Cuts.DecideCommandCut(Snapshot(), lastTag, request, hash)
      ensures r.Success? ==> Refusals.CutsAbove(Snapshot(), lastTag, r.value)
    {
      hide RewriteChangelog, PlanCut, ChosenVersion, CutBody, Refusals.CutsAbove;
      var t := Snapshot();
      var chosen := ChosenVersion(t, lastTag, request);
      if chosen.Failure? { return Failure(chosen.error); }
      var rewritten := RewriteChangelog(changelog, Fmt(chosen.value), request.date, MAIN_SUBSECTIONS);
      if rewritten.Failure? { return Failure(ChangelogRefused(rewritten.error)); }
      var plan := PlanCut(t, request.agentcoreLevel, request.force, request.agentcoreCommits, hash);
      if plan.Failure? { return Failure(plan.error); }
      var body := ComposeBody(chosen.value, rewritten.value.section, plan.value, request);
      if body.None? { return Failure(BodyTooLong); }
      r := Success(Cut(chosen.value, plan.value));
      Refusals.DecidedIsAbove(t, lastTag, request, hash);
    }

    method CommandCut(lastTag: VersionText, request: Request, tools: Tools) returns (r: Result<Cut, CutError>)
      modifies this
      ensures Outcome(Snapshot(), r) == Cuts.CommandCut(old(Snapshot()), lastTag, request, tools)
      ensures r.Success? ==>
                IsCutOf(old(Snapshot()), Snapshot(), Final(r.value.main), request.date, Final(r.value.plan.version),
                        r.value.plan.kind, tools.hash)
    {
      hide Cuts.DecideCommandCut, Cuts.WriteCut;
      var decided := DecideCommandCut(lastTag, request, tools.hash);
      if decided.Failure? { return Failure(decided.error); }
      var cut := decided.value;
      ghost var was := Snapshot();
      var written := WriteCut(Final(cut.main), request.date, Final(cut.plan.version), request.date, tools);
      if written.Failure? { return Failure(written.error); }
      Refusals.KindIsPlanned(was, lastTag, request, tools);
      r := Success(cut);
    }

    method WriteMainReopen(main: VersionText) returns (r: Result<(), CutError>)
      modifies this
      ensures Outcome(Snapshot(), r) == Cuts.WriteMainReopen(old(Snapshot()), main)
    {
      r := ApplyVersion(main);
      if r.Failure? { return; }
      var log := EnsureUnreleased(changelog);
      if log.Failure? { return Failure(ChangelogRefused(log.error)); }
      changelog := log.value;
    }

    method WriteReopen(main: VersionText, target: VersionText, tools: Tools) returns (r: Result<(), CutError>)
      modifies this
      ensures Outcome(Snapshot(), r) == Cuts.WriteReopen(old(Snapshot()), main, target, tools)
      ensures r.Success? && target.IsVersion() ==> IsReopenOf(old(Snapshot()), Snapshot(), main, target)
    {
      hide Cuts.WriteMainReopen, Cuts.ApplyReopen, SameSources, PackageFindings, EnsureUnreleased;
      if Cuts.WriteReopen(Snapshot(), main, target, tools).result.Success? && target.IsVersion() {
        WriteReopenEffect(Snapshot(), main, target, tools);
      }
      r := WriteMainReopen(main);
      if r.Failure? { return; }
      r := ApplyReopen(target);
      if r.Failure? { return; }
      protocol := tools.repin(Snapshot());
    }

    /** Everything `cmd_reopen` decides before its first write. */
    method DecideCommandReopen(level: Level, agentcoreLevel: Level, tagged: bool) returns (r: Result<Reopening,
                               CutError>)
      ensures r == Cuts.DecideCommandReopen(Snapshot(), level, agentcoreLevel, tagged)
      ensures r.Success? ==> tagged && Refusals.ReopensAbove(Snapshot(), r.value)
    {
      hide CurrentVersion, Refusals.ReopensAbove;
      var released := CurrentVersion(Snapshot());
      if released.Failure? { return Failure(released.error); }
      if released.value.Dev? { return Failure(NothingToReopen); }
      if !tagged { return Failure(NotTagged); }
      var target := NextDev(released.value, level);
      if target.Failure? { return Failure(VersionRefused(target.error)); }
      var agentcoreTarget := ReopenTarget(ledger, agentcoreLevel);
      if agentcoreTarget.Failure? { return Failure(agentcoreTarget.error); }
      r := Success(Reopening(target.value, agentcoreTarget.value));
      Refusals.ReopeningParts(Snapshot(), level, agentcoreLevel, tagged);
    }

    method CommandReopen(level: Level, agentcoreLevel: Level, tagged: bool, tools: Tools) returns (r: Result<(),
                         CutError>)
      modifies this
      ensures Outcome(Snapshot(), r) == Cuts.CommandReopen(old(Snapshot()), level, agentcoreLevel, tagged, tools)
      ensures r.Success? ==>
                var to := Cuts.DecideCommandReopen(old(Snapshot()), level, agentcoreLevel, tagged);
                to.Success? && tagged && Refusals.ReopensAbove(old(Snapshot()), to.value)
                && IsReopenOf(old(Snapshot()), Snapshot(), to.value.main, to.value.sdk)
    {
      hide Cuts.WriteReopen;
      var decided := DecideCommandReopen(level, agentcoreLevel, tagged);
      if decided.Failure? { return Failure(decided.error); }
      r := WriteReopen(decided.value.main, decided.value.sdk, tools);
    }
  }
}
