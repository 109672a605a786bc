/** The release level that a list of commits asks for. */
module Commits {
  import opened Versions

  /** A commit subject as the Conventional Commits pattern reads it. */
  datatype Subject = Conventional(kind: string, bang: bool) | Unconventional

  datatype Commit = Commit(line: string, subject: Subject, breakingFooter: bool)

  function LevelOf(c: Commit): Level {
    if c.breakingFooter then Major
    else if c.subject.Unconventional? then NoLevel
    else if c.subject.bang then Major
    else if c.subject.kind == "feat" then Minor
    else if c.subject.kind == "fix" || c.subject.kind == "perf" then Patch
    else NoLevel
  }

  function DerivedLevel(commits: seq<Commit>): Level {
    if commits == [] then NoLevel
    else Higher(DerivedLevel(commits[..|commits| - 1]), LevelOf(commits[|commits| - 1]))
  }

  function UnknownLines(commits: seq<Commit>): seq<string> {
    if commits == [] then []
    else
      var last := commits[|commits| - 1];
      UnknownLines(commits[..|commits| - 1]) + if last.subject.Unconventional? then [last.line] else []
  }

  /** The subjects that ask for exactly this level. */
  function LinesAt(commits: seq<Commit>, level: Level): seq<string> {
    if commits == [] then []
    else
      var last := commits[|commits| - 1];
      LinesAt(commits[..|commits| - 1], level) + if LevelOf(last) == level then [last.line] else []
  }

  lemma LinesAtNext(commits: seq<Commit>, i: nat)
    requires i < |commits|
    ensures forall level :: LinesAt(commits[..i + 1], level) ==
                            LinesAt(commits[..i], level) + if LevelOf(commits[i]) == level then [commits[i].line] else []
  {
    assert commits[..i + 1][..i] == commits[..i];
  }

  /** The loop of `cmd_cut` that collects the commits behind the level, those that ask for
      nothing left out. */
  method CollectDrivers(commits: seq<Commit>) returns (drivers: map<Level, seq<string>>)
    ensures forall level <- [Major, Minor, Patch] ::
              (if level in drivers then drivers[level] else []) == LinesAt(commits, level)
    ensures NoLevel !in drivers
  {
    drivers := map[];
    for i := 0 to |commits|
      invariant forall level <- [Major, Minor, Patch] ::
                  (if level in drivers then drivers[level] else []) == LinesAt(commits[..i], level)
      invariant NoLevel !in drivers
    {
      hide LinesAt, LevelOf;
      var c := commits[i];
      LinesAtNext(commits, i);
      var level := LevelOf(c);
      if level != NoLevel {
        drivers := drivers[level := (if level in drivers then drivers[level] else []) + [c.line]];
      }
    }
    assert commits[..|commits|] == commits;
  }

  /** The derived level is the highest any commit asks for, and nothing higher. */
  lemma {:induction false} DerivedIsTheHighest(commits: seq<Commit>)
    ensures forall c <- commits :: LevelOf(c).Rank() <= DerivedLevel(commits).Rank()
    ensures DerivedLevel(commits).NoLevel? || exists c <- commits :: LevelOf(c) == DerivedLevel(commits)
  {
    if commits == [] {
    } else {
      var init, last := commits[..|commits| - 1], commits[|commits| - 1];
      DerivedIsTheHighest(init);
      assert commits == init + [last];
      assert last in commits;
      if DerivedLevel(commits) == DerivedLevel(init) && !DerivedLevel(init).NoLevel? {
        var c :| c in init && LevelOf(c) == DerivedLevel(init);
        assert c in commits;
      }
    }
  }

  /** `derive_level` */
  method DeriveLevel(commits: seq<Commit>) returns (level: Level, unknown: seq<string>)
    ensures level == DerivedLevel(commits)
    ensures unknown == UnknownLines(commits)
  {
    level, unknown := NoLevel, [];
    for i := 0 to |commits|
      invariant level == DerivedLevel(commits[..i])
      invariant unknown == UnknownLines(commits[..i])
    {
      var c := commits[i];
      assert commits[..i + 1][..i] == commits[..i];
      if c.subject.Unconventional? {
        unknown := unknown + [c.line];
      }
      if LevelOf(c).Rank() > level.Rank() {
        level := LevelOf(c);
      }
    }
    assert commits[..|commits|] == commits;
  }
}
