/** Semantic versions of the main project and of AgentCore: their order, their
    bumps, and the text that stands for them. */
module Versions {
  import opened Results
  import Decimal

  datatype Version = Version(major: nat, minor: nat, patch: nat)

  /** Lexicographic precedence (Semantic Versioning 2.0.0, clause 11). */
  predicate Less(a: Version, b: Version) {
    || a.major < b.major
    || (a.major == b.major && a.minor < b.minor)
    || (a.major == b.major && a.minor == b.minor && a.patch < b.patch)
  }

  predicate AtMost(a: Version, b: Version) {
    a == b || Less(a, b)
  }

  function Larger(a: Version, b: Version): Version {
    if Less(a, b) then b else a
  }

  predicate SameMinor(a: Version, b: Version) {
    a.major == b.major && a.minor == b.minor
  }

  /** `minor_or_major_apart` */
  predicate MinorApart(older: Version, newer: Version) {
    older.major < newer.major || (older.major == newer.major && older.minor < newer.minor)
  }

  // ---------------------------------------------------------------- levels

  datatype Level = NoLevel | Patch | Minor | Major {
    function Rank(): nat {
      match this
      case NoLevel => 0
      case Patch => 1
      case Minor => 2
      case Major => 3
    }
  }

  function Higher(a: Level, b: Level): Level {
    if a.Rank() < b.Rank() then b else a
  }

  datatype BumpError = NoBumpLevel

  function Bump(v: Version, level: Level): (r: Result<Version, BumpError>)
    ensures r.Failure? <==> level.NoLevel?
  {
    match level
    case NoLevel => Failure(NoBumpLevel)
    case Patch => Success(Version(v.major, v.minor, v.patch + 1))
    case Minor => Success(Version(v.major, v.minor + 1, 0))
    case Major =>
      // Semantic Versioning 2.0.0, clause 4: before 1.0.0 a breaking change moves the minor.
      if v.major == 0 then Success(Version(0, v.minor + 1, 0)) else Success(Version(v.major + 1, 0, 0))
  }

  /** What a bump is for: a patch bump is the very next version, a minor bump the
      first version of a later minor, and a larger level never gives a smaller one. */
  lemma BumpIsTheNextOfItsLevel(v: Version, level: Level, w: Version)
    requires !level.NoLevel?
    ensures Less(v, Bump(v, level).value)
    ensures level.Patch? ==> (Less(v, w) <==> AtMost(Bump(v, level).value, w))
    ensures level.Minor? ==> (MinorApart(v, w) <==> AtMost(Bump(v, level).value, w))
    ensures level.Rank() >= 2 ==> MinorApart(v, Bump(v, level).value)
    ensures forall lower: Level | 0 < lower.Rank() <= level.Rank() ::
              AtMost(Bump(v, lower).value, Bump(v, level).value)
  {
  }

  // ---------------------------------------------------------------- text

  /** A version string, sorted by what the scripts recognise in it. */
  datatype VersionText = Final(v: Version) | Dev(v: Version) | Other(text: string) {
    predicate IsVersion() {
      !Other?
    }
  }

  function Fmt(v: Version): string {
    Decimal.Numeral(v.major) + "." + Decimal.Numeral(v.minor) + "." + Decimal.Numeral(v.patch)
  }

  function Render(t: VersionText): string {
    match t
    case Final(v) => Fmt(v)
    case Dev(v) => Fmt(v) + "-dev"
    case Other(text) => text
  }

  function PythonText(t: VersionText): string {
    match t
    case Final(v) => Fmt(v)
    case Dev(v) => Fmt(v) + ".dev0"
    case Other(text) => text
  }

  function NodeText(t: VersionText): string {
    match t
    case Final(v) => Fmt(v)
    case Dev(v) => Fmt(v) + "-dev.0"
    case Other(text) => text
  }

  /** The first index of `c`, or the length. */
  function IndexOf(s: string, c: char): (i: nat)
    ensures i <= |s|
    ensures c !in s[..i]
    ensures i < |s| ==> s[i] == c
  {
    if s == "" || s[0] == c then 0 else 1 + IndexOf(s[1..], c)
  }

  lemma {:induction false} IndexOfConcat(a: string, c: char, rest: string)
    requires c !in a
    ensures IndexOf(a + [c] + rest, c) == |a|
    ensures (a + [c] + rest)[..|a|] == a && (a + [c] + rest)[|a| + 1..] == rest
  {
    if a == "" {
    } else {
      IndexOfConcat(a[1..], c, rest);
      assert (a + [c] + rest)[1..] == a[1..] + [c] + rest;
      assert (a + [c] + rest)[0] == a[0];
    }
  }

  lemma NoSeparator(s: string, c: char)
    requires Decimal.IsDigits(s) && !Decimal.IsDigit(c)
    ensures c !in s
  {
  }

  /** `X.Y.Z`, three numerals without a leading zero. */
  function ParseBare(s: string): Option<Version> {
    var i := IndexOf(s, '.');
    if i == |s| then None else
      var rest := s[i + 1..];
      var j := IndexOf(rest, '.');
      if j == |rest| then None else
        var major, minor, patch := s[..i], rest[..j], rest[j + 1..];
        if Decimal.IsNumeral(major) && Decimal.IsNumeral(minor) && Decimal.IsNumeral(patch)
        then Some(Version(Decimal.Value(major), Decimal.Value(minor), Decimal.Value(patch)))
        else None
  }

  lemma ParseOfFmt(v: Version)
    ensures ParseBare(Fmt(v)) == Some(v)
  {
    var major, minor, patch := Decimal.Numeral(v.major), Decimal.Numeral(v.minor), Decimal.Numeral(v.patch);
    var rest := minor + "." + patch;
    NoSeparator(major, '.');
    NoSeparator(minor, '.');
    assert Fmt(v) == major + ['.'] + rest;
    IndexOfConcat(major, '.', rest);
    assert rest == minor + ['.'] + patch;
    IndexOfConcat(minor, '.', patch);
    Decimal.ValueOfNumeral(v.major);
    Decimal.ValueOfNumeral(v.minor);
    Decimal.ValueOfNumeral(v.patch);
  }

  lemma SplitAt(s: string, i: nat)
    requires i < |s|
    ensures s == s[..i] + [s[i]] + s[i + 1..]
  {
  }

  lemma Reassociate(major: string, minor: string, patch: string, s: string, rest: string)
    requires rest == minor + "." + patch && s == major + "." + rest
    ensures major + "." + minor + "." + patch == s
  {
  }

  lemma FmtOfParse(s: string)
    requires ParseBare(s).Some?
    ensures Fmt(ParseBare(s).value) == s
  {
    var i := IndexOf(s, '.');
    var rest := s[i + 1..];
    var j := IndexOf(rest, '.');
    var major, minor, patch := s[..i], rest[..j], rest[j + 1..];
    Decimal.NumeralOfValue(major);
    Decimal.NumeralOfValue(minor);
    Decimal.NumeralOfValue(patch);
    assert ParseBare(s).value == Version(Decimal.Value(major), Decimal.Value(minor), Decimal.Value(patch));
    SplitAt(rest, j);
    SplitAt(s, i);
    Reassociate(major, minor, patch, s, rest);
  }

  lemma BareCharacters(s: string)
    requires ParseBare(s).Some?
    ensures |s| > 0 && Decimal.IsDigit(s[|s| - 1])
    ensures forall c <- s :: c == '.' || Decimal.IsDigit(c)
  {
    FmtOfParse(s);
    var patch := Decimal.Numeral(ParseBare(s).value.patch);
    assert patch[|patch| - 1] in patch;
  }

  lemma FmtCharacters(v: Version)
    ensures forall c <- Fmt(v) :: c == '.' || Decimal.IsDigit(c)
  {
  }

  const DEV_SUFFIX := "-dev"

  /** `SOURCE_VERSION_RE`: what a version string is. */
  function Classify(s: string): VersionText {
    if ParseBare(s).Some? then Final(ParseBare(s).value)
    else if |s| >= 4 && s[|s| - 4..] == DEV_SUFFIX && ParseBare(s[..|s| - 4]).Some?
    then Dev(ParseBare(s[..|s| - 4]).value)
    else Other(s)
  }

  /** Equal version strings are equal versions, and back: nothing is lost by
      keeping a version string as what `Classify` says of it. */
  lemma TextOfClassified(s: string)
    ensures Render(Classify(s)) == s
  {
    hide ParseBare, Fmt;
    if ParseBare(s).Some? {
      FmtOfParse(s);
    } else if Classify(s).Dev? {
      FmtOfParse(s[..|s| - 4]);
      assert s == s[..|s| - 4] + s[|s| - 4..];
    }
  }

  lemma NotBare(s: string)
    requires |s| > 0 && !Decimal.IsDigit(s[|s| - 1])
    ensures ParseBare(s).None?
  {
  }

  lemma ClassifiedText(t: VersionText)
    requires t.IsVersion()
    ensures Classify(Render(t)) == t
  {
    ParseOfFmt(t.v);
    if t.Dev? {
      var s := Render(t);
      assert s[|s| - 4..] == DEV_SUFFIX && s[..|s| - 4] == Fmt(t.v);
      NotBare(s);
    }
  }

  lemma PackageTextOfDev(v: Version, suffix: string)
    requires suffix == ".dev0" || suffix == "-dev.0"
    ensures ParseBare(Fmt(v) + suffix).None?
    ensures (Fmt(v) + suffix)[..|Fmt(v) + suffix| - |suffix|] == Fmt(v)
  {
    var s := Fmt(v) + suffix;
    assert s[|Fmt(v)| + 1] == suffix[1] && !Decimal.IsDigit(suffix[1]) && suffix[1] != '.';
    if ParseBare(s).Some? {
      BareCharacters(s);
    }
  }

  /** The ecosystems' renderings tell every version apart, as the source's does. */
  lemma PackageTextsAreInjective(a: VersionText, b: VersionText)
    requires a.IsVersion() && b.IsVersion()
    ensures PythonText(a) == PythonText(b) <==> a == b
    ensures NodeText(a) == NodeText(b) <==> a == b
  {
    hide Fmt, ParseBare;
    ParseOfFmt(a.v);
    ParseOfFmt(b.v);
    if a.Dev? {
      PackageTextOfDev(a.v, ".dev0");
      PackageTextOfDev(a.v, "-dev.0");
    }
    if b.Dev? {
      PackageTextOfDev(b.v, ".dev0");
      PackageTextOfDev(b.v, "-dev.0");
    }
  }

  // ---------------------------------------------------------------- the next version

  datatype VersionError =
    | TagNotBare
    | NotAVersion
    | MidFlight
    | NoLevelDerived
    | CandidateNotGreater
    | ReopenLevel

  /** The version a cut releases: the larger of the bumped tag and the `-dev` floor. */
  function ComputeVersion(lastTag: VersionText, devVersion: VersionText, level: Level): (r: Result<Version,
                          VersionError>)
  {
    if !lastTag.Final? then Failure(TagNotBare)
    else if !devVersion.IsVersion() then Failure(NotAVersion)
    else if !devVersion.Dev? then Failure(MidFlight)
    else if level.NoLevel? then Failure(NoLevelDerived)
    else
      var candidate := Larger(Bump(lastTag.v, level).value, devVersion.v);
      if AtMost(candidate, lastTag.v) then Failure(CandidateNotGreater) else Success(candidate)
  }

  /** A computed version is the least one above the tag that honours both the level
      and the floor, so the final refusal of `compute_version` can never be reached. */
  lemma ComputedVersionIsLeast(lastTag: VersionText, devVersion: VersionText, level: Level)
    ensures ComputeVersion(lastTag, devVersion, level) != Failure(CandidateNotGreater)
    ensures ComputeVersion(lastTag, devVersion, level).Success? <==>
            lastTag.Final? && devVersion.Dev? && !level.NoLevel?
    ensures ComputeVersion(lastTag, devVersion, level).Success? ==>
              var next := ComputeVersion(lastTag, devVersion, level).value;
              && Less(lastTag.v, next)
              && forall w :: AtMost(next, w) <==>
                             AtMost(Bump(lastTag.v, level).value, w) && AtMost(devVersion.v, w)
  {
  }

  function NextDev(released: VersionText, level: Level): (r: Result<VersionText, VersionError>)
  {
    if !level.Patch? && !level.Minor? then Failure(ReopenLevel)
    else if !released.IsVersion() then Failure(NotAVersion)
    else Success(Dev(Bump(released.v, level).value))
  }
}
