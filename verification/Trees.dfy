/** A checkout's files as the release scripts see them, the version declarations in
    them, and the digest of what AgentCore is built from. */
module Trees {
  import opened Results
  import opened Versions
  import opened Ledgers

  /** A source file cut at its version and interface declarations. */
  datatype Piece = Raw(text: string) | Declared(value: string) | AbiRevision(n: nat) | AbiVersion(n: nat)

  type Text = seq<Piece>

  datatype Content =
    | Source(text: Text)
    | Prose(prose: string)
    | VersionFile(version: VersionText)
    | LedgerFile(ledger: Ledger)

  /** The generated files by name, and every other tracked file. */
  datatype Tree = Tree(
    zon: Text,
    versionZig: Text,
    changelog: string,
    protocol: string,
    sdkVersion: VersionText,
    pyProject: Text,
    pyInit: Text,
    nodePackage: Text,
    sdkChangelog: string,
    ledger: Ledger,
    others: map<string, Text>)

  const ZON := "build.zig.zon"

  const VERSION_ZIG := "src/version.zig"

  const CHANGELOG := "CHANGELOG.md"

  const PROTOCOL := "evals/plugin-v1/protocol.json"

  const SDK_VERSION := "sdk/VERSION"

  const PY_PROJECT := "sdk/python/pyproject.toml"

  const PY_INIT := "sdk/python/src/metacodes/__init__.py"

  const NODE_PACKAGE := "sdk/node/package.json"

  const SDK_CHANGELOG := "sdk/CHANGELOG.md"

  const LEDGER := "sdk/agentcore-releases.json"

  function Files(t: Tree): map<string, Content> {
    (map name | name in t.others :: Source(t.others[name]))
    + map[ZON := Source(t.zon), VERSION_ZIG := Source(t.versionZig), CHANGELOG := Prose(t.changelog),
          PROTOCOL := Prose(t.protocol), SDK_VERSION := VersionFile(t.sdkVersion), PY_PROJECT := Source(t.pyProject),
          PY_INIT := Source(t.pyInit), NODE_PACKAGE := Source(t.nodePackage), SDK_CHANGELOG := Prose(t.sdkChangelog),
          LEDGER := LedgerFile(t.ledger)]
  }

  // ---------------------------------------------------------------- declarations

  function DeclaredValues(text: Text): seq<string> {
    if text == [] then []
    else if text[0].Declared? then [text[0].value] + DeclaredValues(text[1..])
    else DeclaredValues(text[1..])
  }

  function SetDeclared(text: Text, value: string): (r: Text)
    ensures |r| == |text|
  {
    if text == [] then []
    else [if text[0].Declared? then Declared(value) else text[0]] + SetDeclared(text[1..], value)
  }

  lemma {:induction false} SetDeclaredMeaning(text: Text, value: string, later: string)
    ensures |DeclaredValues(SetDeclared(text, value))| == |DeclaredValues(text)|
    ensures forall v <- DeclaredValues(SetDeclared(text, value)) :: v == value
    ensures SetDeclared(SetDeclared(text, value), later) == SetDeclared(text, later)
  {
    if text == [] {
    } else {
      SetDeclaredMeaning(text[1..], value, later);
      assert SetDeclared(text, value)[1..] == SetDeclared(text[1..], value);
    }
  }

  /** `set_version_text`: exactly one declaration, or nothing is written. */
  function SetVersionText(text: Text, value: string): Option<Text> {
    if |DeclaredValues(text)| == 1 then Some(SetDeclared(text, value)) else None
  }

  lemma VersionTextIsSet(text: Text, value: string)
    requires SetVersionText(text, value).Some?
    ensures DeclaredValues(SetVersionText(text, value).value) == [value]
    ensures forall later :: SetVersionText(SetVersionText(text, value).value, later) == SetVersionText(text, later)
  {
    SetDeclaredMeaning(text, value, value);
    var values := DeclaredValues(SetDeclared(text, value));
    assert values[0] in values;
    assert values == [values[0]];
    forall later ensures SetVersionText(SetDeclared(text, value), later) == SetVersionText(text, later) {
      SetDeclaredMeaning(text, value, later);
    }
  }

  /** The first declaration, as `zon_version` and `current_versions` read it. */
  function FirstDeclared(text: Text): Option<string> {
    if DeclaredValues(text) == [] then None else Some(DeclaredValues(text)[0])
  }

  function MainVersion(t: Tree): Option<VersionText> {
    match FirstDeclared(t.zon)
    case None => None
    case Some(value) => Some(Classify(value))
  }

  // ---------------------------------------------------------------- inputs

  const INPUT_FILES: set<string> := {
    "LICENSE", "build.zig", "build.zig.zon", "scripts/agentcore_binary.zig", "scripts/agentcore_manifest.zig",
    "scripts/agentcore_symbol_gate.zig", "scripts/manifest_common.zig", "scripts/package_agentcore.py",
    "scripts/release_archive.py", "scripts/repack_agentcore_macos_archive.sh", "scripts/stage_ripgrep_binary.py"}

  const NOT_INPUTS: set<string> := {SDK_VERSION, SDK_CHANGELOG, LEDGER, "sdk/README.md", VERSION_ZIG}

  const VERSION_LINES: set<string> := {PY_PROJECT, PY_INIT, NODE_PACKAGE, ZON}

  const BLANK := "<version>"

  predicate HasInputPrefix(name: string) {
    "src/" <= name || "lib/" <= name || "sdk/" <= name || "vendor/ripgrep/" <= name || "deps/" <= name
  }

  predicate HasExcludedPrefix(name: string) {
    "sdk/python/tests/" <= name || "sdk/node/test/" <= name
  }

  /** `input_paths`: which tracked files AgentCore is built from. */
  predicate IsInput(name: string) {
    && name !in NOT_INPUTS
    && !HasExcludedPrefix(name)
    && (name in INPUT_FILES || HasInputPrefix(name))
  }

  function Blanked(name: string, content: Content): Content {
    if name in VERSION_LINES && content.Source? then Source(SetDeclared(content.text, BLANK)) else content
  }

  type Inputs = map<string, Content>

  /** The input files with their version lines blanked. */
  function InputsOf(files: map<string, Content>): Inputs {
    map name | name in files && IsInput(name) :: Blanked(name, files[name])
  }

  type Hash = Inputs -> Digest

  function InputDigest(t: Tree, hash: Hash): Digest {
    hash(InputsOf(Files(t)))
  }

  predicate Collides(hash: Hash, a: Inputs, b: Inputs) {
    a != b && hash(a) == hash(b)
  }

  /** No two of the input trees in `seen` have the same digest. */
  predicate CollisionFree(hash: Hash, seen: set<Inputs>) {
    forall a, b | a in seen && b in seen :: !Collides(hash, a, b)
  }

  lemma CheckLengths(name: string)
    requires |name| == 12 || |name| == 29
    requires name[0] != 's'
    ensures name !in INPUT_FILES
  {
  }

  /** The generated files that never count as inputs. */
  lemma GeneratedOutsideTheDigest()
    ensures !IsInput(VERSION_ZIG) && !IsInput(SDK_VERSION) && !IsInput(SDK_CHANGELOG) && !IsInput(LEDGER)
    ensures !IsInput(CHANGELOG) && !IsInput(PROTOCOL)
  {
    assert CHANGELOG[0] == 'C' && PROTOCOL[0] == 'e';
    assert "src/"[0] == 's' && "lib/"[0] == 'l' && "sdk/"[0] == 's' && "vendor/ripgrep/"[0] == 'v' && "deps/"[0] == 'd';
    assert CHANGELOG !in INPUT_FILES by { CheckLengths(CHANGELOG); }
    assert PROTOCOL !in INPUT_FILES by { CheckLengths(PROTOCOL); }
  }

  /** Two trees that differ only in version declarations and generated prose. */
  predicate SameSources(a: Tree, b: Tree) {
    && a.others == b.others
    && SetDeclared(a.zon, BLANK) == SetDeclared(b.zon, BLANK)
    && SetDeclared(a.pyProject, BLANK) == SetDeclared(b.pyProject, BLANK)
    && SetDeclared(a.pyInit, BLANK) == SetDeclared(b.pyInit, BLANK)
    && SetDeclared(a.nodePackage, BLANK) == SetDeclared(b.nodePackage, BLANK)
  }

  lemma FileAt(t: Tree)
    ensures var files := Files(t);
            && ZON in files && files[ZON] == Source(t.zon)
            && PY_PROJECT in files && files[PY_PROJECT] == Source(t.pyProject)
            && PY_INIT in files && files[PY_INIT] == Source(t.pyInit)
            && NODE_PACKAGE in files && files[NODE_PACKAGE] == Source(t.nodePackage)
  {
  }

  lemma OtherFileAt(a: Tree, b: Tree, name: string)
    requires a.others == b.others && name in Files(a) && name in Files(b)
    requires IsInput(name) && name !in VERSION_LINES
    ensures Files(a)[name] == Files(b)[name]
  {
    GeneratedOutsideTheDigest();
    assert name != VERSION_ZIG && name != CHANGELOG && name != PROTOCOL && name != SDK_VERSION
           && name != SDK_CHANGELOG && name != LEDGER;
  }

  /** The digest does not move with a version, a changelog, the ledger or the fingerprint. */
  lemma DigestIgnoresVersions(a: Tree, b: Tree, hash: Hash)
    requires SameSources(a, b)
    ensures InputsOf(Files(a)) == InputsOf(Files(b))
    ensures InputDigest(a, hash) == InputDigest(b, hash)
  {
    assert Files(a).Keys == Files(b).Keys;
    forall name | name in Files(a) && IsInput(name)
      ensures Blanked(name, Files(a)[name]) == Blanked(name, Files(b)[name])
    {
      if name in VERSION_LINES {
        FileAt(a);
        FileAt(b);
      } else {
        OtherFileAt(a, b, name);
      }
    }
    assert InputsOf(Files(a)) == InputsOf(Files(b));
  }

  // ---------------------------------------------------------------- the binary interface

  datatype AbiError = Undeclared | Mismatch

  const ABI_AUTHORITY := "sdk/zig/types.zig"

  const ABI_MIRRORS := [ABI_AUTHORITY, "sdk/metask/agentcore.h", "sdk/rust/src/raw.rs",
                        "sdk/python/src/metacodes/_native.py", "sdk/node/index.js"]

  function FirstRevision(text: Text): Option<nat> {
    if text == [] then None else if text[0].AbiRevision? then Some(text[0].n) else FirstRevision(text[1..])
  }

  function FirstVersion(text: Text): Option<nat> {
    if text == [] then None else if text[0].AbiVersion? then Some(text[0].n) else FirstVersion(text[1..])
  }

  function RevisionAt(files: map<string, Content>, name: string): Option<nat> {
    if name in files && files[name].Source? then FirstRevision(files[name].text) else None
  }

  /** `abi_revision`: every mirror declares one, and all agree with the authority. */
  function AbiRevisionOf(files: map<string, Content>): Result<nat, AbiError> {
    if exists name <- ABI_MIRRORS :: RevisionAt(files, name).None? then Failure(Undeclared)
    else if exists name <- ABI_MIRRORS :: RevisionAt(files, name) != RevisionAt(files, ABI_AUTHORITY)
    then Failure(Mismatch)
    else
      assert ABI_MIRRORS[0] == ABI_AUTHORITY;
      Success(RevisionAt(files, ABI_AUTHORITY).value)
  }

  /** A revision is read exactly when every mirror declares that one. */
  lemma AbiRevisionIsAgreed(files: map<string, Content>, n: nat)
    ensures AbiRevisionOf(files) == Success(n) <==> forall name <- ABI_MIRRORS :: RevisionAt(files, name) == Some(n)
  {
    assert ABI_MIRRORS[0] == ABI_AUTHORITY;
  }

  /** `abi_version` */
  function AbiVersionOf(files: map<string, Content>): Result<nat, AbiError> {
    if ABI_AUTHORITY in files && files[ABI_AUTHORITY].Source? && FirstVersion(files[ABI_AUTHORITY].text).Some?
    then Success(FirstVersion(files[ABI_AUTHORITY].text).value)
    else Failure(Undeclared)
  }

  lemma MirrorIsNotExcluded(name: string)
    requires name in ABI_MIRRORS
    ensures !HasExcludedPrefix(name)
  {
    assert "sdk/python/tests/"[4] == 'p' && "sdk/node/test/"[4] == 'n';
    assert "sdk/python/tests/"[11] == 't' && ABI_MIRRORS[3][11] == 's' && ABI_MIRRORS[3][4] == 'p';
    assert "sdk/node/test/"[9] == 't' && ABI_MIRRORS[4][9] == 'i' && ABI_MIRRORS[4][4] == 'n';
    assert ABI_MIRRORS[0][4] == 'z' && ABI_MIRRORS[1][4] == 'm' && ABI_MIRRORS[2][4] == 'r';
  }

  lemma MirrorIsNotGenerated(name: string)
    requires name in ABI_MIRRORS
    ensures name !in NOT_INPUTS && name !in VERSION_LINES
  {
  }

  lemma MirrorsAreInputs()
    ensures forall name <- ABI_MIRRORS :: IsInput(name) && name !in VERSION_LINES
  {
    forall name | name in ABI_MIRRORS ensures IsInput(name) && name !in VERSION_LINES {
      var k :| 0 <= k < 5 && ABI_MIRRORS[k] == name;
      assert "sdk/" <= name && name[4] in ['z', 'm', 'r', 'p', 'n'];
      MirrorIsNotExcluded(name);
      MirrorIsNotGenerated(name);
    }
  }

  /** The interface is part of the inputs, so it cannot move without the digest. */
  lemma InputsDeclareTheAbi(files: map<string, Content>)
    ensures AbiRevisionOf(InputsOf(files)) == AbiRevisionOf(files)
    ensures AbiVersionOf(InputsOf(files)) == AbiVersionOf(files)
  {
    MirrorsAreInputs();
    var inputs := InputsOf(files);
    assert ABI_MIRRORS[0] == ABI_AUTHORITY;
    forall name | name in ABI_MIRRORS ensures RevisionAt(inputs, name) == RevisionAt(files, name) {
      assert IsInput(name) && name !in VERSION_LINES;
    }
    assert IsInput(ABI_AUTHORITY) && ABI_AUTHORITY !in VERSION_LINES;
  }
}
