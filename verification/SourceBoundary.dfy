/** The source-boundary policy: what one file violates, judged from its path and its text. */
module SourceBoundary {
  import opened Base
  import opened PosixPath
  import opened ImportScan

  const EVIDENCE_ROOTS := ["benchmarks/", "conformance/", "experiments/", "tests/"]
  const ARCHIVE_ROOTS := ["docs/archive/"]
  const MAINTAINED_ROOTS := ["adapters/", "components/", "examples/", "packaging/", "scripts/", "tools/"]
  const PRODUCTION_ROOTS := ["adapters/", "components/", "examples/"]

  const PYTHON_SUFFIXES := [".py", ".pyi", ".pyw"]
  const IMPLEMENTATION_SUFFIXES := [
    ".c", ".cc", ".cpp", ".cxx", ".h", ".hh", ".hpp", ".hxx", ".cu", ".cuh", ".ptx", ".rs", ".go", ".zig", ".java",
    ".m", ".mm", ".swift", ".ts", ".tsx", ".s", ".asm"]
  const BINARY_SUFFIXES := [".node", ".dll", ".dylib", ".so", ".a", ".lib", ".wasm"]
  const BUILD_NAMES := ["binding.gyp", "cmakelists.txt", "cargo.toml", "cargo.lock", "meson.build", "makefile.native"]
  const ADDON_PACKAGES := ["bindings", "cmake-js", "ffi-napi", "koffi", "nan", "node-addon-api", "node-gyp",
                           "node-gyp-build", "ref-napi"]
  const CODE_SUFFIXES := [".js", ".mjs", ".cjs", ".jsx"]
  const PRIVATE_SEGMENTS := [".git", "build", "experiments", "internal", "native", "node_modules", "private", "src",
                             "test", "tests", "vendor"]

  datatype Code =
    | PythonSource | NativeBinary | NonJsProductionSource | NativeBuildManifest
    | PackageFinding(name: string)
    | NativeAddonImport | PrivateCudaJsImport | EvidenceDependency | SubprocessRuntime
    | UninspectableModuleAcquisition
    | Mechanism(name: string)

  /** A violation; the subject is the specifier or the pattern it is about. */
  datatype Violation = Violation(code: Code, path: string, subject: string)

  /** The text searches that are left to the library: URL parsing, package JSON, keyword patterns. */
  datatype Lexicon = Lexicon(
    isRepositoryUrl: string -> bool,
    packageFindings: string -> seq<(string, string)>,
    acquisitions: string -> seq<string>,
    mechanisms: string -> seq<(string, string)>)

  const PRIVATE_PATH := "PRIVATE_CUDA_JS_PATH"

  function SlashChar(c: char): char {
    if c == '\\' then '/' else c
  }

  function Slash(s: string): string {
    seq(|s|, i requires 0 <= i < |s| => SlashChar(s[i]))
  }

  lemma SlashLength(s: string)
    ensures |Slash(s)| == |s|
  {
  }

  function LowerChar(c: char): char {
    if 'A' <= c <= 'Z' then (c as int + 32) as char else c
  }

  function Lower(s: string): string {
    seq(|s|, i requires 0 <= i < |s| => LowerChar(s[i]))
  }

  predicate IsUnder(path: string, roots: seq<string>) {
    exists i :: 0 <= i < |roots| && roots[i] != "" && (path == roots[i][..|roots[i]| - 1] || StartsWith(path, roots[i]))
  }

  predicate IsEvidence(path: string) {
    IsUnder(path, EVIDENCE_ROOTS) || IsUnder(path, ARCHIVE_ROOTS)
  }

  predicate IsMaintained(path: string) {
    IsUnder(path, MAINTAINED_ROOTS)
  }

  predicate IsProduction(path: string) {
    IsUnder(path, PRODUCTION_ROOTS)
  }

  /** The repository path a relative specifier means; None for a package specifier. */
  function ResolvedTarget(sourcePath: string, specifier: string): Option<string> {
    if !StartsWith(specifier, ".") then None
    else
      var rootedSource := "/" + Slash(sourcePath);
      var rootedTarget := Normalize(JoinPaths(Dirname(rootedSource), Slash(specifier)));
      if !StartsWith(rootedTarget, "/") || StartsWith(rootedTarget, "/../") then None else Some(rootedTarget[1..])
  }

  predicate NamesPrivateSegment(subpath: string) {
    exists i :: 0 <= i < |Split(subpath)| && Split(subpath)[i] in PRIVATE_SEGMENTS
  }

  const LINE_BREAKS: set<char> := {'\n', '\r', '\U{2028}', '\U{2029}'}

  predicate HasLineBreak(s: string) {
    exists i :: 0 <= i < |s| && s[i] in LINE_BREAKS
  }

  predicate NamesRepository(lower: string) {
    exists i :: 0 <= i < |Parts(lower)| && (Parts(lower)[i] == "cuda-js" || Parts(lower)[i] == "cuda_js")
  }

  /** The specifier is a path or a URL rather than the name of a package. */
  predicate IsLocation(lex: Lexicon, specifier: string) {
    var lower := Lower(specifier);
    StartsWith(lower, ".") || StartsWith(lower, "/") || StartsWith(lower, "file:") || lex.isRepositoryUrl(specifier)
  }

  const SCOPE := "@iteathen/"
  const PACKAGE := "cuda-js"

  /** The package, with or without its scope, and a path in it through a private directory. */
  predicate NamesPrivatePackage(lower: string) {
    var bare := if StartsWith(lower, SCOPE) then lower[|SCOPE|..] else lower;
    StartsWith(bare, PACKAGE + "/") &&
    var path := bare[|PACKAGE| + 1..];
    !HasLineBreak(path) && path != "" && NamesPrivateSegment(path)
  }

  predicate IsPrivateSpecifier(lex: Lexicon, specifier: string) {
    var normalized := Slash(specifier);
    var lower := Lower(normalized);
    (NamesRepository(lower) && IsLocation(lex, normalized)) || NamesPrivatePackage(lower)
  }

  function When(condition: bool, v: Violation): seq<Violation> {
    if condition then [v] else []
  }

  /** What the path alone violates. */
  function PathViolations(p: string): seq<Violation> {
    var lower := Lower(p);
    var basename, extension := Basename(lower), Extname(lower);
    When(extension in PYTHON_SUFFIXES || basename in ["pyproject.toml", "pipfile", "poetry.lock"]
         || (StartsWith(basename, "requirements") && EndsWith(basename, ".txt")) || "__pycache__" in Split(lower),
         Violation(PythonSource, p, ""))
    + When(extension in BINARY_SUFFIXES, Violation(NativeBinary, p, ""))
    + When(extension in IMPLEMENTATION_SUFFIXES && !IsEvidence(p), Violation(NonJsProductionSource, p, ""))
    + When(basename in BUILD_NAMES && !IsEvidence(p), Violation(NativeBuildManifest, p, ""))
  }

  predicate IsPackageFile(p: string) {
    Basename(Lower(p)) == "package.json"
  }

  predicate IsCodeFile(p: string) {
    IsMaintained(p) && Extname(Lower(p)) in CODE_SUFFIXES
  }

  function PackageViolations(lex: Lexicon, p: string, text: string): seq<Violation> {
    var found := lex.packageFindings(text);
    seq(|found|, i requires 0 <= i < |found| => Violation(PackageFinding(found[i].0), p, found[i].1))
  }

  predicate IsAddon(specifier: string) {
    Lower(specifier) in ADDON_PACKAGES || Lower(specifier) == "bun:ffi" || EndsWith(specifier, ".node")
  }

  predicate DependsOnEvidence(p: string, specifier: string) {
    var target := ResolvedTarget(p, specifier);
    target.Some? && target.value != "" && IsProduction(p) && IsEvidence(target.value)
  }

  function SpecifierViolations(lex: Lexicon, p: string, specifier: string): seq<Violation> {
    When(IsAddon(specifier), Violation(NativeAddonImport, p, specifier))
    + When(IsPrivateSpecifier(lex, specifier), Violation(PrivateCudaJsImport, p, specifier))
    + When(DependsOnEvidence(p, specifier), Violation(EvidenceDependency, p, specifier))
    + When(IsProduction(p) && Lower(specifier) in ["child_process", "node:child_process"],
           Violation(SubprocessRuntime, p, specifier))
  }

  function ImportViolations(lex: Lexicon, p: string, specifiers: seq<string>): seq<Violation> {
    if specifiers == [] then []
    else ImportViolations(lex, p, specifiers[..|specifiers| - 1])
         + SpecifierViolations(lex, p, specifiers[|specifiers| - 1])
  }

  function AcquisitionViolations(lex: Lexicon, p: string, text: string): seq<Violation> {
    if !IsProduction(p) then []
    else
      var found := lex.acquisitions(text);
      seq(|found|, i requires 0 <= i < |found| => Violation(UninspectableModuleAcquisition, p, found[i]))
  }

  function MechanismViolations(p: string, found: seq<(string, string)>, privateImport: bool): seq<Violation> {
    if found == [] then []
    else MechanismViolations(p, found[..|found| - 1], privateImport)
         + When(!(found[|found| - 1].0 == PRIVATE_PATH && privateImport),
                Violation(Mechanism(found[|found| - 1].0), p, found[|found| - 1].1))
  }

  predicate ImportsPrivately(lex: Lexicon, specifiers: seq<string>) {
    exists i :: 0 <= i < |specifiers| && IsPrivateSpecifier(lex, specifiers[i])
  }

  function CodeViolations(lex: Lexicon, p: string, text: string): seq<Violation> {
    ImportViolations(lex, p, Specifiers(text)) + AcquisitionViolations(lex, p, text)
    + MechanismViolations(p, lex.mechanisms(text), ImportsPrivately(lex, Specifiers(text)))
  }

  /** The verdict of the policy on one file. */
  function Violations(lex: Lexicon, path: string, text: string): seq<Violation> {
    var p := Slash(path);
    PathViolations(p) + (if IsPackageFile(p) then PackageViolations(lex, p, text) else [])
    + (if IsCodeFile(p) then CodeViolations(lex, p, text) else [])
  }

  /** The policy as it runs, pushing violations in order. */
  method ViolationsForFile(lex: Lexicon, path: string, text: string) returns (violations: seq<Violation>)
    ensures violations == Violations(lex, path, text)
  {
    hide PathViolations, IsPackageFile, IsCodeFile, PackageViolations, CodeViolations, Slash;
    var p := Slash(path);
    violations := PathViolations(p);
    if IsPackageFile(p) {
      violations := violations + PackageViolations(lex, p, text);
    }
    if !IsCodeFile(p) {
      return;
    }
    var found := InspectCode(lex, p, text);
    violations := violations + found;
  }

  method InspectCode(lex: Lexicon, p: string, text: string) returns (violations: seq<Violation>)
    ensures violations == CodeViolations(lex, p, text)
  {
    hide AcquisitionViolations, ImportViolations, MechanismViolations, ImportsPrivately, Specifiers;
    var specifiers := ImportSpecifiers(text);
    var imports, hasPrivateImport := InspectImports(lex, p, specifiers);
    var mechanisms := InspectMechanisms(p, lex.mechanisms(text), hasPrivateImport);
    violations := imports + AcquisitionViolations(lex, p, text) + mechanisms;
  }

  method InspectImports(lex: Lexicon, p: string, specifiers: seq<string>)
    returns (violations: seq<Violation>, hasPrivateImport: bool)
    ensures violations == ImportViolations(lex, p, specifiers)
    ensures hasPrivateImport == ImportsPrivately(lex, specifiers)
  {
    hide SpecifierViolations, IsPrivateSpecifier, ImportsPrivately;
    violations, hasPrivateImport := [], false;
    var i := 0;
    PrivateStart(lex);
    while i < |specifiers|
      invariant i <= |specifiers|
      invariant hasPrivateImport == ImportsPrivately(lex, specifiers[..i])
      invariant violations == ImportViolations(lex, p, specifiers[..i])
    {
      assert specifiers[..i + 1][..i] == specifiers[..i];
      PrivateStep(lex, specifiers, i);
      hasPrivateImport := hasPrivateImport || IsPrivateSpecifier(lex, specifiers[i]);
      violations := violations + SpecifierViolations(lex, p, specifiers[i]);
      i := i + 1;
    }
    assert specifiers[..|specifiers|] == specifiers;
  }

  /** The mechanism checks; a private path is not reported twice. */
  method InspectMechanisms(p: string, found: seq<(string, string)>, privateImport: bool)
    returns (violations: seq<Violation>)
    ensures violations == MechanismViolations(p, found, privateImport)
    ensures forall code, subject :: Violation(Mechanism(code), p, subject) in violations <==>
              (code, subject) in found && !(code == PRIVATE_PATH && privateImport)
  {
    violations := [];
    var k := 0;
    while k < |found|
      invariant k <= |found|
      invariant violations == MechanismViolations(p, found[..k], privateImport)
    {
      assert found[..k + 1][..k] == found[..k];
      if !(found[k].0 == PRIVATE_PATH && privateImport) {
        violations := violations + [Violation(Mechanism(found[k].0), p, found[k].1)];
      }
      k := k + 1;
    }
    assert found[..|found|] == found;
    forall code, subject
      ensures Violation(Mechanism(code), p, subject) in violations <==>
              (code, subject) in found && !(code == PRIVATE_PATH && privateImport)
    {
      MechanismIsReported(p, found, privateImport, code, subject);
    }
  }

  /** A mechanism is reported exactly if it was found, save for a private path beside a private import. */
  lemma {:induction false} MechanismIsReported(p: string, found: seq<(string, string)>, privateImport: bool,
                                               code: string, subject: string)
    ensures Violation(Mechanism(code), p, subject) in MechanismViolations(p, found, privateImport) <==>
            (code, subject) in found && !(code == PRIVATE_PATH && privateImport)
  {
    if found != [] {
      var init, last := found[..|found| - 1], found[|found| - 1];
      MechanismIsReported(p, init, privateImport, code, subject);
      assert found == init + [last];
    }
  }

  lemma PrivateStart(lex: Lexicon)
    ensures !ImportsPrivately(lex, [])
  {
  }

  lemma PrivateStep(lex: Lexicon, specifiers: seq<string>, i: nat)
    requires i < |specifiers|
    ensures ImportsPrivately(lex, specifiers[..i + 1]) <==>
            ImportsPrivately(lex, specifiers[..i]) || IsPrivateSpecifier(lex, specifiers[i])
  {
    hide IsPrivateSpecifier;
    if ImportsPrivately(lex, specifiers[..i]) {
      var j :| 0 <= j < i && IsPrivateSpecifier(lex, specifiers[..i][j]);
      assert IsPrivateSpecifier(lex, specifiers[..i + 1][j]);
    }
    if IsPrivateSpecifier(lex, specifiers[i]) {
      assert IsPrivateSpecifier(lex, specifiers[..i + 1][i]);
    }
    if ImportsPrivately(lex, specifiers[..i + 1]) {
      var j :| 0 <= j < i + 1 && IsPrivateSpecifier(lex, specifiers[..i + 1][j]);
      assert j < i ==> IsPrivateSpecifier(lex, specifiers[..i][j]);
    }
  }
}
