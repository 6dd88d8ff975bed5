/** Every rule of the boundary policy, said of the segments of the path and the specifiers of the text. */
module PolicyRules {
  import opened Base
  import opened PosixPath
  import opened ImportScan
  import opened SourceBoundary
  import opened BoundaryTheorems
  import opened PrivateImports
  import opened TextFilter

  // ----- areas and names

  /** The path lies below the adapters, the components or the examples. */
  predicate InProduction(p: string) {
    var first := Split(p)[0];
    first == "adapters" || first == "components" || first == "examples"
  }

  predicate InMaintained(p: string) {
    var first := Split(p)[0];
    InProduction(p) || first == "packaging" || first == "scripts" || first == "tools"
  }

  predicate InEvidence(p: string) {
    var names := Split(p);
    || names[0] == "benchmarks" || names[0] == "conformance" || names[0] == "experiments" || names[0] == "tests"
    || (|names| > 1 && names[0] == "docs" && names[1] == "archive")
  }

  /** The last named segment of a path, in lower case. */
  function LastName(p: string): string {
    var parts := Parts(Lower(p));
    if parts == [] then "" else parts[|parts| - 1]
  }

  /** The name has a stem and one of the extensions. */
  predicate HasExtension(name: string, extensions: set<string>) {
    exists e :: e in extensions && |e| < |name| && name[|name| - |e|..] == e
  }

  predicate IsScript(p: string) {
    InMaintained(p) && HasExtension(LastName(p), {".js", ".mjs", ".cjs", ".jsx"})
  }

  // ----- the rules

  predicate IsPython(p: string) {
    var name := LastName(p);
    || HasExtension(name, {".py", ".pyi", ".pyw"})
    || name == "pyproject.toml" || name == "pipfile" || name == "poetry.lock"
    || (|name| >= 16 && name[..12] == "requirements" && name[|name| - 4..] == ".txt")
    || "__pycache__" in Split(Lower(p))
  }

  predicate IsBinary(p: string) {
    HasExtension(LastName(p), {".node", ".dll", ".dylib", ".so", ".a", ".lib", ".wasm"})
  }

  const FOREIGN: set<string> := {
    ".c", ".cc", ".cpp", ".cxx", ".h", ".hh", ".hpp", ".hxx", ".cu", ".cuh", ".ptx", ".rs", ".go", ".zig", ".java",
    ".m", ".mm", ".swift", ".ts", ".tsx", ".s", ".asm"}

  predicate IsForeignSource(p: string) {
    !InEvidence(p) && HasExtension(LastName(p), FOREIGN)
  }

  predicate IsBuildManifest(p: string) {
    !InEvidence(p) &&
    LastName(p) in {"binding.gyp", "cmakelists.txt", "cargo.toml", "cargo.lock", "meson.build", "makefile.native"}
  }

  /** The specifier names a native addon toolchain, or a native file. */
  predicate NamesAddon(specifier: string) {
    || Lower(specifier) in {"bindings", "cmake-js", "ffi-napi", "koffi", "nan", "node-addon-api", "node-gyp",
                            "node-gyp-build", "ref-napi", "bun:ffi"}
    || (|specifier| >= 5 && specifier[|specifier| - 5..] == ".node")
  }

  predicate NamesSubprocess(specifier: string) {
    Lower(specifier) == "child_process" || Lower(specifier) == "node:child_process"
  }

  /** The file breaks a rule, for a path rule with no subject and otherwise for a specifier or a finding. */
  predicate Breaks(lex: Lexicon, p: string, text: string, code: Code, subject: string) {
    match code
    case PythonSource => subject == "" && IsPython(p)
    case NativeBinary => subject == "" && IsBinary(p)
    case NonJsProductionSource => subject == "" && IsForeignSource(p)
    case NativeBuildManifest => subject == "" && IsBuildManifest(p)
    case PackageFinding(name) => LastName(p) == "package.json" && (name, subject) in lex.packageFindings(text)
    case NativeAddonImport => IsScript(p) && subject in Specifiers(text) && NamesAddon(subject)
    case PrivateCudaJsImport => IsScript(p) && subject in Specifiers(text) && MeansPrivate(lex, subject)
    case EvidenceDependency =>
      && IsScript(p) && InProduction(p) && subject in Specifiers(text) && StartsWith(subject, ".")
      && TargetSegments(p, subject) != [] && MeansEvidence(TargetSegments(p, subject))
    case SubprocessRuntime => IsScript(p) && InProduction(p) && subject in Specifiers(text) && NamesSubprocess(subject)
    case UninspectableModuleAcquisition => IsScript(p) && InProduction(p) && subject in lex.acquisitions(text)
    case Mechanism(name) =>
      && IsScript(p) && (name, subject) in lex.mechanisms(text)
      && !(name == "PRIVATE_CUDA_JS_PATH" && exists s :: s in Specifiers(text) && MeansPrivate(lex, s))
  }

  /** Segments that lie in an evidence area. */
  predicate MeansEvidence(names: seq<string>)
    requires names != []
  {
    || names[0] == "benchmarks" || names[0] == "conformance" || names[0] == "experiments" || names[0] == "tests"
    || (|names| > 1 && names[0] == "docs" && names[1] == "archive")
  }

  // ----- the tests on strings are these

  lemma OneRootArea(path: string, name: string, i: nat, roots: seq<string>)
    requires i < |roots| && roots[i] == name + "/" && IsSegment(name)
    ensures IsRoot(roots[i]) && (Split(Folder(roots[i])) <= Split(path) <==> Split(path)[0] == name)
  {
    hide Split;
    OneRoot(name);
  }

  lemma ProductionMeans(p: string)
    ensures IsProduction(p) <==> InProduction(p)
  {
    hide Split, IsUnder, Folder, IsRoot;
    var names := ["adapters", "components", "examples"];
    RootsAre(p, names, PRODUCTION_ROOTS);
    assert names[0] == "adapters" && names[1] == "components" && names[2] == "examples";
  }

  lemma MaintainedMeans(p: string)
    ensures IsMaintained(p) <==> InMaintained(p)
  {
    hide Split, IsUnder, Folder, IsRoot;
    var names := ["adapters", "components", "examples", "packaging", "scripts", "tools"];
    RootsAre(p, names, MAINTAINED_ROOTS);
    assert names[0] == "adapters" && names[1] == "components" && names[2] == "examples" && names[3] == "packaging";
    assert names[4] == "scripts" && names[5] == "tools";
  }

  /** Roots of one segment hold the paths that start with it. */
  lemma RootsAre(p: string, names: seq<string>, roots: seq<string>)
    requires |names| == |roots| && forall i :: 0 <= i < |names| ==> IsSegment(names[i]) && roots[i] == names[i] + "/"
    ensures IsUnder(p, roots) <==> exists i :: 0 <= i < |names| && Split(p)[0] == names[i]
  {
    hide Split, IsUnder;
    forall i | 0 <= i < |roots|
      ensures IsRoot(roots[i]) && (Split(Folder(roots[i])) <= Split(p) <==> Split(p)[0] == names[i])
    {
      OneRootArea(p, names[i], i, roots);
    }
    UnderIsContainment(p, roots);
  }

  lemma EvidenceMeansArea(p: string)
    ensures IsEvidence(p) <==> InEvidence(p)
  {
    hide Split, IsUnder, Folder, IsRoot;
    var names := ["benchmarks", "conformance", "experiments", "tests"];
    RootsAre(p, names, EVIDENCE_ROOTS);
    assert names[0] == "benchmarks" && names[1] == "conformance" && names[2] == "experiments" && names[3] == "tests";
    ArchiveRoot();
    UnderIsContainment(p, ARCHIVE_ROOTS);
    assert ["docs", "archive"] <= Split(p) <==> |Split(p)| > 1 && Split(p)[0] == "docs" && Split(p)[1] == "archive";
  }

  lemma AreaMeans(names: seq<string>)
    ensures InEvidenceArea(names) <==> names != [] && MeansEvidence(names)
  {
    hide Split, Folder, IsRoot;
    EvidenceRootsAreRoots();
    ArchiveRoot();
    var heads := ["benchmarks", "conformance", "experiments", "tests"];
    assert heads[0] == "benchmarks" && heads[1] == "conformance" && heads[2] == "experiments" && heads[3] == "tests";
    forall i | 0 <= i < |heads|
      ensures Split(Folder(EVIDENCE_ROOTS[i])) <= names <==> names != [] && names[0] == heads[i]
    {
      OneRootPrefix(heads[i], i, names);
    }
    assert ["docs", "archive"] <= names <==> |names| > 1 && names[0] == "docs" && names[1] == "archive";
  }

  lemma OneRootPrefix(name: string, i: nat, names: seq<string>)
    requires i < |EVIDENCE_ROOTS| && EVIDENCE_ROOTS[i] == name + "/" && IsSegment(name)
    ensures IsRoot(EVIDENCE_ROOTS[i])
    ensures Split(Folder(EVIDENCE_ROOTS[i])) <= names <==> names != [] && names[0] == name
  {
    hide Split;
    OneRoot(name);
  }

  /** An extension starts with its only dot. */
  predicate IsExtension(e: string) {
    |e| > 1 && e[0] == '.' && forall i :: 0 < i < |e| ==> e[i] != '.'
  }

  lemma ExtensionMeans(name: string, e: string)
    requires IsExtension(e)
    ensures ExtensionOf(name) == e <==> |e| < |name| && name[|name| - |e|..] == e
  {
    hide LastDot;
    var k := |name| - |e|;
    if |e| < |name| && name[k..] == e {
      forall j | k < j < |name| ensures name[j] != '.' {
        assert name[k..][j - k] == e[j - k];
      }
      assert name[k] == name[k..][0] == '.';
      LastDotIsUnique(name, k);
      assert name == ".." ==> |e| == 1;
    }
    if ExtensionOf(name) == e {
      assert name[LastDot(name)..] == e;
    }
  }

  lemma ExtensionsMean(name: string, listed: seq<string>, extensions: set<string>)
    requires forall e :: e in listed <==> e in extensions
    requires forall e :: e in listed ==> IsExtension(e)
    ensures ExtensionOf(name) in listed <==> HasExtension(name, extensions)
  {
    hide ExtensionOf, IsExtension;
    forall e | e in listed ensures ExtensionOf(name) == e <==> |e| < |name| && name[|name| - |e|..] == e {
      ExtensionMeans(name, e);
    }
  }

  lemma NameMeans(p: string)
    ensures Basename(Lower(p)) == LastName(p) && Extname(Lower(p)) == ExtensionOf(LastName(p))
  {
    hide Basename, Parts, ExtensionOf, Lower;
    BasenameIsLast(Lower(p));
  }

  lemma ScriptMeans(p: string)
    ensures IsCodeFile(p) <==> IsScript(p)
  {
    hide ExtensionOf, LastName, IsMaintained, InMaintained, HasExtension, Extname;
    MaintainedMeans(p);
    NameMeans(p);
    ExtensionsMean(LastName(p), CODE_SUFFIXES, {".js", ".mjs", ".cjs", ".jsx"});
  }

  /** The texts that the whole-tree run reads, by the last name of the raw path. */
  lemma ReadMeans(path: string)
    ensures ReadsText(path) <==> HasExtension(LastName(path), {".js", ".mjs", ".cjs", ".jsx", ".json"})
  {
    hide ExtensionOf, LastName, Extname, Basename, Lower, HasExtension;
    NameMeans(path);
    var name := LastName(path);
    ExtensionsMean(name, CODE_SUFFIXES, {".js", ".mjs", ".cjs", ".jsx"});
    ExtensionsMean(name, [".json"], {".json"});
    JoinedExtensions(name);
  }

  lemma JoinedExtensions(name: string)
    ensures HasExtension(name, {".js", ".mjs", ".cjs", ".jsx", ".json"}) <==>
            HasExtension(name, {".js", ".mjs", ".cjs", ".jsx"}) || HasExtension(name, {".json"})
    ensures name == "package.json" ==> HasExtension(name, {".json"})
  {
    if name == "package.json" {
      assert name[|name| - 5..] == ".json";
    }
  }

  // ----- the verdict on a file

  predicate IsPathCode(code: Code) {
    code == PythonSource || code == NativeBinary || code == NonJsProductionSource || code == NativeBuildManifest
  }

  lemma PythonMeans(p: string)
    ensures IsPython(p) <==>
            var lower := Lower(p);
            var basename, extension := Basename(lower), Extname(lower);
            extension in PYTHON_SUFFIXES || basename in ["pyproject.toml", "pipfile", "poetry.lock"]
            || (StartsWith(basename, "requirements") && EndsWith(basename, ".txt")) || "__pycache__" in Split(lower)
  {
    hide Basename, Extname, ExtensionOf, LastName, HasExtension, Split, Lower;
    NameMeans(p);
    ExtensionsMean(LastName(p), PYTHON_SUFFIXES, {".py", ".pyi", ".pyw"});
    RequirementsMean(LastName(p));
  }

  lemma BinaryMeans(p: string)
    ensures IsBinary(p) <==> Extname(Lower(p)) in BINARY_SUFFIXES
  {
    hide Extname, ExtensionOf, LastName, HasExtension, Lower;
    NameMeans(p);
    ExtensionsMean(LastName(p), BINARY_SUFFIXES, {".node", ".dll", ".dylib", ".so", ".a", ".lib", ".wasm"});
  }

  lemma ForeignMeans(p: string)
    ensures IsForeignSource(p) <==> Extname(Lower(p)) in IMPLEMENTATION_SUFFIXES && !IsEvidence(p)
  {
    hide IsEvidence, InEvidence, Extname, ExtensionOf, LastName, HasExtension, Lower, IsExtension;
    NameMeans(p);
    EvidenceMeansArea(p);
    ForeignExtensions();
    forall e ensures e in IMPLEMENTATION_SUFFIXES <==> e in FOREIGN {
      ForeignIsListed(e);
    }
    ExtensionsMean(LastName(p), IMPLEMENTATION_SUFFIXES, FOREIGN);
  }

  lemma BuildMeans(p: string)
    ensures IsBuildManifest(p) <==> Basename(Lower(p)) in BUILD_NAMES && !IsEvidence(p)
  {
    hide IsEvidence, InEvidence, Basename, LastName, Lower;
    NameMeans(p);
    EvidenceMeansArea(p);
  }

  /** The rules on paths. */
  lemma PathRules(p: string, code: Code, subject: string)
    ensures Violation(code, p, subject) in PathViolations(p) <==>
              && subject == ""
              && (|| (code == PythonSource && IsPython(p)) || (code == NativeBinary && IsBinary(p))
                  || (code == NonJsProductionSource && IsForeignSource(p))
                  || (code == NativeBuildManifest && IsBuildManifest(p)))
  {
    hide IsEvidence, Basename, Extname, Split, Lower, IsPython, IsBinary, IsForeignSource, IsBuildManifest,
         StartsWith, EndsWith, When;
    PythonMeans(p);
    BinaryMeans(p);
    ForeignMeans(p);
    BuildMeans(p);
    var v := Violation(code, p, subject);
    forall c, w ensures v in When(c, w) <==> c && v == w {
      WhenHas(c, w, v);
    }
  }

  lemma ForeignExtensions()
    ensures forall e :: e in IMPLEMENTATION_SUFFIXES ==> IsExtension(e)
  {
    forall i | 0 <= i < |IMPLEMENTATION_SUFFIXES| ensures IsExtension(IMPLEMENTATION_SUFFIXES[i]) {
    }
  }

  lemma ForeignIsListed(e: string)
    ensures e in IMPLEMENTATION_SUFFIXES <==> e in FOREIGN
  {
  }

  /** A name cannot start with one and end in the other unless both fit in it. */
  lemma RequirementsMean(name: string)
    ensures StartsWith(name, "requirements") && EndsWith(name, ".txt") <==>
            |name| >= 16 && name[..12] == "requirements" && name[|name| - 4..] == ".txt"
  {
    var head, k := "requirements", |name| - 4;
    assert head[11] == 's' && head[10] == 't' && head[9] == 'n' && head[8] == 'e';
    assert EndsWith(name, ".txt") ==> name[k] == name[k..][0] == '.';
    assert StartsWith(name, head) && 8 <= k < 12 ==> name[k] == head[k] && head[k] != '.';
  }

  lemma AddonMeans(specifier: string)
    ensures IsAddon(specifier) <==> NamesAddon(specifier)
  {
    hide Lower;
  }

  lemma {:induction false} ImportCodes(lex: Lexicon, p: string, specifiers: seq<string>, v: Violation)
    ensures v in ImportViolations(lex, p, specifiers) ==> IsImportCode(v.code)
  {
    hide IsAddon, IsPrivateSpecifier, DependsOnEvidence, IsProduction, Lower;
    if specifiers != [] {
      ImportCodes(lex, p, specifiers[..|specifiers| - 1], v);
    }
  }

  lemma {:induction false} MechanismCodes(p: string, found: seq<(string, string)>, privateImport: bool, v: Violation)
    ensures v in MechanismViolations(p, found, privateImport) ==> v.code.Mechanism?
  {
    if found != [] {
      MechanismCodes(p, found[..|found| - 1], privateImport, v);
    }
  }

  lemma PathCodes(p: string, v: Violation)
    ensures v in PathViolations(p) ==> IsPathCode(v.code)
  {
    hide IsEvidence, Basename, Extname, Lower, Split, StartsWith, EndsWith;
  }

  lemma PackageFindings(lex: Lexicon, p: string, text: string, code: Code, subject: string)
    ensures Violation(code, p, subject) in PackageViolations(lex, p, text) <==>
            code.PackageFinding? && (code.name, subject) in lex.packageFindings(text)
  {
    var found := lex.packageFindings(text);
    var vs := PackageViolations(lex, p, text);
    if code.PackageFinding? && (code.name, subject) in found {
      var i :| 0 <= i < |found| && found[i] == (code.name, subject);
      assert vs[i] == Violation(code, p, subject);
    }
    if Violation(code, p, subject) in vs {
      var i :| 0 <= i < |vs| && vs[i] == Violation(code, p, subject);
      assert (found[i].0, found[i].1) == found[i];
    }
  }

  lemma Acquisitions(lex: Lexicon, p: string, text: string, code: Code, subject: string)
    ensures Violation(code, p, subject) in AcquisitionViolations(lex, p, text) <==>
            code == UninspectableModuleAcquisition && InProduction(p) && subject in lex.acquisitions(text)
  {
    hide IsProduction, InProduction;
    ProductionMeans(p);
    var found, vs := lex.acquisitions(text), AcquisitionViolations(lex, p, text);
    if IsProduction(p) && code == UninspectableModuleAcquisition && subject in found {
      var i :| 0 <= i < |found| && found[i] == subject;
      assert vs[i] == Violation(code, p, subject);
    }
    if Violation(code, p, subject) in vs {
      var i :| 0 <= i < |vs| && vs[i] == Violation(code, p, subject);
    }
  }

  lemma SomePrivateImport(lex: Lexicon, text: string)
    ensures ImportsPrivately(lex, Specifiers(text)) <==> exists s :: s in Specifiers(text) && MeansPrivate(lex, s)
  {
    hide Specifiers, IsPrivateSpecifier, MeansPrivate;
    forall s ensures IsPrivateSpecifier(lex, s) <==> MeansPrivate(lex, s) {
      PrivateMeans(lex, s);
    }
  }

  /** The rules on specifiers. */
  lemma ImportRules(lex: Lexicon, p: string, code: Code, subject: string)
    requires IsImportCode(code)
    ensures Violates(lex, p, code, subject) <==>
              || (code == NativeAddonImport && NamesAddon(subject))
              || (code == PrivateCudaJsImport && MeansPrivate(lex, subject))
              || (code == EvidenceDependency && InProduction(p) && StartsWith(subject, ".")
                  && TargetSegments(p, subject) != [] && MeansEvidence(TargetSegments(p, subject)))
              || (code == SubprocessRuntime && InProduction(p) && NamesSubprocess(subject))
  {
    hide IsAddon, NamesAddon, IsPrivateSpecifier, MeansPrivate, DependsOnEvidence, IsProduction, InProduction,
         TargetSegments, InEvidenceArea, Lower;
    ProductionMeans(p);
    AddonMeans(subject);
    PrivateMeans(lex, subject);
    EvidenceMeans(p, subject);
    AreaMeans(TargetSegments(p, subject));
  }

  /** The policy reports exactly the rules that a file breaks. */
  lemma RuleIsReported(lex: Lexicon, path: string, text: string, code: Code, subject: string)
    ensures Violation(code, Slash(path), subject) in Violations(lex, path, text) <==>
            Breaks(lex, Slash(path), text, code, subject)
  {
    hide PathViolations, PackageViolations, AcquisitionViolations, MechanismViolations, ImportViolations, Specifiers,
         Slash, IsCodeFile, IsPackageFile, ImportsPrivately, Violates, IsScript, InProduction, LastName, NamesAddon,
         MeansPrivate, MeansEvidence, NamesSubprocess, TargetSegments, IsPython, IsBinary, IsForeignSource,
         IsBuildManifest;
    var p := Slash(path);
    var v := Violation(code, p, subject);
    PathRules(p, code, subject);
    PathCodes(p, v);
    PackageFileMeans(p);
    PackageFindings(lex, p, text, code, subject);
    ScriptMeans(p);
    Acquisitions(lex, p, text, code, subject);
    ImportCodes(lex, p, Specifiers(text), v);
    MechanismCodes(p, lex.mechanisms(text), ImportsPrivately(lex, Specifiers(text)), v);
    SomePrivateImport(lex, text);
    if IsImportCode(code) {
      ImportsReport(lex, p, Specifiers(text), code, subject);
      ImportRules(lex, p, code, subject);
    }
    if code.Mechanism? {
      MechanismIsReported(p, lex.mechanisms(text), ImportsPrivately(lex, Specifiers(text)), code.name, subject);
    }
  }

  lemma PackageFileMeans(p: string)
    ensures IsPackageFile(p) <==> LastName(p) == "package.json"
  {
    hide LastName, Basename, Lower;
    NameMeans(p);
  }
}
