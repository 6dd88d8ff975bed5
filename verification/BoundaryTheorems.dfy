/** What the boundary policy decides, in terms of path segments and extracted specifiers. */
module BoundaryTheorems {
  import opened Base
  import opened PosixPath
  import opened ImportScan
  import opened SourceBoundary

  predicate IsRoot(r: string) {
    r != "" && r[|r| - 1] == '/'
  }

  function Folder(r: string): string
    requires IsRoot(r)
  {
    r[..|r| - 1]
  }

  /** The string test for one root is containment of segments. */
  lemma UnderOne(path: string, r: string)
    requires IsRoot(r)
    ensures path == Folder(r) || StartsWith(path, r) <==> Split(Folder(r)) <= Split(path)
  {
    assert r == Folder(r) + "/";
    if StartsWith(path, r) {
      var rest := path[|r|..];
      assert path == Folder(r) + "/" + rest;
      SplitConcat(Folder(r), rest);
    }
    if Split(Folder(r)) <= Split(path) {
      JoinSplit(path);
      JoinSplit(Folder(r));
      var tail := Split(path)[|Split(Folder(r))|..];
      assert Split(path) == Split(Folder(r)) + tail;
      hide Split;
      JoinConcat(Split(Folder(r)), tail);
    }
  }

  lemma {:induction false} JoinConcat(a: seq<string>, b: seq<string>)
    requires a != []
    ensures Join(a + b) == if b == [] then Join(a) else Join(a) + "/" + Join(b)
  {
    if b == [] {
      assert a + b == a;
    } else if |a| == 1 {
      assert (a + b)[1..] == b;
    } else {
      assert (a + b)[1..] == a[1..] + b && (a + b)[0] == a[0];
      JoinConcat(a[1..], b);
    }
  }

  /** Some root is a prefix of the segments. */
  predicate Contains(roots: seq<string>, segments: seq<string>)
    requires forall i :: 0 <= i < |roots| ==> IsRoot(roots[i])
  {
    exists i :: 0 <= i < |roots| && Split(Folder(roots[i])) <= segments
  }

  lemma UnderIsContainment(path: string, roots: seq<string>)
    requires forall i :: 0 <= i < |roots| ==> IsRoot(roots[i])
    ensures IsUnder(path, roots) <==> Contains(roots, Split(path))
  {
    hide Split;
    forall i | 0 <= i < |roots|
      ensures path == roots[i][..|roots[i]| - 1] || StartsWith(path, roots[i]) <==>
                Split(Folder(roots[i])) <= Split(path)
    {
      UnderOne(path, roots[i]);
    }
  }

  function Directory(parts: seq<string>): seq<string> {
    if parts == [] then [] else parts[..|parts| - 1]
  }

  /** The segments a relative specifier means: the walk from the source's directory, clamped at the root. */
  function TargetSegments(sourcePath: string, specifier: string): seq<string> {
    Walk([], Directory(Parts(Slash(sourcePath))) + Parts(Slash(specifier)), true)
  }

  lemma PlainHasNoUp(walked: seq<string>, body: string)
    requires AllPlain(walked) && Parts(body) == walked
    ensures !StartsWith(body, "../")
  {
    if StartsWith(body, "../") {
      UpComesFirst(body);
    }
  }

  lemma UpComesFirst(body: string)
    requires StartsWith(body, "../")
    ensures Parts(body) != [] && Parts(body)[0] == ".."
  {
    assert body == ".." + "/" + body[3..];
    PartsConcat("..", body[3..]);
    PartsOfSegment("..");
  }

  function Tail(walked: seq<string>, path: string): string {
    if walked != [] && path != "" && path[|path| - 1] == '/' then "/" else ""
  }

  /** Joining to a rooted directory and normalising walks the segments of both from the root. */
  lemma JoinedIsWalked(directory: string, spec: string)
    requires IsAbsolute(directory) && spec != ""
    ensures var walked := Walk([], Parts(directory) + Parts(spec), true);
            && JoinPaths(directory, spec) == "/" + (Join(walked) + Tail(walked, spec))
            && AllPlain(walked) && Parts(Join(walked) + Tail(walked, spec)) == walked
  {
    hide Walk, Parts, Join, AllPlain;
    var path := directory + "/" + spec;
    PartsConcat(directory, spec);
    NormalizeAbsolute(path);
    var walked := Walk([], Parts(directory) + Parts(spec), true);
    var body := Join(walked) + Tail(walked, spec);
    assert path[|path| - 1] == spec[|spec| - 1];
    assert "/" + body == "/" + Join(walked) + Tail(walked, spec);
    PartsOfRooted(body);
  }

  lemma RootedStart(body: string)
    ensures StartsWith("/" + body, "/../") ==> StartsWith(body, "../")
  {
    if StartsWith("/" + body, "/../") {
      assert body[..3] == ("/" + body)[1..4] == "/../"[1..] == "../";
    }
  }

  lemma NoEscape(walked: seq<string>, body: string)
    requires AllPlain(walked) && Parts(body) == walked
    ensures StartsWith("/" + body, "/") && !StartsWith("/" + body, "/../") && ("/" + body)[1..] == body
  {
    hide Parts;
    PlainHasNoUp(walked, body);
    RootedStart(body);
  }

  /** Clamped resolution: the target is the walk of segments, and the escape exit is never taken. */
  lemma TargetIsWalk(sourcePath: string, specifier: string)
    requires StartsWith(specifier, ".")
    ensures var target, walked := ResolvedTarget(sourcePath, specifier), TargetSegments(sourcePath, specifier);
            && target.Some? && AllPlain(walked) && Parts(target.value) == walked
            && target.value == Join(walked) + Tail(walked, Slash(specifier))
  {
    hide Walk, Parts, Join, Slash, Dirname, Normalize, AllPlain, Tail;
    SlashLength(specifier);
    var source, spec := "/" + Slash(sourcePath), Slash(specifier);
    DirnameDropsLast(source);
    PartsOfRooted(Slash(sourcePath));
    JoinedIsWalked(Dirname(source), spec);
    var walked := TargetSegments(sourcePath, specifier);
    NoEscape(walked, Join(walked) + Tail(walked, spec));
    AlreadyNormal(Dirname(source), spec);
  }

  /** The joined path is normal already, so normalising it again changes nothing. */
  lemma AlreadyNormal(directory: string, spec: string)
    requires IsAbsolute(directory) && spec != ""
    ensures Normalize(JoinPaths(directory, spec)) == JoinPaths(directory, spec)
  {
    hide Normalize, Walk, Parts, Join, AllPlain;
    NormalizeAbsolute(directory + "/" + spec);
  }

  lemma WhenHas(c: bool, v: Violation, w: Violation)
    ensures w in When(c, v) <==> c && w == v
  {
  }

  /** The verdicts on a specifier. */
  predicate Violates(lex: Lexicon, p: string, code: Code, specifier: string) {
    match code
    case EvidenceDependency => DependsOnEvidence(p, specifier)
    case PrivateCudaJsImport => IsPrivateSpecifier(lex, specifier)
    case NativeAddonImport => IsAddon(specifier)
    case SubprocessRuntime => IsProduction(p) && Lower(specifier) in ["child_process", "node:child_process"]
    case _ => false
  }

  predicate IsImportCode(code: Code) {
    code == EvidenceDependency || code == PrivateCudaJsImport || code == NativeAddonImport || code == SubprocessRuntime
  }

  lemma {:induction false} ImportsReport(lex: Lexicon, p: string, specifiers: seq<string>, code: Code, spec: string)
    requires IsImportCode(code)
    ensures Violation(code, p, spec) in ImportViolations(lex, p, specifiers) <==>
            spec in specifiers && Violates(lex, p, code, spec)
  {
    hide SpecifierViolations, Violates;
    if specifiers != [] {
      var init, last := specifiers[..|specifiers| - 1], specifiers[|specifiers| - 1];
      ImportsReport(lex, p, init, code, spec);
      SpecifierReports(lex, p, last, code, spec);
      assert specifiers == init + [last];
    }
  }

  lemma SpecifierReports(lex: Lexicon, p: string, specifier: string, code: Code, spec: string)
    requires IsImportCode(code)
    ensures Violation(code, p, spec) in SpecifierViolations(lex, p, specifier) <==>
            spec == specifier && Violates(lex, p, code, specifier)
  {
    hide IsAddon, IsPrivateSpecifier, DependsOnEvidence, IsProduction, Lower;
  }

  lemma {:induction false} MechanismsReportNone(p: string, found: seq<(string, string)>, privateImport: bool,
                                                code: Code, spec: string)
    requires IsImportCode(code)
    ensures Violation(code, p, spec) !in MechanismViolations(p, found, privateImport)
  {
    if found != [] {
      MechanismsReportNone(p, found[..|found| - 1], privateImport, code, spec);
    }
  }

  lemma OthersReportNone(lex: Lexicon, p: string, text: string, code: Code, spec: string)
    requires IsImportCode(code)
    ensures var v := Violation(code, p, spec);
            v !in PathViolations(p) && v !in PackageViolations(lex, p, text)
            && v !in AcquisitionViolations(lex, p, text)
  {
    hide PathViolations, IsProduction;
    PathsReportNone(p, code, spec);
  }

  lemma PathsReportNone(p: string, code: Code, spec: string)
    requires IsImportCode(code)
    ensures Violation(code, p, spec) !in PathViolations(p)
  {
    hide IsEvidence, Basename, Extname, Lower, Split, IsProduction, StartsWith, EndsWith, When;
    forall c, w: Violation | !IsImportCode(w.code) ensures Violation(code, p, spec) !in When(c, w) {
      WhenHas(c, w, Violation(code, p, spec));
    }
  }

  /** They are reported exactly for the extracted specifiers of a code file that violate them. */
  lemma MeaningIsReported(lex: Lexicon, path: string, text: string, code: Code, spec: string)
    requires IsImportCode(code)
    ensures var p := Slash(path);
            Violation(code, p, spec) in Violations(lex, path, text) <==>
              IsCodeFile(p) && spec in Specifiers(text) && Violates(lex, p, code, spec)
  {
    hide PathViolations, PackageViolations, AcquisitionViolations, MechanismViolations, ImportViolations, Specifiers,
         Slash, IsCodeFile, IsPackageFile, ImportsPrivately, Violates;
    var p := Slash(path);
    OthersReportNone(lex, p, text, code, spec);
    ImportsReport(lex, p, Specifiers(text), code, spec);
    MechanismsReportNone(p, lex.mechanisms(text), ImportsPrivately(lex, Specifiers(text)), code, spec);
  }

  lemma ProductionIsMaintained(p: string)
    ensures IsProduction(p) ==> IsMaintained(p)
  {
    if IsProduction(p) {
      var i :| 0 <= i < |PRODUCTION_ROOTS| &&
        (p == PRODUCTION_ROOTS[i][..|PRODUCTION_ROOTS[i]| - 1] || StartsWith(p, PRODUCTION_ROOTS[i]));
      assert MAINTAINED_ROOTS[i] == PRODUCTION_ROOTS[i];
    }
  }

  lemma EvidenceRootsAreRoots()
    ensures forall i :: 0 <= i < |EVIDENCE_ROOTS| ==> IsRoot(EVIDENCE_ROOTS[i])
    ensures forall i :: 0 <= i < |ARCHIVE_ROOTS| ==> IsRoot(ARCHIVE_ROOTS[i])
  {
    assert EVIDENCE_ROOTS[0][10] == '/' && EVIDENCE_ROOTS[1][11] == '/' && EVIDENCE_ROOTS[2][11] == '/';
    assert EVIDENCE_ROOTS[3][5] == '/' && ARCHIVE_ROOTS[0][12] == '/';
  }

  /** Segments that lie in an evidence or archive area. */
  predicate InEvidenceArea(segments: seq<string>) {
    EvidenceRootsAreRoots();
    Contains(EVIDENCE_ROOTS, segments) || Contains(ARCHIVE_ROOTS, segments)
  }

  lemma OneRoot(name: string)
    requires IsSegment(name)
    ensures IsRoot(name + "/") && Folder(name + "/") == name && Split(name) == [name]
  {
    SplitOne(name);
  }

  lemma RootsHaveSegments()
    ensures forall i :: 0 <= i < |EVIDENCE_ROOTS| ==>
              IsRoot(EVIDENCE_ROOTS[i]) && AllSegments(Split(Folder(EVIDENCE_ROOTS[i])))
    ensures forall i :: 0 <= i < |ARCHIVE_ROOTS| ==>
              IsRoot(ARCHIVE_ROOTS[i]) && AllSegments(Split(Folder(ARCHIVE_ROOTS[i])))
  {
    hide Split, Folder, IsRoot;
    var names := ["benchmarks", "conformance", "experiments", "tests"];
    forall i | 0 <= i < |names| ensures EVIDENCE_ROOTS[i] == names[i] + "/" && IsSegment(names[i]) {
    }
    forall i | 0 <= i < |names| ensures IsRoot(EVIDENCE_ROOTS[i]) && Split(Folder(EVIDENCE_ROOTS[i])) == [names[i]] {
      OneRoot(names[i]);
    }
    ArchiveRoot();
  }

  lemma ArchiveRoot()
    ensures IsRoot(ARCHIVE_ROOTS[0]) && Split(Folder(ARCHIVE_ROOTS[0])) == ["docs", "archive"]
  {
    hide Split;
    assert IsSegment("docs") && IsSegment("archive");
    OneRoot("docs");
    OneRoot("archive");
    SplitConcat("docs", "archive");
    assert ARCHIVE_ROOTS[0] == "docs" + "/" + "archive" + "/";
    assert Folder(ARCHIVE_ROOTS[0]) == "docs" + "/" + "archive";
  }

  /** A trailing slash does not matter to a prefix of named segments. */
  lemma NamedPrefix(root: seq<string>, walked: seq<string>, path: string)
    requires root != [] && AllSegments(root) && AllSegments(walked)
    requires path == Join(walked) || (walked != [] && path == Join(walked) + "/")
    ensures root <= Split(path) <==> root <= walked
  {
    hide Split, Join;
    SplitOne("");
    assert forall r: seq<string> :: AllSegments(r + [""]) ==> IsSegment((r + [""])[|r|]);
    assert [""] == [] + [""];
    if walked == [] {
      assert path == "" by { assert Join([]) == "" by { JoinNothing(); } }
      assert root <= Split(path) ==> root == [""];
    } else {
      SplitJoin(walked);
      if path != Join(walked) {
        assert path == Join(walked) + "/" + "";
        SplitConcat(Join(walked), "");
        assert Split(path) == walked + [""];
        assert root <= walked + [""] && |root| > |walked| ==> root == walked + [""];
      }
    }
  }

  lemma JoinNothing()
    ensures Join([]) == ""
  {
  }

  lemma ContainedTarget(roots: seq<string>, p: string, spec: string)
    requires StartsWith(spec, ".")
    requires forall i :: 0 <= i < |roots| ==> IsRoot(roots[i]) && AllSegments(Split(Folder(roots[i])))
    ensures ResolvedTarget(p, spec).Some?
    ensures IsUnder(ResolvedTarget(p, spec).value, roots) <==> Contains(roots, TargetSegments(p, spec))
  {
    hide ResolvedTarget, TargetSegments, Split, Join, IsUnder, Slash;
    TargetIsWalk(p, spec);
    var target, walked := ResolvedTarget(p, spec).value, TargetSegments(p, spec);
    UnderIsContainment(target, roots);
    forall i | 0 <= i < |roots|
      ensures Split(Folder(roots[i])) <= Split(target) <==> Split(Folder(roots[i])) <= walked
    {
      NamedPrefix(Split(Folder(roots[i])), walked, target);
    }
  }

  /** A specifier depends on evidence exactly if it is relative and means segments in an evidence area. */
  lemma EvidenceMeans(p: string, spec: string)
    ensures DependsOnEvidence(p, spec) <==>
            IsProduction(p) && StartsWith(spec, ".") && InEvidenceArea(TargetSegments(p, spec))
  {
    hide ResolvedTarget, IsProduction, IsUnder, Contains, TargetSegments, Split;
    OnlyRelativeTargets(p, spec);
    RootsHaveSegments();
    NothingIsNoEvidence();
    if StartsWith(spec, ".") {
      ContainedTarget(EVIDENCE_ROOTS, p, spec);
      ContainedTarget(ARCHIVE_ROOTS, p, spec);
    }
  }

  /**
   * The verdict on one file: a dependency on evidence is reported exactly for each extracted
   * relative specifier of a production script that means a path in an evidence area.
   */
  lemma EvidenceIsReported(lex: Lexicon, path: string, text: string, spec: string)
    ensures var p := Slash(path);
            Violation(EvidenceDependency, p, spec) in Violations(lex, path, text) <==>
              && IsProduction(p) && Extname(Lower(p)) in CODE_SUFFIXES
              && spec in Specifiers(text) && StartsWith(spec, ".") && InEvidenceArea(TargetSegments(p, spec))
  {
    hide Violations, Specifiers, Slash, Lower, Extname, IsUnder, DependsOnEvidence, InEvidenceArea, TargetSegments;
    var p := Slash(path);
    MeaningIsReported(lex, path, text, EvidenceDependency, spec);
    EvidenceMeans(p, spec);
    ProductionIsMaintained(p);
  }

  lemma OnlyRelativeTargets(p: string, spec: string)
    ensures ResolvedTarget(p, spec).Some? ==> StartsWith(spec, ".")
  {
    hide Normalize, JoinPaths, Dirname, Slash;
  }

  lemma NothingIsNoEvidence()
    ensures !IsEvidence("")
  {
  }
}
