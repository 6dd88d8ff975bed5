/** The whole-tree run: every file the walk lists, in sorted order, judged on the text the tool reads. */
module TreeVerdict {
  import opened Base
  import opened Listing
  import opened PosixPath
  import opened ImportScan
  import opened SourceBoundary
  import opened BoundaryTheorems
  import opened PrivateImports
  import opened PolicyRules
  import opened TextFilter
  import opened TreeCheck

  function TreeViolations(lex: Lexicon, contents: string -> string, files: seq<string>): seq<Violation> {
    if files == [] then []
    else
      var last := files[|files| - 1];
      TreeViolations(lex, contents, files[..|files| - 1]) + Violations(lex, last, FileText(last, contents(last)))
  }

  /** The run as the tool does it; it passes exactly when nothing was pushed. */
  method CheckTree(lex: Lexicon, contents: string -> string, entries: seq<Entry>)
    returns (violations: seq<Violation>, passed: bool)
    ensures violations == TreeViolations(lex, contents, SortList(WalkFiles(entries, "")))
    ensures passed <==> forall path :: path in WalkFiles(entries, "") ==>
                                         Violations(lex, path, FileText(path, contents(path))) == []
    ensures ProperNames(entries) && DistinctNames(entries) ==> Ascending(SortList(WalkFiles(entries, "")))
  {
    hide Violations, FileText, WalkFiles, SortList, ProperNames, DistinctNames;
    if ProperNames(entries) && DistinctNames(entries) {
      WalkHasNoRepeats(entries, "");
      SortListIsSorted(WalkFiles(entries, ""));
    }
    var walked := WalkTree(entries, "");
    var files := SortList(walked);
    violations := [];
    var i := 0;
    while i < |files|
      invariant i <= |files|
      invariant violations == TreeViolations(lex, contents, files[..i])
    {
      assert files[..i + 1][..i] == files[..i];
      var found := ViolationsForFile(lex, files[i], FileText(files[i], contents(files[i])));
      violations := violations + found;
      i := i + 1;
    }
    assert files[..i] == files;
    passed := violations == [];
    TreePasses(lex, contents, files);
  }

  lemma {:induction false} TreePasses(lex: Lexicon, contents: string -> string, files: seq<string>)
    ensures TreeViolations(lex, contents, files) == [] <==>
            forall path :: path in files ==> Violations(lex, path, FileText(path, contents(path))) == []
  {
    hide Violations, FileText;
    if files != [] {
      var init, last := files[..|files| - 1], files[|files| - 1];
      TreePasses(lex, contents, init);
      assert files == init + [last];
    }
  }

  lemma {:induction false} TreeReports(lex: Lexicon, contents: string -> string, files: seq<string>, v: Violation)
    ensures v in TreeViolations(lex, contents, files) <==>
            exists path :: path in files && v in Violations(lex, path, FileText(path, contents(path)))
  {
    hide Violations, FileText;
    if files != [] {
      var init, last := files[..|files| - 1], files[|files| - 1];
      TreeReports(lex, contents, init, v);
      assert files == init + [last];
    }
  }

  lemma {:induction false} ReportNamesItsFile(lex: Lexicon, path: string, text: string, v: Violation)
    requires v in Violations(lex, path, text)
    ensures v.path == Slash(path)
  {
    hide Slash, IsPackageFile, IsCodeFile, Specifiers, ImportsPrivately, PathViolations, IsProduction,
         ImportViolations, MechanismViolations;
    var p := Slash(path);
    PathsNameTheirFile(p, v);
    ImportsNameTheirFile(lex, p, Specifiers(text), v);
    MechanismsNameTheirFile(p, lex.mechanisms(text), ImportsPrivately(lex, Specifiers(text)), v);
  }

  lemma PathsNameTheirFile(p: string, v: Violation)
    ensures v in PathViolations(p) ==> v.path == p
  {
    hide IsEvidence, Basename, Extname, Lower, Split, StartsWith, EndsWith, When;
    forall c, w: Violation | w.path == p ensures v in When(c, w) ==> v.path == p {
      WhenHas(c, w, v);
    }
  }

  lemma {:induction false} ImportsNameTheirFile(lex: Lexicon, p: string, specifiers: seq<string>, v: Violation)
    ensures v in ImportViolations(lex, p, specifiers) ==> v.path == p
  {
    hide IsAddon, IsPrivateSpecifier, DependsOnEvidence, IsProduction, Lower;
    if specifiers != [] {
      ImportsNameTheirFile(lex, p, specifiers[..|specifiers| - 1], v);
    }
  }

  lemma {:induction false} MechanismsNameTheirFile(p: string, found: seq<(string, string)>, privateImport: bool,
                                                   v: Violation)
    ensures v in MechanismViolations(p, found, privateImport) ==> v.path == p
  {
    if found != [] {
      MechanismsNameTheirFile(p, found[..|found| - 1], privateImport, v);
    }
  }

  /** On the text the tool reads, a code file is seen in full or, behind a trailing backslash, not at all. */
  lemma ReadSpecifiers(path: string, content: string, spec: string)
    requires IsCodeFile(Slash(path))
    ensures spec in Specifiers(FileText(path, content)) <==> !EndsInBackslash(path) && spec in Specifiers(content)
  {
    hide PatternSpecifiers, IsCodeFile, IsPackageFile, Slash, ReadsText, EndsInBackslash;
    if EndsInBackslash(path) {
      BackslashIsUnread(path);
      NoTextNoSpecifiers(StaticImport);
      NoTextNoSpecifiers(ImportCall);
      NoTextNoSpecifiers(RequireCall);
    } else {
      ConsultedIsRead(path);
    }
  }

  lemma OneFile(lex: Lexicon, contents: string -> string, path: string, code: Code, spec: string)
    requires IsImportCode(code)
    ensures var p := Slash(path);
            Violation(code, p, spec) in Violations(lex, path, FileText(path, contents(path))) <==>
              && IsCodeFile(p) && !EndsInBackslash(path)
              && spec in Specifiers(contents(path)) && Violates(lex, p, code, spec)
  {
    hide Violations, FileText, Slash, IsCodeFile, Specifiers, EndsInBackslash, Violates, IsImportCode;
    MeaningIsReported(lex, path, FileText(path, contents(path)), code, spec);
    if IsCodeFile(Slash(path)) {
      ReadSpecifiers(path, contents(path), spec);
    }
  }

  /** A script of the tree, read by the tool, that imports the specifier and thereby violates the rule. */
  ghost predicate Imports(lex: Lexicon, contents: string -> string, entries: seq<Entry>, code: Code, path: string,
                          spec: string)
  {
    && HasFile(entries, Split(path)) && IsCodeFile(Slash(path)) && !EndsInBackslash(path)
    && spec in Specifiers(contents(path)) && Violates(lex, Slash(path), code, spec)
  }

  lemma TreeVerdictOn(lex: Lexicon, contents: string -> string, entries: seq<Entry>, code: Code, p: string,
                      spec: string)
    requires ProperNames(entries) && IsImportCode(code)
    ensures var v := Violation(code, p, spec);
            v in TreeViolations(lex, contents, SortList(WalkFiles(entries, ""))) <==>
            exists path :: Slash(path) == p && Imports(lex, contents, entries, code, path, spec)
  {
    hide Violations, FileText, Slash, HasFile, WalkFiles, Split, IsCodeFile, Specifiers, EndsInBackslash, ProperNames,
         SortList, Violates, IsImportCode;
    var files := SortList(WalkFiles(entries, ""));
    var v := Violation(code, p, spec);
    TreeReports(lex, contents, files, v);
    forall path
      ensures (path in files && v in Violations(lex, path, FileText(path, contents(path)))) <==>
              (Slash(path) == p && Imports(lex, contents, entries, code, path, spec))
    {
      WalkIsExact(entries, "", path);
      if v in Violations(lex, path, FileText(path, contents(path))) {
        ReportNamesItsFile(lex, path, FileText(path, contents(path)), v);
      }
      OneFile(lex, contents, path, code, spec);
    }
  }

  /** A production script of the tree that imports evidence through the given relative specifier. */
  ghost predicate ImportsEvidence(contents: string -> string, entries: seq<Entry>, path: string, spec: string) {
    var p := Slash(path);
    && HasFile(entries, Split(path)) && IsProduction(p) && Extname(Lower(p)) in CODE_SUFFIXES && !EndsInBackslash(path)
    && spec in Specifiers(contents(path)) && StartsWith(spec, ".") && InEvidenceArea(TargetSegments(p, spec))
  }

  /**
   * The verdict on the whole tree: an evidence dependency is reported exactly for each relative
   * specifier of a production script outside .git that means segments in an evidence area, save for
   * scripts whose name ends in a backslash.
   */
  lemma EvidenceVerdict(lex: Lexicon, contents: string -> string, entries: seq<Entry>, p: string, spec: string)
    requires ProperNames(entries)
    ensures var v := Violation(EvidenceDependency, p, spec);
            v in TreeViolations(lex, contents, SortList(WalkFiles(entries, ""))) <==>
            exists path :: Slash(path) == p && ImportsEvidence(contents, entries, path, spec)
  {
    hide TreeViolations, Slash, HasFile, WalkFiles, Split, IsProduction, IsMaintained, Extname, Lower, Specifiers,
         DependsOnEvidence, InEvidenceArea, TargetSegments, EndsInBackslash, ProperNames, SortList;
    TreeVerdictOn(lex, contents, entries, EvidenceDependency, p, spec);
    EvidenceMeans(p, spec);
    ProductionIsMaintained(p);
    forall path | Slash(path) == p
      ensures Imports(lex, contents, entries, EvidenceDependency, path, spec) <==>
              ImportsEvidence(contents, entries, path, spec)
    {
    }
  }

  /** A maintained script of the tree that imports another package's internals through the given specifier. */
  ghost predicate ImportsInternals(lex: Lexicon, contents: string -> string, entries: seq<Entry>, path: string,
                                   spec: string)
  {
    && HasFile(entries, Split(path)) && IsCodeFile(Slash(path)) && !EndsInBackslash(path)
    && spec in Specifiers(contents(path)) && MeansPrivate(lex, spec)
  }

  /**
   * A private import is reported exactly for each specifier of a maintained script outside .git that
   * means a private path of the package, save for scripts whose name ends in a backslash.
   */
  lemma PrivateVerdict(lex: Lexicon, contents: string -> string, entries: seq<Entry>, p: string, spec: string)
    requires ProperNames(entries)
    ensures var v := Violation(PrivateCudaJsImport, p, spec);
            v in TreeViolations(lex, contents, SortList(WalkFiles(entries, ""))) <==>
            exists path :: Slash(path) == p && ImportsInternals(lex, contents, entries, path, spec)
  {
    hide TreeViolations, Slash, HasFile, WalkFiles, Split, IsCodeFile, Specifiers, IsPrivateSpecifier, MeansPrivate,
         EndsInBackslash, ProperNames, SortList;
    TreeVerdictOn(lex, contents, entries, PrivateCudaJsImport, p, spec);
    PrivateMeans(lex, spec);
    forall path | Slash(path) == p
      ensures Imports(lex, contents, entries, PrivateCudaJsImport, path, spec) <==>
              ImportsInternals(lex, contents, entries, path, spec)
    {
    }
  }

  // ----- every rule

  /** A file of the tree breaks a rule, by its path or by the text the tool reads of it. */
  ghost predicate FileBreaks(lex: Lexicon, contents: string -> string, entries: seq<Entry>, path: string, code: Code,
                             subject: string)
  {
    && HasFile(entries, Split(path))
    && Breaks(lex, Slash(path), if EndsInBackslash(path) then "" else contents(path), code, subject)
  }

  /** The text matters only where the policy looks at it. */
  lemma UnconsultedText(lex: Lexicon, path: string, text: string, other: string, code: Code, subject: string)
    requires !Consults(path)
    ensures Breaks(lex, Slash(path), text, code, subject) <==> Breaks(lex, Slash(path), other, code, subject)
  {
    hide Slash, IsCodeFile, IsPackageFile, IsScript, LastName, InProduction, Specifiers, MeansPrivate, NamesAddon,
         TargetSegments, MeansEvidence, NamesSubprocess, IsPython, IsBinary, IsForeignSource, IsBuildManifest;
    ScriptMeans(Slash(path));
    PackageFileMeans(Slash(path));
  }

  lemma ReadTextBreaks(lex: Lexicon, path: string, content: string, code: Code, subject: string)
    ensures Breaks(lex, Slash(path), FileText(path, content), code, subject) <==>
            Breaks(lex, Slash(path), if EndsInBackslash(path) then "" else content, code, subject)
  {
    hide Slash, Breaks, EndsInBackslash, ReadsText, Consults;
    if !Consults(path) {
      UnconsultedText(lex, path, FileText(path, content), if EndsInBackslash(path) then "" else content, code, subject);
    } else if EndsInBackslash(path) {
      BackslashIsUnread(path);
    } else {
      ConsultedIsRead(path);
    }
  }

  /**
   * The verdict on the whole tree, for every rule: a violation is reported exactly if some file outside
   * .git breaks the rule, where of a file whose name ends in a backslash no text is seen.
   */
  lemma RuleVerdict(lex: Lexicon, contents: string -> string, entries: seq<Entry>, p: string, code: Code,
                    subject: string)
    requires ProperNames(entries)
    ensures Violation(code, p, subject) in TreeViolations(lex, contents, SortList(WalkFiles(entries, ""))) <==>
            exists path :: Slash(path) == p && FileBreaks(lex, contents, entries, path, code, subject)
  {
    hide Violations, FileText, Slash, HasFile, WalkFiles, Split, EndsInBackslash, ProperNames, SortList, Breaks;
    var files := SortList(WalkFiles(entries, ""));
    var v := Violation(code, p, subject);
    TreeReports(lex, contents, files, v);
    forall path
      ensures (path in files && v in Violations(lex, path, FileText(path, contents(path)))) <==>
              (Slash(path) == p && FileBreaks(lex, contents, entries, path, code, subject))
    {
      WalkIsExact(entries, "", path);
      if v in Violations(lex, path, FileText(path, contents(path))) {
        ReportNamesItsFile(lex, path, FileText(path, contents(path)), v);
      }
      RuleIsReported(lex, path, FileText(path, contents(path)), code, subject);
      ReadTextBreaks(lex, path, contents(path), code, subject);
    }
  }
}
