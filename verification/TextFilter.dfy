/** Which files the whole-tree run reads, and when skipping the others cannot change the verdict. */
module TextFilter {
  import opened Base
  import opened PosixPath
  import opened Regex
  import opened ImportScan
  import opened SourceBoundary

  /** The tool decides on the raw path, without turning backslashes into slashes. */
  predicate ReadsText(path: string) {
    var lower := Lower(path);
    Extname(lower) in CODE_SUFFIXES || Extname(lower) == ".json" || Basename(lower) == "package.json"
  }

  function FileText(path: string, content: string): string {
    if ReadsText(path) then content else ""
  }

  /** The policy looks at the text of a file. */
  predicate Consults(path: string) {
    IsPackageFile(Slash(path)) || IsCodeFile(Slash(path))
  }

  /** The last segment, trailing slashes aside, ends in a backslash. */
  predicate EndsInBackslash(path: string) {
    var t := TrimSlashes(path);
    t != "" && t[|t| - 1] == '\\'
  }

  lemma LowerCommutes(path: string)
    ensures Lower(Slash(path)) == Slash(Lower(path))
    ensures |Lower(path)| == |path|
    ensures forall i :: 0 <= i < |path| ==> (Lower(path)[i] == '/' <==> path[i] == '/')
                                            && (Lower(path)[i] == '\\' <==> path[i] == '\\')
  {
  }

  lemma TrimLength(a: string, b: string)
    requires |a| == |b| && forall i :: 0 <= i < |a| ==> (a[i] == '/' <==> b[i] == '/')
    ensures |TrimSlashes(a)| == |TrimSlashes(b)|
  {
    var m, n := |TrimSlashes(a)|, |TrimSlashes(b)|;
    assert m > 0 ==> TrimSlashes(a)[m - 1] == a[m - 1];
    assert n > 0 ==> TrimSlashes(b)[n - 1] == b[n - 1];
  }

  lemma LowerKeepsTail(path: string)
    ensures EndsInBackslash(Lower(path)) <==> EndsInBackslash(path)
  {
    LowerCommutes(path);
    TrimLength(path, Lower(path));
  }

  predicate IsSuffix(v: string, u: string) {
    |v| <= |u| && u[|u| - |v|..] == v && (|v| < |u| ==> u[|u| - |v| - 1] == '\\')
  }

  lemma SlashAt(t: string, k: nat)
    requires k < |t|
    ensures |Slash(t)| == |t| && Slash(t)[k] == SlashChar(t[k])
  {
  }

  /** A stretch without separators reads the same on both sides. */
  lemma {:induction false} SameTail(t: string, j: nat)
    requires |Slash(t)| == |t| && j <= |t| && forall k :: j <= k < |t| ==> Slash(t)[k] != '/'
    ensures Slash(t)[j..] == t[j..]
    ensures forall k :: j <= k < |t| ==> t[k] != '/'
  {
    hide Slash;
    forall k | j <= k < |t| ensures Slash(t)[k] == t[k] != '/' {
      SlashAt(t, k);
    }
  }

  /** Past the policy's last separator nothing is replaced; the separator itself may be a backslash. */
  lemma SeparatorsNest(t: string)
    ensures AfterLastSlash(t) <= AfterLastSlash(Slash(t)) <= |t|
    ensures Slash(t)[AfterLastSlash(Slash(t))..] == t[AfterLastSlash(Slash(t))..]
    ensures AfterLastSlash(t) < AfterLastSlash(Slash(t)) ==> t[AfterLastSlash(Slash(t)) - 1] == '\\'
  {
    hide AfterLastSlash, Slash;
    var i, j := AfterLastSlash(t), AfterLastSlash(Slash(t));
    SlashLength(t);
    SameTail(t, j);
    if j > 0 {
      SlashAt(t, j - 1);
    }
  }

  /** Without a trailing backslash, the policy's base name is what follows the last backslash of the tool's. */
  lemma BasenamesNest(x: string)
    requires !EndsInBackslash(x)
    ensures IsSuffix(Basename(Slash(x)), Basename(x))
    ensures Basename(Slash(x)) == "" ==> Basename(x) == ""
  {
    hide AfterLastSlash, Slash, TrimSlashes;
    var t := TrimSlashes(x);
    SlashTrims(x);
    SeparatorsNest(t);
    var i, j := AfterLastSlash(t), AfterLastSlash(Slash(t));
    assert t[i..][j - i..] == t[j..];
    assert j > i ==> t[i..][j - i - 1] == t[j - 1];
  }

  lemma SlashTrims(x: string)
    requires !EndsInBackslash(x)
    ensures TrimSlashes(Slash(x)) == Slash(TrimSlashes(x))
  {
    var n, m := |TrimSlashes(x)|, |TrimSlashes(Slash(x))|;
    assert n > 0 ==> TrimSlashes(x)[n - 1] == x[n - 1] && Slash(x)[n - 1] == SlashChar(x[n - 1]);
    assert m > 0 ==> TrimSlashes(Slash(x))[m - 1] == Slash(x)[m - 1];
  }

  lemma LastDotIsUnique(s: string, i: nat)
    requires i < |s| && s[i] == '.' && forall j :: i < j < |s| ==> s[j] != '.'
    ensures LastDot(s) == i
  {
    var k := LastDot(s);
    assert s[i] in s;
  }

  lemma SuffixDot(v: string, u: string)
    requires IsSuffix(v, u) && LastDot(v) < |v|
    ensures LastDot(u) == |u| - |v| + LastDot(v)
  {
    hide LastDot;
    var d, k := LastDot(v), |u| - |v|;
    forall j | k <= j < |u| ensures u[j] == v[j - k] {
      assert u[k..][j - k] == u[j];
    }
    LastDotIsUnique(u, k + d);
  }

  /** An extension survives whatever stands before a backslash. */
  lemma ExtensionSurvives(v: string, u: string)
    requires IsSuffix(v, u) && ExtensionOf(v) != ""
    ensures ExtensionOf(u) == ExtensionOf(v)
  {
    hide LastDot;
    var d, k := LastDot(v), |u| - |v|;
    SuffixDot(v, u);
    assert u[k + d..] == u[k..][d..] == v[d..];
    assert k == 0 ==> u[0..] == u && u == v;
  }

  lemma PackageExtension()
    ensures ExtensionOf("package.json") == ".json"
  {
    LastDotIsUnique("package.json", 7);
    assert "package.json"[7..] == ".json";
  }

  lemma CodeSuffixesAreNotEmpty()
    ensures "" !in CODE_SUFFIXES
  {
  }

  /** Every file the policy consults is read, unless its name ends in a backslash. */
  lemma ConsultedIsRead(path: string)
    requires Consults(path) && !EndsInBackslash(path)
    ensures ReadsText(path)
  {
    hide Basename, Slash, Lower, TrimSlashes, ExtensionOf;
    var x := Lower(path);
    LowerCommutes(path);
    LowerKeepsTail(path);
    BasenamesNest(x);
    PackageExtension();
    CodeSuffixesAreNotEmpty();
    if ExtensionOf(Basename(Slash(x))) != "" {
      ExtensionSurvives(Basename(Slash(x)), Basename(x));
    }
  }

  lemma LastLetters(s: string)
    requires s in CODE_SUFFIXES || s == ".json" || s == "package.json"
    ensures s != "" && s[|s| - 1] != '\\'
  {
  }

  /** A file whose name ends in a backslash is never read. */
  lemma BackslashIsUnread(path: string)
    requires EndsInBackslash(path)
    ensures !ReadsText(path)
  {
    var x := Lower(path);
    LowerKeepsTail(path);
    var t := TrimSlashes(x);
    var u := Basename(x);
    assert u != "" && u[|u| - 1] == '\\' by {
      assert AfterLastSlash(t) < |t|;
    }
    var e := ExtensionOf(u);
    assert e != "" ==> e[|e| - 1] == u[|u| - 1];
    if ReadsText(path) {
      if u == "package.json" {
        LastLetters(u);
      } else {
        LastLetters(e);
      }
    }
  }

  lemma UnconsultedTextIsIgnored(lex: Lexicon, path: string, a: string, b: string)
    requires !Consults(path)
    ensures Violations(lex, path, a) == Violations(lex, path, b)
  {
    hide IsPackageFile, IsCodeFile, Slash;
  }

  const SAMPLE := "require(\"nan\")"

  lemma SampleMatch()
    ensures ScanAt(RequireCall, SAMPLE, 0) == Some(State(14, 9, 12))
    ensures |SAMPLE| == 14 && SAMPLE[9..12] == "nan"
  {
    var t := SAMPLE;
    assert t[0..7] == "require" && t[7..8] == "(" && t[13..14] == ")" && t[9..12] == "nan";
    assert t[8] == '"' && t[9] == 'n' && t[10] == 'a' && t[11] == 'n' && t[12] == '"' && |t| == 14;
    SampleRuns();
    hide RunEnd;
    assert SpecifierAt(t, 8) == Some(State(13, 9, 12));
  }

  lemma SampleRuns()
    ensures SkipSpace(SAMPLE, 7) == 7 && SkipSpace(SAMPLE, 8) == 8 && SkipSpace(SAMPLE, 13) == 13
    ensures NextQuote(SAMPLE, 9) == 12
  {
    var t := SAMPLE;
    assert t[7] == '(' && t[8] == '"' && t[13] == ')';
    assert t[9] == 'n' && t[10] == 'a' && t[11] == 'n' && t[12] == '"' && |t| == 14;
    RunEndIsUnique(t, Except(QUOTES), 9, 12);
  }

  lemma SampleSpecifier()
    ensures "nan" in Specifiers(SAMPLE)
  {
    hide ScanAt, MatchAll, Pattern.Regex;
    var t := SAMPLE;
    SampleMatch();
    ScanIsOrdered(RequireCall, t, 0);
    SearchIsScan(RequireCall, t, 0);
    var ms := ScanAll(RequireCall, t, 0);
    assert ms[0] == State(14, 9, 12);
    assert Captured(t, ms)[0] == t[9..12];
    assert PatternSpecifiers(RequireCall, t)[0] == "nan";
  }

  lemma {:induction false} NoTextNoSpecifiers(pattern: Pattern)
    ensures PatternSpecifiers(pattern, "") == []
  {
    SearchIsScan(pattern, "", 0);
    assert ScanAt(pattern, "", 0) == None;
  }

  lemma AddonIsReported(lex: Lexicon, p: string, specifiers: seq<string>)
    ensures "nan" in specifiers ==> Violation(NativeAddonImport, p, "nan") in ImportViolations(lex, p, specifiers)
    decreases |specifiers|
  {
    hide IsPrivateSpecifier, DependsOnEvidence, IsProduction;
    if "nan" in specifiers {
      var last := specifiers[|specifiers| - 1];
      assert specifiers == specifiers[..|specifiers| - 1] + [last];
      if last == "nan" {
        assert Lower("nan") == "nan" && ADDON_PACKAGES[4] == "nan";
        assert IsAddon(last);
      } else {
        AddonIsReported(lex, p, specifiers[..|specifiers| - 1]);
      }
    }
  }

  lemma {:induction false} MechanismsAreNoAddon(p: string, found: seq<(string, string)>, privateImport: bool)
    ensures Violation(NativeAddonImport, p, "nan") !in MechanismViolations(p, found, privateImport)
  {
    if found != [] {
      MechanismsAreNoAddon(p, found[..|found| - 1], privateImport);
    }
  }

  /** The verdict on a code file does depend on its text. */
  lemma CodeTextMatters(lex: Lexicon, path: string)
    requires IsCodeFile(Slash(path))
    ensures Violations(lex, path, SAMPLE) != Violations(lex, path, "")
  {
    hide PathViolations, PackageViolations, AcquisitionViolations, MechanismViolations, Specifiers, IsCodeFile,
         IsPackageFile, ImportsPrivately, Slash;
    var p := Slash(path);
    var v := Violation(NativeAddonImport, p, "nan");
    SampleSpecifier();
    AddonIsReported(lex, p, Specifiers(SAMPLE));
    assert v in Violations(lex, path, SAMPLE);
    EmptyReportsNoAddon(lex, p);
    assert v !in Violations(lex, path, "");
  }

  lemma EmptyReportsNoAddon(lex: Lexicon, p: string)
    ensures var v := Violation(NativeAddonImport, p, "nan");
            && Specifiers("") == [] && v !in PathViolations(p) && v !in PackageViolations(lex, p, "")
            && v !in AcquisitionViolations(lex, p, "")
            && v !in MechanismViolations(p, lex.mechanisms(""), ImportsPrivately(lex, Specifiers("")))
  {
    hide IsEvidence, Basename, Extname, Lower, Split, IsProduction, PatternSpecifiers, MechanismViolations;
    NoTextNoSpecifiers(StaticImport);
    NoTextNoSpecifiers(ImportCall);
    NoTextNoSpecifiers(RequireCall);
    MechanismsAreNoAddon(p, lex.mechanisms(""), ImportsPrivately(lex, Specifiers("")));
  }

  lemma PackageIsNoCode(path: string)
    ensures IsPackageFile(Slash(path)) ==> !IsCodeFile(Slash(path))
  {
    PackageExtension();
    assert CODE_SUFFIXES[0] != ".json" && CODE_SUFFIXES[1] != ".json" && CODE_SUFFIXES[2] != ".json";
    assert |".json"| == 5 && |".jsx"| == 4;
  }

  /** What the policy says of a file's whole text, it says of the text the tool chooses to read. */
  ghost predicate Lossless(lex: Lexicon, path: string) {
    forall content :: Violations(lex, path, FileText(path, content)) == Violations(lex, path, content)
  }

  ghost predicate PackagesMatter(lex: Lexicon) {
    exists content :: lex.packageFindings(content) != lex.packageFindings("")
  }

  /**
   * The text filter is lossless exactly when the policy does not consult the file or the file's
   * name does not end in a backslash: only such a name makes the two readings of a path differ.
   */
  lemma FilterIsLossless(lex: Lexicon, path: string)
    ensures !Consults(path) || !EndsInBackslash(path) ==> Lossless(lex, path)
    ensures Lossless(lex, path) && (PackagesMatter(lex) || !IsPackageFile(Slash(path))) ==>
              !Consults(path) || !EndsInBackslash(path)
  {
    hide Violations, EndsInBackslash, ReadsText, IsPackageFile, IsCodeFile, Slash;
    if !Consults(path) {
      forall content ensures Violations(lex, path, FileText(path, content)) == Violations(lex, path, content) {
        UnconsultedTextIsIgnored(lex, path, FileText(path, content), content);
      }
    } else if !EndsInBackslash(path) {
      ConsultedIsRead(path);
    } else {
      BackslashIsUnread(path);
      PackageIsNoCode(path);
      if IsCodeFile(Slash(path)) {
        CodeTextMatters(lex, path);
        assert FileText(path, SAMPLE) == "";
      } else if PackagesMatter(lex) {
        var content :| lex.packageFindings(content) != lex.packageFindings("");
        PackageTextMatters(lex, path, content);
        assert FileText(path, content) == "";
      }
    }
  }

  /** For instance, the policy judges `tools/a.js\` as a script that the tool never reads. */
  lemma BackslashScriptIsMissed(lex: Lexicon)
    ensures !Lossless(lex, "tools/a.js\\") && FileText("tools/a.js\\", SAMPLE) == ""
    ensures Violations(lex, "tools/a.js\\", SAMPLE) != Violations(lex, "tools/a.js\\", "")
  {
    var path := "tools/a.js\\";
    assert |path| == 11 && path[10] == '\\' && path[5] == '/';
    assert EndsInBackslash(path) by {
      assert TrimSlashes(path) == path;
    }
    var p := Slash(path);
    assert p == "tools/a.js/";
    assert Lower(p) == p;
    assert TrimSlashes(p) == p[..10] == "tools/a.js" by {
      assert p[..10][9] == 's';
    }
    assert Basename(p) == "a.js" by {
      LastSlashIsUnique("tools/a.js", 6);
    }
    LastDotIsUnique("a.js", 1);
    assert MAINTAINED_ROOTS[5] == "tools/" && p[..6] == "tools/";
    assert IsMaintained(p);
    assert CODE_SUFFIXES[0] == "a.js"[1..];
    hide Violations, FileText, ReadsText, IsCodeFile, Slash;
    assert IsCodeFile(p);
    CodeTextMatters(lex, path);
    BackslashIsUnread(path);
    assert FileText(path, SAMPLE) == "";
  }

  lemma LastSlashIsUnique(s: string, i: nat)
    requires 0 < i <= |s| && s[i - 1] == '/' && forall j :: i <= j < |s| ==> s[j] != '/'
    ensures AfterLastSlash(s) == i
  {
  }

  lemma PackageFindingsMatter(lex: Lexicon, p: string, a: string, b: string)
    requires PackageViolations(lex, p, a) == PackageViolations(lex, p, b)
    ensures lex.packageFindings(a) == lex.packageFindings(b)
  {
    var x, y := lex.packageFindings(a), lex.packageFindings(b);
    forall i | 0 <= i < |x| ensures x[i] == y[i] {
      assert PackageViolations(lex, p, a)[i] == PackageViolations(lex, p, b)[i];
    }
  }

  lemma PackageTextMatters(lex: Lexicon, path: string, content: string)
    requires IsPackageFile(Slash(path)) && lex.packageFindings(content) != lex.packageFindings("")
    ensures Violations(lex, path, content) != Violations(lex, path, "")
  {
    PackageIsNoCode(path);
    hide IsPackageFile, IsCodeFile, Slash, PathViolations, PackageViolations;
    var p := Slash(path);
    var prefix, x, y := PathViolations(p), PackageViolations(lex, p, content), PackageViolations(lex, p, "");
    assert Violations(lex, path, content) == prefix + x && Violations(lex, path, "") == prefix + y;
    assert (prefix + x)[|prefix|..] == x && (prefix + y)[|prefix|..] == y;
    if x == y {
      PackageFindingsMatter(lex, p, content, "");
    }
  }
}
