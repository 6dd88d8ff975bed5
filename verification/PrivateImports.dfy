/** Imports of another package's internals: the pattern behind the test, and what it means in segments. */
module PrivateImports {
  import opened Base
  import opened PosixPath
  import opened Regex
  import opened ImportScan
  import opened SourceBoundary
  import opened BoundaryTheorems

  // ----- the package pattern; both its letters and the text are in lower case

  const SUBPATH := Cat(Lit("/"), Capture(Many(Except(LINE_BREAKS), 0, true)))
  const REST := Cat(Maybe(SUBPATH), TextEnd)
  const PACKAGE_PATTERN := Cat(TextStart, Cat(Maybe(Lit(SCOPE)), Cat(Lit(PACKAGE), REST)))

  /** The end of the text behind the package name, with the captured path if there is one. */
  function RestAt(text: string, k: nat): Option<State>
    requires k <= |text|
  {
    if k == |text| then Some(At(k))
    else if text[k] == '/' && !HasLineBreak(text[k + 1..]) then Some(State(|text|, k + 1, |text|))
    else None
  }

  function PackageAt(text: string): Option<State> {
    var k := if Here(text, 0, SCOPE) then |SCOPE| else 0;
    if Here(text, k, PACKAGE) then RestAt(text, k + |PACKAGE|) else None
  }

  lemma ReachesMaybe(a: Regex, text: string, m: State, n: State)
    requires m.pos <= |text|
    ensures Reaches(Maybe(a), text, m, n) <==> Reaches(a, text, m, n) || n == m
  {
  }

  lemma ReachesEnd(text: string, m: State, n: State)
    requires m.pos <= |text|
    ensures Reaches(TextEnd, text, m, n) <==> m.pos == |text| && n == m
  {
  }

  lemma StartThen(rest: Regex, text: string, m: State, n: State)
    requires m.pos <= |text|
    ensures Reaches(Cat(TextStart, rest), text, m, n) <==> m.pos == 0 && Reaches(rest, text, m, n)
  {
    ReachesCat(TextStart, rest, text, m, n);
    if m.pos == 0 {
      assert Reaches(TextStart, text, m, m);
    }
  }

  lemma MaybeThen(a: Regex, rest: Regex, text: string, m: State, n: State)
    requires m.pos <= |text|
    ensures Reaches(Cat(Maybe(a), rest), text, m, n) <==> Reaches(rest, text, m, n) || Reaches(Cat(a, rest), text, m, n)
  {
    hide Exec, Reaches;
    ReachesCat(Maybe(a), rest, text, m, n);
    ReachesCat(a, rest, text, m, n);
    forall g ensures Reaches(Maybe(a), text, m, g) <==> Reaches(a, text, m, g) || g == m {
      ReachesMaybe(a, text, m, g);
    }
    if Reaches(Cat(a, rest), text, m, n) {
      var g :| Reaches(a, text, m, g) && g.pos <= |text| && Reaches(rest, text, g, n);
      assert Reaches(Maybe(a), text, m, g);
    }
    if Reaches(rest, text, m, n) {
      assert Reaches(Maybe(a), text, m, m);
    }
  }

  lemma CaptureAny(cls: Class, text: string, m: State, g: State)
    requires m.pos <= |text|
    ensures Reaches(Capture(Many(cls, 0, true)), text, m, g) <==>
            g == State(g.pos, m.pos, g.pos) && m.pos <= g.pos && Run(text, cls, m.pos, g.pos)
  {
    ReachesCapture(Many(cls, 0, true), text, m, g);
    ReachesMany(cls, 0, true, text, m, m.(pos := g.pos));
    ReachesManyOnly(cls, 0, true, text, m, g.pos);
  }

  lemma RunToEnd(text: string, k: nat)
    requires k <= |text|
    ensures Run(text, Except(LINE_BREAKS), k, |text|) <==> !HasLineBreak(text[k..])
  {
    if !HasLineBreak(text[k..]) {
      forall i | k <= i < |text| ensures text[i] !in LINE_BREAKS {
        assert text[k..][i - k] == text[i];
      }
    }
  }

  lemma ReachesSubpath(text: string, k: nat, n: State)
    requires k <= |text|
    ensures Reaches(Cat(SUBPATH, TextEnd), text, At(k), n) <==>
            k < |text| && text[k] == '/' && !HasLineBreak(text[k + 1..]) && n == State(|text|, k + 1, |text|)
  {
    hide Exec, Reaches, HasLineBreak;
    var path := Capture(Many(Except(LINE_BREAKS), 0, true));
    var end := State(|text|, k + 1, |text|);
    ReachesCat(SUBPATH, TextEnd, text, At(k), n);
    assert Here(text, k, "/") <==> k < |text| && text[k] == '/';
    if Reaches(Cat(SUBPATH, TextEnd), text, At(k), n) {
      var g :| Reaches(SUBPATH, text, At(k), g) && g.pos <= |text| && Reaches(TextEnd, text, g, n);
      ReachesEnd(text, g, n);
      LitThen("/", path, text, At(k), g);
      CaptureAny(Except(LINE_BREAKS), text, State(k + 1, 0, 0), g);
      RunToEnd(text, k + 1);
    }
    if k < |text| && text[k] == '/' && !HasLineBreak(text[k + 1..]) && n == end {
      LitThen("/", path, text, At(k), end);
      CaptureAny(Except(LINE_BREAKS), text, State(k + 1, 0, 0), end);
      RunToEnd(text, k + 1);
      ReachesEnd(text, end, n);
    }
  }

  lemma ReachesRest(text: string, k: nat, n: State)
    requires k <= |text|
    ensures Reaches(REST, text, At(k), n) <==> RestAt(text, k) == Some(n)
  {
    hide Exec, Reaches, HasLineBreak;
    MaybeThen(SUBPATH, TextEnd, text, At(k), n);
    ReachesEnd(text, At(k), n);
    ReachesSubpath(text, k, n);
  }

  lemma ReachesName(text: string, k: nat, n: State)
    requires k <= |text|
    ensures Reaches(Cat(Lit(PACKAGE), REST), text, At(k), n) <==>
            Here(text, k, PACKAGE) && RestAt(text, k + |PACKAGE|) == Some(n)
  {
    hide Exec, Reaches, RestAt;
    LitThen(PACKAGE, REST, text, At(k), n);
    if Here(text, k, PACKAGE) {
      ReachesRest(text, k + |PACKAGE|, n);
    }
  }

  /** Scope and package name start with different letters. */
  lemma ScopeIsNoPackage(text: string)
    ensures Here(text, 0, SCOPE) ==> !Here(text, 0, PACKAGE)
  {
    assert SCOPE[0] == '@' && PACKAGE[0] == 'c';
    assert Here(text, 0, SCOPE) ==> text[0] == text[0..|SCOPE|][0];
    assert Here(text, 0, PACKAGE) ==> text[0] == text[0..|PACKAGE|][0];
  }

  /** The backtracking engine can reach one state at most. */
  lemma EngineReachesPackage(text: string, i: nat, n: State)
    requires i <= |text|
    ensures Reaches(PACKAGE_PATTERN, text, At(i), n) <==> i == 0 && PackageAt(text) == Some(n)
  {
    hide Exec, Reaches, RestAt, Here;
    var named := Cat(Lit(PACKAGE), REST);
    StartThen(Cat(Maybe(Lit(SCOPE)), named), text, At(i), n);
    MaybeThen(Lit(SCOPE), named, text, At(0), n);
    LitThen(SCOPE, named, text, At(0), n);
    ReachesName(text, 0, n);
    ScopeIsNoPackage(text);
    if Here(text, 0, SCOPE) {
      HereFits(text, SCOPE);
      ReachesName(text, |SCOPE|, n);
    }
  }

  lemma HereFits(text: string, s: string)
    ensures Here(text, 0, s) ==> |s| <= |text|
  {
  }

  lemma {:induction false} NoLaterMatch(text: string, from: nat)
    requires 0 < from <= |text|
    ensures MatchAll(PACKAGE_PATTERN, text, from) == []
    decreases |text| - from
  {
    hide Exec;
    var ms := Exec(PACKAGE_PATTERN, text, At(from));
    if ms != [] {
      assert ms[0] in ms;
      EngineReachesPackage(text, from, ms[0]);
    }
    if from < |text| {
      NoLaterMatch(text, from + 1);
    }
  }

  lemma PackageEndsText(text: string)
    ensures PackageAt(text).Some? ==> PackageAt(text).value.pos == |text| > 0
  {
  }

  /** The search finds the package exactly where the deterministic test does, with the same captured path. */
  lemma PatternIsTest(text: string)
    ensures MatchAll(PACKAGE_PATTERN, text, 0) == match PackageAt(text) case Some(n) => [n] case None => []
  {
    hide Exec, PackageAt;
    PackageEndsText(text);
    var ms := Exec(PACKAGE_PATTERN, text, At(0));
    if ms != [] {
      EngineReachesPackage(text, 0, ms[0]);
      assert Reaches(PACKAGE_PATTERN, text, At(0), ms[0]) by { assert ms[0] in ms; }
    } else if PackageAt(text).Some? {
      EngineReachesPackage(text, 0, PackageAt(text).value);
    }
    if |text| > 0 {
      NoLaterMatch(text, 1);
      NoLaterMatch(text, |text|);
    }
  }

  /** The package pattern matches with a captured path through a private directory. */
  predicate MatchesPrivately(lower: string) {
    var ms := MatchAll(PACKAGE_PATTERN, lower, 0);
    ms != [] && ms[0].lo < ms[0].hi <= |lower| && NamesPrivateSegment(lower[ms[0].lo..ms[0].hi])
  }

  lemma PackageIsMatched(lower: string)
    ensures NamesPrivatePackage(lower) <==> MatchesPrivately(lower)
  {
    hide MatchAll, NamesPrivateSegment, HasLineBreak;
    PatternIsTest(lower);
    var k := if Here(lower, 0, SCOPE) then |SCOPE| else 0;
    HereIsStart(lower, SCOPE);
    var bare := lower[k..];
    PackageStarts(lower, k);
    if Here(lower, k, PACKAGE) && k + |PACKAGE| < |lower| {
      assert bare[|PACKAGE| + 1..] == lower[k + |PACKAGE| + 1..];
      assert lower[k + |PACKAGE| + 1..|lower|] == lower[k + |PACKAGE| + 1..];
    }
  }

  lemma HereIsStart(text: string, s: string)
    ensures Here(text, 0, s) <==> StartsWith(text, s)
  {
  }

  lemma PackageStarts(text: string, k: nat)
    requires k <= |text|
    ensures StartsWith(text[k..], PACKAGE + "/") <==>
            Here(text, k, PACKAGE) && k + |PACKAGE| < |text| && text[k + |PACKAGE|] == '/'
  {
    var bare, n := text[k..], |PACKAGE|;
    if |bare| > n {
      assert bare[..n + 1] == bare[..n] + [bare[n]];
      assert bare[..n] == text[k..k + n] && bare[n] == text[k + n];
      assert (PACKAGE + "/")[..n] == PACKAGE && (PACKAGE + "/")[n] == '/';
    }
  }

  // ----- what a private specifier means, in segments

  /** The segments of a package path, its scope aside. */
  function PackageSegments(names: seq<string>): seq<string> {
    if |names| > 1 && names[0] == "@iteathen" then names[1..] else names
  }

  /** The segments start like a relative, an absolute, or a file location. */
  predicate StartsLocation(names: seq<string>)
    requires names != []
  {
    StartsWith(names[0], ".") || (names[0] == "" && |names| > 1) || StartsWith(names[0], "file:")
  }

  /**
   * A location through a directory named after the repository, or the package followed by segments
   * without line breaks, one of them a private directory.
   */
  predicate MeansPrivate(lex: Lexicon, specifier: string) {
    var names := Split(Lower(Slash(specifier)));
    var package := PackageSegments(names);
    || (("cuda-js" in names || "cuda_js" in names) && (StartsLocation(names) || lex.isRepositoryUrl(Slash(specifier))))
    || (&& package[0] == PACKAGE
        && (forall i :: 0 < i < |package| ==> !HasLineBreak(package[i]))
        && exists i :: 0 < i < |package| && package[i] in PRIVATE_SEGMENTS)
  }

  lemma {:induction false} NonEmptyHas(segments: seq<string>, x: string)
    requires x != ""
    ensures x in NonEmpty(segments) <==> x in segments
  {
    if segments != [] {
      NonEmptyHas(segments[1..], x);
      assert segments == [segments[0]] + segments[1..];
    }
  }

  lemma RepositoryIsSegment(lower: string)
    ensures NamesRepository(lower) <==> "cuda-js" in Split(lower) || "cuda_js" in Split(lower)
  {
    hide Split;
    NonEmptyHas(Split(lower), "cuda-js");
    NonEmptyHas(Split(lower), "cuda_js");
    assert NamesRepository(lower) <==> "cuda-js" in Parts(lower) || "cuda_js" in Parts(lower) by {
      assert forall x :: x in Parts(lower) <==> exists i :: 0 <= i < |Parts(lower)| && Parts(lower)[i] == x;
    }
  }

  /** A text starts with a name and a slash exactly when the name is its first segment and there is a second. */
  lemma FirstSegment(s: string, name: string)
    requires '/' !in name
    ensures StartsWith(s, name + "/") <==> |Split(s)| > 1 && Split(s)[0] == name
    ensures StartsWith(s, name + "/") ==> Split(s[|name| + 1..]) == Split(s)[1..]
  {
    hide Split;
    if StartsWith(s, name + "/") {
      assert s == name + "/" + s[|name| + 1..];
      SplitConcat(name, s[|name| + 1..]);
      SplitOne(name);
    }
    if |Split(s)| > 1 && Split(s)[0] == name {
      JoinSplit(s);
      var rest := Split(s)[1..];
      assert Split(s) == [name] + rest;
      JoinCons(name, rest);
      assert s == (name + "/") + Join(rest);
    }
  }

  lemma FirstSegmentStarts(s: string, prefix: string)
    requires '/' !in prefix && prefix != ""
    ensures StartsWith(s, prefix) <==> StartsWith(Split(s)[0], prefix)
  {
    var i := FirstSlash(s);
    assert Split(s)[0] == s[..i];
    assert StartsWith(s, prefix) ==> forall j :: 0 <= j < |prefix| ==> s[j] == prefix[j] && prefix[j] in prefix;
  }

  predicate SomeBreak(segments: seq<string>) {
    exists i :: 0 <= i < |segments| && HasLineBreak(segments[i])
  }

  lemma BreaksInCons(head: string, rest: seq<string>)
    ensures SomeBreak([head] + rest) <==> HasLineBreak(head) || SomeBreak(rest)
  {
    hide HasLineBreak;
    var all := [head] + rest;
    assert all[0] == head;
    if SomeBreak(rest) {
      var j :| 0 <= j < |rest| && HasLineBreak(rest[j]);
      assert HasLineBreak(all[j + 1]);
    }
    if SomeBreak(all) {
      var j :| 0 <= j < |all| && HasLineBreak(all[j]);
      assert j > 0 ==> HasLineBreak(rest[j - 1]);
    }
  }

  lemma {:induction false} BreaksInSegments(s: string)
    ensures HasLineBreak(s) <==> SomeBreak(Split(s))
    decreases |s|
  {
    hide HasLineBreak, SomeBreak;
    var i := FirstSlash(s);
    if i == |s| {
      BreaksInCons(s, []);
      assert [s] + [] == [s];
      NoBreakInNothing();
    } else {
      BreaksInSegments(s[i + 1..]);
      CutAt(s, i);
      BreaksInParts(s[..i], s[i + 1..]);
      BreaksInCons(s[..i], Split(s[i + 1..]));
    }
  }

  lemma NoBreakInNothing()
    ensures !SomeBreak([])
  {
  }

  lemma BreaksInParts(a: string, b: string)
    ensures HasLineBreak(a + "/" + b) <==> HasLineBreak(a) || HasLineBreak(b)
  {
    var s := a + "/" + b;
    if HasLineBreak(a) {
      var i :| 0 <= i < |a| && a[i] in LINE_BREAKS;
      assert s[i] in LINE_BREAKS;
    }
    if HasLineBreak(b) {
      var i :| 0 <= i < |b| && b[i] in LINE_BREAKS;
      assert s[|a| + 1 + i] in LINE_BREAKS;
    }
    if HasLineBreak(s) {
      var i :| 0 <= i < |s| && s[i] in LINE_BREAKS;
      assert i < |a| ==> a[i] in LINE_BREAKS;
      assert i > |a| ==> b[i - |a| - 1] in LINE_BREAKS;
    }
  }

  /** The segments behind the package name. */
  lemma PackageMeans(lower: string)
    ensures var package := PackageSegments(Split(lower));
            NamesPrivatePackage(lower) <==>
              && package[0] == PACKAGE
              && (forall i :: 0 < i < |package| ==> !HasLineBreak(package[i]))
              && exists i :: 0 < i < |package| && package[i] in PRIVATE_SEGMENTS
  {
    hide Split, HasLineBreak;
    var scope := "@iteathen";
    assert SCOPE == scope + "/";
    FirstSegment(lower, scope);
    var bare := if StartsWith(lower, SCOPE) then lower[|SCOPE|..] else lower;
    var package := PackageSegments(Split(lower));
    assert Split(bare) == package;
    BarePackageMeans(bare, package);
  }

  predicate BarePrivate(bare: string) {
    StartsWith(bare, PACKAGE + "/") &&
    var path := bare[|PACKAGE| + 1..];
    !HasLineBreak(path) && path != "" && NamesPrivateSegment(path)
  }

  lemma BarePackageMeans(bare: string, package: seq<string>)
    requires package == Split(bare)
    ensures BarePrivate(bare) <==>
              && package[0] == PACKAGE
              && (forall i :: 0 < i < |package| ==> !HasLineBreak(package[i]))
              && exists i :: 0 < i < |package| && package[i] in PRIVATE_SEGMENTS
  {
    hide Split, HasLineBreak;
    FirstSegment(bare, PACKAGE);
    if StartsWith(bare, PACKAGE + "/") {
      var path := bare[|PACKAGE| + 1..];
      BreaksInSegments(path);
      SplitOne("");
      assert forall i :: 0 < i < |package| ==> package[i] == Split(path)[i - 1];
      assert forall i :: 0 <= i < |Split(path)| ==> Split(path)[i] == package[i + 1];
      assert "" !in PRIVATE_SEGMENTS;
    }
  }

  /** The test on strings is the one on segments. */
  lemma PrivateMeans(lex: Lexicon, specifier: string)
    ensures IsPrivateSpecifier(lex, specifier) <==> MeansPrivate(lex, specifier)
  {
    hide Split, HasLineBreak, NamesPrivatePackage, NamesRepository, Lower, Slash;
    var lower := Lower(Slash(specifier));
    RepositoryIsSegment(lower);
    PackageMeans(lower);
    FirstSegmentStarts(lower, ".");
    FirstSegmentStarts(lower, "file:");
    FirstSegment(lower, "");
    assert "" + "/" == "/";
  }

  /**
   * A private import is reported exactly for each extracted specifier of a maintained script that is a
   * location through the repository's directory or reaches a private directory of the package.
   */
  lemma PrivateImportIsReported(lex: Lexicon, path: string, text: string, spec: string)
    ensures var p := Slash(path);
            Violation(PrivateCudaJsImport, p, spec) in Violations(lex, path, text) <==>
              && IsMaintained(p) && Extname(Lower(p)) in CODE_SUFFIXES
              && spec in Specifiers(text) && MeansPrivate(lex, spec)
  {
    hide Violations, Specifiers, Slash, Lower, Extname, IsUnder, IsPrivateSpecifier, MeansPrivate;
    MeaningIsReported(lex, path, text, PrivateCudaJsImport, spec);
    PrivateMeans(lex, spec);
  }
}
