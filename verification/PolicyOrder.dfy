/** The list of violations of a file, entry by entry: what stands where, and that nothing stands twice. */
module PolicyOrder {
  import opened Base
  import opened ImportScan
  import opened SourceBoundary
  import opened BoundaryTheorems
  import opened PrivateImports
  import opened PolicyRules

  /** The place of a violation: by kind of rule, then by finding or specifier, then by rule. */
  datatype Place = Place(stage: nat, item: nat, rank: nat) {
    predicate Before(other: Place) {
      || stage < other.stage || (stage == other.stage && item < other.item)
      || (stage == other.stage && item == other.item && rank < other.rank)
    }
  }

  /** The rules on one specifier, in their order. */
  predicate SpecifierRule(lex: Lexicon, p: string, rank: nat, specifier: string, code: Code) {
    || (rank == 0 && code == NativeAddonImport && NamesAddon(specifier))
    || (rank == 1 && code == PrivateCudaJsImport && MeansPrivate(lex, specifier))
    || (rank == 2 && code == EvidenceDependency && InProduction(p) && StartsWith(specifier, ".")
        && TargetSegments(p, specifier) != [] && MeansEvidence(TargetSegments(p, specifier)))
    || (rank == 3 && code == SubprocessRuntime && InProduction(p) && NamesSubprocess(specifier))
  }

  predicate AtPath(p: string, at: Place, v: Violation) {
    at.item == 0 && at.rank == 0 &&
    (|| (at.stage == 0 && v == Violation(PythonSource, p, "") && IsPython(p))
     || (at.stage == 1 && v == Violation(NativeBinary, p, "") && IsBinary(p))
     || (at.stage == 2 && v == Violation(NonJsProductionSource, p, "") && IsForeignSource(p))
     || (at.stage == 3 && v == Violation(NativeBuildManifest, p, "") && IsBuildManifest(p)))
  }

  predicate AtPackage(lex: Lexicon, p: string, text: string, at: Place, v: Violation) {
    var found := lex.packageFindings(text);
    && at.stage == 4 && at.rank == 0 && LastName(p) == "package.json"
    && at.item < |found| && v == Violation(PackageFinding(found[at.item].0), p, found[at.item].1)
  }

  predicate AtSpecifier(lex: Lexicon, p: string, specifiers: seq<string>, at: Place, v: Violation) {
    && at.stage == 5 && at.item < |specifiers| && v.path == p && v.subject == specifiers[at.item]
    && SpecifierRule(lex, p, at.rank, specifiers[at.item], v.code)
  }

  predicate AtAcquisition(lex: Lexicon, p: string, text: string, at: Place, v: Violation) {
    var found := lex.acquisitions(text);
    && at.stage == 6 && at.rank == 0 && InProduction(p)
    && at.item < |found| && v == Violation(UninspectableModuleAcquisition, p, found[at.item])
  }

  predicate AtMechanism(p: string, found: seq<(string, string)>, privately: bool, at: Place, v: Violation) {
    && at.stage == 7 && at.rank == 0 && at.item < |found| && !(found[at.item].0 == "PRIVATE_CUDA_JS_PATH" && privately)
    && v == Violation(Mechanism(found[at.item].0), p, found[at.item].1)
  }

  ghost predicate ImportsInternals(lex: Lexicon, text: string) {
    exists s :: s in Specifiers(text) && MeansPrivate(lex, s)
  }

  /** The violation that is due at a place. */
  ghost predicate IsDueAt(lex: Lexicon, p: string, text: string, at: Place, v: Violation) {
    || AtPath(p, at, v) || AtPackage(lex, p, text, at, v)
    || (IsScript(p) && (|| AtSpecifier(lex, p, Specifiers(text), at, v) || AtAcquisition(lex, p, text, at, v)
                        || AtMechanism(p, lex.mechanisms(text), ImportsInternals(lex, text), at, v)))
  }

  /** The violations stand at ascending places, each is due there, and each that is due stands somewhere. */
  ghost predicate Lists(vs: seq<Violation>, places: seq<Place>, due: (Place, Violation) -> bool) {
    && |places| == |vs| && Ascend(places)
    && (forall i :: 0 <= i < |vs| ==> due(places[i], vs[i]))
    && (forall at, v :: due(at, v) ==> exists i :: 0 <= i < |vs| && places[i] == at && vs[i] == v)
  }

  lemma NoneListed(due: (Place, Violation) -> bool)
    requires forall at, v :: !due(at, v)
    ensures Lists([], [], due)
  {
  }

  lemma ListsJoin(a: seq<Violation>, x: seq<Place>, f: (Place, Violation) -> bool, b: seq<Violation>, y: seq<Place>,
                  g: (Place, Violation) -> bool)
    requires Lists(a, x, f) && Lists(b, y, g) && forall i, j :: 0 <= i < |x| && 0 <= j < |y| ==> x[i].Before(y[j])
    ensures Lists(a + b, x + y, (at, v) => f(at, v) || g(at, v))
  {
    hide Place.Before;
    var vs, places := a + b, x + y;
    forall i | 0 <= i < |a| ensures vs[i] == a[i] && places[i] == x[i] {
    }
    forall j | 0 <= j < |b| ensures vs[|a| + j] == b[j] && places[|a| + j] == y[j] {
    }
    JoinedAscend(x, y);
    forall i | 0 <= i < |vs| ensures f(places[i], vs[i]) || g(places[i], vs[i]) {
      if i >= |a| {
        assert vs[i] == b[i - |a|] && places[i] == y[i - |a|];
      }
    }
    forall at, v | f(at, v) || g(at, v) ensures exists i :: 0 <= i < |vs| && places[i] == at && vs[i] == v {
      if f(at, v) {
        var i :| 0 <= i < |a| && x[i] == at && a[i] == v;
        assert places[i] == at && vs[i] == v;
      } else {
        var j :| 0 <= j < |b| && y[j] == at && b[j] == v;
        assert places[|a| + j] == at && vs[|a| + j] == v;
      }
    }
  }

  predicate Ascend(places: seq<Place>) {
    forall i, j :: 0 <= i < j < |places| ==> places[i].Before(places[j])
  }

  lemma JoinedAscend(x: seq<Place>, y: seq<Place>)
    requires Ascend(x) && Ascend(y) && forall i, j :: 0 <= i < |x| && 0 <= j < |y| ==> x[i].Before(y[j])
    ensures Ascend(x + y)
  {
    hide Place.Before;
    var all := x + y;
    forall i, j | 0 <= i < j < |all| ensures all[i].Before(all[j]) {
      if i >= |x| {
        assert all[i] == y[i - |x|] && all[j] == y[j - |x|];
      } else if j >= |x| {
        assert all[i] == x[i] && all[j] == y[j - |x|];
      }
    }
  }

  lemma ListsSame(vs: seq<Violation>, places: seq<Place>, f: (Place, Violation) -> bool, g: (Place, Violation) -> bool)
    requires Lists(vs, places, f) && forall at, v :: f(at, v) <==> g(at, v)
    ensures Lists(vs, places, g)
  {
  }

  lemma WhenLists(c: bool, w: Violation, at: Place) returns (places: seq<Place>)
    ensures Lists(When(c, w), places, (q, v) => c && at == q && v == w)
    ensures forall a :: a in places ==> a == at
  {
    places := if c then [at] else [];
    if c {
      assert When(c, w)[0] == w && places[0] == at;
    }
  }

  /** Places of one stage. */
  predicate InStages(places: seq<Place>, lo: nat, hi: nat) {
    forall i :: 0 <= i < |places| ==> lo <= places[i].stage < hi
  }

  /** Lists of different stages join. */
  lemma StagesJoin(a: seq<Violation>, x: seq<Place>, f: (Place, Violation) -> bool, b: seq<Violation>, y: seq<Place>,
                   g: (Place, Violation) -> bool, lo: nat, mid: nat, hi: nat)
    requires Lists(a, x, f) && Lists(b, y, g) && InStages(x, lo, mid) && InStages(y, mid, hi) && lo <= mid <= hi
    ensures Lists(a + b, x + y, (at, v) => f(at, v) || g(at, v)) && InStages(x + y, lo, hi)
  {
    hide Lists;
    forall i, j | 0 <= i < |x| && 0 <= j < |y| ensures x[i].Before(y[j]) {
    }
    ListsJoin(a, x, f, b, y, g);
  }

  // ----- the stages

  lemma RuleJoins(a: seq<Violation>, x: seq<Place>, f: (Place, Violation) -> bool, c: bool, w: Violation, at: Place)
    returns (places: seq<Place>)
    requires Lists(a, x, f) && forall q :: q in x ==> q.Before(at)
    ensures Lists(a + When(c, w), places, (q, v) => f(q, v) || (c && q == at && v == w))
    ensures forall q :: q in places ==> q in x || q == at
  {
    hide Lists, When;
    var y := WhenLists(c, w, at);
    forall i, j | 0 <= i < |x| && 0 <= j < |y| ensures x[i].Before(y[j]) {
      assert x[i] in x && y[j] in y;
    }
    var g: (Place, Violation) -> bool := (q, v) => c && q == at && v == w;
    ListsSame(When(c, w), y, (q, v) => c && at == q && v == w, g);
    ListsJoin(a, x, f, When(c, w), y, g);
    ListsSame(a + When(c, w), x + y, (q, v) => f(q, v) || g(q, v), (q, v) => f(q, v) || (c && q == at && v == w));
    places := x + y;
  }

  lemma PathsAreListed(p: string) returns (places: seq<Place>)
    ensures Lists(PathViolations(p), places, (at, v) => AtPath(p, at, v)) && InStages(places, 0, 4)
  {
    hide Lists, When, IsPython, IsBinary, IsForeignSource, IsBuildManifest, PathViolations;
    var w0, w1 := Violation(PythonSource, p, ""), Violation(NativeBinary, p, "");
    var w2, w3 := Violation(NonJsProductionSource, p, ""), Violation(NativeBuildManifest, p, "");
    var a := WhenLists(IsPython(p), w0, Place(0, 0, 0));
    var f: (Place, Violation) -> bool := (q, v) => IsPython(p) && q == Place(0, 0, 0) && v == w0;
    ListsSame(When(IsPython(p), w0), a, (q, v) => IsPython(p) && Place(0, 0, 0) == q && v == w0, f);
    var b := RuleJoins(When(IsPython(p), w0), a, f, IsBinary(p), w1, Place(1, 0, 0));
    var g: (Place, Violation) -> bool := (q, v) => f(q, v) || (IsBinary(p) && q == Place(1, 0, 0) && v == w1);
    var vs := When(IsPython(p), w0) + When(IsBinary(p), w1);
    ListsSame(vs, b, (q, v) => f(q, v) || (IsBinary(p) && q == Place(1, 0, 0) && v == w1), g);
    var c := RuleJoins(vs, b, g, IsForeignSource(p), w2, Place(2, 0, 0));
    var h: (Place, Violation) -> bool := (q, v) => g(q, v) || (IsForeignSource(p) && q == Place(2, 0, 0) && v == w2);
    ListsSame(vs + When(IsForeignSource(p), w2), c,
              (q, v) => g(q, v) || (IsForeignSource(p) && q == Place(2, 0, 0) && v == w2), h);
    places := RuleJoins(vs + When(IsForeignSource(p), w2), c, h, IsBuildManifest(p), w3, Place(3, 0, 0));
    PathsAreRules(p);
    ListsSame(PathViolations(p), places, (q, v) => h(q, v) || (IsBuildManifest(p) && q == Place(3, 0, 0) && v == w3),
              (q, v) => AtPath(p, q, v));
    forall i | 0 <= i < |places| ensures places[i].stage < 4 {
      assert places[i] in places;
    }
  }

  lemma PathsAreRules(p: string)
    ensures PathViolations(p) ==
            When(IsPython(p), Violation(PythonSource, p, "")) + When(IsBinary(p), Violation(NativeBinary, p, ""))
            + When(IsForeignSource(p), Violation(NonJsProductionSource, p, ""))
            + When(IsBuildManifest(p), Violation(NativeBuildManifest, p, ""))
  {
    hide IsEvidence, IsPython, IsBinary, IsForeignSource, IsBuildManifest, When;
    PythonMeans(p);
    BinaryMeans(p);
    ForeignMeans(p);
    BuildMeans(p);
  }

  predicate IsItem(vs: seq<Violation>, stage: nat, at: Place, v: Violation) {
    at.stage == stage && at.rank == 0 && at.item < |vs| && v == vs[at.item]
  }

  /** A sequence of violations stands item by item. */
  lemma ItemsAreListed(vs: seq<Violation>, stage: nat) returns (places: seq<Place>)
    ensures Lists(vs, places, (at, v) => IsItem(vs, stage, at, v))
    ensures InStages(places, stage, stage + 1)
  {
    places := seq(|vs|, i requires 0 <= i < |vs| => Place(stage, i, 0));
    forall at, v | IsItem(vs, stage, at, v)
      ensures exists i :: 0 <= i < |vs| && places[i] == at && vs[i] == v
    {
      assert places[at.item] == at && vs[at.item] == v;
    }
  }

  lemma PackagesAreListed(lex: Lexicon, p: string, text: string) returns (places: seq<Place>)
    ensures Lists(if IsPackageFile(p) then PackageViolations(lex, p, text) else [], places,
                  (at, v) => AtPackage(lex, p, text, at, v))
    ensures InStages(places, 4, 5)
  {
    hide Lists, LastName, IsPackageFile;
    PackageFileMeans(p);
    if IsPackageFile(p) {
      var vs := PackageViolations(lex, p, text);
      places := ItemsAreListed(vs, 4);
      ListsSame(vs, places, (at, v) => IsItem(vs, 4, at, v),
                (at, v) => AtPackage(lex, p, text, at, v));
    } else {
      places := [];
      NoneListed((at, v) => AtPackage(lex, p, text, at, v));
    }
  }

  lemma AcquisitionsAreListed(lex: Lexicon, p: string, text: string) returns (places: seq<Place>)
    ensures Lists(AcquisitionViolations(lex, p, text), places, (at, v) => AtAcquisition(lex, p, text, at, v))
    ensures InStages(places, 6, 7)
  {
    hide Lists, InProduction, IsProduction;
    ProductionMeans(p);
    if IsProduction(p) {
      var vs := AcquisitionViolations(lex, p, text);
      places := ItemsAreListed(vs, 6);
      ListsSame(vs, places, (at, v) => IsItem(vs, 6, at, v),
                (at, v) => AtAcquisition(lex, p, text, at, v));
    } else {
      places := [];
      NoneListed((at, v) => AtAcquisition(lex, p, text, at, v));
    }
  }

  predicate ItemsBelow(places: seq<Place>, stage: nat, n: nat) {
    forall i :: 0 <= i < |places| ==> places[i].stage == stage && places[i].item < n
  }

  lemma {:induction false} MechanismsAreListed(p: string, found: seq<(string, string)>, privately: bool)
    returns (places: seq<Place>)
    ensures Lists(MechanismViolations(p, found, privately), places, (at, v) => AtMechanism(p, found, privately, at, v))
    ensures ItemsBelow(places, 7, |found|)
    decreases |found|
  {
    hide Lists, When;
    if found == [] {
      places := [];
      NoneListed((at, v) => AtMechanism(p, found, privately, at, v));
    } else {
      var n := |found| - 1;
      var init, last := found[..n], found[n];
      var x := MechanismsAreListed(p, init, privately);
      var c, w := !(last.0 == PRIVATE_PATH && privately), Violation(Mechanism(last.0), p, last.1);
      var f: (Place, Violation) -> bool := (at, v) => AtMechanism(p, init, privately, at, v);
      ListsSame(MechanismViolations(p, init, privately), x, (at, v) => AtMechanism(p, init, privately, at, v), f);
      places := RuleJoins(MechanismViolations(p, init, privately), x, f, c, w, Place(7, n, 0));
      ListsSame(MechanismViolations(p, found, privately), places,
                (q, v) => f(q, v) || (c && q == Place(7, n, 0) && v == w),
                (at, v) => AtMechanism(p, found, privately, at, v));
      forall i | 0 <= i < |places| ensures places[i].stage == 7 && places[i].item < |found| {
        assert places[i] in places;
      }
    }
  }

  // ----- specifiers

  lemma SpecifierIsListed(lex: Lexicon, p: string, specifier: string, n: nat, a: seq<Violation>, x: seq<Place>,
                          f: (Place, Violation) -> bool)
    returns (places: seq<Place>)
    requires Lists(a, x, f) && ItemsBelow(x, 5, n)
    ensures Lists(a + SpecifierViolations(lex, p, specifier), places, (at, v) => f(at, v) ||
              AtOne(lex, p, specifier, n, at, v))
    ensures ItemsBelow(places, 5, n + 1)
  {
    hide Lists, When, SpecifierViolations, SpecifierRule;
    var c0, c1, c2, c3 := SpecifierCases(lex, p, specifier);
    var w0, w1 := Violation(NativeAddonImport, p, specifier), Violation(PrivateCudaJsImport, p, specifier);
    var w2, w3 := Violation(EvidenceDependency, p, specifier), Violation(SubprocessRuntime, p, specifier);
    forall q | q in x ensures q.Before(Place(5, n, 0)) && q.stage == 5 && q.item < n {
    }
    var y0 := RuleJoins(a, x, f, c0, w0, Place(5, n, 0));
    var g0: (Place, Violation) -> bool := (q, v) => f(q, v) || (c0 && q == Place(5, n, 0) && v == w0);
    ListsSame(a + When(c0, w0), y0, (q, v) => f(q, v) || (c0 && q == Place(5, n, 0) && v == w0), g0);
    var y1 := RuleJoins(a + When(c0, w0), y0, g0, c1, w1, Place(5, n, 1));
    var g1: (Place, Violation) -> bool := (q, v) => g0(q, v) || (c1 && q == Place(5, n, 1) && v == w1);
    ListsSame(a + When(c0, w0) + When(c1, w1), y1, (q, v) => g0(q, v) || (c1 && q == Place(5, n, 1) && v == w1), g1);
    var y2 := RuleJoins(a + When(c0, w0) + When(c1, w1), y1, g1, c2, w2, Place(5, n, 2));
    var g2: (Place, Violation) -> bool := (q, v) => g1(q, v) || (c2 && q == Place(5, n, 2) && v == w2);
    var three := a + When(c0, w0) + When(c1, w1) + When(c2, w2);
    ListsSame(three, y2, (q, v) => g1(q, v) || (c2 && q == Place(5, n, 2) && v == w2), g2);
    places := RuleJoins(three, y2, g2, c3, w3, Place(5, n, 3));
    assert three + When(c3, w3) == a + SpecifierViolations(lex, p, specifier);
    RulesByRank(lex, p, specifier, n, c0, c1, c2, c3);
    ListsSame(a + SpecifierViolations(lex, p, specifier), places,
              (q, v) => g2(q, v) || (c3 && q == Place(5, n, 3) && v == w3),
              (at, v) => f(at, v) || AtOne(lex, p, specifier, n, at, v));
    forall i | 0 <= i < |places| ensures places[i].stage == 5 && places[i].item < n + 1 {
      assert places[i] in places;
    }
  }

  /** A violation due for the n-th specifier. */
  predicate AtOne(lex: Lexicon, p: string, specifier: string, n: nat, at: Place, v: Violation) {
    && at.stage == 5 && at.item == n && v.path == p && v.subject == specifier
    && SpecifierRule(lex, p, at.rank, specifier, v.code)
  }

  /** The four conditions on a specifier, in order. */
  lemma SpecifierCases(lex: Lexicon, p: string, specifier: string) returns (c0: bool, c1: bool, c2: bool, c3: bool)
    ensures forall code :: SpecifierRule(lex, p, 0, specifier, code) <==> c0 && code == NativeAddonImport
    ensures forall code :: SpecifierRule(lex, p, 1, specifier, code) <==> c1 && code == PrivateCudaJsImport
    ensures forall code :: SpecifierRule(lex, p, 2, specifier, code) <==> c2 && code == EvidenceDependency
    ensures forall code :: SpecifierRule(lex, p, 3, specifier, code) <==> c3 && code == SubprocessRuntime
    ensures SpecifierViolations(lex, p, specifier) ==
            When(c0, Violation(NativeAddonImport, p, specifier))
            + When(c1, Violation(PrivateCudaJsImport, p, specifier))
            + When(c2, Violation(EvidenceDependency, p, specifier))
            + When(c3, Violation(SubprocessRuntime, p, specifier))
  {
    hide When, IsAddon, NamesAddon, IsPrivateSpecifier, MeansPrivate, DependsOnEvidence, IsProduction, InProduction,
         TargetSegments, MeansEvidence, NamesSubprocess, Lower;
    ImportRules(lex, p, NativeAddonImport, specifier);
    ImportRules(lex, p, PrivateCudaJsImport, specifier);
    ImportRules(lex, p, EvidenceDependency, specifier);
    ImportRules(lex, p, SubprocessRuntime, specifier);
    c0, c1 := IsAddon(specifier), IsPrivateSpecifier(lex, specifier);
    c2 := DependsOnEvidence(p, specifier);
    c3 := IsProduction(p) && Lower(specifier) in ["child_process", "node:child_process"];
  }

  lemma RulesByRank(lex: Lexicon, p: string, specifier: string, n: nat, c0: bool, c1: bool, c2: bool, c3: bool)
    requires forall code :: SpecifierRule(lex, p, 0, specifier, code) <==> c0 && code == NativeAddonImport
    requires forall code :: SpecifierRule(lex, p, 1, specifier, code) <==> c1 && code == PrivateCudaJsImport
    requires forall code :: SpecifierRule(lex, p, 2, specifier, code) <==> c2 && code == EvidenceDependency
    requires forall code :: SpecifierRule(lex, p, 3, specifier, code) <==> c3 && code == SubprocessRuntime
    ensures forall q, v :: AtOne(lex, p, specifier, n, q, v) <==>
              || (c0 && q == Place(5, n, 0) && v == Violation(NativeAddonImport, p, specifier))
              || (c1 && q == Place(5, n, 1) && v == Violation(PrivateCudaJsImport, p, specifier))
              || (c2 && q == Place(5, n, 2) && v == Violation(EvidenceDependency, p, specifier))
              || (c3 && q == Place(5, n, 3) && v == Violation(SubprocessRuntime, p, specifier))
  {
    NoOtherRank(lex, p, specifier);
    hide SpecifierRule;
  }

  lemma NoOtherRank(lex: Lexicon, p: string, specifier: string)
    ensures forall rank: nat, code :: rank > 3 ==> !SpecifierRule(lex, p, rank, specifier, code)
  {
    hide NamesAddon, MeansPrivate, InProduction, NamesSubprocess, MeansEvidence, TargetSegments;
  }

  lemma {:induction false} SpecifiersAreListed(lex: Lexicon, p: string, specifiers: seq<string>)
    returns (places: seq<Place>)
    ensures Lists(ImportViolations(lex, p, specifiers), places, (at, v) => AtSpecifier(lex, p, specifiers, at, v))
    ensures ItemsBelow(places, 5, |specifiers|)
    decreases |specifiers|
  {
    hide Lists, SpecifierViolations, SpecifierRule;
    if specifiers == [] {
      places := [];
      NoneListed((at, v) => AtSpecifier(lex, p, specifiers, at, v));
    } else {
      var n := |specifiers| - 1;
      var init, last := specifiers[..n], specifiers[n];
      var x := SpecifiersAreListed(lex, p, init);
      var f: (Place, Violation) -> bool := (at, v) => AtSpecifier(lex, p, init, at, v);
      ListsSame(ImportViolations(lex, p, init), x, (at, v) => AtSpecifier(lex, p, init, at, v), f);
      places := SpecifierIsListed(lex, p, last, n, ImportViolations(lex, p, init), x, f);
      forall at, v
        ensures f(at, v) || AtOne(lex, p, last, n, at, v) <==> AtSpecifier(lex, p, specifiers, at, v)
      {
        OneMoreSpecifier(lex, p, specifiers, at, v);
      }
      ListsSame(ImportViolations(lex, p, specifiers), places, (at, v) => f(at, v) || AtOne(lex, p, last, n, at, v),
                (at, v) => AtSpecifier(lex, p, specifiers, at, v));
    }
  }

  lemma OneMoreSpecifier(lex: Lexicon, p: string, specifiers: seq<string>, at: Place, v: Violation)
    requires specifiers != []
    ensures var n := |specifiers| - 1;
            AtSpecifier(lex, p, specifiers, at, v) <==>
            AtSpecifier(lex, p, specifiers[..n], at, v) || AtOne(lex, p, specifiers[n], n, at, v)
  {
    hide SpecifierRule;
  }

  // ----- the whole list

  lemma CodeIsListed(lex: Lexicon, p: string, text: string) returns (places: seq<Place>)
    ensures Lists(CodeViolations(lex, p, text), places, (at, v) => AtCode(lex, p, text, at, v)) &&
            InStages(places, 5, 8)
  {
    hide Lists, ImportViolations, AcquisitionViolations, MechanismViolations, Specifiers, AtSpecifier, AtAcquisition,
         AtMechanism, ImportsPrivately, ImportsInternals;
    PrivatelyMeans(lex, text);
    var privately := ImportsPrivately(lex, Specifiers(text));
    var a, b := ImportViolations(lex, p, Specifiers(text)), AcquisitionViolations(lex, p, text);
    var c := MechanismViolations(p, lex.mechanisms(text), privately);
    var x := SpecifiersAreListed(lex, p, Specifiers(text));
    var y := AcquisitionsAreListed(lex, p, text);
    var z := MechanismsAreListed(p, lex.mechanisms(text), privately);
    var f: (Place, Violation) -> bool := (at, v) => AtSpecifier(lex, p, Specifiers(text), at, v);
    var g: (Place, Violation) -> bool := (at, v) => AtAcquisition(lex, p, text, at, v);
    var h: (Place, Violation) -> bool := (at, v) => AtMechanism(p, lex.mechanisms(text), privately, at, v);
    ListsSame(a, x, (at, v) => AtSpecifier(lex, p, Specifiers(text), at, v), f);
    ListsSame(b, y, (at, v) => AtAcquisition(lex, p, text, at, v), g);
    ListsSame(c, z, (at, v) => AtMechanism(p, lex.mechanisms(text), privately, at, v), h);
    StagesJoin(a, x, f, b, y, g, 5, 6, 7);
    var fg: (Place, Violation) -> bool := (at, v) => f(at, v) || g(at, v);
    ListsSame(a + b, x + y, (at, v) => f(at, v) || g(at, v), fg);
    StagesJoin(a + b, x + y, fg, c, z, h, 5, 7, 8);
    places := x + y + z;
    ListsSame(CodeViolations(lex, p, text), places, (at, v) => fg(at, v) || h(at, v),
              (at, v) => AtCode(lex, p, text, at, v));
  }

  lemma PrivatelyMeans(lex: Lexicon, text: string)
    ensures ImportsPrivately(lex, Specifiers(text)) <==> ImportsInternals(lex, text)
  {
    hide Specifiers, MeansPrivate, ImportsPrivately;
    SomePrivateImport(lex, text);
  }

  ghost predicate AtCode(lex: Lexicon, p: string, text: string, at: Place, v: Violation) {
    || AtSpecifier(lex, p, Specifiers(text), at, v) || AtAcquisition(lex, p, text, at, v)
    || AtMechanism(p, lex.mechanisms(text), ImportsInternals(lex, text), at, v)
  }

  /**
   * The list that the policy returns for a file: what is due stands in it, in order of rule kind, finding
   * or specifier, and rule, each once, and nothing else does.
   */
  lemma ViolationsAreListed(lex: Lexicon, path: string, text: string) returns (places: seq<Place>)
    ensures Lists(Violations(lex, path, text), places, (at, v) => IsDueAt(lex, Slash(path), text, at, v))
  {
    hide Lists, PathViolations, PackageViolations, CodeViolations, IsPackageFile, IsCodeFile, IsScript, AtPath,
         AtPackage, AtSpecifier, AtAcquisition, AtMechanism, Slash, Specifiers, ImportsInternals;
    var p := Slash(path);
    ScriptMeans(p);
    var a, b := PathViolations(p), if IsPackageFile(p) then PackageViolations(lex, p, text) else [];
    var x := PathsAreListed(p);
    var y := PackagesAreListed(lex, p, text);
    var f: (Place, Violation) -> bool := (at, v) => AtPath(p, at, v);
    var g: (Place, Violation) -> bool := (at, v) => AtPackage(lex, p, text, at, v);
    ListsSame(a, x, (at, v) => AtPath(p, at, v), f);
    ListsSame(b, y, (at, v) => AtPackage(lex, p, text, at, v), g);
    StagesJoin(a, x, f, b, y, g, 0, 4, 5);
    var fg: (Place, Violation) -> bool := (at, v) => f(at, v) || g(at, v);
    ListsSame(a + b, x + y, (at, v) => f(at, v) || g(at, v), fg);
    if IsCodeFile(p) {
      var c := CodeViolations(lex, p, text);
      var z := CodeIsListed(lex, p, text);
      var h: (Place, Violation) -> bool := (at, v) => AtCode(lex, p, text, at, v);
      ListsSame(c, z, (at, v) => AtCode(lex, p, text, at, v), h);
      StagesJoin(a + b, x + y, fg, c, z, h, 0, 5, 8);
      places := x + y + z;
      ListsSame(Violations(lex, path, text), places, (at, v) => fg(at, v) || h(at, v),
                (at, v) => IsDueAt(lex, p, text, at, v));
    } else {
      places := x + y;
      assert a + b + [] == a + b;
      ListsSame(Violations(lex, path, text), places, fg, (at, v) => IsDueAt(lex, p, text, at, v));
    }
  }
}
