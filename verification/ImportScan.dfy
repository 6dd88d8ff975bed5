/**
 * Import extraction: the three patterns of the source-boundary policy, and a deterministic
 * scanner that finds the same specifiers without backtracking.
 */
module ImportScan {
  import opened Base
  import opened Regex

  const QUOTES: set<char> := {'"', '\''}

  function Quoted(rest: Regex): Regex {
    Cat(One(Among(QUOTES)), Cat(Capture(Many(Except(QUOTES), 1, true)), Cat(One(Among(QUOTES)), rest)))
  }

  const END := Lit("")

  /** The `from` clause between the keyword and the specifier. */
  const CLAUSE := Cat(Many(Except({'\'', '"', ';'}), 0, false),
                      Cat(Many(Space, 1, true), Cat(Lit("from"), Many(Space, 1, true))))

  const STATIC := Cat(WordStart, Cat(Alt(Lit("import"), Lit("export")),
                    Cat(Many(Space, 1, true), Cat(Maybe(CLAUSE), Quoted(END)))))

  function Call(keyword: string): Regex {
    Cat(WordStart, Cat(Lit(keyword), Cat(Many(Space, 0, true), Cat(Lit("("), Cat(Many(Space, 0, true),
      Quoted(Cat(Many(Space, 0, true), Lit(")"))))))))
  }

  datatype Pattern = StaticImport | ImportCall | RequireCall {
    function Regex(): Regex {
      match this
      case StaticImport => STATIC
      case ImportCall => Call("import")
      case RequireCall => Call("require")
    }
  }

  const PATTERNS := [StaticImport, ImportCall, RequireCall]

  // ----- the deterministic scanner

  function NextQuote(text: string, pos: nat): (q: nat)
    requires pos <= |text|
    ensures pos <= q <= |text| && (q < |text| ==> text[q] in QUOTES)
    ensures forall i :: pos <= i < q ==> text[i] !in QUOTES
  {
    RunEnd(text, Except(QUOTES), pos)
  }

  /** The specifier behind an opening quote, as far as its closing quote. */
  function SpecifierAt(text: string, open: nat): (m: Option<State>)
    requires open <= |text|
    ensures m.Some? ==> open < m.value.lo < m.value.hi < m.value.pos <= |text|
    ensures m.Some? ==> forall i :: m.value.lo <= i < m.value.hi ==> text[i] !in QUOTES
  {
    if open == |text| || text[open] !in QUOTES then None
    else
      var close := NextQuote(text, open + 1);
      if close == |text| || close == open + 1 then None else Some(State(close + 1, open + 1, close))
  }

  function SpaceStart(text: string, from: nat, end: nat): (w: nat)
    requires from <= end <= |text|
    ensures from <= w <= end && forall i :: w <= i < end ==> IsSpace(text[i])
    ensures w > from ==> !IsSpace(text[w - 1])
    decreases end
  {
    if end > from && IsSpace(text[end - 1]) then SpaceStart(text, from, end - 1) else end
  }

  /** Between keyword and quote: only spaces, or spaces, a clause without semicolon, and `from` in spaces. */
  predicate GapOk(text: string, k: nat, q: nat)
    requires k <= q <= |text|
  {
    k < q && IsSpace(text[k]) &&
    var w := SpaceStart(text, k, q);
    || w == k
    || (w < q && w >= k + 6 && text[w - 4..w] == "from" && IsSpace(text[w - 5])
        && forall i :: k <= i < q ==> text[i] != ';')
  }

  predicate AtWordStart(text: string, i: nat) {
    i < |text| && IsWord(text[i]) && (i == 0 || !IsWord(text[i - 1]))
  }

  function ScanStatic(text: string, i: nat): Option<State>
    requires i <= |text|
  {
    if !AtWordStart(text, i) || !(Here(text, i, "import") || Here(text, i, "export")) then None
    else
      var q := NextQuote(text, i + 6);
      if GapOk(text, i + 6, q) then SpecifierAt(text, q) else None
  }

  function SkipSpace(text: string, pos: nat): (end: nat)
    requires pos <= |text|
    ensures pos <= end <= |text|
  {
    RunEnd(text, Space, pos)
  }

  function ScanCall(keyword: string, text: string, i: nat): Option<State>
    requires i <= |text|
  {
    if !AtWordStart(text, i) || !Here(text, i, keyword) then None
    else
      var p := SkipSpace(text, i + |keyword|);
      if !Here(text, p, "(") then None
      else
        var m :- SpecifierAt(text, SkipSpace(text, p + 1));
        var e := SkipSpace(text, m.pos);
        if Here(text, e, ")") then Some(m.(pos := e + 1)) else None
  }

  function ScanAt(pattern: Pattern, text: string, i: nat): Option<State>
    requires i <= |text|
  {
    match pattern
    case StaticImport => ScanStatic(text, i)
    case ImportCall => ScanCall("import", text, i)
    case RequireCall => ScanCall("require", text, i)
  }

  // ----- the engine reaches one state at most, and it is the scanner's

  /** The only way through a quoted specifier. */
  lemma ReachesQuoted(rest: Regex, text: string, m: State, n: State)
    requires m.pos <= |text|
    ensures Reaches(Quoted(rest), text, m, n) <==>
              && SpecifierAt(text, m.pos).Some?
              && Reaches(rest, text, SpecifierAt(text, m.pos).value, n)
  {
    hide Exec, Reaches;
    OneThen(Among(QUOTES), Cat(Capture(Many(Except(QUOTES), 1, true)), Cat(One(Among(QUOTES)), rest)), text, m, n);
    if m.pos < |text| {
      QuotedBody(rest, text, m.(pos := m.pos + 1), n);
    }
  }

  predicate NoQuote(text: string, lo: nat, hi: nat)
    requires hi <= |text|
  {
    forall i :: lo <= i < hi ==> text[i] !in QUOTES
  }

  lemma CaptureBody(text: string, k: State, g: State)
    requires k.pos <= |text|
    ensures Reaches(Capture(Many(Except(QUOTES), 1, true)), text, k, g) <==>
            g == State(g.pos, k.pos, g.pos) && k.pos < g.pos <= |text| && NoQuote(text, k.pos, g.pos)
  {
    var body := Many(Except(QUOTES), 1, true);
    ReachesCapture(body, text, k, g);
    ReachesMany(Except(QUOTES), 1, true, text, k, k.(pos := g.pos));
    ReachesManyOnly(Except(QUOTES), 1, true, text, k, g.pos);
  }

  lemma OneThen(cls: Class, rest: Regex, text: string, g: State, n: State)
    requires g.pos <= |text|
    ensures Reaches(Cat(One(cls), rest), text, g, n) <==>
            g.pos < |text| && cls.Has(text[g.pos]) && Reaches(rest, text, g.(pos := g.pos + 1), n)
  {
    ReachesCat(One(cls), rest, text, g, n);
    if g.pos < |text| && cls.Has(text[g.pos]) {
      assert Reaches(One(cls), text, g, g.(pos := g.pos + 1));
    }
  }

  lemma QuotedBody(rest: Regex, text: string, k: State, n: State)
    requires k.pos <= |text|
    ensures var close := NextQuote(text, k.pos);
            Reaches(Cat(Capture(Many(Except(QUOTES), 1, true)), Cat(One(Among(QUOTES)), rest)), text, k, n) <==>
              && k.pos < close < |text|
              && Reaches(rest, text, State(close + 1, k.pos, close), n)
  {
    hide Exec, Reaches;
    var body, tail := Capture(Many(Except(QUOTES), 1, true)), Cat(One(Among(QUOTES)), rest);
    var close := NextQuote(text, k.pos);
    ReachesCat(body, tail, text, k, n);
    if Reaches(Cat(body, tail), text, k, n) {
      var g :| Reaches(body, text, k, g) && g.pos <= |text| && Reaches(tail, text, g, n);
      CaptureBody(text, k, g);
      OneThen(Among(QUOTES), rest, text, g, n);
      assert g.pos == close;
    }
    if k.pos < close < |text| && Reaches(rest, text, State(close + 1, k.pos, close), n) {
      var g := State(close, k.pos, close);
      CaptureBody(text, k, g);
      OneThen(Among(QUOTES), rest, text, g, n);
    }
  }

  lemma ReachesManyOnly(cls: Class, min: nat, greedy: bool, text: string, m: State, pos: nat)
    requires m.pos <= |text|
    ensures (exists k :: Reaches(Many(cls, min, greedy), text, m, k) && k.pos == pos) <==>
            Reaches(Many(cls, min, greedy), text, m, m.(pos := pos))
  {
    forall k | Reaches(Many(cls, min, greedy), text, m, k) ensures k == m.(pos := k.pos) {
      ReachesMany(cls, min, greedy, text, m, k);
    }
  }

  predicate Run(text: string, cls: Class, lo: nat, hi: nat) {
    lo <= hi <= |text| && forall i :: lo <= i < hi ==> cls.Has(text[i])
  }

  lemma ManyThen(cls: Class, min: nat, greedy: bool, rest: Regex, text: string, m: State, n: State)
    requires m.pos <= |text|
    ensures Reaches(Cat(Many(cls, min, greedy), rest), text, m, n) <==>
            exists e :: m.pos + min <= e && Run(text, cls, m.pos, e) && Reaches(rest, text, m.(pos := e), n)
  {
    hide Exec, Reaches;
    ReachesCat(Many(cls, min, greedy), rest, text, m, n);
    if Reaches(Cat(Many(cls, min, greedy), rest), text, m, n) {
      var k :| Reaches(Many(cls, min, greedy), text, m, k) && k.pos <= |text| && Reaches(rest, text, k, n);
      ReachesMany(cls, min, greedy, text, m, k);
      assert Run(text, cls, m.pos, k.pos);
    }
    if exists e :: m.pos + min <= e && Run(text, cls, m.pos, e) && Reaches(rest, text, m.(pos := e), n) {
      var e :| m.pos + min <= e && Run(text, cls, m.pos, e) && Reaches(rest, text, m.(pos := e), n);
      ReachesMany(cls, min, greedy, text, m, m.(pos := e));
    }
  }

  lemma LitThen(s: string, rest: Regex, text: string, m: State, n: State)
    requires m.pos <= |text|
    ensures Reaches(Cat(Lit(s), rest), text, m, n) <==>
            Here(text, m.pos, s) && Reaches(rest, text, m.(pos := m.pos + |s|), n)
  {
    ReachesCat(Lit(s), rest, text, m, n);
    if Here(text, m.pos, s) {
      assert Reaches(Lit(s), text, m, m.(pos := m.pos + |s|));
    }
  }

  lemma WordStartThen(rest: Regex, text: string, m: State, n: State)
    requires m.pos <= |text|
    ensures Reaches(Cat(WordStart, rest), text, m, n) <==> AtWordStart(text, m.pos) && Reaches(rest, text, m, n)
  {
    ReachesCat(WordStart, rest, text, m, n);
    if AtWordStart(text, m.pos) {
      assert Reaches(WordStart, text, m, m);
    }
  }

  lemma KeywordThen(rest: Regex, text: string, m: State, n: State)
    requires m.pos <= |text|
    ensures Reaches(Cat(Alt(Lit("import"), Lit("export")), rest), text, m, n) <==>
            (Here(text, m.pos, "import") || Here(text, m.pos, "export")) && Reaches(rest, text, m.(pos := m.pos + 6), n)
  {
    var keyword := Alt(Lit("import"), Lit("export"));
    ReachesCat(keyword, rest, text, m, n);
    assert forall k :: Reaches(keyword, text, m, k) <==>
      (Here(text, m.pos, "import") || Here(text, m.pos, "export")) && k == m.(pos := m.pos + 6);
  }

  /** One way of reading a clause: anything to x, spaces to y, `from`, spaces to e. */
  predicate ClauseSpan(text: string, p: nat, x: nat, y: nat, e: nat) {
    p <= x < y && Run(text, Except({'\'', '"', ';'}), p, x) && Run(text, Space, x, y) && Here(text, y, "from")
    && y + 5 <= e && Run(text, Space, y + 4, e)
  }

  lemma ReachesClause(text: string, m: State, n: State)
    requires m.pos <= |text|
    ensures Reaches(CLAUSE, text, m, n) <==>
              n == m.(pos := n.pos) && exists x: nat, y: nat :: ClauseSpan(text, m.pos, x, y, n.pos)
  {
    hide Exec, Reaches;
    var tail := Cat(Lit("from"), Many(Space, 1, true));
    ManyThen(Except({'\'', '"', ';'}), 0, false, Cat(Many(Space, 1, true), tail), text, m, n);
    forall x: nat, y: nat | x <= |text| && y <= |text|
      ensures Reaches(Cat(Many(Space, 1, true), tail), text, m.(pos := x), n) <==>
                exists y: nat :: x + 1 <= y && Run(text, Space, x, y) && Reaches(tail, text, m.(pos := y), n)
      ensures Reaches(tail, text, m.(pos := y), n) <==>
                n == m.(pos := n.pos) && Here(text, y, "from") && y + 5 <= n.pos && Run(text, Space, y + 4, n.pos)
    {
      ManyThen(Space, 1, true, tail, text, m.(pos := x), n);
      LitThen("from", Many(Space, 1, true), text, m.(pos := y), n);
      if Here(text, y, "from") {
        ReachesMany(Space, 1, true, text, m.(pos := y + 4), n);
      }
    }
    if n == m.(pos := n.pos) && exists x: nat, y: nat :: ClauseSpan(text, m.pos, x, y, n.pos) {
      var x: nat, y: nat :| ClauseSpan(text, m.pos, x, y, n.pos);
      assert Reaches(tail, text, m.(pos := y), n);
      assert Reaches(Cat(Many(Space, 1, true), tail), text, m.(pos := x), n);
    }
    if Reaches(CLAUSE, text, m, n) {
      var x: nat :| m.pos <= x && Run(text, Except({'\'', '"', ';'}), m.pos, x)
               && Reaches(Cat(Many(Space, 1, true), tail), text, m.(pos := x), n);
      var y: nat :| x + 1 <= y && Run(text, Space, x, y) && Reaches(tail, text, m.(pos := y), n);
      assert ClauseSpan(text, m.pos, x, y, n.pos);
    }
  }

  /** A gap as the pattern reads it: spaces to p, and either nothing more or one clause. */
  ghost predicate GapReads(text: string, k: nat, p: nat, q: nat) {
    k < p <= q && Run(text, Space, k, p) && (p == q || exists x: nat, y: nat :: ClauseSpan(text, p, x, y, q))
  }

  lemma {:induction false} SpaceStartIsUnique(text: string, from: nat, end: nat, w: nat)
    requires from <= w <= end <= |text| && Run(text, Space, w, end) && (w > from ==> !IsSpace(text[w - 1]))
    ensures SpaceStart(text, from, end) == w
    decreases end
  {
    hide IsSpace;
    if w < end {
      assert Space.Has(text[end - 1]);
      SpaceStartIsUnique(text, from, end - 1, w);
    }
  }

  /** The deterministic test of a gap agrees with every way of reading it. */
  lemma GapMeans(text: string, k: nat, q: nat)
    requires k <= q <= |text| && NoQuote(text, k, q)
    ensures GapOk(text, k, q) <==> exists p :: GapReads(text, k, p, q)
  {
    if GapOk(text, k, q) {
      var w := SpaceStart(text, k, q);
      if w == k {
        assert GapReads(text, k, q, q);
      } else {
        assert Run(text, Space, k, k + 1) && Run(text, Space, w - 5, w - 4) && Run(text, Space, w, q);
        assert Run(text, Except({'\'', '"', ';'}), k + 1, w - 5);
        assert ClauseSpan(text, k + 1, w - 5, w - 4, q);
        assert GapReads(text, k, k + 1, q);
      }
    }
    if exists p :: GapReads(text, k, p, q) {
      var p :| GapReads(text, k, p, q);
      assert Space.Has(text[k]);
      if p == q {
        SpaceStartIsUnique(text, k, q, k);
      } else {
        var x: nat, y: nat :| ClauseSpan(text, p, x, y, q);
        ClauseGap(text, k, p, x, y, q);
      }
    }
  }

  /** A clause is free of quotes and semicolons. */
  lemma ClauseChars(text: string, p: nat, x: nat, y: nat, q: nat, i: nat)
    requires ClauseSpan(text, p, x, y, q) && p <= i < q
    ensures i < |text| && text[i] !in QUOTES && text[i] != ';'
  {
    if i < x {
      assert Except({'\'', '"', ';'}).Has(text[i]);
    } else if y <= i < y + 4 {
      assert text[i] == text[y..y + 4][i - y] == "from"[i - y];
    } else {
      assert Space.Has(text[i]);
    }
  }

  lemma ClauseGap(text: string, k: nat, p: nat, x: nat, y: nat, q: nat)
    requires k < p && Run(text, Space, k, p) && ClauseSpan(text, p, x, y, q)
    ensures GapOk(text, k, q)
  {
    assert text[y..y + 4][3] == 'm';
    SpaceStartIsUnique(text, k, q, y + 4);
    assert Space.Has(text[y - 1]) && Space.Has(text[k]);
    forall i | k <= i < q ensures text[i] != ';' {
      if i < p {
        assert Space.Has(text[i]);
      } else {
        ClauseChars(text, p, x, y, q, i);
      }
    }
  }

  lemma GapHasNoQuote(text: string, k: nat, p: nat, q: nat)
    requires GapReads(text, k, p, q)
    ensures q <= |text| && NoQuote(text, k, q)
  {
    if p == q {
      assert forall i :: k <= i < q ==> Space.Has(text[i]);
    } else {
      var x: nat, y: nat :| ClauseSpan(text, p, x, y, q);
      forall i | k <= i < q ensures text[i] !in QUOTES {
        if i < p {
          assert Space.Has(text[i]);
        } else {
          ClauseChars(text, p, x, y, q, i);
        }
      }
    }
  }

  // ----- the patterns as a whole

  lemma ReachesStatic(text: string, i: nat, n: State)
    requires i <= |text|
    ensures Reaches(STATIC, text, At(i), n) <==> ScanStatic(text, i) == Some(n)
  {
    hide Exec, Reaches, GapOk, AtWordStart, SpecifierAt;
    var clause := Cat(Maybe(CLAUSE), Quoted(END));
    var gap := Cat(Many(Space, 1, true), clause);
    WordStartThen(Cat(Alt(Lit("import"), Lit("export")), gap), text, At(i), n);
    KeywordThen(gap, text, At(i), n);
    if Here(text, i, "import") || Here(text, i, "export") {
      ReachesGap(text, State(i + 6, 0, 0), n);
    }
  }

  lemma ReachesGap(text: string, m: State, n: State)
    requires m.pos <= |text| && m.lo == 0 && m.hi == 0
    ensures var q := NextQuote(text, m.pos);
            Reaches(Cat(Many(Space, 1, true), Cat(Maybe(CLAUSE), Quoted(END))), text, m, n) <==>
            GapOk(text, m.pos, q) && SpecifierAt(text, q) == Some(n)
  {
    hide Exec, Reaches, GapOk, SpecifierAt;
    var k, q := m.pos, NextQuote(text, m.pos);
    var clause := Cat(Maybe(CLAUSE), Quoted(END));
    ManyThen(Space, 1, true, clause, text, m, n);
    GapMeans(text, k, q);
    if Reaches(Cat(Many(Space, 1, true), clause), text, m, n) {
      var p: nat :| k + 1 <= p && Run(text, Space, k, p) && Reaches(clause, text, m.(pos := p), n);
      var e := ClauseReaches(text, m.(pos := p), n);
      assert GapReads(text, k, p, e);
      GapHasNoQuote(text, k, p, e);
      QuoteIsNext(text, k, e);
    }
    if GapOk(text, k, q) && SpecifierAt(text, q) == Some(n) {
      var p :| GapReads(text, k, p, q);
      ClauseIsReached(text, m.(pos := p), q, n);
    }
  }

  lemma QuoteIsNext(text: string, k: nat, e: nat)
    requires k <= e <= |text| && NoQuote(text, k, e) && SpecifierAt(text, e).Some?
    ensures NextQuote(text, k) == e
  {
  }

  /** Behind the spaces: an optional clause, then the specifier. */
  lemma ClauseReaches(text: string, m: State, n: State) returns (e: nat)
    requires m.pos <= |text| && Reaches(Cat(Maybe(CLAUSE), Quoted(END)), text, m, n)
    ensures m.pos <= e <= |text| && SpecifierAt(text, e) == Some(n)
    ensures m.pos == e || exists x: nat, y: nat :: ClauseSpan(text, m.pos, x, y, e)
  {
    hide Exec, Reaches, SpecifierAt;
    ReachesCat(Maybe(CLAUSE), Quoted(END), text, m, n);
    var k :| Reaches(Maybe(CLAUSE), text, m, k) && k.pos <= |text| && Reaches(Quoted(END), text, k, n);
    ReachesEnd(text, k, n);
    e := k.pos;
    ReachesMaybe(CLAUSE, text, m, k);
    if k != m {
      ReachesClause(text, m, k);
      var x: nat, y: nat :| ClauseSpan(text, m.pos, x, y, k.pos);
    }
  }

  lemma ReachesMaybe(a: Regex, text: string, m: State, n: State)
    requires m.pos <= |text|
    ensures Reaches(Maybe(a), text, m, n) <==> n == m || Reaches(a, text, m, n)
  {
    assert Exec(Maybe(a), text, m) == Exec(a, text, m) + [m];
  }

  lemma ReachesEnd(text: string, k: State, n: State)
    requires k.pos <= |text|
    ensures Reaches(Quoted(END), text, k, n) <==> SpecifierAt(text, k.pos) == Some(n)
  {
    hide Exec;
    ReachesQuoted(END, text, k, n);
    if SpecifierAt(text, k.pos).Some? {
      EndReaches(text, SpecifierAt(text, k.pos).value, n);
    }
  }

  lemma EndReaches(text: string, k: State, n: State)
    requires k.pos <= |text|
    ensures Reaches(END, text, k, n) <==> n == k
  {
    assert text[k.pos..k.pos] == "";
  }

  lemma ClauseIsReached(text: string, m: State, q: nat, n: State)
    requires m.pos <= q <= |text| && SpecifierAt(text, q) == Some(n)
    requires m.pos == q || exists x: nat, y: nat :: ClauseSpan(text, m.pos, x, y, q)
    ensures Reaches(Cat(Maybe(CLAUSE), Quoted(END)), text, m, n)
  {
    hide Exec, Reaches, SpecifierAt;
    var k := m.(pos := q);
    if k != m {
      ReachesClause(text, m, k);
    }
    ReachesMaybe(CLAUSE, text, m, k);
    ReachesEnd(text, k, n);
    ReachesCat(Maybe(CLAUSE), Quoted(END), text, m, n);
  }

  /** Optional spaces before a character that is no space leave no choice. */
  lemma SpacesThen(rest: Regex, text: string, m: State, n: State, next: char)
    requires m.pos <= |text| && !IsSpace(next)
    requires forall e: nat :: e <= |text| && Reaches(rest, text, m.(pos := e), n) ==> e < |text| && text[e] == next
    ensures Reaches(Cat(Many(Space, 0, true), rest), text, m, n) <==>
            Reaches(rest, text, m.(pos := SkipSpace(text, m.pos)), n)
  {
    hide Exec, Reaches;
    ManyThen(Space, 0, true, rest, text, m, n);
    var end := SkipSpace(text, m.pos);
    assert Run(text, Space, m.pos, end);
    if Reaches(Cat(Many(Space, 0, true), rest), text, m, n) {
      var e: nat :| m.pos <= e && Run(text, Space, m.pos, e) && Reaches(rest, text, m.(pos := e), n);
      RunStops(text, m.pos, e);
    }
  }

  lemma RunStops(text: string, pos: nat, e: nat)
    requires pos <= e < |text| && Run(text, Space, pos, e) && !IsSpace(text[e])
    ensures SkipSpace(text, pos) == e
  {
    RunEndIsUnique(text, Space, pos, e);
  }

  lemma SpacesThenBracket(c: char, rest: Regex, text: string, m: State, n: State)
    requires m.pos <= |text| && !IsSpace(c)
    ensures var p := SkipSpace(text, m.pos);
            Reaches(Cat(Many(Space, 0, true), Cat(Lit([c]), rest)), text, m, n) <==>
            Here(text, p, [c]) && Reaches(rest, text, m.(pos := p + 1), n)
  {
    hide Exec, Reaches;
    forall e: nat | e <= |text| && Reaches(Cat(Lit([c]), rest), text, m.(pos := e), n)
      ensures e < |text| && text[e] == c
    {
      LitThen([c], rest, text, m.(pos := e), n);
      assert text[e..e + 1][0] == c;
    }
    LitThen([c], rest, text, m.(pos := SkipSpace(text, m.pos)), n);
    SpacesThen(Cat(Lit([c]), rest), text, m, n, c);
  }

  lemma SpacesThenQuoted(rest: Regex, text: string, m: State, n: State)
    requires m.pos <= |text|
    ensures var p := SkipSpace(text, m.pos);
            Reaches(Cat(Many(Space, 0, true), Quoted(rest)), text, m, n) <==>
            SpecifierAt(text, p).Some? && Reaches(rest, text, SpecifierAt(text, p).value, n)
  {
    hide Exec, Reaches, SpecifierAt;
    ManyThen(Space, 0, true, Quoted(rest), text, m, n);
    var p := SkipSpace(text, m.pos);
    assert Run(text, Space, m.pos, p);
    ReachesQuoted(rest, text, m.(pos := p), n);
    if Reaches(Cat(Many(Space, 0, true), Quoted(rest)), text, m, n) {
      var e: nat :| m.pos <= e && Run(text, Space, m.pos, e) && Reaches(Quoted(rest), text, m.(pos := e), n);
      ReachesQuoted(rest, text, m.(pos := e), n);
      SpecifierOpens(text, e);
      RunStops(text, m.pos, e);
    }
  }

  lemma SpecifierOpens(text: string, e: nat)
    requires e <= |text| && SpecifierAt(text, e).Some?
    ensures e < |text| && !IsSpace(text[e])
  {
  }

  lemma ReachesClose(text: string, m: State, n: State)
    requires m.pos <= |text|
    ensures var e := SkipSpace(text, m.pos);
            Reaches(Cat(Many(Space, 0, true), Lit(")")), text, m, n) <==> Here(text, e, ")") && n == m.(pos := e + 1)
  {
    hide Reaches;
    hide Exec;
    forall e: nat | e <= |text| && Reaches(Lit(")"), text, m.(pos := e), n) ensures e < |text| && text[e] == ')' {
      LitReaches(")", text, m.(pos := e), n);
      assert text[e..e + 1][0] == ')';
    }
    LitReaches(")", text, m.(pos := SkipSpace(text, m.pos)), n);
    SpacesThen(Lit(")"), text, m, n, ')');
  }

  lemma LitReaches(s: string, text: string, m: State, n: State)
    requires m.pos <= |text|
    ensures Reaches(Lit(s), text, m, n) <==> Here(text, m.pos, s) && n == m.(pos := m.pos + |s|)
  {
  }

  lemma ReachesCall(keyword: string, text: string, i: nat, n: State)
    requires i <= |text|
    ensures Reaches(Call(keyword), text, At(i), n) <==> ScanCall(keyword, text, i) == Some(n)
  {
    hide Exec, Reaches, AtWordStart, SpecifierAt, SkipSpace;
    var close := Cat(Many(Space, 0, true), Lit(")"));
    var argument := Cat(Many(Space, 0, true), Quoted(close));
    var brackets := Cat(Many(Space, 0, true), Cat(Lit("("), argument));
    WordStartThen(Cat(Lit(keyword), brackets), text, At(i), n);
    LitThen(keyword, brackets, text, At(i), n);
    if Here(text, i, keyword) {
      var m := State(i + |keyword|, 0, 0);
      SpacesThenBracket('(', argument, text, m, n);
      var p := SkipSpace(text, m.pos);
      if Here(text, p, "(") {
        SpacesThenQuoted(close, text, State(p + 1, 0, 0), n);
        var spec := SpecifierAt(text, SkipSpace(text, p + 1));
        if spec.Some? {
          ReachesClose(text, spec.value, n);
        }
      }
    }
  }

  /** The backtracking engine can reach the scanner's match and no other. */
  lemma EngineReachesScan(pattern: Pattern, text: string, i: nat, n: State)
    requires i <= |text|
    ensures Reaches(pattern.Regex(), text, At(i), n) <==> ScanAt(pattern, text, i) == Some(n)
  {
    hide Exec, Reaches, ScanStatic, ScanCall;
    match pattern
    case StaticImport => ReachesStatic(text, i, n);
    case ImportCall => ReachesCall("import", text, i, n);
    case RequireCall => ReachesCall("require", text, i, n);
  }

  /** Hence the first match the engine tries is the scanner's, whatever the order of trying. */
  lemma FirstMatchIsScan(pattern: Pattern, text: string, i: nat)
    requires i <= |text|
    ensures var ms := Exec(pattern.Regex(), text, At(i));
            && (ms == [] <==> ScanAt(pattern, text, i) == None)
            && (ms != [] ==> ScanAt(pattern, text, i) == Some(ms[0]))
  {
    hide Exec, ScanAt;
    var ms := Exec(pattern.Regex(), text, At(i));
    if ms != [] {
      assert ms[0] in ms;
      EngineReachesScan(pattern, text, i, ms[0]);
    }
    if ScanAt(pattern, text, i).Some? {
      EngineReachesScan(pattern, text, i, ScanAt(pattern, text, i).value);
    }
  }

  /** A scanned match moves forward and captures a non-empty text without quotes. */
  lemma ScanAdvances(pattern: Pattern, text: string, i: nat)
    requires i <= |text|
    ensures var m := ScanAt(pattern, text, i);
            m.Some? ==> i < m.value.lo < m.value.hi < m.value.pos <= |text| && NoQuote(text, m.value.lo, m.value.hi)
  {
  }

  /** The matches of one pattern, found by scanning. */
  function ScanAll(pattern: Pattern, text: string, from: nat): (matches: seq<State>)
    requires from <= |text|
    decreases |text| - from
  {
    match ScanAt(pattern, text, from)
    case None => if from == |text| then [] else ScanAll(pattern, text, from + 1)
    case Some(m) =>
      ScanAdvances(pattern, text, from);
      [m] + ScanAll(pattern, text, m.pos)
  }

  /** The global search of the engine and the scanner return the same matches. */
  lemma {:induction false} SearchIsScan(pattern: Pattern, text: string, from: nat)
    requires from <= |text|
    ensures MatchAll(pattern.Regex(), text, from) == ScanAll(pattern, text, from)
    decreases |text| - from
  {
    hide Exec, ScanAt;
    FirstMatchIsScan(pattern, text, from);
    ScanAdvances(pattern, text, from);
    match ScanAt(pattern, text, from)
    case None =>
      if from < |text| {
        SearchIsScan(pattern, text, from + 1);
      }
    case Some(m) => SearchIsScan(pattern, text, m.pos);
  }

  predicate IsCapture(text: string, m: State) {
    m.lo < m.hi <= |text|
  }

  function Captured(text: string, ms: seq<State>): seq<string>
    requires forall i :: 0 <= i < |ms| ==> IsCapture(text, ms[i])
  {
    seq(|ms|, i requires 0 <= i < |ms| => assert IsCapture(text, ms[i]); text[ms[i].lo..ms[i].hi])
  }

  lemma CapturedNone(text: string)
    ensures Captured(text, []) == []
  {
  }

  lemma CapturedAppend(text: string, ms: seq<State>, m: State)
    requires forall i :: 0 <= i < |ms| ==> IsCapture(text, ms[i])
    requires IsCapture(text, m)
    ensures forall i :: 0 <= i < |ms + [m]| ==> IsCapture(text, (ms + [m])[i])
    ensures Captured(text, ms + [m]) == Captured(text, ms) + [text[m.lo..m.hi]]
  {
  }

  /** Matches behind a position, one after the other, each capturing a non-empty text without quotes. */
  predicate Ordered(text: string, from: nat, ms: seq<State>) {
    && (forall i :: 0 <= i < |ms| ==>
         from < ms[i].lo < ms[i].hi < ms[i].pos <= |text| && NoQuote(text, ms[i].lo, ms[i].hi))
    && (forall i, j :: 0 <= i < j < |ms| ==> ms[i].pos < ms[j].lo)
  }

  lemma OrderedCons(text: string, from: nat, m: State, rest: seq<State>)
    requires from < m.lo < m.hi < m.pos <= |text| && NoQuote(text, m.lo, m.hi) && Ordered(text, m.pos, rest)
    ensures Ordered(text, from, [m] + rest)
  {
    var ms := [m] + rest;
    forall i | 0 <= i < |ms|
      ensures from < ms[i].lo < ms[i].hi < ms[i].pos <= |text| && NoQuote(text, ms[i].lo, ms[i].hi)
    {
      if i > 0 {
        assert ms[i] == rest[i - 1];
      }
    }
    forall i, j | 0 <= i < j < |ms| ensures ms[i].pos < ms[j].lo {
      assert ms[j] == rest[j - 1];
      assert i > 0 ==> ms[i] == rest[i - 1];
    }
  }

  /** Matches follow one another without overlap, and each captures a clean specifier. */
  lemma {:induction false} ScanIsOrdered(pattern: Pattern, text: string, from: nat)
    requires from <= |text|
    ensures Ordered(text, from, ScanAll(pattern, text, from))
    decreases |text| - from
  {
    hide ScanAt;
    ScanAdvances(pattern, text, from);
    match ScanAt(pattern, text, from)
    case None =>
      if from < |text| {
        ScanIsOrdered(pattern, text, from + 1);
      }
    case Some(m) =>
      ScanIsOrdered(pattern, text, m.pos);
      OrderedCons(text, from, m, ScanAll(pattern, text, m.pos));
  }

  lemma ScanCaptures(pattern: Pattern, text: string, from: nat)
    requires from <= |text|
    ensures forall i :: 0 <= i < |ScanAll(pattern, text, from)| ==> IsCapture(text, ScanAll(pattern, text, from)[i])
  {
    hide ScanAll;
    ScanIsOrdered(pattern, text, from);
  }

  /** What the policy extracts: the captures of all matches, pattern after pattern. */
  function PatternSpecifiers(pattern: Pattern, text: string): seq<string> {
    SearchIsScan(pattern, text, 0);
    ScanIsOrdered(pattern, text, 0);
    Captured(text, MatchAll(pattern.Regex(), text, 0))
  }

  function Specifiers(text: string): seq<string> {
    PatternSpecifiers(StaticImport, text) + PatternSpecifiers(ImportCall, text) + PatternSpecifiers(RequireCall, text)
  }

  predicate IsClean(text: string, v: string) {
    v != "" && (forall c :: c in v ==> c !in QUOTES) && exists lo, hi :: 0 <= lo < hi <= |text| && v == text[lo..hi]
  }

  lemma PatternIsClean(pattern: Pattern, text: string, v: string)
    requires v in PatternSpecifiers(pattern, text)
    ensures IsClean(text, v)
  {
    hide MatchAll, ScanAll, Pattern.Regex;
    SearchIsScan(pattern, text, 0);
    ScanIsOrdered(pattern, text, 0);
    var ms := ScanAll(pattern, text, 0);
    var i :| 0 <= i < |ms| && v == Captured(text, ms)[i];
    assert v == text[ms[i].lo..ms[i].hi] && NoQuote(text, ms[i].lo, ms[i].hi);
  }

  /** Every specifier is a non-empty piece of the text without quotes. */
  lemma SpecifiersAreClean(text: string, v: string)
    requires v in Specifiers(text)
    ensures v != "" && (forall c :: c in v ==> c !in QUOTES)
    ensures exists lo, hi :: 0 <= lo < hi <= |text| && v == text[lo..hi]
  {
    hide PatternSpecifiers;
    var pattern :| v in PatternSpecifiers(pattern, text);
    PatternIsClean(pattern, text, v);
  }

  /** Import extraction as the tool runs it, without backtracking. */
  method ImportSpecifiers(text: string) returns (values: seq<string>)
    ensures values == Specifiers(text)
  {
    values := [];
    var p := 0;
    while p < |PATTERNS|
      invariant p <= |PATTERNS| && values == SpecifiersOf(text, PATTERNS[..p])
    {
      assert PATTERNS[..p + 1][..p] == PATTERNS[..p];
      var found := ScanPattern(PATTERNS[p], text);
      values, p := values + found, p + 1;
    }
    AllPatterns(text);
  }

  method ScanPattern(pattern: Pattern, text: string) returns (values: seq<string>)
    ensures values == PatternSpecifiers(pattern, text)
  {
    hide ScanAt, MatchAll, Pattern.Regex, Captured, NoQuote, IsCapture;
    SearchIsScan(pattern, text, 0);
    ScanCaptures(pattern, text, 0);
    CapturedNone(text);
    ghost var all := ScanAll(pattern, text, 0);
    values := [];
    var from := 0;
    ghost var n := 0;
    while true
      invariant from <= |text| && n <= |all|
      invariant all[n..] == ScanAll(pattern, text, from)
      invariant values == Captured(text, all[..n])
      decreases |text| - from
    {
      var m := ScanAt(pattern, text, from);
      ScanAdvances(pattern, text, from);
      if m.Some? {
        assert all[n] == m.value && all[n..][1..] == all[n + 1..];
        assert all[..n + 1] == all[..n] + [m.value];
        CapturedAppend(text, all[..n], m.value);
        values := values + [text[m.value.lo..m.value.hi]];
        from, n := m.value.pos, n + 1;
      } else if from == |text| {
        break;
      } else {
        from := from + 1;
      }
    }
    assert all[..n] == all;
  }

  function SpecifiersOf(text: string, patterns: seq<Pattern>): seq<string> {
    if patterns == [] then []
    else SpecifiersOf(text, patterns[..|patterns| - 1]) + PatternSpecifiers(patterns[|patterns| - 1], text)
  }

  lemma AllPatterns(text: string)
    ensures SpecifiersOf(text, PATTERNS) == Specifiers(text)
    ensures PATTERNS[..|PATTERNS|] == PATTERNS
  {
    hide PatternSpecifiers;
    assert PATTERNS[..2] == [StaticImport, ImportCall] && PATTERNS[..2][..1] == [StaticImport];
    assert [StaticImport][..0] == [];
    assert SpecifiersOf(text, [StaticImport]) == SpecifiersOf(text, []) + PatternSpecifiers(StaticImport, text);
  }
}
