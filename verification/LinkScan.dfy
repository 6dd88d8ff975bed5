/** Markdown link extraction: the link pattern of the documentation check and its deterministic scanner. */
module LinkScan {
  import opened Base
  import opened Regex
  import opened ImportScan

  const TARGET := Cat(Capture(Many(Except({')'}), 1, true)), Lit(")"))
  const LINK := Cat(NotAfter('!'), Cat(Lit("["), Cat(Many(Except({']'}), 0, true), Cat(Lit("]("), TARGET))))

  /** The bracketed target behind `](`. */
  function ScanTarget(text: string, open: nat): (m: Option<State>)
    requires open <= |text|
    ensures m.Some? ==> m.value.lo == open < m.value.hi < m.value.pos <= |text|
  {
    var close := RunEnd(text, Except({')'}), open);
    if close == open || close == |text| then None else Some(State(close + 1, open, close))
  }

  function ScanLink(text: string, i: nat): (m: Option<State>)
    requires i <= |text|
    ensures m.Some? ==> i < m.value.lo < m.value.hi < m.value.pos <= |text|
  {
    if (i > 0 && text[i - 1] == '!') || !Here(text, i, "[") then None
    else
      var c := RunEnd(text, Except({']'}), i + 1);
      if Here(text, c, "](") then ScanTarget(text, c + 2) else None
  }

  function ScanLinks(text: string, from: nat): (matches: seq<State>)
    requires from <= |text|
    ensures forall i :: 0 <= i < |matches| ==> IsCapture(text, matches[i])
    decreases |text| - from
  {
    match ScanLink(text, from)
    case None => if from == |text| then [] else ScanLinks(text, from + 1)
    case Some(m) => [m] + ScanLinks(text, m.pos)
  }

  lemma NotAfterThen(c: char, rest: Regex, text: string, m: State, n: State)
    requires m.pos <= |text|
    ensures Reaches(Cat(NotAfter(c), rest), text, m, n) <==>
            !(m.pos > 0 && text[m.pos - 1] == c) && Reaches(rest, text, m, n)
  {
    ReachesCat(NotAfter(c), rest, text, m, n);
    if !(m.pos > 0 && text[m.pos - 1] == c) {
      assert Reaches(NotAfter(c), text, m, m);
    }
  }

  lemma CaptureRun(cls: Class, text: string, m: State, g: State)
    requires m.pos <= |text|
    ensures Reaches(Capture(Many(cls, 1, true)), text, m, g) <==>
            g == State(g.pos, m.pos, g.pos) && m.pos < g.pos && Run(text, cls, m.pos, g.pos)
  {
    ReachesCapture(Many(cls, 1, true), text, m, g);
    ReachesMany(cls, 1, true, text, m, m.(pos := g.pos));
    ReachesManyOnly(cls, 1, true, text, m, g.pos);
  }

  /** The run before an excluded character ends at it. */
  lemma RunEndsBefore(text: string, c: char, pos: nat, e: nat)
    requires e < |text| && text[e] == c && Run(text, Except({c}), pos, e)
    ensures RunEnd(text, Except({c}), pos) == e
  {
    RunEndIsUnique(text, Except({c}), pos, e);
  }

  lemma HereStarts(text: string, pos: nat, s: string)
    requires Here(text, pos, s) && s != ""
    ensures pos < |text| && text[pos] == s[0]
  {
    assert text[pos..pos + |s|][0] == s[0];
  }

  lemma ReachesTarget(text: string, m: State, n: State)
    requires m.pos <= |text|
    ensures Reaches(TARGET, text, m, n) <==> ScanTarget(text, m.pos) == Some(n)
  {
    hide Exec, Reaches;
    var body := Capture(Many(Except({')'}), 1, true));
    var close := RunEnd(text, Except({')'}), m.pos);
    ReachesCat(body, Lit(")"), text, m, n);
    if Reaches(TARGET, text, m, n) {
      var g :| Reaches(body, text, m, g) && g.pos <= |text| && Reaches(Lit(")"), text, g, n);
      CaptureRun(Except({')'}), text, m, g);
      LitReaches(")", text, g, n);
      HereStarts(text, g.pos, ")");
      RunEndsBefore(text, ')', m.pos, g.pos);
    }
    if ScanTarget(text, m.pos) == Some(n) {
      var g := State(close, m.pos, close);
      CaptureRun(Except({')'}), text, m, g);
      LitReaches(")", text, g, n);
      assert text[close..close + 1] == ")";
    }
  }

  /** The backtracking engine can reach the scanner's link and no other. */
  lemma EngineReachesLink(text: string, i: nat, n: State)
    requires i <= |text|
    ensures Reaches(LINK, text, At(i), n) <==> ScanLink(text, i) == Some(n)
  {
    hide Exec, Reaches, ScanTarget;
    var tail := Cat(Lit("]("), TARGET);
    var caption := Cat(Many(Except({']'}), 0, true), tail);
    NotAfterThen('!', Cat(Lit("["), caption), text, At(i), n);
    LitThen("[", caption, text, At(i), n);
    if Here(text, i, "[") {
      var m := State(i + 1, 0, 0);
      ManyThen(Except({']'}), 0, true, tail, text, m, n);
      var c := RunEnd(text, Except({']'}), i + 1);
      if Reaches(caption, text, m, n) {
        var e: nat :| m.pos <= e && Run(text, Except({']'}), m.pos, e) && Reaches(tail, text, m.(pos := e), n);
        LitThen("](", TARGET, text, m.(pos := e), n);
        HereStarts(text, e, "](");
        RunEndsBefore(text, ']', i + 1, e);
      }
      LitThen("](", TARGET, text, m.(pos := c), n);
      assert Run(text, Except({']'}), m.pos, c);
      if Here(text, c, "](") {
        ReachesTarget(text, m.(pos := c + 2), n);
      }
    }
  }

  /** The engine's global search and the scanner find the same links. */
  lemma {:induction false} LinkSearchIsScan(text: string, from: nat)
    requires from <= |text|
    ensures MatchAll(LINK, text, from) == ScanLinks(text, from)
    decreases |text| - from
  {
    hide Exec, ScanLink;
    var ms := Exec(LINK, text, At(from));
    if ms != [] {
      assert Reaches(LINK, text, At(from), ms[0]) by { assert ms[0] in ms; }
      EngineReachesLink(text, from, ms[0]);
    }
    match ScanLink(text, from)
    case None =>
      if from < |text| {
        LinkSearchIsScan(text, from + 1);
      }
    case Some(m) =>
      EngineReachesLink(text, from, m);
      LinkSearchIsScan(text, m.pos);
  }

  /** The raw targets of all links of a text. */
  function Links(text: string): seq<string> {
    LinkSearchIsScan(text, 0);
    Captured(text, MatchAll(LINK, text, 0))
  }

  /** The extraction without backtracking. */
  method ExtractLinks(text: string) returns (raws: seq<string>)
    ensures raws == Links(text)
  {
    hide ScanLink, MatchAll, Captured;
    LinkSearchIsScan(text, 0);
    CapturedNone(text);
    ghost var all := ScanLinks(text, 0);
    raws := [];
    var from := 0;
    ghost var n := 0;
    while true
      invariant from <= |text| && n <= |all|
      invariant all[n..] == ScanLinks(text, from)
      invariant raws == Captured(text, all[..n])
      decreases |text| - from
    {
      var m := ScanLink(text, from);
      if m.Some? {
        assert all[n] == m.value && all[n..][1..] == all[n + 1..];
        assert all[..n + 1] == all[..n] + [m.value];
        CapturedAppend(text, all[..n], m.value);
        raws := raws + [text[m.value.lo..m.value.hi]];
        from, n := m.value.pos, n + 1;
      } else if from == |text| {
        break;
      } else {
        from := from + 1;
      }
    }
    assert all[..n] == all;
  }

  /** A captured target is a non-empty bracketed text without a closing bracket, behind a closing label. */
  predicate IsBracketed(text: string, m: State) {
    && 2 <= m.lo < m.hi < |text| && text[m.lo - 2..m.lo] == "](" && text[m.hi] == ')'
    && ')' !in text[m.lo..m.hi]
  }

  lemma {:induction false} LinksAreBracketed(text: string, from: nat)
    requires from <= |text|
    ensures forall i :: 0 <= i < |ScanLinks(text, from)| ==> IsBracketed(text, ScanLinks(text, from)[i])
    decreases |text| - from
  {
    hide ScanLink, IsBracketed;
    match ScanLink(text, from)
    case None =>
      if from < |text| {
        LinksAreBracketed(text, from + 1);
      }
    case Some(m) =>
      LinksAreBracketed(text, m.pos);
      LinkIsBracketed(text, from);
      var rest := ScanLinks(text, m.pos);
      forall i | 0 <= i < |ScanLinks(text, from)| ensures IsBracketed(text, ScanLinks(text, from)[i]) {
        assert i > 0 ==> ScanLinks(text, from)[i] == rest[i - 1];
      }
  }

  lemma LinkIsBracketed(text: string, i: nat)
    requires i <= |text| && ScanLink(text, i).Some?
    ensures IsBracketed(text, ScanLink(text, i).value)
  {
    var m := ScanLink(text, i).value;
    forall k | m.lo <= k < m.hi ensures text[k] != ')' {
      assert Except({')'}).Has(text[k]);
    }
  }
}
