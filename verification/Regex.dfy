/**
 * The fragment of JavaScript regular expressions the checkers use, with its backtracking
 * meaning: from a start state, all end states in the order the engine would try them.
 */
module Regex {

  datatype Class = Space | Among(chars: set<char>) | Except(chars: set<char>) {
    predicate Has(c: char) {
      match this
      case Space => IsSpace(c)
      case Among(chars) => c in chars
      case Except(chars) => c !in chars
    }
  }

  /** The characters of `\s`. */
  predicate IsSpace(c: char) {
    c in {'\t', '\n', '\U{000B}', '\U{000C}', '\r', ' ', '\U{00A0}', '\U{1680}', '\U{2028}', '\U{2029}', '\U{202F}',
          '\U{205F}', '\U{3000}', '\U{FEFF}'}
    || '\U{2000}' <= c <= '\U{200A}'
  }

  predicate IsWord(c: char) {
    'a' <= c <= 'z' || 'A' <= c <= 'Z' || '0' <= c <= '9' || c == '_'
  }

  datatype Regex =
    | Lit(s: string)
    | WordStart                        // a word boundary in front of a word character
    | NotAfter(c: char)                // a one-character negative lookbehind
    | TextStart
    | TextEnd
    | One(cls: Class)
    | Many(cls: Class, min: nat, greedy: bool)
    | Cat(a: Regex, b: Regex)
    | Alt(a: Regex, b: Regex)
    | Maybe(a: Regex)                  // greedy `?`
    | Capture(a: Regex)

  /** A position, and the bounds of the captured group. */
  datatype State = State(pos: nat, lo: nat, hi: nat)

  function At(pos: nat): State {
    State(pos, 0, 0)
  }

  predicate Here(text: string, pos: nat, s: string) {
    pos + |s| <= |text| && text[pos..pos + |s|] == s
  }

  /** The end of the longest run of a class. */
  function RunEnd(text: string, cls: Class, pos: nat): (end: nat)
    requires pos <= |text|
    ensures pos <= end <= |text|
    ensures forall i :: pos <= i < end ==> cls.Has(text[i])
    ensures end < |text| ==> !cls.Has(text[end])
    decreases |text| - pos
  {
    if pos < |text| && cls.Has(text[pos]) then RunEnd(text, cls, pos + 1) else pos
  }

  lemma {:induction false} RunEndIsUnique(text: string, cls: Class, pos: nat, e: nat)
    requires pos <= e <= |text| && (e < |text| ==> !cls.Has(text[e])) && forall i :: pos <= i < e ==> cls.Has(text[i])
    ensures RunEnd(text, cls, pos) == e
    decreases e - pos
  {
    if pos < e {
      RunEndIsUnique(text, cls, pos + 1, e);
    }
  }

  /** The positions from lo to hi, longest match first or shortest match first. */
  function Tries(lo: nat, hi: nat, greedy: bool): seq<nat>
    decreases hi - lo
  {
    if lo > hi then []
    else if greedy then Tries(lo + 1, hi, greedy) + [lo]
    else [lo] + Tries(lo + 1, hi, greedy)
  }

  function Exec(r: Regex, text: string, m: State): seq<State>
    requires m.pos <= |text|
    ensures forall n :: n in Exec(r, text, m) ==> m.pos <= n.pos <= |text|
    decreases r, 0
  {
    match r
    case Lit(s) => if Here(text, m.pos, s) then [m.(pos := m.pos + |s|)] else []
    case WordStart =>
      if m.pos < |text| && IsWord(text[m.pos]) && (m.pos == 0 || !IsWord(text[m.pos - 1])) then [m] else []
    case NotAfter(c) => if m.pos > 0 && text[m.pos - 1] == c then [] else [m]
    case TextStart => if m.pos == 0 then [m] else []
    case TextEnd => if m.pos == |text| then [m] else []
    case One(cls) => if m.pos < |text| && cls.Has(text[m.pos]) then [m.(pos := m.pos + 1)] else []
    case Many(cls, min, greedy) =>
      var ends := Tries(m.pos + min, RunEnd(text, cls, m.pos), greedy);
      TriesAreInRange(m.pos + min, RunEnd(text, cls, m.pos), greedy);
      assert forall i :: 0 <= i < |ends| ==> ends[i] in ends;
      seq(|ends|, i requires 0 <= i < |ends| => m.(pos := ends[i]))
    case Cat(a, b) => ExecAll(b, text, m.pos, Exec(a, text, m))
    case Alt(a, b) => Exec(a, text, m) + Exec(b, text, m)
    case Maybe(a) => Exec(a, text, m) + [m]
    case Capture(a) =>
      var ends := Exec(a, text, m);
      seq(|ends|, i requires 0 <= i < |ends| => assert ends[i] in ends; State(ends[i].pos, m.pos, ends[i].pos))
  }

  function ExecAll(r: Regex, text: string, from: nat, ms: seq<State>): seq<State>
    requires forall n :: n in ms ==> from <= n.pos <= |text|
    ensures forall n :: n in ExecAll(r, text, from, ms) ==> from <= n.pos <= |text|
    decreases r, 1, |ms|
  {
    if ms == [] then []
    else assert ms[0] in ms; Exec(r, text, ms[0]) + ExecAll(r, text, from, ms[1..])
  }

  lemma {:induction false} TriesAreInRange(lo: nat, hi: nat, greedy: bool)
    ensures forall e :: e in Tries(lo, hi, greedy) <==> lo <= e <= hi
    decreases hi - lo
  {
    if lo <= hi {
      TriesAreInRange(lo + 1, hi, greedy);
    }
  }

  /** All matches of a global search: leftmost first, each search starting where the last match ended. */
  function MatchAll(r: Regex, text: string, from: nat): (matches: seq<State>)
    requires from <= |text|
    ensures forall n :: n in matches ==> from <= n.pos <= |text|
    decreases |text| - from
  {
    var ms := Exec(r, text, At(from));
    if ms == [] then
      if from == |text| then [] else MatchAll(r, text, from + 1)
    else
      assert ms[0] in ms;
      if ms[0].pos > from then [ms[0]] + MatchAll(r, text, ms[0].pos)
      else if from == |text| then [ms[0]] else [ms[0]] + MatchAll(r, text, from + 1)
  }

  // ----- what a global search finds

  /** No match starts between two positions. */
  predicate Silent(r: Regex, text: string, lo: nat, hi: nat) {
    forall j :: lo <= j < hi && j <= |text| ==> Exec(r, text, At(j)) == []
  }

  /** Where the search goes on after a match; an empty match moves it by one. */
  function Resume(start: nat, m: State): nat {
    if m.pos > start then m.pos else start + 1
  }

  function ResumeAt(from: nat, starts: seq<nat>, ms: seq<State>, k: nat): nat
    requires k <= |starts| == |ms|
  {
    if k == 0 then from else Resume(starts[k - 1], ms[k - 1])
  }

  /** The engine's first choice at the leftmost start from a position on. */
  predicate IsLeftmost(r: Regex, text: string, lo: nat, start: nat, m: State) {
    && lo <= start <= |text| && Silent(r, text, lo, start)
    && Exec(r, text, At(start)) != [] && Exec(r, text, At(start))[0] == m
  }

  predicate IsNext(r: Regex, text: string, from: nat, starts: seq<nat>, ms: seq<State>, k: nat) {
    k < |starts| == |ms| && IsLeftmost(r, text, ResumeAt(from, starts, ms, k), starts[k], ms[k])
  }

  /** Each match is the leftmost behind the match before it, and none is left over. */
  predicate IsGlobalSearch(r: Regex, text: string, from: nat, starts: seq<nat>, ms: seq<State>) {
    && |starts| == |ms|
    && (forall k :: 0 <= k < |ms| ==> IsNext(r, text, from, starts, ms, k))
    && Silent(r, text, ResumeAt(from, starts, ms, |ms|), |text| + 1)
  }

  /** The matches are those of a left-to-right search without overlaps, and no other list is. */
  lemma MatchesAreLeftmost(r: Regex, text: string, from: nat, ms: seq<State>)
    requires from <= |text|
    ensures ms == MatchAll(r, text, from) <==> exists starts :: IsGlobalSearch(r, text, from, starts, ms)
  {
    var found := MatchStarts(r, text, from);
    if exists starts :: IsGlobalSearch(r, text, from, starts, ms) {
      var starts :| IsGlobalSearch(r, text, from, starts, ms);
      SearchIsUnique(r, text, from, starts, ms);
    }
  }

  lemma {:induction false} MatchStarts(r: Regex, text: string, from: nat) returns (starts: seq<nat>)
    requires from <= |text|
    ensures IsGlobalSearch(r, text, from, starts, MatchAll(r, text, from))
    decreases |text| - from
  {
    hide Exec, IsGlobalSearch;
    var here := Exec(r, text, At(from));
    if here == [] {
      starts := [];
      if from < |text| {
        starts := MatchStarts(r, text, from + 1);
        SearchSkips(r, text, from, starts, MatchAll(r, text, from + 1));
      } else {
        NothingLeft(r, text, from);
      }
    } else {
      assert here[0] in here;
      var next := Resume(from, here[0]);
      starts := [];
      if next <= |text| {
        starts := MatchStarts(r, text, next);
      } else {
        NothingLeft(r, text, next);
      }
      var rest := if next <= |text| then MatchAll(r, text, next) else [];
      SearchTakes(r, text, from, starts, rest);
      starts := [from] + starts;
      assert MatchAll(r, text, from) == [here[0]] + rest;
    }
  }

  lemma {:induction false} SearchIsUnique(r: Regex, text: string, from: nat, starts: seq<nat>, ms: seq<State>)
    requires from <= |text| && IsGlobalSearch(r, text, from, starts, ms)
    ensures ms == MatchAll(r, text, from)
    decreases |text| - from
  {
    hide Exec, IsGlobalSearch;
    var here := Exec(r, text, At(from));
    if here == [] {
      SearchSkips(r, text, from, starts, ms);
      if from < |text| {
        SearchIsUnique(r, text, from + 1, starts, ms);
      } else {
        SearchEnds(r, text, from + 1, starts, ms);
      }
    } else {
      assert here[0] in here;
      SearchStarts(r, text, from, starts, ms);
      var next := Resume(from, here[0]);
      assert ms == [here[0]] + ms[1..] && starts == [from] + starts[1..];
      SearchTakes(r, text, from, starts[1..], ms[1..]);
      if next <= |text| {
        SearchIsUnique(r, text, next, starts[1..], ms[1..]);
      } else {
        SearchEnds(r, text, next, starts[1..], ms[1..]);
      }
    }
  }

  lemma NothingLeft(r: Regex, text: string, from: nat)
    requires from > |text| || (from == |text| && Exec(r, text, At(from)) == [])
    ensures IsGlobalSearch(r, text, from, [], [])
  {
    hide Exec;
  }

  lemma SearchEnds(r: Regex, text: string, from: nat, starts: seq<nat>, ms: seq<State>)
    requires from > |text| && IsGlobalSearch(r, text, from, starts, ms)
    ensures ms == []
  {
    hide Exec, Silent;
    assert ms != [] ==> IsNext(r, text, from, starts, ms, 0);
  }

  /** A match at the start is the first. */
  lemma SearchStarts(r: Regex, text: string, from: nat, starts: seq<nat>, ms: seq<State>)
    requires from <= |text| && Exec(r, text, At(from)) != [] && IsGlobalSearch(r, text, from, starts, ms)
    ensures ms != [] && starts != [] && starts[0] == from && ms[0] == Exec(r, text, At(from))[0]
  {
    hide Exec;
    assert ms != [] ==> IsNext(r, text, from, starts, ms, 0);
  }

  /** Where nothing starts, a search is a search from the next position. */
  lemma SearchSkips(r: Regex, text: string, from: nat, starts: seq<nat>, ms: seq<State>)
    requires from <= |text| && Exec(r, text, At(from)) == []
    ensures IsGlobalSearch(r, text, from, starts, ms) <==> IsGlobalSearch(r, text, from + 1, starts, ms)
  {
    hide Exec, IsNext, Silent;
    var next := from + 1;
    SilentSkips(r, text, from, |text| + 1);
    forall k ensures IsNext(r, text, from, starts, ms, k) <==> IsNext(r, text, next, starts, ms, k) {
      NextSkips(r, text, from, starts, ms, k);
    }
    assert IsGlobalSearch(r, text, from, starts, ms) <==> IsGlobalSearch(r, text, next, starts, ms);
  }

  lemma NextSkips(r: Regex, text: string, from: nat, starts: seq<nat>, ms: seq<State>, k: nat)
    requires from <= |text| && Exec(r, text, At(from)) == []
    ensures IsNext(r, text, from, starts, ms, k) <==> IsNext(r, text, from + 1, starts, ms, k)
  {
    hide Exec, Silent;
    if k < |starts| == |ms| {
      SilentSkips(r, text, from, starts[k]);
    }
  }

  lemma SilentSkips(r: Regex, text: string, from: nat, hi: nat)
    requires from <= |text| && Exec(r, text, At(from)) == []
    ensures Silent(r, text, from, hi) <==> Silent(r, text, from + 1, hi)
  {
    hide Exec;
  }

  /** A match at the start, and a search behind it, make a search; and conversely. */
  lemma SearchTakes(r: Regex, text: string, from: nat, starts: seq<nat>, ms: seq<State>)
    requires from <= |text| && Exec(r, text, At(from)) != []
    ensures var m := Exec(r, text, At(from))[0];
            IsGlobalSearch(r, text, from, [from] + starts, [m] + ms) <==>
            IsGlobalSearch(r, text, Resume(from, m), starts, ms)
  {
    hide Exec, IsLeftmost, Silent, Resume, IsNext;
    var m := Exec(r, text, At(from))[0];
    var ss, mm, next := [from] + starts, [m] + ms, Resume(from, m);
    if |starts| == |ms| {
      assert IsNext(r, text, from, ss, mm, 0) by { FirstIsNext(r, text, from, starts, ms); }
      forall k | 0 <= k < |ms| ensures IsNext(r, text, from, ss, mm, k + 1) <==> IsNext(r, text, next, starts, ms, k) {
        NextMoves(r, text, from, m, starts, ms, k);
      }
      if IsGlobalSearch(r, text, from, ss, mm) {
        forall k | 0 <= k < |ms| ensures IsNext(r, text, next, starts, ms, k) {
          assert IsNext(r, text, from, ss, mm, k + 1);
        }
      }
      if IsGlobalSearch(r, text, next, starts, ms) {
        forall k | 0 <= k < |mm| ensures IsNext(r, text, from, ss, mm, k) {
          assert k > 0 ==> IsNext(r, text, next, starts, ms, k - 1);
        }
      }
    }
  }

  lemma NextMoves(r: Regex, text: string, from: nat, m: State, starts: seq<nat>, ms: seq<State>, k: nat)
    requires k < |starts| == |ms|
    ensures IsNext(r, text, from, [from] + starts, [m] + ms, k + 1) <==> IsNext(r, text, Resume(from, m), starts, ms, k)
  {
    hide IsLeftmost, Resume;
    assert ResumeAt(from, [from] + starts, [m] + ms, k + 1) == ResumeAt(Resume(from, m), starts, ms, k);
  }

  lemma FirstIsNext(r: Regex, text: string, from: nat, starts: seq<nat>, ms: seq<State>)
    requires from <= |text| && Exec(r, text, At(from)) != [] && |starts| == |ms|
    ensures IsNext(r, text, from, [from] + starts, [Exec(r, text, At(from))[0]] + ms, 0)
  {
    hide IsLeftmost, Exec;
    MatchIsHere(r, text, from);
  }

  lemma MatchIsHere(r: Regex, text: string, at: nat)
    requires at <= |text| && Exec(r, text, At(at)) != []
    ensures IsLeftmost(r, text, at, at, Exec(r, text, At(at))[0])
  {
    hide Exec;
  }

  // ----- which end states there are, whatever their order

  /** What a backtracking engine can reach: the states of each construct without their order. */
  predicate Reaches(r: Regex, text: string, m: State, n: State)
    requires m.pos <= |text|
  {
    n in Exec(r, text, m)
  }

  lemma {:induction false} ReachesAll(r: Regex, text: string, from: nat, ms: seq<State>, n: State)
    requires forall k :: k in ms ==> from <= k.pos <= |text|
    ensures n in ExecAll(r, text, from, ms) <==> exists k :: k in ms && Reaches(r, text, k, n)
    decreases |ms|
  {
    if ms != [] {
      assert ms == [ms[0]] + ms[1..];
      assert ms[0] in ms;
      ReachesAll(r, text, from, ms[1..], n);
      if n in Exec(r, text, ms[0]) {
        assert Reaches(r, text, ms[0], n);
      }
    }
  }

  lemma ReachesCat(a: Regex, b: Regex, text: string, m: State, n: State)
    requires m.pos <= |text|
    ensures Reaches(Cat(a, b), text, m, n) <==>
              exists k :: Reaches(a, text, m, k) && k.pos <= |text| && Reaches(b, text, k, n)
  {
    ReachesAll(b, text, m.pos, Exec(a, text, m), n);
    assert Exec(Cat(a, b), text, m) == ExecAll(b, text, m.pos, Exec(a, text, m));
    hide Exec, ExecAll;
    if exists k :: Reaches(a, text, m, k) && k.pos <= |text| && Reaches(b, text, k, n) {
      var k :| Reaches(a, text, m, k) && k.pos <= |text| && Reaches(b, text, k, n);
      assert k in Exec(a, text, m) && Reaches(b, text, k, n);
    }
  }

  lemma ReachesMany(cls: Class, min: nat, greedy: bool, text: string, m: State, n: State)
    requires m.pos <= |text|
    ensures Reaches(Many(cls, min, greedy), text, m, n) <==>
            n == m.(pos := n.pos) && m.pos + min <= n.pos <= |text|
            && forall i :: m.pos <= i < n.pos ==> cls.Has(text[i])
  {
    var end := RunEnd(text, cls, m.pos);
    var ends := Tries(m.pos + min, end, greedy);
    TriesAreInRange(m.pos + min, end, greedy);
    if n.pos in ends {
      var i :| 0 <= i < |ends| && ends[i] == n.pos;
      assert Exec(Many(cls, min, greedy), text, m)[i] == m.(pos := n.pos);
    }
    if m.pos + min <= n.pos <= |text| && n.pos > end {
      assert !cls.Has(text[end]);
    }
  }

  lemma ReachesCapture(a: Regex, text: string, m: State, n: State)
    requires m.pos <= |text|
    ensures Reaches(Capture(a), text, m, n) <==>
            n == State(n.pos, m.pos, n.pos) && exists k :: Reaches(a, text, m, k) && k.pos == n.pos
  {
    var ends := Exec(a, text, m);
    if exists k :: Reaches(a, text, m, k) && k.pos == n.pos {
      var k :| Reaches(a, text, m, k) && k.pos == n.pos;
      var i :| 0 <= i < |ends| && ends[i] == k;
      assert Exec(Capture(a), text, m)[i] == State(n.pos, m.pos, n.pos);
    }
    if Reaches(Capture(a), text, m, n) {
      var i :| 0 <= i < |ends| && Exec(Capture(a), text, m)[i] == n;
      assert Reaches(a, text, m, ends[i]);
    }
  }
}
