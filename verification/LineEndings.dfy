/**
 * The line-ending normalisation every tool applies before it hashes a text:
 * each CRLF or lone CR becomes one LF, scanning from the left.
 */
module LineEndings {
  function Normalize(text: string): string {
    if text == "" then ""
    else if text[0] == '\r' then
      "\n" + Normalize(if |text| > 1 && text[1] == '\n' then text[2..] else text[1..])
    else
      [text[0]] + Normalize(text[1..])
  }

  /** Nothing is left to normalise, and texts without CR are fixed points. */
  lemma {:induction false} NormalizeFixedPoints(text: string)
    ensures '\r' !in Normalize(text)
    ensures Normalize(text) == text <==> '\r' !in text
    ensures Normalize(Normalize(text)) == Normalize(text)
    decreases |text|
  {
    NormalizeRemovesCr(text);
    NormalizeKeepsLf(Normalize(text));
    if '\r' !in text {
      NormalizeKeepsLf(text);
    }
  }

  lemma {:induction false} NormalizeRemovesCr(text: string)
    ensures '\r' !in Normalize(text)
    decreases |text|
  {
    if text == "" {
    } else if text[0] == '\r' {
      NormalizeRemovesCr(if |text| > 1 && text[1] == '\n' then text[2..] else text[1..]);
    } else {
      NormalizeRemovesCr(text[1..]);
    }
  }

  lemma {:induction false} NormalizeKeepsLf(text: string)
    requires '\r' !in text
    ensures Normalize(text) == text
    decreases |text|
  {
    if text != "" {
      assert text[0] in text;
      NormalizeKeepsLf(text[1..]);
    }
  }

  predicate SplitsCrLf(a: string, b: string) {
    a != "" && b != "" && a[|a| - 1] == '\r' && b[0] == '\n'
  }

  /** Chunks can be normalised separately exactly when the cut is not inside a CRLF. */
  lemma NormalizeConcat(a: string, b: string)
    ensures Normalize(a + b) == Normalize(a) + Normalize(b) <==> !SplitsCrLf(a, b)
  {
    if SplitsCrLf(a, b) {
      NormalizeConcatInside(a, b);
      assert Normalize(b) == [b[0]] + Normalize(b[1..]);
      assert |Normalize(a) + Normalize(b)| == |Normalize(a + b)| + 1;
    } else {
      NormalizeConcatApart(a, b);
    }
  }

  lemma {:induction false} NormalizeConcatApart(a: string, b: string)
    requires !SplitsCrLf(a, b)
    ensures Normalize(a + b) == Normalize(a) + Normalize(b)
    decreases |a|
  {
    if a == "" {
      assert a + b == b;
    } else {
      var k := if a[0] == '\r' && |a| > 1 && a[1] == '\n' then 2 else 1;
      assert (a + b)[k..] == a[k..] + b;
      NormalizeConcatApart(a[k..], b);
    }
  }

  lemma {:induction false} NormalizeConcatInside(a: string, b: string)
    requires SplitsCrLf(a, b)
    ensures Normalize(a + b) == Normalize(a) + Normalize(b[1..])
    decreases |a|
  {
    if |a| == 1 {
      assert (a + b)[2..] == b[1..];
      assert Normalize(a[1..]) == "";
    } else {
      var k := if a[0] == '\r' && a[1] == '\n' then 2 else 1;
      var head := if a[0] == '\r' then "\n" else [a[0]];
      NormalizeConcatInside(a[k..], b);
      calc {
        Normalize(a + b);
        { assert (a + b)[k..] == a[k..] + b; }
        head + Normalize(a[k..] + b);
        head + (Normalize(a[k..]) + Normalize(b[1..]));
        (head + Normalize(a[k..])) + Normalize(b[1..]);
        Normalize(a) + Normalize(b[1..]);
      }
    }
  }

  datatype Break = Lf | CrLf | Cr {
    function Text(): string {
      match this
      case Lf => "\n"
      case CrLf => "\r\n"
      case Cr => "\r"
    }
  }

  predicate IsLine(s: string) {
    '\r' !in s && '\n' !in s
  }

  /** The text of some lines, each with the break that a checkout put behind it. */
  function Encode(lines: seq<(string, Break)>): string {
    if lines == [] then "" else lines[0].0 + lines[0].1.Text() + Encode(lines[1..])
  }

  function AllLf(lines: seq<(string, Break)>): seq<(string, Break)> {
    seq(|lines|, i requires 0 <= i < |lines| => (lines[i].0, Lf))
  }

  /** Somewhere a lone CR is followed by an empty LF-terminated line, which reads as one CRLF. */
  predicate BreaksMerge(lines: seq<(string, Break)>) {
    |lines| > 1 && ((lines[0].1 == Cr && lines[1] == ("", Lf)) || BreaksMerge(lines[1..]))
  }

  /**
   * Two checkouts of the same lines normalise to the same text whatever breaks they use,
   * except exactly where mixed breaks make a CR and the next LF look like one break.
   * The last line need not have a break.
   */
  lemma NormalizeUndoesCheckout(lines: seq<(string, Break)>, last: string)
    requires IsLine(last) && forall i :: 0 <= i < |lines| ==> IsLine(lines[i].0)
    ensures Normalize(Encode(lines) + last) == Encode(AllLf(lines)) + last <==> !BreaksMerge(lines)
  {
    assert last != "" ==> last[0] in last;
    NormalizeConcatApart(Encode(lines), last);
    NormalizeKeepsLf(last);
    BrokenLines(lines);
    var a, b := Normalize(Encode(lines)), Encode(AllLf(lines));
    assert a + last == b + last ==> |a| == |b| && (a + last)[..|a|] == (b + last)[..|b|];
  }

  lemma {:induction false} BrokenLines(lines: seq<(string, Break)>)
    requires forall i :: 0 <= i < |lines| ==> IsLine(lines[i].0)
    ensures Normalize(Encode(lines)) == Encode(AllLf(lines)) <==> !BreaksMerge(lines)
    ensures |Normalize(Encode(lines))| <= |Encode(AllLf(lines))|
    decreases |lines|
  {
    if lines != [] {
      var (line, br) := lines[0];
      var rest := lines[1..];
      BrokenLines(rest);
      NormalizeBreakHead(br, rest);
      EncodeHead(lines);
      var tail := Normalize(br.Text() + Encode(rest));
      if br == Cr && rest != [] && rest[0] == ("", Lf) {
        assert |Normalize(Encode(lines))| < |Encode(AllLf(lines))|;
      } else {
        assert tail[1..] == Normalize(Encode(rest));
        LineCancels(line, tail, "\n" + Encode(AllLf(rest)));
        assert ("\n" + Encode(AllLf(rest)))[1..] == Encode(AllLf(rest));
      }
    }
  }

  /** For instance, a line ended by CR and an empty line ended by LF normalise to one line break, not two. */
  lemma MixedBreaksDiffer()
    ensures Normalize(Encode([("a", Cr), ("", Lf)])) == "a\n"
    ensures Normalize(Encode([("a", Lf), ("", Lf)])) == "a\n\n"
  {
    assert Encode([("a", Cr), ("", Lf)]) == "a\r\n";
    assert Encode([("a", Lf), ("", Lf)]) == "a\n\n";
  }

  lemma EncodeHead(lines: seq<(string, Break)>)
    requires lines != [] && IsLine(lines[0].0)
    ensures Normalize(Encode(lines)) == lines[0].0 + Normalize(lines[0].1.Text() + Encode(lines[1..]))
    ensures Encode(AllLf(lines)) == lines[0].0 + ("\n" + Encode(AllLf(lines[1..])))
  {
    var (line, br) := lines[0];
    assert Encode(lines) == line + (br.Text() + Encode(lines[1..]));
    NormalizeLineHead(line, br.Text() + Encode(lines[1..]));
    assert AllLf(lines)[1..] == AllLf(lines[1..]);
    assert line + "\n" + Encode(AllLf(lines[1..])) == line + ("\n" + Encode(AllLf(lines[1..])));
  }

  lemma LineCancels(line: string, a: string, b: string)
    ensures line + a == line + b <==> a == b
  {
    assert (line + a)[|line|..] == a && (line + b)[|line|..] == b;
  }

  lemma {:induction false} NormalizeLineHead(line: string, rest: string)
    requires IsLine(line)
    ensures Normalize(line + rest) == line + Normalize(rest)
  {
    NormalizeConcatApart(line, rest);
    NormalizeKeepsLf(line);
  }

  lemma NormalizeBreakHead(br: Break, rest: seq<(string, Break)>)
    requires forall i :: 0 <= i < |rest| ==> IsLine(rest[i].0)
    requires |Normalize(Encode(rest))| <= |Encode(AllLf(rest))|
    ensures br == Cr && rest != [] && rest[0] == ("", Lf) ==>
              |Normalize(br.Text() + Encode(rest))| <= |Encode(AllLf(rest))|
    ensures !(br == Cr && rest != [] && rest[0] == ("", Lf)) ==>
              Normalize(br.Text() + Encode(rest)) == "\n" + Normalize(Encode(rest))
  {
    var body := Encode(rest);
    var text := br.Text() + body;
    match br {
      case Lf =>
        assert text[1..] == body;
      case CrLf =>
        assert text[2..] == body;
      case Cr =>
        assert text[1..] == body;
        if rest != [] {
          if rest[0] == ("", Lf) {
            assert body == "\n" + Encode(rest[1..]);
            assert text[2..] == body[1..];
            assert Normalize(body) == "\n" + Normalize(body[1..]);
            assert Normalize(text) == "\n" + Normalize(body[1..]);
          } else if rest[0].0 == "" {
            assert body[0] == '\r';
          } else {
            assert body[0] == rest[0].0[0];
            assert rest[0].0[0] in rest[0].0;
          }
        }
    }
  }
}
