/** What is assumed of the platform can be met: a serialisation that reads back, and a digest without collisions. */
module Assumptions {
  import opened Base
  import opened Json
  import opened LineEndings

  // A prefix code over a few letters: every code ends where it ends, whatever follows.

  function CodeNat(n: nat): string {
    if n == 0 then "b" else "a" + CodeNat(n - 1)
  }

  function CodeInt(n: int): string {
    if n < 0 then "-" + CodeNat(-n) else "+" + CodeNat(n)
  }

  function CodeText(s: string): string {
    if s == "" then "." else ":" + (CodeNat(s[0] as nat) + CodeText(s[1..]))
  }

  function Code(j: Json): string
    decreases j, 1
  {
    match j
    case Null => "0"
    case Bool(b) => if b then "1" else "2"
    case Int(n) => "3" + CodeInt(n)
    case Float(l) => "4" + CodeText(l)
    case Str(s) => "5" + CodeText(s)
    case Arr(items) => "6" + CodeItems(items)
    case Obj(fields) => "7" + CodeFields(fields)
  }

  function CodeItems(items: seq<Json>): string
    decreases items, 0
  {
    if items == [] then "." else ":" + (Code(items[0]) + CodeItems(items[1..]))
  }

  function CodeFields(fields: seq<Field>): string
    decreases fields, 0
  {
    if fields == [] then "." else ":" + (CodeText(fields[0].key) + (Code(fields[0].value) + CodeFields(fields[1..])))
  }

  /** Two texts that start alike continue alike. */
  lemma Strip(c: string, a: string, b: string, x: string, y: string)
    requires (c + a) + x == (c + b) + y
    ensures a + x == b + y
  {
    assert (c + a) + x == c + (a + x) && (c + b) + y == c + (b + y);
    assert (c + (a + x))[|c|..] == a + x && (c + (b + y))[|c|..] == b + y;
  }

  lemma LetterDecodes(c: string, x: string, y: string)
    requires |c| == 1 && c + x == c + y
    ensures x == y
  {
    assert (c + x)[1..] == x && (c + y)[1..] == y;
  }

  lemma Regroup(a: string, b: string, x: string)
    ensures (a + b) + x == a + (b + x)
  {
  }

  lemma {:induction false} NatDecodes(m: nat, n: nat, x: string, y: string)
    requires CodeNat(m) + x == CodeNat(n) + y
    ensures m == n && x == y
  {
    assert (CodeNat(m) + x)[0] == CodeNat(m)[0] && (CodeNat(n) + y)[0] == CodeNat(n)[0];
    if m > 0 && n > 0 {
      Strip("a", CodeNat(m - 1), CodeNat(n - 1), x, y);
      NatDecodes(m - 1, n - 1, x, y);
    } else if m == 0 && n == 0 {
      LetterDecodes("b", x, y);
    }
  }

  lemma IntDecodes(m: int, n: int, x: string, y: string)
    requires CodeInt(m) + x == CodeInt(n) + y
    ensures m == n && x == y
  {
    assert (CodeInt(m) + x)[0] == CodeInt(m)[0] && (CodeInt(n) + y)[0] == CodeInt(n)[0];
    if m < 0 && n < 0 {
      Strip("-", CodeNat(-m), CodeNat(-n), x, y);
      NatDecodes(-m, -n, x, y);
    } else if m >= 0 && n >= 0 {
      Strip("+", CodeNat(m), CodeNat(n), x, y);
      NatDecodes(m, n, x, y);
    }
  }

  lemma {:induction false} TextDecodes(s: string, t: string, x: string, y: string)
    requires CodeText(s) + x == CodeText(t) + y
    ensures s == t && x == y
  {
    hide CodeNat;
    assert (CodeText(s) + x)[0] == CodeText(s)[0] && (CodeText(t) + y)[0] == CodeText(t)[0];
    if s != "" && t != "" {
      var a, b, c, d := CodeNat(s[0] as nat), CodeText(s[1..]), CodeNat(t[0] as nat), CodeText(t[1..]);
      Strip(":", a + b, c + d, x, y);
      Regroup(a, b, x);
      Regroup(c, d, y);
      NatDecodes(s[0] as nat, t[0] as nat, b + x, d + y);
      TextDecodes(s[1..], t[1..], x, y);
      assert s == [s[0]] + s[1..] && t == [t[0]] + t[1..];
    } else if s == "" && t == "" {
      LetterDecodes(".", x, y);
    }
  }

  lemma {:induction false} Decodes(j: Json, k: Json, x: string, y: string)
    requires Code(j) + x == Code(k) + y
    ensures j == k && x == y
    decreases j, 1
  {
    hide CodeText, CodeInt, CodeItems, CodeFields;
    assert (Code(j) + x)[0] == Code(j)[0] && (Code(k) + y)[0] == Code(k)[0];
    match (j, k)
    case (Null, Null) => LetterDecodes("0", x, y);
    case (Bool(b), Bool(c)) =>
      if b == c {
        LetterDecodes(if b then "1" else "2", x, y);
      }
    case (Int(m), Int(n)) =>
      Strip("3", CodeInt(m), CodeInt(n), x, y);
      IntDecodes(m, n, x, y);
    case (Float(l), Float(r)) =>
      Strip("4", CodeText(l), CodeText(r), x, y);
      TextDecodes(l, r, x, y);
    case (Str(l), Str(r)) =>
      Strip("5", CodeText(l), CodeText(r), x, y);
      TextDecodes(l, r, x, y);
    case (Arr(l), Arr(r)) =>
      Strip("6", CodeItems(l), CodeItems(r), x, y);
      ItemsDecode(l, r, x, y);
    case (Obj(l), Obj(r)) =>
      Strip("7", CodeFields(l), CodeFields(r), x, y);
      FieldsDecode(l, r, x, y);
    case _ =>
  }

  lemma {:induction false} ItemsDecode(a: seq<Json>, b: seq<Json>, x: string, y: string)
    requires CodeItems(a) + x == CodeItems(b) + y
    ensures a == b && x == y
    decreases a, 0
  {
    hide Code;
    assert (CodeItems(a) + x)[0] == CodeItems(a)[0] && (CodeItems(b) + y)[0] == CodeItems(b)[0];
    if a != [] && b != [] {
      Strip(":", Code(a[0]) + CodeItems(a[1..]), Code(b[0]) + CodeItems(b[1..]), x, y);
      Regroup(Code(a[0]), CodeItems(a[1..]), x);
      Regroup(Code(b[0]), CodeItems(b[1..]), y);
      Decodes(a[0], b[0], CodeItems(a[1..]) + x, CodeItems(b[1..]) + y);
      ItemsDecode(a[1..], b[1..], x, y);
      assert a == [a[0]] + a[1..] && b == [b[0]] + b[1..];
    } else if a == [] && b == [] {
      LetterDecodes(".", x, y);
    }
  }

  lemma {:induction false} FieldsDecode(a: seq<Field>, b: seq<Field>, x: string, y: string)
    requires CodeFields(a) + x == CodeFields(b) + y
    ensures a == b && x == y
    decreases a, 0
  {
    hide Code, CodeText;
    assert (CodeFields(a) + x)[0] == CodeFields(a)[0] && (CodeFields(b) + y)[0] == CodeFields(b)[0];
    if a != [] && b != [] {
      var c, d := Code(a[0].value) + CodeFields(a[1..]), Code(b[0].value) + CodeFields(b[1..]);
      Strip(":", CodeText(a[0].key) + c, CodeText(b[0].key) + d, x, y);
      Regroup(CodeText(a[0].key), c, x);
      Regroup(CodeText(b[0].key), d, y);
      TextDecodes(a[0].key, b[0].key, c + x, d + y);
      Regroup(Code(a[0].value), CodeFields(a[1..]), x);
      Regroup(Code(b[0].value), CodeFields(b[1..]), y);
      Decodes(a[0].value, b[0].value, CodeFields(a[1..]) + x, CodeFields(b[1..]) + y);
      FieldsDecode(a[1..], b[1..], x, y);
      assert a == [a[0]] + a[1..] && b == [b[0]] + b[1..];
    } else if a == [] && b == [] {
      LetterDecodes(".", x, y);
    }
  }

  lemma {:induction false} NatHasNoCr(n: nat)
    ensures '\r' !in CodeNat(n)
  {
    if n > 0 {
      NatHasNoCr(n - 1);
    }
  }

  lemma {:induction false} TextHasNoCr(s: string)
    ensures '\r' !in CodeText(s)
  {
    if s != "" {
      NatHasNoCr(s[0] as nat);
      TextHasNoCr(s[1..]);
    }
  }

  lemma {:induction false} CodeHasNoCr(j: Json)
    ensures '\r' !in Code(j)
    decreases j, 1
  {
    hide CodeNat, CodeText;
    match j
    case Int(n) => NatHasNoCr(if n < 0 then -n else n);
    case Float(l) => TextHasNoCr(l);
    case Str(s) => TextHasNoCr(s);
    case Arr(items) => ItemsHaveNoCr(items);
    case Obj(fields) => FieldsHaveNoCr(fields);
    case _ =>
  }

  lemma {:induction false} ItemsHaveNoCr(items: seq<Json>)
    ensures '\r' !in CodeItems(items)
    decreases items, 0
  {
    if items != [] {
      CodeHasNoCr(items[0]);
      ItemsHaveNoCr(items[1..]);
    }
  }

  lemma {:induction false} FieldsHaveNoCr(fields: seq<Field>)
    ensures '\r' !in CodeFields(fields)
    decreases fields, 0
  {
    if fields != [] {
      TextHasNoCr(fields[0].key);
      CodeHasNoCr(fields[0].value);
      FieldsHaveNoCr(fields[1..]);
    }
  }

  // ----- a platform over this code: values are written as they print, and read as what is written

  /** How a number that is no safe integer reads back: minus zero as zero, infinities as null. */
  function ReadBack(l: string): Json {
    if l == NEGATIVE_ZERO then Int(0) else if l in {"Infinity", "-Infinity"} then Null else Float(l)
  }

  predicate Codes(text: string, j: Json) {
    WellFormed(j) && Code(j) == Normalize(text)
  }

  ghost function Decode(text: string): Option<Json> {
    if exists j :: Codes(text, j) then
      var j :| Codes(text, j);
      Some(j)
    else None
  }

  lemma DecodeMeans(text: string)
    ensures Decode(text).Some? <==> exists j :: Codes(text, j)
    ensures Decode(text).Some? ==> Codes(text, Decode(text).value)
  {
    hide Codes;
  }

  lemma CodesAreUnique(text: string, j: Json, k: Json)
    requires Codes(text, j) && Codes(text, k)
    ensures j == k
  {
    hide Code, WellFormed, Normalize;
    assert Code(j) + "" == Code(k) + "";
    Decodes(j, k, "", "");
  }

  lemma DecodeIsInverse(j: Json)
    requires WellFormed(j)
    ensures Decode(Code(j)) == Some(j) && '\r' !in Code(j)
  {
    hide Code, WellFormed;
    CodeHasNoCr(j);
    NormalizeFixedPoints(Code(j));
    assert Codes(Code(j), j);
    DecodeMeans(Code(j));
    hide Codes, Decode;
    CodesAreUnique(Code(j), j, Decode(Code(j)).value);
  }

  lemma DecodeForgetsBreaks(text: string)
    ensures Decode(Normalize(text)) == Decode(text)
  {
    hide Code, WellFormed, Normalize;
    NormalizeFixedPoints(text);
    assert forall j :: Codes(Normalize(text), j) <==> Codes(text, j);
    DecodeMeans(text);
    DecodeMeans(Normalize(text));
    hide Codes, Decode;
    if Decode(text).Some? {
      CodesAreUnique(text, Decode(text).value, Decode(Normalize(text)).value);
    }
  }

  lemma DecodedIsWellFormed(t: string)
    ensures Decode(t).Some? ==> WellFormed(Decode(t).value)
  {
    hide Code, WellFormed, Normalize, Decode;
    DecodeMeans(t);
  }

  ghost predicate ReadsBack(p: Platform) {
    forall l :: p.stored(l) == ReadBack(l)
  }

  /** What has been printed prints as itself and can be parsed. */
  lemma {:induction false} StoredOnce(p: Platform, j: Json)
    requires ReadsBack(p)
    ensures p.Stored(p.Stored(j)) == p.Stored(j)
    ensures WellFormed(j) ==> WellFormed(p.Stored(j))
    decreases j
  {
    hide IsIndexKey, IndexBefore;
    match j
    case Float(l) => assert p.stored(l) == ReadBack(l) && p.stored(NEGATIVE_ZERO) == Int(0);
    case Arr(items) =>
      forall i | 0 <= i < |items|
        ensures p.Stored(p.Stored(items[i])) == p.Stored(items[i])
        ensures WellFormed(items[i]) ==> WellFormed(p.Stored(items[i]))
      {
        StoredOnce(p, items[i]);
      }
    case Obj(fields) =>
      forall i | 0 <= i < |fields|
        ensures p.Stored(p.Stored(fields[i].value)) == p.Stored(fields[i].value)
        ensures WellFormed(fields[i].value) ==> WellFormed(p.Stored(fields[i].value))
      {
        StoredOnce(p, fields[i].value);
      }
    case _ =>
  }

  /** A platform that reads and writes this code. */
  ghost predicate IsCoded(p: Platform) {
    && ReadsBack(p) && (forall t :: p.digest(t) == t) && (forall t :: p.parse(t) == Decode(t))
    && (forall j {:trigger p.render(j)} :: p.render(j) == Code(p.Stored(j)))
  }

  /** Such a platform exists. */
  lemma CodedPlatform() returns (p: Platform)
    ensures IsCoded(p)
  {
    hide Code, Decode;
    var blank := Platform(t => t, t => None, j => "", l => ReadBack(l), j => None);
    p := Platform(t => t, t => Decode(t), j => Code(blank.Stored(j)), l => ReadBack(l), j => None);
    forall j ensures p.render(j) == Code(p.Stored(j)) {
      SameStored(blank, p, j);
    }
  }

  lemma {:induction false} SameStored(p: Platform, q: Platform, j: Json)
    requires ReadsBack(p) && ReadsBack(q)
    ensures p.Stored(j) == q.Stored(j)
    decreases j
  {
    match j
    case Float(l) => assert p.stored(l) == ReadBack(l) == q.stored(l);
    case Arr(items) =>
      forall i | 0 <= i < |items| ensures p.Stored(items[i]) == q.Stored(items[i]) {
        SameStored(p, q, items[i]);
      }
    case Obj(fields) =>
      forall i | 0 <= i < |fields| ensures p.Stored(fields[i].value) == q.Stored(fields[i].value) {
        SameStored(p, q, fields[i].value);
      }
    case _ =>
  }

  /**
   * The assumptions about the JSON library are consistent, also with a digest under which no two
   * texts clash, and with texts that hold a minus zero.
   */
  lemma CodedIsFaithful(p: Platform)
    requires IsCoded(p)
    ensures p.Faithful() && forall a, b :: !p.Clash(a, b)
    ensures forall j :: WellFormed(j) ==> p.parse(Code(j)) == Some(j) && '\r' !in Code(j)
  {
    hide Code, WellFormed, Normalize, Decode;
    forall l ensures p.stored(l) == Float(l) || p.stored(l) == if l == NEGATIVE_ZERO then Int(0) else Null {
      assert p.stored(l) == ReadBack(l);
    }
    assert p.stored(NEGATIVE_ZERO) == Int(0);
    forall j | WellFormed(j)
      ensures p.parse(p.render(j)) == Some(p.Stored(j)) && '\r' !in p.render(j) && p.render(p.Stored(j)) == p.render(j)
      ensures p.parse(Code(j)) == Some(j) && '\r' !in Code(j)
    {
      StoredOnce(p, j);
      DecodeIsInverse(p.Stored(j));
      DecodeIsInverse(j);
    }
    forall t ensures p.parse(t).Some? ==> WellFormed(p.parse(t).value) {
      DecodedIsWellFormed(t);
    }
    forall t ensures p.parse(Normalize(t)) == p.parse(t) {
      DecodeForgetsBreaks(t);
    }
  }
}
