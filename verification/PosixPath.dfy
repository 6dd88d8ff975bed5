/**
 * POSIX path strings and their segments: splitting, the stack walk behind `normalize`, and the
 * library operations the checkers use, in the documented meaning of Node's `path.posix`.
 */
module PosixPath {

  function FirstSlash(s: string): (i: nat)
    ensures i <= |s| && (i < |s| ==> s[i] == '/')
    ensures forall j :: 0 <= j < i ==> s[j] != '/'
  {
    if s == "" then 0 else if s[0] == '/' then 0 else 1 + FirstSlash(s[1..])
  }

  /** The pieces between slashes, empty ones included. */
  function Split(s: string): (segments: seq<string>)
    ensures segments != []
    decreases |s|
  {
    var i := FirstSlash(s);
    if i == |s| then [s] else [s[..i]] + Split(s[i + 1..])
  }

  function Join(segments: seq<string>): string {
    if segments == [] then "" else if |segments| == 1 then segments[0] else segments[0] + "/" + Join(segments[1..])
  }

  function NonEmpty(segments: seq<string>): seq<string> {
    if segments == [] then []
    else (if segments[0] == "" then [] else [segments[0]]) + NonEmpty(segments[1..])
  }

  /** The non-empty segments of a path. */
  function Parts(s: string): seq<string> {
    NonEmpty(Split(s))
  }

  predicate IsAbsolute(s: string) {
    s != "" && s[0] == '/'
  }

  /** One segment of a walk: `.` stays, `..` pops, and above a root there is nothing to pop. */
  function Push(stack: seq<string>, part: string, rooted: bool): seq<string> {
    if part == "." then stack
    else if part == ".." then
      if stack != [] && stack[|stack| - 1] != ".." then stack[..|stack| - 1]
      else if rooted then stack
      else stack + [".."]
    else stack + [part]
  }

  function Walk(stack: seq<string>, parts: seq<string>, rooted: bool): seq<string>
    decreases |parts|
  {
    if parts == [] then stack else Walk(Push(stack, parts[0], rooted), parts[1..], rooted)
  }

  function Normalize(path: string): string {
    if path == "" then "." else
    var rooted := IsAbsolute(path);
    var body := Join(Walk([], Parts(path), rooted));
    var tail := if path[|path| - 1] == '/' then "/" else "";
    if rooted then "/" + body + (if body == "" then "" else tail)
    else if body == "" then "." + tail
    else body + tail
  }

  function JoinPaths(a: string, b: string): string {
    if a == "" then Normalize(b) else if b == "" then Normalize(a) else Normalize(a + "/" + b)
  }

  function TrimSlashes(s: string): (r: string)
    ensures |r| <= |s| && r == s[..|r|] && (r != "" ==> r[|r| - 1] != '/')
    ensures forall j :: |r| <= j < |s| ==> s[j] == '/'
  {
    if s != "" && s[|s| - 1] == '/' then TrimSlashes(s[..|s| - 1]) else s
  }

  /** The position after the last slash. */
  function AfterLastSlash(s: string): (i: nat)
    ensures i <= |s| && (i > 0 ==> s[i - 1] == '/')
    ensures forall j :: i <= j < |s| ==> s[j] != '/'
  {
    if s == "" || s[|s| - 1] == '/' then |s| else AfterLastSlash(s[..|s| - 1])
  }

  function Basename(path: string): string {
    var trimmed := TrimSlashes(path);
    trimmed[AfterLastSlash(trimmed)..]
  }

  /** The directory of a rooted path: everything before the last segment, slashes in between included. */
  function Dirname(path: string): string
    requires IsAbsolute(path)
  {
    var trimmed := TrimSlashes(path);
    var i := AfterLastSlash(trimmed);
    if i <= 1 then "/" else if i == 2 then "//" else trimmed[..i - 1]
  }

  function LastDot(s: string): (i: nat)
    ensures i <= |s| && (i < |s| ==> s[i] == '.')
    ensures i < |s| ==> forall j :: i < j < |s| ==> s[j] != '.'
    ensures i == |s| ==> '.' !in s
  {
    if s == "" then 0
    else if s[|s| - 1] == '.' then |s| - 1
    else
      var i := LastDot(s[..|s| - 1]);
      assert s == s[..|s| - 1] + [s[|s| - 1]];
      if i == |s| - 1 then |s| else i
  }

  /** The extension of a basename: from its last dot, unless that dot starts it or the name is `..`. */
  function ExtensionOf(name: string): string {
    var i := LastDot(name);
    if i == |name| || i == 0 || name == ".." then "" else name[i..]
  }

  function Extname(path: string): string {
    ExtensionOf(Basename(path))
  }

  /** Resolution of a target against an absolute directory. */
  function Resolve(directory: string, target: string): string {
    "/" + Join(Walk([], if IsAbsolute(target) then Parts(target) else Parts(directory) + Parts(target), true))
  }

  function CommonPrefix(a: seq<string>, b: seq<string>): (n: nat)
    ensures n <= |a| && n <= |b| && a[..n] == b[..n]
    ensures n < |a| && n < |b| ==> a[n] != b[n]
  {
    if a == [] || b == [] || a[0] != b[0] then 0
    else
      var n := CommonPrefix(a[1..], b[1..]);
      assert a[..n + 1] == [a[0]] + a[1..][..n] && b[..n + 1] == [b[0]] + b[1..][..n];
      n + 1
  }

  function Ups(n: nat): seq<string> {
    seq(n, _ => "..")
  }

  /** The relative path between two absolute normal paths. */
  function Relative(from: string, to: string): string {
    var a, b := Parts(from), Parts(to);
    var n := CommonPrefix(a, b);
    Join(Ups(|a| - n) + b[n..])
  }

  // ----- strings and segments

  predicate IsSegment(s: string) {
    s != "" && '/' !in s
  }

  predicate AllSegments(segments: seq<string>) {
    forall i :: 0 <= i < |segments| ==> IsSegment(segments[i])
  }

  predicate IsPlain(s: string) {
    IsSegment(s) && s != "." && s != ".."
  }

  predicate AllPlain(segments: seq<string>) {
    forall i :: 0 <= i < |segments| ==> IsPlain(segments[i])
  }

  lemma {:induction false} FirstSlashIsUnique(s: string, i: nat)
    requires i <= |s| && (i < |s| ==> s[i] == '/') && forall j :: 0 <= j < i ==> s[j] != '/'
    ensures FirstSlash(s) == i
  {
    if i > 0 {
      FirstSlashIsUnique(s[1..], i - 1);
    }
  }

  /** Cutting a string at any slash cuts its segments at the same place. */
  lemma {:induction false} SplitConcat(a: string, b: string)
    ensures Split(a + "/" + b) == Split(a) + Split(b)
    decreases |a|
  {
    hide FirstSlash;
    var s := a + "/" + b;
    var i := FirstSlash(a);
    FirstSlashOfConcat(a, b);
    if i == |a| {
      assert s[..i] == a && s[i + 1..] == b;
    } else {
      var rest := a[i + 1..];
      assert s[..i] == a[..i] && s[i + 1..] == rest + "/" + b;
      SplitConcat(rest, b);
      assert [a[..i]] + (Split(rest) + Split(b)) == [a[..i]] + Split(rest) + Split(b);
    }
  }

  lemma FirstSlashOfConcat(a: string, b: string)
    ensures FirstSlash(a + "/" + b) == FirstSlash(a)
  {
    hide FirstSlash;
    FirstSlashIsUnique(a + "/" + b, FirstSlash(a));
  }

  lemma {:induction false} NonEmptyConcat(a: seq<string>, b: seq<string>)
    ensures NonEmpty(a + b) == NonEmpty(a) + NonEmpty(b)
  {
    if a == [] {
      assert a + b == b;
    } else {
      assert (a + b)[1..] == a[1..] + b;
      NonEmptyConcat(a[1..], b);
    }
  }

  lemma PartsConcat(a: string, b: string)
    ensures Parts(a + "/" + b) == Parts(a) + Parts(b)
  {
    SplitConcat(a, b);
    NonEmptyConcat(Split(a), Split(b));
  }

  lemma SplitOne(s: string)
    requires '/' !in s
    ensures Split(s) == [s]
  {
    FirstSlashIsUnique(s, |s|);
  }

  lemma JoinCons(head: string, tail: seq<string>)
    requires tail != []
    ensures Join([head] + tail) == head + "/" + Join(tail)
  {
    assert ([head] + tail)[1..] == tail;
  }

  lemma {:induction false} JoinSplit(s: string)
    ensures Join(Split(s)) == s
    decreases |s|
  {
    var i := FirstSlash(s);
    if i == |s| {
      assert Join([s]) == s;
    } else {
      var rest := Split(s[i + 1..]);
      assert Split(s) == [s[..i]] + rest;
      JoinSplit(s[i + 1..]);
      hide Split, Join;
      JoinCons(s[..i], rest);
      CutAt(s, i);
    }
  }

  lemma CutAt(s: string, i: nat)
    requires i < |s| && s[i] == '/'
    ensures s[..i] + "/" + s[i + 1..] == s
  {
  }

  lemma {:induction false} SplitJoin(segments: seq<string>)
    requires segments != [] && forall i :: 0 <= i < |segments| ==> '/' !in segments[i]
    ensures Split(Join(segments)) == segments
  {
    SplitOne(segments[0]);
    if |segments| > 1 {
      SplitJoin(segments[1..]);
      SplitConcat(segments[0], Join(segments[1..]));
    }
  }

  lemma {:induction false} NonEmptySegments(segments: seq<string>)
    requires AllSegments(segments)
    ensures NonEmpty(segments) == segments
  {
    if segments != [] {
      NonEmptySegments(segments[1..]);
    }
  }

  lemma PartsJoin(segments: seq<string>)
    requires AllSegments(segments)
    ensures Parts(Join(segments)) == segments
    ensures Join(segments) == "" <==> segments == []
    ensures Join(segments) != "" ==> Join(segments)[0] != '/' && Join(segments)[|Join(segments)| - 1] != '/'
  {
    if segments == [] {
      SplitOne("");
    } else {
      SplitJoin(segments);
      NonEmptySegments(segments);
      JoinEnds(segments);
    }
  }

  lemma {:induction false} JoinEnds(segments: seq<string>)
    requires AllSegments(segments) && segments != []
    ensures Join(segments) != "" && Join(segments)[0] != '/' && Join(segments)[|Join(segments)| - 1] != '/'
  {
    assert segments[0][0] in segments[0] && segments[0][|segments[0]| - 1] in segments[0];
    if |segments| > 1 {
      JoinEnds(segments[1..]);
    }
  }

  lemma PartsOfSegment(s: string)
    requires '/' !in s
    ensures Parts(s) == if s == "" then [] else [s]
  {
    SplitOne(s);
    assert NonEmpty([s]) == (if s == "" then [] else [s]) + NonEmpty([s][1..]);
  }

  lemma {:induction false} SplitHasNoSlash(s: string)
    ensures forall i :: 0 <= i < |Split(s)| ==> '/' !in Split(s)[i]
    decreases |s|
  {
    var i := FirstSlash(s);
    if i < |s| {
      SplitHasNoSlash(s[i + 1..]);
    }
  }

  lemma {:induction false} NonEmptyAreSegments(segments: seq<string>)
    requires forall i :: 0 <= i < |segments| ==> '/' !in segments[i]
    ensures AllSegments(NonEmpty(segments))
  {
    if segments != [] {
      NonEmptyAreSegments(segments[1..]);
    }
  }

  lemma PartsAreSegments(s: string)
    ensures AllSegments(Parts(s))
  {
    SplitHasNoSlash(s);
    NonEmptyAreSegments(Split(s));
  }

  lemma {:induction false} PartsIgnoreTrailing(s: string)
    ensures Parts(s) == Parts(TrimSlashes(s))
    decreases |s|
  {
    if s != "" && s[|s| - 1] == '/' {
      assert s == s[..|s| - 1] + "/" + "";
      PartsConcat(s[..|s| - 1], "");
      PartsOfSegment("");
      PartsIgnoreTrailing(s[..|s| - 1]);
    }
  }

  lemma PartsOfRooted(s: string)
    ensures Parts("/" + s) == Parts(s)
  {
    assert "/" + s == "" + "/" + s;
    PartsConcat("", s);
    PartsOfSegment("");
  }

  /** The text before the last slash and the text after it carry the segments apart. */
  lemma PartsAroundLastSlash(t: string)
    requires AfterLastSlash(t) > 0
    ensures Parts(t) == Parts(t[..AfterLastSlash(t) - 1]) + Parts(t[AfterLastSlash(t)..])
  {
    var i := AfterLastSlash(t);
    assert t == t[..i - 1] + "/" + t[i..];
    PartsConcat(t[..i - 1], t[i..]);
  }

  /** The base name is the last segment. */
  lemma BasenameIsLast(path: string)
    ensures Basename(path) == if Parts(path) == [] then "" else Parts(path)[|Parts(path)| - 1]
  {
    PartsIgnoreTrailing(path);
    var t := TrimSlashes(path);
    var i := AfterLastSlash(t);
    PartsOfSegment(t[i..]);
    if i > 0 {
      PartsAroundLastSlash(t);
    } else {
      assert t[i..] == t;
    }
  }

  /** The directory of a rooted path has all segments but the last. */
  lemma DirnameDropsLast(path: string)
    requires IsAbsolute(path)
    ensures Parts(Dirname(path)) == if Parts(path) == [] then [] else Parts(path)[..|Parts(path)| - 1]
    ensures IsAbsolute(Dirname(path))
  {
    hide Parts;
    PartsIgnoreTrailing(path);
    var t := TrimSlashes(path);
    var i := AfterLastSlash(t);
    SlashesHaveNoParts();
    PartsOfSegment(t[i..]);
    if i > 0 {
      PartsAroundLastSlash(t);
      if i == 1 {
        assert t[..0] == "";
      } else if i == 2 {
        assert t[..1] == "/";
      }
    } else {
      assert t == "";
    }
  }

  lemma SlashesHaveNoParts()
    ensures Parts("") == [] && Parts("/") == [] && Parts("//") == []
  {
    PartsOfSegment("");
    PartsOfRooted("");
    PartsOfRooted("/");
    assert "/" + "" == "/" && "/" + "/" == "//";
  }

  // ----- the stack walk

  lemma {:induction false} WalkConcat(stack: seq<string>, a: seq<string>, b: seq<string>, rooted: bool)
    ensures Walk(stack, a + b, rooted) == Walk(Walk(stack, a, rooted), b, rooted)
    decreases |a|
  {
    if a == [] {
      assert a + b == b;
    } else {
      assert (a + b)[1..] == a[1..] + b && (a + b)[0] == a[0];
      WalkConcat(Push(stack, a[0], rooted), a[1..], b, rooted);
    }
  }

  /** From a root every walk ends in plain segments only. */
  lemma {:induction false} RootedWalkIsPlain(stack: seq<string>, parts: seq<string>)
    requires AllPlain(stack) && AllSegments(parts)
    ensures AllPlain(Walk(stack, parts, true))
    decreases |parts|
  {
    if parts != [] {
      RootedWalkIsPlain(Push(stack, parts[0], true), parts[1..]);
    }
  }

  /** Plain segments are simply pushed. */
  lemma {:induction false} WalkPushes(stack: seq<string>, parts: seq<string>, rooted: bool)
    requires AllPlain(parts)
    ensures Walk(stack, parts, rooted) == stack + parts
    decreases |parts|
  {
    if parts == [] {
      assert stack + parts == stack;
    } else {
      WalkPushes(stack + [parts[0]], parts[1..], rooted);
      assert stack + [parts[0]] + parts[1..] == stack + parts;
    }
  }

  /** Upward steps pop plain segments. */
  lemma {:induction false} WalkPops(stack: seq<string>, n: nat)
    requires AllPlain(stack) && n <= |stack|
    ensures Walk(stack, Ups(n), true) == stack[..|stack| - n]
    decreases n
  {
    if n > 0 {
      assert Ups(n)[1..] == Ups(n - 1);
      WalkPops(stack[..|stack| - 1], n - 1);
      assert stack[..|stack| - 1][..|stack| - 1 - (n - 1)] == stack[..|stack| - n];
    }
  }

  lemma AbsoluteParts(segments: seq<string>)
    requires AllPlain(segments)
    ensures Parts("/" + Join(segments)) == segments && IsAbsolute("/" + Join(segments))
  {
    PartsOfRooted(Join(segments));
    PartsJoin(segments);
  }

  /** Normalising an absolute path keeps its walk and its trailing slash, and nothing is left to normalise. */
  lemma NormalizeAbsolute(path: string)
    requires IsAbsolute(path)
    ensures var walked := Walk([], Parts(path), true);
            && AllPlain(walked) && Parts(Normalize(path)) == walked && IsAbsolute(Normalize(path))
            && Normalize(path) == "/" + Join(walked) + (if walked != [] && path[|path| - 1] == '/' then "/" else "")
            && Normalize(Normalize(path)) == Normalize(path)
  {
    var walked := Walk([], Parts(path), true);
    PartsAreSegments(path);
    RootedWalkIsPlain([], Parts(path));
    NormalForm(path);
    NormalParts(walked, path[|path| - 1] == '/');
    hide Normalize, Walk, Parts, Join;
    var result := Normalize(path);
    WalkPushes([], walked, true);
    assert [] + walked == walked;
    NormalForm(result);
    if walked != [] {
      JoinEnds(walked);
    }
  }

  /** A rooted path normalises to its walk, with its trailing slash unless only the root is left. */
  lemma NormalForm(path: string)
    requires IsAbsolute(path) && AllPlain(Walk([], Parts(path), true))
    ensures var walked := Walk([], Parts(path), true);
            Normalize(path) == "/" + Join(walked) + (if walked != [] && path[|path| - 1] == '/' then "/" else "")
  {
    hide Walk, Parts, Join;
    PartsJoin(Walk([], Parts(path), true));
  }

  lemma NormalParts(walked: seq<string>, slash: bool)
    requires AllPlain(walked)
    ensures var result := "/" + Join(walked) + (if walked != [] && slash then "/" else "");
            Parts(result) == walked && IsAbsolute(result)
  {
    hide Parts, Join;
    AbsoluteParts(walked);
    if walked != [] && slash {
      assert "/" + Join(walked) + "/" == "/" + Join(walked) + "/" + "";
      PartsConcat("/" + Join(walked), "");
      PartsOfSegment("");
    } else {
      assert "/" + Join(walked) + "" == "/" + Join(walked);
    }
  }
}
