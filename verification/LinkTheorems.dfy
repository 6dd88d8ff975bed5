/** What the link check decides, in terms of path segments. */
module LinkTheorems {
  import opened Base
  import opened Listing
  import opened PosixPath
  import opened Regex
  import opened ImportScan
  import opened LinkScan
  import opened TreeCheck
  import opened DocLinks

  /** The absolute path of plain segments. */
  function Abs(segments: seq<string>): string {
    "/" + Join(segments)
  }

  lemma AbsParts(segments: seq<string>)
    requires AllPlain(segments)
    ensures IsAbsolute(Abs(segments)) && Parts(Abs(segments)) == segments
  {
    AbsoluteParts(segments);
  }

  // ----- the target of a link

  lemma {:induction false} WordEndIsUnique(s: string, i: nat, e: nat)
    requires i <= e <= |s| && (e < |s| ==> IsSpace(s[e])) && forall j :: i <= j < e ==> !IsSpace(s[j])
    ensures WordEnd(s, i) == e
    decreases e - i
  {
    hide IsSpace;
    if i < e {
      WordEndIsUnique(s, i + 1, e);
    }
  }

  lemma WordInside(raw: string, lo: nat, hi: nat)
    requires lo <= hi <= |raw| && forall i :: hi <= i < |raw| ==> IsSpace(raw[i])
    ensures WordEnd(raw, lo) <= hi
    ensures raw[lo..hi][..WordEnd(raw[lo..hi], 0)] == raw[lo..WordEnd(raw, lo)]
  {
    hide IsSpace, WordEnd;
    var e, word := WordEnd(raw, lo), raw[lo..hi];
    assert hi < |raw| ==> IsSpace(raw[hi]);
    assert forall i :: 0 <= i < |word| ==> word[i] == raw[lo + i];
    WordEndIsUnique(word, 0, e - lo);
  }

  /** Trimming and cutting at white space give the first word of the raw link, empty only if it is blank. */
  lemma FirstWordMeans(raw: string)
    ensures var lo := SkipSpace(raw, 0);
            && Trim(raw)[..WordEnd(Trim(raw), 0)] == raw[lo..WordEnd(raw, lo)]
            && (WordEnd(raw, lo) == lo <==> forall i :: 0 <= i < |raw| ==> IsSpace(raw[i]))
  {
    hide IsSpace, WordEnd, SkipSpace, SpaceStart;
    var lo := SkipSpace(raw, 0);
    SpacesSkipped(raw);
    WordInside(raw, lo, SpaceStart(raw, lo, |raw|));
  }

  lemma SpacesSkipped(raw: string)
    ensures var lo := SkipSpace(raw, 0);
            (forall i :: 0 <= i < lo ==> IsSpace(raw[i])) && (lo < |raw| ==> !IsSpace(raw[lo]))
  {
    hide IsSpace;
    var lo := SkipSpace(raw, 0);
    assert forall i :: 0 <= i < lo ==> Space.Has(raw[i]);
    assert lo < |raw| ==> !Space.Has(raw[lo]);
  }

  /** The first run of characters that are not white space, or an empty one at the end. */
  predicate IsFirstWord(raw: string, lo: nat, hi: nat) {
    && lo <= hi <= |raw| && (forall i :: 0 <= i < lo ==> IsSpace(raw[i])) &&
       (forall i :: lo <= i < hi ==> !IsSpace(raw[i]))
    && (hi < |raw| ==> IsSpace(raw[hi])) && (lo == hi ==> hi == |raw|)
  }

  predicate IsAngle(c: char) {
    c == '<' || c == '>'
  }

  /** What is left of a word without the angle brackets at both ends. */
  predicate IsCore(word: string, i: nat, j: nat) {
    && i <= j <= |word| && (forall k :: 0 <= k < i ==> IsAngle(word[k])) &&
       (forall k :: j <= k < |word| ==> IsAngle(word[k]))
    && (i < j ==> !IsAngle(word[i]) && !IsAngle(word[j - 1]))
    && (i == j ==> j == |word|)
  }

  /** Web, mail and in-page links are not judged, and neither is nothing. */
  predicate IsElsewhere(core: string) {
    || core == "" || (|core| >= 7 && core[..7] == "http://") || (|core| >= 8 && core[..8] == "https://")
    || (|core| >= 7 && core[..7] == "mailto:") || (|core| >= 1 && core[0] == '#')
  }

  /** The end of the part before the first hash. */
  predicate EndsBeforeHash(core: string, h: nat) {
    h <= |core| && (forall k :: 0 <= k < h ==> core[k] != '#') && (h < |core| ==> core[h] == '#')
  }

  /** The core of a raw link: its first word without angle brackets around it. */
  ghost predicate HasCore(raw: string, core: string) {
    exists lo: nat, hi: nat, i: nat, j: nat ::
      IsFirstWord(raw, lo, hi) && IsCore(raw[lo..hi], i, j) && core == raw[lo..hi][i..j]
  }

  /** A raw link means a target: the decoding of its core, as far as the first hash. */
  ghost predicate MeansTarget(world: World, raw: string, target: string) {
    && target != ""
    && exists core, h :: HasCore(raw, core) && !IsElsewhere(core) && EndsBeforeHash(core, h)
                         && target == world.decode(core[..h])
  }

  lemma FirstWordIsUnique(raw: string, lo: nat, hi: nat)
    requires IsFirstWord(raw, lo, hi)
    ensures lo == SkipSpace(raw, 0) && hi == WordEnd(raw, lo)
  {
    hide IsSpace;
    RunEndIsUnique(raw, Space, 0, lo);
    WordEndIsUnique(raw, lo, hi);
  }

  lemma FirstWordIsFirst(raw: string)
    ensures var lo := SkipSpace(raw, 0); IsFirstWord(raw, lo, WordEnd(raw, lo))
  {
    hide IsSpace;
    SpacesSkipped(raw);
  }

  lemma CoreIsUnique(word: string, i: nat, j: nat)
    requires IsCore(word, i, j)
    ensures word[i..j] == StripAngles(word)
  {
    var lo := RunEnd(word, ANGLES, 0);
    RunEndIsUnique(word, ANGLES, 0, i);
    var w := AngleStart(word, lo, |word|);
    assert j == w;
  }

  lemma CoreExists(word: string)
    ensures var lo := RunEnd(word, ANGLES, 0); IsCore(word, lo, AngleStart(word, lo, |word|))
  {
    var lo := RunEnd(word, ANGLES, 0);
    var w := AngleStart(word, lo, |word|);
  }

  lemma SkippedMeans(core: string)
    ensures IsSkipped(core) <==> IsElsewhere(core)
  {
    assert SKIPPED[0] == "http://" && SKIPPED[1] == "https://" && SKIPPED[2] == "mailto:" && SKIPPED[3] == "#";
    assert |core| >= 1 ==> (core[0] == '#' <==> core[..1] == "#");
  }

  lemma HashIsFirst(core: string, h: nat)
    ensures EndsBeforeHash(core, h) <==> h == RunEnd(core, Except({'#'}), 0)
  {
    if EndsBeforeHash(core, h) {
      RunEndIsUnique(core, Except({'#'}), 0, h);
    }
  }

  lemma CoreMeans(raw: string, core: string)
    ensures var trimmed := Trim(raw);
            HasCore(raw, core) <==> core == StripAngles(trimmed[..WordEnd(trimmed, 0)])
  {
    hide IsSpace, Trim, StripAngles, RunEnd, AngleStart, SkipSpace, WordEnd;
    FirstWordMeans(raw);
    FirstWordIsFirst(raw);
    var lo := SkipSpace(raw, 0);
    var word := raw[lo..WordEnd(raw, lo)];
    CoreExists(word);
    var i := RunEnd(word, ANGLES, 0);
    CoreIsUnique(word, i, AngleStart(word, i, |word|));
    if HasCore(raw, core) {
      var a: nat, b: nat, c: nat, d: nat :|
        IsFirstWord(raw, a, b) && IsCore(raw[a..b], c, d) && core == raw[a..b][c..d];
      FirstWordIsUnique(raw, a, b);
      CoreIsUnique(word, c, d);
    }
  }

  /** The check reads from a raw link the target it means, or none. */
  lemma TargetMeans(world: World, raw: string, target: string)
    ensures Target(world, raw) == Some(target) <==> MeansTarget(world, raw, target)
  {
    hide IsSpace, Trim, StripAngles, WordEnd, HasCore, IsSkipped, IsElsewhere, EndsBeforeHash, RunEnd;
    var trimmed := Trim(raw);
    var core := StripAngles(trimmed[..WordEnd(trimmed, 0)]);
    forall c ensures HasCore(raw, c) <==> c == core {
      CoreMeans(raw, c);
    }
    SkippedMeans(core);
    forall h ensures EndsBeforeHash(core, h) <==> h == RunEnd(core, Except({'#'}), 0) {
      HashIsFirst(core, h);
    }
  }

  // ----- relative paths

  /** A common prefix that covers the first path makes the relative path descend only. */
  lemma PrefixIsCommon(a: seq<string>, b: seq<string>)
    ensures CommonPrefix(a, b) == |a| <==> a <= b
  {
    var n := CommonPrefix(a, b);
    assert n == |a| ==> a[..n] == a;
    assert a <= b ==> forall k :: 0 <= k < |a| ==> a[k] == b[k];
  }

  function RelativeParts(a: seq<string>, b: seq<string>): (r: seq<string>)
    requires AllPlain(a) && AllPlain(b)
    ensures AllSegments(r)
  {
    var n := CommonPrefix(a, b);
    Ups(|a| - n) + b[n..]
  }

  lemma RelativeMeans(a: seq<string>, b: seq<string>)
    requires AllPlain(a) && AllPlain(b)
    ensures Relative(Abs(a), Abs(b)) == Join(RelativeParts(a, b))
    ensures Parts(Relative(Abs(a), Abs(b))) == RelativeParts(a, b)
    ensures !IsAbsolute(Relative(Abs(a), Abs(b)))
  {
    AbsParts(a);
    AbsParts(b);
    PartsJoin(RelativeParts(a, b));
  }

  /** Resolving the computed relative path from the root gives the resolved path back. */
  lemma RelativeResolves(a: seq<string>, b: seq<string>)
    requires AllPlain(a) && AllPlain(b)
    ensures Resolve(Abs(a), Relative(Abs(a), Abs(b))) == Abs(b)
  {
    hide Parts, Join, Relative, Walk;
    AbsParts(a);
    RelativeMeans(a, b);
    var n := CommonPrefix(a, b);
    var ups, down := Ups(|a| - n), b[n..];
    WalkConcat([], a, ups + down, true);
    WalkPushes([], a, true);
    WalkConcat(a, ups, down, true);
    WalkPops(a, |a| - n);
    WalkPushes(a[..n], down, true);
    assert [] + a == a && a[..|a| - (|a| - n)] == b[..n] && b[..n] + down == b;
  }

  lemma StartsWithUp(s: string)
    ensures s == ".." || StartsWith(s, "../") <==> Parts(s) != [] && Parts(s)[0] == ".." && !IsAbsolute(s)
  {
    var i := FirstSlash(s);
    PartsOfSegment(s[..i]);
    if i < |s| {
      assert s == s[..i] + "/" + s[i + 1..];
      PartsConcat(s[..i], s[i + 1..]);
    } else {
      assert s[..i] == s;
    }
    if StartsWith(s, "../") {
      assert s[0] == '.' && s[1] == '.' && s[2] == '/';
      assert s[..2] == "..";
      FirstSlashIsUnique(s, 2);
    }
    if s == ".." {
      FirstSlashIsUnique(s, 2);
    }
  }

  /** The escape test is exact: it holds just when the root's segments are no prefix of the target's. */
  lemma EscapeIsExact(root: seq<string>, resolved: seq<string>)
    requires AllPlain(root) && AllPlain(resolved)
    ensures Leaves(Relative(Abs(root), Abs(resolved))) <==> !(root <= resolved)
  {
    hide Parts, Join, Relative;
    RelativeMeans(root, resolved);
    PrefixIsCommon(root, resolved);
    StartsWithUp(Relative(Abs(root), Abs(resolved)));
    var n := CommonPrefix(root, resolved);
    if n < |root| {
      assert RelativeParts(root, resolved)[0] == "..";
    } else if n < |resolved| {
      assert RelativeParts(root, resolved)[0] == resolved[n];
    }
  }

  /** Below the root the relative path is the rest of the segments. */
  lemma InsideIsRest(root: seq<string>, names: seq<string>)
    requires AllPlain(root) && AllPlain(names)
    ensures Relative(Abs(root), Abs(root + names)) == Join(names)
  {
    RelativeMeans(root, root + names);
    PrefixIsCommon(root, root + names);
    assert Ups(0) + (root + names)[|root|..] == names;
  }

  // ----- what a link resolves to

  /** The segments a target means from a file, clamped at the file system's root. */
  function Meant(file: seq<string>, target: string): seq<string>
    requires file != []
  {
    Walk([], if IsAbsolute(target) then Parts(target) else file[..|file| - 1] + Parts(target), true)
  }

  lemma ResolveMeans(file: seq<string>, target: string)
    requires AllPlain(file) && file != []
    ensures IsAbsolute(Abs(file)) && Resolve(Dirname(Abs(file)), target) == Abs(Meant(file, target))
    ensures AllPlain(Meant(file, target))
  {
    hide Parts, Dirname;
    AbsParts(file);
    DirnameDropsLast(Abs(file));
    PartsAreSegments(target);
    RootedWalkIsPlain([], if IsAbsolute(target) then Parts(target) else file[..|file| - 1] + Parts(target));
  }

  // ----- the files

  lemma JoinedPath(directory: seq<string>, name: string)
    requires AllPlain(directory) && IsPlain(name)
    ensures JoinPaths(Abs(directory), name) == Abs(directory + [name])
  {
    hide Parts, Join, Normalize;
    var path := Abs(directory) + "/" + name;
    AbsParts(directory);
    PartsConcat(Abs(directory), name);
    PartsOfSegment(name);
    NormalizeAbsolute(path);
    WalkPushes([], directory + [name], true);
    assert [] + (directory + [name]) == directory + [name];
    assert path[|path| - 1] == name[|name| - 1] && name[|name| - 1] in name;
  }

  lemma {:induction false} FileNamesArePlain(entries: seq<Entry>, names: seq<string>)
    requires ProperNames(entries) && HasFile(entries, names)
    ensures AllPlain(names) && names != []
    decreases |names|
  {
    var i :| 0 <= i < |entries| && EntryHas(entries[i], names);
    if entries[i].Folder? {
      FileNamesArePlain(entries[i].entries, names[1..]);
    }
  }

  predicate IsMarkdown(names: seq<string>) {
    names != [] && EndsWith(names[|names| - 1], ".md")
  }

  /** The collection finds exactly the Markdown files outside .git, each under its absolute path. */
  lemma {:induction false} MarkdownIsExact(entries: seq<Entry>, directory: seq<string>, names: seq<string>)
    requires ProperNames(entries) && AllPlain(directory) && AllPlain(names)
    ensures Abs(directory + names) in MarkdownFiles(entries, Abs(directory)) <==>
              HasFile(entries, names) && IsMarkdown(names)
    decreases entries, 1
  {
    hide Abs, EntryHas, HasFile, IsMarkdown, MarkdownEntry;
    if entries != [] {
      MarkdownIsExact(entries[1..], directory, names);
      EntryIsExact(entries[0], directory, names);
    }
    if entries == [] {
      assert !HasFile([], names) by { NoFiles(names); }
    } else {
      HasFileCons(entries, names);
    }
  }

  lemma NoFiles(names: seq<string>)
    ensures !HasFile([], names)
  {
  }

  lemma AbsIsInjective(a: seq<string>, b: seq<string>)
    requires AllPlain(a) && AllPlain(b) && Abs(a) == Abs(b)
    ensures a == b
  {
    AbsParts(a);
    AbsParts(b);
  }

  lemma FileIsExact(name: string, directory: seq<string>, names: seq<string>)
    requires IsPlain(name) && AllPlain(directory) && AllPlain(names)
    ensures Abs(directory + names) in MarkdownEntry(File(name), Abs(directory)) <==>
            EntryHas(File(name), names) && IsMarkdown(names)
  {
    hide Abs;
    JoinedPath(directory, name);
    var child := directory + [name];
    if Abs(directory + names) == Abs(child) {
      AbsIsInjective(directory + names, child);
      assert names == (directory + names)[|directory|..] == child[|directory|..] == [name];
    }
    if EntryHas(File(name), names) {
      assert names == [name];
    }
  }

  lemma FolderIsExact(name: string, children: seq<Entry>, directory: seq<string>, names: seq<string>)
    requires ProperNames(children) && IsPlain(name) && AllPlain(directory) && AllPlain(names)
    ensures Abs(directory + names) in MarkdownFiles(children, Abs(directory + [name])) <==>
            names != [] && names[0] == name && HasFile(children, names[1..]) && IsMarkdown(names)
    decreases children, 2
  {
    hide Abs, HasFile, EndsWith, MarkdownFiles;
    var child, path := directory + [name], directory + names;
    if names != [] && names[0] == name {
      MarkdownIsExact(children, child, names[1..]);
      assert child + names[1..] == path;
      if HasFile(children, names[1..]) {
        FileNamesArePlain(children, names[1..]);
      }
    } else {
      OtherFolder(children, child, path, |directory|);
    }
  }

  lemma EntryIsExact(entry: Entry, directory: seq<string>, names: seq<string>)
    requires ProperNames([entry]) && AllPlain(directory) && AllPlain(names)
    ensures Abs(directory + names) in MarkdownEntry(entry, Abs(directory)) <==>
              EntryHas(entry, names) && IsMarkdown(names)
    decreases entry, 0
  {
    hide Abs, HasFile, IsMarkdown, MarkdownFiles;
    assert IsPlain([entry][0].name);
    match entry
    case File(name) => FileIsExact(name, directory, names);
    case Folder(name, children) =>
      assert ProperNames([entry][0].entries);
      JoinedPath(directory, name);
      FolderIsExact(name, children, directory, names);
    case Special(_) =>
  }

  /** Whatever is found below a directory lies below it. */
  lemma {:induction false} OtherFolder(entries: seq<Entry>, directory: seq<string>, path: seq<string>, n: nat)
    requires ProperNames(entries) && AllPlain(directory) && AllPlain(path)
    requires n < |directory| && (|path| <= n || path[n] != directory[n])
    ensures Abs(path) !in MarkdownFiles(entries, Abs(directory))
    decreases entries
  {
    hide Abs;
    if entries != [] {
      OtherFolder(entries[1..], directory, path, n);
      var entry := entries[0];
      var child := directory + [entry.name];
      JoinedPath(directory, entry.name);
      if Abs(path) == Abs(child) {
        AbsIsInjective(path, child);
        assert child[n] == directory[n];
      }
      if entry.Folder? {
        OtherFolder(entry.entries, child, path, n);
      }
    }
  }

  /** Every found path is the absolute path of some names of the tree. */
  lemma {:induction false} FoundIsBelow(entries: seq<Entry>, directory: seq<string>, path: string)
    returns (names: seq<string>)
    requires ProperNames(entries) && AllPlain(directory) && path in MarkdownFiles(entries, Abs(directory))
    ensures AllPlain(names) && path == Abs(directory + names)
    decreases entries
  {
    hide Abs, MarkdownEntry, JoinPaths, EndsWith;
    var entry := entries[0];
    MarkdownEntryMeans(entry, Abs(directory));
    if path in MarkdownFiles(entries[1..], Abs(directory)) {
      names := FoundIsBelow(entries[1..], directory, path);
    } else {
      JoinedPath(directory, entry.name);
      if entry.Folder? {
        var rest := FoundIsBelow(entry.entries, directory + [entry.name], path);
        names := [entry.name] + rest;
        assert directory + [entry.name] + rest == directory + names;
      } else {
        names := [entry.name];
      }
    }
  }

  /** Where names differ within each folder, the Markdown files are read in ascending order, each once. */
  lemma FilesAscend(entries: seq<Entry>, root: seq<string>)
    requires ProperNames(entries) && DistinctNames(entries) && AllPlain(root)
    ensures Ascending(SortList(MarkdownFiles(entries, Abs(root))))
  {
    NoFileTwice(entries, root);
    SortListIsSorted(MarkdownFiles(entries, Abs(root)));
  }

  lemma {:induction false} NoFileTwice(entries: seq<Entry>, directory: seq<string>)
    requires ProperNames(entries) && DistinctNames(entries) && AllPlain(directory)
    ensures NoRepeats(MarkdownFiles(entries, Abs(directory)))
    decreases entries
  {
    hide Abs, EntryHas, HasFile, IsMarkdown, MarkdownEntry, EndsWith, JoinPaths;
    if entries != [] {
      DistinctParts(entries);
      NoFileTwice(entries[1..], directory);
      var entry, at := entries[0], Abs(directory);
      assert entry == [entry][0];
      MarkdownEntryMeans(entry, at);
      if entry.Folder? {
        JoinedPath(directory, entry.name);
        NoFileTwice(entry.entries, directory + [entry.name]);
      }
      forall path | path in MarkdownEntry(entry, at) ensures path !in MarkdownFiles(entries[1..], at) {
        var names := FoundIsBelow(entries, directory, path);
        EntryIsExact(entry, directory, names);
        MarkdownIsExact(entries[1..], directory, names);
      }
      NoRepeatsConcat(MarkdownEntry(entry, at), MarkdownFiles(entries[1..], at));
    }
  }

  // ----- the verdict

  /** One link of one file, judged by segments. */
  ghost predicate IsError(world: World, root: seq<string>, names: seq<string>, e: Error)
    requires AllPlain(root) && AllPlain(names) && names != []
  {
    e.where == Join(names) &&
    exists target :: MeansTarget(world, e.raw, target) &&
      var meant := Meant(root + names, target);
      match e
      case Escapes(_, _) => !(root <= meant)
      case Missing(_, _) => root <= meant && !world.present(Abs(meant))
  }

  lemma JudgeMeans(world: World, root: seq<string>, names: seq<string>, raw: string, e: Error)
    requires AllPlain(root) && AllPlain(names) && names != []
    ensures IsAbsolute(Abs(root + names))
    ensures e in Judge(world, Abs(root), Abs(root + names), raw) <==> e.raw == raw && IsError(world, root, names, e)
  {
    hide Target, MeansTarget, Abs, Relative, Resolve, Dirname, Meant, Leaves, Join;
    forall target ensures Target(world, raw) == Some(target) <==> MeansTarget(world, raw, target) {
      TargetMeans(world, raw, target);
    }
    var file := root + names;
    AbsParts(file);
    InsideIsRest(root, names);
    var target := Target(world, raw);
    if target.Some? {
      ResolveMeans(file, target.value);
      EscapeIsExact(root, Meant(file, target.value));
    }
  }

  lemma {:induction false} JudgeAllMeans(world: World, root: seq<string>, names: seq<string>, raws: seq<string>,
                                         e: Error)
    requires AllPlain(root) && AllPlain(names) && names != []
    ensures IsAbsolute(Abs(root + names))
    ensures e in JudgeAll(world, Abs(root), Abs(root + names), raws) <==>
              e.raw in raws && IsError(world, root, names, e)
  {
    hide Abs, Judge, IsError;
    AbsParts(root + names);
    if raws != [] {
      var init, last := raws[..|raws| - 1], raws[|raws| - 1];
      JudgeAllMeans(world, root, names, init, e);
      JudgeMeans(world, root, names, last, e);
      assert raws == init + [last];
    }
  }

  lemma {:induction false} DocErrorsMember(world: World, root: string, files: seq<string>, e: Error)
    requires AllAbsolute(files)
    ensures e in DocErrors(world, root, files) <==>
            exists i :: 0 <= i < |files| && e in JudgeAll(world, root, files[i], Links(world.text(files[i])))
  {
    hide JudgeAll, Links;
    if files != [] {
      var init, last := files[..|files| - 1], files[|files| - 1];
      DocErrorsMember(world, root, init, e);
      if e in DocErrors(world, root, init) {
        var i :| 0 <= i < |init| && e in JudgeAll(world, root, init[i], Links(world.text(init[i])));
        assert files[i] == init[i];
      }
      if exists i :: 0 <= i < |files| && e in JudgeAll(world, root, files[i], Links(world.text(files[i]))) {
        var i :| 0 <= i < |files| && e in JudgeAll(world, root, files[i], Links(world.text(files[i])));
        assert i < |init| ==> init[i] == files[i];
      }
    }
  }

  /** A link of a Markdown file of the tree that is an error, with its file named from the root. */
  ghost predicate HasError(world: World, root: seq<string>, entries: seq<Entry>, names: seq<string>, e: Error)
    requires AllPlain(root)
  {
    && HasFile(entries, names) && IsMarkdown(names) && AllPlain(names)
    && e.raw in Links(world.text(Abs(root + names))) && IsError(world, root, names, e)
  }

  /**
   * The verdict on the documentation: an error is reported exactly for each relative link of a
   * Markdown file outside .git that means a path outside the root, or a missing path inside it.
   */
  lemma LinkVerdict(world: World, root: seq<string>, entries: seq<Entry>, e: Error)
    requires AllPlain(root) && ProperNames(entries)
    ensures AllAbsolute(SortList(MarkdownFiles(entries, Abs(root))))
    ensures e in DocErrors(world, Abs(root), SortList(MarkdownFiles(entries, Abs(root)))) <==>
            exists names :: HasError(world, root, entries, names, e)
  {
    hide Abs, Links, JudgeAll, IsError, HasFile, IsMarkdown, MarkdownFiles, SortList, ProperNames;
    AbsParts(root);
    FoundAreAbsolute(entries, Abs(root));
    SortedAbsolute(MarkdownFiles(entries, Abs(root)));
    var files := SortList(MarkdownFiles(entries, Abs(root)));
    DocErrorsMember(world, Abs(root), files, e);
    if e in DocErrors(world, Abs(root), files) {
      var i :| 0 <= i < |files| && e in JudgeAll(world, Abs(root), files[i], Links(world.text(files[i])));
      assert files[i] in files;
      var names := FoundIsBelow(entries, root, files[i]);
      MarkdownIsExact(entries, root, names);
      NamesAreSome(entries, names);
      JudgeAllMeans(world, root, names, Links(world.text(files[i])), e);
      assert HasError(world, root, entries, names, e);
    }
    if exists names :: HasError(world, root, entries, names, e) {
      var names :| HasError(world, root, entries, names, e);
      MarkdownIsExact(entries, root, names);
      NamesAreSome(entries, names);
      var file := Abs(root + names);
      JudgeAllMeans(world, root, names, Links(world.text(file)), e);
      var i :| 0 <= i < |files| && files[i] == file;
    }
  }

  // ----- the list of errors

  /** The place of an error: the file in its sorted order, then the link in the order of the text. */
  datatype LinkPlace = LinkPlace(file: nat, link: nat) {
    predicate Before(other: LinkPlace) {
      file < other.file || (file == other.file && link < other.link)
    }
  }

  /** The error that is due for one link of one file below the root. */
  ghost predicate IsErrorOf(world: World, root: seq<string>, file: string, raw: string, e: Error)
    requires AllPlain(root)
  {
    e.raw == raw &&
    exists names :: AllPlain(names) && names != [] && file == Abs(root + names) && IsError(world, root, names, e)
  }

  /** An error of one file, which is the i-th. */
  ghost predicate InFile(world: World, root: seq<string>, file: string, raws: seq<string>, i: nat, at: LinkPlace,
                         e: Error)
    requires AllPlain(root)
  {
    at.file == i && at.link < |raws| && IsErrorOf(world, root, file, raws[at.link], e)
  }

  ghost predicate ErrorAt(world: World, root: seq<string>, files: seq<string>, at: LinkPlace, e: Error)
    requires AllPlain(root)
  {
    && at.file < |files|
    && InFile(world, root, files[at.file], Links(world.text(files[at.file])), at.file, at, e)
  }

  /** The errors stand at ascending places, each is due there, and each that is due stands somewhere. */
  ghost predicate ErrorsStand(errors: seq<Error>, places: seq<LinkPlace>, due: (LinkPlace, Error) -> bool) {
    && |places| == |errors| && (forall i, j :: 0 <= i < j < |places| ==> places[i].Before(places[j]))
    && (forall i :: 0 <= i < |errors| ==> due(places[i], errors[i]))
    && (forall at, e :: due(at, e) ==> exists i :: 0 <= i < |errors| && places[i] == at && errors[i] == e)
  }

  lemma StandJoin(a: seq<Error>, x: seq<LinkPlace>, f: (LinkPlace, Error) -> bool, b: seq<Error>, y: seq<LinkPlace>,
                  g: (LinkPlace, Error) -> bool, h: (LinkPlace, Error) -> bool)
    requires ErrorsStand(a, x, f) && ErrorsStand(b, y, g) && forall at, e :: h(at, e) <==> f(at, e) || g(at, e)
    requires forall i, j :: 0 <= i < |x| && 0 <= j < |y| ==> x[i].Before(y[j])
    ensures ErrorsStand(a + b, x + y, h)
  {
    hide LinkPlace.Before;
    var errors, places := a + b, x + y;
    forall j | 0 <= j < |b| ensures errors[|a| + j] == b[j] && places[|a| + j] == y[j] {
    }
    forall at, e | h(at, e) ensures exists i :: 0 <= i < |errors| && places[i] == at && errors[i] == e {
      if f(at, e) {
        var i :| 0 <= i < |a| && x[i] == at && a[i] == e;
        assert places[i] == at && errors[i] == e;
      } else {
        var j :| 0 <= j < |b| && y[j] == at && b[j] == e;
        assert places[|a| + j] == at && errors[|a| + j] == e;
      }
    }
  }

  lemma OnlyOneError(world: World, root: string, file: string, raw: string)
    requires IsAbsolute(file)
    ensures |Judge(world, root, file, raw)| <= 1
  {
    hide Target, Resolve, Dirname, Relative, Leaves;
  }

  lemma ErrorOfMeans(world: World, root: seq<string>, names: seq<string>, raw: string, e: Error)
    requires AllPlain(root) && AllPlain(names) && names != []
    ensures IsErrorOf(world, root, Abs(root + names), raw, e) <==> e.raw == raw && IsError(world, root, names, e)
  {
    hide Abs, IsError;
    forall other | AllPlain(other) && Abs(root + names) == Abs(root + other) ensures other == names {
      AbsIsInjective(root + other, root + names);
      assert (root + other)[|root|..] == other && (root + names)[|root|..] == names;
    }
  }

  lemma LinkIsListed(world: World, root: seq<string>, file: string, names: seq<string>, raw: string, at: LinkPlace)
    returns (places: seq<LinkPlace>)
    requires AllPlain(root) && AllPlain(names) && names != [] && file == Abs(root + names)
    ensures IsAbsolute(file) && forall p :: p in places ==> p == at
    ensures ErrorsStand(Judge(world, Abs(root), file, raw), places,
                        (p, e) => p == at && IsErrorOf(world, root, file, raw, e))
  {
    hide Abs, Judge, IsError, IsErrorOf;
    AbsParts(root + names);
    var errors := Judge(world, Abs(root), file, raw);
    OnlyOneError(world, Abs(root), file, raw);
    forall e ensures e in errors <==> IsErrorOf(world, root, file, raw, e) {
      JudgeMeans(world, root, names, raw, e);
      ErrorOfMeans(world, root, names, raw, e);
    }
    places := seq(|errors|, _ => at);
  }

  lemma {:induction false} FileIsListed(world: World, root: seq<string>, file: string, names: seq<string>,
                                        raws: seq<string>, i: nat) returns (places: seq<LinkPlace>)
    requires AllPlain(root) && AllPlain(names) && names != [] && file == Abs(root + names)
    ensures IsAbsolute(file) && forall p :: p in places ==> p.file == i && p.link < |raws|
    ensures ErrorsStand(JudgeAll(world, Abs(root), file, raws), places,
                        (p, e) => InFile(world, root, file, raws, i, p, e))
  {
    hide Abs, Judge, IsErrorOf;
    AbsParts(root + names);
    if raws == [] {
      places := [];
    } else {
      var k := |raws| - 1;
      var x := FileIsListed(world, root, file, names, raws[..k], i);
      var y := LinkIsListed(world, root, file, names, raws[k], LinkPlace(i, k));
      StandJoin(JudgeAll(world, Abs(root), file, raws[..k]), x,
                (p, e) => InFile(world, root, file, raws[..k], i, p, e),
                Judge(world, Abs(root), file, raws[k]), y,
                (p, e) => p == LinkPlace(i, k) && IsErrorOf(world, root, file, raws[k], e),
                (p, e) => InFile(world, root, file, raws, i, p, e));
      places := x + y;
    }
  }

  ghost predicate AllBelow(root: seq<string>, files: seq<string>) {
    forall i :: 0 <= i < |files| ==> exists names :: AllPlain(names) && names != [] && files[i] == Abs(root + names)
  }

  lemma {:induction false} FilesAreListed(world: World, root: seq<string>, files: seq<string>)
    returns (places: seq<LinkPlace>)
    requires AllPlain(root) && AllBelow(root, files) && AllAbsolute(files)
    ensures forall p :: p in places ==> p.file < |files|
    ensures ErrorsStand(DocErrors(world, Abs(root), files), places, (p, e) => ErrorAt(world, root, files, p, e))
  {
    hide Abs, JudgeAll, IsErrorOf, Links;
    if files == [] {
      places := [];
    } else {
      var k := |files| - 1;
      var file, init := files[k], files[..k];
      var names :| AllPlain(names) && names != [] && file == Abs(root + names);
      var raws := Links(world.text(file));
      var x := FilesAreListed(world, root, init);
      var y := FileIsListed(world, root, file, names, raws, k);
      StandJoin(DocErrors(world, Abs(root), init), x, (p, e) => ErrorAt(world, root, init, p, e),
                JudgeAll(world, Abs(root), file, raws), y,
                (p, e) => InFile(world, root, file, raws, k, p, e),
                (p, e) => ErrorAt(world, root, files, p, e));
      places := x + y;
    }
  }

  /**
   * The list that the check prints: the error of each link that has one, each once, by file in ascending
   * order and then by link in the order of the text.
   */
  lemma ErrorsAreListed(world: World, root: seq<string>, entries: seq<Entry>) returns (places: seq<LinkPlace>)
    requires AllPlain(root) && ProperNames(entries)
    ensures AllAbsolute(SortList(MarkdownFiles(entries, Abs(root))))
    ensures var files := SortList(MarkdownFiles(entries, Abs(root)));
            ErrorsStand(DocErrors(world, Abs(root), files), places, (p, e) => ErrorAt(world, root, files, p, e))
  {
    hide Abs, ErrorAt, ErrorsStand, MarkdownFiles, SortList, ProperNames, HasFile, IsMarkdown;
    AbsParts(root);
    FoundAreAbsolute(entries, Abs(root));
    SortedAbsolute(MarkdownFiles(entries, Abs(root)));
    var files := SortList(MarkdownFiles(entries, Abs(root)));
    forall i | 0 <= i < |files|
      ensures exists names :: AllPlain(names) && names != [] && files[i] == Abs(root + names)
    {
      assert files[i] in files;
      var names := FoundIsBelow(entries, root, files[i]);
      MarkdownIsExact(entries, root, names);
      NamesAreSome(entries, names);
    }
    places := FilesAreListed(world, root, files);
  }

  lemma NamesAreSome(entries: seq<Entry>, names: seq<string>)
    requires ProperNames(entries) && HasFile(entries, names)
    ensures names != []
  {
    FileNamesArePlain(entries, names);
  }
}
