/** The documentation link check: which files are read, what each link means, and which links are errors. */
module DocLinks {
  import opened Base
  import opened Listing
  import opened PosixPath
  import opened Regex
  import opened ImportScan
  import opened LinkScan
  import opened TreeCheck

  /** What the check asks the machine: file texts, existence of a path, percent-decoding. */
  datatype World = World(text: string -> string, present: string -> bool, decode: string -> string)

  datatype Error = Escapes(where: string, raw: string) | Missing(where: string, raw: string)

  const SKIPPED := ["http://", "https://", "mailto:", "#"]

  // ----- the target of a link

  function Trim(raw: string): string {
    var lo := SkipSpace(raw, 0);
    raw[lo..SpaceStart(raw, lo, |raw|)]
  }

  function WordEnd(s: string, i: nat): (e: nat)
    requires i <= |s|
    ensures i <= e <= |s| && (e < |s| ==> IsSpace(s[e])) && forall j :: i <= j < e ==> !IsSpace(s[j])
    decreases |s| - i
  {
    if i == |s| || IsSpace(s[i]) then i else WordEnd(s, i + 1)
  }

  const ANGLES := Among({'<', '>'})

  function AngleStart(s: string, from: nat, end: nat): (w: nat)
    requires from <= end <= |s|
    ensures from <= w <= end && (forall i :: w <= i < end ==> ANGLES.Has(s[i])) && (w > from ==> !ANGLES.Has(s[w - 1]))
    decreases end
  {
    if end > from && ANGLES.Has(s[end - 1]) then AngleStart(s, from, end - 1) else end
  }

  /** The text without the angle brackets around it. */
  function StripAngles(s: string): string {
    var lo := RunEnd(s, ANGLES, 0);
    s[lo..AngleStart(s, lo, |s|)]
  }

  function BeforeHash(s: string): string {
    s[..RunEnd(s, Except({'#'}), 0)]
  }

  predicate IsSkipped(target: string) {
    target == "" || exists i :: 0 <= i < |SKIPPED| && StartsWith(target, SKIPPED[i])
  }

  /** The relative target of a raw link; None for web, mail and in-page links and for empty targets. */
  function Target(world: World, raw: string): Option<string> {
    var trimmed := Trim(raw);
    var target := StripAngles(trimmed[..WordEnd(trimmed, 0)]);
    if IsSkipped(target) then None
    else
      var decoded := world.decode(BeforeHash(target));
      if decoded == "" then None else Some(decoded)
  }

  // ----- the verdict on a link

  predicate Leaves(relative: string) {
    relative == ".." || StartsWith(relative, "../") || IsAbsolute(relative)
  }

  function Judge(world: World, root: string, file: string, raw: string): seq<Error>
    requires IsAbsolute(file)
  {
    match Target(world, raw)
    case None => []
    case Some(target) =>
      var resolved := Resolve(Dirname(file), target);
      if Leaves(Relative(root, resolved)) then [Escapes(Relative(root, file), raw)]
      else if !world.present(resolved) then [Missing(Relative(root, file), raw)]
      else []
  }

  function JudgeAll(world: World, root: string, file: string, raws: seq<string>): seq<Error>
    requires IsAbsolute(file)
  {
    if raws == [] then []
    else JudgeAll(world, root, file, raws[..|raws| - 1]) + Judge(world, root, file, raws[|raws| - 1])
  }

  // ----- the files

  function MarkdownFiles(entries: seq<Entry>, directory: string): seq<string>
    decreases entries, 1
  {
    if entries == [] then [] else MarkdownEntry(entries[0], directory) + MarkdownFiles(entries[1..], directory)
  }

  function MarkdownEntry(entry: Entry, directory: string): seq<string>
    decreases entry, 0
  {
    if entry.name == GIT then []
    else match entry
         case File(name) => if EndsWith(name, ".md") then [JoinPaths(directory, name)] else []
         case Folder(name, children) => MarkdownFiles(children, JoinPaths(directory, name))
         case Special(_) => []
  }

  predicate AllAbsolute(files: seq<string>) {
    forall i :: 0 <= i < |files| ==> IsAbsolute(files[i])
  }

  function DocErrors(world: World, root: string, files: seq<string>): seq<Error>
    requires AllAbsolute(files)
  {
    if files == [] then []
    else
      var last := files[|files| - 1];
      DocErrors(world, root, files[..|files| - 1]) + JudgeAll(world, root, last, Links(world.text(last)))
  }

  // ----- the check as it runs

  method CollectMarkdown(entries: seq<Entry>, directory: string) returns (files: seq<string>)
    ensures files == MarkdownFiles(entries, directory)
    decreases entries
  {
    hide JoinPaths, EndsWith, MarkdownEntry;
    files := [];
    for i := 0 to |entries|
      invariant MarkdownFiles(entries, directory) == files + MarkdownFiles(entries[i..], directory)
    {
      assert entries[i..][0] == entries[i] && entries[i..][1..] == entries[i + 1..];
      MarkdownEntryMeans(entries[i], directory);
      if entries[i].name == GIT {
        continue;
      }
      match entries[i]
      case File(name) =>
        if EndsWith(name, ".md") {
          files := files + [JoinPaths(directory, name)];
        }
      case Folder(name, children) =>
        var below := CollectMarkdown(children, JoinPaths(directory, name));
        files := files + below;
      case Special(_) =>
    }
  }

  lemma MarkdownEntryMeans(entry: Entry, directory: string)
    ensures entry.name == GIT || entry.Special? ==> MarkdownEntry(entry, directory) == []
    ensures entry.name != GIT && entry.File? ==>
              MarkdownEntry(entry, directory) ==
              if EndsWith(entry.name, ".md") then [JoinPaths(directory, entry.name)] else []
    ensures entry.name != GIT && entry.Folder? ==>
              MarkdownEntry(entry, directory) == MarkdownFiles(entry.entries, JoinPaths(directory, entry.name))
  {
    hide JoinPaths, EndsWith;
  }

  /** All links of one file, the errors pushed in order. */
  method CheckFile(world: World, root: string, file: string) returns (errors: seq<Error>)
    requires IsAbsolute(file)
    ensures errors == JudgeAll(world, root, file, Links(world.text(file)))
  {
    hide Links, Trim, StripAngles, BeforeHash, IsSkipped, Resolve, Relative, Leaves, Dirname;
    var raws := ExtractLinks(world.text(file));
    errors := [];
    for k := 0 to |raws|
      invariant errors == JudgeAll(world, root, file, raws[..k])
    {
      assert raws[..k + 1][..k] == raws[..k];
      var trimmed := Trim(raws[k]);
      var target := StripAngles(trimmed[..WordEnd(trimmed, 0)]);
      if IsSkipped(target) {
        continue;
      }
      target := world.decode(BeforeHash(target));
      if target == "" {
        continue;
      }
      var resolved := Resolve(Dirname(file), target);
      if Leaves(Relative(root, resolved)) {
        errors := errors + [Escapes(Relative(root, file), raws[k])];
        continue;
      }
      if !world.present(resolved) {
        errors := errors + [Missing(Relative(root, file), raws[k])];
      }
    }
    assert raws[..|raws|] == raws;
  }

  method CheckLinks(world: World, root: string, entries: seq<Entry>) returns (errors: seq<Error>)
    requires IsAbsolute(root)
    ensures AllAbsolute(SortList(MarkdownFiles(entries, root)))
    ensures errors == DocErrors(world, root, SortList(MarkdownFiles(entries, root)))
  {
    hide JudgeAll, MarkdownFiles, SortList, Links;
    var found := CollectMarkdown(entries, root);
    FoundAreAbsolute(entries, root);
    var files := SortList(found);
    SortedAbsolute(found);
    errors := [];
    for i := 0 to |files|
      invariant errors == DocErrors(world, root, files[..i])
    {
      assert files[..i + 1][..i] == files[..i];
      var more := CheckFile(world, root, files[i]);
      errors := errors + more;
    }
    assert files[..|files|] == files;
  }

  lemma {:induction false} FoundAreAbsolute(entries: seq<Entry>, directory: string)
    requires IsAbsolute(directory)
    ensures AllAbsolute(MarkdownFiles(entries, directory))
    decreases entries, 1
  {
    hide JoinPaths;
    if entries != [] {
      FoundAreAbsolute(entries[1..], directory);
      JoinedIsAbsolute(directory, entries[0].name);
      if entries[0].Folder? {
        FoundAreAbsolute(entries[0].entries, JoinPaths(directory, entries[0].name));
      }
    }
  }

  lemma JoinedIsAbsolute(directory: string, name: string)
    requires IsAbsolute(directory)
    ensures IsAbsolute(JoinPaths(directory, name))
  {
    hide Normalize;
    NormalizeAbsolute(if name == "" then directory else directory + "/" + name);
  }

  lemma SortedAbsolute(files: seq<string>)
    requires AllAbsolute(files)
    ensures AllAbsolute(SortList(files))
  {
    var sorted := SortList(files);
    forall i | 0 <= i < |sorted| ensures IsAbsolute(sorted[i]) {
      assert sorted[i] in sorted;
    }
  }
}
