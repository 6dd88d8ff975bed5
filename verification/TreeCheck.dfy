/** The whole-tree run of the boundary policy: the walk, the text it chooses to read, the verdict. */
module TreeCheck {
  import opened Listing
  import opened PosixPath

  /** A directory entry; a link, socket or device is none of the first two. */
  datatype Entry = File(name: string) | Folder(name: string, entries: seq<Entry>) | Special(name: string)

  const GIT := ".git"

  function ChildPath(relative: string, name: string): string {
    if relative != "" then relative + "/" + name else name
  }

  /** The files below a directory in reading order, without anything named .git. */
  function WalkFiles(entries: seq<Entry>, relative: string): seq<string>
    decreases entries, 1
  {
    if entries == [] then [] else WalkEntry(entries[0], relative) + WalkFiles(entries[1..], relative)
  }

  function WalkEntry(entry: Entry, relative: string): seq<string>
    decreases entry, 0
  {
    if entry.name == GIT then []
    else match entry
         case File(name) => [ChildPath(relative, name)]
         case Folder(name, children) => WalkFiles(children, ChildPath(relative, name))
         case Special(_) => []
  }

  /** The walk as it runs: entries are pushed while folders are descended into. */
  method WalkTree(entries: seq<Entry>, relative: string) returns (files: seq<string>)
    ensures files == WalkFiles(entries, relative)
    decreases entries
  {
    files := [];
    var i := 0;
    while i < |entries|
      invariant i <= |entries|
      invariant WalkFiles(entries, relative) == files + WalkFiles(entries[i..], relative)
    {
      assert entries[i..][0] == entries[i] && entries[i..][1..] == entries[i + 1..];
      if entries[i].name != GIT {
        match entries[i]
        case File(name) => files := files + [ChildPath(relative, name)];
        case Folder(name, children) =>
          var below := WalkTree(children, ChildPath(relative, name));
          files := files + below;
        case Special(_) =>
      }
      i := i + 1;
    }
  }

  /** A file is reached through named folders, none of them and not itself called .git. */
  predicate HasFile(entries: seq<Entry>, segments: seq<string>)
    decreases |segments|, 1
  {
    exists i :: 0 <= i < |entries| && EntryHas(entries[i], segments)
  }

  predicate EntryHas(entry: Entry, segments: seq<string>)
    decreases |segments|, 0
  {
    segments != [] && entry.name == segments[0] && entry.name != GIT &&
    match entry
    case File(_) => |segments| == 1
    case Folder(_, children) => HasFile(children, segments[1..])
    case Special(_) => false
  }

  /** File names as a file system has them. */
  predicate ProperNames(entries: seq<Entry>) {
    forall i :: 0 <= i < |entries| ==>
      IsPlain(entries[i].name) && (entries[i].Folder? ==> ProperNames(entries[i].entries))
  }

  /** No folder has two entries of one name. */
  predicate DistinctNames(entries: seq<Entry>) {
    && (forall i, j :: 0 <= i < j < |entries| ==> entries[i].name != entries[j].name)
    && (forall i :: 0 <= i < |entries| && entries[i].Folder? ==> DistinctNames(entries[i].entries))
  }

  lemma DistinctParts(entries: seq<Entry>)
    requires entries != [] && ProperNames(entries) && DistinctNames(entries)
    ensures ProperNames([entries[0]]) && DistinctNames([entries[0]])
    ensures ProperNames(entries[1..]) && DistinctNames(entries[1..])
    ensures forall segments :: EntryHas(entries[0], segments) ==> !HasFile(entries[1..], segments)
  {
    assert entries[0].Folder? ==> DistinctNames(entries[0].entries);
    forall segments | EntryHas(entries[0], segments) ensures !HasFile(entries[1..], segments) {
      forall i | 0 <= i < |entries[1..]| ensures !EntryHas(entries[1..][i], segments) {
        assert entries[1..][i] == entries[i + 1];
      }
    }
  }

  lemma ChildSegments(relative: string, name: string)
    requires IsSegment(name) && (relative == "" || relative[|relative| - 1] != '/')
    ensures Split(ChildPath(relative, name)) == (if relative == "" then [] else Split(relative)) + [name]
    ensures ChildPath(relative, name) != "" && ChildPath(relative, name)[|ChildPath(relative, name)| - 1] != '/'
  {
    SplitOne(name);
    assert name[|name| - 1] in name;
    if relative != "" {
      SplitConcat(relative, name);
    }
  }

  ghost predicate Lists(entries: seq<Entry>, relative: string, path: string) {
    var prefix := if relative == "" then [] else Split(relative);
    prefix <= Split(path) && HasFile(entries, Split(path)[|prefix|..])
  }

  lemma HasFileCons(entries: seq<Entry>, segments: seq<string>)
    requires entries != []
    ensures HasFile(entries, segments) <==> EntryHas(entries[0], segments) || HasFile(entries[1..], segments)
    ensures !HasFile([], segments)
  {
    hide EntryHas;
    if HasFile(entries[1..], segments) {
      var i :| 0 <= i < |entries[1..]| && EntryHas(entries[1..][i], segments);
      assert EntryHas(entries[i + 1], segments);
    }
  }

  /** The walk lists exactly the files whose path avoids .git at every level. */
  lemma {:induction false} WalkIsExact(entries: seq<Entry>, relative: string, path: string)
    requires ProperNames(entries) && (relative == "" || relative[|relative| - 1] != '/')
    ensures path in WalkFiles(entries, relative) <==> Lists(entries, relative, path)
    decreases entries, 1
  {
    hide EntryHas, WalkEntry, HasFile, Split;
    var prefix := if relative == "" then [] else Split(relative);
    if entries == [] {
      EmptyListsNothing(relative, path);
    } else {
      WalkIsExact(entries[1..], relative, path);
      EntryIsExact(entries[0], relative, path);
      if prefix <= Split(path) {
        HasFileCons(entries, Split(path)[|prefix|..]);
      }
    }
  }

  lemma EmptyListsNothing(relative: string, path: string)
    ensures !Lists([], relative, path)
  {
  }

  lemma EntryIsExact(entry: Entry, relative: string, path: string)
    requires ProperNames([entry]) && (relative == "" || relative[|relative| - 1] != '/')
    ensures var prefix := if relative == "" then [] else Split(relative);
            path in WalkEntry(entry, relative) <==> prefix <= Split(path) && EntryHas(entry, Split(path)[|prefix|..])
    decreases entry, 0
  {
    hide Split, HasFile;
    assert IsPlain([entry][0].name);
    var prefix := if relative == "" then [] else Split(relative);
    var child := ChildPath(relative, entry.name);
    ChildSegments(relative, entry.name);
    PrefixStep(prefix, entry.name, Split(path));
    match entry
    case File(name) =>
      JoinSplit(path);
      JoinSplit(child);
      assert path == child <==> Split(path) == prefix + [name];
    case Folder(name, children) =>
      assert ProperNames([entry][0].entries);
      WalkIsExact(children, child, path);
    case Special(_) =>
  }

  /** Where names differ within each folder, no path is listed twice. */
  lemma {:induction false} WalkHasNoRepeats(entries: seq<Entry>, relative: string)
    requires ProperNames(entries) && DistinctNames(entries) && (relative == "" || relative[|relative| - 1] != '/')
    ensures NoRepeats(WalkFiles(entries, relative))
    decreases entries
  {
    hide EntryHas, HasFile, Split;
    if entries != [] {
      DistinctParts(entries);
      WalkHasNoRepeats(entries[1..], relative);
      var entry := entries[0];
      assert entry == [entry][0];
      if entry.Folder? {
        ChildSegments(relative, entry.name);
        WalkHasNoRepeats(entry.entries, ChildPath(relative, entry.name));
      }
      forall path | path in WalkEntry(entry, relative) ensures path !in WalkFiles(entries[1..], relative) {
        EntryIsExact(entry, relative, path);
        WalkIsExact(entries[1..], relative, path);
      }
      NoRepeatsConcat(WalkEntry(entry, relative), WalkFiles(entries[1..], relative));
    }
  }

  lemma PrefixStep(prefix: seq<string>, name: string, segments: seq<string>)
    ensures prefix + [name] <= segments <==>
            prefix <= segments && segments[|prefix|..] != [] && segments[|prefix|..][0] == name
    ensures prefix + [name] <= segments ==> segments[|prefix|..][1..] == segments[|prefix + [name]|..]
    ensures segments == prefix + [name] <==>
            prefix <= segments && |segments[|prefix|..]| == 1 && segments[|prefix|..][0] == name
  {
  }
}
