/** The repository as mutable state, and the four tools that read and write it. */
module Workspace {
  import opened Base
  import opened Json
  import opened LineEndings
  import opened Listing
  import opened ReferenceSelection
  import opened EvidenceFields
  import opened Repository
  import opened EvidenceLocks
  import opened LockRun
  import opened ReferenceChain
  import opened Maintenance

  /** After i fixtures: what is left to do is the rest of the same pass. */
  ghost predicate FixturesHandled(step: (string, string) -> Step, start: map<string, string>, names: seq<string>,
                                  i: nat, chain: map<string, string>, changes: seq<Change>)
  {
    && i <= |names| && chain.Keys == start.Keys && (forall n :: n in names ==> n in start)
    && NoRepeats(names)
    && (forall j :: i <= j < |names| ==> chain[names[j]] == start[names[j]])
    && var all, rest := FixturePass(step, start, names), FixturePass(step, chain, names[i..]);
       all.ok == rest.ok && all.chain == rest.chain && all.changes == changes + rest.changes
  }

  lemma FixturesStep(step: (string, string) -> Step, start: map<string, string>, names: seq<string>, i: nat,
                     chain: map<string, string>, changes: seq<Change>)
    requires i < |names| && FixturesHandled(step, start, names, i, chain, changes)
    ensures names[i] in chain && chain[names[i]] == start[names[i]]
    ensures var next := step(names[i], chain[names[i]]);
            && (next.Throws? ==> !FixturePass(step, start, names).ok && FixturePass(step, start, names).chain == chain)
            && (next.Done? ==> FixturesHandled(step, start, names, i + 1, chain[names[i] := next.text],
                 changes + next.changes))
  {
    hide FixturePass;
    var rest := names[i..];
    assert rest[0] == names[i] && rest[1..] == names[i + 1..];
    PassUnfolds(step, chain, rest);
    var next := step(names[i], chain[names[i]]);
    if next.Done? {
      var after := FixturePass(step, chain[names[i] := next.text], names[i + 1..]);
      assert changes + (next.changes + after.changes) == changes + next.changes + after.changes;
    } else {
      assert changes + [] == changes;
    }
  }

  lemma PassUnfolds(step: (string, string) -> Step, chain: map<string, string>, names: seq<string>)
    requires names != [] && forall n :: n in names ==> n in chain
    ensures match step(names[0], chain[names[0]])
            case Throws => FixturePass(step, chain, names) == Pass(false, chain, [])
            case Done(text, changes) =>
              var rest := FixturePass(step, chain[names[0] := text], names[1..]);
              FixturePass(step, chain, names) == Pass(rest.ok, rest.chain, changes + rest.changes)
  {
  }

  lemma FixturesEnd(step: (string, string) -> Step, start: map<string, string>, names: seq<string>,
                    chain: map<string, string>, changes: seq<Change>)
    requires FixturesHandled(step, start, names, |names|, chain, changes)
    ensures FixturePass(step, start, names) == Pass(true, chain, changes)
  {
  }

  /** The sources owning the identity fields of the named fixtures. */
  function SeenIn(p: Platform, chain: map<string, string>, names: seq<string>): set<string>
    requires forall n :: n in names ==> n in chain
  {
    if names == [] then {}
    else SeenIn(p, chain, names[..|names| - 1]) + OwnedKeys(FieldsOf(p.parse(chain[names[|names| - 1]])))
  }

  lemma SeenInStep(p: Platform, chain: map<string, string>, names: seq<string>, i: nat)
    requires i <= |names| && forall n :: n in names ==> n in chain
    ensures SeenIn(p, chain, []) == {} && names[..0] == []
    ensures i < |names| ==> SeenIn(p, chain, names[..i + 1]) ==
                            SeenIn(p, chain, names[..i]) + OwnedKeys(FieldsOf(p.parse(chain[names[i]])))
  {
    hide OwnedKeys;
    if i < |names| {
      assert names[..i + 1][..i] == names[..i];
    }
  }

  lemma StepperMeans(o: Owners, mode: Mode, sel: Selection, historical: map<string, string>, n: string, t: string)
    ensures Stepper(o, mode, sel, historical)(n, t) == FixtureStep(o, mode, sel, historical, n, t)
  {
    hide FixtureStep;
  }

  lemma {:induction false} SeenInMeans(p: Platform, chain: map<string, string>, names: seq<string>)
    requires forall n :: n in names ==> n in chain
    ensures forall k :: k in SeenIn(p, chain, names) <==>
              exists n :: n in names && k in OwnedKeys(FieldsOf(p.parse(chain[n])))
  {
    hide OwnedKeys;
    if names != [] {
      SeenInMeans(p, chain, names[..|names| - 1]);
      assert names == names[..|names| - 1] + [names[|names| - 1]];
    }
  }

  lemma SeenInIsSeen(o: Owners, chain: map<string, string>, names: seq<string>)
    requires forall n :: n in names <==> n in FixtureNames(chain)
    ensures o.ids + SeenIn(o.platform, chain, names) == SeenSources(o, chain)
  {
    hide SourceOf, IsFixtureName;
    SeenInMeans(o.platform, chain, names);
    forall k ensures k in SeenIn(o.platform, chain, names) + o.ids <==> k in SeenSources(o, chain) {
    }
  }

  /** The pass over the fixtures of a state has handled i of them and reached another state. */
  ghost predicate PassState(o: Owners, step: (string, string) -> Step, before: State, now: State, names: seq<string>,
                            i: nat, changes: seq<Change>, seen: set<string>)
  {
    && i <= |names| && before.version in before.chains && now == before.WithChain(now.Chain())
    && FixturesHandled(step, before.Chain(), names, i, now.Chain(), changes)
    && seen == SeenIn(o.platform, before.Chain(), names[..i])
  }

  lemma ChainTwice(st: State, now: State, chain: map<string, string>)
    requires now == st.WithChain(now.Chain())
    ensures now.WithChain(chain) == st.WithChain(chain) && st.WithChain(chain).Chain() == chain
    ensures now.version in now.chains
  {
    assert st.chains[st.version := now.Chain()][st.version := chain] == st.chains[st.version := chain];
  }

  lemma PassStarts(o: Owners, step: (string, string) -> Step, st: State, names: seq<string>)
    requires st.version in st.chains && Ascending(names) && forall n :: n in names <==> n in FixtureNames(st.Chain())
    ensures PassState(o, step, st, st, names, 0, [], {})
  {
    hide FixtureNames, FixturesHandled, SeenIn, Ascending;
    AscendingHasNoDuplicates(names);
    NamesAreFiles(st.Chain());
    FixturesStart(step, st.Chain(), names);
    SeenInStep(o.platform, st.Chain(), names, 0);
    assert st.chains[st.version := st.chains[st.version]] == st.chains;
  }

  lemma PassSteps(o: Owners, mode: Mode, sel: Selection, before: State, now: State, names: seq<string>, i: nat,
                  changes: seq<Change>, seen: set<string>)
    requires i < |names|
    requires PassState(o, Stepper(o, mode, sel, before.historical), before, now, names, i, changes, seen)
    ensures now.version in now.chains && names[i] in now.Chain() && forall n :: n in names ==> n in before.Chain()
    ensures var step := Stepper(o, mode, sel, before.historical);
            var name, text := names[i], now.Chain()[names[i]];
            var next := FixtureStep(o, mode, sel, before.historical, name, text);
            var pass := FixturePass(step, before.Chain(), names);
            && (next.Throws? ==> !pass.ok && now == before.WithChain(pass.chain))
            && (next.Done? ==>
                  PassState(o, step, before, now.WithChain(now.Chain()[name := next.text]), names, i + 1,
                            changes + next.changes, seen + OwnedKeys(FieldsOf(o.platform.parse(text)))))
  {
    hide FixtureStep, FixturePass, OwnedKeys, SeenIn, Stepper, State.WithChain, State.Chain;
    var step := Stepper(o, mode, sel, before.historical);
    var name := names[i];
    FixturesStep(step, before.Chain(), names, i, now.Chain(), changes);
    hide FixturesHandled;
    StepperMeans(o, mode, sel, before.historical, name, now.Chain()[name]);
    SeenInStep(o.platform, before.Chain(), names, i);
    ChainTwice(before, now, now.Chain());
    var next := step(name, now.Chain()[name]);
    if next.Done? {
      ChainTwice(before, now, now.Chain()[name := next.text]);
    }
  }

  lemma PassEnds(o: Owners, step: (string, string) -> Step, before: State, now: State, names: seq<string>,
                 changes: seq<Change>, seen: set<string>)
    requires PassState(o, step, before, now, names, |names|, changes, seen)
    requires forall n :: n in names <==> n in FixtureNames(before.Chain())
    ensures forall n :: n in names ==> n in before.Chain()
    ensures FixturePass(step, before.Chain(), names) == Pass(true, now.Chain(), changes)
    ensures now == before.WithChain(now.Chain()) && o.ids + seen == SeenSources(o, before.Chain())
  {
    hide FixturePass, FixtureNames, SeenSources, SeenIn;
    FixturesEnd(step, before.Chain(), names, now.Chain(), changes);
    assert names[..|names|] == names;
    SeenInIsSeen(o, before.Chain(), names);
  }

  class Workspace {
    var version: string
    var historical: map<string, string>
    var chains: map<string, map<string, string>>
    var manifests: map<string, string>
    var selector: string
    var producers: map<string, string>

    function Snapshot(): State
      reads this
    {
      State(version, historical, chains, manifests, selector, producers)
    }

    constructor (st: State)
      ensures Snapshot() == st
    {
      version, historical, chains := st.version, st.historical, st.chains;
      manifests, selector, producers := st.manifests, st.selector, st.producers;
    }

    /** Writes one file of the selected chain. */
    method WriteSelected(name: string, text: string)
      modifies this`chains
      ensures Snapshot() == old(Snapshot()).WithChain(old(Snapshot()).Chain()[name := text]) && version in chains
    {
      chains := chains[version := Snapshot().Chain()[name := text]];
    }

    /** Handles one fixture and writes it if it changed; an exception leaves the repository as it is. */
    method MaintainFixture(run: LockRun, name: string) returns (ok: bool)
      requires run.Valid() && run.platform.Faithful()
      requires Snapshot().version in Snapshot().chains && name in Snapshot().Chain()
      modifies this`chains, run
      ensures run.Valid()
      ensures var before := old(Snapshot());
              var step := FixtureStep(run.Owner(), run.mode, run.sel, run.historical, name, before.Chain()[name]);
              && ok == step.Done?
              && Snapshot() == (if ok then before.WithChain(before.Chain()[name := step.text]) else before)
              && (ok ==> run.changes == old(run.changes) + step.changes)
              && (ok ==> run.seen == old(run.seen) + OwnedKeys(FieldsOf(run.platform.parse(before.Chain()[name]))))
    {
      hide FixtureStep, OwnedKeys;
      var text := Snapshot().Chain()[name];
      assert chains[version][name := text] == chains[version];
      var r := run.HandleFixture(name, text);
      if r == None {
        return false;
      }
      if r.value != text {
        WriteSelected(name, r.value);
      }
      return true;
    }

    /** Handles the fixtures one after another, writing each as soon as it is done. */
    method MaintainFixtures(run: LockRun) returns (ok: bool)
      requires run.Valid() && run.platform.Faithful() && Snapshot().version in Snapshot().chains
      requires run.historical == Snapshot().historical && run.seen == {} && run.changes == []
      modifies this`chains, run
      ensures run.Valid()
      ensures var before := old(Snapshot());
              var step := Stepper(run.Owner(), run.mode, run.sel, before.historical);
              var pass := FixturePass(step, before.Chain(), Sorted(FixtureNames(before.Chain())));
              && ok == pass.ok && Snapshot() == before.WithChain(pass.chain)
              && (ok ==> run.changes == pass.changes
                         && run.Owner().ids + run.seen == SeenSources(run.Owner(), before.Chain()))
    {
      hide *;
      ghost var before := Snapshot();
      ghost var o := run.Owner();
      ghost var step := Stepper(o, run.mode, run.sel, before.historical);
      var names := Sort(FixtureNames(Snapshot().Chain()));
      var i := 0;
      PassStarts(o, step, before, names);
      while i < |names|
        invariant i <= |names| && run.Valid()
        invariant PassState(o, step, before, Snapshot(), names, i, run.changes, run.seen)
      {
        PassSteps(o, run.mode, run.sel, before, Snapshot(), names, i, run.changes, run.seen);
        var handled := MaintainFixture(run, names[i]);
        if !handled {
          return false;
        }
        i := i + 1;
      }
      PassEnds(o, step, before, Snapshot(), names, run.changes, run.seen);
      return true;
    }

    /** What every run checks and reads first; null where that throws. */
    method Prepare(p: Platform, mode: Mode, source: Option<string>) returns (run: LockRun?)
      ensures run == null <==> Prelude(p, Snapshot()) == None
      ensures run != null ==>
                && fresh(run) && run.Valid() && Prelude(p, Snapshot()) == Some(run.Owner()) && run.platform == p
                && run.mode == mode && run.sel == SelectionOf(source) && run.historical == Snapshot().historical
                && run.seen == {} && run.changes == []
    {
      hide Descriptors, HistoricalBytesMatch, ReadManifest, Loader, SelectionOf;
      var manifest := ReadManifest(p, Snapshot(), version);
      if manifest == None || !HistoricalBytesMatch(p, Snapshot(), manifest.value) || CASES_FILE !in Snapshot().Chain() {
        return null;
      }
      var descriptors := Descriptors(p, Snapshot().Chain()[CASES_FILE]);
      if descriptors == None {
        return null;
      }
      run := new LockRun(p, producers, descriptors.value, historical, mode, SelectionOf(source));
    }

    /** Handles the lock file once the fixtures are done, and judges the run. */
    method MaintainLockFile(run: LockRun, source: Option<string>) returns (verdict: Verdict, changes: seq<Change>)
      requires run.Valid() && run.platform.Faithful() && run.sel == SelectionOf(source)
      requires Snapshot().version in Snapshot().chains
      modifies this`chains, run
      ensures var before := old(Snapshot());
              var known := source.Some? ==> source.value in run.Owner().ids + old(run.seen);
              Report(Snapshot(), verdict, changes) ==
              Finish(run.Owner(), run.mode, source, known, before, Pass(true, before.Chain(), old(run.changes)))
    {
      hide LocksStep, SelectionOf, LockRun.Owner, LockRun.Valid, Platform.Faithful;
      ghost var before := Snapshot();
      NothingWritten(before);
      if LOCKS_FILE !in Snapshot().Chain() {
        return Threw, [];
      }
      var text := Snapshot().Chain()[LOCKS_FILE];
      var r := run.HandleLocks(text);
      if r == None {
        return Threw, [];
      }
      if r.value != text {
        WriteSelected(LOCKS_FILE, r.value);
      }
      changes := run.changes;
      verdict := if source.Some? && source.value !in run.seen then Threw
                 else if run.mode.Check? && changes != [] then Drifted else Clean;
    }

    /** The evidence-lock tool. */
    method MaintainLocks(p: Platform, mode: Mode, source: Option<string>)
      returns (verdict: Verdict, changes: seq<Change>)
      requires p.Faithful()
      modifies this`chains
      ensures Report(Snapshot(), verdict, changes) == Run(p, mode, source, old(Snapshot()))
    {
      hide FixturePass, FixtureNames, SeenSources, Prelude, Finish, Stepper, SelectionOf, LockRun.Owner,
           LockRun.Valid, Platform.Faithful;
      ghost var before := Snapshot();
      PreludeNeedsChain(p, before);
      var run := Prepare(p, mode, source);
      if run == null {
        return Threw, [];
      }
      var ok := MaintainFixtures(run);
      if !ok {
        FailedPass(run.Owner(), mode, source, Known(run.Owner(), source, before), before);
        return Threw, [];
      }
      FinishFrom(run.Owner(), mode, source, Known(run.Owner(), source, before), before, Snapshot(), run.changes);
      verdict, changes := MaintainLockFile(run, source);
    }

    /** Copies the historical fixtures into the selected directory and digests them. */
    method CopyFixtures(p: Platform) returns (historicalFixtures: seq<Field>)
      requires version in chains && chains[version] == map[]
      modifies this`chains
      ensures Snapshot() == old(Snapshot()).WithChain(Copies(historical, FixtureSources(historical)))
      ensures historicalFixtures == Pins(p, historical, Sorted(FixtureSources(historical)))
    {
      hide Ascending, Before, Normalize, FixtureSources, Copies, Elements, Pins, Sorted, State.Chain, State.WithChain;
      ghost var before := Snapshot();
      var names := Sort(FixtureSources(historical));
      var i := 0;
      historicalFixtures := [];
      NothingCopied(p, before);
      SourcesAreFiles(historical);
      while i < |names|
        invariant i <= |names| && version in chains
        invariant Snapshot() == before.WithChain(Copies(historical, Elements(names[..i])))
        invariant historicalFixtures == Pins(p, historical, names[..i])
      {
        var name := names[i];
        assert names[..i + 1] == names[..i] + [name];
        CopyOneMore(before, historical, names[..i], name);
        PinOneMore(p, historical, names[..i], name);
        historicalFixtures := historicalFixtures + [Field(name, Str(p.digest(Normalize(historical[name]))))];
        WriteSelected(name, Normalize(historical[name]));
        i := i + 1;
      }
      assert names[..|names|] == names;
    }

    /** The initialisation tool: copies the historical fixtures and writes an unpinned manifest. */
    method InitializeChain(p: Platform) returns (ok: bool)
      modifies this`chains, this`manifests
      ensures Outcome(Snapshot(), ok) == Initialize(p, old(Snapshot()))
    {
      hide BaseManifest, Copies, Pins, FixtureSources, Link, Rank;
      if !Registered(version) || version in chains {
        return false;
      }
      chains := chains[version := map[]];
      var historicalFixtures := CopyFixtures(p);
      var manifest := BaseManifest(version, historicalFixtures);
      var previous := Predecessor(version);
      if previous.Some? {
        if previous.value !in manifests {
          return false;
        }
        manifest := manifest + [Field("previousSelection", Link(previous.value, p.Sha256(manifests[previous.value])))];
      }
      manifests := manifests[version := p.render(Obj(manifest))];
      return true;
    }

    /** Digests the selected fixtures; None when one of them changed its meaning. */
    method DigestSelection(p: Platform, pins: seq<Field>) returns (r: Option<seq<Field>>)
      ensures r.Some? <==> Pinnable(p, Snapshot(), pins)
      ensures r.Some? ==> r.value == Pins(p, Snapshot().Chain(), NamesOf(pins))
    {
      hide SameSemantics;
      var selectedFixtures, i := [], 0;
      while i < |pins|
        invariant i <= |pins| && Pinnable(p, Snapshot(), pins[..i])
        invariant selectedFixtures == Pins(p, Snapshot().Chain(), NamesOf(pins[..i]))
      {
        var name := pins[i].key;
        assert pins[..i + 1][i] == pins[i] && pins[..i + 1][..i] == pins[..i];
        if name !in Snapshot().Chain() || name !in historical
           || !SameSemantics(p, Snapshot().Chain()[name], historical[name]) {
          return None;
        }
        selectedFixtures := selectedFixtures + [Field(name, Str(p.Sha256(Snapshot().Chain()[name])))];
        i := i + 1;
      }
      assert pins[..|pins|] == pins;
      return Some(selectedFixtures);
    }

    /** The pin tool. */
    method PinSelection(p: Platform) returns (ok: bool)
      requires p.Faithful()
      modifies this`chains, this`manifests
      ensures Outcome(Snapshot(), ok) == Pin(p, old(Snapshot()))
    {
      hide Run, HistoricalBytesMatch, Pinnable, Rank, VersionOf;
      var read := ReadManifest(p, Snapshot(), version);
      if read == None || !read.value.Obj? || VersionOf(read.value) != Some(version)
         || !HistoricalBytesMatch(p, Snapshot(), read.value) {
        return false;
      }
      var fields := read.value.fields;
      HistoricalHasPins(p, Snapshot(), read.value);
      var pins := Entries(Property(read.value, "historicalFixtures")).value;
      CheckIsExact(p, None, Snapshot());
      var verdict, _ := MaintainLocks(p, Check, None);
      if verdict != Clean {
        return false;
      }
      var selectedFixtures := DigestSelection(p, pins);
      if selectedFixtures == None {
        return false;
      }
      fields := Put(fields, "selectedFixtures", Obj(selectedFixtures.value));
      fields := Put(fields, "selectionSourceSha256", Str(p.Sha256(selector)));
      manifests := manifests[version := p.render(Obj(fields))];
      return true;
    }

    /** The retained-chain part of the verification tool: from the head back to the oldest link. */
    method WalkChain(p: Platform, manifest: Json) returns (ok: bool)
      ensures ok == WalkAccepts(p, Snapshot(), manifest)
    {
      hide Retained, LinkOf;
      var retained := manifest;
      while LinkOf(retained).Some?
        invariant WalkAccepts(p, Snapshot(), manifest) == WalkAccepts(p, Snapshot(), retained)
        decreases ManifestRank(retained)
      {
        var previous := Retained(p, Snapshot(), retained);
        if previous == None {
          return false;
        }
        RetainedRankDrops(p, Snapshot(), retained);
        retained := previous.value;
      }
      return true;
    }

    /** The verification tool. */
    method VerifySelection(p: Platform) returns (ok: bool)
      ensures ok == Verifies(p, Snapshot())
    {
      hide WalkAccepts, HeadOk, FixtureOk, HistoricalBytesMatch;
      var manifest := ReadManifest(p, Snapshot(), version);
      if manifest == None || manifest.value == Null {
        return false;
      }
      var chained := WalkChain(p, manifest.value);
      if !chained || !HeadOk(p, Snapshot(), manifest.value) {
        return false;
      }
      HeadHasPins(p, Snapshot(), manifest.value);
      var pins, i := Entries(Property(manifest.value, "historicalFixtures")).value, 0;
      while i < |pins|
        invariant i <= |pins|
        invariant forall j :: 0 <= j < i ==> FixtureOk(p, Snapshot(), manifest.value, pins[j].key)
      {
        if !FixtureOk(p, Snapshot(), manifest.value, pins[i].key) {
          assert pins[i].key in KeysOf(pins);
          return false;
        }
        i := i + 1;
      }
      return true;
    }
  }

  lemma NothingWritten(st: State)
    requires st.version in st.chains
    ensures st.WithChain(st.Chain()) == st
    ensures forall n :: n in st.Chain() ==> st.Chain()[n := st.Chain()[n]] == st.Chain()
  {
    assert st.chains[st.version := st.chains[st.version]] == st.chains;
  }

  lemma PreludeNeedsChain(p: Platform, st: State)
    ensures Prelude(p, st).Some? ==> st.version in st.chains
  {
    hide Descriptors, HistoricalBytesMatch, ReadManifest;
  }

  lemma FailedPass(o: Owners, mode: Mode, source: Option<string>, known: bool, st: State)
    ensures forall pass: Pass :: !pass.ok ==>
              Finish(o, mode, source, known, st, pass) == Report(st.WithChain(pass.chain), Threw, [])
  {
    hide LocksStep;
  }

  lemma FinishFrom(o: Owners, mode: Mode, source: Option<string>, known: bool, before: State, now: State,
                   changes: seq<Change>)
    requires now == before.WithChain(now.Chain())
    ensures Finish(o, mode, source, known, now, Pass(true, now.Chain(), changes)) ==
            Finish(o, mode, source, known, before, Pass(true, now.Chain(), changes))
  {
    hide LocksStep;
    forall chain ensures now.WithChain(chain) == before.WithChain(chain) {
      ChainTwice(before, now, chain);
    }
  }

  lemma HistoricalHasPins(p: Platform, st: State, manifest: Json)
    ensures HistoricalBytesMatch(p, st, manifest) ==> Entries(Property(manifest, "historicalFixtures")).Some?
  {
  }

  lemma SourcesAreFiles(historical: map<string, string>)
    ensures forall n :: n in FixtureSources(historical) ==> n in historical
  {
  }

  lemma NothingCopied(p: Platform, st: State)
    requires st.version in st.chains && st.chains[st.version] == map[]
    ensures st.WithChain(Copies(st.historical, Elements([]))) == st && Pins(p, st.historical, []) == []
  {
    assert Copies(st.historical, Elements([])) == map[];
    assert st.chains[st.version := map[]] == st.chains;
  }

  lemma HeadHasPins(p: Platform, st: State, manifest: Json)
    ensures HeadOk(p, st, manifest) ==> Entries(Property(manifest, "historicalFixtures")).Some?
  {
  }

  lemma PinOneMore(p: Platform, files: map<string, string>, names: seq<string>, n: string)
    requires n in files && forall m :: m in names ==> m in files
    ensures Pins(p, files, names + [n]) == Pins(p, files, names) + [Field(n, Str(p.digest(Normalize(files[n]))))]
  {
    hide Normalize;
  }

  lemma CopyOneMore(st: State, historical: map<string, string>, names: seq<string>, n: string)
    requires n in historical
    ensures var now := st.WithChain(Copies(historical, Elements(names)));
            now.WithChain(now.Chain()[n := Normalize(historical[n])]) ==
            st.WithChain(Copies(historical, Elements(names + [n])))
  {
    hide Normalize;
    assert Elements(names + [n]) == Elements(names) + {n};
    var copied := Copies(historical, Elements(names));
    assert copied[n := Normalize(historical[n])] == Copies(historical, Elements(names + [n]));
    assert st.chains[st.version := copied][st.version := copied[n := Normalize(historical[n])]]
        == st.chains[st.version := copied[n := Normalize(historical[n])]];
  }

  lemma NamesAreFiles(chain: map<string, string>)
    ensures forall n :: n in FixtureNames(chain) ==> n in chain
  {
  }

  lemma FixturesStart(step: (string, string) -> Step, chain: map<string, string>, names: seq<string>)
    requires forall n :: n in names ==> n in chain
    requires NoRepeats(names)
    ensures FixturesHandled(step, chain, names, 0, chain, [])
  {
    assert names[0..] == names;
  }
}
