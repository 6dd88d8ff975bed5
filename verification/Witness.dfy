/**
 * Two concrete repositories with a history each. In the first every link is pinned before the next one
 * is initialised, and yet the next link is rejected. In the second a fixture holds a minus zero, which
 * a write loses: its check is clean, but it can neither be pinned nor written again.
 */
module Witness {
  import opened Base
  import opened Json
  import opened LineEndings
  import opened ReferenceSelection
  import opened EvidenceFields
  import opened FieldTheorems
  import opened Repository
  import opened EvidenceLocks
  import opened StepTheorems
  import opened LockFileTheorems
  import opened RunTheorems
  import opened Confluence
  import opened Maintenance
  import opened Meanings
  import opened Resumption
  import opened Preservation
  import opened ReferenceChain
  import opened ManifestTheorems
  import opened ChainTheorems
  import opened Printing
  import opened Lifecycle
  import opened Histories
  import opened Assumptions

  const ROOT_FILE := "root.json"
  const CONTROL_PATH := "conformance/search-compiler/build/root-control.json"
  const CONTROL := "root-control"

  function Zeros(): (s: string)
    ensures |s| == 64 && forall c :: c in s ==> IsHex(c)
  {
    seq(64, _ => '0')
  }

  const OLD: Identity := Digest(0, Zeros())
  const NEW: Identity := Digest(1, Zeros())

  const CASES_FIELDS := [Field("evidenceInputs", Arr([]))]
  const LOCKS_FIELDS := [Field("schema", Str(LOCKS_SCHEMA)), Field("identities", Obj([]))]

  /** The fixture owned by the root control; with a minus zero if asked for. */
  function RootFields(zero: bool): seq<Field> {
    [Field("rootControlProjection", IdentityRecord(OLD))] + if zero then [Field("x", Float(NEGATIVE_ZERO))] else []
  }

  /** A platform and the text of the fixture owned by the root control. */
  datatype Repo = Repo(p: Platform, root: string, zero: bool) {
    ghost predicate Usable() {
      p.Faithful() && p.parse(root) == Some(Obj(RootFields(zero))) && '\r' !in root
    }
  }

  /** The historical fixtures: no evidence inputs, no locks, and one fixture owned by the root control. */
  function Fixtures(r: Repo): map<string, string> {
    map[CASES_FILE := r.p.render(Obj(CASES_FIELDS)), LOCKS_FILE := r.p.render(Obj(LOCKS_FIELDS)),
        ROOT_FILE := r.root]
  }

  function Producers(p: Platform, d: Identity): map<string, string> {
    map[CONTROL_PATH := p.render(Obj([Field("identity", IdentityRecord(d))]))]
  }

  function Start(r: Repo): State {
    State(DEV1, Fixtures(r), map[], map[], "selector", Producers(r.p, OLD))
  }

  lemma NamesDiffer()
    ensures CASES_FILE != LOCKS_FILE && CASES_FILE != ROOT_FILE && LOCKS_FILE != ROOT_FILE
    ensures EndsWith(CASES_FILE, ".json") && EndsWith(LOCKS_FILE, ".json") && EndsWith(ROOT_FILE, ".json")
    ensures IsDirectChild(CASES_FILE) && IsDirectChild(LOCKS_FILE) && IsDirectChild(ROOT_FILE)
  {
    assert |CASES_FILE| == 22 && |LOCKS_FILE| == 31 && |ROOT_FILE| == 9;
    assert CASES_FILE[17..] == ".json" && LOCKS_FILE[26..] == ".json" && ROOT_FILE[4..] == ".json";
  }

  // ----- the texts and what is read from them

  lemma RecordReads(p: Platform, d: Identity, key: string)
    requires p.Faithful() && !IsIndexKey(key)
    ensures var j := Obj([Field(key, IdentityRecord(d))]);
            WellFormed(j) && p.parse(p.render(j)) == Some(j) && '\r' !in p.render(j)
  {
    hide IdentityRecord, IsIndexKey;
    RecordReadsBack(d);
    RecordStored(p, d);
    var fields := [Field(key, IdentityRecord(d))];
    NoIndexKeys(fields);
    assert p.StoredFields(fields) == fields;
    assert WellFormed(Obj(fields));
  }

  lemma CasesRead(p: Platform)
    requires p.Faithful()
    ensures p.parse(p.render(Obj(CASES_FIELDS))) == Some(Obj(CASES_FIELDS)) && '\r' !in p.render(Obj(CASES_FIELDS))
  {
    assert "evidenceInputs"[0] == 'e';
    NoIndexKeys(CASES_FIELDS);
    assert WellFormed(Obj(CASES_FIELDS));
    assert p.Stored(Arr([])) == Arr([]);
    assert p.StoredFields(CASES_FIELDS) == CASES_FIELDS;
  }

  lemma LocksRead(p: Platform)
    requires p.Faithful()
    ensures p.parse(p.render(Obj(LOCKS_FIELDS))) == Some(Obj(LOCKS_FIELDS)) && '\r' !in p.render(Obj(LOCKS_FIELDS))
  {
    assert "schema"[0] == 's' && "identities"[0] == 'i';
    NoIndexKeys(LOCKS_FIELDS);
    assert WellFormed(Obj(LOCKS_FIELDS));
    assert p.StoredFields([]) == [];
    assert p.StoredFields(LOCKS_FIELDS) == LOCKS_FIELDS;
  }

  lemma FixturesRead(r: Repo)
    requires r.Usable()
    ensures r.p.parse(Fixtures(r)[CASES_FILE]) == Some(Obj(CASES_FIELDS))
    ensures r.p.parse(Fixtures(r)[LOCKS_FILE]) == Some(Obj(LOCKS_FIELDS))
    ensures r.p.parse(Fixtures(r)[ROOT_FILE]) == Some(Obj(RootFields(r.zero)))
    ensures forall n :: n in Fixtures(r) ==> '\r' !in Fixtures(r)[n]
  {
    hide Platform.Faithful;
    NamesDiffer();
    CasesRead(r.p);
    LocksRead(r.p);
  }

  lemma FixturesAreNamed(r: Repo)
    ensures FixtureNames(Fixtures(r)) == {CASES_FILE, ROOT_FILE}
    ensures FixtureSources(Fixtures(r)) == {CASES_FILE, LOCKS_FILE, ROOT_FILE} == Fixtures(r).Keys
  {
    hide EndsWith;
    NamesDiffer();
  }

  /** What a run reads first, and the identity of the root control. */
  ghost predicate Stands(r: Repo, st: State, d: Identity) {
    && st.version == DEV1 && st.Chain() == Fixtures(r) && st.historical == Fixtures(r) && DEV1 in st.chains
    && st.producers == Producers(r.p, d) && ReadManifest(r.p, st, DEV1).Some?
    && HistoricalBytesMatch(r.p, st, ReadManifest(r.p, st, DEV1).value)
  }

  lemma ControlLoads(p: Platform, d: Identity, descriptors: map<string, string>)
    requires p.Faithful()
    ensures LoadSource(p, Producers(p, d), descriptors, RootControl) == Some(d)
  {
    hide Platform.Faithful, IdentityRecord, AsIdentity;
    assert "identity"[0] == 'i';
    RecordReads(p, d, "identity");
    RecordReadsBack(d);
  }

  lemma PreludeStands(r: Repo, st: State, d: Identity)
    requires r.Usable() && Stands(r, st, d)
    ensures Prelude(r.p, st).Some?
    ensures var o := Prelude(r.p, st).value; o.platform == r.p && o.ids == {} && o.load(RootControl) == Some(d)
  {
    hide Platform.Faithful, ReadManifest, HistoricalBytesMatch, LoadSource, Rank;
    NamesDiffer();
    FixturesRead(r);
    assert Find(CASES_FIELDS, "evidenceInputs") == Some(Arr([]));
    ControlLoads(r.p, d, map[]);
  }

  // ----- the three fixtures

  lemma PlainFieldsAreFree(o: Owners, sel: Selection)
    requires o.ids == {}
    ensures FieldsSound(o, sel, CASES_FIELDS) && !SomeFieldDrifts(o, sel, CASES_FIELDS)
    ensures LocksSound(o, sel, LOCKS_FIELDS) && !SomeLockDrifts(o, sel, IdsOf(LOCKS_FIELDS))
  {
    assert SourceOf(CASES_FIELDS[0]) == Free;
    assert |"schema"| == 6 && |"identities"| == 10;
    IndexIsUnique(LOCKS_FIELDS, 0);
    IndexIsUnique(LOCKS_FIELDS, 1);
  }

  lemma RootIsOwned(zero: bool)
    ensures SourceOf(RootFields(zero)[0]) == Owned(RootControl) && AsIdentity(RootFields(zero)[0].value) == Some(OLD)
    ensures zero ==> SourceOf(RootFields(zero)[1]) == Free
  {
    RecordReadsBack(OLD);
    assert |"rootControlProjection"| == 21 && |"composerEvidence"| == 16 && |"profileProjection"| == 17;
    assert |"x"| == 1 && |"Evidence"| == 8;
  }

  /** The root fixture is sound, and stale exactly when the producer has another identity and is selected. */
  lemma RootDrifts(o: Owners, sel: Selection, d: Identity, zero: bool)
    requires o.load(RootControl) == Some(d)
    ensures FieldsSound(o, sel, RootFields(zero)) && RewriteSound(o, sel, RootFields(zero))
    ensures SomeFieldDrifts(o, sel, RootFields(zero)) <==> sel.Selects(CONTROL) && d != OLD
  {
    hide SourceOf, AsIdentity, IdentityRecord, IsIdentityShape;
    RootIsOwned(zero);
    assert RootFields(zero)[0].key == "rootControlProjection" && (zero ==> RootFields(zero)[1].key == "x");
    assert |"rootControlProjection"| == 21 && |"schedules"| == 9 && |"composerEvidence"| == 16 && |"x"| == 1;
    assert !Has(RootFields(zero), "schedules") && !Has(RootFields(zero), "composerEvidence");
    if sel.Selects(CONTROL) && d != OLD {
      assert Drifts(o, sel, RootFields(zero)[0]);
    }
  }

  lemma NothingThrows(zero: bool)
    ensures !ProjectionThrows(CASES_FIELDS) && !ProjectionThrows(LOCKS_FIELDS) && !ProjectionThrows(RootFields(zero))
  {
    hide IdentityRecord;
    assert |"evidenceInputs"| == 14 && |"schema"| == 6 && |"identities"| == 10 && |"schedules"| == 9
        && |"rootControlProjection"| == 21 && |"x"| == 1;
    IndexIsUnique(LOCKS_FIELDS, 1);
    assert Find(LOCKS_FIELDS, "schedules") == None;
  }

  lemma FixturesMean(r: Repo)
    requires r.Usable()
    ensures forall n :: n in Fixtures(r) ==> SameSemantics(r.p, Fixtures(r)[n], Fixtures(r)[n])
  {
    hide Platform.Faithful, MeaningOf, ProjectFields, ProjectionThrows;
    NamesDiffer();
    FixturesRead(r);
    NothingThrows(r.zero);
  }

  // ----- the history

  lemma InitializedStands(r: Repo)
    requires r.Usable()
    ensures Initialize(r.p, Start(r)).ok && Stands(r, Initialize(r.p, Start(r)).state, OLD)
    ensures var manifest := ReadManifest(r.p, Initialize(r.p, Start(r)).state, DEV1).value;
            && VersionOf(manifest) == Some(DEV1) && manifest.Obj?
            && Entries(Property(manifest, "historicalFixtures")).Some?
            && KeysOf(Entries(Property(manifest, "historicalFixtures")).value) == Fixtures(r).Keys
            && Property(manifest, "historicalFixtures").value.Obj?
  {
    hide Platform.Faithful, Initialize, HistoricalBytesMatch, FixtureSources, Copies, Fixtures, PinsMatch, KeysOf;
    VersionsDiffer();
    StartInitializes(r);
    NamesDiffer();
    FixturesAreDirect(r);
    InitializedMatchesHistory(r.p, Start(r));
    InitializeUnfolds(r.p, Start(r));
    InitializeMeans(r.p, Start(r));
    FixturesAreCopied(r);
    InitializedProducers(r);
    NewManifestRecords(r.p, Start(r));
  }

  lemma FixturesAreDirect(r: Repo)
    ensures forall n :: n in Fixtures(r) ==> IsDirectChild(n)
  {
    hide IsDirectChild;
    NamesDiffer();
  }

  lemma StartInitializes(r: Repo)
    ensures Initialize(r.p, Start(r)).ok
  {
    hide BaseManifest, Copies, Pins, FixtureSources, Fixtures;
    VersionsDiffer();
  }

  lemma InitializedProducers(r: Repo)
    ensures var after := Initialize(r.p, Start(r)).state; after.producers == Producers(r.p, OLD) && DEV1 in after.chains
  {
    hide NewManifest, Copies, FixtureSources, Fixtures, Producers;
    VersionsDiffer();
    StartInitializes(r);
  }

  lemma FixturesAreCopied(r: Repo)
    requires r.Usable()
    ensures Copies(Fixtures(r), FixtureSources(Fixtures(r))) == Fixtures(r)
  {
    hide Platform.Faithful, Fixtures, Normalize, FixtureSources;
    FixturesRead(r);
    FixturesAreNamed(r);
    forall n | n in Fixtures(r) ensures Normalize(Fixtures(r)[n]) == Fixtures(r)[n] {
      NormalizeFixedPoints(Fixtures(r)[n]);
    }
  }

  /** With the producer unchanged the full check is clean. */
  lemma CheckIsClean(r: Repo, st: State)
    requires r.Usable() && Stands(r, st, OLD)
    ensures Run(r.p, Check, None, st).verdict == Clean
  {
    hide Run, Prelude, FieldsSound, SomeFieldDrifts, LocksSound, SomeLockDrifts, Platform.Faithful, FixtureNames,
         Fixtures, HistoricalBytesMatch, ReadManifest;
    NamesDiffer();
    FixturesRead(r);
    FixturesAreNamed(r);
    PreludeStands(r, st, OLD);
    CheckIsExact(r.p, None, st);
    var o := Prelude(r.p, st).value;
    PlainFieldsAreFree(o, All);
    RootDrifts(o, All, OLD, r.zero);
    forall n | n in FixtureNames(st.Chain()) ensures UpToDate(o, All, st.Chain()[n]) {
      assert n == CASES_FILE || n == ROOT_FILE;
    }
    assert LOCKS_FILE in Fixtures(r) && LocksUpToDate(o, All, st.Chain()[LOCKS_FILE]);
  }

  lemma PinSucceeds(r: Repo, st: State)
    requires r.Usable() && Stands(r, st, OLD)
    requires var manifest := ReadManifest(r.p, st, DEV1).value;
             && VersionOf(manifest) == Some(DEV1) && manifest.Obj?
             && Entries(Property(manifest, "historicalFixtures")).Some?
             && KeysOf(Entries(Property(manifest, "historicalFixtures")).value) == Fixtures(r).Keys
    ensures Pin(r.p, st).ok
  {
    hide Run, Prelude, SameSemantics, Platform.Faithful, Fixtures, HistoricalBytesMatch, Pinned, VersionOf;
    CheckIsClean(r, st);
    FixturesMean(r);
    var pins := Entries(Property(ReadManifest(r.p, st, DEV1).value, "historicalFixtures")).value;
    forall i | 0 <= i < |pins| ensures pins[i].key in Fixtures(r) {
      assert pins[i].key in KeysOf(pins);
    }
  }

  /** After the producer has moved on, writing its source succeeds and the root fixture was stale. */
  lemma WriteSucceeds(r: Repo, st: State)
    requires r.Usable() && Stands(r, st, NEW)
    ensures Prelude(r.p, st).Some? && Run(r.p, Write, Some(CONTROL), st).verdict == Clean
    ensures ROOT_FILE in FixtureNames(st.Chain())
    ensures !UpToDate(Prelude(r.p, st).value, Only({CONTROL}), st.Chain()[ROOT_FILE])
  {
    hide Run, Prelude, FieldsSound, RewriteSound, SomeFieldDrifts, LocksSound, SomeLockDrifts, Platform.Faithful,
         FixtureNames, Fixtures, HistoricalBytesMatch, ReadManifest, FixtureStep, Projection, SourceOf, SameSemantics;
    NamesDiffer();
    FixturesRead(r);
    FixturesAreNamed(r);
    FixturesMean(r);
    PreludeStands(r, st, NEW);
    WriteSettles(r.p, CONTROL, st);
    var o, sel := Prelude(r.p, st).value, Only({CONTROL});
    PlainFieldsAreFree(o, sel);
    RootDrifts(o, sel, NEW, r.zero);
    CasesAreSound(o, sel);
    forall n | n in FixtureNames(st.Chain()) ensures StepOk(o, sel, st.historical, n, st.Chain()[n]) {
      assert n == CASES_FILE || n == ROOT_FILE;
      GuardJudgesTheInput(o, sel, st.historical, n, st.Chain()[n]);
      OwnTextIsAligned(r.p, Fixtures(r), n);
    }
    assert LOCKS_FILE in Fixtures(r) && LocksOk(o, sel, st.Chain()[LOCKS_FILE]);
    RootIsSeen(r, o, st);
  }

  lemma CasesAreSound(o: Owners, sel: Selection)
    requires FieldsSound(o, sel, CASES_FIELDS)
    ensures RewriteSound(o, sel, CASES_FIELDS)
  {
    hide FieldsSound;
    assert |"evidenceInputs"| == 14 && |"schedules"| == 9;
    assert !Has(CASES_FIELDS, "schedules");
  }

  lemma OwnTextIsAligned(p: Platform, files: map<string, string>, n: string)
    requires n in files && SameSemantics(p, files[n], files[n])
    ensures p.parse(files[n]).Some? && Aligned(p, files, n, p.parse(files[n]).value)
  {
    hide Projection, MeaningOf;
  }

  lemma RootIsSeen(r: Repo, o: Owners, st: State)
    requires r.Usable() && o.platform == r.p && st.Chain() == Fixtures(r)
    ensures CONTROL in SeenSources(o, st.Chain())
  {
    hide Platform.Faithful, Fixtures, FixtureNames, SourceOf;
    FixturesRead(r);
    FixturesAreNamed(r);
    RootIsOwned(r.zero);
    assert ROOT_FILE in FixtureNames(st.Chain());
    assert FieldsOf(r.p.parse(st.Chain()[ROOT_FILE])) == RootFields(r.zero);
    assert SourceOf(RootFields(r.zero)[0]).source.Key() == CONTROL;
  }

  /** The state after the pin, once the producer has moved on. */
  lemma PinnedStands(r: Repo, st: State)
    requires r.Usable() && Stands(r, st, OLD) && Pin(r.p, st).ok
    requires var pins := Property(ReadManifest(r.p, st, DEV1).value, "historicalFixtures");
             pins.Some? && pins.value.Obj? && KeysOf(pins.value.fields) == Fixtures(r).Keys
    ensures Stands(r, Pin(r.p, st).state.(producers := Producers(r.p, NEW)), NEW)
    ensures ROOT_FILE in NamesOf(PinsOf(r.p, Pin(r.p, st).state.(producers := Producers(r.p, NEW)), DEV1))
  {
    hide Pin, Run, Platform.Faithful, Fixtures, PinsMatch, Producers, KeysOf, Platform.Stored, Platform.StoredFields,
         LinkOf;
    PinMeans(r.p, st);
    var before := ReadManifest(r.p, st, DEV1).value;
    var manifest := ReadManifest(r.p, Pin(r.p, st).state, DEV1).value;
    var pins := Property(before, "historicalFixtures");
    StoredKeepsKind(r.p, pins.value);
    EntriesStored(r.p, pins);
    SameKeysSameSet(pins.value.fields, r.p.StoredFields(pins.value.fields));
    FixturesAreNamed(r);
    var table := PinsOf(r.p, Pin(r.p, st).state, DEV1);
    assert ROOT_FILE in KeysOf(table);
    KeyIsNamed(table, ROOT_FILE);
  }

  lemma KeyIsNamed(pins: seq<Field>, n: string)
    requires n in KeysOf(pins)
    ensures n in NamesOf(pins)
  {
    var i :| 0 <= i < |pins| && pins[i].key == n;
    assert NamesOf(pins)[i] == n;
  }

  /** Initialise, pin, let the producer write new evidence, maintain the locks, advance the version, initialise. */
  function History(p: Platform): seq<Action> {
    [InitializeChain, PinSelection, Produce(Producers(p, NEW)), MaintainLocks(Write, Some(CONTROL)), AdvanceVersion,
     InitializeChain]
  }

  lemma PlayFirst(p: Platform, a: Action, rest: seq<Action>, st: State)
    ensures Play(p, [a] + rest, st) == Play(p, rest, Effect(p, a, st))
  {
    hide Effect;
    assert ([a] + rest)[1..] == rest;
  }

  lemma HistoryUnfolds(p: Platform, st: State)
    ensures Play(p, History(p), st) ==
            Effect(p, InitializeChain, Effect(p, AdvanceVersion, Effect(p, MaintainLocks(Write, Some(CONTROL)),
              Effect(p, Produce(Producers(p, NEW)), Effect(p, PinSelection, Effect(p, InitializeChain, st))))))
  {
    hide Effect, Producers;
    var h := History(p);
    assert h == [h[0]] + h[1..] && h[1..] == [h[1]] + h[2..] && h[2..] == [h[2]] + h[3..];
    assert h[3..] == [h[3]] + h[4..] && h[4..] == [h[4]] + h[5..] && h[5..] == [h[5]] + [];
    var s1 := Effect(p, h[0], st);
    var s2 := Effect(p, h[1], s1);
    var s3 := Effect(p, h[2], s2);
    var s4 := Effect(p, h[3], s3);
    var s5 := Effect(p, h[4], s4);
    PlayFirst(p, h[0], h[1..], st);
    PlayFirst(p, h[1], h[2..], s1);
    PlayFirst(p, h[2], h[3..], s2);
    PlayFirst(p, h[3], h[4..], s3);
    PlayFirst(p, h[4], h[5..], s4);
    PlayFirst(p, h[5], [], s5);
  }

  /** The second link is made: its version has no chain yet and the first manifest is there. */
  lemma SecondLinkIsMade(r: Repo, st: State, moved: State)
    requires r.Usable() && Initialize(r.p, Start(r)).ok && st == Initialize(r.p, Start(r)).state && Pin(r.p, st).ok
    requires st.version == DEV1 && DEV1 in st.chains && moved == Pin(r.p, st).state.(producers := Producers(r.p, NEW))
    ensures Successor(DEV1) == Some(DEV2)
    ensures Initialize(r.p, Effect(r.p, AdvanceVersion, Run(r.p, Write, Some(CONTROL), moved).state)).ok
  {
    hide Initialize, Pin, Run, Fixtures, Producers, Effect, Platform.Faithful;
    VersionsDiffer();
    PinKeepsChains(r.p, st);
    PinnedLink(r.p, st);
    AdvancedAfterWrite(r.p, moved);
    OnlyFirstChain(r);
    SecondInitializes(r.p, Effect(r.p, AdvanceVersion, Run(r.p, Write, Some(CONTROL), moved).state));
  }

  lemma PinKeepsChains(p: Platform, st: State)
    requires p.Faithful() && Pin(p, st).ok
    ensures Pin(p, st).state.chains == st.chains
  {
    hide Pin, Run, SelectedBytesMatch, PinTablesAgree, HistoricalBytesMatch, LinkOf, LinkPrintsAsNull;
    PinMeans(p, st);
  }

  lemma AdvancedAfterWrite(p: Platform, st: State)
    requires st.version == DEV1
    ensures Successor(DEV1) == Some(DEV2)
    ensures var last := Effect(p, AdvanceVersion, Run(p, Write, Some(CONTROL), st).state);
            last.version == DEV2 && last.chains.Keys == st.chains.Keys && last.manifests == st.manifests
  {
    hide Run;
    VersionsDiffer();
    RunFrame(p, Write, Some(CONTROL), st);
  }

  lemma OnlyFirstChain(r: Repo)
    ensures DEV2 !in Initialize(r.p, Start(r)).state.chains
  {
    hide NewManifest, Copies, FixtureSources, Fixtures;
    VersionsDiffer();
  }

  lemma SecondInitializes(p: Platform, st: State)
    requires st.version == DEV2 && DEV2 !in st.chains && DEV1 in st.manifests
    ensures Initialize(p, st).ok
  {
    hide BaseManifest, Copies, Pins, FixtureSources, Link;
    VersionsDiffer();
  }

  lemma StartIsSound(r: Repo)
    ensures Sound(r.p, Start(r))
  {
    hide Accepted, ChainFaithful, Fixtures;
  }

  /** The repository after its first link was initialised and pinned, and the producer has moved on. */
  function Moved(p: Platform, first: State): State {
    first.(producers := Producers(p, NEW))
  }

  lemma FirstLink(r: Repo)
    requires r.Usable()
    ensures var st := Initialize(r.p, Start(r)).state;
            && Initialize(r.p, Start(r)).ok && Pin(r.p, st).ok && st.version == DEV1 && DEV1 in st.chains
            && Sealed(r.p, Pin(r.p, st).state, DEV1)
            && Stands(r, Moved(r.p, Pin(r.p, st).state), NEW)
            && ROOT_FILE in NamesOf(PinsOf(r.p, Moved(r.p, Pin(r.p, st).state), DEV1))
  {
    hide Initialize, Pin, Stands, Fixtures, Producers, Platform.Faithful, Sealed, PinsOf, NamesOf, KeysOf, Property,
         VersionOf;
    InitializedStands(r);
    var st := Initialize(r.p, Start(r)).state;
    StandsAtFirst(r, st, OLD);
    StandsReads(r, st, OLD);
    PinSucceeds(r, st);
    PinSeals(r.p, st);
    PinnedStands(r, st);
  }

  lemma StandsReads(r: Repo, st: State, d: Identity)
    ensures Stands(r, st, d) ==> ReadManifest(r.p, st, DEV1).Some?
  {
    hide Fixtures, Producers, HistoricalBytesMatch, ReadManifest;
  }

  lemma SecondLink(r: Repo)
    requires r.Usable() && forall a, b :: !r.p.Clash(a, b)
    ensures var st := Initialize(r.p, Start(r)).state;
            var written := Run(r.p, Write, Some(CONTROL), Moved(r.p, Pin(r.p, st).state)).state;
            var last := Effect(r.p, AdvanceVersion, written);
            && last.version == DEV2 && Initialize(r.p, last).ok && !Accepted(r.p, Initialize(r.p, last).state, DEV2)
  {
    hide Initialize, Pin, Run, Stands, Fixtures, Producers, Prelude, UpToDate, Accepted, Sealed, Platform.Faithful,
         Platform.Clash, FixtureNames, PinsOf, NamesOf, Effect;
    FirstLink(r);
    var st := Initialize(r.p, Start(r)).state;
    var moved := Moved(r.p, Pin(r.p, st).state);
    WriteSucceeds(r, moved);
    SecondLinkIsMade(r, st, moved);
    WriteAfterPinDooms(r.p, st, Producers(r.p, NEW), CONTROL, ROOT_FILE, []);
    StandsAtFirst(r, moved, NEW);
    VersionsDiffer();
    WriteThenAdvance(r.p, moved, CONTROL);
  }

  /** The plain repository. */
  lemma PlainRepo() returns (r: Repo)
    ensures r.Usable() && !r.zero && forall a, b :: !r.p.Clash(a, b)
  {
    hide IsCoded, Platform.Faithful;
    var p := CodedPlatform();
    CodedIsFaithful(p);
    assert "rootControlProjection"[0] == 'r';
    RecordReads(p, OLD, "rootControlProjection");
    var fields := RootFields(false);
    assert fields == [Field("rootControlProjection", IdentityRecord(OLD))];
    r := Repo(p, p.render(Obj(fields)), false);
  }

  /**
   * Pinning each link before the next one is initialised is not enough: in this history the first
   * link is initialised and pinned, and the second one is made but rejected.
   */
  lemma PinningIsNotEnough() returns (p: Platform, start: State)
    ensures p.Faithful() && Sound(p, start)
    ensures Sealed(p, Play(p, [InitializeChain, PinSelection], start), DEV1)
    ensures var last := Play(p, History(p), start); DEV2 in last.manifests && !Accepted(p, last, DEV2)
  {
    hide IsCoded, Initialize, Pin, Run, Stands, Fixtures, Producers, Accepted, Sound, Sealed, Platform.Faithful,
         Platform.Clash, PinsOf, NamesOf, Play;
    var r := PlainRepo();
    p, start := r.p, Start(r);
    StartIsSound(r);
    FirstLink(r);
    FirstTwo(r);
    SecondLink(r);
    HistoryUnfolds(p, start);
    var moved := Moved(p, Pin(p, Initialize(p, start).state).state);
    ManifestIsThere(p, Effect(p, AdvanceVersion, Run(p, Write, Some(CONTROL), moved).state));
  }

  lemma ManifestIsThere(p: Platform, st: State)
    requires p.Faithful() && Initialize(p, st).ok
    ensures st.version in Initialize(p, st).state.manifests
  {
    hide NewManifest, Copies, FixtureSources;
  }

  lemma StandsAtFirst(r: Repo, st: State, d: Identity)
    ensures Stands(r, st, d) ==> st.version == DEV1 && DEV1 in st.chains
  {
    hide Fixtures, Producers, HistoricalBytesMatch, ReadManifest;
  }

  lemma FirstTwo(r: Repo)
    ensures Play(r.p, [InitializeChain, PinSelection], Start(r)) == Pin(r.p, Initialize(r.p, Start(r)).state).state
  {
    hide Initialize, Pin, Fixtures, Producers;
    PlayFirst(r.p, InitializeChain, [PinSelection], Start(r));
    PlayFirst(r.p, PinSelection, [], Initialize(r.p, Start(r)).state);
    assert [InitializeChain] + [PinSelection] == [InitializeChain, PinSelection] &&
           [PinSelection] + [] == [PinSelection];
  }

  // ----- a minus zero

  /** The repository whose root fixture holds a minus zero. */
  lemma ZeroRepo() returns (r: Repo)
    ensures r.Usable() && r.zero
  {
    hide IsCoded, Platform.Faithful, RootFields, Code, WellFormed;
    var p := CodedPlatform();
    CodedIsFaithful(p);
    ZeroIsWellFormed();
    r := Repo(p, Code(Obj(RootFields(true))), true);
  }

  lemma ZeroIsWellFormed()
    ensures WellFormed(Obj(RootFields(true)))
  {
    hide IdentityRecord, IsIndexKey, IndexKeysFirst;
    RecordReadsBack(OLD);
    var fields := RootFields(true);
    assert |fields[0].key| == 21 && |fields[1].key| == 1;
    RootKeysAreNames();
    NoIndexKeys(fields);
  }

  lemma RootKeysAreNames()
    ensures forall f :: f in RootFields(true) ==> !IsIndexKey(f.key)
  {
    assert "rootControlProjection"[0] == 'r' && "x"[0] == 'x';
  }

  lemma ZeroIsNotDurable(r: Repo)
    requires r.Usable() && r.zero
    ensures !DurableText(r.p, r.root)
  {
    hide Platform.Faithful, IdentityRecord, ProjectFields, ProjectionThrows, Durable;
    NothingThrows(true);
    NegativeZeroIsNotDurable(r.p, RootFields(true), 1);
  }

  lemma OnlyControlIsSeen(r: Repo, o: Owners, st: State)
    requires r.Usable() && o.platform == r.p && o.ids == {} && st.Chain() == Fixtures(r)
    ensures SeenSources(o, st.Chain()) <= {CONTROL}
  {
    hide Platform.Faithful, Fixtures, FixtureNames, SourceOf;
    FixturesRead(r);
    FixturesAreNamed(r);
    RootIsOwned(r.zero);
    CasesAreFree();
  }

  lemma CasesAreFree()
    ensures SourceOf(CASES_FIELDS[0]) == Free
  {
    assert |"evidenceInputs"| == 14;
  }

  /** The write succeeds, the full check is clean afterwards, and the root fixture means something else. */
  lemma WriteLosesZero(r: Repo, st: State)
    requires r.Usable() && r.zero && Stands(r, st, NEW)
    ensures var run := Run(r.p, Write, Some(CONTROL), st);
            && run.verdict == Clean && Run(r.p, Check, None, run.state).verdict == Clean
            && ROOT_FILE in run.state.Chain() && ROOT_FILE in run.state.historical
            && Semantics(r.p, run.state.Chain()[ROOT_FILE]) != Semantics(r.p, run.state.historical[ROOT_FILE])
  {
    hide Run, Prelude, SeenSources, SomeFieldDrifts, Fixtures, FixtureNames, HistoricalBytesMatch, ReadManifest,
         Semantics, DurableText, Platform.Faithful, Producers, FieldsSound, RewriteSound;
    NamesDiffer();
    WriteSucceeds(r, st);
    RunFrame(r.p, Write, Some(CONTROL), st);
    PreludeStands(r, st, NEW);
    var o := Prelude(r.p, st).value;
    OnlyControlIsSeen(r, o, st);
    AllAreWritten(r.p, st);
    CleanWriteKeepsSemantics(r.p, CONTROL, st, ROOT_FILE);
    ZeroIsNotDurable(r);
    FixturesRead(r);
    RootDrifts(o, Only({CONTROL}), NEW, r.zero);
    RootText(r);
  }

  lemma RootText(r: Repo)
    ensures Fixtures(r)[ROOT_FILE] == r.root
  {
    NamesDiffer();
  }

  lemma AllAreWritten(p: Platform, st: State)
    requires p.Faithful() && Run(p, Write, Some(CONTROL), st).verdict == Clean && Prelude(p, st).Some?
    requires SeenSources(Prelude(p, st).value, st.Chain()) <= {CONTROL}
    ensures Run(p, Check, None, Run(p, Write, Some(CONTROL), st).state).verdict == Clean
  {
    hide Run, Prelude, SeenSources, Platform.Faithful;
    assert [CONTROL][1..] == [];
    WritingEverythingIsClean(p, [CONTROL], st);
  }

  /** A pin refuses a selection in which a pinned fixture means something else. */
  lemma PinRefuses(p: Platform, st: State, n: string)
    requires ReadManifest(p, st, st.version).Some?
    requires var pins := Entries(Property(ReadManifest(p, st, st.version).value, "historicalFixtures"));
             pins.Some? && n in KeysOf(pins.value)
    requires n in st.Chain() && n in st.historical && Semantics(p, st.Chain()[n]) != Semantics(p, st.historical[n])
    ensures !Pin(p, st).ok
  {
    hide Pin, Run, Semantics, HistoricalBytesMatch, Pinned;
    if Pin(p, st).ok {
      PinUnfolds(p, st);
    }
  }

  lemma WritesAreCleanOrThrow(p: Platform, key: string, st: State)
    ensures Run(p, Write, Some(key), st).verdict != Drifted
  {
    hide Prelude, FixturePass, FixtureNames, LocksStep, SeenSources;
  }

  /** Once the root fixture means something else, the next write that has to touch it throws. */
  lemma NextWriteThrows(r: Repo, st: State)
    requires r.Usable() && Stands(r, st, NEW) && Run(r.p, Write, Some(CONTROL), st).verdict == Clean
    requires var after := Run(r.p, Write, Some(CONTROL), st).state;
             && ROOT_FILE in after.Chain() && ROOT_FILE in after.historical
             && Semantics(r.p, after.Chain()[ROOT_FILE]) != Semantics(r.p, after.historical[ROOT_FILE])
    ensures var after := Run(r.p, Write, Some(CONTROL), st).state;
            Run(r.p, Write, Some(CONTROL), after.(producers := Producers(r.p, OLD))).verdict == Threw
  {
    hide Run, Prelude, SeenSources, SomeFieldDrifts, Fixtures, FixtureNames, HistoricalBytesMatch, ReadManifest,
         Semantics, Platform.Faithful, Producers, StepOk, FieldsSound, Settled;
    var after := Run(r.p, Write, Some(CONTROL), st).state;
    var next := after.(producers := Producers(r.p, OLD));
    WritesAreCleanOrThrow(r.p, CONTROL, next);
    WriteSettles(r.p, CONTROL, next);
    RunFrame(r.p, Write, Some(CONTROL), st);
    PreludeStands(r, st, NEW);
    RootIsSettled(r, st);
    if Prelude(r.p, next).Some? {
      LoadsOld(r, next);
      PreludeMeans(r.p, next);
      NextStepFails(r, Prelude(r.p, st).value, Prelude(r.p, next).value, next.historical);
      NotManageable(Prelude(r.p, next).value, next, ROOT_FILE);
    }
  }

  lemma NotManageable(o: Owners, st: State, n: string)
    requires n in FixtureNames(st.Chain()) && !StepOk(o, Only({CONTROL}), st.historical, n, st.Chain()[n])
    ensures !Manageable(o, Only({CONTROL}), st)
  {
    hide StepOk, FixtureNames;
  }

  lemma RootIsSettled(r: Repo, st: State)
    requires r.Usable() && Stands(r, st, NEW) && Run(r.p, Write, Some(CONTROL), st).verdict == Clean
    ensures Prelude(r.p, st).Some?
    ensures var after := Run(r.p, Write, Some(CONTROL), st).state.Chain();
            && ROOT_FILE in FixtureNames(after)
            && after[ROOT_FILE] == Settled(Prelude(r.p, st).value, Only({CONTROL}), r.root)
  {
    hide Run, Prelude, Settled, LocksSettled, Fixtures, Platform.Faithful, SeenSources, IsFixtureName, Manageable;
    NamesDiffer();
    WriteSettles(r.p, CONTROL, st);
    PreludeStands(r, st, NEW);
    FixturesAreNamed(r);
    RootText(r);
    SettleKeepsNames(Prelude(r.p, st).value, Only({CONTROL}), st);
  }

  lemma NextStepFails(r: Repo, o: Owners, o': Owners, historical: map<string, string>)
    requires r.Usable() && o.platform == o'.platform == r.p
    requires o.load(RootControl) == Some(NEW) && o'.load(RootControl) == Some(OLD)
    requires ROOT_FILE in historical
    requires Semantics(r.p, Settled(o, Only({CONTROL}), r.root)) != Semantics(r.p, historical[ROOT_FILE])
    ensures !StepOk(o', Only({CONTROL}), historical, ROOT_FILE, Settled(o, Only({CONTROL}), r.root))
  {
    hide Platform.Faithful, Settled, Semantics, SomeFieldDrifts, FixtureStep, RewriteSound, Aligned;
    var text := Settled(o, Only({CONTROL}), r.root);
    RootDriftsBack(r, o, o');
    GuardJudgesTheInput(o', Only({CONTROL}), historical, ROOT_FILE, text);
    AlignedMeans(r.p, historical, ROOT_FILE, text);
  }

  lemma LoadsOld(r: Repo, st: State)
    requires r.Usable() && Prelude(r.p, st).Some? && st.producers == Producers(r.p, OLD)
    ensures Prelude(r.p, st).value.load(RootControl) == Some(OLD)
  {
    hide Platform.Faithful, ReadManifest, HistoricalBytesMatch, LoadSource, Producers;
    forall descriptors ensures LoadSource(r.p, Producers(r.p, OLD), descriptors, RootControl) == Some(OLD) {
      ControlLoads(r.p, OLD, descriptors);
    }
  }

  lemma AlignedMeans(p: Platform, historical: map<string, string>, n: string, text: string)
    requires p.parse(text).Some?
    ensures Aligned(p, historical, n, p.parse(text).value) ==>
              n in historical && Semantics(p, historical[n]) == Semantics(p, text)
  {
    hide Projection, MeaningOf;
  }

  /** What was written for the new identity is stale for the old one. */
  lemma RootDriftsBack(r: Repo, o: Owners, o': Owners)
    requires r.Usable() && o.platform == o'.platform == r.p
    requires o.load(RootControl) == Some(NEW) && o'.load(RootControl) == Some(OLD)
    ensures var text := Settled(o, Only({CONTROL}), r.root);
            Readable(r.p, text) && SomeFieldDrifts(o', Only({CONTROL}), FieldsOf(r.p.parse(text)))
  {
    hide Platform.Faithful, Settled, SourceOf, AsIdentity, IdentityRecord;
    var sel := Only({CONTROL});
    RootIsOwned(r.zero);
    RootDrifts(o, sel, NEW, r.zero);
    SettledReads(o, sel, r.root);
    SettledMeans(o, sel, sel, r.root);
    SettledKeepsSources(o, sel, r.root);
    SettledIsSettled(o, sel, r.root);
    RewriteSoundStays(o, sel, RootFields(r.zero));
    var fields := FieldsOf(r.p.parse(Settled(o, sel, r.root)));
    assert FieldSound(o, sel, fields[0]) && !Drifts(o, sel, fields[0]);
    assert Drifts(o', sel, fields[0]);
  }

  lemma RewriteSoundStays(o: Owners, sel: Selection, fields: seq<Field>)
    requires FieldsSound(o, sel, fields)
    ensures FieldsSound(o, sel, Rewrite(o, sel, fields))
  {
    hide SourceOf, RewriteField;
    forall i | 0 <= i < |fields| ensures FieldSound(o, sel, Rewrite(o, sel, fields)[i]) {
      RewriteFieldSettles(o, sel, sel, NewScheduleKey(o, sel, fields), fields[i]);
    }
  }

  /**
   * The guard of the lock writer does not protect numbers that print as others. In this history a
   * historical fixture holds a minus zero. Its first link could be pinned; then its evidence moves and
   * is written. The write and the full check succeed, but the selected fixture means something else:
   * the pin refuses it, and so does the next write.
   */
  lemma NegativeZeroSlipsThrough() returns (p: Platform, start: State)
    ensures p.Faithful() && Sound(p, start)
    ensures ROOT_FILE in start.historical && p.parse(start.historical[ROOT_FILE]) == Some(Obj(RootFields(true)))
    ensures Pin(p, Play(p, [InitializeChain], start)).ok
    ensures var stale := Play(p, [InitializeChain, Produce(Producers(p, NEW))], start);
            Run(p, Write, Some(CONTROL), stale).verdict == Clean
    ensures var write := MaintainLocks(Write, Some(CONTROL));
            var last := Play(p, [InitializeChain, Produce(Producers(p, NEW)), write], start);
            && Run(p, Check, None, last).verdict == Clean
            && ROOT_FILE in last.Chain() && ROOT_FILE in last.historical
            && Semantics(p, last.Chain()[ROOT_FILE]) != Semantics(p, last.historical[ROOT_FILE])
            && !Pin(p, last).ok
            && Run(p, Write, Some(CONTROL), Play(p, [Produce(Producers(p, OLD))], last)).verdict == Threw
  {
    hide Initialize, Pin, Run, Stands, Fixtures, Producers, Sound, Platform.Faithful, Semantics, Play;
    var r := ZeroRepo();
    p, start := r.p, Start(r);
    StartIsSound(r);
    FixturesRead(r);
    NamesDiffer();
    InitializedStands(r);
    var st := Initialize(p, start).state;
    StandsAtFirst(r, st, OLD);
    StandsReads(r, st, OLD);
    PinSucceeds(r, st);
    var moved := Moved(p, st);
    MovedStands(r, st);
    WriteLosesZero(r, moved);
    NextWriteThrows(r, moved);
    ZeroUnfolds(p, start);
    RunFrame(p, Write, Some(CONTROL), moved);
    FixtureIsRecorded(r, st);
    SameManifestRead(p, st, Run(p, Write, Some(CONTROL), moved).state);
    PinRefuses(p, Run(p, Write, Some(CONTROL), moved).state, ROOT_FILE);
    StartHoldsRoot(r);
  }

  lemma FixtureIsRecorded(r: Repo, st: State)
    requires ReadManifest(r.p, st, DEV1).Some?
    requires var pins := Entries(Property(ReadManifest(r.p, st, DEV1).value, "historicalFixtures"));
             pins.Some? && KeysOf(pins.value) == Fixtures(r).Keys
    ensures ROOT_FILE in KeysOf(Entries(Property(ReadManifest(r.p, st, DEV1).value, "historicalFixtures")).value)
  {
    hide KeysOf, ReadManifest;
  }

  lemma SameManifestRead(p: Platform, st: State, st': State)
    requires st'.manifests == st.manifests
    ensures ReadManifest(p, st', DEV1) == ReadManifest(p, st, DEV1)
  {
  }

  lemma StartHoldsRoot(r: Repo)
    ensures ROOT_FILE in Start(r).historical && Start(r).historical[ROOT_FILE] == r.root
  {
    RootText(r);
  }

  lemma MovedStands(r: Repo, st: State)
    requires Stands(r, st, OLD)
    ensures Stands(r, Moved(r.p, st), NEW)
  {
    hide Fixtures, Producers;
  }

  lemma ZeroUnfolds(p: Platform, st: State)
    ensures var first := Initialize(p, st).state;
            && Play(p, [InitializeChain], st) == first
            && Play(p, [InitializeChain, Produce(Producers(p, NEW))], st) == Moved(p, first)
            && Play(p, [InitializeChain, Produce(Producers(p, NEW)), MaintainLocks(Write, Some(CONTROL))], st) ==
               Run(p, Write, Some(CONTROL), Moved(p, first)).state
    ensures forall last :: Play(p, [Produce(Producers(p, OLD))], last) == last.(producers := Producers(p, OLD))
  {
    hide Initialize, Run, Producers;
    var a, b, c := InitializeChain, Produce(Producers(p, NEW)), MaintainLocks(Write, Some(CONTROL));
    var first := Initialize(p, st).state;
    assert [a, b, c] == [a] + [b, c] && [b, c] == [b] + [c] && [c] == [c] + [];
    assert [a, b] == [a] + [b] && [b] == [b] + [] && [a] == [a] + [];
    PlayFirst(p, a, [b, c], st);
    PlayFirst(p, b, [c], first);
    PlayFirst(p, c, [], Moved(p, first));
    PlayFirst(p, a, [b], st);
    PlayFirst(p, b, [], first);
    PlayFirst(p, a, [], st);
    forall last ensures Play(p, [Produce(Producers(p, OLD))], last) == last.(producers := Producers(p, OLD)) {
      assert [Produce(Producers(p, OLD))] == [Produce(Producers(p, OLD))] + [];
      PlayFirst(p, Produce(Producers(p, OLD)), [], last);
    }
  }
}
