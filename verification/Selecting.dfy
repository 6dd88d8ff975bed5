/** What the pin and the initialisation decide and write, said by lookup in the files they read. */
module Selecting {
  import opened Base
  import opened Json
  import LineEndings
  import opened Listing
  import opened ReferenceSelection
  import opened Repository
  import opened EvidenceLocks
  import opened ReferenceChain
  import opened ManifestTheorems
  import opened Agreement
  import opened Provenance
  import opened Writing
  import opened Verification

  // ----- the pin

  /** The pins of a table, if it is an object; nothing else has any. */
  function PinsIn(table: Option<Json>): seq<Field> {
    match table
    case Some(Obj(fields)) => fields
    case _ => []
  }

  /** The pins name the same files in the same order, each with the digest of its text now. */
  predicate PinsAreTaken(p: Platform, files: map<string, string>, before: seq<Field>, after: seq<Field>) {
    && SameKeys(before, after)
    && forall i :: 0 <= i < |after| ==>
         after[i].key in files && after[i].value == Str(p.digest(Text(files[after[i].key])))
  }

  /** The manifest as a pin writes it: two properties set, in place or at the end, and all others as they stood. */
  ghost predicate PinIsWritten(p: Platform, st: State, before: seq<Field>, after: seq<Field>) {
    && Property(Obj(after), "selectionSourceSha256") == Some(Str(p.digest(Text(st.selector))))
    && (exists pins :: Property(Obj(after), "selectedFixtures") == Some(Obj(pins))
                       && PinsAreTaken(p, st.Chain(), PinsIn(Property(Obj(before), "historicalFixtures")), pins))
    && |after| == |before| + (if Property(Obj(before), "selectedFixtures").Some? then 0 else 1)
                           + (if Property(Obj(before), "selectionSourceSha256").Some? then 0 else 1)
    && forall i :: 0 <= i < |before| ==>
         && after[i].key == before[i].key
         && (before[i].key != "selectedFixtures" && before[i].key != "selectionSourceSha256" ==> after[i] == before[i])
  }

  /** The selection can be pinned in the manifest: it is current, and every fixture still means what it meant. */
  ghost predicate CanPin(p: Platform, st: State, manifest: Json) {
    && Selects(p, st, manifest) && Property(manifest, "version") == Some(Str(st.version))
    && TableStands(p, st.historical, Property(manifest, "historicalFixtures"))
    && IsCurrent(p, st, None)
    && forall k :: IsPinned(Property(manifest, "historicalFixtures"), k) ==>
         k in st.Chain() && k in st.historical && AgreeAsFixtures(p, st.Chain()[k], st.historical[k])
  }

  lemma PinnableMeans(p: Platform, st: State, pins: seq<Field>)
    requires p.Faithful() && Distinct(pins)
    ensures Pinnable(p, st, pins) <==>
            forall k :: Find(pins, k).Some? ==>
              k in st.Chain() && k in st.historical && AgreeAsFixtures(p, st.Chain()[k], st.historical[k])
  {
    hide Platform.Faithful, SameSemantics, IsComparable, SameFixture, Find, Distinct;
    forall s, t ensures SameSemantics(p, s, t) <==> AgreeAsFixtures(p, s, t) {
      SemanticsAreAgreement(p, s, t);
    }
    hide AgreeAsFixtures;
    forall i | 0 <= i < |pins| ensures Find(pins, pins[i].key) == Some(pins[i].value) {
      FieldIsFound(pins, i);
    }
    forall k | Find(pins, k).Some? ensures exists i :: 0 <= i < |pins| && pins[i] == Field(k, Find(pins, k).value) {
      FoundIsField(pins, k);
    }
    if forall k :: Find(pins, k).Some? ==>
         k in st.Chain() && k in st.historical && AgreeAsFixtures(p, st.Chain()[k], st.historical[k]) {
      forall i | 0 <= i < |pins|
        ensures pins[i].key in st.Chain() && pins[i].key in st.historical
        ensures SameSemantics(p, st.Chain()[pins[i].key], st.historical[pins[i].key])
      {
        assert Find(pins, pins[i].key).Some?;
      }
    }
  }

  lemma TableOfPins(manifest: Json)
    requires WellFormed(manifest) && Entries(Property(manifest, "historicalFixtures")).Some?
    ensures Entries(Property(manifest, "historicalFixtures")).value == PinsIn(Property(manifest, "historicalFixtures"))
    ensures Distinct(PinsIn(Property(manifest, "historicalFixtures")))
    ensures forall k :: IsPinned(Property(manifest, "historicalFixtures"), k) <==>
                        Find(PinsIn(Property(manifest, "historicalFixtures")), k).Some?
  {
    hide IndexKeysFirst;
    if manifest.Obj? && Property(manifest, "historicalFixtures").Some? {
      assert WellFormed(manifest.fields[Index(manifest.fields, "historicalFixtures")].value);
    }
    NothingAnywhere();
  }

  lemma NothingAnywhere()
    ensures forall k :: Find([], k) == None
  {
    forall k ensures Find([], k) == None {
      NothingFound(k);
    }
  }

  /** A pin succeeds exactly if the selection can be pinned. */
  lemma PinIsAllowed(p: Platform, st: State)
    requires p.Faithful()
    ensures Pin(p, st).ok <==> exists manifest :: CanPin(p, st, manifest)
  {
    hide Platform.Faithful, Run, Pinned, Pinnable, HistoricalBytesMatch, ReadManifest, IsCurrent, TableStands,
         Selects, AgreeAsFixtures, IsPinned, Property, VersionOf, Entries, PinsMatch;
    CheckIsProvenance(p, None, st);
    forall manifest ensures ReadManifest(p, st, st.version) == Some(manifest) <==> Selects(p, st, manifest) {
      SelectsMeans(p, st, manifest);
    }
    var manifest := ReadManifest(p, st, st.version);
    if manifest.Some? {
      ManifestIsWellFormed(p, st);
      PinAllowedBy(p, st, manifest.value);
      OnlyObjectsPin(p, st);
    }
  }

  lemma ManifestIsWellFormed(p: Platform, st: State)
    requires p.Faithful() && ReadManifest(p, st, st.version).Some?
    ensures WellFormed(ReadManifest(p, st, st.version).value)
  {
  }

  lemma OnlyObjectsPin(p: Platform, st: State)
    requires ReadManifest(p, st, st.version).Some?
    ensures var manifest := ReadManifest(p, st, st.version).value;
            var pins := Entries(Property(manifest, "historicalFixtures"));
            Pin(p, st).ok <==>
              && VersionOf(manifest) == Some(st.version) && HistoricalBytesMatch(p, st, manifest)
              && Run(p, Check, None, st).verdict == Clean && Pinnable(p, st, pins.GetOr([]))
  {
    hide Run, Pinned, Pinnable, PinsMatch, ReadManifest, Find;
  }

  lemma PinAllowedBy(p: Platform, st: State, manifest: Json)
    requires p.Faithful() && WellFormed(manifest) && Selects(p, st, manifest)
    ensures CanPin(p, st, manifest) <==>
            && VersionOf(manifest) == Some(st.version) && HistoricalBytesMatch(p, st, manifest) &&
               IsCurrent(p, st, None)
            && Pinnable(p, st, Entries(Property(manifest, "historicalFixtures")).GetOr([]))
  {
    hide Platform.Faithful, Pinnable, IsCurrent, TableStands, Selects, AgreeAsFixtures, IsPinned, Property, Entries,
         PinsMatch, WellFormed, PinsIn, Distinct, Find;
    TextMeans(Property(manifest, "version"), st.version);
    TableMeansPins(p, st.historical, Property(manifest, "historicalFixtures"));
    if Entries(Property(manifest, "historicalFixtures")).Some? {
      TableOfPins(manifest);
      PinnableMeans(p, st, Entries(Property(manifest, "historicalFixtures")).value);
    }
  }

  /** A pin writes the manifest as it has to be written, and nothing else. */
  lemma PinWrites(p: Platform, st: State)
    requires p.Faithful() && Pin(p, st).ok
    ensures exists manifest, written ::
              && Selects(p, st, manifest) && manifest.Obj? && PinIsWritten(p, st, manifest.fields, written)
              && Pin(p, st).state == st.(manifests := st.manifests[st.version := p.render(Obj(written))])
  {
    hide Platform.Faithful, Run, Pinned, Pinnable, HistoricalBytesMatch, ReadManifest, Selects, VersionOf, Pin,
         PinIsWritten;
    PinUnfolds(p, st);
    var manifest := ReadManifest(p, st, st.version).value;
    SelectsMeans(p, st, manifest);
    ManifestIsWellFormed(p, st);
    PinnedPinsExist(p, st, manifest);
    var pins := Entries(Find(manifest.fields, "historicalFixtures")).value;
    PinnedIsWritten(p, st, manifest.fields, pins);
    assert manifest == Obj(manifest.fields);
  }

  lemma PinnedPinsExist(p: Platform, st: State, manifest: Json)
    requires p.Faithful() && Pin(p, st).ok && ReadManifest(p, st, st.version) == Some(manifest) && WellFormed(manifest)
    ensures manifest.Obj? && Entries(Find(manifest.fields, "historicalFixtures")).Some?
    ensures var pins := Entries(Find(manifest.fields, "historicalFixtures")).value;
            && pins == PinsIn(Property(manifest, "historicalFixtures")) && Distinct(pins)
            && forall i :: 0 <= i < |pins| ==> pins[i].key in st.Chain()
  {
    hide Platform.Faithful, Run, Pinned, ReadManifest, VersionOf, Pin, SameSemantics, PinsMatch, Find, WellFormed,
         Distinct;
    PinUnfolds(p, st);
    TableOfPins(manifest);
  }

  lemma PinnedIsWritten(p: Platform, st: State, fields: seq<Field>, pins: seq<Field>)
    requires pins == PinsIn(Property(Obj(fields), "historicalFixtures"))
    requires forall i :: 0 <= i < |pins| ==> pins[i].key in st.Chain()
    ensures PinIsWritten(p, st, fields, Pinned(p, st, fields, pins))
  {
    hide Find, PinsAreTaken;
    var table := Pins(p, st.Chain(), NamesOf(pins));
    TakenPins(p, st.Chain(), pins);
    var source := Str(p.Sha256(st.selector));
    var once := Put(fields, "selectedFixtures", Obj(table));
    assert |"selectedFixtures"| == 16 && |"selectionSourceSha256"| == 21;
    FindAfterPut(fields, "selectedFixtures", Obj(table), "selectionSourceSha256");
    FindAfterPut(once, "selectionSourceSha256", source, "selectedFixtures");
    FindAfterPut(once, "selectionSourceSha256", source, "selectionSourceSha256");
    FindAfterPut(fields, "selectedFixtures", Obj(table), "selectedFixtures");
    HasIsFound(fields, once, "selectionSourceSha256");
    PutInPlace(fields, "selectedFixtures", Obj(table));
    PutInPlace(once, "selectionSourceSha256", source);
    FoundIsHas(fields, "selectedFixtures");
    FoundIsHas(fields, "selectionSourceSha256");
  }

  lemma FoundIsHas(fields: seq<Field>, k: string)
    ensures Find(fields, k).Some? <==> Has(fields, k)
  {
  }

  lemma TakenPins(p: Platform, files: map<string, string>, pins: seq<Field>)
    requires forall i :: 0 <= i < |pins| ==> pins[i].key in files
    ensures PinsAreTaken(p, files, pins, Pins(p, files, NamesOf(pins)))
  {
  }

  // ----- what the guard notices

  /** A schedule property other than the evidence key that differs makes two fixtures disagree. */
  lemma ChangedScheduleDisagrees(f: seq<Field>, g: seq<Field>, name: string, k: string)
    requires Property(Obj(f), "schedules").Some? && Property(Obj(g), "schedules").Some?
    requires var a, b := Property(Obj(f), "schedules").value, Property(Obj(g), "schedules").value;
             && a.Obj? && b.Obj? && Property(a, name).Some? && Property(b, name).Some?
             && Property(a, name).value.Obj? && Property(b, name).value.Obj?
             && !SameOption(Property(Property(a, name).value, k), Property(Property(b, name).value, k))
    requires k != "evidenceKey"
    ensures !SameFixture(Obj(f), Obj(g))
  {
    hide SameOption, SameFixture, Find;
    var a, b := Property(Obj(f), "schedules").value, Property(Obj(g), "schedules").value;
    SchedulesAreCompared(f, g, a, b);
    NamedSchedule(a, b, name, k);
  }

  lemma SchedulesHoldNoAncestor()
    ensures !NamesAncestor("schedules") && "schedules" != "identities"
  {
    assert |"schedules"| == 9 && |"identities"| == 10 && |"composerEvidence"| == 16 && |"profileProjection"| == 17;
    assert |"rootControlProjection"| == 21 && "schedules"[8] == 's' && "Evidence"[7] == 'e';
  }

  lemma SchedulesAreCompared(f: seq<Field>, g: seq<Field>, a: Json, b: Json)
    requires Find(f, "schedules") == Some(a) && Find(g, "schedules") == Some(b)
    ensures SameFixture(Obj(f), Obj(g)) ==> SameEach(a, b, (x, y) => SameSchedule(x, y))
  {
    hide SameRecord, SameSchedule, SameEach, Agree, Find, NamesAncestor;
    SchedulesHoldNoAncestor();
    assert SameFixture(Obj(f), Obj(g)) ==> SameProperty(LocksSchema(f), "schedules", a, b);
  }

  lemma NamedSchedule(a: Json, b: Json, name: string, k: string)
    requires a.Obj? && b.Obj? && Property(a, name).Some? && Property(b, name).Some? && k != "evidenceKey"
    requires Property(a, name).value.Obj? && Property(b, name).value.Obj?
    ensures SameEach(a, b, (x, y) => SameSchedule(x, y)) ==>
              SameOption(Property(Property(a, name).value, k), Property(Property(b, name).value, k))
  {
    hide SameOption, Agree, Index;
    var x, y := Property(a, name).value, Property(b, name).value;
    assert Find(a.fields, name) == Some(x) && Find(b.fields, name) == Some(y);
    assert SameEach(a, b, (x, y) => SameSchedule(x, y)) ==> SameSchedule(x, y);
  }

  /** So it keeps the selection from being pinned, and the fixture from being verified. */
  lemma DisagreementIsNoticed(p: Platform, st: State, manifest: Json, k: string)
    requires p.Faithful() && Selects(p, st, manifest) && IsPinned(Property(manifest, "historicalFixtures"), k)
    requires !(k in st.Chain() && k in st.historical && AgreeAsFixtures(p, st.Chain()[k], st.historical[k]))
    ensures !Pin(p, st).ok && !FixtureOk(p, st, manifest, k) && !Verifies(p, st)
  {
    hide Platform.Faithful, Pin, FixtureOk, Verifies, IsCurrent, TableStands, AgreeAsFixtures, IsPinned, Property,
         WalkEnds, ComposerIsSelected, NamesSelectedComposer, OwnerStands;
    PinIsAllowed(p, st);
    FixtureVerifiedMeans(p, st, manifest, k);
    VerifierMeans(p, st);
  }

  // ----- initialisation

  predicate IsRegistered(v: string) {
    v == "0.0.0-dev.1" || v == "0.0.0-dev.2" || v == "0.0.0-dev.3"
  }

  /** The names that an initialisation copies. */
  predicate IsCopied(historical: map<string, string>, n: string) {
    n in historical && |n| >= 5 && n[|n| - 5..] == ".json"
  }

  /** The pins of a fresh manifest: every copied name in ascending order, with the digest of its text. */
  ghost predicate PinsHistory(p: Platform, historical: map<string, string>, pins: seq<Field>) {
    && (forall i :: 0 <= i < |pins| ==>
          && IsCopied(historical, pins[i].key)
          && pins[i].value == Str(p.digest(Text(historical[pins[i].key]))))
    && (forall n :: IsCopied(historical, n) ==> Find(pins, n).Some?)
    && (forall i, j :: 0 <= i < j < |pins| ==> Before(pins[i].key, pins[j].key))
  }

  /** Where the sources of each version were taken. */
  predicate IsCheckpoint(v: string, checkpoint: string) {
    || (v == "0.0.0-dev.1" && checkpoint == "cd2f164b4f28e2f09b5bfa84729c0602da17fc4a")
    || (v == "0.0.0-dev.2" && checkpoint == "9d20798b8b1a5c82903e6035c8511ce119934fc8")
    || (v == "0.0.0-dev.3" && checkpoint == "2fd0dbd722c2f25e1e93093a4c4265ea4f17afd0")
  }

  /** The link of a fresh manifest: the digest of the manifest of the version before, if there is one. */
  ghost predicate LinksBack(p: Platform, st: State, link: seq<Field>) {
    if st.version == "0.0.0-dev.1" then link == []
    else exists w :: Follows(st.version, w) && w in st.manifests && link == [
      Field("previousSelection", Obj([
        Field("version", Str(w)), Field("manifestSha256", Str(p.digest(Text(st.manifests[w])))),
        Field("claim", Str("retained-provenance; current source does not replay previous implementation"))]))]
  }

  /** The fields of a fresh manifest. */
  ghost predicate IsFreshManifest(p: Platform, st: State, fields: seq<Field>) {
    exists checkpoint, pins, link ::
      && IsCheckpoint(st.version, checkpoint) && PinsHistory(p, st.historical, pins) && LinksBack(p, st, link)
      && fields == FreshFields(st.version, checkpoint, pins) + link
  }

  function FreshFields(version: string, checkpoint: string, pins: seq<Field>): seq<Field> {
    [Field("schema", Str("cuda-mcgs.versioned-reference-chain-selection/0.1.0")),
     Field("version", Str(version)),
     Field("historicalVersion", Str("0.0.0-dev.0")),
     Field("historicalImplementation",
           Str("retained-provenance-only; current source does not replay the historical implementation")),
     Field("sourceCheckpoint", Str(checkpoint)),
     Field("historicalComposer", Str("0dfcd72db82122f56adedadde35c82af68c5ebb7e6f7acf4298f6705d923e58f")),
     Field("selectedComposer", Str("2f162aee57197c3fe84e4d3b469dd199d3dce9d83ccaf35a51fcbf69b251019a")),
     Field("historicalFixtures", Obj(pins))]
  }

  /** The chain holds the normalised copies of the historical fixtures. */
  ghost predicate HoldsCopies(historical: map<string, string>, chain: map<string, string>) {
    && (forall n :: n in chain <==> IsCopied(historical, n))
    && (forall n :: n in chain ==> chain[n] == Text(historical[n]))
  }

  lemma CopiesAreHeld(historical: map<string, string>)
    ensures HoldsCopies(historical, Copies(historical, FixtureSources(historical)))
  {
    hide LineEndings.Normalize;
  }

  lemma SourcesAreCopied(historical: map<string, string>)
    ensures forall n :: n in FixtureSources(historical) <==> IsCopied(historical, n)
  {
  }

  lemma SourcesExist(historical: map<string, string>)
    ensures forall n :: n in Sorted(FixtureSources(historical)) ==> n in historical
  {
  }

  lemma HistoryIsPinned(p: Platform, historical: map<string, string>)
    ensures (forall n :: n in Sorted(FixtureSources(historical)) ==> n in historical)
            && PinsHistory(p, historical, Pins(p, historical, Sorted(FixtureSources(historical))))
  {
    hide LineEndings.Normalize, FixtureSources, IsCopied, Before, Find, Ascending;
    var names := Sorted(FixtureSources(historical));
    SourcesAreCopied(historical);
    SourcesExist(historical);
    SortedIsAscending(FixtureSources(historical));
    var pins := Pins(p, historical, names);
    PinsAscend(p, historical, names);
    forall n | IsCopied(historical, n) ensures Find(pins, n).Some? {
      PinIsFound(p, historical, names, n);
    }
    forall i | 0 <= i < |pins|
      ensures IsCopied(historical, pins[i].key)
      ensures pins[i].value == Str(p.digest(Text(historical[pins[i].key])))
    {
      assert pins[i].key == names[i] && names[i] in names;
    }
  }

  lemma PinsAscend(p: Platform, files: map<string, string>, names: seq<string>)
    requires Ascending(names) && forall n :: n in names ==> n in files
    ensures var pins := Pins(p, files, names);
            forall i, j :: 0 <= i < j < |pins| ==> Before(pins[i].key, pins[j].key)
  {
    hide Before, LineEndings.Normalize;
    var pins := Pins(p, files, names);
    forall i, j | 0 <= i < j < |pins| ensures Before(pins[i].key, pins[j].key) {
      assert pins[i].key == names[i] && pins[j].key == names[j];
    }
  }

  lemma PinIsFound(p: Platform, files: map<string, string>, names: seq<string>, n: string)
    requires n in names && forall m :: m in names ==> m in files
    ensures Find(Pins(p, files, names), n).Some?
  {
    hide Find, LineEndings.Normalize;
    var pins := Pins(p, files, names);
    var i :| 0 <= i < |names| && names[i] == n;
    assert pins[i].key == n;
    KeysAreFound(pins, n);
  }

  lemma RegisteredMeans(v: string)
    ensures IsRegistered(v) <==> Registered(v)
    ensures Registered(v) ==> (Predecessor(v) == None <==> v == "0.0.0-dev.1")
  {
    VersionsDiffer();
  }

  lemma FreshManifestMeans(p: Platform, st: State)
    requires Registered(st.version) && NewManifest(p, st).Some?
    ensures NewManifest(p, st).value.Obj? && IsFreshManifest(p, st, NewManifest(p, st).value.fields)
  {
    hide LineEndings.Normalize, Pins, PinsHistory, FixtureSources, Rank, IsCheckpoint, SourceCheckpoint, LinksBack,
         Link, BaseManifest, FreshFields, IsFreshManifest, Predecessor;
    RegisteredMeans(st.version);
    HistoryIsPinned(p, st.historical);
    var pins := Pins(p, st.historical, Sorted(FixtureSources(st.historical)));
    var checkpoint := SourceCheckpoint(st.version);
    CheckpointMeans(st.version);
    var base := FreshFields(st.version, checkpoint, pins);
    BaseIsFresh(st.version, pins);
    match Predecessor(st.version)
    case None =>
      NoLinkBack(p, st);
      assert base + [] == base;
      Fresh(p, st, checkpoint, pins, []);
    case Some(w) =>
      LinkBack(p, st, w);
      Fresh(p, st, checkpoint, pins, [Field("previousSelection", Link(w, p.Sha256(st.manifests[w])))]);
  }

  lemma Fresh(p: Platform, st: State, checkpoint: string, pins: seq<Field>, link: seq<Field>)
    requires IsCheckpoint(st.version, checkpoint) && PinsHistory(p, st.historical, pins) && LinksBack(p, st, link)
    ensures IsFreshManifest(p, st, FreshFields(st.version, checkpoint, pins) + link)
  {
    hide IsCheckpoint, PinsHistory, LinksBack, FreshFields;
  }

  lemma BaseIsFresh(v: string, pins: seq<Field>)
    ensures BaseManifest(v, pins) == FreshFields(v, SourceCheckpoint(v), pins)
  {
    hide SourceCheckpoint;
  }

  lemma NoLinkBack(p: Platform, st: State)
    requires st.version == "0.0.0-dev.1"
    ensures LinksBack(p, st, [])
  {
  }

  lemma LinkBack(p: Platform, st: State, w: string)
    requires Predecessor(st.version) == Some(w) && w in st.manifests
    ensures LinksBack(p, st, [Field("previousSelection", Link(w, p.Sha256(st.manifests[w])))])
  {
    hide LineEndings.Normalize;
    FollowsMeans(st.version, w);
    VersionsDiffer();
  }

  lemma CheckpointMeans(v: string)
    requires Registered(v)
    ensures IsCheckpoint(v, SourceCheckpoint(v))
  {
    VersionsDiffer();
  }

  /**
   * An initialisation succeeds exactly for a registered version without a chain whose predecessor has a
   * manifest. It copies the history whenever it starts, writes a fresh manifest when it succeeds, and
   * touches nothing else.
   */
  lemma InitializationWrites(p: Platform, st: State)
    ensures var starts := IsRegistered(st.version) && st.version !in st.chains;
            var after := Initialize(p, st).state;
            && (!starts ==> Initialize(p, st) == Outcome(st, false))
            && (starts ==>
                  && (Initialize(p, st).ok <==>
                      st.version == "0.0.0-dev.1" || exists w :: Follows(st.version, w) && w in st.manifests)
                  && st.version in after.chains && HoldsCopies(st.historical, after.chains[st.version])
                  && after == st.(chains := st.chains[st.version := after.chains[st.version]],
                       manifests := after.manifests)
                  && (if Initialize(p, st).ok
                      then exists fields :: IsFreshManifest(p, st, fields)
                             && after.manifests == st.manifests[st.version := p.render(Obj(fields))]
                      else after.manifests == st.manifests))
  {
    hide BaseManifest, Copies, FixtureSources, HoldsCopies, IsFreshManifest, Rank, Link, Pins;
    RegisteredMeans(st.version);
    if Registered(st.version) && st.version !in st.chains {
      CopiesAreHeld(st.historical);
      forall w ensures Follows(st.version, w) <==> Predecessor(st.version) == Some(w) {
        FollowsMeans(st.version, w);
      }
      if NewManifest(p, st).Some? {
        FreshManifestMeans(p, st);
        assert NewManifest(p, st).value == Obj(NewManifest(p, st).value.fields);
      }
    }
  }
}
