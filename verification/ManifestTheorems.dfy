/** What the manifests written by the tools contain when they are read back. */
module ManifestTheorems {
  import opened Base
  import opened Json
  import opened Listing
  import opened ReferenceSelection
  import opened Repository
  import opened EvidenceLocks
  import opened Printing
  import opened ReferenceChain

  const MANIFEST_KEYS: seq<string> := [
    "schema", "version", "historicalVersion", "historicalImplementation", "sourceCheckpoint", "historicalComposer",
    "selectedComposer", "historicalFixtures", "previousSelection"]

  lemma ManifestKeysDiffer()
    ensures forall i, j :: 0 <= i < j < |MANIFEST_KEYS| ==> MANIFEST_KEYS[i] != MANIFEST_KEYS[j]
  {
    var k := MANIFEST_KEYS;
    assert |k[0]| == 6 && |k[1]| == 7 && |k[2]| == 17 && |k[3]| == 24 && |k[4]| == 16 && |k[5]| == 18;
    assert |k[6]| == 16 && |k[7]| == 18 && |k[8]| == 17;
    assert k[4][1] == 'o' && k[6][1] == 'e';
    assert k[5][10] == 'C' && k[7][10] == 'F';
    assert k[2][0] == 'h' && k[8][0] == 'p';
  }

  lemma BaseKeys(version: string, pins: seq<Field>)
    ensures |BaseManifest(version, pins)| == 8
    ensures forall i :: 0 <= i < 8 ==> BaseManifest(version, pins)[i].key == MANIFEST_KEYS[i]
    ensures BaseManifest(version, pins)[1].value == Str(version)
    ensures forall i :: 0 <= i < 7 ==> BaseManifest(version, pins)[i].value.Str?
    ensures BaseManifest(version, pins)[6].value == Str(SELECTED_COMPOSER)
    ensures BaseManifest(version, pins)[7].value == Obj(pins)
  {
    hide SourceCheckpoint;
  }

  lemma PinKeysDiffer()
    ensures {"version", "previousSelection", "historicalFixtures", "selectedComposer"} !!
            {"selectedFixtures", "selectionSourceSha256"}
    ensures "selectedFixtures" != "selectionSourceSha256"
    ensures {"schema", "version", "historicalVersion", "historicalImplementation", "sourceCheckpoint",
             "historicalComposer", "selectedComposer", "historicalFixtures", "previousSelection"} !!
            {"selectedFixtures", "selectionSourceSha256"}
  {
    assert |"selectedFixtures"| == 16 && |"selectionSourceSha256"| == 21;
    assert |"schema"| == 6 && |"version"| == 7 && |"historicalVersion"| == 17 && |"historicalImplementation"| == 24;
    assert |"sourceCheckpoint"| == 16 && |"historicalComposer"| == 18 && |"selectedComposer"| == 16;
    assert |"historicalFixtures"| == 18 && |"previousSelection"| == 17;
    assert "sourceCheckpoint"[1] == 'o' && "selectedFixtures"[1] == 'e' && "selectedComposer"[8] == 'C';
    assert "selectedFixtures"[8] == 'F';
  }

  lemma LinkReads(version: string, digest: string)
    ensures Property(Link(version, digest), "version") == Some(Str(version))
    ensures Property(Link(version, digest), "manifestSha256") == Some(Str(digest))
    ensures WellFormed(Link(version, digest))
  {
    var fields := Link(version, digest).fields;
    assert |"version"| == 7 && |"manifestSha256"| == 14 && |"claim"| == 5;
    assert Distinct(fields);
    assert fields[0].key[0] == 'v' && fields[1].key[0] == 'm' && fields[2].key[0] == 'c';
    IndexIsUnique(fields, 0);
    IndexIsUnique(fields, 1);
  }

  lemma LinkReadsAsRecord(manifest: Json, version: string, digest: string)
    requires Property(manifest, "previousSelection") == Some(Link(version, digest))
    ensures LinkOf(manifest) == Some(LinkRecord(Some(version), Some(digest)))
  {
    hide Link;
    LinkReads(version, digest);
    assert Link(version, digest).Obj? by {
      LinkIsObject(version, digest);
    }
  }

  lemma LinkIsObject(version: string, digest: string)
    ensures Link(version, digest).Obj?
  {
  }

  lemma NameAbsent(fields: seq<Field>, key: string)
    requires forall i :: 0 <= i < |fields| ==> fields[i].key != key
    ensures Find(fields, key) == None
  {
  }

  lemma NoIndexKeys(fields: seq<Field>)
    requires forall i :: 0 <= i < |fields| ==> !IsIndexKey(fields[i].key)
    ensures IndexKeysFirst(fields)
  {
    hide IsIndexKey, IndexBefore;
  }

  lemma PinsAreWellFormed(p: Platform, files: map<string, string>, names: seq<string>)
    requires forall n :: n in names ==> n in files
    requires NoRepeats(names)
    requires IndexKeysFirst(Pins(p, files, names))
    ensures WellFormed(Obj(Pins(p, files, names)))
  {
    hide IndexKeysFirst;
  }

  lemma SourceIsNoIndex(n: string)
    requires EndsWith(n, ".json")
    ensures !IsIndexKey(n)
  {
    assert n[|n| - 5..][4] == n[|n| - 1];
  }

  lemma HistoricalPinsAreWellFormed(p: Platform, st: State)
    ensures WellFormed(Obj(Pins(p, st.historical, Sorted(FixtureSources(st.historical)))))
  {
    hide IsIndexKey;
    var names := Sorted(FixtureSources(st.historical));
    SortedIsAscending(FixtureSources(st.historical));
    AscendingHasNoDuplicates(names);
    forall i | 0 <= i < |names| ensures !IsIndexKey(names[i]) {
      assert names[i] in names;
      SourceIsNoIndex(names[i]);
    }
    NoIndexKeys(Pins(p, st.historical, names));
    PinsAreWellFormed(p, st.historical, names);
  }

  /** A fresh manifest is unpinned and links to the predecessor's manifest as it is now. */
  lemma NewManifestReads(p: Platform, st: State)
    requires NewManifest(p, st).Some?
    ensures var m := NewManifest(p, st).value;
            && WellFormed(m)
            && VersionOf(m) == Some(st.version)
            && Property(m, "selectedFixtures") == None
            && LinkOf(m) == match Predecessor(st.version)
                            case None => None
                            case Some(w) => Some(LinkRecord(Some(w), Some(p.Sha256(st.manifests[w]))))
  {
    hide BaseManifest, Link, Sorted, WellFormed, Distinct, LinkOf;
    var m := NewManifest(p, st).value;
    var pins := Pins(p, st.historical, Sorted(FixtureSources(st.historical)));
    HistoricalPinsAreWellFormed(p, st);
    match Predecessor(st.version) {
      case None =>
        assert BaseManifest(st.version, pins) + [] == BaseManifest(st.version, pins);
        FreshManifest(st.version, pins, None, m);
        NoLink(m);
      case Some(w) =>
        LinkReads(w, p.Sha256(st.manifests[w]));
        FreshManifest(st.version, pins, Some(Link(w, p.Sha256(st.manifests[w]))), m);
        LinkReadsAsRecord(m, w, p.Sha256(st.manifests[w]));
    }
  }

  lemma NoLink(m: Json)
    ensures Property(m, "previousSelection") == None ==> LinkOf(m) == None
  {
  }

  lemma LinkIsExact(p: Platform, version: string, digest: string)
    ensures p.Stored(Link(version, digest)) == Link(version, digest)
  {
    var fields := Link(version, digest).fields;
    assert p.StoredFields(fields) == fields;
  }

  lemma BaseIsExact(p: Platform, version: string, pins: seq<Field>)
    requires p.StoredFields(pins) == pins
    ensures p.StoredFields(BaseManifest(version, pins)) == BaseManifest(version, pins)
  {
    hide BaseManifest;
    BaseKeys(version, pins);
    var base := BaseManifest(version, pins);
    forall i | 0 <= i < |base| ensures p.Stored(base[i].value) == base[i].value {
    }
  }

  lemma {:induction false} PinsPrintAsThemselves(p: Platform, files: map<string, string>, names: seq<string>)
    requires forall n :: n in names ==> n in files
    ensures p.StoredFields(Pins(p, files, names)) == Pins(p, files, names)
  {
  }

  /** A fresh manifest holds no numbers, so it is read back as it was made. */
  lemma NewManifestIsExact(p: Platform, st: State)
    requires NewManifest(p, st).Some?
    ensures p.Stored(NewManifest(p, st).value) == NewManifest(p, st).value
  {
    hide BaseManifest, Link, Sorted, Pins, Platform.Stored, Platform.StoredFields;
    var names := Sorted(FixtureSources(st.historical));
    var pins := Pins(p, st.historical, names);
    PinsPrintAsThemselves(p, st.historical, names);
    BaseIsExact(p, st.version, pins);
    var base := BaseManifest(st.version, pins);
    match Predecessor(st.version)
    case None => AppendedIsExact(p, base, []);
    case Some(w) =>
      LinkIsExact(p, w, p.Sha256(st.manifests[w]));
      AppendedIsExact(p, base, [Field("previousSelection", Link(w, p.Sha256(st.manifests[w])))]);
  }

  lemma AppendedIsExact(p: Platform, a: seq<Field>, b: seq<Field>)
    requires p.StoredFields(a) == a && forall i :: 0 <= i < |b| ==> p.Stored(b[i].value) == b[i].value
    ensures p.Stored(Obj(a + b)) == Obj(a + b) && a + [] == a
  {
    hide Platform.Stored;
    assert forall i :: 0 <= i < |a| ==> a[i] == p.StoredFields(a)[i];
    assert p.StoredFields(a + b) == a + b;
    StoredObject(p, a + b);
  }

  lemma StoredObject(p: Platform, fields: seq<Field>)
    ensures p.Stored(Obj(fields)) == Obj(p.StoredFields(fields))
  {
  }

  /** A fresh manifest records every historical fixture. */
  lemma NewManifestRecords(p: Platform, st: State)
    requires NewManifest(p, st).Some?
    ensures var m := NewManifest(p, st).value;
            && Property(m, "selectedComposer") == Some(Str(SELECTED_COMPOSER))
            && Property(m, "historicalFixtures") ==
               Some(Obj(Pins(p, st.historical, Sorted(FixtureSources(st.historical)))))
  {
    hide BaseManifest, Link, Sorted, LinkOf;
    var m := NewManifest(p, st).value;
    var pins := Pins(p, st.historical, Sorted(FixtureSources(st.historical)));
    HistoricalPinsAreWellFormed(p, st);
    match Predecessor(st.version) {
      case None =>
        assert BaseManifest(st.version, pins) + [] == BaseManifest(st.version, pins);
        FreshManifest(st.version, pins, None, m);
      case Some(w) =>
        LinkReads(w, p.Sha256(st.manifests[w]));
        FreshManifest(st.version, pins, Some(Link(w, p.Sha256(st.manifests[w]))), m);
    }
  }

  lemma ManifestKeysAreLetters()
    ensures forall i :: 0 <= i < |MANIFEST_KEYS| ==> !IsIndexKey(MANIFEST_KEYS[i])
  {
    forall i | 0 <= i < |MANIFEST_KEYS| ensures MANIFEST_KEYS[i] != "" && !('0' <= MANIFEST_KEYS[i][0] <= '9') {
    }
  }

  lemma FreshManifest(version: string, pins: seq<Field>, link: Option<Json>, m: Json)
    requires WellFormed(Obj(pins)) && (link.Some? ==> WellFormed(link.value))
    requires m == Obj(BaseManifest(version, pins) +
                      if link.Some? then [Field("previousSelection", link.value)] else [])
    ensures WellFormed(m)
    ensures VersionOf(m) == Some(version) && Property(m, "selectedFixtures") == None
    ensures Property(m, "previousSelection") == link
    ensures Property(m, "selectedComposer") == Some(Str(SELECTED_COMPOSER))
    ensures Property(m, "historicalFixtures") == Some(Obj(pins))
  {
    hide BaseManifest, IsIndexKey, IndexBefore, IndexKeysFirst;
    BaseKeys(version, pins);
    ManifestKeysDiffer();
    PinKeysDiffer();
    var fields := m.fields;
    assert forall i :: 0 <= i < |fields| ==> fields[i].key == MANIFEST_KEYS[i];
    assert Distinct(fields);
    assert IndexKeysFirst(fields) by {
      ManifestKeysAreLetters();
      NoIndexKeys(fields);
    }
    assert MANIFEST_KEYS[1] == "version" && MANIFEST_KEYS[8] == "previousSelection";
    assert MANIFEST_KEYS[6] == "selectedComposer" && MANIFEST_KEYS[7] == "historicalFixtures";
    IndexIsUnique(fields, 1);
    IndexIsUnique(fields, 6);
    IndexIsUnique(fields, 7);
    if link.Some? {
      IndexIsUnique(fields, 8);
    } else {
      NameAbsent(fields, "previousSelection");
    }
    forall i | 0 <= i < |fields| ensures WellFormed(fields[i].value) && fields[i].key != "selectedFixtures" {
      assert MANIFEST_KEYS[i] in {"schema", "version", "historicalVersion", "historicalImplementation",
        "sourceCheckpoint", "historicalComposer", "selectedComposer", "historicalFixtures", "previousSelection"};
    }
    NameAbsent(fields, "selectedFixtures");
  }

  lemma PinnedReads(p: Platform, st: State, fields: seq<Field>, pins: seq<Field>)
    requires WellFormed(Obj(fields)) && Distinct(pins) && IndexKeysFirst(pins)
    requires forall i :: 0 <= i < |pins| ==> pins[i].key in st.Chain()
    ensures var pinned := Pinned(p, st, fields, pins);
            && WellFormed(Obj(pinned))
            && Find(pinned, "selectedFixtures") == Some(Obj(Pins(p, st.Chain(), NamesOf(pins))))
            && Find(pinned, "selectionSourceSha256") == Some(Str(p.Sha256(st.selector)))
            && forall k :: k in {"version", "previousSelection", "historicalFixtures", "selectedComposer"} ==>
                 Find(pinned, k) == Find(fields, k)
  {
    hide IsIndexKey, IndexBefore;
    PinKeysDiffer();
    PinKeysAreLetters();
    PinsKeepOrder(p, st.Chain(), pins);
    var table := Obj(Pins(p, st.Chain(), NamesOf(pins)));
    var source := Str(p.Sha256(st.selector));
    PinsAreWellFormed(p, st.Chain(), NamesOf(pins));
    PutKeepsWellFormed(fields, "selectedFixtures", table);
    PutKeepsWellFormed(Put(fields, "selectedFixtures", table), "selectionSourceSha256", source);
    forall k ensures Find(Pinned(p, st, fields, pins), k) ==
      if k == "selectionSourceSha256" then Some(source)
      else if k == "selectedFixtures" then Some(table)
      else Find(fields, k)
    {
      FindAfterPut(fields, "selectedFixtures", table, k);
      FindAfterPut(Put(fields, "selectedFixtures", table), "selectionSourceSha256", source, k);
    }
  }

  lemma PinKeysAreLetters()
    ensures !IsIndexKey("selectedFixtures") && !IsIndexKey("selectionSourceSha256")
  {
    assert "selectedFixtures"[0] == 's' && "selectionSourceSha256"[0] == 's';
  }

  lemma PinsKeepOrder(p: Platform, files: map<string, string>, pins: seq<Field>)
    requires Distinct(pins) && IndexKeysFirst(pins) && forall i :: 0 <= i < |pins| ==> pins[i].key in files
    ensures var names := NamesOf(pins);
            && NoRepeats(names)
            && (forall n :: n in names ==> n in files) && IndexKeysFirst(Pins(p, files, names))
  {
    hide IsIndexKey, IndexBefore;
    assert SameKeys(pins, Pins(p, files, NamesOf(pins)));
  }

  lemma PinsMatchThemselves(p: Platform, files: map<string, string>, names: seq<string>)
    requires forall n :: n in names ==> n in files && IsDirectChild(n)
    ensures PinsMatch(p, files, Pins(p, files, names))
  {
  }

  lemma PinUnfolds(p: Platform, st: State)
    requires Pin(p, st).ok
    ensures ReadManifest(p, st, st.version).Some? && ReadManifest(p, st, st.version).value.Obj?
    ensures var fields := ReadManifest(p, st, st.version).value.fields;
            var pins := Entries(Find(fields, "historicalFixtures"));
            && VersionOf(Obj(fields)) == Some(st.version) && Run(p, Check, None, st).verdict == Clean
            && HistoricalBytesMatch(p, st, Obj(fields)) && Pinnable(p, st, pins.value)
            && Pin(p, st).state ==
               st.(manifests := st.manifests[st.version := p.render(Obj(Pinned(p, st, fields, pins.value)))])
  {
    hide Run, SameSemantics, Pinned;
  }

  lemma TextStored(p: Platform, v: Option<Json>)
    requires p.Faithful()
    ensures TextOf(StoredOption(p, v)) == TextOf(v)
  {
    hide Platform.Faithful, Platform.Stored;
    PropertyStored(p, v);
  }

  /** The link is a number without a JSON form: printed it is null, which is no link. */
  predicate LinkPrintsAsNull(p: Platform, manifest: Json) {
    match Property(manifest, "previousSelection")
    case Some(Float(l)) => p.stored(l) == Null
    case _ => false
  }

  /** A printed link says what it said, unless it prints as null; afterwards it keeps. */
  lemma LinkStored(p: Platform, fields: seq<Field>)
    requires p.Faithful()
    ensures LinkOf(Obj(p.StoredFields(fields))) ==
            if LinkPrintsAsNull(p, Obj(fields)) then None else LinkOf(Obj(fields))
    ensures !LinkPrintsAsNull(p, Obj(p.StoredFields(fields)))
  {
    hide Platform.Faithful, Platform.Stored, Platform.StoredFields, Find;
    FindStored(p, fields, "previousSelection");
    var v := Find(fields, "previousSelection");
    if v.Some? {
      StoredKeepsKind(p, v.value);
      if v.value.Float? {
        StoredNumber(p, v.value.literal);
        assert p.Stored(v.value) == p.stored(v.value.literal) by { StoredFloat(p, v.value.literal); }
      }
      if v.value.Obj? {
        FindStored(p, v.value.fields, "version");
        FindStored(p, v.value.fields, "manifestSha256");
        TextStored(p, Find(v.value.fields, "version"));
        TextStored(p, Find(v.value.fields, "manifestSha256"));
      }
    }
  }

  lemma StoredFloat(p: Platform, l: string)
    ensures p.Stored(Float(l)) == p.stored(l)
  {
  }

  /** A link that names a version or a digest does not print as null. */
  lemma NamingLinkPrints(p: Platform, manifest: Json)
    requires p.Faithful() && LinkOf(manifest) != Some(LinkRecord(None, None))
    ensures !LinkPrintsAsNull(p, manifest)
  {
    hide Platform.Faithful, Find;
    var v := Property(manifest, "previousSelection");
    if v.Some? && v.value.Float? {
      StoredNumber(p, v.value.literal);
    }
  }

  lemma {:induction false} PinsAreExact(p: Platform, files: map<string, string>, pins: seq<Field>)
    requires PinsMatch(p, files, pins)
    ensures p.StoredFields(pins) == pins
  {
  }

  /** A printed pin table holds the same pins, unless it was a number. */
  lemma EntriesStored(p: Platform, v: Option<Json>)
    requires p.Faithful()
    ensures Entries(StoredOption(p, v)).Some? && Entries(v).Some? ==>
              Entries(StoredOption(p, v)).value == p.StoredFields(Entries(v).value)
  {
    hide Platform.Faithful;
    if v.Some? {
      StoredKeepsKind(p, v.value);
    }
  }

  /** The properties of a pinned manifest as they are read back. */
  lemma PinnedProperties(p: Platform, st: State, fields: seq<Field>, pins: seq<Field>)
    requires p.Faithful() && WellFormed(Obj(fields)) && Distinct(pins) && IndexKeysFirst(pins)
    requires PinsMatch(p, st.historical, pins) && forall i :: 0 <= i < |pins| ==> pins[i].key in st.Chain()
    ensures WellFormed(Obj(Pinned(p, st, fields, pins)))
    ensures var manifest := p.StoredFields(Pinned(p, st, fields, pins));
            && TextOf(Find(manifest, "version")) == TextOf(Find(fields, "version"))
            && LinkOf(Obj(manifest)) == (if LinkPrintsAsNull(p, Obj(fields)) then None else LinkOf(Obj(fields)))
            && !LinkPrintsAsNull(p, Obj(manifest))
            && Find(manifest, "selectedComposer") == StoredOption(p, Find(fields, "selectedComposer"))
            && Find(manifest, "historicalFixtures") == StoredOption(p, Find(fields, "historicalFixtures"))
            && Find(manifest, "selectedFixtures") == Some(Obj(Pins(p, st.Chain(), NamesOf(pins))))
            && Find(manifest, "selectionSourceSha256") == Some(Str(p.Sha256(st.selector)))
  {
    hide Pinned, Platform.Faithful, Platform.Stored, Platform.StoredFields, WellFormed, Find, PinsMatch, LinkOf, Pins,
         Index, IndexKeysFirst, Distinct;
    PinnedReads(p, st, fields, pins);
    var pinned := Pinned(p, st, fields, pins);
    var keys := {"version", "previousSelection", "historicalFixtures", "selectedComposer"};
    assert "version" in keys && "previousSelection" in keys && "historicalFixtures" in keys &&
           "selectedComposer" in keys;
    FindStored(p, pinned, "version");
    FindStored(p, pinned, "historicalFixtures");
    FindStored(p, pinned, "selectedComposer");
    FindStored(p, pinned, "selectedFixtures");
    FindStored(p, pinned, "selectionSourceSha256");
    TextStored(p, Find(pinned, "version"));
    LinkStored(p, pinned);
    SameLinkOf(pinned, fields);
    PinnedPins(p, st, pins);
    StringsAreStored(p, p.Sha256(st.selector));
  }

  lemma PinnedTableMatches(p: Platform, st: State, fields: seq<Field>, pins: seq<Field>)
    requires p.Faithful() && WellFormed(Obj(fields)) && VersionOf(Obj(fields)) == Some(st.version)
    requires Entries(Find(fields, "historicalFixtures")) == Some(pins) && PinsMatch(p, st.historical, pins)
    requires forall i :: 0 <= i < |pins| ==> pins[i].key in st.Chain()
    ensures Distinct(pins) && IndexKeysFirst(pins)
    ensures var manifest := Obj(p.StoredFields(Pinned(p, st, fields, pins)));
            && VersionOf(manifest) == Some(st.version) && SelectedBytesMatch(p, st, manifest)
            && (Entries(Property(manifest, "historicalFixtures")).Some? ==>
                  PinTablesAgree(manifest) && HistoricalBytesMatch(p, st, manifest))
  {
    hide Pinned, Platform.Faithful, Platform.Stored, Platform.StoredFields, WellFormed, Find, PinsMatch, LinkOf, Pins,
         KeysOf, IndexKeysFirst, Distinct;
    PinTableIsDistinct(fields);
    PinnedProperties(p, st, fields, pins);
    PinsAreExact(p, st.historical, pins);
    EntriesStored(p, Find(fields, "historicalFixtures"));
    PinnedPins(p, st, pins);
  }

  lemma SameLinkOf(a: seq<Field>, b: seq<Field>)
    requires Find(a, "previousSelection") == Find(b, "previousSelection")
    ensures LinkOf(Obj(a)) == LinkOf(Obj(b))
    ensures forall p: Platform :: LinkPrintsAsNull(p, Obj(a)) == LinkPrintsAsNull(p, Obj(b))
  {
    hide Find;
  }

  lemma StringsAreStored(p: Platform, s: string)
    ensures p.Stored(Str(s)) == Str(s)
  {
  }

  /** The new table matches the selection, names what the historical table names, and prints as itself. */
  lemma PinnedPins(p: Platform, st: State, pins: seq<Field>)
    requires PinsMatch(p, st.historical, pins) && forall i :: 0 <= i < |pins| ==> pins[i].key in st.Chain()
    ensures var table := Pins(p, st.Chain(), NamesOf(pins));
            PinsMatch(p, st.Chain(), table) && KeysOf(table) == KeysOf(pins) && p.Stored(Obj(table)) == Obj(table)
  {
    hide IsDirectChild;
    PinsMatchThemselves(p, st.Chain(), NamesOf(pins));
    SamePinKeys(p, st.Chain(), pins);
    PinsAreExact(p, st.Chain(), Pins(p, st.Chain(), NamesOf(pins)));
  }

  lemma SamePinKeys(p: Platform, files: map<string, string>, pins: seq<Field>)
    requires forall i :: 0 <= i < |pins| ==> pins[i].key in files
    ensures KeysOf(Pins(p, files, NamesOf(pins))) == KeysOf(pins)
  {
    var table := Pins(p, files, NamesOf(pins));
    assert forall i :: 0 <= i < |pins| ==> table[i].key == pins[i].key;
  }

  /**
   * Pinning records exactly the bytes it saw. The rest of the manifest stays as it prints: its version,
   * its link unless that prints as null, and its historical pins unless those print as null.
   */
  lemma PinMeans(p: Platform, st: State)
    requires p.Faithful() && Pin(p, st).ok
    ensures ReadManifest(p, st, st.version).Some?
    ensures var before, after := ReadManifest(p, st, st.version).value, Pin(p, st).state;
            var manifest := ReadManifest(p, after, st.version);
            && after == st.(manifests := after.manifests) && after.manifests.Keys == st.manifests.Keys
            && (forall v :: v in st.manifests && v != st.version ==> after.manifests[v] == st.manifests[v])
            && manifest.Some? && VersionOf(manifest.value) == VersionOf(before) == Some(st.version)
            && LinkOf(manifest.value) == (if LinkPrintsAsNull(p, before) then None else LinkOf(before))
            && !LinkPrintsAsNull(p, manifest.value)
            && Property(manifest.value, "selectedComposer") == StoredOption(p, Property(before, "selectedComposer"))
            && Property(manifest.value, "historicalFixtures") == StoredOption(p, Property(before, "historicalFixtures"))
            && Property(manifest.value, "selectionSourceSha256") == Some(Str(p.Sha256(st.selector)))
            && SelectedBytesMatch(p, after, manifest.value)
            && (Entries(Property(manifest.value, "historicalFixtures")).Some? ==>
                  PinTablesAgree(manifest.value) && HistoricalBytesMatch(p, after, manifest.value))
  {
    hide Run, Pin, Pinned, LinkOf, PinTablesAgree, SameSemantics, Pins, Platform.StoredFields, PinsMatch;
    PinUnfolds(p, st);
    var fields := ReadManifest(p, st, st.version).value.fields;
    var pins := Entries(Find(fields, "historicalFixtures")).value;
    PinnedTableMatches(p, st, fields, pins);
    PinnedProperties(p, st, fields, pins);
    StoredKeepsKind(p, Obj(Pinned(p, st, fields, pins)));
  }

  lemma PinTableIsDistinct(fields: seq<Field>)
    requires WellFormed(Obj(fields))
    ensures var pins := Entries(Find(fields, "historicalFixtures"));
            pins.Some? ==> Distinct(pins.value) && IndexKeysFirst(pins.value)
  {
    hide IsIndexKey, IndexBefore;
    var i := Index(fields, "historicalFixtures");
    if i < |fields| {
      assert WellFormed(fields[i].value);
    }
  }
}
