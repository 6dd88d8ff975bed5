/** The digest chain: what the walk depends on, what it binds, and when a new link is accepted. */
module ChainTheorems {
  import opened Base
  import opened Json
  import opened LineEndings
  import opened Listing
  import opened ReferenceSelection
  import opened Repository
  import opened EvidenceLocks
  import opened ReferenceChain
  import opened ManifestTheorems

  /** Two states agree on every link older than a rank. */
  ghost predicate AgreeBelow(st: State, st': State, rank: nat) {
    forall v :: Registered(v) && Rank(v) < rank ==>
      && (v in st.manifests <==> v in st'.manifests)
      && (v in st.manifests ==> st.manifests[v] == st'.manifests[v])
      && ChainOf(st, v) == ChainOf(st', v)
  }

  lemma PredecessorIsOlder(v: string)
    ensures Predecessor(v).Some? ==> Registered(Predecessor(v).value) && Rank(v) == Rank(Predecessor(v).value) + 1
  {
    VersionsDiffer();
  }

  lemma RetainedFrame(p: Platform, st: State, st': State, m: Json, m': Json)
    requires AgreeBelow(st, st', ManifestRank(m))
    requires VersionOf(m) == VersionOf(m') && LinkOf(m) == LinkOf(m')
    ensures Retained(p, st, m) == Retained(p, st', m')
    ensures Retained(p, st, m).Some? ==> AgreeBelow(st, st', ManifestRank(Retained(p, st, m).value))
  {
    hide LinkOf, Intact, VersionOf, Property, Predecessor, Rank, AgreeBelow, ChainOf;
    if LinkOf(m).Some? && VersionOf(m).Some? {
      PredecessorIsOlder(VersionOf(m).value);
      if Predecessor(VersionOf(m).value).Some? {
        AgreesAt(st, st', ManifestRank(m), Predecessor(VersionOf(m).value).value);
      }
    }
    RetainedIsOlder(p, st, st', m);
  }

  lemma AgreesAt(st: State, st': State, rank: nat, v: string)
    requires AgreeBelow(st, st', rank) && Registered(v) && Rank(v) < rank
    ensures v in st.manifests <==> v in st'.manifests
    ensures v in st.manifests ==> st.manifests[v] == st'.manifests[v]
    ensures ChainOf(st, v) == ChainOf(st', v)
  {
  }

  lemma RetainedIsOlder(p: Platform, st: State, st': State, m: Json)
    requires AgreeBelow(st, st', ManifestRank(m))
    ensures Retained(p, st, m).Some? ==> AgreeBelow(st, st', ManifestRank(Retained(p, st, m).value))
  {
    hide Retained, ManifestRank;
    if Retained(p, st, m).Some? {
      RetainedRankDrops(p, st, m);
    }
  }

  /** The walk reads only older links, and of its head only the version and the link. */
  lemma {:induction false} WalkFrame(p: Platform, st: State, st': State, m: Json, m': Json)
    requires AgreeBelow(st, st', ManifestRank(m))
    requires VersionOf(m) == VersionOf(m') && LinkOf(m) == LinkOf(m')
    ensures WalkAccepts(p, st, m) == WalkAccepts(p, st', m')
    decreases ManifestRank(m)
  {
    hide Retained, AgreeBelow, LinkOf, Predecessor, VersionOf;
    if LinkOf(m).Some? && VersionOf(m).Some? {
      RetainedFrame(p, st, st', m, m');
      if Retained(p, st, m).Some? {
        RetainedRankDrops(p, st, m);
        var previous := Retained(p, st, m).value;
        WalkFrame(p, st, st', previous, previous);
      }
    }
  }

  /** A link is sealed once its manifest pins exactly the bytes its fixtures have now. */
  predicate Sealed(p: Platform, st: State, v: string) {
    var m := ReadManifest(p, st, v);
    && m.Some? && VersionOf(m.value) == Some(v)
    && var pins := Entries(Property(m.value, "selectedFixtures"));
       pins.Some? && PinsMatch(p, ChainOf(st, v), pins.value)
  }

  /** The manifest of a version is present and the walk from it accepts. */
  predicate Accepted(p: Platform, st: State, v: string) {
    var m := ReadManifest(p, st, v);
    m.Some? && VersionOf(m.value) == Some(v) && WalkAccepts(p, st, m.value)
  }

  /** The predecessor that a link made over this state would retain. */
  lemma FreshLinkRetains(p: Platform, st: State, m: Json, v: string, w: string)
    requires p.Faithful() && Predecessor(v) == Some(w) && w in st.manifests
    requires VersionOf(m) == Some(v) && LinkOf(m) == Some(LinkRecord(Some(w), Some(p.Sha256(st.manifests[w]))))
    ensures Retained(p, st, m).Some? <==> Sealed(p, st, w)
    ensures Sealed(p, st, w) ==> Retained(p, st, m) == ReadManifest(p, st, w)
  {
    PredecessorIsOlder(v);
    assert p.parse(Normalize(st.manifests[w])) == p.parse(st.manifests[w]);
  }

  lemma InitializeMeans(p: Platform, st: State)
    requires p.Faithful() && Initialize(p, st).ok
    ensures Registered(st.version) && st.version !in st.chains
    ensures Predecessor(st.version).Some? ==> Predecessor(st.version).value in st.manifests
    ensures var after := Initialize(p, st).state;
            var m := ReadManifest(p, after, st.version);
            && m.Some? && VersionOf(m.value) == Some(st.version) && Property(m.value, "selectedFixtures") == None
            && LinkOf(m.value) == (match Predecessor(st.version)
                                   case None => None
                                   case Some(w) => Some(LinkRecord(Some(w), Some(p.Sha256(st.manifests[w])))))
            && AgreeBelow(st, after, Rank(st.version))
  {
    hide NewManifest, Copies, FixtureSources, Predecessor, Link, LinkOf, WellFormed, Platform.Faithful,
         Platform.Stored;
    NewManifestNeedsPredecessor(p, st);
    RenderedManifestReads(p, st);
    NewManifestReads(p, st);
  }

  lemma NewManifestNeedsPredecessor(p: Platform, st: State)
    ensures NewManifest(p, st).Some? && Predecessor(st.version).Some? ==> Predecessor(st.version).value in st.manifests
  {
  }

  /** What a fresh link contains, and what its manifest records. */
  lemma InitializeUnfolds(p: Platform, st: State)
    requires p.Faithful() && Initialize(p, st).ok
    ensures NewManifest(p, st).Some? && Registered(st.version)
    ensures var after := Initialize(p, st).state;
            && after.version == st.version && after.historical == st.historical
            && after.Chain() == Copies(st.historical, FixtureSources(st.historical))
            && ReadManifest(p, after, st.version) == NewManifest(p, st)
  {
    hide NewManifest, Copies, FixtureSources, Predecessor, Rank, VersionOf, LinkOf, WellFormed, Platform.Faithful;
    RenderedManifestReads(p, st);
  }

  lemma RenderedManifestReads(p: Platform, st: State)
    requires p.Faithful()
    ensures NewManifest(p, st).Some? ==> p.parse(p.render(NewManifest(p, st).value)) == NewManifest(p, st)
  {
    hide NewManifest, LinkOf, Platform.Stored;
    if NewManifest(p, st).Some? {
      NewManifestReads(p, st);
      NewManifestIsExact(p, st);
    }
  }

  lemma {:induction false} PinsCover(p: Platform, historical: map<string, string>, names: seq<string>)
    requires forall n :: n in names <==> n in FixtureSources(historical)
    ensures KeysOf(Pins(p, historical, names)) == FixtureSources(historical)
  {
    hide FixtureSources, Normalize;
    SourcesAreHistorical(historical);
    var pins := Pins(p, historical, names);
    forall k ensures k in KeysOf(pins) <==> k in FixtureSources(historical) {
      if k in names {
        var i :| 0 <= i < |names| && names[i] == k;
        assert pins[i].key == k;
      }
    }
  }

  /** Pins taken of some files match their normalised copies just as well. */
  lemma PinsMatchCopies(p: Platform, historical: map<string, string>, names: seq<string>)
    requires forall n :: n in names ==> n in FixtureSources(historical) && IsDirectChild(n)
    ensures forall n :: n in names ==> n in historical
    ensures var pins := Pins(p, historical, names);
            PinsMatch(p, historical, pins) && PinsMatch(p, Copies(historical, FixtureSources(historical)), pins)
  {
    hide Normalize, IsDirectChild;
    SourcesAreHistorical(historical);
    forall n | n in names ensures n in historical && Normalize(Normalize(historical[n])) == Normalize(historical[n]) {
      NormalizeFixedPoints(historical[n]);
    }
  }

  lemma CopiesHaveNoCr(historical: map<string, string>, names: set<string>)
    requires names <= historical.Keys
    ensures Copies(historical, names).Keys == names
    ensures forall n :: n in names ==> '\r' !in Copies(historical, names)[n]
  {
    hide Normalize;
    forall n | n in names ensures '\r' !in Normalize(historical[n]) {
      NormalizeFixedPoints(historical[n]);
    }
  }

  lemma SourcesAreHistorical(historical: map<string, string>)
    ensures FixtureSources(historical) <= historical.Keys
  {
  }

  /** A fresh link holds the normalised historical fixtures, all of them, and both sets have the recorded digests. */
  lemma InitializedMatchesHistory(p: Platform, st: State)
    requires p.Faithful() && Initialize(p, st).ok && forall n :: n in st.historical ==> IsDirectChild(n)
    ensures var after := Initialize(p, st).state;
            && ReadManifest(p, after, st.version).Some?
            && var m := ReadManifest(p, after, st.version).value;
               var pins := Entries(Property(m, "historicalFixtures"));
               && Property(m, "selectedComposer") == Some(Str(SELECTED_COMPOSER))
               && pins.Some? && KeysOf(pins.value) == after.Chain().Keys == FixtureSources(st.historical)
               && HistoricalBytesMatch(p, after, m) && PinsMatch(p, after.Chain(), pins.value)
               && forall n :: n in after.Chain() ==> '\r' !in after.Chain()[n]
  {
    hide Initialize, NewManifest, Sorted, Normalize, FixtureSources, Copies, Pins, PinsMatch, KeysOf, ReadManifest,
         Property, IsDirectChild;
    InitializeUnfolds(p, st);
    NewManifestRecords(p, st);
    var names := Sorted(FixtureSources(st.historical));
    SourcesAreHistorical(st.historical);
    PinsCover(p, st.historical, names);
    PinsMatchCopies(p, st.historical, names);
    CopiesHaveNoCr(st.historical, FixtureSources(st.historical));
  }

  /**
   * A freshly initialised link is accepted exactly when its predecessor was accepted and sealed:
   * pinned, and with no byte changed since the pin.
   */
  lemma FreshLinkAccepted(p: Platform, st: State)
    requires p.Faithful() && Initialize(p, st).ok
    ensures Accepted(p, Initialize(p, st).state, st.version) <==>
            match Predecessor(st.version)
            case None => true
            case Some(w) => Sealed(p, st, w) && Accepted(p, st, w)
  {
    hide Initialize, Link, Sealed;
    InitializeMeans(p, st);
    var after := Initialize(p, st).state;
    var m := ReadManifest(p, after, st.version).value;
    match Predecessor(st.version) {
      case None =>
      case Some(w) =>
        PredecessorIsOlder(st.version);
        WalkFrame(p, st, after, m, m);
        FreshLinkRetains(p, st, m, st.version, w);
        SealedHasVersion(p, st, w);
    }
  }

  lemma SealedHasVersion(p: Platform, st: State, w: string)
    ensures Sealed(p, st, w) ==> ReadManifest(p, st, w).Some? && VersionOf(ReadManifest(p, st, w).value) == Some(w)
  {
  }

  /** The versions a walk retains, newest first. */
  function RetainedVersions(p: Platform, st: State, m: Json): seq<string>
    decreases ManifestRank(m)
  {
    if Retained(p, st, m) == None then []
    else
      RetainedRankDrops(p, st, m);
      [Predecessor(VersionOf(m).value).value] + RetainedVersions(p, st, Retained(p, st, m).value)
  }

  predicate SameFixtures(a: map<string, string>, b: map<string, string>, pins: seq<Field>) {
    forall i :: 0 <= i < |pins| ==>
      pins[i].key in a && pins[i].key in b && Normalize(a[pins[i].key]) == Normalize(b[pins[i].key])
  }

  /** A link has the same bytes in two states: its manifest, its pins, and every pinned fixture. */
  predicate SameLink(p: Platform, st: State, st': State, v: string) {
    v in st.manifests && v in st'.manifests && Normalize(st.manifests[v]) == Normalize(st'.manifests[v]) &&
    var m := p.parse(Normalize(st.manifests[v]));
    var pins := if m.Some? then Entries(Property(m.value, "selectedFixtures")) else None;
    pins.Some? && SameFixtures(ChainOf(st, v), ChainOf(st', v), pins.value)
  }

  /** What the manifest of a version pins. */
  function PinsOf(p: Platform, st: State, v: string): seq<Field> {
    match ReadManifest(p, st, v)
    case Some(m) => Entries(Property(m, "selectedFixtures")).GetOr([])
    case None => []
  }

  /** Two versions of a pinned file differ by more than line endings but have one digest. */
  predicate PinnedClash(p: Platform, a: map<string, string>, b: map<string, string>, pins: seq<Field>) {
    exists i :: 0 <= i < |pins| && pins[i].key in a && pins[i].key in b && p.Clash(a[pins[i].key], b[pins[i].key])
  }

  /**
   * While its manifest stays, a link remains sealed exactly as long as its pinned bytes stay, unless
   * two versions of one pinned fixture clash.
   */
  lemma SealLastsAsLongAsBytes(p: Platform, st: State, st': State, v: string)
    requires Sealed(p, st, v) && v in st'.manifests && st'.manifests[v] == st.manifests[v]
    ensures SameFixtures(ChainOf(st, v), ChainOf(st', v), PinsOf(p, st, v)) ==> Sealed(p, st', v)
    ensures Sealed(p, st', v) ==>
              || PinnedClash(p, ChainOf(st, v), ChainOf(st', v), PinsOf(p, st, v))
              || SameFixtures(ChainOf(st, v), ChainOf(st', v), PinsOf(p, st, v))
  {
    hide Normalize;
    if Sealed(p, st', v) {
      SamePins(p, ChainOf(st, v), ChainOf(st', v), PinsOf(p, st, v));
    }
  }

  lemma SamePins(p: Platform, a: map<string, string>, b: map<string, string>, pins: seq<Field>)
    requires PinsMatch(p, a, pins) && PinsMatch(p, b, pins)
    ensures PinnedClash(p, a, b, pins) || SameFixtures(a, b, pins)
  {
    hide Normalize, IsDirectChild;
    if !PinnedClash(p, a, b, pins) {
      forall i | 0 <= i < |pins|
        ensures pins[i].key in a && pins[i].key in b && Normalize(a[pins[i].key]) == Normalize(b[pins[i].key])
      {
        assert !p.Clash(a[pins[i].key], b[pins[i].key]);
      }
    }
  }

  /** What the walk reads as the pins of a version: those of its normalised manifest. */
  function RetainedPins(p: Platform, st: State, v: string): seq<Field> {
    if v !in st.manifests then []
    else
      match p.parse(Normalize(st.manifests[v]))
      case Some(m) => Entries(Property(m, "selectedFixtures")).GetOr([])
      case None => []
  }

  /** Two stores hold clashing texts in one link: as its manifests, or as one of its pinned fixtures. */
  predicate LinkClash(p: Platform, st: State, st': State, v: string) {
    v in st.manifests && v in st'.manifests &&
    (|| p.Clash(st.manifests[v], st'.manifests[v])
     || PinnedClash(p, ChainOf(st, v), ChainOf(st', v), RetainedPins(p, st, v)))
  }

  /** One step of the walk pins the whole predecessor. */
  lemma RetainedBinds(p: Platform, st: State, st': State, m: Json, m': Json)
    requires VersionOf(m) == VersionOf(m') && LinkOf(m) == LinkOf(m')
    requires Retained(p, st, m).Some? && Retained(p, st', m').Some?
    ensures var w := Predecessor(VersionOf(m).value).value;
            || LinkClash(p, st, st', w)
            || (Retained(p, st, m) == Retained(p, st', m') && SameLink(p, st, st', w))
  {
    hide Normalize, IsDirectChild, PinsMatch, SameFixtures, PinnedClash, LinkOf, Rank;
    var w := Predecessor(VersionOf(m).value).value;
    PredecessorIsOlder(VersionOf(m).value);
    var a, b := st.manifests[w], st'.manifests[w];
    if !LinkClash(p, st, st', w) {
      assert !p.Clash(a, b) && Normalize(a) == Normalize(b);
      SamePins(p, ChainOf(st, w), ChainOf(st', w), RetainedPins(p, st, w));
    }
  }

  /** Some link retained from both heads holds clashing texts. */
  predicate RetainedClash(p: Platform, st: State, st': State, m: Json, m': Json) {
    exists v :: v in RetainedVersions(p, st, m) && v in RetainedVersions(p, st', m') && LinkClash(p, st, st', v)
  }

  /**
   * Hash-chain binding: two repositories whose accepted heads agree on version and link retain the
   * same versions with the same bytes, unless two texts of one retained link clash.
   */
  lemma {:induction false} ChainIsBound(p: Platform, st: State, st': State, m: Json, m': Json)
    requires VersionOf(m) == VersionOf(m') && LinkOf(m) == LinkOf(m')
    requires WalkAccepts(p, st, m) && WalkAccepts(p, st', m')
    ensures RetainedClash(p, st, st', m, m') || (
              && RetainedVersions(p, st, m) == RetainedVersions(p, st', m')
              && forall v :: v in RetainedVersions(p, st, m) ==> SameLink(p, st, st', v))
    decreases ManifestRank(m)
  {
    hide SameLink, LinkClash, Retained, VersionOf, LinkOf, Predecessor;
    if LinkOf(m).Some? {
      RetainedRankDrops(p, st, m);
      RetainedRankDrops(p, st', m');
      var w := Predecessor(VersionOf(m).value).value;
      var previous, previous' := Retained(p, st, m).value, Retained(p, st', m').value;
      assert RetainedVersions(p, st, m) == [w] + RetainedVersions(p, st, previous);
      assert RetainedVersions(p, st', m') == [w] + RetainedVersions(p, st', previous');
      RetainedBinds(p, st, st', m, m');
      if LinkClash(p, st, st', w) {
        assert RetainedClash(p, st, st', m, m');
      } else {
        ChainIsBound(p, st, st', previous, previous');
        if RetainedClash(p, st, st', previous, previous') {
          var v :| v in RetainedVersions(p, st, previous) && v in RetainedVersions(p, st', previous')
                   && LinkClash(p, st, st', v);
          assert v in RetainedVersions(p, st, m) && v in RetainedVersions(p, st', m');
        }
      }
    }
  }

  /**
   * A link made over an unpinned predecessor can never be repaired: no repository with the same head
   * link is accepted, whatever else was changed, unless its predecessor's manifest clashes with the
   * unpinned one.
   */
  lemma UnpinnedIsPermanent(p: Platform, st: State, st': State, m: Json, v: string, w: string)
    requires p.Faithful() && Predecessor(v) == Some(w) && w in st.manifests
    requires ReadManifest(p, st, w).Some? && Entries(Property(ReadManifest(p, st, w).value, "selectedFixtures")) == None
    requires VersionOf(m) == Some(v) && LinkOf(m) == Some(LinkRecord(Some(w), Some(p.Sha256(st.manifests[w]))))
    ensures WalkAccepts(p, st', m) ==> w in st'.manifests && p.Clash(st.manifests[w], st'.manifests[w])
  {
    hide Normalize;
    if WalkAccepts(p, st', m) {
      PredecessorIsOlder(v);
      assert p.parse(Normalize(st.manifests[w])) == p.parse(st.manifests[w]);
    }
  }
}
