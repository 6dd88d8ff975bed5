/** What is settled for good: frozen links, permanent verdicts, and what a pin buys the verifier. */
module Histories {
  import opened Base
  import opened Json
  import opened LineEndings
  import opened ReferenceSelection
  import opened EvidenceFields
  import opened Repository
  import opened EvidenceLocks
  import opened Maintenance
  import opened Resumption
  import opened ReferenceChain
  import opened ManifestTheorems
  import opened ChainTheorems
  import opened Lifecycle

  /** Between two states only the link of one version changed. */
  ghost predicate TouchesOnly(v: string, st: State, st': State) {
    && (forall w :: w != v ==> (w in st'.manifests <==> w in st.manifests) && (w in st'.chains <==> w in st.chains))
    && (forall w :: w != v && w in st.manifests ==> st'.manifests[w] == st.manifests[w])
    && (forall w :: w != v && w in st.chains ==> st'.chains[w] == st.chains[w])
  }

  lemma TouchingOnlyAgreesBelow(v: string, st: State, st': State)
    requires TouchesOnly(v, st, st')
    ensures AgreeBelow(st, st', Rank(v))
  {
  }

  lemma InitializeTouchesOnly(p: Platform, st: State)
    ensures TouchesOnly(st.version, st, Initialize(p, st).state) && Initialize(p, st).state.version == st.version
  {
    hide NewManifest, Copies, FixtureSources;
  }

  lemma OneManifestTouchesOnly(st: State, text: string)
    ensures TouchesOnly(st.version, st, st.(manifests := st.manifests[st.version := text]))
  {
  }

  lemma OneChainTouchesOnly(st: State, chain: map<string, string>)
    ensures TouchesOnly(st.version, st, st.WithChain(chain)) && TouchesOnly(st.version, st, st)
  {
  }

  lemma PinTouchesOnly(p: Platform, st: State)
    ensures TouchesOnly(st.version, st, Pin(p, st).state) && Pin(p, st).state.version == st.version
  {
    hide Pin, TouchesOnly, Pinned, Pinnable, HistoricalBytesMatch, Run;
    FailedPinKeeps(p, st);
    SameFilesTouchNothing(st, st);
    if Pin(p, st).ok {
      PinUnfolds(p, st);
      OneManifestTouchesOnly(st, Pin(p, st).state.manifests[st.version]);
    }
  }

  lemma RunTouchesOnly(p: Platform, mode: Mode, source: Option<string>, st: State)
    ensures TouchesOnly(st.version, st, Run(p, mode, source, st).state)
    ensures Run(p, mode, source, st).state.version == st.version
  {
    hide Run;
    RunFrame(p, mode, source, st);
  }

  /** One action only touches the link of the current version, and the version never goes back. */
  lemma ActionFrame(p: Platform, a: Action, st: State)
    ensures TouchesOnly(st.version, st, Effect(p, a, st)) && Rank(st.version) <= Rank(Effect(p, a, st).version)
  {
    hide Pin, Initialize, Run, Handled, Prelude, Copies, FixtureSources, TouchesOnly;
    match a
    case InitializeChain => InitializeTouchesOnly(p, st);
    case PinSelection => PinTouchesOnly(p, st);
    case MaintainLocks(mode, source) => RunTouchesOnly(p, mode, source, st);
    case AdvanceVersion =>
      SuccessorRank(st.version);
      SameFilesTouchNothing(st, Effect(p, a, st));
    case StopInitializing(k) => ChainTouchesOnly(p, a, st);
    case StopWriting(_, _) => ChainTouchesOnly(p, a, st);
    case _ => SameFilesTouchNothing(st, Effect(p, a, st));
  }

  lemma SameFilesTouchNothing(st: State, st': State)
    requires st'.chains == st.chains && st'.manifests == st.manifests
    ensures TouchesOnly(st.version, st, st')
  {
  }

  lemma ChainTouchesOnly(p: Platform, a: Action, st: State)
    requires a.StopInitializing? || a.StopWriting?
    ensures TouchesOnly(st.version, st, Effect(p, a, st)) && Effect(p, a, st).version == st.version
  {
    hide Handled, Prelude, Copies, TouchesOnly, FixtureSources;
    OneChainTouchesOnly(st, Effect(p, a, st).Chain());
    assert Effect(p, a, st) == st || Effect(p, a, st) == st.WithChain(Effect(p, a, st).Chain());
  }

  /** Once the version has moved on, no action ever changes an older link again. */
  lemma {:induction false} OlderLinksAreFrozen(p: Platform, actions: seq<Action>, st: State)
    ensures AgreeBelow(st, Play(p, actions, st), Rank(st.version))
    decreases |actions|
  {
    hide Effect, TouchesOnly;
    if actions != [] {
      ActionFrame(p, actions[0], st);
      TouchingOnlyAgreesBelow(st.version, st, Effect(p, actions[0], st));
      OlderLinksAreFrozen(p, actions[1..], Effect(p, actions[0], st));
    }
  }

  /** A manifest whose chain exists, with its version and a link that a pin can print. */
  predicate Linked(p: Platform, st: State, v: string, link: Option<LinkRecord>) {
    var m := ReadManifest(p, st, v);
    v in st.chains && m.Some? && VersionOf(m.value) == Some(v) && LinkOf(m.value) == link
    && !LinkPrintsAsNull(p, m.value)
  }

  lemma ActionKeepsLink(p: Platform, a: Action, st: State, v: string, link: Option<LinkRecord>)
    requires p.Faithful() && Linked(p, st, v, link)
    ensures Linked(p, Effect(p, a, st), v, link)
  {
    hide Platform.Faithful, Pin, Run, Handled, Prelude, NewManifest, Copies, LinkOf, SelectedBytesMatch,
         PinTablesAgree, VersionOf, LinkPrintsAsNull;
    match a
    case PinSelection =>
      FailedPinKeeps(p, st);
      if Pin(p, st).ok {
        PinMeans(p, st);
      }
    case MaintainLocks(mode, source) => RunFrame(p, mode, source, st);
    case _ =>
  }

  /** Through every history a manifest keeps its version and what its link names. */
  lemma {:induction false} HistoryKeepsLink(p: Platform, actions: seq<Action>, st: State, v: string,
                                            link: Option<LinkRecord>)
    requires p.Faithful() && Linked(p, st, v, link)
    ensures Linked(p, Play(p, actions, st), v, link)
    decreases |actions|
  {
    hide Effect, Linked;
    if actions != [] {
      ActionKeepsLink(p, actions[0], st, v, link);
      HistoryKeepsLink(p, actions[1..], Effect(p, actions[0], st), v, link);
    }
  }

  /**
   * Whether a link is ever accepted is decided when it is initialised: through any later history
   * it is accepted exactly when its predecessor was then accepted and sealed.
   */
  lemma AcceptanceIsDecidedAtBirth(p: Platform, actions: seq<Action>, st: State)
    requires p.Faithful() && Initialize(p, st).ok
    ensures Accepted(p, Play(p, actions, Initialize(p, st).state), st.version) <==>
            match Predecessor(st.version)
            case None => true
            case Some(w) => Sealed(p, st, w) && Accepted(p, st, w)
  {
    hide Initialize, Link, Sealed, LinkOf, Play;
    var born := Initialize(p, st).state;
    var final := Play(p, actions, born);
    InitializeMeans(p, st);
    InitializedVersion(p, st);
    FreshLinkAccepted(p, st);
    var m := ReadManifest(p, born, st.version).value;
    NamingLinkPrints(p, m);
    HistoryKeepsLink(p, actions, born, st.version, LinkOf(m));
    OlderLinksAreFrozen(p, actions, born);
    WalkFrame(p, born, final, m, ReadManifest(p, final, st.version).value);
  }

  lemma InitializedVersion(p: Platform, st: State)
    ensures Initialize(p, st).state.version == st.version
    ensures Initialize(p, st).ok ==> st.version in Initialize(p, st).state.chains
  {
    hide NewManifest, Copies;
  }

  /** In particular an unpinned predecessor dooms the link for every later history. */
  lemma UnpinnedPredecessorDooms(p: Platform, actions: seq<Action>, st: State, w: string)
    requires p.Faithful() && Initialize(p, st).ok && Predecessor(st.version) == Some(w)
    requires ReadManifest(p, st, w).Some? && Entries(Property(ReadManifest(p, st, w).value, "selectedFixtures")) == None
    ensures !Accepted(p, Play(p, actions, Initialize(p, st).state), st.version)
  {
    hide Initialize, Play;
    AcceptanceIsDecidedAtBirth(p, actions, st);
  }

  /** A successful pin seals the current link. */
  lemma PinSeals(p: Platform, st: State)
    requires p.Faithful() && Pin(p, st).ok
    ensures Sealed(p, Pin(p, st).state, st.version)
  {
    hide Pin, LinkOf, PinTablesAgree;
    PinMeans(p, st);
    PinNeedsChain(p, st);
  }

  lemma PinRegistered(p: Platform, st: State)
    requires Pin(p, st).ok
    ensures Registered(st.version)
  {
    hide Pinned, SameSemantics, Run;
  }

  lemma PinnedLink(p: Platform, st: State)
    requires p.Faithful() && Pin(p, st).ok
    ensures var pinned := Pin(p, st).state;
            pinned.version == st.version && st.version in pinned.chains && st.version in pinned.manifests
  {
    hide Pin, LinkOf, SelectedBytesMatch, PinTablesAgree;
    PinKeepsVersion(p, st);
    PinMeans(p, st);
    PinNeedsChain(p, st);
  }

  /** A lock write followed by a new version leaves the written link as the predecessor of the next. */
  lemma WriteThenAdvance(p: Platform, st: State, key: string)
    requires Registered(st.version) && Successor(st.version).Some? && st.version in st.chains
    ensures var after := Run(p, Write, Some(key), st).state;
            var last := Effect(p, AdvanceVersion, after);
            && last.version == Successor(st.version).value && Predecessor(last.version) == Some(st.version)
            && st.version in last.chains && last.manifests == st.manifests
            && ChainOf(last, st.version) == after.Chain()
  {
    hide Run;
    RunFrame(p, Write, Some(key), st);
  }

  /** Two sealed states with one manifest hold files of one digest under each pinned name. */
  lemma PinnedDigests(p: Platform, st: State, st': State, v: string, n: string)
    requires Sealed(p, st, v) && Sealed(p, st', v) && st'.manifests[v] == st.manifests[v]
    requires n in NamesOf(PinsOf(p, st, v))
    ensures n in ChainOf(st, v) && n in ChainOf(st', v) && p.Sha256(ChainOf(st, v)[n]) == p.Sha256(ChainOf(st', v)[n])
  {
    hide Platform.Sha256, IsDirectChild;
    var pins := PinsOf(p, st, v);
    var i :| 0 <= i < |pins| && NamesOf(pins)[i] == n;
    assert pins[i].key == n;
  }

  /**
   * Pinning every link before the next one is initialised is not enough: when the evidence of a
   * pinned fixture moves after the pin and the locks are written again without a new pin, the next
   * link is rejected in every later history.
   */
  lemma WriteAfterPinDooms(p: Platform, st: State, producers: map<string, string>, key: string, n: string,
                           later: seq<Action>)
    requires p.Faithful() && Pin(p, st).ok && Successor(st.version).Some?
    requires var moved := Pin(p, st).state.(producers := producers);
             && Run(p, Write, Some(key), moved).verdict == Clean && Prelude(p, moved).Some?
             && n in FixtureNames(moved.Chain()) && !UpToDate(Prelude(p, moved).value, Only({key}), moved.Chain()[n])
             && n in NamesOf(PinsOf(p, moved, st.version))
             && Initialize(p, Effect(p, AdvanceVersion, Run(p, Write, Some(key), moved).state)).ok
    ensures var moved := Pin(p, st).state.(producers := producers);
            var last := Effect(p, AdvanceVersion, Run(p, Write, Some(key), moved).state);
            && n in ChainOf(moved, st.version) && n in ChainOf(last, st.version)
            && (p.Clash(ChainOf(moved, st.version)[n], ChainOf(last, st.version)[n])
                || !Accepted(p, Play(p, later, Initialize(p, last).state), last.version))
  {
    hide Pin, Run, Prelude, Initialize, Play, UpToDate, Sealed, Accepted, Effect, Normalize, IsFixtureName,
         SameFixtures, NamesOf;
    var pinned := Pin(p, st).state;
    var moved := pinned.(producers := producers);
    var last := Effect(p, AdvanceVersion, Run(p, Write, Some(key), moved).state);
    PinnedLink(p, st);
    PinRegistered(p, st);
    WriteThenAdvance(p, moved, key);
    PinSeals(p, st);
    WriteMovesStaleBytes(p, key, moved, n);
    if Sealed(p, last, st.version) {
      PinnedDigests(p, pinned, last, st.version, n);
    }
    AcceptanceIsDecidedAtBirth(p, later, last);
  }

  // ----- interrupted initialisations

  /** A version with a chain but no manifest stays so in every history, and nothing succeeds while it is selected. */
  lemma {:induction false} UnfinishedStays(p: Platform, actions: seq<Action>, st: State, v: string)
    requires v in st.chains && v !in st.manifests
    ensures var last := Play(p, actions, st);
            && v in last.chains && v !in last.manifests
            && (last.version == v ==> !Initialize(p, last).ok && !Pin(p, last).ok && !Verifies(p, last))
    decreases |actions|
  {
    hide Effect, Initialize, Pin, Verifies;
    UnfinishedIsStuck(p, st);
    if actions != [] {
      var next := Effect(p, actions[0], st);
      ActionFrame(p, actions[0], st);
      if v == st.version {
        OnlyThoseMakeManifests(p, actions[0], st);
      }
      UnfinishedStays(p, actions[1..], next, v);
    }
  }

  lemma UnfinishedIsStuck(p: Platform, st: State)
    ensures st.version in st.chains && st.version !in st.manifests ==>
              !Initialize(p, st).ok && !Pin(p, st).ok && !Verifies(p, st)
  {
    hide NewManifest, Copies, FixtureSources, WalkAccepts, HeadOk, FixtureOk;
  }

  /** The version has a chain without a manifest, and no later version has a manifest either. */
  ghost predicate Orphaned(st: State, v: string) {
    && Registered(v) && v in st.chains && Rank(v) <= Rank(st.version)
    && forall w :: w in st.manifests && Registered(w) ==> Rank(w) < Rank(v)
  }

  /** Nothing that is done to an orphaned version succeeds, and neither does anything done to a later one. */
  lemma OrphanedIsStuck(p: Platform, st: State, v: string)
    requires Orphaned(st, v)
    ensures ReadManifest(p, st, st.version) == None
    ensures !Initialize(p, st).ok && !Pin(p, st).ok && !Verifies(p, st)
    ensures forall mode, source :: Run(p, mode, source, st) == Report(st, Threw, [])
  {
    hide Copies, FixtureSources, Pins, WalkAccepts, HeadOk, FixtureOk, HistoricalBytesMatch;
    VersionsDiffer();
    OrphanedReadsNothing(p, st, v);
  }

  lemma OrphanedReadsNothing(p: Platform, st: State, v: string)
    requires Orphaned(st, v)
    ensures ReadManifest(p, st, st.version) == None
    ensures st.version == v || (Registered(st.version) ==>
              match Predecessor(st.version) case Some(w) => w !in st.manifests case None => false)
  {
    VersionsDiffer();
  }

  lemma OrphanedStays(p: Platform, a: Action, st: State, v: string)
    requires Orphaned(st, v)
    ensures Orphaned(Effect(p, a, st), v)
  {
    hide Effect, Initialize, Pin, Rank;
    ActionFrame(p, a, st);
    OrphanedIsStuck(p, st, v);
    OnlyThoseMakeManifests(p, a, st);
  }

  lemma OnlyThoseMakeManifests(p: Platform, a: Action, st: State)
    requires !Initialize(p, st).ok && !Pin(p, st).ok
    ensures Effect(p, a, st).manifests == st.manifests
    ensures forall w :: w in st.chains ==> w in Effect(p, a, st).chains
  {
    hide Run, Handled, Prelude, Copies, FixtureSources, Pin, NewManifest;
    FailedPinKeeps(p, st);
    match a
    case MaintainLocks(mode, source) => RunFrame(p, mode, source, st);
    case _ =>
  }

  /**
   * An initialisation that was interrupted, or found no manifest of its predecessor, is final: through
   * every later history the version keeps its chain without a manifest, and no run of any tool
   * succeeds on it or on a later version.
   */
  lemma {:induction false} OrphansAreForever(p: Platform, actions: seq<Action>, st: State, v: string)
    requires Orphaned(st, v)
    ensures var last := Play(p, actions, st);
            && Orphaned(last, v) && !Initialize(p, last).ok && !Pin(p, last).ok && !Verifies(p, last)
            && forall mode, source :: Run(p, mode, source, last) == Report(last, Threw, [])
    decreases |actions|
  {
    hide Effect, Initialize, Pin, Verifies, Run, Orphaned;
    if actions == [] {
      OrphanedIsStuck(p, st, v);
    } else {
      OrphanedStays(p, actions[0], st, v);
      OrphansAreForever(p, actions[1..], Effect(p, actions[0], st), v);
    }
  }

  /** Such an initialisation leaves an orphan, unless a manifest of that version or a later one was there before. */
  lemma FailedInitializationOrphans(p: Platform, a: Action, st: State)
    requires a.StopInitializing? || (a.InitializeChain? && !Initialize(p, st).ok)
    requires forall w :: w in st.manifests && Registered(w) ==> Rank(w) < Rank(st.version)
    ensures Effect(p, a, st) != st ==> Orphaned(Effect(p, a, st), st.version)
  {
    hide Copies, FixtureSources, NewManifest, Rank;
  }

  lemma PinKeepsVersion(p: Platform, st: State)
    ensures Pin(p, st).state.version == st.version
  {
    hide Pin;
    PinTouchesOnly(p, st);
  }

  lemma PinNeedsChain(p: Platform, st: State)
    requires Pin(p, st).ok
    ensures st.version in st.chains
  {
    hide Pinned, SameSemantics, FixturePass, Finish, FixtureNames, Descriptors;
    PinUnfolds(p, st);
  }

  /**
   * What is left for the verifier after a pin: the older links, the composer, the owner projections,
   * and that the historical pins did not print as null.
   */
  predicate Remaining(p: Platform, st: State, manifest: Json) {
    && Entries(Property(manifest, "historicalFixtures")).Some?
    && WalkAccepts(p, st, manifest) && ComposerOk(p, st, manifest)
    && forall k :: k in KeysOf(Entries(Property(manifest, "historicalFixtures")).GetOr([])) ==>
         && k in st.Chain() && k in st.historical
         && p.parse(st.Chain()[k]).Some? && AncestryOk(manifest, p.parse(st.Chain()[k]).value)
         && p.parse(st.historical[k]).Some? && OwnerProjectionOk(p, st, p.parse(st.historical[k]).value)
  }

  /** Right after a pin the verifier accepts exactly when what the pin did not look at is in order. */
  lemma PinDischargesVerifier(p: Platform, st: State)
    requires p.Faithful() && Pin(p, st).ok
    ensures var after := Pin(p, st).state;
            ReadManifest(p, after, st.version).Some? &&
            (Verifies(p, after) <==> Remaining(p, after, ReadManifest(p, after, st.version).value))
  {
    hide Pin, LinkOf, Run, AncestryOk, OwnerProjectionOk, Semantics, PinsMatch, ComposerOk, SelectedBytesMatch,
         PinTablesAgree, HistoricalBytesMatch, Platform.Faithful, KeysOf, WalkAccepts, Property;
    PinMeans(p, st);
    var after := Pin(p, st).state;
    var manifest := ReadManifest(p, after, st.version).value;
    PinsAreNeeded(p, after, manifest);
    if Entries(Property(manifest, "historicalFixtures")).Some? {
      PinnedFixturesMean(p, st);
    }
  }

  lemma PinsAreNeeded(p: Platform, st: State, manifest: Json)
    ensures HistoricalBytesMatch(p, st, manifest) ==> Entries(Property(manifest, "historicalFixtures")).Some?
    ensures VersionOf(manifest).Some? ==> manifest != Null
  {
  }

  /** What the pin has checked of each historical fixture. */
  lemma PinnedFixturesMean(p: Platform, st: State)
    requires p.Faithful() && Pin(p, st).ok && ReadManifest(p, Pin(p, st).state, st.version).Some?
    requires Entries(Property(ReadManifest(p, Pin(p, st).state, st.version).value, "historicalFixtures")).Some?
    ensures var after := Pin(p, st).state;
            var historical := Property(ReadManifest(p, after, st.version).value, "historicalFixtures");
            forall k :: k in KeysOf(Entries(historical).value) ==>
              && k in after.Chain() && k in after.historical && SameSemantics(p, after.Chain()[k], after.historical[k])
              && p.parse(after.Chain()[k]).Some? && p.parse(after.historical[k]).Some?
  {
    hide Pin, LinkOf, Run, Semantics, PinsMatch, Platform.Faithful, Platform.Stored, Platform.StoredFields, Pinned;
    PinMeans(p, st);
    PinUnfolds(p, st);
    var before := ReadManifest(p, st, st.version).value;
    var pins := Entries(Property(before, "historicalFixtures"));
    PinsAreExact(p, st.historical, pins.value);
    EntriesStored(p, Property(before, "historicalFixtures"));
    forall k | k in KeysOf(pins.value)
      ensures k in st.Chain() && k in st.historical && SameSemantics(p, st.Chain()[k], st.historical[k])
      ensures p.parse(st.Chain()[k]).Some? && p.parse(st.historical[k]).Some?
    {
      var i :| 0 <= i < |pins.value| && pins.value[i].key == k;
      MeaningfulTextsParse(p, st.Chain()[k]);
      MeaningfulTextsParse(p, st.historical[k]);
    }
  }

  lemma MeaningfulTextsParse(p: Platform, text: string)
    ensures Semantics(p, text).Some? ==> p.parse(text).Some?
  {
  }
}
