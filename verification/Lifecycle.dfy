/** Whole histories of the reference chain: every tool run, interruption and version change. */
module Lifecycle {
  import opened Base
  import opened Json
  import opened LineEndings
  import opened Listing
  import opened ReferenceSelection
  import opened EvidenceFields
  import opened Repository
  import opened EvidenceLocks
  import opened Meanings
  import opened RunTheorems
  import opened Resumption
  import opened Preservation
  import opened ReferenceChain
  import opened ManifestTheorems
  import opened ChainTheorems

  /** Versions only advance, one registered step at a time. */
  function Successor(version: string): Option<string> {
    if version == DEV0 then Some(DEV1) else if version == DEV1 then Some(DEV2)
    else if version == DEV2 then Some(DEV3) else None
  }

  datatype Action =
    | InitializeChain
    | StopInitializing(copied: nat)              // the process dies after so many fixture copies
    | MaintainLocks(mode: Mode, source: Option<string>)
    | StopWriting(key: string, handled: nat)  // the process dies after so many fixtures
    | PinSelection
    | AdvanceVersion
    | Produce(producers: map<string, string>)    // producers run and leave new evidence
    | EditSelector(text: string)

  ghost function Effect(p: Platform, a: Action, st: State): State {
    match a
    case InitializeChain => Initialize(p, st).state
    case StopInitializing(k) =>
      var names := Sorted(FixtureSources(st.historical));
      if !Registered(st.version) || st.version in st.chains || k > |names| then st
      else st.WithChain(Copies(st.historical, Elements(names[..k])))
    case MaintainLocks(mode, source) => Run(p, mode, source, st).state
    case StopWriting(source, k) =>
      if Prelude(p, st).Some? && k <= |Names(st)| then st.WithChain(Handled(p, source, st, k).chain) else st
    case PinSelection => Pin(p, st).state
    case AdvanceVersion => if Successor(st.version).Some? then st.(version := Successor(st.version).value) else st
    case Produce(producers) => st.(producers := producers)
    case EditSelector(text) => st.(selector := text)
  }

  /** A link is only initialised over a sealed predecessor. */
  ghost predicate InitializesOverSeal(p: Platform, a: Action, st: State) {
    a.InitializeChain? && Initialize(p, st).ok && Predecessor(st.version).Some? ==>
      Sealed(p, st, Predecessor(st.version).value)
  }

  /** The action is going to rewrite the fixture: it is stale, and the write gets that far. */
  ghost predicate WillRewrite(p: Platform, a: Action, st: State, n: string) {
    match a
    case MaintainLocks(mode, source) => Rewrites(p, mode, source, st, n)
    case StopWriting(key, k) => k <= |Names(st)| && n in Names(st)[..k] && Rewrites(p, Write, Some(key), st, n)
    case _ => false
  }

  /** Every fixture that the action is going to rewrite keeps only numbers that print as themselves. */
  ghost predicate WritesDurably(p: Platform, a: Action, st: State) {
    forall n :: n in st.Chain() && WillRewrite(p, a, st, n) ==> DurableText(p, st.Chain()[n])
  }

  /** The working discipline. */
  ghost predicate Disciplined(p: Platform, a: Action, st: State) {
    InitializesOverSeal(p, a, st) && WritesDurably(p, a, st)
  }

  ghost function Play(p: Platform, actions: seq<Action>, st: State): State
    decreases |actions|
  {
    if actions == [] then st else Play(p, actions[1..], Effect(p, actions[0], st))
  }

  /** Every state of a history is sound. */
  ghost predicate AlwaysSound(p: Platform, actions: seq<Action>, st: State)
    decreases |actions|
  {
    Sound(p, st) && (actions == [] || AlwaysSound(p, actions[1..], Effect(p, actions[0], st)))
  }

  ghost predicate AllDisciplined(p: Platform, actions: seq<Action>, st: State)
    decreases |actions|
  {
    actions == [] || (Disciplined(p, actions[0], st) && AllDisciplined(p, actions[1..], Effect(p, actions[0], st)))
  }

  /** A chain holds copies of historical fixtures that differ from them in ancestry only. */
  predicate ChainFaithful(p: Platform, historical: map<string, string>, chain: map<string, string>) {
    forall n :: n in chain && n != LOCKS_FILE ==>
      n in historical && Semantics(p, chain[n]) == Semantics(p, historical[n])
  }

  predicate Sound(p: Platform, st: State) {
    && (forall v :: v in st.chains ==> Registered(v) && Rank(v) <= Rank(st.version))
    && (forall v :: v in st.chains ==> ChainFaithful(p, st.historical, st.chains[v]))
    && (forall v :: v in st.manifests ==> v in st.chains && Accepted(p, st, v))
  }

  lemma SuccessorRank(v: string)
    ensures Successor(v).Some? ==> Rank(Successor(v).value) == Rank(v) + 1 && Registered(Successor(v).value)
  {
    VersionsDiffer();
  }

  lemma CopiesAreFaithful(p: Platform, historical: map<string, string>, names: set<string>)
    requires p.Faithful()
    ensures ChainFaithful(p, historical, Copies(historical, names))
  {
    forall n | n in Copies(historical, names)
      ensures Semantics(p, Copies(historical, names)[n]) == Semantics(p, historical[n])
    {
      assert p.parse(Normalize(historical[n])) == p.parse(historical[n]);
    }
  }

  /** Acceptance of a link survives whatever happens to links that are not older. */
  lemma AcceptanceFrame(p: Platform, st: State, st': State, v: string)
    requires Accepted(p, st, v) && v in st'.manifests && st'.manifests[v] == st.manifests[v]
    requires AgreeBelow(st, st', Rank(v))
    ensures Accepted(p, st', v)
  {
    var m := ReadManifest(p, st, v).value;
    WalkFrame(p, st, st', m, m);
  }

  /** Changing only the chain of the current version, faithfully, keeps the state sound. */
  lemma ChainUpdateIsSound(p: Platform, st: State, chain: map<string, string>)
    requires Sound(p, st) && Registered(st.version) && ChainFaithful(p, st.historical, chain)
    ensures Sound(p, st.WithChain(chain))
  {
    hide Accepted, ChainFaithful;
    var after := st.WithChain(chain);
    forall v | v in after.manifests ensures Accepted(p, after, v) {
      AgreeBelowCurrent(st, chain, v);
      AcceptanceFrame(p, st, after, v);
    }
  }

  lemma AgreeBelowCurrent(st: State, chain: map<string, string>, v: string)
    requires Rank(v) <= Rank(st.version)
    ensures AgreeBelow(st, st.WithChain(chain), Rank(v))
  {
  }

  /** A run that writes is sound exactly when all it rewrites is durable. */
  lemma MaintenanceIsSound(p: Platform, a: Action, st: State)
    requires p.Faithful() && Sound(p, st) && (a.MaintainLocks? || a.StopWriting?)
    ensures Effect(p, a, st).historical == st.historical
    ensures Sound(p, Effect(p, a, st)) <==> WritesDurably(p, a, st)
  {
    hide Effect, Semantics, Accepted, DurableText, WillRewrite, Platform.Faithful, Rank;
    var after := Effect(p, a, st);
    MaintenanceFrame(p, a, st);
    MaintenanceKeepsMeaning(p, a, st);
    if st.version in st.chains && Registered(st.version) {
      assert ChainFaithful(p, st.historical, st.Chain());
      if WritesDurably(p, a, st) {
        ChainUpdateIsSound(p, st, after.Chain());
      }
      if Sound(p, after) {
        assert ChainFaithful(p, st.historical, after.Chain());
      }
    }
  }

  lemma MaintenanceFrame(p: Platform, a: Action, st: State)
    requires a.MaintainLocks? || a.StopWriting?
    ensures var after := Effect(p, a, st);
            && after == st.(chains := after.chains) && after.Chain().Keys == st.Chain().Keys
            && (after == st || (st.version in st.chains && Registered(st.version)))
            && (st.version in st.chains ==> after == st.WithChain(after.Chain()))
    ensures forall n :: WillRewrite(p, a, st, n) ==>
              st.version in st.chains && Registered(st.version) && n in st.Chain() && n != LOCKS_FILE
  {
    hide Run, Handled, Prelude, FixtureNames, Rewritten, Rank;
    PreludeNeedsVersion(p, st);
    match a {
      case MaintainLocks(mode, source) =>
        RunNeedsPrelude(p, mode, source, st);
        RunFrame(p, mode, source, st);
        RewritesFixtures(p, mode, source, st);
      case StopWriting(key, k) =>
        HandledFrame(p, key, st, k);
        RewritesFixtures(p, Write, Some(key), st);
    }
  }

  lemma HandledFrame(p: Platform, key: string, st: State, k: nat)
    ensures Prelude(p, st).Some? && k <= |Names(st)| ==> Handled(p, key, st, k).chain.Keys == st.Chain().Keys
  {
    hide FixtureStep, FixturePass, Prelude, FixtureNames, Stepper;
    if Prelude(p, st).Some? && k <= |Names(st)| {
      PassPreserves(Stepper(Prelude(p, st).value, Write, Only({key}), st.historical), st.Chain(), Names(st)[..k],
                    (n, t) => true);
    }
  }

  lemma RewritesFixtures(p: Platform, mode: Mode, source: Option<string>, st: State)
    ensures forall n :: Rewrites(p, mode, source, st, n) ==>
              Prelude(p, st).Some? && n in st.Chain() && n in Names(st) && n != LOCKS_FILE
  {
    hide Prelude, Rewritten;
    forall n | Rewrites(p, mode, source, st, n) ensures n in st.Chain() && n in Names(st) && n != LOCKS_FILE {
      RewrittenIsFixture(Prelude(p, st).value, SelectionOf(source), st, n);
    }
  }

  /** What a run or an interrupted run does to the meaning of each fixture. */
  lemma MaintenanceKeepsMeaning(p: Platform, a: Action, st: State)
    requires p.Faithful() && (a.MaintainLocks? || a.StopWriting?)
    ensures forall n :: n in st.Chain() && n != LOCKS_FILE ==>
              && n in Effect(p, a, st).Chain()
              && (Semantics(p, Effect(p, a, st).Chain()[n]) == Semantics(p, st.Chain()[n]) <==>
                  !WillRewrite(p, a, st, n) || DurableText(p, st.Chain()[n]))
  {
    hide Run, Handled, Prelude, FixtureNames, Platform.Faithful, Rewritten, Semantics, DurableText;
    match a {
      case MaintainLocks(mode, source) =>
        RunKeepsSemantics(p, mode, source, st);
      case StopWriting(key, k) =>
        HandledKeepsSemantics(p, key, st, k);
    }
  }

  lemma RunNeedsPrelude(p: Platform, mode: Mode, source: Option<string>, st: State)
    ensures Run(p, mode, source, st).state != st ==> st.version in st.chains && Registered(st.version)
  {
    hide FixturePass, Finish, FixtureNames, HistoricalBytesMatch, Descriptors;
  }

  lemma PreludeNeedsVersion(p: Platform, st: State)
    ensures Prelude(p, st).Some? ==> st.version in st.chains && Registered(st.version)
  {
    hide HistoricalBytesMatch, Descriptors;
  }

  lemma HandledKeepsSemantics(p: Platform, key: string, st: State, k: nat)
    requires p.Faithful()
    ensures Prelude(p, st).Some? && k <= |Names(st)| ==>
              && var chain := Handled(p, key, st, k).chain;
              && st.version in st.chains && chain.Keys == st.Chain().Keys
              && forall n :: n in st.Chain() ==>
                   (Semantics(p, chain[n]) == Semantics(p, st.Chain()[n]) <==>
                    !(n in Names(st)[..k] && Rewrites(p, Write, Some(key), st, n)) || DurableText(p, st.Chain()[n]))
  {
    hide FixtureStep, FixturePass, Prelude, FixtureNames, Platform.Faithful, Rewritten, Semantics, DurableText;
    PreludeMeans(p, st);
    if Prelude(p, st).Some? && k <= |Names(st)| {
      WritePassMeans(Prelude(p, st).value, Only({key}), st, k);
    }
  }

  /** An accepted manifest names the version and the digest of its predecessor, if it has a link. */
  lemma AcceptedLinkNames(p: Platform, st: State, v: string)
    requires Accepted(p, st, v)
    ensures LinkOf(ReadManifest(p, st, v).value) != Some(LinkRecord(None, None))
  {
    hide LinkOf, Intact;
  }

  lemma PinIsSound(p: Platform, st: State)
    requires p.Faithful() && Sound(p, st)
    ensures Sound(p, Pin(p, st).state) && Pin(p, st).state.historical == st.historical
  {
    hide Pin, LinkOf, ChainFaithful, SelectedBytesMatch, PinTablesAgree, AgreeBelow, WalkAccepts, Rank,
         Platform.Faithful, VersionOf;
    if Pin(p, st).ok {
      PinMeans(p, st);
      var after := Pin(p, st).state;
      forall v | v in after.manifests ensures Accepted(p, after, v) {
        assert Accepted(p, st, v);
        AgreeBelowPinned(st, after, v);
        if v == st.version {
          AcceptedLinkNames(p, st, v);
          NamingLinkPrints(p, ReadManifest(p, st, v).value);
          WalkFrame(p, st, after, ReadManifest(p, st, v).value, ReadManifest(p, after, v).value);
        } else {
          AcceptanceFrame(p, st, after, v);
        }
      }
    } else {
      FailedPinKeeps(p, st);
    }
  }

  lemma FailedPinKeeps(p: Platform, st: State)
    ensures !Pin(p, st).ok ==> Pin(p, st).state == st
  {
    hide Run, Pinned, SameSemantics;
  }

  lemma AgreeBelowPinned(st: State, st': State, v: string)
    requires st' == st.(manifests := st'.manifests) && st'.manifests.Keys == st.manifests.Keys
    requires forall w :: w in st.manifests && w != st.version ==> st'.manifests[w] == st.manifests[w]
    requires Rank(v) <= Rank(st.version)
    ensures AgreeBelow(st, st', Rank(v))
  {
  }

  lemma InitializeIsSound(p: Platform, st: State)
    requires p.Faithful() && Sound(p, st)
    ensures Sound(p, Initialize(p, st).state) <==> InitializesOverSeal(p, InitializeChain, st)
    ensures Initialize(p, st).state.historical == st.historical
  {
    hide NewManifest, Copies, ChainFaithful, Accepted, Sealed, FixtureSources, LinkOf, Platform.Faithful, WalkAccepts,
         VersionOf;
    var after := Initialize(p, st).state;
    if after != st {
      var names := FixtureSources(st.historical);
      CopiesAreFaithful(p, st.historical, names);
      var copied := st.WithChain(Copies(st.historical, names));
      ChainUpdateIsSound(p, st, Copies(st.historical, names));
      if Initialize(p, st).ok {
        InitializeMeans(p, st);
        FreshLinkAccepted(p, st);
        forall v | v in after.manifests && v != st.version ensures Accepted(p, after, v) {
          AgreeBelowInitialized(copied, after, after.manifests[st.version], v);
          AcceptanceFrame(p, copied, after, v);
        }
      }
    }
  }

  lemma AgreeBelowInitialized(st: State, st': State, text: string, v: string)
    requires st.version in st.chains && v in st.chains && Rank(v) <= Rank(st.version)
    requires st' == st.(manifests := st.manifests[st.version := text])
    ensures AgreeBelow(st, st', Rank(v))
  {
  }

  /** One action keeps a sound state sound exactly when it is disciplined. */
  lemma ActionIsSound(p: Platform, a: Action, st: State)
    requires p.Faithful() && Sound(p, st)
    ensures Sound(p, Effect(p, a, st)) <==> Disciplined(p, a, st)
    ensures Effect(p, a, st).historical == st.historical
  {
    hide Pin, Initialize, Run, Handled, Accepted, ChainFaithful, DurableText, Platform.Faithful, Sealed;
    match a
    case InitializeChain => InitializeIsSound(p, st);
    case PinSelection => PinIsSound(p, st);
    case StopInitializing(k) =>
      var names := Sorted(FixtureSources(st.historical));
      if Effect(p, a, st) != st {
        CopiesAreFaithful(p, st.historical, Elements(names[..k]));
        ChainUpdateIsSound(p, st, Copies(st.historical, Elements(names[..k])));
      }
    case AdvanceVersion =>
      SuccessorRank(st.version);
      EnvironmentIsSound(p, st, Effect(p, a, st));
    case Produce(_) => EnvironmentIsSound(p, st, Effect(p, a, st));
    case EditSelector(_) => EnvironmentIsSound(p, st, Effect(p, a, st));
    case _ => MaintenanceIsSound(p, a, st);
  }

  lemma EnvironmentIsSound(p: Platform, st: State, st': State)
    requires Sound(p, st) && Rank(st.version) <= Rank(st'.version)
    requires st'.historical == st.historical && st'.chains == st.chains && st'.manifests == st.manifests
    ensures Sound(p, st')
  {
    hide ChainFaithful, WalkAccepts, Link, Rank;
    forall v | v in st'.manifests ensures Accepted(p, st', v) {
      AcceptanceFrame(p, st, st', v);
    }
  }

  lemma EffectKeepsHistory(p: Platform, a: Action, st: State)
    ensures Effect(p, a, st).historical == st.historical
  {
    hide Pin, Initialize, Run, Handled, Prelude, Copies, FixtureSources;
    match a
    case InitializeChain => InitializeKeepsHistory(p, st);
    case PinSelection => PinKeepsHistory(p, st);
    case MaintainLocks(_, _) => MaintenanceFrame(p, a, st);
    case StopWriting(_, _) => MaintenanceFrame(p, a, st);
    case _ =>
  }

  lemma InitializeKeepsHistory(p: Platform, st: State)
    ensures Initialize(p, st).state.historical == st.historical
  {
    hide NewManifest, Copies, FixtureSources;
  }

  lemma PinKeepsHistory(p: Platform, st: State)
    ensures Pin(p, st).state.historical == st.historical
  {
    hide Run, Pinned, SameSemantics;
  }

  /** The historical fixtures never change, in any history from any state. */
  lemma {:induction false} HistoryIsFrozen(p: Platform, actions: seq<Action>, st: State)
    ensures Play(p, actions, st).historical == st.historical
    decreases |actions|
  {
    hide Effect;
    if actions != [] {
      EffectKeepsHistory(p, actions[0], st);
      HistoryIsFrozen(p, actions[1..], Effect(p, actions[0], st));
    }
  }

  /**
   * Lifecycle invariant: in a history every chain keeps the historical semantics outside its lock
   * file, and the walk from every manifest accepts, exactly when every action is disciplined.
   */
  lemma {:induction false} HistoryIsSound(p: Platform, actions: seq<Action>, st: State)
    requires p.Faithful() && Sound(p, st)
    ensures AlwaysSound(p, actions, st) <==> AllDisciplined(p, actions, st)
    ensures AllDisciplined(p, actions, st) ==> Sound(p, Play(p, actions, st))
    ensures Play(p, actions, st).historical == st.historical
    decreases |actions|
  {
    hide Effect, Sound, Disciplined, Platform.Faithful;
    HistoryIsFrozen(p, actions, st);
    if actions != [] {
      ActionIsSound(p, actions[0], st);
      if Disciplined(p, actions[0], st) {
        HistoryIsSound(p, actions[1..], Effect(p, actions[0], st));
      } else {
        UnsoundStays(p, actions[1..], Effect(p, actions[0], st));
      }
    }
  }

  lemma UnsoundStays(p: Platform, actions: seq<Action>, st: State)
    ensures AlwaysSound(p, actions, st) ==> Sound(p, st)
  {
    hide Sound, Effect;
  }

  ghost predicate DurableFixtures(p: Platform, historical: map<string, string>) {
    forall n :: n in historical ==> DurableText(p, historical[n])
  }

  ghost predicate AllOverSeal(p: Platform, actions: seq<Action>, st: State)
    decreases |actions|
  {
    actions == [] || (InitializesOverSeal(p, actions[0], st) && AllOverSeal(p, actions[1..], Effect(p, actions[0], st)))
  }

  lemma MeaninglessIsDurable(p: Platform, text: string)
    ensures Semantics(p, text) == None ==> DurableText(p, text)
  {
    hide Projection;
  }

  /** Over durable historical fixtures every write is disciplined. */
  lemma DurableWrites(p: Platform, a: Action, st: State)
    requires p.Faithful() && Sound(p, st) && DurableFixtures(p, st.historical)
    ensures WritesDurably(p, a, st)
  {
    hide Effect, DurableText, Semantics, Accepted, Platform.Faithful;
    forall n | n in st.Chain() && n != LOCKS_FILE ensures DurableText(p, st.Chain()[n]) {
      assert ChainFaithful(p, st.historical, st.Chain());
      if Semantics(p, st.Chain()[n]).Some? {
        DurabilityIsMeaning(p, st.historical[n], st.Chain()[n]);
      } else {
        MeaninglessIsDurable(p, st.Chain()[n]);
      }
    }
  }

  /**
   * Where every number of the historical fixtures prints as itself, a history is sound throughout
   * exactly when links are only initialised over sealed predecessors.
   */
  lemma {:induction false} DurableHistoryIsSound(p: Platform, actions: seq<Action>, st: State)
    requires p.Faithful() && Sound(p, st) && DurableFixtures(p, st.historical)
    ensures AlwaysSound(p, actions, st) <==> AllOverSeal(p, actions, st)
    decreases |actions|
  {
    hide Effect, Sound, DurableFixtures, InitializesOverSeal, WritesDurably, Platform.Faithful;
    if actions != [] {
      ActionIsSound(p, actions[0], st);
      DurableWrites(p, actions[0], st);
      if InitializesOverSeal(p, actions[0], st) {
        DurableHistoryIsSound(p, actions[1..], Effect(p, actions[0], st));
      } else {
        UnsoundStays(p, actions[1..], Effect(p, actions[0], st));
      }
    }
  }
}
