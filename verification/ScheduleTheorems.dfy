/** Stale schedules: which runs keep schedules coupled to their composer evidence, and who would notice. */
module ScheduleTheorems {
  import opened Base
  import opened Json
  import opened LineEndings
  import opened Listing
  import opened ReferenceSelection
  import opened EvidenceFields
  import opened FieldTheorems
  import opened FixtureTheorems
  import opened Repository
  import opened EvidenceLocks
  import opened StepTheorems
  import opened RunTheorems
  import opened Confluence
  import opened Maintenance
  import opened Resumption
  import opened Preservation
  import opened ReferenceChain
  import opened ManifestTheorems
  import opened Lifecycle
  import opened Histories

  // ----- nobody notices

  /** The fixture with every schedule stamped with some key. */
  function Restamped(fields: seq<Field>, key: string): (r: seq<Field>)
    ensures SameKeys(fields, r)
  {
    seq(|fields|, i requires 0 <= i < |fields| =>
      if fields[i].key == "schedules" then Field(fields[i].key, SetSchedules(fields[i].value, key)) else fields[i])
  }

  /** The second text is the first with its schedules stamped anew. */
  predicate RestampedText(p: Platform, text: string, text': string, key: string) {
    && p.parse(text).Some? && p.parse(text).value.Obj?
    && var fields := p.parse(text).value.fields;
       && (Has(fields, "schedules") ==> SchedulesAssignable(Find(fields, "schedules").value))
       && p.parse(text') == Some(Obj(Restamped(fields, key)))
  }

  lemma RestampedElsewhere(fields: seq<Field>, key: string, other: string)
    requires other != "schedules"
    ensures Find(Restamped(fields, key), other) == Find(fields, other)
  {
    SameKeysSameIndex(fields, Restamped(fields, key), other);
  }

  lemma RestampedField(o: Owners, sel: Selection, f: Field, key: string)
    requires f.key == "schedules"
    ensures SourceOf(Field(f.key, SetSchedules(f.value, key))) == SourceOf(f) == Free
    ensures FieldSound(o, sel, Field(f.key, SetSchedules(f.value, key))) == FieldSound(o, sel, f)
    ensures !Drifts(o, sel, Field(f.key, SetSchedules(f.value, key))) && !Drifts(o, sel, f)
  {
    hide SetSchedules;
    SchedulesIsFree(f);
    SchedulesIsFree(Field(f.key, SetSchedules(f.value, key)));
  }

  lemma RestampedIsUnseen(o: Owners, sel: Selection, fields: seq<Field>, key: string)
    ensures FieldsSound(o, sel, Restamped(fields, key)) == FieldsSound(o, sel, fields)
    ensures SomeFieldDrifts(o, sel, Restamped(fields, key)) == SomeFieldDrifts(o, sel, fields)
  {
    hide FieldSound, Drifts, SetSchedules;
    var after := Restamped(fields, key);
    forall i | 0 <= i < |fields|
      ensures FieldSound(o, sel, after[i]) == FieldSound(o, sel, fields[i])
      ensures Drifts(o, sel, after[i]) == Drifts(o, sel, fields[i])
    {
      if fields[i].key == "schedules" {
        RestampedField(o, sel, fields[i], key);
      }
    }
    if FieldsSound(o, sel, after) {
      forall i | 0 <= i < |fields| ensures FieldSound(o, sel, fields[i]) {
        assert FieldSound(o, sel, after[i]);
      }
    }
    if SomeFieldDrifts(o, sel, fields) {
      var i :| 0 <= i < |fields| && Drifts(o, sel, fields[i]);
      assert Drifts(o, sel, after[i]);
    }
  }

  lemma RestampedProjects(locks: bool, f: Field, key: string)
    requires f.key == "schedules" && SchedulesAssignable(f.value)
    ensures ProjectField(locks, Field(f.key, SetSchedules(f.value, key))) == ProjectField(locks, f)
  {
    hide StripIdentity, StripKey, IsAncestryKey, SetSchedules, SchedulesAssignable, Truthy, MapValues;
    SchedulesIsFree(f);
    StripsAgree(f.value, key);
    FalsySchedules(f.value, key);
    assert |"identities"| == 10 && |"schedules"| == 9;
  }

  lemma FalsySchedules(v: Json, key: string)
    ensures !Truthy(v) ==> SetSchedules(v, key) == v
  {
  }

  lemma RestampedKeepsProjection(fields: seq<Field>, key: string)
    requires Distinct(fields)
    requires Has(fields, "schedules") ==> SchedulesAssignable(Find(fields, "schedules").value)
    ensures Projection(Obj(Restamped(fields, key))) == Projection(Obj(fields))
  {
    hide ProjectField, SomeValueIsNull, SetSchedules, SchedulesAssignable;
    var after := Restamped(fields, key);
    assert |"schema"| == 6 && |"identities"| == 10 && |"schedules"| == 9;
    RestampedElsewhere(fields, key, "schema");
    RestampedElsewhere(fields, key, "identities");
    SameKeysSameIndex(fields, after, "schedules");
    if Has(fields, "schedules") {
      StripsAgree(Find(fields, "schedules").value, key);
    }
    forall i | 0 <= i < |fields| ensures ProjectFields(after)[i] == ProjectFields(fields)[i] {
      if fields[i].key == "schedules" {
        IndexIsUnique(fields, i);
        RestampedProjects(IsLocks(fields), fields[i], key);
      }
    }
    assert ProjectFields(after) == ProjectFields(fields);
  }

  lemma RestampedMeansTheSame(p: Platform, text: string, text': string, key: string)
    requires p.Faithful() && RestampedText(p, text, text', key)
    ensures Semantics(p, text') == Semantics(p, text)
  {
    hide Projection, MeaningOf, Restamped;
    ParsedIsWellFormed(p, text);
    WellFormedIsDistinct(p.parse(text).value.fields);
    RestampedKeepsProjection(p.parse(text).value.fields, key);
  }

  lemma RestampedDescriptors(p: Platform, text: string, text': string, key: string)
    requires RestampedText(p, text, text', key)
    ensures Descriptors(p, text') == Descriptors(p, text)
  {
    hide DescriptorTable, Restamped, Find;
    assert |"evidenceInputs"| == 14 && |"schedules"| == 9;
    RestampedElsewhere(p.parse(text).value.fields, key, "evidenceInputs");
  }

  lemma RestampedUpToDate(o: Owners, sel: Selection, text: string, text': string, key: string)
    requires RestampedText(o.platform, text, text', key)
    ensures UpToDate(o, sel, text') == UpToDate(o, sel, text)
  {
    hide FieldsSound, SomeFieldDrifts, Restamped;
    RestampedIsUnseen(o, sel, o.platform.parse(text).value.fields, key);
  }

  /** A repository with the schedules of one fixture stamped anew. */
  function WithFixture(st: State, n: string, text: string): State {
    st.WithChain(st.Chain()[n := text])
  }

  lemma RestampedPrelude(p: Platform, st: State, n: string, text': string, key: string)
    requires n in FixtureNames(st.Chain()) && st.version in st.chains && RestampedText(p, st.Chain()[n], text', key)
    ensures Prelude(p, WithFixture(st, n, text')) == Prelude(p, st)
    ensures FixtureNames(WithFixture(st, n, text').Chain()) == FixtureNames(st.Chain())
    ensures LOCKS_FILE != n
  {
    hide Descriptors, HistoricalBytesMatch, IsFixtureName, RestampedText;
    RestampedDescriptors(p, st.Chain()[n], text', key);
    LocksAreNoFixture(st.Chain());
    HistoricalDependsOnHistory(p, st, WithFixture(st, n, text'));
  }

  lemma RestampedIsAsClean(o: Owners, st: State, n: string, text': string)
    requires n in FixtureNames(st.Chain()) && n in st.Chain() && n != LOCKS_FILE && st.version in st.chains
    requires UpToDate(o, All, text') == UpToDate(o, All, st.Chain()[n])
    requires FixtureNames(WithFixture(st, n, text').Chain()) == FixtureNames(st.Chain())
    requires FixtureNames(st.Chain()) <= st.Chain().Keys
    ensures AllUpToDate(o, All, WithFixture(st, n, text')) <==> AllUpToDate(o, All, st)
  {
    hide UpToDate, LocksUpToDate, FixtureNames;
    var st' := WithFixture(st, n, text');
    assert forall k :: k in st.Chain() && k != n ==> st'.Chain()[k] == st.Chain()[k];
  }

  /** Whatever key the schedules of a fixture carry, the full check says the same. */
  lemma CheckIgnoresSchedules(p: Platform, st: State, n: string, text': string, key: string)
    requires p.Faithful() && n in FixtureNames(st.Chain()) && st.version in st.chains
    requires RestampedText(p, st.Chain()[n], text', key)
    ensures Run(p, Check, None, WithFixture(st, n, text')).verdict == Clean <==>
              Run(p, Check, None, st).verdict == Clean
  {
    hide Run, Prelude, UpToDate, AllUpToDate, FixtureNames, SeenSources, RestampedText, Platform.Faithful, Sorted,
         NoRepeats, State.WithChain;
    var st' := WithFixture(st, n, text');
    RestampedPrelude(p, st, n, text', key);
    PreludeMeans(p, st);
    CheckIsExact(p, None, st);
    CheckIsExact(p, None, st');
    NamesAreChained(st.Chain());
    if Prelude(p, st).Some? {
      RestampedUpToDate(Prelude(p, st).value, All, st.Chain()[n], text', key);
      RestampedIsAsClean(Prelude(p, st).value, st, n, text');
    }
  }

  lemma RestampedSemantics(p: Platform, st: State, n: string, text': string, key: string)
    requires p.Faithful() && n in FixtureNames(st.Chain()) && RestampedText(p, st.Chain()[n], text', key)
    ensures forall k :: k in st.Chain() <==> k in WithFixture(st, n, text').Chain()
    ensures forall k :: k in st.Chain() ==>
              Semantics(p, WithFixture(st, n, text').Chain()[k]) == Semantics(p, st.Chain()[k])
  {
    hide Semantics, RestampedText, IsFixtureName, Platform.Faithful;
    RestampedMeansTheSame(p, st.Chain()[n], text', key);
  }

  lemma PinOkMeans(p: Platform, st: State)
    ensures Pin(p, st).ok <==>
              && ReadManifest(p, st, st.version).Some? && ReadManifest(p, st, st.version).value.Obj?
              && VersionOf(ReadManifest(p, st, st.version).value) == Some(st.version)
              && HistoricalBytesMatch(p, st, ReadManifest(p, st, st.version).value)
              && Run(p, Check, None, st).verdict == Clean
              && var historical := Property(ReadManifest(p, st, st.version).value, "historicalFixtures");
                 Pinnable(p, st, Entries(historical).GetOr([]))
  {
    hide Run, PinsMatch, Pinnable, Pinned, VersionOf, Rank;
  }

  lemma PinnableDependsOnSemantics(p: Platform, st: State, st': State, pins: seq<Field>)
    requires st'.historical == st.historical && forall k :: k in st.Chain() <==> k in st'.Chain()
    requires forall k :: k in st.Chain() ==> Semantics(p, st'.Chain()[k]) == Semantics(p, st.Chain()[k])
    ensures Pinnable(p, st', pins) <==> Pinnable(p, st, pins)
  {
    hide Semantics, State.Chain;
  }

  /** Nor does the pin look at the schedules. */
  lemma PinIgnoresSchedules(p: Platform, st: State, n: string, text': string, key: string)
    requires p.Faithful() && n in FixtureNames(st.Chain()) && st.version in st.chains
    requires RestampedText(p, st.Chain()[n], text', key)
    ensures Pin(p, WithFixture(st, n, text')).ok <==> Pin(p, st).ok
  {
    hide Pin, Run, Pinnable, HistoricalBytesMatch, RestampedText, FixtureNames, Semantics, Platform.Faithful,
         VersionOf, Rank;
    var st' := WithFixture(st, n, text');
    CheckIgnoresSchedules(p, st, n, text', key);
    RestampedSemantics(p, st, n, text', key);
    PinOkMeans(p, st);
    PinOkMeans(p, st');
    HistoricalDependsOnHistory(p, st, st');
    PinnableDependsOnSemantics(p, st, st',
      Entries(Property(ReadManifest(p, st, st.version).GetOr(Null), "historicalFixtures")).GetOr([]));
  }

  /** And neither does the verifier when it checks a fixture. */
  lemma VerifierIgnoresSchedules(p: Platform, st: State, n: string, text': string, key: string, manifest: Json,
                                 k: string)
    requires p.Faithful() && n in FixtureNames(st.Chain()) && st.version in st.chains
    requires RestampedText(p, st.Chain()[n], text', key)
    ensures FixtureOk(p, WithFixture(st, n, text'), manifest, k) <==> FixtureOk(p, st, manifest, k)
  {
    hide Semantics, FixtureNames, OwnerProjectionOk, AncestryOk, RestampedText, Platform.Faithful;
    RestampedSemantics(p, st, n, text', key);
    RestampedAncestry(p, st.Chain()[n], text', key, manifest);
    var st' := WithFixture(st, n, text');
    FixtureDepends(p, st, st', manifest, k);
  }

  lemma FixtureDepends(p: Platform, st: State, st': State, manifest: Json, k: string)
    requires st'.historical == st.historical && st'.producers == st.producers
    requires k in st.Chain() <==> k in st'.Chain()
    requires k in st.Chain() ==> Semantics(p, st'.Chain()[k]) == Semantics(p, st.Chain()[k])
    requires k in st.Chain() && p.parse(st.Chain()[k]).Some? && p.parse(st'.Chain()[k]).Some? ==>
               AncestryOk(manifest, p.parse(st'.Chain()[k]).value) == AncestryOk(manifest, p.parse(st.Chain()[k]).value)
    ensures FixtureOk(p, st', manifest, k) <==> FixtureOk(p, st, manifest, k)
  {
    hide Semantics, OwnerProjectionOk, AncestryOk, State.Chain;
    OwnerProjectionDepends(p, st, st');
    if k in st.Chain() && k in st.historical && SameSemantics(p, st.Chain()[k], st.historical[k]) {
      MeaningfulTextsParse(p, st.Chain()[k]);
      MeaningfulTextsParse(p, st'.Chain()[k]);
      MeaningfulTextsParse(p, st.historical[k]);
      var h := p.parse(st.historical[k]).value;
      assert OwnerProjectionOk(p, st', h) == OwnerProjectionOk(p, st, h);
    }
  }

  lemma RestampedAncestry(p: Platform, text: string, text': string, key: string, manifest: Json)
    requires RestampedText(p, text, text', key)
    ensures p.parse(text).Some? && p.parse(text').Some?
    ensures AncestryOk(manifest, p.parse(text').value) == AncestryOk(manifest, p.parse(text).value)
  {
    hide Restamped, Find;
    assert |"composerEvidence"| == 16 && |"schedules"| == 9;
    RestampedElsewhere(p.parse(text).value.fields, key, "composerEvidence");
  }

  lemma OwnerProjectionDepends(p: Platform, st: State, st': State)
    requires st'.producers == st.producers
    ensures forall h :: OwnerProjectionOk(p, st', h) == OwnerProjectionOk(p, st, h)
  {
    hide PayloadMatches, ProfileKind;
  }

  /** A key other than the composer hash leaves the fixture uncoupled, as soon as it has one schedule. */
  lemma RestampedIsStale(fields: seq<Field>, key: string, e: Identity, schedules: seq<Field>, i: nat)
    requires Find(fields, "composerEvidence").Some? && AsIdentity(Find(fields, "composerEvidence").value) == Some(e)
    requires Find(fields, "schedules") == Some(Obj(schedules)) && i < |schedules| && schedules[i].value.Obj?
    requires key != e.sha256
    ensures !Coupled(Restamped(fields, key))
  {
    hide AsIdentity, Index, Put;
    assert |"composerEvidence"| == 16 && |"schedules"| == 9;
    RestampedElsewhere(fields, key, "composerEvidence");
    SameKeysSameIndex(fields, Restamped(fields, key), "schedules");
    SameKeysSameIndex(fields, Restamped(fields, key), "composerEvidence");
    var after := SetSchedules(Obj(schedules), key);
    SetScheduleCarries(schedules[i].value, key);
    assert after.fields[i].value == SetScheduleKey(schedules[i].value, key);
    assert !ScheduleCarries(after.fields[i].value, e.sha256);
  }

  // ----- coupling over histories

  predicate ChainCoupled(p: Platform, chain: map<string, string>) {
    forall n :: n in chain && n != LOCKS_FILE ==> TextCoupled(p, chain[n])
  }

  predicate AllCoupled(p: Platform, st: State) {
    && ChainCoupled(p, st.historical)
    && forall v :: v in st.chains ==> ChainCoupled(p, st.chains[v])
  }

  lemma CopiesAreCoupled(p: Platform, historical: map<string, string>, names: set<string>)
    requires p.Faithful() && ChainCoupled(p, historical)
    ensures ChainCoupled(p, Copies(historical, names))
  {
    hide Coupled, Normalize;
    forall n | n in Copies(historical, names) && n != LOCKS_FILE ensures TextCoupled(p, Copies(historical, names)[n]) {
      assert p.parse(Normalize(historical[n])) == p.parse(historical[n]);
    }
  }

  lemma SelectedIsCoupled(p: Platform, st: State)
    requires AllCoupled(p, st)
    ensures ChainCoupled(p, st.Chain())
  {
    hide TextCoupled;
  }

  lemma ChainUpdateIsCoupled(p: Platform, st: State, chain: map<string, string>)
    requires AllCoupled(p, st) && ChainCoupled(p, chain)
    ensures AllCoupled(p, st.WithChain(chain))
  {
    hide TextCoupled;
  }

  lemma MaintenanceKeepsCoupling(p: Platform, a: Action, st: State)
    requires p.Faithful() && AllCoupled(p, st) && (a.MaintainLocks? || a.StopWriting?)
    ensures AllCoupled(p, Effect(p, a, st))
  {
    hide Run, Handled, Prelude, TextCoupled, FixtureNames, Platform.Faithful, NoRepeats, FixturePass;
    if Effect(p, a, st) != st {
      MaintenanceFrame(p, a, st);
      SelectedIsCoupled(p, st);
      match a {
        case MaintainLocks(mode, source) => RunKeepsCoupling(p, mode, source, st);
        case StopWriting(key, k) => HandledKeepsCoupling(p, key, st, k);
      }
      ChainUpdateIsCoupled(p, st, Effect(p, a, st).Chain());
    }
  }

  lemma HandledKeepsCoupling(p: Platform, key: string, st: State, k: nat)
    requires p.Faithful() && Prelude(p, st).Some? && k <= |Names(st)| && ChainCoupled(p, st.Chain())
    ensures ChainCoupled(p, Handled(p, key, st, k).chain)
  {
    hide TextCoupled, FixtureStep, FixturePass, FixtureNames, Prelude, Platform.Faithful;
    PreludeMeans(p, st);
    PassKeepsCoupling(Prelude(p, st).value, Write, Only({key}), st.historical, st.Chain(), Names(st)[..k]);
  }

  lemma ActionKeepsCoupling(p: Platform, a: Action, st: State)
    requires p.Faithful() && AllCoupled(p, st)
    ensures AllCoupled(p, Effect(p, a, st))
  {
    hide Pin, Run, Handled, NewManifest, ChainCoupled, FixtureSources, Copies, Platform.Faithful, Rank;
    match a
    case MaintainLocks(_, _) => MaintenanceKeepsCoupling(p, a, st);
    case StopWriting(_, _) => MaintenanceKeepsCoupling(p, a, st);
    case InitializeChain =>
      CopiesAreCoupled(p, st.historical, FixtureSources(st.historical));
      ChainUpdateIsCoupled(p, st, Copies(st.historical, FixtureSources(st.historical)));
    case StopInitializing(k) =>
      var names := Sorted(FixtureSources(st.historical));
      if k <= |names| {
        CopiesAreCoupled(p, st.historical, Elements(names[..k]));
        ChainUpdateIsCoupled(p, st, Copies(st.historical, Elements(names[..k])));
      }
    case PinSelection =>
      FailedPinKeeps(p, st);
      if Pin(p, st).ok {
        PinMeans(p, st);
      }
    case _ =>
  }

  /** Where the historical schedules name their composer evidence, all schedules do after any history. */
  lemma {:induction false} HistoryKeepsCoupling(p: Platform, actions: seq<Action>, st: State)
    requires p.Faithful() && AllCoupled(p, st)
    ensures AllCoupled(p, Play(p, actions, st))
    decreases |actions|
  {
    hide Effect, AllCoupled, Platform.Faithful;
    if actions != [] {
      ActionKeepsCoupling(p, actions[0], st);
      HistoryKeepsCoupling(p, actions[1..], Effect(p, actions[0], st));
    }
  }
}
