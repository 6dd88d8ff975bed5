/** What a lock run writes and reports, said by lookup in the files it reads. */
module Writing {
  import opened Base
  import opened Json
  import opened ReferenceSelection
  import opened EvidenceFields
  import opened FieldTheorems
  import opened Repository
  import opened EvidenceLocks
  import opened StepTheorems
  import opened LockFileTheorems
  import opened RunTheorems
  import opened Confluence
  import opened Preservation
  import opened Agreement
  import opened Provenance

  // ----- which fields are stale

  /** The owner of the field declares an identity of this length and hash. */
  ghost predicate OwnerIdentifies(p: Platform, producers: map<string, string>, cases: Json, k: string, v: Json,
                                  length: int, hash: string)
  {
    exists w :: OwnerDeclares(p, producers, cases, k, v, w) && Identifies(w, length, hash)
  }

  /** A field the run is asked about holds an identity, and its owner now declares the given other one. */
  ghost predicate IsStale(p: Platform, producers: map<string, string>, cases: Json, source: Option<string>, k: string,
                          v: Json, length: int, hash: string)
  {
    && NamesAncestor(k) && IsIdentity(v) && !Identifies(v, length, hash)
    && OwnerIdentifies(p, producers, cases, k, v, length, hash)
    && exists owner :: OwnedBy(k, v, owner) && Asked(source, owner)
  }

  lemma IdentityLooksLikeOne(v: Json)
    ensures IsIdentity(v) ==> LooksLikeIdentity(v)
  {
  }

  lemma OwnerIdentity(o: Owners, p: Platform, producers: map<string, string>, cases: Json, k: string, v: Json,
                      e: Identity)
    requires Knows(o, p, producers, cases) && NamesAncestor(k) && LooksLikeIdentity(v) && SourceOf(Field(k, v)).Owned?
    ensures o.load(SourceOf(Field(k, v)).source) == Some(e) <==>
            OwnerIdentifies(p, producers, cases, k, v, e.byteLength, e.sha256)
  {
    hide Knows, NamesAncestor, LooksLikeIdentity, SourceOf, OwnerDeclares, Identifies, AsIdentity;
    OwnerLoads(o, p, producers, cases, k, v, e);
    forall w ensures Identifies(w, e.byteLength, e.sha256) <==> AsIdentity(w) == Some(e) {
      IdentityMeans(w, e.byteLength, e.sha256);
    }
  }

  /** Staleness is the drift of the run, and the other identity is the one it loads. */
  lemma StaleMeans(o: Owners, p: Platform, producers: map<string, string>, cases: Json, source: Option<string>,
                   k: string,
                   v: Json, length: int, hash: string)
    requires Knows(o, p, producers, cases)
    ensures IsStale(p, producers, cases, source, k, v, length, hash) <==>
            && Drifts(o, SelectionOf(source), Field(k, v))
            && o.load(SourceOf(Field(k, v)).source).value.byteLength == length
            && o.load(SourceOf(Field(k, v)).source).value.sha256 == hash
  {
    hide Knows, NamesAncestor, LooksLikeIdentity, SourceOf, OwnerDeclares, Identifies, AsIdentity, OwnedBy,
         SelectionOf, Asked, SameIdentity, OwnerIdentifies, IsIdentity;
    var f := Field(k, v);
    IdentityLooksLikeOne(v);
    SameIdentityMeans(v, v);
    if NamesAncestor(k) && LooksLikeIdentity(v) {
      SourceMeans(k, v);
      IdentityMeans(v, length, hash);
      if SourceOf(f).Owned? {
        AskedIsSelected(source, SourceOf(f).source.Key());
        OwnedStale(o, p, producers, cases, k, v, length, hash);
      }
    } else {
      OthersAreFree(k, v);
    }
  }

  lemma OwnedStale(o: Owners, p: Platform, producers: map<string, string>, cases: Json, k: string, v: Json, length: int,
                   hash: string)
    requires Knows(o, p, producers, cases) && NamesAncestor(k) && LooksLikeIdentity(v) && SourceOf(Field(k, v)).Owned?
    ensures OwnerIdentifies(p, producers, cases, k, v, length, hash) <==>
            && o.load(SourceOf(Field(k, v)).source).Some?
            && o.load(SourceOf(Field(k, v)).source).value.byteLength == length
            && o.load(SourceOf(Field(k, v)).source).value.sha256 == hash
  {
    hide Knows, NamesAncestor, LooksLikeIdentity, SourceOf, OwnerDeclares, AsIdentity;
    var loaded := o.load(SourceOf(Field(k, v)).source);
    if loaded.Some? {
      OwnerIdentity(o, p, producers, cases, k, v, loaded.value);
    }
    if OwnerIdentifies(p, producers, cases, k, v, length, hash) {
      var w :| OwnerDeclares(p, producers, cases, k, v, w) && Identifies(w, length, hash);
      IdentityMeans(w, length, hash);
      OwnerIdentity(o, p, producers, cases, k, v, AsIdentity(w).value);
    }
  }

  // ----- what is written

  /** The value is the old one with its identity replaced, in place. */
  predicate CarriesIdentity(v: Json, w: Json, length: int, hash: string) {
    && v.Obj? && w.Obj? && SameKeys(v.fields, w.fields)
    && Property(w, "algorithm") == Some(Str("sha256")) && Property(w, "byteLength") == Some(Int(length))
    && Property(w, "sha256") == Some(Str(hash))
    && forall i :: 0 <= i < |v.fields| ==>
         || w.fields[i] == v.fields[i]
         || v.fields[i].key == "algorithm" || v.fields[i].key == "byteLength" || v.fields[i].key == "sha256"
  }

  /** The schedule is the old one with its evidence key set, in place if it had one and at the end otherwise. */
  predicate CarriesKey(v: Json, w: Json, hash: string) {
    if !v.Obj? then w == v
    else
      && w.Obj? && Property(w, "evidenceKey") == Some(Str(hash))
      && |v.fields| <= |w.fields| <= |v.fields| + (if Property(v, "evidenceKey").Some? then 0 else 1)
      && forall i :: 0 <= i < |v.fields| ==>
           w.fields[i].key == v.fields[i].key && (v.fields[i].key != "evidenceKey" ==> w.fields[i] == v.fields[i])
  }

  /** All schedules carry the key. */
  predicate AllCarryKey(v: Json, w: Json, hash: string) {
    match v
    case Obj(f) =>
      w.Obj? && SameKeys(f, w.fields) && forall i :: 0 <= i < |f| ==> CarriesKey(f[i].value, w.fields[i].value, hash)
    case Arr(s) => w.Arr? && |w.items| == |s| && forall i :: 0 <= i < |s| ==> CarriesKey(s[i], w.items[i], hash)
    case _ => w == v
  }

  /** The value a field is written with. */
  ghost predicate IsWritten(p: Platform, producers: map<string, string>, cases: Json, source: Option<string>,
                            before: seq<Field>, k: string, v: Json, w: Json)
  {
    && (forall length, hash :: IsStale(p, producers, cases, source, k, v, length, hash) ==>
          CarriesIdentity(v, w, length, hash))
    && ((forall length, hash :: !IsStale(p, producers, cases, source, k, v, length, hash)) ==>
          && (k != "schedules" ==> w == v)
          && (ComposerIsFresh(p, producers, cases, source, before) ==> w == v)
          && (k == "schedules" ==>
               forall length, hash :: ComposerIsStale(p, producers, cases, source, before, length, hash)
                                     ==> AllCarryKey(v, w, hash)))
  }

  ghost predicate ComposerIsStale(p: Platform, producers: map<string, string>, cases: Json, source: Option<string>,
                                  fields: seq<Field>, length: int, hash: string)
  {
    Find(fields, "composerEvidence").Some? &&
    IsStale(p, producers, cases, source, "composerEvidence", Find(fields, "composerEvidence").value, length, hash)
  }

  ghost predicate ComposerIsFresh(p: Platform, producers: map<string, string>, cases: Json, source: Option<string>,
                                  fields: seq<Field>)
  {
    forall length, hash :: !ComposerIsStale(p, producers, cases, source, fields, length, hash)
  }

  /** What a write makes of the fields of a fixture: every field in its place, with the value it is written with. */
  ghost predicate FieldsAreWritten(p: Platform, producers: map<string, string>, cases: Json, source: Option<string>,
                                   before: seq<Field>, after: seq<Field>)
  {
    SameKeys(before, after)
    && forall i :: 0 <= i < |before| ==>
         IsWritten(p, producers, cases, source, before, before[i].key, before[i].value, after[i].value)
  }

  // ----- rewriting does this

  lemma PutInPlace(fields: seq<Field>, key: string, value: Json)
    ensures Has(fields, key) ==>
              && SameKeys(fields, Put(fields, key, value))
              && forall i :: 0 <= i < |fields| && fields[i].key != key ==> Put(fields, key, value)[i] == fields[i]
    ensures !Has(fields, key) ==> Put(fields, key, value) == fields + [Field(key, value)]
  {
  }

  lemma IdentityIsCarried(v: Json, e: Identity)
    requires IsIdentityShape(v)
    ensures CarriesIdentity(v, WithIdentity(v, e), e.byteLength, e.sha256)
  {
    hide Put, Find, AsIdentity, Index;
    PutsRead(v.fields, e);
    PutsKeepKeys(v.fields, e);
    TripleKeysDiffer();
    var f1 := Put(v.fields, "algorithm", Str("sha256"));
    var f2 := Put(f1, "byteLength", Int(e.byteLength));
    PutInPlace(v.fields, "algorithm", Str("sha256"));
    FindAfterPut(v.fields, "algorithm", Str("sha256"), "byteLength");
    FindAfterPut(v.fields, "algorithm", Str("sha256"), "sha256");
    HasIsFound(v.fields, f1, "byteLength");
    HasIsFound(v.fields, f1, "sha256");
    PutInPlace(f1, "byteLength", Int(e.byteLength));
    FindAfterPut(f1, "byteLength", Int(e.byteLength), "sha256");
    HasIsFound(f1, f2, "sha256");
    PutInPlace(f2, "sha256", Str(e.sha256));
  }

  lemma HasIsFound(a: seq<Field>, b: seq<Field>, key: string)
    requires Find(b, key) == Find(a, key)
    ensures Has(b, key) == Has(a, key)
  {
  }

  lemma KeyIsCarried(v: Json, hash: string)
    ensures CarriesKey(v, SetScheduleKey(v, hash), hash)
  {
    if v.Obj? {
      PutInPlace(v.fields, "evidenceKey", Str(hash));
      FindAfterPut(v.fields, "evidenceKey", Str(hash), "evidenceKey");
    }
  }

  lemma KeysAreCarried(v: Json, hash: string)
    ensures AllCarryKey(v, SetSchedules(v, hash), hash)
  {
    hide CarriesKey, SetScheduleKey;
    forall s ensures CarriesKey(s, SetScheduleKey(s, hash), hash) {
      KeyIsCarried(s, hash);
    }
  }

  lemma DriftIsStale(o: Owners, p: Platform, producers: map<string, string>, cases: Json, source: Option<string>,
                     k: string, v: Json)
    requires Knows(o, p, producers, cases)
    ensures Drifts(o, SelectionOf(source), Field(k, v)) <==>
            exists length, hash :: IsStale(p, producers, cases, source, k, v, length, hash)
    ensures forall length, hash :: IsStale(p, producers, cases, source, k, v, length, hash) ==>
              && Drifts(o, SelectionOf(source), Field(k, v))
              && o.load(SourceOf(Field(k, v)).source).value.byteLength == length
              && o.load(SourceOf(Field(k, v)).source).value.sha256 == hash
  {
    hide Knows, IsStale, Drifts, SourceOf, SelectionOf;
    DriftLoads(o, SelectionOf(source), Field(k, v));
    forall length, hash
      ensures IsStale(p, producers, cases, source, k, v, length, hash) <==>
              && Drifts(o, SelectionOf(source), Field(k, v))
              && o.load(SourceOf(Field(k, v)).source).value.byteLength == length
              && o.load(SourceOf(Field(k, v)).source).value.sha256 == hash
    {
      StaleMeans(o, p, producers, cases, source, k, v, length, hash);
    }
    if Drifts(o, SelectionOf(source), Field(k, v)) {
      var e := o.load(SourceOf(Field(k, v)).source).value;
      assert IsStale(p, producers, cases, source, k, v, e.byteLength, e.sha256);
    }
  }

  lemma DriftLoads(o: Owners, sel: Selection, f: Field)
    ensures Drifts(o, sel, f) ==> SourceOf(f).Owned? && o.load(SourceOf(f).source).Some? && IsIdentityShape(f.value)
                                  && AsIdentity(f.value).Some?
  {
    hide SourceOf, AsIdentity;
  }

  lemma ComposerMeans(o: Owners, p: Platform, producers: map<string, string>, cases: Json, source: Option<string>,
                      fields: seq<Field>)
    requires Knows(o, p, producers, cases)
    ensures var key := NewScheduleKey(o, SelectionOf(source), fields);
            && (ComposerIsFresh(p, producers, cases, source, fields) <==> key == None)
            && forall length, hash :: ComposerIsStale(p, producers, cases, source, fields, length, hash) ==>
                 key == Some(hash)
  {
    hide Knows, IsStale, Drifts, SourceOf, SelectionOf;
    var i := Index(fields, "composerEvidence");
    if i < |fields| {
      var f := fields[i];
      assert f == Field("composerEvidence", f.value);
      DriftIsStale(o, p, producers, cases, source, "composerEvidence", f.value);
      DriftLoads(o, SelectionOf(source), f);
      if Drifts(o, SelectionOf(source), f) {
        var length, hash :| IsStale(p, producers, cases, source, "composerEvidence", f.value, length, hash);
        assert ComposerIsStale(p, producers, cases, source, fields, length, hash);
      }
    }
  }

  /** Rewriting a fixture is writing its fields. */
  lemma RewriteIsWriting(o: Owners, p: Platform, producers: map<string, string>, cases: Json, source: Option<string>,
                         fields: seq<Field>)
    requires Knows(o, p, producers, cases)
    ensures FieldsAreWritten(p, producers, cases, source, fields, Rewrite(o, SelectionOf(source), fields))
  {
    hide Knows, IsStale, Drifts, SourceOf, SelectionOf, NewScheduleKey, ComposerIsStale, ComposerIsFresh,
         RewriteField, IsWritten;
    var sel := SelectionOf(source);
    var key := NewScheduleKey(o, sel, fields);
    RewriteKeepsShape(o, sel, fields);
    forall i | 0 <= i < |fields|
      ensures IsWritten(p, producers, cases, source, fields, fields[i].key, fields[i].value,
                        Rewrite(o, sel, fields)[i].value)
    {
      RewrittenField(o, p, producers, cases, source, fields, fields[i].key, fields[i].value);
      assert fields[i] == Field(fields[i].key, fields[i].value);
    }
  }

  lemma RewrittenField(o: Owners, p: Platform, producers: map<string, string>, cases: Json, source: Option<string>,
                       fields: seq<Field>, k: string, v: Json)
    requires Knows(o, p, producers, cases)
    ensures var sel := SelectionOf(source);
            var g := RewriteField(o, sel, NewScheduleKey(o, sel, fields), Field(k, v));
            IsWritten(p, producers, cases, source, fields, k, v, g.value)
  {
    hide Knows, IsStale, Drifts, SourceOf, SelectionOf, NewScheduleKey, ComposerIsStale, ComposerIsFresh, AllCarryKey,
         CarriesIdentity, WithIdentity, SetSchedules, IsIdentityShape;
    var sel := SelectionOf(source);
    DriftIsStale(o, p, producers, cases, source, k, v);
    ComposerMeans(o, p, producers, cases, source, fields);
    DriftLoads(o, sel, Field(k, v));
    if Drifts(o, sel, Field(k, v)) {
      IdentityIsCarried(v, o.load(SourceOf(Field(k, v)).source).value);
    } else if k == "schedules" && NewScheduleKey(o, sel, fields).Some? {
      KeysAreCarried(v, NewScheduleKey(o, sel, fields).value);
    }
  }

  // ----- which fixtures can be written

  /** Objects and arrays take a property; the characters of a string do not. */
  predicate TakeKeys(v: Json) {
    match v
    case Obj(f) => forall i :: 0 <= i < |f| ==> f[i].value.Obj? || f[i].value.Arr?
    case Arr(s) => forall i :: 0 <= i < |s| ==> s[i].Obj? || s[i].Arr?
    case Str(s) => s == ""
    case _ => true
  }

  /** A field with an identity has an owner; if the run is asked about it, both sides hold identities. */
  ghost predicate FieldIsReadable(p: Platform, producers: map<string, string>, cases: Json, source: Option<string>,
                                  k: string, v: Json)
  {
    NamesAncestor(k) && LooksLikeIdentity(v) ==>
      exists owner :: OwnedBy(k, v, owner) &&
        (Asked(source, owner) ==>
           IsIdentity(v) && exists w :: OwnerDeclares(p, producers, cases, k, v, w) && IsIdentity(w))
  }

  ghost predicate SomethingIsStale(p: Platform, producers: map<string, string>, cases: Json, source: Option<string>,
                                   fixture: Json)
  {
    exists k, length, hash :: Property(fixture, k).Some?
                              && IsStale(p, producers, cases, source, k, Property(fixture, k).value, length, hash)
  }

  /** Two texts are comparable fixtures that agree on everything but their ancestry. */
  ghost predicate AgreeAsFixtures(p: Platform, s: string, t: string) {
    && p.parse(s).Some? && IsComparable(p.parse(s).value) && p.parse(t).Some? && IsComparable(p.parse(t).value)
    && SameFixture(p.parse(s).value, p.parse(t).value)
  }

  /** The write can handle the fixture. */
  ghost predicate FixtureIsWritable(p: Platform, st: State, cases: Json, source: Option<string>, n: string,
                                    text: string) {
    && p.parse(text).Some? && p.parse(text).value != Null
    && var fixture := p.parse(text).value;
       && (forall k :: Property(fixture, k).Some? ==>
             FieldIsReadable(p, st.producers, cases, source, k, Property(fixture, k).value))
       && (fixture.Obj? && !ComposerIsFresh(p, st.producers, cases, source, fixture.fields) ==>
             Property(fixture, "schedules").Some? ==> TakeKeys(Property(fixture, "schedules").value))
       && (SomethingIsStale(p, st.producers, cases, source, fixture) ==>
             n in st.historical && AgreeAsFixtures(p, text, st.historical[n]))
  }

  lemma ReadableMeans(o: Owners, p: Platform, producers: map<string, string>, cases: Json, source: Option<string>,
                      k: string, v: Json)
    requires Knows(o, p, producers, cases)
    ensures FieldIsReadable(p, producers, cases, source, k, v) <==> FieldSound(o, SelectionOf(source), Field(k, v))
  {
    hide SourceOf, Knows, OwnedBy, OwnerDeclares, AsIdentity, LooksLikeIdentity, NamesAncestor, IsIdentity,
         SelectionOf, Asked;
    var f := Field(k, v);
    SameIdentityMeans(v, v);
    if NamesAncestor(k) && LooksLikeIdentity(v) {
      SourceMeans(k, v);
      if SourceOf(f).Owned? {
        AskedIsSelected(source, SourceOf(f).source.Key());
        OwnerHasIdentity(o, p, producers, cases, k, v);
      }
    } else {
      OthersAreFree(k, v);
    }
  }

  lemma OwnerHasIdentity(o: Owners, p: Platform, producers: map<string, string>, cases: Json, k: string, v: Json)
    requires Knows(o, p, producers, cases) && NamesAncestor(k) && LooksLikeIdentity(v) && SourceOf(Field(k, v)).Owned?
    ensures o.load(SourceOf(Field(k, v)).source).Some? <==>
            exists w :: OwnerDeclares(p, producers, cases, k, v, w) && IsIdentity(w)
  {
    hide SourceOf, Knows, OwnerDeclares, AsIdentity, LooksLikeIdentity, NamesAncestor, IsIdentity;
    forall w ensures IsIdentity(w) <==> AsIdentity(w).Some? {
      SameIdentityMeans(w, w);
    }
    if o.load(SourceOf(Field(k, v)).source).Some? {
      OwnerLoads(o, p, producers, cases, k, v, o.load(SourceOf(Field(k, v)).source).value);
    }
    if exists w :: OwnerDeclares(p, producers, cases, k, v, w) && IsIdentity(w) {
      var w :| OwnerDeclares(p, producers, cases, k, v, w) && IsIdentity(w);
      OwnerLoads(o, p, producers, cases, k, v, AsIdentity(w).value);
    }
  }

  lemma TakeKeysMeans(v: Json)
    ensures TakeKeys(v) <==> SchedulesAssignable(v)
  {
  }

  lemma AlignedIsAgreement(p: Platform, historical: map<string, string>, n: string, text: string)
    requires p.Faithful() && p.parse(text).Some?
    ensures Aligned(p, historical, n, p.parse(text).value) <==>
              n in historical && AgreeAsFixtures(p, text, historical[n])
  {
    hide Platform.Faithful, Projection, MeaningOf, SameFixture, IsComparable;
    if n in historical {
      SemanticsAreAgreement(p, text, historical[n]);
    }
  }

  lemma StaleFields(o: Owners, p: Platform, producers: map<string, string>, cases: Json, source: Option<string>,
                    fields: seq<Field>)
    requires Knows(o, p, producers, cases) && Distinct(fields)
    ensures SomethingIsStale(p, producers, cases, source, Obj(fields)) <==>
              SomeFieldDrifts(o, SelectionOf(source), fields)
    ensures (forall k :: Find(fields, k).Some? ==>
              FieldIsReadable(p, producers, cases, source, k, Find(fields, k).value))
            <==> FieldsSound(o, SelectionOf(source), fields)
  {
    hide Knows, IsStale, Drifts, SelectionOf, FieldIsReadable, FieldSound, Find;
    forall i | 0 <= i < |fields|
      ensures Find(fields, fields[i].key) == Some(fields[i].value)
      ensures Drifts(o, SelectionOf(source), fields[i]) <==>
              exists length, hash :: IsStale(p, producers, cases, source, fields[i].key, fields[i].value, length, hash)
      ensures FieldIsReadable(p, producers, cases, source, fields[i].key, fields[i].value) <==>
              FieldSound(o, SelectionOf(source), fields[i])
    {
      FieldIsFound(fields, i);
      DriftIsStale(o, p, producers, cases, source, fields[i].key, fields[i].value);
      ReadableMeans(o, p, producers, cases, source, fields[i].key, fields[i].value);
    }
    forall k | Find(fields, k).Some?
      ensures exists i :: 0 <= i < |fields| && fields[i] == Field(k, Find(fields, k).value)
    {
      FoundIsField(fields, k);
    }
    if SomeFieldDrifts(o, SelectionOf(source), fields) {
      var i :| 0 <= i < |fields| && Drifts(o, SelectionOf(source), fields[i]);
      var length, hash :| IsStale(p, producers, cases, source, fields[i].key, fields[i].value, length, hash);
      assert Property(Obj(fields), fields[i].key) == Some(fields[i].value);
    }
    if SomethingIsStale(p, producers, cases, source, Obj(fields)) {
      var k, length, hash :| Property(Obj(fields), k).Some?
                             && IsStale(p, producers, cases, source, k, Property(Obj(fields), k).value, length, hash);
      var i :| 0 <= i < |fields| && fields[i] == Field(k, Find(fields, k).value);
      assert Drifts(o, SelectionOf(source), fields[i]);
    }
    if forall k :: Find(fields, k).Some? ==> FieldIsReadable(p, producers, cases, source, k, Find(fields, k).value) {
      forall i | 0 <= i < |fields| ensures FieldSound(o, SelectionOf(source), fields[i]) {
        assert Find(fields, fields[i].key).Some?;
      }
    }
  }

  /** The step of the write handles exactly the writable fixtures, and leaves them as they are written. */
  lemma StepIsWriting(o: Owners, p: Platform, st: State, cases: Json, source: Option<string>, n: string, text: string)
    requires p.Faithful() && Knows(o, p, st.producers, cases)
    ensures FixtureStep(o, Write, SelectionOf(source), st.historical, n, text).Done? <==>
            FixtureIsWritable(p, st, cases, source, n, text)
  {
    hide Knows, Platform.Faithful, SelectionOf, FixtureStep, SomeFieldDrifts, FieldsSound, NewScheduleKey, Aligned,
         SomethingIsStale, AgreeAsFixtures, FieldIsReadable, ComposerIsFresh, TakeKeys, SchedulesAssignable, Find;
    KnowsPlatform(o, p, st.producers, cases);
    GuardJudgesTheInput(o, SelectionOf(source), st.historical, n, text);
    if Readable(p, text) {
      ParsedIsWellFormed(p, text);
      AlignedIsAgreement(p, st.historical, n, text);
      var fixture := p.parse(text).value;
      if fixture.Obj? {
        WellFormedIsDistinct(fixture.fields);
        StaleFields(o, p, st.producers, cases, source, fixture.fields);
        ComposerMeans(o, p, st.producers, cases, source, fixture.fields);
        HasSchedules(fixture.fields);
        assert fixture == Obj(fixture.fields) && forall k :: Property(fixture, k) == Find(fixture.fields, k);
      } else {
        NothingToDo(o, p, st.producers, cases, source, fixture);
      }
    }
  }

  lemma HasSchedules(fields: seq<Field>)
    ensures Has(fields, "schedules") <==> Find(fields, "schedules").Some?
    ensures Find(fields, "schedules").Some? ==>
              (TakeKeys(Find(fields, "schedules").value) <==> SchedulesAssignable(Find(fields, "schedules").value))
  {
    hide TakeKeys, SchedulesAssignable;
    if Find(fields, "schedules").Some? {
      TakeKeysMeans(Find(fields, "schedules").value);
    }
  }

  lemma NothingToDo(o: Owners, p: Platform, producers: map<string, string>, cases: Json, source: Option<string>,
                    fixture: Json)
    requires !fixture.Obj?
    ensures !SomethingIsStale(p, producers, cases, source, fixture)
    ensures RewriteSound(o, SelectionOf(source), FieldsOf(Some(fixture)))
    ensures !SomeFieldDrifts(o, SelectionOf(source), FieldsOf(Some(fixture)))
  {
  }

  // ----- the lock file

  /** The evidence of an id declares an identity of this length and hash. */
  ghost predicate EvidenceIdentifies(p: Platform, producers: map<string, string>, cases: Json, id: string, length: int,
                                     hash: string)
  {
    exists w :: EvidenceDeclares(p, producers, cases, id, w) && Identifies(w, length, hash)
  }

  ghost predicate LockIsStale(p: Platform, producers: map<string, string>, cases: Json, source: Option<string>,
                              id: string, v: Json, length: int, hash: string)
  {
    && Asked(source, id) && IsIdentity(v) && !Identifies(v, length, hash)
    && EvidenceIdentifies(p, producers, cases, id, length, hash)
  }

  /** A lock the run is asked about holds an identity, and so does its evidence. */
  ghost predicate LockIsReadable(p: Platform, producers: map<string, string>, cases: Json, source: Option<string>,
                                 id: string, v: Json)
  {
    Asked(source, id) ==> IsIdentity(v) && exists w :: EvidenceDeclares(p, producers, cases, id, w) && IsIdentity(w)
  }

  ghost predicate LocksAreWritable(p: Platform, producers: map<string, string>, cases: Json, source: Option<string>,
                                   text: string)
  {
    match p.parse(text)
    case Some(Obj(fields)) =>
      && LocksMatchCases(cases, fields)
      && var locks := Find(fields, "identities").value;
         forall id :: Property(locks, id).Some? ==>
           LockIsReadable(p, producers, cases, source, id, Property(locks, id).value)
    case _ => false
  }

  /** The value a lock is written with: nothing but the identity its evidence declares. */
  ghost predicate LockIsWritten(p: Platform, producers: map<string, string>, cases: Json, source: Option<string>,
                                id: string, v: Json, w: Json)
  {
    && (forall length, hash :: LockIsStale(p, producers, cases, source, id, v, length, hash) ==>
          w == Obj([Field("algorithm", Str("sha256")), Field("byteLength", Int(length)), Field("sha256", Str(hash))]))
    && ((forall length, hash :: !LockIsStale(p, producers, cases, source, id, v, length, hash)) ==> w == v)
  }

  ghost predicate LocksAreWritten(p: Platform, producers: map<string, string>, cases: Json, source: Option<string>,
                                  before: seq<Field>, after: seq<Field>)
  {
    SameKeys(before, after)
    && forall i :: 0 <= i < |before| ==>
         LockIsWritten(p, producers, cases, source, before[i].key, before[i].value, after[i].value)
  }

  ghost predicate SomeLockIsStale(p: Platform, producers: map<string, string>, cases: Json, source: Option<string>,
                                  ids: seq<Field>)
  {
    exists id, length, hash :: Find(ids, id).Some?
                               && LockIsStale(p, producers, cases, source, id, Find(ids, id).value, length, hash)
  }

  lemma EvidenceIdentityMeans(o: Owners, p: Platform, producers: map<string, string>, cases: Json, id: string)
    requires Knows(o, p, producers, cases)
    ensures o.load(Evidence(id)).Some? <==> exists w :: EvidenceDeclares(p, producers, cases, id, w) && IsIdentity(w)
    ensures forall length, hash :: EvidenceIdentifies(p, producers, cases, id, length, hash) <==>
              && o.load(Evidence(id)).Some? && o.load(Evidence(id)).value.byteLength == length
              && o.load(Evidence(id)).value.sha256 == hash
  {
    hide AsIdentity, EvidenceDeclares, Describes, DescribesDistinctly, IsIdentity, Identifies;
    forall w ensures IsIdentity(w) <==> AsIdentity(w).Some? {
      SameIdentityMeans(w, w);
    }
    forall w, length, hash
      ensures Identifies(w, length, hash) <==> AsIdentity(w).Some? && AsIdentity(w).value.byteLength == length
                                                && AsIdentity(w).value.sha256 == hash
    {
      IdentityMeans(w, length, hash);
    }
    if exists w :: EvidenceDeclares(p, producers, cases, id, w) && IsIdentity(w) {
      var w :| EvidenceDeclares(p, producers, cases, id, w) && IsIdentity(w);
      assert o.load(Evidence(id)) == Some(AsIdentity(w).value);
    }
    forall length, hash | EvidenceIdentifies(p, producers, cases, id, length, hash)
      ensures o.load(Evidence(id)).Some? && o.load(Evidence(id)).value.byteLength == length
      ensures o.load(Evidence(id)).value.sha256 == hash
    {
      var w :| EvidenceDeclares(p, producers, cases, id, w) && Identifies(w, length, hash);
      assert o.load(Evidence(id)) == Some(AsIdentity(w).value);
    }
  }

  /** What a lock's soundness and drift mean. */
  lemma LockFieldMeans(o: Owners, p: Platform, producers: map<string, string>, cases: Json, source: Option<string>,
                       f: Field)
    requires Knows(o, p, producers, cases)
    ensures LockIsReadable(p, producers, cases, source, f.key, f.value) <==> LockSound(o, SelectionOf(source), f)
    ensures LockDrifts(o, SelectionOf(source), f) <==>
            exists length, hash :: LockIsStale(p, producers, cases, source, f.key, f.value, length, hash)
    ensures LockIsWritten(p, producers, cases, source, f.key, f.value, RewriteLock(o, SelectionOf(source), f).value)
  {
    hide Knows, AsIdentity, EvidenceDeclares, IsIdentity, Identifies, SelectionOf, Asked, EvidenceIdentifies;
    AskedIsSelected(source, f.key);
    SameIdentityMeans(f.value, f.value);
    EvidenceIdentityMeans(o, p, producers, cases, f.key);
    var loaded := o.load(Evidence(f.key));
    forall length, hash
      ensures Identifies(f.value, length, hash) <==>
                AsIdentity(f.value).Some? && AsIdentity(f.value).value.byteLength == length
                                                      && AsIdentity(f.value).value.sha256 == hash
    {
      IdentityMeans(f.value, length, hash);
    }
    if LockDrifts(o, SelectionOf(source), f) {
      assert LockIsStale(p, producers, cases, source, f.key, f.value, loaded.value.byteLength, loaded.value.sha256);
    }
  }

  lemma LocksMeanWriting(o: Owners, p: Platform, producers: map<string, string>, cases: Json, source: Option<string>,
                         ids: seq<Field>)
    requires Knows(o, p, producers, cases) && Distinct(ids)
    ensures LocksAreWritten(p, producers, cases, source, ids, RewriteLocks(o, SelectionOf(source), ids))
    ensures SomeLockIsStale(p, producers, cases, source, ids) <==> SomeLockDrifts(o, SelectionOf(source), ids)
    ensures (forall id :: Find(ids, id).Some? ==> LockIsReadable(p, producers, cases, source, id, Find(ids, id).value))
            <==> (forall i :: 0 <= i < |ids| ==> LockSound(o, SelectionOf(source), ids[i]))
  {
    hide Knows, LockIsStale, LockIsReadable, LockIsWritten, LockDrifts, LockSound, SelectionOf, Find, RewriteLock,
         Distinct;
    RewriteLockKeepsKeys(o, SelectionOf(source), ids);
    forall i | 0 <= i < |ids|
      ensures LockIsWritten(p, producers, cases, source, ids[i].key, ids[i].value,
                            RewriteLock(o, SelectionOf(source), ids[i]).value)
    {
      LockFieldMeans(o, p, producers, cases, source, ids[i]);
    }
    StaleLocks(o, p, producers, cases, source, ids);
    ReadableLocks(o, p, producers, cases, source, ids);
  }

  lemma StaleLocks(o: Owners, p: Platform, producers: map<string, string>, cases: Json, source: Option<string>,
                   ids: seq<Field>)
    requires Knows(o, p, producers, cases) && Distinct(ids)
    ensures SomeLockIsStale(p, producers, cases, source, ids) <==> SomeLockDrifts(o, SelectionOf(source), ids)
  {
    hide Knows, LockIsStale, LockIsReadable, LockIsWritten, LockDrifts, SelectionOf, Find, Distinct;
    if SomeLockDrifts(o, SelectionOf(source), ids) {
      var i :| 0 <= i < |ids| && LockDrifts(o, SelectionOf(source), ids[i]);
      LockFieldMeans(o, p, producers, cases, source, ids[i]);
      FieldIsFound(ids, i);
      var length, hash :| LockIsStale(p, producers, cases, source, ids[i].key, ids[i].value, length, hash);
      assert Find(ids, ids[i].key).Some?;
    }
    if SomeLockIsStale(p, producers, cases, source, ids) {
      var id, length, hash :| Find(ids, id).Some?
                              && LockIsStale(p, producers, cases, source, id, Find(ids, id).value, length, hash);
      FoundIsField(ids, id);
      var i :| 0 <= i < |ids| && ids[i] == Field(id, Find(ids, id).value);
      LockFieldMeans(o, p, producers, cases, source, ids[i]);
    }
  }

  lemma ReadableLocks(o: Owners, p: Platform, producers: map<string, string>, cases: Json, source: Option<string>,
                      ids: seq<Field>)
    requires Knows(o, p, producers, cases) && Distinct(ids)
    ensures (forall id :: Find(ids, id).Some? ==> LockIsReadable(p, producers, cases, source, id, Find(ids, id).value))
            <==> (forall i :: 0 <= i < |ids| ==> LockSound(o, SelectionOf(source), ids[i]))
  {
    hide Knows, LockIsStale, LockIsReadable, LockIsWritten, LockDrifts, LockSound, SelectionOf, Find, Distinct;
    forall i | 0 <= i < |ids|
      ensures Find(ids, ids[i].key) == Some(ids[i].value)
      ensures LockIsReadable(p, producers, cases, source, ids[i].key, ids[i].value) <==>
              LockSound(o, SelectionOf(source), ids[i])
    {
      FieldIsFound(ids, i);
      LockFieldMeans(o, p, producers, cases, source, ids[i]);
    }
    forall id | Find(ids, id).Some? ensures exists i :: 0 <= i < |ids| && ids[i] == Field(id, Find(ids, id).value) {
      FoundIsField(ids, id);
    }
    if forall id :: Find(ids, id).Some? ==> LockIsReadable(p, producers, cases, source, id, Find(ids, id).value) {
      forall i | 0 <= i < |ids| ensures LockSound(o, SelectionOf(source), ids[i]) {
        assert Find(ids, ids[i].key).Some?;
      }
    }
  }

  lemma RewriteLockKeepsKeys(o: Owners, sel: Selection, ids: seq<Field>)
    ensures SameKeys(ids, RewriteLocks(o, sel, ids))
    ensures forall i :: 0 <= i < |ids| ==> RewriteLocks(o, sel, ids)[i].value == RewriteLock(o, sel, ids[i]).value
  {
    hide LockDrifts;
  }

  // ----- the run

  /** A fixture as a write leaves it: untouched if nothing in it is stale, and otherwise its written fields, printed. */
  ghost predicate FixtureIsWritten(p: Platform, producers: map<string, string>, cases: Json, source: Option<string>,
                                   before: string, after: string)
  {
    match p.parse(before)
    case Some(Obj(fields)) =>
      if SomethingIsStale(p, producers, cases, source, Obj(fields))
      then exists written :: FieldsAreWritten(p, producers, cases, source, fields, written)
                             && after == p.render(Obj(written))
      else after == before
    case _ => after == before
  }

  /** The lock file as a write leaves it. */
  ghost predicate LockFileIsWritten(p: Platform, producers: map<string, string>, cases: Json, source: Option<string>,
                                    before: string, after: string)
  {
    match p.parse(before)
    case Some(Obj(fields)) =>
      Property(Obj(fields), "identities").Some? && Property(Obj(fields), "identities").value.Obj? &&
      var ids := Property(Obj(fields), "identities").value.fields;
      if SomeLockIsStale(p, producers, cases, source, ids)
      then exists written :: LocksAreWritten(p, producers, cases, source, ids, written)
                             && after == p.render(Obj(WithLocks(fields, written)))
      else after == before
    case _ => false
  }

  /** The fields of the lock file with other locks in their place. */
  function WithLocks(fields: seq<Field>, ids: seq<Field>): seq<Field> {
    seq(|fields|, i requires 0 <= i < |fields| =>
          if fields[i].key == "identities" then Field("identities", Obj(ids)) else fields[i])
  }

  /** A write of one owner can go through with some cases file. */
  ghost predicate CanWrite(p: Platform, st: State, key: string, cases: Json) {
    && Starts(p, st, cases)
    && (forall n :: n in st.Chain() && IsFixtureFile(n) ==>
          FixtureIsWritable(p, st, cases, Some(key), n, st.Chain()[n]))
    && "integration-evidence-locks.json" in st.Chain()
    && LocksAreWritable(p, st.producers, cases, Some(key), st.Chain()["integration-evidence-locks.json"])
    && IsMet(p, st, cases, key)
  }

  /** The chain after a write: every fixture and the lock file as written, everything else as it was. */
  ghost predicate ChainIsWritten(p: Platform, st: State, key: string, cases: Json, after: map<string, string>) {
    && after.Keys == st.Chain().Keys
    && forall n :: n in st.Chain() ==>
         if IsFixtureFile(n) then FixtureIsWritten(p, st.producers, cases, Some(key), st.Chain()[n], after[n])
         else if n == "integration-evidence-locks.json"
         then LockFileIsWritten(p, st.producers, cases, Some(key), st.Chain()[n], after[n])
         else after[n] == st.Chain()[n]
  }

  lemma SettledIsWriting(o: Owners, p: Platform, producers: map<string, string>, cases: Json, source: Option<string>,
                         text: string)
    requires p.Faithful() && Knows(o, p, producers, cases)
    ensures FixtureIsWritten(p, producers, cases, source, text, Settled(o, SelectionOf(source), text))
  {
    hide Knows, Platform.Faithful, SelectionOf, SomeFieldDrifts, SomethingIsStale, FieldsAreWritten, Rewrite;
    KnowsPlatform(o, p, producers, cases);
    ParsedIsWellFormed(p, text);
    match p.parse(text)
    case Some(Obj(fields)) =>
      WellFormedIsDistinct(fields);
      StaleFields(o, p, producers, cases, source, fields);
      RewriteIsWriting(o, p, producers, cases, source, fields);
    case _ => NoFieldsNoDrift(o, SelectionOf(source));
  }

  lemma RewrittenLockFile(o: Owners, sel: Selection, fields: seq<Field>)
    requires LocksSound(o, sel, fields) && Distinct(fields)
    ensures RewriteLockFile(o, sel, fields) == WithLocks(fields, RewriteLocks(o, sel, IdsOf(fields)))
  {
    hide LockSound, KeysOf, RewriteLocks, IsLocks;
    var k := Index(fields, "identities");
    forall i | 0 <= i < |fields| ensures fields[i].key == "identities" <==> i == k {
      if fields[i].key == "identities" {
        IndexIsUnique(fields, i);
      }
    }
  }

  lemma LocksWritableMeans(o: Owners, p: Platform, producers: map<string, string>, cases: Json, source: Option<string>,
                           text: string)
    requires p.Faithful() && Knows(o, p, producers, cases)
    ensures LocksAreWritable(p, producers, cases, source, text) <==> LocksOk(o, SelectionOf(source), text)
    ensures LocksOk(o, SelectionOf(source), text) ==>
              LockFileIsWritten(p, producers, cases, source, text, LocksSettled(o, SelectionOf(source), text))
  {
    hide Knows, Platform.Faithful, SelectionOf, Find, LocksSound, LocksMatchCases, LockIsReadable, SomeLockIsStale,
         SomeLockDrifts, LocksAreWritten, RewriteLocks, RewriteLockFile, WithLocks, WellFormed, Distinct;
    KnowsPlatform(o, p, producers, cases);
    if p.parse(text).Some? && p.parse(text).value.Obj? {
      var fields := p.parse(text).value.fields;
      ParsedIsWellFormed(p, text);
      WellFormedIsDistinct(fields);
      LocksReadableMeans(o, p, producers, cases, source, fields);
      if LocksSound(o, SelectionOf(source), fields) {
        LocksHaveIds(o, SelectionOf(source), fields);
        IdsAreDistinct(fields);
        LocksMeanWriting(o, p, producers, cases, source, IdsOf(fields));
        RewrittenLockFile(o, SelectionOf(source), fields);
      }
    }
  }

  lemma LocksReadableMeans(o: Owners, p: Platform, producers: map<string, string>, cases: Json, source: Option<string>,
                        fields: seq<Field>)
    requires Knows(o, p, producers, cases) && WellFormed(Obj(fields))
    ensures LocksSound(o, SelectionOf(source), fields) <==>
            && LocksMatchCases(cases, fields)
            && var locks := Find(fields, "identities").value;
               forall id :: Property(locks, id).Some? ==>
                 LockIsReadable(p, producers, cases, source, id, Property(locks, id).value)
  {
    hide Knows, SelectionOf, Find, LockSound, KeysOf, Describes, LockIsReadable, WellFormed, Distinct,
         SomeLockIsStale, SomeLockDrifts, LocksAreWritten, RewriteLocks;
    LocksAreLocks(fields);
    if Find(fields, "identities").Some? && Find(fields, "identities").value.Obj? {
      var ids := Find(fields, "identities").value.fields;
      IdsAreDistinct(fields);
      LockTableMeans(o, p, producers, cases, ids);
      LocksMeanWriting(o, p, producers, cases, source, ids);
      assert Find(fields, "identities") == Some(Obj(ids));
      assert forall id :: Property(Obj(ids), id) == Find(ids, id);
    }
  }

  /**
   * A write succeeds exactly if all it needs can be read and every stale fixture agrees with its history,
   * and then each file is as it has to be written.
   */
  lemma WriteIsProvenance(p: Platform, key: string, st: State)
    requires p.Faithful()
    ensures Run(p, Write, Some(key), st).verdict == Clean <==> exists cases :: CanWrite(p, st, key, cases)
    ensures var after := Run(p, Write, Some(key), st).state;
            forall cases :: Run(p, Write, Some(key), st).verdict == Clean && Starts(p, st, cases) ==>
              after == st.WithChain(after.Chain()) && ChainIsWritten(p, st, key, cases, after.Chain())
  {
    hide Run, Prelude, Starts, IsMet, SeenSources, Platform.Faithful, CanWrite, ChainIsWritten, Manageable, Settle;
    WriteSettles(p, key, st);
    PreludeIsStart(p, st);
    forall cases | Prelude(p, st).Some? && Starts(p, st, cases)
      ensures CanWrite(p, st, key, cases) <==>
              Manageable(Prelude(p, st).value, Only({key}), st) && key in SeenSources(Prelude(p, st).value, st.Chain())
      ensures Manageable(Prelude(p, st).value, Only({key}), st) ==>
                var after := Settle(Prelude(p, st).value, Only({key}), st);
                after == st.WithChain(after.Chain()) && ChainIsWritten(p, st, key, cases, after.Chain())
    {
      WritingMeans(p, st, key, cases, Prelude(p, st).value);
    }
    forall cases | CanWrite(p, st, key, cases) ensures Starts(p, st, cases) {
      WritingStarts(p, st, key, cases);
    }
  }

  lemma WritingStarts(p: Platform, st: State, key: string, cases: Json)
    ensures CanWrite(p, st, key, cases) ==> Starts(p, st, cases)
  {
  }

  lemma WritingMeans(p: Platform, st: State, key: string, cases: Json, o: Owners)
    requires p.Faithful() && Starts(p, st, cases) && Knows(o, p, st.producers, cases)
    ensures CanWrite(p, st, key, cases) <==>
            Manageable(o, Only({key}), st) && key in SeenSources(o, st.Chain())
    ensures Manageable(o, Only({key}), st) ==>
              var after := Settle(o, Only({key}), st);
              after == st.WithChain(after.Chain()) && ChainIsWritten(p, st, key, cases, after.Chain())
  {
    hide Starts, IsMet, SeenSources, Platform.Faithful, Knows, FixtureIsWritable, LocksAreWritable, LocksOk,
         FixtureIsWritten, LockFileIsWritten, Settled, LocksSettled, FixtureStep, IsFixtureFile, IsFixtureName;
    forall n: string ensures IsFixtureFile(n) <==> IsFixtureName(n) {
      FilesAreFixtures(n);
    }
    forall n: string, text: string
      ensures StepOk(o, Only({key}), st.historical, n, text) <==> FixtureIsWritable(p, st, cases, Some(key), n, text)
    {
      StepIsWriting(o, p, st, cases, Some(key), n, text);
    }
    forall text: string
      ensures FixtureIsWritten(p, st.producers, cases, Some(key), text, Settled(o, Only({key}), text))
      ensures LocksAreWritable(p, st.producers, cases, Some(key), text) <==> LocksOk(o, Only({key}), text)
      ensures LocksOk(o, Only({key}), text) ==>
                LockFileIsWritten(p, st.producers, cases, Some(key), text, LocksSettled(o, Only({key}), text))
    {
      SettledIsWriting(o, p, st.producers, cases, Some(key), text);
      LocksWritableMeans(o, p, st.producers, cases, Some(key), text);
    }
    MetIsSeen(o, p, st, cases, key);
    if Manageable(o, Only({key}), st) {
      SettleKeepsNames(o, Only({key}), st);
      NoFixtureIsLocks();
    }
  }

  lemma NoFixtureIsLocks()
    ensures !IsFixtureFile("integration-evidence-locks.json")
  {
  }
}
