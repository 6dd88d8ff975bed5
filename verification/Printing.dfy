/**
 * Printing and reading back: what a value looks like once a tool has written it. Nothing the
 * maintainer decides by changes, and the meaning stays exactly where every number prints as itself.
 */
module Printing {
  import opened Base
  import opened Json
  import opened EvidenceFields
  import opened FixtureTheorems

  lemma StoredNumber(p: Platform, l: string)
    requires p.Faithful()
    ensures p.stored(l) == Float(l) || p.stored(l) == if l == NEGATIVE_ZERO then Int(0) else Null
    ensures p.stored(NEGATIVE_ZERO) == Int(0)
  {
  }

  lemma StoredKeepsKind(p: Platform, v: Json)
    requires p.Faithful()
    ensures p.Stored(v).Obj? == v.Obj? && p.Stored(v).Arr? == v.Arr? && p.Stored(v).Str? == v.Str?
    ensures v.Str? || v.Int? || v.Bool? || v.Null? ==> p.Stored(v) == v
    ensures v.Obj? ==> p.Stored(v) == Obj(p.StoredFields(v.fields))
    ensures v.Float? ==> p.Stored(v) == v || p.Stored(v) == if v.literal == NEGATIVE_ZERO then Int(0) else Null
  {
    hide Platform.Faithful;
    if v.Float? {
      StoredNumber(p, v.literal);
    }
  }

  function StoredOption(p: Platform, v: Option<Json>): Option<Json> {
    if v.Some? then Some(p.Stored(v.value)) else None
  }

  lemma FindStored(p: Platform, fields: seq<Field>, key: string)
    ensures Index(p.StoredFields(fields), key) == Index(fields, key)
    ensures Find(p.StoredFields(fields), key) == StoredOption(p, Find(fields, key))
  {
    hide Platform.Stored;
    SameKeysSameIndex(fields, p.StoredFields(fields), key);
  }

  lemma PutStored(p: Platform, fields: seq<Field>, key: string, value: Json)
    requires p.Stored(value) == value
    ensures p.StoredFields(Put(fields, key, value)) == Put(p.StoredFields(fields), key, value)
  {
    hide Platform.Stored, Index;
    FindStored(p, fields, key);
  }

  lemma {:induction false} WithoutStored(p: Platform, fields: seq<Field>, keys: set<string>)
    ensures p.StoredFields(Without(fields, keys)) == Without(p.StoredFields(fields), keys)
  {
    hide Platform.Stored, Platform.StoredFields;
    if fields == [] {
      assert p.StoredFields(fields) == [];
    } else {
      WithoutStored(p, fields[1..], keys);
      var rest := Without(fields[1..], keys);
      StoredHead(p, fields);
      StoredHead(p, [fields[0]] + rest);
      assert ([fields[0]] + rest)[1..] == rest && [] + rest == rest;
      assert [] + Without(p.StoredFields(fields[1..]), keys) == Without(p.StoredFields(fields[1..]), keys);
    }
  }

  lemma StoredHead(p: Platform, fields: seq<Field>)
    requires fields != []
    ensures p.StoredFields(fields) == [Field(fields[0].key, p.Stored(fields[0].value))] + p.StoredFields(fields[1..])
  {
    hide Platform.Stored;
  }

  /** A value that has been printed once has only numbers that print as themselves. */
  lemma {:induction false} StoredIsExact(p: Platform, j: Json)
    requires p.Faithful()
    ensures p.Exact(p.Stored(j))
    decreases j
  {
    hide Platform.Faithful;
    match j
    case Float(l) => StoredNumber(p, l);
    case Arr(items) =>
      forall i | 0 <= i < |items| ensures p.Exact(p.Stored(items[i])) {
        StoredIsExact(p, items[i]);
      }
    case Obj(fields) =>
      forall i | 0 <= i < |fields| ensures p.Exact(p.Stored(fields[i].value)) {
        StoredIsExact(p, fields[i].value);
      }
    case _ =>
  }

  // ----- what the maintainer decides by

  lemma IdentityStored(p: Platform, v: Json)
    requires p.Faithful()
    ensures AsIdentity(p.Stored(v)) == AsIdentity(v) && IsIdentityShape(p.Stored(v)) == IsIdentityShape(v)
  {
    hide Platform.Faithful, Platform.Stored, Platform.StoredFields, Index, IsHex;
    StoredKeepsKind(p, v);
    if v.Obj? {
      forall k | k in {"algorithm", "byteLength", "sha256"}
        ensures Find(p.StoredFields(v.fields), k) == StoredOption(p, Find(v.fields, k))
        ensures Has(p.StoredFields(v.fields), k) == Has(v.fields, k)
      {
        FindStored(p, v.fields, k);
        if Find(v.fields, k).Some? {
          StoredKeepsKind(p, Find(v.fields, k).value);
        }
      }
      TripleStored(p, v.fields);
    }
  }

  lemma TripleStored(p: Platform, fields: seq<Field>)
    requires p.Faithful()
    ensures AsIdentity(Obj(p.StoredFields(fields))) == AsIdentity(Obj(fields))
  {
    hide Platform.Faithful, Platform.Stored, Platform.StoredFields, Find, IsHex;
    FindStored(p, fields, "algorithm");
    FindStored(p, fields, "byteLength");
    FindStored(p, fields, "sha256");
    PropertyStored(p, Find(fields, "algorithm"));
    PropertyStored(p, Find(fields, "byteLength"));
    PropertyStored(p, Find(fields, "sha256"));
  }

  lemma PropertyStored(p: Platform, v: Option<Json>)
    requires p.Faithful()
    ensures forall s :: StoredOption(p, v) == Some(Str(s)) <==> v == Some(Str(s))
    ensures v.Some? ==> p.Stored(v.value).Str? == v.value.Str?
    ensures v.Some? ==> SafeInteger(p.Stored(v.value)) == SafeInteger(v.value)
  {
    hide Platform.Faithful, Platform.Stored;
    if v.Some? {
      StoredKeepsKind(p, v.value);
    }
  }

  function StoredField(p: Platform, f: Field): Field {
    Field(f.key, p.Stored(f.value))
  }

  lemma SourceStored(p: Platform, f: Field)
    requires p.Faithful()
    ensures SourceOf(StoredField(p, f)) == SourceOf(f)
  {
    hide Platform.Faithful, Platform.Stored, Platform.StoredFields, Index, ProfileKind, ProducerOf, IsIdentityShape,
         EndsWith;
    IdentityStored(p, f.value);
    StoredKeepsKind(p, f.value);
    ShapeIsObject(f.value);
    if f.value.Obj? {
      FindStored(p, f.value.fields, "schema");
      PropertyStored(p, Find(f.value.fields, "schema"));
    }
  }

  lemma ShapeIsObject(v: Json)
    ensures IsIdentityShape(v) ==> v.Obj?
  {
  }

  lemma DriftStored(p: Platform, o: Owners, sel: Selection, f: Field)
    requires p.Faithful()
    ensures FieldSound(o, sel, StoredField(p, f)) == FieldSound(o, sel, f)
    ensures Drifts(o, sel, StoredField(p, f)) == Drifts(o, sel, f)
  {
    hide Platform.Faithful, Platform.Stored, SourceOf, AsIdentity;
    SourceStored(p, f);
    IdentityStored(p, f.value);
  }

  lemma SetScheduleStored(p: Platform, schedule: Json, key: string)
    requires p.Faithful()
    ensures SetScheduleKey(p.Stored(schedule), key) == p.Stored(SetScheduleKey(schedule, key))
    ensures Assignable(p.Stored(schedule)) == Assignable(schedule)
    ensures ScheduleCarries(p.Stored(schedule), key) == ScheduleCarries(schedule, key)
  {
    hide Platform.Faithful, Platform.StoredFields, Put, Index;
    StoredKeepsKind(p, schedule);
    if schedule.Obj? {
      PutStored(p, schedule.fields, "evidenceKey", Str(key));
      FindStored(p, schedule.fields, "evidenceKey");
      PropertyStored(p, Find(schedule.fields, "evidenceKey"));
    }
  }

  lemma SchedulesStored(p: Platform, schedules: Json, key: string)
    requires p.Faithful()
    ensures SetSchedules(p.Stored(schedules), key) == p.Stored(SetSchedules(schedules, key))
    ensures SchedulesAssignable(p.Stored(schedules)) == SchedulesAssignable(schedules)
    ensures SchedulesCarry(p.Stored(schedules), key) == SchedulesCarry(schedules, key)
  {
    hide Platform.Faithful, SetScheduleKey, Assignable, ScheduleCarries;
    StoredKeepsKind(p, schedules);
    match schedules
    case Obj(fields) =>
      var after := p.StoredFields(fields);
      forall i | 0 <= i < |fields|
        ensures SetScheduleKey(after[i].value, key) == p.Stored(SetScheduleKey(fields[i].value, key))
        ensures Assignable(after[i].value) == Assignable(fields[i].value)
        ensures ScheduleCarries(after[i].value, key) == ScheduleCarries(fields[i].value, key)
      {
        SetScheduleStored(p, fields[i].value, key);
      }
    case Arr(items) =>
      var after := p.Stored(schedules).items;
      forall i | 0 <= i < |items|
        ensures SetScheduleKey(after[i], key) == p.Stored(SetScheduleKey(items[i], key))
        ensures Assignable(after[i]) == Assignable(items[i])
        ensures ScheduleCarries(after[i], key) == ScheduleCarries(items[i], key)
      {
        SetScheduleStored(p, items[i], key);
      }
    case _ =>
  }

  lemma WithIdentityStored(p: Platform, v: Json, e: Identity)
    requires p.Faithful() && v.Obj?
    ensures p.Stored(v).Obj? && WithIdentity(p.Stored(v), e) == p.Stored(WithIdentity(v, e))
  {
    hide Platform.Faithful, Platform.StoredFields, Put;
    var f1 := Put(v.fields, "algorithm", Str("sha256"));
    var f2 := Put(f1, "byteLength", Int(e.byteLength));
    PutStored(p, v.fields, "algorithm", Str("sha256"));
    PutStored(p, f1, "byteLength", Int(e.byteLength));
    PutStored(p, f2, "sha256", Str(e.sha256));
  }

  lemma RewriteFieldStored(p: Platform, o: Owners, sel: Selection, key: Option<string>, f: Field)
    requires p.Faithful()
    ensures RewriteField(o, sel, key, StoredField(p, f)) == StoredField(p, RewriteField(o, sel, key, f))
  {
    hide Platform.Faithful, Platform.Stored, SourceOf, AsIdentity, WithIdentity, SetSchedules, IsIdentityShape;
    DriftStored(p, o, sel, f);
    SourceStored(p, f);
    if Drifts(o, sel, f) {
      DriftIsShaped(o, sel, f);
      WithIdentityStored(p, f.value, o.load(SourceOf(f).source).value);
    } else if f.key == "schedules" && key.Some? {
      SchedulesStored(p, f.value, key.value);
    }
  }

  lemma DriftIsShaped(o: Owners, sel: Selection, f: Field)
    ensures Drifts(o, sel, f) ==> f.value.Obj?
  {
  }

  /** Rewriting what was printed is printing what was rewritten. */
  lemma RewriteStored(p: Platform, o: Owners, sel: Selection, fields: seq<Field>)
    requires p.Faithful()
    ensures NewScheduleKey(o, sel, p.StoredFields(fields)) == NewScheduleKey(o, sel, fields)
    ensures Rewrite(o, sel, p.StoredFields(fields)) == p.StoredFields(Rewrite(o, sel, fields))
  {
    hide Platform.Faithful, Platform.Stored, Drifts, SourceOf, RewriteField, Index;
    var after := p.StoredFields(fields);
    FindStored(p, fields, "composerEvidence");
    var c := Index(fields, "composerEvidence");
    if c < |fields| {
      assert after[c] == StoredField(p, fields[c]);
      DriftStored(p, o, sel, fields[c]);
      SourceStored(p, fields[c]);
    }
    var key := NewScheduleKey(o, sel, fields);
    forall i | 0 <= i < |fields|
      ensures RewriteField(o, sel, key, after[i]) == p.StoredFields(Rewrite(o, sel, fields))[i]
    {
      assert after[i] == StoredField(p, fields[i]);
      RewriteFieldStored(p, o, sel, key, fields[i]);
    }
  }

  lemma SoundnessStored(p: Platform, o: Owners, sel: Selection, fields: seq<Field>)
    requires p.Faithful()
    ensures SomeFieldDrifts(o, sel, p.StoredFields(fields)) == SomeFieldDrifts(o, sel, fields)
    ensures FieldsSound(o, sel, p.StoredFields(fields)) == FieldsSound(o, sel, fields)
    ensures RewriteSound(o, sel, p.StoredFields(fields)) == RewriteSound(o, sel, fields)
  {
    hide Platform.Faithful, Platform.Stored, Drifts, FieldSound, NewScheduleKey, SchedulesAssignable, Index;
    var after := p.StoredFields(fields);
    forall i | 0 <= i < |fields|
      ensures Drifts(o, sel, after[i]) == Drifts(o, sel, fields[i])
      ensures FieldSound(o, sel, after[i]) == FieldSound(o, sel, fields[i])
    {
      assert after[i] == StoredField(p, fields[i]);
      DriftStored(p, o, sel, fields[i]);
    }
    assert SomeFieldDrifts(o, sel, after) == SomeFieldDrifts(o, sel, fields) by {
      if SomeFieldDrifts(o, sel, fields) {
        var i :| 0 <= i < |fields| && Drifts(o, sel, fields[i]);
        assert Drifts(o, sel, after[i]);
      }
    }
    assert FieldsSound(o, sel, after) == FieldsSound(o, sel, fields) by {
      if FieldsSound(o, sel, after) {
        forall i | 0 <= i < |fields| ensures FieldSound(o, sel, fields[i]) {
          assert FieldSound(o, sel, after[i]);
        }
      }
    }
    RewriteStored(p, o, sel, fields);
    FindStored(p, fields, "schedules");
    if Has(fields, "schedules") {
      SchedulesStored(p, Find(fields, "schedules").value, "");
    }
  }

  lemma CouplingStored(p: Platform, fields: seq<Field>)
    requires p.Faithful()
    ensures Coupled(p.StoredFields(fields)) == Coupled(fields)
  {
    hide Platform.Faithful, Platform.Stored, AsIdentity, SchedulesCarry, Index;
    var c, s := Index(fields, "composerEvidence"), Index(fields, "schedules");
    FindStored(p, fields, "composerEvidence");
    FindStored(p, fields, "schedules");
    if c < |fields| && s < |fields| {
      IdentityStored(p, fields[c].value);
      if AsIdentity(fields[c].value).Some? {
        SchedulesStored(p, fields[s].value, AsIdentity(fields[c].value).value.sha256);
      }
    }
  }
}
