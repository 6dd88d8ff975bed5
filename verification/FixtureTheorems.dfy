/** Rewriting ancestry changes no meaning, keeps the descriptor table, and couples schedules. */
module FixtureTheorems {
  import opened Base
  import opened Json
  import opened ReferenceSelection
  import opened EvidenceFields
  import opened FieldTheorems

  lemma OwnedKeysAreAncestry(f: Field)
    ensures SourceOf(f).Owned? ==> IsAncestryKey(f.key)
  {
  }

  lemma UntouchedField(o: Owners, sel: Selection, fields: seq<Field>, key: string)
    requires key in {"schema", "identities", "evidenceInputs"}
    ensures Find(Rewrite(o, sel, fields), key) == Find(fields, key)
  {
    RewriteKeepsShape(o, sel, fields);
    var i := Index(fields, key);
    if i < |fields| {
      SchedulesIsFree(fields[i]);
      assert |"schema"| == 6 && |"identities"| == 10 && |"evidenceInputs"| == 14 && |"schedules"| == 9;
    }
  }

  lemma StripsAgree(schedules: Json, key: string)
    requires SchedulesAssignable(schedules)
    ensures MapValues(SetSchedules(schedules, key), StripKey) == MapValues(schedules, StripKey)
    ensures Truthy(SetSchedules(schedules, key)) == Truthy(schedules)
    ensures SomeValueIsNull(SetSchedules(schedules, key)) == SomeValueIsNull(schedules)
  {
    var after := SetSchedules(schedules, key);
    match schedules {
      case Obj(fields) =>
        forall i | 0 <= i < |fields| ensures StripKey(after.fields[i].value) == StripKey(fields[i].value) {
          assert Assignable(fields[i].value);
          StripForgetsKey(fields[i].value, key);
        }
        assert forall i :: 0 <= i < |fields| ==> Assignable(fields[i].value) && Assignable(after.fields[i].value);
      case Arr(items) =>
        forall i | 0 <= i < |items| ensures StripKey(after.items[i]) == StripKey(items[i]) {
          assert Assignable(items[i]);
          StripForgetsKey(items[i], key);
        }
        assert forall i :: 0 <= i < |items| ==> Assignable(items[i]) && Assignable(after.items[i]);
      case _ =>
    }
  }

  lemma StripForgetsKey(schedule: Json, key: string)
    ensures StripKey(SetScheduleKey(schedule, key)) == StripKey(schedule)
  {
    if schedule.Obj? {
      WithoutForgetsPut(schedule.fields, "evidenceKey", Str(key), {"evidenceKey"});
    }
  }

  lemma ProjectedFieldIsKept(o: Owners, sel: Selection, key: Option<string>, locks: bool, f: Field)
    requires f.key == "schedules" && key.Some? ==> SchedulesAssignable(f.value)
    ensures ProjectField(locks, RewriteField(o, sel, key, f)) == ProjectField(locks, f)
  {
    if Drifts(o, sel, f) {
      OwnedKeysAreAncestry(f);
      WithIdentityReadsBack(f.value, o.load(SourceOf(f).source).value);
    } else if f.key == "schedules" && key.Some? {
      SchedulesIsFree(f);
      StripsAgree(f.value, key.value);
      assert |"identities"| != |"schedules"|;
    }
  }

  lemma RewriteKeepsThrowing(o: Owners, sel: Selection, fields: seq<Field>)
    requires Distinct(fields) && RewriteSound(o, sel, fields)
    ensures ProjectionThrows(Rewrite(o, sel, fields)) == ProjectionThrows(fields)
  {
    hide StripKey, StripIdentity, NewScheduleKey, FieldsSound;
    UntouchedField(o, sel, fields, "schema");
    UntouchedField(o, sel, fields, "identities");
    RewriteKeepsShape(o, sel, fields);
    var s := Index(fields, "schedules");
    if s < |fields| {
      SchedulesIsFree(fields[s]);
      if NewScheduleKey(o, sel, fields).Some? {
        StripsAgree(fields[s].value, NewScheduleKey(o, sel, fields).value);
      }
    }
  }

  /** The main guarantee of the writer: ancestry maintenance never changes a fixture's semantics. */
  lemma RewriteKeepsProjection(o: Owners, sel: Selection, fields: seq<Field>)
    requires Distinct(fields) && RewriteSound(o, sel, fields)
    ensures Projection(Obj(Rewrite(o, sel, fields))) == Projection(Obj(fields))
  {
    hide ProjectField, StripKey, StripIdentity, NewScheduleKey, FieldsSound, ProjectionThrows, SourceOf,
         IsIdentityShape, AsIdentity;
    var after := Rewrite(o, sel, fields);
    var key := NewScheduleKey(o, sel, fields);
    UntouchedField(o, sel, fields, "schema");
    RewriteKeepsShape(o, sel, fields);
    RewriteKeepsThrowing(o, sel, fields);
    forall i | 0 <= i < |fields| ensures ProjectFields(after)[i] == ProjectFields(fields)[i] {
      if fields[i].key == "schedules" {
        IndexIsUnique(fields, i);
      }
      ProjectedFieldIsKept(o, sel, key, IsLocks(fields), fields[i]);
    }
    assert ProjectFields(after) == ProjectFields(fields);
  }

  lemma RewriteKeepsWellFormed(o: Owners, sel: Selection, fields: seq<Field>)
    requires WellFormed(Obj(fields))
    ensures WellFormed(Obj(Rewrite(o, sel, fields)))
  {
    var key := NewScheduleKey(o, sel, fields);
    RewriteKeepsShape(o, sel, fields);
    forall i | 0 <= i < |fields| ensures WellFormed(RewriteField(o, sel, key, fields[i]).value) {
      var f := fields[i];
      if Drifts(o, sel, f) {
        WithIdentityReadsBack(f.value, o.load(SourceOf(f).source).value);
      } else if f.key == "schedules" && key.Some? {
        SetSchedulesKeepsWellFormed(f.value, key.value);
      }
    }
  }

  lemma SetSchedulesKeepsWellFormed(schedules: Json, key: string)
    requires WellFormed(schedules)
    ensures WellFormed(SetSchedules(schedules, key))
  {
    match schedules
    case Obj(fields) =>
      forall i | 0 <= i < |fields| ensures WellFormed(SetScheduleKey(fields[i].value, key)) {
        if fields[i].value.Obj? {
          PutKeepsWellFormed(fields[i].value.fields, "evidenceKey", Str(key));
        }
      }
    case Arr(items) =>
      forall i | 0 <= i < |items| ensures WellFormed(SetScheduleKey(items[i], key)) {
        if items[i].Obj? {
          PutKeepsWellFormed(items[i].fields, "evidenceKey", Str(key));
        }
      }
    case _ =>
  }

  predicate ScheduleCarries(schedule: Json, key: string) {
    schedule.Obj? ==> Find(schedule.fields, "evidenceKey") == Some(Str(key))
  }

  predicate SchedulesCarry(schedules: Json, key: string) {
    match schedules
    case Obj(fields) => forall i :: 0 <= i < |fields| ==> ScheduleCarries(fields[i].value, key)
    case Arr(items) => forall i :: 0 <= i < |items| ==> ScheduleCarries(items[i], key)
    case _ => true
  }

  /** Every schedule names the composer evidence its fixture was made from. */
  predicate Coupled(fields: seq<Field>) {
    var c, s := Index(fields, "composerEvidence"), Index(fields, "schedules");
    c < |fields| && s < |fields| && AsIdentity(fields[c].value).Some? ==>
      SchedulesCarry(fields[s].value, AsIdentity(fields[c].value).value.sha256)
  }

  /**
   * A run couples a fixture exactly when it was coupled before or its composer field drifted:
   * a stale schedule beside an up-to-date composer field is never repaired.
   */
  lemma RewriteCouples(o: Owners, sel: Selection, fields: seq<Field>)
    requires FieldsSound(o, sel, fields)
    ensures Coupled(Rewrite(o, sel, fields)) <==> NewScheduleKey(o, sel, fields).Some? || Coupled(fields)
  {
    var after := Rewrite(o, sel, fields);
    var key := NewScheduleKey(o, sel, fields);
    RewriteKeepsShape(o, sel, fields);
    var c, s := Index(fields, "composerEvidence"), Index(fields, "schedules");
    if c < |fields| && s < |fields| {
      SchedulesIsFree(fields[s]);
      assert |"composerEvidence"| != |"schedules"|;
      if key.Some? {
        SettledField(o, sel, sel, fields[c]);
        SetSchedulesCarry(fields[s].value, key.value);
      }
    }
  }

  lemma SetSchedulesCarry(schedules: Json, key: string)
    ensures SchedulesCarry(SetSchedules(schedules, key), key)
  {
    match schedules
    case Obj(fields) =>
      forall i | 0 <= i < |fields| ensures ScheduleCarries(SetScheduleKey(fields[i].value, key), key) {
        SetScheduleCarries(fields[i].value, key);
      }
    case Arr(items) =>
      forall i | 0 <= i < |items| ensures ScheduleCarries(SetScheduleKey(items[i], key), key) {
        SetScheduleCarries(items[i], key);
      }
    case _ =>
  }

  lemma SetScheduleCarries(schedule: Json, key: string)
    ensures ScheduleCarries(SetScheduleKey(schedule, key), key)
  {
    if schedule.Obj? {
      FindAfterPut(schedule.fields, "evidenceKey", Str(key), "evidenceKey");
    }
  }
}
