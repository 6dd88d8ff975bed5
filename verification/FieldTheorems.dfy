/** What rewriting the fields of one fixture keeps, and how two rewrites compose. */
module FieldTheorems {
  import opened Base
  import opened Json
  import opened ReferenceSelection
  import opened EvidenceFields

  function Union(a: Selection, b: Selection): Selection {
    if a.All? || b.All? then All else Only(a.keys + b.keys)
  }

  lemma SelectsUnion(a: Selection, b: Selection, key: string)
    ensures Union(a, b).Selects(key) <==> a.Selects(key) || b.Selects(key)
  {
  }

  lemma TripleKeysDiffer()
    ensures "algorithm" != "byteLength" && "algorithm" != "sha256" && "byteLength" != "sha256"
    ensures "schema" !in {"algorithm", "byteLength", "sha256"}
  {
    assert |"algorithm"| == 9 && |"byteLength"| == 10 && |"sha256"| == 6;
    assert "schema"[1] == 'c' && "sha256"[1] == 'h' && |"schema"| == 6;
  }

  lemma SchedulesIsFree(f: Field)
    requires f.key == "schedules" || f.key == "schema" || f.key == "identities" || f.key == "evidenceInputs"
    ensures SourceOf(f) == Free && !IsAncestryKey(f.key)
  {
    assert "schedules"[8] == 's' && "schema"[5] == 'a' && "identities"[9] == 's' && "evidenceInputs"[13] == 's';
    LastLetterIsFree(f);
  }

  lemma LastLetterIsFree(f: Field)
    requires f.key != "" && f.key[|f.key| - 1] in {'s', 'a'}
    ensures SourceOf(f) == Free && !IsAncestryKey(f.key)
  {
    assert "Evidence"[7] == 'e' && |"Evidence"| == 8;
    assert "composerEvidence"[15] == 'e' && "profileProjection"[16] == 'n' && "rootControlProjection"[20] == 'n';
    EndsWithLast(f.key, "Evidence");
  }

  lemma EndsWithLast(s: string, suffix: string)
    requires s != "" && suffix != ""
    ensures EndsWith(s, suffix) ==> s[|s| - 1] == suffix[|suffix| - 1]
  {
  }

  /** The identity written is the identity read back; all other properties of the value stay. */
  lemma WithIdentityReadsBack(v: Json, e: Identity)
    requires IsIdentityShape(v)
    ensures AsIdentity(WithIdentity(v, e)) == Some(e)
    ensures SameKeys(v.fields, WithIdentity(v, e).fields)
    ensures Find(WithIdentity(v, e).fields, "schema") == Find(v.fields, "schema")
    ensures AsIdentity(v).Some? ==> StripIdentity(WithIdentity(v, e)) == StripIdentity(v)
    ensures WellFormed(v) ==> WellFormed(WithIdentity(v, e))
  {
    hide Put, WellFormed, Without, Index, Find, AsIdentity, StripIdentity;
    PutsRead(v.fields, e);
    assert WithIdentity(v, e) == Obj(WithIdentity(v, e).fields);
    TripleIsIdentity(WithIdentity(v, e).fields, e);
    PutsKeepKeys(v.fields, e);
    if AsIdentity(v).Some? {
      TripleIsStripped(v.fields, e);
    }
    if WellFormed(v) {
      PutsKeepWellFormed(v.fields, e);
    }
  }

  lemma TripleIsIdentity(fields: seq<Field>, e: Identity)
    requires Find(fields, "algorithm") == Some(Str("sha256")) && Find(fields, "byteLength") == Some(Int(e.byteLength))
    requires Find(fields, "sha256") == Some(Str(e.sha256))
    ensures AsIdentity(Obj(fields)) == Some(e)
  {
    hide Find, Index;
  }

  lemma TripleIsStripped(f0: seq<Field>, e: Identity)
    requires AsIdentity(Obj(f0)).Some?
    ensures StripIdentity(WithIdentity(Obj(f0), e)) == StripIdentity(Obj(f0))
  {
    hide Put, Without, Index, Find, IsHex;
    PutsRead(f0, e);
    PutsAreStripped(f0, e);
  }

  lemma PutsRead(f0: seq<Field>, e: Identity)
    ensures var after := WithIdentity(Obj(f0), e).fields;
            && Find(after, "algorithm") == Some(Str("sha256")) && Find(after, "byteLength") == Some(Int(e.byteLength))
            && Find(after, "sha256") == Some(Str(e.sha256)) && Find(after, "schema") == Find(f0, "schema")
  {
    TripleKeysDiffer();
    var a, b, c := "algorithm", "byteLength", "sha256";
    var f1 := Put(f0, a, Str("sha256"));
    var f2 := Put(f1, b, Int(e.byteLength));
    var f3 := Put(f2, c, Str(e.sha256));
    forall k | k in {a, b, c, "schema"}
      ensures Find(f3, k) == if k == a then Some(Str("sha256")) else if k == b then Some(Int(e.byteLength))
                             else if k == c then Some(Str(e.sha256)) else Find(f0, k)
    {
      FindAfterPut(f0, a, Str("sha256"), k);
      FindAfterPut(f1, b, Int(e.byteLength), k);
      FindAfterPut(f2, c, Str(e.sha256), k);
    }
    assert "schema" in {a, b, c, "schema"};
    assert {a, b, c} <= {a, b, c, "schema"};
  }

  lemma PutsAreStripped(f0: seq<Field>, e: Identity)
    ensures Without(WithIdentity(Obj(f0), e).fields, {"algorithm", "byteLength", "sha256"}) ==
            Without(f0, {"algorithm", "byteLength", "sha256"})
  {
    var f1 := Put(f0, "algorithm", Str("sha256"));
    var f2 := Put(f1, "byteLength", Int(e.byteLength));
    WithoutForgetsPut(f0, "algorithm", Str("sha256"), {"algorithm", "byteLength", "sha256"});
    WithoutForgetsPut(f1, "byteLength", Int(e.byteLength), {"algorithm", "byteLength", "sha256"});
    WithoutForgetsPut(f2, "sha256", Str(e.sha256), {"algorithm", "byteLength", "sha256"});
  }

  lemma PutsKeepWellFormed(f0: seq<Field>, e: Identity)
    requires WellFormed(Obj(f0))
    ensures WellFormed(WithIdentity(Obj(f0), e))
  {
    var f1 := Put(f0, "algorithm", Str("sha256"));
    var f2 := Put(f1, "byteLength", Int(e.byteLength));
    PutKeepsWellFormed(f0, "algorithm", Str("sha256"));
    PutKeepsWellFormed(f1, "byteLength", Int(e.byteLength));
    PutKeepsWellFormed(f2, "sha256", Str(e.sha256));
  }

  lemma PutsKeepKeys(fields: seq<Field>, e: Identity)
    requires IsIdentityShape(Obj(fields))
    ensures SameKeys(fields, WithIdentity(Obj(fields), e).fields)
  {
    var f1 := Put(fields, "algorithm", Str("sha256"));
    FindAfterPut(fields, "algorithm", Str("sha256"), "byteLength");
    SameKeysSameIndex(fields, f1, "byteLength");
    var f2 := Put(f1, "byteLength", Int(e.byteLength));
    FindAfterPut(f1, "byteLength", Int(e.byteLength), "sha256");
    SameKeysSameIndex(fields, f2, "sha256");
    FindAfterPut(f2, "sha256", Str(e.sha256), "sha256");
  }

  lemma SourceDependsOnSchema(f: Field, g: Field)
    requires f.key == g.key && IsIdentityShape(f.value) && IsIdentityShape(g.value)
    requires Find(f.value.fields, "schema") == Find(g.value.fields, "schema")
    ensures SourceOf(f) == SourceOf(g)
  {
  }

  lemma SettledField(o: Owners, a: Selection, b: Selection, f: Field)
    requires Drifts(o, a, f)
    ensures var g := Field(f.key, WithIdentity(f.value, o.load(SourceOf(f).source).value));
            && SourceOf(g) == SourceOf(f) && AsIdentity(g.value) == o.load(SourceOf(f).source)
            && FieldSound(o, b, g) && FieldSound(o, b, f)
  {
    var source := SourceOf(f).source;
    WithIdentityReadsBack(f.value, o.load(source).value);
    SourceDependsOnSchema(f, Field(f.key, WithIdentity(f.value, o.load(source).value)));
  }

  /** Rewriting a field keeps its owner, settles it for its owner, and leaves its other drift alone. */
  lemma RewriteFieldSettles(o: Owners, a: Selection, b: Selection, key: Option<string>, f: Field)
    ensures var g := RewriteField(o, a, key, f);
            && g.key == f.key && SourceOf(g) == SourceOf(f)
            && FieldSound(o, b, g) == FieldSound(o, b, f)
            && Drifts(o, b, g) == (Drifts(o, b, f) && !Drifts(o, a, f))
  {
    var g := RewriteField(o, a, key, f);
    if Drifts(o, a, f) {
      SettledField(o, a, b, f);
    } else if f.key == "schedules" {
      SchedulesIsFree(f);
      SchedulesIsFree(g);
    }
  }

  lemma RewriteKeepsShape(o: Owners, a: Selection, fields: seq<Field>)
    ensures SameKeys(fields, Rewrite(o, a, fields))
    ensures Distinct(fields) ==> Distinct(Rewrite(o, a, fields))
    ensures forall k :: Index(Rewrite(o, a, fields), k) == Index(fields, k)
  {
    forall k ensures Index(Rewrite(o, a, fields), k) == Index(fields, k) {
      SameKeysSameIndex(fields, Rewrite(o, a, fields), k);
    }
  }

  lemma FieldComposes(o: Owners, a: Selection, b: Selection, key: Option<string>, keyB: Option<string>, f: Field)
    requires FieldSound(o, a, f) && FieldSound(o, b, f)
    ensures FieldSound(o, Union(a, b), f)
    ensures Drifts(o, Union(a, b), f) == (Drifts(o, a, f) || Drifts(o, b, f))
    ensures RewriteField(o, b, if key.Some? then None else keyB, RewriteField(o, a, key, f)) ==
            RewriteField(o, Union(a, b), if key.Some? then key else keyB, f)
  {
    RewriteFieldSettles(o, a, b, key, f);
    if SourceOf(f).Owned? {
      SelectsUnion(a, b, SourceOf(f).source.Key());
    }
    if f.key == "schedules" {
      SchedulesIsFree(f);
    }
  }

  /** Two rewrites in a row are one rewrite of both selections: nothing is undone or done twice. */
  lemma RewriteComposes(o: Owners, a: Selection, b: Selection, fields: seq<Field>)
    requires FieldsSound(o, a, fields) && FieldsSound(o, b, fields)
    ensures Rewrite(o, b, Rewrite(o, a, fields)) == Rewrite(o, Union(a, b), fields)
  {
    var u, mid := Union(a, b), Rewrite(o, a, fields);
    var key, keyB := NewScheduleKey(o, a, fields), NewScheduleKey(o, b, fields);
    ScheduleKeyComposes(o, a, b, fields);
    var twice, once := Rewrite(o, b, mid), Rewrite(o, u, fields);
    forall i | 0 <= i < |fields| ensures twice[i] == once[i] {
      FieldComposes(o, a, b, key, keyB, fields[i]);
      assert mid[i] == RewriteField(o, a, key, fields[i]);
    }
  }

  /** A field drifts for one of two selections, or still drifts for the second after the first rewrite. */
  lemma DriftComposes(o: Owners, a: Selection, b: Selection, fields: seq<Field>)
    requires FieldsSound(o, a, fields) && FieldsSound(o, b, fields)
    ensures SomeFieldDrifts(o, Union(a, b), fields) <==>
            SomeFieldDrifts(o, a, fields) || SomeFieldDrifts(o, b, Rewrite(o, a, fields))
  {
    var u, mid := Union(a, b), Rewrite(o, a, fields);
    var key := NewScheduleKey(o, a, fields);
    forall i | 0 <= i < |fields|
      ensures Drifts(o, u, fields[i]) == (Drifts(o, a, fields[i]) || Drifts(o, b, mid[i]))
    {
      FieldComposes(o, a, b, key, None, fields[i]);
      RewriteFieldSettles(o, a, b, key, fields[i]);
      assert mid[i] == RewriteField(o, a, key, fields[i]);
    }
    assert SomeFieldDrifts(o, u, fields) <==>
             exists i :: 0 <= i < |fields| && (Drifts(o, a, fields[i]) || Drifts(o, b, mid[i]));
  }

  lemma ScheduleKeyComposes(o: Owners, a: Selection, b: Selection, fields: seq<Field>)
    requires FieldsSound(o, a, fields) && FieldsSound(o, b, fields)
    ensures var key := NewScheduleKey(o, a, fields);
            NewScheduleKey(o, Union(a, b), fields) ==
            if key.Some? then key else NewScheduleKey(o, b, fields)
    ensures var key := NewScheduleKey(o, a, fields);
            NewScheduleKey(o, b, Rewrite(o, a, fields)) ==
            if key.Some? then None else NewScheduleKey(o, b, fields)
  {
    RewriteKeepsShape(o, a, fields);
    var i := Index(fields, "composerEvidence");
    if i < |fields| {
      RewriteFieldSettles(o, a, b, NewScheduleKey(o, a, fields), fields[i]);
      if SourceOf(fields[i]).Owned? {
        SelectsUnion(a, b, SourceOf(fields[i]).source.Key());
      }
    }
  }

  /** Soundness of a later rewrite is unaffected by an earlier one, schedules included. */
  lemma RewriteSoundComposes(o: Owners, a: Selection, b: Selection, fields: seq<Field>)
    requires RewriteSound(o, a, fields)
    ensures RewriteSound(o, Union(a, b), fields) <==> RewriteSound(o, b, fields)
    ensures RewriteSound(o, b, Rewrite(o, a, fields)) <==> RewriteSound(o, b, fields)
  {
    var mid := Rewrite(o, a, fields);
    var key := NewScheduleKey(o, a, fields);
    forall i | 0 <= i < |fields|
      ensures FieldSound(o, b, mid[i]) == FieldSound(o, b, fields[i])
      ensures FieldSound(o, Union(a, b), fields[i]) == FieldSound(o, b, fields[i])
    {
      RewriteFieldSettles(o, a, b, key, fields[i]);
      if SourceOf(fields[i]).Owned? {
        SelectsUnion(a, b, SourceOf(fields[i]).source.Key());
      }
    }
    assert FieldsSound(o, b, mid) <==> FieldsSound(o, b, fields) by {
      if FieldsSound(o, b, mid) {
        forall i | 0 <= i < |fields| ensures FieldSound(o, b, fields[i]) {
          assert FieldSound(o, b, mid[i]);
        }
      }
    }
    assert FieldsSound(o, Union(a, b), fields) <==> FieldsSound(o, b, fields);
    if FieldsSound(o, b, fields) {
      ScheduleKeyComposes(o, a, b, fields);
      RewriteKeepsShape(o, a, fields);
      if Has(fields, "schedules") {
        SchedulesStayAssignable(o, a, fields);
      }
    }
  }

  lemma SchedulesStayAssignable(o: Owners, a: Selection, fields: seq<Field>)
    requires Has(fields, "schedules")
    ensures Has(Rewrite(o, a, fields), "schedules")
    ensures SchedulesAssignable(Find(Rewrite(o, a, fields), "schedules").value) <==>
            SchedulesAssignable(Find(fields, "schedules").value)
  {
    RewriteKeepsShape(o, a, fields);
    var key := NewScheduleKey(o, a, fields);
    var f := fields[Index(fields, "schedules")];
    SchedulesIsFree(f);
    if key.Some? {
      SetSchedulesStaysAssignable(f.value, key.value);
    }
  }

  lemma SetSchedulesStaysAssignable(schedules: Json, key: string)
    ensures SchedulesAssignable(SetSchedules(schedules, key)) <==> SchedulesAssignable(schedules)
  {
    var after := SetSchedules(schedules, key);
    match schedules
    case Obj(fields) =>
      assert forall i :: 0 <= i < |fields| ==> Assignable(after.fields[i].value) == Assignable(fields[i].value);
    case Arr(items) =>
      assert forall i :: 0 <= i < |items| ==> Assignable(after.items[i]) == Assignable(items[i]);
    case _ =>
  }
}
