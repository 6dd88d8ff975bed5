/** The lock file: settling it composes, and the exact effect of replacing whole entries. */
module LockFileTheorems {
  import opened Base
  import opened Json
  import opened Listing
  import opened ReferenceSelection
  import opened EvidenceFields
  import opened FieldTheorems
  import opened EvidenceLocks
  import opened Printing
  import opened StepTheorems

  function IdsOf(fields: seq<Field>): seq<Field> {
    FieldsOf(Find(fields, "identities"))
  }

  /** The text the lock file settles to. */
  function LocksSettled(o: Owners, sel: Selection, text: string): string {
    var fields := FieldsOf(o.platform.parse(text));
    if LocksSound(o, sel, fields) && SomeLockDrifts(o, sel, IdsOf(fields))
    then o.platform.render(Obj(RewriteLockFile(o, sel, fields))) else text
  }

  predicate LocksOk(o: Owners, sel: Selection, text: string) {
    var fixture := o.platform.parse(text);
    fixture.Some? && fixture.value.Obj? && LocksSound(o, sel, fixture.value.fields)
  }

  lemma LocksStepMeans(o: Owners, sel: Selection, text: string)
    ensures LocksStep(o, Write, sel, text).Done? <==> LocksOk(o, sel, text)
    ensures LocksStep(o, Check, sel, text).Done? <==> LocksOk(o, sel, text)
    ensures LocksOk(o, sel, text) ==> LocksStep(o, Write, sel, text).text == LocksSettled(o, sel, text)
    ensures LocksOk(o, sel, text) ==> LocksStep(o, Check, sel, text).text == text
  {
    hide LocksSound, SomeLockDrifts, RewriteLockFile, LockChanges, Sorted;
    LocksHaveIds(o, sel, FieldsOf(o.platform.parse(text)));
  }

  lemma LocksHaveIds(o: Owners, sel: Selection, fields: seq<Field>)
    ensures LocksSound(o, sel, fields) ==>
              Find(fields, "identities").Some? && Find(fields, "identities").value.Obj?
              && IdsOf(fields) == Find(fields, "identities").value.fields
  {
    hide IsLocks, KeysOf, LockSound;
  }

  lemma RecordReadsBack(e: Identity)
    ensures AsIdentity(IdentityRecord(e)) == Some(e)
    ensures WellFormed(IdentityRecord(e))
  {
    TripleKeysDiffer();
    var fs := IdentityRecord(e).fields;
    assert fs[0].key == "algorithm" && fs[1].key == "byteLength" && fs[2].key == "sha256";
    assert Distinct(fs);
    IndexIsUnique(fs, 0);
    IndexIsUnique(fs, 1);
    IndexIsUnique(fs, 2);
  }

  lemma LockComposes(o: Owners, a: Selection, b: Selection, f: Field)
    ensures var g := RewriteLock(o, a, f);
            && g.key == f.key && LockSound(o, b, g) == LockSound(o, b, f)
            && LockDrifts(o, b, g) == (LockDrifts(o, b, f) && !LockDrifts(o, a, f))
    ensures LockSound(o, a, f) && LockSound(o, b, f) ==>
              && LockSound(o, Union(a, b), f)
              && LockDrifts(o, Union(a, b), f) == (LockDrifts(o, a, f) || LockDrifts(o, b, f))
              && RewriteLock(o, b, RewriteLock(o, a, f)) == RewriteLock(o, Union(a, b), f)
  {
    SelectsUnion(a, b, f.key);
    if LockDrifts(o, a, f) {
      RecordReadsBack(o.load(Evidence(f.key)).value);
    }
  }

  lemma SameKeysSameSet(a: seq<Field>, b: seq<Field>)
    requires SameKeys(a, b)
    ensures KeysOf(a) == KeysOf(b)
  {
  }

  lemma RewriteLockFileReads(o: Owners, a: Selection, fields: seq<Field>)
    requires LocksSound(o, a, fields)
    ensures SameKeys(fields, RewriteLockFile(o, a, fields)) && IsLocks(RewriteLockFile(o, a, fields))
    ensures Find(RewriteLockFile(o, a, fields), "identities") == Some(Obj(RewriteLocks(o, a, IdsOf(fields))))
    ensures KeysOf(RewriteLocks(o, a, IdsOf(fields))) == KeysOf(IdsOf(fields))
  {
    var after := RewriteLockFile(o, a, fields);
    assert |"schema"| == 6 && |"identities"| == 10;
    SameKeysSameIndex(fields, after, "schema");
    SameKeysSameIndex(fields, after, "identities");
    SameKeysSameSet(IdsOf(fields), RewriteLocks(o, a, IdsOf(fields)));
  }

  lemma RewriteLocksKeepsWellFormed(o: Owners, a: Selection, ids: seq<Field>)
    requires WellFormed(Obj(ids))
    ensures WellFormed(Obj(RewriteLocks(o, a, ids)))
  {
    forall i | 0 <= i < |ids| ensures WellFormed(RewriteLock(o, a, ids[i]).value) {
      if LockDrifts(o, a, ids[i]) {
        RecordReadsBack(o.load(Evidence(ids[i].key)).value);
      }
    }
  }

  lemma RewriteLockFileKeepsWellFormed(o: Owners, a: Selection, fields: seq<Field>)
    requires WellFormed(Obj(fields)) && LocksSound(o, a, fields)
    ensures WellFormed(Obj(RewriteLockFile(o, a, fields)))
  {
    var i := Index(fields, "identities");
    assert WellFormed(fields[i].value);
    RewriteLocksKeepsWellFormed(o, a, IdsOf(fields));
    var after := RewriteLockFile(o, a, fields);
    assert forall j :: 0 <= j < |fields| && j != i ==> after[j] == fields[j];
  }

  lemma LocksOkComposes(o: Owners, a: Selection, b: Selection, fields: seq<Field>)
    requires Distinct(fields) && LocksSound(o, a, fields)
    ensures LocksSound(o, b, RewriteLockFile(o, a, fields)) <==> LocksSound(o, b, fields)
    ensures LocksSound(o, b, fields) ==> LocksSound(o, Union(a, b), fields)
  {
    RewriteLockFileReads(o, a, fields);
    var ids := IdsOf(fields);
    var mid := RewriteLocks(o, a, ids);
    forall i | 0 <= i < |ids|
      ensures LockSound(o, b, mid[i]) == LockSound(o, b, ids[i])
      ensures LockSound(o, b, ids[i]) ==> LockSound(o, Union(a, b), ids[i])
    {
      LockComposes(o, a, b, ids[i]);
    }
  }

  lemma LockDriftComposes(o: Owners, a: Selection, b: Selection, ids: seq<Field>)
    requires forall i :: 0 <= i < |ids| ==> LockSound(o, a, ids[i]) && LockSound(o, b, ids[i])
    ensures RewriteLocks(o, b, RewriteLocks(o, a, ids)) == RewriteLocks(o, Union(a, b), ids)
    ensures SomeLockDrifts(o, Union(a, b), ids) <==>
            SomeLockDrifts(o, a, ids) || SomeLockDrifts(o, b, RewriteLocks(o, a, ids))
  {
    var mid := RewriteLocks(o, a, ids);
    forall i | 0 <= i < |ids|
      ensures RewriteLocks(o, b, mid)[i] == RewriteLocks(o, Union(a, b), ids)[i]
      ensures LockDrifts(o, Union(a, b), ids[i]) == (LockDrifts(o, a, ids[i]) || LockDrifts(o, b, mid[i]))
    {
      LockComposes(o, a, b, ids[i]);
    }
    assert SomeLockDrifts(o, Union(a, b), ids) <==>
      exists i :: 0 <= i < |ids| && (LockDrifts(o, a, ids[i]) || LockDrifts(o, b, mid[i]));
  }

  lemma NoLockDriftIsIdentity(o: Owners, a: Selection, fields: seq<Field>)
    requires LocksSound(o, a, fields) && !SomeLockDrifts(o, a, IdsOf(fields))
    ensures RewriteLockFile(o, a, fields) == fields
  {
    var ids := IdsOf(fields);
    forall i | 0 <= i < |ids| ensures RewriteLocks(o, a, ids)[i] == ids[i] {
      assert !LockDrifts(o, a, ids[i]);
    }
    assert RewriteLocks(o, a, ids) == ids;
  }

  lemma LockStored(p: Platform, o: Owners, sel: Selection, f: Field)
    requires p.Faithful()
    ensures LockSound(o, sel, StoredField(p, f)) == LockSound(o, sel, f)
    ensures LockDrifts(o, sel, StoredField(p, f)) == LockDrifts(o, sel, f)
    ensures RewriteLock(o, sel, StoredField(p, f)) == StoredField(p, RewriteLock(o, sel, f))
  {
    hide Platform.Faithful, AsIdentity;
    IdentityStored(p, f.value);
    if LockDrifts(o, sel, f) {
      RecordStored(p, o.load(Evidence(f.key)).value);
    }
  }

  lemma RecordStored(p: Platform, e: Identity)
    ensures p.Stored(IdentityRecord(e)) == IdentityRecord(e)
  {
    var fields := IdentityRecord(e).fields;
    assert p.StoredFields(fields) == fields;
  }

  lemma IdsStored(p: Platform, fields: seq<Field>)
    requires p.Faithful()
    ensures IdsOf(p.StoredFields(fields)) == p.StoredFields(IdsOf(fields))
    ensures Find(p.StoredFields(fields), "identities") == StoredOption(p, Find(fields, "identities"))
  {
    hide Platform.Faithful, Find;
    FindStored(p, fields, "identities");
    if Find(fields, "identities").Some? {
      StoredKeepsKind(p, Find(fields, "identities").value);
    }
  }

  lemma LocksStored(p: Platform, o: Owners, sel: Selection, ids: seq<Field>)
    requires p.Faithful()
    ensures RewriteLocks(o, sel, p.StoredFields(ids)) == p.StoredFields(RewriteLocks(o, sel, ids))
    ensures SomeLockDrifts(o, sel, p.StoredFields(ids)) == SomeLockDrifts(o, sel, ids)
    ensures (forall i :: 0 <= i < |ids| ==> LockSound(o, sel, p.StoredFields(ids)[i])) <==>
            (forall i :: 0 <= i < |ids| ==> LockSound(o, sel, ids[i]))
  {
    hide Platform.Faithful, LockSound, LockDrifts, RewriteLock;
    var after := p.StoredFields(ids);
    forall i | 0 <= i < |ids|
      ensures LockSound(o, sel, after[i]) == LockSound(o, sel, ids[i])
      ensures LockDrifts(o, sel, after[i]) == LockDrifts(o, sel, ids[i])
      ensures RewriteLock(o, sel, after[i]) == StoredField(p, RewriteLock(o, sel, ids[i]))
    {
      assert after[i] == StoredField(p, ids[i]);
      LockStored(p, o, sel, ids[i]);
    }
    assert RewriteLocks(o, sel, after) == p.StoredFields(RewriteLocks(o, sel, ids));
    if SomeLockDrifts(o, sel, ids) {
      var i :| 0 <= i < |ids| && LockDrifts(o, sel, ids[i]);
      assert LockDrifts(o, sel, after[i]);
    }
    if forall i :: 0 <= i < |ids| ==> LockSound(o, sel, after[i]) {
      forall i | 0 <= i < |ids| ensures LockSound(o, sel, ids[i]) {
        assert LockSound(o, sel, after[i]);
      }
    }
  }

  lemma LocksSoundMeans(o: Owners, sel: Selection, fields: seq<Field>)
    ensures LocksSound(o, sel, fields) <==>
              && IsLocks(fields) && Find(fields, "identities").Some? && Find(fields, "identities").value.Obj?
              && KeysOf(IdsOf(fields)) == o.ids
              && forall i :: 0 <= i < |IdsOf(fields)| ==> LockSound(o, sel, IdsOf(fields)[i])
  {
    hide IsLocks, KeysOf, LockSound, Index;
  }

  /** What the tool sees of a printed lock file, and what it makes of it. */
  lemma LockFileStored(p: Platform, o: Owners, sel: Selection, fields: seq<Field>)
    requires p.Faithful()
    ensures IsLocks(p.StoredFields(fields)) == IsLocks(fields)
    ensures LocksSound(o, sel, p.StoredFields(fields)) == LocksSound(o, sel, fields)
    ensures LocksSound(o, sel, fields) ==>
              RewriteLockFile(o, sel, p.StoredFields(fields)) == p.StoredFields(RewriteLockFile(o, sel, fields))
  {
    hide Platform.Faithful, Platform.Stored, IsLocks, KeysOf, LockSound, RewriteLocks, SomeLockDrifts, Find, Index,
         LocksSound;
    var after := p.StoredFields(fields);
    SchemaStored(p, fields);
    IdsStored(p, fields);
    LocksStored(p, o, sel, IdsOf(fields));
    SameKeysSameSet(IdsOf(fields), p.StoredFields(IdsOf(fields)));
    if Find(fields, "identities").Some? {
      StoredKeepsKind(p, Find(fields, "identities").value);
    }
    LocksSoundMeans(o, sel, fields);
    LocksSoundMeans(o, sel, after);
    if LocksSound(o, sel, fields) {
      RewrittenLocksStored(p, o, sel, fields);
    }
  }

  lemma SchemaStored(p: Platform, fields: seq<Field>)
    requires p.Faithful()
    ensures IsLocks(p.StoredFields(fields)) == IsLocks(fields)
  {
    hide Platform.Faithful, Platform.Stored, Find;
    FindStored(p, fields, "schema");
    PropertyStored(p, Find(fields, "schema"));
  }

  lemma RewrittenLocksStored(p: Platform, o: Owners, sel: Selection, fields: seq<Field>)
    requires p.Faithful() && LocksSound(o, sel, fields) && LocksSound(o, sel, p.StoredFields(fields))
    ensures RewriteLockFile(o, sel, p.StoredFields(fields)) == p.StoredFields(RewriteLockFile(o, sel, fields))
  {
    hide Platform.Faithful, Platform.Stored, LocksSound, RewriteLocks, Index;
    var after := p.StoredFields(fields);
    LocksHaveIds(o, sel, fields);
    LocksHaveIds(o, sel, after);
    FindStored(p, fields, "identities");
    IdsStored(p, fields);
    LocksStored(p, o, sel, IdsOf(fields));
    StoredKeepsKind(p, Obj(RewriteLocks(o, sel, IdsOf(fields))));
  }

  /** Re-reading a settled lock file gives the rewritten locks as they are after printing. */
  lemma LocksSettledReads(o: Owners, a: Selection, text: string)
    requires o.platform.Faithful() && LocksOk(o, a, text)
    ensures var fields := FieldsOf(o.platform.parse(text));
            o.platform.parse(LocksSettled(o, a, text)) == Some(Obj(
              if SomeLockDrifts(o, a, IdsOf(fields)) then o.platform.StoredFields(RewriteLockFile(o, a, fields))
              else fields))
  {
    hide LocksSound, SomeLockDrifts, Platform.StoredFields, RewriteLockFile;
    var fields := FieldsOf(o.platform.parse(text));
    RewriteLockFileKeepsWellFormed(o, a, fields);
    StoredKeepsKind(o.platform, Obj(RewriteLockFile(o, a, fields)));
  }

  lemma RewriteLockFileComposes(o: Owners, a: Selection, b: Selection, fields: seq<Field>)
    requires Distinct(fields) && LocksSound(o, a, fields) && LocksSound(o, b, fields)
    ensures LocksSound(o, b, RewriteLockFile(o, a, fields)) && LocksSound(o, Union(a, b), fields)
    ensures RewriteLockFile(o, b, RewriteLockFile(o, a, fields)) == RewriteLockFile(o, Union(a, b), fields)
  {
    LocksOkComposes(o, a, b, fields);
    RewriteLockFileReads(o, a, fields);
    LockDriftComposes(o, a, b, IdsOf(fields));
    SameKeysSameIndex(fields, RewriteLockFile(o, a, fields), "identities");
  }

  lemma LocksDriftAtMost(o: Owners, a: Selection, b: Selection, fields: seq<Field>)
    requires Distinct(fields) && LocksSound(o, a, fields) && LocksSound(o, b, fields)
    ensures LocksSound(o, b, RewriteLockFile(o, a, fields))
    ensures SomeLockDrifts(o, Union(a, b), IdsOf(fields)) <==>
            SomeLockDrifts(o, a, IdsOf(fields)) || SomeLockDrifts(o, b, IdsOf(RewriteLockFile(o, a, fields)))
    ensures !SomeLockDrifts(o, a, IdsOf(fields)) ==> RewriteLockFile(o, a, fields) == fields
    ensures !SomeLockDrifts(o, b, IdsOf(RewriteLockFile(o, a, fields))) ==>
              RewriteLockFile(o, b, RewriteLockFile(o, a, fields)) == RewriteLockFile(o, a, fields)
  {
    LocksOkComposes(o, a, b, fields);
    RewriteLockFileReads(o, a, fields);
    LockDriftComposes(o, a, b, IdsOf(fields));
    if !SomeLockDrifts(o, a, IdsOf(fields)) {
      NoLockDriftIsIdentity(o, a, fields);
    }
    if !SomeLockDrifts(o, b, IdsOf(RewriteLockFile(o, a, fields))) {
      NoLockDriftIsIdentity(o, b, RewriteLockFile(o, a, fields));
    }
  }

  /** The lock file too settles for two selections exactly as for both at once. */
  lemma LocksSettledComposes(o: Owners, a: Selection, b: Selection, text: string)
    requires o.platform.Faithful() && LocksOk(o, a, text)
    ensures LocksOk(o, b, LocksSettled(o, a, text)) <==> LocksOk(o, b, text)
    ensures LocksOk(o, b, text) ==>
              && LocksOk(o, Union(a, b), text)
              && LocksSettled(o, b, LocksSettled(o, a, text)) == LocksSettled(o, Union(a, b), text)
  {
    hide Platform.Faithful, Platform.StoredFields, Platform.Stored, LocksSound, SomeLockDrifts, RewriteLockFile,
         LocksSettled;
    LocksAreWellFormed(o, a, text);
    LocksOkAfter(o, a, b, text);
    LocksOkComposes(o, a, b, FieldsOf(o.platform.parse(text)));
    if LocksOk(o, b, text) {
      LocksSettleTwice(o, a, b, text);
    }
  }

  lemma LocksOkAfter(o: Owners, a: Selection, b: Selection, text: string)
    requires o.platform.Faithful() && LocksOk(o, a, text)
    ensures LocksOk(o, b, LocksSettled(o, a, text)) <==> LocksOk(o, b, text)
  {
    hide Platform.Faithful, Platform.StoredFields, Platform.Stored, LocksSound, SomeLockDrifts, RewriteLockFile;
    var fields := FieldsOf(o.platform.parse(text));
    LocksAreWellFormed(o, a, text);
    LocksSettledReads(o, a, text);
    LocksOkComposes(o, a, b, fields);
    LockFileStored(o.platform, o, b, RewriteLockFile(o, a, fields));
    if !SomeLockDrifts(o, a, IdsOf(fields)) {
      NoLockDriftIsIdentity(o, a, fields);
    }
  }

  lemma LocksSettleTwice(o: Owners, a: Selection, b: Selection, text: string)
    requires o.platform.Faithful() && LocksOk(o, a, text) && LocksOk(o, b, text)
    requires LocksOk(o, b, LocksSettled(o, a, text)) && LocksOk(o, Union(a, b), text)
    ensures LocksSettled(o, b, LocksSettled(o, a, text)) == LocksSettled(o, Union(a, b), text)
  {
    hide Platform.Faithful, Platform.StoredFields, Platform.Stored, LocksSound, SomeLockDrifts, RewriteLockFile;
    var p, fields := o.platform, FieldsOf(o.platform.parse(text));
    LocksAreWellFormed(o, a, text);
    LocksSettledReads(o, a, text);
    LocksOkComposes(o, a, b, fields);
    var mid := RewriteLockFile(o, a, fields);
    LocksDriftAtMost(o, a, b, fields);
    RewriteLockFileComposes(o, a, b, fields);
    if !SomeLockDrifts(o, a, IdsOf(fields)) {
      NoLockDriftIsIdentity(o, a, fields);
    } else {
      LockFileStored(p, o, b, mid);
      RewriteLockFileKeepsWellFormed(o, a, fields);
      RewriteLockFileKeepsWellFormed(o, b, mid);
      SameRendering(p, RewriteLockFile(o, b, mid));
      SameRendering(p, mid);
      IdsStored(p, mid);
      LocksStored(p, o, b, IdsOf(mid));
    }
  }

  lemma LocksAreWellFormed(o: Owners, sel: Selection, text: string)
    requires o.platform.Faithful() && LocksOk(o, sel, text)
    ensures WellFormed(Obj(FieldsOf(o.platform.parse(text)))) && Distinct(FieldsOf(o.platform.parse(text)))
  {
  }

  predicate IdDrifts(o: Owners, sel: Selection, ids: seq<Field>, id: string) {
    Has(ids, id) && LockDrifts(o, sel, ids[Index(ids, id)])
  }

  lemma {:induction false} NoLockChanges(o: Owners, sel: Selection, ids: seq<Field>, order: seq<string>)
    ensures LockChanges(o, sel, ids, order) == [] <==> forall k :: k in order ==> !IdDrifts(o, sel, ids, k)
  {
    if order != [] {
      NoLockChanges(o, sel, ids, order[1..]);
      assert forall k :: k in order <==> k == order[0] || k in order[1..];
      assert LockChanges(o, sel, ids, order) == [] <==>
        !IdDrifts(o, sel, ids, order[0]) && LockChanges(o, sel, ids, order[1..]) == [];
    }
  }

  lemma ParsedIsDistinct(p: Platform, text: string, k: nat)
    requires p.Faithful() && p.parse(text).Some? && p.parse(text).value.Obj? && k < |p.parse(text).value.fields|
    ensures var v := p.parse(text).value.fields[k].value; v.Obj? ==> Distinct(v.fields)
  {
    assert WellFormed(p.parse(text).value);
    assert WellFormed(p.parse(text).value.fields[k].value);
  }

  lemma NoLockChangesMeansNoDrift(o: Owners, sel: Selection, ids: seq<Field>)
    requires Distinct(ids) && KeysOf(ids) == o.ids
    ensures LockChanges(o, sel, ids, Sorted(o.ids)) == [] <==> !SomeLockDrifts(o, sel, ids)
  {
    var order := Sorted(o.ids);
    NoLockChanges(o, sel, ids, order);
    forall i | 0 <= i < |ids| ensures ids[i].key in order && Index(ids, ids[i].key) == i {
      assert ids[i].key in KeysOf(ids);
      IndexIsUnique(ids, i);
    }
    if SomeLockDrifts(o, sel, ids) {
      var i :| 0 <= i < |ids| && LockDrifts(o, sel, ids[i]);
      assert IdDrifts(o, sel, ids, ids[i].key);
    }
  }

  lemma LocksSettledIsSettled(o: Owners, sel: Selection, ids: seq<Field>)
    ensures !SomeLockDrifts(o, sel, RewriteLocks(o, sel, ids))
  {
    forall i | 0 <= i < |ids| ensures !LockDrifts(o, sel, RewriteLocks(o, sel, ids)[i]) {
      LockComposes(o, sel, sel, ids[i]);
    }
  }
}
