/** What a fixture means once it has been printed: the same, exactly when its numbers print as themselves. */
module Meanings {
  import opened Base
  import opened Json
  import opened ReferenceSelection
  import opened FieldTheorems
  import opened Printing

  lemma {:induction false} MeaningByField(a: seq<Field>, b: seq<Field>)
    requires SameKeys(a, b) && Distinct(a)
    ensures MeaningOfFields(a) == MeaningOfFields(b) <==>
            forall i :: 0 <= i < |a| ==> MeaningOf(a[i].value) == MeaningOf(b[i].value)
  {
    hide MeaningOf, MeaningOfFields;
    forall i | 0 <= i < |a|
      ensures a[i].key in MeaningOfFields(a) && MeaningOfFields(a)[a[i].key] == MeaningOf(a[i].value)
      ensures MeaningOfFields(b)[a[i].key] == MeaningOf(b[i].value)
    {
      MeaningAt(a, i);
      MeaningAt(b, i);
    }
    if forall i :: 0 <= i < |a| ==> MeaningOf(a[i].value) == MeaningOf(b[i].value) {
      assert MeaningOfFields(a).Keys == MeaningOfFields(b).Keys;
    }
  }

  lemma {:induction false} MeaningAt(fields: seq<Field>, i: nat)
    requires Distinct(fields) && i < |fields|
    ensures fields[i].key in MeaningOfFields(fields)
    ensures MeaningOfFields(fields)[fields[i].key] == MeaningOf(fields[i].value)
  {
    if i > 0 {
      assert fields[1..][i - 1] == fields[i];
      MeaningAt(fields[1..], i - 1);
    }
  }

  /** Printing keeps the meaning of a value exactly when every number in it prints as itself. */
  lemma {:induction false} MeaningOfStored(p: Platform, j: Json)
    requires p.Faithful() && WellFormed(j)
    ensures MeaningOf(p.Stored(j)) == MeaningOf(j) <==> p.Exact(j)
    decreases j
  {
    hide Platform.Faithful, IndexKeysFirst;
    match j
    case Float(l) => StoredNumber(p, l);
    case Arr(items) =>
      var after := p.Stored(j).items;
      forall i | 0 <= i < |items| ensures MeaningOf(after[i]) == MeaningOf(items[i]) <==> p.Exact(items[i]) {
        MeaningOfStored(p, items[i]);
      }
      var m, n := MeaningOf(j).items, MeaningOf(Arr(after)).items;
      assert |m| == |n| && forall i :: 0 <= i < |m| ==> m[i] == MeaningOf(items[i]) && n[i] == MeaningOf(after[i]);
    case Obj(fields) =>
      var after := p.StoredFields(fields);
      forall i | 0 <= i < |fields|
        ensures MeaningOf(after[i].value) == MeaningOf(fields[i].value) <==> p.Exact(fields[i].value)
      {
        MeaningOfStored(p, fields[i].value);
      }
      MeaningByField(fields, after);
    case _ =>
  }

  lemma PropertyMeans(fields: seq<Field>, key: string)
    requires Distinct(fields) && key in MeaningOfFields(fields)
    ensures exists i :: 0 <= i < |fields| && fields[i].key == key
                        && MeaningOfFields(fields)[key] == MeaningOf(fields[i].value)
  {
    hide MeaningOf;
    var i :| 0 <= i < |fields| && fields[i].key == key;
    MeaningAt(fields, i);
  }

  /** Whether all numbers print as themselves can be read off the meaning. */
  lemma {:induction false} ExactIsMeaning(p: Platform, j: Json, k: Json)
    requires WellFormed(j) && WellFormed(k) && MeaningOf(j) == MeaningOf(k) && p.Exact(j)
    ensures p.Exact(k)
    decreases k
  {
    hide IndexKeysFirst;
    match k
    case Arr(items) =>
      var m, n := MeaningOf(j).items, MeaningOf(k).items;
      forall i | 0 <= i < |items| ensures p.Exact(items[i]) {
        assert m[i] == MeaningOf(j.items[i]) && n[i] == MeaningOf(items[i]);
        ExactIsMeaning(p, j.items[i], items[i]);
      }
    case Obj(fields) =>
      forall i | 0 <= i < |fields| ensures p.Exact(fields[i].value) {
        MeaningAt(fields, i);
        PropertyMeans(j.fields, fields[i].key);
        var x :| 0 <= x < |j.fields| && j.fields[x].key == fields[i].key
                 && MeaningOfFields(j.fields)[fields[i].key] == MeaningOf(j.fields[x].value);
        ExactIsMeaning(p, j.fields[x].value, fields[i].value);
      }
    case _ =>
  }

  // ----- the semantic projection

  lemma {:induction false} WithoutIsPart(fields: seq<Field>, keys: set<string>)
    ensures forall f :: f in Without(fields, keys) ==> f in fields
  {
    if fields != [] {
      WithoutIsPart(fields[1..], keys);
      assert fields == [fields[0]] + fields[1..];
    }
  }

  /** One property may stand before another. */
  predicate Leads(f: Field, g: Field) {
    f.key != g.key && (IsIndexKey(g.key) ==> IsIndexKey(f.key) && IndexBefore(f.key, g.key))
  }

  lemma OrderCons(f: Field, rest: seq<Field>)
    requires Distinct(rest) && IndexKeysFirst(rest) && forall i :: 0 <= i < |rest| ==> Leads(f, rest[i])
    ensures Distinct([f] + rest) && IndexKeysFirst([f] + rest)
  {
    hide IsIndexKey, IndexBefore;
    var all := [f] + rest;
    forall i, j | 0 <= i < j < |all| ensures Leads(all[i], all[j]) {
      if i == 0 {
        assert all[j] == rest[j - 1];
      } else {
        assert all[i] == rest[i - 1] && all[j] == rest[j - 1];
      }
    }
  }

  lemma HeadLeads(fields: seq<Field>, g: Field)
    requires Distinct(fields) && IndexKeysFirst(fields) && fields != [] && g in fields[1..]
    ensures Leads(fields[0], g)
  {
    hide IsIndexKey, IndexBefore;
    var j :| 0 <= j < |fields[1..]| && fields[1..][j] == g;
    assert fields[j + 1] == g;
  }

  lemma {:induction false} WithoutKeepsOrder(fields: seq<Field>, keys: set<string>)
    requires Distinct(fields) && IndexKeysFirst(fields)
    ensures Distinct(Without(fields, keys)) && IndexKeysFirst(Without(fields, keys))
  {
    if fields != [] {
      var rest := Without(fields[1..], keys);
      assert Distinct(fields[1..]) && IndexKeysFirst(fields[1..]) by {
        TailKeepsOrder(fields);
      }
      hide Distinct, IndexKeysFirst, Leads;
      WithoutKeepsOrder(fields[1..], keys);
      WithoutIsPart(fields[1..], keys);
      forall i | 0 <= i < |rest| ensures Leads(fields[0], rest[i]) {
        HeadLeads(fields, rest[i]);
      }
      OrderCons(fields[0], rest);
      assert Without(fields, keys) == rest || Without(fields, keys) == [fields[0]] + rest;
    }
  }

  lemma TailKeepsOrder(fields: seq<Field>)
    requires Distinct(fields) && IndexKeysFirst(fields) && fields != []
    ensures Distinct(fields[1..]) && IndexKeysFirst(fields[1..])
  {
    hide IsIndexKey, IndexBefore;
    var tail := fields[1..];
    assert forall i :: 0 <= i < |tail| ==> tail[i] == fields[i + 1];
  }

  lemma WithoutKeepsWellFormed(fields: seq<Field>, keys: set<string>)
    requires WellFormed(Obj(fields))
    ensures WellFormed(Obj(Without(fields, keys)))
  {
    hide Without, IsIndexKey, IndexBefore;
    WithoutKeepsOrder(fields, keys);
    WithoutIsPart(fields, keys);
    var rest := Without(fields, keys);
    forall i | 0 <= i < |rest| ensures WellFormed(rest[i].value) {
      assert rest[i] in rest;
      var j :| 0 <= j < |fields| && fields[j] == rest[i];
    }
  }

  lemma StripsKeepWellFormed(v: Json)
    requires WellFormed(v)
    ensures WellFormed(StripIdentity(v)) && WellFormed(StripKey(v))
  {
    hide Without;
    if v.Obj? {
      WithoutKeepsWellFormed(v.fields, {"algorithm", "byteLength", "sha256"});
      WithoutKeepsWellFormed(v.fields, {"evidenceKey"});
    }
  }

  lemma MapKeepsWellFormed(j: Json, f: Json -> Json)
    requires WellFormed(j) && forall v :: WellFormed(v) ==> WellFormed(f(v))
    ensures WellFormed(MapValues(j, f))
  {
    hide IsIndexKey, IndexBefore;
    match j
    case Obj(fields) =>
      assert SameKeys(fields, MapValues(j, f).fields);
      assert forall i :: 0 <= i < |fields| ==> WellFormed(fields[i].value);
    case _ =>
  }

  lemma ProjectionIsWellFormed(fixture: Json)
    requires WellFormed(fixture) && Projection(fixture).Some?
    ensures WellFormed(Projection(fixture).value)
  {
    hide ProjectionThrows, MapValues, StripIdentity, StripKey, IsIndexKey, IndexBefore, IsAncestryKey, IsLocks;
    if fixture.Obj? {
      var fields := fixture.fields;
      forall i | 0 <= i < |fields| ensures WellFormed(ProjectField(IsLocks(fields), fields[i]).value) {
        forall v | WellFormed(v) ensures WellFormed(StripIdentity(v)) && WellFormed(StripKey(v)) {
          StripsKeepWellFormed(v);
        }
        MapKeepsWellFormed(fields[i].value, StripIdentity);
        MapKeepsWellFormed(fields[i].value, StripKey);
      }
      assert SameKeys(fields, ProjectFields(fields));
    }
  }

  lemma StripsStored(p: Platform, v: Json)
    requires p.Faithful()
    ensures StripIdentity(p.Stored(v)) == p.Stored(StripIdentity(v))
    ensures StripKey(p.Stored(v)) == p.Stored(StripKey(v))
  {
    hide Platform.Faithful, Platform.StoredFields, Without, Find, Index;
    StoredKeepsKind(p, v);
    if v.Obj? {
      WithoutStored(p, v.fields, {"algorithm", "byteLength", "sha256"});
      WithoutStored(p, v.fields, {"evidenceKey"});
      FindStored(p, v.fields, "algorithm");
      FindStored(p, v.fields, "sha256");
      PropertyStored(p, Find(v.fields, "algorithm"));
      PropertyStored(p, Find(v.fields, "sha256"));
    }
  }

  lemma MapStored(p: Platform, j: Json, f: Json -> Json)
    requires p.Faithful() && forall v :: f(p.Stored(v)) == p.Stored(f(v))
    ensures MapValues(p.Stored(j), f) == p.Stored(MapValues(j, f))
  {
    hide Platform.Faithful;
    StoredKeepsKind(p, j);
    match j
    case Obj(fields) =>
      assert MapValues(p.Stored(j), f).fields == p.Stored(MapValues(j, f)).fields;
    case Arr(items) =>
      assert MapValues(p.Stored(j), f).items == p.Stored(MapValues(j, f)).items;
    case _ =>
  }

  /** A schedules value that is not truthy has nothing to strip. */
  lemma MapOfFalsy(v: Json, f: Json -> Json)
    ensures !Truthy(v) ==> MapValues(v, f) == v
  {
  }

  lemma ProjectFieldStored(p: Platform, locks: bool, f: Field)
    requires p.Faithful()
    ensures ProjectField(locks, StoredField(p, f)) == StoredField(p, ProjectField(locks, f))
  {
    hide Platform.Faithful, Platform.Stored, MapValues, StripIdentity, StripKey, IsAncestryKey, Truthy;
    forall v
      ensures StripIdentity(p.Stored(v)) == p.Stored(StripIdentity(v))
      ensures StripKey(p.Stored(v)) == p.Stored(StripKey(v))
    {
      StripsStored(p, v);
    }
    MapStored(p, f.value, StripIdentity);
    MapStored(p, f.value, StripKey);
    MapOfFalsy(f.value, StripKey);
    MapOfFalsy(p.Stored(f.value), StripKey);
  }

  lemma ProjectFieldsStored(p: Platform, fields: seq<Field>)
    requires p.Faithful()
    ensures IsLocks(p.StoredFields(fields)) == IsLocks(fields)
    ensures ProjectFields(p.StoredFields(fields)) == p.StoredFields(ProjectFields(fields))
  {
    hide Platform.Faithful, Platform.Stored, ProjectField, Find;
    FindStored(p, fields, "schema");
    PropertyStored(p, Find(fields, "schema"));
    var after := p.StoredFields(fields);
    forall i | 0 <= i < |fields|
      ensures ProjectField(IsLocks(fields), after[i]) == p.StoredFields(ProjectFields(fields))[i]
    {
      assert after[i] == StoredField(p, fields[i]);
      ProjectFieldStored(p, IsLocks(fields), fields[i]);
    }
  }

  /** Printing can turn a number the projection would look into into null, but then that number is not exact. */
  lemma ThrowsStored(p: Platform, fields: seq<Field>)
    requires p.Faithful()
    ensures ProjectionThrows(fields) ==> ProjectionThrows(p.StoredFields(fields))
    ensures p.Exact(Obj(ProjectFields(fields))) && ProjectionThrows(p.StoredFields(fields)) ==> ProjectionThrows(fields)
  {
    hide Platform.Faithful, Platform.Stored, ProjectFields, SomeValueIsNull, IsLocks, Index;
    ProjectFieldsStored(p, fields);
    FindStored(p, fields, "identities");
    FindStored(p, fields, "schedules");
    if Find(fields, "identities").Some? {
      StoredKeepsKind(p, Find(fields, "identities").value);
      NullIdentities(p, fields);
    }
    if Find(fields, "schedules").Some? {
      NullSchedules(p, fields);
    }
  }

  lemma ExactAt(p: Platform, fields: seq<Field>, key: string)
    requires p.Exact(Obj(ProjectFields(fields))) && Has(fields, key)
    ensures p.Exact(ProjectField(IsLocks(fields), fields[Index(fields, key)]).value)
  {
    hide ProjectField, IsLocks, Index;
    assert ProjectFields(fields)[Index(fields, key)] == ProjectField(IsLocks(fields), fields[Index(fields, key)]);
  }

  lemma NullIdentities(p: Platform, fields: seq<Field>)
    requires p.Faithful() && Has(fields, "identities")
    ensures var v := Find(fields, "identities").value;
            p.Exact(Obj(ProjectFields(fields))) && IsLocks(fields) && p.Stored(v) == Null ==> v == Null
  {
    hide Platform.Faithful, IsLocks, StripIdentity, StripKey, Index, ProjectFields;
    var f := fields[Index(fields, "identities")];
    SchedulesIsFree(f);
    StoredKeepsKind(p, f.value);
    if p.Exact(Obj(ProjectFields(fields))) && f.value.Float? {
      ExactAt(p, fields, "identities");
    }
  }

  lemma NullSchedules(p: Platform, fields: seq<Field>)
    requires p.Faithful() && Has(fields, "schedules")
    ensures var v := Find(fields, "schedules").value;
            && (SomeValueIsNull(v) ==> SomeValueIsNull(p.Stored(v)))
            && (p.Exact(Obj(ProjectFields(fields))) && SomeValueIsNull(p.Stored(v)) ==> SomeValueIsNull(v))
  {
    hide Platform.Faithful, IsLocks, StripIdentity, Index, ProjectFields;
    var f := fields[Index(fields, "schedules")];
    var v := f.value;
    SchedulesIsFree(f);
    assert |"schedules"| != |"identities"|;
    if p.Exact(Obj(ProjectFields(fields))) {
      ExactAt(p, fields, "schedules");
    }
    NullsStored(p, v);
  }

  lemma NullsStored(p: Platform, v: Json)
    requires p.Faithful()
    ensures SomeValueIsNull(v) ==> SomeValueIsNull(p.Stored(v))
    ensures p.Exact(MapValues(v, StripKey)) && SomeValueIsNull(p.Stored(v)) ==> SomeValueIsNull(v)
  {
    hide Platform.Faithful, StripKey;
    match v
    case Obj(fields) =>
      var after, mapped := p.StoredFields(fields), MapValues(v, StripKey).fields;
      forall i | 0 <= i < |fields|
        ensures fields[i].value == Null ==> after[i].value == Null
        ensures p.Exact(mapped[i].value) && after[i].value == Null ==> fields[i].value == Null
      {
        NullStored(p, fields[i].value);
      }
    case Arr(items) =>
      var after, mapped := p.Stored(v).items, MapValues(v, StripKey).items;
      forall i | 0 <= i < |items|
        ensures items[i] == Null ==> after[i] == Null
        ensures p.Exact(mapped[i]) && after[i] == Null ==> items[i] == Null
      {
        NullStored(p, items[i]);
      }
    case _ => StoredKeepsKind(p, v);
  }

  lemma NullStored(p: Platform, v: Json)
    requires p.Faithful()
    ensures v == Null ==> p.Stored(v) == Null
    ensures p.Exact(StripKey(v)) && p.Stored(v) == Null ==> v == Null
  {
    hide Platform.Faithful, Without;
    StoredKeepsKind(p, v);
  }

  /** Every number that the semantic projection of a fixture keeps prints as itself. */
  predicate Durable(p: Platform, fixture: Json) {
    Projection(fixture).Some? ==> p.Exact(Projection(fixture).value)
  }

  predicate DurableText(p: Platform, text: string) {
    p.parse(text).Some? ==> Durable(p, p.parse(text).value)
  }

  function MeaningAfter(fixture: Json): Option<Meaning> {
    var projection :- Projection(fixture);
    Some(MeaningOf(projection))
  }

  /** A printed fixture means what it meant before exactly when it is durable. */
  lemma PrintedMeaning(p: Platform, fields: seq<Field>)
    requires p.Faithful() && WellFormed(Obj(fields))
    ensures MeaningAfter(Obj(p.StoredFields(fields))) == MeaningAfter(Obj(fields)) <==> Durable(p, Obj(fields))
  {
    hide Platform.Faithful, Platform.Stored, ProjectFields, ProjectionThrows, MeaningOf, WellFormed, Platform.Exact;
    ThrowsStored(p, fields);
    ProjectFieldsStored(p, fields);
    if !ProjectionThrows(fields) {
      ProjectionIsWellFormed(Obj(fields));
      MeaningOfStored(p, Obj(ProjectFields(fields)));
      StoredKeepsKind(p, Obj(ProjectFields(fields)));
    }
  }

  /** Two texts with one meaning are durable together. */
  lemma DurabilityIsMeaning(p: Platform, a: string, b: string)
    requires p.Faithful() && Semantics(p, a).Some? && Semantics(p, a) == Semantics(p, b)
    ensures DurableText(p, a) <==> DurableText(p, b)
  {
    hide Projection, MeaningOf, WellFormed, Platform.Exact;
    var x, y := Projection(p.parse(a).value).value, Projection(p.parse(b).value).value;
    ProjectionIsWellFormed(p.parse(a).value);
    ProjectionIsWellFormed(p.parse(b).value);
    if p.Exact(x) {
      ExactIsMeaning(p, x, y);
    }
    if p.Exact(y) {
      ExactIsMeaning(p, y, x);
    }
  }
}
