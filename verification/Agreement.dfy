/**
 * What the semantic guard compares, said by lookup: two fixtures have one meaning exactly if they agree
 * on every property but the identities of their ancestry, of their locks, and the keys of their schedules.
 */
module Agreement {
  import opened Base
  import opened Json
  import opened ReferenceSelection
  import opened Meanings
  import opened Preservation

  /** Deep equality: the same value, up to the order of properties. */
  ghost predicate Agree(a: Json, b: Json)
    decreases a
  {
    match (a, b)
    case (Arr(s), Arr(t)) => |s| == |t| && forall i :: 0 <= i < |s| ==> Agree(s[i], t[i])
    case (Obj(f), Obj(g)) =>
      forall k :: Has(f, k) == Has(g, k)
                  && (Has(f, k) && Has(g, k) ==> Agree(f[Index(f, k)].value, g[Index(g, k)].value))
    case _ => a == b
  }

  lemma {:induction false} MeaningLookup(fields: seq<Field>, k: string)
    ensures Has(fields, k) <==> k in MeaningOfFields(fields)
    ensures Has(fields, k) ==> MeaningOfFields(fields)[k] == MeaningOf(fields[Index(fields, k)].value)
  {
    hide MeaningOf;
    if fields != [] {
      MeaningLookup(fields[1..], k);
    }
  }

  /** Deep equality is equality of meanings. */
  lemma {:induction false} AgreeIsMeaning(a: Json, b: Json)
    ensures Agree(a, b) <==> MeaningOf(a) == MeaningOf(b)
    decreases a
  {
    match (a, b)
    case (Arr(s), Arr(t)) => ItemsAgree(s, t);
    case (Obj(f), Obj(g)) => FieldsAgree(f, g);
    case _ =>
  }

  lemma ItemsAgree(s: seq<Json>, t: seq<Json>)
    ensures Agree(Arr(s), Arr(t)) <==> MeaningOf(Arr(s)) == MeaningOf(Arr(t))
    decreases s
  {
    var m, n := MeaningOf(Arr(s)).items, MeaningOf(Arr(t)).items;
    if |s| == |t| {
      forall i | 0 <= i < |s|
        ensures m[i] == MeaningOf(s[i]) && n[i] == MeaningOf(t[i]) && (Agree(s[i], t[i]) <==> m[i] == n[i])
      {
        AgreeIsMeaning(s[i], t[i]);
      }
    }
  }

  lemma FieldsAgree(f: seq<Field>, g: seq<Field>)
    ensures Agree(Obj(f), Obj(g)) <==> MeaningOf(Obj(f)) == MeaningOf(Obj(g))
    decreases f
  {
    hide MeaningOfFields;
    var m, n := MeaningOfFields(f), MeaningOfFields(g);
    forall k
      ensures (Has(f, k) <==> k in m) && (Has(g, k) <==> k in n)
      ensures Has(f, k) && Has(g, k) ==> (Agree(f[Index(f, k)].value, g[Index(g, k)].value) <==> m[k] == n[k])
    {
      MeaningLookup(f, k);
      MeaningLookup(g, k);
      if Has(f, k) && Has(g, k) {
        AgreeIsMeaning(f[Index(f, k)].value, g[Index(g, k)].value);
      }
    }
    if Agree(Obj(f), Obj(g)) {
      assert forall k :: k in m <==> k in n;
      assert m == n;
    }
  }

  // ----- agreement up to ancestry

  ghost predicate SameOption(a: Option<Json>, b: Option<Json>) {
    a.Some? == b.Some? && (a.Some? && b.Some? ==> Agree(a.value, b.value))
  }

  /** The value holds an identity that the projection takes out. */
  predicate HoldsIdentity(v: Json) {
    && Property(v, "algorithm") == Some(Str("sha256"))
    && Property(v, "sha256").Some? && Property(v, "sha256").value.Str?
  }

  /** A property of a record, its identity aside. */
  function Beside(v: Json, k: string): Option<Json> {
    if HoldsIdentity(v) && (k == "algorithm" || k == "byteLength" || k == "sha256") then None else Property(v, k)
  }

  /** Two values agree apart from the identities they hold. */
  ghost predicate SameRecord(v: Json, w: Json) {
    if v.Obj? && w.Obj? then forall k :: SameOption(Beside(v, k), Beside(w, k)) else Agree(v, w)
  }

  /** Two schedules agree apart from the evidence key they carry. */
  ghost predicate SameSchedule(v: Json, w: Json) {
    if v.Obj? && w.Obj? then forall k :: k != "evidenceKey" ==> SameOption(Property(v, k), Property(w, k))
    else Agree(v, w)
  }

  /** Two objects or arrays hold related values at the same places. */
  ghost predicate SameEach(v: Json, w: Json, related: (Json, Json) -> bool) {
    match (v, w)
    case (Arr(s), Arr(t)) => |s| == |t| && forall i :: 0 <= i < |s| ==> related(s[i], t[i])
    case (Obj(f), Obj(g)) =>
      forall k :: Find(f, k).Some? == Find(g, k).Some?
                  && (Find(f, k).Some? && Find(g, k).Some? ==> related(Find(f, k).value, Find(g, k).value))
    case _ => Agree(v, w)
  }

  /** A field whose value may hold the identity of an ancestor. */
  predicate NamesAncestor(k: string) {
    || k == "composerEvidence" || k == "profileProjection" || k == "rootControlProjection"
    || (|k| >= 8 && k[|k| - 8..] == "Evidence")
  }

  predicate LocksSchema(fields: seq<Field>) {
    Find(fields, "schema") == Some(Str("cuda-mcgs.reference-integration-evidence-locks/0.1.0"))
  }

  /** How much of a property has to agree. */
  ghost predicate SameProperty(locks: bool, k: string, v: Json, w: Json) {
    if NamesAncestor(k) then SameRecord(v, w)
    else if locks && k == "identities" then SameEach(v, w, (a, b) => SameRecord(a, b))
    else if k == "schedules" then SameEach(v, w, (a, b) => SameSchedule(a, b))
    else Agree(v, w)
  }

  /** Two fixtures agree on everything but their ancestry. */
  ghost predicate SameFixture(a: Json, b: Json) {
    match (a, b)
    case (Obj(f), Obj(g)) =>
      forall k :: Find(f, k).Some? == Find(g, k).Some?
                  && (Find(f, k).Some? && Find(g, k).Some? ==>
                        SameProperty(LocksSchema(f), k, Find(f, k).value, Find(g, k).value))
    case _ => Agree(a, b)
  }

  ghost predicate HoldsNull(v: Json) {
    match v
    case Obj(fields) => exists k :: Find(fields, k) == Some(Null)
    case Arr(items) => Null in items
    case _ => false
  }

  /** Fixtures whose ancestry can be taken out: locks have identities, and no schedule is null. */
  ghost predicate IsComparable(fixture: Json) {
    match fixture
    case Null => false
    case Obj(fields) =>
      && (LocksSchema(fields) ==> Find(fields, "identities").Some? && Find(fields, "identities") != Some(Null))
      && (Find(fields, "schedules").Some? ==> !HoldsNull(Find(fields, "schedules").value))
    case _ => true
  }

  // ----- the projection computes it

  lemma AgreeByLookup(f: seq<Field>, g: seq<Field>)
    ensures Agree(Obj(f), Obj(g)) <==> forall k :: SameOption(Find(f, k), Find(g, k))
  {
    hide Index;
    if forall k :: SameOption(Find(f, k), Find(g, k)) {
      forall k
        ensures Has(f, k) == Has(g, k)
        ensures Has(f, k) && Has(g, k) ==> Agree(f[Index(f, k)].value, g[Index(g, k)].value)
      {
        assert SameOption(Find(f, k), Find(g, k));
      }
    }
  }

  lemma {:induction false} FindWithout(fields: seq<Field>, keys: set<string>, k: string)
    ensures Find(Without(fields, keys), k) == if k in keys then None else Find(fields, k)
  {
    hide Find;
    if fields == [] {
      NothingFound(k);
    } else {
      var rest := Without(fields[1..], keys);
      FindWithout(fields[1..], keys, k);
      FindHead(fields, k);
      FindHead([fields[0]] + rest, k);
      assert ([fields[0]] + rest)[1..] == rest && [] + rest == rest;
    }
  }

  lemma NothingFound(k: string)
    ensures Find([], k) == None
  {
  }

  lemma FindHead(fields: seq<Field>, k: string)
    requires fields != []
    ensures Find(fields, k) == if fields[0].key == k then Some(fields[0].value) else Find(fields[1..], k)
  {
  }

  /** Taking the identity out leaves what stands beside it. */
  lemma StrippedLookup(v: Json, k: string)
    ensures StripIdentity(v).Obj? == v.Obj?
    ensures Property(StripIdentity(v), k) == Beside(v, k)
  {
    hide Without, Index;
    if v.Obj? {
      FindWithout(v.fields, {"algorithm", "byteLength", "sha256"}, k);
    }
  }

  lemma StripIdentityAgrees(v: Json, w: Json)
    ensures Agree(StripIdentity(v), StripIdentity(w)) <==> SameRecord(v, w)
  {
    hide Without, Index, StripIdentity, Beside, Agree;
    StripIdentityOther(v);
    StripIdentityOther(w);
    forall k ensures Property(StripIdentity(v), k) == Beside(v, k) && Property(StripIdentity(w), k) == Beside(w, k) {
      StrippedLookup(v, k);
      StrippedLookup(w, k);
    }
    if v.Obj? && w.Obj? {
      AgreeByLookup(StripIdentity(v).fields, StripIdentity(w).fields);
      assert StripIdentity(v) == Obj(StripIdentity(v).fields) && StripIdentity(w) == Obj(StripIdentity(w).fields);
      assert forall k :: Find(StripIdentity(v).fields, k) == Property(StripIdentity(v), k);
      assert forall k :: Find(StripIdentity(w).fields, k) == Property(StripIdentity(w), k);
    } else {
      KindsDisagree(StripIdentity(v), StripIdentity(w));
      KindsDisagree(v, w);
    }
  }

  lemma StripIdentityOther(v: Json)
    ensures StripIdentity(v).Obj? == v.Obj? && (!v.Obj? ==> StripIdentity(v) == v)
  {
  }

  lemma KindsDisagree(a: Json, b: Json)
    ensures a.Obj? != b.Obj? ==> !Agree(a, b)
  {
  }

  lemma StripKeyAgrees(v: Json, w: Json)
    ensures Agree(StripKey(v), StripKey(w)) <==> SameSchedule(v, w)
  {
    hide Without, Index, Agree;
    if v.Obj? && w.Obj? {
      forall k
        ensures Find(StripKey(v).fields, k) == if k == "evidenceKey" then None else Property(v, k)
        ensures Find(StripKey(w).fields, k) == if k == "evidenceKey" then None else Property(w, k)
      {
        FindWithout(v.fields, {"evidenceKey"}, k);
        FindWithout(w.fields, {"evidenceKey"}, k);
      }
      AgreeByLookup(StripKey(v).fields, StripKey(w).fields);
    } else {
      KindsDisagree(StripKey(v), StripKey(w));
      KindsDisagree(v, w);
    }
  }

  lemma FindMapped(fields: seq<Field>, f: Json -> Json, k: string)
    ensures var mapped := MapValues(Obj(fields), f).fields;
            Find(mapped, k) == match Find(fields, k) case Some(v) => Some(f(v)) case None => None
  {
    SameKeysSameIndex(fields, MapValues(Obj(fields), f).fields, k);
  }

  /** Values mapped one by one agree exactly when each pair does. */
  lemma MapAgrees(v: Json, w: Json, f: Json -> Json, related: (Json, Json) -> bool)
    requires forall a, b :: Agree(f(a), f(b)) <==> related(a, b)
    ensures Agree(MapValues(v, f), MapValues(w, f)) <==> SameEach(v, w, related)
  {
    match (v, w)
    case (Arr(s), Arr(t)) =>
      var x, y := MapValues(v, f).items, MapValues(w, f).items;
      assert |x| == |s| && |y| == |t| && (forall i :: 0 <= i < |s| ==> x[i] == f(s[i]))
          && forall i :: 0 <= i < |t| ==> y[i] == f(t[i]);
    case (Obj(a), Obj(b)) => MapFieldsAgree(a, b, f, related);
    case _ =>
      KindsDisagree(MapValues(v, f), MapValues(w, f));
  }

  lemma MapFieldsAgree(a: seq<Field>, b: seq<Field>, f: Json -> Json, related: (Json, Json) -> bool)
    requires forall v, w :: Agree(f(v), f(w)) <==> related(v, w)
    ensures Agree(MapValues(Obj(a), f), MapValues(Obj(b), f)) <==> SameEach(Obj(a), Obj(b), related)
  {
    hide Agree, Find;
    var x, y := MapValues(Obj(a), f).fields, MapValues(Obj(b), f).fields;
    AgreeByLookup(x, y);
    forall k
      ensures SameOption(Find(x, k), Find(y, k)) <==>
              (Find(a, k).Some? == Find(b, k).Some?
               && (Find(a, k).Some? && Find(b, k).Some? ==> related(Find(a, k).value, Find(b, k).value)))
    {
      FindMapped(a, f, k);
      FindMapped(b, f, k);
    }
    hide MapValues;
    MappedIsObject(a, f);
    MappedIsObject(b, f);
    assert MapValues(Obj(a), f) == Obj(x) && MapValues(Obj(b), f) == Obj(y);
  }

  lemma MappedIsObject(a: seq<Field>, f: Json -> Json)
    ensures MapValues(Obj(a), f).Obj?
  {
  }

  lemma AncestorsAreAncestry(k: string)
    ensures NamesAncestor(k) <==> IsAncestryKey(k)
  {
  }

  lemma ProjectedPropertyAgrees(locks: bool, k: string, v: Json, w: Json)
    ensures Agree(ProjectField(locks, Field(k, v)).value, ProjectField(locks, Field(k, w)).value) <==>
            SameProperty(locks, k, v, w)
  {
    hide StripIdentity, StripKey, Agree, MapValues, SameRecord, SameSchedule, SameEach, IsAncestryKey, NamesAncestor;
    AncestorsAreAncestry(k);
    forall a, b ensures Agree(StripIdentity(a), StripIdentity(b)) <==> SameRecord(a, b) {
      StripIdentityAgrees(a, b);
    }
    forall a, b ensures Agree(StripKey(a), StripKey(b)) <==> SameSchedule(a, b) {
      StripKeyAgrees(a, b);
    }
    MapAgrees(v, w, StripIdentity, (a, b) => SameRecord(a, b));
    MapAgrees(v, w, StripKey, (a, b) => SameSchedule(a, b));
    MapOfFalsy(v, StripKey);
    MapOfFalsy(w, StripKey);
  }

  lemma ProjectedLookup(fields: seq<Field>, k: string)
    ensures Find(ProjectFields(fields), k) ==
            match Find(fields, k)
            case Some(v) => Some(ProjectField(IsLocks(fields), Field(k, v)).value)
            case None => None
  {
    hide ProjectField, IsLocks;
    ProjectKeepsKeys(fields);
    SameKeysSameIndex(fields, ProjectFields(fields), k);
    ProjectKeepsKey(IsLocks(fields), fields);
  }

  lemma ProjectKeepsKey(locks: bool, fields: seq<Field>)
    ensures forall i :: 0 <= i < |fields| ==> fields[i] == Field(fields[i].key, fields[i].value)
  {
  }

  /** Unless both are lock files or neither is, two fixtures agree in neither sense. */
  lemma SchemaDecides(f: seq<Field>, g: seq<Field>)
    requires IsLocks(f) != IsLocks(g)
    ensures !SameOption(Find(ProjectFields(f), "schema"), Find(ProjectFields(g), "schema"))
    ensures !SameFixture(Obj(f), Obj(g))
  {
    hide MapValues, StripIdentity, StripKey, Index;
    ProjectedLookup(f, "schema");
    ProjectedLookup(g, "schema");
    assert |"schema"| == 6 && |"identities"| == 10 && |"schedules"| == 9 && |"composerEvidence"| == 16;
    assert |"profileProjection"| == 17 && |"rootControlProjection"| == 21 && |"Evidence"| == 8;
    SchemaIsCompared(f, g);
  }

  lemma SchemaIsCompared(f: seq<Field>, g: seq<Field>)
    ensures SameFixture(Obj(f), Obj(g)) ==> SameOption(Find(f, "schema"), Find(g, "schema"))
  {
    hide SameRecord, SameSchedule, SameEach, Agree, Index, Find;
    assert |"schema"| == 6 && |"identities"| == 10 && |"schedules"| == 9 && |"composerEvidence"| == 16;
    assert |"profileProjection"| == 17 && |"rootControlProjection"| == 21;
    if SameFixture(Obj(f), Obj(g)) && Find(f, "schema").Some? {
      assert SameProperty(LocksSchema(f), "schema", Find(f, "schema").value, Find(g, "schema").value);
    }
  }

  lemma ProjectedFieldsAgree(f: seq<Field>, g: seq<Field>)
    ensures Agree(Obj(ProjectFields(f)), Obj(ProjectFields(g))) <==> SameFixture(Obj(f), Obj(g))
  {
    hide ProjectField, ProjectFields, Find, IsLocks, SameProperty, Agree;
    AgreeByLookup(ProjectFields(f), ProjectFields(g));
    LocksAreLocks(f);
    LocksAreLocks(g);
    if IsLocks(f) != IsLocks(g) {
      SchemaDecides(f, g);
    } else {
      forall k
        ensures SameOption(Find(ProjectFields(f), k), Find(ProjectFields(g), k)) <==>
                (Find(f, k).Some? == Find(g, k).Some?
                 && (Find(f, k).Some? && Find(g, k).Some? ==>
                       SameProperty(LocksSchema(f), k, Find(f, k).value, Find(g, k).value)))
      {
        ProjectedLookup(f, k);
        ProjectedLookup(g, k);
        if Find(f, k).Some? && Find(g, k).Some? {
          ProjectedPropertyAgrees(IsLocks(f), k, Find(f, k).value, Find(g, k).value);
        }
      }
    }
  }

  lemma LocksAreLocks(fields: seq<Field>)
    ensures IsLocks(fields) == LocksSchema(fields)
  {
  }

  lemma NullIsFound(v: Json)
    requires WellFormed(v)
    ensures SomeValueIsNull(v) <==> HoldsNull(v)
  {
    match v
    case Obj(fields) =>
      if SomeValueIsNull(v) {
        var i :| 0 <= i < |fields| && fields[i].value == Null;
        IndexIsUnique(fields, i);
        assert Find(fields, fields[i].key) == Some(Null);
      }
    case _ =>
  }

  lemma ComparableIsProjected(fixture: Json)
    requires WellFormed(fixture)
    ensures Projection(fixture).Some? <==> IsComparable(fixture)
  {
    hide HoldsNull, SomeValueIsNull, IndexKeysFirst;
    if fixture.Obj? && Find(fixture.fields, "schedules").Some? {
      NullIsFound(Find(fixture.fields, "schedules").value);
    }
  }

  /**
   * The semantic guard accepts two texts exactly if both are comparable fixtures that agree, property for
   * property and up to order, on everything but the identities of their ancestry.
   */
  lemma SemanticsAreAgreement(p: Platform, s: string, t: string)
    requires p.Faithful()
    ensures Semantics(p, s).Some? <==> p.parse(s).Some? && IsComparable(p.parse(s).value)
    ensures SameSemantics(p, s, t) <==>
              && p.parse(s).Some? && IsComparable(p.parse(s).value)
              && p.parse(t).Some? && IsComparable(p.parse(t).value)
              && SameFixture(p.parse(s).value, p.parse(t).value)
  {
    hide Platform.Faithful, Projection, MeaningOf, SameFixture, IsComparable, WellFormed;
    ParsedIsWellFormed(p, s);
    ParsedIsWellFormed(p, t);
    if p.parse(s).Some? {
      ComparableIsProjected(p.parse(s).value);
    }
    if p.parse(t).Some? {
      ComparableIsProjected(p.parse(t).value);
    }
    if Semantics(p, s).Some? && Semantics(p, t).Some? {
      ProjectionsAgree(p.parse(s).value, p.parse(t).value);
    }
  }

  lemma ProjectionsAgree(a: Json, b: Json)
    requires WellFormed(a) && WellFormed(b) && Projection(a).Some? && Projection(b).Some?
    ensures MeaningOf(Projection(a).value) == MeaningOf(Projection(b).value) <==> SameFixture(a, b)
  {
    hide MeaningOf, WellFormed, ProjectionThrows, ProjectFields, Agree;
    AgreeIsMeaning(Projection(a).value, Projection(b).value);
    if a.Obj? && b.Obj? {
      ProjectedFieldsAgree(a.fields, b.fields);
    } else {
      KindsDisagree(Projection(a).value, Projection(b).value);
      KindsDisagree(a, b);
    }
  }
}
