/**
 * The evidence-lock tool as it runs: one object holds the caches, the reported changes and the
 * sources met so far, and fixtures are rewritten in place field by field.
 */
module LockRun {
  import opened Base
  import opened Json
  import opened Listing
  import opened ReferenceSelection
  import opened EvidenceFields
  import opened FieldTheorems
  import opened EvidenceLocks
  import opened StepTheorems
  import opened LockFileTheorems

  function OwnedKeys(fields: seq<Field>): set<string> {
    set i | 0 <= i < |fields| && SourceOf(fields[i]).Owned? :: SourceOf(fields[i]).source.Key()
  }

  /** A fixture whose first i fields have been handled: schedules follow the composer field. */
  ghost function Partly(o: Owners, sel: Selection, fields: seq<Field>, i: nat): seq<Field> {
    seq(|fields|, j requires 0 <= j < |fields| =>
      if fields[j].key == "schedules" then
        if Index(fields, "composerEvidence") < i
        then RewriteField(o, sel, NewScheduleKey(o, sel, fields), fields[j]) else fields[j]
      else if j < i then RewriteField(o, sel, None, fields[j]) else fields[j])
  }

  lemma PartlyEnds(o: Owners, sel: Selection, fields: seq<Field>)
    ensures Partly(o, sel, fields, 0) == fields
    ensures Partly(o, sel, fields, |fields|) == Rewrite(o, sel, fields)
  {
    var key := NewScheduleKey(o, sel, fields);
    forall j | 0 <= j < |fields| ensures Partly(o, sel, fields, |fields|)[j] == RewriteField(o, sel, key, fields[j]) {
      if fields[j].key == "schedules" {
        SchedulesIsFree(fields[j]);
      }
    }
  }

  lemma PartlySkips(o: Owners, sel: Selection, fields: seq<Field>, i: nat)
    requires Distinct(fields) && i < |fields| && !Drifts(o, sel, fields[i])
    ensures Partly(o, sel, fields, i + 1) == Partly(o, sel, fields, i)
  {
    hide Drifts, WithIdentity, SetSchedules, Index, Distinct;
    IndexIsUnique(fields, i);
    assert fields[i].key == "composerEvidence" ==> NewScheduleKey(o, sel, fields) == None;
    forall j | 0 <= j < |fields| ensures Partly(o, sel, fields, i + 1)[j] == Partly(o, sel, fields, i)[j] {
      SchedulesNeverDrift(o, sel, fields[j]);
    }
  }

  lemma ComposerSetsKey(o: Owners, sel: Selection, fields: seq<Field>, i: nat)
    requires Distinct(fields) && i < |fields| && Drifts(o, sel, fields[i]) && fields[i].key == "composerEvidence"
    ensures Index(fields, "composerEvidence") == i
    ensures NewScheduleKey(o, sel, fields) == Some(o.load(SourceOf(fields[i]).source).value.sha256)
  {
    hide SourceOf, AsIdentity, Index, Distinct;
    IndexIsUnique(fields, i);
  }

  lemma PartlyElsewhere(o: Owners, sel: Selection, fields: seq<Field>, i: nat, j: nat)
    requires Distinct(fields) && i < |fields| && j < |fields| && j != i
    requires fields[j].key == "schedules" ==> fields[i].key != "composerEvidence"
    ensures Partly(o, sel, fields, i + 1)[j] == Partly(o, sel, fields, i)[j]
  {
    hide RewriteField;
    IndexIsUnique(fields, i);
  }

  lemma PartlySchedules(o: Owners, sel: Selection, fields: seq<Field>, i: nat, s: nat)
    requires Distinct(fields) && i < |fields| && s < |fields| && fields[s].key == "schedules"
    requires Drifts(o, sel, fields[i]) && fields[i].key == "composerEvidence"
    ensures Partly(o, sel, fields, i + 1)[s] ==
            Field("schedules", SetSchedules(fields[s].value, o.load(SourceOf(fields[i]).source).value.sha256))
  {
    hide Drifts, SetSchedules, WithIdentity, SourceOf;
    ComposerSetsKey(o, sel, fields, i);
    SchedulesNeverDrift(o, sel, fields[s]);
  }

  lemma PartlyHere(o: Owners, sel: Selection, fields: seq<Field>, i: nat)
    requires i < |fields| && Drifts(o, sel, fields[i])
    ensures |Partly(o, sel, fields, i)| == |Partly(o, sel, fields, i + 1)| == |fields|
    ensures fields[i].key != "schedules"
    ensures Partly(o, sel, fields, i + 1)[i] ==
            Field(fields[i].key, WithIdentity(fields[i].value, o.load(SourceOf(fields[i]).source).value))
  {
    hide WithIdentity, SourceOf, NewScheduleKey;
    SchedulesNeverDrift(o, sel, fields[i]);
  }

  /** What one drifting field assigns: itself, and the schedules if it is the composer field. */
  predicate AlsoAssigned(fields: seq<Field>, i: nat, j: nat)
    requires i < |fields|
  {
    fields[i].key == "composerEvidence" && j == Index(fields, "schedules") && j < |fields|
  }

  lemma AlsoAssignedMeans(fields: seq<Field>, i: nat)
    requires i < |fields|
    ensures var s := Index(fields, "schedules");
            && (AlsoAssigned(fields, i, s) ==>
                  s < |fields| && s != i && fields[s].key == "schedules" && fields[i].key == "composerEvidence")
            && forall j :: AlsoAssigned(fields, i, j) ==> AlsoAssigned(fields, i, s) && j == s
  {
    hide Index;
  }

  lemma PartlyRest(o: Owners, sel: Selection, fields: seq<Field>, i: nat)
    requires Distinct(fields) && i < |fields|
    ensures |Partly(o, sel, fields, i + 1)| == |Partly(o, sel, fields, i)| == |fields|
    ensures forall j :: 0 <= j < |fields| && j != i && !AlsoAssigned(fields, i, j) ==>
              Partly(o, sel, fields, i + 1)[j] == Partly(o, sel, fields, i)[j]
  {
    hide RewriteField, NewScheduleKey, Index;
    forall j | 0 <= j < |fields| && j != i && !AlsoAssigned(fields, i, j)
      ensures Partly(o, sel, fields, i + 1)[j] == Partly(o, sel, fields, i)[j]
    {
      IndexIsUnique(fields, j);
      PartlyElsewhere(o, sel, fields, i, j);
    }
  }

  /** Handling a drifting field assigns it, and a drifting composer field also assigns the schedules. */
  lemma PartlyAssigns(o: Owners, sel: Selection, fields: seq<Field>, i: nat)
    requires Distinct(fields) && i < |fields| && Drifts(o, sel, fields[i])
    ensures var e := o.load(SourceOf(fields[i]).source).value;
            var s := Index(fields, "schedules");
            var updated := Partly(o, sel, fields, i)[i := Field(fields[i].key, WithIdentity(fields[i].value, e))];
            Partly(o, sel, fields, i + 1) ==
            if AlsoAssigned(fields, i, s)
            then updated[s := Field("schedules", SetSchedules(fields[s].value, e.sha256))] else updated
  {
    hide SourceOf, Index, Partly, WithIdentity, SetSchedules, Distinct, AlsoAssigned, AsIdentity;
    var e := o.load(SourceOf(fields[i]).source).value;
    hide *;
    var s := Index(fields, "schedules");
    var both := AlsoAssigned(fields, i, s);
    AlsoAssignedMeans(fields, i);
    PartlyHere(o, sel, fields, i);
    PartlyRest(o, sel, fields, i);
    if both {
      PartlySchedules(o, sel, fields, i, s);
    }
    var next, now := Partly(o, sel, fields, i + 1), Partly(o, sel, fields, i);
    UpdateTwice(next, now, i, both, s);
  }

  lemma UpdateTwice(next: seq<Field>, now: seq<Field>, i: nat, both: bool, s: nat)
    requires |next| == |now| && i < |now| && (both ==> s < |now| && s != i)
    requires forall j :: 0 <= j < |now| && j != i && !(both && j == s) ==> next[j] == now[j]
    ensures next == if both then now[i := next[i]][s := next[s]] else now[i := next[i]]
  {
  }

  lemma SchedulesNeverDrift(o: Owners, sel: Selection, f: Field)
    ensures f.key == "schedules" ==> !Drifts(o, sel, f)
  {
    if f.key == "schedules" {
      SchedulesIsFree(f);
    }
  }

  /** Assigning a drifting composer field also assigns every schedule, which may throw. */
  predicate Assigns(o: Owners, sel: Selection, fields: seq<Field>, i: nat)
    requires i < |fields|
  {
    Drifts(o, sel, fields[i]) && fields[i].key == "composerEvidence" && Has(fields, "schedules")
    ==> SchedulesAssignable(Find(fields, "schedules").value)
  }

  lemma {:induction false} FieldChangesConcat(o: Owners, sel: Selection, name: string, a: seq<Field>, b: seq<Field>)
    ensures FieldChanges(o, sel, name, a + b) == FieldChanges(o, sel, name, a) + FieldChanges(o, sel, name, b)
  {
    hide Drifts;
    if a == [] {
      assert a + b == b;
    } else {
      assert (a + b)[1..] == a[1..] + b;
      FieldChangesConcat(o, sel, name, a[1..], b);
    }
  }

  lemma OwnedKeysConcat(a: seq<Field>, b: seq<Field>)
    ensures OwnedKeys(a + b) == OwnedKeys(a) + OwnedKeys(b)
  {
    hide SourceOf;
    forall k | k in OwnedKeys(a) + OwnedKeys(b) ensures k in OwnedKeys(a + b) {
      if k in OwnedKeys(a) {
        var i :| 0 <= i < |a| && SourceOf(a[i]).Owned? && k == SourceOf(a[i]).source.Key();
        assert (a + b)[i] == a[i];
      } else {
        var i :| 0 <= i < |b| && SourceOf(b[i]).Owned? && k == SourceOf(b[i]).source.Key();
        assert (a + b)[|a| + i] == b[i];
      }
    }
    forall k | k in OwnedKeys(a + b) ensures k in OwnedKeys(a) + OwnedKeys(b) {
      var i :| 0 <= i < |a + b| && SourceOf((a + b)[i]).Owned? && k == SourceOf((a + b)[i]).source.Key();
      if i < |a| {
        assert (a + b)[i] == a[i];
      } else {
        assert (a + b)[i] == b[i - |a|];
      }
    }
  }

  lemma UnassignableIsUnsound(o: Owners, sel: Selection, fields: seq<Field>, i: nat)
    requires Distinct(fields) && i < |fields|
    ensures !FieldSound(o, sel, fields[i]) ==> !FieldsSound(o, sel, fields)
    ensures !Assigns(o, sel, fields, i) ==> !RewriteSound(o, sel, fields)
  {
    hide FieldSound;
    IndexIsUnique(fields, i);
    if !Assigns(o, sel, fields, i) {
      ComposerSetsKey(o, sel, fields, i);
    }
  }

  lemma AssignableIsSound(o: Owners, sel: Selection, fields: seq<Field>)
    requires FieldsSound(o, sel, fields)
    ensures (forall i :: 0 <= i < |fields| ==> Assigns(o, sel, fields, i)) ==> RewriteSound(o, sel, fields)
  {
    hide FieldSound, SchedulesAssignable;
    if NewScheduleKey(o, sel, fields).Some? && Has(fields, "schedules") {
      assert Assigns(o, sel, fields, Index(fields, "composerEvidence")) ==>
        SchedulesAssignable(Find(fields, "schedules").value);
    }
  }

  lemma OneLockChange(o: Owners, sel: Selection, ids: seq<Field>, id: string)
    requires Has(ids, id)
    ensures LockChanges(o, sel, ids, [id]) ==
            if LockDrifts(o, sel, ids[Index(ids, id)]) then [Change(LOCKS_FILE, id, id)] else []
  {
    hide LockDrifts;
    assert [id][1..] == [];
  }

  /** Locks handled so far: the entries of the first ids in order are rewritten. */
  ghost function LocksPartly(o: Owners, sel: Selection, ids: seq<Field>, done: seq<string>): seq<Field> {
    seq(|ids|, j requires 0 <= j < |ids| => if ids[j].key in done then RewriteLock(o, sel, ids[j]) else ids[j])
  }

  lemma LocksPartlyStep(o: Owners, sel: Selection, ids: seq<Field>, done: seq<string>, id: string)
    requires Distinct(ids) && id !in done && Has(ids, id)
    ensures LocksPartly(o, sel, ids, done + [id]) ==
            LocksPartly(o, sel, ids, done)[Index(ids, id) := RewriteLock(o, sel, ids[Index(ids, id)])]
    ensures SameKeys(ids, LocksPartly(o, sel, ids, done))
    ensures LocksPartly(o, sel, ids, done)[Index(ids, id)] == ids[Index(ids, id)]
  {
    hide LockDrifts, IdentityRecord;
    forall j | 0 <= j < |ids| && ids[j].key == id ensures j == Index(ids, id) {
      IndexIsUnique(ids, j);
    }
  }

  lemma LocksPartlyEnds(o: Owners, sel: Selection, ids: seq<Field>, order: seq<string>)
    requires forall k :: k in order <==> k in KeysOf(ids)
    ensures LocksPartly(o, sel, ids, []) == ids && LocksPartly(o, sel, ids, order) == RewriteLocks(o, sel, ids)
  {
    hide RewriteLock;
    forall j | 0 <= j < |ids| ensures ids[j].key in order {
      assert ids[j].key in KeysOf(ids);
    }
  }

  lemma {:induction false} LockChangesConcat(o: Owners, sel: Selection, ids: seq<Field>, a: seq<string>, b: seq<string>)
    ensures LockChanges(o, sel, ids, a + b) == LockChanges(o, sel, ids, a) + LockChanges(o, sel, ids, b)
  {
    hide LockDrifts;
    if a == [] {
      assert a + b == b;
    } else {
      assert (a + b)[1..] == a[1..] + b;
      LockChangesConcat(o, sel, ids, a[1..], b);
    }
  }

  predicate IdSound(o: Owners, sel: Selection, ids: seq<Field>, id: string) {
    Has(ids, id) && LockSound(o, sel, ids[Index(ids, id)])
  }

  lemma AllLocksHandled(o: Owners, sel: Selection, ids: seq<Field>, order: seq<string>)
    requires Distinct(ids) && forall k :: k in order <==> k in KeysOf(ids)
    ensures (forall j :: 0 <= j < |order| ==> IdSound(o, sel, ids, order[j])) <==>
            (forall i :: 0 <= i < |ids| ==> LockSound(o, sel, ids[i]))
  {
    hide LockSound;
    forall i | 0 <= i < |ids| ensures ids[i].key in order && Index(ids, ids[i].key) == i {
      assert ids[i].key in KeysOf(ids);
      IndexIsUnique(ids, i);
    }
    forall k | k in order ensures Has(ids, k) {
      LockIsPresent(ids, k);
    }
    if forall j :: 0 <= j < |order| ==> IdSound(o, sel, ids, order[j]) {
      forall i | 0 <= i < |ids| ensures LockSound(o, sel, ids[i]) {
        var j :| 0 <= j < |order| && order[j] == ids[i].key;
        assert IdSound(o, sel, ids, order[j]);
      }
    }
  }

  /** The mutable values of a loop over the locks. */
  datatype Progress = Progress(ids: seq<Field>, changes: seq<Change>, seen: set<string>)

  ghost predicate SortedKeys(ids: seq<Field>, order: seq<string>) {
    Distinct(ids) && (forall k :: k in order <==> k in KeysOf(ids)) && NoRepeats(order)
  }

  /** After i locks: all of them sound, rewritten in write mode, reported and met. */
  ghost predicate IdsHandled(o: Owners, mode: Mode, sel: Selection, order: seq<string>, i: nat, before: Progress,
                             now: Progress)
  {
    && i <= |order| && SortedKeys(before.ids, order)
    && (forall j :: 0 <= j < i ==> IdSound(o, sel, before.ids, order[j]))
    && now.ids == (if mode.Write? then LocksPartly(o, sel, before.ids, order[..i]) else before.ids)
    && now.changes == before.changes + LockChanges(o, sel, before.ids, order[..i])
    && now.seen == before.seen + Elements(order[..i])
  }

  lemma SortedKeysMeans(ids: seq<Field>, order: seq<string>, i: nat)
    requires SortedKeys(ids, order) && i < |order|
    ensures Distinct(ids) && order[i] !in order[..i]
  {
  }

  lemma ElementsAppend(a: seq<string>, x: string)
    ensures Elements(a + [x]) == Elements(a) + {x}
  {
  }

  lemma IdsStart(o: Owners, mode: Mode, sel: Selection, order: seq<string>, before: Progress)
    requires Distinct(before.ids) && order == Sorted(KeysOf(before.ids)) && Ascending(order)
    ensures IdsHandled(o, mode, sel, order, 0, before, before)
  {
    AscendingHasNoDuplicates(order);
    LocksPartlyEnds(o, sel, before.ids, order);
  }

  lemma IdsPending(o: Owners, mode: Mode, sel: Selection, order: seq<string>, i: nat, before: Progress, now: Progress)
    requires i < |order| && IdsHandled(o, mode, sel, order, i, before, now)
    ensures Has(before.ids, order[i]) && SameKeys(before.ids, now.ids)
    ensures Index(before.ids, order[i]) < |now.ids|
    ensures now.ids[Index(before.ids, order[i])] == before.ids[Index(before.ids, order[i])]
  {
    hide LockChanges, LocksPartly, LockSound, RewriteLock;
    assert order[i] in order;
    LockIsPresent(before.ids, order[i]);
    LocksPartlyStep(o, sel, before.ids, order[..i], order[i]);
  }

  lemma IdsStep(o: Owners, mode: Mode, sel: Selection, order: seq<string>, i: nat, before: Progress, now: Progress,
                next: Progress)
    requires i < |order| && IdsHandled(o, mode, sel, order, i, before, now)
    requires Has(before.ids, order[i]) && LockSound(o, sel, before.ids[Index(before.ids, order[i])])
    requires Index(before.ids, order[i]) < |now.ids|
    requires next.ids == if mode.Write?
      then now.ids[Index(before.ids, order[i]) := RewriteLock(o, sel, before.ids[Index(before.ids, order[i])])]
      else now.ids
    requires next.changes == now.changes + LockChanges(o, sel, before.ids, [order[i]])
    requires next.seen == now.seen + {order[i]}
    ensures IdsHandled(o, mode, sel, order, i + 1, before, next)
  {
    hide LockChanges, LocksPartly, LockSound, RewriteLock, SortedKeys, Elements, Distinct, Has, Index, IdSound;
    var done, id := order[..i], order[i];
    assert order[..i + 1] == done + [id];
    SortedKeysMeans(before.ids, order, i);
    ElementsAppend(done, id);
    LockChangesConcat(o, sel, before.ids, done, [id]);
    LocksPartlyStep(o, sel, before.ids, done, id);
    IdIsSound(o, sel, before.ids, id);
  }

  lemma IdIsSound(o: Owners, sel: Selection, ids: seq<Field>, id: string)
    requires Has(ids, id)
    ensures IdSound(o, sel, ids, id) <==> LockSound(o, sel, ids[Index(ids, id)])
  {
    hide LockSound, Index;
  }

  lemma IdsFail(o: Owners, sel: Selection, ids: seq<Field>, order: seq<string>, i: nat)
    requires i < |order| && Has(ids, order[i]) && !LockSound(o, sel, ids[Index(ids, order[i])])
    ensures !(forall j :: 0 <= j < |ids| ==> LockSound(o, sel, ids[j]))
  {
  }

  lemma IdsEnd(o: Owners, mode: Mode, sel: Selection, order: seq<string>, before: Progress, now: Progress)
    requires IdsHandled(o, mode, sel, order, |order|, before, now)
    ensures forall i :: 0 <= i < |before.ids| ==> LockSound(o, sel, before.ids[i])
    ensures mode.Write? ==> now.ids == RewriteLocks(o, sel, before.ids)
    ensures now.changes == before.changes + LockChanges(o, sel, before.ids, order)
    ensures now.seen == before.seen + KeysOf(before.ids)
  {
    hide LockChanges, LocksPartly, LockSound, RewriteLock;
    assert order[..|order|] == order;
    AllLocksHandled(o, sel, before.ids, order);
    LocksPartlyEnds(o, sel, before.ids, order);
    assert Elements(order) == KeysOf(before.ids);
  }

  lemma ReadIsWellFormed(p: Platform, text: string)
    requires p.Faithful()
    ensures p.parse(text).Some? ==> WellFormed(p.parse(text).value)
  {
  }

  lemma LockIsPresent(ids: seq<Field>, id: string)
    requires id in KeysOf(ids)
    ensures Has(ids, id)
  {
    var i :| 0 <= i < |ids| && ids[i].key == id;
  }

  class LockRun {
    const platform: Platform
    const producers: map<string, string>
    const descriptors: map<string, string>
    const historical: map<string, string>
    const mode: Mode
    const sel: Selection
    var identities: map<Source, Identity>
    var seen: set<string>
    var changes: seq<Change>

    constructor (p: Platform, producers: map<string, string>, descriptors: map<string, string>,
                 historical: map<string, string>, mode: Mode, sel: Selection)
      ensures Valid() && Owner() == Owners(p, Loader(p, producers, descriptors), descriptors.Keys)
      ensures this.historical == historical && this.mode == mode && this.sel == sel && this.platform == p
      ensures this.descriptors == descriptors && seen == {} && changes == []
    {
      this.platform, this.producers, this.descriptors := p, producers, descriptors;
      this.historical, this.mode, this.sel := historical, mode, sel;
      identities, seen, changes := map[], {}, [];
    }

    ghost function Owner(): (o: Owners)
      ensures o.platform == platform
    {
      Owners(platform, Loader(platform, producers, descriptors), descriptors.Keys)
    }

    /** Every cached identity is what its producer says. */
    ghost predicate Valid()
      reads this
    {
      forall s :: s in identities ==> Owner().load(s) == Some(identities[s])
    }

    /** Loads an identity once; a producer that cannot be trusted is never cached. */
    method Load(source: Source) returns (r: Option<Identity>)
      requires Valid()
      modifies this`identities
      ensures Valid() && r == Owner().load(source)
    {
      if source in identities {
        return Some(identities[source]);
      }
      r := LoadSource(platform, producers, descriptors, source);
      if r.Some? {
        identities := identities[source := r.value];
      }
    }

    /** Handles one field of a fixture; None when an exception leaves the fixture unwritten. */
    method HandleField(name: string, fields: seq<Field>, i: nat, current: seq<Field>) returns (r: Option<seq<Field>>)
      requires Valid() && Distinct(fields) && i < |fields|
      requires mode.Write? ==> current == Partly(Owner(), sel, fields, i)
      modifies this
      ensures Valid()
      ensures r.Some? <==> FieldSound(Owner(), sel, fields[i]) && (mode.Write? ==> Assigns(Owner(), sel, fields, i))
      ensures r.Some? && mode.Write? ==> r.value == Partly(Owner(), sel, fields, i + 1)
      ensures r.Some? ==> changes == old(changes) + FieldChanges(Owner(), sel, name, fields[i..i + 1])
      ensures r.Some? ==> seen == old(seen) + OwnedKeys(fields[i..i + 1])
    {
      ghost var o := Owner();
      var f := fields[i];
      assert fields[i..i + 1] == [f];
      match SourceOf(f)
      case Unowned => return None;
      case Free =>
        PartlySkips(o, sel, fields, i);
        return Some(current);
      case Owned(source) =>
        seen := seen + {source.Key()};
        assert OwnedKeys([f]) == {source.Key()} by {
          assert [f][0] == f;
        }
        if !sel.Selects(source.Key()) {
          PartlySkips(o, sel, fields, i);
          return Some(current);
        }
        var expected := Load(source);
        var actual := AsIdentity(f.value);
        if expected == None || actual == None {
          return None;
        }
        if actual == expected {
          PartlySkips(o, sel, fields, i);
          return Some(current);
        }
        changes := changes + [Change(name, f.key, source.Key())];
        if mode.Check? {
          return Some(current);
        }
        PartlyAssigns(o, sel, fields, i);
        SchedulesNeverDrift(o, sel, f);
        var next := current[i := Field(f.key, WithIdentity(f.value, expected.value))];
        var s := Index(fields, "schedules");
        if f.key == "composerEvidence" && s < |fields| {
          if !SchedulesAssignable(fields[s].value) {
            return None;
          }
          next := next[s := Field("schedules", SetSchedules(fields[s].value, expected.value.sha256))];
        }
        return Some(next);
    }

    /** Handles one fixture; None when an exception leaves its file unwritten. */
    method HandleFixture(name: string, text: string) returns (r: Option<string>)
      requires Valid() && platform.Faithful()
      modifies this
      ensures Valid()
      ensures var step := FixtureStep(Owner(), mode, sel, historical, name, text);
              && (r.Some? <==> step.Done?)
              && (r.Some? ==> r.value == step.text && changes == old(changes) + step.changes)
              && (r.Some? ==> seen == old(seen) + OwnedKeys(FieldsOf(platform.parse(text))))
    {
      hide Drifts, FieldSound, SourceOf, Assigns, Partly, RewriteField, Projection, NewScheduleKey,
           SchedulesAssignable, Aligned, Platform.Faithful, WellFormed;
      ghost var o := Owner();
      ReadIsWellFormed(platform, text);
      var fixture := platform.parse(text);
      if fixture == None || fixture.value == Null {
        return None;
      }
      if !fixture.value.Obj? {
        return Some(text);
      }
      var fields := fixture.value.fields;
      assert WellFormed(Obj(fields));
      var reported := |changes|;
      var current, i := fields, 0;
      PartlyEnds(o, sel, fields);
      while i < |fields|
        invariant i <= |fields| && Valid()
        invariant mode.Write? ==> current == Partly(o, sel, fields, i)
        invariant forall j :: 0 <= j < i ==>
                    FieldSound(o, sel, fields[j]) && (mode.Write? ==> Assigns(o, sel, fields, j))
        invariant changes == old(changes) + FieldChanges(o, sel, name, fields[..i])
        invariant seen == old(seen) + OwnedKeys(fields[..i])
      {
        assert fields[..i + 1] == fields[..i] + fields[i..i + 1];
        FieldChangesConcat(o, sel, name, fields[..i], fields[i..i + 1]);
        OwnedKeysConcat(fields[..i], fields[i..i + 1]);
        var next := HandleField(name, fields, i, current);
        if next == None {
          UnassignableIsUnsound(o, sel, fields, i);
          return None;
        }
        current, i := next.value, i + 1;
      }
      assert fields[..|fields|] == fields;
      NoDriftNoChange(o, sel, name, fields);
      AssignableIsSound(o, sel, fields);
      if mode.Check? || |changes| == reported {
        return Some(text);
      }
      if Aligned(platform, historical, name, Obj(current)) {
        return Some(platform.render(Obj(current)));
      }
      return None;
    }

    /** Handles one lock; None when its entry or its producer is no identity. */
    method HandleLock(ids: seq<Field>, id: string, current: seq<Field>) returns (r: Option<seq<Field>>)
      requires Valid() && Distinct(ids) && Has(ids, id) && SameKeys(ids, current)
      requires current[Index(ids, id)] == ids[Index(ids, id)]
      modifies this
      ensures Valid() && seen == old(seen) + {id}
      ensures r.Some? <==> LockSound(Owner(), sel, ids[Index(ids, id)])
      ensures r.Some? ==> changes == old(changes) + LockChanges(Owner(), sel, ids, [id])
      ensures r.Some? && mode.Write? ==>
                r.value == current[Index(ids, id) := RewriteLock(Owner(), sel, ids[Index(ids, id)])]
    {
      hide AsIdentity, Index, Distinct, Owner;
      ghost var o := Owner();
      var i := Index(ids, id);
      seen := seen + {id};
      OneLockChange(o, sel, ids, id);
      if !sel.Selects(id) {
        return Some(current);
      }
      var expected := Load(Evidence(id));
      var actual := AsIdentity(ids[i].value);
      if expected == None || actual == None {
        return None;
      }
      if actual == expected {
        return Some(current);
      }
      changes := changes + [Change(LOCKS_FILE, id, id)];
      if mode.Check? {
        return Some(current);
      }
      return Some(current[i := Field(id, IdentityRecord(expected.value))]);
    }

    /** Handles the locks of all descriptors in the order of their ids. */
    method HandleIds(ids: seq<Field>) returns (r: Option<seq<Field>>)
      requires Valid() && Distinct(ids) && KeysOf(ids) == descriptors.Keys
      modifies this
      ensures Valid()
      ensures r.Some? <==> forall i :: 0 <= i < |ids| ==> LockSound(Owner(), sel, ids[i])
      ensures r.Some? && mode.Write? ==> r.value == RewriteLocks(Owner(), sel, ids)
      ensures r.Some? ==> changes == old(changes) + LockChanges(Owner(), sel, ids, Sorted(descriptors.Keys))
      ensures r.Some? ==> seen == old(seen) + descriptors.Keys
    {
      hide *;
      ghost var o := Owner();
      var order := Sort(descriptors.Keys);
      ghost var before := Progress(ids, changes, seen);
      var current, i := ids, 0;
      IdsStart(o, mode, sel, order, before);
      while i < |order|
        invariant i <= |order| && Valid()
        invariant IdsHandled(o, mode, sel, order, i, before, Progress(current, changes, seen))
      {
        IdsPending(o, mode, sel, order, i, before, Progress(current, changes, seen));
        ghost var now := Progress(current, changes, seen);
        var next := HandleLock(ids, order[i], current);
        if next == None {
          IdsFail(o, sel, ids, order, i);
          return None;
        }
        current := if mode.Write? then next.value else current;
        IdsStep(o, mode, sel, order, i, before, now, Progress(current, changes, seen));
        i := i + 1;
      }
      IdsEnd(o, mode, sel, order, before, Progress(current, changes, seen));
      return Some(current);
    }

    /** Handles the lock file; None when an exception leaves it unwritten. */
    method HandleLocks(text: string) returns (r: Option<string>)
      requires Valid() && platform.Faithful()
      modifies this
      ensures Valid()
      ensures var step := LocksStep(Owner(), mode, sel, text);
              && (r.Some? <==> step.Done?)
              && (r.Some? ==> r.value == step.text && changes == old(changes) + step.changes)
              && (r.Some? ==> seen == old(seen) + Owner().ids)
    {
      hide LockSound, LockDrifts, Loader, RewriteLocks, LockChanges, IsLocks, KeysOf, WellFormed, Distinct,
           Platform.Faithful, Sorted;
      var file := platform.parse(text);
      if file == None || !file.value.Obj? || !IsLocks(file.value.fields) {
        return None;
      }
      var fields := file.value.fields;
      var k := Index(fields, "identities");
      if k == |fields| || !fields[k].value.Obj? || KeysOf(fields[k].value.fields) != descriptors.Keys {
        return None;
      }
      var ids := fields[k].value.fields;
      ParsedIsDistinct(platform, text, k);
      NoLockChangesMeansNoDrift(Owner(), sel, ids);
      var reported := |changes|;
      var current := HandleIds(ids);
      if current == None {
        return None;
      }
      if mode.Check? || |changes| == reported {
        return Some(text);
      }
      return Some(platform.render(Obj(fields[k := Field("identities", Obj(current.value))])));
    }
  }
}
