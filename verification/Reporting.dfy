/** What a lock run reports: every stale field and lock once, by file, field and owner, in reading order. */
module Reporting {
  import opened Base
  import opened Json
  import opened Listing
  import opened EvidenceFields
  import opened Repository
  import opened EvidenceLocks
  import opened LockFileTheorems
  import opened RunTheorems
  import opened Preservation
  import opened Agreement
  import opened Provenance
  import opened Writing

  const LOCKS := "integration-evidence-locks.json"

  /** The change names a stale field of a fixture and its owner, or a stale lock. */
  ghost predicate IsDue(p: Platform, st: State, cases: Json, source: Option<string>, c: Change) {
    c.file in st.Chain() &&
    var text := st.Chain()[c.file];
    if c.file == LOCKS then
      && p.parse(text).Some? && c.source == c.field
      && var locks := Property(p.parse(text).value, "identities");
         && locks.Some? && Property(locks.value, c.field).Some?
         && exists length, hash ::
              LockIsStale(p, st.producers, cases, source, c.field, Property(locks.value, c.field).value, length, hash)
    else
      && IsFixtureFile(c.file) && p.parse(text).Some? && Property(p.parse(text).value, c.field).Some?
      && var v := Property(p.parse(text).value, c.field).value;
         && OwnedBy(c.field, v, c.source)
         && exists length, hash :: IsStale(p, st.producers, cases, source, c.field, v, length, hash)
  }

  function Place(p: Platform, chain: map<string, string>, c: Change): nat {
    if c.file in chain then Index(FieldsOf(p.parse(chain[c.file])), c.field) else 0
  }

  /** Fixtures by name, fields as they stand, the locks last and by id. */
  predicate Earlier(p: Platform, chain: map<string, string>, c: Change, d: Change) {
    if c.file == LOCKS then d.file == LOCKS && Before(c.field, d.field)
    else d.file == LOCKS || Before(c.file, d.file) || (c.file == d.file && Place(p, chain, c) < Place(p, chain, d))
  }

  predicate InOrder(p: Platform, chain: map<string, string>, changes: seq<Change>) {
    forall i, j :: 0 <= i < j < |changes| ==> Earlier(p, chain, changes[i], changes[j])
  }

  // ----- the changes of one file

  ghost predicate NamesField(o: Owners, sel: Selection, name: string, f: Field, c: Change) {
    Drifts(o, sel, f) && c == Change(name, f.key, SourceOf(f).source.Key())
  }

  /** Some drifting field is the one the change names. */
  ghost predicate NamesDrift(o: Owners, sel: Selection, name: string, fields: seq<Field>, c: Change) {
    exists i :: 0 <= i < |fields| && NamesField(o, sel, name, fields[i], c)
  }

  lemma {:induction false} FieldChangesMean(o: Owners, sel: Selection, name: string, fields: seq<Field>)
    ensures forall c :: c in FieldChanges(o, sel, name, fields) <==> NamesDrift(o, sel, name, fields, c)
  {
    hide Drifts, SourceOf;
    if fields != [] {
      FieldChangesMean(o, sel, name, fields[1..]);
      forall c
        ensures NamesDrift(o, sel, name, fields, c) <==>
                NamesField(o, sel, name, fields[0], c) || NamesDrift(o, sel, name, fields[1..], c)
      {
        NamesDriftCons(o, sel, name, fields, c);
      }
    }
  }

  lemma NamesDriftCons(o: Owners, sel: Selection, name: string, fields: seq<Field>, c: Change)
    requires fields != []
    ensures NamesDrift(o, sel, name, fields, c) <==>
            NamesField(o, sel, name, fields[0], c) || NamesDrift(o, sel, name, fields[1..], c)
  {
    hide NamesField;
    if NamesDrift(o, sel, name, fields, c) {
      var i :| 0 <= i < |fields| && NamesField(o, sel, name, fields[i], c);
      assert i > 0 ==> fields[1..][i - 1] == fields[i];
    }
    if NamesDrift(o, sel, name, fields[1..], c) {
      var i :| 0 <= i < |fields[1..]| && NamesField(o, sel, name, fields[1..][i], c);
      assert fields[i + 1] == fields[1..][i];
    }
  }

  /** The fields of the changes stand in the order of the fields. */
  predicate ByField(fields: seq<Field>, changes: seq<Change>) {
    forall i, j :: 0 <= i < j < |changes| ==> Index(fields, changes[i].field) < Index(fields, changes[j].field)
  }

  lemma {:induction false} FieldChangesAscend(o: Owners, sel: Selection, name: string, fields: seq<Field>)
    requires Distinct(fields)
    ensures ByField(fields, FieldChanges(o, sel, name, fields))
  {
    hide Drifts, SourceOf;
    if fields != [] {
      var rest := FieldChanges(o, sel, name, fields[1..]);
      FieldChangesAscend(o, sel, name, fields[1..]);
      FieldChangesMean(o, sel, name, fields[1..]);
      forall c | c in rest
        ensures Index(fields, c.field) == 1 + Index(fields[1..], c.field)
      {
        LaterField(o, sel, name, fields, c);
      }
      assert forall i :: 0 <= i < |rest| ==> rest[i] in rest;
    }
  }

  lemma LaterField(o: Owners, sel: Selection, name: string, fields: seq<Field>, c: Change)
    requires fields != [] && Distinct(fields) && NamesDrift(o, sel, name, fields[1..], c)
    ensures Index(fields, c.field) == 1 + Index(fields[1..], c.field)
  {
    var i :| 0 <= i < |fields[1..]| && NamesField(o, sel, name, fields[1..][i], c);
    assert fields[i + 1].key == c.field;
  }

  lemma {:induction false} LockChangesMean(o: Owners, sel: Selection, ids: seq<Field>, order: seq<string>)
    ensures forall c :: c in LockChanges(o, sel, ids, order) <==>
              c.field in order && c == Change(LOCKS, c.field, c.field)
              && Has(ids, c.field) && LockDrifts(o, sel, ids[Index(ids, c.field)])
  {
    hide LockDrifts, Index;
    if order != [] {
      LockChangesMean(o, sel, ids, order[1..]);
      assert order == [order[0]] + order[1..];
    }
  }

  predicate ById(changes: seq<Change>) {
    forall i, j :: 0 <= i < j < |changes| ==> Before(changes[i].field, changes[j].field)
  }

  lemma ByIdCons(c: Change, rest: seq<Change>)
    requires ById(rest) && forall d :: d in rest ==> Before(c.field, d.field)
    ensures ById([c] + rest)
  {
    hide Before;
    var all := [c] + rest;
    forall i, j | 0 <= i < j < |all| ensures Before(all[i].field, all[j].field) {
      assert all[j] == rest[j - 1] && rest[j - 1] in rest;
      assert i > 0 ==> all[i] == rest[i - 1];
    }
  }

  lemma {:induction false} LockChangesAscend(o: Owners, sel: Selection, ids: seq<Field>, order: seq<string>)
    requires Ascending(order)
    ensures ById(LockChanges(o, sel, ids, order))
  {
    hide LockDrifts, Index, Before, ById;
    if order == [] {
      NothingById();
    } else {
      var rest := LockChanges(o, sel, ids, order[1..]);
      LockChangesAscend(o, sel, ids, order[1..]);
      LockChangesMean(o, sel, ids, order[1..]);
      forall d | d in rest ensures Before(order[0], d.field) {
        var j :| 0 <= j < |order[1..]| && order[1..][j] == d.field;
        assert order[j + 1] == d.field;
      }
      ByIdCons(Change(LOCKS, order[0], order[0]), rest);
      assert [] + rest == rest;
    }
  }

  lemma NothingById()
    ensures ById([])
  {
  }

  // ----- the changes of a pass

  /** The changes of each file on its own, in the order of the files. */
  function Gathered(step: (string, string) -> Step, chain: map<string, string>, names: seq<string>): seq<Change>
    requires forall n :: n in names ==> n in chain && step(n, chain[n]).Done?
  {
    if names == [] then [] else step(names[0], chain[names[0]]).changes + Gathered(step, chain, names[1..])
  }

  lemma {:induction false} PassGathers(step: (string, string) -> Step, chain: map<string, string>, names: seq<string>)
    requires NoRepeats(names) && forall n :: n in names ==> n in chain
    ensures FixturePass(step, chain, names).ok ==>
              (forall n :: n in names ==> step(n, chain[n]).Done?)
              && FixturePass(step, chain, names).changes == Gathered(step, chain, names)
    decreases |names|
  {
    if names != [] {
      assert names == [names[0]] + names[1..];
      match step(names[0], chain[names[0]]) {
        case Throws =>
        case Done(text, _) =>
          PassGathers(step, chain[names[0] := text], names[1..]);
          if FixturePass(step, chain[names[0] := text], names[1..]).ok {
            SameGathered(step, chain, chain[names[0] := text], names[1..]);
          }
      }
    }
  }

  lemma {:induction false} SameGathered(step: (string, string) -> Step, chain: map<string, string>,
                                        other: map<string, string>, names: seq<string>)
    requires forall n :: n in names ==> n in chain && n in other && other[n] == chain[n]
    requires forall n :: n in names ==> step(n, chain[n]).Done?
    ensures Gathered(step, other, names) == Gathered(step, chain, names)
  {
    if names != [] {
      assert names == [names[0]] + names[1..];
      SameGathered(step, chain, other, names[1..]);
    }
  }

  lemma {:induction false} GatheredMeans(step: (string, string) -> Step, chain: map<string, string>, names: seq<string>)
    requires forall n :: n in names ==> n in chain && step(n, chain[n]).Done?
    ensures forall c :: c in Gathered(step, chain, names) <==> exists n :: n in names && c in step(n, chain[n]).changes
  {
    if names != [] {
      assert names == [names[0]] + names[1..];
      GatheredMeans(step, chain, names[1..]);
    }
  }

  lemma {:induction false} GatheredInOrder(p: Platform, step: (string, string) -> Step, chain: map<string, string>,
                                           names: seq<string>)
    requires Ascending(names) && forall n :: n in names ==> n in chain && step(n, chain[n]).Done? && n != LOCKS
    requires forall n :: n in names ==> forall c :: c in step(n, chain[n]).changes ==> c.file == n
    requires forall n :: n in names ==> InOrder(p, chain, step(n, chain[n]).changes)
    ensures InOrder(p, chain, Gathered(step, chain, names))
  {
    hide Before, Place;
    if names != [] {
      assert names == [names[0]] + names[1..];
      var head, rest := step(names[0], chain[names[0]]).changes, Gathered(step, chain, names[1..]);
      GatheredInOrder(p, step, chain, names[1..]);
      GatheredMeans(step, chain, names[1..]);
      assert names[0] in names;
      forall c, d | c in head && d in rest ensures Earlier(p, chain, c, d) {
        var n :| n in names[1..] && d in step(n, chain[n]).changes;
        var j :| 0 <= j < |names[1..]| && names[1..][j] == n;
        assert names[j + 1] == n;
      }
      OrderConcat(p, chain, head, rest);
    }
  }

  lemma OrderConcat(p: Platform, chain: map<string, string>, a: seq<Change>, b: seq<Change>)
    requires InOrder(p, chain, a) && InOrder(p, chain, b) && forall c, d :: c in a && d in b ==> Earlier(p, chain, c, d)
    ensures InOrder(p, chain, a + b)
  {
    hide Earlier;
    var all := a + b;
    forall i, j | 0 <= i < j < |all| ensures Earlier(p, chain, all[i], all[j]) {
      if i < |a| <= j {
        assert all[i] in a && all[j] in b;
      }
    }
  }

  // ----- the report of a run

  lemma FixtureChanges(o: Owners, mode: Mode, sel: Selection, historical: map<string, string>, n: string, text: string)
    ensures var step := FixtureStep(o, mode, sel, historical, n, text);
            step.Done? ==> step.changes == FieldChanges(o, sel, n, FieldsOf(o.platform.parse(text)))
  {
    hide Aligned, FieldsSound, SomeFieldDrifts, RewriteSound, Rewrite;
  }

  lemma FieldChangesInOrder(p: Platform, o: Owners, sel: Selection, chain: map<string, string>, n: string)
    requires p.Faithful() && n in chain && n != LOCKS
    ensures InOrder(p, chain, FieldChanges(o, sel, n, FieldsOf(p.parse(chain[n]))))
    ensures forall c :: c in FieldChanges(o, sel, n, FieldsOf(p.parse(chain[n]))) ==> c.file == n
  {
    hide Platform.Faithful, Before, FieldChanges, Drifts, SourceOf;
    var fields := FieldsOf(p.parse(chain[n]));
    ParsedIsWellFormed(p, chain[n]);
    FieldsAreDistinct(p.parse(chain[n]));
    FieldChangesAscend(o, sel, n, fields);
    FieldChangesMean(o, sel, n, fields);
    var changes := FieldChanges(o, sel, n, fields);
    forall i | 0 <= i < |changes| ensures changes[i].file == n {
      assert changes[i] in changes;
    }
  }

  lemma FieldsAreDistinct(fixture: Option<Json>)
    requires fixture.Some? ==> WellFormed(fixture.value)
    ensures Distinct(FieldsOf(fixture))
  {
  }

  /** A change of the field loop is due in its fixture. */
  lemma FieldChangeIsDue(o: Owners, p: Platform, st: State, cases: Json, source: Option<string>, n: string, c: Change)
    requires p.Faithful() && Knows(o, p, st.producers, cases) && n in st.Chain() && IsFixtureFile(n) && n != LOCKS
    ensures c in FieldChanges(o, SelectionOf(source), n, FieldsOf(p.parse(st.Chain()[n]))) <==>
            c.file == n && IsDue(p, st, cases, source, c)
  {
    hide Platform.Faithful, Knows, FieldChanges, Drifts, SourceOf, SelectionOf, IsStale, OwnedBy, IsFixtureFile, Find;
    var text := st.Chain()[n];
    var fields := FieldsOf(p.parse(text));
    ParsedIsWellFormed(p, text);
    FieldsAreDistinct(p.parse(text));
    FieldChangesMean(o, SelectionOf(source), n, fields);
    if NamesDrift(o, SelectionOf(source), n, fields, c) {
      var i :| 0 <= i < |fields| && NamesField(o, SelectionOf(source), n, fields[i], c);
      FieldIsFound(fields, i);
      ChangeMeans(o, p, st.producers, cases, source, n, fields[i].key, fields[i].value, c);
      assert fields[i] == Field(fields[i].key, fields[i].value);
    }
    if c.file == n && IsDue(p, st, cases, source, c) {
      FoundIsField(fields, c.field);
      var i :| 0 <= i < |fields| && fields[i] == Field(c.field, Find(fields, c.field).value);
      ChangeMeans(o, p, st.producers, cases, source, n, fields[i].key, fields[i].value, c);
    }
  }

  lemma ChangeMeans(o: Owners, p: Platform, producers: map<string, string>, cases: Json, source: Option<string>,
                    n: string, k: string, v: Json, c: Change)
    requires Knows(o, p, producers, cases)
    ensures NamesField(o, SelectionOf(source), n, Field(k, v), c) <==>
            && c.file == n && c.field == k && OwnedBy(k, v, c.source)
            && exists length, hash :: IsStale(p, producers, cases, source, k, v, length, hash)
  {
    hide Knows, SourceOf, SelectionOf, OwnedBy, LooksLikeIdentity, NamesAncestor, AsIdentity, IsStale;
    DriftIsStale(o, p, producers, cases, source, k, v);
    StaleIsAncestor(p, producers, cases, source, k, v);
    if NamesAncestor(k) && LooksLikeIdentity(v) {
      SourceMeans(k, v);
    } else {
      OthersAreFree(k, v);
    }
  }

  lemma StaleIsAncestor(p: Platform, producers: map<string, string>, cases: Json, source: Option<string>, k: string,
                        v: Json)
    ensures forall length, hash :: IsStale(p, producers, cases, source, k, v, length, hash) ==>
              NamesAncestor(k) && LooksLikeIdentity(v)
  {
    hide NamesAncestor, OwnerIdentifies, OwnedBy;
    IdentityLooksLikeOne(v);
  }

  /** A change of the lock loop is due in the lock file. */
  lemma LockChangeIsDue(o: Owners, p: Platform, st: State, cases: Json, source: Option<string>, fields: seq<Field>,
                        c: Change)
    requires p.Faithful() && Knows(o, p, st.producers, cases)
    requires LOCKS in st.Chain() && p.parse(st.Chain()[LOCKS]) == Some(Obj(fields))
    requires LocksSound(o, SelectionOf(source), fields)
    ensures c in LockChanges(o, SelectionOf(source), IdsOf(fields), Sorted(o.ids)) <==>
            c.file == LOCKS && IsDue(p, st, cases, source, c)
  {
    hide Platform.Faithful, Knows, LockDrifts, SelectionOf, LockIsStale, IsFixtureFile, KeysOf, LockSound,
         LockChanges, Find, IsStale, OwnedBy;
    LocksHaveIds(o, SelectionOf(source), fields);
    var ids := IdsOf(fields);
    LockChangesMean(o, SelectionOf(source), ids, Sorted(o.ids));
    KeysAreFound(ids, c.field);
    HasIsKey(ids, c.field);
    if Has(ids, c.field) {
      var f := ids[Index(ids, c.field)];
      assert f.key == c.field;
      LockFieldMeans(o, p, st.producers, cases, source, f);
      FoundAtIndex(ids, c.field);
    }
    assert Property(Obj(fields), "identities") == Some(Obj(ids)) && Property(Obj(ids), c.field) == Find(ids, c.field);
  }

  lemma HasIsKey(ids: seq<Field>, k: string)
    ensures Has(ids, k) <==> k in KeysOf(ids)
  {
    if k in KeysOf(ids) {
      var i :| 0 <= i < |ids| && ids[i].key == k;
    }
    if Has(ids, k) {
      assert ids[Index(ids, k)].key == k;
    }
  }

  lemma FoundAtIndex(ids: seq<Field>, k: string)
    requires Has(ids, k)
    ensures Find(ids, k) == Some(ids[Index(ids, k)].value)
  {
  }

  /** A run that does not throw gets through all files and reports the changes of each. */
  lemma RunReports(p: Platform, mode: Mode, source: Option<string>, st: State, o: Owners)
    requires Prelude(p, st) == Some(o) && Run(p, mode, source, st).verdict != Threw
    ensures var names := Sorted(FixtureNames(st.Chain()));
            var pass := FixturePass(Stepper(o, mode, SelectionOf(source), st.historical), st.Chain(), names);
            && pass.ok && LOCKS in pass.chain && LocksStep(o, mode, SelectionOf(source), pass.chain[LOCKS]).Done?
            && Run(p, mode, source, st).changes ==
               pass.changes + LocksStep(o, mode, SelectionOf(source), pass.chain[LOCKS]).changes
  {
    hide Prelude, FixturePass, FixtureNames, LocksStep, Known, SelectionOf, Stepper;
  }

  /** What the pass over the fixtures reports, and that it leaves the lock file alone. */
  lemma PassReport(p: Platform, mode: Mode, source: Option<string>, st: State, cases: Json, o: Owners)
    requires p.Faithful() && Knows(o, p, st.producers, cases)
    ensures var names := Sorted(FixtureNames(st.Chain()));
            var pass := FixturePass(Stepper(o, mode, SelectionOf(source), st.historical), st.Chain(), names);
            && pass.chain.Keys == st.Chain().Keys
            && (LOCKS in st.Chain() ==> pass.chain[LOCKS] == st.Chain()[LOCKS])
            && (pass.ok ==> InOrder(p, st.Chain(), pass.changes))
            && (pass.ok ==> forall c :: c in pass.changes <==> c.file != LOCKS && IsDue(p, st, cases, source, c))
  {
    hide Platform.Faithful, Knows, FixturePass, FixtureStep, SelectionOf, IsFixtureName, IsFixtureFile, NoRepeats,
         Ascending, IsDue, InOrder;
    KnowsPlatform(o, p, st.producers, cases);
    var names, sel := Sorted(FixtureNames(st.Chain())), SelectionOf(source);
    var step := Stepper(o, mode, sel, st.historical);
    var chain := st.Chain();
    NamesAreChained(chain);
    SortedIsAscending(FixtureNames(chain));
    LocksAreNoFixture(chain);
    PassReaches(step, chain, names);
    PassGathers(step, chain, names);
    if FixturePass(step, chain, names).ok {
      forall n | n in names
        ensures IsFixtureFile(n) && n != LOCKS && InOrder(p, chain, step(n, chain[n]).changes)
        ensures forall c :: c in step(n, chain[n]).changes <==> c.file == n && IsDue(p, st, cases, source, c)
      {
        FilesAreFixtures(n);
        FixtureReport(p, mode, source, st, cases, o, n);
      }
      GatheredMeans(step, chain, names);
      GatheredInOrder(p, step, chain, names);
      forall c: Change | c.file != LOCKS && IsDue(p, st, cases, source, c) ensures c.file in names {
        DueIsInFixture(p, st, cases, source, c);
        FilesAreFixtures(c.file);
      }
    }
  }

  lemma DueIsInFixture(p: Platform, st: State, cases: Json, source: Option<string>, c: Change)
    requires c.file != LOCKS && IsDue(p, st, cases, source, c)
    ensures c.file in st.Chain() && IsFixtureFile(c.file)
  {
    hide IsStale, OwnedBy;
  }

  lemma FixtureReport(p: Platform, mode: Mode, source: Option<string>, st: State, cases: Json, o: Owners, n: string)
    requires p.Faithful() && Knows(o, p, st.producers, cases) && n in st.Chain() && IsFixtureFile(n) && n != LOCKS
    requires FixtureStep(o, mode, SelectionOf(source), st.historical, n, st.Chain()[n]).Done?
    ensures var changes := FixtureStep(o, mode, SelectionOf(source), st.historical, n, st.Chain()[n]).changes;
            && InOrder(p, st.Chain(), changes)
            && forall c :: c in changes <==> c.file == n && IsDue(p, st, cases, source, c)
  {
    hide Platform.Faithful, Knows, FixtureStep, SelectionOf, IsFixtureFile, IsDue, InOrder, FieldChanges;
    KnowsPlatform(o, p, st.producers, cases);
    FixtureChanges(o, mode, SelectionOf(source), st.historical, n, st.Chain()[n]);
    FieldChangesInOrder(p, o, SelectionOf(source), st.Chain(), n);
    forall c
      ensures c in FieldChanges(o, SelectionOf(source), n, FieldsOf(p.parse(st.Chain()[n]))) <==>
              c.file == n && IsDue(p, st, cases, source, c)
    {
      FieldChangeIsDue(o, p, st, cases, source, n, c);
    }
  }

  lemma LocksInOrder(p: Platform, chain: map<string, string>, changes: seq<Change>)
    requires ById(changes) && forall c :: c in changes ==> c.file == LOCKS
    ensures InOrder(p, chain, changes)
  {
    hide Before, Place;
    forall i | 0 <= i < |changes| ensures changes[i].file == LOCKS {
      assert changes[i] in changes;
    }
  }

  /** What the loop over the locks reports. */
  lemma LockReport(p: Platform, mode: Mode, source: Option<string>, st: State, cases: Json, o: Owners)
    requires p.Faithful() && Knows(o, p, st.producers, cases) && LOCKS in st.Chain()
    requires LocksStep(o, mode, SelectionOf(source), st.Chain()[LOCKS]).Done?
    ensures var changes := LocksStep(o, mode, SelectionOf(source), st.Chain()[LOCKS]).changes;
            && InOrder(p, st.Chain(), changes)
            && forall c :: c in changes <==> c.file == LOCKS && IsDue(p, st, cases, source, c)
  {
    hide Platform.Faithful, Knows, LocksSound, SelectionOf, IsDue, LockChanges, RewriteLockFile, SomeLockDrifts, ById,
         InOrder;
    KnowsPlatform(o, p, st.producers, cases);
    var fields := FieldsOf(p.parse(st.Chain()[LOCKS]));
    LocksHaveIds(o, SelectionOf(source), fields);
    var ids := IdsOf(fields);
    var changes := LockChanges(o, SelectionOf(source), ids, Sorted(o.ids));
    assert LocksStep(o, mode, SelectionOf(source), st.Chain()[LOCKS]).changes == changes;
    SortedIsAscending(o.ids);
    LockChangesAscend(o, SelectionOf(source), ids, Sorted(o.ids));
    LockChangesMean(o, SelectionOf(source), ids, Sorted(o.ids));
    LocksInOrder(p, st.Chain(), changes);
    forall c ensures c in changes <==> c.file == LOCKS && IsDue(p, st, cases, source, c) {
      LockChangeIsDue(o, p, st, cases, source, fields, c);
    }
  }

  /**
   * The report of a run that does not throw: exactly the stale fields and locks it was asked about, each
   * once with its owner, in reading order.
   */
  lemma ReportIsExact(p: Platform, mode: Mode, source: Option<string>, st: State, cases: Json)
    requires p.Faithful() && Starts(p, st, cases) && Run(p, mode, source, st).verdict != Threw
    ensures forall c :: c in Run(p, mode, source, st).changes <==> IsDue(p, st, cases, source, c)
    ensures InOrder(p, st.Chain(), Run(p, mode, source, st).changes)
  {
    hide Prelude, Knows, Starts, Platform.Faithful, FixtureNames, FixturePass, LocksStep, SelectionOf, Run, Stepper,
         IsDue, InOrder;
    RunHasPrelude(p, mode, source, st);
    PreludeIsStart(p, st);
    var o := Prelude(p, st).value;
    RunReports(p, mode, source, st, o);
    PassReport(p, mode, source, st, cases, o);
    LockReport(p, mode, source, st, cases, o);
    var names := Sorted(FixtureNames(st.Chain()));
    NamesAreChained(st.Chain());
    var pass := FixturePass(Stepper(o, mode, SelectionOf(source), st.historical), st.Chain(), names);
    var locks := LocksStep(o, mode, SelectionOf(source), st.Chain()[LOCKS]).changes;
    LocksComeLast(p, st.Chain());
    OrderConcat(p, st.Chain(), pass.changes, locks);
  }

  lemma LocksComeLast(p: Platform, chain: map<string, string>)
    ensures forall c: Change, d: Change :: c.file != LOCKS && d.file == LOCKS ==> Earlier(p, chain, c, d)
  {
  }

  lemma RunHasPrelude(p: Platform, mode: Mode, source: Option<string>, st: State)
    ensures Run(p, mode, source, st).verdict != Threw ==> Prelude(p, st).Some?
  {
    hide Prelude, FixturePass, FixtureNames, LocksStep, Known;
  }
}
