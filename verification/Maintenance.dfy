/** What a user of the lock tool relies on: check after write, resumption, no stray effects. */
module Maintenance {
  import opened Base
  import opened Json
  import LineEndings
  import opened Listing
  import opened ReferenceSelection
  import opened EvidenceFields
  import opened FieldTheorems
  import opened Repository
  import opened EvidenceLocks
  import opened StepTheorems
  import opened LockFileTheorems
  import opened RunTheorems
  import opened Confluence

  /** Nothing in this fixture has to change for the selection, and looking at it does not throw. */
  predicate UpToDate(o: Owners, sel: Selection, text: string) {
    && Readable(o.platform, text)
    && FieldsSound(o, sel, FieldsOf(o.platform.parse(text)))
    && !SomeFieldDrifts(o, sel, FieldsOf(o.platform.parse(text)))
  }

  predicate LocksUpToDate(o: Owners, sel: Selection, text: string) {
    LocksOk(o, sel, text) && !SomeLockDrifts(o, sel, IdsOf(FieldsOf(o.platform.parse(text))))
  }

  predicate AllUpToDate(o: Owners, sel: Selection, st: State) {
    && (forall n :: n in FixtureNames(st.Chain()) ==> UpToDate(o, sel, st.Chain()[n]))
    && LOCKS_FILE in st.Chain() && LocksUpToDate(o, sel, st.Chain()[LOCKS_FILE])
  }

  lemma CheckStepMeans(o: Owners, sel: Selection, historical: map<string, string>, name: string, text: string)
    ensures var step := FixtureStep(o, Check, sel, historical, name, text);
            && (step.Done? ==> step.text == text)
            && (step.Done? && step.changes == [] <==> UpToDate(o, sel, text))
  {
    NoDriftNoChange(o, sel, name, FieldsOf(o.platform.parse(text)));
  }

  lemma WriteStepMeans(o: Owners, sel: Selection, historical: map<string, string>, name: string, text: string)
    ensures UpToDate(o, sel, text) ==> FixtureStep(o, Write, sel, historical, name, text) == Done(text, [])
  {
    var fields := FieldsOf(o.platform.parse(text));
    NoDriftNoChange(o, sel, name, fields);
    if UpToDate(o, sel, text) {
      NoDriftNoScheduleKey(o, sel, fields);
    }
  }

  lemma NoDriftNoScheduleKey(o: Owners, sel: Selection, fields: seq<Field>)
    ensures !SomeFieldDrifts(o, sel, fields) ==> NewScheduleKey(o, sel, fields) == None
  {
  }

  lemma LockStepMeans(o: Owners, mode: Mode, sel: Selection, text: string)
    requires o.platform.Faithful()
    ensures var step := LocksStep(o, mode, sel, text);
            && (mode == Check && step.Done? ==> step.text == text)
            && (LocksUpToDate(o, sel, text) ==> step == Done(text, []))
            && (step.Done? && step.changes == [] ==> LocksUpToDate(o, sel, text))
  {
    hide KeysOf, Sorted, LockSound, LockDrifts, LockChanges, RewriteLocks, WellFormed, Distinct, Platform.Faithful,
         IsLocks;
    if LocksOk(o, sel, text) {
      var fields := FieldsOf(o.platform.parse(text));
      ParsedIsDistinct(o.platform, text, Index(fields, "identities"));
      NoLockChangesMeansNoDrift(o, sel, IdsOf(fields));
    }
  }

  lemma CheckPassMeans(o: Owners, sel: Selection, st: State)
    ensures var names := Sorted(FixtureNames(st.Chain()));
            var pass := FixturePass(Stepper(o, Check, sel, st.historical), st.Chain(), names);
            && pass.chain == st.Chain()
            && (pass.ok && pass.changes == [] <==>
                forall n :: n in FixtureNames(st.Chain()) ==> UpToDate(o, sel, st.Chain()[n]))
  {
    hide FixtureStep, UpToDate, FixtureNames, NoRepeats, FixturePass;
    var step := Stepper(o, Check, sel, st.historical);
    var chain := st.Chain();
    var names := Sorted(FixtureNames(chain));
    NamesAreChained(chain);
    PassIsPointwise(step, chain, names);
    forall n | n in names
      ensures step(n, chain[n]).Done? ==> step(n, chain[n]).text == chain[n]
      ensures step(n, chain[n]).Done? && step(n, chain[n]).changes == [] <==> UpToDate(o, sel, chain[n])
    {
      CheckStepMeans(o, sel, st.historical, n, chain[n]);
    }
    PassStops(step, chain, names);
  }

  /** A check never changes the repository, and it is clean exactly when everything selected is up to date. */
  lemma CheckIsExact(p: Platform, source: Option<string>, st: State)
    requires p.Faithful()
    ensures Run(p, Check, source, st).state == st
    ensures Run(p, Check, source, st).verdict == Clean <==>
              && Prelude(p, st).Some?
              && AllUpToDate(Prelude(p, st).value, SelectionOf(source), st)
              && Known(Prelude(p, st).value, source, st)
  {
    hide FixtureStep, FixturePass, UpToDate, LocksStep, LocksUpToDate, SeenSources, Prelude, FixtureNames, Sorted,
         Platform.Faithful, Known, SelectionOf, Stepper;
    PreludeMeans(p, st);
    if Prelude(p, st).Some? {
      var o := Prelude(p, st).value;
      NamesAreChained(st.Chain());
      CheckPassMeans(o, SelectionOf(source), st);
      assert st.WithChain(st.Chain()) == st;
      if LOCKS_FILE in st.Chain() {
        LockStepMeans(o, Check, SelectionOf(source), st.Chain()[LOCKS_FILE]);
        assert st.Chain()[LOCKS_FILE := st.Chain()[LOCKS_FILE]] == st.Chain();
      }
    }
  }

  /** A pass changes no file that no step changes, wherever it stops. */
  lemma {:induction false} PassStops(step: (string, string) -> Step, chain: map<string, string>, names: seq<string>)
    requires forall n :: n in names ==> n in chain
    requires forall n :: n in names && step(n, chain[n]).Done? ==> step(n, chain[n]).text == chain[n]
    ensures FixturePass(step, chain, names).chain == chain
    decreases |names|
  {
    if names != [] {
      assert names == [names[0]] + names[1..];
      match step(names[0], chain[names[0]]) {
        case Throws =>
        case Done(text, _) =>
          assert chain[names[0] := text] == chain;
          PassStops(step, chain, names[1..]);
      }
    }
  }

  lemma IdlePass(o: Owners, sel: Selection, historical: map<string, string>, chain: map<string, string>,
                 names: seq<string>)
    requires NoRepeats(names) && forall n :: n in names ==> n in chain && UpToDate(o, sel, chain[n])
    ensures FixturePass(Stepper(o, Write, sel, historical), chain, names) == Pass(true, chain, [])
  {
    hide FixtureStep, UpToDate, NoRepeats, FixturePass;
    var step := Stepper(o, Write, sel, historical);
    forall n | n in names ensures step(n, chain[n]) == Done(chain[n], []) {
      WriteStepMeans(o, sel, historical, n, chain[n]);
    }
    PassIsPointwise(step, chain, names);
    PassStops(step, chain, names);
  }

  lemma IdleFinish(o: Owners, key: string, st: State)
    requires o.platform.Faithful() && st.version in st.chains && LOCKS_FILE in st.Chain()
    requires LocksUpToDate(o, Only({key}), st.Chain()[LOCKS_FILE])
    ensures Finish(o, Write, Some(key), true, st, Pass(true, st.Chain(), [])) == Report(st, Clean, [])
  {
    hide LocksStep, LocksUpToDate, Platform.Faithful;
    LockStepMeans(o, Write, Only({key}), st.Chain()[LOCKS_FILE]);
    assert st.Chain()[LOCKS_FILE := st.Chain()[LOCKS_FILE]] == st.Chain() && st.WithChain(st.Chain()) == st;
  }

  /** A write run on an up-to-date state writes nothing and reports nothing. */
  lemma WriteIsIdle(p: Platform, key: string, st: State)
    requires p.Faithful() && Prelude(p, st).Some?
    requires AllUpToDate(Prelude(p, st).value, Only({key}), st) && Known(Prelude(p, st).value, Some(key), st)
    ensures Run(p, Write, Some(key), st) == Report(st, Clean, [])
  {
    hide FixturePass, UpToDate, LocksUpToDate, Known, Prelude, FixtureNames, Finish, Stepper, Ascending,
         Platform.Faithful;
    PreludeMeans(p, st);
    var o := Prelude(p, st).value;
    var names := Sorted(FixtureNames(st.Chain()));
    NamesAreChained(st.Chain());
    IdlePass(o, Only({key}), st.historical, st.Chain(), names);
    IdleFinish(o, key, st);
  }

  lemma SettledIsUpToDate(o: Owners, sel: Selection, st: State)
    requires o.platform.Faithful() && Manageable(o, sel, st)
    ensures AllUpToDate(o, sel, Settle(o, sel, st))
  {
    hide FixtureStep, Settled, LocksSettled, IsFixtureName, StepOk, SomeFieldDrifts, FieldsSound, LocksSound;
    SettleKeepsNames(o, sel, st);
    forall n | n in FixtureNames(st.Chain()) ensures UpToDate(o, sel, Settled(o, sel, st.Chain()[n])) {
      SettledTextIsUpToDate(o, sel, st.historical, n, st.Chain()[n]);
    }
    LocksSettledAreUpToDate(o, sel, st.Chain()[LOCKS_FILE]);
  }

  lemma SettledTextIsUpToDate(o: Owners, sel: Selection, historical: map<string, string>, name: string, text: string)
    requires o.platform.Faithful() && StepOk(o, sel, historical, name, text)
    ensures UpToDate(o, sel, Settled(o, sel, text))
  {
    hide StepOk, Settled, Rewrite, RewriteSound, FieldsSound, SomeFieldDrifts, Platform.Faithful,
         Platform.StoredFields;
    var fields := FieldsOf(o.platform.parse(text));
    StepOkIsReadable(o, sel, historical, name, text);
    SettledIsSettled(o, sel, text);
    SettledReads(o, sel, text);
    SettledMeans(o, sel, sel, text);
    RewriteSoundComposes(o, sel, sel, fields);
    SoundFields(o, sel, Rewrite(o, sel, fields));
  }

  lemma LocksSettledAreUpToDate(o: Owners, sel: Selection, text: string)
    requires o.platform.Faithful() && LocksOk(o, sel, text)
    ensures LocksUpToDate(o, sel, LocksSettled(o, sel, text))
  {
    hide LocksSettled, LocksSound, SomeLockDrifts, RewriteLockFile, RewriteLocks, IdsOf, Platform.Faithful,
         Platform.Stored, Platform.StoredFields;
    var p, fields := o.platform, FieldsOf(o.platform.parse(text));
    LocksSettledReads(o, sel, text);
    LocksAreWellFormed(o, sel, text);
    LocksOkComposes(o, sel, sel, fields);
    var written := RewriteLockFile(o, sel, fields);
    WrittenIds(o, sel, fields);
    LocksSettledIsSettled(o, sel, IdsOf(fields));
    LockFileStored(p, o, sel, written);
    IdsStored(p, written);
    LocksStored(p, o, sel, IdsOf(written));
  }

  lemma WrittenIds(o: Owners, sel: Selection, fields: seq<Field>)
    requires LocksSound(o, sel, fields)
    ensures IdsOf(RewriteLockFile(o, sel, fields)) == RewriteLocks(o, sel, IdsOf(fields))
  {
    hide LocksSound, RewriteLockFile, RewriteLocks, Find;
    RewriteLockFileReads(o, sel, fields);
  }

  /** A write of stale evidence shows in the bytes: the normalised text of every stale fixture changes. */
  lemma WriteMovesStaleBytes(p: Platform, key: string, st: State, n: string)
    requires p.Faithful() && Run(p, Write, Some(key), st).verdict == Clean && Prelude(p, st).Some?
    requires n in FixtureNames(st.Chain()) && !UpToDate(Prelude(p, st).value, Only({key}), st.Chain()[n])
    ensures var after := Run(p, Write, Some(key), st).state.Chain();
            n in after && LineEndings.Normalize(after[n]) != LineEndings.Normalize(st.Chain()[n])
  {
    hide Run, Settled, SeenSources, Prelude, IsFixtureName, StepOk, LineEndings.Normalize, SomeFieldDrifts,
         FieldsSound;
    var o, sel := Prelude(p, st).value, Only({key});
    PreludeMeans(p, st);
    WriteSettles(p, key, st);
    SettleKeepsNames(o, sel, st);
    var before, after := st.Chain()[n], Settled(o, sel, st.Chain()[n]);
    SettledTextIsUpToDate(o, sel, st.historical, n, before);
    assert p.parse(LineEndings.Normalize(before)) == p.parse(before);
    assert p.parse(LineEndings.Normalize(after)) == p.parse(after);
  }

  /** After a successful write of a source its check is clean, and writing it again changes nothing. */
  lemma WriteEstablishesCheck(p: Platform, key: string, st: State)
    requires p.Faithful() && Run(p, Write, Some(key), st).verdict == Clean
    ensures var after := Run(p, Write, Some(key), st).state;
            && Run(p, Check, Some(key), after).verdict == Clean
            && Run(p, Write, Some(key), after) == Report(after, Clean, [])
  {
    hide Run, Settle, AllUpToDate, Manageable, SeenSources, Prelude;
    WriteSettles(p, key, st);
    PreludeMeans(p, st);
    var o := Prelude(p, st).value;
    SettleKeepsPrelude(p, Only({key}), st);
    SettledIsUpToDate(o, Only({key}), st);
    CheckIsExact(p, Some(key), Settle(o, Only({key}), st));
    WriteIsIdle(p, key, Settle(o, Only({key}), st));
  }

  /** Once every source has been written, in whatever order, the full check is clean. */
  lemma WritingEverythingIsClean(p: Platform, keys: seq<string>, st: State)
    requires p.Faithful() && WriteAll(p, keys, st).Some?
    requires Prelude(p, st).Some? && SeenSources(Prelude(p, st).value, st.Chain()) <= Elements(keys) && keys != []
    ensures Run(p, Check, None, WriteAll(p, keys, st).value).verdict == Clean
  {
    hide Run, Settle, Manageable, SeenSources, Prelude, AllUpToDate;
    PreludeMeans(p, st);
    WriteAllSettles(p, keys, st);
    var o := Prelude(p, st).value;
    var sel := Only(Elements(keys));
    var after := Settle(o, sel, st);
    SettleKeepsPrelude(p, sel, st);
    SettledIsUpToDate(o, sel, st);
    AllSeenIsAll(o, Elements(keys), after);
    CheckIsExact(p, None, after);
  }

  /** Selecting every source that occurs is selecting all. */
  lemma AllSeenIsAll(o: Owners, keys: set<string>, st: State)
    requires SeenSources(o, st.Chain()) <= keys && AllUpToDate(o, Only(keys), st)
    ensures AllUpToDate(o, All, st)
  {
    hide SourceOf, IsFixtureName, IsLocks;
    forall n | n in FixtureNames(st.Chain()) ensures UpToDate(o, All, st.Chain()[n]) {
      var fields := FieldsOf(o.platform.parse(st.Chain()[n]));
      assert UpToDate(o, Only(keys), st.Chain()[n]);
      forall i | 0 <= i < |fields|
        ensures FieldSound(o, All, fields[i]) == FieldSound(o, Only(keys), fields[i])
        ensures Drifts(o, All, fields[i]) == Drifts(o, Only(keys), fields[i])
      {
        if SourceOf(fields[i]).Owned? {
          assert SourceOf(fields[i]).source.Key() in SeenSources(o, st.Chain());
        }
      }
    }
    AllLocksIsAll(o, keys, st.Chain()[LOCKS_FILE]);
  }

  lemma AllLocksIsAll(o: Owners, keys: set<string>, text: string)
    requires o.ids <= keys && LocksUpToDate(o, Only(keys), text)
    ensures LocksUpToDate(o, All, text)
  {
    hide IsLocks;
    var ids := IdsOf(FieldsOf(o.platform.parse(text)));
    forall i | 0 <= i < |ids|
      ensures LockSound(o, All, ids[i]) && LockDrifts(o, All, ids[i]) == LockDrifts(o, Only(keys), ids[i])
    {
      assert ids[i].key in KeysOf(ids);
    }
  }
}
