/** Whole runs of the lock writer: refinement to a pointwise effect, confluence, resumption, check. */
module RunTheorems {
  import opened Base
  import opened Json
  import opened Listing
  import opened ReferenceSelection
  import opened EvidenceFields
  import opened FieldTheorems
  import opened FixtureTheorems
  import opened Repository
  import opened EvidenceLocks
  import opened Printing
  import opened StepTheorems
  import opened LockFileTheorems

  /** The whole chain after settling the named fixtures. */
  function SettledChain(o: Owners, sel: Selection, chain: map<string, string>, names: set<string>)
    : map<string, string>
  {
    map n | n in chain :: if n in names then Settled(o, sel, chain[n]) else chain[n]
  }

  /** A pass visits fixtures one by one, yet each ends as if it had been the only one. */
  lemma {:induction false} PassIsPointwise(step: (string, string) -> Step, chain: map<string, string>,
                                           names: seq<string>)
    requires NoRepeats(names) && forall n :: n in names ==> n in chain
    ensures var pass := FixturePass(step, chain, names);
            && pass.chain.Keys == chain.Keys
            && (pass.ok <==> forall n :: n in names ==> step(n, chain[n]).Done?)
            && (pass.ok ==> forall n :: n in chain ==>
                  pass.chain[n] == if n in names then step(n, chain[n]).text else chain[n])
            && (pass.ok ==> (pass.changes == [] <==> forall n :: n in names ==> step(n, chain[n]).changes == []))
    decreases |names|
  {
    if names != [] {
      var n := names[0];
      assert names == [n] + names[1..];
      match step(n, chain[n]) {
        case Throws =>
        case Done(text, _) =>
          PassIsPointwise(step, chain[n := text], names[1..]);
      }
    }
  }

  lemma EntryStored(p: Platform, entry: Json, key: string)
    requires p.Faithful()
    ensures forall v :: Property(p.Stored(entry), key) == Some(Str(v)) <==> Property(entry, key) == Some(Str(v))
    ensures (Property(p.Stored(entry), key).Some? && Property(p.Stored(entry), key).value.Str?) ==
            (Property(entry, key).Some? && Property(entry, key).value.Str?)
  {
    hide Platform.Faithful, Platform.Stored, Find;
    StoredKeepsKind(p, entry);
    if entry.Obj? {
      FindStored(p, entry.fields, key);
      PropertyStored(p, Find(entry.fields, key));
    }
  }

  lemma {:induction false} TableStored(p: Platform, entries: seq<Json>, after: seq<Json>)
    requires p.Faithful() && |after| == |entries| && forall i :: 0 <= i < |entries| ==> after[i] == p.Stored(entries[i])
    ensures DescriptorTable(after) == DescriptorTable(entries)
  {
    hide Platform.Faithful, Platform.Stored, Property;
    if entries != [] {
      var n := |entries| - 1;
      TableStored(p, entries[..n], after[..n]);
      EntryStored(p, entries[n], "id");
      EntryStored(p, entries[n], "path");
    }
  }

  lemma DescriptorsStored(p: Platform, fields: seq<Field>)
    requires p.Faithful()
    ensures match (Find(fields, "evidenceInputs"), Find(p.StoredFields(fields), "evidenceInputs"))
            case (Some(Arr(a)), Some(Arr(b))) => DescriptorTable(b) == DescriptorTable(a)
            case (Some(Arr(_)), _) => false
            case (_, Some(Arr(_))) => false
            case _ => true
  {
    hide Platform.Faithful, Find, DescriptorTable;
    FindStored(p, fields, "evidenceInputs");
    var v := Find(fields, "evidenceInputs");
    if v.Some? {
      StoredKeepsKind(p, v.value);
      if v.value.Arr? {
        TableStored(p, v.value.items, p.Stored(v.value).items);
      }
    }
  }

  /** Nothing in the descriptor table depends on the identities a run rewrites. */
  lemma SettledKeepsDescriptors(o: Owners, sel: Selection, text: string)
    requires o.platform.Faithful() && Readable(o.platform, text)
    ensures Descriptors(o.platform, Settled(o, sel, text)) == Descriptors(o.platform, text)
  {
    hide Platform.Faithful, Settled, SomeFieldDrifts, Rewrite, Find, DescriptorTable, Platform.StoredFields;
    var fields := FieldsOf(o.platform.parse(text));
    SettledReads(o, sel, text);
    UntouchedField(o, sel, fields, "evidenceInputs");
    DescriptorsStored(o.platform, Rewrite(o, sel, fields));
  }

  lemma SettledKeepsSources(o: Owners, sel: Selection, text: string)
    requires o.platform.Faithful() && Readable(o.platform, text)
    ensures var before, after := FieldsOf(o.platform.parse(text)), FieldsOf(o.platform.parse(Settled(o, sel, text)));
            |before| == |after| && forall i :: 0 <= i < |before| ==> SourceOf(after[i]) == SourceOf(before[i])
  {
    hide Platform.Faithful, Platform.Stored, Settled, SourceOf, RewriteField;
    SettledReads(o, sel, text);
    var fields := FieldsOf(o.platform.parse(text));
    var written := Rewrite(o, sel, fields);
    var printed := o.platform.StoredFields(written);
    forall i | 0 <= i < |fields|
      ensures SourceOf(written[i]) == SourceOf(fields[i]) && SourceOf(printed[i]) == SourceOf(written[i])
    {
      RewriteFieldSettles(o, sel, sel, NewScheduleKey(o, sel, fields), fields[i]);
      assert printed[i] == StoredField(o.platform, written[i]);
      SourceStored(o.platform, written[i]);
    }
  }

  /** The state a run of the selected sources settles to. */
  function Settle(o: Owners, sel: Selection, st: State): State {
    var chain := SettledChain(o, sel, st.Chain(), FixtureNames(st.Chain()));
    st.WithChain(if LOCKS_FILE in chain then chain[LOCKS_FILE := LocksSettled(o, sel, chain[LOCKS_FILE])] else chain)
  }

  /** Every file of the chain can be handled for the selection. */
  predicate Manageable(o: Owners, sel: Selection, st: State) {
    && (forall n :: n in FixtureNames(st.Chain()) ==> StepOk(o, sel, st.historical, n, st.Chain()[n]))
    && LOCKS_FILE in st.Chain() && LocksOk(o, sel, st.Chain()[LOCKS_FILE])
  }

  /** A write pass over given fixtures, in the terms of the single fixtures. */
  lemma WritePassSettles(o: Owners, sel: Selection, historical: map<string, string>, chain: map<string, string>,
                         names: seq<string>)
    requires o.platform.Faithful() && NoRepeats(names) && forall n :: n in names ==> n in chain
    ensures var pass := FixturePass(Stepper(o, Write, sel, historical), chain, names);
            && (pass.ok <==> forall n :: n in names ==> StepOk(o, sel, historical, n, chain[n]))
            && pass.chain.Keys == chain.Keys
            && (pass.ok ==> forall n :: n in chain ==>
                  pass.chain[n] == if n in names then Settled(o, sel, chain[n]) else chain[n])
  {
    hide FixtureStep, Settled;
    var step := Stepper(o, Write, sel, historical);
    PassIsPointwise(step, chain, names);
    forall n | n in names
      ensures step(n, chain[n]).Done? == StepOk(o, sel, historical, n, chain[n])
      ensures step(n, chain[n]).Done? ==> step(n, chain[n]).text == Settled(o, sel, chain[n])
    {
      GuardJudgesTheInput(o, sel, historical, n, chain[n]);
    }
  }

  lemma LocksAreNoFixture(chain: map<string, string>)
    ensures LOCKS_FILE !in FixtureNames(chain)
  {
  }

  lemma PreludeMeans(p: Platform, st: State)
    ensures Prelude(p, st).Some? ==> Prelude(p, st).value.platform == p && st.version in st.chains
  {
  }

  lemma FinishSettles(o: Owners, key: string, known: bool, st: State, pass: Pass)
    ensures var report := Finish(o, Write, Some(key), known, st, pass);
            && (report.verdict == Clean <==>
                pass.ok && known && LOCKS_FILE in pass.chain && LocksOk(o, Only({key}), pass.chain[LOCKS_FILE]))
            && (report.verdict == Clean ==>
                  var settled := LocksSettled(o, Only({key}), pass.chain[LOCKS_FILE]);
                  report.state == st.WithChain(pass.chain[LOCKS_FILE := settled]))
  {
    hide LocksStep, LocksOk, LocksSettled;
    if LOCKS_FILE in pass.chain {
      LocksStepMeans(o, Only({key}), pass.chain[LOCKS_FILE]);
    }
  }

  lemma PassIsSettled(o: Owners, sel: Selection, st: State, pass: Pass)
    requires pass.chain.Keys == st.Chain().Keys && LOCKS_FILE in pass.chain
    requires forall n :: n in st.Chain() ==>
               pass.chain[n] == if n in FixtureNames(st.Chain()) then Settled(o, sel, st.Chain()[n]) else st.Chain()[n]
    ensures st.WithChain(pass.chain[LOCKS_FILE := LocksSettled(o, sel, pass.chain[LOCKS_FILE])]) == Settle(o, sel, st)
    ensures pass.chain[LOCKS_FILE] == st.Chain()[LOCKS_FILE]
  {
    hide Settled, LocksSettled;
    LocksAreNoFixture(st.Chain());
    assert pass.chain == SettledChain(o, sel, st.Chain(), FixtureNames(st.Chain()));
  }

  lemma NamesAreChained(chain: map<string, string>)
    ensures NoRepeats(Sorted(FixtureNames(chain)))
    ensures forall n :: n in FixtureNames(chain) ==> n in chain
  {
    hide IsFixtureName;
    SortedIsAscending(FixtureNames(chain));
    AscendingHasNoDuplicates(Sorted(FixtureNames(chain)));
  }

  /** A write run succeeds exactly on a known source and manageable files, and then settles the chain. */
  lemma WriteSettles(p: Platform, key: string, st: State)
    requires p.Faithful()
    ensures var run := Run(p, Write, Some(key), st);
            && (run.verdict == Clean <==>
                Prelude(p, st).Some? && Manageable(Prelude(p, st).value, Only({key}), st)
                && key in SeenSources(Prelude(p, st).value, st.Chain()))
            && (run.verdict == Clean ==> run.state == Settle(Prelude(p, st).value, Only({key}), st))
  {
    hide FixtureNames, FixturePass, Finish, LocksOk, SeenSources, Prelude, StepOk, Settle, Stepper, NoRepeats,
         Platform.Faithful, Settled, LocksSettled;
    PreludeMeans(p, st);
    if Prelude(p, st).Some? {
      var o, sel := Prelude(p, st).value, Only({key});
      var names := Sorted(FixtureNames(st.Chain()));
      NamesAreChained(st.Chain());
      WritePassSettles(o, sel, st.historical, st.Chain(), names);
      var pass := FixturePass(Stepper(o, Write, sel, st.historical), st.Chain(), names);
      FinishSettles(o, key, Known(o, Some(key), st), st, pass);
      if pass.ok && LOCKS_FILE in pass.chain {
        PassIsSettled(o, sel, st, pass);
      }
    }
  }
}
