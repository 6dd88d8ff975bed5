/** Sequences of write runs: order and repetition do not matter, and writing everything leaves no drift. */
module Confluence {
  import opened Base
  import opened Json
  import opened Listing
  import opened ReferenceSelection
  import opened EvidenceFields
  import opened FieldTheorems
  import opened Repository
  import opened EvidenceLocks
  import opened Printing
  import opened Meanings
  import opened StepTheorems
  import opened LockFileTheorems
  import opened RunTheorems

  lemma CasesAreAFixture(chain: map<string, string>)
    ensures CASES_FILE in chain ==> CASES_FILE in FixtureNames(chain)
  {
    assert CASES_FILE[12] == 'c' && LOCKS_FILE[12] == 'e';
  }

  lemma SettleKeepsNames(o: Owners, sel: Selection, st: State)
    ensures Settle(o, sel, st).Chain().Keys == st.Chain().Keys
    ensures FixtureNames(Settle(o, sel, st).Chain()) == FixtureNames(st.Chain())
    ensures forall n :: n in FixtureNames(st.Chain()) ==>
              Settle(o, sel, st).Chain()[n] == Settled(o, sel, st.Chain()[n])
    ensures LOCKS_FILE in st.Chain() ==>
              Settle(o, sel, st).Chain()[LOCKS_FILE] == LocksSettled(o, sel, st.Chain()[LOCKS_FILE])
    ensures forall n :: n in st.Chain() && n !in FixtureNames(st.Chain()) && n != LOCKS_FILE ==>
              Settle(o, sel, st).Chain()[n] == st.Chain()[n]
    ensures Settle(o, sel, st) == st.WithChain(Settle(o, sel, st).Chain())
    ensures FixtureNames(st.Chain()) <= st.Chain().Keys
  {
    hide Settled, LocksSettled, IsFixtureName;
    LocksAreNoFixture(st.Chain());
  }

  lemma ChainsReplace(st: State, a: map<string, string>, b: map<string, string>)
    ensures st.WithChain(a).WithChain(b) == st.WithChain(b)
  {
    assert st.chains[st.version := a][st.version := b] == st.chains[st.version := b];
  }

  lemma StepOkIsReadable(o: Owners, sel: Selection, historical: map<string, string>, name: string, text: string)
    ensures StepOk(o, sel, historical, name, text) ==>
              Readable(o.platform, text) && RewriteSound(o, sel, FieldsOf(o.platform.parse(text)))
              && FieldsSound(o, sel, FieldsOf(o.platform.parse(text)))
  {
  }

  /** Some fixtures of a chain have been settled, the others are as they were. */
  predicate PartlySettled(o: Owners, sel: Selection, st: State, chain: map<string, string>) {
    chain.Keys == st.Chain().Keys && forall n :: n in FixtureNames(st.Chain()) ==>
      || chain[n] == st.Chain()[n]
      || (StepOk(o, sel, st.historical, n, st.Chain()[n]) && chain[n] == Settled(o, sel, st.Chain()[n]))
  }

  lemma ManageableSettles(o: Owners, sel: Selection, st: State)
    requires Manageable(o, sel, st)
    ensures PartlySettled(o, sel, st, Settle(o, sel, st).Chain())
  {
    hide Settled, LocksSettled, LocksOk, StepOk, IsFixtureName;
    SettleKeepsNames(o, sel, st);
  }

  /** A run changes neither the descriptor table nor any producer, so later runs compare with the same identities. */
  lemma RunKeepsPrelude(p: Platform, sel: Selection, st: State, chain: map<string, string>)
    requires p.Faithful() && Prelude(p, st).Some? && PartlySettled(Prelude(p, st).value, sel, st, chain)
    ensures Prelude(p, st.WithChain(chain)) == Prelude(p, st)
  {
    hide FixtureStep, Settled, LocksSettled, LocksOk, IsFixtureName, Descriptors, Loader, HistoricalBytesMatch;
    var o := Prelude(p, st).value;
    CasesAreAFixture(st.Chain());
    var text := st.Chain()[CASES_FILE];
    if chain[CASES_FILE] != text {
      StepOkIsReadable(o, sel, st.historical, CASES_FILE, text);
      SettledKeepsDescriptors(o, sel, text);
    }
    HistoricalDependsOnHistory(p, st, st.WithChain(chain));
  }

  lemma HistoricalDependsOnHistory(p: Platform, st: State, st': State)
    requires st.historical == st'.historical
    ensures forall m :: HistoricalBytesMatch(p, st, m) == HistoricalBytesMatch(p, st', m)
  {
  }

  lemma RunKeepsSources(o: Owners, sel: Selection, st: State, chain: map<string, string>)
    requires o.platform.Faithful() && PartlySettled(o, sel, st, chain)
    ensures SeenSources(o, chain) == SeenSources(o, st.Chain())
  {
    hide FixtureStep, Settled, IsFixtureName, SourceOf;
    var before := st.Chain();
    forall n | n in FixtureNames(before)
      ensures var f, g := FieldsOf(o.platform.parse(before[n])), FieldsOf(o.platform.parse(chain[n]));
              |f| == |g| && forall i :: 0 <= i < |f| ==> SourceOf(g[i]) == SourceOf(f[i])
    {
      if chain[n] != before[n] {
        StepOkIsReadable(o, sel, st.historical, n, before[n]);
        SettledKeepsSources(o, sel, before[n]);
      }
    }
  }

  lemma SettleKeepsPrelude(p: Platform, sel: Selection, st: State)
    requires p.Faithful() && Prelude(p, st).Some? && Manageable(Prelude(p, st).value, sel, st)
    ensures Prelude(p, Settle(Prelude(p, st).value, sel, st)) == Prelude(p, st)
    ensures SeenSources(Prelude(p, st).value, Settle(Prelude(p, st).value, sel, st).Chain()) ==
            SeenSources(Prelude(p, st).value, st.Chain())
  {
    hide FixtureStep, Settled, LocksSettled, Prelude, SeenSources, FixtureNames, StepOk;
    var o := Prelude(p, st).value;
    PreludeMeans(p, st);
    ManageableSettles(o, sel, st);
    RunKeepsPrelude(p, sel, st, Settle(o, sel, st).Chain());
    RunKeepsSources(o, sel, st, Settle(o, sel, st).Chain());
  }

  ghost predicate TextComposes(o: Owners, a: Selection, b: Selection, historical: map<string, string>, n: string,
                               text: string)
  {
    && StepOk(o, b, historical, n, Settled(o, a, text)) ==
       (StepOk(o, b, historical, n, text) && !Reopened(o, a, b, text))
    && (StepOk(o, b, historical, n, text) ==>
          && StepOk(o, Union(a, b), historical, n, text)
          && Settled(o, b, Settled(o, a, text)) == Settled(o, Union(a, b), text))
  }

  lemma EachTextComposes(o: Owners, a: Selection, b: Selection, historical: map<string, string>, n: string,
                         text: string)
    requires o.platform.Faithful() && StepOk(o, a, historical, n, text)
    ensures TextComposes(o, a, b, historical, n, text)
  {
    hide StepOk, Settled, Union, Platform.Faithful, Reopened;
    StepOkComposes(o, a, b, historical, n, text);
    if StepOk(o, b, historical, n, text) {
      StepOkIsReadable(o, a, historical, n, text);
      StepOkIsReadable(o, b, historical, n, text);
      SettledComposes(o, a, b, text);
    }
  }

  /** Some fixture has to be written for both selections and does not survive the first printing. */
  predicate SomeReopened(o: Owners, a: Selection, b: Selection, st: State) {
    exists n :: n in FixtureNames(st.Chain()) && Reopened(o, a, b, st.Chain()[n])
  }

  /**
   * A run changes what can be managed only where it printed a number that does not read back, and two
   * runs settle a state exactly like one run of both.
   */
  lemma SettleComposes(o: Owners, a: Selection, b: Selection, st: State)
    requires o.platform.Faithful() && Manageable(o, a, st) && st.version in st.chains
    ensures Manageable(o, b, Settle(o, a, st)) <==> Manageable(o, b, st) && !SomeReopened(o, a, b, st)
    ensures Manageable(o, b, st) ==>
              && Manageable(o, Union(a, b), st)
              && Settle(o, b, Settle(o, a, st)) == Settle(o, Union(a, b), st)
  {
    hide FixtureStep, Settled, LocksSettled, LocksOk, FixtureNames, StepOk, Union, Settle, Platform.Faithful,
         Reopened;
    var mid := Settle(o, a, st);
    SettleKeepsNames(o, a, st);
    SettleKeepsNames(o, b, mid);
    SettleKeepsNames(o, Union(a, b), st);
    forall n | n in FixtureNames(st.Chain())
      ensures n in st.Chain() && TextComposes(o, a, b, st.historical, n, st.Chain()[n])
    {
      EachTextComposes(o, a, b, st.historical, n, st.Chain()[n]);
    }
    LocksSettledComposes(o, a, b, st.Chain()[LOCKS_FILE]);
    if Manageable(o, b, st) {
      var once, twice := Settle(o, Union(a, b), st), Settle(o, b, mid);
      forall n | n in st.Chain() ensures once.Chain()[n] == twice.Chain()[n] {
        if n !in FixtureNames(st.Chain()) && n != LOCKS_FILE {
          assert twice.Chain()[n] == st.Chain()[n] == once.Chain()[n];
        }
      }
      assert once.Chain() == twice.Chain();
      ChainsReplace(st, mid.Chain(), twice.Chain());
    }
  }

  /** Write runs one after another; None as soon as one of them fails. */
  ghost function WriteAll(p: Platform, keys: seq<string>, st: State): Option<State>
    decreases |keys|
  {
    if keys == [] then Some(st)
    else
      var run := Run(p, Write, Some(keys[0]), st);
      if run.verdict == Clean then WriteAll(p, keys[1..], run.state) else None
  }

  predicate Writable(o: Owners, key: string, st: State) {
    Manageable(o, Only({key}), st) && key in SeenSources(o, st.Chain())
  }

  /** The fixture has a field to write for the source. */
  predicate Stale(o: Owners, key: string, text: string) {
    SomeFieldDrifts(o, Only({key}), FieldsOf(o.platform.parse(text)))
  }

  /** No fixture is stale for two of the sources, unless all numbers it keeps print as themselves. */
  predicate Compatible(o: Owners, keys: set<string>, st: State) {
    forall n, k, k' :: n in FixtureNames(st.Chain()) && k in keys && k' in keys && k != k' ==>
      !(Stale(o, k, st.Chain()[n]) && Stale(o, k', st.Chain()[n])) || DurableText(o.platform, st.Chain()[n])
  }

  lemma OneOwner(o: Owners, k: string, k': string, f: Field)
    ensures k != k' ==> !(Drifts(o, Only({k}), f) && Drifts(o, Only({k'}), f))
  {
    hide SourceOf, AsIdentity;
  }

  /** Two runs meet in a fixture exactly when it is stale for two different sources. */
  lemma ReopenedMeans(o: Owners, k: string, k': string, text: string)
    ensures Reopened(o, Only({k}), Only({k'}), text) <==>
            k != k' && Stale(o, k, text) && Stale(o, k', text) && !DurableText(o.platform, text)
  {
    hide Drifts, DurableText, RewriteField;
    var fields := FieldsOf(o.platform.parse(text));
    var a, b := Only({k}), Only({k'});
    var mid := Rewrite(o, a, fields);
    forall i | 0 <= i < |fields| ensures Drifts(o, b, mid[i]) == (Drifts(o, b, fields[i]) && k != k') {
      RewriteFieldSettles(o, a, b, NewScheduleKey(o, a, fields), fields[i]);
      OneOwner(o, k, k', fields[i]);
    }
    if k != k' && Stale(o, k', text) {
      var i :| 0 <= i < |fields| && Drifts(o, b, fields[i]);
      assert Drifts(o, b, mid[i]);
    }
  }

  lemma PrintedIsDurable(p: Platform, fields: seq<Field>)
    requires p.Faithful()
    ensures Durable(p, Obj(p.StoredFields(fields)))
  {
    hide Platform.Faithful, Platform.Stored, ProjectFields, ProjectionThrows, Platform.Exact;
    ProjectFieldsStored(p, fields);
    StoredIsExact(p, Obj(ProjectFields(fields)));
    StoredKeepsKind(p, Obj(ProjectFields(fields)));
  }

  lemma WrittenIsDurable(o: Owners, k: string, text: string)
    requires o.platform.Faithful() && Readable(o.platform, text)
    ensures Stale(o, k, text) ==> DurableText(o.platform, Settled(o, Only({k}), text))
    ensures !Stale(o, k, text) ==> Settled(o, Only({k}), text) == text
  {
    hide Platform.Faithful, SomeFieldDrifts, Rewrite, Platform.StoredFields, Durable;
    var fields := FieldsOf(o.platform.parse(text));
    if Stale(o, k, text) {
      FixtureIsWellFormed(o, Only({k}), text);
      SettledReads(o, Only({k}), text);
      PrintedIsDurable(o.platform, Rewrite(o, Only({k}), fields));
    }
  }

  /** The condition for all sources is the condition for the rest and for the first against each of the rest. */
  lemma CompatibleAfter(o: Owners, k: string, rest: set<string>, st: State)
    requires o.platform.Faithful() && Manageable(o, Only({k}), st)
    ensures Compatible(o, {k} + rest, st) <==>
              && Compatible(o, rest, Settle(o, Only({k}), st))
              && forall m :: m in rest ==> !SomeReopened(o, Only({k}), Only({m}), st)
  {
    hide Platform.Faithful, Stale, DurableText, Settled, Settle, FixtureNames, StepOk, LocksOk, LocksSettled,
         Reopened;
    var mid := Settle(o, Only({k}), st);
    SettleKeepsNames(o, Only({k}), st);
    forall n | n in FixtureNames(st.Chain())
      ensures n in st.Chain()
      ensures Stale(o, k, st.Chain()[n]) ==> DurableText(o.platform, mid.Chain()[n])
      ensures !Stale(o, k, st.Chain()[n]) ==> mid.Chain()[n] == st.Chain()[n]
      ensures forall m :: Reopened(o, Only({k}), Only({m}), st.Chain()[n]) <==>
                k != m && Stale(o, k, st.Chain()[n]) && Stale(o, m, st.Chain()[n])
                && !DurableText(o.platform, st.Chain()[n])
    {
      StepOkIsReadable(o, Only({k}), st.historical, n, st.Chain()[n]);
      WrittenIsDurable(o, k, st.Chain()[n]);
      forall m {
        ReopenedMeans(o, k, m, st.Chain()[n]);
      }
    }
  }

  /**
   * A sequence of runs succeeds exactly when each source is writable at the start and no fixture is
   * printed with a number that does not read back before its last write; it settles the set of sources.
   */
  lemma {:induction false} WriteAllSettles(p: Platform, keys: seq<string>, st: State)
    requires p.Faithful() && keys != []
    ensures WriteAll(p, keys, st).Some? <==>
              && Prelude(p, st).Some? && (forall k :: k in keys ==> Writable(Prelude(p, st).value, k, st))
              && Compatible(Prelude(p, st).value, Elements(keys), st)
    ensures WriteAll(p, keys, st).Some? ==>
            && WriteAll(p, keys, st).value == Settle(Prelude(p, st).value, Only(Elements(keys)), st)
            && Manageable(Prelude(p, st).value, Only(Elements(keys)), st)
    decreases |keys|
  {
    hide Manageable, Settle, SeenSources, Prelude, Run, Compatible, SomeReopened, Platform.Faithful;
    var k := keys[0];
    assert keys == [k] + keys[1..];
    WriteSettles(p, k, st);
    var run := Run(p, Write, Some(k), st);
    if run.verdict != Clean {
      assert k in keys;
    } else {
      var o := Prelude(p, st).value;
      var rest := keys[1..];
      PreludeMeans(p, st);
      SettleKeepsPrelude(p, Only({k}), st);
      assert {k} + Elements(rest) == Elements(keys);
      CompatibleAfter(o, k, Elements(rest), st);
      if rest == [] {
        assert Elements(rest) == {} && Elements(keys) == {k};
        assert Compatible(o, {}, run.state) by {
          NothingIsCompatible(o, run.state);
        }
      } else {
        WriteAllSettles(p, rest, run.state);
        forall m | m in rest
          ensures Writable(o, m, run.state) == (Writable(o, m, st) && !SomeReopened(o, Only({k}), Only({m}), st))
        {
          SettleComposes(o, Only({k}), Only({m}), st);
        }
        if WriteAll(p, keys, st).Some? {
          SettleComposes(o, Only({k}), Only(Elements(rest)), st);
        }
      }
    }
  }

  lemma NothingIsCompatible(o: Owners, st: State)
    ensures Compatible(o, {}, st)
  {
  }

  /**
   * Confluence: two sequences that write the same sources, in any order and with any repetitions,
   * either both fail or both end in one and the same repository.
   */
  lemma WriteOrderIsIrrelevant(p: Platform, keys: seq<string>, keys': seq<string>, st: State)
    requires p.Faithful() && Elements(keys) == Elements(keys')
    ensures WriteAll(p, keys, st) == WriteAll(p, keys', st)
  {
    hide Writable, Settle, Manageable, Prelude, Run, Compatible;
    assert keys == [] <==> Elements(keys) == {} by { assert keys != [] ==> keys[0] in Elements(keys); }
    assert keys' == [] <==> Elements(keys') == {} by { assert keys' != [] ==> keys'[0] in Elements(keys'); }
    if keys != [] {
      WriteAllSettles(p, keys, st);
      WriteAllSettles(p, keys', st);
      assert forall k :: k in keys <==> k in Elements(keys);
      assert forall k :: k in keys' <==> k in Elements(keys');
    }
  }
}
