/** Runs that stop half-way, runs that must not write, and what every run preserves. */
module Resumption {
  import opened Base
  import opened Json
  import opened Listing
  import opened ReferenceSelection
  import opened EvidenceFields
  import opened Repository
  import opened EvidenceLocks
  import opened StepTheorems
  import opened LockFileTheorems
  import opened RunTheorems
  import opened Confluence
  import opened Maintenance

  ghost function Names(st: State): (names: seq<string>)
    ensures forall n :: n in names ==> n in st.Chain()
  {
    Sorted(FixtureNames(st.Chain()))
  }

  /** The chain once a write run of a source has handled its first k fixtures. */
  ghost function Handled(p: Platform, key: string, st: State, k: nat): Pass
    requires Prelude(p, st).Some? && k <= |Names(st)|
  {
    assert forall n :: n in Names(st)[..k] ==> n in Names(st);
    FixturePass(Stepper(Prelude(p, st).value, Write, Only({key}), st.historical), st.Chain(), Names(st)[..k])
  }

  lemma {:induction false} PassSplits(step: (string, string) -> Step, chain: map<string, string>, a: seq<string>,
                                      b: seq<string>)
    requires forall n :: n in a + b ==> n in chain
    requires FixturePass(step, chain, a).ok
    ensures FixturePass(step, chain, a).chain.Keys == chain.Keys
    ensures FixturePass(step, chain, a + b).ok == FixturePass(step, FixturePass(step, chain, a).chain, b).ok
    ensures FixturePass(step, chain, a + b).chain == FixturePass(step, FixturePass(step, chain, a).chain, b).chain
    decreases |a|
  {
    if a == [] {
      assert a + b == b;
    } else {
      assert (a + b)[1..] == a[1..] + b && a == [a[0]] + a[1..];
      PassSplits(step, chain[a[0] := step(a[0], chain[a[0]]).text], a[1..], b);
    }
  }

  lemma NamesAreUnique(st: State)
    ensures NoRepeats(Names(st)) && forall n :: n in Names(st) <==> n in FixtureNames(st.Chain())
    ensures Elements(Names(st)) == FixtureNames(st.Chain())
  {
    SortedIsAscending(FixtureNames(st.Chain()));
    AscendingHasNoDuplicates(Names(st));
  }

  lemma PrefixIsUnique(names: seq<string>, k: nat)
    requires NoRepeats(names) && k <= |names|
    ensures NoRepeats(names[..k]) && names[..k] + names[k..] == names
    ensures forall n :: n in names[..k] ==> n in names
  {
  }

  /** Between two file writes every fixture is either untouched or fully rewritten. */
  lemma InterruptedFilesAreWhole(p: Platform, key: string, st: State, k: nat)
    requires p.Faithful() && Prelude(p, st).Some? && k <= |Names(st)| && Handled(p, key, st, k).ok
    ensures forall n :: n in st.Chain() ==>
              n in Handled(p, key, st, k).chain
              && Handled(p, key, st, k).chain[n] ==
                 if n in Names(st)[..k] then Settled(Prelude(p, st).value, Only({key}), st.Chain()[n])
                 else st.Chain()[n]
    ensures PartlySettled(Prelude(p, st).value, Only({key}), st, Handled(p, key, st, k).chain)
  {
    hide FixtureStep, Settled, IsFixtureName, Prelude;
    PreludeMeans(p, st);
    NamesAreUnique(st);
    PrefixIsUnique(Names(st), k);
    WritePassSettles(Prelude(p, st).value, Only({key}), st.historical, st.Chain(), Names(st)[..k]);
  }

  /** Handling the first k fixtures again changes nothing. */
  lemma HandledAgain(p: Platform, key: string, st: State, k: nat)
    requires p.Faithful() && Prelude(p, st).Some? && k <= |Names(st)| && Handled(p, key, st, k).ok
    ensures var step := Stepper(Prelude(p, st).value, Write, Only({key}), st.historical);
            var cut := Handled(p, key, st, k).chain;
            && (forall n :: n in Names(st)[..k] ==> n in cut)
            && FixturePass(step, cut, Names(st)[..k]).ok && FixturePass(step, cut, Names(st)[..k]).chain == cut
  {
    hide FixtureStep, Settled, IsFixtureName, Prelude, UpToDate;
    PreludeMeans(p, st);
    var o, sel := Prelude(p, st).value, Only({key});
    var step := Stepper(o, Write, sel, st.historical);
    var names := Names(st)[..k];
    NamesAreUnique(st);
    PrefixIsUnique(Names(st), k);
    InterruptedFilesAreWhole(p, key, st, k);
    WritePassSettles(o, sel, st.historical, st.Chain(), names);
    var cut := Handled(p, key, st, k).chain;
    forall n | n in names ensures step(n, cut[n]) == Done(cut[n], []) {
      SettledTextIsUpToDate(o, sel, st.historical, n, st.Chain()[n]);
      WriteStepMeans(o, sel, st.historical, n, cut[n]);
    }
    PassIsPointwise(step, cut, names);
    PassStops(step, cut, names);
  }

  /** Resumption: rerunning an interrupted write ends exactly where the uninterrupted run does. */
  lemma RerunCompletes(p: Platform, key: string, st: State, k: nat)
    requires p.Faithful() && Prelude(p, st).Some? && k <= |Names(st)| && Handled(p, key, st, k).ok
    ensures var cut := st.WithChain(Handled(p, key, st, k).chain);
            && Run(p, Write, Some(key), cut).state == Run(p, Write, Some(key), st).state
            && Run(p, Write, Some(key), cut).verdict == Run(p, Write, Some(key), st).verdict
  {
    hide FixtureStep, FixturePass, Settled, IsFixtureName, Prelude, SeenSources, StepOk, Finish, Stepper, Handled;
    var cut := st.WithChain(Handled(p, key, st, k).chain);
    var o, sel := Prelude(p, st).value, Only({key});
    PreludeMeans(p, st);
    InterruptedFilesAreWhole(p, key, st, k);
    RunKeepsPrelude(p, sel, st, cut.Chain());
    RunKeepsSources(o, sel, st, cut.Chain());
    SamePass(p, key, st, cut, k);
    var step := Stepper(o, Write, sel, st.historical);
    FinishDependsOnChain(o, Some(key), Known(o, Some(key), st), st, cut,
                         FixturePass(step, st.Chain(), Names(st)), FixturePass(step, cut.Chain(), Names(st)));
  }

  lemma SamePass(p: Platform, key: string, st: State, cut: State, k: nat)
    requires p.Faithful() && Prelude(p, st).Some? && k <= |Names(st)| && Handled(p, key, st, k).ok
    requires cut == st.WithChain(Handled(p, key, st, k).chain) && cut.Chain().Keys == st.Chain().Keys
    ensures Names(cut) == Names(st)
    ensures var step := Stepper(Prelude(p, st).value, Write, Only({key}), st.historical);
            var again, once := FixturePass(step, cut.Chain(), Names(st)), FixturePass(step, st.Chain(), Names(st));
            again.ok == once.ok && again.chain == once.chain
  {
    hide FixtureStep, IsFixtureName, Prelude, Stepper;
    var step := Stepper(Prelude(p, st).value, Write, Only({key}), st.historical);
    var names := Names(st);
    assert FixtureNames(cut.Chain()) == FixtureNames(st.Chain());
    NamesAreUnique(st);
    PrefixIsUnique(names, k);
    HandledAgain(p, key, st, k);
    PassSplits(step, st.Chain(), names[..k], names[k..]);
    PassSplits(step, cut.Chain(), names[..k], names[k..]);
  }

  lemma FinishDependsOnChain(o: Owners, source: Option<string>, known: bool, st: State, st': State, a: Pass, b: Pass)
    requires a.ok == b.ok && a.chain == b.chain && st' == st.WithChain(st'.Chain())
    ensures Finish(o, Write, source, known, st, a).state == Finish(o, Write, source, known, st', b).state
    ensures Finish(o, Write, source, known, st, a).verdict == Finish(o, Write, source, known, st', b).verdict
  {
    hide LocksStep;
    assert forall c :: st.WithChain(c) == st'.WithChain(c);
  }

  /** Neither a check nor a write of an unknown source changes anything. */
  lemma UnknownSourceWritesNothing(p: Platform, mode: Mode, key: string, st: State)
    requires p.Faithful()
    requires Prelude(p, st).Some? ==> key !in SeenSources(Prelude(p, st).value, st.Chain())
    ensures Run(p, mode, Some(key), st).state == st && Run(p, mode, Some(key), st).verdict == Threw
  {
    hide FixtureStep, FixturePass, SeenSources, Prelude, FixtureNames, Finish, Platform.Faithful;
    PreludeMeans(p, st);
    if Prelude(p, st).Some? {
      var o := Prelude(p, st).value;
      var step := Stepper(o, mode, Only({key}), st.historical);
      NamesAreUnique(st);
      forall n | n in Names(st) && step(n, st.Chain()[n]).Done? ensures step(n, st.Chain()[n]).text == st.Chain()[n] {
        UnseenSourceKeepsText(o, mode, key, st, n);
      }
      PassStops(step, st.Chain(), Names(st));
      UnknownFinish(o, mode, key, st, FixturePass(step, st.Chain(), Names(st)));
    }
  }

  lemma UnknownFinish(o: Owners, mode: Mode, key: string, st: State, pass: Pass)
    requires st.version in st.chains && pass.chain == st.Chain() && key !in SeenSources(o, st.Chain())
    ensures Finish(o, mode, Some(key), false, st, pass).state == st
    ensures Finish(o, mode, Some(key), false, st, pass).verdict == Threw
  {
    hide LocksStep, SeenSources;
    var chain := st.Chain();
    assert st.WithChain(chain) == st;
    if LOCKS_FILE in chain {
      UnseenSourceKeepsLocks(o, mode, key, st);
      assert chain[LOCKS_FILE := chain[LOCKS_FILE]] == chain;
    }
  }

  lemma UnseenSourceKeepsText(o: Owners, mode: Mode, key: string, st: State, n: string)
    requires n in FixtureNames(st.Chain()) && key !in SeenSources(o, st.Chain())
    ensures var step := FixtureStep(o, mode, Only({key}), st.historical, n, st.Chain()[n]);
            step.Done? ==> step.text == st.Chain()[n]
  {
    hide SourceOf, IsFixtureName;
    var fields := FieldsOf(o.platform.parse(st.Chain()[n]));
    forall i | 0 <= i < |fields| ensures !Drifts(o, Only({key}), fields[i]) {
      if SourceOf(fields[i]).Owned? {
        assert SourceOf(fields[i]).source.Key() in SeenSources(o, st.Chain());
      }
    }
  }

  lemma UnseenSourceKeepsLocks(o: Owners, mode: Mode, key: string, st: State)
    requires LOCKS_FILE in st.Chain() && key !in SeenSources(o, st.Chain())
    ensures var step := LocksStep(o, mode, Only({key}), st.Chain()[LOCKS_FILE]);
            step.Done? ==> step.text == st.Chain()[LOCKS_FILE]
  {
    hide IsLocks, SourceOf, IsFixtureName;
    var text := st.Chain()[LOCKS_FILE];
    if LocksOk(o, Only({key}), text) {
      var ids := IdsOf(FieldsOf(o.platform.parse(text)));
      forall i | 0 <= i < |ids| ensures !LockDrifts(o, Only({key}), ids[i]) {
        assert ids[i].key in KeysOf(ids);
      }
    }
  }

  /** What holds of each fixture and is kept by each step holds after any run, finished or not. */
  lemma {:induction false} PassPreserves(step: (string, string) -> Step, chain: map<string, string>,
                                         names: seq<string>, inv: (string, string) -> bool)
    requires forall n :: n in names ==> n in chain
    requires forall n :: n in chain ==> inv(n, chain[n])
    requires forall n, t :: n in names && inv(n, t) && step(n, t).Done? ==> inv(n, step(n, t).text)
    ensures FixturePass(step, chain, names).chain.Keys == chain.Keys
    ensures forall n :: n in chain ==> inv(n, FixturePass(step, chain, names).chain[n])
    decreases |names|
  {
    if names != [] {
      assert names == [names[0]] + names[1..];
      match step(names[0], chain[names[0]]) {
        case Throws =>
        case Done(text, _) =>
          PassPreserves(step, chain[names[0] := text], names[1..], inv);
      }
    }
  }

  lemma FinishFrame(o: Owners, mode: Mode, source: Option<string>, known: bool, st: State, pass: Pass)
    requires st.version in st.chains && pass.chain.Keys == st.Chain().Keys
    ensures var after := Finish(o, mode, source, known, st, pass).state;
            && after == st.WithChain(after.Chain()) && after.Chain().Keys == st.Chain().Keys
            && forall n :: n in st.Chain() && n != LOCKS_FILE ==> after.Chain()[n] == pass.chain[n]
  {
    hide LocksStep;
  }

  /** Every run keeps the rest of the repository and the set of files of the selected chain. */
  lemma RunFrame(p: Platform, mode: Mode, source: Option<string>, st: State)
    ensures var after := Run(p, mode, source, st).state;
            && after == st.(chains := after.chains) && after.chains.Keys == st.chains.Keys
            && (forall v :: v in st.chains && v != st.version ==> after.chains[v] == st.chains[v])
            && after.Chain().Keys == st.Chain().Keys
  {
    hide FixtureStep, FixturePass, LocksStep, SeenSources, Prelude, FixtureNames, Stepper, Finish;
    PreludeMeans(p, st);
    if Prelude(p, st).Some? {
      var o := Prelude(p, st).value;
      var step := Stepper(o, mode, SelectionOf(source), st.historical);
      PassPreserves(step, st.Chain(), Names(st), (n, t) => true);
      FinishFrame(o, mode, source, Known(o, source, st), st, FixturePass(step, st.Chain(), Names(st)));
    }
  }
}
