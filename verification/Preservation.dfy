/** What no run of the lock tool can damage, and exactly when the lock file keeps its meaning. */
module Preservation {
  import opened Base
  import opened Json
  import opened Listing
  import opened ReferenceSelection
  import opened EvidenceFields
  import opened FieldTheorems
  import opened FixtureTheorems
  import opened Repository
  import opened EvidenceLocks
  import opened Printing
  import opened Meanings
  import opened StepTheorems
  import opened LockFileTheorems
  import opened RunTheorems
  import opened Confluence
  import opened Maintenance
  import opened Resumption

  lemma SemanticsMeans(p: Platform, text: string)
    ensures Semantics(p, text) == if p.parse(text).Some? then MeaningAfter(p.parse(text).value) else None
  {
    hide Projection, MeaningOf;
  }

  /** A written fixture keeps its meaning exactly when every number its projection keeps prints as itself. */
  lemma WrittenKeepsMeaning(o: Owners, sel: Selection, fields: seq<Field>)
    requires o.platform.Faithful() && WellFormed(Obj(fields)) && RewriteSound(o, sel, fields)
    ensures o.platform.parse(o.platform.render(Obj(Rewrite(o, sel, fields)))).Some?
    ensures var after := o.platform.parse(o.platform.render(Obj(Rewrite(o, sel, fields)))).value;
            MeaningAfter(after) == MeaningAfter(Obj(fields)) <==> Durable(o.platform, Obj(fields))
  {
    hide Projection, Rewrite, RewriteSound, MeaningOf, Platform.Exact, Platform.StoredFields;
    WellFormedIsDistinct(fields);
    RewriteKeepsProjection(o, sel, fields);
    RewriteKeepsWellFormed(o, sel, fields);
    PrintedMeaning(o.platform, Rewrite(o, sel, fields));
    StoredKeepsKind(o.platform, Obj(Rewrite(o, sel, fields)));
  }

  /** A step keeps the meaning of a fixture exactly when it leaves the file alone or the fixture is durable. */
  lemma StepKeepsSemantics(o: Owners, mode: Mode, sel: Selection, historical: map<string, string>, name: string,
                           text: string)
    requires o.platform.Faithful()
    ensures var step := FixtureStep(o, mode, sel, historical, name, text);
            step.Done? ==>
              (Semantics(o.platform, step.text) == Semantics(o.platform, text) <==>
               step.text == text || DurableText(o.platform, text))
  {
    hide Platform.Faithful, Rewrite, RewriteSound, FieldsSound, SomeFieldDrifts, Aligned, Semantics, Durable,
         FieldChanges, MeaningAfter;
    var p := o.platform;
    var step := FixtureStep(o, mode, sel, historical, name, text);
    if step.Done? && step.text != text {
      var fields := FieldsOf(p.parse(text));
      ParsedIsWellFormed(p, text);
      WrittenKeepsMeaning(o, sel, fields);
      SemanticsMeans(p, text);
      SemanticsMeans(p, step.text);
    }
  }

  lemma ParsedIsWellFormed(p: Platform, text: string)
    requires p.Faithful()
    ensures p.parse(text).Some? ==> WellFormed(p.parse(text).value)
  {
  }

  predicate TextCoupled(p: Platform, text: string) {
    Coupled(FieldsOf(p.parse(text)))
  }

  lemma StepKeepsCoupling(o: Owners, mode: Mode, sel: Selection, historical: map<string, string>, name: string,
                          text: string)
    requires o.platform.Faithful() && TextCoupled(o.platform, text)
    ensures var step := FixtureStep(o, mode, sel, historical, name, text);
            step.Done? ==> TextCoupled(o.platform, step.text)
  {
    hide Coupled, Rewrite, RewriteSound, FieldsSound, SomeFieldDrifts, Aligned, FieldChanges, Platform.StoredFields;
    var step := FixtureStep(o, mode, sel, historical, name, text);
    if step.Done? && step.text != text {
      var fields := FieldsOf(o.platform.parse(text));
      RewriteCouples(o, sel, fields);
      RewriteKeepsWellFormed(o, sel, fields);
      StoredKeepsKind(o.platform, Obj(Rewrite(o, sel, fields)));
      CouplingStored(o.platform, Rewrite(o, sel, fields));
    }
  }

  // ----- which fixtures a run rewrites, as far as it gets

  /** A pass gets past the i-th file. */
  predicate DoneThrough(step: (string, string) -> Step, chain: map<string, string>, names: seq<string>, i: nat)
    requires i < |names| && forall n :: n in names ==> n in chain
  {
    forall j :: 0 <= j <= i ==> step(names[j], chain[names[j]]).Done?
  }

  /** However far a pass gets, a file it got past is as its own step leaves it, and the others are as they were. */
  lemma {:induction false} PassReaches(step: (string, string) -> Step, chain: map<string, string>,
                                       names: seq<string>)
    requires NoRepeats(names) && forall n :: n in names ==> n in chain
    ensures var after := FixturePass(step, chain, names).chain;
            && after.Keys == chain.Keys && (forall n :: n in chain && n !in names ==> after[n] == chain[n])
            && forall i :: 0 <= i < |names| ==>
                 after[names[i]] == if DoneThrough(step, chain, names, i) then step(names[i], chain[names[i]]).text
                                    else chain[names[i]]
    decreases |names|
  {
    hide DoneThrough;
    if names != [] {
      var n, rest := names[0], names[1..];
      assert names == [n] + rest;
      forall i | 0 <= i < |names| ensures DoneThrough(step, chain, names, i) ==> step(n, chain[n]).Done? {
        ReachesFirst(step, chain, names, i);
      }
      match step(n, chain[n]) {
        case Throws =>
        case Done(text, _) =>
          var next := chain[n := text];
          PassReaches(step, next, rest);
          ReachesFirst(step, chain, names, 0);
          forall i | 0 < i < |names|
            ensures names[i] == rest[i - 1] && chain[names[i]] == next[rest[i - 1]]
            ensures DoneThrough(step, chain, names, i) <==> DoneThrough(step, next, rest, i - 1)
          {
            ReachesOneMore(step, chain, names, i - 1);
          }
      }
    }
  }

  lemma ReachesFirst(step: (string, string) -> Step, chain: map<string, string>, names: seq<string>, i: nat)
    requires i < |names| && forall n :: n in names ==> n in chain
    ensures DoneThrough(step, chain, names, i) ==> step(names[0], chain[names[0]]).Done?
    ensures i == 0 && step(names[0], chain[names[0]]).Done? ==> DoneThrough(step, chain, names, i)
  {
  }

  lemma ReachesOneMore(step: (string, string) -> Step, chain: map<string, string>, names: seq<string>, i: nat)
    requires i + 1 < |names| && NoRepeats(names) && forall n :: n in names ==> n in chain
    requires step(names[0], chain[names[0]]).Done?
    ensures var next := chain[names[0] := step(names[0], chain[names[0]]).text];
            && (forall n :: n in names[1..] ==> n in next)
            && (DoneThrough(step, chain, names, i + 1) <==> DoneThrough(step, next, names[1..], i))
  {
    var next := chain[names[0] := step(names[0], chain[names[0]]).text];
    if DoneThrough(step, next, names[1..], i) {
      forall j | 0 <= j <= i + 1 ensures step(names[j], chain[names[j]]).Done? {
        assert j > 0 ==> step(names[1..][j - 1], next[names[1..][j - 1]]).Done?;
      }
    }
  }

  /** No fixture up to this one, in the order of the pass, stops a write. */
  predicate Reached(o: Owners, sel: Selection, st: State, n: string) {
    forall m :: m in FixtureNames(st.Chain()) && (m == n || Before(m, n)) ==>
      StepOk(o, sel, st.historical, m, st.Chain()[m])
  }

  /** A write has something to change in the fixture and gets that far: known before it starts. */
  predicate Rewritten(o: Owners, sel: Selection, st: State, n: string) {
    n in FixtureNames(st.Chain()) && Reached(o, sel, st, n)
    && SomeFieldDrifts(o, sel, FieldsOf(o.platform.parse(st.Chain()[n])))
  }

  /** A run changes the fixture. */
  predicate Rewrites(p: Platform, mode: Mode, source: Option<string>, st: State, n: string) {
    mode.Write? && Prelude(p, st).Some? && Rewritten(Prelude(p, st).value, SelectionOf(source), st, n)
  }

  lemma NamesAreOrdered(st: State, m: string, i: nat)
    requires i < |Names(st)| && m in FixtureNames(st.Chain())
    ensures m == Names(st)[i] || Before(m, Names(st)[i]) <==> exists j :: 0 <= j <= i && Names(st)[j] == m
  {
    hide FixtureNames;
    var names := Names(st);
    SortedIsAscending(FixtureNames(st.Chain()));
    var j :| 0 <= j < |names| && names[j] == m;
    BeforeIsStrictOrder(m, names[i], m);
  }

  lemma ReachedInOrder(o: Owners, sel: Selection, st: State, k: nat, i: nat)
    requires i < k <= |Names(st)|
    ensures DoneThrough(Stepper(o, Write, sel, st.historical), st.Chain(), Names(st)[..k], i) <==>
            Reached(o, sel, st, Names(st)[i])
  {
    hide FixtureStep, FixtureNames, Before;
    var names, step := Names(st), Stepper(o, Write, sel, st.historical);
    if Reached(o, sel, st, names[i]) {
      forall j | 0 <= j <= i ensures step(names[..k][j], st.Chain()[names[..k][j]]).Done? {
        NamesAreOrdered(st, names[j], i);
        assert StepOk(o, sel, st.historical, names[j], st.Chain()[names[j]]);
      }
    }
    if DoneThrough(step, st.Chain(), names[..k], i) {
      forall m | m in FixtureNames(st.Chain()) && (m == names[i] || Before(m, names[i]))
        ensures StepOk(o, sel, st.historical, m, st.Chain()[m])
      {
        NamesAreOrdered(st, m, i);
        var j :| 0 <= j <= i && names[j] == m;
        assert names[..k][j] == m && step(names[..k][j], st.Chain()[names[..k][j]]).Done?;
      }
    }
  }

  /** A written fixture stays the same exactly when nothing drifts, and means the same just then or if it is durable. */
  lemma WrittenStep(o: Owners, sel: Selection, historical: map<string, string>, name: string, text: string)
    requires o.platform.Faithful() && StepOk(o, sel, historical, name, text)
    ensures var step := FixtureStep(o, Write, sel, historical, name, text);
            var drifts := SomeFieldDrifts(o, sel, FieldsOf(o.platform.parse(text)));
            && (step.text == text <==> !drifts)
            && (Semantics(o.platform, step.text) == Semantics(o.platform, text) <==>
                !drifts || DurableText(o.platform, text))
  {
    hide FixtureStep, Platform.Faithful, SomeFieldDrifts, Semantics, DurableText;
    GuardJudgesTheInput(o, sel, historical, name, text);
    StepKeepsSemantics(o, Write, sel, historical, name, text);
    SettledIsSettled(o, sel, text);
  }

  /** How a write that handles the first k fixtures leaves each file. */
  lemma WritePassMeans(o: Owners, sel: Selection, st: State, k: nat)
    requires o.platform.Faithful() && k <= |Names(st)|
    ensures var after := FixturePass(Stepper(o, Write, sel, st.historical), st.Chain(), Names(st)[..k]).chain;
            && after.Keys == st.Chain().Keys
            && forall n :: n in st.Chain() ==>
                 var written := n in Names(st)[..k] && Rewritten(o, sel, st, n);
                 && (after[n] == st.Chain()[n] <==> !written)
                 && (Semantics(o.platform, after[n]) == Semantics(o.platform, st.Chain()[n]) <==>
                     !written || DurableText(o.platform, st.Chain()[n]))
  {
    hide FixtureStep, FixturePass, Platform.Faithful, SomeFieldDrifts, Semantics, DurableText, FixtureNames, Reached,
         DoneThrough, NoRepeats;
    var step, names := Stepper(o, Write, sel, st.historical), Names(st)[..k];
    NamesAreUnique(st);
    PrefixIsUnique(Names(st), k);
    PassReaches(step, st.Chain(), names);
    forall i | 0 <= i < |names|
      ensures DoneThrough(step, st.Chain(), names, i) <==> Reached(o, sel, st, names[i])
      ensures Reached(o, sel, st, names[i]) ==> StepOk(o, sel, st.historical, names[i], st.Chain()[names[i]])
    {
      ReachedInOrder(o, sel, st, k, i);
      ReachedIsOk(o, sel, st, names[i]);
    }
    forall i | 0 <= i < |names| && StepOk(o, sel, st.historical, names[i], st.Chain()[names[i]])
      ensures var text := st.Chain()[names[i]];
              var drifts := SomeFieldDrifts(o, sel, FieldsOf(o.platform.parse(text)));
              && (step(names[i], text).text == text <==> !drifts)
              && (Semantics(o.platform, step(names[i], text).text) == Semantics(o.platform, text) <==>
                  !drifts || DurableText(o.platform, text))
    {
      WrittenStep(o, sel, st.historical, names[i], st.Chain()[names[i]]);
    }
  }

  lemma ReachedIsOk(o: Owners, sel: Selection, st: State, n: string)
    requires n in FixtureNames(st.Chain())
    ensures Reached(o, sel, st, n) ==> StepOk(o, sel, st.historical, n, st.Chain()[n])
  {
  }

  /**
   * Over any run, finished or aborted, the files beside the lock file that change are the stale fixtures
   * of a write up to the first that stops it; a fixture keeps its meaning exactly when it is none of
   * them or every number its semantic projection keeps prints as itself.
   */
  lemma RunKeepsSemantics(p: Platform, mode: Mode, source: Option<string>, st: State)
    requires p.Faithful()
    ensures var after := Run(p, mode, source, st).state;
            && after.Chain().Keys == st.Chain().Keys
            && forall n :: n in st.Chain() && n != LOCKS_FILE ==>
                 && (after.Chain()[n] == st.Chain()[n] <==> !Rewrites(p, mode, source, st, n))
                 && (Semantics(p, after.Chain()[n]) == Semantics(p, st.Chain()[n]) <==>
                     !Rewrites(p, mode, source, st, n) || DurableText(p, st.Chain()[n]))
  {
    hide FixtureStep, FixturePass, Finish, SeenSources, Prelude, FixtureNames, Stepper, Platform.Faithful, Rewritten,
         NoRepeats, Semantics, DurableText;
    PreludeMeans(p, st);
    RunFrame(p, mode, source, st);
    if mode.Check? {
      CheckIsExact(p, source, st);
    } else if Prelude(p, st).Some? {
      var o, sel, names := Prelude(p, st).value, SelectionOf(source), Names(st);
      assert names[..|names|] == names;
      WritePassMeans(o, sel, st, |names|);
      FinishFrame(o, mode, source, Known(o, source, st), st,
                  FixturePass(Stepper(o, mode, sel, st.historical), st.Chain(), names));
      forall n | Rewritten(o, sel, st, n) ensures n in names {
        RewrittenIsFixture(o, sel, st, n);
      }
    }
  }

  lemma RewrittenIsFixture(o: Owners, sel: Selection, st: State, n: string)
    requires Rewritten(o, sel, st, n)
    ensures n in FixtureNames(st.Chain()) && n in st.Chain() && n in Names(st) && n != LOCKS_FILE
  {
    hide Reached, SomeFieldDrifts;
    NamesAreUnique(st);
  }

  /**
   * A successful write rewrites exactly the fixtures that are stale for its source, so a fixture keeps
   * its meaning exactly when it is not stale or every number its projection keeps prints as itself.
   */
  lemma CleanWriteKeepsSemantics(p: Platform, key: string, st: State, n: string)
    requires p.Faithful() && Run(p, Write, Some(key), st).verdict == Clean && n in FixtureNames(st.Chain())
    ensures Prelude(p, st).Some? && n in Run(p, Write, Some(key), st).state.Chain()
    ensures var after, o := Run(p, Write, Some(key), st).state.Chain(), Prelude(p, st).value;
            && (after[n] == st.Chain()[n] <==> !Stale(o, key, st.Chain()[n]))
            && (Semantics(p, after[n]) == Semantics(p, st.Chain()[n]) <==>
                !Stale(o, key, st.Chain()[n]) || DurableText(p, st.Chain()[n]))
  {
    hide Run, Prelude, SeenSources, StepOk, Settle, SomeFieldDrifts, Platform.Faithful, Semantics, DurableText,
         IsFixtureName;
    PreludeMeans(p, st);
    LocksAreNoFixture(st.Chain());
    WriteSettles(p, key, st);
    RunKeepsSemantics(p, Write, Some(key), st);
    assert Reached(Prelude(p, st).value, Only({key}), st, n);
  }

  /** Minus zero, for instance, does not print as itself. */
  lemma NegativeZeroIsNotDurable(p: Platform, fields: seq<Field>, i: nat)
    requires p.Faithful() && i < |fields| && fields[i] == Field("x", Float(NEGATIVE_ZERO))
    ensures Projection(Obj(fields)).Some? ==> !Durable(p, Obj(fields))
  {
    hide Platform.Faithful, ProjectionThrows, MapValues, StripIdentity, StripKey;
    StoredNumber(p, NEGATIVE_ZERO);
    assert |"x"| == 1 && |"Evidence"| == 8 && |"schedules"| == 9 && |"identities"| == 10;
    assert ProjectField(IsLocks(fields), fields[i]) == fields[i] by {
      assert !IsAncestryKey("x");
    }
    assert ProjectFields(fields)[i] == fields[i];
    assert !p.Exact(ProjectFields(fields)[i].value);
  }

  /** So a fixture that holds one loses its meaning whenever it is stale and gets written. */
  lemma NegativeZeroIsLost(o: Owners, sel: Selection, historical: map<string, string>, name: string, text: string,
                           fields: seq<Field>, i: nat)
    requires o.platform.Faithful() && o.platform.parse(text) == Some(Obj(fields))
    requires i < |fields| && fields[i] == Field("x", Float(NEGATIVE_ZERO))
    requires StepOk(o, sel, historical, name, text) && SomeFieldDrifts(o, sel, fields)
    ensures Semantics(o.platform, FixtureStep(o, Write, sel, historical, name, text).text) !=
            Semantics(o.platform, text)
  {
    hide FixtureStep, Platform.Faithful, SomeFieldDrifts, Semantics, Projection, RewriteSound, Durable;
    GuardJudgesTheInput(o, sel, historical, name, text);
    WrittenStep(o, sel, historical, name, text);
    NegativeZeroIsNotDurable(o.platform, fields, i);
  }

  lemma PassKeepsCoupling(o: Owners, mode: Mode, sel: Selection, historical: map<string, string>,
                          chain: map<string, string>, names: seq<string>)
    requires o.platform.Faithful() && forall n :: n in names ==> n in chain
    requires forall n :: n in chain && n != LOCKS_FILE ==> TextCoupled(o.platform, chain[n])
    ensures var after := FixturePass(Stepper(o, mode, sel, historical), chain, names).chain;
            && after.Keys == chain.Keys
            && forall n :: n in chain && n != LOCKS_FILE ==> TextCoupled(o.platform, after[n])
  {
    hide FixtureStep, FixturePass, TextCoupled;
    var step := Stepper(o, mode, sel, historical);
    var inv := (n: string, t: string) => n == LOCKS_FILE || TextCoupled(o.platform, t);
    forall n, t | TextCoupled(o.platform, t) && step(n, t).Done? ensures TextCoupled(o.platform, step(n, t).text) {
      StepKeepsCoupling(o, mode, sel, historical, n, t);
    }
    PassPreserves(step, chain, names, inv);
    var after := FixturePass(step, chain, names).chain;
    assert forall n :: n in chain ==> inv(n, after[n]);
  }

  /** Schedules that name their fixture's composer evidence still do after any run. */
  lemma RunKeepsCoupling(p: Platform, mode: Mode, source: Option<string>, st: State)
    requires p.Faithful()
    requires forall n :: n in st.Chain() && n != LOCKS_FILE ==> TextCoupled(p, st.Chain()[n])
    ensures var after := Run(p, mode, source, st).state;
            && after.Chain().Keys == st.Chain().Keys
            && forall n :: n in st.Chain() && n != LOCKS_FILE ==> TextCoupled(p, after.Chain()[n])
  {
    hide FixtureStep, FixturePass, Finish, SeenSources, Prelude, FixtureNames, TextCoupled, Stepper,
         Platform.Faithful;
    PreludeMeans(p, st);
    RunFrame(p, mode, source, st);
    if Prelude(p, st).Some? {
      var o := Prelude(p, st).value;
      PassKeepsCoupling(o, mode, SelectionOf(source), st.historical, st.Chain(), Names(st));
      FinishFrame(o, mode, source, Known(o, source, st), st,
                  FixturePass(Stepper(o, mode, SelectionOf(source), st.historical), st.Chain(), Names(st)));
    }
  }

  /** Coupling is not part of the check: beside a fresh composer field any stale schedule passes it. */
  lemma CheckMissesStaleSchedule(o: Owners, e: Identity)
    requires o.load(Evidence("composer")) == Some(e)
    ensures var fields := [Field("composerEvidence", IdentityRecord(e)),
                           Field("schedules", Obj([Field("one", Obj([Field("evidenceKey", Str("old"))]))]))];
            FieldsSound(o, All, fields) && !SomeFieldDrifts(o, All, fields) && !Coupled(fields)
  {
    var schedule := [Field("evidenceKey", Str("old"))];
    var schedules := Obj([Field("one", Obj(schedule))]);
    var fields := [Field("composerEvidence", IdentityRecord(e)), Field("schedules", schedules)];
    RecordReadsBack(e);
    SchedulesIsFree(fields[1]);
    assert |"composerEvidence"| == 16 && |"schedules"| == 9 && |"old"| == 3;
    IndexIsUnique(fields, 0);
    IndexIsUnique(fields, 1);
    IndexIsUnique(schedule, 0);
    assert Find(schedule, "evidenceKey") == Some(Str("old"));
    assert !ScheduleCarries(Obj(schedule), e.sha256);
    assert !SchedulesCarry(schedules, e.sha256) by {
      assert !ScheduleCarries(schedules.fields[0].value, e.sha256);
    }
    forall i | 0 <= i < |fields| ensures FieldSound(o, All, fields[i]) && !Drifts(o, All, fields[i]) {
    }
  }

  lemma {:induction false} WithoutIsEmpty(fields: seq<Field>, keys: set<string>)
    ensures Without(fields, keys) == [] <==> forall i :: 0 <= i < |fields| ==> fields[i].key in keys
  {
    if fields != [] {
      WithoutIsEmpty(fields[1..], keys);
      assert forall i :: 0 < i < |fields| ==> fields[i] == fields[1..][i - 1];
      if forall i :: 0 <= i < |fields[1..]| ==> fields[1..][i].key in keys {
        assert forall i :: 0 < i < |fields| ==> fields[i].key in keys;
      } else {
        var i :| 0 <= i < |fields[1..]| && fields[1..][i].key !in keys;
        assert fields[i + 1].key !in keys;
      }
    }
  }

  predicate IsBare(v: Json) {
    v.Obj? && forall i :: 0 <= i < |v.fields| ==> v.fields[i].key in {"algorithm", "byteLength", "sha256"}
  }

  lemma RecordIsBare(e: Identity)
    ensures IsBare(IdentityRecord(e))
  {
  }

  lemma StrippedIsBare(v: Json)
    requires AsIdentity(v).Some?
    ensures StripIdentity(v).Obj? && (StripIdentity(v).fields == [] <==> IsBare(v))
  {
    hide MeaningOf;
    WithoutIsEmpty(v.fields, {"algorithm", "byteLength", "sha256"});
  }

  lemma StrippedMeaning(v: Json, e: Identity)
    requires AsIdentity(v).Some?
    ensures MeaningOf(StripIdentity(IdentityRecord(e))) == MeaningOf(StripIdentity(v)) <==> IsBare(v)
  {
    hide IdentityRecord, AsIdentity, StripIdentity, IsBare;
    RecordReadsBack(e);
    RecordIsBare(e);
    StrippedIsBare(IdentityRecord(e));
    StrippedIsBare(v);
    var rest := StripIdentity(v).fields;
    if rest != [] {
      assert rest[0].key in MeaningOfFields(rest);
    }
  }

  /**
   * Replacing locks keeps the meaning of the lock file exactly when every replaced entry held
   * nothing but its identity: an extra property is lost without any guard noticing.
   */
  lemma LocksKeepMeaning(o: Owners, sel: Selection, fields: seq<Field>)
    requires WellFormed(Obj(fields)) && LocksSound(o, sel, fields) && !ProjectionThrows(fields)
    ensures Projection(Obj(RewriteLockFile(o, sel, fields))).Some?
    ensures MeaningOf(Projection(Obj(RewriteLockFile(o, sel, fields))).value) ==
            MeaningOf(Projection(Obj(fields)).value)
            <==>
            forall i :: 0 <= i < |IdsOf(fields)| && LockDrifts(o, sel, IdsOf(fields)[i]) ==>
                          IsBare(IdsOf(fields)[i].value)
  {
    hide LocksSound, RewriteLocks, RewriteLockFile, MapValues, ProjectField, IsBare, LockDrifts, ProjectionThrows,
         StripIdentity, Index;
    LocksSoundHasIds(o, sel, fields);
    LockRewriteThrowsNot(o, sel, fields);
    var ids, k := IdsOf(fields), Index(fields, "identities");
    var after := RewriteLockFile(o, sel, fields);
    var p, q := ProjectFields(fields), ProjectFields(after);
    ProjectIdentities(fields[k]);
    ProjectIdentities(after[k]);
    ProjectKeepsKeys(fields);
    ProjectKeepsKeys(after);
    MeaningByField(p, q);
    forall i | 0 <= i < |fields| && i != k ensures q[i] == p[i] {
    }
    assert MeaningOfFields(p) == MeaningOfFields(q) <==> MeaningOf(p[k].value) == MeaningOf(q[k].value);
    IdsMeaning(o, sel, ids);
  }

  lemma ProjectKeepsKeys(fields: seq<Field>)
    ensures SameKeys(fields, ProjectFields(fields))
  {
    hide MapValues, StripIdentity;
  }

  lemma ProjectIdentities(f: Field)
    requires f.key == "identities"
    ensures ProjectField(true, f) == Field("identities", MapValues(f.value, StripIdentity))
  {
    SchedulesIsFree(f);
  }

  lemma LockRewriteThrowsNot(o: Owners, sel: Selection, fields: seq<Field>)
    requires WellFormed(Obj(fields)) && LocksSound(o, sel, fields) && !ProjectionThrows(fields)
    ensures !ProjectionThrows(RewriteLockFile(o, sel, fields)) && IsLocks(RewriteLockFile(o, sel, fields))
    ensures RewriteLockFile(o, sel, fields) ==
            fields[Index(fields, "identities") := Field("identities", Obj(RewriteLocks(o, sel, IdsOf(fields))))]
  {
    hide LocksSound, RewriteLocks, SomeValueIsNull;
    LocksSoundHasIds(o, sel, fields);
    RewriteLockFileReads(o, sel, fields);
    SameKeysSameIndex(fields, RewriteLockFile(o, sel, fields), "schedules");
    assert |"schedules"| == 9 && |"identities"| == 10;
  }

  lemma LocksSoundHasIds(o: Owners, sel: Selection, fields: seq<Field>)
    requires LocksSound(o, sel, fields) && WellFormed(Obj(fields))
    ensures IsLocks(fields) && Has(fields, "identities")
    ensures fields[Index(fields, "identities")] == Field("identities", Obj(IdsOf(fields))) && Distinct(IdsOf(fields))
  {
    assert WellFormed(fields[Index(fields, "identities")].value);
  }

  lemma IdsMeaning(o: Owners, sel: Selection, ids: seq<Field>)
    requires Distinct(ids)
    ensures MeaningOf(MapValues(Obj(ids), StripIdentity)) ==
            MeaningOf(MapValues(Obj(RewriteLocks(o, sel, ids)), StripIdentity))
            <==> forall i :: 0 <= i < |ids| && LockDrifts(o, sel, ids[i]) ==> IsBare(ids[i].value)
  {
    hide IsBare;
    var a := MapValues(Obj(ids), StripIdentity).fields;
    var b := MapValues(Obj(RewriteLocks(o, sel, ids)), StripIdentity).fields;
    MeaningByField(a, b);
    forall i | 0 <= i < |ids|
      ensures MeaningOf(a[i].value) == MeaningOf(b[i].value) <==> (LockDrifts(o, sel, ids[i]) ==> IsBare(ids[i].value))
    {
      if LockDrifts(o, sel, ids[i]) {
        StrippedMeaning(ids[i].value, o.load(Evidence(ids[i].key)).value);
      }
    }
  }

  /** A replaced entry that held more than its identity is missed in the projection, however it prints. */
  lemma LostEntryIsMissed(o: Owners, sel: Selection, fields: seq<Field>, i: nat)
    requires o.platform.Faithful() && WellFormed(Obj(fields)) && LocksSound(o, sel, fields)
    requires i < |IdsOf(fields)| && LockDrifts(o, sel, IdsOf(fields)[i]) && !IsBare(IdsOf(fields)[i].value)
    ensures var written := o.platform.StoredFields(RewriteLockFile(o, sel, fields));
            MeaningOf(Obj(ProjectFields(written))) != MeaningOf(Obj(ProjectFields(fields)))
  {
    hide LocksSound, RewriteLocks, MapValues, ProjectField, IsBare, LockDrifts, Platform.Faithful, Platform.Stored,
         StripIdentity;
    var p, ids, k := o.platform, IdsOf(fields), Index(fields, "identities");
    LocksSoundHasIds(o, sel, fields);
    RewriteLockFileReads(o, sel, fields);
    var after := RewriteLockFile(o, sel, fields);
    var written := p.StoredFields(after);
    SchemaStored(p, after);
    ProjectKeepsKeys(fields);
    ProjectKeepsKeys(written);
    MeaningByField(ProjectFields(fields), ProjectFields(written));
    SameKeysSameIndex(fields, after, "identities");
    StoredKeepsKind(p, Obj(RewriteLocks(o, sel, ids)));
    ProjectIdentities(fields[k]);
    ProjectIdentities(written[k]);
    assert written[k].value == Obj(p.StoredFields(RewriteLocks(o, sel, ids)));
    LostEntryChanges(o, sel, ids, i);
  }

  lemma LostEntryChanges(o: Owners, sel: Selection, ids: seq<Field>, i: nat)
    requires Distinct(ids) && i < |ids| && LockDrifts(o, sel, ids[i]) && !IsBare(ids[i].value)
    ensures MeaningOf(MapValues(Obj(o.platform.StoredFields(RewriteLocks(o, sel, ids))), StripIdentity))
         != MeaningOf(MapValues(Obj(ids), StripIdentity))
  {
    hide IsBare, StripIdentity, IdentityRecord, Platform.Stored, AsIdentity;
    var e := o.load(Evidence(ids[i].key)).value;
    var a := MapValues(Obj(ids), StripIdentity).fields;
    var b := MapValues(Obj(o.platform.StoredFields(RewriteLocks(o, sel, ids))), StripIdentity).fields;
    MeaningByField(a, b);
    RecordStored(o.platform, e);
    StrippedMeaning(ids[i].value, e);
    assert b[i].value == StripIdentity(IdentityRecord(e));
  }

  predicate ReplacedAreBare(o: Owners, sel: Selection, ids: seq<Field>) {
    forall i :: 0 <= i < |ids| && LockDrifts(o, sel, ids[i]) ==> IsBare(ids[i].value)
  }

  lemma SameMeaningSameDurability(p: Platform, a: Json, b: Json)
    requires WellFormed(a) && WellFormed(b) && MeaningAfter(a).Some? && MeaningAfter(a) == MeaningAfter(b)
    ensures Durable(p, a) <==> Durable(p, b)
  {
    hide Projection, MeaningOf, WellFormed, Platform.Exact;
    ProjectionIsWellFormed(a);
    ProjectionIsWellFormed(b);
    if Durable(p, a) {
      ExactIsMeaning(p, Projection(a).value, Projection(b).value);
    }
    if Durable(p, b) {
      ExactIsMeaning(p, Projection(b).value, Projection(a).value);
    }
  }

  /**
   * A written lock file keeps its meaning exactly when every replaced entry was bare and every number
   * its projection keeps prints as itself.
   */
  lemma LockWriteKeepsMeaning(o: Owners, sel: Selection, text: string)
    requires o.platform.Faithful() && LocksOk(o, sel, text) && Semantics(o.platform, text).Some?
    ensures Semantics(o.platform, LocksSettled(o, sel, text)) == Semantics(o.platform, text) <==>
            (!SomeLockDrifts(o, sel, IdsOf(FieldsOf(o.platform.parse(text)))) ||
             (ReplacedAreBare(o, sel, IdsOf(FieldsOf(o.platform.parse(text)))) && DurableText(o.platform, text)))
  {
    hide LocksSound, RewriteLockFile, MeaningOf, ProjectFields, SomeLockDrifts, IsBare, LockDrifts, Platform.Faithful,
         Platform.StoredFields, Platform.Exact, ProjectionThrows, Semantics, LocksSettled;
    var p, fields := o.platform, FieldsOf(o.platform.parse(text));
    LocksAreWellFormed(o, sel, text);
    LocksSettledReads(o, sel, text);
    SemanticsMeans(p, text);
    SemanticsMeans(p, LocksSettled(o, sel, text));
    if SomeLockDrifts(o, sel, IdsOf(fields)) {
      var after := RewriteLockFile(o, sel, fields);
      if ReplacedAreBare(o, sel, IdsOf(fields)) {
        LocksKeepMeaning(o, sel, fields);
        RewriteLockFileKeepsWellFormed(o, sel, fields);
        PrintedMeaning(p, after);
        SameMeaningSameDurability(p, Obj(after), Obj(fields));
      } else {
        var i :| 0 <= i < |IdsOf(fields)| && LockDrifts(o, sel, IdsOf(fields)[i]) && !IsBare(IdsOf(fields)[i].value);
        LostEntryIsMissed(o, sel, fields, i);
      }
    } else {
      LocksUnwritten(o, sel, text);
    }
  }

  lemma LocksUnwritten(o: Owners, sel: Selection, text: string)
    requires !SomeLockDrifts(o, sel, IdsOf(FieldsOf(o.platform.parse(text))))
    ensures LocksSettled(o, sel, text) == text
  {
  }
}
