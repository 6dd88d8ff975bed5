/** What one handled file becomes, and how handling it for two selections composes. */
module StepTheorems {
  import opened Base
  import opened Json
  import opened ReferenceSelection
  import opened EvidenceFields
  import opened FieldTheorems
  import opened FixtureTheorems
  import opened EvidenceLocks
  import opened Printing
  import opened Meanings

  /** The text a fixture settles to, had no exception occurred. */
  function Settled(o: Owners, sel: Selection, text: string): string {
    var fields := FieldsOf(o.platform.parse(text));
    if SomeFieldDrifts(o, sel, fields) then o.platform.render(Obj(Rewrite(o, sel, fields))) else text
  }

  lemma {:induction false} NoDriftNoChange(o: Owners, sel: Selection, name: string, fields: seq<Field>)
    ensures FieldChanges(o, sel, name, fields) == [] <==> !SomeFieldDrifts(o, sel, fields)
  {
    if fields != [] {
      NoDriftNoChange(o, sel, name, fields[1..]);
      if SomeFieldDrifts(o, sel, fields) {
        var i :| 0 <= i < |fields| && Drifts(o, sel, fields[i]);
        assert i > 0 ==> fields[1..][i - 1] == fields[i];
      }
      if SomeFieldDrifts(o, sel, fields[1..]) {
        var i :| 0 <= i < |fields[1..]| && Drifts(o, sel, fields[1..][i]);
        assert fields[i + 1] == fields[1..][i];
      }
    }
  }

  lemma NoDriftIsIdentity(o: Owners, sel: Selection, fields: seq<Field>)
    requires !SomeFieldDrifts(o, sel, fields)
    ensures Rewrite(o, sel, fields) == fields
  {
    assert NewScheduleKey(o, sel, fields) == None;
    forall i | 0 <= i < |fields| ensures Rewrite(o, sel, fields)[i] == fields[i] {
      assert !Drifts(o, sel, fields[i]);
    }
  }

  predicate Readable(p: Platform, text: string) {
    p.parse(text).Some? && p.parse(text).value != Null
  }

  /**
   * The writer's semantic guard never rejects its own rewriting: a fixture is handled exactly
   * when it can be rewritten and, if something drifts, already agreed with its historical
   * fixture before the run.
   */
  lemma GuardJudgesTheInput(o: Owners, sel: Selection, historical: map<string, string>, name: string, text: string)
    requires o.platform.Faithful()
    ensures var fixture := o.platform.parse(text);
            FixtureStep(o, Write, sel, historical, name, text).Done? <==>
              && Readable(o.platform, text)
              && RewriteSound(o, sel, FieldsOf(fixture))
              && (SomeFieldDrifts(o, sel, FieldsOf(fixture)) ==> Aligned(o.platform, historical, name, fixture.value))
    ensures var step := FixtureStep(o, Write, sel, historical, name, text);
            step.Done? ==> step.text == Settled(o, sel, text)
  {
    var fixture := o.platform.parse(text);
    if fixture.Some? && fixture.value.Obj? && RewriteSound(o, sel, fixture.value.fields) {
      assert WellFormed(fixture.value);
      RewriteKeepsProjection(o, sel, fixture.value.fields);
    }
  }

  /** Re-reading a settled text gives the rewritten fields as they are after printing. */
  lemma SettledReads(o: Owners, sel: Selection, text: string)
    requires o.platform.Faithful() && Readable(o.platform, text)
    ensures Readable(o.platform, Settled(o, sel, text))
    ensures var fields := FieldsOf(o.platform.parse(text));
            FieldsOf(o.platform.parse(Settled(o, sel, text))) ==
            if SomeFieldDrifts(o, sel, fields) then o.platform.StoredFields(Rewrite(o, sel, fields)) else fields
    ensures o.platform.parse(text).value.Obj? ==> o.platform.parse(Settled(o, sel, text)).value.Obj?
    ensures !o.platform.parse(text).value.Obj? ==> Settled(o, sel, text) == text
  {
    hide Rewrite, SomeFieldDrifts, Platform.StoredFields;
    var fixture := o.platform.parse(text).value;
    var fields := FieldsOf(Some(fixture));
    if fixture.Obj? {
      if SomeFieldDrifts(o, sel, fields) {
        RewriteKeepsWellFormed(o, sel, fields);
        StoredKeepsKind(o.platform, Obj(Rewrite(o, sel, fields)));
      }
    } else {
      NoFieldsNoDrift(o, sel);
    }
  }

  /** What is seen of a settled text differs from the rewritten fields only in how numbers print. */
  lemma SettledMeans(o: Owners, a: Selection, b: Selection, text: string)
    requires o.platform.Faithful() && Readable(o.platform, text)
    ensures var fields, after := FieldsOf(o.platform.parse(text)), FieldsOf(o.platform.parse(Settled(o, a, text)));
            && SomeFieldDrifts(o, b, after) == SomeFieldDrifts(o, b, Rewrite(o, a, fields))
            && FieldsSound(o, b, after) == FieldsSound(o, b, Rewrite(o, a, fields))
            && RewriteSound(o, b, after) == RewriteSound(o, b, Rewrite(o, a, fields))
  {
    hide Rewrite, SomeFieldDrifts, FieldsSound, RewriteSound, Settled, Platform.Faithful, Platform.StoredFields;
    var fields := FieldsOf(o.platform.parse(text));
    SettledReads(o, a, text);
    SoundnessStored(o.platform, o, b, Rewrite(o, a, fields));
    if !SomeFieldDrifts(o, a, fields) {
      NoDriftIsIdentity(o, a, fields);
    }
  }

  lemma SameRendering(p: Platform, fields: seq<Field>)
    requires p.Faithful() && WellFormed(Obj(fields))
    ensures p.render(Obj(p.StoredFields(fields))) == p.render(Obj(fields))
  {
    StoredKeepsKind(p, Obj(fields));
    assert p.Stored(Obj(fields)) == Obj(p.StoredFields(fields));
  }

  /** Settling for two selections in a row is settling once for both, down to the bytes. */
  lemma SettledComposes(o: Owners, a: Selection, b: Selection, text: string)
    requires o.platform.Faithful() && Readable(o.platform, text)
    requires FieldsSound(o, a, FieldsOf(o.platform.parse(text)))
    requires FieldsSound(o, b, FieldsOf(o.platform.parse(text)))
    ensures Settled(o, b, Settled(o, a, text)) == Settled(o, Union(a, b), text)
  {
    hide Rewrite, SomeFieldDrifts, FieldsSound, Platform.StoredFields, Platform.Faithful;
    var p, fields := o.platform, FieldsOf(o.platform.parse(text));
    SettledReads(o, a, text);
    SettledMeans(o, a, b, text);
    RewriteComposes(o, a, b, fields);
    DriftComposes(o, a, b, fields);
    if !SomeFieldDrifts(o, a, fields) {
      NoDriftIsIdentity(o, a, fields);
    } else {
      FixtureIsWellFormed(o, a, text);
      var mid := Rewrite(o, a, fields);
      RewriteStored(p, o, b, mid);
      RewriteKeepsWellFormed(o, a, fields);
      RewriteKeepsWellFormed(o, b, mid);
      SameRendering(p, Rewrite(o, b, mid));
      if !SomeFieldDrifts(o, b, mid) {
        NoDriftIsIdentity(o, b, mid);
      }
    }
  }

  lemma FixtureIsWellFormed(o: Owners, sel: Selection, text: string)
    requires o.platform.Faithful() && Readable(o.platform, text)
    ensures var fixture := o.platform.parse(text);
            SomeFieldDrifts(o, sel, FieldsOf(fixture)) ==> fixture.value.Obj? && WellFormed(Obj(FieldsOf(fixture)))
  {
    NoFieldsNoDrift(o, sel);
  }

  predicate StepOk(o: Owners, sel: Selection, historical: map<string, string>, name: string, text: string) {
    FixtureStep(o, Write, sel, historical, name, text).Done?
  }

  /** Both selections have to write the fixture, and what the first one prints means something else. */
  predicate Reopened(o: Owners, a: Selection, b: Selection, text: string) {
    var fields := FieldsOf(o.platform.parse(text));
    SomeFieldDrifts(o, a, fields) && SomeFieldDrifts(o, b, Rewrite(o, a, fields)) && !DurableText(o.platform, text)
  }

  /** A written fixture still agrees with its historical fixture exactly when it is durable. */
  lemma AlignedAfterWrite(o: Owners, a: Selection, historical: map<string, string>, name: string, text: string)
    requires o.platform.Faithful() && StepOk(o, a, historical, name, text)
    requires SomeFieldDrifts(o, a, FieldsOf(o.platform.parse(text)))
    ensures o.platform.parse(text).Some? && o.platform.parse(Settled(o, a, text)).Some?
    ensures Aligned(o.platform, historical, name, o.platform.parse(text).value)
    ensures Aligned(o.platform, historical, name, o.platform.parse(Settled(o, a, text)).value) <==>
            DurableText(o.platform, text)
  {
    hide FixtureStep, Rewrite, SomeFieldDrifts, Projection, MeaningOf, RewriteSound, Platform.Faithful, Semantics,
         Platform.Exact, Settled;
    var p, fields := o.platform, FieldsOf(o.platform.parse(text));
    GuardJudgesTheInput(o, a, historical, name, text);
    FixtureIsWellFormed(o, a, text);
    WellFormedIsDistinct(fields);
    SettledReads(o, a, text);
    RewriteKeepsProjection(o, a, fields);
    RewriteKeepsWellFormed(o, a, fields);
    PrintedMeaning(p, Rewrite(o, a, fields));
    assert p.parse(Settled(o, a, text)).value == Obj(p.StoredFields(Rewrite(o, a, fields)));
  }

  lemma WellFormedIsDistinct(fields: seq<Field>)
    requires WellFormed(Obj(fields))
    ensures Distinct(fields)
  {
  }

  /**
   * Whether a fixture can be handled for one selection is undone by an earlier run for another only
   * where both have to write it and a number it keeps does not print as itself.
   */
  lemma StepOkComposes(o: Owners, a: Selection, b: Selection, historical: map<string, string>, name: string,
                       text: string)
    requires o.platform.Faithful() && StepOk(o, a, historical, name, text)
    ensures StepOk(o, b, historical, name, Settled(o, a, text)) <==>
            StepOk(o, b, historical, name, text) && !Reopened(o, a, b, text)
    ensures StepOk(o, b, historical, name, text) ==> StepOk(o, Union(a, b), historical, name, text)
  {
    hide FixtureStep, Settled, FieldsSound, SomeFieldDrifts, Rewrite, RewriteSound, Aligned, DurableText,
         Platform.Faithful;
    var fixture := o.platform.parse(text);
    var fields := FieldsOf(fixture);
    GuardJudgesTheInput(o, a, historical, name, text);
    SettledReads(o, a, text);
    SettledMeans(o, a, b, text);
    GuardJudgesTheInput(o, b, historical, name, text);
    GuardJudgesTheInput(o, b, historical, name, Settled(o, a, text));
    GuardJudgesTheInput(o, Union(a, b), historical, name, text);
    RewriteSoundComposes(o, a, b, fields);
    DriftAfterRewrite(o, a, b, fields);
    if SomeFieldDrifts(o, a, fields) {
      AlignedAfterWrite(o, a, historical, name, text);
    } else {
      NoDriftIsIdentity(o, a, fields);
      NothingSettles(o, a, text);
    }
    if RewriteSound(o, b, fields) {
      SoundFields(o, a, fields);
      SoundFields(o, b, fields);
      DriftComposes(o, a, b, fields);
    }
  }

  lemma SoundFields(o: Owners, sel: Selection, fields: seq<Field>)
    ensures RewriteSound(o, sel, fields) ==> FieldsSound(o, sel, fields)
  {
  }

  lemma NothingSettles(o: Owners, sel: Selection, text: string)
    requires !SomeFieldDrifts(o, sel, FieldsOf(o.platform.parse(text)))
    ensures Settled(o, sel, text) == text
  {
  }

  lemma NoFieldsNoDrift(o: Owners, a: Selection)
    ensures !SomeFieldDrifts(o, a, []) && Rewrite(o, a, []) == []
  {
  }

  lemma DriftAfterRewrite(o: Owners, a: Selection, b: Selection, fields: seq<Field>)
    ensures SomeFieldDrifts(o, b, Rewrite(o, a, fields)) ==> SomeFieldDrifts(o, b, fields)
    ensures SomeFieldDrifts(o, b, fields) ==>
              SomeFieldDrifts(o, a, fields) || SomeFieldDrifts(o, b, Rewrite(o, a, fields))
  {
    var mid := Rewrite(o, a, fields);
    forall i | 0 <= i < |fields|
      ensures Drifts(o, b, mid[i]) == (Drifts(o, b, fields[i]) && !Drifts(o, a, fields[i]))
    {
      RewriteFieldSettles(o, a, b, NewScheduleKey(o, a, fields), fields[i]);
    }
  }

  /** A selection has nothing left to do in a fixture it has settled. */
  lemma SettledIsSettled(o: Owners, sel: Selection, text: string)
    requires o.platform.Faithful() && Readable(o.platform, text)
    ensures !SomeFieldDrifts(o, sel, FieldsOf(o.platform.parse(Settled(o, sel, text))))
  {
    hide Settled, Platform.Faithful;
    var fields := FieldsOf(o.platform.parse(text));
    SettledMeans(o, sel, sel, text);
    forall i | 0 <= i < |fields| ensures !Drifts(o, sel, Rewrite(o, sel, fields)[i]) {
      RewriteFieldSettles(o, sel, sel, NewScheduleKey(o, sel, fields), fields[i]);
    }
  }
}
