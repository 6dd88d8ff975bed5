/**
 * The evidence-lock tool: one run compares, and in write mode rewrites, the identities of
 * the selected chain, fixture by fixture and then in the integration lock file.
 */
module EvidenceLocks {
  import opened Base
  import opened Json
  import opened Listing
  import opened ReferenceSelection
  import opened EvidenceFields
  import opened Repository

  datatype Mode = Check | Write

  datatype Change = Change(file: string, field: string, source: string)

  function FieldChanges(o: Owners, sel: Selection, name: string, fields: seq<Field>): seq<Change> {
    if fields == [] then []
    else (if Drifts(o, sel, fields[0]) then [Change(name, fields[0].key, SourceOf(fields[0]).source.Key())] else [])
         + FieldChanges(o, sel, name, fields[1..])
  }

  /** What handling one file comes to: an exception, or its new text and the drift reported for it. */
  datatype Step = Throws | Done(text: string, changes: seq<Change>)

  /** A fixture agrees with the historical fixture of its name up to ancestry. */
  predicate Aligned(p: Platform, historical: map<string, string>, name: string, fixture: Json) {
    name in historical && Projection(fixture).Some? &&
    Semantics(p, historical[name]) == Some(MeaningOf(Projection(fixture).value))
  }

  function FixtureStep(o: Owners, mode: Mode, sel: Selection, historical: map<string, string>, name: string,
                       text: string): Step
  {
    match o.platform.parse(text)
    case None => Throws
    case Some(Null) => Throws
    case Some(Obj(fields)) =>
      if !FieldsSound(o, sel, fields) || (mode.Write? && !RewriteSound(o, sel, fields)) then Throws
      else if mode.Check? || !SomeFieldDrifts(o, sel, fields) then Done(text, FieldChanges(o, sel, name, fields))
      else
        var fixture := Obj(Rewrite(o, sel, fields));
        if Aligned(o.platform, historical, name, fixture)
        then Done(o.platform.render(fixture), FieldChanges(o, sel, name, fields))
        else Throws
    case Some(_) => Done(text, [])
  }

  function Stepper(o: Owners, mode: Mode, sel: Selection, historical: map<string, string>): (string, string) -> Step {
    (name, text) => FixtureStep(o, mode, sel, historical, name, text)
  }

  /** The fixtures handled so far: after an exception the rest is left as it is. */
  datatype Pass = Pass(ok: bool, chain: map<string, string>, changes: seq<Change>)

  function FixturePass(step: (string, string) -> Step, chain: map<string, string>, names: seq<string>): Pass
    requires forall n :: n in names ==> n in chain
    decreases |names|
  {
    if names == [] then Pass(true, chain, [])
    else
      match step(names[0], chain[names[0]])
      case Throws => Pass(false, chain, [])
      case Done(text, changes) =>
        var rest := FixturePass(step, chain[names[0] := text], names[1..]);
        rest.(changes := changes + rest.changes)
  }

  predicate LockSound(o: Owners, sel: Selection, f: Field) {
    sel.Selects(f.key) ==> o.load(Evidence(f.key)).Some? && AsIdentity(f.value).Some?
  }

  predicate LockDrifts(o: Owners, sel: Selection, f: Field) {
    sel.Selects(f.key) && LockSound(o, sel, f) && AsIdentity(f.value) != o.load(Evidence(f.key))
  }

  /** A lock is replaced as a whole: properties beside the identity are dropped. */
  function RewriteLock(o: Owners, sel: Selection, f: Field): Field {
    if LockDrifts(o, sel, f) then Field(f.key, IdentityRecord(o.load(Evidence(f.key)).value)) else f
  }

  function RewriteLocks(o: Owners, sel: Selection, ids: seq<Field>): seq<Field> {
    seq(|ids|, i requires 0 <= i < |ids| => RewriteLock(o, sel, ids[i]))
  }

  function LockChanges(o: Owners, sel: Selection, ids: seq<Field>, order: seq<string>): seq<Change> {
    if order == [] then []
    else
      var i := Index(ids, order[0]);
      (if i < |ids| && LockDrifts(o, sel, ids[i]) then [Change(LOCKS_FILE, order[0], order[0])] else [])
      + LockChanges(o, sel, ids, order[1..])
  }

  function KeysOf(fields: seq<Field>): set<string> {
    set i | 0 <= i < |fields| :: fields[i].key
  }

  predicate LocksSound(o: Owners, sel: Selection, fields: seq<Field>) {
    && IsLocks(fields)
    && Find(fields, "identities").Some? && Find(fields, "identities").value.Obj?
    && var ids := Find(fields, "identities").value.fields;
       KeysOf(ids) == o.ids && forall i :: 0 <= i < |ids| ==> LockSound(o, sel, ids[i])
  }

  predicate SomeLockDrifts(o: Owners, sel: Selection, ids: seq<Field>) {
    exists i :: 0 <= i < |ids| && LockDrifts(o, sel, ids[i])
  }

  function RewriteLockFile(o: Owners, sel: Selection, fields: seq<Field>): seq<Field>
    requires LocksSound(o, sel, fields)
  {
    fields[Index(fields, "identities") :=
      Field("identities", Obj(RewriteLocks(o, sel, Find(fields, "identities").value.fields)))]
  }

  ghost function LocksStep(o: Owners, mode: Mode, sel: Selection, text: string): Step {
    match o.platform.parse(text)
    case Some(Obj(fields)) =>
      if !LocksSound(o, sel, fields) then Throws
      else
        var ids := Find(fields, "identities").value.fields;
        var changes := LockChanges(o, sel, ids, Sorted(o.ids));
        if mode.Write? && SomeLockDrifts(o, sel, ids)
        then Done(o.platform.render(Obj(RewriteLockFile(o, sel, fields))), changes)
        else Done(text, changes)
    case _ => Throws
  }

  /** The descriptor table of the integration cases: string ids and paths, no id twice. */
  function DescriptorTable(entries: seq<Json>): Option<map<string, string>> {
    if entries == [] then Some(map[])
    else
      var rest :- DescriptorTable(entries[..|entries| - 1]);
      match (Property(entries[|entries| - 1], "id"), Property(entries[|entries| - 1], "path"))
      case (Some(Str(id)), Some(Str(path))) => if id in rest then None else Some(rest[id := path])
      case _ => None
  }

  function Descriptors(p: Platform, text: string): Option<map<string, string>> {
    var cases :- p.parse(text);
    match Property(cases, "evidenceInputs")
    case Some(Arr(entries)) => DescriptorTable(entries)
    case _ => None
  }

  /** What every run checks before it looks at a fixture; None when that throws. */
  function Prelude(p: Platform, st: State): Option<Owners> {
    var manifest :- ReadManifest(p, st, st.version);
    if !HistoricalBytesMatch(p, st, manifest) || CASES_FILE !in st.Chain() then None else
    var descriptors :- Descriptors(p, st.Chain()[CASES_FILE]);
    Some(Owners(p, Loader(p, st.producers, descriptors), descriptors.Keys))
  }

  predicate IsFixtureName(name: string) {
    EndsWith(name, ".json") && name != LOCKS_FILE
  }

  function FixtureNames(chain: map<string, string>): set<string> {
    set n | n in chain && IsFixtureName(n)
  }

  function FieldsOf(fixture: Option<Json>): seq<Field> {
    match fixture
    case Some(Obj(fields)) => fields
    case _ => []
  }

  /** The source keys a run meets: the owners of all identity fields and every locked id. */
  function SeenSources(o: Owners, chain: map<string, string>): set<string> {
    o.ids +
    set n, i | n in FixtureNames(chain) && 0 <= i < |FieldsOf(o.platform.parse(chain[n]))|
               && SourceOf(FieldsOf(o.platform.parse(chain[n]))[i]).Owned?
             :: SourceOf(FieldsOf(o.platform.parse(chain[n]))[i]).source.Key()
  }

  datatype Verdict = Threw | Drifted | Clean

  datatype Report = Report(state: State, verdict: Verdict, changes: seq<Change>)

  function SelectionOf(source: Option<string>): Selection {
    match source
    case None => All
    case Some(key) => Only({key})
  }

  /** What a run does once it has handled the fixtures: the lock file, then the verdict. */
  ghost function Finish(o: Owners, mode: Mode, source: Option<string>, known: bool, st: State, pass: Pass): Report {
    if !pass.ok || LOCKS_FILE !in pass.chain then Report(st.WithChain(pass.chain), Threw, []) else
    match LocksStep(o, mode, SelectionOf(source), pass.chain[LOCKS_FILE])
    case Throws => Report(st.WithChain(pass.chain), Threw, [])
    case Done(text, lockChanges) =>
      var changes := pass.changes + lockChanges;
      var after := st.WithChain(pass.chain[LOCKS_FILE := text]);
      if !known then Report(after, Threw, changes)
      else if mode.Check? && changes != [] then Report(after, Drifted, changes)
      else Report(after, Clean, changes)
  }

  predicate Known(o: Owners, source: Option<string>, st: State) {
    source.Some? ==> source.value in SeenSources(o, st.Chain())
  }

  /** One run of the tool: `--check`, `--check source` or `--write source`. */
  ghost function Run(p: Platform, mode: Mode, source: Option<string>, st: State): Report {
    match Prelude(p, st)
    case None => Report(st, Threw, [])
    case Some(o) =>
      var step := Stepper(o, mode, SelectionOf(source), st.historical);
      Finish(o, mode, source, Known(o, source, st), st,
             FixturePass(step, st.Chain(), Sorted(FixtureNames(st.Chain()))))
  }
}
