/**
 * The registered reference-chain versions and the semantic projection of a fixture:
 * what is left of it once every reference to its ancestry is taken out.
 */
module ReferenceSelection {
  import opened Base
  import opened Json

  const DEV0 := "0.0.0-dev.0"
  const DEV1 := "0.0.0-dev.1"
  const DEV2 := "0.0.0-dev.2"
  const DEV3 := "0.0.0-dev.3"

  const LOCKS_SCHEMA := "cuda-mcgs.reference-integration-evidence-locks/0.1.0"
  const LOCKS_FILE := "integration-evidence-locks.json"
  const CASES_FILE := "integration-cases.json"

  /** The place of a version in the chain; unregistered versions have none. */
  function Rank(version: string): nat {
    if version == DEV1 then 1 else if version == DEV2 then 2 else if version == DEV3 then 3 else 0
  }

  predicate Registered(version: string) {
    Rank(version) > 0
  }

  /** The only predecessor a chain link may name. */
  function Predecessor(version: string): Option<string> {
    if version == DEV3 then Some(DEV2) else if version == DEV2 then Some(DEV1) else None
  }

  lemma VersionsDiffer()
    ensures DEV0 != DEV1 && DEV0 != DEV2 && DEV0 != DEV3
    ensures DEV1 != DEV2 && DEV1 != DEV3 && DEV2 != DEV3
    ensures forall v, w :: Predecessor(v) == Some(w) ==> Rank(v) == Rank(w) + 1 && Rank(w) > 0
  {
    assert DEV0[10] == '0' && DEV1[10] == '1' && DEV2[10] == '2' && DEV3[10] == '3';
  }

  predicate IsAncestryKey(key: string) {
    key == "composerEvidence" || key == "profileProjection" || key == "rootControlProjection"
    || EndsWith(key, "Evidence")
  }

  function StripIdentity(record: Json): Json {
    if record.Obj? && Find(record.fields, "algorithm") == Some(Str("sha256"))
       && Find(record.fields, "sha256").Some? && Find(record.fields, "sha256").value.Str?
    then Obj(Without(record.fields, {"algorithm", "byteLength", "sha256"}))
    else record
  }

  function StripKey(record: Json): Json {
    if record.Obj? then Obj(Without(record.fields, {"evidenceKey"})) else record
  }

  /** A function applied to every value of an object or array; other values have none. */
  function MapValues(j: Json, f: Json -> Json): Json {
    match j
    case Obj(fields) => Obj(seq(|fields|, i requires 0 <= i < |fields| => Field(fields[i].key, f(fields[i].value))))
    case Arr(items) => Arr(seq(|items|, i requires 0 <= i < |items| => f(items[i])))
    case _ => j
  }

  predicate SomeValueIsNull(j: Json) {
    match j
    case Obj(fields) => exists i :: 0 <= i < |fields| && fields[i].value == Null
    case Arr(items) => exists i :: 0 <= i < |items| && items[i] == Null
    case _ => false
  }

  function ProjectField(locks: bool, f: Field): Field {
    if IsAncestryKey(f.key) then Field(f.key, StripIdentity(f.value))
    else if f.key == "identities" && locks then Field(f.key, MapValues(f.value, StripIdentity))
    else if f.key == "schedules" && Truthy(f.value) then Field(f.key, MapValues(f.value, StripKey))
    else f
  }

  predicate IsLocks(fields: seq<Field>) {
    Find(fields, "schema") == Some(Str(LOCKS_SCHEMA))
  }

  /** Reading the values of a missing or null `identities`, or of a null schedule, throws. */
  predicate ProjectionThrows(fields: seq<Field>) {
    || (IsLocks(fields) && (Find(fields, "identities") == None || Find(fields, "identities") == Some(Null)))
    || (Find(fields, "schedules").Some? && SomeValueIsNull(Find(fields, "schedules").value))
  }

  function ProjectFields(fields: seq<Field>): seq<Field> {
    seq(|fields|, i requires 0 <= i < |fields| => ProjectField(IsLocks(fields), fields[i]))
  }

  /** The semantic projection of a fixture; None where computing it throws. */
  function Projection(fixture: Json): Option<Json> {
    match fixture
    case Null => None
    case Obj(fields) => if ProjectionThrows(fields) then None else Some(Obj(ProjectFields(fields)))
    case _ => Some(fixture)
  }

  /** What a fixture text means apart from its ancestry; None when it has no meaning. */
  function Semantics(p: Platform, text: string): Option<Meaning> {
    var fixture :- p.parse(text);
    var projection :- Projection(fixture);
    Some(MeaningOf(projection))
  }

  /** The guard of the lock writer, the pin tool and the verifier. */
  predicate SameSemantics(p: Platform, selected: string, historical: string) {
    Semantics(p, selected).Some? && Semantics(p, selected) == Semantics(p, historical)
  }
}
