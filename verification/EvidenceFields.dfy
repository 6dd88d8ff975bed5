/**
 * Which producer owns each identity-bearing fixture field, and what one maintenance
 * run does to the fields of a single fixture.
 */
module EvidenceFields {
  import opened Base
  import opened Json
  import opened ReferenceSelection

  predicate IsHex(c: char) {
    '0' <= c <= '9' || 'a' <= c <= 'f'
  }

  datatype Digest = Digest(byteLength: nat, sha256: string) {
    predicate Acceptable() {
      byteLength <= MAX_SAFE_INTEGER && |sha256| == 64 && forall c :: c in sha256 ==> IsHex(c)
    }
  }

  const NO_DIGEST := Digest(0, seq(64, _ => '0'))

  /** An identity the tools accept; the algorithm is always sha256. */
  type Identity = d: Digest | d.Acceptable() witness NO_DIGEST

  /** A safe integer; minus zero is one, equal to zero. */
  function SafeInteger(v: Json): Option<int> {
    match v
    case Int(n) => if -MAX_SAFE_INTEGER <= n <= MAX_SAFE_INTEGER then Some(n) else None
    case Float(l) => if l == NEGATIVE_ZERO then Some(0) else None
    case _ => None
  }

  /** The reading of a value as an identity; None where the tool rejects it. */
  function AsIdentity(v: Json): (r: Option<Identity>)
    ensures r.Some? ==> IsIdentityShape(v)
  {
    if v.Obj? && Find(v.fields, "algorithm") == Some(Str("sha256")) then
      match (Find(v.fields, "byteLength"), Find(v.fields, "sha256"))
      case (Some(length), Some(Str(s))) =>
        var n :- SafeInteger(length);
        if 0 <= n && |s| == 64 && (forall c :: c in s ==> IsHex(c)) then Some(Digest(n, s)) else None
      case _ => None
    else None
  }

  predicate IsIdentityShape(v: Json) {
    v.Obj? && Has(v.fields, "algorithm") && Has(v.fields, "byteLength") && Has(v.fields, "sha256")
  }

  function WithIdentity(existing: Json, identity: Identity): Json
    requires existing.Obj?
  {
    Obj(Put(Put(Put(existing.fields,
      "algorithm", Str("sha256")), "byteLength", Int(identity.byteLength)), "sha256", Str(identity.sha256)))
  }

  function IdentityRecord(identity: Identity): Json {
    Obj([Field("algorithm", Str("sha256")), Field("byteLength", Int(identity.byteLength)),
         Field("sha256", Str(identity.sha256))])
  }

  const EVIDENCE_FIELDS: seq<(string, string)> := [
    ("domainEvidence", "domain"), ("nodeEvidence", "graph-node"), ("edgeEvidence", "graph-edge"),
    ("refEvidence", "graph-ref"), ("pathEvidence", "graph-path"), ("rootEvidence", "graph-root"),
    ("reclaimEvidence", "graph-reclaim"), ("advanceOccurrenceEvidence", "graph-advance"),
    ("cleanupEvidence", "graph-cleanup"), ("policyEvidence", "policy"), ("evaluatorEvidence", "evaluator"),
    ("resourceEvidence", "resource"), ("progressEvidence", "progress"), ("outputEvidence", "output"),
    ("frameworkEvidence", "framework"), ("terminalEvidence", "terminal"), ("sessionEvidence", "session"),
    ("stageEvidence", "stage"), ("channelEvidence", "channel")]

  const PROFILE_PREFIX := "cuda-mcgs.search-ir-composer-"
  const PROFILE_SUFFIX := "-profile-projection/0.2.0"
  const PROFILE_KINDS: seq<string> := ["domain", "graph", "policy", "evaluator", "resource", "progress",
                                       "output", "session", "stage"]

  function ProducerOf(table: seq<(string, string)>, field: string): Option<string> {
    if table == [] then None
    else if table[0].0 == field then Some(table[0].1)
    else ProducerOf(table[1..], field)
  }

  /** The registered projection kind that a schema names. */
  function ProfileKind(kinds: seq<string>, schema: string): Option<string> {
    if kinds == [] then None
    else if schema == PROFILE_PREFIX + kinds[0] + PROFILE_SUFFIX then Some(kinds[0])
    else ProfileKind(kinds[1..], schema)
  }

  datatype Source = Evidence(id: string) | ProfileProjection(kind: string) | RootControl {
    function Key(): string {
      match this
      case Evidence(id) => id
      case ProfileProjection(kind) => "projection:" + kind
      case RootControl => "root-control"
    }
  }

  /** A field carries no identity, is owned by a source, or has no registered owner. */
  datatype Ownership = Free | Owned(source: Source) | Unowned

  function SourceOf(f: Field): Ownership {
    if !IsIdentityShape(f.value) then Free
    else if f.key == "composerEvidence" then Owned(Evidence("composer"))
    else if f.key == "profileProjection" then
      match Find(f.value.fields, "schema")
      case Some(Str(schema)) =>
        (match ProfileKind(PROFILE_KINDS, schema)
         case Some(kind) => Owned(ProfileProjection(kind))
         case None => Unowned)
      case _ => Unowned
    else if f.key == "rootControlProjection" then Owned(RootControl)
    else if EndsWith(f.key, "Evidence") then
      match ProducerOf(EVIDENCE_FIELDS, f.key)
      case Some(id) => Owned(Evidence(id))
      case None => Unowned
    else Free
  }

  function ReadProducer(p: Platform, producers: map<string, string>, path: string): Option<Json> {
    if path in producers then p.parse(producers[path]) else None
  }

  /** The identity an evidence file declares, unless it reports a status other than pass. */
  function EvidenceIdentity(p: Platform, producers: map<string, string>, descriptors: map<string, string>,
                            id: string): Option<Identity>
  {
    if id !in descriptors then None else
    var evidence :- ReadProducer(p, producers, descriptors[id]);
    var status := Property(evidence, "status");
    if evidence == Null || (status.Some? && status != Some(Str("pass"))) then None else
    var key := if id == "composer" then "representationCompositionEvidenceKey"
               else if id == "search-ir" then "searchIrIdentity" else "evidenceIdentity";
    var identity :- Property(evidence, key);
    AsIdentity(identity)
  }

  /** The identity a source currently has; None when its producer cannot be trusted. */
  function LoadSource(p: Platform, producers: map<string, string>, descriptors: map<string, string>,
                      source: Source): Option<Identity>
  {
    match source
    case Evidence(id) => EvidenceIdentity(p, producers, descriptors, id)
    case ProfileProjection(kind) =>
      var projection :- ReadProducer(p, producers, "conformance/search-compiler/build/" + kind + "-profiles.json");
      var identity :- Property(projection, "projectionIdentity");
      AsIdentity(identity)
    case RootControl =>
      var control :- ReadProducer(p, producers, "conformance/search-compiler/build/root-control.json");
      var identity :- Property(control, "identity");
      AsIdentity(identity)
  }

  function Loader(p: Platform, producers: map<string, string>, descriptors: map<string, string>):
      Source -> Option<Identity>
  {
    source => LoadSource(p, producers, descriptors, source)
  }

  /** What one run compares with: the identity of each source, and the ids that must be locked. */
  datatype Owners = Owners(platform: Platform, load: Source -> Option<Identity>, ids: set<string>)

  /** The sources one run looks at: all of them, or the ones it was asked for. */
  datatype Selection = All | Only(keys: set<string>) {
    predicate Selects(key: string) {
      All? || key in keys
    }
  }

  predicate Concerns(sel: Selection, f: Field) {
    SourceOf(f).Owned? && sel.Selects(SourceOf(f).source.Key())
  }

  /** Looking at a field throws unless its owner is registered and, if selected, both sides are identities. */
  predicate FieldSound(o: Owners, sel: Selection, f: Field) {
    && !SourceOf(f).Unowned?
    && (Concerns(sel, f) ==> o.load(SourceOf(f).source).Some? && AsIdentity(f.value).Some?)
  }

  predicate Drifts(o: Owners, sel: Selection, f: Field) {
    Concerns(sel, f) && FieldSound(o, sel, f) && AsIdentity(f.value) != o.load(SourceOf(f).source)
  }

  predicate SomeFieldDrifts(o: Owners, sel: Selection, fields: seq<Field>) {
    exists i :: 0 <= i < |fields| && Drifts(o, sel, fields[i])
  }

  predicate FieldsSound(o: Owners, sel: Selection, fields: seq<Field>) {
    forall i :: 0 <= i < |fields| ==> FieldSound(o, sel, fields[i])
  }

  /** The composer hash every schedule receives, present when the composer field drifts. */
  function NewScheduleKey(o: Owners, sel: Selection, fields: seq<Field>): Option<string> {
    var i := Index(fields, "composerEvidence");
    if i < |fields| && Drifts(o, sel, fields[i]) then
      var identity :- o.load(SourceOf(fields[i]).source);
      Some(identity.sha256)
    else None
  }

  /** A property can be assigned on objects and arrays only; an array's extra property is never printed. */
  function SetScheduleKey(schedule: Json, key: string): Json {
    if schedule.Obj? then Obj(Put(schedule.fields, "evidenceKey", Str(key))) else schedule
  }

  predicate Assignable(v: Json) {
    v.Obj? || v.Arr?
  }

  predicate SchedulesAssignable(schedules: Json) {
    match schedules
    case Obj(fields) => forall i :: 0 <= i < |fields| ==> Assignable(fields[i].value)
    case Arr(items) => forall i :: 0 <= i < |items| ==> Assignable(items[i])
    case Str(s) => s == ""
    case _ => true
  }

  function SetSchedules(schedules: Json, key: string): Json {
    MapValues(schedules, schedule => SetScheduleKey(schedule, key))
  }

  function RewriteField(o: Owners, sel: Selection, scheduleKey: Option<string>, f: Field): Field {
    if Drifts(o, sel, f) then Field(f.key, WithIdentity(f.value, o.load(SourceOf(f).source).value))
    else if f.key == "schedules" && scheduleKey.Some? then Field(f.key, SetSchedules(f.value, scheduleKey.value))
    else f
  }

  /** What a write run makes of a fixture's fields. */
  function Rewrite(o: Owners, sel: Selection, fields: seq<Field>): seq<Field> {
    var key := NewScheduleKey(o, sel, fields);
    seq(|fields|, i requires 0 <= i < |fields| => RewriteField(o, sel, key, fields[i]))
  }

  /** Rewriting throws when a field is unsound or a schedule cannot take a property. */
  predicate RewriteSound(o: Owners, sel: Selection, fields: seq<Field>) {
    && FieldsSound(o, sel, fields)
    && (NewScheduleKey(o, sel, fields).Some? && Has(fields, "schedules")
        ==> SchedulesAssignable(Find(fields, "schedules").value))
  }
}
