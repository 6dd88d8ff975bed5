/**
 * The reference chain: initialising the link of a version, pinning it, and verifying the
 * selected link together with every predecessor it retains by digest.
 */
module ReferenceChain {
  import opened Base
  import opened Json
  import opened LineEndings
  import opened Listing
  import opened ReferenceSelection
  import opened EvidenceFields
  import opened Repository
  import opened EvidenceLocks

  const SELECTED_COMPOSER := "2f162aee57197c3fe84e4d3b469dd199d3dce9d83ccaf35a51fcbf69b251019a"
  const HISTORICAL_COMPOSER := "0dfcd72db82122f56adedadde35c82af68c5ebb7e6f7acf4298f6705d923e58f"

  function SourceCheckpoint(version: string): string {
    if version == DEV1 then "cd2f164b4f28e2f09b5bfa84729c0602da17fc4a"
    else if version == DEV2 then "9d20798b8b1a5c82903e6035c8511ce119934fc8"
    else "2fd0dbd722c2f25e1e93093a4c4265ea4f17afd0"
  }

  datatype Outcome = Outcome(state: State, ok: bool)

  function FixtureSources(historical: map<string, string>): set<string> {
    set n | n in historical && EndsWith(n, ".json")
  }

  /** The digests of the named files, in the order of the names. */
  function Pins(p: Platform, files: map<string, string>, names: seq<string>): seq<Field>
    requires forall n :: n in names ==> n in files
  {
    seq(|names|, i requires 0 <= i < |names| => Field(names[i], Str(p.Sha256(files[names[i]]))))
  }

  function BaseManifest(version: string, historicalPins: seq<Field>): seq<Field> {
    [Field("schema", Str("cuda-mcgs.versioned-reference-chain-selection/0.1.0")),
     Field("version", Str(version)),
     Field("historicalVersion", Str(DEV0)),
     Field("historicalImplementation",
           Str("retained-provenance-only; current source does not replay the historical implementation")),
     Field("sourceCheckpoint", Str(SourceCheckpoint(version))),
     Field("historicalComposer", Str(HISTORICAL_COMPOSER)),
     Field("selectedComposer", Str(SELECTED_COMPOSER)),
     Field("historicalFixtures", Obj(historicalPins))]
  }

  /** What a manifest records of its predecessor: the digest of the predecessor's manifest. */
  function Link(version: string, digest: string): Json {
    Obj([Field("version", Str(version)), Field("manifestSha256", Str(digest)),
         Field("claim", Str("retained-provenance; current source does not replay previous implementation"))])
  }

  /** The first manifest of a version; None when the predecessor's manifest cannot be read. */
  ghost function NewManifest(p: Platform, st: State): Option<Json> {
    var base := BaseManifest(st.version, Pins(p, st.historical, Sorted(FixtureSources(st.historical))));
    match Predecessor(st.version)
    case None => Some(Obj(base))
    case Some(previous) =>
      if previous in st.manifests
      then Some(Obj(base + [Field("previousSelection", Link(previous, p.Sha256(st.manifests[previous])))]))
      else None
  }

  /** The normalised copies of the named historical fixtures. */
  function Copies(historical: map<string, string>, names: set<string>): map<string, string> {
    map n | n in historical && n in names :: Normalize(historical[n])
  }

  /** Initialisation: never touches an existing chain; without a predecessor it leaves copies but no manifest. */
  ghost function Initialize(p: Platform, st: State): Outcome {
    if !Registered(st.version) || st.version in st.chains then Outcome(st, false)
    else
      var copied := st.WithChain(Copies(st.historical, FixtureSources(st.historical)));
      match NewManifest(p, st)
      case None => Outcome(copied, false)
      case Some(manifest) =>
        Outcome(copied.(manifests := st.manifests[st.version := p.render(manifest)]), true)
  }

  function ChainOf(st: State, version: string): map<string, string> {
    if version in st.chains then st.chains[version] else map[]
  }

  function TextOf(v: Option<Json>): Option<string> {
    match v
    case Some(Str(s)) => Some(s)
    case _ => None
  }

  function VersionOf(manifest: Json): Option<string> {
    TextOf(Property(manifest, "version"))
  }

  /** What the walk reads of a link to a predecessor: only strings can pass its comparisons. */
  datatype LinkRecord = LinkRecord(version: Option<string>, digest: Option<string>)

  function LinkOf(manifest: Json): Option<LinkRecord> {
    match Property(manifest, "previousSelection")
    case Some(link) =>
      if Truthy(link) then Some(LinkRecord(TextOf(Property(link, "version")), TextOf(Property(link, "manifestSha256"))))
      else None
    case None => None
  }

  /** The predecessor's manifest, if it has the recorded digest and pins the bytes of its fixtures. */
  function Intact(p: Platform, digest: Option<string>, expected: string, manifest: string, chain: map<string, string>):
      (previous: Option<Json>)
    ensures previous.Some? ==> VersionOf(previous.value) == Some(expected)
  {
    var text := Normalize(manifest);
    if digest != Some(p.digest(text)) then None else
    var previous :- p.parse(text);
    var pins :- Entries(Property(previous, "selectedFixtures"));
    if VersionOf(previous) == Some(expected) && PinsMatch(p, chain, pins) then Some(previous) else None
  }

  /** The step of the walk: the predecessor a manifest names, if it is intact and fully pinned. */
  function Retained(p: Platform, st: State, manifest: Json): (previous: Option<Json>)
    ensures previous.Some? ==> VersionOf(manifest).Some? && LinkOf(manifest).Some?
    ensures previous.Some? ==> VersionOf(previous.value) == Predecessor(VersionOf(manifest).value)
                               && VersionOf(previous.value).Some?
  {
    var link :- LinkOf(manifest);
    var version :- VersionOf(manifest);
    var expected :- Predecessor(version);
    if link.version != Some(expected) || expected !in st.manifests then None
    else Intact(p, link.digest, expected, st.manifests[expected], ChainOf(st, expected))
  }

  function ManifestRank(manifest: Json): nat {
    match VersionOf(manifest)
    case Some(v) => Rank(v)
    case None => 0
  }

  /** The backward walk from a manifest accepts; its measure is the rank of the registered version. */
  predicate WalkAccepts(p: Platform, st: State, manifest: Json)
    decreases ManifestRank(manifest)
  {
    LinkOf(manifest) == None ||
    (Retained(p, st, manifest).Some? &&
     (RetainedRankDrops(p, st, manifest); WalkAccepts(p, st, Retained(p, st, manifest).value)))
  }

  lemma RetainedRankDrops(p: Platform, st: State, manifest: Json)
    requires Retained(p, st, manifest).Some?
    ensures ManifestRank(Retained(p, st, manifest).value) < ManifestRank(manifest)
  {
    VersionsDiffer();
  }

  /** Strict equality of two property reads: no two objects are the same object. */
  predicate StrictEqual(a: Option<Json>, b: Option<Json>) {
    a == b && (a.Some? ==> !a.value.Obj? && !a.value.Arr?)
  }

  predicate SelectedBytesMatch(p: Platform, st: State, manifest: Json) {
    var pins := Entries(Property(manifest, "selectedFixtures"));
    VersionOf(manifest) == Some(st.version) && pins.Some? && PinsMatch(p, st.Chain(), pins.value)
  }

  /** The verifier's ancestry check of one selected fixture. */
  predicate AncestryOk(manifest: Json, selected: Json) {
    var composer := Property(selected, "composerEvidence");
    composer.Some? && Truthy(composer.value) ==>
      composer.value != Null && StrictEqual(Property(composer.value, "sha256"), Property(manifest, "selectedComposer"))
  }

  /** Restoring the historical ancestry in an owner projection must give the historical identity. */
  predicate PayloadMatches(p: Platform, projection: Json, reference: Json, composer: Option<Json>) {
    var producer := Property(projection, "producer");
    && projection.Obj? && composer.Some?
    && producer.Some? && producer.value.Obj?
    && Find(producer.value.fields, "representationCompositionEvidenceKey").Some?
    && Truthy(Find(producer.value.fields, "representationCompositionEvidenceKey").value)
    && var restored := Obj(Put(producer.value.fields, "representationCompositionEvidenceKey", composer.value));
       var subject := Obj(Put(Without(projection.fields, {"projectionIdentity"}), "producer", restored));
       var identity := p.canonical(subject);
       && identity.Some? && reference.Obj?
       && Has(reference.fields, "algorithm") && Has(reference.fields, "byteLength") && Has(reference.fields, "sha256")
       && DeepEqual(identity.value, Obj([
            Field("algorithm", Find(reference.fields, "algorithm").value),
            Field("byteLength", Find(reference.fields, "byteLength").value),
            Field("sha256", Find(reference.fields, "sha256").value)]))
  }

  predicate OwnerProjectionOk(p: Platform, st: State, historical: Json) {
    var reference := Property(historical, "profileProjection");
    && reference.Some? && Property(reference.value, "sha256").Some?
    && Truthy(Property(reference.value, "sha256").value) ==>
      match Property(reference.value, "schema")
      case Some(Str(schema)) =>
        (match ProfileKind(PROFILE_KINDS, schema)
         case Some(kind) =>
           var path := "conformance/search-compiler/build/" + kind + "-profiles.json";
           var projection := ReadProducer(p, st.producers, path);
           projection.Some? &&
           PayloadMatches(p, projection.value, reference.value, Property(historical, "composerEvidence"))
         case None => false)
      case _ => false
  }

  predicate FixtureOk(p: Platform, st: State, manifest: Json, name: string) {
    && name in st.Chain() && name in st.historical
    && SameSemantics(p, st.Chain()[name], st.historical[name])
    && AncestryOk(manifest, p.parse(st.Chain()[name]).value)
    && OwnerProjectionOk(p, st, p.parse(st.historical[name]).value)
  }

  predicate ComposerOk(p: Platform, st: State, manifest: Json) {
    var evidence := ReadProducer(p, st.producers, "conformance/search-compiler/build/evidence.json");
    && evidence.Some? && Property(evidence.value, "status") == Some(Str("pass"))
    && var key := Property(evidence.value, "representationCompositionEvidenceKey");
       key.Some? && key.value != Null &&
       StrictEqual(Property(key.value, "sha256"), Property(manifest, "selectedComposer"))
  }

  predicate PinTablesAgree(manifest: Json) {
    var h, s := Entries(Property(manifest, "historicalFixtures")), Entries(Property(manifest, "selectedFixtures"));
    h.Some? && s.Some? && KeysOf(h.value) == KeysOf(s.value)
  }

  /** Everything the verifier checks outside the walk and the single fixtures. */
  predicate HeadOk(p: Platform, st: State, manifest: Json) {
    && HistoricalBytesMatch(p, st, manifest) && SelectedBytesMatch(p, st, manifest) && PinTablesAgree(manifest)
    && Property(manifest, "selectionSourceSha256") == Some(Str(p.Sha256(st.selector)))
    && ComposerOk(p, st, manifest)
  }

  /** The verification tool accepts. */
  predicate Verifies(p: Platform, st: State) {
    var manifest := ReadManifest(p, st, st.version);
    && manifest.Some? && manifest.value != Null
    && WalkAccepts(p, st, manifest.value)
    && HeadOk(p, st, manifest.value)
    && forall k :: k in KeysOf(Entries(Property(manifest.value, "historicalFixtures")).value) ==>
         FixtureOk(p, st, manifest.value, k)
  }

  function NamesOf(pins: seq<Field>): (names: seq<string>)
    ensures |names| == |pins| && forall i :: 0 <= i < |pins| ==> names[i] == pins[i].key
  {
    seq(|pins|, i requires 0 <= i < |pins| => pins[i].key)
  }

  predicate Pinnable(p: Platform, st: State, pins: seq<Field>) {
    forall i :: 0 <= i < |pins| ==>
      && pins[i].key in st.Chain() && pins[i].key in st.historical
      && SameSemantics(p, st.Chain()[pins[i].key], st.historical[pins[i].key])
  }

  /** A manifest with both pin records replaced by what the selection is now. */
  function Pinned(p: Platform, st: State, fields: seq<Field>, pins: seq<Field>): seq<Field>
    requires forall i :: 0 <= i < |pins| ==> pins[i].key in st.Chain()
  {
    Put(Put(fields, "selectedFixtures", Obj(Pins(p, st.Chain(), NamesOf(pins)))),
        "selectionSourceSha256", Str(p.Sha256(st.selector)))
  }

  /** Pinning: only a clean and semantically unchanged selection is recorded, and only in its manifest. */
  ghost function Pin(p: Platform, st: State): Outcome {
    match ReadManifest(p, st, st.version)
    case Some(Obj(fields)) =>
      var pins := Entries(Property(Obj(fields), "historicalFixtures"));
      if VersionOf(Obj(fields)) != Some(st.version) || !HistoricalBytesMatch(p, st, Obj(fields)) ||
         Run(p, Check, None, st).verdict != Clean || !Pinnable(p, st, pins.value)
      then Outcome(st, false)
      else
        var pinned := Pinned(p, st, fields, pins.value);
        Outcome(st.(manifests := st.manifests[st.version := p.render(Obj(pinned))]), true)
    case _ => Outcome(st, false)
  }
}
