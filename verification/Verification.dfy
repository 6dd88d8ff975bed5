/** What the verifier decides, said by lookup in the files it reads. */
module Verification {
  import opened Base
  import opened Json
  import LineEndings
  import opened ReferenceSelection
  import opened EvidenceFields
  import opened Repository
  import opened EvidenceLocks
  import opened Preservation
  import opened ReferenceChain
  import opened Agreement
  import opened Provenance
  import opened Writing

  // ----- the walk

  predicate IsFalsy(v: Json) {
    v == Null || v == Bool(false) || v == Int(0) || v == Float("-0") || v == Str("")
  }

  predicate HasLink(manifest: Json) {
    Property(manifest, "previousSelection").Some? && !IsFalsy(Property(manifest, "previousSelection").value)
  }

  /** The only links between versions. */
  predicate Follows(v: string, w: string) {
    (v == "0.0.0-dev.3" && w == "0.0.0-dev.2") || (v == "0.0.0-dev.2" && w == "0.0.0-dev.1")
  }

  function Text(text: string): string {
    LineEndings.Normalize(text)
  }

  /** A manifest of version v links by digest to one of version w that pins the fixtures of that version as they are. */
  ghost predicate RetainsFrom(p: Platform, st: State, manifest: Json, previous: Json, v: string, w: string) {
    && Property(manifest, "version") == Some(Str(v)) && Property(manifest, "previousSelection").Some?
    && w in st.manifests && p.parse(Text(st.manifests[w])) == Some(previous)
    && Property(previous, "version") == Some(Str(w))
    && TableStands(p, if w in st.chains then st.chains[w] else map[], Property(previous, "selectedFixtures"))
    && var link := Property(manifest, "previousSelection").value;
       && Property(link, "version") == Some(Str(w))
       && Property(link, "manifestSha256") == Some(Str(p.digest(Text(st.manifests[w]))))
  }

  ghost predicate Retains(p: Platform, st: State, manifest: Json, previous: Json) {
    exists v, w :: Follows(v, w) && RetainsFrom(p, st, manifest, previous, v, w)
  }

  lemma FalsyMeans(v: Json)
    ensures IsFalsy(v) <==> !Truthy(v)
  {
  }

  lemma LinkMeans(manifest: Json)
    ensures HasLink(manifest) <==> LinkOf(manifest).Some?
    ensures LinkOf(manifest).Some? ==>
              var link := Property(manifest, "previousSelection").value;
              LinkOf(manifest).value ==
              LinkRecord(TextOf(Property(link, "version")), TextOf(Property(link, "manifestSha256")))
  {
    hide Index, Find;
    if Property(manifest, "previousSelection").Some? {
      FalsyMeans(Property(manifest, "previousSelection").value);
    }
  }

  lemma FollowsMeans(v: string, w: string)
    ensures Follows(v, w) <==> Predecessor(v) == Some(w)
  {
    VersionsDiffer();
  }

  lemma TableMeansPins(p: Platform, files: map<string, string>, table: Option<Json>)
    ensures TableStands(p, files, table) <==> Entries(table).Some? && PinsMatch(p, files, Entries(table).value)
  {
  }

  lemma IntactMeans(p: Platform, digest: Option<string>, w: string, manifest: string, chain: map<string, string>,
                    previous: Json)
    ensures Intact(p, digest, w, manifest, chain) == Some(previous) <==>
            && digest == Some(p.digest(Text(manifest))) && p.parse(Text(manifest)) == Some(previous)
            && Property(previous, "version") == Some(Str(w))
            && TableStands(p, chain, Property(previous, "selectedFixtures"))
  {
    hide Find, TableStands, PinsMatch, Entries;
    TableMeansPins(p, chain, Property(previous, "selectedFixtures"));
    TextMeans(Property(previous, "version"), w);
  }

  lemma TextMeans(v: Option<Json>, s: string)
    ensures TextOf(v) == Some(s) <==> v == Some(Str(s))
  {
  }

  lemma RetainedFrom(p: Platform, st: State, manifest: Json, previous: Json, v: string, w: string)
    requires Property(manifest, "version") == Some(Str(v)) && Predecessor(v) == Some(w)
    ensures Retained(p, st, manifest) == Some(previous) <==> RetainsFrom(p, st, manifest, previous, v, w)
  {
    hide Find, TableStands, Intact, IsFalsy, Predecessor, Truthy;
    var link := Property(manifest, "previousSelection");
    LinkMeans(manifest);
    if link.Some? {
      FalsyMeans(link.value);
      ObjectsAreTruthy(link.value);
      TextMeans(Property(link.value, "version"), w);
      if w in st.manifests {
        TextMeans(Property(link.value, "manifestSha256"), p.digest(Text(st.manifests[w])));
        IntactMeans(p, TextOf(Property(link.value, "manifestSha256")), w, st.manifests[w], ChainOf(st, w), previous);
      }
    }
  }

  lemma ObjectsAreTruthy(v: Json)
    ensures (exists k :: Property(v, k).Some?) ==> Truthy(v)
  {
  }

  /** A step of the walk goes through exactly if the manifest retains another. */
  lemma StepMeans(p: Platform, st: State, manifest: Json, previous: Json)
    ensures Retained(p, st, manifest) == Some(previous) <==> Retains(p, st, manifest, previous)
  {
    hide Property, RetainsFrom, Predecessor, LinkOf, Intact, Follows;
    forall v, w ensures Follows(v, w) <==> Predecessor(v) == Some(w) {
      FollowsMeans(v, w);
    }
    forall v, w | Property(manifest, "version") == Some(Str(v)) && Predecessor(v) == Some(w)
      ensures Retained(p, st, manifest) == Some(previous) <==> RetainsFrom(p, st, manifest, previous, v, w)
    {
      RetainedFrom(p, st, manifest, previous, v, w);
    }
    if Retained(p, st, manifest) == Some(previous) {
      var v := VersionOf(manifest).value;
      assert Property(manifest, "version") == Some(Str(v)) && Predecessor(v).Some?;
      assert RetainsFrom(p, st, manifest, previous, v, Predecessor(v).value);
    }
    if Retains(p, st, manifest, previous) {
      var v, w :| Follows(v, w) && RetainsFrom(p, st, manifest, previous, v, w);
      RetainsVersion(p, st, manifest, previous, v, w);
    }
  }

  lemma RetainsVersion(p: Platform, st: State, manifest: Json, previous: Json, v: string, w: string)
    ensures RetainsFrom(p, st, manifest, previous, v, w) ==> Property(manifest, "version") == Some(Str(v))
  {
  }

  /** The manifests from a head backwards, each retaining the next, the last without a link. */
  ghost predicate IsRetainedChain(p: Platform, st: State, manifests: seq<Json>) {
    && manifests != [] && !HasLink(manifests[|manifests| - 1])
    && forall i :: 0 <= i < |manifests| - 1 ==> HasLink(manifests[i]) && Retains(p, st, manifests[i], manifests[i + 1])
  }

  ghost predicate WalkEnds(p: Platform, st: State, manifest: Json) {
    exists manifests :: IsRetainedChain(p, st, manifests) && manifests[0] == manifest
  }

  lemma {:induction false} ChainIsWalked(p: Platform, st: State, manifests: seq<Json>)
    requires IsRetainedChain(p, st, manifests)
    ensures WalkAccepts(p, st, manifests[0])
    decreases |manifests|
  {
    hide HasLink, Retains, Retained, LinkOf;
    LinkMeans(manifests[0]);
    if |manifests| > 1 {
      var rest := manifests[1..];
      forall i | 0 <= i < |rest| - 1 ensures HasLink(rest[i]) && Retains(p, st, rest[i], rest[i + 1]) {
        assert rest[i] == manifests[i + 1] && rest[i + 1] == manifests[i + 1 + 1];
      }
      assert rest[|rest| - 1] == manifests[|manifests| - 1];
      assert Retains(p, st, manifests[0], manifests[0 + 1]);
      ChainIsWalked(p, st, rest);
      StepMeans(p, st, manifests[0], manifests[1]);
    }
  }

  lemma {:induction false} WalkedIsChain(p: Platform, st: State, manifest: Json) returns (manifests: seq<Json>)
    requires WalkAccepts(p, st, manifest)
    ensures IsRetainedChain(p, st, manifests) && manifests[0] == manifest
    decreases ManifestRank(manifest)
  {
    hide HasLink, Retains, Retained, LinkOf;
    LinkMeans(manifest);
    if LinkOf(manifest) == None {
      manifests := [manifest];
    } else {
      var previous := Retained(p, st, manifest).value;
      RetainedRankDrops(p, st, manifest);
      StepMeans(p, st, manifest, previous);
      var rest := WalkedIsChain(p, st, previous);
      manifests := [manifest] + rest;
      forall i | 0 <= i < |manifests| - 1
        ensures HasLink(manifests[i]) && Retains(p, st, manifests[i], manifests[i + 1])
      {
        if i > 0 {
          assert manifests[i] == rest[i - 1] && manifests[i + 1] == rest[i - 1 + 1];
        }
      }
    }
  }

  /** The walk accepts exactly if the manifest heads a chain of retained ones. */
  lemma WalkMeans(p: Platform, st: State, manifest: Json)
    ensures WalkAccepts(p, st, manifest) <==> WalkEnds(p, st, manifest)
  {
    hide WalkAccepts, Retains, HasLink;
    if WalkAccepts(p, st, manifest) {
      var manifests := WalkedIsChain(p, st, manifest);
    }
    if WalkEnds(p, st, manifest) {
      var manifests :| IsRetainedChain(p, st, manifests) && manifests[0] == manifest;
      ChainIsWalked(p, st, manifests);
    }
  }

  // ----- ancestry and owner projections

  /** Two reads give one value that is no object; two absent properties do as well. */
  predicate SameRead(a: Option<Json>, b: Option<Json>) {
    a == b && (a == None || (!a.value.Obj? && !a.value.Arr?))
  }

  const KEY := "representationCompositionEvidenceKey"

  /** The composer a fixture names, if it names one, is the one the manifest selected. */
  predicate NamesSelectedComposer(manifest: Json, fixture: Json) {
    var composer := Property(fixture, "composerEvidence");
    composer.Some? && !IsFalsy(composer.value) ==>
      SameRead(Property(composer.value, "sha256"), Property(manifest, "selectedComposer"))
  }

  lemma AncestryMeans(manifest: Json, fixture: Json)
    ensures AncestryOk(manifest, fixture) <==> NamesSelectedComposer(manifest, fixture)
  {
    hide Find;
    if Property(fixture, "composerEvidence").Some? {
      FalsyMeans(Property(fixture, "composerEvidence").value);
    }
  }

  /** The composer of the build passed, and its key has the hash that the manifest selected. */
  ghost predicate ComposerIsSelected(p: Platform, st: State, manifest: Json) {
    var path := "conformance/search-compiler/build/evidence.json";
    && Declared(p, st.producers, path, "status") == Some(Str("pass"))
    && Declared(p, st.producers, path, KEY).Some?
    && Declared(p, st.producers, path, KEY).value != Null
    && SameRead(Property(Declared(p, st.producers, path, KEY).value, "sha256"), Property(manifest, "selectedComposer"))
  }

  lemma ComposerMeansSelected(p: Platform, st: State, manifest: Json)
    ensures ComposerOk(p, st, manifest) <==> ComposerIsSelected(p, st, manifest)
  {
    hide Find;
  }

  /** The producer with another composer in the place of the one it names. */
  predicate HasComposer(producer: Json, composer: Json, restored: Json) {
    && producer.Obj? && restored.Obj? && SameKeys(producer.fields, restored.fields)
    && forall i :: 0 <= i < |producer.fields| ==>
         restored.fields[i].value == if producer.fields[i].key == KEY then composer else producer.fields[i].value
  }

  predicate IsRestoredField(f: Field, composer: Json, g: Field) {
    g.key == f.key && if f.key == "producer" then HasComposer(f.value, composer, g.value) else g.value == f.value
  }

  /** The projection without its identity, and with another composer in the place of the one its producer names. */
  predicate IsRestored(projection: Json, composer: Json, subject: Json) {
    projection.Obj? && subject.Obj? &&
    var cut := Index(projection.fields, "projectionIdentity");
    && |subject.fields| == |projection.fields| - (if cut < |projection.fields| then 1 else 0)
    && forall j :: 0 <= j < |subject.fields| ==>
         IsRestoredField(projection.fields[if j < cut then j else j + 1], composer, subject.fields[j])
  }

  /** An identity record agrees with the algorithm, length and hash that a reference holds. */
  ghost predicate AgreesWith(identity: Json, reference: Json) {
    && Property(reference, "algorithm").Some? && Property(reference, "byteLength").Some?
    && Property(reference, "sha256").Some?
    && Agree(identity, Obj([
         Field("algorithm", Property(reference, "algorithm").value),
         Field("byteLength", Property(reference, "byteLength").value),
         Field("sha256", Property(reference, "sha256").value)]))
  }

  /** With the historical composer put back, the projection has the identity that the history refers to. */
  ghost predicate PayloadIsHistorical(p: Platform, projection: Json, reference: Json, composer: Option<Json>) {
    && composer.Some? && Property(projection, "producer").Some?
    && Property(Property(projection, "producer").value, KEY).Some?
    && !IsFalsy(Property(Property(projection, "producer").value, KEY).value)
    && exists subject, identity ::
         IsRestored(projection, composer.value, subject) && p.canonical(subject) == Some(identity)
         && AgreesWith(identity, reference)
  }

  lemma {:induction false} NothingLeftOut(fields: seq<Field>, key: string)
    requires forall i :: 0 <= i < |fields| ==> fields[i].key != key
    ensures Without(fields, {key}) == fields
  {
    if fields != [] {
      NothingLeftOut(fields[1..], key);
      assert fields == [fields[0]] + fields[1..];
    }
  }

  /** Without one property the fields move up behind it. */
  lemma {:induction false} WithoutOne(fields: seq<Field>, key: string)
    requires Distinct(fields)
    ensures var cut, kept := Index(fields, key), Without(fields, {key});
            && |kept| == |fields| - (if cut < |fields| then 1 else 0)
            && forall j :: 0 <= j < |kept| ==> kept[j] == fields[if j < cut then j else j + 1]
  {
    hide Without, Index, Distinct;
    WithoutHead(fields, key);
    if fields != [] {
      TailIsDistinct(fields);
      if fields[0].key == key {
        NothingLeftOut(fields[1..], key);
      } else {
        WithoutOne(fields[1..], key);
        MovedUp(fields, Without(fields[1..], {key}), Index(fields[1..], key));
      }
    }
  }

  lemma WithoutHead(fields: seq<Field>, key: string)
    ensures fields == [] ==> Without(fields, {key}) == [] && Index(fields, key) == 0
    ensures fields != [] && fields[0].key == key ==>
              Without(fields, {key}) == Without(fields[1..], {key}) && Index(fields, key) == 0
    ensures fields != [] && fields[0].key != key ==>
              Without(fields, {key}) == [fields[0]] + Without(fields[1..], {key})
              && Index(fields, key) == Index(fields[1..], key) + 1
  {
    assert forall rest: seq<Field> :: [] + rest == rest;
  }

  /** What holds of the tail holds one place further behind a field that is kept. */
  lemma MovedUp(fields: seq<Field>, below: seq<Field>, cut: nat)
    requires fields != [] && cut <= |fields[1..]|
    requires |below| == |fields[1..]| - (if cut < |fields[1..]| then 1 else 0)
    requires forall j :: 0 <= j < |below| ==> below[j] == fields[1..][if j < cut then j else j + 1]
    ensures var kept := [fields[0]] + below;
            && |kept| == |fields| - (if cut + 1 < |fields| then 1 else 0)
            && forall j :: 0 <= j < |kept| ==> kept[j] == fields[if j < cut + 1 then j else j + 1]
  {
    var kept := [fields[0]] + below;
    forall j | 0 <= j < |kept| ensures kept[j] == fields[if j < cut + 1 then j else j + 1] {
      if j > 0 {
        assert kept[j] == below[j - 1];
      }
    }
  }

  lemma TailIsDistinct(fields: seq<Field>)
    requires fields != [] && Distinct(fields)
    ensures Distinct(fields[1..]) && forall i :: 0 <= i < |fields[1..]| ==> fields[1..][i].key != fields[0].key
  {
    assert forall i :: 0 <= i < |fields[1..]| ==> fields[1..][i] == fields[i + 1];
  }

  function Restored(projection: Json, composer: Json): Json
    requires projection.Obj? && Property(projection, "producer").Some? && Property(projection, "producer").value.Obj?
  {
    var producer := Property(projection, "producer").value;
    Obj(Put(Without(projection.fields, {"projectionIdentity"}), "producer", Obj(Put(producer.fields, KEY, composer))))
  }

  lemma PutHasComposer(producer: Json, composer: Json)
    requires producer.Obj? && Distinct(producer.fields) && Has(producer.fields, KEY)
    ensures HasComposer(producer, composer, Obj(Put(producer.fields, KEY, composer)))
  {
    var fields := producer.fields;
    PutInPlace(fields, KEY, composer);
    forall i | 0 <= i < |fields| ensures fields[i].key == KEY <==> i == Index(fields, KEY) {
      if fields[i].key == KEY {
        IndexIsUnique(fields, i);
      }
    }
  }

  lemma OneComposer(producer: Json, composer: Json, a: Json, b: Json)
    requires HasComposer(producer, composer, a) && HasComposer(producer, composer, b)
    ensures a == b
  {
    assert forall i :: 0 <= i < |producer.fields| ==> a.fields[i] == b.fields[i];
    assert a.fields == b.fields;
  }

  /** There is one restored projection, the one the verifier computes. */
  lemma RestoredIsRestored(projection: Json, composer: Json, subject: Json)
    requires WellFormed(projection) && projection.Obj?
    requires Property(projection, "producer").Some? && Property(projection, "producer").value.Obj?
    requires Has(Property(projection, "producer").value.fields, KEY)
    ensures IsRestored(projection, composer, subject) <==> subject == Restored(projection, composer)
  {
    hide HasComposer, IndexKeysFirst, Without, Put, Find, Distinct;
    var fields := projection.fields;
    var producer := Property(projection, "producer").value;
    var cut, kept := Index(fields, "projectionIdentity"), Without(fields, {"projectionIdentity"});
    ProducerIsWellFormed(projection);
    PutHasComposer(producer, composer);
    var one := Obj(Put(producer.fields, KEY, composer));
    WithoutOne(fields, "projectionIdentity");
    KeptProducer(fields, kept, cut, producer);
    PutInPlace(kept, "producer", one);
    PutsAtProducer(fields, kept, one);
    var all := Put(kept, "producer", one);
    assert Restored(projection, composer) == Obj(all);
    forall j | 0 <= j < |all|
      ensures IsRestoredField(fields[if j < cut then j else j + 1], composer, all[j])
      ensures IsRestored(projection, composer, subject) ==> subject.fields[j] == all[j]
    {
      var f := fields[if j < cut then j else j + 1];
      assert f == kept[j];
      if IsRestored(projection, composer, subject) && f.key == "producer" {
        OneComposer(f.value, composer, subject.fields[j].value, all[j].value);
      }
    }
    if IsRestored(projection, composer, subject) {
      assert subject.fields == all;
    }
  }

  lemma ProducerIsWellFormed(projection: Json)
    requires WellFormed(projection) && projection.Obj? && Property(projection, "producer").Some?
    ensures WellFormed(Property(projection, "producer").value) && Distinct(projection.fields)
    ensures Property(projection, "producer").value.Obj? ==> Distinct(Property(projection, "producer").value.fields)
  {
    hide IndexKeysFirst;
    assert WellFormed(projection.fields[Index(projection.fields, "producer")].value);
  }

  /** What is kept has the producer still. */
  lemma KeptProducer(fields: seq<Field>, kept: seq<Field>, cut: nat, producer: Json)
    requires Distinct(fields) && Find(fields, "producer") == Some(producer) &&
             cut == Index(fields, "projectionIdentity")
    requires |kept| == |fields| - (if cut < |fields| then 1 else 0)
    requires forall j :: 0 <= j < |kept| ==> kept[j] == fields[if j < cut then j else j + 1]
    ensures Has(kept, "producer") && Distinct(kept)
    ensures forall j :: 0 <= j < |kept| && kept[j].key == "producer" ==> kept[j].value == producer
  {
    hide Distinct;
    assert |"producer"| == 8 && |"projectionIdentity"| == 18;
    var at := Index(fields, "producer");
    var place := if at < cut then at else at - 1;
    KeptIsDistinct(fields, kept, cut);
    ProducerIsKept(fields, kept, cut, at);
    IndexIsUnique(kept, place);
    forall j | 0 <= j < |kept| && kept[j].key == "producer" ensures kept[j].value == producer {
      IndexIsUnique(kept, j);
    }
  }

  lemma ProducerIsKept(fields: seq<Field>, kept: seq<Field>, cut: nat, at: nat)
    requires at < |fields| && at != cut && |kept| == |fields| - (if cut < |fields| then 1 else 0)
    requires forall j :: 0 <= j < |kept| ==> kept[j] == fields[if j < cut then j else j + 1]
    ensures var place := if at < cut then at else at - 1; place < |kept| && kept[place] == fields[at]
  {
    var place := if at < cut then at else at - 1;
    assert kept[place] == fields[if place < cut then place else place + 1];
  }

  lemma KeptIsDistinct(fields: seq<Field>, kept: seq<Field>, cut: nat)
    requires Distinct(fields) && cut <= |fields| && |kept| == |fields| - (if cut < |fields| then 1 else 0)
    requires forall j :: 0 <= j < |kept| ==> kept[j] == fields[if j < cut then j else j + 1]
    ensures Distinct(kept)
  {
  }

  lemma PutsAtProducer(fields: seq<Field>, kept: seq<Field>, one: Json)
    requires Has(kept, "producer") && Distinct(kept)
    ensures var all := Put(kept, "producer", one);
            |all| == |kept| && forall j :: 0 <= j < |kept| ==>
              all[j] == if kept[j].key == "producer" then Field("producer", one) else kept[j]
  {
    PutInPlace(kept, "producer", one);
    forall j | 0 <= j < |kept| && kept[j].key == "producer" ensures j == Index(kept, "producer") {
      IndexIsUnique(kept, j);
    }
  }

  lemma AgreesMeans(identity: Json, reference: Json)
    requires reference.Obj? && Has(reference.fields, "algorithm") && Has(reference.fields, "byteLength")
    requires Has(reference.fields, "sha256")
    ensures AgreesWith(identity, reference) <==>
            DeepEqual(identity, Obj([
              Field("algorithm", Find(reference.fields, "algorithm").value),
              Field("byteLength", Find(reference.fields, "byteLength").value),
              Field("sha256", Find(reference.fields, "sha256").value)]))
  {
    hide Agree, MeaningOf, Index;
    AgreeIsMeaning(identity, Obj([
      Field("algorithm", Find(reference.fields, "algorithm").value),
      Field("byteLength", Find(reference.fields, "byteLength").value),
      Field("sha256", Find(reference.fields, "sha256").value)]));
  }

  /** The verifier accepts a payload exactly if it is historical. */
  lemma PayloadMeans(p: Platform, projection: Json, reference: Json, composer: Option<Json>)
    requires WellFormed(projection)
    ensures PayloadMatches(p, projection, reference, composer) <==>
              PayloadIsHistorical(p, projection, reference, composer)
  {
    hide WellFormed, IsRestored, AgreesWith, DeepEqual, Put, Without, Index;
    var producer := Property(projection, "producer");
    if projection.Obj? && composer.Some? && producer.Some? && producer.value.Obj? && Has(producer.value.fields, KEY) {
      FalsyMeans(Find(producer.value.fields, KEY).value);
      RestoredOnly(p, projection, composer.value);
      if reference.Obj? && Has(reference.fields, "algorithm") && Has(reference.fields, "byteLength")
         && Has(reference.fields, "sha256") {
        forall identity
          ensures AgreesWith(identity, reference) <==>
                  DeepEqual(identity, Obj([
                    Field("algorithm", Find(reference.fields, "algorithm").value),
                    Field("byteLength", Find(reference.fields, "byteLength").value),
                    Field("sha256", Find(reference.fields, "sha256").value)]))
        {
          AgreesMeans(identity, reference);
        }
      } else {
        NoReference(reference);
      }
    }
  }

  lemma NoReference(reference: Json)
    requires !(reference.Obj? && Has(reference.fields, "algorithm") && Has(reference.fields, "byteLength")
               && Has(reference.fields, "sha256"))
    ensures forall identity :: !AgreesWith(identity, reference)
  {
    hide Agree;
  }

  lemma RestoredOnly(p: Platform, projection: Json, composer: Json)
    requires WellFormed(projection) && projection.Obj?
    requires Property(projection, "producer").Some? && Property(projection, "producer").value.Obj?
    requires Has(Property(projection, "producer").value.fields, KEY)
    ensures forall subject :: IsRestored(projection, composer, subject) <==> subject == Restored(projection, composer)
  {
    hide WellFormed, IsRestored, Restored;
    forall subject ensures IsRestored(projection, composer, subject) <==> subject == Restored(projection, composer) {
      RestoredIsRestored(projection, composer, subject);
    }
  }

  // ----- the verifier

  /** A fixture that refers to an owner projection refers to a registered kind whose payload is historical. */
  ghost predicate OwnerStands(p: Platform, producers: map<string, string>, historical: Json) {
    var reference := Property(historical, "profileProjection");
    && reference.Some? && Property(reference.value, "sha256").Some?
    && !IsFalsy(Property(reference.value, "sha256").value) ==>
      exists kind :: Projects(reference.value, kind) && KindStands(p, producers, historical, reference.value, kind)
  }

  ghost predicate KindStands(p: Platform, producers: map<string, string>, historical: Json, reference: Json,
                             kind: string) {
    var path := "conformance/search-compiler/build/" + kind + "-profiles.json";
    && path in producers && p.parse(producers[path]).Some?
    && PayloadIsHistorical(p, p.parse(producers[path]).value, reference, Property(historical, "composerEvidence"))
  }

  lemma OwnerStandsMeans(p: Platform, st: State, historical: Json)
    requires p.Faithful()
    ensures OwnerProjectionOk(p, st, historical) <==> OwnerStands(p, st.producers, historical)
  {
    hide Platform.Faithful, Find, PayloadMatches, PayloadIsHistorical, ProfileKind, Projects, IsFalsy, Truthy;
    var reference := Property(historical, "profileProjection");
    if reference.Some? && Property(reference.value, "sha256").Some? {
      FalsyMeans(Property(reference.value, "sha256").value);
      forall kind
        ensures Projects(reference.value, kind) <==>
                Property(reference.value, "schema").Some? && Property(reference.value, "schema").value.Str?
                && ProfileKind(PROFILE_KINDS, Property(reference.value, "schema").value.s) == Some(kind)
        ensures KindStands(p, st.producers, historical, reference.value, kind) <==>
                var path := "conformance/search-compiler/build/" + kind + "-profiles.json";
                var projection := ReadProducer(p, st.producers, path);
                projection.Some? &&
                PayloadMatches(p, projection.value, reference.value, Property(historical, "composerEvidence"))
      {
        KindMeans(reference.value, kind);
        var path := "conformance/search-compiler/build/" + kind + "-profiles.json";
        if path in st.producers && p.parse(st.producers[path]).Some? {
          ParsedIsWellFormed(p, st.producers[path]);
          PayloadMeans(p, p.parse(st.producers[path]).value, reference.value, Property(historical, "composerEvidence"));
        }
      }
    }
  }

  /** A table pins a name. */
  predicate IsPinned(table: Option<Json>, k: string) {
    table.Some? && Property(table.value, k).Some?
  }

  /** Everything the verifier asks of the selected manifest. */
  ghost predicate IsVerified(p: Platform, st: State, manifest: Json) {
    var historical, selected := Property(manifest, "historicalFixtures"), Property(manifest, "selectedFixtures");
    && WalkEnds(p, st, manifest)
    && Property(manifest, "version") == Some(Str(st.version))
    && TableStands(p, st.historical, historical) && TableStands(p, st.Chain(), selected)
    && (forall k :: IsPinned(historical, k) <==> IsPinned(selected, k))
    && Property(manifest, "selectionSourceSha256") == Some(Str(p.digest(Text(st.selector))))
    && ComposerIsSelected(p, st, manifest)
    && forall k :: IsPinned(historical, k) ==> FixtureIsVerified(p, st, manifest, k)
  }

  /** A selected fixture agrees with its historical one, names the selected composer, and its owner stands. */
  ghost predicate FixtureIsVerified(p: Platform, st: State, manifest: Json, k: string) {
    && k in st.Chain() && k in st.historical && AgreeAsFixtures(p, st.Chain()[k], st.historical[k])
    && NamesSelectedComposer(manifest, p.parse(st.Chain()[k]).value)
    && OwnerStands(p, st.producers, p.parse(st.historical[k]).value)
  }

  lemma FixtureVerifiedMeans(p: Platform, st: State, manifest: Json, k: string)
    requires p.Faithful()
    ensures FixtureOk(p, st, manifest, k) <==> FixtureIsVerified(p, st, manifest, k)
  {
    hide Platform.Faithful, SameSemantics, IsComparable, SameFixture, AncestryOk, NamesSelectedComposer, OwnerStands,
         OwnerProjectionOk;
    if k in st.Chain() && k in st.historical {
      SemanticsAreAgreement(p, st.Chain()[k], st.historical[k]);
      if p.parse(st.Chain()[k]).Some? && p.parse(st.historical[k]).Some? {
        AncestryMeans(manifest, p.parse(st.Chain()[k]).value);
        OwnerStandsMeans(p, st, p.parse(st.historical[k]).value);
      }
    }
  }

  lemma PinnedKeys(table: Option<Json>, k: string)
    requires Entries(table).Some?
    ensures k in KeysOf(Entries(table).value) <==> IsPinned(table, k)
  {
    hide KeysOf, Find;
    KeysAreFound(Entries(table).value, k);
    NothingFound(k);
  }

  lemma TablesMean(manifest: Json)
    requires Entries(Property(manifest, "historicalFixtures")).Some? &&
             Entries(Property(manifest, "selectedFixtures")).Some?
    ensures PinTablesAgree(manifest) <==>
            forall k :: IsPinned(Property(manifest, "historicalFixtures"), k) <==>
                        IsPinned(Property(manifest, "selectedFixtures"), k)
  {
    hide KeysOf, Property, IsPinned, Entries;
    forall k
      ensures k in KeysOf(Entries(Property(manifest, "historicalFixtures")).value) <==>
              IsPinned(Property(manifest, "historicalFixtures"), k)
      ensures k in KeysOf(Entries(Property(manifest, "selectedFixtures")).value) <==>
              IsPinned(Property(manifest, "selectedFixtures"), k)
    {
      PinnedKeys(Property(manifest, "historicalFixtures"), k);
      PinnedKeys(Property(manifest, "selectedFixtures"), k);
    }
  }

  /** The manifest that the package version selects. */
  ghost predicate Selects(p: Platform, st: State, manifest: Json) {
    && (st.version == "0.0.0-dev.1" || st.version == "0.0.0-dev.2" || st.version == "0.0.0-dev.3")
    && st.version in st.manifests && p.parse(st.manifests[st.version]) == Some(manifest)
  }

  lemma SelectsMeans(p: Platform, st: State, manifest: Json)
    ensures ReadManifest(p, st, st.version) == Some(manifest) <==> Selects(p, st, manifest)
  {
  }

  /** The verifier accepts a repository exactly if the selected manifest is verified. */
  lemma VerifierMeans(p: Platform, st: State)
    requires p.Faithful()
    ensures Verifies(p, st) <==> exists manifest :: Selects(p, st, manifest) && IsVerified(p, st, manifest)
  {
    hide Platform.Faithful, Selects, IsVerified, ReadManifest, WalkAccepts, HeadOk, FixtureOk, Property;
    forall manifest ensures ReadManifest(p, st, st.version) == Some(manifest) <==> Selects(p, st, manifest) {
      SelectsMeans(p, st, manifest);
    }
    var manifest := ReadManifest(p, st, st.version);
    if manifest.Some? {
      VerifiedMeans(p, st, manifest.value);
      HeadHasTable(p, st, manifest.value);
    }
  }

  lemma HeadHasTable(p: Platform, st: State, manifest: Json)
    ensures HeadOk(p, st, manifest) ==> Entries(Property(manifest, "historicalFixtures")).Some?
  {
    hide Entries, PinsMatch, Property, ComposerOk, SelectedBytesMatch, PinTablesAgree;
  }

  lemma VerifiedMeans(p: Platform, st: State, manifest: Json)
    requires p.Faithful()
    ensures IsVerified(p, st, manifest) <==>
            && manifest != Null && WalkAccepts(p, st, manifest) && HeadOk(p, st, manifest)
            && forall k :: k in KeysOf(Entries(Property(manifest, "historicalFixtures")).GetOr([])) ==>
                 FixtureOk(p, st, manifest, k)
  {
    hide Platform.Faithful, WalkAccepts, WalkEnds, TableStands, PinsMatch, FixtureOk, FixtureIsVerified, ComposerOk,
         ComposerIsSelected, Property, Entries, IsPinned, KeysOf, PinTablesAgree;
    var historical, selected := Property(manifest, "historicalFixtures"), Property(manifest, "selectedFixtures");
    WalkMeans(p, st, manifest);
    TableMeansPins(p, st.historical, historical);
    TableMeansPins(p, st.Chain(), selected);
    TextMeans(Property(manifest, "version"), st.version);
    ComposerMeansSelected(p, st, manifest);
    NullHasNothing();
    if Entries(historical).Some? && Entries(selected).Some? {
      TablesMean(manifest);
      forall k
        ensures k in KeysOf(Entries(historical).value) <==> IsPinned(historical, k)
        ensures FixtureOk(p, st, manifest, k) <==> FixtureIsVerified(p, st, manifest, k)
      {
        PinnedKeys(historical, k);
        FixtureVerifiedMeans(p, st, manifest, k);
      }
    }
  }

  lemma NullHasNothing()
    ensures forall k :: Property(Null, k) == None
  {
  }

  // ----- what the payload check ignores

  /** Two producers differ at most in the composer they name, and both name one. */
  predicate SameProducer(a: Json, b: Json) {
    && a.Obj? && b.Obj? && SameKeys(a.fields, b.fields)
    && Property(a, KEY).Some? && !IsFalsy(Property(a, KEY).value)
    && Property(b, KEY).Some? && !IsFalsy(Property(b, KEY).value)
    && forall i :: 0 <= i < |a.fields| && a.fields[i].key != KEY ==> b.fields[i] == a.fields[i]
  }

  /** Two projections differ at most in their identity and in the composer their producer names. */
  predicate SamePayload(a: Json, b: Json) {
    && a.Obj? && b.Obj? && SameKeys(a.fields, b.fields)
    && Property(a, "producer").Some? && Property(b, "producer").Some?
    && SameProducer(Property(a, "producer").value, Property(b, "producer").value)
    && forall i :: 0 <= i < |a.fields| && a.fields[i].key != "projectionIdentity" && a.fields[i].key != "producer" ==>
         b.fields[i] == a.fields[i]
  }

  lemma SameComposerRestored(a: Json, b: Json, composer: Json, restored: Json)
    requires SameProducer(a, b)
    ensures HasComposer(a, composer, restored) ==> HasComposer(b, composer, restored)
  {
  }

  lemma SameRestored(a: Json, b: Json, composer: Json, subject: Json)
    requires SamePayload(a, b) && Distinct(a.fields) && IsRestored(a, composer, subject)
    ensures IsRestored(b, composer, subject)
  {
    hide HasComposer, SameProducer, Distinct, SamePayload, IsRestoredField, Index;
    RestoredShape(a, b);
    var cut := Index(a.fields, "projectionIdentity");
    forall j | 0 <= j < |subject.fields|
      ensures IsRestoredField(b.fields[if j < cut then j else j + 1], composer, subject.fields[j])
    {
      SameRestoredField(a, b, composer, if j < cut then j else j + 1, subject.fields[j]);
    }
  }

  lemma RestoredShape(a: Json, b: Json)
    requires SamePayload(a, b)
    ensures a.Obj? && b.Obj? && |a.fields| == |b.fields|
    ensures Index(b.fields, "projectionIdentity") == Index(a.fields, "projectionIdentity")
  {
    hide SameProducer;
    SameKeysSameIndex(a.fields, b.fields, "projectionIdentity");
  }

  lemma SameRestoredField(a: Json, b: Json, composer: Json, i: nat, g: Field)
    requires SamePayload(a, b) && Distinct(a.fields) && i < |a.fields| == |b.fields|
    requires i != Index(a.fields, "projectionIdentity") && IsRestoredField(a.fields[i], composer, g)
    ensures IsRestoredField(b.fields[i], composer, g)
  {
    hide HasComposer, SameProducer;
    SameKeysSameIndex(a.fields, b.fields, "producer");
    IndexIsUnique(a.fields, i);
    if a.fields[i].key == "producer" {
      SameComposerRestored(a.fields[i].value, b.fields[i].value, composer, g.value);
    }
  }

  lemma PayloadSymmetric(a: Json, b: Json)
    requires SamePayload(a, b)
    ensures SamePayload(b, a)
  {
    hide IsFalsy, Find, Index;
  }

  /** Another composer in the producer, or another identity, changes nothing for the verdict on a payload. */
  lemma PayloadIgnoresAncestry(p: Platform, a: Json, b: Json, reference: Json, composer: Option<Json>)
    requires WellFormed(a) && WellFormed(b) && SamePayload(a, b)
    ensures PayloadIsHistorical(p, a, reference, composer) <==> PayloadIsHistorical(p, b, reference, composer)
  {
    hide IsRestored, AgreesWith, IsFalsy, Index, IndexKeysFirst;
    PayloadSymmetric(a, b);
    if PayloadIsHistorical(p, a, reference, composer) {
      var subject, identity :| IsRestored(a, composer.value, subject) && p.canonical(subject) == Some(identity)
                               && AgreesWith(identity, reference);
      SameRestored(a, b, composer.value, subject);
    }
    if PayloadIsHistorical(p, b, reference, composer) {
      var subject, identity :| IsRestored(b, composer.value, subject) && p.canonical(subject) == Some(identity)
                               && AgreesWith(identity, reference);
      SameRestored(b, a, composer.value, subject);
    }
  }

  /** The projection without its identity. */
  predicate IsSubject(projection: Json, subject: Json) {
    projection.Obj? && subject.Obj? &&
    var cut := Index(projection.fields, "projectionIdentity");
    && |subject.fields| == |projection.fields| - (if cut < |projection.fields| then 1 else 0)
    && forall j :: 0 <= j < |subject.fields| ==> subject.fields[j] == projection.fields[if j < cut then j else j + 1]
  }

  /**
   * Where the historical composer stands in the projection already, the verdict is whether the canonical
   * identity of the projection, its own identity aside, is the one that the history refers to.
   */
  lemma HistoricalPayloadIsCompared(p: Platform, projection: Json, reference: Json, composer: Json)
    requires WellFormed(projection) && Property(projection, "producer").Some?
    requires Property(Property(projection, "producer").value, KEY) == Some(composer) && !IsFalsy(composer)
    ensures PayloadIsHistorical(p, projection, reference, Some(composer)) <==>
            exists subject, identity :: IsSubject(projection, subject) && p.canonical(subject) == Some(identity)
                                        && AgreesWith(identity, reference)
  {
    hide AgreesWith, IsFalsy, IndexKeysFirst, IsRestored, IsSubject;
    forall subject ensures IsRestored(projection, composer, subject) <==> IsSubject(projection, subject) {
      StandsAlready(projection, composer, subject);
    }
  }

  lemma ComposerStands(producer: Json, composer: Json, restored: Json)
    requires producer.Obj? && Distinct(producer.fields) && Property(producer, KEY) == Some(composer)
    ensures HasComposer(producer, composer, restored) <==> restored == producer
  {
    forall i | 0 <= i < |producer.fields| && producer.fields[i].key == KEY
      ensures producer.fields[i].value == composer
    {
      IndexIsUnique(producer.fields, i);
    }
    if HasComposer(producer, composer, restored) {
      assert forall i :: 0 <= i < |producer.fields| ==> restored.fields[i] == producer.fields[i];
      assert restored.fields == producer.fields;
    }
  }

  lemma StandsAlready(projection: Json, composer: Json, subject: Json)
    requires WellFormed(projection) && Property(projection, "producer").Some?
    requires Property(Property(projection, "producer").value, KEY) == Some(composer)
    ensures IsRestored(projection, composer, subject) <==> IsSubject(projection, subject)
  {
    hide HasComposer, IndexKeysFirst, WellFormed;
    var fields := projection.fields;
    ProducerIsWellFormed(projection);
    if projection.Obj? && subject.Obj? {
      forall i, g: Field | 0 <= i < |fields| && fields[i].key == "producer"
        ensures HasComposer(fields[i].value, composer, g.value) <==> g.value == fields[i].value
      {
        IndexIsUnique(fields, i);
        ComposerStands(fields[i].value, composer, g.value);
      }
    }
  }

  function ProfilesPath(kind: string): string {
    "conformance/search-compiler/build/" + kind + "-profiles.json"
  }

  lemma ProfilesAreNotEvidence(kind: string)
    ensures ProfilesPath(kind) != "conformance/search-compiler/build/evidence.json"
  {
    var a, b := ProfilesPath(kind), "conformance/search-compiler/build/evidence.json";
    assert a[|a| - 6] == 's' && b[|b| - 6] == 'e';
  }

  /** For the verifier, another composer or another identity in an owner projection is no change at all. */
  lemma VerifierIgnoresOwnerAncestry(p: Platform, st: State, kind: string, text: string)
    requires p.Faithful() && ProfilesPath(kind) in st.producers
    requires p.parse(st.producers[ProfilesPath(kind)]).Some? && p.parse(text).Some?
    requires SamePayload(p.parse(st.producers[ProfilesPath(kind)]).value, p.parse(text).value)
    ensures Verifies(p, st.(producers := st.producers[ProfilesPath(kind) := text])) <==> Verifies(p, st)
  {
    hide Platform.Faithful, Verifies, IsVerified, Selects, SamePayload;
    var st' := st.(producers := st.producers[ProfilesPath(kind) := text]);
    VerifierMeans(p, st);
    VerifierMeans(p, st');
    forall manifest
      ensures Selects(p, st', manifest) <==> Selects(p, st, manifest)
      ensures IsVerified(p, st', manifest) <==> IsVerified(p, st, manifest)
    {
      SelectionStays(p, st, st', manifest);
      VerifiedStays(p, st, st', manifest, kind, text);
    }
  }

  lemma SelectionStays(p: Platform, st: State, st': State, manifest: Json)
    requires st' == st.(producers := st'.producers)
    ensures Selects(p, st', manifest) <==> Selects(p, st, manifest)
  {
  }

  lemma VerifiedStays(p: Platform, st: State, st': State, manifest: Json, kind: string, text: string)
    requires p.Faithful() && ProfilesPath(kind) in st.producers
    requires p.parse(st.producers[ProfilesPath(kind)]).Some? && p.parse(text).Some?
    requires SamePayload(p.parse(st.producers[ProfilesPath(kind)]).value, p.parse(text).value)
    requires st' == st.(producers := st.producers[ProfilesPath(kind) := text])
    ensures IsVerified(p, st', manifest) <==> IsVerified(p, st, manifest)
  {
    hide Platform.Faithful, WalkEnds, TableStands, IsPinned, AgreeAsFixtures, NamesSelectedComposer, OwnerStands,
         SamePayload, Property;
    WalkStays(p, st, st', manifest);
    ProfilesAreNotEvidence(kind);
    ComposerStays(p, st, st', manifest, ProfilesPath(kind));
    forall historical ensures OwnerStands(p, st'.producers, historical) <==> OwnerStands(p, st.producers, historical) {
      OwnerStays(p, st.producers, historical, kind, text);
    }
    assert st'.Chain() == st.Chain();
    forall k ensures FixtureIsVerified(p, st', manifest, k) <==> FixtureIsVerified(p, st, manifest, k) {
      FixtureStays(p, st, st', manifest, k);
    }
    hide FixtureIsVerified, ComposerIsSelected;
    assert IsVerified(p, st', manifest) <==> IsVerified(p, st, manifest);
  }

  lemma FixtureStays(p: Platform, st: State, st': State, manifest: Json, k: string)
    requires st'.Chain() == st.Chain() && st'.historical == st.historical
    requires k in st.historical && p.parse(st.historical[k]).Some? ==>
               (OwnerStands(p, st'.producers, p.parse(st.historical[k]).value) <==>
                OwnerStands(p, st.producers, p.parse(st.historical[k]).value))
    ensures FixtureIsVerified(p, st', manifest, k) <==> FixtureIsVerified(p, st, manifest, k)
  {
    hide OwnerStands, NamesSelectedComposer, IsComparable, SameFixture;
  }

  lemma WalkStays(p: Platform, st: State, st': State, manifest: Json)
    requires st' == st.(producers := st'.producers)
    ensures WalkEnds(p, st', manifest) <==> WalkEnds(p, st, manifest)
  {
    hide HasLink, TableStands, Property;
    forall a, b ensures Retains(p, st', a, b) <==> Retains(p, st, a, b) {
      forall v, w ensures RetainsFrom(p, st', a, b, v, w) <==> RetainsFrom(p, st, a, b, v, w) {
      }
    }
    hide Retains;
    forall manifests ensures IsRetainedChain(p, st', manifests) <==> IsRetainedChain(p, st, manifests) {
    }
  }

  lemma ComposerStays(p: Platform, st: State, st': State, manifest: Json, path: string)
    requires st' == st.(producers := st'.producers) && path != "conformance/search-compiler/build/evidence.json"
    requires forall q :: q != path ==> (q in st'.producers <==> q in st.producers)
    requires forall q :: q != path && q in st.producers ==> st'.producers[q] == st.producers[q]
    ensures ComposerIsSelected(p, st', manifest) <==> ComposerIsSelected(p, st, manifest)
  {
    hide Property, SameRead;
  }

  lemma OwnerStays(p: Platform, producers: map<string, string>, historical: Json, kind: string, text: string)
    requires p.Faithful() && ProfilesPath(kind) in producers
    requires p.parse(producers[ProfilesPath(kind)]).Some? && p.parse(text).Some?
    requires SamePayload(p.parse(producers[ProfilesPath(kind)]).value, p.parse(text).value)
    ensures OwnerStands(p, producers[ProfilesPath(kind) := text], historical) <==> OwnerStands(p, producers, historical)
  {
    hide Platform.Faithful, Property, SamePayload, PayloadIsHistorical, IsFalsy, Projects;
    ParsedIsWellFormed(p, producers[ProfilesPath(kind)]);
    ParsedIsWellFormed(p, text);
    forall reference, other
      ensures KindStands(p, producers[ProfilesPath(kind) := text], historical, reference, other) <==>
              KindStands(p, producers, historical, reference, other)
    {
      PayloadIgnoresAncestry(p, p.parse(producers[ProfilesPath(kind)]).value, p.parse(text).value, reference,
                             Property(historical, "composerEvidence"));
    }
  }

  /** An owner projection that names the historical composer already stands by its own canonical identity. */
  lemma HistoricalOwnerIsCompared(p: Platform, st: State, historical: Json, reference: Json, kind: string,
                                  composer: Json)
    requires p.Faithful() && Property(historical, "profileProjection") == Some(reference) && Projects(reference, kind)
    requires Property(reference, "sha256").Some? && !IsFalsy(Property(reference, "sha256").value)
    requires Property(historical, "composerEvidence") == Some(composer) && !IsFalsy(composer)
    requires ProfilesPath(kind) in st.producers && p.parse(st.producers[ProfilesPath(kind)]).Some?
    requires var projection := p.parse(st.producers[ProfilesPath(kind)]).value;
             && Property(projection, "producer").Some?
             && Property(Property(projection, "producer").value, KEY) == Some(composer)
    ensures OwnerProjectionOk(p, st, historical) <==>
            exists subject, identity :: IsSubject(p.parse(st.producers[ProfilesPath(kind)]).value, subject)
                                        && p.canonical(subject) == Some(identity) && AgreesWith(identity, reference)
  {
    hide Platform.Faithful, OwnerProjectionOk, PayloadIsHistorical, Property, IsSubject, AgreesWith, IsFalsy,
         Projects;
    OwnerStandsMeans(p, st, historical);
    ParsedIsWellFormed(p, st.producers[ProfilesPath(kind)]);
    HistoricalPayloadIsCompared(p, p.parse(st.producers[ProfilesPath(kind)]).value, reference, composer);
    forall other ensures Projects(reference, other) ==> other == kind {
      KindMeans(reference, other);
      KindMeans(reference, kind);
    }
  }

  /**
   * A clean check leaves the verifier nothing to find in the ancestry of a composer field: whether the
   * field names the selected composer is whether the described composer file does.
   */
  lemma CleanLocksFixAncestry(p: Platform, st: State, cases: Json, path: string, w: Json, manifest: Json, n: string)
    requires p.Faithful() && Run(p, Check, None, st).verdict == Clean && Starts(p, st, cases)
    requires n in st.Chain() && IsFixtureFile(n) && p.parse(st.Chain()[n]).Some?
    requires var composer := Property(p.parse(st.Chain()[n]).value, "composerEvidence");
             composer.Some? && LooksLikeIdentity(composer.value)
    requires Describes(cases, "composer", path) && Declared(p, st.producers, path, KEY) == Some(w)
    ensures Declared(p, st.producers, path, "status") in {None, Some(Str("pass"))}
    ensures SameIdentity(Property(p.parse(st.Chain()[n]).value, "composerEvidence").value, w)
    ensures AncestryOk(manifest, p.parse(st.Chain()[n]).value) <==>
            Property(w, "sha256") == Property(manifest, "selectedComposer")
  {
    hide Platform.Faithful, Run, Starts, Describes, Declared, IsFixtureFile, LooksLikeIdentity, SameIdentity,
         AncestryOk;
    var fixture := p.parse(st.Chain()[n]).value;
    var v := Property(fixture, "composerEvidence").value;
    CurrentComposer(p, st, cases, n, v);
    ComposerDeclares(p, st, cases, path, w, v);
    AncestryMeans(manifest, fixture);
    SameHash(v, w);
  }

  /** After a clean check a composer field repeats what its owner declares. */
  lemma CurrentComposer(p: Platform, st: State, cases: Json, n: string, v: Json)
    requires p.Faithful() && Run(p, Check, None, st).verdict == Clean && Starts(p, st, cases)
    requires n in st.Chain() && IsFixtureFile(n) && p.parse(st.Chain()[n]).Some?
    requires Property(p.parse(st.Chain()[n]).value, "composerEvidence") == Some(v) && LooksLikeIdentity(v)
    ensures exists x :: OwnerDeclares(p, st.producers, cases, "composerEvidence", v, x) && SameIdentity(v, x)
  {
    hide Platform.Faithful, Run, Starts, Describes, LocksAreCurrent, IsMet, Declared, OwnedBy, IsFixtureFile,
         Property, OwnerDeclares, SameIdentity, LooksLikeIdentity, NamesAncestor;
    CheckIsProvenance(p, None, st);
    OneCases(p, st, cases);
    ComposerIsAncestor();
    assert FixtureIsCurrent(p, st.producers, cases, None, st.Chain()[n]);
    assert FieldIsCurrent(p, st.producers, cases, None, "composerEvidence", v);
  }

  lemma OneCases(p: Platform, st: State, cases: Json)
    requires Starts(p, st, cases)
    ensures forall c :: Starts(p, st, c) ==> c == cases
  {
    hide HistoryStands, DescribesDistinctly;
  }

  lemma ComposerIsAncestor()
    ensures NamesAncestor("composerEvidence")
  {
  }

  lemma SameHash(v: Json, w: Json)
    ensures SameIdentity(v, w) ==> Property(v, "sha256") == Property(w, "sha256") && v.Obj?
                                   && Property(v, "sha256").Some? && Property(v, "sha256").value.Str?
  {
    hide Find;
  }

  /** What the owner of a composer field declares stands under one key of one file. */
  lemma ComposerDeclares(p: Platform, st: State, cases: Json, path: string, w: Json, v: Json)
    requires Starts(p, st, cases) && Describes(cases, "composer", path) &&
             Declared(p, st.producers, path, KEY) == Some(w)
    requires exists x :: OwnerDeclares(p, st.producers, cases, "composerEvidence", v, x) && SameIdentity(v, x)
    ensures SameIdentity(v, w) && Declared(p, st.producers, path, "status") in {None, Some(Str("pass"))}
  {
    hide Declared, Describes, SameIdentity, Projects, ProfilesDeclare, ControlDeclares, BelongsTo, DeclaredUnder,
         HistoryStands;
    var x :| OwnerDeclares(p, st.producers, cases, "composerEvidence", v, x) && SameIdentity(v, x);
    assert |"composerEvidence"| == 16 && |"profileProjection"| == 17 && |"rootControlProjection"| == 21;
    var id :| BelongsTo("composerEvidence", id) && EvidenceDeclares(p, st.producers, cases, id, x);
    ProjectionsBelongToNobody(id);
    var other, key := DeclaredSomewhere(p, st.producers, cases, id, x);
    UnderOneKey(id);
    TableOfCases(cases);
    OnePath(cases, "composer", path, other);
  }

  lemma OnePath(cases: Json, id: string, path: string, other: string)
    requires DescribesDistinctly(cases) && Describes(cases, id, path) && Describes(cases, id, other)
    ensures other == path
  {
    hide Lists, ListsDistinctly, DescriptorTable, Property;
    TableOfCases(cases);
  }

  /** So where the cases describe the composer of the build and that one is selected, no such field is wrong. */
  lemma SelectedComposerFixesAncestry(p: Platform, st: State, cases: Json, manifest: Json, n: string)
    requires p.Faithful() && Run(p, Check, None, st).verdict == Clean && Starts(p, st, cases)
    requires n in st.Chain() && IsFixtureFile(n) && p.parse(st.Chain()[n]).Some?
    requires var composer := Property(p.parse(st.Chain()[n]).value, "composerEvidence");
             composer.Some? && LooksLikeIdentity(composer.value)
    requires Describes(cases, "composer", "conformance/search-compiler/build/evidence.json")
    requires ComposerOk(p, st, manifest)
    ensures AncestryOk(manifest, p.parse(st.Chain()[n]).value)
  {
    hide Platform.Faithful, Run, Starts, Describes, Declared, IsFixtureFile, LooksLikeIdentity, SameIdentity,
         AncestryOk, ComposerOk;
    var path := "conformance/search-compiler/build/evidence.json";
    ComposerMeansSelected(p, st, manifest);
    CleanLocksFixAncestry(p, st, cases, path, Declared(p, st.producers, path, KEY).value, manifest, n);
  }
}
