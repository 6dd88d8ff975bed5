/**
 * What a lock run establishes, said by lookup in the files it reads: which identity every fixture field
 * and every lock has to repeat, and that a check is clean exactly if they all do.
 */
module Provenance {
  import opened Base
  import opened Json
  import LineEndings
  import opened ReferenceSelection
  import opened EvidenceFields
  import opened Repository
  import opened EvidenceLocks
  import opened StepTheorems
  import opened LockFileTheorems
  import opened Maintenance
  import opened Preservation
  import opened Agreement

  // ----- identities

  /** A number property counts as an integer; minus zero counts as zero. */
  predicate Counts(v: Option<Json>, n: int) {
    v == Some(Int(n)) || (n == 0 && v == Some(Float("-0")))
  }

  predicate IsLowerHex(s: string) {
    forall i :: 0 <= i < |s| ==> '0' <= s[i] <= '9' || 'a' <= s[i] <= 'f'
  }

  /** The value is an object that holds the identity of a given length and hash. */
  predicate Identifies(v: Json, length: int, hash: string) {
    && Property(v, "algorithm") == Some(Str("sha256"))
    && Counts(Property(v, "byteLength"), length) && 0 <= length <= 9007199254740991
    && Property(v, "sha256") == Some(Str(hash)) && |hash| == 64 && IsLowerHex(hash)
  }

  /** Two values hold one identity. */
  ghost predicate SameIdentity(v: Json, w: Json) {
    exists length, hash :: Identifies(v, length, hash) && Identifies(w, length, hash)
  }

  ghost predicate IsIdentity(v: Json) {
    exists length, hash :: Identifies(v, length, hash)
  }

  /** The value has the three properties of an identity, whatever they hold. */
  predicate LooksLikeIdentity(v: Json) {
    Property(v, "algorithm").Some? && Property(v, "byteLength").Some? && Property(v, "sha256").Some?
  }

  // ----- what the producers declare

  /** A property of the JSON file at a path. */
  function Declared(p: Platform, producers: map<string, string>, path: string, key: string): Option<Json> {
    if path in producers && p.parse(producers[path]).Some? then Property(p.parse(producers[path]).value, key) else None
  }

  /** The property under which the evidence of an id declares its identity. */
  predicate DeclaredUnder(id: string, key: string) {
    || (id == "composer" && key == "representationCompositionEvidenceKey")
    || (id == "search-ir" && key == "searchIrIdentity")
    || (id != "composer" && id != "search-ir" && key == "evidenceIdentity")
  }

  /** Some entry gives the evidence of an id its path. */
  ghost predicate Lists(entries: seq<Json>, id: string, path: string) {
    exists i :: 0 <= i < |entries| && Property(entries[i], "id") == Some(Str(id))
                && Property(entries[i], "path") == Some(Str(path))
  }

  ghost predicate IsEntry(entry: Json) {
    exists id, path :: Property(entry, "id") == Some(Str(id)) && Property(entry, "path") == Some(Str(path))
  }

  /** Every entry has an id and a path, and no id stands twice. */
  ghost predicate ListsDistinctly(entries: seq<Json>) {
    && (forall i :: 0 <= i < |entries| ==> IsEntry(entries[i]))
    && (forall i, j :: 0 <= i < j < |entries| ==> Property(entries[i], "id") != Property(entries[j], "id"))
  }

  /** The integration cases give the evidence of an id a path. */
  ghost predicate Describes(cases: Json, id: string, path: string) {
    match Property(cases, "evidenceInputs")
    case Some(Arr(entries)) => Lists(entries, id, path)
    case _ => false
  }

  ghost predicate DescribesDistinctly(cases: Json) {
    match Property(cases, "evidenceInputs")
    case Some(Arr(entries)) => ListsDistinctly(entries)
    case _ => false
  }

  /** The identity that the evidence of an id declares, its status being absent or pass. */
  ghost predicate EvidenceDeclares(p: Platform, producers: map<string, string>, cases: Json, id: string, w: Json) {
    exists path, key ::
      && Describes(cases, id, path) && DeclaredUnder(id, key) && Declared(p, producers, path, key) == Some(w)
      && Declared(p, producers, path, "status") in {None, Some(Str("pass"))}
  }

  predicate IsKind(kind: string) {
    || kind == "domain" || kind == "graph" || kind == "policy" || kind == "evaluator" || kind == "resource"
    || kind == "progress" || kind == "output" || kind == "session" || kind == "stage"
  }

  predicate Projects(v: Json, kind: string) {
    IsKind(kind) &&
    Property(v, "schema") == Some(Str("cuda-mcgs.search-ir-composer-" + kind + "-profile-projection/0.2.0"))
  }

  /** The evidence id a named field belongs to. */
  predicate BelongsTo(k: string, id: string) {
    || (k == "composerEvidence" && id == "composer")
    || (k == "domainEvidence" && id == "domain") || (k == "nodeEvidence" && id == "graph-node")
    || (k == "edgeEvidence" && id == "graph-edge") || (k == "refEvidence" && id == "graph-ref")
    || (k == "pathEvidence" && id == "graph-path") || (k == "rootEvidence" && id == "graph-root")
    || (k == "reclaimEvidence" && id == "graph-reclaim") || (k == "advanceOccurrenceEvidence" && id == "graph-advance")
    || (k == "cleanupEvidence" && id == "graph-cleanup") || (k == "policyEvidence" && id == "policy")
    || (k == "evaluatorEvidence" && id == "evaluator") || (k == "resourceEvidence" && id == "resource")
    || (k == "progressEvidence" && id == "progress") || (k == "outputEvidence" && id == "output")
    || (k == "frameworkEvidence" && id == "framework") || (k == "terminalEvidence" && id == "terminal")
    || (k == "sessionEvidence" && id == "session") || (k == "stageEvidence" && id == "stage")
    || (k == "channelEvidence" && id == "channel")
  }

  /** The name under which a run knows the owner of a field. */
  ghost predicate OwnedBy(k: string, v: Json, owner: string) {
    LooksLikeIdentity(v) &&
    (|| BelongsTo(k, owner)
     || (k == "profileProjection" && exists kind :: Projects(v, kind) && owner == "projection:" + kind)
     || (k == "rootControlProjection" && owner == "root-control"))
  }

  predicate ProfilesDeclare(p: Platform, producers: map<string, string>, kind: string, w: Json) {
    var path := "conformance/search-compiler/build/" + kind + "-profiles.json";
    Declared(p, producers, path, "projectionIdentity") == Some(w)
  }

  predicate ControlDeclares(p: Platform, producers: map<string, string>, w: Json) {
    Declared(p, producers, "conformance/search-compiler/build/root-control.json", "identity") == Some(w)
  }

  /** The identity that the owner of a field declares. */
  ghost predicate OwnerDeclares(p: Platform, producers: map<string, string>, cases: Json, k: string, v: Json, w: Json) {
    || (exists id :: BelongsTo(k, id) && EvidenceDeclares(p, producers, cases, id, w))
    || (k == "profileProjection" && exists kind :: Projects(v, kind) && ProfilesDeclare(p, producers, kind, w))
    || (k == "rootControlProjection" && ControlDeclares(p, producers, w))
  }

  /** A run concerns an owner: it was asked for everything, or for this one. */
  predicate Asked(source: Option<string>, owner: string) {
    source == None || source == Some(owner)
  }

  /** A field with an identity has an owner; if the run concerns it, it repeats what the owner declares. */
  ghost predicate FieldIsCurrent(p: Platform, producers: map<string, string>, cases: Json, source: Option<string>,
                                 k: string, v: Json)
  {
    NamesAncestor(k) && LooksLikeIdentity(v) ==>
      exists owner :: OwnedBy(k, v, owner) &&
        (Asked(source, owner) ==> exists w :: OwnerDeclares(p, producers, cases, k, v, w) && SameIdentity(v, w))
  }

  // ----- the functions of the tool compute this

  lemma IdentityMeans(v: Json, length: int, hash: string)
    ensures Identifies(v, length, hash) <==> AsIdentity(v).Some? && AsIdentity(v).value.byteLength == length
                                              && AsIdentity(v).value.sha256 == hash
  {
    hide Index;
    if v.Obj? && Find(v.fields, "byteLength").Some? {
      CountsMeans(Find(v.fields, "byteLength").value, length);
    }
    if AsIdentity(v).Some? {
      HexIsHex(AsIdentity(v).value.sha256);
    }
    if Identifies(v, length, hash) {
      HexIsHex(hash);
    }
  }

  lemma CountsMeans(v: Json, n: int)
    ensures 0 <= n <= 9007199254740991 ==> (Counts(Some(v), n) <==> SafeInteger(v) == Some(n))
  {
  }

  lemma HexIsHex(s: string)
    ensures IsLowerHex(s) <==> forall c :: c in s ==> IsHex(c)
  {
    if forall c :: c in s ==> IsHex(c) {
      forall i | 0 <= i < |s| ensures IsHex(s[i]) {
        assert s[i] in s;
      }
    }
  }

  lemma SameIdentityMeans(v: Json, w: Json)
    ensures SameIdentity(v, w) <==> AsIdentity(v).Some? && AsIdentity(v) == AsIdentity(w)
    ensures IsIdentity(v) <==> AsIdentity(v).Some?
  {
    hide AsIdentity, Identifies;
    forall length, hash
      ensures Identifies(v, length, hash) <==> AsIdentity(v).Some? && AsIdentity(v).value.byteLength == length
                                                && AsIdentity(v).value.sha256 == hash
      ensures Identifies(w, length, hash) <==> AsIdentity(w).Some? && AsIdentity(w).value.byteLength == length
                                                && AsIdentity(w).value.sha256 == hash
    {
      IdentityMeans(v, length, hash);
      IdentityMeans(w, length, hash);
    }
    if AsIdentity(v).Some? {
      assert Identifies(v, AsIdentity(v).value.byteLength, AsIdentity(v).value.sha256);
    }
  }

  lemma ShapeMeans(v: Json)
    ensures LooksLikeIdentity(v) <==> IsIdentityShape(v)
  {
    hide Index;
  }

  lemma {:induction false} TableMeans(entries: seq<Json>)
    ensures DescriptorTable(entries).Some? <==> ListsDistinctly(entries)
    ensures DescriptorTable(entries).Some? ==>
              forall id, path :: (id in DescriptorTable(entries).value && DescriptorTable(entries).value[id] == path)
                                 <==> Lists(entries, id, path)
  {
    hide Property;
    if entries != [] {
      var n := |entries| - 1;
      var init, last := entries[..n], entries[n];
      assert entries == init + [last];
      TableMeans(init);
      assert IsEntry(last) <==> (Property(last, "id").Some? && Property(last, "id").value.Str?
                                 && Property(last, "path").Some? && Property(last, "path").value.Str?) by {
        EntryMeans(last);
      }
      ListsMore(init, last);
      if IsEntry(last) && ListsDistinctly(init) {
        var id := Property(last, "id").value.s;
        TableHasId(init, id);
      }
    }
  }

  lemma EntryMeans(entry: Json)
    ensures IsEntry(entry) <==> (Property(entry, "id").Some? && Property(entry, "id").value.Str?
                                 && Property(entry, "path").Some? && Property(entry, "path").value.Str?)
  {
    hide Property;
    if Property(entry, "id").Some? && Property(entry, "id").value.Str?
       && Property(entry, "path").Some? && Property(entry, "path").value.Str? {
      assert Property(entry, "id") == Some(Str(Property(entry, "id").value.s))
          && Property(entry, "path") == Some(Str(Property(entry, "path").value.s));
    }
  }

  lemma ListsMore(init: seq<Json>, last: Json)
    ensures ListsDistinctly(init + [last]) <==>
            ListsDistinctly(init) && IsEntry(last)
            && forall i :: 0 <= i < |init| ==> Property(init[i], "id") != Property(last, "id")
    ensures forall id, path :: Lists(init + [last], id, path) <==>
              || Lists(init, id, path)
              || (Property(last, "id") == Some(Str(id)) && Property(last, "path") == Some(Str(path)))
  {
    hide Property, IsEntry;
    var all := init + [last];
    assert forall i :: 0 <= i < |init| ==> all[i] == init[i];
    assert all[|init|] == last;
    if ListsDistinctly(all) {
      forall i | 0 <= i < |init| ensures IsEntry(init[i]) && Property(init[i], "id") != Property(last, "id") {
        assert IsEntry(all[i]) && Property(all[i], "id") != Property(all[|init|], "id");
      }
    }
    forall id, path | Lists(init, id, path) ensures Lists(all, id, path) {
      var i :| 0 <= i < |init| && Property(init[i], "id") == Some(Str(id))
               && Property(init[i], "path") == Some(Str(path));
      assert Property(all[i], "id") == Some(Str(id));
    }
  }

  lemma TableHasId(entries: seq<Json>, id: string)
    requires ListsDistinctly(entries) && DescriptorTable(entries).Some?
    requires forall i, path :: (i in DescriptorTable(entries).value && DescriptorTable(entries).value[i] == path)
                               <==> Lists(entries, i, path)
    ensures id in DescriptorTable(entries).value <==>
            exists i :: 0 <= i < |entries| && Property(entries[i], "id") == Some(Str(id))
  {
    hide Property, DescriptorTable;
    var m := DescriptorTable(entries).value;
    if id in m {
      assert Lists(entries, id, m[id]);
    }
    if exists i :: 0 <= i < |entries| && Property(entries[i], "id") == Some(Str(id)) {
      var i :| 0 <= i < |entries| && Property(entries[i], "id") == Some(Str(id));
      assert IsEntry(entries[i]);
      var d, path :| Property(entries[i], "id") == Some(Str(d)) && Property(entries[i], "path") == Some(Str(path));
      assert Lists(entries, id, path);
    }
  }

  // ----- owners

  lemma {:induction false} KindIsFound(kinds: seq<string>, schema: string, kind: string)
    ensures ProfileKind(kinds, schema) == Some(kind) <==>
              kind in kinds && schema == PROFILE_PREFIX + kind + PROFILE_SUFFIX
  {
    if kinds != [] {
      KindIsFound(kinds[1..], schema, kind);
      SameKind(kinds[0], kind);
      assert kinds == [kinds[0]] + kinds[1..];
    }
  }

  lemma SameKind(a: string, b: string)
    ensures PROFILE_PREFIX + a + PROFILE_SUFFIX == PROFILE_PREFIX + b + PROFILE_SUFFIX ==> a == b
  {
    var x, y := PROFILE_PREFIX + a + PROFILE_SUFFIX, PROFILE_PREFIX + b + PROFILE_SUFFIX;
    var n := |PROFILE_PREFIX|;
    assert |x| == n + |a| + |PROFILE_SUFFIX| && |y| == n + |b| + |PROFILE_SUFFIX|;
    assert x[n..n + |a|] == a && y[n..n + |b|] == b;
  }

  /** Enough of a name to tell the registered fields apart. */
  function Fingerprint(s: string): int {
    if |s| < 2 then 0 else 1000000 * |s| + 1000 * (s[0] as int) + s[1] as int
  }

  const PRINTS: seq<int> := [
    14100111, 12110111, 12101100, 11114101, 12112097, 12114111, 15114101, 25097100, 15099108, 14112111, 17101118,
    16114101, 16112114, 14111117, 17102114, 16116101, 15115101, 13115116, 15099104]

  lemma Prints()
    ensures |PRINTS| == |EVIDENCE_FIELDS| == 19
    ensures forall i :: 0 <= i < 19 ==> Fingerprint(EVIDENCE_FIELDS[i].0) == PRINTS[i]
  {
    forall i | 0 <= i < 19 ensures Fingerprint(EVIDENCE_FIELDS[i].0) == PRINTS[i] {
    }
  }

  lemma PrintsDiffer()
    ensures forall i, j :: 0 <= i < j < 19 ==> PRINTS[i] != PRINTS[j]
  {
  }

  lemma {:induction false} ProducerIsFound(table: seq<(string, string)>, j: nat)
    requires j < |table| && forall i :: 0 <= i < j ==> table[i].0 != table[j].0
    ensures ProducerOf(table, table[j].0) == Some(table[j].1)
  {
    if j > 0 {
      assert table[1..][j - 1] == table[j];
      assert forall i :: 0 <= i < j - 1 ==> table[1..][i] == table[i + 1];
      ProducerIsFound(table[1..], j - 1);
    }
  }

  lemma {:induction false} ProducerIsListed(table: seq<(string, string)>, field: string)
    ensures ProducerOf(table, field).Some? ==>
              exists j :: 0 <= j < |table| && table[j] == (field, ProducerOf(table, field).value)
  {
    if table != [] && table[0].0 != field {
      ProducerIsListed(table[1..], field);
      if ProducerOf(table, field).Some? {
        var j :| 0 <= j < |table[1..]| && table[1..][j] == (field, ProducerOf(table, field).value);
        assert table[j + 1] == (field, ProducerOf(table, field).value);
      }
    }
  }

  /** The table, row by row. */
  lemma RowsBelong(k: string, id: string)
    ensures BelongsTo(k, id) <==>
            (k == "composerEvidence" && id == "composer") ||
            exists j :: 0 <= j < |EVIDENCE_FIELDS| && EVIDENCE_FIELDS[j] == (k, id)
  {
    if BelongsTo(k, id) && !(k == "composerEvidence" && id == "composer") {
      assert (k, id) in EVIDENCE_FIELDS;
    }
  }

  lemma FieldsHaveProducers(k: string, id: string)
    ensures BelongsTo(k, id) <==>
            (k == "composerEvidence" && id == "composer") || ProducerOf(EVIDENCE_FIELDS, k) == Some(id)
  {
    hide ProducerOf, BelongsTo;
    Prints();
    PrintsDiffer();
    RowsBelong(k, id);
    ProducerIsListed(EVIDENCE_FIELDS, k);
    if exists j :: 0 <= j < |EVIDENCE_FIELDS| && EVIDENCE_FIELDS[j] == (k, id) {
      var j :| 0 <= j < |EVIDENCE_FIELDS| && EVIDENCE_FIELDS[j] == (k, id);
      ProducerIsFound(EVIDENCE_FIELDS, j);
    }
  }

  lemma ProjectionsBelongToNobody(id: string)
    ensures !BelongsTo("profileProjection", id) && !BelongsTo("rootControlProjection", id)
    ensures BelongsTo("composerEvidence", id) ==> id == "composer"
  {
    hide ProducerOf, BelongsTo;
    Prints();
    OtherPrint("profileProjection");
    OtherPrint("rootControlProjection");
    OtherPrint("composerEvidence");
    RowsBelong("profileProjection", id);
    RowsBelong("rootControlProjection", id);
    RowsBelong("composerEvidence", id);
    assert |"profileProjection"| == 17 && |"rootControlProjection"| == 21 && |"composerEvidence"| == 16;
  }

  lemma OtherPrint(k: string)
    requires k in {"profileProjection", "rootControlProjection", "composerEvidence"}
    ensures forall j :: 0 <= j < |PRINTS| ==> PRINTS[j] != Fingerprint(k)
  {
  }

  /** Which kind a projection has is in its schema alone. */
  lemma KindMeans(v: Json, kind: string)
    ensures Projects(v, kind) <==>
            Property(v, "schema").Some? && Property(v, "schema").value.Str?
            && ProfileKind(PROFILE_KINDS, Property(v, "schema").value.s) == Some(kind)
  {
    hide Property, ProfileKind;
    if Property(v, "schema").Some? && Property(v, "schema").value.Str? {
      KindIsFound(PROFILE_KINDS, Property(v, "schema").value.s, kind);
    }
    assert IsKind(kind) <==> kind in PROFILE_KINDS;
  }

  /** What the ownership of a field means. */
  lemma SourceMeans(k: string, v: Json)
    requires NamesAncestor(k) && LooksLikeIdentity(v)
    ensures !SourceOf(Field(k, v)).Free?
    ensures forall owner :: OwnedBy(k, v, owner) <==>
              SourceOf(Field(k, v)).Owned? && SourceOf(Field(k, v)).source.Key() == owner
  {
    hide ProducerOf, BelongsTo, ProfileKind, Projects, Index;
    ShapeMeans(v);
    AncestorsAreAncestry(k);
    forall id
      ensures BelongsTo(k, id) <==>
                (k == "composerEvidence" && id == "composer") || ProducerOf(EVIDENCE_FIELDS, k) == Some(id)
      ensures k == "profileProjection" || k == "rootControlProjection" ==> !BelongsTo(k, id)
      ensures k == "composerEvidence" && BelongsTo(k, id) ==> id == "composer"
    {
      FieldsHaveProducers(k, id);
      ProjectionsBelongToNobody(id);
    }
    forall kind
      ensures Projects(v, kind) <==>
              Property(v, "schema").Some? && Property(v, "schema").value.Str?
              && ProfileKind(PROFILE_KINDS, Property(v, "schema").value.s) == Some(kind)
    {
      KindMeans(v, kind);
    }
    assert |"profileProjection"| == 17 && |"rootControlProjection"| == 21 && |"composerEvidence"| == 16;
  }

  lemma OthersAreFree(k: string, v: Json)
    requires !(NamesAncestor(k) && LooksLikeIdentity(v))
    ensures SourceOf(Field(k, v)).Free?
  {
    ShapeMeans(v);
    AncestorsAreAncestry(k);
  }

  // ----- what the loader gives

  /** The owners that a run over some cases file works with. */
  ghost predicate Knows(o: Owners, p: Platform, producers: map<string, string>, cases: Json) {
    && o.platform == p && DescribesDistinctly(cases)
    && (forall id :: id in o.ids <==> exists path :: Describes(cases, id, path))
    && (forall id, e :: o.load(Evidence(id)) == Some(e) <==>
          exists w :: EvidenceDeclares(p, producers, cases, id, w) && AsIdentity(w) == Some(e))
    && (forall kind, e :: o.load(ProfileProjection(kind)) == Some(e) <==>
          exists w :: ProfilesDeclare(p, producers, kind, w) && AsIdentity(w) == Some(e))
    && (forall e :: o.load(RootControl) == Some(e) <==>
         exists w :: ControlDeclares(p, producers, w) && AsIdentity(w) == Some(e))
  }

  lemma EvidenceMeans(p: Platform, producers: map<string, string>, cases: Json, table: map<string, string>, id: string,
                      e: Identity)
    requires forall i, path :: (i in table && table[i] == path) <==> Describes(cases, i, path)
    ensures EvidenceIdentity(p, producers, table, id) == Some(e) <==>
            exists w :: EvidenceDeclares(p, producers, cases, id, w) && AsIdentity(w) == Some(e)
  {
    hide AsIdentity, Describes, EvidenceDeclares, DeclaredUnder;
    var key := EvidenceKeyOf(id);
    UnderOneKey(id);
    IdentityIsDeclared(p, producers, table, id, e);
    if EvidenceIdentity(p, producers, table, id) == Some(e) {
      var w := Declared(p, producers, table[id], key).value;
      assert Describes(cases, id, table[id]);
      DeclaresAt(p, producers, cases, id, table[id], key, w);
    }
    if exists w :: EvidenceDeclares(p, producers, cases, id, w) && AsIdentity(w) == Some(e) {
      var w :| EvidenceDeclares(p, producers, cases, id, w) && AsIdentity(w) == Some(e);
      var path, k := DeclaredSomewhere(p, producers, cases, id, w);
      assert id in table && table[id] == path && k == key;
    }
  }

  function EvidenceKeyOf(id: string): string {
    if id == "composer" then "representationCompositionEvidenceKey"
    else if id == "search-ir" then "searchIrIdentity" else "evidenceIdentity"
  }

  lemma UnderOneKey(id: string)
    ensures forall k :: DeclaredUnder(id, k) <==> k == EvidenceKeyOf(id)
  {
    assert |"composer"| == 8 && |"search-ir"| == 9;
  }

  lemma IdentityIsDeclared(p: Platform, producers: map<string, string>, table: map<string, string>, id: string,
                           e: Identity)
    ensures EvidenceIdentity(p, producers, table, id) == Some(e) <==>
            && id in table && Declared(p, producers, table[id], EvidenceKeyOf(id)).Some?
            && AsIdentity(Declared(p, producers, table[id], EvidenceKeyOf(id)).value) == Some(e)
            && Declared(p, producers, table[id], "status") in {None, Some(Str("pass"))}
  {
    hide AsIdentity, Find;
  }

  lemma DeclaresAt(p: Platform, producers: map<string, string>, cases: Json, id: string, path: string, key: string,
                   w: Json)
    requires Describes(cases, id, path) && DeclaredUnder(id, key) && Declared(p, producers, path, key) == Some(w)
    requires Declared(p, producers, path, "status") in {None, Some(Str("pass"))}
    ensures EvidenceDeclares(p, producers, cases, id, w)
  {
    hide Describes, DeclaredUnder, Declared;
  }

  lemma DeclaredSomewhere(p: Platform, producers: map<string, string>, cases: Json, id: string, w: Json)
    returns (path: string, key: string)
    requires EvidenceDeclares(p, producers, cases, id, w)
    ensures Describes(cases, id, path) && DeclaredUnder(id, key) && Declared(p, producers, path, key) == Some(w)
    ensures Declared(p, producers, path, "status") in {None, Some(Str("pass"))}
  {
    hide Describes, DeclaredUnder, Declared;
    path, key :| Describes(cases, id, path) && DeclaredUnder(id, key) && Declared(p, producers, path, key) == Some(w)
                 && Declared(p, producers, path, "status") in {None, Some(Str("pass"))};
  }

  lemma TableOfCases(cases: Json)
    ensures match Property(cases, "evidenceInputs")
            case Some(Arr(entries)) =>
              && (DescriptorTable(entries).Some? <==> DescribesDistinctly(cases))
              && (DescriptorTable(entries).Some? ==>
                    var table := DescriptorTable(entries).value;
                    forall id, path :: (id in table && table[id] == path) <==> Describes(cases, id, path))
            case _ => !DescribesDistinctly(cases)
  {
    hide Property, DescriptorTable, Lists, ListsDistinctly;
    match Property(cases, "evidenceInputs")
    case Some(Arr(entries)) => TableMeans(entries);
    case _ =>
  }

  /** The selected manifest can be read and pins the historical fixtures as they are. */
  ghost predicate HistoryStands(p: Platform, st: State) {
    && (st.version == "0.0.0-dev.1" || st.version == "0.0.0-dev.2" || st.version == "0.0.0-dev.3")
    && st.version in st.manifests && p.parse(st.manifests[st.version]).Some?
    && TableStands(p, st.historical, Property(p.parse(st.manifests[st.version]).value, "historicalFixtures"))
  }

  /** The table lists pins, and each names a direct child that exists and has the pinned digest, line endings aside. */
  ghost predicate TableStands(p: Platform, files: map<string, string>, table: Option<Json>) {
    && table.Some? && table.value != Null
    && match table.value
       case Obj(fields) =>
         forall i :: 0 <= i < |fields| ==>
           && '/' !in fields[i].key && fields[i].key in files
           && fields[i].value == Str(p.digest(LineEndings.Normalize(files[fields[i].key])))
       case Arr(items) => items == []
       case Str(s) => s == ""
       case _ => true
  }

  lemma HistoryMeans(p: Platform, st: State)
    ensures HistoryStands(p, st) <==>
            ReadManifest(p, st, st.version).Some? && HistoricalBytesMatch(p, st, ReadManifest(p, st, st.version).value)
  {
  }

  /** What every run needs before it looks at a fixture: standing history, and a cases file without repeated ids. */
  ghost predicate Starts(p: Platform, st: State, cases: Json) {
    && HistoryStands(p, st) && "integration-cases.json" in st.Chain()
    && p.parse(st.Chain()["integration-cases.json"]) == Some(cases) && DescribesDistinctly(cases)
  }

  lemma PreludeIsStart(p: Platform, st: State)
    ensures Prelude(p, st).Some? <==> exists cases :: Starts(p, st, cases)
    ensures forall cases :: Prelude(p, st).Some? && Starts(p, st, cases) ==>
              Knows(Prelude(p, st).value, p, st.producers, cases)
  {
    hide DescriptorTable, Property, HistoryStands, HistoricalBytesMatch, ReadManifest, EvidenceIdentity, Describes,
         DescribesDistinctly, AsIdentity, EvidenceDeclares;
    HistoryMeans(p, st);
    if CASES_FILE in st.Chain() && p.parse(st.Chain()[CASES_FILE]).Some? {
      var cases := p.parse(st.Chain()[CASES_FILE]).value;
      TableOfCases(cases);
      if Prelude(p, st).Some? {
        assert Starts(p, st, cases);
        KnowsFromTable(p, st.producers, cases, Descriptors(p, st.Chain()[CASES_FILE]).value);
      }
    }
  }

  lemma KnowsFromTable(p: Platform, producers: map<string, string>, cases: Json, table: map<string, string>)
    requires DescribesDistinctly(cases)
    requires forall i, path :: (i in table && table[i] == path) <==> Describes(cases, i, path)
    ensures Knows(Owners(p, Loader(p, producers, table), table.Keys), p, producers, cases)
  {
    hide LoadSource, Describes, DescribesDistinctly, AsIdentity, EvidenceDeclares, ProfilesDeclare, ControlDeclares;
    var o := Owners(p, Loader(p, producers, table), table.Keys);
    forall id, e
      ensures o.load(Evidence(id)) == Some(e) <==>
              exists w :: EvidenceDeclares(p, producers, cases, id, w) && AsIdentity(w) == Some(e)
    {
      EvidenceMeans(p, producers, cases, table, id, e);
      EvidenceLoads(p, producers, table, id);
    }
    forall id | id in table ensures exists path :: Describes(cases, id, path) {
      assert Describes(cases, id, table[id]);
    }
    forall kind, e
      ensures o.load(ProfileProjection(kind)) == Some(e) <==>
              exists w :: ProfilesDeclare(p, producers, kind, w) && AsIdentity(w) == Some(e)
    {
      ProfilesLoad(p, producers, table, kind, e);
    }
    forall e
      ensures o.load(RootControl) == Some(e) <==>
                exists w :: ControlDeclares(p, producers, w) && AsIdentity(w) == Some(e)
    {
      ControlLoads(p, producers, table, e);
    }
  }

  lemma EvidenceLoads(p: Platform, producers: map<string, string>, table: map<string, string>, id: string)
    ensures LoadSource(p, producers, table, Evidence(id)) == EvidenceIdentity(p, producers, table, id)
  {
    hide EvidenceIdentity;
  }

  lemma ProfilesLoad(p: Platform, producers: map<string, string>, table: map<string, string>, kind: string, e: Identity)
    ensures LoadSource(p, producers, table, ProfileProjection(kind)) == Some(e) <==>
            exists w :: ProfilesDeclare(p, producers, kind, w) && AsIdentity(w) == Some(e)
  {
    hide AsIdentity, Find, EvidenceIdentity;
    if LoadSource(p, producers, table, ProfileProjection(kind)) == Some(e) {
      var path := "conformance/search-compiler/build/" + kind + "-profiles.json";
      assert ProfilesDeclare(p, producers, kind, Declared(p, producers, path, "projectionIdentity").value);
    }
  }

  lemma ControlLoads(p: Platform, producers: map<string, string>, table: map<string, string>, e: Identity)
    ensures LoadSource(p, producers, table, RootControl) == Some(e) <==>
            exists w :: ControlDeclares(p, producers, w) && AsIdentity(w) == Some(e)
  {
    hide AsIdentity, Find, EvidenceIdentity;
    if LoadSource(p, producers, table, RootControl) == Some(e) {
      var path := "conformance/search-compiler/build/root-control.json";
      assert ControlDeclares(p, producers, Declared(p, producers, path, "identity").value);
    }
  }

  // ----- fixtures

  lemma AskedIsSelected(source: Option<string>, owner: string)
    ensures Asked(source, owner) <==> SelectionOf(source).Selects(owner)
  {
  }

  /** The loader gives what the owner declares. */
  lemma OwnerLoads(o: Owners, p: Platform, producers: map<string, string>, cases: Json, k: string, v: Json, e: Identity)
    requires Knows(o, p, producers, cases) && NamesAncestor(k) && LooksLikeIdentity(v) && SourceOf(Field(k, v)).Owned?
    ensures o.load(SourceOf(Field(k, v)).source) == Some(e) <==>
            exists w :: OwnerDeclares(p, producers, cases, k, v, w) && AsIdentity(w) == Some(e)
  {
    hide SourceOf, BelongsTo, Projects, AsIdentity, EvidenceDeclares, ProfilesDeclare, ControlDeclares, Describes,
         DescribesDistinctly, NamesAncestor, LooksLikeIdentity;
    OwnerIsSource(k, v);
  }

  /** Which source owns a field. */
  lemma OwnerIsSource(k: string, v: Json)
    requires NamesAncestor(k) && LooksLikeIdentity(v) && SourceOf(Field(k, v)).Owned?
    ensures var source := SourceOf(Field(k, v)).source;
            && (forall id :: source == Evidence(id) <==> BelongsTo(k, id))
            && (forall kind :: source == ProfileProjection(kind) <==> k == "profileProjection" && Projects(v, kind))
            && (source == RootControl <==> k == "rootControlProjection")
  {
    hide ProducerOf, BelongsTo, ProfileKind, Projects, Index;
    ShapeMeans(v);
    AncestorsAreAncestry(k);
    forall id
      ensures BelongsTo(k, id) <==>
              (k == "composerEvidence" && id == "composer") || ProducerOf(EVIDENCE_FIELDS, k) == Some(id)
      ensures k == "profileProjection" || k == "rootControlProjection" ==> !BelongsTo(k, id)
      ensures k == "composerEvidence" && BelongsTo(k, id) ==> id == "composer"
    {
      FieldsHaveProducers(k, id);
      ProjectionsBelongToNobody(id);
    }
    forall kind
      ensures Projects(v, kind) <==>
              Property(v, "schema").Some? && Property(v, "schema").value.Str?
              && ProfileKind(PROFILE_KINDS, Property(v, "schema").value.s) == Some(kind)
    {
      KindMeans(v, kind);
    }
    assert |"profileProjection"| == 17 && |"rootControlProjection"| == 21 && |"composerEvidence"| == 16;
  }

  lemma FieldMeans(o: Owners, p: Platform, producers: map<string, string>, cases: Json, source: Option<string>,
                   k: string, v: Json)
    requires Knows(o, p, producers, cases)
    ensures FieldIsCurrent(p, producers, cases, source, k, v) <==>
            FieldSound(o, SelectionOf(source), Field(k, v)) && !Drifts(o, SelectionOf(source), Field(k, v))
  {
    hide SourceOf, Knows, OwnedBy, OwnerDeclares, AsIdentity, LooksLikeIdentity, NamesAncestor, SameIdentity,
         SelectionOf, Asked;
    var f := Field(k, v);
    if NamesAncestor(k) && LooksLikeIdentity(v) {
      SourceMeans(k, v);
      if SourceOf(f).Owned? {
        var owner := SourceOf(f).source.Key();
        AskedIsSelected(source, owner);
        OwnedFieldMeans(o, p, producers, cases, k, v);
      }
    } else {
      OthersAreFree(k, v);
    }
  }

  lemma OwnedFieldMeans(o: Owners, p: Platform, producers: map<string, string>, cases: Json, k: string, v: Json)
    requires Knows(o, p, producers, cases) && NamesAncestor(k) && LooksLikeIdentity(v) && SourceOf(Field(k, v)).Owned?
    ensures (exists w :: OwnerDeclares(p, producers, cases, k, v, w) && SameIdentity(v, w)) <==>
            AsIdentity(v).Some? && o.load(SourceOf(Field(k, v)).source) == AsIdentity(v)
  {
    hide SourceOf, Knows, OwnerDeclares, AsIdentity, LooksLikeIdentity, NamesAncestor, SameIdentity;
    forall w ensures SameIdentity(v, w) <==> AsIdentity(v).Some? && AsIdentity(v) == AsIdentity(w) {
      SameIdentityMeans(v, w);
    }
    if AsIdentity(v).Some? {
      OwnerLoads(o, p, producers, cases, k, v, AsIdentity(v).value);
    }
  }

  /** A fixture repeats what the owners of its fields declare, as far as the run concerns them. */
  ghost predicate FixtureIsCurrent(p: Platform, producers: map<string, string>, cases: Json, source: Option<string>,
                                   text: string)
  {
    && p.parse(text).Some? && p.parse(text).value != Null
    && forall k :: Property(p.parse(text).value, k).Some? ==>
         FieldIsCurrent(p, producers, cases, source, k, Property(p.parse(text).value, k).value)
  }

  lemma FixtureMeans(o: Owners, p: Platform, producers: map<string, string>, cases: Json, source: Option<string>,
                     text: string)
    requires p.Faithful() && Knows(o, p, producers, cases)
    ensures FixtureIsCurrent(p, producers, cases, source, text) <==> UpToDate(o, SelectionOf(source), text)
  {
    hide Knows, FieldIsCurrent, Platform.Faithful, FieldSound, Drifts, SelectionOf, Index;
    KnowsPlatform(o, p, producers, cases);
    ParsedIsWellFormed(p, text);
    if Readable(p, text) {
      var fields := FieldsOf(p.parse(text));
      forall i | 0 <= i < |fields|
        ensures Find(fields, fields[i].key) == Some(fields[i].value)
        ensures FieldIsCurrent(p, producers, cases, source, fields[i].key, fields[i].value) <==>
                FieldSound(o, SelectionOf(source), fields[i]) && !Drifts(o, SelectionOf(source), fields[i])
      {
        FieldIsFound(fields, i);
        FieldMeans(o, p, producers, cases, source, fields[i].key, fields[i].value);
      }
      forall k | Property(p.parse(text).value, k).Some?
        ensures exists i :: 0 <= i < |fields| && fields[i] == Field(k, Property(p.parse(text).value, k).value)
      {
        FoundIsField(fields, k);
      }
      if UpToDate(o, SelectionOf(source), text) {
        forall i | 0 <= i < |fields|
          ensures FieldIsCurrent(p, producers, cases, source, fields[i].key, fields[i].value)
        {
          assert FieldSound(o, SelectionOf(source), fields[i]);
        }
      }
      if FixtureIsCurrent(p, producers, cases, source, text) {
        forall i | 0 <= i < |fields|
          ensures FieldSound(o, SelectionOf(source), fields[i]) && !Drifts(o, SelectionOf(source), fields[i])
        {
          assert Property(p.parse(text).value, fields[i].key) == Some(fields[i].value);
        }
      }
    }
  }

  lemma KnowsPlatform(o: Owners, p: Platform, producers: map<string, string>, cases: Json)
    ensures Knows(o, p, producers, cases) ==> o.platform == p
  {
  }

  lemma FieldIsFound(fields: seq<Field>, i: nat)
    requires Distinct(fields) && i < |fields|
    ensures Find(fields, fields[i].key) == Some(fields[i].value)
  {
    IndexIsUnique(fields, i);
  }

  lemma FoundIsField(fields: seq<Field>, k: string)
    ensures Find(fields, k).Some? ==> exists i :: 0 <= i < |fields| && fields[i] == Field(k, Find(fields, k).value)
  {
    if Find(fields, k).Some? {
      assert fields[Index(fields, k)] == Field(k, Find(fields, k).value);
    }
  }

  // ----- the lock file

  /** The lock file has the locks of exactly the described ids, in an object. */
  ghost predicate LocksMatchCases(cases: Json, fields: seq<Field>) {
    && LocksSchema(fields) && Find(fields, "identities").Some? && Find(fields, "identities").value.Obj?
    && forall id :: Property(Find(fields, "identities").value, id).Some? <==> exists path :: Describes(cases, id, path)
  }

  /** Each lock the run concerns repeats what the evidence of its id declares. */
  ghost predicate LocksAreCurrent(p: Platform, producers: map<string, string>, cases: Json, source: Option<string>,
                                  text: string)
  {
    match p.parse(text)
    case Some(Obj(fields)) =>
      && LocksMatchCases(cases, fields)
      && forall id :: Property(Find(fields, "identities").value, id).Some? && Asked(source, id) ==>
           exists w :: EvidenceDeclares(p, producers, cases, id, w)
                       && SameIdentity(Property(Find(fields, "identities").value, id).value, w)
    case _ => false
  }

  lemma LockMeans(o: Owners, p: Platform, producers: map<string, string>, cases: Json, source: Option<string>, f: Field)
    requires Knows(o, p, producers, cases)
    ensures (Asked(source, f.key) ==>
              exists w :: EvidenceDeclares(p, producers, cases, f.key, w) && SameIdentity(f.value, w))
            <==> LockSound(o, SelectionOf(source), f) && !LockDrifts(o, SelectionOf(source), f)
  {
    hide AsIdentity, SameIdentity, EvidenceDeclares, Describes, DescribesDistinctly;
    AskedIsSelected(source, f.key);
    forall w ensures SameIdentity(f.value, w) <==> AsIdentity(f.value).Some? && AsIdentity(f.value) == AsIdentity(w) {
      SameIdentityMeans(f.value, w);
    }
  }

  lemma KeysAreFound(ids: seq<Field>, id: string)
    ensures id in KeysOf(ids) <==> Find(ids, id).Some?
  {
    if id in KeysOf(ids) {
      var i :| 0 <= i < |ids| && ids[i].key == id;
    }
    FoundIsField(ids, id);
  }

  lemma LockTableMeans(o: Owners, p: Platform, producers: map<string, string>, cases: Json, ids: seq<Field>)
    requires Knows(o, p, producers, cases)
    ensures KeysOf(ids) == o.ids <==> forall id :: Find(ids, id).Some? <==> exists path :: Describes(cases, id, path)
  {
    hide Describes, DescribesDistinctly, Find, KeysOf;
    forall id ensures id in KeysOf(ids) <==> Find(ids, id).Some? {
      KeysAreFound(ids, id);
    }
  }

  lemma LocksMean(o: Owners, p: Platform, producers: map<string, string>, cases: Json, source: Option<string>,
                  text: string)
    requires p.Faithful() && Knows(o, p, producers, cases)
    ensures LocksAreCurrent(p, producers, cases, source, text) <==> LocksUpToDate(o, SelectionOf(source), text)
  {
    hide Knows, Platform.Faithful, SelectionOf, Index, LockSound, LockDrifts, KeysOf, Describes, Asked, SameIdentity,
         EvidenceDeclares, WellFormed;
    KnowsPlatform(o, p, producers, cases);
    if p.parse(text).Some? && p.parse(text).value.Obj? {
      var fields := p.parse(text).value.fields;
      LocksAreLocks(fields);
      if Find(fields, "identities").Some? && Find(fields, "identities").value.Obj? {
        var ids := Find(fields, "identities").value.fields;
        ParsedIsWellFormed(p, text);
        IdsAreDistinct(fields);
        LockTableMeans(o, p, producers, cases, ids);
        LocksOneByOne(o, p, producers, cases, source, ids);
        assert Find(fields, "identities") == Some(Obj(ids)) && IdsOf(fields) == ids;
        assert forall id :: Property(Obj(ids), id) == Find(ids, id);
        assert LocksMatchCases(cases, fields) <==> IsLocks(fields) && KeysOf(ids) == o.ids;
      }
    }
  }

  lemma IdsAreDistinct(fields: seq<Field>)
    requires WellFormed(Obj(fields)) && Find(fields, "identities").Some? && Find(fields, "identities").value.Obj?
    ensures Distinct(Find(fields, "identities").value.fields)
  {
    FoundIsField(fields, "identities");
    var i :| 0 <= i < |fields| && fields[i] == Field("identities", Find(fields, "identities").value);
    assert WellFormed(fields[i].value);
  }

  lemma LocksOneByOne(o: Owners, p: Platform, producers: map<string, string>, cases: Json, source: Option<string>,
                      ids: seq<Field>)
    requires Knows(o, p, producers, cases) && Distinct(ids)
    ensures (forall i :: 0 <= i < |ids| ==>
               LockSound(o, SelectionOf(source), ids[i]) && !LockDrifts(o, SelectionOf(source), ids[i]))
            <==> (forall id :: Find(ids, id).Some? && Asked(source, id) ==>
                    exists w :: EvidenceDeclares(p, producers, cases, id, w) && SameIdentity(Find(ids, id).value, w))
  {
    hide Find, LockSound, LockDrifts, EvidenceDeclares, SameIdentity, Asked, SelectionOf, Knows, Distinct;
    forall i | 0 <= i < |ids|
      ensures Find(ids, ids[i].key) == Some(ids[i].value)
      ensures (Asked(source, ids[i].key) ==>
                 exists w :: EvidenceDeclares(p, producers, cases, ids[i].key, w) && SameIdentity(ids[i].value, w))
              <==> LockSound(o, SelectionOf(source), ids[i]) && !LockDrifts(o, SelectionOf(source), ids[i])
    {
      FieldIsFound(ids, i);
      LockMeans(o, p, producers, cases, source, ids[i]);
    }
    forall id | Find(ids, id).Some? ensures exists i :: 0 <= i < |ids| && ids[i] == Field(id, Find(ids, id).value) {
      FoundIsField(ids, id);
    }
  }

  // ----- the check

  /** The files a run goes through before the lock file. */
  predicate IsFixtureFile(n: string) {
    |n| >= 5 && n[|n| - 5..] == ".json" && n != "integration-evidence-locks.json"
  }

  /** The run meets the owner: as a described id, or at a field of some fixture. */
  ghost predicate IsMet(p: Platform, st: State, cases: Json, owner: string) {
    || (exists path :: Describes(cases, owner, path))
    || exists n, k :: n in st.Chain() && IsFixtureFile(n) && OwnsFieldOf(p, st.Chain()[n], k, owner)
  }

  ghost predicate OwnsFieldOf(p: Platform, text: string, k: string, owner: string) {
    && p.parse(text).Some? && Property(p.parse(text).value, k).Some? && NamesAncestor(k)
    && OwnedBy(k, Property(p.parse(text).value, k).value, owner)
  }

  /** The selected chain is current for a run: for everything, or for the owner it was asked for. */
  ghost predicate IsCurrent(p: Platform, st: State, source: Option<string>) {
    exists cases ::
      && Starts(p, st, cases)
      && (forall n :: n in st.Chain() && IsFixtureFile(n) ==>
            FixtureIsCurrent(p, st.producers, cases, source, st.Chain()[n]))
      && "integration-evidence-locks.json" in st.Chain()
      && LocksAreCurrent(p, st.producers, cases, source, st.Chain()["integration-evidence-locks.json"])
      && (source.Some? ==> IsMet(p, st, cases, source.value))
  }

  lemma FilesAreFixtures(n: string)
    ensures IsFixtureFile(n) <==> IsFixtureName(n)
  {
  }

  lemma OwnerOfField(p: Platform, text: string, owner: string)
    requires p.Faithful()
    ensures (exists k :: OwnsFieldOf(p, text, k, owner)) <==>
            exists i :: 0 <= i < |FieldsOf(p.parse(text))| && SourceOf(FieldsOf(p.parse(text))[i]).Owned?
                        && SourceOf(FieldsOf(p.parse(text))[i]).source.Key() == owner
  {
    hide SourceOf, OwnedBy, Platform.Faithful, Index, NamesAncestor;
    ParsedIsWellFormed(p, text);
    var fields := FieldsOf(p.parse(text));
    if exists k :: OwnsFieldOf(p, text, k, owner) {
      var k :| OwnsFieldOf(p, text, k, owner);
      var v := Property(p.parse(text).value, k).value;
      FoundIsField(fields, k);
      OwnerMeans(k, v, owner);
    }
    if exists i :: 0 <= i < |fields| && SourceOf(fields[i]).Owned? && SourceOf(fields[i]).source.Key() == owner {
      var i :| 0 <= i < |fields| && SourceOf(fields[i]).Owned? && SourceOf(fields[i]).source.Key() == owner;
      FieldIsFound(fields, i);
      OwnerMeans(fields[i].key, fields[i].value, owner);
      assert OwnsFieldOf(p, text, fields[i].key, owner);
    }
  }

  lemma OwnerMeans(k: string, v: Json, owner: string)
    ensures NamesAncestor(k) && OwnedBy(k, v, owner) <==>
            SourceOf(Field(k, v)).Owned? && SourceOf(Field(k, v)).source.Key() == owner
  {
    hide SourceOf, NamesAncestor, BelongsTo, Projects, LooksLikeIdentity;
    if NamesAncestor(k) && LooksLikeIdentity(v) {
      SourceMeans(k, v);
    } else {
      OthersAreFree(k, v);
    }
  }

  lemma MetIsSeen(o: Owners, p: Platform, st: State, cases: Json, owner: string)
    requires p.Faithful() && Knows(o, p, st.producers, cases)
    ensures IsMet(p, st, cases, owner) <==> owner in SeenSources(o, st.Chain())
  {
    hide SourceOf, OwnsFieldOf, Platform.Faithful, IsFixtureFile, IsFixtureName, Knows, Describes, FieldsOf;
    KnowsPlatform(o, p, st.producers, cases);
    KnowsIds(o, p, st.producers, cases);
    forall n: string ensures IsFixtureFile(n) <==> IsFixtureName(n) {
      FilesAreFixtures(n);
    }
    var chain := st.Chain();
    if exists n, k :: n in chain && IsFixtureFile(n) && OwnsFieldOf(p, chain[n], k, owner) {
      var n, k :| n in chain && IsFixtureFile(n) && OwnsFieldOf(p, chain[n], k, owner);
      OwnerOfField(p, chain[n], owner);
      var i :| 0 <= i < |FieldsOf(p.parse(chain[n]))| && SourceOf(FieldsOf(p.parse(chain[n]))[i]).Owned?
               && SourceOf(FieldsOf(p.parse(chain[n]))[i]).source.Key() == owner;
      assert n in FixtureNames(chain);
      assert owner in SeenSources(o, chain);
    }
    if owner in SeenSources(o, chain) && owner !in o.ids {
      var n, i :| n in FixtureNames(chain) && 0 <= i < |FieldsOf(p.parse(chain[n]))|
                  && SourceOf(FieldsOf(p.parse(chain[n]))[i]).Owned?
                  && SourceOf(FieldsOf(p.parse(chain[n]))[i]).source.Key() == owner;
      OwnerOfField(p, chain[n], owner);
      var k :| OwnsFieldOf(p, chain[n], k, owner);
      assert n in chain && IsFixtureFile(n);
      assert IsMet(p, st, cases, owner);
    }
  }

  lemma KnowsIds(o: Owners, p: Platform, producers: map<string, string>, cases: Json)
    requires Knows(o, p, producers, cases)
    ensures forall id :: id in o.ids <==> exists path :: Describes(cases, id, path)
  {
  }

  /**
   * A check is clean exactly if every field and every lock that it concerns repeats the identity its owner
   * declares, in the files as they are.
   */
  lemma CheckIsProvenance(p: Platform, source: Option<string>, st: State)
    requires p.Faithful()
    ensures Run(p, Check, source, st).verdict == Clean <==> IsCurrent(p, st, source)
  {
    hide Run, Prelude, Knows, Starts, FixtureIsCurrent, LocksAreCurrent, IsMet, SeenSources, UpToDate, LocksUpToDate,
         Platform.Faithful, SelectionOf;
    CheckIsExact(p, source, st);
    PreludeIsStart(p, st);
    forall cases | Prelude(p, st).Some? && Starts(p, st, cases)
      ensures AllUpToDate(Prelude(p, st).value, SelectionOf(source), st)
              && Known(Prelude(p, st).value, source, st) <==>
              && (forall n :: n in st.Chain() && IsFixtureFile(n) ==>
                    FixtureIsCurrent(p, st.producers, cases, source, st.Chain()[n]))
              && "integration-evidence-locks.json" in st.Chain()
              && LocksAreCurrent(p, st.producers, cases, source, st.Chain()["integration-evidence-locks.json"])
              && (source.Some? ==> IsMet(p, st, cases, source.value))
    {
      CurrentMeans(p, source, st, cases);
    }
  }

  lemma CurrentMeans(p: Platform, source: Option<string>, st: State, cases: Json)
    requires p.Faithful() && Prelude(p, st).Some? && Starts(p, st, cases)
    ensures AllUpToDate(Prelude(p, st).value, SelectionOf(source), st)
            && Known(Prelude(p, st).value, source, st) <==>
            && (forall n :: n in st.Chain() && IsFixtureFile(n) ==>
                  FixtureIsCurrent(p, st.producers, cases, source, st.Chain()[n]))
            && "integration-evidence-locks.json" in st.Chain()
            && LocksAreCurrent(p, st.producers, cases, source, st.Chain()["integration-evidence-locks.json"])
            && (source.Some? ==> IsMet(p, st, cases, source.value))
  {
    hide Prelude, Knows, Starts, FixtureIsCurrent, LocksAreCurrent, IsMet, SeenSources, UpToDate, LocksUpToDate,
         Platform.Faithful, SelectionOf, IsFixtureFile, IsFixtureName;
    var o := Prelude(p, st).value;
    PreludeIsStart(p, st);
    forall n: string ensures IsFixtureFile(n) <==> IsFixtureName(n) {
      FilesAreFixtures(n);
    }
    forall text: string
      ensures FixtureIsCurrent(p, st.producers, cases, source, text) <==> UpToDate(o, SelectionOf(source), text)
      ensures LocksAreCurrent(p, st.producers, cases, source, text) <==> LocksUpToDate(o, SelectionOf(source), text)
    {
      FixtureMeans(o, p, st.producers, cases, source, text);
      LocksMean(o, p, st.producers, cases, source, text);
    }
    if source.Some? {
      MetIsSeen(o, p, st, cases, source.value);
    }
  }
}
