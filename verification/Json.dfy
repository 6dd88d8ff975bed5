/**
 * JSON values as the tools hold them: an object is a list of its own properties in
 * property order, and two values are deeply equal when they agree up to that order.
 */
module Json {
  import opened Base
  import opened Listing
  import LineEndings

  const MAX_SAFE_INTEGER := 9007199254740991

  /** The one number beside the safe integers that the tools accept and test: it counts as zero. */
  const NEGATIVE_ZERO := "-0"

  datatype Json =
    | Null
    | Bool(b: bool)
    | Int(n: int)              // a number that JavaScript calls a safe integer
    | Float(literal: string)   // any other number, by the name of its value
    | Str(s: string)
    | Arr(items: seq<Json>)
    | Obj(fields: seq<Field>)

  datatype Field = Field(key: string, value: Json)

  /** The position of a property, or the number of properties when there is none. */
  function Index(fields: seq<Field>, key: string): (i: nat)
    ensures i <= |fields|
    ensures i < |fields| ==> fields[i].key == key
    ensures forall j :: 0 <= j < i ==> fields[j].key != key
  {
    if fields == [] then 0
    else if fields[0].key == key then 0
    else 1 + Index(fields[1..], key)
  }

  predicate Has(fields: seq<Field>, key: string) {
    Index(fields, key) < |fields|
  }

  function Find(fields: seq<Field>, key: string): Option<Json> {
    var i := Index(fields, key);
    if i < |fields| then Some(fields[i].value) else None
  }

  /** Assignment to a property: in place when it exists, otherwise at the end. */
  function Put(fields: seq<Field>, key: string, value: Json): seq<Field> {
    var i := Index(fields, key);
    if i < |fields| then fields[i := Field(key, value)] else fields + [Field(key, value)]
  }

  /** Deletion of properties. */
  function Without(fields: seq<Field>, keys: set<string>): seq<Field> {
    if fields == [] then []
    else (if fields[0].key in keys then [] else [fields[0]]) + Without(fields[1..], keys)
  }

  predicate Distinct(fields: seq<Field>) {
    forall i, j :: 0 <= i < j < |fields| ==> fields[i].key != fields[j].key
  }

  /** The decimal form of an array index. */
  predicate IsIndexKey(key: string) {
    && key != "" && (forall i :: 0 <= i < |key| ==> '0' <= key[i] <= '9')
    && (key[0] == '0' ==> |key| == 1)
    && (|key| < 10 || (|key| == 10 && !Before("4294967294", key)))
  }

  predicate IndexBefore(a: string, b: string) {
    |a| < |b| || (|a| == |b| && Before(a, b))
  }

  /** JavaScript lists the properties named by an array index first, in numeric order. */
  predicate IndexKeysFirst(fields: seq<Field>) {
    forall i, j :: 0 <= i < j < |fields| && IsIndexKey(fields[j].key) ==>
      IsIndexKey(fields[i].key) && IndexBefore(fields[i].key, fields[j].key)
  }

  /** What a parser can produce: distinct property names in property order, integers in the safe range. */
  predicate WellFormed(j: Json) {
    match j
    case Int(n) => -MAX_SAFE_INTEGER <= n <= MAX_SAFE_INTEGER
    case Arr(items) => forall i :: 0 <= i < |items| ==> WellFormed(items[i])
    case Obj(fields) =>
      Distinct(fields) && IndexKeysFirst(fields) && forall i :: 0 <= i < |fields| ==> WellFormed(fields[i].value)
    case _ => true
  }

  /** A property read; reading a property of null throws. */
  function Property(j: Json, key: string): Option<Json> {
    if j.Obj? then Find(j.fields, key) else None
  }

  predicate Truthy(j: Json) {
    match j
    case Null => false
    case Bool(b) => b
    case Int(n) => n != 0
    case Float(l) => l != NEGATIVE_ZERO
    case Str(s) => s != ""
    case _ => true
  }

  /** Values without property order, so that deep equality is equality of meanings. */
  datatype Meaning =
    | MNull
    | MBool(b: bool)
    | MInt(n: int)
    | MFloat(literal: string)
    | MStr(s: string)
    | MArr(items: seq<Meaning>)
    | MObj(properties: map<string, Meaning>)

  function MeaningOf(j: Json): Meaning
    decreases j, 1
  {
    match j
    case Null => MNull
    case Bool(b) => MBool(b)
    case Int(n) => MInt(n)
    case Float(l) => MFloat(l)
    case Str(s) => MStr(s)
    case Arr(items) => MArr(seq(|items|, i requires 0 <= i < |items| => MeaningOf(items[i])))
    case Obj(fields) => MObj(MeaningOfFields(fields))
  }

  function MeaningOfFields(fields: seq<Field>): (m: map<string, Meaning>)
    ensures forall k :: k in m <==> exists i :: 0 <= i < |fields| && fields[i].key == k
    decreases fields, 0
  {
    if fields == [] then map[]
    else MeaningOfFields(fields[1..])[fields[0].key := MeaningOf(fields[0].value)]
  }

  predicate DeepEqual(a: Json, b: Json) {
    MeaningOf(a) == MeaningOf(b)
  }

  predicate SameKeys(a: seq<Field>, b: seq<Field>) {
    |a| == |b| && forall i :: 0 <= i < |a| ==> a[i].key == b[i].key
  }

  lemma IndexIsUnique(fields: seq<Field>, i: nat)
    requires Distinct(fields) && i < |fields|
    ensures Index(fields, fields[i].key) == i
  {
  }

  lemma {:induction false} SameKeysSameIndex(a: seq<Field>, b: seq<Field>, key: string)
    requires SameKeys(a, b)
    ensures Index(a, key) == Index(b, key)
  {
    if a != [] && a[0].key != key {
      SameKeysSameIndex(a[1..], b[1..], key);
    }
  }

  lemma {:induction false} IndexAfterAppend(fields: seq<Field>, last: Field, key: string)
    ensures Index(fields + [last], key) ==
            if Has(fields, key) then Index(fields, key) else if last.key == key then |fields| else |fields| + 1
  {
    if fields == [] {
      assert (fields + [last])[1..] == [];
    } else {
      assert (fields + [last])[1..] == fields[1..] + [last];
      IndexAfterAppend(fields[1..], last, key);
    }
  }

  lemma FindAfterPut(fields: seq<Field>, key: string, value: Json, other: string)
    ensures Find(Put(fields, key, value), other) == if other == key then Some(value) else Find(fields, other)
    ensures Has(fields, key) ==> SameKeys(fields, Put(fields, key, value))
  {
    if Has(fields, key) {
      SameKeysSameIndex(fields, Put(fields, key, value), other);
    } else {
      IndexAfterAppend(fields, Field(key, value), other);
    }
  }

  lemma {:induction false} WithoutDependsOnOthers(a: seq<Field>, b: seq<Field>, keys: set<string>)
    requires SameKeys(a, b)
    requires forall i :: 0 <= i < |a| && a[i].key !in keys ==> a[i] == b[i]
    ensures Without(a, keys) == Without(b, keys)
  {
    if a != [] {
      assert forall i :: 0 <= i < |a[1..]| ==> a[1..][i] == a[i + 1] && b[1..][i] == b[i + 1];
      WithoutDependsOnOthers(a[1..], b[1..], keys);
    }
  }

  lemma {:induction false} WithoutForgetsPut(fields: seq<Field>, key: string, value: Json, keys: set<string>)
    requires key in keys
    ensures Without(Put(fields, key, value), keys) == Without(fields, keys)
  {
    if Has(fields, key) {
      FindAfterPut(fields, key, value, key);
      WithoutDependsOnOthers(fields, Put(fields, key, value), keys);
    } else {
      WithoutAppend(fields, Field(key, value), keys);
    }
  }

  lemma {:induction false} WithoutAppend(fields: seq<Field>, last: Field, keys: set<string>)
    requires last.key in keys
    ensures Without(fields + [last], keys) == Without(fields, keys)
  {
    if fields == [] {
      assert (fields + [last])[1..] == [];
    } else {
      assert (fields + [last])[1..] == fields[1..] + [last];
      WithoutAppend(fields[1..], last, keys);
    }
  }

  lemma PutKeepsWellFormed(fields: seq<Field>, key: string, value: Json)
    requires WellFormed(Obj(fields)) && WellFormed(value) && !IsIndexKey(key)
    ensures WellFormed(Obj(Put(fields, key, value)))
  {
    hide IsIndexKey, IndexBefore;
    var after := Put(fields, key, value);
    forall i | 0 <= i < |after| ensures WellFormed(after[i].value) {
      if i < |fields| { assert WellFormed(fields[i].value); }
    }
  }

  /**
   * The library calls the tools make. Digests, parsing and printing stay uninterpreted; `stored` is
   * what a number other than a safe integer is after it has been printed and read back, `render` is
   * the two-space rendering followed by a newline, and `canonical` is the identity record computed
   * from the canonical bytes of a value.
   */
  datatype Platform = Platform(
    digest: string -> string,
    parse: string -> Option<Json>,
    render: Json -> string,
    stored: string -> Json,
    canonical: Json -> Option<Json>)
  {
    function Sha256(text: string): string {
      digest(LineEndings.Normalize(text))
    }

    /** A value as it is after it has been printed and read back. */
    function Stored(j: Json): Json
      decreases j, 1
    {
      match j
      case Float(l) => stored(l)
      case Arr(items) => Arr(seq(|items|, i requires 0 <= i < |items| => Stored(items[i])))
      case Obj(fields) => Obj(StoredFields(fields))
      case _ => j
    }

    function StoredFields(fields: seq<Field>): (r: seq<Field>)
      ensures SameKeys(fields, r)
      decreases fields, 0
    {
      seq(|fields|, i requires 0 <= i < |fields| => Field(fields[i].key, Stored(fields[i].value)))
    }

    /** Every number in the value prints as itself. */
    predicate Exact(j: Json) {
      match j
      case Float(l) => stored(l) == j
      case Arr(items) => forall i :: 0 <= i < |items| ==> Exact(items[i])
      case Obj(fields) => forall i :: 0 <= i < |fields| ==> Exact(fields[i].value)
      case _ => true
    }

    /**
     * What is assumed of the JSON library: minus zero prints as zero, numbers without a JSON form as
     * null, everything else as itself. No statement about the digest is made here.
     */
    ghost predicate Faithful() {
      && (forall l {:trigger stored(l)} ::
            stored(l) == Float(l) || stored(l) == if l == NEGATIVE_ZERO then Int(0) else Null)
      && stored(NEGATIVE_ZERO) == Int(0)
      && (forall j {:trigger render(j)} :: WellFormed(j) ==> parse(render(j)) == Some(Stored(j)) && '\r' !in render(j))
      && (forall j {:trigger render(Stored(j))} :: WellFormed(j) ==> render(Stored(j)) == render(j))
      && (forall t {:trigger parse(t)} :: parse(t).Some? ==> WellFormed(parse(t).value))
      && (forall t {:trigger LineEndings.Normalize(t)} :: parse(LineEndings.Normalize(t)) == parse(t))
    }

    /** Two texts that differ by more than their line endings but have one digest. */
    predicate Clash(a: string, b: string) {
      LineEndings.Normalize(a) != LineEndings.Normalize(b) && Sha256(a) == Sha256(b)
    }
  }
}
