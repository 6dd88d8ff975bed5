/** The part of the repository the reference tools read and write, as one value. */
module Repository {
  import opened Base
  import opened Json
  import opened ReferenceSelection

  datatype State = State(
    version: string,                             // the version in package.json
    historical: map<string, string>,             // fixtures/<name>
    chains: map<string, map<string, string>>,    // the directories fixtures/<version>/<name>
    manifests: map<string, string>,              // the selection manifest of each version
    selector: string,                            // src/reference-selection.mjs
    producers: map<string, string>)              // every other file a tool reads, by path
  {
    /** The fixtures of the selected version. */
    function Chain(): map<string, string> {
      if version in chains then chains[version] else map[]
    }

    function WithChain(chain: map<string, string>): State {
      this.(chains := chains[version := chain])
    }
  }

  /** The own entries of a pin table; reading those of a missing or null table throws. */
  function Entries(table: Option<Json>): Option<seq<Field>> {
    match table
    case None => None
    case Some(Null) => None
    case Some(Obj(fields)) => Some(fields)
    case Some(Arr(items)) => if items == [] then Some([]) else None
    case Some(Str(s)) => if s == "" then Some([]) else None
    case Some(_) => Some([])
  }

  predicate IsDirectChild(name: string) {
    '/' !in name
  }

  /** Every pinned file exists and its normalised text has the pinned digest. */
  predicate PinsMatch(p: Platform, files: map<string, string>, pins: seq<Field>) {
    forall i :: 0 <= i < |pins| ==>
      IsDirectChild(pins[i].key) && pins[i].key in files && pins[i].value == Str(p.Sha256(files[pins[i].key]))
  }

  /** The manifest of a version; None when it is missing or no manifest is selected by that version. */
  function ReadManifest(p: Platform, st: State, version: string): Option<Json> {
    if Registered(version) && version in st.manifests then p.parse(st.manifests[version]) else None
  }

  predicate HistoricalBytesMatch(p: Platform, st: State, manifest: Json) {
    var pins := Entries(Property(manifest, "historicalFixtures"));
    pins.Some? && PinsMatch(p, st.historical, pins.value)
  }
}
