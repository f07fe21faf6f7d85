/**
 The documents the ledger stores, and the libraries that read them. JSON
 syntax, canonicalisation (RFC 8785), digests and JSON Schema are taken as
 given functions; the model is about what the ledger does with their answers.
 */
module Domain {
  import opened Wrappers
  import opened Text
  import opened Git
  import opened ActorPolicy

  /** A raw JSON value inside a document; "" is Go's empty json.RawMessage. */
  type Raw = string

  datatype EventDoc = EventDoc(
    schemaVersion: string, eventId: string, eventType: string, expectedLedgerCommit: string,
    policyVersion: string, targets: seq<string>, recordKind: string,
    value: Raw, priorState: Raw, resultingState: Raw, idempotencyKey: string, contentSha: string)

  const ZERO_DOC := EventDoc("", "", "", "", "", [], "", "", "", "", "", "")

  datatype Binding = Binding(
    schemaVersion: string, bindingId: string, recordKind: string, stateModel: string,
    eventSchema: string, policyVersion: string)

  datatype GenesisRoot = GenesisRoot(
    ledgerId: string, initialPolicy: string, initialSchemas: seq<string>, initialAuthorities: seq<string>)

  datatype State = State(
    targetId: string, recordKind: string, status: string, revision: nat,
    currentEventId: string, previousEventId: Option<string>, value: Raw)

  type Projection = map<string, State>

  /** Schema documents by $id. */
  type Registry = map<string, Raw>

  datatype Env = Env(
    id: Commit -> string,                        // object names
    sha256: string -> string,                    // hexadecimal digest
    strictValid: Raw -> bool,                    // strictjson.Validate
    canon: Raw -> Option<Raw>,                   // canonicaljson.Canonicalize
    digestOk: Raw -> bool,                       // digest.Verify
    decodeEvent: Raw -> Option<EventDoc>,        // json.Unmarshal of an object
    decodeBinding: Raw -> Option<Binding>,
    decodeGenesis: Raw -> Option<GenesisRoot>,   // with genesis.Validate's field checks
    decodePolicy: Raw -> Option<PolicyDoc>,      // unknown fields refused
    ed25519: string -> bool,                     // canonical base64 of a public key
    schemaId: Raw -> Option<string>,             // the non-empty $id of a JSON object
    registrable: Raw -> bool,                    // registry.Add, apart from duplicates
    compiles: (Registry, string) -> bool,        // registry.Compile
    conforms: (Registry, string, Raw) -> bool,   // registry.Validate
    marshalState: State -> Raw,                  // json.Marshal
    marshalAbsent: string -> Raw)                // of {"exists":false,"target_id":...}

  /** Stored as canonical JSON under a correct content digest. */
  predicate Sealed(env: Env, raw: Raw) {
    env.strictValid(raw) && env.canon(raw) == Some(raw) && env.digestOk(raw)
  }

  /**
   What is assumed of the libraries: canonicalisation validates its input and is
   idempotent, digests and object names are collision-free, object names are
   lower-case, and a decoded field is no longer than its document. Lengths of
   digests are left open, so that collision-freedom can be met; the 40 or 64
   characters of an object name are what the reader checks.
   */
  ghost predicate Lawful(env: Env) {
    LawfulJson(env) && LawfulHash(env) && LawfulNames(env)
  }

  ghost predicate LawfulJson(env: Env) {
    && (forall x: Raw {:trigger env.canon(x)} :: env.canon(x).Some? ==>
          && env.strictValid(x)
          && env.canon(x).value != ""
          && env.strictValid(env.canon(x).value)
          && env.canon(env.canon(x).value) == env.canon(x))
    && (forall x: Raw {:trigger env.decodeEvent(x)} :: env.decodeEvent(x).Some? ==>
          var doc := env.decodeEvent(x).value;
          |doc.eventId| <= |x| && |doc.idempotencyKey| <= |x| && |doc.contentSha| <= |x| &&
          |doc.expectedLedgerCommit| <= |x|)
  }

  ghost predicate LawfulHash(env: Env) {
    && (forall a: string, b: string :: env.sha256(a) == env.sha256(b) ==> a == b)
    && (forall a: string {:trigger env.sha256(a)} ::
          (a != "" ==> env.sha256(a) != "") && (Fits(a) ==> Fits(env.sha256(a))))
  }

  ghost predicate LawfulNames(env: Env) {
    && (forall a: Commit, b: Commit :: env.id(a) == env.id(b) ==> a == b)
    && (forall a: Commit {:trigger env.id(a)} ::
          env.id(a) != "" && forall i | 0 <= i < |env.id(a)| :: !('A' <= env.id(a)[i] <= 'Z'))
  }

  /** actorauth.ParsePolicyDocument without its expected identity: parsePolicyDocument. */
  function ParsePolicy(env: Env, raw: Raw): Option<PolicyDoc> {
    if Sealed(env, raw) then
      match env.decodePolicy(raw)
      case Some(doc) => if ValidPolicy(doc, env.ed25519) then Some(doc) else None
      case None => None
    else None
  }

  function ParsePolicyFor(env: Env, raw: Raw, ledgerId: string, version: string): Option<PolicyDoc> {
    if ledgerId == "" || version == "" then None
    else
      match ParsePolicy(env, raw)
      case Some(doc) => if doc.ledgerId == ledgerId && doc.version == version then Some(doc) else None
      case None => None
  }
}
