/** Replay: the fold over a linear history that every reader and writer of the ledger trusts. */
module LedgerReplay {
  import opened Wrappers
  import opened Text
  import opened Git
  import opened ActorPolicy
  import opened Domain
  import opened Bindings
  import Reducer

  const GENESIS_DIR := "config/genesis"
  const GENESIS_PATH := "config/genesis/root.json"

  datatype Error =
    | NonLinearHistory | NamespaceInvalid | GenesisInvalid | GenesisImmutable | ActorPolicyInvalid
    | ImmutableTree | SchemaSnapshot | BindingSnapshot | GenesisPolicyMismatch
    | EventInvalid | DuplicateEventId | DuplicateIdempotencyKey | PolicyUnbound | EventSchemaMismatch
    | AuthorityPolicyMismatch | ExpectedCommitMismatch | PolicyDocumentInvalid | ReducerRefused

  // -------------------------------------------------------------- namespace

  predicate ValidVersionedPath(p: string, dir: string) {
    HasPrefix(p, dir + "/") && HasSuffix(p, ".json") && CleanParts(p) && !ContainsAny(p, "\\\0\r\n")
  }

  /** validateAuthoritativeLedgerPath: the closed world of ledger paths. */
  predicate ValidLedgerPath(p: string) {
    || p == GENESIS_PATH || p == LEDGER_POLICY_PATH
    || (if HasPrefix(p, SCHEMA_DIR + "/") then ValidVersionedPath(p, SCHEMA_DIR)
        else if HasPrefix(p, BINDING_DIR + "/") then ValidVersionedPath(p, BINDING_DIR)
        else HasPrefix(p, "events/") && HasSuffix(p, ".json") && ValidEventPath(p))
  }

  predicate ValidNamespace(c: Commit) {
    forall p | p in Changed(c) :: ValidLedgerPath(p)
  }

  // ---------------------------------------------------------------- genesis

  predicate SortedUnique(values: seq<string>) {
    && (forall i | 0 <= i < |values| :: values[i] != "")
    && (forall i | 0 < i < |values| :: Leq(values[i - 1], values[i]) && values[i - 1] != values[i])
  }

  /** genesis.Validate. */
  function ParseGenesis(env: Env, raw: Raw): Option<GenesisRoot> {
    if !Sealed(env, raw) then None
    else
      match env.decodeGenesis(raw)
      case None => None
      case Some(r) =>
        if && r.ledgerId != "" && r.initialPolicy != "" && r.initialAuthorities != []
           && SortedUnique(r.initialSchemas) && SortedUnique(r.initialAuthorities)
        then Some(r) else None
  }

  /** The root tree holds exactly the schemas Genesis declares. */
  predicate DeclaresSchemas(env: Env, tree: Tree, declared: seq<string>) {
    match JsonFiles(tree, SCHEMA_DIR)
    case None => false
    case Some(raws) =>
      && (forall raw | raw in raws :: env.schemaId(raw).Some?)
      && (var ids := set raw | raw in raws && env.schemaId(raw).Some? :: env.schemaId(raw).value;
          |ids| == |raws| && SortedPaths(ids) == declared)
  }

  /** validateInitialActorPolicyHistory at the root commit. */
  function RootPolicy(env: Env, c: Commit, root: GenesisRoot): Option<PolicyDoc> {
    if ImmutableJsonAdditions(c, LEDGER_POLICY_DIR) != Some([LEDGER_POLICY_PATH]) then None
    else if LEDGER_POLICY_PATH !in c.tree || !c.tree[LEDGER_POLICY_PATH].regular then None
    else
      match ParsePolicyFor(env, c.tree[LEDGER_POLICY_PATH].bytes, root.ledgerId, root.initialPolicy)
      case None => None
      case Some(doc) =>
        if root.initialAuthorities == SortedPaths(GrantedActors(doc)) then Some(doc) else None
  }

  datatype Trust = Trust(root: GenesisRoot, policy: PolicyDoc)

  /** The trust root a first commit establishes. */
  function ReadTrust(env: Env, c: Commit): Result<Trust, Error> {
    if ImmutableJsonAdditions(c, GENESIS_DIR) != Some([GENESIS_PATH]) then Err(GenesisInvalid)
    else if EventAdditions(c) != Some([]) then Err(GenesisInvalid)
    else if GENESIS_PATH !in c.tree || !c.tree[GENESIS_PATH].regular then Err(GenesisInvalid)
    else
      match ParseGenesis(env, c.tree[GENESIS_PATH].bytes)
      case None => Err(GenesisInvalid)
      case Some(root) =>
        if !DeclaresSchemas(env, c.tree, root.initialSchemas) then Err(GenesisInvalid)
        else
          match RootPolicy(env, c, root)
          case None => Err(ActorPolicyInvalid)
          case Some(doc) => Ok(Trust(root, doc))
  }

  /** No later commit touches the root documents. */
  predicate LeavesTrust(c: Commit) {
    ImmutableJsonAdditions(c, GENESIS_DIR) == Some([]) && ImmutableJsonAdditions(c, LEDGER_POLICY_DIR) == Some([])
  }

  /** validateGenesisHistory. */
  function ValidateGenesis(env: Env, h: seq<Commit>): Result<Trust, Error> {
    if h == [] then Err(GenesisInvalid)
    else
      var trust :- ReadTrust(env, h[0]);
      if forall i | 0 < i < |h| :: LeavesTrust(h[i]) then Ok(trust) else Err(GenesisImmutable)
  }

  // ----------------------------------------------------------------- events

  /** An event read back from the commit that accepted it. */
  datatype Event = Event(commit: Commit, path: string, doc: EventDoc)

  /** strictjson.Validate, canonical form, digest.Verify, decoding: what both readers of events share. */
  function ParseEvent(env: Env, raw: Raw): Option<EventDoc> {
    if Fits(raw) && Sealed(env, raw) then env.decodeEvent(raw) else None
  }

  function ValidateEvent(env: Env, registry: Registry, c: Commit, path: string): Option<Event>
    requires path in c.tree
  {
    var raw := c.tree[path].bytes;
    match ParseEvent(env, raw)
    case None => None
    case Some(doc) =>
      if && doc.schemaVersion != "" && env.conforms(registry, doc.schemaVersion, raw)
         && doc.eventId != "" && doc.eventType != "" && doc.contentSha != "" && Fits(path)
      then Some(Event(c, path, doc)) else None
  }

  function ReducerEvent(doc: EventDoc): Reducer.Event {
    Reducer.Event(doc.eventId, doc.eventType, doc.targets, doc.recordKind, doc.value, doc.priorState,
                  doc.resultingState)
  }

  predicate IsRecordEvent(doc: EventDoc) {
    HasPrefix(doc.eventType, Reducer.RECORD_PREFIX)
  }

  /** applyGovernedRecordEvent; `parent` is the accepting commit's parent id, "" at the root. */
  function ApplyGoverned(
    env: Env, records: Projection, bindings: Snapshot, root: GenesisRoot, parent: string, doc: EventDoc)
    : Result<Projection, Error>
  {
    if doc.recordKind !in bindings.byKind then Err(PolicyUnbound)
    else
      var b := bindings.byKind[doc.recordKind];
      if doc.schemaVersion != b.eventSchema then Err(EventSchemaMismatch)
      else if doc.policyVersion != b.policyVersion then Err(AuthorityPolicyMismatch)
      else if parent == "" || doc.expectedLedgerCommit != parent then Err(ExpectedCommitMismatch)
      else if && doc.recordKind == POLICY_RECORD_KIND
              && (doc.eventType == Reducer.CREATED || doc.eventType == Reducer.REPLACED)
              && ParsePolicyFor(env, doc.value, root.ledgerId, b.policyVersion).None?
      then Err(PolicyDocumentInvalid)
      else
        match Reducer.Apply(env, records, ReducerBindings(bindings), ReducerEvent(doc))
        case Ok(next) => Ok(next)
        case Err(_) => Err(ReducerRefused)
  }

  function ParentId(env: Env, c: Commit): string {
    if |c.parents| == 0 then "" else env.id(c.parents[0])
  }

  datatype Ledger = Ledger(events: seq<Event>, records: Projection, bindingCount: nat)

  predicate HasEventId(events: seq<Event>, id: string) {
    exists e | e in events :: e.doc.eventId == id
  }

  predicate HasKey(events: seq<Event>, key: string) {
    exists e | e in events :: e.doc.idempotencyKey == key
  }

  function AddEvent(
    env: Env, root: GenesisRoot, registry: Registry, bindings: Snapshot, c: Commit, l: Ledger, path: string)
    : Result<Ledger, Error>
    requires path in c.tree
  {
    match ValidateEvent(env, registry, c, path)
    case None => Err(EventInvalid)
    case Some(e) =>
      if HasEventId(l.events, e.doc.eventId) then Err(DuplicateEventId)
      else if e.doc.idempotencyKey != "" && HasKey(l.events, e.doc.idempotencyKey)
      then Err(DuplicateIdempotencyKey)
      else if !IsRecordEvent(e.doc) then Ok(l.(events := l.events + [e]))
      else
        var records :- ApplyGoverned(env, l.records, bindings, root, ParentId(env, c), e.doc);
        Ok(l.(events := l.events + [e], records := records))
  }

  function AddEvents(
    env: Env, root: GenesisRoot, registry: Registry, bindings: Snapshot, c: Commit, l: Ledger, paths: seq<string>)
    : Result<Ledger, Error>
    requires forall p | p in paths :: p in c.tree
  {
    if paths == [] then Ok(l)
    else
      var before :- AddEvents(env, root, registry, bindings, c, l, paths[..|paths| - 1]);
      AddEvent(env, root, registry, bindings, c, before, paths[|paths| - 1])
  }

  /** One commit of the replay loop; `first` is the Genesis commit. */
  function ReplayCommit(env: Env, root: GenesisRoot, first: Commit, l: Ledger, c: Commit): Result<Ledger, Error> {
    var schemas := ImmutableJsonAdditions(c, SCHEMA_DIR);
    var bindingFiles := ImmutableJsonAdditions(c, BINDING_DIR);
    var additions := EventAdditions(c);
    if schemas.None? || bindingFiles.None? || additions.None? then Err(ImmutableTree)
    else if schemas.value == [] && bindingFiles.value == [] && additions.value == [] then Ok(l)
    else
      match LoadSchemas(env, c.tree)
      case None => Err(SchemaSnapshot)
      case Some(registry) =>
        match LoadBindings(env, registry, c.tree)
        case None => Err(BindingSnapshot)
        case Some(bindings) =>
          if c == first && !RootBindingsAgree(bindings, root) then Err(GenesisPolicyMismatch)
          else
            AddEvents(env, root, registry, bindings, c, l.(bindingCount := |bindings.byKind|), additions.value)
  }

  predicate RootBindingsAgree(bindings: Snapshot, root: GenesisRoot) {
    forall id | id in bindings.byId :: bindings.byId[id].policyVersion == root.initialPolicy
  }

  function ReplayHistory(env: Env, root: GenesisRoot, first: Commit, h: seq<Commit>): Result<Ledger, Error> {
    if h == [] then Ok(Ledger([], map[], 0))
    else
      var before :- ReplayHistory(env, root, first, h[..|h| - 1]);
      ReplayCommit(env, root, first, before, h[|h| - 1])
  }

  datatype Manifest = Manifest(head: Commit, genesis: Commit, trust: Trust, ledger: Ledger)

  /** Replay of one head. */
  function Replay(env: Env, head: Commit): Result<Manifest, Error> {
    match History(env.id, head)
    case None => Err(NonLinearHistory)
    case Some(h) =>
      if exists i | 0 <= i < |h| :: !ValidNamespace(h[i]) then Err(NamespaceInvalid)
      else
        var trust :- ValidateGenesis(env, h);
        var ledger :- ReplayHistory(env, trust.root, h[0], h);
        Ok(Manifest(head, h[0], trust, ledger))
  }

  // ------------------------------------------------------------ replay loop

  /** Replay as written: nested loops over growing maps of seen identities. */
  method ReplayLedger(env: Env, head: Commit) returns (r: Result<Manifest, Error>)
    ensures r == Replay(env, head)
  {
    hide IsObjectId, ValidNamespace, ValidateGenesis, ReplayHistory, Linear;
    var history := History(env.id, head);
    if history.None? {
      return Err(NonLinearHistory);
    }
    var h := history.value;
    for i := 0 to |h|
      invariant forall j | 0 <= j < i :: ValidNamespace(h[j])
    {
      if !ValidNamespace(h[i]) {
        return Err(NamespaceInvalid);
      }
    }
    var trust := ValidateGenesis(env, h);
    if trust.Err? {
      return Err(trust.error);
    }
    var ledger := ReplayAll(env, trust.value.root, h);
    if ledger.Err? {
      return Err(ledger.error);
    }
    return Ok(Manifest(head, h[0], trust.value, ledger.value));
  }

  method ReplayAll(env: Env, root: GenesisRoot, h: seq<Commit>) returns (r: Result<Ledger, Error>)
    requires h != []
    ensures r == ReplayHistory(env, root, h[0], h)
  {
    var ledger := Ledger([], map[], 0);
    var seenIds: map<string, Event>, seenKeys: map<string, Event> := map[], map[];
    for i := 0 to |h|
      invariant ReplayHistory(env, root, h[0], h[..i]) == Ok(ledger)
      invariant Indexed(ledger.events, seenIds, seenKeys)
    {
      assert h[..i + 1][..i] == h[..i];
      var stepped;
      stepped, seenIds, seenKeys := ReplayOne(env, root, h[0], ledger, h[i], seenIds, seenKeys);
      assert ReplayHistory(env, root, h[0], h[..i + 1]) == stepped;
      if stepped.Err? {
        ReplayStops(env, root, h[0], h, i + 1, stepped.error);
        return Err(stepped.error);
      }
      ledger := stepped.value;
    }
    assert h[..|h|] == h;
    return Ok(ledger);
  }

  /** The two seen maps index exactly the events so far. */
  ghost predicate Indexed(events: seq<Event>, ids: map<string, Event>, keys: map<string, Event>) {
    && (forall id :: id in ids <==> HasEventId(events, id))
    && (forall k :: k in keys <==> k != "" && HasKey(events, k))
  }

  lemma IndexedSnoc(events: seq<Event>, ids: map<string, Event>, keys: map<string, Event>, e: Event)
    requires Indexed(events, ids, keys)
    ensures var k := e.doc.idempotencyKey;
            Indexed(events + [e], ids[e.doc.eventId := e], if k == "" then keys else keys[k := e])
  {
    forall id ensures HasEventId(events + [e], id) <==> HasEventId(events, id) || id == e.doc.eventId {
      if HasEventId(events, id) {
        var x :| x in events && x.doc.eventId == id;
        assert x in events + [e];
      }
      assert e in events + [e];
    }
    forall k ensures HasKey(events + [e], k) <==> HasKey(events, k) || k == e.doc.idempotencyKey {
      if HasKey(events, k) {
        var x :| x in events && x.doc.idempotencyKey == k;
        assert x in events + [e];
      }
      assert e in events + [e];
    }
  }

  method ReplayOne(
    env: Env, root: GenesisRoot, first: Commit, l: Ledger, c: Commit,
    ids: map<string, Event>, keys: map<string, Event>)
    returns (r: Result<Ledger, Error>, seenIds: map<string, Event>, seenKeys: map<string, Event>)
    requires Indexed(l.events, ids, keys)
    ensures r == ReplayCommit(env, root, first, l, c)
    ensures r.Ok? ==> Indexed(r.value.events, seenIds, seenKeys)
  {
    seenIds, seenKeys := ids, keys;
    var schemas := ImmutableJsonAdditions(c, SCHEMA_DIR);
    var bindingFiles := ImmutableJsonAdditions(c, BINDING_DIR);
    var additions := EventAdditions(c);
    if schemas.None? || bindingFiles.None? || additions.None? {
      return Err(ImmutableTree), seenIds, seenKeys;
    }
    if schemas.value == [] && bindingFiles.value == [] && additions.value == [] {
      return Ok(l), seenIds, seenKeys;
    }
    var registry := LoadSchemas(env, c.tree);
    if registry.None? {
      return Err(SchemaSnapshot), seenIds, seenKeys;
    }
    var bindings := LoadBindings(env, registry.value, c.tree);
    if bindings.None? {
      return Err(BindingSnapshot), seenIds, seenKeys;
    }
    if c == first && !RootBindingsAgree(bindings.value, root) {
      return Err(GenesisPolicyMismatch), seenIds, seenKeys;
    }
    var start := l.(bindingCount := |bindings.value.byKind|);
    r, seenIds, seenKeys :=
      AddEventsLoop(env, root, registry.value, bindings.value, c, start, additions.value, ids, keys);
  }

  method AddEventsLoop(
    env: Env, root: GenesisRoot, registry: Registry, bindings: Snapshot, c: Commit, start: Ledger,
    paths: seq<string>, ids: map<string, Event>, keys: map<string, Event>)
    returns (r: Result<Ledger, Error>, seenIds: map<string, Event>, seenKeys: map<string, Event>)
    requires forall p | p in paths :: p in c.tree
    requires Indexed(start.events, ids, keys)
    ensures r == AddEvents(env, root, registry, bindings, c, start, paths)
    ensures r.Ok? ==> Indexed(r.value.events, seenIds, seenKeys)
  {
    seenIds, seenKeys := ids, keys;
    var l := start;
    for i := 0 to |paths|
      invariant AddEvents(env, root, registry, bindings, c, start, paths[..i]) == Ok(l)
      invariant Indexed(l.events, seenIds, seenKeys)
    {
      assert paths[..i + 1][..i] == paths[..i];
      var validated := ValidateEvent(env, registry, c, paths[i]);
      if validated.None? {
        AddingStops(env, root, registry, bindings, c, start, paths, i + 1, EventInvalid);
        return Err(EventInvalid), seenIds, seenKeys;
      }
      var e := validated.value;
      if e.doc.eventId in seenIds {
        AddingStops(env, root, registry, bindings, c, start, paths, i + 1, DuplicateEventId);
        return Err(DuplicateEventId), seenIds, seenKeys;
      }
      if e.doc.idempotencyKey != "" && e.doc.idempotencyKey in seenKeys {
        AddingStops(env, root, registry, bindings, c, start, paths, i + 1, DuplicateIdempotencyKey);
        return Err(DuplicateIdempotencyKey), seenIds, seenKeys;
      }
      var records := l.records;
      if IsRecordEvent(e.doc) {
        var applied := ApplyGoverned(env, l.records, bindings, root, ParentId(env, c), e.doc);
        if applied.Err? {
          AddingStops(env, root, registry, bindings, c, start, paths, i + 1, applied.error);
          return Err(applied.error), seenIds, seenKeys;
        }
        records := applied.value;
      }
      IndexedSnoc(l.events, seenIds, seenKeys, e);
      l := l.(events := l.events + [e], records := records);
      seenIds := seenIds[e.doc.eventId := e];
      if e.doc.idempotencyKey != "" {
        seenKeys := seenKeys[e.doc.idempotencyKey := e];
      }
    }
    assert paths[..|paths|] == paths;
    r := Ok(l);
  }

  lemma {:induction false} ReplayStops(
    env: Env, root: GenesisRoot, first: Commit, h: seq<Commit>, n: nat, error: Error)
    requires n <= |h| && ReplayHistory(env, root, first, h[..n]) == Err(error)
    ensures ReplayHistory(env, root, first, h) == Err(error)
    decreases |h| - n
  {
    if n == |h| {
      assert h[..n] == h;
    } else {
      assert h[..n + 1][..n] == h[..n];
      ReplayStops(env, root, first, h, n + 1, error);
    }
  }

  lemma {:induction false} AddingStops(
    env: Env, root: GenesisRoot, registry: Registry, bindings: Snapshot, c: Commit, start: Ledger,
    paths: seq<string>, n: nat, error: Error)
    requires forall p | p in paths :: p in c.tree
    requires n <= |paths| && AddEvents(env, root, registry, bindings, c, start, paths[..n]) == Err(error)
    ensures AddEvents(env, root, registry, bindings, c, start, paths) == Err(error)
    decreases |paths| - n
  {
    if n == |paths| {
      assert paths[..n] == paths;
    } else {
      assert paths[..n + 1][..n] == paths[..n];
      AddingStops(env, root, registry, bindings, c, start, paths, n + 1, error);
    }
  }
}
