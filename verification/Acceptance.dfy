/** The checks a candidate passes before the ref may move, and why passing them is enough. */
module Acceptance {
  import opened Wrappers
  import opened Text
  import opened Git
  import opened ActorPolicy
  import opened Domain
  import opened Bindings
  import opened LedgerReplay
  import opened ReplayFacts
  import opened ReplayTheorems
  import opened IdempotencyIndex
  import Reducer
  import BindingId

  /** WriteCandidate: what Prepare hands out and Accept is handed, trusted or not. */
  datatype Handle = Handle(
    expectedHead: string, commit: string, path: string, eventId: string, key: string, contentSha: string,
    quarantineId: string, quarantineSha: string, quarantineSize: int)

  function IdentityOf(h: Handle): BindingId.Identity {
    BindingId.Identity(h.expectedHead, h.commit, h.path, h.eventId, h.key, h.contentSha, h.quarantineSha,
                       h.quarantineSize)
  }

  /** validateQuarantineHandle: the capability is named after the handle's own identity. */
  predicate HandleIsBound(env: Env, h: Handle) {
    BindingId.Id(env.sha256, IdentityOf(h)) == Some(h.quarantineId)
  }

  // ------------------------------------------------------------- acceptance

  datatype Refusal = HandleIncomplete | EventIdTaken | NotExactChild | IrregularFile | UnboundHandle
    | BytesDiffer | SchemasUnreadable | EventRefused | IdentityMismatch | BindingsUnreadable | ReducerRefuses

  /** preflightCandidateForAcceptance, for the commit the handle names. */
  function Preflight(env: Env, m: Manifest, c: Commit, h: Handle): (r: Option<Refusal>)
    ensures r.None? ==> h.path in c.tree
  {
    if h.key == "" || h.eventId == "" || h.contentSha == "" then Some(HandleIncomplete)
    else if HasEventId(m.ledger.events, h.eventId) then Some(EventIdTaken)
    else if !IsObjectId(env.id(c)) || !ValidEventPath(h.path) || !ExactChildAdding(c, m.head, h.path) then Some(NotExactChild)
    else if EventAdditions(c) != Some([h.path]) then Some(IrregularFile)
    else None
  }

  /** validateCandidateForAcceptance against the quarantined bytes. */
  function Refuses(env: Env, m: Manifest, c: Commit, h: Handle, quarantined: Raw): Option<Refusal> {
    match Preflight(env, m, c, h)
    case Some(r) => Some(r)
    case None =>
      if !HandleIsBound(env, h) then Some(UnboundHandle)
      else if c.tree[h.path].bytes != quarantined then Some(BytesDiffer)
      else RefusesEvent(env, m, c, h)
  }

  /** The stored event is validated and applied at the head it extends. */
  function RefusesEvent(env: Env, m: Manifest, c: Commit, h: Handle): Option<Refusal>
    requires h.path in c.tree
  {
    match LoadSchemas(env, m.head.tree)
    case None => Some(SchemasUnreadable)
    case Some(registry) =>
      match ValidateEvent(env, registry, c, h.path)
      case None => Some(EventRefused)
      case Some(e) =>
        if e.doc.eventId != h.eventId || e.doc.idempotencyKey != h.key || e.doc.contentSha != h.contentSha
        then Some(IdentityMismatch)
        else
          match LoadBindings(env, registry, m.head.tree)
          case None => Some(BindingsUnreadable)
          case Some(bindings) =>
            if ApplyGoverned(env, m.ledger.records, bindings, m.trust.root, env.id(m.head), e.doc).Err?
            then Some(ReducerRefuses) else None
  }

  /** An admitted candidate's one event. */
  function AdmittedEvent(env: Env, m: Manifest, c: Commit, h: Handle): Event {
    match LoadSchemas(env, m.head.tree)
    case None => Event(c, h.path, ZERO_DOC)
    case Some(registry) =>
      if h.path !in c.tree then Event(c, h.path, ZERO_DOC)
      else
        match ValidateEvent(env, registry, c, h.path)
        case None => Event(c, h.path, ZERO_DOC)
        case Some(e) => e
  }

  lemma EventPathIsElsewhere(path: string)
    requires ValidEventPath(path)
    ensures ValidLedgerPath(path)
    ensures !Under(path, GENESIS_DIR) && !Under(path, LEDGER_POLICY_DIR)
    ensures !Under(path, SCHEMA_DIR) && !Under(path, BINDING_DIR)
  {
    hide CleanParts, EventPathChar, ValidVersionedPath;
    assert path[0] == 'e';
  }

  lemma EventPathIsUnderEvents(path: string)
    requires ValidEventPath(path)
    ensures path != "" && Under(path, EVENTS)
  {
    hide CleanParts, EventPathChar;
    assert EVENTS + "/" == "events/";
  }

  /** What an event commit leaves alone: the rules, and everything under them. */
  lemma EventCommitFrame(env: Env, c: Commit, parent: Commit, path: string)
    requires ExactChildAdding(c, parent, path) && ValidEventPath(path)
    ensures ValidNamespace(c) && LeavesTrust(c)
    ensures ImmutableJsonAdditions(c, SCHEMA_DIR) == Some([]) && ImmutableJsonAdditions(c, BINDING_DIR) == Some([])
    ensures BindingsAt(env, c) == BindingsAt(env, parent)
    ensures LoadSchemas(env, c.tree) == LoadSchemas(env, parent.tree)
    ensures forall registry :: LoadBindings(env, registry, c.tree) == LoadBindings(env, registry, parent.tree)
  {
    hide ValidEventPath, ValidLedgerPath, Under, ImmutableJsonAdditions, JsonFiles;
    EventPathIsElsewhere(path);
    SingleAdditionDiff(c, parent, path);
    JsonFilesFrame(c.tree, parent.tree, SCHEMA_DIR);
    JsonFilesFrame(c.tree, parent.tree, BINDING_DIR);
  }

  /** The replay step of a commit that adds one valid event and nothing else. */
  lemma ReplayOneEvent(
    env: Env, root: GenesisRoot, first: Commit, l: Ledger, c: Commit, path: string,
    registry: Registry, bindings: Snapshot)
    requires ImmutableJsonAdditions(c, SCHEMA_DIR) == Some([]) && ImmutableJsonAdditions(c, BINDING_DIR) == Some([])
    requires EventAdditions(c) == Some([path]) && path in c.tree && c != first
    requires LoadSchemas(env, c.tree) == Some(registry) && LoadBindings(env, registry, c.tree) == Some(bindings)
    ensures ReplayCommit(env, root, first, l, c)
         == AddEvent(env, root, registry, bindings, c, l.(bindingCount := |bindings.byKind|), path)
  {
    hide ImmutableJsonAdditions, EventAdditions, LoadSchemas, LoadBindings, AddEvent, RootBindingsAgree;
    var start := l.(bindingCount := |bindings.byKind|);
    assert [path][..0] == [];
    assert AddEvents(env, root, registry, bindings, c, start, []) == Ok(start);
    assert AddEvents(env, root, registry, bindings, c, start, [path])
        == AddEvent(env, root, registry, bindings, c, start, path);
  }

  /** The manifest an accepted candidate replays to. */
  function Extended(env: Env, m: Manifest, c: Commit, e: Event): Manifest {
    Manifest(c, m.genesis, m.trust, ExtendedLedger(env, m, e))
  }

  /** The manifest's ledger, one governed event further. */
  function ExtendedLedger(env: Env, m: Manifest, e: Event): Ledger {
    match BindingsAt(env, m.head)
    case None => m.ledger
    case Some(bindings) =>
      match ApplyGoverned(env, m.ledger.records, bindings, m.trust.root, env.id(m.head), e.doc)
      case Err(_) => m.ledger
      case Ok(records) => Ledger(m.ledger.events + [e], records, |bindings.byKind|)
  }

  /** What the acceptance checks establish about the candidate, named one by one. */
  lemma AdmittedParts(env: Env, m: Manifest, c: Commit, h: Handle, bytes: Raw)
    requires Refuses(env, m, c, h, bytes) == None
    ensures ValidEventPath(h.path) && ExactChildAdding(c, m.head, h.path) && EventAdditions(c) == Some([h.path])
    ensures IsObjectId(env.id(c)) && h.path in c.tree
    ensures !HasEventId(m.ledger.events, h.eventId) && h.key != ""
    ensures LoadSchemas(env, m.head.tree).Some? && BindingsAt(env, m.head).Some?
    ensures ValidateEvent(env, LoadSchemas(env, m.head.tree).value, c, h.path).Some?
    ensures var e := AdmittedEvent(env, m, c, h);
            && e.commit == c && e.path == h.path
            && e.doc.eventId == h.eventId && e.doc.idempotencyKey == h.key && e.doc.contentSha == h.contentSha
            && ParseEvent(env, bytes) == Some(e.doc)
            && ApplyGoverned(env, m.ledger.records, BindingsAt(env, m.head).value, m.trust.root, env.id(m.head), e.doc).Ok?
    ensures c.tree[h.path].bytes == bytes && HandleIsBound(env, h)
  {
    hide ValidEventPath, LoadSchemas, LoadBindings, ApplyGoverned, ParseEvent, HandleIsBound, HasEventId;
  }

  /**
   Incremental acceptance refines full replay: at a head that replays, with the
   key unused there, a candidate the checks admit replays too, to the same
   events plus this one and the one-step projection.
   */
  lemma AcceptanceRefinesReplay(env: Env, head: Commit, c: Commit, h: Handle, bytes: Raw)
    requires LawfulNames(env) && Replay(env, head).Ok?
    requires FindAccepted(env, head, h.key) == Ok(None)
    requires Refuses(env, Replay(env, head).value, c, h, bytes) == None
    ensures BindingsAt(env, head).Some?
    ensures var m, e := Replay(env, head).value, AdmittedEvent(env, Replay(env, head).value, c, h);
            && e.commit == c && e.path == h.path && e.doc.eventId == h.eventId
            && e.doc.idempotencyKey == h.key && e.doc.contentSha == h.contentSha
            && ParseEvent(env, bytes) == Some(e.doc)
            && ApplyGoverned(env, m.ledger.records, BindingsAt(env, head).value, m.trust.root, env.id(head), e.doc).Ok?
            && Replay(env, c) == Ok(Extended(env, m, c, e))
  {
    hide Replay, Refuses, FindAccepted, ApplyGoverned, BindingsAt, HasKey, ParseEvent, Extended, AdmittedEvent,
      LoadSchemas, ValidEventPath, ExactChildAdding, EventAdditions, HandleIsBound, HasEventId, ValidateEvent;
    var m := Replay(env, head).value;
    HeadOfReplay(env, head);
    AdmittedParts(env, m, c, h, bytes);
    IndexAgrees(env, head, h.key);
    AdmittedReplays(env, head, c, h, bytes);
  }

  lemma HeadOfReplay(env: Env, head: Commit)
    requires Replay(env, head).Ok?
    ensures Replay(env, head).value.head == head
  {
    hide ReplayHistory, ValidateGenesis, ValidNamespace;
  }

  lemma AdmittedReplays(env: Env, head: Commit, c: Commit, h: Handle, bytes: Raw)
    requires LawfulNames(env) && Replay(env, head).Ok? && !HasKey(Events(env, head), h.key)
    requires Refuses(env, Replay(env, head).value, c, h, bytes) == None
    requires BindingsAt(env, head).Some?
    requires var m := Replay(env, head).value;
             ApplyGoverned(env, m.ledger.records, BindingsAt(env, head).value, m.trust.root, env.id(head),
                           AdmittedEvent(env, m, c, h).doc).Ok?
    requires Replay(env, head).value.head == head
    ensures var m := Replay(env, head).value;
            Replay(env, c) == Ok(Extended(env, m, c, AdmittedEvent(env, m, c, h)))
  {
    hide Replay, Refuses, ApplyGoverned, LoadSchemas, LoadBindings, EventAdditions, ImmutableJsonAdditions,
      ValidEventPath, ValidateEvent, ReplayCommit, HasEventId, HasKey, ParseEvent, ValidNamespace,
      LeavesTrust, AddEvent, AdmittedEvent, HandleIsBound, ExactChildAdding;
    var m := Replay(env, head).value;
    AdmittedParts(env, m, c, h, bytes);
    ChildParent(c, head, h.path);
    EventCommitFrame(env, c, head, h.path);
    var registry := LoadSchemas(env, head.tree).value;
    var bindings := BindingsAt(env, head).value;
    RootIsNotChild(env, head, c);
    ReplayOneEvent(env, m.trust.root, m.genesis, m.ledger, c, h.path, registry, bindings);
    AddAdmitted(env, m, registry, bindings, c, h, bytes);
    ReplayOfChild(env, c);
  }

  lemma ChildParent(c: Commit, parent: Commit, path: string)
    requires ExactChildAdding(c, parent, path)
    ensures c.parents == [parent] && path in c.tree
  {
  }

  lemma RootIsNotChild(env: Env, head: Commit, c: Commit)
    requires Replay(env, head).Ok? && c.parents == [head]
    ensures c != Replay(env, head).value.genesis
  {
    hide Replay;
    ReplayParts(env, head);
    ChainLinks(head);
  }

  lemma AddAdmitted(
    env: Env, m: Manifest, registry: Registry, bindings: Snapshot, c: Commit, h: Handle, bytes: Raw)
    requires LawfulNames(env) && Refuses(env, m, c, h, bytes) == None
    requires c.parents == [m.head] && h.path in c.tree
    requires LoadSchemas(env, m.head.tree) == Some(registry) && BindingsAt(env, m.head) == Some(bindings)
    requires !HasEventId(m.ledger.events, h.eventId) && !HasKey(m.ledger.events, h.key)
    requires ApplyGoverned(env, m.ledger.records, bindings, m.trust.root, env.id(m.head), AdmittedEvent(env, m, c, h).doc).Ok?
    ensures AddEvent(env, m.trust.root, registry, bindings, c, m.ledger.(bindingCount := |bindings.byKind|), h.path)
         == Ok(Extended(env, m, c, AdmittedEvent(env, m, c, h)).ledger)
  {
    hide Refuses, LoadSchemas, LoadBindings, HasEventId, HasKey, ParseEvent, BindingsAt;
    AdmittedParts(env, m, c, h, bytes);
    var e := AdmittedEvent(env, m, c, h);
    assert ParentId(env, c) == env.id(m.head);
    GovernedIsRecordEvent(env, m.ledger.records, bindings, m.trust.root, env.id(m.head), e.doc);
  }

  /** Only record events have reducer semantics, so nothing else is ever admitted. */
  lemma GovernedIsRecordEvent(
    env: Env, records: Projection, bindings: Snapshot, root: GenesisRoot, parent: string, doc: EventDoc)
    requires ApplyGoverned(env, records, bindings, root, parent, doc).Ok?
    ensures IsRecordEvent(doc) && doc.expectedLedgerCommit == parent
  {
    hide Sealed;
  }

  // ------------------------------------------------------------ preparation

  datatype Request = Request(expectedHead: string, path: string, event: Raw)

  /** parseCandidateDocument, with its requirement of an idempotency key. */
  function ParseCandidate(env: Env, raw: Raw): Option<EventDoc> {
    match ParseEvent(env, raw)
    case None => None
    case Some(doc) =>
      if doc.eventId != "" && doc.eventType != "" && doc.schemaVersion != "" && doc.contentSha != "" &&
         doc.idempotencyKey != ""
      then Some(doc) else None
  }

  datatype PrepareRefusal = EventIdUnavailable | Stale | ExpectedCommitDiffers | NoWriteSemantics
    | Unreadable | SchemaRefused | ReducerRefusal

  /** What Prepare asks of a parsed request at its snapshot, the key being unused there. */
  function PrepareRefuses(env: Env, m: Manifest, req: Request, doc: EventDoc): Option<PrepareRefusal> {
    if HasEventId(m.ledger.events, doc.eventId) then Some(EventIdUnavailable)
    else if ToLower(req.expectedHead) != env.id(m.head) then Some(Stale)
    else if doc.expectedLedgerCommit != env.id(m.head) then Some(ExpectedCommitDiffers)
    else if !IsRecordEvent(doc) then Some(NoWriteSemantics)
    else
      match LoadSchemas(env, m.head.tree)
      case None => Some(Unreadable)
      case Some(registry) =>
        if !env.conforms(registry, doc.schemaVersion, req.event) then Some(SchemaRefused)
        else
          match LoadBindings(env, registry, m.head.tree)
          case None => Some(Unreadable)
          case Some(bindings) =>
            if ApplyGoverned(env, m.ledger.records, bindings, m.trust.root, env.id(m.head), doc).Err?
            then Some(ReducerRefusal) else None
  }

  /** PrepareEventCommit accepts the path and the event id. */
  predicate Addable(head: Commit, req: Request, doc: EventDoc) {
    && ValidEventPath(req.path) && Fits(req.path) && PathFree(head.tree, req.path)
    && doc.eventId != "" && !ContainsAny(doc.eventId, "\0\r\n")
  }

  /** And Git answers with a well-formed object name. */
  predicate Buildable(env: Env, head: Commit, req: Request, doc: EventDoc) {
    Addable(head, req, doc) && IsObjectId(env.id(CandidateCommit(head, req, doc)))
  }

  /** The deterministic unreachable commit. */
  function CandidateCommit(head: Commit, req: Request, doc: EventDoc): Commit
    requires Addable(head, req, doc)
  {
    ChildAdding(head, req.path, req.event, "Threadkeeper event " + doc.eventId + "\n")
  }

  /** The handle Prepare returns for it. */
  function PreparedHandle(env: Env, head: Commit, req: Request, doc: EventDoc): Handle
    requires Addable(head, req, doc)
  {
    var c := CandidateCommit(head, req, doc);
    var unbound := Handle(env.id(head), env.id(c), req.path, doc.eventId, doc.idempotencyKey, doc.contentSha, "",
                          env.sha256(req.event), |req.event|);
    match BindingId.Id(env.sha256, IdentityOf(unbound))
    case Some(id) => unbound.(quarantineId := id)
    case None => unbound
  }

  /** No file lies where another file has a directory: Git could not write such a tree. */
  predicate Writable(tree: Tree) {
    forall p, q | p in tree && q in tree :: !HasPrefix(p, q + "/")
  }

  /**
   The commit Prepare builds: on the head alone, with the head's files as they were and
   the request's bytes as one new ordinary file, in a tree Git can write, under a message
   of one line that tells the event.
   */
  lemma CandidateIs(head: Commit, req: Request, doc: EventDoc)
    requires Addable(head, req, doc)
    ensures var c := CandidateCommit(head, req, doc);
            && c.parents == [head]
            && c.tree.Keys == head.tree.Keys + {req.path} && req.path !in head.tree
            && (forall p | p in head.tree :: c.tree[p] == head.tree[p])
            && c.tree[req.path].mode == Plain && c.tree[req.path].bytes == req.event
            && (Writable(head.tree) ==> Writable(c.tree))
            && c.message == "Threadkeeper event " + doc.eventId + "\n"
            && (forall i | 0 <= i < |c.message| - 1 :: c.message[i] !in "\0\r\n")
  {
    hide ValidEventPath;
    var c := CandidateCommit(head, req, doc);
    forall i | 0 <= i < |c.message| - 1 ensures c.message[i] !in "\0\r\n" {
      if i >= 19 {
        assert c.message[i] == doc.eventId[i - 19];
      }
    }
  }

  /**
   Preparation and acceptance agree: a candidate Prepare built at a snapshot is
   admitted by Accept at the same snapshot, under the handle Prepare returned.
   */
  lemma PreparedIsAdmitted(env: Env, m: Manifest, req: Request)
    requires Lawful(env) && ParseCandidate(env, req.event).Some?
    requires var doc := ParseCandidate(env, req.event).value;
             PrepareRefuses(env, m, req, doc) == None && Buildable(env, m.head, req, doc)
    ensures var doc := ParseCandidate(env, req.event).value;
            var h := PreparedHandle(env, m.head, req, doc);
            Refuses(env, m, CandidateCommit(m.head, req, doc), h, req.event) == None
    ensures var doc := ParseCandidate(env, req.event).value;
            BindingId.Sized(IdentityOf(PreparedHandle(env, m.head, req, doc)))
  {
    hide ValidEventPath, LoadSchemas, LoadBindings, ApplyGoverned, HasEventId, PathFree, EventAdditions,
      LawfulHash, LawfulNames;
    var doc := ParseCandidate(env, req.event).value;
    var c := CandidateCommit(m.head, req, doc);
    SingleAdditionDiff(c, m.head, req.path);
    assert |env.id(m.head)| <= |req.event|;
    PreparedHandleIsBound(env, m.head, req, doc);
  }

  lemma PreparedHandleIsBound(env: Env, head: Commit, req: Request, doc: EventDoc)
    requires Lawful(env) && ParseCandidate(env, req.event) == Some(doc) && Buildable(env, head, req, doc)
    requires Fits(env.id(head))
    ensures HandleIsBound(env, PreparedHandle(env, head, req, doc))
    ensures BindingId.Sized(IdentityOf(PreparedHandle(env, head, req, doc)))
  {
    hide ValidEventPath, PathFree, ContainsAny, BindingId.Encode;
    EventPathIsUnderEvents(req.path);
    assert env.canon(req.event) == Some(req.event);
  }

  // ------------------------------------------------------------ the converse

  /**
   Full replay refines incremental acceptance: a commit on a replayed head that
   adds one record event with a key, and replays, is admitted under any handle
   bound to it, and its key was unused.
   */
  lemma ReplayRefinesAcceptance(env: Env, head: Commit, c: Commit, h: Handle)
    requires LawfulNames(env) && Replay(env, head).Ok? && Replay(env, c).Ok?
    requires ValidEventPath(h.path) && ExactChildAdding(c, head, h.path)
    requires ParseEvent(env, c.tree[h.path].bytes).Some?
    requires var doc := ParseEvent(env, c.tree[h.path].bytes).value;
             IsRecordEvent(doc) && h.key == doc.idempotencyKey != "" && h.eventId == doc.eventId &&
             h.contentSha == doc.contentSha
    requires HandleIsBound(env, h)
    ensures FindAccepted(env, head, h.key) == Ok(None)
    ensures Refuses(env, Replay(env, head).value, c, h, c.tree[h.path].bytes) == None
  {
    hide Replay, ValidEventPath, EventAdditions, ImmutableJsonAdditions, LoadSchemas, LoadBindings, ReplayCommit,
      ApplyGoverned, ValidNamespace, LeavesTrust, HasKey, HasEventId, FindFrom, FindAccepted, AddEvent, ParseEvent;
    var m := Replay(env, head).value;
    HeadOfReplay(env, head);
    ReplayOfParent(env, c);
    EventCommitFrame(env, c, head, h.path);
    SingleAdditionDiff(c, head, h.path);
    EventPathIsUnderEvents(h.path);
    ReplayedEventStep(env, m.trust.root, m.genesis, m.ledger, c, h.path);
    var registry := LoadSchemas(env, c.tree).value;
    var bindings := LoadBindings(env, registry, c.tree).value;
    ReplayOneEvent(env, m.trust.root, m.genesis, m.ledger, c, h.path, registry, bindings);
    AddedEventParts(env, m, registry, bindings, c, h, m.ledger.(bindingCount := |bindings.byKind|));
    IndexAgrees(env, head, h.key);
  }

  lemma ReplayedEventStep(env: Env, root: GenesisRoot, first: Commit, l: Ledger, c: Commit, path: string)
    requires ReplayCommit(env, root, first, l, c).Ok? && path in ChangedUnder(c, EVENTS)
    ensures LoadSchemas(env, c.tree).Some? && LoadBindings(env, LoadSchemas(env, c.tree).value, c.tree).Some?
    ensures EventAdditions(c).Some?
  {
    hide ImmutableJsonAdditions, ChangedUnder, LoadSchemas, LoadBindings, AddEvents, RootBindingsAgree;
    assert EventAdditions(c).Some? ==> path in EventAdditions(c).value;
  }

  lemma AddedEventParts(
    env: Env, m: Manifest, registry: Registry, bindings: Snapshot, c: Commit, h: Handle, l: Ledger)
    requires LawfulNames(env) && c.parents == [m.head] && h.path in c.tree
    requires l.events == m.ledger.events && l.records == m.ledger.records
    requires AddEvent(env, m.trust.root, registry, bindings, c, l, h.path).Ok?
    requires ParseEvent(env, c.tree[h.path].bytes).Some?
    requires IsRecordEvent(ParseEvent(env, c.tree[h.path].bytes).value)
    ensures var doc := ParseEvent(env, c.tree[h.path].bytes).value;
            && ValidateEvent(env, registry, c, h.path) == Some(Event(c, h.path, doc))
            && doc.contentSha != "" && doc.eventId != ""
            && !HasEventId(m.ledger.events, doc.eventId)
            && (doc.idempotencyKey != "" ==> !HasKey(m.ledger.events, doc.idempotencyKey))
            && ApplyGoverned(env, m.ledger.records, bindings, m.trust.root, env.id(m.head), doc).Ok?
  {
    hide ParseEvent, HasEventId, HasKey, ApplyGoverned;
  }

  // --------------------------------------------------------- exactly the ledger

  /**
   What Accept admits, in terms of replay alone: a commit that replays, adds exactly
   the handle's path, and there stores the quarantined record event of the handle's
   identity, under a handle whose capability name is bound to it.
   */
  lemma AdmittedIff(env: Env, head: Commit, c: Commit, h: Handle, bytes: Raw)
    requires LawfulNames(env) && Replay(env, head).Ok? && FindAccepted(env, head, h.key) == Ok(None)
    ensures Refuses(env, Replay(env, head).value, c, h, bytes) == None <==>
            && h.key != "" && ValidEventPath(h.path) && ExactChildAdding(c, head, h.path) && HandleIsBound(env, h)
            && c.tree[h.path].bytes == bytes && Replay(env, c).Ok? && ParseEvent(env, bytes).Some?
            && (var doc := ParseEvent(env, bytes).value;
                && IsRecordEvent(doc) && doc.eventId == h.eventId && doc.idempotencyKey == h.key && doc.contentSha == h.contentSha)
  {
    hide Replay, Refuses, FindAccepted, ApplyGoverned, BindingsAt, ParseEvent, Extended, AdmittedEvent, LoadSchemas,
      ValidEventPath, ExactChildAdding, EventAdditions, HandleIsBound, HasEventId, ValidateEvent, IsRecordEvent;
    var m := Replay(env, head).value;
    if Refuses(env, m, c, h, bytes) == None {
      HeadOfReplay(env, head);
      AdmittedParts(env, m, c, h, bytes);
      AcceptanceRefinesReplay(env, head, c, h, bytes);
      GovernedIsRecordEvent(env, m.ledger.records, BindingsAt(env, head).value, m.trust.root, env.id(head),
                            AdmittedEvent(env, m, c, h).doc);
    }
    if ExactChildAdding(c, head, h.path) {
      ChildParent(c, head, h.path);
    }
    if && h.key != "" && ValidEventPath(h.path) && ExactChildAdding(c, head, h.path) && HandleIsBound(env, h)
       && h.path in c.tree && c.tree[h.path].bytes == bytes && Replay(env, c).Ok? && ParseEvent(env, bytes).Some? {
      var doc := ParseEvent(env, bytes).value;
      if IsRecordEvent(doc) && doc.eventId == h.eventId && doc.idempotencyKey == h.key && doc.contentSha == h.contentSha {
        ReplayRefinesAcceptance(env, head, c, h);
      }
    }
  }

  /**
   What Prepare's validation passes, in terms of replay alone: a record event offered at
   the head the caller expected, whose candidate commit replays.
   */
  lemma PreparesIff(env: Env, head: Commit, req: Request)
    requires Lawful(env) && Replay(env, head).Ok? && ParseCandidate(env, req.event).Some?
    requires Buildable(env, head, req, ParseCandidate(env, req.event).value)
    requires FindAccepted(env, head, ParseCandidate(env, req.event).value.idempotencyKey) == Ok(None)
    ensures var doc := ParseCandidate(env, req.event).value;
            PrepareRefuses(env, Replay(env, head).value, req, doc) == None <==>
            && ToLower(req.expectedHead) == env.id(head) && IsRecordEvent(doc)
            && Replay(env, CandidateCommit(head, req, doc)).Ok?
  {
    hide Replay, Refuses, PrepareRefuses, FindAccepted, ParseCandidate, ValidEventPath, PathFree, HandleIsBound, IsRecordEvent,
      PreparedHandle, Lawful, ExactChildAdding, Extended, AdmittedEvent, IsObjectId;
    var doc := ParseCandidate(env, req.event).value;
    var m, c := Replay(env, head).value, CandidateCommit(head, req, doc);
    HeadOfReplay(env, head);
    LawfulIsNamed(env);
    if PrepareRefuses(env, m, req, doc) == None {
      PreparedIsAdmitted(env, m, req);
      PreparedNames(env, head, req, doc);
      AcceptanceRefinesReplay(env, head, c, PreparedHandle(env, head, req, doc), req.event);
      PassedRequest(env, m, req, doc);
    }
    if ToLower(req.expectedHead) == env.id(head) && IsRecordEvent(doc) && Replay(env, c).Ok? {
      HeadFits(env, head);
      PreparedHandleIsBound(env, head, req, doc);
      PreparedNames(env, head, req, doc);
      CandidateParses(env, req, doc);
      ReplayRefinesAcceptance(env, head, c, PreparedHandle(env, head, req, doc));
      AdmittedIsPrepared(env, m, req, doc, PreparedHandle(env, head, req, doc));
    }
  }

  lemma LawfulIsNamed(env: Env)
    requires Lawful(env)
    ensures LawfulNames(env)
  {
  }

  lemma PreparedNames(env: Env, head: Commit, req: Request, doc: EventDoc)
    requires Addable(head, req, doc)
    ensures var h, c := PreparedHandle(env, head, req, doc), CandidateCommit(head, req, doc);
            && h.key == doc.idempotencyKey && h.eventId == doc.eventId && h.contentSha == doc.contentSha && h.path == req.path
            && ExactChildAdding(c, head, req.path) && c.tree[req.path].bytes == req.event && ValidEventPath(req.path)
  {
    hide BindingId.Id, ValidEventPath, PathFree;
  }

  lemma PassedRequest(env: Env, m: Manifest, req: Request, doc: EventDoc)
    requires PrepareRefuses(env, m, req, doc) == None
    ensures ToLower(req.expectedHead) == env.id(m.head) && IsRecordEvent(doc)
  {
    hide LoadSchemas, LoadBindings, ApplyGoverned, IsRecordEvent, HasEventId;
  }

  lemma CandidateParses(env: Env, req: Request, doc: EventDoc)
    requires ParseCandidate(env, req.event) == Some(doc)
    ensures ParseEvent(env, req.event) == Some(doc) && doc.idempotencyKey != ""
  {
    hide ParseEvent;
  }

  lemma HeadFits(env: Env, head: Commit)
    requires Replay(env, head).Ok?
    ensures Fits(env.id(head))
  {
    hide Replay, ValidNamespace, LeavesTrust, ReadTrust;
    ReplayParts(env, head);
    assert Chain(head)[|Chain(head)| - 1] == head;
  }

  /** What an admitted handle for the candidate says about the request. */
  lemma AdmittedIsPrepared(env: Env, m: Manifest, req: Request, doc: EventDoc, h: Handle)
    requires Addable(m.head, req, doc) && Refuses(env, m, CandidateCommit(m.head, req, doc), h, req.event) == None
    requires h.path == req.path && ParseEvent(env, req.event) == Some(doc) && h.eventId == doc.eventId
    requires ToLower(req.expectedHead) == env.id(m.head)
    ensures PrepareRefuses(env, m, req, doc) == None
  {
    hide HasEventId, LoadSchemas, LoadBindings, ApplyGoverned, ParseEvent, ValidEventPath, PathFree, IsRecordEvent, EventAdditions,
      HandleIsBound, IsObjectId;
    var c := CandidateCommit(m.head, req, doc);
    AdmittedParts(env, m, c, h, req.event);
    var e := AdmittedEvent(env, m, c, h);
    GovernedIsRecordEvent(env, m.ledger.records, BindingsAt(env, m.head).value, m.trust.root, env.id(m.head), e.doc);
  }

  // -------------------------------------------------------- what a refusal says

  /** Which fact each refusal of a handle states. */
  lemma HandleRefusalsNameFacts(env: Env, m: Manifest, c: Commit, h: Handle, bytes: Raw)
    ensures var r, taken := Refuses(env, m, c, h, bytes), exists e :: e in m.ledger.events && e.doc.eventId == h.eventId;
            && (r == Some(HandleIncomplete) <==> h.key == "" || h.eventId == "" || h.contentSha == "")
            && (r == Some(EventIdTaken) <==> h.key != "" && h.eventId != "" && h.contentSha != "" && taken)
            && (r == Some(NotExactChild) ==>
                  !IsObjectId(env.id(c)) || !ValidEventPath(h.path) || !ExactChildAdding(c, m.head, h.path))
            && (r == Some(IrregularFile) ==> ExactChildAdding(c, m.head, h.path) && c.tree[h.path].mode != Plain)
            && (r == Some(UnboundHandle) ==> BindingId.Id(env.sha256, IdentityOf(h)) != Some(h.quarantineId))
            && (r == Some(BytesDiffer) ==> h.path in c.tree && c.tree[h.path].bytes != bytes)
            && (r == Some(SchemasUnreadable) ==> LoadSchemas(env, m.head.tree).None?)
  {
    hide ValidEventPath, IsObjectId, BindingId.Id, LoadSchemas, RefusesEvent, EventAdditions;
    if ValidEventPath(h.path) && ExactChildAdding(c, m.head, h.path) && c.tree[h.path].mode == Plain {
      OrdinaryAddition(c, m.head, h.path);
    }
    if Preflight(env, m, c, h).None? && HandleIsBound(env, h) && c.tree[h.path].bytes == bytes {
      EventRefusalsNameFacts(env, m, c, h);
    }
  }

  lemma OrdinaryAddition(c: Commit, parent: Commit, path: string)
    requires ValidEventPath(path) && ExactChildAdding(c, parent, path) && c.tree[path].mode == Plain
    ensures EventAdditions(c) == Some([path])
  {
    EventPathIsUnderEvents(path);
    assert ChangedUnder(c, EVENTS) == {path};
    SortedSingleton(path);
  }

  /** And of the event it names. */
  lemma EventRefusalsNameFacts(env: Env, m: Manifest, c: Commit, h: Handle)
    requires h.path in c.tree
    ensures var r, doc := RefusesEvent(env, m, c, h), ParseEvent(env, c.tree[h.path].bytes);
            && (r.Some? ==> r.value == SchemasUnreadable || r.value == EventRefused || r.value == IdentityMismatch ||
                            r.value == BindingsUnreadable || r.value == ReducerRefuses)
            && (r == Some(SchemasUnreadable) <==> LoadSchemas(env, m.head.tree).None?)
            && (r == Some(EventRefused) ==>
                  LoadSchemas(env, m.head.tree).Some? &&
                  ValidateEvent(env, LoadSchemas(env, m.head.tree).value, c, h.path).None?)
            && (r == Some(IdentityMismatch) ==>
                  doc.Some? && (doc.value.eventId != h.eventId || doc.value.idempotencyKey != h.key || doc.value.contentSha != h.contentSha))
            && (r == Some(BindingsUnreadable) ==> LoadSchemas(env, m.head.tree).Some? && BindingsAt(env, m.head).None?)
            && (r == Some(ReducerRefuses) ==>
                  doc.Some? && BindingsAt(env, m.head).Some? &&
                  ApplyGoverned(env, m.ledger.records, BindingsAt(env, m.head).value, m.trust.root, env.id(m.head), doc.value).Err?)
  {
    hide LoadSchemas, LoadBindings, ApplyGoverned, ParseEvent;
  }

  /** Which fact each refusal of a request states, and that they are looked for in this order. */
  lemma RequestRefusalsNameFacts(env: Env, m: Manifest, req: Request, doc: EventDoc)
    ensures var r, taken := PrepareRefuses(env, m, req, doc), exists e :: e in m.ledger.events && e.doc.eventId == doc.eventId;
            && (r == Some(EventIdUnavailable) <==> taken)
            && (r == Some(Stale) <==> !taken && ToLower(req.expectedHead) != env.id(m.head))
            && (!taken && ToLower(req.expectedHead) == env.id(m.head) ==>
                  && (r == Some(ExpectedCommitDiffers) <==> doc.expectedLedgerCommit != env.id(m.head))
                  && (doc.expectedLedgerCommit == env.id(m.head) ==>
                        (r == Some(NoWriteSemantics) <==> !("core.record." <= doc.eventType))))
            && (r == Some(Unreadable) ==> BindingsAt(env, m.head).None?)
            && (r == Some(SchemaRefused) ==>
                  LoadSchemas(env, m.head.tree).Some? &&
                  !env.conforms(LoadSchemas(env, m.head.tree).value, doc.schemaVersion, req.event))
            && (r == Some(ReducerRefusal) ==>
                  BindingsAt(env, m.head).Some? &&
                  ApplyGoverned(env, m.ledger.records, BindingsAt(env, m.head).value, m.trust.root, env.id(m.head), doc).Err?)
  {
    hide LoadSchemas, LoadBindings, ApplyGoverned, ToLower;
  }
}
