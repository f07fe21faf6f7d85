/**
 The write protocol over the real ledger: what its proofs assume of replay and
 of the validators is what replay and the validators do.
 */
module ProtocolInstance {
  import opened Wrappers
  import opened Text
  import opened Git
  import opened Domain
  import opened Bindings
  import opened LedgerReplay
  import opened ReplayFacts
  import opened ReplayTheorems
  import opened IdempotencyIndex
  import opened Acceptance
  import P = Protocol
  import opened ProtocolInv
  import opened ProtocolTheorems
  import BindingId

  function DocOf(doc: EventDoc): P.Doc {
    P.Doc(doc.eventId, doc.idempotencyKey, doc.contentSha, doc.expectedLedgerCommit, IsRecordEvent(doc))
  }

  function EntryOf(e: Event): P.Entry {
    P.Entry(e.commit, e.path, DocOf(e.doc), if e.path in e.commit.tree then e.commit.tree[e.path].bytes else "")
  }

  function EntriesOf(events: seq<Event>): (r: seq<P.Entry>)
    ensures |r| == |events| && forall i | 0 <= i < |r| :: r[i] == EntryOf(events[i])
  {
    seq(|events|, i requires 0 <= i < |events| => EntryOf(events[i]))
  }

  function EntriesAt(env: Env, c: Commit): seq<P.Entry> {
    if Replay(env, c).Ok? then EntriesOf(Events(env, c)) else []
  }

  function DocumentOf(env: Env, raw: Raw): Option<P.Doc> {
    match ParseEvent(env, raw)
    case Some(doc) => Some(DocOf(doc))
    case None => None
  }

  function CandidateOf(env: Env, raw: Raw): Option<P.Doc> {
    match ParseCandidate(env, raw)
    case Some(doc) => Some(DocOf(doc))
    case None => None
  }

  predicate Prepares(env: Env, head: Commit, req: Request) {
    Replay(env, head).Ok? && ParseCandidate(env, req.event).Some? &&
    PrepareRefuses(env, Replay(env, head).value, req, ParseCandidate(env, req.event).value) == None
  }

  function Builds(env: Env, head: Commit, req: Request): Option<Commit> {
    match ParseCandidate(env, req.event)
    case Some(doc) => if Buildable(env, head, req, doc) then Some(CandidateCommit(head, req, doc)) else None
    case None => None
  }

  predicate Preflights(env: Env, head: Commit, c: Commit, h: Handle) {
    Replay(env, head).Ok? && Preflight(env, Replay(env, head).value, c, h) == None
  }

  predicate Admits(env: Env, head: Commit, c: Commit, h: Handle, bytes: Raw) {
    Replay(env, head).Ok? && Refuses(env, Replay(env, head).value, c, h, bytes) == None
  }

  /** The protocol's oracle, answered by the ledger itself. */
  function Real(env: Env): P.Semantics {
    P.Semantics(
      env.id, env.sha256,
      (c: Commit) => Replay(env, c).Ok?,
      (c: Commit) => EntriesAt(env, c),
      (raw: Raw) => DocumentOf(env, raw),
      (raw: Raw) => CandidateOf(env, raw),
      (head: Commit, req: Request) => Prepares(env, head, req),
      (head: Commit, req: Request) => Builds(env, head, req),
      (head: Commit, c: Commit, h: Handle) => Preflights(env, head, c, h),
      (head: Commit, c: Commit, h: Handle, bytes: Raw) => Admits(env, head, c, h, bytes))
  }

  // ---------------------------------------------------------------- the laws

  lemma RealNames(env: Env)
    requires Lawful(env)
    ensures P.LawfulNames(Real(env))
  {
    hide Replay, EntriesAt, Prepares, Builds, Preflights, Admits, Sealed, DocumentOf;
    var L := Real(env);
    forall a: Commit ensures L.id(a) != "" && ToLower(L.id(a)) == L.id(a) {
      assert env.id(a) != "";
    }
  }

  lemma DistinctEntriesOf(events: seq<Event>)
    requires Distinct(events)
    ensures P.DistinctEntries(EntriesOf(events))
  {
  }

  /** One replayed event, as the protocol sees it. */
  lemma RealEntry(env: Env, c: Commit, e: Event)
    requires Lawful(env) && Placed(env, e) && Within(e.commit, c) && Linear(c) && IsObjectId(env.id(e.commit))
    ensures var L, x := Real(env), EntryOf(e);
            && Within(x.commit, c) && L.document(x.bytes) == Some(x.doc)
            && BindingId.Sized(P.AcceptedIdentity(L, x, x.bytes))
            && (x.doc.record ==> |x.commit.parents| == 1 && x.doc.expectedHead == L.id(x.commit.parents[0]))
  {
    hide Replay, EntriesAt, Prepares, Builds, Preflights, Admits, CandidateOf, IsRecordEvent;
    WithinIsPrefix(e.commit, c);
    assert env.decodeEvent(e.commit.tree[e.path].bytes) == Some(e.doc);
  }

  lemma RealParent(env: Env, c: Commit)
    requires Replay(env, c).Ok? && |c.parents| == 1
    ensures var L := Real(env);
            && L.replays(c.parents[0]) && L.events(c.parents[0]) <= L.events(c)
            && forall i | |L.events(c.parents[0])| <= i < |L.events(c)| :: L.events(c)[i].commit == c
  {
    hide Replay, ReplayCommit, CommitEvents, Prepares, Builds, Preflights, Admits, CandidateOf, DocumentOf,
      EventAdditions, LeavesTrust, ValidNamespace;
    var p := c.parents[0];
    ReplayOfParent(env, c);
    var m0 := Replay(env, p).value;
    CommitAddsItsEvents(env, m0.trust.root, m0.genesis, m0.ledger, c);
    var own := CommitEvents(env, c).value;
    assert Events(env, c) == Events(env, p) + own;
    forall i | |Events(env, p)| <= i < |Events(env, c)| ensures Events(env, c)[i].commit == c {
      assert Events(env, c)[i] == own[i - |Events(env, p)|];
    }
  }

  ghost predicate EntryLaw(L: P.Semantics, c: Commit, x: P.Entry) {
    && Within(x.commit, c) && L.document(x.bytes) == Some(x.doc)
    && BindingId.Sized(P.AcceptedIdentity(L, x, x.bytes))
    && (x.doc.record ==> |x.commit.parents| == 1 && x.doc.expectedHead == L.id(x.commit.parents[0]))
  }

  lemma ReplayedName(env: Env, x: Commit, c: Commit)
    requires Replay(env, c).Ok? && Within(x, c)
    ensures IsObjectId(env.id(x))
  {
    hide Replay, IsObjectId, ValidNamespace, LeavesTrust, ReadTrust, ValidateGenesis;
    ReplayWithin(env, x, c);
    ReplayParts(env, x);
    assert Chain(x)[|Chain(x)| - 1] == x;
  }

  lemma RealEntries(env: Env, c: Commit)
    requires Lawful(env) && Replay(env, c).Ok?
    ensures forall x | x in Real(env).events(c) :: EntryLaw(Real(env), c, x)
  {
    hide Replay, Lawful, Prepares, Builds, Preflights, Admits, CandidateOf, DocumentOf, Placed, Distinct, Within,
      BindingId.Sized, P.AcceptedIdentity, Linear, IsObjectId;
    ReplayParts(env, c);
    ReplayedEventsAreDistinct(env, c);
    var L := Real(env);
    assert L.events(c) == EntriesOf(Events(env, c));
    forall x | x in L.events(c) ensures EntryLaw(L, c, x) {
      var i :| 0 <= i < |L.events(c)| && L.events(c)[i] == x;
      ReplayedName(env, Events(env, c)[i].commit, c);
      RealEntry(env, c, Events(env, c)[i]);
    }
  }

  lemma RealShape(env: Env, c: Commit)
    requires Replay(env, c).Ok?
    ensures Linear(c) && P.DistinctEntries(Real(env).events(c))
    ensures |Events(env, c)| == |Real(env).events(c)|
  {
    hide Replay, Prepares, Builds, Preflights, Admits, CandidateOf, DocumentOf, Placed, Distinct, P.DistinctEntries,
      Linear, Within;
    ReplayParts(env, c);
    ReplayedEventsAreDistinct(env, c);
    DistinctEntriesOf(Events(env, c));
    assert Real(env).events(c) == EntriesOf(Events(env, c));
  }

  lemma RealReplayLaw(env: Env, c: Commit)
    requires Lawful(env) && Replay(env, c).Ok?
    ensures P.ReplayLaw(Real(env), c)
  {
    hide Replay, Lawful, Prepares, Builds, Preflights, Admits, CandidateOf, DocumentOf, Placed, Distinct, Within,
      P.DistinctEntries, BindingId.Sized, P.AcceptedIdentity, Linear;
    RealShape(env, c);
    RealEntries(env, c);
    if |c.parents| == 0 {
      GenesisHasNoEvents(env, c);
    }
    if |c.parents| == 1 {
      RealParent(env, c);
    }
  }

  /** The protocol's lookup and replay's own index see the same keys. */
  lemma AbsentKey(env: Env, head: Commit, key: string)
    requires Replay(env, head).Ok? && key != "" && P.Find(Real(env).events(head), key).None?
    ensures !HasKey(Events(env, head), key) && FindAccepted(env, head, key) == Ok(None)
  {
    hide Replay, FindAccepted, P.Find;
    FindFinds(Real(env).events(head), key);
    forall e | e in Events(env, head) ensures e.doc.idempotencyKey != key {
      var i :| 0 <= i < |Events(env, head)| && Events(env, head)[i] == e;
      assert Real(env).events(head)[i] == EntryOf(e);
      assert EntryOf(e) in Real(env).events(head);
    }
    IndexAgrees(env, head, key);
  }

  lemma RealAdmits(env: Env, head: Commit, c: Commit, h: Handle, bytes: string)
    requires Lawful(env) && Admits(env, head, c, h, bytes) && P.Find(Real(env).events(head), h.key).None?
    ensures P.Extends(Real(env), head, c, h, bytes) && P.Bound(Real(env), h)
  {
    hide Replay, Refuses, FindAccepted, ApplyGoverned, BindingsAt, HasKey, HasEventId, ParseEvent, LoadSchemas,
      ValidEventPath, EventAdditions, ValidateEvent, P.Find, Prepares, Builds, Preflights, CandidateOf, DocumentOf,
      BindingId.Id, AdmittedEvent, Lawful;
    var m := Replay(env, head).value;
    HeadOfReplay(env, head);
    AdmittedParts(env, m, c, h, bytes);
    AbsentKey(env, head, h.key);
    LawfulParts(env);
    AcceptanceRefinesReplay(env, head, c, h, bytes);
    var e := AdmittedEvent(env, m, c, h);
    GovernedIsRecordEvent(env, m.ledger.records, BindingsAt(env, head).value, m.trust.root, env.id(head), e.doc);
    AdmittedExtends(env, head, c, h, bytes, e);
  }

  lemma LawfulParts(env: Env)
    requires Lawful(env)
    ensures Domain.LawfulNames(env)
  {
  }

  lemma AdmittedExtends(env: Env, head: Commit, c: Commit, h: Handle, bytes: string, e: Event)
    requires Replay(env, head).Ok? && Replay(env, c).Ok? && Events(env, c) == Events(env, head) + [e]
    requires ExactChildAdding(c, head, h.path) && c.tree[h.path].bytes == bytes && h.key != ""
    requires e.commit == c && e.path == h.path && e.doc.eventId == h.eventId && e.doc.idempotencyKey == h.key
    requires e.doc.contentSha == h.contentSha && IsRecordEvent(e.doc) && e.doc.expectedLedgerCommit == env.id(head)
    ensures P.Extends(Real(env), head, c, h, bytes)
  {
    hide Replay, IsRecordEvent, Changed, Prepares, Builds, Preflights, CandidateOf, DocumentOf, Admits;
    var L := Real(env);
    assert L.events(c)[|L.events(head)|] == EntryOf(e);
    assert L.events(c) == L.events(head) + [EntryOf(e)];
  }

  lemma RefusesPreflight(env: Env, m: Manifest, c: Commit, h: Handle, bytes: Raw)
    requires Refuses(env, m, c, h, bytes) == None
    ensures Preflight(env, m, c, h) == None
  {
    hide Preflight, RefusesEvent;
  }

  lemma RealPrepares(env: Env, head: Commit, req: Request)
    requires Lawful(env) && Builds(env, head, req).Some? && Prepares(env, head, req)
    ensures CandidateOf(env, req.event).Some?
    ensures var L, c, doc := Real(env), Builds(env, head, req).value, CandidateOf(env, req.event).value;
            var h := P.HandleFor(L, head, c, req, doc);
            doc.key != "" && P.SizedHandle(h) && P.Bound(L, h) && Preflights(env, head, c, h) &&
            Admits(env, head, c, h, req.event)
  {
    hide Replay, Refuses, PrepareRefuses, BindingId.Id, ParseEvent, PathFree, ValidEventPath, BindingId.Sized;
    HeadOfReplay(env, head);
    ReplayedName(env, head, head);
    PreparedIsAdmitted(env, Replay(env, head).value, req);
    PreparedHandleIsBound(env, head, req, ParseCandidate(env, req.event).value);
    RefusesPreflight(env, Replay(env, head).value, CandidateCommit(head, req, ParseCandidate(env, req.event).value),
                     PreparedHandle(env, head, req, ParseCandidate(env, req.event).value), req.event);
  }

  lemma RealPreflights(env: Env, head: Commit, c: Commit, h: Handle)
    requires Preflights(env, head, c, h)
    ensures P.CompleteHandle(h) && !P.HasEvent(Real(env).events(head), h.eventId)
  {
    hide Replay, ValidEventPath, ExactChildAdding, EventAdditions, IsObjectId;
    FreshEvent(env, head, h.eventId);
  }

  lemma FreshEvent(env: Env, head: Commit, eventId: string)
    requires Replay(env, head).Ok?
    ensures P.HasEvent(Real(env).events(head), eventId) <==> HasEventId(Events(env, head), eventId)
  {
    hide Replay;
    var entries := Real(env).events(head);
    if x :| x in entries && x.doc.eventId == eventId {
      var i :| 0 <= i < |entries| && entries[i] == x;
      assert x == EntryOf(Events(env, head)[i]) && Events(env, head)[i] in Events(env, head);
    }
    if e :| e in Events(env, head) && e.doc.eventId == eventId {
      var i :| 0 <= i < |Events(env, head)| && Events(env, head)[i] == e;
      assert entries[i] == EntryOf(e) && entries[i] in entries;
    }
  }

  /** The error class each refusal of a request is reported under. */
  function RequestError(r: PrepareRefusal): P.Error {
    match r
    case EventIdUnavailable => P.EventIdConflict
    case Stale => P.StaleState
    case ExpectedCommitDiffers => P.OtherFailure
    case NoWriteSemantics => P.CandidateInvalid
    case Unreadable => P.OtherFailure
    case SchemaRefused => P.CandidateInvalid
    case ReducerRefusal => P.CandidateInvalid
  }

  function HandleError(r: Refusal): P.Error {
    match r
    case EventIdTaken => P.EventIdConflict
    case IrregularFile => P.OtherFailure
    case SchemasUnreadable => P.OtherFailure
    case BindingsUnreadable => P.OtherFailure
    case _ => P.CandidateInvalid
  }

  /** A request is called invalid for itself alone; where the snapshot cannot be read, that is another failure. */
  lemma RequestsAreJudged(env: Env, m: Manifest, req: Request, doc: EventDoc)
    requires PrepareRefuses(env, m, req, doc).Some? && !HasEventId(m.ledger.events, doc.eventId)
    requires ToLower(req.expectedHead) == env.id(m.head)
    ensures var err, registry := RequestError(PrepareRefuses(env, m, req, doc).value), LoadSchemas(env, m.head.tree);
            && (err == P.CandidateInvalid || err == P.OtherFailure)
            && (err == P.CandidateInvalid <==>
                  && doc.expectedLedgerCommit == env.id(m.head)
                  && (IsRecordEvent(doc) ==>
                        registry.Some? &&
                        (env.conforms(registry.value, doc.schemaVersion, req.event) ==> BindingsAt(env, m.head).Some?)))
  {
    hide LoadSchemas, LoadBindings, ApplyGoverned, ToLower;
  }

  /** So is a handle whose event id is free: the reader's failures and an unordinary file are the others. */
  lemma HandlesAreJudged(env: Env, m: Manifest, c: Commit, h: Handle, bytes: Raw)
    requires Refuses(env, m, c, h, bytes).Some?
    ensures var err := HandleError(Refuses(env, m, c, h, bytes).value);
            && (err == P.EventIdConflict || err == P.CandidateInvalid || err == P.OtherFailure)
            && (err == P.OtherFailure ==>
                  || BindingsAt(env, m.head).None? || (h.path in c.tree && c.tree[h.path].mode != Plain))
            && (err == P.EventIdConflict <==>
                  P.CompleteHandle(h) && exists e :: e in m.ledger.events && e.doc.eventId == h.eventId)
  {
    hide LoadSchemas, LoadBindings, ApplyGoverned, ValidEventPath, HandleIsBound, EventAdditions, IsObjectId;
    HandleRefusalsNameFacts(env, m, c, h, bytes);
    if Preflight(env, m, c, h).None? && HandleIsBound(env, h) && c.tree[h.path].bytes == bytes {
      EventRefusalsNameFacts(env, m, c, h);
    }
  }

  /** Refused requests and preflights are reported as the protocol says. */
  lemma RefusalsAreReported(env: Env, head: Commit, req: Request, c: Commit, h: Handle)
    requires Replay(env, head).Ok?
    ensures ParseCandidate(env, req.event).Some? ==>
              var doc := ParseCandidate(env, req.event).value;
              var refusal := PrepareRefuses(env, Replay(env, head).value, req, doc);
              refusal.Some? ==> P.PrepareRefusal(Real(env), head, req, DocOf(doc), RequestError(refusal.value))
    ensures var refusal := Preflight(env, Replay(env, head).value, c, h);
            refusal.Some? ==> P.PreflightFailure(Real(env), head, h, HandleError(refusal.value))
  {
    hide Replay, ApplyGoverned, LoadSchemas, LoadBindings, IsRecordEvent, ParseCandidate, ValidEventPath, ExactChildAdding,
      EventAdditions, IsObjectId, HasEventId, P.HasEvent;
    HeadOfReplay(env, head);
    FreshEvent(env, head, h.eventId);
    if ParseCandidate(env, req.event).Some? {
      FreshEvent(env, head, ParseCandidate(env, req.event).value.eventId);
    }
  }

  lemma RealAdmission(env: Env)
    requires Lawful(env)
    ensures P.LawfulAdmission(Real(env))
  {
    hide Replay, Admits, Prepares, Builds, Preflights, CandidateOf, DocumentOf, Lawful, EntriesAt, P.Find, P.Extends,
      P.Bound, P.HandleFor, P.SizedHandle;
    var L := Real(env);
    forall head, c, h, bytes | L.admits(head, c, h, bytes) && L.replays(head) && P.Find(L.events(head), h.key).None?
      ensures P.Extends(L, head, c, h, bytes) && P.Bound(L, h)
    {
      RealAdmits(env, head, c, h, bytes);
    }
    forall head, req | L.builds(head, req).Some? && L.prepares(head, req) && L.candidate(req.event).Some?
      ensures var c, doc := L.builds(head, req).value, L.candidate(req.event).value;
              var h := P.HandleFor(L, head, c, req, doc);
              doc.key != "" && P.SizedHandle(h) && P.Bound(L, h) && L.preflights(head, c, h) &&
              L.admits(head, c, h, req.event)
    {
      RealPrepares(env, head, req);
    }
    forall head, c, h | L.preflights(head, c, h)
      ensures P.CompleteHandle(h) && !P.HasEvent(L.events(head), h.eventId)
    {
      RealPreflights(env, head, c, h);
    }
    forall head, req | L.prepares(head, req)
      ensures ToLower(req.expectedHead) == L.id(head) && L.candidate(req.event).Some?
      ensures !P.HasEvent(L.events(head), L.candidate(req.event).value.eventId)
    {
      RealRequests(env, head, req);
    }
  }

  lemma RealRequests(env: Env, head: Commit, req: Request)
    requires Prepares(env, head, req)
    ensures ToLower(req.expectedHead) == env.id(head) && CandidateOf(env, req.event).Some?
    ensures !P.HasEvent(Real(env).events(head), CandidateOf(env, req.event).value.eventId)
  {
    hide Replay, ParseEvent, ApplyGoverned, LoadSchemas, LoadBindings, IsRecordEvent;
    HeadOfReplay(env, head);
    FreshEvent(env, head, ParseCandidate(env, req.event).value.eventId);
  }

  /** Replay and the validators obey every law the protocol's proofs rely on. */
  lemma RealLaws(env: Env)
    requires Lawful(env)
    ensures P.Laws(Real(env))
  {
    hide Replay, Lawful, P.LawfulNames, P.LawfulAdmission, P.ReplayLaw, EntriesAt, Admits, Prepares, Builds,
      Preflights, CandidateOf, DocumentOf;
    RealNames(env);
    RealAdmission(env);
    forall c: Commit | Real(env).replays(c) ensures P.ReplayLaw(Real(env), c) {
      RealReplayLaw(env, c);
    }
  }

  // ------------------------------------------------------ the ledger's promises

  /**
   Every authoritative head any run reaches replays; later heads keep every file
   and every event of earlier ones; no event id and no key occurs twice.
   */
  lemma ReachableHeadsReplay(env: Env, run: seq<P.State>, actions: seq<P.Action>, i: nat, j: nat)
    requires Lawful(env) && P.Execution(Real(env), run, actions) && i <= j < |run|
    ensures Replay(env, run[i].g.ref).Ok? && Replay(env, run[j].g.ref).Ok?
    ensures Events(env, run[i].g.ref) <= Events(env, run[j].g.ref)
    ensures Contained(run[i].g.ref.tree, run[j].g.ref.tree)
    ensures Distinct(Events(env, run[j].g.ref))
  {
    hide Replay, Lawful, P.Laws, P.Execution, Contained, Distinct, Placed;
    RealLaws(env);
    RefOnlyDescends(Real(env), run, actions, i, j);
    assert Replay(env, run[j].g.ref).Ok?;
    ReplayWithin(env, run[i].g.ref, run[j].g.ref);
    TreesOnlyGrow(env, run[i].g.ref, run[j].g.ref);
    ReplayedEventsAreDistinct(env, run[j].g.ref);
  }

  /**
   A success answer for a key is durable: at every later head the ledger's own
   lookup finds that key, at the commit, path, event and digest the answer named.
   */
  lemma SuccessIsRecoverable(env: Env, run: seq<P.State>, actions: seq<P.Action>, i: nat, j: nat, k: nat)
    requires Lawful(env) && P.Execution(Real(env), run, actions) && i <= j < |run|
    requires k in run[i].procs && Succeeded(run[i].procs[k])
    requires P.OutcomeOf(run[i].procs[k]).response.value.key != ""
    ensures var r := P.OutcomeOf(run[i].procs[k]).response.value;
            var found := FindAccepted(env, run[j].g.ref, r.key);
            && found.Ok? && found.value.Some?
            && env.id(found.value.value.commit) == r.acceptedCommit && found.value.value.path == r.path
            && found.value.value.doc.eventId == r.eventId && found.value.value.doc.contentSha == r.contentSha
  {
    hide Replay, Lawful, P.Laws, P.Execution, FindAccepted, Contained, Distinct;
    RealLaws(env);
    ReachableHeadsReplay(env, run, actions, i, j);
    SuccessNamesEntry(Real(env), run, actions, i, j, k);
    var head := run[j].g.ref;
    var r := P.OutcomeOf(run[i].procs[k]).response.value;
    var x :| x in Real(env).events(head) && Names(Real(env), r, x);
    var n :| 0 <= n < |Real(env).events(head)| && Real(env).events(head)[n] == x;
    var e := Events(env, head)[n];
    assert x == EntryOf(e) && e in Events(env, head) && e.doc.idempotencyKey == r.key;
    IndexAgrees(env, head, r.key);
  }
}
