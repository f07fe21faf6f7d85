/**
 The two-phase write protocol as a transition system. Any number of Prepare and
 Accept invocations share the object store, the authoritative ref and the
 candidate quarantine; every step below is one access to shared state. What
 replay and the validators decide is given by a `Semantics`; the laws assumed
 of it are proved of the real ones in ProtocolInstance.
 */
module Protocol {
  import opened Wrappers
  import opened Text
  import opened Git
  import BindingId
  import opened Acceptance

  // -------------------------------------------------------------- semantics

  /** An event document, as far as the protocol reads it. */
  datatype Doc = Doc(eventId: string, key: string, contentSha: string, expectedHead: string, record: bool)

  /** An event of a replayed history. */
  datatype Entry = Entry(commit: Commit, path: string, doc: Doc, bytes: string)

  datatype Semantics = Semantics(
    id: Commit -> string,
    sha256: string -> string,
    replays: Commit -> bool,                                    // Replay succeeds at this head
    events: Commit -> seq<Entry>,                               // its events
    document: string -> Option<Doc>,                            // the event stored as these bytes
    candidate: string -> Option<Doc>,                           // parseCandidateDocument with a key
    prepares: (Commit, Request) -> bool,                        // Prepare's validation at a snapshot
    builds: (Commit, Request) -> Option<Commit>,                // PrepareEventCommit on a head
    preflights: (Commit, Commit, Handle) -> bool,               // preflightCandidateForAcceptance
    admits: (Commit, Commit, Handle, string) -> bool)           // validateCandidateForAcceptance

  /** findAcceptedIdempotencyAt. */
  function Find(events: seq<Entry>, key: string): Option<Entry> {
    if events == [] || key == "" then None
    else if events[0].doc.key == key then Some(events[0])
    else Find(events[1..], key)
  }

  ghost predicate DistinctEntries(events: seq<Entry>) {
    forall i, j | 0 <= i < j < |events| ::
      && events[i].doc.eventId != events[j].doc.eventId
      && (events[i].doc.key != "" ==> events[i].doc.key != events[j].doc.key)
  }

  /** The entry a handle describes. */
  predicate Describes(L: Semantics, h: Handle, e: Entry) {
    e.path == h.path && e.doc.eventId == h.eventId && e.doc.key == h.key && e.doc.contentSha == h.contentSha
  }

  /** `c` replays as `head` followed by the one record event `h` describes, stored as `bytes`. */
  ghost predicate Extends(L: Semantics, head: Commit, c: Commit, h: Handle, bytes: string) {
    && c.parents == [head] && L.replays(c)
    && |L.events(c)| == |L.events(head)| + 1
    && (var e := L.events(c)[|L.events(head)|];
        && L.events(c) == L.events(head) + [e]
        && e.commit == c && e.bytes == bytes && Describes(L, h, e)
        && e.doc.record && e.doc.expectedHead == L.id(head) && h.key != "")
  }

  /** The handle Prepare gives out for a commit it built. */
  function HandleFor(L: Semantics, head: Commit, c: Commit, req: Request, doc: Doc): Handle {
    var unbound := Handle(L.id(head), L.id(c), req.path, doc.eventId, doc.key, doc.contentSha, "",
                          L.sha256(req.event), |req.event|);
    match BindingId.Id(L.sha256, IdentityOf(unbound))
    case Some(name) => unbound.(quarantineId := name)
    case None => unbound
  }

  predicate Bound(L: Semantics, h: Handle) {
    BindingId.Id(L.sha256, IdentityOf(h)) == Some(h.quarantineId)
  }

  predicate SizedHandle(h: Handle) {
    BindingId.Sized(IdentityOf(h))
  }

  ghost predicate LawfulNames(L: Semantics) {
    && (forall a: Commit, b: Commit :: L.id(a) == L.id(b) ==> a == b)
    && (forall a: Commit {:trigger L.id(a)} :: L.id(a) != "" && ToLower(L.id(a)) == L.id(a))
    && (forall a: string, b: string :: L.sha256(a) == L.sha256(b) ==> a == b)
    && (forall x: string {:trigger L.candidate(x)} :: L.candidate(x).Some? ==> Fits(x) && Fits(L.sha256(x)))
  }

  ghost predicate LawfulReplay(L: Semantics) {
    forall c: Commit {:trigger L.replays(c)} :: L.replays(c) ==> ReplayLaw(L, c)
  }

  /** A replayed head: linear, its parent's events extended by its own, no id or key twice. */
  ghost predicate ReplayLaw(L: Semantics, c: Commit) {
    && Linear(c)
    && DistinctEntries(L.events(c))
    && (|c.parents| == 0 ==> L.events(c) == [])
    && (|c.parents| == 1 ==>
          && L.replays(c.parents[0])
          && L.events(c.parents[0]) <= L.events(c)
          && forall i | |L.events(c.parents[0])| <= i < |L.events(c)| :: L.events(c)[i].commit == c)
    && (forall e | e in L.events(c) ::
          && Within(e.commit, c) && L.document(e.bytes) == Some(e.doc)
          && BindingId.Sized(AcceptedIdentity(L, e, e.bytes))
          && (e.doc.record ==> |e.commit.parents| == 1 && e.doc.expectedHead == L.id(e.commit.parents[0])))
  }

  predicate HasEvent(events: seq<Entry>, eventId: string) {
    exists e | e in events :: e.doc.eventId == eventId
  }

  predicate CompleteHandle(h: Handle) {
    h.key != "" && h.eventId != "" && h.contentSha != ""
  }

  /**
   Admission refines replay; preparation is admissible; a preflight wants a complete
   handle, preparation the caller's own head, and both a fresh event id.
   */
  ghost predicate LawfulAdmission(L: Semantics) {
    && (forall head, c, h, bytes {:trigger L.admits(head, c, h, bytes)} ::
          L.admits(head, c, h, bytes) && L.replays(head) && Find(L.events(head), h.key).None?
          ==> Extends(L, head, c, h, bytes) && Bound(L, h))
    && (forall head, req {:trigger L.builds(head, req)} ::
          L.builds(head, req).Some? && L.prepares(head, req) && L.candidate(req.event).Some? ==>
          var c, doc := L.builds(head, req).value, L.candidate(req.event).value;
          var h := HandleFor(L, head, c, req, doc);
          doc.key != "" && SizedHandle(h) && Bound(L, h) && L.preflights(head, c, h) && L.admits(head, c, h, req.event))
    && (forall head, c, h {:trigger L.preflights(head, c, h)} ::
          L.preflights(head, c, h) ==> CompleteHandle(h) && !HasEvent(L.events(head), h.eventId))
    && (forall head, req {:trigger L.prepares(head, req)} ::
          L.prepares(head, req) ==>
          && ToLower(req.expectedHead) == L.id(head) && L.candidate(req.event).Some?
          && !HasEvent(L.events(head), L.candidate(req.event).value.eventId))
  }

  ghost predicate Laws(L: Semantics) {
    LawfulNames(L) && LawfulReplay(L) && LawfulAdmission(L)
  }

  // ------------------------------------------------------------------ states

  datatype Status = Accepted | AlreadyAccepted | AcceptedVerificationFailed | AcceptanceUnknown

  datatype Response = Response(
    status: Status, eventId: string, key: string, contentSha: string, path: string,
    acceptedCommit: string, ledgerCommit: string)

  datatype Error =
    | NoError | StaleState | IdempotencyConflict | EventIdConflict | CandidateInvalid
    | RecoveryRequired | VerificationFailed | CleanupFailed | OtherFailure

  /** What an invocation returns: Prepare's handle, the response, the error. */
  datatype Outcome = Outcome(handle: Option<Handle>, response: Option<Response>, err: Error)

  function Fail(err: Error): Outcome {
    Outcome(None, None, err)
  }

  function Respond(r: Response, err: Error): Outcome {
    Outcome(None, Some(r), err)
  }

  function FromEntry(L: Semantics, status: Status, ledger: Commit, e: Entry): Response {
    Response(status, e.doc.eventId, e.doc.key, e.doc.contentSha, e.path, L.id(e.commit), L.id(ledger))
  }

  function FromHandle(status: Status, h: Handle, acceptedKnown: bool, ledgerCommit: string): Response {
    Response(status, h.eventId, h.key, h.contentSha, h.path, if acceptedKnown then h.commit else "", ledgerCommit)
  }

  /** A candidate about to be published: history variable and local state of Prepare. */
  datatype Prepared = Prepared(head: Commit, commit: Commit, handle: Handle, bytes: string)

  datatype Shared = Shared(
    objects: set<Commit>, ref: Commit, quarantine: map<string, string>, prepared: set<Prepared>)

  datatype AcceptPc =
    | AStart
    | ACleanAccepted(resp: Response, name: Option<string>)
    | APreflight(h0: Commit)
    | ARead(h0: Commit, c: Commit)
    | AValidate(h0: Commit, c: Commit, bytes: string)
    | ACasCheck(h0: Commit, c: Commit)
    | AUpdate(h0: Commit, c: Commit)
    | ARecoverSuccess(h0: Commit, c: Commit)
    | ARecoverError(h0: Commit, c: Commit)
    | ASettle(h0: Commit, c: Commit)
    | ARecoveredAcceptance(h0: Commit, c: Commit)
    | AStale(h0: Commit, c: Commit)
    | AVerify(h0: Commit, c: Commit)
    | ARemove(h0: Commit, resp: Response)
    | ASnapshotFailed(err: Error)
    | ADone(outcome: Outcome)

  datatype PreparePc =
    | PStart
    | PCleanAccepted(resp: Response, name: Option<string>)
    | PStage(h0: Commit, doc: Doc)
    | PReadStage(h0: Commit, doc: Doc, stage: string)
    | PBuild(h0: Commit, doc: Doc, stage: string)
    | PBuildStale(h0: Commit, doc: Doc, stage: string)
    | PUnstage(outcome: Outcome, stage: string)
    | PBind(p: Prepared, stage: string)
    | PReadBound(p: Prepared, stage: string)
    | PBoundFailed(p: Prepared, stage: string)
    | PRemoveStage(p: Prepared, stage: string)
    | PReconcile(p: Prepared)
    | PMoved(p: Prepared)
    | PRemoveBound(p: Prepared, outcome: Outcome, headRead: bool)
    | PDone(outcome: Outcome)

  /** `moved` records the commit this invocation's update-ref made authoritative, if any. */
  datatype Proc =
    | Accept(h: Handle, apc: AcceptPc, moved: Option<Commit>)
    | Prepare(req: Request, ppc: PreparePc)
    | Crashed

  datatype State = State(g: Shared, procs: map<nat, Proc>)

  // ---------------------------------------------------------------- recovery

  datatype Lookup = Absent | Conflict | Match(e: Entry)

  /** The durable identity rule shared by every recovery path. */
  function Recover(L: Semantics, head: Commit, key: string, eventId: string, contentSha: string): Lookup {
    match Find(L.events(head), key)
    case None => Absent
    case Some(e) => if e.doc.contentSha != contentSha || e.doc.eventId != eventId then Conflict else Match(e)
  }

  /** recoverAfterSnapshotFailure, for the identity fields of a handle. */
  predicate SnapshotRecovery(L: Semantics, faults: bool, g: Shared, h: Handle, err: Error, out: Outcome) {
    || (h.key == "" && out == Fail(err))
    || (h.key != "" && (faults || !L.replays(g.ref)) &&
        out == Respond(FromHandle(AcceptanceUnknown, h, false, ""), RecoveryRequired))
    || (h.key != "" && L.replays(g.ref) &&
        match Recover(L, g.ref, h.key, h.eventId, h.contentSha)
        case Absent => out == Fail(err)
        case Conflict => out == Fail(IdempotencyConflict)
        case Match(e) => out == Respond(FromEntry(L, AlreadyAccepted, g.ref, e), NoError))
  }

  /** Remove one name; a missing file is success, a filesystem failure is reported. */
  predicate Removes(faults: bool, g: Shared, g': Shared, name: string, failed: bool) {
    || (!failed && g' == g.(quarantine := g.quarantine - {name}))
    || (faults && failed && g' == g)
  }

  // ------------------------------------------------------------------ accept

  ghost predicate PreflightPasses(L: Semantics, g: Shared, h: Handle, h0: Commit, c: Commit) {
    c in g.objects && L.id(c) == ToLower(h.commit) && L.preflights(h0, c, h) && Bound(L, h)
  }

  /** q.Read(candidate.Quarantine). */
  predicate ReadPasses(L: Semantics, g: Shared, h: Handle) {
    && h.quarantineId in g.quarantine
    && L.sha256(g.quarantine[h.quarantineId]) == h.quarantineSha
    && |g.quarantine[h.quarantineId]| == h.quarantineSize
  }

  /** The name derived from an accepted event and the raw bytes at hand. */
  function AcceptedName(L: Semantics, e: Entry, raw: string): Option<string> {
    BindingId.Id(L.sha256, AcceptedIdentity(L, e, raw))
  }

  function AcceptedIdentity(L: Semantics, e: Entry, raw: string): BindingId.Identity {
    BindingId.Identity(e.doc.expectedHead, L.id(e.commit), e.path, e.doc.eventId, e.doc.key, e.doc.contentSha,
                       L.sha256(raw), |raw|)
  }

  /** The snapshot: replay, key lookup, expected head. */
  predicate AcceptSnapshot(L: Semantics, faults: bool, g: Shared, h: Handle, pc': AcceptPc) {
    || ((faults || !L.replays(g.ref)) && pc' == ADone(Fail(OtherFailure)))
    || (L.replays(g.ref) &&
        match Recover(L, g.ref, h.key, h.eventId, h.contentSha)
        case Conflict => pc' == ADone(Fail(IdempotencyConflict))
        case Match(e) =>
          var resp := FromEntry(L, AlreadyAccepted, g.ref, e);
          pc' == ACleanAccepted(resp, AcceptedName(L, e, e.bytes)) || (faults && pc' == ADone(Respond(resp, CleanupFailed)))
        case Absent =>
          if L.id(g.ref) != ToLower(h.expectedHead) then pc' == ADone(Fail(StaleState)) else pc' == APreflight(g.ref))
  }

  predicate SnapshotError(err: Error) {
    err == EventIdConflict || err == CandidateInvalid || err == OtherFailure
  }

  /** What a failed preflight reports: a complete handle's event id is looked up first. */
  predicate PreflightFailure(L: Semantics, h0: Commit, h: Handle, err: Error) {
    if CompleteHandle(h) && HasEvent(L.events(h0), h.eventId) then err == EventIdConflict
    else err == CandidateInvalid || err == OtherFailure
  }

  /** The steps up to CompareAndSwap: none of them writes. */
  ghost predicate AcceptChecks(L: Semantics, faults: bool, g: Shared, h: Handle, pc: AcceptPc, pc': AcceptPc) {
    match pc
    case AStart => AcceptSnapshot(L, faults, g, h, pc')
    case APreflight(h0) =>
      || (pc'.ARead? && pc'.h0 == h0 && PreflightPasses(L, g, h, h0, pc'.c))
      || (pc'.ASnapshotFailed? && PreflightFailure(L, h0, h, pc'.err) &&
          (faults || !exists c :: PreflightPasses(L, g, h, h0, c)))
    case ARead(h0, c) =>
      || (ReadPasses(L, g, h) && pc' == AValidate(h0, c, g.quarantine[h.quarantineId]))
      || (pc' == ASnapshotFailed(CandidateInvalid) && (faults || !ReadPasses(L, g, h)))
    case AValidate(h0, c, bytes) =>
      || (L.admits(h0, c, h, bytes) && pc' == ACasCheck(h0, c))
      || ((pc' == ASnapshotFailed(CandidateInvalid) || pc' == ASnapshotFailed(OtherFailure)) &&
          (faults || !L.admits(h0, c, h, bytes)))
    case ASnapshotFailed(err) => pc'.ADone? && SnapshotRecovery(L, faults, g, h, err, pc'.outcome)
    case _ => false
  }

  /** CompareAndSwap: pre-check, update-ref, and the classification of what happened. */
  predicate CompareAndSwap(L: Semantics, faults: bool, g: Shared, h: Handle, pc: AcceptPc, pc': AcceptPc) {
    match pc
    case ACasCheck(h0, c) =>
      || (faults && pc' == ADone(Fail(OtherFailure)))
      || pc' == (if g.ref == h0 then AUpdate(h0, c) else AStale(h0, c))
    case ARecoverSuccess(h0, c) =>
      || (faults && pc' == ADone(Respond(FromHandle(AcceptedVerificationFailed, h, true, ""), VerificationFailed)))
      || pc' == (if Within(c, g.ref) then AVerify(h0, c)
                 else ADone(Respond(FromHandle(AcceptedVerificationFailed, h, true, ""), VerificationFailed)))
    case ARecoverError(h0, c) =>
      || (faults && pc' == UnknownOutcome(h))
      || pc' == (if Within(c, g.ref) then ARecoveredAcceptance(h0, c)
                 else if g.ref == h0 then ASettle(h0, c) else AStale(h0, c))
    case ASettle(h0, c) =>
      || (faults && pc' == UnknownOutcome(h))
      || (if Within(c, g.ref) then pc' == ARecoveredAcceptance(h0, c)
          else if g.ref != h0 then pc' == AStale(h0, c)
          else pc' == pc || pc' == UnknownOutcome(h))
    case _ => false
  }

  /** POST_CAS_RECOVERY_REQUIRED. */
  function UnknownOutcome(h: Handle): AcceptPc {
    ADone(Respond(FromHandle(AcceptanceUnknown, h, false, ""), RecoveryRequired))
  }

  function NamedFailure(h: Handle, ledgerCommit: string): AcceptPc {
    ADone(Respond(FromHandle(AcceptedVerificationFailed, h, true, ledgerCommit), VerificationFailed))
  }

  /** After the swap: replay the current head and answer from durable history. */
  predicate AcceptRecovers(L: Semantics, faults: bool, g: Shared, h: Handle, pc: AcceptPc, pc': AcceptPc) {
    match pc
    case ARecoveredAcceptance(h0, c) =>
      || ((faults || !L.replays(g.ref)) && pc' == NamedFailure(h, ""))
      || (L.replays(g.ref) &&
          match Recover(L, g.ref, h.key, h.eventId, h.contentSha)
          case Match(e) => pc' == ARemove(h0, FromEntry(L, AlreadyAccepted, g.ref, e))
          case _ => pc' == NamedFailure(h, ""))
    case AStale(h0, c) =>
      || ((faults || !L.replays(g.ref)) && pc' == ADone(Fail(OtherFailure)))
      || (L.replays(g.ref) &&
          match Recover(L, g.ref, h.key, h.eventId, h.contentSha)
          case Absent => pc' == ADone(Fail(StaleState))
          case Conflict => pc' == ADone(Fail(IdempotencyConflict))
          case Match(e) => pc' == ARemove(h0, FromEntry(L, AlreadyAccepted, g.ref, e)))
    case AVerify(h0, c) =>
      || ((faults || !L.replays(g.ref)) && (pc' == NamedFailure(h, h.commit) || pc' == NamedFailure(h, L.id(g.ref))))
      || (L.replays(g.ref) &&
          match Find(L.events(g.ref), h.key)
          case None => pc' == NamedFailure(h, L.id(g.ref))
          case Some(e) =>
            if L.id(e.commit) != h.commit || e.doc.contentSha != h.contentSha || e.doc.eventId != h.eventId
            then pc' == NamedFailure(h, L.id(g.ref))
            else pc' == ARemove(h0, FromEntry(L, Accepted, g.ref, e)))
    case _ => false
  }

  /** Quarantine clean-up after the answer is known. */
  predicate AcceptCleans(faults: bool, g: Shared, g': Shared, h: Handle, pc: AcceptPc, pc': AcceptPc) {
    match pc
    case ACleanAccepted(resp, None) => g' == g && pc' == ADone(Respond(resp, CleanupFailed))
    case ACleanAccepted(resp, Some(name)) =>
      || (pc' == ADone(Respond(resp, NoError)) && Removes(faults, g, g', name, false))
      || (pc' == ADone(Respond(resp, CleanupFailed)) && Removes(faults, g, g', name, true))
    case ARemove(_, resp) =>
      || (pc' == ADone(Respond(resp, NoError)) && Removes(faults, g, g', h.quarantineId, false))
      || (pc' == ADone(Respond(resp, CleanupFailed)) && Removes(faults, g, g', h.quarantineId, true))
    case _ => false
  }

  /**
   update-ref with an exact old value: it takes effect or not, and a report of
   success means it did; an error report says nothing either way.
   */
  predicate UpdateRef(g: Shared, g': Shared, p: Proc, p': Proc) {
    && p.Accept? && p.apc.AUpdate? && p'.Accept? && p'.h == p.h
    && (var h0, c := p.apc.h0, p.apc.c;
        || (g.ref == h0 && g' == g.(ref := c) && p'.moved == Some(c) &&
            (p'.apc == ARecoverSuccess(h0, c) || p'.apc == ARecoverError(h0, c)))
        || (g' == g && p'.moved == p.moved && p'.apc == ARecoverError(h0, c)))
  }

  ghost predicate AcceptStep(L: Semantics, faults: bool, g: Shared, g': Shared, p: Proc, p': Proc)
    requires p.Accept?
  {
    || UpdateRef(g, g', p, p')
    || (p'.Accept? && p'.h == p.h && p'.moved == p.moved &&
        (|| (g' == g && AcceptChecks(L, faults, g, p.h, p.apc, p'.apc))
         || (g' == g && CompareAndSwap(L, faults, g, p.h, p.apc, p'.apc))
         || (g' == g && AcceptRecovers(L, faults, g, p.h, p.apc, p'.apc))
         || AcceptCleans(faults, g, g', p.h, p.apc, p'.apc)))
  }

  // ----------------------------------------------------------------- prepare

  function IdentityHandle(L: Semantics, h0: Commit, req: Request, doc: Doc): Handle {
    Handle(L.id(h0), "", req.path, doc.eventId, doc.key, doc.contentSha, "", "", 0)
  }

  predicate IsStage(name: string) {
    HasPrefix(name, BindingId.STAGE_PREFIX)
  }

  predicate PrepareSnapshot(L: Semantics, faults: bool, g: Shared, req: Request, pc': PreparePc) {
    || (faults && pc' == PDone(Fail(OtherFailure)))
    || ((!L.replays(g.ref) || L.candidate(req.event).None?) &&
        (pc' == PDone(Fail(OtherFailure)) || pc' == PDone(Fail(CandidateInvalid))))
    || (L.replays(g.ref) && L.candidate(req.event).Some? &&
        var doc := L.candidate(req.event).value;
        match Recover(L, g.ref, doc.key, doc.eventId, doc.contentSha)
        case Conflict => pc' == PDone(Fail(IdempotencyConflict))
        case Match(e) =>
          pc' == PCleanAccepted(FromEntry(L, AlreadyAccepted, g.ref, e), AcceptedName(L, e, req.event))
        case Absent =>
          if L.prepares(g.ref, req) then pc' == PStage(g.ref, doc)
          else pc'.PDone? && pc'.outcome == Fail(pc'.outcome.err) && PrepareRefusal(L, g.ref, req, doc, pc'.outcome.err))
  }

  /** What a refused request reports: a known event id first, then the wrong head. */
  predicate PrepareRefusal(L: Semantics, head: Commit, req: Request, doc: Doc, err: Error) {
    if HasEvent(L.events(head), doc.eventId) then err == EventIdConflict
    else if ToLower(req.expectedHead) != L.id(head) then err == StaleState
    else err == CandidateInvalid || err == OtherFailure
  }

  /** Prepare's steps; `g'` is the shared state after. */
  ghost predicate PrepareStages(L: Semantics, faults: bool, g: Shared, g': Shared, req: Request, pc: PreparePc, pc': PreparePc) {
    match pc
    case PStart => g' == g && PrepareSnapshot(L, faults, g, req, pc')
    case PCleanAccepted(resp, None) => g' == g && pc' == PDone(Respond(resp, CleanupFailed))
    case PCleanAccepted(resp, Some(name)) =>
      || (pc' == PDone(Respond(resp, NoError)) && Removes(faults, g, g', name, false))
      || (pc' == PDone(Respond(resp, CleanupFailed)) && Removes(faults, g, g', name, true))
    case PStage(h0, doc) =>
      || (pc'.PReadStage? && pc' == PReadStage(h0, doc, pc'.stage) && IsStage(pc'.stage) &&
          pc'.stage !in g.quarantine && g' == g.(quarantine := g.quarantine[pc'.stage := req.event]))
      || (faults && pc' == PDone(Fail(CandidateInvalid)) && StrayStage(g, g', req.event))
    case PReadStage(h0, doc, stage) =>
      && g' == g
      && (|| (stage in g.quarantine && g.quarantine[stage] == req.event && pc' == PBuild(h0, doc, stage))
          || (pc' == PDone(Fail(CandidateInvalid)) &&
              (faults || stage !in g.quarantine || g.quarantine[stage] != req.event)))
    case PBuild(h0, doc, stage) => PrepareBuild(L, faults, g, g', req, h0, doc, stage, pc')
    case PBuildStale(h0, doc, stage) =>
      g' == g && pc'.PUnstage? && pc'.stage == stage &&
      SnapshotRecovery(L, faults, g, IdentityHandle(L, h0, req, doc), StaleState, pc'.outcome)
    case PUnstage(out, stage) =>
      || (pc' == PDone(out) && Removes(faults, g, g', stage, false))
      || (pc' == PDone(out.(err := CleanupFailed)) && Removes(faults, g, g', stage, true))
    case _ => false
  }

  /** A failed Ensure may leave the staging file behind. */
  ghost predicate StrayStage(g: Shared, g': Shared, event: string) {
    || g' == g
    || exists s :: IsStage(s) && s !in g.quarantine && g' == g.(quarantine := g.quarantine[s := event])
  }

  /** PrepareEventCommit re-reads the head before it writes objects. */
  predicate PrepareBuild(
    L: Semantics, faults: bool, g: Shared, g': Shared, req: Request, h0: Commit, doc: Doc, stage: string, pc': PreparePc)
  {
    || (faults && pc' == PDone(Fail(OtherFailure)) && g' == g.(objects := g'.objects) && g.objects <= g'.objects)
    || (g.ref != h0 && g' == g && pc' == PBuildStale(h0, doc, stage))
    || (g.ref == h0 && L.builds(h0, req).None? && g' == g && pc' == PDone(Fail(OtherFailure)))
    || (g.ref == h0 && L.builds(h0, req).Some? &&
        var c := L.builds(h0, req).value;
        && g' == g.(objects := g.objects + {c})
        && pc' == PBind(Prepared(h0, c, HandleFor(L, h0, c, req, doc), req.event), stage))
  }

  /** Publication under the bound name, and the final look at the head. */
  predicate PreparePublishes(L: Semantics, faults: bool, g: Shared, g': Shared, pc: PreparePc, pc': PreparePc) {
    match pc
    case PBind(p, stage) =>
      var name := p.handle.quarantineId;
      var held := name in g.quarantine && g.quarantine[name] != p.bytes;
      var published := g.(quarantine := g.quarantine[name := p.bytes], prepared := g.prepared + {p});
      || (!held && g' == published && pc' == PReadBound(p, stage))
      || (held && g' == g && pc' == PBoundFailed(p, stage))
      || (faults && (g' == g || (!held && g' == published)) && pc' == PBoundFailed(p, stage))
    case PReadBound(p, stage) =>
      var name := p.handle.quarantineId;
      var good := name in g.quarantine && g.quarantine[name] == p.bytes;
      && g' == g
      && ((good && pc' == PRemoveStage(p, stage)) || ((faults || !good) && pc' == PBoundFailed(p, stage)))
    case PBoundFailed(p, stage) =>
      g' == g && pc'.PUnstage? && pc'.stage == stage &&
      SnapshotRecovery(L, faults, g, p.handle, CandidateInvalid, pc'.outcome)
    case PRemoveStage(p, stage) =>
      || (Removes(faults, g, g', stage, false) && pc' == PReconcile(p))
      || (Removes(faults, g, g', stage, true) && pc' == PDone(Fail(CandidateInvalid)))
    case PReconcile(p) =>
      && g' == g
      && (|| (faults && pc' ==
                PRemoveBound(p, Respond(FromHandle(AcceptanceUnknown, p.handle, false, ""), RecoveryRequired), false))
          || (g.ref == p.head && pc' == PDone(Outcome(Some(p.handle), None, NoError)))
          || (g.ref != p.head && pc' == PMoved(p)))
    case PMoved(p) =>
      g' == g && pc'.PRemoveBound? && pc'.p == p && pc'.headRead && PrepareReconciles(L, faults, g, p, pc'.outcome)
    case PRemoveBound(p, out, _) =>
      || (pc' == PDone(out) && Removes(faults, g, g', p.handle.quarantineId, false))
      || (pc' == PDone(out.(err := CleanupFailed)) && Removes(faults, g, g', p.handle.quarantineId, true))
    case _ => false
  }

  predicate PrepareReconciles(L: Semantics, faults: bool, g: Shared, p: Prepared, out: Outcome) {
    || ((faults || !L.replays(g.ref)) && out.response.Some? && out.handle.None? && out.err == RecoveryRequired &&
        out.response.value == FromHandle(AcceptanceUnknown, p.handle, false, out.response.value.ledgerCommit))
    || (L.replays(g.ref) &&
        match Recover(L, g.ref, p.handle.key, p.handle.eventId, p.handle.contentSha)
        case Absent => out == Fail(StaleState)
        case Conflict => out == Fail(IdempotencyConflict)
        case Match(e) => out == Respond(FromEntry(L, AlreadyAccepted, g.ref, e), NoError))
  }

  ghost predicate PrepareStep(L: Semantics, faults: bool, g: Shared, g': Shared, p: Proc, p': Proc)
    requires p.Prepare?
  {
    && p'.Prepare? && p'.req == p.req
    && (|| PrepareStages(L, faults, g, g', p.req, p.ppc, p'.ppc)
        || PreparePublishes(L, faults, g, g', p.ppc, p'.ppc))
  }

  // -------------------------------------------------------------- the system

  ghost predicate ProcStep(L: Semantics, faults: bool, g: Shared, g': Shared, p: Proc, p': Proc) {
    match p
    case Accept(_, _, _) => AcceptStep(L, faults, g, g', p, p')
    case Prepare(_, _) => PrepareStep(L, faults, g, g', p, p')
    case Crashed => false
  }

  /** A new invocation; its strings are ones a program can hold. */
  predicate Starts(p: Proc) {
    match p
    case Accept(h, pc, moved) => pc == AStart && moved == None && SizedHandle(h)
    case Prepare(_, pc) => pc == PStart
    case Crashed => false
  }

  /** Another writer publishes a valid exact child by the same exact-old-value update. */
  predicate ForeignPublish(L: Semantics, g: Shared, g': Shared) {
    g'.ref in g.objects && g'.ref.parents == [g.ref] && L.replays(g'.ref) && g' == g.(ref := g'.ref)
  }

  /** Anybody may add unreachable objects; expiry may remove any quarantined file. */
  predicate Ambient(g: Shared, g': Shared) {
    || (g.objects <= g'.objects && g' == g.(objects := g'.objects))
    || (g'.quarantine == g.quarantine - (g.quarantine.Keys - g'.quarantine.Keys) && g' == g.(quarantine := g'.quarantine))
  }

  datatype Action =
    | Run(i: nat)
    | Start(i: nat)
    | Crash(i: nat)
    | Foreign
    | Environment

  /** An invocation that has returned. */
  predicate Finished(p: Proc) {
    (p.Accept? && p.apc.ADone?) || (p.Prepare? && p.ppc.PDone?)
  }

  function OutcomeOf(p: Proc): Outcome
    requires Finished(p)
  {
    if p.Accept? then p.apc.outcome else p.ppc.outcome
  }

  /** One step of the system; a crash may hit any invocation between any two of its steps. */
  ghost predicate Step(L: Semantics, faults: bool, s: State, s': State, a: Action) {
    match a
    case Run(i) =>
      && i in s.procs && i in s'.procs && s'.procs == s.procs[i := s'.procs[i]]
      && ProcStep(L, faults, s.g, s'.g, s.procs[i], s'.procs[i])
    case Start(i) =>
      i !in s.procs && i in s'.procs && s'.procs == s.procs[i := s'.procs[i]] && s'.g == s.g && Starts(s'.procs[i])
    case Crash(i) => i in s.procs && !Finished(s.procs[i]) && s' == State(s.g, s.procs[i := Crashed])
    case Foreign => s'.procs == s.procs && ForeignPublish(L, s.g, s'.g)
    case Environment => s'.procs == s.procs && Ambient(s.g, s'.g)
  }

  /** A ledger that replays, and nothing in flight. */
  predicate Init(L: Semantics, s: State) {
    L.replays(s.g.ref) && s.g.quarantine == map[] && s.g.prepared == {} && s.procs == map[]
  }

  /** A run: states joined by steps. */
  ghost predicate Execution(L: Semantics, run: seq<State>, actions: seq<Action>) {
    && |run| == |actions| + 1
    && Init(L, run[0])
    && forall i | 0 <= i < |actions| :: Step(L, true, run[i], run[i + 1], actions[i])
  }
}
