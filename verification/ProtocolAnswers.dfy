/**
 What an answer says, in every run: which error goes with which status, that the
 answer is about what was asked, where its event can be found, and that a refusal
 states a fact of the history.
 */
module ProtocolAnswers {
  import opened Wrappers
  import opened Text
  import opened Git
  import opened Acceptance
  import opened Protocol
  import opened ProtocolInv
  import opened ProtocolSteps
  import opened ProtocolTheorems
  import BindingId

  /** What an invocation was asked about. */
  datatype Asked = Asked(key: string, eventId: string, contentSha: string, path: string, expectedHead: string)

  function AskedBy(h: Handle): Asked {
    Asked(h.key, h.eventId, h.contentSha, h.path, h.expectedHead)
  }

  function AskedIn(L: Semantics, req: Request): Asked {
    match L.candidate(req.event)
    case None => Asked("", "", "", req.path, req.expectedHead)
    case Some(doc) => Asked(doc.key, doc.eventId, doc.contentSha, req.path, req.expectedHead)
  }

  predicate About(r: Response, a: Asked) {
    r.key == a.key && r.eventId == a.eventId && r.contentSha == a.contentSha
  }

  /** The ledger commit of the answer is a head, now below the ref, whose history has the named event. */
  ghost predicate Located(L: Semantics, ref: Commit, r: Response) {
    exists head, e :: Within(head, ref) && L.id(head) == r.ledgerCommit && e in L.events(head) && Names(L, r, e)
  }

  ghost predicate Said(L: Semantics, ref: Commit, a: Asked, r: Response) {
    (r.status == Accepted || r.status == AlreadyAccepted) && About(r, a) && Located(L, ref, r)
  }

  // ----------------------------------------------------------------- refusals

  /** Another event has the key. */
  ghost predicate KeyElsewhere(L: Semantics, ref: Commit, a: Asked) {
    exists e :: e in L.events(ref) && e.doc.key == a.key && (e.doc.eventId != a.eventId || e.doc.contentSha != a.contentSha)
  }

  /** At some head below the ref the key was free and the expected head was not the head. */
  ghost predicate Outdated(L: Semantics, ref: Commit, a: Asked) {
    exists head :: Within(head, ref) && Find(L.events(head), a.key).None? && L.id(head) != ToLower(a.expectedHead)
  }

  ghost predicate TrueRefusal(L: Semantics, ref: Commit, a: Asked, err: Error) {
    && (err == IdempotencyConflict ==> KeyElsewhere(L, ref, a))
    && (err == EventIdConflict ==> HasEvent(L.events(ref), a.eventId))
    && (err == StaleState ==> Outdated(L, ref, a))
  }

  predicate OrdinaryFailure(err: Error) {
    err == StaleState || err == IdempotencyConflict || err == EventIdConflict || err == CandidateInvalid || err == OtherFailure
  }

  // ------------------------------------------------------------------ answers

  /** What Accept returns. */
  ghost predicate AcceptTold(L: Semantics, ref: Commit, a: Asked, out: Outcome) {
    match out.response
    case None => OrdinaryFailure(out.err) && TrueRefusal(L, ref, a, out.err)
    case Some(r) =>
      && About(r, a)
      && (r.status == AcceptanceUnknown ==> out.err == RecoveryRequired && r.path == a.path && r.ledgerCommit == "")
      && (r.status == AcceptedVerificationFailed ==> out.err == VerificationFailed && r.path == a.path)
      && (r.status == Accepted || r.status == AlreadyAccepted ==>
            Located(L, ref, r) && (out.err == NoError || out.err == CleanupFailed))
  }

  /** The handle is for this request. */
  predicate ForRequest(L: Semantics, req: Request, h: Handle) {
    && L.candidate(req.event).Some?
    && (var doc := L.candidate(req.event).value;
        h.key == doc.key && h.eventId == doc.eventId && h.contentSha == doc.contentSha)
    && h.path == req.path && h.expectedHead == ToLower(req.expectedHead)
    && h.quarantineSha == L.sha256(req.event) && h.quarantineSize == |req.event|
  }

  /** What Prepare returns: a handle, a response or a failure. */
  ghost predicate PrepareTold(L: Semantics, ref: Commit, req: Request, out: Outcome) {
    match out.handle
    case Some(h) => out.response.None? && out.err == NoError && ForRequest(L, req, h)
    case None =>
      match out.response
      case None => (OrdinaryFailure(out.err) || out.err == CleanupFailed) && TrueRefusal(L, ref, AskedIn(L, req), out.err)
      case Some(r) =>
        && About(r, AskedIn(L, req))
        && (if r.status == AcceptanceUnknown then r.path == req.path && (out.err == RecoveryRequired || out.err == CleanupFailed)
            else
              r.status == AlreadyAccepted && Located(L, ref, r) && (out.err == NoError || out.err == CleanupFailed))
  }

  // ---------------------------------------------------------------- invariant

  ghost predicate AcceptTells(L: Semantics, ref: Commit, h: Handle, pc: AcceptPc) {
    match pc
    case ACleanAccepted(resp, _) => Said(L, ref, AskedBy(h), resp)
    case ARemove(_, resp) => Said(L, ref, AskedBy(h), resp)
    case ASnapshotFailed(err) => TrueRefusal(L, ref, AskedBy(h), err)
    case ADone(out) => AcceptTold(L, ref, AskedBy(h), out)
    case _ => true
  }

  ghost predicate PrepareTells(L: Semantics, ref: Commit, req: Request, pc: PreparePc) {
    match pc
    case PCleanAccepted(resp, _) => Said(L, ref, AskedIn(L, req), resp)
    case PBuildStale(h0, doc, _) =>
      L.candidate(req.event) == Some(doc) && Passed(h0, ref) && L.id(h0) == ToLower(req.expectedHead)
    case PUnstage(out, _) => out.handle.None? && PrepareTold(L, ref, req, out)
    case PBind(p, _) => ForRequest(L, req, p.handle)
    case PReadBound(p, _) => ForRequest(L, req, p.handle)
    case PBoundFailed(p, _) => ForRequest(L, req, p.handle)
    case PRemoveStage(p, _) => ForRequest(L, req, p.handle)
    case PReconcile(p) => ForRequest(L, req, p.handle)
    case PMoved(p) => ForRequest(L, req, p.handle)
    case PRemoveBound(p, out, _) => out.handle.None? && ForRequest(L, req, p.handle) && PrepareTold(L, ref, req, out)
    case PDone(out) => PrepareTold(L, ref, req, out)
    case _ => true
  }

  ghost predicate Tells(L: Semantics, ref: Commit, p: Proc) {
    match p
    case Accept(h, pc, _) => AcceptTells(L, ref, h, pc)
    case Prepare(req, pc) => PrepareTells(L, ref, req, pc)
    case Crashed => true
  }

  // ---------------------------------------------------------------- stability

  lemma LocatedGrows(L: Semantics, a: Commit, b: Commit, r: Response)
    requires Within(a, b) && Located(L, a, r)
    ensures Located(L, b, r)
  {
    hide Within;
    var head, e :| Within(head, a) && L.id(head) == r.ledgerCommit && e in L.events(head) && Names(L, r, e);
    WithinTransitive(head, a, b);
  }

  lemma RefusalGrows(L: Semantics, a: Commit, b: Commit, asked: Asked, err: Error)
    requires LawfulReplay(L) && L.replays(b) && Within(a, b) && TrueRefusal(L, a, asked, err)
    ensures TrueRefusal(L, b, asked, err)
  {
    hide LawfulReplay, Within, Find;
    EventsGrow(L, a, b);
    if err == IdempotencyConflict {
      var e :| e in L.events(a) && e.doc.key == asked.key &&
               (e.doc.eventId != asked.eventId || e.doc.contentSha != asked.contentSha);
      assert e in L.events(b);
    }
    if err == EventIdConflict {
      var e :| e in L.events(a) && e.doc.eventId == asked.eventId;
      assert e in L.events(b);
    }
    if err == StaleState {
      var head :| Within(head, a) && Find(L.events(head), asked.key).None? && L.id(head) != ToLower(asked.expectedHead);
      WithinTransitive(head, a, b);
    }
  }

  lemma AcceptToldGrows(L: Semantics, a: Commit, b: Commit, asked: Asked, out: Outcome)
    requires LawfulReplay(L) && L.replays(b) && Within(a, b) && AcceptTold(L, a, asked, out)
    ensures AcceptTold(L, b, asked, out)
  {
    hide LawfulReplay, Within, TrueRefusal, Located;
    match out.response
    case None => RefusalGrows(L, a, b, asked, out.err);
    case Some(r) =>
      if Located(L, a, r) {
        LocatedGrows(L, a, b, r);
      }
  }

  lemma PrepareToldGrows(L: Semantics, a: Commit, b: Commit, req: Request, out: Outcome)
    requires LawfulReplay(L) && L.replays(b) && Within(a, b) && PrepareTold(L, a, req, out)
    ensures PrepareTold(L, b, req, out)
  {
    hide LawfulReplay, Within, TrueRefusal, Located, AskedIn;
    if out.handle.None? {
      match out.response
      case None => RefusalGrows(L, a, b, AskedIn(L, req), out.err);
      case Some(r) =>
        if Located(L, a, r) {
          LocatedGrows(L, a, b, r);
        }
    }
  }

  lemma TellsGrows(L: Semantics, a: Commit, b: Commit, p: Proc)
    requires LawfulReplay(L) && L.replays(b) && Within(a, b) && Tells(L, a, p)
    ensures Tells(L, b, p)
  {
    hide LawfulReplay, Within, TrueRefusal, Located, AskedIn, AcceptTold, PrepareTold, ForRequest, Passed;
    match p
    case Accept(h, pc, _) =>
      match pc {
        case ACleanAccepted(resp, _) => LocatedGrows(L, a, b, resp);
        case ARemove(_, resp) => LocatedGrows(L, a, b, resp);
        case ASnapshotFailed(err) => RefusalGrows(L, a, b, AskedBy(h), err);
        case ADone(out) => AcceptToldGrows(L, a, b, AskedBy(h), out);
        case _ =>
      }
    case Prepare(req, pc) =>
      match pc {
        case PCleanAccepted(resp, _) => LocatedGrows(L, a, b, resp);
        case PBuildStale(h0, _, _) => PassedGrows(L, h0, a, b);
        case PUnstage(out, _) => PrepareToldGrows(L, a, b, req, out);
        case PRemoveBound(_, out, _) => PrepareToldGrows(L, a, b, req, out);
        case PDone(out) => PrepareToldGrows(L, a, b, req, out);
        case _ =>
      }
    case Crashed =>
  }

  // -------------------------------------------------------------------- steps

  /** A lookup at the current head, as an answer. */
  lemma LookupTells(L: Semantics, ref: Commit, a: Asked)
    ensures var found := Recover(L, ref, a.key, a.eventId, a.contentSha);
            && (found.Conflict? ==> KeyElsewhere(L, ref, a))
            && (found.Match? ==> Said(L, ref, a, FromEntry(L, AlreadyAccepted, ref, found.e)))
            && (found.Absent? ==> Find(L.events(ref), a.key).None?)
  {
    FindFinds(L.events(ref), a.key);
    var found := Recover(L, ref, a.key, a.eventId, a.contentSha);
    if found.Match? {
      var r := FromEntry(L, AlreadyAccepted, ref, found.e);
      assert Within(ref, ref) && L.id(ref) == r.ledgerCommit && found.e in L.events(ref) && Names(L, r, found.e);
    }
  }

  lemma OutdatedNow(L: Semantics, ref: Commit, a: Asked)
    requires Find(L.events(ref), a.key).None? && L.id(ref) != ToLower(a.expectedHead)
    ensures Outdated(L, ref, a)
  {
    hide Find;
    assert Within(ref, ref);
  }

  lemma RecoveryTells(L: Semantics, faults: bool, g: Shared, h: Handle, err: Error, out: Outcome)
    requires SnapshotRecovery(L, faults, g, h, err, out) && OrdinaryFailure(err)
    requires (h.key == "" || Find(L.events(g.ref), h.key).None?) ==> TrueRefusal(L, g.ref, AskedBy(h), err)
    ensures AcceptTold(L, g.ref, AskedBy(h), out) && out.handle.None?
    ensures out.response.Some? ==>
              out.response.value.status == AlreadyAccepted || out.response.value.status == AcceptanceUnknown
    ensures out.response.Some? && out.response.value.status == AlreadyAccepted ==> out.err == NoError
  {
    hide Recover, Find, Located, KeyElsewhere, Outdated, HasEvent;
    LookupTells(L, g.ref, AskedBy(h));
  }

  lemma SnapshotTells(L: Semantics, faults: bool, g: Shared, h: Handle, pc': AcceptPc)
    requires AcceptSnapshot(L, faults, g, h, pc')
    ensures AcceptTells(L, g.ref, h, pc')
  {
    hide Recover, Find, Located, KeyElsewhere, Outdated, AcceptedName;
    LookupTells(L, g.ref, AskedBy(h));
    if Find(L.events(g.ref), h.key).None? && L.id(g.ref) != ToLower(h.expectedHead) {
      OutdatedNow(L, g.ref, AskedBy(h));
    }
  }

  lemma PreflightTells(L: Semantics, ref: Commit, h0: Commit, h: Handle, err: Error)
    requires Laws(L) && L.replays(ref) && Within(h0, ref) && PreflightFailure(L, h0, h, err)
    ensures TrueRefusal(L, ref, AskedBy(h), err)
  {
    hide LawfulNames, LawfulAdmission, LawfulReplay, Within;
    if err == EventIdConflict {
      EventsGrow(L, h0, ref);
      var e :| e in L.events(h0) && e.doc.eventId == h.eventId;
      assert e in L.events(ref);
    }
  }

  lemma ChecksTell(L: Semantics, faults: bool, g: Shared, h: Handle, pc: AcceptPc, pc': AcceptPc)
    requires Laws(L) && GoodShared(L, g) && AcceptOk(L, g, h, pc, None) && AcceptTells(L, g.ref, h, pc)
    requires AcceptChecks(L, faults, g, h, pc, pc')
    ensures AcceptTells(L, g.ref, h, pc')
  {
    hide Laws, GoodShared, AcceptSnapshot, SnapshotRecovery, PreflightPasses, ReadPasses, PreflightFailure, Within, Find,
      TrueRefusal, AcceptTold, Backed;
    RefReplays(L, g);
    match pc
    case AStart => SnapshotTells(L, faults, g, h, pc');
    case APreflight(h0) =>
      if pc'.ASnapshotFailed? {
        PreflightTells(L, g.ref, h0, h, pc'.err);
      }
    case ARead(_, _) => OthersAreTrue(L, g.ref, AskedBy(h));
    case AValidate(_, _, _) => OthersAreTrue(L, g.ref, AskedBy(h));
    case ASnapshotFailed(err) => RecoveryTells(L, faults, g, h, err, pc'.outcome);
    case _ =>
  }

  lemma OthersAreTrue(L: Semantics, ref: Commit, a: Asked)
    ensures TrueRefusal(L, ref, a, CandidateInvalid) && TrueRefusal(L, ref, a, OtherFailure)
  {
  }

  lemma SwapTells(L: Semantics, faults: bool, g: Shared, h: Handle, pc: AcceptPc, pc': AcceptPc)
    requires CompareAndSwap(L, faults, g, h, pc, pc')
    ensures AcceptTells(L, g.ref, h, pc')
  {
    hide Within, TrueRefusal, Located;
    OthersAreTrue(L, g.ref, AskedBy(h));
  }

  /** The head the candidate was prepared on is no longer the head. */
  lemma StaleTells(L: Semantics, g: Shared, h: Handle, h0: Commit, c: Commit)
    requires LawfulNames(L) && GoodShared(L, g) && Backed(g, h, h0, c) && Passed(h0, g.ref)
    requires Find(L.events(g.ref), h.key).None?
    ensures Outdated(L, g.ref, AskedBy(h))
  {
    hide Find, Within, Extends, Bound, SizedHandle;
    var p :| p in g.prepared && SameIdentity(p.handle, h) && p.head == h0 && p.commit == c;
    assert Good(L, p);
    assert L.id(h0) == h.expectedHead && ToLower(h.expectedHead) == h.expectedHead;
    OutdatedNow(L, g.ref, AskedBy(h));
  }

  lemma RecoversTell(L: Semantics, faults: bool, g: Shared, h: Handle, pc: AcceptPc, pc': AcceptPc, moved: Option<Commit>)
    requires Laws(L) && GoodShared(L, g) && AcceptOk(L, g, h, pc, moved)
    requires AcceptRecovers(L, faults, g, h, pc, pc')
    ensures AcceptTells(L, g.ref, h, pc')
  {
    hide LawfulReplay, LawfulAdmission, LawfulNames, GoodShared, Within, Recover, Find, Validated, Passed, Bound, Backed, Located,
      KeyElsewhere, Outdated, HasEvent;
    LookupTells(L, g.ref, AskedBy(h));
    match pc
    case AStale(h0, c) =>
      if Find(L.events(g.ref), h.key).None? {
        StaleTells(L, g, h, h0, c);
      }
    case AVerify(h0, c) =>
      if pc'.ARemove? {
        VerifiedIsSaid(L, g.ref, h);
      }
    case _ =>
  }

  lemma VerifiedIsSaid(L: Semantics, ref: Commit, h: Handle)
    requires Find(L.events(ref), h.key).Some?
    requires var e := Find(L.events(ref), h.key).value; e.doc.contentSha == h.contentSha && e.doc.eventId == h.eventId
    ensures Said(L, ref, AskedBy(h), FromEntry(L, Accepted, ref, Find(L.events(ref), h.key).value))
  {
    FindFinds(L.events(ref), h.key);
    var e := Find(L.events(ref), h.key).value;
    var r := FromEntry(L, Accepted, ref, e);
    assert Within(ref, ref) && L.id(ref) == r.ledgerCommit && e in L.events(ref) && Names(L, r, e);
  }

  lemma CleansTell(faults: bool, L: Semantics, g: Shared, g': Shared, h: Handle, pc: AcceptPc, pc': AcceptPc)
    requires AcceptTells(L, g.ref, h, pc) && AcceptCleans(faults, g, g', h, pc, pc')
    ensures AcceptTells(L, g.ref, h, pc') && g'.ref == g.ref
  {
    hide Located, TrueRefusal;
  }

  lemma AcceptStepTells(L: Semantics, faults: bool, g: Shared, g': Shared, p: Proc, p': Proc)
    requires Laws(L) && GoodShared(L, g) && p.Accept? && ProcOk(L, g, p) && Tells(L, g.ref, p)
    requires AcceptStep(L, faults, g, g', p, p')
    ensures p'.Accept? && (g'.ref == g.ref ==> Tells(L, g'.ref, p'))
    ensures g'.ref != g.ref ==> p'.apc.ARecoverSuccess? || p'.apc.ARecoverError?
  {
    hide Laws, GoodShared, AcceptOk, AcceptTells, AcceptChecks, CompareAndSwap, AcceptRecovers, AcceptCleans, SizedHandle;
    if UpdateRef(g, g', p, p') {
      SilentTells(L, g'.ref, p'.h, p'.apc);
    } else if AcceptCleans(faults, g, g', p.h, p.apc, p'.apc) {
      CleansTell(faults, L, g, g', p.h, p.apc, p'.apc);
    } else if AcceptChecks(L, faults, g, p.h, p.apc, p'.apc) {
      ChecksMeanUnmoved(L, faults, g, p.h, p.apc, p'.apc, p.moved);
      ChecksTell(L, faults, g, p.h, p.apc, p'.apc);
    } else if CompareAndSwap(L, faults, g, p.h, p.apc, p'.apc) {
      SwapTells(L, faults, g, p.h, p.apc, p'.apc);
    } else {
      RecoversTell(L, faults, g, p.h, p.apc, p'.apc, p.moved);
    }
  }

  lemma SilentTells(L: Semantics, ref: Commit, h: Handle, pc: AcceptPc)
    requires pc.ARecoverSuccess? || pc.ARecoverError?
    ensures AcceptTells(L, ref, h, pc)
  {
  }

  // ------------------------------------------------------------------ prepare

  lemma PrepareSnapshotTells(L: Semantics, faults: bool, g: Shared, req: Request, pc': PreparePc)
    requires PrepareSnapshot(L, faults, g, req, pc')
    ensures PrepareTells(L, g.ref, req, pc')
  {
    hide Recover, Find, Located, KeyElsewhere, Outdated, AcceptedName, HasEvent;
    var a := AskedIn(L, req);
    LookupTells(L, g.ref, a);
    if Find(L.events(g.ref), a.key).None? && L.id(g.ref) != ToLower(a.expectedHead) {
      OutdatedNow(L, g.ref, a);
    }
  }

  lemma HandleForIsFor(L: Semantics, req: Request, h0: Commit, c: Commit, doc: Doc)
    requires L.candidate(req.event) == Some(doc) && L.id(h0) == ToLower(req.expectedHead)
    ensures ForRequest(L, req, HandleFor(L, h0, c, req, doc))
  {
    hide BindingId.Id;
  }

  lemma PreparedAtExpected(L: Semantics, head: Commit, req: Request)
    requires Laws(L) && L.prepares(head, req)
    ensures L.id(head) == ToLower(req.expectedHead)
  {
    hide LawfulNames, LawfulReplay, HandleFor, Bound, SizedHandle, Extends, HasEvent;
  }

  lemma BuildTells(
    L: Semantics, faults: bool, g: Shared, g': Shared, req: Request, h0: Commit, doc: Doc, stage: string, pc': PreparePc)
    requires Laws(L) && PrepareSnapshotOk(L, g, req, h0, doc)
    requires PrepareBuild(L, faults, g, g', req, h0, doc, stage, pc')
    ensures PrepareTells(L, g.ref, req, pc') && g'.ref == g.ref
  {
    hide Laws, Find, Within, HandleFor, TrueRefusal, ForRequest;
    PreparedAtExpected(L, h0, req);
    OthersAreTrue(L, g.ref, AskedIn(L, req));
    if pc'.PBind? {
      HandleForIsFor(L, req, h0, pc'.p.commit, doc);
    }
  }

  /** Recovery on behalf of Prepare answers about the request. */
  lemma PrepareRecoveryTells(L: Semantics, faults: bool, g: Shared, req: Request, h: Handle, err: Error, out: Outcome)
    requires SnapshotRecovery(L, faults, g, h, err, out) && (err == StaleState || err == CandidateInvalid)
    requires L.candidate(req.event).Some? && h.path == req.path
    requires var doc := L.candidate(req.event).value;
             h.key == doc.key && h.eventId == doc.eventId && h.contentSha == doc.contentSha
    requires err == StaleState ==> L.id(g.ref) != ToLower(req.expectedHead)
    ensures PrepareTold(L, g.ref, req, out) && out.handle.None?
  {
    hide Recover, Find, Located, KeyElsewhere, Outdated, HasEvent;
    var a := AskedIn(L, req);
    LookupTells(L, g.ref, a);
    if err == StaleState && Find(L.events(g.ref), a.key).None? {
      OutdatedNow(L, g.ref, a);
    }
    NoKeyNoEntry(L.events(g.ref), a.key);
  }

  lemma NoKeyNoEntry(events: seq<Entry>, key: string)
    ensures key == "" ==> Find(events, key).None?
  {
  }

  lemma StagesTell(L: Semantics, faults: bool, g: Shared, g': Shared, req: Request, pc: PreparePc, pc': PreparePc)
    requires Laws(L) && GoodShared(L, g) && PrepareOk(L, g, req, pc) && PrepareTells(L, g.ref, req, pc)
    requires PrepareStages(L, faults, g, g', req, pc, pc')
    ensures PrepareTells(L, g.ref, req, pc') && g'.ref == g.ref
  {
    hide Laws, GoodShared, PrepareSnapshot, PrepareBuild, SnapshotRecovery, PrepareSnapshotOk, Good, Within, TrueRefusal,
      Located, IsStage, NamesAccepted, Truthful, AskedIn;
    OthersAreTrue(L, g.ref, AskedIn(L, req));
    match pc
    case PStart => PrepareSnapshotTells(L, faults, g, req, pc');
    case PBuild(h0, doc, stage) => BuildTells(L, faults, g, g', req, h0, doc, stage, pc');
    case PBuildStale(h0, doc, stage) =>
      PassedIsElsewhere(L, h0, g.ref);
      PrepareRecoveryTells(L, faults, g, req, IdentityHandle(L, h0, req, doc), StaleState, pc'.outcome);
    case PUnstage(out, stage) => CleanupTells(L, g.ref, req, out);
    case _ =>
  }

  lemma PassedIsElsewhere(L: Semantics, h0: Commit, ref: Commit)
    requires Laws(L) && Passed(h0, ref)
    ensures L.id(h0) != L.id(ref)
  {
    hide LawfulReplay, LawfulAdmission, Within;
  }

  /** A failed clean-up only changes the error. */
  lemma CleanupTells(L: Semantics, ref: Commit, req: Request, out: Outcome)
    requires PrepareTold(L, ref, req, out) && out.handle.None?
    ensures PrepareTold(L, ref, req, out.(err := CleanupFailed))
  {
    hide Located, AskedIn;
  }

  lemma PublishesTell(L: Semantics, faults: bool, g: Shared, g': Shared, req: Request, pc: PreparePc, pc': PreparePc)
    requires Laws(L) && GoodShared(L, g) && PrepareOk(L, g, req, pc) && PrepareTells(L, g.ref, req, pc)
    requires PreparePublishes(L, faults, g, g', pc, pc')
    ensures PrepareTells(L, g.ref, req, pc') && g'.ref == g.ref
  {
    hide Laws, GoodShared, SnapshotRecovery, PrepareReconciles, Good, Within, TrueRefusal, Located, IsStage, Truthful,
      ForRequest, PrepareTold;
    match pc
    case PBoundFailed(p, stage) => BoundFailedTells(L, faults, g, req, p, pc'.outcome);
    case PRemoveStage(p, stage) => OthersAreTrue(L, g.ref, AskedIn(L, req)); FailedTells(L, g.ref, req);
    case PReconcile(p) => UnreadTells(L, g.ref, req, p);
    case PMoved(p) => ReconcilesTell(L, faults, g, req, p, pc'.outcome);
    case PRemoveBound(p, out, _) => CleanupTells(L, g.ref, req, out);
    case _ =>
  }

  lemma BoundFailedTells(L: Semantics, faults: bool, g: Shared, req: Request, p: Prepared, out: Outcome)
    requires ForRequest(L, req, p.handle) && SnapshotRecovery(L, faults, g, p.handle, CandidateInvalid, out)
    ensures PrepareTold(L, g.ref, req, out) && out.handle.None?
  {
    hide SnapshotRecovery, PrepareTold;
    PrepareRecoveryTells(L, faults, g, req, p.handle, CandidateInvalid, out);
  }

  lemma FailedTells(L: Semantics, ref: Commit, req: Request)
    ensures PrepareTold(L, ref, req, Fail(CandidateInvalid))
  {
  }

  lemma UnreadTells(L: Semantics, ref: Commit, req: Request, p: Prepared)
    requires ForRequest(L, req, p.handle)
    ensures PrepareTold(L, ref, req, Respond(FromHandle(AcceptanceUnknown, p.handle, false, ""), RecoveryRequired))
    ensures PrepareTold(L, ref, req, Outcome(Some(p.handle), None, NoError))
  {
  }

  lemma ReconcilesTell(L: Semantics, faults: bool, g: Shared, req: Request, p: Prepared, out: Outcome)
    requires Laws(L) && GoodShared(L, g) && p in g.prepared && Passed(p.head, g.ref) && ForRequest(L, req, p.handle)
    requires PrepareReconciles(L, faults, g, p, out)
    ensures PrepareTold(L, g.ref, req, out) && out.handle.None?
  {
    hide Laws, GoodShared, Recover, Find, Located, KeyElsewhere, Outdated, HasEvent, Within, Good;
    var a := AskedIn(L, req);
    LookupTells(L, g.ref, a);
    PassedIsElsewhere(L, p.head, g.ref);
    PreparedHead(L, g, p);
    if Find(L.events(g.ref), a.key).None? {
      OutdatedNow(L, g.ref, a);
    }
  }

  lemma PreparedHead(L: Semantics, g: Shared, p: Prepared)
    requires GoodShared(L, g) && p in g.prepared
    ensures p.handle.expectedHead == L.id(p.head)
  {
    hide Extends, Bound, SizedHandle, Within;
    assert Good(L, p);
  }

  // --------------------------------------------------------------- the system

  lemma ProcStepTells(L: Semantics, faults: bool, g: Shared, g': Shared, p: Proc, p': Proc)
    requires Laws(L) && GoodShared(L, g) && ProcOk(L, g, p) && Tells(L, g.ref, p) && ProcStep(L, faults, g, g', p, p')
    ensures Tells(L, g'.ref, p')
  {
    hide Laws, GoodShared, AcceptOk, PrepareOk, AcceptStep, PrepareStages, PreparePublishes, AcceptTells, PrepareTells;
    match p
    case Accept(_, _, _) =>
      AcceptStepTells(L, faults, g, g', p, p');
      if g'.ref != g.ref {
        SilentTells(L, g'.ref, p'.h, p'.apc);
      }
    case Prepare(req, pc) =>
      if PrepareStages(L, faults, g, g', req, pc, p'.ppc) {
        StagesTell(L, faults, g, g', req, pc, p'.ppc);
      } else {
        PublishesTell(L, faults, g, g', req, pc, p'.ppc);
      }
  }

  lemma StepTells(L: Semantics, s: State, s': State, a: Action)
    requires Laws(L) && Inv(L, s) && Step(L, true, s, s', a)
    requires forall k | k in s.procs :: Tells(L, s.g.ref, s.procs[k])
    ensures forall k | k in s'.procs :: Tells(L, s'.g.ref, s'.procs[k])
  {
    hide LawfulNames, LawfulReplay, LawfulAdmission, GoodShared, ProcOk, ProcStep, Tells, Within, Exclusive;
    StepInv(L, true, s, s', a);
    forall k | k in s'.procs ensures Tells(L, s'.g.ref, s'.procs[k]) {
      if a == Run(k) {
        ProcStepTells(L, true, s.g, s'.g, s.procs[k], s'.procs[k]);
      } else if k in s.procs && s'.procs[k] == s.procs[k] {
        TellsGrows(L, s.g.ref, s'.g.ref, s.procs[k]);
      } else {
        NewTells(L, s, s', a, k);
      }
    }
  }

  lemma NewTells(L: Semantics, s: State, s': State, a: Action, k: nat)
    requires Step(L, true, s, s', a) && a != Run(k) && k in s'.procs && !(k in s.procs && s'.procs[k] == s.procs[k])
    ensures Tells(L, s'.g.ref, s'.procs[k])
  {
    hide ProcStep, SizedHandle;
  }

  lemma {:induction false} ReachableTells(L: Semantics, run: seq<State>, actions: seq<Action>, i: nat)
    requires Laws(L) && Execution(L, run, actions) && i < |run|
    ensures forall k | k in run[i].procs :: Tells(L, run[i].g.ref, run[i].procs[k])
  {
    hide Laws, Inv, Step, Tells;
    if i > 0 {
      ReachableTells(L, run, actions, i - 1);
      ReachableInv(L, run, actions, i - 1);
      StepTells(L, run[i - 1], run[i], actions[i - 1]);
    }
  }

  // ----------------------------------------------------------------- theorems

  /**
   An answer carries the error its status calls for. No error means the event is
   accepted; an unknown outcome and a failed verification are always reported as
   such; no response at all is an ordinary failure.
   */
  lemma AnswersCarryTheirError(L: Semantics, run: seq<State>, actions: seq<Action>, i: nat, k: nat)
    requires Laws(L) && Execution(L, run, actions) && i < |run|
    requires k in run[i].procs && Finished(run[i].procs[k])
    ensures var p, out := run[i].procs[k], OutcomeOf(run[i].procs[k]);
            && (out.response.Some? ==>
                  var status := out.response.value.status;
                  && (status == AcceptanceUnknown ==> out.err == RecoveryRequired || (p.Prepare? && out.err == CleanupFailed))
                  && (status == AcceptedVerificationFailed ==> p.Accept? && out.err == VerificationFailed)
                  && (status == Accepted ==> p.Accept?)
                  && (status == Accepted || status == AlreadyAccepted ==> out.err == NoError || out.err == CleanupFailed)
                  && (out.err == NoError ==> status == Accepted || status == AlreadyAccepted))
            && (out.response.None? && out.handle.None? ==>
                  out.err != NoError && out.err != RecoveryRequired && out.err != VerificationFailed)
            && (out.handle.Some? ==> p.Prepare? && out.response.None? && out.err == NoError)
  {
    hide Laws, Execution, Truthful, Within, Located, TrueRefusal, AskedIn, SizedHandle, ForRequest, GoodShared;
    ReachableTells(L, run, actions, i);
    ReachableInv(L, run, actions, i);
    assert Tells(L, run[i].g.ref, run[i].procs[k]) && ProcOk(L, run[i].g, run[i].procs[k]);
  }

  /** An answer of Accept is about its handle's key, event and digest, and names its path where no event is found. */
  lemma AcceptAnswersItsHandle(L: Semantics, run: seq<State>, actions: seq<Action>, i: nat, k: nat)
    requires Laws(L) && Execution(L, run, actions) && i < |run|
    requires k in run[i].procs && run[i].procs[k].Accept? && Finished(run[i].procs[k])
    requires OutcomeOf(run[i].procs[k]).response.Some?
    ensures var h, r := run[i].procs[k].h, OutcomeOf(run[i].procs[k]).response.value;
            && r.key == h.key && r.eventId == h.eventId && r.contentSha == h.contentSha
            && (r.status == AcceptanceUnknown || r.status == AcceptedVerificationFailed ==> r.path == h.path)
  {
    hide Laws, Execution, Located, TrueRefusal;
    ReachableTells(L, run, actions, i);
    assert Tells(L, run[i].g.ref, run[i].procs[k]);
  }

  /** What Prepare returns, handle or answer, is about the document and path it was given. */
  lemma PrepareAnswersItsRequest(L: Semantics, run: seq<State>, actions: seq<Action>, i: nat, k: nat, doc: Doc)
    requires Laws(L) && Execution(L, run, actions) && i < |run|
    requires k in run[i].procs && run[i].procs[k].Prepare? && Finished(run[i].procs[k])
    requires L.candidate(run[i].procs[k].req.event) == Some(doc)
    ensures var req, out := run[i].procs[k].req, OutcomeOf(run[i].procs[k]);
            && (out.response.Some? ==>
                  var r := out.response.value;
                  r.key == doc.key && r.eventId == doc.eventId && r.contentSha == doc.contentSha)
            && (out.handle.Some? ==>
                  var h := out.handle.value;
                  && h.key == doc.key && h.eventId == doc.eventId && h.contentSha == doc.contentSha
                  && h.path == req.path && h.expectedHead == ToLower(req.expectedHead)
                  && h.quarantineSha == L.sha256(req.event) && h.quarantineSize == |req.event|)
  {
    hide Laws, Execution, Located, TrueRefusal;
    ReachableTells(L, run, actions, i);
    assert Tells(L, run[i].g.ref, run[i].procs[k]);
  }

  /** The ledger commit of a success is a head, below every later ref, whose history has the event it names. */
  lemma AnswersAreLocated(L: Semantics, run: seq<State>, actions: seq<Action>, i: nat, j: nat, k: nat)
    requires Laws(L) && Execution(L, run, actions) && i <= j < |run|
    requires k in run[i].procs && Succeeded(run[i].procs[k])
    requires OutcomeOf(run[i].procs[k]).response.value.status != AcceptedVerificationFailed
    ensures var r := OutcomeOf(run[i].procs[k]).response.value;
            exists head, e :: Within(head, run[j].g.ref) && L.id(head) == r.ledgerCommit && e in L.events(head) && Names(L, r, e)
  {
    hide Laws, Execution, Truthful, Within, TrueRefusal, AskedIn, SizedHandle, ForRequest, GoodShared, Located;
    ReachableTells(L, run, actions, i);
    ReachableInv(L, run, actions, i);
    assert Tells(L, run[i].g.ref, run[i].procs[k]) && ProcOk(L, run[i].g, run[i].procs[k]);
    RefOnlyDescends(L, run, actions, i, j);
    var r := OutcomeOf(run[i].procs[k]).response.value;
    LocatedGrows(L, run[i].g.ref, run[j].g.ref, r);
    LocatedIs(L, run[j].g.ref, r);
  }

  lemma LocatedIs(L: Semantics, ref: Commit, r: Response)
    requires Located(L, ref, r)
    ensures exists head, e :: Within(head, ref) && L.id(head) == r.ledgerCommit && e in L.events(head) && Names(L, r, e)
  {
    hide Within, Names;
  }

  /**
   A refusal states a fact. A key conflict: another event has the key, for good. An
   event id conflict: the id is taken, for good. Stale: at some head below the ref
   the key was free and the expected head was not the head.
   */
  lemma RefusalsAreTrue(L: Semantics, run: seq<State>, actions: seq<Action>, i: nat, j: nat, k: nat)
    requires Laws(L) && Execution(L, run, actions) && i <= j < |run|
    requires k in run[i].procs && Finished(run[i].procs[k])
    requires OutcomeOf(run[i].procs[k]).response.None? && OutcomeOf(run[i].procs[k]).handle.None?
    ensures var p, err, ref := run[i].procs[k], OutcomeOf(run[i].procs[k]).err, run[j].g.ref;
            var a := if p.Accept? then AskedBy(p.h) else AskedIn(L, p.req);
            && (err == IdempotencyConflict ==>
                  exists e :: e in L.events(ref) && e.doc.key == a.key && (e.doc.eventId != a.eventId || e.doc.contentSha != a.contentSha))
            && (err == EventIdConflict ==> exists e :: e in L.events(ref) && e.doc.eventId == a.eventId)
            && (err == StaleState ==>
                  exists head :: Within(head, ref) && L.id(head) != ToLower(a.expectedHead) &&
                                 forall e | e in L.events(head) :: e.doc.key != a.key || a.key == "")
  {
    hide Laws, Execution, Within, AskedIn, SizedHandle, ForRequest, TrueRefusal, Located;
    ReachableTells(L, run, actions, i);
    RefOnlyDescends(L, run, actions, i, j);
    var p, err := run[i].procs[k], OutcomeOf(run[i].procs[k]).err;
    var a := if p.Accept? then AskedBy(p.h) else AskedIn(L, p.req);
    assert Tells(L, run[i].g.ref, p);
    LawsParts(L);
    RefusalGrows(L, run[i].g.ref, run[j].g.ref, a, err);
    RefusalIs(L, run[j].g.ref, a, err);
  }

  lemma LawsParts(L: Semantics)
    requires Laws(L)
    ensures LawfulReplay(L)
  {
    hide LawfulReplay, LawfulNames, LawfulAdmission;
  }

  lemma RefusalIs(L: Semantics, ref: Commit, a: Asked, err: Error)
    requires TrueRefusal(L, ref, a, err)
    ensures err == IdempotencyConflict ==>
              exists e :: e in L.events(ref) && e.doc.key == a.key && (e.doc.eventId != a.eventId || e.doc.contentSha != a.contentSha)
    ensures err == EventIdConflict ==> exists e :: e in L.events(ref) && e.doc.eventId == a.eventId
    ensures err == StaleState ==>
              exists head :: Within(head, ref) && L.id(head) != ToLower(a.expectedHead) &&
                             forall e | e in L.events(head) :: e.doc.key != a.key || a.key == ""
  {
    hide Within, Find;
    if err == StaleState {
      var head :| Within(head, ref) && Find(L.events(head), a.key).None? && L.id(head) != ToLower(a.expectedHead);
      FindFinds(L.events(head), a.key);
    }
  }
}
