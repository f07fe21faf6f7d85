/**
 Where the answers come from. A success names a head that was authoritative while
 the invocation lived; and, fault-free, each look at the durable history decides by
 the event that has the key: one table for Accept and one for Prepare.
 */
module ProtocolReports {
  import opened Wrappers
  import opened Text
  import opened Git
  import opened Acceptance
  import opened Protocol
  import opened ProtocolInv
  import opened ProtocolSteps
  import opened ProtocolTheorems
  import opened ProtocolAnswers
  import BindingId

  /** What an invocation returned, or will return once its clean-up is done. */
  function Held(p: Proc): Option<Response> {
    match p
    case Accept(_, ACleanAccepted(resp, _), _) => Some(resp)
    case Accept(_, ARemove(_, resp), _) => Some(resp)
    case Accept(_, ADone(out), _) => out.response
    case Prepare(_, PCleanAccepted(resp, _)) => Some(resp)
    case Prepare(_, PUnstage(out, _)) => out.response
    case Prepare(_, PRemoveBound(_, out, _)) => out.response
    case Prepare(_, PDone(out)) => out.response
    case _ => None
  }

  predicate Success(r: Response) {
    r.status == Accepted || r.status == AlreadyAccepted
  }

  /** The answer's ledger commit is this head, and its event is there. */
  ghost predicate NamedAt(L: Semantics, head: Commit, r: Response) {
    L.id(head) == r.ledgerCommit && exists e :: e in L.events(head) && Names(L, r, e)
  }

  /** A success is either the one already held, or about the head just read. */
  ghost predicate HeldOrRead(L: Semantics, ref: Commit, p: Proc, p': Proc) {
    Held(p').Some? && Success(Held(p').value) ==> Held(p) == Held(p') || NamedAt(L, ref, Held(p').value)
  }

  lemma EntryIsNamed(L: Semantics, ref: Commit, key: string, status: Status)
    ensures Find(L.events(ref), key).Some? ==> NamedAt(L, ref, FromEntry(L, status, ref, Find(L.events(ref), key).value))
  {
    FindFinds(L.events(ref), key);
    if Find(L.events(ref), key).Some? {
      var e := Find(L.events(ref), key).value;
      assert e in L.events(ref) && Names(L, FromEntry(L, status, ref, e), e);
    }
  }

  lemma AcceptReads(L: Semantics, faults: bool, g: Shared, g': Shared, p: Proc, p': Proc)
    requires p.Accept? && AcceptStep(L, faults, g, g', p, p')
    ensures HeldOrRead(L, g.ref, p, p')
  {
    hide Find, Within, NamedAt, PreflightPasses, PreflightFailure, AcceptedName, ReadPasses;
    EntryIsNamed(L, g.ref, p.h.key, Accepted);
    EntryIsNamed(L, g.ref, p.h.key, AlreadyAccepted);
  }

  lemma PrepareReads(L: Semantics, faults: bool, g: Shared, g': Shared, p: Proc, p': Proc)
    requires p.Prepare? && (p.ppc.PBoundFailed? || p.ppc.PMoved? || p.ppc.PBuildStale? || p.ppc.PStart?)
    requires PrepareStep(L, faults, g, g', p, p')
    ensures HeldOrRead(L, g.ref, p, p')
  {
    hide Find, Within, NamedAt, AcceptedName, HasEvent, PrepareBuild, StrayStage, IsStage;
    match p.ppc
    case PBoundFailed(q, _) => EntryIsNamed(L, g.ref, q.handle.key, AlreadyAccepted);
    case PMoved(q) => EntryIsNamed(L, g.ref, q.handle.key, AlreadyAccepted);
    case PBuildStale(_, doc, _) => EntryIsNamed(L, g.ref, doc.key, AlreadyAccepted);
    case PStart =>
      if L.candidate(p.req.event).Some? {
        EntryIsNamed(L, g.ref, L.candidate(p.req.event).value.key, AlreadyAccepted);
      }
  }

  lemma PrepareKeeps(L: Semantics, faults: bool, g: Shared, g': Shared, p: Proc, p': Proc)
    requires p.Prepare? && !(p.ppc.PBoundFailed? || p.ppc.PMoved? || p.ppc.PBuildStale? || p.ppc.PStart?)
    requires PrepareStep(L, faults, g, g', p, p')
    ensures HeldOrRead(L, g.ref, p, p')
  {
    hide NamedAt, StrayStage, IsStage, SnapshotRecovery, HandleFor, PrepareReconciles;
  }

  lemma ProcReads(L: Semantics, faults: bool, g: Shared, g': Shared, p: Proc, p': Proc)
    requires ProcStep(L, faults, g, g', p, p')
    ensures HeldOrRead(L, g.ref, p, p')
  {
    hide AcceptStep, PrepareStep, HeldOrRead;
    match p
    case Accept(_, _, _) => AcceptReads(L, faults, g, g', p, p');
    case Prepare(_, pc) =>
      if pc.PBoundFailed? || pc.PMoved? || pc.PBuildStale? || pc.PStart? {
        PrepareReads(L, faults, g, g', p, p');
      } else {
        PrepareKeeps(L, faults, g, g', p, p');
      }
  }

  lemma StepReads(L: Semantics, s: State, s': State, a: Action, k: nat)
    requires Step(L, true, s, s', a) && k in s'.procs && Held(s'.procs[k]).Some? && Success(Held(s'.procs[k]).value)
    ensures k in s.procs && (Held(s.procs[k]) == Held(s'.procs[k]) || NamedAt(L, s.g.ref, Held(s'.procs[k]).value))
  {
    hide ProcStep, NamedAt;
    if a == Run(k) {
      ProcReads(L, true, s.g, s'.g, s.procs[k], s'.procs[k]);
    } else {
      assert Held(s'.procs[k]).Some? && !Starts(s'.procs[k]);
    }
  }

  /**
   The ledger commit of a success was the authoritative head at some moment of the
   invocation's own life, and the event it names was in the history then.
   */
  lemma {:induction false} SuccessNamesAHeadItSaw(L: Semantics, run: seq<State>, actions: seq<Action>, i: nat, k: nat)
    requires Execution(L, run, actions) && i < |run|
    requires k in run[i].procs && Held(run[i].procs[k]).Some? && Success(Held(run[i].procs[k]).value)
    ensures var r := Held(run[i].procs[k]).value;
            exists m: nat :: m <= i && k in run[m].procs && L.id(run[m].g.ref) == r.ledgerCommit &&
              exists e :: e in L.events(run[m].g.ref) && Names(L, r, e)
  {
    hide Step, Held, Names;
    var r := Held(run[i].procs[k]).value;
    if i > 0 {
      StepReads(L, run[i - 1], run[i], actions[i - 1], k);
      if NamedAt(L, run[i - 1].g.ref, r) {
        assert k in run[i - 1].procs && L.id(run[i - 1].g.ref) == r.ledgerCommit;
      } else {
        SuccessNamesAHeadItSaw(L, run, actions, i - 1, k);
      }
    }
  }

  // ------------------------------------------------------------ what a look decides

  /** The only event with the key, if the history is one. */
  lemma KeyIsFound(events: seq<Entry>, key: string)
    requires DistinctEntries(events) && key != ""
    ensures forall e | e in events && e.doc.key == key :: Find(events, key) == Some(e)
    ensures (forall e | e in events :: e.doc.key != key) ==> Find(events, key).None?
  {
    FindFinds(events, key);
    forall e | e in events && e.doc.key == key ensures Find(events, key) == Some(e) {
      var i :| 0 <= i < |events| && events[i] == e;
      assert Find(events, key).Some?;
      var f := Find(events, key).value;
      var j :| 0 <= j < |events| && events[j] == f;
      assert i == j;
    }
  }

  predicate Same(e: Entry, a: Asked) {
    e.doc.eventId == a.eventId && e.doc.contentSha == a.contentSha
  }

  /** An answer that finds `e` at `ref`. */
  predicate Finds(L: Semantics, ref: Commit, e: Entry, status: Status, r: Response) {
    r.status == status && Names(L, r, e) && r.ledgerCommit == L.id(ref)
  }

  predicate Refuses(out: Outcome, err: Error) {
    out.handle.None? && out.response.None? && out.err == err
  }

  /**
   What a fault-free look of Accept at a replaying head decides when an event has
   the handle's key. The same event is the answer, whatever the look was for; only
   the check after the invocation's own swap also wants the candidate's commit.
   Another event is a conflict, or a failed verification once the swap was seen.
   */
  lemma AcceptLooks(L: Semantics, g: Shared, h: Handle, pc: AcceptPc, pc': AcceptPc, e: Entry)
    requires L.replays(g.ref) && ReplayLaw(L, g.ref) && h.key != "" && e in L.events(g.ref) && e.doc.key == h.key
    requires AcceptChecks(L, false, g, h, pc, pc') || AcceptRecovers(L, false, g, h, pc, pc')
    ensures Same(e, AskedBy(h)) ==>
              && (pc.AStart? ==> pc'.ACleanAccepted? && Finds(L, g.ref, e, AlreadyAccepted, pc'.resp))
              && (pc.ASnapshotFailed? ==>
                    && pc'.ADone? && pc'.outcome.err == NoError && pc'.outcome.response.Some?
                    && Finds(L, g.ref, e, AlreadyAccepted, pc'.outcome.response.value))
              && (pc.AStale? || pc.ARecoveredAcceptance? ==> pc'.ARemove? && Finds(L, g.ref, e, AlreadyAccepted, pc'.resp))
              && (pc.AVerify? && L.id(e.commit) == h.commit ==> pc'.ARemove? && Finds(L, g.ref, e, Accepted, pc'.resp))
              && (pc.AVerify? && L.id(e.commit) != h.commit ==> pc'.ADone? && pc'.outcome.err == VerificationFailed)
    ensures !Same(e, AskedBy(h)) ==>
              && (pc.AStart? || pc.ASnapshotFailed? || pc.AStale? ==> pc'.ADone? && Refuses(pc'.outcome, IdempotencyConflict))
              && (pc.ARecoveredAcceptance? || pc.AVerify? ==> pc'.ADone? && pc'.outcome.err == VerificationFailed)
  {
    hide DistinctEntries, Find, PreflightPasses, PreflightFailure, Within, Linear, AcceptedName;
    KeyIsFound(L.events(g.ref), h.key);
  }

  /** The same when no event has the key: stale, the failure at hand, or on with the checks. */
  lemma AcceptLooksInVain(L: Semantics, g: Shared, h: Handle, pc: AcceptPc, pc': AcceptPc)
    requires L.replays(g.ref) && ReplayLaw(L, g.ref)
    requires h.key == "" || forall e | e in L.events(g.ref) :: e.doc.key != h.key
    requires AcceptChecks(L, false, g, h, pc, pc') || AcceptRecovers(L, false, g, h, pc, pc')
    ensures pc.AStart? ==> if L.id(g.ref) == ToLower(h.expectedHead) then pc' == APreflight(g.ref)
                           else pc'.ADone? && Refuses(pc'.outcome, StaleState)
    ensures pc.ASnapshotFailed? ==> pc'.ADone? && Refuses(pc'.outcome, pc.err)
    ensures pc.AStale? ==> pc'.ADone? && Refuses(pc'.outcome, StaleState)
    ensures pc.ARecoveredAcceptance? || pc.AVerify? ==>
              && pc'.ADone? && pc'.outcome.err == VerificationFailed && pc'.outcome.response.Some?
              && pc'.outcome.response.value.status == AcceptedVerificationFailed
              && pc'.outcome.response.value.acceptedCommit == h.commit
  {
    hide DistinctEntries, PreflightPasses, PreflightFailure, Within, Linear, AcceptedName;
    FindFinds(L.events(g.ref), h.key);
  }

  /** A complete handle whose event id is taken is refused for that and for nothing else, and nobody else is. */
  lemma PreflightReports(L: Semantics, g: Shared, h: Handle, pc: AcceptPc, pc': AcceptPc)
    requires LawfulAdmission(L) && pc.APreflight? && AcceptChecks(L, false, g, h, pc, pc')
    ensures (exists e :: e in L.events(pc.h0) && e.doc.eventId == h.eventId) && h.key != "" && h.eventId != "" && h.contentSha != "" ==>
              pc' == ASnapshotFailed(EventIdConflict)
    ensures (forall e | e in L.events(pc.h0) :: e.doc.eventId != h.eventId) || h.key == "" || h.eventId == "" || h.contentSha == "" ==>
              (pc'.ARead? && pc'.h0 == pc.h0) || pc' == ASnapshotFailed(CandidateInvalid) || pc' == ASnapshotFailed(OtherFailure)
  {
    hide Bound, Extends;
  }

  /** The document a Prepare step looks up. */
  predicate LooksUp(L: Semantics, req: Request, pc: PreparePc, a: Asked) {
    match pc
    case PStart => L.candidate(req.event).Some? && a == AskedIn(L, req)
    case PBuildStale(_, doc, _) => a == Asked(doc.key, doc.eventId, doc.contentSha, req.path, req.expectedHead)
    case PBoundFailed(p, _) => a == AskedBy(p.handle)
    case PMoved(p) => a == AskedBy(p.handle)
    case _ => false
  }

  /** Where a Prepare step leaves its result. */
  function Left(pc: PreparePc): Option<Outcome> {
    match pc
    case PUnstage(out, _) => Some(out)
    case PRemoveBound(_, out, _) => Some(out)
    case PDone(out) => Some(out)
    case _ => None
  }

  /** What a fault-free look of Prepare decides when an event has the key. */
  lemma PrepareLooks(L: Semantics, g: Shared, g': Shared, req: Request, pc: PreparePc, pc': PreparePc, a: Asked, e: Entry)
    requires L.replays(g.ref) && ReplayLaw(L, g.ref) && LooksUp(L, req, pc, a)
    requires a.key != "" && e in L.events(g.ref) && e.doc.key == a.key
    requires PrepareStages(L, false, g, g', req, pc, pc') || PreparePublishes(L, false, g, g', pc, pc')
    ensures Same(e, a) ==>
              if pc.PStart? then pc'.PCleanAccepted? && Finds(L, g.ref, e, AlreadyAccepted, pc'.resp)
              else
                && Left(pc').Some? && Left(pc').value.err == NoError && Left(pc').value.handle.None?
                && Left(pc').value.response.Some?
                && Finds(L, g.ref, e, AlreadyAccepted, Left(pc').value.response.value)
    ensures !Same(e, a) ==> Left(pc').Some? && Refuses(Left(pc').value, IdempotencyConflict)
  {
    hide DistinctEntries, Find, Within, Linear, AcceptedName, HasEvent, StrayStage, PrepareBuild, Removes;
    KeyIsFound(L.events(g.ref), a.key);
  }

  /** The same when no event has the key. */
  lemma PrepareLooksInVain(L: Semantics, g: Shared, g': Shared, req: Request, pc: PreparePc, pc': PreparePc, a: Asked)
    requires L.replays(g.ref) && ReplayLaw(L, g.ref) && LooksUp(L, req, pc, a)
    requires a.key == "" || forall e | e in L.events(g.ref) :: e.doc.key != a.key
    requires PrepareStages(L, false, g, g', req, pc, pc') || PreparePublishes(L, false, g, g', pc, pc')
    ensures pc.PBuildStale? || pc.PMoved? ==> Left(pc').Some? && Refuses(Left(pc').value, StaleState)
    ensures pc.PBoundFailed? ==> Left(pc').Some? && Refuses(Left(pc').value, CandidateInvalid)
    ensures pc.PStart? && LawfulAdmission(L) ==>
              if exists e :: e in L.events(g.ref) && e.doc.eventId == a.eventId
              then pc'.PDone? && Refuses(pc'.outcome, EventIdConflict)
              else if L.id(g.ref) != ToLower(req.expectedHead) then pc'.PDone? && Refuses(pc'.outcome, StaleState)
              else (pc'.PStage? && pc'.h0 == g.ref) || (pc'.PDone? && (Refuses(pc'.outcome, CandidateInvalid) || Refuses(pc'.outcome, OtherFailure)))
  {
    hide DistinctEntries, Within, Linear, AcceptedName, StrayStage, PrepareBuild, Removes;
    FindFinds(L.events(g.ref), a.key);
  }
}
