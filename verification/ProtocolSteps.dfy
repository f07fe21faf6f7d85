/** Every step of the write protocol keeps the invariant. */
module ProtocolSteps {
  import opened Wrappers
  import opened Text
  import opened Git
  import opened Acceptance
  import opened Protocol
  import opened ProtocolInv
  import BindingId

  // ------------------------------------------------------------------ lookups

  /** A durable match answers with an entry of the very history it was found in. */
  lemma MatchIsTruthful(L: Semantics, ref: Commit, key: string, eventId: string, contentSha: string, status: Status)
    requires L.replays(ref) && Recover(L, ref, key, eventId, contentSha).Match? && status != AcceptanceUnknown
    ensures var e := Recover(L, ref, key, eventId, contentSha).e;
            && Truthful(L, ref, FromEntry(L, status, ref, e)) && e in L.events(ref)
            && e.doc.key == key && e.doc.eventId == eventId && e.doc.contentSha == contentSha
  {
    FindFinds(L.events(ref), key);
    var e := Recover(L, ref, key, eventId, contentSha).e;
    assert Names(L, FromEntry(L, status, ref, e), e);
  }

  lemma SnapshotRecoveryAnswers(L: Semantics, faults: bool, g: Shared, h: Handle, err: Error, out: Outcome)
    requires SnapshotRecovery(L, faults, g, h, err, out)
    ensures Answered(L, g, None, out) && PrepareAnswered(L, g, out)
  {
    hide Recover;
    if h.key != "" && L.replays(g.ref) && Recover(L, g.ref, h.key, h.eventId, h.contentSha).Match? {
      MatchIsTruthful(L, g.ref, h.key, h.eventId, h.contentSha, AlreadyAccepted);
    }
  }

  // ------------------------------------------------- what a capability proves

  /**
   Holding a quarantined file under a name bound to one's own handle proves the
   candidate was prepared: same head, same commit, same identity, same bytes.
   */
  lemma CapabilityMeansPrepared(L: Semantics, g: Shared, h: Handle, h0: Commit, c: Commit)
    requires LawfulNames(L) && GoodShared(L, g) && SizedHandle(h) && Bound(L, h)
    requires h.quarantineId in g.quarantine
    requires L.id(h0) == ToLower(h.expectedHead) && L.id(c) == ToLower(h.commit)
    ensures exists p :: p in g.prepared && SameIdentity(p.handle, h) && p.head == h0 && p.commit == c &&
              p.bytes == g.quarantine[h.quarantineId]
    ensures L.id(c) == h.commit
  {
    hide BindingId.Id, Extends, BindingId.Sized;
    BoundNameIsNoStage(L, h);
    var p :| p in g.prepared && p.handle.quarantineId == h.quarantineId && p.bytes == g.quarantine[h.quarantineId];
    BindingId.IdInjective(L.sha256, IdentityOf(p.handle), IdentityOf(h));
    assert L.id(p.head) == h.expectedHead && L.id(p.commit) == h.commit;
  }

  lemma BoundNameIsNoStage(L: Semantics, h: Handle)
    requires Bound(L, h)
    ensures !IsStage(h.quarantineId)
  {
    hide BindingId.Id;
    if IsStage(h.quarantineId) {
      var nonce := h.quarantineId[|BindingId.STAGE_PREFIX|..];
      assert h.quarantineId == BindingId.STAGE_PREFIX + nonce;
      BindingId.BoundIsNotStage(L.sha256, IdentityOf(h), nonce);
    }
  }

  // ------------------------------------------------------------------- accept

  /** The name cleaned up for an accepted event is its own capability's. */
  lemma AcceptedNameIsSized(L: Semantics, g: Shared, e: Entry, raw: string)
    requires LawfulReplay(L) && L.replays(g.ref) && e in L.events(g.ref)
    requires raw == e.bytes || (Fits(raw) && Fits(L.sha256(raw)))
    ensures NamesAccepted(L, g.ref, AcceptedName(L, e, raw))
  {
    hide AcceptedName, Within, Linear, DistinctEntries;
    assert ReplayLaw(L, g.ref);
    assert BindingId.Sized(AcceptedIdentity(L, e, raw));
  }

  lemma AcceptSnapshotInv(L: Semantics, faults: bool, g: Shared, h: Handle, pc': AcceptPc)
    requires LawfulReplay(L) && GoodShared(L, g) && AcceptSnapshot(L, faults, g, h, pc')
    ensures AcceptOk(L, g, h, pc', None)
  {
    hide Truthful, AcceptedName, Within, NamesAccepted, LawfulReplay, GoodShared, Recover;
    assert L.replays(g.ref) by {
      RefReplays(L, g);
    }
    if Recover(L, g.ref, h.key, h.eventId, h.contentSha).Match? {
      MatchIsTruthful(L, g.ref, h.key, h.eventId, h.contentSha, AlreadyAccepted);
      var e := Recover(L, g.ref, h.key, h.eventId, h.contentSha).e;
      AcceptedNameIsSized(L, g, e, e.bytes);
    }
    RecoverAbsent(L, g.ref, h.key, h.eventId, h.contentSha);
    RefIsWithin(g.ref);
  }

  lemma RefReplays(L: Semantics, g: Shared)
    requires GoodShared(L, g)
    ensures L.replays(g.ref)
  {
  }

  lemma RecoverAbsent(L: Semantics, head: Commit, key: string, eventId: string, contentSha: string)
    ensures Recover(L, head, key, eventId, contentSha) == Absent <==> Find(L.events(head), key).None?
  {
    hide Find;
  }

  lemma RefIsWithin(c: Commit)
    ensures Within(c, c)
  {
  }

  lemma AcceptChecksInv(L: Semantics, faults: bool, g: Shared, h: Handle, pc: AcceptPc, pc': AcceptPc)
    requires Laws(L) && GoodShared(L, g) && SizedHandle(h) && AcceptOk(L, g, h, pc, None)
    requires AcceptChecks(L, faults, g, h, pc, pc')
    ensures AcceptOk(L, g, h, pc', None)
  {
    hide GoodShared, LawfulReplay, LawfulNames, LawfulAdmission, Truthful, Find, SnapshotRecovery, AcceptSnapshot,
      Bound, SizedHandle, Within, SameIdentity, Snapshot;
    match pc
    case AStart => AcceptSnapshotInv(L, faults, g, h, pc');
    case ARead(h0, c) =>
      if ReadPasses(L, g, h) {
        ReadInv(L, g, h, h0, c);
      }
    case AValidate(h0, c, bytes) =>
      if L.admits(h0, c, h, bytes) {
        AdmittedInv(L, g, h, h0, c, bytes);
      }
    case ASnapshotFailed(err) => SnapshotRecoveryAnswers(L, faults, g, h, err, pc'.outcome);
    case _ =>
  }

  lemma ReadInv(L: Semantics, g: Shared, h: Handle, h0: Commit, c: Commit)
    requires Laws(L) && GoodShared(L, g) && SizedHandle(h) && Snapshot(L, g, h, h0) && Bound(L, h)
    requires L.id(c) == ToLower(h.commit) && ReadPasses(L, g, h)
    ensures Backed(g, h, h0, c) && L.id(c) == h.commit
    ensures exists p :: p in g.prepared && SameIdentity(p.handle, h) && p.bytes == g.quarantine[h.quarantineId]
  {
    hide GoodShared, Within, SizedHandle, Bound, LawfulReplay, LawfulAdmission;
    CapabilityMeansPrepared(L, g, h, h0, c);
  }

  /** Accept's own validation, not Prepare's word, is what makes the commit publishable. */
  lemma AdmittedInv(L: Semantics, g: Shared, h: Handle, h0: Commit, c: Commit, bytes: string)
    requires Laws(L) && Snapshot(L, g, h, h0) && L.id(c) == h.commit && L.admits(h0, c, h, bytes)
    ensures Validated(L, h, h0, c) && Within(h0, g.ref) && Bound(L, h)
  {
    hide Within, Find, LawfulReplay, LawfulNames, Bound;
    assert Extends(L, h0, c, h, bytes);
  }

  lemma CompareAndSwapInv(L: Semantics, faults: bool, g: Shared, h: Handle, pc: AcceptPc, pc': AcceptPc, moved: Option<Commit>)
    requires LawfulReplay(L) && GoodShared(L, g) && AcceptOk(L, g, h, pc, moved)
    requires CompareAndSwap(L, faults, g, h, pc, pc')
    ensures AcceptOk(L, g, h, pc', moved)
  {
    hide Within, Validated, Backed, GoodShared, LawfulReplay, Bound;
    if pc.ARecoverSuccess? && pc'.ADone? {
      NamedIsTruthful(L, g, h, pc.h0, pc.c, "");
    }
  }

  /** Once its commit is in the history, a validated handle names an entry of that history. */
  lemma ValidatedIsEntry(L: Semantics, g: Shared, h: Handle, h0: Commit, c: Commit)
    requires LawfulReplay(L) && L.replays(g.ref) && Validated(L, h, h0, c) && Within(c, g.ref)
    ensures h.key != "" && exists e :: e in L.events(g.ref) && e.commit == c && Describes(L, h, e)
  {
    hide ReplayLaw;
    var bytes :| Extends(L, h0, c, h, bytes);
    EventsGrow(L, c, g.ref);
    var e := L.events(c)[|L.events(h0)|];
    assert e in L.events(c);
    assert e in L.events(g.ref);
  }

  lemma NamedIsTruthful(L: Semantics, g: Shared, h: Handle, h0: Commit, c: Commit, ledger: string)
    requires LawfulReplay(L) && GoodShared(L, g) && Validated(L, h, h0, c) && Within(c, g.ref)
    ensures Truthful(L, g.ref, FromHandle(AcceptedVerificationFailed, h, true, ledger))
  {
    hide Within;
    ValidatedIsEntry(L, g, h, h0, c);
    var e :| e in L.events(g.ref) && e.commit == c && Describes(L, h, e);
    assert Names(L, FromHandle(AcceptedVerificationFailed, h, true, ledger), e);
  }

  /** And the key lookup finds it there. */
  lemma FoundAccepted(L: Semantics, g: Shared, h: Handle, h0: Commit, c: Commit)
    requires LawfulReplay(L) && L.replays(g.ref) && Validated(L, h, h0, c) && Within(c, g.ref)
    ensures Find(L.events(g.ref), h.key).Some?
    ensures var e := Find(L.events(g.ref), h.key).value;
            e.doc.contentSha == h.contentSha && e.doc.eventId == h.eventId && L.id(e.commit) == h.commit
  {
    hide Within, Find;
    ValidatedIsEntry(L, g, h, h0, c);
    var e :| e in L.events(g.ref) && e.commit == c && Describes(L, h, e);
    assert ReplayLaw(L, g.ref);
    FindIsThe(L.events(g.ref), e);
  }

  lemma BackedMeansBackedHead(g: Shared, h: Handle, h0: Commit, c: Commit)
    requires Backed(g, h, h0, c)
    ensures BackedHead(g, h, h0)
  {
  }

  lemma AcceptRecoversInv(
    L: Semantics, faults: bool, g: Shared, h: Handle, pc: AcceptPc, pc': AcceptPc, moved: Option<Commit>)
    requires LawfulReplay(L) && GoodShared(L, g) && AcceptOk(L, g, h, pc, moved)
    requires AcceptRecovers(L, faults, g, h, pc, pc')
    ensures AcceptOk(L, g, h, pc', moved)
  {
    match pc
    case AStale(h0, c) => StaleInv(L, faults, g, h, h0, c, pc');
    case ARecoveredAcceptance(h0, c) => RecoveredInv(L, faults, g, h, h0, c, pc', moved);
    case AVerify(h0, c) => VerifyInv(L, faults, g, h, h0, c, pc');
  }

  lemma StaleInv(L: Semantics, faults: bool, g: Shared, h: Handle, h0: Commit, c: Commit, pc': AcceptPc)
    requires GoodShared(L, g) && AcceptOk(L, g, h, AStale(h0, c), None)
    requires AcceptRecovers(L, faults, g, h, AStale(h0, c), pc')
    ensures AcceptOk(L, g, h, pc', None)
  {
    hide Within, Recover, Backed, Truthful, Validated, Passed, Bound;
    BackedMeansBackedHead(g, h, h0, c);
    if L.replays(g.ref) && Recover(L, g.ref, h.key, h.eventId, h.contentSha).Match? {
      MatchIsTruthful(L, g.ref, h.key, h.eventId, h.contentSha, AlreadyAccepted);
    }
  }

  lemma RecoveredInv(
    L: Semantics, faults: bool, g: Shared, h: Handle, h0: Commit, c: Commit, pc': AcceptPc, moved: Option<Commit>)
    requires LawfulReplay(L) && GoodShared(L, g) && AcceptOk(L, g, h, ARecoveredAcceptance(h0, c), moved)
    requires AcceptRecovers(L, faults, g, h, ARecoveredAcceptance(h0, c), pc')
    ensures AcceptOk(L, g, h, pc', moved)
  {
    hide Within, Recover, Truthful, Validated, Passed, GoodShared, LawfulReplay, Backed, Bound;
    BackedMeansBackedHead(g, h, h0, c);
    NamedIsTruthful(L, g, h, h0, c, "");
    HeadIsPassed(L, g, h, h0, c);
    if L.replays(g.ref) && Recover(L, g.ref, h.key, h.eventId, h.contentSha).Match? {
      MatchIsTruthful(L, g.ref, h.key, h.eventId, h.contentSha, AlreadyAccepted);
    }
  }

  lemma HeadIsPassed(L: Semantics, g: Shared, h: Handle, h0: Commit, c: Commit)
    requires LawfulReplay(L) && GoodShared(L, g) && Validated(L, h, h0, c) && Within(c, g.ref)
    ensures Passed(h0, g.ref)
  {
    hide Passed, Within, ReplayLaw;
    ChildPasses(L, h0, c, g.ref);
  }

  lemma VerifyInv(L: Semantics, faults: bool, g: Shared, h: Handle, h0: Commit, c: Commit, pc': AcceptPc)
    requires LawfulReplay(L) && GoodShared(L, g) && AcceptOk(L, g, h, AVerify(h0, c), Some(c))
    requires AcceptRecovers(L, faults, g, h, AVerify(h0, c), pc')
    ensures AcceptOk(L, g, h, pc', Some(c))
  {
    hide Within, Truthful, Find, Passed, GoodShared, LawfulReplay, Backed, Bound;
    BackedMeansBackedHead(g, h, h0, c);
    NamedIsTruthful(L, g, h, h0, c, h.commit);
    NamedIsTruthful(L, g, h, h0, c, L.id(g.ref));
    HeadIsPassed(L, g, h, h0, c);
    if pc'.ARemove? {
      FoundIsTruthful(L, g, h.key);
    }
  }

  lemma FoundIsTruthful(L: Semantics, g: Shared, key: string)
    requires Find(L.events(g.ref), key).Some?
    ensures Truthful(L, g.ref, FromEntry(L, Accepted, g.ref, Find(L.events(g.ref), key).value))
  {
    FindFinds(L.events(g.ref), key);
    var e := Find(L.events(g.ref), key).value;
    assert Names(L, FromEntry(L, Accepted, g.ref, e), e);
  }

  lemma AcceptCleansInv(
    L: Semantics, faults: bool, g: Shared, g': Shared, h: Handle, pc: AcceptPc, pc': AcceptPc, moved: Option<Commit>)
    requires GoodShared(L, g) && AcceptOk(L, g, h, pc, moved) && AcceptCleans(faults, g, g', h, pc, pc')
    ensures GoodShared(L, g') && Grows(L, g, g') && AcceptOk(L, g', h, pc', moved)
  {
    hide Truthful, GoodShared, Within, BackedHead, Grows, Bound, NamesAccepted;
    RefIsWithin(g.ref);
    SharedShrinks(L, g, g');
  }

  /**
   The one step that moves authority. Its commit was not in the history before,
   so no other invocation can claim to have moved the ref to it.
   */
  lemma UpdateRefInv(L: Semantics, g: Shared, g': Shared, p: Proc, p': Proc)
    requires LawfulReplay(L) && GoodShared(L, g) && ProcOk(L, g, p) && UpdateRef(g, g', p, p')
    ensures GoodShared(L, g') && Grows(L, g, g') && ProcOk(L, g', p') && p'.Accept?
    ensures p'.moved == p.moved || (p'.moved.Some? && !Within(p'.moved.value, g.ref) && Within(p'.moved.value, g'.ref))
  {
    hide GoodShared, Grows, LawfulReplay, SizedHandle, Backed, Validated;
    var h0, c := p.apc.h0, p.apc.c;
    ValidatedParts(L, p.h, h0, c);
    RefIsWithin(c);
    if g.ref == h0 && g' == g.(ref := c) {
      SharedAdvances(L, g, c);
      LinearHead(L, c);
      NotWithinParent(c);
      AcceptOkGrows(L, g, g', p.h, p.apc, p.moved);
    } else {
      SharedShrinks(L, g, g');
    }
  }

  lemma ValidatedParts(L: Semantics, h: Handle, h0: Commit, c: Commit)
    requires Validated(L, h, h0, c)
    ensures c.parents == [h0] && L.replays(c) && L.replays(h0)
  {
  }

  lemma LinearHead(L: Semantics, c: Commit)
    requires LawfulReplay(L) && L.replays(c)
    ensures Linear(c)
  {
    assert ReplayLaw(L, c);
  }

  lemma AcceptStepInv(L: Semantics, faults: bool, g: Shared, g': Shared, p: Proc, p': Proc)
    requires Laws(L) && GoodShared(L, g) && p.Accept? && ProcOk(L, g, p) && AcceptStep(L, faults, g, g', p, p')
    ensures GoodShared(L, g') && Grows(L, g, g') && ProcOk(L, g', p') && p'.Accept?
    ensures p'.moved == p.moved || (p'.moved.Some? && !Within(p'.moved.value, g.ref) && Within(p'.moved.value, g'.ref))
  {
    hide GoodShared, Grows, AcceptOk, LawfulReplay, LawfulNames, LawfulAdmission, UpdateRef, AcceptChecks,
      CompareAndSwap, AcceptRecovers, AcceptCleans, SizedHandle, Within;
    if UpdateRef(g, g', p, p') {
      UpdateRefInv(L, g, g', p, p');
    } else if AcceptCleans(faults, g, g', p.h, p.apc, p'.apc) {
      AcceptCleansInv(L, faults, g, g', p.h, p.apc, p'.apc, p.moved);
    } else {
      SharedShrinks(L, g, g');
      if AcceptChecks(L, faults, g, p.h, p.apc, p'.apc) {
        ChecksMeanUnmoved(L, faults, g, p.h, p.apc, p'.apc, p.moved);
        AcceptChecksInv(L, faults, g, p.h, p.apc, p'.apc);
      } else if CompareAndSwap(L, faults, g, p.h, p.apc, p'.apc) {
        CompareAndSwapInv(L, faults, g, p.h, p.apc, p'.apc, p.moved);
      } else {
        AcceptRecoversInv(L, faults, g, p.h, p.apc, p'.apc, p.moved);
      }
    }
  }

  lemma ChecksMeanUnmoved(L: Semantics, faults: bool, g: Shared, h: Handle, pc: AcceptPc, pc': AcceptPc, moved: Option<Commit>)
    requires AcceptChecks(L, faults, g, h, pc, pc') && AcceptOk(L, g, h, pc, moved)
    ensures moved == None
  {
    hide PreflightPasses, ReadPasses, AcceptSnapshot, SnapshotRecovery, Snapshot, Backed;
  }

  // ------------------------------------------------------------------ prepare

  lemma PrepareSnapshotInv(L: Semantics, faults: bool, g: Shared, req: Request, pc': PreparePc)
    requires LawfulNames(L) && LawfulReplay(L) && GoodShared(L, g) && PrepareSnapshot(L, faults, g, req, pc')
    ensures PrepareOk(L, g, req, pc')
  {
    hide Truthful, AcceptedName, Within, NamesAccepted, LawfulReplay, GoodShared, Recover;
    RefIsWithin(g.ref);
    RefReplays(L, g);
    if L.candidate(req.event).Some? {
      var doc := L.candidate(req.event).value;
      RecoverAbsent(L, g.ref, doc.key, doc.eventId, doc.contentSha);
      if Recover(L, g.ref, doc.key, doc.eventId, doc.contentSha).Match? {
        MatchIsTruthful(L, g.ref, doc.key, doc.eventId, doc.contentSha, AlreadyAccepted);
        AcceptedNameIsSized(L, g, Recover(L, g.ref, doc.key, doc.eventId, doc.contentSha).e, req.event);
      }
    }
  }

  /** A candidate built from a validated snapshot extends its head by exactly its event. */
  lemma BuiltIsGood(L: Semantics, g: Shared, req: Request, h0: Commit, doc: Doc)
    requires Laws(L) && PrepareSnapshotOk(L, g, req, h0, doc) && L.builds(h0, req).Some?
    ensures var c := L.builds(h0, req).value; Good(L, Prepared(h0, c, HandleFor(L, h0, c, req, doc), req.event))
  {
    hide Within, Find, LawfulReplay, LawfulNames, SizedHandle;
    var c := L.builds(h0, req).value;
    var h := HandleFor(L, h0, c, req, doc);
    assert L.admits(h0, c, h, req.event) && h.key == doc.key;
    assert Extends(L, h0, c, h, req.event);
  }

  lemma PrepareStagesInv(L: Semantics, faults: bool, g: Shared, g': Shared, req: Request, pc: PreparePc, pc': PreparePc)
    requires Laws(L) && GoodShared(L, g) && PrepareOk(L, g, req, pc) && PrepareStages(L, faults, g, g', req, pc, pc')
    ensures GoodShared(L, g') && Grows(L, g, g') && PrepareOk(L, g', req, pc')
  {
    hide Within, Truthful, LawfulReplay, LawfulNames, LawfulAdmission, GoodShared, Grows, IsStage, PrepareSnapshot,
      PrepareSnapshotOk, SnapshotRecovery, PrepareBuild, StrayStage;
    RefIsWithin(g.ref);
    match pc
    case PStart => PrepareSnapshotInv(L, faults, g, req, pc'); SharedShrinks(L, g, g');
    case PStage(h0, doc) =>
      StageAddsStage(L, faults, g, g', req, h0, doc, pc');
      StageInv(L, g, g', req.event);
      SameRefSnapshot(L, g, g', req, h0, doc);
    case PBuild(h0, doc, stage) => PrepareBuildInv(L, faults, g, g', req, h0, doc, stage, pc');
    case PBuildStale(h0, doc, stage) =>
      SnapshotRecoveryAnswers(L, faults, g, IdentityHandle(L, h0, req, doc), StaleState, pc'.outcome);
      SharedShrinks(L, g, g');
    case _ => SharedShrinks(L, g, g');
  }

  lemma SameRefSnapshot(L: Semantics, g: Shared, g': Shared, req: Request, h0: Commit, doc: Doc)
    requires PrepareSnapshotOk(L, g, req, h0, doc) && g'.ref == g.ref
    ensures PrepareSnapshotOk(L, g', req, h0, doc)
  {
  }

  lemma StageAddsStage(
    L: Semantics, faults: bool, g: Shared, g': Shared, req: Request, h0: Commit, doc: Doc, pc': PreparePc)
    requires PrepareStages(L, faults, g, g', req, PStage(h0, doc), pc')
    ensures StrayStage(g, g', req.event)
  {
    hide IsStage;
  }

  /** Staging only adds staging names. */
  lemma StageInv(L: Semantics, g: Shared, g': Shared, event: string)
    requires GoodShared(L, g)
    requires StrayStage(g, g', event)
    ensures GoodShared(L, g') && Grows(L, g, g') && g'.ref == g.ref
  {
    hide Good, Within, IsStage;
    RefIsWithin(g.ref);
  }

  lemma PrepareBuildInv(
    L: Semantics, faults: bool, g: Shared, g': Shared, req: Request, h0: Commit, doc: Doc, stage: string, pc': PreparePc)
    requires Laws(L) && GoodShared(L, g) && PrepareSnapshotOk(L, g, req, h0, doc) && IsStage(stage)
    requires PrepareBuild(L, faults, g, g', req, h0, doc, stage, pc')
    ensures GoodShared(L, g') && Grows(L, g, g') && PrepareOk(L, g', req, pc')
  {
    hide Within, LawfulReplay, LawfulNames, LawfulAdmission, Good, HandleFor, IsStage, GoodShared, Grows;
    SharedShrinks(L, g, g');
    RefIsWithin(g.ref);
    if L.builds(h0, req).Some? {
      BuiltIsGood(L, g, req, h0, doc);
    }
  }

  lemma PublishInv(L: Semantics, g: Shared, p: Prepared)
    requires GoodShared(L, g) && Good(L, p) && Within(p.head, g.ref)
    requires p.handle.quarantineId in g.quarantine ==> g.quarantine[p.handle.quarantineId] == p.bytes
    ensures var g' := g.(quarantine := g.quarantine[p.handle.quarantineId := p.bytes], prepared := g.prepared + {p});
            GoodShared(L, g') && Grows(L, g, g')
  {
    hide Good, Within, IsStage;
    RefIsWithin(g.ref);
    var g' := g.(quarantine := g.quarantine[p.handle.quarantineId := p.bytes], prepared := g.prepared + {p});
    forall q | q in g'.quarantine && !IsStage(q)
      ensures exists x :: x in g'.prepared && x.handle.quarantineId == q && x.bytes == g'.quarantine[q]
    {
      if q != p.handle.quarantineId {
        var x :| x in g.prepared && x.handle.quarantineId == q && x.bytes == g.quarantine[q];
        assert x in g'.prepared;
      } else {
        assert p in g'.prepared;
      }
    }
  }

  lemma BindInv(L: Semantics, faults: bool, g: Shared, g': Shared, req: Request, p: Prepared, stage: string, pc': PreparePc)
    requires GoodShared(L, g) && PrepareOk(L, g, req, PBind(p, stage))
    requires PreparePublishes(L, faults, g, g', PBind(p, stage), pc')
    ensures GoodShared(L, g') && Grows(L, g, g') && PrepareOk(L, g', req, pc')
  {
    hide Good, Within, IsStage, GoodShared, Grows;
    RefIsWithin(g.ref);
    if g' == g {
      SharedShrinks(L, g, g');
    } else {
      PublishInv(L, g, p);
    }
  }

  lemma PreparePublishesInv(L: Semantics, faults: bool, g: Shared, g': Shared, req: Request, pc: PreparePc, pc': PreparePc)
    requires Laws(L) && GoodShared(L, g) && PrepareOk(L, g, req, pc) && PreparePublishes(L, faults, g, g', pc, pc')
    ensures GoodShared(L, g') && Grows(L, g, g') && PrepareOk(L, g', req, pc')
  {
    hide Within, Truthful, LawfulReplay, LawfulNames, LawfulAdmission, GoodShared, Grows, IsStage, SnapshotRecovery,
      PrepareReconciles, Good;
    RefIsWithin(g.ref);
    match pc
    case PBind(p, stage) => BindInv(L, faults, g, g', req, p, stage, pc');
    case PBoundFailed(p, stage) =>
      SnapshotRecoveryAnswers(L, faults, g, p.handle, CandidateInvalid, pc'.outcome);
      SharedShrinks(L, g, g');
    case PReadBound(p, stage) => SharedIsGood(L, g, p); SharedShrinks(L, g, g');
    case PReconcile(p) => SharedIsGood(L, g, p); UnknownIsTruthful(L, g, p.handle); SharedShrinks(L, g, g');
    case PMoved(p) => ReconcilesInv(L, faults, g, p, pc'.outcome); SharedShrinks(L, g, g');
    case _ => SharedShrinks(L, g, g');
  }

  lemma UnknownIsTruthful(L: Semantics, g: Shared, h: Handle)
    ensures Truthful(L, g.ref, FromHandle(AcceptanceUnknown, h, false, ""))
  {
  }

  lemma SharedIsGood(L: Semantics, g: Shared, p: Prepared)
    requires GoodShared(L, g) && p in g.prepared
    ensures Good(L, p) && (p.head != g.ref ==> Passed(p.head, g.ref))
  {
    hide Good, Within;
  }

  lemma ReconcilesInv(L: Semantics, faults: bool, g: Shared, p: Prepared, out: Outcome)
    requires PrepareReconciles(L, faults, g, p, out)
    ensures PrepareAnswered(L, g, out)
  {
    hide Recover;
    if L.replays(g.ref) && Recover(L, g.ref, p.handle.key, p.handle.eventId, p.handle.contentSha).Match? {
      MatchIsTruthful(L, g.ref, p.handle.key, p.handle.eventId, p.handle.contentSha, AlreadyAccepted);
    }
  }

  // --------------------------------------------------------------- the system

  lemma ProcStepInv(L: Semantics, faults: bool, g: Shared, g': Shared, p: Proc, p': Proc)
    requires Laws(L) && GoodShared(L, g) && ProcOk(L, g, p) && ProcStep(L, faults, g, g', p, p')
    ensures GoodShared(L, g') && Grows(L, g, g') && ProcOk(L, g', p')
    ensures MovedBy(p') == MovedBy(p) ||
            (MovedBy(p').Some? && !Within(MovedBy(p').value, g.ref) && Within(MovedBy(p').value, g'.ref))
  {
    hide GoodShared, Grows, LawfulReplay, LawfulNames, LawfulAdmission, AcceptOk, PrepareOk, PrepareStages,
      PreparePublishes, Within, AcceptStep;
    match p
    case Accept(_, _, _) => AcceptStepInv(L, faults, g, g', p, p');
    case Prepare(req, pc) =>
      if PrepareStages(L, faults, g, g', req, pc, p'.ppc) {
        PrepareStagesInv(L, faults, g, g', req, pc, p'.ppc);
      } else {
        PreparePublishesInv(L, faults, g, g', req, pc, p'.ppc);
      }
  }

  /** A commit an invocation moved the ref to is in the history. */
  lemma MovedIsWithin(L: Semantics, g: Shared, p: Proc)
    requires ProcOk(L, g, p) && MovedBy(p).Some?
    ensures Within(MovedBy(p).value, g.ref)
  {
    hide Within, Validated, Backed, Truthful, BackedHead, Passed;
  }

  lemma RunInv(L: Semantics, faults: bool, s: State, s': State, i: nat)
    requires Laws(L) && Inv(L, s) && Step(L, faults, s, s', Run(i))
    ensures Inv(L, s') && Grows(L, s.g, s'.g)
  {
    hide GoodShared, Grows, LawfulNames, LawfulAdmission, LawfulReplay, ProcOk, ProcStep, Within;
    ProcStepInv(L, faults, s.g, s'.g, s.procs[i], s'.procs[i]);
    forall j | j in s'.procs ensures ProcOk(L, s'.g, s'.procs[j]) {
      if j != i {
        ProcOkGrows(L, s.g, s'.g, s.procs[j]);
      }
    }
    forall j | j in s.procs && j != i && MovedBy(s.procs[j]).Some? ensures Within(MovedBy(s.procs[j]).value, s.g.ref) {
      MovedIsWithin(L, s.g, s.procs[j]);
    }
  }

  lemma OtherStepInv(L: Semantics, faults: bool, s: State, s': State, a: Action)
    requires Laws(L) && Inv(L, s) && Step(L, faults, s, s', a) && !a.Run?
    ensures Inv(L, s') && Grows(L, s.g, s'.g)
  {
    hide GoodShared, Grows, LawfulNames, LawfulAdmission, LawfulReplay, Within, SizedHandle;
    RefIsWithin(s.g.ref);
    if a.Foreign? {
      SharedAdvances(L, s.g, s'.g.ref);
    } else {
      SharedShrinks(L, s.g, s'.g);
    }
    forall j | j in s.procs ensures ProcOk(L, s'.g, s.procs[j]) {
      ProcOkGrows(L, s.g, s'.g, s.procs[j]);
    }
  }

  lemma StepInv(L: Semantics, faults: bool, s: State, s': State, a: Action)
    requires Laws(L) && Inv(L, s) && Step(L, faults, s, s', a)
    ensures Inv(L, s') && Grows(L, s.g, s'.g)
  {
    if a.Run? {
      RunInv(L, faults, s, s', a.i);
    } else {
      OtherStepInv(L, faults, s, s', a);
    }
  }

  lemma InitInv(L: Semantics, s: State)
    requires Init(L, s)
    ensures Inv(L, s)
  {
  }
}
