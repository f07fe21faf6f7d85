/**
 What one invocation does when nothing fails and nobody else moves: chains of the
 protocol's own steps, from the first to the answer.
 */
module SoloRuns {
  import opened Wrappers
  import opened Text
  import opened Git
  import opened Acceptance
  import opened Protocol
  import opened ProtocolInv
  import opened ProtocolSteps
  import opened ProtocolCleanup
  import BindingId

  // ------------------------------------------------------- runs of one process

  ghost predicate Reaches(L: Semantics, n: nat, g0: Shared, p0: Proc, g: Shared, p: Proc) {
    if n == 0 then g == g0 && p == p0
    else exists g1, p1 :: Reaches(L, n - 1, g0, p0, g1, p1) && ProcStep(L, false, g1, g, p1, p)
  }

  ghost predicate Performs(L: Semantics, g0: Shared, p0: Proc, g: Shared, p: Proc) {
    exists n: nat :: Reaches(L, n, g0, p0, g, p)
  }

  lemma Begins(L: Semantics, g: Shared, p: Proc)
    ensures Performs(L, g, p, g, p)
  {
    assert Reaches(L, 0, g, p, g, p);
  }

  lemma ThenSteps(L: Semantics, g0: Shared, p0: Proc, g1: Shared, p1: Proc, g: Shared, p: Proc)
    requires Performs(L, g0, p0, g1, p1) && ProcStep(L, false, g1, g, p1, p)
    ensures Performs(L, g0, p0, g, p)
  {
    hide ProcStep;
    var n: nat :| Reaches(L, n, g0, p0, g1, p1);
    assert Reaches(L, n + 1, g0, p0, g, p);
  }

  // ------------------------------------------------------------ when it works

  /** What Accept needs to find: a fresh key, the expected head, and a candidate that passes every check. */
  ghost predicate Acceptable(L: Semantics, g: Shared, h: Handle, c: Commit) {
    && Recover(L, g.ref, h.key, h.eventId, h.contentSha) == Absent
    && L.id(g.ref) == ToLower(h.expectedHead)
    && PreflightPasses(L, g, h, g.ref, c) && ReadPasses(L, g, h)
    && L.admits(g.ref, c, h, g.quarantine[h.quarantineId])
  }

  /** Acceptance by an undisturbed run: the ref moves, the capability goes, the answer names the event. */
  ghost predicate AcceptedBy(L: Semantics, g: Shared, h: Handle, c: Commit, g': Shared, out: Outcome) {
    && g' == g.(ref := c, quarantine := g.quarantine - {h.quarantineId})
    && L.replays(c) && |L.events(c)| == |L.events(g.ref)| + 1
    && out == Respond(FromEntry(L, Accepted, c, L.events(c)[|L.events(g.ref)|]), NoError)
    && L.events(c) == L.events(g.ref) + [L.events(c)[|L.events(g.ref)|]]
    && Describes(L, h, L.events(c)[|L.events(g.ref)|])
  }

  lemma AdmittedExtends(L: Semantics, g: Shared, h: Handle, c: Commit)
    requires Laws(L) && L.replays(g.ref) && Acceptable(L, g, h, c)
    ensures Extends(L, g.ref, c, h, g.quarantine[h.quarantineId])
    ensures Within(c, c) && Find(L.events(c), h.key) == Some(L.events(c)[|L.events(g.ref)|])
  {
    hide LawfulNames, LawfulReplay, PreflightPasses, Bound, Find;
    RecoverAbsent(L, g.ref, h.key, h.eventId, h.contentSha);
    var bytes := g.quarantine[h.quarantineId];
    assert L.admits(g.ref, c, h, bytes);
    NewEventIsFound(L, g.ref, c, h, bytes);
  }

  lemma NewEventIsFound(L: Semantics, head: Commit, c: Commit, h: Handle, bytes: string)
    requires LawfulReplay(L) && Extends(L, head, c, h, bytes)
    ensures Find(L.events(c), h.key) == Some(L.events(c)[|L.events(head)|])
  {
    hide Find, Within;
    assert ReplayLaw(L, c);
    FindIsThe(L.events(c), L.events(c)[|L.events(head)|]);
  }

  // ------------------------------------------------------------- preparation

  lemma StartSteps(L: Semantics, g: Shared, req: Request, doc: Doc)
    requires L.replays(g.ref) && L.candidate(req.event) == Some(doc)
    requires Recover(L, g.ref, doc.key, doc.eventId, doc.contentSha) == Absent
    ensures L.prepares(g.ref, req) ==> ProcStep(L, false, g, g, Prepare(req, PStart), Prepare(req, PStage(g.ref, doc)))
  {
    hide Recover;
  }

  lemma StageSteps(L: Semantics, g: Shared, req: Request, doc: Doc, stage: string)
    requires IsStage(stage) && stage !in g.quarantine
    ensures var g1 := g.(quarantine := g.quarantine[stage := req.event]);
            && ProcStep(L, false, g, g1, Prepare(req, PStage(g.ref, doc)), Prepare(req, PReadStage(g.ref, doc, stage)))
            && ProcStep(L, false, g1, g1, Prepare(req, PReadStage(g.ref, doc, stage)), Prepare(req, PBuild(g.ref, doc, stage)))
            && (L.builds(g.ref, req).None? ==>
                  ProcStep(L, false, g1, g1, Prepare(req, PBuild(g.ref, doc, stage)), Prepare(req, PDone(Fail(OtherFailure)))))
  {
    hide IsStage;
  }

  lemma BuildStep(L: Semantics, g: Shared, req: Request, doc: Doc, c: Commit, stage: string)
    requires L.builds(g.ref, req) == Some(c)
    ensures ProcStep(L, false, g, g.(objects := g.objects + {c}), Prepare(req, PBuild(g.ref, doc, stage)),
                     Prepare(req, PBind(Prepared(g.ref, c, HandleFor(L, g.ref, c, req, doc), req.event), stage)))
  {
    hide HandleFor;
  }

  lemma BindStep(L: Semantics, g: Shared, req: Request, p: Prepared, stage: string)
    requires p.handle.quarantineId in g.quarantine ==> g.quarantine[p.handle.quarantineId] == p.bytes
    ensures ProcStep(L, false, g,
                     g.(quarantine := g.quarantine[p.handle.quarantineId := p.bytes], prepared := g.prepared + {p}),
                     Prepare(req, PBind(p, stage)), Prepare(req, PReadBound(p, stage)))
  {
  }

  lemma BoundSteps(L: Semantics, g: Shared, req: Request, p: Prepared, stage: string)
    requires p.handle.quarantineId in g.quarantine && g.quarantine[p.handle.quarantineId] == p.bytes
    ensures ProcStep(L, false, g, g, Prepare(req, PReadBound(p, stage)), Prepare(req, PRemoveStage(p, stage)))
    ensures ProcStep(L, false, g, g.(quarantine := g.quarantine - {stage}),
                     Prepare(req, PRemoveStage(p, stage)), Prepare(req, PReconcile(p)))
  {
  }

  lemma ReconcileStep(L: Semantics, g: Shared, req: Request, p: Prepared)
    requires g.ref == p.head
    ensures ProcStep(L, false, g, g, Prepare(req, PReconcile(p)),
                     Prepare(req, PDone(Outcome(Some(p.handle), None, NoError))))
  {
  }

  lemma SnapshotIsOk(L: Semantics, g: Shared, req: Request, doc: Doc)
    requires GoodShared(L, g) && L.candidate(req.event) == Some(doc) && L.prepares(g.ref, req)
    requires Recover(L, g.ref, doc.key, doc.eventId, doc.contentSha) == Absent
    ensures PrepareSnapshotOk(L, g, req, g.ref, doc)
  {
    hide GoodShared, Find;
    RefReplays(L, g);
    RecoverAbsent(L, g.ref, doc.key, doc.eventId, doc.contentSha);
    RefIsWithin(g.ref);
  }

  /** Under the invariant a bound name already on disk holds the candidate's own bytes. */
  lemma BuiltNameIsFree(L: Semantics, g: Shared, p: Prepared)
    requires Laws(L) && GoodShared(L, g) && Good(L, p)
    ensures p.handle.quarantineId in g.quarantine ==> g.quarantine[p.handle.quarantineId] == p.bytes
  {
    hide Good, IsStage, LawfulNames, LawfulReplay, LawfulAdmission, Within;
    GoodNameIsNoStage(L, p);
    if p.handle.quarantineId in g.quarantine {
      var x :| x in g.prepared && x.handle.quarantineId == p.handle.quarantineId &&
               x.bytes == g.quarantine[p.handle.quarantineId];
      OneCandidatePerName(L, x, p);
    }
  }

  lemma GoodAfterPrepare(L: Semantics, g: Shared, g': Shared, req: Request, doc: Doc, c: Commit)
    requires Laws(L) && GoodShared(L, g) && PrepareSnapshotOk(L, g, req, g.ref, doc) && L.builds(g.ref, req) == Some(c)
    requires var h := HandleFor(L, g.ref, c, req, doc);
             g' == Shared(g.objects + {c}, g.ref, g.quarantine[h.quarantineId := req.event],
                          g.prepared + {Prepared(g.ref, c, h, req.event)})
    ensures GoodShared(L, g')
  {
    hide Laws, GoodShared, HandleFor, Good, PrepareSnapshotOk, Grows;
    BuiltIsGood(L, g, req, g.ref, doc);
    var p := Prepared(g.ref, c, HandleFor(L, g.ref, c, req, doc), req.event);
    BuiltNameIsFree(L, g, p);
    RefIsWithin(g.ref);
    PublishInv(L, g, p);
    var g1 := g.(quarantine := g.quarantine[p.handle.quarantineId := p.bytes], prepared := g.prepared + {p});
    SharedShrinks(L, g1, g');
  }

  /** A handle Prepare has just given out is acceptable while the head stands. */
  lemma PreparedIsAcceptable(L: Semantics, g: Shared, req: Request, doc: Doc, c: Commit)
    requires Laws(L) && L.candidate(req.event) == Some(doc) && L.prepares(g.ref, req) && L.builds(g.ref, req) == Some(c)
    requires Recover(L, g.ref, doc.key, doc.eventId, doc.contentSha) == Absent
    requires c in g.objects
    requires var h := HandleFor(L, g.ref, c, req, doc);
             h.quarantineId in g.quarantine && g.quarantine[h.quarantineId] == req.event
    ensures var h := HandleFor(L, g.ref, c, req, doc);
            && Acceptable(L, g, h, c) && SizedHandle(h)
            && h.commit == L.id(c) && h.path == req.path
  {
    hide LawfulReplay, BindingId.Id, BindingId.Sized, Recover;
    var h := HandleFor(L, g.ref, c, req, doc);
    assert L.admits(g.ref, c, h, req.event) && L.preflights(g.ref, c, h);
    assert h.key == doc.key && h.eventId == doc.eventId && h.contentSha == doc.contentSha;
    assert L.id(g.ref) == ToLower(h.expectedHead) && L.id(c) == ToLower(h.commit);
  }

  lemma AcceptedAnswer(L: Semantics, g: Shared, h: Handle, c: Commit, g': Shared, out: Outcome, bytes: string)
    requires Laws(L) && L.replays(g.ref) && Acceptable(L, g, h, c) && g.quarantine[h.quarantineId] == bytes
    requires AcceptedBy(L, g, h, c, g', out)
    ensures g'.ref == c && g'.quarantine == g.quarantine - {h.quarantineId} && Extends(L, g.ref, c, h, bytes)
    ensures out.response.Some? && out.err == NoError
    ensures var r := out.response.value;
            && r.status == Accepted && r.acceptedCommit == L.id(c) == r.ledgerCommit
            && r.eventId == h.eventId && r.key == h.key && r.path == h.path && r.contentSha == h.contentSha
  {
    hide LawfulNames, LawfulReplay, LawfulAdmission, Acceptable, Find;
    AdmittedExtends(L, g, h, c);
  }

  // ----------------------------------------------------------- single steps

  lemma SnapshotAnswers(L: Semantics, g: Shared, h: Handle, err: Error)
    requires L.replays(g.ref) && Recover(L, g.ref, h.key, h.eventId, h.contentSha) == Absent
    ensures SnapshotRecovery(L, false, g, h, err, Fail(err))
  {
  }

  lemma AcceptableSteps(L: Semantics, g: Shared, h: Handle, c: Commit)
    requires Acceptable(L, g, h, c)
    ensures AcceptChecks(L, false, g, h, APreflight(g.ref), ARead(g.ref, c))
    ensures AcceptChecks(L, false, g, h, ARead(g.ref, c), AValidate(g.ref, c, g.quarantine[h.quarantineId]))
    ensures AcceptChecks(L, false, g, h, AValidate(g.ref, c, g.quarantine[h.quarantineId]), ACasCheck(g.ref, c))
    ensures CompareAndSwap(L, false, g, h, ACasCheck(g.ref, c), AUpdate(g.ref, c))
  {
    hide PreflightPasses, Recover;
  }

  lemma SwapSteps(L: Semantics, g: Shared, h: Handle, c: Commit)
    ensures UpdateRef(g, g.(ref := c), Accept(h, AUpdate(g.ref, c), None), Accept(h, ARecoverSuccess(g.ref, c), Some(c)))
    ensures CompareAndSwap(L, false, g.(ref := c), h, ARecoverSuccess(g.ref, c), AVerify(g.ref, c))
  {
  }

  lemma ExtendsParts(L: Semantics, head: Commit, c: Commit, h: Handle, bytes: string)
    requires Extends(L, head, c, h, bytes)
    ensures L.replays(c) && c.parents == [head] && |L.events(c)| == |L.events(head)| + 1
    ensures var e := L.events(c)[|L.events(head)|];
            && e.commit == c && Describes(L, h, e) && L.events(c) == L.events(head) + [e]
  {
  }

  lemma VerifyStep(L: Semantics, g: Shared, h: Handle, h0: Commit, c: Commit)
    requires g.ref == c && L.replays(c) && Find(L.events(c), h.key).Some?
    requires var e := Find(L.events(c), h.key).value;
             L.id(e.commit) == h.commit && e.doc.contentSha == h.contentSha && e.doc.eventId == h.eventId
    ensures AcceptRecovers(L, false, g, h, AVerify(h0, c),
                           ARemove(h0, FromEntry(L, Accepted, c, Find(L.events(c), h.key).value)))
  {
    hide Find;
  }

  lemma RemoveStep(L: Semantics, g: Shared, h: Handle, h0: Commit, response: Response, moved: Option<Commit>)
    ensures AcceptCleans(false, g, g.(quarantine := g.quarantine - {h.quarantineId}), h, ARemove(h0, response),
                         ADone(Respond(response, NoError)))
  {
  }

  lemma NothingPasses(L: Semantics, g: Shared, h: Handle, h0: Commit)
    requires forall c | c in g.objects :: !(L.id(c) == ToLower(h.commit) && L.preflights(h0, c, h) && Bound(L, h))
    ensures !exists c :: PreflightPasses(L, g, h, h0, c)
  {
    hide Bound;
  }

  lemma OnlyOneNamed(L: Semantics, g: Shared, h: Handle, c: Commit)
    requires Laws(L) && PreflightPasses(L, g, h, g.ref, c)
    ensures forall x | Acceptable(L, g, h, x) :: x == c
  {
    hide LawfulReplay, LawfulAdmission, Bound, Recover, ReadPasses;
  }

  lemma AcceptedIsNew(L: Semantics, g: Shared, h: Handle, c: Commit)
    requires Laws(L) && L.replays(g.ref) && Acceptable(L, g, h, c)
    ensures c != g.ref
  {
    hide LawfulNames, LawfulReplay, LawfulAdmission, Acceptable, Find;
    AdmittedExtends(L, g, h, c);
  }

  // ------------------------------------------------------------- whole runs

  /** Shared state after a candidate's publication. */
  function Published(g: Shared, p: Prepared): Shared {
    Shared(g.objects + {p.commit}, g.ref, g.quarantine[p.handle.quarantineId := p.bytes], g.prepared + {p})
  }

  /** A request valid at the head, which Git turned into `c`. */
  ghost predicate Valid(L: Semantics, g: Shared, req: Request, doc: Doc, c: Commit) {
    && L.candidate(req.event) == Some(doc) && Recover(L, g.ref, doc.key, doc.eventId, doc.contentSha) == Absent
    && L.prepares(g.ref, req) && L.builds(g.ref, req) == Some(c)
  }

  /** The candidate a valid request becomes. */
  function CandidateOf(L: Semantics, g: Shared, req: Request, doc: Doc, c: Commit): Prepared {
    Prepared(g.ref, c, HandleFor(L, g.ref, c, req, doc), req.event)
  }

  lemma CandidateIsGood(L: Semantics, g: Shared, req: Request, doc: Doc, c: Commit)
    requires Laws(L) && GoodShared(L, g) && Valid(L, g, req, doc, c)
    ensures var p := CandidateOf(L, g, req, doc, c);
            && Good(L, p) && !IsStage(p.handle.quarantineId)
            && (p.handle.quarantineId in g.quarantine ==> g.quarantine[p.handle.quarantineId] == p.bytes)
  {
    hide Laws, GoodShared, Good, HandleFor, IsStage, PrepareSnapshotOk, Recover;
    SnapshotIsOk(L, g, req, doc);
    BuiltIsGood(L, g, req, g.ref, doc);
    var p := CandidateOf(L, g, req, doc, c);
    GoodNameIsNoStage(L, p);
    BuiltNameIsFree(L, g, p);
  }

  /** Prepare of a valid request gets as far as its last look at the head, its capability published. */
  lemma PrepareReachesReconcile(L: Semantics, g: Shared, req: Request, doc: Doc, c: Commit, stage: string)
    requires Laws(L) && GoodShared(L, g) && Valid(L, g, req, doc, c) && IsStage(stage) && stage !in g.quarantine
    ensures var p := CandidateOf(L, g, req, doc, c);
            && Performs(L, g, Prepare(req, PStart), Published(g, p), Prepare(req, PReconcile(p)))
            && GoodShared(L, Published(g, p))
  {
    hide Laws, GoodShared, Performs, Good, IsStage, HandleFor, ProcStep, Recover;
    var p, start := CandidateOf(L, g, req, doc, c), Prepare(req, PStart);
    CandidateIsGood(L, g, req, doc, c);
    RefReplays(L, g);
    Begins(L, g, start);
    StartSteps(L, g, req, doc);
    ThenSteps(L, g, start, g, start, g, Prepare(req, PStage(g.ref, doc)));
    var g1 := g.(quarantine := g.quarantine[stage := req.event]);
    StageSteps(L, g, req, doc, stage);
    ThenSteps(L, g, start, g, Prepare(req, PStage(g.ref, doc)), g1, Prepare(req, PReadStage(g.ref, doc, stage)));
    var built := Prepare(req, PBuild(g.ref, doc, stage));
    ThenSteps(L, g, start, g1, Prepare(req, PReadStage(g.ref, doc, stage)), g1, built);
    var g2 := g1.(objects := g1.objects + {c});
    BuildStep(L, g1, req, doc, c, stage);
    ThenSteps(L, g, start, g1, built, g2, Prepare(req, PBind(p, stage)));
    var g3 := g2.(quarantine := g2.quarantine[p.handle.quarantineId := p.bytes], prepared := g2.prepared + {p});
    BindStep(L, g2, req, p, stage);
    ThenSteps(L, g, start, g2, Prepare(req, PBind(p, stage)), g3, Prepare(req, PReadBound(p, stage)));
    BoundSteps(L, g3, req, p, stage);
    ThenSteps(L, g, start, g3, Prepare(req, PReadBound(p, stage)), g3, Prepare(req, PRemoveStage(p, stage)));
    var g4 := g3.(quarantine := g3.quarantine - {stage});
    assert g4.quarantine == g.quarantine[p.handle.quarantineId := p.bytes];
    ThenSteps(L, g, start, g3, Prepare(req, PRemoveStage(p, stage)), g4, Prepare(req, PReconcile(p)));
    PublicationIsGood(L, g, req, doc, c);
  }

  lemma PublicationIsGood(L: Semantics, g: Shared, req: Request, doc: Doc, c: Commit)
    requires Laws(L) && GoodShared(L, g) && Valid(L, g, req, doc, c)
    ensures GoodShared(L, Published(g, CandidateOf(L, g, req, doc, c)))
  {
    hide Laws, GoodShared, HandleFor, PrepareSnapshotOk, Recover;
    SnapshotIsOk(L, g, req, doc);
    GoodAfterPrepare(L, g, Published(g, CandidateOf(L, g, req, doc, c)), req, doc, c);
  }

  /** And from there hands out the handle. */
  lemma PrepareSucceeds(L: Semantics, g: Shared, req: Request, doc: Doc, c: Commit, stage: string)
    requires Laws(L) && GoodShared(L, g) && Valid(L, g, req, doc, c) && IsStage(stage) && stage !in g.quarantine
    ensures var p := CandidateOf(L, g, req, doc, c);
            && Performs(L, g, Prepare(req, PStart), Published(g, p),
                        Prepare(req, PDone(Outcome(Some(p.handle), None, NoError))))
            && GoodShared(L, Published(g, p))
  {
    hide Laws, GoodShared, Performs, IsStage, HandleFor, ProcStep, Valid;
    var p := CandidateOf(L, g, req, doc, c);
    PrepareReachesReconcile(L, g, req, doc, c, stage);
    ReconcileStep(L, Published(g, p), req, p);
    ThenSteps(L, g, Prepare(req, PStart), Published(g, p), Prepare(req, PReconcile(p)), Published(g, p),
              Prepare(req, PDone(Outcome(Some(p.handle), None, NoError))));
  }

  /** A handle given out by Prepare is acceptable while its head stands. */
  lemma PublishedIsAcceptable(L: Semantics, g: Shared, req: Request, doc: Doc, c: Commit)
    requires Laws(L) && Valid(L, g, req, doc, c)
    ensures var p := CandidateOf(L, g, req, doc, c);
            && Acceptable(L, Published(g, p), p.handle, c) && SizedHandle(p.handle) && p.handle.commit == L.id(c)
  {
    hide Laws, HandleFor, Recover, Acceptable, SizedHandle;
    PreparedIsAcceptable(L, Published(g, CandidateOf(L, g, req, doc, c)), req, doc, c);
  }

  /** Accept of an acceptable handle gets as far as the swap's own look at the head. */
  lemma AcceptReachesSwap(L: Semantics, g: Shared, h: Handle, c: Commit)
    requires L.replays(g.ref) && Acceptable(L, g, h, c)
    ensures Performs(L, g, Accept(h, AStart, None), g, Accept(h, ACasCheck(g.ref, c), None))
  {
    hide Performs, Recover, PreflightPasses, ReadPasses;
    var start, bytes := Accept(h, AStart, None), BytesHeld(L, g, h, c);
    Begins(L, g, start);
    AcceptableSteps(L, g, h, c);
    ThenSteps(L, g, start, g, start, g, Accept(h, APreflight(g.ref), None));
    ThenSteps(L, g, start, g, Accept(h, APreflight(g.ref), None), g, Accept(h, ARead(g.ref, c), None));
    ThenSteps(L, g, start, g, Accept(h, ARead(g.ref, c), None), g, Accept(h, AValidate(g.ref, c, bytes), None));
    ThenSteps(L, g, start, g, Accept(h, AValidate(g.ref, c, bytes), None), g, Accept(h, ACasCheck(g.ref, c), None));
  }

  function AnswerFor(L: Semantics, g: Shared, c: Commit): Outcome
    requires |L.events(g.ref)| < |L.events(c)|
  {
    Respond(FromEntry(L, Accepted, c, L.events(c)[|L.events(g.ref)|]), NoError)
  }

  /** And then succeeds. */
  lemma AcceptSucceeds(L: Semantics, g: Shared, h: Handle, c: Commit)
    requires Laws(L) && L.replays(g.ref) && Acceptable(L, g, h, c) && L.id(c) == h.commit
    ensures |L.events(g.ref)| < |L.events(c)|
    ensures var g' := g.(ref := c, quarantine := g.quarantine - {h.quarantineId});
            && AcceptedBy(L, g, h, c, g', AnswerFor(L, g, c))
            && Performs(L, g, Accept(h, AStart, None), g', Accept(h, ADone(AnswerFor(L, g, c)), Some(c)))
  {
    hide Laws, Performs, PreflightPasses, Find, Recover, Within, Acceptable, Extends;
    var start, h0, bytes := Accept(h, AStart, None), g.ref, BytesHeld(L, g, h, c);
    AdmittedExtends(L, g, h, c);
    ExtendsParts(L, h0, c, h, bytes);
    AcceptReachesSwap(L, g, h, c);
    AcceptableSteps(L, g, h, c);
    ThenSteps(L, g, start, g, Accept(h, ACasCheck(h0, c), None), g, Accept(h, AUpdate(h0, c), None));
    var g1 := g.(ref := c);
    SwapSteps(L, g, h, c);
    ThenSteps(L, g, start, g, Accept(h, AUpdate(h0, c), None), g1, Accept(h, ARecoverSuccess(h0, c), Some(c)));
    ThenSteps(L, g, start, g1, Accept(h, ARecoverSuccess(h0, c), Some(c)), g1, Accept(h, AVerify(h0, c), Some(c)));
    VerifyStep(L, g1, h, h0, c);
    var response := AnswerFor(L, g, c).response.value;
    ThenSteps(L, g, start, g1, Accept(h, AVerify(h0, c), Some(c)), g1, Accept(h, ARemove(h0, response), Some(c)));
    var g2 := g1.(quarantine := g1.quarantine - {h.quarantineId});
    RemoveStep(L, g1, h, h0, response, Some(c));
    ThenSteps(L, g, start, g1, Accept(h, ARemove(h0, response), Some(c)), g2,
              Accept(h, ADone(AnswerFor(L, g, c)), Some(c)));
  }

  ghost function BytesHeld(L: Semantics, g: Shared, h: Handle, c: Commit): string
    requires Acceptable(L, g, h, c)
  {
    g.quarantine[h.quarantineId]
  }

  /** Accept of a handle whose snapshot is right but whose candidate fails a check answers with that check's error. */
  lemma AcceptRefuses(L: Semantics, g: Shared, h: Handle, err: Error)
    requires L.replays(g.ref) && Recover(L, g.ref, h.key, h.eventId, h.contentSha) == Absent
    requires L.id(g.ref) == ToLower(h.expectedHead) && !exists c :: Acceptable(L, g, h, c)
    requires if exists c :: PreflightPasses(L, g, h, g.ref, c) then err == CandidateInvalid
             else PreflightFailure(L, g.ref, h, err)
    ensures Performs(L, g, Accept(h, AStart, None), g, Accept(h, ADone(Fail(err)), None))
  {
    hide Performs, Recover, PreflightPasses;
    var start, failed := Accept(h, AStart, None), Accept(h, ASnapshotFailed(err), None);
    Begins(L, g, start);
    var at := Accept(h, APreflight(g.ref), None);
    ThenSteps(L, g, start, g, start, g, at);
    if c :| PreflightPasses(L, g, h, g.ref, c) {
      var read := Accept(h, ARead(g.ref, c), None);
      ThenSteps(L, g, start, g, at, g, read);
      if ReadPasses(L, g, h) {
        var bytes := g.quarantine[h.quarantineId];
        assert !Acceptable(L, g, h, c);
        ThenSteps(L, g, start, g, read, g, Accept(h, AValidate(g.ref, c, bytes), None));
        ThenSteps(L, g, start, g, Accept(h, AValidate(g.ref, c, bytes), None), g, failed);
      } else {
        ThenSteps(L, g, start, g, read, g, failed);
      }
    } else {
      ThenSteps(L, g, start, g, at, g, failed);
    }
    SnapshotAnswers(L, g, h, err);
    ThenSteps(L, g, start, g, failed, g, Accept(h, ADone(Fail(err)), None));
  }
}
