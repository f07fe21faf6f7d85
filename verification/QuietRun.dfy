/**
 Prepare and Accept as one process runs them when nothing interferes and nothing
 fails: statement by statement on the ref, the object store and the quarantine.
 Each run is also a run of the protocol's own steps.
 */
module QuietRun {
  import opened Wrappers
  import opened Text
  import opened Git
  import opened Acceptance
  import opened Protocol
  import opened ProtocolInv
  import opened ProtocolSteps
  import opened SoloRuns
  import BindingId

  /** Why Accept refuses a handle whose snapshot is right. */
  function HandleRefusal(L: Semantics, head: Commit, h: Handle): Error {
    if CompleteHandle(h) && HasEvent(L.events(head), h.eventId) then EventIdConflict else CandidateInvalid
  }

  /** Why Prepare refuses a request whose key is free at the snapshot. */
  function RequestRefusal(L: Semantics, head: Commit, req: Request, doc: Doc): Error {
    if HasEvent(L.events(head), doc.eventId) then EventIdConflict
    else if ToLower(req.expectedHead) != L.id(head) then StaleState
    else if doc.expectedHead != L.id(head) then OtherFailure
    else CandidateInvalid
  }

  /** The names left once the capability of an accepted event is cleaned up, and the error if it has no name. */
  function Cleaned(quarantine: map<string, string>, name: Option<string>): map<string, string> {
    if name.Some? then quarantine - {name.value} else quarantine
  }

  function CleanError(name: Option<string>): Error {
    if name.Some? then NoError else CleanupFailed
  }

  class Repository {
    const L: Semantics
    var objects: set<Commit>
    var ref: Commit
    var quarantine: map<string, string>
    ghost var prepared: set<Prepared>

    ghost function Shares(): Shared
      reads this
    {
      Shared(objects, ref, quarantine, prepared)
    }

    constructor (L: Semantics, ref: Commit)
      ensures this.L == L && this.ref == ref && objects == {ref} && quarantine == map[] && prepared == {}
    {
      this.L := L;
      this.ref := ref;
      objects := {ref};
      quarantine := map[];
      prepared := {};
    }

    /** acceptWriteCandidate. */
    method AcceptWriteCandidate(h: Handle) returns (out: Outcome)
      requires Laws(L) && GoodShared(L, Shares()) && SizedHandle(h)
      modifies this
      ensures Performs(L, old(Shares()), Accept(h, AStart, None), Shares(),
                       Accept(h, ADone(out), if ref == old(ref) then None else Some(ref)))
      ensures (exists c :: Acceptable(L, old(Shares()), h, c)) <==> ref != old(ref)
      ensures forall c | Acceptable(L, old(Shares()), h, c) :: AcceptedBy(L, old(Shares()), h, c, Shares(), out)
      ensures ref == old(ref) ==>
                match Recover(L, ref, h.key, h.eventId, h.contentSha)
                case Conflict => out == Fail(IdempotencyConflict) && Shares() == old(Shares())
                case Match(e) =>
                  && out == Respond(FromEntry(L, AlreadyAccepted, ref, e), CleanError(AcceptedName(L, e, e.bytes)))
                  && Shares() == old(Shares()).(quarantine := Cleaned(old(quarantine), AcceptedName(L, e, e.bytes)))
                case Absent =>
                  && out == Fail(if L.id(ref) != ToLower(h.expectedHead) then StaleState else HandleRefusal(L, ref, h))
                  && Shares() == old(Shares())
    {
      hide Laws, Performs, PreflightPasses, Find, Within, AcceptedName, AcceptedBy, ReadPasses, SizedHandle, GoodShared,
        HandleRefusal;
      ghost var g := Shares();
      ghost var p := Accept(h, AStart, None);
      Begins(L, g, p);
      RefReplays(L, g);
      var recovered := Recover(L, ref, h.key, h.eventId, h.contentSha);
      match recovered {
        case Conflict =>
          out := Fail(IdempotencyConflict);
          ThenSteps(L, g, p, g, p, g, Accept(h, ADone(out), None));
        case Match(e) =>
          var response := FromEntry(L, AlreadyAccepted, ref, e);
          var name := AcceptedName(L, e, e.bytes);
          ghost var at := Accept(h, ACleanAccepted(response, name), None);
          ThenSteps(L, g, p, g, p, g, at);
          if name.Some? {
            quarantine := quarantine - {name.value};
          }
          out := Respond(response, CleanError(name));
          ThenSteps(L, g, p, g, at, Shares(), Accept(h, ADone(out), None));
        case Absent =>
          if L.id(ref) != ToLower(h.expectedHead) {
            out := Fail(StaleState);
            ThenSteps(L, g, p, g, p, g, Accept(h, ADone(out), None));
          } else {
            out := AcceptAtHead(h);
          }
      }
    }

    /** From the preflight on, with the key free and the head as expected. The object is looked up by its id. */
    method AcceptAtHead(h: Handle) returns (out: Outcome)
      requires Laws(L) && GoodShared(L, Shares()) && SizedHandle(h)
      requires Recover(L, ref, h.key, h.eventId, h.contentSha) == Absent && L.id(ref) == ToLower(h.expectedHead)
      modifies this
      ensures Performs(L, old(Shares()), Accept(h, AStart, None), Shares(),
                       Accept(h, ADone(out), if ref == old(ref) then None else Some(ref)))
      ensures (exists c :: Acceptable(L, old(Shares()), h, c)) <==> ref != old(ref)
      ensures forall c | Acceptable(L, old(Shares()), h, c) :: AcceptedBy(L, old(Shares()), h, c, Shares(), out)
      ensures ref == old(ref) ==> out == Fail(HandleRefusal(L, ref, h)) && Shares() == old(Shares())
    {
      hide LawfulReplay, LawfulNames, Performs, Find, Within, Recover, Bound, SizedHandle, GoodShared, HasEvent;
      ghost var g := Shares();
      RefReplays(L, g);
      out := Fail(HandleRefusal(L, ref, h));
      if c: Commit :| c in objects && L.id(c) == ToLower(h.commit) && L.preflights(ref, c, h) && Bound(L, h) {
        OnlyOneNamed(L, g, h, c);
        if h.quarantineId in quarantine && L.sha256(quarantine[h.quarantineId]) == h.quarantineSha &&
           |quarantine[h.quarantineId]| == h.quarantineSize && L.admits(ref, c, h, quarantine[h.quarantineId])
        {
          out := Move(h, c);
          return;
        }
      } else {
        NothingPasses(L, g, h, ref);
      }
      AcceptRefuses(L, g, h, out.err);
    }

    /** The swap, the fresh look at durable history, and the clean-up. */
    method Move(h: Handle, c: Commit) returns (out: Outcome)
      requires Laws(L) && GoodShared(L, Shares()) && SizedHandle(h) && Acceptable(L, Shares(), h, c)
      modifies this
      ensures AcceptedBy(L, old(Shares()), h, c, Shares(), out) && ref == c && c != old(ref)
      ensures Performs(L, old(Shares()), Accept(h, AStart, None), Shares(), Accept(h, ADone(out), Some(c)))
    {
      hide Laws, Performs, PreflightPasses, Find, Recover, Within, Extends, GoodShared, SizedHandle;
      ghost var g := Shares();
      RefReplays(L, g);
      AdmittedExtends(L, g, h, c);
      AcceptedIsNew(L, g, h, c);
      CapabilityNamesCommit(L, g, h, c);
      ref := c;
      var found := Find(L.events(ref), h.key);
      quarantine := quarantine - {h.quarantineId};
      out := Respond(FromEntry(L, Accepted, ref, found.value), NoError);
      AcceptSucceeds(L, g, h, c);
    }

    /** A request whose key is free at the snapshot. */
    method PrepareFresh(req: Request, stage: string, doc: Doc) returns (out: Outcome)
      requires Laws(L) && GoodShared(L, Shares()) && IsStage(stage) && stage !in quarantine
      requires L.candidate(req.event) == Some(doc) && Recover(L, ref, doc.key, doc.eventId, doc.contentSha) == Absent
      modifies this
      ensures ref == old(ref) && GoodShared(L, Shares())
      ensures Performs(L, old(Shares()), Prepare(req, PStart), Shares(), Prepare(req, PDone(out)))
      ensures if !L.prepares(ref, req) then out == Fail(RequestRefusal(L, ref, req, doc)) && Shares() == old(Shares())
              else
                match L.builds(ref, req)
                case None =>
                  && out == Fail(OtherFailure)
                  && Shares() == old(Shares()).(quarantine := old(quarantine)[stage := req.event])
                case Some(c) =>
                  var p := CandidateOf(L, old(Shares()), req, doc, c);
                  out == Outcome(Some(p.handle), None, NoError) && Shares() == Published(old(Shares()), p)
    {
      hide Laws, GoodShared, Performs, IsStage, HandleFor, Recover, ProcStep, RequestRefusal;
      ghost var g := Shares();
      ghost var start := Prepare(req, PStart);
      Begins(L, g, start);
      RefReplays(L, g);
      if !L.prepares(ref, req) {
        out := Fail(RequestRefusal(L, ref, req, doc));
        RefusalStep(L, g, req, doc);
        ThenSteps(L, g, start, g, start, g, Prepare(req, PDone(out)));
        return;
      }
      StartSteps(L, g, req, doc);
      quarantine := quarantine[stage := req.event];
      StageSteps(L, g, req, doc, stage);
      StageInv(L, g, Shares(), req.event);
      var staged := quarantine[stage];
      var built := L.builds(ref, req);
      if built.None? {
        out := Fail(OtherFailure);
        ThenSteps(L, g, start, g, start, g, Prepare(req, PStage(ref, doc)));
        ThenSteps(L, g, start, g, Prepare(req, PStage(ref, doc)), Shares(), Prepare(req, PReadStage(ref, doc, stage)));
        ThenSteps(L, g, start, Shares(), Prepare(req, PReadStage(ref, doc, stage)), Shares(),
                  Prepare(req, PBuild(ref, doc, stage)));
        ThenSteps(L, g, start, Shares(), Prepare(req, PBuild(ref, doc, stage)), Shares(), Prepare(req, PDone(out)));
        return;
      }
      var c := built.value;
      var h := HandleFor(L, ref, c, req, doc);
      CandidateIsGood(L, g, req, doc, c);
      objects := objects + {c};
      quarantine := quarantine[h.quarantineId := staged];
      prepared := prepared + {Prepared(ref, c, h, req.event)};
      quarantine := quarantine - {stage};
      out := Outcome(Some(h), None, NoError);
      assert quarantine == g.quarantine[h.quarantineId := req.event];
      PrepareSucceeds(L, g, req, doc, c, stage);
    }

    /** prepareWriteCandidate; `stage` is the fresh staging name. */
    method PrepareWriteCandidate(req: Request, stage: string) returns (out: Outcome)
      requires Laws(L) && GoodShared(L, Shares()) && IsStage(stage) && stage !in quarantine
      modifies this
      ensures ref == old(ref) && GoodShared(L, Shares())
      ensures Performs(L, old(Shares()), Prepare(req, PStart), Shares(), Prepare(req, PDone(out)))
      ensures match L.candidate(req.event)
              case None => out == Fail(CandidateInvalid) && Shares() == old(Shares())
              case Some(doc) =>
                match Recover(L, ref, doc.key, doc.eventId, doc.contentSha)
                case Conflict => out == Fail(IdempotencyConflict) && Shares() == old(Shares())
                case Match(e) =>
                  && out == Respond(FromEntry(L, AlreadyAccepted, ref, e), CleanError(AcceptedName(L, e, req.event)))
                  && Shares() == old(Shares()).(quarantine := Cleaned(old(quarantine), AcceptedName(L, e, req.event)))
                case Absent =>
                  if !L.prepares(ref, req) then
                    out == Fail(RequestRefusal(L, ref, req, doc)) && Shares() == old(Shares())
                  else
                    match L.builds(ref, req)
                    case None =>
                      && out == Fail(OtherFailure)
                      && Shares() == old(Shares()).(quarantine := old(quarantine)[stage := req.event])
                    case Some(c) =>
                      var p := CandidateOf(L, old(Shares()), req, doc, c);
                      out == Outcome(Some(p.handle), None, NoError) && Shares() == Published(old(Shares()), p)
    {
      hide Laws, GoodShared, Performs, IsStage, CandidateOf, AcceptedName, Recover, RequestRefusal;
      ghost var g := Shares();
      ghost var p := Prepare(req, PStart);
      Begins(L, g, p);
      RefReplays(L, g);
      if L.candidate(req.event).None? {
        out := Fail(CandidateInvalid);
        ThenSteps(L, g, p, g, p, g, Prepare(req, PDone(out)));
        return;
      }
      var doc := L.candidate(req.event).value;
      match Recover(L, ref, doc.key, doc.eventId, doc.contentSha) {
        case Conflict =>
          out := Fail(IdempotencyConflict);
          ThenSteps(L, g, p, g, p, g, Prepare(req, PDone(out)));
        case Match(e) =>
          var response := FromEntry(L, AlreadyAccepted, ref, e);
          var name := AcceptedName(L, e, req.event);
          ghost var at := Prepare(req, PCleanAccepted(response, name));
          ThenSteps(L, g, p, g, p, g, at);
          if name.Some? {
            quarantine := quarantine - {name.value};
            SharedShrinks(L, g, Shares());
          }
          out := Respond(response, CleanError(name));
          ThenSteps(L, g, p, g, at, Shares(), Prepare(req, PDone(out)));
        case Absent => out := PrepareFresh(req, stage, doc);
      }
    }

    /**
     A valid request, left alone, is prepared and accepted: the ref moves to the
     built commit, the history gains exactly the request's event, and no file of
     the exchange stays behind.
     */
    method Publish(req: Request, stage: string) returns (first: Outcome, second: Outcome)
      requires Laws(L) && GoodShared(L, Shares()) && IsStage(stage) && stage !in quarantine
      requires exists doc, c :: Valid(L, Shares(), req, doc, c)
      modifies this
      ensures first.handle.Some? && first.err == NoError && second.response.Some? && second.err == NoError
      ensures var h, r := first.handle.value, second.response.value;
              && r.status == Accepted && r.acceptedCommit == h.commit == L.id(ref) == r.ledgerCommit
              && r.eventId == h.eventId && r.key == h.key && r.path == h.path == req.path && r.contentSha == h.contentSha
              && L.builds(old(ref), req) == Some(ref) && Extends(L, old(ref), ref, h, req.event)
              && quarantine == old(quarantine) - {h.quarantineId}
    {
      hide Laws, GoodShared, Performs, IsStage, Recover, Acceptable, AcceptedBy, Extends, SizedHandle, HandleFor;
      ghost var g0 := Shares();
      ghost var doc, c :| Valid(L, g0, req, doc, c);
      PublishedIsAcceptable(L, g0, req, doc, c);
      HandleIsFor(L, ref, c, req, doc);
      first := PrepareWriteCandidate(req, stage);
      ghost var g := Shares();
      RefReplays(L, g);
      var h := first.handle.value;
      second := AcceptWriteCandidate(h);
      AcceptedAnswer(L, g, h, c, Shares(), second, req.event);
      assert quarantine == old(quarantine) - {h.quarantineId};
    }
  }

  lemma HandleIsFor(L: Semantics, head: Commit, c: Commit, req: Request, doc: Doc)
    ensures HandleFor(L, head, c, req, doc).path == req.path && HandleFor(L, head, c, req, doc).commit == L.id(c)
  {
  }

  lemma RefusalStep(L: Semantics, g: Shared, req: Request, doc: Doc)
    requires L.replays(g.ref) && L.candidate(req.event) == Some(doc) && !L.prepares(g.ref, req)
    requires Recover(L, g.ref, doc.key, doc.eventId, doc.contentSha) == Absent
    ensures ProcStep(L, false, g, g, Prepare(req, PStart), Prepare(req, PDone(Fail(RequestRefusal(L, g.ref, req, doc)))))
  {
    hide Recover, HasEvent;
  }

  /** A quarantined capability pins its handle's commit id, letter case included. */
  lemma CapabilityNamesCommit(L: Semantics, g: Shared, h: Handle, c: Commit)
    requires Laws(L) && GoodShared(L, g) && SizedHandle(h) && Acceptable(L, g, h, c)
    ensures L.id(c) == h.commit
  {
    hide LawfulReplay, LawfulAdmission, GoodShared, SizedHandle, Recover, Bound;
    CapabilityMeansPrepared(L, g, h, g.ref, c);
  }

  /** Retrying an accepted handle finds the same acceptance: same commit, same event, `already_accepted`. */
  lemma RetryFindsTheSame(L: Semantics, g: Shared, h: Handle, c: Commit, g': Shared, out: Outcome)
    requires Laws(L) && L.replays(g.ref) && Acceptable(L, g, h, c) && AcceptedBy(L, g, h, c, g', out)
    ensures Recover(L, g'.ref, h.key, h.eventId, h.contentSha).Match?
    ensures var e := Recover(L, g'.ref, h.key, h.eventId, h.contentSha).e;
            FromEntry(L, AlreadyAccepted, g'.ref, e) == out.response.value.(status := AlreadyAccepted)
  {
    hide LawfulNames, LawfulReplay, LawfulAdmission, Acceptable, Find;
    AdmittedExtends(L, g, h, c);
  }
}
