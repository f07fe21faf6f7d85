/** What every reachable state of the write protocol satisfies. */
module ProtocolInv {
  import opened Wrappers
  import opened Text
  import opened Git
  import opened Acceptance
  import opened Protocol
  import BindingId

  // --------------------------------------------------------------- histories

  /** Heads only move forward: what was accepted stays accepted. */
  lemma {:induction false} EventsGrow(L: Semantics, a: Commit, b: Commit)
    requires LawfulReplay(L) && L.replays(b) && Within(a, b)
    ensures L.replays(a) && L.events(a) <= L.events(b)
    decreases b
  {
    assert ReplayLaw(L, b);
    if a != b {
      EventsGrow(L, a, b.parents[0]);
    }
  }

  /** A commit whose own successor is already authoritative. */
  predicate Passed(c: Commit, ref: Commit) {
    Within(c, ref) && c != ref
  }

  lemma PassedGrows(L: Semantics, c: Commit, a: Commit, b: Commit)
    requires LawfulReplay(L) && L.replays(b) && Passed(c, a) && Within(a, b)
    ensures Passed(c, b)
  {
    assert ReplayLaw(L, b);
    WithinTransitive(c, a, b);
    WithinIsPrefix(a, b);
    WithinIsPrefix(c, a);
    if c == b {
      WithinIsPrefix(b, a);
    }
  }

  /** If a child is authoritative, its parent is passed. */
  lemma ChildPasses(L: Semantics, p: Commit, c: Commit, ref: Commit)
    requires LawfulReplay(L) && L.replays(ref) && c.parents == [p] && Within(c, ref)
    ensures Passed(p, ref)
  {
    assert ReplayLaw(L, ref);
    WithinIsPrefix(c, ref);
    assert Within(p, c);
    WithinTransitive(p, c, ref);
    if p == ref {
      NotWithinParent(c);
    }
  }

  // ---------------------------------------------------------------- lookups

  lemma {:induction false} FindFinds(events: seq<Entry>, key: string)
    ensures Find(events, key).Some? ==>
              Find(events, key).value in events && Find(events, key).value.doc.key == key && key != ""
    ensures Find(events, key).None? && key != "" ==> forall e | e in events :: e.doc.key != key
  {
    if events != [] {
      FindFinds(events[1..], key);
    }
  }

  lemma FindIsThe(events: seq<Entry>, e: Entry)
    requires DistinctEntries(events) && e in events && e.doc.key != ""
    ensures Find(events, e.doc.key) == Some(e)
  {
    FindFinds(events, e.doc.key);
    var x := Find(events, e.doc.key);
    if x.Some? {
      OneEntryPerKey(events, x.value, e);
    }
  }

  lemma OneEntryPerKey(events: seq<Entry>, a: Entry, b: Entry)
    requires DistinctEntries(events) && a in events && b in events
    requires (a.doc.key == b.doc.key != "") || a.doc.eventId == b.doc.eventId
    ensures a == b
  {
    var i :| 0 <= i < |events| && events[i] == a;
    var j :| 0 <= j < |events| && events[j] == b;
    assert !(i < j) && !(j < i);
  }

  // -------------------------------------------------------------- invariants

  predicate SameIdentity(a: Handle, b: Handle) {
    IdentityOf(a) == IdentityOf(b)
  }

  /** A candidate Prepare built and validated: the one event on top of its head, under its own name. */
  ghost predicate Good(L: Semantics, p: Prepared) {
    && L.replays(p.head) && Extends(L, p.head, p.commit, p.handle, p.bytes)
    && Bound(L, p.handle) && SizedHandle(p.handle)
    && p.handle.expectedHead == L.id(p.head) && p.handle.commit == L.id(p.commit)
    && p.handle.quarantineSha == L.sha256(p.bytes) && p.handle.quarantineSize == |p.bytes|
  }

  ghost predicate GoodShared(L: Semantics, g: Shared) {
    && L.replays(g.ref)
    && (forall p | p in g.prepared :: Good(L, p) && Within(p.head, g.ref))
    && (forall q | q in g.quarantine ::
          IsStage(q) || exists p :: p in g.prepared && p.handle.quarantineId == q && p.bytes == g.quarantine[q])
  }

  /** How shared state may change behind an invocation's back. */
  ghost predicate Grows(L: Semantics, g: Shared, g': Shared) {
    Within(g.ref, g'.ref) && L.replays(g'.ref) && g.prepared <= g'.prepared
  }

  /** The response names an entry of this history; an unknown outcome names no commit. */
  ghost predicate Truthful(L: Semantics, ref: Commit, r: Response) {
    if r.status == AcceptanceUnknown then r.acceptedCommit == ""
    else exists e :: e in L.events(ref) && Names(L, r, e)
  }

  predicate Names(L: Semantics, r: Response, e: Entry) {
    && L.id(e.commit) == r.acceptedCommit && e.path == r.path && e.doc.eventId == r.eventId
    && e.doc.key == r.key && e.doc.contentSha == r.contentSha
  }

  /** The published candidate behind a handle. */
  ghost predicate Backed(g: Shared, h: Handle, h0: Commit, c: Commit) {
    exists p :: p in g.prepared && SameIdentity(p.handle, h) && p.head == h0 && p.commit == c
  }

  ghost predicate BackedHead(g: Shared, h: Handle, h0: Commit) {
    exists p :: p in g.prepared && SameIdentity(p.handle, h) && p.head == h0
  }

  /** Accept's own validation of the commit it is about to publish. */
  ghost predicate Validated(L: Semantics, h: Handle, h0: Commit, c: Commit) {
    L.replays(h0) && c.parents == [h0] && L.id(c) == h.commit && exists bytes :: Extends(L, h0, c, h, bytes)
  }

  ghost predicate Armed(L: Semantics, g: Shared, h: Handle, h0: Commit, c: Commit) {
    Validated(L, h, h0, c) && Backed(g, h, h0, c) && Within(h0, g.ref) && Bound(L, h)
  }

  /** A clean-up name was derived from an accepted event of this history and some raw bytes. */
  ghost predicate NamesAccepted(L: Semantics, ref: Commit, name: Option<string>) {
    name.Some? ==> exists e, raw ::
      e in L.events(ref) && BindingId.Sized(AcceptedIdentity(L, e, raw)) && AcceptedName(L, e, raw) == name
  }

  /** The snapshot Accept works from. */
  ghost predicate Snapshot(L: Semantics, g: Shared, h: Handle, h0: Commit) {
    && L.replays(h0) && Within(h0, g.ref) && L.id(h0) == ToLower(h.expectedHead)
    && Find(L.events(h0), h.key).None?
  }

  predicate HonestError(err: Error) {
    err == NoError || err == CleanupFailed || err == VerificationFailed || err == RecoveryRequired
  }

  /** What Accept's answer means. */
  ghost predicate Answered(L: Semantics, g: Shared, moved: Option<Commit>, out: Outcome) {
    && out.handle.None?
    && (out.response.Some? ==> Truthful(L, g.ref, out.response.value))
    && (moved.Some? ==> Within(moved.value, g.ref) && out.response.Some? && HonestError(out.err))
    && (out.response.Some? && out.response.value.status == Accepted ==>
          moved.Some? && out.response.value.acceptedCommit == L.id(moved.value))
  }

  ghost predicate AcceptOk(L: Semantics, g: Shared, h: Handle, pc: AcceptPc, moved: Option<Commit>) {
    match pc
    case AStart => moved == None
    case ACleanAccepted(resp, name) =>
      moved == None && resp.status == AlreadyAccepted && Truthful(L, g.ref, resp) && NamesAccepted(L, g.ref, name)
    case APreflight(h0) => moved == None && Snapshot(L, g, h, h0)
    case ARead(h0, c) => moved == None && Snapshot(L, g, h, h0) && L.id(c) == ToLower(h.commit) && Bound(L, h)
    case AValidate(h0, c, bytes) =>
      && moved == None && Snapshot(L, g, h, h0) && Backed(g, h, h0, c) && L.id(c) == h.commit
      && exists p :: p in g.prepared && SameIdentity(p.handle, h) && p.bytes == bytes
    case ACasCheck(h0, c) => moved == None && Armed(L, g, h, h0, c)
    case AUpdate(h0, c) => moved == None && Armed(L, g, h, h0, c)
    case ARecoverSuccess(h0, c) => moved == Some(c) && Armed(L, g, h, h0, c) && Within(c, g.ref)
    case ARecoverError(h0, c) =>
      Armed(L, g, h, h0, c) && (moved == None || (moved == Some(c) && Within(c, g.ref)))
    case ASettle(h0, c) => moved == None && Armed(L, g, h, h0, c)
    case ARecoveredAcceptance(h0, c) =>
      Armed(L, g, h, h0, c) && Within(c, g.ref) && (moved == None || moved == Some(c))
    case AStale(h0, c) => moved == None && Armed(L, g, h, h0, c) && Passed(h0, g.ref)
    case AVerify(h0, c) => moved == Some(c) && Armed(L, g, h, h0, c) && Within(c, g.ref)
    case ARemove(h0, resp) =>
      && Answered(L, g, moved, Respond(resp, NoError)) && BackedHead(g, h, h0) && Passed(h0, g.ref) && Bound(L, h)
      && (resp.status == Accepted || resp.status == AlreadyAccepted)
    case ASnapshotFailed(err) => moved == None && SnapshotError(err)
    case ADone(out) => Answered(L, g, moved, out)
  }

  ghost predicate PrepareSnapshotOk(L: Semantics, g: Shared, req: Request, h0: Commit, doc: Doc) {
    && L.replays(h0) && Within(h0, g.ref) && L.candidate(req.event) == Some(doc) && L.prepares(h0, req)
    && Find(L.events(h0), doc.key).None?
  }

  /** What Prepare's answer means: it never claims to have accepted anything itself. */
  ghost predicate PrepareAnswered(L: Semantics, g: Shared, out: Outcome) {
    && (out.response.Some? ==> Truthful(L, g.ref, out.response.value) && out.response.value.status != Accepted)
    && (out.handle.Some? ==> exists p :: p in g.prepared && p.handle == out.handle.value)
  }

  ghost predicate PrepareOk(L: Semantics, g: Shared, req: Request, pc: PreparePc) {
    match pc
    case PStart => true
    case PCleanAccepted(resp, name) =>
      resp.status == AlreadyAccepted && Truthful(L, g.ref, resp) && NamesAccepted(L, g.ref, name)
    case PStage(h0, doc) => PrepareSnapshotOk(L, g, req, h0, doc)
    case PReadStage(h0, doc, stage) => PrepareSnapshotOk(L, g, req, h0, doc) && IsStage(stage)
    case PBuild(h0, doc, stage) => PrepareSnapshotOk(L, g, req, h0, doc) && IsStage(stage)
    case PBuildStale(h0, doc, stage) => IsStage(stage)
    case PUnstage(out, stage) => PrepareAnswered(L, g, out) && IsStage(stage)
    case PBind(p, stage) => Good(L, p) && Within(p.head, g.ref) && IsStage(stage)
    case PReadBound(p, stage) => p in g.prepared && IsStage(stage)
    case PBoundFailed(p, stage) => Good(L, p) && IsStage(stage)
    case PRemoveStage(p, stage) => p in g.prepared && IsStage(stage)
    case PReconcile(p) => p in g.prepared
    case PMoved(p) => p in g.prepared && Passed(p.head, g.ref)
    case PRemoveBound(p, out, headRead) =>
      p in g.prepared && PrepareAnswered(L, g, out) && (headRead ==> Passed(p.head, g.ref))
    case PDone(out) => PrepareAnswered(L, g, out)
  }

  ghost predicate ProcOk(L: Semantics, g: Shared, p: Proc) {
    match p
    case Accept(h, pc, moved) => AcceptOk(L, g, h, pc, moved) && SizedHandle(h)
    case Prepare(req, pc) => PrepareOk(L, g, req, pc)
    case Crashed => true
  }

  function MovedBy(p: Proc): Option<Commit> {
    if p.Accept? then p.moved else None
  }

  /** No two invocations moved the ref to the same commit. */
  ghost predicate Exclusive(procs: map<nat, Proc>) {
    forall i, j | i in procs && j in procs && i != j && MovedBy(procs[i]).Some? :: MovedBy(procs[i]) != MovedBy(procs[j])
  }

  ghost predicate Inv(L: Semantics, s: State) {
    && GoodShared(L, s.g)
    && (forall i | i in s.procs :: ProcOk(L, s.g, s.procs[i]))
    && Exclusive(s.procs)
  }

  // ----------------------------------------------------------------- stability

  lemma TruthfulGrows(L: Semantics, a: Commit, b: Commit, r: Response)
    requires LawfulReplay(L) && L.replays(b) && Within(a, b) && Truthful(L, a, r)
    ensures Truthful(L, b, r)
  {
    EventsGrow(L, a, b);
    if r.status != AcceptanceUnknown {
      var e :| e in L.events(a) && Names(L, r, e);
      assert e in L.events(b);
    }
  }

  lemma NamesAcceptedGrows(L: Semantics, a: Commit, b: Commit, name: Option<string>)
    requires LawfulReplay(L) && L.replays(b) && Within(a, b) && NamesAccepted(L, a, name)
    ensures NamesAccepted(L, b, name)
  {
    hide AcceptedName, AcceptedIdentity, BindingId.Sized;
    EventsGrow(L, a, b);
    if name.Some? {
      var e, raw :| e in L.events(a) && BindingId.Sized(AcceptedIdentity(L, e, raw)) && AcceptedName(L, e, raw) == name;
      assert e in L.events(b);
    }
  }

  lemma AnsweredGrows(L: Semantics, g: Shared, g': Shared, moved: Option<Commit>, out: Outcome)
    requires LawfulReplay(L) && Grows(L, g, g') && Answered(L, g, moved, out)
    ensures Answered(L, g', moved, out)
  {
    hide Truthful;
    if out.response.Some? {
      TruthfulGrows(L, g.ref, g'.ref, out.response.value);
    }
    if moved.Some? {
      WithinTransitive(moved.value, g.ref, g'.ref);
    }
  }

  lemma PrepareAnsweredGrows(L: Semantics, g: Shared, g': Shared, out: Outcome)
    requires LawfulReplay(L) && Grows(L, g, g') && PrepareAnswered(L, g, out)
    ensures PrepareAnswered(L, g', out)
  {
    hide Truthful;
    if out.response.Some? {
      TruthfulGrows(L, g.ref, g'.ref, out.response.value);
    }
  }

  lemma WithinGrows(L: Semantics, g: Shared, g': Shared, c: Commit)
    requires LawfulReplay(L) && Grows(L, g, g') && Within(c, g.ref)
    ensures Within(c, g'.ref)
    ensures c != g.ref ==> Passed(c, g'.ref)
  {
    WithinTransitive(c, g.ref, g'.ref);
    if c != g.ref {
      PassedGrows(L, c, g.ref, g'.ref);
    }
  }

  /** Nothing an invocation knows is invalidated by what the others do. */
  lemma AcceptOkGrows(L: Semantics, g: Shared, g': Shared, h: Handle, pc: AcceptPc, moved: Option<Commit>)
    requires LawfulReplay(L) && Grows(L, g, g') && AcceptOk(L, g, h, pc, moved)
    ensures AcceptOk(L, g', h, pc, moved)
  {
    hide Within, Answered, Validated, Truthful, Find, SameIdentity, Bound, NamesAccepted;
    match pc
    case ACleanAccepted(resp, name) =>
      TruthfulGrows(L, g.ref, g'.ref, resp);
      NamesAcceptedGrows(L, g.ref, g'.ref, name);
    case ARemove(h0, resp) =>
      AnsweredGrows(L, g, g', moved, Respond(resp, NoError));
      WithinGrows(L, g, g', h0);
    case ADone(out) => AnsweredGrows(L, g, g', moved, out);
    case APreflight(h0) => WithinGrows(L, g, g', h0);
    case ARead(h0, _) => WithinGrows(L, g, g', h0);
    case AValidate(h0, _, _) => WithinGrows(L, g, g', h0);
    case ACasCheck(h0, _) => WithinGrows(L, g, g', h0);
    case AUpdate(h0, _) => WithinGrows(L, g, g', h0);
    case ASettle(h0, _) => WithinGrows(L, g, g', h0);
    case AStale(h0, _) => WithinGrows(L, g, g', h0);
    case ARecoverSuccess(h0, c) => WithinGrows(L, g, g', h0); WithinGrows(L, g, g', c);
    case ARecoverError(h0, c) =>
      WithinGrows(L, g, g', h0);
      if moved.Some? {
        WithinGrows(L, g, g', c);
      }
    case ARecoveredAcceptance(h0, c) => WithinGrows(L, g, g', h0); WithinGrows(L, g, g', c);
    case AVerify(h0, c) => WithinGrows(L, g, g', h0); WithinGrows(L, g, g', c);
    case _ =>
  }

  lemma PrepareOkGrows(L: Semantics, g: Shared, g': Shared, req: Request, pc: PreparePc)
    requires LawfulReplay(L) && Grows(L, g, g') && PrepareOk(L, g, req, pc)
    ensures PrepareOk(L, g', req, pc)
  {
    hide Within, Good, Truthful, Find, PrepareAnswered, IsStage, NamesAccepted;
    match pc
    case PCleanAccepted(resp, name) =>
      TruthfulGrows(L, g.ref, g'.ref, resp);
      NamesAcceptedGrows(L, g.ref, g'.ref, name);
    case PStage(h0, _) => WithinGrows(L, g, g', h0);
    case PReadStage(h0, _, _) => WithinGrows(L, g, g', h0);
    case PBuild(h0, _, _) => WithinGrows(L, g, g', h0);
    case PUnstage(out, _) => PrepareAnsweredGrows(L, g, g', out);
    case PBind(p, _) => WithinGrows(L, g, g', p.head);
    case PMoved(p) => WithinGrows(L, g, g', p.head);
    case PRemoveBound(p, out, headRead) =>
      PrepareAnsweredGrows(L, g, g', out);
      if headRead {
        WithinGrows(L, g, g', p.head);
      }
    case PDone(out) => PrepareAnsweredGrows(L, g, g', out);
    case _ =>
  }

  lemma ProcOkGrows(L: Semantics, g: Shared, g': Shared, p: Proc)
    requires LawfulReplay(L) && Grows(L, g, g') && ProcOk(L, g, p)
    ensures ProcOk(L, g', p)
  {
    hide AcceptOk, PrepareOk, Grows, SizedHandle;
    match p
    case Accept(h, pc, moved) => AcceptOkGrows(L, g, g', h, pc, moved);
    case Prepare(req, pc) => PrepareOkGrows(L, g, g', req, pc);
    case Crashed =>
  }

  /** Removing quarantined files, or adding objects, changes none of it. */
  lemma SharedShrinks(L: Semantics, g: Shared, g': Shared)
    requires GoodShared(L, g) && g'.ref == g.ref && g'.prepared == g.prepared
    requires forall q | q in g'.quarantine :: q in g.quarantine && g'.quarantine[q] == g.quarantine[q]
    ensures GoodShared(L, g') && Grows(L, g, g')
  {
    hide Good;
  }

  lemma SharedAdvances(L: Semantics, g: Shared, c: Commit)
    requires LawfulReplay(L) && GoodShared(L, g) && c.parents == [g.ref] && L.replays(c)
    ensures GoodShared(L, g.(ref := c)) && Grows(L, g, g.(ref := c))
  {
    hide Good;
    assert Within(g.ref, c);
    forall p | p in g.prepared ensures Within(p.head, c) {
      WithinTransitive(p.head, g.ref, c);
    }
  }
}
