/**
 Runs from the beginning that show where the obvious statements about the write
 protocol fail. Each starts from any replayable head and any request valid there.
 */
module ProtocolExamples {
  import opened Wrappers
  import opened Text
  import opened Git
  import opened Acceptance
  import opened Protocol
  import opened ProtocolInv
  import opened ProtocolSteps
  import opened ProtocolCleanup
  import opened SoloRuns

  // ------------------------------------------------------------ reachability

  ghost predicate Reachable(L: Semantics, s: State) {
    exists run, actions :: Execution(L, run, actions) && run[|run| - 1] == s
  }

  lemma ReachesInit(L: Semantics, s: State)
    requires Init(L, s)
    ensures Reachable(L, s)
  {
    assert Execution(L, [s], []) && [s][|[s]| - 1] == s;
  }

  lemma ReachesNext(L: Semantics, s: State, s': State, a: Action)
    requires Reachable(L, s) && Step(L, true, s, s', a)
    ensures Reachable(L, s')
  {
    hide Step, Init;
    var run, actions :| Execution(L, run, actions) && run[|run| - 1] == s;
    var run', actions' := run + [s'], actions + [a];
    forall i | 0 <= i < |actions'| ensures Step(L, true, run'[i], run'[i + 1], actions'[i]) {
      if i < |actions| {
        assert run'[i] == run[i] && run'[i + 1] == run[i + 1] && actions'[i] == actions[i];
      }
    }
    assert Execution(L, run', actions') && run'[|run'| - 1] == s';
  }

  /** What can happen without faults can happen. */
  lemma FaultsAreOptional(L: Semantics, g: Shared, g': Shared, p: Proc, p': Proc)
    requires ProcStep(L, false, g, g', p, p')
    ensures ProcStep(L, true, g, g', p, p')
  {
    hide PrepareStages, PreparePublishes, AcceptChecks, CompareAndSwap, AcceptRecovers, AcceptCleans;
    match p
    case Accept(h, pc, _) => AcceptFaultsOptional(L, g, g', h, pc, p');
    case Prepare(req, pc) =>
      if p'.Prepare? {
        PrepareFaultsOptional(L, g, g', req, pc, p'.ppc);
      }
    case Crashed =>
  }

  lemma AcceptFaultsOptional(L: Semantics, g: Shared, g': Shared, h: Handle, pc: AcceptPc, p': Proc)
    ensures p'.Accept? && AcceptChecks(L, false, g, h, pc, p'.apc) ==> AcceptChecks(L, true, g, h, pc, p'.apc)
    ensures p'.Accept? && CompareAndSwap(L, false, g, h, pc, p'.apc) ==> CompareAndSwap(L, true, g, h, pc, p'.apc)
    ensures p'.Accept? && AcceptRecovers(L, false, g, h, pc, p'.apc) ==> AcceptRecovers(L, true, g, h, pc, p'.apc)
    ensures p'.Accept? && AcceptCleans(false, g, g', h, pc, p'.apc) ==> AcceptCleans(true, g, g', h, pc, p'.apc)
  {
    hide Recover, PreflightPasses, ReadPasses, Within, Find, AcceptedName;
  }

  lemma PrepareFaultsOptional(L: Semantics, g: Shared, g': Shared, req: Request, pc: PreparePc, pc': PreparePc)
    ensures PrepareStages(L, false, g, g', req, pc, pc') ==> PrepareStages(L, true, g, g', req, pc, pc')
    ensures PreparePublishes(L, false, g, g', pc, pc') ==> PreparePublishes(L, true, g, g', pc, pc')
  {
    hide Recover, IsStage, AcceptedName, HandleFor, StrayStage;
  }

  /** A chain of one process's steps is a stretch of a run in which only it moves. */
  lemma {:induction false} ReachesAlong(L: Semantics, s: State, k: nat, n: nat, g: Shared, p: Proc)
    requires Reachable(L, s) && k in s.procs && Reaches(L, n, s.g, s.procs[k], g, p)
    ensures Reachable(L, State(g, s.procs[k := p]))
  {
    hide ProcStep, Reachable;
    if n == 0 {
      assert s.procs[k := p] == s.procs && State(g, s.procs) == s;
    } else {
      var g1, p1 :| Reaches(L, n - 1, s.g, s.procs[k], g1, p1) && ProcStep(L, false, g1, g, p1, p);
      ReachesAlong(L, s, k, n - 1, g1, p1);
      FaultsAreOptional(L, g1, g, p1, p);
      var before, after := State(g1, s.procs[k := p1]), State(g, s.procs[k := p]);
      assert after.procs == before.procs[k := p];
      assert Step(L, true, before, after, Run(k));
      ReachesNext(L, before, after, Run(k));
    }
  }

  lemma ReachesPerformed(L: Semantics, s: State, k: nat, g: Shared, p: Proc)
    requires Reachable(L, s) && k in s.procs && Performs(L, s.g, s.procs[k], g, p)
    ensures Reachable(L, State(g, s.procs[k := p]))
  {
    hide Reachable;
    var n: nat :| Reaches(L, n, s.g, s.procs[k], g, p);
    ReachesAlong(L, s, k, n, g, p);
  }

  lemma ReachesStarted(L: Semantics, s: State, k: nat, p: Proc)
    requires Reachable(L, s) && k !in s.procs && Starts(p)
    ensures Reachable(L, State(s.g, s.procs[k := p]))
  {
    hide Reachable, Starts;
    var s' := State(s.g, s.procs[k := p]);
    assert Step(L, true, s, s', Start(k));
    ReachesNext(L, s, s', Start(k));
  }

  // ---------------------------------------------------------- where it starts

  /** A ledger at rest, and a request valid at its head. */
  ghost predicate AtRest(L: Semantics, g: Shared, req: Request, doc: Doc, c: Commit) {
    L.replays(g.ref) && g.quarantine == map[] && g.prepared == {} && Valid(L, g, req, doc, c)
  }

  const STAGE := "stage-0"

  lemma RestIsGood(L: Semantics, g: Shared, req: Request, doc: Doc, c: Commit)
    requires AtRest(L, g, req, doc, c)
    ensures GoodShared(L, g) && Reachable(L, State(g, map[])) && IsStage(STAGE)
  {
    hide Reachable, Valid;
    ReachesInit(L, State(g, map[]));
  }

  /** Process 0 has prepared the request; its answer is its handle. */
  lemma AfterPrepare(L: Semantics, g: Shared, req: Request, doc: Doc, c: Commit) returns (s: State)
    requires Laws(L) && AtRest(L, g, req, doc, c)
    ensures var p := CandidateOf(L, g, req, doc, c);
            && s == State(Published(g, p), map[0 := Prepare(req, PDone(Outcome(Some(p.handle), None, NoError)))])
            && Reachable(L, s) && GoodShared(L, s.g)
  {
    hide Laws, Reachable, GoodShared, Performs, Valid, HandleFor, IsStage, Published;
    RestIsGood(L, g, req, doc, c);
    ReachesStarted(L, State(g, map[]), 0, Prepare(req, PStart));
    PrepareSucceeds(L, g, req, doc, c, STAGE);
    var p := CandidateOf(L, g, req, doc, c);
    var done := Prepare(req, PDone(Outcome(Some(p.handle), None, NoError)));
    s := State(Published(g, p), map[0 := done]);
    ReachesPerformed(L, State(g, map[0 := Prepare(req, PStart)]), 0, Published(g, p), done);
    assert map[0 := Prepare(req, PStart)][0 := done] == s.procs;
  }

  // ------------------------------------------------------------------ examples

  /**
   Two acceptors of one handle. The second has checked everything when the first
   publishes; its pre-check then says stale, and one failed read later it returns
   nothing, although its candidate is authoritative.
   */
  lemma NilThoughAccepted(L: Semantics, g: Shared, req: Request, doc: Doc, c: Commit) returns (s: State, s': State)
    requires Laws(L) && AtRest(L, g, req, doc, c)
    ensures Reachable(L, s) && Step(L, true, s, s', Run(2))
    ensures 2 in s.procs && s.procs[2].Accept? && s.procs[2].apc == AStale(g.ref, c)
    ensures 2 in s'.procs && s'.procs[2].Accept? && s'.procs[2].apc == ADone(Fail(OtherFailure))
    ensures var p := CandidateOf(L, g, req, doc, c);
            p in s.g.prepared && s.procs[2].h == p.handle && Within(p.commit, s.g.ref) && s'.g == s.g
  {
    hide Laws, Reachable, GoodShared, Performs, Valid, HandleFor, Acceptable, AcceptedBy, SizedHandle;
    var p := CandidateOf(L, g, req, doc, c);
    var h := p.handle;
    var s0 := AfterPrepare(L, g, req, doc, c);
    PublishedIsAcceptable(L, g, req, doc, c);
    var waiting := Accept(h, ACasCheck(g.ref, c), None);
    ReachesStarted(L, s0, 1, Accept(h, AStart, None));
    var s1 := State(s0.g, s0.procs[1 := Accept(h, AStart, None)]);
    ReachesStarted(L, s1, 2, Accept(h, AStart, None));
    var s2 := State(s0.g, s1.procs[2 := Accept(h, AStart, None)]);
    AcceptReachesSwap(L, s0.g, h, c);
    ReachesPerformed(L, s2, 2, s0.g, waiting);
    var s3 := State(s0.g, s2.procs[2 := waiting]);
    AcceptSucceeds(L, s0.g, h, c);
    AcceptedIsNew(L, s0.g, h, c);
    var g' := s0.g.(ref := c, quarantine := s0.g.quarantine - {h.quarantineId});
    var answered := Accept(h, ADone(AnswerFor(L, s0.g, c)), Some(c));
    ReachesPerformed(L, s3, 1, g', answered);
    var s4 := State(g', s3.procs[1 := answered]);
    s := State(g', s4.procs[2 := Accept(h, AStale(g.ref, c), None)]);
    s' := State(g', s.procs[2 := Accept(h, ADone(Fail(OtherFailure)), None)]);
    StaleSteps(L, g', h, g.ref, c);
    assert s4.procs[2] == waiting;
    assert Step(L, true, s4, s, Run(2));
    ReachesNext(L, s4, s, Run(2));
    assert Step(L, true, s, s', Run(2));
    assert Within(c, c);
  }

  lemma StaleSteps(L: Semantics, g: Shared, h: Handle, h0: Commit, c: Commit)
    requires g.ref != h0
    ensures ProcStep(L, true, g, g, Accept(h, ACasCheck(h0, c), None), Accept(h, AStale(h0, c), None))
    ensures ProcStep(L, true, g, g, Accept(h, AStale(h0, c), None), Accept(h, ADone(Fail(OtherFailure)), None))
  {
  }

  /**
   Prepare alone. It has published a capability Accept could use, cannot read the
   head, and so removes the capability while the head has not moved.
   */
  lemma LiveCapabilityIsRemoved(L: Semantics, g: Shared, req: Request, doc: Doc, c: Commit)
    returns (s: State, s1: State, s2: State)
    requires Laws(L) && AtRest(L, g, req, doc, c)
    ensures Reachable(L, s) && Step(L, true, s, s1, Run(0)) && Step(L, true, s1, s2, Run(0))
    ensures 0 in s1.procs && BlindRemoval(s1.procs[0]) && 0 in s2.procs && Finished(s2.procs[0])
    ensures var p := CandidateOf(L, g, req, doc, c);
            && Acceptable(L, s1.g, p.handle, c) && p in s1.g.prepared && p.handle.quarantineId in s1.g.quarantine
            && s2.g == s1.g.(quarantine := s1.g.quarantine - {p.handle.quarantineId}) && s2.g.ref == p.head
            && forall x :: !Acceptable(L, s2.g, p.handle, x)
  {
    hide Laws, Reachable, GoodShared, Performs, Valid, HandleFor, PreflightPasses, Recover, SizedHandle, IsStage;
    var p := CandidateOf(L, g, req, doc, c);
    RestIsGood(L, g, req, doc, c);
    ReachesStarted(L, State(g, map[]), 0, Prepare(req, PStart));
    PrepareReachesReconcile(L, g, req, doc, c, STAGE);
    ReachesPerformed(L, State(g, map[0 := Prepare(req, PStart)]), 0, Published(g, p), Prepare(req, PReconcile(p)));
    s := State(Published(g, p), map[0 := Prepare(req, PStart)][0 := Prepare(req, PReconcile(p))]);
    s1, s2 := UnreadHeadRemovesLiveCapability(L, s, 0);
    PublishedIsAcceptable(L, g, req, doc, c);
  }

  /**
   Another writer publishes a prepared candidate by itself. Nothing fails, everybody
   has returned, and the capability of an authoritative commit stays on disk.
   */
  lemma ForeignPublicationLeavesFile(L: Semantics, g: Shared, req: Request, doc: Doc, c: Commit)
    returns (s: State, s': State)
    requires Laws(L) && AtRest(L, g, req, doc, c)
    ensures Reachable(L, s) && CleanStep(L, s, s', Foreign)
    ensures forall k | k in s'.procs :: Finished(s'.procs[k])
    ensures Leftover(s'.g, CandidateOf(L, g, req, doc, c))
  {
    hide Laws, Reachable, GoodShared, Performs, Valid, HandleFor, PreflightPasses, SizedHandle, Recover, Extends;
    var p := CandidateOf(L, g, req, doc, c);
    s := AfterPrepare(L, g, req, doc, c);
    SharedIsGood(L, s.g, p);
    GoodChild(L, p);
    s' := State(s.g.(ref := c), s.procs);
    assert Within(c, c);
  }
}
