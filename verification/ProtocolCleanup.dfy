/** What happens to a quarantined capability once its commit is authoritative, and before. */
module ProtocolCleanup {
  import opened Wrappers
  import opened Text
  import opened Git
  import opened Acceptance
  import opened Protocol
  import opened ProtocolInv
  import opened ProtocolSteps
  import opened ProtocolTheorems
  import BindingId

  // ------------------------------------------------------- capability names

  /** Two prepared candidates under one name are the same candidate. */
  lemma OneCandidatePerName(L: Semantics, a: Prepared, b: Prepared)
    requires LawfulNames(L) && Good(L, a) && Good(L, b) && a.handle.quarantineId == b.handle.quarantineId
    ensures SameIdentity(a.handle, b.handle) && a.head == b.head && a.commit == b.commit && a.bytes == b.bytes
  {
    hide BindingId.Id, BindingId.Sized, Extends;
    BindingId.IdInjective(L.sha256, IdentityOf(a.handle), IdentityOf(b.handle));
    assert IdentityOf(a.handle).rawSha == IdentityOf(b.handle).rawSha;
    assert L.id(a.head) == L.id(b.head) && L.id(a.commit) == L.id(b.commit);
  }

  /** Two prepared candidates for one commit have one name. */
  lemma OneNamePerCommit(L: Semantics, a: Prepared, b: Prepared)
    requires Good(L, a) && Good(L, b) && a.commit == b.commit
    ensures SameIdentity(a.handle, b.handle) && a.handle.quarantineId == b.handle.quarantineId
  {
    hide BindingId.Id, BindingId.Sized;
    assert a.head == [a.head][0] == [b.head][0] == b.head;
    var e := L.events(a.commit)[|L.events(a.head)|];
    assert Describes(L, a.handle, e) && Describes(L, b.handle, e);
  }

  lemma GoodNameIsNoStage(L: Semantics, p: Prepared)
    requires Good(L, p)
    ensures !IsStage(p.handle.quarantineId)
  {
    hide Extends, SizedHandle, Bound, IsStage;
    BoundNameIsNoStage(L, p.handle);
  }

  // ------------------------------------------------------------- obligations

  /** An invocation that still has the named capability to remove, or to look at once more. */
  predicate Owes(p: Proc, name: string) {
    match p
    case Accept(h, pc, moved) =>
      h.quarantineId == name &&
      (pc.ARecoverSuccess? || (pc.ARecoverError? && moved.Some?) || pc.ARecoveredAcceptance? || pc.AVerify? || pc.ARemove?)
    case Prepare(_, pc) =>
      || (pc.PReadBound? && pc.p.handle.quarantineId == name)
      || (pc.PRemoveStage? && pc.p.handle.quarantineId == name)
      || (pc.PReconcile? && pc.p.handle.quarantineId == name)
      || (pc.PMoved? && pc.p.handle.quarantineId == name)
      || (pc.PRemoveBound? && pc.p.handle.quarantineId == name)
    case Crashed => false
  }

  /** A capability of an authoritative commit is still on disk. */
  predicate Leftover(g: Shared, p: Prepared) {
    p in g.prepared && p.handle.quarantineId in g.quarantine && Within(p.commit, g.ref)
  }

  /** Every leftover is owed by somebody, unless another writer published its commit (`foreign`). */
  ghost predicate Obliged(s: State, foreign: set<Commit>) {
    forall p | Leftover(s.g, p) && p.commit !in foreign ::
      exists i :: i in s.procs && Owes(s.procs[i], p.handle.quarantineId)
  }

  /** A step of a clean run: nothing fails, nothing crashes, nothing expires. */
  ghost predicate CleanStep(L: Semantics, s: State, s': State, a: Action) {
    Step(L, false, s, s', a) && !a.Crash? && (a.Environment? ==> s'.g.quarantine == s.g.quarantine)
  }

  /** The heads other writers have published in the first `n` steps of a run. */
  ghost function ForeignHeads(run: seq<State>, actions: seq<Action>, n: nat): set<Commit>
    requires |run| == |actions| + 1 && n <= |actions|
  {
    if n == 0 then {}
    else ForeignHeads(run, actions, n - 1) + (if actions[n - 1].Foreign? then {run[n].g.ref} else {})
  }

  // ------------------------------------------------- one step of one invocation

  /** An acceptor keeps its obligation until the file is gone. */
  lemma AcceptKeepsOwing(L: Semantics, g: Shared, g': Shared, p: Proc, p': Proc)
    requires LawfulReplay(L) && GoodShared(L, g) && p.Accept? && ProcOk(L, g, p) && Owes(p, p.h.quarantineId)
    requires AcceptStep(L, false, g, g', p, p')
    ensures p'.Accept? && p'.h == p.h
    ensures Owes(p', p.h.quarantineId) || p.h.quarantineId !in g'.quarantine
  {
    hide GoodShared, LawfulReplay, Within, SizedHandle, Backed, BackedHead, Bound, Validated, Truthful, Find;
    RefReplays(L, g);
    if p.apc.ARecoveredAcceptance? || p.apc.AVerify? {
      FoundAccepted(L, g, p.h, p.apc.h0, p.apc.c);
    }
  }

  lemma PresentIsGood(L: Semantics, g: Shared, p: Prepared)
    requires LawfulNames(L) && GoodShared(L, g) && p in g.prepared && p.handle.quarantineId in g.quarantine
    ensures g.quarantine[p.handle.quarantineId] == p.bytes
  {
    hide Good, Within, IsStage, LawfulNames;
    SharedIsGood(L, g, p);
    GoodNameIsNoStage(L, p);
    var x :| x in g.prepared && x.handle.quarantineId == p.handle.quarantineId &&
             x.bytes == g.quarantine[p.handle.quarantineId];
    OneCandidatePerName(L, x, p);
  }

  /** A preparer lets go only of a file that is gone, or of a candidate whose head is still current. */
  lemma PrepareKeepsOwing(L: Semantics, g: Shared, g': Shared, p: Proc, p': Proc, name: string)
    requires LawfulNames(L) && GoodShared(L, g) && p.Prepare? && ProcOk(L, g, p) && Owes(p, name)
    requires PrepareStep(L, false, g, g', p, p')
    ensures Owes(p', name) || name !in g'.quarantine
            || (p.ppc.PReconcile? && p.ppc.p in g.prepared && p.ppc.p.handle.quarantineId == name &&
                g.ref == p.ppc.p.head && g' == g)
  {
    hide GoodShared, LawfulNames, Within, Good, IsStage, Truthful, PrepareAnswered, PrepareReconciles;
    if p.ppc.PReadBound? && name in g.quarantine {
      PresentIsGood(L, g, p.ppc.p);
    }
  }

  /** While the head is still the candidate's own, nothing is left over under its name. */
  lemma CurrentHeadOwesNothing(L: Semantics, g: Shared, p: Prepared, x: Prepared)
    requires LawfulNames(L) && LawfulReplay(L) && GoodShared(L, g) && p in g.prepared && g.ref == p.head
    requires x in g.prepared && x.handle.quarantineId == p.handle.quarantineId
    ensures !Within(x.commit, g.ref)
  {
    hide Good, Within, LawfulNames, LawfulReplay;
    SharedIsGood(L, g, p);
    SharedIsGood(L, g, x);
    OneCandidatePerName(L, x, p);
    GoodChild(L, x);
    LinearHead(L, x.commit);
    NotWithinParent(x.commit);
  }

  lemma GoodChild(L: Semantics, p: Prepared)
    requires Good(L, p)
    ensures p.commit.parents == [p.head] && L.replays(p.commit)
  {
  }

  /** A step that is no clean-up of `name` keeps whatever the invocation owed of it. */
  lemma StepKeepsOwing(L: Semantics, s: State, s': State, k: nat, p: Prepared)
    requires Laws(L) && Inv(L, s) && Step(L, false, s, s', Run(k)) && Leftover(s.g, p)
    requires Owes(s.procs[k], p.handle.quarantineId) && p.handle.quarantineId in s'.g.quarantine
    ensures Owes(s'.procs[k], p.handle.quarantineId)
  {
    hide GoodShared, LawfulNames, LawfulReplay, LawfulAdmission, ProcOk, AcceptStep, PrepareStep, Within, Exclusive;
    var pr, pr' := s.procs[k], s'.procs[k];
    assert ProcOk(L, s.g, pr);
    if pr.Accept? {
      AcceptKeepsOwing(L, s.g, s'.g, pr, pr');
    } else {
      PrepareKeepsOwing(L, s.g, s'.g, pr, pr', p.handle.quarantineId);
      if pr.ppc.PReconcile? && pr.ppc.p in s.g.prepared && pr.ppc.p.handle.quarantineId == p.handle.quarantineId &&
         s.g.ref == pr.ppc.p.head {
        CurrentHeadOwesNothing(L, s.g, pr.ppc.p, p);
      }
    }
  }

  /** Whatever is newly left over is owed by the invocation that made it so. */
  lemma NewLeftoverIsOwed(L: Semantics, s: State, s': State, k: nat, p: Prepared)
    requires Laws(L) && Inv(L, s) && Step(L, false, s, s', Run(k))
    requires Leftover(s'.g, p) && !Leftover(s.g, p)
    ensures Owes(s'.procs[k], p.handle.quarantineId)
  {
    hide LawfulNames, LawfulReplay, LawfulAdmission, ProcOk, GoodShared, Exclusive, Within, AcceptStep, PrepareStep;
    var pr, pr' := s.procs[k], s'.procs[k];
    assert ProcOk(L, s.g, pr);
    RunInv(L, false, s, s', k);
    SharedIsGood(L, s'.g, p);
    if pr.Accept? {
      NewAcceptLeftover(L, s.g, s'.g, pr, pr', p);
    } else {
      NewPrepareLeftover(L, s.g, s'.g, pr, pr', p);
    }
  }

  lemma NewAcceptLeftover(L: Semantics, g: Shared, g': Shared, pr: Proc, pr': Proc, p: Prepared)
    requires LawfulReplay(L) && GoodShared(L, g) && pr.Accept? && ProcOk(L, g, pr) && Good(L, p)
    requires AcceptStep(L, false, g, g', pr, pr') && Leftover(g', p) && !Leftover(g, p)
    ensures Owes(pr', p.handle.quarantineId)
  {
    hide LawfulReplay, GoodShared, Within, Good, SizedHandle, AcceptChecks, CompareAndSwap, AcceptRecovers, AcceptCleans;
    AcceptNeverAdds(L, g, g', pr, pr');
    assert UpdateRef(g, g', pr, pr') && g' == g.(ref := pr.apc.c);
    var h0, c := pr.apc.h0, pr.apc.c;
    UpdateIsArmed(L, g, pr);
    OnlyTheNewCommit(L, g, h0, c, p.commit, pr.h);
    var x :| x in g.prepared && SameIdentity(x.handle, pr.h) && x.head == h0 && x.commit == c;
    SharedIsGood(L, g, x);
    OneNamePerCommit(L, x, p);
    SameIdentitySameName(L, x, pr.h);
  }

  lemma UpdateIsArmed(L: Semantics, g: Shared, pr: Proc)
    requires pr.Accept? && pr.apc.AUpdate? && ProcOk(L, g, pr)
    ensures Armed(L, g, pr.h, pr.apc.h0, pr.apc.c)
  {
  }

  lemma OnlyTheNewCommit(L: Semantics, g: Shared, h0: Commit, c: Commit, x: Commit, h: Handle)
    requires g.ref == h0 && Validated(L, h, h0, c) && Within(x, c) && !Within(x, h0)
    ensures x == c
  {
  }

  lemma SameIdentitySameName(L: Semantics, x: Prepared, h: Handle)
    requires Good(L, x) && Bound(L, h) && SameIdentity(x.handle, h)
    ensures x.handle.quarantineId == h.quarantineId
  {
    hide BindingId.Id, Extends;
  }

  lemma AcceptNeverAdds(L: Semantics, g: Shared, g': Shared, pr: Proc, pr': Proc)
    requires pr.Accept? && AcceptStep(L, false, g, g', pr, pr')
    ensures g'.prepared == g.prepared && forall q | q in g'.quarantine :: q in g.quarantine
    ensures g'.ref != g.ref ==> UpdateRef(g, g', pr, pr') && g' == g.(ref := pr.apc.c)
  {
  }

  lemma NewPrepareLeftover(L: Semantics, g: Shared, g': Shared, pr: Proc, pr': Proc, p: Prepared)
    requires pr.Prepare? && Good(L, p)
    requires PrepareStep(L, false, g, g', pr, pr') && Leftover(g', p) && !Leftover(g, p)
    ensures Owes(pr', p.handle.quarantineId)
  {
    hide Good, Within, IsStage, PrepareSnapshot, SnapshotRecovery, PrepareReconciles;
    GoodNameIsNoStage(L, p);
  }

  // ------------------------------------------------------------- clean runs

  lemma RunKeepsObliged(L: Semantics, s: State, s': State, k: nat, foreign: set<Commit>)
    requires Laws(L) && Inv(L, s) && Obliged(s, foreign) && Step(L, false, s, s', Run(k))
    ensures Obliged(s', foreign)
  {
    hide Laws, Inv, ProcStep, Owes, Leftover;
    forall p | Leftover(s'.g, p) && p.commit !in foreign
      ensures exists i :: i in s'.procs && Owes(s'.procs[i], p.handle.quarantineId)
    {
      if Leftover(s.g, p) {
        var i :| i in s.procs && Owes(s.procs[i], p.handle.quarantineId);
        if i == k {
          LeftoverPresent(s'.g, p);
          StepKeepsOwing(L, s, s', k, p);
        }
        assert Owes(s'.procs[i], p.handle.quarantineId);
      } else {
        NewLeftoverIsOwed(L, s, s', k, p);
        assert Owes(s'.procs[k], p.handle.quarantineId);
      }
    }
  }

  lemma LeftoverPresent(g: Shared, p: Prepared)
    requires Leftover(g, p)
    ensures p.handle.quarantineId in g.quarantine
  {
  }

  lemma OtherKeepsObliged(L: Semantics, s: State, s': State, a: Action, foreign: set<Commit>)
    requires Laws(L) && Inv(L, s) && Obliged(s, foreign) && CleanStep(L, s, s', a) && !a.Run?
    ensures Obliged(s', foreign + if a.Foreign? then {s'.g.ref} else {})
  {
    hide Laws, Inv, Owes, LawfulReplay;
    forall p | Leftover(s'.g, p) && p.commit !in foreign + if a.Foreign? then {s'.g.ref} else {}
      ensures exists i :: i in s'.procs && Owes(s'.procs[i], p.handle.quarantineId)
    {
      assert p in s.g.prepared && p.handle.quarantineId in s.g.quarantine;
      assert Within(p.commit, s.g.ref);
      assert Leftover(s.g, p);
      var i :| i in s.procs && Owes(s.procs[i], p.handle.quarantineId);
      assert Owes(s'.procs[i], p.handle.quarantineId);
    }
  }

  ghost predicate CleanExecution(L: Semantics, run: seq<State>, actions: seq<Action>) {
    && |run| == |actions| + 1
    && Init(L, run[0])
    && forall i | 0 <= i < |actions| :: CleanStep(L, run[i], run[i + 1], actions[i])
  }

  /**
   In a clean run a capability of an authoritative commit is on disk only while
   some invocation still owes its removal, unless another writer published that
   commit itself.
   */
  lemma {:induction false} LeftoversAreOwed(L: Semantics, run: seq<State>, actions: seq<Action>, i: nat)
    requires Laws(L) && CleanExecution(L, run, actions) && i < |run|
    ensures Inv(L, run[i]) && Obliged(run[i], ForeignHeads(run, actions, i))
  {
    hide Laws, Inv, Step, Init, Obliged;
    if i == 0 {
      InitInv(L, run[0]);
      InitObliged(L, run[0], {});
    } else {
      LeftoversAreOwed(L, run, actions, i - 1);
      var s, s', a := run[i - 1], run[i], actions[i - 1];
      assert CleanStep(L, s, s', a);
      StepInv(L, false, s, s', a);
      if a.Run? {
        RunKeepsObliged(L, s, s', a.i, ForeignHeads(run, actions, i - 1));
        assert ForeignHeads(run, actions, i) == ForeignHeads(run, actions, i - 1);
      } else {
        OtherKeepsObliged(L, s, s', a, ForeignHeads(run, actions, i - 1));
      }
    }
  }

  lemma InitObliged(L: Semantics, s: State, foreign: set<Commit>)
    requires Init(L, s)
    ensures Obliged(s, foreign)
  {
  }

  lemma NobodyOwes(s: State, foreign: set<Commit>, p: Prepared)
    requires Obliged(s, foreign) && p.commit !in foreign && forall k | k in s.procs :: Finished(s.procs[k])
    ensures !Leftover(s.g, p)
  {
    hide Leftover;
  }

  /** At quiescence of a clean run no capability remains of a commit that an invocation made authoritative. */
  lemma NothingLeftAtQuiescence(L: Semantics, run: seq<State>, actions: seq<Action>, i: nat, p: Prepared)
    requires Laws(L) && CleanExecution(L, run, actions) && i < |run|
    requires forall k | k in run[i].procs :: Finished(run[i].procs[k])
    requires p in run[i].g.prepared && Within(p.commit, run[i].g.ref) && p.commit !in ForeignHeads(run, actions, i)
    ensures p.handle.quarantineId !in run[i].g.quarantine
  {
    hide Laws, Inv, CleanStep, Within;
    LeftoversAreOwed(L, run, actions, i);
    NobodyOwes(run[i], ForeignHeads(run, actions, i), p);
  }

  // ---------------------------------------------------------------- removals

  /** The one removal not preceded by a look at the head: reconciliation could not read it. */
  predicate BlindRemoval(p: Proc) {
    p.Prepare? && p.ppc.PRemoveBound? && !p.ppc.headRead
  }

  /**
   In any run, crashes and failures included, an explicit removal of a prepared
   candidate's capability comes after its expected head was passed, unless it
   is the blind one.
   */
  lemma RemovalsFollowTheHead(L: Semantics, run: seq<State>, actions: seq<Action>, i: nat, k: nat, p: Prepared)
    requires Laws(L) && Execution(L, run, actions) && i < |actions| && actions[i] == Run(k)
    requires p in run[i].g.prepared && p.handle.quarantineId in run[i].g.quarantine
    requires p.handle.quarantineId !in run[i + 1].g.quarantine
    ensures k in run[i].procs
    ensures Passed(p.head, run[i].g.ref) || (p.head == run[i].g.ref && BlindRemoval(run[i].procs[k]))
  {
    hide Laws, GoodShared, ProcOk, Exclusive, ProcStep, Passed;
    ReachableInv(L, run, actions, i);
    assert Step(L, true, run[i], run[i + 1], actions[i]);
    var s := run[i];
    assert ProcOk(L, s.g, s.procs[k]);
    RemovalByStep(L, s.g, run[i + 1].g, s.procs[k], run[i + 1].procs[k], p);
  }

  lemma RemovalByStep(L: Semantics, g: Shared, g': Shared, pr: Proc, pr': Proc, p: Prepared)
    requires Laws(L) && GoodShared(L, g) && ProcOk(L, g, pr) && ProcStep(L, true, g, g', pr, pr')
    requires p in g.prepared && p.handle.quarantineId in g.quarantine && p.handle.quarantineId !in g'.quarantine
    ensures Passed(p.head, g.ref) || (p.head == g.ref && BlindRemoval(pr))
  {
    hide LawfulNames, LawfulReplay, LawfulAdmission, GoodShared, Good, Passed, NamesAccepted, Within, Truthful,
      BackedHead, Bound, SizedHandle, Answered, PrepareAnswered, IsStage;
    RemovedName(L, g, g', pr, pr', p.handle.quarantineId);
    SharedIsGood(L, g, p);
    GoodNameIsNoStage(L, p);
    match pr
    case Accept(h, pc, moved) =>
      if pc.ACleanAccepted? {
        AcceptedRemovalFollows(L, g, p);
      } else {
        HeldRemovalFollows(L, g, h, pc.h0, p);
      }
    case Prepare(_, pc) =>
      if pc.PCleanAccepted? {
        AcceptedRemovalFollows(L, g, p);
      } else if pc.PRemoveBound? {
        SharedIsGood(L, g, pc.p);
        OneCandidatePerName(L, pc.p, p);
      }
  }

  /** The steps that remove a name, and the names they remove. */
  lemma RemovedName(L: Semantics, g: Shared, g': Shared, pr: Proc, pr': Proc, name: string)
    requires ProcStep(L, true, g, g', pr, pr') && name in g.quarantine && name !in g'.quarantine
    ensures match pr
            case Accept(h, pc, _) =>
              (pc.ACleanAccepted? && pc.name == Some(name)) || (pc.ARemove? && h.quarantineId == name)
            case Prepare(_, pc) =>
              || (pc.PCleanAccepted? && pc.name == Some(name))
              || (pc.PRemoveBound? && pc.p.handle.quarantineId == name)
              || ((pc.PUnstage? || pc.PRemoveStage?) && pc.stage == name)
            case Crashed => false
  {
    hide IsStage, PrepareSnapshot, SnapshotRecovery, PrepareReconciles, AcceptSnapshot, AcceptChecks, CompareAndSwap,
      AcceptRecovers;
  }

  lemma AcceptedRemovalFollows(L: Semantics, g: Shared, p: Prepared)
    requires LawfulNames(L) && LawfulReplay(L) && GoodShared(L, g) && p in g.prepared
    requires NamesAccepted(L, g.ref, Some(p.handle.quarantineId))
    ensures Passed(p.head, g.ref)
  {
    hide Within, Passed, GoodShared, BindingId.Id, BindingId.Sized, Extends;
    SharedIsGood(L, g, p);
    RefReplays(L, g);
    var e, raw :| e in L.events(g.ref) && BindingId.Sized(AcceptedIdentity(L, e, raw)) &&
                  AcceptedName(L, e, raw) == Some(p.handle.quarantineId);
    BindingId.IdInjective(L.sha256, IdentityOf(p.handle), AcceptedIdentity(L, e, raw));
    assert IdentityOf(p.handle).commit == AcceptedIdentity(L, e, raw).commit;
    assert L.id(p.commit) == L.id(e.commit);
    assert ReplayLaw(L, g.ref);
    GoodChild(L, p);
    ChildPasses(L, p.head, p.commit, g.ref);
  }

  lemma HeldRemovalFollows(L: Semantics, g: Shared, h: Handle, h0: Commit, p: Prepared)
    requires LawfulNames(L) && GoodShared(L, g) && p in g.prepared && p.handle.quarantineId == h.quarantineId
    requires BackedHead(g, h, h0) && Passed(h0, g.ref) && Bound(L, h)
    ensures Passed(p.head, g.ref)
  {
    hide GoodShared, Good, Within, Bound, LawfulNames;
    var x :| x in g.prepared && SameIdentity(x.handle, h) && x.head == h0;
    SharedIsGood(L, g, x);
    SharedIsGood(L, g, p);
    SameIdentitySameName(L, x, h);
    OneCandidatePerName(L, x, p);
  }

  /**
   The exception is real. From any state in which Prepare has published a
   candidate whose head is still current, a failed read of the head is followed,
   one step later, by the removal of a capability Accept could still have used.
   */
  lemma UnreadHeadRemovesLiveCapability(L: Semantics, s: State, k: nat)
    returns (s1: State, s2: State)
    requires k in s.procs && s.procs[k].Prepare? && s.procs[k].ppc.PReconcile?
    requires s.g.ref == s.procs[k].ppc.p.head && s.procs[k].ppc.p.handle.quarantineId in s.g.quarantine
    ensures Step(L, true, s, s1, Run(k)) && Step(L, true, s1, s2, Run(k))
    ensures s2.g.ref == s.procs[k].ppc.p.head && s.procs[k].ppc.p.handle.quarantineId !in s2.g.quarantine
    ensures BlindRemoval(s1.procs[k]) && Finished(s2.procs[k])
  {
    var pr := s.procs[k];
    var p := pr.ppc.p;
    var out := Respond(FromHandle(AcceptanceUnknown, p.handle, false, ""), RecoveryRequired);
    s1 := State(s.g, s.procs[k := pr.(ppc := PRemoveBound(p, out, false))]);
    s2 := State(s.g.(quarantine := s.g.quarantine - {p.handle.quarantineId}), s1.procs[k := pr.(ppc := PDone(out))]);
    assert PreparePublishes(L, true, s.g, s1.g, pr.ppc, s1.procs[k].ppc);
    assert PreparePublishes(L, true, s1.g, s2.g, s1.procs[k].ppc, s2.procs[k].ppc);
  }
}
