/** What callers of the write protocol may rely on, in every run. */
module ProtocolTheorems {
  import opened Wrappers
  import opened Text
  import opened Git
  import opened Acceptance
  import opened Protocol
  import opened ProtocolInv
  import opened ProtocolSteps
  import BindingId

  // -------------------------------------------------------------------- runs

  lemma {:induction false} ReachableInv(L: Semantics, run: seq<State>, actions: seq<Action>, i: nat)
    requires Laws(L) && Execution(L, run, actions) && i < |run|
    ensures Inv(L, run[i])
  {
    hide Laws, Inv, Step, Init;
    if i == 0 {
      InitInv(L, run[0]);
    } else {
      ReachableInv(L, run, actions, i - 1);
      StepInv(L, true, run[i - 1], run[i], actions[i - 1]);
    }
  }

  /** The authoritative ref only ever moves to descendants. */
  lemma {:induction false} RefOnlyDescends(L: Semantics, run: seq<State>, actions: seq<Action>, i: nat, j: nat)
    requires Laws(L) && Execution(L, run, actions) && i <= j < |run|
    ensures Within(run[i].g.ref, run[j].g.ref)
    ensures L.replays(run[j].g.ref)
    decreases j
  {
    hide LawfulNames, LawfulReplay, LawfulAdmission, Step, Within;
    ReachableInv(L, run, actions, j);
    if i < j {
      ReachableInv(L, run, actions, j - 1);
      RefOnlyDescends(L, run, actions, i, j - 1);
      StepInv(L, true, run[j - 1], run[j], actions[j - 1]);
      WithinTransitive(run[i].g.ref, run[j - 1].g.ref, run[j].g.ref);
    } else {
      RefIsWithin(run[i].g.ref);
    }
  }

  /** An answer, once given, stands. */
  lemma {:induction false} AnswersStand(L: Semantics, run: seq<State>, actions: seq<Action>, i: nat, j: nat, k: nat)
    requires Execution(L, run, actions) && i <= j < |run|
    requires k in run[i].procs && Finished(run[i].procs[k])
    ensures k in run[j].procs && run[j].procs[k] == run[i].procs[k]
    decreases j
  {
    if i < j {
      AnswersStand(L, run, actions, i, j - 1, k);
      FinishedStaysPut(L, run[j - 1], run[j], actions[j - 1], k);
    }
  }

  lemma FinishedStaysPut(L: Semantics, s: State, s': State, a: Action, k: nat)
    requires Step(L, true, s, s', a) && k in s.procs && Finished(s.procs[k])
    ensures k in s'.procs && s'.procs[k] == s.procs[k]
  {
    hide Starts, ForeignPublish, Ambient;
    if a == Run(k) {
      NoStepAfterDone(L, s.g, s'.g, s.procs[k], s'.procs[k]);
    }
  }

  lemma NoStepAfterDone(L: Semantics, g: Shared, g': Shared, p: Proc, p': Proc)
    requires Finished(p)
    ensures !ProcStep(L, true, g, g', p, p')
  {
  }

  // ------------------------------------------------------------ exactly once

  /** Each event id and each idempotency key occurs at most once in the authoritative history. */
  lemma HistoryIsDistinct(L: Semantics, run: seq<State>, actions: seq<Action>, i: nat)
    requires Laws(L) && Execution(L, run, actions) && i < |run|
    ensures DistinctEntries(L.events(run[i].g.ref))
  {
    hide LawfulNames, LawfulAdmission, Step;
    RefOnlyDescends(L, run, actions, i, i);
    assert ReplayLaw(L, run[i].g.ref);
  }

  predicate Succeeded(p: Proc) {
    Finished(p) && OutcomeOf(p).response.Some? && OutcomeOf(p).response.value.status != AcceptanceUnknown
  }

  /** A success names an entry of the history at its own time, hence at every later one. */
  lemma SuccessNamesEntry(L: Semantics, run: seq<State>, actions: seq<Action>, i: nat, j: nat, k: nat)
    requires Laws(L) && Execution(L, run, actions) && i <= j < |run|
    requires k in run[i].procs && Succeeded(run[i].procs[k])
    ensures exists e :: e in L.events(run[j].g.ref) && Names(L, OutcomeOf(run[i].procs[k]).response.value, e)
  {
    hide LawfulNames, LawfulAdmission, Step, Within, Execution, GoodShared, Exclusive;
    ReachableInv(L, run, actions, i);
    RefOnlyDescends(L, run, actions, i, j);
    var p := run[i].procs[k];
    assert ProcOk(L, run[i].g, p);
    assert Truthful(L, run[i].g.ref, OutcomeOf(p).response.value);
    TruthfulGrows(L, run[i].g.ref, run[j].g.ref, OutcomeOf(p).response.value);
  }

  /**
   Exactly once: whatever two invocations answered at whatever times, two
   success answers for one key name the same commit, path, event and digest.
   */
  lemma SuccessesAgree(L: Semantics, run: seq<State>, actions: seq<Action>, i: nat, j: nat, k: nat, l: nat)
    requires Laws(L) && Execution(L, run, actions) && i < |run| && j < |run|
    requires k in run[i].procs && Succeeded(run[i].procs[k])
    requires l in run[j].procs && Succeeded(run[j].procs[l])
    requires var a, b := OutcomeOf(run[i].procs[k]).response.value, OutcomeOf(run[j].procs[l]).response.value;
             a.key == b.key != ""
    ensures var a, b := OutcomeOf(run[i].procs[k]).response.value, OutcomeOf(run[j].procs[l]).response.value;
            a.acceptedCommit == b.acceptedCommit && a.path == b.path && a.eventId == b.eventId &&
            a.contentSha == b.contentSha
  {
    hide Laws, Execution, DistinctEntries;
    var m := if i <= j then j else i;
    SuccessNamesEntry(L, run, actions, i, m, k);
    SuccessNamesEntry(L, run, actions, j, m, l);
    HistoryIsDistinct(L, run, actions, m);
    var a, b := OutcomeOf(run[i].procs[k]).response.value, OutcomeOf(run[j].procs[l]).response.value;
    var x :| x in L.events(run[m].g.ref) && Names(L, a, x);
    var y :| y in L.events(run[m].g.ref) && Names(L, b, y);
    OneEntryPerKey(L.events(run[m].g.ref), x, y);
  }

  predicate SaysAccepted(p: Proc) {
    Succeeded(p) && OutcomeOf(p).response.value.status == Accepted
  }

  /** At most one invocation in a run says `accepted` for a key: all others say it was already so. */
  lemma OneSaysAccepted(L: Semantics, run: seq<State>, actions: seq<Action>, i: nat, j: nat, k: nat, l: nat)
    requires Laws(L) && Execution(L, run, actions) && i < |run| && j < |run|
    requires k in run[i].procs && SaysAccepted(run[i].procs[k])
    requires l in run[j].procs && SaysAccepted(run[j].procs[l])
    requires var a, b := OutcomeOf(run[i].procs[k]).response.value, OutcomeOf(run[j].procs[l]).response.value;
             a.key == b.key != ""
    ensures k == l
  {
    hide Laws, Execution, ProcOk, GoodShared, Exclusive;
    SuccessesAgree(L, run, actions, i, j, k, l);
    var m := if i <= j then j else i;
    AnswersStand(L, run, actions, i, m, k);
    AnswersStand(L, run, actions, j, m, l);
    ReachableInv(L, run, actions, m);
    AcceptedMeansMoved(L, run[m].g, run[m].procs[k]);
    AcceptedMeansMoved(L, run[m].g, run[m].procs[l]);
    SameCommitSameProc(L, run[m], k, l);
  }

  /** `accepted` is said only by the invocation whose own update moved the ref. */
  lemma AcceptedMeansMoved(L: Semantics, g: Shared, p: Proc)
    requires ProcOk(L, g, p) && SaysAccepted(p)
    ensures MovedBy(p).Some? && L.id(MovedBy(p).value) == OutcomeOf(p).response.value.acceptedCommit
  {
    hide Truthful, Within, SizedHandle;
  }

  lemma SameCommitSameProc(L: Semantics, s: State, k: nat, l: nat)
    requires Laws(L) && Exclusive(s.procs) && k in s.procs && l in s.procs
    requires MovedBy(s.procs[k]).Some? && MovedBy(s.procs[l]).Some?
    requires L.id(MovedBy(s.procs[k]).value) == L.id(MovedBy(s.procs[l]).value)
    ensures k == l
  {
    hide LawfulReplay, LawfulAdmission;
  }

  // ---------------------------------------------------------- outcome honesty

  /**
   An invocation whose update took effect answers, and never with an ordinary
   stale or invalid failure: so no response at all means it did not move the ref.
   */
  lemma MovedAnswers(L: Semantics, run: seq<State>, actions: seq<Action>, i: nat, k: nat)
    requires Laws(L) && Execution(L, run, actions) && i < |run|
    requires k in run[i].procs && Finished(run[i].procs[k]) && MovedBy(run[i].procs[k]).Some?
    ensures var out := OutcomeOf(run[i].procs[k]); out.response.Some? && HonestError(out.err)
  {
    hide Laws, Execution, Truthful, Within, SizedHandle, GoodShared, Exclusive;
    ReachableInv(L, run, actions, i);
    assert ProcOk(L, run[i].g, run[i].procs[k]);
  }

  /** A named commit is authoritative from the answer on; an unknown outcome names none. */
  lemma AnswersAreHonest(L: Semantics, run: seq<State>, actions: seq<Action>, i: nat, j: nat, k: nat)
    requires Laws(L) && Execution(L, run, actions) && i <= j < |run|
    requires k in run[i].procs && Finished(run[i].procs[k]) && OutcomeOf(run[i].procs[k]).response.Some?
    ensures var r := OutcomeOf(run[i].procs[k]).response.value;
            if r.status == AcceptanceUnknown then r.acceptedCommit == ""
            else exists c :: Within(c, run[j].g.ref) && L.id(c) == r.acceptedCommit
  {
    hide LawfulNames, LawfulAdmission, Step, Within, Execution;
    var r := OutcomeOf(run[i].procs[k]).response.value;
    if r.status == AcceptanceUnknown {
      ReachableInv(L, run, actions, i);
      assert ProcOk(L, run[i].g, run[i].procs[k]);
    } else {
      SuccessNamesEntry(L, run, actions, i, j, k);
      var e :| e in L.events(run[j].g.ref) && Names(L, r, e);
      RefOnlyDescends(L, run, actions, j, j);
      assert ReplayLaw(L, run[j].g.ref);
      assert Within(e.commit, run[j].g.ref);
    }
  }

  // --------------------------------------------------- authority and finality

  /**
   Every commit an invocation moves the ref to was prepared earlier, on exactly
   the head being replaced, under exactly the accepted identity, and adds
   exactly the prepared bytes. Nothing else an invocation does moves the ref.
   */
  lemma AuthorityOnlyThroughPreparation(L: Semantics, run: seq<State>, actions: seq<Action>, i: nat, k: nat)
    requires Laws(L) && Execution(L, run, actions) && i < |actions| && actions[i] == Run(k)
    requires run[i + 1].g.ref != run[i].g.ref
    ensures run[i].procs[k].Accept? && run[i + 1].procs[k].Accept? && run[i + 1].procs[k].moved == Some(run[i + 1].g.ref)
    ensures exists p :: p in run[i].g.prepared && SameIdentity(p.handle, run[i].procs[k].h) &&
              p.head == run[i].g.ref && p.commit == run[i + 1].g.ref &&
              Extends(L, run[i].g.ref, run[i + 1].g.ref, p.handle, p.bytes)
  {
    hide Laws, Extends, SameIdentity, Within, SizedHandle, Exclusive;
    ReachableInv(L, run, actions, i);
    assert Step(L, true, run[i], run[i + 1], actions[i]);
    OnlyUpdateMoves(L, run[i].g, run[i + 1].g, run[i].procs[k], run[i + 1].procs[k]);
    assert ProcOk(L, run[i].g, run[i].procs[k]);
    ArmedIsPrepared(L, run[i].g, run[i].procs[k].h, run[i].procs[k].apc.h0, run[i].procs[k].apc.c);
  }

  lemma ArmedIsPrepared(L: Semantics, g: Shared, h: Handle, h0: Commit, c: Commit)
    requires GoodShared(L, g) && Armed(L, g, h, h0, c)
    ensures exists p :: p in g.prepared && SameIdentity(p.handle, h) && p.head == h0 && p.commit == c &&
              Extends(L, h0, c, p.handle, p.bytes)
  {
    hide Extends, SameIdentity, Within, Bound, SizedHandle, Validated;
  }

  lemma OnlyUpdateMoves(L: Semantics, g: Shared, g': Shared, p: Proc, p': Proc)
    requires ProcStep(L, true, g, g', p, p') && g'.ref != g.ref
    ensures UpdateRef(g, g', p, p') && p.apc.AUpdate? && p.apc.h0 == g.ref && p.apc.c == g'.ref && p'.moved == Some(g'.ref)
  {
  }

  /** Some child of a passed commit is in the history. */
  lemma {:induction false} PassedHasChild(c: Commit, ref: Commit) returns (d: Commit)
    requires Passed(c, ref)
    ensures d.parents == [c] && Within(d, ref)
    decreases ref
  {
    if ref.parents[0] == c {
      d := ref;
      assert ref.parents == [c];
    } else {
      d := PassedHasChild(c, ref.parents[0]);
    }
  }

  /** An entry of a later head whose commit was already authoritative was an entry then. */
  lemma {:induction false} EntriesBelong(L: Semantics, a: Commit, b: Commit, e: Entry)
    requires LawfulReplay(L) && L.replays(b) && Within(a, b) && e in L.events(b) && Within(e.commit, a)
    ensures e in L.events(a)
    decreases b
  {
    assert ReplayLaw(L, b);
    if a != b {
      var p := b.parents[0];
      if e in L.events(p) {
        EntriesBelong(L, a, p, e);
      } else {
        var i :| 0 <= i < |L.events(b)| && L.events(b)[i] == e;
        assert L.events(b)[..|L.events(p)|] == L.events(p);
        assert i >= |L.events(p)|;
        WithinTransitive(b, a, p);
        NotWithinParent(b);
      }
    }
  }

  /** Once its head is passed without its key, a prepared event can never be accepted. */
  lemma PassedIsFinal(L: Semantics, g: Shared, p: Prepared, later: Commit)
    requires Laws(L) && GoodShared(L, g) && p in g.prepared && Passed(p.head, g.ref)
    requires Find(L.events(g.ref), p.handle.key).None?
    requires Within(g.ref, later) && L.replays(later)
    ensures !Within(p.commit, later)
    ensures forall e | e in L.events(later) :: e.bytes != p.bytes
  {
    hide LawfulAdmission, Within, Bound, SizedHandle;
    SharedIsGood(L, g, p);
    assert ReplayLaw(L, p.commit) && ReplayLaw(L, later);
    var x := L.events(p.commit)[|L.events(p.head)|];
    assert x in L.events(p.commit);
    if Within(p.commit, later) {
      EventsGrow(L, p.commit, later);
      assert x in L.events(later);
    }
    FindFinds(L.events(g.ref), p.handle.key);
    forall e | e in L.events(later) ensures e.bytes != p.bytes {
      if e.bytes == p.bytes {
        assert e.doc == x.doc;
        var d := PassedHasChild(p.head, g.ref);
        WithinTransitive(d, g.ref, later);
        assert e.commit.parents[0] == p.head;
        assert e.commit.parents == [p.head];
        OneChild(e.commit, d, later);
        EntriesBelong(L, g.ref, later, e);
      }
    }
  }

  /** Where a nil answer with STALE_STATE comes from. */
  lemma StaleMeansPassed(L: Semantics, s: State, s': State, k: nat, p: Prepared)
    requires Laws(L) && Inv(L, s) && Step(L, true, s, s', Run(k))
    requires s.procs[k].Accept? && s'.procs[k].Accept? && !s.procs[k].apc.ADone?
    requires s'.procs[k].apc == ADone(Fail(StaleState))
    requires p in s.g.prepared && SameIdentity(p.handle, s.procs[k].h)
    ensures Passed(p.head, s.g.ref) && Find(L.events(s.g.ref), p.handle.key).None?
  {
    hide LawfulReplay, LawfulAdmission, LawfulNames, GoodShared, ProcOk, AcceptStep, Find, Passed, Exclusive, SameIdentity;
    var pr := s.procs[k];
    assert ProcOk(L, s.g, pr);
    StaleAnswer(L, s.g, s'.g, pr, s'.procs[k]);
    if pr.apc.AStale? {
      StaleAfterSwap(L, s.g, pr, p);
    } else {
      StaleAtSnapshot(L, s.g, pr, p);
    }
  }

  /** The two places a nil STALE_STATE is returned from, both after a lookup that found nothing. */
  lemma StaleAnswer(L: Semantics, g: Shared, g': Shared, pr: Proc, pr': Proc)
    requires pr.Accept? && pr'.Accept? && !pr.apc.ADone? && AcceptStep(L, true, g, g', pr, pr')
    requires ProcOk(L, g, pr) && pr'.apc == ADone(Fail(StaleState))
    ensures pr.apc.AStale? || (pr.apc.AStart? && L.id(g.ref) != ToLower(pr.h.expectedHead))
    ensures Find(L.events(g.ref), pr.h.key).None?
  {
    hide Find, Within, PreflightPasses, ReadPasses, Validated, Backed, BackedHead, Snapshot, Truthful, Bound, SizedHandle,
      Passed, NamesAccepted, AcceptedName;
  }

  lemma StaleAfterSwap(L: Semantics, g: Shared, pr: Proc, p: Prepared)
    requires LawfulNames(L) && GoodShared(L, g) && pr.Accept? && pr.apc.AStale? && ProcOk(L, g, pr)
    requires p in g.prepared && SameIdentity(p.handle, pr.h)
    ensures Passed(p.head, g.ref) && p.handle.key == pr.h.key
  {
    hide Within, Extends, SizedHandle, Validated, Bound;
    var x :| x in g.prepared && SameIdentity(x.handle, pr.h) && x.head == pr.apc.h0;
    SharedIsGood(L, g, x);
    SharedIsGood(L, g, p);
    assert IdentityOf(x.handle).expectedHead == IdentityOf(p.handle).expectedHead;
    assert L.id(x.head) == L.id(p.head);
    assert IdentityOf(p.handle).key == IdentityOf(pr.h).key;
  }

  lemma StaleAtSnapshot(L: Semantics, g: Shared, pr: Proc, p: Prepared)
    requires LawfulNames(L) && GoodShared(L, g) && pr.Accept? && L.id(g.ref) != ToLower(pr.h.expectedHead)
    requires p in g.prepared && SameIdentity(p.handle, pr.h)
    ensures Passed(p.head, g.ref) && p.handle.key == pr.h.key
  {
    hide Within, Extends, SizedHandle, Passed, Bound;
    SharedIsGood(L, g, p);
    assert IdentityOf(p.handle).key == IdentityOf(pr.h).key;
    assert IdentityOf(p.handle).expectedHead == IdentityOf(pr.h).expectedHead;
  }

  /**
   Finality: when Accept of a prepared candidate returns no response and
   STALE_STATE, no continuation of the run ever contains the candidate's commit
   or any event with its bytes.
   */
  lemma StaleIsFinal(L: Semantics, run: seq<State>, actions: seq<Action>, i: nat, j: nat, k: nat, p: Prepared)
    requires Laws(L) && Execution(L, run, actions) && i < |actions| && i < j < |run| && actions[i] == Run(k)
    requires k in run[i].procs && run[i].procs[k].Accept? && !run[i].procs[k].apc.ADone?
    requires k in run[i + 1].procs && run[i + 1].procs[k].Accept? && run[i + 1].procs[k].apc == ADone(Fail(StaleState))
    requires p in run[i].g.prepared && SameIdentity(p.handle, run[i].procs[k].h)
    ensures !Within(p.commit, run[j].g.ref)
    ensures forall e | e in L.events(run[j].g.ref) :: e.bytes != p.bytes
  {
    hide LawfulNames, LawfulReplay, LawfulAdmission, Within, Find, ProcOk, Exclusive, SameIdentity, Passed;
    ReachableInv(L, run, actions, i);
    assert Step(L, true, run[i], run[i + 1], actions[i]);
    StaleMeansPassed(L, run[i], run[i + 1], k, p);
    RefOnlyDescends(L, run, actions, i, j);
    PassedIsFinal(L, run[i].g, p, run[j].g.ref);
  }

  // ------------------------------------------- what a nil response does not say

  /**
   The swap's own pre-check calls an identical writer's success stale; with a
   readable ledger, and whatever others did in between, the answer is still
   `already_accepted`, for that very commit.
   */
  lemma StalePrecheckIsResolved(
    L: Semantics, g: Shared, later: Shared, h: Handle, h0: Commit, c: Commit, checked: AcceptPc, resolved: AcceptPc)
    requires LawfulReplay(L) && L.replays(g.ref) && Armed(L, g, h, h0, c) && Within(c, g.ref)
    requires CompareAndSwap(L, false, g, h, ACasCheck(h0, c), checked)
    requires Grows(L, g, later) && AcceptRecovers(L, false, later, h, checked, resolved)
    ensures checked == AStale(h0, c)
    ensures resolved.ARemove? && resolved.resp.status == AlreadyAccepted
    ensures resolved.resp.acceptedCommit == h.commit == L.id(c)
  {
    hide Within, Find, LawfulReplay, ReplayLaw, Backed, Bound;
    ValidatedParts(L, h, h0, c);
    LinearHead(L, c);
    NotWithinParent(c);
    WithinTransitive(c, g.ref, later.ref);
    FoundAccepted(L, later, h, h0, c);
  }

  /** Durable history finds the event of an authoritative candidate under any handle of its identity. */
  lemma PreparedIsRecovered(L: Semantics, g: Shared, p: Prepared, h: Handle)
    requires LawfulReplay(L) && GoodShared(L, g) && p in g.prepared && SameIdentity(p.handle, h) && Within(p.commit, g.ref)
    ensures h.key != "" && L.replays(g.ref) && Recover(L, g.ref, h.key, h.eventId, h.contentSha).Match?
  {
    hide Within, Find, LawfulReplay, Bound, SizedHandle, GoodShared;
    SharedIsGood(L, g, p);
    RefReplays(L, g);
    assert Validated(L, p.handle, p.head, p.commit);
    FoundAccepted(L, g, p.handle, p.head, p.commit);
    FindFinds(L.events(g.ref), p.handle.key);
    assert IdentityOf(p.handle).key == IdentityOf(h).key && IdentityOf(p.handle).eventId == IdentityOf(h).eventId;
    assert IdentityOf(p.handle).contentSha == IdentityOf(h).contentSha;
  }

  /** The step that ends an Accept with no response, the candidate being authoritative: a failed read, nothing else. */
  lemma NilStep(L: Semantics, g: Shared, g': Shared, pr: Proc, pr': Proc, p: Prepared, err: Error)
    requires LawfulReplay(L) && GoodShared(L, g) && pr.Accept? && !pr.apc.ADone? && pr'.Accept?
    requires AcceptStep(L, true, g, g', pr, pr') && pr'.apc == ADone(Fail(err))
    requires p in g.prepared && SameIdentity(p.handle, pr.h) && Within(p.commit, g.ref)
    ensures err == OtherFailure
  {
    hide Within, Find, LawfulReplay, Bound, SizedHandle, GoodShared, SameIdentity, Recover, PreflightPasses, ReadPasses,
      AcceptedName;
    PreparedIsRecovered(L, g, p, pr.h);
  }

  /**
   What no response does say: whenever Accept of a prepared candidate returns
   nothing with an error other than a failed read, the candidate was not
   authoritative when it returned. With a failed read it may have been.
   */
  lemma NilMeansUnaccepted(
    L: Semantics, run: seq<State>, actions: seq<Action>, i: nat, k: nat, p: Prepared, err: Error)
    requires Laws(L) && Execution(L, run, actions) && i < |actions| && actions[i] == Run(k)
    requires k in run[i].procs && run[i].procs[k].Accept? && !run[i].procs[k].apc.ADone?
    requires k in run[i + 1].procs && run[i + 1].procs[k].Accept? && run[i + 1].procs[k].apc == ADone(Fail(err))
    requires p in run[i].g.prepared && SameIdentity(p.handle, run[i].procs[k].h) && err != OtherFailure
    ensures !Within(p.commit, run[i].g.ref)
  {
    hide LawfulNames, LawfulReplay, LawfulAdmission, GoodShared, ProcOk, AcceptStep, Within, SameIdentity, Exclusive;
    ReachableInv(L, run, actions, i);
    assert Step(L, true, run[i], run[i + 1], actions[i]);
    if Within(p.commit, run[i].g.ref) {
      NilStep(L, run[i].g, run[i + 1].g, run[i].procs[k], run[i + 1].procs[k], p, err);
    }
  }
}
