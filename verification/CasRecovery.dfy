/**
 What CompareAndSwap makes of what it sees after update-ref: one look at the
 authoritative head, and, while an error is still ambiguous, a bounded number of
 further looks. A look is a head, or nothing when Git could not be read.
 */
module CasRecovery {
  import opened Wrappers
  import opened Git
  import opened Acceptance
  import opened Protocol
  import opened ProtocolInv

  datatype Recovered = Recovered(head: Commit, candidateInHistory: bool)

  datatype SwapResult = Swapped | Unverified | AcceptanceRecovered | StaleRef | OutcomeUnknown

  /** What a look yields: a head that is not the candidate itself must have a readable history. */
  function Read(id: Commit -> string, look: Option<Commit>, candidate: Commit): Option<Recovered> {
    match look
    case None => None
    case Some(head) =>
      if head == candidate || History(id, head).Some? then Some(Recovered(head, Within(candidate, head))) else None
  }

  /** recoverStateAfterCASContext at one observed head. */
  method RecoverState(id: Commit -> string, head: Commit, candidate: Commit) returns (r: Option<Recovered>)
    requires forall a: Commit, b: Commit :: id(a) == id(b) ==> a == b
    ensures r == Read(id, Some(head), candidate)
  {
    hide IsObjectId;
    if id(head) == id(candidate) {
      return Some(Recovered(head, true));
    }
    var history := History(id, head);
    if history.None? {
      return None;
    }
    var h := history.value;
    var found := false;
    for i := 0 to |h|
      invariant found <==> candidate in h[..i]
    {
      assert h[..i + 1] == h[..i] + [h[i]];
      if id(h[i]) == id(candidate) {
        found := true;
        break;
      }
    }
    assert h[..|h|] == h;
    ChainElementsWithin(candidate, head);
    return Some(Recovered(head, found));
  }

  /** The settle window over successive looks; the list ends at the deadline. */
  function Settled(id: Commit -> string, h0: Commit, c: Commit, looks: seq<Option<Commit>>): SwapResult {
    if looks == [] then OutcomeUnknown
    else
      match Read(id, looks[0], c)
      case None => OutcomeUnknown
      case Some(state) =>
        if state.candidateInHistory then AcceptanceRecovered
        else if state.head != h0 then StaleRef
        else Settled(id, h0, c, looks[1..])
  }

  function Classified(
    id: Commit -> string, updated: bool, h0: Commit, c: Commit, first: Option<Commit>, looks: seq<Option<Commit>>)
    : SwapResult
  {
    match Read(id, first, c)
    case None => if updated then Unverified else OutcomeUnknown
    case Some(state) =>
      if updated then (if state.candidateInHistory then Swapped else Unverified)
      else if state.candidateInHistory then AcceptanceRecovered
      else if state.head == h0 then Settled(id, h0, c, looks)
      else StaleRef
  }

  /** settleStateAfterCASContention: polls until the head tells, a look fails, or time is up. */
  method Settle(id: Commit -> string, h0: Commit, c: Commit, looks: seq<Option<Commit>>) returns (r: SwapResult)
    requires forall a: Commit, b: Commit :: id(a) == id(b) ==> a == b
    ensures r == Settled(id, h0, c, looks)
  {
    hide Read;
    var last: Option<Recovered> := None;
    for i := 0 to |looks|
      invariant Settled(id, h0, c, looks) == Settled(id, h0, c, looks[i..])
      invariant last.Some? ==> last.value == Recovered(h0, false)
    {
      assert looks[i..][0] == looks[i] && looks[i..][1..] == looks[i + 1..];
      NoLook(id, c);
      if looks[i].None? {
        return OutcomeUnknown;
      }
      var state := RecoverState(id, looks[i].value, c);
      if state.None? {
        return OutcomeUnknown;
      }
      if state.value.candidateInHistory {
        return AcceptanceRecovered;
      }
      if state.value.head != h0 {
        return StaleRef;
      }
      last := state;
    }
    return OutcomeUnknown;
  }

  lemma NoLook(id: Commit -> string, c: Commit)
    ensures Read(id, None, c) == None
  {
  }

  /** compareAndSwap from update-ref on. */
  method ClassifySwap(
    id: Commit -> string, updated: bool, h0: Commit, c: Commit, first: Option<Commit>, looks: seq<Option<Commit>>)
    returns (r: SwapResult)
    requires forall a: Commit, b: Commit :: id(a) == id(b) ==> a == b
    ensures r == Classified(id, updated, h0, c, first, looks)
  {
    hide Read;
    NoLook(id, c);
    var recovered: Option<Recovered> := None;
    if first.Some? {
      recovered := RecoverState(id, first.value, c);
    }
    if !updated {
      if recovered.None? {
        return OutcomeUnknown;
      }
      if recovered.value.candidateInHistory {
        return AcceptanceRecovered;
      }
      if recovered.value.head == h0 {
        r := Settle(id, h0, c, looks);
        return;
      }
      return StaleRef;
    }
    if recovered.None? || !recovered.value.candidateInHistory {
      return Unverified;
    }
    return Swapped;
  }

  // ------------------------------------------------- as steps of the protocol

  /** Where the protocol stands after each result. */
  function AfterSwap(h: Handle, h0: Commit, c: Commit, r: SwapResult): AcceptPc {
    match r
    case Swapped => AVerify(h0, c)
    case Unverified => ADone(Respond(FromHandle(AcceptedVerificationFailed, h, true, ""), VerificationFailed))
    case AcceptanceRecovered => ARecoveredAcceptance(h0, c)
    case StaleRef => AStale(h0, c)
    case OutcomeUnknown => UnknownOutcome(h)
  }

  /** A look sees the ref of the shared state it was taken in. */
  predicate Sees(look: Option<Commit>, g: Shared) {
    look.Some? ==> look.value == g.ref
  }

  /** The protocol can go from one point to another in these states, one step in each or none. */
  ghost predicate Follows(L: Semantics, h: Handle, states: seq<Shared>, pc: AcceptPc, pc': AcceptPc) {
    if states == [] then pc' == pc
    else Follows(L, h, states[1..], pc, pc') ||
         exists mid :: CompareAndSwap(L, true, states[0], h, pc, mid) && Follows(L, h, states[1..], mid, pc')
  }

  lemma {:induction false} StandsStill(L: Semantics, h: Handle, states: seq<Shared>, pc: AcceptPc)
    ensures Follows(L, h, states, pc, pc)
  {
    if states != [] {
      StandsStill(L, h, states[1..], pc);
    }
  }

  lemma {:induction false} SettleFollows(
    L: Semantics, h: Handle, h0: Commit, c: Commit, looks: seq<Option<Commit>>, states: seq<Shared>)
    requires |states| == |looks| + 1
    requires forall i | 0 <= i < |looks| :: Sees(looks[i], states[i])
    ensures Follows(L, h, states, ASettle(h0, c), AfterSwap(h, h0, c, Settled(L.id, h0, c, looks)))
  {
    hide Within, History;
    var pc := ASettle(h0, c);
    var end := AfterSwap(h, h0, c, Settled(L.id, h0, c, looks));
    if looks != [] && Read(L.id, looks[0], c) == Some(Recovered(h0, false)) {
      assert CompareAndSwap(L, true, states[0], h, pc, pc);
      SettleFollows(L, h, h0, c, looks[1..], states[1..]);
    } else {
      assert CompareAndSwap(L, true, states[0], h, pc, end);
      StandsStill(L, h, states[1..], end);
    }
  }

  /**
   The classification is one the protocol's steps allow: from the point after
   update-ref, with a head seen at each look, to the point its result stands for.
   The last state is the one in which the window closes.
   */
  lemma ClassificationFollowsProtocol(
    L: Semantics, h: Handle, updated: bool, h0: Commit, c: Commit, first: Option<Commit>,
    looks: seq<Option<Commit>>, states: seq<Shared>)
    requires |states| == |looks| + 2 && Sees(first, states[0])
    requires forall i | 0 <= i < |looks| :: Sees(looks[i], states[i + 1])
    ensures Follows(L, h, states, if updated then ARecoverSuccess(h0, c) else ARecoverError(h0, c),
                    AfterSwap(h, h0, c, Classified(L.id, updated, h0, c, first, looks)))
  {
    hide Within, History;
    var end := AfterSwap(h, h0, c, Classified(L.id, updated, h0, c, first, looks));
    if !updated && Read(L.id, first, c) == Some(Recovered(h0, false)) {
      assert CompareAndSwap(L, true, states[0], h, ARecoverError(h0, c), ASettle(h0, c));
      SettleFollows(L, h, h0, c, looks, states[1..]);
    } else {
      var pc := if updated then ARecoverSuccess(h0, c) else ARecoverError(h0, c);
      assert CompareAndSwap(L, true, states[0], h, pc, end);
      StandsStill(L, h, states[1..], end);
    }
  }
}
