/** The exclusive-governed-record-v1 reducer: create, replace, revoke, each asserting its own effect. */
module Reducer {
  import opened Wrappers
  import opened Text
  import opened ActorPolicy
  import opened Domain

  const RECORD_PREFIX := "core.record."
  const MODEL := "exclusive-governed-record-v1"
  const CREATED := "core.record.created"
  const REPLACED := "core.record.replaced"
  const REVOKED := "core.record.revoked"
  const ACTIVE := "active"
  const REVOKED_STATUS := "revoked"

  /** Revisions are uint64 and wrap. */
  const TWO_64: nat := 0x1_0000_0000_0000_0000

  datatype Error =
    | NotApplicable | UnknownEvent | PolicyUnbound | TargetCardinality | AlreadyExists | NotFound
    | TerminalState | RecordKindMismatch | PriorStateMismatch | ResultingStateMismatch | TransitionInvalid

  datatype Event = Event(
    eventId: string, eventType: string, targets: seq<string>, recordKind: string,
    value: Raw, priorState: Raw, resultingState: Raw)

  type Bindings = map<string, string>

  function RequireValue(env: Env, raw: Raw): Result<Raw, Error> {
    if raw == "" || !env.strictValid(raw) then Err(TransitionInvalid)
    else match env.canon(raw)
      case Some(c) => Ok(c)
      case None => Err(TransitionInvalid)
  }

  /** The event must carry, up to canonical form, the document the reducer expects. */
  predicate Asserts(env: Env, raw: Raw, expected: Raw) {
    raw != "" && env.strictValid(raw) && env.canon(raw).Some? && env.canon(raw) == env.canon(expected)
  }

  predicate Bound(bindings: Bindings, kind: string) {
    kind in bindings && bindings[kind] == MODEL
  }

  /** validateState. */
  predicate ValidState(env: Env, key: string, s: State) {
    && s.targetId == key && s.targetId != "" && s.recordKind != "" && s.revision != 0 && s.currentEventId != ""
    && (|| (s.status == ACTIVE && RequireValue(env, s.value).Ok?)
        || (s.status == REVOKED_STATUS && s.value == ""))
  }

  function Apply(env: Env, current: Projection, bindings: Bindings, e: Event): Result<Projection, Error> {
    if !HasPrefix(e.eventType, RECORD_PREFIX) then Err(NotApplicable)
    else if e.eventType != CREATED && e.eventType != REPLACED && e.eventType != REVOKED then Err(UnknownEvent)
    else if e.eventId == "" then Err(TransitionInvalid)
    else if |e.targets| != 1 || e.targets[0] == "" then Err(TargetCardinality)
    else
      var target := e.targets[0];
      if e.recordKind == POLICY_RECORD_KIND && target != POLICY_TARGET then Err(TransitionInvalid)
      else if e.recordKind == POLICY_RECORD_KIND && e.eventType != REVOKED && ParsePolicy(env, e.value).None?
      then Err(TransitionInvalid)
      else if target in current && !ValidState(env, target, current[target]) then Err(TransitionInvalid)
      else if e.eventType == CREATED then ApplyCreate(env, current, bindings, target, e)
      else if e.eventType == REPLACED then ApplyReplace(env, current, bindings, target, e)
      else ApplyRevoke(env, current, bindings, target, e)
  }

  function ApplyCreate(env: Env, current: Projection, bindings: Bindings, target: string, e: Event)
    : Result<Projection, Error>
  {
    if target in current then Err(AlreadyExists)
    else if e.recordKind == "" then Err(TransitionInvalid)
    else if !Bound(bindings, e.recordKind) then Err(PolicyUnbound)
    else
      var value :- RequireValue(env, e.value);
      if !Asserts(env, e.priorState, env.marshalAbsent(target)) then Err(PriorStateMismatch)
      else
        var result := State(target, e.recordKind, ACTIVE, 1, e.eventId, None, value);
        if !Asserts(env, e.resultingState, env.marshalState(result)) then Err(ResultingStateMismatch)
        else Ok(current[target := result])
  }

  function ApplyReplace(env: Env, current: Projection, bindings: Bindings, target: string, e: Event)
    : Result<Projection, Error>
  {
    if target !in current then Err(NotFound)
    else
      var state := current[target];
      if state.status == REVOKED_STATUS then Err(TerminalState)
      else if e.recordKind != state.recordKind then Err(RecordKindMismatch)
      else if !Bound(bindings, state.recordKind) then Err(PolicyUnbound)
      else
        var value :- RequireValue(env, e.value);
        if !Asserts(env, e.priorState, env.marshalState(state)) then Err(PriorStateMismatch)
        else
          var result := State(target, state.recordKind, ACTIVE, (state.revision + 1) % TWO_64, e.eventId,
                              Some(state.currentEventId), value);
          if !Asserts(env, e.resultingState, env.marshalState(result)) then Err(ResultingStateMismatch)
          else Ok(current[target := result])
  }

  function ApplyRevoke(env: Env, current: Projection, bindings: Bindings, target: string, e: Event)
    : Result<Projection, Error>
  {
    if target !in current then Err(NotFound)
    else
      var state := current[target];
      if state.status == REVOKED_STATUS then Err(TerminalState)
      else if e.recordKind != state.recordKind then Err(RecordKindMismatch)
      else if !Bound(bindings, state.recordKind) then Err(PolicyUnbound)
      else if e.value != "" then Err(TransitionInvalid)
      else if !Asserts(env, e.priorState, env.marshalState(state)) then Err(PriorStateMismatch)
      else
        var result := State(target, state.recordKind, REVOKED_STATUS, (state.revision + 1) % TWO_64, e.eventId,
                            Some(state.currentEventId), "");
        if !Asserts(env, e.resultingState, env.marshalState(result)) then Err(ResultingStateMismatch)
        else Ok(current[target := result])
  }

  // --------------------------------------------------------- the target's log

  /** The events of a run of successful applications, with the bindings each was judged by. */
  datatype Step = Step(bindings: Bindings, event: Event)

  function ApplyAll(env: Env, steps: seq<Step>): Result<Projection, Error> {
    if steps == [] then Ok(map[])
    else
      var before :- ApplyAll(env, steps[..|steps| - 1]);
      var last := steps[|steps| - 1];
      Apply(env, before, last.bindings, last.event)
  }

  /** The events on one target, oldest first. */
  function LogOf(steps: seq<Step>, target: string): seq<Event> {
    if steps == [] then []
    else
      var before := LogOf(steps[..|steps| - 1], target);
      var e := steps[|steps| - 1].event;
      if e.targets == [target] then before + [e] else before
  }

  /** Two documents with one canonical form. */
  predicate SameJson(env: Env, a: Raw, b: Raw) {
    env.canon(a).Some? && env.canon(a) == env.canon(b)
  }

  /** What a target's log says, without reference to how states are computed. */
  ghost predicate WellLogged(env: Env, target: string, log: seq<Event>) {
    && (forall i | 0 <= i < |log| ::
          && log[i].recordKind == log[0].recordKind
          && (log[i].eventType == CREATED <==> i == 0)
          && (log[i].eventType == REVOKED ==> i == |log| - 1))
    && (log != [] ==> SameJson(env, log[0].priorState, env.marshalAbsent(target)))
    && (forall i | 0 < i < |log| :: SameJson(env, log[i].priorState, log[i - 1].resultingState))
  }

  /** The projected state is the one the log's last event asserts. */
  ghost predicate StateOfLog(env: Env, s: State, target: string, log: seq<Event>) {
    && 0 < |log| <= TWO_64
    && s.targetId == target
    && s.recordKind == log[0].recordKind
    && s.revision == |log| % TWO_64
    && s.currentEventId == log[|log| - 1].eventId
    && s.previousEventId == (if |log| == 1 then None else Some(log[|log| - 2].eventId))
    && (s.status == REVOKED_STATUS <==> log[|log| - 1].eventType == REVOKED)
    && (s.status == ACTIVE <==> log[|log| - 1].eventType != REVOKED)
    && (s.status == ACTIVE ==> SameJson(env, log[|log| - 1].value, s.value) && env.canon(s.value) == Some(s.value))
    && (s.status == REVOKED_STATUS ==> s.value == "" && log[|log| - 1].value == "")
    && SameJson(env, log[|log| - 1].resultingState, env.marshalState(s))
  }

  /** An application changes its own target and nothing else. */
  lemma ApplyFrame(env: Env, p: Projection, bindings: Bindings, e: Event)
    requires Apply(env, p, bindings, e).Ok?
    ensures |e.targets| == 1 && e.targets[0] in Apply(env, p, bindings, e).value
    ensures var q := Apply(env, p, bindings, e).value;
            forall t | t != e.targets[0] :: (t in p <==> t in q) && (t in p ==> p[t] == q[t])
  {
    hide ParsePolicy, ValidState, Asserts, RequireValue, Bound;
  }

  /**
   After any run of applications every target's projection is the state its own
   log asserts: prior and resulting states chain, the revision counts the
   events, the kind never changes and nothing follows a revocation.
   */
  lemma {:induction false} ProjectionIsLog(env: Env, steps: seq<Step>, target: string)
    requires Lawful(env) && ApplyAll(env, steps).Ok?
    ensures var p := ApplyAll(env, steps).value;
            var log := LogOf(steps, target);
            && WellLogged(env, target, log)
            && (target in p <==> log != [])
            && (target in p ==> StateOfLog(env, p[target], target, log))
  {
    if steps != [] {
      var before := steps[..|steps| - 1];
      ProjectionIsLog(env, before, target);
      var p := ApplyAll(env, before).value;
      var last := steps[|steps| - 1];
      ApplyFrame(env, p, last.bindings, last.event);
      if last.event.targets == [target] {
        LogStep(env, p, last.bindings, last.event, target, LogOf(before, target));
      }
    }
  }

  /** What one successful application found and left at its target. */
  lemma AppliedState(env: Env, p: Projection, bindings: Bindings, e: Event, target: string)
    requires Apply(env, p, bindings, e).Ok? && e.targets == [target]
    ensures target in Apply(env, p, bindings, e).value
    ensures var s := Apply(env, p, bindings, e).value[target];
            && (e.eventType == CREATED <==> target !in p)
            && s.targetId == target && s.recordKind == e.recordKind && s.currentEventId == e.eventId
            && (if e.eventType == REVOKED then s.status == REVOKED_STATUS && s.value == "" && e.value == ""
                else s.status == ACTIVE && env.canon(e.value) == Some(s.value))
            && Asserts(env, e.resultingState, env.marshalState(s))
    ensures target !in p ==>
              var s := Apply(env, p, bindings, e).value[target];
              s.revision == 1 && s.previousEventId == None && Asserts(env, e.priorState, env.marshalAbsent(target))
    ensures target in p ==>
              var s, was := Apply(env, p, bindings, e).value[target], p[target];
              && was.status != REVOKED_STATUS && was.revision != 0 && e.recordKind == was.recordKind
              && s.revision == (was.revision + 1) % TWO_64 && s.previousEventId == Some(was.currentEventId)
              && Asserts(env, e.priorState, env.marshalState(was))
  {
    hide ParsePolicy, Asserts, Bound;
  }

  lemma LogStep(env: Env, p: Projection, bindings: Bindings, e: Event, target: string, log: seq<Event>)
    requires Lawful(env) && Apply(env, p, bindings, e).Ok? && e.targets == [target]
    requires WellLogged(env, target, log)
    requires target in p <==> log != []
    requires target in p ==> StateOfLog(env, p[target], target, log)
    ensures WellLogged(env, target, log + [e])
    ensures StateOfLog(env, Apply(env, p, bindings, e).value[target], target, log + [e])
  {
    hide Apply, WellLogged, StateOfLog;
    LogGrows(env, p, bindings, e, target, log);
    StateFollows(env, p, bindings, e, target, log);
  }

  lemma LogGrows(env: Env, p: Projection, bindings: Bindings, e: Event, target: string, log: seq<Event>)
    requires Lawful(env) && Apply(env, p, bindings, e).Ok? && e.targets == [target]
    requires WellLogged(env, target, log)
    requires target in p <==> log != []
    requires target in p ==> StateOfLog(env, p[target], target, log)
    ensures WellLogged(env, target, log + [e])
  {
    hide Apply, LawfulHash, LawfulNames;
    AppliedState(env, p, bindings, e, target);
  }

  lemma StateFollows(env: Env, p: Projection, bindings: Bindings, e: Event, target: string, log: seq<Event>)
    requires Lawful(env) && Apply(env, p, bindings, e).Ok? && e.targets == [target]
    requires target in p <==> log != []
    requires target in p ==> StateOfLog(env, p[target], target, log)
    ensures StateOfLog(env, Apply(env, p, bindings, e).value[target], target, log + [e])
  {
    hide Apply, LawfulHash, LawfulNames;
    AppliedState(env, p, bindings, e, target);
    if target in p {
      NextRevision(|log|, p[target].revision);
    }
  }

  /** A live counter that wrapped to zero accepts nothing more, so counts stay exact. */
  lemma NextRevision(n: nat, revision: nat)
    requires 0 < n <= TWO_64 && revision == n % TWO_64
    ensures revision != 0 ==> n + 1 <= TWO_64 && (revision + 1) % TWO_64 == (n + 1) % TWO_64
  {
  }

  /** The reducer's own states always pass its check, except a revision that has wrapped to zero. */
  lemma ReachedStatesAreValid(env: Env, steps: seq<Step>, target: string)
    requires Lawful(env) && ApplyAll(env, steps).Ok? && target in ApplyAll(env, steps).value
    ensures ValidState(env, target, ApplyAll(env, steps).value[target]) <==> |LogOf(steps, target)| < TWO_64
  {
    ProjectionIsLog(env, steps, target);
    LogFields(env, steps, target);
    LoggedStateIsValid(env, ApplyAll(env, steps).value[target], target, LogOf(steps, target));
  }

  lemma LoggedStateIsValid(env: Env, s: State, target: string, log: seq<Event>)
    requires Lawful(env) && StateOfLog(env, s, target, log)
    requires target != "" && s.recordKind != "" && s.currentEventId != ""
    ensures ValidState(env, target, s) <==> |log| < TWO_64
  {
    if s.status == ACTIVE {
      assert env.canon(s.value).Some?;
    }
  }

  lemma {:induction false} LogFields(env: Env, steps: seq<Step>, target: string)
    requires ApplyAll(env, steps).Ok?
    ensures target in ApplyAll(env, steps).value ==>
              var s := ApplyAll(env, steps).value[target];
              target != "" && s.recordKind != "" && s.currentEventId != ""
  {
    hide Apply;
    if steps != [] {
      var before := steps[..|steps| - 1];
      LogFields(env, before, target);
      var last := steps[|steps| - 1];
      ApplyFrame(env, ApplyAll(env, before).value, last.bindings, last.event);
      AppliedFields(env, ApplyAll(env, before).value, last.bindings, last.event);
    }
  }

  lemma AppliedFields(env: Env, p: Projection, bindings: Bindings, e: Event)
    requires Apply(env, p, bindings, e).Ok?
    ensures var s := Apply(env, p, bindings, e).value[e.targets[0]];
            e.targets[0] != "" && s.currentEventId != "" && s.recordKind == e.recordKind
    ensures e.targets[0] in p ==> e.recordKind == p[e.targets[0]].recordKind
    ensures e.targets[0] !in p ==> e.recordKind != ""
  {
    hide ParsePolicy, ValidState, Asserts, RequireValue, Bound;
  }

  // --------------------------------------------------- exactly what may follow

  /** The state an event asks for on its target, given what is there. */
  function Asked(env: Env, was: Option<State>, target: string, e: Event): State {
    State(target, e.recordKind, if e.eventType == REVOKED then REVOKED_STATUS else ACTIVE,
          if was.Some? then (was.value.revision + 1) % TWO_64 else 1, e.eventId,
          if was.Some? then Some(was.value.currentEventId) else None,
          if e.eventType == REVOKED || env.canon(e.value).None? then "" else env.canon(e.value).value)
  }

  /** Well-formed JSON with this canonical form. */
  predicate Says(env: Env, raw: Raw, expected: Raw) {
    raw != "" && env.strictValid(raw) && SameJson(env, raw, expected)
  }

  /** An event in good form for its type: one target, a value unless it revokes, a policy where a policy is due. */
  predicate WellFormed(env: Env, bindings: Bindings, e: Event) {
    && (e.eventType == CREATED || e.eventType == REPLACED || e.eventType == REVOKED)
    && e.eventId != "" && |e.targets| == 1 && e.targets[0] != ""
    && e.recordKind != "" && e.recordKind in bindings && bindings[e.recordKind] == MODEL
    && (if e.eventType == REVOKED then e.value == ""
        else e.value != "" && env.strictValid(e.value) && env.canon(e.value).Some?)
    && (e.recordKind == POLICY_RECORD_KIND ==>
          e.targets[0] == POLICY_TARGET && (e.eventType != REVOKED ==> ParsePolicy(env, e.value).Some?))
  }

  /** What is on the target admits the event. */
  predicate Receptive(env: Env, was: Option<State>, target: string, e: Event) {
    match was
    case None => e.eventType == CREATED && Says(env, e.priorState, env.marshalAbsent(target))
    case Some(s) =>
      && e.eventType != CREATED && s.status == ACTIVE && s.recordKind == e.recordKind
      && s.targetId == target && s.revision != 0 && s.currentEventId != "" && s.value != ""
      && env.strictValid(s.value) && env.canon(s.value).Some?
      && Says(env, e.priorState, env.marshalState(s))
  }

  function Current(p: Projection, target: string): Option<State> {
    if target in p then Some(p[target]) else None
  }

  /**
   An event is applied exactly when it is in good form, its target admits it and it
   asserts the state it leads to; and then that is the target's state.
   */
  lemma ApplySucceedsIff(env: Env, p: Projection, bindings: Bindings, e: Event)
    ensures Apply(env, p, bindings, e).Ok? <==>
              && WellFormed(env, bindings, e) && Receptive(env, Current(p, e.targets[0]), e.targets[0], e)
              && Says(env, e.resultingState, env.marshalState(Asked(env, Current(p, e.targets[0]), e.targets[0], e)))
    ensures Apply(env, p, bindings, e).Ok? ==>
              Apply(env, p, bindings, e).value == p[e.targets[0] := Asked(env, Current(p, e.targets[0]), e.targets[0], e)]
  {
    hide ParsePolicy;
    assert CREATED[..|RECORD_PREFIX|] == RECORD_PREFIX;
    assert REPLACED[..|RECORD_PREFIX|] == RECORD_PREFIX;
    assert REVOKED[..|RECORD_PREFIX|] == RECORD_PREFIX;
  }

  /** The state an event asks for after a log, counted from the log alone. */
  function AskedAfter(env: Env, log: seq<Event>, target: string, e: Event): State {
    State(target, e.recordKind, if e.eventType == REVOKED then REVOKED_STATUS else ACTIVE, (|log| + 1) % TWO_64, e.eventId,
          if log == [] then None else Some(log[|log| - 1].eventId),
          if e.eventType == REVOKED || env.canon(e.value).None? then "" else env.canon(e.value).value)
  }

  /** The log ends where the event begins. */
  ghost predicate Continues(env: Env, log: seq<Event>, target: string, e: Event) {
    if log == [] then e.eventType == CREATED && Says(env, e.priorState, env.marshalAbsent(target))
    else
      && e.eventType != CREATED && log[|log| - 1].eventType != REVOKED && log[0].recordKind == e.recordKind
      && |log| < TWO_64 && Says(env, e.priorState, log[|log| - 1].resultingState)
  }

  /**
   After any run of applications, what may come next on a target is decided by its
   log: create once, replace or revoke what is active, of the same kind, from the
   state the last event asserted to the state this one does.
   */
  lemma NextEventAppliesIff(env: Env, steps: seq<Step>, bindings: Bindings, e: Event, target: string)
    requires Lawful(env) && ApplyAll(env, steps).Ok? && e.targets == [target]
    ensures var p, log := ApplyAll(env, steps).value, LogOf(steps, target);
            && (Apply(env, p, bindings, e).Ok? <==>
                  && WellFormed(env, bindings, e) && Continues(env, log, target, e)
                  && Says(env, e.resultingState, env.marshalState(AskedAfter(env, log, target, e))))
            && (Apply(env, p, bindings, e).Ok? ==>
                  Apply(env, p, bindings, e).value == p[target := AskedAfter(env, log, target, e)])
  {
    hide Apply, ParsePolicy, WellFormed, LawfulHash, LawfulNames;
    var p, log := ApplyAll(env, steps).value, LogOf(steps, target);
    ApplySucceedsIff(env, p, bindings, e);
    ProjectionIsLog(env, steps, target);
    LogFields(env, steps, target);
    if target in p {
      NextRevision(|log|, p[target].revision);
      LoggedIsReceptive(env, p[target], log, target, e);
    }
  }

  lemma LoggedIsReceptive(env: Env, s: State, log: seq<Event>, target: string, e: Event)
    requires Lawful(env) && log != [] && StateOfLog(env, s, target, log)
    requires target != "" && s.recordKind != "" && s.currentEventId != ""
    ensures Receptive(env, Some(s), target, e) <==> Continues(env, log, target, e)
  {
    hide LawfulHash, LawfulNames;
    if s.status == ACTIVE {
      assert env.canon(s.value).Some?;
    }
    assert (|log| % TWO_64 != 0) == (|log| < TWO_64);
  }

  /** A refusal names a fact about the event or about its target. */
  lemma RefusalsNameFacts(env: Env, p: Projection, bindings: Bindings, e: Event)
    requires Apply(env, p, bindings, e).Err?
    ensures var err := Apply(env, p, bindings, e).error;
            && (err == NotApplicable <==> !HasPrefix(e.eventType, RECORD_PREFIX))
            && (err == UnknownEvent <==>
                  HasPrefix(e.eventType, RECORD_PREFIX) && e.eventType != CREATED && e.eventType != REPLACED && e.eventType != REVOKED)
            && (err == TargetCardinality ==> |e.targets| != 1 || e.targets[0] == "")
            && (err == AlreadyExists ==> e.eventType == CREATED && |e.targets| == 1 && e.targets[0] in p)
            && (err == NotFound ==> e.eventType != CREATED && |e.targets| == 1 && e.targets[0] !in p)
            && (err == TerminalState ==>
                  e.eventType != CREATED && |e.targets| == 1 && e.targets[0] in p && p[e.targets[0]].status == REVOKED_STATUS)
            && (err == RecordKindMismatch ==>
                  |e.targets| == 1 && e.targets[0] in p && p[e.targets[0]].recordKind != e.recordKind)
            && (err == PolicyUnbound ==> e.recordKind !in bindings || bindings[e.recordKind] != MODEL)
            && (err == PriorStateMismatch ==>
                  && |e.targets| == 1
                  && !Says(env, e.priorState, if e.targets[0] in p then env.marshalState(p[e.targets[0]])
                                              else env.marshalAbsent(e.targets[0])))
            && (err == ResultingStateMismatch ==>
                  && |e.targets| == 1
                  && !Says(env, e.resultingState, env.marshalState(Asked(env, Current(p, e.targets[0]), e.targets[0], e))))
  {
    hide Apply, Says, Asked;
    RefusalsOfEvents(env, p, bindings, e);
    RefusalsOfStates(env, p, bindings, e);
  }

  lemma RefusalsOfEvents(env: Env, p: Projection, bindings: Bindings, e: Event)
    requires Apply(env, p, bindings, e).Err?
    ensures var err := Apply(env, p, bindings, e).error;
            && (err == NotApplicable <==> !HasPrefix(e.eventType, RECORD_PREFIX))
            && (err == UnknownEvent <==>
                  HasPrefix(e.eventType, RECORD_PREFIX) && e.eventType != CREATED && e.eventType != REPLACED && e.eventType != REVOKED)
            && (err == TargetCardinality ==> |e.targets| != 1 || e.targets[0] == "")
            && (err == AlreadyExists ==> e.eventType == CREATED && |e.targets| == 1 && e.targets[0] in p)
            && (err == NotFound ==> e.eventType != CREATED && |e.targets| == 1 && e.targets[0] !in p)
            && (err == PolicyUnbound ==> e.recordKind !in bindings || bindings[e.recordKind] != MODEL)
  {
    hide ParsePolicy, Asserts, ValidState;
  }

  lemma RefusalsOfStates(env: Env, p: Projection, bindings: Bindings, e: Event)
    requires Apply(env, p, bindings, e).Err?
    ensures var err := Apply(env, p, bindings, e).error;
            && (err == TerminalState ==>
                  e.eventType != CREATED && |e.targets| == 1 && e.targets[0] in p && p[e.targets[0]].status == REVOKED_STATUS)
            && (err == RecordKindMismatch ==>
                  |e.targets| == 1 && e.targets[0] in p && p[e.targets[0]].recordKind != e.recordKind)
            && (err == PriorStateMismatch ==>
                  && |e.targets| == 1
                  && !Says(env, e.priorState, if e.targets[0] in p then env.marshalState(p[e.targets[0]])
                                              else env.marshalAbsent(e.targets[0])))
            && (err == ResultingStateMismatch ==>
                  && |e.targets| == 1
                  && !Says(env, e.resultingState, env.marshalState(Asked(env, Current(p, e.targets[0]), e.targets[0], e))))
  {
    hide ParsePolicy;
  }
}
