/** Which actor policy is in force: the root document until the governed target takes over, then only that. */
module CurrentPolicy {
  import opened Wrappers
  import opened Text
  import opened Git
  import opened ActorPolicy
  import opened Domain
  import opened Bindings
  import opened LedgerReplay
  import opened ReplayFacts
  import opened ReplayTheorems
  import Reducer

  datatype Error = ReplayFailed | RootPolicyInvalid | WrongRecordKind | PolicyRevoked | PolicyInvalid

  datatype PolicySnapshot = PolicySnapshot(head: Commit, policy: PolicyDoc, sourceEventId: string)

  /** LoadCurrentActorPolicy. */
  function LoadCurrentActorPolicy(env: Env, head: Commit): Result<PolicySnapshot, Error> {
    match Replay(env, head)
    case Err(_) => Err(ReplayFailed)
    case Ok(m) =>
      var root := m.trust.root;
      if LEDGER_POLICY_PATH !in m.genesis.tree || !m.genesis.tree[LEDGER_POLICY_PATH].regular
      then Err(RootPolicyInvalid)
      else
        match ParsePolicyFor(env, m.genesis.tree[LEDGER_POLICY_PATH].bytes, root.ledgerId, root.initialPolicy)
        case None => Err(RootPolicyInvalid)
        case Some(rootDoc) =>
          if POLICY_TARGET !in m.ledger.records then Ok(PolicySnapshot(head, rootDoc, ""))
          else
            var s := m.ledger.records[POLICY_TARGET];
            if s.recordKind != POLICY_RECORD_KIND then Err(WrongRecordKind)
            else if s.status == Reducer.REVOKED_STATUS then Err(PolicyRevoked)
            else if s.status != Reducer.ACTIVE then Err(PolicyInvalid)
            else
              match ParsePolicyFor(env, s.value, root.ledgerId, root.initialPolicy)
              case None => Err(PolicyInvalid)
              case Some(doc) => Ok(PolicySnapshot(head, doc, s.currentEventId))
  }

  // ------------------------------------------- what the governed value keeps

  /** An active governed policy parses for the ledger under the given policy version. */
  ghost predicate Held(env: Env, root: GenesisRoot, records: Projection, version: string) {
    POLICY_TARGET in records && records[POLICY_TARGET].recordKind == POLICY_RECORD_KIND &&
    records[POLICY_TARGET].status == Reducer.ACTIVE
    ==> ParsePolicyFor(env, records[POLICY_TARGET].value, root.ledgerId, version).Some?
  }

  /** The snapshot does not bind the policy kind to any other policy version. */
  predicate Agrees(bindings: Snapshot, version: string) {
    POLICY_RECORD_KIND in bindings.byKind ==> bindings.byKind[POLICY_RECORD_KIND].policyVersion == version
  }

  lemma GovernedKeepsHeld(
    env: Env, root: GenesisRoot, records: Projection, bindings: Snapshot, parent: string, doc: EventDoc, version: string)
    requires ApplyGoverned(env, records, bindings, root, parent, doc).Ok?
    requires Agrees(bindings, version) && Held(env, root, records, version)
    ensures Held(env, root, ApplyGoverned(env, records, bindings, root, parent, doc).value, version)
  {
    hide Reducer.ValidState, Reducer.Asserts, Reducer.Bound, Reducer.RequireValue;
    var next := ApplyGoverned(env, records, bindings, root, parent, doc).value;
    var e := ReducerEvent(doc);
    Reducer.ApplyFrame(env, records, ReducerBindings(bindings), e);
    if e.targets == [POLICY_TARGET] {
      AppliedValue(env, records, ReducerBindings(bindings), e);
    }
  }

  /** An application leaves its target with the event's kind; an active result holds the canonical value. */
  lemma AppliedValue(env: Env, p: Projection, bindings: Reducer.Bindings, e: Reducer.Event)
    requires Reducer.Apply(env, p, bindings, e).Ok? && |e.targets| == 1
    ensures var s := Reducer.Apply(env, p, bindings, e).value[e.targets[0]];
            && s.recordKind == e.recordKind
            && (e.eventType == Reducer.CREATED || e.eventType == Reducer.REPLACED ==> env.canon(e.value) == Some(s.value))
            && (e.eventType == Reducer.CREATED || e.eventType == Reducer.REPLACED || s.status == Reducer.REVOKED_STATUS)
  {
    hide Reducer.ValidState, Reducer.Asserts, Reducer.Bound, ParsePolicy;
  }

  lemma {:induction false} AddEventsKeepHeld(
    env: Env, root: GenesisRoot, registry: Registry, bindings: Snapshot, c: Commit, l: Ledger, paths: seq<string>,
    version: string)
    requires forall p | p in paths :: p in c.tree
    requires AddEvents(env, root, registry, bindings, c, l, paths).Ok?
    requires Agrees(bindings, version) && Held(env, root, l.records, version)
    ensures Held(env, root, AddEvents(env, root, registry, bindings, c, l, paths).value.records, version)
  {
    hide Held, Agrees, ApplyGoverned, ValidateEvent, HasEventId, HasKey;
    if paths != [] {
      var before := paths[..|paths| - 1];
      AddEventsKeepHeld(env, root, registry, bindings, c, l, before, version);
      var l0 := AddEvents(env, root, registry, bindings, c, l, before).value;
      var e := ValidateEvent(env, registry, c, paths[|paths| - 1]).value;
      if IsRecordEvent(e.doc) {
        GovernedKeepsHeld(env, root, l0.records, bindings, ParentId(env, c), e.doc, version);
      }
    }
  }

  lemma ReplayCommitKeepsHeld(env: Env, root: GenesisRoot, first: Commit, l: Ledger, c: Commit, version: string)
    requires ReplayCommit(env, root, first, l, c).Ok? && Held(env, root, l.records, version)
    requires BindingsAt(env, c).Some? ==> Agrees(BindingsAt(env, c).value, version)
    ensures Held(env, root, ReplayCommit(env, root, first, l, c).value.records, version)
  {
    hide ImmutableJsonAdditions, EventAdditions, LoadSchemas, LoadBindings, AddEvents, RootBindingsAgree, Held, Agrees;
    if LoadSchemas(env, c.tree).Some? {
      var registry := LoadSchemas(env, c.tree).value;
      if LoadBindings(env, registry, c.tree).Some? && EventAdditions(c).Some? {
        var bindings := LoadBindings(env, registry, c.tree).value;
        var start := l.(bindingCount := |bindings.byKind|);
        var paths := EventAdditions(c).value;
        if AddEvents(env, root, registry, bindings, c, start, paths).Ok? {
          AddEventsKeepHeld(env, root, registry, bindings, c, start, paths, version);
        }
      }
    }
  }

  /** Wherever the policy kind is bound below a head, it is bound to one version. */
  lemma {:induction false} HeldAt(env: Env, a: Commit, head: Commit, version: string)
    requires Replay(env, head).Ok? && Within(a, head) && Replay(env, a).Ok?
    requires forall x | Within(x, head) && BindingsAt(env, x).Some? :: Agrees(BindingsAt(env, x).value, version)
    ensures Held(env, Replay(env, head).value.trust.root, Replay(env, a).value.ledger.records, version)
    decreases a
  {
    hide Replay, ReplayCommit, ReplayHistory, ReadTrust, ValidateGenesis, ValidNamespace, LeavesTrust, Held, BindingsAt, Agrees;
    ReplayWithin(env, a, head);
    ReplayParts(env, a);
    var root := Replay(env, head).value.trust.root;
    EmptyHeld(env, root, version);
    if |a.parents| == 0 {
      RootReplay(env, a);
      ReplayCommitKeepsHeld(env, root, a, Ledger([], map[], 0), a, version);
    } else {
      var p := a.parents[0];
      ReplayOfParent(env, a);
      WithinTransitive(p, a, head);
      var m0 := Replay(env, p).value;
      HeldAt(env, p, head, version);
      ReplayCommitKeepsHeld(env, root, m0.genesis, m0.ledger, a, version);
    }
  }

  lemma EmptyHeld(env: Env, root: GenesisRoot, version: string)
    ensures Held(env, root, map[], version)
  {
  }

  lemma RootReplay(env: Env, a: Commit)
    requires Replay(env, a).Ok? && |a.parents| == 0
    ensures var m := Replay(env, a).value;
            m.genesis == a && ReplayCommit(env, m.trust.root, a, Ledger([], map[], 0), a) == Ok(m.ledger)
  {
    hide Replay, ReplayCommit, ReadTrust, ValidNamespace, LeavesTrust;
    ReplayParts(env, a);
    var m := Replay(env, a).value;
    assert Chain(a) == [a] && Chain(a)[..0] == [];
    assert ReplayHistory(env, m.trust.root, a, []) == Ok(Ledger([], map[], 0));
  }

  // ------------------------------------------------------- bound at Genesis

  /** The first commit binds the policy kind. */
  predicate BoundAtGenesis(env: Env, m: Manifest) {
    BindingsAt(env, m.genesis).Some? && POLICY_RECORD_KIND in BindingsAt(env, m.genesis).value.byKind
  }

  /** A binding in the first commit carries the policy version Genesis declares. */
  lemma GenesisBindingAgrees(env: Env, g: Commit)
    requires Replay(env, g).Ok? && |g.parents| == 0
    requires BindingsAt(env, g).Some? && POLICY_RECORD_KIND in BindingsAt(env, g).value.byKind
    ensures BindingsAt(env, g).value.byKind[POLICY_RECORD_KIND].policyVersion
         == Replay(env, g).value.trust.root.initialPolicy
  {
    hide Replay, ReplayCommit, BindingsAt, ImmutableJsonAdditions;
    RootReplay(env, g);
    KindIsFiled(env, g, POLICY_RECORD_KIND);
    RootIsChecked(env, Replay(env, g).value.trust.root, g);
  }

  lemma KindIsFiled(env: Env, g: Commit, kind: string)
    requires |g.parents| == 0 && BindingsAt(env, g).Some? && kind in BindingsAt(env, g).value.byKind
    ensures ImmutableJsonAdditions(g, BINDING_DIR) != Some([])
    ensures var s := BindingsAt(env, g).value;
            s.byKind[kind].bindingId in s.byId && s.byId[s.byKind[kind].bindingId] == s.byKind[kind]
  {
    hide LoadSchemas, ImmutableJsonAdditions, JsonFiles, AddBindings;
    var registry := LoadSchemas(env, g.tree).value;
    var raws := JsonFiles(g.tree, BINDING_DIR).value;
    LoadedUnderBoth(env, registry, raws, kind);
    LoadedKindsAreFiled(env, registry, raws, kind);
    var raw :| raw in raws && env.decodeBinding(raw) == Some(BindingsAt(env, g).value.byKind[kind]);
    RootFileIsAddition(g, raw);
  }

  lemma RootIsChecked(env: Env, root: GenesisRoot, g: Commit)
    requires ReplayCommit(env, root, g, Ledger([], map[], 0), g).Ok?
    requires BindingsAt(env, g).Some? && ImmutableJsonAdditions(g, BINDING_DIR) != Some([])
    ensures RootBindingsAgree(BindingsAt(env, g).value, root)
  {
    hide LoadSchemas, LoadBindings, AddEvents, EventAdditions, ImmutableJsonAdditions, RootBindingsAgree;
  }

  lemma RootFileIsAddition(g: Commit, raw: Raw)
    requires |g.parents| == 0 && JsonFiles(g.tree, BINDING_DIR).Some? && raw in JsonFiles(g.tree, BINDING_DIR).value
    ensures ImmutableJsonAdditions(g, BINDING_DIR) != Some([])
  {
    hide ListJson, Contents;
    FiledSomewhere(g.tree, BINDING_DIR, raw);
    var p :| IsJsonFile(g.tree, BINDING_DIR, p) && g.tree[p].bytes == raw;
    NothingUnderOrSome(g, BINDING_DIR, p);
  }

  lemma NothingUnderOrSome(g: Commit, dir: string, p: string)
    requires |g.parents| == 0 && p in g.tree && Under(p, dir)
    ensures ImmutableJsonAdditions(g, dir) != Some([])
  {
    assert p in ChangedUnder(g, dir);
    assert p in SortedPaths(ChangedUnder(g, dir));
  }

  lemma GenesisWithin(env: Env, head: Commit)
    requires Replay(env, head).Ok?
    ensures var g := Replay(env, head).value.genesis; Within(g, head) && |g.parents| == 0
    ensures forall x | Within(x, head) :: Within(Replay(env, head).value.genesis, x)
  {
    hide Replay;
    ReplayParts(env, head);
    ChainLinks(head);
    var g := Replay(env, head).value.genesis;
    ChainElementsWithin(g, head);
    forall x | Within(x, head) ensures Within(g, x) {
      WithinIsPrefix(x, head);
      assert Chain(x)[0] == g;
      assert Chain(x)[0] in Chain(x);
      ChainElementsWithin(g, x);
    }
  }

  /** Bound at Genesis, the policy kind means the declared version at every later commit. */
  lemma VersionIsFixed(env: Env, head: Commit)
    requires Replay(env, head).Ok? && BoundAtGenesis(env, Replay(env, head).value)
    ensures forall x | Within(x, head) && BindingsAt(env, x).Some? ::
              Agrees(BindingsAt(env, x).value, Replay(env, head).value.trust.root.initialPolicy)
  {
    hide Replay, BindingsAt;
    var g := Replay(env, head).value.genesis;
    GenesisWithin(env, head);
    ReplayWithin(env, g, head);
    GenesisBindingAgrees(env, g);
    forall x | Within(x, head) && BindingsAt(env, x).Some?
      ensures Agrees(BindingsAt(env, x).value, Replay(env, head).value.trust.root.initialPolicy)
    {
      ReplayWithin(env, x, head);
      BindingsAreFixed(env, g, x, POLICY_RECORD_KIND);
    }
  }

  // ---------------------------------------------------------------- theorems

  /** The document a replayed root commit establishes is the one the loader reads back. */
  lemma RootPolicyReadsBack(env: Env, head: Commit)
    requires Replay(env, head).Ok?
    ensures var m := Replay(env, head).value;
            && LEDGER_POLICY_PATH in m.genesis.tree && m.genesis.tree[LEDGER_POLICY_PATH].regular
            && ParsePolicyFor(env, m.genesis.tree[LEDGER_POLICY_PATH].bytes, m.trust.root.ledgerId, m.trust.root.initialPolicy)
               == Some(m.trust.policy)
  {
    hide Replay, ReplayHistory, ParseGenesis, DeclaresSchemas, EventAdditions, ImmutableJsonAdditions, SortedPaths,
      ParsePolicyFor, ValidNamespace;
    ReplayParts(env, head);
  }

  /**
   With the policy kind bound in the Genesis commit the policy in force is, at
   every head that replays: the root document while nothing governs the target;
   the last governed value, which always parses, while it is active; refused
   once revoked, or while a record of another kind holds the target.
   */
  lemma PolicySelection(env: Env, head: Commit)
    requires Lawful(env) && Replay(env, head).Ok? && BoundAtGenesis(env, Replay(env, head).value)
    ensures var m, r := Replay(env, head).value, LoadCurrentActorPolicy(env, head);
            if POLICY_TARGET !in m.ledger.records then r == Ok(PolicySnapshot(head, m.trust.policy, ""))
            else
              var s := m.ledger.records[POLICY_TARGET];
              if s.recordKind != POLICY_RECORD_KIND then r == Err(WrongRecordKind)
              else if s.status == Reducer.REVOKED_STATUS then r == Err(PolicyRevoked)
              else
                && r.Ok? && r.value.sourceEventId == s.currentEventId
                && ParsePolicyFor(env, s.value, m.trust.root.ledgerId, m.trust.root.initialPolicy) == Some(r.value.policy)
  {
    hide Replay, ParsePolicyFor, BindingsAt, Agrees, StepsOf, Lawful;
    RootPolicyReadsBack(env, head);
    VersionIsFixed(env, head);
    HeldAt(env, head, head, Replay(env, head).value.trust.root.initialPolicy);
    if POLICY_TARGET in Replay(env, head).value.ledger.records {
      StatusIsKnown(env, head);
    }
  }

  lemma StatusIsKnown(env: Env, head: Commit)
    requires Lawful(env) && Replay(env, head).Ok? && POLICY_TARGET in Replay(env, head).value.ledger.records
    ensures var s := Replay(env, head).value.ledger.records[POLICY_TARGET];
            s.status == Reducer.ACTIVE || s.status == Reducer.REVOKED_STATUS
  {
    hide Replay, StepsOf, Lawful, Reducer.WellLogged, Reducer.LogOf;
    TargetLog(env, head, POLICY_TARGET);
  }

  /**
   Exactly when an active governed policy can be loaded at all: the binding of
   its kind, wherever in the history it was read, names the version Genesis
   declared. A binding added later under another version makes it unreadable.
   */
  lemma GovernedPolicyLoadsIff(env: Env, head: Commit, x: Commit)
    requires Replay(env, head).Ok? && Within(x, head) && BindingsAt(env, x).Some?
    requires POLICY_RECORD_KIND in BindingsAt(env, x).value.byKind
    requires var records := Replay(env, head).value.ledger.records;
             POLICY_TARGET in records && records[POLICY_TARGET].recordKind == POLICY_RECORD_KIND &&
             records[POLICY_TARGET].status == Reducer.ACTIVE
    ensures LoadCurrentActorPolicy(env, head).Ok? <==>
            BindingsAt(env, x).value.byKind[POLICY_RECORD_KIND].policyVersion
            == Replay(env, head).value.trust.root.initialPolicy
  {
    hide Replay, BindingsAt, ParsePolicy;
    var version := BindingsAt(env, x).value.byKind[POLICY_RECORD_KIND].policyVersion;
    forall y | Within(y, head) && BindingsAt(env, y).Some? ensures Agrees(BindingsAt(env, y).value, version) {
      if POLICY_RECORD_KIND in BindingsAt(env, y).value.byKind {
        ReplayWithin(env, x, head);
        ReplayWithin(env, y, head);
        WithinTotal(x, y, head);
        if Within(x, y) {
          BindingsAreFixed(env, x, y, POLICY_RECORD_KIND);
        } else {
          BindingsAreFixed(env, y, x, POLICY_RECORD_KIND);
        }
      }
    }
    RootPolicyReadsBack(env, head);
    HeldAt(env, head, head, version);
  }

  /** A revoked policy stays revoked at every head that extends the one where it was. */
  lemma RevocationIsFinal(env: Env, a: Commit, b: Commit)
    requires Replay(env, b).Ok? && Within(a, b)
    requires LoadCurrentActorPolicy(env, a) == Err(PolicyRevoked)
    ensures LoadCurrentActorPolicy(env, b) == Err(PolicyRevoked)
  {
    hide Replay, ParsePolicyFor;
    ReplayWithin(env, a, b);
    RootPolicyReadsBack(env, b);
    RevokedStateStays(env, a, b, POLICY_TARGET);
  }

  /**
   The policy in force, by the events alone: the root document until an event has the
   target; then what the last of them says, which is a refusal if it holds another kind
   or revokes, and otherwise its value, if that is a policy of this ledger under the
   version Genesis declares.
   */
  lemma PolicyInForce(env: Env, head: Commit)
    requires Lawful(env) && Replay(env, head).Ok?
    ensures var m, r := Replay(env, head).value, LoadCurrentActorPolicy(env, head);
            var log := Reducer.LogOf(StepsOf(env, Events(env, head)), POLICY_TARGET);
            if log == [] then r == Ok(PolicySnapshot(head, m.trust.policy, ""))
            else
              var last := log[|log| - 1];
              if last.recordKind != POLICY_RECORD_KIND then r == Err(WrongRecordKind)
              else if last.eventType == Reducer.REVOKED then r == Err(PolicyRevoked)
              else
                && env.canon(last.value).Some?
                && match ParsePolicyFor(env, env.canon(last.value).value, m.trust.root.ledgerId, m.trust.root.initialPolicy)
                   case None => r == Err(PolicyInvalid)
                   case Some(doc) => r == Ok(PolicySnapshot(head, doc, last.eventId))
  {
    hide Replay, StepsOf, Lawful, Reducer.LogOf, ParsePolicyFor;
    RootPolicyReadsBack(env, head);
    TargetLog(env, head, POLICY_TARGET);
    var log := Reducer.LogOf(StepsOf(env, Events(env, head)), POLICY_TARGET);
    if log != [] {
      LogIsOfOneKind(env, POLICY_TARGET, log);
    }
  }

  lemma LogIsOfOneKind(env: Env, target: string, log: seq<Reducer.Event>)
    requires Reducer.WellLogged(env, target, log) && log != []
    ensures log[|log| - 1].recordKind == log[0].recordKind
  {
  }

  /** Where replay fails nothing is in force. */
  lemma NoPolicyWithoutReplay(env: Env, head: Commit)
    ensures Replay(env, head).Err? <==> LoadCurrentActorPolicy(env, head) == Err(ReplayFailed)
  {
    hide Replay, ParsePolicyFor;
  }
}
