/** The ledger's promises: append-only trees, fixed bindings, per-target logs. */
module ReplayTheorems {
  import opened Wrappers
  import opened Text
  import opened Git
  import opened ActorPolicy
  import opened Domain
  import opened Bindings
  import opened LedgerReplay
  import opened ReplayFacts
  import Reducer

  // --------------------------------------------------------- monotone trees

  ghost predicate Contained(a: Tree, b: Tree) {
    forall p | p in a :: p in b && b[p] == a[p]
  }

  /** Every path a valid commit changes falls under one of the append-only rules. */
  lemma CommitOnlyAdds(c: Commit)
    requires |c.parents| == 1 && ValidNamespace(c) && LeavesTrust(c)
    requires ImmutableJsonAdditions(c, SCHEMA_DIR).Some? && ImmutableJsonAdditions(c, BINDING_DIR).Some?
    requires EventAdditions(c).Some?
    ensures Contained(c.parents[0].tree, c.tree)
  {
    hide ValidEventPath, ValidVersionedPath;
    forall p | p in c.parents[0].tree ensures p in c.tree && c.tree[p] == c.parents[0].tree[p] {
      if p in Changed(c) {
        ChangedPathIsAdded(c, p);
      }
    }
  }

  lemma ChangedPathIsAdded(c: Commit, p: string)
    requires p in Changed(c) && ValidLedgerPath(p) && LeavesTrust(c)
    requires ImmutableJsonAdditions(c, SCHEMA_DIR).Some? && ImmutableJsonAdditions(c, BINDING_DIR).Some?
    requires EventAdditions(c).Some?
    ensures Added(c, p)
    ensures p != GENESIS_PATH && p != LEDGER_POLICY_PATH
  {
    hide ValidEventPath, ValidVersionedPath, ValidLedgerPath, Changed, Added, ImmutableJsonAdditions, EventAdditions;
    LedgerPathDirectory(p);
    var dir :| dir in [GENESIS_DIR, LEDGER_POLICY_DIR, SCHEMA_DIR, BINDING_DIR, EVENTS] && Under(p, dir);
    if dir == GENESIS_DIR || dir == LEDGER_POLICY_DIR {
      NothingUnder(c, dir, p);
    } else {
      AddedUnder(c, dir, p);
    }
    if p == GENESIS_PATH {
      assert Under(p, GENESIS_DIR);
      NothingUnder(c, GENESIS_DIR, p);
    }
    if p == LEDGER_POLICY_PATH {
      assert Under(p, LEDGER_POLICY_DIR);
      NothingUnder(c, LEDGER_POLICY_DIR, p);
    }
  }

  lemma AddedUnder(c: Commit, dir: string, p: string)
    requires p in Changed(c) && Under(p, dir)
    requires ImmutableJsonAdditions(c, dir).Some? || (dir == EVENTS && EventAdditions(c).Some?)
    ensures Added(c, p)
  {
    hide Changed, Under;
    assert p in ChangedUnder(c, dir);
  }

  lemma NothingUnder(c: Commit, dir: string, p: string)
    requires ImmutableJsonAdditions(c, dir) == Some([])
    ensures !(p in Changed(c) && Under(p, dir))
  {
    assert p in ChangedUnder(c, dir) <==> p in SortedPaths(ChangedUnder(c, dir));
  }

  lemma LedgerPathDirectory(p: string)
    requires ValidLedgerPath(p)
    ensures exists dir :: dir in [GENESIS_DIR, LEDGER_POLICY_DIR, SCHEMA_DIR, BINDING_DIR, EVENTS] && Under(p, dir)
  {
    hide ValidEventPath, ValidVersionedPath;
    var dirs := [GENESIS_DIR, LEDGER_POLICY_DIR, SCHEMA_DIR, BINDING_DIR, EVENTS];
    assert GENESIS_DIR + "/" <= GENESIS_PATH && LEDGER_POLICY_DIR + "/" <= LEDGER_POLICY_PATH;
    assert EVENTS + "/" == "events/";
    assert GENESIS_DIR == dirs[0] && LEDGER_POLICY_DIR == dirs[1] && SCHEMA_DIR == dirs[2];
    assert BINDING_DIR == dirs[3] && EVENTS == dirs[4];
    if p == GENESIS_PATH {
      assert Under(p, GENESIS_DIR);
    } else if p == LEDGER_POLICY_PATH {
      assert Under(p, LEDGER_POLICY_DIR);
    } else if HasPrefix(p, SCHEMA_DIR + "/") {
      assert Under(p, SCHEMA_DIR);
    } else if HasPrefix(p, BINDING_DIR + "/") {
      assert Under(p, BINDING_DIR);
    } else {
      assert Under(p, EVENTS);
    }
  }

  lemma ReplayedCommitIsAppendOnly(env: Env, root: GenesisRoot, first: Commit, l: Ledger, c: Commit)
    requires ReplayCommit(env, root, first, l, c).Ok?
    ensures ImmutableJsonAdditions(c, SCHEMA_DIR).Some? && ImmutableJsonAdditions(c, BINDING_DIR).Some?
    ensures EventAdditions(c).Some?
  {
    hide ImmutableJsonAdditions, EventAdditions, LoadSchemas, LoadBindings, AddEvents, RootBindingsAgree;
  }

  /** Files once in a replayable history stay, unchanged, at every later commit. */
  lemma {:induction false} TreesOnlyGrow(env: Env, a: Commit, b: Commit)
    requires Replay(env, b).Ok? && Within(a, b)
    ensures Contained(a.tree, b.tree)
    decreases b
  {
    hide Replay, ReplayCommit, ValidNamespace, LeavesTrust;
    if a != b {
      var p := b.parents[0];
      ReplayOfParent(env, b);
      var m0 := Replay(env, p).value;
      ReplayedCommitIsAppendOnly(env, m0.trust.root, m0.genesis, m0.ledger, b);
      CommitOnlyAdds(b);
      TreesOnlyGrow(env, a, p);
    }
  }

  /** The root documents are added by the first commit and touched by no other. */
  lemma TrustIsRootOnly(env: Env, a: Commit, b: Commit)
    requires Replay(env, b).Ok? && Within(a, b)
    ensures |a.parents| == 0 <==> a == Replay(env, b).value.genesis
    ensures |a.parents| == 0 ==> Added(a, GENESIS_PATH) && Added(a, LEDGER_POLICY_PATH)
    ensures |a.parents| == 1 ==> GENESIS_PATH !in Changed(a) && LEDGER_POLICY_PATH !in Changed(a)
  {
    hide ReplayCommit, ValidNamespace, Sealed, ParseGenesis, ReplayHistory, DeclaresSchemas, SortedPaths;
    ReplayWithin(env, a, b);
    ReplayParts(env, a);
    if |a.parents| == 0 {
      assert a == Replay(env, a).value.genesis;
    } else {
      ReplayOfParent(env, a);
      NothingUnder(a, GENESIS_DIR, GENESIS_PATH);
      NothingUnder(a, LEDGER_POLICY_DIR, LEDGER_POLICY_PATH);
      assert Under(GENESIS_PATH, GENESIS_DIR) && Under(LEDGER_POLICY_PATH, LEDGER_POLICY_DIR);
    }
  }

  /** The binding snapshot at a commit, when it loads. */
  function BindingsAt(env: Env, c: Commit): Option<Snapshot> {
    match LoadSchemas(env, c.tree)
    case None => None
    case Some(registry) => LoadBindings(env, registry, c.tree)
  }

  /** Where nothing is added beneath a directory, it is what it was at the parent. */
  lemma UntouchedDirectory(c: Commit, dir: string)
    requires |c.parents| == 1 && ImmutableJsonAdditions(c, dir) == Some([])
    ensures JsonFiles(c.tree, dir) == JsonFiles(c.parents[0].tree, dir)
  {
    hide Under, ImmutableJsonAdditions;
    forall p | p in c.tree.Keys + c.parents[0].tree.Keys && Under(p, dir)
      ensures p in c.tree && p in c.parents[0].tree && c.tree[p] == c.parents[0].tree[p]
    {
      NothingUnder(c, dir, p);
    }
    JsonFilesFrame(c.tree, c.parents[0].tree, dir);
  }

  /** A commit that adds schemas, bindings or events loads its snapshot; any other keeps the parent's. */
  lemma CommitLoadsBindings(env: Env, root: GenesisRoot, first: Commit, l: Ledger, c: Commit)
    requires |c.parents| == 1 && ReplayCommit(env, root, first, l, c).Ok?
    ensures BindingsAt(env, c).Some? || BindingsAt(env, c) == BindingsAt(env, c.parents[0])
    ensures EventAdditions(c).Some? && (EventAdditions(c).value != [] ==> BindingsAt(env, c).Some?)
  {
    hide ImmutableJsonAdditions, EventAdditions, JsonFiles, AddBindings, AddSchemas, AddEvents, RootBindingsAgree;
    if ImmutableJsonAdditions(c, SCHEMA_DIR) == Some([]) && ImmutableJsonAdditions(c, BINDING_DIR) == Some([]) {
      UntouchedDirectory(c, SCHEMA_DIR);
      UntouchedDirectory(c, BINDING_DIR);
    }
  }

  /** A snapshot that loads at one commit loads at every later one. */
  lemma {:induction false} BindingsPersist(env: Env, a: Commit, b: Commit)
    requires Replay(env, b).Ok? && Within(a, b) && BindingsAt(env, a).Some?
    ensures BindingsAt(env, b).Some?
    decreases b
  {
    hide Replay, ReplayCommit, ValidNamespace, LeavesTrust, BindingsAt, EventAdditions;
    if a != b {
      var p := b.parents[0];
      ReplayOfParent(env, b);
      BindingsPersist(env, a, p);
      var m0 := Replay(env, p).value;
      CommitLoadsBindings(env, m0.trust.root, m0.genesis, m0.ledger, b);
    }
  }

  /** A record kind's binding, once present, is present and the same at every later commit. */
  lemma BindingsAreFixed(env: Env, a: Commit, b: Commit, kind: string)
    requires Replay(env, b).Ok? && Within(a, b) && BindingsAt(env, a).Some?
    requires kind in BindingsAt(env, a).value.byKind
    ensures BindingsAt(env, b).Some? && kind in BindingsAt(env, b).value.byKind
    ensures BindingsAt(env, b).value.byKind[kind] == BindingsAt(env, a).value.byKind[kind]
  {
    hide Replay, LoadSchemas, LoadBindings;
    BindingsPersist(env, a, b);
    TreesOnlyGrow(env, a, b);
    BindingsOnlyGrow(env, LoadSchemas(env, a.tree).value, LoadSchemas(env, b.tree).value, a.tree, b.tree);
  }

  // --------------------------------------------------------- per-target log

  /** Every replayed event was judged under a snapshot that loads. */
  lemma {:induction false} EventsAreGoverned(env: Env, c: Commit)
    requires Replay(env, c).Ok?
    ensures forall e | e in Events(env, c) :: BindingsAt(env, e.commit).Some?
    decreases c
  {
    hide Replay, ReplayCommit, ValidNamespace, LeavesTrust, BindingsAt, EventAdditions, CommitEvents;
    ReplayParts(env, c);
    if |c.parents| == 0 {
      GenesisHasNoEvents(env, c);
    } else {
      ReplayOfParent(env, c);
      EventsAreGoverned(env, c.parents[0]);
      var m0 := Replay(env, c.parents[0]).value;
      CommitAddsItsEvents(env, m0.trust.root, m0.genesis, m0.ledger, c);
      CommitLoadsBindings(env, m0.trust.root, m0.genesis, m0.ledger, c);
    }
  }

  /** The reducer's view of a replayed history: its record events, each with the bindings it was judged by. */
  function StepsOf(env: Env, events: seq<Event>): seq<Reducer.Step> {
    if events == [] then []
    else
      var before := StepsOf(env, events[..|events| - 1]);
      var e := events[|events| - 1];
      if IsRecordEvent(e.doc) && BindingsAt(env, e.commit).Some?
      then before + [Reducer.Step(ReducerBindings(BindingsAt(env, e.commit).value), ReducerEvent(e.doc))]
      else before
  }

  ghost predicate Reduced(env: Env, l: Ledger) {
    Reducer.ApplyAll(env, StepsOf(env, l.events)) == Ok(l.records)
  }

  lemma GovernedApplies(
    env: Env, records: Projection, bindings: Snapshot, root: GenesisRoot, parent: string, doc: EventDoc)
    requires ApplyGoverned(env, records, bindings, root, parent, doc).Ok?
    ensures Reducer.Apply(env, records, ReducerBindings(bindings), ReducerEvent(doc))
         == Ok(ApplyGoverned(env, records, bindings, root, parent, doc).value)
  {
    hide Reducer.Apply, ReducerBindings, ParsePolicyFor;
  }

  /** One more event, one more step if it is a record event. */
  lemma StepsGrow(env: Env, events: seq<Event>, e: Event, bindings: Snapshot, records: Projection, next: Projection)
    requires BindingsAt(env, e.commit) == Some(bindings) && Reducer.ApplyAll(env, StepsOf(env, events)) == Ok(records)
    requires if IsRecordEvent(e.doc)
             then Reducer.Apply(env, records, ReducerBindings(bindings), ReducerEvent(e.doc)) == Ok(next)
             else next == records
    ensures Reducer.ApplyAll(env, StepsOf(env, events + [e])) == Ok(next)
  {
    hide Reducer.Apply, BindingsAt, IsRecordEvent;
    var all := events + [e];
    assert all[..|all| - 1] == events && all[|all| - 1] == e;
    if IsRecordEvent(e.doc) {
      var step := Reducer.Step(ReducerBindings(bindings), ReducerEvent(e.doc));
      var steps := StepsOf(env, events) + [step];
      assert StepsOf(env, all) == steps;
      assert steps[..|steps| - 1] == StepsOf(env, events) && steps[|steps| - 1] == step;
    }
  }

  lemma AddEventReduces(
    env: Env, root: GenesisRoot, registry: Registry, bindings: Snapshot, c: Commit, l: Ledger, path: string)
    requires path in c.tree && AddEvent(env, root, registry, bindings, c, l, path).Ok?
    requires BindingsAt(env, c) == Some(bindings) && Reduced(env, l)
    ensures Reduced(env, AddEvent(env, root, registry, bindings, c, l, path).value)
  {
    hide Reducer.Apply, Reducer.ApplyAll, StepsOf, HasEventId, HasKey, BindingsAt, ParseEvent, IsRecordEvent, ApplyGoverned;
    var e := ValidateEvent(env, registry, c, path).value;
    if IsRecordEvent(e.doc) {
      GovernedApplies(env, l.records, bindings, root, ParentId(env, c), e.doc);
    }
    StepsGrow(env, l.events, e, bindings, l.records, AddEvent(env, root, registry, bindings, c, l, path).value.records);
  }

  lemma {:induction false} AddEventsReduce(
    env: Env, root: GenesisRoot, registry: Registry, bindings: Snapshot, c: Commit, l: Ledger, paths: seq<string>)
    requires forall p | p in paths :: p in c.tree
    requires AddEvents(env, root, registry, bindings, c, l, paths).Ok?
    requires BindingsAt(env, c) == Some(bindings) && Reduced(env, l)
    ensures Reduced(env, AddEvents(env, root, registry, bindings, c, l, paths).value)
  {
    hide AddEvent, BindingsAt, Reduced;
    if paths != [] {
      var before := paths[..|paths| - 1];
      AddEventsReduce(env, root, registry, bindings, c, l, before);
      AddEventReduces(env, root, registry, bindings, c,
                      AddEvents(env, root, registry, bindings, c, l, before).value, paths[|paths| - 1]);
    }
  }

  lemma ReplayCommitReduces(env: Env, root: GenesisRoot, first: Commit, l: Ledger, c: Commit)
    requires ReplayCommit(env, root, first, l, c).Ok? && Reduced(env, l)
    ensures Reduced(env, ReplayCommit(env, root, first, l, c).value)
  {
    hide ImmutableJsonAdditions, EventAdditions, LoadSchemas, LoadBindings, AddEvents, RootBindingsAgree;
    if LoadSchemas(env, c.tree).Some? {
      var registry := LoadSchemas(env, c.tree).value;
      if LoadBindings(env, registry, c.tree).Some? {
        var bindings := LoadBindings(env, registry, c.tree).value;
        var start := l.(bindingCount := |bindings.byKind|);
        if EventAdditions(c).Some? {
          var paths := EventAdditions(c).value;
          if AddEvents(env, root, registry, bindings, c, start, paths).Ok? {
            AddEventsReduce(env, root, registry, bindings, c, start, paths);
          }
        }
      }
    }
  }

  /** The replayed projection is the reducer run over the record events, in order, from nothing. */
  lemma {:induction false} RecordsAreReduced(env: Env, c: Commit)
    requires Replay(env, c).Ok?
    ensures Reduced(env, Replay(env, c).value.ledger)
    decreases c
  {
    hide ReplayCommit, ValidNamespace, LeavesTrust, ReadTrust, Reduced;
    ReplayParts(env, c);
    var m := Replay(env, c).value;
    EmptyReduced(env);
    if |c.parents| == 0 {
      assert Chain(c) == [c] && Chain(c)[..0] == [];
      assert ReplayHistory(env, m.trust.root, c, []) == Ok(Ledger([], map[], 0));
      ReplayCommitReduces(env, m.trust.root, c, Ledger([], map[], 0), c);
    } else {
      ReplayOfParent(env, c);
      var m0 := Replay(env, c.parents[0]).value;
      RecordsAreReduced(env, c.parents[0]);
      ReplayCommitReduces(env, m0.trust.root, m0.genesis, m0.ledger, c);
    }
  }

  lemma EmptyReduced(env: Env)
    ensures Reduced(env, Ledger([], map[], 0))
  {
  }

  /**
   After any replayed history, each target's events chain up to canonical JSON:
   absence first, then every prior state equal to the previous resulting state;
   the projection is what the last event asserts; the revision counts the
   events; the kind never changes; nothing follows a revocation.
   */
  lemma TargetLog(env: Env, c: Commit, target: string)
    requires Lawful(env) && Replay(env, c).Ok?
    ensures forall e | e in Events(env, c) :: BindingsAt(env, e.commit).Some?
    ensures var records := Replay(env, c).value.ledger.records;
            var log := Reducer.LogOf(StepsOf(env, Events(env, c)), target);
            && Reducer.WellLogged(env, target, log)
            && (target in records <==> log != [])
            && (target in records ==> Reducer.StateOfLog(env, records[target], target, log))
  {
    hide Replay, Lawful, StepsOf, Reducer.WellLogged, Reducer.StateOfLog, Reducer.LogOf, Reducer.ApplyAll;
    EventsAreGoverned(env, c);
    RecordsAreReduced(env, c);
    Reducer.ProjectionIsLog(env, StepsOf(env, Events(env, c)), target);
  }

  // ------------------------------------------------------------ revocation

  /** A revoked target keeps its very state: nothing follows a revocation. */
  lemma {:induction false} RevokedStateStays(env: Env, a: Commit, b: Commit, target: string)
    requires Replay(env, b).Ok? && Within(a, b) && Replay(env, a).Ok?
    requires target in Replay(env, a).value.ledger.records
    requires Replay(env, a).value.ledger.records[target].status == Reducer.REVOKED_STATUS
    ensures target in Replay(env, b).value.ledger.records
    ensures Replay(env, b).value.ledger.records[target] == Replay(env, a).value.ledger.records[target]
    decreases b
  {
    hide Replay, ReplayCommit, ValidNamespace, LeavesTrust;
    if a != b {
      var p := b.parents[0];
      ReplayOfParent(env, b);
      RevokedStateStays(env, a, p, target);
      var m0 := Replay(env, p).value;
      CommitKeepsRevoked(env, m0.trust.root, m0.genesis, m0.ledger, b, target);
    }
  }

  ghost predicate KeepsRevoked(p: Projection, q: Projection, target: string) {
    target in p && p[target].status == Reducer.REVOKED_STATUS
    ==> target in q && q[target] == p[target]
  }

  lemma ApplyKeepsRevoked(env: Env, p: Projection, bindings: Reducer.Bindings, e: Reducer.Event, target: string)
    requires Reducer.Apply(env, p, bindings, e).Ok?
    ensures KeepsRevoked(p, Reducer.Apply(env, p, bindings, e).value, target)
  {
    hide Reducer.ValidState, Reducer.Asserts, Reducer.Bound, Reducer.RequireValue, ParsePolicy;
  }

  lemma {:induction false} AddEventsKeepRevoked(
    env: Env, root: GenesisRoot, registry: Registry, bindings: Snapshot, c: Commit, l: Ledger, paths: seq<string>,
    target: string)
    requires forall p | p in paths :: p in c.tree
    requires AddEvents(env, root, registry, bindings, c, l, paths).Ok?
    ensures KeepsRevoked(l.records, AddEvents(env, root, registry, bindings, c, l, paths).value.records, target)
  {
    hide Reducer.Apply, ValidateEvent, HasEventId, HasKey, ParsePolicyFor;
    if paths != [] {
      var before := paths[..|paths| - 1];
      AddEventsKeepRevoked(env, root, registry, bindings, c, l, before, target);
      var l0 := AddEvents(env, root, registry, bindings, c, l, before).value;
      var e := ValidateEvent(env, registry, c, paths[|paths| - 1]).value;
      if IsRecordEvent(e.doc) {
        ApplyKeepsRevoked(env, l0.records, ReducerBindings(bindings), ReducerEvent(e.doc), target);
      }
    }
  }

  lemma CommitKeepsRevoked(env: Env, root: GenesisRoot, first: Commit, l: Ledger, c: Commit, target: string)
    requires ReplayCommit(env, root, first, l, c).Ok?
    ensures KeepsRevoked(l.records, ReplayCommit(env, root, first, l, c).value.records, target)
  {
    hide ImmutableJsonAdditions, EventAdditions, LoadSchemas, LoadBindings, AddEvents, RootBindingsAgree;
    if LoadSchemas(env, c.tree).Some? {
      var registry := LoadSchemas(env, c.tree).value;
      if LoadBindings(env, registry, c.tree).Some? && EventAdditions(c).Some? {
        var bindings := LoadBindings(env, registry, c.tree).value;
        var start := l.(bindingCount := |bindings.byKind|);
        if AddEvents(env, root, registry, bindings, c, start, EventAdditions(c).value).Ok? {
          AddEventsKeepRevoked(env, root, registry, bindings, c, start, EventAdditions(c).value, target);
        }
      }
    }
  }
}
