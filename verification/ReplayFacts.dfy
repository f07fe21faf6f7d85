/** What a successful replay guarantees about the history it read. */
module ReplayFacts {
  import opened Wrappers
  import opened Text
  import opened Git
  import opened ActorPolicy
  import opened Domain
  import opened Bindings
  import opened LedgerReplay
  import Reducer

  function Events(env: Env, c: Commit): seq<Event>
    requires Replay(env, c).Ok?
  {
    Replay(env, c).value.ledger.events
  }

  // --------------------------------------------------------------- prefixes

  /** The pieces of a successful replay, for a head and for its parent. */
  lemma ReplayParts(env: Env, c: Commit)
    requires Replay(env, c).Ok?
    ensures Linear(c)
    ensures var m := Replay(env, c).value;
            && m.head == c && m.genesis == Chain(c)[0]
            && ValidateGenesis(env, Chain(c)) == Ok(m.trust)
            && ReadTrust(env, m.genesis) == Ok(m.trust)
            && ReplayHistory(env, m.trust.root, m.genesis, Chain(c)) == Ok(m.ledger)
    ensures forall i | 0 <= i < |Chain(c)| :: ValidNamespace(Chain(c)[i]) && IsObjectId(env.id(Chain(c)[i]))
    ensures forall i | 0 < i < |Chain(c)| :: LeavesTrust(Chain(c)[i])
  {
    hide ValidNamespace, ReadTrust, ReplayCommit, LeavesTrust, IsObjectId;
  }

  /** A replayed head with a parent is its parent's replay followed by one commit. */
  lemma ReplayOfParent(env: Env, c: Commit)
    requires Replay(env, c).Ok? && |c.parents| == 1
    ensures Replay(env, c.parents[0]).Ok?
    ensures var m, m0 := Replay(env, c).value, Replay(env, c.parents[0]).value;
            && m.trust == m0.trust && m.genesis == m0.genesis
            && ReplayCommit(env, m.trust.root, m.genesis, m0.ledger, c) == Ok(m.ledger)
    ensures LeavesTrust(c) && ValidNamespace(c) && IsObjectId(env.id(c)) && c != Replay(env, c).value.genesis
  {
    hide ValidNamespace, ReadTrust, ReplayCommit, LeavesTrust, IsObjectId;
    ReplayParts(env, c);
    var h, h0 := Chain(c), Chain(c.parents[0]);
    assert h[..|h| - 1] == h0;
    assert forall i | 0 <= i < |h0| :: h[i] == h0[i];
    assert h[|h| - 1] == c;
    var m := Replay(env, c).value;
    assert ValidateGenesis(env, h0) == Ok(m.trust);
    assert !exists i | 0 <= i < |h0| :: !ValidNamespace(h0[i]);
    ChainLinks(c);
  }

  /** And conversely. */
  lemma ReplayOfChild(env: Env, c: Commit)
    requires |c.parents| == 1 && Replay(env, c.parents[0]).Ok?
    requires ValidNamespace(c) && LeavesTrust(c) && IsObjectId(env.id(c))
    requires var m0 := Replay(env, c.parents[0]).value;
             ReplayCommit(env, m0.trust.root, m0.genesis, m0.ledger, c).Ok?
    ensures var m0 := Replay(env, c.parents[0]).value;
            Replay(env, c) ==
            Ok(Manifest(c, m0.genesis, m0.trust, ReplayCommit(env, m0.trust.root, m0.genesis, m0.ledger, c).value))
  {
    hide ValidNamespace, ReadTrust, ReplayCommit, LeavesTrust, IsObjectId;
    var p := c.parents[0];
    ReplayParts(env, p);
    var h, h0 := Chain(c), Chain(p);
    assert h == h0 + [c] && h[..|h| - 1] == h0;
    forall i | 0 <= i < |h| ensures ValidNamespace(h[i]) && IsObjectId(env.id(h[i])) {
      if i < |h0| {
        assert h[i] == h0[i];
      }
    }
    forall i | 0 < i < |h| ensures LeavesTrust(h[i]) {
      if i < |h0| {
        assert h[i] == h0[i];
      }
    }
    var m0 := Replay(env, p).value;
    assert ValidateGenesis(env, h) == Ok(m0.trust);
  }

  /** What a single commit adds to the events. */
  function ReadEvents(env: Env, registry: Registry, c: Commit, paths: seq<string>): Option<seq<Event>>
    requires forall p | p in paths :: p in c.tree
  {
    if paths == [] then Some([])
    else
      match ReadEvents(env, registry, c, paths[..|paths| - 1])
      case None => None
      case Some(before) =>
        match ValidateEvent(env, registry, c, paths[|paths| - 1])
        case None => None
        case Some(e) => Some(before + [e])
  }

  function CommitEvents(env: Env, c: Commit): Option<seq<Event>> {
    match EventAdditions(c)
    case None => None
    case Some(paths) =>
      if paths == [] then Some([])
      else
        match LoadSchemas(env, c.tree)
        case None => None
        case Some(registry) => ReadEvents(env, registry, c, paths)
  }

  lemma {:induction false} AddedEvents(
    env: Env, root: GenesisRoot, registry: Registry, bindings: Snapshot, c: Commit, l: Ledger, paths: seq<string>)
    requires forall p | p in paths :: p in c.tree
    requires AddEvents(env, root, registry, bindings, c, l, paths).Ok?
    ensures ReadEvents(env, registry, c, paths).Some?
    ensures AddEvents(env, root, registry, bindings, c, l, paths).value.events
         == l.events + ReadEvents(env, registry, c, paths).value
    ensures forall e | e in ReadEvents(env, registry, c, paths).value :: e.commit == c && e.path in paths
    ensures paths == [] ==> ReadEvents(env, registry, c, paths).value == []
  {
    if paths != [] {
      AddedEvents(env, root, registry, bindings, c, l, paths[..|paths| - 1]);
    }
  }

  /** A replayed commit adds exactly the events its tree adds, all of them its own. */
  lemma CommitAddsItsEvents(env: Env, root: GenesisRoot, first: Commit, l: Ledger, c: Commit)
    requires ReplayCommit(env, root, first, l, c).Ok?
    ensures CommitEvents(env, c).Some?
    ensures ReplayCommit(env, root, first, l, c).value.events == l.events + CommitEvents(env, c).value
    ensures forall e | e in CommitEvents(env, c).value :: e.commit == c && e.path in EventAdditions(c).value
  {
    hide ImmutableJsonAdditions, EventAdditions, LoadSchemas, LoadBindings, AddEvents, RootBindingsAgree, ReadEvents;
    if LoadSchemas(env, c.tree).Some? {
      var registry := LoadSchemas(env, c.tree).value;
      if LoadBindings(env, registry, c.tree).Some? {
        var bindings := LoadBindings(env, registry, c.tree).value;
        var start := l.(bindingCount := |bindings.byKind|);
        var paths := EventAdditions(c).value;
        if AddEvents(env, root, registry, bindings, c, start, paths).Ok? {
          AddedEvents(env, root, registry, bindings, c, start, paths);
        }
      }
    }
  }

  /** Replaying further never rewrites what an earlier head replayed to. */
  lemma {:induction false} ReplayWithin(env: Env, a: Commit, b: Commit)
    requires Replay(env, b).Ok? && Within(a, b)
    ensures Replay(env, a).Ok?
    ensures Replay(env, a).value.trust == Replay(env, b).value.trust
    ensures Replay(env, a).value.genesis == Replay(env, b).value.genesis
    ensures Events(env, a) <= Events(env, b)
    decreases b
  {
    if a != b {
      var p := b.parents[0];
      ReplayOfParent(env, b);
      var m0 := Replay(env, p).value;
      CommitAddsItsEvents(env, m0.trust.root, m0.genesis, m0.ledger, b);
      ReplayWithin(env, a, p);
    }
  }

  /** The root of a replayed history carries no events. */
  lemma GenesisHasNoEvents(env: Env, c: Commit)
    requires Replay(env, c).Ok? && |c.parents| == 0
    ensures Events(env, c) == [] && Replay(env, c).value.genesis == c
  {
    ReplayParts(env, c);
    var m := Replay(env, c).value;
    assert Chain(c) == [c] && Chain(c)[..0] == [];
    assert ReplayHistory(env, m.trust.root, c, []) == Ok(Ledger([], map[], 0));
    CommitAddsItsEvents(env, m.trust.root, c, Ledger([], map[], 0), c);
  }

  // ------------------------------------------------------------- uniqueness

  /** Each event id and each non-empty key at most once. */
  ghost predicate Distinct(events: seq<Event>) {
    forall i, j | 0 <= i < j < |events| ::
      && events[i].doc.eventId != events[j].doc.eventId
      && (events[i].doc.idempotencyKey != "" ==> events[i].doc.idempotencyKey != events[j].doc.idempotencyKey)
  }

  /** Per event: valid identity, and for a record event the accepting commit's parent as expected commit. */
  ghost predicate Placed(env: Env, e: Event) {
    && e.doc.eventId != "" && e.doc.contentSha != ""
    && e.path in e.commit.tree && Fits(e.path)
    && ParseEvent(env, e.commit.tree[e.path].bytes) == Some(e.doc)
    && (IsRecordEvent(e.doc) ==> e.doc.expectedLedgerCommit == ParentId(env, e.commit) != "")
  }

  lemma AddEventKeeps(
    env: Env, root: GenesisRoot, registry: Registry, bindings: Snapshot, c: Commit, l: Ledger, path: string)
    requires path in c.tree && AddEvent(env, root, registry, bindings, c, l, path).Ok?
    requires Distinct(l.events) && forall e | e in l.events :: Placed(env, e)
    ensures var r := AddEvent(env, root, registry, bindings, c, l, path).value;
            Distinct(r.events) && forall e | e in r.events :: Placed(env, e)
  {
    var e := ValidateEvent(env, registry, c, path).value;
    assert Placed(env, e);
    assert forall x | x in l.events :: x.doc.eventId != e.doc.eventId;
  }

  lemma {:induction false} AddEventsKeep(
    env: Env, root: GenesisRoot, registry: Registry, bindings: Snapshot, c: Commit, l: Ledger, paths: seq<string>)
    requires forall p | p in paths :: p in c.tree
    requires AddEvents(env, root, registry, bindings, c, l, paths).Ok?
    requires Distinct(l.events) && forall e | e in l.events :: Placed(env, e)
    ensures var r := AddEvents(env, root, registry, bindings, c, l, paths).value;
            Distinct(r.events) && forall e | e in r.events :: Placed(env, e)
  {
    if paths != [] {
      var before := paths[..|paths| - 1];
      AddEventsKeep(env, root, registry, bindings, c, l, before);
      AddEventKeeps(env, root, registry, bindings, c,
                    AddEvents(env, root, registry, bindings, c, l, before).value, paths[|paths| - 1]);
    }
  }

  lemma ReplayCommitKeeps(env: Env, root: GenesisRoot, first: Commit, l: Ledger, c: Commit)
    requires ReplayCommit(env, root, first, l, c).Ok?
    requires Distinct(l.events) && forall e | e in l.events :: Placed(env, e)
    ensures var r := ReplayCommit(env, root, first, l, c).value;
            Distinct(r.events) && forall e | e in r.events :: Placed(env, e)
  {
    hide ImmutableJsonAdditions, EventAdditions, LoadSchemas, LoadBindings, AddEvents, RootBindingsAgree, Placed;
    if LoadSchemas(env, c.tree).Some? {
      var registry := LoadSchemas(env, c.tree).value;
      if LoadBindings(env, registry, c.tree).Some? {
        var bindings := LoadBindings(env, registry, c.tree).value;
        var start := l.(bindingCount := |bindings.byKind|);
        var paths := EventAdditions(c).value;
        if AddEvents(env, root, registry, bindings, c, start, paths).Ok? {
          AddEventsKeep(env, root, registry, bindings, c, start, paths);
        }
      }
    }
  }

  /**
   In a replayed history every event id and every idempotency key occurs once,
   every event sits in the commit that accepted it, and a record event names
   that commit's parent.
   */
  lemma {:induction false} ReplayedEventsAreDistinct(env: Env, c: Commit)
    requires Replay(env, c).Ok?
    ensures Distinct(Events(env, c))
    ensures forall e | e in Events(env, c) :: Placed(env, e) && Within(e.commit, c)
    decreases c
  {
    ReplayParts(env, c);
    if |c.parents| == 0 {
      GenesisHasNoEvents(env, c);
    } else {
      var p := c.parents[0];
      ReplayOfParent(env, c);
      ReplayedEventsAreDistinct(env, p);
      var m0 := Replay(env, p).value;
      ReplayCommitKeeps(env, m0.trust.root, m0.genesis, m0.ledger, c);
      CommitAddsItsEvents(env, m0.trust.root, m0.genesis, m0.ledger, c);
    }
  }
}
