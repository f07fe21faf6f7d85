/** Looking an idempotency key up in one ledger snapshot, and its agreement with replay. */
module IdempotencyIndex {
  import opened Wrappers
  import opened Git
  import opened Domain
  import opened Bindings
  import opened LedgerReplay
  import opened ReplayFacts

  function FindInPaths(env: Env, registry: Registry, c: Commit, paths: seq<string>, key: string)
    : Result<Option<Event>, Error>
    requires forall p | p in paths :: p in c.tree
  {
    if paths == [] then Ok(None)
    else
      match ValidateEvent(env, registry, c, paths[0])
      case None => Err(EventInvalid)
      case Some(e) =>
        if e.doc.idempotencyKey == key then Ok(Some(e)) else FindInPaths(env, registry, c, paths[1..], key)
  }

  function FindInCommit(env: Env, c: Commit, key: string): Result<Option<Event>, Error> {
    match EventAdditions(c)
    case None => Err(ImmutableTree)
    case Some(paths) =>
      if paths == [] then Ok(None)
      else
        match LoadSchemas(env, c.tree)
        case None => Err(SchemaSnapshot)
        case Some(registry) => FindInPaths(env, registry, c, paths, key)
  }

  function FindFrom(env: Env, h: seq<Commit>, key: string): Result<Option<Event>, Error> {
    if h == [] then Ok(None)
    else
      match FindInCommit(env, h[0], key)
      case Err(e) => Err(e)
      case Ok(Some(e)) => Ok(Some(e))
      case Ok(None) => FindFrom(env, h[1..], key)
  }

  /** findAcceptedIdempotencyAt one head. */
  function FindAccepted(env: Env, head: Commit, key: string): Result<Option<Event>, Error> {
    if key == "" then Ok(None)
    else
      match History(env.id, head)
      case None => Err(NonLinearHistory)
      case Some(h) => FindFrom(env, h, key)
  }

  method FindAcceptedIdempotencyAt(env: Env, head: Commit, key: string) returns (r: Result<Option<Event>, Error>)
    ensures r == FindAccepted(env, head, key)
  {
    hide EventAdditions, LoadSchemas, ValidateEvent;
    if key == "" {
      return Ok(None);
    }
    var history := History(env.id, head);
    if history.None? {
      return Err(NonLinearHistory);
    }
    var h := history.value;
    for i := 0 to |h|
      invariant FindFrom(env, h, key) == FindFrom(env, h[i..], key)
    {
      assert h[i..][1..] == h[i + 1..];
      var additions := EventAdditions(h[i]);
      if additions.None? {
        return Err(ImmutableTree);
      }
      if additions.value == [] {
        continue;
      }
      var registry := LoadSchemas(env, h[i].tree);
      if registry.None? {
        return Err(SchemaSnapshot);
      }
      var found := SearchPaths(env, registry.value, h[i], additions.value, key);
      if found != Ok(None) {
        return found;
      }
    }
    return Ok(None);
  }

  method SearchPaths(env: Env, registry: Registry, c: Commit, paths: seq<string>, key: string)
    returns (r: Result<Option<Event>, Error>)
    requires forall p | p in paths :: p in c.tree
    ensures r == FindInPaths(env, registry, c, paths, key)
  {
    hide ValidateEvent;
    for j := 0 to |paths|
      invariant FindInPaths(env, registry, c, paths, key) == FindInPaths(env, registry, c, paths[j..], key)
    {
      assert paths[j..][1..] == paths[j + 1..] && paths[j..][0] == paths[j];
      var validated := ValidateEvent(env, registry, c, paths[j]);
      if validated.None? {
        return Err(EventInvalid);
      }
      if validated.value.doc.idempotencyKey == key {
        return Ok(validated);
      }
    }
    return Ok(None);
  }

  // -------------------------------------------------------------- agreement

  lemma {:induction false} ReadEventsFront(env: Env, registry: Registry, c: Commit, paths: seq<string>)
    requires forall p | p in paths :: p in c.tree
    requires paths != [] && ReadEvents(env, registry, c, paths).Some?
    ensures ValidateEvent(env, registry, c, paths[0]).Some? && ReadEvents(env, registry, c, paths[1..]).Some?
    ensures ReadEvents(env, registry, c, paths).value
         == [ValidateEvent(env, registry, c, paths[0]).value] + ReadEvents(env, registry, c, paths[1..]).value
  {
    hide ValidateEvent;
    if |paths| == 1 {
      assert paths[..0] == [] && paths[1..] == [];
    } else {
      var before := paths[..|paths| - 1];
      ReadEventsFront(env, registry, c, before);
      assert paths[1..][..|paths| - 2] == before[1..];
    }
  }

  /** Where every event reads back, the lookup never fails and stops at the first event with the key. */
  lemma {:induction false} FoundInPaths(env: Env, registry: Registry, c: Commit, paths: seq<string>, key: string)
    requires forall p | p in paths :: p in c.tree
    requires ReadEvents(env, registry, c, paths).Some?
    ensures var found, events := FindInPaths(env, registry, c, paths, key), ReadEvents(env, registry, c, paths).value;
            && found.Ok?
            && (found.value.Some? ==> found.value.value in events && found.value.value.doc.idempotencyKey == key)
            && (found.value.None? ==> !HasKey(events, key))
  {
    hide ValidateEvent;
    if paths != [] {
      ReadEventsFront(env, registry, c, paths);
      FoundInPaths(env, registry, c, paths[1..], key);
    }
  }

  lemma FoundInCommit(env: Env, c: Commit, key: string)
    requires CommitEvents(env, c).Some?
    ensures var found, events := FindInCommit(env, c, key), CommitEvents(env, c).value;
            && found.Ok?
            && (found.value.Some? ==> found.value.value in events && found.value.value.doc.idempotencyKey == key)
            && (found.value.None? ==> !HasKey(events, key))
  {
    hide EventAdditions, LoadSchemas, FindInPaths, ReadEvents;
    var paths := EventAdditions(c).value;
    if paths != [] {
      FoundInPaths(env, LoadSchemas(env, c.tree).value, c, paths, key);
    }
  }

  lemma {:induction false} FoundInHistory(env: Env, h: seq<Commit>, key: string)
    requires forall c | c in h :: CommitEvents(env, c).Some?
    ensures var found := FindFrom(env, h, key);
            && found.Ok?
            && (found.value.Some? ==>
                  && found.value.value.doc.idempotencyKey == key
                  && exists c :: c in h && found.value.value in CommitEvents(env, c).value)
            && (found.value.None? ==> forall c | c in h :: !HasKey(CommitEvents(env, c).value, key))
  {
    hide CommitEvents, FindInCommit;
    if h != [] {
      FoundInCommit(env, h[0], key);
      FoundInHistory(env, h[1..], key);
    }
  }

  /** The replayed events are exactly the events the commits of the history add. */
  lemma {:induction false} EventsOfHistory(env: Env, c: Commit)
    requires Replay(env, c).Ok?
    ensures Linear(c) && forall x | x in Chain(c) :: CommitEvents(env, x).Some?
    ensures forall e :: e in Events(env, c) <==> exists x :: x in Chain(c) && e in CommitEvents(env, x).value
    decreases c
  {
    hide CommitEvents, Replay, ReplayCommit, ReplayHistory, ReadTrust, ValidateGenesis, ValidNamespace, LeavesTrust;
    ReplayParts(env, c);
    if |c.parents| == 0 {
      GenesisHasNoEvents(env, c);
      GenesisCommitEvents(env, c);
    } else {
      var p := c.parents[0];
      ReplayOfParent(env, c);
      EventsOfHistory(env, p);
      var m0 := Replay(env, p).value;
      CommitAddsItsEvents(env, m0.trust.root, m0.genesis, m0.ledger, c);
      assert Chain(c) == Chain(p) + [c];
      forall e ensures e in Events(env, c) <==> exists x :: x in Chain(c) && e in CommitEvents(env, x).value {
        if e in Events(env, c) && e !in CommitEvents(env, c).value {
          assert e in Events(env, p);
          var x :| x in Chain(p) && e in CommitEvents(env, x).value;
          assert x in Chain(c);
        }
        if e in CommitEvents(env, c).value {
          assert c in Chain(c);
        }
        if x :| x in Chain(c) && e in CommitEvents(env, x).value {
          if x != c {
            assert x in Chain(p);
          }
        }
      }
    }
  }

  lemma GenesisCommitEvents(env: Env, c: Commit)
    requires Replay(env, c).Ok? && |c.parents| == 0
    ensures CommitEvents(env, c) == Some([])
  {
    hide ReplayCommit, ReplayHistory, ValidNamespace, LeavesTrust, ParseGenesis, DeclaresSchemas, RootPolicy, EventAdditions;
    ReplayParts(env, c);
  }

  /**
   At a head that replays, the lookup never reports a validation failure, finds
   a key exactly when replay saw it, and returns the one event that carries it.
   */
  lemma IndexAgrees(env: Env, head: Commit, key: string)
    requires Replay(env, head).Ok? && key != ""
    ensures FindAccepted(env, head, key).Ok?
    ensures FindAccepted(env, head, key).value.Some? <==> HasKey(Events(env, head), key)
    ensures FindAccepted(env, head, key).value.Some? ==>
              var e := FindAccepted(env, head, key).value.value;
              && e in Events(env, head) && e.doc.idempotencyKey == key
              && forall x | x in Events(env, head) && x.doc.idempotencyKey == key :: x == e
  {
    hide CommitEvents, Replay, FindFrom, Placed, IsObjectId, ValidNamespace, LeavesTrust, ReadTrust, ValidateGenesis;
    ReplayParts(env, head);
    EventsOfHistory(env, head);
    FoundInHistory(env, Chain(head), key);
    ReplayedEventsAreDistinct(env, head);
    var found := FindAccepted(env, head, key).value;
    if found.None? {
      forall e | e in Events(env, head) ensures e.doc.idempotencyKey != key {
        var x :| x in Chain(head) && e in CommitEvents(env, x).value;
        assert !HasKey(CommitEvents(env, x).value, key);
      }
    }
    if found.Some? {
      var events := Events(env, head);
      forall x | x in events && x.doc.idempotencyKey == key ensures x == found.value {
        KeyIsUnique(events, x, found.value);
      }
    }
  }

  lemma KeyIsUnique(events: seq<Event>, a: Event, b: Event)
    requires Distinct(events) && a in events && b in events
    requires a.doc.idempotencyKey == b.doc.idempotencyKey != ""
    ensures a == b
  {
    var i :| 0 <= i < |events| && events[i] == a;
    var j :| 0 <= j < |events| && events[j] == b;
    assert !(i < j) && !(j < i);
  }

  /** A hit stays the same at every head that descends from the one it was found at. */
  lemma HitsPersist(env: Env, a: Commit, b: Commit, key: string)
    requires Replay(env, b).Ok? && Within(a, b) && key != ""
    requires FindAccepted(env, a, key).Ok? && FindAccepted(env, a, key).value.Some?
    ensures FindAccepted(env, b, key) == FindAccepted(env, a, key)
  {
    hide Replay, FindAccepted;
    ReplayWithin(env, a, b);
    IndexAgrees(env, a, key);
    IndexAgrees(env, b, key);
    var e := FindAccepted(env, a, key).value.value;
    assert e in Events(env, b);
  }
}
