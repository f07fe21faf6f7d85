/**
 One concrete ledger, over the simplest libraries that obey the laws: Genesis and
 root policy; then a schema and a binding of the actor-policy kind, under a policy
 version of its own; then the event that puts a policy of that version in force.
 Only the object names are left open.
 */
module ExampleLedger {
  import opened Wrappers
  import opened Text
  import opened Git
  import opened ActorPolicy
  import opened Domain
  import opened Bindings
  import opened LedgerReplay
  import opened ReplayFacts
  import opened ReplayTheorems
  import opened IdempotencyIndex
  import opened Acceptance
  import opened GenesisLedger
  import opened CurrentPolicy
  import opened ProtocolInstance
  import opened ProtocolExamples
  import P = Protocol
  import ObjectNames
  import Reducer
  import BindingId

  const SCHEMA_PATH := "config/schemas/s.json"
  const BINDING_PATH := "config/authority/reducer-bindings/b.json"
  const EVENT_PATH := "events/e.json"

  // --------------------------------------------------------------- the ledger

  function First(): Commit {
    Commit([], RootTree("G", "P"), "")
  }

  function Second(): Commit {
    Commit([First()], First().tree[SCHEMA_PATH := Blob(Plain, "S")][BINDING_PATH := Blob(Plain, "B")], "")
  }

  function Created(id: Commit -> string): EventDoc {
    EventDoc(RECORD_EVENT_SCHEMA, "e", Reducer.CREATED, id(Second()), "q", [POLICY_TARGET], POLICY_RECORD_KIND,
             "Q", "0", "1", "k", "c")
  }

  function PolicyFor(version: string): PolicyDoc {
    PolicyDoc("l", version, 1, [Key("a", "k", "", false)], [Grant("a", "decide", "t")], "")
  }

  function TheBinding(): Binding {
    Binding(BINDING_SCHEMA, "b", POLICY_RECORD_KIND, Reducer.MODEL, RECORD_EVENT_SCHEMA, "q")
  }

  /** The event's document is stored as the name of the commit it extends. */
  function Libraries(id: Commit -> string): Env {
    Env(
      id,
      x => x,
      (x: Raw) => x != "",
      (x: Raw) => if x == "" then None else Some(x),
      (x: Raw) => true,
      (x: Raw) => if x == id(Second()) then Some(Created(id)) else None,
      (x: Raw) => Some(TheBinding()),
      (x: Raw) => Some(GenesisRoot("l", "p", [], ["a"])),
      (x: Raw) => Some(PolicyFor(if x == "Q" then "q" else "p")),
      (x: string) => true,
      (x: Raw) => Some("s"),
      (x: Raw) => true,
      (r: Registry, s: string) => true,
      (r: Registry, s: string, x: Raw) => true,
      (s: Domain.State) => "1",
      (t: string) => "0")
  }

  function TheRequest(id: Commit -> string): Request {
    Request(id(Second()), EVENT_PATH, id(Second()))
  }

  function Third(id: Commit -> string): Commit {
    Commit([Second()], Second().tree[EVENT_PATH := Blob(Plain, id(Second()))], "Threadkeeper event e\n")
  }

  /** Object names as Git gives them. */
  ghost predicate Names(id: Commit -> string) {
    && (forall a: Commit, b: Commit :: id(a) == id(b) ==> a == b)
    && (forall a: Commit {:trigger id(a)} ::
          id(a) != "" && forall i | 0 <= i < |id(a)| :: !('A' <= id(a)[i] <= 'Z'))
    && IsObjectId(id(First())) && IsObjectId(id(Second())) && IsObjectId(id(Third(id)))
  }

  function Fixed(c: char): (s: string)
    ensures |s| == 40 && forall i | 0 <= i < 40 :: s[i] == c
  {
    seq(40, i => c)
  }

  /** Such names exist, so the example is one. */
  lemma NamesExist()
    ensures exists id :: Names(id)
  {
    hide ObjectNames.Name, RootTree;
    var third := Commit([Second()], Second().tree[EVENT_PATH := Blob(Plain, Fixed('b'))], "Threadkeeper event e\n");
    var id := (c: Commit) =>
      if c == First() then Fixed('a')
      else if c == Second() then Fixed('b')
      else if c == third then Fixed('c')
      else ObjectNames.Name(c);
    forall c ensures ObjectNames.Digits(ObjectNames.Name(c)) && ObjectNames.Name(c) != "" {
      ObjectNames.NameDigits(c);
    }
    forall a: Commit, b: Commit | id(a) == id(b) ensures a == b {
      if ObjectNames.Name(a) == ObjectNames.Name(b) {
        ObjectNames.NameInjective(a, b);
      }
      assert id(a) != "" && id(a)[0] == id(b)[0];
    }
    assert |First().parents| == 0 && |Second().parents| == 1 && |third.parents| == 1;
    assert Third(id) == third;
    assert Names(id);
  }

  lemma LibrariesAreLawful(id: Commit -> string)
    requires Names(id)
    ensures Lawful(Libraries(id))
  {
  }

  // ------------------------------------------------------------------- paths

  lemma {:induction false} SplitPart(a: string, rest: string)
    requires '/' !in a
    ensures Split(a + "/" + rest) == [a] + Split(rest)
  {
    var s := a + "/" + rest;
    if a == "" {
      assert s[1..] == rest;
    } else {
      assert s[1..] == a[1..] + "/" + rest;
      SplitPart(a[1..], rest);
      assert [s[0]] + a[1..] == a;
    }
  }

  lemma {:induction false} SplitLast(a: string)
    requires '/' !in a
    ensures Split(a) == [a]
  {
    if a != "" {
      SplitLast(a[1..]);
      assert [a[0]] + a[1..] == a;
    }
  }

  lemma SchemaPathIsValid()
    ensures ValidLedgerPath(SCHEMA_PATH) && HasPrefix(SCHEMA_PATH, SCHEMA_DIR + "/") && HasSuffix(SCHEMA_PATH, ".json")
  {
    hide Split, ValidEventPath;
    SplitPart("config", "schemas/s.json");
    SplitPart("schemas", "s.json");
    SplitLast("s.json");
    assert SCHEMA_PATH == "config" + "/" + "schemas/s.json" && "schemas/s.json" == "schemas" + "/" + "s.json";
    assert Split(SCHEMA_PATH) == ["config", "schemas", "s.json"];
    assert SCHEMA_PATH[..|SCHEMA_DIR| + 1] == SCHEMA_DIR + "/";
  }

  lemma BindingPathIsValid()
    ensures ValidLedgerPath(BINDING_PATH) && HasPrefix(BINDING_PATH, BINDING_DIR + "/") && HasSuffix(BINDING_PATH, ".json")
  {
    hide Split, ValidEventPath, CleanParts, ContainsAny;
    BindingPathIsClean();
    BindingPathIsPlain();
    assert BINDING_PATH[..|BINDING_DIR| + 1] == BINDING_DIR + "/";
    assert BINDING_PATH[7] == 'a' && SCHEMA_DIR[7] == 's';
  }

  predicate PlainPart(part: string) {
    '/' !in part && |part| > 2
  }

  lemma JoinedPartsAreClean(a: string, b: string, c: string, d: string)
    requires PlainPart(a) && PlainPart(b) && PlainPart(c) && PlainPart(d)
    ensures CleanParts(a + "/" + (b + "/" + (c + "/" + d)))
  {
    hide Split;
    SplitPart(a, b + "/" + (c + "/" + d));
    SplitPart(b, c + "/" + d);
    SplitPart(c, d);
    SplitLast(d);
    assert Split(a + "/" + (b + "/" + (c + "/" + d))) == [a, b, c, d];
  }

  lemma BindingPathJoins()
    ensures BINDING_PATH == "config" + "/" + ("authority" + "/" + ("reducer-bindings" + "/" + "b.json"))
  {
  }

  lemma BindingPathHasPlainParts()
    ensures PlainPart("config") && PlainPart("authority") && PlainPart("reducer-bindings") && PlainPart("b.json")
  {
  }

  lemma BindingPathIsClean()
    ensures CleanParts(BINDING_PATH)
  {
    hide CleanParts, PlainPart;
    BindingPathHasPlainParts();
    BindingPathJoins();
    JoinedPartsAreClean("config", "authority", "reducer-bindings", "b.json");
  }

  lemma BindingPathIsPlain()
    ensures !ContainsAny(BINDING_PATH, "\\\0\r\n")
  {
  }

  lemma EventPathIsValid()
    ensures ValidEventPath(EVENT_PATH)
  {
    hide Split;
    SplitPart("events", "e.json");
    SplitLast("e.json");
    assert EVENT_PATH == "events" + "/" + "e.json";
    assert EVENT_PATH[..7] == "events/";
  }

  // ---------------------------------------------------------- the first commit

  lemma PoliciesParse(id: Commit -> string)
    ensures ParsePolicyFor(Libraries(id), "P", "l", "p") == Some(PolicyFor("p"))
    ensures ParsePolicyFor(Libraries(id), "Q", "l", "q") == Some(PolicyFor("q"))
    ensures ParsePolicy(Libraries(id), "Q") == Some(PolicyFor("q"))
  {
    PolicyIsValid(id, "p");
    PolicyIsValid(id, "q");
    assert "Q" != "P" && "P" != "Q" by { assert "Q"[0] == 'Q' && "P"[0] == 'P'; }
  }

  lemma PolicyIsValid(id: Commit -> string, version: string)
    requires version != "" && Safe(version)
    ensures ValidPolicy(PolicyFor(version), Libraries(id).ed25519)
  {
    var doc := PolicyFor(version);
    assert doc.keys[0].actor == "a" && doc.keys[0] in doc.keys;
  }

  lemma FirstReplays(id: Commit -> string)
    requires Names(id)
    ensures Replay(Libraries(id), First()).Ok?
    ensures var m := Replay(Libraries(id), First()).value;
            && m.trust.root == GenesisRoot("l", "p", [], ["a"])
            && m.genesis == First() && m.ledger == Ledger([], map[], 0)
  {
    hide Replay, ParsePolicyFor, IsObjectId, SortedPaths;
    var env := Libraries(id);
    PoliciesParse(id);
    assert GrantedActors(PolicyFor("p")) == {"a"};
    SortedSingleton("a");
    GenesisReplays(env, First(), "G", "P");
  }

  // --------------------------------------------------------- the second commit

  function TheSnapshot(): Snapshot {
    Snapshot(map[POLICY_RECORD_KIND := TheBinding()], map["b" := TheBinding()])
  }

  lemma SchemaPathApart()
    ensures SCHEMA_PATH != BINDING_PATH && !Under(SCHEMA_PATH, BINDING_DIR) && !Under(SCHEMA_PATH, GENESIS_DIR)
    ensures !Under(SCHEMA_PATH, LEDGER_POLICY_DIR) && !Under(SCHEMA_PATH, EVENTS)
  {
    assert SCHEMA_PATH[7] == 's' && BINDING_PATH[7] == 'a' && GENESIS_DIR[7] == 'g' && LEDGER_POLICY_DIR[7] == 'a';
    assert SCHEMA_PATH[0] == 'c' && BINDING_DIR[7] == 'a' && EVENTS[0] == 'e';
  }

  lemma BindingPathApart()
    ensures !Under(BINDING_PATH, SCHEMA_DIR) && !Under(BINDING_PATH, GENESIS_DIR)
    ensures !Under(BINDING_PATH, LEDGER_POLICY_DIR) && !Under(BINDING_PATH, EVENTS)
  {
    assert BINDING_PATH[7] == 'a' && SCHEMA_DIR[7] == 's' && GENESIS_DIR[7] == 'g';
    assert BINDING_PATH[17] == 'r' && LEDGER_POLICY_DIR[17] == 'a' && BINDING_PATH[0] == 'c' && EVENTS[0] == 'e';
  }

  lemma ConfigurationUnder()
    ensures Under(SCHEMA_PATH, SCHEMA_DIR) && Under(BINDING_PATH, BINDING_DIR)
  {
    hide ValidLedgerPath, HasSuffix, HasPrefix;
    SchemaPathIsValid();
    BindingPathIsValid();
  }

  lemma ConfigurationApart()
    ensures SCHEMA_PATH != BINDING_PATH && Under(SCHEMA_PATH, SCHEMA_DIR) && Under(BINDING_PATH, BINDING_DIR)
    ensures !Under(SCHEMA_PATH, BINDING_DIR) && !Under(BINDING_PATH, SCHEMA_DIR)
    ensures forall dir | dir in [GENESIS_DIR, LEDGER_POLICY_DIR, EVENTS] ::
              !Under(SCHEMA_PATH, dir) && !Under(BINDING_PATH, dir)
  {
    hide Under, HasPrefix;
    ConfigurationUnder();
    SchemaPathApart();
    BindingPathApart();
  }

  lemma SecondChanges()
    ensures Changed(Second()) == {SCHEMA_PATH, BINDING_PATH}
    ensures Added(Second(), SCHEMA_PATH) && Added(Second(), BINDING_PATH)
  {
    hide Under, HasPrefix, HasSuffix;
    ConfigurationApart();
    DirectoriesApart();
    InItsDirectory();
  }

  lemma OneListed(tree: Tree, dir: string, p: string)
    requires p in tree && Under(p, dir) && HasSuffix(p, ".json") && tree[p].regular
    requires forall q | q in tree && q != p :: !Under(q, dir)
    ensures JsonFiles(tree, dir) == Some([tree[p].bytes])
  {
    hide Under, HasSuffix;
    assert (set q | q in tree && Under(q, dir) && HasSuffix(q, ".json")) == {p};
    SortedSingleton(p);
    assert Contents(tree, [p]) == [tree[p].bytes];
  }

  lemma SecondAdds()
    ensures ImmutableJsonAdditions(Second(), SCHEMA_DIR) == Some([SCHEMA_PATH])
    ensures ImmutableJsonAdditions(Second(), BINDING_DIR) == Some([BINDING_PATH])
    ensures EventAdditions(Second()) == Some([]) && LeavesTrust(Second())
  {
    hide Under, HasPrefix, HasSuffix, Changed, Added, ImmutableJsonAdditions, EventAdditions;
    var c := Second();
    ConfigurationApart();
    SecondChanges();
    SchemaPathIsValid();
    BindingPathIsValid();
    OneAddition(c, SCHEMA_PATH, BINDING_PATH, SCHEMA_DIR);
    OneAddition(c, BINDING_PATH, SCHEMA_PATH, BINDING_DIR);
    NoAddition(c, EVENTS);
    NoAddition(c, GENESIS_DIR);
    NoAddition(c, LEDGER_POLICY_DIR);
  }

  lemma SecondListed()
    ensures JsonFiles(Second().tree, SCHEMA_DIR) == Some(["S"])
    ensures JsonFiles(Second().tree, BINDING_DIR) == Some(["B"])
  {
    hide Under, HasPrefix, HasSuffix, JsonFiles;
    ConfigurationApart();
    DirectoriesApart();
    SchemaPathIsValid();
    BindingPathIsValid();
    OneListed(Second().tree, SCHEMA_DIR, SCHEMA_PATH);
    OneListed(Second().tree, BINDING_DIR, BINDING_PATH);
  }

  lemma SecondLoads(id: Commit -> string)
    ensures LoadSchemas(Libraries(id), Second().tree) == Some(map["s" := "S"])
    ensures BindingsAt(Libraries(id), Second()) == Some(TheSnapshot())
  {
    hide JsonFiles;
    var env, registry: Registry := Libraries(id), map["s" := "S"];
    SecondListed();
    assert ["S"][..0] == [] && ["B"][..0] == [];
    assert AddSchemas(env, []) == Some(map[]);
    assert AddSchemas(env, ["S"]) == Some(registry);
    assert AddBindings(env, registry, []) == Some(Snapshot(map[], map[]));
    assert AddBindings(env, registry, ["B"]) == Some(TheSnapshot());
  }

  /** The replay step of a commit that adds configuration and no event. */
  lemma ReplayConfiguration(
    env: Env, root: GenesisRoot, first: Commit, l: Ledger, c: Commit, registry: Registry, bindings: Snapshot)
    requires ImmutableJsonAdditions(c, SCHEMA_DIR).Some? && ImmutableJsonAdditions(c, SCHEMA_DIR) != Some([])
    requires ImmutableJsonAdditions(c, BINDING_DIR).Some? && EventAdditions(c) == Some([]) && c != first
    requires LoadSchemas(env, c.tree) == Some(registry) && LoadBindings(env, registry, c.tree) == Some(bindings)
    ensures ReplayCommit(env, root, first, l, c) == Ok(l.(bindingCount := |bindings.byKind|))
  {
    hide ImmutableJsonAdditions, EventAdditions, LoadSchemas, LoadBindings, RootBindingsAgree;
  }

  lemma SecondIsLedger()
    ensures ValidNamespace(Second()) && Second() != First()
  {
    hide Changed, ValidLedgerPath;
    SecondChanges();
    SchemaPathIsValid();
    BindingPathIsValid();
    assert |Second().parents| == 1 && |First().parents| == 0;
  }

  lemma SecondReplays(id: Commit -> string)
    requires Names(id)
    ensures Replay(Libraries(id), Second()).Ok?
    ensures var m := Replay(Libraries(id), Second()).value;
            && m.head == Second() && m.trust.root == GenesisRoot("l", "p", [], ["a"])
            && m.ledger == Ledger([], map[], 1)
  {
    hide Replay, ImmutableJsonAdditions, EventAdditions, IsObjectId, LoadSchemas, LoadBindings, ValidNamespace,
      LeavesTrust, ReplayCommit;
    var env, c := Libraries(id), Second();
    FirstReplays(id);
    SecondAdds();
    SecondLoads(id);
    SecondIsLedger();
    var m0 := Replay(env, First()).value;
    ReplayConfiguration(env, m0.trust.root, First(), m0.ledger, c, map["s" := "S"], TheSnapshot());
    assert |TheSnapshot().byKind| == 1;
    ReplayOfChild(env, c);
  }

  // ---------------------------------------------------------- the third commit

  function PolicyState(): Domain.State {
    State(POLICY_TARGET, POLICY_RECORD_KIND, Reducer.ACTIVE, 1, "e", None, "Q")
  }

  lemma RequestParses(id: Commit -> string)
    requires Names(id)
    ensures ParseCandidate(Libraries(id), id(Second())) == Some(Created(id))
  {
  }

  lemma RequestIsBuildable(id: Commit -> string)
    requires Names(id)
    ensures Buildable(Libraries(id), Second(), TheRequest(id), Created(id))
    ensures CandidateCommit(Second(), TheRequest(id), Created(id)) == Third(id)
  {
    hide IsObjectId, ValidEventPath;
    EventPathIsValid();
    EventPathIsFree();
    assert "Threadkeeper event " + "e" + "\n" == "Threadkeeper event e\n";
  }

  lemma EventPathIsFree()
    ensures PathFree(Second().tree, EVENT_PATH) && Fits(EVENT_PATH)
  {
    assert EVENT_PATH[0] == 'e' && SCHEMA_PATH[0] == 'c' && BINDING_PATH[0] == 'c';
    assert GENESIS_PATH[0] == 'c' && LEDGER_POLICY_PATH[0] == 'c';
  }

  lemma RequestCreates(id: Commit -> string)
    ensures Reducer.ApplyCreate(Libraries(id), map[], ReducerBindings(TheSnapshot()), POLICY_TARGET,
                                ReducerEvent(Created(id)))
         == Ok(map[POLICY_TARGET := PolicyState()])
  {
    var bindings := ReducerBindings(TheSnapshot());
    assert POLICY_RECORD_KIND in bindings && bindings[POLICY_RECORD_KIND] == Reducer.MODEL;
  }

  lemma RequestApplies(id: Commit -> string)
    requires Names(id)
    ensures Reducer.Apply(Libraries(id), map[], ReducerBindings(TheSnapshot()), ReducerEvent(Created(id)))
         == Ok(map[POLICY_TARGET := PolicyState()])
  {
    hide ParsePolicy, IsObjectId, Reducer.ApplyCreate, ReducerBindings, TheSnapshot, Libraries, PolicyFor;
    PoliciesParse(id);
    RequestCreates(id);
    assert Reducer.CREATED[..12] == Reducer.RECORD_PREFIX;
  }

  lemma RequestIsGoverned(id: Commit -> string)
    requires Names(id)
    ensures ApplyGoverned(Libraries(id), map[], TheSnapshot(), GenesisRoot("l", "p", [], ["a"]), id(Second()), Created(id))
         == Ok(map[POLICY_TARGET := PolicyState()])
  {
    hide ParsePolicyFor, ParsePolicy, IsObjectId, Reducer.Apply;
    PoliciesParse(id);
    RequestApplies(id);
    assert id(Second()) != "";
  }

  lemma RequestIsPrepared(id: Commit -> string)
    requires Names(id)
    ensures Replay(Libraries(id), Second()).Ok?
    ensures PrepareRefuses(Libraries(id), Replay(Libraries(id), Second()).value, TheRequest(id), Created(id)) == None
  {
    hide Replay, ApplyGoverned, LoadSchemas, LoadBindings, IsObjectId;
    SecondReplays(id);
    SecondLoads(id);
    RequestIsGoverned(id);
    assert Reducer.CREATED[..12] == Reducer.RECORD_PREFIX;
    assert ToLower(id(Second())) == id(Second());
  }

  lemma RequestIsUnseen(id: Commit -> string)
    requires Names(id)
    ensures FindAccepted(Libraries(id), Second(), "k") == Ok(None)
  {
    hide Replay, FindAccepted, Libraries;
    SecondReplays(id);
    IndexAgrees(Libraries(id), Second(), "k");
  }

  function TheHandle(id: Commit -> string): Handle
    requires Names(id)
  {
    RequestIsBuildable(id);
    PreparedHandle(Libraries(id), Second(), TheRequest(id), Created(id))
  }

  lemma HandleNamesRequest(id: Commit -> string)
    requires Names(id)
    ensures TheHandle(id).key == "k" && TheHandle(id).path == EVENT_PATH
  {
    hide BindingId.Id, Buildable, Libraries;
  }

  lemma ThirdIsAdmitted(id: Commit -> string)
    requires Names(id)
    ensures Replay(Libraries(id), Second()).Ok?
    ensures Refuses(Libraries(id), Replay(Libraries(id), Second()).value, Third(id), TheHandle(id), id(Second())) == None
  {
    hide Replay, PrepareRefuses, Refuses, ParseCandidate, Lawful, Buildable, Libraries, PreparedHandle;
    var env := Libraries(id);
    LibrariesAreLawful(id);
    SecondReplays(id);
    RequestParses(id);
    RequestIsBuildable(id);
    RequestIsPrepared(id);
    PreparedIsAdmitted(env, Replay(env, Second()).value, TheRequest(id));
  }

  lemma ProjectionOf(env: Env, m: Manifest, c: Commit, e: Event, records: Projection)
    requires BindingsAt(env, m.head).Some?
    requires ApplyGoverned(env, m.ledger.records, BindingsAt(env, m.head).value, m.trust.root, env.id(m.head), e.doc)
          == Ok(records)
    ensures Extended(env, m, c, e).ledger.records == records && Extended(env, m, c, e).trust == m.trust
  {
    hide ApplyGoverned, BindingsAt;
  }

  lemma StoredEvent(id: Commit -> string)
    requires Names(id)
    ensures ParseEvent(Libraries(id), id(Second())) == Some(Created(id)) && Libraries(id).id == id
  {
    hide IsObjectId, ParseEvent;
    RequestParses(id);
  }

  /** The third commit replays, with the policy record active in its projection. */
  lemma ThirdReplays(id: Commit -> string)
    requires Names(id)
    ensures Replay(Libraries(id), Third(id)).Ok?
    ensures var m := Replay(Libraries(id), Third(id)).value;
            && m.trust.root == GenesisRoot("l", "p", [], ["a"])
            && m.ledger.records == map[POLICY_TARGET := PolicyState()]
  {
    hide Replay, ApplyGoverned, Refuses, ParseEvent, FindAccepted, Lawful, AdmittedEvent, Libraries, Extended, TheHandle,
      BindingsAt, Names;
    var env := Libraries(id);
    LibrariesAreLawful(id);
    LawfulParts(env);
    SecondReplays(id);
    SecondLoads(id);
    RequestIsUnseen(id);
    HandleNamesRequest(id);
    ThirdIsAdmitted(id);
    AcceptanceRefinesReplay(env, Second(), Third(id), TheHandle(id), id(Second()));
    StoredEvent(id);
    RequestIsGoverned(id);
    var m := Replay(env, Second()).value;
    ProjectionOf(env, m, Third(id), AdmittedEvent(env, m, Third(id), TheHandle(id)), map[POLICY_TARGET := PolicyState()]);
  }

  // ------------------------------------------------------------------ examples

  /**
   A ledger every rule accepts, whose governed policy is active and cannot be loaded:
   the binding came after Genesis and names another policy version.
   */
  lemma PolicyCanBeUnreadable(id: Commit -> string)
    requires Names(id)
    ensures Lawful(Libraries(id)) && Replay(Libraries(id), Third(id)).Ok?
    ensures var records := Replay(Libraries(id), Third(id)).value.ledger.records;
            && POLICY_TARGET in records && records[POLICY_TARGET].recordKind == POLICY_RECORD_KIND
            && records[POLICY_TARGET].status == Reducer.ACTIVE
            && ParsePolicy(Libraries(id), records[POLICY_TARGET].value).Some?
    ensures LoadCurrentActorPolicy(Libraries(id), Third(id)) == Err(PolicyInvalid)
  {
    hide Replay, ParsePolicyFor, ParsePolicy, BindingsAt, Lawful, Libraries, Names;
    var env := Libraries(id);
    LibrariesAreLawful(id);
    ThirdReplays(id);
    PoliciesParse(id);
    SecondLoads(id);
    RootPolicyReadsBack(env, Third(id));
    GovernedPolicyLoadsIff(env, Third(id), Second());
    assert "q"[0] != "p"[0];
  }

  /** The second commit, at rest, is a start for every run of the write protocol on a real ledger. */
  lemma SecondIsAtRest(id: Commit -> string, objects: set<Commit>)
    requires Names(id)
    ensures P.Laws(Real(Libraries(id)))
    ensures AtRest(Real(Libraries(id)), P.Shared(objects, Second(), map[], {}), TheRequest(id), DocOf(Created(id)), Third(id))
  {
    hide Replay, PrepareRefuses, ParseCandidate, Lawful, Buildable, Libraries, P.Laws, CandidateCommit, Names;
    var env := Libraries(id);
    LibrariesAreLawful(id);
    RealLaws(env);
    SecondReplays(id);
    RequestParses(id);
    RequestIsBuildable(id);
    RequestIsPrepared(id);
    assert Real(env).events(Second()) == [];
  }
}
