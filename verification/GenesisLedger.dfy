/** The smallest ledger: a root commit that carries the trust root and nothing else replays, to nothing. */
module GenesisLedger {
  import opened Wrappers
  import opened Text
  import opened Git
  import opened ActorPolicy
  import opened Domain
  import opened Bindings
  import opened LedgerReplay

  function RootTree(genesis: Raw, policy: Raw): Tree {
    map[GENESIS_PATH := Blob(Plain, genesis), LEDGER_POLICY_PATH := Blob(Plain, policy)]
  }

  /** Documents a trust root can be read from. */
  predicate Founding(env: Env, genesis: Raw, policy: Raw) {
    && ParseGenesis(env, genesis).Some?
    && (var root := ParseGenesis(env, genesis).value;
        && root.initialSchemas == []
        && ParsePolicyFor(env, policy, root.ledgerId, root.initialPolicy).Some?
        && root.initialAuthorities
           == SortedPaths(GrantedActors(ParsePolicyFor(env, policy, root.ledgerId, root.initialPolicy).value)))
  }

  lemma DirectoriesApart()
    ensures GENESIS_DIR + "/" <= GENESIS_PATH && LEDGER_POLICY_DIR + "/" <= LEDGER_POLICY_PATH
    ensures HasSuffix(GENESIS_PATH, ".json") && HasSuffix(LEDGER_POLICY_PATH, ".json")
    ensures !Under(GENESIS_PATH, LEDGER_POLICY_DIR) && !Under(LEDGER_POLICY_PATH, GENESIS_DIR)
    ensures forall dir | dir in [SCHEMA_DIR, BINDING_DIR, EVENTS] ::
              !Under(GENESIS_PATH, dir) && !Under(LEDGER_POLICY_PATH, dir)
  {
    assert GENESIS_PATH[7] == 'g' && LEDGER_POLICY_PATH[7] == 'a' && SCHEMA_DIR[7] == 's' && BINDING_DIR[7] == 'a';
    assert GENESIS_DIR[7] == 'g' && LEDGER_POLICY_DIR[7] == 'a' && EVENTS[0] == 'e' && GENESIS_PATH[0] == 'c';
    assert LEDGER_POLICY_PATH[0] == 'c' && BINDING_DIR[17] == 'r' && LEDGER_POLICY_PATH[17] == 'a';
    forall dir | dir in [SCHEMA_DIR, BINDING_DIR, EVENTS]
      ensures !Under(GENESIS_PATH, dir) && !Under(LEDGER_POLICY_PATH, dir)
    {
    }
  }

  lemma RootAdditions(c: Commit, genesis: Raw, policy: Raw)
    requires c.parents == [] && c.tree == RootTree(genesis, policy)
    ensures Changed(c) == {GENESIS_PATH, LEDGER_POLICY_PATH}
    ensures ImmutableJsonAdditions(c, GENESIS_DIR) == Some([GENESIS_PATH])
    ensures ImmutableJsonAdditions(c, LEDGER_POLICY_DIR) == Some([LEDGER_POLICY_PATH])
    ensures ImmutableJsonAdditions(c, SCHEMA_DIR) == Some([]) && ImmutableJsonAdditions(c, BINDING_DIR) == Some([])
    ensures EventAdditions(c) == Some([])
    ensures JsonFiles(c.tree, SCHEMA_DIR) == Some([])
  {
    hide Under, HasPrefix, HasSuffix, ImmutableJsonAdditions, EventAdditions, JsonFiles, Changed;
    DirectoriesApart();
    InItsDirectory();
    RootChanges(c, genesis, policy);
    OneAddition(c, GENESIS_PATH, LEDGER_POLICY_PATH, GENESIS_DIR);
    OneAddition(c, LEDGER_POLICY_PATH, GENESIS_PATH, LEDGER_POLICY_DIR);
    NoAddition(c, SCHEMA_DIR);
    NoAddition(c, BINDING_DIR);
    NoAddition(c, EVENTS);
    NothingListed(c.tree, SCHEMA_DIR);
  }

  lemma RootChanges(c: Commit, genesis: Raw, policy: Raw)
    requires c.parents == [] && c.tree == RootTree(genesis, policy)
    ensures Changed(c) == {GENESIS_PATH, LEDGER_POLICY_PATH}
  {
  }

  lemma OneAddition(c: Commit, p: string, other: string, dir: string)
    requires Changed(c) == {p, other} && Added(c, p) && Under(p, dir) && !Under(other, dir)
    requires HasPrefix(p, dir + "/") && HasSuffix(p, ".json")
    ensures ImmutableJsonAdditions(c, dir) == Some([p])
  {
    hide Changed, Under, HasPrefix, HasSuffix, Added;
    assert ChangedUnder(c, dir) == {p};
    SortedSingleton(p);
  }

  lemma NoAddition(c: Commit, dir: string)
    requires forall p | p in Changed(c) :: !Under(p, dir)
    ensures ImmutableJsonAdditions(c, dir) == Some([]) && (dir == EVENTS ==> EventAdditions(c) == Some([]))
  {
    hide Changed, Under, HasPrefix, HasSuffix;
    assert ChangedUnder(c, dir) == {};
  }

  lemma NothingListed(tree: Tree, dir: string)
    requires forall p | p in tree :: !Under(p, dir)
    ensures JsonFiles(tree, dir) == Some([])
  {
    hide Under, HasSuffix;
    assert (set p | p in tree && Under(p, dir) && HasSuffix(p, ".json")) == {};
  }

  lemma InItsDirectory()
    ensures Under(GENESIS_PATH, GENESIS_DIR) && Under(LEDGER_POLICY_PATH, LEDGER_POLICY_DIR)
    ensures HasPrefix(GENESIS_PATH, GENESIS_DIR + "/") && HasPrefix(LEDGER_POLICY_PATH, LEDGER_POLICY_DIR + "/")
    ensures GENESIS_PATH != LEDGER_POLICY_PATH
  {
    DirectoriesApart();
    assert GENESIS_PATH[7] != LEDGER_POLICY_PATH[7];
  }

  lemma FoundedTrust(env: Env, c: Commit, genesis: Raw, policy: Raw)
    requires c.parents == [] && c.tree == RootTree(genesis, policy) && Founding(env, genesis, policy)
    ensures ReadTrust(env, c).Ok?
    ensures var t, root := ReadTrust(env, c).value, ParseGenesis(env, genesis).value;
            t.root == root && Some(t.policy) == ParsePolicyFor(env, policy, root.ledgerId, root.initialPolicy)
  {
    hide ParseGenesis, ParsePolicyFor, ImmutableJsonAdditions, EventAdditions, Changed, JsonFiles, GrantedActors,
      DeclaresSchemas, SortedPaths, Under, HasPrefix, HasSuffix;
    RootAdditions(c, genesis, policy);
    InItsDirectory();
    NoneDeclared(env, c.tree);
  }

  lemma NoneDeclared(env: Env, tree: Tree)
    requires JsonFiles(tree, SCHEMA_DIR) == Some([])
    ensures DeclaresSchemas(env, tree, [])
  {
    hide JsonFiles;
  }

  lemma RootPathsAreValid(c: Commit, genesis: Raw, policy: Raw)
    requires c.parents == [] && c.tree == RootTree(genesis, policy)
    ensures ValidNamespace(c)
  {
    hide Changed, ValidVersionedPath, ValidEventPath;
    RootChanges(c, genesis, policy);
  }

  /** A root commit of founding documents replays: its own Genesis, no events, no records. */
  lemma GenesisReplays(env: Env, c: Commit, genesis: Raw, policy: Raw)
    requires c.parents == [] && c.tree == RootTree(genesis, policy) && IsObjectId(env.id(c))
    requires Founding(env, genesis, policy)
    ensures Replay(env, c).Ok?
    ensures Replay(env, c).value.trust.root == ParseGenesis(env, genesis).value
    ensures Replay(env, c).value.genesis == c && Replay(env, c).value.ledger == Ledger([], map[], 0)
  {
    hide ParseGenesis, ParsePolicyFor, ImmutableJsonAdditions, EventAdditions, ValidNamespace, IsObjectId, LoadSchemas,
      LoadBindings, RootBindingsAgree, AddEvents, ReadTrust, Founding;
    RootAdditions(c, genesis, policy);
    FoundedTrust(env, c, genesis, policy);
    RootPathsAreValid(c, genesis, policy);
    assert Chain(c) == [c] && [c][..0] == [];
    var root := ReadTrust(env, c).value.root;
    assert ReplayHistory(env, root, c, []) == Ok(Ledger([], map[], 0));
    assert ReplayCommit(env, root, c, Ledger([], map[], 0), c) == Ok(Ledger([], map[], 0));
  }
}
