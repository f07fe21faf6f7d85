/** The trust policy that says which keys speak for which actors, and what those actors may do. */
module ActorPolicy {
  import opened Text

  const LEDGER_POLICY_DIR := "config/authority/actor-policy"
  const LEDGER_POLICY_PATH := "config/authority/actor-policy/root.json"
  const POLICY_TARGET := "authority:actor-policy"
  const POLICY_RECORD_KIND := "core.actor-auth-policy-v1"

  /** math.MaxInt64 / int64(time.Second). */
  const MAX_LIFETIME_SECONDS := 9_223_372_036

  datatype Key = Key(actor: string, keyId: string, publicKey: string, revoked: bool)

  datatype Grant = Grant(actor: string, action: string, target: string)

  datatype PolicyDoc = PolicyDoc(
    ledgerId: string, version: string, lifetimeSeconds: int, keys: seq<Key>, grants: seq<Grant>,
    contentSha: string)

  predicate Safe(s: string) {
    !ContainsAny(s, "\0\r\n")
  }

  predicate ValidAction(a: string) {
    a == "propose" || a == "decide" || a == "operate"
  }

  predicate Lt(a: string, b: string) {
    a != b && Leq(a, b)
  }

  predicate KeyLess(a: Key, b: Key) {
    if a.actor != b.actor then Lt(a.actor, b.actor) else Lt(a.keyId, b.keyId)
  }

  predicate GrantLess(a: Grant, b: Grant) {
    if a.actor != b.actor then Lt(a.actor, b.actor)
    else if a.action != b.action then Lt(a.action, b.action)
    else Lt(a.target, b.target)
  }

  predicate GoodKeyName(k: Key) {
    k.actor != "" && k.keyId != "" && Safe(k.actor) && Safe(k.keyId)
  }

  predicate GoodKey(k: Key, ed25519: string -> bool) {
    GoodKeyName(k) && ed25519(k.publicKey)
  }

  predicate GoodGrant(g: Grant) {
    g.actor != "" && g.target != "" && Safe(g.actor) && Safe(g.target) && ValidAction(g.action)
  }

  predicate KeysIncrease(keys: seq<Key>) {
    forall i | 0 < i < |keys| :: KeyLess(keys[i - 1], keys[i])
  }

  predicate GrantsIncrease(grants: seq<Grant>) {
    forall i | 0 < i < |grants| :: GrantLess(grants[i - 1], grants[i])
  }

  /** What an accepted policy document says, free of the order in which it was checked. */
  predicate ValidPolicy(doc: PolicyDoc, ed25519: string -> bool) {
    && doc.ledgerId != "" && doc.version != "" && Safe(doc.ledgerId) && Safe(doc.version)
    && 0 < doc.lifetimeSeconds <= MAX_LIFETIME_SECONDS
    && doc.keys != [] && doc.grants != []
    && KeysIncrease(doc.keys)
    && GrantsIncrease(doc.grants)
    && (forall k | k in doc.keys :: GoodKey(k, ed25519))
    && (forall g | g in doc.grants :: GoodGrant(g) && HasActiveKey(doc.keys, g.actor))
  }

  predicate HasActiveKey(keys: seq<Key>, actor: string) {
    exists k | k in keys :: k.actor == actor && !k.revoked
  }

  // ------------------------------------------------------------ orders

  lemma LtTransitive(a: string, b: string, c: string)
    requires Lt(a, b) && Lt(b, c)
    ensures Lt(a, c)
  {
    LeqTransitive(a, b, c);
    if a == c {
      LeqAntisymmetric(a, b);
    }
  }

  lemma KeyLessTransitive(a: Key, b: Key, c: Key)
    requires KeyLess(a, b) && KeyLess(b, c)
    ensures KeyLess(a, c)
  {
    if a.actor != b.actor && b.actor != c.actor {
      LtTransitive(a.actor, b.actor, c.actor);
    } else if a.actor == b.actor == c.actor {
      LtTransitive(a.keyId, b.keyId, c.keyId);
    }
  }

  lemma GrantLessTransitive(a: Grant, b: Grant, c: Grant)
    requires GrantLess(a, b) && GrantLess(b, c)
    ensures GrantLess(a, c)
  {
    if a.actor != b.actor && b.actor != c.actor {
      LtTransitive(a.actor, b.actor, c.actor);
    } else if a.actor == b.actor == c.actor {
      if a.action != b.action && b.action != c.action {
        LtTransitive(a.action, b.action, c.action);
      } else if a.action == b.action == c.action {
        LtTransitive(a.target, b.target, c.target);
      }
    }
  }

  /** Adjacent keys in order put every earlier key strictly before every later one. */
  lemma {:induction false} KeysOrdered(keys: seq<Key>, i: nat, j: nat)
    requires KeysIncrease(keys)
    requires i < j < |keys|
    ensures KeyLess(keys[i], keys[j])
    decreases j
  {
    if i < j - 1 {
      KeysOrdered(keys, i, j - 1);
      KeyLessTransitive(keys[i], keys[j - 1], keys[j]);
    }
  }

  lemma {:induction false} GrantsOrdered(grants: seq<Grant>, i: nat, j: nat)
    requires GrantsIncrease(grants)
    requires i < j < |grants|
    ensures GrantLess(grants[i], grants[j])
    decreases j
  {
    if i < j - 1 {
      GrantsOrdered(grants, i, j - 1);
      GrantLessTransitive(grants[i], grants[j - 1], grants[j]);
    }
  }

  lemma LtTrichotomy(a: string, b: string)
    ensures Lt(a, b) <==> !Lt(b, a) && a != b
  {
    LeqTotal(a, b);
    if Leq(a, b) && Leq(b, a) {
      LeqAntisymmetric(a, b);
    }
  }

  // ----------------------------------------------- identities with NUL joints

  /** Joining NUL-free texts with NUL loses nothing: the duplicate maps key on the pair itself. */
  lemma {:induction false} JoinInjective(a: string, b: string, c: string, d: string)
    requires Safe(a) && Safe(c)
    ensures a + "\0" + b == c + "\0" + d ==> a == c && b == d
  {
    var x := a + "\0" + b;
    var y := c + "\0" + d;
    if x == y {
      assert x[|a|] == '\0' && y[|c|] == '\0';
      assert forall i | 0 <= i < |a| :: x[i] == a[i] && a[i] != '\0';
      assert forall i | 0 <= i < |c| :: y[i] == c[i] && c[i] != '\0';
      assert a == x[..|a|] && c == y[..|c|];
      assert b == x[|a| + 1..] && d == y[|c| + 1..];
    }
  }

  function KeyIdentity(k: Key): string {
    k.actor + "\0" + k.keyId
  }

  function GrantIdentity(g: Grant): string {
    g.actor + "\0" + (g.action + "\0" + g.target)
  }

  lemma KeyIdentityInjective(a: Key, b: Key)
    requires Safe(a.actor) && Safe(b.actor) && KeyIdentity(a) == KeyIdentity(b)
    ensures a.actor == b.actor && a.keyId == b.keyId
  {
    JoinInjective(a.actor, a.keyId, b.actor, b.keyId);
  }

  lemma GrantIdentityInjective(a: Grant, b: Grant)
    requires GoodGrant(a) && GoodGrant(b) && GrantIdentity(a) == GrantIdentity(b)
    ensures a == b
  {
    JoinInjective(a.actor, a.action + "\0" + a.target, b.actor, b.action + "\0" + b.target);
    JoinInjective(a.action, a.target, b.action, b.target);
  }

  /** Keys not out of order and not the same binding are strictly in order, and conversely. */
  lemma KeyTrichotomy(a: Key, b: Key)
    ensures KeyLess(a, b) <==> !KeyLess(b, a) && !(a.actor == b.actor && a.keyId == b.keyId)
  {
    LtTrichotomy(a.actor, b.actor);
    LtTrichotomy(a.keyId, b.keyId);
  }

  lemma GrantTrichotomy(a: Grant, b: Grant)
    ensures GrantLess(a, b) <==> !GrantLess(b, a) && a != b
  {
    LtTrichotomy(a.actor, b.actor);
    LtTrichotomy(a.action, b.action);
    LtTrichotomy(a.target, b.target);
  }

  // ------------------------------------------------------------ the checks

  /** sort.SliceIsSorted on both lists, then the two duplicate-checking loops. */
  method CheckPolicy(doc: PolicyDoc, ed25519: string -> bool) returns (ok: bool)
    ensures ok <==> ValidPolicy(doc, ed25519)
  {
    if doc.ledgerId == "" || doc.version == "" || !Safe(doc.ledgerId) || !Safe(doc.version) {
      return false;
    }
    if doc.lifetimeSeconds <= 0 || doc.lifetimeSeconds > MAX_LIFETIME_SECONDS {
      return false;
    }
    if |doc.keys| == 0 || |doc.grants| == 0 {
      return false;
    }
    for i := 1 to |doc.keys|
      invariant forall j | 0 < j < i :: !KeyLess(doc.keys[j], doc.keys[j - 1])
    {
      if KeyLess(doc.keys[i], doc.keys[i - 1]) {
        KeyTrichotomy(doc.keys[i - 1], doc.keys[i]);
        return false;
      }
    }
    for i := 1 to |doc.grants|
      invariant forall j | 0 < j < i :: !GrantLess(doc.grants[j], doc.grants[j - 1])
    {
      if GrantLess(doc.grants[i], doc.grants[i - 1]) {
        GrantTrichotomy(doc.grants[i - 1], doc.grants[i]);
        return false;
      }
    }
    var active: set<string>;
    ok, active := CheckKeys(doc.keys, ed25519);
    forall a ensures ok ==> (a in active <==> HasActiveKey(doc.keys, a)) {
      ActiveActorsHaveKeys(doc.keys, |doc.keys|, a);
    }
    if ok {
      ok := CheckGrants(doc.grants, active);
    }
  }

  /** Every active key's actor, and nobody else, among the first `n` keys. */
  function ActiveActors(keys: seq<Key>, n: nat): set<string>
    requires n <= |keys|
  {
    if n == 0 then {}
    else ActiveActors(keys, n - 1) + (if keys[n - 1].revoked then {} else {keys[n - 1].actor})
  }

  lemma {:induction false} ActiveActorsHaveKeys(keys: seq<Key>, n: nat, a: string)
    requires n <= |keys|
    ensures a in ActiveActors(keys, n) <==> exists i | 0 <= i < n :: keys[i].actor == a && !keys[i].revoked
  {
    if n > 0 {
      ActiveActorsHaveKeys(keys, n - 1, a);
    }
  }

  function KeyIdentities(keys: seq<Key>, n: nat): set<string>
    requires n <= |keys|
  {
    if n == 0 then {} else KeyIdentities(keys, n - 1) + {KeyIdentity(keys[n - 1])}
  }

  lemma {:induction false} KeyIdentitiesAre(keys: seq<Key>, n: nat, x: string)
    requires n <= |keys|
    ensures x in KeyIdentities(keys, n) <==> exists i | 0 <= i < n :: KeyIdentity(keys[i]) == x
  {
    hide KeyIdentity;
    if n > 0 {
      KeyIdentitiesAre(keys, n - 1, x);
    }
  }

  /** A repeated binding is refused either way: the list is then not strictly sorted. */
  lemma RepeatedKeyIsUnsorted(keys: seq<Key>, n: nat)
    requires n < |keys| && KeyIdentity(keys[n]) in KeyIdentities(keys, n)
    requires GoodKeyName(keys[n]) && forall i | 0 <= i < n :: GoodKeyName(keys[i])
    ensures !KeysIncrease(keys)
  {
    KeyIdentitiesAre(keys, n, KeyIdentity(keys[n]));
    var j :| 0 <= j < n && KeyIdentity(keys[j]) == KeyIdentity(keys[n]);
    KeyIdentityInjective(keys[j], keys[n]);
    KeyTrichotomy(keys[j], keys[n]);
    if KeysIncrease(keys) {
      KeysOrdered(keys, j, n);
    }
  }

  lemma FreshKeyIsNext(keys: seq<Key>, n: nat)
    requires 0 < n < |keys| && KeyIdentity(keys[n]) !in KeyIdentities(keys, n)
    requires !KeyLess(keys[n], keys[n - 1])
    ensures KeyLess(keys[n - 1], keys[n])
  {
    KeyTrichotomy(keys[n - 1], keys[n]);
    KeyIdentitiesAre(keys, n, KeyIdentity(keys[n - 1]));
  }

  method CheckKeys(keys: seq<Key>, ed25519: string -> bool) returns (ok: bool, active: set<string>)
    requires forall i | 0 < i < |keys| :: !KeyLess(keys[i], keys[i - 1])
    ensures ok <==> KeysIncrease(keys) && forall i | 0 <= i < |keys| :: GoodKey(keys[i], ed25519)
    ensures ok ==> active == ActiveActors(keys, |keys|)
  {
    hide KeyLess, KeyIdentity, GoodKeyName;
    var seen: set<string> := {};
    active := {};
    for n := 0 to |keys|
      invariant forall i | 0 < i < n :: KeyLess(keys[i - 1], keys[i])
      invariant forall i | 0 <= i < n :: GoodKey(keys[i], ed25519)
      invariant seen == KeyIdentities(keys, n)
      invariant active == ActiveActors(keys, n)
    {
      var k := keys[n];
      if !GoodKeyName(k) {
        return false, {};
      }
      if KeyIdentity(k) in seen {
        RepeatedKeyIsUnsorted(keys, n);
        return false, {};
      }
      if n > 0 {
        FreshKeyIsNext(keys, n);
      }
      seen := seen + {KeyIdentity(k)};
      if !ed25519(k.publicKey) {
        return false, {};
      }
      if !k.revoked {
        active := active + {k.actor};
      }
    }
    return true, active;
  }

  function GrantIdentities(grants: seq<Grant>, n: nat): set<string>
    requires n <= |grants|
  {
    if n == 0 then {} else GrantIdentities(grants, n - 1) + {GrantIdentity(grants[n - 1])}
  }

  lemma {:induction false} GrantIdentitiesAre(grants: seq<Grant>, n: nat, x: string)
    requires n <= |grants|
    ensures x in GrantIdentities(grants, n) <==> exists i | 0 <= i < n :: GrantIdentity(grants[i]) == x
  {
    hide GrantIdentity;
    if n > 0 {
      GrantIdentitiesAre(grants, n - 1, x);
    }
  }

  lemma RepeatedGrantIsUnsorted(grants: seq<Grant>, n: nat)
    requires n < |grants| && GrantIdentity(grants[n]) in GrantIdentities(grants, n)
    requires GoodGrant(grants[n]) && forall i | 0 <= i < n :: GoodGrant(grants[i])
    ensures !GrantsIncrease(grants)
  {
    GrantIdentitiesAre(grants, n, GrantIdentity(grants[n]));
    var j :| 0 <= j < n && GrantIdentity(grants[j]) == GrantIdentity(grants[n]);
    GrantIdentityInjective(grants[j], grants[n]);
    GrantTrichotomy(grants[j], grants[n]);
    if GrantsIncrease(grants) {
      GrantsOrdered(grants, j, n);
    }
  }

  lemma FreshGrantIsNext(grants: seq<Grant>, n: nat)
    requires 0 < n < |grants| && GrantIdentity(grants[n]) !in GrantIdentities(grants, n)
    requires !GrantLess(grants[n], grants[n - 1])
    ensures GrantLess(grants[n - 1], grants[n])
  {
    GrantTrichotomy(grants[n - 1], grants[n]);
    GrantIdentitiesAre(grants, n, GrantIdentity(grants[n - 1]));
  }

  lemma GoodGrantIs(g: Grant)
    ensures GoodGrant(g) <==> g.actor != "" && g.target != "" && Safe(g.actor) && Safe(g.target) && ValidAction(g.action)
  {
  }

  method CheckGrants(grants: seq<Grant>, active: set<string>) returns (ok: bool)
    requires forall i | 0 < i < |grants| :: !GrantLess(grants[i], grants[i - 1])
    ensures ok <==>
              && GrantsIncrease(grants)
              && forall i | 0 <= i < |grants| :: GoodGrant(grants[i]) && grants[i].actor in active
  {
    hide GrantLess, GrantIdentity, GoodGrant;
    var seen: set<string> := {};
    for n := 0 to |grants|
      invariant forall i | 0 < i < n :: GrantLess(grants[i - 1], grants[i])
      invariant forall i | 0 <= i < n :: GoodGrant(grants[i]) && grants[i].actor in active
      invariant seen == GrantIdentities(grants, n)
    {
      var g := grants[n];
      GoodGrantIs(g);
      if g.actor == "" || g.target == "" || !Safe(g.actor) || !Safe(g.target) || !ValidAction(g.action) {
        return false;
      }
      if GrantIdentity(g) in seen {
        RepeatedGrantIsUnsorted(grants, n);
        return false;
      }
      if n > 0 {
        FreshGrantIsNext(grants, n);
      }
      seen := seen + {GrantIdentity(g)};
      if g.actor !in active {
        return false;
      }
    }
    return true;
  }

  // ---------------------------------------------------- initial authorities

  function GrantedActors(doc: PolicyDoc): set<string> {
    set g | g in doc.grants :: g.actor
  }

  /** Genesis must list exactly the granted actors, sorted and each once. */
  method ValidateInitialAuthorities(doc: PolicyDoc, expected: seq<string>) returns (ok: bool)
    ensures ok <==> expected == SortedPaths(GrantedActors(doc))
  {
    var seen: set<string> := {};
    for i := 0 to |doc.grants|
      invariant forall a :: a in seen <==> exists j | 0 <= j < i :: doc.grants[j].actor == a
    {
      seen := seen + {doc.grants[i].actor};
    }
    assert seen == GrantedActors(doc);
    var actors := SortedPaths(seen);
    if |actors| != |expected| {
      return false;
    }
    for i := 0 to |actors|
      invariant forall j | 0 <= j < i :: actors[j] == expected[j]
    {
      if actors[i] != expected[i] {
        return false;
      }
    }
    assert actors == expected;
    return true;
  }

  // ------------------------------------------------------- what is accepted

  /** Before the other by the first field that differs. */
  predicate Precedes(a: seq<string>, b: seq<string>) {
    a != [] && b != [] && (if a[0] == b[0] then Precedes(a[1..], b[1..]) else Leq(a[0], b[0]))
  }

  function KeyFields(k: Key): seq<string> {
    [k.actor, k.keyId]
  }

  function GrantFields(g: Grant): seq<string> {
    [g.actor, g.action, g.target]
  }

  lemma PrecedesFront(x: string, xs: seq<string>, y: string, ys: seq<string>)
    ensures Precedes([x] + xs, [y] + ys) <==> if x == y then Precedes(xs, ys) else Leq(x, y)
    ensures !Precedes([], [])
  {
    assert ([x] + xs)[1..] == xs && ([y] + ys)[1..] == ys;
  }

  lemma KeyPrecedes(a: Key, b: Key)
    ensures Precedes(KeyFields(a), KeyFields(b)) <==> KeyLess(a, b)
  {
    assert KeyFields(a) == [a.actor] + [a.keyId] && KeyFields(b) == [b.actor] + [b.keyId];
    PrecedesFront(a.actor, [a.keyId], b.actor, [b.keyId]);
    PrecedesFront(a.keyId, [], b.keyId, []);
    assert [a.keyId] + [] == [a.keyId] && [b.keyId] + [] == [b.keyId];
  }

  lemma GrantPrecedes(a: Grant, b: Grant)
    ensures Precedes(GrantFields(a), GrantFields(b)) <==> GrantLess(a, b)
  {
    assert GrantFields(a) == [a.actor] + [a.action, a.target] && GrantFields(b) == [b.actor] + [b.action, b.target];
    PrecedesFront(a.actor, [a.action, a.target], b.actor, [b.action, b.target]);
    assert [a.action, a.target] == [a.action] + [a.target] && [b.action, b.target] == [b.action] + [b.target];
    PrecedesFront(a.action, [a.target], b.action, [b.target]);
    PrecedesFront(a.target, [], b.target, []);
    assert [a.target] + [] == [a.target] && [b.target] + [] == [b.target];
  }

  /** A name a policy may hold. */
  predicate Speakable(s: string) {
    s != "" && '\0' !in s && '\r' !in s && '\n' !in s
  }

  lemma SpeakableIff(s: string)
    ensures Speakable(s) <==> s != "" && Safe(s)
  {
    forall c: char ensures c in "\0\r\n" <==> c == '\0' || c == '\r' || c == '\n' {
    }
    if '\0' in s || '\r' in s || '\n' in s {
      var i :| 0 <= i < |s| && (s[i] == '\0' || s[i] == '\r' || s[i] == '\n');
      assert s[i] in "\0\r\n";
    }
  }

  /** A policy of one ledger and version: all keys and all grants in order, each once, nobody granted without a live key. */
  predicate PolicyRules(doc: PolicyDoc, ed25519: string -> bool) {
    && Speakable(doc.ledgerId) && Speakable(doc.version)
    && 0 < doc.lifetimeSeconds <= 9_223_372_036 && |doc.keys| > 0 && |doc.grants| > 0
    && (forall i | 0 <= i < |doc.keys| ::
          Speakable(doc.keys[i].actor) && Speakable(doc.keys[i].keyId) && ed25519(doc.keys[i].publicKey))
    && (forall i, j | 0 <= i < j < |doc.keys| :: Precedes(KeyFields(doc.keys[i]), KeyFields(doc.keys[j])))
    && (forall i | 0 <= i < |doc.grants| ::
          && Speakable(doc.grants[i].actor) && Speakable(doc.grants[i].target)
          && doc.grants[i].action in ["propose", "decide", "operate"]
          && exists j :: 0 <= j < |doc.keys| && doc.keys[j].actor == doc.grants[i].actor && !doc.keys[j].revoked)
    && (forall i, j | 0 <= i < j < |doc.grants| :: Precedes(GrantFields(doc.grants[i]), GrantFields(doc.grants[j])))
  }

  lemma OrderIff(doc: PolicyDoc)
    ensures KeysIncrease(doc.keys) <==>
            forall i, j | 0 <= i < j < |doc.keys| :: Precedes(KeyFields(doc.keys[i]), KeyFields(doc.keys[j]))
    ensures GrantsIncrease(doc.grants) <==>
            forall i, j | 0 <= i < j < |doc.grants| :: Precedes(GrantFields(doc.grants[i]), GrantFields(doc.grants[j]))
  {
    hide KeyLess, GrantLess, Precedes, KeyFields, GrantFields;
    forall a, b ensures Precedes(KeyFields(a), KeyFields(b)) <==> KeyLess(a, b) {
      KeyPrecedes(a, b);
    }
    forall a, b ensures Precedes(GrantFields(a), GrantFields(b)) <==> GrantLess(a, b) {
      GrantPrecedes(a, b);
    }
    if KeysIncrease(doc.keys) {
      forall i, j | 0 <= i < j < |doc.keys| ensures KeyLess(doc.keys[i], doc.keys[j]) {
        KeysOrdered(doc.keys, i, j);
      }
    }
    if GrantsIncrease(doc.grants) {
      forall i, j | 0 <= i < j < |doc.grants| ensures GrantLess(doc.grants[i], doc.grants[j]) {
        GrantsOrdered(doc.grants, i, j);
      }
    }
  }

  /** What the checks accept. */
  lemma PolicyRulesIff(doc: PolicyDoc, ed25519: string -> bool)
    ensures ValidPolicy(doc, ed25519) <==> PolicyRules(doc, ed25519)
  {
    hide KeysIncrease, GrantsIncrease, Precedes, Safe, Speakable;
    OrderIff(doc);
    forall s ensures Speakable(s) <==> s != "" && Safe(s) {
      SpeakableIff(s);
    }
    GrantsIff(doc);
    assert forall i | 0 <= i < |doc.keys| :: doc.keys[i] in doc.keys;
  }

  /** A grant's own rules, its actor's key being among `keys`. */
  predicate GrantRules(keys: seq<Key>, g: Grant) {
    && g.actor != "" && g.target != "" && Safe(g.actor) && Safe(g.target)
    && g.action in ["propose", "decide", "operate"]
    && exists j :: 0 <= j < |keys| && keys[j].actor == g.actor && !keys[j].revoked
  }

  lemma GrantIff(keys: seq<Key>, g: Grant)
    ensures GoodGrant(g) && HasActiveKey(keys, g.actor) <==> GrantRules(keys, g)
  {
    hide Safe;
    assert ["propose", "decide", "operate"][0] == "propose" && ["propose", "decide", "operate"][1] == "decide" &&
           ["propose", "decide", "operate"][2] == "operate";
    if HasActiveKey(keys, g.actor) {
      var k :| k in keys && k.actor == g.actor && !k.revoked;
      var j :| 0 <= j < |keys| && keys[j] == k;
      assert keys[j].actor == g.actor && !keys[j].revoked;
    }
    if j :| 0 <= j < |keys| && keys[j].actor == g.actor && !keys[j].revoked {
      assert keys[j] in keys;
    }
  }

  lemma GrantsIff(doc: PolicyDoc)
    ensures (forall g | g in doc.grants :: GoodGrant(g) && HasActiveKey(doc.keys, g.actor)) <==>
            forall i | 0 <= i < |doc.grants| :: GrantRules(doc.keys, doc.grants[i])
  {
    hide GoodGrant, HasActiveKey, GrantRules;
    forall g ensures GoodGrant(g) && HasActiveKey(doc.keys, g.actor) <==> GrantRules(doc.keys, g) {
      GrantIff(doc.keys, g);
    }
    assert forall i | 0 <= i < |doc.grants| :: doc.grants[i] in doc.grants;
  }
}
