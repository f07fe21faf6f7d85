/**
 What a ledger is, rule by rule, in terms of the commits' trees and bytes alone, and
 the proof that replay accepts exactly that.
 */
module LedgerRules {
  import opened Wrappers
  import opened Text
  import opened Git
  import opened ActorPolicy
  import opened Domain
  import opened Bindings
  import opened LedgerReplay
  import opened ReplayFacts
  import opened ReplayTheorems
  import opened SnapshotRules
  import GenesisLedger
  import Reducer

  // -------------------------------------------------------------------- paths

  predicate Beneath(p: string, dir: string) {
    |dir| < |p| && p[..|dir|] == dir && p[|dir|] == '/'
  }

  predicate IsJson(p: string) {
    |p| >= 5 && p[|p| - 5..] == ".json"
  }

  /** A maximal stretch without a slash. */
  predicate Component(p: string, i: nat, j: nat) {
    i <= j <= |p| && (i == 0 || p[i - 1] == '/') && (j == |p| || p[j] == '/') && '/' !in p[i..j]
  }

  /** No component is empty or a dot. */
  ghost predicate Plainly(p: string) {
    forall i: nat, j: nat | Component(p, i, j) :: p[i..j] != "" && p[i..j] != "." && p[i..j] != ".."
  }

  /** None of the characters no Git path may hold here. */
  predicate Printable(p: string) {
    forall c | c in p :: c != '\\' && c != '\0' && c != '\r' && c != '\n'
  }

  /** Letters, digits and a few marks. */
  predicate Portable(p: string) {
    forall c | c in p :: 'a' <= c <= 'z' || 'A' <= c <= 'Z' || '0' <= c <= '9' || c == '-' || c == '_' || c == '.' || c == '/'
  }

  ghost predicate Allowed(p: string) {
    || p == GENESIS_PATH || p == LEDGER_POLICY_PATH
    || ((Beneath(p, SCHEMA_DIR) || Beneath(p, BINDING_DIR)) && IsJson(p) && Plainly(p) && Printable(p))
    || (Beneath(p, "events") && IsJson(p) && Plainly(p) && Portable(p))
  }

  predicate IsPart(p: string, i: nat, j: nat, part: string) {
    Component(p, i, j) && p[i..j] == part
  }

  lemma SliceOfTail(p: string, i: nat, j: nat)
    requires 0 < i <= j <= |p|
    ensures p[i..j] == p[1..][i - 1..j - 1]
  {
    var a, b := p[i..j], p[1..][i - 1..j - 1];
    assert |a| == |b|;
    forall k | 0 <= k < |a| ensures a[k] == b[k] {
      assert a[k] == p[i + k] && b[k] == p[1..][i - 1 + k];
    }
  }

  /** Components of a path's tail, moved one place. */
  lemma ComponentShift(p: string, i: nat, j: nat, part: string)
    requires p != "" && 0 < i
    ensures IsPart(p, i, j, part) ==> j > 0 && IsPart(p[1..], i - 1, j - 1, part)
    ensures j > 0 && IsPart(p[1..], i - 1, j - 1, part) && (i > 1 || p[0] == '/') ==> IsPart(p, i, j, part)
  {
    if 0 < i <= j <= |p| {
      SliceOfTail(p, i, j);
    }
  }

  lemma FrontComponent(p: string, j: nat, part: string)
    requires p != "" && p[0] != '/'
    ensures IsPart(p[1..], 0, j, part) ==> IsPart(p, 0, j + 1, [p[0]] + part)
    ensures IsPart(p, 0, j, part) ==> j > 0 && part != "" && IsPart(p[1..], 0, j - 1, part[1..]) && part[0] == p[0]
  {
    if j + 1 <= |p| {
      assert p[0..j + 1] == [p[0]] + p[1..][0..j];
    }
    if 0 < j <= |p| {
      assert p[0..j][1..] == p[1..][0..j - 1];
    }
  }

  /** strings.Split yields components: the first starts the path, the others follow a slash. */
  lemma {:induction false} PartIsComponent(p: string, n: nat) returns (i: nat, j: nat)
    requires n < |Split(p)|
    ensures IsPart(p, i, j, Split(p)[n]) && (n == 0 <==> i == 0)
  {
    if p == "" || (p[0] == '/' && n == 0) {
      i, j := 0, 0;
    } else {
      i, j := PartIsComponent(p[1..], if p[0] == '/' then n - 1 else n);
      var part := Split(p[1..])[if p[0] == '/' then n - 1 else n];
      if n == 0 {
        FrontComponent(p, j, part);
        j := j + 1;
      } else {
        ComponentShift(p, i + 1, j + 1, part);
        i, j := i + 1, j + 1;
      }
    }
  }

  /** And every component. */
  lemma {:induction false} ComponentIsPart(p: string, i: nat, j: nat, part: string) returns (n: nat)
    requires IsPart(p, i, j, part)
    ensures n < |Split(p)| && Split(p)[n] == part && (n == 0 <==> i == 0)
  {
    if p == "" {
      n := 0;
    } else if i > 0 {
      ComponentShift(p, i, j, part);
      n := ComponentIsPart(p[1..], i - 1, j - 1, part);
      n := if p[0] == '/' then n + 1 else n;
    } else if p[0] == '/' {
      n := 0;
    } else {
      FrontComponent(p, j, part);
      n := ComponentIsPart(p[1..], 0, j - 1, part[1..]);
      assert part == [part[0]] + part[1..];
    }
  }

  lemma PlainlyIff(p: string)
    ensures CleanParts(p) <==> Plainly(p)
  {
    hide Split, Component;
    if CleanParts(p) {
      forall i: nat, j: nat | Component(p, i, j) ensures i <= j <= |p| && p[i..j] != "" && p[i..j] != "." && p[i..j] != ".." {
        ComponentFits(p, i, j);
        var n := ComponentIsPart(p, i, j, p[i..j]);
        assert Split(p)[n] in Split(p);
      }
    }
    if Plainly(p) {
      forall part | part in Split(p) ensures part != "" && part != "." && part != ".." {
        var n :| 0 <= n < |Split(p)| && Split(p)[n] == part;
        var i, j := PartIsComponent(p, n);
      }
    }
  }

  lemma ComponentFits(p: string, i: nat, j: nat)
    requires Component(p, i, j)
    ensures i <= j <= |p|
  {
  }

  lemma BeneathIff(p: string, dir: string)
    ensures HasPrefix(p, dir + "/") <==> Beneath(p, dir)
  {
    if Beneath(p, dir) {
      assert p[..|dir| + 1] == dir + "/";
    }
    if HasPrefix(p, dir + "/") {
      assert p[..|dir| + 1] == dir + "/";
      assert p[..|dir|] == (dir + "/")[..|dir|] && p[|dir|] == (dir + "/")[|dir|];
    }
  }

  lemma JsonIff(p: string)
    ensures HasSuffix(p, ".json") <==> IsJson(p)
  {
    assert |".json"| == 5;
  }

  lemma PrintableIff(p: string)
    ensures !ContainsAny(p, "\\\0\r\n") <==> Printable(p)
  {
    forall c: char ensures c in "\\\0\r\n" <==> c == '\\' || c == '\0' || c == '\r' || c == '\n' {
    }
    if Printable(p) {
      forall i | 0 <= i < |p| ensures p[i] !in "\\\0\r\n" {
        assert p[i] in p;
      }
    } else {
      var c :| c in p && !(c != '\\' && c != '\0' && c != '\r' && c != '\n');
      var i :| 0 <= i < |p| && p[i] == c;
      assert p[i] in "\\\0\r\n";
    }
  }

  lemma PortableIff(p: string)
    ensures (forall i | 0 <= i < |p| :: EventPathChar(p[i]) || p[i] == '/') <==> Portable(p)
  {
    forall c: char ensures c in "-_." <==> c == '-' || c == '_' || c == '.' {
    }
    if forall i | 0 <= i < |p| :: EventPathChar(p[i]) || p[i] == '/' {
      assert Portable(p);
    }
    if Portable(p) {
      forall i | 0 <= i < |p| ensures EventPathChar(p[i]) || p[i] == '/' {
        assert p[i] in p;
      }
    }
  }

  lemma VersionedIff(p: string, dir: string)
    ensures ValidVersionedPath(p, dir) <==> Beneath(p, dir) && IsJson(p) && Plainly(p) && Printable(p)
  {
    hide Plainly, CleanParts, Beneath, Printable, IsJson, HasPrefix, HasSuffix, ContainsAny;
    BeneathIff(p, dir);
    PlainlyIff(p);
    JsonIff(p);
    PrintableIff(p);
  }

  lemma EventPathIff(p: string)
    ensures ValidEventPath(p) <==> Beneath(p, "events") && IsJson(p) && Plainly(p) && Portable(p)
  {
    hide Plainly, CleanParts, Beneath, Portable, IsJson, HasPrefix, HasSuffix, EventPathChar;
    BeneathIff(p, "events");
    assert "events" + "/" == "events/";
    PlainlyIff(p);
    JsonIff(p);
    PortableIff(p);
  }

  /** The paths the ledger may have, from the characters up. */
  lemma AllowedIff(p: string)
    ensures ValidLedgerPath(p) <==> Allowed(p)
  {
    hide Plainly, Beneath, IsJson, ValidVersionedPath, ValidEventPath;
    VersionedIff(p, SCHEMA_DIR);
    VersionedIff(p, BINDING_DIR);
    EventPathIff(p);
    BeneathIff(p, SCHEMA_DIR);
    BeneathIff(p, BINDING_DIR);
    DirectoriesDisjoint(p);
    ValidEventPathParts(p);
  }

  lemma ValidEventPathParts(p: string)
    ensures ValidEventPath(p) ==> HasPrefix(p, "events/") && HasSuffix(p, ".json")
  {
    hide CleanParts, EventPathChar;
  }

  lemma DirectoriesDisjoint(p: string)
    ensures !(Beneath(p, SCHEMA_DIR) && Beneath(p, BINDING_DIR))
    ensures Beneath(p, "events") ==> !Beneath(p, SCHEMA_DIR) && !Beneath(p, BINDING_DIR)
  {
    assert SCHEMA_DIR[7] == 's' && BINDING_DIR[7] == 'a' && SCHEMA_DIR[0] == 'c' && BINDING_DIR[0] == 'c' && "events"[0] == 'e';
    BeneathStarts(p, SCHEMA_DIR);
    BeneathStarts(p, BINDING_DIR);
    BeneathStarts(p, "events");
    hide Beneath;
  }

  // -------------------------------------------------------------------- trees

  /** A later commit adds files where the ledger may have them, and does nothing else. */
  ghost predicate OnlyAddsAllowed(before: Tree, after: Tree) {
    && (forall p | p in before :: p in after && after[p] == before[p])
    && (forall p | p in after && p !in before ::
          && Allowed(p) && p != GENESIS_PATH && p != LEDGER_POLICY_PATH
          && (Beneath(p, "events") ==> after[p].mode == Plain))
  }

  function AddedEvents(before: Tree, after: Tree): (paths: set<string>)
    ensures paths <= after.Keys
  {
    set p | p in after && p !in before && Beneath(p, "events")
  }

  /** Where an allowed path can lie. */
  lemma AllowedWhere(p: string)
    requires Allowed(p) && p != GENESIS_PATH && p != LEDGER_POLICY_PATH
    ensures !Under(p, GENESIS_DIR) && !Under(p, LEDGER_POLICY_DIR)
    ensures forall dir | dir in [SCHEMA_DIR, BINDING_DIR, EVENTS] && Under(p, dir) ::
              HasPrefix(p, dir + "/") && HasSuffix(p, ".json")
    ensures Under(p, EVENTS) <==> Beneath(p, "events")
  {
    hide Plainly, Portable, Printable;
    JsonIff(p);
    BeneathIff(p, SCHEMA_DIR);
    BeneathIff(p, BINDING_DIR);
    BeneathIff(p, EVENTS);
    BeneathIff(p, GENESIS_DIR);
    BeneathIff(p, LEDGER_POLICY_DIR);
    NoDirectoryIsJson(p);
    TrustIsElsewhere(p);
    hide Beneath, HasPrefix, HasSuffix, IsJson;
  }

  lemma NoDirectoryIsJson(p: string)
    requires IsJson(p)
    ensures p !in [SCHEMA_DIR, BINDING_DIR, EVENTS, GENESIS_DIR, LEDGER_POLICY_DIR]
  {
    assert SCHEMA_DIR[|SCHEMA_DIR| - 1] == 's' && BINDING_DIR[|BINDING_DIR| - 1] == 's' && EVENTS[|EVENTS| - 1] == 's';
    assert GENESIS_DIR[|GENESIS_DIR| - 1] == 's' && LEDGER_POLICY_DIR[|LEDGER_POLICY_DIR| - 1] == 'y';
    assert p[|p| - 5..][4] == 'n';
  }

  lemma TrustIsElsewhere(p: string)
    requires Beneath(p, SCHEMA_DIR) || Beneath(p, BINDING_DIR) || Beneath(p, "events")
    ensures !Beneath(p, GENESIS_DIR) && !Beneath(p, LEDGER_POLICY_DIR)
  {
    assert SCHEMA_DIR[7] == 's' && BINDING_DIR[7] == 'a' && BINDING_DIR[17] == 'r' && "events"[0] == 'e';
    assert GENESIS_DIR[7] == 'g' && GENESIS_DIR[0] == 'c' && LEDGER_POLICY_DIR[7] == 'a' && LEDGER_POLICY_DIR[17] == 'a';
    assert LEDGER_POLICY_DIR[0] == 'c';
    BeneathStarts(p, GENESIS_DIR);
    BeneathStarts(p, LEDGER_POLICY_DIR);
    BeneathStarts(p, SCHEMA_DIR);
    BeneathStarts(p, BINDING_DIR);
    BeneathStarts(p, "events");
    hide Beneath;
  }

  lemma BeneathStarts(p: string, dir: string)
    ensures Beneath(p, dir) ==> |dir| < |p| && forall k | 0 <= k < |dir| :: p[k] == dir[k]
  {
    if Beneath(p, dir) {
      assert forall k | 0 <= k < |dir| :: p[k] == p[..|dir|][k];
    }
  }

  /** Everything replay asks of a later commit's paths. */
  predicate PathsPass(c: Commit) {
    && ValidNamespace(c) && LeavesTrust(c)
    && ImmutableJsonAdditions(c, SCHEMA_DIR).Some? && ImmutableJsonAdditions(c, BINDING_DIR).Some? && EventAdditions(c).Some?
  }

  lemma PathsPassIff(c: Commit)
    requires |c.parents| == 1
    ensures PathsPass(c) <==> OnlyAddsAllowed(c.parents[0].tree, c.tree)
    ensures PathsPass(c) ==> EventAdditions(c) == Some(SortedPaths(AddedEvents(c.parents[0].tree, c.tree)))
  {
    hide Allowed, ValidLedgerPath, Beneath, ImmutableJsonAdditions, EventAdditions, Changed, Under;
    if PathsPass(c) {
      PassedPaths(c);
      EventsAreAdded(c);
    }
    if OnlyAddsAllowed(c.parents[0].tree, c.tree) {
      AllowedPass(c);
    }
  }

  lemma PassedPaths(c: Commit)
    requires |c.parents| == 1 && PathsPass(c)
    ensures OnlyAddsAllowed(c.parents[0].tree, c.tree)
  {
    hide Allowed, ValidLedgerPath, Beneath, ImmutableJsonAdditions, EventAdditions, Under;
    CommitOnlyAdds(c);
    forall p | p in c.tree && p !in c.parents[0].tree
      ensures Allowed(p) && p != GENESIS_PATH && p != LEDGER_POLICY_PATH
      ensures Beneath(p, "events") ==> c.tree[p].mode == Plain
    {
      assert p in Changed(c);
      AllowedIff(p);
      ChangedPathIsAdded(c, p);
      AllowedWhere(p);
      RegularEvent(c, p);
    }
  }

  lemma RegularEvent(c: Commit, p: string)
    requires EventAdditions(c).Some? && p in Changed(c) && p in c.tree
    ensures Under(p, EVENTS) ==> c.tree[p].mode == Plain
  {
    hide Changed, Under, HasPrefix, HasSuffix;
    if Under(p, EVENTS) {
      assert p in ChangedUnder(c, EVENTS);
    }
  }

  lemma ChangedAreNew(c: Commit)
    requires |c.parents| == 1 && OnlyAddsAllowed(c.parents[0].tree, c.tree)
    ensures forall p :: p in Changed(c) <==> p in c.tree && p !in c.parents[0].tree
  {
    hide Allowed, Beneath;
  }

  lemma AllowedPass(c: Commit)
    requires |c.parents| == 1 && OnlyAddsAllowed(c.parents[0].tree, c.tree)
    ensures PathsPass(c)
  {
    hide Allowed, ValidLedgerPath, Beneath, Under, Changed, HasPrefix, HasSuffix;
    ChangedAreNew(c);
    forall p | p in Changed(c)
      ensures ValidLedgerPath(p) && !Under(p, GENESIS_DIR) && !Under(p, LEDGER_POLICY_DIR) && Added(c, p)
      ensures forall dir | dir in [SCHEMA_DIR, BINDING_DIR, EVENTS] && Under(p, dir) ::
                HasPrefix(p, dir + "/") && HasSuffix(p, ".json")
      ensures Under(p, EVENTS) ==> c.tree[p].mode == Plain
    {
      AllowedIff(p);
      AllowedWhere(p);
    }
    assert ChangedUnder(c, GENESIS_DIR) == {} && ChangedUnder(c, LEDGER_POLICY_DIR) == {};
    assert SCHEMA_DIR in [SCHEMA_DIR, BINDING_DIR, EVENTS];
    assert [SCHEMA_DIR, BINDING_DIR, EVENTS][1] == BINDING_DIR && [SCHEMA_DIR, BINDING_DIR, EVENTS][2] == EVENTS;
  }

  lemma EventsAreAdded(c: Commit)
    requires |c.parents| == 1 && PathsPass(c) && OnlyAddsAllowed(c.parents[0].tree, c.tree)
    ensures EventAdditions(c) == Some(SortedPaths(AddedEvents(c.parents[0].tree, c.tree)))
  {
    hide Allowed, Beneath, Under, Changed, HasPrefix, HasSuffix, ValidNamespace, LeavesTrust, ImmutableJsonAdditions;
    ChangedAreNew(c);
    forall p ensures p in ChangedUnder(c, EVENTS) <==> p in AddedEvents(c.parents[0].tree, c.tree) {
      if p in c.tree && p !in c.parents[0].tree {
        AllowedWhere(p);
      }
    }
    assert ChangedUnder(c, EVENTS) == AddedEvents(c.parents[0].tree, c.tree);
  }

  // ------------------------------------------------------------------- events

  /** The commit stores this event under this path: canonical, digested, conforming to a known schema, identified. */
  ghost predicate Stores(env: Env, registry: Registry, c: Commit, path: string, e: Event) {
    && e.commit == c && e.path == path && path in c.tree && Fits(path)
    && (var raw := c.tree[path].bytes;
        && Fits(raw) && env.strictValid(raw) && env.canon(raw) == Some(raw) && env.digestOk(raw)
        && env.decodeEvent(raw) == Some(e.doc)
        && e.doc.schemaVersion != "" && env.conforms(registry, e.doc.schemaVersion, raw)
        && e.doc.eventId != "" && e.doc.eventType != "" && e.doc.contentSha != "")
  }

  lemma StoresIff(env: Env, registry: Registry, c: Commit, path: string, e: Event)
    requires path in c.tree
    ensures ValidateEvent(env, registry, c, path) == Some(e) <==> Stores(env, registry, c, path, e)
  {
  }

  /** Neither its id nor its key has been used. */
  predicate Unused(events: seq<Event>, e: Event) {
    forall i | 0 <= i < |events| ::
      events[i].doc.eventId != e.doc.eventId && (e.doc.idempotencyKey != "" ==> events[i].doc.idempotencyKey != e.doc.idempotencyKey)
  }

  predicate IsRecord(doc: EventDoc) {
    HasPrefix(doc.eventType, "core.record.")
  }

  /**
   The record event is judged by the right rules: its kind is bound, to its own schema
   and policy version, it names the commit it follows, and a policy it brings is one of
   this ledger under that version.
   */
  predicate JudgedBy(env: Env, root: GenesisRoot, bindings: Snapshot, parent: Commit, doc: EventDoc) {
    && doc.recordKind in bindings.byKind
    && bindings.byKind[doc.recordKind].eventSchema == doc.schemaVersion
    && bindings.byKind[doc.recordKind].policyVersion == doc.policyVersion
    && doc.expectedLedgerCommit == env.id(parent)
    && (doc.recordKind == POLICY_RECORD_KIND && (doc.eventType == Reducer.CREATED || doc.eventType == Reducer.REPLACED) ==>
          ParsePolicyFor(env, doc.value, root.ledgerId, doc.policyVersion).Some?)
  }

  /** One event on top of the others. */
  ghost predicate Follows(
    env: Env, root: GenesisRoot, registry: Registry, bindings: Snapshot, parent: Commit, c: Commit,
    before: seq<Event>, path: string, e: Event)
  {
    && Stores(env, registry, c, path, e) && Unused(before, e)
    && (IsRecord(e.doc) ==> JudgedBy(env, root, bindings, parent, e.doc))
    && Reducer.ApplyAll(env, StepsOf(env, before + [e])).Ok?
  }

  lemma UnusedIff(events: seq<Event>, e: Event)
    ensures Unused(events, e) <==>
            !HasEventId(events, e.doc.eventId) && (e.doc.idempotencyKey != "" ==> !HasKey(events, e.doc.idempotencyKey))
  {
  }

  lemma JudgedIff(env: Env, root: GenesisRoot, records: Projection, bindings: Snapshot, parent: Commit, doc: EventDoc)
    requires env.id(parent) != ""
    ensures ApplyGoverned(env, records, bindings, root, env.id(parent), doc).Ok? <==>
            JudgedBy(env, root, bindings, parent, doc) &&
            Reducer.Apply(env, records, ReducerBindings(bindings), ReducerEvent(doc)).Ok?
    ensures ApplyGoverned(env, records, bindings, root, env.id(parent), doc).Ok? ==>
            ApplyGoverned(env, records, bindings, root, env.id(parent), doc)
            == Ok(Reducer.Apply(env, records, ReducerBindings(bindings), ReducerEvent(doc)).value)
  {
    hide Reducer.Apply, ParsePolicyFor;
  }

  /** The reducer's verdict on one more event. */
  lemma ReducesIff(env: Env, before: seq<Event>, records: Projection, e: Event, bindings: Snapshot)
    requires BindingsAt(env, e.commit) == Some(bindings) && Reducer.ApplyAll(env, StepsOf(env, before)) == Ok(records)
    ensures Reducer.ApplyAll(env, StepsOf(env, before + [e])) ==
            if IsRecord(e.doc) then Reducer.Apply(env, records, ReducerBindings(bindings), ReducerEvent(e.doc)) else Ok(records)
  {
    hide Reducer.Apply, BindingsAt;
    var all := before + [e];
    assert all[..|all| - 1] == before && all[|all| - 1] == e;
    if IsRecord(e.doc) {
      var step := Reducer.Step(ReducerBindings(bindings), ReducerEvent(e.doc));
      var steps := StepsOf(env, before) + [step];
      assert StepsOf(env, all) == steps;
      assert steps[..|steps| - 1] == StepsOf(env, before) && steps[|steps| - 1] == step;
    }
  }

  /** One turn of the event loop accepts exactly an event that follows. */
  lemma AddEventIff(
    env: Env, root: GenesisRoot, registry: Registry, bindings: Snapshot, parent: Commit, c: Commit, l: Ledger, path: string)
    requires c.parents == [parent] && env.id(parent) != "" && path in c.tree
    requires BindingsAt(env, c) == Some(bindings) && Reduced(env, l)
    ensures AddEvent(env, root, registry, bindings, c, l, path).Ok? <==>
            exists e :: Follows(env, root, registry, bindings, parent, c, l.events, path, e)
    ensures forall e | Follows(env, root, registry, bindings, parent, c, l.events, path, e) ::
              && AddEvent(env, root, registry, bindings, c, l, path).Ok?
              && AddEvent(env, root, registry, bindings, c, l, path).value.events == l.events + [e]
  {
    hide Reducer.Apply, Reducer.ApplyAll, StepsOf, BindingsAt, Stores, ValidateEvent, Unused, HasEventId, HasKey, JudgedBy,
      ApplyGoverned, ReducerBindings;
    var found := ValidateEvent(env, registry, c, path);
    forall e ensures Stores(env, registry, c, path, e) <==> found == Some(e) {
      StoresIff(env, registry, c, path, e);
    }
    if found.Some? {
      var e := found.value;
      StoredAt(env, registry, c, path, e);
      UnusedIff(l.events, e);
      ReducesIff(env, l.events, l.records, e, bindings);
      if IsRecord(e.doc) {
        JudgedIff(env, root, l.records, bindings, parent, e.doc);
      }
      assert AddEvent(env, root, registry, bindings, c, l, path).Ok? <==>
             Follows(env, root, registry, bindings, parent, c, l.events, path, e);
    }
  }

  lemma StoredAt(env: Env, registry: Registry, c: Commit, path: string, e: Event)
    requires Stores(env, registry, c, path, e)
    ensures e.commit == c
  {
  }

  /** The events of one commit, in path order, on top of its parent's. */
  ghost predicate AllFollow(
    env: Env, root: GenesisRoot, registry: Registry, bindings: Snapshot, parent: Commit, c: Commit,
    before: seq<Event>, paths: seq<string>, es: seq<Event>)
  {
    && |es| == |paths|
    && forall i | 0 <= i < |paths| :: Follows(env, root, registry, bindings, parent, c, before + es[..i], paths[i], es[i])
  }

  lemma {:induction false} AddedFollow(
    env: Env, root: GenesisRoot, registry: Registry, bindings: Snapshot, parent: Commit, c: Commit, l: Ledger,
    paths: seq<string>) returns (es: seq<Event>)
    requires c.parents == [parent] && env.id(parent) != "" && forall p | p in paths :: p in c.tree
    requires BindingsAt(env, c) == Some(bindings) && Reduced(env, l)
    requires AddEvents(env, root, registry, bindings, c, l, paths).Ok?
    ensures AllFollow(env, root, registry, bindings, parent, c, l.events, paths, es)
    ensures AddEvents(env, root, registry, bindings, c, l, paths).value.events == l.events + es
  {
    hide AddEvent, Follows, BindingsAt, Reduced;
    if paths == [] {
      es := [];
    } else {
      var first, last := paths[..|paths| - 1], paths[|paths| - 1];
      var init := AddedFollow(env, root, registry, bindings, parent, c, l, first);
      var before := AddEvents(env, root, registry, bindings, c, l, first).value;
      AddEventsReduce(env, root, registry, bindings, c, l, first);
      AddEventIff(env, root, registry, bindings, parent, c, before, last);
      var e :| Follows(env, root, registry, bindings, parent, c, before.events, last, e);
      FollowSnoc(env, root, registry, bindings, parent, c, l.events, paths, init, e);
      es := init + [e];
      assert l.events + es == l.events + init + [e];
    }
  }

  lemma {:induction false} FollowedAdd(
    env: Env, root: GenesisRoot, registry: Registry, bindings: Snapshot, parent: Commit, c: Commit, l: Ledger,
    paths: seq<string>, es: seq<Event>)
    requires c.parents == [parent] && env.id(parent) != "" && forall p | p in paths :: p in c.tree
    requires BindingsAt(env, c) == Some(bindings) && Reduced(env, l)
    requires AllFollow(env, root, registry, bindings, parent, c, l.events, paths, es)
    ensures AddEvents(env, root, registry, bindings, c, l, paths).Ok?
    ensures AddEvents(env, root, registry, bindings, c, l, paths).value.events == l.events + es
  {
    hide AddEvent, Follows, BindingsAt, Reduced;
    if paths == [] {
      assert l.events + [] == l.events;
    } else {
      var first, last := paths[..|paths| - 1], paths[|paths| - 1];
      FollowInit(env, root, registry, bindings, parent, c, l.events, paths, es);
      FollowedAdd(env, root, registry, bindings, parent, c, l, first, es[..|es| - 1]);
      var before := AddEvents(env, root, registry, bindings, c, l, first).value;
      AddEventsReduce(env, root, registry, bindings, c, l, first);
      AddEventIff(env, root, registry, bindings, parent, c, before, last);
      assert l.events + es == l.events + es[..|es| - 1] + [es[|es| - 1]];
    }
  }

  lemma AddEventsIff(
    env: Env, root: GenesisRoot, registry: Registry, bindings: Snapshot, parent: Commit, c: Commit, l: Ledger,
    paths: seq<string>)
    requires c.parents == [parent] && env.id(parent) != "" && forall p | p in paths :: p in c.tree
    requires BindingsAt(env, c) == Some(bindings) && Reduced(env, l)
    ensures AddEvents(env, root, registry, bindings, c, l, paths).Ok? <==>
            exists es :: AllFollow(env, root, registry, bindings, parent, c, l.events, paths, es)
  {
    hide AddEvents, AllFollow, BindingsAt, Reduced;
    if AddEvents(env, root, registry, bindings, c, l, paths).Ok? {
      var es := AddedFollow(env, root, registry, bindings, parent, c, l, paths);
    }
    forall es | AllFollow(env, root, registry, bindings, parent, c, l.events, paths, es)
      ensures AddEvents(env, root, registry, bindings, c, l, paths).Ok?
    {
      FollowedAdd(env, root, registry, bindings, parent, c, l, paths, es);
    }
  }

  lemma FollowSnoc(
    env: Env, root: GenesisRoot, registry: Registry, bindings: Snapshot, parent: Commit, c: Commit,
    before: seq<Event>, paths: seq<string>, es: seq<Event>, e: Event)
    requires paths != [] && AllFollow(env, root, registry, bindings, parent, c, before, paths[..|paths| - 1], es)
    requires Follows(env, root, registry, bindings, parent, c, before + es, paths[|paths| - 1], e)
    ensures AllFollow(env, root, registry, bindings, parent, c, before, paths, es + [e])
  {
    hide Follows;
    var all := es + [e];
    forall i | 0 <= i < |paths|
      ensures Follows(env, root, registry, bindings, parent, c, before + all[..i], paths[i], all[i])
    {
      if i < |es| {
        assert all[..i] == es[..i] && paths[..|paths| - 1][i] == paths[i];
      } else {
        assert all[..i] == es;
      }
    }
  }

  lemma FollowInit(
    env: Env, root: GenesisRoot, registry: Registry, bindings: Snapshot, parent: Commit, c: Commit,
    before: seq<Event>, paths: seq<string>, es: seq<Event>)
    requires paths != [] && AllFollow(env, root, registry, bindings, parent, c, before, paths, es)
    ensures AllFollow(env, root, registry, bindings, parent, c, before, paths[..|paths| - 1], es[..|es| - 1])
    ensures Follows(env, root, registry, bindings, parent, c, before + es[..|es| - 1], paths[|paths| - 1], es[|es| - 1])
  {
    hide Follows;
    var first, init := paths[..|paths| - 1], es[..|es| - 1];
    forall i | 0 <= i < |first|
      ensures Follows(env, root, registry, bindings, parent, c, before + init[..i], first[i], init[i])
    {
      assert init[..i] == es[..i] && first[i] == paths[i] && init[i] == es[i];
    }
  }

  // ------------------------------------------------------------------ commits

  predicate Hexadecimal(s: string) {
    (|s| == 40 || |s| == 64) && forall c | c in s :: '0' <= c <= '9' || 'a' <= c <= 'f' || 'A' <= c <= 'F'
  }

  lemma HexadecimalIff(s: string)
    ensures IsObjectId(s) <==> Hexadecimal(s)
  {
    if Hexadecimal(s) {
      assert forall i | 0 <= i < |s| :: s[i] in s;
    }
  }

  /** What a commit may be on top of a ledger that has these events. */
  ghost predicate MayFollow(env: Env, m: Manifest, parent: Commit, c: Commit) {
    && Hexadecimal(env.id(c)) && OnlyAddsAllowed(parent.tree, c.tree)
    && (c.tree == parent.tree || exists registry, bindings, es ::
          && SchemasInForce(env, c.tree, registry) && BindingsInForce(env, registry, c.tree, bindings)
          && AllFollow(env, m.trust.root, registry, bindings, parent, c, m.ledger.events,
                       SortedPaths(AddedEvents(parent.tree, c.tree)), es))
  }

  /** Nothing beneath the three directories was added exactly when the tree is the parent's. */
  lemma NothingAddedIff(c: Commit)
    requires |c.parents| == 1 && PathsPass(c)
    ensures (ImmutableJsonAdditions(c, SCHEMA_DIR) == Some([]) && ImmutableJsonAdditions(c, BINDING_DIR) == Some([]) &&
             EventAdditions(c) == Some([])) <==> c.tree == c.parents[0].tree
  {
    hide ValidEventPath, ValidVersionedPath, ValidLedgerPath, Under, HasPrefix, HasSuffix;
    CommitOnlyAdds(c);
    if c.tree != c.parents[0].tree {
      var p :| p in c.tree && p !in c.parents[0].tree;
      assert p in Changed(c);
      LedgerPathDirectory(p);
      var dir :| dir in [GENESIS_DIR, LEDGER_POLICY_DIR, SCHEMA_DIR, BINDING_DIR, EVENTS] && Under(p, dir);
      SomethingUnder(c, dir, p);
    } else {
      assert Changed(c) == {};
      NothingSorted({});
      assert ChangedUnder(c, SCHEMA_DIR) == {} && ChangedUnder(c, BINDING_DIR) == {} && ChangedUnder(c, EVENTS) == {};
    }
  }

  lemma SomethingUnder(c: Commit, dir: string, p: string)
    requires p in Changed(c) && Under(p, dir)
    ensures ImmutableJsonAdditions(c, dir) != Some([]) && (dir == EVENTS ==> EventAdditions(c) != Some([]))
  {
    hide Changed, Under, HasPrefix, HasSuffix, SortedPaths;
    assert p in ChangedUnder(c, dir);
    assert p in SortedPaths(ChangedUnder(c, dir));
  }

  /** One commit of the replay loop, for a commit whose paths pass. */
  lemma ReplayCommitIff(env: Env, m: Manifest, parent: Commit, c: Commit)
    requires c.parents == [parent] && PathsPass(c) && c != m.genesis && env.id(parent) != "" && Reduced(env, m.ledger)
    ensures ReplayCommit(env, m.trust.root, m.genesis, m.ledger, c).Ok? <==>
            c.tree == parent.tree || exists registry, bindings, es ::
              && LoadSchemas(env, c.tree) == Some(registry) && LoadBindings(env, registry, c.tree) == Some(bindings)
              && AllFollow(env, m.trust.root, registry, bindings, parent, c, m.ledger.events,
                           SortedPaths(AddedEvents(parent.tree, c.tree)), es)
  {
    hide PathsPass, ImmutableJsonAdditions, EventAdditions, LoadSchemas, LoadBindings, AllFollow, AddEvents, Reduced,
      RootBindingsAgree, AddedEvents, OnlyAddsAllowed;
    NothingAddedIff(c);
    PathsPassIff(c);
    PathsPassParts(c);
    if LoadSchemas(env, c.tree).Some? {
      var registry := LoadSchemas(env, c.tree).value;
      if LoadBindings(env, registry, c.tree).Some? {
        var bindings := LoadBindings(env, registry, c.tree).value;
        var l := m.ledger.(bindingCount := |bindings.byKind|);
        ReducedStart(env, m.ledger, |bindings.byKind|);
        AddEventsIff(env, m.trust.root, registry, bindings, parent, c, l, EventAdditions(c).value);
      }
    }
  }

  lemma PathsPassParts(c: Commit)
    requires PathsPass(c)
    ensures ImmutableJsonAdditions(c, SCHEMA_DIR).Some? && ImmutableJsonAdditions(c, BINDING_DIR).Some?
    ensures EventAdditions(c).Some? && ValidNamespace(c) && LeavesTrust(c)
  {
  }

  lemma ReducedStart(env: Env, l: Ledger, n: nat)
    requires Reduced(env, l)
    ensures Reduced(env, l.(bindingCount := n))
  {
  }

  /** On a ledger that replays, a child replays exactly if it may follow. */
  lemma ReplayChildIff(env: Env, c: Commit)
    requires |c.parents| == 1 && Replay(env, c.parents[0]).Ok?
    ensures Replay(env, c).Ok? <==> MayFollow(env, Replay(env, c.parents[0]).value, c.parents[0], c)
  {
    hide Replay, ReplayCommit, LoadSchemas, LoadBindings, SchemasInForce, BindingsInForce, AllFollow, OnlyAddsAllowed, PathsPass,
      Hexadecimal, IsObjectId, Reduced;
    var parent := c.parents[0];
    var m := Replay(env, parent).value;
    assert c.parents == [parent];
    HexadecimalIff(env.id(c));
    PathsPassIff(c);
    ReplayedIsNamed(env, parent);
    ChildIsNotGenesis(env, c);
    RecordsAreReduced(env, parent);
    forall registry ensures LoadSchemas(env, c.tree) == Some(registry) <==> SchemasInForce(env, c.tree, registry) {
      SchemasLoadIff(env, c.tree, registry);
    }
    forall registry, bindings
      ensures LoadBindings(env, registry, c.tree) == Some(bindings) <==> BindingsInForce(env, registry, c.tree, bindings)
    {
      BindingsLoadIff(env, registry, c.tree, bindings);
    }
    if PathsPass(c) {
      ReplayCommitIff(env, m, parent, c);
      PathsPassParts(c);
      if IsObjectId(env.id(c)) && ReplayCommit(env, m.trust.root, m.genesis, m.ledger, c).Ok? {
        ReplayOfChild(env, c);
      }
    }
    if Replay(env, c).Ok? {
      ReplayOfParent(env, c);
      ReplayedPathsPass(env, m.trust.root, m.genesis, m.ledger, c);
    }
  }

  lemma ReplayedPathsPass(env: Env, root: GenesisRoot, first: Commit, l: Ledger, c: Commit)
    requires ReplayCommit(env, root, first, l, c).Ok? && ValidNamespace(c) && LeavesTrust(c)
    ensures PathsPass(c)
  {
    hide ReplayCommit, ValidNamespace, LeavesTrust;
    ReplayedCommitIsAppendOnly(env, root, first, l, c);
  }

  lemma ReplayedIsNamed(env: Env, c: Commit)
    requires Replay(env, c).Ok?
    ensures env.id(c) != ""
  {
    hide Replay, ValidNamespace, LeavesTrust, ReadTrust;
    ReplayParts(env, c);
    assert Chain(c)[|Chain(c)| - 1] == c;
  }

  lemma ChildIsNotGenesis(env: Env, c: Commit)
    requires |c.parents| == 1 && Replay(env, c.parents[0]).Ok?
    ensures c != Replay(env, c.parents[0]).value.genesis
  {
    hide Replay;
    ReplayParts(env, c.parents[0]);
    ChainLinks(c.parents[0]);
  }

  // ----------------------------------------------------------------- founding

  /** Every text once, in order. */
  predicate StrictlySorted(values: seq<string>) {
    && "" !in values
    && forall i, j | 0 <= i < j < |values| :: values[i] != values[j] && Leq(values[i], values[j])
  }

  lemma {:induction false} SortedPairs(values: seq<string>, i: nat, j: nat)
    requires SortedUnique(values) && i < j < |values|
    ensures Lt(values[i], values[j])
    decreases j
  {
    if i < j - 1 {
      SortedPairs(values, i, j - 1);
      LtTransitive(values[i], values[j - 1], values[j]);
    }
  }

  lemma StrictlySortedIff(values: seq<string>)
    ensures SortedUnique(values) <==> StrictlySorted(values)
  {
    hide Leq;
    if SortedUnique(values) {
      forall i, j | 0 <= i < j < |values| ensures values[i] != values[j] && Leq(values[i], values[j]) {
        SortedPairs(values, i, j);
      }
    }
    if StrictlySorted(values) {
      forall i | 0 <= i < |values| ensures values[i] != "" {
        assert values[i] in values;
      }
    }
  }

  lemma FirstIsLeast(values: seq<string>, s: set<string>)
    requires StrictlySorted(values) && values != [] && forall x :: x in values <==> x in s
    ensures s != {} && Least(s) == values[0]
  {
    hide Leq;
    LeqReflexive(values[0]);
    assert values[0] in s;
    LeastIsUnique(s);
    forall x | x in s ensures Leq(values[0], x) {
      var i :| 0 <= i < |values| && values[i] == x;
    }
  }

  lemma RestListsRest(values: seq<string>, s: set<string>)
    requires StrictlySorted(values) && values != [] && forall x :: x in values <==> x in s
    ensures forall x :: x in values[1..] <==> x in s - {values[0]}
  {
    hide Leq;
    var rest := values[1..];
    forall x ensures x in rest <==> x in s - {values[0]} {
      if x in rest {
        var i :| 0 <= i < |rest| && rest[i] == x;
        assert values[i + 1] == x && values[0] != values[i + 1];
      }
      if x in s - {values[0]} {
        var i :| 0 <= i < |values| && values[i] == x;
        assert rest[i - 1] == x;
      }
    }
  }

  /** A sorted list is the listing of its elements. */
  lemma {:induction false} ListingOf(values: seq<string>, s: set<string>)
    requires StrictlySorted(values)
    ensures values == SortedPaths(s) <==> forall x :: x in values <==> x in s
    decreases |values|
  {
    hide Leq;
    if forall x :: x in values <==> x in s {
      if values == [] {
        assert s == {};
      } else {
        FirstIsLeast(values, s);
        RestListsRest(values, s);
        RestIsSorted(values);
        ListingOf(values[1..], s - {values[0]});
        assert values == [values[0]] + values[1..];
      }
    }
  }

  lemma LeqReflexive(a: string)
    ensures Leq(a, a)
  {
    LeqTotal(a, a);
  }

  lemma RestIsSorted(values: seq<string>)
    requires values != [] && StrictlySorted(values)
    ensures StrictlySorted(values[1..])
  {
    hide Leq;
    var rest := values[1..];
    forall x | x in rest ensures x != "" {
      assert x in values;
    }
    forall i, j | 0 <= i < j < |rest| ensures rest[i] != rest[j] && Leq(rest[i], rest[j]) {
      assert rest[i] == values[i + 1] && rest[j] == values[j + 1];
    }
  }

  /** The Genesis document: canonical, digested, complete, its lists in order. */
  predicate GenesisDocument(env: Env, raw: Raw, root: GenesisRoot) {
    && env.strictValid(raw) && env.canon(raw) == Some(raw) && env.digestOk(raw) && env.decodeGenesis(raw) == Some(root)
    && root.ledgerId != "" && root.initialPolicy != "" && root.initialAuthorities != []
    && StrictlySorted(root.initialSchemas) && StrictlySorted(root.initialAuthorities)
  }

  lemma GenesisIff(env: Env, raw: Raw, root: GenesisRoot)
    ensures ParseGenesis(env, raw) == Some(root) <==> GenesisDocument(env, raw, root)
  {
    hide SortedUnique, StrictlySorted;
    StrictlySortedIff(root.initialSchemas);
    StrictlySortedIff(root.initialAuthorities);
  }

  /** A policy document of this ledger under this version. */
  predicate PolicyDocument(env: Env, raw: Raw, ledgerId: string, version: string, doc: PolicyDoc) {
    && env.strictValid(raw) && env.canon(raw) == Some(raw) && env.digestOk(raw) && env.decodePolicy(raw) == Some(doc)
    && PolicyRules(doc, env.ed25519) && doc.ledgerId == ledgerId && doc.version == version
  }

  lemma PolicyIff(env: Env, raw: Raw, ledgerId: string, version: string, doc: PolicyDoc)
    requires ledgerId != "" && version != ""
    ensures ParsePolicyFor(env, raw, ledgerId, version) == Some(doc) <==> PolicyDocument(env, raw, ledgerId, version, doc)
  {
    hide ValidPolicy, PolicyRules;
    PolicyRulesIff(doc, env.ed25519);
  }

  /** The schema files of the first tree, each an ordinary file, are exactly the declared ones. */
  ghost predicate Declared(env: Env, tree: Tree, declared: seq<string>) {
    var files := Files(tree, SCHEMA_DIR);
    var raws := Contents(tree, SortedPaths(files));
    && (forall p | p in files :: tree[p].mode == Plain)
    && (forall i | 0 <= i < |raws| :: env.schemaId(raws[i]).Some?)
    && (forall i, j | 0 <= i < j < |raws| :: env.schemaId(raws[i]) != env.schemaId(raws[j]))
    && (forall id :: id in declared <==> SomeSchema(env, raws, id))
  }

  lemma {:induction false} SetSize(s: seq<string>)
    ensures |set x | x in s| <= |s|
    ensures |set x | x in s| == |s| <==> forall i, j | 0 <= i < j < |s| :: s[i] != s[j]
  {
    var all := set x | x in s;
    if s != [] {
      var n := |s| - 1;
      SetSize(s[..n]);
      var before := set x | x in s[..n];
      assert forall i | 0 <= i < n :: s[i] == s[..n][i];
      assert s == s[..n] + [s[n]];
      assert all == before + {s[n]};
      if s[n] in before {
        assert all == before;
        var i :| 0 <= i < n && s[..n][i] == s[n];
      } else {
        assert forall i | 0 <= i < n :: s[..n][i] in before;
      }
    }
  }

  lemma IdsOf(env: Env, raws: seq<Raw>) returns (ids: seq<string>)
    requires forall raw | raw in raws :: env.schemaId(raw).Some?
    ensures |ids| == |raws| && forall i | 0 <= i < |raws| :: env.schemaId(raws[i]) == Some(ids[i])
    ensures (set x | x in ids) == set raw | raw in raws && env.schemaId(raw).Some? :: env.schemaId(raw).value
  {
    ids := seq(|raws|, i requires 0 <= i < |raws| => if env.schemaId(raws[i]).Some? then env.schemaId(raws[i]).value else "");
    assert forall i | 0 <= i < |raws| :: raws[i] in raws;
    var all := set raw | raw in raws && env.schemaId(raw).Some? :: env.schemaId(raw).value;
    forall x ensures x in (set y | y in ids) <==> x in all {
      if x in ids {
        var i :| 0 <= i < |ids| && ids[i] == x;
        assert raws[i] in raws && env.schemaId(raws[i]).value == x;
      }
      if x in all {
        var raw :| raw in raws && env.schemaId(raw) == Some(x);
        var i :| 0 <= i < |raws| && raws[i] == raw;
        assert ids[i] == x;
      }
    }
  }

  lemma DeclaredIff(env: Env, tree: Tree, declared: seq<string>)
    requires StrictlySorted(declared)
    ensures DeclaresSchemas(env, tree, declared) <==> Declared(env, tree, declared)
  {
    hide JsonFiles, Files, SortedPaths, StrictlySorted, Leq;
    ListingIff(tree, SCHEMA_DIR);
    if JsonFiles(tree, SCHEMA_DIR).Some? {
      DeclaredList(env, JsonFiles(tree, SCHEMA_DIR).value, declared);
    }
  }

  lemma DeclaredList(env: Env, raws: seq<Raw>, declared: seq<string>)
    requires StrictlySorted(declared)
    ensures (&& (forall raw | raw in raws :: env.schemaId(raw).Some?)
             && (var ids := set raw | raw in raws && env.schemaId(raw).Some? :: env.schemaId(raw).value;
                 |ids| == |raws| && SortedPaths(ids) == declared))
            <==>
            && (forall i | 0 <= i < |raws| :: env.schemaId(raws[i]).Some?)
            && (forall i, j | 0 <= i < j < |raws| :: env.schemaId(raws[i]) != env.schemaId(raws[j]))
            && (forall id :: id in declared <==> SomeSchema(env, raws, id))
  {
    hide SortedPaths, StrictlySorted, Leq;
    if forall raw | raw in raws :: env.schemaId(raw).Some? {
      assert forall i | 0 <= i < |raws| :: raws[i] in raws;
      var ids := IdsOf(env, raws);
      SetSize(ids);
      var all := set x | x in ids;
      ListingOf(declared, all);
      forall id ensures id in all <==> SomeSchema(env, raws, id) {
        if id in all {
          var i :| 0 <= i < |ids| && ids[i] == id;
        }
        if SomeSchema(env, raws, id) {
          var i :| 0 <= i < |raws| && env.schemaId(raws[i]) == Some(id);
          assert ids[i] == id;
        }
      }
    }
  }

  /** What a first commit may be. */
  ghost predicate MayFound(env: Env, c: Commit) {
    && Hexadecimal(env.id(c))
    && (forall p | p in c.tree :: Allowed(p) && !Beneath(p, "events"))
    && GENESIS_PATH in c.tree && c.tree[GENESIS_PATH].mode == Plain
    && LEDGER_POLICY_PATH in c.tree && c.tree[LEDGER_POLICY_PATH].mode == Plain
    && exists root, policy :: Founds(env, c.tree, root, policy)
  }

  ghost predicate Founds(env: Env, tree: Tree, root: GenesisRoot, policy: PolicyDoc)
    requires GENESIS_PATH in tree && LEDGER_POLICY_PATH in tree
  {
    && Trusts(env, tree, root, policy)
    && ((forall p | p in tree :: p == GENESIS_PATH || p == LEDGER_POLICY_PATH) || exists registry, bindings ::
          && SchemasInForce(env, tree, registry) && BindingsInForce(env, registry, tree, bindings)
          && forall id | id in bindings.byId :: bindings.byId[id].policyVersion == root.initialPolicy)
  }

  lemma RootReplayIff(env: Env, c: Commit)
    requires c.parents == []
    ensures Replay(env, c).Ok? <==>
            && IsObjectId(env.id(c)) && ValidNamespace(c) && ReadTrust(env, c).Ok?
            && ReplayCommit(env, ReadTrust(env, c).value.root, c, Ledger([], map[], 0), c).Ok?
  {
    hide IsObjectId, ValidNamespace, ReadTrust, ReplayCommit, LeavesTrust;
    assert Chain(c) == [c] && [c][..0] == [];
    if ReadTrust(env, c).Ok? {
      var root := ReadTrust(env, c).value.root;
      assert ReplayHistory(env, root, c, []) == Ok(Ledger([], map[], 0));
      assert ReplayHistory(env, root, c, [c]) == ReplayCommit(env, root, c, Ledger([], map[], 0), c);
    }
  }

  lemma RootChangesAll(c: Commit)
    requires c.parents == []
    ensures Changed(c) == c.tree.Keys && forall p | p in c.tree :: Added(c, p)
  {
  }

  lemma TrustWhere()
    ensures Under(GENESIS_PATH, GENESIS_DIR) && Under(LEDGER_POLICY_PATH, LEDGER_POLICY_DIR) && GENESIS_PATH != LEDGER_POLICY_PATH
    ensures HasPrefix(GENESIS_PATH, GENESIS_DIR + "/") && HasSuffix(GENESIS_PATH, ".json")
    ensures HasPrefix(LEDGER_POLICY_PATH, LEDGER_POLICY_DIR + "/") && HasSuffix(LEDGER_POLICY_PATH, ".json")
    ensures !Under(GENESIS_PATH, LEDGER_POLICY_DIR) && !Under(LEDGER_POLICY_PATH, GENESIS_DIR)
    ensures forall dir | dir in [SCHEMA_DIR, BINDING_DIR, EVENTS] :: !Under(GENESIS_PATH, dir) && !Under(LEDGER_POLICY_PATH, dir)
  {
    hide Under, HasPrefix, HasSuffix;
    GenesisLedger.DirectoriesApart();
    GenesisLedger.InItsDirectory();
  }

  /** Where each path of a first commit lies. */
  lemma RootWhere(c: Commit, p: string)
    requires c.parents == [] && p in c.tree && Allowed(p)
    ensures Under(p, GENESIS_DIR) <==> p == GENESIS_PATH
    ensures Under(p, LEDGER_POLICY_DIR) <==> p == LEDGER_POLICY_PATH
    ensures forall dir | dir in [SCHEMA_DIR, BINDING_DIR, EVENTS] && Under(p, dir) ::
              HasPrefix(p, dir + "/") && HasSuffix(p, ".json")
    ensures Under(p, EVENTS) <==> Beneath(p, "events")
    ensures p == GENESIS_PATH || p == LEDGER_POLICY_PATH || Under(p, SCHEMA_DIR) || Under(p, BINDING_DIR) || Under(p, EVENTS)
    ensures (p == GENESIS_PATH || p == LEDGER_POLICY_PATH) ==>
              !Under(p, SCHEMA_DIR) && !Under(p, BINDING_DIR) && !Under(p, EVENTS)
  {
    hide Allowed, Under, HasPrefix, HasSuffix, Beneath, ValidLedgerPath;
    TrustWhere();
    EventsBeneath(p);
    DirectoryNames();
    if p != GENESIS_PATH && p != LEDGER_POLICY_PATH {
      AllowedWhere(p);
      AllowedIff(p);
      LedgerPathDirectory(p);
    }
  }

  lemma DirectoryNames()
    ensures SCHEMA_DIR in [SCHEMA_DIR, BINDING_DIR, EVENTS] && BINDING_DIR in [SCHEMA_DIR, BINDING_DIR, EVENTS]
    ensures EVENTS in [SCHEMA_DIR, BINDING_DIR, EVENTS]
  {
    var dirs := [SCHEMA_DIR, BINDING_DIR, EVENTS];
    assert dirs[1] == BINDING_DIR && dirs[2] == EVENTS;
  }

  lemma EventsBeneath(p: string)
    ensures p == GENESIS_PATH || p == LEDGER_POLICY_PATH ==> !Beneath(p, "events")
  {
    assert GENESIS_PATH[0] == 'c' && LEDGER_POLICY_PATH[0] == 'c' && "events"[0] == 'e';
    BeneathStarts(p, "events");
  }

  lemma OneUnder(c: Commit, dir: string, p: string)
    requires c.parents == [] && forall q | q in c.tree :: Under(q, dir) <==> q == p
    requires HasPrefix(p, dir + "/") && HasSuffix(p, ".json")
    ensures ImmutableJsonAdditions(c, dir) == Some(if p in c.tree then [p] else [])
  {
    hide Under, HasPrefix, HasSuffix, Changed, Added;
    RootChangesAll(c);
    SortedSingleton(p);
    assert ChangedUnder(c, dir) == if p in c.tree then {p} else {};
  }

  lemma JsonUnder(c: Commit, dir: string)
    requires c.parents == [] && forall q | q in c.tree && Under(q, dir) :: HasPrefix(q, dir + "/") && HasSuffix(q, ".json")
    ensures ImmutableJsonAdditions(c, dir).Some?
  {
    hide Under, HasPrefix, HasSuffix, Changed, Added;
    RootChangesAll(c);
  }

  lemma NoEventsIff(c: Commit)
    requires c.parents == [] && forall p | p in c.tree :: Under(p, EVENTS) <==> Beneath(p, "events")
    ensures EventAdditions(c) == Some([]) <==> forall p | p in c.tree :: !Beneath(p, "events")
  {
    hide Under, HasPrefix, HasSuffix, Beneath, Changed, Added, SortedPaths;
    NothingSorted(ChangedUnder(c, EVENTS));
    NoEventsUnder(c);
  }

  lemma RootAdditions(c: Commit)
    requires c.parents == [] && forall p | p in c.tree :: Allowed(p)
    ensures ImmutableJsonAdditions(c, GENESIS_DIR) == Some(if GENESIS_PATH in c.tree then [GENESIS_PATH] else [])
    ensures ImmutableJsonAdditions(c, LEDGER_POLICY_DIR)
         == Some(if LEDGER_POLICY_PATH in c.tree then [LEDGER_POLICY_PATH] else [])
    ensures ImmutableJsonAdditions(c, SCHEMA_DIR).Some? && ImmutableJsonAdditions(c, BINDING_DIR).Some?
    ensures EventAdditions(c) == Some([]) <==> forall p | p in c.tree :: !Beneath(p, "events")
  {
    hide Allowed, Under, HasPrefix, HasSuffix, Beneath, ImmutableJsonAdditions, EventAdditions;
    TrustWhere();
    DirectoryNames();
    forall p | p in c.tree
      ensures Under(p, GENESIS_DIR) <==> p == GENESIS_PATH
      ensures Under(p, LEDGER_POLICY_DIR) <==> p == LEDGER_POLICY_PATH
      ensures forall dir | dir in [SCHEMA_DIR, BINDING_DIR, EVENTS] && Under(p, dir) ::
                HasPrefix(p, dir + "/") && HasSuffix(p, ".json")
      ensures Under(p, EVENTS) <==> Beneath(p, "events")
    {
      RootWhere(c, p);
    }
    OneUnder(c, GENESIS_DIR, GENESIS_PATH);
    OneUnder(c, LEDGER_POLICY_DIR, LEDGER_POLICY_PATH);
    JsonUnder(c, SCHEMA_DIR);
    JsonUnder(c, BINDING_DIR);
    NoEventsIff(c);
  }

  lemma NoEventsUnder(c: Commit)
    requires c.parents == [] && forall p | p in c.tree :: Under(p, EVENTS) <==> Beneath(p, "events")
    ensures ChangedUnder(c, EVENTS) == {} <==> forall p | p in c.tree :: !Beneath(p, "events")
  {
    hide Under, Beneath, Changed;
    RootChangesAll(c);
    if p :| p in c.tree && Beneath(p, "events") {
      assert p in ChangedUnder(c, EVENTS);
    }
  }

  lemma OnlyTrustIff(c: Commit)
    requires c.parents == [] && (forall p | p in c.tree :: Allowed(p)) && EventAdditions(c) == Some([])
    ensures (ImmutableJsonAdditions(c, SCHEMA_DIR) == Some([]) && ImmutableJsonAdditions(c, BINDING_DIR) == Some([]))
            <==> forall p | p in c.tree :: p == GENESIS_PATH || p == LEDGER_POLICY_PATH
  {
    hide Allowed, Under, HasPrefix, HasSuffix, Beneath, Changed, Added, ImmutableJsonAdditions, EventAdditions;
    RootChangesAll(c);
    if p :| p in c.tree && p != GENESIS_PATH && p != LEDGER_POLICY_PATH {
      RootWhere(c, p);
      var dir := if Under(p, SCHEMA_DIR) then SCHEMA_DIR else if Under(p, BINDING_DIR) then BINDING_DIR else EVENTS;
      SomethingUnder(c, dir, p);
    } else {
      forall p | p in c.tree ensures !Under(p, SCHEMA_DIR) && !Under(p, BINDING_DIR) {
        RootWhere(c, p);
      }
      GenesisLedger.NoAddition(c, SCHEMA_DIR);
      GenesisLedger.NoAddition(c, BINDING_DIR);
    }
  }

  /** The trust root of a first commit whose paths are allowed. */
  lemma ReadTrustIff(env: Env, c: Commit)
    requires c.parents == [] && (forall p | p in c.tree :: Allowed(p)) && EventAdditions(c) == Some([])
    ensures ReadTrust(env, c).Ok? <==>
            && GENESIS_PATH in c.tree && c.tree[GENESIS_PATH].mode == Plain
            && LEDGER_POLICY_PATH in c.tree && c.tree[LEDGER_POLICY_PATH].mode == Plain
            && exists root, policy :: Trusts(env, c.tree, root, policy)
    ensures ReadTrust(env, c).Ok? ==> Trusts(env, c.tree, ReadTrust(env, c).value.root, ReadTrust(env, c).value.policy)
    ensures GENESIS_PATH in c.tree && LEDGER_POLICY_PATH in c.tree ==>
              forall root, policy | Trusts(env, c.tree, root, policy) && ReadTrust(env, c).Ok? ::
                ReadTrust(env, c).value.root == root
  {
    hide Allowed, ParseGenesis, ParsePolicyFor, DeclaresSchemas, ImmutableJsonAdditions, EventAdditions, GrantedActors,
      GenesisDocument, PolicyDocument, Declared, StrictlySorted, SortedPaths;
    RootAdditions(c);
    if GENESIS_PATH in c.tree && LEDGER_POLICY_PATH in c.tree {
      TrustDocuments(env, c.tree);
      if ReadTrust(env, c).Ok? {
        assert TrustRead(env, c.tree, ReadTrust(env, c).value.root, ReadTrust(env, c).value.policy);
      }
    }
  }

  /** As replay reads it. */
  ghost predicate TrustRead(env: Env, tree: Tree, root: GenesisRoot, policy: PolicyDoc)
    requires GENESIS_PATH in tree && LEDGER_POLICY_PATH in tree
  {
    && ParseGenesis(env, tree[GENESIS_PATH].bytes) == Some(root) && DeclaresSchemas(env, tree, root.initialSchemas)
    && ParsePolicyFor(env, tree[LEDGER_POLICY_PATH].bytes, root.ledgerId, root.initialPolicy) == Some(policy)
    && root.initialAuthorities == SortedPaths(GrantedActors(policy))
  }

  ghost predicate Trusts(env: Env, tree: Tree, root: GenesisRoot, policy: PolicyDoc)
    requires GENESIS_PATH in tree && LEDGER_POLICY_PATH in tree
  {
    && GenesisDocument(env, tree[GENESIS_PATH].bytes, root) && Declared(env, tree, root.initialSchemas)
    && PolicyDocument(env, tree[LEDGER_POLICY_PATH].bytes, root.ledgerId, root.initialPolicy, policy)
    && (forall actor :: actor in root.initialAuthorities <==> exists g :: g in policy.grants && g.actor == actor)
  }

  lemma TrustDocuments(env: Env, tree: Tree)
    requires GENESIS_PATH in tree && LEDGER_POLICY_PATH in tree
    ensures forall root, policy :: Trusts(env, tree, root, policy) <==> TrustRead(env, tree, root, policy)
  {
    hide ParseGenesis, ParsePolicyFor, DeclaresSchemas, GenesisDocument, PolicyDocument, Declared, SortedPaths, StrictlySorted;
    forall root, policy ensures Trusts(env, tree, root, policy) <==> TrustRead(env, tree, root, policy) {
      GenesisIff(env, tree[GENESIS_PATH].bytes, root);
      if GenesisDocument(env, tree[GENESIS_PATH].bytes, root) {
        GenesisParts(env, tree[GENESIS_PATH].bytes, root);
        DeclaredIff(env, tree, root.initialSchemas);
        PolicyIff(env, tree[LEDGER_POLICY_PATH].bytes, root.ledgerId, root.initialPolicy, policy);
        ListingOf(root.initialAuthorities, GrantedActors(policy));
      }
    }
  }

  lemma GenesisParts(env: Env, raw: Raw, root: GenesisRoot)
    requires GenesisDocument(env, raw, root)
    ensures root.ledgerId != "" && root.initialPolicy != "" && StrictlySorted(root.initialSchemas)
    ensures StrictlySorted(root.initialAuthorities)
  {
  }

  lemma RootCommitIff(env: Env, root: GenesisRoot, c: Commit)
    requires c.parents == [] && (forall p | p in c.tree :: Allowed(p)) && EventAdditions(c) == Some([])
    ensures ReplayCommit(env, root, c, Ledger([], map[], 0), c).Ok? <==>
            || (forall p | p in c.tree :: p == GENESIS_PATH || p == LEDGER_POLICY_PATH)
            || exists registry, bindings ::
                 && LoadSchemas(env, c.tree) == Some(registry) && LoadBindings(env, registry, c.tree) == Some(bindings)
                 && RootBindingsAgree(bindings, root)
  {
    hide Allowed, ImmutableJsonAdditions, EventAdditions, LoadSchemas, LoadBindings, RootBindingsAgree;
    RootAdditions(c);
    OnlyTrustIff(c);
  }

  /** A commit without a parent replays exactly if it may found a ledger. */
  lemma FoundingIff(env: Env, c: Commit)
    requires c.parents == []
    ensures Replay(env, c).Ok? <==> MayFound(env, c)
  {
    hide Replay, ReplayCommit, ReadTrust, IsObjectId, Hexadecimal, Allowed, Beneath, Trusts, LoadSchemas, LoadBindings,
      EventAdditions, Founds;
    HexadecimalIff(env.id(c));
    RootReplayIff(env, c);
    RootNamespaceIff(c);
    if forall p | p in c.tree :: Allowed(p) {
      RootAdditions(c);
      if EventAdditions(c) == Some([]) {
        ReadTrustIff(env, c);
        if ReadTrust(env, c).Ok? {
          FoundedIff(env, c, ReadTrust(env, c).value.root);
        }
        if GENESIS_PATH in c.tree && LEDGER_POLICY_PATH in c.tree {
          FoundsTrust(env, c.tree);
        }
      } else {
        NoTrustWithEvents(env, c);
      }
    }
  }

  lemma FoundsTrust(env: Env, tree: Tree)
    requires GENESIS_PATH in tree && LEDGER_POLICY_PATH in tree
    ensures forall root, policy | Founds(env, tree, root, policy) :: Trusts(env, tree, root, policy)
  {
    hide GenesisDocument, PolicyDocument, Declared, SchemasInForce, BindingsInForce;
  }

  lemma NoTrustWithEvents(env: Env, c: Commit)
    requires EventAdditions(c) != Some([])
    ensures ReadTrust(env, c).Err?
  {
  }

  lemma RootNamespaceIff(c: Commit)
    requires c.parents == []
    ensures ValidNamespace(c) <==> forall p | p in c.tree :: Allowed(p)
  {
    hide ValidLedgerPath, Allowed;
    RootChangesAll(c);
    forall p ensures ValidLedgerPath(p) <==> Allowed(p) {
      AllowedIff(p);
    }
  }

  lemma FoundedIff(env: Env, c: Commit, root: GenesisRoot)
    requires c.parents == [] && (forall p | p in c.tree :: Allowed(p)) && EventAdditions(c) == Some([])
    requires GENESIS_PATH in c.tree && LEDGER_POLICY_PATH in c.tree
    ensures forall policy | Trusts(env, c.tree, root, policy) ::
              ReplayCommit(env, root, c, Ledger([], map[], 0), c).Ok? <==> Founds(env, c.tree, root, policy)
  {
    hide Allowed, EventAdditions, LoadSchemas, LoadBindings, SchemasInForce, BindingsInForce, GenesisDocument, PolicyDocument,
      Declared, ReplayCommit;
    RootCommitIff(env, root, c);
    forall registry ensures LoadSchemas(env, c.tree) == Some(registry) <==> SchemasInForce(env, c.tree, registry) {
      SchemasLoadIff(env, c.tree, registry);
    }
    forall registry, bindings
      ensures LoadBindings(env, registry, c.tree) == Some(bindings) <==> BindingsInForce(env, registry, c.tree, bindings)
    {
      BindingsLoadIff(env, registry, c.tree, bindings);
    }
  }

  // ------------------------------------------------------------------ refusals

  /** Why a record event is not judged, in the order the rules are looked at. */
  lemma JudgementErrors(env: Env, root: GenesisRoot, records: Projection, bindings: Snapshot, parent: string, doc: EventDoc)
    ensures var r, bound := ApplyGoverned(env, records, bindings, root, parent, doc), doc.recordKind in bindings.byKind;
            && (r == Err(PolicyUnbound) <==> !bound)
            && (bound ==>
                  var b := bindings.byKind[doc.recordKind];
                  && (r == Err(EventSchemaMismatch) <==> doc.schemaVersion != b.eventSchema)
                  && (r == Err(AuthorityPolicyMismatch) <==> doc.schemaVersion == b.eventSchema && doc.policyVersion != b.policyVersion)
                  && (doc.schemaVersion == b.eventSchema && doc.policyVersion == b.policyVersion ==>
                        && (r == Err(ExpectedCommitMismatch) <==> parent == "" || doc.expectedLedgerCommit != parent)
                        && (r == Err(PolicyDocumentInvalid) ==>
                              doc.recordKind == POLICY_RECORD_KIND &&
                              ParsePolicyFor(env, doc.value, root.ledgerId, doc.policyVersion).None?)
                        && (r == Err(ReducerRefused) ==>
                              Reducer.Apply(env, records, ReducerBindings(bindings), ReducerEvent(doc)).Err?)))
            && (r.Err? ==>
                  r.error == PolicyUnbound || r.error == EventSchemaMismatch || r.error == AuthorityPolicyMismatch ||
                  r.error == ExpectedCommitMismatch || r.error == PolicyDocumentInvalid || r.error == ReducerRefused)
  {
    hide Reducer.Apply, ParsePolicyFor;
  }

  /** The refusals that are about events. */
  predicate AboutEvents(e: Error) {
    || e == EventInvalid || e == DuplicateEventId || e == DuplicateIdempotencyKey || e == PolicyUnbound || e == EventSchemaMismatch
    || e == AuthorityPolicyMismatch || e == ExpectedCommitMismatch || e == PolicyDocumentInvalid || e == ReducerRefused
  }

  /** Why an event file is refused: it stores no event, or one whose id, or else whose key, is taken. */
  lemma EventErrors(
    env: Env, root: GenesisRoot, registry: Registry, bindings: Snapshot, c: Commit, l: Ledger, path: string)
    requires path in c.tree
    ensures var r := AddEvent(env, root, registry, bindings, c, l, path);
            && (r == Err(EventInvalid) <==> !exists e :: Stores(env, registry, c, path, e))
            && (r == Err(DuplicateEventId) <==>
                  exists e :: Stores(env, registry, c, path, e) && exists i :: 0 <= i < |l.events| && l.events[i].doc.eventId == e.doc.eventId)
            && (r == Err(DuplicateIdempotencyKey) <==>
                  exists e :: Stores(env, registry, c, path, e) && e.doc.idempotencyKey != "" &&
                    (forall i | 0 <= i < |l.events| :: l.events[i].doc.eventId != e.doc.eventId) &&
                    exists i :: 0 <= i < |l.events| && l.events[i].doc.idempotencyKey == e.doc.idempotencyKey)
  {
    hide Stores, ValidateEvent, ApplyGoverned, IsRecordEvent, HasEventId, HasKey;
    var found := ValidateEvent(env, registry, c, path);
    forall e ensures Stores(env, registry, c, path, e) <==> found == Some(e) {
      StoresIff(env, registry, c, path, e);
    }
    if found.Some? {
      var e := found.value;
      TakenIff(l.events, e.doc.eventId, e.doc.idempotencyKey);
      if IsRecordEvent(e.doc) {
        JudgementErrors(env, root, l.records, bindings, ParentId(env, c), e.doc);
      }
    }
  }

  lemma TakenIff(events: seq<Event>, eventId: string, key: string)
    ensures HasEventId(events, eventId) <==> exists i :: 0 <= i < |events| && events[i].doc.eventId == eventId
    ensures HasKey(events, key) <==> exists i :: 0 <= i < |events| && events[i].doc.idempotencyKey == key
  {
    assert forall i | 0 <= i < |events| :: events[i] in events;
  }

  /** Why a child of a replayed head is refused before its snapshot and events are looked at. */
  lemma ChildErrors(env: Env, c: Commit)
    requires |c.parents| == 1 && Replay(env, c.parents[0]).Ok?
    ensures Replay(env, c) == Err(NonLinearHistory) <==> !Hexadecimal(env.id(c))
    ensures Hexadecimal(env.id(c)) ==>
              (Replay(env, c) == Err(NamespaceInvalid) <==> exists p :: p in Changed(c) && !Allowed(p))
    ensures Hexadecimal(env.id(c)) && (forall p | p in Changed(c) :: Allowed(p)) ==>
              (Replay(env, c) == Err(GenesisImmutable) <==> GENESIS_PATH in Changed(c) || LEDGER_POLICY_PATH in Changed(c))
    ensures Hexadecimal(env.id(c)) && (forall p | p in Changed(c) :: Allowed(p)) &&
            GENESIS_PATH !in Changed(c) && LEDGER_POLICY_PATH !in Changed(c) ==>
              (Replay(env, c) == Err(ImmutableTree) <==> !OnlyAddsAllowed(c.parents[0].tree, c.tree))
  {
    hide Replay, ReplayCommit, Allowed, Hexadecimal, IsObjectId, LeavesTrust, ValidNamespace, OnlyAddsAllowed, Changed;
    HexadecimalIff(env.id(c));
    ChildReplayIs(env, c);
    ChildNamespaceIff(c);
    ImmutableTreeIff(env, c);
    if forall p | p in Changed(c) :: Allowed(p) {
      LeavesTrustIff(c);
    }
  }

  lemma ChildNamespaceIff(c: Commit)
    ensures ValidNamespace(c) <==> forall p | p in Changed(c) :: Allowed(p)
  {
    hide Allowed, ValidLedgerPath, Changed;
    forall p ensures ValidLedgerPath(p) <==> Allowed(p) {
      AllowedIff(p);
    }
  }

  lemma LeavesTrustIff(c: Commit)
    requires forall p | p in Changed(c) :: Allowed(p)
    ensures LeavesTrust(c) <==> GENESIS_PATH !in Changed(c) && LEDGER_POLICY_PATH !in Changed(c)
  {
    hide Allowed, Changed, Under, ImmutableJsonAdditions;
    TrustWhere();
    if LeavesTrust(c) {
      NothingUnder(c, GENESIS_DIR, GENESIS_PATH);
      NothingUnder(c, LEDGER_POLICY_DIR, LEDGER_POLICY_PATH);
    }
    if GENESIS_PATH !in Changed(c) && LEDGER_POLICY_PATH !in Changed(c) {
      forall p | p in Changed(c) ensures !Under(p, GENESIS_DIR) && !Under(p, LEDGER_POLICY_DIR) {
        AllowedWhere(p);
      }
      GenesisLedger.NoAddition(c, GENESIS_DIR);
      GenesisLedger.NoAddition(c, LEDGER_POLICY_DIR);
    }
  }

  /** Replay of a child, check by check. */
  lemma ChildReplayIs(env: Env, c: Commit)
    requires |c.parents| == 1 && Replay(env, c.parents[0]).Ok?
    ensures var m := Replay(env, c.parents[0]).value;
            Replay(env, c) ==
            if !IsObjectId(env.id(c)) then Err(NonLinearHistory)
            else if !ValidNamespace(c) then Err(NamespaceInvalid)
            else if !LeavesTrust(c) then Err(GenesisImmutable)
            else
              match ReplayCommit(env, m.trust.root, m.genesis, m.ledger, c)
              case Err(e) => Err(e)
              case Ok(ledger) => Ok(Manifest(c, m.genesis, m.trust, ledger))
  {
    hide IsObjectId, ValidNamespace, LeavesTrust, ReadTrust, ReplayCommit;
    var p := c.parents[0];
    ReplayParts(env, p);
    var h, h0 := Chain(c), Chain(p);
    assert h == h0 + [c] && h[..|h| - 1] == h0 && h[|h| - 1] == c;
    assert forall i | 0 <= i < |h0| :: h[i] == h0[i];
  }

  lemma ImmutableTreeIff(env: Env, c: Commit)
    requires |c.parents| == 1 && Replay(env, c.parents[0]).Ok?
    ensures var m := Replay(env, c.parents[0]).value;
            var r := ReplayCommit(env, m.trust.root, m.genesis, m.ledger, c);
            && (ValidNamespace(c) && LeavesTrust(c) ==>
                  (r == Err(ImmutableTree) <==> !OnlyAddsAllowed(c.parents[0].tree, c.tree)))
            && (r.Err? ==> r.error != NonLinearHistory && r.error != NamespaceInvalid && r.error != GenesisImmutable)
  {
    hide Replay, ValidNamespace, LeavesTrust, OnlyAddsAllowed, ReplayCommit;
    PathsPassIff(c);
    var m := Replay(env, c.parents[0]).value;
    CommitErrors(env, m.trust.root, m.genesis, m.ledger, c);
  }

  lemma CommitErrors(env: Env, root: GenesisRoot, first: Commit, l: Ledger, c: Commit)
    ensures var r := ReplayCommit(env, root, first, l, c);
            && (r == Err(ImmutableTree) <==>
                  ImmutableJsonAdditions(c, SCHEMA_DIR).None? || ImmutableJsonAdditions(c, BINDING_DIR).None? || EventAdditions(c).None?)
            && (r.Err? ==> r.error != NonLinearHistory && r.error != NamespaceInvalid && r.error != GenesisImmutable)
  {
    hide ImmutableJsonAdditions, EventAdditions, LoadSchemas, LoadBindings, AddEvents, RootBindingsAgree;
    if EventAdditions(c).Some? && LoadSchemas(env, c.tree).Some? {
      var registry := LoadSchemas(env, c.tree).value;
      if LoadBindings(env, registry, c.tree).Some? {
        var bindings := LoadBindings(env, registry, c.tree).value;
        EventsAreNotTreeErrors(env, root, registry, bindings, c, l.(bindingCount := |bindings.byKind|), EventAdditions(c).value);
      }
    }
  }

  lemma {:induction false} EventsAreNotTreeErrors(
    env: Env, root: GenesisRoot, registry: Registry, bindings: Snapshot, c: Commit, l: Ledger, paths: seq<string>)
    requires forall p | p in paths :: p in c.tree
    ensures var r := AddEvents(env, root, registry, bindings, c, l, paths); r.Err? ==> AboutEvents(r.error)
  {
    hide ValidateEvent, ApplyGoverned, HasEventId, HasKey, IsRecordEvent;
    if paths != [] {
      EventsAreNotTreeErrors(env, root, registry, bindings, c, l, paths[..|paths| - 1]);
      var before := AddEvents(env, root, registry, bindings, c, l, paths[..|paths| - 1]);
      if before.Ok? {
        var found := ValidateEvent(env, registry, c, paths[|paths| - 1]);
        if found.Some? {
          JudgementErrors(env, root, before.value.records, bindings, ParentId(env, c), found.value.doc);
        }
      }
    }
  }

  // ----------------------------------------------------------------- theorems

  /**
   What a ledger is. A head replays exactly if it is a founding commit, or has one
   parent, which replays, and may follow it. Both rules speak of trees and bytes.
   */
  lemma ReplaysIff(env: Env, c: Commit)
    ensures Replay(env, c).Ok? <==>
            || (c.parents == [] && MayFound(env, c))
            || (|c.parents| == 1 && Replay(env, c.parents[0]).Ok? &&
                MayFollow(env, Replay(env, c.parents[0]).value, c.parents[0], c))
  {
    hide Replay, MayFound, MayFollow;
    if c.parents == [] {
      FoundingIff(env, c);
    } else if |c.parents| == 1 && Replay(env, c.parents[0]).Ok? {
      ReplayChildIff(env, c);
    } else if Replay(env, c).Ok? {
      ReplayIsLinear(env, c);
    }
  }

  lemma ReplayIsLinear(env: Env, c: Commit)
    requires Replay(env, c).Ok?
    ensures |c.parents| <= 1 && (|c.parents| == 1 ==> Replay(env, c.parents[0]).Ok?)
  {
    hide Replay, ReplayCommit, ValidNamespace, LeavesTrust, ReadTrust;
    ReplayParts(env, c);
    if |c.parents| == 1 {
      ReplayOfParent(env, c);
    }
  }

  /**
   In a replayed history every event was stored as it reads, and every record event
   was judged by the binding of its kind in force at its commit: its own schema, its
   own policy version, and the commit it names as the one it follows.
   */
  lemma {:induction false} EventsAreJudged(env: Env, c: Commit)
    requires Replay(env, c).Ok?
    ensures forall e | e in Events(env, c) ::
              && |e.commit.parents| == 1 && BindingsAt(env, e.commit).Some? && LoadSchemas(env, e.commit.tree).Some?
              && Stores(env, LoadSchemas(env, e.commit.tree).value, e.commit, e.path, e)
              && e.path !in e.commit.parents[0].tree && e.commit.tree[e.path].mode == Plain
              && (IsRecord(e.doc) ==>
                    JudgedBy(env, Replay(env, c).value.trust.root, BindingsAt(env, e.commit).value, e.commit.parents[0], e.doc))
    decreases c
  {
    hide Replay, ReplayCommit, ValidNamespace, LeavesTrust, BindingsAt, Stores, JudgedBy, LoadSchemas, EventAdditions;
    ReplayIsLinear(env, c);
    if |c.parents| == 0 {
      GenesisHasNoEvents(env, c);
    } else {
      ReplayOfParent(env, c);
      EventsAreJudged(env, c.parents[0]);
      OwnEventsAreJudged(env, c);
    }
  }

  lemma OwnEventsAreJudged(env: Env, c: Commit)
    requires Replay(env, c).Ok? && |c.parents| == 1 && Replay(env, c.parents[0]).Ok?
    ensures forall e | e in Events(env, c) && e !in Events(env, c.parents[0]) ::
              && e.commit == c && BindingsAt(env, c).Some? && LoadSchemas(env, c.tree).Some?
              && Stores(env, LoadSchemas(env, c.tree).value, c, e.path, e)
              && e.path !in c.parents[0].tree && c.tree[e.path].mode == Plain
              && (IsRecord(e.doc) ==>
                    JudgedBy(env, Replay(env, c).value.trust.root, BindingsAt(env, c).value, c.parents[0], e.doc))
  {
    hide Replay, ReplayCommit, ValidNamespace, LeavesTrust, Stores, JudgedBy, LoadSchemas, LoadBindings, EventAdditions,
      Reduced, AddEvents, AddedEvents, OnlyAddsAllowed, PathsPass, Allowed;
    var parent := c.parents[0];
    assert c.parents == [parent];
    var m := Replay(env, parent).value;
    ReplayOfParent(env, c);
    ReplayedPathsPass(env, m.trust.root, m.genesis, m.ledger, c);
    PathsPassIff(c);
    ReplayedIsNamed(env, parent);
    RecordsAreReduced(env, parent);
    var es := OwnEvents(env, m, parent, c);
    if es != [] {
      var registry, bindings := LoadSchemas(env, c.tree).value, BindingsAt(env, c).value;
      forall e | e in Events(env, c) && e !in Events(env, parent)
        ensures e.commit == c && Stores(env, registry, c, e.path, e)
        ensures e.path !in parent.tree && e.path in c.tree && c.tree[e.path].mode == Plain
        ensures IsRecord(e.doc) ==> JudgedBy(env, m.trust.root, bindings, parent, e.doc)
      {
        var i :| 0 <= i < |es| && es[i] == e;
        FollowsParts(env, m.trust.root, registry, bindings, parent, c, m.ledger.events, SortedPaths(AddedEvents(parent.tree, c.tree)), es, i);
        AddedIsPlain(parent.tree, c.tree, e.path);
      }
    }
  }

  lemma FollowsParts(
    env: Env, root: GenesisRoot, registry: Registry, bindings: Snapshot, parent: Commit, c: Commit,
    before: seq<Event>, paths: seq<string>, es: seq<Event>, i: nat)
    requires AllFollow(env, root, registry, bindings, parent, c, before, paths, es) && i < |es|
    ensures es[i].commit == c && es[i].path in paths && Stores(env, registry, c, es[i].path, es[i])
    ensures IsRecord(es[i].doc) ==> JudgedBy(env, root, bindings, parent, es[i].doc)
  {
    hide JudgedBy, Unused, StepsOf, Reducer.ApplyAll;
    assert Follows(env, root, registry, bindings, parent, c, before + es[..i], paths[i], es[i]);
  }

  lemma AddedIsPlain(before: Tree, after: Tree, p: string)
    requires OnlyAddsAllowed(before, after) && p in SortedPaths(AddedEvents(before, after))
    ensures p !in before && p in after && after[p].mode == Plain
  {
    hide Allowed, Beneath;
    assert p in AddedEvents(before, after);
  }

  /** The events a replayed child adds, each following the ones before. */
  lemma OwnEvents(env: Env, m: Manifest, parent: Commit, c: Commit) returns (es: seq<Event>)
    requires c.parents == [parent] && Replay(env, c).Ok? && Replay(env, parent) == Ok(m) && env.id(parent) != ""
    requires Reduced(env, m.ledger) && PathsPass(c)
    requires EventAdditions(c) == Some(SortedPaths(AddedEvents(parent.tree, c.tree)))
    ensures Events(env, c) == Events(env, parent) + es
    ensures es != [] ==> LoadSchemas(env, c.tree).Some? && BindingsAt(env, c).Some?
    ensures es != [] ==>
              AllFollow(env, m.trust.root, LoadSchemas(env, c.tree).value, BindingsAt(env, c).value, parent, c, m.ledger.events,
                        SortedPaths(AddedEvents(parent.tree, c.tree)), es)
  {
    hide Replay, ValidNamespace, LeavesTrust, AllFollow, LoadSchemas, LoadBindings, EventAdditions, ImmutableJsonAdditions,
      Reduced, AddEvents, AddedEvents, PathsPass, RootBindingsAgree;
    ReplayOfParent(env, c);
    es := [];
    if Events(env, c) == Events(env, parent) {
      assert Events(env, parent) + [] == Events(env, parent);
    } else {
      var registry := LoadSchemas(env, c.tree).value;
      var bindings := LoadBindings(env, registry, c.tree).value;
      var l := m.ledger.(bindingCount := |bindings.byKind|);
      ReducedStart(env, m.ledger, |bindings.byKind|);
      es := AddedFollow(env, m.trust.root, registry, bindings, parent, c, l, EventAdditions(c).value);
    }
  }
}
