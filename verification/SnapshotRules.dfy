/** Which trees hold schemas and bindings that load, file by file, and what then is in force. */
module SnapshotRules {
  import opened Wrappers
  import opened Text
  import opened Git
  import opened Domain
  import opened Bindings
  import Reducer

  /** The JSON files of a directory. */
  function Files(tree: Tree, dir: string): (files: set<string>)
    ensures files <= tree.Keys
  {
    set p | p in tree && Under(p, dir) && HasSuffix(p, ".json")
  }

  /** A listing reads every file once, each an ordinary one. */
  lemma ListingIff(tree: Tree, dir: string)
    ensures JsonFiles(tree, dir) ==
            if forall p | p in Files(tree, dir) :: tree[p].mode == Plain
            then Some(Contents(tree, SortedPaths(Files(tree, dir)))) else None
  {
    hide Under, HasSuffix, SortedPaths;
  }

  // ------------------------------------------------------------------ schemas

  /** The schema is registrable and in force under its own identity. */
  predicate SchemaHeld(env: Env, registry: Registry, raw: Raw) {
    && env.schemaId(raw).Some? && env.registrable(raw)
    && env.schemaId(raw).value in registry && registry[env.schemaId(raw).value] == raw
  }

  ghost predicate SomeSchema(env: Env, raws: seq<Raw>, id: string) {
    exists i :: 0 <= i < |raws| && env.schemaId(raws[i]) == Some(id)
  }

  /** Each listed schema under an identity of its own, and nothing else. */
  ghost predicate SchemaList(env: Env, raws: seq<Raw>, registry: Registry) {
    && (forall i | 0 <= i < |raws| :: SchemaHeld(env, registry, raws[i]))
    && (forall i, j | 0 <= i < j < |raws| :: env.schemaId(raws[i]) != env.schemaId(raws[j]))
    && (forall id | id in registry :: SomeSchema(env, raws, id))
  }

  lemma {:induction false} AddSchemasIff(env: Env, raws: seq<Raw>, registry: Registry)
    ensures AddSchemas(env, raws) == Some(registry) <==> SchemaList(env, raws, registry)
  {
    hide SchemaList;
    if raws == [] {
      NoSchemas(env, registry);
    } else {
      var before, last := raws[..|raws| - 1], raws[|raws| - 1];
      assert raws == before + [last];
      if AddSchemas(env, raws) == Some(registry) {
        var r0 := AddSchemas(env, before).value;
        AddSchemasIff(env, before, r0);
        SchemaSnoc(env, before, r0, last);
      }
      if SchemaList(env, raws, registry) {
        SchemaInit(env, before, registry, last);
        var r0 := registry - {env.schemaId(last).value};
        AddSchemasIff(env, before, r0);
        assert registry == r0[env.schemaId(last).value := last];
      }
    }
  }

  lemma NoSchemas(env: Env, registry: Registry)
    ensures SchemaList(env, [], registry) <==> registry == map[]
  {
    assert forall id :: !SomeSchema(env, [], id);
  }

  lemma SchemaSnoc(env: Env, before: seq<Raw>, r0: Registry, last: Raw)
    requires SchemaList(env, before, r0) && env.schemaId(last).Some? && env.registrable(last)
    requires env.schemaId(last).value !in r0
    ensures SchemaList(env, before + [last], r0[env.schemaId(last).value := last])
  {
    hide SomeSchema;
    var raws, registry := before + [last], r0[env.schemaId(last).value := last];
    assert forall i | 0 <= i < |before| :: raws[i] == before[i] && SchemaHeld(env, r0, before[i]);
    forall id | id in registry ensures SomeSchema(env, raws, id) {
      SomeSnoc(env, before, last, id);
    }
  }

  lemma SomeSnoc(env: Env, before: seq<Raw>, last: Raw, id: string)
    ensures SomeSchema(env, before + [last], id) <==> SomeSchema(env, before, id) || env.schemaId(last) == Some(id)
  {
    var raws := before + [last];
    assert raws[|before|] == last;
    if SomeSchema(env, before, id) {
      var i :| 0 <= i < |before| && env.schemaId(before[i]) == Some(id);
      assert raws[i] == before[i];
    }
  }

  lemma SchemaInit(env: Env, before: seq<Raw>, registry: Registry, last: Raw)
    requires SchemaList(env, before + [last], registry)
    ensures SchemaHeld(env, registry, last)
    ensures SchemaList(env, before, registry - {env.schemaId(last).value})
  {
    hide SomeSchema;
    var raws := before + [last];
    assert raws[|before|] == last;
    var r0 := registry - {env.schemaId(last).value};
    forall i | 0 <= i < |before| ensures SchemaHeld(env, r0, before[i]) {
      assert raws[i] == before[i] && env.schemaId(raws[i]) != env.schemaId(raws[|before|]);
    }
    forall i, j | 0 <= i < j < |before| ensures env.schemaId(before[i]) != env.schemaId(before[j]) {
      assert raws[i] == before[i] && raws[j] == before[j];
    }
    forall id | id in r0 ensures SomeSchema(env, before, id) {
      SomeSnoc(env, before, last, id);
    }
  }

  /** Schemas are in force: at least one file, all ordinary, each registrable under an identity of its own. */
  ghost predicate SchemasInForce(env: Env, tree: Tree, registry: Registry) {
    var files := Files(tree, SCHEMA_DIR);
    && files != {} && (forall p | p in files :: tree[p].mode == Plain)
    && SchemaList(env, Contents(tree, SortedPaths(files)), registry)
  }

  /** And load exactly then, to exactly that. */
  lemma SchemasLoadIff(env: Env, tree: Tree, registry: Registry)
    ensures LoadSchemas(env, tree) == Some(registry) <==> SchemasInForce(env, tree, registry)
  {
    hide JsonFiles, Files, AddSchemas, SchemaList, SortedPaths;
    var files := Files(tree, SCHEMA_DIR);
    ListingIff(tree, SCHEMA_DIR);
    AddSchemasIff(env, Contents(tree, SortedPaths(files)), registry);
    NothingSorted(files);
  }

  lemma NothingSorted(s: set<string>)
    ensures s == {} <==> SortedPaths(s) == []
  {
  }

  // ----------------------------------------------------------------- bindings

  /** A file that holds this binding: canonical, digested, of the one model and event schema, under known schemas. */
  predicate HoldsBinding(env: Env, registry: Registry, raw: Raw, b: Binding) {
    && env.strictValid(raw) && env.canon(raw) == Some(raw) && env.digestOk(raw) && env.decodeBinding(raw) == Some(b)
    && b.schemaVersion == "urn:threadkeeper:schema:reducer-binding:v1"
    && b.stateModel == "exclusive-governed-record-v1"
    && b.eventSchema == "urn:threadkeeper:schema:exclusive-governed-record-event:v1"
    && env.conforms(registry, b.schemaVersion, raw) && env.compiles(registry, b.eventSchema)
  }

  lemma ReadBindingIff(env: Env, registry: Registry, raw: Raw, b: Binding)
    ensures ReadBinding(env, registry, raw) == Some(b) <==> HoldsBinding(env, registry, raw, b)
  {
  }

  /** The file holds a binding, in force under its own kind and its own id. */
  predicate BindingHeld(env: Env, registry: Registry, s: Snapshot, raw: Raw) {
    && env.decodeBinding(raw).Some?
    && (var b := env.decodeBinding(raw).value;
        && HoldsBinding(env, registry, raw, b)
        && b.recordKind in s.byKind && s.byKind[b.recordKind] == b
        && b.bindingId in s.byId && s.byId[b.bindingId] == b)
  }

  predicate BindingsDiffer(env: Env, a: Raw, b: Raw) {
    && env.decodeBinding(a).Some? && env.decodeBinding(b).Some?
    && env.decodeBinding(a).value.bindingId != env.decodeBinding(b).value.bindingId
    && env.decodeBinding(a).value.recordKind != env.decodeBinding(b).value.recordKind
  }

  ghost predicate SomeBinding(env: Env, raws: seq<Raw>, b: Binding) {
    exists i :: 0 <= i < |raws| && env.decodeBinding(raws[i]) == Some(b)
  }

  /** Each listed binding under its own kind and id, and nothing else. */
  ghost predicate BindingList(env: Env, registry: Registry, raws: seq<Raw>, s: Snapshot) {
    && (forall i | 0 <= i < |raws| :: BindingHeld(env, registry, s, raws[i]))
    && (forall i, j | 0 <= i < j < |raws| :: BindingsDiffer(env, raws[i], raws[j]))
    && (forall k | k in s.byKind :: s.byKind[k].recordKind == k && SomeBinding(env, raws, s.byKind[k]))
    && (forall id | id in s.byId :: s.byId[id].bindingId == id && SomeBinding(env, raws, s.byId[id]))
  }

  lemma {:induction false} AddBindingsIff(env: Env, registry: Registry, raws: seq<Raw>, s: Snapshot)
    ensures AddBindings(env, registry, raws) == Some(s) <==> BindingList(env, registry, raws, s)
  {
    hide ReadBinding, HoldsBinding, BindingList;
    if raws == [] {
      NoBindings(env, registry, s);
    } else {
      var before, last := raws[..|raws| - 1], raws[|raws| - 1];
      assert raws == before + [last];
      if AddBindings(env, registry, raws) == Some(s) {
        var s0, b := AddBindings(env, registry, before).value, ReadBinding(env, registry, last).value;
        AddBindingsIff(env, registry, before, s0);
        ReadBindingIff(env, registry, last, b);
        BindingSnoc(env, registry, before, s0, last, b);
      }
      if BindingList(env, registry, raws, s) {
        BindingInit(env, registry, before, s, last);
        var b := env.decodeBinding(last).value;
        ReadBindingIff(env, registry, last, b);
        AddBindingsIff(env, registry, before, Without(s, b));
        assert s.byKind == Without(s, b).byKind[b.recordKind := b] && s.byId == Without(s, b).byId[b.bindingId := b];
      }
    }
  }

  function Without(s: Snapshot, b: Binding): Snapshot {
    Snapshot(s.byKind - {b.recordKind}, s.byId - {b.bindingId})
  }

  lemma NoBindings(env: Env, registry: Registry, s: Snapshot)
    ensures BindingList(env, registry, [], s) <==> s == Snapshot(map[], map[])
  {
    assert forall b :: !SomeBinding(env, [], b);
  }

  lemma SomeBindingSnoc(env: Env, before: seq<Raw>, last: Raw, b: Binding)
    ensures SomeBinding(env, before + [last], b) <==> SomeBinding(env, before, b) || env.decodeBinding(last) == Some(b)
  {
    var raws := before + [last];
    assert raws[|before|] == last;
    if SomeBinding(env, before, b) {
      var i :| 0 <= i < |before| && env.decodeBinding(before[i]) == Some(b);
      assert raws[i] == before[i];
    }
  }

  lemma HeldKept(env: Env, registry: Registry, s: Snapshot, raw: Raw, b: Binding)
    requires BindingHeld(env, registry, s, raw) && b.recordKind !in s.byKind && b.bindingId !in s.byId
    ensures BindingHeld(env, registry, Snapshot(s.byKind[b.recordKind := b], s.byId[b.bindingId := b]), raw)
    ensures env.decodeBinding(raw).value.recordKind != b.recordKind && env.decodeBinding(raw).value.bindingId != b.bindingId
  {
    hide HoldsBinding;
  }

  lemma HoldsDecoded(env: Env, registry: Registry, raw: Raw, b: Binding)
    requires HoldsBinding(env, registry, raw, b)
    ensures env.decodeBinding(raw) == Some(b)
  {
  }

  lemma BindingSnoc(env: Env, registry: Registry, before: seq<Raw>, s0: Snapshot, last: Raw, b: Binding)
    requires BindingList(env, registry, before, s0) && HoldsBinding(env, registry, last, b)
    requires b.recordKind !in s0.byKind && b.bindingId !in s0.byId
    ensures BindingList(env, registry, before + [last], Snapshot(s0.byKind[b.recordKind := b], s0.byId[b.bindingId := b]))
  {
    hide HoldsBinding, BindingHeld, SomeBinding;
    var raws, s := before + [last], Snapshot(s0.byKind[b.recordKind := b], s0.byId[b.bindingId := b]);
    HoldsDecoded(env, registry, last, b);
    LastIsHeld(env, registry, s, last, b);
    forall i | 0 <= i < |before|
      ensures BindingHeld(env, registry, s, raws[i]) && BindingsDiffer(env, raws[i], last)
    {
      assert BindingHeld(env, registry, s0, before[i]) && raws[i] == before[i];
      HeldKept(env, registry, s0, before[i], b);
      HeldDecodes(env, registry, s0, before[i]);
    }
    forall i, j | 0 <= i < j < |raws| ensures BindingsDiffer(env, raws[i], raws[j]) {
      if j < |before| {
        assert BindingsDiffer(env, before[i], before[j]);
      }
    }
    forall k | k in s.byKind ensures s.byKind[k].recordKind == k && SomeBinding(env, raws, s.byKind[k]) {
      SomeBindingSnoc(env, before, last, s.byKind[k]);
    }
    forall id | id in s.byId ensures s.byId[id].bindingId == id && SomeBinding(env, raws, s.byId[id]) {
      SomeBindingSnoc(env, before, last, s.byId[id]);
    }
  }

  lemma HeldDecodes(env: Env, registry: Registry, s: Snapshot, raw: Raw)
    requires BindingHeld(env, registry, s, raw)
    ensures env.decodeBinding(raw).Some?
  {
  }

  lemma LastIsHeld(env: Env, registry: Registry, s: Snapshot, raw: Raw, b: Binding)
    requires HoldsBinding(env, registry, raw, b) && b.recordKind in s.byKind && s.byKind[b.recordKind] == b
    requires b.bindingId in s.byId && s.byId[b.bindingId] == b
    ensures BindingHeld(env, registry, s, raw)
  {
  }

  lemma BindingInit(env: Env, registry: Registry, before: seq<Raw>, s: Snapshot, last: Raw)
    requires BindingList(env, registry, before + [last], s)
    ensures BindingHeld(env, registry, s, last)
    ensures BindingList(env, registry, before, Without(s, env.decodeBinding(last).value))
  {
    hide HoldsBinding, SomeBinding;
    var raws := before + [last];
    assert raws[|before|] == last;
    var b := env.decodeBinding(last).value;
    var s0 := Without(s, b);
    forall i | 0 <= i < |before| ensures BindingHeld(env, registry, s0, before[i]) {
      assert raws[i] == before[i] && BindingsDiffer(env, raws[i], raws[|before|]);
    }
    forall i, j | 0 <= i < j < |before| ensures BindingsDiffer(env, before[i], before[j]) {
      assert raws[i] == before[i] && raws[j] == before[j] && BindingsDiffer(env, raws[i], raws[j]);
    }
    forall k | k in s0.byKind ensures SomeBinding(env, before, s0.byKind[k]) {
      SomeBindingSnoc(env, before, last, s.byKind[k]);
    }
    forall id | id in s0.byId ensures SomeBinding(env, before, s0.byId[id]) {
      SomeBindingSnoc(env, before, last, s.byId[id]);
    }
  }

  /** Bindings are in force: every file is ordinary and holds one, no two share an id or a kind, nothing else is bound. */
  ghost predicate BindingsInForce(env: Env, registry: Registry, tree: Tree, s: Snapshot) {
    var files := Files(tree, BINDING_DIR);
    && (forall p | p in files :: tree[p].mode == Plain)
    && BindingList(env, registry, Contents(tree, SortedPaths(files)), s)
  }

  /** And load exactly then, to exactly that. */
  lemma BindingsLoadIff(env: Env, registry: Registry, tree: Tree, s: Snapshot)
    ensures LoadBindings(env, registry, tree) == Some(s) <==> BindingsInForce(env, registry, tree, s)
  {
    hide JsonFiles, Files, AddBindings, BindingList, SortedPaths;
    ListingIff(tree, BINDING_DIR);
    AddBindingsIff(env, registry, Contents(tree, SortedPaths(Files(tree, BINDING_DIR))), s);
  }
}
