/** The schema registry and the reducer bindings in force at one commit's tree. */
module Bindings {
  import opened Wrappers
  import opened Text
  import opened Git
  import opened Domain
  import Reducer

  const SCHEMA_DIR := "config/schemas"
  const BINDING_DIR := "config/authority/reducer-bindings"
  const BINDING_SCHEMA := "urn:threadkeeper:schema:reducer-binding:v1"
  const RECORD_EVENT_SCHEMA := "urn:threadkeeper:schema:exclusive-governed-record-event:v1"

  /** The contents of listed files, in listing order. */
  function Contents(tree: Tree, paths: seq<string>): (r: seq<Raw>)
    requires forall p | p in paths :: p in tree
    ensures |r| == |paths|
  {
    seq(|paths|, i requires 0 <= i < |paths| => tree[paths[i]].bytes)
  }

  /** The ordinary JSON files below `dir`, read in lexical order. */
  function JsonFiles(tree: Tree, dir: string): Option<seq<Raw>> {
    match ListJson(tree, dir)
    case None => None
    case Some(paths) => Some(Contents(tree, paths))
  }

  // ---------------------------------------------------------------- schemas

  function AddSchemas(env: Env, raws: seq<Raw>): Option<Registry> {
    if raws == [] then Some(map[])
    else
      match AddSchemas(env, raws[..|raws| - 1])
      case None => None
      case Some(registry) =>
        var raw := raws[|raws| - 1];
        match env.schemaId(raw)
        case None => None
        case Some(id) => if env.registrable(raw) && id !in registry then Some(registry[id := raw]) else None
  }

  /** loadSchemasAt. */
  function LoadSchemas(env: Env, tree: Tree): Option<Registry> {
    match JsonFiles(tree, SCHEMA_DIR)
    case None => None
    case Some(raws) => if raws == [] then None else AddSchemas(env, raws)
  }

  // --------------------------------------------------------------- bindings

  datatype Snapshot = Snapshot(byKind: map<string, Binding>, byId: map<string, Binding>)

  /** Everything LoadReducerBindingsAt asks of one file before it looks for duplicates. */
  function ReadBinding(env: Env, registry: Registry, raw: Raw): Option<Binding> {
    if !Sealed(env, raw) then None
    else
      match env.decodeBinding(raw)
      case None => None
      case Some(b) =>
        if && b.schemaVersion == BINDING_SCHEMA && env.conforms(registry, b.schemaVersion, raw)
           && b.stateModel == Reducer.MODEL && b.eventSchema == RECORD_EVENT_SCHEMA
           && env.compiles(registry, b.eventSchema)
        then Some(b) else None
  }

  /** One turn of the loop: a binding identity or a record kind met twice is an integrity failure. */
  function AddBinding(s: Snapshot, read: Option<Binding>): Option<Snapshot> {
    match read
    case None => None
    case Some(b) =>
      if b.bindingId in s.byId || b.recordKind in s.byKind then None
      else Some(Snapshot(s.byKind[b.recordKind := b], s.byId[b.bindingId := b]))
  }

  function AddBindings(env: Env, registry: Registry, raws: seq<Raw>): Option<Snapshot> {
    if raws == [] then Some(Snapshot(map[], map[]))
    else
      match AddBindings(env, registry, raws[..|raws| - 1])
      case None => None
      case Some(s) => AddBinding(s, ReadBinding(env, registry, raws[|raws| - 1]))
  }

  function LoadBindings(env: Env, registry: Registry, tree: Tree): Option<Snapshot> {
    match JsonFiles(tree, BINDING_DIR)
    case None => None
    case Some(raws) => AddBindings(env, registry, raws)
  }

  method LoadReducerBindingsAt(env: Env, registry: Registry, tree: Tree) returns (r: Option<Snapshot>)
    ensures r == LoadBindings(env, registry, tree)
  {
    hide ReadBinding, ListJson, Contents;
    var listed := JsonFiles(tree, BINDING_DIR);
    if listed.None? {
      return None;
    }
    var raws := listed.value;
    var byKind: map<string, Binding>, byId: map<string, Binding> := map[], map[];
    for i := 0 to |raws|
      invariant AddBindings(env, registry, raws[..i]) == Some(Snapshot(byKind, byId))
    {
      assert raws[..i + 1][..i] == raws[..i];
      var read := ReadBinding(env, registry, raws[i]);
      if read.None? || read.value.bindingId in byId || read.value.recordKind in byKind {
        AddBindingsFails(env, registry, raws, i + 1);
        return None;
      }
      byId := byId[read.value.bindingId := read.value];
      byKind := byKind[read.value.recordKind := read.value];
    }
    assert raws[..|raws|] == raws;
    return Some(Snapshot(byKind, byId));
  }

  lemma {:induction false} AddBindingsFails(env: Env, registry: Registry, raws: seq<Raw>, n: nat)
    requires n <= |raws| && AddBindings(env, registry, raws[..n]) == None
    ensures AddBindings(env, registry, raws) == None
    decreases |raws| - n
  {
    if n == |raws| {
      assert raws[..n] == raws;
    } else {
      assert raws[..n + 1][..n] == raws[..n];
      AddBindingsFails(env, registry, raws, n + 1);
    }
  }

  /** ReducerBindings: record kind to state model. */
  function ReducerBindings(s: Snapshot): Reducer.Bindings {
    map k | k in s.byKind :: s.byKind[k].stateModel
  }

  // ------------------------------------------------------------- uniqueness

  /** Every file read is in the snapshot, under its own kind and identity. */
  lemma {:induction false} FilesAreLoaded(env: Env, registry: Registry, raws: seq<Raw>, raw: Raw)
    requires AddBindings(env, registry, raws).Some? && raw in raws
    ensures var s := AddBindings(env, registry, raws).value;
            var d := env.decodeBinding(raw);
            && d.Some?
            && d.value.recordKind in s.byKind && s.byKind[d.value.recordKind] == d.value
            && d.value.bindingId in s.byId && s.byId[d.value.bindingId] == d.value
  {
    var before := raws[..|raws| - 1];
    if raw in before {
      FilesAreLoaded(env, registry, before, raw);
    } else {
      assert raws == before + [raws[|raws| - 1]];
    }
  }

  /** Everything in the snapshot was read from some file, and is of the one accepted model. */
  lemma {:induction false} LoadedKindsAreFiled(env: Env, registry: Registry, raws: seq<Raw>, kind: string)
    requires AddBindings(env, registry, raws).Some? && kind in AddBindings(env, registry, raws).value.byKind
    ensures var b := AddBindings(env, registry, raws).value.byKind[kind];
            && b.recordKind == kind && b.stateModel == Reducer.MODEL && b.eventSchema == RECORD_EVENT_SCHEMA
            && exists raw :: raw in raws && env.decodeBinding(raw) == Some(b)
  {
    var before := raws[..|raws| - 1];
    var last := raws[|raws| - 1];
    assert last in raws;
    if env.decodeBinding(last).value.recordKind != kind {
      LoadedKindsAreFiled(env, registry, before, kind);
    }
  }

  lemma {:induction false} LoadedIdsAreFiled(env: Env, registry: Registry, raws: seq<Raw>, id: string)
    requires AddBindings(env, registry, raws).Some? && id in AddBindings(env, registry, raws).value.byId
    ensures var b := AddBindings(env, registry, raws).value.byId[id];
            && b.bindingId == id
            && exists raw :: raw in raws && env.decodeBinding(raw) == Some(b)
  {
    var before := raws[..|raws| - 1];
    var last := raws[|raws| - 1];
    assert last in raws;
    if env.decodeBinding(last).value.bindingId != id {
      LoadedIdsAreFiled(env, registry, before, id);
    }
  }

  lemma LoadedUnderBoth(env: Env, registry: Registry, raws: seq<Raw>, kind: string)
    requires AddBindings(env, registry, raws).Some? && kind in AddBindings(env, registry, raws).value.byKind
    ensures var s := AddBindings(env, registry, raws).value;
            s.byKind[kind].bindingId in s.byId && s.byId[s.byKind[kind].bindingId] == s.byKind[kind]
  {
    hide AddBindings;
    LoadedKindsAreFiled(env, registry, raws, kind);
    var raw :| raw in raws && env.decodeBinding(raw) == Some(AddBindings(env, registry, raws).value.byKind[kind]);
    FilesAreLoaded(env, registry, raws, raw);
  }

  /** Two files of one loadable directory never share a binding identity or a record kind. */
  lemma {:induction false} OneFilePerBinding(env: Env, registry: Registry, raws: seq<Raw>, i: nat, j: nat)
    requires AddBindings(env, registry, raws).Some? && i < j < |raws|
    ensures var a, b := env.decodeBinding(raws[i]), env.decodeBinding(raws[j]);
            && a.Some? && b.Some?
            && a.value.bindingId != b.value.bindingId
            && a.value.recordKind != b.value.recordKind
  {
    var before := raws[..|raws| - 1];
    if j < |raws| - 1 {
      OneFilePerBinding(env, registry, before, i, j);
    } else {
      FilesAreLoaded(env, registry, before, before[i]);
    }
  }

  /** A larger tree that still loads keeps every binding the smaller one had. */
  lemma BindingsOnlyGrow(env: Env, r0: Registry, r1: Registry, t0: Tree, t1: Tree)
    requires LoadBindings(env, r0, t0).Some? && LoadBindings(env, r1, t1).Some?
    requires forall p | p in t0 :: p in t1 && t1[p] == t0[p]
    ensures var s0, s1 := LoadBindings(env, r0, t0).value, LoadBindings(env, r1, t1).value;
            && (forall k | k in s0.byKind :: k in s1.byKind && s1.byKind[k] == s0.byKind[k])
            && (forall id | id in s0.byId :: id in s1.byId && s1.byId[id] == s0.byId[id])
  {
    var f0, f1 := JsonFiles(t0, BINDING_DIR).value, JsonFiles(t1, BINDING_DIR).value;
    var s0 := LoadBindings(env, r0, t0).value;
    forall k | k in s0.byKind
      ensures k in LoadBindings(env, r1, t1).value.byKind
      ensures LoadBindings(env, r1, t1).value.byKind[k] == s0.byKind[k]
    {
      LoadedKindsAreFiled(env, r0, f0, k);
      var raw :| raw in f0 && env.decodeBinding(raw) == Some(s0.byKind[k]);
      StillFiled(t0, t1, raw);
      FilesAreLoaded(env, r1, f1, raw);
    }
    forall id | id in s0.byId
      ensures id in LoadBindings(env, r1, t1).value.byId
      ensures LoadBindings(env, r1, t1).value.byId[id] == s0.byId[id]
    {
      LoadedIdsAreFiled(env, r0, f0, id);
      var raw :| raw in f0 && env.decodeBinding(raw) == Some(s0.byId[id]);
      StillFiled(t0, t1, raw);
      FilesAreLoaded(env, r1, f1, raw);
    }
  }

  lemma StillFiled(t0: Tree, t1: Tree, raw: Raw)
    requires JsonFiles(t0, BINDING_DIR).Some? && JsonFiles(t1, BINDING_DIR).Some?
    requires raw in JsonFiles(t0, BINDING_DIR).value
    requires forall q | q in t0 :: q in t1 && t1[q] == t0[q]
    ensures raw in JsonFiles(t1, BINDING_DIR).value
  {
    FiledSomewhere(t0, BINDING_DIR, raw);
    var p :| IsJsonFile(t0, BINDING_DIR, p) && t0[p].bytes == raw;
    FileIsListed(t1, BINDING_DIR, p);
  }

  predicate IsJsonFile(tree: Tree, dir: string, p: string) {
    p in tree && Under(p, dir) && HasSuffix(p, ".json")
  }

  lemma FiledSomewhere(tree: Tree, dir: string, raw: Raw)
    requires JsonFiles(tree, dir).Some? && raw in JsonFiles(tree, dir).value
    ensures exists p :: IsJsonFile(tree, dir, p) && tree[p].bytes == raw
  {
    var paths := ListJson(tree, dir).value;
    var i :| 0 <= i < |paths| && Contents(tree, paths)[i] == raw;
    assert paths[i] in paths;
    assert IsJsonFile(tree, dir, paths[i]);
  }

  lemma FileIsListed(tree: Tree, dir: string, p: string)
    requires JsonFiles(tree, dir).Some? && IsJsonFile(tree, dir, p)
    ensures tree[p].bytes in JsonFiles(tree, dir).value
  {
    var paths := ListJson(tree, dir).value;
    assert p in paths;
    var j :| 0 <= j < |paths| && paths[j] == p;
    assert Contents(tree, paths)[j] == tree[p].bytes;
  }

  // ------------------------------------------------------------------ frame

  predicate AgreeUnder(a: Tree, b: Tree, dir: string) {
    forall p | p in a.Keys + b.Keys :: Under(p, dir) ==> p in a && p in b && a[p] == b[p]
  }

  /** What is in force depends only on the configuration files. */
  lemma JsonFilesFrame(a: Tree, b: Tree, dir: string)
    requires AgreeUnder(a, b, dir)
    ensures JsonFiles(a, dir) == JsonFiles(b, dir)
  {
    assert forall p | Under(p, dir) :: (p in a.Keys + b.Keys ==> p in a && p in b && a[p] == b[p]);
    ListJsonFrame(a, b, dir);
    if ListJson(a, dir).Some? {
      var paths := ListJson(a, dir).value;
      assert forall i | 0 <= i < |paths| :: paths[i] in paths;
      assert Contents(a, paths) == Contents(b, paths);
    }
  }
}
