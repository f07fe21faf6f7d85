/**
 Durable publication of quarantined candidates under crashes. The directory
 and its files have a volatile side, which every process sees, and a durable
 one, which is all a crash leaves: an unsynced file may come back with any
 bytes, and an unsynced directory entry as any value it had since the last
 directory sync. Any number of publishers run interleaved, and may fail or die
 between any two steps; anybody may remove a file at any time.
 */
module QuarantineCrash {
  import opened Wrappers
  import opened Text

  // ------------------------------------------------------------------- names

  const TEMP_PREFIX := ".publish-"
  const FINAL_SUFFIX := ".candidate"

  /** validID. */
  predicate ValidId(id: string) {
    id != "" && forall i | 0 <= i < |id| ::
      'a' <= id[i] <= 'z' || 'A' <= id[i] <= 'Z' || '0' <= id[i] <= '9' || id[i] == '-' || id[i] == '_'
  }

  function FinalName(id: string): string {
    id + FINAL_SUFFIX
  }

  predicate IsTemp(name: string) {
    HasPrefix(name, TEMP_PREFIX)
  }

  /** A capability name is no private file's name, and belongs to one id. */
  lemma NamesAreApart(a: string, b: string)
    requires ValidId(a)
    ensures !IsTemp(FinalName(a))
    ensures FinalName(a) == FinalName(b) ==> a == b
  {
    assert FinalName(a)[0] == a[0] && TEMP_PREFIX[0] == '.';
    if FinalName(a) == FinalName(b) {
      assert a == FinalName(a)[..|FinalName(a)| - |FINAL_SUFFIX|];
      assert b == FinalName(b)[..|FinalName(b)| - |FINAL_SUFFIX|];
    }
  }

  // -------------------------------------------------------------------- disk

  /** An inode: what it holds, and whether that is known to be on stable storage. */
  datatype File = File(bytes: string, synced: bool)

  /** `dir` is what processes see; `maybe` what else a crash may leave under a name. */
  datatype Disk = Disk(files: map<nat, File>, dir: map<string, nat>, maybe: map<string, set<Option<nat>>>)

  function Entry(d: Disk, name: string): Option<nat> {
    if name in d.dir then Some(d.dir[name]) else None
  }

  /** The values a crash may leave under a name. */
  function Possible(d: Disk, name: string): set<Option<nat>> {
    if name in d.maybe then d.maybe[name] else {Entry(d, name)}
  }

  function SetEntry(d: Disk, name: string, e: Option<nat>): Disk {
    Disk(d.files, if e.Some? then d.dir[name := e.value] else d.dir - {name},
         d.maybe[name := Possible(d, name) + {e}])
  }

  function WriteFile(d: Disk, i: nat, f: File): Disk {
    d.(files := d.files[i := f])
  }

  /** fsync of the directory. */
  function SyncDirectory(d: Disk): Disk {
    d.(maybe := map[])
  }

  ghost predicate CrashLeaves(d: Disk, d': Disk) {
    && d'.files.Keys == d.files.Keys
    && (forall i | i in d.files :: d'.files[i].synced && (d.files[i].synced ==> d'.files[i].bytes == d.files[i].bytes))
    && (forall name :: Entry(d', name) in Possible(d, name))
    && d'.maybe == map[]
  }

  /** A read of the name returns these bytes. */
  predicate ReadsAs(d: Disk, name: string, bytes: string) {
    name in d.dir && d.dir[name] in d.files && d.files[d.dir[name]].bytes == bytes
  }

  // -------------------------------------------------------------- publishers

  datatype Call = Call(id: string, content: string, ensure: bool)

  datatype PutResult = Published(mark: nat) | AlreadyThere | Failed

  /**
   Where an invocation of Put or Ensure stands. `mark` is the number of removals
   its name had seen when the invocation linked it, or first read it.
   */
  datatype Pc =
    | Begin
    | Opened(t: string, i: nat)
    | Written(t: string, i: nat)
    | Flushed(t: string, i: nat)
    | Closed(t: string, i: nat)
    | Linked(t: string, mark: nat)
    | DirSynced(t: string, mark: nat)
    | Drop(t: string, result: PutResult)
    | Existing
    | Matched(mark: nat)
    | Converged(mark: nat)
    | Done(ok: bool, mark: nat)
    | Dead

  datatype Proc = Proc(call: Call, pc: Pc)

  datatype World = World(disk: Disk, used: set<string>, removals: map<string, nat>, procs: map<nat, Proc>)

  function Removals(w: World, name: string): nat {
    if name in w.removals then w.removals[name] else 0
  }

  function AfterDrop(call: Call, r: PutResult): Pc {
    match r
    case Published(mark) => Done(true, mark)
    case AlreadyThere => if call.ensure then Existing else Done(false, 0)
    case Failed => Done(false, 0)
  }

  const FAILED := Done(false, 0)

  /** put, one system call at a time; a failing call may or may not have had its effect. */
  predicate PutStep(w: World, call: Call, pc: Pc, d': Disk, used': set<string>, pc': Pc) {
    var d, name := w.disk, FinalName(call.id);
    match pc
    case Begin =>
      || (d' == d && used' == w.used && pc' == FAILED)
      || (ValidId(call.id) && pc'.Opened? && IsTemp(pc'.t) && pc'.t !in w.used && pc'.t !in d.dir && pc'.i !in d.files &&
          used' == w.used + {pc'.t} && d' == SetEntry(WriteFile(d, pc'.i, File("", false)), pc'.t, Some(pc'.i)))
    case Opened(t, i) =>
      used' == w.used && i in d'.files && d' == WriteFile(d, i, File(d'.files[i].bytes, false)) &&
      ((d'.files[i].bytes == call.content && pc' == Written(t, i)) || pc' == Drop(t, Failed))
    case Written(t, i) =>
      used' == w.used && i in d.files &&
      ((d' == WriteFile(d, i, File(d.files[i].bytes, true)) && (pc' == Flushed(t, i) || pc' == Drop(t, Failed))) ||
       (d' == d && pc' == Drop(t, Failed)))
    case Flushed(t, i) =>
      d' == d && used' == w.used && (pc' == Closed(t, i) || pc' == Drop(t, Failed))
    case Closed(t, i) =>
      used' == w.used &&
      ((t in d.dir && name !in d.dir && d' == SetEntry(d, name, Some(d.dir[t])) &&
        (pc' == Linked(t, Removals(w, name)) || pc' == Drop(t, Failed))) ||
       (d' == d && ((name in d.dir && pc' == Drop(t, AlreadyThere)) || pc' == Drop(t, Failed))))
    case Linked(t, mark) =>
      used' == w.used &&
      ((d' == SyncDirectory(d) && (pc' == DirSynced(t, mark) || pc' == Drop(t, Failed))) ||
       (d' == d && pc' == Drop(t, Failed)))
    case DirSynced(t, mark) =>
      d' == d && used' == w.used &&
      ((ReadsAs(d, name, call.content) && pc' == Drop(t, Published(mark))) || pc' == Drop(t, Failed))
    case Drop(t, r) =>
      used' == w.used && (d' == d || d' == SetEntry(d, t, None)) && pc' == AfterDrop(call, r)
    case _ => false
  }

  /** The loop of ensure around put: converge on an existing identical file. */
  predicate EnsureStep(w: World, call: Call, pc: Pc, d': Disk, pc': Pc) {
    var d, name := w.disk, FinalName(call.id);
    match pc
    case Existing =>
      d' == d &&
      ((ReadsAs(d, name, call.content) && pc' == Matched(Removals(w, name))) || (name !in d.dir && pc' == Begin) ||
       pc' == FAILED)
    case Matched(mark) =>
      (d' == SyncDirectory(d) && (pc' == Converged(mark) || pc' == FAILED)) || (d' == d && pc' == FAILED)
    case Converged(mark) =>
      d' == d &&
      ((ReadsAs(d, name, call.content) && pc' == Done(true, mark)) || (name !in d.dir && pc' == Begin) || pc' == FAILED)
    case _ => false
  }

  datatype Action =
    | Start(k: nat)
    | Run(k: nat)
    | Kill(k: nat)
    | Unlink(name: string)      // Remove, PruneBefore, or anybody else
    | Crash

  function Die(p: Proc): Proc {
    if p.pc.Done? then p else p.(pc := Dead)
  }

  ghost predicate Step(w: World, w': World, a: Action) {
    match a
    case Start(k) =>
      k !in w.procs && k in w'.procs && w'.procs[k].pc == Begin && w' == w.(procs := w.procs[k := w'.procs[k]])
    case Run(k) =>
      && k in w.procs && k in w'.procs && w'.procs[k].call == w.procs[k].call
      && w' == World(w'.disk, w'.used, w.removals, w.procs[k := w'.procs[k]])
      && (|| PutStep(w, w.procs[k].call, w.procs[k].pc, w'.disk, w'.used, w'.procs[k].pc)
          || (w'.used == w.used && EnsureStep(w, w.procs[k].call, w.procs[k].pc, w'.disk, w'.procs[k].pc)))
    case Kill(k) =>
      k in w.procs && w' == w.(procs := w.procs[k := Die(w.procs[k])])
    case Unlink(name) =>
      w' == w.(disk := SetEntry(w.disk, name, None), removals := w.removals[name := Removals(w, name) + 1])
    case Crash =>
      && w' == w.(disk := w'.disk, procs := w'.procs)
      && w'.procs.Keys == w.procs.Keys && (forall k | k in w.procs :: w'.procs[k] == Die(w.procs[k]))
      && CrashLeaves(w.disk, w'.disk)
  }

  predicate Init(w: World) {
    w.disk == Disk(map[], map[], map[]) && w.procs == map[] && w.removals == map[] && w.used == {}
  }

  ghost predicate Execution(run: seq<World>, actions: seq<Action>) {
    && |run| == |actions| + 1
    && Init(run[0])
    && forall i | 0 <= i < |actions| :: Step(run[i], run[i + 1], actions[i])
  }

  // --------------------------------------------------------------- invariant

  /** The name now leads to these bytes, safely on disk; the entry itself may not be. */
  predicate Holds(d: Disk, name: string, bytes: string) {
    name in d.dir && d.dir[name] in d.files && d.files[d.dir[name]] == File(bytes, true)
  }

  /** Whatever a crash leaves, the name leads to these bytes. */
  ghost predicate Durable(d: Disk, name: string, bytes: string) {
    exists i :: Possible(d, name) == {Some(i)} && i in d.files && d.files[i] == File(bytes, true)
  }

  predicate Asked(procs: map<nat, Proc>, name: string, bytes: string) {
    exists k | k in procs :: FinalName(procs[k].call.id) == name && procs[k].call.content == bytes
  }

  /** Every capability name, in every state a crash may leave, leads to some publisher's whole content. */
  ghost predicate NamesComplete(d: Disk, procs: map<nat, Proc>) {
    && (forall name :: Entry(d, name) in Possible(d, name))
    && (forall name, i | Some(i) in Possible(d, name) :: i in d.files)
    && (forall name, i | Some(i) in Possible(d, name) && !IsTemp(name) ::
          d.files[i].synced && Asked(procs, name, d.files[i].bytes))
  }

  /** A private file that nobody else writes, under a private name that leads to it or nowhere. */
  predicate Owns(d: Disk, used: set<string>, t: string, i: nat) {
    IsTemp(t) && t in used && i in d.files && (t in d.dir ==> d.dir[t] == i)
  }

  ghost predicate PcOk(w: World, p: Proc) {
    var d, name, content := w.disk, FinalName(p.call.id), p.call.content;
    match p.pc
    case Opened(t, i) => ValidId(p.call.id) && Owns(d, w.used, t, i) && !d.files[i].synced
    case Written(t, i) => ValidId(p.call.id) && Owns(d, w.used, t, i) && d.files[i] == File(content, false)
    case Flushed(t, i) => ValidId(p.call.id) && Owns(d, w.used, t, i) && d.files[i] == File(content, true)
    case Closed(t, i) => ValidId(p.call.id) && Owns(d, w.used, t, i) && d.files[i] == File(content, true)
    case Linked(t, mark) => ValidId(p.call.id) && IsTemp(t) && Since(w, name, mark, Holds(d, name, content))
    case DirSynced(t, mark) => ValidId(p.call.id) && IsTemp(t) && Since(w, name, mark, Durable(d, name, content))
    case Drop(t, r) =>
      ValidId(p.call.id) && IsTemp(t) && (r.Published? ==> Since(w, name, r.mark, Durable(d, name, content)))
    case Existing => ValidId(p.call.id)
    case Matched(mark) => ValidId(p.call.id) && Since(w, name, mark, Holds(d, name, content))
    case Converged(mark) => ValidId(p.call.id) && Since(w, name, mark, Durable(d, name, content))
    case Done(ok, mark) => ok ==> ValidId(p.call.id) && Since(w, name, mark, Durable(d, name, content))
    case Begin => true
    case Dead => true
  }

  /** The fact holds unless the name has been removed after the mark was taken. */
  ghost predicate Since(w: World, name: string, mark: nat, fact: bool) {
    mark <= Removals(w, name) && (mark == Removals(w, name) ==> fact)
  }

  predicate Writing(p: Proc) {
    p.pc.Opened? || p.pc.Written?
  }

  ghost predicate WritersApart(procs: map<nat, Proc>) {
    forall k, l | k in procs && l in procs && k != l && Writing(procs[k]) && Writing(procs[l]) ::
      procs[k].pc.i != procs[l].pc.i
  }

  ghost predicate Inv(w: World) {
    && NamesComplete(w.disk, w.procs)
    && (forall k | k in w.procs :: PcOk(w, w.procs[k]))
    && WritersApart(w.procs)
  }

  // ------------------------------------------------- what a step may disturb

  /** Synced files stay as they are, live and durable capability names keep leading where they led. */
  ghost predicate Keeps(d: Disk, d': Disk) {
    && (forall i | i in d.files && d.files[i].synced :: i in d'.files && d'.files[i] == d.files[i])
    && (forall name | !IsTemp(name) && name in d.dir :: name in d'.dir && d'.dir[name] == d.dir[name])
    && (forall name, i | !IsTemp(name) && Possible(d, name) == {Some(i)} :: Possible(d', name) == {Some(i)})
  }

  lemma HoldsKept(d: Disk, d': Disk, name: string, bytes: string)
    requires Keeps(d, d') && !IsTemp(name)
    ensures Holds(d, name, bytes) ==> Holds(d', name, bytes)
    ensures Durable(d, name, bytes) ==> Durable(d', name, bytes)
  {
  }

  /** The private file of a writer is untouched by a step of someone else's. */
  predicate Spares(d: Disk, d': Disk, p: Proc) {
    && (Writing(p) && p.pc.i in d.files ==> p.pc.i in d'.files && d'.files[p.pc.i] == d.files[p.pc.i])
    && (Writing(p) || p.pc.Flushed? || p.pc.Closed? ==> p.pc.t in d'.dir ==> p.pc.t in d.dir && d'.dir[p.pc.t] == d.dir[p.pc.t])
  }

  lemma PcKept(w: World, w': World, p: Proc)
    requires PcOk(w, p) && Keeps(w.disk, w'.disk) && Spares(w.disk, w'.disk, p)
    requires w.used <= w'.used && w'.removals == w.removals
    ensures PcOk(w', p)
  {
    hide Holds, Durable, Keeps, FinalName;
    if !p.pc.Begin? && !p.pc.Dead? && (p.pc.Done? ==> p.pc.ok) {
      NamesAreApart(p.call.id, p.call.id);
      HoldsKept(w.disk, w'.disk, FinalName(p.call.id), p.call.content);
    }
    if p.pc.Flushed? || p.pc.Closed? {
      SyncedKept(w.disk, w'.disk, p.pc.i);
    }
  }

  lemma SyncedKept(d: Disk, d': Disk, i: nat)
    requires Keeps(d, d') && i in d.files && d.files[i].synced
    ensures i in d'.files && d'.files[i] == d.files[i]
  {
  }

  // ------------------------------------------------------ disk-level lemmas

  lemma SetEntryIs(d: Disk, name: string, e: Option<nat>)
    ensures var d' := SetEntry(d, name, e);
            && d'.files == d.files
            && (forall n :: Entry(d', n) == if n == name then e else Entry(d, n))
            && (forall n :: Possible(d', n) == if n == name then Possible(d, name) + {e} else Possible(d, n))
  {
  }

  lemma WriteFileIs(d: Disk, i: nat, f: File)
    ensures var d' := WriteFile(d, i, f);
            && d'.files == d.files[i := f]
            && (forall n :: Entry(d', n) == Entry(d, n) && Possible(d', n) == Possible(d, n))
  {
  }

  lemma CreateKeeps(d: Disk, procs: map<nat, Proc>, t: string, i: nat)
    requires NamesComplete(d, procs) && IsTemp(t) && t !in d.dir && i !in d.files
    ensures var d' := SetEntry(WriteFile(d, i, File("", false)), t, Some(i));
            Keeps(d, d') && NamesComplete(d', procs)
  {
    hide Possible, Asked, IsTemp;
    WriteFileIs(d, i, File("", false));
    SetEntryIs(WriteFile(d, i, File("", false)), t, Some(i));
  }

  lemma WriteKeeps(d: Disk, procs: map<nat, Proc>, i: nat, f: File)
    requires NamesComplete(d, procs) && i in d.files && !d.files[i].synced
    ensures Keeps(d, WriteFile(d, i, f)) && NamesComplete(WriteFile(d, i, f), procs)
  {
    hide Possible, Asked, IsTemp;
    WriteFileIs(d, i, f);
  }

  lemma LinkKeeps(d: Disk, procs: map<nat, Proc>, name: string, i: nat)
    requires NamesComplete(d, procs) && name !in d.dir && i in d.files && d.files[i].synced
    requires Asked(procs, name, d.files[i].bytes)
    ensures Keeps(d, SetEntry(d, name, Some(i))) && NamesComplete(SetEntry(d, name, Some(i)), procs)
  {
    hide Possible, Asked, IsTemp;
    SetEntryIs(d, name, Some(i));
    assert Entry(d, name) == None && Entry(d, name) in Possible(d, name);
  }

  lemma SyncKeeps(d: Disk, procs: map<nat, Proc>)
    requires NamesComplete(d, procs)
    ensures Keeps(d, SyncDirectory(d)) && NamesComplete(SyncDirectory(d), procs)
  {
    hide Asked;
    forall name, i | Possible(d, name) == {Some(i)} ensures Possible(SyncDirectory(d), name) == {Some(i)} {
      assert Entry(d, name) in Possible(d, name);
    }
  }

  lemma UnlinkKeepsComplete(d: Disk, procs: map<nat, Proc>, name: string)
    requires NamesComplete(d, procs)
    ensures NamesComplete(SetEntry(d, name, None), procs)
    ensures IsTemp(name) ==> Keeps(d, SetEntry(d, name, None))
  {
    hide Possible, Asked, IsTemp;
    SetEntryIs(d, name, None);
  }

  lemma SyncMakesDurable(d: Disk, name: string, bytes: string)
    requires Holds(d, name, bytes)
    ensures Durable(SyncDirectory(d), name, bytes)
  {
    assert Possible(SyncDirectory(d), name) == {Some(d.dir[name])};
  }

  lemma CrashKeeps(d: Disk, d': Disk, procs: map<nat, Proc>, name: string, bytes: string)
    requires NamesComplete(d, procs) && CrashLeaves(d, d')
    ensures NamesComplete(d', procs)
    ensures Durable(d, name, bytes) ==> Durable(d', name, bytes) && Holds(d', name, bytes)
  {
    hide Asked;
    forall n, i | Some(i) in Possible(d', n) ensures Some(i) in Possible(d, n) {
      assert Entry(d', n) == Some(i);
    }
    if Durable(d, name, bytes) {
      assert Entry(d', name) in Possible(d, name);
    }
  }

  lemma AskedStays(procs: map<nat, Proc>, procs': map<nat, Proc>)
    requires forall k | k in procs :: k in procs' && procs'[k].call == procs[k].call
    ensures forall name, bytes :: Asked(procs, name, bytes) ==> Asked(procs', name, bytes)
  {
  }

  lemma CompleteStays(d: Disk, procs: map<nat, Proc>, procs': map<nat, Proc>)
    requires NamesComplete(d, procs)
    requires forall k | k in procs :: k in procs' && procs'[k].call == procs[k].call
    ensures NamesComplete(d, procs')
  {
    hide Asked;
    AskedStays(procs, procs');
  }

  // --------------------------------------------------------- steps of put

  /** A publisher's own step: what it leaves on disk, and what the publisher then knows. */
  ghost predicate StepOk(w: World, w': World, k: nat, p: Proc, p': Proc) {
    && Keeps(w.disk, w'.disk) && NamesComplete(w'.disk, w.procs) && PcOk(w', p')
    && (forall l | l in w.procs && l != k :: Spares(w.disk, w'.disk, w.procs[l]))
    && (Writing(p') ==> (Writing(p) && p'.pc.i == p.pc.i) || p'.pc.i !in w.disk.files)
  }

  lemma SpareOthers(w: World, k: nat, i: nat, f: File)
    requires Inv(w) && k in w.procs && Writing(w.procs[k]) && w.procs[k].pc.i == i
    ensures forall l | l in w.procs && l != k :: Spares(w.disk, WriteFile(w.disk, i, f), w.procs[l])
  {
    hide NamesComplete, PcOk;
  }

  lemma OpenStep(w: World, w': World, k: nat)
    requires Inv(w) && Step(w, w', Run(k)) && w.procs[k].pc.Begin?
    ensures StepOk(w, w', k, w.procs[k], w'.procs[k])
  {
    hide NamesComplete, Keeps, FinalName, IsTemp;
    var pc' := w'.procs[k].pc;
    if pc'.Opened? {
      CreateKeeps(w.disk, w.procs, pc'.t, pc'.i);
      forall l | l in w.procs && l != k ensures Spares(w.disk, w'.disk, w.procs[l]) {
        assert PcOk(w, w.procs[l]);
      }
    } else {
      SameKeeps(w.disk);
    }
  }

  lemma SameKeeps(d: Disk)
    ensures Keeps(d, d)
  {
  }

  lemma FileStep(w: World, w': World, k: nat)
    requires Inv(w) && Step(w, w', Run(k)) && Writing(w.procs[k])
    ensures StepOk(w, w', k, w.procs[k], w'.procs[k])
  {
    hide NamesComplete, Keeps, FinalName, IsTemp, WritersApart;
    var p := w.procs[k];
    assert PcOk(w, p);
    if w'.disk == w.disk {
      SameKeeps(w.disk);
    } else {
      var f := w'.disk.files[p.pc.i];
      assert w'.disk == WriteFile(w.disk, p.pc.i, f);
      WriteKeeps(w.disk, w.procs, p.pc.i, f);
      SpareOthers(w, k, p.pc.i, f);
    }
  }

  lemma LinkStep(w: World, w': World, k: nat)
    requires Inv(w) && Step(w, w', Run(k)) && (w.procs[k].pc.Flushed? || w.procs[k].pc.Closed?)
    ensures StepOk(w, w', k, w.procs[k], w'.procs[k])
  {
    hide NamesComplete, Keeps, FinalName, IsTemp, WritersApart;
    var p := w.procs[k];
    assert PcOk(w, p);
    var name := FinalName(p.call.id);
    NamesAreApart(p.call.id, p.call.id);
    if w'.disk == w.disk {
      SameKeeps(w.disk);
    } else {
      assert w'.disk == SetEntry(w.disk, name, Some(p.pc.i));
      assert Asked(w.procs, name, p.call.content);
      LinkKeeps(w.disk, w.procs, name, p.pc.i);
      forall l | l in w.procs && l != k ensures Spares(w.disk, w'.disk, w.procs[l]) {
        assert PcOk(w, w.procs[l]);
      }
    }
  }

  lemma SyncStep(w: World, w': World, k: nat)
    requires Inv(w) && Step(w, w', Run(k)) && (w.procs[k].pc.Linked? || w.procs[k].pc.Matched?)
    ensures StepOk(w, w', k, w.procs[k], w'.procs[k])
  {
    hide NamesComplete, Keeps, FinalName, IsTemp, WritersApart, Holds, Durable;
    var p := w.procs[k];
    assert PcOk(w, p);
    SameKeeps(w.disk);
    SyncKeeps(w.disk, w.procs);
    if Holds(w.disk, FinalName(p.call.id), p.call.content) {
      SyncMakesDurable(w.disk, FinalName(p.call.id), p.call.content);
    }
  }

  lemma ReadStep(w: World, w': World, k: nat)
    requires Inv(w) && Step(w, w', Run(k))
    requires w.procs[k].pc.DirSynced? || w.procs[k].pc.Existing? || w.procs[k].pc.Converged?
    ensures StepOk(w, w', k, w.procs[k], w'.procs[k])
  {
    hide NamesComplete, Keeps, FinalName, IsTemp, WritersApart, Durable;
    var p := w.procs[k];
    assert PcOk(w, p);
    SameKeeps(w.disk);
    NamesAreApart(p.call.id, p.call.id);
    if p.pc.Existing? && ReadsAs(w.disk, FinalName(p.call.id), p.call.content) {
      VisibleIsSynced(w, FinalName(p.call.id));
    }
  }

  lemma VisibleIsSynced(w: World, name: string)
    requires Inv(w) && !IsTemp(name) && name in w.disk.dir
    ensures w.disk.dir[name] in w.disk.files && w.disk.files[w.disk.dir[name]].synced
    ensures Asked(w.procs, name, w.disk.files[w.disk.dir[name]].bytes)
  {
    hide Asked, PcOk, WritersApart, IsTemp;
    assert Some(w.disk.dir[name]) in Possible(w.disk, name) by {
      assert Entry(w.disk, name) in Possible(w.disk, name);
    }
  }

  lemma DropStep(w: World, w': World, k: nat)
    requires Inv(w) && Step(w, w', Run(k)) && w.procs[k].pc.Drop?
    ensures StepOk(w, w', k, w.procs[k], w'.procs[k])
  {
    hide NamesComplete, Keeps, FinalName, IsTemp, WritersApart, Durable;
    var p := w.procs[k];
    assert PcOk(w, p);
    SameKeeps(w.disk);
    UnlinkKeepsComplete(w.disk, w.procs, p.pc.t);
    NamesAreApart(p.call.id, p.call.id);
    HoldsKept(w.disk, w'.disk, FinalName(p.call.id), p.call.content);
  }

  lemma RunOk(w: World, w': World, k: nat)
    requires Inv(w) && Step(w, w', Run(k))
    ensures StepOk(w, w', k, w.procs[k], w'.procs[k])
  {
    hide Inv, StepOk, FinalName, IsTemp;
    match w.procs[k].pc
    case Begin => OpenStep(w, w', k);
    case Opened(_, _) => FileStep(w, w', k);
    case Written(_, _) => FileStep(w, w', k);
    case Flushed(_, _) => LinkStep(w, w', k);
    case Closed(_, _) => LinkStep(w, w', k);
    case Linked(_, _) => SyncStep(w, w', k);
    case Matched(_) => SyncStep(w, w', k);
    case DirSynced(_, _) => ReadStep(w, w', k);
    case Existing => ReadStep(w, w', k);
    case Converged(_) => ReadStep(w, w', k);
    case Drop(_, _) => DropStep(w, w', k);
  }

  lemma RunInv(w: World, w': World, k: nat)
    requires Inv(w) && Step(w, w', Run(k))
    ensures Inv(w')
  {
    hide NamesComplete, Keeps, PcOk, Spares, PutStep, EnsureStep;
    RunOk(w, w', k);
    CompleteStays(w'.disk, w.procs, w'.procs);
    UsedGrows(w, w', k);
    forall l | l in w'.procs ensures PcOk(w', w'.procs[l]) {
      if l != k {
        PcKept(w, w', w.procs[l]);
      }
    }
    forall l | l in w.procs && l != k && Writing(w.procs[l]) && Writing(w'.procs[k])
      ensures w.procs[l].pc.i != w'.procs[k].pc.i
    {
      WriterHasFile(w, w.procs[l]);
    }
  }

  lemma UsedGrows(w: World, w': World, k: nat)
    requires Step(w, w', Run(k))
    ensures w.used <= w'.used
  {
  }

  lemma WriterHasFile(w: World, p: Proc)
    requires PcOk(w, p) && Writing(p)
    ensures p.pc.i in w.disk.files
  {
  }

  // ---------------------------------------------------------- other steps

  lemma UnlinkInv(w: World, w': World, name: string)
    requires Inv(w) && Step(w, w', Unlink(name))
    ensures Inv(w')
  {
    hide NamesComplete, FinalName;
    UnlinkKeepsComplete(w.disk, w.procs, name);
    forall k | k in w.procs ensures PcOk(w', w.procs[k]) {
      assert PcOk(w, w.procs[k]);
      UnlinkPc(w, w', w.procs[k], name);
    }
  }

  lemma UnlinkPc(w: World, w': World, p: Proc, name: string)
    requires PcOk(w, p)
    requires w' == w.(disk := SetEntry(w.disk, name, None), removals := w.removals[name := Removals(w, name) + 1])
    ensures PcOk(w', p)
  {
    hide FinalName;
    assert FinalName(p.call.id) != name ==>
        (Holds(w.disk, FinalName(p.call.id), p.call.content) <==> Holds(w'.disk, FinalName(p.call.id), p.call.content));
    assert FinalName(p.call.id) != name ==> Possible(w'.disk, FinalName(p.call.id)) == Possible(w.disk, FinalName(p.call.id));
  }

  lemma CrashInv(w: World, w': World)
    requires Inv(w) && Step(w, w', Crash)
    ensures Inv(w')
  {
    hide NamesComplete, FinalName, Durable, CrashLeaves;
    forall k | k in w'.procs ensures PcOk(w', w'.procs[k]) {
      assert PcOk(w, w.procs[k]);
      CrashKeeps(w.disk, w'.disk, w.procs, FinalName(w.procs[k].call.id), w.procs[k].call.content);
    }
    CrashKeeps(w.disk, w'.disk, w.procs, "", "");
    CompleteStays(w'.disk, w.procs, w'.procs);
  }

  lemma QuietInv(w: World, w': World, a: Action)
    requires Inv(w) && Step(w, w', a) && (a.Start? || a.Kill?)
    ensures Inv(w')
  {
    hide NamesComplete, Holds, Durable, FinalName;
    CompleteStays(w.disk, w.procs, w'.procs);
    forall k | k in w'.procs ensures PcOk(w', w'.procs[k]) {
      if k in w.procs {
        assert PcOk(w, w.procs[k]);
      }
    }
  }

  lemma {:induction false} ReachableInv(run: seq<World>, actions: seq<Action>, i: nat)
    requires Execution(run, actions) && i < |run|
    ensures Inv(run[i])
  {
    hide Inv, Step;
    if i == 0 {
      InitInv(run[0]);
    } else {
      ReachableInv(run, actions, i - 1);
      var w, w', a := run[i - 1], run[i], actions[i - 1];
      match a
      case Run(k) => RunInv(w, w', k);
      case Unlink(name) => UnlinkInv(w, w', name);
      case Crash => CrashInv(w, w');
      case _ => QuietInv(w, w', a);
    }
  }

  lemma InitInv(w: World)
    requires Init(w)
    ensures Inv(w)
  {
  }

  // ----------------------------------------------------------------- theorems

  /**
   In every reachable state, after any number of crashes, a visible capability
   holds the complete content of some publication under its id.
   */
  lemma VisibleIsComplete(run: seq<World>, actions: seq<Action>, i: nat, id: string)
    requires Execution(run, actions) && i < |run| && ValidId(id) && FinalName(id) in run[i].disk.dir
    ensures exists k :: k in run[i].procs && run[i].procs[k].call.id == id &&
                        ReadsAs(run[i].disk, FinalName(id), run[i].procs[k].call.content)
  {
    hide Inv, Step, FinalName;
    ReachableInv(run, actions, i);
    NamesAreApart(id, id);
    VisibleIsSynced(run[i], FinalName(id));
    var d, name := run[i].disk, FinalName(id);
    var k :| k in run[i].procs && FinalName(run[i].procs[k].call.id) == name &&
             run[i].procs[k].call.content == d.files[d.dir[name]].bytes;
    NamesAreApart(id, run[i].procs[k].call.id);
  }

  predicate Reported(w: World, k: nat) {
    k in w.procs && w.procs[k].pc.Done? && w.procs[k].pc.ok
  }

  /** The capability was not removed since the invocation linked it or first read it. */
  predicate Unremoved(w: World, k: nat)
    requires Reported(w, k)
  {
    w.procs[k].pc.mark == Removals(w, FinalName(w.procs[k].call.id))
  }

  /**
   Once Put or Ensure has reported success, and for as long as nobody removes
   the capability, it reads back as published, now and after any crash.
   */
  lemma SuccessIsDurable(run: seq<World>, actions: seq<Action>, i: nat, k: nat, crashed: Disk)
    requires Execution(run, actions) && i < |run| && Reported(run[i], k) && Unremoved(run[i], k)
    requires CrashLeaves(run[i].disk, crashed)
    ensures var call := run[i].procs[k].call;
            ReadsAs(run[i].disk, FinalName(call.id), call.content) && ReadsAs(crashed, FinalName(call.id), call.content)
  {
    hide Step, FinalName, CrashLeaves;
    ReachableInv(run, actions, i);
    var call := run[i].procs[k].call;
    assert PcOk(run[i], run[i].procs[k]);
    CrashKeeps(run[i].disk, crashed, run[i].procs, FinalName(call.id), call.content);
    var d := run[i].disk;
    assert Entry(d, FinalName(call.id)) in Possible(d, FinalName(call.id));
  }

  /** Reports of different content under one id have a removal between them. */
  lemma OneContentPerId(run: seq<World>, actions: seq<Action>, i: nat, k: nat, l: nat)
    requires Execution(run, actions) && i < |run| && Reported(run[i], k) && Reported(run[i], l)
    requires Unremoved(run[i], k) && Unremoved(run[i], l)
    requires run[i].procs[k].call.id == run[i].procs[l].call.id
    ensures run[i].procs[k].call.content == run[i].procs[l].call.content
  {
    hide Step, FinalName, NamesComplete, WritersApart;
    ReachableInv(run, actions, i);
    assert PcOk(run[i], run[i].procs[k]) && PcOk(run[i], run[i].procs[l]);
    SameDurable(run[i].disk, FinalName(run[i].procs[k].call.id), run[i].procs[k].call.content, run[i].procs[l].call.content);
  }

  lemma SameDurable(d: Disk, name: string, a: string, b: string)
    requires Durable(d, name, a) && Durable(d, name, b)
    ensures a == b
  {
    var i :| Possible(d, name) == {Some(i)} && i in d.files && d.files[i] == File(a, true);
    var j :| Possible(d, name) == {Some(j)} && j in d.files && d.files[j] == File(b, true);
    assert Some(i) in {Some(j)};
  }

  /**
   Without that proviso the promise fails. Whenever Ensure stands between its
   directory sync and its re-read while another publisher of the same content
   stands before its link, a removal in between lets Ensure report success on a
   link nobody has synced, and a crash can lose the capability.
   */
  lemma RelinkedSuccessCanBeLost(w: World, k: nat, l: nat)
    returns (w1: World, w2: World, w3: World, crashed: Disk)
    requires Inv(w) && k in w.procs && l in w.procs && k != l
    requires w.procs[k].pc.Converged? && w.procs[l].pc.Closed? && w.procs[l].pc.t in w.disk.dir
    requires w.procs[l].call.id == w.procs[k].call.id && w.procs[l].call.content == w.procs[k].call.content
    ensures var name := FinalName(w.procs[k].call.id);
            && Step(w, w1, Unlink(name)) && Step(w1, w2, Run(l)) && Step(w2, w3, Run(k))
            && w3.procs[k].call == w.procs[k].call && Reported(w3, k) && !Unremoved(w3, k)
            && ReadsAs(w3.disk, name, w.procs[k].call.content)
            && CrashLeaves(w3.disk, crashed) && name !in crashed.dir
  {
    hide WritersApart, Asked;
    var p, q := w.procs[k], w.procs[l];
    var name := FinalName(p.call.id);
    assert PcOk(w, q);
    NamesAreApart(q.call.id, p.call.id);
    w1 := w.(disk := SetEntry(w.disk, name, None), removals := w.removals[name := Removals(w, name) + 1]);
    w2 := w1.(disk := SetEntry(w1.disk, name, Some(q.pc.i)),
              procs := w1.procs[l := q.(pc := Linked(q.pc.t, Removals(w1, name)))]);
    w3 := w2.(procs := w2.procs[k := p.(pc := Done(true, p.pc.mark))]);
    RelinkSteps(w, w1, w2, w3, k, l, name);
    SetEntryIs(w.disk, name, None);
    SetEntryIs(w1.disk, name, Some(q.pc.i));
    crashed := UnsyncedEntryIsLost(w3.disk, name);
  }

  /** A crash may forget a name no directory sync has recorded, and keep everything else. */
  lemma UnsyncedEntryIsLost(d: Disk, name: string) returns (crashed: Disk)
    requires None in Possible(d, name) && forall n | n != name :: Entry(d, n) in Possible(d, n)
    ensures CrashLeaves(d, crashed) && name !in crashed.dir
  {
    hide Possible;
    crashed := Disk(map i | i in d.files :: File(d.files[i].bytes, true), d.dir - {name}, map[]);
    forall n ensures Entry(crashed, n) in Possible(d, n) {
      assert n != name ==> Entry(crashed, n) == Entry(d, n);
    }
  }

  lemma RelinkSteps(w: World, w1: World, w2: World, w3: World, k: nat, l: nat, name: string)
    requires k in w.procs && l in w.procs && k != l && PcOk(w, w.procs[l])
    requires w.procs[k].pc.Converged? && w.procs[l].pc.Closed? && w.procs[l].pc.t in w.disk.dir
    requires w.procs[l].call.id == w.procs[k].call.id && w.procs[l].call.content == w.procs[k].call.content
    requires name == FinalName(w.procs[k].call.id) && !IsTemp(name)
    requires w1 == w.(disk := SetEntry(w.disk, name, None), removals := w.removals[name := Removals(w, name) + 1])
    requires var q := w.procs[l];
             w2 == w1.(disk := SetEntry(w1.disk, name, Some(q.pc.i)),
                       procs := w1.procs[l := q.(pc := Linked(q.pc.t, Removals(w1, name)))])
    requires w3 == w2.(procs := w2.procs[k := w.procs[k].(pc := Done(true, w.procs[k].pc.mark))])
    ensures Step(w, w1, Unlink(name)) && Step(w1, w2, Run(l)) && Step(w2, w3, Run(k))
    ensures ReadsAs(w3.disk, name, w.procs[k].call.content)
  {
    hide FinalName, IsTemp;
    var q := w.procs[l];
    assert w1.disk.dir[q.pc.t] == q.pc.i && name !in w1.disk.dir;
    assert PutStep(w1, q.call, q.pc, w2.disk, w2.used, w2.procs[l].pc);
    assert ReadsAs(w2.disk, name, q.call.content);
    assert EnsureStep(w2, w.procs[k].call, w.procs[k].pc, w3.disk, w3.procs[k].pc);
  }
}
