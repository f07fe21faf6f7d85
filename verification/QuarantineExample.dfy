/**
 A run from an empty directory in which Ensure reports success and a crash then
 loses the capability: three publishers of one content, and one removal.
 */
module QuarantineExample {
  import opened Wrappers
  import opened Text
  import opened QuarantineCrash

  ghost predicate Reachable(w: World) {
    exists run, actions :: Execution(run, actions) && run[|run| - 1] == w
  }

  const EMPTY := World(Disk(map[], map[], map[]), {}, map[], map[])

  lemma StartIsReachable()
    ensures Reachable(EMPTY)
  {
    assert Execution([EMPTY], []) && [EMPTY][|[EMPTY]| - 1] == EMPTY;
  }

  lemma ReachesNext(w: World, w': World, a: Action)
    requires Reachable(w) && Step(w, w', a)
    ensures Reachable(w')
  {
    hide Step, Init;
    var run, actions :| Execution(run, actions) && run[|run| - 1] == w;
    var run', actions' := run + [w'], actions + [a];
    forall i | 0 <= i < |actions'| ensures Step(run'[i], run'[i + 1], actions'[i]) {
      if i < |actions| {
        assert run'[i] == run[i] && run'[i + 1] == run[i + 1] && actions'[i] == actions[i];
      }
    }
    assert Execution(run', actions') && run'[|run'| - 1] == w';
  }

  lemma ReachableIsInv(w: World)
    requires Reachable(w)
    ensures Inv(w)
  {
    hide Inv, Step, Init;
    var run, actions :| Execution(run, actions) && run[|run| - 1] == w;
    ReachableInv(run, actions, |run| - 1);
  }

  /** Process `k`, already started, makes one step that neither fails nor changes the names in use. */
  lemma ReachesRun(w: World, k: nat, d': Disk, used': set<string>, pc': Pc) returns (w': World)
    requires Reachable(w) && k in w.procs
    requires var call, pc := w.procs[k].call, w.procs[k].pc;
             PutStep(w, call, pc, d', used', pc') || (used' == w.used && EnsureStep(w, call, pc, d', pc'))
    ensures w' == World(d', used', w.removals, w.procs[k := Proc(w.procs[k].call, pc')]) && Reachable(w')
  {
    hide Reachable, PutStep, EnsureStep;
    w' := World(d', used', w.removals, w.procs[k := Proc(w.procs[k].call, pc')]);
    ReachesNext(w, w', Run(k));
  }

  /** A private file holding the whole content, flushed, under its private name. */
  function Staged(d: Disk, t: string, i: nat, content: string): Disk {
    Disk(d.files[i := File(content, true)], d.dir[t := i], d.maybe[t := Possible(d, t) + {Some(i)}])
  }

  lemma ReachesOpened(w: World, k: nat, call: Call, t: string, i: nat) returns (w': World)
    requires Reachable(w) && k !in w.procs && ValidId(call.id)
    requires IsTemp(t) && t !in w.used && t !in w.disk.dir && i !in w.disk.files
    ensures Reachable(w')
    ensures w' == World(SetEntry(WriteFile(w.disk, i, File("", false)), t, Some(i)), w.used + {t}, w.removals,
                        w.procs[k := Proc(call, Opened(t, i))])
  {
    hide Reachable, IsTemp, ValidId, FinalName;
    var w0 := w.(procs := w.procs[k := Proc(call, Begin)]);
    ReachesNext(w, w0, Start(k));
    w' := ReachesRun(w0, k, SetEntry(WriteFile(w.disk, i, File("", false)), t, Some(i)), w.used + {t}, Opened(t, i));
    assert w'.procs == w.procs[k := Proc(call, Opened(t, i))];
  }

  /** Any publisher can get as far as its link. */
  lemma ReachesClosed(w: World, k: nat, call: Call, t: string, i: nat) returns (w': World)
    requires Reachable(w) && k !in w.procs && ValidId(call.id)
    requires IsTemp(t) && t !in w.used && t !in w.disk.dir && i !in w.disk.files
    ensures Reachable(w')
    ensures w' == World(Staged(w.disk, t, i, call.content), w.used + {t}, w.removals, w.procs[k := Proc(call, Closed(t, i))])
  {
    hide Reachable, IsTemp, ValidId, FinalName, EnsureStep, SetEntry;
    var w1 := ReachesOpened(w, k, call, t, i);
    var w2 := ReachesRun(w1, k, WriteFile(w1.disk, i, File(call.content, false)), w1.used, Written(t, i));
    var w3 := ReachesRun(w2, k, WriteFile(w2.disk, i, File(call.content, true)), w2.used, Flushed(t, i));
    w' := ReachesRun(w3, k, w3.disk, w3.used, Closed(t, i));
    StagedIs(w.disk, t, i, call.content);
    assert w'.procs == w.procs[k := Proc(call, Closed(t, i))];
  }

  lemma StagedIs(d: Disk, t: string, i: nat, content: string)
    ensures var created := SetEntry(WriteFile(d, i, File("", false)), t, Some(i));
            i in created.files &&
            WriteFile(WriteFile(created, i, File(content, false)), i, File(content, true)) == Staged(d, t, i, content)
  {
    assert d.files[i := File("", false)][i := File(content, false)][i := File(content, true)]
        == d.files[i := File(content, true)];
  }

  /** One publisher has linked the name; nothing else has happened. */
  lemma ReachesLinked(id: string, content: string) returns (w: World)
    requires ValidId(id)
    ensures Reachable(w) && 0 in w.procs && w.procs.Keys == {0} && w.removals == map[]
    ensures w.used == {TEMP_PREFIX + "0"} && w.disk.files == map[0 := File(content, true)]
    ensures w.disk.dir == map[TEMP_PREFIX + "0" := 0, FinalName(id) := 0]
  {
    hide Reachable, ValidId, IsTemp, FinalName;
    var t := TEMP_PREFIX + "0";
    PrivateNames(id);
    StartIsReachable();
    var w0 := ReachesClosed(EMPTY, 0, Call(id, content, false), t, 0);
    w := ReachesRun(w0, 0, SetEntry(w0.disk, FinalName(id), Some(0)), w0.used, Linked(t, 0));
  }

  lemma PrivateNames(id: string)
    requires ValidId(id)
    ensures forall t | t in [TEMP_PREFIX + "0", TEMP_PREFIX + "1", TEMP_PREFIX + "2"] :: IsTemp(t) && t != FinalName(id)
    ensures TEMP_PREFIX + "0" != TEMP_PREFIX + "1" && TEMP_PREFIX + "0" != TEMP_PREFIX + "2"
    ensures TEMP_PREFIX + "1" != TEMP_PREFIX + "2"
  {
    hide ValidId, FinalName;
    NamesAreApart(id, id);
    var n := |TEMP_PREFIX|;
    assert (TEMP_PREFIX + "0")[n] == '0' && (TEMP_PREFIX + "1")[n] == '1' && (TEMP_PREFIX + "2")[n] == '2';
  }

  /** A second publisher of the same content has found the name taken and dropped its own file. */
  lemma ReachesExisting(id: string, content: string) returns (w: World)
    requires ValidId(id)
    ensures Reachable(w) && w.procs.Keys == {0, 1} && w.removals == map[]
    ensures w.procs[1] == Proc(Call(id, content, true), Existing)
    ensures w.used == {TEMP_PREFIX + "0", TEMP_PREFIX + "1"} && w.disk.files.Keys == {0, 1}
    ensures w.disk.dir == map[TEMP_PREFIX + "0" := 0, FinalName(id) := 0] && ReadsAs(w.disk, FinalName(id), content)
  {
    hide Reachable, ValidId, IsTemp, FinalName;
    var t := TEMP_PREFIX + "1";
    PrivateNames(id);
    var w0 := ReachesLinked(id, content);
    var w1 := ReachesClosed(w0, 1, Call(id, content, true), t, 1);
    var w2 := ReachesRun(w1, 1, w1.disk, w1.used, Drop(t, AlreadyThere));
    w := ReachesRun(w2, 1, SetEntry(w2.disk, t, None), w2.used, Existing);
    assert w.disk.dir == w0.disk.dir;
  }

  /** A second publisher, by Ensure, stands between its directory sync and its re-read. */
  lemma ReachesConverged(id: string, content: string) returns (w: World)
    requires ValidId(id)
    ensures Reachable(w) && w.procs.Keys == {0, 1} && w.removals == map[]
    ensures w.procs[1] == Proc(Call(id, content, true), Converged(0))
    ensures w.used == {TEMP_PREFIX + "0", TEMP_PREFIX + "1"} && w.disk.files.Keys == {0, 1}
    ensures w.disk.dir == map[TEMP_PREFIX + "0" := 0, FinalName(id) := 0]
  {
    hide Reachable, ValidId, IsTemp, FinalName;
    PrivateNames(id);
    var w3 := ReachesExisting(id, content);
    var w4 := ReachesRun(w3, 1, w3.disk, w3.used, Matched(0));
    w := ReachesRun(w4, 1, SyncDirectory(w4.disk), w4.used, Converged(0));
  }

  /** Ensure has reported success for the id, the capability was removed meanwhile, and a crash loses it. */
  lemma SuccessIsLost(id: string, content: string) returns (w: World, crashed: Disk)
    requires ValidId(id)
    ensures Reachable(w) && Reported(w, 1) && w.procs[1].call == Call(id, content, true) && !Unremoved(w, 1)
    ensures ReadsAs(w.disk, FinalName(id), content)
    ensures CrashLeaves(w.disk, crashed) && FinalName(id) !in crashed.dir
  {
    hide Reachable, ValidId, IsTemp, FinalName, Inv, CrashLeaves, Step, ReadsAs, SetEntry, Unremoved, Reported;
    var t := TEMP_PREFIX + "2";
    PrivateNames(id);
    var w0 := ReachesConverged(id, content);
    var w1 := ReachesClosed(w0, 2, Call(id, content, false), t, 2);
    ReachableIsInv(w1);
    var w2, w3, w4, lost := RelinkedSuccessCanBeLost(w1, 1, 2);
    ReachesNext(w1, w2, Unlink(FinalName(id)));
    ReachesNext(w2, w3, Run(2));
    ReachesNext(w3, w4, Run(1));
    w, crashed := w4, lost;
  }
}
