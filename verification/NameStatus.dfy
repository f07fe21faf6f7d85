/**
 What Git's `diff-tree --name-status -z` prints, and the loops that read it
 back. The rest of the model works on the set of changed paths; here the token
 loops are shown to find exactly that set.
 */
module NameStatus {
  import opened Wrappers
  import opened Text
  import opened Git
  import opened Sorting
  import opened LedgerReplay

  datatype Change = Change(status: string, path: string)

  /** Statuses and paths in turn; empty tokens between records are skipped. */
  function Pairs(tokens: seq<string>): Option<seq<Change>> {
    if tokens == [] then Some([])
    else if tokens[0] == "" then Pairs(tokens[1..])
    else if |tokens| < 2 || tokens[1] == "" then None
    else
      match Pairs(tokens[2..])
      case None => None
      case Some(rest) => Some([Change(tokens[0], tokens[1])] + rest)
  }

  function Prefixed(done: seq<Change>, rest: Option<seq<Change>>): Option<seq<Change>> {
    match rest
    case None => None
    case Some(more) => Some(done + more)
  }

  lemma PairsStep(tokens: seq<string>, i: nat, done: seq<Change>)
    requires i < |tokens|
    ensures tokens[i] == "" ==> Pairs(tokens[i..]) == Pairs(tokens[i + 1..])
    ensures tokens[i] != "" && (i + 1 >= |tokens| || tokens[i + 1] == "") ==> Pairs(tokens[i..]) == None
    ensures tokens[i] != "" && i + 1 < |tokens| && tokens[i + 1] != "" ==>
              Prefixed(done, Pairs(tokens[i..]))
              == Prefixed(done + [Change(tokens[i], tokens[i + 1])], Pairs(tokens[i + 2..]))
  {
    var s := tokens[i..];
    assert s[0] == tokens[i] && s[1..] == tokens[i + 1..];
    if i + 1 < |tokens| {
      assert s[1] == tokens[i + 1] && s[2..] == tokens[i + 2..];
    }
    if tokens[i] != "" && i + 1 < |tokens| && tokens[i + 1] != "" && Pairs(tokens[i + 2..]).Some? {
      var c, more := Change(tokens[i], tokens[i + 1]), Pairs(tokens[i + 2..]).value;
      assert done + ([c] + more) == done + [c] + more;
    }
  }

  function Paths(changes: seq<Change>): (r: seq<string>)
    ensures |r| == |changes| && forall i | 0 <= i < |r| :: r[i] == changes[i].path
  {
    seq(|changes|, i requires 0 <= i < |changes| => changes[i].path)
  }

  predicate IsAddition(dir: string, regular: string -> bool, c: Change) {
    c.status == "A" && HasPrefix(c.path, dir + "/") && HasSuffix(c.path, ".json") && regular(c.path)
  }

  /** What ImmutableJSONAdditions and EventAdditions make of the output. */
  function Additions(tokens: seq<string>, dir: string, regular: string -> bool): Option<seq<string>> {
    match Pairs(tokens)
    case None => None
    case Some(changes) =>
      if forall c | c in changes :: IsAddition(dir, regular, c) then Some(SortStrings(Paths(changes))) else None
  }

  /** The loop: every record must add a JSON file beneath `dir`, of a kind the caller checks. */
  method ParseAdditions(tokens: seq<string>, dir: string, regular: string -> bool) returns (r: Option<seq<string>>)
    ensures r == Additions(tokens, dir, regular)
  {
    hide Pairs, SortStrings;
    var paths: seq<string> := [];
    ghost var done: seq<Change> := [];
    var i := 0;
    assert tokens[0..] == tokens;
    PrefixedNothing(Pairs(tokens));
    while i < |tokens|
      invariant i <= |tokens| && paths == Paths(done)
      invariant Pairs(tokens) == Prefixed(done, Pairs(tokens[i..]))
      invariant forall c | c in done :: IsAddition(dir, regular, c)
    {
      PairsStep(tokens, i, done);
      if tokens[i] == "" {
        i := i + 1;
        continue;
      }
      var status := tokens[i];
      i := i + 1;
      if i >= |tokens| || tokens[i] == "" {
        return None;
      }
      var path := tokens[i];
      i := i + 1;
      ghost var c := Change(status, path);
      if status != "A" || !HasPrefix(path, dir + "/") || !HasSuffix(path, ".json") || !regular(path) {
        BadRecord(tokens, dir, regular, done, c, Pairs(tokens[i..]));
        return None;
      }
      paths := paths + [path];
      done := done + [c];
    }
    assert tokens[i..] == [];
    PairsOfNothing();
    assert done + [] == done;
    return Some(SortStrings(paths));
  }

  lemma PrefixedNothing(rest: Option<seq<Change>>)
    ensures Prefixed([], rest) == rest
  {
    if rest.Some? {
      assert [] + rest.value == rest.value;
    }
  }

  lemma PairsOfNothing()
    ensures Pairs([]) == Some([])
  {
  }

  lemma BadRecord(
    tokens: seq<string>, dir: string, regular: string -> bool, done: seq<Change>, c: Change, rest: Option<seq<Change>>)
    requires Pairs(tokens) == Prefixed(done + [c], rest) && !IsAddition(dir, regular, c)
    ensures Additions(tokens, dir, regular) == None
  {
    if rest.Some? {
      assert (done + [c] + rest.value)[|done|] == c;
    }
  }

  /** CommitTreeChanges: every change, by path then status; a rename or copy is refused. */
  predicate InOrder(x: Change, y: Change) {
    if x.path == y.path then Leq(x.status, y.status) else Leq(x.path, y.path)
  }

  function TreeChanges(tokens: seq<string>): Option<seq<Change>> {
    match Pairs(tokens)
    case None => None
    case Some(changes) =>
      if forall c | c in changes :: !ContainsAny(c.status, "RC") then Some(Sort(changes, InOrder)) else None
  }

  method ParseTreeChanges(tokens: seq<string>) returns (r: Option<seq<Change>>)
    ensures r == TreeChanges(tokens)
  {
    hide Pairs, Sort, ContainsAny;
    var changes: seq<Change> := [];
    var i := 0;
    assert tokens[0..] == tokens;
    PrefixedNothing(Pairs(tokens));
    while i < |tokens|
      invariant i <= |tokens| && Pairs(tokens) == Prefixed(changes, Pairs(tokens[i..]))
      invariant forall c | c in changes :: !ContainsAny(c.status, "RC")
    {
      PairsStep(tokens, i, changes);
      if tokens[i] == "" {
        i := i + 1;
        continue;
      }
      var status := tokens[i];
      i := i + 1;
      if i >= |tokens| || tokens[i] == "" {
        return None;
      }
      var path := tokens[i];
      i := i + 1;
      if ContainsAny(status, "RC") {
        RenamedRecord(tokens, changes, Change(status, path), Pairs(tokens[i..]));
        return None;
      }
      changes := changes + [Change(status, path)];
    }
    assert tokens[i..] == [];
    PairsOfNothing();
    assert changes + [] == changes;
    return Some(Sort(changes, InOrder));
  }

  lemma RenamedRecord(tokens: seq<string>, done: seq<Change>, c: Change, rest: Option<seq<Change>>)
    requires Pairs(tokens) == Prefixed(done + [c], rest) && ContainsAny(c.status, "RC")
    ensures TreeChanges(tokens) == None
  {
    hide ContainsAny;
    if rest.Some? {
      assert (done + [c] + rest.value)[|done|] == c;
    }
  }

  // ------------------------------------------------------- what Git prints

  /** One letter a changed path; T is a change between a file and something else, or between two such. */
  function StatusOf(c: Commit, p: string): string {
    if p !in Base(c) then "A"
    else if p !in c.tree then "D"
    else if Kind(c.tree[p].mode) != Kind(Base(c)[p].mode) then "T"
    else "M"
  }

  /** Git tells files apart from other entries; a change of the executable bit alone is a modification. */
  function Kind(m: Mode): Mode {
    if m == Executable then Plain else m
  }

  function Record(c: Commit, p: string): Change {
    Change(StatusOf(c, p), p)
  }

  function Records(c: Commit, paths: seq<string>): (r: seq<Change>)
    ensures |r| == |paths| && forall i | 0 <= i < |r| :: r[i] == Record(c, paths[i])
  {
    if paths == [] then [] else [Record(c, paths[0])] + Records(c, paths[1..])
  }

  /** The NUL-separated output, split: a final empty token follows the last record. */
  function Printed(c: Commit, paths: seq<string>): seq<string> {
    if paths == [] then [""] else [StatusOf(c, paths[0]), paths[0]] + Printed(c, paths[1..])
  }

  lemma {:induction false} PrintedReadsBack(c: Commit, paths: seq<string>)
    requires "" !in paths
    ensures Pairs(Printed(c, paths)) == Some(Records(c, paths))
  {
    if paths == [] {
      assert [""][1..] == [];
    } else {
      PrintedReadsBack(c, paths[1..]);
      var t := Printed(c, paths);
      assert t[0] == StatusOf(c, paths[0]) && t[1] == paths[0] && t[2..] == Printed(c, paths[1..]);
      assert t[1] in paths;
    }
  }

  /** The paths of a set, each once, in whatever order Git walks them. */
  ghost predicate Enumerates(paths: seq<string>, s: set<string>) {
    (forall p :: p in paths <==> p in s) && forall i, j | 0 <= i < j < |paths| :: paths[i] != paths[j]
  }

  lemma {:induction false} SameElements(a: seq<string>, b: seq<string>)
    requires forall p :: p in a <==> p in b
    requires forall i, j | 0 <= i < j < |a| :: a[i] != a[j]
    requires forall i, j | 0 <= i < j < |b| :: b[i] != b[j]
    ensures multiset(a) == multiset(b)
  {
    forall p ensures multiset(a)[p] == multiset(b)[p] {
      OnceAtMost(a, p);
      OnceAtMost(b, p);
      assert p in multiset(a) <==> p in a;
      assert p in multiset(b) <==> p in b;
    }
  }

  lemma {:induction false} OnceAtMost(a: seq<string>, p: string)
    requires forall i, j | 0 <= i < j < |a| :: a[i] != a[j]
    ensures multiset(a)[p] <= 1
  {
    if a != [] {
      OnceAtMost(a[1..], p);
      assert a == [a[0]] + a[1..];
      assert a[0] !in a[1..];
    }
  }

  lemma SortedEnumeration(paths: seq<string>, s: set<string>)
    requires Enumerates(paths, s)
    ensures SortStrings(paths) == SortedPaths(s)
  {
    var sorted := SortedPaths(s);
    SameElements(paths, sorted);
    LeqIsTotal();
    SortIgnoresOrder(paths, sorted, Leq);
    SortIsIdempotent(sorted, Leq);
  }

  lemma PathsOfRecords(c: Commit, paths: seq<string>)
    ensures Paths(Records(c, paths)) == paths
    ensures forall r :: r in Records(c, paths) <==> r.path in paths && r == Record(c, r.path)
  {
    forall r ensures r in Records(c, paths) <==> r.path in paths && r == Record(c, r.path) {
      if r.path in paths && r == Record(c, r.path) {
        var i :| 0 <= i < |paths| && paths[i] == r.path;
        assert Records(c, paths)[i] == r;
      }
    }
  }

  /** Read off Git's own output, the additions beneath a directory are those the model computes. */
  lemma AdditionsAreRead(c: Commit, dir: string, paths: seq<string>)
    requires Enumerates(paths, ChangedUnder(c, dir)) && "" !in paths
    ensures Additions(Printed(c, paths), dir, p => true) == ImmutableJsonAdditions(c, dir)
  {
    hide Printed, Pairs, Record, SortStrings, Under;
    PrintedReadsBack(c, paths);
    PathsOfRecords(c, paths);
    SortedEnumeration(paths, ChangedUnder(c, dir));
    AdditionChecks(c, dir, paths, p => true);
  }

  lemma AdditionChecks(c: Commit, dir: string, paths: seq<string>, regular: string -> bool)
    requires Enumerates(paths, ChangedUnder(c, dir))
    ensures (forall r | r in Records(c, paths) :: IsAddition(dir, regular, r))
       <==> (forall p | p in ChangedUnder(c, dir) ::
               Added(c, p) && HasPrefix(p, dir + "/") && HasSuffix(p, ".json") && regular(p))
  {
    PathsOfRecords(c, paths);
    forall p | p in ChangedUnder(c, dir)
      ensures Record(c, p) in Records(c, paths) && (Record(c, p).status == "A" <==> Added(c, p))
    {
    }
    assert forall r | r in Records(c, paths) :: r.path in ChangedUnder(c, dir) && r == Record(c, r.path);
  }

  /** And so for the events, whose files must be ordinary blobs as well. */
  lemma EventAdditionsAreRead(c: Commit, paths: seq<string>)
    requires Enumerates(paths, ChangedUnder(c, EVENTS)) && "" !in paths
    ensures Additions(Printed(c, paths), EVENTS, p => p in c.tree && c.tree[p].regular) == EventAdditions(c)
  {
    hide Printed, Pairs, Record, SortStrings, Under;
    var regular := p => p in c.tree && c.tree[p].regular;
    PrintedReadsBack(c, paths);
    PathsOfRecords(c, paths);
    SortedEnumeration(paths, ChangedUnder(c, EVENTS));
    AdditionChecks(c, EVENTS, paths, regular);
  }

  lemma NoRenames(c: Commit, p: string)
    ensures !ContainsAny(StatusOf(c, p), "RC")
  {
    var s := StatusOf(c, p);
    assert |s| == 1 && (s[0] == 'A' || s[0] == 'D' || s[0] == 'T' || s[0] == 'M');
  }

  /** The whole diff reads back, and judging its paths is judging the commit's namespace. */
  lemma NamespaceIsRead(c: Commit, paths: seq<string>)
    requires Enumerates(paths, Changed(c)) && "" !in paths
    ensures var changes := TreeChanges(Printed(c, paths));
            && changes.Some?
            && (forall r :: r in changes.value <==> r.path in Changed(c) && r == Record(c, r.path))
            && ((forall r | r in changes.value :: ValidLedgerPath(r.path)) <==> ValidNamespace(c))
  {
    hide Printed, Pairs, Changed, ValidLedgerPath, ContainsAny, StatusOf, Sort;
    PrintedReadsBack(c, paths);
    PathsOfRecords(c, paths);
    forall r | r in Records(c, paths) ensures !ContainsAny(r.status, "RC") {
      NoRenames(c, r.path);
    }
    var changes := TreeChanges(Printed(c, paths)).value;
    SortHasSame(Records(c, paths), InOrder);
    if forall r | r in changes :: ValidLedgerPath(r.path) {
      forall p | p in Changed(c) ensures ValidLedgerPath(p) {
        assert Record(c, p) in changes;
      }
    }
  }

  // ---------------------------------------------------------- what is read at all

  function Blanks(n: nat): seq<string> {
    if n == 0 then [] else [""] + Blanks(n - 1)
  }

  /** These records written one after another, with the given numbers of empty tokens before, between and after. */
  function Written(changes: seq<Change>, gaps: seq<nat>): seq<string>
    requires |gaps| == |changes| + 1
  {
    if changes == [] then Blanks(gaps[0])
    else Blanks(gaps[0]) + ([changes[0].status, changes[0].path] + Written(changes[1..], gaps[1..]))
  }

  predicate Spells(tokens: seq<string>, changes: seq<Change>, gaps: seq<nat>) {
    && |gaps| == |changes| + 1 && tokens == Written(changes, gaps)
    && forall i | 0 <= i < |changes| :: changes[i].status != "" && changes[i].path != ""
  }

  lemma BlankInFront(changes: seq<Change>, gaps: seq<nat>)
    requires |gaps| == |changes| + 1
    ensures Written(changes, [gaps[0] + 1] + gaps[1..]) == [""] + Written(changes, gaps)
  {
    var more, blanks := [gaps[0] + 1] + gaps[1..], Blanks(gaps[0]);
    assert more[1..] == gaps[1..] && Blanks(more[0]) == [""] + blanks;
    if changes != [] {
      var rest := [changes[0].status, changes[0].path] + Written(changes[1..], gaps[1..]);
      Regroup([""], blanks, rest);
    }
  }

  lemma Regroup(a: seq<string>, b: seq<string>, c: seq<string>)
    ensures (a + b) + c == a + (b + c)
  {
  }

  lemma RecordInFront(c: Change, changes: seq<Change>, gaps: seq<nat>)
    requires |gaps| == |changes| + 1
    ensures Written([c] + changes, [0] + gaps) == [c.status, c.path] + Written(changes, gaps)
  {
    assert ([c] + changes)[1..] == changes && ([0] + gaps)[1..] == gaps;
    assert Blanks(0) == [];
  }

  lemma {:induction false} PairsAreSpelt(tokens: seq<string>) returns (gaps: seq<nat>)
    requires Pairs(tokens).Some?
    ensures Spells(tokens, Pairs(tokens).value, gaps)
  {
    if tokens == [] {
      gaps := [0];
      assert Written([], gaps) == Blanks(0) == [];
    } else if tokens[0] == "" {
      var rest := PairsAreSpelt(tokens[1..]);
      BlankInFront(Pairs(tokens).value, rest);
      assert tokens == [""] + tokens[1..];
      gaps := [rest[0] + 1] + rest[1..];
    } else {
      var rest := PairsAreSpelt(tokens[2..]);
      RecordInFront(Change(tokens[0], tokens[1]), Pairs(tokens[2..]).value, rest);
      assert tokens == [tokens[0], tokens[1]] + tokens[2..];
      gaps := [0] + rest;
    }
  }

  lemma {:induction false} BlanksAreSkipped(n: nat, tokens: seq<string>)
    ensures Pairs(Blanks(n) + tokens) == Pairs(tokens)
  {
    if n == 0 {
      assert Blanks(0) + tokens == tokens;
    } else {
      BlanksAreSkipped(n - 1, tokens);
      assert (Blanks(n) + tokens)[1..] == Blanks(n - 1) + tokens;
    }
  }

  lemma {:induction false} SpeltIsRead(tokens: seq<string>, changes: seq<Change>, gaps: seq<nat>)
    requires Spells(tokens, changes, gaps)
    ensures Pairs(tokens) == Some(changes)
    decreases |changes|
  {
    if changes == [] {
      BlanksAreSkipped(gaps[0], []);
      assert Blanks(gaps[0]) + [] == tokens;
    } else {
      var rest := Written(changes[1..], gaps[1..]);
      var record := [changes[0].status, changes[0].path] + rest;
      BlanksAreSkipped(gaps[0], record);
      SpeltIsRead(rest, changes[1..], gaps[1..]);
      assert record[2..] == rest && changes == [changes[0]] + changes[1..];
    }
  }

  /** The paths, in order, of records that each add an ordinary JSON file beneath the directory. */
  predicate AddsJust(changes: seq<Change>, dir: string, regular: string -> bool, paths: seq<string>) {
    && multiset(Paths(changes)) == multiset(paths)
    && (forall i, j | 0 <= i < j < |paths| :: Leq(paths[i], paths[j]))
    && forall i | 0 <= i < |changes| ::
         && changes[i].status == "A" && dir + "/" <= changes[i].path && regular(changes[i].path)
         && |changes[i].path| >= 5 && changes[i].path[|changes[i].path| - 5..] == ".json"
  }

  /** The records by path, then status, none a rename or a copy. */
  predicate ListsJust(changes: seq<Change>, r: seq<Change>) {
    && multiset(changes) == multiset(r)
    && (forall i, j | 0 <= i < j < |r| ::
          if r[i].path == r[j].path then Leq(r[i].status, r[j].status) else Leq(r[i].path, r[j].path))
    && forall i | 0 <= i < |changes| :: 'R' !in changes[i].status && 'C' !in changes[i].status
  }

  /** Additions are read exactly if the output is records, with empty tokens between, that add just these paths. */
  lemma AdditionsIff(tokens: seq<string>, dir: string, regular: string -> bool, paths: seq<string>)
    ensures Additions(tokens, dir, regular) == Some(paths) <==>
            exists changes: seq<Change>, gaps: seq<nat> :: Spells(tokens, changes, gaps) && AddsJust(changes, dir, regular, paths)
  {
    hide Spells, Pairs, AddsJust;
    if Additions(tokens, dir, regular) == Some(paths) {
      var changes := Pairs(tokens).value;
      var gaps := PairsAreSpelt(tokens);
      AdditionsOf(changes, dir, regular, paths);
      assert Spells(tokens, changes, gaps) && AddsJust(changes, dir, regular, paths);
    }
    if exists changes: seq<Change>, gaps: seq<nat> :: Spells(tokens, changes, gaps) && AddsJust(changes, dir, regular, paths) {
      var changes: seq<Change>, gaps: seq<nat> :| Spells(tokens, changes, gaps) && AddsJust(changes, dir, regular, paths);
      SpeltIsRead(tokens, changes, gaps);
      AdditionsOf(changes, dir, regular, paths);
    }
  }

  lemma AdditionsOf(changes: seq<Change>, dir: string, regular: string -> bool, paths: seq<string>)
    ensures (forall c | c in changes :: IsAddition(dir, regular, c)) && SortStrings(Paths(changes)) == paths <==>
            AddsJust(changes, dir, regular, paths)
  {
    LeqIsTotal();
    SortSorts(Paths(changes), Leq);
    assert forall i | 0 <= i < |changes| :: changes[i] in changes;
    if AddsJust(changes, dir, regular, paths) {
      SortedIsUnique(SortStrings(Paths(changes)), paths, Leq);
    }
  }

  /** Changes are read exactly if the output is records, with empty tokens between, and none a rename or a copy. */
  lemma ChangesIff(tokens: seq<string>, r: seq<Change>)
    ensures TreeChanges(tokens) == Some(r) <==>
            exists changes: seq<Change>, gaps: seq<nat> :: Spells(tokens, changes, gaps) && ListsJust(changes, r)
  {
    hide Spells, Pairs, ListsJust;
    if TreeChanges(tokens) == Some(r) {
      var changes := Pairs(tokens).value;
      var gaps := PairsAreSpelt(tokens);
      ChangesOf(changes, r);
      assert Spells(tokens, changes, gaps) && ListsJust(changes, r);
    }
    if exists changes: seq<Change>, gaps: seq<nat> :: Spells(tokens, changes, gaps) && ListsJust(changes, r) {
      var changes: seq<Change>, gaps: seq<nat> :| Spells(tokens, changes, gaps) && ListsJust(changes, r);
      SpeltIsRead(tokens, changes, gaps);
      ChangesOf(changes, r);
    }
  }

  lemma ChangesOf(changes: seq<Change>, r: seq<Change>)
    ensures (forall c | c in changes :: !ContainsAny(c.status, "RC")) && Sort(changes, InOrder) == r <==> ListsJust(changes, r)
  {
    InOrderIsTotal();
    SortSorts(changes, InOrder);
    assert forall i | 0 <= i < |changes| :: changes[i] in changes;
    forall status: string ensures ContainsAny(status, "RC") <==> 'R' in status || 'C' in status {
      assert "RC"[0] == 'R' && "RC"[1] == 'C';
    }
    if ListsJust(changes, r) {
      SortedIsUnique(Sort(changes, InOrder), r, InOrder);
    }
  }

  lemma InOrderIsTotal()
    ensures TotalPreorder(InOrder) && forall x, y :: InOrder(x, y) && InOrder(y, x) ==> x == y
  {
    LeqIsTotal();
  }
}
