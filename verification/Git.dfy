/**
 The part of a Git repository the ledger reads. An object name stands for the
 whole content below it (the hash is taken to be collision-free), so a commit
 is modelled as that content: its parents, its tree and its message.
 */
module Git {
  import opened Wrappers
  import opened Text

  /** A tree entry's mode: 100644, 100755, or anything that is no file (a link, a submodule). */
  datatype Mode = Plain | Executable | Special(kind: string)

  datatype Blob = Blob(mode: Mode, bytes: string)
  {
    /** What requireRegularBlobAt accepts. */
    const regular := mode == Plain
  }

  type Tree = map<string, Blob>

  datatype Commit = Commit(parents: seq<Commit>, tree: Tree, message: string)

  // ---------------------------------------------------------------- history

  predicate Linear(c: Commit) {
    |c.parents| == 0 || (|c.parents| == 1 && Linear(c.parents[0]))
  }

  function Chain(c: Commit): (h: seq<Commit>)
    requires Linear(c)
    ensures |h| > 0 && h[|h| - 1] == c
  {
    if |c.parents| == 0 then [c] else Chain(c.parents[0]) + [c]
  }

  /** isObjectID: a full hexadecimal object name. */
  predicate IsObjectId(s: string) {
    (|s| == 40 || |s| == 64) && forall i | 0 <= i < |s| :: '0' <= s[i] <= '9' || 'a' <= s[i] <= 'f' || 'A' <= s[i] <= 'F'
  }

  /** The first-to-last history of a head; non-linear histories and malformed names are refused. */
  function History(id: Commit -> string, c: Commit): Option<seq<Commit>> {
    if Linear(c) && (forall i | 0 <= i < |Chain(c)| :: IsObjectId(id(Chain(c)[i]))) then Some(Chain(c)) else None
  }

  /** `a` is `b` or one of the commits below it in b's linear history. */
  predicate Within(a: Commit, b: Commit) {
    a == b || (|b.parents| == 1 && Within(a, b.parents[0]))
  }

  /** Every element of a chain is in it exactly once, under its successor. */
  lemma {:induction false} ChainLinks(c: Commit)
    requires Linear(c)
    ensures forall i | 0 <= i < |Chain(c)| :: Linear(Chain(c)[i]) && Chain(Chain(c)[i]) == Chain(c)[..i + 1]
    ensures |Chain(c)[0].parents| == 0
    ensures forall i | 0 < i < |Chain(c)| :: Chain(c)[i].parents == [Chain(c)[i - 1]]
  {
    var h := Chain(c);
    if |c.parents| == 1 {
      var below := Chain(c.parents[0]);
      ChainLinks(c.parents[0]);
      assert c.parents == [c.parents[0]];
      forall i | 0 <= i < |h| ensures Linear(h[i]) && Chain(h[i]) == h[..i + 1] {
        if i < |below| {
          assert h[..i + 1] == below[..i + 1];
        } else {
          assert h[..i + 1] == h;
        }
      }
    } else {
      assert h[..1] == h;
    }
  }

  lemma {:induction false} WithinIsPrefix(a: Commit, b: Commit)
    requires Linear(b) && Within(a, b)
    ensures Linear(a) && Chain(a) <= Chain(b)
  {
    if a != b {
      WithinIsPrefix(a, b.parents[0]);
    }
  }

  lemma {:induction false} ChainElementsWithin(a: Commit, b: Commit)
    requires Linear(b)
    ensures a in Chain(b) <==> Within(a, b)
  {
    if |b.parents| == 1 {
      ChainElementsWithin(a, b.parents[0]);
    }
  }

  lemma {:induction false} WithinTransitive(a: Commit, b: Commit, c: Commit)
    requires Within(a, b) && Within(b, c)
    ensures Within(a, c)
  {
    if b != c {
      WithinTransitive(a, b, c.parents[0]);
    }
  }

  lemma {:induction false} WithinTotal(a: Commit, b: Commit, head: Commit)
    requires Within(a, head) && Within(b, head)
    ensures Within(a, b) || Within(b, a)
    decreases head
  {
    if a != head && b != head {
      WithinTotal(a, b, head.parents[0]);
    }
  }

  /** No commit sits below its own parent. */
  lemma NotWithinParent(c: Commit)
    requires |c.parents| == 1 && Linear(c)
    ensures !Within(c, c.parents[0])
  {
    if Within(c, c.parents[0]) {
      WithinIsPrefix(c, c.parents[0]);
    }
  }

  /** The children of one commit inside one history coincide. */
  lemma OneChild(a: Commit, b: Commit, head: Commit)
    requires Linear(head) && Within(a, head) && Within(b, head)
    requires |a.parents| == 1 && a.parents == b.parents
    ensures a == b
  {
    WithinIsPrefix(a, head);
    WithinIsPrefix(b, head);
    var k := |Chain(a)| - 1;
    assert |Chain(a)| == |Chain(b)|;
    assert Chain(a)[k] == Chain(head)[k] == Chain(b)[k];
  }

  // ------------------------------------------------------- rev-list parsing

  /** One line of `rev-list --reverse --parents`: the commit, then its parents. */
  type Line = seq<string>

  datatype CommitRef = CommitRef(id: string, parent: string)

  function Field(lines: seq<Line>, i: nat, k: nat): string {
    if i < |lines| && k < |lines[i]| then ToLower(lines[i][k]) else ""
  }

  /** A line that continues the chain: a lone root first, then one parent, the line before. */
  ghost predicate Continues(lines: seq<Line>, i: nat)
    requires i < |lines|
  {
    && |lines[i]| == (if i == 0 then 1 else 2)
    && IsObjectId(Field(lines, i, 0))
    && (i > 0 ==> Field(lines, i, 1) == Field(lines, i - 1, 0))
  }

  ghost predicate IsChain(lines: seq<Line>, head: string) {
    && |lines| > 0 && IsObjectId(head)
    && (forall i | 0 <= i < |lines| :: Continues(lines, i))
    && Field(lines, |lines| - 1, 0) == ToLower(head)
  }

  function RefOf(lines: seq<Line>, i: nat): CommitRef {
    CommitRef(Field(lines, i, 0), if i == 0 then "" else Field(lines, i - 1, 0))
  }

  /** The loop of Reader.History over the non-blank lines Git printed. */
  method ParseHistory(lines: seq<Line>, head: string) returns (r: Option<seq<CommitRef>>)
    ensures r.Some? <==> IsChain(lines, head)
    ensures r.Some? ==> |r.value| == |lines| && forall i | 0 <= i < |lines| :: r.value[i] == RefOf(lines, i)
  {
    hide ToLower, IsObjectId;
    if !IsObjectId(head) {
      return None;
    }
    var commits: seq<CommitRef> := [];
    var previous := "";
    for i := 0 to |lines|
      invariant |commits| == i
      invariant forall j | 0 <= j < i :: Continues(lines, j) && commits[j] == RefOf(lines, j)
      invariant i > 0 ==> previous == commits[i - 1].id
    {
      var fields := lines[i];
      assert i > 0 ==> Continues(lines, i - 1) && previous == Field(lines, i - 1, 0);
      if |fields| > 2 || |fields| == 0 {
        assert !Continues(lines, i);
        return None;
      }
      var id := ToLower(fields[0]);
      if !IsObjectId(id) {
        assert !Continues(lines, i);
        return None;
      }
      var parent := "";
      if |fields| == 2 {
        parent := ToLower(fields[1]);
        if i == 0 || parent != previous {
          assert !Continues(lines, i);
          return None;
        }
      } else if i != 0 {
        assert !Continues(lines, i);
        return None;
      }
      commits := commits + [CommitRef(id, parent)];
      previous := id;
    }
    if |commits| == 0 || commits[|commits| - 1].id != ToLower(head) {
      return None;
    }
    return Some(commits);
  }

  predicate Hex(s: string) {
    (|s| == 40 || |s| == 64) && forall c | c in s :: '0' <= c <= '9' || 'a' <= c <= 'f' || 'A' <= c <= 'F'
  }

  lemma HexIs(s: string)
    ensures IsObjectId(s) <==> Hex(s)
  {
    assert forall i | 0 <= i < |s| :: s[i] in s;
  }

  /** This line's second field is the line before's first, up to case. */
  predicate NamesPrevious(lines: seq<Line>, i: nat) {
    0 < i < |lines| && |lines[i]| == 2 && |lines[i - 1]| > 0 && ToLower(lines[i][1]) == ToLower(lines[i - 1][0])
  }

  /** What the loop accepts: one root, then each commit on the one before, the head last, all by whole object names. */
  lemma ChainIff(lines: seq<Line>, head: string)
    ensures IsChain(lines, head) <==>
            && Hex(head) && 0 < |lines| && |lines[0]| == 1
            && (forall i | 0 < i < |lines| :: NamesPrevious(lines, i))
            && (forall i | 0 <= i < |lines| :: |lines[i]| > 0 && Hex(ToLower(lines[i][0])))
            && ToLower(lines[|lines| - 1][0]) == ToLower(head)
  {
    hide ToLower, IsObjectId, Hex;
    forall s ensures IsObjectId(s) <==> Hex(s) {
      HexIs(s);
    }
    if |lines| > 0 {
      forall i | 0 <= i < |lines|
        ensures Continues(lines, i) ==> |lines[i]| > 0 && Hex(ToLower(lines[i][0])) && (i == 0 ==> |lines[0]| == 1)
        ensures 0 < i && Continues(lines, i) && Continues(lines, i - 1) ==> NamesPrevious(lines, i)
        ensures |lines[i]| > 0 && Hex(ToLower(lines[i][0])) && (if i == 0 then |lines[0]| == 1 else NamesPrevious(lines, i)) ==>
                  Continues(lines, i)
      {
      }
      if IsChain(lines, head) {
        forall i | 0 < i < |lines| ensures NamesPrevious(lines, i) {
          assert Continues(lines, i - 1) && Continues(lines, i);
        }
      }
    }
  }

  /** A commit's own line. */
  function LineOf(id: Commit -> string, c: Commit): Line {
    [id(c)] + seq(|c.parents|, i requires 0 <= i < |c.parents| => id(c.parents[i]))
  }

  function Printed(id: Commit -> string, h: seq<Commit>): (lines: seq<Line>)
    ensures |lines| == |h| && forall i | 0 <= i < |h| :: lines[i] == LineOf(id, h[i])
  {
    seq(|h|, i requires 0 <= i < |h| => LineOf(id, h[i]))
  }

  /** What rev-list prints for a linear head parses back to exactly its chain. */
  lemma LinearHistoryParses(id: Commit -> string, c: Commit)
    requires History(id, c).Some?
    requires forall x: Commit {:trigger id(x)} :: ToLower(id(x)) == id(x)
    ensures IsChain(Printed(id, Chain(c)), id(c))
    ensures forall i | 0 <= i < |Chain(c)| :: RefOf(Printed(id, Chain(c)), i).id == id(Chain(c)[i])
  {
    hide *;
    HistoryChain(id, c);
    var h := Chain(c);
    forall i | 0 <= i < |h| ensures Continues(Printed(id, h), i) && Field(Printed(id, h), i, 0) == id(h[i]) {
      assert ToLower(id(h[i])) == id(h[i]);
      PrintedLine(id, h, i);
    }
    ChainParses(id, c, h);
  }

  lemma HistoryChain(id: Commit -> string, c: Commit)
    requires History(id, c).Some?
    ensures Linear(c) && |Chain(c)[0].parents| == 0 && Chain(c)[|Chain(c)| - 1] == c
    ensures forall i | 0 < i < |Chain(c)| :: Chain(c)[i].parents == [Chain(c)[i - 1]]
    ensures forall i | 0 <= i < |Chain(c)| :: IsObjectId(id(Chain(c)[i]))
  {
    hide IsObjectId;
    ChainLinks(c);
  }

  lemma ChainParses(id: Commit -> string, c: Commit, h: seq<Commit>)
    requires h != [] && h[|h| - 1] == c && IsObjectId(id(c)) && ToLower(id(c)) == id(c)
    requires forall i | 0 <= i < |h| :: Continues(Printed(id, h), i) && Field(Printed(id, h), i, 0) == id(h[i])
    ensures IsChain(Printed(id, h), id(c))
    ensures forall i | 0 <= i < |h| :: RefOf(Printed(id, h), i).id == id(h[i])
  {
    hide Continues, IsObjectId, Field, Printed, ToLower;
  }

  lemma PrintedLine(id: Commit -> string, h: seq<Commit>, i: nat)
    requires i < |h| && IsObjectId(id(h[i])) && ToLower(id(h[i])) == id(h[i])
    requires if i == 0 then |h[0].parents| == 0 else h[i].parents == [h[i - 1]]
    ensures Continues(Printed(id, h), i) && Field(Printed(id, h), i, 0) == id(h[i])
  {
    hide ToLower, IsObjectId;
    var lines := Printed(id, h);
    assert lines[i][0] == id(h[i]);
    if i > 0 {
      assert lines[i][1] == id(h[i - 1]) && lines[i - 1][0] == id(h[i - 1]);
    }
  }

  /** A head with a merge below it prints a line of three or more fields, and no such listing parses. */
  lemma {:induction false} MergeHistoryIsRefused(id: Commit -> string, c: Commit, lines: seq<Line>, head: string)
    requires !Linear(c)
    requires forall a | Below(a, c) :: LineOf(id, a) in lines
    ensures !IsChain(lines, head)
    decreases c
  {
    if |c.parents| == 1 {
      forall a | Below(a, c.parents[0]) ensures LineOf(id, a) in lines {
        assert Below(a, c);
      }
      MergeHistoryIsRefused(id, c.parents[0], lines, head);
    } else {
      assert Below(c, c);
      var i :| 0 <= i < |lines| && lines[i] == LineOf(id, c);
      assert |lines[i]| > 2 && !Continues(lines, i);
    }
  }

  ghost predicate Below(a: Commit, c: Commit) {
    a == c || exists i | 0 <= i < |c.parents| :: Below(a, c.parents[i])
  }

  // ------------------------------------------------------------------ diffs

  /** The tree a commit is compared with: its parent's, or nothing at the root. */
  function Base(c: Commit): Tree {
    if |c.parents| == 0 then map[] else c.parents[0].tree
  }

  /** The paths diff-tree reports. */
  function Changed(c: Commit): set<string> {
    var base := Base(c);
    set p | p in base.Keys + c.tree.Keys && !(p in base && p in c.tree && base[p] == c.tree[p])
  }

  /** Status "A": absent before, present now. */
  predicate Added(c: Commit, p: string) {
    p !in Base(c) && p in c.tree
  }

  /** What the pathspec `dir` selects. */
  predicate Under(p: string, dir: string) {
    p == dir || HasPrefix(p, dir + "/")
  }

  function ChangedUnder(c: Commit, dir: string): set<string> {
    set p | p in Changed(c) && Under(p, dir)
  }

  /** Reader.ImmutableJSONAdditions: only additions of JSON files beneath `dir`, in lexical order. */
  function ImmutableJsonAdditions(c: Commit, dir: string): Option<seq<string>> {
    var changed := ChangedUnder(c, dir);
    if forall p | p in changed :: Added(c, p) && HasPrefix(p, dir + "/") && HasSuffix(p, ".json")
    then Some(SortedPaths(changed))
    else None
  }

  const EVENTS := "events"

  /** Reader.EventAdditions: as above beneath `events`, and every file an ordinary blob. */
  function EventAdditions(c: Commit): (r: Option<seq<string>>)
    ensures r.Some? ==> forall p :: p in r.value <==> p in ChangedUnder(c, EVENTS)
    ensures r.Some? ==> forall p :: p in r.value ==> Added(c, p)
  {
    var changed := ChangedUnder(c, EVENTS);
    if forall p | p in changed ::
         Added(c, p) && HasPrefix(p, EVENTS + "/") && HasSuffix(p, ".json") && c.tree[p].regular
    then Some(SortedPaths(changed))
    else None
  }

  /** Reader.ListJSON: the ordinary JSON files below `dir`. */
  function ListJson(tree: Tree, dir: string): Option<seq<string>> {
    var files := set p | p in tree && Under(p, dir) && HasSuffix(p, ".json");
    if forall p | p in files :: tree[p].regular then Some(SortedPaths(files)) else None
  }

  /** Two trees that agree beneath `dir` list the same files there. */
  lemma ListJsonFrame(a: Tree, b: Tree, dir: string)
    requires forall p | Under(p, dir) :: (p in a <==> p in b) && (p in a ==> a[p] == b[p])
    ensures ListJson(a, dir) == ListJson(b, dir)
  {
    assert (set p | p in a && Under(p, dir) && HasSuffix(p, ".json"))
        == (set p | p in b && Under(p, dir) && HasSuffix(p, ".json"));
  }

  // ------------------------------------------------------------ path grammar

  /** Neither empty nor a dot component anywhere: path.Clean leaves the path alone. */
  predicate CleanParts(p: string) {
    forall part | part in Split(p) :: part != "" && part != "." && part != ".."
  }

  predicate EventPathChar(c: char) {
    'a' <= c <= 'z' || 'A' <= c <= 'Z' || '0' <= c <= '9' || c in "-_."
  }

  /** validateEventPath. */
  predicate ValidEventPath(p: string) {
    && HasPrefix(p, "events/")
    && HasSuffix(p, ".json")
    && CleanParts(p)
    && forall i | 0 <= i < |p| :: EventPathChar(p[i]) || p[i] == '/'
  }

  // ------------------------------------------------------- candidate commits

  /** verifySinglePathAddition and verifyExactChild, for a parent already known. */
  predicate ExactChildAdding(c: Commit, parent: Commit, path: string) {
    c.parents == [parent] && Changed(c) == {path} && Added(c, path)
  }

  /** The commit `update-index --add` and `commit-tree` build on top of `parent`. */
  function ChildAdding(parent: Commit, path: string, bytes: string, message: string): (c: Commit)
    requires path !in parent.tree
    ensures ExactChildAdding(c, parent, path)
    ensures c.tree[path] == Blob(Plain, bytes)
  {
    Commit([parent], parent.tree[path := Blob(Plain, bytes)], message)
  }

  /** An index refuses a path that is a file's directory or lies beneath a file. */
  predicate PathFree(tree: Tree, path: string) {
    forall p | p in tree :: p != path && !HasPrefix(p, path + "/") && !HasPrefix(path, p + "/")
  }

  /** An exact child adding one event file reports exactly that addition, and nothing elsewhere. */
  lemma SingleAdditionDiff(c: Commit, parent: Commit, path: string)
    requires ExactChildAdding(c, parent, path) && ValidEventPath(path)
    ensures EventAdditions(c) == (if c.tree[path].regular then Some([path]) else None)
    ensures forall dir :: !Under(path, dir) ==> ImmutableJsonAdditions(c, dir) == Some([])
    ensures forall p :: p != path ==> (p in c.tree <==> p in parent.tree)
    ensures forall p :: p != path && p in c.tree ==> c.tree[p] == parent.tree[p]
  {
    assert path[..7] == "events/";
    assert ChangedUnder(c, EVENTS) == {path} by {
      assert EVENTS + "/" == "events/";
    }
    SortedSingleton(path);
    forall dir | !Under(path, dir) ensures ImmutableJsonAdditions(c, dir) == Some([]) {
      assert ChangedUnder(c, dir) == {};
    }
    forall p | p != path
      ensures p in c.tree <==> p in parent.tree
      ensures p in c.tree ==> c.tree[p] == parent.tree[p]
    {
      assert p !in Changed(c);
    }
  }
}
