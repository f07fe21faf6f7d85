/** Comparing two recovered histories, and what an operator may decide between them. */
module Recovery {
  import opened Wrappers
  import opened Text
  import opened Git
  import opened Domain
  import opened LedgerReplay
  import opened ReplayFacts
  import opened ReplayTheorems
  import Reducer

  datatype Kind = Identical | ADescendsB | BDescendsA | Divergent | Unrelated

  datatype Fork = Fork(kind: Kind, commonAncestor: string, headA: string, headB: string)

  predicate ValidHistory(h: seq<string>) {
    h != [] && "" !in h && forall i, j | 0 <= i < j < |h| :: h[i] != h[j]
  }

  /** validateHistory. */
  method ValidateHistory(h: seq<string>) returns (ok: bool)
    ensures ok <==> ValidHistory(h)
  {
    if |h| == 0 {
      return false;
    }
    var seen: set<string> := {};
    for i := 0 to |h|
      invariant forall x :: x in seen <==> x in h[..i]
      invariant "" !in h[..i] && forall j, k | 0 <= j < k < i :: h[j] != h[k]
    {
      assert h[..i + 1] == h[..i] + [h[i]];
      if h[i] == "" {
        assert "" in h;
        return false;
      }
      if h[i] in seen {
        var j :| 0 <= j < i && h[..i][j] == h[i];
        assert h[j] == h[i];
        return false;
      }
      seen := seen + {h[i]};
    }
    assert h[..|h|] == h;
    return true;
  }

  /** How far two histories run together. */
  function Common(a: seq<string>, b: seq<string>): (n: nat)
    ensures n <= |a| && n <= |b| && a[..n] == b[..n]
    ensures n < |a| && n < |b| ==> a[n] != b[n]
  {
    if a == [] || b == [] || a[0] != b[0] then 0
    else
      var n := 1 + Common(a[1..], b[1..]);
      assert a[..n] == [a[0]] + a[1..][..n - 1] && b[..n] == [b[0]] + b[1..][..n - 1];
      n
  }

  /** Only one length is the length of the common run. */
  lemma CommonIs(a: seq<string>, b: seq<string>, n: nat)
    requires n <= |a| && n <= |b| && a[..n] == b[..n]
    requires n == |a| || n == |b| || a[n] != b[n]
    ensures Common(a, b) == n
  {
    var m := Common(a, b);
    assert forall k | 0 <= k < n :: a[k] == a[..n][k] && b[k] == b[..n][k];
    assert forall k | 0 <= k < m :: a[k] == a[..m][k] && b[k] == b[..m][k];
  }

  function Classification(a: seq<string>, b: seq<string>): Fork
    requires a != [] && b != []
  {
    var n := Common(a, b);
    Fork(
      if n == 0 then Unrelated
      else if n == |a| && n == |b| then Identical
      else if n == |b| then ADescendsB
      else if n == |a| then BDescendsA
      else Divergent,
      if n == 0 then "" else a[n - 1], a[|a| - 1], b[|b| - 1])
  }

  /** Classify as written. */
  method Classify(a: seq<string>, b: seq<string>) returns (r: Option<Fork>)
    ensures r == if ValidHistory(a) && ValidHistory(b) then Some(Classification(a, b)) else None
  {
    hide ValidHistory, Common;
    var validA := ValidateHistory(a);
    if !validA {
      return None;
    }
    var validB := ValidateHistory(b);
    if !validB {
      return None;
    }
    NonEmpty(a);
    NonEmpty(b);
    var result := Fork(Unrelated, "", a[|a| - 1], b[|b| - 1]);
    var common := 0;
    while common < |a| && common < |b| && a[common] == b[common]
      invariant common <= |a| && common <= |b| && a[..common] == b[..common]
    {
      assert a[..common + 1] == a[..common] + [a[common]] && b[..common + 1] == b[..common] + [b[common]];
      common := common + 1;
    }
    CommonIs(a, b, common);
    if common == 0 {
      return Some(result);
    }
    result := result.(commonAncestor := a[common - 1]);
    if common == |a| && common == |b| {
      result := result.(kind := Identical);
    } else if common == |b| {
      result := result.(kind := ADescendsB);
    } else if common == |a| {
      result := result.(kind := BDescendsA);
    } else {
      result := result.(kind := Divergent);
    }
    return Some(result);
  }

  lemma NonEmpty(h: seq<string>)
    requires ValidHistory(h)
    ensures h != []
  {
  }

  // -------------------------------------------------------- what it means

  /** A commit id determines everything below it. */
  ghost predicate AncestryDetermined(a: seq<string>, b: seq<string>) {
    forall i, j | 0 <= i < |a| && 0 <= j < |b| && a[i] == b[j] :: a[..i + 1] == b[..j + 1]
  }

  /** The last id two histories share, shared at the same place. */
  ghost predicate LastShared(a: seq<string>, b: seq<string>, id: string) {
    exists k | 0 <= k < |a| && k < |b| ::
      a[k] == id && b[k] == id && forall i | 0 <= i < |a| && a[i] in b :: i <= k
  }

  /**
   Where ids determine ancestry the classification is the truth about the two
   sets of commits: unrelated exactly when disjoint, otherwise the named
   ancestor is the last one shared, and descent is extension.
   */
  lemma ClassificationIsTrue(a: seq<string>, b: seq<string>)
    requires ValidHistory(a) && ValidHistory(b) && AncestryDetermined(a, b)
    ensures var f := Classification(a, b);
            && (f.kind == Unrelated <==> forall x | x in a :: x !in b)
            && (f.kind != Unrelated ==> LastShared(a, b, f.commonAncestor))
            && (f.kind == Identical <==> a == b)
            && (f.kind == ADescendsB <==> b < a)
            && (f.kind == BDescendsA <==> a < b)
  {
    var n := Common(a, b);
    SharedAreCommon(a, b);
    if n > 0 {
      assert a[n - 1] == a[..n][n - 1] == b[..n][n - 1] == b[n - 1];
      assert a[n - 1] in a;
    } else {
      forall x | x in a ensures x !in b {
        var i :| 0 <= i < |a| && a[i] == x;
      }
    }
    PrefixIsCommon(a, b);
    PrefixIsCommon(b, a);
    CommonIs(b, a, n);
  }

  lemma PrefixIsCommon(a: seq<string>, b: seq<string>)
    ensures Common(a, b) == |b| <==> b <= a
  {
    if b <= a {
      CommonIs(a, b, |b|);
    }
  }

  /** Ids shared anywhere lie in the common run. */
  lemma SharedAreCommon(a: seq<string>, b: seq<string>)
    requires AncestryDetermined(a, b)
    ensures forall i | 0 <= i < |a| && a[i] in b :: i < Common(a, b)
  {
    var n := Common(a, b);
    forall i | 0 <= i < |a| && a[i] in b ensures i < n {
      var j :| 0 <= j < |b| && b[j] == a[i];
      assert |a[..i + 1]| == |b[..j + 1]|;
      RunReaches(a, b, i);
    }
  }

  lemma RunReaches(a: seq<string>, b: seq<string>, i: nat)
    requires i < |a| && i < |b| && a[..i + 1] == b[..i + 1]
    ensures i < Common(a, b)
  {
    assert forall k | 0 <= k <= i :: a[k] == a[..i + 1][k] && b[k] == b[..i + 1][k];
  }

  /** On arbitrary id lists it compares first elements only. */
  lemma UnrelatedIff(a: seq<string>, b: seq<string>)
    requires ValidHistory(a) && ValidHistory(b)
    ensures Classification(a, b).kind == Unrelated <==> a[0] != b[0]
  {
  }

  /** So lists no repository can produce may be called unrelated and still share a commit. */
  lemma UnrelatedCanShare()
    ensures var a, b := ["g", "x"], ["x"];
            ValidHistory(a) && ValidHistory(b) && Classification(a, b).kind == Unrelated && "x" in a && "x" in b
  {
    var a, b := ["g", "x"], ["x"];
    assert a[1] == "x" && b[0] == "x";
    assert a[0] == "g" && "g" != "x" by {
      assert "g"[0] != "x"[0];
    }
  }

  // ------------------------------------------------------------ Git histories

  function Ids(id: Commit -> string, h: seq<Commit>): (r: seq<string>)
    ensures |r| == |h| && forall i | 0 <= i < |h| :: r[i] == id(h[i])
  {
    seq(|h|, i requires 0 <= i < |h| => id(h[i]))
  }

  /** The ids of a linear history are a valid history, and determine ancestry. */
  lemma GitHistories(env: Env, a: Commit, b: Commit)
    requires LawfulNames(env) && Linear(a) && Linear(b)
    ensures ValidHistory(Ids(env.id, Chain(a)))
    ensures AncestryDetermined(Ids(env.id, Chain(a)), Ids(env.id, Chain(b)))
  {
    hide Chain, Linear;
    var x, y := Chain(a), Chain(b);
    ChainIsDistinct(a);
    var p, q := Ids(env.id, x), Ids(env.id, y);
    assert p[|p| - 1] == env.id(x[|x| - 1]);
    forall i, j | 0 <= i < |p| && 0 <= j < |q| && p[i] == q[j] ensures p[..i + 1] == q[..j + 1] {
      assert x[i] == y[j];
      SharedPrefix(a, b, i, j);
    }
  }

  lemma SharedPrefix(a: Commit, b: Commit, i: nat, j: nat)
    requires Linear(a) && Linear(b) && i < |Chain(a)| && j < |Chain(b)| && Chain(a)[i] == Chain(b)[j]
    ensures i == j && forall k | 0 <= k <= i :: Chain(a)[k] == Chain(b)[k]
  {
    hide Linear;
    ChainPrefixes(a);
    ChainPrefixes(b);
    var x, y := Chain(a)[..i + 1], Chain(b)[..j + 1];
    assert x == y;
    assert |x| == |y|;
    assert forall k | 0 <= k <= i :: Chain(a)[k] == x[k] && Chain(b)[k] == y[k];
  }

  lemma ChainPrefixes(c: Commit)
    requires Linear(c)
    ensures forall i | 0 <= i < |Chain(c)| :: Linear(Chain(c)[i]) && Chain(c)[..i + 1] == Chain(Chain(c)[i])
  {
    ChainLinks(c);
  }

  lemma ChainIsDistinct(c: Commit)
    requires Linear(c)
    ensures forall i, j | 0 <= i < j < |Chain(c)| :: Chain(c)[i] != Chain(c)[j]
  {
    ChainPrefixes(c);
    forall i, j | 0 <= i < j < |Chain(c)| ensures Chain(c)[i] != Chain(c)[j] {
      assert |Chain(c)[..i + 1]| != |Chain(c)[..j + 1]|;
    }
  }

  lemma PrefixIsWithin(env: Env, a: Commit, b: Commit)
    requires LawfulNames(env) && Linear(a) && Linear(b)
    ensures Ids(env.id, Chain(b)) <= Ids(env.id, Chain(a)) <==> Within(b, a)
  {
    var p, q := Ids(env.id, Chain(a)), Ids(env.id, Chain(b));
    if Within(b, a) {
      WithinIsPrefix(b, a);
    }
    if q <= p {
      var k := |q| - 1;
      assert q[k] == p[k];
      assert env.id(Chain(a)[k]) == env.id(b);
      assert Chain(a)[k] in Chain(a);
      ChainElementsWithin(b, a);
    }
  }

  /** Of two linear heads, the classification says which commit sits below which. */
  lemma ForkOfHeads(env: Env, a: Commit, b: Commit)
    requires LawfulNames(env) && Linear(a) && Linear(b)
    ensures var f := Classification(Ids(env.id, Chain(a)), Ids(env.id, Chain(b)));
            && (f.kind == Identical <==> a == b)
            && (f.kind == ADescendsB <==> Within(b, a) && a != b)
            && (f.kind == BDescendsA <==> Within(a, b) && a != b)
            && (f.kind == Unrelated <==> Chain(a)[0] != Chain(b)[0])
            && f.headA == env.id(a) && f.headB == env.id(b)
  {
    hide AncestryDetermined, Classification, Within, LastShared;
    GitHistories(env, a, b);
    GitHistories(env, b, a);
    var p, q := Ids(env.id, Chain(a)), Ids(env.id, Chain(b));
    ClassificationIsTrue(p, q);
    PrefixIsWithin(env, a, b);
    PrefixIsWithin(env, b, a);
    UnrelatedIff(p, q);
    ClassificationHeads(p, q);
    assert p == q <==> a == b by {
      if p == q {
        assert p[|p| - 1] == q[|q| - 1];
      }
    }
  }

  lemma ClassificationHeads(a: seq<string>, b: seq<string>)
    requires a != [] && b != []
    ensures Classification(a, b).headA == a[|a| - 1] && Classification(a, b).headB == b[|b| - 1]
  {
  }

  /**
   When one recovered history descends from the other, taking the longer one
   loses nothing: the shorter one's events are its first events, its files are
   all there, and what it revoked is revoked the same way.
   */
  lemma DescendantKeepsEverything(env: Env, a: Commit, b: Commit, target: string)
    requires LawfulNames(env) && Replay(env, a).Ok? && Linear(a) && Linear(b)
    requires Classification(Ids(env.id, Chain(a)), Ids(env.id, Chain(b))).kind == ADescendsB
    ensures Replay(env, b).Ok? && Events(env, b) <= Events(env, a) && Contained(b.tree, a.tree)
    ensures KeepsRevoked(Replay(env, b).value.ledger.records, Replay(env, a).value.ledger.records, target)
  {
    hide Replay, Contained, Classification, Within;
    ForkOfHeads(env, a, b);
    ReplayWithin(env, b, a);
    TreesOnlyGrow(env, b, a);
    var p := Replay(env, b).value.ledger.records;
    if target in p && p[target].status == Reducer.REVOKED_STATUS {
      RevokedStateStays(env, b, a, target);
    }
  }

  // ------------------------------------------------------------- resolution

  datatype Status = Open | Resolved

  datatype ForkCase = ForkCase(
    caseId: string, status: Status, kind: Kind, commonAncestor: string, headA: string, headB: string)

  datatype Candidate = Candidate(
    caseId: string, selectedHead: string, rejectedHead: string, actorId: string, decisionRef: string,
    reason: string, resolvedAt: string, rejectedPreserved: bool)

  /** ResolutionResult: the closed case with the decision that closed it. */
  datatype Resolution = Resolution(fork: ForkCase, decision: Candidate)

  function OpenForkCase(caseId: string, a: seq<string>, b: seq<string>): Option<ForkCase> {
    if caseId == "" || !ValidHistory(a) || !ValidHistory(b) then None
    else
      var f := Classification(a, b);
      if f.kind != Divergent && f.kind != Unrelated then None
      else Some(ForkCase(caseId, Open, f.kind, f.commonAncestor, f.headA, f.headB))
  }

  /** `timed` is RFC 3339 parsing. */
  function ValidateResolution(timed: string -> bool, c: ForkCase, r: Candidate): Option<Resolution> {
    if c.status != Open || r.caseId != c.caseId then None
    else if r.selectedHead != c.headA && r.selectedHead != c.headB then None
    else
      var expectedRejected := if r.selectedHead == c.headA then c.headB else c.headA;
      if r.rejectedHead != expectedRejected then None
      else if r.actorId == "" || r.decisionRef == "" || r.reason == "" then None
      else if !r.rejectedPreserved || !timed(r.resolvedAt) then None
      else Some(Resolution(c.(status := Resolved), r))
  }

  /**
   A case is opened, under its own id, exactly where two valid histories do not continue
   one another; it records their heads. Where ids determine ancestry it says truly whether
   they share anything, and names the last commit they do.
   */
  lemma OpenedCase(caseId: string, a: seq<string>, b: seq<string>)
    ensures OpenForkCase(caseId, a, b).Some? <==>
            && caseId != "" && !(a <= b) && !(b <= a)
            && forall h | h in [a, b] :: "" !in h && forall i, j | 0 <= i < j < |h| :: h[i] != h[j]
    ensures OpenForkCase(caseId, a, b).Some? ==>
              var c := OpenForkCase(caseId, a, b).value;
              && c.caseId == caseId && c.status == Open && a != [] && b != []
              && c.headA == a[|a| - 1] && c.headB == b[|b| - 1] && (c.kind == Unrelated || c.kind == Divergent)
              && (AncestryDetermined(a, b) ==>
                    && (c.kind == Unrelated <==> forall x | x in a :: x !in b)
                    && (c.kind == Unrelated ==> c.commonAncestor == "")
                    && (c.kind == Divergent ==> LastShared(a, b, c.commonAncestor)))
  {
    hide LastShared, AncestryDetermined;
    assert [a, b][0] == a && [a, b][1] == b;
    if a != [] && b != [] {
      PrefixIsCommon(a, b);
      PrefixIsCommon(b, a);
      CommonIs(b, a, Common(a, b));
    }
    if ValidHistory(a) && ValidHistory(b) && AncestryDetermined(a, b) {
      ClassificationIsTrue(a, b);
    }
  }

  /**
   A decision is accepted exactly if the case is open and is the one it names, it selects
   one of the two heads and rejects the other, says who, why and on what ground, keeps the
   rejected history and bears a time; then the case is closed and otherwise unchanged.
   */
  lemma ResolutionIff(timed: string -> bool, c: ForkCase, r: Candidate, x: Resolution)
    ensures ValidateResolution(timed, c, r) == Some(x) <==>
            && c.status == Open && r.caseId == c.caseId
            && (|| (r.selectedHead == c.headA && r.rejectedHead == c.headB)
                || (r.selectedHead == c.headB && r.rejectedHead == c.headA))
            && r.actorId != "" && r.decisionRef != "" && r.reason != "" && r.rejectedPreserved && timed(r.resolvedAt)
            && x.decision == r
            && x.fork == ForkCase(c.caseId, Resolved, c.kind, c.commonAncestor, c.headA, c.headB)
  {
  }

  /** Where ids determine ancestry the two heads differ, so an accepted decision tells them apart and cannot be repeated. */
  lemma ResolutionPartitionsHeads(
    caseId: string, a: seq<string>, b: seq<string>, timed: string -> bool, r: Candidate)
    requires AncestryDetermined(a, b) && OpenForkCase(caseId, a, b).Some?
    ensures var c := OpenForkCase(caseId, a, b).value;
            && c.headA != c.headB
            && (ValidateResolution(timed, c, r).Some? ==>
                  && {r.selectedHead, r.rejectedHead} == {c.headA, c.headB} && r.selectedHead != r.rejectedHead
                  && ValidateResolution(timed, ValidateResolution(timed, c, r).value.fork, r) == None)
  {
    hide LastShared, Classification;
    OpenedCase(caseId, a, b);
    assert a[..|a|] == a && b[..|b|] == b;
  }

  /** Without that, two opened heads may coincide: the histories end in one commit but start apart. */
  lemma HeadsCanCoincide()
    ensures var c := OpenForkCase("case", ["g", "x"], ["h", "x"]);
            c.Some? && c.value.headA == c.value.headB
  {
    assert "g"[0] != "h"[0] && "g"[0] != "x"[0] && "h"[0] != "x"[0];
  }
}
