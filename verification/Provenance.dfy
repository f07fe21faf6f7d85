/** The derivation graph: who was made from what, without cycles. */
module Provenance {
  import opened Wrappers
  import opened Text
  import opened Sorting

  datatype SourceVersion = SourceVersion(sourceId: string, versionId: string)

  datatype Record = Record(
    id: string, sourceVersions: seq<SourceVersion>, derivedFrom: seq<string>, producerId: string,
    transformationId: string)

  type Records = map<string, Record>

  datatype Error = IdRequired | Exists | ProducerRequired | VersionRequired | SelfReference | ParentNotFound | Cycle

  const NO_RECORD := Record("", [], [], "", "")

  /** A lookup as Go does it: a missing id has the zero record. */
  function Lookup(recs: Records, id: string): Record {
    if id in recs then recs[id] else NO_RECORD
  }

  function Parents(recs: Records, id: string): seq<string> {
    Lookup(recs, id).derivedFrom
  }

  // ----------------------------------------------------------- reachability

  /** `b` is found from `a` by exactly n derivation links. */
  ghost predicate Steps(recs: Records, n: nat, a: string, b: string) {
    if n == 0 then a == b else exists q | q in Parents(recs, a) :: Steps(recs, n - 1, q, b)
  }

  /** `b` is a proper ancestor of `a`. */
  ghost predicate Leads(recs: Records, a: string, b: string) {
    exists n: nat :: n > 0 && Steps(recs, n, a, b)
  }

  ghost predicate AncestorOrSelf(recs: Records, a: string, id: string) {
    a == id || Leads(recs, id, a)
  }

  /** Some cycle can be reached from `id`. */
  ghost predicate CycleFrom(recs: Records, id: string) {
    exists x :: AncestorOrSelf(recs, x, id) && Leads(recs, x, x)
  }

  ghost predicate Acyclic(recs: Records) {
    forall id :: !Leads(recs, id, id)
  }

  /** What a graph built by Add satisfies. */
  ghost predicate Sound(recs: Records) {
    && (forall id | id in recs :: recs[id].id == id && LocallyValid(recs[id]))
    && (forall id, p | id in recs && p in recs[id].derivedFrom :: p in recs)
    && Acyclic(recs)
  }

  lemma EdgeLeads(recs: Records, a: string, q: string)
    requires q in Parents(recs, a)
    ensures Leads(recs, a, q)
  {
    assert Steps(recs, 0, q, q);
    assert Steps(recs, 1, a, q);
  }

  lemma {:induction false} StepsTransitive(recs: Records, n: nat, m: nat, a: string, b: string, c: string)
    requires Steps(recs, n, a, b) && Steps(recs, m, b, c)
    ensures Steps(recs, n + m, a, c)
  {
    if n > 0 {
      var q :| q in Parents(recs, a) && Steps(recs, n - 1, q, b);
      StepsTransitive(recs, n - 1, m, q, b, c);
    }
  }

  lemma LeadsTransitive(recs: Records, a: string, b: string, c: string)
    requires Leads(recs, a, b) && Leads(recs, b, c)
    ensures Leads(recs, a, c)
  {
    var n: nat :| n > 0 && Steps(recs, n, a, b);
    var m: nat :| m > 0 && Steps(recs, m, b, c);
    StepsTransitive(recs, n, m, a, b, c);
  }

  lemma LeadsFirst(recs: Records, a: string, b: string) returns (q: string)
    requires Leads(recs, a, b)
    ensures q in Parents(recs, a) && AncestorOrSelf(recs, b, q)
  {
    var n: nat :| n > 0 && Steps(recs, n, a, b);
    q :| q in Parents(recs, a) && Steps(recs, n - 1, q, b);
    assert n == 1 ==> q == b;
  }

  /** A cycle is reachable from a record exactly when one is reachable from a parent. */
  lemma CycleViaParent(recs: Records, id: string)
    ensures CycleFrom(recs, id) <==> exists q :: q in Parents(recs, id) && CycleFrom(recs, q)
  {
    hide Leads;
    if CycleFrom(recs, id) {
      var x :| AncestorOrSelf(recs, x, id) && Leads(recs, x, x);
      var q := LeadsFirst(recs, id, x);
      assert CycleFrom(recs, q);
    }
    if q :| q in Parents(recs, id) && CycleFrom(recs, q) {
      var x :| AncestorOrSelf(recs, x, q) && Leads(recs, x, x);
      EdgeLeads(recs, id, q);
      if x != q {
        LeadsTransitive(recs, id, q, x);
      }
    }
  }

  lemma AcyclicMeansNoCycle(recs: Records, id: string)
    requires Acyclic(recs)
    ensures !CycleFrom(recs, id)
  {
  }

  function Universe(recs: Records): set<string> {
    recs.Keys + set id, p | id in recs && p in recs[id].derivedFrom :: p
  }

  lemma UniverseIsClosed(recs: Records, id: string)
    ensures forall q | q in Parents(recs, id) :: q in Universe(recs)
  {
  }

  // --------------------------------------------------------------------- add

  predicate LocallyValid(r: Record) {
    && r.id != ""
    && (r.derivedFrom != [] ==> r.producerId != "" && r.transformationId != "")
    && (forall v | v in r.sourceVersions :: v.sourceId != "" && v.versionId != "")
  }

  /** The parents are checked in the order they are listed. */
  function ParentRefusal(recs: Records, id: string, parents: seq<string>): Option<Error> {
    if parents == [] then None
    else if parents[0] == id then Some(SelfReference)
    else if parents[0] !in recs then Some(ParentNotFound)
    else ParentRefusal(recs, id, parents[1..])
  }

  lemma {:induction false} ParentsAccepted(recs: Records, id: string, parents: seq<string>)
    ensures ParentRefusal(recs, id, parents).None? <==> forall p | p in parents :: p != id && p in recs
    ensures ParentRefusal(recs, id, parents) != Some(Cycle)
  {
    if parents != [] {
      ParentsAccepted(recs, id, parents[1..]);
      assert parents[0] in parents && forall p | p in parents[1..] :: p in parents;
      if ParentRefusal(recs, id, parents).None? {
        forall p | p in parents ensures p != id && p in recs {
          assert p == parents[0] || p in parents[1..];
        }
      }
    }
  }

  /** Why Add refuses a record, if it does. */
  ghost function Refusal(recs: Records, r: Record): Option<Error> {
    if r.id == "" then Some(IdRequired)
    else if r.id in recs then Some(Exists)
    else if r.derivedFrom != [] && (r.producerId == "" || r.transformationId == "") then Some(ProducerRequired)
    else if exists v | v in r.sourceVersions :: v.sourceId == "" || v.versionId == "" then Some(VersionRequired)
    else if ParentRefusal(recs, r.id, r.derivedFrom).Some? then ParentRefusal(recs, r.id, r.derivedFrom)
    else if CycleFrom(recs[r.id := r], r.id) then Some(Cycle)
    else None
  }

  /** A parent the old graph knows leads nowhere new. */
  lemma {:induction false} OldStepsStay(recs: Records, r: Record, n: nat, a: string, b: string)
    requires Sound(recs) && r.id !in recs && a in recs
    requires Steps(recs[r.id := r], n, a, b)
    ensures Steps(recs, n, a, b) && b in recs
  {
    if n > 0 {
      var q :| q in Parents(recs[r.id := r], a) && Steps(recs[r.id := r], n - 1, q, b);
      assert q in Parents(recs, a) && q in recs[a].derivedFrom;
      OldStepsStay(recs, r, n - 1, q, b);
    }
  }

  /** Once the parents exist and the id is new, no cycle can arise: the last check never fires. */
  lemma AddedStaysSound(recs: Records, r: Record)
    requires Sound(recs) && r.id !in recs && LocallyValid(r)
    requires forall p | p in r.derivedFrom :: p in recs
    ensures Sound(recs[r.id := r]) && !CycleFrom(recs[r.id := r], r.id)
  {
    var recs' := recs[r.id := r];
    forall id ensures !Leads(recs', id, id) {
      if Leads(recs', id, id) {
        var n: nat :| n > 0 && Steps(recs', n, id, id);
        var q :| q in Parents(recs', id) && Steps(recs', n - 1, q, id);
        assert q in recs;
        OldStepsStay(recs, r, n - 1, q, id);
        assert q in Parents(recs, id);
        assert Steps(recs, n, id, id);
        assert Leads(recs, id, id);
      }
    }
    AcyclicMeansNoCycle(recs', r.id);
  }

  /** On a graph built by Add, a record is accepted exactly when it is new, valid by itself, and its parents exist. */
  lemma AcceptedIff(recs: Records, r: Record)
    requires Sound(recs)
    ensures Refusal(recs, r).None? <==> r.id !in recs && LocallyValid(r) && forall p | p in r.derivedFrom :: p in recs
    ensures Refusal(recs, r).None? ==> Sound(recs[r.id := r])
    ensures Refusal(recs, r) != Some(Cycle)
  {
    hide Sound, CycleFrom;
    ParentsAccepted(recs, r.id, r.derivedFrom);
    if r.id !in recs && LocallyValid(r) && forall p | p in r.derivedFrom :: p in recs {
      AddedStaysSound(recs, r);
    }
  }

  /** A refusal names a fact about the record. */
  lemma RefusalsNameFacts(recs: Records, r: Record)
    ensures Refusal(recs, r) == Some(IdRequired) <==> r.id == ""
    ensures Refusal(recs, r) == Some(Exists) <==> r.id != "" && r.id in recs
    ensures Refusal(recs, r) == Some(ProducerRequired) ==> |r.derivedFrom| > 0 && (r.producerId == "" || r.transformationId == "")
    ensures Refusal(recs, r) == Some(VersionRequired) ==>
              exists v :: v in r.sourceVersions && (v.sourceId == "" || v.versionId == "")
    ensures Refusal(recs, r) == Some(SelfReference) ==> r.id in r.derivedFrom
    ensures Refusal(recs, r) == Some(ParentNotFound) ==> exists p :: p in r.derivedFrom && p !in recs
    ensures Refusal(recs, r) == Some(Cycle) ==> CycleFrom(recs[r.id := r], r.id)
  {
    hide CycleFrom;
    ParentsAccepted(recs, r.id, r.derivedFrom);
    ParentRefusalNames(recs, r.id, r.derivedFrom);
  }

  lemma {:induction false} ParentRefusalNames(recs: Records, id: string, parents: seq<string>)
    ensures ParentRefusal(recs, id, parents) == Some(SelfReference) ==> id in parents
    ensures ParentRefusal(recs, id, parents) == Some(ParentNotFound) ==> exists p :: p in parents && p !in recs
    ensures ParentRefusal(recs, id, parents).Some? ==>
              ParentRefusal(recs, id, parents).value in [SelfReference, ParentNotFound]
  {
    if parents != [] {
      ParentRefusalNames(recs, id, parents[1..]);
      assert [SelfReference, ParentNotFound][0] == SelfReference && [SelfReference, ParentNotFound][1] == ParentNotFound;
      assert parents[0] in parents && forall p | p in parents[1..] :: p in parents;
    }
  }

  // ----------------------------------------------------------------- lineage

  datatype Trail = Trail(seen: set<string>, out: seq<Record>)

  /** The walk of Lineage: parents in sorted order, then the record itself. */
  function Visit(recs: Records, u: set<string>, id: string, t: Trail): (r: Trail)
    requires id in u && forall x, q | x in u && q in Parents(recs, x) :: q in u
    ensures t.seen <= r.seen
    decreases |u - t.seen|, 0
  {
    if id in t.seen then t
    else
      var parents := SortStrings(Parents(recs, id));
      assert forall q | q in parents :: q in multiset(parents);
      assert u - (t.seen + {id}) < u - t.seen by {
        assert id in u - t.seen;
      }
      SubsetSmaller(u - (t.seen + {id}), u - t.seen);
      var after := VisitAll(recs, u, parents, Trail(t.seen + {id}, t.out));
      Trail(after.seen, after.out + [Lookup(recs, id)])
  }

  function VisitAll(recs: Records, u: set<string>, ids: seq<string>, t: Trail): (r: Trail)
    requires forall q | q in ids :: q in u
    requires forall x, q | x in u && q in Parents(recs, x) :: q in u
    ensures t.seen <= r.seen
    decreases |u - t.seen|, |ids| + 1
  {
    if ids == [] then t
    else
      var next := Visit(recs, u, ids[0], t);
      SubsetNotLarger(u - next.seen, u - t.seen);
      VisitAll(recs, u, ids[1..], next)
  }

  lemma {:induction false} SubsetNotLarger(a: set<string>, b: set<string>)
    requires a <= b
    ensures |a| <= |b|
  {
    if a != {} {
      var x :| x in a;
      SubsetNotLarger(a - {x}, b - {x});
    }
  }

  lemma SubsetSmaller(a: set<string>, b: set<string>)
    requires a < b
    ensures |a| < |b|
  {
    var x :| x in b && x !in a;
    SubsetNotLarger(a, b - {x});
  }

  function LineageOf(recs: Records, id: string): seq<Record> {
    Visit(recs, Universe(recs) + {id}, id, Trail({}, [])).out
  }

  ghost predicate Listed(out: seq<Record>, id: string) {
    exists j | 0 <= j < |out| :: out[j].id == id
  }

  /** Finished records: each once, as stored, after all its parents. */
  ghost predicate Ordered(recs: Records, out: seq<Record>) {
    && (forall k | 0 <= k < |out| :: out[k].id in recs && out[k] == recs[out[k].id])
    && (forall j, k | 0 <= j < k < |out| :: out[j].id != out[k].id)
    && (forall k, p | 0 <= k < |out| && p in out[k].derivedFrom :: Listed(out[..k], p))
  }

  /** Seen is what is finished plus the stack, and the stack leads to where the walk stands. */
  ghost predicate Walking(recs: Records, stack: set<string>, t: Trail) {
    Ordered(recs, t.out) && forall x :: x in t.seen <==> x in stack || Listed(t.out, x)
  }

  lemma ListedSnoc(out: seq<Record>, r: Record)
    ensures forall x :: Listed(out + [r], x) <==> Listed(out, x) || x == r.id
  {
    forall x ensures Listed(out + [r], x) <==> Listed(out, x) || x == r.id {
      if Listed(out, x) {
        var j :| 0 <= j < |out| && out[j].id == x;
        assert (out + [r])[j].id == x;
      }
      assert (out + [r])[|out|] == r;
    }
  }

  lemma OrderedSnoc(recs: Records, out: seq<Record>, r: Record)
    requires Ordered(recs, out) && r.id in recs && recs[r.id] == r && !Listed(out, r.id)
    requires forall p | p in r.derivedFrom :: Listed(out, p)
    ensures Ordered(recs, out + [r])
  {
    var all := out + [r];
    forall k, p | 0 <= k < |all| && p in all[k].derivedFrom ensures Listed(all[..k], p) {
      assert all[..k] == if k < |out| then out[..k] else out;
    }
  }

  /** One visit finishes its record and whatever leads up to it, and leaves the stack as it was. */
  lemma {:induction false} VisitWalks(recs: Records, u: set<string>, id: string, t: Trail, stack: set<string>)
    requires Sound(recs) && id in recs && id in u && forall x, q | x in u && q in Parents(recs, x) :: q in u
    requires Walking(recs, stack, t) && forall x | x in stack :: Leads(recs, x, id)
    ensures var r := Visit(recs, u, id, t);
            && Walking(recs, stack, r) && Listed(r.out, id) && t.out <= r.out
            && (forall k | |t.out| <= k < |r.out| :: AncestorOrSelf(recs, r.out[k].id, id))
            && (id !in t.seen ==> r.out[|r.out| - 1].id == id && |r.out| > |t.out|)
    decreases |u - t.seen|, 0
  {
    hide Leads, Ordered, Listed;
    assert id !in stack;
    if id !in t.seen {
      var parents := SortStrings(Parents(recs, id));
      forall q | q in parents ensures q in u && q in recs && Leads(recs, id, q) {
        assert q in multiset(parents);
        EdgeLeads(recs, id, q);
      }
      var inner := Trail(t.seen + {id}, t.out);
      assert u - inner.seen < u - t.seen by {
        assert id in u - t.seen;
      }
      SubsetSmaller(u - inner.seen, u - t.seen);
      assert Walking(recs, stack + {id}, inner);
      VisitAllWalks(recs, u, parents, inner, stack + {id}, id);
      var after := VisitAll(recs, u, parents, inner);
      VisitFinishes(recs, parents, after, stack, id);
      var r := Visit(recs, u, id, t);
      assert r.out == after.out + [recs[id]];
    }
  }

  lemma VisitFinishes(recs: Records, parents: seq<string>, after: Trail, stack: set<string>, id: string)
    requires Sound(recs) && id in recs && id !in stack && Walking(recs, stack + {id}, after)
    requires parents == SortStrings(Parents(recs, id)) && forall q | q in parents :: Listed(after.out, q)
    requires !Listed(after.out, id)
    ensures Walking(recs, stack, Trail(after.seen, after.out + [recs[id]]))
    ensures Listed(after.out + [recs[id]], id)
  {
    hide Listed, Ordered, Leads, LocallyValid;
    SortHasSame(Parents(recs, id), Leq);
    ListedSnoc(after.out, recs[id]);
    OrderedSnoc(recs, after.out, recs[id]);
  }

  lemma {:induction false} VisitAllWalks(
    recs: Records, u: set<string>, ids: seq<string>, t: Trail, stack: set<string>, child: string)
    requires Sound(recs) && forall q | q in ids :: q in u && q in recs && Leads(recs, child, q)
    requires forall x, q | x in u && q in Parents(recs, x) :: q in u
    requires Walking(recs, stack, t) && child in stack && forall x | x in stack :: x == child || Leads(recs, x, child)
    requires !Listed(t.out, child)
    ensures var r := VisitAll(recs, u, ids, t);
            && Walking(recs, stack, r) && t.out <= r.out && !Listed(r.out, child)
            && (forall q | q in ids :: Listed(r.out, q))
            && (forall k | |t.out| <= k < |r.out| :: AncestorOrSelf(recs, r.out[k].id, child))
    decreases |u - t.seen|, |ids| + 1
  {
    hide Leads, Ordered;
    if ids != [] {
      var q := ids[0];
      forall x | x in stack ensures Leads(recs, x, q) {
        if x != child {
          LeadsTransitive(recs, x, child, q);
        }
      }
      VisitWalks(recs, u, q, t, stack);
      var next := Visit(recs, u, q, t);
      SubsetNotLarger(u - next.seen, u - t.seen);
      forall k | |t.out| <= k < |next.out| ensures Leads(recs, child, next.out[k].id) {
        if next.out[k].id != q {
          LeadsTransitive(recs, child, q, next.out[k].id);
        }
      }
      assert !Listed(next.out, child);
      VisitAllWalks(recs, u, ids[1..], next, stack, child);
      ListedGrows(next.out, VisitAll(recs, u, ids[1..], next).out, q);
    }
  }

  lemma ListedGrows(a: seq<Record>, b: seq<Record>, id: string)
    requires a <= b && Listed(a, id)
    ensures Listed(b, id)
  {
  }

  lemma ParentListed(recs: Records, out: seq<Record>, a: string, q: string)
    requires Ordered(recs, out) && Listed(out, a) && q in Parents(recs, a)
    ensures Listed(out, q)
  {
    var k :| 0 <= k < |out| && out[k].id == a;
    assert q in out[k].derivedFrom;
    ListedGrows(out[..k], out, q);
  }

  lemma {:induction false} ListedClosure(recs: Records, out: seq<Record>, n: nat, a: string, b: string)
    requires Ordered(recs, out) && Listed(out, a) && Steps(recs, n, a, b)
    ensures Listed(out, b)
  {
    hide Ordered, Listed;
    if n > 0 {
      var q :| q in Parents(recs, a) && Steps(recs, n - 1, q, b);
      ParentListed(recs, out, a, q);
      ListedClosure(recs, out, n - 1, q, b);
    }
  }

  /**
   Lineage lists exactly the record and its ancestors, each once and as stored,
   every parent before its children, the queried record last.
   */
  lemma LineageIsAncestry(recs: Records, id: string)
    requires Sound(recs) && id in recs
    ensures var out := LineageOf(recs, id);
            && Ordered(recs, out)
            && (forall a :: Listed(out, a) <==> AncestorOrSelf(recs, a, id))
            && out != [] && out[|out| - 1].id == id
  {
    hide Ordered, LocallyValid;
    var u := Universe(recs) + {id};
    forall x, q | x in u && q in Parents(recs, x) ensures q in u {
      UniverseIsClosed(recs, x);
    }
    var t := Trail({}, []);
    assert Ordered(recs, []) by {
      EmptyOrdered(recs);
    }
    VisitWalks(recs, u, id, t, {});
    var out := LineageOf(recs, id);
    forall a ensures Listed(out, a) <==> AncestorOrSelf(recs, a, id) {
      if Leads(recs, id, a) {
        var n: nat :| n > 0 && Steps(recs, n, id, a);
        ListedClosure(recs, out, n, id, a);
      }
    }
  }

  lemma EmptyOrdered(recs: Records)
    ensures Ordered(recs, [])
  {
  }

  // --------------------------------------------- order in which parents are written

  function IdsOf(out: seq<Record>): seq<string> {
    seq(|out|, i requires 0 <= i < |out| => out[i].id)
  }

  /** The same records, up to the order in which each lists its parents. */
  predicate Relisted(recs: Records, recs': Records) {
    && recs.Keys == recs'.Keys
    && forall id | id in recs ::
         recs[id].id == recs'[id].id && multiset(recs[id].derivedFrom) == multiset(recs'[id].derivedFrom)
  }

  lemma RelistedParents(recs: Records, recs': Records, id: string)
    requires Relisted(recs, recs')
    ensures SortStrings(Parents(recs, id)) == SortStrings(Parents(recs', id))
    ensures Lookup(recs, id).id == Lookup(recs', id).id
    ensures forall q :: q in Parents(recs, id) <==> q in Parents(recs', id)
  {
    LeqIsTotal();
    SortIgnoresOrder(Parents(recs, id), Parents(recs', id), Leq);
    forall q ensures q in Parents(recs, id) <==> q in Parents(recs', id) {
      assert q in multiset(Parents(recs, id)) <==> q in multiset(Parents(recs', id));
    }
  }

  lemma {:induction false} VisitAlike(recs: Records, recs': Records, u: set<string>, id: string, t: Trail, t': Trail)
    requires Relisted(recs, recs') && id in u && t.seen == t'.seen && IdsOf(t.out) == IdsOf(t'.out)
    requires forall x, q | x in u && q in Parents(recs, x) :: q in u
    requires forall x, q | x in u && q in Parents(recs', x) :: q in u
    ensures var r, r' := Visit(recs, u, id, t), Visit(recs', u, id, t'); r.seen == r'.seen && IdsOf(r.out) == IdsOf(r'.out)
    decreases |u - t.seen|, 0
  {
    if id !in t.seen {
      RelistedParents(recs, recs', id);
      var parents := SortStrings(Parents(recs, id));
      SortHasSame(Parents(recs, id), Leq);
      assert u - (t.seen + {id}) < u - t.seen by {
        assert id in u - t.seen;
      }
      SubsetSmaller(u - (t.seen + {id}), u - t.seen);
      var start, start' := Trail(t.seen + {id}, t.out), Trail(t'.seen + {id}, t'.out);
      VisitAllAlike(recs, recs', u, parents, start, start');
      var after, after' := VisitAll(recs, u, parents, start), VisitAll(recs', u, parents, start');
      IdsOfMore(after.out, Lookup(recs, id));
      IdsOfMore(after'.out, Lookup(recs', id));
    }
  }

  lemma {:induction false} VisitAllAlike(
    recs: Records, recs': Records, u: set<string>, ids: seq<string>, t: Trail, t': Trail)
    requires Relisted(recs, recs') && t.seen == t'.seen && IdsOf(t.out) == IdsOf(t'.out)
    requires forall q | q in ids :: q in u
    requires forall x, q | x in u && q in Parents(recs, x) :: q in u
    requires forall x, q | x in u && q in Parents(recs', x) :: q in u
    ensures var r, r' := VisitAll(recs, u, ids, t), VisitAll(recs', u, ids, t');
            r.seen == r'.seen && IdsOf(r.out) == IdsOf(r'.out)
    decreases |u - t.seen|, |ids| + 1
  {
    hide Relisted, IdsOf;
    if ids != [] {
      VisitAlike(recs, recs', u, ids[0], t, t');
      var next, next' := Visit(recs, u, ids[0], t), Visit(recs', u, ids[0], t');
      SubsetNotLarger(u - next.seen, u - t.seen);
      VisitAllAlike(recs, recs', u, ids[1..], next, next');
    }
  }

  lemma IdsOfMore(out: seq<Record>, r: Record)
    ensures IdsOf(out + [r]) == IdsOf(out) + [r.id]
  {
  }

  /** The lineage names the same records in the same order, however each record lists its parents. */
  lemma LineageIgnoresOrder(recs: Records, recs': Records, id: string)
    requires Relisted(recs, recs')
    ensures IdsOf(LineageOf(recs, id)) == IdsOf(LineageOf(recs', id))
  {
    hide Relisted;
    var u := Universe(recs) + {id};
    RelistedUniverse(recs, recs');
    forall x, q | x in u && q in Parents(recs, x) ensures q in u {
      UniverseIsClosed(recs, x);
    }
    forall x, q | x in u && q in Parents(recs', x) ensures q in u {
      UniverseIsClosed(recs', x);
    }
    VisitAlike(recs, recs', u, id, Trail({}, []), Trail({}, []));
  }

  lemma RelistedUniverse(recs: Records, recs': Records)
    requires Relisted(recs, recs')
    ensures Universe(recs) == Universe(recs')
  {
    forall id, q ensures id in recs && q in recs[id].derivedFrom <==> id in recs' && q in recs'[id].derivedFrom {
      RelistedParents(recs, recs', id);
    }
  }

  // ------------------------------------------------------------------- graph

  class Graph {
    var records: Records

    ghost predicate Valid()
      reads this
    {
      Sound(records)
    }

    constructor ()
      ensures records == map[] && Valid()
    {
      records := map[];
      new;
      forall id ensures !Leads(map[], id, id) {
        NothingLeads(id, id);
      }
    }

    /** Accepts a record or leaves the graph exactly as it was. */
    method Add(record: Record) returns (refused: Option<Error>)
      modifies this
      ensures refused == Refusal(old(records), record)
      ensures records == if refused.None? then old(records)[record.id := record] else old(records)
      ensures old(Valid()) ==> Valid() && refused != Some(Cycle)
    {
      hide Sound, CycleFrom;
      if old(Valid()) {
        AcceptedIff(records, record);
      }
      if record.id == "" {
        return Some(IdRequired);
      }
      if record.id in records {
        return Some(Exists);
      }
      if |record.derivedFrom| > 0 && (record.producerId == "" || record.transformationId == "") {
        return Some(ProducerRequired);
      }
      for i := 0 to |record.sourceVersions|
        invariant forall j | 0 <= j < i ::
                    record.sourceVersions[j].sourceId != "" && record.sourceVersions[j].versionId != ""
      {
        var ref := record.sourceVersions[i];
        if ref.sourceId == "" || ref.versionId == "" {
          return Some(VersionRequired);
        }
      }
      for i := 0 to |record.derivedFrom|
        invariant ParentRefusal(records, record.id, record.derivedFrom)
               == ParentRefusal(records, record.id, record.derivedFrom[i..])
      {
        var parent := record.derivedFrom[i];
        assert record.derivedFrom[i..][1..] == record.derivedFrom[i + 1..];
        if parent == record.id {
          return Some(SelfReference);
        }
        if parent !in records {
          return Some(ParentNotFound);
        }
      }
      records := records[record.id := record];
      var cyclic, _ := HasCycle(record.id, {}, {}, Universe(records) + {record.id});
      if cyclic {
        records := records - {record.id};
        assert records == old(records);
        return Some(Cycle);
      }
      return None;
    }

    method Get(id: string) returns (r: Option<Record>)
      ensures r == if id in records then Some(records[id]) else None
    {
      if id in records {
        r := Some(records[id]);
      } else {
        r := None;
      }
    }

    /**
     The depth-first search for a cycle: `visiting` is the stack, `done` the
     records already known to reach none.
     */
    method HasCycle(id: string, visiting: set<string>, done: set<string>, ghost u: set<string>)
      returns (cyclic: bool, finished: set<string>)
      requires id in u && visiting <= u && forall x, q | x in u && q in Parents(records, x) :: q in u
      requires forall x | x in visiting :: Leads(records, x, id)
      requires forall x | x in done :: !CycleFrom(records, x)
      ensures cyclic <==> CycleFrom(records, id)
      ensures !cyclic ==> done <= finished && forall x | x in finished :: !CycleFrom(records, x)
      decreases |u - visiting|
    {
      hide Leads;
      finished := done;
      if id in visiting {
        assert AncestorOrSelf(records, id, id);
        return true, finished;
      }
      if id in done {
        return false, finished;
      }
      var stack := visiting + {id};
      assert u - stack < u - visiting by {
        assert id in u - visiting;
      }
      SubsetSmaller(u - stack, u - visiting);
      CycleViaParent(records, id);
      var parents := Lookup(records, id).derivedFrom;
      for i := 0 to |parents|
        invariant done <= finished
        invariant forall x | x in finished :: !CycleFrom(records, x)
        invariant forall j | 0 <= j < i :: !CycleFrom(records, parents[j])
      {
        EdgeLeads(records, id, parents[i]);
        forall x | x in stack ensures Leads(records, x, parents[i]) {
          if x != id {
            LeadsTransitive(records, x, id, parents[i]);
          }
        }
        var found;
        found, finished := HasCycle(parents[i], stack, finished, u);
        if found {
          return true, finished;
        }
      }
      finished := finished + {id};
      return false, finished;
    }

    method Lineage(id: string) returns (r: Option<seq<Record>>)
      ensures r == if id in records then Some(LineageOf(records, id)) else None
    {
      if id !in records {
        return None;
      }
      ghost var u := Universe(records) + {id};
      forall x, q | x in u && q in Parents(records, x) ensures q in u {
        UniverseIsClosed(records, x);
      }
      var seen, out := Walk(id, {}, [], u);
      return Some(out);
    }

    /** walk: the two growing collections are handed on. */
    method Walk(id: string, seen: set<string>, out: seq<Record>, ghost u: set<string>)
      returns (seen': set<string>, out': seq<Record>)
      requires id in u && forall x, q | x in u && q in Parents(records, x) :: q in u
      ensures Trail(seen', out') == Visit(records, u, id, Trail(seen, out))
      decreases |u - seen|
    {
      seen', out' := seen, out;
      if id in seen {
        return;
      }
      seen' := seen' + {id};
      assert u - seen' < u - seen by {
        assert id in u - seen;
      }
      SubsetSmaller(u - seen', u - seen);
      var parents := SortStrings(Lookup(records, id).derivedFrom);
      SortHasSame(Parents(records, id), Leq);
      for i := 0 to |parents|
        invariant seen + {id} <= seen'
        invariant VisitAll(records, u, parents, Trail(seen + {id}, out))
               == VisitAll(records, u, parents[i..], Trail(seen', out'))
      {
        assert parents[i..][0] == parents[i] && parents[i..][1..] == parents[i + 1..];
        SubsetNotLarger(u - seen', u - (seen + {id}));
        ghost var before := Trail(seen', out');
        seen', out' := Walk(parents[i], seen', out', u);
        assert before.seen <= seen';
      }
      out' := out' + [Lookup(records, id)];
    }
  }

  lemma {:induction false} NothingLeads(a: string, b: string)
    ensures !Leads(map[], a, b)
  {
  }

  // ------------------------------------------------------------------ import

  predicate DistinctIds(records: seq<Record>) {
    forall i, j | 0 <= i < j < |records| :: records[i].id != records[j].id
  }

  function MapOf(records: seq<Record>): Records {
    if records == [] then map[]
    else MapOf(records[..|records| - 1])[records[|records| - 1].id := records[|records| - 1]]
  }

  /** A list that can be imported, whatever order it is in. */
  ghost predicate Importable(records: seq<Record>) {
    Complete(records) && Acyclic(MapOf(records))
  }

  ghost predicate Complete(records: seq<Record>) {
    && DistinctIds(records)
    && (forall r | r in records :: LocallyValid(r))
    && (forall r, p | r in records && p in r.derivedFrom :: HasId(records, p))
  }

  lemma {:induction false} MapOfHas(records: seq<Record>)
    requires DistinctIds(records)
    ensures forall id :: id in MapOf(records) <==> HasId(records, id)
    ensures forall r | r in records :: HasId(records, r.id) && MapOf(records)[r.id] == r
  {
    hide HasId;
    if records != [] {
      var before, last := records[..|records| - 1], records[|records| - 1];
      assert records == before + [last];
      MapOfHas(before);
      HasIdSnoc(before, last);
      DistinctLast(records);
      forall r | r in records ensures HasId(records, r.id) && MapOf(records)[r.id] == r {
        if r in before {
          assert HasId(before, r.id);
        }
      }
    }
    NoIds();
  }

  predicate HasId(records: seq<Record>, id: string) {
    exists r | r in records :: r.id == id
  }

  lemma NoIds()
    ensures forall id :: !HasId([], id)
  {
  }

  lemma HasIdSnoc(before: seq<Record>, last: Record)
    ensures forall id :: HasId(before + [last], id) <==> HasId(before, id) || id == last.id
  {
    forall id ensures HasId(before + [last], id) <==> HasId(before, id) || id == last.id {
      if HasId(before, id) {
        var r :| r in before && r.id == id;
        assert r in before + [last];
      }
      assert last in before + [last];
    }
  }

  lemma DistinctLast(records: seq<Record>)
    requires DistinctIds(records) && records != []
    ensures DistinctIds(records[..|records| - 1]) && !HasId(records[..|records| - 1], records[|records| - 1].id)
  {
  }

  /** A record of the remainder has a parent in the remainder. */
  ghost predicate Waits(recs: Records, rest: set<string>, id: string) {
    exists q | q in Parents(recs, id) :: q in rest
  }

  lemma WaitsFor(recs: Records, rest: set<string>, id: string) returns (q: string)
    requires Waits(recs, rest, id)
    ensures q in Parents(recs, id) && q in rest
  {
    q :| q in Parents(recs, id) && q in rest;
  }

  /** Records that all wait for one another form a cycle. */
  lemma {:induction false} WaitingIsCyclic(recs: Records, rest: set<string>, visited: set<string>, id: string)
    requires id in rest && visited <= rest
    requires forall x | x in rest :: Waits(recs, rest, x)
    requires forall x | x in visited :: Leads(recs, x, id)
    ensures exists x :: Leads(recs, x, x)
    decreases |rest - visited|
  {
    hide Leads, Waits;
    if id !in visited {
      var q := WaitsFor(recs, rest, id);
      EdgeLeads(recs, id, q);
      forall x | x in visited + {id} ensures Leads(recs, x, q) {
        if x != id {
          LeadsTransitive(recs, x, id, q);
        }
      }
      assert rest - (visited + {id}) < rest - visited by {
        assert id in rest - visited;
      }
      SubsetSmaller(rest - (visited + {id}), rest - visited);
      WaitingIsCyclic(recs, rest, visited + {id}, q);
    }
  }

  /** Between two additions: every record is in the graph or still pending, and none is lost. */
  ghost predicate Importing(records: seq<Record>, pending: seq<Record>, recs: Records) {
    && Sound(recs)
    && (forall id | id in recs :: recs[id] in records)
    && (forall r | r in pending :: r in records)
    && (forall r | r in records :: r in pending || (r.id in recs && recs[r.id] == r))
    && |recs| + |pending| == |records|
    && (DistinctIds(records) ==> DistinctIds(pending) && forall r | r in pending :: r.id !in recs)
  }

  lemma ImportStarts(records: seq<Record>)
    ensures Importing(records, records, map[])
  {
    forall id ensures !Leads(map[], id, id) {
      NothingLeads(id, id);
    }
  }

  lemma ImportAdds(records: seq<Record>, a: seq<Record>, r: Record, b: seq<Record>, recs: Records)
    requires Importing(records, a + [r] + b, recs) && Refusal(recs, r).None?
    ensures Importing(records, a + b, recs[r.id := r])
  {
    hide Sound, Refusal, DistinctIds;
    AcceptedIff(recs, r);
    var pending, pending' := a + [r] + b, a + b;
    MiddleGone(a, r, b);
    assert r in pending;
    if DistinctIds(records) {
      MiddleDistinct(a, r, b);
    }
  }

  lemma MiddleGone(a: seq<Record>, r: Record, b: seq<Record>)
    ensures forall x :: x in a + [r] + b <==> x in a + b || x == r
  {
    forall x ensures x in a + [r] + b <==> x in a || x == r || x in b {
      assert r == (a + [r] + b)[|a|];
    }
  }

  lemma MiddleDistinct(a: seq<Record>, r: Record, b: seq<Record>)
    requires DistinctIds(a + [r] + b)
    ensures DistinctIds(a + b) && forall x | x in a + b :: x.id != r.id
  {
    var pending, pending' := a + [r] + b, a + b;
    assert pending[|a|] == r;
    forall i, j | 0 <= i < j < |pending'| ensures pending'[i].id != pending'[j].id {
      assert pending'[i] == pending[if i < |a| then i else i + 1];
      assert pending'[j] == pending[if j < |a| then j else j + 1];
    }
    forall x | x in pending' ensures x.id != r.id {
      var k :| 0 <= k < |pending'| && pending'[k] == x;
      assert x == pending[if k < |a| then k else k + 1];
    }
  }

  function IdSet(records: seq<Record>): set<string> {
    set r | r in records :: r.id
  }

  /** A repeated id makes fewer ids than records. */
  lemma {:induction false} FewerIds(records: seq<Record>)
    ensures |IdSet(records)| <= |records|
    ensures |IdSet(records)| == |records| ==> DistinctIds(records)
  {
    if records != [] {
      var before, last := records[..|records| - 1], records[|records| - 1];
      FewerIds(before);
      assert records == before + [last];
      assert IdSet(records) == IdSet(before) + {last.id};
      if last.id in IdSet(before) {
        assert IdSet(records) == IdSet(before);
      }
    }
  }

  lemma ImportEnds(records: seq<Record>, recs: Records)
    requires Importing(records, [], recs)
    ensures Importable(records)
  {
    hide Acyclic, LocallyValid;
    assert recs.Keys == IdSet(records) by {
      forall id | id in recs ensures id in IdSet(records) {
        assert recs[id] in records && recs[id].id == id;
      }
    }
    assert |recs| == |recs.Keys|;
    FewerIds(records);
    MapOfHas(records);
    MapsAgree(records, recs);
    forall r, p | r in records && p in r.derivedFrom ensures HasId(records, p) {
      assert recs[r.id] == r && p in recs;
      assert recs[p] in records && recs[p].id == p;
    }
  }

  lemma MapsAgree(records: seq<Record>, recs: Records)
    requires DistinctIds(records) && (forall id | id in recs :: recs[id] in records && recs[id].id == id)
    requires forall r | r in records :: r.id in recs && recs[r.id] == r
    ensures MapOf(records) == recs
  {
    MapOfHas(records);
    forall id ensures id in MapOf(records) <==> id in recs {
      if HasId(records, id) {
        var r :| r in records && r.id == id;
      }
    }
    forall id | id in recs ensures MapOf(records)[id] == recs[id] {
      assert recs[id] in records;
    }
  }

  /** A pass that adds nothing proves that no order would do. */
  lemma ImportStuck(records: seq<Record>, pending: seq<Record>, recs: Records)
    requires Importing(records, pending, recs) && pending != []
    requires forall r | r in pending :: Refusal(recs, r).Some?
    ensures !Importable(records)
  {
    if Importable(records) {
      StuckIsCyclic(records, pending, recs);
    }
  }

  lemma StuckIsCyclic(records: seq<Record>, pending: seq<Record>, recs: Records)
    requires Importing(records, pending, recs) && pending != [] && Complete(records)
    requires forall r | r in pending :: Refusal(recs, r).Some?
    ensures !Acyclic(MapOf(records))
  {
    hide Acyclic, LocallyValid, Refusal, Sound, HasId, Waits, Leads;
    var all := MapOf(records);
    MapOfHas(records);
    var rest := IdSet(pending);
    forall id | id in rest ensures Waits(all, rest, id) {
      var r :| r in pending && r.id == id;
      PendingWaits(records, pending, recs, r);
    }
    assert pending[0].id in rest;
    WaitingIsCyclic(all, rest, {}, pending[0].id);
    var x :| Leads(all, x, x);
    SelfLeadIsCyclic(all, x);
  }

  lemma SelfLeadIsCyclic(recs: Records, x: string)
    requires Leads(recs, x, x)
    ensures !Acyclic(recs)
  {
  }

  lemma PendingWaits(records: seq<Record>, pending: seq<Record>, recs: Records, r: Record)
    requires Importing(records, pending, recs) && Complete(records) && r in pending && Refusal(recs, r).Some?
    ensures Waits(MapOf(records), IdSet(pending), r.id)
  {
    hide Acyclic, LocallyValid, Refusal, Sound, HasId;
    MapOfHas(records);
    AcceptedIff(recs, r);
    assert r in records;
    var p :| p in r.derivedFrom && p !in recs;
    assert HasId(records, p);
    var q := HasIdRecord(records, p);
    assert q in pending;
    assert p in IdSet(pending);
    assert p in Parents(MapOf(records), r.id);
  }

  lemma HasIdRecord(records: seq<Record>, p: string) returns (q: Record)
    requires HasId(records, p)
    ensures q in records && q.id == p
  {
    q :| q in records && q.id == p;
  }

  /**
   validateProvenance: passes over what is left until nothing is, or a pass adds
   nothing. It succeeds exactly on the lists that can be imported in some order.
   */
  method ValidateProvenance(records: seq<Record>) returns (ok: bool)
    ensures ok <==> Importable(records)
  {
    hide Importable, Importing, Sound, Refusal;
    var remaining := records;
    var g := new Graph();
    ImportStarts(records);
    while |remaining| > 0
      invariant fresh(g) && g.Valid() && Importing(records, remaining, g.records)
      decreases |remaining|
    {
      var progress := false;
      var next: seq<Record> := [];
      ghost var start := g.records;
      assert next + remaining[0..] == remaining;
      for i := 0 to |remaining|
        invariant fresh(g) && g.Valid() && |next| <= i && (progress ==> |next| < i)
        invariant Importing(records, next + remaining[i..], g.records)
        invariant !progress ==> g.records == start && next == remaining[..i]
        invariant !progress ==> forall j | 0 <= j < i :: Refusal(start, remaining[j]).Some?
      {
        var r := remaining[i];
        assert next + remaining[i..] == next + [r] + remaining[i + 1..];
        ghost var before := g.records;
        var refused := g.Add(r);
        if refused.None? {
          ImportAdds(records, next, r, remaining[i + 1..], before);
          progress := true;
        } else {
          next := next + [r];
        }
      }
      assert next + remaining[|remaining|..] == next;
      if !progress {
        assert next == remaining;
        ImportStuck(records, remaining, g.records);
        return false;
      }
      remaining := next;
    }
    assert remaining == [];
    ImportEnds(records, g.records);
    return true;
  }

  /** The verdict does not depend on the order of the list. */
  lemma ImportIgnoresOrder(a: seq<Record>, b: seq<Record>)
    requires multiset(a) == multiset(b) && Importable(a)
    ensures Importable(b)
  {
    hide Acyclic, LocallyValid;
    forall r ensures r in a <==> r in b {
      assert r in multiset(a) <==> r in multiset(b);
    }
    assert |a| == |multiset(a)| == |b|;
    assert IdSet(a) == IdSet(b);
    DistinctFillsIds(a);
    FewerIds(b);
    MapOfHas(a);
    MapsAgree(b, MapOf(a)) by {
      forall id | id in MapOf(a) ensures MapOf(a)[id] in b && MapOf(a)[id].id == id {
        var r := HasIdRecord(a, id);
      }
    }
    forall r, p | r in b && p in r.derivedFrom ensures HasId(b, p) {
      var q := HasIdRecord(a, p);
    }
  }

  lemma {:induction false} DistinctFillsIds(records: seq<Record>)
    requires DistinctIds(records)
    ensures |IdSet(records)| == |records|
  {
    if records != [] {
      var before, last := records[..|records| - 1], records[|records| - 1];
      DistinctFillsIds(before);
      assert records == before + [last];
      assert IdSet(records) == IdSet(before) + {last.id};
      assert last.id !in IdSet(before);
    }
  }
}
