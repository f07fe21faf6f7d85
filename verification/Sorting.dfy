/** What the ledger relies on of sort.Slice and sort.Strings: a sorted permutation, unique where keys differ. */
module Sorting {
  import opened Text

  ghost predicate TotalPreorder<T(!new)>(le: (T, T) -> bool) {
    (forall x, y :: le(x, y) || le(y, x)) && (forall x, y, z :: le(x, y) && le(y, z) ==> le(x, z))
  }

  ghost predicate Sorted<T>(s: seq<T>, le: (T, T) -> bool) {
    forall i, j | 0 <= i < j < |s| :: le(s[i], s[j])
  }

  function Insert<T>(x: T, s: seq<T>, le: (T, T) -> bool): (r: seq<T>)
    ensures multiset(r) == multiset(s) + multiset{x}
  {
    if s == [] then [x]
    else if le(x, s[0]) then [x] + s
    else
      assert s == [s[0]] + s[1..];
      [s[0]] + Insert(x, s[1..], le)
  }

  function Sort<T>(s: seq<T>, le: (T, T) -> bool): (r: seq<T>)
    ensures multiset(r) == multiset(s) && |r| == |s|
  {
    if s == [] then []
    else
      assert s == [s[0]] + s[1..];
      var r := Insert(s[0], Sort(s[1..], le), le);
      assert |multiset(r)| == |r| && |multiset(s)| == |s|;
      r
  }

  lemma {:induction false} InsertSorts<T(!new)>(x: T, s: seq<T>, le: (T, T) -> bool)
    requires TotalPreorder(le) && Sorted(s, le)
    ensures Sorted(Insert(x, s, le), le)
  {
    if s != [] && !le(x, s[0]) {
      InsertSorts(x, s[1..], le);
      var rest := Insert(x, s[1..], le);
      forall j | 0 <= j < |rest| ensures le(s[0], rest[j]) {
        assert rest[j] in multiset(rest);
        assert rest[j] == x || rest[j] in s[1..];
      }
    } else if s != [] {
      forall j | 0 <= j < |s| ensures le(x, s[j]) {
        assert j > 0 ==> le(s[0], s[j]);
      }
    }
  }

  lemma {:induction false} SortSorts<T(!new)>(s: seq<T>, le: (T, T) -> bool)
    requires TotalPreorder(le)
    ensures Sorted(Sort(s, le), le)
  {
    if s != [] {
      SortSorts(s[1..], le);
      InsertSorts(s[0], Sort(s[1..], le), le);
    }
  }

  /** Where only equal elements compare both ways, there is one sorted arrangement. */
  lemma {:induction false} SortedIsUnique<T(!new)>(a: seq<T>, b: seq<T>, le: (T, T) -> bool)
    requires TotalPreorder(le) && Sorted(a, le) && Sorted(b, le) && multiset(a) == multiset(b)
    requires forall x, y | x in a && y in a :: le(x, y) && le(y, x) ==> x == y
    ensures a == b
  {
    assert |a| == |multiset(a)| == |multiset(b)| == |b|;
    if a != [] {
      assert a[0] in multiset(b) && b[0] in multiset(a);
      assert le(a[0], b[0]) by {
        var k :| 0 <= k < |a| && a[k] == b[0];
        assert k == 0 || le(a[0], a[k]);
        assert le(a[0], a[0]);
      }
      assert le(b[0], a[0]) by {
        var k :| 0 <= k < |b| && b[k] == a[0];
        assert k == 0 || le(b[0], b[k]);
        assert le(b[0], b[0]);
      }
      assert a == [a[0]] + a[1..] && b == [b[0]] + b[1..];
      assert multiset(a[1..]) == multiset(a) - multiset{a[0]};
      assert multiset(b[1..]) == multiset(b) - multiset{b[0]};
      SortedIsUnique(a[1..], b[1..], le);
    }
  }

  /** Sorting forgets the order it was given. */
  lemma SortIgnoresOrder<T(!new)>(a: seq<T>, b: seq<T>, le: (T, T) -> bool)
    requires TotalPreorder(le) && multiset(a) == multiset(b)
    requires forall x, y | x in a && y in a :: le(x, y) && le(y, x) ==> x == y
    ensures Sort(a, le) == Sort(b, le)
  {
    SortSorts(a, le);
    SortSorts(b, le);
    forall x | x in Sort(a, le) ensures x in a {
      assert x in multiset(Sort(a, le));
    }
    SortedIsUnique(Sort(a, le), Sort(b, le), le);
  }

  /** Sorting what is sorted changes nothing. */
  lemma SortIsIdempotent<T(!new)>(a: seq<T>, le: (T, T) -> bool)
    requires TotalPreorder(le) && Sorted(a, le)
    requires forall x, y | x in a && y in a :: le(x, y) && le(y, x) ==> x == y
    ensures Sort(a, le) == a
  {
    SortSorts(a, le);
    forall x | x in Sort(a, le) ensures x in a {
      assert x in multiset(Sort(a, le));
    }
    SortedIsUnique(Sort(a, le), a, le);
  }

  lemma SortHasSame<T>(s: seq<T>, le: (T, T) -> bool)
    ensures forall x :: x in Sort(s, le) <==> x in s
  {
    forall x ensures x in Sort(s, le) <==> x in s {
      assert x in multiset(Sort(s, le)) <==> x in multiset(s);
    }
  }

  // ----------------------------------------------------------------- strings

  function SortStrings(s: seq<string>): (r: seq<string>)
    ensures multiset(r) == multiset(s)
  {
    Sort(s, Leq)
  }

  lemma LeqIsTotal()
    ensures TotalPreorder(Leq)
    ensures forall x, y :: Leq(x, y) && Leq(y, x) ==> x == y
  {
    forall x, y ensures Leq(x, y) || Leq(y, x) {
      LeqTotal(x, y);
    }
    forall x, y, z | Leq(x, y) && Leq(y, z) ensures Leq(x, z) {
      LeqTransitive(x, y, z);
    }
    forall x, y | Leq(x, y) && Leq(y, x) ensures x == y {
      LeqAntisymmetric(x, y);
    }
  }
}
