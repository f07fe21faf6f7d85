/**
 Go strings and byte slices are modelled as `string`, one character a byte.
 This module has the order Go's sort.Strings uses and what the ledger needs
 of prefixes, suffixes and path components.
 */
module Text {
  /** What a Go string or byte slice can hold: its length is an int. */
  predicate Fits(s: string) {
    |s| < 0x8000_0000_0000_0000
  }

  predicate HasPrefix(s: string, prefix: string) {
    prefix <= s
  }

  predicate HasSuffix(s: string, suffix: string) {
    |suffix| <= |s| && s[|s| - |suffix|..] == suffix
  }

  predicate ContainsAny(s: string, chars: string) {
    exists i | 0 <= i < |s| :: s[i] in chars
  }

  /** strings.ToLower on the hexadecimal identities it is applied to. */
  function ToLower(s: string): (r: string)
    ensures |r| == |s|
    ensures (forall i | 0 <= i < |s| :: !('A' <= s[i] <= 'Z')) ==> r == s
  {
    if s == "" then "" else [LowerChar(s[0])] + ToLower(s[1..])
  }

  function LowerChar(c: char): char {
    if 'A' <= c <= 'Z' then (c as int + 32) as char else c
  }

  /** strings.Split(s, "/"). */
  function Split(s: string): (parts: seq<string>)
    ensures |parts| >= 1
  {
    if s == "" then [""]
    else
      var rest := Split(s[1..]);
      if s[0] == '/' then [""] + rest else [[s[0]] + rest[0]] + rest[1..]
  }

  /** Byte-wise lexicographic order. */
  predicate Leq(a: string, b: string) {
    a == "" || (b != "" && (a[0] < b[0] || (a[0] == b[0] && Leq(a[1..], b[1..]))))
  }

  /** Byte by byte: a prefix comes first, and otherwise the first difference decides. */
  lemma {:induction false} LeqIsLexicographic(a: string, b: string)
    ensures Leq(a, b) <==> a <= b || exists k :: 0 <= k < |a| && k < |b| && a[..k] == b[..k] && a[k] < b[k]
  {
    if a != "" && b != "" && a[0] == b[0] {
      var ra, rb := a[1..], b[1..];
      LeqIsLexicographic(ra, rb);
      assert a == [a[0]] + ra && b == [b[0]] + rb;
      if k :| 0 <= k < |ra| && k < |rb| && ra[..k] == rb[..k] && ra[k] < rb[k] {
        assert a[..k + 1] == [a[0]] + ra[..k] && b[..k + 1] == [b[0]] + rb[..k] && a[k + 1] < b[k + 1];
      }
      if k :| 0 <= k < |a| && k < |b| && a[..k] == b[..k] && a[k] < b[k] {
        assert k > 0 && ra[..k - 1] == a[..k][1..] && rb[..k - 1] == b[..k][1..] && ra[k - 1] < rb[k - 1];
      }
    } else if a != "" && b != "" {
      assert a[..0] == b[..0];
      if k :| 0 <= k < |a| && k < |b| && a[..k] == b[..k] && a[k] < b[k] {
        assert k > 0 ==> a[..k][0] == b[..k][0];
      }
    }
  }

  lemma {:induction false} ToLowerIs(s: string, i: nat)
    requires i < |s|
    ensures ToLower(s)[i] == if 'A' <= s[i] <= 'Z' then 'a' + (s[i] - 'A') else s[i]
  {
    if i > 0 {
      ToLowerIs(s[1..], i - 1);
    }
  }

  lemma {:induction false} LeqTotal(a: string, b: string)
    ensures Leq(a, b) || Leq(b, a)
  {
    if a != "" && b != "" && a[0] == b[0] {
      LeqTotal(a[1..], b[1..]);
    }
  }

  lemma {:induction false} LeqAntisymmetric(a: string, b: string)
    requires Leq(a, b) && Leq(b, a)
    ensures a == b
  {
    if a != "" {
      LeqAntisymmetric(a[1..], b[1..]);
      assert a == [a[0]] + a[1..] && b == [b[0]] + b[1..];
    }
  }

  lemma {:induction false} LeqTransitive(a: string, b: string, c: string)
    requires Leq(a, b) && Leq(b, c)
    ensures Leq(a, c)
  {
    if a != "" && a[0] == b[0] && b[0] == c[0] {
      LeqTransitive(a[1..], b[1..], c[1..]);
    }
  }

  lemma {:induction false} LeastExists(s: set<string>)
    requires s != {}
    ensures exists m :: m in s && forall x | x in s :: Leq(m, x)
  {
    var y :| y in s;
    LeqTotal(y, y);
    if s != {y} {
      var rest := s - {y};
      LeastExists(rest);
      var m :| m in rest && forall x | x in rest :: Leq(m, x);
      LeqTotal(y, m);
      var least := if Leq(y, m) then y else m;
      forall x | x in s ensures Leq(least, x) {
        if x in rest && Leq(y, m) {
          LeqTransitive(y, m, x);
        }
      }
    }
  }

  lemma LeastIsUnique(s: set<string>)
    ensures forall m, n ::
              m in s && n in s && (forall x | x in s :: Leq(m, x)) && (forall x | x in s :: Leq(n, x)) ==> m == n
  {
    forall m, n | m in s && n in s && (forall x | x in s :: Leq(m, x)) && (forall x | x in s :: Leq(n, x))
      ensures m == n
    {
      LeqAntisymmetric(m, n);
    }
  }

  function Least(s: set<string>): (m: string)
    requires s != {}
    ensures m in s && forall x | x in s :: Leq(m, x)
  {
    LeastExists(s);
    LeastIsUnique(s);
    var m :| m in s && forall x | x in s :: Leq(m, x);
    m
  }

  /** The elements of a set of paths in lexical order, each once. */
  function SortedPaths(s: set<string>): (r: seq<string>)
    ensures |r| == |s|
    ensures forall p :: p in r <==> p in s
    ensures forall i, j | 0 <= i < j < |r| :: r[i] != r[j] && Leq(r[i], r[j])
  {
    if s == {} then []
    else
      var m := Least(s);
      [m] + SortedPaths(s - {m})
  }

  lemma SortedSingleton(p: string)
    ensures SortedPaths({p}) == [p]
  {
    var r := SortedPaths({p});
    assert r[0] in r;
  }
}
