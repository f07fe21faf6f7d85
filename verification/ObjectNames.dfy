/** Lower-case names that determine the whole commit exist: what is assumed of object names can be met. */
module ObjectNames {
  import opened Text
  import opened Git

  predicate Digits(s: string) {
    forall i | 0 <= i < |s| :: '0' <= s[i] <= '2'
  }

  /** A code whose end can be told when anything follows it. */
  ghost predicate Separable<T(!new)>(f: T -> string) {
    && (forall a :: Digits(f(a)))
    && (forall a, b, x, y :: f(a) + x == f(b) + y ==> a == b && x == y)
  }

  // ----------------------------------------------------------------- numbers

  function Number(n: nat): (s: string)
    ensures Digits(s) && s != ""
  {
    if n == 0 then "1" else "0" + Number(n - 1)
  }

  lemma {:induction false} NumberSeparates(a: nat, b: nat, x: string, y: string)
    requires Number(a) + x == Number(b) + y
    ensures a == b && x == y
  {
    var s, t := Number(a) + x, Number(b) + y;
    assert s[0] == (if a == 0 then '1' else '0') && t[0] == (if b == 0 then '1' else '0');
    if a == 0 {
      assert s[1..] == x && t[1..] == y;
    } else {
      assert s[1..] == Number(a - 1) + x && t[1..] == Number(b - 1) + y;
      NumberSeparates(a - 1, b - 1, x, y);
    }
  }

  // ------------------------------------------------------------------- lists

  function Flat<T>(f: T -> string, s: seq<T>): string {
    if s == [] then "" else f(s[0]) + Flat(f, s[1..])
  }

  function List<T>(f: T -> string, s: seq<T>): string {
    Number(|s|) + Flat(f, s)
  }

  lemma {:induction false} FlatSeparates<T(!new)>(f: T -> string, s: seq<T>, t: seq<T>, x: string, y: string)
    requires Separable(f) && |s| == |t| && Flat(f, s) + x == Flat(f, t) + y
    ensures s == t && x == y
  {
    if s == [] {
      assert Flat(f, s) + x == x && Flat(f, t) + y == y;
    } else {
      assert Flat(f, s) + x == f(s[0]) + (Flat(f, s[1..]) + x);
      assert Flat(f, t) + y == f(t[0]) + (Flat(f, t[1..]) + y);
      FlatSeparates(f, s[1..], t[1..], x, y);
      assert s == [s[0]] + s[1..] && t == [t[0]] + t[1..];
    }
  }

  lemma {:induction false} FlatDigits<T(!new)>(f: T -> string, s: seq<T>)
    requires Separable(f)
    ensures Digits(Flat(f, s))
  {
    if s != [] {
      FlatDigits(f, s[1..]);
    }
  }

  lemma ListSeparates<T(!new)>(f: T -> string, s: seq<T>, t: seq<T>, x: string, y: string)
    requires Separable(f) && List(f, s) + x == List(f, t) + y
    ensures s == t && x == y
  {
    hide Flat, Number, Separable;
    assert List(f, s) + x == Number(|s|) + (Flat(f, s) + x);
    assert List(f, t) + y == Number(|t|) + (Flat(f, t) + y);
    NumberSeparates(|s|, |t|, Flat(f, s) + x, Flat(f, t) + y);
    FlatSeparates(f, s, t, x, y);
  }

  // ------------------------------------------------------------------- trees

  const CHAR := (c: char) => Number(c as int)

  function Chars(s: string): string {
    List(CHAR, s)
  }

  lemma CharsSeparable()
    ensures Separable(Chars)
  {
    hide Number, Flat;
    forall a, b, x, y | CHAR(a) + x == CHAR(b) + y ensures a == b && x == y {
      NumberSeparates(a as int, b as int, x, y);
    }
    assert Separable(CHAR);
    forall s ensures Digits(Chars(s)) {
      FlatDigits(CHAR, s);
    }
    forall s, t, x, y | Chars(s) + x == Chars(t) + y ensures s == t && x == y {
      ListSeparates(CHAR, s, t, x, y);
    }
  }

  lemma CharsSeparate(s: string, t: string, x: string, y: string)
    requires Chars(s) + x == Chars(t) + y
    ensures s == t && x == y
  {
    hide Chars;
    CharsSeparable();
  }

  function ModeOf(m: Mode): string {
    match m
    case Plain => "0"
    case Executable => "1"
    case Special(kind) => "2" + Chars(kind)
  }

  lemma ModeSeparates(a: Mode, b: Mode, x: string, y: string)
    requires ModeOf(a) + x == ModeOf(b) + y
    ensures a == b && x == y
  {
    hide Chars;
    var s, t := ModeOf(a) + x, ModeOf(b) + y;
    assert s[0] == ModeOf(a)[0] && t[0] == ModeOf(b)[0];
    if a.Special? {
      KindFollows(a.kind, x);
      KindFollows(b.kind, y);
      CharsSeparate(a.kind, b.kind, x, y);
    } else {
      assert s[1..] == x && t[1..] == y;
    }
  }

  lemma KindFollows(kind: string, x: string)
    ensures (ModeOf(Special(kind)) + x)[1..] == Chars(kind) + x
  {
    hide Chars;
  }

  /** One entry of a tree. */
  function EntryCode(e: (string, Blob)): string {
    Chars(e.0) + (ModeOf(e.1.mode) + Chars(e.1.bytes))
  }

  lemma EntrySeparable()
    ensures Separable(EntryCode)
  {
    hide Chars, ModeOf;
    CharsSeparable();
    forall e ensures Digits(EntryCode(e)) {
      ModeDigits(e.1.mode);
    }
    forall d, e, x, y | EntryCode(d) + x == EntryCode(e) + y ensures d == e && x == y {
      var u, v := Chars(d.1.bytes) + x, Chars(e.1.bytes) + y;
      assert EntryCode(d) + x == Chars(d.0) + (ModeOf(d.1.mode) + u);
      assert EntryCode(e) + y == Chars(e.0) + (ModeOf(e.1.mode) + v);
      ModeSeparates(d.1.mode, e.1.mode, u, v);
    }
  }

  lemma ModeDigits(m: Mode)
    ensures Digits(ModeOf(m))
  {
    hide Chars;
    CharsSeparable();
  }

  function Entries(t: Tree): (s: seq<(string, Blob)>)
    ensures |s| == |SortedPaths(t.Keys)|
    ensures forall i | 0 <= i < |s| :: SortedPaths(t.Keys)[i] in t && s[i] == (SortedPaths(t.Keys)[i], t[SortedPaths(t.Keys)[i]])
  {
    var keys := SortedPaths(t.Keys);
    assert forall i | 0 <= i < |keys| :: keys[i] in keys;
    seq(|keys|, i requires 0 <= i < |keys| => (keys[i], t[keys[i]]))
  }

  lemma EntriesDetermine(t: Tree, u: Tree)
    requires Entries(t) == Entries(u)
    ensures t == u
  {
    hide SortedPaths, Entries, Leq;
    SameEntries(t, u);
    var a := SortedPaths(t.Keys);
    assert forall p :: p in t.Keys <==> p in a;
    assert t.Keys == u.Keys;
    forall p | p in t ensures t[p] == u[p] {
      var i :| 0 <= i < |a| && a[i] == p;
    }
  }

  lemma SameEntries(t: Tree, u: Tree)
    requires Entries(t) == Entries(u)
    ensures SortedPaths(t.Keys) == SortedPaths(u.Keys)
    ensures forall i | 0 <= i < |SortedPaths(t.Keys)| ::
              var p := SortedPaths(t.Keys)[i]; p in t && p in u && t[p] == u[p]
  {
    hide SortedPaths, Entries, Leq;
    var a, b := SortedPaths(t.Keys), SortedPaths(u.Keys);
    assert |a| == |b|;
    forall i | 0 <= i < |a| ensures a[i] == b[i] && a[i] in t && a[i] in u && t[a[i]] == u[a[i]] {
      assert Entries(t)[i] == Entries(u)[i];
    }
  }

  // ----------------------------------------------------------------- commits

  function Name(c: Commit): string
    decreases c
  {
    Number(|c.parents|) + (Names(c.parents) + Rest(c))
  }

  function Names(h: seq<Commit>): string
    decreases h
  {
    if h == [] then "" else Name(h[0]) + Names(h[1..])
  }

  /** What follows the parents' names. */
  function Rest(c: Commit): string {
    TreeCode(c.tree) + Chars(c.message)
  }

  lemma RestSeparates(a: Commit, b: Commit, x: string, y: string)
    requires Rest(a) + x == Rest(b) + y
    ensures a.tree == b.tree && a.message == b.message && x == y
  {
    hide TreeCode, Chars;
    var m, n := Chars(a.message) + x, Chars(b.message) + y;
    assert Rest(a) + x == TreeCode(a.tree) + m;
    assert Rest(b) + y == TreeCode(b.tree) + n;
    TreeSeparates(a.tree, b.tree, m, n);
    CharsSeparate(a.message, b.message, x, y);
  }

  function TreeCode(t: Tree): string {
    List(EntryCode, Entries(t))
  }

  lemma TreeSeparates(t: Tree, u: Tree, x: string, y: string)
    requires TreeCode(t) + x == TreeCode(u) + y
    ensures t == u && x == y
  {
    hide List, EntryCode, Entries, Separable;
    EntrySeparable();
    ListSeparates(EntryCode, Entries(t), Entries(u), x, y);
    EntriesDetermine(t, u);
  }

  lemma {:induction false} NameSeparates(a: Commit, b: Commit, x: string, y: string)
    requires Name(a) + x == Name(b) + y
    ensures a == b && x == y
    decreases a
  {
    hide Number, Names, Rest;
    var t, u := Rest(a) + x, Rest(b) + y;
    assert Name(a) + x == Number(|a.parents|) + (Names(a.parents) + t);
    assert Name(b) + y == Number(|b.parents|) + (Names(b.parents) + u);
    NumberSeparates(|a.parents|, |b.parents|, Names(a.parents) + t, Names(b.parents) + u);
    NamesSeparate(a.parents, b.parents, t, u);
    RestSeparates(a, b, x, y);
  }

  lemma {:induction false} NamesSeparate(g: seq<Commit>, h: seq<Commit>, x: string, y: string)
    requires |g| == |h| && Names(g) + x == Names(h) + y
    ensures g == h && x == y
    decreases g
  {
    hide Name;
    if g == [] {
      assert Names(g) + x == x && Names(h) + y == y;
    } else {
      assert Names(g) + x == Name(g[0]) + (Names(g[1..]) + x);
      assert Names(h) + y == Name(h[0]) + (Names(h[1..]) + y);
      NameSeparates(g[0], h[0], Names(g[1..]) + x, Names(h[1..]) + y);
      NamesSeparate(g[1..], h[1..], x, y);
      assert g == [g[0]] + g[1..] && h == [h[0]] + h[1..];
    }
  }

  /** Different commits have different names. */
  lemma NameInjective(a: Commit, b: Commit)
    requires Name(a) == Name(b)
    ensures a == b
  {
    hide Name;
    assert Name(a) + "" == Name(b) + "";
    NameSeparates(a, b, "", "");
  }

  lemma {:induction false} NameDigits(c: Commit)
    ensures Digits(Name(c)) && Name(c) != ""
    decreases c
  {
    hide Chars, Flat, Entries, Separable;
    NamesDigits(c.parents);
    EntrySeparable();
    FlatDigits(EntryCode, Entries(c.tree));
    CharsDigits(c.message);
  }

  lemma CharsDigits(s: string)
    ensures Digits(Chars(s))
  {
    CharsSeparable();
  }

  lemma {:induction false} NamesDigits(h: seq<Commit>)
    ensures Digits(Names(h))
    decreases h
  {
    hide Name;
    if h != [] {
      NameDigits(h[0]);
      NamesDigits(h[1..]);
    }
  }
}
