/**
 Strict validation of a JSON token stream: one value, bounded nesting, no
 repeated member name, no negative zero. The decoder below the validator is
 the standard library's; what it cannot tokenise is the token `Malformed`.
 */
module StrictJson {
  import opened Wrappers
  import opened Text

  datatype Token =
    | OpenObject | CloseObject | OpenArray | CloseArray
    | Str(text: string) | Number(literal: string) | Bool(bool) | Null
    | Malformed

  datatype Code = InvalidJson | DuplicateMember | InvalidNumber

  datatype Error = Error(code: Code, path: string)

  const MAX_DEPTH := 512

  // ---------------------------------------------------------- negative zero

  predicate AllZero(s: string) {
    forall i | 0 <= i < |s| :: s[i] == '0'
  }

  /** strings.IndexAny(s, "eE"), or the length. */
  function ExponentAt(s: string): (n: nat)
    ensures n <= |s|
  {
    if s == "" || s[0] == 'e' || s[0] == 'E' then 0 else 1 + ExponentAt(s[1..])
  }

  /** isNegativeZero. */
  predicate NegativeZero(s: string) {
    HasPrefix(s, "-") &&
    var m := s[1..][..ExponentAt(s[1..])];
    if HasPrefix(m, "0.") then m[2..] != "" && AllZero(m[2..]) else m == "0"
  }

  method IsNegativeZero(literal: string) returns (r: bool)
    ensures r == NegativeZero(literal)
  {
    if !HasPrefix(literal, "-") {
      return false;
    }
    var s := literal[1..];
    var i := 0;
    while i < |s| && s[i] != 'e' && s[i] != 'E'
      invariant i <= |s| && ExponentAt(s) == i + ExponentAt(s[i..])
    {
      assert s[i..][1..] == s[i + 1..];
      i := i + 1;
    }
    s := s[..i];
    if HasPrefix(s, "0.") {
      s := s[2..];
      if s == "" {
        return false;
      }
      for j := 0 to |s|
        invariant AllZero(s[..j])
      {
        if s[j] != '0' {
          return false;
        }
      }
      assert s[..|s|] == s;
      return true;
    }
    return s == "0";
  }

  /** A number literal by the parts of section 6 of RFC 8259. */
  datatype Literal = Literal(negative: bool, whole: string, frac: string, exp: Option<Exponent>)

  /** An exponent: the letter, an optional sign, digits. */
  datatype Exponent = Exponent(upper: bool, sign: string, digits: string)

  predicate Digits(s: string) {
    s != "" && forall i | 0 <= i < |s| :: '0' <= s[i] <= '9'
  }

  /** No leading zeros, a fraction only of one digit or more; "" stands for no fraction. */
  predicate Grammatical(l: Literal) {
    && Digits(l.whole) && (|l.whole| > 1 ==> l.whole[0] != '0')
    && (l.frac == "" || Digits(l.frac))
    && (l.exp.Some? ==> l.exp.value.sign in ["", "+", "-"] && Digits(l.exp.value.digits))
  }

  function RenderExponent(e: Exponent): string {
    (if e.upper then "E" else "e") + e.sign + e.digits
  }

  function Render(l: Literal): string {
    (if l.negative then "-" else "") + l.whole + (if l.frac == "" then "" else "." + l.frac)
    + (if l.exp.Some? then RenderExponent(l.exp.value) else "")
  }

  function Natural(s: string): int {
    if s == "" then 0 else 10 * Natural(s[..|s| - 1]) + (s[|s| - 1] as int - '0' as int)
  }

  function PowerOfTen(e: int): (r: real)
    ensures r > 0.0
    decreases if e < 0 then -e else e
  {
    if e == 0 then 1.0 else if e > 0 then 10.0 * PowerOfTen(e - 1) else PowerOfTen(e + 1) / 10.0
  }

  function Power(l: Literal): int {
    (if l.exp.None? then 0 else if l.exp.value.sign == "-" then -Natural(l.exp.value.digits)
     else Natural(l.exp.value.digits)) - |l.frac|
  }

  /** The number a literal denotes. */
  function Value(l: Literal): real {
    var magnitude := Natural(l.whole + l.frac) as real * PowerOfTen(Power(l));
    if l.negative then -magnitude else magnitude
  }

  lemma {:induction false} NaturalIsZero(s: string)
    requires forall i | 0 <= i < |s| :: '0' <= s[i] <= '9'
    ensures Natural(s) >= 0 && (Natural(s) == 0 <==> AllZero(s))
  {
    if s != "" {
      NaturalIsZero(s[..|s| - 1]);
      assert AllZero(s) <==> AllZero(s[..|s| - 1]) && s[|s| - 1] == '0';
    }
  }

  lemma ZeroProduct(a: real, b: real)
    requires b > 0.0
    ensures a * b == 0.0 <==> a == 0.0
  {
  }

  lemma {:induction false} ExponentFound(m: string, rest: string)
    requires forall i | 0 <= i < |m| :: m[i] != 'e' && m[i] != 'E'
    requires rest == "" || rest[0] == 'e' || rest[0] == 'E'
    ensures ExponentAt(m + rest) == |m|
  {
    if m != "" {
      assert (m + rest)[1..] == m[1..] + rest;
      ExponentFound(m[1..], rest);
    } else {
      assert m + rest == rest;
    }
  }

  function Mantissa(l: Literal): string {
    l.whole + (if l.frac == "" then "" else "." + l.frac)
  }

  function Tail(l: Literal): string {
    if l.exp.Some? then RenderExponent(l.exp.value) else ""
  }

  lemma RenderSplits(l: Literal)
    requires l.negative
    ensures Render(l) == "-" + (Mantissa(l) + Tail(l))
  {
    hide RenderExponent;
  }

  lemma NoExponentInside(l: Literal)
    requires Grammatical(l)
    ensures forall i | 0 <= i < |Mantissa(l)| :: Mantissa(l)[i] != 'e' && Mantissa(l)[i] != 'E'
    ensures Tail(l) == "" || Tail(l)[0] == 'e' || Tail(l)[0] == 'E'
  {
  }

  lemma MantissaOf(l: Literal)
    requires Grammatical(l) && l.negative
    ensures Render(l)[0] == '-' && Render(l)[1..][..ExponentAt(Render(l)[1..])] == Mantissa(l)
  {
    hide ExponentAt, Mantissa, Tail, Render, Digits;
    RenderSplits(l);
    NoExponentInside(l);
    assert Render(l)[1..] == Mantissa(l) + Tail(l);
    ExponentFound(Mantissa(l), Tail(l));
  }

  /** The mantissa test, on a grammatical literal, asks whether every digit is zero. */
  lemma MantissaTest(l: Literal)
    requires Grammatical(l)
    ensures var m := Mantissa(l);
            (if HasPrefix(m, "0.") then m[2..] != "" && AllZero(m[2..]) else m == "0")
            <==> AllZero(l.whole) && AllZero(l.frac)
  {
    var m := Mantissa(l);
    assert m[..|l.whole|] == l.whole;
    if AllZero(l.whole) {
      assert l.whole[0] == '0';
      assert l.whole == "0";
      if l.frac != "" {
        assert m == "0." + l.frac && m[2..] == l.frac;
      }
    }
  }

  /** The test holds of a literal exactly when it carries a minus sign and denotes zero. */
  lemma NegativeZeroIff(l: Literal)
    requires Grammatical(l)
    ensures NegativeZero(Render(l)) <==> l.negative && Value(l) == 0.0
  {
    hide AllZero, Natural, PowerOfTen, Power, Digits, Mantissa, ExponentAt;
    LiteralDigits(l);
    NaturalIsZero(l.whole + l.frac);
    ZeroProduct(Natural(l.whole + l.frac) as real, PowerOfTen(Power(l)));
    AllZeroConcat(l.whole, l.frac);
    MantissaTest(l);
    if l.negative {
      MantissaOf(l);
    }
  }

  lemma LiteralDigits(l: Literal)
    requires Grammatical(l)
    ensures forall i | 0 <= i < |l.whole + l.frac| :: '0' <= (l.whole + l.frac)[i] <= '9'
    ensures !l.negative ==> Render(l)[0] != '-'
  {
    if !l.negative {
      assert Render(l)[0] == l.whole[0];
    }
  }

  lemma AllZeroConcat(a: string, b: string)
    ensures AllZero(a + b) <==> AllZero(a) && AllZero(b)
  {
    if AllZero(a + b) {
      assert forall i | 0 <= i < |a| :: a[i] == (a + b)[i];
      assert forall i | 0 <= i < |b| :: b[i] == (a + b)[|a| + i];
    }
  }

  // ------------------------------------------------------------------- paths

  function ReplaceChar(s: string, c: char, replacement: string): string {
    if s == "" then "" else (if s[0] == c then replacement else [s[0]]) + ReplaceChar(s[1..], c, replacement)
  }

  /** escapePointer: RFC 6901. */
  function EscapePointer(s: string): string {
    ReplaceChar(ReplaceChar(s, '~', "~0"), '/', "~1")
  }

  /** Both replacements in one pass. */
  function Escaped(s: string): string {
    if s == "" then ""
    else (if s[0] == '~' then "~0" else if s[0] == '/' then "~1" else [s[0]]) + Escaped(s[1..])
  }

  lemma {:induction false} EscapeInOnePass(s: string)
    ensures EscapePointer(s) == Escaped(s)
  {
    if s != "" {
      EscapeInOnePass(s[1..]);
      var rest := ReplaceChar(s[1..], '~', "~0");
      if s[0] == '~' {
        ReplaceFront('~', "0" + rest);
        ReplaceFront('0', rest);
        assert ReplaceChar(s, '~', "~0") == ['~'] + ("0" + rest);
      } else {
        ReplaceFront(s[0], rest);
      }
    }
  }

  lemma ReplaceFront(c: char, rest: string)
    ensures ReplaceChar([c] + rest, '/', "~1") == (if c == '/' then "~1" else [c]) + ReplaceChar(rest, '/', "~1")
  {
    assert ([c] + rest)[1..] == rest;
  }

  lemma {:induction false} EscapedInjective(a: string, b: string)
    requires Escaped(a) == Escaped(b)
    ensures a == b
  {
    if a != "" && b != "" {
      var x, y := Escaped(a), Escaped(b);
      var n := if a[0] == '~' || a[0] == '/' then 2 else 1;
      assert x[0] == y[0] && (n == 2 ==> x[1] == y[1]);
      assert a[0] == b[0];
      assert Escaped(a[1..]) == x[n..] && Escaped(b[1..]) == y[n..];
      EscapedInjective(a[1..], b[1..]);
      assert a == [a[0]] + a[1..] && b == [b[0]] + b[1..];
    }
  }

  /** An escaped name tells which member it was, and never opens a path step of its own. */
  lemma {:induction false} PointersAreUnambiguous(a: string, b: string)
    ensures EscapePointer(a) == EscapePointer(b) ==> a == b
    ensures '/' !in EscapePointer(a)
  {
    EscapeInOnePass(a);
    EscapeInOnePass(b);
    if EscapePointer(a) == EscapePointer(b) {
      EscapedInjective(a, b);
    }
    NoSlash(a);
  }

  lemma {:induction false} NoSlash(a: string)
    ensures '/' !in Escaped(a)
  {
    if a != "" {
      NoSlash(a[1..]);
    }
  }

  function Decimal(n: nat): string {
    if n < 10 then [('0' as int + n) as char] else Decimal(n / 10) + [('0' as int + n % 10) as char]
  }

  /** The reading of section 4 of RFC 6901: "~1" is a slash, "~0" a tilde. */
  function Unescaped(s: string): string {
    if s == "" then ""
    else if |s| >= 2 && s[0] == '~' && s[1] == '1' then "/" + Unescaped(s[2..])
    else if |s| >= 2 && s[0] == '~' && s[1] == '0' then "~" + Unescaped(s[2..])
    else [s[0]] + Unescaped(s[1..])
  }

  /** A reader of the pointer gets the member's name back. */
  lemma {:induction false} PointersReadBack(name: string)
    ensures Unescaped(EscapePointer(name)) == name
  {
    EscapeInOnePass(name);
    if name != "" {
      EscapeInOnePass(name[1..]);
      PointersReadBack(name[1..]);
      var rest := Escaped(name[1..]);
      assert Escaped(name) == (if name[0] == '~' then "~0" else if name[0] == '/' then "~1" else [name[0]]) + rest;
      if name[0] == '~' || name[0] == '/' {
        assert Escaped(name)[2..] == rest;
      } else {
        assert Escaped(name)[1..] == rest;
      }
      assert name == [name[0]] + name[1..];
    }
  }

  /** An index is written as the decimal numeral of its value, without leading zeros. */
  lemma {:induction false} DecimalDenotes(n: nat)
    ensures Digits(Decimal(n)) && Natural(Decimal(n)) == n && (|Decimal(n)| > 1 ==> Decimal(n)[0] != '0')
  {
    if n >= 10 {
      DecimalDenotes(n / 10);
      var head, last := Decimal(n / 10), ('0' as int + n % 10) as char;
      assert Decimal(n) == head + [last] && Decimal(n)[..|Decimal(n)| - 1] == head;
      if |head| == 1 {
        NaturalOfOne(head);
      }
    } else {
      NaturalOfOne(Decimal(n));
    }
  }

  lemma NaturalOfOne(s: string)
    requires |s| == 1
    ensures Natural(s) == s[0] as int - '0' as int
  {
    assert s[..0] == "";
    assert Natural("") == 0;
  }

  // ------------------------------------------------------------------ values

  datatype Json = JNull | JBool(bool) | JNumber(literal: string) | JText(text: string)
    | JArray(items: Items) | JObject(members: Members)

  datatype Items = NoItems | Item(value: Json, rest: Items)

  datatype Members = NoMembers | Member(name: string, value: Json, rest: Members)

  function Flatten(v: Json): seq<Token> {
    match v
    case JNull => [Null]
    case JBool(b) => [Bool(b)]
    case JNumber(s) => [Number(s)]
    case JText(s) => [Str(s)]
    case JArray(items) => [OpenArray] + FlattenItems(items)
    case JObject(members) => [OpenObject] + FlattenMembers(members)
  }

  /** The elements and the closing delimiter. */
  function FlattenItems(items: Items): seq<Token> {
    match items
    case NoItems => [CloseArray]
    case Item(v, rest) => Flatten(v) + FlattenItems(rest)
  }

  function FlattenMembers(members: Members): seq<Token> {
    match members
    case NoMembers => [CloseObject]
    case Member(name, v, rest) => [Str(name)] + Flatten(v) + FlattenMembers(rest)
  }

  function Max(a: nat, b: nat): nat {
    if a < b then b else a
  }

  /** How many levels lie below a value. */
  function Height(v: Json): nat {
    match v
    case JArray(items) => HeightOfItems(items)
    case JObject(members) => HeightOfMembers(members)
    case _ => 0
  }

  function HeightOfItems(items: Items): nat {
    match items
    case NoItems => 0
    case Item(v, rest) => Max(1 + Height(v), HeightOfItems(rest))
  }

  function HeightOfMembers(members: Members): nat {
    match members
    case NoMembers => 0
    case Member(_, v, rest) => Max(1 + Height(v), HeightOfMembers(rest))
  }

  function Names(members: Members): seq<string> {
    match members
    case NoMembers => []
    case Member(name, _, rest) => [name] + Names(rest)
  }

  predicate Distinct(names: seq<string>) {
    forall i, j | 0 <= i < j < |names| :: names[i] != names[j]
  }

  /** No object repeats a name, no number is a negative zero. */
  predicate Clean(v: Json) {
    match v
    case JNumber(s) => !NegativeZero(s)
    case JArray(items) => CleanItems(items)
    case JObject(members) => Distinct(Names(members)) && CleanMembers(members)
    case _ => true
  }

  predicate CleanItems(items: Items) {
    match items
    case NoItems => true
    case Item(v, rest) => Clean(v) && CleanItems(rest)
  }

  predicate CleanMembers(members: Members) {
    match members
    case NoMembers => true
    case Member(_, v, rest) => Clean(v) && CleanMembers(rest)
  }

  // --------------------------------------------------------------- validator

  predicate More(ts: seq<Token>, pos: nat) {
    pos < |ts| && ts[pos] != CloseObject && ts[pos] != CloseArray
  }

  predicate Readable(ts: seq<Token>, pos: nat) {
    pos < |ts| && ts[pos] != Malformed
  }

  /** parseValue from one position: the position after the value, or the first fault. */
  function ParseValue(ts: seq<Token>, pos: nat, path: string, depth: nat): (r: Result<nat, Error>)
    ensures r.Ok? ==> pos < r.value <= |ts|
    decreases |ts| - pos, 0
  {
    if depth > MAX_DEPTH || pos >= |ts| then Err(Error(InvalidJson, path))
    else
      match ts[pos]
      case OpenObject => ParseMembers(ts, pos + 1, path, depth, {})
      case OpenArray => ParseItems(ts, pos + 1, path, depth, 0)
      case Number(s) => if NegativeZero(s) then Err(Error(InvalidNumber, path)) else Ok(pos + 1)
      case CloseObject => Err(Error(InvalidJson, path))
      case CloseArray => Err(Error(InvalidJson, path))
      case Malformed => Err(Error(InvalidJson, path))
      case _ => Ok(pos + 1)
  }

  function MemberPath(path: string, name: string): string {
    path + "/" + EscapePointer(name)
  }

  function ParseMembers(ts: seq<Token>, pos: nat, path: string, depth: nat, seen: set<string>): (r: Result<nat, Error>)
    ensures r.Ok? ==> pos < r.value <= |ts|
    decreases |ts| - pos, 1
  {
    if !More(ts, pos) then
      if pos < |ts| && ts[pos] == CloseObject then Ok(pos + 1) else Err(Error(InvalidJson, path))
    else if !ts[pos].Str? then Err(Error(InvalidJson, path))
    else
      var name := ts[pos].text;
      if name in seen then Err(Error(DuplicateMember, MemberPath(path, name)))
      else
        var next :- ParseValue(ts, pos + 1, MemberPath(path, name), depth + 1);
        ParseMembers(ts, next, path, depth, seen + {name})
  }

  function ParseItems(ts: seq<Token>, pos: nat, path: string, depth: nat, index: nat): (r: Result<nat, Error>)
    ensures r.Ok? ==> pos < r.value <= |ts|
    decreases |ts| - pos, 1
  {
    if !More(ts, pos) then
      if pos < |ts| && ts[pos] == CloseArray then Ok(pos + 1) else Err(Error(InvalidJson, path))
    else
      var next :- ParseValue(ts, pos, path + "/" + Decimal(index), depth + 1);
      ParseItems(ts, next, path, depth, index + 1)
  }

  /** Validate, after the UTF-8 check: one value and nothing behind it. */
  function Validate(ts: seq<Token>): Option<Error> {
    match ParseValue(ts, 0, "$", 0)
    case Err(e) => Some(e)
    case Ok(end) => if end == |ts| then None else Some(Error(InvalidJson, ""))
  }

  // ------------------------------------------------------------- the decoder

  /** json.Decoder over one document. */
  class Decoder {
    const tokens: seq<Token>
    var pos: nat

    constructor (tokens: seq<Token>)
      ensures this.tokens == tokens && pos == 0
    {
      this.tokens := tokens;
      pos := 0;
    }

    predicate HasMore()
      reads this
    {
      More(tokens, pos)
    }

    method Next() returns (r: Option<Token>)
      modifies this
      ensures r == if Readable(tokens, old(pos)) then Some(tokens[old(pos)]) else None
      ensures pos == if r.Some? then old(pos) + 1 else old(pos)
    {
      if pos < |tokens| && tokens[pos] != Malformed {
        r := Some(tokens[pos]);
        pos := pos + 1;
      } else {
        r := None;
      }
    }
  }

  method ParseDecoded(dec: Decoder, path: string, depth: nat) returns (e: Option<Error>)
    modifies dec
    ensures match ParseValue(dec.tokens, old(dec.pos), path, depth)
            case Ok(next) => e == None && dec.pos == next
            case Err(error) => e == Some(error)
    decreases |dec.tokens| - dec.pos, 1
  {
    if depth > MAX_DEPTH {
      return Some(Error(InvalidJson, path));
    }
    var tok := dec.Next();
    if tok.None? {
      return Some(Error(InvalidJson, path));
    }
    match tok.value {
      case OpenObject => e := ParseObject(dec, path, depth);
      case OpenArray => e := ParseArray(dec, path, depth);
      case Number(s) =>
        var zero := IsNegativeZero(s);
        e := if zero then Some(Error(InvalidNumber, path)) else None;
      case CloseObject => e := Some(Error(InvalidJson, path));
      case CloseArray => e := Some(Error(InvalidJson, path));
      case _ => e := None;
    }
  }

  method ParseObject(dec: Decoder, path: string, depth: nat) returns (e: Option<Error>)
    modifies dec
    ensures match ParseMembers(dec.tokens, old(dec.pos), path, depth, {})
            case Ok(next) => e == None && dec.pos == next
            case Err(error) => e == Some(error)
    decreases |dec.tokens| - dec.pos, 2
  {
    var seen: set<string> := {};
    while dec.HasMore()
      invariant old(dec.pos) <= dec.pos
      invariant ParseMembers(dec.tokens, old(dec.pos), path, depth, {})
             == ParseMembers(dec.tokens, dec.pos, path, depth, seen)
      decreases |dec.tokens| - dec.pos
    {
      var nameTok := dec.Next();
      if nameTok.None? || !nameTok.value.Str? {
        return Some(Error(InvalidJson, path));
      }
      var name := nameTok.value.text;
      var memberPath := MemberPath(path, name);
      if name in seen {
        return Some(Error(DuplicateMember, memberPath));
      }
      seen := seen + {name};
      var inner := ParseDecoded(dec, memberPath, depth + 1);
      if inner.Some? {
        return inner;
      }
    }
    var closing := dec.Next();
    if closing != Some(CloseObject) {
      return Some(Error(InvalidJson, path));
    }
    return None;
  }

  method ParseArray(dec: Decoder, path: string, depth: nat) returns (e: Option<Error>)
    modifies dec
    ensures match ParseItems(dec.tokens, old(dec.pos), path, depth, 0)
            case Ok(next) => e == None && dec.pos == next
            case Err(error) => e == Some(error)
    decreases |dec.tokens| - dec.pos, 2
  {
    var index := 0;
    while dec.HasMore()
      invariant old(dec.pos) <= dec.pos && index >= 0
      invariant ParseItems(dec.tokens, old(dec.pos), path, depth, 0)
             == ParseItems(dec.tokens, dec.pos, path, depth, index)
      decreases |dec.tokens| - dec.pos
    {
      var inner := ParseDecoded(dec, path + "/" + Decimal(index), depth + 1);
      if inner.Some? {
        return inner;
      }
      index := index + 1;
    }
    var closing := dec.Next();
    if closing != Some(CloseArray) {
      return Some(Error(InvalidJson, path));
    }
    return None;
  }

  /** Validate as written. */
  method ValidateStream(ts: seq<Token>) returns (e: Option<Error>)
    ensures e == Validate(ts)
  {
    var dec := new Decoder(ts);
    e := ParseDecoded(dec, "$", 0);
    if e.Some? {
      return;
    }
    if dec.pos < |ts| {
      return Some(Error(InvalidJson, ""));
    }
    return None;
  }

  // ---------------------------------------------------------------- the claim

  /** These tokens stand at this position. */
  predicate At(ts: seq<Token>, pos: nat, part: seq<Token>) {
    pos + |part| <= |ts| && ts[pos..pos + |part|] == part
  }

  lemma AtSplit(ts: seq<Token>, pos: nat, a: seq<Token>, b: seq<Token>)
    ensures At(ts, pos, a + b) <==> At(ts, pos, a) && At(ts, pos + |a|, b)
  {
    if At(ts, pos, a + b) {
      var part := ts[pos..pos + |a + b|];
      assert ts[pos..pos + |a|] == part[..|a|];
      assert ts[pos + |a|..pos + |a| + |b|] == part[|a|..];
    }
    if At(ts, pos, a) && At(ts, pos + |a|, b) {
      assert ts[pos..pos + |a + b|] == ts[pos..pos + |a|] + ts[pos + |a|..pos + |a| + |b|];
    }
  }

  /** A complete value starts with a token that is no closing delimiter. */
  lemma FlattenStarts(v: Json)
    ensures Flatten(v) != [] && Flatten(v)[0] != CloseArray && Flatten(v)[0] != CloseObject && Flatten(v)[0] != Malformed
  {
  }

  // ------------------------------------------------------------ faults of a value

  /** The first fault of a value in document order: too deep, a negative zero, a repeated name. */
  function FirstFault(v: Json, path: string, depth: nat): Option<Error> {
    if depth > 512 then Some(Error(InvalidJson, path))
    else
      match v
      case JNumber(s) => if NegativeZero(s) then Some(Error(InvalidNumber, path)) else None
      case JArray(items) => ItemsFault(items, path, depth, 0)
      case JObject(members) => MembersFault(members, path, depth, {})
      case _ => None
  }

  function ItemsFault(items: Items, path: string, depth: nat, index: nat): Option<Error> {
    match items
    case NoItems => None
    case Item(v, rest) =>
      var fault := FirstFault(v, path + "/" + Decimal(index), depth + 1);
      if fault.Some? then fault else ItemsFault(rest, path, depth, index + 1)
  }

  function MembersFault(members: Members, path: string, depth: nat, seen: set<string>): Option<Error> {
    match members
    case NoMembers => None
    case Member(name, v, rest) =>
      if name in seen then Some(Error(DuplicateMember, path + "/" + EscapePointer(name)))
      else
        var fault := FirstFault(v, path + "/" + EscapePointer(name), depth + 1);
        if fault.Some? then fault else MembersFault(rest, path, depth, seen + {name})
  }

  /** No fault means clean and not too deep; a shallow value is never called malformed. */
  lemma {:induction false} FaultlessIff(v: Json, path: string, depth: nat)
    ensures FirstFault(v, path, depth).None? <==> Clean(v) && depth + Height(v) <= MAX_DEPTH
    ensures FirstFault(v, path, depth).Some? && depth + Height(v) <= MAX_DEPTH ==>
              FirstFault(v, path, depth).value.code != InvalidJson
    decreases v
  {
    hide Distinct, Fresh, NegativeZero, ItemsFault, MembersFault, CleanItems, CleanMembers, HeightOfItems, HeightOfMembers;
    if depth <= MAX_DEPTH {
      match v
      case JArray(items) => FaultlessItems(items, path, depth, 0);
      case JObject(members) =>
        FaultlessMembers(members, path, depth, {});
        NamesApart(members, {});
      case _ =>
    }
  }

  lemma {:induction false} FaultlessItems(items: Items, path: string, depth: nat, index: nat)
    requires depth <= MAX_DEPTH
    ensures ItemsFault(items, path, depth, index).None? <==> CleanItems(items) && depth + HeightOfItems(items) <= MAX_DEPTH
    ensures ItemsFault(items, path, depth, index).Some? && depth + HeightOfItems(items) <= MAX_DEPTH ==>
              ItemsFault(items, path, depth, index).value.code != InvalidJson
    decreases items
  {
    hide FirstFault, Clean, Height, Decimal;
    match items
    case NoItems =>
    case Item(v, rest) =>
      FaultlessIff(v, path + "/" + Decimal(index), depth + 1);
      FaultlessItems(rest, path, depth, index + 1);
  }

  lemma {:induction false} FaultlessMembers(members: Members, path: string, depth: nat, seen: set<string>)
    requires depth <= MAX_DEPTH
    ensures MembersFault(members, path, depth, seen).None? <==>
            Fresh(members, seen) && CleanMembers(members) && depth + HeightOfMembers(members) <= MAX_DEPTH
    ensures MembersFault(members, path, depth, seen).Some? && depth + HeightOfMembers(members) <= MAX_DEPTH ==>
              MembersFault(members, path, depth, seen).value.code != InvalidJson
    decreases members
  {
    hide FirstFault, Clean, Height, EscapePointer;
    match members
    case NoMembers =>
    case Member(name, v, rest) =>
      if name !in seen {
        FaultlessIff(v, path + "/" + EscapePointer(name), depth + 1);
        FaultlessMembers(rest, path, depth, seen + {name});
      }
  }

  /** The verdict on a whole value: its first fault, or its end. */
  predicate Verdict(r: Result<nat, Error>, fault: Option<Error>, end: nat) {
    r == match fault case Some(e) => Err(e) case None => Ok(end)
  }

  lemma {:induction false} WholeValue(v: Json, ts: seq<Token>, pos: nat, path: string, depth: nat)
    requires At(ts, pos, Flatten(v))
    ensures Verdict(ParseValue(ts, pos, path, depth), FirstFault(v, path, depth), pos + |Flatten(v)|)
    decreases v
  {
    hide ParseItems, ParseMembers, ItemsFault, MembersFault, FlattenItems, FlattenMembers, NegativeZero;
    FlattenStarts(v);
    assert ts[pos] == ts[pos..pos + |Flatten(v)|][0] == Flatten(v)[0];
    match v
    case JArray(items) =>
      AtSplit(ts, pos, [OpenArray], FlattenItems(items));
      WholeItems(items, ts, pos + 1, path, depth, 0);
    case JObject(members) =>
      AtSplit(ts, pos, [OpenObject], FlattenMembers(members));
      WholeMembers(members, ts, pos + 1, path, depth, {});
    case _ =>
  }

  lemma {:induction false} WholeItems(items: Items, ts: seq<Token>, pos: nat, path: string, depth: nat, index: nat)
    requires At(ts, pos, FlattenItems(items))
    ensures Verdict(ParseItems(ts, pos, path, depth, index), ItemsFault(items, path, depth, index), pos + |FlattenItems(items)|)
    decreases items
  {
    hide FirstFault, Flatten, ParseValue, ParseMembers, Decimal;
    match items
    case NoItems => assert ts[pos] == ts[pos..pos + 1][0];
    case Item(v, rest) =>
      AtSplit(ts, pos, Flatten(v), FlattenItems(rest));
      FlattenStarts(v);
      assert ts[pos] == ts[pos..pos + |Flatten(v)|][0];
      WholeValue(v, ts, pos, path + "/" + Decimal(index), depth + 1);
      WholeItems(rest, ts, pos + |Flatten(v)|, path, depth, index + 1);
  }

  /** No name occurs twice, nor among those already seen. */
  predicate Fresh(members: Members, seen: set<string>) {
    match members
    case NoMembers => true
    case Member(name, _, rest) => name !in seen && Fresh(rest, seen + {name})
  }

  lemma {:induction false} NamesApart(members: Members, seen: set<string>)
    ensures Fresh(members, seen) <==> Distinct(Names(members)) && forall n | n in Names(members) :: n !in seen
  {
    match members
    case NoMembers =>
    case Member(name, _, rest) =>
      NamesApart(rest, seen + {name});
      DistinctFront(name, Names(rest));
  }

  lemma DistinctFront(name: string, names: seq<string>)
    ensures Distinct([name] + names) <==> Distinct(names) && name !in names
    ensures forall n :: n in [name] + names <==> n == name || n in names
  {
    var all := [name] + names;
    assert forall i | 0 <= i < |names| :: all[i + 1] == names[i];
    if Distinct(all) {
      forall i, j | 0 <= i < j < |names| ensures names[i] != names[j] {
        assert all[i + 1] != all[j + 1];
      }
      forall i | 0 <= i < |names| ensures names[i] != name {
        assert all[0] != all[i + 1];
      }
    }
    if Distinct(names) && name !in names {
      forall i, j | 0 <= i < j < |all| ensures all[i] != all[j] {
        assert all[j] == names[j - 1];
      }
    }
  }

  lemma NoMembersAt(ts: seq<Token>, pos: nat)
    requires At(ts, pos, FlattenMembers(NoMembers))
    ensures pos < |ts| && ts[pos] == CloseObject && |FlattenMembers(NoMembers)| == 1
  {
    assert ts[pos] == ts[pos..pos + 1][0];
  }

  lemma MemberAt(name: string, v: Json, rest: Members, ts: seq<Token>, pos: nat)
    requires At(ts, pos, FlattenMembers(Member(name, v, rest)))
    ensures pos < |ts| && ts[pos] == Str(name) && At(ts, pos + 1, Flatten(v))
    ensures At(ts, pos + 1 + |Flatten(v)|, FlattenMembers(rest))
    ensures |FlattenMembers(Member(name, v, rest))| == 1 + |Flatten(v)| + |FlattenMembers(rest)|
  {
    hide Flatten;
    AtSplit(ts, pos, [Str(name)] + Flatten(v), FlattenMembers(rest));
    AtSplit(ts, pos, [Str(name)], Flatten(v));
    assert ts[pos] == ts[pos..pos + 1][0];
  }

  lemma {:induction false} WholeMembers(
    members: Members, ts: seq<Token>, pos: nat, path: string, depth: nat, seen: set<string>)
    requires At(ts, pos, FlattenMembers(members))
    ensures Verdict(ParseMembers(ts, pos, path, depth, seen), MembersFault(members, path, depth, seen),
                    pos + |FlattenMembers(members)|)
    decreases members
  {
    hide FirstFault, Flatten, FlattenMembers, ParseValue, ParseItems, EscapePointer, At;
    match members
    case NoMembers => NoMembersAt(ts, pos);
    case Member(name, v, rest) =>
      MemberAt(name, v, rest, ts, pos);
      if name !in seen {
        WholeValue(v, ts, pos + 1, MemberPath(path, name), depth + 1);
        WholeMembers(rest, ts, pos + 1 + |Flatten(v)|, path, depth, seen + {name});
      }
  }

  /** Conversely, whatever is accepted is the flattening of a clean value that is not too deep. */
  lemma {:induction false} AcceptedValue(ts: seq<Token>, pos: nat, path: string, depth: nat) returns (v: Json)
    requires ParseValue(ts, pos, path, depth).Ok?
    ensures ts[pos..ParseValue(ts, pos, path, depth).value] == Flatten(v)
    ensures Clean(v) && depth + Height(v) <= MAX_DEPTH
    decreases |ts| - pos, 0
  {
    hide ParseItems, ParseMembers, CleanItems, CleanMembers, HeightOfItems, HeightOfMembers, FlattenItems,
      FlattenMembers, Distinct, Fresh, NegativeZero;
    assert ts[pos..pos + 1] == [ts[pos]];
    match ts[pos]
    case OpenObject =>
      var members := AcceptedMembers(ts, pos + 1, path, depth, {});
      NamesApart(members, {});
      v := JObject(members);
      var next := ParseValue(ts, pos, path, depth).value;
      assert ts[pos..next] == [ts[pos]] + ts[pos + 1..next];
    case OpenArray =>
      var items := AcceptedItems(ts, pos + 1, path, depth, 0);
      v := JArray(items);
      var next := ParseValue(ts, pos, path, depth).value;
      assert ts[pos..next] == [ts[pos]] + ts[pos + 1..next];
    case Number(s) => v := JNumber(s);
    case Str(s) => v := JText(s);
    case Bool(b) => v := JBool(b);
    case Null => v := JNull;
  }

  lemma {:induction false} AcceptedItems(ts: seq<Token>, pos: nat, path: string, depth: nat, index: nat)
    returns (items: Items)
    requires depth <= MAX_DEPTH && ParseItems(ts, pos, path, depth, index).Ok?
    ensures ts[pos..ParseItems(ts, pos, path, depth, index).value] == FlattenItems(items)
    ensures CleanItems(items) && depth + HeightOfItems(items) <= MAX_DEPTH
    decreases |ts| - pos, 1
  {
    hide ParseValue, ParseMembers, Clean, Height, Flatten, Decimal;
    if !More(ts, pos) {
      items := NoItems;
      assert ts[pos..pos + 1] == [CloseArray];
    } else {
      var here := path + "/" + Decimal(index);
      var v := AcceptedValue(ts, pos, here, depth + 1);
      var next := ParseValue(ts, pos, here, depth + 1).value;
      var rest := AcceptedItems(ts, next, path, depth, index + 1);
      items := Item(v, rest);
      var end := ParseItems(ts, pos, path, depth, index).value;
      assert ts[pos..end] == ts[pos..next] + ts[next..end];
    }
  }

  lemma {:induction false} AcceptedMembers(ts: seq<Token>, pos: nat, path: string, depth: nat, seen: set<string>)
    returns (members: Members)
    requires depth <= MAX_DEPTH && ParseMembers(ts, pos, path, depth, seen).Ok?
    ensures ts[pos..ParseMembers(ts, pos, path, depth, seen).value] == FlattenMembers(members)
    ensures Fresh(members, seen) && CleanMembers(members) && depth + HeightOfMembers(members) <= MAX_DEPTH
    decreases |ts| - pos, 1
  {
    hide ParseValue, ParseItems, Clean, Height, Flatten, MemberPath;
    if !More(ts, pos) {
      members := NoMembers;
      assert ts[pos..pos + 1] == [CloseObject];
    } else {
      var name := ts[pos].text;
      var here := MemberPath(path, name);
      var v := AcceptedValue(ts, pos + 1, here, depth + 1);
      var next := ParseValue(ts, pos + 1, here, depth + 1).value;
      var rest := AcceptedMembers(ts, next, path, depth, seen + {name});
      members := Member(name, v, rest);
      var end := ParseMembers(ts, pos, path, depth, seen).value;
      assert ts[pos..end] == [Str(name)] + ts[pos + 1..next] + ts[next..end];
    }
  }

  /**
   The validator accepts exactly the token streams of one clean value nested at
   most 512 deep.
   */
  lemma AcceptsExactlyCleanValues(ts: seq<Token>)
    ensures Validate(ts) == None <==> exists v :: ts == Flatten(v) && Clean(v) && Height(v) <= MAX_DEPTH
  {
    if Validate(ts) == None {
      var v := AcceptedValue(ts, 0, "$", 0);
      assert ts[0..|ts|] == ts;
    }
    if v :| ts == Flatten(v) && Clean(v) && Height(v) <= MAX_DEPTH {
      FaultOf(v, []);
      FaultlessIff(v, "$", 0);
      assert Flatten(v) + [] == ts;
    }
  }

  /** What a stream that starts with a whole value is refused for: the value's first fault, or what follows it. */
  lemma FaultOf(v: Json, rest: seq<Token>)
    ensures Validate(Flatten(v) + rest) ==
            if FirstFault(v, "$", 0).Some? then FirstFault(v, "$", 0)
            else if rest == [] then None else Some(Error(InvalidJson, ""))
  {
    hide FirstFault, Flatten, ParseValue;
    var ts := Flatten(v) + rest;
    assert ts[0..|Flatten(v)|] == Flatten(v);
    WholeValue(v, ts, 0, "$", 0);
  }

  /** A well-formed document within the depth bound is refused only for a repeated name or a negative zero. */
  lemma WellFormedRefusals(ts: seq<Token>, v: Json)
    requires ts == Flatten(v) && Height(v) <= MAX_DEPTH && !Clean(v)
    ensures Validate(ts).Some? && Validate(ts).value.code != InvalidJson
  {
    assert Flatten(v) + [] == ts;
    FaultOf(v, []);
    FaultlessIff(v, "$", 0);
  }

  // ------------------------------------------------------- where the fault lies

  /** The path leads from a value to one inside it. */
  ghost predicate Leads(v: Json, here: string, path: string, x: Json) {
    || (v == x && here == path)
    || (v.JArray? && LeadsItems(v.items, here, 0, path, x))
    || (v.JObject? && LeadsMembers(v.members, here, path, x))
  }

  ghost predicate LeadsItems(items: Items, here: string, index: nat, path: string, x: Json) {
    items.Item? && (Leads(items.value, here + "/" + Decimal(index), path, x) || LeadsItems(items.rest, here, index + 1, path, x))
  }

  ghost predicate LeadsMembers(members: Members, here: string, path: string, x: Json) {
    members.Member? &&
    (Leads(members.value, here + "/" + EscapePointer(members.name), path, x) || LeadsMembers(members.rest, here, path, x))
  }

  /** What the fault says is so, where it says. */
  ghost predicate Shown(v: Json, here: string, e: Error) {
    match e.code
    case InvalidNumber => exists s :: NegativeZero(s) && Leads(v, here, e.path, JNumber(s))
    case DuplicateMember =>
      exists members, name, parent ::
        Leads(v, here, parent, JObject(members)) && e.path == parent + "/" + EscapePointer(name) && Repeats(members, name)
    case InvalidJson => exists x :: Leads(v, here, e.path, x)
  }

  /** The name occurs at two places of the object. */
  predicate Repeats(members: Members, name: string) {
    exists i, j | 0 <= i < j < |Names(members)| :: Names(members)[i] == name && Names(members)[j] == name
  }

  lemma {:induction false} FaultIsShown(v: Json, here: string, depth: nat)
    requires FirstFault(v, here, depth).Some?
    ensures Shown(v, here, FirstFault(v, here, depth).value)
    decreases v
  {
    hide NegativeZero, EscapePointer, Decimal, Repeats, ItemsFault, MembersFault, LeadsItems, LeadsMembers;
    assert Leads(v, here, here, v);
    if depth <= 512 {
      match v
      case JNumber(s) => assert Leads(v, here, here, JNumber(s));
      case JArray(items) => ItemFaultIsShown(items, v, here, depth, 0);
      case JObject(members) => MemberFaultIsShown(members, members, [], v, here, depth, {});
    }
  }

  /** What can be shown of an inner value can be shown of the outer one. */
  lemma ShownOutside(inner: Json, there: string, v: Json, here: string, e: Error)
    requires Shown(inner, there, e) && forall path, x | Leads(inner, there, path, x) :: Leads(v, here, path, x)
    ensures Shown(v, here, e)
  {
    hide Leads, NegativeZero, EscapePointer, Repeats;
  }

  lemma {:induction false} ItemFaultIsShown(items: Items, v: Json, here: string, depth: nat, index: nat)
    requires ItemsFault(items, here, depth, index).Some?
    requires forall path, x | LeadsItems(items, here, index, path, x) :: Leads(v, here, path, x)
    ensures Shown(v, here, ItemsFault(items, here, depth, index).value)
    decreases items
  {
    hide FirstFault, Shown, Decimal, Leads;
    var there := here + "/" + Decimal(index);
    if FirstFault(items.value, there, depth + 1).Some? {
      FaultIsShown(items.value, there, depth + 1);
      ShownOutside(items.value, there, v, here, FirstFault(items.value, there, depth + 1).value);
    } else {
      ItemFaultIsShown(items.rest, v, here, depth, index + 1);
    }
  }

  lemma {:induction false} MemberFaultIsShown(
    members: Members, all: Members, before: seq<string>, v: Json, here: string, depth: nat, seen: set<string>)
    requires MembersFault(members, here, depth, seen).Some? && v == JObject(all) && Names(all) == before + Names(members)
    requires forall name | name in seen :: name in before
    requires forall path, x | LeadsMembers(members, here, path, x) :: Leads(v, here, path, x)
    ensures Shown(v, here, MembersFault(members, here, depth, seen).value)
    decreases members
  {
    hide FirstFault, EscapePointer, Leads, NegativeZero;
    var name, there := members.name, here + "/" + EscapePointer(members.name);
    if name in seen {
      var i :| 0 <= i < |before| && before[i] == name;
      assert Names(all)[i] == name && Names(all)[|before|] == name;
      ItLeadsHere(v, here);
      assert Repeats(all, name);
    } else if FirstFault(members.value, there, depth + 1).Some? {
      hide Shown;
      FaultIsShown(members.value, there, depth + 1);
      ShownOutside(members.value, there, v, here, FirstFault(members.value, there, depth + 1).value);
    } else {
      hide Shown;
      assert before + [name] + Names(members.rest) == before + Names(members);
      MemberFaultIsShown(members.rest, all, before + [name], v, here, depth, seen + {name});
    }
  }

  lemma ItLeadsHere(v: Json, here: string)
    ensures Leads(v, here, here, v)
  {
  }

  /**
   A refused well-formed document has the fault it is refused for, at the path given: a
   negative zero there, a member there whose object has that name twice, or a value
   there in a document nested too deep.
   */
  lemma FaultsAreReal(v: Json)
    requires Validate(Flatten(v)).Some?
    ensures var e := Validate(Flatten(v)).value;
            && (e.code == InvalidNumber ==> exists s :: NegativeZero(s) && Leads(v, "$", e.path, JNumber(s)))
            && (e.code == DuplicateMember ==>
                  exists members, name, parent ::
                    Leads(v, "$", parent, JObject(members)) && e.path == parent + "/" + EscapePointer(name) && Repeats(members, name))
            && (e.code == InvalidJson ==> Height(v) > 512 && exists x :: Leads(v, "$", e.path, x))
  {
    hide FirstFault, Leads, NegativeZero, EscapePointer, Repeats, Validate, Height, Clean;
    assert Flatten(v) + [] == Flatten(v);
    FaultOf(v, []);
    FaultlessIff(v, "$", 0);
    FaultIsShown(v, "$", 0);
  }
}
