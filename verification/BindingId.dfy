/** The quarantine capability's name: a digest of the whole prepared identity, framed field by field. */
module BindingId {
  import opened Wrappers
  import opened Text

  const PREFIX := "bound-"
  const STAGE_PREFIX := "stage-"

  /** binary.BigEndian.PutUint64. */
  function BigEndian64(n: nat): (r: string)
    ensures |r| == 8
  {
    BigEndian(n, 8)
  }

  function BigEndian(n: nat, width: nat): (r: string)
    ensures |r| == width
  {
    if width == 0 then "" else BigEndian(n / 256, width - 1) + [(n % 256) as char]
  }

  function Power256(width: nat): nat {
    if width == 0 then 1 else 256 * Power256(width - 1)
  }

  lemma {:induction false} BigEndianInjective(a: nat, b: nat, width: nat)
    requires a < Power256(width) && b < Power256(width) && BigEndian(a, width) == BigEndian(b, width)
    ensures a == b
  {
    if width > 0 {
      var x, y := BigEndian(a, width), BigEndian(b, width);
      assert BigEndian(a / 256, width - 1) == x[..width - 1] && BigEndian(b / 256, width - 1) == y[..width - 1];
      assert (a % 256) as char == x[width - 1] == y[width - 1] == (b % 256) as char;
      BigEndianInjective(a / 256, b / 256, width - 1);
    }
  }

  /** writeBindingField: the length, then the bytes. */
  function Frame(field: string): string {
    BigEndian64(|field|) + field
  }

  function Encode(fields: seq<string>): string {
    if fields == [] then "" else Encode(fields[..|fields| - 1]) + Frame(fields[|fields| - 1])
  }

  lemma EncodeSnoc(before: seq<string>, last: string)
    ensures Encode(before + [last]) == Encode(before) + Frame(last)
  {
    assert (before + [last])[..|before|] == before;
  }

  /** The frames read from the front. */
  lemma {:induction false} EncodeFront(fields: seq<string>)
    requires fields != []
    ensures Encode(fields) == Frame(fields[0]) + Encode(fields[1..])
  {
    if |fields| > 1 {
      hide Frame, Encode;
      var before, last := fields[..|fields| - 1], fields[|fields| - 1];
      EncodeFront(before);
      EncodeSnoc(before, last);
      EncodeSnoc(before[1..], last);
      assert fields == before + [last] && fields[1..] == before[1..] + [last];
    } else {
      assert fields[..0] == [] && fields[1..] == [];
    }
  }

  lemma FrameInjective(a: string, x: string, b: string, y: string)
    requires Fits(a) && Fits(b) && Frame(a) + x == Frame(b) + y
    ensures a == b && x == y
  {
    var s, t := Frame(a) + x, Frame(b) + y;
    assert BigEndian64(|a|) == s[..8] && BigEndian64(|b|) == t[..8];
    assert Power256(8) == 0x1_0000_0000_0000_0000 by {
      assert Power256(2) == 0x1_0000;
      assert Power256(4) == 256 * (256 * Power256(2));
      assert Power256(6) == 256 * (256 * Power256(4));
      assert Power256(8) == 256 * (256 * Power256(6));
    }
    BigEndianInjective(|a|, |b|, 8);
    assert a == s[8..8 + |a|] && b == t[8..8 + |b|];
    assert x == s[8 + |a|..] && y == t[8 + |b|..];
  }

  lemma EncodeEmpty(fields: seq<string>)
    ensures Encode(fields) == "" <==> fields == []
  {
    if fields != [] {
      EncodeSnoc(fields[..|fields| - 1], fields[|fields| - 1]);
      assert |Frame(fields[|fields| - 1])| >= 8;
      assert fields == fields[..|fields| - 1] + [fields[|fields| - 1]];
    }
  }

  /** Length-prefixed framing loses nothing: equal encodings come from equal field lists. */
  lemma {:induction false} EncodeInjective(a: seq<string>, b: seq<string>)
    requires forall f | f in a :: Fits(f)
    requires forall f | f in b :: Fits(f)
    requires Encode(a) == Encode(b)
    ensures a == b
  {
    hide Frame, Encode;
    EncodeEmpty(a);
    EncodeEmpty(b);
    if a != [] {
      EncodeFront(a);
    }
    if b != [] {
      EncodeFront(b);
    }
    if a != [] && b != [] {
      FrameInjective(a[0], Encode(a[1..]), b[0], Encode(b[1..]));
      EncodeInjective(a[1..], b[1..]);
      assert a == [a[0]] + a[1..] && b == [b[0]] + b[1..];
    }
  }

  /** The loop that feeds the digest one framed field after another. */
  method WriteFields(fields: seq<string>) returns (written: string)
    ensures written == Encode(fields)
  {
    written := "";
    for i := 0 to |fields|
      invariant written == Encode(fields[..i])
    {
      assert fields[..i + 1][..i] == fields[..i];
      written := written + BigEndian64(|fields[i]|);
      written := written + fields[i];
      assert Encode(fields[..i + 1]) == Encode(fields[..i]) + Frame(fields[i]);
    }
    assert fields[..|fields|] == fields;
  }

  /** Everything a prepared candidate is bound to. */
  datatype Identity = Identity(
    expectedHead: string, commit: string, path: string, eventId: string, key: string,
    contentSha: string, rawSha: string, rawSize: int)

  function Fields(i: Identity): seq<string>
    requires i.rawSize >= 0
  {
    [i.expectedHead, i.commit, i.path, i.eventId, i.key, i.contentSha, i.rawSha, BigEndian64(i.rawSize)]
  }

  /** candidateQuarantineBindingIDFields. */
  function Id(sha256: string -> string, i: Identity): Option<string> {
    if i.expectedHead == "" || i.commit == "" || i.path == "" || i.eventId == "" || i.key == "" ||
       i.contentSha == "" || i.rawSha == "" || i.rawSize <= 0
    then None
    else Some(PREFIX + sha256(Encode(Fields(i))))
  }

  predicate Sized(i: Identity) {
    && Fits(i.expectedHead) && Fits(i.commit) && Fits(i.path) && Fits(i.eventId) && Fits(i.key)
    && Fits(i.contentSha) && Fits(i.rawSha) && i.rawSize < 0x8000_0000_0000_0000
  }

  /** One capability name, one prepared identity. */
  lemma IdInjective(sha256: string -> string, a: Identity, b: Identity)
    requires forall x: string, y: string :: sha256(x) == sha256(y) ==> x == y
    requires Sized(a) && Sized(b)
    requires Id(sha256, a).Some? && Id(sha256, a) == Id(sha256, b)
    ensures a == b
  {
    var fa, fb := Fields(a), Fields(b);
    var ea, eb := Encode(fa), Encode(fb);
    assert sha256(ea) == (PREFIX + sha256(ea))[|PREFIX|..];
    assert sha256(eb) == (PREFIX + sha256(eb))[|PREFIX|..];
    EncodeInjective(fa, fb);
    assert fa[0] == fb[0] && fa[1] == fb[1] && fa[2] == fb[2] && fa[3] == fb[3];
    assert fa[4] == fb[4] && fa[5] == fb[5] && fa[6] == fb[6] && fa[7] == fb[7];
    SizesAgree(a.rawSize, b.rawSize);
  }

  lemma SizesAgree(a: nat, b: nat)
    requires a < 0x8000_0000_0000_0000 && b < 0x8000_0000_0000_0000 && BigEndian64(a) == BigEndian64(b)
    ensures a == b
  {
    assert Power256(8) == 0x1_0000_0000_0000_0000 by {
      assert Power256(2) == 0x1_0000;
      assert Power256(4) == 256 * (256 * Power256(2));
      assert Power256(6) == 256 * (256 * Power256(4));
      assert Power256(8) == 256 * (256 * Power256(6));
    }
    BigEndianInjective(a, b, 8);
  }

  /** A capability is never a staging name. */
  lemma BoundIsNotStage(sha256: string -> string, i: Identity, nonce: string)
    requires Id(sha256, i).Some?
    ensures Id(sha256, i).value != STAGE_PREFIX + nonce
  {
    assert Id(sha256, i).value[0] == 'b' && (STAGE_PREFIX + nonce)[0] == 's';
  }

  // ------------------------------------------------------------------ layout

  /** The number some bytes denote, most significant first. */
  function Denoted(bytes: string): nat {
    if bytes == "" then 0 else 256 * Denoted(bytes[..|bytes| - 1]) + bytes[|bytes| - 1] as int
  }

  lemma {:induction false} BigEndianDenotes(n: nat, width: nat)
    requires n < Power256(width)
    ensures Denoted(BigEndian(n, width)) == n
  {
    if width > 0 {
      BigEndianDenotes(n / 256, width - 1);
      var bytes := BigEndian(n, width);
      assert bytes[..|bytes| - 1] == BigEndian(n / 256, width - 1);
    }
  }

  /** Every field of a name's digest stands behind its length in eight bytes, most significant first. */
  lemma FramesSayTheirLength(field: string)
    requires Fits(field)
    ensures |Frame(field)| == 8 + |field| && Denoted(Frame(field)[..8]) == |field| && Frame(field)[8..] == field
  {
    assert Power256(8) == 0x1_0000_0000_0000_0000 by {
      assert Power256(2) == 0x1_0000;
      assert Power256(4) == 256 * (256 * Power256(2));
      assert Power256(6) == 256 * (256 * Power256(4));
      assert Power256(8) == 256 * (256 * Power256(6));
    }
    BigEndianDenotes(|field|, 8);
    assert Frame(field)[..8] == BigEndian64(|field|);
  }

  /** A name exists exactly for a complete identity of a non-empty event, and digests its fields in this order. */
  lemma NameIs(sha256: string -> string, i: Identity, name: string)
    ensures Id(sha256, i) == Some(name) <==>
            && i.expectedHead != "" && i.commit != "" && i.path != "" && i.eventId != "" && i.key != ""
            && i.contentSha != "" && i.rawSha != ""
            && i.rawSize > 0
            && name == "bound-" + sha256(Frame(i.expectedHead) + Frame(i.commit) + Frame(i.path) + Frame(i.eventId) + Frame(i.key) +
                                         Frame(i.contentSha) + Frame(i.rawSha) + Frame(BigEndian64(i.rawSize)))
  {
    hide Frame, BigEndian64, Encode;
    if i.rawSize > 0 {
      FieldsInOrder(i);
    }
  }

  lemma FieldsInOrder(i: Identity)
    requires i.rawSize > 0
    ensures Encode(Fields(i)) ==
            Frame(i.expectedHead) + Frame(i.commit) + Frame(i.path) + Frame(i.eventId) + Frame(i.key) +
            Frame(i.contentSha) + Frame(i.rawSha) + Frame(BigEndian64(i.rawSize))
  {
    hide Frame, BigEndian64, Encode;
    EncodeEmpty([]);
    var size := BigEndian64(i.rawSize);
    var one := [i.expectedHead];
    var three := one + [i.commit] + [i.path];
    var five := three + [i.eventId] + [i.key];
    var seven := five + [i.contentSha] + [i.rawSha];
    assert [] + [i.expectedHead] == one;
    EncodeSnoc([], i.expectedHead);
    EncodeSnoc(one, i.commit);
    EncodeSnoc(one + [i.commit], i.path);
    EncodeSnoc(three, i.eventId);
    EncodeSnoc(three + [i.eventId], i.key);
    EncodeSnoc(five, i.contentSha);
    EncodeSnoc(five + [i.contentSha], i.rawSha);
    EncodeSnoc(seven, size);
    assert Fields(i) == seven + [size];
  }
}
