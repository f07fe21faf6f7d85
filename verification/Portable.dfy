/** The portable bundle: one canonical text for everything it may contain, in whatever order it was listed. */
module Portable {
  import opened Wrappers
  import opened Text
  import opened Sorting
  import P = Provenance

  // ------------------------------------------------------------------ bundles

  datatype Version = Version(id: string, contentSha: string, locator: string, observedAt: string)

  datatype Source = Source(
    id: string, kind: string, authorityClass: string, classification: string, preservation: string,
    versions: map<string, Version>)

  datatype Definition = Definition(kind: string, symmetric: bool)

  datatype Edge = Edge(from: string, kind: string, to: string, evidence: seq<string>)

  datatype Conflict = Conflict(id: string, records: seq<string>, material: bool, state: string, resolutionEventId: string)

  datatype Coverage = Coverage(
    expected: int, available: int, checked: int, complete: bool, lastIngestion: string, knownGaps: seq<string>)

  datatype Window = Window(effectiveFrom: string, effectiveUntil: string, observedAt: string, acceptedAt: string)

  datatype Envelope = Envelope(
    recordId: string, recordType: string, authorityClass: string, sourceId: string, sourceVersions: seq<string>,
    provenance: seq<string>, conflicts: seq<string>, superseded: bool, projectionVersion: string,
    score: Option<string>, coverage: Option<Coverage>, temporal: Option<Window>, classification: string)

  datatype Proof = Proof(ledgerCommit: string, identities: seq<string>, counts: seq<int>)

  datatype Bundle = Bundle(
    format: string, ledgerCommit: string, proof: Proof, sources: seq<Source>, provenance: seq<P.Record>,
    definitions: seq<Definition>, relationships: seq<Edge>, conflicts: seq<Conflict>, evidence: seq<Envelope>)

  const FORMAT_V1 := "urn:threadkeeper:portable-core:v1"

  /** JSON, canonicalisation, the preservation policy's own check and RFC 3339 time, taken as given. */
  datatype Codec = Codec(
    encode: Bundle -> Option<string>,            // json.Marshal, then Canonicalize
    decode: string -> Option<Bundle>,            // json.Decoder, unknown fields refused
    strictValid: string -> bool,
    canon: string -> Option<string>,
    number: int -> int,                          // what an integer reads back as, once written as JSON
    preservationOk: string -> bool,
    instant: string -> Option<int>)              // time.Parse; 0 is Go's zero time

  // --------------------------------------------------------------- validation

  predicate Classified(c: string) {
    c in ["public", "internal", "confidential", "restricted"]
  }

  predicate SourceOk(codec: Codec, s: Source) {
    && s.id != "" && s.kind != "" && s.authorityClass != "" && Classified(s.classification)
    && codec.preservationOk(s.preservation)
    && forall id | id in s.versions :: s.versions[id].id == id && id != ""
  }

  predicate DefinitionOk(d: Definition) {
    d.kind != ""
  }

  /** The definition of a kind, once defined. */
  predicate Symmetric(defs: seq<Definition>, kind: string) {
    exists d | d in defs :: d.kind == kind && d.symmetric
  }

  predicate EdgeOk(defs: seq<Definition>, e: Edge) {
    (exists d | d in defs :: d.kind == e.kind) && e.from != "" && e.to != "" && e.from != e.to
  }

  /** The registry key of an edge: an undirected edge has one, whichever way it was written. */
  function EdgeKey(defs: seq<Definition>, e: Edge): string {
    if Symmetric(defs, e.kind) && Leq(e.to, e.from)
    then e.to + "\0" + e.kind + "\0" + e.from
    else e.from + "\0" + e.kind + "\0" + e.to
  }

  predicate NoRepeats(s: seq<string>) {
    forall i, j | 0 <= i < j < |s| :: s[i] != s[j]
  }

  predicate ConflictOk(c: Conflict) {
    && c.id != "" && |c.records| >= 2 && NoRepeats(c.records) && "" !in c.records
    && ((c.state == "open" && c.resolutionEventId == "") || (c.state == "resolved" && c.resolutionEventId != ""))
  }

  predicate CoverageOk(c: Coverage) {
    && 0 <= c.expected && 0 <= c.available && 0 <= c.checked <= c.available
    && (c.complete ==> c.expected != 0 && c.available == c.expected && c.checked == c.expected && c.knownGaps == [])
  }

  function InstantOrZero(codec: Codec, text: string): Option<int> {
    if text == "" then Some(0) else codec.instant(text)
  }

  predicate WindowOk(codec: Codec, w: Window) {
    && codec.instant(w.observedAt).Some? && codec.instant(w.acceptedAt).Some?
    && codec.instant(w.observedAt).value <= codec.instant(w.acceptedAt).value
    && InstantOrZero(codec, w.effectiveFrom).Some? && InstantOrZero(codec, w.effectiveUntil).Some?
    && (var from, until := InstantOrZero(codec, w.effectiveFrom).value, InstantOrZero(codec, w.effectiveUntil).value;
        from != 0 && until != 0 ==> from <= until)
  }

  predicate EnvelopeOk(codec: Codec, e: Envelope) {
    && e.recordId != "" && e.recordType != "" && e.authorityClass != "" && Classified(e.classification)
    && (e.coverage.Some? ==> CoverageOk(e.coverage.value))
    && (e.temporal.Some? ==> WindowOk(codec, e.temporal.value))
  }

  predicate DistinctBy<T>(xs: seq<T>, key: T -> string) {
    forall i, j | 0 <= i < j < |xs| :: key(xs[i]) != key(xs[j])
  }

  predicate Registrable<T(==)>(xs: seq<T>, ok: T -> bool, key: T -> string) {
    (forall x | x in xs :: ok(x)) && DistinctBy(xs, key)
  }

  ghost predicate Valid(codec: Codec, b: Bundle) {
    && b.format == FORMAT_V1 && b.ledgerCommit != "" && b.proof.ledgerCommit == b.ledgerCommit
    && Registrable(b.sources, s => SourceOk(codec, s), (s: Source) => s.id)
    && P.Importable(b.provenance)
    && Registrable(b.definitions, DefinitionOk, (d: Definition) => d.kind)
    && Registrable(b.relationships, e => EdgeOk(b.definitions, e), e => EdgeKey(b.definitions, e))
    && Registrable(b.conflicts, ConflictOk, (c: Conflict) => c.id)
    && Registrable(b.evidence, e => EnvelopeOk(codec, e), (e: Envelope) => e.recordId)
  }

  /** One registry after another takes its list, refusing the first bad or repeated element. */
  method RegisterAll<T(==)>(xs: seq<T>, ok: T -> bool, key: T -> string) returns (r: bool)
    ensures r == Registrable(xs, ok, key)
  {
    var seen: set<string> := {};
    for i := 0 to |xs|
      invariant forall j | 0 <= j < i :: ok(xs[j]) && key(xs[j]) in seen
      invariant forall k | k in seen :: exists j | 0 <= j < i :: key(xs[j]) == k
      invariant forall j, k | 0 <= j < k < i :: key(xs[j]) != key(xs[k])
    {
      if !ok(xs[i]) {
        return false;
      }
      if key(xs[i]) in seen {
        return false;
      }
      seen := seen + {key(xs[i])};
    }
    return true;
  }

  method Validate(codec: Codec, b: Bundle) returns (r: bool)
    ensures r == Valid(codec, b)
  {
    hide Registrable, P.Importable;
    if b.format != FORMAT_V1 || b.ledgerCommit == "" || b.proof.ledgerCommit != b.ledgerCommit {
      return false;
    }
    var sources := RegisterAll(b.sources, s => SourceOk(codec, s), (s: Source) => s.id);
    if !sources {
      return false;
    }
    var provenance := P.ValidateProvenance(b.provenance);
    if !provenance {
      return false;
    }
    var definitions := RegisterAll(b.definitions, DefinitionOk, (d: Definition) => d.kind);
    if !definitions {
      return false;
    }
    var edges := RegisterAll(b.relationships, e => EdgeOk(b.definitions, e), e => EdgeKey(b.definitions, e));
    if !edges {
      return false;
    }
    var conflicts := RegisterAll(b.conflicts, ConflictOk, (c: Conflict) => c.id);
    if !conflicts {
      return false;
    }
    r := RegisterAll(b.evidence, e => EnvelopeOk(codec, e), (e: Envelope) => e.recordId);
  }

  // ------------------------------------------------------------- sorting keys

  /** Lexicographic order of key tuples. */
  predicate KeyLeq(a: seq<string>, b: seq<string>) {
    a == [] || (b != [] && if a[0] == b[0] then KeyLeq(a[1..], b[1..]) else Leq(a[0], b[0]))
  }

  lemma {:induction false} KeyLeqTotal(a: seq<string>, b: seq<string>)
    ensures KeyLeq(a, b) || KeyLeq(b, a)
  {
    if a != [] && b != [] {
      LeqTotal(a[0], b[0]);
      if a[0] == b[0] {
        KeyLeqTotal(a[1..], b[1..]);
      }
    }
  }

  lemma {:induction false} KeyLeqAntisymmetric(a: seq<string>, b: seq<string>)
    requires KeyLeq(a, b) && KeyLeq(b, a)
    ensures a == b
  {
    if a != [] {
      if a[0] != b[0] {
        LeqAntisymmetric(a[0], b[0]);
      }
      KeyLeqAntisymmetric(a[1..], b[1..]);
      assert a == [a[0]] + a[1..] && b == [b[0]] + b[1..];
    }
  }

  lemma {:induction false} KeyLeqTransitive(a: seq<string>, b: seq<string>, c: seq<string>)
    requires KeyLeq(a, b) && KeyLeq(b, c)
    ensures KeyLeq(a, c)
  {
    if a != [] {
      if a[0] == b[0] && b[0] == c[0] {
        KeyLeqTransitive(a[1..], b[1..], c[1..]);
      } else if a[0] != b[0] && b[0] != c[0] {
        LeqTransitive(a[0], b[0], c[0]);
        if a[0] == c[0] {
          LeqAntisymmetric(a[0], b[0]);
        }
      }
    }
  }

  function ByKey<T>(key: T -> seq<string>): (T, T) -> bool {
    (x, y) => KeyLeq(key(x), key(y))
  }

  lemma ByKeyIsTotal<T(!new)>(key: T -> seq<string>)
    ensures TotalPreorder(ByKey(key))
    ensures forall x, y :: ByKey(key)(x, y) && ByKey(key)(y, x) ==> key(x) == key(y)
  {
    forall x, y ensures ByKey(key)(x, y) || ByKey(key)(y, x) {
      KeyLeqTotal(key(x), key(y));
    }
    forall x, y, z | ByKey(key)(x, y) && ByKey(key)(y, z) ensures ByKey(key)(x, z) {
      KeyLeqTransitive(key(x), key(y), key(z));
    }
    forall x, y | ByKey(key)(x, y) && ByKey(key)(y, x) ensures key(x) == key(y) {
      KeyLeqAntisymmetric(key(x), key(y));
    }
  }

  // ---------------------------------------------------- arranging keyed lists

  function Map<T>(f: T -> T, xs: seq<T>): (r: seq<T>)
    ensures |r| == |xs| && forall i | 0 <= i < |xs| :: r[i] == f(xs[i])
  {
    if xs == [] then [] else [f(xs[0])] + Map(f, xs[1..])
  }

  /** Each element in its own normal form, then all of them by key. */
  function Arrange<T>(xs: seq<T>, norm: T -> T, key: T -> seq<string>): seq<T> {
    Sort(Map(norm, xs), ByKey(key))
  }

  ghost predicate KeysApart<T>(xs: seq<T>, key: T -> seq<string>) {
    forall i, j | 0 <= i < j < |xs| :: key(xs[i]) != key(xs[j])
  }

  lemma KeysIdentify<T(!new)>(xs: seq<T>, key: T -> seq<string>)
    requires KeysApart(xs, key)
    ensures forall x, y | x in xs && y in xs && key(x) == key(y) :: x == y
  {
    forall x, y | x in xs && y in xs && key(x) == key(y) ensures x == y {
      var i :| 0 <= i < |xs| && xs[i] == x;
      var j :| 0 <= j < |xs| && xs[j] == y;
      assert !(i < j) && !(j < i);
    }
  }

  /** Twice in a list means two positions. */
  lemma {:induction false} TwoPlaces<T>(xs: seq<T>, x: T) returns (i: nat, j: nat)
    requires multiset(xs)[x] >= 2
    ensures i < j < |xs| && xs[i] == x && xs[j] == x
  {
    assert xs == [xs[0]] + xs[1..];
    if xs[0] == x {
      assert x in multiset(xs[1..]);
      var k :| 0 <= k < |xs[1..]| && xs[1..][k] == x;
      i, j := 0, k + 1;
    } else {
      i, j := TwoPlaces(xs[1..], x);
      i, j := i + 1, j + 1;
    }
  }

  lemma PlacesCount<T>(xs: seq<T>, i: nat, j: nat)
    requires i < j < |xs| && xs[i] == xs[j]
    ensures multiset(xs)[xs[i]] >= 2
  {
    assert xs == xs[..j] + [xs[j]] + xs[j + 1..];
    assert xs[..j][i] == xs[i];
    assert xs[i] in multiset(xs[..j]);
  }

  lemma RepeatedKey<T(!new)>(xs: seq<T>, x: T, key: T -> seq<string>)
    requires multiset(xs)[x] >= 2
    ensures !KeysApart(xs, key)
  {
    var i, j := TwoPlaces(xs, x);
    assert key(xs[i]) == key(xs[j]);
  }

  /** Distinctness of keys survives rearrangement. */
  lemma KeysApartPermuted<T(!new)>(a: seq<T>, b: seq<T>, key: T -> seq<string>)
    requires multiset(a) == multiset(b) && KeysApart(a, key)
    ensures KeysApart(b, key)
  {
    KeysIdentify(a, key);
    forall i, j | 0 <= i < j < |b| ensures key(b[i]) != key(b[j]) {
      if key(b[i]) == key(b[j]) {
        assert b[i] in multiset(a) && b[j] in multiset(a);
        PlacesCount(b, i, j);
        RepeatedKey(a, b[i], key);
      }
    }
  }

  /** Arranged lists depend only on what they contain, provided the keys differ. */
  lemma ArrangeIgnoresOrder<T(!new)>(a: seq<T>, b: seq<T>, norm: T -> T, key: T -> seq<string>)
    requires multiset(Map(norm, a)) == multiset(Map(norm, b)) && KeysApart(Arrange(a, norm, key), key)
    ensures Arrange(a, norm, key) == Arrange(b, norm, key)
  {
    ByKeyIsTotal(key);
    KeysApartPermuted(Arrange(a, norm, key), Map(norm, a), key);
    KeysIdentify(Map(norm, a), key);
    SortIgnoresOrder(Map(norm, a), Map(norm, b), ByKey(key));
  }

  /** Arranging twice is arranging once. */
  lemma ArrangeIsIdempotent<T(!new)>(a: seq<T>, norm: T -> T, key: T -> seq<string>)
    requires KeysApart(Arrange(a, norm, key), key) && forall x :: norm(norm(x)) == norm(x)
    ensures Arrange(Arrange(a, norm, key), norm, key) == Arrange(a, norm, key)
  {
    ByKeyIsTotal(key);
    var once := Arrange(a, norm, key);
    SortSorts(Map(norm, a), ByKey(key));
    forall i | 0 <= i < |once| ensures norm(once[i]) == once[i] {
      assert once[i] in multiset(Map(norm, a));
      var j :| 0 <= j < |Map(norm, a)| && Map(norm, a)[j] == once[i];
    }
    assert Map(norm, once) == once;
    KeysIdentify(once, key);
    SortIsIdempotent(once, ByKey(key));
  }

  // ------------------------------------------------------------- normal forms

  function VersionKey(v: P.SourceVersion): seq<string> {
    [v.sourceId, v.versionId]
  }

  function SortVersions(vs: seq<P.SourceVersion>): seq<P.SourceVersion> {
    Sort(vs, ByKey(VersionKey))
  }

  function NormRecord(r: P.Record): P.Record {
    r.(sourceVersions := SortVersions(r.sourceVersions), derivedFrom := SortStrings(r.derivedFrom))
  }

  function NormEdge(e: Edge): Edge {
    e.(evidence := SortStrings(e.evidence))
  }

  function NormConflict(c: Conflict): Conflict {
    c.(records := SortStrings(c.records))
  }

  function NormCoverage(c: Option<Coverage>): Option<Coverage> {
    match c
    case None => None
    case Some(report) => Some(report.(knownGaps := SortStrings(report.knownGaps)))
  }

  function NormEnvelope(e: Envelope): Envelope {
    e.(sourceVersions := SortStrings(e.sourceVersions), provenance := SortStrings(e.provenance),
       conflicts := SortStrings(e.conflicts), coverage := NormCoverage(e.coverage))
  }

  function Same<T>(x: T): T {
    x
  }

  function SourceKey(s: Source): seq<string> { [s.id] }

  function RecordKey(r: P.Record): seq<string> { [r.id] }

  function DefinitionKey(d: Definition): seq<string> { [d.kind] }

  function TripleKey(e: Edge): seq<string> { [e.kind, e.from, e.to] }

  function ConflictKey(c: Conflict): seq<string> { [c.id] }

  function EnvelopeKey(e: Envelope): seq<string> { [e.recordId] }

  /** normalize. */
  function Normalize(b: Bundle): Bundle {
    b.(sources := Arrange(b.sources, Same<Source>, SourceKey),
       provenance := Arrange(b.provenance, NormRecord, RecordKey),
       definitions := Arrange(b.definitions, Same<Definition>, DefinitionKey),
       relationships := Arrange(b.relationships, NormEdge, TripleKey),
       conflicts := Arrange(b.conflicts, NormConflict, ConflictKey),
       evidence := Arrange(b.evidence, NormEnvelope, EnvelopeKey))
  }

  lemma StringsSettle(s: seq<string>)
    ensures SortStrings(SortStrings(s)) == SortStrings(s)
  {
    LeqIsTotal();
    SortSorts(s, Leq);
    SortIsIdempotent(SortStrings(s), Leq);
  }

  lemma StringsForget(a: seq<string>, b: seq<string>)
    requires multiset(a) == multiset(b)
    ensures SortStrings(a) == SortStrings(b)
  {
    LeqIsTotal();
    SortIgnoresOrder(a, b, Leq);
  }

  lemma VersionsSettle(vs: seq<P.SourceVersion>)
    ensures SortVersions(SortVersions(vs)) == SortVersions(vs)
  {
    ByKeyIsTotal(VersionKey);
    VersionKeyIdentifies();
    SortSorts(vs, ByKey(VersionKey));
    SortIsIdempotent(SortVersions(vs), ByKey(VersionKey));
  }

  lemma VersionKeyIdentifies()
    ensures forall x, y :: VersionKey(x) == VersionKey(y) ==> x == y
  {
    forall x, y | VersionKey(x) == VersionKey(y) ensures x == y {
      assert VersionKey(x)[0] == VersionKey(y)[0] && VersionKey(x)[1] == VersionKey(y)[1];
    }
  }

  lemma VersionsForget(a: seq<P.SourceVersion>, b: seq<P.SourceVersion>)
    requires multiset(a) == multiset(b)
    ensures SortVersions(a) == SortVersions(b)
  {
    ByKeyIsTotal(VersionKey);
    VersionKeyIdentifies();
    SortIgnoresOrder(a, b, ByKey(VersionKey));
  }

  lemma NormsSettle()
    ensures forall r :: NormRecord(NormRecord(r)) == NormRecord(r)
    ensures forall e :: NormEdge(NormEdge(e)) == NormEdge(e)
    ensures forall c :: NormConflict(NormConflict(c)) == NormConflict(c)
    ensures forall e :: NormEnvelope(NormEnvelope(e)) == NormEnvelope(e)
  {
    hide SortStrings, SortVersions;
    forall r: P.Record ensures NormRecord(NormRecord(r)) == NormRecord(r) {
      StringsSettle(r.derivedFrom);
      VersionsSettle(r.sourceVersions);
    }
    forall e: Edge ensures NormEdge(NormEdge(e)) == NormEdge(e) {
      StringsSettle(e.evidence);
    }
    forall c: Conflict ensures NormConflict(NormConflict(c)) == NormConflict(c) {
      StringsSettle(c.records);
    }
    forall e: Envelope ensures NormEnvelope(NormEnvelope(e)) == NormEnvelope(e) {
      StringsSettle(e.sourceVersions);
      StringsSettle(e.provenance);
      StringsSettle(e.conflicts);
      if e.coverage.Some? {
        StringsSettle(e.coverage.value.knownGaps);
      }
    }
  }

  /** Distinct registry keys are distinct sort keys. */
  lemma RegisteredKeysApart<T(!new)>(xs: seq<T>, ok: T -> bool, id: T -> string, key: T -> seq<string>)
    requires Registrable(xs, ok, id) && forall x, y :: key(x) == key(y) ==> id(x) == id(y)
    ensures KeysApart(xs, key)
  {
  }

  /** In a valid bundle no two elements of a list share a sort key. */
  ghost predicate AllKeysApart(b: Bundle) {
    && KeysApart(b.sources, SourceKey) && KeysApart(b.provenance, RecordKey)
    && KeysApart(b.definitions, DefinitionKey) && KeysApart(b.relationships, TripleKey)
    && KeysApart(b.conflicts, ConflictKey) && KeysApart(b.evidence, EnvelopeKey)
  }

  lemma ValidKeysApart(codec: Codec, b: Bundle)
    requires Valid(codec, b)
    ensures AllKeysApart(b)
  {
    hide SourceOk, DefinitionOk, EdgeOk, ConflictOk, EnvelopeOk, EdgeKey;
    KeysTell();
    RegisteredKeysApart(b.sources, s => SourceOk(codec, s), (s: Source) => s.id, SourceKey);
    RegisteredKeysApart(b.definitions, DefinitionOk, (d: Definition) => d.kind, DefinitionKey);
    EdgeKeysTell(b.definitions);
    RegisteredKeysApart(b.relationships, e => EdgeOk(b.definitions, e), e => EdgeKey(b.definitions, e), TripleKey);
    RegisteredKeysApart(b.conflicts, ConflictOk, (c: Conflict) => c.id, ConflictKey);
    RegisteredKeysApart(b.evidence, e => EnvelopeOk(codec, e), (e: Envelope) => e.recordId, EnvelopeKey);
    RecordKeysApart(b.provenance);
  }

  lemma RecordKeysApart(records: seq<P.Record>)
    requires P.Importable(records)
    ensures KeysApart(records, RecordKey)
  {
    hide P.Acyclic, P.LocallyValid, P.HasId;
    forall i, j | 0 <= i < j < |records| ensures RecordKey(records[i]) != RecordKey(records[j]) {
      assert RecordKey(records[i])[0] != RecordKey(records[j])[0];
    }
  }

  lemma KeysTell()
    ensures forall x, y :: SourceKey(x) == SourceKey(y) ==> x.id == y.id
    ensures forall x, y :: DefinitionKey(x) == DefinitionKey(y) ==> x.kind == y.kind
    ensures forall x, y :: ConflictKey(x) == ConflictKey(y) ==> x.id == y.id
    ensures forall x, y :: EnvelopeKey(x) == EnvelopeKey(y) ==> x.recordId == y.recordId
  {
    forall x, y | SourceKey(x) == SourceKey(y) ensures x.id == y.id { assert SourceKey(x)[0] == SourceKey(y)[0]; }
    forall x, y | DefinitionKey(x) == DefinitionKey(y) ensures x.kind == y.kind { assert DefinitionKey(x)[0] == DefinitionKey(y)[0]; }
    forall x, y | ConflictKey(x) == ConflictKey(y) ensures x.id == y.id { assert ConflictKey(x)[0] == ConflictKey(y)[0]; }
    forall x, y | EnvelopeKey(x) == EnvelopeKey(y) ensures x.recordId == y.recordId { assert EnvelopeKey(x)[0] == EnvelopeKey(y)[0]; }
  }

  lemma EdgeKeysTell(defs: seq<Definition>)
    ensures forall x, y :: TripleKey(x) == TripleKey(y) ==> EdgeKey(defs, x) == EdgeKey(defs, y)
  {
    forall x, y | TripleKey(x) == TripleKey(y) ensures EdgeKey(defs, x) == EdgeKey(defs, y) {
      assert TripleKey(x)[0] == TripleKey(y)[0] && TripleKey(x)[1] == TripleKey(y)[1] && TripleKey(x)[2] == TripleKey(y)[2];
    }
  }

  /** Normalising what is normal changes nothing. */
  lemma NormalizeIsIdempotent(codec: Codec, b: Bundle)
    requires Valid(codec, Normalize(b))
    ensures Normalize(Normalize(b)) == Normalize(b)
  {
    hide Arrange, Valid, NormRecord, NormEdge, NormConflict, NormEnvelope, KeysApart, SourceKey, RecordKey,
      DefinitionKey, TripleKey, ConflictKey, EnvelopeKey;
    ValidKeysApart(codec, Normalize(b));
    NormsSettle();
    ArrangeIsIdempotent(b.sources, Same<Source>, SourceKey);
    ArrangeIsIdempotent(b.provenance, NormRecord, RecordKey);
    ArrangeIsIdempotent(b.definitions, Same<Definition>, DefinitionKey);
    ArrangeIsIdempotent(b.relationships, NormEdge, TripleKey);
    ArrangeIsIdempotent(b.conflicts, NormConflict, ConflictKey);
    ArrangeIsIdempotent(b.evidence, NormEnvelope, EnvelopeKey);
  }

  // ---------------------------------------------------------- encode, decode

  /** What Encode writes, if the normalized bundle is valid. */
  ghost function Encoded(codec: Codec, b: Bundle): Option<string> {
    if Valid(codec, Normalize(b)) then codec.encode(Normalize(b)) else None
  }

  method Encode(codec: Codec, b: Bundle) returns (r: Option<string>)
    ensures r == Encoded(codec, b)
  {
    hide Valid;
    var normalized := Normalize(b);
    var valid := Validate(codec, normalized);
    if !valid {
      return None;
    }
    return codec.encode(normalized);
  }

  /** What Decode reads: canonical, known fields only, valid, and exactly what Encode would write. */
  ghost function Decoded(codec: Codec, raw: string): Option<Bundle> {
    if !codec.strictValid(raw) || codec.canon(raw) != Some(raw) then None
    else
      match codec.decode(raw)
      case None => None
      case Some(b) => if Valid(codec, b) && Encoded(codec, b) == Some(raw) then Some(b) else None
  }

  method Decode(codec: Codec, raw: string) returns (r: Option<Bundle>)
    ensures r == Decoded(codec, raw)
  {
    hide Valid, Encoded;
    if !codec.strictValid(raw) {
      return None;
    }
    var canonical := codec.canon(raw);
    if canonical.None? || canonical.value != raw {
      return None;
    }
    var decoded := codec.decode(raw);
    if decoded.None? {
      return None;
    }
    var valid := Validate(codec, decoded.value);
    if !valid {
      return None;
    }
    var normalized := Encode(codec, decoded.value);
    if normalized != Some(raw) {
      return None;
    }
    return decoded;
  }

  // --------------------------------------------------------- written numbers

  const MAX_EXACT := 0x20_0000_0000_0000

  /** A Go int. */
  predicate InRange(n: int) {
    -0x8000_0000_0000_0000 <= n < 0x8000_0000_0000_0000
  }

  function RoundCoverage(number: int -> int, c: Option<Coverage>): Option<Coverage> {
    match c
    case None => None
    case Some(r) =>
      Some(r.(expected := number(r.expected), available := number(r.available), checked := number(r.checked)))
  }

  function RoundWith(number: int -> int): Envelope -> Envelope {
    (e: Envelope) => e.(coverage := RoundCoverage(number, e.coverage))
  }

  /** The bundle its own text describes: RFC 8785 (section 3.2.2.3) writes every number as an IEEE double. */
  function Rounded(codec: Codec, b: Bundle): Bundle {
    b.(proof := b.proof.(counts := Map(codec.number, b.proof.counts)),
       evidence := Map(RoundWith(codec.number), b.evidence))
  }

  /** Every count of the bundle has the property. */
  ghost predicate Counts(b: Bundle, ok: int -> bool) {
    && (forall n | n in b.proof.counts :: ok(n))
    && (forall e | e in b.evidence && e.coverage.Some? ::
          ok(e.coverage.value.expected) && ok(e.coverage.value.available) && ok(e.coverage.value.checked))
  }

  /** Every count survives being written. */
  ghost predicate Exact(codec: Codec, b: Bundle) {
    Counts(b, n => codec.number(n) == n)
  }

  /** Writing a number as a double keeps the order, settles at once and is exact up to 2^53. */
  ghost predicate LawfulNumbers(number: int -> int) {
    && (forall m, n :: m <= n ==> number(m) <= number(n))
    && (forall n :: number(number(n)) == number(n))
    && (forall n | -MAX_EXACT <= n <= MAX_EXACT :: number(n) == n)
  }

  /** What is assumed of JSON: what was written reads back, apart from its numbers, if they still are Go ints. */
  ghost predicate Faithful(codec: Codec) {
    && LawfulNumbers(codec.number)
    && (forall b: Bundle {:trigger codec.encode(b)} :: codec.encode(b).Some? && Counts(b, InRange) ==>
          var raw, written := codec.encode(b).value, Rounded(codec, b);
          && codec.strictValid(raw) && codec.canon(raw) == Some(raw)
          && (if Counts(written, InRange) then codec.decode(raw) == Some(written) && codec.encode(written) == Some(raw)
              else codec.decode(raw) == None))
    && (forall raw {:trigger codec.decode(raw)} :: codec.decode(raw).Some? ==> Counts(codec.decode(raw).value, InRange))
  }

  lemma {:induction false} MapCommutes<T(!new)>(f: T -> T, g: T -> T, xs: seq<T>)
    requires forall x :: f(g(x)) == g(f(x))
    ensures Map(f, Map(g, xs)) == Map(g, Map(f, xs))
  {
  }

  lemma {:induction false} InsertMapped<T(!new)>(f: T -> T, x: T, xs: seq<T>, le: (T, T) -> bool)
    requires forall a, b :: le(f(a), f(b)) == le(a, b)
    ensures Insert(f(x), Map(f, xs), le) == Map(f, Insert(x, xs, le))
  {
    if xs != [] {
      assert Map(f, xs)[1..] == Map(f, xs[1..]);
      if !le(x, xs[0]) {
        InsertMapped(f, x, xs[1..], le);
      } else {
        assert ([x] + xs)[1..] == xs;
      }
    }
  }

  lemma {:induction false} SortMapped<T(!new)>(f: T -> T, xs: seq<T>, le: (T, T) -> bool)
    requires forall a, b :: le(f(a), f(b)) == le(a, b)
    ensures Sort(Map(f, xs), le) == Map(f, Sort(xs, le))
  {
    if xs != [] {
      assert Map(f, xs)[1..] == Map(f, xs[1..]);
      SortMapped(f, xs[1..], le);
      InsertMapped(f, xs[0], Sort(xs[1..], le), le);
    }
  }

  /** Rounding counts and normalising do not meet. */
  lemma NormalizeRounds(codec: Codec, b: Bundle)
    ensures Normalize(Rounded(codec, b)) == Rounded(codec, Normalize(b))
  {
    hide Sort, SortStrings, KeyLeq, Map;
    var round := RoundWith(codec.number);
    MapCommutes(NormEnvelope, round, b.evidence);
    forall d: Envelope, e: Envelope ensures ByKey(EnvelopeKey)(round(d), round(e)) == ByKey(EnvelopeKey)(d, e) {
      assert EnvelopeKey(round(d)) == EnvelopeKey(d) && EnvelopeKey(round(e)) == EnvelopeKey(e);
    }
    SortMapped(round, Map(NormEnvelope, b.evidence), ByKey(EnvelopeKey));
  }

  lemma RoundedEnvelopeOk(codec: Codec, e: Envelope)
    requires LawfulNumbers(codec.number) && EnvelopeOk(codec, e)
    ensures EnvelopeOk(codec, RoundWith(codec.number)(e))
  {
    hide WindowOk;
    assert codec.number(0) == 0 && codec.number(1) == 1;
  }

  /** A valid bundle stays valid. */
  lemma RoundedIsValid(codec: Codec, b: Bundle)
    requires LawfulNumbers(codec.number) && Valid(codec, b)
    ensures Valid(codec, Rounded(codec, b))
  {
    hide SourceOk, EnvelopeOk, ConflictOk, EdgeOk, EdgeKey, P.Importable, LawfulNumbers, Map;
    var b' := Rounded(codec, b);
    forall e | e in b'.evidence ensures EnvelopeOk(codec, e) {
      var i :| 0 <= i < |b'.evidence| && b'.evidence[i] == e;
      assert b.evidence[i] in b.evidence && (x => EnvelopeOk(codec, x))(b.evidence[i]);
      RoundedEnvelopeOk(codec, b.evidence[i]);
    }
  }

  /** Normalising keeps the counts. */
  lemma NormalizeKeepsCounts(b: Bundle, ok: int -> bool)
    ensures Counts(Normalize(b), ok) <==> Counts(b, ok)
  {
    hide Sort, SortStrings, ByKey, Map;
    var sorted, mapped := Normalize(b).evidence, Map(NormEnvelope, b.evidence);
    SortHasSame(mapped, ByKey(EnvelopeKey));
    forall e | e in sorted ensures exists x :: x in b.evidence && NormEnvelope(x) == e {
      var i :| 0 <= i < |mapped| && mapped[i] == e;
      assert b.evidence[i] in b.evidence;
    }
    forall x | x in b.evidence ensures NormEnvelope(x) in sorted {
      var i :| 0 <= i < |b.evidence| && b.evidence[i] == x;
      assert mapped[i] in mapped;
    }
  }

  // ------------------------------------------------------------- there and back

  /** Decode accepts whatever Encode writes if its numbers are Go ints, and returns the normalized bundle as written. */
  lemma DecodeAfterEncode(codec: Codec, b: Bundle)
    requires Faithful(codec) && Counts(b, InRange) && Encoded(codec, b).Some?
    ensures var written := Rounded(codec, Normalize(b));
            Decoded(codec, Encoded(codec, b).value) == if Counts(written, InRange) then Some(written) else None
  {
    hide Normalize, Valid, Counts, Rounded, LawfulNumbers;
    var normal := Normalize(b);
    NormalizeKeepsCounts(b, InRange);
    NormalizeIsIdempotent(codec, b);
    NormalizeRounds(codec, normal);
    RoundedIsValid(codec, normal);
  }

  /** So the round trip is the identity on normal forms exactly when every count survives being written. */
  lemma RoundTrip(codec: Codec, b: Bundle)
    requires Faithful(codec) && Counts(b, InRange) && Encoded(codec, b).Some?
    ensures Decoded(codec, Encoded(codec, b).value) == Some(Normalize(b)) <==> Exact(codec, b)
  {
    hide Normalize, Valid, Encoded, Decoded, Rounded, Faithful, Counts;
    DecodeAfterEncode(codec, b);
    NormalizeKeepsCounts(b, InRange);
    NormalizeKeepsCounts(b, n => codec.number(n) == n);
    RoundedIsSame(codec, Normalize(b));
  }

  lemma RoundedIsSame(codec: Codec, b: Bundle)
    ensures Rounded(codec, b) == b <==> Exact(codec, b)
  {
    hide Map;
    var b', round := Rounded(codec, b), RoundWith(codec.number);
    if Exact(codec, b) {
      forall i | 0 <= i < |b.proof.counts| ensures b'.proof.counts[i] == b.proof.counts[i] {
        assert b.proof.counts[i] in b.proof.counts;
      }
      forall i | 0 <= i < |b.evidence| ensures b'.evidence[i] == b.evidence[i] {
        assert b.evidence[i] in b.evidence;
      }
      assert b'.proof.counts == b.proof.counts && b'.evidence == b.evidence;
    }
    if b' == b {
      forall n | n in b.proof.counts ensures codec.number(n) == n {
        var i :| 0 <= i < |b.proof.counts| && b.proof.counts[i] == n;
        assert b'.proof.counts[i] == codec.number(n);
      }
      forall e | e in b.evidence ensures round(e) == e {
        var i :| 0 <= i < |b.evidence| && b.evidence[i] == e;
        assert b'.evidence[i] == round(e);
      }
    }
  }

  /** Counts up to 2^53 survive. */
  lemma SmallCountsAreExact(codec: Codec, b: Bundle)
    requires LawfulNumbers(codec.number) && Counts(b, n => -MAX_EXACT <= n <= MAX_EXACT)
    ensures Exact(codec, b)
  {
  }

  /** A bundle with one count and nothing else. */
  function WithCount(n: int): Bundle {
    Bundle(FORMAT_V1, "head", Proof("head", [], [n]), [], [], [], [], [], [])
  }

  /** Not every count does: 2^53 + 1 lies half way between two doubles and is written as the even one. */
  lemma LargeCountChanges(codec: Codec)
    requires Faithful(codec) && codec.number(MAX_EXACT + 1) == MAX_EXACT
    requires codec.encode(WithCount(MAX_EXACT + 1)).Some?
    ensures Encoded(codec, WithCount(MAX_EXACT + 1)).Some?
    ensures Decoded(codec, Encoded(codec, WithCount(MAX_EXACT + 1)).value) == Some(WithCount(MAX_EXACT))
  {
    hide Faithful, Valid, Encoded, Decoded;
    var b := WithCount(MAX_EXACT + 1);
    WithCountIsValid(codec, MAX_EXACT + 1);
    assert Normalize(b) == b;
    EncodeSucceedsIff(codec, b);
    DecodeAfterEncode(codec, b);
    assert Rounded(codec, b) == WithCount(MAX_EXACT);
  }

  lemma WithCountIsValid(codec: Codec, n: int)
    ensures Valid(codec, WithCount(n))
  {
    assert P.Importable([]);
  }

  /** Decode accepts nothing else: what it reads is normal, and is written back byte for byte. */
  lemma DecodeIsInverse(codec: Codec, raw: string, b: Bundle)
    requires Faithful(codec) && Decoded(codec, raw) == Some(b)
    ensures Encoded(codec, b) == Some(raw) && Normalize(b) == b
  {
    hide Normalize, Valid, Counts, Rounded, LawfulNumbers;
    var normal := Normalize(b);
    NormalizeKeepsCounts(b, InRange);
    NormalizeIsIdempotent(codec, b);
    NormalizeRounds(codec, normal);
  }

  // ------------------------------------------------------------ rearrangement

  /** One list is the other with its elements shuffled and each of them shuffled inside. */
  ghost predicate Rearranged<T(!new)>(xs: seq<T>, ys: seq<T>, alike: (T, T) -> bool) {
    exists zs: seq<T> :: multiset(zs) == multiset(ys) && |zs| == |xs| && forall i | 0 <= i < |xs| :: alike(xs[i], zs[i])
  }

  lemma {:induction false} MapConcat<T>(f: T -> T, a: seq<T>, b: seq<T>)
    ensures Map(f, a + b) == Map(f, a) + Map(f, b)
  {
    if a == [] {
      assert a + b == b;
    } else {
      assert (a + b)[1..] == a[1..] + b;
      MapConcat(f, a[1..], b);
    }
  }

  lemma {:induction false} MapPermutes<T(!new)>(f: T -> T, a: seq<T>, b: seq<T>)
    requires multiset(a) == multiset(b)
    ensures multiset(Map(f, a)) == multiset(Map(f, b))
    decreases |a|
  {
    assert |a| == |multiset(a)| == |multiset(b)| == |b|;
    if a != [] {
      assert a[0] in multiset(b);
      var k :| 0 <= k < |b| && b[k] == a[0];
      var rest := b[..k] + b[k + 1..];
      assert b == b[..k] + ([b[k]] + b[k + 1..]);
      assert a == [a[0]] + a[1..];
      assert multiset(rest) == multiset(b) - multiset{a[0]};
      assert multiset(a[1..]) == multiset(a) - multiset{a[0]};
      MapPermutes(f, a[1..], rest);
      MapConcat(f, b[..k], [b[k]] + b[k + 1..]);
      MapConcat(f, [b[k]], b[k + 1..]);
      MapConcat(f, b[..k], b[k + 1..]);
      MapConcat(f, [a[0]], a[1..]);
    }
  }

  lemma RearrangedMaps<T(!new)>(xs: seq<T>, ys: seq<T>, alike: (T, T) -> bool, norm: T -> T)
    requires Rearranged(xs, ys, alike) && forall x, y :: alike(x, y) ==> norm(x) == norm(y)
    ensures multiset(Map(norm, xs)) == multiset(Map(norm, ys))
  {
    var zs: seq<T> :| multiset(zs) == multiset(ys) && |zs| == |xs| && forall i | 0 <= i < |xs| :: alike(xs[i], zs[i]);
    assert Map(norm, xs) == Map(norm, zs);
    MapPermutes(norm, zs, ys);
  }

  predicate Shuffled(a: seq<string>, b: seq<string>) {
    multiset(a) == multiset(b)
  }

  predicate AlikeRecords(x: P.Record, y: P.Record) {
    && multiset(x.sourceVersions) == multiset(y.sourceVersions) && Shuffled(x.derivedFrom, y.derivedFrom)
    && y == x.(sourceVersions := y.sourceVersions, derivedFrom := y.derivedFrom)
  }

  predicate AlikeEdges(x: Edge, y: Edge) {
    Shuffled(x.evidence, y.evidence) && y == x.(evidence := y.evidence)
  }

  predicate AlikeConflicts(x: Conflict, y: Conflict) {
    Shuffled(x.records, y.records) && y == x.(records := y.records)
  }

  predicate AlikeCoverage(x: Option<Coverage>, y: Option<Coverage>) {
    match x
    case None => y == None
    case Some(a) => y.Some? && Shuffled(a.knownGaps, y.value.knownGaps) && y.value == a.(knownGaps := y.value.knownGaps)
  }

  predicate AlikeEnvelopes(x: Envelope, y: Envelope) {
    && Shuffled(x.sourceVersions, y.sourceVersions) && Shuffled(x.provenance, y.provenance)
    && Shuffled(x.conflicts, y.conflicts) && AlikeCoverage(x.coverage, y.coverage)
    && y == x.(sourceVersions := y.sourceVersions, provenance := y.provenance, conflicts := y.conflicts,
               coverage := y.coverage)
  }

  predicate Equal<T(==)>(x: T, y: T) {
    x == y
  }

  /** Two bundles that differ only in the order of lists, outer and inner. */
  ghost predicate SameContents(a: Bundle, b: Bundle) {
    && a.format == b.format && a.ledgerCommit == b.ledgerCommit && a.proof == b.proof
    && Rearranged(a.sources, b.sources, Equal<Source>)
    && Rearranged(a.provenance, b.provenance, AlikeRecords)
    && Rearranged(a.definitions, b.definitions, Equal<Definition>)
    && Rearranged(a.relationships, b.relationships, AlikeEdges)
    && Rearranged(a.conflicts, b.conflicts, AlikeConflicts)
    && Rearranged(a.evidence, b.evidence, AlikeEnvelopes)
  }

  lemma NormsForget()
    ensures forall x, y :: AlikeRecords(x, y) ==> NormRecord(x) == NormRecord(y)
    ensures forall x, y :: AlikeEdges(x, y) ==> NormEdge(x) == NormEdge(y)
    ensures forall x, y :: AlikeConflicts(x, y) ==> NormConflict(x) == NormConflict(y)
    ensures forall x, y :: AlikeEnvelopes(x, y) ==> NormEnvelope(x) == NormEnvelope(y)
  {
    hide SortStrings, SortVersions;
    forall x, y | AlikeRecords(x, y) ensures NormRecord(x) == NormRecord(y) {
      VersionsForget(x.sourceVersions, y.sourceVersions);
      StringsForget(x.derivedFrom, y.derivedFrom);
    }
    forall x, y | AlikeEdges(x, y) ensures NormEdge(x) == NormEdge(y) {
      StringsForget(x.evidence, y.evidence);
    }
    forall x, y | AlikeConflicts(x, y) ensures NormConflict(x) == NormConflict(y) {
      StringsForget(x.records, y.records);
    }
    forall x, y | AlikeEnvelopes(x, y) ensures NormEnvelope(x) == NormEnvelope(y) {
      StringsForget(x.sourceVersions, y.sourceVersions);
      StringsForget(x.provenance, y.provenance);
      StringsForget(x.conflicts, y.conflicts);
      if x.coverage.Some? {
        StringsForget(x.coverage.value.knownGaps, y.coverage.value.knownGaps);
      }
    }
  }

  /** Arranging a rearranged list gives a rearranged-proof result. */
  lemma ArrangeRearranged<T(!new)>(
    a: seq<T>, b: seq<T>, alike: (T, T) -> bool, norm: T -> T, key: T -> seq<string>)
    requires Rearranged(a, b, alike) && forall x, y :: alike(x, y) ==> norm(x) == norm(y)
    requires KeysApart(Arrange(a, norm, key), key) || KeysApart(Arrange(b, norm, key), key)
    ensures Arrange(a, norm, key) == Arrange(b, norm, key)
  {
    RearrangedMaps(a, b, alike, norm);
    if KeysApart(Arrange(a, norm, key), key) {
      ArrangeIgnoresOrder(a, b, norm, key);
    } else {
      ArrangeIgnoresOrder(b, a, norm, key);
    }
  }

  lemma SameContentsNormalize(codec: Codec, a: Bundle, b: Bundle)
    requires SameContents(a, b) && (AllKeysApart(Normalize(a)) || AllKeysApart(Normalize(b)))
    ensures Normalize(a) == Normalize(b)
  {
    hide Arrange, NormRecord, NormEdge, NormConflict, NormEnvelope, KeysApart, Rearranged, AlikeRecords, AlikeEdges,
      AlikeConflicts, AlikeEnvelopes;
    NormsForget();
    ArrangeRearranged(a.sources, b.sources, Equal<Source>, Same<Source>, SourceKey);
    ArrangeRearranged(a.provenance, b.provenance, AlikeRecords, NormRecord, RecordKey);
    ArrangeRearranged(a.definitions, b.definitions, Equal<Definition>, Same<Definition>, DefinitionKey);
    ArrangeRearranged(a.relationships, b.relationships, AlikeEdges, NormEdge, TripleKey);
    ArrangeRearranged(a.conflicts, b.conflicts, AlikeConflicts, NormConflict, ConflictKey);
    ArrangeRearranged(a.evidence, b.evidence, AlikeEnvelopes, NormEnvelope, EnvelopeKey);
  }

  /** Encode gives the same text, or the same refusal, whatever the order of the lists. */
  lemma EncodeIgnoresOrder(codec: Codec, a: Bundle, b: Bundle)
    requires SameContents(a, b)
    ensures Encoded(codec, a) == Encoded(codec, b)
  {
    hide Valid, Normalize, SameContents, AllKeysApart;
    if Valid(codec, Normalize(a)) {
      ValidKeysApart(codec, Normalize(a));
      SameContentsNormalize(codec, a, b);
    } else if Valid(codec, Normalize(b)) {
      ValidKeysApart(codec, Normalize(b));
      SameContentsNormalize(codec, a, b);
    }
  }

  // ----------------------------------------------------- validity is stable

  /** Arranging a list neither makes it registrable nor unmakes it. */
  lemma RegistrableArranged<T(!new)>(
    xs: seq<T>, norm: T -> T, key: T -> seq<string>, ok: T -> bool, ok': T -> bool, id: T -> string, id': T -> string)
    requires forall x :: ok'(norm(x)) == ok(x) && id'(norm(x)) == id(x)
    ensures Registrable(Arrange(xs, norm, key), ok', id') <==> Registrable(xs, ok, id)
  {
    var ys, zs := Map(norm, xs), Arrange(xs, norm, key);
    var idKey := (x: T) => [id'(x)];
    assert DistinctBy(ys, id') <==> DistinctBy(xs, id);
    assert (forall x | x in ys :: ok'(x)) <==> (forall x | x in xs :: ok(x)) by {
      assert forall i | 0 <= i < |xs| :: ok'(ys[i]) == ok(xs[i]);
    }
    DistinctByIsApart(ys, id');
    DistinctByIsApart(zs, id');
    if KeysApart(ys, idKey) {
      KeysApartPermuted(ys, zs, idKey);
    }
    if KeysApart(zs, idKey) {
      KeysApartPermuted(zs, ys, idKey);
    }
    SortHasSame(ys, ByKey(key));
  }

  lemma DistinctByIsApart<T(!new)>(xs: seq<T>, id: T -> string)
    ensures DistinctBy(xs, id) <==> KeysApart(xs, (x: T) => [id(x)])
  {
    forall i, j | 0 <= i < j < |xs| ensures id(xs[i]) != id(xs[j]) <==> [id(xs[i])] != [id(xs[j])] {
      assert [id(xs[i])][0] == id(xs[i]) && [id(xs[j])][0] == id(xs[j]);
    }
  }

  lemma NormsKeepChecks(codec: Codec, defs: seq<Definition>, defs': seq<Definition>)
    requires forall d :: d in defs' <==> d in defs
    ensures forall e :: EdgeOk(defs', NormEdge(e)) == EdgeOk(defs, e)
    ensures forall e :: EdgeKey(defs', NormEdge(e)) == EdgeKey(defs, e)
    ensures forall c :: ConflictOk(NormConflict(c)) == ConflictOk(c) && NormConflict(c).id == c.id
    ensures forall e :: EnvelopeOk(codec, NormEnvelope(e)) == EnvelopeOk(codec, e) && NormEnvelope(e).recordId == e.recordId
  {
    hide WindowOk, Classified;
    forall c: Conflict ensures ConflictOk(NormConflict(c)) == ConflictOk(c) {
      SortedHasSameRepeats(c.records);
    }
    forall e: Envelope ensures EnvelopeOk(codec, NormEnvelope(e)) == EnvelopeOk(codec, e) {
      if e.coverage.Some? {
        SortedHasSameRepeats(e.coverage.value.knownGaps);
      }
    }
  }

  lemma SortedHasSameRepeats(s: seq<string>)
    ensures |SortStrings(s)| == |s| && (forall x :: x in SortStrings(s) <==> x in s)
    ensures NoRepeats(SortStrings(s)) <==> NoRepeats(s)
  {
    SortHasSame(s, Leq);
    var id := (x: string) => x;
    assert NoRepeats(s) <==> DistinctBy(s, id);
    assert NoRepeats(SortStrings(s)) <==> DistinctBy(SortStrings(s), id);
    DistinctByIsApart(s, id);
    DistinctByIsApart(SortStrings(s), id);
    if NoRepeats(s) {
      KeysApartPermuted(s, SortStrings(s), (x: string) => [id(x)]);
    }
    if NoRepeats(SortStrings(s)) {
      KeysApartPermuted(SortStrings(s), s, (x: string) => [id(x)]);
    }
  }

  lemma {:induction false} StepsAlike(r: P.Records, r': P.Records, n: nat, a: string, b: string)
    requires forall id, q :: q in P.Parents(r', id) <==> q in P.Parents(r, id)
    ensures P.Steps(r', n, a, b) <==> P.Steps(r, n, a, b)
  {
    if n > 0 {
      forall q | q in P.Parents(r, a) ensures P.Steps(r', n - 1, q, b) <==> P.Steps(r, n - 1, q, b) {
        StepsAlike(r, r', n - 1, q, b);
      }
      if P.Steps(r, n, a, b) {
        var q :| q in P.Parents(r, a) && P.Steps(r, n - 1, q, b);
        assert q in P.Parents(r', a);
      }
      if P.Steps(r', n, a, b) {
        var q :| q in P.Parents(r', a) && P.Steps(r', n - 1, q, b);
        assert q in P.Parents(r, a);
      }
    }
  }

  lemma AcyclicAlike(r: P.Records, r': P.Records)
    requires forall id, q :: q in P.Parents(r', id) <==> q in P.Parents(r, id)
    ensures P.Acyclic(r') <==> P.Acyclic(r)
  {
    hide P.Steps, P.Parents;
    forall n: nat, a, b ensures P.Steps(r', n, a, b) <==> P.Steps(r, n, a, b) {
      StepsAlike(r, r', n, a, b);
    }
    forall a ensures P.Leads(r', a, a) <==> P.Leads(r, a, a) {
    }
  }

  lemma NormedParents(records: seq<P.Record>)
    requires P.DistinctIds(records) && P.DistinctIds(Map(NormRecord, records))
    ensures forall id, q :: q in P.Parents(P.MapOf(Map(NormRecord, records)), id) <==> q in P.Parents(P.MapOf(records), id)
  {
    hide P.DistinctIds, P.HasId, P.MapOf, SortStrings, SortVersions;
    var normed := Map(NormRecord, records);
    P.MapOfHas(records);
    P.MapOfHas(normed);
    NormedIds(records);
    forall id, q ensures q in P.Parents(P.MapOf(normed), id) <==> q in P.Parents(P.MapOf(records), id) {
      if id in P.MapOf(records) {
        var r := P.HasIdRecord(records, id);
        NormedMember(records, r);
        SortHasSame(r.derivedFrom, Leq);
        assert P.MapOf(normed)[id] == NormRecord(r);
        assert SortStrings(r.derivedFrom) == Sort(r.derivedFrom, Leq) by {
          SortStringsIs(r.derivedFrom);
        }
      }
    }
  }

  lemma SortStringsIs(s: seq<string>)
    ensures SortStrings(s) == Sort(s, Leq)
  {
  }

  lemma NormedMember(records: seq<P.Record>, r: P.Record)
    requires r in records
    ensures NormRecord(r) in Map(NormRecord, records)
  {
    var i :| 0 <= i < |records| && records[i] == r;
    assert Map(NormRecord, records)[i] == NormRecord(r);
  }

  lemma NormedIds(records: seq<P.Record>)
    ensures forall id :: P.HasId(Map(NormRecord, records), id) <==> P.HasId(records, id)
    ensures P.DistinctIds(Map(NormRecord, records)) <==> P.DistinctIds(records)
  {
    hide NormRecord;
    forall r: P.Record ensures NormRecord(r).id == r.id {
      NormKeepsId(r);
    }
    var normed := Map(NormRecord, records);
    forall id ensures P.HasId(normed, id) <==> P.HasId(records, id) {
      if P.HasId(records, id) {
        var r := P.HasIdRecord(records, id);
        NormedMember(records, r);
      }
      if P.HasId(normed, id) {
        var n := P.HasIdRecord(normed, id);
        var i :| 0 <= i < |normed| && normed[i] == n;
        assert records[i] in records;
      }
    }
  }

  lemma NormKeepsId(r: P.Record)
    ensures NormRecord(r).id == r.id
  {
  }

  lemma NormKeepsRecord(r: P.Record)
    ensures P.LocallyValid(NormRecord(r)) == P.LocallyValid(r)
    ensures forall p :: p in NormRecord(r).derivedFrom <==> p in r.derivedFrom
  {
    SortHasSame(r.derivedFrom, Leq);
    SortHasSame(r.sourceVersions, ByKey(VersionKey));
  }

  lemma ImportableNormed(records: seq<P.Record>)
    ensures P.Importable(Map(NormRecord, records)) <==> P.Importable(records)
  {
    hide P.Acyclic, P.LocallyValid, P.HasId, P.DistinctIds, P.MapOf, NormRecord;
    var normed := Map(NormRecord, records);
    NormedIds(records);
    forall r: P.Record
      ensures P.LocallyValid(NormRecord(r)) == P.LocallyValid(r)
      ensures forall p :: p in NormRecord(r).derivedFrom <==> p in r.derivedFrom
    {
      NormKeepsRecord(r);
    }
    forall i | 0 <= i < |records| ensures records[i] in records && normed[i] in normed && normed[i] == NormRecord(records[i]) {
    }
    if P.DistinctIds(records) {
      NormedParents(records);
      AcyclicAlike(P.MapOf(records), P.MapOf(normed));
    }
    assert P.Complete(normed) <==> P.Complete(records) by {
      CompleteNormed(records);
    }
  }

  lemma CompleteNormed(records: seq<P.Record>)
    ensures P.Complete(Map(NormRecord, records)) <==> P.Complete(records)
  {
    hide P.LocallyValid, P.HasId, P.DistinctIds, NormRecord;
    var normed := Map(NormRecord, records);
    NormedIds(records);
    if P.Complete(records) {
      forall n | n in normed ensures P.LocallyValid(n) && forall p | p in n.derivedFrom :: P.HasId(normed, p) {
        var i :| 0 <= i < |normed| && normed[i] == n;
        NormKeepsRecord(records[i]);
      }
    }
    if P.Complete(normed) {
      forall r | r in records ensures P.LocallyValid(r) && forall p | p in r.derivedFrom :: P.HasId(records, p) {
        NormedMember(records, r);
        NormKeepsRecord(r);
      }
    }
  }

  /** Normalising neither makes a bundle valid nor unmakes it. */
  lemma ValidIffNormalValid(codec: Codec, b: Bundle)
    ensures Valid(codec, Normalize(b)) <==> Valid(codec, b)
  {
    hide Registrable, Arrange, P.Importable, SourceOk, EdgeOk, EdgeKey, ConflictOk, EnvelopeOk, DefinitionOk, NormRecord,
      NormEdge, NormConflict, NormEnvelope;
    var n := Normalize(b);
    ArrangedDefinitions(b.definitions);
    NormsKeepChecks(codec, b.definitions, n.definitions);
    RegistrableArranged(b.sources, Same<Source>, SourceKey, s => SourceOk(codec, s), s => SourceOk(codec, s),
                        (s: Source) => s.id, (s: Source) => s.id);
    RegistrableArranged(b.definitions, Same<Definition>, DefinitionKey, DefinitionOk, DefinitionOk,
                        (d: Definition) => d.kind, (d: Definition) => d.kind);
    RegistrableArranged(b.relationships, NormEdge, TripleKey, e => EdgeOk(b.definitions, e), e => EdgeOk(n.definitions, e),
                        e => EdgeKey(b.definitions, e), e => EdgeKey(n.definitions, e));
    RegistrableArranged(b.conflicts, NormConflict, ConflictKey, ConflictOk, ConflictOk,
                        (c: Conflict) => c.id, (c: Conflict) => c.id);
    RegistrableArranged(b.evidence, NormEnvelope, EnvelopeKey, e => EnvelopeOk(codec, e), e => EnvelopeOk(codec, e),
                        (e: Envelope) => e.recordId, (e: Envelope) => e.recordId);
    ArrangedRecords(b.provenance);
  }

  lemma ArrangedDefinitions(defs: seq<Definition>)
    ensures forall d :: d in Arrange(defs, Same<Definition>, DefinitionKey) <==> d in defs
  {
    SortHasSame(Map(Same<Definition>, defs), ByKey(DefinitionKey));
    assert Map(Same<Definition>, defs) == defs;
  }

  lemma ArrangedRecords(records: seq<P.Record>)
    ensures P.Importable(Arrange(records, NormRecord, RecordKey)) <==> P.Importable(records)
  {
    hide P.Importable, NormRecord, RecordKey;
    ImportableNormed(records);
    var normed, arranged := Map(NormRecord, records), Arrange(records, NormRecord, RecordKey);
    if P.Importable(normed) {
      P.ImportIgnoresOrder(normed, arranged);
    }
    if P.Importable(arranged) {
      P.ImportIgnoresOrder(arranged, normed);
    }
  }

  /** Encode refuses exactly the invalid bundles and those JSON cannot write. */
  lemma EncodeSucceedsIff(codec: Codec, b: Bundle)
    ensures Encoded(codec, b).Some? <==> Valid(codec, b) && codec.encode(Normalize(b)).Some?
  {
    hide Valid, Normalize;
    ValidIffNormalValid(codec, b);
  }
}
