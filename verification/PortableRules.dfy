/** What a portable bundle is, field by field, and that nothing else is written or read. */
module PortableRules {
  import opened Wrappers
  import opened Text
  import opened Portable
  import opened Sorting
  import P = Provenance

  predicate Graded(classification: string) {
    classification == "public" || classification == "internal" || classification == "confidential" || classification == "restricted"
  }

  predicate SourceRules(codec: Codec, s: Source) {
    && s.id != "" && s.kind != "" && s.authorityClass != "" && Graded(s.classification) && codec.preservationOk(s.preservation)
    && forall id | id in s.versions :: id != "" && s.versions[id].id == id
  }

  predicate RecordRules(records: seq<P.Record>, i: nat)
    requires i < |records|
  {
    var r := records[i];
    && r.id != "" && (|r.derivedFrom| > 0 ==> r.producerId != "" && r.transformationId != "")
    && (forall k | 0 <= k < |r.sourceVersions| :: r.sourceVersions[k].sourceId != "" && r.sourceVersions[k].versionId != "")
    && (forall k | 0 <= k < |r.derivedFrom| :: exists j :: 0 <= j < |records| && records[j].id == r.derivedFrom[k])
  }

  predicate DefinedKind(defs: seq<Definition>, kind: string) {
    exists d :: 0 <= d < |defs| && defs[d].kind == kind
  }

  predicate Undirected(defs: seq<Definition>, kind: string) {
    exists d :: 0 <= d < |defs| && defs[d].kind == kind && defs[d].symmetric
  }

  /** An edge's name: its ends around its kind, the lesser first where it has no direction. */
  function NameOf(defs: seq<Definition>, e: Edge): string {
    if Undirected(defs, e.kind) && Leq(e.to, e.from) then e.to + "\0" + e.kind + "\0" + e.from
    else e.from + "\0" + e.kind + "\0" + e.to
  }

  predicate EdgeRules(defs: seq<Definition>, e: Edge) {
    DefinedKind(defs, e.kind) && e.from != "" && e.to != "" && e.from != e.to
  }

  predicate ConflictRules(c: Conflict) {
    && c.id != "" && |c.records| >= 2
    && (forall k | 0 <= k < |c.records| :: c.records[k] != "")
    && (forall k, l | 0 <= k < l < |c.records| :: c.records[k] != c.records[l])
    && (if c.resolutionEventId == "" then c.state == "open" else c.state == "resolved")
  }

  predicate CoverageRules(r: Coverage) {
    && r.expected >= 0 && r.available >= 0 && 0 <= r.checked <= r.available
    && (r.complete ==> r.expected > 0 && r.available == r.expected && r.checked == r.expected && |r.knownGaps| == 0)
  }

  /** Observed before accepted; an effective interval, where both ends are given and not the zero time, is one. */
  predicate WindowRules(codec: Codec, w: Window) {
    && codec.instant(w.observedAt).Some? && codec.instant(w.acceptedAt).Some?
    && codec.instant(w.observedAt).value <= codec.instant(w.acceptedAt).value
    && (w.effectiveFrom != "" ==> codec.instant(w.effectiveFrom).Some?)
    && (w.effectiveUntil != "" ==> codec.instant(w.effectiveUntil).Some?)
    && (w.effectiveFrom != "" && w.effectiveUntil != "" ==>
          var from, until := codec.instant(w.effectiveFrom).value, codec.instant(w.effectiveUntil).value;
          from == 0 || until == 0 || from <= until)
  }

  predicate EnvelopeRules(codec: Codec, e: Envelope) {
    && e.recordId != "" && e.recordType != "" && e.authorityClass != "" && Graded(e.classification)
    && (e.coverage.Some? ==> CoverageRules(e.coverage.value)) && (e.temporal.Some? ==> WindowRules(codec, e.temporal.value))
  }

  ghost predicate BundleRules(codec: Codec, b: Bundle) {
    && b.format == "urn:threadkeeper:portable-core:v1" && b.ledgerCommit != "" && b.proof.ledgerCommit == b.ledgerCommit
    && (forall i | 0 <= i < |b.sources| :: SourceRules(codec, b.sources[i]))
    && (forall i, j | 0 <= i < j < |b.sources| :: b.sources[i].id != b.sources[j].id)
    && (forall i | 0 <= i < |b.provenance| :: RecordRules(b.provenance, i))
    && (forall i, j | 0 <= i < j < |b.provenance| :: b.provenance[i].id != b.provenance[j].id)
    && P.Acyclic(P.MapOf(b.provenance))
    && (forall i | 0 <= i < |b.definitions| :: b.definitions[i].kind != "")
    && (forall i, j | 0 <= i < j < |b.definitions| :: b.definitions[i].kind != b.definitions[j].kind)
    && (forall i | 0 <= i < |b.relationships| :: EdgeRules(b.definitions, b.relationships[i]))
    && (forall i, j | 0 <= i < j < |b.relationships| ::
          NameOf(b.definitions, b.relationships[i]) != NameOf(b.definitions, b.relationships[j]))
    && (forall i | 0 <= i < |b.conflicts| :: ConflictRules(b.conflicts[i]))
    && (forall i, j | 0 <= i < j < |b.conflicts| :: b.conflicts[i].id != b.conflicts[j].id)
    && (forall i | 0 <= i < |b.evidence| :: EnvelopeRules(codec, b.evidence[i]))
    && (forall i, j | 0 <= i < j < |b.evidence| :: b.evidence[i].recordId != b.evidence[j].recordId)
  }

  // ------------------------------------------------------------ the registries

  lemma RegistrableIff<T>(xs: seq<T>, ok: T -> bool, key: T -> string)
    ensures Registrable(xs, ok, key) <==>
            (forall i | 0 <= i < |xs| :: ok(xs[i])) && forall i, j | 0 <= i < j < |xs| :: key(xs[i]) != key(xs[j])
  {
    assert forall i | 0 <= i < |xs| :: xs[i] in xs;
  }

  lemma SourceIff(codec: Codec, s: Source)
    ensures SourceOk(codec, s) <==> SourceRules(codec, s)
  {
    ClassifiedIff(s.classification);
  }

  lemma ClassifiedIff(c: string)
    ensures Classified(c) <==> Graded(c)
  {
    var all := ["public", "internal", "confidential", "restricted"];
    assert all[0] == "public" && all[1] == "internal" && all[2] == "confidential" && all[3] == "restricted";
  }

  lemma EdgeIff(defs: seq<Definition>, e: Edge)
    ensures EdgeOk(defs, e) <==> EdgeRules(defs, e)
    ensures EdgeKey(defs, e) == NameOf(defs, e)
  {
    assert forall d | 0 <= d < |defs| :: defs[d] in defs;
  }

  lemma ConflictIff(c: Conflict)
    ensures ConflictOk(c) <==> ConflictRules(c)
  {
    assert forall k | 0 <= k < |c.records| :: c.records[k] in c.records;
    assert "open"[0] != "resolved"[0];
  }

  lemma EnvelopeIff(codec: Codec, e: Envelope)
    ensures EnvelopeOk(codec, e) <==> EnvelopeRules(codec, e)
  {
    ClassifiedIff(e.classification);
  }

  lemma ImportableIff(records: seq<P.Record>)
    ensures P.Importable(records) <==>
            && (forall i | 0 <= i < |records| :: RecordRules(records, i))
            && (forall i, j | 0 <= i < j < |records| :: records[i].id != records[j].id)
            && P.Acyclic(P.MapOf(records))
  {
    hide P.Acyclic, P.MapOf;
    assert forall i | 0 <= i < |records| :: records[i] in records;
    forall i | 0 <= i < |records|
      ensures RecordRules(records, i) <==>
              P.LocallyValid(records[i]) && forall p | p in records[i].derivedFrom :: P.HasId(records, p)
    {
      RecordIff(records, i);
    }
  }

  lemma RecordIff(records: seq<P.Record>, i: nat)
    requires i < |records|
    ensures RecordRules(records, i) <==>
            P.LocallyValid(records[i]) && forall p | p in records[i].derivedFrom :: P.HasId(records, p)
  {
    var r := records[i];
    assert forall k | 0 <= k < |r.sourceVersions| :: r.sourceVersions[k] in r.sourceVersions;
    assert forall k | 0 <= k < |r.derivedFrom| :: r.derivedFrom[k] in r.derivedFrom;
    forall p ensures P.HasId(records, p) <==> exists j :: 0 <= j < |records| && records[j].id == p {
      assert forall j | 0 <= j < |records| :: records[j] in records;
    }
  }

  /** The registries accept exactly the bundles that keep the rules. */
  lemma ValidIff(codec: Codec, b: Bundle)
    ensures Valid(codec, b) <==> BundleRules(codec, b)
  {
    hide Registrable, SourceOk, SourceRules, EdgeOk, EdgeRules, EdgeKey, NameOf, ConflictOk, ConflictRules, EnvelopeOk,
      EnvelopeRules, P.Importable, P.Acyclic, P.MapOf, RecordRules;
    SourcesIff(codec, b.sources);
    ImportableIff(b.provenance);
    RegistrableIff(b.definitions, DefinitionOk, (d: Definition) => d.kind);
    EdgesIff(b.definitions, b.relationships);
    ConflictsIff(b.conflicts);
    EvidenceIff(codec, b.evidence);
  }

  lemma SourcesIff(codec: Codec, xs: seq<Source>)
    ensures Registrable(xs, s => SourceOk(codec, s), (s: Source) => s.id) <==>
            (forall i | 0 <= i < |xs| :: SourceRules(codec, xs[i])) && forall i, j | 0 <= i < j < |xs| :: xs[i].id != xs[j].id
  {
    hide Registrable, SourceOk, SourceRules;
    RegistrableIff(xs, s => SourceOk(codec, s), (s: Source) => s.id);
    forall s ensures SourceOk(codec, s) <==> SourceRules(codec, s) {
      SourceIff(codec, s);
    }
  }

  lemma EdgesIff(defs: seq<Definition>, xs: seq<Edge>)
    ensures Registrable(xs, e => EdgeOk(defs, e), e => EdgeKey(defs, e)) <==>
            && (forall i | 0 <= i < |xs| :: EdgeRules(defs, xs[i]))
            && forall i, j | 0 <= i < j < |xs| :: NameOf(defs, xs[i]) != NameOf(defs, xs[j])
  {
    hide Registrable, EdgeOk, EdgeRules, EdgeKey, NameOf;
    RegistrableIff(xs, e => EdgeOk(defs, e), e => EdgeKey(defs, e));
    forall e ensures (EdgeOk(defs, e) <==> EdgeRules(defs, e)) && EdgeKey(defs, e) == NameOf(defs, e) {
      EdgeIff(defs, e);
    }
  }

  lemma ConflictsIff(xs: seq<Conflict>)
    ensures Registrable(xs, ConflictOk, (c: Conflict) => c.id) <==>
            (forall i | 0 <= i < |xs| :: ConflictRules(xs[i])) && forall i, j | 0 <= i < j < |xs| :: xs[i].id != xs[j].id
  {
    hide Registrable, ConflictOk, ConflictRules;
    RegistrableIff(xs, ConflictOk, (c: Conflict) => c.id);
    forall c ensures ConflictOk(c) <==> ConflictRules(c) {
      ConflictIff(c);
    }
  }

  lemma EvidenceIff(codec: Codec, xs: seq<Envelope>)
    ensures Registrable(xs, e => EnvelopeOk(codec, e), (e: Envelope) => e.recordId) <==>
            && (forall i | 0 <= i < |xs| :: EnvelopeRules(codec, xs[i]))
            && forall i, j | 0 <= i < j < |xs| :: xs[i].recordId != xs[j].recordId
  {
    hide Registrable, EnvelopeOk, EnvelopeRules;
    RegistrableIff(xs, e => EnvelopeOk(codec, e), (e: Envelope) => e.recordId);
    forall e ensures EnvelopeOk(codec, e) <==> EnvelopeRules(codec, e) {
      EnvelopeIff(codec, e);
    }
  }

  // ----------------------------------------------------------------- theorems

  /** Encode writes exactly the bundles that keep the rules, where JSON can. */
  lemma EncodedIff(codec: Codec, b: Bundle)
    ensures Encoded(codec, b).Some? <==> BundleRules(codec, b) && codec.encode(Normalize(b)).Some?
  {
    hide Valid, Normalize, BundleRules;
    EncodeSucceedsIff(codec, b);
    ValidIff(codec, b);
  }

  /** What Decode returns keeps the rules, and its text is the canonical one of a bundle that does. */
  lemma DecodedIff(codec: Codec, raw: string, b: Bundle)
    ensures Decoded(codec, raw) == Some(b) <==>
            && codec.strictValid(raw) && codec.canon(raw) == Some(raw) && codec.decode(raw) == Some(b)
            && BundleRules(codec, b) && codec.encode(Normalize(b)) == Some(raw)
  {
    hide Valid, Normalize, BundleRules;
    EncodeSucceedsIff(codec, b);
    ValidIff(codec, b);
  }

  /** Names without a NUL tell edges apart: equal names mean the same ends and kind, in either direction if it has none. */
  lemma EdgeNamesAreUnambiguous(defs: seq<Definition>, a: Edge, b: Edge)
    requires forall s | s in [a.from, a.kind, a.to, b.from, b.kind, b.to] :: '\0' !in s
    ensures NameOf(defs, a) == NameOf(defs, b) <==>
            && a.kind == b.kind
            && ((a.from == b.from && a.to == b.to) || (Undirected(defs, a.kind) && a.from == b.to && a.to == b.from))
  {
    hide Undirected, Leq;
    NulFree(a, b);
    LeqTotal(a.to, a.from);
    LeqTotal(b.to, b.from);
    var la, lb := Undirected(defs, a.kind) && Leq(a.to, a.from), Undirected(defs, b.kind) && Leq(b.to, b.from);
    JoinedAre(if la then a.to else a.from, a.kind, if la then a.from else a.to,
              if lb then b.to else b.from, b.kind, if lb then b.from else b.to);
    if Leq(a.to, a.from) && Leq(a.from, a.to) {
      LeqAntisymmetric(a.to, a.from);
    }
  }

  lemma NulFree(a: Edge, b: Edge)
    requires forall s | s in [a.from, a.kind, a.to, b.from, b.kind, b.to] :: '\0' !in s
    ensures '\0' !in a.from && '\0' !in a.kind && '\0' !in a.to && '\0' !in b.from && '\0' !in b.kind && '\0' !in b.to
  {
    var all := [a.from, a.kind, a.to, b.from, b.kind, b.to];
    assert all[0] == a.from && all[1] == a.kind && all[2] == a.to && all[3] == b.from && all[4] == b.kind && all[5] == b.to;
  }

  lemma JoinedAre(a: string, k: string, b: string, a': string, k': string, b': string)
    requires '\0' !in a && '\0' !in k && '\0' !in a' && '\0' !in k'
    ensures a + "\0" + k + "\0" + b == a' + "\0" + k' + "\0" + b' <==> a == a' && k == k' && b == b'
  {
    assert a + "\0" + k + "\0" + b == a + "\0" + (k + "\0" + b);
    assert a' + "\0" + k' + "\0" + b' == a' + "\0" + (k' + "\0" + b');
    CutAt(a, k + "\0" + b, a', k' + "\0" + b');
    CutAt(k, b, k', b');
  }

  lemma CutAt(a: string, x: string, b: string, y: string)
    requires '\0' !in a && '\0' !in b
    ensures a + "\0" + x == b + "\0" + y <==> a == b && x == y
  {
    var s, t := a + "\0" + x, b + "\0" + y;
    if s == t {
      assert s[|a|] == '\0' && t[|b|] == '\0';
      assert forall i | 0 <= i < |a| :: s[i] == a[i] && a[i] in a;
      assert forall i | 0 <= i < |b| :: t[i] == b[i] && b[i] in b;
      assert a == s[..|a|] && b == t[..|b|] && x == s[|a| + 1..] && y == t[|b| + 1..];
    }
  }

  // ------------------------------------------------------------ the normal form

  predicate Ascending(s: seq<string>) {
    forall i, j | 0 <= i < j < |s| :: Leq(s[i], s[j])
  }

  /** The same strings, each as often, in order. */
  predicate Ordered(from: seq<string>, to: seq<string>) {
    multiset(from) == multiset(to) && Ascending(to)
  }

  predicate VersionBefore(a: P.SourceVersion, b: P.SourceVersion) {
    if a.sourceId == b.sourceId then Leq(a.versionId, b.versionId) else Leq(a.sourceId, b.sourceId)
  }

  predicate EdgeBefore(a: Edge, b: Edge) {
    if a.kind != b.kind then Leq(a.kind, b.kind) else if a.from != b.from then Leq(a.from, b.from) else Leq(a.to, b.to)
  }

  predicate RecordTidied(r: P.Record, t: P.Record) {
    && t.id == r.id && t.producerId == r.producerId && t.transformationId == r.transformationId
    && Ordered(r.derivedFrom, t.derivedFrom) && multiset(r.sourceVersions) == multiset(t.sourceVersions)
    && forall i, j | 0 <= i < j < |t.sourceVersions| :: VersionBefore(t.sourceVersions[i], t.sourceVersions[j])
  }

  predicate EdgeTidied(e: Edge, t: Edge) {
    t.from == e.from && t.kind == e.kind && t.to == e.to && Ordered(e.evidence, t.evidence)
  }

  predicate ConflictTidied(c: Conflict, t: Conflict) {
    && t.id == c.id && t.material == c.material && t.state == c.state && t.resolutionEventId == c.resolutionEventId
    && Ordered(c.records, t.records)
  }

  predicate CoverageTidied(c: Coverage, t: Coverage) {
    && t.expected == c.expected && t.available == c.available && t.checked == c.checked && t.complete == c.complete
    && t.lastIngestion == c.lastIngestion && Ordered(c.knownGaps, t.knownGaps)
  }

  predicate EnvelopeTidied(e: Envelope, t: Envelope) {
    && t.recordId == e.recordId && t.recordType == e.recordType && t.authorityClass == e.authorityClass
    && t.sourceId == e.sourceId && t.superseded == e.superseded && t.projectionVersion == e.projectionVersion
    && t.score == e.score && t.temporal == e.temporal && t.classification == e.classification
    && Ordered(e.sourceVersions, t.sourceVersions) && Ordered(e.provenance, t.provenance) && Ordered(e.conflicts, t.conflicts)
    && t.coverage.Some? == e.coverage.Some?
    && (e.coverage.Some? ==> CoverageTidied(e.coverage.value, t.coverage.value))
  }

  /** Two lists correspond: as long, and each element has its counterpart. */
  predicate Correspond<T(==)>(xs: seq<T>, ys: seq<T>, alike: (T, T) -> bool) {
    && |xs| == |ys|
    && (forall x | x in xs :: exists y :: y in ys && alike(x, y))
    && (forall y | y in ys :: exists x :: x in xs && alike(x, y))
  }

  lemma {:induction false} MapHas<T(!new)>(xs: seq<T>, norm: T -> T, y: T)
    ensures y in Map(norm, xs) <==> exists x :: x in xs && norm(x) == y
  {
    if xs != [] {
      MapHas(xs[1..], norm, y);
    }
  }

  lemma ArrangeIs<T(!new)>(xs: seq<T>, norm: T -> T, key: T -> seq<string>, alike: (T, T) -> bool)
    requires forall x :: alike(x, norm(x))
    ensures Correspond(xs, Arrange(xs, norm, key), alike) && Sorted(Arrange(xs, norm, key), ByKey(key))
  {
    var ys, le := Arrange(xs, norm, key), ByKey(key);
    ByKeyIsTotal(key);
    SortSorts(Map(norm, xs), le);
    SortHasSame(Map(norm, xs), le);
    forall x | x in xs ensures exists y :: y in ys && alike(x, y) {
      MapHas(xs, norm, norm(x));
      assert norm(x) in ys && alike(x, norm(x));
    }
    forall y | y in ys ensures exists x :: x in xs && alike(x, y) {
      MapHas(xs, norm, y);
    }
  }

  lemma {:induction false} MapSame<T>(xs: seq<T>)
    ensures Map(Same, xs) == xs
  {
    if xs != [] {
      MapSame(xs[1..]);
    }
  }

  lemma OneKeyIs(a: string, b: string)
    ensures KeyLeq([a], [b]) <==> Leq(a, b)
  {
    LeqTotal(a, b);
    assert KeyLeq([a][1..], [b][1..]);
  }

  lemma StringsOrdered(s: seq<string>)
    ensures Ordered(s, SortStrings(s))
  {
    LeqIsTotal();
    SortSorts(s, Leq);
  }

  lemma VersionKeyIs(a: P.SourceVersion, b: P.SourceVersion)
    ensures KeyLeq(VersionKey(a), VersionKey(b)) <==> VersionBefore(a, b)
  {
    assert VersionKey(a)[1..] == [a.versionId] && VersionKey(b)[1..] == [b.versionId];
    OneKeyIs(a.versionId, b.versionId);
  }

  lemma EdgeTripleIs(a: Edge, b: Edge)
    ensures KeyLeq(TripleKey(a), TripleKey(b)) <==> EdgeBefore(a, b)
  {
    assert TripleKey(a)[1..] == [a.from, a.to] && TripleKey(b)[1..] == [b.from, b.to];
    assert [a.from, a.to][1..] == [a.to] && [b.from, b.to][1..] == [b.to];
    OneKeyIs(a.to, b.to);
  }

  lemma RecordIsTidied(r: P.Record)
    ensures RecordTidied(r, NormRecord(r))
  {
    hide KeyLeq, VersionBefore;
    StringsOrdered(r.derivedFrom);
    ByKeyIsTotal(VersionKey);
    SortSorts(r.sourceVersions, ByKey(VersionKey));
    forall a, b ensures KeyLeq(VersionKey(a), VersionKey(b)) <==> VersionBefore(a, b) {
      VersionKeyIs(a, b);
    }
  }

  lemma EnvelopeIsTidied(e: Envelope)
    ensures EnvelopeTidied(e, NormEnvelope(e))
  {
    hide Ordered;
    StringsOrdered(e.sourceVersions);
    StringsOrdered(e.provenance);
    StringsOrdered(e.conflicts);
    if e.coverage.Some? {
      StringsOrdered(e.coverage.value.knownGaps);
    }
  }

  /** Nothing but order changes, and every list that is a set comes out in order. */
  lemma NormalizeTidies(b: Bundle)
    ensures var n := Normalize(b);
            && n.format == b.format && n.ledgerCommit == b.ledgerCommit && n.proof == b.proof
            && multiset(n.sources) == multiset(b.sources) && multiset(n.definitions) == multiset(b.definitions)
            && Correspond(b.provenance, n.provenance, RecordTidied)
            && Correspond(b.relationships, n.relationships, EdgeTidied)
            && Correspond(b.conflicts, n.conflicts, ConflictTidied)
            && Correspond(b.evidence, n.evidence, EnvelopeTidied)
  {
    hide RecordTidied, EdgeTidied, ConflictTidied, EnvelopeTidied, Correspond;
    MapSame(b.sources);
    MapSame(b.definitions);
    NormsTidy();
    ArrangeIs(b.provenance, NormRecord, RecordKey, RecordTidied);
    ArrangeIs(b.relationships, NormEdge, TripleKey, EdgeTidied);
    ArrangeIs(b.conflicts, NormConflict, ConflictKey, ConflictTidied);
    ArrangeIs(b.evidence, NormEnvelope, EnvelopeKey, EnvelopeTidied);
  }

  lemma NormsTidy()
    ensures forall r :: RecordTidied(r, NormRecord(r))
    ensures forall e :: EdgeTidied(e, NormEdge(e))
    ensures forall c :: ConflictTidied(c, NormConflict(c))
    ensures forall e :: EnvelopeTidied(e, NormEnvelope(e))
  {
    hide RecordTidied, EnvelopeTidied, Ordered;
    forall r ensures RecordTidied(r, NormRecord(r)) {
      RecordIsTidied(r);
    }
    forall e ensures EdgeTidied(e, NormEdge(e)) {
      StringsOrdered(e.evidence);
    }
    forall c ensures ConflictTidied(c, NormConflict(c)) {
      StringsOrdered(c.records);
    }
    forall e ensures EnvelopeTidied(e, NormEnvelope(e)) {
      EnvelopeIsTidied(e);
    }
  }

  lemma NormalizeOrders(b: Bundle, i: nat, j: nat)
    requires i < j
    ensures var n := Normalize(b);
            && (j < |n.sources| ==> Leq(n.sources[i].id, n.sources[j].id))
            && (j < |n.provenance| ==> Leq(n.provenance[i].id, n.provenance[j].id))
            && (j < |n.definitions| ==> Leq(n.definitions[i].kind, n.definitions[j].kind))
            && (j < |n.relationships| ==> EdgeBefore(n.relationships[i], n.relationships[j]))
            && (j < |n.conflicts| ==> Leq(n.conflicts[i].id, n.conflicts[j].id))
            && (j < |n.evidence| ==> Leq(n.evidence[i].recordId, n.evidence[j].recordId))
  {
    hide EdgeBefore, KeyLeq;
    forall a, c ensures KeyLeq([a], [c]) <==> Leq(a, c) {
      OneKeyIs(a, c);
    }
    forall a, c ensures KeyLeq(TripleKey(a), TripleKey(c)) <==> EdgeBefore(a, c) {
      EdgeTripleIs(a, c);
    }
    ArrangedInOrder(b.sources, Same<Source>, SourceKey);
    ArrangedInOrder(b.provenance, NormRecord, RecordKey);
    ArrangedInOrder(b.definitions, Same<Definition>, DefinitionKey);
    ArrangedInOrder(b.relationships, NormEdge, TripleKey);
    ArrangedInOrder(b.conflicts, NormConflict, ConflictKey);
    ArrangedInOrder(b.evidence, NormEnvelope, EnvelopeKey);
  }

  lemma ArrangedInOrder<T(!new)>(xs: seq<T>, norm: T -> T, key: T -> seq<string>)
    ensures var ys := Arrange(xs, norm, key);
            forall i, j | 0 <= i < j < |ys| :: KeyLeq(key(ys[i]), key(ys[j]))
  {
    ByKeyIsTotal(key);
    SortSorts(Map(norm, xs), ByKey(key));
  }
}
