/** The audit log's hash chain: canonical rows, row hashes, chains and what verification accepts.

`digest` stands for SHA-256 in hexadecimal. What is assumed of it is stated where it is needed: that it
never collides, never yields the genesis hash, and never yields the empty text.
*/
module AuditChainSpec {
  import opened Wrappers
  import opened Json

  type Digest = string -> string

  const GENESIS := "0000000000000000000000000000000000000000000000000000000000000000"

  datatype AuditRow = AuditRow(
    id: string, actorUserId: string, organizationId: Option<string>, action: string,
    targetType: string, targetId: string, metadata: Json, createdAt: string,
    prevHash: Option<string>, rowHash: Option<string>)

  // --- hashing a row ---

  function OptionalText(text: Option<string>): Json {
    if text.Some? then Str(text.value) else Null
  }

  function RowObject(row: AuditRow): Json {
    Obj(Field("id", Str(row.id),
        Field("actor_user_id", Str(row.actorUserId),
        Field("organization_id", OptionalText(row.organizationId),
        Field("action", Str(row.action),
        Field("target_type", Str(row.targetType),
        Field("target_id", Str(row.targetId),
        Field("metadata", row.metadata,
        Field("created_at", Str(row.createdAt), NoFields)))))))))
  }

  function Canonical(row: AuditRow): string {
    StableStringify(RowObject(row))
  }

  function LinkObject(prevHash: Option<string>, row: AuditRow): Json {
    Obj(Field("prev_hash", Str(if prevHash.Some? then prevHash.value else GENESIS),
        Field("canonical_row", Str(Canonical(row)), NoFields)))
  }

  function HashRow(digest: Digest, prevHash: Option<string>, row: AuditRow): string {
    digest(StableStringify(LinkObject(prevHash, row)))
  }

  /** The same entry: every field equal, the metadata up to the order of keys at any depth. */
  predicate SameContent(a: AuditRow, b: AuditRow) {
    && a.id == b.id && a.actorUserId == b.actorUserId && a.organizationId == b.organizationId
    && a.action == b.action && a.targetType == b.targetType && a.targetId == b.targetId
    && a.createdAt == b.createdAt && Equivalent(a.metadata, b.metadata)
  }

  /** The column names have different lengths, so no two of them are the same key. */
  function KeyLengths(f: Fields): set<nat> {
    if f.NoFields? then {} else {|f.key|} + KeyLengths(f.rest)
  }

  lemma {:induction false} AbsentByLength(f: Fields, key: string)
    requires |key| !in KeyLengths(f)
    ensures !HasKey(f, key)
    decreases f
  {
    if f.Field? {
      AbsentByLength(f.rest, key);
    }
  }

  /** One more key in front, the same in both objects. */
  lemma {:induction false} SameKeyInFront(k: string, v: Json, f: Fields, w: Json, g: Fields)
    requires WellFormedFields(f) && WellFormed(v) && |k| !in KeyLengths(f)
    ensures WellFormedFields(Field(k, v, f)) && KeyLengths(Field(k, v, f)) == {|k|} + KeyLengths(f)
    ensures EquivalentFields(Field(k, v, f), Field(k, w, g)) <==> Equivalent(v, w) && EquivalentFields(f, g)
  {
    AbsentByLength(f, k);
    assert HasKey(Field(k, w, g), k) && Lookup(Field(k, w, g), k) == w && Remove(Field(k, w, g), k) == g;
  }

  lemma {:induction false} RowObjectFacts(a: AuditRow, b: AuditRow)
    requires WellFormed(a.metadata) && WellFormed(b.metadata)
    ensures WellFormed(RowObject(a))
    ensures Equivalent(RowObject(a), RowObject(b)) <==> SameContent(a, b)
  {
    var f7 := Field("created_at", Str(a.createdAt), NoFields);
    var f6 := Field("metadata", a.metadata, f7);
    var f5 := Field("target_id", Str(a.targetId), f6);
    var f4 := Field("target_type", Str(a.targetType), f5);
    var f3 := Field("action", Str(a.action), f4);
    var f2 := Field("organization_id", OptionalText(a.organizationId), f3);
    var f1 := Field("actor_user_id", Str(a.actorUserId), f2);
    var g7 := Field("created_at", Str(b.createdAt), NoFields);
    var g6 := Field("metadata", b.metadata, g7);
    var g5 := Field("target_id", Str(b.targetId), g6);
    var g4 := Field("target_type", Str(b.targetType), g5);
    var g3 := Field("action", Str(b.action), g4);
    var g2 := Field("organization_id", OptionalText(b.organizationId), g3);
    var g1 := Field("actor_user_id", Str(b.actorUserId), g2);
    SameKeyInFront("created_at", Str(a.createdAt), NoFields, Str(b.createdAt), NoFields);
    SameKeyInFront("metadata", a.metadata, f7, b.metadata, g7);
    SameKeyInFront("target_id", Str(a.targetId), f6, Str(b.targetId), g6);
    SameKeyInFront("target_type", Str(a.targetType), f5, Str(b.targetType), g5);
    SameKeyInFront("action", Str(a.action), f4, Str(b.action), g4);
    SameKeyInFront("organization_id", OptionalText(a.organizationId), f3, OptionalText(b.organizationId), g3);
    SameKeyInFront("actor_user_id", Str(a.actorUserId), f2, Str(b.actorUserId), g2);
    SameKeyInFront("id", Str(a.id), f1, Str(b.id), g1);
  }

  /** The canonical text of a row changes with every field of its content and with nothing else. */
  lemma {:induction false} CanonicalIffSameContent(a: AuditRow, b: AuditRow)
    requires WellFormed(a.metadata) && WellFormed(b.metadata)
    ensures Canonical(a) == Canonical(b) <==> SameContent(a, b)
  {
    RowObjectFacts(a, b);
    RowObjectFacts(b, b);
    StableStringifyIffEquivalent(RowObject(a), RowObject(b));
  }

  lemma {:induction false} LinkTextUnique(p: Option<string>, a: AuditRow, q: Option<string>, b: AuditRow)
    ensures StableStringify(LinkObject(p, a)) == StableStringify(LinkObject(q, b))
       <==> (if p.Some? then p.value else GENESIS) == (if q.Some? then q.value else GENESIS) && Canonical(a) == Canonical(b)
  {
    var f := Field("canonical_row", Str(Canonical(a)), NoFields);
    var g := Field("canonical_row", Str(Canonical(b)), NoFields);
    var before := Str(if p.Some? then p.value else GENESIS);
    var before' := Str(if q.Some? then q.value else GENESIS);
    SameKeyInFront("canonical_row", Str(Canonical(a)), NoFields, Str(Canonical(b)), NoFields);
    SameKeyInFront("canonical_row", Str(Canonical(b)), NoFields, Str(Canonical(a)), NoFields);
    SameKeyInFront("prev_hash", before, f, before', g);
    SameKeyInFront("prev_hash", before', g, before, f);
    StableStringifyIffEquivalent(LinkObject(p, a), LinkObject(q, b));
  }

  // --- the chain ---

  ghost predicate CollisionFree(digest: Digest) {
    forall s, t :: digest(s) == digest(t) ==> s == t
  }

  ghost predicate NeverGenesis(digest: Digest) {
    forall s :: digest(s) != GENESIS
  }

  ghost predicate NeverEmpty(digest: Digest) {
    forall s :: digest(s) != ""
  }

  /** The hash a next row would link to. */
  function Tail(rows: seq<AuditRow>): string {
    if rows == [] || rows[|rows| - 1].rowHash.None? then GENESIS else rows[|rows| - 1].rowHash.value
  }

  /** The chain definition: every row names the hash of the row before it, the first one genesis, and
      carries the hash of that and of its own content. */
  predicate Linked(digest: Digest, rows: seq<AuditRow>) {
    rows == [] ||
    (var init := rows[..|rows| - 1];
     var last := rows[|rows| - 1];
     && Linked(digest, init)
     && last.prevHash == Some(Tail(init))
     && last.rowHash == Some(HashRow(digest, last.prevHash, last)))
  }

  ghost predicate MetadataWellFormed(rows: seq<AuditRow>) {
    forall i :: 0 <= i < |rows| ==> WellFormed(rows[i].metadata)
  }

  /** Equal row hashes come from equal links: the same hash before, the same content. */
  lemma {:induction false} HashFixesRow(digest: Digest, a: AuditRow, b: AuditRow)
    requires CollisionFree(digest) && a.prevHash.Some? && b.prevHash.Some?
    requires WellFormed(a.metadata) && WellFormed(b.metadata)
    requires HashRow(digest, a.prevHash, a) == HashRow(digest, b.prevHash, b)
    ensures a.prevHash == b.prevHash && SameContent(a, b)
  {
    hide SameContent, Canonical, StableStringify, LinkObject;
    LinkTextUnique(a.prevHash, a, b.prevHash, b);
    CanonicalIffSameContent(a, b);
  }

  lemma {:induction false} HashNeverGenesis(digest: Digest, row: AuditRow)
    requires NeverGenesis(digest)
    ensures HashRow(digest, row.prevHash, row) != GENESIS
  {
  }

  /** Equal tail hashes come from equal last rows, linked to equal tails. */
  lemma {:induction false} TailFixesLast(digest: Digest, a: seq<AuditRow>, b: seq<AuditRow>)
    requires CollisionFree(digest) && a != [] && b != []
    requires MetadataWellFormed(a) && MetadataWellFormed(b)
    requires Linked(digest, a) && Linked(digest, b) && Tail(a) == Tail(b)
    ensures Linked(digest, a[..|a| - 1]) && Linked(digest, b[..|b| - 1])
    ensures Tail(a[..|a| - 1]) == Tail(b[..|b| - 1])
    ensures var x, y := a[|a| - 1], b[|b| - 1]; SameContent(x, y) && x.prevHash == y.prevHash && x.rowHash == y.rowHash
  {
    hide SameContent, HashRow;
    HashFixesRow(digest, a[|a| - 1], b[|b| - 1]);
  }

  lemma {:induction false} TailIsNotGenesis(digest: Digest, rows: seq<AuditRow>)
    requires NeverGenesis(digest) && Linked(digest, rows) && rows != []
    ensures Tail(rows) != GENESIS
  {
    hide HashRow;
    HashNeverGenesis(digest, rows[|rows| - 1]);
  }

  /** The tail hash fixes the log: two chains with equal tail hashes hold the same entries in the same
      order, so nothing can be changed, dropped, added or moved without changing the tail. */
  lemma {:induction false} TailFixesLog(digest: Digest, a: seq<AuditRow>, b: seq<AuditRow>)
    requires CollisionFree(digest) && NeverGenesis(digest)
    requires MetadataWellFormed(a) && MetadataWellFormed(b)
    requires Linked(digest, a) && Linked(digest, b) && Tail(a) == Tail(b)
    ensures |a| == |b|
    ensures forall i :: 0 <= i < |a| ==>
              SameContent(a[i], b[i]) && a[i].prevHash == b[i].prevHash && a[i].rowHash == b[i].rowHash
    decreases |a|
  {
    hide SameContent, HashRow, Linked, CollisionFree, NeverGenesis;
    if a != [] {
      TailIsNotGenesis(digest, a);
    }
    if b != [] {
      TailIsNotGenesis(digest, b);
    }
    if a != [] && b != [] {
      var m := |a| - 1;
      var n := |b| - 1;
      TailFixesLast(digest, a, b);
      TailFixesLog(digest, a[..m], b[..n]);
      forall i | 0 <= i < |a|
        ensures SameContent(a[i], b[i]) && a[i].prevHash == b[i].prevHash && a[i].rowHash == b[i].rowHash
      {
        if i < m {
          assert a[i] == a[..m][i] && b[i] == b[..n][i];
        }
      }
    }
  }

  // --- verification ---

  datatype Reason = MissingHash | PrevHashMismatch | RowHashMismatch

  datatype IntegrityFailure = IntegrityFailure(id: string, index: nat, reason: Reason)

  predicate Falsy(hash: Option<string>) {
    hash.None? || hash.value == ""
  }

  /** What the loop expects after these rows: the last hash that was not null, or genesis. */
  function Expected(rows: seq<AuditRow>): string {
    if rows == [] then GENESIS
    else
      var last := rows[|rows| - 1];
      if last.rowHash.Some? then last.rowHash.value else Expected(rows[..|rows| - 1])
  }

  function RowFailures(digest: Digest, expectedPrevHash: string, row: AuditRow, index: nat): seq<IntegrityFailure> {
    if Falsy(row.prevHash) || Falsy(row.rowHash) then [IntegrityFailure(row.id, index, MissingHash)]
    else
      (if row.prevHash.value != expectedPrevHash then [IntegrityFailure(row.id, index, PrevHashMismatch)] else [])
      + (if row.rowHash.value != HashRow(digest, row.prevHash, row) then [IntegrityFailure(row.id, index, RowHashMismatch)] else [])
  }

  function Failures(digest: Digest, rows: seq<AuditRow>): seq<IntegrityFailure> {
    if rows == [] then []
    else
      var n := |rows| - 1;
      Failures(digest, rows[..n]) + RowFailures(digest, Expected(rows[..n]), rows[n], n)
  }

  lemma {:induction false} LinkedExpects(digest: Digest, rows: seq<AuditRow>)
    requires Linked(digest, rows)
    ensures Expected(rows) == Tail(rows)
  {
  }

  lemma {:induction false} LinkedTailNonEmpty(digest: Digest, rows: seq<AuditRow>)
    requires NeverEmpty(digest) && Linked(digest, rows)
    ensures Tail(rows) != ""
  {
  }

  /** Verification reports no failure exactly for the rows that satisfy the chain definition. */
  lemma {:induction false} VerifiedIffLinked(digest: Digest, rows: seq<AuditRow>)
    requires NeverEmpty(digest)
    ensures Failures(digest, rows) == [] <==> Linked(digest, rows)
    decreases |rows|
  {
    if rows != [] {
      var init := rows[..|rows| - 1];
      VerifiedIffLinked(digest, init);
      if Linked(digest, init) {
        LinkedExpects(digest, init);
        LinkedTailNonEmpty(digest, init);
      }
    }
  }

  /** What the loop expects is the hash of the last row that has one, and genesis before the first. */
  lemma {:induction false} ExpectedIs(rows: seq<AuditRow>)
    ensures (Expected(rows) == GENESIS && forall i :: 0 <= i < |rows| ==> rows[i].rowHash == None)
         || (exists i :: 0 <= i < |rows| && rows[i].rowHash == Some(Expected(rows)) && forall j :: i < j < |rows| ==> rows[j].rowHash == None)
    decreases |rows|
  {
    if rows != [] {
      var init := rows[..|rows| - 1];
      ExpectedIs(init);
      if rows[|rows| - 1].rowHash.None? && exists i :: 0 <= i < |init| && init[i].rowHash == Some(Expected(init)) {
        var i :| 0 <= i < |init| && init[i].rowHash == Some(Expected(init)) && forall j :: i < j < |init| ==> init[j].rowHash == None;
        assert rows[i].rowHash == Some(Expected(rows));
      }
    }
  }

  /** What a failure in the report tells about the row at its index. */
  predicate Tells(digest: Digest, rows: seq<AuditRow>, failure: IntegrityFailure) {
    failure.index < |rows| &&
    var row := rows[failure.index];
    var hashed := row.prevHash.Some? && row.prevHash.value != "" && row.rowHash.Some? && row.rowHash.value != "";
    && failure.id == row.id
    && match failure.reason
       case MissingHash => !hashed
       case PrevHashMismatch => hashed && row.prevHash.value != Expected(rows[..failure.index])
       case RowHashMismatch => hashed && row.rowHash.value != HashRow(digest, row.prevHash, row)
  }

  lemma {:induction false} RowFailuresTell(digest: Digest, expected: string, row: AuditRow, index: nat, failure: IntegrityFailure)
    ensures failure in RowFailures(digest, expected, row, index) <==>
              && failure.index == index && failure.id == row.id
              && match failure.reason
                 case MissingHash => Falsy(row.prevHash) || Falsy(row.rowHash)
                 case PrevHashMismatch => !Falsy(row.prevHash) && !Falsy(row.rowHash) && row.prevHash.value != expected
                 case RowHashMismatch =>
                   !Falsy(row.prevHash) && !Falsy(row.rowHash) && row.rowHash.value != HashRow(digest, row.prevHash, row)
  {
    hide HashRow;
  }

  lemma {:induction false} FailuresFirst(digest: Digest, rows: seq<AuditRow>, row: AuditRow, failure: IntegrityFailure)
    ensures failure in Failures(digest, rows + [row]) <==>
              failure in Failures(digest, rows) || failure in RowFailures(digest, Expected(rows), row, |rows|)
  {
    hide HashRow, Expected, RowFailures;
    assert (rows + [row])[..|rows|] == rows;
  }

  /** The report holds exactly the failures there are: a row without both hashes, a row that does not name the
      hash expected before it, and a row whose own hash is not that of its content, each with its id and index. */
  lemma {:induction false} FailuresTell(digest: Digest, rows: seq<AuditRow>, failure: IntegrityFailure)
    ensures failure in Failures(digest, rows) <==> Tells(digest, rows, failure)
    decreases |rows|
  {
    hide HashRow, Expected, RowFailures;
    if rows != [] {
      var n := |rows| - 1;
      FailuresTell(digest, rows[..n], failure);
      assert rows == rows[..n] + [rows[n]];
      FailuresFirst(digest, rows[..n], rows[n], failure);
      RowFailuresTell(digest, Expected(rows[..n]), rows[n], n, failure);
      if failure.index < n {
        assert rows[..n][..failure.index] == rows[..failure.index];
      }
    }
  }
}
