/** Appending to the audit log and verifying a chain, and exactly when appended chains verify. */
module AuditLog {
  import opened Wrappers
  import opened Sorting
  import opened Json
  import opened AuditChainSpec

  // --- chains in the table ---

  /** The white space that `trim` removes. */
  predicate IsSpace(c: char) {
    var n := c as int;
    9 <= n <= 13 || n == 32 || n == 0xA0 || n == 0x1680 || 0x2000 <= n <= 0x200A
    || n == 0x2028 || n == 0x2029 || n == 0x202F || n == 0x205F || n == 0x3000 || n == 0xFEFF
  }

  predicate Blank(text: string) {
    forall i :: 0 <= i < |text| ==> IsSpace(text[i])
  }

  /** The chain an organization belongs to: its own, or the one of rows without an organization. */
  function ChainKey(organizationId: Option<string>): Option<string> {
    if organizationId.Some? && !Blank(organizationId.value) then organizationId else None
  }

  predicate RowLess(a: AuditRow, b: AuditRow) {
    TextLess(a.createdAt, b.createdAt) || (a.createdAt == b.createdAt && TextLess(a.id, b.id))
  }

  /** `ORDER BY created_at, id`. */
  function RowLeq(): (AuditRow, AuditRow) -> bool {
    (a: AuditRow, b: AuditRow) => !RowLess(b, a)
  }

  function InChain(key: Option<string>): AuditRow -> bool {
    (row: AuditRow) => row.organizationId == key
  }

  function HashedInChain(key: Option<string>): AuditRow -> bool {
    (row: AuditRow) => row.organizationId == key && row.rowHash.Some?
  }

  function Chain(rows: seq<AuditRow>, key: Option<string>): seq<AuditRow> {
    Sort(RowLeq(), Filter(InChain(key), rows))
  }

  function PreviousHash(rows: seq<AuditRow>, organizationId: Option<string>): string {
    Tail(Sort(RowLeq(), Filter(HashedInChain(ChainKey(organizationId)), rows)))
  }

  lemma {:induction false} RowLessTotal(a: AuditRow, b: AuditRow)
    ensures RowLess(a, b) || RowLess(b, a) || (a.createdAt == b.createdAt && a.id == b.id)
    ensures !(RowLess(a, b) && RowLess(b, a))
  {
    TextLessTotal(a.createdAt, b.createdAt);
    TextLessTotal(a.id, b.id);
  }

  lemma {:induction false} RowLessTransitive(a: AuditRow, b: AuditRow, c: AuditRow)
    requires !RowLess(b, a) && !RowLess(c, b)
    ensures !RowLess(c, a)
  {
    RowLessTotal(a, b);
    RowLessTotal(b, c);
    RowLessTotal(a, c);
    if RowLess(a, b) && RowLess(b, c) {
      if TextLess(a.createdAt, b.createdAt) && TextLess(b.createdAt, c.createdAt) {
        TextLessTransitive(a.createdAt, b.createdAt, c.createdAt);
      }
      if TextLess(a.id, b.id) && TextLess(b.id, c.id) {
        TextLessTransitive(a.id, b.id, c.id);
      }
    }
  }

  lemma {:induction false} RowOrder()
    ensures TotalPreorder(RowLeq())
  {
    forall a, b ensures RowLeq()(a, b) || RowLeq()(b, a) {
      RowLessTotal(a, b);
    }
    forall a, b, c | RowLeq()(a, b) && RowLeq()(b, c) ensures RowLeq()(a, c) {
      RowLessTransitive(a, b, c);
    }
  }

  // --- appending ---

  const SYSTEM_ACTOR := "system"
  const INVALID_ENTRY := "Invalid audit log entry: missing required fields"

  /** The arguments of `createAuditLog`, with the metadata already sanitized, and the id and time it draws. */
  datatype Entry = Entry(
    id: string, createdAt: string, actorUserId: string, organizationId: Option<string>, action: string,
    targetType: string, targetId: string, sanitized: Fields)

  function AppendField(f: Fields, key: string, value: Json): Fields {
    match f
    case NoFields => Field(key, value, NoFields)
    case Field(k, v, rest) => Field(k, v, AppendField(rest, key, value))
  }

  /** The acting admin is recorded unless the system acts or the metadata names an admin already. */
  function EntryMetadata(entry: Entry): Json {
    Obj(if entry.actorUserId != SYSTEM_ACTOR && !HasKey(entry.sanitized, "admin_id")
        then AppendField(entry.sanitized, "admin_id", Str(entry.actorUserId)) else entry.sanitized)
  }

  /** The metadata of a row is the sanitized metadata, and names the acting admin unless the system acts or
      an admin is named already. */
  lemma {:induction false} MetadataNamesTheAdmin(entry: Entry, key: string)
    ensures EntryMetadata(entry).Obj?
    ensures var named := entry.actorUserId != SYSTEM_ACTOR && !HasKey(entry.sanitized, "admin_id");
            var metadata := EntryMetadata(entry).fields;
            && (HasKey(metadata, key) <==> HasKey(entry.sanitized, key) || (named && key == "admin_id"))
            && (HasKey(entry.sanitized, key) ==> Lookup(metadata, key) == Lookup(entry.sanitized, key))
            && (named && key == "admin_id" ==> Lookup(metadata, key) == Str(entry.actorUserId))
  {
    AppendedLookup(entry.sanitized, "admin_id", Str(entry.actorUserId), key);
  }

  lemma {:induction false} AppendedLookup(f: Fields, key: string, value: Json, k: string)
    ensures HasKey(AppendField(f, key, value), k) <==> HasKey(f, k) || k == key
    ensures HasKey(f, k) ==> Lookup(AppendField(f, key, value), k) == Lookup(f, k)
    ensures !HasKey(f, k) && k == key ==> Lookup(AppendField(f, key, value), k) == value
    decreases f
  {
    if f.Field? {
      AppendedLookup(f.rest, key, value, k);
    }
  }

  predicate Complete(entry: Entry) {
    entry.actorUserId != "" && entry.action != "" && entry.targetType != "" && entry.targetId != ""
  }

  function RowOf(entry: Entry): AuditRow {
    AuditRow(entry.id, entry.actorUserId, entry.organizationId, entry.action, entry.targetType, entry.targetId,
             EntryMetadata(entry), entry.createdAt, None, None)
  }

  function Appended(digest: Digest, rows: seq<AuditRow>, entry: Entry): seq<AuditRow> {
    var row := RowOf(entry);
    var prevHash := PreviousHash(rows, entry.organizationId);
    rows + [row.(prevHash := Some(prevHash), rowHash := Some(HashRow(digest, Some(prevHash), row)))]
  }

  /** The table after these entries, appended one transaction after the other. */
  function Built(digest: Digest, entries: seq<Entry>): (rows: seq<AuditRow>)
    ensures |rows| == |entries|
  {
    if entries == [] then []
    else Appended(digest, Built(digest, entries[..|entries| - 1]), entries[|entries| - 1])
  }

  lemma {:induction false} AppendFieldWellFormed(f: Fields, key: string, value: Json)
    requires WellFormedFields(f) && WellFormed(value) && !HasKey(f, key)
    ensures WellFormedFields(AppendField(f, key, value))
    ensures forall k :: HasKey(AppendField(f, key, value), k) <==> k == key || HasKey(f, k)
    decreases f
  {
    if f.Field? {
      AppendFieldWellFormed(f.rest, key, value);
    }
  }

  ghost predicate EntriesWellFormed(entries: seq<Entry>) {
    && (forall i :: 0 <= i < |entries| ==> WellFormedFields(entries[i].sanitized))
    && (forall i, j :: 0 <= i < j < |entries| ==> entries[i].id != entries[j].id)
  }

  /** The row holds the entry and carries the hash of its link and its content. */
  ghost predicate Holds(digest: Digest, entry: Entry, row: AuditRow) {
    && WellFormed(row.metadata)
    && row == RowOf(entry).(prevHash := row.prevHash, rowHash := row.rowHash)
    && row.prevHash.Some? && row.rowHash == Some(HashRow(digest, row.prevHash, row))
  }

  lemma {:induction false} AppendedHolds(digest: Digest, rows: seq<AuditRow>, entry: Entry)
    requires WellFormedFields(entry.sanitized)
    ensures Holds(digest, entry, Appended(digest, rows, entry)[|rows|])
  {
    if !HasKey(entry.sanitized, "admin_id") {
      AppendFieldWellFormed(entry.sanitized, "admin_id", Str(entry.actorUserId));
    }
    var row := Appended(digest, rows, entry)[|rows|];
    assert RowObject(row) == RowObject(RowOf(entry));
  }

  /** The rows of the table are the entries, in order of creation. */
  lemma {:induction false} BuiltRows(digest: Digest, entries: seq<Entry>)
    requires EntriesWellFormed(entries)
    ensures forall i :: 0 <= i < |entries| ==> Holds(digest, entries[i], Built(digest, entries)[i])
    decreases |entries|
  {
    hide Holds, PreviousHash, HashRow, RowOf;
    if entries != [] {
      var n := |entries| - 1;
      var init := entries[..n];
      BuiltRows(digest, init);
      AppendedHolds(digest, Built(digest, init), entries[n]);
      forall i | 0 <= i < n ensures Holds(digest, entries[i], Built(digest, entries)[i]) {
        assert Built(digest, entries)[i] == Built(digest, init)[i] && entries[i] == init[i];
      }
    }
  }

  // --- growing entries give verified chains ---

  predicate EntryLess(a: Entry, b: Entry) {
    RowLess(RowOf(a), RowOf(b))
  }

  /** (created_at, id) grows within the chain, in order of creation. */
  predicate Growing(entries: seq<Entry>, key: Option<string>) {
    forall i, j :: 0 <= i < j < |entries| && entries[i].organizationId == key && entries[j].organizationId == key ==>
      EntryLess(entries[i], entries[j])
  }

  lemma {:induction false} InsertBeforeLast(x: AuditRow, s: seq<AuditRow>, last: AuditRow)
    requires RowLeq()(x, last)
    ensures Insert(RowLeq(), x, s + [last]) == Insert(RowLeq(), x, s) + [last]
    decreases |s|
  {
    if s == [] {
      assert s + [last] == [last];
    } else {
      assert (s + [last])[1..] == s[1..] + [last];
      InsertBeforeLast(x, s[1..], last);
    }
  }

  lemma {:induction false} SortWithLast(s: seq<AuditRow>, last: AuditRow)
    requires forall i :: 0 <= i < |s| ==> RowLeq()(s[i], last)
    ensures Sort(RowLeq(), s + [last]) == Sort(RowLeq(), s) + [last]
    decreases |s|
  {
    if s == [] {
      assert s + [last] == [last];
      assert [last][1..] == [];
    } else {
      assert (s + [last])[1..] == s[1..] + [last];
      SortWithLast(s[1..], last);
      InsertBeforeLast(s[0], Sort(RowLeq(), s[1..]), last);
    }
  }

  lemma {:induction false} FilterSame(f: AuditRow -> bool, g: AuditRow -> bool, s: seq<AuditRow>)
    requires forall x :: x in s ==> f(x) == g(x)
    ensures Filter(f, s) == Filter(g, s)
    decreases |s|
  {
    if s != [] {
      FilterSame(f, g, s[1..]);
    }
  }

  lemma {:induction false} PreviousIsTail(digest: Digest, entries: seq<Entry>, organizationId: Option<string>)
    requires EntriesWellFormed(entries)
    ensures PreviousHash(Built(digest, entries), organizationId) == Tail(Chain(Built(digest, entries), ChainKey(organizationId)))
  {
    BuiltRows(digest, entries);
    var rows := Built(digest, entries);
    var key := ChainKey(organizationId);
    forall x | x in rows ensures HashedInChain(key)(x) == InChain(key)(x) {
      var i :| 0 <= i < |rows| && rows[i] == x;
    }
    FilterSame(HashedInChain(key), InChain(key), rows);
  }

  lemma {:induction false} ChainUnchanged(rows: seq<AuditRow>, row: AuditRow, key: Option<string>)
    requires row.organizationId != key
    ensures Chain(rows + [row], key) == Chain(rows, key)
  {
    FilterAppend(InChain(key), rows, [row]);
    assert [row][1..] == [];
    assert Filter(InChain(key), rows) + [] == Filter(InChain(key), rows);
  }

  lemma {:induction false} ChainExtended(rows: seq<AuditRow>, row: AuditRow, key: Option<string>)
    requires row.organizationId == key
    requires forall i :: 0 <= i < |rows| && rows[i].organizationId == key ==> RowLeq()(rows[i], row)
    ensures Chain(rows + [row], key) == Chain(rows, key) + [row]
  {
    var kept := Filter(InChain(key), rows);
    FilterAppend(InChain(key), rows, [row]);
    assert [row][1..] == [];
    assert InChain(key)(row);
    assert Filter(InChain(key), [row]) == [row];
    forall i | 0 <= i < |kept| ensures RowLeq()(kept[i], row) {
      assert kept[i] in kept;
    }
    SortWithLast(kept, row);
  }

  lemma {:induction false} LinkedExtended(digest: Digest, chain: seq<AuditRow>, row: AuditRow)
    requires Linked(digest, chain) && row.prevHash == Some(Tail(chain))
    requires row.rowHash == Some(HashRow(digest, row.prevHash, row))
    ensures Linked(digest, chain + [row])
  {
    assert (chain + [row])[..|chain|] == chain;
  }

  lemma {:induction false} RowLessOfEntries(digest: Digest, a: Entry, x: AuditRow, b: Entry, y: AuditRow)
    requires Holds(digest, a, x) && Holds(digest, b, y)
    ensures RowLess(x, y) <==> EntryLess(a, b)
  {
  }

  lemma {:induction false} EmptyChain(key: Option<string>)
    ensures Chain([], key) == []
  {
  }

  /** One more entry, later than those of its chain, extends the chain it belongs to and no other. */
  lemma {:induction false} GrowingStep(digest: Digest, before: seq<Entry>, entry: Entry, key: Option<string>)
    requires EntriesWellFormed(before + [entry]) && ChainKey(key) == key && Growing(before + [entry], key)
    requires Linked(digest, Chain(Built(digest, before), key))
    ensures Linked(digest, Chain(Built(digest, before + [entry]), key))
  {
    hide Linked, Chain, HashRow, PreviousHash, Growing, EntryLess, RowLess;
    var rows := Built(digest, before);
    EntriesBefore(before, entry);
    AppendedLast(digest, before, entry);
    var row := Appended(digest, rows, entry)[|rows|];
    if entry.organizationId == key {
      EarlierRows(digest, before, entry, row, key);
      ChainExtended(rows, row, key);
      PreviousIsTail(digest, before, key);
      LinkedExtended(digest, Chain(rows, key), row);
    } else {
      ChainUnchanged(rows, row, key);
    }
  }

  lemma {:induction false} EntriesBefore(before: seq<Entry>, entry: Entry)
    requires EntriesWellFormed(before + [entry])
    ensures EntriesWellFormed(before) && WellFormedFields(entry.sanitized)
  {
    var all := before + [entry];
    assert all[|before|] == entry;
    assert forall i :: 0 <= i < |before| ==> all[i] == before[i];
  }

  lemma {:induction false} AppendedLast(digest: Digest, before: seq<Entry>, entry: Entry)
    requires WellFormedFields(entry.sanitized)
    ensures var rows := Built(digest, before);
            var row := Appended(digest, rows, entry)[|rows|];
            && Built(digest, before + [entry]) == rows + [row]
            && Holds(digest, entry, row) && row.organizationId == entry.organizationId
            && row.prevHash == Some(PreviousHash(rows, entry.organizationId))
            && row.rowHash == Some(HashRow(digest, row.prevHash, row))
  {
    hide HashRow, PreviousHash, EntryMetadata;
    assert (before + [entry])[..|before|] == before;
    AppendedHolds(digest, Built(digest, before), entry);
  }

  lemma {:induction false} EarlierRows(digest: Digest, before: seq<Entry>, entry: Entry, row: AuditRow, key: Option<string>)
    requires EntriesWellFormed(before) && Growing(before + [entry], key)
    requires entry.organizationId == key && Holds(digest, entry, row)
    ensures var rows := Built(digest, before);
            forall i :: 0 <= i < |rows| && rows[i].organizationId == key ==> RowLeq()(rows[i], row)
  {
    hide HashRow, RowLess, Built;
    var rows := Built(digest, before);
    BuiltRows(digest, before);
    var all := before + [entry];
    forall i | 0 <= i < |rows| && rows[i].organizationId == key ensures RowLeq()(rows[i], row) {
      assert Holds(digest, before[i], rows[i]) && all[i] == before[i] && all[|before|] == entry;
      assert EntryLess(all[i], all[|before|]);
      RowLessOfEntries(digest, before[i], rows[i], entry, row);
      RowLessTotal(rows[i], row);
    }
  }

  lemma {:induction false} GrowingLinks(digest: Digest, entries: seq<Entry>, key: Option<string>)
    requires EntriesWellFormed(entries) && ChainKey(key) == key && Growing(entries, key)
    ensures Linked(digest, Chain(Built(digest, entries), key))
    decreases |entries|
  {
    hide Chain, HashRow, PreviousHash, EntryLess;
    if entries == [] {
      EmptyChain(key);
    } else {
      var n := |entries| - 1;
      assert entries == entries[..n] + [entries[n]];
      GrowingLinks(digest, entries[..n], key);
      GrowingStep(digest, entries[..n], entries[n], key);
    }
  }

  // --- verified chains only from growing entries ---

  lemma {:induction false} LinkedNeighbours(digest: Digest, chain: seq<AuditRow>, m: nat)
    requires Linked(digest, chain) && m + 1 < |chain|
    ensures chain[m].rowHash.Some? && chain[m + 1].prevHash == chain[m].rowHash
    decreases |chain|
  {
    var init := chain[..|chain| - 1];
    if m + 2 == |chain| {
      assert Linked(digest, init) && init[|init| - 1] == chain[m];
    } else {
      LinkedNeighbours(digest, init, m);
      assert init[m] == chain[m] && init[m + 1] == chain[m + 1];
    }
  }

  lemma {:induction false} BuiltStep(digest: Digest, before: seq<Entry>, entry: Entry)
    ensures Built(digest, before + [entry])[..|before|] == Built(digest, before)
    ensures Built(digest, before + [entry])[|before|].prevHash == Some(PreviousHash(Built(digest, before), entry.organizationId))
  {
    assert (before + [entry])[..|before|] == before;
  }

  /** Appending leaves the rows that are there as they are, and links to what it finds. */
  lemma {:induction false} BuiltPrefix(digest: Digest, before: seq<Entry>, entry: Entry, after: seq<Entry>)
    ensures Built(digest, before + [entry] + after)[..|before|] == Built(digest, before)
    ensures Built(digest, before + [entry] + after)[|before|].prevHash
         == Some(PreviousHash(Built(digest, before), entry.organizationId))
    decreases |after|
  {
    if after == [] {
      assert before + [entry] + after == before + [entry];
      BuiltStep(digest, before, entry);
    } else {
      var n := |after| - 1;
      var most := before + [entry] + after[..n];
      assert before + [entry] + after == most + [after[n]];
      BuiltPrefix(digest, before, entry, after[..n]);
      BuiltStep(digest, most, after[n]);
      PrefixOfPrefix(Built(digest, most + [after[n]]), Built(digest, most), |before|);
    }
  }

  lemma {:induction false} PrefixOfPrefix(whole: seq<AuditRow>, part: seq<AuditRow>, i: nat)
    requires i < |part| <= |whole| && whole[..|part|] == part
    ensures whole[..i] == part[..i] && whole[i] == part[i]
  {
    RowOfPrefix(whole, part, i);
  }

  lemma {:induction false} TailIsARow(rows: seq<AuditRow>, key: Option<string>) returns (j: nat)
    requires Tail(Chain(rows, key)) != GENESIS
    ensures j < |rows| && rows[j].rowHash == Some(Tail(Chain(rows, key)))
  {
    var chain := Chain(rows, key);
    SortElements(RowLeq(), Filter(InChain(key), rows));
    var last := chain[|chain| - 1];
    assert last in chain && last in rows;
    j :| 0 <= j < |rows| && rows[j] == last;
  }

  /** An appended row links to genesis or to a row of its chain that was there before. */
  lemma {:induction false} LinksBackwards(digest: Digest, before: seq<Entry>, entry: Entry, after: seq<Entry>) returns (j: nat)
    requires EntriesWellFormed(before)
    requires Built(digest, before + [entry] + after)[|before|].prevHash != Some(GENESIS)
    ensures j < |before|
    ensures Built(digest, before + [entry] + after)[j].rowHash == Built(digest, before + [entry] + after)[|before|].prevHash
  {
    BuiltPrefix(digest, before, entry, after);
    PreviousIsTail(digest, before, entry.organizationId);
    j := TailIsARow(Built(digest, before), ChainKey(entry.organizationId));
    RowOfPrefix(Built(digest, before + [entry] + after), Built(digest, before), j);
  }

  lemma {:induction false} RowOfPrefix(whole: seq<AuditRow>, part: seq<AuditRow>, j: nat)
    requires j < |part| <= |whole| && whole[..|part|] == part
    ensures whole[j] == part[j]
  {
  }

  /** Two rows of the table with one hash are one row. */
  lemma {:induction false} HashIdentifies(digest: Digest, entries: seq<Entry>, i: nat, j: nat)
    requires EntriesWellFormed(entries) && CollisionFree(digest) && i < |entries| && j < |entries|
    requires Built(digest, entries)[i].rowHash == Built(digest, entries)[j].rowHash
    ensures i == j
  {
    var rows := Built(digest, entries);
    BuiltRows(digest, entries);
    assert Holds(digest, entries[i], rows[i]) && Holds(digest, entries[j], rows[j]);
    LinkTextUnique(rows[i].prevHash, rows[i], rows[j].prevHash, rows[j]);
    CanonicalIffSameContent(rows[i], rows[j]);
    assert entries[i].id == entries[j].id;
  }

  lemma {:induction false} InTable(digest: Digest, entries: seq<Entry>, key: Option<string>, m: nat) returns (i: nat)
    requires m < |Chain(Built(digest, entries), key)|
    ensures i < |entries| && Built(digest, entries)[i] == Chain(Built(digest, entries), key)[m]
    ensures Built(digest, entries)[i].organizationId == key
  {
    hide Built, Sort, Filter;
    var rows := Built(digest, entries);
    var kept := Filter(InChain(key), rows);
    SortElements(RowLeq(), kept);
    var x := Chain(rows, key)[m];
    assert x in kept && x in rows && InChain(key)(x);
    i :| 0 <= i < |rows| && rows[i] == x;
  }

  lemma {:induction false} InItsChain(digest: Digest, entries: seq<Entry>, key: Option<string>, i: nat) returns (m: nat)
    requires i < |entries| && Built(digest, entries)[i].organizationId == key
    ensures m < |Chain(Built(digest, entries), key)| && Chain(Built(digest, entries), key)[m] == Built(digest, entries)[i]
  {
    hide Built, Sort, Filter;
    var rows := Built(digest, entries);
    var kept := Filter(InChain(key), rows);
    FilterElements(InChain(key), rows);
    SortElements(RowLeq(), kept);
    assert rows[i] in rows && InChain(key)(rows[i]);
    assert rows[i] in kept && rows[i] in Chain(rows, key);
    m :| 0 <= m < |Chain(rows, key)| && Chain(rows, key)[m] == rows[i];
  }

  lemma {:induction false} NeverLinksToGenesis(digest: Digest, entries: seq<Entry>, p: nat)
    requires EntriesWellFormed(entries) && NeverGenesis(digest) && p < |entries|
    ensures Built(digest, entries)[p].rowHash != Some(GENESIS)
  {
    BuiltRows(digest, entries);
    assert Holds(digest, entries[p], Built(digest, entries)[p]);
  }

  lemma {:induction false} SplitAt(entries: seq<Entry>, j: nat)
    requires EntriesWellFormed(entries) && j < |entries|
    ensures entries == entries[..j] + [entries[j]] + entries[j + 1..] && EntriesWellFormed(entries[..j])
  {
  }

  /** A row whose hash another row links to was created before that row. */
  lemma {:induction false} LinkedToIsOlder(digest: Digest, entries: seq<Entry>, p: nat, j: nat)
    requires EntriesWellFormed(entries) && CollisionFree(digest) && NeverGenesis(digest)
    requires p < |entries| && j < |entries|
    requires Built(digest, entries)[j].prevHash == Built(digest, entries)[p].rowHash
    ensures p < j
  {
    NeverLinksToGenesis(digest, entries, p);
    SplitAt(entries, j);
    var q := LinksBackwards(digest, entries[..j], entries[j], entries[j + 1..]);
    HashIdentifies(digest, entries, p, q);
  }

  predicate NeighboursLinked(chain: seq<AuditRow>) {
    forall m :: 0 <= m && m + 1 < |chain| ==> chain[m + 1].prevHash == chain[m].rowHash
  }

  predicate LinksAreOlder(rows: seq<AuditRow>) {
    forall p, q :: 0 <= p < |rows| && 0 <= q < |rows| && rows[q].prevHash == rows[p].rowHash ==> p < q
  }

  /** In a linked chain the rows stand in the order in which they were created. */
  lemma {:induction false} LinkedInCreationOrder(rows: seq<AuditRow>, chain: seq<AuditRow>, m: nat, n: nat, i: nat, j: nat)
    requires NeighboursLinked(chain) && LinksAreOlder(rows)
    requires forall x :: x in chain ==> x in rows
    requires m < n < |chain| && i < |rows| && j < |rows| && rows[i] == chain[m] && rows[j] == chain[n]
    ensures i < j
    decreases n
  {
    var before := n - 1;
    assert chain[before + 1].prevHash == chain[before].rowHash;
    if m < before {
      assert chain[before] in chain;
      var p :| 0 <= p < |rows| && rows[p] == chain[before];
      LinkedInCreationOrder(rows, chain, m, before, i, p);
    }
  }

  lemma {:induction false} LinkedRowsInOrder(digest: Digest, entries: seq<Entry>, key: Option<string>)
    requires EntriesWellFormed(entries) && CollisionFree(digest) && NeverGenesis(digest)
    requires Linked(digest, Chain(Built(digest, entries), key))
    ensures NeighboursLinked(Chain(Built(digest, entries), key)) && LinksAreOlder(Built(digest, entries))
    ensures forall x :: x in Chain(Built(digest, entries), key) ==> x in Built(digest, entries)
  {
    var rows := Built(digest, entries);
    var chain := Chain(rows, key);
    SortElements(RowLeq(), Filter(InChain(key), rows));
    forall m | 0 <= m && m + 1 < |chain| ensures chain[m + 1].prevHash == chain[m].rowHash {
      LinkedNeighbours(digest, chain, m);
    }
    forall p, q | 0 <= p < |rows| && 0 <= q < |rows| && rows[q].prevHash == rows[p].rowHash ensures p < q {
      LinkedToIsOlder(digest, entries, p, q);
    }
  }

  lemma {:induction false} LinkedGrows(digest: Digest, entries: seq<Entry>, key: Option<string>)
    requires EntriesWellFormed(entries) && CollisionFree(digest) && NeverGenesis(digest)
    requires Linked(digest, Chain(Built(digest, entries), key))
    ensures Growing(entries, key)
  {
    var rows := Built(digest, entries);
    var chain := Chain(rows, key);
    BuiltRows(digest, entries);
    RowOrder();
    SortSorted(RowLeq(), Filter(InChain(key), rows));
    forall i, j | 0 <= i < j < |entries| && entries[i].organizationId == key && entries[j].organizationId == key
      ensures EntryLess(entries[i], entries[j])
    {
      assert Holds(digest, entries[i], rows[i]) && Holds(digest, entries[j], rows[j]);
      var m := InItsChain(digest, entries, key, i);
      var n := InItsChain(digest, entries, key, j);
      if n < m {
        LinkedRowsInOrder(digest, entries, key);
        LinkedInCreationOrder(rows, chain, n, m, j, i);
      }
      assert m != n;
      assert RowLeq()(chain[m], chain[n]);
      RowLessTotal(rows[i], rows[j]);
      RowLessOfEntries(digest, entries[i], rows[i], entries[j], rows[j]);
      assert entries[i].id != entries[j].id;
    }
  }

  // --- reading back ---

  /** What the store returns for a row: the same row, its metadata keys in any order at any depth. */
  predicate ReadBack(stored: AuditRow, read: AuditRow) {
    && read == stored.(metadata := read.metadata)
    && WellFormed(read.metadata) && Equivalent(stored.metadata, read.metadata)
  }

  ghost predicate ChainReadBack(stored: seq<AuditRow>, read: seq<AuditRow>) {
    |read| == |stored| && forall i :: 0 <= i < |stored| ==> ReadBack(stored[i], read[i])
  }

  lemma {:induction false} ReadBackKeepsHash(digest: Digest, prevHash: Option<string>, stored: AuditRow, read: AuditRow)
    requires WellFormed(stored.metadata) && ReadBack(stored, read)
    ensures HashRow(digest, prevHash, read) == HashRow(digest, prevHash, stored)
  {
    CanonicalIffSameContent(stored, read);
    assert LinkObject(prevHash, stored) == LinkObject(prevHash, read);
  }

  lemma {:induction false} ReadBackKeepsFailures(digest: Digest, stored: seq<AuditRow>, read: seq<AuditRow>)
    requires MetadataWellFormed(stored) && ChainReadBack(stored, read)
    ensures Failures(digest, read) == Failures(digest, stored) && Expected(read) == Expected(stored)
    decreases |stored|
  {
    hide HashRow;
    if stored != [] {
      var n := |stored| - 1;
      assert ReadBack(stored[n], read[n]);
      ReadBackKeepsFailures(digest, stored[..n], read[..n]);
      ReadBackKeepsHash(digest, stored[n].prevHash, stored[n], read[n]);
    }
  }

  lemma {:induction false} ChainMetadata(digest: Digest, entries: seq<Entry>, key: Option<string>)
    requires EntriesWellFormed(entries)
    ensures MetadataWellFormed(Chain(Built(digest, entries), key))
  {
    BuiltRows(digest, entries);
    var chain := Chain(Built(digest, entries), key);
    forall m | 0 <= m < |chain| ensures WellFormed(chain[m].metadata) {
      var i := InTable(digest, entries, key, m);
      assert Holds(digest, entries[i], Built(digest, entries)[i]);
    }
  }

  /** Appends verify exactly when they grow. After any interleaving of appends over any organizations,
      the chain of a key verifies without failures, read back with its metadata keys in any order, if and
      only if (created_at, id) grew within that chain from append to append. */
  lemma {:induction false} AppendsVerifyIffGrowing(digest: Digest, entries: seq<Entry>, key: Option<string>, read: seq<AuditRow>)
    requires CollisionFree(digest) && NeverGenesis(digest) && NeverEmpty(digest)
    requires EntriesWellFormed(entries) && ChainKey(key) == key
    requires ChainReadBack(Chain(Built(digest, entries), key), read)
    ensures Failures(digest, read) == [] <==> Growing(entries, key)
  {
    ChainMetadata(digest, entries, key);
    ReadBackKeepsFailures(digest, Chain(Built(digest, entries), key), read);
    VerifiedIffLinked(digest, Chain(Built(digest, entries), key));
    if Growing(entries, key) {
      GrowingLinks(digest, entries, key);
    }
    if Linked(digest, Chain(Built(digest, entries), key)) {
      LinkedGrows(digest, entries, key);
    }
  }

  /** Which rows any verification looks at: those without an organization or with one that is not blank.
      A row of a blank organization is hashed into the chain of none, but no verification reads it. */
  lemma {:induction false} CoveredIffNotBlank(rows: seq<AuditRow>, row: AuditRow)
    requires row in rows
    ensures (exists asked: Option<string> :: row in Chain(rows, ChainKey(asked)))
       <==> (row.organizationId.None? || !Blank(row.organizationId.value))
  {
    forall asked: Option<string> ensures row in Chain(rows, ChainKey(asked)) <==> row.organizationId == ChainKey(asked) {
      SortElements(RowLeq(), Filter(InChain(ChainKey(asked)), rows));
      FilterElements(InChain(ChainKey(asked)), rows);
      assert row in Filter(InChain(ChainKey(asked)), rows) <==> InChain(ChainKey(asked))(row);
    }
    if row.organizationId.None? || !Blank(row.organizationId.value) {
      assert ChainKey(row.organizationId) == row.organizationId;
      assert row in Chain(rows, ChainKey(row.organizationId));
    }
  }

  // --- the table and its two operations ---

  datatype VerificationResult = VerificationResult(
    organizationId: Option<string>, verified: bool, checkedCount: nat, headHash: string, tailHash: string,
    failures: seq<IntegrityFailure>)

  class AuditLogStore {
    var rows: seq<AuditRow>
    const digest: Digest

    /** The entries appended so far. */
    ghost var entries: seq<Entry>

    ghost predicate Valid()
      reads this
    {
      rows == Built(digest, entries)
    }

    constructor (digest: Digest)
      ensures Valid() && rows == [] && this.digest == digest
    {
      rows, entries := [], [];
      this.digest := digest;
    }

    method CreateAuditLog(entry: Entry) returns (r: Result<AuditRow, string>)
      requires Valid()
      modifies this
      ensures Valid()
      ensures !Complete(entry) ==> r == Err(INVALID_ENTRY) && rows == old(rows) && entries == old(entries)
      ensures Complete(entry) ==> entries == old(entries) + [entry] && r.Ok? && rows == old(rows) + [r.value]
      ensures r.Err? <==> entry.actorUserId == "" || entry.action == "" || entry.targetType == "" || entry.targetId == ""
      ensures r.Ok? ==>
                var row := r.value;
                && row.id == entry.id && row.createdAt == entry.createdAt && row.organizationId == entry.organizationId
                && row.actorUserId == entry.actorUserId && row.action == entry.action
                && row.targetType == entry.targetType && row.targetId == entry.targetId && row.metadata == EntryMetadata(entry)
                && row.prevHash.Some? && row.rowHash == Some(HashRow(digest, row.prevHash, row))
    {
      if entry.actorUserId == "" || entry.action == "" || entry.targetType == "" || entry.targetId == "" {
        return Err(INVALID_ENTRY);
      }
      var row := RowOf(entry);
      var prevHash := PreviousHash(rows, entry.organizationId);
      var rowHash := HashRow(digest, Some(prevHash), row);
      row := row.(prevHash := Some(prevHash), rowHash := Some(rowHash));
      rows := rows + [row];
      assert (entries + [entry])[..|entries|] == entries;
      entries := entries + [entry];
      r := Ok(row);
    }

    /** `read` is the chain as the store returns it. */
    method VerifyAuditLogChain(organizationId: Option<string>, read: seq<AuditRow>) returns (r: VerificationResult)
      requires ChainReadBack(Chain(rows, ChainKey(organizationId)), read)
      ensures r.organizationId == ChainKey(organizationId) && r.checkedCount == |read|
      ensures r.failures == Failures(digest, read) && (r.verified <==> r.failures == [])
      ensures NeverEmpty(digest) ==> (r.verified <==> Linked(digest, read))
      ensures r.tailHash == Tail(read)
      ensures r.headHash == if read != [] && read[0].rowHash.Some? then read[0].rowHash.value else GENESIS
    {
      hide HashRow, Linked;
      var expectedPrevHash := GENESIS;
      var failures: seq<IntegrityFailure> := [];
      for index := 0 to |read|
        invariant expectedPrevHash == Expected(read[..index])
        invariant failures == Failures(digest, read[..index])
      {
        var row := read[index];
        assert read[..index + 1][..index] == read[..index];
        if Falsy(row.prevHash) || Falsy(row.rowHash) {
          failures := failures + [IntegrityFailure(row.id, index, MissingHash)];
          expectedPrevHash := if row.rowHash.Some? then row.rowHash.value else expectedPrevHash;
        } else {
          var mismatch: seq<IntegrityFailure> := [];
          if row.prevHash.value != expectedPrevHash {
            mismatch := mismatch + [IntegrityFailure(row.id, index, PrevHashMismatch)];
          }
          if row.rowHash.value != HashRow(digest, row.prevHash, row) {
            mismatch := mismatch + [IntegrityFailure(row.id, index, RowHashMismatch)];
          }
          failures := failures + mismatch;
          expectedPrevHash := row.rowHash.value;
        }
      }
      assert read[..|read|] == read;
      if NeverEmpty(digest) {
        VerifiedIffLinked(digest, read);
      }
      r := VerificationResult(ChainKey(organizationId), failures == [], |read|,
                              if read != [] && read[0].rowHash.Some? then read[0].rowHash.value else GENESIS,
                              Tail(read), failures);
    }
  }
}
