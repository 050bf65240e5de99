/** Keyset pagination of transactions, newest first, and what following the cursors yields.

Timestamps are microseconds, as the database stores them. A cursor goes through a JavaScript `Date`,
which holds whole milliseconds, and through a text that ends the id at the first bar.
*/
module TransactionPages {
  import opened Wrappers
  import opened Sorting

  datatype Transaction = Transaction(
    id: string, userId: string, vaultId: string, transactionType: string, timestamp: int, amount: int)

  /** `None` stands for a filter that is absent, or an empty string. */
  datatype Filters = Filters(
    vaultId: Option<string>, transactionType: Option<string>, dateFrom: Option<int>, dateTo: Option<int>,
    amountMin: Option<int>, amountMax: Option<int>)

  datatype Cursor = Cursor(timestamp: int, id: string)

  datatype Page = Page(data: seq<Transaction>, nextCursor: Option<Cursor>, hasMore: bool)

  // --- cursors ---

  function BeforeBar(id: string): string {
    if id == "" || id[0] == '|' then "" else [id[0]] + BeforeBar(id[1..])
  }

  /** What decoding the encoded cursor of a row gives back. */
  function CursorOf(row: Transaction): Cursor {
    Cursor(row.timestamp / 1000 * 1000, BeforeBar(row.id))
  }

  predicate NoBar(id: string) {
    forall i :: 0 <= i < |id| ==> id[i] != '|'
  }

  /** The cursor of the row says exactly where the row is; decoding refuses an empty id. */
  predicate CursorExact(row: Transaction) {
    row.timestamp % 1000 == 0 && row.id != "" && NoBar(row.id)
  }

  lemma {:induction false} BeforeNoBar(id: string)
    requires NoBar(id)
    ensures BeforeBar(id) == id
    decreases |id|
  {
    if id != "" {
      BeforeNoBar(id[1..]);
    }
  }

  lemma {:induction false} ExactCursor(row: Transaction)
    requires CursorExact(row)
    ensures CursorOf(row) == Cursor(row.timestamp, row.id)
  {
    BeforeNoBar(row.id);
  }

  /** What decoding gives back is never after the row: its text is the id or comes before it. */
  lemma {:induction false} BarCutsShorter(id: string)
    ensures BeforeBar(id) == id || TextLess(BeforeBar(id), id)
  {
    if id != "" && id[0] != '|' {
      BarCutsShorter(id[1..]);
      assert id == [id[0]] + id[1..];
      assert ([id[0]] + BeforeBar(id[1..]))[1..] == BeforeBar(id[1..]);
    }
  }

  // --- the query ---

  predicate Matches(row: Transaction, userId: string, filters: Filters) {
    && row.userId == userId
    && (filters.vaultId.Some? ==> row.vaultId == filters.vaultId.value)
    && (filters.transactionType.Some? ==> row.transactionType == filters.transactionType.value)
    && (filters.dateFrom.Some? ==> row.timestamp >= filters.dateFrom.value)
    && (filters.dateTo.Some? ==> row.timestamp <= filters.dateTo.value)
    && (filters.amountMin.Some? ==> row.amount >= filters.amountMin.value)
    && (filters.amountMax.Some? ==> row.amount <= filters.amountMax.value)
  }

  predicate Beyond(row: Transaction, cursor: Option<Cursor>) {
    cursor.Some? ==>
      row.timestamp < cursor.value.timestamp || (row.timestamp == cursor.value.timestamp && TextLess(row.id, cursor.value.id))
  }

  function Matching(userId: string, filters: Filters): Transaction -> bool {
    (row: Transaction) => Matches(row, userId, filters)
  }

  function BeyondCursor(cursor: Option<Cursor>): Transaction -> bool {
    (row: Transaction) => Beyond(row, cursor)
  }

  function MatchingBeyond(userId: string, filters: Filters, cursor: Option<Cursor>): Transaction -> bool {
    (row: Transaction) => Matches(row, userId, filters) && Beyond(row, cursor)
  }

  predicate Newer(a: Transaction, b: Transaction) {
    a.timestamp > b.timestamp || (a.timestamp == b.timestamp && TextLess(b.id, a.id))
  }

  /** `ORDER BY stellar_timestamp DESC, id DESC`. */
  function NewestFirst(): (Transaction, Transaction) -> bool {
    (a: Transaction, b: Transaction) => !Newer(b, a)
  }

  function Take<T>(s: seq<T>, n: nat): seq<T> {
    if n <= |s| then s[..n] else s
  }

  const INVALID_CURSOR := "Invalid cursor"

  /** Decoding a cursor without an id throws. */
  predicate Readable(cursor: Option<Cursor>) {
    cursor.Some? ==> cursor.value.id != ""
  }

  /** The page of at most `limit` rows at the front of these rows. */
  function PageOf(found: seq<Transaction>, limit: nat): Page {
    var transactions := Take(found, limit + 1);
    var hasMore := |transactions| > limit;
    var data := if hasMore then transactions[..limit] else transactions;
    Page(data, if hasMore && |data| > 0 then Some(CursorOf(data[|data| - 1])) else None, hasMore)
  }

  function ListWithCursor(rows: seq<Transaction>, userId: string, limit: nat, cursor: Option<Cursor>, filters: Filters): Result<Page, string> {
    if !Readable(cursor) then Err(INVALID_CURSOR)
    else Ok(PageOf(Sort(NewestFirst(), Filter(MatchingBeyond(userId, filters, cursor), rows)), limit))
  }

  // --- following the cursors ---

  /** The whole list, filtered and sorted, that the pages are to show. */
  function All(rows: seq<Transaction>, userId: string, filters: Filters): seq<Transaction> {
    Sort(NewestFirst(), Filter(Matching(userId, filters), rows))
  }

  /** The pages from a cursor on, at most `most` of them, or the error of the first request that throws. */
  function Follow(rows: seq<Transaction>, userId: string, limit: nat, cursor: Option<Cursor>, filters: Filters, most: nat): Result<seq<Page>, string>
    decreases most
  {
    if most == 0 then Ok([])
    else
      var page := ListWithCursor(rows, userId, limit, cursor, filters);
      if page.Err? then Err(page.error)
      else if page.value.nextCursor.None? then Ok([page.value])
      else
        var rest := Follow(rows, userId, limit, page.value.nextCursor, filters, most - 1);
        if rest.Err? then rest else Ok([page.value] + rest.value)
  }

  function Shown(pages: seq<Page>): seq<Transaction> {
    if pages == [] then [] else pages[0].data + Shown(pages[1..])
  }

  predicate KeysDistinct(rows: seq<Transaction>) {
    forall i, j :: 0 <= i < j < |rows| ==> rows[i].timestamp != rows[j].timestamp || rows[i].id != rows[j].id
  }

  // --- the order ---

  lemma {:induction false} NewerTotal(a: Transaction, b: Transaction)
    ensures Newer(a, b) || Newer(b, a) || (a.timestamp == b.timestamp && a.id == b.id)
    ensures !(Newer(a, b) && Newer(b, a))
  {
    TextLessTotal(a.id, b.id);
  }

  lemma {:induction false} NewerTransitive(a: Transaction, b: Transaction, c: Transaction)
    requires !Newer(b, a) && !Newer(c, b)
    ensures !Newer(c, a)
  {
    NewerTotal(a, b);
    NewerTotal(b, c);
    NewerTotal(a, c);
    if Newer(a, b) && Newer(b, c) && a.timestamp == b.timestamp == c.timestamp {
      TextLessTransitive(c.id, b.id, a.id);
    }
  }

  lemma {:induction false} NewestFirstOrder()
    ensures TotalPreorder(NewestFirst())
  {
    forall a, b ensures NewestFirst()(a, b) || NewestFirst()(b, a) {
      NewerTotal(a, b);
    }
    forall a, b, c | NewestFirst()(a, b) && NewestFirst()(b, c) ensures NewestFirst()(a, c) {
      NewerTransitive(a, b, c);
    }
  }

  function HasKey(timestamp: int, id: string): Transaction -> bool {
    (row: Transaction) => row.timestamp == timestamp && row.id == id
  }

  lemma {:induction false} KeyAtMostOnce(rows: seq<Transaction>, timestamp: int, id: string)
    requires KeysDistinct(rows)
    ensures |Filter(HasKey(timestamp, id), rows)| <= 1
    decreases |rows|
  {
    if rows != [] {
      KeyAtMostOnce(rows[1..], timestamp, id);
      if rows[0].timestamp == timestamp && rows[0].id == id {
        NoSuchKey(rows[1..], timestamp, id);
      }
    }
  }

  lemma {:induction false} NoSuchKey(rows: seq<Transaction>, timestamp: int, id: string)
    requires forall i :: 0 <= i < |rows| ==> rows[i].timestamp != timestamp || rows[i].id != id
    ensures Filter(HasKey(timestamp, id), rows) == []
    decreases |rows|
  {
    if rows != [] {
      NoSuchKey(rows[1..], timestamp, id);
    }
  }

  lemma {:induction false} KeySeenOnce(rows: seq<Transaction>, i: nat, j: nat)
    requires i < j < |rows| && |Filter(HasKey(rows[i].timestamp, rows[i].id), rows)| <= 1
    ensures rows[i].timestamp != rows[j].timestamp || rows[i].id != rows[j].id
  {
    var keep := HasKey(rows[i].timestamp, rows[i].id);
    var before := rows[..j];
    var after := rows[j..];
    assert rows == before + after;
    FilterAppend(keep, before, after);
    FilterElements(keep, before);
    FilterElements(keep, after);
    var later := after[0];
    assert before[i] in before && later in after;
    assert before[i] in Filter(keep, before);
    assert later in Filter(keep, after) <==> keep(later);
  }

  lemma {:induction false} FilteredKeysDistinct(keep: Transaction -> bool, rows: seq<Transaction>)
    requires KeysDistinct(rows)
    ensures KeysDistinct(Filter(keep, rows))
    decreases |rows|
  {
    if rows != [] {
      FilteredKeysDistinct(keep, rows[1..]);
      var rest := Filter(keep, rows[1..]);
      if keep(rows[0]) {
        forall j | 0 <= j < |rest| ensures rows[0].timestamp != rest[j].timestamp || rows[0].id != rest[j].id {
          assert rest[j] in rest && rest[j] in rows[1..];
          var k :| 0 <= k < |rows[1..]| && rows[1..][k] == rest[j];
          assert rows[1 + k] == rest[j];
        }
      }
    }
  }

  ghost predicate StrictlyNewestFirst(all: seq<Transaction>) {
    forall j, k :: 0 <= j < k < |all| ==> Newer(all[j], all[k])
  }

  /** Distinct keys are sorted strictly. */
  lemma {:induction false} SortedStrictly(rows: seq<Transaction>)
    requires KeysDistinct(rows)
    ensures StrictlyNewestFirst(Sort(NewestFirst(), rows))
  {
    hide Filter, Sort, Newer;
    var all := Sort(NewestFirst(), rows);
    NewestFirstOrder();
    SortSorted(NewestFirst(), rows);
    forall i, j | 0 <= i < j < |all| ensures Newer(all[i], all[j]) {
      assert NewestFirst()(all[i], all[j]);
      NewerTotal(all[i], all[j]);
      KeyAtMostOnce(rows, all[i].timestamp, all[i].id);
      SortFilteredSize(HasKey(all[i].timestamp, all[i].id), rows);
      KeySeenOnce(all, i, j);
    }
  }

  lemma {:induction false} SortFilteredSize(keep: Transaction -> bool, rows: seq<Transaction>)
    ensures |Filter(keep, Sort(NewestFirst(), rows))| == |Filter(keep, rows)|
  {
    NewestFirstOrder();
    SortFiltered(NewestFirst(), keep, rows);
  }

  // --- what lies beyond a cursor ---

  /** The cursor after the first i rows of the list. */
  function CursorAt(all: seq<Transaction>, i: nat): Option<Cursor>
    requires i <= |all|
  {
    if i == 0 then None else Some(CursorOf(all[i - 1]))
  }

  lemma {:induction false} AllIsStrict(rows: seq<Transaction>, userId: string, filters: Filters)
    requires KeysDistinct(rows)
    ensures StrictlyNewestFirst(All(rows, userId, filters))
  {
    hide Filter, Sort, Matches, Newer;
    FilteredKeysDistinct(Matching(userId, filters), rows);
    SortedStrictly(Filter(Matching(userId, filters), rows));
  }

  /** The query behind any cursor filters the list. */
  lemma {:induction false} QueryFilters(rows: seq<Transaction>, userId: string, filters: Filters, cursor: Option<Cursor>)
    ensures Sort(NewestFirst(), Filter(MatchingBeyond(userId, filters, cursor), rows))
         == Filter(BeyondCursor(cursor), All(rows, userId, filters))
  {
    hide Filter, Sort, Matches, Newer;
    NewestFirstOrder();
    FilterBoth(Matching(userId, filters), BeyondCursor(cursor), MatchingBeyond(userId, filters, cursor), rows);
    SortFiltered(NewestFirst(), BeyondCursor(cursor), Filter(Matching(userId, filters), rows));
  }

  /** The rows up to the one that made the cursor are never beyond it. */
  lemma {:induction false} NotBeyondOwnCursor(row: Transaction, last: Transaction)
    requires row == last || Newer(row, last)
    ensures !Beyond(row, Some(CursorOf(last)))
  {
    var id := BeforeBar(last.id);
    BarCutsShorter(last.id);
    TextLessTotal(row.id, id);
    if row.timestamp == last.timestamp && TextLess(row.id, id) {
      if id != last.id {
        TextLessTransitive(row.id, id, last.id);
      }
      TextLessTotal(row.id, last.id);
    }
  }

  /** What is older than a row beyond the cursor is beyond it too. */
  lemma {:induction false} OlderIsBeyond(row: Transaction, older: Transaction, cursor: Cursor)
    requires Beyond(row, Some(cursor)) && Newer(row, older)
    ensures Beyond(older, Some(cursor))
  {
    if older.timestamp == row.timestamp == cursor.timestamp {
      TextLessTransitive(older.id, row.id, cursor.id);
    }
  }

  /** Only rows after position i can be beyond the cursor there if the row at i is not. */
  lemma {:induction false} BeyondPositions(all: seq<Transaction>, i: nat, k: nat)
    requires StrictlyNewestFirst(all) && 0 < i < |all| && k < |all|
    ensures k < i ==> !Beyond(all[k], CursorAt(all, i))
    ensures i <= k && Beyond(all[i], CursorAt(all, i)) ==> Beyond(all[k], CursorAt(all, i))
  {
    hide Newer, Beyond, CursorOf;
    if k < i {
      NotBeyondOwnCursor(all[k], all[i - 1]);
    } else if i < k && Beyond(all[i], CursorAt(all, i)) {
      OlderIsBeyond(all[i], all[k], CursorOf(all[i - 1]));
    }
  }

  /** In the middle of the list the rows beyond the cursor are exactly the rest if and only if the next row
      is beyond it; if not, the next row is not among them. */
  lemma {:induction false} RestIsBeyondIff(all: seq<Transaction>, i: nat)
    requires StrictlyNewestFirst(all) && 0 < i < |all|
    ensures Filter(BeyondCursor(CursorAt(all, i)), all) == all[i..] <==> Beyond(all[i], CursorAt(all, i))
    ensures !Beyond(all[i], CursorAt(all, i)) ==> all[i] !in Filter(BeyondCursor(CursorAt(all, i)), all)
  {
    hide Filter, CursorOf, Newer, Beyond, StrictlyNewestFirst;
    var cursor := CursorAt(all, i);
    FilterElements(BeyondCursor(cursor), all);
    assert all[i..][0] == all[i] && all[i] in all[i..] && all[i] in all;
    assert BeyondCursor(cursor)(all[i]) == Beyond(all[i], cursor);
    if Beyond(all[i], cursor) {
      forall k | 0 <= k < |all| ensures BeyondCursor(cursor)(all[k]) <==> i <= k {
        BeyondPositions(all, i, k);
      }
      FilterFrom(BeyondCursor(cursor), all, i);
    }
  }

  /** The cursor after row i - 1 leads to row i: it can be read, and row i is beyond it. */
  predicate Splits(all: seq<Transaction>, i: nat)
    requires i <= |all|
  {
    0 < i < |all| ==> Readable(CursorAt(all, i)) && Beyond(all[i], CursorAt(all, i))
  }

  /** The query behind the cursor of a row finds exactly the rest of the list if and only if the next row
      is beyond that cursor. */
  lemma {:induction false} BeyondIsTheRest(rows: seq<Transaction>, userId: string, filters: Filters, i: nat)
    requires KeysDistinct(rows) && i < |All(rows, userId, filters)|
    ensures var all := All(rows, userId, filters);
            Sort(NewestFirst(), Filter(MatchingBeyond(userId, filters, CursorAt(all, i)), rows)) == all[i..]
            <==> (i == 0 || Beyond(all[i], CursorAt(all, i)))
  {
    hide Filter, Sort, Matches, Newer, CursorOf, All, KeysDistinct;
    var all := All(rows, userId, filters);
    AllIsStrict(rows, userId, filters);
    QueryFilters(rows, userId, filters, CursorAt(all, i));
    if i == 0 {
      FilterFrom(BeyondCursor(None), all, 0);
    } else {
      RestIsBeyondIff(all, i);
    }
  }

  lemma {:induction false} PageOfStretch(all: seq<Transaction>, i: nat, limit: nat)
    requires limit >= 1 && i <= |all|
    ensures var page := PageOf(all[i..], limit);
            && page.data == Take(all[i..], limit)
            && page.hasMore == (i + limit < |all|)
            && page.nextCursor == if page.hasMore then CursorAt(all, i + limit) else None
  {
    hide CursorOf;
    var rest := all[i..];
    if i + limit < |all| {
      assert Take(rest, limit + 1)[..limit] == rest[..limit];
      assert rest[limit - 1] == all[i + limit - 1];
    }
  }

  /** Where the cursor splits the list, the page behind it is the next stretch of the list. */
  lemma {:induction false} PageAt(rows: seq<Transaction>, userId: string, limit: nat, filters: Filters, i: nat)
    requires KeysDistinct(rows) && limit >= 1
    requires var all := All(rows, userId, filters); (i < |all| || i == 0) && Splits(all, i)
    ensures var all := All(rows, userId, filters);
            var page := ListWithCursor(rows, userId, limit, CursorAt(all, i), filters);
            && page.Ok?
            && page.value.data == Take(all[i..], limit)
            && page.value.hasMore == (i + limit < |all|)
            && page.value.nextCursor == if page.value.hasMore then CursorAt(all, i + limit) else None
  {
    hide All, CursorOf, Filter, Sort, KeysDistinct, PageOf;
    var all := All(rows, userId, filters);
    if i < |all| {
      BeyondIsTheRest(rows, userId, filters, i);
    } else {
      QueryFilters(rows, userId, filters, None);
      FilterFrom(BeyondCursor(None), all, 0);
    }
    PageOfStretch(all, i, limit);
  }

  /** Where it does not, asking for the page fails, or the pages from there on do not show the rest. */
  lemma {:induction false} MissedAt(rows: seq<Transaction>, userId: string, limit: nat, filters: Filters, i: nat, most: nat)
    requires KeysDistinct(rows) && limit >= 1 && most >= 1
    requires var all := All(rows, userId, filters); 0 < i < |all| && !Splits(all, i)
    ensures var all := All(rows, userId, filters);
            var followed := Follow(rows, userId, limit, CursorAt(all, i), filters, most);
            followed.Ok? ==> Shown(followed.value) != all[i..]
  {
    hide All, CursorOf, Filter, Sort, KeysDistinct, Beyond;
    var all := All(rows, userId, filters);
    var cursor := CursorAt(all, i);
    if Readable(cursor) {
      AllIsStrict(rows, userId, filters);
      QueryFilters(rows, userId, filters, cursor);
      RestIsBeyondIff(all, i);
      var found := Filter(BeyondCursor(cursor), all);
      var page := PageOf(found, limit);
      assert page.data != [] ==> page.data[0] == found[0];
      assert all[i..][0] == all[i];
      var followed := Follow(rows, userId, limit, cursor, filters, most);
      if followed.Ok? {
        assert followed.value[0] == page;
        assert Shown(followed.value) == page.data + Shown(followed.value[1..]);
        if page.data == [] {
          assert followed.value == [page] && [page][1..] == [];
        }
      }
    }
  }

  // --- following the cursors to the end ---

  ghost predicate ProperPages(pages: seq<Page>, limit: nat) {
    && pages != []
    && (forall k :: 0 <= k < |pages| - 1 ==> pages[k].hasMore && pages[k].nextCursor.Some? && |pages[k].data| == limit)
    && !pages[|pages| - 1].hasMore && pages[|pages| - 1].nextCursor == None
  }

  /** The cursors between full pages of this size, from position i on, all split the list. */
  ghost predicate SplitsBetween(all: seq<Transaction>, limit: nat, i: nat)
    requires limit >= 1
  {
    forall j: nat :: i < j < |all| && j % limit == 0 ==> Splits(all, j)
  }

  lemma {:induction false} AtLeastOnce(limit: nat, k: int)
    requires k >= 1
    ensures limit * k >= limit
  {
  }

  /** A multiple of the limit that is less than the limit away from zero is zero. */
  lemma {:induction false} SmallMultiple(limit: nat, k: int)
    requires 0 < limit * k + limit && limit * k < limit
    ensures k == 0
  {
    if k >= 1 {
      AtLeastOnce(limit, k);
    } else if k <= -1 {
      AtLeastOnce(limit, -k);
    }
  }

  lemma {:induction false} MultiplesApart(i: nat, j: nat, limit: nat)
    requires limit >= 1 && i % limit == 0
    ensures (i + limit) % limit == 0
    ensures i < j && j % limit == 0 ==> i + limit <= j
  {
    var m := i / limit;
    var next := (i + limit) / limit;
    assert i == limit * m && i + limit == limit * next + (i + limit) % limit;
    assert limit * (m + 1 - next) == (i + limit) % limit;
    SmallMultiple(limit, m + 1 - next);
    if i < j < i + limit && j % limit == 0 {
      assert j == limit * (j / limit) && limit * (j / limit - m) == j - i;
      SmallMultiple(limit, j / limit - m);
    }
  }

  lemma {:induction false} SplitsNext(all: seq<Transaction>, limit: nat, i: nat)
    requires limit >= 1 && i % limit == 0
    ensures i + limit < |all| ==> (SplitsBetween(all, limit, i) <==> Splits(all, i + limit) && SplitsBetween(all, limit, i + limit))
    ensures i + limit >= |all| ==> SplitsBetween(all, limit, i)
  {
    hide Splits;
    MultiplesApart(i, i, limit);
    forall j: nat | i < j < |all| && j % limit == 0 ensures i + limit <= j {
      MultiplesApart(i, j, limit);
    }
  }

  ghost predicate Exact(followed: Result<seq<Page>, string>, rest: seq<Transaction>, limit: nat) {
    followed.Ok? && Shown(followed.value) == rest && ProperPages(followed.value, limit)
  }

  ghost predicate ShowsRest(followed: Result<seq<Page>, string>, rest: seq<Transaction>) {
    followed.Ok? && Shown(followed.value) == rest
  }

  lemma {:induction false} FollowFrom(rows: seq<Transaction>, userId: string, limit: nat, filters: Filters, i: nat, most: nat)
    requires KeysDistinct(rows) && limit >= 1 && i % limit == 0
    requires var all := All(rows, userId, filters); (i < |all| || i == 0) && Splits(all, i) && most > |all| - i
    ensures var all := All(rows, userId, filters);
            var followed := Follow(rows, userId, limit, CursorAt(all, i), filters, most);
            && (SplitsBetween(all, limit, i) ==> Exact(followed, all[i..], limit))
            && (ShowsRest(followed, all[i..]) ==> SplitsBetween(all, limit, i))
    decreases most
  {
    hide All, CursorOf, ListWithCursor, KeysDistinct, Shown, ProperPages, SplitsBetween, Splits;
    var all := All(rows, userId, filters);
    PageAt(rows, userId, limit, filters, i);
    var page := ListWithCursor(rows, userId, limit, CursorAt(all, i), filters).value;
    SplitsNext(all, limit, i);
    if page.hasMore {
      var rest := Follow(rows, userId, limit, page.nextCursor, filters, most - 1);
      assert all[i..] == Take(all[i..], limit) + all[i + limit..];
      if rest.Ok? {
        ShownInFront(page, rest.value);
      }
      if Splits(all, i + limit) {
        MultiplesApart(i, i, limit);
        FollowFrom(rows, userId, limit, filters, i + limit, most - 1);
        if SplitsBetween(all, limit, i) {
          PageInFront(page, rest.value, limit);
        }
      } else {
        MissedAt(rows, userId, limit, filters, i + limit, most - 1);
      }
    } else {
      LastPage(page, limit);
      assert Take(all[i..], limit) == all[i..];
    }
  }

  lemma {:induction false} ShownInFront(page: Page, rest: seq<Page>)
    ensures Shown([page] + rest) == page.data + Shown(rest)
  {
    assert ([page] + rest)[1..] == rest;
  }

  lemma {:induction false} PageInFront(page: Page, rest: seq<Page>, limit: nat)
    requires ProperPages(rest, limit) && page.hasMore && page.nextCursor.Some? && |page.data| == limit
    ensures ProperPages([page] + rest, limit)
  {
    var pages := [page] + rest;
    assert forall k :: 1 <= k < |pages| ==> pages[k] == rest[k - 1];
  }

  lemma {:induction false} LastPage(page: Page, limit: nat)
    requires !page.hasMore && page.nextCursor == None
    ensures ProperPages([page], limit) && Shown([page]) == page.data
  {
    assert [page][1..] == [];
    assert Shown([]) == [];
  }

  /** When pages of one size are exact: on a fixed table with distinct (timestamp, id), following the cursors
      from the start shows every matching row once, newest first, if and only if at each end of a full page
      the row's cursor can be read and leads to the next row. The pages are then proper too: every page but
      the last is full and says that there is more, and the last says that there is not. */
  lemma {:induction false} PagesExactIff(rows: seq<Transaction>, userId: string, limit: nat, filters: Filters, most: nat)
    requires KeysDistinct(rows) && limit >= 1 && most > |All(rows, userId, filters)|
    ensures var all := All(rows, userId, filters);
            var followed := Follow(rows, userId, limit, None, filters, most);
            && (ShowsRest(followed, all) <==> SplitsBetween(all, limit, 0))
            && (Exact(followed, all, limit) <==> SplitsBetween(all, limit, 0))
  {
    hide All, KeysDistinct, Follow, ProperPages, SplitsBetween, Shown;
    assert All(rows, userId, filters)[0..] == All(rows, userId, filters);
    FollowFrom(rows, userId, limit, filters, 0, most);
  }

  /** Following the cursors shows the whole list whatever the size of the pages. */
  ghost predicate EverySizeExact(rows: seq<Transaction>, userId: string, filters: Filters) {
    var all := All(rows, userId, filters);
    forall limit: nat, most: nat :: limit >= 1 && most > |all| ==>
      Exact(Follow(rows, userId, limit, None, filters, most), all, limit)
  }

  ghost predicate EveryCursorSplits(all: seq<Transaction>) {
    forall i: nat :: i <= |all| ==> Splits(all, i)
  }

  lemma {:induction false} SizeOneBetween(all: seq<Transaction>)
    ensures SplitsBetween(all, 1, 0) <==> EveryCursorSplits(all)
  {
    forall i: nat | i <= |all| && SplitsBetween(all, 1, 0) ensures Splits(all, i) {
      assert i % 1 == 0;
    }
  }

  /** Pages of every size are exact if and only if each row's cursor but the last leads to the next row. */
  lemma {:induction false} AllSizesExactIff(rows: seq<Transaction>, userId: string, filters: Filters)
    requires KeysDistinct(rows)
    ensures EverySizeExact(rows, userId, filters) <==> EveryCursorSplits(All(rows, userId, filters))
  {
    hide All, KeysDistinct, Follow, Exact, Splits;
    var all := All(rows, userId, filters);
    SizeOneBetween(all);
    if EveryCursorSplits(all) {
      forall limit: nat, most: nat | limit >= 1 && most > |all|
        ensures Exact(Follow(rows, userId, limit, None, filters, most), all, limit)
      {
        PagesExactIff(rows, userId, limit, filters, most);
      }
    }
    if EverySizeExact(rows, userId, filters) {
      assert Exact(Follow(rows, userId, 1, None, filters, |all| + 1), all, 1);
      PagesExactIff(rows, userId, 1, filters, |all| + 1);
    }
  }

  /** A row whose time is whole milliseconds and whose id holds no bar leads to every older row. */
  lemma {:induction false} ExactRowsSplit(all: seq<Transaction>, i: nat)
    requires StrictlyNewestFirst(all) && i <= |all| && (i > 0 ==> CursorExact(all[i - 1]))
    ensures Splits(all, i)
  {
    if 0 < i < |all| {
      ExactCursor(all[i - 1]);
      assert Newer(all[i - 1], all[i]);
    }
  }

  /** Pagination is exact for the rows the backend stores, whole milliseconds and ids without a bar: with any
      limit of at least one following the cursors ends after at most one page more than there are rows to
      show, and the pages together show every matching row once, newest first. Rows that the query never
      returns may have any cursor. */
  lemma {:induction false} PagesAreExact(rows: seq<Transaction>, userId: string, limit: nat, filters: Filters, most: nat)
    requires KeysDistinct(rows) && limit >= 1 && (forall row :: row in All(rows, userId, filters) ==> CursorExact(row))
    requires most > |All(rows, userId, filters)|
    ensures Exact(Follow(rows, userId, limit, None, filters, most), All(rows, userId, filters), limit)
  {
    hide All, KeysDistinct, CursorExact, Follow, Exact, Splits;
    var all := All(rows, userId, filters);
    AllIsStrict(rows, userId, filters);
    forall i: nat | i <= |all| ensures Splits(all, i) {
      assert i > 0 ==> all[i - 1] in all;
      ExactRowsSplit(all, i);
    }
    PagesExactIff(rows, userId, limit, filters, most);
  }

  // --- which rows are listed ---

  /** What the caller asks for: a row of the user that meets every bound that is given, ends included. */
  predicate AskedFor(row: Transaction, userId: string, filters: Filters) {
    && row.userId == userId
    && (filters.vaultId == None || filters.vaultId == Some(row.vaultId))
    && (filters.transactionType == None || filters.transactionType == Some(row.transactionType))
    && (filters.dateFrom == None || filters.dateFrom.value <= row.timestamp)
    && (filters.dateTo == None || row.timestamp <= filters.dateTo.value)
    && (filters.amountMin == None || filters.amountMin.value <= row.amount)
    && (filters.amountMax == None || row.amount <= filters.amountMax.value)
  }

  /** Whatever cursor and limit a client sends, every row on a page is in the table and asked for. */
  lemma {:induction false} PageShowsOnlyAskedFor(rows: seq<Transaction>, userId: string, limit: nat, cursor: Option<Cursor>, filters: Filters)
    ensures var page := ListWithCursor(rows, userId, limit, cursor, filters);
            page.Ok? ==> |page.value.data| <= limit && forall row :: row in page.value.data ==> row in rows && AskedFor(row, userId, filters)
  {
    hide Filter, Sort;
    var keep := MatchingBeyond(userId, filters, cursor);
    SortElements(NewestFirst(), Filter(keep, rows));
    FilterElements(keep, rows);
    var found := Sort(NewestFirst(), Filter(keep, rows));
    if Readable(cursor) {
      PageFromFound(found, limit);
      forall row | row in PageOf(found, limit).data ensures row in rows && AskedFor(row, userId, filters) {
        assert row in Filter(keep, rows);
      }
    }
  }

  lemma {:induction false} PageFromFound(found: seq<Transaction>, limit: nat)
    ensures |PageOf(found, limit).data| <= limit
    ensures forall row :: row in PageOf(found, limit).data ==> row in found
  {
    hide CursorOf;
  }

  /** So no page that a client can reach by following cursors shows anything else. */
  lemma {:induction false} PagesShowOnlyAskedFor(rows: seq<Transaction>, userId: string, limit: nat, cursor: Option<Cursor>, filters: Filters,
                                                 most: nat)
    ensures var followed := Follow(rows, userId, limit, cursor, filters, most);
            followed.Ok? ==>
              forall k :: 0 <= k < |followed.value| ==>
                forall row :: row in followed.value[k].data ==> row in rows && AskedFor(row, userId, filters)
    decreases most
  {
    hide ListWithCursor, AskedFor;
    if most > 0 {
      PageShowsOnlyAskedFor(rows, userId, limit, cursor, filters);
      var page := ListWithCursor(rows, userId, limit, cursor, filters);
      if page.Ok? && page.value.nextCursor.Some? {
        PagesShowOnlyAskedFor(rows, userId, limit, page.value.nextCursor, filters, most - 1);
        var rest := Follow(rows, userId, limit, page.value.nextCursor, filters, most - 1);
        if rest.Ok? {
          assert forall k :: 1 <= k < |[page.value] + rest.value| ==> ([page.value] + rest.value)[k] == rest.value[k - 1];
        }
      }
    }
  }

  lemma {:induction false} AllIsAskedFor(rows: seq<Transaction>, userId: string, filters: Filters)
    ensures forall row :: row in All(rows, userId, filters) <==> row in rows && AskedFor(row, userId, filters)
    ensures |All(rows, userId, filters)| <= |rows|
  {
    hide Filter, Sort;
    SortElements(NewestFirst(), Filter(Matching(userId, filters), rows));
    FilterElements(Matching(userId, filters), rows);
  }

  /** And nothing that is asked for is missing: when the rows asked for have exact cursors, the pages that
      follow the cursors from the start show a row of the table if and only if it is asked for, in strictly
      descending order, so none twice. */
  lemma {:induction false} PagesShowAllAskedFor(rows: seq<Transaction>, userId: string, limit: nat, filters: Filters, most: nat)
    requires KeysDistinct(rows) && limit >= 1 && most > |rows|
    requires forall row :: row in rows && AskedFor(row, userId, filters) ==> CursorExact(row)
    ensures var followed := Follow(rows, userId, limit, None, filters, most);
            && followed.Ok?
            && (forall row :: row in Shown(followed.value) <==> row in rows && AskedFor(row, userId, filters))
            && StrictlyNewestFirst(Shown(followed.value))
  {
    hide All, KeysDistinct, CursorExact, Follow, AskedFor, ProperPages, StrictlyNewestFirst, Shown;
    AllIsAskedFor(rows, userId, filters);
    AllIsStrict(rows, userId, filters);
    PagesAreExact(rows, userId, limit, filters, most);
  }

  // --- where it is not exact ---

  /** A timestamp inside a millisecond is cut off in the cursor, so an older row inside the same millisecond
      is not beyond it: whenever two neighbours of the list are like that, pages of one row miss the second. */
  lemma {:induction false} SubMillisecondRowsAreSkipped(rows: seq<Transaction>, userId: string, filters: Filters, i: nat, most: nat)
    requires KeysDistinct(rows) && most > |All(rows, userId, filters)|
    requires var all := All(rows, userId, filters);
             0 < i < |all| && all[i - 1].timestamp / 1000 == all[i].timestamp / 1000 && all[i].timestamp % 1000 != 0
    ensures var all := All(rows, userId, filters);
            !Splits(all, i) && !ShowsRest(Follow(rows, userId, 1, None, filters, most), all)
  {
    hide All, KeysDistinct, Follow, ShowsRest, BeforeBar;
    var all := All(rows, userId, filters);
    assert i % 1 == 0;
    assert !Splits(all, i);
    PagesExactIff(rows, userId, 1, filters, most);
  }

  /** With the limit 0 a page says that there is more but gives no cursor to get at it. */
  lemma {:induction false} LimitZeroGoesNowhere(rows: seq<Transaction>, userId: string, cursor: Option<Cursor>, filters: Filters)
    ensures var page := ListWithCursor(rows, userId, 0, cursor, filters);
            if !Readable(cursor) then page == Err(INVALID_CURSOR)
            else page.Ok? && page.value.data == [] && page.value.nextCursor == None
                 && (page.value.hasMore <==> Filter(MatchingBeyond(userId, filters, cursor), rows) != [])
  {
    hide Filter, Sort;
  }
}
