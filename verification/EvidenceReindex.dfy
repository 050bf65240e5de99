/** The resumable reindexing of milestone embeddings: one batch with its crashes, and runs of batches. */
module EvidenceReindex {
  import opened Wrappers
  import opened Sorting

  datatype BatchResult = BatchResult(processed: nat, reindexed: nat, skippedUpToDate: nat, cursor: Option<string>, done: bool)

  datatype RunResult = RunResult(
    batches: nat, processed: nat, reindexed: nat, skippedUpToDate: nat, cursor: Option<string>, done: bool)

  function Ascending(): (string, string) -> bool {
    (a: string, b: string) => TextLeq(a, b)
  }

  predicate IsAfter(id: string, cursor: Option<string>) {
    cursor.Some? ==> TextLess(cursor.value, id)
  }

  function After(cursor: Option<string>): string -> bool {
    (id: string) => IsAfter(id, cursor)
  }

  /** The milestones after the cursor, in ascending order of their ids. */
  function Remaining(table: seq<string>, cursor: Option<string>): seq<string> {
    Sort(Ascending(), Filter(After(cursor), table))
  }

  function ListMilestonesAfter(table: seq<string>, cursor: Option<string>, limit: nat): seq<string> {
    var rest := Remaining(table, cursor);
    if limit <= |rest| then rest[..limit] else rest
  }

  predicate Current(embeddings: map<string, string>, id: string, version: string) {
    id in embeddings && embeddings[id] == version
  }

  /** How many of these milestones have an embedding of the version. */
  function CountCurrent(embeddings: map<string, string>, ids: seq<string>, version: string): nat {
    if ids == [] then 0
    else CountCurrent(embeddings, ids[..|ids| - 1], version) + (if Current(embeddings, ids[|ids| - 1], version) then 1 else 0)
  }

  /** Every milestone up to the cursor has a current embedding; without a cursor nothing is claimed. */
  predicate CaughtUp(table: seq<string>, embeddings: map<string, string>, cursor: Option<string>, version: string) {
    forall i :: 0 <= i < |table| && cursor.Some? && !TextLess(cursor.value, table[i]) ==> Current(embeddings, table[i], version)
  }

  predicate AllCurrent(table: seq<string>, embeddings: map<string, string>, version: string) {
    forall i :: 0 <= i < |table| ==> Current(embeddings, table[i], version)
  }

  // --- the order of ids ---

  lemma {:induction false} AscendingOrder()
    ensures TotalPreorder(Ascending())
  {
    forall a, b ensures TextLeq(a, b) || TextLeq(b, a) {
      TextLessTotal(a, b);
    }
    forall a, b, c | TextLeq(a, b) && TextLeq(b, c) ensures TextLeq(a, c) {
      if a != b && b != c {
        TextLessTransitive(a, b, c);
      }
    }
  }

  lemma {:induction false} RemainingElements(table: seq<string>, cursor: Option<string>)
    ensures forall id :: id in Remaining(table, cursor) <==> id in table && IsAfter(id, cursor)
    ensures |Remaining(table, cursor)| == |Filter(After(cursor), table)|
    ensures forall i, j :: 0 <= i < j < |Remaining(table, cursor)| ==>
              TextLeq(Remaining(table, cursor)[i], Remaining(table, cursor)[j])
  {
    AscendingOrder();
    FilterElements(After(cursor), table);
    SortElements(Ascending(), Filter(After(cursor), table));
    SortSorted(Ascending(), Filter(After(cursor), table));
    var rest := Remaining(table, cursor);
    forall i, j | 0 <= i < j < |rest| ensures TextLeq(rest[i], rest[j]) {
      assert Ascending()(rest[i], rest[j]);
    }
  }

  /** Moving the cursor up to the end of a page leaves behind what the page did not hold. */
  lemma {:induction false} CursorMoves(table: seq<string>, cursor: Option<string>, k: nat, id: string)
    requires k < |Remaining(table, cursor)| && id in table
    requires !TextLess(Remaining(table, cursor)[k], id)
    ensures !IsAfter(id, cursor) || id in Remaining(table, cursor)[..k + 1]
  {
    hide Remaining, IsAfter;
    var rest := Remaining(table, cursor);
    RemainingElements(table, cursor);
    if IsAfter(id, cursor) {
      var i :| 0 <= i < |rest| && rest[i] == id;
      if i > k {
        TextLessTotal(rest[k], rest[i]);
        assert rest[i] == rest[k];
        assert rest[..k + 1][k] == id;
      } else {
        assert rest[..k + 1][i] == id;
      }
    }
  }

  /** The page takes its milestones off the remaining ones: the cursor is put past at least `k + 1` of them. */
  lemma {:induction false} CursorShrinks(table: seq<string>, cursor: Option<string>, k: nat)
    requires k < |Remaining(table, cursor)|
    ensures |Remaining(table, Some(Remaining(table, cursor)[k]))| <= |Remaining(table, cursor)| - (k + 1)
  {
    hide Remaining, IsAfter;
    var rest := Remaining(table, cursor);
    var next := Some(rest[k]);
    RemainingElements(table, cursor);
    RemainingElements(table, next);
    NextFilter(table, cursor, next);
    LateOnly(rest, k);
    SortFilteredSize(table, cursor, next);
  }

  lemma {:induction false} LaterCursor(cursor: Option<string>, next: string, id: string)
    requires IsAfter(next, cursor) && TextLess(next, id)
    ensures IsAfter(id, cursor)
  {
    if cursor.Some? {
      TextLessTransitive(cursor.value, next, id);
    }
  }

  lemma {:induction false} NextFilter(table: seq<string>, cursor: Option<string>, next: Option<string>)
    requires next.Some? && IsAfter(next.value, cursor)
    ensures Filter(After(next), table) == Filter(After(next), Filter(After(cursor), table))
  {
    hide Filter;
    forall id | id in table ensures After(next)(id) <==> After(cursor)(id) && After(next)(id) {
      if TextLess(next.value, id) {
        LaterCursor(cursor, next.value, id);
      }
    }
    FilterBoth(After(cursor), After(next), After(next), table);
  }

  lemma {:induction false} SortFilteredSize(table: seq<string>, cursor: Option<string>, next: Option<string>)
    requires Filter(After(next), table) == Filter(After(next), Filter(After(cursor), table))
    ensures |Remaining(table, next)| == |Filter(After(next), Remaining(table, cursor))|
  {
    hide Filter, Sort;
    AscendingOrder();
    SortFiltered(Ascending(), After(next), Filter(After(cursor), table));
  }

  lemma {:induction false} LateOnly(rest: seq<string>, k: nat)
    requires k < |rest| && forall i, j :: 0 <= i < j < |rest| ==> TextLeq(rest[i], rest[j])
    ensures |Filter(After(Some(rest[k])), rest)| <= |rest| - (k + 1)
  {
    var keep := After(Some(rest[k]));
    var early := rest[..k + 1];
    assert rest == early + rest[k + 1..];
    forall i | 0 <= i <= k ensures !keep(early[i]) {
      TextLessTotal(rest[i], rest[k]);
    }
    NoneKept(keep, early);
    FilterAppend(keep, early, rest[k + 1..]);
    FilterElements(keep, rest[k + 1..]);
  }

  lemma {:induction false} NoneKept(keep: string -> bool, s: seq<string>)
    requires forall i :: 0 <= i < |s| ==> !keep(s[i])
    ensures Filter(keep, s) == []
    decreases |s|
  {
    if s != [] {
      NoneKept(keep, s[1..]);
    }
  }

  lemma {:induction false} PageCatchesUp(table: seq<string>, version: string, before: map<string, string>, after: map<string, string>,
                                         cursor: Option<string>, batchSize: nat)
    requires CaughtUp(table, before, cursor, version)
    requires forall id :: Current(before, id, version) ==> Current(after, id, version)
    requires var page := ListMilestonesAfter(table, cursor, batchSize);
             page != [] && forall i :: 0 <= i < |page| ==> Current(after, page[i], version)
    ensures var page := ListMilestonesAfter(table, cursor, batchSize);
            CaughtUp(table, after, Some(page[|page| - 1]), version)
  {
    hide Remaining, Current;
    var page := ListMilestonesAfter(table, cursor, batchSize);
    var rest := Remaining(table, cursor);
    var k := |page| - 1;
    assert page == rest[..k + 1] && page[k] == rest[k];
    forall i | 0 <= i < |table| && !TextLess(page[k], table[i]) ensures Current(after, table[i], version) {
      CursorMoves(table, cursor, k, table[i]);
      if table[i] in page {
        var j :| 0 <= j < |page| && page[j] == table[i];
      } else {
        assert cursor.Some? && !TextLess(cursor.value, table[i]);
      }
    }
  }

  /** A page that is shorter than asked for was the last: behind it every milestone is current. */
  lemma {:induction false} ShortPageIsLast(table: seq<string>, version: string, embeddings: map<string, string>, cursor: Option<string>,
                                           batchSize: nat, before: Option<string>)
    requires CaughtUp(table, embeddings, cursor, version) && batchSize >= 1
    requires var page := ListMilestonesAfter(table, before, batchSize);
             |page| < batchSize && cursor == if page == [] then before else Some(page[|page| - 1])
    ensures AllCurrent(table, embeddings, version)
  {
    hide Remaining, Current;
    var rest := Remaining(table, before);
    RemainingElements(table, before);
    forall i | 0 <= i < |table| ensures Current(embeddings, table[i], version) {
      if rest == [] {
        assert !IsAfter(table[i], before);
      } else {
        var last := rest[|rest| - 1];
        if IsAfter(table[i], before) {
          var j :| 0 <= j < |rest| && rest[j] == table[i];
          TextLessTotal(table[i], last);
          assert j < |rest| - 1 ==> TextLeq(rest[j], rest[|rest| - 1]);
        } else {
          NotPast(table[i], before, last);
        }
        assert !TextLess(last, table[i]);
      }
    }
  }

  lemma {:induction false} NotPast(id: string, cursor: Option<string>, last: string)
    requires !IsAfter(id, cursor) && IsAfter(last, cursor)
    ensures !TextLess(last, id)
  {
    if TextLess(last, id) {
      TextLessTransitive(cursor.value, last, id);
      assert false;
    }
  }

  // --- which embeddings are computed ---

  /** The embeddings of these milestones get the version, every other one stays as it is. */
  ghost predicate Stamped(before: map<string, string>, after: map<string, string>, ids: seq<string>, version: string) {
    && (forall id :: id in ids ==> Current(after, id, version))
    && (forall id :: id !in ids ==> (id in after <==> id in before) && (id in before ==> after[id] == before[id]))
  }

  /** The ids, milestones or not, that have an embedding of the version. */
  function CurrentIds(embeddings: map<string, string>, version: string): set<string> {
    set id | id in embeddings && embeddings[id] == version
  }

  lemma {:induction false} StampedIds(before: map<string, string>, after: map<string, string>, ids: seq<string>, version: string)
    requires Stamped(before, after, ids, version)
    ensures CurrentIds(after, version) == CurrentIds(before, version) + Elements(ids)
    ensures forall id :: Current(before, id, version) ==> Current(after, id, version)
  {
    forall id ensures Current(after, id, version) <==> Current(before, id, version) || id in ids {
    }
  }

  function Elements(ids: seq<string>): set<string> {
    set id | id in ids
  }

  /** Stamping distinct milestones makes those current that were not, and counts each once. */
  lemma {:induction false} NewlyCurrent(before: map<string, string>, ids: seq<string>, version: string)
    requires Distinct(ids)
    ensures |CurrentIds(before, version) + Elements(ids)| + CountCurrent(before, ids, version) == |CurrentIds(before, version)| + |ids|
    decreases |ids|
  {
    hide Elements, Distinct;
    var current := CurrentIds(before, version);
    if ids == [] {
      NoElements();
      assert current + Elements(ids) == current;
    } else {
      var n := |ids| - 1;
      LastElement(ids);
      NewlyCurrent(before, ids[..n], version);
      assert current + Elements(ids) == (current + Elements(ids[..n])) + {ids[n]};
      assert ids[n] in current <==> Current(before, ids[n], version);
    }
  }

  lemma {:induction false} NoElements()
    ensures Elements([]) == {}
  {
  }

  lemma {:induction false} LastElement(ids: seq<string>)
    requires ids != []
    ensures Elements(ids) == Elements(ids[..|ids| - 1]) + {ids[|ids| - 1]}
    ensures Distinct(ids) <==> Distinct(ids[..|ids| - 1]) && ids[|ids| - 1] !in Elements(ids[..|ids| - 1])
  {
  }

  lemma {:induction false} StampNothing(embeddings: map<string, string>, ids: seq<string>, version: string)
    ensures Stamped(embeddings, embeddings, ids[..0], version)
  {
  }

  lemma {:induction false} StampNext(before: map<string, string>, after: map<string, string>, ids: seq<string>, n: nat, version: string)
    requires n < |ids| && Stamped(before, after, ids[..n], version)
    ensures Stamped(before, after[ids[n] := version], ids[..n + 1], version)
    ensures Current(before, ids[n], version) ==> Stamped(before, after, ids[..n + 1], version)
  {
    assert ids[..n + 1] == ids[..n] + [ids[n]];
  }

  lemma {:induction false} DistinctSize(ids: seq<string>)
    ensures |Elements(ids)| <= |ids|
    ensures Distinct(ids) <==> |Elements(ids)| == |ids|
    decreases |ids|
  {
    hide Elements;
    if ids != [] {
      DistinctSize(ids[..|ids| - 1]);
      LastElement(ids);
    } else {
      NoElements();
    }
  }

  lemma {:induction false} FilterDistinct(keep: string -> bool, ids: seq<string>)
    requires Distinct(ids)
    ensures Distinct(Filter(keep, ids))
    decreases |ids|
  {
    if ids != [] {
      FilterDistinct(keep, ids[1..]);
      FilterElements(keep, ids[1..]);
    }
  }

  lemma {:induction false} PageDistinct(table: seq<string>, cursor: Option<string>, limit: nat)
    requires Distinct(table)
    ensures Distinct(ListMilestonesAfter(table, cursor, limit))
  {
    hide Filter, Sort;
    var rest := Filter(After(cursor), table);
    FilterDistinct(After(cursor), table);
    SortElements(Ascending(), rest);
    DistinctSize(rest);
    DistinctSize(Sort(Ascending(), rest));
    assert Elements(rest) == Elements(Sort(Ascending(), rest));
  }

  lemma {:induction false} StampedCaughtUp(table: seq<string>, version: string, before: map<string, string>, after: map<string, string>,
                                           cursor: Option<string>, ids: seq<string>)
    requires CaughtUp(table, before, cursor, version) && Stamped(before, after, ids, version)
    ensures CaughtUp(table, after, cursor, version)
    ensures forall id :: Current(before, id, version) ==> Current(after, id, version)
    ensures forall i :: 0 <= i < |ids| ==> Current(after, ids[i], version)
  {
    hide Current, CurrentIds, Elements;
    StampedIds(before, after, ids, version);
  }

  // --- one batch ---

  /** What a reindexing leaves in the database: the embeddings and the cursor. */
  datatype Stored = Stored(embeddings: map<string, string>, cursor: Option<string>)

  /** One batch, which with `crash` dies after that many milestones of its page: exactly the embeddings of the
      milestones of its page, or those before its death, get the version, and either the batch dies with the cursor
      where it was, or it finds nothing and reports done, or the cursor is at the end of its page. */
  ghost predicate BatchLeads(table: seq<string>, version: string, batchSize: nat, before: Stored, crash: Option<nat>, after: Stored,
                             r: Option<BatchResult>) {
    var page := ListMilestonesAfter(table, before.cursor, batchSize);
    && Stamped(before.embeddings, after.embeddings,
               if crash.Some? && crash.value <= |page| then page[..crash.value] else page, version)
    && (r.None? ==> after.cursor == before.cursor)
    && (r.None? <==> page != [] && crash.Some?)
    && (r.Some? && page == [] ==> after == before && r.value == BatchResult(0, 0, 0, before.cursor, true))
    && (r.Some? && page != [] ==>
          && after.cursor == r.value.cursor == Some(page[|page| - 1])
          && r.value.processed == |page| == r.value.reindexed + r.value.skippedUpToDate
          && r.value.skippedUpToDate == CountCurrent(before.embeddings, page, version)
          && (r.value.done <==> |page| < batchSize))
  }

  /** With a batch size of zero a batch reports done although it looked at nothing and changed nothing. */
  lemma {:induction false} BatchSizeZeroFindsNothing(table: seq<string>, version: string, before: Stored, crash: Option<nat>,
                                                     after: Stored, r: Option<BatchResult>)
    requires BatchLeads(table, version, 0, before, crash, after, r)
    ensures r == Some(BatchResult(0, 0, 0, before.cursor, true)) && after == before
  {
    hide Remaining;
    assert ListMilestonesAfter(table, before.cursor, 0) == [];
  }

  // --- repeated runs ---

  /** Batch after batch, some of which die: whether a batch belongs to the run that made the one before or
      to a later one makes no difference, since all that a run takes over is stored. */
  ghost predicate BatchesLead(table: seq<string>, version: string, batchSize: nat, states: seq<Stored>, crashes: seq<Option<nat>>,
                              results: seq<Option<BatchResult>>) {
    && |states| == |results| + 1 && |crashes| == |results|
    && (forall k :: 0 <= k < |results| ==>
          BatchLeads(table, version, batchSize, states[k], crashes[k], states[k + 1], results[k]))
  }

  function Finished(results: seq<Option<BatchResult>>): nat {
    if results == [] then 0 else (if results[0].Some? then 1 else 0) + Finished(results[1..])
  }

  lemma {:induction false} BatchLosesNothing(table: seq<string>, version: string, batchSize: nat, before: Stored, crash: Option<nat>,
                                             after: Stored, r: Option<BatchResult>)
    requires BatchLeads(table, version, batchSize, before, crash, after, r)
    ensures forall id :: Current(before.embeddings, id, version) ==> Current(after.embeddings, id, version)
    ensures r.Some? ==> forall i :: 0 <= i < |ListMilestonesAfter(table, before.cursor, batchSize)| ==>
                          Current(after.embeddings, ListMilestonesAfter(table, before.cursor, batchSize)[i], version)
  {
    hide ListMilestonesAfter, CountCurrent;
    var page := ListMilestonesAfter(table, before.cursor, batchSize);
    var ids := if crash.Some? && crash.value <= |page| then page[..crash.value] else page;
    StampedIds(before.embeddings, after.embeddings, ids, version);
  }

  /** A finished batch computes each missing embedding of its page once and no other. */
  lemma {:induction false} ReindexedAreNew(table: seq<string>, version: string, batchSize: nat, before: Stored, crash: Option<nat>,
                                           after: Stored, r: BatchResult)
    requires Distinct(table) && BatchLeads(table, version, batchSize, before, crash, after, Some(r))
    ensures |CurrentIds(after.embeddings, version)| == |CurrentIds(before.embeddings, version)| + r.reindexed
  {
    hide ListMilestonesAfter, CountCurrent, Stamped, CurrentIds;
    var page := ListMilestonesAfter(table, before.cursor, batchSize);
    PageDistinct(table, before.cursor, batchSize);
    if page != [] {
      StampedIds(before.embeddings, after.embeddings, page, version);
      NewlyCurrent(before.embeddings, page, version);
    }
  }

  lemma {:induction false} BatchKeeps(table: seq<string>, version: string, batchSize: nat, before: Stored, crash: Option<nat>,
                                      after: Stored, r: Option<BatchResult>)
    requires BatchLeads(table, version, batchSize, before, crash, after, r)
    requires CaughtUp(table, before.embeddings, before.cursor, version)
    ensures CaughtUp(table, after.embeddings, after.cursor, version)
    ensures AllCurrent(table, before.embeddings, version) ==> AllCurrent(table, after.embeddings, version)
    ensures r.Some? && r.value.done && batchSize >= 1 ==> AllCurrent(table, after.embeddings, version)
    ensures r.Some? && !r.value.done && batchSize >= 1 ==>
              |Remaining(table, after.cursor)| + batchSize <= |Remaining(table, before.cursor)|
  {
    hide Remaining, Current, Stamped;
    var page := ListMilestonesAfter(table, before.cursor, batchSize);
    BatchLosesNothing(table, version, batchSize, before, crash, after, r);
    if r.Some? {
      if page != [] {
        PageCatchesUp(table, version, before.embeddings, after.embeddings, before.cursor, batchSize);
        CursorShrinks(table, before.cursor, |page| - 1);
      }
      if r.value.done && batchSize >= 1 {
        ShortPageIsLast(table, version, after.embeddings, after.cursor, batchSize, before.cursor);
      }
    }
  }

  lemma {:induction false} StaysCurrent(table: seq<string>, version: string, batchSize: nat, states: seq<Stored>, crashes: seq<Option<nat>>,
                                        results: seq<Option<BatchResult>>)
    requires BatchesLead(table, version, batchSize, states, crashes, results) && AllCurrent(table, states[0].embeddings, version)
    ensures AllCurrent(table, states[|states| - 1].embeddings, version)
    decreases |results|
  {
    hide Remaining, Current, CountCurrent, CaughtUp, BatchLeads;
    if results != [] {
      BatchLosesNothing(table, version, batchSize, states[0], crashes[0], states[1], results[0]);
      StaysCurrent(table, version, batchSize, states[1..], crashes[1..], results[1..]);
    }
  }

  /** Crashes only delay: whatever dies in between, once more batches have finished than there were
      milestones after the cursor, one of them has reported done and every milestone is current. */
  lemma {:induction false} CrashesOnlyDelay(table: seq<string>, version: string, batchSize: nat, states: seq<Stored>,
                                            crashes: seq<Option<nat>>, results: seq<Option<BatchResult>>)
    requires batchSize >= 1 && BatchesLead(table, version, batchSize, states, crashes, results)
    requires CaughtUp(table, states[0].embeddings, states[0].cursor, version)
    requires Finished(results) > |Remaining(table, states[0].cursor)|
    ensures AllCurrent(table, states[|states| - 1].embeddings, version)
    ensures exists k :: 0 <= k < |results| && results[k].Some? && results[k].value.done
    decreases |results|
  {
    hide Remaining, Current, CountCurrent, CaughtUp, BatchLeads, AllCurrent;
    var r := results[0];
    BatchKeeps(table, version, batchSize, states[0], crashes[0], states[1], r);
    if r.Some? && r.value.done {
      StaysCurrent(table, version, batchSize, states[1..], crashes[1..], results[1..]);
    } else {
      if r.None? {
        CrashKeepsCursor(table, version, batchSize, states[0], crashes[0], states[1]);
      }
      CrashesOnlyDelay(table, version, batchSize, states[1..], crashes[1..], results[1..]);
      var k :| 0 <= k < |results[1..]| && results[1..][k].Some? && results[1..][k].value.done;
      assert results[k + 1] == results[1..][k];
    }
  }

  lemma {:induction false} CrashKeepsCursor(table: seq<string>, version: string, batchSize: nat, before: Stored, crash: Option<nat>, after: Stored)
    requires BatchLeads(table, version, batchSize, before, crash, after, None)
    ensures after.cursor == before.cursor
  {
    hide ListMilestonesAfter, Current;
  }

  // --- the reindexer ---

  class EvidenceReindexer {
    /** The ids of the milestones table. */
    const table: seq<string>
    const modelVersion: string
    var embeddings: map<string, string>
    var cursor: Option<string>

    predicate Valid()
      reads this
    {
      CaughtUp(table, embeddings, cursor, modelVersion)
    }

    constructor (table: seq<string>, modelVersion: string, embeddings: map<string, string>)
      ensures Valid() && this.table == table && this.modelVersion == modelVersion
      ensures this.embeddings == embeddings && cursor == None
    {
      this.table, this.modelVersion, this.embeddings := table, modelVersion, embeddings;
      cursor := None;
    }

    /** One batch. With `crash` the process dies after that many milestones of the page, or, if the page is
        shorter, right before the cursor is written; the result is then lost. A death after the cursor was
        written leaves what a finished batch leaves. */
    method ReindexEvidenceBatch(batchSize: nat, crash: Option<nat>) returns (r: Option<BatchResult>)
      requires Valid()
      modifies this
      ensures Valid()
      ensures BatchLeads(table, modelVersion, batchSize, old(Stored(embeddings, cursor)), crash, Stored(embeddings, cursor), r)
    {
      hide Remaining, IsAfter, Stamped, CaughtUp, ListMilestonesAfter;
      var milestones := ListMilestonesAfter(table, cursor, batchSize);
      StampNothing(embeddings, milestones, modelVersion);
      if |milestones| == 0 {
        assert milestones[..0] == milestones;
        return Some(BatchResult(0, 0, 0, cursor, true));
      }
      var existingVersions := embeddings;
      var reindexed, skippedUpToDate := 0, 0;
      for i := 0 to |milestones|
        invariant cursor == old(cursor) && reindexed + skippedUpToDate == i && (crash.Some? ==> crash.value >= i)
        invariant skippedUpToDate == CountCurrent(existingVersions, milestones[..i], modelVersion)
        invariant Stamped(existingVersions, embeddings, milestones[..i], modelVersion)
      {
        if crash == Some(i) {
          StampedCaughtUp(table, modelVersion, old(embeddings), embeddings, cursor, milestones[..i]);
          return None;
        }
        var id := milestones[i];
        assert milestones[..i + 1][..i] == milestones[..i];
        StampNext(existingVersions, embeddings, milestones, i, modelVersion);
        if id in existingVersions && existingVersions[id] == modelVersion {
          skippedUpToDate := skippedUpToDate + 1;
        } else {
          embeddings := embeddings[id := modelVersion];
          reindexed := reindexed + 1;
        }
      }
      assert milestones[..|milestones|] == milestones;
      StampedCaughtUp(table, modelVersion, old(embeddings), embeddings, cursor, milestones);
      if crash.Some? {
        return None;
      }
      PageCatchesUp(table, modelVersion, old(embeddings), embeddings, old(cursor), batchSize);
      cursor := Some(milestones[|milestones| - 1]);
      r := Some(BatchResult(|milestones|, reindexed, skippedUpToDate, cursor, |milestones| < batchSize));
    }

    /** A batch that reports done leaves every milestone current, as long as the batch size is at least one. */
    lemma {:induction false} DoneMeansAllCurrent(batchSize: nat, before: Option<string>)
      requires Valid() && batchSize >= 1
      requires var page := ListMilestonesAfter(table, before, batchSize);
               |page| < batchSize && cursor == if page == [] then before else Some(page[|page| - 1])
      ensures AllCurrent(table, embeddings, modelVersion)
    {
      ShortPageIsLast(table, modelVersion, embeddings, cursor, batchSize, before);
    }

    /** Batches in sequence until one is done or the number is used up. With a batch size of at least one it
        reports done only when every milestone is current, and it does so whenever the number of batches
        exceeds the milestones after the cursor. */
    method RunReindexBatches(batchSize: nat, maxBatchesPerRun: nat) returns (totals: RunResult)
      requires Valid()
      modifies this
      ensures Valid()
      ensures totals.processed == totals.reindexed + totals.skippedUpToDate && totals.batches <= maxBatchesPerRun
      ensures totals.done && batchSize >= 1 ==> AllCurrent(table, embeddings, modelVersion)
      ensures !totals.done ==> totals.batches == maxBatchesPerRun && totals.processed == maxBatchesPerRun * batchSize
      ensures totals.processed <= |Remaining(table, old(cursor))|
      ensures totals.processed + |Remaining(table, cursor)| <= |Remaining(table, old(cursor))|
      ensures maxBatchesPerRun > |Remaining(table, old(cursor))| ==> totals.done
      ensures totals.batches > 0 ==> totals.cursor == cursor
      ensures Distinct(table) ==>
                |CurrentIds(embeddings, modelVersion)| == |CurrentIds(old(embeddings), modelVersion)| + totals.reindexed
    {
      hide Remaining, CaughtUp, AllCurrent, Current, CurrentIds, Distinct, Stamped, CountCurrent;
      totals := RunResult(0, 0, 0, 0, None, false);
      for i := 0 to maxBatchesPerRun
        invariant Valid() && !totals.done && totals.batches == i
        invariant totals.processed == totals.reindexed + totals.skippedUpToDate == i * batchSize
        invariant i * batchSize + |Remaining(table, cursor)| <= |Remaining(table, old(cursor))|
        invariant i > 0 ==> batchSize >= 1
        invariant i <= i * batchSize
        invariant i > 0 ==> totals.cursor == cursor
        invariant Distinct(table) ==>
                    |CurrentIds(embeddings, modelVersion)| == |CurrentIds(old(embeddings), modelVersion)| + totals.reindexed
      {
        ghost var before := cursor;
        ghost var stored := Stored(embeddings, cursor);
        var result := ReindexEvidenceBatch(batchSize, None);
        var batch := result.value;
        if Distinct(table) {
          ReindexedAreNew(table, modelVersion, batchSize, stored, None, Stored(embeddings, cursor), batch);
        }
        totals := RunResult(totals.batches + 1, totals.processed + batch.processed, totals.reindexed + batch.reindexed,
                            totals.skippedUpToDate + batch.skippedUpToDate, batch.cursor, batch.done);
        if batch.processed > 0 {
          CursorShrinks(table, before, batch.processed - 1);
        }
        if batch.done {
          if batchSize >= 1 {
            DoneMeansAllCurrent(batchSize, before);
          }
          return;
        }
        assert (i + 1) * batchSize == i * batchSize + batchSize;
      }
    }
  }
}
