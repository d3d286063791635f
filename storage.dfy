/**
 * The persisted records (src/storage/database.py) and the two stores the core
 * changes: the database tables and the capture directories on disk.
 *
 * Captures and events carry the boolean `deleted` flag that the retention
 * passes and the analysis query rely on. Timestamps are integer seconds.
 */
module Storage {
  import opened Wrappers
  import opened Json

  datatype CaptureKind = Screen | Audio

  /** A table row: primary key, timestamp, soft-delete flag and the table's own columns. */
  datatype Row<B> = Row(id: int, timestamp: int, deleted: bool, body: B)

  datatype CaptureBody = CaptureBody(kind: CaptureKind, filePath: string, sizeBytes: nat, metadata: Option<Dict>)
  datatype EventBody = EventBody(eventType: string, application: string, details: Option<Dict>)

  type Capture = Row<CaptureBody>
  type Event = Row<EventBody>

  /** A row of the workflows table; `name` is unique. */
  datatype WorkflowRecord = WorkflowRecord(
    id: int, name: Json, description: Json, pattern: Json,
    createdDate: int, lastUsed: Option<int>, successRate: real)

  class Database {
    var captures: seq<Capture>
    var events: seq<Event>
    var workflows: seq<WorkflowRecord>
    var nextId: int

    constructor (captures: seq<Capture>, events: seq<Event>, workflows: seq<WorkflowRecord>, nextId: int)
      ensures this.captures == captures && this.events == events
      ensures this.workflows == workflows && this.nextId == nextId
    {
      this.captures := captures;
      this.events := events;
      this.workflows := workflows;
      this.nextId := nextId;
    }
  }

  datatype FileInfo = FileInfo(size: nat, mtime: int)

  /**
   * The files under the capture directories, by path, and the paths whose
   * `unlink` raises (permissions, a file held open by another process).
   */
  class FileSystem {
    var files: map<string, FileInfo>
    var locked: set<string>

    constructor (files: map<string, FileInfo>, locked: set<string>)
      ensures this.files == files && this.locked == locked
    {
      this.files := files;
      this.locked := locked;
    }
  }

  /** Indices of the rows not flagged deleted, in table order. */
  function LiveIndices<B>(rows: seq<Row<B>>): (r: seq<nat>)
    ensures forall k :: 0 <= k < |r| ==> r[k] < |rows| && !rows[r[k]].deleted
    ensures forall i :: 0 <= i < |rows| && !rows[i].deleted ==> i in r
    ensures forall a, b :: 0 <= a < b < |r| ==> r[a] < r[b]
  {
    if rows == [] then []
    else
      var rest := LiveIndices(rows[..|rows| - 1]);
      if rows[|rows| - 1].deleted then rest else rest + [|rows| - 1]
  }

  predicate ValidIndices<B>(rows: seq<Row<B>>, idx: seq<nat>)
  {
    forall k :: 0 <= k < |idx| ==> idx[k] < |rows|
  }

  /** The indices are in non-decreasing timestamp order. */
  predicate ByTime<B>(rows: seq<Row<B>>, idx: seq<nat>)
    requires ValidIndices(rows, idx)
  {
    forall a, b :: 0 <= a < b < |idx| ==> rows[idx[a]].timestamp <= rows[idx[b]].timestamp
  }

  /** Insert `i` before the first index whose row is not older than row `i`. */
  function InsertByTime<B>(rows: seq<Row<B>>, i: nat, sorted: seq<nat>): (r: seq<nat>)
    requires i < |rows| && ValidIndices(rows, sorted)
    ensures ValidIndices(rows, r)
    ensures multiset(r) == multiset(sorted) + multiset{i}
    ensures forall k :: 0 <= k < |r| ==> r[k] == i || r[k] in sorted
  {
    if sorted == [] then [i]
    else if rows[i].timestamp <= rows[sorted[0]].timestamp then [i] + sorted
    else
      assert sorted == [sorted[0]] + sorted[1..];
      [sorted[0]] + InsertByTime(rows, i, sorted[1..])
  }

  lemma {:induction false} InsertByTimeSorted<B>(rows: seq<Row<B>>, i: nat, sorted: seq<nat>)
    requires i < |rows| && ValidIndices(rows, sorted) && ByTime(rows, sorted)
    ensures ByTime(rows, InsertByTime(rows, i, sorted))
  {
    if sorted != [] && rows[i].timestamp > rows[sorted[0]].timestamp {
      var tail := InsertByTime(rows, i, sorted[1..]);
      InsertByTimeSorted(rows, i, sorted[1..]);
      forall k | 0 <= k < |tail|
        ensures rows[sorted[0]].timestamp <= rows[tail[k]].timestamp
      {
        if tail[k] != i {
          var m :| 0 <= m < |sorted[1..]| && sorted[1..][m] == tail[k];
          assert sorted[m + 1] == tail[k];
        }
      }
    }
  }

  /**
   * `ORDER BY timestamp ASC` over the given rows: a stable insertion sort of
   * their indices (rows with equal timestamps keep their table order).
   */
  function SortByTime<B>(rows: seq<Row<B>>, idx: seq<nat>): (r: seq<nat>)
    requires ValidIndices(rows, idx)
    ensures ValidIndices(rows, r) && ByTime(rows, r)
    ensures multiset(r) == multiset(idx)
  {
    if idx == [] then []
    else
      assert idx == [idx[0]] + idx[1..];
      InsertByTimeSorted(rows, idx[0], SortByTime(rows, idx[1..]));
      InsertByTime(rows, idx[0], SortByTime(rows, idx[1..]))
  }
}
