/**
 * The three retention passes of src/storage/cleanup.py over the captures and
 * events tables and the capture directories.
 *
 * Each pass works on the live `Database` and `FileSystem` objects the way the
 * source works on its ORM session: flags are flipped in place, rows are staged
 * for deletion, files are unlinked one by one. A failing commit is the
 * `commitOk == false` case: the session rolls back, so the tables return to
 * their state before the pass, while files already unlinked stay unlinked.
 */
module Cleanup {
  import opened Wrappers
  import opened Strings
  import opened Storage

  const SecondsPerDay: int := 86400

  /** `now - timedelta(days=days)`, in seconds. */
  function Cutoff(now: int, days: int): int
  {
    now - days * SecondsPerDay
  }

  // ---------------------------------------------------------------- age pass

  /** A live row older than the cutoff: what the age pass's SELECT returns. */
  predicate Stale<B>(r: Row<B>, cutoff: int)
  {
    r.timestamp < cutoff && !r.deleted
  }

  function MarkIfStale<B>(r: Row<B>, cutoff: int): Row<B>
  {
    if Stale(r, cutoff) then r.(deleted := true) else r
  }

  /** The table after the age pass has flagged its stale rows. */
  function MarkStale<B>(rows: seq<Row<B>>, cutoff: int): seq<Row<B>>
  {
    if rows == [] then []
    else MarkStale(rows[..|rows| - 1], cutoff) + [MarkIfStale(rows[|rows| - 1], cutoff)]
  }

  /** How many rows the age pass flags in one table. */
  function CountStale<B>(rows: seq<Row<B>>, cutoff: int): nat
  {
    if rows == [] then 0
    else CountStale(rows[..|rows| - 1], cutoff) + (if Stale(rows[|rows| - 1], cutoff) then 1 else 0)
  }

  lemma {:induction false} MarkStaleAt<B>(rows: seq<Row<B>>, cutoff: int, k: int)
    requires 0 <= k < |rows|
    ensures |MarkStale(rows, cutoff)| == |rows|
    ensures MarkStale(rows, cutoff)[k] == MarkIfStale(rows[k], cutoff)
  {
    MarkStaleLength(rows, cutoff);
    if k < |rows| - 1 {
      MarkStaleAt(rows[..|rows| - 1], cutoff, k);
    }
  }

  lemma {:induction false} MarkStaleLength<B>(rows: seq<Row<B>>, cutoff: int)
    ensures |MarkStale(rows, cutoff)| == |rows|
  {
    if rows != [] {
      MarkStaleLength(rows[..|rows| - 1], cutoff);
    }
  }

  /**
   * The age pass flags exactly the live rows older than the cutoff: a row is
   * deleted afterwards iff it was deleted before or is older than the cutoff,
   * and nothing but the flag changes.
   */
  lemma AgePassMarksExactlyStale<B>(rows: seq<Row<B>>, cutoff: int)
    ensures |MarkStale(rows, cutoff)| == |rows|
    ensures forall k :: 0 <= k < |rows| ==>
      (MarkStale(rows, cutoff)[k].deleted <==> rows[k].deleted || rows[k].timestamp < cutoff)
    ensures forall k :: 0 <= k < |rows| ==>
      MarkStale(rows, cutoff)[k] == rows[k].(deleted := MarkStale(rows, cutoff)[k].deleted)
  {
    MarkStaleLength(rows, cutoff);
    forall k | 0 <= k < |rows|
      ensures MarkStale(rows, cutoff)[k] == MarkIfStale(rows[k], cutoff)
    {
      MarkStaleAt(rows, cutoff, k);
    }
  }

  /** A second age pass with the same cutoff flags nothing and changes nothing. */
  lemma AgePassIdempotent<B>(rows: seq<Row<B>>, cutoff: int)
    ensures CountStale(MarkStale(rows, cutoff), cutoff) == 0
    ensures MarkStale(MarkStale(rows, cutoff), cutoff) == MarkStale(rows, cutoff)
  {
    var once := MarkStale(rows, cutoff);
    AgePassMarksExactlyStale(rows, cutoff);
    NoStaleFixpoint(once, cutoff);
  }

  lemma {:induction false} NoStaleFixpoint<B>(rows: seq<Row<B>>, cutoff: int)
    requires forall k :: 0 <= k < |rows| ==> !Stale(rows[k], cutoff)
    ensures CountStale(rows, cutoff) == 0
    ensures MarkStale(rows, cutoff) == rows
  {
    if rows != [] {
      NoStaleFixpoint(rows[..|rows| - 1], cutoff);
    }
  }

  /** The count the age pass reports for a table is the number of rows that went from live to deleted. */
  lemma {:induction false} AgePassCountsFlips<B>(rows: seq<Row<B>>, cutoff: int)
    ensures |LiveIndices(rows)| == |LiveIndices(MarkStale(rows, cutoff))| + CountStale(rows, cutoff)
  {
    if rows != [] {
      var init := rows[..|rows| - 1];
      AgePassCountsFlips(init, cutoff);
      var marked := MarkStale(rows, cutoff);
      MarkStaleLength(init, cutoff);
      assert marked[..|marked| - 1] == MarkStale(init, cutoff);
    }
  }

  // The failsafe reaches every file below a directory, at any depth.
  predicate Under(path: string, dir: string)
  {
    StartsWith(path, dir + "/")
  }

  predicate UnderAny(path: string, dirs: seq<string>)
  {
    exists d :: d in dirs && Under(path, d)
  }

  /** The files the failsafe unlinks: below a directory, older than the cutoff, and unlinkable. */
  function Expired(files: map<string, FileInfo>, locked: set<string>, dirs: seq<string>, cutoff: int): set<string>
  {
    set p | p in files && UnderAny(p, dirs) && files[p].mtime < cutoff && p !in locked
  }

  /** Every element of a sequence, as a set. */
  function Elems<T(!new)>(s: seq<T>): (r: set<T>)
    ensures forall x :: x in r <==> x in s
  {
    set x | x in s
  }

  /**
   * One table's share of the age pass: flag every stale row in place and
   * count the rows flagged.
   */
  method FlagStale<B>(rows: seq<Row<B>>, cutoff: int) returns (flagged: seq<Row<B>>, count: nat)
    ensures flagged == MarkStale(rows, cutoff)
    ensures count == CountStale(rows, cutoff)
  {
    flagged, count := rows, 0;
    var i := 0;
    while i < |rows|
      invariant 0 <= i <= |rows| == |flagged|
      invariant flagged[..i] == MarkStale(rows[..i], cutoff)
      invariant flagged[i..] == rows[i..]
      invariant count == CountStale(rows[..i], cutoff)
    {
      assert rows[..i + 1][..i] == rows[..i];
      assert flagged[i] == rows[i];
      if Stale(flagged[i], cutoff) {
        flagged := flagged[i := flagged[i].(deleted := true)];
        count := count + 1;
      }
      assert flagged[..i + 1] == flagged[..i] + [flagged[i]];
      i := i + 1;
    }
    assert rows[..i] == rows && flagged[..i] == flagged;
  }

  /** The failsafe: unlink every expired file below `directories`, and count them. */
  method UnlinkExpired(fs: FileSystem, directories: seq<string>, cutoff: int) returns (count: nat)
    modifies fs
    ensures fs.files == old(fs.files) - Expired(old(fs.files), old(fs.locked), directories, cutoff)
    ensures fs.locked == old(fs.locked)
    ensures count == |Expired(old(fs.files), old(fs.locked), directories, cutoff)|
  {
    ghost var files := fs.files;
    ghost var expired := Expired(fs.files, fs.locked, directories, cutoff);
    var todo := set p | p in fs.files && UnderAny(p, directories);
    count := 0;
    ghost var gone: set<string> := {};
    while todo != {}
      invariant forall q :: q in gone <==> q in expired && q !in todo
      invariant forall q :: q in todo ==> q in files && UnderAny(q, directories)
      invariant fs.files == files - gone
      invariant fs.locked == old(fs.locked)
      invariant count == |gone|
      decreases todo
    {
      var p :| p in todo;
      todo := todo - {p};
      assert p !in gone && p in fs.files;
      if fs.files[p].mtime < cutoff && p !in fs.locked {
        assert p in expired;
        fs.files := fs.files - {p};
        gone := gone + {p};
        count := count + 1;
      } else {
        assert p !in expired;
      }
    }
    assert gone == expired;
  }

  /**
   * `cleanup_old_files`: flag stale captures and events, then unlink every old
   * file below `directories` whatever the database did. The result adds the
   * rows counted to the files unlinked; a failed commit rolls the flags back but
   * the rows it counted stay in the result.
   */
  method CleanupOldFiles(db: Database, fs: FileSystem, directories: seq<string>, now: int, maxAgeDays: int, commitOk: bool)
    returns (removed: nat)
    modifies db, fs
    ensures db.captures == if commitOk then MarkStale(old(db.captures), Cutoff(now, maxAgeDays)) else old(db.captures)
    ensures db.events == if commitOk then MarkStale(old(db.events), Cutoff(now, maxAgeDays)) else old(db.events)
    ensures db.workflows == old(db.workflows) && db.nextId == old(db.nextId)
    ensures fs.files == old(fs.files) - Expired(old(fs.files), old(fs.locked), directories, Cutoff(now, maxAgeDays))
    ensures fs.locked == old(fs.locked)
    ensures removed == CountStale(old(db.captures), Cutoff(now, maxAgeDays))
                     + CountStale(old(db.events), Cutoff(now, maxAgeDays))
                     + |Expired(old(fs.files), old(fs.locked), directories, Cutoff(now, maxAgeDays))|
  {
    var cutoff := Cutoff(now, maxAgeDays);
    var captures, fromCaptures := FlagStale(db.captures, cutoff);
    var events, fromEvents := FlagStale(db.events, cutoff);
    if commitOk {
      db.captures, db.events := captures, events;
    }
    // on rollback the flags are discarded, the count is not
    var fromFiles := UnlinkExpired(fs, directories, cutoff);
    removed := fromCaptures + fromEvents + fromFiles;
  }

  // --------------------------------------------------------------- size pass

  /** `SELECT SUM(size_bytes) FROM captures WHERE NOT deleted` (0 for no rows). */
  function LiveBytes(rows: seq<Capture>): nat
  {
    if rows == [] then 0
    else LiveBytes(rows[..|rows| - 1]) + (if rows[|rows| - 1].deleted then 0 else rows[|rows| - 1].body.sizeBytes)
  }

  /** The live captures, oldest first: the order the size pass considers them in. */
  function EvictionOrder(rows: seq<Capture>): (r: seq<nat>)
    ensures ValidIndices(rows, r) && ByTime(rows, r)
    ensures multiset(r) == multiset(LiveIndices(rows))
  {
    SortByTime(rows, LiveIndices(rows))
  }

  /** Total size of the captures at the given indices. */
  function SumBytes(rows: seq<Capture>, idx: seq<nat>): nat
    requires ValidIndices(rows, idx)
  {
    if idx == [] then 0 else rows[idx[0]].body.sizeBytes + SumBytes(rows, idx[1..])
  }

  /**
   * How many captures of `order` the loop flags, starting with `current` live
   * bytes: it stops as soon as the running total is within `maxBytes`.
   */
  function EvictCount(rows: seq<Capture>, order: seq<nat>, current: int, maxBytes: int): nat
    requires ValidIndices(rows, order)
  {
    if current <= maxBytes || order == [] then 0
    else 1 + EvictCount(rows, order[1..], current - rows[order[0]].body.sizeBytes, maxBytes)
  }

  /** The captures the size pass flags, in the order it flags them: a prefix of the eviction order. */
  function SizePassMarks(rows: seq<Capture>, maxBytes: int): (r: seq<nat>)
    ensures |r| <= |EvictionOrder(rows)| && r == EvictionOrder(rows)[..|r|]
    ensures ValidIndices(rows, r)
  {
    var order := EvictionOrder(rows);
    EvictCountBound(rows, order, LiveBytes(rows), maxBytes);
    order[..EvictCount(rows, order, LiveBytes(rows), maxBytes)]
  }

  function MarkDeleted<B>(rows: seq<Row<B>>, marks: set<nat>): (r: seq<Row<B>>)
    ensures |r| == |rows|
  {
    seq(|rows|, k requires 0 <= k < |rows| => if k in marks then rows[k].(deleted := true) else rows[k])
  }

  /** The captures table after the size pass (before any rollback). */
  function AfterSizePass(rows: seq<Capture>, maxBytes: int): seq<Capture>
  {
    MarkDeleted(rows, Elems(SizePassMarks(rows, maxBytes)))
  }

  lemma {:induction false} EvictCountBound(rows: seq<Capture>, order: seq<nat>, current: int, maxBytes: int)
    requires ValidIndices(rows, order)
    ensures EvictCount(rows, order, current, maxBytes) <= |order|
  {
    if !(current <= maxBytes || order == []) {
      EvictCountBound(rows, order[1..], current - rows[order[0]].body.sizeBytes, maxBytes);
    }
  }

  /**
   * The flagged prefix is the shortest that brings the total within budget:
   * every shorter prefix leaves more than `maxBytes`, and the prefix taken
   * either reaches the budget or is the whole order.
   */
  lemma {:induction false} EvictCountShortest(rows: seq<Capture>, order: seq<nat>, current: int, maxBytes: int)
    requires ValidIndices(rows, order)
    ensures EvictCount(rows, order, current, maxBytes) <= |order|
    ensures var n := EvictCount(rows, order, current, maxBytes);
      n == |order| || current - SumBytes(rows, order[..n]) <= maxBytes
    ensures forall m :: 0 <= m < EvictCount(rows, order, current, maxBytes) ==>
      current - SumBytes(rows, order[..m]) > maxBytes
  {
    EvictCountBound(rows, order, current, maxBytes);
    assert order[..0] == [];
    if !(current <= maxBytes || order == []) {
      var next := current - rows[order[0]].body.sizeBytes;
      EvictCountShortest(rows, order[1..], next, maxBytes);
      var n := EvictCount(rows, order, current, maxBytes);
      assert order[..n][1..] == order[1..][..n - 1];
      forall m | 0 < m < n
        ensures current - SumBytes(rows, order[..m]) > maxBytes
      {
        assert order[..m][1..] == order[1..][..m - 1];
      }
    }
  }

  predicate Distinct(s: seq<nat>)
  {
    forall a, b :: 0 <= a < b < |s| ==> s[a] != s[b]
  }

  lemma {:induction false} DistinctMultiplicity(s: seq<nat>)
    requires Distinct(s)
    ensures forall x :: multiset(s)[x] <= 1
  {
    if s != [] {
      var t := s[1..];
      assert s == [s[0]] + t;
      assert Distinct(t);
      DistinctMultiplicity(t);
      assert s[0] !in t;
    }
  }

  lemma {:induction false} MultiplicityDistinct(s: seq<nat>)
    requires forall x :: multiset(s)[x] <= 1
    ensures Distinct(s)
  {
    if s != [] {
      var t := s[1..];
      assert s == [s[0]] + t;
      assert multiset(s) == multiset{s[0]} + multiset(t);
      assert forall x :: multiset(t)[x] <= multiset(s)[x];
      MultiplicityDistinct(t);
      assert s[0] !in t by {
        assert multiset(t)[s[0]] == 0;
      }
      forall a, b | 0 <= a < b < |s| ensures s[a] != s[b] {
        if a == 0 {
          assert s[b] == t[b - 1];
        } else {
          assert s[a] == t[a - 1] && s[b] == t[b - 1];
        }
      }
    }
  }

  /** The eviction order lists each live capture once. */
  lemma EvictionOrderDistinct(rows: seq<Capture>)
    ensures Distinct(EvictionOrder(rows))
    ensures forall k :: 0 <= k < |EvictionOrder(rows)| ==> !rows[EvictionOrder(rows)[k]].deleted
    ensures forall i :: 0 <= i < |rows| && !rows[i].deleted ==> i in EvictionOrder(rows)
  {
    var live := LiveIndices(rows);
    var order := EvictionOrder(rows);
    DistinctMultiplicity(live);
    MultiplicityDistinct(order);
    forall k | 0 <= k < |order| ensures !rows[order[k]].deleted {
      assert order[k] in multiset(order);
    }
    forall i | 0 <= i < |rows| && !rows[i].deleted ensures i in order {
      assert i in multiset(live);
    }
  }

  /** Flagging one live capture takes its size off the live total. */
  lemma {:induction false} LiveBytesFlip(rows: seq<Capture>, j: nat)
    requires j < |rows| && !rows[j].deleted
    ensures LiveBytes(rows[j := rows[j].(deleted := true)]) == LiveBytes(rows) - rows[j].body.sizeBytes
  {
    var flipped := rows[j := rows[j].(deleted := true)];
    var n := |rows| - 1;
    if j < n {
      assert flipped[..n] == rows[..n][j := rows[j].(deleted := true)];
      LiveBytesFlip(rows[..n], j);
    } else {
      assert flipped[..n] == rows[..n];
    }
  }

  lemma MarkDeletedAdd<B>(rows: seq<Row<B>>, marks: set<nat>, j: nat)
    requires j < |rows|
    ensures MarkDeleted(rows, marks + {j}) == MarkDeleted(rows, marks)[j := MarkDeleted(rows, marks)[j].(deleted := true)]
  {
  }

  /** Flagging distinct live captures takes exactly their sizes off the live total. */
  lemma {:induction false} LiveBytesMarked(rows: seq<Capture>, idx: seq<nat>)
    requires ValidIndices(rows, idx) && Distinct(idx)
    requires forall k :: 0 <= k < |idx| ==> !rows[idx[k]].deleted
    ensures LiveBytes(MarkDeleted(rows, Elems(idx))) == LiveBytes(rows) - SumBytes(rows, idx)
  {
    if idx == [] {
      assert MarkDeleted(rows, Elems(idx)) == rows;
    } else {
      var j, rest := idx[0], idx[1..];
      assert Distinct(rest) by {
        forall a, b | 0 <= a < b < |rest| ensures rest[a] != rest[b] {
          assert rest[a] == idx[a + 1] && rest[b] == idx[b + 1];
        }
      }
      LiveBytesMarked(rows, rest);
      var s := Elems(rest);
      assert Elems(idx) == s + {j} by {
        assert idx == [j] + rest;
      }
      assert j !in s by {
        forall b | 0 <= b < |rest| ensures rest[b] != j {
          assert rest[b] == idx[b + 1];
        }
      }
      var m := MarkDeleted(rows, s);
      assert m[j] == rows[j];
      MarkDeletedAdd(rows, s, j);
      LiveBytesFlip(m, j);
    }
  }

  /** Within budget already: the size pass changes nothing and flags nothing. */
  lemma SizePassNoop(rows: seq<Capture>, maxBytes: int)
    requires LiveBytes(rows) <= maxBytes
    ensures SizePassMarks(rows, maxBytes) == []
    ensures AfterSizePass(rows, maxBytes) == rows
  {
    assert Elems(SizePassMarks(rows, maxBytes)) == {};
  }

  /** The size pass flags only live captures, and changes nothing but their flag. */
  lemma SizePassFlagsOnlyLive(rows: seq<Capture>, maxBytes: int)
    ensures forall k :: 0 <= k < |SizePassMarks(rows, maxBytes)| ==> !rows[SizePassMarks(rows, maxBytes)[k]].deleted
    ensures |AfterSizePass(rows, maxBytes)| == |rows|
    ensures forall k :: 0 <= k < |rows| ==>
      AfterSizePass(rows, maxBytes)[k] == rows[k] ||
      (!rows[k].deleted && AfterSizePass(rows, maxBytes)[k] == rows[k].(deleted := true))
  {
    var marks := SizePassMarks(rows, maxBytes);
    EvictionOrderDistinct(rows);
    forall k | 0 <= k < |marks| ensures !rows[marks[k]].deleted {
      assert marks[k] == EvictionOrder(rows)[k];
    }
    forall k | 0 <= k < |rows| && k in Elems(marks) ensures !rows[k].deleted {
      var a :| 0 <= a < |marks| && marks[a] == k;
    }
  }

  /**
   * After the size pass the live total is within budget, unless every capture
   * ended up flagged.
   */
  lemma SizePassWithinBudget(rows: seq<Capture>, maxBytes: int)
    ensures var after := AfterSizePass(rows, maxBytes);
      LiveBytes(after) <= maxBytes || forall k :: 0 <= k < |after| ==> after[k].deleted
  {
    var order := EvictionOrder(rows);
    var marks := SizePassMarks(rows, maxBytes);
    var after := AfterSizePass(rows, maxBytes);
    EvictionOrderDistinct(rows);
    EvictCountShortest(rows, order, LiveBytes(rows), maxBytes);
    SizePassFlagsOnlyLive(rows, maxBytes);
    LiveBytesMarked(rows, marks);
    if |marks| == |order| {
      assert marks == order;
      forall k | 0 <= k < |after| ensures after[k].deleted {
        if !rows[k].deleted {
          assert k in order;
        }
      }
    }
  }

  /**
   * The flagged prefix is the shortest oldest-first prefix: flagging any
   * shorter prefix of the eviction order leaves the total over budget.
   */
  lemma SizePassShortest(rows: seq<Capture>, maxBytes: int, m: nat)
    requires m < |SizePassMarks(rows, maxBytes)|
    ensures LiveBytes(MarkDeleted(rows, Elems(EvictionOrder(rows)[..m]))) > maxBytes
  {
    var order := EvictionOrder(rows);
    EvictionOrderDistinct(rows);
    EvictCountShortest(rows, order, LiveBytes(rows), maxBytes);
    LiveBytesMarked(rows, order[..m]);
  }

  /** Oldest first: no capture left live is older than a capture the size pass flagged. */
  lemma SizePassOldestFirst(rows: seq<Capture>, maxBytes: int, a: nat, b: nat)
    requires a < |SizePassMarks(rows, maxBytes)|
    requires b < |rows| && !AfterSizePass(rows, maxBytes)[b].deleted
    ensures rows[SizePassMarks(rows, maxBytes)[a]].timestamp <= rows[b].timestamp
  {
    var order := EvictionOrder(rows);
    var marks := SizePassMarks(rows, maxBytes);
    assert b !in Elems(marks);
    assert !rows[b].deleted;
    EvictionOrderDistinct(rows);
    var c :| 0 <= c < |order| && order[c] == b;
    assert forall x :: 0 <= x < |marks| ==> marks[x] != b;
    assert marks[a] == order[a];
    assert a < c;
  }

  /** After both passes no live capture breaks the age policy or the size budget. */
  lemma RetentionPolicyHolds(rows: seq<Capture>, ageCutoff: int, maxBytes: int)
    ensures var after := AfterSizePass(MarkStale(rows, ageCutoff), maxBytes);
      (forall k :: 0 <= k < |after| && !after[k].deleted ==> after[k].timestamp >= ageCutoff)
      && (LiveBytes(after) <= maxBytes || forall k :: 0 <= k < |after| ==> after[k].deleted)
  {
    var aged := MarkStale(rows, ageCutoff);
    AgePassMarksExactlyStale(rows, ageCutoff);
    SizePassFlagsOnlyLive(aged, maxBytes);
    SizePassWithinBudget(aged, maxBytes);
  }

  /** Distinct indices of live captures: what the flagging loop walks through. */
  predicate LiveOrder(rows: seq<Capture>, order: seq<nat>)
  {
    ValidIndices(rows, order) && Distinct(order) && forall k :: 0 <= k < |order| ==> !rows[order[k]].deleted
  }

  /** One turn of the flagging loop: flag the next capture of the order. */
  lemma FlagNext(rows: seq<Capture>, order: seq<nat>, k: nat)
    requires LiveOrder(rows, order) && k < |order|
    ensures var j := order[k];
      var flagged := MarkDeleted(rows, Elems(order[..k]));
      && MarkDeleted(rows, Elems(order[..k + 1])) == flagged[j := flagged[j].(deleted := true)]
      && LiveBytes(MarkDeleted(rows, Elems(order[..k + 1]))) == LiveBytes(flagged) - rows[j].body.sizeBytes
  {
    var j := order[k];
    var flagged := MarkDeleted(rows, Elems(order[..k]));
    assert j !in Elems(order[..k]);
    assert flagged[j] == rows[j];
    MarkDeletedAdd(rows, Elems(order[..k]), j);
    LiveBytesFlip(flagged, j);
    assert Elems(order[..k + 1]) == Elems(order[..k]) + {j} by {
      assert order[..k + 1] == order[..k] + [j];
    }
  }

  /** While over the limit, the loop flags the next capture and goes on from the rest of the order. */
  lemma EvictCountStep(rows: seq<Capture>, order: seq<nat>, k: nat, current: int, maxBytes: int)
    requires ValidIndices(rows, order) && k < |order| && current > maxBytes
    ensures EvictCount(rows, order[k..], current, maxBytes)
      == 1 + EvictCount(rows, order[k + 1..], current - rows[order[k]].body.sizeBytes, maxBytes)
  {
    assert order[k..][1..] == order[k + 1..];
  }

  /**
   * The state of the flagging loop after `count` turns: the first `count`
   * captures of the order are flagged, `current` is the live total and
   * `left` more turns remain of the `n` the loop makes in all.
   */
  predicate Flagging(rows: seq<Capture>, order: seq<nat>, maxBytes: int, n: nat, count: nat, flagged: seq<Capture>, current: int, left: nat)
    requires LiveOrder(rows, order)
  {
    && count <= |order|
    && flagged == MarkDeleted(rows, Elems(order[..count]))
    && current == LiveBytes(flagged)
    && left == EvictCount(rows, order[count..], current, maxBytes)
    && count + left == n
  }

  /** Before the first turn, nothing is flagged and every turn remains. */
  lemma FlaggingStart(rows: seq<Capture>, order: seq<nat>, maxBytes: int)
    requires LiveOrder(rows, order)
    ensures var n := EvictCount(rows, order, LiveBytes(rows), maxBytes);
      Flagging(rows, order, maxBytes, n, 0, rows, LiveBytes(rows), n)
  {
    assert MarkDeleted(rows, Elems(order[..0])) == rows;
    assert order[0..] == order;
  }

  /** A turn of the flagging loop keeps its state. */
  lemma FlaggingStep(rows: seq<Capture>, order: seq<nat>, maxBytes: int, n: nat, count: nat, flagged: seq<Capture>, current: int, left: nat)
    requires LiveOrder(rows, order) && Flagging(rows, order, maxBytes, n, count, flagged, current, left)
    requires count < |order| && current > maxBytes
    ensures left >= 1 && order[count] < |flagged|
    ensures var j := order[count];
      Flagging(rows, order, maxBytes, n, count + 1, flagged[j := flagged[j].(deleted := true)],
               current - rows[j].body.sizeBytes, left - 1)
  {
    EvictCountStep(rows, order, count, current, maxBytes);
    FlagNext(rows, order, count);
  }

  /**
   * The flagging loop of `cleanup_size_limit`: walk `order`, flagging and
   * subtracting, until the running total is within `maxBytes`.
   */
  method FlagPrefix(rows: seq<Capture>, order: seq<nat>, maxBytes: int) returns (flagged: seq<Capture>, count: nat)
    requires LiveOrder(rows, order)
    ensures count == EvictCount(rows, order, LiveBytes(rows), maxBytes) && count <= |order|
    ensures flagged == MarkDeleted(rows, Elems(order[..count]))
  {
    var current := LiveBytes(rows);
    ghost var n := EvictCount(rows, order, current, maxBytes);
    ghost var left := n;
    flagged := rows;
    count := 0;
    FlaggingStart(rows, order, maxBytes);
    while count < |order|
      invariant Flagging(rows, order, maxBytes, n, count, flagged, current, left)
    {
      if current <= maxBytes {
        break;
      }
      var j := order[count];
      FlaggingStep(rows, order, maxBytes, n, count, flagged, current, left);
      left := left - 1;
      flagged := flagged[j := flagged[j].(deleted := true)];
      current := current - rows[j].body.sizeBytes;
      count := count + 1;
    }
    FlaggingDone(rows, order, maxBytes, n, count, flagged, current, left);
  }

  /** The flagging loop has made all its turns once the order is exhausted or the total is within the limit. */
  lemma FlaggingDone(rows: seq<Capture>, order: seq<nat>, maxBytes: int, n: nat, count: nat, flagged: seq<Capture>, current: int, left: nat)
    requires LiveOrder(rows, order) && Flagging(rows, order, maxBytes, n, count, flagged, current, left)
    requires count == |order| || current <= maxBytes
    ensures count == n
  {
  }

  /** The size pass's flagging, over the live captures oldest first. */
  method FlagOldest(rows: seq<Capture>, maxBytes: int) returns (flagged: seq<Capture>, marks: seq<nat>)
    ensures marks == SizePassMarks(rows, maxBytes)
    ensures flagged == AfterSizePass(rows, maxBytes)
  {
    var order := EvictionOrder(rows);
    EvictionOrderDistinct(rows);
    var count;
    flagged, count := FlagPrefix(rows, order, maxBytes);
    marks := order[..count];
  }

  /** The file paths of the captures at `idx`, in that order. */
  function Paths(rows: seq<Capture>, idx: seq<nat>): (r: seq<string>)
    requires ValidIndices(rows, idx)
    ensures |r| == |idx|
  {
    seq(|idx|, k requires 0 <= k < |idx| => rows[idx[k]].body.filePath)
  }

  /** Unlink each path that exists; a path whose unlink raises stays. */
  method UnlinkEach(fs: FileSystem, paths: seq<string>)
    modifies fs
    ensures fs.files == old(fs.files) - (Elems(paths) - old(fs.locked))
    ensures fs.locked == old(fs.locked)
  {
    var u := 0;
    assert paths[..0] == [];
    while u < |paths|
      invariant u <= |paths|
      invariant fs.files == old(fs.files) - (Elems(paths[..u]) - old(fs.locked))
      invariant fs.locked == old(fs.locked)
    {
      var p := paths[u];
      if p in fs.files && p !in fs.locked {
        fs.files := fs.files - {p};
      }
      assert Elems(paths[..u + 1]) == Elems(paths[..u]) + {p} by {
        assert paths[..u + 1] == paths[..u] + [p];
      }
      u := u + 1;
    }
    assert paths[..u] == paths;
  }

  /**
   * `cleanup_size_limit`: when the live captures exceed `maxBytes`, flag them
   * oldest first until the running total is within budget, commit, then unlink
   * the files of the captures just flagged. Events are never considered.
   * Returns the number flagged, or 0 when the commit fails (nothing is unlinked then).
   */
  method CleanupSizeLimit(db: Database, fs: FileSystem, maxBytes: int, commitOk: bool) returns (removed: nat)
    modifies db, fs
    ensures db.captures == if commitOk then AfterSizePass(old(db.captures), maxBytes) else old(db.captures)
    ensures removed == if commitOk then |SizePassMarks(old(db.captures), maxBytes)| else 0
    ensures db.events == old(db.events) && db.workflows == old(db.workflows) && db.nextId == old(db.nextId)
    ensures fs.files == if commitOk
      then old(fs.files) - (Elems(Paths(old(db.captures), SizePassMarks(old(db.captures), maxBytes))) - old(fs.locked))
      else old(fs.files)
    ensures fs.locked == old(fs.locked)
  {
    var saved := db.captures;
    if LiveBytes(saved) <= maxBytes {
      SizePassNoop(saved, maxBytes);
      assert Elems(Paths(saved, [])) == {};
      return 0;
    }
    var flagged, marks := FlagOldest(saved, maxBytes);
    if !commitOk {
      return 0;
    }
    db.captures := flagged;
    removed := |marks|;
    UnlinkEach(fs, Paths(saved, marks));
  }

  // ---------------------------------------------------------- hard delete

  /** Flagged and older than the cutoff: what the hard-delete SELECT returns. */
  predicate Purgeable<B>(r: Row<B>, cutoff: int)
  {
    r.deleted && r.timestamp < cutoff
  }

  /**
   * The rows left after the hard delete staged `session.delete` for every
   * purgeable row that `removable` lets go (a row whose file would not unlink
   * is skipped).
   */
  function Survivors<B>(rows: seq<Row<B>>, cutoff: int, removable: Row<B> -> bool): seq<Row<B>>
  {
    if rows == [] then []
    else
      var last := rows[|rows| - 1];
      Survivors(rows[..|rows| - 1], cutoff, removable)
        + (if Purgeable(last, cutoff) && removable(last) then [] else [last])
  }

  /** The rows the hard delete removes. */
  function Purged<B>(rows: seq<Row<B>>, cutoff: int, removable: Row<B> -> bool): seq<Row<B>>
  {
    if rows == [] then []
    else
      var last := rows[|rows| - 1];
      Purged(rows[..|rows| - 1], cutoff, removable)
        + (if Purgeable(last, cutoff) && removable(last) then [last] else [])
  }

  /** The hard delete splits the table: every row either survives or is purged. */
  lemma {:induction false} HardDeletePartitions<B>(rows: seq<Row<B>>, cutoff: int, removable: Row<B> -> bool)
    ensures multiset(Survivors(rows, cutoff, removable)) + multiset(Purged(rows, cutoff, removable)) == multiset(rows)
  {
    if rows != [] {
      var init := rows[..|rows| - 1];
      HardDeletePartitions(init, cutoff, removable);
      assert rows == init + [rows[|rows| - 1]];
    }
  }

  /**
   * A purged row was flagged deleted, older than the cutoff and removable; a
   * surviving row is not all three.
   */
  lemma {:induction false} HardDeleteSelects<B>(rows: seq<Row<B>>, cutoff: int, removable: Row<B> -> bool)
    ensures forall r :: r in Purged(rows, cutoff, removable) ==> r.deleted && r.timestamp < cutoff && removable(r)
    ensures forall r :: r in Survivors(rows, cutoff, removable) ==> !(Purgeable(r, cutoff) && removable(r))
  {
    if rows != [] {
      HardDeleteSelects(rows[..|rows| - 1], cutoff, removable);
    }
  }

  /** The hard delete never removes a live row. */
  lemma HardDeleteKeepsLive<B>(rows: seq<Row<B>>, cutoff: int, removable: Row<B> -> bool, r: Row<B>)
    requires r in rows && !r.deleted
    ensures r in Survivors(rows, cutoff, removable)
  {
    HardDeletePartitions(rows, cutoff, removable);
    HardDeleteSelects(rows, cutoff, removable);
    assert r in multiset(rows);
  }

  /** A capture's row can go when its file is gone already or unlinks. */
  predicate Releasable(c: Capture, files: map<string, FileInfo>, locked: set<string>)
  {
    c.body.filePath !in files || c.body.filePath !in locked
  }

  /** The files the hard delete unlinks. */
  function UnlinkedPaths(rows: seq<Capture>, cutoff: int, files: map<string, FileInfo>, locked: set<string>): set<string>
  {
    set k | 0 <= k < |rows| && Purgeable(rows[k], cutoff) && rows[k].body.filePath in files
                            && rows[k].body.filePath !in locked :: rows[k].body.filePath
  }

  /**
   * `physical_cleanup_deleted_records`: remove the flagged rows whose own
   * timestamp is older than `now - retentionDays`; a capture's file is unlinked
   * first when it exists, and a capture whose unlink raises is skipped. Returns
   * the rows removed. A failed commit keeps every row, yet the files are gone
   * and the count is still returned.
   */
  method PhysicalCleanupDeletedRecords(db: Database, fs: FileSystem, now: int, retentionDays: int, commitOk: bool)
    returns (count: nat)
    modifies db, fs
    ensures var cutoff, files, locked := Cutoff(now, retentionDays), old(fs.files), old(fs.locked);
      && db.captures == (if commitOk then Survivors(old(db.captures), cutoff, c => Releasable(c, files, locked)) else old(db.captures))
      && db.events == (if commitOk then Survivors(old(db.events), cutoff, e => true) else old(db.events))
      && fs.files == files - UnlinkedPaths(old(db.captures), cutoff, files, locked)
      && count == |Purged(old(db.captures), cutoff, c => Releasable(c, files, locked))|
                + |Purged(old(db.events), cutoff, e => true)|
    ensures fs.locked == old(fs.locked)
    ensures db.workflows == old(db.workflows) && db.nextId == old(db.nextId)
  {
    var cutoff := Cutoff(now, retentionDays);
    ghost var files, locked := fs.files, fs.locked;
    ghost var releasable := c => Releasable(c, files, locked);
    var captures, events := db.captures, db.events;
    count := 0;

    var keptCaptures: seq<Capture> := [];
    var i := 0;
    while i < |captures|
      invariant i <= |captures|
      invariant keptCaptures == Survivors(captures[..i], cutoff, releasable)
      invariant count == |Purged(captures[..i], cutoff, releasable)|
      invariant fs.files == files - UnlinkedPaths(captures[..i], cutoff, files, locked)
      invariant fs.locked == locked
      invariant db.captures == captures && db.events == events
      invariant db.workflows == old(db.workflows) && db.nextId == old(db.nextId)
    {
      var c := captures[i];
      assert captures[..i + 1][..i] == captures[..i];
      assert captures[..i + 1][i] == c;
      ghost var before := UnlinkedPaths(captures[..i], cutoff, files, locked);
      var purged := false;
      if Purgeable(c, cutoff) {
        var path := c.body.filePath;
        if path in fs.files {
          if path !in fs.locked {
            fs.files := fs.files - {path};
            purged := true;
          }
          // else: unlink raised; the row is skipped
        } else {
          purged := true;
        }
      }
      if purged {
        count := count + 1;
      } else {
        keptCaptures := keptCaptures + [c];
      }
      assert UnlinkedPaths(captures[..i + 1], cutoff, files, locked)
        == before + (if Purgeable(c, cutoff) && c.body.filePath in files && c.body.filePath !in locked
                     then {c.body.filePath} else {});
      i := i + 1;
    }
    assert captures[..i] == captures;

    var keptEvents: seq<Event> := [];
    var j := 0;
    var countCaptures := count;
    while j < |events|
      invariant j <= |events|
      invariant keptEvents == Survivors(events[..j], cutoff, e => true)
      invariant count == countCaptures + |Purged(events[..j], cutoff, e => true)|
      invariant fs.files == files - UnlinkedPaths(captures, cutoff, files, locked)
      invariant fs.locked == locked
      invariant db.captures == captures && db.events == events
      invariant db.workflows == old(db.workflows) && db.nextId == old(db.nextId)
    {
      assert events[..j + 1][..j] == events[..j];
      if Purgeable(events[j], cutoff) {
        count := count + 1;
      } else {
        keptEvents := keptEvents + [events[j]];
      }
      j := j + 1;
    }
    assert events[..j] == events;

    if commitOk {
      db.captures, db.events := keptCaptures, keptEvents;
    }
  }
}
