/**
 The local table `activity_logs` (src/agent/shared/database.cpp): a map from id to row with the
 statements of the source as operations.  Ids come from AUTOINCREMENT and never repeat.
 */
module Database {
  import opened Numbers
  import opened RecordJson
  import opened Sets

  /** A row: what was recorded, and the bookkeeping of the retry queue. */
  datatype Row = Row(record: SyncRecord, createdAt: int, synced: bool, retries: nat, nextRetryAt: int)

  type Rows = map<int, Row>

  const MARK_CHUNK := 500

  // ---------------------------------------------------------------------------------------------
  // The statements
  // ---------------------------------------------------------------------------------------------

  function NewRow(r: SyncRecord, id: int, now: int): Row {
    Row(r.(id := id), now, false, 0, 0)
  }

  function Due(rows: Rows, now: int): set<int> {
    set id | id in rows && !rows[id].synced && rows[id].nextRetryAt <= now
  }

  /** ORDER BY next_retry_at, id. */
  predicate Precedes(rows: Rows, a: int, b: int)
    requires a in rows && b in rows
  {
    rows[a].nextRetryAt < rows[b].nextRetryAt || (rows[a].nextRetryAt == rows[b].nextRetryAt && a < b)
  }

  ghost predicate IsFirst(rows: Rows, ids: set<int>, m: int)
    requires ids <= rows.Keys
  {
    m in ids && forall i :: i in ids && i != m ==> Precedes(rows, m, i)
  }

  lemma {:induction false} FirstExists(rows: Rows, ids: set<int>)
    requires ids != {} && ids <= rows.Keys
    ensures exists m :: IsFirst(rows, ids, m)
    decreases |ids|
  {
    var x := Any(ids);
    var rest := ids - {x};
    if rest == {} {
      assert ids == {x};
      assert IsFirst(rows, ids, x);
    } else {
      FirstExists(rows, rest);
      var m :| IsFirst(rows, rest, m);
      assert forall i :: i in ids && i != x ==> i in rest;
      assert IsFirst(rows, ids, if Precedes(rows, x, m) then x else m);
    }
  }

  ghost function First(rows: Rows, ids: set<int>): (m: int)
    requires ids != {} && ids <= rows.Keys
    ensures IsFirst(rows, ids, m)
  {
    FirstExists(rows, ids);
    var m :| IsFirst(rows, ids, m);
    m
  }

  /** The first `n` of the ids in queue order: ORDER BY ... LIMIT n. */
  ghost function InOrder(rows: Rows, ids: set<int>, n: nat): seq<int>
    requires ids <= rows.Keys
    decreases n, |ids|
  {
    if n == 0 || ids == {} then []
    else var m := First(rows, ids); [m] + InOrder(rows, ids - {m}, n - 1)
  }

  /** The query result: distinct due ids in queue order, as many as asked for, nothing left before them. */
  lemma {:induction false} InOrderSpec(rows: Rows, ids: set<int>, n: nat)
    requires ids <= rows.Keys
    ensures var s := InOrder(rows, ids, n);
            && |s| == (if n < |ids| then n else |ids|)
            && (forall i :: 0 <= i < |s| ==> s[i] in ids)
            && (forall i, j :: 0 <= i < j < |s| ==> Precedes(rows, s[i], s[j]))
            && (forall i, x :: 0 <= i < |s| && x in ids && x !in s ==> Precedes(rows, s[i], x))
    decreases n
  {
    if n > 0 && ids != {} {
      var m := First(rows, ids);
      var t := InOrder(rows, ids - {m}, n - 1);
      InOrderSpec(rows, ids - {m}, n - 1);
      forall i, x | 0 <= i < |t| + 1 && x in ids && x !in [m] + t ensures Precedes(rows, ([m] + t)[i], x) {
        assert x != m && x !in t by { assert forall y :: y in t ==> y in [m] + t; assert m == ([m] + t)[0]; }
      }
    }
  }

  /**
   What is fetched: unsynced rows only, none before its retry time, earlier retry times first and then smaller
   ids; a row that is unsynced and due is left out only for want of room, and then comes behind all of them.
   */
  lemma FetchLaw(rows: Rows, now: int, n: nat)
    ensures var ids := InOrder(rows, Due(rows, now), n);
            && |ids| <= n
            && (forall i :: 0 <= i < |ids| ==>
                  ids[i] in rows && !rows[ids[i]].synced && rows[ids[i]].nextRetryAt <= now)
            && (forall i, j :: 0 <= i < j < |ids| ==>
                  var (a, b) := (rows[ids[i]], rows[ids[j]]);
                  a.nextRetryAt < b.nextRetryAt || (a.nextRetryAt == b.nextRetryAt && ids[i] < ids[j]))
            && (forall id :: id in rows && !rows[id].synced && rows[id].nextRetryAt <= now && id !in ids ==>
                  |ids| == n && forall i :: 0 <= i < |ids| ==> Precedes(rows, ids[i], id))
  {
    var ids, due := InOrder(rows, Due(rows, now), n), Due(rows, now);
    InOrderSpec(rows, due, n);
    ElementsCount(ids);
    forall id | id in rows && !rows[id].synced && rows[id].nextRetryAt <= now && id !in ids
      ensures |ids| == n && forall i :: 0 <= i < |ids| ==> Precedes(rows, ids[i], id)
    {
      Smaller(Elements(ids), due, id);
    }
  }

  function MarkSynced(rows: Rows, ids: set<int>): Rows {
    map id | id in rows :: if id in ids then rows[id].(synced := true) else rows[id]
  }

  /** MAX(1, MIN(max, base << MIN(retry_count + 1, 20))) on 64-bit integers. */
  function Delay(base: int, maximum: int, retries: nat): int {
    var shifted := base * Pow2(if retries + 1 < 20 then retries + 1 else 20);
    var bounded := if shifted < maximum then shifted else maximum;
    if bounded < 1 then 1 else bounded
  }

  function MarkFailed(rows: Rows, id: int, now: int, base: int, maximum: int): Rows {
    if id in rows then
      var row := rows[id];
      rows[id := row.(retries := row.retries + 1, nextRetryAt := now + Delay(base, maximum, row.retries))]
    else rows
  }

  /** DELETE ... WHERE synced = 1 AND created_at < cutoff. */
  function Pruned(rows: Rows, cutoff: int): Rows {
    map id | id in rows && !(rows[id].synced && rows[id].createdAt < cutoff) :: rows[id]
  }

  lemma MostIsAMega()
    ensures Pow2(20) == 0x10_0000
  {
    assert Pow2(5) == 32;
    assert Pow2(10) == 1024;
    assert Pow2(15) == 32768;
  }

  /** The penalty grows with the retries, stays within [1, max(1, maximum)], and the shift fits in 64 bits. */
  lemma DelayLaw(base: int, maximum: int, r1: nat, r2: nat)
    requires 0 <= base < 0x8000_0000 && r1 <= r2
    ensures 1 <= Delay(base, maximum, r1) <= Delay(base, maximum, r2) <= (if maximum < 1 then 1 else maximum)
    ensures base * Pow2(if r1 + 1 < 20 then r1 + 1 else 20) < 0x8000_0000_0000_0000
  {
    var k1, k2 := if r1 + 1 < 20 then r1 + 1 else 20, if r2 + 1 < 20 then r2 + 1 else 20;
    Pow2Monotone(k1, k2);
    Pow2Monotone(k1, 20);
    MostIsAMega();
    TimesMonotone(base, Pow2(k1), Pow2(k2));
    TimesMonotone(base, Pow2(k1), 0x10_0000);
  }

  /** The first penalty waits for twice the base, each further one twice as long, up to the maximum and twenty. */
  lemma DelayDoubles(base: int, maximum: int, r: nat)
    requires 0 < base
    ensures Delay(base, maximum, 0) == Max(1, Min(2 * base, maximum))
    ensures r < 19 ==> Delay(base, maximum, r + 1) == Max(1, Min(2 * Delay(base, maximum, r), maximum))
    ensures 19 <= r ==> Delay(base, maximum, r) == Delay(base, maximum, 19)
  {
    assert Pow2(1) == 2;
    if r < 19 {
      assert Pow2(r + 2) == 2 * Pow2(r + 1);
      Doubled(base, Pow2(r + 1));
    }
  }

  lemma Doubled(base: int, p: nat)
    requires 0 < base && 1 <= p
    ensures base * (2 * p) == 2 * (base * p) && 1 <= base * p
  {
    TimesMonotone(base, 1, p);
  }

  /** A synced row survives a pruning exactly when it is not older than the cutoff, an unsynced one always. */
  lemma PrunedKeeps(rows: Rows, cutoff: int)
    ensures forall id :: id in rows ==>
              (id in Pruned(rows, cutoff) <==> (rows[id].synced ==> cutoff <= rows[id].createdAt))
    ensures forall id :: id in Pruned(rows, cutoff) ==> id in rows && Pruned(rows, cutoff)[id] == rows[id]
  {
  }

  /** Two prunings are one, with the later cutoff. */
  lemma PrunedTwice(rows: Rows, c: int, d: int)
    ensures Pruned(Pruned(rows, c), d) == Pruned(rows, Max(c, d))
  {
  }

  /** What was inserted at `now` and synced since goes with the first pruning whose cutoff is later. */
  lemma InsertedSurvives(rows: Rows, r: SyncRecord, id: int, now: int, cutoff: int)
    ensures var row := NewRow(r, id, now);
            && !row.synced && row.retries == 0 && row.nextRetryAt == 0 && row.record == r.(id := id)
            && (id in Pruned(rows[id := row.(synced := true)], cutoff) <==> cutoff <= now)
  {
  }

  // ---------------------------------------------------------------------------------------------
  // The table
  // ---------------------------------------------------------------------------------------------

  class ActivityDb {
    var rows: Rows
    var lastId: int

    /** `sqlite3_total_changes64`: rows inserted, updated or deleted over this connection. */
    var changes: nat

    ghost predicate Valid()
      reads this
    {
      0 <= lastId && forall id :: id in rows ==> 0 < id <= lastId && rows[id].record.id == id
    }

    constructor ()
      ensures Valid() && rows == map[] && lastId == 0 && changes == 0
    {
      rows, lastId, changes := map[], 0, 0;
    }

    /** `db_insert_activity`; `succeeds` is whether SQLite carries the statement out. */
    method InsertActivity(record: SyncRecord, now: int, succeeds: bool) returns (ok: bool)
      requires Valid()
      modifies this
      ensures Valid() && ok == succeeds
      ensures ok ==> lastId == old(lastId) + 1 && lastId !in old(rows) && changes == old(changes) + 1
      ensures ok ==> rows == old(rows)[lastId := NewRow(record, lastId, now)]
      ensures !ok ==> rows == old(rows) && lastId == old(lastId) && changes == old(changes)
    {
      if !succeeds { return false; }
      lastId := lastId + 1;
      rows := rows[lastId := NewRow(record, lastId, now)];
      changes := changes + 1;
      ok := true;
    }

    /** `db_get_unsynced_records`: the head of the retry queue. */
    method GetUnsyncedRecords(now: int, maxRecords: nat) returns (records: seq<SyncRecord>)
      requires Valid()
      ensures |records| == |InOrder(rows, Due(rows, now), maxRecords)|
      ensures forall i :: 0 <= i < |records| ==>
                var id := InOrder(rows, Due(rows, now), maxRecords)[i];
                id in rows && records[i] == rows[id].record
      ensures forall i :: 0 <= i < |records| ==>
                && records[i].id in rows && rows[records[i].id].record == records[i]
                && !rows[records[i].id].synced && rows[records[i].id].nextRetryAt <= now
      ensures |records| < maxRecords ==>
                forall id :: id in rows && !rows[id].synced && rows[id].nextRetryAt <= now ==>
                  exists i :: 0 <= i < |records| && records[i].id == id
    {
      records := [];
      var left := Due(rows, now);
      ghost var ids := InOrder(rows, Due(rows, now), maxRecords);
      while |records| < maxRecords && left != {}
        invariant left <= Due(rows, now) && |records| <= maxRecords
        invariant |records| <= |ids|
        invariant ids[|records|..] == InOrder(rows, left, maxRecords - |records|)
        invariant forall i :: 0 <= i < |records| ==> ids[i] in rows && records[i] == rows[ids[i]].record
        decreases |left|
      {
        ghost var rest := ids[|records|..];
        var m := FindFirst(left);
        assert rest[0] == m && rest[1..] == ids[|records| + 1..];
        records := records + [rows[m].record];
        left := left - {m};
      }
      assert |records| == |ids|;
      RecordsFetched(rows, now, maxRecords, records);
    }

    method FindFirst(ids: set<int>) returns (m: int)
      requires ids != {} && ids <= rows.Keys
      ensures m == First(rows, ids)
    {
      assert First(rows, ids) in ids;
      m :| m in ids;
      var left := ids - {m};
      while left != {}
        invariant left <= ids && IsFirst(rows, ids - left, m)
        decreases |left|
      {
        assert First(rows, left) in left;
        var x :| x in left;
        assert ids - (left - {x}) == (ids - left) + {x};
        if Precedes(rows, x, m) { m := x; }
        left := left - {x};
      }
      assert ids - left == ids;
      assert IsFirst(rows, ids, m) && IsFirst(rows, ids, First(rows, ids));
    }

    /** `db_mark_synced_batch`: statements of 500 ids each; `fails(k)` is whether the k-th one fails. */
    method MarkSyncedBatch(ids: seq<int>, fails: nat -> bool) returns (ok: bool)
      requires Valid()
      modifies this
      ensures Valid() && lastId == old(lastId)
      ensures rows == MarkSynced(old(rows), MarkedIds(ids, fails, |ids|))
      ensures ok <==> 0 < |ids| && forall i :: 0 <= i < |ids| ==> !fails(i / MARK_CHUNK)
      ensures old(changes) <= changes && (rows != old(rows) ==> old(changes) < changes)
    {
      assert rows == MarkSynced(rows, MarkedIds(ids, fails, 0));
      ok := |ids| > 0;
      var offset := 0;
      while offset < |ids|
        invariant offset <= |ids| && (offset == |ids| || offset % MARK_CHUNK == 0)
        invariant Valid() && lastId == old(lastId)
        invariant rows == MarkSynced(old(rows), MarkedIds(ids, fails, offset))
        invariant ok <==> 0 < |ids| && forall i :: 0 <= i < offset ==> !fails(i / MARK_CHUNK)
        invariant old(changes) <= changes && (rows != old(rows) ==> old(changes) < changes)
      {
        var n := if |ids| - offset < MARK_CHUNK then |ids| - offset else MARK_CHUNK;
        NextChunk(old(rows), ids, fails, offset, n);
        var done := MarkChunk(ids[offset..offset + n], fails(offset / MARK_CHUNK));
        if !done { ok := false; }
        offset := offset + n;
      }
    }

    /** One UPDATE ... WHERE id IN (...). */
    method MarkChunk(ids: seq<int>, fails: bool) returns (ok: bool)
      requires Valid()
      modifies this
      ensures Valid() && lastId == old(lastId) && ok == !fails
      ensures rows == if ok then MarkSynced(old(rows), set id | id in ids) else old(rows)
      ensures old(changes) <= changes && (rows != old(rows) ==> old(changes) < changes)
    {
      if !fails {
        var hit := set id | id in ids && id in rows;
        if hit == {} {
          assert forall id :: id in rows && id in ids ==> id in hit;
          assert rows == MarkSynced(rows, set id | id in ids);
        }
        rows := MarkSynced(rows, set id | id in ids);
        changes := changes + |hit|;
      }
      ok := !fails;
    }

    /** `db_mark_sync_failed`. */
    method MarkSyncFailed(id: int, now: int, base: int, maximum: int, succeeds: bool) returns (ok: bool)
      requires Valid()
      modifies this
      ensures Valid() && ok == succeeds && lastId == old(lastId)
      ensures rows == if ok then MarkFailed(old(rows), id, now, base, maximum) else old(rows)
      ensures old(changes) <= changes && (rows != old(rows) ==> old(changes) < changes)
    {
      if succeeds && id in rows {
        rows := MarkFailed(rows, id, now, base, maximum);
        changes := changes + 1;
      }
      ok := succeeds;
    }

    /** `db_delete_old_records`: only rows already synced are ever deleted. */
    method DeleteOldRecords(now: int, days: nat, succeeds: bool) returns (ok: bool)
      requires Valid()
      modifies this
      ensures Valid() && ok == succeeds && lastId == old(lastId)
      ensures rows == if ok then Pruned(old(rows), now - days * 86400) else old(rows)
      ensures ok ==> forall id :: id in old(rows) ==>
                (id in rows <==> (old(rows)[id].synced ==> now - days * 86400 <= old(rows)[id].createdAt))
      ensures old(changes) <= changes && (rows != old(rows) ==> old(changes) < changes)
    {
      if succeeds {
        var kept := Pruned(rows, now - days * 86400);
        var gone := rows.Keys - kept.Keys;
        if gone == {} {
          assert forall id :: id in rows ==> id in kept by {
            assert forall id :: id in rows && id !in kept ==> id in gone;
          }
        }
        rows := kept;
        changes := changes + |gone|;
      }
      ok := succeeds;
    }
  }

  /** What `FetchLaw` says of the records of the rows. */
  lemma RecordsFetched(rows: Rows, now: int, n: nat, records: seq<SyncRecord>)
    requires forall id :: id in rows ==> rows[id].record.id == id
    requires var ids := InOrder(rows, Due(rows, now), n);
             && |records| == |ids|
             && forall i :: 0 <= i < |ids| ==> ids[i] in rows && records[i] == rows[ids[i]].record
    ensures forall i :: 0 <= i < |records| ==>
              && records[i].id in rows && rows[records[i].id].record == records[i]
              && !rows[records[i].id].synced && rows[records[i].id].nextRetryAt <= now
    ensures |records| < n ==>
              forall id :: id in rows && !rows[id].synced && rows[id].nextRetryAt <= now ==>
                exists i :: 0 <= i < |records| && records[i].id == id
  {
    var ids := InOrder(rows, Due(rows, now), n);
    FetchLaw(rows, now, n);
    forall id | |ids| < n && id in rows && !rows[id].synced && rows[id].nextRetryAt <= now
      ensures exists i :: 0 <= i < |records| && records[i].id == id
    {
      var i :| 0 <= i < |ids| && ids[i] == id;
      assert records[i].id == id;
    }
  }

  /** The ids among the first `n` whose statement went through. */
  function MarkedIds(ids: seq<int>, fails: nat -> bool, n: nat): set<int>
    requires n <= |ids|
  {
    set i | 0 <= i < n && !fails(i / MARK_CHUNK) :: ids[i]
  }

  lemma NextChunk(rows: Rows, ids: seq<int>, fails: nat -> bool, offset: nat, n: nat)
    requires 0 < n <= MARK_CHUNK && offset + n <= |ids| && offset % MARK_CHUNK == 0
    ensures forall i :: offset <= i < offset + n ==> i / MARK_CHUNK == offset / MARK_CHUNK
    ensures MarkSynced(rows, MarkedIds(ids, fails, offset + n))
         == var before := MarkSynced(rows, MarkedIds(ids, fails, offset));
            var chunk := ids[offset..offset + n];
            if fails(offset / MARK_CHUNK) then before else MarkSynced(before, set id | id in chunk)
  {
    var done, next := MarkedIds(ids, fails, offset), MarkedIds(ids, fails, offset + n);
    var part := ids[offset..offset + n];
    var chunk := set id | id in part;
    if fails(offset / MARK_CHUNK) {
      assert next == done;
    } else {
      forall id | id in chunk ensures id in next {
        var j :| 0 <= j < n && part[j] == id;
        assert ids[offset + j] == id;
      }
      forall id | id in next ensures id in done + chunk {
        var i :| 0 <= i < offset + n && !fails(i / MARK_CHUNK) && ids[i] == id;
        if i >= offset { assert part[i - offset] == id; }
      }
      assert next == done + chunk;
    }
  }
}
