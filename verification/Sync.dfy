/**
 The sync cycle (src/agent/agent/sync.cpp): rounds of fetch, bisecting send, mark and penalise.
 */
module Sync {
  import opened JsonText
  import opened BatchSend
  import opened RecordJson
  import opened Network
  import opened Database

  const MAX_RECORDS := 100
  const MAX_ROUNDS_PER_CYCLE := 20
  const MAX_REQUESTS_PER_ROUND := 20

  /** What the cycle meets outside: the line, the clock, the settings, and statements that may fail. */
  datatype Host = Host(env: Env, fetchedAt: nat -> int, markedAt: nat -> int,
                       markFails: nat -> bool, penaltyFails: (nat, int) -> bool,
                       base: int, maximum: int)

  /** The callback handed to the bisection: send records [lo, hi) of the batch. */
  function Sender(env: Env, records: seq<SyncRecord>): SendFn<World> {
    (w: World, lo: nat, hi: nat) => if lo < hi <= |records| then Send(env, w, records[lo..hi]) else (w, TransportError)
  }

  ghost function RecordsOf(rows: Rows, ids: seq<int>): (rs: seq<SyncRecord>)
    requires forall i :: 0 <= i < |ids| ==> ids[i] in rows
    ensures |rs| == |ids| && forall i :: 0 <= i < |ids| ==> rs[i] == rows[ids[i]].record
  {
    seq(|ids|, i requires 0 <= i < |ids| => rows[ids[i]].record)
  }

  predicate InRange(indices: seq<nat>, n: nat) {
    forall k :: 0 <= k < |indices| ==> indices[k] < n
  }

  function Pick(ids: seq<int>, indices: seq<nat>): (s: seq<int>)
    requires InRange(indices, |ids|)
    ensures |s| == |indices| && forall k :: 0 <= k < |s| ==> s[k] == ids[indices[k]]
  {
    seq(|indices|, k requires 0 <= k < |indices| => ids[indices[k]])
  }

  function PenaliseAll(host: Host, rows: Rows, round: nat, ids: seq<int>): Rows
    decreases |ids|
  {
    if ids == [] then rows
    else
      var id := ids[|ids| - 1];
      var before := PenaliseAll(host, rows, round, ids[..|ids| - 1]);
      if host.penaltyFails(round, id) then before
      else MarkFailed(before, id, host.markedAt(round), host.base, host.maximum)
  }

  function Marked(host: Host, rows: Rows, round: nat, ids: seq<int>): Rows {
    if host.markFails(round) then rows else MarkSynced(rows, set i | 0 <= i < |ids| :: ids[i])
  }

  ghost function RoundIds(rows: Rows, now: int): (ids: seq<int>)
    ensures |ids| <= MAX_RECORDS && forall i :: 0 <= i < |ids| ==> ids[i] in rows && !rows[ids[i]].synced
  {
    InOrderSpec(rows, Due(rows, now), MAX_RECORDS);
    InOrder(rows, Due(rows, now), MAX_RECORDS)
  }

  /** The bisection of one round. */
  ghost function RoundSend(host: Host, rows: Rows, w: World, round: nat): Progress<World> {
    var ids := RoundIds(rows, host.fetchedAt(round));
    Bisection(Sender(host.env, RecordsOf(rows, ids)), |ids|, MAX_REQUESTS_PER_ROUND, w)
  }

  lemma RoundIndices(host: Host, rows: Rows, w: World, round: nat)
    ensures var r := RoundSend(host, rows, w, round).report;
            var n := |RoundIds(rows, host.fetchedAt(round))|;
            InRange(r.accepted, n) && InRange(r.rejected, n)
  {
    var ids := RoundIds(rows, host.fetchedAt(round));
    if ids != [] {
      BisectionAgainstAnyServer(Sender(host.env, RecordsOf(rows, ids)), |ids|, MAX_REQUESTS_PER_ROUND, w);
    }
    var r := RoundSend(host, rows, w, round).report;
    forall k | 0 <= k < |r.accepted| ensures r.accepted[k] < |ids| { assert r.accepted[k] in r.accepted; }
    forall k | 0 <= k < |r.rejected| ensures r.rejected[k] < |ids| { assert r.rejected[k] in r.rejected; }
  }

  /** The table after one round. */
  ghost function RoundRows(host: Host, rows: Rows, w: World, round: nat): Rows {
    var ids := RoundIds(rows, host.fetchedAt(round));
    var r := RoundSend(host, rows, w, round).report;
    RoundIndices(host, rows, w, round);
    PenaliseAll(host, Marked(host, rows, round, Pick(ids, r.accepted)), round, Pick(ids, r.rejected))
  }

  /** What one round comes to. */
  datatype Turn = Turn(count: nat, aborted: bool, rows: Rows, world: World)

  type TurnFn = (Rows, World, nat) -> Turn

  ghost function RoundTurn(host: Host): TurnFn {
    (rows: Rows, w: World, round: nat) =>
      Turn(|RoundIds(rows, host.fetchedAt(round))|, RoundSend(host, rows, w, round).report.aborted,
           RoundRows(host, rows, w, round), RoundSend(host, rows, w, round).world)
  }

  datatype CycleEnd = CycleEnd(rows: Rows, world: World, result: int)

  /** The rounds from `round` on. */
  ghost function Cycle(turn: TurnFn, rows: Rows, w: World, round: nat): CycleEnd
    requires round <= MAX_ROUNDS_PER_CYCLE
    decreases MAX_ROUNDS_PER_CYCLE - round, w
  {
    if round == MAX_ROUNDS_PER_CYCLE then CycleEnd(rows, w, 0)
    else
      var t := turn(rows, w, round);
      if t.count == 0 then CycleEnd(rows, w, 0)
      else if t.aborted then CycleEnd(t.rows, t.world, -1)
      else if t.count < MAX_RECORDS then CycleEnd(t.rows, t.world, 0)
      else Cycle(turn, t.rows, t.world, round + 1)
  }

  // ---------------------------------------------------------------------------------------------
  // How a cycle ends
  // ---------------------------------------------------------------------------------------------

  /** The rounds of a cycle in order: each starts where the one before it ended. */
  ghost predicate RoundsFrom(turn: TurnFn, rows: Rows, w: World, round: nat, ts: seq<Turn>)
    decreases |ts|
  {
    ts == [] || (ts[0] == turn(rows, w, round) && RoundsFrom(turn, ts[0].rows, ts[0].world, round + 1, ts[1..]))
  }

  /**
   Every round but the last sent a hundred records and settled them; the last one was the twentieth, sent fewer,
   or was cut short.  The result is -1 if the last round was cut short, else 0.
   */
  ghost predicate EndsAs(ts: seq<Turn>, allowed: nat, end: CycleEnd) {
    && 1 <= |ts| <= allowed
    && (forall k :: 0 <= k < |ts| - 1 ==> ts[k].count == MAX_RECORDS && !ts[k].aborted)
    && var last := ts[|ts| - 1];
       && (|ts| == allowed || last.count < MAX_RECORDS || last.aborted)
       && end == CycleEnd(last.rows, last.world, if last.aborted then -1 else 0)
  }

  /** A round that finds nothing changes nothing and is not cut short; none sends more than a hundred records. */
  ghost predicate IdleIsQuiet(turn: TurnFn) {
    forall rows: Rows, w: World, round: nat {:trigger turn(rows, w, round)} ::
      var t := turn(rows, w, round);
      && t.count <= MAX_RECORDS
      && (t.count == 0 ==> !t.aborted && t.rows == rows && t.world == w)
  }

  lemma {:induction false} CycleEnds(turn: TurnFn, rows: Rows, w: World, round: nat) returns (ts: seq<Turn>)
    requires round < MAX_ROUNDS_PER_CYCLE && IdleIsQuiet(turn)
    ensures RoundsFrom(turn, rows, w, round, ts)
    ensures EndsAs(ts, MAX_ROUNDS_PER_CYCLE - round, Cycle(turn, rows, w, round))
    decreases MAX_ROUNDS_PER_CYCLE - round
  {
    var t := turn(rows, w, round);
    if t.count < MAX_RECORDS || t.aborted || round + 1 == MAX_ROUNDS_PER_CYCLE {
      ts := [t];
    } else {
      var more := CycleEnds(turn, t.rows, t.world, round + 1);
      ts := [t] + more;
    }
  }

  /** What the figures of a round mean. */
  lemma RoundMeans(host: Host, rows: Rows, w: World, round: nat)
    ensures var t := RoundTurn(host)(rows, w, round);
            && t.count <= 100 && RoundSend(host, rows, w, round).report.requests <= 20
            && (t.aborted <==> Settled(RoundSend(host, rows, w, round).report) < t.count)
            && (t.count == 0 <==> forall id :: id in rows ==>
                  rows[id].synced || host.fetchedAt(round) < rows[id].nextRetryAt)
            && (t.count == 0 ==> t.rows == rows && t.world == w)
  {
    var now := host.fetchedAt(round);
    var ids := RoundIds(rows, now);
    FetchLaw(rows, now, MAX_RECORDS);
    BisectionSettles(Sender(host.env, RecordsOf(rows, ids)), |ids|, MAX_REQUESTS_PER_ROUND, w);
    assert ids != [] ==> ids[0] in rows;
    if ids != [] {
      ResolveWithin(Sender(host.env, RecordsOf(rows, ids)), 0, |ids|, MAX_REQUESTS_PER_ROUND,
                    Progress(w, EMPTY_REPORT, false));
    }
  }

  lemma RoundsAreQuiet(host: Host)
    ensures IdleIsQuiet(RoundTurn(host))
  {
    forall rows: Rows, w: World, round: nat
      ensures var t := RoundTurn(host)(rows, w, round);
              && t.count <= MAX_RECORDS
              && (t.count == 0 ==> !t.aborted && t.rows == rows && t.world == w)
    {
      RoundMeans(host, rows, w, round);
    }
  }

  lemma {:induction false} RoundAt(turn: TurnFn, rows: Rows, w: World, round: nat, ts: seq<Turn>, k: nat)
    returns (r: Rows, v: World)
    requires RoundsFrom(turn, rows, w, round, ts) && k < |ts|
    ensures ts[k] == turn(r, v, round + k)
    decreases k
  {
    if k == 0 {
      r, v := rows, w;
    } else {
      r, v := RoundAt(turn, ts[0].rows, ts[0].world, round + 1, ts[1..], k - 1);
    }
  }

  /**
   The result is -1 just when the last round, from table `r` and world `v`, left a record of its batch unsettled,
   and 0 just when it settled the whole batch; then no row was due, fewer than a hundred were sent, or the
   twenty rounds are used up.
   */
  lemma ResultMeans(host: Host, rows: Rows, w: World) returns (ts: seq<Turn>, r: Rows, v: World)
    ensures RoundsFrom(RoundTurn(host), rows, w, 0, ts) && ts != []
    ensures var (n, result) := (|ts| - 1, Cycle(RoundTurn(host), rows, w, 0).result);
            var (sent, settled) := (|RoundIds(r, host.fetchedAt(n))|, Settled(RoundSend(host, r, v, n).report));
            && ts[n] == RoundTurn(host)(r, v, n) && settled <= sent
            && (result == -1 <==> settled < sent) && (result == 0 <==> settled == sent)
            && (result == 0 ==>
                  || (forall id :: id in r ==> r[id].synced || host.fetchedAt(n) < r[id].nextRetryAt)
                  || 0 < sent < 100
                  || |ts| == 20)
  {
    RoundsAreQuiet(host);
    ts := CycleEnds(RoundTurn(host), rows, w, 0);
    r, v := RoundAt(RoundTurn(host), rows, w, 0, ts, |ts| - 1);
    RoundMeans(host, r, v, |ts| - 1);
    var ids := RoundIds(r, host.fetchedAt(|ts| - 1));
    if ids != [] {
      BisectionAgainstAnyServer(Sender(host.env, RecordsOf(r, ids)), |ids|, MAX_REQUESTS_PER_ROUND, v);
    }
  }

  /** What every round keeps, the cycle keeps. */
  lemma {:induction false} CycleKeeps(turn: TurnFn, rows: Rows, w: World, round: nat, keeps: (Rows, World) -> bool)
    requires round <= MAX_ROUNDS_PER_CYCLE && keeps(rows, w)
    requires forall r, v, k {:trigger turn(r, v, k)} :: keeps(r, v) ==> keeps(turn(r, v, k).rows, turn(r, v, k).world)
    ensures keeps(Cycle(turn, rows, w, round).rows, Cycle(turn, rows, w, round).world)
    decreases MAX_ROUNDS_PER_CYCLE - round
  {
    if round < MAX_ROUNDS_PER_CYCLE {
      var t := turn(rows, w, round);
      CycleKeeps(turn, t.rows, t.world, round + 1, keeps);
    }
  }

  /** `sync_pending_records`. */
  method SyncPendingRecords(db: ActivityDb, host: Host, w0: World) returns (result: int, w: World)
    requires db.Valid()
    modifies db
    ensures db.Valid() && db.lastId == old(db.lastId)
    ensures CycleEnd(db.rows, w, result)
         == if w0.session.None? then CycleEnd(old(db.rows), w0, 0) else Cycle(RoundTurn(host), old(db.rows), w0, 0)
    ensures w0.session.Some? ==> exists ts ::
              && RoundsFrom(RoundTurn(host), old(db.rows), w0, 0, ts)
              && EndsAs(ts, MAX_ROUNDS_PER_CYCLE, CycleEnd(db.rows, w, result))
  {
    if w0.session.None? {
      return 0, w0;
    }
    RoundsAreQuiet(host);
    ghost var ts := CycleEnds(RoundTurn(host), db.rows, w0, 0);
    result, w := RoundLoop(db, host, w0);
  }

  method RoundLoop(db: ActivityDb, host: Host, w0: World) returns (result: int, w: World)
    requires db.Valid()
    modifies db
    ensures db.Valid() && db.lastId == old(db.lastId)
    ensures CycleEnd(db.rows, w, result) == Cycle(RoundTurn(host), old(db.rows), w0, 0)
  {
    w := w0;
    for round := 0 to MAX_ROUNDS_PER_CYCLE
      invariant db.Valid() && db.lastId == old(db.lastId)
      invariant Cycle(RoundTurn(host), db.rows, w, round) == Cycle(RoundTurn(host), old(db.rows), w0, 0)
    {
      var count, aborted;
      count, aborted, w := SyncRound(db, host, round, w);
      if count == 0 || aborted || count < MAX_RECORDS {
        return (if count > 0 && aborted then -1 else 0), w;
      }
    }
    result := 0;
  }

  /** One turn of the round loop. */
  method SyncRound(db: ActivityDb, host: Host, round: nat, w0: World) returns (count: nat, aborted: bool, w: World)
    requires db.Valid()
    modifies db
    ensures db.Valid() && db.lastId == old(db.lastId)
    ensures Turn(count, aborted, db.rows, w) == RoundTurn(host)(old(db.rows), w0, round)
    ensures count == 0 ==> db.rows == old(db.rows) && w == w0
  {
    var records := db.GetUnsyncedRecords(host.fetchedAt(round), MAX_RECORDS);
    ghost var ids := RoundIds(db.rows, host.fetchedAt(round));
    assert records == RecordsOf(db.rows, ids);
    RoundIndices(host, db.rows, w0, round);
    var report;
    report, w := SendWithBisect(|records|, MAX_REQUESTS_PER_ROUND, Sender(host.env, records), w0);
    MarkAccepted(db, host, round, records, report, ids);
    PenaliseRejected(db, host, round, records, report, ids);
    count, aborted := |records|, report.aborted;
  }

  method MarkAccepted(db: ActivityDb, host: Host, round: nat, records: seq<SyncRecord>, report: BatchReport,
                      ghost ids: seq<int>)
    requires db.Valid() && |ids| == |records|
    requires forall i :: 0 <= i < |ids| ==> records[i].id == ids[i]
    requires InRange(report.accepted, |ids|)
    modifies db
    ensures db.Valid() && db.lastId == old(db.lastId)
    ensures db.rows == Marked(host, old(db.rows), round, Pick(ids, report.accepted))
  {
    if report.accepted != [] {
      var accepted := [];
      for k := 0 to |report.accepted|
        invariant accepted == Pick(ids, report.accepted)[..k]
      {
        accepted := accepted + [records[report.accepted[k]].id];
      }
      var _ := db.MarkSyncedBatch(accepted, _ => host.markFails(round));
    }
  }

  method PenaliseRejected(db: ActivityDb, host: Host, round: nat, records: seq<SyncRecord>, report: BatchReport,
                          ghost ids: seq<int>)
    requires db.Valid() && |ids| == |records|
    requires forall i :: 0 <= i < |ids| ==> records[i].id == ids[i]
    requires InRange(report.rejected, |ids|)
    modifies db
    ensures db.Valid() && db.lastId == old(db.lastId)
    ensures db.rows == PenaliseAll(host, old(db.rows), round, Pick(ids, report.rejected))
  {
    ghost var rejected := Pick(ids, report.rejected);
    for k := 0 to |report.rejected|
      invariant db.Valid() && db.lastId == old(db.lastId)
      invariant db.rows == PenaliseAll(host, old(db.rows), round, rejected[..k])
    {
      assert rejected[..k + 1][..k] == rejected[..k];
      var id := records[report.rejected[k]].id;
      var _ := db.MarkSyncFailed(id, host.markedAt(round), host.base, host.maximum, !host.penaltyFails(round, id));
    }
    assert rejected[..|report.rejected|] == rejected;
  }
}
