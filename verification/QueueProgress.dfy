/**
 No starvation: refused records never keep the others from being tried.

 A row with `next_retry_at` 0 has never been refused.  The fetch order puts all of these first, oldest
 first, and an answered round settles at least the record at the head of its batch.
 */
module QueueProgress {
  import opened JsonText
  import opened BatchSend
  import opened RecordJson
  import opened Network
  import opened Database
  import opened Sets
  import opened Sync

  /** Queued and never refused, among the rows up to an id. */
  function Untried(rows: Rows, upTo: int): set<int> {
    set id | id in rows && id <= upTo && !rows[id].synced && rows[id].nextRetryAt == 0
  }

  /** No retry time lies before the epoch. */
  ghost predicate RetryTimesValid(rows: Rows) {
    forall id :: id in rows ==> 0 <= rows[id].nextRetryAt
  }

  /** The clock of the machine stands after the epoch. */
  ghost predicate ClockValid(host: Host) {
    forall k :: 0 <= host.fetchedAt(k) && 0 <= host.markedAt(k)
  }

  /** The server answered every request of the round and the database took every statement. */
  ghost predicate Answered(host: Host, rows: Rows, w: World, round: nat) {
    && !RoundSend(host, rows, w, round).lost
    && !host.markFails(round)
    && forall id :: !host.penaltyFails(round, id)
  }

  lemma {:induction false} FloorLog2Monotone(m: nat, n: nat)
    requires 0 < m <= n
    ensures FloorLog2(m) <= FloorLog2(n)
  {
    if m > 1 { FloorLog2Monotone(m / 2, n / 2); }
  }

  /** A penalty touches nothing but the retry bookkeeping of its row, and always sets a time after the epoch. */
  lemma {:induction false} PenaltyEffect(host: Host, rows: Rows, round: nat, ids: seq<int>)
    requires 0 <= host.markedAt(round)
    ensures var after := PenaliseAll(host, rows, round, ids);
            && after.Keys == rows.Keys
            && (forall id :: id in rows ==> after[id].synced == rows[id].synced)
            && (forall id :: id in rows ==> after[id] == rows[id] || 0 < after[id].nextRetryAt)
            && (forall id :: id in rows && id in ids && !host.penaltyFails(round, id) ==> 0 < after[id].nextRetryAt)
    decreases |ids|
  {
    if ids != [] {
      var last := ids[|ids| - 1];
      PenaltyEffect(host, rows, round, ids[..|ids| - 1]);
      forall id | id in ids && id != last ensures id in ids[..|ids| - 1] {
        var k :| 0 <= k < |ids| && ids[k] == id;
        assert ids[..|ids| - 1][k] == id;
      }
    }
  }

  /** A round never puts a row back among the untried ones. */
  lemma RoundKeepsTried(host: Host, rows: Rows, w: World, round: nat, upTo: int)
    requires ClockValid(host) && RetryTimesValid(rows)
    ensures var after := RoundRows(host, rows, w, round);
            && after.Keys == rows.Keys
            && RetryTimesValid(after)
            && Untried(after, upTo) <= Untried(rows, upTo)
  {
    var ids, r := RoundIds(rows, host.fetchedAt(round)), RoundSend(host, rows, w, round).report;
    RoundIndices(host, rows, w, round);
    PenaltyEffect(host, Marked(host, rows, round, Pick(ids, r.accepted)), round, Pick(ids, r.rejected));
  }

  /** The head of the batch is the oldest record that was never refused, as long as there is one. */
  lemma HeadIsUntried(rows: Rows, now: int, upTo: int)
    requires 0 <= now && RetryTimesValid(rows) && Untried(rows, upTo) != {}
    ensures var ids := RoundIds(rows, now);
            ids != [] && ids[0] in Untried(rows, upTo) && forall id :: id in Untried(rows, upTo) ==> ids[0] <= id
  {
    var due := Due(rows, now);
    var u := Any(Untried(rows, upTo));
    assert u in due;
    InOrderSpec(rows, due, MAX_RECORDS);
    var m := First(rows, due);
    assert RoundIds(rows, now)[0] == m;
    assert m == u || Precedes(rows, m, u);
    forall id | id in Untried(rows, upTo) ensures m <= id {
      assert id in due;
      assert id == m || Precedes(rows, m, id);
    }
  }

  /** An answered round settles the head of its batch: marked as synced, or refused when sent alone. */
  lemma HeadIsSettled(host: Host, rows: Rows, w: World, round: nat)
    requires ClockValid(host) && Answered(host, rows, w, round)
    requires RoundIds(rows, host.fetchedAt(round)) != []
    ensures var head := RoundIds(rows, host.fetchedAt(round))[0];
            var after := RoundRows(host, rows, w, round);
            head in after && (after[head].synced || 0 < after[head].nextRetryAt)
  {
    var ids, r := RoundIds(rows, host.fetchedAt(round)), RoundSend(host, rows, w, round).report;
    RoundIndices(host, rows, w, round);
    FloorLog2Monotone(|ids|, MAX_RECORDS);
    assert FloorLog2(MAX_RECORDS) == 6 by { assert FloorLog2(12) == 3; }
    BisectionAgainstAnyServer(Sender(host.env, RecordsOf(rows, ids)), |ids|, MAX_REQUESTS_PER_ROUND, w);
    var accepted, rejected := Pick(ids, r.accepted), Pick(ids, r.rejected);
    var marked := Marked(host, rows, round, accepted);
    PenaltyEffect(host, marked, round, rejected);
    var head := ids[0];
    if 0 in r.accepted {
      var k :| 0 <= k < |r.accepted| && r.accepted[k] == 0;
      assert accepted[k] == head;
      assert marked[head].synced;
    } else {
      var k :| 0 <= k < |r.rejected| && r.rejected[k] == 0;
      assert rejected[k] == head;
    }
  }

  /** Each answered round takes at least one record off the untried ones. */
  lemma RoundResolvesOne(host: Host, rows: Rows, w: World, round: nat, upTo: int)
    requires ClockValid(host) && RetryTimesValid(rows) && Answered(host, rows, w, round)
    requires Untried(rows, upTo) != {}
    ensures |Untried(RoundRows(host, rows, w, round), upTo)| < |Untried(rows, upTo)|
  {
    HeadIsUntried(rows, host.fetchedAt(round), upTo);
    HeadIsSettled(host, rows, w, round);
    RoundKeepsTried(host, rows, w, round, upTo);
    var head := RoundIds(rows, host.fetchedAt(round))[0];
    Smaller(Untried(RoundRows(host, rows, w, round), upTo), Untried(rows, upTo), head);
  }

  // ---------------------------------------------------------------------------------------------
  // Runs of rounds with other things in between
  // ---------------------------------------------------------------------------------------------

  /** What may happen to the queue: a new record, a pruning, a change of account, or the next round. */
  datatype Event =
    | Added(record: SyncRecord, now: int)
    | Removed(cutoff: int)
    | Account(session: Option<string>)
    | NextRound

  datatype Queue = Queue(rows: Rows, lastId: int, world: World, round: nat)

  ghost function Happen(host: Host, q: Queue, e: Event): Queue {
    match e
    case Added(r, now) => q.(lastId := q.lastId + 1, rows := q.rows[q.lastId + 1 := NewRow(r, q.lastId + 1, now)])
    case Removed(cutoff) => q.(rows := Pruned(q.rows, cutoff))
    case Account(session) => q.(world := q.world.(session := session))
    case NextRound =>
      Queue(RoundRows(host, q.rows, q.world, q.round), q.lastId,
            RoundSend(host, q.rows, q.world, q.round).world, q.round + 1)
  }

  ghost function Play(host: Host, q: Queue, events: seq<Event>): Queue
    decreases |events|
  {
    if events == [] then q else Play(host, Happen(host, q, events[0]), events[1..])
  }

  ghost function AnsweredRounds(host: Host, q: Queue, events: seq<Event>): nat
    decreases |events|
  {
    if events == [] then 0
    else (if events[0].NextRound? && Answered(host, q.rows, q.world, q.round) then 1 else 0)
         + AnsweredRounds(host, Happen(host, q, events[0]), events[1..])
  }

  lemma EventProgress(host: Host, q: Queue, e: Event, upTo: int)
    requires ClockValid(host) && RetryTimesValid(q.rows) && upTo <= q.lastId
    ensures var p := Happen(host, q, e);
            && RetryTimesValid(p.rows) && upTo <= p.lastId
            && Untried(p.rows, upTo) <= Untried(q.rows, upTo)
            && (e.NextRound? && Answered(host, q.rows, q.world, q.round) && Untried(q.rows, upTo) != {} ==>
                  |Untried(p.rows, upTo)| < |Untried(q.rows, upTo)|)
  {
    if e.NextRound? {
      RoundKeepsTried(host, q.rows, q.world, q.round, upTo);
      if Answered(host, q.rows, q.world, q.round) && Untried(q.rows, upTo) != {} {
        RoundResolvesOne(host, q.rows, q.world, q.round, upTo);
      }
    }
  }

  /**
   With m records queued and never refused, m answered rounds leave none of them untried, whatever bad
   records are about and whatever is added, pruned or lost in between.
   */
  lemma {:induction false} NoStarvation(host: Host, q: Queue, events: seq<Event>, upTo: int)
    requires ClockValid(host) && RetryTimesValid(q.rows) && upTo <= q.lastId
    requires |Untried(q.rows, upTo)| <= AnsweredRounds(host, q, events)
    ensures forall id :: id in Play(host, q, events).rows && id <= upTo ==>
              var row := Play(host, q, events).rows[id];
              row.synced || 0 < row.nextRetryAt
    decreases |events|
  {
    if events == [] {
      forall id | id in q.rows && id <= upTo ensures q.rows[id].synced || 0 < q.rows[id].nextRetryAt {
        assert id !in Untried(q.rows, upTo);
      }
    } else {
      EventProgress(host, q, events[0], upTo);
      var p := Happen(host, q, events[0]);
      SubsetSize(Untried(p.rows, upTo), Untried(q.rows, upTo));
      NoStarvation(host, p, events[1..], upTo);
    }
  }

  // ---------------------------------------------------------------------------------------------
  // Nothing is sent before its time
  // ---------------------------------------------------------------------------------------------

  /** None of the rounds among these events fetches the record. */
  ghost predicate NeverFetched(host: Host, q: Queue, events: seq<Event>, id: int)
    decreases |events|
  {
    events == [] ||
      ((events[0].NextRound? ==> id !in RoundIds(q.rows, host.fetchedAt(q.round)))
       && NeverFetched(host, Happen(host, q, events[0]), events[1..], id))
  }

  /** A round touches only the rows it fetched. */
  lemma RoundLeavesOthers(host: Host, rows: Rows, w: World, round: nat, id: int)
    requires id in rows && id !in RoundIds(rows, host.fetchedAt(round))
    ensures id in RoundRows(host, rows, w, round) && RoundRows(host, rows, w, round)[id] == rows[id]
  {
    var ids, r := RoundIds(rows, host.fetchedAt(round)), RoundSend(host, rows, w, round).report;
    RoundIndices(host, rows, w, round);
    var accepted := Pick(ids, r.accepted);
    assert id !in accepted && id !in Pick(ids, r.rejected);
    assert id !in set i | 0 <= i < |accepted| :: accepted[i];
    PenaltiesLeaveOthers(host, Marked(host, rows, round, accepted), round, Pick(ids, r.rejected), id);
  }

  lemma {:induction false} PenaltiesLeaveOthers(host: Host, rows: Rows, round: nat, ids: seq<int>, id: int)
    requires id in rows && id !in ids
    ensures id in PenaliseAll(host, rows, round, ids) && PenaliseAll(host, rows, round, ids)[id] == rows[id]
    decreases |ids|
  {
    if ids != [] { PenaltiesLeaveOthers(host, rows, round, ids[..|ids| - 1], id); }
  }

  /**
   A waiting record is not fetched, so in no request, by any round before its retry time, and its row stays as it
   is, whatever is added, pruned or sent meanwhile.
   */
  lemma {:induction false} WaitsItsTime(host: Host, q: Queue, events: seq<Event>, id: int)
    requires id in q.rows && !q.rows[id].synced && id <= q.lastId
    requires forall round :: q.round <= round < Play(host, q, events).round ==>
               host.fetchedAt(round) < q.rows[id].nextRetryAt
    ensures NeverFetched(host, q, events, id)
    ensures id in Play(host, q, events).rows && Play(host, q, events).rows[id] == q.rows[id]
    decreases |events|
  {
    if events != [] {
      var p := Happen(host, q, events[0]);
      RoundsGoOn(host, p, events[1..]);
      if events[0].NextRound? {
        FetchLaw(q.rows, host.fetchedAt(q.round), MAX_RECORDS);
        RoundLeavesOthers(host, q.rows, q.world, q.round, id);
      }
      WaitsItsTime(host, p, events[1..], id);
    }
  }

  lemma {:induction false} RoundsGoOn(host: Host, q: Queue, events: seq<Event>)
    ensures q.round <= Play(host, q, events).round
    decreases |events|
  {
    if events != [] { RoundsGoOn(host, Happen(host, q, events[0]), events[1..]); }
  }

  /** A penalised row counts one refusal more and is due that refusal's delay after the penalty; no other changes. */
  lemma {:induction false} PenaltyDelays(host: Host, rows: Rows, round: nat, ids: seq<int>, id: int)
    requires id in rows && forall i, j :: 0 <= i < j < |ids| ==> ids[i] != ids[j]
    ensures var (row, after) := (rows[id], PenaliseAll(host, rows, round, ids));
            && id in after
            && (id !in ids || host.penaltyFails(round, id) ==> after[id] == row)
            && (id in ids && !host.penaltyFails(round, id) ==>
                  after[id] == Row(row.record, row.createdAt, row.synced, row.retries + 1,
                                   host.markedAt(round) + Delay(host.base, host.maximum, row.retries)))
    decreases |ids|
  {
    if ids != [] {
      var n := |ids| - 1;
      PenaltyDelays(host, rows, round, ids[..n], id);
      assert id in ids ==> id == ids[n] || id in ids[..n];
      assert ids[n] !in ids[..n];
    }
  }

  /** Distinct ids: what was refused was not accepted too. */
  lemma RefusedIsNotPicked(ids: seq<int>, r: BatchReport, i: nat)
    requires forall j, k :: 0 <= j < k < |ids| ==> ids[j] != ids[k]
    requires InRange(r.accepted, |ids|) && InRange(r.rejected, |ids|)
    requires i < |ids| && i in r.rejected && forall j :: j in r.accepted ==> j !in r.rejected
    ensures ids[i] !in Pick(ids, r.accepted) && ids[i] in Pick(ids, r.rejected)
  {
    var accepted, rejected := Pick(ids, r.accepted), Pick(ids, r.rejected);
    forall k | 0 <= k < |accepted| ensures accepted[k] != ids[i] {
      assert r.accepted[k] in r.accepted;
      assert r.accepted[k] != i;
    }
    var k :| 0 <= k < |r.rejected| && r.rejected[k] == i;
    assert rejected[k] == ids[i];
  }

  /** The record at place `i` of the batch of a round is refused. */
  ghost predicate RefusedAt(host: Host, rows: Rows, w: World, round: nat, id: int, i: nat) {
    var ids := RoundIds(rows, host.fetchedAt(round));
    i < |ids| && ids[i] == id && i in RoundSend(host, rows, w, round).report.rejected
  }

  lemma RefusedIsPicked(host: Host, rows: Rows, w: World, round: nat, id: int, i: nat)
    requires RefusedAt(host, rows, w, round, id, i)
    ensures var (ids, r) := (RoundIds(rows, host.fetchedAt(round)), RoundSend(host, rows, w, round).report);
            && InRange(r.accepted, |ids|) && InRange(r.rejected, |ids|)
            && id in rows && !rows[id].synced && id !in Pick(ids, r.accepted) && id in Pick(ids, r.rejected)
            && forall j, k :: 0 <= j < k < |r.rejected| ==> Pick(ids, r.rejected)[j] != Pick(ids, r.rejected)[k]
  {
    var ids, r := RoundIds(rows, host.fetchedAt(round)), RoundSend(host, rows, w, round).report;
    RoundIndices(host, rows, w, round);
    FetchLaw(rows, host.fetchedAt(round), MAX_RECORDS);
    BisectionSettles(Sender(host.env, RecordsOf(rows, ids)), |ids|, MAX_REQUESTS_PER_ROUND, w);
    RefusedIsNotPicked(ids, r, i);
  }

  /** A record refused in a round is due again only after the time it was penalised. */
  lemma RefusedWaits(host: Host, q: Queue, id: int, i: nat)
    requires RefusedAt(host, q.rows, q.world, q.round, id, i) && !host.penaltyFails(q.round, id)
    ensures var p := Happen(host, q, NextRound);
            && id in q.rows && id in p.rows && p.rows[id].record == q.rows[id].record && !p.rows[id].synced
            && p.rows[id].retries == q.rows[id].retries + 1
            && p.rows[id].nextRetryAt == host.markedAt(q.round) + Delay(host.base, host.maximum, q.rows[id].retries)
            && host.markedAt(q.round) < p.rows[id].nextRetryAt
  {
    RefusedIsPicked(host, q.rows, q.world, q.round, id, i);
    var ids, r := RoundIds(q.rows, host.fetchedAt(q.round)), RoundSend(host, q.rows, q.world, q.round).report;
    var marked := Marked(host, q.rows, q.round, Pick(ids, r.accepted));
    assert marked[id] == q.rows[id];
    PenaltyDelays(host, marked, q.round, Pick(ids, r.rejected), id);
  }
}
