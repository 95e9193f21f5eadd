/**
 A sync round against the deployed edge function: it takes single records only, so a backlog moves by at
 least eight records a cycle.
 */
module Deployed {
  import opened JsonText
  import opened Numbers
  import opened Sets
  import opened RecordJson
  import opened BatchSend
  import opened Network
  import opened Database
  import opened Sync
  import opened SyncActivity
  import EndToEnd

  /** Every request reaches the deployed function, its token is good, and the database is up. */
  ghost predicate LineIsGood(env: Env) {
    forall k, user, batch {:trigger env.wire(k, user, batch)} ::
      && env.wire(k, user, batch).Answer?
      && env.wire(k, user, batch).status == Status(true, Of(user), PayloadOf(batch), true)
  }

  function SignedIn(): World -> bool { (w: World) => w.session.Some? }

  /** One request, one answer: 200 for a single acceptable record, else 400. */
  lemma SendIsVerdict(env: Env, w: World, batch: seq<SyncRecord>)
    requires LineIsGood(env) && w.session.Some? && batch != []
    ensures var (v, outcome) := Send(env, w, batch);
            && v.session == w.session
            && outcome == if |batch| == 1 && Acceptable(batch[0]) then Accepted else Rejected
  {
    var user := w.session.value;
    DeployedVerdict(map[], user, batch);
    assert Https(env, w, batch).1 == env.wire(w.time, user, batch);
  }

  lemma SenderTakesSingles(env: Env, records: seq<SyncRecord>)
    requires LineIsGood(env)
    ensures SinglesOnly(Sender(env, records), SignedIn(), |records|)
  {
    var send := Sender(env, records);
    forall w: World, lo: nat, hi: nat | SignedIn()(w) && lo < hi <= |records|
      ensures SignedIn()(send(w, lo, hi).0) && send(w, lo, hi).1 != TransportError
      ensures lo + 1 < hi ==> send(w, lo, hi).1 == Rejected
    {
      SendIsVerdict(env, w, records[lo..hi]);
    }
  }

  /** A batch of n records takes 2n - 1 requests; with a smaller budget `SettledWithin` of them are settled. */
  lemma BatchAgainstDeployed(env: Env, records: seq<SyncRecord>, maxRequests: int, w: World)
    requires LineIsGood(env) && w.session.Some? && records != []
    ensures var n, h := |records|, Bisection(Sender(env, records), |records|, maxRequests, w);
            && !h.lost && h.world.session.Some?
            && Prefix(h.report, SettledWithin(n, maxRequests))
            && (h.report.aborted <==> maxRequests < 2 * n - 1)
  {
    SenderTakesSingles(env, records);
    SinglesBatch(Sender(env, records), |records|, maxRequests, w, SignedIn());
  }

  /** Of a hundred records, twenty requests settle eight. */
  lemma EightOfAHundred()
    ensures SettledWithin(100, 20) == 8
  {
    assert SettledWithin(6, 5) == 2 by { assert SettledWithin(2, 2) == 1; }
    assert SettledWithin(12, 17) == 8;
    assert SettledWithin(50, 19) == SettledWithin(25, 18);
  }

  /** Each verdict is the record's own. */
  lemma SenderJudges(env: Env, records: seq<SyncRecord>, maxRequests: int, w: World)
    requires LineIsGood(env) && records != []
    ensures Sorted(Bisection(Sender(env, records), |records|, maxRequests, w).report,
                   EndToEnd.GoodAt(records, Acceptable))
  {
    var good := EndToEnd.GoodAt(records, Acceptable);
    forall k, user, batch | batch != [] && env.wire(k, user, batch).Answer?
      ensures env.wire(k, user, batch).status == Status(true, Of(user), PayloadOf(batch), true)
      ensures env.wire(k, user, batch).status in {200, 400}
    {
      DeployedVerdict(map[], user, batch);
    }
    DeployedIsSound(env);
    EndToEnd.SenderIsSound(env, records, Acceptable);
    ResolveSorts(Sender(env, records), 0, |records|, maxRequests, Progress(w, EMPTY_REPORT, false), good, |records|);
  }

  /**
   A full round against the deployed function settles exactly the first eight records, each by its own
   verdict, and ends the cycle with -1.
   */
  lemma FullRoundSettlesEight(host: Host, rows: Rows, w: World)
    requires LineIsGood(host.env) && w.session.Some?
    requires |RoundIds(rows, host.fetchedAt(0))| == MAX_RECORDS
    ensures var records := RecordsOf(rows, RoundIds(rows, host.fetchedAt(0)));
            var r := RoundSend(host, rows, w, 0).report;
            && (forall i: nat :: i in r.accepted <==> i < 8 && Acceptable(records[i]))
            && (forall i: nat :: i in r.rejected <==> i < 8 && !Acceptable(records[i]))
            && Cycle(RoundTurn(host), rows, w, 0).result == -1
  {
    var records := RecordsOf(rows, RoundIds(rows, host.fetchedAt(0)));
    EightOfAHundred();
    BatchAgainstDeployed(host.env, records, MAX_REQUESTS_PER_ROUND, w);
    SenderJudges(host.env, records, MAX_REQUESTS_PER_ROUND, w);
  }

  // ---------------------------------------------------------------------------------------------
  // How fast a backlog drains
  // ---------------------------------------------------------------------------------------------

  /** Within this budget at least eight records are settled of any batch of `lo` to `hi`. */
  predicate SettlesEight(lo: nat, hi: nat, budget: int)
    requires 0 < lo
    decreases if hi < lo then 0 else hi - lo + 1
  {
    hi < lo || (8 <= SettledWithin(lo, budget) && SettlesEight(lo + 1, hi, budget))
  }

  lemma {:induction false} SettlesEightOf(lo: nat, hi: nat, budget: int, n: nat)
    requires 0 < lo <= n <= hi && SettlesEight(lo, hi, budget)
    ensures 8 <= SettledWithin(n, budget)
    decreases n - lo
  {
    if lo < n { SettlesEightOf(lo + 1, hi, budget, n); }
  }

  /** Twenty requests settle eight records of any batch that has as many. */
  lemma AtLeastEight(n: nat)
    requires 8 <= n <= MAX_RECORDS
    ensures 8 <= SettledWithin(n, MAX_REQUESTS_PER_ROUND)
  {
    if n <= 21 {
      assert SettlesEight(8, 21, 20);
      SettlesEightOf(8, 21, 20, n);
    } else {
      assert SettledWithin(n, 20) == SettledWithin(n / 2, 19);
      HalfSettlesEight(n / 2);
    }
  }

  lemma HalfSettlesEight(n: nat)
    requires 11 <= n <= 50
    ensures 8 <= SettledWithin(n, 19)
  {
    if n <= 19 {
      assert SettlesEight(11, 19, 19);
      SettlesEightOf(11, 19, 19, n);
    } else {
      assert SettledWithin(n, 19) == SettledWithin(n / 2, 18);
      QuarterSettlesEight(n / 2);
    }
  }

  lemma QuarterSettlesEight(n: nat)
    requires 10 <= n <= 25
    ensures 8 <= SettledWithin(n, 18)
  {
    if n <= 14 {
      assert SettlesEight(10, 14, 18);
      SettlesEightOf(10, 14, 18, n);
    } else if n <= 19 {
      UpToNineteen(n);
    } else {
      LastSettlesEight(n / 2);
    }
  }

  lemma UpToNineteen(n: nat)
    requires 15 <= n <= 19
    ensures 8 <= SettledWithin(n, 18)
  {
    assert SettlesEight(15, 19, 18);
    SettlesEightOf(15, 19, 18, n);
  }

  lemma LastSettlesEight(n: nat)
    requires 10 <= n <= 12
    ensures 8 <= SettledWithin(n, 17)
  {
    assert SettledWithin(10, 17) == 8 by { assert SettledWithin(5, 7) == 3 by { assert SettledWithin(3, 3) == 1; } }
    assert SettledWithin(11, 17) == 8 by { assert SettledWithin(6, 7) == 3; }
    assert SettledWithin(12, 17) == 8 by { assert SettledWithin(6, 5) == 2; }
  }

  function Backlog(rows: Rows): set<int> { set id | id in rows && !rows[id].synced }

  /** What waits is acceptable, and due whenever the host fetches. */
  ghost predicate AllDue(host: Host, rows: Rows) {
    forall id, round :: id in Backlog(rows) ==>
      Acceptable(rows[id].record) && rows[id].nextRetryAt <= host.fetchedAt(round)
  }

  ghost predicate Smooth(host: Host) {
    LineIsGood(host.env) && forall round :: !host.markFails(round)
  }

  /** How many of `n` waiting records one cycle syncs. */
  function PerCycle(n: nat): nat {
    if n == 0 then 0 else SettledWithin(Min(n, MAX_RECORDS), MAX_REQUESTS_PER_ROUND)
  }

  /** Exactly `n` records have left the backlog, and nothing else has changed. */
  ghost predicate Drained(before: Rows, after: Rows, n: int) {
    && after.Keys == before.Keys && Backlog(after) <= Backlog(before)
    && |Backlog(after)| == |Backlog(before)| - n
    && forall id :: id in Backlog(after) ==> after[id] == before[id]
  }

  lemma HasElement<T>(s: seq<T>)
    ensures s != [] ==> exists x :: x in s
  {
    if s != [] { assert s[0] in s; }
  }

  lemma NoneRefused(r: BatchReport, good: nat -> bool, n: nat, p: nat)
    requires Prefix(r, p) && p <= n && Sorted(r, good) && forall i: nat :: i < n ==> good(i)
    ensures r.rejected == [] && forall i: nat :: i in r.accepted <==> i < p
  {
    HasElement(r.rejected);
  }

  /** The batch of a round: the whole backlog, up to a hundred, all of it acceptable. */
  lemma RoundBatch(host: Host, rows: Rows)
    requires AllDue(host, rows)
    ensures var ids := RoundIds(rows, host.fetchedAt(0));
            && |ids| == Min(|Backlog(rows)|, MAX_RECORDS)
            && (forall i :: 0 <= i < |ids| ==> ids[i] in Backlog(rows) && Acceptable(RecordsOf(rows, ids)[i]))
            && (forall i, j :: 0 <= i < j < |ids| ==> ids[i] != ids[j])
  {
    forall id ensures id in Due(rows, host.fetchedAt(0)) <==> id in Backlog(rows) {
      if id in Backlog(rows) { assert rows[id].nextRetryAt <= host.fetchedAt(0); }
    }
    assert Due(rows, host.fetchedAt(0)) == Backlog(rows);
    InOrderSpec(rows, Backlog(rows), MAX_RECORDS);
  }

  /** A round accepts a prefix of its batch and refuses nothing. */
  lemma RoundAccepts(host: Host, rows: Rows, w: World)
    requires Smooth(host) && AllDue(host, rows) && w.session.Some? && Backlog(rows) != {}
    ensures var (n, g, p) := (|Backlog(rows)|, RoundSend(host, rows, w, 0), PerCycle(|Backlog(rows)|));
            && g.report.rejected == [] && g.world.session.Some? && p <= Min(n, MAX_RECORDS)
            && Prefix(g.report, p) && (forall i: nat :: i in g.report.accepted <==> i < p)
            && (g.report.aborted <==> MAX_REQUESTS_PER_ROUND < 2 * Min(n, MAX_RECORDS) - 1)
  {
    var records := RecordsOf(rows, RoundIds(rows, host.fetchedAt(0)));
    RoundBatch(host, rows);
    BatchAgainstDeployed(host.env, records, MAX_REQUESTS_PER_ROUND, w);
    SenderJudges(host.env, records, MAX_REQUESTS_PER_ROUND, w);
    BisectionAgainstAnyServer(Sender(host.env, records), |records|, MAX_REQUESTS_PER_ROUND, w);
    NoneRefused(RoundSend(host, rows, w, 0).report, EndToEnd.GoodAt(records, Acceptable), |records|,
                PerCycle(|Backlog(rows)|));
  }

  /** The marked records leave the backlog. */
  lemma MarkingDrains(rows: Rows, ids: seq<int>, picked: set<int>)
    requires (forall i :: 0 <= i < |ids| ==> ids[i] in Backlog(rows)) && picked == Elements(ids)
    requires forall i, j :: 0 <= i < j < |ids| ==> ids[i] != ids[j]
    ensures Drained(rows, MarkSynced(rows, picked), |ids|)
  {
    ElementsCount(ids);
    assert Backlog(MarkSynced(rows, picked)) == Backlog(rows) - picked;
    assert picked <= Backlog(rows);
  }

  lemma RoundDrains(host: Host, rows: Rows, w: World)
    requires Smooth(host) && AllDue(host, rows) && w.session.Some? && Backlog(rows) != {}
    ensures Drained(rows, RoundRows(host, rows, w, 0), PerCycle(|Backlog(rows)|))
  {
    var ids, r, p := RoundIds(rows, host.fetchedAt(0)), RoundSend(host, rows, w, 0).report, PerCycle(|Backlog(rows)|);
    RoundBatch(host, rows);
    RoundAccepts(host, rows, w);
    RoundIndices(host, rows, w, 0);
    var picks := Pick(ids, r.accepted);
    var picked := set i | 0 <= i < |picks| :: picks[i];
    assert Pick(ids, r.rejected) == [];
    forall id ensures id in picked <==> id in ids[..p] {
      if id in picked {
        var k :| 0 <= k < |picks| && picks[k] == id;
        assert r.accepted[k] in r.accepted;
      }
      if id in ids[..p] {
        var i :| 0 <= i < p && ids[i] == id;
        assert i in r.accepted;
        var k :| 0 <= k < |r.accepted| && r.accepted[k] == i;
        assert picks[k] == id;
      }
    }
    MarkingDrains(rows, ids[..p], picked);
  }

  /** One cycle syncs exactly `PerCycle` of the backlog, and refuses none of it. */
  lemma CycleDrains(host: Host, rows: Rows, w: World)
    requires Smooth(host) && AllDue(host, rows) && w.session.Some?
    ensures var end := Cycle(RoundTurn(host), rows, w, 0);
            end.world.session.Some? && Drained(rows, end.rows, PerCycle(|Backlog(rows)|))
  {
    RoundBatch(host, rows);
    if Backlog(rows) != {} {
      RoundAccepts(host, rows, w);
      RoundDrains(host, rows, w);
    }
  }

  /** The cycles of these hosts, one after the other. */
  ghost function Cycles(hosts: seq<Host>, rows: Rows, w: World): (Rows, World) {
    if hosts == [] then (rows, w)
    else
      var (r, v) := Cycles(hosts[..|hosts| - 1], rows, w);
      var end := Cycle(RoundTurn(hosts[|hosts| - 1]), r, v, 0);
      (end.rows, end.world)
  }

  lemma PerCycleIsEight(n: nat)
    ensures Min(n, 8) <= PerCycle(n)
  {
    if 8 <= n { AtLeastEight(Min(n, MAX_RECORDS)); } else if 0 < n { BudgetCovers(n, MAX_REQUESTS_PER_ROUND); }
  }

  /** A batch whose 2n - 1 requests fit into the budget is settled. */
  lemma {:induction false} BudgetCovers(n: nat, budget: int)
    requires 0 < n && 2 * n - 1 <= budget
    ensures SettledWithin(n, budget) == n
    decreases n
  {
    if n > 1 { BudgetCovers(n - n / 2, budget - 2 * (n / 2)); }
  }

  /**
   A backlog of acceptable records moves by eight a cycle at least: with c cycles none of 8 c records waits,
   whatever else the table holds.
   */
  lemma {:induction false} BacklogDrains(hosts: seq<Host>, rows: Rows, w: World)
    requires w.session.Some? && forall i :: 0 <= i < |hosts| ==> Smooth(hosts[i]) && AllDue(hosts[i], rows)
    ensures var (after, v) := Cycles(hosts, rows, w);
            && v.session.Some? && after.Keys == rows.Keys && Backlog(after) <= Backlog(rows)
            && |Backlog(after)| <= Max(0, |Backlog(rows)| - 8 * |hosts|)
            && (forall id :: id in Backlog(after) ==> after[id] == rows[id])
            && (|Backlog(rows)| <= 8 * |hosts| ==> forall id :: id in after ==> after[id].synced)
  {
    if hosts != [] {
      var n := |hosts| - 1;
      BacklogDrains(hosts[..n], rows, w);
      var (r, v) := Cycles(hosts[..n], rows, w);
      CycleDrains(hosts[n], r, v);
      PerCycleIsEight(|Backlog(r)|);
    }
    var after := Cycles(hosts, rows, w).0;
    assert forall id :: id in after && !after[id].synced ==> id in Backlog(after);
  }
}
