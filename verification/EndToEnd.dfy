/**
 Whole runs of the agent: inserts, sync rounds cut anywhere, pruning and account changes.

 A round is taken apart into its database and network steps, so that a crash, a failed statement or
 an insert by the watch thread may fall between any two of them.  A crash in the middle of a
 bisection is a bisection with a smaller budget whose answers are never booked.
 */
module EndToEnd {
  import opened JsonText
  import opened BatchSend
  import opened RecordJson
  import opened Network
  import opened Database
  import opened Sync

  // ---------------------------------------------------------------------------------------------
  // Bisection over the network
  // ---------------------------------------------------------------------------------------------

  /** Every index booked as accepted is a record the cloud holds. */
  ghost predicate Booked(r: BatchReport, records: seq<SyncRecord>, cloud: Cloud) {
    forall i :: i in r.accepted ==> i < |records| && InCloud(cloud, records[i])
  }

  lemma RequestBooks(env: Env, records: seq<SyncRecord>, lo: nat, hi: nat, g: Progress<World>)
    requires lo < hi <= |records| && Booked(g.report, records, g.world.cloud)
    ensures var h := Request(Sender(env, records), lo, hi, g);
            Later(g.world, h.world, records) && Booked(h.report, records, h.world.cloud)
  {
    var batch := records[lo..hi];
    var h := Request(Sender(env, records), lo, hi, g);
    AcceptedIsStored(env, g.world, batch);
    assert Later(g.world, h.world, records);
    forall i | i in h.report.accepted ensures i < |records| && InCloud(h.world.cloud, records[i]) {
      if i !in g.report.accepted {
        assert i in Indices(lo, hi);
        assert batch[i - lo] == records[i];
      }
    }
  }

  /** What a bisection keeps as it goes, starting in world `w`. */
  ghost predicate Keeps(w: World, records: seq<SyncRecord>, g: Progress<World>) {
    Later(w, g.world, records) && Booked(g.report, records, g.world.cloud)
  }

  ghost function KeepsFrom(w: World, records: seq<SyncRecord>): Progress<World> -> bool {
    g => Keeps(w, records, g)
  }

  /** Everything a bisection books as accepted is in the cloud. */
  lemma BisectionBooks(env: Env, records: seq<SyncRecord>, maxRequests: int, w: World)
    ensures var h := Bisection(Sender(env, records), |records|, maxRequests, w);
            Later(w, h.world, records) && Booked(h.report, records, h.world.cloud)
  {
    if records != [] {
      var send, inv := Sender(env, records), KeepsFrom(w, records);
      forall p: Progress<World>, i: nat, j: nat | i < j <= |records| && inv(p)
        ensures inv(Request(send, i, j, p))
      {
        RequestBooks(env, records, i, j, p);
      }
      ResolveKeeps(send, 0, |records|, maxRequests, Progress(w, EMPTY_REPORT, false), |records|, inv);
    }
  }

  ghost function KeepsDelivering(w: World, records: seq<SyncRecord>): Progress<World> -> bool {
    g => Keeps(w, records, g) && Delivers(g.world)
  }

  /** As long as keys determine rows, the cloud stays the map of what was delivered. */
  lemma BisectionDelivers(env: Env, records: seq<SyncRecord>, maxRequests: int, w: World)
    requires records != [] && Delivers(w)
    ensures Delivers(Bisection(Sender(env, records), |records|, maxRequests, w).world)
  {
    var send, inv := Sender(env, records), KeepsDelivering(w, records);
    forall p: Progress<World>, i: nat, j: nat | i < j <= |records| && inv(p)
      ensures inv(Request(send, i, j, p))
    {
      RequestBooks(env, records, i, j, p);
      SendDelivers(env, p.world, records[i..j]);
    }
    ResolveKeeps(send, 0, |records|, maxRequests, Progress(w, EMPTY_REPORT, false), |records|, inv);
  }

  // ---------------------------------------------------------------------------------------------
  // The agent as a state machine
  // ---------------------------------------------------------------------------------------------

  /** A round in flight: the ids fetched and, once something was sent, the answers booked so far. */
  datatype Flight = Grounded | Airborne(ids: seq<int>, report: BatchReport)

  /** `history` remembers every record ever inserted, whatever became of its row. */
  datatype Agent = Agent(history: map<int, SyncRecord>, rows: Rows, lastId: int, world: World, flight: Flight)

  datatype Step =
    | Insert(record: SyncRecord, now: int)
    | Prune(cutoff: int)
    | SwitchAccount(session: Option<string>)
    | Fetch(now: int, limit: nat)
    | Transmit(maxRequests: int)
    | Mark(marked: set<int>)
    | Penalise(id: int, now: int, base: int, maximum: int)
    | Land

  function Fresh(session: Option<string>): Agent {
    Agent(map[], map[], 0, World(0, session, map[], []), Grounded)
  }

  ghost predicate AcceptedIds(f: Flight, ids: set<int>)
    requires f.Airborne?
  {
    forall id :: id in ids ==> exists i :: i in f.report.accepted && i < |f.ids| && f.ids[i] == id
  }

  ghost predicate RefusedId(f: Flight, id: int)
    requires f.Airborne?
  {
    exists i :: i in f.report.rejected && i < |f.ids| && f.ids[i] == id
  }

  /** Which steps may come next; marking may cover any part of what was accepted. */
  ghost predicate Enabled(s: Agent, step: Step) {
    match step
    case Fetch(_, _) => s.flight.Grounded?
    case Transmit(_) => s.flight.Airborne? && Inserted(s.history, s.flight.ids)
    case Mark(marked) => s.flight.Airborne? && AcceptedIds(s.flight, marked)
    case Penalise(id, _, _, _) => s.flight.Airborne? && RefusedId(s.flight, id)
    case _ => true
  }

  ghost predicate Inserted(history: map<int, SyncRecord>, ids: seq<int>) {
    forall i :: 0 <= i < |ids| ==> ids[i] in history
  }

  ghost function FlightRecords(s: Agent): (rs: seq<SyncRecord>)
    requires s.flight.Airborne? && Inserted(s.history, s.flight.ids)
    ensures |rs| == |s.flight.ids| && forall i :: 0 <= i < |rs| ==> rs[i] == s.history[s.flight.ids[i]]
  {
    seq(|s.flight.ids|, i requires 0 <= i < |s.flight.ids| => s.history[s.flight.ids[i]])
  }

  ghost function Next(env: Env, s: Agent, step: Step): Agent
    requires Enabled(s, step)
  {
    match step
    case Insert(r, now) =>
      var id := s.lastId + 1;
      s.(lastId := id, rows := s.rows[id := NewRow(r, id, now)], history := s.history[id := r.(id := id)])
    case Prune(cutoff) => s.(rows := Pruned(s.rows, cutoff))
    case SwitchAccount(session) => s.(world := s.world.(session := session))
    case Fetch(now, limit) => s.(flight := Airborne(InOrder(s.rows, Due(s.rows, now), limit), EMPTY_REPORT))
    case Transmit(maxRequests) =>
      var g := Bisection(Sender(env, FlightRecords(s)), |s.flight.ids|, maxRequests, s.world);
      s.(world := g.world, flight := Airborne(s.flight.ids, g.report))
    case Mark(marked) => s.(rows := MarkSynced(s.rows, marked))
    case Penalise(id, now, base, maximum) => s.(rows := MarkFailed(s.rows, id, now, base, maximum))
    case Land => s.(flight := Grounded)
  }

  /** The states a run passes through. */
  ghost predicate IsRun(env: Env, states: seq<Agent>, steps: seq<Step>) {
    && |states| == |steps| + 1
    && states[0] == Fresh(states[0].world.session)
    && forall i :: 0 <= i < |steps| ==> Enabled(states[i], steps[i]) && states[i + 1] == Next(env, states[i], steps[i])
  }

  // ---------------------------------------------------------------------------------------------
  // Safety: no record is lost
  // ---------------------------------------------------------------------------------------------

  /** Each inserted record is still queued locally, or the cloud holds a row under its device and start time. */
  ghost predicate NothingLost(history: map<int, SyncRecord>, rows: Rows, cloud: Cloud) {
    forall id :: id in history ==> (id in rows && !rows[id].synced) || InCloud(cloud, history[id])
  }

  ghost predicate Consistent(s: Agent) {
    && (forall id :: id in s.rows ==> id in s.history && s.rows[id].record == s.history[id])
    && (forall id :: id in s.history ==> 0 < id <= s.lastId && s.history[id].id == id)
    && 0 <= s.lastId
  }

  ghost predicate FlightIsBooked(s: Agent) {
    s.flight.Airborne? ==> Inserted(s.history, s.flight.ids) && Booked(s.flight.report, FlightRecords(s), s.world.cloud)
  }

  ghost predicate Safe(s: Agent) {
    Consistent(s) && FlightIsBooked(s) && NothingLost(s.history, s.rows, s.world.cloud)
  }

  lemma InsertIsSafe(env: Env, s: Agent, r: SyncRecord, now: int)
    requires Safe(s)
    ensures Safe(Next(env, s, Insert(r, now)))
  {
    var t := Next(env, s, Insert(r, now));
    assert s.lastId + 1 !in s.history;
    if s.flight.Airborne? { assert FlightRecords(t) == FlightRecords(s); }
  }

  lemma TransmitIsSafe(env: Env, s: Agent, maxRequests: int)
    requires Safe(s) && Enabled(s, Transmit(maxRequests))
    ensures Safe(Next(env, s, Transmit(maxRequests)))
  {
    var t := Next(env, s, Transmit(maxRequests));
    BisectionBooks(env, FlightRecords(s), maxRequests, s.world);
    assert FlightRecords(t) == FlightRecords(s);
  }

  /** Marking is safe because only accepted records are marked, and pruning because only marked rows go. */
  lemma StepIsSafe(env: Env, s: Agent, step: Step)
    requires Safe(s) && Enabled(s, step)
    ensures Safe(Next(env, s, step))
  {
    var t := Next(env, s, step);
    match step
    case Insert(r, now) => InsertIsSafe(env, s, r, now);
    case Transmit(maxRequests) => TransmitIsSafe(env, s, maxRequests);
    case Fetch(now, limit) => InOrderSpec(s.rows, Due(s.rows, now), limit);
    case Land =>
    case Mark(marked) =>
      assert FlightRecords(t) == FlightRecords(s);
      forall id | id in t.history && !(id in t.rows && !t.rows[id].synced)
        ensures InCloud(t.world.cloud, t.history[id])
      {
        if id in marked {
          var i :| i in s.flight.report.accepted && i < |s.flight.ids| && s.flight.ids[i] == id;
          assert FlightRecords(s)[i] == s.history[id];
        }
      }
    case Prune(_) => if s.flight.Airborne? { assert FlightRecords(t) == FlightRecords(s); }
    case SwitchAccount(_) => if s.flight.Airborne? { assert FlightRecords(t) == FlightRecords(s); }
    case Penalise(_, _, _, _) => assert FlightRecords(t) == FlightRecords(s);
  }

  lemma {:induction false} RunIsSafe(env: Env, states: seq<Agent>, steps: seq<Step>, i: nat)
    requires IsRun(env, states, steps) && i < |states|
    ensures Safe(states[i])
  {
    if i > 0 {
      RunIsSafe(env, states, steps, i - 1);
      StepIsSafe(env, states[i - 1], steps[i - 1]);
    }
  }

  /** End-to-end safety, in every state of every run. */
  lemma NoRecordIsEverLost(env: Env, states: seq<Agent>, steps: seq<Step>, i: nat, id: int)
    requires IsRun(env, states, steps) && i < |states| && id in states[i].history
    ensures var s := states[i];
            || (id in s.rows && !s.rows[id].synced && s.rows[id].record == s.history[id])
            || InCloud(s.world.cloud, s.history[id])
  {
    RunIsSafe(env, states, steps, i);
  }

  // ---------------------------------------------------------------------------------------------
  // Exactly-once effect
  // ---------------------------------------------------------------------------------------------

  /** What went over the wire is what was inserted. */
  ghost predicate LogIsRecorded(s: Agent) {
    forall d :: d in s.world.log ==> d.record.id in s.history && s.history[d.record.id] == d.record
  }

  /** No two inserted records share the upsert key. */
  ghost predicate DistinctKeys(history: map<int, SyncRecord>) {
    forall a, b :: a in history && b in history && a != b ==>
      history[a].deviceId != history[b].deviceId || history[a].start != history[b].start
  }

  ghost predicate Delivered(s: Agent) {
    Safe(s) && LogIsRecorded(s) && Delivers(s.world)
  }

  lemma FlightRecordsAreInserted(s: Agent, r: SyncRecord)
    requires Consistent(s) && s.flight.Airborne? && Inserted(s.history, s.flight.ids) && r in FlightRecords(s)
    ensures r.id in s.history && s.history[r.id] == r
  {
    var k :| 0 <= k < |FlightRecords(s)| && FlightRecords(s)[k] == r;
    var id := s.flight.ids[k];
    assert id in s.history && s.history[id].id == id;
  }

  lemma TransmitDelivers(env: Env, s: Agent, maxRequests: int)
    requires Delivered(s) && Enabled(s, Transmit(maxRequests))
    ensures var t := Next(env, s, Transmit(maxRequests));
            LogIsRecorded(t) && Delivers(t.world)
  {
    var records := FlightRecords(s);
    var t := Next(env, s, Transmit(maxRequests));
    BisectionBooks(env, records, maxRequests, s.world);
    assert t.world == Bisection(Sender(env, records), |records|, maxRequests, s.world).world;
    forall d | d in t.world.log ensures d.record.id in s.history && s.history[d.record.id] == d.record {
      if d !in s.world.log {
        assert d.record in records;
        FlightRecordsAreInserted(s, d.record);
      }
    }
    if records != [] { BisectionDelivers(env, records, maxRequests, s.world); }
  }

  lemma StepDelivers(env: Env, s: Agent, step: Step)
    requires Delivered(s) && Enabled(s, step)
    ensures Delivered(Next(env, s, step))
  {
    StepIsSafe(env, s, step);
    assert s.lastId + 1 !in s.history;
    if step.Transmit? { TransmitDelivers(env, s, step.maxRequests); }
  }

  lemma {:induction false} RunDelivers(env: Env, states: seq<Agent>, steps: seq<Step>, i: nat)
    requires IsRun(env, states, steps) && i < |states|
    ensures Delivered(states[i])
  {
    if i > 0 {
      RunDelivers(env, states, steps, i - 1);
      StepDelivers(env, states[i - 1], steps[i - 1]);
    }
  }

  /**
   With distinct keys the cloud is exactly the map of the records delivered at least once, however they
   were batched, bisected, resent or repeated; and each delivered record is one that was inserted.
   */
  lemma EffectIsExactlyOnce(env: Env, states: seq<Agent>, steps: seq<Step>, i: nat)
    requires IsRun(env, states, steps) && i < |states| && DistinctKeys(states[i].history)
    ensures CloudIsDelivered(states[i].world.cloud, states[i].world.log)
    ensures LogIsRecorded(states[i])
  {
    RunDelivers(env, states, steps, i);
  }

  ghost function KeepsReplaying(): Progress<World> -> bool { (g: Progress<World>) => IsReplay(g.world) }

  lemma BisectionReplays(env: Env, records: seq<SyncRecord>, maxRequests: int, w: World)
    requires IsReplay(w)
    ensures IsReplay(Bisection(Sender(env, records), |records|, maxRequests, w).world)
  {
    if records != [] {
      var send, inv := Sender(env, records), KeepsReplaying();
      forall p: Progress<World>, i: nat, j: nat | i < j <= |records| && inv(p) ensures inv(Request(send, i, j, p)) {
        SendReplays(env, p.world, records[i..j]);
      }
      ResolveKeeps(send, 0, |records|, maxRequests, Progress(w, EMPTY_REPORT, false), |records|, inv);
    }
  }

  lemma {:induction false} RunReplays(env: Env, states: seq<Agent>, steps: seq<Step>, i: nat)
    requires IsRun(env, states, steps) && i < |states|
    ensures IsReplay(states[i].world)
  {
    if i > 0 {
      RunReplays(env, states, steps, i - 1);
      if steps[i - 1].Transmit? {
        BisectionReplays(env, FlightRecords(states[i - 1]), steps[i - 1].maxRequests, states[i - 1].world);
      }
    }
  }

  /**
   In every run, whatever keys the records have: the cloud has a row under exactly the keys delivered, each
   the row of the latest delivery under it, and only inserted records were delivered.
   */
  lemma CloudHoldsTheLatest(env: Env, states: seq<Agent>, steps: seq<Step>, i: nat)
    requires IsRun(env, states, steps) && i < |states|
    ensures var w := states[i].world;
            && (forall k :: k in w.cloud <==> WasDelivered(w.log, k))
            && (forall j: nat :: IsLatest(w.log, j) ==>
                  KeyOf(w.log[j]) in w.cloud && w.cloud[KeyOf(w.log[j])] == RowOf(w.log[j]))
    ensures LogIsRecorded(states[i])
  {
    RunReplays(env, states, steps, i);
    RunDelivers(env, states, steps, i);
    var w := states[i].world;
    forall k ensures k in w.cloud <==> WasDelivered(w.log, k) { ReplayHasTheKeys(w.log, k); }
    forall j: nat | IsLatest(w.log, j)
      ensures KeyOf(w.log[j]) in w.cloud && w.cloud[KeyOf(w.log[j])] == RowOf(w.log[j])
    {
      ReplayHoldsTheLatest(w.log, j);
    }
  }

  // ---------------------------------------------------------------------------------------------
  // Failures do not interfere
  // ---------------------------------------------------------------------------------------------

  /** A row's retry bookkeeping changes only by a penalty, and only if it is booked as refused. */
  lemma OnlyRefusedArePenalised(env: Env, s: Agent, step: Step, id: int)
    requires Safe(s) && Enabled(s, step) && id in s.rows && id in Next(env, s, step).rows
    requires var (a, b) := (s.rows[id], Next(env, s, step).rows[id]);
             a.retries != b.retries || a.nextRetryAt != b.nextRetryAt
    ensures step.Penalise? && step.id == id && RefusedId(s.flight, id)
  {
    assert s.lastId + 1 !in s.history;
  }

  /** The requests of a transmission, with the worlds they were made in. */
  ghost function FlightRequests(env: Env, s: Agent, maxRequests: int): Requests<World>
    requires Enabled(s, Transmit(maxRequests))
  {
    RequestsMade(Sender(env, FlightRecords(s)), |s.flight.ids|, maxRequests, s.world)
  }

  /** In this step of a run the agent sent record `id` alone, in world `w`, and the server refused it. */
  ghost predicate Refuses(env: Env, s: Agent, step: Step, id: int, w: World) {
    && step.Transmit? && Enabled(s, step) && id in s.history
    && exists k, i :: 0 <= k < |FlightRequests(env, s, step.maxRequests)| && 0 <= i < |s.flight.ids|
         && s.flight.ids[i] == id && FlightRequests(env, s, step.maxRequests)[k] == Made(w, i, i + 1)
         && Send(env, w, [s.history[id]]).1 == Rejected
  }

  lemma RequestRefuses(env: Env, s: Agent, maxRequests: int, i: nat, k: nat)
    requires Safe(s) && Enabled(s, Transmit(maxRequests)) && i < |s.flight.ids|
    requires var made := FlightRequests(env, s, maxRequests);
             k < |made| && RefusesAlone(Sender(env, FlightRecords(s)), made[k], i)
    ensures Refuses(env, s, Transmit(maxRequests), s.flight.ids[i], FlightRequests(env, s, maxRequests)[k].world)
  {
    var (m, records) := (FlightRequests(env, s, maxRequests)[k], FlightRecords(s));
    assert records[i..i + 1] == [s.history[s.flight.ids[i]]];
    assert m == Made(m.world, i, i + 1);
  }

  lemma TransmitRefuses(env: Env, s: Agent, maxRequests: int, id: int)
    requires Safe(s) && Enabled(s, Transmit(maxRequests))
    requires RefusedId(Next(env, s, Transmit(maxRequests)).flight, id)
    ensures exists w :: Refuses(env, s, Transmit(maxRequests), id, w)
  {
    var send, n := Sender(env, FlightRecords(s)), |s.flight.ids|;
    var report := Next(env, s, Transmit(maxRequests)).flight.report;
    BookedByRequests(send, n, maxRequests, s.world);
    var i :| i in report.rejected && i < n && s.flight.ids[i] == id;
    var made := FlightRequests(env, s, maxRequests);
    var k :| 0 <= k < |made| && RefusesAlone(send, made[k], i);
    RequestRefuses(env, s, maxRequests, i, k);
  }

  lemma {:induction false} HistoryStays(env: Env, states: seq<Agent>, steps: seq<Step>, i: nat, j: nat, id: int)
    requires IsRun(env, states, steps) && i <= j < |states| && id in states[i].history
    ensures id in states[j].history && states[j].history[id] == states[i].history[id]
    decreases j - i
  {
    if i < j {
      RunIsSafe(env, states, steps, j - 1);
      HistoryStays(env, states, steps, i, j - 1, id);
    }
  }

  /** An earlier transmission of the run sent this record alone and was refused, in world `w`. */
  ghost predicate RefusedBefore(env: Env, states: seq<Agent>, steps: seq<Step>, i: nat, j: nat, id: int, w: World)
    requires |states| == |steps| + 1
  {
    j < i < |states| && Refuses(env, states[j], steps[j], id, w)
  }

  lemma {:induction false} BookedIsRefused(env: Env, states: seq<Agent>, steps: seq<Step>, i: nat, id: int)
    requires IsRun(env, states, steps) && i < |states|
    requires states[i].flight.Airborne? && RefusedId(states[i].flight, id)
    ensures exists j: nat, w :: RefusedBefore(env, states, steps, i, j, id, w)
  {
    if i > 0 {
      var s, step := states[i - 1], steps[i - 1];
      if step.Transmit? {
        RunIsSafe(env, states, steps, i - 1);
        TransmitRefuses(env, s, step.maxRequests, id);
        var w :| Refuses(env, s, Transmit(step.maxRequests), id, w);
        assert RefusedBefore(env, states, steps, i, i - 1, id, w);
      } else {
        BookedIsRefused(env, states, steps, i - 1, id);
        var j: nat, w :| RefusedBefore(env, states, steps, i - 1, j, id, w);
        assert RefusedBefore(env, states, steps, i, j, id, w);
      }
    }
  }

  /**
   Every penalty of a run answers a refusal of that very record: an earlier transmission made a request
   that carried the record alone, and the server refused it there.
   */
  lemma PenaltiesAreDeserved(env: Env, states: seq<Agent>, steps: seq<Step>, i: nat)
    requires IsRun(env, states, steps) && i < |steps| && steps[i].Penalise?
    ensures exists j: nat, w :: RefusedBefore(env, states, steps, i, j, steps[i].id, w)
              && steps[i].id in states[i].history
              && states[j].history[steps[i].id] == states[i].history[steps[i].id]
  {
    var id := steps[i].id;
    BookedIsRefused(env, states, steps, i, id);
    var j: nat, w :| RefusedBefore(env, states, steps, i, j, id, w);
    HistoryStays(env, states, steps, j, i, id);
  }

  /** With a verdict per record, what penalises a good record is a second 401 to a request that carried it alone. */
  lemma GoodPenaltyIsSecondUnauthorized(env: Env, states: seq<Agent>, steps: seq<Step>, i: nat,
                                        good: SyncRecord -> bool)
    requires IsRun(env, states, steps) && i < |steps| && steps[i].Penalise? && SoundEnv(env, good)
    requires steps[i].id in states[i].history && good(states[i].history[steps[i].id])
    ensures exists j: nat, w :: RefusedBefore(env, states, steps, i, j, steps[i].id, w)
              && SecondUnauthorized(env, w, [states[i].history[steps[i].id]])
  {
    var id := steps[i].id;
    PenaltiesAreDeserved(env, states, steps, i);
    var j: nat, w :| RefusedBefore(env, states, steps, i, j, id, w) && states[j].history[id] == states[i].history[id];
    GoodIsRefusedIff(env, w, states[i].history[id], good);
  }

  /** No good record has ever been penalised. */
  ghost predicate GoodAreFree(s: Agent, good: SyncRecord -> bool) {
    && (forall id :: id in s.rows && good(s.rows[id].record) ==> s.rows[id].retries == 0 && s.rows[id].nextRetryAt == 0)
    && (s.flight.Airborne? && Inserted(s.history, s.flight.ids) ==>
          forall i :: i in s.flight.report.rejected ==> i < |s.flight.ids| && !good(s.history[s.flight.ids[i]]))
  }

  function GoodAt(records: seq<SyncRecord>, good: SyncRecord -> bool): nat -> bool {
    (i: nat) => i < |records| && good(records[i])
  }

  lemma SenderIsSound(env: Env, records: seq<SyncRecord>, good: SyncRecord -> bool)
    requires SoundEnv(env, good) && RenewedTokensWork(env)
    ensures SoundVerdicts(Sender(env, records), GoodAt(records, good), |records|)
  {
    var send := Sender(env, records);
    forall w: World, lo: nat, hi: nat | lo < hi <= |records|
      ensures send(w, lo, hi).1 == Accepted ==> forall i | lo <= i < hi :: i < |records| && good(records[i])
      ensures send(w, lo, hi).1 == Rejected && hi == lo + 1 ==> !good(records[lo])
    {
      var batch := records[lo..hi];
      SendIsSound(env, w, batch, good);
      forall i | lo <= i < hi ensures batch[i - lo] == records[i] {}
    }
  }

  lemma TransmitFreesGood(env: Env, s: Agent, maxRequests: int, good: SyncRecord -> bool, i: nat)
    requires SoundEnv(env, good) && RenewedTokensWork(env)
    requires Safe(s) && Enabled(s, Transmit(maxRequests))
    requires i in Next(env, s, Transmit(maxRequests)).flight.report.rejected
    ensures i < |s.flight.ids| && !good(s.history[s.flight.ids[i]])
  {
    var records := FlightRecords(s);
    var send, start := Sender(env, records), Progress(s.world, EMPTY_REPORT, false);
    SenderIsSound(env, records, good);
    if records != [] {
      ResolveSorts(send, 0, |records|, maxRequests, start, GoodAt(records, good), |records|);
      BisectionAgainstAnyServer(send, |records|, maxRequests, s.world);
    }
  }

  lemma StepFreesGood(env: Env, s: Agent, step: Step, good: SyncRecord -> bool)
    requires SoundEnv(env, good) && RenewedTokensWork(env)
    requires Safe(s) && GoodAreFree(s, good) && Enabled(s, step)
    ensures GoodAreFree(Next(env, s, step), good)
  {
    assert s.lastId + 1 !in s.history;
    if step.Transmit? {
      forall i | i in Next(env, s, step).flight.report.rejected
        ensures i < |s.flight.ids| && !good(s.history[s.flight.ids[i]])
      {
        TransmitFreesGood(env, s, step.maxRequests, good, i);
      }
    }
  }

  /** With a verdict per record, an acceptable record keeps a clean retry count in every run. */
  lemma {:induction false} GoodRecordsAreNeverPenalised(env: Env, states: seq<Agent>, steps: seq<Step>, i: nat,
                                                        good: SyncRecord -> bool)
    requires SoundEnv(env, good) && RenewedTokensWork(env)
    requires IsRun(env, states, steps) && i < |states|
    ensures forall id :: id in states[i].rows && good(states[i].rows[id].record) ==>
              states[i].rows[id].retries == 0 && states[i].rows[id].nextRetryAt == 0
    ensures GoodAreFree(states[i], good)
  {
    if i > 0 {
      GoodRecordsAreNeverPenalised(env, states, steps, i - 1, good);
      RunIsSafe(env, states, steps, i - 1);
      StepFreesGood(env, states[i - 1], steps[i - 1], good);
    }
  }

  // ---------------------------------------------------------------------------------------------
  // The cycle of sync.cpp is such a run
  // ---------------------------------------------------------------------------------------------

  /** `t` is where the steps lead from `s`. */
  ghost predicate Leads(env: Env, s: Agent, steps: seq<Step>, t: Agent)
    decreases |steps|
  {
    if steps == [] then t == s else Enabled(s, steps[0]) && Leads(env, Next(env, s, steps[0]), steps[1..], t)
  }

  lemma {:induction false} LeadsOn(env: Env, s: Agent, a: seq<Step>, t: Agent, b: seq<Step>, u: Agent)
    requires Leads(env, s, a, t) && Leads(env, t, b, u)
    ensures Leads(env, s, a + b, u)
    decreases |a|
  {
    if a == [] {
      assert a + b == b;
    } else {
      assert (a + b)[1..] == a[1..] + b;
      LeadsOn(env, Next(env, s, a[0]), a[1..], t, b, u);
    }
  }

  lemma {:induction false} LeadsToSafe(env: Env, s: Agent, steps: seq<Step>, t: Agent)
    requires Safe(s) && Leads(env, s, steps, t)
    ensures Safe(t)
    decreases |steps|
  {
    if steps != [] {
      StepIsSafe(env, s, steps[0]);
      LeadsToSafe(env, Next(env, s, steps[0]), steps[1..], t);
    }
  }

  /** The penalties of a round, one step each. */
  lemma {:induction false} PenaltiesAreSteps(host: Host, s: Agent, round: nat, ids: seq<int>)
    requires s.flight.Airborne? && forall k :: 0 <= k < |ids| ==> RefusedId(s.flight, ids[k])
    ensures exists steps :: Leads(host.env, s, steps, s.(rows := PenaliseAll(host, s.rows, round, ids)))
    decreases |ids|
  {
    if ids == [] {
      assert s.(rows := PenaliseAll(host, s.rows, round, ids)) == s;
      assert Leads(host.env, s, [], s);
    } else {
      var rest, id := ids[..|ids| - 1], ids[|ids| - 1];
      PenaltiesAreSteps(host, s, round, rest);
      var t := s.(rows := PenaliseAll(host, s.rows, round, rest));
      var steps :| Leads(host.env, s, steps, t);
      if !host.penaltyFails(round, id) {
        var step := Penalise(id, host.markedAt(round), host.base, host.maximum);
        LeadsOn(host.env, s, steps, t, [step], Next(host.env, t, step));
        assert Next(host.env, t, step) == s.(rows := PenaliseAll(host, s.rows, round, ids));
      } else {
        assert t == s.(rows := PenaliseAll(host, s.rows, round, ids));
      }
    }
  }

  /** Fetch and Transmit leave the flight with the answers of the round. */
  lemma RoundTakesOff(host: Host, s: Agent, round: nat)
    requires s.flight.Grounded? && forall id :: id in s.rows ==> id in s.history && s.rows[id].record == s.history[id]
    ensures var g := RoundSend(host, s.rows, s.world, round);
            Leads(host.env, s, [Fetch(host.fetchedAt(round), MAX_RECORDS)] + [Transmit(MAX_REQUESTS_PER_ROUND)],
                  s.(world := g.world, flight := Airborne(RoundIds(s.rows, host.fetchedAt(round)), g.report)))
  {
    var env, ids := host.env, RoundIds(s.rows, host.fetchedAt(round));
    var fetch, transmit := Fetch(host.fetchedAt(round), MAX_RECORDS), Transmit(MAX_REQUESTS_PER_ROUND);
    var s1 := s.(flight := Airborne(ids, EMPTY_REPORT));
    assert Next(env, s, fetch) == s1;
    forall i | 0 <= i < |ids| ensures ids[i] in s.history && s.history[ids[i]] == s.rows[ids[i]].record {
      var id := ids[i];
      assert id in s.rows;
    }
    assert Inserted(s1.history, ids);
    assert FlightRecords(s1) == RecordsOf(s.rows, ids);
    LeadsOn(env, s, [fetch], s1, [transmit], Next(env, s1, transmit));
  }

  /** Mark, the penalties and Land book the answers. */
  lemma RoundLands(host: Host, s: Agent, round: nat, ids: seq<int>, r: BatchReport)
    requires s.flight == Airborne(ids, r) && InRange(r.accepted, |ids|) && InRange(r.rejected, |ids|)
    ensures exists steps :: Leads(host.env, s, steps,
              s.(rows := PenaliseAll(host, Marked(host, s.rows, round, Pick(ids, r.accepted)), round,
                                     Pick(ids, r.rejected)),
                 flight := Grounded))
  {
    var env := host.env;
    var accepted, refused := Pick(ids, r.accepted), Pick(ids, r.rejected);
    var marked := if host.markFails(round) then {} else set i | 0 <= i < |accepted| :: accepted[i];
    forall id | id in marked ensures exists i :: i in r.accepted && i < |ids| && ids[i] == id {
      var k :| 0 <= k < |accepted| && accepted[k] == id;
      assert r.accepted[k] in r.accepted;
    }
    forall i | 0 <= i < |refused| ensures RefusedId(s.flight, refused[i]) { assert r.rejected[i] in r.rejected; }
    var s1 := Next(env, s, Mark(marked));
    assert s1.rows == Marked(host, s.rows, round, accepted);
    PenaltiesAreSteps(host, s1, round, refused);
    var s2 := s1.(rows := PenaliseAll(host, s1.rows, round, refused));
    var steps :| Leads(env, s1, steps, s2);
    LeadsOn(env, s1, steps, s2, [Land], s2.(flight := Grounded));
    LeadsOn(env, s, [Mark(marked)], s1, steps + [Land], s2.(flight := Grounded));
  }

  /** A round of the cycle is Fetch, Transmit, Mark, the penalties and Land. */
  lemma RoundIsSteps(host: Host, s: Agent, round: nat)
    requires s.flight.Grounded? && forall id :: id in s.rows ==> id in s.history && s.rows[id].record == s.history[id]
    ensures exists steps :: Leads(host.env, s, steps, AfterRound(host, s, round))
  {
    var ids, g := RoundIds(s.rows, host.fetchedAt(round)), RoundSend(host, s.rows, s.world, round);
    var fetch, transmit := Fetch(host.fetchedAt(round), MAX_RECORDS), Transmit(MAX_REQUESTS_PER_ROUND);
    var s2, t := s.(world := g.world, flight := Airborne(ids, g.report)), AfterRound(host, s, round);
    RoundIndices(host, s.rows, s.world, round);
    RoundTakesOff(host, s, round);
    RoundLands(host, s2, round, ids, g.report);
    var more :| Leads(host.env, s2, more, t);
    LeadsOn(host.env, s, [fetch] + [transmit], s2, more, t);
  }

  ghost function AfterRound(host: Host, s: Agent, round: nat): Agent {
    s.(rows := RoundRows(host, s.rows, s.world, round), world := RoundSend(host, s.rows, s.world, round).world,
       flight := Grounded)
  }

  lemma RoundIsSafe(host: Host, s: Agent, round: nat)
    requires Safe(s) && s.flight.Grounded?
    ensures Safe(AfterRound(host, s, round))
  {
    RoundIsSteps(host, s, round);
    var steps :| Leads(host.env, s, steps, AfterRound(host, s, round));
    LeadsToSafe(host.env, s, steps, AfterRound(host, s, round));
  }

  /** A call of `sync_pending_records` loses nothing: each of its rounds is a run of the machine. */
  lemma CycleIsSafe(host: Host, s: Agent)
    requires Safe(s) && s.flight.Grounded?
    ensures var end := Cycle(RoundTurn(host), s.rows, s.world, 0);
            Safe(s.(rows := end.rows, world := end.world))
  {
    var turn, keeps := RoundTurn(host), SafeWith(s);
    forall r, v, k | keeps(r, v) ensures keeps(turn(r, v, k).rows, turn(r, v, k).world) {
      RoundIsSafe(host, s.(rows := r, world := v), k);
    }
    CycleKeeps(turn, s.rows, s.world, 0, keeps);
  }

  ghost function SafeWith(s: Agent): (Rows, World) -> bool {
    (r: Rows, v: World) => Safe(s.(rows := r, world := v))
  }

  // ---------------------------------------------------------------------------------------------
  // What is proved of runs holds of the cycle
  // ---------------------------------------------------------------------------------------------

  /** A run ends in this state. */
  ghost predicate Reachable(env: Env, s: Agent) {
    exists states, steps :: EndsIn(env, states, steps, s)
  }

  ghost predicate EndsIn(env: Env, states: seq<Agent>, steps: seq<Step>, s: Agent) {
    IsRun(env, states, steps) && states[|steps|] == s
  }

  /** Steps that lead on from the end of a run extend the run. */
  lemma {:induction false} RunGoesOn(env: Env, s: Agent, more: seq<Step>, t: Agent)
    requires Reachable(env, s) && Leads(env, s, more, t)
    ensures Reachable(env, t)
    decreases |more|
  {
    if more != [] {
      var states, steps :| EndsIn(env, states, steps, s);
      var next := Next(env, s, more[0]);
      assert EndsIn(env, states + [next], steps + [more[0]], next);
      RunGoesOn(env, next, more[1..], t);
    }
  }

  ghost function ReachableWith(env: Env, s: Agent): (Rows, World) -> bool {
    (r: Rows, v: World) => Reachable(env, s.(rows := r, world := v))
  }

  /** A call of `sync_pending_records` from a state of a run ends in a state of a run. */
  lemma CycleIsReachable(host: Host, s: Agent)
    requires Reachable(host.env, s) && s.flight.Grounded?
    ensures var end := Cycle(RoundTurn(host), s.rows, s.world, 0);
            Reachable(host.env, s.(rows := end.rows, world := end.world))
  {
    var turn, keeps := RoundTurn(host), ReachableWith(host.env, s);
    assert s.(rows := s.rows, world := s.world) == s;
    forall r, v, k | keeps(r, v) ensures keeps(turn(r, v, k).rows, turn(r, v, k).world) {
      var a := s.(rows := r, world := v);
      ReachableIsSafe(host.env, a);
      RoundIsSteps(host, a, k);
      var steps :| Leads(host.env, a, steps, AfterRound(host, a, k));
      RunGoesOn(host.env, a, steps, AfterRound(host, a, k));
      assert AfterRound(host, a, k) == s.(rows := turn(r, v, k).rows, world := turn(r, v, k).world);
    }
    CycleKeeps(turn, s.rows, s.world, 0, keeps);
  }

  lemma ReachableIsSafe(env: Env, s: Agent)
    requires Reachable(env, s)
    ensures Safe(s)
  {
    var states, steps :| EndsIn(env, states, steps, s);
    RunIsSafe(env, states, steps, |steps|);
  }

  /** So after a call the cloud is still the map of what was delivered, if the records have distinct keys. */
  lemma CycleIsExactlyOnce(host: Host, s: Agent)
    requires Reachable(host.env, s) && s.flight.Grounded? && DistinctKeys(s.history)
    ensures var end := Cycle(RoundTurn(host), s.rows, s.world, 0);
            CloudIsDelivered(end.world.cloud, end.world.log)
  {
    var end := Cycle(RoundTurn(host), s.rows, s.world, 0);
    var t := s.(rows := end.rows, world := end.world);
    CycleIsReachable(host, s);
    var states, steps :| EndsIn(host.env, states, steps, t);
    EffectIsExactlyOnce(host.env, states, steps, |steps|);
  }

  /** And with a verdict per record it has penalised no good record. */
  lemma CycleFreesGood(host: Host, s: Agent, good: SyncRecord -> bool)
    requires SoundEnv(host.env, good) && RenewedTokensWork(host.env)
    requires Reachable(host.env, s) && s.flight.Grounded?
    ensures var end := Cycle(RoundTurn(host), s.rows, s.world, 0);
            forall id :: id in end.rows && good(end.rows[id].record) ==>
              end.rows[id].retries == 0 && end.rows[id].nextRetryAt == 0
  {
    var end := Cycle(RoundTurn(host), s.rows, s.world, 0);
    var t := s.(rows := end.rows, world := end.world);
    CycleIsReachable(host, s);
    var states, steps :| EndsIn(host.env, states, steps, t);
    GoodRecordsAreNeverPenalised(host.env, states, steps, |steps|, good);
  }
}
