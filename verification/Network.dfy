/**
 One batch on the wire (src/agent/shared/network.cpp, src/common/httpclient.cpp) and the cloud table behind it.

 The server and the line are adversarial: an `Env` fixes, for every moment, what becomes of a request.
 All statements hold for every `Env`, so for every server, every loss and every interleaving with others.
 */
module Network {
  import opened JsonText
  import opened BatchSend
  import opened RecordJson

  // ---------------------------------------------------------------------------------------------
  // The cloud table
  // ---------------------------------------------------------------------------------------------

  datatype Key = Key(user: string, device: string, start: int)

  /** What the cloud stores besides the key; the local id is not sent. */
  datatype CloudRow = CloudRow(process: string, title: string, duration: int, end: int)

  type Cloud = map<Key, CloudRow>

  datatype Delivery = Delivery(user: string, record: SyncRecord)

  function KeyOf(d: Delivery): Key { Key(d.user, d.record.deviceId, d.record.start) }

  function RowOf(d: Delivery): CloudRow {
    CloudRow(d.record.process, d.record.title, d.record.duration, d.record.end)
  }

  /** Upsert on (user_id, device_id, start_time), one record after the other. */
  function UpsertAll(cloud: Cloud, user: string, batch: seq<SyncRecord>): Cloud
    decreases |batch|
  {
    if batch == [] then cloud
    else
      var d := Delivery(user, batch[0]);
      UpsertAll(cloud[KeyOf(d) := RowOf(d)], user, batch[1..])
  }

  function Deliveries(user: string, batch: seq<SyncRecord>): (ds: seq<Delivery>)
    ensures |ds| == |batch| && forall i :: 0 <= i < |ds| ==> ds[i] == Delivery(user, batch[i])
  {
    seq(|batch|, i requires 0 <= i < |batch| => Delivery(user, batch[i]))
  }

  // ---------------------------------------------------------------------------------------------
  // The line
  // ---------------------------------------------------------------------------------------------

  /** A request is lost or answered; either way the server may have stored it. */
  datatype Wire = Lost(stored: bool) | Answer(status: nat, stored: bool)

  predicate IsSuccess(status: nat) { 200 <= status < 300 }

  /** `isTransientStatus`: the server is overloaded or away, the data is not to blame. */
  predicate IsTransient(status: nat) {
    status == 408 || status == 429 || status == 502 || status == 503 || status == 504
  }

  /** A 2xx answer comes only after everything in the request has been upserted. */
  predicate Stores(wire: Wire) {
    wire.stored || (wire.Answer? && IsSuccess(wire.status))
  }

  /** What `restclient_refresh_if_stale` comes to: a usable token, none for now, or a dead session. */
  datatype Renewal = Renewed | NotNow | SignedOut

  datatype Env = Env(wire: (nat, string, seq<SyncRecord>) -> Wire, renewal: nat -> Renewal)

  /** The world of the sender; `log` lists every delivery in the order the server made them. */
  datatype World = World(time: nat, session: Option<string>, cloud: Cloud, log: seq<Delivery>)

  /** One exchange with the server. */
  function Exchange(env: Env, w: World, batch: seq<SyncRecord>): (World, Wire)
    requires w.session.Some?
  {
    var user := w.session.value;
    var wire := env.wire(w.time, user, batch);
    var w1 := w.(time := w.time + 1);
    (if Stores(wire) then w1.(cloud := UpsertAll(w.cloud, user, batch), log := w.log + Deliveries(user, batch)) else w1,
     wire)
  }

  /** `httpsRequest` for an idempotent request: lost once, tried once more. */
  function Https(env: Env, w: World, batch: seq<SyncRecord>): (World, Wire)
    requires w.session.Some?
  {
    var (w1, wire) := Exchange(env, w, batch);
    if wire.Lost? then Exchange(env, w1, batch) else (w1, wire)
  }

  /** `network_send_batch` from its first (0) or second (1) attempt on. */
  function SendFrom(env: Env, w: World, batch: seq<SyncRecord>, attempt: nat): (World, SendOutcome)
    requires w.session.Some? && attempt < 2
    decreases 2 - attempt
  {
    var (w1, wire) := Https(env, w, batch);
    if wire.Lost? then (w1, TransportError)
    else if IsSuccess(wire.status) then (w1, Accepted)
    else if wire.status == 401 && attempt == 0 then
      var w2 := w1.(time := w1.time + 1);
      match env.renewal(w1.time)
      case Renewed => SendFrom(env, w2, batch, 1)
      case NotNow => (w2, TransportError)
      case SignedOut => (w2.(session := None), TransportError)
    else (w1, if IsTransient(wire.status) then TransportError else Rejected)
  }

  function Send(env: Env, w: World, batch: seq<SyncRecord>): (World, SendOutcome) {
    if w.session.None? then (w, TransportError) else SendFrom(env, w, batch, 0)
  }

  /** `network_send_batch`, with the outcome that sync.cpp makes of its two results. */
  method NetworkSendBatch(env: Env, w0: World, batch: seq<SyncRecord>)
    returns (ok: bool, transportError: bool, w: World)
    requires batch != []
    ensures w == Send(env, w0, batch).0
    ensures Send(env, w0, batch).1 == if ok then Accepted else if transportError then TransportError else Rejected
  {
    w := w0;
    if w.session.None? {
      return false, true, w;
    }
    for attempt := 0 to 2
      invariant w.session.Some?
      invariant attempt < 2 ==> SendFrom(env, w, batch, attempt) == Send(env, w0, batch)
      invariant attempt < 2
    {
      var (w1, wire) := Https(env, w, batch);
      w := w1;
      if wire.Lost? {
        return false, true, w;
      }
      if IsSuccess(wire.status) {
        return true, false, w;
      }
      if wire.status == 401 && attempt == 0 {
        var renewal := env.renewal(w.time);
        w := w.(time := w.time + 1);
        if renewal == Renewed {
          continue;
        }
        if renewal == SignedOut { w := w.(session := None); }
        return false, true, w;
      }
      return false, IsTransient(wire.status), w;
    }
  }

  // ---------------------------------------------------------------------------------------------
  // What each answer comes to
  // ---------------------------------------------------------------------------------------------

  /** The answer to a request that is made again when it is lost once. */
  function FinalWire(env: Env, time: nat, user: string, batch: seq<SyncRecord>): (nat, Wire) {
    var first := env.wire(time, user, batch);
    if first.Lost? then (time + 2, env.wire(time + 1, user, batch)) else (time + 1, first)
  }

  predicate IsOther(status: nat) { !(200 <= status <= 299) && status !in {408, 429, 502, 503, 504} }

  /** The outcome of a final answer, status by status; `last` tells that a 401 is not answered by a renewal any more. */
  ghost predicate ComesTo(wire: Wire, last: bool, outcome: SendOutcome) {
    && (wire.Lost? ==> outcome == TransportError)
    && (wire.Answer? && 200 <= wire.status <= 299 ==> outcome == Accepted)
    && (wire.Answer? && wire.status in {408, 429, 502, 503, 504} ==> outcome == TransportError)
    && (wire.Answer? && IsOther(wire.status) && (wire.status == 401 ==> last) ==> outcome == Rejected)
  }

  /** One call, answer by answer: a lost request is made once more, a 401 leads to one renewal and one more attempt. */
  lemma SendByStatus(env: Env, w: World, batch: seq<SyncRecord>)
    requires w.session.Some?
    ensures var user := w.session.value;
            var (t, first) := FinalWire(env, w.time, user, batch);
            var (v, outcome) := Send(env, w, batch);
            if first.Answer? && first.status == 401 then
              match env.renewal(t)
              case NotNow => outcome == TransportError && v.session == w.session && v.time == t + 1
              case SignedOut => outcome == TransportError && v.session == None && v.time == t + 1
              case Renewed =>
                var (t2, second) := FinalWire(env, t + 1, user, batch);
                ComesTo(second, true, outcome) && v.session == w.session && v.time == t2
            else ComesTo(first, false, outcome) && v.session == w.session && v.time == t
  {
    var (w1, first) := Https(env, w, batch);
    HttpsIsFinal(env, w, batch);
    HttpsIsFinal(env, w1.(time := w1.time + 1), batch);
  }

  lemma HttpsIsFinal(env: Env, w: World, batch: seq<SyncRecord>)
    requires w.session.Some?
    ensures var (v, wire) := Https(env, w, batch);
            FinalWire(env, w.time, w.session.value, batch) == (v.time, wire) && v.session == w.session
  {
  }

  // ---------------------------------------------------------------------------------------------
  // What a send leaves behind
  // ---------------------------------------------------------------------------------------------

  ghost predicate InCloud(cloud: Cloud, r: SyncRecord) {
    exists user :: Key(user, r.deviceId, r.start) in cloud
  }

  lemma {:induction false} UpsertAllKeys(cloud: Cloud, user: string, batch: seq<SyncRecord>)
    ensures UpsertAll(cloud, user, batch).Keys
         == cloud.Keys + set i | 0 <= i < |batch| :: KeyOf(Delivery(user, batch[i]))
    decreases |batch|
  {
    if batch != [] {
      var d := Delivery(user, batch[0]);
      UpsertAllKeys(cloud[KeyOf(d) := RowOf(d)], user, batch[1..]);
      var here := set i | 0 <= i < |batch| :: KeyOf(Delivery(user, batch[i]));
      var more := set i | 0 <= i < |batch[1..]| :: KeyOf(Delivery(user, batch[1..][i]));
      assert here == {KeyOf(d)} + more by {
        forall k | k in here ensures k in {KeyOf(d)} + more {
          var i :| 0 <= i < |batch| && k == KeyOf(Delivery(user, batch[i]));
          if i > 0 { assert batch[1..][i - 1] == batch[i]; }
        }
        forall k | k in {KeyOf(d)} + more ensures k in here {
          if k in more {
            var i :| 0 <= i < |batch[1..]| && k == KeyOf(Delivery(user, batch[1..][i]));
            assert batch[i + 1] == batch[1..][i];
          } else {
            assert batch[0] == d.record;
          }
        }
      }
    }
  }

  /** The world after exchanges about `sent`: nothing leaves the cloud, the log only grows, the user stays. */
  ghost predicate Later(w: World, v: World, sent: seq<SyncRecord>) {
    && w.cloud.Keys <= v.cloud.Keys
    && w.log <= v.log
    && (forall d :: d in v.log ==> d in w.log || d.record in sent)
    && w.time <= v.time
    && (v.session.Some? ==> v.session == w.session)
  }

  lemma ExchangeStores(env: Env, w: World, batch: seq<SyncRecord>)
    requires w.session.Some?
    ensures var (v, wire) := Exchange(env, w, batch);
            && Later(w, v, batch) && v.session == w.session
            && (wire.Answer? && IsSuccess(wire.status) ==> forall i :: 0 <= i < |batch| ==> InCloud(v.cloud, batch[i]))
  {
    var user := w.session.value;
    UpsertAllKeys(w.cloud, user, batch);
    var (v, wire) := Exchange(env, w, batch);
    if wire.Answer? && IsSuccess(wire.status) {
      forall i | 0 <= i < |batch| ensures InCloud(v.cloud, batch[i]) {
        assert KeyOf(Delivery(user, batch[i])) in v.cloud;
      }
    }
  }

  lemma HttpsStores(env: Env, w: World, batch: seq<SyncRecord>)
    requires w.session.Some?
    ensures var (v, wire) := Https(env, w, batch);
            && Later(w, v, batch) && v.session == w.session
            && (wire.Answer? && IsSuccess(wire.status) ==> forall i :: 0 <= i < |batch| ==> InCloud(v.cloud, batch[i]))
  {
    ExchangeStores(env, w, batch);
    ExchangeStores(env, Exchange(env, w, batch).0, batch);
  }

  /** What a call keeps, and what it delivers when it is accepted. */
  ghost predicate Serves(w: World, v: World, batch: seq<SyncRecord>, outcome: SendOutcome) {
    Later(w, v, batch) && (outcome == Accepted ==> forall i :: 0 <= i < |batch| ==> InCloud(v.cloud, batch[i]))
  }

  lemma SecondAttemptServes(env: Env, w: World, batch: seq<SyncRecord>)
    requires w.session.Some?
    ensures Serves(w, SendFrom(env, w, batch, 1).0, batch, SendFrom(env, w, batch, 1).1)
  {
    HttpsStores(env, w, batch);
  }

  /** The second attempt follows a renewal. */
  lemma RenewedServes(env: Env, w: World, w1: World, batch: seq<SyncRecord>)
    requires w1.session.Some? && Later(w, w1, batch)
    ensures var (v, outcome) := SendFrom(env, w1.(time := w1.time + 1), batch, 1);
            Serves(w, v, batch, outcome)
  {
    var w2 := w1.(time := w1.time + 1);
    SecondAttemptServes(env, w2, batch);
  }

  /** A first attempt is repeated after a 401 and a renewal. */
  ghost predicate TriesAgain(env: Env, w: World, batch: seq<SyncRecord>)
    requires w.session.Some?
  {
    var (w1, wire) := Https(env, w, batch);
    wire.Answer? && wire.status == 401 && env.renewal(w1.time) == Renewed
  }

  lemma RepeatedServes(env: Env, w: World, batch: seq<SyncRecord>)
    requires w.session.Some? && TriesAgain(env, w, batch)
    ensures Serves(w, SendFrom(env, w, batch, 0).0, batch, SendFrom(env, w, batch, 0).1)
  {
    var w1 := Https(env, w, batch).0;
    HttpsStores(env, w, batch);
    RenewedServes(env, w, w1, batch);
    assert SendFrom(env, w, batch, 0) == SendFrom(env, w1.(time := w1.time + 1), batch, 1);
  }

  lemma UnrepeatedServes(env: Env, w: World, batch: seq<SyncRecord>)
    requires w.session.Some? && !TriesAgain(env, w, batch)
    ensures Serves(w, SendFrom(env, w, batch, 0).0, batch, SendFrom(env, w, batch, 0).1)
  {
    var (v, outcome) := SendFrom(env, w, batch, 0);
    HttpsStores(env, w, batch);
  }

  lemma FirstAttemptServes(env: Env, w: World, batch: seq<SyncRecord>)
    requires w.session.Some?
    ensures Serves(w, SendFrom(env, w, batch, 0).0, batch, SendFrom(env, w, batch, 0).1)
  {
    if TriesAgain(env, w, batch) {
      RepeatedServes(env, w, batch);
    } else {
      UnrepeatedServes(env, w, batch);
    }
  }

  /** An accepted batch is in the cloud; whatever the outcome, nothing is ever taken out of it. */
  lemma AcceptedIsStored(env: Env, w: World, batch: seq<SyncRecord>)
    ensures var (v, outcome) := Send(env, w, batch);
            && Later(w, v, batch)
            && (outcome == Accepted ==> forall i :: 0 <= i < |batch| ==> InCloud(v.cloud, batch[i]))
  {
    if w.session.Some? { FirstAttemptServes(env, w, batch); }
  }

  /**
   What counts as a refusal: an answer that is neither 2xx nor transient; a 401 counts only when it
   comes again right after a successful renewal of the token.
   */
  lemma RefusalIsAnAnswer(env: Env, w: World, batch: seq<SyncRecord>)
    requires Send(env, w, batch).1 == Rejected
    ensures var v := Send(env, w, batch).0;
            && v.session == w.session && v.session.Some? && 0 < v.time
            && var wire := env.wire(v.time - 1, v.session.value, batch);
               && wire.Answer? && !IsSuccess(wire.status) && !IsTransient(wire.status)
               && (wire.status == 401 ==>
                     exists t :: w.time < t < v.time && v.time - 3 <= t && env.renewal(t) == Renewed)
  {
    var w1 := Https(env, w, batch).0;
    assert w.time < w1.time;
    if Https(env, w, batch).1.Answer? && Https(env, w, batch).1.status == 401 {
      assert env.renewal(w1.time) == Renewed;
    }
  }

  // ---------------------------------------------------------------------------------------------
  // Exactly-once effect
  // ---------------------------------------------------------------------------------------------

  /** The cloud holds exactly the rows delivered at least once. */
  ghost predicate CloudIsDelivered(cloud: Cloud, log: seq<Delivery>) {
    && (forall k :: k in cloud ==> exists d :: d in log && KeyOf(d) == k && RowOf(d) == cloud[k])
    && (forall d :: d in log ==> KeyOf(d) in cloud && cloud[KeyOf(d)] == RowOf(d))
  }

  /** Deliveries under one key carry one row: the key never merges two different records. */
  ghost predicate KeysDetermineRows(log: seq<Delivery>) {
    forall d, e :: d in log && e in log && KeyOf(d) == KeyOf(e) ==> RowOf(d) == RowOf(e)
  }

  lemma {:induction false} UpsertAllDelivers(cloud: Cloud, log: seq<Delivery>, user: string, batch: seq<SyncRecord>)
    requires CloudIsDelivered(cloud, log)
    requires KeysDetermineRows(log + Deliveries(user, batch))
    ensures CloudIsDelivered(UpsertAll(cloud, user, batch), log + Deliveries(user, batch))
    decreases |batch|
  {
    if batch == [] {
      assert log + Deliveries(user, batch) == log;
    } else {
      var d := Delivery(user, batch[0]);
      var all := log + Deliveries(user, batch);
      assert all == (log + [d]) + Deliveries(user, batch[1..]);
      assert forall e :: e in log + [d] ==> e in all;
      var cloud' := cloud[KeyOf(d) := RowOf(d)];
      assert CloudIsDelivered(cloud', log + [d]) by {
        assert d in log + [d];
        forall k | k in cloud' ensures exists e :: e in log + [d] && KeyOf(e) == k && RowOf(e) == cloud'[k] {
          if k != KeyOf(d) {
            var e :| e in log && KeyOf(e) == k && RowOf(e) == cloud[k];
            assert e in log + [d];
          }
        }
      }
      UpsertAllDelivers(cloud', log + [d], user, batch[1..]);
    }
  }

  lemma ExchangeDelivers(env: Env, w: World, batch: seq<SyncRecord>)
    requires w.session.Some? && CloudIsDelivered(w.cloud, w.log)
    ensures var v := Exchange(env, w, batch).0;
            KeysDetermineRows(v.log) ==> CloudIsDelivered(v.cloud, v.log)
  {
    var v := Exchange(env, w, batch).0;
    if v.log != w.log && KeysDetermineRows(v.log) {
      UpsertAllDelivers(w.cloud, w.log, w.session.value, batch);
    }
  }

  /** Either the keys of the log clash, or the cloud is the map of what was delivered. */
  ghost predicate Delivers(w: World) {
    KeysDetermineRows(w.log) ==> CloudIsDelivered(w.cloud, w.log)
  }

  lemma ExchangeKeeps(env: Env, w: World, batch: seq<SyncRecord>)
    requires w.session.Some? && Delivers(w)
    ensures Delivers(Exchange(env, w, batch).0)
  {
    ExchangeStores(env, w, batch);
    var v := Exchange(env, w, batch).0;
    if KeysDetermineRows(v.log) {
      ExchangeDelivers(env, w, batch);
    }
  }

  lemma HttpsDelivers(env: Env, w: World, batch: seq<SyncRecord>)
    requires w.session.Some? && Delivers(w)
    ensures Delivers(Https(env, w, batch).0) && Https(env, w, batch).0.session == w.session
  {
    ExchangeKeeps(env, w, batch);
    ExchangeStores(env, w, batch);
    ExchangeKeeps(env, Exchange(env, w, batch).0, batch);
    ExchangeStores(env, Exchange(env, w, batch).0, batch);
  }

  /** A call makes one or two requests and adds nothing of its own to the cloud. */
  lemma OneOrTwoRequests(env: Env, w: World, batch: seq<SyncRecord>)
    requires w.session.Some?
    ensures var v := Send(env, w, batch).0;
            var w1 := Https(env, w, batch).0;
            w1.session == w.session
            && var w2 := Https(env, w1.(time := w1.time + 1), batch).0;
               (v.cloud == w1.cloud && v.log == w1.log) || (v.cloud == w2.cloud && v.log == w2.log)
  {
  }

  lemma SecondRequestDelivers(env: Env, w: World, batch: seq<SyncRecord>)
    requires w.session.Some? && Delivers(w)
    ensures Delivers(Https(env, w.(time := w.time + 1), batch).0)
  {
    HttpsDelivers(env, w.(time := w.time + 1), batch);
  }

  lemma SameTable(w: World, v: World)
    requires Delivers(w) && v.cloud == w.cloud && v.log == w.log
    ensures Delivers(v)
  {
  }

  /** Resends, lost acknowledgements and retries after a renewal leave one row per delivered record. */
  lemma SendDelivers(env: Env, w: World, batch: seq<SyncRecord>)
    requires Delivers(w)
    ensures Delivers(Send(env, w, batch).0)
  {
    if w.session.Some? {
      var w1, v := Https(env, w, batch).0, Send(env, w, batch).0;
      OneOrTwoRequests(env, w, batch);
      HttpsDelivers(env, w, batch);
      SecondRequestDelivers(env, w1, batch);
      if v.cloud == w1.cloud && v.log == w1.log {
        SameTable(w1, v);
      } else {
        SameTable(Https(env, w1.(time := w1.time + 1), batch).0, v);
      }
    }
  }

  /** The table depends only on which deliveries happened, not on their order or number. */
  lemma SameDeliveriesSameCloud(c1: Cloud, log1: seq<Delivery>, c2: Cloud, log2: seq<Delivery>)
    requires CloudIsDelivered(c1, log1) && CloudIsDelivered(c2, log2)
    requires forall d :: d in log1 <==> d in log2
    ensures c1 == c2
  {
    forall k | k in c1 ensures k in c2 && c2[k] == c1[k] {
      var d :| d in log1 && KeyOf(d) == k && RowOf(d) == c1[k];
      assert d in log2;
    }
    forall k | k in c2 ensures k in c1 {
      var d :| d in log2 && KeyOf(d) == k && RowOf(d) == c2[k];
      assert d in log1;
    }
  }

  // ---------------------------------------------------------------------------------------------
  // The cloud as the log replayed
  // ---------------------------------------------------------------------------------------------

  /** The deliveries in order: a later one under the same key replaces the row. */
  function Replay(log: seq<Delivery>): Cloud {
    if log == [] then map[]
    else
      var last := log[|log| - 1];
      Replay(log[..|log| - 1])[KeyOf(last) := RowOf(last)]
  }

  /** Something was delivered under this key. */
  ghost predicate WasDelivered(log: seq<Delivery>, k: Key) {
    exists j :: 0 <= j < |log| && KeyOf(log[j]) == k
  }

  lemma DeliveredStep(log: seq<Delivery>, d: Delivery, k: Key)
    ensures WasDelivered(log + [d], k) <==> WasDelivered(log, k) || KeyOf(d) == k
  {
    var all := log + [d];
    assert all[|log|] == d;
    if WasDelivered(log, k) {
      var j :| 0 <= j < |log| && KeyOf(log[j]) == k;
      assert all[j] == log[j];
    }
  }

  /** The keys of the cloud are exactly the keys delivered. */
  lemma {:induction false} ReplayHasTheKeys(log: seq<Delivery>, k: Key)
    ensures k in Replay(log) <==> WasDelivered(log, k)
  {
    if log != [] {
      var n := |log| - 1;
      ReplayHasTheKeys(log[..n], k);
      DeliveredStep(log[..n], log[n], k);
      assert log[..n] + [log[n]] == log;
    }
  }

  /** No later delivery has the key of the `j`-th one. */
  ghost predicate IsLatest(log: seq<Delivery>, j: nat) {
    j < |log| && forall l :: j < l < |log| ==> KeyOf(log[l]) != KeyOf(log[j])
  }

  /** Each key holds its latest delivery. */
  lemma {:induction false} ReplayHoldsTheLatest(log: seq<Delivery>, j: nat)
    requires IsLatest(log, j)
    ensures KeyOf(log[j]) in Replay(log) && Replay(log)[KeyOf(log[j])] == RowOf(log[j])
  {
    var n := |log| - 1;
    if j < n {
      assert IsLatest(log[..n], j);
      ReplayHoldsTheLatest(log[..n], j);
    }
  }

  /** Upserting a batch replays its deliveries. */
  lemma {:induction false} UpsertReplays(log: seq<Delivery>, user: string, batch: seq<SyncRecord>)
    ensures UpsertAll(Replay(log), user, batch) == Replay(log + Deliveries(user, batch))
    decreases |batch|
  {
    if batch == [] {
      assert log + Deliveries(user, batch) == log;
    } else {
      var d := Delivery(user, batch[0]);
      assert (log + [d])[..|log|] == log;
      assert log + Deliveries(user, batch) == (log + [d]) + Deliveries(user, batch[1..]);
      UpsertReplays(log + [d], user, batch[1..]);
    }
  }

  ghost predicate IsReplay(w: World) { w.cloud == Replay(w.log) }

  lemma ExchangeReplays(env: Env, w: World, batch: seq<SyncRecord>)
    requires w.session.Some? && IsReplay(w)
    ensures IsReplay(Exchange(env, w, batch).0) && Exchange(env, w, batch).0.session == w.session
  {
    UpsertReplays(w.log, w.session.value, batch);
  }

  lemma HttpsReplays(env: Env, w: World, batch: seq<SyncRecord>)
    requires w.session.Some? && IsReplay(w)
    ensures IsReplay(Https(env, w, batch).0) && Https(env, w, batch).0.session == w.session
  {
    ExchangeReplays(env, w, batch);
    ExchangeReplays(env, Exchange(env, w, batch).0, batch);
  }

  /** However often requests are lost, resent and retried, the cloud is the log replayed. */
  lemma SendReplays(env: Env, w: World, batch: seq<SyncRecord>)
    requires IsReplay(w)
    ensures IsReplay(Send(env, w, batch).0)
  {
    if w.session.Some? {
      var w1 := Https(env, w, batch).0;
      OneOrTwoRequests(env, w, batch);
      HttpsReplays(env, w, batch);
      HttpsReplays(env, w1.(time := w1.time + 1), batch);
    }
  }

  // ---------------------------------------------------------------------------------------------
  // Servers with a verdict per record
  // ---------------------------------------------------------------------------------------------

  /** 2xx only for good records; a final refusal of a single record (401 aside) only for a bad one. */
  ghost predicate SoundEnv(env: Env, good: SyncRecord -> bool) {
    forall k, user, batch {:trigger env.wire(k, user, batch)} :: batch != [] && env.wire(k, user, batch).Answer? ==>
      var status := env.wire(k, user, batch).status;
      && (IsSuccess(status) ==> forall i :: 0 <= i < |batch| ==> good(batch[i]))
      && (|batch| == 1 && !IsSuccess(status) && !IsTransient(status) && status != 401 ==> !good(batch[0]))
  }

  /** A freshly renewed token is not answered with another 401. */
  ghost predicate RenewedTokensWork(env: Env) {
    forall k: nat, j: nat, user, batch {:trigger env.renewal(k), env.wire(j, user, batch)} ::
      env.renewal(k) == Renewed && k < j <= k + 2 ==>
        !(env.wire(j, user, batch).Answer? && env.wire(j, user, batch).status == 401)
  }

  /** With sound verdicts and working renewals, a good record is never refused and a bad one never accepted. */
  lemma SendIsSound(env: Env, w: World, batch: seq<SyncRecord>, good: SyncRecord -> bool)
    requires batch != [] && SoundEnv(env, good) && RenewedTokensWork(env)
    ensures Send(env, w, batch).1 == Accepted ==> forall i :: 0 <= i < |batch| ==> good(batch[i])
    ensures Send(env, w, batch).1 == Rejected && |batch| == 1 ==> !good(batch[0])
  {
    if w.session.Some? {
      var (w1, wire) := Https(env, w, batch);
      if wire.Answer? {
        var w2 := w1.(time := w1.time + 1);
      }
    }
  }

  // ---------------------------------------------------------------------------------------------
  // A second 401
  // ---------------------------------------------------------------------------------------------

  /** The first final answer is 401, the renewal succeeds, and the second final answer is 401 again. */
  predicate SecondUnauthorized(env: Env, w: World, batch: seq<SyncRecord>) {
    && w.session.Some?
    && var (w1, first) := Https(env, w, batch);
       && first.Answer? && first.status == 401 && env.renewal(w1.time) == Renewed
       && var second := Https(env, w1.(time := w1.time + 1), batch).1;
          second.Answer? && second.status == 401
  }

  /** Whatever the batch contains, a second 401 is booked as a refusal of its records. */
  lemma SecondUnauthorizedIsRefused(env: Env, w: World, batch: seq<SyncRecord>)
    requires SecondUnauthorized(env, w, batch)
    ensures Send(env, w, batch).1 == Rejected
  {
    var w1 := Https(env, w, batch).0;
    assert SendFrom(env, w1.(time := w1.time + 1), batch, 1).1 == Rejected;
  }

  /** With a verdict per record, a good record sent alone is refused if and only if a second 401 comes. */
  lemma GoodIsRefusedIff(env: Env, w: World, r: SyncRecord, good: SyncRecord -> bool)
    requires SoundEnv(env, good) && good(r)
    ensures Send(env, w, [r]).1 == Rejected <==> SecondUnauthorized(env, w, [r])
  {
    if SecondUnauthorized(env, w, [r]) {
      SecondUnauthorizedIsRefused(env, w, [r]);
    } else if w.session.Some? {
      var (w1, first) := Https(env, w, [r]);
      if first.Answer? {
        var w2 := w1.(time := w1.time + 1);
      }
    }
  }

  /** A server that answers every request with 401, beside an endpoint that renews every token. */
  const ALWAYS_UNAUTHORIZED :=
    Env((k: nat, user: string, batch: seq<SyncRecord>) => Answer(401, false), (k: nat) => Renewed)

  /** Such a server calls no record bad, and yet every record is refused. */
  lemma SecondUnauthorizedHappens(w: World, r: SyncRecord)
    requires w.session.Some?
    ensures SoundEnv(ALWAYS_UNAUTHORIZED, _ => true)
    ensures SecondUnauthorized(ALWAYS_UNAUTHORIZED, w, [r]) && Send(ALWAYS_UNAUTHORIZED, w, [r]).1 == Rejected
  {
    var env := ALWAYS_UNAUTHORIZED;
    assert Https(env, w, [r]) == (w.(time := w.time + 1), Answer(401, false));
    var w2 := w.(time := w.time + 1).(time := w.time + 2);
    assert Https(env, w2, [r]).1 == Answer(401, false);
    SecondUnauthorizedIsRefused(env, w, [r]);
  }
}
