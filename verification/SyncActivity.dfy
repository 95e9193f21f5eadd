/**
 The deployed edge function (supabase/functions/sync-activity/index.ts) as the server half of the protocol.

 It accepts single objects only: an array has no `device_id`, so a batch of two or more is answered
 with 400.  Bisection copes, because single records are judged on their own.
 */
module SyncActivity {
  import opened BatchSend
  import opened JsonText
  import opened RecordJson
  import opened Network
  import JsonRead

  const MAX_ID_LEN := 128
  const MAX_PROCESS_LEN := 512
  const MAX_TITLE_LEN := 4000

  /** A JSON value as `typeof` tells it apart; `NotFinite` is a number such as 1e400. */
  datatype Value = Undefined | Text(text: string) | Number(number: real) | NotFinite | Other

  /** A request body: not JSON, JSON without named members (an array, null, a scalar), or an object. */
  datatype Payload = NotJson | NoMembers | Object(members: map<string, Value>)

  /** What the Authorization header comes to. */
  datatype Token = Missing | Invalid | Of(user: string)

  function Member(p: Payload, name: string): Value {
    if p.Object? && name in p.members then p.members[name] else Undefined
  }

  predicate IsNonEmptyString(v: Value, maxLen: nat) { v.Text? && 0 < |v.text| <= maxLen }

  predicate IsFiniteNumber(v: Value) { v.Number? }

  /** The payload passes every check of the handler. */
  predicate WellFormed(p: Payload) {
    && IsNonEmptyString(Member(p, "device_id"), MAX_ID_LEN)
    && IsNonEmptyString(Member(p, "process_name"), MAX_PROCESS_LEN)
    && Member(p, "window_title").Text? && |Member(p, "window_title").text| <= MAX_TITLE_LEN
    && IsFiniteNumber(Member(p, "duration_seconds"))
    && IsFiniteNumber(Member(p, "start_time"))
    && IsFiniteNumber(Member(p, "end_time"))
    && 0.0 <= Member(p, "duration_seconds").number
    && Member(p, "start_time").number <= Member(p, "end_time").number
  }

  predicate IsInteger(v: Value) { v.Number? && v.number == v.number.Floor as real }

  /** The row an upsert would write; the columns are bigint, so fractions are refused by the database. */
  function PayloadRow(p: Payload): Option<(string, int, CloudRow)> {
    if WellFormed(p) && IsInteger(Member(p, "duration_seconds"))
       && IsInteger(Member(p, "start_time")) && IsInteger(Member(p, "end_time"))
    then Some((Member(p, "device_id").text, Member(p, "start_time").number.Floor,
               CloudRow(Member(p, "process_name").text, Member(p, "window_title").text,
                        Member(p, "duration_seconds").number.Floor, Member(p, "end_time").number.Floor)))
    else None
  }

  /** The table of the edge function. */
  class ActivityTable {
    var rows: Cloud

    constructor ()
      ensures rows == map[]
    {
      rows := map[];
    }

    /** The request handler; `databaseUp` is whether the database takes statements at all. */
    method Handle(isPost: bool, token: Token, payload: Payload, databaseUp: bool) returns (status: nat)
      modifies this
      ensures status == Status(isPost, token, payload, databaseUp)
      ensures rows == TableAfter(old(rows), isPost, token, payload, databaseUp)
    {
      if !isPost { return 405; }
      if token.Missing? { return 401; }
      if token.Invalid? { return 401; }
      if payload.NotJson? { return 400; }
      if !WellFormed(payload) { return 400; }
      var row := PayloadRow(payload);
      if !databaseUp || row.None? { return 500; }
      var (device, start, cells) := row.value;
      rows := rows[Key(token.user, device, start) := cells];
      status := 200;
    }
  }

  function Status(isPost: bool, token: Token, payload: Payload, databaseUp: bool): nat {
    if !isPost then 405
    else if !token.Of? then 401
    else if !WellFormed(payload) then 400
    else if databaseUp && PayloadRow(payload).Some? then 200
    else 500
  }

  /** The statuses in the order of the checks; only 200 writes. */
  lemma StatusLaw(isPost: bool, token: Token, p: Payload, databaseUp: bool, rows: Cloud)
    ensures var status := Status(isPost, token, p, databaseUp);
            && status in {200, 400, 401, 405, 500}
            && (status == 405 <==> !isPost)
            && (status == 401 <==> isPost && (token == Missing || token == Invalid))
            && (status == 400 ==> isPost && token.Of?)
            && (status != 200 ==> TableAfter(rows, isPost, token, p, databaseUp) == rows)
            && (isPost && token.Of? && !p.Object? ==> status == 400)
            && (status == 200 ==> databaseUp && p.Object?)
    ensures isPost && token.Of? && p.Object? ==>
              (Status(isPost, token, p, databaseUp) != 400 <==>
                 TextOk(p, "device_id", 1, 128) && TextOk(p, "process_name", 1, 512)
                 && TextOk(p, "window_title", 0, 4000)
                 && NumberOk(p, "duration_seconds", 0.0) && NumberOk(p, "end_time", 0.0 + StartOf(p))
                 && Member(p, "start_time").Number?)
  {
  }

  function AsReal(n: int): real { n as real }

  ghost predicate Whole(p: Payload, name: string) {
    match Member(p, name) case Number(x) => exists n: int :: x == AsReal(n) case _ => false
  }

  /** A payload that passes the checks is stored if the database takes it: it does when its numbers are whole. */
  lemma WholeNumbersAreStored(token: Token, p: Payload, databaseUp: bool)
    requires token.Of? && WellFormed(p)
    ensures Status(true, token, p, databaseUp) == 200 <==>
              databaseUp && Whole(p, "duration_seconds") && Whole(p, "start_time") && Whole(p, "end_time")
    ensures Status(true, token, p, databaseUp) == 200 || Status(true, token, p, databaseUp) == 500
  {
    WholeIsInteger(p, "duration_seconds");
    WholeIsInteger(p, "start_time");
    WholeIsInteger(p, "end_time");
  }

  lemma WholeIsInteger(p: Payload, name: string)
    requires Member(p, name).Number?
    ensures Whole(p, name) <==> IsInteger(Member(p, name))
  {
    var x := Member(p, name).number;
    if IsInteger(Member(p, name)) { assert x == AsReal(x.Floor); }
    if n: int :| x == AsReal(n) { assert x.Floor == n; }
  }

  predicate TextOk(p: Payload, name: string, least: nat, most: nat) {
    match Member(p, name) case Text(s) => least <= |s| <= most case _ => false
  }

  predicate NumberOk(p: Payload, name: string, least: real) {
    match Member(p, name) case Number(x) => least <= x case _ => false
  }

  function StartOf(p: Payload): real {
    match Member(p, "start_time") case Number(x) => x case _ => 0.0
  }

  function TableAfter(rows: Cloud, isPost: bool, token: Token, payload: Payload, databaseUp: bool): Cloud {
    if Status(isPost, token, payload, databaseUp) == 200 then
      var (device, start, cells) := PayloadRow(payload).value;
      rows[Key(token.user, device, start) := cells]
    else rows
  }

  // ---------------------------------------------------------------------------------------------
  // What the agent's requests meet there
  // ---------------------------------------------------------------------------------------------

  /** The body `buildBody` sends: an object for one record, otherwise an array. */
  function PayloadOf(batch: seq<SyncRecord>): Payload {
    if |batch| == 1 then
      var r := batch[0];
      Object(map["device_id" := Text(r.deviceId), "process_name" := Text(r.process), "window_title" := Text(r.title),
                 "duration_seconds" := Number(r.duration as real), "start_time" := Number(r.start as real),
                 "end_time" := Number(r.end as real)])
    else NoMembers
  }

  /** A value of the JSON the agent sends, as the handler tells it apart. */
  function ValueOf(j: JsonRead.Json): Value {
    match j
    case Text(s) => Text(s)
    case Integer(n) => Number(n as real)
    case _ => Other
  }

  /** What the handler's parser makes of a request body. */
  function Parsed(body: string): Payload {
    match JsonRead.ReadText(body)
    case None => NotJson
    case Some(j) => if j.Object? then Object(Values(j.members)) else NoMembers
  }

  function Values(members: map<string, JsonRead.Json>): map<string, Value> {
    map name | name in members :: ValueOf(members[name])
  }

  lemma ValuesOf(r: SyncRecord)
    ensures Values(JsonRead.Members(r)) == PayloadOf([r]).members
  {
    var m := JsonRead.Members(r);
    assert Values(m).Keys == m.Keys;
  }

  /** The payload of a batch is what its body says. */
  lemma BodyIsPayload(batch: seq<SyncRecord>)
    ensures Parsed(BodyText(batch)) == PayloadOf(batch)
  {
    JsonRead.ReadsBody(batch);
    if |batch| == 1 {
      ValuesOf(batch[0]);
      assert batch == [batch[0]];
    }
  }

  /** The body of an acceptable record is stored field by field under the user, its device and its start. */
  lemma StoredAsSent(rows: Cloud, user: string, r: SyncRecord)
    requires Acceptable(r)
    ensures Status(true, Of(user), Parsed(BodyText([r])), true) == 200
    ensures TableAfter(rows, true, Of(user), Parsed(BodyText([r])), true)
         == rows[Key(user, r.deviceId, r.start) := CloudRow(r.process, r.title, r.duration, r.end)]
  {
    BodyIsPayload([r]);
    DeployedVerdict(rows, user, [r]);
    var d := Delivery(user, r);
    assert UpsertAll(rows, user, [r]) == rows[KeyOf(d) := RowOf(d)] by { assert [r][1..] == []; }
  }

  /** The records this server takes. */
  predicate Acceptable(r: SyncRecord) {
    && 0 < |r.deviceId| <= 128 && 0 < |r.process| <= 512 && |r.title| <= 4000
    && 0 <= r.duration && r.start <= r.end
  }

  /** A batch is taken exactly when it is one acceptable record, and then it is stored as the agent means it. */
  lemma DeployedVerdict(rows: Cloud, user: string, batch: seq<SyncRecord>)
    requires batch != []
    ensures var p := PayloadOf(batch);
            && (Status(true, Of(user), p, true) == 200 <==> |batch| == 1 && Acceptable(batch[0]))
            && (Status(true, Of(user), p, true) != 200 ==> Status(true, Of(user), p, true) == 400)
            && (Status(true, Of(user), p, true) == 200 ==>
                  TableAfter(rows, true, Of(user), p, true) == UpsertAll(rows, user, batch))
            && (Status(true, Of(user), p, true) != 200 ==> TableAfter(rows, true, Of(user), p, true) == rows)
  {
    if |batch| == 1 {
      var r := batch[0];
      assert (r.duration as real).Floor == r.duration;
      assert (r.start as real).Floor == r.start && (r.end as real).Floor == r.end;
      assert batch[1..] == [];
      var d := Delivery(user, r);
      assert UpsertAll(rows, user, batch) == rows[KeyOf(d) := RowOf(d)];
    }
  }

  /** Every answer is this function's to the token the agent holds at that time, with a working database. */
  ghost predicate Checks(env: Env, token: nat -> Token, batch: seq<SyncRecord>) {
    forall k, user {:trigger env.wire(k, user, batch)} ::
      env.wire(k, user, batch).Answer?
      && env.wire(k, user, batch).status == Status(true, token(k), PayloadOf(batch), true)
  }

  /**
   A token that is missing or invalid costs a 401 and a renewal; with a valid one after that the record meets
   its verdict, with a second bad one it is refused whatever it is, and without a renewal nothing is booked.
   */
  lemma BadTokenIsRenewed(env: Env, w: World, batch: seq<SyncRecord>, token: nat -> Token)
    requires w.session.Some? && batch != [] && Checks(env, token, batch) && !token(w.time).Of?
    ensures var (v, outcome) := Send(env, w, batch);
            match env.renewal(w.time + 1)
            case Renewed =>
              outcome == if token(w.time + 2).Of? && |batch| == 1 && Acceptable(batch[0]) then Accepted else Rejected
            case NotNow => outcome == TransportError && v.session == w.session
            case SignedOut => outcome == TransportError && v.session == None
  {
    var user := w.session.value;
    SendByStatus(env, w, batch);
    assert env.wire(w.time, user, batch).status == 401;
    DeployedVerdict(map[], user, batch);
    assert env.wire(w.time + 2, user, batch).status == Status(true, token(w.time + 2), PayloadOf(batch), true);
  }

  /** An environment in which every final answer is this function's, with a working database. */
  ghost predicate DeployedServer(env: Env) {
    forall k, user, batch {:trigger env.wire(k, user, batch)} :: batch != [] && env.wire(k, user, batch).Answer? ==>
      var status := env.wire(k, user, batch).status;
      IsTransient(status) || status == 401 || status == Status(true, Of(user), PayloadOf(batch), true)
  }

  /** So the deployed function gives sound verdicts: it never refuses a single acceptable record. */
  lemma DeployedIsSound(env: Env)
    requires DeployedServer(env)
    ensures SoundEnv(env, Acceptable)
  {
    forall k, user, batch | batch != [] && env.wire(k, user, batch).Answer?
      ensures var status := env.wire(k, user, batch).status;
              && (IsSuccess(status) ==> forall i :: 0 <= i < |batch| ==> Acceptable(batch[i]))
              && (|batch| == 1 && !IsSuccess(status) && !IsTransient(status) && status != 401 ==> !Acceptable(batch[0]))
    {
      DeployedVerdict(map[], user, batch);
    }
  }

  /**
   What an agent books: nothing but a single acceptable record is ever accepted, and an acceptable record
   sent alone is refused only by a second 401.
   */
  lemma DeployedBooks(env: Env, w: World, batch: seq<SyncRecord>)
    requires DeployedServer(env) && batch != []
    ensures Send(env, w, batch).1 == Accepted ==> |batch| == 1 && Acceptable(batch[0])
    ensures |batch| == 1 && Acceptable(batch[0]) ==>
              (Send(env, w, batch).1 == Rejected <==> SecondUnauthorized(env, w, batch))
  {
    DeployedIsSound(env);
    if |batch| == 1 && Acceptable(batch[0]) {
      assert batch == [batch[0]];
      GoodIsRefusedIff(env, w, batch[0], Acceptable);
    }
    if w.session.Some? {
      var (w1, first) := Https(env, w, batch);
      var w2 := w1.(time := w1.time + 1);
      forall k, user | env.wire(k, user, batch).Answer? && IsSuccess(env.wire(k, user, batch).status)
        ensures |batch| == 1 && Acceptable(batch[0])
      {
        DeployedVerdict(map[], user, batch);
      }
    }
  }
}
