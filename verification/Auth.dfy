/**
 The session and its renewal (src/agent/shared/auth.cpp, src/agent/shared/restclient.cpp), one thread at a time.
 `Refresh` interleaves these sections over any number of threads.
 */
module Auth {
  import opened JsonText
  import opened JsonScan

  /** `AuthSession`; signed out, every field is zeroed. */
  datatype Session = Session(loggedIn: bool, access: string, refresh: string, userId: string, email: string)

  const SIGNED_OUT := Session(false, "", "", "", "")

  const TOKEN_SIZE: nat := 4096
  const REFRESH_SIZE: nat := 512
  const USER_SIZE: nat := 64
  const EMAIL_SIZE: nat := 256

  /** What came back from the token endpoint. */
  datatype Reply = NoReply | Reply(status: nat, body: string)

  predicate Is2xx(status: nat) { 200 <= status < 300 }

  /** A field the answer leaves out, or leaves empty, keeps its old value. */
  function Field(body: string, key: string, size: nat, before: string): string
    requires 0 < size
  {
    var found := ExtractString(body, key, size);
    if found.Some? && found.value != "" then found.value else before
  }

  /** The session an answer grants; without an access token it grants none. */
  function Granted(body: string, before: Session): Option<Session> {
    match ExtractString(body, "access_token", TOKEN_SIZE)
    case None => None
    case Some(access) =>
      Some(Session(true, access, Field(body, "refresh_token", REFRESH_SIZE, before.refresh),
                   Field(body, "id", USER_SIZE, before.userId), Field(body, "email", EMAIL_SIZE, before.email)))
  }

  /** What an exchange with the endpoint comes to: nothing, a refusal, or a new session. */
  datatype Outcome = Silence | Refusal | Gives(next: Session)

  function OutcomeOf(session: Session, reply: Reply): Outcome {
    if reply.NoReply? then Silence
    else if !Is2xx(reply.status) then Refusal
    else
      match Granted(reply.body, session)
      case None => Silence
      case Some(next) => Gives(next)
  }

  /** `auth_refresh_session`: the session afterwards, and whether it was renewed. */
  function Renewed(session: Session, outcome: Outcome): (Session, bool) {
    if session.refresh == "" || outcome.Silence? then (session, false)
    else if outcome.Refusal? then (SIGNED_OUT, false)
    else (outcome.next, true)
  }

  /** Someone else has renewed the token that failed. */
  predicate Stale(session: Session, used: string) { used != "" && session.access != used }

  /** `restclient_refresh_if_stale`. */
  function RenewedIfStale(session: Session, used: string, outcome: Outcome): (Session, bool) {
    if !session.loggedIn then (session, false)
    else if Stale(session, used) then (session, true)
    else Renewed(session, outcome)
  }

  method ReadField(body: string, key: string, size: nat, before: string) returns (value: string)
    requires 0 < size
    ensures value == Field(body, key, size, before)
  {
    var found;
    found, value := JsonExtractString(body, key, size);
    if !found || value == "" { value := before; }
  }

  class AuthStore {
    var session: Session
    /** The saved copy; `None` when the file does not exist. */
    var disk: Option<Session>

    constructor ()
      ensures session == SIGNED_OUT && disk == None
    {
      session, disk := SIGNED_OUT, None;
    }

    method Logout()
      modifies this
      ensures session == SIGNED_OUT && disk == None
    {
      session := SIGNED_OUT;
      disk := None;
    }

    method RefreshSession(reply: Reply) returns (ok: bool)
      modifies this
      ensures (session, ok) == Renewed(old(session), OutcomeOf(old(session), reply))
      ensures disk == if ok then Some(session)
                      else if old(session).refresh != "" && reply.Reply? && !Is2xx(reply.status) then None
                      else old(disk)
      ensures ok ==> reply.Reply? && Filled(old(session), reply.body, session)
    {
      var refreshToken := session.refresh;
      if refreshToken == "" { return false; }
      match reply
      case NoReply => return false;
      case Reply(status, body) =>
        if !Is2xx(status) {
          Logout();
          return false;
        }
        var found, access := JsonExtractString(body, "access_token", TOKEN_SIZE);
        if !found { return false; }
        var refresh := ReadField(body, "refresh_token", REFRESH_SIZE, session.refresh);
        var userId := ReadField(body, "id", USER_SIZE, session.userId);
        var email := ReadField(body, "email", EMAIL_SIZE, session.email);
        session := Session(true, access, refresh, userId, email);
        disk := Some(session);
        return true;
    }

    method RefreshIfStale(used: string, reply: Reply) returns (ok: bool)
      modifies this
      ensures (session, ok) == RenewedIfStale(old(session), used, OutcomeOf(old(session), reply))
    {
      var current := session;
      if !current.loggedIn { return false; }
      if used != "" && current.access != used { return true; }
      ok := RefreshSession(reply);
    }

    /**
     `restclient_call` while no other thread touches the session: `wire` answers each attempt with a status, or
     with nothing when the request fails.  `sent` lists the tokens the attempts carried.
     */
    method Call(wire: (nat, string) -> Option<nat>, reply: Reply) returns (status: Option<nat>, sent: seq<string>)
      modifies this
      ensures var before := old(session);
              var (after, renewed) := RenewedIfStale(before, before.access, OutcomeOf(before, reply));
              var first := wire(0, before.access);
              if first == Some(401) && before.loggedIn
              then session == after
                   && (if renewed then sent == [before.access, after.access] && status == wire(1, after.access)
                       else sent == [before.access] && status == first)
              else session == before && sent == [before.access] && status == first
    {
      sent := [];
      status := None;
      var attempt := 0;
      while attempt < 2
        invariant 0 <= attempt <= 1
        invariant attempt == 0 ==> sent == [] && session == old(session)
        invariant attempt == 1 ==> sent == [old(session).access] && old(session).loggedIn
        invariant attempt == 1 ==> wire(0, old(session).access) == Some(401)
        invariant attempt == 1 ==>
          (session, true) == RenewedIfStale(old(session), old(session).access, OutcomeOf(old(session), reply))
        decreases 2 - attempt
      {
        var current := session;
        sent := sent + [current.access];
        status := wire(attempt, current.access);
        if status.None? { return; }
        if status.value == 401 && attempt == 0 && current.loggedIn {
          var renewed := RefreshIfStale(current.access, reply);
          if renewed {
            attempt := attempt + 1;
            continue;
          }
        }
        return;
      }
    }
  }

  /** Only a refusal signs the user out; silence, and an answer without a token, change nothing. */
  lemma OnlyRefusalSignsOut(session: Session, used: string, outcome: Outcome)
    requires session.loggedIn && (outcome.Gives? ==> outcome.next.loggedIn)
    ensures var (after, ok) := RenewedIfStale(session, used, outcome);
            && (!after.loggedIn <==> !Stale(session, used) && session.refresh != "" && outcome.Refusal?)
            && (!ok ==> after == session || after == SIGNED_OUT)
  {
  }

  /** No answer takes a field away: whatever it lacks or leaves empty stays. */
  lemma FieldStays(body: string, key: string, size: nat, before: string)
    requires 0 < size
    ensures before != "" ==> Field(body, key, size, before) != ""
    ensures Field(body, key, size, before) != before ==>
              ExtractString(body, key, size) == Some(Field(body, key, size, before))
  {
  }

  /** What is given to a session with a refresh token has one, new or old. */
  predicate GivesToken(session: Session, outcome: Outcome) {
    outcome.Gives? && session.refresh != "" ==> outcome.next.refresh != ""
  }

  lemma GivenKeepsRefresh(session: Session, reply: Reply)
    ensures GivesToken(session, OutcomeOf(session, reply))
  {
    if reply.Reply? { FieldStays(reply.body, "refresh_token", REFRESH_SIZE, session.refresh); }
  }

  /** An answer with an access token and nothing else the code looks for. */
  predicate IsBare(body: string, access: string) {
    && ExtractString(body, "access_token", TOKEN_SIZE) == Some(access)
    && ExtractString(body, "refresh_token", REFRESH_SIZE) == None
    && ExtractString(body, "id", USER_SIZE) == None
    && ExtractString(body, "email", EMAIL_SIZE) == None
  }

  /** The code takes it for a new session with the old refresh token. */
  lemma BareAnswerIsTaken(session: Session, body: string, access: string)
    requires IsBare(body, access)
    ensures OutcomeOf(session, Reply(200, body)) == Gives(session.(loggedIn := true, access := access))
  {
  }

  /** Such an answer. */
  lemma BareAnswerExists(body: string)
    requires body == "{\"access_token\":\"a1\"}"
    ensures IsBare(body, "a1")
  {
    LettersOfBare(body);
    BareGivesAccess(body, "\"a1\"}");
    NoValue(body, "refresh_token", REFRESH_SIZE, 'r');
    NoValue(body, "id", USER_SIZE, 'i');
    NoValue(body, "email", EMAIL_SIZE, 'm');
  }

  lemma LettersOfBare(body: string)
    requires body == "{\"access_token\":\"a1\"}"
    ensures 'r' !in body && 'i' !in body && 'm' !in body
    ensures body == ['{'] + (("\"" + "access_token" + "\"") + (":" + "\"a1\"}"))
  {
  }

  lemma BareGivesAccess(body: string, v: string)
    requires v == "\"a1\"}" && body == ['{'] + (("\"" + "access_token" + "\"") + (":" + v))
    ensures ExtractString(body, "access_token", TOKEN_SIZE) == Some("a1")
  {
    FirstValue("access_token", v);
    ReadsBare(v[1..], TOKEN_SIZE - 1);
  }

  lemma ReadsBare(t: string, room: nat)
    requires t == "a1\"}" && room >= 2
    ensures ReadValue(t, room) == "a1"
  {
    var one := t[1..];
    assert one == "1\"}" && one[1..] == "\"}";
    assert ReadValue(one[1..], room - 2) == "";
    assert ReadValue(one, room - 1) == "1";
  }

  /** Silence for no answer, a refusal for any status outside 200 to 299, and a session only with an access token. */
  lemma OutcomeByStatus(session: Session, status: nat, body: string)
    ensures OutcomeOf(session, NoReply) == Silence
    ensures OutcomeOf(session, Reply(status, body)) == Refusal <==> status < 200 || 299 < status
    ensures OutcomeOf(session, Reply(status, body)).Gives? <==>
              200 <= status <= 299 && ExtractString(body, "access_token", 4096).Some?
  {
  }

  /** What a renewal makes of the fields: each has its own member, and stays when that is missing or empty. */
  ghost predicate Filled(before: Session, body: string, after: Session) {
    && after.loggedIn && ExtractString(body, "access_token", 4096) == Some(after.access)
    && (match ExtractString(body, "refresh_token", 512)
        case None => after.refresh == before.refresh
        case Some(v) => after.refresh == if v == "" then before.refresh else v)
    && (match ExtractString(body, "id", 64)
        case None => after.userId == before.userId
        case Some(v) => after.userId == if v == "" then before.userId else v)
    && (match ExtractString(body, "email", 256)
        case None => after.email == before.email
        case Some(v) => after.email == if v == "" then before.email else v)
  }

  lemma AnswerFills(session: Session, status: nat, body: string)
    requires Is2xx(status) && session.refresh != ""
    ensures var (after, ok) := Renewed(session, OutcomeOf(session, Reply(status, body)));
            && (ok <==> ExtractString(body, "access_token", 4096).Some?)
            && (ok ==> Filled(session, body, after)) && (!ok ==> after == session)
  {
  }

  /** The names of the members a renewal looks for. */
  const NAMES := ["access_token", "refresh_token", "id", "email"]

  ghost predicate IsToken(s: string, size: nat) { Inner(s) && 0 < |s| < size && s !in NAMES }

  function AnswerOf(access: string, refresh: string, userId: string, email: string): seq<(string, string)> {
    [("access_token", access), ("refresh_token", refresh), ("id", userId), ("email", email)]
  }

  lemma AnswerIsFound(access: string, refresh: string, userId: string, email: string, i: nat)
    requires IsToken(access, TOKEN_SIZE) && IsToken(refresh, REFRESH_SIZE)
    requires IsToken(userId, USER_SIZE) && IsToken(email, EMAIL_SIZE) && i < 4
    ensures Finds(AnswerOf(access, refresh, userId, email), i)
  {
  }

  /** An answer with all four members fills each field with its own. */
  lemma FullAnswerFills(session: Session, access: string, refresh: string, userId: string, email: string)
    requires session.refresh != ""
    requires IsToken(access, TOKEN_SIZE) && IsToken(refresh, REFRESH_SIZE)
    requires IsToken(userId, USER_SIZE) && IsToken(email, EMAIL_SIZE)
    ensures var body := FlatObject(AnswerOf(access, refresh, userId, email));
            Renewed(session, OutcomeOf(session, Reply(200, body)))
            == (Session(true, access, refresh, userId, email), true)
  {
    var ms := AnswerOf(access, refresh, userId, email);
    forall i | 0 <= i < 4 ensures Finds(ms, i) { AnswerIsFound(access, refresh, userId, email, i); }
    ExtractsPair(ms, 0, TOKEN_SIZE);
    ExtractsPair(ms, 1, REFRESH_SIZE);
    ExtractsPair(ms, 2, USER_SIZE);
    ExtractsPair(ms, 3, EMAIL_SIZE);
    AnswerFills(session, 200, FlatObject(ms));
  }

  /** Where a series of answers leads, one `step` after the other. */
  function RenewedBy(step: (Session, Reply) -> Session, session: Session, replies: seq<Reply>): Session {
    if replies == [] then session
    else step(RenewedBy(step, session, replies[..|replies| - 1]), replies[|replies| - 1])
  }

  /** The step of `auth_refresh_session`. */
  function Renewal(): (Session, Reply) -> Session {
    (s: Session, reply: Reply) => Renewed(s, OutcomeOf(s, reply)).0
  }

  predicate IsRefusal(reply: Reply) { reply.Reply? && !Is2xx(reply.status) }

  /** A session that still holds a refresh token and knows at least what `s` knew. */
  predicate StillSignedIn(s: Session, next: Session) {
    && next.loggedIn && next.refresh != ""
    && (s.userId != "" ==> next.userId != "") && (s.email != "" ==> next.email != "")
  }

  lemma OneRenewal(s: Session, reply: Reply)
    requires s.loggedIn && s.refresh != ""
    ensures var next := Renewal()(s, reply);
            if IsRefusal(reply) then next == SIGNED_OUT else StillSignedIn(s, next)
  {
    if reply.Reply? {
      FieldStays(reply.body, "refresh_token", REFRESH_SIZE, s.refresh);
      FieldStays(reply.body, "id", USER_SIZE, s.userId);
      FieldStays(reply.body, "email", EMAIL_SIZE, s.email);
    }
  }

  /** Each step signs out on a refusal, else keeps the session; signed out, it does nothing. */
  ghost predicate KeepsSession(step: (Session, Reply) -> Session) {
    && (forall s: Session, r: Reply :: s.loggedIn && s.refresh != "" ==>
          if IsRefusal(r) then step(s, r) == SIGNED_OUT else StillSignedIn(s, step(s, r)))
    && forall r: Reply :: step(SIGNED_OUT, r) == SIGNED_OUT
  }

  lemma {:induction false} SeriesKeepsSession(step: (Session, Reply) -> Session, session: Session, replies: seq<Reply>)
    requires session.loggedIn && session.refresh != "" && KeepsSession(step)
    ensures var s := RenewedBy(step, session, replies);
            if exists k :: 0 <= k < |replies| && IsRefusal(replies[k]) then s == SIGNED_OUT
            else StillSignedIn(session, s)
  {
    if replies != [] {
      var n := |replies| - 1;
      SeriesKeepsSession(step, session, replies[..n]);
      assert forall k :: 0 <= k < n ==> replies[..n][k] == replies[k];
    }
  }

  /**
   After any series of answers the user is signed out if and only if one of them was a refusal; else the
   session still holds a refresh token, new or old, and has lost neither its user nor its mail address.
   */
  lemma {:induction false} RenewalsKeepTheSession(session: Session, replies: seq<Reply>)
    requires session.loggedIn && session.refresh != ""
    ensures var s := RenewedBy(Renewal(), session, replies);
            if exists k :: 0 <= k < |replies| && IsRefusal(replies[k]) then s == SIGNED_OUT
            else StillSignedIn(session, s)
  {
    var step := Renewal();
    forall s: Session, r | s.loggedIn && s.refresh != ""
      ensures if IsRefusal(r) then step(s, r) == SIGNED_OUT else StillSignedIn(s, step(s, r))
    {
      OneRenewal(s, r);
    }
    forall r ensures step(SIGNED_OUT, r) == SIGNED_OUT {}
    SeriesKeepsSession(step, session, replies);
  }
}
