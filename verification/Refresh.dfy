/**
 Single-flight renewal (src/agent/shared/restclient.cpp 27-45, src/agent/shared/auth.cpp 368-461) over any
 number of threads and every interleaving.
 */
module Refresh {
  import opened JsonText
  import opened Auth

  /**
   Where a thread stands.  `used` is the access token its request carried.
   `Leaving` holds the mutex for one more step, `Resent` carries the second attempt's token too.
   */
  datatype Pc =
    | Idle
    | Sent(used: string)
    | Waiting(used: string)
    | Holding(used: string)
    | MustRenew(used: string)
    | Presenting(used: string, refresh: string)
    | Storing(used: string, next: Session)
    | Leaving(used: string, renewed: bool)
    | Retrying(used: string)
    | Resent(used: string, second: string)

  /** One exchange at the token endpoint, and the access token whose failure caused it. */
  datatype Exchange = Exchange(used: string, refresh: string)

  /**
   `grants` lists every session the endpoint ever granted, the login first, with the refresh token as its
   answer has it, empty for none; `exchanged` lists the tokens it took; `at` is the grant the current session
   stems from, and `lost` whether an answer has ever been lost.
   */
  datatype State = State(session: Session, holder: Option<nat>, pcs: seq<Pc>,
                         grants: seq<Session>, exchanged: seq<Exchange>, at: nat, lost: bool)

  /**
   A step is one section under a lock, one exchange with the token endpoint, or one request.  The endpoint
   rotates: it issues tokens never seen before, and grants nothing for a refresh token already exchanged.
   An answer may be lost, or arrive without a refresh token.  Nobody logs in or out meanwhile; a refused
   renewal does sign out.
   */
  datatype Step =
    | Begin(t: nat)
    | Answered(t: nat, unauthorized: bool)
    | Acquire(t: nat)
    | Compare(t: nat)
    | ReadToken(t: nat)
    | Unreached(t: nat)
    | Refuse(t: nat)
    | Grant(t: nat, next: Session, received: bool)
    | Store(t: nat)
    | Leave(t: nat)
    | Resend(t: nat)

  function Start(login: Session, threads: nat): State {
    State(login, None, seq(threads, _ => Idle), [login], [], 0, false)
  }

  ghost predicate Spent(s: State, refresh: string) {
    exists i :: 0 <= i < |s.exchanged| && s.exchanged[i].refresh == refresh
  }

  /** Nothing in it has been seen before; it may lack a refresh token. */
  ghost predicate Fresh(s: State, next: Session) {
    && next.loggedIn && next.access != ""
    && forall i :: 0 <= i < |s.grants| ==> s.grants[i].access != next.access && s.grants[i].refresh != next.refresh
  }

  ghost predicate Enabled(s: State, step: Step) {
    && step.t < |s.pcs|
    && var pc := s.pcs[step.t];
       match step
       case Begin(_) => pc.Idle?
       case Answered(_, _) => pc.Sent? || pc.Resent?
       case Acquire(_) => pc.Waiting? && s.holder == None
       case Compare(_) => pc.Holding?
       case ReadToken(_) => pc.MustRenew?
       case Unreached(_) => pc.Presenting?
       case Refuse(_) => pc.Presenting?
       case Grant(_, next, _) => pc.Presenting? && !Spent(s, pc.refresh) && Fresh(s, next)
       case Store(_) => pc.Storing?
       case Leave(_) => pc.Leaving?
       case Resend(_) => pc.Retrying?
  }

  function To(s: State, t: nat, pc: Pc): State
    requires t < |s.pcs|
  {
    s.(pcs := s.pcs[t := pc])
  }

  ghost function Next(s: State, step: Step): State
    requires Enabled(s, step)
  {
    var t := step.t;
    var pc := s.pcs[t];
    match step
    case Begin(_) => To(s, t, Sent(s.session.access))
    case Answered(_, unauthorized) => To(s, t, if pc.Sent? && unauthorized then Waiting(pc.used) else Idle)
    case Acquire(_) => To(s, t, Holding(pc.used)).(holder := Some(t))
    case Compare(_) =>
      To(s, t, if !s.session.loggedIn then Leaving(pc.used, false)
               else if Stale(s.session, pc.used) then Leaving(pc.used, true) else MustRenew(pc.used))
    case ReadToken(_) =>
      To(s, t, if s.session.refresh == "" then Leaving(pc.used, false) else Presenting(pc.used, s.session.refresh))
    case Unreached(_) => To(s, t, Leaving(pc.used, false))
    case Refuse(_) => To(s, t, Leaving(pc.used, false)).(session := SIGNED_OUT)
    case Grant(_, next, received) =>
      To(s, t, if received then Storing(pc.used, next) else Leaving(pc.used, false)).(
        grants := s.grants + [next], exchanged := s.exchanged + [Exchange(pc.used, pc.refresh)],
        lost := s.lost || !received)
    case Store(_) => To(s, t, Leaving(pc.used, true)).(session := Completed(pc.next, s.session), at := s.at + 1)
    case Leave(_) => To(s, t, if pc.renewed then Retrying(pc.used) else Idle).(holder := None)
    case Resend(_) => To(s, t, Resent(pc.used, s.session.access))
  }

  /** An answer without a refresh token leaves the old one in place. */
  function Completed(next: Session, before: Session): Session {
    if next.refresh == "" then next.(refresh := before.refresh) else next
  }

  predicate IsLogin(session: Session) { session.loggedIn && session.access != "" && session.refresh != "" }

  ghost predicate IsRun(states: seq<State>, steps: seq<Step>) {
    && |states| == |steps| + 1 && states[0] == Start(states[0].session, |states[0].pcs|)
    && IsLogin(states[0].session)
    && forall i :: 0 <= i < |steps| ==> Enabled(states[i], steps[i]) && states[i + 1] == Next(states[i], steps[i])
  }

  // ---------------------------------------------------------------------------------------------
  // The invariant
  // ---------------------------------------------------------------------------------------------

  predicate HoldsMutex(pc: Pc) {
    pc.Holding? || pc.MustRenew? || pc.Presenting? || pc.Storing? || pc.Leaving?
  }

  /** An access token some grant up to number `n` issued. */
  ghost predicate IssuedBy(s: State, token: string, n: int) {
    exists i :: 0 <= i <= n && i < |s.grants| && s.grants[i].access == token
  }

  /** Only the last grant may lack a refresh token, and not the login. */
  ghost predicate GrantsDiffer(s: State) {
    && (forall i :: 0 <= i < |s.grants| ==> s.grants[i].loggedIn && s.grants[i].access != "")
    && (forall i :: 0 <= i < |s.grants| && (i == 0 || i < |s.grants| - 1) ==> s.grants[i].refresh != "")
    && forall i, j :: 0 <= i < j < |s.grants| ==>
         s.grants[i].access != s.grants[j].access && s.grants[i].refresh != s.grants[j].refresh
  }

  /** The heart of it: grant by grant, the next was obtained with the tokens of the one before. */
  ghost predicate OneByOne(s: State) {
    && |s.grants| == |s.exchanged| + 1
    && forall i :: 0 <= i < |s.exchanged| ==> s.exchanged[i] == Exchange(s.grants[i].access, s.grants[i].refresh)
  }

  predicate IsStoring(s: State) {
    s.holder.Some? && s.holder.value < |s.pcs| && s.pcs[s.holder.value].Storing?
  }

  /** Grant number `n` as it was stored. */
  ghost function Stored(s: State, n: nat): Session
    requires n < |s.grants|
  {
    if n == 0 then s.grants[0] else Completed(s.grants[n], s.grants[n - 1])
  }

  /** The session is the newest grant, but for one being stored or lost on its way. */
  ghost predicate SessionIsNewest(s: State) {
    && s.at < |s.grants| && s.at == |s.grants| - 1 - (if s.lost || IsStoring(s) then 1 else 0)
    && !(s.lost && IsStoring(s))
    && (s.session == Stored(s, s.at) || s.session == SIGNED_OUT)
  }

  ghost predicate MutexIsHeld(s: State) {
    && (s.holder.Some? ==> s.holder.value < |s.pcs|)
    && forall t :: 0 <= t < |s.pcs| ==> (HoldsMutex(s.pcs[t]) <==> s.holder == Some(t))
  }

  ghost predicate ThreadAgrees(s: State, pc: Pc) {
    match pc
    case Idle => true
    case Sent(used) => Known(s, used)
    case Waiting(used) => Known(s, used)
    case Holding(used) => Known(s, used)
    case MustRenew(used) => s.session.loggedIn && used == s.session.access
    case Presenting(used, refresh) => s.session.loggedIn && used == s.session.access && refresh == s.session.refresh
    case Storing(used, next) =>
      0 < |s.grants| && s.session.loggedIn && used == s.session.access && next == s.grants[|s.grants| - 1]
    case Leaving(used, renewed) => renewed ==> IssuedBy(s, used, s.at - 1)
    case Retrying(used) => IssuedBy(s, used, s.at - 1)
    case Resent(used, second) => true
  }

  /** A request carries a token of some grant, or none once signed out. */
  ghost predicate Known(s: State, used: string) {
    if used == "" then !s.session.loggedIn else IssuedBy(s, used, s.at)
  }

  ghost predicate Inv(s: State) {
    && |s.grants| > 0 && GrantsDiffer(s) && OneByOne(s) && SessionIsNewest(s) && MutexIsHeld(s)
    && forall t :: 0 <= t < |s.pcs| ==> ThreadAgrees(s, s.pcs[t])
  }

  lemma IssuedLater(s: State, s': State, token: string, n: int, m: int)
    requires s.grants <= s'.grants && n <= m && IssuedBy(s, token, n)
    ensures IssuedBy(s', token, m)
  {
    var i :| 0 <= i <= n && i < |s.grants| && s.grants[i].access == token;
    assert s'.grants[i].access == token;
  }

  /** The other threads' claims survive a step that only moves on. */
  lemma OthersAgree(s: State, s': State, t: nat)
    requires Inv(s) && t < |s.pcs| && |s'.pcs| == |s.pcs| && s'.pcs == s.pcs[t := s'.pcs[t]]
    requires s.grants <= s'.grants && s.at <= s'.at
    requires s'.session == s.session || s'.session == SIGNED_OUT || (s.session.loggedIn && s'.session.loggedIn)
    requires (s'.session == s.session && s'.grants == s.grants) || s.holder == Some(t)
    ensures forall u :: 0 <= u < |s.pcs| && u != t ==> ThreadAgrees(s', s'.pcs[u])
  {
    forall u | 0 <= u < |s.pcs| && u != t ensures ThreadAgrees(s', s'.pcs[u]) {
      var pc := s.pcs[u];
      assert ThreadAgrees(s, pc) && s'.pcs[u] == pc;
      assert HoldsMutex(pc) <==> s.holder == Some(u);
      if pc.Sent? || pc.Waiting? || pc.Holding? {
        if pc.used != "" { IssuedLater(s, s', pc.used, s.at, s'.at); }
      } else if pc.Retrying? || (pc.Leaving? && pc.renewed) {
        IssuedLater(s, s', pc.used, s.at - 1, s'.at - 1);
      }
    }
  }

  /** Who presents an unspent token presents that of the newest grant. */
  lemma UnspentIsNewest(s: State, t: nat)
    requires Inv(s) && t < |s.pcs| && s.pcs[t].Presenting? && !Spent(s, s.pcs[t].refresh)
    ensures s.holder == Some(t) && !s.lost && s.at == |s.grants| - 1 && s.session == s.grants[s.at]
    ensures s.session.refresh != "" && s.pcs[t] == Presenting(s.session.access, s.session.refresh)
  {
    assert ThreadAgrees(s, s.pcs[t]) && (HoldsMutex(s.pcs[t]) <==> s.holder == Some(t));
    var n := |s.exchanged| - 1;
    assert n >= 0 ==> s.exchanged[n].refresh != s.pcs[t].refresh;
  }

  lemma GrantsGrow(s: State, s': State, next: Session)
    requires GrantsDiffer(s) && OneByOne(s) && Fresh(s, next) && |s.grants| > 0
    requires var last := s.grants[|s.grants| - 1];
             && last.refresh != "" && s'.grants == s.grants + [next]
             && s'.exchanged == s.exchanged + [Exchange(last.access, last.refresh)]
    ensures GrantsDiffer(s') && OneByOne(s')
  {
  }

  lemma GrantKeepsInv(s: State, step: Step)
    requires Inv(s) && Enabled(s, step) && step.Grant?
    ensures Inv(Next(s, step))
  {
    var t, s' := step.t, Next(s, step);
    UnspentIsNewest(s, t);
    GrantsGrow(s, s', step.next);
    OthersAgree(s, s', t);
  }

  lemma StoreKeepsInv(s: State, step: Step)
    requires Inv(s) && Enabled(s, step) && step.Store?
    ensures Inv(Next(s, step))
  {
    var t, s' := step.t, Next(s, step);
    var pc := s.pcs[t];
    assert ThreadAgrees(s, pc) && (HoldsMutex(pc) <==> s.holder == Some(t));
    OthersAgree(s, s', t);
    assert s'.grants[s.at].access == pc.used;
  }

  lemma CompareKeepsInv(s: State, step: Step)
    requires Inv(s) && Enabled(s, step) && step.Compare?
    ensures Inv(Next(s, step))
  {
    var t, s' := step.t, Next(s, step);
    var pc := s.pcs[t];
    assert ThreadAgrees(s, pc) && (HoldsMutex(pc) <==> s.holder == Some(t));
    OthersAgree(s, s', t);
    if s.session.loggedIn && Stale(s.session, pc.used) {
      var i :| 0 <= i <= s.at && i < |s.grants| && s.grants[i].access == pc.used;
      assert s'.grants[i].access == pc.used;
    }
  }

  lemma BeginKeepsInv(s: State, step: Step)
    requires Inv(s) && Enabled(s, step) && step.Begin?
    ensures Inv(Next(s, step))
  {
    var s' := Next(s, step);
    assert HoldsMutex(s.pcs[step.t]) <==> s.holder == Some(step.t);
    OthersAgree(s, s', step.t);
    assert s'.grants[s.at] == s.grants[s.at];
  }

  lemma AcquireKeepsInv(s: State, step: Step)
    requires Inv(s) && Enabled(s, step) && step.Acquire?
    ensures Inv(Next(s, step))
  {
    var s' := Next(s, step);
    var pc := s.pcs[step.t];
    assert ThreadAgrees(s, pc);
    forall t | 0 <= t < |s.pcs| ensures !HoldsMutex(s.pcs[t]) {
      assert HoldsMutex(s.pcs[t]) <==> s.holder == Some(t);
    }
    forall u | 0 <= u < |s.pcs| ensures ThreadAgrees(s', s'.pcs[u]) {
      SameClaims(s, s', s'.pcs[u]);
    }
  }

  lemma LeaveKeepsInv(s: State, step: Step)
    requires Inv(s) && Enabled(s, step) && step.Leave?
    ensures Inv(Next(s, step))
  {
    var s' := Next(s, step);
    assert ThreadAgrees(s, s.pcs[step.t]);
    forall u | 0 <= u < |s.pcs| ensures ThreadAgrees(s', s'.pcs[u]) {
      assert ThreadAgrees(s, s'.pcs[u]) by {
        assert u != step.t ==> ThreadAgrees(s, s.pcs[u]);
      }
      SameClaims(s, s', s'.pcs[u]);
    }
    forall u | 0 <= u < |s.pcs| ensures !HoldsMutex(s'.pcs[u]) {
      assert HoldsMutex(s.pcs[u]) <==> s.holder == Some(u);
    }
  }

  /** A claim speaks of nothing but the session, the grants and `at`. */
  lemma SameClaims(s: State, s': State, pc: Pc)
    requires s'.session == s.session && s'.grants == s.grants && s'.at == s.at
    ensures ThreadAgrees(s', pc) <==> ThreadAgrees(s, pc)
  {
    forall token: string, n: int ensures IssuedBy(s, token, n) <==> IssuedBy(s', token, n) {}
  }

  /** The steps that change nothing but the thread's own place. */
  lemma MoveKeepsInv(s: State, step: Step)
    requires Inv(s) && Enabled(s, step) && (step.Answered? || step.ReadToken? || step.Unreached? || step.Resend?)
    ensures Inv(Next(s, step))
  {
    var t, s' := step.t, Next(s, step);
    assert HoldsMutex(s.pcs[t]) <==> s.holder == Some(t);
    assert ThreadAgrees(s, s.pcs[t]);
    assert s' == To(s, t, s'.pcs[t]);
    PlaceKeepsInv(s, t, s'.pcs[t]);
  }

  /** A thread moves on with a claim that holds, neither taking nor leaving the mutex, nor with a session to store. */
  lemma PlaceKeepsInv(s: State, t: nat, pc: Pc)
    requires Inv(s) && t < |s.pcs| && ThreadAgrees(s, pc) && (HoldsMutex(pc) <==> HoldsMutex(s.pcs[t]))
    requires !s.pcs[t].Storing? && !pc.Storing?
    ensures Inv(To(s, t, pc))
  {
    var s' := To(s, t, pc);
    forall u | 0 <= u < |s.pcs| ensures ThreadAgrees(s', s'.pcs[u]) {
      assert u != t ==> ThreadAgrees(s, s.pcs[u]);
      SameClaims(s, s', s'.pcs[u]);
    }
    forall u | 0 <= u < |s.pcs| ensures HoldsMutex(s'.pcs[u]) <==> s'.holder == Some(u) {
      assert HoldsMutex(s.pcs[u]) <==> s.holder == Some(u);
    }
  }

  lemma RefuseKeepsInv(s: State, step: Step)
    requires Inv(s) && Enabled(s, step) && step.Refuse?
    ensures Inv(Next(s, step))
  {
    var t, s' := step.t, Next(s, step);
    assert ThreadAgrees(s, s.pcs[t]) && (HoldsMutex(s.pcs[t]) <==> s.holder == Some(t));
    OthersAgree(s, s', t);
    forall u | 0 <= u < |s.pcs| ensures HoldsMutex(s'.pcs[u]) <==> s'.holder == Some(u) {
      assert HoldsMutex(s.pcs[u]) <==> s.holder == Some(u);
    }
  }

  lemma StepKeepsInv(s: State, step: Step)
    requires Inv(s) && Enabled(s, step)
    ensures Inv(Next(s, step))
  {
    match step
    case Begin(_) => BeginKeepsInv(s, step);
    case Acquire(_) => AcquireKeepsInv(s, step);
    case Compare(_) => CompareKeepsInv(s, step);
    case Refuse(_) => RefuseKeepsInv(s, step);
    case Grant(_, _, _) => GrantKeepsInv(s, step);
    case Store(_) => StoreKeepsInv(s, step);
    case Leave(_) => LeaveKeepsInv(s, step);
    case _ => MoveKeepsInv(s, step);
  }

  lemma {:induction false} RunKeepsInv(states: seq<State>, steps: seq<Step>, i: nat)
    requires IsRun(states, steps) && i < |states|
    ensures Inv(states[i])
  {
    if i > 0 {
      RunKeepsInv(states, steps, i - 1);
      StepKeepsInv(states[i - 1], steps[i - 1]);
    }
  }

  // ---------------------------------------------------------------------------------------------
  // The promises
  // ---------------------------------------------------------------------------------------------

  /** Every access token causes at most one exchange, and every refresh token is exchanged at most once. */
  lemma OneExchangePerToken(states: seq<State>, steps: seq<Step>, i: nat, a: nat, b: nat)
    requires IsRun(states, steps) && i < |states| && a < b < |states[i].exchanged|
    ensures states[i].exchanged[a].used != states[i].exchanged[b].used
    ensures states[i].exchanged[a].refresh != states[i].exchanged[b].refresh
  {
    RunKeepsInv(states, steps, i);
  }

  /** A thread renews, waits for it or tries again only after a 401 to its request. */
  lemma {:induction false} RenewsAfter401(states: seq<State>, steps: seq<Step>, i: nat, t: nat)
    requires IsRun(states, steps) && i < |states| && t < |states[i].pcs|
    requires !states[i].pcs[t].Idle? && !states[i].pcs[t].Sent?
    ensures exists k :: 0 <= k < i && steps[k] == Answered(t, true)
  {
    var s, step := states[i - 1], steps[i - 1];
    if s.pcs[t].Idle? || s.pcs[t].Sent? {
      assert step == Answered(t, true);
    } else {
      RenewsAfter401(states, steps, i - 1, t);
    }
  }

  /** At most one thread is between taking the mutex and releasing it. */
  lemma OneAtATime(states: seq<State>, steps: seq<Step>, i: nat, t: nat, u: nat)
    requires IsRun(states, steps) && i < |states| && t < |states[i].pcs| && u < |states[i].pcs|
    requires HoldsMutex(states[i].pcs[t]) && HoldsMutex(states[i].pcs[u])
    ensures t == u
  {
    RunKeepsInv(states, steps, i);
  }

  /** The endpoint takes a refresh token, and no other one gets back. */
  predicate Strands(step: Step) { step.Grant? && (!step.received || step.next.refresh == "") }

  /** The newest grant brought no refresh token. */
  predicate Stranded(s: State)
    requires |s.grants| > 0
  {
    s.lost || s.grants[|s.grants| - 1].refresh == ""
  }

  /** A thread presents an already exchanged token just when the newest grant brought none. */
  lemma SpentIffStranded(s: State, t: nat)
    requires Inv(s) && t < |s.pcs| && s.pcs[t].Presenting?
    ensures Spent(s, s.pcs[t].refresh) <==> Stranded(s)
  {
    assert ThreadAgrees(s, s.pcs[t]) && (HoldsMutex(s.pcs[t]) <==> s.holder == Some(t));
    var n := |s.exchanged| - 1;
    if Stranded(s) { assert s.exchanged[n].refresh == s.pcs[t].refresh; }
  }

  lemma {:induction false} StrandedByAStep(states: seq<State>, steps: seq<Step>, i: nat)
    requires IsRun(states, steps) && i < |states|
    ensures |states[i].grants| > 0
    ensures Stranded(states[i]) <==> exists k :: 0 <= k < i && Strands(steps[k])
  {
    if i > 0 {
      StrandedByAStep(states, steps, i - 1);
      RunKeepsInv(states, steps, i - 1);
      StrandedStep(states[i - 1], steps[i - 1]);
      if Stranded(states[i - 1]) {
        var k :| 0 <= k < i - 1 && Strands(steps[k]);
        assert Strands(steps[k]) && 0 <= k < i;
      }
    }
  }

  lemma StrandedStep(s: State, step: Step)
    requires Inv(s) && Enabled(s, step)
    ensures |Next(s, step).grants| > 0
    ensures Stranded(Next(s, step)) <==> Stranded(s) || Strands(step)
  {
    if step.Grant? { SpentIffStranded(s, step.t); }
  }

  /**
   A thread presents an already exchanged refresh token if and only if an earlier answer was lost or came
   without a refresh token.  So when every answer arrives whole, that never happens, whatever the interleaving.
   */
  lemma SpentIsPresentedIff(states: seq<State>, steps: seq<Step>, i: nat, t: nat)
    requires IsRun(states, steps) && i < |states| && t < |states[i].pcs| && states[i].pcs[t].Presenting?
    ensures Spent(states[i], states[i].pcs[t].refresh) <==> exists k :: 0 <= k < i && Strands(steps[k])
  {
    RunKeepsInv(states, steps, i);
    SpentIffStranded(states[i], t);
    StrandedByAStep(states, steps, i);
  }

  /** A thread that saw a 401 and goes on sends a newer token than the one that failed, unless signed out. */
  lemma ProceedsWithNewer(states: seq<State>, steps: seq<Step>, i: nat)
    requires IsRun(states, steps) && i < |steps| && steps[i].Resend?
    ensures var s := states[i];
            var pc := states[i + 1].pcs[steps[i].t];
            && pc == Resent(s.pcs[steps[i].t].used, s.session.access)
            && (pc.second == "" <==> !s.session.loggedIn)
            && (s.session.loggedIn ==>
                  exists a, b :: 0 <= a < b < |s.grants|
                    && s.grants[a].access == pc.used && s.grants[b].access == pc.second)
  {
    RunKeepsInv(states, steps, i);
    var s := states[i];
    var used := s.pcs[steps[i].t].used;
    assert ThreadAgrees(s, s.pcs[steps[i].t]);
    var a :| 0 <= a <= s.at - 1 && a < |s.grants| && s.grants[a].access == used;
    assert s.session.loggedIn ==> s.grants[s.at].access == s.session.access;
  }

  /** A token that has been renewed is never the cause of another exchange: its thread turns back at `Compare`. */
  lemma RenewedTokensTurnBack(states: seq<State>, steps: seq<Step>, i: nat, a: nat)
    requires IsRun(states, steps) && i < |steps| && steps[i].Compare? && states[i].session.loggedIn
    requires a < states[i].at < |states[i].grants| && states[i].pcs[steps[i].t].used == states[i].grants[a].access
    ensures states[i + 1].pcs[steps[i].t] == Leaving(states[i].grants[a].access, true)
    ensures states[i + 1].exchanged == states[i].exchanged
  {
    RunKeepsInv(states, steps, i);
  }

  // ---------------------------------------------------------------------------------------------
  // The machine and the code
  // ---------------------------------------------------------------------------------------------

  /** What the answer itself said, when the session it led to has the old refresh token. */
  function Answer(before: Session, next: Session): Session {
    if next.refresh == before.refresh then next.(refresh := "") else next
  }

  /** The endpoint grants nothing for a spent token, and what is new in its answer has not been seen before. */
  ghost predicate Honest(s: State, outcome: Outcome) {
    outcome.Gives? && s.session.refresh != "" ==>
      !Spent(s, s.session.refresh) && Fresh(s, Answer(s.session, outcome.next))
  }

  /** What a thread does once it holds the mutex and has found its token current. */
  ghost function AloneRenews(s: State, t: nat, outcome: Outcome): State
    requires t < |s.pcs| && s.pcs[t].MustRenew? && Honest(s, outcome)
  {
    var s' := Next(s, ReadToken(t));
    if s'.pcs[t].Leaving? then Next(s', Leave(t))
    else
      match outcome
      case Silence => Next(Next(s', Unreached(t)), Leave(t))
      case Refusal => Next(Next(s', Refuse(t)), Leave(t))
      case Gives(next) => Next(Next(Next(s', Grant(t, Answer(s.session, next), true)), Store(t)), Leave(t))
  }

  /** What a lone thread does from the mutex to its release. */
  ghost function Alone(s: State, t: nat, outcome: Outcome): State
    requires t < |s.pcs| && s.pcs[t].Waiting? && s.holder == None && Honest(s, outcome)
  {
    var s' := Next(Next(s, Acquire(t)), Compare(t));
    if s'.pcs[t].Leaving? then Next(s', Leave(t)) else AloneRenews(s', t, outcome)
  }

  lemma AloneRenewing(s: State, t: nat, outcome: Outcome)
    requires t < |s.pcs| && s.pcs[t].MustRenew? && Honest(s, outcome) && GivesToken(s.session, outcome)
    ensures var s' := AloneRenews(s, t, outcome);
            var given := s.session.refresh != "" && outcome.Gives?;
            && s'.holder == None && s'.pcs[t] == (if given then Retrying(s.pcs[t].used) else Idle)
            && s'.session == if s.session.refresh == "" || outcome.Silence? then s.session
                             else if outcome.Refusal? then SIGNED_OUT else outcome.next
  {
  }

  /** Alone, the steps do what `restclient_refresh_if_stale` does, and return what it returns. */
  lemma AloneIsTheCode(s: State, t: nat, outcome: Outcome)
    requires t < |s.pcs| && s.pcs[t].Waiting? && s.holder == None
    requires Honest(s, outcome) && GivesToken(s.session, outcome)
    ensures var (session, ok) := RenewedIfStale(s.session, s.pcs[t].used, outcome);
            var s' := Alone(s, t, outcome);
            s'.session == session && s'.holder == None
            && s'.pcs[t] == if ok then Retrying(s.pcs[t].used) else Idle
  {
    var s' := Next(Next(s, Acquire(t)), Compare(t));
    if s'.pcs[t].MustRenew? { AloneRenewing(s', t, outcome); }
  }

  // ---------------------------------------------------------------------------------------------
  // A lost answer
  // ---------------------------------------------------------------------------------------------

  lemma Extend(states: seq<State>, steps: seq<Step>, step: Step) returns (longer: seq<State>, more: seq<Step>)
    requires IsRun(states, steps) && Enabled(states[|steps|], step)
    ensures IsRun(longer, more) && more == steps + [step] && |longer| == |states| + 1
    ensures longer[|more|] == Next(states[|steps|], step)
  {
    longer, more := states + [Next(states[|steps|], step)], steps + [step];
  }

  const LOGIN := Session(true, "a0", "r0", "u", "e")
  const GRANTED := Session(true, "a1", "r1", "u", "e")

  /** A lone thread meets a 401 and is about to present the session's refresh token. */
  lemma Unauthorized(states: seq<State>, steps: seq<Step>) returns (longer: seq<State>, more: seq<Step>)
    requires IsRun(states, steps)
    requires var s := states[|steps|]; IsLogin(s.session) && s.pcs == [Idle] && s.holder == None
    ensures IsRun(longer, more) && |more| == |steps| + 5 && steps <= more
    ensures forall k :: |steps| <= k < |more| ==> !more[k].Grant?
    ensures var s := states[|steps|];
            longer[|more|] == s.(holder := Some(0), pcs := [Presenting(s.session.access, s.session.refresh)])
  {
    longer, more := Extend(states, steps, Begin(0));
    longer, more := Extend(longer, more, Answered(0, true));
    longer, more := Extend(longer, more, Acquire(0));
    longer, more := Extend(longer, more, Compare(0));
    longer, more := Extend(longer, more, ReadToken(0));
  }

  lemma LonePresents() returns (states: seq<State>, steps: seq<Step>)
    ensures IsRun(states, steps) && forall k :: 0 <= k < |steps| ==> !steps[k].Grant?
    ensures states[|steps|] == Start(LOGIN, 1).(holder := Some(0), pcs := [Presenting(LOGIN.access, LOGIN.refresh)])
  {
    states, steps := Unauthorized([Start(LOGIN, 1)], []);
  }

  /** One thread, one lost answer: the session is left with a token that the endpoint has already taken. */
  lemma LostAnswerStrandsTheSession() returns (states: seq<State>, steps: seq<Step>)
    ensures IsRun(states, steps) && states[|steps|].pcs == [Idle] && states[|steps|].session.loggedIn
    ensures Spent(states[|steps|], states[|steps|].session.refresh)
  {
    states, steps := LonePresents();
    states, steps := Extend(states, steps, Grant(0, GRANTED, false));
    states, steps := Extend(states, steps, Leave(0));
    assert states[|steps|].exchanged[0].refresh == LOGIN.refresh;
  }

  lemma BareIsGranted() returns (states: seq<State>, steps: seq<Step>)
    ensures IsRun(states, steps) && forall k :: 0 <= k < |steps| && steps[k].Grant? ==> steps[k].received
    ensures var next := LOGIN.(access := "a1", refresh := "");
            states[|steps|] == Start(LOGIN, 1).(holder := Some(0), pcs := [Storing(LOGIN.access, next)],
              grants := [LOGIN, next], exchanged := [Exchange(LOGIN.access, LOGIN.refresh)])
  {
    states, steps := LonePresents();
    states, steps := Extend(states, steps, Grant(0, LOGIN.(access := "a1", refresh := ""), true));
  }

  lemma BareIsStored() returns (states: seq<State>, steps: seq<Step>)
    ensures IsRun(states, steps) && forall k :: 0 <= k < |steps| && steps[k].Grant? ==> steps[k].received
    ensures var s := states[|steps|];
            && s.session == LOGIN.(access := "a1") && s.pcs == [Idle] && s.holder == None
            && s.exchanged == [Exchange(LOGIN.access, LOGIN.refresh)]
  {
    states, steps := BareIsGranted();
    states, steps := Extend(states, steps, Store(0));
    states, steps := Extend(states, steps, Leave(0));
    states, steps := Extend(states, steps, Resend(0));
    states, steps := Extend(states, steps, Answered(0, false));
  }

  /**
   One thread, no answer lost, one answer without a refresh token: the session is left with a token that the
   endpoint has already taken, and the next 401 presents it.
   */
  lemma BareAnswerStrandsTheSession() returns (states: seq<State>, steps: seq<Step>)
    ensures IsRun(states, steps) && forall k :: 0 <= k < |steps| && steps[k].Grant? ==> steps[k].received
    ensures states[|steps|].session == LOGIN.(access := "a1")
    ensures states[|steps|].pcs == [Presenting("a1", LOGIN.refresh)] && Spent(states[|steps|], LOGIN.refresh)
  {
    states, steps := BareIsStored();
    states, steps := Unauthorized(states, steps);
    assert states[|steps|].exchanged[0].refresh == LOGIN.refresh;
  }
}
