/**
 Time used today (`db_get_today_seconds` in src/agent/shared/database.cpp and the accounting in
 `activity_check_limits` of src/agent/core/activity.cpp): closed rows from the table plus the open session.
 */
module Usage {
  import opened Tracker
  import opened Limits
  import opened Numbers
  import Hours

  /** The query: the durations of the rows of one process that began at or after local midnight. */
  function DbToday(rows: seq<Snap>, process: string, midnight: int): (total: int)
    ensures 0 <= total
  {
    if rows == [] then 0
    else
      var last := rows[|rows| - 1];
      DbToday(rows[..|rows| - 1], process, midnight)
      + if last.window.process == process && midnight <= last.start then Duration(last) else 0
  }

  /** What the open session adds: its seconds since it began or since midnight. */
  function OpenToday(g: Shared, process: string, midnight: int, now: int): (total: int)
    ensures 0 <= total
  {
    if 0 < g.current.start && g.current.window.process == process
    then Max(0, now - Max(g.current.start, midnight))
    else 0
  }

  function Used(s: State, process: string, midnight: int): int {
    DbToday(s.rows, process, midnight) + OpenToday(s.g, process, midnight, s.clock)
  }

  /** The open session counts with the part of it that lies in the day so far. */
  lemma OpenShareIsOverlap(g: Shared, process: string, dayStart: int, now: int)
    requires 0 < g.current.start <= now
    ensures OpenToday(g, process, dayStart, now)
         == if g.current.window.process == process
            then Hours.Within(dayStart, now)(
                   Hours.Activity(g.current.window.title, now - g.current.start, g.current.start))
            else 0
  {
  }

  /** From midnight on it grows by every second that passes, whenever the session began. */
  lemma OpenShareGrows(s: State, n: nat, process: string, dayStart: int)
    requires 0 < s.g.current.start <= s.clock && dayStart <= s.clock
    ensures var t := Tracker.Next(s, Tick(n));
            OpenToday(t.g, process, dayStart, t.clock)
            == OpenToday(s.g, process, dayStart, s.clock) + if s.g.current.window.process == process then n else 0
  {
  }

  /** What the table adds is the durations of the rows of the process that began since midnight, row by row. */
  lemma TableShareGrows(rows: seq<Snap>, row: Snap, process: string, midnight: int)
    ensures DbToday(rows + [row], process, midnight)
         == DbToday(rows, process, midnight)
            + if row.window.process == process && midnight <= row.start then Max(0, row.end - row.start) else 0
  {
    assert (rows + [row])[..|rows|] == rows;
  }

  // ---------------------------------------------------------------------------------------------
  // Handing a session over from the open record to the table
  // ---------------------------------------------------------------------------------------------

  /** What the table gains when a finished session is saved. */
  function Gain(snap: Snap, process: string, midnight: int, kept: bool): int {
    if kept && snap.window.process == process && midnight <= snap.start then Duration(snap) else 0
  }

  function Kept(snap: Snap, keep: bool, minDuration: int): bool { keep && minDuration <= Duration(snap) }

  lemma SaveAdds(s: State, t: Thread, keep: bool, minDuration: int, process: string, midnight: int)
    requires PcOf(s, t).Saving?
    ensures var s' := Advanced(s, t, keep, minDuration);
            var snap := PcOf(s, t).snap;
            Used(s', process, midnight)
            == Used(s, process, midnight) + Gain(snap, process, midnight, Kept(snap, keep, minDuration))
  {
    var snap := PcOf(s, t).snap;
    assert (s.rows + [snap])[..|s.rows|] == s.rows;
  }

  /** Dropping or replacing the open record takes away exactly what it contributed. */
  lemma EndDrops(s: State, t: Thread, process: string, midnight: int)
    requires PcOf(s, t).Done? && (PcOf(s, t).goal.Reset? || !s.g.suspended) && midnight <= s.clock
    ensures var s' := Advanced(s, t, false, 0);
            Used(s', process, midnight) == DbToday(s.rows, process, midnight)
  {
  }

  /** The first two sections: the session is copied and saved, and still open. */
  function Copied(s: State, t: Thread, keep: bool, minDuration: int): State {
    Advanced(Advanced(s, t, keep, minDuration), t, keep, minDuration)
  }

  /** A finisher does its four remaining sections with nothing in between. */
  function HandedOver(s: State, t: Thread, keep: bool, minDuration: int): State {
    Advanced(Advanced(Copied(s, t, keep, minDuration), t, keep, minDuration), t, keep, minDuration)
  }

  lemma CopiedCountsTwice(s: State, t: Thread, keep: bool, minDuration: int, process: string, midnight: int)
    requires PcOf(s, t).Finish? && MayFinish(s.g)
    ensures var snap := SnapOf(s.g, s.clock);
            var s' := Copied(s, t, keep, minDuration);
            && Used(s', process, midnight)
               == Used(s, process, midnight) + Gain(snap, process, midnight, Kept(snap, keep, minDuration))
            && PcOf(s', t) == Releasing(PcOf(s, t).goal, snap) && s'.taken == s.taken + [snap]
            && s'.g == s.g.(finishing := true) && s'.clock == s.clock
  {
    SaveAdds(Advanced(s, t, keep, minDuration), t, keep, minDuration, process, midnight);
  }

  /** What the hand-over does: the open share goes, the gain comes. */
  lemma HandOverBooks(s: State, t: Thread, keep: bool, minDuration: int, process: string, midnight: int)
    requires PcOf(s, t).Finish? && MayFinish(s.g) && midnight <= s.clock
    requires PcOf(s, t).goal.Reset? || !s.g.suspended
    ensures var s' := HandedOver(s, t, keep, minDuration);
            var snap := SnapOf(s.g, s.clock);
            && s'.clock == s.clock && s'.taken == s.taken + [snap] && !s'.g.finishing
            && Used(s', process, midnight) == Used(s, process, midnight) - OpenToday(s.g, process, midnight, s.clock)
                                              + Gain(snap, process, midnight, Kept(snap, keep, minDuration))
  {
    var s2 := Copied(s, t, keep, minDuration);
    CopiedCountsTwice(s, t, keep, minDuration, process, midnight);
    EndDrops(Advanced(s2, t, keep, minDuration), t, process, midnight);
  }

  /**
   The hand-over leaves used-today unchanged if and only if the session had no share in it, or is saved and
   began since midnight.
   */
  lemma HandOver(s: State, t: Thread, keep: bool, minDuration: int, process: string, midnight: int)
    requires Inv(s) && PcOf(s, t).Finish? && MayFinish(s.g) && midnight <= s.clock
    requires PcOf(s, t).goal.Reset? || !s.g.suspended
    ensures var kept := Kept(SnapOf(s.g, s.clock), keep, minDuration);
            Used(HandedOver(s, t, keep, minDuration), process, midnight) == Used(s, process, midnight)
            <==> OpenToday(s.g, process, midnight, s.clock) == 0 || (kept && midnight <= s.g.current.start)
  {
    HandOverBooks(s, t, keep, minDuration, process, midnight);
  }

  // ---------------------------------------------------------------------------------------------
  // Never more than the day has had
  // ---------------------------------------------------------------------------------------------

  /** The rows of one process, newest first, as the dashboard's query returns them. */
  function NewestFirst(rows: seq<Snap>, process: string): seq<Hours.Activity> {
    if rows == [] then []
    else
      var last := rows[|rows| - 1];
      var before := NewestFirst(rows[..|rows| - 1], process);
      if last.window.process == process
      then [Hours.Activity(last.window.title, Duration(last), last.start)] + before
      else before
  }

  lemma {:induction false} NewestFirstIsDisjoint(rows: seq<Snap>, process: string, limit: int)
    requires Successive(rows) && forall k :: 0 <= k < |rows| ==> rows[k].start <= rows[k].end <= limit
    ensures Hours.Disjoint(NewestFirst(rows, process))
    ensures forall k :: 0 <= k < |NewestFirst(rows, process)| ==>
              var a := NewestFirst(rows, process)[k]; a.start + a.duration <= limit
  {
    if rows != [] {
      var n := |rows| - 1;
      NewestFirstIsDisjoint(rows[..n], process, rows[n].start);
    }
  }

  lemma {:induction false} SumFront(a: Hours.Activity, rows: seq<Hours.Activity>, f: Hours.Activity -> int)
    ensures Hours.Sum([a] + rows, f) == f(a) + Hours.Sum(rows, f)
  {
    var all, n := [a] + rows, |rows|;
    if rows == [] {
      assert all[..0] == [];
    } else {
      assert all[..n] == [a] + rows[..n - 1];
      SumFront(a, rows[..n - 1], f);
    }
  }

  /** What began since midnight lies between midnight and the end of the last row. */
  lemma {:induction false} TodayLiesWithin(rows: seq<Snap>, process: string, midnight: int, limit: int)
    requires midnight <= limit && forall k :: 0 <= k < |rows| ==> rows[k].start <= rows[k].end <= limit
    ensures DbToday(rows, process, midnight)
         <= Hours.Sum(NewestFirst(rows, process), Hours.Within(midnight, limit))
  {
    if rows != [] {
      var n := |rows| - 1;
      var last := rows[n];
      TodayLiesWithin(rows[..n], process, midnight, limit);
      if last.window.process == process {
        SumFront(Hours.Activity(last.window.title, Duration(last), last.start), NewestFirst(rows[..n], process),
                 Hours.Within(midnight, limit));
      }
    }
  }

  lemma TodayFits(rows: seq<Snap>, process: string, midnight: int, limit: int)
    requires Successive(rows) && midnight <= limit
    requires forall k :: 0 <= k < |rows| ==> rows[k].start <= rows[k].end <= limit
    ensures DbToday(rows, process, midnight) <= limit - midnight
  {
    TodayLiesWithin(rows, process, midnight, limit);
    NewestFirstIsDisjoint(rows, process, limit);
    Hours.DisjointFits(NewestFirst(rows, process), midnight, limit);
  }

  // ---------------------------------------------------------------------------------------------
  // Three reads at three moments
  // ---------------------------------------------------------------------------------------------

  /** Steps of the thread that checks the limits. */
  predicate OfWatch(step: Step) { step.Look? || step.Enforce? || (step.Advance? && step.thread.Watch?) }

  ghost predicate WatchRests(steps: seq<Step>, i: nat, k: nat) {
    i <= k <= |steps| && forall m :: i <= m < k ==> !OfWatch(steps[m])
  }

  /** A check copies the record in state `i`, queries the table in state `j` and reads the clock in state `k`. */
  ghost predicate Reads(states: seq<State>, steps: seq<Step>, i: nat, j: nat, k: nat) {
    IsRun(states, steps) && i <= j <= k < |states| && WatchRests(steps, i, k)
  }

  /** What the check charges: rows since the midnight before the query, and the copied record up to now. */
  function Charged(g: Shared, rows: seq<Snap>, now: int, process: string, midnight: int, dayStart: int): int {
    DbToday(rows, process, midnight) + OpenToday(g, process, dayStart, now)
  }

  /** The copied record is in the table as well. */
  ghost predicate CountsTwice(g: Shared, s: State) { IsOpen(g) && HasRow(s, g.current.session) }

  /** What the table holds of the copied record, as its last row. */
  function TableShare(g: Shared, rows: seq<Snap>, process: string, midnight: int): int {
    if IsOpen(g) && rows != [] && rows[|rows| - 1].session == g.current.session
    then Gain(rows[|rows| - 1], process, midnight, true)
    else 0
  }

  /** While the watch thread rests, the record stays as it is or is closed, and only its own rows are inserted. */
  ghost predicate Resting(r: Record, s: State) {
    && (if IsOpen(s.g) then s.g.current == r else s.gui.Idle? || s.gui.Check?)
    && forall i :: 0 <= i < |s.rows| ==> RowAgrees(r, s.rows[i])
  }

  predicate RowAgrees(r: Record, row: Snap) {
    || (row.session == r.session && row.start == r.start && row.window == r.window)
    || (row.session < r.session && row.end <= r.start)
  }

  lemma RestingStep(r: Record, s: State, step: Step)
    requires Inv(s) && Enabled(s, step) && !OfWatch(step) && Resting(r, s)
    ensures Resting(r, Tracker.Next(s, step))
  {
    if s.gui.Saving? {
      var n := |s.taken| - 1;
      assert CopyAgrees(s, s.taken[n]);
    }
  }

  lemma {:induction false} WatchRestsSo(states: seq<State>, steps: seq<Step>, i: nat, j: nat)
    requires IsRun(states, steps) && i <= j < |states| && WatchRests(steps, i, j) && IsOpen(states[i].g)
    ensures Resting(states[i].g.current, states[j])
    decreases j - i
  {
    if i == j {
      RunKeepsInv(states, steps, i);
      var s := states[i];
      forall k | 0 <= k < |s.rows| ensures RowAgrees(s.g.current, s.rows[k]) {
        assert s.rows[k] in s.taken;
        var m :| 0 <= m < |s.taken| && s.taken[m] == s.rows[k];
        assert CopyAgrees(s, s.taken[m]);
      }
    } else {
      WatchRestsSo(states, steps, i, j - 1);
      StepOfRun(states, steps, j - 1);
      RestingStep(states[i].g.current, states[j - 1], steps[j - 1]);
    }
  }

  lemma {:induction false} ClockGoesOn(states: seq<State>, steps: seq<Step>, i: nat, j: nat)
    requires IsRun(states, steps) && i <= j < |states|
    ensures states[i].clock <= states[j].clock
    decreases j - i
  {
    if i < j { ClockGoesOn(states, steps, i, j - 1); }
  }

  lemma RowsAreProper(s: State)
    requires Inv(s)
    ensures forall k :: 0 <= k < |s.rows| ==> s.rows[k].start <= s.rows[k].end <= s.clock
  {
    forall k | 0 <= k < |s.rows| ensures s.rows[k].start <= s.rows[k].end <= s.clock {
      assert s.rows[k] in s.taken;
      var m :| 0 <= m < |s.taken| && s.taken[m] == s.rows[k];
      assert CopyAgrees(s, s.taken[m]);
    }
  }

  lemma RowsAreSuccessive(s: State)
    requires Inv(s) && Strict(s.rows)
    ensures Successive(s.rows)
  {
    forall i, j | 0 <= i < j < |s.rows| ensures s.rows[i].end <= s.rows[j].start {
      assert Ordered(s.rows[i], s.rows[j]);
    }
  }

  /** The rows but for those of the copied record: they end before it begins. */
  function Before(g: Shared, rows: seq<Snap>): seq<Snap> {
    if IsOpen(g) && rows != [] && rows[|rows| - 1].session == g.current.session then rows[..|rows| - 1] else rows
  }

  lemma TableSplits(g: Shared, rows: seq<Snap>, process: string, midnight: int)
    ensures DbToday(rows, process, midnight) == DbToday(Before(g, rows), process, midnight)
                                                + TableShare(g, rows, process, midnight)
  {
  }

  /** A row of the copied record is the last one, and there is but one. */
  lemma OwnRowIsLast(r: Record, s: State)
    requires Resting(r, s) && Strict(s.rows)
    ensures HasRow(s, r.session) <==> s.rows != [] && s.rows[|s.rows| - 1].session == r.session
    ensures forall k :: 0 <= k < |s.rows| - 1 ==> s.rows[k].end <= r.start
    ensures s.rows != [] && s.rows[|s.rows| - 1].session != r.session ==> s.rows[|s.rows| - 1].end <= r.start
  {
    var n := |s.rows| - 1;
    if n >= 0 { assert RowAgrees(r, s.rows[n]); }
    forall k | 0 <= k < n ensures s.rows[k].end <= r.start && s.rows[k].session != r.session {
      assert RowAgrees(r, s.rows[k]) && s.rows[k].session < s.rows[n].session;
    }
  }

  lemma RestFits(g: Shared, s: State, process: string, midnight: int)
    requires Inv(s) && Strict(s.rows) && IsOpen(g) && Resting(g.current, s)
    ensures DbToday(Before(g, s.rows), process, midnight) <= Max(g.current.start, midnight) - midnight
  {
    RowsAreProper(s);
    RowsAreSuccessive(s);
    OwnRowIsLast(g.current, s);
    TodayFits(Before(g, s.rows), process, midnight, Max(g.current.start, midnight));
  }

  /**
   What the check charges beyond the time since midnight is exactly what the table holds of the copied
   record: the rest of the figure never exceeds the time from that midnight to the last read.
   */
  lemma ChargesOnceButFor(states: seq<State>, steps: seq<Step>, i: nat, j: nat, k: nat, process: string,
                          midnight: int, dayStart: int)
    requires Reads(states, steps, i, j, k) && midnight <= dayStart && midnight <= states[j].clock
    requires !InsertedTwice(states, steps, j)
    ensures var (g, rows, now) := (states[i].g, states[j].rows, states[k].clock);
            0 <= Charged(g, rows, now, process, midnight, dayStart) - TableShare(g, rows, process, midnight)
              <= now - midnight
  {
    var (g, s) := (states[i].g, states[j]);
    InsertedOnceIff(states, steps, j);
    RunKeepsInv(states, steps, i);
    RunKeepsInv(states, steps, j);
    ClockGoesOn(states, steps, i, j);
    ClockGoesOn(states, steps, j, k);
    TableSplits(g, s.rows, process, midnight);
    if IsOpen(g) {
      WatchRestsSo(states, steps, i, j);
      RestFits(g, s, process, midnight);
    } else {
      RowsAreProper(s);
      RowsAreSuccessive(s);
      TodayFits(s.rows, process, midnight, s.clock);
    }
  }

  ghost predicate InsertsBetween(states: seq<State>, steps: seq<Step>, i: nat, j: nat) {
    exists m: nat :: i <= m < j && Inserts(states, steps, m)
  }

  lemma BetweenStep(states: seq<State>, steps: seq<Step>, i: nat, j: nat)
    requires i < j
    ensures InsertsBetween(states, steps, i, j)
            <==> InsertsBetween(states, steps, i, j - 1) || Inserts(states, steps, j - 1)
  {
  }

  /** The copied record is in the table just when it was inserted before the copy, or between copy and query. */
  lemma CountsTwiceIff(states: seq<State>, steps: seq<Step>, i: nat, j: nat)
    requires IsRun(states, steps) && i <= j < |states| && WatchRests(steps, i, j) && IsOpen(states[i].g)
    ensures CountsTwice(states[i].g, states[j])
            <==> SavedOpen(states, steps, i) || InsertsBetween(states, steps, i, j)
  {
    HasRowIff(states, steps, i);
    RowsSince(states, steps, i, j);
  }

  lemma {:induction false} RowsSince(states: seq<State>, steps: seq<Step>, i: nat, j: nat)
    requires IsRun(states, steps) && i <= j < |states| && WatchRests(steps, i, j) && IsOpen(states[i].g)
    ensures var session := states[i].g.current.session;
            HasRow(states[j], session)
            <==> HasRow(states[i], session) || InsertsBetween(states, steps, i, j)
    decreases j - i
  {
    if i < j {
      RowsSince(states, steps, i, j - 1);
      RowsSinceStep(states, steps, i, j);
      BetweenStep(states, steps, i, j);
    }
  }

  lemma RowsSinceStep(states: seq<State>, steps: seq<Step>, i: nat, j: nat)
    requires IsRun(states, steps) && i < j < |states| && WatchRests(steps, i, j) && IsOpen(states[i].g)
    ensures var session := states[i].g.current.session;
            HasRow(states[j], session) <==> HasRow(states[j - 1], session) || Inserts(states, steps, j - 1)
  {
    StepOfRun(states, steps, j - 1);
    WatchRestsSo(states, steps, i, j - 1);
    RestingInsert(states[i].g.current, states[j - 1], steps[j - 1]);
  }

  /** While the watch thread rests, whatever is inserted is the copied record. */
  lemma RestingInsert(r: Record, s: State, step: Step)
    requires Inv(s) && Enabled(s, step) && !OfWatch(step) && Resting(r, s)
    ensures HasRow(Tracker.Next(s, step), r.session) <==> HasRow(s, r.session) || InsertStep(s, step)
  {
    if InsertStep(s, step) {
      RowsOfOpenChange(s, step);
    } else {
      assert Tracker.Next(s, step).rows == s.rows;
    }
  }

  /** Where the copied record has a row that began since midnight and took time, it is charged twice, else once. */
  lemma TwiceMeansMore(states: seq<State>, steps: seq<Step>, i: nat, j: nat, midnight: int)
    requires IsRun(states, steps) && MinimumIsPositive(steps) && i <= j < |states| && WatchRests(steps, i, j)
    requires IsOpen(states[i].g) && !InsertedTwice(states, steps, j)
    ensures var g := states[i].g;
            TableShare(g, states[j].rows, g.current.window.process, midnight) > 0
            <==> CountsTwice(g, states[j]) && midnight <= g.current.start
  {
    WatchRestsSo(states, steps, i, j);
    InsertedOnceIff(states, steps, j);
    OwnRowIsLast(states[i].g.current, states[j]);
    SavedTakeTime(states, steps, j);
    var n := |states[j].rows| - 1;
    if n >= 0 { assert RowAgrees(states[i].g.current, states[j].rows[n]); }
  }

  /**
   No check charges a process more seconds than have passed since midnight, unless a session was inserted
   twice, or the record it copied has been inserted by the time of the query.
   */
  lemma NeverMoreThanTheDay(states: seq<State>, steps: seq<Step>, i: nat, j: nat, k: nat, process: string,
                            midnight: int, dayStart: int)
    requires Reads(states, steps, i, j, k) && midnight <= dayStart && midnight <= states[j].clock
    requires !InsertedTwice(states, steps, j) && !CountsTwice(states[i].g, states[j])
    ensures 0 <= Charged(states[i].g, states[j].rows, states[k].clock, process, midnight, dayStart)
              <= states[k].clock - midnight
  {
    ChargesOnceButFor(states, steps, i, j, k, process, midnight, dayStart);
    var rows := states[j].rows;
    assert rows != [] ==> (rows[|rows| - 1].session == states[i].g.current.session ==>
                             HasRow(states[j], states[i].g.current.session));
  }

  /** Without that condition the bound fails: a session copied twice is charged twice, 14 seconds of 10. */
  lemma CopiedTwiceIsChargedTwice() returns (states: seq<State>, steps: seq<Step>)
    ensures IsRun(states, steps) && states[|steps|].watch.Idle? && states[|steps|].gui.Idle?
    ensures Used(states[|steps|], "a.exe", 0) > states[|steps|].clock
  {
    states, steps := SuspendCanCopyTwice();
    var s := states[|steps|];
    var c := Snap(Window("a.exe", "A"), 1, 6, 1);
    assert s.rows[..1] == [c] && [c][..0] == [];
    assert DbToday([c], "a.exe", 0) == 5;
    assert DbToday(s.rows, "a.exe", 0) == 14;
  }

  // ---------------------------------------------------------------------------------------------
  // The verdict
  // ---------------------------------------------------------------------------------------------

  datatype Verdict = Free | Blocked | TimeUp

  function Lower(c: char): char { if 'A' <= c <= 'Z' then (c as int + 32) as char else c }

  /** `_stricmp` in the C locale. */
  predicate SameName(a: string, b: string) {
    |a| == |b| && forall i :: 0 <= i < |a| ==> Lower(a[i]) == Lower(b[i])
  }

  /** Capital letters count as small ones, and nothing else is the same as anything else. */
  lemma NamesAreCompared(a: string, b: string)
    ensures SameName(a, a) && (SameName(a, b) <==> SameName(b, a))
    ensures SameName("AZ.EXE", "az.exe") && !SameName("a.exe", "b.exe") && !SameName("[", "{") && !SameName("a", "ab")
    ensures (forall i :: 0 <= i < |a| ==> !('A' <= a[i] <= 'Z')) && (forall i :: 0 <= i < |b| ==> !('A' <= b[i] <= 'Z'))
            ==> (SameName(a, b) <==> a == b)
  {
    assert Lower("a.exe"[0]) != Lower("b.exe"[0]) && Lower("["[0]) != Lower("{"[0]);
    assert forall c :: !('A' <= c <= 'Z') ==> Lower(c) == c;
  }

  /** The first limit in the list that names the process. */
  ghost predicate Governs(limits: seq<AppLimit>, process: string, i: int) {
    && 0 <= i < |limits| && SameName(limits[i].process, process)
    && forall j :: 0 <= j < i ==> !SameName(limits[j].process, process)
  }

  /** A time limit on the open process that its open session uses up, even if it began the day before. */
  ghost predicate UsedUp(limits: seq<AppLimit>, g: Shared, now: int, dayStart: int, i: int) {
    && g.current.window.process != "" && Governs(limits, g.current.window.process, i)
    && !limits[i].blocked && 0 < g.current.start && dayStart <= now
    && 0 <= limits[i].dailyLimit <= now - Max(g.current.start, dayStart)
  }

  /** The loop of `activity_check_limits` over the limits, up to the decision. */
  method CheckLimits(limits: seq<AppLimit>, g: Shared, rows: seq<Snap>, now: int, midnight: int, dayStart: int)
    returns (v: Verdict)
    ensures var process := g.current.window.process;
            var used := Charged(g, rows, now, process, midnight, dayStart);
            && (v == Blocked <==> process != "" && (exists i :: Governs(limits, process, i) && limits[i].blocked))
            && (v == TimeUp <==> process != "" && (exists i :: Governs(limits, process, i) && !limits[i].blocked
                                                                 && 0 <= limits[i].dailyLimit <= used))
    ensures forall i :: UsedUp(limits, g, now, dayStart, i) ==> v == TimeUp
  {
    var process := g.current.window.process;
    v := Free;
    if process == "" { return; }
    var i := 0;
    while i < |limits|
      invariant 0 <= i <= |limits| && v == Free
      invariant forall j :: 0 <= j < i ==> !SameName(limits[j].process, process)
    {
      if SameName(limits[i].process, process) {
        assert Governs(limits, process, i);
        if limits[i].blocked {
          v := Blocked;
        } else if limits[i].dailyLimit >= 0 {
          var used := DbToday(rows, process, midnight);
          if g.current.start > 0 {
            var from := if g.current.start > dayStart then g.current.start else dayStart;
            if now > from { used := used + (now - from); }
          }
          if used >= limits[i].dailyLimit { v := TimeUp; }
        }
        return;
      }
      i := i + 1;
    }
  }

  /** A limit longer than the day has been so far stops nobody, under the same two conditions. */
  method CheckAtRest(s: State, atQuery: State, now: int, ghost states: seq<State>, ghost steps: seq<Step>,
                     ghost i: nat, ghost j: nat, ghost k: nat, limits: seq<AppLimit>, midnight: int, dayStart: int)
    returns (v: Verdict)
    requires Reads(states, steps, i, j, k) && s == states[i] && atQuery == states[j] && now == states[k].clock
    requires midnight <= dayStart && midnight <= atQuery.clock
    requires !InsertedTwice(states, steps, j) && !CountsTwice(s.g, atQuery)
    requires forall m :: 0 <= m < |limits| ==> limits[m].dailyLimit < 0 || now - midnight < limits[m].dailyLimit
    ensures v != TimeUp
  {
    v := CheckLimits(limits, s.g, atQuery.rows, now, midnight, dayStart);
    NeverMoreThanTheDay(states, steps, i, j, k, s.g.current.window.process, midnight, dayStart);
  }

  /** A record begun at 1 is open, and it is 10. */
  lemma OpenSince() returns (states: seq<State>, steps: seq<Step>)
    ensures IsRun(states, steps) && MinimumIsPositive(steps)
    ensures var a := Window("a.exe", "A");
            states[|steps|] == State(10, Shared(a, Record(a, 1, 1), false, false, 1), Idle, Idle, [], [])
  {
    states, steps := [Start(1)], [];
    states, steps := Extend(states, steps, Look(Window("a.exe", "A")));
    states, steps := Go(states, steps, Watch);
    states, steps := Extend(states, steps, Tick(9));
  }

  /** The watch thread has copied the record begun at 1, ten seconds into the day; then the machine is suspended. */
  lemma SuspendedWhileChecking() returns (states: seq<State>, steps: seq<Step>, i: nat)
    ensures IsRun(states, steps) && MinimumIsPositive(steps) && i <= |steps| && WatchRests(steps, i, |steps|)
    ensures states[i].g == Shared(Window("a.exe", "A"), Record(Window("a.exe", "A"), 1, 1), false, false, 1)
    ensures states[i].rows == [] && states[i].watch.Idle?
    ensures states[|steps|].rows == [Snap(Window("a.exe", "A"), 1, 10, 1)] && states[|steps|].clock == 10
    ensures !IsOpen(states[|steps|].g)
  {
    states, steps := OpenSince();
    i := |steps|;
    ghost var before, done := states, steps;
    states, steps := Extend(states, steps, Suspend);
    states, steps := Go(states, steps, Gui);
    states, steps := Go(states, steps, Gui);
    states, steps := Go(states, steps, Gui);
    states, steps := Go(states, steps, Gui);
    states, steps := Go(states, steps, Gui);
    var g := Advance(Gui, true, 1);
    assert steps == done + [Suspend, g, g, g, g, g];
    assert states[i] == before[i];
  }

  /**
   The second condition is needed: here no session is inserted twice, neither at the copy nor at the query is
   a record open that has a row, and yet 18 of 10 seconds are charged and a limit of 11 is called used up.
   */
  method CheckedWhileSuspending() returns (v: Verdict, ghost states: seq<State>, ghost steps: seq<Step>,
                                           ghost i: nat, ghost j: nat)
    ensures v == TimeUp && Reads(states, steps, i, j, j) && states[j].clock == 10
    ensures Charged(states[i].g, states[j].rows, 10, "a.exe", 0, 0) == 18
    ensures !InsertedTwice(states, steps, j) && !SavedOpen(states, steps, i) && !SavedOpen(states, steps, j)
    ensures CountsTwice(states[i].g, states[j])
  {
    var a := Window("a.exe", "A");
    var g, rows := Shared(a, Record(a, 1, 1), false, false, 1), [Snap(a, 1, 10, 1)];
    v := CheckLimits([AppLimit(1, "a.exe", 11, false)], g, rows, 10, 0, 0);
    states, steps, i := SuspendedWhileChecking();
    j := |steps|;
    InsertedOnceIff(states, steps, j);
    HasRowIff(states, steps, i);
    assert rows[..0] == [] && DbToday(rows, "a.exe", 0) == 9;
    assert Governs([AppLimit(1, "a.exe", 11, false)], "a.exe", 0);
    assert states[j].rows[0].session == 1;
  }
}
