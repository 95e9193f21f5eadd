/**
 The session tracker (src/agent/core/activity.cpp) as two threads over shared globals.  The lock is released
 around I/O; any interleaving of the pieces is a run.
 */
module Tracker {

  datatype Window = Window(process: string, title: string)

  /** `g_current_record`; a start of 0 means that no record is open.  `session` numbers the openings. */
  datatype Record = Record(window: Window, start: int, session: nat)

  /** The copy a finisher takes of the open record. */
  datatype Snap = Snap(window: Window, start: int, end: int, session: nat)

  const NO_WINDOW := Window("", "")
  const NO_RECORD := Record(NO_WINDOW, 0, 0)

  /** The globals guarded by the lock, with the number of sessions so far. */
  datatype Shared = Shared(lastWindow: Window, current: Record, finishing: bool, suspended: bool, sessions: nat)

  function Duration(snap: Snap): int { if snap.end > snap.start then snap.end - snap.start else 0 }

  // ---------------------------------------------------------------------------------------------
  // The critical sections
  // ---------------------------------------------------------------------------------------------

  predicate HasOpenRecord(g: Shared) { g.lastWindow.process != "" }

  function Opened(g: Shared, window: Window, now: int): Shared {
    g.(lastWindow := window, current := Record(window, now, g.sessions + 1), sessions := g.sessions + 1)
  }

  predicate MayFinish(g: Shared) { !g.finishing && g.current.start != 0 }

  function SnapOf(g: Shared, now: int): Snap { Snap(g.current.window, g.current.start, now, g.current.session) }

  function Closed(g: Shared): Shared { g.(lastWindow := NO_WINDOW, current := NO_RECORD) }

  /** The row a finisher inserts from `g`, if any. */
  function Saved(rows: seq<Snap>, g: Shared, now: int, keep: bool, minDuration: int): seq<Snap> {
    if MayFinish(g) && keep && minDuration <= Duration(SnapOf(g, now)) then rows + [SnapOf(g, now)] else rows
  }

  /** The globals as fields, with the critical sections as methods. */
  class Globals {
    var lastWindow: Window
    var current: Record
    var finishing: bool
    var suspended: bool
    var sessions: nat

    /** The table the finisher inserts into. */
    var rows: seq<Snap>

    function Contents(): Shared
      reads this
    {
      Shared(lastWindow, current, finishing, suspended, sessions)
    }

    constructor ()
      ensures Contents() == Shared(NO_WINDOW, NO_RECORD, false, false, 0) && rows == []
    {
      lastWindow, current, finishing, suspended, sessions, rows := NO_WINDOW, NO_RECORD, false, false, 0, [];
    }

    /** `startNewRecordLocked` together with the assignment of `g_last_window`. */
    method StartNewRecord(window: Window, now: int)
      modifies this
      ensures Contents() == Opened(old(Contents()), window, now) && rows == old(rows)
    {
      sessions := sessions + 1;
      current := Record(window, now, sessions);
      lastWindow := window;
    }

    /** The first section of `finishCurrentRecord`. */
    method TakeSnapshot(now: int) returns (taken: bool, snap: Snap)
      modifies this`finishing
      ensures taken == MayFinish(old(Contents()))
      ensures taken ==> snap == SnapOf(old(Contents()), now)
      ensures Contents() == if taken then old(Contents()).(finishing := true) else old(Contents())
    {
      taken, snap := false, Snap(NO_WINDOW, 0, 0, 0);
      if finishing { return; }
      if current.start == 0 { return; }
      finishing := true;
      taken, snap := true, Snap(current.window, current.start, now, current.session);
    }

    /** `finishCurrentRecord` when no other thread runs in between. */
    method FinishCurrentRecord(now: int, excluded: bool, minDuration: int, insertSucceeds: bool)
      modifies this
      ensures Contents() == old(Contents())
      ensures rows == Saved(old(rows), old(Contents()), now, !excluded && insertSucceeds, minDuration)
    {
      var taken, snap := TakeSnapshot(now);
      if !taken { return; }
      if !excluded && Duration(snap) >= minDuration && insertSucceeds {
        rows := rows + [snap];
      }
      finishing := false;
    }

    /** `closeCurrentSession` when no other thread runs in between. */
    method CloseCurrentSession(now: int, excluded: bool, minDuration: int, insertSucceeds: bool)
      modifies this
      ensures Contents() == if HasOpenRecord(old(Contents())) then Closed(old(Contents())) else old(Contents())
      ensures rows == if HasOpenRecord(old(Contents()))
                      then Saved(old(rows), old(Contents()), now, !excluded && insertSucceeds, minDuration)
                      else old(rows)
    {
      var hasOpenRecord := lastWindow.process != "";
      if !hasOpenRecord { return; }
      FinishCurrentRecord(now, excluded, minDuration, insertSucceeds);
      lastWindow, current := NO_WINDOW, NO_RECORD;
    }

    /** `monitor_activity` when no other thread runs in between. */
    method MonitorActivity(window: Window, now: int, excluded: bool, minDuration: int, insertSucceeds: bool)
      requires window.process != ""
      modifies this
      ensures var g := old(Contents());
              Contents() == if !g.suspended && g.lastWindow != window then Opened(g, window, now) else g
      ensures var g := old(Contents());
              rows == if !g.suspended && HasOpenRecord(g) && g.lastWindow != window
                      then Saved(old(rows), g, now, !excluded && insertSucceeds, minDuration) else old(rows)
    {
      if suspended { return; }
      var firstRun := lastWindow.process == "";
      var changed := !firstRun && (window.process != lastWindow.process || window.title != lastWindow.title);
      if firstRun {
        StartNewRecord(window, now);
        return;
      }
      if !changed { return; }
      FinishCurrentRecord(now, excluded, minDuration, insertSucceeds);
      if suspended { return; }
      StartNewRecord(window, now);
    }

    /** `activity_suspend` when no other thread runs in between. */
    method ActivitySuspend(now: int, excluded: bool, minDuration: int, insertSucceeds: bool)
      modifies this
      ensures var g := old(Contents()).(suspended := true);
              Contents() == if HasOpenRecord(g) then Closed(g) else g
      ensures var g := old(Contents());
              rows == if HasOpenRecord(g) then Saved(old(rows), g, now, !excluded && insertSucceeds, minDuration)
                      else old(rows)
    {
      suspended := true;
      CloseCurrentSession(now, excluded, minDuration, insertSucceeds);
    }

    /** `activity_resume`. */
    method ActivityResume()
      modifies this`suspended
      ensures Contents() == old(Contents()).(suspended := false)
    {
      suspended := false;
    }
  }

  // ---------------------------------------------------------------------------------------------
  // The two threads
  // ---------------------------------------------------------------------------------------------

  /** What a finisher does once it is done: open the next record, or close the session. */
  datatype Then = Reopen(window: Window) | Reset

  /** Where a thread stands between two steps. */
  datatype Pc =
    | Idle
    | Seen(window: Window)
    | Check
    | Finish(goal: Then)
    | Saving(goal: Then, snap: Snap)
    | Releasing(goal: Then, snap: Snap)
    | Done(goal: Then)

  datatype Thread = Watch | Gui

  /** `taken` lists every snapshot in the order it was taken, `rows` those that were inserted. */
  datatype State = State(clock: int, g: Shared, watch: Pc, gui: Pc, taken: seq<Snap>, rows: seq<Snap>)

  /**
   The watch thread runs `monitor_activity` and `activity_check_limits`, the GUI thread `activity_suspend` and
   `activity_resume`; a step is one critical section, one piece of I/O, or one unlocked read.
   `Look` is the unlocked part of `monitor_activity`, `Enforce` a limit that has to close the session, and
   `Advance` lets a thread do its next section; `keep` is whether its record is neither excluded nor lost
   by a failed insert.
   */
  datatype Step =
    | Tick(seconds: nat)
    | Look(window: Window)
    | Enforce
    | Suspend
    | Resume
    | Advance(thread: Thread, keep: bool, minDuration: int)

  function PcOf(s: State, t: Thread): Pc { if t == Watch then s.watch else s.gui }

  function At(s: State, t: Thread, pc: Pc): State { if t == Watch then s.(watch := pc) else s.(gui := pc) }

  predicate Enabled(s: State, step: Step) {
    match step
    case Tick(_) => true
    case Look(window) => s.watch.Idle? && !s.g.suspended && window.process != ""
    case Enforce => s.watch.Idle?
    case Suspend => s.gui.Idle?
    case Resume => s.gui.Idle?
    case Advance(t, _, _) => !PcOf(s, t).Idle?
  }

  function Advanced(s: State, t: Thread, keep: bool, minDuration: int): State {
    match PcOf(s, t)
    case Idle => s
    case Seen(window) =>
      if s.g.suspended then At(s, t, Idle)
      else if !HasOpenRecord(s.g) then At(s, t, Idle).(g := Opened(s.g, window, s.clock))
      else if s.g.lastWindow == window then At(s, t, Idle)
      else At(s, t, Finish(Reopen(window)))
    case Check => At(s, t, if HasOpenRecord(s.g) then Finish(Reset) else Idle)
    case Finish(goal) =>
      if MayFinish(s.g) then
        var snap := SnapOf(s.g, s.clock);
        At(s, t, Saving(goal, snap)).(g := s.g.(finishing := true), taken := s.taken + [snap])
      else At(s, t, Done(goal))
    case Saving(goal, snap) =>
      At(s, t, Releasing(goal, snap)).(
        rows := if keep && minDuration <= Duration(snap) then s.rows + [snap] else s.rows)
    case Releasing(goal, _) => At(s, t, Done(goal)).(g := s.g.(finishing := false))
    case Done(Reset) => At(s, t, Idle).(g := Closed(s.g))
    case Done(Reopen(window)) =>
      if s.g.suspended then At(s, t, Idle) else At(s, t, Idle).(g := Opened(s.g, window, s.clock))
  }

  function Next(s: State, step: Step): State
    requires Enabled(s, step)
  {
    match step
    case Tick(seconds) => s.(clock := s.clock + seconds)
    case Look(window) => s.(watch := Seen(window))
    case Enforce => s.(watch := Check)
    case Suspend => s.(g := s.g.(suspended := true), gui := Check)
    case Resume => s.(g := s.g.(suspended := false))
    case Advance(t, keep, minDuration) => Advanced(s, t, keep, minDuration)
  }

  function Start(clock: int): State {
    State(clock, Shared(NO_WINDOW, NO_RECORD, false, false, 0), Idle, Idle, [], [])
  }

  ghost predicate IsRun(states: seq<State>, steps: seq<Step>) {
    && |states| == |steps| + 1
    && 0 < states[0].clock && states[0] == Start(states[0].clock)
    && forall i :: 0 <= i < |steps| ==> Enabled(states[i], steps[i]) && states[i + 1] == Next(states[i], steps[i])
  }

  // ---------------------------------------------------------------------------------------------
  // The machine and the code
  // ---------------------------------------------------------------------------------------------

  /** How many sections a thread has left at most. */
  function SectionsLeft(pc: Pc): nat {
    match pc
    case Idle => 0
    case Done(_) => 1
    case Releasing(_, _) => 2
    case Saving(_, _) => 3
    case Finish(_) => 4
    case _ => 5
  }

  /** A thread runs to the end of its call while the other one stands still. */
  function RunAlone(s: State, t: Thread, keep: bool, minDuration: int): State
    decreases SectionsLeft(PcOf(s, t)), s.clock
  {
    if PcOf(s, t).Idle? then s else RunAlone(Advanced(s, t, keep, minDuration), t, keep, minDuration)
  }

  /** One section, then the rest of the call. */
  lemma RunAloneStep(s: State, t: Thread, keep: bool, minDuration: int)
    requires !PcOf(s, t).Idle?
    ensures RunAlone(s, t, keep, minDuration) == RunAlone(Advanced(s, t, keep, minDuration), t, keep, minDuration)
  {
  }

  lemma DoneAlone(s: State, t: Thread, keep: bool, minDuration: int)
    requires PcOf(s, t).Done?
    ensures RunAlone(s, t, keep, minDuration) == Advanced(s, t, keep, minDuration)
  {
    RunAloneStep(s, t, keep, minDuration);
  }

  /** From its finish on, a thread alone saves the record and then goes on or closes. */
  lemma FinishAlone(s: State, t: Thread, keep: bool, minDuration: int)
    requires PcOf(s, t).Finish?
    ensures var s' := RunAlone(s, t, keep, minDuration);
            && PcOf(s', t).Idle? && s'.rows == Saved(s.rows, s.g, s.clock, keep, minDuration)
            && s'.g == match PcOf(s, t).goal
                       case Reset => Closed(s.g)
                       case Reopen(window) => if s.g.suspended then s.g else Opened(s.g, window, s.clock)
  {
    var s1 := Advanced(s, t, keep, minDuration);
    RunAloneStep(s, t, keep, minDuration);
    if MayFinish(s.g) {
      var s2 := Advanced(s1, t, keep, minDuration);
      RunAloneStep(s1, t, keep, minDuration);
      RunAloneStep(s2, t, keep, minDuration);
      DoneAlone(Advanced(s2, t, keep, minDuration), t, keep, minDuration);
    } else {
      DoneAlone(s1, t, keep, minDuration);
    }
  }

  /** Alone, the watch thread's steps do what `Globals.MonitorActivity` does. */
  lemma MonitorAloneIsTheCode(s: State, window: Window, keep: bool, minDuration: int)
    requires Enabled(s, Look(window))
    ensures var s' := RunAlone(Next(s, Look(window)), Watch, keep, minDuration);
            && s'.watch.Idle? && s'.g == (if s.g.lastWindow != window then Opened(s.g, window, s.clock) else s.g)
            && s'.rows == if HasOpenRecord(s.g) && s.g.lastWindow != window
                          then Saved(s.rows, s.g, s.clock, keep, minDuration) else s.rows
  {
    var s1 := Next(s, Look(window));
    var s2 := Advanced(s1, Watch, keep, minDuration);
    if s2.watch.Finish? { FinishAlone(s2, Watch, keep, minDuration); }
  }

  /** Alone, the GUI thread's steps do what `Globals.ActivitySuspend` does. */
  lemma SuspendAloneIsTheCode(s: State, keep: bool, minDuration: int)
    requires s.gui.Idle?
    ensures var s' := RunAlone(Next(s, Suspend), Gui, keep, minDuration);
            var g := s.g.(suspended := true);
            && s'.gui.Idle? && s'.g == (if HasOpenRecord(g) then Closed(g) else g)
            && s'.rows == if HasOpenRecord(g) then Saved(s.rows, g, s.clock, keep, minDuration) else s.rows
  {
    var s1 := Next(s, Suspend);
    var s2 := Advanced(s1, Gui, keep, minDuration);
    if s2.gui.Finish? { FinishAlone(s2, Gui, keep, minDuration); }
  }

  // ---------------------------------------------------------------------------------------------
  // What every interleaving keeps
  // ---------------------------------------------------------------------------------------------

  predicate InIo(pc: Pc) { pc.Saving? || pc.Releasing? }

  predicate IsOpen(g: Shared) { g.current.start != 0 }

  /** Some finisher has taken a copy of this session. */
  ghost predicate Snapped(s: State, session: nat) {
    exists i :: 0 <= i < |s.taken| && s.taken[i].session == session
  }

  /** One session copied twice, or a later session that begins after the earlier one ended. */
  predicate Ordered(a: Snap, b: Snap) {
    || (a.session == b.session && a.start == b.start && a.window == b.window && a.end <= b.end)
    || (a.session < b.session && a.end <= b.start)
  }

  ghost predicate Chain(q: seq<Snap>) {
    forall i, j :: 0 <= i < j < |q| ==> Ordered(q[i], q[j])
  }

  /** Each interval ends before the next one begins. */
  ghost predicate Successive(q: seq<Snap>) {
    forall i, j :: 0 <= i < j < |q| ==> q[i].end <= q[j].start
  }

  /** A window is remembered exactly while a record is open; the open record is the newest session. */
  ghost predicate GlobalsAgree(s: State) {
    && 0 < s.clock
    && (HasOpenRecord(s.g) <==> IsOpen(s.g))
    && (IsOpen(s.g) ==> s.g.current.window == s.g.lastWindow && s.g.current.session == s.g.sessions
                        && 0 < s.g.current.start <= s.clock)
  }

  /** At most one finisher is between its snapshot and the release of the flag. */
  ghost predicate FlagIsHeld(s: State) {
    && (s.g.finishing <==> InIo(s.watch) || InIo(s.gui))
    && !(InIo(s.watch) && InIo(s.gui))
  }

  /** A finisher's copy is the newest one, and the open record, if any, is still the copied one. */
  ghost predicate FinisherAgrees(s: State, pc: Pc) {
    && (InIo(pc) ==> |s.taken| > 0 && pc.snap == s.taken[|s.taken| - 1]
                     && (IsOpen(s.g) ==> s.g.current.session == pc.snap.session))
    && (pc.Done? && IsOpen(s.g) ==> Snapped(s, s.g.current.session))
  }

  ghost predicate GuiAgrees(s: State) {
    && (!s.gui.Idle? ==> s.g.suspended)
    && !s.gui.Seen?
    && (s.gui.Finish? || s.gui.Saving? || s.gui.Releasing? || s.gui.Done? ==> s.gui.goal.Reset?)
    && (s.g.suspended && s.gui.Idle? ==> !IsOpen(s.g))
  }

  ghost predicate WatchAgrees(s: State) {
    && (s.watch.Seen? ==> s.watch.window.process != "")
    && ((s.watch.Finish? || s.watch.Saving? || s.watch.Releasing? || s.watch.Done?) && s.watch.goal.Reopen?
        ==> s.watch.goal.window.process != "")
  }

  /** Every copy is a proper interval of a session begun before now, and precedes the open record. */
  ghost predicate CopyAgrees(s: State, snap: Snap) {
    && 0 < snap.start <= snap.end <= s.clock
    && snap.session <= s.g.sessions
    && (IsOpen(s.g) ==> Ordered(snap, SnapOf(s.g, s.clock)))
  }

  ghost predicate CopiesAgree(s: State) {
    && Chain(s.taken) && Chain(s.rows)
    && (forall i :: 0 <= i < |s.taken| ==> CopyAgrees(s, s.taken[i]))
    && (forall i :: 0 <= i < |s.rows| ==> s.rows[i] in s.taken)
  }

  ghost predicate Inv(s: State) {
    && GlobalsAgree(s) && FlagIsHeld(s) && FinisherAgrees(s, s.watch) && FinisherAgrees(s, s.gui)
    && GuiAgrees(s) && WatchAgrees(s) && CopiesAgree(s)
  }

  lemma ChainAppend(q: seq<Snap>, snap: Snap)
    requires Chain(q) && forall i :: 0 <= i < |q| ==> Ordered(q[i], snap)
    ensures Chain(q + [snap])
  {
  }

  lemma SnapshotKeepsInv(s: State, t: Thread)
    requires Inv(s) && PcOf(s, t).Finish? && MayFinish(s.g)
    ensures Inv(Advanced(s, t, false, 0))
  {
    var s' := Advanced(s, t, false, 0);
    var snap := SnapOf(s.g, s.clock);
    ChainAppend(s.taken, snap);
    assert s'.taken[|s.taken|] == snap;
    forall row | row in s.taken ensures row in s'.taken {
      var i :| 0 <= i < |s.taken| && s.taken[i] == row;
      assert s'.taken[i] == row;
    }
  }

  lemma SavedInOrder(s: State, t: Thread)
    requires Inv(s) && PcOf(s, t).Saving?
    ensures Chain(s.rows + [PcOf(s, t).snap]) && PcOf(s, t).snap in s.taken
  {
    var snap := PcOf(s, t).snap;
    var n := |s.taken| - 1;
    assert s.taken[n] == snap;
    forall i | 0 <= i < |s.rows| ensures Ordered(s.rows[i], snap) {
      var row := s.rows[i];
      var j :| 0 <= j < |s.taken| && s.taken[j] == row;
      if j < n { assert Ordered(s.taken[j], s.taken[n]); }
    }
    ChainAppend(s.rows, snap);
  }

  lemma SaveKeepsInv(s: State, t: Thread, keep: bool, minDuration: int)
    requires Inv(s) && PcOf(s, t).Saving?
    ensures Inv(Advanced(s, t, keep, minDuration))
  {
    SavedInOrder(s, t);
  }

  /** The record is opened only while neither thread is finishing: the old one is closed or copied by then. */
  lemma OpenKeepsInv(s: State, window: Window)
    requires Inv(s) && !s.g.suspended && window.process != ""
    requires (s.watch == Seen(window) && !HasOpenRecord(s.g)) || s.watch == Done(Reopen(window))
    ensures Inv(At(s, Watch, Idle).(g := Opened(s.g, window, s.clock)))
  {
  }

  lemma ReleaseKeepsInv(s: State, t: Thread)
    requires Inv(s) && PcOf(s, t).Releasing?
    ensures Inv(Advanced(s, t, false, 0))
  {
    var n := |s.taken| - 1;
    assert s.taken[n].session == PcOf(s, t).snap.session;
  }

  /** Closing a session: it has been copied by then. */
  lemma CloseKeepsInv(s: State, t: Thread)
    requires Inv(s) && PcOf(s, t) == Done(Reset)
    ensures Inv(Advanced(s, t, false, 0))
  {
  }

  /** A finisher that finds nothing to copy, or another finisher at work. */
  lemma TurnBackKeepsInv(s: State, t: Thread)
    requires Inv(s) && (PcOf(s, t).Check? || (PcOf(s, t).Finish? && !MayFinish(s.g)))
    ensures Inv(Advanced(s, t, false, 0))
  {
    if IsOpen(s.g) && PcOf(s, t).Finish? {
      var n := |s.taken| - 1;
      assert s.taken[n].session == s.g.current.session;
    }
  }

  lemma AdvanceKeepsInv(s: State, t: Thread, keep: bool, minDuration: int)
    requires Inv(s) && !PcOf(s, t).Idle?
    ensures Inv(Advanced(s, t, keep, minDuration))
  {
    match PcOf(s, t)
    case Seen(window) => if !s.g.suspended && !HasOpenRecord(s.g) { OpenKeepsInv(s, window); }
    case Check => TurnBackKeepsInv(s, t);
    case Finish(goal) => if MayFinish(s.g) { SnapshotKeepsInv(s, t); } else { TurnBackKeepsInv(s, t); }
    case Saving(_, _) => SaveKeepsInv(s, t, keep, minDuration);
    case Releasing(_, _) => ReleaseKeepsInv(s, t);
    case Done(Reopen(window)) => if !s.g.suspended { OpenKeepsInv(s, window); }
    case Done(Reset) => CloseKeepsInv(s, t);
  }

  lemma StepKeepsInv(s: State, step: Step)
    requires Inv(s) && Enabled(s, step)
    ensures Inv(Next(s, step))
  {
    if step.Advance? { AdvanceKeepsInv(s, step.thread, step.keep, step.minDuration); }
  }

  lemma {:induction false} RunKeepsInv(states: seq<State>, steps: seq<Step>, i: nat)
    requires IsRun(states, steps) && i < |states|
    ensures Inv(states[i])
  {
    if i > 0 {
      RunKeepsInv(states, steps, i - 1);
      StepKeepsInv(states[i - 1], steps[i - 1]);
    }
  }

  // ---------------------------------------------------------------------------------------------
  // The promises, under every interleaving
  // ---------------------------------------------------------------------------------------------

  /** In every state: a window is remembered iff a record is open, and at most one finisher is at work. */
  lemma WindowIffRecord(states: seq<State>, steps: seq<Step>, i: nat)
    requires IsRun(states, steps) && i < |states|
    ensures states[i].g.lastWindow.process != "" <==> states[i].g.current.start != 0
    ensures !(InIo(states[i].watch) && InIo(states[i].gui))
    ensures states[i].g.finishing <==> InIo(states[i].watch) || InIo(states[i].gui)
  {
    RunKeepsInv(states, steps, i);
  }

  /** Any two sessions ever recorded are disjoint intervals, and no interval is negative. */
  lemma SessionsAreDisjoint(states: seq<State>, steps: seq<Step>, i: nat, a: Snap, b: Snap)
    requires IsRun(states, steps) && i < |states|
    requires a in states[i].taken && b in states[i].taken
    ensures 0 < a.start <= a.end <= states[i].clock
    ensures a.session < b.session ==> a.end <= b.start
    ensures a.session == b.session ==> a.start == b.start && a.window == b.window
  {
    RunKeepsInv(states, steps, i);
    var j :| 0 <= j < |states[i].taken| && states[i].taken[j] == a;
    var k :| 0 <= k < |states[i].taken| && states[i].taken[k] == b;
    assert j < k ==> Ordered(a, b);
    assert k < j ==> Ordered(b, a);
  }

  /** No step closes or overwrites an open session before some finisher has copied it. */
  lemma NoSessionIsDropped(states: seq<State>, steps: seq<Step>, i: nat)
    requires IsRun(states, steps) && i < |steps|
    requires IsOpen(states[i].g) && states[i + 1].g.current != states[i].g.current
    ensures Snapped(states[i], states[i].g.current.session)
  {
    RunKeepsInv(states, steps, i);
  }

  /** While suspended and closed, nothing opens a record but a resume. */
  lemma {:induction false} StaysClosed(states: seq<State>, steps: seq<Step>, i: nat, j: nat)
    requires IsRun(states, steps) && i <= j < |states|
    requires states[i].g.suspended && !IsOpen(states[i].g)
    requires forall k :: i <= k < j ==> !steps[k].Resume?
    ensures states[j].g.suspended && !IsOpen(states[j].g)
    decreases j - i
  {
    if i < j {
      RunKeepsInv(states, steps, i);
      StaysClosed(states, steps, i + 1, j);
    }
  }

  /** From the return of `activity_suspend` to the next `activity_resume` no record is open. */
  lemma NothingOpenWhileSuspended(states: seq<State>, steps: seq<Step>, i: nat, j: nat)
    requires IsRun(states, steps) && i < j < |states|
    requires !states[i].gui.Idle? && states[i + 1].gui.Idle?
    requires forall k :: i < k < j ==> !steps[k].Resume?
    ensures !IsOpen(states[j].g)
  {
    RunKeepsInv(states, steps, i);
    RunKeepsInv(states, steps, i + 1);
    StaysClosed(states, steps, i + 1, j);
  }

  /** A copy is inserted exactly when it is kept and lasted at least the minimum, to the second. */
  lemma InsertedIff(s: State, t: Thread, keep: bool, minDuration: int)
    requires Inv(s) && PcOf(s, t).Saving?
    ensures var (rows, snap) := (Advanced(s, t, keep, minDuration).rows, PcOf(s, t).snap);
            && (rows == s.rows + [snap] <==> keep && minDuration <= snap.end - snap.start)
            && (rows == s.rows <==> !(keep && minDuration <= snap.end - snap.start))
  {
    assert CopyAgrees(s, s.taken[|s.taken| - 1]);
    assert |s.rows + [PcOf(s, t).snap]| == |s.rows| + 1;
  }

  /**
   After the watch thread has looked at a window, that window is the one recorded: since now if it is another
   process or another title than before, else since before.
   */
  lemma MonitorTracks(s: State, window: Window, keep: bool, minDuration: int)
    requires Inv(s) && Enabled(s, Look(window))
    ensures var g := RunAlone(Next(s, Look(window)), Watch, keep, minDuration).g;
            && IsOpen(g) && g.current.window == window && g.lastWindow == window
            && (IsOpen(s.g) && s.g.current.window.process == window.process && s.g.current.window.title == window.title
                ==> g == s.g)
            && (!IsOpen(s.g) || s.g.current.window.process != window.process || s.g.current.window.title != window.title
                ==> g.current.start == s.clock && g.current.session == s.g.sessions + 1)
  {
    MonitorAloneIsTheCode(s, window, keep, minDuration);
  }

  // ---------------------------------------------------------------------------------------------
  // Start times as keys
  // ---------------------------------------------------------------------------------------------

  ghost predicate MinimumIsPositive(steps: seq<Step>) {
    forall i :: 0 <= i < |steps| && steps[i].Advance? ==> 1 <= steps[i].minDuration
  }

  lemma {:induction false} SavedTakeTime(states: seq<State>, steps: seq<Step>, i: nat)
    requires IsRun(states, steps) && i < |states| && MinimumIsPositive(steps)
    ensures forall k :: 0 <= k < |states[i].rows| ==> states[i].rows[k].start < states[i].rows[k].end
  {
    if i > 0 {
      SavedTakeTime(states, steps, i - 1);
      assert steps[i - 1].Advance? ==> 1 <= steps[i - 1].minDuration;
    }
  }

  /** Saved rows of different sessions have strictly increasing start times; those of one session share it. */
  lemma StartsAreKeys(states: seq<State>, steps: seq<Step>, i: nat, j: nat, k: nat)
    requires IsRun(states, steps) && i < |states| && MinimumIsPositive(steps)
    requires j < k < |states[i].rows|
    ensures var (a, b) := (states[i].rows[j], states[i].rows[k]);
            && a.session <= b.session
            && (a.session < b.session ==> a.start < a.end <= b.start)
            && (a.session == b.session <==> a.start == b.start)
  {
    RunKeepsInv(states, steps, i);
    SavedTakeTime(states, steps, i);
    assert Ordered(states[i].rows[j], states[i].rows[k]);
  }

  // ---------------------------------------------------------------------------------------------
  // At most one row per session
  // ---------------------------------------------------------------------------------------------

  /** A thread is closing a session, from its first look at it to the last section. */
  predicate Closing(pc: Pc) { !pc.Idle? && !pc.Seen? }

  /** The two threads never close at the same time. */
  ghost predicate Apart(states: seq<State>) {
    forall i :: 0 <= i < |states| ==> !(Closing(states[i].watch) && Closing(states[i].gui))
  }

  ghost predicate Strict(q: seq<Snap>) {
    forall i, j :: 0 <= i < j < |q| ==> q[i].session < q[j].session
  }

  predicate PastSnapshot(pc: Pc) { InIo(pc) || pc.Done? }

  ghost predicate Newer(q: seq<Snap>, snap: Snap) {
    forall i :: 0 <= i < |q| ==> q[i].session < snap.session
  }

  /** A copied session is still open only while its finisher is at work. */
  ghost predicate Once(s: State) {
    && Strict(s.taken) && Strict(s.rows)
    && (s.watch.Saving? ==> Newer(s.rows, s.watch.snap))
    && (s.gui.Saving? ==> Newer(s.rows, s.gui.snap))
    && (IsOpen(s.g) && Snapped(s, s.g.current.session) ==> PastSnapshot(s.watch) || PastSnapshot(s.gui))
  }

  lemma SnapshotIsOnce(s: State, t: Thread)
    requires Inv(s) && Once(s) && PcOf(s, t).Finish? && MayFinish(s.g)
    requires !(Closing(s.watch) && Closing(s.gui))
    ensures Once(Advanced(s, t, false, 0))
  {
    var s' := Advanced(s, t, false, 0);
    var snap := SnapOf(s.g, s.clock);
    forall i | 0 <= i < |s.taken| ensures s.taken[i].session < snap.session {
      assert CopyAgrees(s, s.taken[i]);
    }
    forall i | 0 <= i < |s.rows| ensures s.rows[i].session < snap.session {
      assert s.rows[i] in s.taken;
    }
  }

  lemma SaveIsOnce(s: State, t: Thread, keep: bool, minDuration: int)
    requires Inv(s) && Once(s) && PcOf(s, t).Saving?
    requires !(Closing(s.watch) && Closing(s.gui))
    ensures Once(Advanced(s, t, keep, minDuration))
  {
    var s' := Advanced(s, t, keep, minDuration);
  }

  lemma OpenIsOnce(s: State, window: Window)
    requires Inv(s) && Once(s) && (s.watch.Seen? || s.watch.Done?) && !s.g.suspended
    ensures Once(At(s, Watch, Idle).(g := Opened(s.g, window, s.clock)))
  {
    forall i | 0 <= i < |s.taken| ensures s.taken[i].session <= s.g.sessions {
      assert CopyAgrees(s, s.taken[i]);
    }
  }

  /** The sections that neither copy, insert nor open. */
  lemma QuietIsOnce(s: State, s': State)
    requires Inv(s) && Once(s) && s'.taken == s.taken && s'.rows == s.rows
    requires s'.g.current == s.g.current || !IsOpen(s'.g)
    requires PastSnapshot(s.watch) && IsOpen(s'.g) ==> PastSnapshot(s'.watch)
    requires PastSnapshot(s.gui) && IsOpen(s'.g) ==> PastSnapshot(s'.gui)
    requires s'.watch.Saving? ==> s'.watch == s.watch
    requires s'.gui.Saving? ==> s'.gui == s.gui
    ensures Once(s')
  {
  }

  lemma AdvanceKeepsOnce(s: State, t: Thread, keep: bool, minDuration: int)
    requires Inv(s) && Once(s) && !PcOf(s, t).Idle?
    requires !(Closing(s.watch) && Closing(s.gui))
    ensures Once(Advanced(s, t, keep, minDuration))
  {
    var s' := Advanced(s, t, keep, minDuration);
    match PcOf(s, t)
    case Seen(window) =>
      if !s.g.suspended && !HasOpenRecord(s.g) { OpenIsOnce(s, window); } else { QuietIsOnce(s, s'); }
    case Check => QuietIsOnce(s, s');
    case Finish(goal) => if MayFinish(s.g) { SnapshotIsOnce(s, t); } else { QuietIsOnce(s, s'); }
    case Saving(_, _) => SaveIsOnce(s, t, keep, minDuration);
    case Releasing(_, _) => QuietIsOnce(s, s');
    case Done(Reopen(window)) => if !s.g.suspended { OpenIsOnce(s, window); } else { QuietIsOnce(s, s'); }
    case Done(Reset) => QuietIsOnce(s, s');
  }

  lemma StepKeepsOnce(s: State, step: Step)
    requires Inv(s) && Once(s) && Enabled(s, step)
    requires !(Closing(s.watch) && Closing(s.gui))
    ensures Once(Next(s, step))
  {
    if step.Advance? {
      AdvanceKeepsOnce(s, step.thread, step.keep, step.minDuration);
    } else {
      QuietIsOnce(s, Next(s, step));
    }
  }

  lemma {:induction false} RunKeepsOnce(states: seq<State>, steps: seq<Step>, i: nat)
    requires IsRun(states, steps) && Apart(states) && i < |states|
    ensures Once(states[i])
  {
    if i > 0 {
      RunKeepsOnce(states, steps, i - 1);
      RunKeepsInv(states, steps, i - 1);
      StepKeepsOnce(states[i - 1], steps[i - 1]);
    }
  }

  // ---------------------------------------------------------------------------------------------
  // Exactly when a session is copied, or inserted, twice
  // ---------------------------------------------------------------------------------------------

  ghost predicate CopyStep(s: State, step: Step) { step.Advance? && PcOf(s, step.thread).Finish? && MayFinish(s.g) }

  ghost predicate ReleaseStep(s: State, step: Step) { step.Advance? && PcOf(s, step.thread).Releasing? }

  ghost predicate InsertStep(s: State, step: Step) {
    && step.Advance? && PcOf(s, step.thread).Saving?
    && step.keep && step.minDuration <= Duration(PcOf(s, step.thread).snap)
  }

  /** In step `k` a finisher copies the open record. */
  ghost predicate Copies(states: seq<State>, steps: seq<Step>, k: nat) {
    k < |steps| && k < |states| && CopyStep(states[k], steps[k])
  }

  /** In step `k` a finisher releases the flag. */
  ghost predicate Releases(states: seq<State>, steps: seq<Step>, k: nat) {
    k < |steps| && k < |states| && ReleaseStep(states[k], steps[k])
  }

  /** In step `k` a finisher inserts its copy. */
  ghost predicate Inserts(states: seq<State>, steps: seq<Step>, k: nat) {
    k < |steps| && k < |states| && InsertStep(states[k], steps[k])
  }

  /** The current record is the same from step `j` to step `k`. */
  ghost predicate Unchanged(states: seq<State>, j: nat, k: nat) {
    j <= k < |states| && forall m :: j <= m <= k ==> states[m].g.current == states[k].g.current
  }

  /** At `k` the current record is one that a finisher has left in place when it released the flag. */
  ghost predicate InGap(states: seq<State>, steps: seq<Step>, k: nat) {
    exists j: nat :: j < k && Releases(states, steps, j) && Unchanged(states, j, k)
  }

  /** At `k` a record is open that a finisher has inserted. */
  ghost predicate SavedOpen(states: seq<State>, steps: seq<Step>, k: nat) {
    && k < |states| && IsOpen(states[k].g)
    && exists j: nat :: j < k && Inserts(states, steps, j) && Unchanged(states, j, k)
  }

  /** Before `i` a finisher copied a record left in place by another one. */
  ghost predicate CopiesInGap(states: seq<State>, steps: seq<Step>, i: nat) {
    exists k: nat :: k < i && Copies(states, steps, k) && InGap(states, steps, k)
  }

  /** Step `k` inserts what step `c` copied. */
  ghost predicate InsertsCopy(states: seq<State>, steps: seq<Step>, c: nat, k: nat) {
    && c < k && Copies(states, steps, c) && Inserts(states, steps, k)
    && PcOf(states[k], steps[k].thread).snap == SnapOf(states[c].g, states[c].clock)
  }

  /** Before `i` a record that was inserted and left in place was copied again, and that copy inserted too. */
  ghost predicate InsertedTwice(states: seq<State>, steps: seq<Step>, i: nat) {
    exists c: nat, k: nat :: k < i && InsertsCopy(states, steps, c, k) && SavedOpen(states, steps, c)
  }

  ghost predicate HasRow(s: State, session: nat) {
    exists i :: 0 <= i < |s.rows| && s.rows[i].session == session
  }

  lemma GapStep(states: seq<State>, steps: seq<Step>, k: nat)
    requires IsRun(states, steps) && 0 < k < |states|
    ensures InGap(states, steps, k) <==>
              && states[k - 1].g.current == states[k].g.current
              && (InGap(states, steps, k - 1) || Releases(states, steps, k - 1))
  {
    if InGap(states, steps, k) {
      var j: nat :| j < k && Releases(states, steps, j) && Unchanged(states, j, k);
    }
    if states[k - 1].g.current == states[k].g.current {
      if InGap(states, steps, k - 1) {
        var j: nat :| j < k - 1 && Releases(states, steps, j) && Unchanged(states, j, k - 1);
      }
    }
  }

  lemma SavedStep(states: seq<State>, steps: seq<Step>, k: nat)
    requires IsRun(states, steps) && 0 < k < |states| && IsOpen(states[k].g)
    ensures SavedOpen(states, steps, k) <==>
              && states[k - 1].g.current == states[k].g.current
              && (SavedOpen(states, steps, k - 1) || Inserts(states, steps, k - 1))
  {
    if SavedOpen(states, steps, k) {
      var j: nat :| j < k && Inserts(states, steps, j) && Unchanged(states, j, k);
    }
    if states[k - 1].g.current == states[k].g.current {
      if SavedOpen(states, steps, k - 1) {
        var j: nat :| j < k - 1 && Inserts(states, steps, j) && Unchanged(states, j, k - 1);
      }
    }
  }

  /** How the copies of an open record change. */
  lemma CopiesChange(s: State, step: Step)
    requires Inv(s) && Enabled(s, step) && IsOpen(s.g)
    ensures var session := s.g.current.session;
            Snapped(Next(s, step), session) <==> Snapped(s, session) || CopyStep(s, step)
  {
    var s', session := Next(s, step), s.g.current.session;
    var n := |s.taken|;
    if CopyStep(s, step) {
      assert s'.taken[n].session == session;
    } else {
      assert s'.taken == s.taken;
    }
  }

  /** How the rows of an open record change. */
  lemma RowsOfOpenChange(s: State, step: Step)
    requires Inv(s) && Enabled(s, step) && IsOpen(s.g)
    ensures var session := s.g.current.session;
            HasRow(Next(s, step), session) <==> HasRow(s, session) || InsertStep(s, step)
  {
    var s', session := Next(s, step), s.g.current.session;
    if InsertStep(s, step) {
      assert s'.rows[|s.rows|].session == session;
    } else {
      assert s'.rows == s.rows;
    }
  }

  /** Nothing has happened to the open record yet. */
  ghost predicate IsNew(s: State) {
    !s.g.finishing && !Snapped(s, s.g.current.session) && !HasRow(s, s.g.current.session)
  }

  lemma StepOfRun(states: seq<State>, steps: seq<Step>, k: nat)
    requires IsRun(states, steps) && k < |steps|
    ensures Inv(states[k]) && Enabled(states[k], steps[k]) && states[k + 1] == Next(states[k], steps[k])
  {
    RunKeepsInv(states, steps, k);
  }

  lemma OpenedInRun(states: seq<State>, steps: seq<Step>, k: nat)
    requires IsRun(states, steps) && 0 < k < |states| && IsOpen(states[k].g)
    requires states[k].g.current != states[k - 1].g.current
    ensures IsNew(states[k])
  {
    StepOfRun(states, steps, k - 1);
  }

  /** An open record has been copied just when a finisher holds the flag or has released it since. */
  lemma {:induction false} SnappedIff(states: seq<State>, steps: seq<Step>, k: nat)
    requires IsRun(states, steps) && k < |states| && IsOpen(states[k].g)
    ensures Snapped(states[k], states[k].g.current.session) <==> states[k].g.finishing || InGap(states, steps, k)
  {
    GapStep(states, steps, k);
    if states[k].g.current == states[k - 1].g.current {
      SnappedIff(states, steps, k - 1);
      RunKeepsInv(states, steps, k - 1);
      CopiesChange(states[k - 1], steps[k - 1]);
    } else {
      OpenedInRun(states, steps, k);
    }
  }

  /** An open record has a row just when a finisher has inserted it since. */
  lemma {:induction false} HasRowIff(states: seq<State>, steps: seq<Step>, k: nat)
    requires IsRun(states, steps) && k < |states| && IsOpen(states[k].g)
    ensures HasRow(states[k], states[k].g.current.session) <==> SavedOpen(states, steps, k)
  {
    SavedStep(states, steps, k);
    if states[k].g.current == states[k - 1].g.current {
      HasRowIff(states, steps, k - 1);
      RunKeepsInv(states, steps, k - 1);
      RowsOfOpenChange(states[k - 1], steps[k - 1]);
    } else {
      OpenedInRun(states, steps, k);
    }
  }

  lemma StrictAppend(q: seq<Snap>, snap: Snap)
    requires forall i :: 0 <= i < |q| ==> q[i].session <= snap.session
    ensures Strict(q + [snap]) <==> Strict(q) && forall i :: 0 <= i < |q| ==> q[i].session != snap.session
  {
    var all := q + [snap];
    assert all[|q|] == snap;
    assert forall i :: 0 <= i < |q| ==> all[i] == q[i];
    if Strict(all) {
      assert forall i, j :: 0 <= i < j < |q| ==> all[i].session < all[j].session;
    }
  }

  /** Copying the open record once more keeps every session single just when it has not been copied before. */
  lemma CopyIsNew(s: State, t: Thread)
    requires Inv(s) && PcOf(s, t).Finish? && MayFinish(s.g)
    ensures Strict(Advanced(s, t, false, 0).taken) <==> Strict(s.taken) && !Snapped(s, s.g.current.session)
  {
    var snap := SnapOf(s.g, s.clock);
    forall i | 0 <= i < |s.taken| ensures s.taken[i].session <= snap.session { assert CopyAgrees(s, s.taken[i]); }
    StrictAppend(s.taken, snap);
  }

  lemma TakenChanges(states: seq<State>, steps: seq<Step>, k: nat)
    requires IsRun(states, steps) && k < |steps|
    ensures !Copies(states, steps, k) ==> states[k + 1].taken == states[k].taken
    ensures Copies(states, steps, k) ==> states[k + 1].taken == Advanced(states[k], steps[k].thread, false, 0).taken
  {
  }

  lemma RowsChange(states: seq<State>, steps: seq<Step>, k: nat)
    requires IsRun(states, steps) && k < |steps|
    ensures !Inserts(states, steps, k) ==> states[k + 1].rows == states[k].rows
  {
  }

  /**
   Every session is copied at most once if and only if no finisher copies a record in the gap, that is,
   after another finisher has released the flag and before the record is closed or replaced.
   */
  lemma {:induction false} CopiedOnceIff(states: seq<State>, steps: seq<Step>, i: nat)
    requires IsRun(states, steps) && i < |states|
    ensures Strict(states[i].taken) <==> !CopiesInGap(states, steps, i)
  {
    if i > 0 {
      CopiedOnceIff(states, steps, i - 1);
      TakenChanges(states, steps, i - 1);
      if Copies(states, steps, i - 1) {
        RunKeepsInv(states, steps, i - 1);
        CopyIsNew(states[i - 1], steps[i - 1].thread);
        SnappedIff(states, steps, i - 1);
      }
    }
  }

  /** A thread gets to insert by copying; while it waits nothing is inserted. */
  lemma SavingStep(s: State, step: Step, t: Thread)
    requires Inv(s) && Enabled(s, step) && PcOf(Next(s, step), t).Saving?
    ensures Next(s, step).rows == s.rows
    ensures var pc := PcOf(Next(s, step), t);
            || PcOf(s, t) == pc
            || (step.Advance? && step.thread == t && PcOf(s, t).Finish? && MayFinish(s.g)
                && pc.snap == SnapOf(s.g, s.clock))
  {
  }

  /** What a finisher is about to insert was copied in some step, and nothing was inserted since. */
  lemma {:induction false} SavingOrigin(states: seq<State>, steps: seq<Step>, k: nat, t: Thread) returns (c: nat)
    requires IsRun(states, steps) && k < |states| && PcOf(states[k], t).Saving?
    ensures c < k && Copies(states, steps, c) && states[k].rows == states[c].rows
    ensures PcOf(states[k], t).snap == SnapOf(states[c].g, states[c].clock)
  {
    assert k > 0;
    RunKeepsInv(states, steps, k - 1);
    SavingStep(states[k - 1], steps[k - 1], t);
    if PcOf(states[k - 1], t) == PcOf(states[k], t) {
      c := SavingOrigin(states, steps, k - 1, t);
    } else {
      c := k - 1;
    }
  }

  /** A copy's session already has a row just when the record was inserted and left in place before. */
  lemma CopyHasRow(states: seq<State>, steps: seq<Step>, c: nat)
    requires IsRun(states, steps) && Copies(states, steps, c)
    ensures HasRow(states[c], SnapOf(states[c].g, states[c].clock).session) <==> SavedOpen(states, steps, c)
  {
    HasRowIff(states, steps, c);
  }

  lemma {:induction false} RowsGrow(states: seq<State>, steps: seq<Step>, c: nat, k: nat, session: nat)
    requires IsRun(states, steps) && c <= k < |states| && HasRow(states[c], session)
    ensures HasRow(states[k], session)
    decreases k - c
  {
    if c < k {
      RowsGrow(states, steps, c, k - 1, session);
      var i :| 0 <= i < |states[k - 1].rows| && states[k - 1].rows[i].session == session;
      assert states[k].rows[i].session == session;
    }
  }

  /** The insertion of a copy doubles a session just when its record was inserted and left in place before. */
  lemma InsertIsNew(states: seq<State>, steps: seq<Step>, k: nat)
    requires IsRun(states, steps) && Inserts(states, steps, k)
    ensures Strict(states[k + 1].rows) <==>
              && Strict(states[k].rows)
              && !exists c: nat :: InsertsCopy(states, steps, c, k) && SavedOpen(states, steps, c)
  {
    var s, t := states[k], steps[k].thread;
    var snap := PcOf(s, t).snap;
    RunKeepsInv(states, steps, k);
    forall i | 0 <= i < |s.rows| ensures s.rows[i].session <= snap.session { RowsBeforeCopy(s, t, i); }
    StrictAppend(s.rows, snap);
    var c := SavingOrigin(states, steps, k, t);
    CopyHasRow(states, steps, c);
    assert InsertsCopy(states, steps, c, k);
    assert HasRow(s, snap.session) <==> SavedOpen(states, steps, c);
    forall d: nat | InsertsCopy(states, steps, d, k) && SavedOpen(states, steps, d) ensures HasRow(s, snap.session) {
      CopyHasRow(states, steps, d);
      RowsGrow(states, steps, d, k, snap.session);
    }
  }

  lemma RowsBeforeCopy(s: State, t: Thread, i: nat)
    requires Inv(s) && PcOf(s, t).Saving? && i < |s.rows|
    ensures s.rows[i].session <= PcOf(s, t).snap.session
  {
    assert s.rows[i] in s.taken;
    var j :| 0 <= j < |s.taken| && s.taken[j] == s.rows[i];
    var n := |s.taken| - 1;
    if j < n { assert Ordered(s.taken[j], s.taken[n]); }
  }

  /**
   Every session has at most one row if and only if no record that was inserted and left in place is copied
   again and that copy inserted too.
   */
  lemma {:induction false} InsertedOnceIff(states: seq<State>, steps: seq<Step>, i: nat)
    requires IsRun(states, steps) && i < |states|
    ensures Strict(states[i].rows) <==> !InsertedTwice(states, steps, i)
  {
    if i > 0 {
      InsertedOnceIff(states, steps, i - 1);
      RowsChange(states, steps, i - 1);
      if Inserts(states, steps, i - 1) { InsertIsNew(states, steps, i - 1); }
    }
  }

  /** Threads that close apart never meet the gap, and leave no inserted record open but halfway through a finish. */
  lemma ApartIsEnough(states: seq<State>, steps: seq<Step>, i: nat)
    requires IsRun(states, steps) && Apart(states) && i < |states|
    ensures !CopiesInGap(states, steps, i) && !InsertedTwice(states, steps, i)
    ensures Strict(states[i].taken) && Strict(states[i].rows)
    ensures SavedOpen(states, steps, i) ==> PastSnapshot(states[i].watch) || PastSnapshot(states[i].gui)
  {
    RunKeepsOnce(states, steps, i);
    CopiedOnceIff(states, steps, i);
    InsertedOnceIff(states, steps, i);
    if SavedOpen(states, steps, i) {
      HasRowIff(states, steps, i);
      RunKeepsInv(states, steps, i);
    }
  }

  /** A run goes on with any enabled step. */
  lemma Extend(states: seq<State>, steps: seq<Step>, step: Step) returns (longer: seq<State>, more: seq<Step>)
    requires IsRun(states, steps) && MinimumIsPositive(steps)
    requires Enabled(states[|steps|], step) && (step.Advance? ==> 1 <= step.minDuration)
    ensures IsRun(longer, more) && MinimumIsPositive(more) && states <= longer && more == steps + [step]
    ensures longer[|more|] == Next(states[|steps|], step)
  {
    longer, more := states + [Next(states[|steps|], step)], steps + [step];
  }

  /** One more section of a thread whose record is kept. */
  lemma Go(states: seq<State>, steps: seq<Step>, t: Thread) returns (longer: seq<State>, more: seq<Step>)
    requires IsRun(states, steps) && MinimumIsPositive(steps) && !PcOf(states[|steps|], t).Idle?
    ensures IsRun(longer, more) && MinimumIsPositive(more) && states <= longer
    ensures more == steps + [Advance(t, true, 1)]
    ensures longer[|more|] == Advanced(states[|steps|], t, true, 1)
  {
    longer, more := Extend(states, steps, Advance(t, true, 1));
  }

  /** The watch thread has finished the session begun at 1, and has yet to open the next one. */
  lemma WatchHasFinished() returns (states: seq<State>, steps: seq<Step>)
    ensures IsRun(states, steps) && MinimumIsPositive(steps)
    ensures var a, b := Window("a.exe", "A"), Window("b.exe", "B");
            var c := Snap(a, 1, 6, 1);
            states[|steps|]
            == State(6, Shared(a, Record(a, 1, 1), false, false, 1), Done(Reopen(b)), Idle, [c], [c])
  {
    var a, b := Window("a.exe", "A"), Window("b.exe", "B");
    states, steps := [Start(1)], [];
    states, steps := Extend(states, steps, Look(a));
    states, steps := Go(states, steps, Watch);
    states, steps := Extend(states, steps, Tick(5));
    states, steps := Extend(states, steps, Look(b));
    states, steps := Go(states, steps, Watch);
    states, steps := Go(states, steps, Watch);
    states, steps := Go(states, steps, Watch);
    states, steps := Go(states, steps, Watch);
  }

  /**
   Without that condition it fails: a suspend between the watch thread's finish and its reopening copies
   the same session again.  Two rows, one start time, so the cloud still keeps a single row.
   */
  lemma SuspendCanCopyTwice() returns (states: seq<State>, steps: seq<Step>)
    ensures IsRun(states, steps) && MinimumIsPositive(steps)
    ensures states[|steps|].watch.Idle? && states[|steps|].gui.Idle? && states[|steps|].clock == 10
    ensures states[|steps|].rows == [Snap(Window("a.exe", "A"), 1, 6, 1), Snap(Window("a.exe", "A"), 1, 10, 1)]
  {
    states, steps := WatchHasFinished();
    states, steps := Extend(states, steps, Suspend);
    states, steps := Go(states, steps, Watch);
    states, steps := Extend(states, steps, Tick(4));
    states, steps := Go(states, steps, Gui);
    states, steps := Go(states, steps, Gui);
    states, steps := Go(states, steps, Gui);
    states, steps := Go(states, steps, Gui);
    states, steps := Go(states, steps, Gui);
  }
}
