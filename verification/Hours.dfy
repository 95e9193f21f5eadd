/**
 Time aggregation for one application (`AppDetails` in
 apps/dashboard-web/backend/internal/localdb/localdb.go): hour buckets, day totals and session figures.

 The time zone is a fixed offset from UTC; times are seconds.
 */
module Hours {
  import opened Numbers
  import opened Sets

  const HOUR := 3600
  const DAY := 86400

  /** A row of the query; its end is not used. */
  datatype Activity = Activity(title: string, duration: int, start: int)

  /** The zone's offset and the day asked for. */
  datatype Zone = Zone(offset: int, dayStart: int, dayEnd: int) {
    /** The day starts at local midnight and is at most one day long. */
    predicate Valid() {
      (dayStart + offset) % DAY == 0 && dayStart <= dayEnd <= dayStart + DAY
    }

    function WeekStart(): int { dayStart - 6 * DAY }

    function HourOf(t: int): int { ((t + offset) / HOUR) % 24 }

    /** The full hour after `t`. */
    function NextHour(t: int): int { ((t + offset) / HOUR + 1) * HOUR - offset }

    /** The calendar day of `t`, as a day number. */
    function DateOf(t: int): int { (t + offset) / DAY }

    function HourLo(h: int): int { dayStart + h * HOUR }

    function HourHi(h: int): int { Min(HourLo(h + 1), dayEnd) }
  }

  /** The length that [a, b) and [lo, hi) have in common. */
  function Overlap(a: int, b: int, lo: int, hi: int): int { Max(0, Min(b, hi) - Max(a, lo)) }

  function Sum(rows: seq<Activity>, f: Activity -> int): int {
    if rows == [] then 0 else Sum(rows[..|rows| - 1], f) + f(rows[|rows| - 1])
  }

  function Total(s: seq<int>): int {
    if s == [] then 0 else Total(s[..|s| - 1]) + s[|s| - 1]
  }

  // ---------------------------------------------------------------------------------------------
  // What each figure means
  // ---------------------------------------------------------------------------------------------

  /** The seconds of a row between two times; a row that lasts no time has none. */
  function Within(lo: int, hi: int): Activity -> int {
    (a: Activity) => if a.duration <= 0 then 0 else Overlap(a.start, a.start + a.duration, lo, hi)
  }

  /** The duration of a row that begins between two times. */
  function Begun(lo: int, hi: int): Activity -> int {
    (a: Activity) => if a.duration > 0 && lo <= a.start < hi then a.duration else 0
  }

  /** The rows the query returns: of the last seven days, newest first. */
  ghost predicate Queried(z: Zone, rows: seq<Activity>) {
    && (forall i :: 0 <= i < |rows| ==> z.WeekStart() <= rows[i].start < z.dayEnd)
    && forall i, j :: 0 <= i < j < |rows| ==> rows[j].start <= rows[i].start
  }

  predicate IsSession(z: Zone, a: Activity) { a.duration > 0 && a.start >= z.dayStart }

  function Sessions(z: Zone, rows: seq<Activity>): (s: seq<Activity>)
    ensures forall i :: 0 <= i < |s| ==> IsSession(z, s[i])
  {
    if rows == [] then []
    else
      var last := rows[|rows| - 1];
      var before := Sessions(z, rows[..|rows| - 1]);
      if IsSession(z, last) then before + [last] else before
  }

  /** The seconds of a row in one window. */
  function OfTitle(title: string): Activity -> int {
    (a: Activity) => if a.title == title then a.duration else 0
  }

  /** The totals hold the titles of the sessions, but for the empty one, each with its seconds. */
  ghost predicate TitlesCount(sessions: seq<Activity>, totals: map<string, int>) {
    forall title ::
      && (title in totals <==> title != "" && 0 < Sum(sessions, OfTitle(title)))
      && (title in totals ==> totals[title] == Sum(sessions, OfTitle(title)))
  }

  datatype WindowUsage = WindowUsage(title: string, total: int)

  datatype Details = Details(today: int, yesterday: int, week: int, sessionCount: nat, average: int, longest: int,
                             hourly: seq<int>, daily: seq<int>, recent: seq<Activity>, windows: seq<WindowUsage>)

  // ---------------------------------------------------------------------------------------------
  // The calendar
  // ---------------------------------------------------------------------------------------------

  lemma HourLaw(z: Zone, t: int)
    requires z.Valid() && z.dayStart <= t < z.dayStart + DAY
    ensures 0 <= z.HourOf(t) < 24 && z.HourLo(z.HourOf(t)) <= t < z.NextHour(t) == z.HourLo(z.HourOf(t) + 1)
  {
    var days, past := (z.dayStart + z.offset) / DAY, t - z.dayStart;
    assert z.dayStart + z.offset == days * DAY;
    assert (t + z.offset) / HOUR == days * 24 + past / HOUR by { DivShift(days * 24, past); }
  }

  lemma DivShift(k: int, past: int)
    ensures (k * HOUR + past) / HOUR == k + past / HOUR
  {
  }

  lemma DateLaw(z: Zone, t: int, i: int)
    requires z.Valid()
    ensures z.DateOf(t) == z.DateOf(z.WeekStart()) + i <==> z.WeekStart() + i * DAY <= t < z.WeekStart() + (i + 1) * DAY
  {
    var w := z.WeekStart() + z.offset;
    assert w == (w / DAY) * DAY by { assert w == z.dayStart + z.offset - 6 * DAY; }
  }

  // ---------------------------------------------------------------------------------------------
  // Splitting a session over the hours
  // ---------------------------------------------------------------------------------------------

  /** What [from, to) has of one hour of the day. */
  function HourShare(z: Zone, from: int, until: int, h: int): int { Overlap(from, until, z.HourLo(h), z.HourHi(h)) }

  function HourPart(z: Zone, h: int): Activity -> int { Within(z.HourLo(h), z.HourHi(h)) }

  /** The inner loop of `AppDetails`: it ends, and gives every hour its share of [from, until). */
  method AddHours(z: Zone, hourly: array<int>, from: int, until: int)
    requires z.Valid() && hourly.Length == 24 && z.dayStart <= from && until <= z.dayEnd
    modifies hourly
    ensures forall h :: 0 <= h < 24 ==> hourly[h] == old(hourly[h]) + HourShare(z, from, until, h)
  {
    var cursor := from;
    assert forall h :: 0 <= h < 24 ==> HourShare(z, from, Min(from, until), h) == 0;
    while cursor < until
      invariant from <= cursor && (cursor <= until || cursor == from)
      invariant forall h :: 0 <= h < 24 ==> hourly[h] == old(hourly[h]) + HourShare(z, from, Min(cursor, until), h)
      decreases until - cursor
    {
      HourLaw(z, cursor);
      var current := z.HourOf(cursor);
      var boundary := z.NextHour(cursor);
      if boundary <= cursor { break; }
      if boundary > until { boundary := until; }
      hourly[current] := hourly[current] + (boundary - cursor);
      forall h | 0 <= h < 24
        ensures HourShare(z, from, boundary, h)
             == HourShare(z, from, cursor, h) + if h == current then boundary - cursor else 0
      {
        assert h < current ==> z.HourLo(h + 1) <= z.HourLo(current);
        assert h > current ==> z.HourLo(current + 1) <= z.HourLo(h);
      }
      cursor := boundary;
    }
  }

  function DayPart(z: Zone, i: int): Activity -> int {
    Begun(z.WeekStart() + i * DAY, z.WeekStart() + (i + 1) * DAY)
  }

  ghost predicate Longest(sessions: seq<Activity>, longest: int) {
    && (forall i :: 0 <= i < |sessions| ==> sessions[i].duration <= longest)
    && (if sessions == [] then longest == 0 else exists i :: 0 <= i < |sessions| && sessions[i].duration == longest)
  }

  lemma LongestPush(sessions: seq<Activity>, longest: int, a: Activity)
    requires Longest(sessions, longest) && a.duration > 0
    ensures Longest(sessions + [a], Max(longest, a.duration))
  {
    var all, m := sessions + [a], |sessions|;
    assert all[m] == a;
    if sessions != [] && a.duration < longest {
      var i :| 0 <= i < m && sessions[i].duration == longest;
      assert all[i].duration == longest;
    }
  }

  lemma {:induction false} TotalZero(s: seq<int>)
    requires forall i :: 0 <= i < |s| ==> s[i] == 0
    ensures Total(s) == 0
  {
    if s != [] { TotalZero(s[..|s| - 1]); }
  }

  lemma {:induction false} AddTotal(s: seq<int>, i: nat, x: int)
    requires i < |s|
    ensures Total(s[i := s[i] + x]) == Total(s) + x
  {
    var n := |s| - 1;
    var t := s[i := s[i] + x];
    if i < n {
      AddTotal(s[..n], i, x);
      assert t[..n] == s[..n][i := s[i] + x];
    } else {
      assert t[..n] == s[..n];
    }
  }

  // ---------------------------------------------------------------------------------------------
  // Totals by window title
  // ---------------------------------------------------------------------------------------------

  const MAX_WINDOWS: nat := 8

  lemma {:induction false} TitleSumIsNotNegative(z: Zone, sessions: seq<Activity>, title: string)
    requires forall i :: 0 <= i < |sessions| ==> IsSession(z, sessions[i])
    ensures 0 <= Sum(sessions, OfTitle(title))
  {
    if sessions != [] { TitleSumIsNotNegative(z, sessions[..|sessions| - 1], title); }
  }

  /** One more session adds its seconds to its own title. */
  lemma TitlesPush(z: Zone, sessions: seq<Activity>, totals: map<string, int>, a: Activity)
    requires (forall i :: 0 <= i < |sessions| ==> IsSession(z, sessions[i])) && IsSession(z, a)
    requires TitlesCount(sessions, totals)
    ensures TitlesCount(sessions + [a], WithTitle(totals, a))
  {
    assert (sessions + [a])[..|sessions|] == sessions;
    forall title ensures 0 <= Sum(sessions, OfTitle(title)) { TitleSumIsNotNegative(z, sessions, title); }
  }

  function WithTitle(totals: map<string, int>, a: Activity): map<string, int> {
    if a.title == "" then totals
    else totals[a.title := (if a.title in totals then totals[a.title] else 0) + a.duration]
  }

  ghost predicate Descending(s: seq<WindowUsage>) {
    forall i, j :: 0 <= i < j < |s| ==> s[j].total <= s[i].total && s[i].title != s[j].title
  }

  function InsertWindow(w: WindowUsage, s: seq<WindowUsage>): (r: seq<WindowUsage>)
    ensures |r| == |s| + 1 && forall x :: x in r <==> x == w || x in s
  {
    if s == [] || s[0].total <= w.total then [w] + s
    else
      var rest := InsertWindow(w, s[1..]);
      assert forall x :: x in s <==> x == s[0] || x in s[1..];
      [s[0]] + rest
  }

  lemma FirstDescends(w: WindowUsage, s: seq<WindowUsage>)
    requires Descending(s) && forall x :: x in s ==> x.total <= w.total && x.title != w.title
    ensures Descending([w] + s)
  {
    assert forall i :: 0 <= i < |s| ==> s[i] in s;
  }

  lemma {:induction false} InsertDescends(w: WindowUsage, s: seq<WindowUsage>)
    requires Descending(s) && forall x :: x in s ==> x.title != w.title
    ensures Descending(InsertWindow(w, s))
  {
    if s == [] || s[0].total <= w.total {
      FirstDescends(w, s);
    } else {
      assert s[0] in s;
      InsertDescends(w, s[1..]);
      FirstDescends(s[0], InsertWindow(w, s[1..]));
    }
  }

  /** The largest totals, largest first: whatever is left out is no larger than what is listed. */
  ghost predicate IsTop(totals: map<string, int>, windows: seq<WindowUsage>) {
    && |windows| == Min(8, |totals|) && Descending(windows)
    && (forall w :: w in windows ==> w.title in totals && totals[w.title] == w.total)
    && forall title, w :: title in totals && w in windows && WindowUsage(title, totals[title]) !in windows ==>
         totals[title] <= w.total
  }

  /** The totals but for those of `left`, largest first. */
  ghost predicate Listed(totals: map<string, int>, left: set<string>, windows: seq<WindowUsage>) {
    && left <= totals.Keys && |windows| == |totals| - |left| && Descending(windows)
    && (forall w :: w in windows ==> w.title in totals && w.title !in left && totals[w.title] == w.total)
    && forall title :: title in totals && title !in left ==> WindowUsage(title, totals[title]) in windows
  }

  lemma ListOne(totals: map<string, int>, left: set<string>, windows: seq<WindowUsage>, title: string)
    requires Listed(totals, left, windows) && title in left
    ensures Listed(totals, left - {title}, InsertWindow(WindowUsage(title, totals[title]), windows))
  {
    var w := WindowUsage(title, totals[title]);
    InsertDescends(w, windows);
    assert |left - {title}| == |left| - 1;
  }

  lemma Kept(all: seq<WindowUsage>, n: nat)
    requires Descending(all) && n <= |all|
    ensures Descending(all[..n]) && forall w :: w in all[..n] ==> w in all
  {
  }

  /** The list of windows: every total, in whatever order the map gives them, sorted and cut. */
  method TopWindows(totals: map<string, int>) returns (windows: seq<WindowUsage>)
    ensures IsTop(totals, windows)
  {
    windows := [];
    var left := totals.Keys;
    while left != {}
      invariant Listed(totals, left, windows)
      decreases |left|
    {
      assert Any<string>(left) in left;
      var title :| title in left;
      ListOne(totals, left, windows, title);
      windows := InsertWindow(WindowUsage(title, totals[title]), windows);
      left := left - {title};
    }
    if |windows| > MAX_WINDOWS {
      windows := windows[..MAX_WINDOWS];
    } else {
      assert windows[..|windows|] == windows;
    }
  }

  // ---------------------------------------------------------------------------------------------
  // The figures after some rows
  // ---------------------------------------------------------------------------------------------

  ghost predicate HoursAre(z: Zone, rows: seq<Activity>, hourly: seq<int>) {
    |hourly| == 24 && forall h :: 0 <= h < 24 ==> hourly[h] == Sum(rows, HourPart(z, h))
  }

  ghost predicate DaysAre(z: Zone, rows: seq<Activity>, daily: seq<int>, week: int, today: int, yesterday: int) {
    && |daily| == 7 && (forall i :: 0 <= i < 7 ==> daily[i] == Sum(rows, DayPart(z, i)))
    && week == Total(daily) && today == daily[6] && yesterday == daily[5]
  }

  ghost predicate SessionsAre(z: Zone, rows: seq<Activity>, count: nat, longest: int, recent: seq<Activity>) {
    && count == |Sessions(z, rows)| && Longest(Sessions(z, rows), longest)
    && recent == Sessions(z, rows)[..Min(20, count)]
  }

  lemma SumPush(rows: seq<Activity>, a: Activity, f: Activity -> int)
    ensures Sum(rows + [a], f) == Sum(rows, f) + f(a)
  {
    assert (rows + [a])[..|rows|] == rows;
  }

  lemma DaysPush(z: Zone, rows: seq<Activity>, a: Activity, daily: seq<int>, week: int, today: int, yesterday: int,
                 index: int)
    requires DaysAre(z, rows, daily, week, today, yesterday) && a.duration > 0 && 0 <= index < 7
    requires forall i :: 0 <= i < 7 ==>
               (z.WeekStart() + i * DAY <= a.start < z.WeekStart() + (i + 1) * DAY <==> i == index)
    ensures DaysAre(z, rows + [a], daily[index := daily[index] + a.duration], week + a.duration,
                    if index == 6 then today + a.duration else today,
                    if index == 5 then yesterday + a.duration else yesterday)
  {
    AddTotal(daily, index, a.duration);
    forall i | 0 <= i < 7
      ensures Sum(rows + [a], DayPart(z, i)) == Sum(rows, DayPart(z, i)) + if i == index then a.duration else 0
    {
      SumPush(rows, a, DayPart(z, i));
    }
  }

  lemma FiguresPush(z: Zone, rows: seq<Activity>, a: Activity, count: nat, longest: int, recent: seq<Activity>)
    requires SessionsAre(z, rows, count, longest, recent) && IsSession(z, a)
    ensures SessionsAre(z, rows + [a], count + 1, Max(longest, a.duration),
                        if |recent| < 20 then recent + [a] else recent)
  {
    LongestPush(Sessions(z, rows), longest, a);
  }

  // ---------------------------------------------------------------------------------------------
  // The figures of one application
  // ---------------------------------------------------------------------------------------------

  /** `AppUsageDetails` while the rows are read; `Counts(rows)` says what it holds after those rows. */
  class AppUsage {
    const z: Zone
    const hourly: array<int>
    const daily: array<int>
    var today: int
    var yesterday: int
    var week: int
    var sessionCount: nat
    var sessionTotal: int
    var longest: int
    var recent: seq<Activity>
    var windowTotals: map<string, int>

    ghost predicate Shape() {
      z.Valid() && hourly.Length == 24 && daily.Length == 7 && hourly != daily
    }

    ghost predicate DaysCount(rows: seq<Activity>)
      reads this`week, this`today, this`yesterday, this`sessionTotal, daily
    {
      DaysAre(z, rows, daily[..], week, today, yesterday) && sessionTotal == today
    }

    ghost predicate SessionsCount(rows: seq<Activity>)
      reads this`sessionCount, this`longest, this`recent, this`windowTotals
    {
      SessionsAre(z, rows, sessionCount, longest, recent) && TitlesCount(Sessions(z, rows), windowTotals)
    }

    ghost predicate Counts(rows: seq<Activity>)
      reads this, hourly, daily
    {
      Shape() && HoursAre(z, rows, hourly[..]) && DaysCount(rows) && SessionsCount(rows)
    }

    constructor (zone: Zone)
      requires zone.Valid()
      ensures Counts([]) && z == zone && fresh(hourly) && fresh(daily)
    {
      z := zone;
      hourly, daily := new int[24](_ => 0), new int[7](_ => 0);
      today, yesterday, week, sessionCount, sessionTotal, longest, recent := 0, 0, 0, 0, 0, 0, [];
      windowTotals := map[];
      new;
      TotalZero(daily[..]);
    }

    method AddToDay(a: Activity, ghost rows: seq<Activity>)
      requires Shape() && a.duration > 0 && z.WeekStart() <= a.start < z.dayEnd && DaysCount(rows)
      modifies this`today, this`yesterday, this`week, this`sessionTotal, daily
      ensures DaysCount(rows + [a])
    {
      var index := z.DateOf(a.start) - z.DateOf(z.WeekStart());
      DaysPush(z, rows, a, daily[..], week, today, yesterday, index);
      ghost var before := daily[..];
      if 0 <= index < 7 {
        daily[index] := daily[index] + a.duration;
        week := week + a.duration;
      }
      assert daily[..] == before[index := before[index] + a.duration];
      if a.start >= z.dayStart {
        today := today + a.duration;
        sessionTotal := sessionTotal + a.duration;
      } else if a.start >= z.dayStart - DAY {
        yesterday := yesterday + a.duration;
      }
    }

    method AddToSessions(a: Activity, ghost rows: seq<Activity>)
      requires a.duration > 0 && SessionsCount(rows)
      modifies this`sessionCount, this`longest, this`recent, this`windowTotals
      ensures SessionsCount(rows + [a])
    {
      if a.start >= z.dayStart {
        FiguresPush(z, rows, a, sessionCount, longest, recent);
        sessionCount := sessionCount + 1;
        if a.duration > longest { longest := a.duration; }
        if |recent| < 20 { recent := recent + [a]; }
        AddToTitles(a, Sessions(z, rows));
      }
    }

    method AddToTitles(a: Activity, ghost sessions: seq<Activity>)
      requires IsSession(z, a) && forall i :: 0 <= i < |sessions| ==> IsSession(z, sessions[i])
      requires TitlesCount(sessions, windowTotals)
      modifies this`windowTotals
      ensures TitlesCount(sessions + [a], windowTotals)
    {
      TitlesPush(z, sessions, windowTotals, a);
      if a.title != "" {
        var before := if a.title in windowTotals then windowTotals[a.title] else 0;
        windowTotals := windowTotals[a.title := before + a.duration];
      }
    }

    method AddToHours(a: Activity, ghost rows: seq<Activity>)
      requires Shape() && a.duration > 0 && HoursAre(z, rows, hourly[..])
      modifies hourly
      ensures HoursAre(z, rows + [a], hourly[..])
    {
      ghost var before := hourly[..];
      var from := if a.start < z.dayStart then z.dayStart else a.start;
      var until := if a.start + a.duration > z.dayEnd then z.dayEnd else a.start + a.duration;
      AddHours(z, hourly, from, until);
    }

    /** One turn of the loop over the rows. */
    method AddActivity(a: Activity, ghost rows: seq<Activity>)
      requires Counts(rows) && z.WeekStart() <= a.start < z.dayEnd
      modifies this, hourly, daily
      ensures Counts(rows + [a])
    {
      if a.duration <= 0 {
        return;
      }
      AddToDay(a, rows);
      AddToSessions(a, rows);
      AddToHours(a, rows);
    }
  }

  /** The loop over the rows of the query. */
  method ReadRows(z: Zone, rows: seq<Activity>) returns (u: AppUsage)
    requires z.Valid() && Queried(z, rows)
    ensures fresh(u) && u.z == z && u.Counts(rows)
  {
    u := new AppUsage(z);
    var n := 0;
    assert rows[..0] == [];
    while n < |rows|
      invariant 0 <= n <= |rows| && u.z == z && u.Counts(rows[..n])
      invariant fresh(u) && fresh(u.hourly) && fresh(u.daily)
    {
      assert rows[..n + 1] == rows[..n] + [rows[n]];
      u.AddActivity(rows[n], rows[..n]);
      n := n + 1;
    }
    assert rows[..n] == rows;
  }

  /** `AppDetails` over the rows of the query. */
  method AppDetails(z: Zone, rows: seq<Activity>) returns (d: Details)
    requires z.Valid() && Queried(z, rows)
    ensures HoursAre(z, rows, d.hourly) && DaysAre(z, rows, d.daily, d.week, d.today, d.yesterday)
    ensures SessionsAre(z, rows, d.sessionCount, d.longest, d.recent)
    ensures exists totals :: TitlesCount(Sessions(z, rows), totals) && IsTop(totals, d.windows)
    ensures IsAverage(d.today, d.sessionCount, d.average)
  {
    var u := ReadRows(z, rows);
    var average := Average(u.sessionTotal, u.sessionCount);
    var windows := TopWindows(u.windowTotals);
    d := Details(u.today, u.yesterday, u.week, u.sessionCount, average, u.longest, u.hourly[..], u.daily[..], u.recent,
                 windows);
  }

  /** The whole seconds of a session on average, 0 without one. */
  ghost predicate IsAverage(total: int, count: nat, average: int) {
    if count == 0 then average == 0 else average * count <= total < (average + 1) * count
  }

  method Average(total: int, count: nat) returns (average: int)
    ensures IsAverage(total, count, average)
  {
    average := if count > 0 then total / count else 0;
  }

  // ---------------------------------------------------------------------------------------------
  // What the figures add up to
  // ---------------------------------------------------------------------------------------------

  /** The seconds of a row, none if it lasts no time. */
  function Lasting(): Activity -> int { (a: Activity) => Max(0, a.duration) }

  lemma {:induction false} FirstDays(z: Zone, rows: seq<Activity>, daily: seq<int>, k: nat)
    requires |daily| == 7 && (forall i :: 0 <= i < 7 ==> daily[i] == Sum(rows, DayPart(z, i))) && k <= 7
    ensures Total(daily[..k]) == Sum(rows, Begun(z.WeekStart(), z.WeekStart() + k * DAY))
  {
    if k == 0 {
      SumZero(rows, Begun(z.WeekStart(), z.WeekStart()));
    } else {
      FirstDays(z, rows, daily, k - 1);
      assert daily[..k][..k - 1] == daily[..k - 1];
      SumAdds(rows, Begun(z.WeekStart(), z.WeekStart() + (k - 1) * DAY), DayPart(z, k - 1),
              Begun(z.WeekStart(), z.WeekStart() + k * DAY));
    }
  }

  lemma {:induction false} SumSame(rows: seq<Activity>, f: Activity -> int, g: Activity -> int)
    requires forall i :: 0 <= i < |rows| ==> f(rows[i]) == g(rows[i])
    ensures Sum(rows, f) == Sum(rows, g)
  {
    if rows != [] { SumSame(rows[..|rows| - 1], f, g); }
  }

  /** The sessions are the rows of the day that last, and they are what today adds up to. */
  lemma {:induction false} SessionsConserve(z: Zone, rows: seq<Activity>)
    ensures forall a :: a in Sessions(z, rows) <==> a in rows && 0 < a.duration && z.dayStart <= a.start
    ensures Sum(Sessions(z, rows), Lasting()) == Sum(rows, From(z.dayStart))
  {
    if rows != [] {
      var n := |rows| - 1;
      SessionsConserve(z, rows[..n]);
      assert rows == rows[..n] + [rows[n]];
      if IsSession(z, rows[n]) { SumPush(Sessions(z, rows[..n]), rows[n], Lasting()); }
    }
  }

  function From(t: int): Activity -> int { (a: Activity) => if t <= a.start then Max(0, a.duration) else 0 }

  /** The week has every second of the rows; today and yesterday those of the rows begun on these days. */
  lemma DaysConserve(z: Zone, rows: seq<Activity>, daily: seq<int>, week: int, today: int, yesterday: int)
    requires z.Valid() && Queried(z, rows) && DaysAre(z, rows, daily, week, today, yesterday)
    ensures week == Sum(rows, Lasting())
    ensures today == Sum(rows, Begun(z.dayStart, z.dayStart + 86400))
    ensures yesterday == Sum(rows, Begun(z.dayStart - 86400, z.dayStart))
  {
    FirstDays(z, rows, daily, 7);
    assert daily[..7] == daily;
    SumSame(rows, Begun(z.WeekStart(), z.WeekStart() + 7 * DAY), Lasting());
  }

  lemma {:induction false} SumAdds(rows: seq<Activity>, f: Activity -> int, g: Activity -> int, both: Activity -> int)
    requires forall i :: 0 <= i < |rows| ==> both(rows[i]) == f(rows[i]) + g(rows[i])
    ensures Sum(rows, both) == Sum(rows, f) + Sum(rows, g)
  {
    if rows != [] { SumAdds(rows[..|rows| - 1], f, g, both); }
  }

  lemma {:induction false} SumZero(rows: seq<Activity>, f: Activity -> int)
    requires forall i :: 0 <= i < |rows| ==> f(rows[i]) == 0
    ensures Sum(rows, f) == 0
  {
    if rows != [] { SumZero(rows[..|rows| - 1], f); }
  }

  /** The first `k` buckets hold exactly what was spent before hour `k`. */
  lemma {:induction false} FirstHours(z: Zone, rows: seq<Activity>, hourly: seq<int>, k: nat)
    requires z.Valid() && HoursAre(z, rows, hourly) && k <= 24
    ensures Total(hourly[..k]) == Sum(rows, Within(z.dayStart, Min(z.HourLo(k), z.dayEnd)))
  {
    if k == 0 {
      SumZero(rows, Within(z.dayStart, Min(z.HourLo(0), z.dayEnd)));
    } else {
      FirstHours(z, rows, hourly, k - 1);
      assert hourly[..k][..k - 1] == hourly[..k - 1];
      var before, part := Within(z.dayStart, Min(z.HourLo(k - 1), z.dayEnd)), HourPart(z, k - 1);
      SumAdds(rows, before, part, Within(z.dayStart, Min(z.HourLo(k), z.dayEnd)));
    }
  }

  /** Conservation: the buckets hold every second of the rows that falls into the day, and no other. */
  lemma HoursConserve(z: Zone, rows: seq<Activity>, hourly: seq<int>)
    requires z.Valid() && HoursAre(z, rows, hourly)
    ensures Total(hourly) == Sum(rows, Within(z.dayStart, z.dayEnd))
  {
    FirstHours(z, rows, hourly, 24);
    assert hourly[..24] == hourly;
  }

  /** Newest first, each row ends before the one above it begins; rows that last no time do not matter. */
  ghost predicate Disjoint(rows: seq<Activity>) {
    forall i, j :: 0 <= i < j < |rows| && rows[i].duration > 0 && rows[j].duration > 0 ==>
      rows[j].start + rows[j].duration <= rows[i].start
  }

  /** Disjoint rows fit into any stretch of time. */
  lemma {:induction false} DisjointFits(rows: seq<Activity>, lo: int, hi: int)
    requires Disjoint(rows) && lo <= hi
    ensures 0 <= Sum(rows, Within(lo, hi)) <= hi - lo
  {
    if rows != [] {
      var n := |rows| - 1;
      var last := rows[n];
      if last.duration <= 0 || last.start + last.duration <= lo {
        DisjointFits(rows[..n], lo, hi);
      } else {
        var from := Min(last.start + last.duration, hi);
        DisjointFits(rows[..n], from, hi);
        Later(rows[..n], lo, from, hi);
      }
    }
  }

  /** Rows that begin at or after `from`, or at or after `hi`, have nothing before it. */
  lemma {:induction false} Later(rows: seq<Activity>, lo: int, from: int, hi: int)
    requires lo <= from <= hi && forall i :: 0 <= i < |rows| && rows[i].duration > 0 ==> from <= rows[i].start
    ensures Sum(rows, Within(lo, hi)) == Sum(rows, Within(from, hi))
  {
    if rows != [] { Later(rows[..|rows| - 1], lo, from, hi); }
  }

  /** Disjoint rows keep every bucket within its hour. */
  lemma BucketsFit(z: Zone, rows: seq<Activity>, h: nat)
    requires z.Valid() && Disjoint(rows) && h < 24
    ensures 0 <= Sum(rows, HourPart(z, h)) <= HOUR
  {
    if z.HourLo(h) <= z.HourHi(h) {
      DisjointFits(rows, z.HourLo(h), z.HourHi(h));
    } else {
      SumZero(rows, HourPart(z, h));
    }
  }
}
