/**
 The app limits of this machine and their cache (src/agent/shared/applimits.cpp): a line-based file, the
 memory copy, and the account both belong to.

 The first line of a file is "user=" and the account.  Each further line holds a process name, its daily
 limit and whether it is blocked, with tabs between.  Loading skips a line without two tabs or without a
 name, and takes at most 64.

 `FileText` prints a cache and `LoadFile` reads one.  The class does both step by step; the runs at the end
 add fetches, failures, restarts and changes of account.
 */
module Limits {
  import opened Decimal
  import opened JsonText
  import opened Numbers

  /** A limit in seconds; negative means none. */
  datatype AppLimit = AppLimit(id: int, process: string, dailyLimit: int, blocked: bool)

  const MAX_LIMITS: nat := 64
  const MAX_LIMIT_PROCESS: nat := 260

  datatype Cache = Cache(user: string, limits: seq<AppLimit>)

  const EMPTY := Cache("", [])

  // ---------------------------------------------------------------------------------------------
  // Printing
  // ---------------------------------------------------------------------------------------------

  function Parts(name: string, daily: string, flag: string): string {
    name + ("\t" + (daily + ("\t" + flag)))
  }

  function Flag(blocked: bool): string { if blocked then "1" else "0" }

  function LineText(l: AppLimit): string { Parts(l.process, Print(l.dailyLimit), Flag(l.blocked)) }

  function Lines(limits: seq<AppLimit>): string {
    if limits == [] then "" else LineText(limits[0]) + ("\n" + Lines(limits[1..]))
  }

  function FileText(c: Cache): string { "user=" + c.user + ("\n" + Lines(c.limits)) }

  // ---------------------------------------------------------------------------------------------
  // Loading
  // ---------------------------------------------------------------------------------------------

  function IndexOf(t: string, c: char): (i: nat)
    ensures i <= |t| && (i < |t| ==> t[i] == c)
    ensures forall k :: 0 <= k < i ==> t[k] != c
  {
    if t == "" || t[0] == c then 0 else 1 + IndexOf(t[1..], c)
  }

  function WithoutReturn(line: string): string {
    if line != "" && line[|line| - 1] == '\r' then line[..|line| - 1] else line
  }

  function Fitted(name: string): string {
    if |CString(name)| < MAX_LIMIT_PROCESS then CString(name) else CString(name)[..MAX_LIMIT_PROCESS - 1]
  }

  /** The three fields of a line, cut at its first two tabs. */
  function Fields(line: string): Option<(string, string, string)> {
    var t1 := IndexOf(line, '\t');
    if t1 == |line| then None
    else
      var rest := line[t1 + 1..];
      var t2 := IndexOf(rest, '\t');
      if t2 == |rest| then None else Some((line[..t1], rest[..t2], rest[t2 + 1..]))
  }

  /** What a line that is not the account's adds. */
  function AddLimit(c: Cache, fields: Option<(string, string, string)>): Cache {
    match fields
    case None => c
    case Some((name, daily, flag)) =>
      if name == "" || |c.limits| >= MAX_LIMITS then c
      else c.(limits := c.limits + [AppLimit(0, Fitted(name), Atoi(daily), Atoi(flag) != 0)])
  }

  /** One turn of the loading loop. */
  function LoadLine(c: Cache, raw: string): Cache {
    var line := WithoutReturn(raw);
    if "user=" <= line then c.(user := line[5..]) else AddLimit(c, Fields(line))
  }

  function AfterLine(t: string): string {
    var n := IndexOf(t, '\n');
    if n < |t| then t[n + 1..] else ""
  }

  function Load(c: Cache, t: string): Cache
    decreases |t|
  {
    if t == "" then c else Load(LoadLine(c, t[..IndexOf(t, '\n')]), AfterLine(t))
  }

  function LoadFile(disk: Option<string>): Cache {
    if disk.Some? then Load(EMPTY, disk.value) else EMPTY
  }

  // ---------------------------------------------------------------------------------------------
  // Loading what was saved
  // ---------------------------------------------------------------------------------------------

  /** What the C struct can hold at all: no NUL, and room for the terminator. */
  predicate InBuffer(c: Cache) {
    && NUL !in c.user
    && forall i :: 0 <= i < |c.limits| ==> IsHeld(c.limits[i].process)
  }

  predicate IsHeld(name: string) { NUL !in name && |name| < MAX_LIMIT_PROCESS }

  predicate GoodName(name: string) {
    name != "" && '\t' !in name && '\n' !in name && !("user=" <= name)
  }

  predicate Fits(l: AppLimit) { IsHeld(l.process) && GoodName(l.process) }

  /** The condition under which the file is faithful. */
  predicate Loadable(c: Cache) {
    && '\n' !in c.user && WithoutReturn(c.user) == c.user
    && |c.limits| <= MAX_LIMITS
    && forall i :: 0 <= i < |c.limits| ==> GoodName(c.limits[i].process)
  }

  /** The limits without their server ids, which the file does not hold. */
  function Strip(limits: seq<AppLimit>): (s: seq<AppLimit>)
    ensures |s| == |limits| && forall i :: 0 <= i < |s| ==> s[i] == limits[i].(id := 0)
  {
    seq(|limits|, i requires 0 <= i < |limits| => limits[i].(id := 0))
  }

  lemma IndexIs(a: string, c: char, b: string)
    requires c !in a
    ensures IndexOf(a + ([c] + b), c) == |a|
    ensures (a + ([c] + b))[..|a|] == a && (a + ([c] + b))[|a| + 1..] == b
  {
    var t := a + ([c] + b);
    assert t[|a|] == c;
    forall k | 0 <= k < |a| ensures t[k] != c { assert t[k] == a[k] && a[k] in a; }
  }

  lemma FieldsOf(name: string, daily: string, flag: string)
    requires '\t' !in name && '\t' !in daily
    ensures Fields(name + (['\t'] + (daily + (['\t'] + flag)))) == Some((name, daily, flag))
  {
    IndexIs(name, '\t', daily + (['\t'] + flag));
    IndexIs(daily, '\t', flag);
  }

  lemma FlagReads(blocked: bool)
    ensures (Atoi(Flag(blocked)) != 0) <==> blocked
  {
    assert "1"[1..] == [] && "0"[1..] == [];
  }

  /** A prefix without tabs is a prefix of what stands before the tab. */
  lemma PrefixBefore(p: string, a: string, b: string)
    requires '\t' !in p && b != "" && b[0] == '\t' && !(p <= a)
    ensures !(p <= a + b)
  {
    assert (a + b)[|a|] == '\t';
    assert forall k :: 0 <= k < |a| ==> (a + b)[k] == a[k];
  }

  predicate EndsWell(s: string) { s != "" && s[|s| - 1] != '\r' }

  lemma PartsEndWell(name: string, daily: string, flag: string)
    requires EndsWell(flag)
    ensures WithoutReturn(Parts(name, daily, flag)) == Parts(name, daily, flag)
  {
  }

  lemma PartsAreNoUser(name: string, daily: string, flag: string)
    requires !("user=" <= name)
    ensures !("user=" <= Parts(name, daily, flag))
  {
    PrefixBefore("user=", name, "\t" + (daily + ("\t" + flag)));
  }

  lemma PartsAreFields(name: string, daily: string, flag: string)
    requires '\t' !in name && '\t' !in daily
    ensures Fields(Parts(name, daily, flag)) == Some((name, daily, flag))
  {
    assert "\t" == ['\t'];
    FieldsOf(name, daily, flag);
  }

  /** A printed line loads as the limit it was printed from. */
  lemma LineLoads(c: Cache, l: AppLimit)
    requires Fits(l) && |c.limits| < MAX_LIMITS
    ensures LoadLine(c, LineText(l)) == c.(limits := c.limits + [l.(id := 0)])
  {
    var daily, flag := Print(l.dailyLimit), Flag(l.blocked);
    AtoiPrint(l.dailyLimit);
    FlagReads(l.blocked);
    PartsEndWell(l.process, daily, flag);
    PartsAreNoUser(l.process, daily, flag);
    PartsAreFields(l.process, daily, flag);
  }

  /** A line of any three fields loads as the limit they stand for; any number but 0 means blocked. */
  lemma AnyLineLoads(c: Cache, name: string, daily: string, flag: string)
    requires '\t' !in name && '\t' !in daily && name != "" && !("user=" <= name)
    requires |c.limits| < 64 && WithoutReturn(Parts(name, daily, flag)) == Parts(name, daily, flag)
    ensures LoadLine(c, name + ("\t" + (daily + ("\t" + flag))))
         == Cache(c.user, c.limits + [AppLimit(0, Fitted(name), Atoi(daily), Atoi(flag) != 0)])
  {
    PartsAreNoUser(name, daily, flag);
    PartsAreFields(name, daily, flag);
  }

  /** A name is cut to 259 bytes, and at a NUL before that. */
  lemma NamesAreCut(name: string)
    ensures Fitted(name) <= CString(name) && |Fitted(name)| == Min(259, |CString(name)|)
  {
  }

  lemma FlagAndNumbers()
    ensures Print(3600) == "3600" && Print(-1) == "-1"
  {
    assert Digits(3600) == "3600" by { assert Digits(36) == "36"; assert Digits(360) == "360"; }
  }

  lemma TwoLines(user: string, a: AppLimit, b: AppLimit, la: string, lb: string)
    requires LineText(a) == la && LineText(b) == lb
    ensures FileText(Cache(user, [a, b])) == "user=" + user + ("\n" + (la + ("\n" + (lb + "\n"))))
  {
    assert [a, b][1..] == [b] && [b][1..] == [];
    assert Lines([b]) == lb + ("\n" + Lines([])) && "\n" + "" == "\n";
  }

  lemma LinesOfLimits()
    ensures LineText(AppLimit(7, "a.exe", 3600, true)) == "a.exe\t3600\t1"
    ensures LineText(AppLimit(8, "b.exe", -1, false)) == "b.exe\t-1\t0"
  {
    FlagAndNumbers();
  }

  /** A cache file, line by line. */
  lemma FileOfACache()
    ensures FileText(Cache("u1", [AppLimit(7, "a.exe", 3600, true), AppLimit(8, "b.exe", -1, false)]))
         == "user=u1" + ("\n" + ("a.exe\t3600\t1" + ("\n" + ("b.exe\t-1\t0" + "\n"))))
  {
    LinesOfLimits();
    TwoLines("u1", AppLimit(7, "a.exe", 3600, true), AppLimit(8, "b.exe", -1, false), "a.exe\t3600\t1", "b.exe\t-1\t0");
  }

  lemma LoadOneLine(c: Cache, line: string, rest: string)
    requires '\n' !in line
    ensures Load(c, line + ("\n" + rest)) == Load(LoadLine(c, line), rest)
  {
    assert "\n" == ['\n'];
    IndexIs(line, '\n', rest);
  }

  lemma LoadLimit(c: Cache, l: AppLimit, rest: string)
    requires Fits(l) && |c.limits| < MAX_LIMITS
    ensures Load(c, LineText(l) + ("\n" + rest)) == Load(c.(limits := c.limits + [l.(id := 0)]), rest)
  {
    LoadOneLine(c, LineText(l), rest);
    LineLoads(c, l);
  }

  ghost predicate AllFit(limits: seq<AppLimit>) { forall i :: 0 <= i < |limits| ==> Fits(limits[i]) }

  lemma StripFirst(before: seq<AppLimit>, limits: seq<AppLimit>)
    requires limits != []
    ensures before + Strip(limits) == (before + [limits[0].(id := 0)]) + Strip(limits[1..])
  {
  }

  lemma {:induction false} LinesLoad(user: string, before: seq<AppLimit>, limits: seq<AppLimit>)
    requires |before| + |limits| <= MAX_LIMITS && AllFit(limits)
    ensures Load(Cache(user, before), Lines(limits)) == Cache(user, before + Strip(limits))
    decreases |limits|
  {
    if limits == [] {
      assert before + Strip(limits) == before;
    } else {
      var first, rest := limits[0], limits[1..];
      var more := before + [first.(id := 0)];
      LoadLimit(Cache(user, before), first, Lines(rest));
      assert AllFit(rest);
      LinesLoad(user, more, rest);
      StripFirst(before, limits);
    }
  }

  lemma UserLine(user: string)
    ensures LoadLine(EMPTY, "user=" + user) == Cache(WithoutReturn(user), [])
  {
    var line := "user=" + user;
    if user != "" { assert line[|line| - 1] == user[|user| - 1]; }
    assert WithoutReturn(line) == "user=" + WithoutReturn(user);
    assert ("user=" + WithoutReturn(user))[5..] == WithoutReturn(user);
  }

  /** The first line gives the account back, short of one trailing return. */
  lemma UserLoads(c: Cache)
    requires '\n' !in c.user
    ensures Load(EMPTY, FileText(c)) == Load(Cache(WithoutReturn(c.user), []), Lines(c.limits))
  {
    LoadOneLine(EMPTY, "user=" + c.user, Lines(c.limits));
    UserLine(c.user);
  }

  /** What loading can produce at all. */
  predicate Clean(c: Cache) {
    && '\n' !in c.user && |c.limits| <= 64
    && forall i :: 0 <= i < |c.limits| ==> GoodName(c.limits[i].process)
  }

  lemma LineIsClean(c: Cache, raw: string)
    requires Clean(c) && NUL !in raw && '\n' !in raw
    ensures Clean(LoadLine(c, raw))
  {
    var line := WithoutReturn(raw);
    if !("user=" <= line) {
      var fields := Fields(line);
    }
  }

  lemma {:induction false} LoadIsClean(c: Cache, t: string)
    requires Clean(c) && NUL !in t
    ensures Clean(Load(c, t))
    decreases |t|
  {
    if t != "" {
      var line := t[..IndexOf(t, '\n')];
      LineIsClean(c, line);
      LoadIsClean(LoadLine(c, line), AfterLine(t));
    }
  }

  lemma {:induction false} LinesHaveNoNul(limits: seq<AppLimit>)
    requires forall i :: 0 <= i < |limits| ==> NUL !in limits[i].process
    ensures NUL !in Lines(limits)
  {
    if limits != [] {
      LinesHaveNoNul(limits[1..]);
    }
  }

  lemma RestoresLoadable(c: Cache)
    requires InBuffer(c) && Loadable(c)
    ensures Load(EMPTY, FileText(c)) == Cache(c.user, Strip(c.limits))
  {
    UserLoads(c);
    LinesLoad(c.user, [], c.limits);
    assert [] + Strip(c.limits) == Strip(c.limits);
  }

  lemma TextHasNoNul(c: Cache)
    requires InBuffer(c)
    ensures NUL !in FileText(c)
  {
    LinesHaveNoNul(c.limits);
  }

  lemma RestoredIsClean(c: Cache)
    requires InBuffer(c) && Load(EMPTY, FileText(c)) == Cache(c.user, Strip(c.limits))
    ensures Clean(c)
  {
    TextHasNoNul(c);
    LoadIsClean(EMPTY, FileText(c));
  }

  lemma RestoredIsLoadable(c: Cache)
    requires InBuffer(c) && Load(EMPTY, FileText(c)) == Cache(c.user, Strip(c.limits))
    ensures Loadable(c)
  {
    RestoredIsClean(c);
    UserLoads(c);
    LinesLoad(WithoutReturn(c.user), [], c.limits);
  }

  /**
   Loading a saved cache gives it back, ids aside, exactly when the account has no newline and no trailing
   return, there are at most 64 names, and each is non-empty, without tab or newline, and not "user=...".
   */
  lemma RestoresIffLoadable(c: Cache)
    requires InBuffer(c)
    ensures Load(EMPTY, FileText(c)) == Cache(c.user, Strip(c.limits)) <==> Loadable(c)
  {
    if Loadable(c) { RestoresLoadable(c); }
    if Load(EMPTY, FileText(c)) == Cache(c.user, Strip(c.limits)) { RestoredIsLoadable(c); }
  }

  // ---------------------------------------------------------------------------------------------
  // The cache in memory
  // ---------------------------------------------------------------------------------------------

  /** `g_cacheLoaded`, `g_cacheUserId` with `g_cache`, and the file. */
  datatype Node = Node(loaded: bool, cache: Cache, disk: Option<string>)

  /** Before the first use everything is empty. */
  const FRESH := Node(false, EMPTY, None)

  function AfterLoad(n: Node): Node {
    if n.loaded then n else n.(loaded := true, cache := LoadFile(n.disk))
  }

  function AfterFetch(n: Node, fetched: Cache, written: bool): Node {
    var changed := !n.loaded || n.cache != fetched;
    Node(true, fetched, if changed && written then Some(FileText(fetched)) else n.disk)
  }

  function Reading(n: Node, user: string, maxOut: nat): seq<AppLimit> {
    var c := AfterLoad(n).cache;
    if c.user != user then [] else c.limits[..if |c.limits| < maxOut then |c.limits| else maxOut]
  }

  /** The three parts between the first two tabs rejoin to the line. */
  lemma TabsRejoin(line: string, t1: nat, rest: string, t2: nat)
    requires t1 < |line| && line[t1] == '\t' && rest == line[t1 + 1..]
    requires t2 < |rest| && rest[t2] == '\t'
    ensures Parts(line[..t1], rest[..t2], rest[t2 + 1..]) == line
  {
  }

  /** The fields rejoin to the line, and the first two hold no tab. */
  ghost predicate AreFields(line: string, fields: Option<(string, string, string)>) {
    fields.Some? ==>
      '\t' !in fields.value.0 && '\t' !in fields.value.1
      && line == Parts(fields.value.0, fields.value.1, fields.value.2)
  }

  lemma CutAreFields(line: string, t1: nat, rest: string, t2: nat)
    requires t1 < |line| && t1 == IndexOf(line, '\t') && rest == line[t1 + 1..]
    requires t2 < |rest| && t2 == IndexOf(rest, '\t')
    ensures AreFields(line, Some((line[..t1], rest[..t2], rest[t2 + 1..])))
  {
    TabsRejoin(line, t1, rest, t2);
  }

  lemma FieldsCut(line: string, t1: nat, rest: string, t2: nat)
    requires t1 < |line| && t1 == IndexOf(line, '\t') && rest == line[t1 + 1..]
    requires t2 < |rest| && t2 == IndexOf(rest, '\t')
    ensures Fields(line) == Some((line[..t1], rest[..t2], rest[t2 + 1..]))
  {
  }

  lemma FieldsRejoin(line: string)
    ensures AreFields(line, Fields(line))
  {
    var t1 := IndexOf(line, '\t');
    if t1 < |line| {
      var rest := line[t1 + 1..];
      var t2 := IndexOf(rest, '\t');
      if t2 < |rest| {
        CutAreFields(line, t1, rest, t2);
        FieldsCut(line, t1, rest, t2);
      }
    }
  }

  /** No two tabs in the line. */
  ghost predicate OneTab(line: string) {
    forall i, j :: 0 <= i < j < |line| ==> line[i] != '\t' || line[j] != '\t'
  }

  /** There are fields just when the line has two tabs. */
  lemma FieldsNeedTwoTabs(line: string)
    ensures Fields(line) == None <==> OneTab(line)
  {
    var t1 := IndexOf(line, '\t');
    if t1 < |line| {
      var rest := line[t1 + 1..];
      var t2 := IndexOf(rest, '\t');
      if t2 < |rest| {
        assert line[t1] == '\t' && line[t1 + 1 + t2] == rest[t2];
      } else {
        forall i, j | 0 <= i < j < |line| ensures line[i] != '\t' || line[j] != '\t' {
          if t1 < j { assert rest[j - t1 - 1] == line[j]; }
        }
      }
    }
  }

  /** The cut at the first two tabs. */
  method CutLine(line: string) returns (fields: Option<(string, string, string)>)
    ensures fields == Fields(line)
    ensures fields == None <==> OneTab(line)
    ensures AreFields(line, fields)
  {
    FieldsNeedTwoTabs(line);
    FieldsRejoin(line);
    var t1 := IndexOf(line, '\t');
    if t1 == |line| { return None; }
    var rest := line[t1 + 1..];
    var t2 := IndexOf(rest, '\t');
    if t2 == |rest| { return None; }
    fields := Some((line[..t1], rest[..t2], rest[t2 + 1..]));
  }

  method PutLine(out: string, l: AppLimit) returns (r: string)
    ensures r == out + (LineText(l) + "\n")
  {
    var flag := Flag(l.blocked);
    var daily := Print(l.dailyLimit);
    r := out + l.process + "\t" + daily + "\t" + flag + "\n";
    Assoc(out + l.process + "\t" + daily + "\t", flag, "\n");
    Assoc(out + l.process + "\t" + daily, "\t", flag + "\n");
    Assoc(out + l.process + "\t", daily, "\t" + (flag + "\n"));
    Assoc(out + l.process, "\t", daily + ("\t" + (flag + "\n")));
    Assoc(out, l.process, "\t" + (daily + ("\t" + (flag + "\n"))));
    Assoc("\t", flag, "\n");
    Assoc(daily, "\t" + flag, "\n");
    Assoc("\t", daily + ("\t" + flag), "\n");
    Assoc(l.process, "\t" + (daily + ("\t" + flag)), "\n");
  }

  lemma AfterPut(out: string, line: string, rest: string)
    ensures (out + (line + "\n")) + rest == out + (line + ("\n" + rest))
  {
    Assoc(line, "\n", rest);
    Assoc(out, line + "\n", rest);
  }

  class LimitsCache {
    var loaded: bool
    var user: string
    var cache: seq<AppLimit>
    var disk: Option<string>

    function Contents(): Node
      reads this
    {
      Node(loaded, Cache(user, cache), disk)
    }

    constructor (file: Option<string>)
      ensures Contents() == Node(false, EMPTY, file)
    {
      loaded, user, cache, disk := false, "", [], file;
    }

    method SaveCacheToDisk(written: bool)
      modifies this`disk
      ensures disk == if written then Some(FileText(Cache(user, cache))) else old(disk)
    {
      var out := "user=" + user;
      ghost var head := out;
      out := out + "\n";
      Assoc(head, "\n", Lines(cache));
      assert cache[0..] == cache;
      var i := 0;
      while i < |cache|
        invariant 0 <= i <= |cache| && out + Lines(cache[i..]) == FileText(Cache(user, cache))
        invariant disk == old(disk)
      {
        ghost var before := out;
        out := PutLine(out, cache[i]);
        assert cache[i..][1..] == cache[i + 1..];
        AfterPut(before, LineText(cache[i]), Lines(cache[i + 1..]));
        i := i + 1;
      }
      assert out + Lines(cache[i..]) == out;
      if written { disk := Some(out); }
    }

    /** The body of the loading loop. */
    method LoadCacheLine(raw: string)
      modifies this`user, this`cache
      ensures Cache(user, cache) == LoadLine(Cache(old(user), old(cache)), raw)
    {
      var line := raw;
      if line != "" && line[|line| - 1] == '\r' { line := line[..|line| - 1]; }
      if "user=" <= line {
        user := line[5..];
        return;
      }
      var fields := CutLine(line);
      AddFields(fields);
    }

    /** What the loop does with the fields of a line. */
    method AddFields(fields: Option<(string, string, string)>)
      modifies this`cache
      ensures Cache(user, cache) == AddLimit(Cache(user, old(cache)), fields)
    {
      if fields == None || fields.value.0 == "" || |cache| >= MAX_LIMITS { return; }
      var (name, daily, flag) := fields.value;
      cache := cache + [AppLimit(0, Fitted(name), Atoi(daily), Atoi(flag) != 0)];
    }

    method LoadCacheFromDisk()
      modifies this
      ensures Contents() == Node(true, LoadFile(old(disk)), old(disk))
    {
      loaded, user, cache := true, "", [];
      if disk == None { return; }
      var text := disk.value;
      while text != ""
        invariant loaded && disk == old(disk)
        invariant Load(Cache(user, cache), text) == LoadFile(disk)
        decreases |text|
      {
        LoadCacheLine(text[..IndexOf(text, '\n')]);
        text := AfterLine(text);
      }
    }

    /** `applimits_get_my_limits` for the signed-in user. */
    method GetMyLimits(loggedIn: bool, userId: string, maxOut: nat) returns (out: seq<AppLimit>)
      modifies this
      ensures out == if loggedIn then Reading(old(Contents()), userId, maxOut) else []
      ensures Contents() == if loggedIn && 0 < maxOut then AfterLoad(old(Contents())) else old(Contents())
    {
      if maxOut == 0 || !loggedIn { return []; }
      if !loaded { LoadCacheFromDisk(); }
      if user != userId { return []; }
      var n := if |cache| < maxOut then |cache| else maxOut;
      out := cache[..n];
    }

    /** `applimits_refresh_my_limits`: `fetched` is what the server answered, `written` whether the file could be. */
    method RefreshMyLimits(loggedIn: bool, userId: string, fetched: Option<seq<AppLimit>>, written: bool)
      returns (ok: bool)
      modifies this
      ensures ok <==> loggedIn && userId != "" && fetched.Some?
      ensures Contents() == if ok then AfterFetch(old(Contents()), Cache(userId, fetched.value), written)
                            else old(Contents())
    {
      if !loggedIn || userId == "" || fetched.None? { return false; }
      var changed := !loaded || user != userId || |cache| != |fetched.value| || cache != fetched.value;
      loaded, user, cache := true, userId, fetched.value;
      if changed { SaveCacheToDisk(written); }
      return true;
    }
  }

  // ---------------------------------------------------------------------------------------------
  // Whole runs
  // ---------------------------------------------------------------------------------------------

  /** A failed refresh asks and learns nothing; `Reads` may be for any account; a restart forgets the memory. */
  datatype Event = Fetches(fetched: Cache, written: bool) | Fails | Reads(user: string) | Restarts

  function Next(n: Node, e: Event): Node {
    match e
    case Fetches(fetched, written) => AfterFetch(n, fetched, written)
    case Fails => n
    case Reads(_) => AfterLoad(n)
    case Restarts => Node(false, EMPTY, n.disk)
  }

  function Play(events: seq<Event>): Node {
    if events == [] then FRESH else Next(Play(events[..|events| - 1]), events[|events| - 1])
  }

  /** The last successful fetch. */
  function LastFetch(events: seq<Event>): Option<Cache> {
    if events == [] then None
    else
      var e := events[|events| - 1];
      if e.Fetches? then Some(e.fetched) else LastFetch(events[..|events| - 1])
  }

  /** Every fetch is for a real account, within the buffers, faithful on file, and written. */
  predicate Usual(events: seq<Event>) {
    forall i :: 0 <= i < |events| && events[i].Fetches? ==>
      events[i].written && events[i].fetched.user != "" && InBuffer(events[i].fetched) && Loadable(events[i].fetched)
  }

  predicate SameCache(a: Cache, b: Cache) { a.user == b.user && Strip(a.limits) == Strip(b.limits) }

  ghost predicate Remembers(n: Node, last: Option<Cache>) {
    match last
    case None => n.disk == None && (n.loaded ==> n.cache == EMPTY)
    case Some(c) => LoadFile(n.disk) == Cache(c.user, Strip(c.limits)) && (n.loaded ==> SameCache(n.cache, c))
  }

  /** The file is left alone only when it already holds what was fetched. */
  lemma FetchRemembers(n: Node, last: Option<Cache>, fetched: Cache)
    requires Remembers(n, last) && fetched.user != "" && InBuffer(fetched) && Loadable(fetched)
    ensures Remembers(AfterFetch(n, fetched, true), Some(fetched))
  {
    RestoresLoadable(fetched);
  }

  /**
   A fetch is what is read from then on, whether its file could be written or not; after a failed write a restart
   loads the file from before, after a good one the fetch.
   */
  lemma FetchIsRead(n: Node, fetched: Cache, written: bool, maxOut: nat)
    requires InBuffer(fetched) && Loadable(fetched)
    ensures var m := AfterFetch(n, fetched, written);
            && Reading(m, fetched.user, maxOut) == fetched.limits[..Min(|fetched.limits|, maxOut)]
            && (forall user :: user != fetched.user ==> Reading(m, user, maxOut) == [])
            && (!written ==> m.disk == n.disk)
            && (written && (!n.loaded || n.cache != fetched) ==>
                  LoadFile(m.disk) == Cache(fetched.user, Strip(fetched.limits)))
  {
    RestoresLoadable(fetched);
  }

  /** A carriage return at the end of a line is no part of it. */
  lemma ReturnsAreStripped(c: Cache, line: string)
    requires line == "" || line[|line| - 1] != '\r'
    ensures LoadLine(c, line + "\r") == LoadLine(c, line)
  {
    assert (line + "\r")[..|line|] == line;
  }

  lemma {:induction false} PlayRemembers(events: seq<Event>)
    requires Usual(events)
    ensures Remembers(Play(events), LastFetch(events))
  {
    if events != [] {
      var before, e := events[..|events| - 1], events[|events| - 1];
      PlayRemembers(before);
      if e.Fetches? { FetchRemembers(Play(before), LastFetch(before), e.fetched); }
    }
  }

  /**
   Over every run of fetches, failures, reads, restarts and account switches, a read returns a prefix of the
   last successful fetch, ids aside, if that was for the reader's account, and nothing otherwise.
   */
  lemma ReadsTheLastFetch(events: seq<Event>, user: string, maxOut: nat)
    requires Usual(events)
    ensures var out := Reading(Play(events), user, maxOut);
            match LastFetch(events)
            case None => out == []
            case Some(c) =>
              if c.user != user then out == []
              else |out| == (if |c.limits| < maxOut then |c.limits| else maxOut)
                   && forall i :: 0 <= i < |out| ==> out[i].(id := 0) == c.limits[i].(id := 0)
  {
    PlayRemembers(events);
    var c := AfterLoad(Play(events)).cache;
    var last := LastFetch(events);
    if last.Some? {
      assert SameCache(c, last.value);
      forall i | 0 <= i < |c.limits| ensures c.limits[i].(id := 0) == last.value.limits[i].(id := 0) {
        assert Strip(c.limits)[i] == Strip(last.value.limits)[i];
      }
    }
  }

}
