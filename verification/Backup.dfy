/**
 Local backups (src/agent/shared/backup.cpp, `db_export_json` and `db_change_counter` in
 src/agent/shared/database.cpp): when a snapshot may be skipped, and which files pruning keeps.

 A file lists the table row by row; the folder is a map from names to files.  The class makes a snapshot when
 nothing else writes.  The machine at the end lets any statement of any thread run between two rows of an
 export, and still a snapshot is skipped only when the newest file lists the table as it is.
 */
module Backup {
  import opened RecordJson
  import opened Database
  import opened BackupNames
  import opened Sets

  const KEEP_COUNT: nat := 14

  /** One exported row; the retry bookkeeping is not exported. */
  datatype Saved = Saved(record: SyncRecord, synced: bool, createdAt: int)

  function Export(row: Row): Saved { Saved(row.record, row.synced, row.createdAt) }

  /** What a backup file holds. */
  type Content = seq<Saved>

  type Dir = map<string, Content>

  /** The content is the whole table, in the order of ids. */
  ghost predicate Lists(c: Content, rows: Rows) {
    && Increasing(c)
    && (forall i :: 0 <= i < |c| ==> c[i].record.id in rows && c[i] == Export(rows[c[i].record.id]))
    && forall id :: id in rows ==> Has(c, id)
  }

  ghost predicate Increasing(c: Content) {
    forall i, j :: 0 <= i < j < |c| ==> c[i].record.id < c[j].record.id
  }

  ghost predicate Has(c: Content, id: int) { exists i :: 0 <= i < |c| && c[i].record.id == id }

  predicate RowsValid(rows: Rows) { forall id :: id in rows ==> 0 < id && rows[id].record.id == id }

  /** The table a backup stands for: the bookkeeping of the retry queue starts anew. */
  ghost predicate Rebuilds(rows: Rows, c: Content) {
    && (forall id :: id in rows <==> Has(c, id))
    && forall i :: 0 <= i < |c| ==>
         rows[c[i].record.id] == Row(c[i].record, c[i].createdAt, c[i].synced, 0, 0)
  }

  function Forgotten(rows: Rows): Rows {
    map id | id in rows :: Row(rows[id].record, rows[id].createdAt, rows[id].synced, 0, 0)
  }

  /** From a backup exactly the table can be rebuilt, but for how often and until when a row was refused. */
  lemma BackupRebuilds(c: Content, rows: Rows, rebuilt: Rows)
    requires Lists(c, rows)
    ensures Rebuilds(rebuilt, c) <==> rebuilt == Forgotten(rows)
  {
    if Rebuilds(rebuilt, c) {
      forall id | id in rows ensures id in rebuilt && rebuilt[id] == Forgotten(rows)[id] {
        assert Has(c, id);
        var i :| 0 <= i < |c| && c[i].record.id == id;
        assert c[i] == Export(rows[id]);
      }
      forall id | id in rebuilt ensures id in rows { assert Has(c, id); }
      assert rebuilt.Keys == rows.Keys;
    }
  }

  // ---------------------------------------------------------------------------------------------
  // The export cursor
  // ---------------------------------------------------------------------------------------------

  /** The statement's cursor stands at `cursor` and `id` is the next row, in the table as it is now. */
  ghost predicate IsNextRow(rows: Rows, cursor: int, id: int) {
    id in rows && cursor < id && forall other :: other in rows && cursor < other ==> id <= other
  }

  /** The rows up to the cursor have been written. */
  ghost predicate ListsUpTo(c: Content, rows: Rows, cursor: int) {
    && Increasing(c)
    && (forall i :: 0 <= i < |c| ==> c[i].record.id <= cursor)
    && (forall i :: 0 <= i < |c| ==> c[i].record.id in rows && c[i] == Export(rows[c[i].record.id]))
    && forall id :: id in rows && id <= cursor ==> Has(c, id)
  }

  lemma RowIsListed(c: Content, rows: Rows, cursor: int, id: int)
    requires RowsValid(rows) && ListsUpTo(c, rows, cursor) && IsNextRow(rows, cursor, id)
    ensures ListsUpTo(c + [Export(rows[id])], rows, id)
  {
    var c' := c + [Export(rows[id])];
    assert c'[|c|].record.id == id;
    forall other | other in rows && other <= id ensures Has(c', other) {
      if other <= cursor {
        var i :| 0 <= i < |c| && c[i].record.id == other;
        assert c'[i].record.id == other;
      }
    }
  }

  function RowsAfter(rows: Rows, cursor: int): set<int> { set id | id in rows && cursor < id }

  lemma NextIsLeast(rows: Rows, cursor: int, id: int)
    requires IsLeast(RowsAfter(rows, cursor), id)
    ensures IsNextRow(rows, cursor, id)
  {
    forall other | other in rows && cursor < other ensures id <= other {
      assert other in RowsAfter(rows, cursor);
    }
  }

  lemma FewerAfter(rows: Rows, cursor: int, id: int)
    requires id in RowsAfter(rows, cursor)
    ensures |RowsAfter(rows, id)| < |RowsAfter(rows, cursor)|
  {
    Smaller(RowsAfter(rows, id), RowsAfter(rows, cursor), id);
  }

  lemma ListedAll(c: Content, rows: Rows, cursor: int)
    requires ListsUpTo(c, rows, cursor) && RowsAfter(rows, cursor) == {}
    ensures Lists(c, rows)
  {
    forall id | id in rows ensures id <= cursor {
      assert id !in RowsAfter(rows, cursor);
    }
  }

  // ---------------------------------------------------------------------------------------------
  // Pruning
  // ---------------------------------------------------------------------------------------------

  predicate EndsWith(s: string, suffix: string) {
    |suffix| <= |s| && s[|s| - |suffix|..] == suffix
  }

  predicate IsBackup(name: string) { "backup_" <= name && EndsWith(name, ".json") }

  /** What stands between the two parts of a backup's name is its own. */
  lemma BackupsAreNamed(name: string)
    ensures IsBackup(name) <==> exists mid :: name == "backup_" + (mid + ".json")
  {
    if IsBackup(name) {
      NoOverlap(name);
      var mid := name[7..|name| - 5];
      assert name == "backup_" + (mid + ".json");
    }
  }

  lemma NoOverlap(name: string)
    requires IsBackup(name)
    ensures 12 <= |name|
  {
    var tail := name[|name| - 5..];
    assert tail[0] == '.' && tail[0] == name[|name| - 5];
    assert forall i :: 0 <= i < 7 ==> name[i] == "backup_"[i] && "backup_"[i] != '.';
  }

  function Backups(dir: Dir): set<string> { set name | name in dir && IsBackup(name) }

  /**
   Pruning keeps the last 14 backups by name, and every other file.
   */
  ghost predicate PrunedTo(before: Dir, after: Dir) {
    && (forall name :: name in after ==> name in before && after[name] == before[name])
    && (forall name :: name in before && !IsBackup(name) ==> name in after)
    && |Backups(after)| == (if |Backups(before)| < 14 then |Backups(before)| else 14)
    && forall a, b :: a in before && a !in after && b in after && IsBackup(b) ==> Less(a, b)
  }

  ghost predicate Sorted(names: seq<string>) {
    forall i, j :: 0 <= i < j < |names| ==> Less(names[i], names[j])
  }

  function Insert(name: string, names: seq<string>): (r: seq<string>)
    ensures |r| == |names| + 1 && Elements(r) == Elements(names) + {name}
  {
    if names == [] || !Less(names[0], name) then
      var r := [name] + names;
      assert forall n :: n in r <==> n == name || n in names;
      r
    else
      var rest := Insert(name, names[1..]);
      var r := [names[0]] + rest;
      assert forall n :: n in rest <==> n in Elements(rest);
      assert forall n :: n in names <==> n == names[0] || n in names[1..];
      assert forall n :: n in Elements(names[1..]) <==> n in names[1..];
      r
  }

  lemma {:induction false} InsertSorts(name: string, names: seq<string>)
    requires Sorted(names) && name !in names
    ensures Sorted(Insert(name, names))
  {
    if names == [] {
    } else if Less(names[0], name) {
      var rest := Insert(name, names[1..]);
      InsertSorts(name, names[1..]);
      forall j | 0 <= j < |rest| ensures Less(names[0], rest[j]) {
        assert rest[j] in Elements(rest);
        if rest[j] != name { assert rest[j] in names[1..]; }
      }
    } else {
      LessIsOrder(name, names[0]);
      assert names[0] in names;
      forall j | 0 <= j < |names| ensures Less(name, names[j]) {
        if j > 0 { LessTransitive(name, names[0], names[j]); }
      }
    }
  }

  /** The backup files and the counter of the last backup; -1 before the first. */
  class BackupFolder {
    var dir: Dir
    var lastBackupChanges: int

    constructor (files: Dir)
      ensures dir == files && lastBackupChanges == -1
    {
      dir, lastBackupChanges := files, -1;
    }

    /** Lists the folder in whatever order, sorted afterwards. */
    method ListSorted() returns (files: seq<string>)
      ensures Sorted(files) && Elements(files) == Backups(dir) && |files| == |Backups(dir)|
    {
      files := [];
      var left := Backups(dir);
      while left != {}
        invariant left <= Backups(dir) && Elements(files) == Backups(dir) - left
        invariant Sorted(files) && |files| == |Backups(dir)| - |left|
        decreases |left|
      {
        assert Any<string>(left) in left;
        var name :| name in left;
        assert name !in Elements(files);
        InsertSorts(name, files);
        files := Insert(name, files);
        left := left - {name};
      }
    }

    method CleanupOldBackups()
      modifies this`dir
      ensures PrunedTo(old(dir), dir)
    {
      var files := ListSorted();
      var toDelete := |files| - KEEP_COUNT;
      var i := 0;
      while i < toDelete
        invariant 0 <= i && (i <= toDelete || i == 0)
        invariant dir == old(dir) - Elements(files[..i])
      {
        dir := dir - {files[i]};
        assert Elements(files[..i + 1]) == Elements(files[..i]) + {files[i]};
        i := i + 1;
      }
      LastFilesRemain(old(dir), dir, files, i);
    }

    /** `db_export_json` while no other thread writes: the rows in the order of ids. */
    method ExportRows(db: ActivityDb) returns (out: Content)
      requires db.Valid()
      ensures Lists(out, db.rows)
    {
      out := [];
      var cursor := 0;
      var left := RowsAfter(db.rows, cursor);
      while left != {}
        invariant ListsUpTo(out, db.rows, cursor) && 0 <= cursor
        invariant left == RowsAfter(db.rows, cursor)
        decreases |left|
      {
        var id := Smallest(left);
        assert IsNextRow(db.rows, cursor, id) by { NextIsLeast(db.rows, cursor, id); }
        RowIsListed(out, db.rows, cursor, id);
        out := out + [Export(db.rows[id])];
        FewerAfter(db.rows, cursor, id);
        cursor := id;
        left := RowsAfter(db.rows, cursor);
      }
      ListedAll(out, db.rows, cursor);
    }

    /** `backup_create_snapshot` while no other thread writes; `written` is whether the file could be. */
    method CreateSnapshot(db: ActivityDb, now: Stamp, written: bool) returns (ok: bool)
      requires db.Valid()
      modifies this
      ensures var skip := 0 <= old(lastBackupChanges) && db.changes == old(lastBackupChanges);
              && ok == (skip || written)
              && (skip || !ok ==> dir == old(dir) && lastBackupChanges == old(lastBackupChanges))
              && (!skip && ok ==> lastBackupChanges == db.changes && exists out: Content ::
                    Lists(out, db.rows) && PrunedTo(old(dir)[FileName(now) := out], dir))
    {
      var changes := db.changes;
      if lastBackupChanges >= 0 && changes == lastBackupChanges { return true; }
      var out := ExportRows(db);
      if !written { return false; }
      dir := dir[FileName(now) := out];
      lastBackupChanges := changes;
      CleanupOldBackups();
      ok := true;
    }
  }

  predicate IsLeast(ids: set<int>, m: int) { m in ids && forall i :: i in ids ==> m <= i }

  method Smallest(ids: set<int>) returns (m: int)
    requires ids != {}
    ensures IsLeast(ids, m)
  {
    ghost var some: int := Any(ids);
    assert some in ids;
    m :| m in ids;
    var left := ids - {m};
    while left != {}
      invariant left <= ids && IsLeast(ids - left, m)
      decreases |left|
    {
      ghost var other: int := Any(left);
      assert other in left;
      var x :| x in left;
      assert ids - (left - {x}) == (ids - left) + {x};
      if x < m { m := x; }
      left := left - {x};
    }
    assert ids - left == ids;
  }

  lemma DistinctCount(names: seq<string>)
    requires Sorted(names)
    ensures |Elements(names)| == |names|
  {
    forall i, j | 0 <= i < j < |names| ensures names[i] != names[j] { LessIsOrder(names[i], names[i]); }
    ElementsCount(names);
  }

  /** What stands before a place in a sorted list is smaller than what stands behind it. */
  lemma SortedParts(files: seq<string>, n: nat)
    requires Sorted(files) && n <= |files|
    ensures Elements(files) == Elements(files[..n]) + Elements(files[n..])
    ensures forall a, b :: a in Elements(files[..n]) && b in Elements(files[n..]) ==> Less(a, b)
    ensures Elements(files[..n]) !! Elements(files[n..])
  {
    assert files == files[..n] + files[n..];
    forall a, b | a in Elements(files[..n]) && b in Elements(files[n..]) ensures Less(a, b) && a != b {
      var i :| 0 <= i < n && files[i] == a;
      var j :| 0 <= j < |files| - n && files[n..][j] == b;
      assert files[n + j] == b;
      LessIsOrder(a, a);
    }
  }

  lemma RestOfBackups(before: Dir, after: Dir, files: seq<string>, n: nat)
    requires Sorted(files) && Elements(files) == Backups(before) && n <= |files|
    requires after == before - Elements(files[..n])
    ensures Backups(after) == Elements(files[n..])
  {
    SortedParts(files, n);
  }

  /** Deleting the first files of the sorted list leaves the last ones. */
  lemma LastFilesRemain(before: Dir, after: Dir, files: seq<string>, n: nat)
    requires Sorted(files) && Elements(files) == Backups(before)
    requires n == (if |files| < KEEP_COUNT then 0 else |files| - KEEP_COUNT)
    requires after == before - Elements(files[..n])
    ensures PrunedTo(before, after)
  {
    SortedParts(files, n);
    RestOfBackups(before, after, files, n);
    DistinctCount(files[n..]);
    DistinctCount(files);
    forall a, b | a in before && a !in after && b in after && IsBackup(b) ensures Less(a, b) {
      assert a in Elements(files[..n]) && b in Backups(after);
    }
  }

  // ---------------------------------------------------------------------------------------------
  // Snapshots that race with the other threads
  // ---------------------------------------------------------------------------------------------

  datatype Phase = Idle | Exporting(changes: nat, now: Stamp, cursor: int, out: Content)

  /** The table with its change counter, the folder, and the time stamp of the newest backup in it. */
  datatype State = State(rows: Rows, changes: nat, last: int, dir: Dir, newest: Stamp, phase: Phase)

  /**
   `Writes` is any statement of any thread; `Begins` reads the counter; `Copies` writes the next row;
   `Ends` renames the finished file, or fails.
   */
  datatype Step = Writes(after: Rows, count: nat) | Skips | Begins(now: Stamp) | Copies(id: int) | Ends(ok: bool)

  predicate MaySkip(s: State) { 0 <= s.last && s.changes == s.last }

  ghost predicate StepTo(s: State, step: Step, s': State) {
    match step
    case Writes(after, count) =>
      RowsValid(after) && (after != s.rows ==> 0 < count) && s' == s.(rows := after, changes := s.changes + count)
    case Skips => s.phase.Idle? && MaySkip(s) && s' == s
    case Begins(now) =>
      && s.phase.Idle? && !MaySkip(s) && now.Valid() && !Earlier(now, s.newest)
      && s' == s.(phase := Exporting(s.changes, now, 0, []))
    case Copies(id) =>
      && s.phase.Exporting? && IsNextRow(s.rows, s.phase.cursor, id)
      && s' == s.(phase := s.phase.(cursor := id, out := s.phase.out + [Export(s.rows[id])]))
    case Ends(ok) =>
      && s.phase.Exporting? && (forall id :: id in s.rows ==> id <= s.phase.cursor)
      && if !ok then s' == s.(phase := Idle)
         else PrunedTo(s.dir[FileName(s.phase.now) := s.phase.out], s'.dir)
              && s' == s.(phase := Idle, last := s.phase.changes, newest := s.phase.now, dir := s'.dir)
  }

  /** Every backup's name is at most the newest one's. */
  ghost predicate UpTo(dir: Dir, newest: Stamp) {
    forall name :: name in dir && IsBackup(name) ==> name == FileName(newest) || Less(name, FileName(newest))
  }

  ghost predicate IsRun(states: seq<State>, steps: seq<Step>) {
    && |states| == |steps| + 1
    && states[0].phase.Idle? && states[0].last == -1 && RowsValid(states[0].rows)
    && states[0].newest.Valid() && UpTo(states[0].dir, states[0].newest)
    && forall i :: 0 <= i < |steps| ==> StepTo(states[i], steps[i], states[i + 1])
  }

  ghost predicate Inv(s: State) {
    && RowsValid(s.rows) && s.newest.Valid() && UpTo(s.dir, s.newest) && s.last <= s.changes
    && (0 <= s.last ==> FileName(s.newest) in s.dir)
    && (MaySkip(s) ==> Lists(s.dir[FileName(s.newest)], s.rows))
    && (s.phase.Exporting? ==> ExportAgrees(s, s.phase))
  }

  /** While nothing has changed since the counter was read, what is written so far is right. */
  ghost predicate ExportAgrees(s: State, p: Phase)
    requires p.Exporting?
  {
    && p.changes <= s.changes && p.now.Valid() && !Earlier(p.now, s.newest) && 0 <= p.cursor
    && (p.changes == s.changes ==> ListsUpTo(p.out, s.rows, p.cursor))
  }

  /** The newest backup is never pruned: every backup that goes has a smaller name than one that stays. */
  lemma NewestStays(before: Dir, after: Dir, newest: Stamp)
    requires PrunedTo(before, after) && UpTo(before, newest) && FileName(newest) in before
    ensures FileName(newest) in after && UpTo(after, newest)
  {
    var name := FileName(newest);
    assert name in Backups(before);
    if name !in after {
      assert |Backups(after)| > 0;
      assert Any<string>(Backups(after)) in Backups(after);
      var b := Any<string>(Backups(after));
      LessIsOrder(name, b);
      LessIsOrder(name, name);
    }
  }

  lemma EndKeepsInv(s: State, step: Step, s': State)
    requires Inv(s) && StepTo(s, step, s') && step == Ends(true)
    ensures Inv(s') && FileName(s'.newest) in s'.dir && s'.dir[FileName(s'.newest)] == s.phase.out
    ensures |Backups(s'.dir)| <= KEEP_COUNT
  {
    var before := s.dir[FileName(s.phase.now) := s.phase.out];
    forall name | name in before && IsBackup(name)
      ensures name == FileName(s.phase.now) || Less(name, FileName(s.phase.now))
    {
      if name != FileName(s.phase.now) { NameIsOlder(name, s.newest, s.phase.now); }
    }
    NewestStays(before, s'.dir, s.phase.now);
  }

  lemma NameIsOlder(name: string, newest: Stamp, now: Stamp)
    requires newest.Valid() && now.Valid() && !Earlier(now, newest)
    requires name == FileName(newest) || Less(name, FileName(newest))
    requires name != FileName(now)
    ensures Less(name, FileName(now))
  {
    NamesSortAsTimes(now, newest);
    LessIsOrder(FileName(now), FileName(newest));
    if name != FileName(newest) && FileName(newest) != FileName(now) {
      LessTransitive(name, FileName(newest), FileName(now));
    }
  }

  lemma StepKeepsInv(s: State, step: Step, s': State)
    requires Inv(s) && StepTo(s, step, s')
    ensures Inv(s')
  {
    match step
    case Copies(id) =>
      if s.phase.changes == s.changes { RowIsListed(s.phase.out, s.rows, s.phase.cursor, id); }
    case Ends(ok) => if ok { EndKeepsInv(s, step, s'); }
    case _ =>
  }

  lemma {:induction false} RunKeepsInv(states: seq<State>, steps: seq<Step>, i: nat)
    requires IsRun(states, steps) && i < |states|
    ensures Inv(states[i])
  {
    if i > 0 {
      RunKeepsInv(states, steps, i - 1);
      StepKeepsInv(states[i - 1], steps[i - 1], states[i]);
    }
  }

  /** Whenever a snapshot is skipped, the newest backup is there and holds the table as it is now. */
  lemma SkippedMeansSaved(states: seq<State>, steps: seq<Step>, i: nat)
    requires IsRun(states, steps) && i < |steps| && steps[i].Skips?
    ensures var s := states[i];
            && FileName(s.newest) in s.dir && Lists(s.dir[FileName(s.newest)], s.rows)
            && forall name :: name in s.dir && IsBackup(name) && name != FileName(s.newest) ==>
                 Less(name, FileName(s.newest))
  {
    RunKeepsInv(states, steps, i);
    assert StepTo(states[i], steps[i], states[i + 1]);
  }

  /** Every finished backup leaves at most 14 of them, itself included, and itself the newest. */
  lemma PruningKeepsTheLatest(states: seq<State>, steps: seq<Step>, i: nat)
    requires IsRun(states, steps) && i < |steps| && steps[i] == Ends(true)
    ensures var (s, s') := (states[i], states[i + 1]);
            var name := FileName(s.phase.now);
            && |Backups(s'.dir)| <= 14
            && name in s'.dir && s'.dir[name] == s.phase.out
            && forall other :: other in s'.dir && IsBackup(other) && other != name ==> Less(other, name)
  {
    RunKeepsInv(states, steps, i);
    assert StepTo(states[i], steps[i], states[i + 1]);
    EndKeepsInv(states[i], steps[i], states[i + 1]);
  }

  // ---------------------------------------------------------------------------------------------
  // The machine and the code
  // ---------------------------------------------------------------------------------------------

  /** An export with no write in between: it begins, copies rows, and ends. */
  ghost predicate RunsAlone(states: seq<State>, steps: seq<Step>) {
    && 2 <= |steps| && |states| == |steps| + 1 && RowsValid(states[0].rows)
    && steps[0].Begins? && steps[|steps| - 1].Ends?
    && (forall k :: 0 < k < |steps| - 1 ==> steps[k].Copies?)
    && forall k :: 0 <= k < |steps| ==> StepTo(states[k], steps[k], states[k + 1])
  }

  /** Meanwhile nothing but the export moves, and what is written so far is right. */
  lemma {:induction false} AloneCopies(states: seq<State>, steps: seq<Step>, k: nat)
    requires RunsAlone(states, steps) && 0 < k < |steps|
    ensures var (s, p) := (states[0], states[k].phase);
            && p.Exporting? && p.changes == s.changes && p.now == steps[0].now && 0 <= p.cursor
            && states[k] == s.(phase := p) && ListsUpTo(p.out, s.rows, p.cursor)
  {
    if k == 1 {
      assert StepTo(states[0], steps[0], states[1]);
    } else {
      AloneCopies(states, steps, k - 1);
      var before := states[k - 1];
      assert StepTo(before, steps[k - 1], states[k]);
      RowIsListed(before.phase.out, before.rows, before.phase.cursor, steps[k - 1].id);
    }
  }

  /** Without writes in between, the steps of an export do what `BackupFolder.CreateSnapshot` does. */
  lemma AloneIsTheCode(states: seq<State>, steps: seq<Step>)
    requires RunsAlone(states, steps)
    ensures var (s, t, ok) := (states[0], states[|steps|], steps[|steps| - 1].ok);
            && !MaySkip(s) && t.phase.Idle? && t.rows == s.rows && t.changes == s.changes
            && (!ok ==> t.dir == s.dir && t.last == s.last)
            && (ok ==> t.last == s.changes && exists out: Content ::
                  Lists(out, s.rows) && PrunedTo(s.dir[FileName(steps[0].now) := out], t.dir))
            && (ok ==> MaySkip(t))
  {
    var n := |steps| - 1;
    AloneCopies(states, steps, n);
    assert StepTo(states[0], steps[0], states[1]);
    assert StepTo(states[n], steps[n], states[n + 1]);
    assert Lists(states[n].phase.out, states[0].rows);
  }

  lemma {:induction false} LeastExists(ids: set<int>) returns (m: int)
    requires ids != {}
    ensures IsLeast(ids, m)
  {
    var some: int := Any(ids);
    var rest := ids - {some};
    m := some;
    if rest != {} {
      var least := LeastExists(rest);
      m := if least < some then least else some;
    }
    assert forall i :: i in ids ==> i == some || i in rest;
  }

  /** Left alone, an export copies row after row until none is left. */
  lemma {:induction false} CopiesReachTheEnd(s: State) returns (states: seq<State>, steps: seq<Step>)
    requires s.phase.Exporting?
    ensures |states| == |steps| + 1 && states[0] == s
    ensures forall k :: 0 <= k < |steps| ==> steps[k].Copies? && StepTo(states[k], steps[k], states[k + 1])
    ensures var t := states[|steps|]; t.phase.Exporting? && forall id :: id in t.rows ==> id <= t.phase.cursor
    decreases |RowsAfter(s.rows, s.phase.cursor)|
  {
    var left := RowsAfter(s.rows, s.phase.cursor);
    if left == {} {
      states, steps := [s], [];
      forall id | id in s.rows ensures id <= s.phase.cursor { assert id !in left; }
    } else {
      var id := LeastExists(left);
      NextIsLeast(s.rows, s.phase.cursor, id);
      FewerAfter(s.rows, s.phase.cursor, id);
      var next := s.(phase := s.phase.(cursor := id, out := s.phase.out + [Export(s.rows[id])]));
      var more, rest := CopiesReachTheEnd(next);
      states, steps := [s] + more, [Copies(id)] + rest;
    }
  }
}
