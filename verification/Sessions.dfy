/**
 From the tracker to the other parts: disjoint sessions give distinct upsert keys, so an exactly-once effect
 in the cloud, and hour buckets that fit their hour.
 */
module Sessions {
  import Tracker
  import Usage
  import Hours
  import opened RecordJson
  import opened Network
  import opened Sets
  import EndToEnd

  /** The record `finishCurrentRecord` hands to the database. */
  function RecordOf(snap: Tracker.Snap, id: int, device: string): SyncRecord {
    SyncRecord(id, device, snap.window.process, snap.window.title, Tracker.Duration(snap), snap.start, snap.end)
  }

  /** What is sent of a session: its window, its times, and the seconds between them. */
  lemma RecordTells(states: seq<Tracker.State>, steps: seq<Tracker.Step>, i: nat, k: nat, device: string)
    requires Tracker.IsRun(states, steps) && i < |states| && k < |states[i].rows|
    ensures var (row, r) := (states[i].rows[k], RecordOf(states[i].rows[k], k + 1, device));
            && r.id == k + 1 && r.deviceId == device && r.process == row.window.process && r.title == row.window.title
            && r.start == row.start && r.end == row.end && r.duration == r.end - r.start
            && 0 < r.start <= r.end && 0 <= r.duration
  {
    Tracker.RunKeepsInv(states, steps, i);
    Usage.RowsAreProper(states[i]);
    assert states[i].rows[k] in states[i].taken;
    var j :| 0 <= j < |states[i].taken| && states[i].taken[j] == states[i].rows[k];
    assert Tracker.CopyAgrees(states[i], states[i].taken[j]);
  }

  /** Everything one device has recorded; ids count the insertions. */
  function Recorded(rows: seq<Tracker.Snap>, device: string): (m: map<int, SyncRecord>)
    ensures forall id :: id in m <==> 1 <= id <= |rows|
    ensures forall id :: id in m ==> m[id] == RecordOf(rows[id - 1], id, device)
  {
    if rows == [] then map[]
    else
      var n := |rows|;
      Recorded(rows[..n - 1], device)[n := RecordOf(rows[n - 1], n, device)]
  }

  /** The upsert key tells sessions apart and nothing else, in every interleaving. */
  lemma KeysAreSessions(states: seq<Tracker.State>, steps: seq<Tracker.Step>, i: nat, device: string, user: string,
                        a: int, b: int)
    requires Tracker.IsRun(states, steps) && Tracker.MinimumIsPositive(steps) && i < |states|
    requires var n := |states[i].rows|; 1 <= a <= n && 1 <= b <= n
    ensures var rows := states[i].rows;
            KeyOf(Delivery(user, RecordOf(rows[a - 1], a, device)))
            == KeyOf(Delivery(user, RecordOf(rows[b - 1], b, device)))
            <==> rows[a - 1].session == rows[b - 1].session
  {
    if a < b { Tracker.StartsAreKeys(states, steps, i, a - 1, b - 1); }
    if b < a { Tracker.StartsAreKeys(states, steps, i, b - 1, a - 1); }
  }

  /** The recorded rows have distinct keys if and only if no session was inserted twice. */
  lemma KeysDifferIff(states: seq<Tracker.State>, steps: seq<Tracker.Step>, i: nat, device: string)
    requires Tracker.IsRun(states, steps) && Tracker.MinimumIsPositive(steps) && i < |states|
    ensures EndToEnd.DistinctKeys(Recorded(states[i].rows, device)) <==> !Tracker.InsertedTwice(states, steps, i)
  {
    var rows := states[i].rows;
    var m := Recorded(rows, device);
    Tracker.InsertedOnceIff(states, steps, i);
    forall j, k | 0 <= j < k < |rows| ensures m[j + 1].start != m[k + 1].start <==> rows[j].session < rows[k].session {
      Tracker.StartsAreKeys(states, steps, i, j, k);
    }
    if Tracker.Strict(rows) {
      forall a, b | a in m && b in m && a != b ensures m[a].start != m[b].start {
        var j, k := if a < b then a - 1 else b - 1, if a < b then b - 1 else a - 1;
        assert m[j + 1].start != m[k + 1].start;
      }
    }
    if EndToEnd.DistinctKeys(m) {
      forall j, k | 0 <= j < k < |rows| ensures rows[j].session < rows[k].session {
        assert j + 1 in m && k + 1 in m;
      }
    }
  }

  /** The session a delivered record was recorded from. */
  function SessionOf(rows: seq<Tracker.Snap>, d: Delivery): nat {
    if 1 <= d.record.id <= |rows| then rows[d.record.id - 1].session else 0
  }

  function ByKey(): Delivery -> Key { (d: Delivery) => KeyOf(d) }

  function BySession(rows: seq<Tracker.Snap>): Delivery -> (string, nat) {
    (d: Delivery) => (d.user, SessionOf(rows, d))
  }

  /** No later delivery is of the same user and session. */
  ghost predicate IsLatestOfSession(rows: seq<Tracker.Snap>, log: seq<Delivery>, k: nat) {
    k < |log| && forall l :: k < l < |log| ==> BySession(rows)(log[l]) != BySession(rows)(log[k])
  }

  /** Deliveries of recorded rows share a key just when they are of one user and one session. */
  lemma DeliveredKeys(states: seq<Tracker.State>, steps: seq<Tracker.Step>, i: nat, device: string,
                      d: Delivery, e: Delivery)
    requires Tracker.IsRun(states, steps) && Tracker.MinimumIsPositive(steps) && i < |states|
    requires var m := Recorded(states[i].rows, device);
             && d.record.id in m && m[d.record.id] == d.record && e.record.id in m && m[e.record.id] == e.record
    ensures KeyOf(d) == KeyOf(e) <==> d.user == e.user && SessionOf(states[i].rows, d) == SessionOf(states[i].rows, e)
  {
    KeysAreSessions(states, steps, i, device, d.user, d.record.id, e.record.id);
  }

  /**
   In every interleaving of the tracker and every run of the agent that synchronises what it recorded: the
   cloud has exactly one row for each user and session delivered, and that row is the latest delivery of the
   session.  A session inserted twice is one row too.
   */
  lemma SessionsReachTheCloudOnce(states: seq<Tracker.State>, steps: seq<Tracker.Step>, i: nat, device: string,
                                  env: Env, agents: seq<EndToEnd.Agent>, syncs: seq<EndToEnd.Step>, j: nat)
    requires Tracker.IsRun(states, steps) && Tracker.MinimumIsPositive(steps) && i < |states|
    requires EndToEnd.IsRun(env, agents, syncs) && j < |agents|
    requires agents[j].history == Recorded(states[i].rows, device)
    ensures var (rows, cloud, log) := (states[i].rows, agents[j].world.cloud, agents[j].world.log);
            && |cloud| == |Image(log, BySession(rows))|
            && (forall k: nat :: k < |log| ==> KeyOf(log[k]) in cloud)
            && forall k: nat :: IsLatestOfSession(rows, log, k) ==> cloud[KeyOf(log[k])] == RowOf(log[k])
  {
    var rows, cloud, log := states[i].rows, agents[j].world.cloud, agents[j].world.log;
    var byKey, bySession := ByKey(), BySession(rows);
    EndToEnd.CloudHoldsTheLatest(env, agents, syncs, j);
    forall a, b | 0 <= a < |log| && 0 <= b < |log|
      ensures byKey(log[a]) == byKey(log[b]) <==> bySession(log[a]) == bySession(log[b])
    {
      assert log[a] in log && log[b] in log;
      DeliveredKeys(states, steps, i, device, log[a], log[b]);
    }
    SameCount(log, byKey, bySession);
    KeysAreImage(cloud, log);
    forall k: nat | IsLatestOfSession(rows, log, k)
      ensures cloud[KeyOf(log[k])] == RowOf(log[k])
    {
      assert forall l :: k < l < |log| ==> byKey(log[l]) != byKey(log[k]);
      assert IsLatest(log, k);
    }
  }

  lemma KeysAreImage(cloud: Cloud, log: seq<Delivery>)
    requires forall k :: k in cloud <==> WasDelivered(log, k)
    ensures |cloud| == |Image(log, ByKey())|
    ensures forall k: nat :: k < |log| ==> KeyOf(log[k]) in cloud
  {
    forall k ensures k in cloud.Keys <==> k in Image(log, ByKey()) {
      if k in cloud {
        var j :| 0 <= j < |log| && KeyOf(log[j]) == k;
        assert ByKey()(log[j]) == k;
      }
      if k in Image(log, ByKey()) {
        var j :| 0 <= j < |log| && ByKey()(log[j]) == k;
        assert KeyOf(log[j]) == k;
      }
    }
    assert cloud.Keys == Image(log, ByKey());
    forall k: nat | k < |log| ensures KeyOf(log[k]) in cloud { assert WasDelivered(log, KeyOf(log[k])); }
  }

  /** Unless one of them was inserted twice, sessions fill no hour of the day with more than 3600 seconds. */
  lemma SessionsFitTheirHours(states: seq<Tracker.State>, steps: seq<Tracker.Step>, i: nat, process: string,
                              z: Hours.Zone, h: nat)
    requires Tracker.IsRun(states, steps) && !Tracker.InsertedTwice(states, steps, i) && i < |states|
    requires z.Valid() && h < 24
    ensures 0 <= Hours.Sum(Usage.NewestFirst(states[i].rows, process), Hours.HourPart(z, h)) <= 3600
  {
    var s := states[i];
    Tracker.RunKeepsInv(states, steps, i);
    Tracker.InsertedOnceIff(states, steps, i);
    forall k | 0 <= k < |s.rows| ensures s.rows[k].start <= s.rows[k].end <= s.clock {
      assert Tracker.CopyAgrees(s, s.rows[k]);
    }
    Usage.NewestFirstIsDisjoint(s.rows, process, s.clock);
    Hours.BucketsFit(z, Usage.NewestFirst(s.rows, process), h);
  }
}
