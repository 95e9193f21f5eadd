# JustInTime: a verified model

JustInTime is an offline-first activity tracker.  A native agent watches which window is in the
foreground, keeps sessions in a local SQLite queue, and sends them to a cloud table in batches.
Around that path stand a limits cache, token renewal, local backups and a dashboard.  This project
models the path and its surroundings in Dafny and proves what they promise.

`dafny verify dfyconfig.toml` checks everything.

## How the model is laid out

Code that changes things step by step is imperative here too: the loops are loops over the same
variables, the globals are fields of classes, and each method is proved against a specification
function.  The promises are then lemmas about those functions.

| file | part of the system |
|---|---|
| `BatchSend.dfy` | the bisecting batch sender with its explicit stack |
| `JsonText.dfy`, `JsonScan.dfy`, `RecordJson.dfy`, `Decimal.dfy` | escaping, scanning and extracting JSON, the request body, decimal numbers |
| `JsonRead.dfy` | a reader for JSON by its standard, and what it makes of the bodies the agent writes |
| `Network.dfy`, `SyncActivity.dfy`, `Deployed.dfy` | one call over the network with lost answers, resends and renewal; the server half; a full round against the deployed handler |
| `Database.dfy`, `Sync.dfy` | the local table and the sync cycle |
| `EndToEnd.dfy`, `QueueProgress.dfy` | whole runs of the agent: safety, exactly-once effect, no starvation |
| `Tracker.dfy`, `Usage.dfy` | the two-thread session tracker, used-today accounting, limit verdicts |
| `Auth.dfy`, `Refresh.dfy` | the session and its renewal, alone and over any number of threads |
| `Limits.dfy` | the limits cache and its file |
| `Hours.dfy` | time aggregation in the dashboard |
| `BackupNames.dfy`, `Backup.dfy` | backup names, skipping, pruning |
| `Sessions.dfy` | how the tracker's disjoint sessions feed the other parts |
| `Numbers.dfy`, `Sets.dfy` | minimum, maximum, products; sizes of finite sets |

What lies outside is a parameter.  The sender takes a world and a function from world and range to
the next world and an outcome, so one theorem covers every server: honest, adversarial, one that
applies a request and loses the answer.  Clocks, failing statements and file writes are arguments
of the steps.  A concurrent part is a state machine whose steps are the sections under a lock and
the pieces of I/O between them; a run is any interleaving of steps.  In the tracker the watch thread
takes the steps of `monitor_activity` and `activity_check_limits`, the GUI thread those of
`activity_suspend` and `activity_resume`, as src/agent/agent/main.cpp assigns them.

## Results that are not plain confirmations

- A session can be inserted twice.  A suspend between the watch thread's finish and its reopening
  copies the record again (`Tracker.SuspendCanCopyTwice`).  The comment at
  src/agent/core/activity.cpp:150-162 says that the flag prevents it.  It does not, because the
  record stays in place after the flag is released.  The exact condition: a session is copied at most
  once if and only if no finisher takes its copy after another one has released the flag and before
  the record is closed or replaced (`Tracker.CopiedOnceIff`), and it has at most one row if and only
  if no inserted record is copied so and inserted again (`Tracker.InsertedOnceIff`).
- The cloud has one row per session all the same.  Both rows share one start time, and in every
  interleaving the cloud holds one row for each user and session delivered, its latest delivery
  (`Sessions.SessionsReachTheCloudOnce`).
- The duplicate is charged to used-today (`Usage.CopiedTwiceIsChargedTwice`), and between insertion
  and reset every session counts twice for a moment (`Usage.CopiedCountsTwice`).
- A limit check copies the open record, queries the table and reads the clock at three moments
  (src/agent/core/activity.cpp:469, 502 and 506).  A suspend in between puts the copied record into the
  table too: 18 of 10 seconds are charged, and a limit of 11 is called used up
  (`Usage.CheckedWhileSuspending`).  The record is charged twice exactly when it is in the table at the
  query (`Usage.TwiceMeansMore`, `Usage.CountsTwiceIff`); apart from that and from sessions inserted
  twice, nobody is charged more than the day has had (`Usage.NeverMoreThanTheDay`).
- Bisection isolates all bad records if and only if the budget covers the exact number of requests
  that `BatchSend.Needed` computes; for k bad records among n that is at most
  1 + 2 k ceil(log2 n).
- A second 401, right after a successful renewal, is booked as a refusal of the record
  (`Network.SecondUnauthorizedIsRefused`, with a server that brings it about in
  `Network.SecondUnauthorizedHappens`), although src/agent/shared/network.cpp:143 says that a missing
  valid token must not penalise a record.  With per-record verdicts this is the only way a good record
  is refused (`Network.GoodIsRefusedIff`) or penalised (`EndToEnd.GoodPenaltyIsSecondUnauthorized`).
- The handler in supabase/functions/sync-activity/index.ts answers every array with 400
  (`SyncActivity.DeployedVerdict`), so a batch of good records is bisected down to single ones.  With
  the budget of twenty requests a full round of a hundred records settles exactly the first eight and
  the cycle returns -1 (`Deployed.FullRoundSettlesEight`); a backlog of n acceptable records takes at
  most ceil(n/8) cycles (`Deployed.BacklogDrains`).
- A refresh token already exchanged is presented again if and only if an answer of the token
  endpoint was lost or came without a refresh token (`Refresh.SpentIsPresentedIff`).  The second case
  is src/agent/shared/auth.cpp:451, which keeps the old token; `Refresh.BareAnswerStrandsTheSession`
  is a run with it, and `Auth.BareAnswerExists` such an answer.
- The limits file is faithful if and only if the account and the names avoid newlines, tabs,
  "user=" and a trailing carriage return (`Limits.RestoresIffLoadable`).
- `json_extract_string` gives an escaped text back if and only if it has no control byte
  (`RecordJson.DeviceIdSurvives`).
- Backup names sort as times for years below 10000 and not beyond
  (`BackupNames.FiveDigitYearsSortWrong`).

## Model

| member | source | states |
|---|---|---|
| `BatchSend.SendWithBisect` | includes/agent/agent/batchsend.h:44-92 | The stack loop computes the plain recursion `Bisection` (same report, same effect on the world), leaves a settled prefix, aborts exactly when something is unsettled, and stays within the budget. |
| `BatchSend.SettleTop` | includes/agent/agent/batchsend.h:57-88 | One turn of the loop: it either reaches the goal with an abort, or keeps the loop-head invariant (the stack tiles the unsettled suffix) and lowers the measure. |
| `BatchSend.SendRange` | includes/agent/agent/batchsend.h:66-82 | One request and the booking of its answer. |
| `BatchSend.AppendAccepted` | includes/agent/agent/batchsend.h:71-72 | An accepted range is appended index by index, in order. |
| `BatchSend.LoopPops` | includes/agent/agent/batchsend.h:55-64 | What a turn finds: the popped range starts exactly at the end of the settled prefix. |
| `BatchSend.TurnAborts` | includes/agent/agent/batchsend.h:57-61 | A spent budget or a dropped line leaves the report as the recursion leaves it. |
| `BatchSend.TurnSplits` | includes/agent/agent/batchsend.h:83-88 | Pushing the right half and then the left half keeps the tiling, the order and the goal, and lowers the measure. |
| `BatchSend.TurnSettles` | includes/agent/agent/batchsend.h:69-82 | Any other answer extends the settled prefix by exactly the range. |
| `BatchSend.ResolvePrefix` | includes/agent/agent/batchsend.h:50-91 | Against any server the settled indices are a prefix in two increasing disjoint lists; an abort leaves exactly a suffix, normal exit leaves nothing. |
| `BatchSend.BisectionSettles` | includes/agent/agent/batchsend.h:44-92 | The same for the whole call, with an empty batch included. |
| `BatchSend.ResolveKeeps` | includes/agent/agent/batchsend.h:55-89 | Proof rule: whatever every single request keeps, the whole bisection keeps. |
| `BatchSend.ResolveTerminates` | includes/agent/agent/batchsend.h:37-43 | At most 2n-1 requests whatever is answered; with that budget only a transport error cuts the call short. |
| `BatchSend.ResolveWithin` | includes/agent/agent/batchsend.h:57-61 | The budget of requests is kept, whatever is answered. |
| `BatchSend.ResolveProgresses` | includes/agent/agent/batchsend.h:55-89 | Unless the line drops, floor(log2 n)+1 requests settle the first record. |
| `BatchSend.FloorLog2Law` | includes/agent/agent/batchsend.h:7-13 | The floor in the bounds: the largest power of two that is at most n. |
| `BatchSend.CeilLog2Law` | includes/agent/agent/batchsend.h:7-13 | The ceiling in the bounds: the smallest power of two that is at least n. |
| `BatchSend.BisectionAgainstAnyServer` | includes/agent/agent/batchsend.h:44-92 | The three promises against an adversarial server, for the whole call. |
| `BatchSend.TraceChangesNothing` | includes/agent/agent/batchsend.h:55-89 | Keeping the list of requests with the worlds they were made in changes neither the report nor the effect on the world. |
| `BatchSend.BookedByRequests` | includes/agent/agent/batchsend.h:66-82 | The requests of a call follow one another from its first world to its last and are as many as it reports; a record is booked as refused only if one of them carried it alone and was refused, and as accepted only if one of them carried it and was accepted. |
| `BatchSend.ResolveSorts` | includes/agent/agent/batchsend.h:69-82 | With sound per-record verdicts only good records are accepted and only bad ones refused, even when cut short. |
| `BatchSend.ResolveCost` | includes/agent/agent/batchsend.h:55-89 | Against an exact server the number of requests is exactly `Needed`, and the budget aborts the call exactly when it is smaller than that. |
| `BatchSend.NeededIsLogarithmic` | includes/agent/agent/batchsend.h:7-13 | Isolating k bad records among n needs at most 1 + 2 k ceil(log2 n) requests. |
| `BatchSend.NeededAtMost` | includes/agent/agent/batchsend.h:7-13 | The same bound for a whole batch. |
| `BatchSend.BisectionIsolates` | includes/agent/agent/batchsend.h:44-92 | Isolation if and only if the budget covers `Needed`: every good record accepted, exactly the bad ones refused. |
| `BatchSend.OneBadRecordInAHundred` | src/agent/agent/sync.cpp:32-33 | One bad record among 100 takes at most 15 of the 20 requests; 99 accepted, one refused. |
| `BatchSend.RefusedIsBadCount` | includes/agent/agent/batchsend.h:31-32 | The refused list has exactly as many entries as there are bad records. |
| `BatchSend.SinglesCost` | includes/agent/agent/batchsend.h:55-89 | Against a server that takes single records only, a range of n records takes exactly 2n-1 requests. |
| `BatchSend.SinglesSettle` | includes/agent/agent/batchsend.h:55-89 | With a smaller budget exactly `SettledWithin` records are settled. |
| `BatchSend.SinglesBatch` | includes/agent/agent/batchsend.h:44-92 | The same for the whole call, with the settled records a prefix. |
| `Network.NetworkSendBatch` | src/agent/shared/network.cpp:82-155 | The retry loop computes `Send`; its two results are the outcome sync.cpp makes of them. |
| `Network.SendByStatus` | src/agent/shared/network.cpp:82-155 | The outcome status by status: a request lost once is made again, 408, 429, 502, 503 and 504 count as transport errors, a 401 leads to one renewal and one more attempt, every other status outside 200 to 299 refuses. |
| `Network.UpsertAllKeys` | supabase/functions/sync-activity/index.ts:112-125 | Upserting a batch makes present exactly the old keys and the keys of the batch. |
| `Network.ExchangeStores` | supabase/functions/sync-activity/index.ts:112-139 | A 2xx answer comes only after everything in the request is in the table; no key is ever taken out. |
| `Network.HttpsStores` | src/common/httpclient.cpp:192-211 | The same over the transport-level resend of an idempotent request. |
| `Network.AcceptedIsStored` | src/agent/shared/network.cpp:131-132 | An accepted batch is in the cloud, whatever was lost or resent on the way; nothing is removed. |
| `Network.RefusalIsAnAnswer` | src/agent/shared/network.cpp:134-152 | What counts as a refusal: a final answer that is neither 2xx nor transient; a 401 only right after a successful renewal. |
| `Network.SecondUnauthorizedIsRefused` | src/agent/shared/network.cpp:134-152 | A 401 that comes again after a successful renewal is booked as a refusal, whatever the batch contains. |
| `Network.GoodIsRefusedIff` | src/agent/shared/network.cpp:134-152 | With per-record verdicts a good record sent alone is refused if and only if such a second 401 comes. |
| `Network.SecondUnauthorizedHappens` | src/agent/shared/network.cpp:143-152 | A witness: a server that calls no record bad, whose renewals succeed, and that refuses every record. |
| `Network.OneOrTwoRequests` | src/agent/shared/network.cpp:109-153 | A call makes one or two requests and adds nothing else to the cloud. |
| `Network.UpsertAllDelivers` | supabase/functions/sync-activity/index.ts:112-125 | If keys determine rows, upserting keeps the table equal to the map of what was delivered. |
| `Network.HttpsDelivers` | src/common/httpclient.cpp:202-208 | A resend delivers the same rows again and changes nothing more. |
| `Network.SendDelivers` | src/agent/shared/network.cpp:109-153 | Lost acknowledgements, resends and retries after a renewal leave one row per delivered record. |
| `Network.SameDeliveriesSameCloud` | supabase/functions/sync-activity/index.ts:124-124 | The table depends only on which deliveries happened, not on order, batching or number. |
| `Network.ReplayHasTheKeys` | supabase/functions/sync-activity/index.ts:112-125 | A table replayed from its deliveries has exactly the keys delivered. |
| `Network.ReplayHoldsTheLatest` | supabase/functions/sync-activity/index.ts:124-124 | Under each key it holds the latest delivery, even when records share a key. |
| `Network.UpsertReplays` | supabase/functions/sync-activity/index.ts:112-125 | Upserting a batch is replaying its deliveries. |
| `Network.SendReplays` | src/agent/shared/network.cpp:109-153 | Whatever is lost, resent or retried in a call, the table stays its deliveries replayed. |
| `Network.SendIsSound` | src/agent/shared/network.cpp:131-152 | With per-record verdicts from the server the whole call has per-record verdicts. |
| `SyncActivity.ActivityTable.Handle` | supabase/functions/sync-activity/index.ts:38-140 | The request handler: its status, and a table changed exactly when it answers 200. |
| `SyncActivity.StatusLaw` | supabase/functions/sync-activity/index.ts:40-110 | Which status stands for what: 405 for another method, 401 for a missing or invalid token, 400 for a payload that fails a check on its length or size, and only 200 writes. |
| `SyncActivity.WholeNumbersAreStored` | supabase/functions/sync-activity/index.ts:112-140 | A payload that passes the checks is stored exactly when the database works and its three numbers are whole; otherwise the answer is 500. |
| `SyncActivity.BodyIsPayload` | supabase/functions/sync-activity/index.ts:75-86 | What the handler's parser makes of the body of a batch is the payload the other statements speak of. |
| `SyncActivity.StoredAsSent` | supabase/functions/sync-activity/index.ts:112-125 | The body of an acceptable record is stored under its user, device and start with its process, title, duration and end. |
| `SyncActivity.DeployedVerdict` | supabase/functions/sync-activity/index.ts:86-110 | The deployed handler accepts a sent body exactly when it is a single acceptable record; every array is answered 400. |
| `SyncActivity.DeployedIsSound` | supabase/functions/sync-activity/index.ts:95-110 | The verdicts of the deployed handler are per-record: apart from answers of 401, and with its database up, no single acceptable record is answered with a refusal and nothing else with 2xx. |
| `SyncActivity.DeployedBooks` | src/agent/shared/network.cpp:131-152 | So an agent books as accepted nothing but a single acceptable record, and books an acceptable one sent alone as refused if and only if a second 401 comes. |
| `SyncActivity.BadTokenIsRenewed` | src/agent/shared/network.cpp:131-152 | A missing or invalid token costs a 401 and a renewal: with a valid one after that the record meets its verdict, with a second bad one it is refused, without a renewal nothing is booked. |
| `Deployed.BatchAgainstDeployed` | supabase/functions/sync-activity/index.ts:86-110 | Against the deployed handler a batch of n records takes 2n-1 requests; a smaller budget aborts the call after `SettledWithin` records. |
| `Deployed.EightOfAHundred` | src/agent/agent/sync.cpp:32-33 | Twenty requests for a hundred records settle eight. |
| `Deployed.SenderJudges` | supabase/functions/sync-activity/index.ts:86-110 | Whatever is settled is settled by the record's own verdict. |
| `Deployed.FullRoundSettlesEight` | src/agent/agent/sync.cpp:53-105 | A full round of a hundred settles exactly records 0 to 7, the acceptable ones as accepted and the others as refused, and the cycle returns -1. |
| `Deployed.AtLeastEight` | src/agent/agent/sync.cpp:32-33 | Twenty requests settle at least eight records of any batch of 8 to 100. |
| `Deployed.CycleDrains` | src/agent/agent/sync.cpp:53-105 | A cycle over a backlog of acceptable records syncs exactly the number `PerCycle` says, refuses none and leaves the others as they were. |
| `Deployed.BacklogDrains` | src/agent/agent/sync.cpp:37-105 | c cycles leave at most max(0, n - 8c) of n such records, so ceil(n/8) cycles sync them all. |
| `Database.FirstExists` | src/agent/shared/database.cpp:530-536 | A non-empty due set has exactly one first row in fetch order. |
| `Database.First` | src/agent/shared/database.cpp:530-536 | The first due row precedes every other one. |
| `Database.InOrderSpec` | src/agent/shared/database.cpp:530-536 | The fetch returns distinct due rows in order of (next_retry_at, id), and leaves out only rows behind them. |
| `Database.FetchLaw` | src/agent/shared/database.cpp:530-536 | Only unsynced rows whose retry time has come are fetched, by (next_retry_at, id), and such a row is left out only for want of room, behind all that are fetched. |
| `Database.DelayLaw` | src/agent/shared/database.cpp:627-651 | The back-off delay grows with the retries, lies within [1, max(1, max)], and fits in 64 bits. |
| `Database.DelayDoubles` | src/agent/shared/database.cpp:636-640 | The first delay is twice the base, each further one twice the one before, between one second and the maximum, and constant from the twentieth on. |
| `Database.PrunedKeeps` | src/agent/shared/database.cpp:681-684 | A synced row survives a pruning exactly when it is not older than the cutoff, an unsynced row always; survivors are unchanged. |
| `Database.PrunedTwice` | src/agent/shared/database.cpp:681-684 | Two prunings are one with the later cutoff. |
| `Database.InsertedSurvives` | src/agent/shared/database.cpp:681-684 | A row is as old as its insertion. |
| `Database.ActivityDb.constructor` | src/agent/shared/database.cpp:144-242 | An empty table. |
| `Database.ActivityDb.InsertActivity` | src/agent/shared/database.cpp:244-287 | One fresh id, one new unsynced row, nothing else changed; a failed insert changes nothing. |
| `Database.ActivityDb.GetUnsyncedRecords` | src/agent/shared/database.cpp:525-567 | The records of the first due rows, in fetch order, up to the limit: each of an unsynced row whose retry time has come, and all of them if there is room. |
| `Database.ActivityDb.FindFirst` | src/agent/shared/database.cpp:535-535 | The minimum by (next_retry_at, id). |
| `Database.ActivityDb.MarkSyncedBatch` | src/agent/shared/database.cpp:583-614 | Exactly the rows whose statement of 500 went through become synced; it reports whether all did. |
| `Database.ActivityDb.MarkChunk` | src/agent/shared/database.cpp:596-611 | One statement: all of its ids, or none. |
| `Database.ActivityDb.MarkSyncFailed` | src/agent/shared/database.cpp:627-651 | One row gets one more retry and a later retry time; no other row changes. |
| `Database.ActivityDb.DeleteOldRecords` | src/agent/shared/database.cpp:671-696 | Only synced rows older than the cutoff are deleted. |
| `Database.NextChunk` | src/agent/shared/database.cpp:596-611 | Chunk by chunk, the marked ids are those of the chunks that went through. |
| `Sync.SyncPendingRecords` | src/agent/agent/sync.cpp:37-105 | The whole cycle: same table and same effect on the world as its rounds in order; all rounds but the last are full and settled, and the result is -1 exactly when the last one was cut short, else 0. |
| `Sync.CycleEnds` | src/agent/agent/sync.cpp:53-105 | A cycle is 1 to 20 rounds: it ends with the first that is cut short or sends fewer than a hundred, or with the twentieth. |
| `Sync.RoundMeans` | src/agent/agent/sync.cpp:55-102 | A round is cut short exactly when a record of its batch is left unsettled, and empty exactly when no row is due; an empty round changes nothing. |
| `Sync.ResultMeans` | src/agent/agent/sync.cpp:97-105 | The result is -1 exactly when the last round left a record unsettled, and 0 exactly when it settled its batch; then no row was due, fewer than a hundred were sent, or the twenty rounds are used up. |
| `Sync.RoundLoop` | src/agent/agent/sync.cpp:53-104 | Rounds follow one another until the queue is drained, a round aborts, or twenty are done. |
| `Sync.SyncRound` | src/agent/agent/sync.cpp:55-95 | One round: fetch, bisect, mark what was accepted, penalise what was refused alone. |
| `Sync.MarkAccepted` | src/agent/agent/sync.cpp:80-88 | Exactly the ids at the accepted indices are marked. |
| `Sync.PenaliseRejected` | src/agent/agent/sync.cpp:90-95 | Exactly the ids at the rejected indices are penalised, in order. |
| `Sync.CycleKeeps` | src/agent/agent/sync.cpp:53-104 | What every round keeps, the cycle keeps. |
| `EndToEnd.RequestBooks` | src/agent/agent/sync.cpp:66-78 | Every index booked as accepted after one request is a record the cloud holds. |
| `EndToEnd.BisectionBooks` | src/agent/agent/sync.cpp:66-78 | The same after a whole bisection, even one cut short. |
| `EndToEnd.BisectionDelivers` | src/agent/agent/sync.cpp:66-78 | A bisection keeps the cloud equal to the map of the records delivered. |
| `EndToEnd.StepIsSafe` | src/agent/agent/sync.cpp:53-102 | Every step (insert, take-off, transmit, mark, penalise, crash, prune, account change) keeps the safety invariant. |
| `EndToEnd.NoRecordIsEverLost` | src/agent/agent/sync.cpp:53-102 | In every state of every run each inserted record is still in the table with synced = 0, or the cloud holds a row under its device and start time. |
| `EndToEnd.EffectIsExactlyOnce` | supabase/functions/sync-activity/index.ts:112-125 | When records have distinct keys, the cloud is exactly the map of the records delivered, however often they were. |
| `EndToEnd.CloudHoldsTheLatest` | supabase/functions/sync-activity/index.ts:112-125 | In every run, whatever keys the records have, the cloud has a row under exactly the keys delivered, each the latest delivery under it, and only inserted records were delivered. |
| `EndToEnd.OnlyRefusedArePenalised` | src/agent/agent/sync.cpp:90-95 | A row's retry bookkeeping changes only by a penalty step, and only for a record booked as refused. |
| `EndToEnd.PenaltiesAreDeserved` | src/agent/agent/sync.cpp:80-95 | Every penalty step of every run follows a transmission of the same run that made a request carrying that record alone, and the server refused that request. |
| `EndToEnd.TransmitRefuses` | src/agent/agent/sync.cpp:66-82 | What a transmission books as refused was refused in one of its requests, which carried the record alone. |
| `EndToEnd.BookedIsRefused` | src/agent/agent/sync.cpp:66-82 | What is booked as refused in any state of a run was refused so by an earlier transmission of the run. |
| `EndToEnd.GoodPenaltyIsSecondUnauthorized` | src/agent/agent/sync.cpp:80-95 | With per-record verdicts, every penalty on an acceptable record follows a request of the run that carried it alone and met a second 401. |
| `EndToEnd.GoodRecordsAreNeverPenalised` | src/agent/agent/sync.cpp:90-95 | With per-record verdicts every acceptable record keeps retry count 0 in all runs. |
| `EndToEnd.RoundIsSteps` | src/agent/agent/sync.cpp:53-102 | A round of the sync loop is a sequence of enabled steps of the machine. |
| `EndToEnd.RunGoesOn` | src/agent/agent/sync.cpp:53-102 | Steps that lead on from the end of a run extend the run. |
| `EndToEnd.CycleIsReachable` | src/agent/agent/sync.cpp:37-105 | So a call of the sync cycle from a state of a run ends in a state of a run, and what is proved of runs holds after it. |
| `EndToEnd.CycleIsExactlyOnce` | src/agent/agent/sync.cpp:37-105 | After a call the cloud is the map of what was delivered, if the records have distinct keys. |
| `EndToEnd.CycleFreesGood` | src/agent/agent/sync.cpp:37-105 | After a call no acceptable record has been penalised, if verdicts are per record and renewed tokens work. |
| `EndToEnd.RoundIsSafe` | src/agent/agent/sync.cpp:53-102 | A whole round keeps the safety invariant. |
| `EndToEnd.CycleIsSafe` | src/agent/agent/sync.cpp:37-105 | A whole cycle keeps the safety invariant. |
| `QueueProgress.PenaltyEffect` | src/agent/shared/database.cpp:627-651 | A penalty moves the row out of the never-refused class and leaves the others as they were. |
| `QueueProgress.PenaltyDelays` | src/agent/shared/database.cpp:636-647 | A penalised row counts one refusal more and is due that refusal's delay after the penalty; every other row is unchanged. |
| `QueueProgress.RoundKeepsTried` | src/agent/agent/sync.cpp:53-102 | A round adds no row to the never-refused ones. |
| `QueueProgress.HeadIsUntried` | src/agent/shared/database.cpp:530-536 | As long as a never-refused record exists, one is at the head of the fetch. |
| `QueueProgress.HeadIsSettled` | src/agent/agent/sync.cpp:66-95 | A round the server answers settles the record at the head. |
| `QueueProgress.RoundResolvesOne` | src/agent/agent/sync.cpp:53-102 | So each answered round resolves at least one never-refused record, whatever bad records are around. |
| `QueueProgress.NoStarvation` | src/agent/agent/sync.cpp:53-102 | Within m answered rounds all m queued records are synced or refused at least once, with inserts, pruning and account changes in between. |
| `QueueProgress.RefusedWaits` | src/agent/agent/sync.cpp:90-95 | A record refused in a round stays unsynced with its record unchanged, and its next retry time lies after the penalty. |
| `QueueProgress.WaitsItsTime` | src/agent/shared/database.cpp:530-536 | A waiting record is in no batch, so in no request, of any round that fetches before its retry time, and its row stays as it is, whatever is added, pruned or sent meanwhile. |
| `Decimal.AtoiPrint` | src/agent/shared/applimits.cpp:58-58 | `atoi` reads back every integer the stream printed. |
| `Decimal.AtoiReadsThrough` | src/agent/shared/applimits.cpp:92-93 | `atoi` passes blanks and a sign, and stops at the first byte that is no digit. |
| `Decimal.AtoiOfNoNumber` | src/agent/shared/applimits.cpp:92-93 | A text that begins with no number reads as zero. |
| `JsonText.JsonEscape` | includes/common/strutil.h:55-84 | The escaping loop computes `Escape`. |
| `JsonText.EscapeRoundTrip` | includes/common/strutil.h:50-84 | RFC 8259 unescaping (section 7) gives back every text. |
| `JsonText.EscapeIsClean` | includes/common/strutil.h:60-81 | The output has no control byte, is no shorter than the text and at most six times as long. |
| `JsonText.EscapeForms` | includes/common/strutil.h:60-81 | Which form each byte takes: five two-byte escapes, six bytes for the other control bytes, the byte itself for the rest. |
| `JsonText.EscapeAppend` | includes/common/strutil.h:60-81 | Escaping is a homomorphism on texts. |
| `JsonText.BoundedEscape` | src/agent/shared/jsonutil.cpp:25-97 | The bounded form writes the escape of a prefix of its NUL-free input, terminated inside the buffer, the whole of it when the buffer has 6n+2 bytes, and touches nothing behind the terminator. |
| `JsonText.PutEscaped` | src/agent/shared/jsonutil.cpp:52-93 | One character is written as its whole escape, never part of one. |
| `JsonText.KeptFits` | src/agent/shared/jsonutil.cpp:45-50 | What is kept always fits before the terminator. |
| `JsonText.KeptWhole` | src/agent/shared/jsonutil.cpp:45-50 | 6n+2 bytes are enough for everything. |
| `JsonText.KeptWholeIsSharp` | src/agent/shared/jsonutil.cpp:45-50 | One byte less is not always enough. |
| `JsonText.SizedEscape` | src/agent/shared/auth.cpp:97-103 | The sized wrapper returns exactly what the unbounded escaper returns. |
| `JsonScan.PassSeparators` | src/agent/shared/jsonutil.cpp:237-241 | The cursor stops at the first byte that is no separator. |
| `JsonScan.ObjectEnd` | src/agent/shared/jsonutil.cpp:257-302 | The brace counter with its in-string flag stops where `Scan` says. |
| `JsonScan.JsonArrayNext` | src/agent/shared/jsonutil.cpp:223-315 | Found or not, the object cut to the buffer, and the cursor behind it. |
| `JsonScan.CollectElements` | src/agent/shared/jsonutil.cpp:223-315 | Calling until nothing is found returns all elements in order. |
| `JsonScan.ScanEscaped` | src/agent/shared/jsonutil.cpp:265-278 | The walker never leaves a string inside escaped text, whatever it contains. |
| `JsonScan.CollectJoined` | src/agent/shared/jsonutil.cpp:223-315 | Texts that are recognised at the front come back from their joined array in order, and then the walk stops. |
| `JsonScan.CollectSpaced` | src/agent/shared/jsonutil.cpp:237-241 | So they do with any blanks, line ends and commas between them. |
| `JsonScan.CollectBracketed` | src/agent/shared/jsonutil.cpp:237-241 | And behind an opening bracket. |
| `JsonScan.JsonExtractString` | src/agent/shared/jsonutil.cpp:134-167 | Whether a string value was found, and the value cut to the buffer. |
| `JsonScan.ExtractsPair` | src/agent/shared/jsonutil.cpp:109-167 | From a flat object of strings the value of each key is extracted whole, if no earlier name or value is that key and the buffer has room. |
| `JsonScan.ValueLaidOut` | src/agent/shared/jsonutil.cpp:109-131 | A value stands behind the first colon after its key and any blanks after that. |
| `JsonScan.NoStringNoValue` | src/agent/shared/jsonutil.cpp:141-144 | A value that is no string is not extracted. |
| `JsonScan.CopyValue` | src/agent/shared/jsonutil.cpp:147-164 | The copying loop undoes a backslash by dropping it. |
| `RecordJson.AppendRecordJson` | src/agent/shared/network.cpp:27-46 | The object text of the record is appended. |
| `RecordJson.BuildBody` | src/agent/shared/network.cpp:52-72 | One record as a bare object, any other number as an array. |
| `RecordJson.BuildArray` | src/agent/shared/network.cpp:63-71 | The array loop writes the texts in order with commas between. |
| `JsonRead.ReadsEscaped` | src/agent/shared/network.cpp:28-41 | By the string grammar of RFC 8259 an escaped text between quotes is read as the text, whatever follows. |
| `JsonRead.ReadsPrinted` | src/agent/shared/network.cpp:39-44 | By its number grammar a printed integer is read as the integer. |
| `JsonRead.ReadsObject` | src/agent/shared/network.cpp:27-46 | A reader of JSON finds in a sent object exactly six members, each with the record's own value under its own name. |
| `JsonRead.ReadsBody` | src/agent/shared/network.cpp:52-72 | The body of any list of records is valid JSON: one such object for one record, the array of the objects in order for any other number. |
| `RecordJson.ScanObject` | src/agent/shared/jsonutil.cpp:257-302 | The brace counter ends exactly behind a sent object, whatever bytes the record contains. |
| `RecordJson.CollectBody` | src/agent/shared/network.cpp:48-72 | Walking the body of any list of records returns each object's text in order and stops. |
| `RecordJson.WriteThenWalk` | src/agent/shared/network.cpp:52-72 | The two loops together: what the writer writes, the walker takes apart again. |
| `RecordJson.ReadEscaped` | src/agent/shared/jsonutil.cpp:147-164 | Extracting an escaped text gives it without the backslashes, cut to the buffer. |
| `RecordJson.ExtractDeviceId` | src/agent/shared/jsonutil.cpp:134-167 | The device id read from a sent object, for every buffer size. |
| `RecordJson.DeviceIdSurvives` | src/agent/shared/jsonutil.cpp:134-167 | With room for it the id comes back unchanged if and only if it has no control byte. |
| `Tracker.Globals.StartNewRecord` | src/agent/core/activity.cpp:139-148 | The record and the window it belongs to are set together. |
| `Tracker.Globals.TakeSnapshot` | src/agent/core/activity.cpp:167-197 | A snapshot is taken exactly when no finisher is at work and a record is open; the record stays in place. |
| `Tracker.Globals.FinishCurrentRecord` | src/agent/core/activity.cpp:163-230 | Run alone: at most one row, only if not excluded, long enough and inserted; the globals are as before. |
| `Tracker.Globals.CloseCurrentSession` | src/agent/core/activity.cpp:283-301 | Run alone: an open session is saved under the same conditions and then gone. |
| `Tracker.Globals.MonitorActivity` | src/agent/core/activity.cpp:322-397 | Run alone: a changed window ends the old session and opens the new one at the same instant; nothing happens while suspended. |
| `Tracker.Globals.ActivitySuspend` | src/agent/core/activity.cpp:405-424 | Run alone: suspended, the open session saved once and then gone. |
| `Tracker.Globals.ActivityResume` | src/agent/core/activity.cpp:431-435 | Only the flag changes. |
| `Tracker.FinishAlone` | src/agent/core/activity.cpp:163-230 | Without interleaving, a finisher's sections save the record once and then go on or close. |
| `Tracker.MonitorAloneIsTheCode` | src/agent/core/activity.cpp:322-397 | Without interleaving, the watch thread's steps do what `MonitorActivity` does. |
| `Tracker.SuspendAloneIsTheCode` | src/agent/core/activity.cpp:405-424 | Without interleaving, the GUI thread's steps do what `ActivitySuspend` does. |
| `Tracker.SnapshotKeepsInv` | src/agent/core/activity.cpp:167-197 | The snapshot section keeps the invariant under every interleaving. |
| `Tracker.SaveKeepsInv` | src/agent/core/activity.cpp:202-224 | The unlocked insertion keeps it. |
| `Tracker.OpenKeepsInv` | src/agent/core/activity.cpp:385-397 | Opening a record keeps it: the old one is closed or copied by then. |
| `Tracker.StepKeepsInv` | src/agent/core/activity.cpp:163-435 | Every step of either thread keeps it. |
| `Tracker.WindowIffRecord` | src/agent/core/activity.cpp:346-358 | In every state a window is remembered if and only if a record is open; at most one finisher holds the flag. |
| `Tracker.SessionsAreDisjoint` | src/agent/core/activity.cpp:174-188 | Different sessions are disjoint intervals of non-negative length, in every interleaving. |
| `Tracker.NoSessionIsDropped` | src/agent/core/activity.cpp:296-300 | No step closes or overwrites an open session before a finisher has copied it. |
| `Tracker.SnappedIff` | src/agent/core/activity.cpp:174-228 | An open record has been copied exactly when a finisher holds the flag or has released it over this record. |
| `Tracker.HasRowIff` | src/agent/core/activity.cpp:212-222 | An open record has a row exactly when a finisher inserted it and left it in place. |
| `Tracker.NothingOpenWhileSuspended` | src/agent/core/activity.cpp:405-435 | From the return of a suspend to the next resume no record is open. |
| `Tracker.SavedTakeTime` | src/agent/core/activity.cpp:212-222 | With a minimum duration of at least 1 every saved row takes time. |
| `Tracker.InsertedIff` | src/agent/core/activity.cpp:212-222 | A copy is inserted exactly when it is kept and lasted at least the minimum, to the second. |
| `Tracker.MonitorTracks` | src/agent/core/activity.cpp:346-397 | After a look at a window that window is the one recorded: since now if its process or its title is another one than before, else since before. |
| `Tracker.StartsAreKeys` | src/agent/core/activity.cpp:139-148 | Then saved rows of different sessions have strictly increasing start times, and rows share a start exactly when they are of one session. |
| `Tracker.CopiedOnceIff` | src/agent/core/activity.cpp:163-230 | In every run each session is copied at most once if and only if no finisher takes its copy in the gap: after another one released the flag and before the record is closed or replaced. |
| `Tracker.InsertedOnceIff` | src/agent/core/activity.cpp:163-230 | In every run each session has at most one row if and only if no record that was inserted and left in place is copied again and that copy inserted too. |
| `Tracker.ApartIsEnough` | src/agent/core/activity.cpp:150-162 | Threads that never close at the same time copy and insert every session at most once, never meet the gap, and leave an inserted record open only halfway through a finish. |
| `Tracker.SuspendCanCopyTwice` | src/agent/core/activity.cpp:163-230 | The gap is met: a concrete interleaving inserts one session twice, under one start time. |
| `Usage.SaveAdds` | src/agent/core/activity.cpp:212-222 | Saving adds the session's duration if it began since midnight, and nothing otherwise. |
| `Usage.EndDrops` | src/agent/core/activity.cpp:296-300 | Dropping the open record takes away exactly its share. |
| `Usage.CopiedCountsTwice` | src/agent/core/activity.cpp:163-224 | Between saving and dropping, a session counts twice. |
| `Usage.HandOverBooks` | src/agent/core/activity.cpp:283-301 | The hand-over takes the open share away and adds what the saved row brings. |
| `Usage.HandOver` | src/agent/core/activity.cpp:283-301 | It leaves used-today unchanged if and only if the session had no share, or was saved and began since midnight. |
| `Usage.NewestFirstIsDisjoint` | apps/dashboard-web/backend/internal/localdb/localdb.go:319-325 | Successive sessions are disjoint rows of the dashboard's query. |
| `Usage.TodayLiesWithin` | src/agent/shared/database.cpp:429-455 | What began since midnight is no more than what lies between midnight and the end of the last row. |
| `Usage.TodayFits` | src/agent/shared/database.cpp:429-455 | So the rows of successive sessions never sum to more than the time since midnight. |
| `Usage.NeverMoreThanTheDay` | src/agent/core/activity.cpp:466-515 | A check that copies the record, queries the table and reads the clock at three moments charges between 0 and the time since midnight, unless a session was inserted twice or the copied record is in the table by the time of the query. |
| `Usage.ChargesOnceButFor` | src/agent/core/activity.cpp:466-515 | What it charges beyond that is exactly what the table holds of the copied record. |
| `Usage.CountsTwiceIff` | src/agent/core/activity.cpp:466-502 | The copied record is in the table at the query if and only if it was inserted before the copy and left open, or a finisher inserts anything between copy and query. |
| `Usage.TwiceMeansMore` | src/agent/core/activity.cpp:502-515 | If it began since midnight, the copied record is charged twice exactly when it is in the table. |
| `Usage.CheckedWhileSuspending` | src/agent/core/activity.cpp:437-525 | That happens: the machine is suspended between copy and query, no session is inserted twice, 18 of 10 seconds are charged and a limit of 11 is called used up. |
| `Usage.CopiedTwiceIsChargedTwice` | src/agent/core/activity.cpp:494-516 | A session inserted twice breaks the bound, by a concrete run. |
| `Usage.CheckLimits` | src/agent/core/activity.cpp:437-525 | The verdict is the one of the first limit that names the process: blocked, or a non-negative limit that is used up; a limit used up by the open session alone since midnight stops it even if the session began the day before. |
| `Usage.OpenShareIsOverlap` | src/agent/core/activity.cpp:504-517 | The open session counts with exactly the part of it that lies between midnight and now, for its own process. |
| `Usage.OpenShareGrows` | src/agent/core/activity.cpp:504-517 | From midnight on that part grows by every second that passes. |
| `Usage.TableShareGrows` | src/agent/shared/database.cpp:429-455 | A row adds its duration exactly when it is of the process and began since midnight. |
| `Usage.NamesAreCompared` | src/agent/core/activity.cpp:484-485 | Process names are compared without regard to the case of letters. |
| `Usage.CheckAtRest` | src/agent/core/activity.cpp:437-525 | With the three reads and under the two conditions of the bound, a limit longer than the day has been so far never stops anybody. |
| `Auth.AuthStore.constructor` | src/agent/shared/auth.cpp:358-366 | Signed out, nothing saved. |
| `Auth.AuthStore.Logout` | src/agent/shared/auth.cpp:358-366 | The session is zeroed and its file deleted. |
| `Auth.AuthStore.RefreshSession` | src/agent/shared/auth.cpp:368-461 | Silence or an answer without a token changes nothing, a refusal signs out, anything else stores the new session: each field from its own member, kept when that is missing or empty. |
| `Auth.OutcomeByStatus` | src/agent/shared/auth.cpp:405-425 | No answer is silence, a status outside 200 to 299 a refusal, and a session is given only with an access token. |
| `Auth.AnswerFills` | src/agent/shared/auth.cpp:418-452 | What an answer stores, field by field under its own key. |
| `Auth.FullAnswerFills` | src/agent/shared/auth.cpp:418-456 | An answer with all four members gives the session exactly these four values. |
| `Auth.AuthStore.RefreshIfStale` | src/agent/shared/restclient.cpp:27-45 | A token someone else has renewed is not renewed again. |
| `Auth.AuthStore.Call` | src/agent/shared/restclient.cpp:71-102 | A 401 leads to at most one renewal and one more attempt, with the renewed token. |
| `Auth.FieldStays` | src/agent/shared/auth.cpp:436-456 | No answer takes a stored field away: a field changes only to a non-empty text the answer holds under its key. |
| `Auth.RenewalsKeepTheSession` | src/agent/shared/auth.cpp:405-458 | After any series of answers the user is signed out if and only if one of them was a refusal; else the session still holds a refresh token, new or old, and has kept its user and mail address. |
| `Auth.GivenKeepsRefresh` | src/agent/shared/auth.cpp:451-452 | What an answer gives to a session with a refresh token has one. |
| `Auth.BareAnswerIsTaken` | src/agent/shared/auth.cpp:421-456 | An answer with an access token and nothing else is taken for a new session with the old refresh token. |
| `Auth.BareAnswerExists` | src/agent/shared/auth.cpp:421-433 | Such an answer, byte for byte. |
| `Auth.OnlyRefusalSignsOut` | src/agent/shared/auth.cpp:405-416 | Only a refusal signs the user out. |
| `Refresh.GrantKeepsInv` | src/agent/shared/auth.cpp:388-403 | An exchange keeps the invariant: each grant was obtained with the tokens of the one before. |
| `Refresh.CompareKeepsInv` | src/agent/shared/restclient.cpp:32-42 | The comparison under the mutex keeps it. |
| `Refresh.StoreKeepsInv` | src/agent/shared/auth.cpp:429-458 | Storing the new session keeps it, with the old refresh token when the answer brought none. |
| `Refresh.StepKeepsInv` | src/agent/shared/restclient.cpp:27-45 | Every step of every thread keeps it. |
| `Refresh.OneExchangePerToken` | src/agent/shared/restclient.cpp:27-45 | Each access token causes at most one exchange, and each refresh token is exchanged at most once, over any number of threads. |
| `Refresh.OneAtATime` | src/agent/shared/restclient.cpp:29-30 | At most one thread is between taking the mutex and releasing it. |
| `Refresh.RenewsAfter401` | src/agent/shared/restclient.cpp:73-96 | A thread renews, waits for that or tries again only after a 401 to its request. |
| `Refresh.SpentIsPresentedIff` | src/agent/shared/auth.cpp:368-458 | A thread presents an already exchanged refresh token if and only if an earlier answer was lost or came without a refresh token. |
| `Refresh.StrandedByAStep` | src/agent/shared/auth.cpp:394-452 | The newest grant brought no refresh token exactly when such a step occurred. |
| `Refresh.ProceedsWithNewer` | src/agent/shared/restclient.cpp:73-96 | A thread that saw a 401 and goes on sends a newer token than the one that failed, unless signed out. |
| `Refresh.RenewedTokensTurnBack` | src/agent/shared/restclient.cpp:38-42 | A thread with a renewed token turns back before any exchange. |
| `Refresh.AloneIsTheCode` | src/agent/shared/restclient.cpp:27-45 | Without interleaving, the machine's steps do and return what the code does, for every outcome an answer can have whose new tokens have not been seen before. |
| `Refresh.LostAnswerStrandsTheSession` | src/agent/shared/auth.cpp:368-403 | One lost answer leaves the session with a token the endpoint has already taken. |
| `Refresh.BareAnswerStrandsTheSession` | src/agent/shared/auth.cpp:451-452 | With no answer lost, one answer without a refresh token does the same, and the next 401 presents that token. |
| `Limits.LineLoads` | src/agent/shared/applimits.cpp:80-95 | A printed line loads as the limit it was printed from, id aside. |
| `Limits.AnyLineLoads` | src/agent/shared/applimits.cpp:86-95 | A line of any three fields loads as the limit they stand for; any number but 0 means blocked. |
| `Limits.ReturnsAreStripped` | src/agent/shared/applimits.cpp:79-80 | A carriage return at the end of a line is no part of it. |
| `Limits.NamesAreCut` | src/agent/shared/applimits.cpp:91-91 | A name is cut to 259 bytes, and at a NUL before that. |
| `Limits.FileOfACache` | src/agent/shared/applimits.cpp:45-60 | A cache file, line by line. |
| `Limits.LinesLoad` | src/agent/shared/applimits.cpp:74-96 | All lines load in order, up to 64. |
| `Limits.UserLoads` | src/agent/shared/applimits.cpp:76-84 | The first line gives the account back, short of one trailing return. |
| `Limits.LoadIsClean` | src/agent/shared/applimits.cpp:74-96 | Whatever is loaded has at most 64 good names and an account without newline. |
| `Limits.RestoresIffLoadable` | src/agent/shared/applimits.cpp:52-97 | Load after save restores the cache, ids aside, if and only if the account and the names meet the stated conditions. |
| `Limits.LimitsCache.constructor` | src/agent/shared/applimits.cpp:36-38 | Nothing loaded yet. |
| `Limits.LimitsCache.SaveCacheToDisk` | src/agent/shared/applimits.cpp:52-61 | The file holds the printed cache, if it could be written. |
| `Limits.LimitsCache.LoadCacheFromDisk` | src/agent/shared/applimits.cpp:63-97 | Memory becomes what the file holds; no file means an empty cache. |
| `Limits.LimitsCache.GetMyLimits` | src/agent/shared/applimits.cpp:265-287 | A read loads at most once and returns a prefix of the cache if it belongs to the signed-in account. |
| `Limits.LimitsCache.RefreshMyLimits` | src/agent/shared/applimits.cpp:289-322 | A successful fetch replaces the cache and the file; a failed one changes nothing. |
| `Limits.CutLine` | src/agent/shared/applimits.cpp:86-94 | Nothing if and only if the line lacks a second tab; else a name and a daily text without tabs, and a flag text, which rejoin with tabs to the line. |
| `Limits.FieldsRejoin` | src/agent/shared/applimits.cpp:86-94 | The fields of any line rejoin to it, and the first two hold no tab. |
| `Limits.FieldsNeedTwoTabs` | src/agent/shared/applimits.cpp:86-91 | A line has fields if and only if it has two tabs. |
| `Limits.PutLine` | src/agent/shared/applimits.cpp:57-58 | A limit is printed with its fields in order. |
| `Limits.FetchRemembers` | src/agent/shared/applimits.cpp:305-319 | Leaving the file alone is right: it already holds what was fetched. |
| `Limits.FetchIsRead` | src/agent/shared/applimits.cpp:289-322 | A fetch is what is read from then on for its account, whether its file could be written or not; only a good write changes the file, and then the file loads as the fetch. |
| `Limits.ReadsTheLastFetch` | src/agent/shared/applimits.cpp:265-322 | Over every run of fetches, failures, reads, restarts and account switches a read returns a prefix of the last successful fetch if it was for that account, and nothing otherwise. |
| `Hours.HourLaw` | apps/dashboard-web/backend/internal/localdb/localdb.go:392-394 | With a fixed offset the next full hour lies ahead, so the inner loop ends, and the hour index is in range. |
| `Hours.DateLaw` | apps/dashboard-web/backend/internal/localdb/localdb.go:332-340 | A row's calendar day is day i of the week exactly when its start lies in that day. |
| `Hours.AddHours` | apps/dashboard-web/backend/internal/localdb/localdb.go:391-404 | The inner loop ends and gives every hour of the day its overlap with the interval. |
| `Hours.AppUsage.constructor` | apps/dashboard-web/backend/internal/localdb/localdb.go:342-349 | All figures start at zero. |
| `Hours.AppUsage.AddToDay` | apps/dashboard-web/backend/internal/localdb/localdb.go:369-386 | Day total, week, today and yesterday grow by the duration, each by its own rule, and stay consistent. |
| `Hours.DaysPush` | apps/dashboard-web/backend/internal/localdb/localdb.go:369-386 | One more row in day i adds its seconds to that day, to the week, and to today or yesterday when it is that day. |
| `Hours.AppUsage.AddToHours` | apps/dashboard-web/backend/internal/localdb/localdb.go:387-404 | Every hour grows by its overlap with the row. |
| `Hours.AppUsage.AddToTitles` | apps/dashboard-web/backend/internal/localdb/localdb.go:384-386 | The title of the session gains its seconds; no other total changes. |
| `Hours.ReadRows` | apps/dashboard-web/backend/internal/localdb/localdb.go:351-405 | The loop over the rows of the query counts them all. |
| `Hours.TopWindows` | apps/dashboard-web/backend/internal/localdb/localdb.go:420-428 | For every order in which the map yields its titles: at most eight titles, the largest totals first, and nothing left out is larger than anything listed. |
| `Hours.AppUsage.AddToSessions` | apps/dashboard-web/backend/internal/localdb/localdb.go:371-384 | Count, longest and the recent list take the session in. |
| `Hours.AppUsage.AddActivity` | apps/dashboard-web/backend/internal/localdb/localdb.go:351-405 | One row: everything counts the rows read so far. |
| `Hours.AppDetails` | apps/dashboard-web/backend/internal/localdb/localdb.go:311-429 | Each bucket is the sum of overlaps with its hour; day totals, week, today, yesterday, count, average, longest, recent and the windows are what the rows say. |
| `Hours.HoursConserve` | apps/dashboard-web/backend/internal/localdb/localdb.go:387-404 | The buckets hold every second of the rows that falls into the day, and no other. |
| `Hours.DaysConserve` | apps/dashboard-web/backend/internal/localdb/localdb.go:369-386 | The week has every second of the rows; today and yesterday have those of the rows begun on these days. |
| `Hours.SessionsConserve` | apps/dashboard-web/backend/internal/localdb/localdb.go:371-383 | The sessions are exactly the rows of the day that last, and today is their sum. |
| `Hours.DisjointFits` | apps/dashboard-web/backend/internal/localdb/localdb.go:387-404 | Disjoint rows fit into any stretch of time. |
| `Hours.BucketsFit` | apps/dashboard-web/backend/internal/localdb/localdb.go:387-404 | Disjoint rows keep every bucket within 3600 seconds. |
| `BackupNames.FieldIsFixed` | src/agent/shared/backup.cpp:121-126 | A zero-padded number that fits has exactly its width. |
| `BackupNames.NamesSortAsTimes` | src/agent/shared/backup.cpp:67-71 | For years below 10000, names sort exactly as the times they are made of. |
| `BackupNames.NamesDiffer` | src/agent/shared/backup.cpp:121-126 | Different times have different names. |
| `BackupNames.NameOfATime` | src/agent/shared/backup.cpp:121-126 | A name, byte for byte. |
| `Backup.BackupsAreNamed` | src/agent/shared/backup.cpp:79-84 | The files pruning looks at are exactly those named backup_, anything, .json. |
| `BackupNames.FiveDigitYearsSortWrong` | src/agent/shared/backup.cpp:67-71 | The bound is sharp: the year 10000 sorts before 9999. |
| `Backup.RowIsListed` | src/agent/shared/database.cpp:748-767 | Copying the next row extends what is listed correctly. |
| `Backup.BackupFolder.constructor` | src/agent/shared/backup.cpp:94-95 | No backup made yet. |
| `Backup.BackupFolder.ListSorted` | src/agent/shared/backup.cpp:74-86 | The backups of the folder, each once, in order of name. |
| `Backup.BackupFolder.CleanupOldBackups` | src/agent/shared/backup.cpp:72-92 | The last 14 backups and every other file remain, unchanged; every deleted name is smaller than every kept one. |
| `Backup.BackupFolder.ExportRows` | src/agent/shared/database.cpp:714-783 | The whole table in the order of ids. |
| `Backup.BackupRebuilds` | src/agent/shared/database.cpp:724-767 | From a backup exactly the table can be rebuilt, but for how often and until when a row was refused. |
| `Backup.BackupFolder.CreateSnapshot` | src/agent/shared/backup.cpp:99-145 | Run alone: skipped exactly when nothing changed; otherwise the file lists the table, the counter is remembered, old files are pruned. |
| `Backup.NewestStays` | src/agent/shared/backup.cpp:67-91 | The newest backup is never pruned. |
| `Backup.StepKeepsInv` | src/agent/shared/backup.cpp:99-145 | Every step, racing writes included, keeps the invariant. |
| `Backup.SkippedMeansSaved` | src/agent/shared/backup.cpp:109-111 | Whenever a snapshot is skipped, the newest backup is there and lists the table as it is now, even if writes raced with the export. |
| `Backup.AloneIsTheCode` | src/agent/shared/backup.cpp:99-145 | Without writes in between, the steps of an export do what `CreateSnapshot` does: not skipped, and either nothing changes or the file lists the table, the counter is remembered and old files are pruned. |
| `Backup.CopiesReachTheEnd` | src/agent/shared/database.cpp:748-767 | Left alone, an export copies row after row until none is left. |
| `Backup.PruningKeepsTheLatest` | src/agent/shared/backup.cpp:67-92 | Every finished backup leaves at most 14, itself included and itself the newest. |
| `Sessions.KeysAreSessions` | supabase/functions/sync-activity/index.ts:124-124 | Two saved rows have the same upsert key exactly when they are copies of one session. |
| `Sessions.RecordTells` | src/agent/core/activity.cpp:174-222 | A recorded session is sent with its window, its times and the seconds between them, which are never negative. |
| `Sessions.KeysDifferIff` | supabase/functions/sync-activity/index.ts:124-124 | The saved rows have distinct upsert keys if and only if no session was inserted twice. |
| `Sessions.DeliveredKeys` | supabase/functions/sync-activity/index.ts:124-124 | Deliveries of saved rows share a key exactly when they are of one user and one session. |
| `Sessions.SessionsReachTheCloudOnce` | src/agent/core/activity.cpp:181-222 | In every interleaving of the tracker and every run of the agent the cloud has exactly one row per user and session delivered, the latest delivery of that session, even for a session inserted twice. |
| `Sessions.SessionsFitTheirHours` | apps/dashboard-web/backend/internal/localdb/localdb.go:387-404 | Unless one was inserted twice, the tracker's sessions fill no hour with more than 3600 seconds. |

## Left out

- Database.ActivityDb.GetUnsyncedRecords: does not model the truncation of the id to 32 bits or of texts to the record's buffers, because ids count insertions on one machine.
- Database.ActivityDb.MarkSyncFailed: the retry times of a run are parameters, because the clock SQLite reads is outside.
- Network.NetworkSendBatch: a session change by another thread in the middle of a call is modelled only as a renewal or a sign-out, because login and logout are user actions.
- EndToEnd.NoRecordIsEverLost: assumes that the server keeps what it has stored, because nothing in the repository deletes cloud rows.
- QueueProgress.NoStarvation: speaks of rounds the server answers, because no queue drains while the line is down.
- JsonScan.JsonArrayNext: returns the object and the cursor instead of writing through pointers, because the caller's buffer is the result.
- JsonScan.JsonExtractString: does not decode the escapes for line feed, tab or code points, because the code does not either.
- JsonRead.ReadsBody: the reader takes strings, integers, objects and arrays, because the agent writes no other values; numbers with fractions or exponents, `true`, `false` and `null` are not read.
- JsonScan.ExtractsPair: speaks of objects whose values are strings, because the search for a key is blind to nesting and to what stands in values.
- JsonText.EscapeRoundTrip: leaves out surrogate pairs in the decoder, because the escaper never writes one.
- RecordJson.AppendRecordJson: takes the UTF-8 bytes of process and title as given, because the conversion is a Windows call.
- SyncActivity.ActivityTable.Handle: counts the length of a process name or title in UTF-8 bytes, where the handler counts UTF-16 units of the decoded text, and takes the user behind a token as given, because decoding and authentication happen in libraries.
- Tracker.Globals.MonitorActivity: only the foreground window is an input; reading it, console output and pausing from the tray are not modelled.
- Tracker.Globals.ActivitySuspend: run alone; the interleaved case is the machine of the same module.
- Sessions.SessionsReachTheCloudOnce: the queue is filled with what the tracker saved, under the row number as id, because SQLite hands out the ids in order.
- SyncActivity.DeployedIsSound: exempts answers of 401 and assumes that the handler's database is up, because a failing database answers 500 to anything; what follows for 401 is in `SyncActivity.DeployedBooks`.
- Deployed.FullRoundSettlesEight: assumes a session, answers that arrive and a handler without failures, because any of these ends a round earlier.
- Usage.CheckLimits: the verdict only; terminating the process is a foreign call.
- Usage.NeverMoreThanTheDay: the query behind the sum is a function on rows and the two midnights, of the query and of the clock, are parameters, the first not after the second, because SQLite and time zones are outside.
- Auth.AuthStore.RefreshSession: the encrypted session file is a value that is written or deleted, because DPAPI is a foreign call.
- Refresh.OneExchangePerToken: assumes that nobody logs in or out during a refresh, that the endpoint rotates tokens and that no access token is empty, because a login would overwrite the session; a token cut short by its buffer counts as one never seen before.
- Limits.LimitsCache.RefreshMyLimits: parsing the server's list of limits is left out, because it would add only easy members; a fetch is a list or a failure.
- Limits.ReadsTheLastFetch: assumes that cache files can be written, because a failed write and a restart lose the cache.
- Hours.AppDetails: uses a fixed offset from UTC; between windows with equal totals the order is that of the model's insertion, because the code's sort is not stable and promises none.
- Hours.HoursConserve: makes no claim across a change of daylight saving time, where the hour loop may stop early.
- Backup.BackupFolder.CleanupOldBackups: assumes that deletions succeed, because the code ignores their errors.
- Backup.BackupFolder.ExportRows: the rows of a backup are values, not JSON text; the escaper it uses is the one proved in `JsonText`.
- Backup.PruningKeepsTheLatest: assumes that local time does not go back between finished backups.
- Updates in place through pointers: the C buffers of records and limits are sequences here.
- SQL as text: statements are operations on a map from id to row.
- 32-bit counters and lengths: indices and sums are unbounded integers, except for the back-off delay, which is proved to fit in 64 bits.
- The endless loops of src/agent/agent/main.cpp: the model fixes only which thread takes which step.
- Windows, Qt, registry and HTTP library calls, system statistics, charts, settings files, device id files, CSV export and the dashboards' REST wrappers.
- The Go helper `withAuthRetry`: it takes no refresh lock, so single flight does not apply to it.
