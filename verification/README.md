# StatsHouse delivery conveyor in Dafny

StatsHouse agents collect metrics second by second and deliver every second to one of the three
aggregator replicas of a shard, which inserts it into ClickHouse and only then acknowledges it. This
project models that conveyor from the agent's ring of seconds to the acknowledgement and proves what
it promises.

* **Disk cache** (`Records`, `Store`, `DiskState`, `DiskOps`, `DiskFolder`, `DiskSteps`, `DiskRestart`,
  `DiskCache`). The byte format of records and the scan that reads it back; the class `DiskCacheShard`
  with its files, reference counts, four size counters and tail scanner, proved against two abstract
  values: a `Store` (buckets by id, unread buckets in order), which is what the cache knows, and a
  `Folder` (the live records of the files), which is what the next restart will find. Files are byte
  sequences, so restart recovery is a theorem about bytes, and the two values are allowed to come apart:
  writes are cut, deletion marks are torn or lost, files cannot be read.
* **Ring** (`SuperQueue`). The 128 slots over an `array`, the fixed-point hash spread in 32-bit
  arithmetic, jumps, and the whole history of accepted events.
* **Agent** (`HistoricQueue`, `RetryQueue`, `Liveness`, `Routing`, `Agent`, `AgentProgress`, `Conveyor`,
  `ConveyorQueue`).
  The memory-limited retry queue fed from the disk, the liveness detector, the choice of a replica, the
  shard as a system of interleaved steps, and the queue, the loops of the senders and the eraser on the
  real disk cache and the real queue, each shown to be a run of those steps.
* **Aggregator** (`RecentWindow`, `AggBucket`, `Aggregator`, `AggSteps`, `AggMachine`, `AggRuns`,
  `AggTheorems`, `AggWindow`, `AggReasons`, `AggAnswers`, `AggProgress`, `AggLoops`, `TagsMapper`). Handlers,
  cancels, the ticker, inserters and shutdown as interleaved steps, where a step is what runs under one
  lock; theorems about every run: who is told what and why, that nobody is forgotten and that no state is a
  dead end; the loops that run under the lock; the table of unknown tags.
* **The whole** (`Delivery`, `EndToEnd`, `Progress`, `Witness`). Any number of agents and three replicas,
  with requests in flight between them. `EndToEnd.AckedWasInserted`, `EndToEnd.FailureErasesNothing` and
  `EndToEnd.SavedUntilDelivered` say what may be erased and when; `Progress.CanBeDelivered` and
  `Progress.SafeCanBeDelivered` say that from every reachable state every bucket can still be delivered;
  `Witness.DeliveryHappens` gives a whole delivery from a fresh start up to the erased bucket.

Input and output, clocks, randomness and the network are parameters, or choices of the steps, so every
outcome of them is covered. The checksum is an arbitrary function of the bytes. Times are clear of the
ends of the 32-bit range; where the source computes with wrap-around (the slot of an event) the model
does too and proves that nothing wraps.

Where the model found more than the source says:

* A deletion mark of which only three of four bytes reach the disk hides not only its own record but
  everything behind it in the file (`Records.TornErase`, with the exact condition): the first two bytes
  of both marks are the same, the third is not. `DiskRestart.EraseThenRestart` says for every number of
  bytes what the next start finds: with fewer than three an acknowledged bucket comes back, with three
  its neighbours behind it are gone. So "a saved bucket stays until it is delivered, expires, exceeds the
  limit or cannot be read" holds only with two more reasons, both in `Agent.Lets`: the torn mark of a
  bucket before it in its file, and a tail file that could not be opened or read.
* A write that failed is reported as not saved although its whole record can be in the file; the next
  start then finds a bucket the agent had counted as lost (`DiskCache.DiskCacheShard.PutBucket`,
  `Agent.StrayOrigins`).
* The branch for a full insert conveyor skips the subtraction of historic hosts and says in a comment
  that there are none. There can be: a historic sender whose second is still recent lands in a recent
  bucket. `AggWindow.LeakHappens` is such a run, `AggTheorems.OverflowLeaks` says exactly when the branch
  is right, and `AggTheorems.LeaksStay` that what has leaked never comes back.
* Simulated errors that wait for a bucket are failed after its insert, but the branch for a full conveyor
  does not mention them: they are never answered, in any continuation, and these are the only clients that
  cannot be (`AggProgress.AnswerableIff`).
* A comment in `internal/agent/agent_shard_replica.go` says that data goes to the original replica when
  the spare is dead too; the code sends it nowhere, and so does `Routing.ShardReplicaForSecond`.
* The two panics of the aggregator, the negative-size panic and the duplicate-id panic of the agent, the
  clamp of unsent bytes and the branch for a send time that is not over are unreachable.

## Model

| member | source | states |
|---|---|---|
| `Records.BytesRoundTrip` | internal/agent/disk_cache.go:256-260 | decoding the little-endian encoding of a number gives the number back |
| `Records.EncodedFields` | internal/agent/disk_cache.go:256-272 | a record appended to any file is read back as a good chunk with its second, checksum and body, and ends where the file ends |
| `Records.ScanInOrder` | internal/agent/disk_cache.go:310-345 | the scan finds records at strictly increasing positions |
| `Records.AppendRecord` | internal/agent/disk_cache.go:256-272 | appending a record adds exactly it to the end of what a scan finds |
| `Records.TornChunk` | internal/agent/disk_cache.go:262-271 | what is left of a write that was cut short is never taken for a chunk |
| `Records.TornAppend` | internal/agent/disk_cache.go:262-271 | a cut write changes nothing for any scan of the file |
| `Records.EraseRecord` | internal/agent/disk_cache.go:402-417 | a complete deletion mark removes exactly its own record from every later scan |
| `Records.EraseKeepsWalk` | internal/agent/disk_cache.go:402-417 | every chunk boundary that the scan reached before an erase is still reached after it |
| `Records.TornErase` | internal/agent/disk_cache.go:406-409 | with fewer than three bytes of the mark written the scan is unchanged; with three it loses this record and all behind it; unchanged if and only if fewer than three |
| `DiskState.UnsentAtMostTotal` | internal/agent/disk_cache.go:197-208 | known, waiting and unread bytes never exceed the total, so the clamp never fires |
| `DiskOps.UnrefInv` | internal/agent/disk_cache.go:210-232 | giving up a reference keeps every reference count exact, and removes the file exactly with the last one |
| `DiskOps.UnrefView` | internal/agent/disk_cache.go:210-232 | no bucket, known or unread, is lost when a file is closed |
| `DiskFolder.WrittenFolder` | internal/agent/disk_cache.go:256-272 | a record that was written whole is found by the next start exactly if no torn mark lies before it in its file, and no other record changes |
| `DiskFolder.ForgetFolder` | internal/agent/disk_cache.go:402-417 | what the next start finds after any number of bytes of a deletion mark: all but this record with four, none at or behind it in its file with three, everything with fewer |
| `DiskRestart.RestartInv` | internal/agent/disk_cache.go:148-181 | the shard built from any folder meets the whole invariant, whatever the bytes are |
| `DiskRestart.EraseThenRestart` | internal/agent/disk_cache.go:402-423 | for every number of written bytes of the mark: the erased bucket comes back exactly if fewer than three were written and its file is still there, another one is lost exactly if three were and it lies behind it in the same file |
| `DiskRestart.RestartRecovers` | internal/agent/disk_cache.go:148-181 | after a restart, whatever was torn or lost before it, exactly the live records of the files are readable, each once, files in name order and records in write order; if nothing was torn or lost these are exactly the buckets known or unread before |
| `DiskCache.DiskCacheShard.constructor` | internal/agent/disk_cache.go:148-181 | a shard on an arbitrary folder is valid |
| `DiskCache.DiskCacheShard.TotalFileSize` | internal/agent/disk_cache.go:197-208 | returns the counters; the unsent size is the sum it stands for and at most the total |
| `DiskCache.DiskCacheShard.UnrefFile` | internal/agent/disk_cache.go:210-232 | counts down; with the last reference the file is closed, and deleted exactly if the file system allows it; all known and unread buckets stay, and a restart misses only what was in the deleted file |
| `DiskCache.DiskCacheShard.PrepareWriting` | internal/agent/disk_cache.go:234-255 | rotates by size and age or creates a file; succeeds exactly if the file being written has room and is not too old or a new one of this name can be created; buckets are untouched and a file with room for the record is ready |
| `DiskCache.DiskCacheShard.AbandonWriting` | internal/agent/disk_cache.go:262-271 | after a failed write the file is given up, with whatever bytes it holds; no bucket the cache knows changes, and a restart finds one record more exactly if the bytes are a whole record and their file is kept |
| `DiskCache.DiskCacheShard.PutBucket` | internal/agent/disk_cache.go:349-372 | a fresh id means that exactly these bytes are known under it and nothing else changed, also for the next start; 0 means that no bucket changed, and says what a start will find of the failed write; which of the two, by an exact condition on the size, the write and the files |
| `DiskCache.DiskCacheShard.EraseBucket` | internal/agent/disk_cache.go:402-423 | exactly this bucket is forgotten, and what a restart finds depends on the bytes of the mark that were written; its file is deleted exactly with the last reference to it; erasing one that is not saved does nothing; the error says whether the mark was written |
| `DiskCache.DiskCacheShard.GetBucket` | internal/agent/disk_cache.go:375-400 | unknown id, wrong second, failed read, wrong checksum or exactly the bytes that were put, and which of these; only the two read failures erase, with the effect of that erase |
| `DiskCache.DiskCacheShard.OpenNextTail` | internal/agent/disk_cache.go:283-309 | moves to the next file that can be opened; what is left is a suffix of the unread buckets, and those passed over lay in files that could not be opened |
| `DiskCache.DiskCacheShard.ReadTailChunk` | internal/agent/disk_cache.go:310-345 | one chunk of the tail: the first unread bucket under a fresh id, a deleted or foreign one stepped over, or the end of the file; after a fault what is left is a suffix of the unread buckets and those passed over lay in the faulty file |
| `DiskCache.DiskCacheShard.ReadNextTailSecond` | internal/agent/disk_cache.go:275-347 | ends on every folder and under every fault; it takes the first unread bucket that can be read, under the next id; those passed over lay behind a fault of their file, and the one taken not at one; what is left is the suffix behind it; 0 means nothing is left; files it deletes hold nothing known or unread |
| `DiskCache.ReadWholeTail` | internal/agent/disk_cache.go:275-347 | reading to the end gives every unread bucket exactly one increasing id, in order |
| `DiskCache.Recover` | internal/agent/disk_cache.go:148-181 | restart and read to the end, after whatever happened to the files: exactly the live records come back, each under one new id, in order; if nothing was torn or lost these are exactly the buckets that were known or unread |
| `SuperQueue.ResolutionShardFromHash` | internal/agent/agent_shard.go:113-162 | in 32-bit arithmetic with clocks 128 seconds clear of its end nothing wraps, and the result is the exact placement, which `SuperQueue.PlaceMeans` characterizes |
| `SuperQueue.PlaceMeans` | internal/agent/agent_shard.go:128-160 | an event is attributed to the beginning of the interval of its resolution in which the wanted second lies: the current one if it came without a timestamp, at most three ahead, and clamped exactly if it came with a later one; its slot is the first one still to be sent, for low resolutions the first after the interval at the hash's own second |
| `SuperQueue.SpreadIsShare` | internal/agent/agent_shard.go:153-153 | the fixed-point share of a hash is the second of the interval at which its low word lies in its range |
| `SuperQueue.PlaceInRing` | internal/agent/agent_shard.go:94-162 | every accepted event lands in one of the 128 slots from the next one to be sent, never before its own second |
| `SuperQueue.PlaceAligned` | internal/agent/agent_shard.go:151-160 | the slot is congruent to the hash spread modulo the resolution, late or not, and the second is a multiple of it |
| `SuperQueue.RingIsTight` | internal/agent/agent_shard.go:20-27 | slot 127 is reached, so the ring could not be shorter |
| `SuperQueue.DueAfterJump` | internal/agent/agent_shard_send.go:47-49 | a jump by whole turns leaves every slot in its position of the order |
| `SuperQueue.SentNotEarly` | internal/agent/agent_shard_send.go:65-77 | no event is sent in a bucket before its own second, and without a jump exactly in its slot |
| `SuperQueue.SuperQueue.constructor` | internal/agent/agent.go:254-270 | the initial ring is empty and accepts the two seconds before now |
| `SuperQueue.SuperQueue.Apply` | internal/agent/agent_shard.go:232-258 | accepted exactly when receiving, without a gap and not too old; an accepted event is in exactly the slot it was placed in |
| `SuperQueue.SuperQueue.StopReceivingIncomingData` | internal/agent/agent_shard_send.go:79-83 | nothing is accepted afterwards, nothing else changes |
| `SuperQueue.SuperQueue.FlushAllDataSingleStep` | internal/agent/agent_shard_send.go:65-77 | the slot of the second is emptied into one sent bucket, or skipped if empty; sent seconds strictly increase; every event is in exactly one slot or one sent bucket |
| `SuperQueue.SuperQueue.JumpAhead` | internal/agent/agent_shard_send.go:47-49 | jumps exactly when the queue is too far behind, by whole turns, at most two seconds past the current time |
| `SuperQueue.SuperQueue.FlushBuckets` | internal/agent/agent_shard_send.go:28-63 | goes on from the second after the jump until the first check at which the preprocessor is not idle, otherwise up to the agent's window and no further; exactly the seconds passed are sent, each with its slot's events, empty ones exactly where there is no gap, and exactly their slots are emptied; the safety branch is dead |
| `SuperQueue.SuperQueue.FlushAllData` | internal/agent/agent.go:424-434 | 128 steps leave every slot empty and every accepted event in exactly one sent bucket; exactly the seconds with events are sent |
| `SuperQueue.SendsExactly` | internal/agent/agent_shard_send.go:51-77 | which buckets a flush of some seconds consists of: one for every second that has events or is wanted empty, with exactly the events of its slot |
| `HistoricQueue.WithoutBag` | internal/agent/agent_shard_send.go:586-589 | moving the last entry into the hole removes exactly one entry |
| `HistoricQueue.FindOldest` | internal/agent/agent_shard_send.go:569-574 | finds the first among the entries of minimum time |
| `RetryQueue.HistoricQueues.AppendHistoricBucketsToSend` | internal/agent/agent_shard_send.go:532-550 | keeps the data if it fits, only the id if saved, and loses the bucket exactly if neither; all sizes stay exact and within the limit |
| `RetryQueue.MemoryBounded` | internal/agent/agent_shard_send.go:535-547 | the queues of all shards together never exceed the memory they have in common |
| `RetryQueue.HistoricQueues.ReadHistoricSecondLocked` | internal/agent/agent_shard_send.go:552-561 | queues without data the first unread bucket of the disk that is not in a faulty file, or nothing if there is none; the disk is left as after that read |
| `RetryQueue.HistoricQueues.PopOldestHistoricSecond` | internal/agent/agent_shard_send.go:563-600 | removes exactly the first entry of minimum time and adds the next bucket of the disk; refuses exactly if the queue is empty or its oldest second is not over, and then changes nothing; the negative-size panic is dead |
| `Liveness.SuccessesFull` | internal/agent/agent_shard_keepalive.go:26-32 | the count equals the window length exactly if there is no failure in it |
| `Liveness.ShardReplica.AppendLastSendSuccessful` | internal/agent/agent_shard_keepalive.go:21-33 | the list is always the last results since the replica went dead, and the count is of the successes among them |
| `Liveness.ShardReplica.RecordSendResultLocked` | internal/agent/agent_shard_keepalive.go:35-47 | a replica goes dead exactly on a full window with too few successes, also when it died while this result waited for the lock |
| `Liveness.ShardReplica.RecordKeepLiveResult` | internal/agent/agent_shard_keepalive.go:49-59 | it comes back exactly when the last full window, all recorded since its death, has no failure |
| `Routing.RouteFacts` | internal/agent/agent.go:474-487 | a second goes to its primary if that is alive, otherwise to one other live replica, and nowhere exactly if both are dead |
| `Routing.SparesTakeTurns` | internal/agent/agent.go:474-487 | the seconds of a dead replica go in turn to the one and the other of the remaining two |
| `Routing.RoundToOurTime` | internal/aggregator/aggregator_handlers.go:265-271 | the loop finds the first second of this replica at or after the given one |
| `Routing.RoundedIsOwnSecond` | internal/aggregator/aggregator_handlers.go:265-271 | a bucket is counted into its own second exactly when it was sent to its primary |
| `RecentWindow.AfterTick` | internal/aggregator/aggregator.go:1088-1117 | after a tick the window reaches three seconds ahead, has at least seven seconds and no more than before or than it needs, and never moves back |
| `RecentWindow.OverExactly` | internal/aggregator/aggregator.go:1096-1100 | a second is released exactly when the clock is past it by more than the short window |
| `RecentWindow.RecentBuckets.AdvanceRecentBuckets` | internal/aggregator/aggregator.go:1088-1117 | under any clock the window is consecutive seconds, exactly the seconds that are over are released, in strictly increasing order over the whole run and none twice |
| `RecentWindow.RecentBuckets.KeepAliveIndex` | internal/aggregator/aggregator_handlers.go:842-847 | the keep-alive always finds the replica's bucket among the first three |
| `RecentWindow.NotTooFarInFuture` | internal/aggregator/aggregator_handlers.go:301-309 | a bucket up to one second ahead of the last tick is never refused as too far in the future |
| `RecentWindow.TooFarInFuture` | internal/aggregator/aggregator_handlers.go:301-309 | one second more can be refused |
| `AggBucket.AdmitInv` | internal/aggregator/aggregator_handlers.go:335-342 | admitting a client keeps the bucket's invariant and claims one sender of its host exactly if it is historic |
| `AggBucket.MergeInv` | internal/aggregator/aggregator_handlers.go:600-618 | merging adds the rows of this request to the bucket; it holds at any time exactly the rows of the clients that sent data and are past their merge |
| `AggBucket.RegisterInv` | internal/aggregator/aggregator_handlers.go:625-642 | registering, which a client with data reaches only with its rows merged, keeps that and the bucket's own host counts equal to its registered historic senders; a bucket that was answered has no contributors |
| `AggBucket.QuietCounts` | internal/aggregator/aggregator.go:898-903 | once no client merges any more the bucket's counts are exactly its admitted historic senders |
| `Aggregator.DecideFacts` | internal/aggregator/aggregator_handlers.go:262-332 | admission picks a bucket that is still collected, of exactly this second if historic, otherwise of the replica's own second at or right after it, which is this second exactly for the primary |
| `Aggregator.DecideReasons` | internal/aggregator/aggregator_handlers.go:247-318 | exactly which buckets are admitted, told to be kept or left unanswered, and that every other one is refused for a reason that holds of its second and the window |
| `Aggregator.KeepAliveFacts` | internal/aggregator/aggregator_handlers.go:834-851 | a keep-alive gets the bucket of this replica's first recent second, which is still collected |
| `AggSteps.AdmitCore` | internal/aggregator/aggregator_handlers.go:335-342 | admission keeps all invariants of the aggregator, host counts included |
| `AggSteps.ReleaseFirstCore` | internal/aggregator/aggregator.go:1096-1100 | taking the oldest second out of the window keeps them |
| `AggMachine.RegistrationCore` | internal/aggregator/aggregator_handlers.go:625-655 | registering a long poll after the merge, or failing to start it, keeps them |
| `AggMachine.CancellingCore` | internal/aggregator/aggregator.go:163-171 | a cancel only takes away a long poll |
| `AggMachine.PassingCore` | internal/aggregator/aggregator.go:1129-1132 | the barrier passes when no client holds the read lock and keeps all invariants |
| `AggMachine.AnsweringCore` | internal/aggregator/aggregator.go:871-898 | answering all long polls of a bucket at once keeps all invariants: nobody twice, "inserted" only to clients whose rows were in a successful insert or to keep-alives, "stale" only for a second behind the historic window; that they are told exactly this is `AggAnswers.AnswersExactly` |
| `AggMachine.InsertionCore` | internal/aggregator/aggregator.go:838-845 | an insert takes exactly the rows that were merged into the bucket, after its barrier so those of all its clients |
| `AggMachine.SettlingCore` | internal/aggregator/aggregator.go:898-903 | subtracting takes exactly the bucket's share out of the aggregator's host counts |
| `AggMachine.PoppingCore` | internal/aggregator/aggregator.go:1055-1076 | taking a bucket out of the historic map, as stale only if its second is behind the historic window, keeps all invariants |
| `AggMachine.TickInv` | internal/aggregator/aggregator.go:1088-1117 | so does a tick, whatever the clock does |
| `AggMachine.StepInv` | internal/aggregator/aggregator.go:1119-1171 | every step of handlers, cancels, ticker, inserters and shutdown keeps the invariant |
| `AggRuns.StepLater` | internal/aggregator/aggregator.go:871-903 | no step takes back an answer or an insert, rows once merged stay, and behind its barrier a bucket loses nothing but long polls |
| `AggTheorems.InitInv` | internal/aggregator/aggregator.go:1088-1117 | the aggregator starts in the invariant |
| `AggTheorems.RunInv` | internal/aggregator/aggregator.go:1119-1171 | so every run from there keeps it |
| `AggTheorems.BarrierHolds` | internal/aggregator/aggregator.go:1129-1132 | once the barrier of a bucket has passed, in every continuation it has exactly the same clients, all done, and exactly the same rows; only long polls still disappear |
| `AggTheorems.ReadLockNeverWaits` | internal/aggregator/aggregator_handlers.go:335-342 | the read lock an admitted client takes under the aggregator's lock never has a writer waiting |
| `AggTheorems.PanicsAreDead` | internal/aggregator/aggregator.go:1133-1136 | a ready bucket of another replica has no contributors, and a historic bucket no simulated errors |
| `AggTheorems.OnlyInsertionInserts` | internal/aggregator/aggregator.go:838-845 | only a successful insert of a bucket makes it count as inserted |
| `AggTheorems.InsertHappened` | internal/aggregator/aggregator.go:838-845 | whatever counts as inserted was inserted successfully in the run |
| `AggTheorems.AckSafety` | internal/aggregator/aggregator.go:877-893 | in every run a client is told to erase because of an insert only if that insert is in the run, succeeded, and had in it exactly the rows the client came with; keep-alives, which have none, excepted |
| `AggTheorems.WhoErases` | internal/aggregator/aggregator.go:877-893 | no other step gives an answer that lets a waiting client erase |
| `AggTheorems.FailureNeverErases` | internal/aggregator/aggregator.go:1144-1171 | after a failed insert or a full conveyor no client of the bucket is ever told to erase, in any continuation |
| `AggTheorems.HostsConserved` | internal/aggregator/aggregator.go:696-713 | in every reachable state a host's count is what the buckets not yet settled stand for plus what full conveyors leaked, so never negative |
| `AggTheorems.LeaksStay` | internal/aggregator/aggregator.go:1153-1155 | what has leaked is never given back |
| `AggTheorems.OverflowLeaks` | internal/aggregator/aggregator.go:1153-1155 | a full conveyor leaks exactly the historic senders of the bucket it drops, and nothing if and only if there are none |
| `AggWindow.TickWindow` | internal/aggregator/aggregator.go:1096-1110 | a tick of the whole aggregator moves its window exactly as the window alone moves, and changes no other bucket |
| `AggWindow.NewClients` | internal/aggregator/aggregator_handlers.go:335-342 | nobody gets into a bucket but by being admitted |
| `AggWindow.NewRows` | internal/aggregator/aggregator_handlers.go:600-618 | no rows get into a bucket but by the merge of their own request |
| `AggWindow.ArrivePlace` | internal/aggregator/aggregator_handlers.go:274-318 | data is taken in under its own second, or under the replica's next one while that is recent, as what it came: with its rows unless it is recent and to be failed, and with its host |
| `AggWindow.LeakHappens` | internal/aggregator/aggregator.go:1153-1155 | a run after which a host is counted although no bucket waits for it |
| `AggReasons.ErasedBy` | internal/aggregator/aggregator_handlers.go:301-318 | every answer that lets a client erase is given by the step its reason names: the inserter after a successful insert or for a stale bucket, the arrival of a second that was outside of the window at that moment, or a rejection |
| `AggReasons.StaleHappened` | internal/aggregator/aggregator.go:1055-1076 | in every run a bucket is given up as stale only by a pop of that run, at a moment when its second lay before the beginning of the window by more than the historic window |
| `AggReasons.MergedBeforeInsert` | internal/aggregator/aggregator.go:838-845 | in every run rows that were in an insert had been merged by their own request in a step before that insert |
| `AggReasons.PopDecides` | internal/aggregator/aggregator.go:1055-1086 | a pop gives its bucket up as stale exactly if its second lies behind the historic window, otherwise it is to be inserted; no other bucket is touched |
| `AggAnswers.AnswersExactly` | internal/aggregator/aggregator.go:871-893 | for every step, client and answer: the client gets this answer in this step if and only if it is owed it. All waiting clients of a bucket, historic ones included, hear exactly what became of it: inserted, insert failed, stale, conveyor full; refusals at arrival likewise |
| `AggAnswers.ArrivalLands` | internal/aggregator/aggregator_handlers.go:274-342 | a request is in a bucket after its arrival exactly if its second lies within the window it is held to and the aggregator is not closing; which bucket, and with which rows, host and kind |
| `AggAnswers.StillWaits` | internal/aggregator/aggregator_handlers.go:625-642 | whoever waits for an answer still waits after a step, unless the step answers it or cancels it |
| `AggAnswers.RunClosing` | internal/aggregator/aggregator.go:450-455 | a shutdown begins with its step and is for good |
| `AggAnswers.NobodyForgotten` | internal/aggregator/aggregator_handlers.go:192-342 | in every run each request that came has its answer, or waits for it in a bucket, or was cancelled, or had come while the aggregator was closing down |
| `AggProgress.NothingMislaid` | internal/aggregator/aggregator.go:1055-1117 | in every reachable state each bucket that is being collected is in the window or in the historic map under its second, where the ticker or an inserter will find it |
| `AggProgress.CanBeAnswered` | internal/aggregator/aggregator.go:1119-1171 | from every such state a client that waits can still be answered by what the aggregator does itself, and be told to erase its data unless its insert has failed or its error is simulated: no state is a dead end |
| `AggProgress.AnswerableIff` | internal/aggregator/aggregator.go:1144-1171 | a waiting client can still be answered if and only if its bucket was not dropped by the full conveyor; those left waiting there are simulated errors |
| `AggLoops.UpdateHistoricHost` | internal/aggregator/aggregator.go:696-705 | the loop subtracts every host's count and leaves no zero entries behind |
| `AggLoops.PopOldestHistoricBucket` | internal/aggregator/aggregator.go:1055-1086 | in any order of the map: takes out exactly the stale buckets and the oldest of the others, and this is a run of exactly so many pops, the last of them for the oldest |
| `TagsMapper.EntrySummarizes` | internal/aggregator/tags-mapper3.go:94-101 | an entry's hits are counted in strictly increasing seconds since its admission, the last of which is the latest of all sightings, and its total is what they add up to |
| `TagsMapper.HitsExactly` | internal/aggregator/tags-mapper3.go:98-101 | the hits are exactly the seconds in which the string was seen later than ever before |
| `TagsMapper.PromotedIffSeenOften` | internal/aggregator/tags-mapper3.go:102-105 | a string deserves its promotion if and only if it was seen in more such seconds and with a larger total than configured |
| `TagsMapper.TagsMapper.constructor` | internal/aggregator/tags-mapper3.go:64-75 | the empty table has zero sums |
| `TagsMapper.TagsMapper.Resample` | internal/aggregator/tags-mapper3.go:127-142 | exactly the entries that are fresh and survive the dice stay, with their histories and exact sums |
| `TagsMapper.TagsMapper.AddUnknownTagLocked` | internal/aggregator/tags-mapper3.go:93-125 | a known string is promoted exactly if its whole history deserves it; a new one is admitted by sampling into exactly the table that the needed resamplings leave, with the sample factor doubled once for each of them; the table then has at most the larger of 2 and the limit |
| `TagsMapper.ThinnedIsExact` | internal/aggregator/tags-mapper3.go:112-142 | making room throws out exactly the entries that lose one of the throws, with the factor doubled for each, and stops as soon as there is room |
| `TagsMapper.DrawDecides` | internal/aggregator/tags-mapper3.go:108-110 | an entry survives, and a new string is admitted, exactly if its draw is below its total, so with odds of total to factor; the comparison before the draw changes nothing |
| `TagsMapper.TagsMapper.DropStale` | internal/aggregator/tags-mapper3.go:159-170 | looks at the whole table or at 129 plus four times the batch size of its strings, whichever is less, and forgets exactly the stale ones among them |
| `TagsMapper.TagsMapper.AddUnknownTags` | internal/aggregator/tags-mapper3.go:156-187 | in some order of the batch, each string once: table, sample factor and queue end exactly as the turns of the strings leave them; each promoted string has left the table, deserved it by its history and is queued unless the queue is full; exactly the queued ones are counted; histories go on from what they were or begin anew |
| `TagsMapper.TagsMapper.AddAndQueue` | internal/aggregator/tags-mapper3.go:180-185 | one string is queued if and only if it is in the table, deserves its promotion with this sighting and there is room in the queue |
| `TagsMapper.TagsMapper.Refresh` | internal/aggregator/tags-mapper3.go:159-179 | forgets the stale strings it looks at; lowers the sample factor exactly if the table is less than half full and was so for the keep time |
| `TagsMapper.TakenString` | internal/aggregator/tags-mapper3.go:93-125 | what becomes of one string, whatever the order: promoted exactly if it deserves it, seen once more, admitted exactly if it wins its draw, or left as it is; missing or begun anew only if the sample factor was raised |
| `TagsMapper.TakenQueue` | internal/aggregator/tags-mapper3.go:180-185 | the queue gains exactly the queued strings, only promoted ones, within its cap, and all promoted ones unless it is full |
| `TagsMapper.TagsMapper.GetTagsToCreate` | internal/aggregator/tags-mapper3.go:223-229 | hands over the queue and empties it |
| `Agent.StepInv` | internal/agent/agent_shard_send.go:312-686 | in every interleaving each nonzero id in memory is known to the disk with the same second and bytes, and no id has two holders |
| `Agent.ReadNeverMisses` | internal/agent/agent_shard_send.go:422-434 | a sender that reads from disk finds its id with its second |
| `Agent.HeldExactly` | internal/agent/agent_shard_send.go:312-686 | a bucket in memory stands for the same second and bytes until it leaves, for exactly the listed reasons: erased, neither saved nor fitting into memory, its sender stopped, restart; and one comes in for every second that is over and every unread bucket read, as exactly this bucket |
| `Agent.StepKeeps` | internal/agent/agent_shard_send.go:521-530 | a bucket that is known or unread and will be found by a restart stays so in every step, unless exactly one of these happens: its own erase by acknowledgement, expiry, disk limit or failed read; a torn mark before it in its file; a tail read past it in a file that could not be read. A restart is none of them |
| `Agent.StepOrigins` | internal/agent/agent_shard_send.go:494-519 | a bucket comes to the disk only by being saved, or back by a restart that finds it, and to the files only by being written |
| `Agent.StrayOrigins` | internal/agent/disk_cache.go:402-417 | a restart brings back a bucket the agent had let go of only if fewer than three bytes of its deletion mark were written, its failed write was whole, or it was passed over for a fault |
| `Agent.SavedIsSafe` | internal/agent/agent_shard_send.go:494-519 | a freshly saved bucket will be found by a restart exactly if its file has no torn mark, and only tearing a mark in it breaks a file |
| `Agent.SavedStays` | internal/agent/agent_shard_send.go:382-686 | over whole runs, with restarts, torn and lost marks and unreadable files, a saved bucket is on disk and will be found until one of these things happens to it, and an acknowledging response was to a request that carried exactly it |
| `Agent.NothingInvented` | internal/agent/disk_cache.go:148-181 | whatever is on disk after a run, restarts included, was there before or was written in it |
| `Conveyor.RestartShard` | internal/agent/disk_cache.go:148-181 | a restart of the real cache, in whatever state its files are, is a restart step: memory is empty and exactly what the files hold is on disk |
| `Conveyor.DiskCachePutWithLog` | internal/agent/agent_shard_send.go:494-519 | a saved bucket gets an id under which exactly it is on disk; an id it has is kept; nothing else changes; saved exactly if saving is on and the cache accepts it |
| `Conveyor.DiskCacheEraseWithLog` | internal/agent/agent_shard_send.go:521-530 | exactly this bucket leaves disk and memory, and the files are left as the written bytes of its mark leave them |
| `Conveyor.Load` | internal/agent/agent_shard_send.go:421-440 | yields exactly the saved bytes; fails and erases the bucket if and only if its data is not in memory and the read fails or the checksum is wrong; unknown id and wrong second are dead |
| `Conveyor.TryOnce` | internal/agent/agent_shard_send.go:408-490 | one round of the loop is a run of steps; expired, unreadable, acknowledged and stopped each exactly under its condition, so it goes on exactly in the remaining case |
| `Conveyor.SendHistoric` | internal/agent/agent_shard_send.go:407-492 | the whole loop: its outcome is that of the first attempt that decides, and it goes on exactly while none does; the bucket leaves the disk only acknowledged by a response to a request that carried exactly it, expired or unreadable, stays on disk when stopped, and no other bucket changes |
| `ConveyorQueue.SaveAndQueue` | internal/agent/agent_shard_send.go:325-327 | the bucket is queued with its data or with the id under which it is saved, which it is exactly if saving is on and the cache accepts it, and lost exactly if it was not saved and does not fit into the memory of the shard; the disk gains at most this bucket |
| `ConveyorQueue.ReadHistoricSecond` | internal/agent/agent.go:275-279 | the look for one more unread bucket on the real disk and queue is the agent's step, and what it passes over lay in faulty files |
| `ConveyorQueue.PopOldest` | internal/agent/agent_shard_send.go:563-600 | a pop on the real queue and disk is the agent's step, for the oldest queued bucket, and refused exactly as there |
| `ConveyorQueue.AppendHistoric` | internal/agent/agent_shard_send.go:532-550 | queueing under the real memory limit is the agent's step |
| `ConveyorQueue.SendRecent` | internal/agent/agent_shard_send.go:330-405 | a recent bucket is delivered exactly if it was recent enough, a replica alive and the response discarding; then it is off the disk, otherwise it is queued for the historic senders under its id, which it gets if the disk accepts it, first before the request if so configured and else now; dropped exactly if no save succeeded and there is no memory; no other bucket on the disk changes |
| `ConveyorQueue.SaveFirst` | internal/agent/agent_shard_send.go:386-392 | the bucket is saved before the request exactly if so configured and the disk accepts it; otherwise nothing happens to the disk |
| `ConveyorQueue.EraseHistoric` | internal/agent/agent_shard_send.go:635-686 | the eraser throws a bucket out exactly if it is out of the window or the files of the shard exceed the disk limit, and queues it again otherwise |
| `AgentProgress.CanBeSent` | internal/agent/agent_shard_send.go:312-492 | wherever a bucket is in the memory of an agent, it can come to a historic sender that has exactly its data |
| `AgentProgress.CanBeHeld` | internal/agent/disk_cache.go:148-181 | a bucket that a restart will find can come back into memory as exactly this bucket |
| `Delivery.StepInv` | internal/agent/agent_shard_send.go:347-354 | agents and replicas together keep all their invariants, every request is seen by one replica only, goes to the primary or the spare of its second, lies in a bucket of the right second with exactly the data its agent sent, and is refused for its second only for the one it carried |
| `EndToEnd.Project` | internal/aggregator/aggregator.go:1119-1171 | a run of the whole is a run of each replica, with its steps in the same order |
| `EndToEnd.AckIsWorth` | internal/agent/agent_shard_send.go:370-380 | at any acknowledgement the request carried exactly the erased bucket, and the answer rests on an insert that had exactly its data among the rows of a bucket of the right second, on its historic bucket or its second being behind the historic window, on its second being beyond the window, or is an explicit rejection |
| `EndToEnd.IsExplained` | internal/aggregator/aggregator.go:1055-1076 | the run itself shows the reason of every discard: the merge of the rows and after it the successful insert, the pop at a moment when the bucket was stale, the arrival at a moment when its second was outside of the window, or the rejection |
| `EndToEnd.AckedWasInserted` | internal/agent/agent_shard_send.go:453-490 | in every run of agents and replicas, an agent erases a bucket because of a response only if exactly its data was merged and then in an insert of that run that succeeded, or the replica discarded it at a moment of the run when its second was outside of the windows, or rejected it explicitly |
| `EndToEnd.FailureErasesNothing` | internal/aggregator/aggregator.go:1144-1171 | after a failed insert or a full conveyor none of the requests the bucket took in is ever answered with a discard, whatever follows |
| `EndToEnd.LostIsNeverAcked` | internal/agent/agent_shard_send.go:370-380 | so no agent can be made to erase it by that request |
| `EndToEnd.SavedUntilDelivered` | internal/agent/agent_shard_send.go:382-686 | in every run of the whole, with restarts, torn and lost marks and unreadable files, a bucket that is safe on an agent's disk stays so until such an acknowledgement, expiry, disk limit, read failure, a torn mark before it or a fault of its file |
| `Progress.CanBeDelivered` | internal/agent/agent_shard_send.go:407-492 | from every reachable state of agents and replicas, whatever failed before, a bucket in the memory of an agent can still be delivered by a run that ends with its acknowledgement, unless its replica is closing down |
| `Progress.SafeCanBeDelivered` | internal/agent/disk_cache.go:148-181 | and so can a bucket of which the agent has nothing but the record on its disk |
| `Witness.DeliveryHappens` | internal/agent/agent_shard_send.go:407-492 | there is a run from a fresh start in which a bucket found on disk is loaded, sent to its primary, merged, inserted, acknowledged and erased, after which nothing of it is on disk |

## Left out

- RPC, TL serialization, compression, ClickHouse, SQL and the file system: outcomes of them are choices of the steps or parameters of the methods.
- The rows of a bucket, sampling, string tops, mapping caches and metric metadata: what a request carries is opaque bytes, and the handler's merge is one step in which they become part of the bucket.
- Aggregator and agent as steps on values: memory of goroutines, channels and mutexes is not modelled as objects. Pops of several stale buckets and an insert of several buckets are one step per bucket here, which allows more interleavings than the source.
- Open files are keyed by name instead of being shared objects; a name is created at most once, so both identify the same file.
- A restart of a replica: replicas start fresh, each with its own clock and window, and run on; agents restart any number of times.
- DiskCacheShard.Close, the lock file, and the directory handling of several shards: they would only add easy members.
- An erase whose mark is torn, and a write that is cut, keep the bytes before the cut in order; other damage to files, such as blocks written out of order or bit rot, is not modelled while the process runs. A restart may start from any bytes.
- The agent without a disk cache directory is not modelled; saving can be switched off. The loop of the shard's start that looks for unread buckets is one look at a time (`ConveyorQueue.ReadHistoricSecond`).
- TagsMapper.TagsMapper.AddUnknownTagLocked: termination of the resampling loop is probabilistic, so the dice are a finite list and a call that runs out of them is reported as stuck and admits nothing; the overflow of a huge sample factor is not modelled.
- Liveness.ShardReplica.AppendLastSendSuccessful: the window length is fixed, its change at run time is not modelled.
- A flushed bucket has at least one byte of data, since the compressed frame starts with its size; the agent's steps take that as given.
- Exactly-once delivery is not claimed: data may be merged and inserted without the agent learning of it, and is then sent again.
- Conveyor.SendHistoric: the attempts are a finite list; when it ends the bucket is still held.
- Progress.CanBeDelivered: says that a bucket can be delivered from every reachable state, not that it will be; fairness, and so the termination of conveyor loops, is not modelled.
- AggAnswers.AnswersExactly: keep-alives of the old protocol version, which get an error and not an empty response when the conveyor is full, are not told apart from new ones.
- Built-in metrics, logging, heartbeat, receive budgets, migration, API handlers, proxies and command lines.
