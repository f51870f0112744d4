# A verified model of the Telegram gateway

The gateway sits between Telegram and the services that use bots and user
sessions. Its hard parts are protocols and arithmetic: a durable update queue that
may be killed between any two statements, token buckets that learn from real 429s,
a formatter that cuts and re-merges text, a supervisor that must never connect one
session twice, claims on idempotency keys made of separate SQL statements, and a
migration guarded by a login gate. This project models those parts and proves what
they promise, over all inputs and all runs.

Each module has two layers. Functions on plain values say what an operation means.
Classes and methods with loops have the form of the code (fields updated in place,
frames that grow, deques drained from the front) and are proved equal to those
functions; the properties are lemmas about the functions and about whole runs.

| file | models |
|---|---|
| `Buckets.dfy`, `RateGuard.dfy` | `internal/rateguard/rateguard.go` |
| `MTRateGuard.dfy` | `internal/rateguard/mt.go` |
| `UpdateQueue.dfy` | `internal/store/queue.go` |
| `QueueProtocol.dfy` | the queue with its poller (`internal/botapi/session.go`), its consumers (`pkg/client/client.go`) and crashes: nothing forgotten is lost, acked ids stay away |
| `QueuePayloads.dfy` | what each page carries, from Telegram over the disk to the consumer |
| `QueueGuards.dfy` | what a push or a reload will do, read off the state before it |
| `QueueOrder.dfy`, `QueueLog.dfy`, `QueueGaps.dfy` | the order of each replica's stream and of the deque over crashes, and what resent updates do to them |
| `QueueDelivery.dfy`, `QueueRuns.dfy` | what is owed to an undelivered update; runs from the start |
| `Idempotency.dfy` | `internal/store/gateway.go`, `internal/botapi/proxy.go` |
| `Supervisor.dfy` | `internal/mtproto/sessions.go`, `internal/lock/lock.go` |
| `Migration.dfy` | `internal/migrate/migrate.go`, `internal/cryptoutil/fernet.go` |
| `Utf16.dfy` | UTF-16 as section 2 of RFC 2781 defines it, the unit of every entity offset |
| `Markup.dfy`, `Tokenizer.dfy`, `Emission.dfy`, `Entities.dfy`, `Contiguity.dfy` | `internal/mtproto/pyformat/pyformat.go` |
| `Options.dfy`, `IntSets.dfy`, `Reals.dfy` | `Option<T>`; finite integer sets in order; minimum and maximum |

`dafny verify dfyconfig.toml` checks everything.

What stands in for the world:

- Clock readings, nonces, the outcome of a connect, the answer of Telegram and the
  status of the upstream server are parameters or nondeterministic actions.
- Times and token counts are reals, so float rounding is not modelled. Ids and
  counters are unbounded integers.
- Configured rates are positive, bursts and the queue's maxsize at least one, the paid
  rate at least one per second. Clocks do not go back; where a pause of 0 means "none"
  the clock is not negative.
- Telegram assigns ascending positive ids and answers a poll with the lowest pending
  ones; SQLite commits succeed.
- A crash is an action enabled in every state. It keeps the disk, Telegram and the
  consumers and loses the rest.
- Fernet is a pair of functions of which only "what was encrypted decrypts to
  itself" is used. The kernel keeps the flock of an inode and drops it when its
  holder dies.

## Where a promise does not hold

Each of these has lemmas with a run or a family of inputs, and a theorem under the
condition that makes the promise hold; the last two are part of what a contract
states.

- Persisted offset: the upsert overwrites instead of taking the maximum. It never goes
  back if and only if every save is in order (`OffsetNeverDecreasesIff`); any two
  overlapping acks can break that (`OverlapRegresses`), and then an acked update that
  Telegram still holds comes back after a crash (`AckedComesBack`, `AckedReturns`).
  `AckedNeverReturns` is about saves in order, which serial acks always are.
- Sorted log: after a crash with the poll offset unsaved, Telegram sends acked updates
  again and they go behind unacked ones, where no ack removes them and where they crowd
  out unacked ones when the deque is full (`AckedGoesBehind`, `AckedCrowdsOut`). An ack
  leaves exactly the unacked if and only if none stands there
  (`AckLeavesExactlyTheUnacked`); `SortedLog` is about runs whose pushes top the deque,
  as all do until a crash. What a page yields is not affected (`PageAfterAck`).
- Stream order: a crash can leave out an id Telegram still holds below one the reload
  serves (a row deleted by an ack that had not saved its offset, an expired or corrupt
  row, a batch not yet committed); sent again, it goes behind the served one
  (`CrashReorders`, and `GapDecreases` for every such crash after which Telegram sends
  fewer than maxsize updates again up to the gap). After a crash a push that
  expires or drops an id Telegram will send again can do the same
  (`UnfitPushDecreases`). `StreamsIncrease` is about runs with neither.
- Delivery: an update that has left the deque while a later one is queued can be acked
  away undelivered (`LeftBehindIsLost`). `UndeliveredIsNeverRemoved` is about each
  update that has not.
- PeerFlood: clearing the peer lifts a reported wait if and only if no bucket was paused
  (`ClearLiftsIff`), and a later report on the peer can shorten its cooldown
  (`ReportOverwrites`). `FloodWaitNeverCutShort` is about the reports that do pause a
  bucket, `PeerFloodHolds` about cooldowns that nothing ends early.
- Idempotency: beside a send in flight a claim proceeds if and only if it comes more
  than 60 s later (`ReclaimsIff`, `SlowSendIsDoubled`). `NoDoubleSend` is about sends
  that resolve in time.
- Merging: contiguous or empty entities can remain when the input holds empty ones
  (`MergeApartIff`, `EmptyRemainsIff` say when). The emitter makes none, which is what
  `MergeSeparates` is about.
- Burst: a bucket is stamped with a later clock reading than the request, so the first
  write to a chat with a burst of one can be refused (`FirstWriteIff`).
- `Call`: a `cancel` or `cancel_timeout` chat action returns after the claim and
  resolves it neither way; its row stays pending.
- The comment on `loadFromDB` says a corrupt row is skipped without losing the rest of
  the backlog. The query's LIMIT counts corrupt rows, so each one displaces a row that
  would have been served; `ReloadServes` states exactly which ids come back.

## Model

| member | source | states |
|---|---|---|
| Buckets.RefillIdempotent | internal/rateguard/rateguard.go:62-71 | refilling again at the same instant changes nothing, so a bucket found open stays open within one call |
| Buckets.BucketWaitExact | internal/rateguard/rateguard.go:85-95 | after a probe quoting w at now, the bucket is open at t if and only if t >= now + w, pause or deficit alike |
| Buckets.TouchPays | internal/rateguard/rateguard.go:62-100 | whatever touches a bucket, a charge is paid from its potential and only a cleared pause adds to that, by at most one |
| Buckets.FundedBound | internal/rateguard/rateguard.go:62-100 | any ledger whose entries pay for themselves and grow no faster than the refill rate spends at most start + accrued + cleared |
| Buckets.Bucket.RefillAt | internal/rateguard/rateguard.go:62-71 | the in-place refill brings the bucket to the state the law of refilling gives, pause clearing included |
| Buckets.Bucket.TakeNow | internal/rateguard/rateguard.go:73-83 | one token is taken exactly when the refilled bucket is open |
| Buckets.Bucket.Next | internal/rateguard/rateguard.go:85-95 | quotes the wait that BucketWaitExact proves least, and only refills |
| Buckets.PauseOpensIff | internal/rateguard/rateguard.go:62-100 | after a pause the bucket is open if and only if the longer of the old and the new pause is over, and then one send may go at once |
| Buckets.PauseDrains | internal/rateguard/rateguard.go:62-100 | a pause takes all tokens: at its end there are one and what accrued since the last refill, up to the capacity, whatever the bucket held |
| Buckets.BurstExact | internal/rateguard/rateguard.go:57-83 | of any number of attempts at one instant a new bucket admits exactly its capacity |
| Buckets.PacedAdmits | internal/rateguard/rateguard.go:62-83 | an unpaused bucket, even an empty one, admits every attempt of any sequence no closer than one over its rate |
| RateGuard.Guard.constructor | internal/rateguard/rateguard.go:123-132 | a new guard starts with full buckets, no chat and no pause |
| RateGuard.Guard.ChatBucket | internal/rateguard/rateguard.go:136-151 | a chat gets its bucket once, full, with the rate and burst of its sign |
| RateGuard.Guard.AcquireInLane | internal/botapi/proxy.go:111-126 | a request armed for the paid lane draws on the paid bucket only with both opt-ins, then not on the global one, and leaves the lane disarmed |
| RateGuard.Guard.TryAcquire | internal/rateguard/rateguard.go:160-209 | the code with its repeated refills and re-checks equals the specification of one refill, one check and one charge per bucket |
| RateGuard.Guard.TryPaid | internal/rateguard/rateguard.go:182-190 | the paid stretch charges the paid bucket and the chat together or neither, as specified |
| RateGuard.Guard.TryGlobal | internal/rateguard/rateguard.go:191-208 | re-check, global charge and settlement together equal the specification, and the settlement never refunds |
| RateGuard.Guard.SettleChat | internal/rateguard/rateguard.go:200-207 | after the global charge the chat is charged if and only if it is still open, else the global token is given back |
| RateGuard.Guard.WaitTime | internal/rateguard/rateguard.go:212-229 | refills what it probes, charges nothing, and quotes the wait WaitTimeExact is about |
| RateGuard.Guard.Report | internal/rateguard/rateguard.go:233-243 | a 429 pauses its chat, or the egress and the global bucket, and nothing else |
| RateGuard.Guard.SendStateOf | internal/rateguard/rateguard.go:248-267 | the probe of the typing loop equals its specification and charges nothing |
| RateGuard.Guard.RestoreBackoff | internal/rateguard/rateguard.go:293-298 | a restored pause is a 429 reported now; one that has run out changes nothing |
| RateGuard.Guard.Throttled | internal/rateguard/rateguard.go:270-290 | counts exactly the private chats and the groups that would have to wait, and refills every chat bucket as a side effect |
| RateGuard.FirstWriteIff | internal/rateguard/rateguard.go:57-71 | the first write to a chat passes its new bucket if and only if what accrues between the two clock readings leaves one token of the burst |
| RateGuard.FirstWriteNeedsSlack | internal/rateguard/rateguard.go:57-71 | with a burst of one it passes only when no time lies between them, against the comment that the burst is available at once |
| RateGuard.StepTouches | internal/rateguard/rateguard.go:136-290 | every event does at most one bucket operation per scope (a chat, the bot, the paid lane, the reads), and it is a charge if and only if an attempt of that scope was admitted, on an open bucket |
| RateGuard.StepPays | internal/rateguard/rateguard.go:160-243 | every event of every run pays for what it admits out of its scope's budget |
| RateGuard.ScopeLimits | internal/rateguard/rateguard.go:123-151 | chats from 0 up have the private rate and burst and negative ones the group ones; the paid burst is the whole part of its rate, the read burst that of its rate and at least 10 |
| RateGuard.WindowBound | internal/rateguard/rateguard.go:62-290 | over every window of every run, status snapshots included, the writes admitted to one chat, the non-paid writes of the bot, the paid ones, and the reads are each at most burst + rate * T + one per pause of that bucket cleared |
| RateGuard.WaitTimeExact | internal/rateguard/rateguard.go:160-229 | after a quote w with nothing in between, an attempt on the normal lane succeeds at t if and only if t >= now + w |
| RateGuard.RealWaitNeverCutShort | internal/rateguard/rateguard.go:160-243 | after a 429 at t with retry r, no later attempts, probes or reports let anything it bars through before t + r |
| RateGuard.ReportOpensIff | internal/rateguard/rateguard.go:160-243 | with the bot open, a write to a reported chat goes if and only if the longer of the old and the new pause is over; no other chat or lane moves |
| RateGuard.EgressOpensIff | internal/rateguard/rateguard.go:160-243 | after a report without a chat a fast method goes if and only if the longer egress pause is over; the global bucket is paused as long and no chat moves |
| RateGuard.SendStateExact | internal/rateguard/rateguard.go:248-267 | the typing probe says ready if and only if a write would be admitted, blocked if and only if the egress or the chat is paused, and otherwise drained |
| RateGuard.TokensConserved | internal/rateguard/rateguard.go:160-209 | an admitted write draws one token from its chat and one from exactly one of global and paid, an admitted read one from the read bucket, a fast method none anywhere, a refused attempt none, and no other chat moves |
| MTRateGuard.AdaptiveBounds | internal/rateguard/mt.go:246-250 | the adaptive wait is at least min(wait, 3600), at most 3600 and never shrinks with the offences, for a base of at least 1 |
| MTRateGuard.PauseOfReport | internal/rateguard/mt.go:222-256 | a PeerFlood and an unrespected slowmode pause no bucket, a report without a chat pauses for what Telegram asks, any other for min(wait * base^offences, 3600) |
| MTRateGuard.KthReportWaits | internal/rateguard/mt.go:222-278 | over a run, a flood wait on a peer after k reports since it was last cleared pauses peer and chat for min(wait * base^k, 3600) |
| MTRateGuard.MTGuard.constructor | internal/rateguard/mt.go:94-106 | a new guard has a full silent bucket and no peer history |
| MTRateGuard.MTGuard.TryAcquire | internal/rateguard/mt.go:142-194 | peer pause first, then egress, then the silent bucket or the shared buckets, as specified |
| MTRateGuard.MTGuard.WaitTime | internal/rateguard/mt.go:197-218 | quotes the larger of the peer's pause and the buckets' wait and charges nothing |
| MTRateGuard.MTGuard.ReportFloodWait | internal/rateguard/mt.go:222-256 | each flood type pauses exactly the peer, chat bucket or egress the specification names |
| MTRateGuard.RunProjects | internal/rateguard/mt.go:142-278 | every run of this guard, seen through its shared buckets, is a run of the Bot API guard |
| MTRateGuard.MTWindowBound | internal/rateguard/mt.go:142-278 | reads and non-silent writes keep the window bound of the Bot API guard: per chat, in total, in the paid lane and for reads |
| MTRateGuard.MTWaitTimeExact | internal/rateguard/mt.go:142-218 | the quoted wait is the least one for reads and non-silent writes, peer pauses included |
| MTRateGuard.FloodWaitNeverCutShort | internal/rateguard/mt.go:142-278 | after a flood report that pauses for a, nothing it bars goes out before t + a, cleared peers and shorter reports included: every attempt when no chat was named, else every non-silent write to the chat |
| MTRateGuard.ClearLiftsIff | internal/rateguard/mt.go:222-278 | after a report and a cleared peer, a write that was open goes at once if and only if the report paused no bucket |
| MTRateGuard.PeerFloodHolds | internal/rateguard/mt.go:142-278 | over whole runs, nothing naming the peer is admitted before a PeerFlood cooldown is over, unless the peer is cleared or a later report on it ends earlier |
| MTRateGuard.PeerPauseIff | internal/rateguard/mt.go:222-278 | a step keeps a peer's pause if and only if it neither clears the peer nor is a report on it that ends earlier |
| MTRateGuard.ReportOverwrites | internal/rateguard/mt.go:244-250 | a flood report overwrites the peer's pause, so it can shorten a longer one |
| MTRateGuard.ClearStartsOver | internal/rateguard/mt.go:274-278 | a cleared peer meets no pause of its own, is admitted exactly when the shared buckets admit it, and its next flood waits what Telegram asks; no other peer moves |
| MTRateGuard.MTTokensConserved | internal/rateguard/mt.go:142-194 | a silent write draws one token from the silent bucket alone; any other attempt keeps the conservation law, reads included |
| UpdateQueue.Queue.constructor | internal/store/queue.go:52-93 | opening the queue yields exactly what a reload of the disk gives, with `seen` the id set of the deque |
| UpdateQueue.Queue.LoadFromDB | internal/store/queue.go:99-153 | the row loop rebuilds the specified deque, index, offset and backlog count and deletes the acked rows |
| UpdateQueue.Queue.PushAll | internal/store/queue.go:158-227 | prune, dedupe, overflow and one transaction equal the specification; `seen` stays the id set and depth stays within maxsize |
| UpdateQueue.Queue.PushUpdate | internal/store/queue.go:167-197 | one update is queued under its own or the next id unless already queued, dropping the oldest when full |
| UpdateQueue.SynthesizedGoesLast | internal/store/queue.go:167-197 | an update without an id goes to the end of an ascending deque under an id one above the last, or above the consumer offset when the deque is empty |
| UpdateQueue.Queue.PruneExpired | internal/store/queue.go:314-332 | drops from memory the prefix PruneMemoryExact gives and from disk the rows PruneDiskExact gives |
| UpdateQueue.PruneDiskExact | internal/store/queue.go:328-331 | a row is deleted if and only if the TTL is on and the row is more than that old; every other row stays as it is |
| UpdateQueue.PruneMemoryExact | internal/store/queue.go:314-326 | memory loses exactly the longest prefix of entries at least a TTL old, and counts them |
| UpdateQueue.CommitExact | internal/store/queue.go:203-226 | after a commit each row is the one that was there, or one of the batch with its payload and the time of the transaction; no id of the batch is missing |
| UpdateQueue.Queue.Ack | internal/store/queue.go:285-312 | the offset is the larger of the two, the acked prefix leaves memory, acked rows leave the disk and the offset is saved |
| UpdateQueue.Queue.Pull | internal/store/queue.go:240-278 | acks everything below the offset in memory and on disk, then returns the first page above it; without an offset nothing changes |
| UpdateQueue.Queue.Look | internal/store/queue.go:249-257 | one look returns the first `limit` entries above the consumer offset, in order |
| UpdateQueue.PageLength | internal/store/queue.go:240-257 | a page holds as many entries as asked for, 100 when the limit is not positive, or all that are left |
| UpdateQueue.AckLeavesExactlyTheUnacked | internal/store/queue.go:285-297 | for every deque, popping from the front leaves exactly the entries above the offset if and only if no acked one stands behind an unacked one; an ascending deque always meets that |
| UpdateQueue.PageAfterAck | internal/store/queue.go:240-297 | for every deque, a page after an ack is the first `limit` entries above the offset |
| QueueLog.SortedLog | internal/store/queue.go:99-312 | in every run, over any number of crashes, in which each push carries only queued ids or ids above all queued ones, the deque ascends, an ack leaves exactly the entries above the offset and a page is the first `limit` of them |
| QueueLog.TopsUntilCrash | internal/store/queue.go:158-197 | until the first crash every push is of that kind, whatever overflows or expires |
| QueueLog.PushAscends | internal/store/queue.go:158-197 | such a push keeps an ascending deque ascending, overflow included |
| QueueLog.PushAscendsIff | internal/store/queue.go:158-197 | with room, a push keeps an ascending deque ascending if and only if it is of that kind |
| UpdateQueue.PushKeeps | internal/store/queue.go:158-197 | any batch of arrivals keeps ids distinct and depth at most maxsize |
| UpdateQueue.DropsKeep | internal/store/queue.go:285-332 | acking and pruning keep ids distinct, depth bounded and the order ascending |
| UpdateQueue.ReloadServes | internal/store/queue.go:99-153 | an id comes back if and only if its row lies above the offset, parses, is younger than the TTL (or the TTL is off) and fewer than maxsize such rows, corrupt ones included, lie below it |
| UpdateQueue.ReloadKeepsRows | internal/store/queue.go:99-153 | each reloaded entry is as its row stores it and as old as its row |
| UpdateQueue.ReloadAccounts | internal/store/queue.go:99-153 | loaded + unloaded backlog is the number of rows above the offset, so the clamp at zero never acts |
| QueueProtocol.DeliverIsSteps | internal/botapi/session.go:586-596 | an undisturbed delivery is the protocol's prune, push, commit and save steps in that order |
| QueueProtocol.AckIsSteps | internal/store/queue.go:285-312 | an undisturbed ack is the protocol's memory, delete and save steps |
| QueueProtocol.BotPoller.Deliver | internal/botapi/session.go:586-596 | queue first, then the offset moves to the highest id of the answer and is saved; an empty answer changes nothing |
| QueueProtocol.Highest | internal/botapi/session.go:591-595 | the cursor loop ends at the specified highest id |
| QueueProtocol.AdvanceIsMax | pkg/client/client.go:188-199 | the cursor is an upper bound of itself and all ids seen, and is one of them |
| QueueProtocol.Consumer.PullUpdates | pkg/client/client.go:171-204 | acks the cursor if there is one, in memory and on disk, receives the page above it and moves the cursor to its highest id |
| QueueProtocol.NothingLostStep | internal/botapi/session.go:503-597 | every step, a crash at any statement boundary included, keeps the invariant that nothing Telegram forgot is lost |
| QueueProtocol.CrashKeepsUnacked | internal/store/queue.go:99-153 | a restart leaves on disk exactly the rows above the persisted offset, unchanged |
| QueueProtocol.PollForgets | internal/botapi/session.go:503-597 | a poll tells Telegram to forget everything up to the saved offset |
| QueueProtocol.ForgottenIsNeverLost | internal/botapi/session.go:503-597 | in every run, each id Telegram was told to forget is on disk, or at or below the highest acked offset, or its row was more than the TTL old when it was deleted, overflow included |
| QueuePayloads.ServedAsSent | internal/store/queue.go:99-227 | in every run, crashes included, every entry of every page carries the payload Telegram sent for its id |
| QueueProtocol.AckedNeverReturns | internal/store/queue.go:99-312 | if no save goes back, overlapping acks included, no look at the queue in this or a later process lifetime yields an id an ack has returned for; the persisted offset never decreases and the one in memory only at a crash |
| QueueProtocol.OffsetNeverDecreasesIff | internal/store/queue.go:285-312 | over a whole run the persisted offset never decreases if and only if every ack saves an offset at or above the persisted one |
| QueueProtocol.SerialSavesInOrder | internal/store/queue.go:285-312 | acks that do not overlap always save in order |
| QueueProtocol.OverlapRegresses | internal/store/queue.go:298-311 | any two acks in flight with different snapshots have a continuation that leaves the persisted offset below a returned ack |
| QueueGaps.AckedComesBack | internal/store/queue.go:99-153 | whenever the persisted offset is below an acked id that Telegram still holds, a crash leads to a look at the queue that yields the id again |
| QueueGuards.ReloadIsServed | internal/store/queue.go:99-153 | the reloaded ids are the parseable ones among the maxsize lowest unexpired rows above the offset |
| QueueGuards.ReloadsAllIff | internal/store/queue.go:99-153 | nothing stays unloaded if and only if every row above the offset is unexpired and parses and they fit |
| QueueGuards.PushAppends | internal/store/queue.go:158-197 | with room for the ids not yet queued, a push appends exactly those, in order |
| QueueGuards.HasRoomIff | internal/store/queue.go:158-197 | a push drops nothing if and only if the queue length plus the number of ids not yet queued is at most maxsize |
| QueueGuards.FrontFreshIff | internal/store/queue.go:314-332 | a push expires nothing if and only if the front entry is unexpired |
| QueueOrder.StreamsIncrease | internal/store/queue.go:99-312 | for any number of replicas, interleavings and crashes, each stream is strictly increasing if no crash leaves out an id Telegram still holds below one the reload serves, and no push expires or drops anything while unacked ids beyond the saved offset are queued |
| QueueOrder.CleanUntilCrash | internal/store/queue.go:158-312 | until the first crash every step meets that condition, whatever overflows or expires |
| QueueOrder.PushOrdersIff | internal/store/queue.go:158-197 | with room, a push keeps the unacked part of the deque in order if and only if each new id exceeds the unacked ones before it |
| QueueGaps.GapDecreases | internal/store/queue.go:99-153 | after a crash that leaves such a gap, a full deque included, if Telegram sends fewer than maxsize updates again up to the gap, every replica with its cursor below it has a continuation with a decreasing stream |
| QueueGaps.AckedGoesBehind | internal/store/queue.go:99-197 | after a crash that serves anything, an acked id that Telegram still holds goes behind it under the same bound, and no ack removes it any more |
| QueueGaps.UnfitPushDecreases | internal/store/queue.go:158-197 | so does a push with room whose ids do not fit, for every idle replica that has seen none of the unacked part |
| QueueDelivery.UndeliveredIsNeverRemoved | internal/store/queue.go:158-312 | in every run, crashes included, an update no replica received and that itself never left the deque, the reload or the disk is above every ack and cursor, queued or still with Telegram, and on disk or not yet forgotten, whatever is lost otherwise |
| QueueDelivery.LosslessIsExact | internal/store/queue.go:99-332 | in every run a step meets the guards (fresh front, room, no expired row, a complete reload) if and only if its counters show nothing dropped, expired or unloaded |
| QueueDelivery.LosslessRunSpares | internal/store/queue.go:99-332 | a run that meets the guards spares every update |
| QueueDelivery.LeftBehindIsLost | internal/store/queue.go:183-191 | from any state in which an undelivered update has left the deque and a later one is queued, an idle replica can ack both away, row and all |
| QueueRuns.OverlappingAcksRegress | internal/store/queue.go:298-311 | a run of two overlapping acks from the start ends with the persisted offset below a returned ack |
| QueueRuns.OverflowLosesUndelivered | internal/store/queue.go:183-191 | a run from the start in which an overflowed update is acked away without having reached anyone |
| QueueRuns.CrashReorders | internal/store/queue.go:285-312 | a run from the start in which a crash between the DELETE and the upsert of an ack makes a second replica receive 2 before 1 |
| QueueRuns.AckedReturns | internal/store/queue.go:285-312 | a run from the start in which two overlapping acks and a crash bring an update back whose ack had returned |
| QueueRuns.AckedBehind | internal/store/queue.go:99-197 | a run from the start that ends with the deque 3, 1, 2 at offset 2, from which an ack removes nothing |
| QueueRuns.AckedCrowdsOut | internal/store/queue.go:183-191 | that run continued: the next update drops the unacked 3 while the acked 1 and 2 stay |
| Idempotency.AtMostOneProceeds | internal/store/gateway.go:237-261 | for any interleaving of the statements of any number of claims within 60 s, at most one proceeds, from any row |
| Idempotency.NoDoubleSend | internal/store/gateway.go:237-275 | if sends resolve within 60 s, a claim proceeds only with no send in flight and more than 300 s after the last completed one |
| Idempotency.FailFrees | internal/store/gateway.go:270-275 | after a failed send the next claim proceeds, whatever the time |
| Idempotency.ClaimExact | internal/store/gateway.go:237-261 | a claim proceeds if there is no row, the row is more than 300 s old, or it is pending and more than 60 s old, and then owns the row; otherwise the row stays |
| Idempotency.FinishAnswers | internal/store/gateway.go:237-275 | a finished send answers for its key for exactly 300 s, and a failure after it does not take that back |
| Idempotency.ClaimIsStatements | internal/store/gateway.go:237-261 | the three statements of a claim that nothing interrupts reach the verdict and the row of the whole claim |
| Idempotency.SlowSendIsDoubled | internal/store/gateway.go:237-261 | a send in flight for any time above 60 s is doubled by a claim that starts then, by the UPDATE or, above 300 s, by the INSERT |
| Idempotency.ReclaimsIff | internal/store/gateway.go:251-259 | beside a send in flight, a claim at its UPDATE proceeds if and only if it read the clock more than 60 s after the send did |
| Idempotency.ClaimBesideSendIff | internal/store/gateway.go:237-261 | a whole claim beside a send in flight proceeds on the same condition, and as a fresh claim if and only if more than 300 s lie between |
| Idempotency.KeyTable.Claim | internal/store/gateway.go:237-261 | an undisturbed claim gives the verdict and row of ClaimExact and touches no other key |
| Idempotency.KeyTable.Finish | internal/store/gateway.go:264-268 | the key's row becomes done, no other key moves |
| Idempotency.KeyTable.Fail | internal/store/gateway.go:271-275 | a pending row is released, a done one stays, no other key moves |
| Idempotency.Call | internal/botapi/proxy.go:50-132 | a replay and the cancel shortcuts answer 200, a paid request without the opt-in 403, anything else what the upstream says; a proceeding claim ends done exactly when the status is below 400 and is released otherwise; the cancel shortcuts leave it pending |
| Supervisor.AtMostOneConnected | internal/mtproto/sessions.go:197-386 | in every interleaving of supervisors, failed connects, disconnects, pauses and crashes at most one process is connected or connecting, and it holds the flock |
| Supervisor.GrantedIff | internal/lock/lock.go:86-125 | in every run the lock is granted, and the start cleared, if and only if no live process holds it and no Python sidecar is alive |
| Supervisor.FailedStartReleases | internal/mtproto/sessions.go:297-318 | a failed start leaves no client, no descriptor and no lock behind |
| Supervisor.InodeNeverChanges | internal/lock/lock.go:86-161 | the lock file keeps one inode over every run |
| Supervisor.UnlinkWouldGrantTwo | internal/lock/lock.go:150-161 | were the file unlinked while held, a second process would be granted a lock |
| Supervisor.RetryDiscipline | internal/mtproto/sessions.go:197-293 | no start within wait + 60 s of a flood failure, nor within min(2^k, 300) s of a generic failure that k others precede since the process last connected, unless an admin restarts in between |
| Supervisor.FailuresCounted | internal/mtproto/sessions.go:279-286 | in every run the count behind the backoff is the number of generic failures since the process last connected |
| Supervisor.RetryNumbers | internal/mtproto/sessions.go:279-286 | the waits are 1, then twice the one before up to 300, and 300 from the tenth failure on |
| Supervisor.GateAfterFailure | internal/mtproto/sessions.go:256-286 | after a failed start the checks pass again exactly from wait + 60 + jitter, or the backoff, on, and never after a terminal failure |
| Supervisor.TerminalIsForGood | internal/mtproto/sessions.go:197-293 | after a terminal failure no gate is passed, no lock taken and no start begun, whatever restarts an admin asks for; those change nothing |
| Supervisor.RefusalDiscipline | internal/mtproto/sessions.go:242-250 | no start within 60 s of a lock refusal |
| Supervisor.GateAfterRefusal | internal/mtproto/sessions.go:242-250 | after a lock refusal the checks pass again exactly from 60 s on |
| Supervisor.HeldPassesNoGate | internal/mtproto/sessions.go:206-241 | while paused, draining, or connected and live, a session passes no check and takes no lock |
| Supervisor.RestartFrees | internal/mtproto/sessions.go:521-533 | after an admin restart an idle supervisor passes its checks at once if and only if it has not failed for good |
| Supervisor.PassIsSteps | internal/mtproto/sessions.go:197-293 | one pass that starts is the protocol's gate or acquire, begin and connect steps; nothing is re-checked after the lock |
| Supervisor.IdlePass | internal/mtproto/sessions.go:215-241 | any other pass changes nothing, except that a stuck ping disconnects |
| Supervisor.Lock.Acquire | internal/lock/lock.go:86-125 | the lock is held after the call if and only if nobody held it and no live Python holder is seen, and a refusal leaves it as it was |
| Supervisor.Lock.Release | internal/lock/lock.go:154-161 | frees only what this lock holds, and may be called again |
| Supervisor.Session.SuperviseOnce | internal/mtproto/sessions.go:197-293 | the gates, the ping, the lock and the start, in the order of the loop, equal the specified pass; a session that ends without its lock has left the kernel lock free or as it was |
| Supervisor.Session.StartClient | internal/mtproto/sessions.go:252-323 | success resets the backoff; failure frees the kernel lock, then quarantines, waits out a flood or doubles the backoff, to the state GateAfterFailure is about |
| Supervisor.Session.Restart | internal/mtproto/sessions.go:521-533 | refused exactly for a terminal session; otherwise only the retry gate opens |
| Migration.SealRoundTrip | internal/cryptoutil/fernet.go:86-113 | sealing succeeds exactly when encrypting does; what was sealed starts with tggw1:, is recognised as sealed and opens to the same bytes |
| Migration.Convert | internal/migrate/migrate.go:161-225 | errors are exactly the files that cannot be read, whose row does not open, or whose needed encryption fails; skipped exactly the files whose row opens to their blob; every other file is migrated, to a sealed row that opens to it unless the run is dry; an alias counts as having a file exactly if its file has a blob; other rows stay |
| Migration.ConvertOne | internal/migrate/migrate.go:184-223 | an error if and only if the row does not open, or a real run needs an encryption that fails; left alone if and only if it opens to the blob already; otherwise, in a real run, a sealed row that opens to the blob |
| Migration.Reseal | internal/migrate/migrate.go:227-264 | each legacy row that encrypts is sealed and opens to its old bytes, each that does not counts as an error and stays; sealed rows are untouched; a dry run only counts |
| Migration.CountNewLogins | internal/migrate/migrate.go:266-276 | the count is zero exactly when every registered alias has a converted file or the table cannot be read |
| Migration.Run | internal/migrate/migrate.go:137-279 | no login is required if and only if every file has a blob, every existing row of one opens, every needed encryption and re-seal succeeds and every registered alias has a file with a blob; then every file has a sealed row that opens to its blob and every row is sealed; migrated and skipped are exact; rows without a file keep their meaning; a second run changes nothing |
| Migration.ClearIff | internal/migrate/migrate.go:137-279 | the three counters behind the gate are all zero if and only if the condition of Run holds of the inputs |
| Migration.CleanSettles | internal/migrate/migrate.go:137-279 | a real run without errors leaves every file with a sealed row that opens to its blob and every row sealed |
| Migration.SettledStays | internal/migrate/migrate.go:161-264 | on such a table every file is skipped, none fails and nothing changes |
| Migration.RegisteredIsReady | internal/migrate/migrate.go:137-279 | after a clean run a registered alias has a sealed row that opens to the blob of its own file |
| Markup.TagsAreParsed | internal/mtproto/pyformat/pyformat.go:686-723 | everything of the tag grammar is parsed, and as itself, whatever follows |
| Markup.ParsedIsShaped | internal/mtproto/pyformat/pyformat.go:686-723 | only the tag grammar is parsed, and a parsed tag is a prefix of its text |
| Markup.StrayIff | internal/mtproto/pyformat/pyformat.go:498-504 | a '<' is data if and only if no tag starts there |
| Markup.LexIsLossless | internal/mtproto/pyformat/pyformat.go:487-529 | the events of a text write out as the text, so the scan terminates having read every character once |
| Markup.LexIsLexical | internal/mtproto/pyformat/pyformat.go:487-529 | data runs are non-empty and hold no '<', and every other event is a tag or a stray '<' |
| Markup.WrittenIsLexed | internal/mtproto/pyformat/pyformat.go:487-529 | any data runs and tags, written out with no two data runs in a row, are read back as themselves |
| Tokenizer.StackMatches | internal/mtproto/pyformat/pyformat.go:505-516 | popping the most recent same-tag frame finds exactly the opener that matching closers backwards finds |
| Tokenizer.Tokenize | internal/mtproto/pyformat/pyformat.go:468-531 | the growing frames yield the plain text of the data runs and, but for empty ones, exactly the spans from the plain length at the opener to that at its closer; the first formatter failure is the error |
| Tokenizer.AppendRun | internal/mtproto/pyformat/pyformat.go:474-485 | a run of text grows every open frame and keeps the scan's invariant |
| Tokenizer.CloseTag | internal/mtproto/pyformat/pyformat.go:505-516 | a closer ends the span of its opener, an unmatched one is ignored, and the scan's invariant stays |
| Tokenizer.SpansInText | internal/mtproto/pyformat/pyformat.go:468-531 | every span is non-empty and lies inside the plain text |
| Tokenizer.PlainIsTextWithoutTags | internal/mtproto/pyformat/pyformat.go:474-504 | where references unescape to themselves, the plain text is the text with its tags taken out, stray '<' included |
| Tokenizer.ElementSpan | internal/mtproto/pyformat/pyformat.go:468-531 | a tagged text amid text, read from its characters: the plain text is the three texts, and the one span, of the kind the lower-case name and the attributes give, lies over exactly the tagged one |
| Tokenizer.FailureIsFirst | internal/mtproto/pyformat/pyformat.go:517-523 | there is an error if and only if some tag fails to resolve, and it is that of the first such tag |
| Tokenizer.StackOrderNests | internal/mtproto/pyformat/pyformat.go:468-531 | when closers come in stack order, any two spans are nested or disjoint |
| Tokenizer.DropZeroLength | internal/mtproto/pyformat/pyformat.go:581-589 | keeps exactly the spans that saw text, in order |
| Tokenizer.Build | internal/mtproto/pyformat/pyformat.go:97-108 | from HTML to message: the text is the plain text; sorted by offset, then length; every position has as many entities of each shape as matched tags; the slice of the UTF-16 encoding each entity marks decodes to whole runes and, where spans of a shape are separate, to the text of a span of its kind, one entity per span; refused, with its reason, if and only if a formatter fails |
| Emission.EmitKeepsCoverage | internal/mtproto/pyformat/pyformat.go:593-629 | cutting at every boundary keeps, for any spans, the number of entities of each shape over each UTF-16 position |
| Emission.BuildKeepsMeaning | internal/mtproto/pyformat/pyformat.go:97-160 | cutting and merging together keep it too |
| Emission.CutThenMergeIsIdentity | internal/mtproto/pyformat/pyformat.go:127-160 | for non-empty in-bounds spans of which those of one shape neither overlap nor touch, cut and merge give exactly one entity per span, with its kind and the UTF-16 offset and length SpanText is about |
| Emission.UnitsAre | internal/mtproto/pyformat/pyformat.go:93-108 | the count of UTF-16 units is the length of the UTF-16 encoding |
| Emission.SpanText | internal/mtproto/pyformat/pyformat.go:593-629 | in the UTF-16 encoding of the text, what an entity covers decodes to the text of its span, and what lies before it to the text before the span |
| Emission.MergedMarks | internal/mtproto/pyformat/pyformat.go:97-160 | whatever the spans, every merged entity marks whole runes: none starts or ends inside a surrogate pair |
| Utf16.RuneUnits | internal/mtproto/pyformat/pyformat.go:93-108 | a rune below U+10000 is one unit, any other a high and a low surrogate that together give its value |
| Utf16.RoundTrip | internal/mtproto/pyformat/pyformat.go:93-108 | every text decodes from its encoding as itself |
| Utf16.EncodedLength | internal/mtproto/pyformat/pyformat.go:93-108 | the encoding has one unit per rune and one more for each rune above U+FFFF |
| Emission.EmitTokens | internal/mtproto/pyformat/pyformat.go:593-629 | the segments concatenate to the plain text and the recorded entities are the specified ones |
| Emission.KindsOver | internal/mtproto/pyformat/pyformat.go:617-622 | a segment carries exactly the kinds of the spans over it, in span order |
| Emission.Builder.Format | internal/mtproto/pyformat/pyformat.go:623-627 | a segment is appended and recorded once per kind, at the lengths of the UTF-16 encodings of the text before it and of itself |
| Entities.MergeKeepsCoverage | internal/mtproto/pyformat/pyformat.go:127-160 | for every list, shape and position, merging keeps the number of entities over it |
| Entities.MergeSorts | internal/mtproto/pyformat/pyformat.go:153-159 | of any two entities of the result the earlier one has the smaller offset, or the same offset and no greater length |
| Entities.MergeSeparates | internal/mtproto/pyformat/pyformat.go:127-160 | from non-empty entities disjoint per shape, no two contiguous, overlapping or empty ones of one shape remain |
| Contiguity.MergeApartIff | internal/mtproto/pyformat/pyformat.go:127-160 | for any entities disjoint per shape, empty ones included, two contiguous ones of a shape remain if and only if an empty one lies over a non-empty one that is continued, or is listed after one that starts with it where no non-empty one ends |
| Contiguity.EmptyRemainsIff | internal/mtproto/pyformat/pyformat.go:127-160 | an empty entity of a shape remains at x if and only if one there follows a non-empty one that starts with it, or no non-empty one starts there and each that ends there has an empty one over it |
| Contiguity.CoalesceRuns | internal/mtproto/pyformat/pyformat.go:143-152 | the entities of one shape merge into exactly one per run of contiguous ones, from its first start to its last end |
| Contiguity.SortBefore | internal/mtproto/pyformat/pyformat.go:143 | the stable sort keeps the order of entities that start together |
| Contiguity.EmptyStaysContiguous | internal/mtproto/pyformat/pyformat.go:143-152 | an empty entity listed after a longer one that starts with it stays contiguous with it |
| Contiguity.ShadedDoesNotAbsorb | internal/mtproto/pyformat/pyformat.go:143-152 | a non-empty entity that ends at an empty one does not absorb it when another empty one lies over it |
| Entities.MergeHeaded | internal/mtproto/pyformat/pyformat.go:143-152 | every merged entity starts where an input of its very kind started and ends where one of its shape ended |
| Entities.CoverageDetermines | internal/mtproto/pyformat/pyformat.go:127-160 | two separated lists with the same coverage hold the same entities, each once, up to shape |
| Entities.Group | internal/mtproto/pyformat/pyformat.go:131-139 | the loop builds, per shape in order of first appearance, exactly the entities of that shape |
| Entities.MergeGroup | internal/mtproto/pyformat/pyformat.go:144-151 | the loop extends the last entity over contiguous ones of its shape as specified |
| Entities.MergeAdjacent | internal/mtproto/pyformat/pyformat.go:127-160 | the loops compute the merge whose coverage, order and separation are proved |
| Entities.ShapeIff | internal/mtproto/pyformat/pyformat.go:659-681 | two kinds share a shape if and only if they are equal, attributes included, or are mentions with the same user id, -1 for users without one |

## Left out

- HTTP routing, authentication, JSON bodies, metrics, WebSocket fan-out, admin handlers, configuration, health and deploy files: plumbing.
- `MethodKind`, `ParseFloodWait`, `ClassifyStartError`: tables and regular expressions; their outcome is a parameter.
- RateGuard.Guard: private chats and groups share one map (their ids differ in sign); the paid-lane flag is modelled one request at a time inside the mutex.
- RateGuard.Guard.AcquireInLane: is one attempt; the proxy keeps the lane armed over its whole waiting loop.
- RateGuard.WaitTimeExact: says nothing about the paid lane, whose bucket the code does not consult when quoting.
- `Jittered` beyond "never shorter", `admitAndForward`'s bounded waiting loop, `SaveBackoff` and `LoadBackoffs`: easy or I/O.
- MTRateGuard.MTGuard: shares the Bot API guard's buckets by owning one; the code repeats the same statements on its own fields. `AdaptiveWait`'s truncation to whole seconds for the response text is not modelled.
- UpdateQueue.Queue.constructor: the memory-only mode of an empty path is not modelled.
- UpdateQueue.Queue.PushAll: the overflow policy is drop_oldest, the only one in use; `reject_new`, failing SQL statements and updates that cannot be serialised are not modelled.
- UpdateQueue.Queue.Pull: is one look; the long poll is that look repeated, which the protocol models by repeated reads. The 64-bit wrap of offset - 1 is not modelled.
- QueueGaps.GapDecreases: asks that Telegram sends fewer than maxsize updates again up to the gap; more of them may push every served id out before the gap's own arrives.
- Webhook push and typing after a delivery, the poller's error backoff: no effect on the queue.
- Idempotency.Call: the getUpdates and deleteWebhook methods the gateway answers itself, multipart bodies and `CallRawWithChat` are not part of this model.
- Supervisor.AtMostOneConnected: no `Unregister` or `Shutdown` racing a start.
- Supervisor.Lock: the freshness check of a Python holder is a parameter; the diagnostic contents of the file are not modelled.
- Supervisor.Session.SuperviseOnce: whether a ping is due and stuck is a parameter.
- MTProto update delivery (`pushUpdate`, replay of the backlog) and the in-memory key cache.
- Migration.Run: reading session files and building blobs is a parameter per file; when the sessions table cannot be read the gate counts no missing login, as in the code.
- Tokenizer.Build: starts at HTML whose outer whitespace is stripped; the markdown pass, `stripOuterWhitespace`, attribute parsing, entity references and the tag-to-formatter table are parameters or left out. Text is a sequence of runes, where the code indexes bytes at ASCII delimiters.
- Entities.MergeAdjacent: returns new entities, where the code lengthens the first of each group in place. Only the kinds the emitter makes are modelled: of two contiguous entities of any other type the code drops the second without lengthening the first, so their coverage is lost.
- gotd's builder: modelled only as appending a segment and recording its UTF-16 offset and length.
