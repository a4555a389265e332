# Verified model of the mesh observer

A Dafny model of the stateful core of a LoRa mesh radio observer, and proofs about it. The observer hears packets, answers
chat commands through a persisted reply queue, advertises itself now and then, publishes what it hears to MQTT brokers and keeps
metrics for a dashboard. `dafny verify dfyconfig.toml` checks everything.

How the model is laid out:

- **Outbound transmissions.** `Airtime`, `ReplyStore`, `ReplyQueue` and `FloodAdvert` hold the classes that share one radio: each
  method is proved equal to a function on values. `Transmission` lets them interleave over the whole life of an installation:
  packets, enqueues, ticks, grants, sends that end well or badly, store failures, connects, stops, pruning, crashes and boots with
  other settings. `AirtimeSafety`, `ReplySafety` and `AdvertSafety` hold the theorems about every such run. An asynchronous tick is
  cut at its awaits, and every clock reading is a parameter of its own.
- **Bounded caches.** `Deduplicator` is proved against the plain history of its calls, `RepeatChecks` against the list and ledger of
  `RepeatLedger`; `RepeatOverflow` shows by calls what overflow may spare, and `ChannelBot` lifts both to what a bot enqueues and
  counts. An insertion-ordered JavaScript `Map` is a map whose entries carry the number of their insertion.
- **Metrics.** `BucketWidth`, `WeightedRows` and `PacketHistory` cover the bucketed history; `PacketTypes`, `Health`, `SampleStore`
  and `Sampling` the path from counters through snapshots to stored samples; `DashboardQueries` the grouped queries; `Migrations`
  the schema history and `MigratedCounts` what the dashboard counts in the upgraded table.
- **Dashboard refresh, rendering, delivery and lookup.** `DashboardRefresh`, `Rendering`, `MqttPublish`, `Nodes`, `Handlers`.

What has to be assumed: clocks do not go back, also across restarts; SQLite executes each statement as its SQL says, gives a new row
one more than the largest id in use, and leaves the order of ties open; configuration is valid (distinct trigger, bot and broker
names). Time and distinct names are preconditions of the theorems that need them; what SQL does is in the store's contracts.

Four things the proofs brought out:

- A reply row can be named again: the id of a pruned row may come back. Replies are therefore told apart by the number of their
  enqueue, and "a resolved row never changes" is proved of that reply although the UPDATE that resolves it tests no status.
- Overflow of the repeat checks need not drop the oldest registration. It takes the head of the first key's list, and that is the
  oldest one exactly when the oldest has that key's text: `RepeatLedger.OverflowTakesOldestExactlyWhen` says when that fails, in terms
  of the registrations made, and `RepeatOverflow.OverflowSparesTheOldest` is a sequence of calls on which it does.
- Migrating to version 8 gives every row a context, but not every context can be restored. `Handlers.MigratedRowsRestore` gives the
  exact condition: the old outcome and counts in range, and the serialized context within 4096 bytes. Each half can fail alone:
  `Handlers.UnknownOutcomeIsRefused` and `Handlers.LongQueryIsRefused` migrate a database whose row is refused. No statement of the
  repository fills the columns such a row needs: migrations only copy them from `reply_queue_items` on
  (src/metrics/store.js:138-153, 202-208, 275-296), so the rows in question come from releases before version 8.
- The comment above `pruneOlderThan` says that rows at the cutoff go too; the statements delete only what lies before it, and the
  model follows them (src/metrics/store.js:1067-1074).

## Model

| member | source | states |
|---|---|---|
| Airtime.AirtimeCoordinator.TryRunWhenQuiet | src/radio/airtime-coordinator.js:37-49 | Grants exactly when the reservation is free and the quiet time has passed; a grant takes the reservation and counts as activity, a refusal changes nothing |
| Airtime.AirtimeCoordinator.NoteActivity | src/radio/airtime-coordinator.js:20-22 | Activity restarts the quiet time and leaves the reservation alone |
| Airtime.AirtimeCoordinator.Settle | src/radio/airtime-coordinator.js:46-48 | The end of a granted operation frees the reservation and is no activity |
| AirtimeSafety.AtMostOneTransmission | src/radio/airtime-coordinator.js:37-49 | In every run at most one granted operation of the two transmitters is unsettled, and the reservation is held exactly then |
| AirtimeSafety.GrantsFollowQuiet | src/radio/airtime-coordinator.js:13-49 | Every grant comes a full quiet time after each packet, grant and construction before it, across restarts |
| AirtimeSafety.GrantsPerInterval | src/radio/airtime-coordinator.js:37-49 | An interval of length T in which every grant kept a quiet time of at least q holds at most T/q + 1 grants |
| AirtimeSafety.EveryGrantIsLogged | src/radio/airtime-coordinator.js:13-49 | What those theorems count: each packet heard, each boot and each reservation taken is an activity of its time, and each reservation taken, by either transmitter, a grant that knows every activity before it |
| ReplyStore.MetricsStore.EnqueueReplyItem | src/metrics/store.js:987-1001 | A new pending row under one more than the largest id in use; no other row changes |
| ReplyStore.NextRowidExists | src/metrics/store.js:987-1001 | There is always such an id to insert under |
| ReplyStore.MetricsStore.TakeExpiredReplyItems | src/metrics/store.js:1021-1027 | Returns exactly the overdue pending rows as they were, oldest first, and marks them, and only them, expired |
| ReplyStore.MetricsStore.PeekOldestPendingReplyItem | src/metrics/store.js:1044-1047 | Finds a pending row no younger than any other, whenever there is one |
| ReplyStore.MetricsStore.CountPendingReplyItems | src/metrics/store.js:1003-1006 | The number of pending rows |
| ReplyStore.MetricsStore.ResolveReplyItem | src/metrics/store.js:1057-1059 | Sets the ending of the row with this id, whatever its status, and of no other |
| ReplyStore.MetricsStore.PruneRepliesOlderThan | src/metrics/store.js:1068-1080 | Deletes exactly the resolved rows that ended before the cutoff |
| ReplyStore.MetricsStore.RequestFloodAdvert | src/metrics/store.js:875-878 | Makes an idle slot a request and leaves any other alone |
| ReplyStore.MetricsStore.StartFloodAdvertAttempt | src/metrics/store.js:881-883 | Claims the slot exactly when a request is pending |
| ReplyStore.MetricsStore.ResolveFloodAdvertAttempt | src/metrics/store.js:886-890 | Ends an attempt in progress, due one interval later; changes nothing otherwise |
| ReplyStore.MetricsStore.RecoverFloodAdvertAttempt | src/metrics/store.js:896-904 | An interrupted attempt leaves the slot idle, due its start plus the longer of the two intervals |
| ReplyQueue.ReplyQueue.Tick | src/bots/reply-queue.js:201-243 | The tick up to the grant: expires first, stops the timer on an empty queue, and sends only the oldest pending row on a grant |
| ReplyQueue.ReplyQueue.DispatchSettled | src/bots/reply-queue.js:239-244 | The end of the transmission frees the reservation and leaves the row to be resolved |
| ReplyQueue.ReplyQueue.ResolveDispatched | src/bots/reply-queue.js:244-261 | The tick after its await: the row recorded as sent or failed as the send ended, unless the store throws, and the timer stopped when nothing is left; what the ending is, is said on the fields by `StepOnReply` and `SentMeansDelivered` |
| ReplyQueue.ReplyQueue.Enqueue | src/bots/reply-queue.js:109-121 | Ignored once stopped, else a pending row with its deadline and a running timer |
| ReplyQueue.ReplyQueue.Start | src/bots/reply-queue.js:86-93 | Polls at once when rows are pending, and never after a stop |
| ReplyQueue.ReplyQueue.Stop | src/bots/reply-queue.js:160-169 | Stops the timer for good and touches no row; the wait loop after it is the theorems' below |
| ReplySafety.ReplyLifecycle | src/bots/reply-queue.js:188-262 | Between any two moments of any run a reply goes from pending to one final status and then only to pruned; a resolved row never changes |
| ReplySafety.StepOnReply | src/bots/reply-queue.js:188-262 | The exact effect of every step on every reply, on the fields: a tick with no send under way expires the row exactly when it is pending and its deadline is not ahead, at that tick's clock; a stored resolve makes the row in flight sent after a send that ended well and failed after one that ended badly, at the event's clock; a prune takes it exactly when it ended before the cutoff; nothing else touches it |
| ReplySafety.EndingHasItsCause | src/bots/reply-queue.js:188-262 | A reply found resolved after it was pending got that very row, times included, from such a tick or resolve in between |
| ReplySafety.SentMeansDelivered | src/bots/reply-queue.js:237-262 | Over any run a reply is found sent, or failed, only after a tick dispatched that reply, its send ended well, or badly, and this was stored at the time the row tells |
| ReplySafety.EnqueueAccepts | src/bots/reply-queue.js:109-121 | An accepted reply is pending under its own times, the deadline ttlMs away; a stopped queue accepts none |
| ReplySafety.TickSendsExactlyWhen | src/bots/reply-queue.js:201-244 | A tick sends exactly when no send is under way, a row waits whose deadline is ahead, the reservation is free and the quiet time is over; it sends the one that has waited longest and logs its times |
| ReplySafety.PendingIsNeverLost | src/bots/reply-queue.js:148-174 | A pending reply that is gone was seen resolved in between |
| ReplySafety.OneRowPerReply | src/metrics/store.js:987-1001 | Stored rows and replies not yet pruned correspond one to one |
| ReplySafety.DispatchedOncePerMishap | src/bots/reply-queue.js:176-199 | A reply is dispatched at most once, plus once for each failed resolve and each crash while it was in flight |
| ReplySafety.CountsAreEvents | src/bots/reply-queue.js:188-262 | The two counters that bound is about are the dispatch log and the mishap events of the run |
| ReplySafety.DispatchesAreFifo | src/bots/reply-queue.js:210-244 | Over whole runs dispatches are in order of enqueue, and each was before its deadline, so it had waited less than ttlMs |
| ReplySafety.PendingHasATimer | src/bots/reply-queue.js:86-128 | A live queue polls exactly when it was not stopped and anything is pending |
| ReplySafety.StopStartsNothing | src/bots/reply-queue.js:148-174 | From the call of stop() to the next boot no dispatch starts and nothing is accepted; only the send in flight ends, every other pending row stays as it is |
| ReplySafety.StopIsClean | src/bots/reply-queue.js:148-174 | From stop() resolving to the next boot nothing is dispatched or accepted and every pending row stays as it is |
| ReplySafety.StepKeepsCore | src/bots/reply-queue.js:201-262 | Every step keeps the invariant behind these: the row in flight is pending, and no other step touches it |
| FloodAdvert.FloodAdvertScheduler.Tick | src/radio/flood-advert-scheduler.js:87-99 | Requests a due advert, and takes a grant only for a request that is ready; `AdvertSafety` says on the fields exactly when it does either |
| FloodAdvert.FloodAdvertScheduler.Attempt | src/radio/flood-advert-scheduler.js:99-100 | The granted callback commands the radio only while running, connected and holding the claimed slot; else it gives the grant back |
| FloodAdvert.FloodAdvertScheduler.Settled | src/radio/flood-advert-scheduler.js:101-109 | The slot resolved as sent or not, with the path on which the store throws |
| FloodAdvert.FloodAdvertScheduler.Start | src/radio/flood-advert-scheduler.js:53-66 | Recovers an interrupted attempt once and starts the timer |
| FloodAdvert.FloodAdvertScheduler.OnConnected | src/radio/flood-advert-scheduler.js:35-46 | The first connect of a process requests an advert unless one is pending |
| FloodAdvert.FloodAdvertScheduler.OnDisconnected | src/radio/flood-advert-scheduler.js:47-49 | A disconnect changes nothing else |
| FloodAdvert.FloodAdvertScheduler.Stop | src/radio/flood-advert-scheduler.js:69-77 | Ends scheduling and leaves the slot alone |
| AdvertSafety.AdvertsKeepCadence | src/radio/flood-advert-scheduler.js:87-121 | Every attempt starts no earlier than the resolution of the one before plus its interval, or, after an interrupted one, than its start plus max(intervalMs, 47h), in whichever process |
| AdvertSafety.OneAttemptWithoutInterval | src/radio/flood-advert-scheduler.js:35-46 | With interval 0 a process makes at most one attempt |
| AdvertSafety.RequestIsDurable | src/metrics/store.js:448-468 | A request survives busy air, disconnects and restarts until an attempt takes it |
| AdvertSafety.TickRequestsExactlyWhen | src/radio/flood-advert-scheduler.js:88-94 | A tick asks for a periodic advert exactly when the scheduler runs and rests, the interval is on and an idle slot's due time is reached |
| AdvertSafety.TickReservesExactlyWhen | src/radio/flood-advert-scheduler.js:95-110 | It takes one grant exactly when it runs and rests, the radio is connected, an advert is asked for and not before its time, the reservation is free and the quiet time is over |
| AdvertSafety.CallbackAttemptsExactlyWhen | src/radio/flood-advert-scheduler.js:99-102 | The granted callback makes an attempt exactly when still running and connected with a requested slot it could claim, and else gives the grant back |
| AdvertSafety.SettlingTells | src/radio/flood-advert-scheduler.js:101-109 | The end of an attempt on the slot's fields: when it was sent, if it was, and the next due one interval later |
| AdvertSafety.FirstConnectRequests | src/radio/flood-advert-scheduler.js:35-46 | The first connect of a running process leaves an idle slot requested; later ones ask for nothing |
| AdvertSafety.BootRecovers | src/radio/flood-advert-scheduler.js:53-66 | A boot leaves an interrupted attempt due its start plus the longer of the interval and 47 hours, and starts disconnected |
| AdvertSafety.DueAdvertIsAttempted | src/radio/flood-advert-scheduler.js:87-102 | So a due advert is attempted by one tick in quiet air and the callback it is granted |
| AdvertSafety.AdvertStopStartsNothing | src/radio/flood-advert-scheduler.js:69-100 | From the call of stop() to the next boot no attempt starts, not even with a grant in hand, and a request stays as it is |
| AdvertSafety.AdvertStopIsClean | src/radio/flood-advert-scheduler.js:69-79 | From stop() resolving to the next boot no attempt starts and the slot stays as it is |
| Deduplicator.PacketDeduplicator.IsDuplicate | src/packets/packet-deduplicator.js:27-41 | True exactly when the id's last call was less than ttlMs ago with fewer than maxEntries other ids since; at most maxEntries remembered |
| Deduplicator.PacketDeduplicator.EvictExpired | src/packets/packet-deduplicator.js:47-57 | The sweep that stops at the first fresh entry leaves nothing expired |
| Deduplicator.PacketDeduplicator.EvictOverflow | src/packets/packet-deduplicator.js:59-64 | Drops only ids with at least maxEntries ids after them, until the bound holds |
| Deduplicator.LookupIsRecent | src/packets/packet-deduplicator.js:31-32 | A lookup in a cache that holds its invariant answers the question about the bare history |
| RepeatChecks.RepeatCheckTracker.Register | src/bots/repeat-check-tracker.js:40-51 | Expired registrations go, the new one joins, and a tracker already full of live ones gives up exactly one; at most maxEntries remain, and the metas returned are those of what ended |
| RepeatChecks.RepeatCheckTracker.CheckAndConsume | src/bots/repeat-check-tracker.js:67-83 | Confirms the oldest live registration of the text exactly when there is one, with 0 <= elapsedMs < timeoutMs, and leaves nothing past its deadline |
| RepeatChecks.RepeatCheckTracker.SweepExpired | src/bots/repeat-check-tracker.js:54-56 | Ends exactly the registrations past their deadline |
| RepeatChecks.RepeatCheckTracker.EvictExpired | src/bots/repeat-check-tracker.js:90-102 | Looking only at list heads removes and returns exactly the registrations past their deadline |
| RepeatChecks.RepeatCheckTracker.EvictFirst | src/bots/repeat-check-tracker.js:104-116 | Overflow takes the head of the first key's list, and nothing else |
| RepeatLedger.OverflowTakesOldestExactlyWhen | src/bots/repeat-check-tracker.js:104-116 | That head is the oldest registration exactly when the oldest has the first key's text; it is spared exactly when it was made since the first key was inserted and before its present head |
| RepeatOverflow.OverflowSparesTheOldest | src/bots/repeat-check-tracker.js:40-116 | Calls after which overflow gives up a later registration while the oldest is still live |
| RepeatLedger.LiveHead | src/bots/repeat-check-tracker.js:90-102 | Because registrations are made in order, a list whose head is live is live throughout |
| RepeatLedger.ExactlyOneFate | src/bots/repeat-check-tracker.js:40-116 | Every registration made has its own number and exactly one of confirmed, expired, evicted and pending; nothing else has any |
| ChannelBot.FirstQualifyingIsEnqueued | src/bots/channel-bot.js:353-412 | The first delivery of a hash that clears minHops is enqueued, however many fell short before |
| ChannelBot.EnqueuedAgainExactlyWhen | src/bots/channel-bot.js:353-412 | A later qualifying delivery is enqueued exactly when ttlMs passed since the last qualifying one, or maxEntries other hashes qualified in between |
| ChannelBot.AtMostOneReply | src/bots/channel-bot.js:365-384 | Two enqueued deliveries of one hash are ttlMs apart unless maxEntries hashes qualified between them |
| ChannelBot.ChannelBot.HandleMatched | src/bots/channel-bot.js:353-412 | Decides as that history specification says; below minHops the deduplicator is untouched |
| ChannelBot.ChannelBot.Sent | src/bots/channel-bot.js:473-482 | A sent reply is counted and registered for its repeat |
| ChannelBot.ChannelBot.CheckForRepeat | src/bots/channel-bot.js:493-510 | A heard text confirms one reply exactly when a live registration of it is pending |
| ChannelBot.ChannelBot.SweepRepeatChecks | src/bots/channel-bot.js:229-236 | Counts every registration it ends as unconfirmed; a disabled bot sweeps nothing |
| ChannelBot.ChannelBot.RepliesAreAccountedFor | src/bots/channel-bot.js:473-532 | repliesSent = confirmed + unconfirmed + capacity evictions + still pending |
| BucketWidth.ResolveBucketWidthMs | src/metrics/store.js:346-359 | At least the sample interval, within the bucket budget, and the smallest rung, else the smallest multiple of the top rung, that is |
| BucketWidth.LadderAscends | src/metrics/store.js:350 | The rungs tried are strictly ascending, from the sample interval on |
| BucketWidth.RungsAreListed | src/metrics/store.js:10-21 | The rungs are one, five and fifteen minutes, one, three, six and twelve hours, a day, seven and thirty days |
| PacketHistory.QueryPacketHistory | src/metrics/store.js:553-610 | At most max(1, maxBuckets) buckets, strictly ascending, each the sums of its own samples and types |
| PacketHistory.TypeRowsFindBuckets | src/metrics/store.js:605-607 | Every type row finds the bucket it is added to |
| PacketHistory.HistoryLosesNothing | src/metrics/store.js:553-650 | The sums over the buckets are the flat totals, received, decoded and per type |
| PacketHistory.BucketsAreSlices | src/metrics/store.js:553-650 | Each bucket starts a whole number of widths into the window and tells what the flat queries answer for its own stretch, cut at the window's end |
| PacketHistory.EverySampleHasABucket | src/metrics/store.js:594-604 | Every sample of the window lies in some bucket's stretch |
| PacketHistory.PacketTypeTotalsFromHistory | src/web/metrics-server.js:25-35 | Each type of the buckets once with its sum, from the largest total down |
| PacketHistory.OverviewPackets | src/web/metrics-server.js:375-387 | What the overview computes from one history query equals the flat queries, its types listed from the largest total down |
| PacketTypes.BucketPacketsByType | src/web/packet-type-buckets.js:47-54 | Each category's count is the sum over its codes, whatever the order of the entries |
| PacketTypes.CategoriesConserve | src/web/packet-type-buckets.js:22-38 | Re-keying into the eight categories keeps the grand total, also for codes of the future |
| PacketTypes.CodesAreListed | src/web/packet-type-buckets.js:22-38 | Which codes each category has, all others being "other" |
| MqttPublish.Publish | src/mqtt/mqtt-manager.js:78-105 | Result i names broker i, is skipped exactly when it was not connected, and else reflects its own promise |
| MqttPublish.OutcomesAddUp | src/health/service-health.js:93-99 | With distinct ids, the outcomes of n publishes count up to sent + skipped + failed = n for each broker |
| MqttPublish.TallyCountsOutcomes | src/health/service-health.js:93-99 | Outcome by outcome, a tally grows by the number of results that name the broker with that outcome |
| Health.ServiceHealth.CountsAreOutcomes | src/health/service-health.js:93-99 | Each counts object's sent, skipped and failed are the numbers of recorded results of its broker with exactly that outcome |
| Health.ServiceHealth.CountsAreComplete | src/health/service-health.js:93-99 | So they are in each configured broker's counts object: as many as publishes were recorded |
| Health.ServiceHealth.RecordPublishResults | src/health/service-health.js:93-99 | Every broker's counts move by its own results and no other's, in place, and the tallies stay those of all publishes recorded, which `CountsAreOutcomes` spells out outcome by outcome |
| Health.ServiceHealth.PacketDecoded | src/health/service-health.js:77-80 | One more packet decoded, and one more of its type and no other |
| Health.ServiceHealth.TakeSnapshot | src/health/service-health.js:101-116 | The snapshot reads the current counts, through counts objects of its own |
| Sampling.ComputeSampleDelta | src/web/metrics-sample.js:22-67 | The difference of two snapshots per counter, leaving out what did not rise |
| Sampling.DeltaIsGrowth | src/web/metrics-sample.js:22-67 | For counters that only grow, a sample adds to every counter, category and broker outcome exactly its growth |
| Sampling.SamplesTelescope | src/metrics/sampler.js:54-75 | Over all ticks of a process, persisted samples and those lost to failed writes add up to the last snapshot's value, counter by counter |
| Sampling.TablesGrow | src/metrics/sampler.js:54-93 | Over a whole process, prunes included, a windowed sum of the tables grows by exactly what was persisted in the window, if no prune reaches it |
| Sampling.TablesTellTheCounters | src/metrics/sampler.js:54-93 | Over a window that holds every tick, what the tables gained and what failed writes lost make up the last snapshot's value |
| Sampling.MetricsSampler.Tick | src/metrics/sampler.js:54-93 | A tick extends the run of those theorems: its sample is the growth since the last snapshot, the tables gain exactly that or nothing when the write failed, and it prunes at most once a day |
| Sampling.MetricsSampler.RecordSample | src/metrics/sampler.js:62-75 | Hands the store the difference to the last snapshot; a failed write leaves the tables as they were |
| Sampling.MetricsSampler.MaybePrune | src/metrics/sampler.js:78-93 | Prunes when a day has passed since the last try, failed or not, and never with unlimited retention |
| Sampling.PublishResolved | src/index.js:244-250 | Publishes recorded between ticks leave the last snapshot reading as it did |
| SampleStore.SampleTables.RecordPacketSample | src/metrics/store.js:501-538 | One transaction: all rows or none, a child row only for a positive count, and every windowed sum grows by the sample's share |
| SampleStore.SampleTables.PruneOlderThan | src/metrics/store.js:1068-1080 | Deletes the samples before the cutoff with their child rows, or nothing |
| SampleStore.PruneKeeps | src/metrics/store.js:1068-1080 | Pruning changes no sum over a window that starts at or after the cutoff |
| SampleStore.PruneDeletesExactly | src/metrics/store.js:1068-1080 | It deletes exactly the samples before the cutoff and exactly their child rows |
| SampleStore.CategoryIsQueried | src/metrics/store.js:619-634 | The windowed sum of a category is what the packet-type query answers |
| DashboardQueries.QueryDashboardBotCommands | src/web/metrics-server.js:473-489 | From one grouped query: every configured bot with each command's own count, zero-filled, in order, and their total |
| DashboardQueries.HandleBotCommands | src/web/metrics-server.js:556-575 | The same from one query a bot |
| DashboardQueries.BucketBotCommandCounts | src/web/bot-command-buckets.js:11-17 | Every configured command in order with its listed count or zero |
| DashboardQueries.QueryBotCommandCountsByBot | src/metrics/store.js:719-733 | One row, and no second, for each bot and trigger with sent replies in the window, with their number |
| DashboardQueries.QueryBotCommandCounts | src/metrics/store.js:694-708 | The same for one bot |
| DashboardQueries.OneQueryOrMany | src/web/metrics-server.js:473-489 | The grouped query and the queries bot by bot, run on the same table, give equal results |
| DashboardQueries.TotalCountsReplies | src/web/metrics-server.js:480-489 | With distinct triggers a bot's total is the number of its sent replies under a configured trigger |
| DashboardQueries.QueryReplyOutcomeTotals | src/metrics/store.js:747-756 | For each of the four endings the number of replies that resolved so in the window |
| DashboardQueries.OutcomesPartition | src/metrics/store.js:747-756 | The four totals leave out no reply that ended in the window and count none twice |
| DashboardQueries.PruneKeepsCounts | src/metrics/store.js:1068-1080 | Pruning replies changes no count, by outcome or by bot and trigger, over a window from the cutoff on |
| DashboardQueries.QueryDashboardBrokers | src/web/metrics-server.js:491-503 | Each configured broker with the window's sum of each outcome, zero where no row is |
| DashboardQueries.QueryBrokerDeliveryTotals | src/metrics/store.js:791-806 | The windowed sum of each broker's outcomes, none listed twice and none left out that is not zero |
| DashboardQueries.ComparisonIsAdjacent | src/web/metrics-server.js:356-363 | The comparison window has the same length, lies within the recorded time and adjoins: sums over both are the sum over the whole |
| DashboardQueries.ComparedExactlyWhen | src/web/metrics-server.js:356-363 | There is one exactly for an overview of a limited range whose samples reach back over the whole window before it |
| Migrations.MigrationPreserves | src/metrics/store.js:23-304 | Each migration keeps every ended reply, the queue with the times of each reply in it and all it was asked, every sample under its id, the packet types and the sum of every category over every window, joined by sample, the nodes, the advert slot, whole reply rows from version 5 on and the packet totals |
| Migrations.UpgradePreserves | src/metrics/store.js:471-492 | So does any upgrade from any version to any later one |
| Migrations.UpgradeKeepsOwnIds | src/metrics/store.js:178-219 | Reply ids are each used once from version 5 on, and stay so through every upgrade |
| MigratedCounts.CountsSurvive | src/metrics/store.js:694-733 | Hence the dashboard's query on the upgraded table counts, per bot and trigger and in any window, the replies the old tables recorded as sent |
| MigratedCounts.OutcomesSurvive | src/metrics/store.js:747-756 | And its outcome totals are, ending by ending, the numbers the old tables recorded |
| Migrations.ContextsAreAccepted | src/metrics/store.js:275-296 | Version 8 keeps ids, columns and queries; a context is accepted by its kind's schema exactly when the old outcome and counts were in range |
| Migrations.MetricsDatabase.RunMigrations | src/metrics/store.js:471-492 | Applies exactly the missing migrations in order; a failing one is undone and ends the run |
| Migrations.RerunReachesTheSame | src/metrics/store.js:471-492 | A run after a failed one ends where an unbroken run would have |
| DashboardRefresh.RefreshIsLatestWins | src/web/client/dashboard.js:770-831 | In every run at most one unaborted request awaits and it is the newest; shown generations strictly rise |
| DashboardRefresh.PageIsLatestWins | src/web/client/dashboard.js:770-831 | So it is from a fresh page on |
| DashboardRefresh.StepKeeps | src/web/client/dashboard.js:770-831 | Every call and every end of a request keeps that invariant |
| DashboardRefresh.GuardsAgree | src/web/client/dashboard.js:802-818 | On every request that ends, the abort flag and the generation check agree |
| DashboardRefresh.CallStartsExactlyWhen | src/web/client/dashboard.js:770-801 | A call starts a request exactly when it has parameters and none is active or it supersedes: the next generation, awaiting, and the active one aborted; else it raises the flag, and without parameters changes nothing |
| DashboardRefresh.SettlingFreesExactlyWhen | src/web/client/dashboard.js:802-828 | The end of the latest request shows its outcome, frees the page and starts the next generation exactly when the flag was up and there are parameters; the end of any other changes nothing but that it no longer awaits |
| DashboardRefresh.FlightCoalesces | src/web/client/dashboard.js:777-785 | During a flight calls only raise the flag, which survives supersession, and only a supersession starts a request |
| DashboardRefresh.OneFollowUp | src/web/client/dashboard.js:818-828 | However many calls were coalesced, the end of the flight makes exactly one follow-up attempt, and none if there were none |
| DashboardRefresh.EveryFlagIsAnswered | src/web/client/dashboard.js:777-828 | Over any run each raised flag is answered by one follow-up call or is still up |
| DashboardRefresh.RangeRefresher.RefreshRangeData | src/web/client/dashboard.js:770-831 | The call is the protocol's step, which `CallStartsExactlyWhen` states on the fields; it returns the request that will answer |
| DashboardRefresh.RangeRefresher.Finish | src/web/client/dashboard.js:802-828 | The end of a request with its finally block, as the protocol's step |
| Rendering.TruncateToUtf8Bytes | src/bots/response-template.js:24-36 | The longest prefix of whole code points whose UTF-8 encoding fits |
| Rendering.LongestIsUnique | src/bots/response-template.js:18-36 | There is only one such prefix, and it is the text itself when that fits |
| Rendering.MeasuresUtf8 | src/bots/response-template.js:28 | Byte lengths are those of the octets of section 3 of RFC 3629, an unpaired surrogate counting as U+FFFD |
| Rendering.DecodesUtf8 | src/bots/response-template.js:28 | Reading those octets back gives the code points of the text |
| Rendering.FindsPlaceholder | src/bots/response-template.js:14-16 | A placeholder is found exactly where the text has one, and the whole of it |
| Rendering.RenderIsSinglePass | src/bots/response-template.js:14-16 | A placeholder becomes its value, or stays as typed without one, wherever it stands, and the value is not expanded again |
| Rendering.IdentityValues | src/bots/response-template.js:14-16 | With every key bound to its own placeholder the template comes back |
| Rendering.RenderResponse | src/bots/response-template.js:59-82 | Never over maxBytes; degraded exactly when the full response does not fit, and then the longest fitting part of the right fallback |
| Rendering.FallbackIsChosen | src/bots/response-template.js:65-81 | The fallback is the overflow template's text when there is one, else, with a path, the text whose path is blank, else the whole text |
| Rendering.KeysAreSpelled | src/bots/response-template.js:14-16 | Keys are ASCII letters, digits and underscores between braces |
| Nodes.RowTellsFirstAndLatest | src/metrics/store.js:417-424 | After any upserts a row has the time of the first hearing and the name, type and time of the latest |
| Nodes.HeardIsStored | src/metrics/store.js:417-424 | A key has a row exactly when it was heard |
| Nodes.FindByPrefix | src/nodes/node-registry.js:105-120 | Invalid, not found, found or ambiguous exactly by the number of matches of the type; an ambiguous answer names the latest heard |
| Nodes.FindNodesByPublicKeyPrefix | src/metrics/store.js:962-976 | Every match once, most recently heard first |
| Nodes.NormalizedIsNormal | src/nodes/node-registry.js:7-13 | A normalized query is 2 to 64 upper-case digits and normalizing it again changes nothing |
| Nodes.NormalizesExactlyWhen | src/nodes/node-registry.js:7-13 | A query is accepted exactly when it is 2 to 64 hexadecimal digits of either case inside white space, and becomes those digits in upper case |
| Nodes.TrimLeavesBare | src/nodes/node-registry.js:8 | Trimming takes away exactly the white space around a text |
| Nodes.ExtendingNarrows | src/nodes/node-registry.js:105-120 | A longer query only narrows the answer: nothing turns up, what was found stays or is gone, and it is ambiguous only if it was, with no more matches; a best guess that still matches is as good as before |
| Nodes.TypeNarrows | src/nodes/node-registry.js:105-120 | So does naming a type |
| Nodes.FullKeyIsExact | src/nodes/node-registry.js:105-120 | A 64-digit query is never ambiguous and finds exactly its own node |
| Nodes.ActiveIsAddedOrUpdated | src/metrics/store.js:664-679 | Active nodes = added + updated - those counted in both |
| Nodes.NodeRegistry.RecordFromDecodedPacket | src/nodes/node-registry.js:65-88 | Only a verified advert with a name is stored |
| Handlers.SentAsMatched | src/bots/channel-bot.js:437-454 | With distinct triggers, sending finds the command that matched and restores the argument it was given |
| Handlers.SomeCommandTakes | src/bots/channel-bot.js:334-341 | A text is matched exactly when some command takes it |
| Handlers.FirstTakingIsFirst | src/bots/command-handlers/stats.js:17-28 | The command found is the first of its kind in configured order that takes the text |
| Handlers.TakesExactlyWhen | src/bots/command-handlers/lookup.js:70-80 | A command takes its trigger, and unless it is exact also the trigger, a space and anything |
| Handlers.ArgumentFollowsTrigger | src/bots/command-handlers/lookup.js:73-77 | The bare trigger asks for the empty query; what follows it after a space is the query, without the white space around it |
| Handlers.EarlierKindWins | src/bots/command-handlers/index.js:6-12 | An exact command wins over a lookup and a lookup over statistics, wherever they are configured |
| Handlers.LookupMatch | src/bots/command-handlers/lookup.js:70-85 | The lookup handler's loop finds that command and the trimmed argument |
| Handlers.RestoresItsOwn | src/bots/command-handlers/handler-state.js:28-57 | A handler serializes exactly data of its schema within the size bound, and no handler of another kind takes it back |
| Handlers.RestoresExactlyWhen | src/bots/command-handlers/handler-state.js:39-56 | A stored text restores exactly when it is JSON of at most 4096 bytes, of the handler's kind, version 1 and schema, and then to its data |
| Handlers.MigratedRowsRestore | src/bots/command-handlers/handler-state.js:36-55 | A row of version 7 restores after its migration exactly when its outcome and counts were in range and its context is within the size bound, query intact |
| Handlers.QueuedReplySurvives | src/metrics/store.js:138-304 | A reply queued in version 4 is pending in version 8 under its own times, and restores with its own query exactly under that condition |
| Handlers.UnknownOutcomeIsRefused | src/bots/command-handlers/lookup.js:13-28 | A database whose row is migrated and then refused for its outcome |
| Handlers.LongQueryIsRefused | src/bots/command-handlers/handler-state.js:40-42 | A database whose row, in range throughout, is migrated and then refused for its size |
| Handlers.AgeIsRoundedDown | src/bots/command-handlers/lookup.js:46-65 | An age is given in the largest unit that fits, at least one of it, rounded down |
| Handlers.ExecuteLookup | src/bots/command-handlers/lookup.js:87-115 | The reply tells of exactly the repeaters that match when it is sent, a short query shown as four digits of the key found |

## Left out

- Cryptography, packet and advert decoding: a hash is an opaque id, a decrypted and matched text is given.
- Transports, radio reconnection, MQTT client state and token refresh: a send is an operation that ends well or badly.
- Configuration loading, schemas and logging; HTTP, SSE, HTML, charts and every part of the dashboard client but the refresh protocol.
- SQLite itself: statements are modelled by what their SQL says. Store failures other than those of the resolving and claiming
  updates, the sample write, the prune and a migration are not modelled, such as a failing enqueue or peek.
- Rows imported from the log of version 4 carry no enqueue times; `Transmission` starts from rows that have them, `Migrations` keeps
  the nulls.
- A scheduler that is started again after a stop, and radio events of a scheduler that is not running.
- A synchronous throw inside refreshRangeData before its first await, which only a missing page element could cause.
- A clock that goes back.
- ReplyQueue.ReplyQueue.Stop: it ends before the wait loop, which `ReplySafety.StopStartsNothing` and `StopIsClean` take up.
- FloodAdvert.FloodAdvertScheduler.Stop: likewise, taken up by `AdvertSafety.AdvertStopStartsNothing` and `AdvertStopIsClean`.
- Sampling.ComputeSampleDelta: the point-in-time gauges it carries through unchanged (connections, readiness, queue depth) are not modelled.
- Health.ServiceHealth.TakeSnapshot: reconnect counts, connection times and bot states are left out for the same reason.
- Sampling.MetricsSampler.Tick: the sample event and the timer are left out.
- SampleStore.SampleTables.RecordPacketSample: so are the gauge columns of the sample row.
- DashboardQueries.QueryBotCommandCountsByBot: the ORDER BY is left open, which the zero-filled results do not depend on.
- DashboardQueries.QueryBotCommandCounts: likewise.
- DashboardQueries.QueryBrokerDeliveryTotals: likewise.
- DashboardQueries.QueryDashboardBotCommands: trend differences of the overview are plain subtractions and are left out.
- Handlers.RestoresItsOwn: JSON text is not modelled, so a state stands for its text and its size is any function of it.
- Executing a stats command, range tokens and duration formatters: one-branch lookups.
- Prototype keys of value objects: values and counters are plain maps.
