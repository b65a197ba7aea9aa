# TicketWave in Dafny

TicketWave sells seats. An order service drives each purchase through inventory and payment by remote calls that can be
late, lost or half-done; every service announces what it did through an outbox table, relayed to Kafka at least once; a
read model, an email service and the browser's live seat map live off those announcements. This project models that
machinery and proves what it promises over every run: every interleaving of purchases, every lost or late reply, every
crash, rollback, redelivery and expiry.

`dafny verify dfyconfig.toml` checks everything.

## How it is laid out

| files | what they hold |
|---|---|
| `Domain`, `Sums`, `Sorting` | shared types; sums over finite sets; sorting as a function, with uniqueness |
| `SeatTable`, `RowLocks`, `InventoryServer` | the seat table as indivisible operations; the same at row-lock granularity, refining it; the server as imperative code |
| `Saga`, `Idempotency`, `OrderServer` | one CreateOrder attempt as a state machine and as straight-line code that walks it; request comparison and replay; the order and payment tables |
| `Purchase`, `PurchaseInvariant`, `PurchaseTheorems`, `Answers`, `Holds`, `SeatLog`, `PurchaseAlone` | all attempts, tables and the sweeper interleaved; the invariant every step keeps; what it means over whole runs; that every answer rests on what happened; who holds a seat, and that a replayed request leaves nothing behind; where the seat log's entries and their spelling come from; how an undisturbed purchase ends |
| `Relay`, `Publisher` | any number of outbox publishers; publishBatch and the producer's retry as code |
| `ConsumerMachine`, `ConsumerLoop`, `Projection`, `Progress` | the Kafka consumer as a machine and as code; the analytics projection; that consumer and relay never get stuck |
| `Pipeline`, `PipelineTheorems`, `Notification` | shop, relay, consumer and projection as one system; read model and emails compared with seats and money |
| `Hub`, `LiveMap`, `LiveTable`, `LiveFeed` | the realtime hub; the browser's seat map; the map compared with the seat table over whole runs; the hub in between |
| `RateLimiter`, `KeyKeeper` | the gateway's rate limiter; the browser's idempotency keys, joined to the purchase protocol |
| `TokenStore`, `TokenLocks` | refresh-token rotation as imperative code, one call at a time; the same with transactions interleaved, statement by statement |

A remote call is three steps: it is sent, it is carried out, its reply is heard. `Fault` says how carrying out ends: `Clean`,
`RolledBack` (nothing happened, an error is reported) or `Unreported` (it happened, an error is reported). A caller may stop
waiting or die at any point, and the server may still carry the call out afterwards. History variables (`sales`, `wasted`,
`handled`, `received` and the like) record what happened and decide nothing.

## Where the code and its comments differ

The model follows the code. Each difference is a lemma.

- `sameRequest` compares the stored ids in canonical spelling with the request's text. In any run a request repeated word
  for word is called a different one if and only if it spelled an id in another accepted way:
  `PurchaseTheorems.VerbatimRepeatRefusedExactly`, with the instance `PurchaseTheorems.RepeatedVerbatimYetRefused`.
- Seat events carry the ids as the request typed them, the hub looks its watchers up by that text, and the page matches its
  seats by it. In any run the maps of an event agree with the seat table if and only if every reservation for the event that
  took effect spelled its ids canonically: `LiveTable.MapsAgreeExactly`. One order with a seat id in capitals is the
  instance: it is accepted, the seat is HELD, and no page hears of it (`LiveTable.CapitalsGoUnheard`). A page that asks for
  the event in another spelling hears nothing (`LiveFeed.VariantPageHearsNothing`).
- Presenting a used refresh token is meant to revoke every session of the user. The revoking statement sees only the rows
  committed when it starts. It ends a session if and only if no refresh of that session is committed while it runs:
  `TokenLocks.ReuseEndsSessionExactly`. A refresh that was open when it started survives
  (`TokenLocks.OpenRefreshSurvives`), and so does one that reaches its row first (`TokenLocks.LateRefreshSurvives`).
- The producer's comment says that retrying on "unknown topic" cannot store a message twice. `isUnknownTopic` passes over
  the entries of messages that were stored, so a partly rejected batch is sent again whole. Each message is stored once if
  and only if no rejected write's error has a nil entry: `Publisher.StoredOnceExactlyIf`, with the instance
  `Publisher.MixedResultDuplicates`. The duplicates are harmless to the read model (`Projection.OnlyTheSetMatters`).
- The live map is applied in arrival order, and the publisher promises order only as a best effort. A delivery leaves every
  map right if and only if everything since the snapshot is delivered and, after whatever is delivered, all that follows it
  in the log is delivered once more: `LiveMap.SettlesExactly`. In-order delivery with any repeats settles
  (`LiveMap.CatchingUpSettles`), so does a skip that is resent (`LiveMap.SkippedThenResent`); a plain swap does not
  (`LiveMap.SwappedUpdatesMislead`).
- The limiter's comment allows up to twice the limit in a burst. The true bound is one less, and is reached:
  `RateLimiter.BurstIsBounded`, `RateLimiter.BurstCanReachTheBound`.
- Retry-After is meant never to be too early. It is early by a millisecond if and only if a whole number of seconds was left
  and the store keeps a key through the millisecond of its expiry: `RateLimiter.ComingBack`, with the instance
  `RateLimiter.ToldTooEarly`.

## Model

| member | source | states |
|---|---|---|
| PurchaseTheorems.SeatSellsOnce | services/inventory/internal/server/server.go:122-286 | in every state of every run no seat is sold twice, and the SOLD seats are exactly those some confirmation took |
| PurchaseTheorems.ConfirmedOrdersAreDisjoint | services/order/internal/server/server.go:95-113 | a CONFIRMED order's seats are all SOLD, to it, under its event; two CONFIRMED orders share no seat |
| PurchaseTheorems.FailedOrdersBuyNothing | services/order/internal/server/server.go:55-92 | once an order is FAILED no seat was or ever will be sold to it, even by a confirm still in flight |
| PurchaseTheorems.ChargedAtMostOnce | services/payment/internal/server/server.go:26-49 | one payment row per order at most, for the order's own amount, succeeded exactly if the amount is not a multiple of 7 |
| PurchaseTheorems.MoneyIsAccountedFor | services/order/internal/server/server.go:73-113 | CONFIRMED orders are paid; money taken belongs to an order that is CONFIRMED, PENDING, or FAILED with SERVICE_UNAVAILABLE |
| PurchaseTheorems.NothingIsUndone | services/order/internal/server/server.go:162-189 | between any two states of a run, no sale, verdict, payment, announcement or answered call is taken back |
| PurchaseTheorems.OutboxTellsTheStory | services/order/internal/server/outbox_events.go:28-74 | an order's outbox rows are exactly CREATED, or CREATED then the one verdict its row stores, and a verdict is never left though the UPDATE has no guard |
| PurchaseTheorems.RowsCarryTheirOrder | services/order/internal/server/outbox_events.go:28-50 | every outbox row carries its order's own user, event, seats and amount, and a verdict row agrees with the stored status and reason |
| PurchaseTheorems.RefusedMeansNotCharged | services/order/internal/server/server.go:60-92 | an order announced as refused has no succeeded payment then or in any later state |
| PurchaseTheorems.OneOrderPerKey | migrations/order/000003_idempotency.up.sql:17 | of all attempts with one user and one non-empty key at most one ever has an order, sends a reserve or sends a charge |
| PurchaseTheorems.ReplayRepeatsTheAnswer | services/order/internal/server/idempotency.go:85-110 | once an attempt has answered with its verdict recorded, every replay of that request, at any later time, gives the same answer |
| PurchaseTheorems.VerbatimRepeatRefusedExactly | services/order/internal/server/idempotency.go:73-110 | in every reachable state a request that is the one its order's row came from is answered "key reused" if and only if it is not spelled canonically |
| PurchaseTheorems.RepeatedVerbatimYetRefused | services/order/internal/server/idempotency.go:73-110 | a request with one seat id in capitals, which the very row it left does not recognise |
| Holds.ReplaysLeaveNoTrace | services/order/internal/server/server.go:44-53 | an attempt answered by replay, or whose insert the index refused, has in every later state no order, no outbox row, no payment, no sale, no held seat and no further call sent |
| Holds.RunHolders | services/inventory/internal/server/server.go:122-186 | in every reachable state a HELD seat's holder is an attempt that asked for that seat under that event and whose reservation was carried out and not refused |
| Holds.OnlyTheHolderSells | services/inventory/internal/server/server.go:270-286 | in every reachable state a confirm changes only seats its own attempt asked for, reserved and still holds |
| SeatLog.RunAuthored | services/inventory/internal/server/seat_events.go:24-46 | in every reachable state each seat-log entry is a reservation in its request's own words, or repeats a reservation's words, or is in database spelling |
| SeatLog.PlainReservationsPlainLog | services/inventory/internal/server/server.go:176-286 | if the reservations for an event that took effect were spelled canonically, so is every entry about it |
| PurchaseInvariant.StepInv | services/order/internal/server/server.go:31-198 | every step of the protocol, faults included, keeps rows, keys, outbox, payments, sales, seats and seat log in agreement |
| PurchaseInvariant.RunInv | services/order/internal/server/server.go:31-198 | that agreement holds in every reachable state |
| PurchaseInvariant.ConfirmInv | services/inventory/internal/server/server.go:209-236 | a confirm, clean, undone or unreported, keeps the agreement; what it sells was held by its own order |
| PurchaseInvariant.ChargeInv | services/payment/internal/server/server.go:26-49 | a charge, clean, undone or unreported, keeps the agreement |
| PurchaseInvariant.InsertInv | services/order/internal/server/server.go:144-158 | an insert keeps keys unique and writes CREATED with the row or not at all |
| PurchaseInvariant.RecordInv | services/order/internal/server/server.go:162-198 | a transition keeps row, verdict and outbox in step, whenever it lands |
| PurchaseAlone.UndisturbedPurchase | services/order/internal/server/server.go:31-119 | left alone, a purchase is confirmed, sold and charged exactly if its seats are free and its card is good; otherwise nothing is sold or taken and every seat ends as it began |
| PurchaseAlone.HoldUndone | services/inventory/internal/server/server.go:238-286 | reserve then release restores the seat table exactly |
| PurchaseAlone.FreeSeatsCanBeBought | services/order/internal/server/server.go:31-119 | from every reachable state, any free seats can still be bought by a new order |
| PurchaseAlone.UnsoldSeatsCanBeBought | services/inventory/internal/server/server.go:308-386 | from every reachable state, any seats that are not SOLD can still be bought by a new order, after one sweep if some are HELD |
| Saga.CreateOrder | services/order/internal/server/server.go:31-119 | for every combination of replies: exactly which calls are made, in which order, which verdict is handed to transition, and the answer; the same code walks the attempt machine to its end |
| Saga.GiveUp | services/order/internal/server/server.go:132-198 | releaseSeats then fail: both calls are made, in that order, with the given reason, and neither's failure changes what follows |
| Saga.Pay | services/order/internal/server/server.go:73-119 | from the charge on, the exact calls, verdict and answer: a lost or refused charge releases the seats and records the failure, a failed confirm leaves the order undecided |
| Saga.TakeSeats | services/order/internal/server/server.go:55-119 | from the reservation on: a refusal is recorded at once, a lost reply also releases the seats |
| Saga.HearKeepsSound | services/order/internal/server/server.go:44-119 | whatever reply is heard, calls are only ever sent on the strength of the replies before them |
| Saga.LandKeepsSound | services/order/internal/server/server.go:55-113 | a call carried out late leaves the attempt's evidence sound |
| Saga.FailureRoundTrip | services/order/internal/server/metrics.go:32-43 | the reason stored with a failed order leads replay back to the answer the first attempt gave |
| Idempotency.CompareRequest | services/order/internal/server/idempotency.go:73-81 | sorting both lists and comparing them decides equality as multisets of texts |
| Idempotency.RecognisedExactly | services/order/internal/server/idempotency.go:73-81 | a request is recognised if and only if it asks for what the row records and spells every id canonically |
| OrderServer.OrderStore.CreateOrder | services/order/internal/server/server.go:144-158 | the row and its CREATED event, field by field, appear together, or, for a taken key or a rollback, not at all |
| OrderServer.OrderStore.Transition | services/order/internal/server/server.go:162-189 | status, the stored reason word and the matching event, field by field, change together or not at all; no row, no event |
| OrderServer.OrderStore.ReplayRequest | services/order/internal/server/idempotency.go:59-110 | without a row for the key an internal error; a different request is called a reused key; a recognised one is in progress if and only if its row is PENDING, placed if and only if CONFIRMED, and otherwise answered from the stored reason |
| OrderServer.PaymentStore.Charge | services/payment/internal/server/server.go:26-49 | one row for the amount unless rolled back, succeeded exactly if the amount is no multiple of 7, and the reply to match |
| Answers.PlacedMeansSold | services/order/internal/server/idempotency.go:85-110 | in any run whoever is told that an order was placed, first time or by replay, asked for that order, and it is CONFIRMED, paid, with its seats SOLD to it |
| Answers.GivenUpMeansReleased | services/order/internal/server/server.go:60-92 | in any run an attempt that answered without sending a confirm has sent a release, unless the seats were refused, and a FAILED transition whose reason is its answer |
| Answers.RefusalsAreReal | services/order/internal/server/server.go:60-86 | a customer told of a refusal, first time or by replay, has an order that was refused by that very service and is not charged |
| Answers.KeyAnswersAreReal | services/order/internal/server/idempotency.go:94-109 | "in progress" and "key reused" are answered only where another order holds the key, for the same or for another request |
| Answers.UnfinishedIsPaid | services/order/internal/server/server.go:95-107 | an order that could not be finalized is paid, and stays PENDING in every later state |
| Answers.RunGrounded | services/order/internal/server/idempotency.go:85-110 | every replayed answer in every reachable state rests on an order with the request's key and stays true of it |
| Sorting.SortDecidesBags | services/order/internal/server/idempotency.go:73-81 | two lists sort to the same list exactly if they are permutations of each other |
| SeatTable.ReserveKeepsLog | services/inventory/internal/server/server.go:176-186 | a reservation and its event keep the status column equal to the log replayed by id, HELD equal to having a holder, and each entry's words naming its ids |
| SeatTable.MoveKeepsLog | services/inventory/internal/server/server.go:270-286 | so do confirm and release |
| SeatTable.SweepKeepsLog | services/inventory/internal/server/server.go:346-379 | so does a sweep, whose events name each freed seat once under its own concert |
| SeatTable.ReserveMeans | services/inventory/internal/server/server.go:131-187 | accepted if and only if every seat exists under the event and is free; then exactly those seats are HELD by the order, else nothing changes |
| SeatTable.MoveMeans | services/inventory/internal/server/server.go:270-286 | accepted if and only if the order holds every seat; then exactly those leave the hold, else nothing changes |
| RowLocks.LockingRefinesAtomic | services/inventory/internal/server/server.go:122-286 | any interleaving of locking, re-reading, writing and committing by concurrent transactions shows nothing but a sequence of indivisible operations |
| RowLocks.ReserveDecidesRight | services/inventory/internal/server/server.go:136-186 | a reservation goes through exactly when every seat is free at the moment it commits, though its UPDATE tests no status |
| RowLocks.CommitIsAtomic | services/inventory/internal/server/server.go:176-286 | what a commit writes is what the indivisible operation would do to the table as it is then |
| RowLocks.RefusedMoveIsRight | services/inventory/internal/server/server.go:270-286 | a confirm or release that finds too few rows was rightly refused at some moment while it was open |
| RowLocks.CommitSparesOthers | services/inventory/internal/server/server.go:136-186 | a commit never changes a row another open transaction has locked and read |
| RowLocks.RunInv | services/inventory/internal/server/server.go:122-286 | in every reachable state locks are exclusive and every locked row still is as it was read |
| InventoryServer.ValidateSeatRequest | services/inventory/internal/server/validate.go:45-68 | accepts exactly 1 to 10 parsable, distinct seat ids with parsable event and order ids |
| InventoryServer.Server.ReserveSeats | services/inventory/internal/server/server.go:122-207 | all seats become held, with one event in the request's words and their Redis keys in database spelling, or none does; refused, invalid, undone and unreported cases included |
| InventoryServer.Server.MoveHeldSeats | services/inventory/internal/server/server.go:270-286 | all seats leave the order's hold, with one event, or none does |
| InventoryServer.Server.EndHold | services/inventory/internal/server/server.go:209-265 | ConfirmSeats and ReleaseSeats: validation, the move, and after success deletion of exactly the reachable keys as typed, so a key outlives a hold ended in another spelling |
| InventoryServer.Server.SweepExpiredHolds | services/inventory/internal/server/server.go:308-386 | leaves alone every seat that is not HELD, whose key lives, or whose key could not be looked up, and frees every other; once the TTL, and the store's grace, have passed since the last reservation one clean sweep leaves no seat HELD |
| InventoryServer.Server.FindExpired | services/inventory/internal/server/server.go:308-341 | the two loops collect exactly the HELD seats whose key was looked up and is missing or past its time |
| InventoryServer.Server.HoldLasts | services/inventory/internal/server/server.go:186-386 | after an accepted reservation no request of another order and no sweep within five minutes, in any sequence, takes away a seat whose key was set |
| InventoryServer.Server.ServeOthers | services/inventory/internal/server/server.go:186-386 | the same for holds already standing |
| InventoryServer.Server.LockAndTest | services/inventory/internal/server/server.go:131-170 | the two loops over the locked rows decide whether all seats are free |
| InventoryServer.Server.SetKeys | services/inventory/internal/server/server.go:189-193 | every reachable seat key is set to the full TTL, every other key left alone |
| InventoryServer.GroupByEvent | services/inventory/internal/server/server.go:358-377 | the grouping loops emit each freed seat exactly once, under its own event, one event per concert |
| Relay.NoRowIsLost | pkg/outbox/publisher.go:117-171 | with any replicas failing anywhere and any write landing late: a row is locked by one replica at most, a published row is in the log unaltered, any other row is locked or can be picked |
| Relay.EveryCopyIsAccountedFor | pkg/outbox/publisher.go:117-171 | the log holds committed rows only; a published row is there exactly once plus once per wasted copy, and wasted copies, however late they land, are at most the write calls on that row that failed |
| Relay.StepInv | pkg/outbox/publisher.go:70-171 | every step of every replica keeps locks disjoint, the log faithful and the copies counted exactly |
| Relay.RunInv | pkg/outbox/publisher.go:70-171 | that holds in every reachable state |
| Progress.RelayCanFinish | pkg/outbox/publisher.go:70-171 | every run of the relay, whatever failed in it, extends to one in which every row is published and in the log |
| Publisher.Publisher.PublishBatch | pkg/outbox/publisher.go:117-171 | marks exactly the batch published, and only after a stored write; the log grows by exactly what the writes kept; begin, select, scan, iteration, write, mark and commit errors |
| Publisher.Publisher.SelectBatch | pkg/outbox/publisher.go:130-155 | the loop builds the batch and its messages, row for row, and fails exactly if a row of the batch cannot be scanned |
| Publisher.Publisher.Publish | pkg/kafka/producer.go:45-85 | the write is repeated only after "unknown topic" and an undisturbed wait, at most eight times in all, and succeeds exactly if the last write did |
| Publisher.IsUnknownTopic | pkg/kafka/producer.go:89-100 | a whole error counts exactly if it is the unknown topic, a list exactly if no entry is another error; nil entries are passed over |
| Publisher.KeptExactlyNil | pkg/kafka/producer.go:89-100 | a write the code calls "unknown topic" stored something if and only if its error has a nil entry |
| Publisher.PickTakesTheOldest | pkg/outbox/publisher.go:70-79 | a batch is distinct free rows, oldest first with no gap, and all of them if it is not full |
| Publisher.StoredOnceExactlyIf | pkg/kafka/producer.go:59-100 | after a successful Publish each message is stored once if and only if no rejected write's error has a nil entry |
| Publisher.MixedResultDuplicates | pkg/kafka/producer.go:59-100 | the errors nil and UnknownTopicOrPartition for two messages are called "unknown topic", and the retry does not leave each message stored once |
| ConsumerMachine.StepInv | pkg/kafka/consumer.go:132-239 | every step, crash and lost reply keeps each message before the committed offset handled or parked, and calls below the maximum |
| ConsumerMachine.CommittedMeansDone | pkg/kafka/consumer.go:132-160 | in every run, with the topic growing, the offset never goes back and everything it passed was handled or parked, and stays so |
| Progress.ConsumerCanCatchUp | pkg/kafka/consumer.go:132-160 | every run of the consumer, whatever failed in it, extends to one in which the whole topic is committed and no further message was given up |
| ConsumerLoop.Consumer.HandleOne | pkg/kafka/consumer.go:205-239 | 1 to MaxAttempts calls; retried grows by calls minus one on every exit but shutdown; handled, parked, shut down or failed exactly when it should |
| ConsumerLoop.Consumer.FetchBatch | pkg/kafka/consumer.go:168-191 | the batch is consecutive messages; it ends exactly at the batch size, the end of the topic, the wait or the shutdown, and a reader error yields none |
| ConsumerLoop.Consumer.ProcessBatch | pkg/kafka/consumer.go:193-200 | succeeds only if every message of the batch was handled or parked |
| ConsumerLoop.Consumer.RunOnce | pkg/kafka/consumer.go:132-160 | a turn commits the whole batch or nothing, and only when everything before the new offset is settled |
| ConsumerLoop.Consumer.RunForever | pkg/kafka/consumer.go:132-160 | any number of turns and restarts, with messages arriving in between, keeps that |
| ConsumerLoop.GivesUpExactlyWhen | pkg/kafka/consumer.go:205-239 | a message is given up exactly after a permanent failure or the last allowed attempt |
| Projection.Projector.HandleMessage | services/analytics/internal/projection/projection.go:36-117 | records that do not decode or lack an id are given up, CREATED is passed over, a verdict is counted field by field and recorded once, in one transaction |
| Projection.ApplyCountsOnce | services/analytics/internal/projection/projection.go:89-117 | counting a message keeps every statistic equal to the sum over the processed messages |
| Projection.DeliverCountsOnce | services/analytics/internal/projection/projection.go:73-117 | after any deliveries each statistic is the sum over the distinct committed messages, each once |
| Projection.OnlyTheSetMatters | services/analytics/internal/projection/projection.go:73-117 | two delivery sequences that committed the same messages give equal tables, whatever their order, repeats and rollbacks |
| Pipeline.RunInv | pkg/outbox/publisher.go:117-171 | shop, relay, consumer and projection keep their joint invariant in every run of the whole system |
| PipelineTheorems.ReadModelNeverOverstates | services/analytics/internal/projection/projection.go:36-117 | at every moment tickets_sold is at most the event's SOLD seats and revenue_cents at most its succeeded payments |
| PipelineTheorems.ReadModelExactlyWhenCounted | services/analytics/internal/projection/projection.go:36-117 | in every state of every run tickets_sold, revenue_cents and the confirmed count each equal the orders table's if and only if every CONFIRMED row of the event was counted; the failed count, every FAILED row |
| PipelineTheorems.ReadModelCatchesUp | services/analytics/internal/projection/projection.go:36-117 | once the event's CONFIRMED rows are relayed, consumed and none of them dead-lettered, tickets, revenue and confirmed are exact, whatever became of FAILED rows; likewise failed for FAILED rows; all four if both |
| PipelineTheorems.VerdictsDoMatch | services/order/internal/server/outbox_events.go:28-50 | each verdict row is its order's stored verdict, one per decided order |
| PipelineTheorems.TicketsAreSold | services/analytics/internal/projection/projection.go:36-61 | the tickets counted for an event are at most its SOLD seats, counted as disjoint unions over orders |
| PipelineTheorems.RevenueIsPaid | services/analytics/internal/projection/projection.go:36-61 | the revenue counted for an event is at most the succeeded payments of its orders |
| Notification.PromiseExactlyOnRefusal | services/notification/internal/handler/handler.go:69-114 | an email's text contains "You have not been charged." if and only if seats or payment refused the order |
| Notification.MoneyReadsBack | services/notification/internal/handler/handler.go:116-119 | the amount text reads back as the cents, for every integer |
| Notification.ConfirmationSays | services/notification/internal/handler/handler.go:69-78 | a confirmation is addressed to the event's user and names the order, the seat count and the amount so that each reads back |
| Notification.FailureSays | services/notification/internal/handler/handler.go:79-114 | a failure email is addressed to the event's user and gives the reason and the note that belong to it |
| Notification.EmailGoesToTheCustomer | services/notification/internal/handler/handler.go:69-88 | in any run an email is composed exactly for verdicts and is addressed to the user of the order |
| Notification.NotChargedIsTrue | services/notification/internal/handler/handler.go:69-114 | whenever an email composed from the topic contains that sentence, the order has no succeeded payment then or ever after, in any run of the whole system |
| Notification.ConfirmationIsTrue | services/notification/internal/handler/handler.go:69-88 | a confirmation email's amount was really paid for that order and its seats are SOLD under its event |
| Hub.Hub.Subscribe | services/realtime/internal/hub/hub.go:50-66 | refused exactly if closed or full; otherwise one new, empty, open subscription |
| Hub.Hub.Remove | services/realtime/internal/hub/hub.go:77-92 | deregisters, uncounts and closes together, and does nothing the second time; the closed channel was open |
| Hub.Hub.CloseSubscription | services/realtime/internal/hub/hub.go:69-73 | closing any number of times keeps the hub's invariant |
| Hub.Hub.Publish | services/realtime/internal/hub/hub.go:101-113 | every open watcher of the event with fewer than 64 waiting updates gets this one appended, one with 64 is cut off and keeps what it has, nobody else notices; what each got stays a prefix of what was published since it subscribed, and all of it while subscribed |
| Hub.Hub.Close | services/realtime/internal/hub/hub.go:118-127 | every subscription is closed once, the index empty and the count zero |
| Hub.Hub.Receive | services/realtime/internal/hub/hub.go:50-66 | taking from the channel is first in, first out, and changes nothing else |
| Hub.CountIsSumOfSizes | services/realtime/internal/hub/hub.go:130-134 | the count is the sum of the watcher sets' sizes and stays within a non-negative maximum |
| LiveMap.ApplyUpdateRepaints | web/src/lib/seats.ts:33-41 | exactly the update's seats take its state; ids, titles and order stay; unknown ids are ignored |
| LiveMap.SettlesExactly | web/src/lib/seats.ts:33-41 | deliveries bring every map that was right at position k to the state at n if and only if nothing since k is missing and everything after each delivered entry is delivered again |
| LiveMap.LiveMapConverges | web/src/lib/seats.ts:33-41 | a snapshot at position k pushed any delivery that settles shows the state at n |
| LiveMap.CatchingUpSettles | web/src/lib/seats.ts:33-41 | delivery from any position not after k to n, repeating any stretch but never skipping ahead, settles |
| LiveMap.SkippedThenResent | web/src/lib/seats.ts:33-41 | a skip ahead that is made good later settles though it is not in order |
| LiveTable.MapsAgreeExactly | web/src/lib/seats.ts:33-41 | in any run, every map of the event's seats that was right at one moment is right at every later one after any delivery that settles, if and only if every reservation for the event that took effect was spelled canonically |
| LiveTable.FeedTellsTableExactly | services/inventory/internal/server/seat_events.go:24-46 | in any run, the event's feed read from the start gives the status column in every state, if and only if the same holds |
| LiveTable.BrowserAgreesWithTable | services/inventory/internal/server/seat_events.go:24-46 | under that condition a map fetched in one state and pushed the event's updates in any way that settles shows the later state's seat table |
| LiveTable.UnheardSeat | services/inventory/internal/server/server.go:176-186 | a reservation that spells the event or a seat in another way leaves the feed silent about that seat |
| LiveTable.CapitalsGoUnheard | services/inventory/internal/server/validate.go:45-68 | a run with one order whose seat id is in capitals: accepted, the seat HELD, and some map wrong |
| LiveTable.ReplayGivesTable | services/inventory/internal/server/seat_events.go:24-46 | replaying the feed over free seats gives the seat table wherever the feed tells it |
| LiveMap.SwappedUpdatesMislead | web/src/lib/seats.ts:33-41 | two updates in the wrong order leave the map wrong |
| LiveFeed.SubscribedBrowserAgrees | services/realtime/internal/hub/hub.go:50-113 | with reservations spelled canonically, a browser that subscribed by the canonical text, then fetched the map, and has drained its channel, shows the later state's seat table if what the hub was fed since it subscribed settles |
| LiveFeed.WholeFeedSuffices | services/realtime/internal/hub/hub.go:50-113 | it does if the whole feed settles and the map already had what was published before the browser subscribed |
| LiveFeed.VariantPageHearsNothing | services/realtime/internal/stream/handler.go:40-60 | a page subscribed by another spelling of the event is sent none of the canonically spelled updates |
| RateLimiter.Limiter.Allow | pkg/ratelimit/ratelimit.go:27-82 | counts one attempt on one key and no other; allowed exactly within the limit; remaining and reset agree with the counter; errors change nothing or only the counter |
| RateLimiter.Limiter.AllowRequest | services/gateway/internal/httpapi/middleware.go:257-277 | the first call of a window opens it, every further one counts in it; passes exactly if the limiter fails or the count is within the limit, and otherwise says the least whole seconds that cover the time left |
| RateLimiter.RetryAfter | services/gateway/internal/httpapi/middleware.go:269-272 | the least whole number of seconds, at least one, that covers the time left |
| RateLimiter.EveryCounterEnds | pkg/ratelimit/ratelimit.go:27-38 | after any call, from any stored state, the counter has an expiry |
| RateLimiter.BurstIsBounded | pkg/ratelimit/ratelimit.go:40-46 | in any history any interval as long as the window passes at most twice the limit less one |
| RateLimiter.BurstCanReachTheBound | pkg/ratelimit/ratelimit.go:40-46 | for every limit there is a history that reaches that bound |
| RateLimiter.ComingBack | services/gateway/internal/httpapi/middleware.go:269-273 | a lone blocked client that waits as told is allowed if and only if the key does not outlive its expiry or no whole number of seconds was left |
| RateLimiter.ToldTooEarly | services/gateway/internal/httpapi/middleware.go:269-273 | limit 1, window 1000 ms, two calls at once: the second is told one second, comes back then and is still refused |
| RateLimiter.OneSecondMore | services/gateway/internal/httpapi/middleware.go:269-273 | one second more always opens a new window |
| TokenStore.Store.Refresh | services/auth/internal/server/server.go:144-212 | issued if and only if known, unrevoked and not past expiry, expired if and only if known, unrevoked and past it, else invalid; expired and unknown tokens change nothing, a reused one revokes exactly its user's tokens, a trade changes two rows |
| TokenStore.Store.RevokeEvery | services/auth/internal/server/server.go:169-178 | revokes exactly the user's tokens |
| TokenLocks.RunInv | services/auth/internal/server/server.go:144-224 | with transactions interleaved by statement: in every reachable state locks are exclusive, what an open refresh read still stands, and each login has one live token at most |
| TokenLocks.TradedAtMostOnce | services/auth/internal/server/server.go:152-203 | in any such run a refresh token is traded successfully at most once |
| TokenLocks.RevocationLasts | services/auth/internal/server/server.go:144-224 | a revoked token stays revoked, with its user and login |
| TokenLocks.OnlyTheLastIsLive | services/auth/internal/server/server.go:144-212 | a login's tokens form a chain: once a newer one exists an older one is revoked |
| TokenLocks.LiveTokensBoundedByLogins | services/auth/internal/server/server.go:257-277 | a user never has more live tokens than logins |
| TokenLocks.ReuseEndsSessionExactly | services/auth/internal/server/server.go:169-178 | the revocation set off by a used token ends a session, live until then and begun earlier, if and only if no refresh of that session is committed while its statement runs |
| TokenLocks.ReuseEndsEverySession | services/auth/internal/server/server.go:141-178 | if no refresh of the user is committed meanwhile, from then on the user's live tokens all stem from logins made after the statement began |
| TokenLocks.QuietWindowSuffices | services/auth/internal/server/server.go:152-178 | none is, if none is open when the statement starts and none is presented before it commits |
| TokenLocks.OpenRefreshSurvives | services/auth/internal/server/server.go:152-203 | a run in which a refresh open when the revocation starts leaves a live token |
| TokenLocks.LateRefreshSurvives | services/auth/internal/server/server.go:152-203 | a run in which none is open then, and one that reaches its row first leaves a live token |
| TokenLocks.TradeAlone | services/auth/internal/server/server.go:184-203 | with nothing else open, presenting and committing do to the table what the whole call does |
| TokenLocks.PresentedExactly | services/auth/internal/server/server.go:152-182 | alone, a token is taken up if and only if it is known and used before or still good; otherwise the call changes nothing |
| KeyKeeper.KeyKeeper.KeyFor | web/src/lib/idempotency.ts:23-30 | the pending key if its seats have the same name, else the new one |
| KeyKeeper.KeyKeeper.Settle | web/src/lib/idempotency.ts:32-43 | keeps the key exactly after no answer (status 0) and a gateway timeout (504) |
| KeyKeeper.NameDecidesSeats | web/src/lib/idempotency.ts:23-30 | for comma-free ids two lists get one name if and only if they are permutations, save the empty list and the list of one empty id |
| KeyKeeper.CommasMislead | web/src/lib/idempotency.ts:23-30 | that rule needs ids without commas, as the program's are |
| KeyKeeper.RetriesShareTheKey | web/src/lib/idempotency.ts:3-43 | consecutive tries for the same seats, in any order, each earlier one unanswered, all carry the first one's key |
| KeyKeeper.NewPurchaseNewKey | web/src/lib/idempotency.ts:3-43 | after a definite answer, or for another selection, the empty one included, the key is one no earlier checkout carried |
| KeyKeeper.RetriesBuyOnce | services/order/internal/server/server.go:44-53 | in any run of the purchase protocol such tries make at most one order and send at most one charge |

## Left out

- Deadlock between transactions that lock seats in different orders: RowLocks proves safety of every interleaving, not progress.
- Redis hold keys are not in the interleaved protocol: there a sweep may free any HELD seats at any time, which covers every key and clock behaviour; keys and the TTL are in InventoryServer.
- RowLocks.LockingRefinesAtomic: the set of seats is fixed; seats added by CreateEvent while transactions run are modelled only as an indivisible step of Purchase.
- InventoryServer.Server.SweepExpiredHolds: states what one sweep does with nothing running between its statements; sweeps interleaved with other transactions are in RowLocks and Purchase.
- InventoryServer.Server.HoldLasts: the calls run one after the other, each with any fault; the seat's own order does not confirm or release meanwhile.
- Progress.ConsumerCanCatchUp: says that a run can always be continued to the end, not that a scheduler will do so; the same for Progress.RelayCanFinish.
- InventoryServer.Server.FindExpired: the ids are kept as a set, so the order in which rows come back is not modelled.
- Relay.NoRowIsLost: a replica may lock any eligible rows, not only the oldest; the oldest-first rule is Publisher.PickTakesTheOldest. One write call is taken to store a message at most once, at once or late.
- Kafka is one partition with one consumer at a time that restarts from the committed offset; partitions, group rebalancing and overlapping consumers are not modelled.
- ConsumerLoop.Consumer.ProcessBatch: handlers of one batch run one after the other, and a cancellation caused by another one's failure is one of the environment's free choices; ConsumerMachine lets them interleave and stop anywhere.
- Dead-letter headers, backoff times and log lines are not modelled.
- Publisher.StoredOnceExactlyIf: a per-message error list is taken to have one entry per message, nil exactly for those stored or, for other errors, possibly stored; the writer library is not part of this model.
- Hub subscriptions are entries of a map under their identity rather than heap objects; the mutex makes each operation one step.
- LiveMap.ApplyUpdateRepaints: compares lists as values; that an unchanged array is returned by reference is not modelled.
- Ids are abstract numbers, and texts name them in canonical or variant spelling; UUID parsing and the JSON encoding of events are not modelled. The spelling in order events is left out, since their readers parse it.
- Validation of CreateOrder is the predicate Saga.ValidRequest; its loop is that of InventoryServer.ValidateSeatRequest.
- Email sending and its deduplication in Redis, which is not exactly-once by design; Notification is about the text and its truth.
- TokenLocks takes each new token as fresh; a refresh of an unknown or expired token, which changes nothing, is no step; passwords, hashing, signing and access tokens are not modelled.
- TokenStore.Store.Refresh: states what one call does with nothing else running; interleaved calls are in TokenLocks.
- RateLimiter.BurstIsBounded: one limit and one window per history, as each route has in the gateway.
- RateLimiter.ComingBack: for a store that keeps a key through at most one millisecond past its expiry.
- GetOrder, ListSeats, registration, roles, gateway routing and error mapping, SSE writing, React pages, metrics, configuration and generated code: easy members or input and output.
