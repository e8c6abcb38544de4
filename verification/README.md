# Plateful order service: a Dafny model

This project models the parts of the Plateful catering API whose correctness does not show in any single function:
what concurrent status updates do to a row, what pruning does to the per-IP rate limiter, what happens to an event
between `createOrder` and the worker, whether the batched lookup is the single lookup, and whether decimal amounts
and ids survive the trip through the API. Each module stands for one source file or one protocol.

`dafny verify dfyconfig.toml` checks the whole project.

## The modules

**Orders.** `OrderStatus` is the status table. `OrderStore` gives every SQL statement a meaning on a table of rows
and models the store in front of it as a class. `StatusProtocol` is a step system for any number of clients and
orders: a client inserts, or it reads and validates, begins its `UPDATE` (which fixes `now()`), and commits it, and
other clients may act between any two of these. Every step keeps one invariant: the history of each order is a path
of the transition table that explains its row, and every client still knows what it read. From it follow, in
`StatusTheorems` and `Linearization`:

- comparing the status alone is as good as comparing a version number, step for step, in every run. The compared
  status cannot come back, because every move lowers a potential;
- a conflict is answered exactly when another client's write came in between, and of several clients that read the
  same version one succeeds;
- `updated_at` never decreases, and a delivered or cancelled row never changes again;
- an update is answered with the order exactly for a move of its life that it allows, and every refusal has its error
  (`Updates`);
- any interleaving leaves the table and gives the answers of atomic read-validate-write calls made one after the
  other, and at most four updates succeed for each order created.

**Rate limiter.** `RateLimiting` has the program's objects: a map of entries holding shared bucket objects, changed
in place. `LimiterTraces` runs the same map operations over timed traces in which `get` and `Allow` are separate steps
and a request may hold a bucket that has been pruned. `Eviction` proves by simulation that the pruning limiter
decides like one that never forgets; `DelayBound` proves for exactly which delays between `get` and `Allow` this
holds: those with `rate * (idle - delay) >= burst`, and any delay if the burst is zero. `Admission` and `DelayBound`
show that the requests admitted in a window are bounded by the burst plus the refill for exactly the same delays. For
a longer delay there is a trace on which both bursts of an address are admitted in one window. As shipped (10 per
second, burst 30, 3 minutes) the bound is 177 seconds. `Isolation` shows that addresses do not influence each other.

**Events.** `ReceiveLoop` is the worker: a class with the receive loop, the counting handler and the early exits.
`Pipeline` is a step system of clients, an at-least-once queue and several workers, where any call can fail with or
without effect and any process can stop. `WorkerRefinement` shows that its worker steps are the receive loop's, over all the
rounds of a run. No order whose creation was reported loses its event, in any run, exactly when SQS is the publisher;
with the no-op publisher, or with none, every order does unless another sender enqueues its event.

**API.** `Mappers` says what a client is shown of a row, column by column, and proves the mapping to show exactly that.
`Creation`, `Updates` and `Filters` give `createOrder`, `updateOrderStatus` and `orders` as functions of the table and
prove what is stored, shown and refused for what was submitted; `Resolvers` has the resolver methods, with the store and
the queue as objects, proved against these functions. `Dataloader` proves the batch function equal to one lookup at a
time at every position, errors included. `Listings` states what clients see in reachable tables. `Uuids` and `Amounts`
are the text formats: ids in the form of section 4 of RFC 9562, and amounts through binary floating point, where a
double is an integer significand times a power of two and the conversion rounds to nearest as in section 4.3.1 of
IEEE 754-2019.

`Wrappers` and `Sequences` are helpers.

## Assumptions

- Each SQL statement is its own READ COMMITTED transaction that takes effect at one moment; `now()` is the start of
  that transaction; primary keys are unique; rows are never deleted (no query does). The database clock does not run
  backwards.
- The queue delivers at least once and does not expire messages. A delete may fail, may take effect although it
  failed, or may be answered with success for an out-of-date receipt and leave the message.
- A token bucket refills at `rate` up to `burst` and gives one token to a request that finds a whole one. Its `Allow`
  is atomic and reads the clock when it runs. Time and tokens are real numbers.
- What the outside world decides (clocks, new ids, whether a call is answered, what a receive returns) is a parameter.

- Ids are read by a library that is not part of the repository (github.com/google/uuid v1.6.0). Its four text forms are
  modelled: the standard one, one after a `urn:uuid:` prefix, one between two more characters, and 32 bare digits.

## Errors for orders that exist

`createOrder` can answer with an error although the order now exists (the answer to its insert was lost, or the send
failed), and even although its event was enqueued (the answer to the send was lost). `Creation.ErrorsThoughCreated`
states exactly when, and `Creation.ErrorCanFollowEvent` gives such a call.

## Where the code and its comments differ

- `ReceiveLoop` is documented to delete on success (internal/queue/sqs.go:108). A message without a body is skipped and
  not deleted, and one that does not decode stops the loop and stays in the queue for the next worker
  (`Pipeline.UnhandledMessagesStay`).

## Model

| member | source | states |
|---|---|---|
| OrderStatus.TransitionLowersPotential | internal/orders/status.go:25-34 | the transition table is acyclic: every allowed move lowers a potential of at most 4, never leads back to pending and never leaves a terminal status |
| OrderStatus.AllowedMoves | internal/orders/status.go:27-34 | a move is allowed if and only if it is one step down the life of an order, or its cancellation, between known statuses and not from a terminal one |
| OrderStatus.ValidationAnswers | internal/orders/status.go:86-96 | exactly these moves pass validation; an unknown status and a known but wrong move have each their own error |
| OrderStatus.LifeDescends | internal/orders/status.go:60-78 | along any history of allowed moves the potential falls, so no status is seen twice |
| OrderStatus.LifeVisitsOnce | internal/orders/status.go:55-78 | a history has at most five entries, all known and all different, and only the last can be terminal |
| OrderStore.CollectByIds | internal/store/db/orders.sql.go:73-105 | every row with a wanted id is returned exactly once, duplicates and unknown ids notwithstanding |
| OrderStore.CollectNewestFirst | internal/store/db/orders.sql.go:107-148 | exactly the rows that match the status and creation filters are returned, once each, newest first |
| OrderStore.Store.CreateOrder | internal/store/store.go:24-27 | the whole new table for every outcome: inserted, constraint violated, answer lost before or after the commit |
| OrderStore.Store.GetOrderByID | internal/store/store.go:29-39 | the row, not found, or the database error; one query |
| OrderStore.Store.GetOrdersByIDs | internal/store/store.go:41-48 | an empty id list is answered without a query; otherwise one query returns the selection |
| OrderStore.Store.ListOrders | internal/store/store.go:50-53 | a listing of the matching rows, or the database error |
| OrderStore.Store.UpdateOrderStatus | internal/store/store.go:55-66 | the compare-and-set on the table, and a status conflict exactly when no row has that id and status |
| StatusProtocol.StatusDecidesVersion | internal/graph/schema.resolvers.go:62-80 | ABA freedom: the status is still the one read exactly when no write was committed since |
| StatusProtocol.CommitKeepsRowsOk | internal/store/db/orders.sql.go:150-158 | a compare-and-set that finds its row writes at the version read, extends the order's path by an allowed move and keeps its stamps in order |
| StatusProtocol.CommitInsertKeepsInv | internal/graph/schema.resolvers.go:29-37 | an insert starts a history at pending and disturbs no other client or order |
| StatusProtocol.CommitUpdateKeepsInv | internal/graph/schema.resolvers.go:76-87 | an update's commit, whatever its outcome, keeps the invariant of every order and client |
| StatusProtocol.StepKeepsInv | internal/graph/schema.resolvers.go:21-88 | every step of every client keeps the invariant |
| StatusProtocol.ReachableInv | internal/graph/schema.resolvers.go:21-88 | the invariant holds in every reachable state |
| StatusTheorems.UpdatedAtNeverDecreases | internal/store/db/orders.sql.go:150-158 | in every interleaving `updated_at` never decreases and never falls below `created_at`, which never changes |
| StatusTheorems.BlindUpdateRunsBackwards | internal/store/db/orders.sql.go:150-158 | the read is needed: with an update begun on a guess, a run of five steps from the empty table leaves `updated_at` below `created_at` |
| StatusTheorems.TerminalIsFinal | internal/orders/status.go:55-71 | once delivered or cancelled, a row never changes again in any column |
| StatusTheorems.StatusesFollowTheTable | internal/graph/schema.resolvers.go:69-80 | every reachable order's full history is a path of the transition table from pending to its current status, without repetition, although validation read a possibly stale row |
| StatusTheorems.CommitDecides | internal/graph/schema.resolvers.go:76-86 | an update succeeds exactly when its order was not written since its read, and is a conflict otherwise; no other outcome is possible |
| StatusTheorems.StatusCompareIsVersionCompare | internal/store/db/orders.sql.go:150-158 | every run equals the run of the same protocol with an `UPDATE` that compares a version number |
| StatusTheorems.ConflictsAreReal | internal/graph/schema.resolvers.go:81-86 | a client gets the conflict if and only if another client's write of the order was committed after its read |
| StatusTheorems.OneWinnerPerVersion | internal/store/store.go:57-65 | after one client's update succeeded, whoever read the same order at the same or an earlier version gets the conflict, however much later it commits |
| Linearization.StepLinearizes | internal/graph/schema.resolvers.go:62-87 | the step in which a call takes effect changes the table and answers as an atomic read-validate-write would |
| Linearization.EveryAnswerIsAnEffect | internal/graph/schema.resolvers.go:49-88 | every answer but a conflict or a failure is given by such a step of the same client |
| Linearization.ConcurrentRunsAreSequential | internal/graph/schema.resolvers.go:21-88 | any interleaving from the empty table leaves the table and gives the answers of the atomic calls in the order they took effect |
| Linearization.AtomicUpdateIsARun | internal/graph/schema.resolvers.go:49-88 | conversely, a client's undisturbed update leaves the table and gives the answer of the atomic one, and leaves the client free for the next call |
| Linearization.AtomicCreateIsARun | internal/graph/schema.resolvers.go:21-46 | and so does its undisturbed insert, of a pending row with the texts and amount given |
| Linearization.CallMovesPotential | internal/orders/status.go:27-34 | a successful update strictly lowers the potential summed over all rows, a create from pending raises it by exactly 4, anything else leaves the table as it was |
| Linearization.SequentialBudget | internal/orders/status.go:27-34 | updates that succeeded and potential left are paid for by the potential at the start and 4 for each create |
| Linearization.UpdatesAreBudgeted | internal/store/db/orders.sql.go:150-158 | over any concurrent run at most four updates succeed for every order created |
| RateLimiting.Limiter.Allow | internal/observability/ratelimit.go:69 | one token is taken exactly when a whole one is there |
| RateLimiting.RateLimiter.constructor | internal/observability/ratelimit.go:26-35 | starts with no entries |
| RateLimiting.RateLimiter.Get | internal/observability/ratelimit.go:37-47 | the address's bucket, or a new full one, with the entry marked as seen and no other entry touched; addresses never share a bucket |
| RateLimiting.RateLimiter.Cleanup | internal/observability/ratelimit.go:49-60 | exactly the entries unseen for more than the idle limit are gone |
| RateLimiting.RateLimiter.Serve | internal/observability/ratelimit.go:63-74 | the decision for one request and the bucket it leaves, with every other bucket unchanged |
| LimiterTraces.StepKeepsOk | internal/observability/ratelimit.go:37-74 | every step keeps tokens within the burst and every bucket, pruned or not, with one address |
| Eviction.GetSimulates | internal/observability/ratelimit.go:37-47 | `get` keeps the pruning limiter in agreement with the one that never forgets, also when it recreates a pruned entry |
| Eviction.AllowSimulates | internal/observability/ratelimit.go:69 | an `Allow` within the delay decides alike in both and keeps them in agreement |
| Eviction.SweepSimulates | internal/observability/ratelimit.go:49-60 | if rate * (idle - delay) is at least the burst, a pruned bucket is full and no request within its delay still holds it, so pruning any stale entries keeps the agreement |
| Eviction.TraceSimulates | internal/observability/ratelimit.go:37-74 | if rate * (idle - delay) is at least the burst, the two give the same decisions on every trace whose `Allow`s come within the delay |
| Admission.NeverForgettingBound | internal/observability/ratelimit.go:62-74 | without pruning, any address is admitted at most burst plus rate times the elapsed time |
| Admission.SafeWindowWithinRate | internal/observability/ratelimit.go:37-75 | with pruning, if rate * (idle - delay) is at least the burst: the same bound for every address and every window of every trace whose `Allow`s come within the delay |
| DelayBound.RateKeptExactlyWhenSafe | internal/observability/ratelimit.go:37-75 | every window of every such trace keeps that bound if and only if rate * (idle - delay) is at least the burst, or the burst is zero |
| DelayBound.LongDelayIsObservable | internal/observability/ratelimit.go:49-60 | a longer delay shows: there is a trace of one address on which pruning admits two bursts where the other limiter stops the second |
| DelayBound.UnobservableExactlyWhenSafe | internal/observability/ratelimit.go:37-60 | pruning is unobservable if and only if rate * (idle - delay) is at least the burst, or the burst is zero |
| DelayBound.ShippedDelay | cmd/api/main.go:74-75 | with the shipped rate, burst and idle limit, pruning is unobservable, and every window within the rate, for exactly the delays up to 177 seconds |
| DelayBound.ShippedWindow | cmd/api/main.go:74-75 | within that delay an address gets at most 30 requests, and 10 for each second, through in any window |
| Isolation.AddressesAreIndependent | internal/observability/ratelimit.go:37-75 | on every trace the decisions for an address are those it gets when all other addresses' requests are removed |
| ReceiveLoop.Worker.Handle | cmd/worker/main.go:43-51 | the counter counts exactly the OrderCreated events handled |
| ReceiveLoop.Worker.Process | internal/queue/sqs.go:125-143 | one message: skipped, undecodable, refused, handled but not deleted, or handled and deleted |
| ReceiveLoop.Worker.ProcessBatch | internal/queue/sqs.go:125-143 | stops at the first message that does not pass; before it everything with a body was handled and deleted; there, only a failed delete leaves its event handled |
| ReceiveLoop.Worker.Loop | internal/queue/sqs.go:109-145 | how the loop ends, and all it handled and deleted, over any list of rounds |
| ReceiveLoop.PassedAreBodied | internal/queue/sqs.go:125-143 | of a stretch that passed, exactly the messages with a body were deleted, each handled once, in order |
| ReceiveLoop.LoopEnds | internal/queue/sqs.go:111-143 | the loop ends at the first round that is cancelled, fails to receive, or holds a message that does not decode, handle or delete, and with that reason; otherwise it is still running |
| ReceiveLoop.HandledAreDeleted | internal/queue/sqs.go:109-145 | over a whole run the events handled are those of the messages deleted, plus one exactly if a delete failed |
| ReceiveLoop.ProcessedIsDeletedPlusAtMostOne | cmd/worker/main.go:43-51 | `processed` is the number of OrderCreated messages deleted, plus at most one |
| Pipeline.StepKeepsInv | internal/queue/sqs.go:92-145 | every step keeps: a message out of the queue was handled, a worker's batch and counters are consistent, an acknowledged order has its message |
| Pipeline.RunKeepsInv | internal/queue/sqs.go:92-145 | so does every run |
| Pipeline.SqsLosesNoEvent | internal/graph/schema.resolvers.go:29-46 | with SQS, in every reachable state each order whose creation was reported has its event in the queue or handled |
| Pipeline.NoEventLostExactlyWithSqs | internal/queue/noop.go:9-17 | this holds of every run if and only if the publisher is SQS |
| Pipeline.OthersLoseEveryEvent | internal/queue/noop.go:9-17 | without SQS and without other senders no event is ever queued or handled, for any order |
| Pipeline.UnhandledMessagesStay | internal/queue/sqs.go:125-142 | only messages whose event was handled leave the queue; one without a body or undecodable never does |
| Pipeline.WorkersCountWhatTheyDelete | cmd/worker/main.go:43-51 | under redelivery and failures each worker's counter is its acknowledged OrderCreated deletes, plus at most one |
| Pipeline.HandledEventsNameOrders | internal/graph/schema.resolvers.go:29-44 | fed by createOrder alone, every event handled was sent by an earlier step for an order whose insert had committed before that step |
| Pipeline.OrdersWithoutEvent | internal/graph/schema.resolvers.go:38-46 | the orders with no event ever sent are exactly those whose call is pending, got no answer to its insert, was refused by the queue, or crashed after the insert |
| Pipeline.OneMessagePerOrder | internal/queue/sqs.go:92-103 | no two messages carry the event of the same order |
| Pipeline.AnnouncedOrderIsCounted | cmd/worker/main.go:43-51 | a worker that handles and acknowledges the message of an order raises its counter by one and removes the message |
| Pipeline.ReceivedIsHidden | internal/queue/sqs.go:117-121 | at most ten messages are received at a time, and no worker receives one of them again until it reappears |
| Pipeline.DeleteAnswers | internal/queue/sqs.go:136-142 | a worker goes on exactly if it is told its delete succeeded, whether or not the message is gone |
| Pipeline.ForeignIsReceivable | internal/queue/sqs.go:117-121 | a message of another sender waits in the queue with its text until a worker receives it |
| Pipeline.NobodyIsStuck | internal/queue/sqs.go:109-145 | in every state the invariant allows, clients can publish or crash and every worker can take its next step, whatever the queue answers |
| WorkerRefinement.BatchIsReceiveLoop | internal/queue/sqs.go:125-143 | a batch taken through the step system ends at the receive loop's stopping index, with its events handled and counted and its messages deleted |
| WorkerRefinement.LoopIsReceiveLoop | internal/queue/sqs.go:109-145 | over all rounds of a run, with redelivery between them, the worker in the step system handles, counts and deletes what the receive loop does and stops when it stops |
| Events.CreatedEventNamesOneOrder | internal/queue/event.go:13-17 | the event of an order names no other order |
| Events.CreatedEventSays | internal/queue/sqs.go:94 | the event has the type the worker looks for and, as order id, a text that reads back to the id |
| Uuids.ReadForms | internal/graph/mappers.go:95-101 | a text reads as an id if and only if it is, in either letter case, the text written for that id: alone, after `urn:uuid:`, between two characters, or without its dashes |
| Uuids.FormatRoundTrips | internal/graph/mappers.go:19-27 | the text produced for an order parses back to the same 16 bytes |
| Uuids.FormatIsInjective | internal/graph/mappers.go:19-27 | different ids have different texts |
| Amounts.ToDoubleIsNearest | internal/graph/mappers.go:40-42 | no double is closer to the stored amount than the one computed, which is less than half a cent off |
| Amounts.NearestDoublePrintsExactly | internal/graph/mappers.go:41-43 | any correctly rounded double of a stored amount, however ties are broken, prints as that amount |
| Amounts.AmountTextIsExact | internal/graph/mappers.go:40-46 | the printed totalAmount is the stored number of cents |
| Amounts.ScanReadsCentsText | internal/graph/mappers.go:110-119 | the two-decimal text of any number of cents, of either sign, scans as that number |
| Amounts.CentsTextShape | internal/graph/mappers.go:43 | the printed amount has a minus sign exactly if negative, no leading zero, and two digits after the dot |
| Amounts.ScanReads | internal/graph/mappers.go:110-119 | a text is scanned if and only if it is an optional sign and digits with at most one dot, and as the decimal it stands for |
| Amounts.ColumnRounds | db/migrations/000001_create_orders_table.up.sql:16 | a decimal is stored as its rounding to the nearest cent, halves away from zero, if that has at most ten digits before the dot, and is refused otherwise |
| Amounts.AmountRoundTrips | internal/graph/mappers.go:110-119 | the amount text of any stored order, submitted again, is stored as the same number of cents |
| Amounts.AmountTextIsInjective | internal/graph/mappers.go:40-46 | different stored amounts are never printed alike |
| Mappers.StatusNameRoundTrips | internal/graph/mappers.go:57-93 | a status comes back from its GraphQL name if and only if it is known, so the fallback to pending hides no known status |
| Mappers.StatusNames | internal/graph/mappers.go:57-93 | the GraphQL name of a status is its text in upper case, and no other text names a status |
| Mappers.MappingShowsRow | internal/graph/mappers.go:15-48 | an order is mapped if and only if its status is known, and to what shows each column of its row under its own name |
| Mappers.MappingErrors | internal/graph/mappers.go:16-24 | a missing id and an unknown status have each their own error |
| Mappers.MissingTimesAreZero | internal/graph/mappers.go:50-55 | a missing time is shown as the zero time |
| Mappers.MappingSucceedsExactly | internal/graph/mappers.go:15-48 | an order maps if and only if it has an id and a known status, and the result names that id and status |
| Mappers.MappingLosesNothing | internal/graph/mappers.go:15-48 | two rows that look the same through the API are the same |
| Dataloader.LookupShowsRow | internal/graph/schema.resolvers.go:98-110 | the lookup answers with an order exactly for a text of the id of a row with a known status, and shows that row |
| Dataloader.ParseAll | internal/graph/dataloader.go:30-40 | the ids that parse with their positions, and an error at every other position |
| Dataloader.FailAll | internal/graph/dataloader.go:43-49 | a failed query puts its error at exactly the positions that parsed |
| Dataloader.IndexRows | internal/graph/dataloader.go:51-55 | the rows by id, for rows in any order |
| Dataloader.AlignOne | internal/graph/dataloader.go:58-69 | one position gets the lookup's answer, all others keep theirs |
| Dataloader.AlignAll | internal/graph/dataloader.go:57-70 | every position that parsed gets the lookup's answer, duplicates included |
| Dataloader.Load | internal/graph/dataloader.go:25-71 | at every position the order, nothing or error that the single lookup gives for that id alone, from one query, or none if no id parses |
| Resolvers.EventQueue.PublishOrderCreated | internal/queue/sqs.go:92-103 | what is enqueued and what is reported, for an SQS and for a no-op publisher |
| Resolvers.Resolver.CreateOrder | internal/graph/schema.resolvers.go:20-47 | the table, the events enqueued and the answer of every call, with the error that each failure returns |
| Creation.OptionalAmountReads | internal/graph/mappers.go:110-119 | no text and empty text give no amount; any other text gives the decimal it stands for, or the error if it stands for none |
| Creation.InsertStoresInput | internal/graph/schema.resolvers.go:29-34 | under a new id a pending row with the texts submitted and the amount rounded to cents; refused if the id is taken or the amount does not fit |
| Creation.CreationStoresInput | internal/graph/schema.resolvers.go:25-46 | the row stored, the event enqueued and the answer, for every fate of the send |
| Creation.CreationStoresCents | internal/graph/schema.resolvers.go:25-34 | an amount submitted as the API prints it is stored as that number of cents |
| Creation.CreationErrors | internal/graph/schema.resolvers.go:25-37 | which error is answered, with nothing inserted or the insert's answer lost |
| Creation.LostInsert | internal/graph/schema.resolvers.go:29-37 | a committed insert whose answer is lost leaves the row, sends nothing and is answered with an error |
| Creation.CreationSucceedsExactly | internal/graph/schema.resolvers.go:25-46 | success if and only if the row is inserted, that is answered, and the publisher reports no failure |
| Creation.CreationIsAnswered | internal/graph/schema.resolvers.go:25-46 | a success means one new pending row as submitted, shown column by column, and its event enqueued |
| Creation.CreationIsContained | internal/graph/schema.resolvers.go:29-44 | whatever fails, no other order is touched and no event is sent without its committed row |
| Creation.ErrorsThoughCreated | internal/graph/schema.resolvers.go:35-44 | exactly when an error is returned for an order that now exists, and for one whose event was enqueued |
| Creation.ErrorCanFollowEvent | internal/graph/schema.resolvers.go:42-43 | a call that returns an error although row and event are there |
| Creation.PipelineCall | internal/graph/schema.resolvers.go:29-46 | what the pipeline's steps of one call make of the call and of the queue |
| Creation.PipelineIsCreate | internal/graph/schema.resolvers.go:29-46 | those steps succeed exactly if `createOrder` answers with the order, and send exactly what it sends |
| Resolvers.Resolver.UpdateOrderStatus | internal/graph/schema.resolvers.go:49-88 | run alone, the table and answer of the atomic update that concurrent runs are proved equal to |
| Resolvers.Resolver.WriteStatus | internal/graph/schema.resolvers.go:76-87 | the compare-and-set and its answer on whatever other clients have made of the table since the read |
| Updates.AskedIsUpdated | internal/graph/schema.resolvers.go:49-88 | an allowed move of an existing order is made, changes nothing but status and `updated_at` of that order, and is answered with the row written |
| Updates.UpdatedWasAsked | internal/graph/schema.resolvers.go:62-87 | whatever fails, the table is left alone or moved as an allowed request asked |
| Updates.UpdateSucceedsExactly | internal/graph/schema.resolvers.go:49-88 | an order is answered if and only if both statements are answered and the request asks for an allowed move of an existing order |
| Updates.UpdateErrors | internal/graph/schema.resolvers.go:54-75 | the error for a malformed id, an unknown status name, a lost read, an unknown order, an unknown stored status and a move that is not allowed |
| Updates.CommitIsAnswered | internal/graph/schema.resolvers.go:76-87 | in any concurrent run, the answer is the concurrent-change error if and only if another client overtook this one, and otherwise shows the row it wrote |
| Resolvers.Resolver.Order | internal/graph/schema.resolvers.go:98-110 | the single lookup; an unknown id is an empty answer and not an error |
| Resolvers.Resolver.Orders | internal/graph/schema.resolvers.go:113-147 | each matching order in listing order, as it maps; fails exactly when some matching order does not map, with the error of the first |
| Filters.FilterSelectsWanted | internal/graph/schema.resolvers.go:118-133 | a filter is refused exactly if its status names none; otherwise exactly the rows with that status created from and to the given times are selected |
| Filters.ListingIsShown | internal/graph/schema.resolvers.go:134-146 | the answer shows every row the filter asks for, once, newest first, and no others |
| Listings.ListingIsSumOfStatuses | internal/store/db/orders.sql.go:107-114 | in every reachable state the listing without a status filter is, as a multiset, the sum of the six listings by status |
| Listings.ReachableOrdersMap | internal/graph/schema.resolvers.go:138-145 | every reachable order maps, under its own status name |
| Listings.ReachableListingsMap | internal/graph/schema.resolvers.go:138-145 | in every reachable state, with any filter, every listed order maps, so no listing is cut short |
| Listings.ShownIdFindsItsOrder | internal/graph/schema.resolvers.go:90-111 | the id shown for an order looks up that order, shown the same way |

## Left out

- Amounts.ToDoubleIsNearest: finite amounts only; NUMERIC also has NaN, and the scanner also reads "NaN" and "Infinity".
- ReceiveLoop.Worker.Loop: the endless loop is driven by a finite list of rounds and is still running when the list ends.
- Pipeline.StepKeepsInv: its workers run the shipped handler, which never fails; failing handlers are in `ReceiveLoop` only.
- RateLimiting.RateLimiter.Cleanup: one pass; the endless loop and its one-minute sleep become passes at arbitrary moments.
- StatusProtocol.StepKeepsInv: row locks are not modelled, only the moment a statement commits.
- Liveness: nothing says that a message is ever received or a client ever answered.
- JSON encoding of events: a message text either decodes to an event or does not.
- The timing and per-request caching of the dataloader library, and how the token-bucket library keeps its tokens (a specification stands in for it).
- Locks and goroutine scheduling inside the process: each locked section is one step.
- Timestamps are integers; the limiter's times are reals, without rounding.
- The queue's internals: visibility timeouts are arbitrary reappearance, and retention and dead-letter queues are not part of this model.
- HTTP serving, metrics, logging, signals, configuration and infrastructure files have no such properties.
