# Verified model of the drone delivery service

The service keeps two tables, orders and drones, and an outbox of events. Ten operations, each one database
transaction, move orders from submission to delivery, failure or withdrawal; a drone and the order it holds
point at each other, and no single function checks that they do. Outbox workers publish the events to a
broker. This project models the operations, the row locks under which they run concurrently, the outbox
workers, the distance and arrival-time arithmetic and the Thrift request readers, and proves what holds after
every run.

## How it is built

- `Domain`, `Events`, `Faults`: records, statuses, errors, event payloads, failing calls.
- `Dispatch`: the protocol. `Decide` is the rule of each operation over the order row and the drone row it
  reads; `Step` is an operation as one atomic step; `Exec` is a run.
- `Postgres`, `Service`: the store, its transactions and the ten operations statement by statement, each
  proved to be one `Step`, whichever statement the database fails, but for the reads a heartbeat makes after
  its commit.
- `Effects`, `History`: the same protocol by fields and errors instead of by commands, proved to be the
  decisions and nothing else; the stored rows as the story of the commands that succeeded.
- `Pairing`, `Safety`, `EventLog`, `Conservation`, `Lifecycle`, `Fairness`: what every run keeps.
- `RowLocks`, `Deadlock`: any number of interleaved transactions with exclusive row locks, `SKIP LOCKED` and
  aborts; serialisability, and exactly which commands can deadlock.
- `Outbox`, `OutboxRuns`: the repository, the publisher and the worker; then any number of workers with
  failures and crashes, of whose moves every round of the worker is a run.
- `Eta`: the haversine formula over exact reals and the arrival time.
- `Thrift`, `Requests`, `Processor`: the protocol as tokens, the readers, the generated writers.

Conventions. An operation reads the clock at most twice, so a command comes with a pair of readings.
`Reserve` carries the row its query returned; a legal choice is any available row or none, which covers rows
skipped because they are locked, and a first-come-first-served choice is an oldest available row, ties broken
arbitrarily. Errors from below the service, duplicate keys included, are the error `Database`. A transaction
sees its own writes and publishes them at commit. The operations require that rows are stored under their own
ids, the tables' primary keys, and keep it so. A row of the outbox is identified by its position, in place
of a fresh UUID. The Thrift readers share one shape (an argument struct whose field 1 is the request struct)
and differ only in the field-id switch, so they are one program over a table of that switch. Skipping is the
Thrift library's own, with its default nesting limit of 64.

## Where code and documentation differ

- `docs_api.md` allows withdrawal only before pick-up. The code also withdraws an order that was picked up,
  handed off and reserved again (`Safety.WithdrawAfterPickupHappens`); `Safety.WithdrawAfterPickup` says
  exactly when a withdrawal that succeeds is of a never picked-up order.
- `docs_api.md` sets the hand-off origin to the drone's last known position. The code leaves the previous
  origin when no position is known; `Safety.HandoffOriginIsLastLocation` gives the exact condition, and
  `Safety.StaleHandoffOriginHappens` reaches an order that shows a place its last drone never was at.
- `service.go` takes a RESERVED order for one that has not been picked up, and on a breakdown requeues it at its
  origin. After a hand-off it lies elsewhere: `Safety.RequeueKeepsPlace` says exactly when the place shown
  survives the requeue, and `Safety.RequeueAfterPickupHappens` reaches an order that forgets where it is.
- That an error answer means nothing changed is false of a heartbeat: it reads the drone's order after its
  commit, and a failure there is answered although the position is stored. `Service.Service.DroneHeartbeat`
  says exactly when, and `Service.HeartbeatFailsLate` is such a call.
- Deadlock freedom is false: marking a drone broken locks the drone before its order, withdrawal and completion
  the order before its drone. `Deadlock.DeadlockIffClash` says which two commands can deadlock from the
  committed tables alone, `Deadlock.DeadlockHappens` that every held order is open to it, and
  `Deadlock.CyclesClash` that among any number of transactions there is no other kind.

## Model

| member | source | states |
|---|---|---|
| Service.Service.SubmitOrder | internal/service/service.go:52-85 | is one atomic submission with the same answer; on a database failure at any statement nothing changes |
| Service.Service.WithdrawOrder | internal/service/service.go:87-129 | is one atomic withdrawal, freeing the drone of a reserved order |
| Service.Service.AdminUpdateOrder | internal/service/service.go:161-198 | is one atomic update of a non-terminal order's places |
| Service.Service.DroneReserveJob | internal/service/service.go:200-244 | is one atomic reservation of an oldest available order; a drone inserted on the way is undone by every refusal |
| Service.Service.DronePickup | internal/service/service.go:246-257 | is one atomic pick-up by the assigned drone |
| Service.Service.CompleteOrderForDrone | internal/service/service.go:461-512 | is one atomic delivery or failure that also frees the drone |
| Service.Service.DroneDeliver | internal/service/service.go:259-261 | is one atomic delivery |
| Service.Service.DroneFail | internal/service/service.go:263-268 | is one atomic failure; an empty reason is refused before anything is read |
| Service.Service.ReleaseOrder | internal/service/service.go:283-324 | hands off a picked-up order, requeues a reserved one, and otherwise only lets go of it |
| Service.Service.DroneMarkBroken | internal/service/service.go:270-336 | is one atomic breakdown |
| Service.Service.DroneMarkFixed | internal/service/service.go:338-362 | is one atomic repair |
| Service.Service.DroneHeartbeat | internal/service/service.go:364-403 | is one atomic heartbeat (position and time, no event) answered with the view of the current order, or, only if the drone holds an order and a read after the commit fails, the recorded heartbeat answered with an error; with those reads down it is always the latter |
| Service.Service.RecordHeartbeat | internal/service/service.go:368-387 | its transaction is one atomic heartbeat |
| Service.Service.BuildOrderView | internal/service/service.go:514-526 | an order with its place and arrival time by the row of the drone it names, or an error only if that read fails |
| Service.HeartbeatShowsPosition | internal/service/service.go:389-402 | a heartbeat's view is of the order the drone holds, and once that is picked up it is at the position just sent |
| Service.HeartbeatFailsLate | internal/service/service.go:391-394 | a call that answers an error and stores the position |
| Service.Service.AssignJob | internal/service/service.go:225-239 | reserves the job, points the drone at it and announces both, or fails with the database |
| Service.ReleaseIsBreakdown | internal/service/service.go:283-331 | releasing the order and then writing and announcing the drone is the atomic breakdown |
| Service.Service.GetOrCreateDrone | internal/service/service.go:528-545 | returns the stored row or a new active one, which is then in the transaction's table |
| Service.KeysKept | migrations/001_init.sql:1-30 | after any operation every row is still stored under its own primary key |
| Postgres.Tx.ReserveNextOrder | internal/repo/postgres/store.go:210-235 | returns an oldest unassigned order in an allowed status, and none only if there is none |
| Postgres.Tx.GetOrderForUpdate | internal/repo/postgres/store.go:128-131 | returns the row, or not found exactly when it is absent |
| Postgres.Tx.UpdateOrder | internal/repo/postgres/store.go:175-195 | replaces the row but for its creation time; updating an absent row changes nothing |
| Postgres.Tx.CreateDrone | internal/repo/postgres/store.go:138-150 | inserts under a free key, and fails without a change on a taken one |
| Postgres.Tx.Commit | internal/repo/postgres/store.go:120-122 | publishes exactly the transaction's versions, or nothing |
| Effects.Answers | internal/service/service.go:52-512 | for all ten commands, each of the seven errors is answered iff its condition on the rows holds (owner, assignee, status, range, empty reason, broken or busy drone, no job, taken id), and then nothing changes |
| Effects.Succeeds | internal/service/service.go:65-505 | a command that succeeds writes every field of its order and its drone as stated field by field, no other row, exactly the stated events with kind, payload and time, and answers with the row stored |
| Effects.OnlyEffect | internal/service/service.go:65-505 | tables, outbox and answer that satisfy that statement are unique |
| Effects.StepIsEffect | internal/service/service.go:52-512 | so errors and fields together hold of a result iff it is the operation's |
| History.StoryRun | internal/service/service.go:52-512 | after every run: owner, creation, places, pick-up, delivery and failure with its reason of every order, and status, position, heartbeat and order of every drone, are those last set by a command that succeeded |
| History.HistoryHolds | internal/service/service.go:66-74 | from empty tables: an order is stored iff its submission succeeded, with the owner and places submitted until an administrator changes the places |
| History.FixedFields | internal/repo/postgres/sql.go:35-53 | owner and creation time never change, and the places only by an administrator's update of that order |
| History.EventsInTime | internal/events/events.go:51-72 | every event carries a time its own operation read |
| History.SortedRun | internal/service/service.go:78-78 | with a clock that never runs backwards the outbox is in order of occurrence after every run |
| Pairing.CoherentWriteKeepsInv | internal/service/service.go:104-117 | a write that only sets or clears the two pointers against each other keeps the pairing of all rows |
| Pairing.DecisionsAreCoherent | internal/service/service.go:200-336 | every operation's write is of that kind |
| Pairing.InvStep | internal/service/service.go:52-403 | every operation keeps the pairing, assignment by status and idle broken drones |
| Pairing.InvRun | internal/service/service.go:52-545 | so does every run |
| Pairing.HeldOrder | internal/service/service.go:283-287 | the order a drone points at exists, is active and names that drone |
| Safety.AssignmentPairing | internal/service/service.go:214-236 | in every reachable state a drone points at an order iff the order is RESERVED or PICKED_UP and names it; no order has two drones; busy drones and active orders are equally many |
| Safety.BrokenDroneIsInert | internal/service/service.go:443-448 | from breaking until repair a drone holds nothing and every reserve, pick-up, deliver and fail by it is refused |
| Safety.BreaksDown | internal/service/service.go:281-331 | a breakdown leaves the drone BROKEN and idle with its position, heartbeat and creation, answers that row, announces it last, and changes no other drone |
| Safety.IsRepaired | internal/service/service.go:349-357 | a repair leaves the drone ACTIVE and otherwise as it was, announces just that, and changes nothing else |
| Safety.BrokenUntilRepaired | internal/service/service.go:208-210 | after any breakdown every order command of the drone is refused until it is repaired |
| Safety.RepairedDroneServes | internal/service/service.go:349-357 | a repaired idle drone gets an oldest order from the next reservation if any is available |
| Safety.PickupOnlyFromReserved | internal/service/service.go:246-257 | pick-up succeeds only from RESERVED and by the drone that holds the order |
| Safety.BreakdownAlwaysSucceeds | internal/service/service.go:283-324 | marking broken always succeeds, finds the order, and never reaches its default case |
| Safety.SecondRowIsFound | internal/service/service.go:492-495 | the drone row of a withdrawal or completion is always found |
| Safety.ReserveIsComplete | internal/repo/postgres/sql.go:55-65 | an idle working drone is told NoJob iff no order is CREATED or HANDOFF_REQUESTED, and otherwise gets an oldest such order |
| Safety.WithdrawAfterPickup | docs_api.md:49-55 | a withdrawal that succeeds is of a never picked-up order iff the row has no pick-up time, iff the log has no hand-off of it |
| Safety.WithdrawAfterPickupHappens | internal/service/service.go:101-103 | a reachable state with an order withdrawn after it was picked up |
| Safety.HandoffOriginIsLastLocation | internal/service/service.go:292-299 | the hand-off origin becomes the drone's last position iff that is known or there is no older origin |
| Safety.StaleHandoffOriginHappens | docs_api.md:106-106 | a reachable PICKED_UP order whose drone has no position, and which after the breakdown shows the place an earlier drone broke down at |
| Safety.ShownAtOrigin | internal/service/eta.go:20-33 | until the log has a pick-up of it, an order that is not withdrawn is shown at its origin |
| Safety.PlaceThroughHandoff | internal/service/eta.go:25-43 | a handed-off order is shown where its drone broke down, also once reserved again, until the next drone picks it up, and then where that one is |
| Safety.RequeueKeepsPlace | internal/service/service.go:288-312 | a breakdown before pick-up leaves the place shown as it was iff there is no hand-off origin or it is the origin |
| Safety.RequeueAfterPickupHappens | internal/service/service.go:305-312 | a reachable order, handed off elsewhere, that is again shown at its origin |
| EventLog.DecisionsAnnounce | internal/events/events.go:51-72 | an operation announces the order row it writes and every status it gives a drone, and nothing else |
| EventLog.LogCompleteRun | internal/events/events.go:51-72 | every run keeps the log complete |
| EventLog.LogIsComplete | internal/service/service.go:78-78 | in every reachable state folding the order events gives owner, status and drone of exactly the stored orders, and folding the drone events every drone's status, ACTIVE by default |
| Conservation.RowBalance | internal/service/service.go:217-237 | the row and the event an operation writes keep the event counts in balance |
| Conservation.BalancedRun | internal/service/service.go:247-319 | after every run, per order: reservations minus hand-offs minus requeues, and pick-ups minus hand-offs, are fixed by the status |
| Conservation.EventBound | internal/service/service.go:475-505 | with R releases an order has at most 3R + 4 events besides administrator updates, and exactly one terminal event once terminal |
| Conservation.TerminalFrozen | internal/domain/domain.go:62-69 | no step of any run changes a terminal order or appends an event about it |
| Lifecycle.WrittenRowsOk | internal/service/service.go:224-254 | the rows an operation writes obey the time-stamp, outcome and position laws if the rows it read did |
| Lifecycle.RowsOkRun | internal/service/service.go:291-312 | every run with a nondecreasing clock keeps those laws for all rows |
| Lifecycle.LifecycleHolds | internal/domain/validate.go:5-13 | from empty tables: creation <= reservation <= pick-up <= outcome, outcome fields set iff the status says so, every stored position in range |
| Fairness.AheadStep | internal/repo/postgres/sql.go:55-65 | a reservation takes exactly one order from ahead of a waiting one; only releases and earlier-stamped submissions add one |
| Fairness.BoundedBypass | internal/repo/postgres/sql.go:55-65 | while an order waits, reservations are at most the orders ahead of it plus releases of orders not younger plus submissions stamped not later |
| Fairness.NothingSubmittedAhead | internal/service/service.go:65-74 | with a clock past the order's creation that last number is zero |
| Fairness.BypassUnderClock | internal/repo/postgres/store.go:210-235 | so reservations bypassing a waiting order are at most the orders ahead of it plus releases of orders not younger |
| Fairness.NeverStuck | internal/service/service.go:200-261 | from every state that keeps the invariant, every non-terminal order has a first-come-first-served continuation that delivers it |
| RowLocks.CopiesDecide | internal/repo/postgres/sql.go:11-11 | a transaction with nothing left to wait for decides from its locked copies what its command decides from the committed tables |
| RowLocks.OthersStayCurrent | internal/repo/postgres/sql.go:73-73 | a commit leaves every other transaction's locked copies equal to the committed rows |
| RowLocks.MoveKeeps | internal/service/service.go:528-545 | every lock, insert, select, write, commit and abort keeps exclusive locks, current copies and the pairing |
| RowLocks.MoveRefines | internal/service/service.go:432-545 | every move is one atomic operation with the same tables and answer, or changes no committed table |
| RowLocks.Serialisable | internal/repo/postgres/store.go:25-31 | every interleaved run has the committed tables, outbox and answers of the atomic run of its commands in the order they took effect |
| RowLocks.CommittedIsReachable | internal/service/service.go:200-244 | so every committed state is reachable by atomic operations |
| RowLocks.JobsAreExclusive | internal/service/service_test.go:214-260 | reservations running at the same time never hold the same order or serve the same drone |
| Deadlock.StuckEmbrace | internal/service/service.go:277-284 | two transactions that hold a row and wait, one for the other, are a breakdown of d and a withdrawal or completion of d's order |
| Deadlock.CyclesAreEmbraces | internal/service/service.go:94-105 | every wait-for cycle has length two and is such a pair |
| Deadlock.EmbracesAreCycles | internal/service/service.go:468-492 | every such pair is a cycle |
| Deadlock.NoCycleWithoutBreakdown | internal/repo/postgres/sql.go:64-64 | every cycle contains a breakdown and no reservation |
| Deadlock.NoDeadlockWithoutBreakdowns | internal/service/service.go:207-217 | a run in which no drone is marked broken never deadlocks |
| Deadlock.NoJobMeansHeld | internal/repo/postgres/sql.go:55-65 | a drone told there is no job knows that other running transactions hold every available order |
| Deadlock.SomeoneMoves | internal/service/service.go:270-336 | unless such a pair exists, some running transaction can take its next step, a reservation one that takes an oldest free order or finds all held |
| Deadlock.CyclesClash | internal/service/service.go:94-105 | however many transactions run, every cycle is a breakdown of a drone holding an order and its owner's withdrawal of that order, RESERVED, or its completion by that drone, PICKED_UP |
| Deadlock.DeadlockIffClash | internal/service/service.go:461-492 | from idle, two commands can be scheduled into a deadlock iff they are such a pair in the committed tables |
| Deadlock.DeadlockHappens | internal/service/service.go:270-287 | every RESERVED order can be deadlocked by its owner's withdrawal, every PICKED_UP one by its delivery |
| Outbox.Repository.FetchPending | internal/repo/postgres/outbox.go:10-32 | returns the oldest pending rows up to the limit (50 if not positive) in order of occurrence, and all if there are fewer |
| Outbox.Repository.MarkPublished | internal/repo/postgres/outbox.go:34-40 | marks exactly the given rows, or none |
| Outbox.Worker.PublishAll | internal/events/outbox.go:54-61 | what the broker got is a subsequence of the batch, what it acknowledged a subsequence of that; a reliable broker gets all |
| Outbox.Worker.Tick | internal/events/outbox.go:45-65 | publishes a batch in order, each row at most once, and marks the acknowledged rows; a successful mark takes exactly them out of the pending ones |
| Outbox.SubsequenceFacts | internal/events/outbox.go:53-61 | so no row of a batch is published or marked twice in a round |
| Outbox.MarkDrains | internal/repo/postgres/sql.go:114-118 | marking distinct pending rows removes exactly them from the pending ones |
| OutboxRuns.AtLeastOnce | internal/events/outbox.go:41-66 | for any workers, interleaving and failures no row disappears, every published row reached the broker, and a row that has not is still pending |
| OutboxRuns.NoCommittedEventLost | cmd/server/main.go:109-118 | with commands and workers interleaved, every committed event is in the table and has reached the broker or is pending |
| OutboxRuns.BatchFollowsCommits | internal/repo/postgres/sql.go:106-112 | with such a clock a worker takes events in the order they were committed, up to events of the same instant |
| OutboxRuns.TwiceHappens | cmd/worker/main.go:51-59 | two workers can deliver the same row |
| OutboxRuns.BatchLength | internal/repo/postgres/sql.go:106-112 | a batch has min(limit, pending) rows |
| OutboxRuns.TickIsRun | internal/events/outbox.go:45-64 | whatever a round of the worker does is a run of moves, so it is covered by the two results above |
| OutboxRuns.DrainNext | internal/events/outbox.go:53-64 | one more undisturbed round delivers each row of its batch once and leaves min(limit, pending) fewer |
| OutboxRuns.Poll | internal/events/outbox.go:37-66 | after k ticks no row is pending again and every row no longer pending was delivered; with nothing failing, max(0, n - k * limit) of n pending rows are left and the broker got each of the others exactly once |
| Eta.HavIsChord | internal/service/eta.go:85-97 | the quantity under the root is a quarter of the squared chord between the places on the unit sphere |
| Eta.HavBounds | internal/service/eta.go:95-95 | it is symmetric, in [0, 1], and zero iff the places coincide |
| Eta.DistanceBounds | internal/service/eta.go:96-96 | distances are symmetric, in [0, pi * R], and zero iff the places coincide |
| Eta.DistanceIsArc | internal/service/eta.go:85-101 | the distance is 6371000 times an angle in [0, pi] whose cosine is that of the spherical law of cosines for the places in degrees |
| Eta.ViewAgrees | internal/service/service.go:523-525 | what is shown of an order has an arrival time iff the speed is positive and a place is shown, and it is measured from that place |
| Eta.EtaFollowsLocation | internal/service/eta.go:20-83 | for positive speed an arrival time exists iff a location does, is measured from it, and is in [0, floor(pi * R / speed)] |
| Thrift.SkipEncoded | internal/transport/thriftapi/processor.go:901-903 | skipping consumes exactly one well-typed value, or fails iff it is nested deeper than the limit |
| Requests.ReadsMessage | internal/transport/thriftapi/processor.go:977-1037 | every message of readable arguments is read as what its fields mean, the last of repeated fields winning |
| Requests.RoundTrip | internal/transport/thriftapi/processor.go:1043-1175 | a generated request with unknown fields the reader can skip inserted at any position of any level is read back as the same values, consuming exactly the message |
| Processor.ReadLocation | internal/transport/thriftapi/processor.go:1312-1344 | the location loop reads what its specification reads and leaves the rest, or fails when it does |
| Processor.ReadRequestFields | internal/transport/thriftapi/processor.go:874-899 | the request loop likewise |
| Processor.ReadRequestMessage | internal/transport/thriftapi/processor.go:855-916 | the argument loop likewise, up to the end of the message |
| Processor.WriteLocation | tmp_thrift_gen/thriftapi/drone_delivery.go:124-165 | emits the encoding of the two coordinates, an empty struct for a nil location |
| Processor.WriteRequest | tmp_thrift_gen/thriftapi/drone_delivery.go:2811-2866 | emits the encoding of the request's fields, an empty struct for a nil request |
| Processor.WriteArguments | tmp_thrift_gen/thriftapi/drone_delivery.go:4104-4131 | emits the encoding of the argument struct |
| Processor.GeneratedRoundTrip | tmp_thrift_gen/thriftapi/drone_delivery.go:3003-3044 | what the generated client writes for the token, auth, order-id, fail and heartbeat calls, the server reads back, with zero values for nil pointers |

## Left out

- HTTP, gRPC and Thrift handlers, routing, error mapping, the JSON codec and the response mapper: field-by-field plumbing.
- Thrift reply writers and the submit, list and update readers: they leave out field stops or do not unwrap the request argument, so a round trip with the generated code is not a property they have.
- Token issue and parsing, role checks: they rest on a library outside the repository; user and drone ids are inputs.
- Listing orders and drones, getting an order and a drone's current order: reads that would only add easy members.
- Service.Service.DroneHeartbeat: nothing runs between its commit and its reads in the model, so that the view is of the tables just committed; beside other transactions it may be of later ones.
- Postgres itself: row locks, key locks, commit and rollback are the step rules of `RowLocks`; a commit whose acknowledgement is lost is not modelled, so a failed commit means nothing was committed.
- RowLocks.Serialisable: the reservation query may return any available row nobody has locked, or none, since it does not look at all rows at one instant; this admits more runs than Postgres has. Progress (`Deadlock.SomeoneMoves`) is stated for a query that does, and first-come-first-served for atomic runs only.
- Eta.EtaFollowsLocation: floating-point rounding, NaN and integer overflow of the conversion are not modelled; the trigonometric functions are parameters that obey their usual laws.
- JSON bytes of event payloads, the event's UUID, migrations, configuration and the main programs.
