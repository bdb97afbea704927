# AMQP broker core: verification model

This project models the parts of `amqp-broker-core` (a Go AMQP 1.0 broker) where correctness is hard
to see from one function at a time, and proves what the broker promises about them.  `dafny verify
dfyconfig.toml` checks the whole project.

Every operation is modelled twice: as values (functions and relations on states, byte strings and
lists) and in the form the broker runs it (classes with fields, loops, cursors).  The running form is
proved against the values; the theorems are proved about the values.  For the broker the link is
closed for whole runs: `Calls.Does` says what each service call does to a state, in terms of what its
code does and without presupposing any invariant; `Calls.Drive` serves any sequence of calls on an
empty broker with the running services and shows that the states in between are such a history; the
theorems of `BrokerRuns` hold of every history.

| component | files | main results |
|---|---|---|
| Shard leases | `Leases`, `LeaseRuns` | mutual exclusion and fencing over every run of any number of nodes |
| Transactions over the message store | `Broker`, `Queues`, `Store`, `Delivery`, `Transactions`, `Consumers`, `Restart`, `Administration`, `Calls`, `BrokerRuns`, `Lifecycles`, `Counterexamples` | all-or-nothing, isolation of staged messages, finality and durable bodies over every run of service calls, including restarts, crashes and trimming; how full addresses get |
| AMQP codec, frames, streams | `Bytes`, `Values`, `ValueLaws`, `Forms`, `Encoder`, `Decoder`, `Performatives`, `Frames`, `Streams` | round trip, locality, minimality of the value codec, and a grammar it decodes exactly; performatives and whole frame streams come back |
| Body log | `LogFormat`, `BodyLogs` | the indexed file log refines the in-memory log; compaction |
| Routing | `Matcher`, `Addresses`, `Router` | the backtracking matcher means what patterns say; routes are unique, best and independent of map order |

Shared helpers: `Wrappers` (optional values, results), `Ranging` (iteration over a Go map in an
unknown order), `Sorting` (Go's stable sort).

How the parts are abstracted:

- A service call is one atomic step.  Each call takes the time as a parameter; lease calls read a
  clock that may advance between any two readings and never runs backwards.
- Message and transaction ids are natural numbers from one counter, which stands for the random ids
  of the program: an id is never handed out twice.  An empty transaction id is `None`.
- In the broker state the body log is the list of appended bodies; that the file log acts like such
  a list is the refinement proved in `BodyLogs`.  An append may fail at any time.
- Go maps are ranged over in an arbitrary order; nothing proved depends on it.
- 32-bit lengths and the 64-bit epoch counter wrap around as they do in Go, and the exact limits up
  to which the laws hold are part of the theorems.

Where a promise does not hold of the code for every input, the model keeps the code and states the
exact condition:

- A value comes back from its encoding exactly when its outermost length fits 32 bits
  (`RoundTripExactlyWhenFits`); a marshalled frame parses back exactly when its kind is known, its
  data offset is not 1 and its length fits (`FrameRoundTripExactlyWhen`).
- A performative whose required fields are null is encoded but refused by the decoder
  (`PerformativeReturnsExactlyWhen`).
- A log can be reopened exactly when every whole record is within 64 MiB, while appending bounds
  only the body (`ReopenExactlyWhenWithinLimit`, with `LargestBodyCannotBeReopened` as the example);
  a body comes back exactly when its id is one line under 64 KiB that does not end in CR
  (`BodyExactlyWhenReadable`).
- Compaction of the file log renumbers offsets; old offsets stay good exactly when the live records
  are the oldest ones without a gap (`OffsetsSurviveExactlyWhen`).
- Publishing keeps staged messages isolated exactly when the request names no transaction
  (`Publish`, `PostedIsolation`).  Replay makes a staged message visible exactly when its publisher
  supplied an origin header that names an existing address which is not paused
  (`EscapesExactlyWhen`, `ReplayHidesExactlyWhen`, `ForgedOriginEscapes`); `Escape` is a run from an
  empty broker where that happens.
- Epochs of a shard increase exactly while there are fewer than 2^64 grants (`EpochsExactly`).
- A message that was given back or replayed is not delivered again, although the program's README
  speaks of redelivery: no message is handed out twice in any run (`ServedOnce`), since whatever
  makes it ready again takes its time to live away, and one without counts as expired.
- Serving several addresses in one publication or commit can leave one of them over its maximum
  length, because a later one dead-letters into it.  How many messages are ready at each address
  afterwards is a function of the addresses and counts before the call and the order in which
  addresses are served (`Level`); an address is within its maximum exactly when what is ready there
  after its own turn, with what later turns send to it, is (`WithinMaxExactlyWhen`).
  `CrossedOverflows` and `Overfill` give the failing input, where the same addresses in the other
  order would have been fine.

The restart theorems hold of every state the broker can reach.  A snapshot from elsewhere, in which a
consumer holds a staged message unsettled, would release that message (`StagedSurvivesExactlyWhen`).

## Model

| member | source | states |
|---|---|---|
| LeaseRuns.MutualExclusion | internal/cluster/application/service.go:27-59 | in every state any run of any number of nodes reaches, a node that believes it owns a shard holds the coordinator's current lease with the latest granted token, so no two nodes own one shard |
| LeaseRuns.InvAlways | internal/cluster/infrastructure/memory.go:23-75 | every run keeps: unexpired cached leases are the coordinator's, grants are numbered, a held lease carries the latest token |
| LeaseRuns.KeepsCaches | internal/cluster/application/service.go:27-59 | each Ensure, Renew, Release, crash and passage of time keeps every unexpired cached lease equal to the coordinator's |
| LeaseRuns.KeepsNumbering | internal/cluster/infrastructure/memory.go:34-40 | each step keeps the i-th grant of a shard at epoch i+1 modulo 2^64, across releases and expiry |
| LeaseRuns.EpochsExactly | internal/cluster/infrastructure/memory.go:34-40 | over every run the epochs of a shard strictly increase if and only if there were fewer than 2^64 grants, and none is reused if and only if there were at most 2^64 |
| LeaseRuns.SupersededIsPowerless | internal/cluster/infrastructure/memory.go:43-75 | while a shard has had at most 2^64 grants, a token followed by a later grant can, in every later state of every run, neither renew nor change the coordinator by releasing |
| LeaseRuns.TokenCurrentExactlyWhen | internal/cluster/infrastructure/memory.go:49-52 | the fencing check accepts a granted token if and only if the shard is leased, the latest grant went to the same node and a multiple of 2^64 grants were made since |
| LeaseRuns.EnsureGrantsExactlyWhen | internal/cluster/infrastructure/memory.go:23-42 | in every good state a node without an unexpired lease of the shard gets one if and only if no other node's lease is unexpired then; it runs from that moment for the time asked and carries the next number; other shards are untouched, and a refusal changes nothing |
| LeaseRuns.EnsureRemembers | internal/cluster/application/service.go:27-38 | while the node holds an unexpired lease, asking again changes nothing |
| LeaseRuns.EnsureNeedsNameAndTime | internal/cluster/domain/lease.go:17-25 | nobody gets a lease without a name or for no time |
| LeaseRuns.RenewExtends | internal/cluster/infrastructure/memory.go:43-59 | renewing a current lease extends it from the second reading if it has not expired at the first, and otherwise only makes the node forget it; other shards are untouched |
| LeaseRuns.ReleaseFrees | internal/cluster/infrastructure/memory.go:60-75 | releasing a current lease takes the shard out of the coordinator's book and the node's memory, and touches no other shard |
| LeaseRuns.ReleasedIsAvailable | internal/cluster/infrastructure/memory.go:60-75 | after a release any named node that asks for the shard owns it at once, under the next number |
| LeaseRuns.RenewCallIsRun | internal/cluster/application/service.go:39-49 | a whole Renew call, shard by shard in map order, is a possible run of the cluster that leaves other nodes' caches alone |
| LeaseRuns.ReleaseCallIsRun | internal/cluster/application/service.go:50-59 | a whole ReleaseAll call, in map order and through refusals, is a possible run of the cluster that leaves other nodes' caches alone |
| Leases.Coordinator.Acquire | internal/cluster/infrastructure/memory.go:23-42 | grants the next epoch unless another node holds an unexpired lease; a refused request changes nothing |
| Leases.Coordinator.Renew | internal/cluster/infrastructure/memory.go:43-59 | extends only the current, unexpired lease with the same node and epoch; two clock readings |
| Leases.Coordinator.Release | internal/cluster/infrastructure/memory.go:60-75 | removes the lease for the current token, succeeds when there is none, refuses other tokens |
| Leases.Service.Ensure | internal/cluster/application/service.go:27-38 | answers from the cache while the cached lease is good at the first reading, else acquires and caches; the answer is what is cached afterwards, and a refusal changes nothing |
| Leases.Service.Renew | internal/cluster/application/service.go:39-49 | renews every owned shard or stops at the first refusal, forgetting exactly that shard |
| Leases.Service.ReleaseAll | internal/cluster/application/service.go:50-59 | forgets every owned shard; afterwards the coordinator holds exactly the leases it held before except those whose token the node had, unchanged; succeeds if and only if no owned shard was leased under another token |
| Calls.Drive | internal/transaction/application/service.go:36-140 | serving any allowed calls one after the other on an empty broker with the running services gives a history of those calls that ends in the store's state; soundness, isolation and the journal hold in every state of it |
| Calls.Node.Serve | internal/delivery/application/service.go:39-362 | each call of any service, run on a good store, does what the call relation says and leaves the store good |
| Calls.CallSteps | internal/delivery/application/service.go:39-362 | every allowed call from a good state, by what its code does, is a step that keeps soundness, isolation and the journal |
| BrokerRuns.InvAlways | internal/transaction/application/service.go:36-140 | soundness, isolation and the journal hold in every state of every history of service calls from a good state, the empty one included |
| BrokerRuns.FromEmpty | internal/storage/infrastructure/memory.go:23-25 | every history from an empty broker starts from a good state, so everything proved of histories holds of it |
| Broker.QuietKeepsInv | internal/delivery/application/service.go:39-174 | any call that leaves transactions alone, loses no message and changes no staged one keeps the journal true |
| Broker.FinishedKeepsInv | internal/transaction/application/service.go:73-121 | ending one transaction keeps the journal of all the others true |
| Broker.ExtendedKeepsInv | internal/transaction/application/service.go:50-72 | adding operations keeps the journal and its version count true |
| Broker.StagedApart | internal/transaction/application/service.go:58-67 | an active transaction shares no message with any other transaction |
| Lifecycles.TermsForever | internal/transaction/domain/transaction.go:42-50 | a declared transaction stays under its id in every later state, with its connection, the time of its declaration and the deadline that follows from the configured time to live |
| Lifecycles.CommitsExactlyInTime | internal/transaction/application/service.go:73-97 | over every history a commit makes a declared transaction Committed if and only if it is still active and the time is before the deadline from its declaration; a late one is timed out, a finished one left alone |
| Lifecycles.SweepsExactlyTheLate | internal/transaction/application/service.go:125-140 | over every history a sweep times out a declared transaction if and only if it is active and its deadline is reached, and changes no other |
| Lifecycles.StagesOnlyInTime | internal/transaction/application/service.go:50-72 | over every history nothing is staged under a transaction at or after its deadline |
| Lifecycles.HandedOut | internal/delivery/application/service.go:188-235 | a message handed out was ready, unexpired and none of higher priority or age was; it is then ready nowhere, accepted for an at-most-once consumer and acquired otherwise, its deliveries counted, and nothing else changes |
| Lifecycles.ServedOnce | internal/delivery/application/service.go:188-235 | over every history no message is handed out twice, whatever restarts, sweeps, commits and replays come between |
| BrokerRuns.AllOrNothing | internal/transaction/domain/transaction.go:51-73 | in every reachable state all messages of a transaction are staged under it, or all visible, or all gone, as its state says; version = 1 + operations + (0 if active, else 1) |
| BrokerRuns.StagedInvisible | internal/storage/infrastructure/memory_delivery.go:66-120 | in every reachable state a message with a transaction id is never ready at any address and never a candidate for replay |
| BrokerRuns.OutcomeIsFinal | internal/transaction/domain/transaction.go:62-73 | once committed, rolled back or timed out, a transaction record never changes again in any run |
| BrokerRuns.BodyForever | internal/delivery/application/service.go:69-76 | the logged body behind a message stays the same as long as the message lives, through commit, dead-lettering, replay, delivery and restart |
| BrokerRuns.NeverReturns | internal/storage/infrastructure/memory_delivery.go:9-20 | a message that is there at two times of a history was there all the time between: a deleted one never comes back under its id |
| BrokerRuns.CrashRecovers | internal/storage/infrastructure/snapshot.go:50-114 | after a crash at any time of a history, the snapshot of any earlier time beside the newer log is a good state, from which all guarantees hold again |
| BrokerRuns.EscapesExactlyWhen | internal/delivery/application/service.go:328-362 | replay makes a staged message visible if and only if it is chosen and carries an origin header that names an existing address which is not paused |
| BrokerRuns.ReplayHidesExactlyWhen | internal/delivery/application/service.go:328-362 | replaying all dead messages keeps every staged one out of sight if and only if none carries an origin header that names an open address |
| Counterexamples.ForgedOriginEscapes | internal/transaction/application/service.go:50-72 | after any staging and a full replay, the staged messages are visible while their transaction is active if and only if the publisher supplied an origin header naming an open address |
| Counterexamples.Escape | internal/delivery/application/service.go:328-362 | from an empty broker, one staged publication with the header and one replay leave its messages ready under an active transaction, unless the log refuses the body |
| Transactions.Service.Declare | internal/transaction/application/service.go:36-49 | a new active transaction with a new id and its expiry, or a refusal without a connection |
| Transactions.Service.StagePublish | internal/transaction/application/service.go:50-72 | one journal entry and one staged message per route for an active, unexpired transaction; each refusal has its exact reason and changes no transaction; a completed transaction is refused only after its messages were stored; all invariants hold afterwards if and only if no origin header was supplied or nothing was stored |
| Transactions.Service.Commit | internal/transaction/application/service.go:73-97 | from every good state: runs to the end for an active unexpired transaction with every staged message visible, rolls an expired one back, refuses all others unchanged; every address ends at the level told from the state before |
| Transactions.Service.Rollback | internal/transaction/application/service.go:98-104 | removes exactly the staged messages of an active transaction; a completed one is refused and nothing changes |
| Transactions.Service.Undo | internal/transaction/application/service.go:105-121 | never stops partway for an active transaction; the new state is the old one without its staged messages |
| Transactions.Service.Sweep | internal/transaction/application/service.go:125-140 | times out exactly the active transactions with `expiresAt <= now`, removes exactly their messages, counts them; afterwards every active one has `now < expiresAt` |
| Transactions.CommitFinishes | internal/transaction/application/service.go:82-95 | clearing all staged messages, with any trimming in between, and closing the transaction is an all-or-nothing end |
| Transactions.UndoneFinishes | internal/transaction/application/service.go:106-119 | removing all staged messages and closing the transaction is an all-or-nothing end |
| Transactions.CommittedOneMore | internal/delivery/application/service.go:129-143 | committing one more message keeps every earlier one visible and every later one untouched, whatever is trimmed |
| Transactions.CommittingMeans | internal/transaction/application/service.go:73-97 | whatever order of trims a commit goes through, it ends all-or-nothing and takes every address to its level |
| Transactions.StagingMeans | internal/transaction/application/service.go:50-72 | a staging, refused or not, keeps the journal and isolation if and only if it supplies no origin header or stores nothing |
| Delivery.Service.Publish | internal/delivery/application/service.go:39-83 | one new message per route, in order, bodies in the log, nothing lost, or the exact reason why it was refused or stopped; quiet and isolating if and only if no transaction is named; every address ends at the level told from the state before |
| Delivery.Service.Stage | internal/delivery/application/service.go:84-128 | one acquired message per route carrying the transaction id, or the exact reason why it was refused or stopped; old messages untouched even when it stops halfway |
| Delivery.PublishedMeans | internal/delivery/application/service.go:39-83 | any publication, up to where it stops, loses nothing, keeps bodies in the log, takes every address to its level and keeps isolation if and only if it names no transaction |
| Delivery.DraftFields | internal/delivery/domain/message.go:48-66 | the message of a route has the fields of the publication, the time of the call and its own or the address's time to live from then; it can be made if and only if destination and body are not empty and the priority is 0 to 9 |
| Delivery.Service.CommitStaged | internal/delivery/application/service.go:129-143 | makes a staged message visible and trims its address to its maximum; refuses any other message unchanged |
| Delivery.Service.RollbackStaged | internal/delivery/application/service.go:144-153 | removes a staged message; refuses any other unchanged |
| Delivery.Service.EnforceMaxLength | internal/delivery/application/service.go:154-174 | the ready count becomes the lesser of its old value and the maximum, no survivor ranks below a victim, no message is lost, nothing else changes |
| Delivery.Service.DeadLetter | internal/delivery/application/service.go:311-327 | moves the message to an open dead-letter address or marks it dead, with both headers |
| Delivery.Service.SweepExpired | internal/delivery/application/service.go:295-310 | dead-letters exactly the undelivered messages past their time and returns their number; never a staged one |
| Delivery.Service.ReplayDead | internal/delivery/application/service.go:328-362 | chooses all dead messages or as many as a positive limit allows, sends those with an open origin back and returns their number; quiet while staged ones are isolated |
| Delivery.SweptExactly | internal/delivery/application/service.go:295-310 | a sweep takes exactly the available and released messages without time left and records why and whence; every other message stays as it is |
| Delivery.ReplayedExactly | internal/delivery/application/service.go:328-362 | a chosen message goes ready to its origin, or stays at its address without one, if that is open, without its time to live; every other message stays as it is |
| Delivery.Service.Acquire | internal/delivery/application/service.go:188-235 | hands out a best ready message with its body from the log, dead-letters an expired head instead, or gives the exact reason: no consumer, no credit, nothing ready, disconnected |
| Delivery.PostedIsolation | internal/delivery/application/service.go:63-65 | published messages leave staged ones isolated if and only if they name no transaction |
| Queues.TrimKeepsBest | internal/storage/infrastructure/memory_delivery.go:66-88 | dropping the tail of the ready list keeps exactly the rest ready; every survivor has a higher priority than each victim, or the same and is not younger |
| Queues.BuriedElsewhere | internal/delivery/application/service.go:311-327 | a dead-lettered message keeps identity, body and rank, records its address and the reason, keeps its other headers, and goes to the dead-letter address if that exists and is not paused, else is marked where it is |
| Queues.NextLevels | internal/delivery/application/service.go:129-174 | one more message at an address and a trim there take every address to its next level, dead letters included |
| Queues.WithinMaxExactlyWhen | internal/delivery/application/service.go:154-174 | an address is within its maximum after the call if and only if what is ready there by the end of its own turn, plus what the later turns dead-letter to it, is; counts, maxima, dead-letter addresses and pauses are those before the call |
| Queues.SparedStaysWithin | internal/delivery/application/service.go:154-174 | an address that no later turn dead-letters to ends within its maximum |
| Counterexamples.CrossedOverflows | internal/delivery/application/service.go:58-81 | two full addresses, the second served dead-letters to the first: the first ends over its maximum, and would not in the other order |
| Counterexamples.Overfill | internal/delivery/application/service.go:39-83 | two publications to a new broker bring that about, unless the log refuses a body |
| Consumers.Register | internal/delivery/application/service.go:175-187 | stores a connected consumer with its prefetch as credit, or refuses for the exact reason |
| Consumers.RegisteredExactly | internal/delivery/domain/consumer.go:27-44 | registering succeeds if and only if the address exists, the names are given, the prefetch is at most 65535 and the semantics known; the credit is the prefetch, at least one |
| Consumers.Settle | internal/delivery/application/service.go:236-273 | settles a held delivery by its outcome; refuses an unknown consumer, delivery, message or outcome unchanged |
| Consumers.SettledExactly | internal/delivery/application/service.go:247-272 | accepted, released and rejected messages end as such, dead letters with reason and origin; other outcomes change nothing; no other message is touched |
| Consumers.Disconnect | internal/delivery/application/service.go:274-294 | gives back everything the consumer held and leaves it idle |
| Consumers.LeftExactly | internal/delivery/application/service.go:281-293 | exactly the messages the consumer held are given back, and it keeps neither credit nor deliveries |
| Consumers.NothingHeld | internal/delivery/domain/consumer.go:45-63 | in every sound state there is nothing to settle and nothing to give back, because acquiring never records a delivery |
| Stores.Store.ListReady | internal/storage/infrastructure/memory_delivery.go:66-88 | the available messages of the address, each once, by falling priority and then age, all of them or up to a positive limit |
| Stores.Store.Depth | internal/storage/infrastructure/memory_delivery.go:107-120 | counts exactly the ready messages of the address, each once, whatever the map order |
| Stores.Store.Put | internal/storage/infrastructure/memory_delivery.go:9-20 | adds a message under an unused id, refuses a used one |
| Stores.Store.Update | internal/storage/infrastructure/memory_delivery.go:41-52 | replaces an existing message, refuses a missing one |
| Stores.Store.Delete | internal/storage/infrastructure/memory_delivery.go:54-65 | removes an existing message, refuses a missing one |
| Stores.Store.CreateTransaction | internal/storage/infrastructure/memory_transaction.go:12-23 | adds a transaction under an unused id |
| Stores.Store.UpdateTransaction | internal/storage/infrastructure/memory_transaction.go:36-51 | accepts exactly the versions above the stored one |
| Stores.Store.ListActive | internal/storage/infrastructure/memory_transaction.go:52-66 | every active transaction once, oldest first |
| Restart.Take | internal/storage/infrastructure/snapshot.go:23-49 | the snapshot lists everything in the store once, without message bodies |
| Restart.Restore | internal/storage/infrastructure/snapshot.go:50-94 | loads any version 1 snapshot, of entries with the same key the last one; another version changes nothing |
| Restart.SnapshotRestores | internal/storage/infrastructure/snapshot.go:23-94 | loading the snapshot of a state gives the restarted state, whatever the order of its lists |
| Restart.Reboot | internal/storage/infrastructure/snapshot.go:23-94 | taking a snapshot and loading it leaves the store in the restarted state |
| Restart.CrashKeepsInv | internal/storage/infrastructure/snapshot.go:50-114 | an older snapshot beside a longer log is as good a state as the one it was taken from |
| Restart.RestartIsQuiet | internal/storage/infrastructure/snapshot.go:70-92 | a restart keeps transactions and staged messages, so it is a step of every run |
| Restart.RestartTwice | internal/storage/infrastructure/snapshot.go:50-94 | a second restart changes nothing more, from any state |
| Restart.RestartReleases | internal/storage/infrastructure/snapshot.go:64-92 | addresses, bindings, transactions and message ids survive; only staged messages stay acquired; no consumer keeps credit or unsettled deliveries |
| Restart.RestartKeepsMessages | internal/storage/infrastructure/snapshot.go:36-89 | over a restart a message loses its body copy and is given back if it was delivered; nothing else of it changes, so the same messages are ready at every address |
| Restart.StagedSurvivesExactlyWhen | internal/storage/infrastructure/snapshot.go:70-84 | a staged message stays acquired if and only if no consumer holds it unsettled |
| Administration.CreateAddress | internal/address/application/service.go:29-43 | adds an address under a valid unused name whose dead-letter address exists and is another one, or refuses for the exact reason |
| Administration.CreatedExactly | internal/address/domain/address.go:43-69 | when an address is created, and its fields: queue by default, not paused, version 1 |
| Administration.SetPaused | internal/storage/infrastructure/memory.go:63-77 | changes the pause flag and counts up the version of an existing address, and nothing else |
| Administration.PausedExactly | internal/storage/infrastructure/memory.go:63-77 | the flag is what was asked for, the version one up, every other field and address the same |
| Administration.Bind | internal/address/application/service.go:44-63 | adds a binding with priority 0 to 9 between two different existing addresses, or refuses for the exact reason |
| Administration.BoundExactly | internal/address/domain/binding.go:26-42 | a binding is taken if and only if its ends exist and differ, its priority is 0 to 9 and its id is new |
| ValueLaws.ValueRoundTrip | internal/amqp/application/encoder.go:30-118 | for every encodable value whose length fits and all trailing bytes, decoding gives the value back and takes exactly the encoded bytes |
| ValueLaws.RoundTripExactlyWhenFits | internal/amqp/application/encoder.go:45-49 | an encodable value comes back if and only if its outermost length fits the 32-bit field |
| ValueLaws.DecodeLocal | internal/amqp/application/decoder.go:65-199 | a successful result depends only on the bytes consumed, although list items are checked against the list end only afterwards |
| ValueLaws.DecodePrefixFree | internal/amqp/application/decoder.go:224-234 | every proper prefix of an accepted encoding is refused |
| ValueLaws.ReencodeRoundTrip | internal/amqp/application/encoder.go:51-118 | whatever the decoder accepts is encodable, its encoding is never longer than the bytes read, and reads back as the same value |
| Forms.DecodesExactlyForms | internal/amqp/application/decoder.go:65-234 | decoding gives a value and a length if and only if that many first bytes are a form of the value in the grammar of all short and long forms, nested lists, over-long lengths and both descriptor forms included |
| Forms.FormsUnambiguous | internal/amqp/application/decoder.go:65-234 | no byte string is a form of two values and no form begins another |
| Forms.WireIsShortestForm | internal/amqp/application/encoder.go:30-118 | what the encoder writes for a value that fits is a form of it, and no form of it is shorter |
| ValueLaws.FailsOnFirstObstacle | internal/amqp/application/encoder.go:51-109 | encoding fails if and only if some part of the value has no form, with the error of the first such part in reading order |
| Encoding.EncodeValue | internal/amqp/application/encoder.go:51-109 | writes the wire form, or fails with the first obstacle from left to right |
| Encoding.EncodeList | internal/amqp/application/encoder.go:30-50 | writes empty, short or long list form around its items' wire forms |
| Encoding.TrimNulls | internal/amqp/application/encoder.go:23-29 | drops the nulls at the end and nothing else |
| Decoding.Decoder.Value | internal/amqp/application/decoder.go:65-151 | on every input terminates within bounds, moves strictly forward on success, and gives the value and length the wire format means |
| Decoding.Decoder.Items | internal/amqp/application/decoder.go:158-174 | reads the announced items and then checks them against the announced end |
| Decoding.Decoder.List8 | internal/amqp/application/decoder.go:152-175 | agrees with the wire format on every input after a short-list code: same value, same end, same error, never past the input |
| Decoding.Decoder.List32 | internal/amqp/application/decoder.go:176-199 | agrees with the wire format on every input after a long-list code: same value, same end, same error, never past the input |
| Decoding.Decoder.Descriptor | internal/amqp/application/decoder.go:41-64 | agrees with the wire format on every input: both descriptor forms, same code, same end, and the same error when truncated, of another form or beyond one byte |
| Decoding.Decoder.Binary8 | internal/amqp/application/decoder.go:200-211 | the announced bytes and a cursor just behind them, or truncation when fewer remain |
| Decoding.Decoder.Binary32 | internal/amqp/application/decoder.go:212-223 | the announced bytes and a cursor just behind them, or a refusal when fewer remain, for every announced 32-bit length |
| Performatives.PerformativeRoundTrip | internal/amqp/application/decoder.go:15-40 | decoding an encoded performative succeeds if and only if the trimmed fields meet the minimum; then every field index reads the same |
| Performatives.PerformativeReturnsExactlyWhen | internal/amqp/application/encoder.go:10-22 | it comes back whole if and only if its length fits and the trimmed fields meet the minimum |
| Performatives.TrimKeepsMeaning | internal/amqp/domain/performative.go:19-80 | trimming changes no field and can only make a valid performative fail on its field count |
| Performatives.AccessorsAgree | internal/amqp/domain/performative.go:25-52 | every typed accessor reads the same when all fields do |
| Performatives.AccessorsByType | internal/amqp/domain/performative.go:19-52 | what each accessor makes of each type of field, and the zero value otherwise |
| Performatives.ValidExactlyWhen | internal/amqp/domain/performative.go:56-80 | which performatives are valid, descriptor by descriptor |
| Performatives.EncodePerformative | internal/amqp/application/encoder.go:10-22 | produces exactly the encoding that the round-trip theorems are about, or its first error: an invalid performative before an unencodable field |
| Performatives.DecodePerformative | internal/amqp/application/decoder.go:15-40 | the cursor-driven decoder computes, on every byte string, exactly the meaning that the round-trip theorems are about, with the bytes used or the same error |
| Frames.FrameRoundTripExactlyWhen | internal/amqp/domain/frame.go:17-64 | a marshalled frame parses back to itself if and only if its kind is known, its offset is not 1 and its length fits 32 bits |
| Frames.ParsedMarshals | internal/amqp/domain/frame.go:17-64 | an accepted frame marshals back to the bytes it was parsed from, with zeros for the extended header |
| Frames.FrameLayout | internal/amqp/domain/frame.go:17-44 | a frame is accepted if and only if its bytes announce their own length, a data offset within it and a known type; every field is read from its place |
| Frames.MarshalsExactlyWhen | internal/amqp/domain/frame.go:45-57 | a frame can be marshalled if and only if its length, cut to 32 bits, is within the maximum and has room for the header |
| Frames.Marshal | internal/amqp/domain/frame.go:45-64 | fills the buffer in place with header, padding and body, including what wraps around |
| Frames.ParseFrame | internal/amqp/domain/frame.go:17-44 | an accepted frame has its declared size and a body from its data offset on |
| Streams.StreamRoundTrip | internal/amqp/application/io.go:10-50 | the frames of any sequence of items, one after the other, read back as the same channels, performatives and payloads, in order, with nothing left over |
| Streams.ReadFrame | internal/amqp/application/io.go:10-28 | reads exactly the first frame of the input and leaves the rest |
| Streams.WriteFrame | internal/amqp/application/io.go:29-42 | a frame that cannot be marshalled writes nothing; otherwise short writes do not matter and the whole frame is written, or the writer failed and some first part of it was |
| Streams.FrameAtStart | internal/amqp/application/io.go:10-28 | a marshalled frame is read back from the front of any input |
| Streams.FrameReadExactlyWhen | internal/amqp/application/io.go:10-28 | a frame is read if and only if the input holds as many bytes as it announces and those are an accepted frame; one announced above the maximum is refused before its body is read |
| Streams.ItemRoundTrip | internal/amqp/application/io.go:43-50 | the body of a built frame splits back into performative and payload |
| Streams.FrameOfItem | internal/amqp/application/io.go:43-50 | on the wire: length, data offset two, AMQP type, channel, then the encoded performative and the payload |
| Streams.PerformativeIsForm | internal/amqp/application/encoder.go:10-22 | an encoded performative is a form of its descriptor with its trimmed field list |
| Streams.PerformativeDecodesExactlyWhen | internal/amqp/application/decoder.go:15-40 | a performative is decoded if and only if the bytes are a form of its described field list and it is valid |
| Streams.DataSectionRoundTrip | internal/amqp/application/message.go:9-29 | a body comes back from its data section if and only if its length fits 32 bits |
| Streams.DataSectionIsForm | internal/amqp/application/message.go:9-29 | a data section is a form of the binary described by code 0x75 |
| Streams.DataSectionExactlyWhen | internal/amqp/application/message.go:9-29 | a payload is taken for the binary of a data section if it begins like one, and for itself otherwise |
| BodyLogs.FileRefinesMemory | internal/storage/infrastructure/filelog.go:38-123 | through any sequence of appends, reads and restarts callers see the same from the file log as from the in-memory log |
| BodyLogs.FileLogActsLikeMemoryLog | internal/storage/infrastructure/memorylog.go:15-38 | a file log and an in-memory log that both start empty answer every sequence of readable, reopenable appends, reads and restarts alike |
| BodyLogs.CompactionKeepsReads | internal/storage/infrastructure/filelog.go:124-175 | for every live set each live offset reads the same at its rank, and nothing beyond the live records is readable |
| BodyLogs.KeptAtRank | internal/storage/infrastructure/filelog.go:135-162 | compaction keeps one record per live offset, in order, record k at the number of live offsets below k |
| BodyLogs.CompactionHolds | internal/storage/infrastructure/filelog.go:124-175 | compacting a log of whole records never fails, and the new file and index are those of exactly the live records, in order |
| BodyLogs.OffsetsSurviveExactlyWhen | internal/storage/infrastructure/filelog.go:137-161 | old offsets stay good if and only if the live ones are the oldest without a gap |
| BodyLogs.CompactionsAgree | internal/storage/infrastructure/memorylog.go:39-51 | after compacting both logs a live body is at its old offset in memory and at its rank in the file |
| BodyLogs.LargestBodyCannotBeReopened | internal/storage/infrastructure/filelog.go:54-72 | a body of the full limit is accepted, under any id short enough for the record length not to wrap, and then makes the log unreadable on reopen |
| BodyLogs.FileLog.Reindex | internal/storage/infrastructure/filelog.go:38-65 | rebuilds the index from any file, or fails where the walk fails |
| BodyLogs.FileLog.Append | internal/storage/infrastructure/filelog.go:66-92 | the file grows by exactly one record and the index by its position at the next offset; an oversized body changes nothing |
| BodyLogs.FileLog.Read | internal/storage/infrastructure/filelog.go:93-123 | the body of the record at an indexed offset as a line scanner with a bounded buffer finds it |
| BodyLogs.FileLog.Compact | internal/storage/infrastructure/filelog.go:124-175 | copies the live records of any file to a new one and renumbers them, or fails at the first unreadable one and changes nothing |
| BodyLogs.MemoryLog.Append | internal/storage/infrastructure/memorylog.go:16-26 | never refuses; the simple log the file log is compared with grows by exactly this body at the next offset |
| BodyLogs.MemoryLog.Read | internal/storage/infrastructure/memorylog.go:27-38 | the body appended at the offset, or a refusal exactly for offsets that hold none |
| BodyLogs.MemoryLog.Compact | internal/storage/infrastructure/memorylog.go:39-51 | an offset stays if and only if it was stored and is live, with the same body and number, unlike in the file log |
| LogFormat.ReopenExactlyWhenWithinLimit | internal/storage/infrastructure/filelog.go:38-65 | walking a log file finds exactly its record boundaries if and only if every record is within the limit |
| LogFormat.PayloadOfRecord | internal/storage/infrastructure/filelog.go:99-113 | reading at the indexed position of record k gives record k |
| LogFormat.RecordLayout | internal/storage/infrastructure/filelog.go:79-85 | on disk a record is its length in four bytes, most significant first, the id, a line feed and the body |
| LogFormat.BodyExactlyWhenReadable | internal/storage/infrastructure/filelog.go:114-122 | a record gives its body back if and only if its id is one line under the token limit that does not end in CR |
| Matcher.MatchParts | internal/routing/domain/matcher.go:33-65 | true if and only if the key splits into consecutive pieces, one per pattern segment, that `#`, `*` and the glob accept; terminates on all inputs |
| Matcher.MatchesSegment | internal/routing/domain/matcher.go:33-65 | alone, `#` matches any number of parts, none included, `*` any one part, and another segment one part its glob accepts |
| Matcher.MatchesAppend | internal/routing/domain/matcher.go:33-65 | a pattern in two parts matches exactly the keys that fall apart into a match of each |
| Matcher.TopicMatch | internal/routing/domain/matcher.go:25-32 | the same for dotted strings, with the shortcuts for an empty pattern and `#` |
| Matcher.Match | internal/routing/domain/matcher.go:13-24 | topic match and every filter header present with its value |
| Matcher.SplitJoin | internal/routing/domain/matcher.go:29-30 | splitting at dots leaves no dot in a part and is undone by joining |
| Matcher.JoinSplit | internal/routing/domain/matcher.go:29-30 | parts without dots are exactly what splitting their join finds |
| Router.RoutesAreBest | internal/routing/application/router.go:36-63 | a destination is routed to if and only if a matching binding leads to it and it exists, once, at the highest such priority, in non-increasing order, whatever the map order |
| Router.ReachedExactlyWhen | internal/routing/application/router.go:36-63 | a destination is reached if and only if it exists and a stored binding of this very source goes there whose filter accepts the headers and whose key rule holds: any key for fanout, the same key for direct, a matching key for topic |
| Router.RoutedAtBest | internal/routing/application/router.go:40-63 | each destination once, at the highest priority among the bindings that carry the message there, in non-increasing order |
| Router.OtherSourcesIgnored | internal/storage/infrastructure/memory.go:109-113 | adding, changing or removing bindings of other sources changes no route |
| Router.QueueTakesItself | internal/routing/application/router.go:29-31 | a queue or temporary address is its own one route, whatever is bound to it |
| Router.Resolve | internal/routing/application/router.go:24-64 | a queue routes to itself, an unknown source or kind is refused; a named topic, direct or fanout source reaches a destination if and only if that exists and one of the source's own bindings carries the message there |
| Router.Collect | internal/routing/application/router.go:40-61 | the loop takes each new existing destination of a matching binding in listing order |
| Router.PickedIsBest | internal/routing/application/router.go:40-61 | taking the first offer per destination from a list by priority gives the best offer of each |
| Router.RoutesExist | internal/routing/application/router.go:29-60 | every route leads to an existing address |
| Addresses.ListBindings | internal/storage/infrastructure/memory.go:102-121 | exactly the bindings of the source, or all of them for no source, each once, by falling priority and then by id |
| Addresses.ListingUnique | internal/storage/infrastructure/memory.go:109-119 | there is only one such listing, so map order does not show |
| Addresses.LexLessExactlyWhen | internal/storage/infrastructure/memory.go:114-119 | ids are ordered by the first character that differs, a prefix first |

## Left out

- Consumer credit: `Consumer.Grant` is called by no service, and acquiring neither spends credit nor records a delivery, so there is no credit law to prove; the model keeps consumers without unsettled deliveries as an invariant.
- Message expiry and released messages follow the code (a message without an expiry counts as expired, released ones are not ready), which differs from the README and tests of the program: there is no redelivery in this code, and Lifecycles.ServedOnce says so.
- Delivery.Service.Acquire: the delivery sequence number is not modelled; it only appears in the answer.
- Delivery.Service.Publish: the log may refuse any body, as a disk may; when it does is not modelled.
- Delivery.Service.Stage: the log may refuse any body, as for Delivery.Service.Publish.
- Restart.Restore: JSON encoding and the file half of snapshots are not modelled.
- Administration.CreateAddress: names are taken as already trimmed, and the default time to live as already parsed.
- BodyLogs.FileLog.Compact: fsync, rename and temporary files are not modelled.
- BodyLogs.FileRefinesMemory: appends are limited to ids that can be read back and records within the reopen limit, the exact conditions being separate results.
- BodyLogs.FileLogActsLikeMemoryLog: the same limits on appends as for BodyLogs.FileRefinesMemory.
- LeaseRuns.SupersededIsPowerless: beyond 2^64 grants of one shard a token number comes round again; LeaseRuns.TokenCurrentExactlyWhen says exactly when.
- Streams.WriteFrame: assumes that a write without an error takes at least one byte.
- BrokerRuns.InvAlways: histories are of calls in which staged publications supply no origin header and publications outside a transaction name none; what happens otherwise is stated exactly in separate results.
- Deletion of addresses and bindings exists in the repository interface but no service calls it; a deleted address could stop a commit halfway.
- Transaction operations other than publish are never created by the code and are not modelled.
- Interleaving inside a service call, context cancellation and failing random sources: calls are atomic.
- Concurrent updates of one transaction from interleaved calls: the version check accepts any higher version, so no lost-update freedom is claimed.
- Coordinator restarts: the coordinator keeps its epochs in memory, so fencing holds for one coordinator's lifetime.
- Memory exhaustion: the decoder's allocation for an announced item count is not modelled.
- `path.Match` and the FNV hash: opaque.
- Links, sessions, connections, SASL and TLS, HTTP and gRPC management, metrics, configuration, workers, the PostgreSQL adapters, the simulator and the console.
