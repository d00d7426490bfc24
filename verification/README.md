# RMS 2.0, modelled and verified in Dafny

RMS watches computers. A reporter runs on each of them: consumer threads put
measurements into a queue, one worker thread sends them to the server, and the
server answers with what it wants done. The server keeps a computer table, a storage
table, an hourly usage table and an executor table.

This project models the parts whose state has to stay consistent over whole runs,
and proves what they guarantee, and where the code guarantees less than one might
expect, exactly when it does.

`dafny verify dfyconfig.toml` checks everything.

## The parts

* **Delivery** (`delivery_machine`, `delivery_invariant`, `delivery_commands`,
  `delivery_executors`, `delivery`, `provenance`, `delivery_witnesses`,
  `empty_front`). The reporter and the server's sessions as a step machine: a program
  counter for every producer thread, the worker and the main thread. What the
  environment decides (does a call fail, before or after the server ingested it; what
  is sent; which session is asked) is part of the action, so a run is a sequence of
  actions and `Apply` is a function. Theorems hold for every run from the initial
  state, for any number of consumers and of executors started by commands.
* **Shutdown** (`traces`, `shutdown`, `shutdown_witness`). The same machine over
  infinite runs. In every fair run `stop()` returns exactly if the run does not end in
  one deadlock, the one recorded in the repository's `todo` file: the worker reconnects
  with `mtx_` held, and main joins a consumer that waits for `mtx_`. So with the server
  reachable it returns, and in that state, with the server away, it never does. Fair
  means: a thread that is able to step again and again does step again and again; for
  a consumer waiting for the mutex this is strong fairness, which `std::mutex` by itself
  does not promise.
* **Delivery over infinite runs** (`traces`, `delivery_liveness`, `command_fate`,
  `delivery_liveness_witness`). While `stop()` is not called, every request that is
  ever enqueued is ingested and popped, however often connections and `report` fail, as
  long as neither fails for ever. Weak fairness is enough here. A response that waits
  for the reporter is handled exactly if the next report of its session succeeds.
* **One turn of the request client** (`request_client`, `session`). What happens
  between two points of interference, as classes, and the lemmas that the machine's
  worker and producers do the same to the same contents.
* **Write-back** (`scripts`, `database`, `rms_computer`, `reconciliation`, `write_back`,
  `handshakes`, `identities`, `identity`). `RmsComputer` loads itself from the tables,
  merges a report, marks what is dirty, and writes only that back. The class methods
  are proved against functions on values, and the theorems are about those.
* **Usage** (`usage`, `usage_table`, `scheduler`, `ingestor`, `cpu_reporter`). Sliding
  windows by key, their averages, the hourly push with catch-up, and the
  insert-if-absent-then-update time series.
* **Text** (`text`, `version`, `rms_config`). Printing and reading of integers, dotted
  versions and the configuration file over unbounded strings.
* **Executors** (`executor_table`, `executors`) and **registry** (`registry`).

## What the proofs show about the code

* A request leaves the queue only after the server ingested it, and it does so in the
  end (`EverythingIsDelivered`); the server may see the head again after a failure,
  never anything else again. Commands are the other way round: at most once. The next
  report of its session decides about a command (`HandledExactly`): it is lost with a
  lost reply (`LostWithReply`), and left behind in its session, with no reply lost, if
  the report does not arrive at all (`LeftInSession`).
* `front()` is safe exactly if `stop()` comes after the worker's first store to
  `poll_requests_` (`FrontHasHead`, `EmptyFrontExact`).
* `request_counter_` is declared as a binary semaphore but can be released at 1 as soon
  as there is one consumer (`ReleaseAtMaximumExact`).
* A reporter that cannot write its configuration file loses a new id with the process:
  each further start adds a row for the same machine, until the server's keys happen to
  reach the id in the file (`Relaunch`, `RestartsAdd`).
* A redelivered executor result does no harm, and repairs a row whose first update
  failed (`RedeliveryRepairs`).
* `dirty_` is assigned, not accumulated: a failed update followed by the same report
  leaves the row stale (`FailedUpdateIsForgotten`), for as long as the reports repeat
  (`LastChangeDecides`), and so does a report that names a device path twice with equal
  entries at the end. `DeviceRowUnder` and `HandshakeStorageRow` give the exact
  condition. `free` is not read back from the table, so after a restart a full file
  system that reports 0 is not written.
* `addToDB` prints the client's major version twice; the inserted row shows the report
  exactly when major and minor agree (`FirstHandshake`). The architecture is always
  loaded as x86-64, so a change of the architecture alone to x86-64 is missed
  (`HandshakeRefreshesComputer`).
* A computer whose id has no row gets a new row, but its devices get none, neither then
  nor later in the session (`UnknownNeverStored`).
* A failed SELECT in `pushUsageToDB` reads as "no row" and can insert a second one
  (`PushKeepsUnique`, `FailedSelectDuplicates`). The usage table has no computer id: all computers write the
  same cells, and the last writer wins. The window keeps 61 points, not 60.
* `removeClient` removes by id: a reporter that reconnects before its old session is
  released vanishes from the registry (`ReconnectedSessionVanishes`).

## Model

| member | source | states |
|---|---|---|
| Delivery.TelemetryAtLeastOnceInOrder | reporter/common/src/request_client.cpp:54-103 | in every run: popped requests followed by the queue are the enqueue history; the server's log without adjacent repeats is the popped TCP requests plus at most the head of the queue, a prefix of what was enqueued, free of duplicates |
| Delivery.PoppedWasIngested | reporter/common/src/request_client.cpp:172-187 | a TCP request that was popped is in the server's log |
| Delivery.CommandsAtMostOnceInOrder | server/src/rms_client.cpp:79-90 | what the reporter handled is a duplicate-free subsequence of what was issued over all sessions; drained responses are handled, in hand or lost with a reply; with nothing lost, handled plus in hand is exactly what was drained, in order |
| Delivery.SessionIsFifo | server/src/rms_client.cpp:34-37 | per session, drained then queued is everything added, which is the issued history of that session |
| Provenance.IssuedAnswersAsks | server/src/rms_terminal.cpp:77-88 | in every run the k-th issued response answers the k-th ask: system info for a system-info ask, the text and the id of its own row for a command, the filename for a script |
| Provenance.HandledAnswersAsk | server/src/rms_client.cpp:39-58 | whatever the reporter handles is the answer to an ask of the run |
| Provenance.AskReachesSession | server/src/rms_client.cpp:34-37 | an ask gives its session one more response, and no other session anything |
| Provenance.EnqueuedIsHanded | reporter/common/src/request_client.cpp:54-63 | in every run a request is enqueued, unchanged, as often as threads handed it to sendRequest, but for those that still wait for mtx_ with it |
| Provenance.SleepsForTimeout | reporter/common/src/consumer/ping_consumer.cpp:46-48 | after a send, a consumer that is not told to stop sleeps for exactly its timeout |
| Delivery.OneResultPerExecutor | reporter/common/src/executor/executor.cpp:44-58 | in every run the log without adjacent repeats has at most one result per executor |
| Delivery.OneExecutorPerCommand | reporter/common/src/rms_reporter_client.cpp:72-80 | in every run every handled command has an executor thread, every executor thread was started by a handled command, and no two share an id |
| Delivery.TokenConservation | reporter/common/src/request_client.cpp:56-62 | semaphore, token held by the worker and producers between push and release add up to queue length plus stop token |
| Delivery.NoLostWakeUp | reporter/common/src/request_client.cpp:71-74 | a worker blocked in acquire with no producer mid-send has an empty queue |
| Delivery.FrontHasHead | reporter/common/src/request_client.cpp:71-77 | in runs where stop() follows the worker's store, front() always finds a head and the worker can go on |
| Delivery.SafeStep | reporter/common/src/request_client.cpp:65-103 | every action keeps thread layout, mutex, tokens, queue, log order, sessions, command flow and executors consistent |
| Delivery.PollStep | reporter/common/src/request_client.cpp:111-116 | an ordered action keeps poll_requests_ in step with stop(), the head under a serving worker, and the stop token's wake-up |
| DeliveryInvariant.LayoutStep | reporter/common/src/rms_reporter_client.cpp:40-56 | every action keeps the threads in step with start() and stop(): consumers are started and joined in order, none runs before its start, the joined ones have exited, and the worker's thread exists exactly from the end of start() |
| DeliveryInvariant.MutexStep | reporter/common/src/request_client.cpp:75-101 | mtx_ is held exactly from front() to the pop, or to the end of the reconnection after a failure |
| DeliveryInvariant.TokensStep | reporter/common/src/request_client.cpp:56-62 | every action of every thread conserves tokens |
| DeliveryInvariant.QueueStep | reporter/common/src/request_client.cpp:91-97 | every action keeps popped plus queue equal to the enqueue history, and a head under a worker that is sending |
| DeliveryInvariant.LogStep | server/src/rms_client.cpp:79-94 | every action keeps the log, without adjacent repeats, equal to popped or popped plus head |
| DeliveryCommands.SessionsStep | server/src/rms_client.cpp:79-90 | every action keeps each session's drained plus queued equal to added |
| DeliveryCommands.CommandsStep | reporter/common/src/request_client.cpp:182-186 | every action keeps drained responses accounted for and in issue order |
| DeliveryExecutors.ExecutorsStep | reporter/common/src/rms_reporter_client.cpp:72-80 | every action keeps executor ids distinct and results owned by executors that pushed once |
| DeliveryExecutors.FreshExecutor | reporter/common/src/rms_reporter_client.cpp:78-79 | a command about to be handled has an id that no executor has, so emplace inserts |
| DeliveryWitnesses.EarlyStopReachesEmptyFront | reporter/common/src/request_client.cpp:67-77 | for every configuration of consumers there is a run in which stop() stores false before the worker stores true, and the worker reaches front() of an empty queue |
| EmptyFront.EmptyFrontExact | reporter/common/src/request_client.cpp:67-77 | for every reachable state in which stop() is about to store false: after that store, front() of an empty queue can be reached exactly if the worker has not stored true yet |
| EmptyFront.Drains | reporter/common/src/request_client.cpp:71-92 | a worker with one token more than there are requests serves them all and then calls front() on the empty queue |
| DeliveryWitnesses.ReleaseAtMaximumReachable | reporter/common/include/rms/reporter/common/request_client.h:37 | with at least one consumer a release at counter value 1, the declared maximum, is reachable |
| DeliveryWitnesses.ReleaseAtMaximumExact | reporter/common/include/rms/reporter/common/request_client.h:37 | some release, of any thread, is reachable at a counter value of 1 or more exactly if there is a consumer |
| DeliveryWitnesses.StuckReachable | reporter/common/src/request_client.cpp:143-151 | with at least one consumer the state {worker reconnecting with mtx_ held, main joining a consumer that waits for mtx_} is reachable |
| DeliveryWitnesses.StuckReachableExact | reporter/common/src/rms_reporter_client.cpp:50-56 | such a state is reachable exactly if there is a consumer |
| DeliveryWitnesses.StuckIsClosed | reporter/common/src/request_client.cpp:97 | while no connection is accepted, every step of every thread keeps that state |
| DeliveryLiveness.EverythingIsDelivered | reporter/common/src/request_client.cpp:65-103 | in every weakly fair infinite run without stop(), whatever is ever enqueued is popped in the end and, if it goes to the server, is in its log, unless connections fail for ever or report fails for ever |
| CommandFate.HandledExactly | server/src/rms_client.cpp:79-90 | in every weakly fair infinite run without stop() (as for EverythingIsDelivered), a response that waits in some session is handled exactly if the worker still reports to that session and its next call of report succeeds |
| CommandFate.SoundStep | server/src/rms_client.cpp:34-37 | every action keeps what waits in a session apart from what was drained, so nothing is drained twice |
| CommandFate.GoneForGood | reporter/common/src/request_client.cpp:93-97 | in whatever way a run goes on, a response that was lost with a reply, or that waits in a session that the worker does not report to, is never handled |
| CommandFate.EverythingIsHandled | server/src/rms_client.cpp:79-90 | so while no call fails and reports keep coming, every response put into the newest session is handled |
| CommandFate.LostWithReply | reporter/common/src/request_client.cpp:174-180 | a command is lost for ever when the reply to an ingested report does not arrive |
| CommandFate.LeftInSession | reporter/common/src/request_client.cpp:93-97 | a command is left behind for ever when a report does not arrive, no reply is lost, and the worker opens a new session |
| DeliveryLiveness.QueueDrains | reporter/common/src/request_client.cpp:77-101 | the queue of any moment is popped in order, up to any of its requests |
| DeliveryLiveness.PopComes | reporter/common/src/request_client.cpp:90-101 | a queue that is not empty is popped: failed sends are retried |
| DeliveryLiveness.ConnectionComes | reporter/common/src/request_client.cpp:143-151 | with a request in the queue the worker leaves the open() loop in the end, with nothing popped meanwhile |
| DeliveryLiveness.WorkerSteps | reporter/common/src/request_client.cpp:71-75 | with a request in the queue the worker does not wait for ever, neither for a token nor for mtx_ |
| DeliveryLivenessWitness.BusyDeliveryExists | reporter/common/src/request_client.cpp:54-103 | a weakly fair run that meets the hypotheses of EverythingIsDelivered, HandledExactly and EverythingIsHandled, and so calls report again and again |
| Shutdown.StopReturnsExact | reporter/common/src/rms_reporter_client.cpp:50-56 | in every fair infinite run inside stop(), called after the worker's store, in which no handshake and no sendSysInfo throws, whatever connections and reports do: stop() returns exactly if the run does not end in the deadlock {worker reconnecting with mtx_ held, main joining a consumer that waits for mtx_} |
| Shutdown.StopTerminates | reporter/common/src/rms_reporter_client.cpp:50-56 | in every fair infinite run with the server reachable, stop() returns, with all consumers and the worker gone |
| Shutdown.StopNeverReturns | todo:29-30 | from the stuck state, with no connection accepted, stop() never returns under any schedule |
| Shutdown.MutexFreed | reporter/common/src/request_client.cpp:75-101 | mtx_ becomes free again, or the worker reconnects with it for good |
| Shutdown.ConsumerExits | reporter/common/include/rms/reporter/common/consumer/consumer.h:62-66 | a consumer told to stop leaves its thread function, or waits for good for mtx_ while the worker reconnects |
| Shutdown.WorkerFinishes | reporter/common/src/request_client.cpp:111-116 | after the stop token the worker leaves its thread function |
| Shutdown.RankDecreases | reporter/common/src/request_client.cpp:71-103 | every worker step with mtx_ held, or after the stop, lowers the worker's rank, but for a failing connection |
| Shutdown.MainAdvances | reporter/common/src/rms_reporter_client.cpp:50-56 | main takes its next step of stop(), and its rank falls, or it is in the deadlock for good |
| ShutdownWitness.FairStopExists | reporter/common/src/rms_reporter_client.cpp:40-56 | for every number of consumers there is a fair run that meets the hypotheses of StopTerminates |
| ShutdownWitness.FairDeadlockExists | todo:29-30 | for every number of consumers but none there is a fair run inside stop() that ends in the deadlock |
| RequestClients.RequestClient.SendRequest | reporter/common/src/request_client.cpp:54-63 | appends the request and adds one token |
| RequestClients.RequestClient.SendTcpRequest | reporter/common/src/request_client.cpp:172-187 | keeps the request if report threw; else handles the responses of the reply in order, up to one whose sendSysInfo throws |
| RequestClients.RequestClient.ServeHead | reporter/common/src/request_client.cpp:77-101 | queue, counter, executors and system infos sent after one turn: pops on success, keeps the queue and gives the token back on failure, and does neither if handling a response throws |
| RequestClients.RmsReporterClient.HandleResponseData | reporter/common/src/request_client.cpp:190-207 | a command is recorded unless its id is taken, a system-info request is answered or throws, nothing else changes |
| RequestClients.EveryCommandRuns | reporter/common/src/rms_reporter_client.cpp:72-80 | with fresh distinct ids every command of a reply gets its executor |
| RequestClients.HandlesReply | reporter/common/src/request_client.cpp:182-186 | the machine's worker, left alone, handles the whole reply, starts an executor per command and pops the head |
| RequestClients.ServesHead | reporter/common/src/request_client.cpp:77-92 | a successful send left alone has the effect of ServeHead |
| RequestClients.KeepsHead | reporter/common/src/request_client.cpp:93-97 | a failed send left alone keeps the queue and returns the token, whether or not the server ingested |
| RequestClients.WorkerTakesTurn | reporter/common/src/request_client.cpp:77-101 | for every reply, failure and throw, the machine's worker alone can take its turn to the contents that ServeHead computes |
| RequestClients.ProducerSends | reporter/common/src/request_client.cpp:54-63 | a producer's push and release in the machine change the contents as SendRequest does; then a consumer sleeps and an executor is done |
| Sessions.RmsClient.AddResponse | server/src/rms_client.cpp:34-37 | appends to the session's queue |
| Sessions.RmsClient.RunCommand | server/src/rms_client.cpp:39-63 | the command goes out with the id of its own new row; a failed insert sends nothing |
| Sessions.RmsClient.Report | server/src/rms_client.cpp:79-90 | the reply holds everything queued, in order, with its count, and the queue is empty after |
| Sessions.RmsClient.Handshake | server/src/rms_client.cpp:65-77 | the new computer object and the tables are those of Computers.Handshake |
| Sessions.RmsClient.SendSysInfo | server/include/rms/server/rms_client.h:54-57 | computer and tables are those of Computers.SendSys |
| ExecutorTables.ExecutorTable.Insert | server/include/rms/server/database/rms_database.h:256-259 | a successful insert appends an open row with a fresh id |
| ExecutorTables.ExecutorTable.Finish | server/include/rms/server/database/rms_database.h:261-265 | a successful update puts end time, code and return type of the result into the rows with the id, and changes no other column and no other row |
| Computers.RmsComputer.AddStorageDevice | server/src/rms_computer.cpp:41-59 | the first device with the path takes the report, else a dirty new device is appended |
| Computers.RmsComputer.SetSysInfo | server/src/rms_computer.cpp:236-250 | the dirty bit says whether one of the five compared fields differs from the old ones, and all reported devices are merged in order |
| Computers.RmsComputer.UpdateDB | server/src/rms_computer.cpp:287-328 | computer row and devices are flushed where dirty, statement by statement |
| Computers.RmsComputer.UpdateStorageTable | server/src/rms_computer.cpp:316-325 | each dirty device is written, and is clean exactly if its statement succeeded |
| Computers.RmsComputer.AddToDB | server/src/rms_computer.cpp:101-140 | a new row with a fresh id, then a row per device |
| Computers.RmsComputer.AddStorageRows | server/src/rms_computer.cpp:121-135 | each device gets a fresh row id, or stays dirty if its insert failed |
| Computers.RmsComputer.GetFromDB | server/src/rms_computer.cpp:141-227 | loads row and devices, adds the computer if the id has no row, and does nothing on a failed query |
| Computers.RmsComputer.LoadStorage | server/src/rms_computer.cpp:199-222 | a device per row, in row order, with the row's columns, but with free 0, not connected and clean |
| Database.FreshId | server/include/rms/server/database/rms_database.h:76-86 | a new primary key is positive and larger than all others |
| Database.SelectComputer | server/include/rms/server/database/rms_database.h:110-111 | only rows with the id, and none exactly if there is none |
| Reconciliation.TrackLast | server/src/rms_computer.cpp:24-39 | after several entries for its path a device holds the last one, and is dirty exactly if that one differs from what it was compared with |
| Reconciliation.TakenIsDirty | server/src/rms_computer.cpp:24-39 | a device takes the fields of an entry, and is dirty exactly if one of them differs |
| Reconciliation.MergeAllAt | server/src/rms_computer.cpp:41-59 | merging a report updates each known device by its own entries only and appends the unknown ones without a row |
| Reconciliation.FlushUnder | server/src/rms_computer.cpp:316-325 | under any outcomes of the statements: the n-th dirty device has the n-th statement, its row is written and it is clean exactly if that succeeds, and nothing else changes |
| Reconciliation.FlushAt | server/src/rms_computer.cpp:316-325 | the flush writes exactly the rows of dirty devices and cleans all devices |
| Reconciliation.DeviceRowUnder | server/src/rms_computer.cpp:296-325 | for any report and any outcomes: a reported device's row shows its last entry exactly when that entry changed the device and its statement succeeded, or the row was right; a dirty bit left from before counts only if the device is not reported |
| Reconciliation.DeviceRowAfterReport | server/src/rms_computer.cpp:296-325 | for any report, duplicates included: a reported device's row shows its last entry exactly when that entry changed the device or the row was right; an unreported one is written exactly if it was dirty |
| Reconciliation.SendSysParts | server/include/rms/server/rms_client.h:54-57 | a report with successful statements leaves a clean computer, the merged devices, and the tables flushed accordingly |
| WriteBack.SelectiveFlushIsRewrite | server/src/rms_computer.cpp:317-325 | flushing dirty devices equals rewriting all devices exactly when every clean device agrees with its row |
| WriteBack.ReportKeepsSync | server/src/rms_computer.cpp:296-325 | a report without repeated paths keeps a device in sync with its row, and brings one it changes into sync; the device keeps its row id and path, and the rows their ids |
| WriteBack.SessionKeepsSync | server/include/rms/server/rms_client.h:54-57 | through any sequence of such reports a device once in sync stays in sync, with the same row id and path |
| WriteBack.SessionRow | server/src/rms_computer.cpp:316-325 | over such a session the row of a device in sync shows the last entry reported for its path, if any, column by column, and agrees with the device |
| WriteBack.SessionComputerRow | server/src/rms_computer.cpp:229-238 | the computer row shows a report exactly when the report changed the compared fields or the row was right |
| WriteBack.RepeatsNeverWrite | server/src/rms_computer.cpp:27-38 | reports that repeat what a device holds never write its row, dirty or stale as it may be, for any number of reports and any outcomes |
| WriteBack.LastChangeDecides | server/src/rms_computer.cpp:296-325 | under any outcomes, after a report and any number of repetitions of it the row shows it exactly when it changed the device and its own statement succeeded, or the row was right before |
| WriteBack.FailedUpdateIsForgotten | server/src/rms_computer.cpp:27-32 | a failed update followed by the same report leaves a clean device with a stale row |
| WriteBack.RepeatedPathIsForgotten | server/src/rms_computer.cpp:24-39 | a concrete report that names a path twice with the same new entry is not written |
| Handshakes.HandshakeComputerRow | server/src/rms_client.cpp:65-77 | for an id with a row: the row shows the report exactly when the loaded fields differed or the row was right; other computers' rows stay |
| Handshakes.HandshakeRefreshesComputer | server/src/rms_computer.cpp:179-184 | a row left by an earlier report shows the new one unless only the architecture changed, and to x86-64 |
| Handshakes.ArchitectureIsMissed | server/src/rms_computer.cpp:179-184 | a concrete change from Arm to x86-64 is not written |
| Handshakes.LoadedOwnRow | server/src/rms_computer.cpp:147-185 | loading a row that an update wrote gives the written fields back, except that the architecture is x86-64 |
| Handshakes.RowColumns | server/include/rms/server/database/rms_database.h:94-110 | the computer row column by column: what an update writes is the report, and what addToDB inserts is the report with the client version major.major.release |
| Handshakes.HandshakeStorageRow | server/src/rms_computer.cpp:196-227 | every storage row after the handshake: other computers' and unreported rows stay; a reported one shows the last entry exactly under the stated comparison |
| Handshakes.FullDeviceIsNotWritten | server/src/rms_computer.cpp:199-222 | a concrete file system that fills up keeps its old row |
| Handshakes.HandshakeRefreshesStorage | server/src/rms_client.cpp:68-71 | with distinct paths and non-zero free, each reported device with a row has its row equal to the report, column by column |
| Handshakes.HandshakeThenSession | server/include/rms/server/rms_client.h:54-57 | from such a handshake on, through any later reports without repeated paths, the row shows the last entry reported for its path, column by column, and agrees with its clean device |
| Identities.AddParts | server/src/rms_computer.cpp:101-140 | adding a computer appends one row and a row per device, and keeps primary keys, foreign keys and distinct paths |
| Identities.AddDevicesUnder | server/src/rms_computer.cpp:120-135 | under any outcomes device i has the i-th insert: it gets a new row with its fields, whose id it takes, or stays without one and dirty |
| Identities.AddUnder | server/src/rms_computer.cpp:101-118 | without the computer's row nothing else is tried |
| Identities.SendSysTidy | server/src/rms_computer.cpp:287-328 | a report adds no row and keeps the tables tidy |
| Identities.FirstHandshake | server/src/rms_computer.cpp:102-113 | id -1 gets a new row: the report, column by column, with the client version major.major.release, so that it shows the report exactly when major and minor agree; every merged device gets a storage row, and is in sync with it |
| Identities.FirstRows | server/src/rms_computer.cpp:120-135 | the new storage rows, column by column: the last entry for each reported path |
| Identities.FirstDevices | server/src/rms_computer.cpp:41-59 | the merged devices of a first report: one for each reported path, with the last entry for it |
| Identities.MajorPrintedTwice | server/src/rms_computer.cpp:106-108 | client version 2.0.0 is inserted as 2.2.0 |
| Identities.UnknownHandshake | server/src/rms_computer.cpp:186-193 | an id without a row gets a new row that shows the report; the storage table does not change, and no device has a row |
| Identities.UnknownNeverStored | server/src/rms_computer.cpp:316-325 | and it does not change in the rest of the session, whatever is reported |
| Identities.HandshakeIdentity | server/src/rms_client.cpp:65-77 | a handshake ends at an existing row: the presented one if it exists, else exactly one new row |
| Identities.PresentedIdentity | server/src/rms_computer.cpp:19 | the same for every 64-bit id, of which the constructor keeps 32 bits; an id that becomes -1 there ends at no row and changes nothing |
| Identities.HandshakeUnder | server/src/rms_computer.cpp:141-227 | under any outcomes, a handshake of a known computer is a report to what its two queries loaded: nothing, a computer without devices, or all |
| Identities.FailedQueryNeverStores | server/src/rms_computer.cpp:199-226 | if one of the two queries fails, no reported device is written in the whole session |
| Identities.IdentityIsStable | server/src/rms_client.cpp:65-77 | presenting the returned id again and again returns it and adds no row |
| ReporterIdentity.ReadId | reporter/common/src/request_client.cpp:160-161 | the configured id, or none where std::stol throws |
| ReporterIdentity.AdoptId | reporter/common/src/request_client.cpp:164-167 | a different returned id replaces the configured one and is saved: the file then reads back as the configuration, unless it cannot be written |
| ReporterIdentity.Greet | reporter/common/src/request_client.cpp:155-169 | after a completed handshake configured id and session id agree, and are that of an existing row (unless the presented id narrows to -1); the file holds the configuration if the id changed and the file can be written, else what it held |
| ReporterIdentity.Launch | reporter/common/src/main.cpp:17-21 | a process that loads its file and greets leaves the returned id in the file exactly if that is the presented id or the file can be written |
| ReporterIdentity.Relaunch | reporter/common/src/main.cpp:17-21 | exactly when a second process from what the first one left on disk ends at the same id (SameAgain: the first kept its narrowed id, or could write its file), and which rows the two add |
| ReporterIdentity.RestartsAdd | reporter/common/src/request_client.cpp:160-167 | how many computer rows any number of restarts add, for every 64-bit id: none for an id with a row, one with a writable file, one per process without, until the keys reach the id in the file; and the case of an id that narrows to -1 |
| ReporterIdentity.UnwritableConfig | common/src/rms_config.cpp:59-61 | from id -1 and an empty database, any number of processes make one row with a writable file, and one row each with one that is not |
| Text.ReadIntText | server/src/rms_computer.cpp:157-159 | a printed integer is read back, up to the next character, exactly when it fits the width |
| Text.ReadWholeInt | reporter/common/src/request_client.cpp:161-165 | std::stol undoes std::to_string within the width |
| Version.ParsePrint | server/src/rms_computer.cpp:155-170 | reading a printed version gives the triple, or fails if a number does not fit |
| Version.PrintSample | server/include/rms/server/database/rms_database.h:68 | 2, 10 and -1 print as 2.10.-1 |
| Version.VersionRoundTrip | server/include/rms/server/database/rms_database.h:68 | the reader returns the printed triple exactly when all three are 32-bit, negative ones included |
| Version.PrintInjective | server/src/rms_computer.cpp:298-303 | equal version texts mean equal versions |
| Config.RoundTrip | common/src/rms_config.cpp:49-88 | for every iteration order, load of save is the identity exactly on maps whose entries are whitespace-free and whose empty key has an empty value |
| Config.ParseSaved | common/src/rms_config.cpp:72-80 | a saved entry is parsed back, empty values included |
| Config.LoadKeepsWellFormed | common/src/rms_config.cpp:65-82 | whatever the file holds, load keeps a map well-formed |
| Config.OldEntriesStay | common/src/rms_config.cpp:80 | a key of the old map keeps its value, whatever the file holds |
| Config.FirstLineWins | common/src/rms_config.cpp:72-80 | any other key of the file gets the value of its first line |
| Config.NoOtherKeys | common/src/rms_config.cpp:72-80 | and no other key appears |
| Config.RmsConfig.Find | common/src/rms_config.cpp:29-32 | returns the stored value, creating an empty one; nothing if not set up |
| Config.RmsConfig.Replace | common/src/rms_config.cpp:91-97 | sets the entry; nothing if not set up |
| Config.RmsConfig.Save | common/src/rms_config.cpp:49-62 | the file becomes the text of the map in some iteration order; unwritable files stay |
| Config.RmsConfig.Load | common/src/rms_config.cpp:65-88 | adds the file's entries, first line of a key and existing keys winning; an unreadable file fails |
| Config.SaveAndReload | common/src/rms_config.cpp:49-88 | what one process saves, a new one with an empty map loads as the same map |
| Usage.WindowIsLast61 | server/include/rms/server/rms_computer.h:60-64 | the window after n points is the last min(n, 61) of them |
| Usage.AverageIsMean | server/include/rms/server/rms_computer.h:54-57 | the average times the number of points is their sum, and it is a number exactly if there are points and their sum is one |
| Usage.SumConcat | server/include/rms/server/rms_computer.h:54-57 | the sum is additive over concatenation |
| Usage.SumOrder | server/include/rms/server/rms_computer.h:54-57 | and does not depend on the order of the points, as std::reduce requires |
| Usage.SumOne | server/include/rms/server/rms_computer.h:54-57 | the sum of one point is the point |
| Usage.AverageBetween | server/include/rms/server/rms_computer.h:54-57 | the average of finite points lies between any bounds of them |
| Usage.FiniteSum | server/include/rms/server/rms_computer.h:54-57 | the sum is finite exactly if every point is |
| Usage.UsageContainer.AddPoint | server/include/rms/server/rms_computer.h:60-64 | slides the window by the point |
| Usage.UsageContainer.GetData | server/include/rms/server/rms_computer.h:54-57 | the loop over the points gives a number exactly if every point is one; an averaging container gives the mean: times the number of points it is their sum, and it lies between any bounds of them |
| Usage.UsageInfo.AddUsageInfo | server/include/rms/server/rms_computer.h:146-158 | for any interleaving of calls: there is one container for each key, in the order of first points, and each is non-empty and holds the window of exactly its key's points |
| UsageTables.PushKeepsUnique | server/src/rms_computer.cpp:360-374 | one row per (date, type, id) is kept exactly unless the SELECT fails, the INSERT succeeds and the row exists |
| UsageTables.FailedSelectDuplicates | server/src/rms_computer.cpp:360-374 | a failed SELECT makes a second row of any row |
| UsageTables.UpdateHitsOneRow | server/src/rms_computer.cpp:375-381 | with successful statements every update hits exactly one row, at any hour |
| UsageTables.PushWritesOneCell | server/src/rms_computer.cpp:360-381 | a push writes its own cell, if the average is finite, and no other |
| UsageTables.PushUnder | server/src/rms_computer.cpp:360-381 | under any outcomes a push writes its cell exactly if the value is a number, the update succeeds and the row was there or was inserted, and no other cell |
| UsageTables.LookupIsCell | server/include/rms/server/database/rms_database.h:215-237 | the cell read is the hour's column of the row with the date and key |
| UsageTables.TableIsLastWriter | server/src/rms_computer.cpp:330-391 | over any run of pushes of any computers the table is unique and equals the last-writer map of (date, type, id, tick) |
| UsageTables.LastWriterIsLast | server/src/rms_computer.cpp:330-391 | the last writer's value is that of the last write for the cell |
| UsageTables.NoWriter | server/src/rms_computer.cpp:330-391 | and there is none, if no write was for the cell |
| UsageTables.PushAllConcat | server/src/rms_computer.cpp:330-391 | pushes of one computer after another are one longer run |
| UsageTables.PushUsageToDB | server/src/rms_computer.cpp:330-391 | pushes, for each key in the order of first points, the average of the window of its points, with a check before every update, as no container is ever known to have its row |
| UsageTables.WriteIsMean | server/include/rms/server/rms_computer.h:54-64 | each write is for this day and hour, and holds the mean of the last 61 points with its key: a number exactly if all of them are, and times their number their sum |
| UsageTables.EveryKeyIsWritten | server/src/rms_computer.cpp:337 | every key that ever had a point has its write, and no key has two |
| UsageTables.PushContainer | server/src/rms_computer.cpp:360-381 | check and insert if absent, unless the container is known to have its row and the hour is not 0; then update, statement by statement |
| Schedulers.AfterPushes | server/src/ingestor/request_db_ingestor.cpp:82-96 | after k pushes: tick (h0 + k) mod 24, deadline boot + 300 s + k * 3600 s in nanoseconds, push i strictly after its own deadline |
| Schedulers.DayOfPushes | server/src/ingestor/request_db_ingestor.cpp:94 | any 24 consecutive pushes write each hour of the day once |
| Schedulers.OneDatum | server/src/ingestor/request_db_ingestor.cpp:82-96 | one datum pushes exactly if a deadline has passed, and shortens the backlog by one |
| Schedulers.CatchUp | server/src/ingestor/request_db_ingestor.cpp:82-96 | n data work off the backlog up to n pushes and never overtake the passed deadlines |
| Ingestors.DbRequestIngestor.IngestRequestData | server/src/ingestor/request_db_ingestor.cpp:33-97 | points (Routed), executor row, scheduler and usage table after one datum |
| Ingestors.PointsRouted | server/src/ingestor/request_db_ingestor.cpp:38-61 | what one datum adds: CPU entry i to (Cpu, i), the used share of RAM to (Ram, 0), of swap, if there is any, to (Ram, 1), and nothing for other kinds |
| Ingestors.IngestRequest | server/src/ingestor/request_ingestor.cpp:23-35 | all data in order, results under any outcomes of their statements; the usage table takes the averages of the points so far at every deadline that has passed; percentages in keep every window point and every stored tick a percentage |
| Ingestors.IngestTurns | server/src/ingestor/request_ingestor.cpp:23-35 | requests of any number of computers, one after the other: each computer's windows hold its own points only, and all push into the one table by the one schedule |
| Ingestors.IngestedIsLastWriter | server/src/ingestor/request_db_ingestor.cpp:33-97 | for any requests of any computers in any order: one row per (date, type, id), and each cell holds what the last push of any computer wrote, the average of that computer's window |
| Ingestors.GoodDataGoodPoints | server/src/ingestor/request_db_ingestor.cpp:38-61 | CPU shares and RAM readings with 0 <= free <= total, total > 0 give points in [0, 100] |
| Ingestors.AveragesWithin | server/include/rms/server/rms_computer.h:54-57 | then every window average is in [0, 100] |
| Ingestors.PushAllWithin | server/src/rms_computer.cpp:375-381 | and every stored tick |
| CpuReporters.CpuReporter.Report | reporter/linux/src/reporter/cpu_reporter.cpp:41-76 | core count + 1 entries, each the time in user, nice and system mode in percent of the time in all seven, between the counters in effect at its line |
| CpuReporters.EffectiveIsLast | reporter/linux/src/reporter/cpu_reporter.cpp:46-54 | the counters in effect at a line are those of the last line up to it that matched |
| CpuReporters.ShareWithin | reporter/linux/src/reporter/cpu_reporter.cpp:66-75 | with monotone counters and a positive total every entry is in [0, 100], for unmatched lines too |
| Executors.RedeliveryInvisible | server/src/ingestor/request_db_ingestor.cpp:64-76 | a request ingested again with the same outcomes does not show in the executor table |
| Executors.RedeliveryRepairs | server/src/ingestor/request_db_ingestor.cpp:64-76 | under any outcomes the table is that of the log without repeats in which a statement succeeds if it did in one of the repeats |
| Executors.FinishedExactly | reporter/common/src/executor/executor.cpp:44-58 | in every run and under any outcomes, an open row with a result in the log holds end time, code and return type of that result, its other columns unchanged, exactly if the statement of one of its deliveries succeeded, and is open if none did |
| Executors.FinishedOnce | reporter/common/src/executor/executor.cpp:44-58 | in every run and under any outcomes, an open row is finished at most once and never changed after |
| Registry.RmsServer.AddClient | server/src/rms_server.cpp:93-96 | appends the session |
| Registry.RmsServer.RemoveClient | server/src/rms_server.cpp:97-107 | removes every session with the id, keeping the order of the others |
| Registry.RmsServer.GetClient | server/src/rms_server.cpp:83-91 | the oldest session with the id, null exactly if there is none |
| Registry.RmsServer.GetClientsIdList | server/src/rms_server.cpp:73-81 | the ids in order |
| Registry.RegistrySafe | server/src/rms_client.cpp:96-118 | in every run the registry holds live sessions only, in connection order |
| Registry.ReleaseExact | server/src/rms_server.cpp:97-107 | a release keeps the registry equal to the live sessions exactly when no other live session has the id |
| Registry.RegistryIsLive | server/src/rms_server.cpp:93-107 | with that at every release, the registry is the live sessions |
| Registry.ReconnectedSessionVanishes | server/src/rms_client.cpp:96-101 | a session that reconnected with the same id vanishes when the old one is released |

## Left out

- Thrift, sockets and generated code: a call is one atomic step that may fail before or after the server's effect. A request that the server would process only after the reporter has reconnected is therefore not covered.
- Two of the core files are modelled on values, as a machine, and not as classes: the threads of `reporter/common/src/request_client.cpp` together with `RmsReporterClient::start`/`stop` and `Consumer::start`/`stop`. The parts of `RequestClient` without interference are also classes, related to the machine by WorkerTakesTurn and ProducerSends.
- StopReturnsExact: assumes, as EverythingIsDelivered does, that no handshake and no sendSysInfo throws: in the code such an exception leaves the worker's thread function and ends the process, so that neither statement has a meaning after it.
- The semaphore is read as a counter. What an implementation does on a release at its maximum is not modelled.
- SQLite and SQL text: tables are sequences of rows, `success` is the outcome of preparing a statement, and a statement that prepares but fails in its step is not modelled. Strings are opaque except versions.
- FirstHandshake: assumes version numbers that fit 32 bits, as their type in the messages says; so do the other handshake lemmas that compare version texts.
- Greet: assumes, as its contract says, that the next computer row id fits 32 bits; `last_id` and `computer_id_` are ints.
- GetFromDB: `std::stoi` throwing on a stored total of 2^31 or more is not modelled, nor is the conversion of a negative `free` to unsigned. The boolean results of `addToDB`, `getFromDB` and `updateDB`, which no caller reads, are dropped.
- PushUsageToDB: containers have ids >= 0; the branch for id -1 is left out because the ingestor never creates such containers and its statements would touch every row of the type. Values are real numbers, without rounding in sums or in the printed `{:f}`.
- Network devices: no statement reads or writes them. Devices that appear at an already known computer are never inserted, which the model follows.
- A new handshake replaces `computer_` and with it the usage windows; the windows are modelled from one such point on.
- Ingest is atomic: two sessions interleaving inside one push are not modelled, as the source asks for serial ingest.
- `CommandExecutor`, reading of `/proc`, `statfs` and `getifaddrs`, `reportExecutorData`, the terminal, logging, `toString`, `LogRequestIngestor` and the main functions.
- `server/tcp_server.py`, `common/src/sys_info_data.cpp`, `reporter/common/src/consumer/sys_consumer.cpp` and the ingestor headers directly under `server/include/rms/server`: not part of the build, or superseded.
