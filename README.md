# Faktory job lifecycle core, in Dafny

This project models the core of the Faktory job broker (hunter-io/faktory) and
proves properties of that model:

- **Worker registry** (`workers.dfy`, module `Workers`). Each client process
  has a record (`ClientData`) with its lifecycle state. Signals move a worker
  `Running -> Quiet -> Terminate` and never backward. The registry (`Registry`,
  the server's `workers` table) registers workers on heartbeat, detaches
  connections, and reaps workers whose last heartbeat is older than a cutoff.
  The reaper reports every connection of a reaped worker to be closed, each
  exactly once.
- **Queue store** (`storage.dfy`, module `Storage`). Named queues are checked
  against the queue-name charset and created on first reference. Each queue is
  a class whose `Push`, `Pop`, `BPop` and `Clear` update its contents in
  place, and whose `Each` reads them. The store also holds the scheduled set.
  Pops return payloads in push order (`Drain`, `DrainPushAll`).
- **Manager** (`manager.dfy`, module `Manager`). `Push` validates a job, then
  either schedules it or enqueues it with an enqueue timestamp. `Fetch`
  validates the queue names and takes the oldest job from the first listed
  queue that has one; with nothing to take, a cancelled context is an error.
  - Both are first defined as pure functions of the store's contents
    (`PushSpec`, `FetchSpec`), with their meaning stated in their contracts.
  - They are then implemented as methods on the store's objects, proved to
    match those functions.
  - Module `ManagerScenarios` states the manager's documented scenarios for
    every store that matches each scenario's setup.
- **Reply encoder** (`resp.dfy`, module `Resp`; `connection.dfy`, module
  `Connections`). These are the replies a connection writes: `+OK`, integers,
  bulk strings with a distinct nil form, and `-ERR` errors, framed as in RESP2.
  A decoder sits beside the encoder. The two are proved inverse in both
  directions on well-formed replies.

`wrappers.dfy` holds the `Option` and `Result` types.

Time is an integer clock passed in by the caller (`now`, `cutoff`). A context
is reduced to a `cancelled` flag.

Ordering of same-priority pushes: payloads pushed at one priority pop in
push order. In the queue tests, "hello" is pushed before "world" and is popped
first, and the heavy test pops "first" first and "last" last. Each queue in
the model is therefore first-in first-out.

## Model

| member | source | states |
|---|---|---|
| Workers.NextState | server/workers.go:104-120 | the state never moves back in the lifecycle order; the result is either the old state or the requested one; a request that moves forward is taken; Terminate stays Terminate |
| Workers.ClientData.Signal | server/workers.go:104-120 | the worker's new state is the transition-table result for its old state and the requested one |
| Workers.SignalsNeverMoveBack | server/workers.go:43-46 | after any sequence of signals, the state is at least as far along the lifecycle as before |
| Workers.QuietIsPermanent | server/workers.go:43-46 | no sequence of signals brings a quiet or terminating worker back to running |
| Workers.TerminateIsAbsorbing | server/workers.go:117-119 | a terminating worker stays terminating whatever signals follow |
| Workers.StateString | server/workers.go:75-84 | the reported name is empty exactly for a running worker |
| Workers.ClientData.IsQuiet | server/workers.go:96-98 | a worker is quiet exactly when it has reached Quiet or later in the lifecycle |
| Workers.ClientData.IsConsumer | server/workers.go:122-124 | a client consumes jobs exactly when it announced a non-empty worker id |
| Workers.ClientData.constructor | server/workers.go:51-65 | a new record carries the announced identity, runs, and holds no connections |
| Workers.Registry.constructor | server/workers.go:131-135 | a new registry is empty |
| Workers.Registry.Count | server/workers.go:137-141 | the count is the number of distinct registered worker ids |
| Workers.Registry.Heartbeat | server/workers.go:143-174 | accepted exactly when the worker is known or came over a connection; a known worker's stored record gets the new heartbeat time and nothing else changes; an unknown one is registered with start and heartbeat time now and that connection only; a refused one changes nothing; every record stays filed under its own id |
| Workers.Registry.RemoveConnection | server/workers.go:176-183 | the connection leaves its worker's record, the record stays registered, and nothing else changes |
| Workers.Registry.ReapHeartbeats | server/workers.go:185-216 | exactly the workers whose heartbeat is before the cutoff are removed; the count returned is how many, which is also how much the registry shrank; every connection of a removed worker is reported for closing exactly once, and no other |
| Workers.Registry.StaleList | server/workers.go:186-195 | the ids collected are exactly the stale workers, each once |
| Workers.CloseRequests | server/workers.go:200-205 | one close request per connection of the worker, none repeated |
| Storage.Queue.Push | storage/queue_test.go:29-35 | the payload becomes the newest item and the size grows by one |
| Storage.Queue.Pop | storage/queue_test.go:23-49 | an empty queue yields nothing and no error; otherwise the oldest payload is returned and removed, and the size drops by one |
| Storage.Queue.BPop | storage/queue_test.go:176-195 | a cancelled context returns its error at once with no data and the queue untouched; otherwise it pops like Pop |
| Storage.Queue.Each | storage/queue_test.go:37-44 | the callback sees every payload with its index, newest first |
| Storage.Queue.Clear | storage/queue_test.go:51-54 | the queue is empty afterwards |
| Storage.Queue.Size | storage/queue_test.go:23-35 | the size is the number of items held |
| Storage.DrainPushed | storage/queue_test.go:29-49 | a pushed payload is popped after everything already in the queue |
| Storage.DrainPushAll | storage/queue_test.go:79-123 | pushing a run of payloads makes them pop after the existing ones, in push order |
| Storage.PushAllNewestFirst | storage/queue_test.go:37-44 | after a run of pushes, index i holds the i-th most recent payload |
| Storage.PushEach | storage/queue_test.go:85-99 | the queue afterwards holds the payloads pushed one by one on top of what it held |
| Storage.PopEach | storage/queue_test.go:106-118 | the payloads popped are the next ones in pop order, and the queue shrinks by one per pop |
| Storage.PushAllThenPopAll | storage/queue_test.go:79-123 | pushing payloads onto an empty queue and popping as many returns them in push order, and one more pop finds nothing |
| Storage.BasicQueueOps | storage/queue_test.go:18-55 | the basic walk-through: the empty pop, the sizes after each step, the order Each visits in, and the payload popped |
| Storage.QueueNameExamples | storage/queue_test.go:56-76 | the listed names are accepted or rejected by the name rule as the test expects |
| Storage.Store.constructor | manager/manager_test.go:340-344 | a new store has no queues and nothing scheduled |
| Storage.Store.GetQueue | storage/queue_test.go:56-76 | succeeds exactly for valid names, failing with the name otherwise; the same handle comes back for the same name; a first reference adds a new empty queue; no contents change |
| Storage.Store.Schedule | manager/manager_test.go:106-113 | the entry joins the scheduled set and its size grows by one |
| Storage.Store.ScheduledSize | manager/manager_test.go:106-113 | the size is the number of scheduled entries |
| Manager.Validate | manager/manager_test.go:37-94 | no error exactly when the id is long enough, the type is non-empty, the arguments are present and the queue name is valid; a short id is reported first |
| Manager.NewJob | manager/manager_test.go:79-94 | a new job goes to the default queue at the default priority, runs now, is not stamped, and has no argument list when built with no arguments |
| Manager.Job.constructor | manager/manager_test.go:79-94 | the job object holds the fields NewJob describes |
| Manager.PushSpec | manager/manager_test.go:20-153 | a rejected push changes neither the store nor the job; an unparsable time is rejected after the other checks; a future job joins the scheduled set unstamped; any other accepted job is stamped with now and becomes the last to be popped from its queue, with every other queue unchanged |
| Manager.Manager.constructor | manager/manager_test.go:22 | the manager works over the given store with the given minimum id length, which is at least 8 |
| Manager.Manager.Push | manager/manager_test.go:20-35 | the error, the store's new contents and the job's new fields are those PushSpec gives for the old store and job |
| Manager.FetchSpec | manager/manager_test.go:155-237 | no names is an error; a bad name is an error; otherwise the oldest job of the first listed non-empty queue is taken and only that queue changes; with all queues empty, a cancelled context is an error and a live one returns nothing without error |
| Manager.FirstReady | manager/manager_test.go:223-236 | the index found is the first listed queue that holds a job, and every queue before it is empty; none is found only when all are empty |
| Manager.FirstInvalid | manager/manager_test.go:223-225 | the index found is the first name outside the charset; none is found only when all names are valid |
| Manager.Manager.Sweep | manager/manager_test.go:223-236 | looking the queues up changes no contents, and finds the first listed queue that holds a job |
| Manager.Manager.Fetch | manager/manager_test.go:155-196 | the job, the error and the store's new contents are those FetchSpec gives for the old store |
| Manager.PushMessagesSayPush | manager/manager_test.go:270-280 | every error raised while checking the job itself contains "push:" |
| Manager.QueueMessageNamesQueue | manager/manager_test.go:310-321 | the queue-name error contains "enqueue:" and the offending name |
| ManagerScenarios.PushThenFetch | manager/manager_test.go:155-174 | a job pushed to an empty queue is stamped, sizes the queue at one, and is fetched back with the same id, leaving the queue empty |
| ManagerScenarios.FetchFromMultipleQueues | manager/manager_test.go:198-237 | two jobs on two empty queues come back one per fetch, in the order the queues are listed, with the sizes the test expects |
| ManagerScenarios.ShortJidsRejected | manager/manager_test.go:37-60 | the ids "", "id" and "shortid" are rejected, with no change to the store or the stamp |
| ManagerScenarios.IncompleteJobsRejected | manager/manager_test.go:62-94 | a job with no type, or built with no arguments, is rejected with a push error and changes nothing |
| ManagerScenarios.FutureJobScheduled | manager/manager_test.go:96-115 | a future job leaves its queue alone, grows the scheduled set by one and stays unstamped |
| ManagerScenarios.PastJobEnqueued | manager/manager_test.go:117-134 | a past-due job is enqueued at once and stamped |
| ManagerScenarios.InvalidTimeRejected | manager/manager_test.go:136-153 | an unparsable time is rejected with a push error and changes nothing |
| ManagerScenarios.InvalidQueueRejected | manager/manager_test.go:310-321 | a bad queue name is rejected by the enqueue step, the message names the queue, and nothing changes |
| ManagerScenarios.FetchWithoutQueues | manager/manager_test.go:282-289 | a fetch with no queue names is an error and changes nothing |
| ManagerScenarios.EmptyFetch | manager/manager_test.go:176-196 | a fetch from an empty queue with a live context returns no job and no error |
| ManagerScenarios.CancelledFetch | manager/manager_test.go:291-308 | a fetch from an empty queue with a cancelled context returns no job and the cancellation error |
| Resp.OkReply | server/connection_test.go:20-21 | the acknowledgement is "+OK" followed by CRLF |
| Resp.NumberReply | server/connection_test.go:23-24 | an integer is written in canonical decimal after ':' |
| Resp.ResultReply | server/connection_test.go:26-30 | nil data has its own form "$-1"; data is framed by its length |
| Resp.RepliesReadBack | server/connection_test.go:20-33 | each reply a connection writes reads back as what was meant: the acknowledgement, the same integer, the same data or its absence (nil and empty data stay distinct), and a one-line error message |
| Resp.ErrorReply | server/connection_test.go:32-33 | the message follows "-ERR "; the command label does not reach the wire |
| Resp.NumberExample | server/connection_test.go:23-24 | 123 is written as ":123" with CRLF |
| Resp.NilExample | server/connection_test.go:26-27 | nil is written as "$-1" with CRLF |
| Resp.BulkExample | server/connection_test.go:29-30 | the 14-byte payload is written with length 14 |
| Resp.ErrorExample | server/connection_test.go:32-33 | the error text is written after "-ERR " |
| Resp.ParseDecimal | server/connection_test.go:23-24 | every integer's decimal form parses back to it |
| Resp.DecimalOfParse | server/connection_test.go:23-24 | every numeral the parser accepts is the canonical decimal form of its value |
| Resp.DecodeEncode | server/connection_test.go:15-37 | every well-formed reply reads back as itself |
| Resp.EncodeDecode | server/connection_test.go:15-37 | every string the decoder accepts is exactly the encoding of the reply it yields |
| Connections.Connection.constructor | server/connection_test.go:67-76 | a new connection remembers its client's worker id, has written nothing and is open |
| Connections.Connection.Ok | server/connection_test.go:20-21 | appends "+OK" with CRLF to what was written |
| Connections.Connection.Number | server/connection_test.go:23-24 | appends the integer reply |
| Connections.Connection.Result | server/connection_test.go:26-30 | appends the bulk reply, or the nil form |
| Connections.Connection.Error | server/connection_test.go:32-33 | appends "-ERR ", the message and CRLF |
| Connections.Connection.Close | server/connection_test.go:35-36 | closes the connection and writes nothing more |

## Left out

- Locking (`sync.RWMutex`), goroutines and the threaded and concurrent-iteration tests: the model is sequential. In particular, Heartbeat's second lookup under the write lock cannot find a record that the first lookup missed.
- Wall-clock time: every `time.Now()` is the caller's `now`. Heartbeat's two separate clock reads for the start time and the heartbeat time become one value.
- The Redis backing store, `Flush`, `Close`, `BootRedis` and `Open` are not modelled. Queue contents are sequences held by the queue objects.
- JSON: job payloads are stored as `JobData` values rather than serialized bytes, and `clientDataFromHello` (JSON decoding of a HELLO) is not modelled.
- ISO-8601 parsing of `at`: the field is `Schedule` (`Immediate`, or `At` holding the parsed instant or `None` when the text does not parse).
- `RandomJid`: the tests' generated ids are modelled as any id of at least the minimum length.
- The minimum jid length: the tests only show that ids of 7 characters or fewer are rejected. The model takes it as a manager constant of at least 8.
- Storage.Queue.Push: the priority argument is accepted but does not affect order. Payloads of all priorities share one tier, so no cross-priority ordering is modelled.
- Storage.Queue.Clear: the count it returns is not modelled. The test expects 0 after clearing a one-item queue, and the store implementation that decides this is not part of this model.
- Storage.Queue.Each: the callback's error return and early stop are not modelled. The method returns the (index, payload) pairs the callback would see.
- Storage.Queue.BPop: the bounded wait and jobs arriving during it (FetchAwaitsForNewJob) are not modelled. A live context pops once; an empty queue then gives nothing, as a timeout does.
- Storage.EachQueue is not modelled; it only appears in the concurrent-iteration test.
- Manager.PushSpec: the queue name is checked together with the other job checks, before `at` is read and for future jobs as well. A push path that checked the name only in the enqueue step (where the "enqueue:" tag suggests the check lives) would schedule a future job for a badly named queue; the model rejects it.
- Manager.PushSpec: an empty queue name is rejected as an invalid name. No default of "default" is applied at push time; only NewJob sets that queue.
- Resp.ResultReply: the payload is a `string` in which each character stands for one byte of the `[]byte` the server writes, so the bulk length counts bytes only for characters in 0..255. Multi-byte encodings are not modelled.
- Promotion of scheduled jobs into their queues is not modelled.
- Manager.Manager.Fetch: every queue name is checked before any queue is looked up, so a bad name anywhere in the list is an error even when an earlier listed queue holds a job. No test passes a bad name to Fetch, and a store that checked each name as it looked the queue up would return that earlier job instead.
- Manager.Manager.Fetch: when the context is cancelled and a listed queue already holds a job, the model takes the job. Cancellation is only reported when every listed queue is empty. The worker id argument is not used.
- Workers.Registry.ReapHeartbeats: closing a connection is reported as a (worker id, connection) pair in the returned log rather than performed on the connection object. The debug and warning log lines are left out.
- Workers.ClientData.Signal: the Go state is an `int`, so out-of-range values can be requested. The model's state type has only the three named states.
- `PasswordHash` and `Version` of `ClientData` are not modelled (authentication is outside the core).
- The server daemon bootstrap (`cmd/faktory/daemon.go`) is not part of this model.
