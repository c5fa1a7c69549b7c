# podinfo: models and proofs of its concurrent parts

podinfo is a small Go web service. Most of it is plumbing; this project models the parts whose
behaviour depends on interleavings, on events from outside, or on a loop that has to come out right,
and proves what they promise for every schedule and every input.

Goroutines are transition systems: a `State`, the atomic `Action`s of every goroutine and of the
world around it, `Enabled`, and a total function `Next` under which an action that is not enabled
changes nothing. A schedule is then any sequence of actions, and every theorem about runs quantifies
over all of them (`Runs.dfy`). Beside the transition systems stands code in the source's own form:
classes whose methods update fields and loop as it does. Each keeps, in `Valid()`, that its fields are
those of the transition system after a history of actions, so that the theorems about schedules speak
about its fields:

* `FsCache.Watcher` and `ConfigReader`, `CacheHandlers.Server`, `Metrics.PrometheusMiddleware` and
  `Lifecycle.Process` (for `Graceful`) run one goroutine, with any steps of the others between any two
  of its own;
* `EchoWs.Session` runs all goroutines on any schedule given, and `FanOut.Handler` under a scheduler
  that is free to choose;
* `StatusRecorder.Response` and `Interceptor` belong to one request and need no interference;
* the signal goroutine, the start-up and the health handlers are steps of the `Lifecycle` transition
  system only, without a method.

| file | what it models |
|---|---|
| `EchoWs.dfy` | the four goroutines of the WebSocket echo: no panic, order and conservation of messages, the exact conditions for getting stuck, for a clean end to be possible and for it to be inevitable |
| `FsCache.dfy` | the directory cache under a volume that is swapped beneath it: what it notices, when it starts, when it catches up, and its lock-free readers |
| `FanOut.dfy` | the backend fan-out: schedule independence, isolation of the timeout contexts, termination, trace wrappers lost |
| `CacheHandlers.dfy` | the Redis handlers as a linearizable map with expiry, and the lease of the version heartbeat |
| `Metrics.dfy` | the recorded status against the status on the wire, and conservation of the two metrics |
| `Labels.dfy` | the label of a URL path: specification by words and gaps, idempotence, collisions |
| `Lifecycle.dfy` | signals, health flags, and the ordered shutdown and the times it can take |
| `SizeFormat.dfy` | the content length formatter on 64-bit integers |

## Results that qualify what the code says of itself

* The WebSocket session has two ways to leave goroutines behind for good. Once a write has failed the
  writer is gone, and the next message of the client or the next tick blocks its sender on `in`; the
  request goroutine then never closes the connection (`ReaderAbandoned`). And in an orderly shutdown
  the host ticker blocks for good if the connection is closed while one frame is being written and a
  status waits behind it (`TickerOvertaken`). `CanFinishExactly` shows that there are no other ways: a
  session can still end cleanly if and only if neither has happened. It is sure to if and only if the
  ticker has seen `done` (`InevitableExactly`).
* `NewWatch` says the cache is updated "when any file changes". It reacts to the creation of `..data`
  only: a change is noticed if and only if it is announced by such an event (`NoticedExactly`).
* A swap during the very first update can make `NewWatch` fail although the volume is in order before
  and after it; nothing tries again, so `/configs` then stays empty (`FirstUpdateTorn`). It fails if
  and only if registering, listing or reading fails before the first update is complete, where reading
  a listed name that is no longer a file fails (`NewWatchFailsExactly`).
* The comment in `updateCache` says symbolic links are ignored. A link is not a directory to
  `IsDir`, so it is read like a file; the model follows the code (a link to a directory is `Opaque`
  and makes the update fail).
* A `/configs` response during a reload may mix the old and the new contents in any combination
  (`ViewOfOneReload`), though it never misses a key of both nor shows a key of neither.
* The captured `ctx` of the fan-out is reassigned without synchronisation. This loses trace wrappers
  (`WrapperLost`), unless every goroutine finds the context as it had loaded it when it writes it back
  (`Wrappers`, an equivalence); it never lets a timeout context into it, which is what the other
  results rest on.
* `ErrorResponse` ignores the code it is given and always sends status 200. A request gets status 200
  with an error in the body if and only if there is no cache server or it is a write that fails
  (`ErrorsAs200`); failing deletes and reads are told by their status.
* A cache read can answer 500 without any failing command (`ReadLosesRace`): if and only if the key is
  there at its EXISTS and gone at its GET (`ReadReplies`).
* The version key is refreshed every 30 seconds to live for 60. One failed refresh is one too many: at
  the moment the next one is due the key is gone (`GapAfterOneFailure`, `LeaseExactly`).
* The status recorded for the metrics and the one on the wire agree under the exact condition of
  `AgreesExactly`; they settle at different calls (`SettledExactly`).
* The comment in `Graceful` says all calls to `/readyz` fail from then on. They fail up to the next
  enable request (`ReadyAfterClearing`); `/healthz` does fail for good (`ClearedFirst`).
* The shutdown timeout is sure to bound the shutdown if and only if there is no gRPC server and it is
  at least as long as the pause; with a gRPC server nothing does (`TimeoutMetExactly`).

## Model

| member | source | states |
|---|---|---|
| EchoWs.Safety | pkg/api/http/echows.go:32-97 | In every state of every schedule: no send on closed `in`, no double close, WaitGroup never negative; messages and statuses handed over in order, none lost or doubled, at most one of each in flight; the wire follows what was taken; nil frames last and only after close(in). |
| EchoWs.EchoOnTheWire | pkg/api/http/echows.go:45-97 | In every schedule the replies on the wire are, text by text, a prefix of the messages that the schedule's own reads bring in, short of them by two at most; the statuses are those of its ticks, numbered without a gap and short by two at most; and `null` is written only after the read loop has ended and `in` is closed. |
| EchoWs.HeardIsRead | pkg/api/http/echows.go:45-60 | What is recorded as read is, in order, the messages of the reads that took effect in the schedule, and the statuses made are its ticks. |
| EchoWs.ClosingOrder | pkg/api/http/echows.go:36-82 | If `in` is closed, the schedule has the loop exit, close(done), wg.Done and close(in) at four increasing positions. |
| EchoWs.StuckExactly | pkg/api/http/echows.go:40-97 | Nothing can move if and only if all four goroutines are finished, or the writer has returned, the ticker's send is pending and the request goroutine is finished or blocked on a send itself. |
| EchoWs.CanFinishExactly | pkg/api/http/echows.go:40-97 | From a reachable state all four goroutines can still finish if and only if no send is pending without a writer, nor a status behind a frame that the closed connection refuses. |
| EchoWs.InevitableExactly | pkg/api/http/echows.go:40-97 | From a reachable state no schedule gets stuck short of the end of all four goroutines if and only if the ticker has seen `done`. |
| EchoWs.EndsInTime | pkg/api/http/echows.go:35-97 | From then on the steps of any schedule that take effect are bounded, but for `null` frames taken while the request goroutine has yet to close the connection; with the connection closed they are bounded outright. |
| EchoWs.DoomedForGood | pkg/api/http/echows.go:60-94 | Such a session stays so under every schedule. |
| EchoWs.PendingReplyTaken | pkg/api/http/echows.go:60-97 | With a live writer no send of the request goroutine is blocked for good: unless the session is doomed as above, the reply can be taken within two steps, and then every message read has been handed over. |
| EchoWs.PendingStatusTaken | pkg/api/http/echows.go:77-97 | The same for the ticker's send and the statuses made. |
| EchoWs.ReaderAbandoned | pkg/api/http/echows.go:60-94 | A reachable session whose request goroutine is blocked for good with its connection open. |
| EchoWs.TickerOvertaken | pkg/api/http/echows.go:35-83 | A reachable session that ends in good order except for a ticker that will never return. |
| EchoWs.Session.ReaderStep | pkg/api/http/echows.go:35-62 | The request goroutine in place takes exactly one enabled step of its own, the one its read result calls for. |
| EchoWs.Session.TickerStep | pkg/api/http/echows.go:64-84 | sendHostWs in place takes one enabled step of its own; `done` is seen only when chosen by the select. |
| EchoWs.Session.CloserStep | pkg/api/http/echows.go:41-44 | The closing goroutine in place takes one enabled step of its own. |
| EchoWs.Session.WriterStep | pkg/api/http/echows.go:86-98 | writeWs in place takes one enabled step of its own, and returns exactly on a failed write. |
| EchoWs.Session.Serve | pkg/api/http/echows.go:40-98 | The four goroutines in place do what any schedule says, ending in exactly its state, with exactly the messages read that it brings in. |
| EchoWs.Session.Turn | pkg/api/http/echows.go:40-98 | The next action of a schedule by the goroutine it belongs to, or nothing if that is not ready for it. |
| FsCache.Safety | pkg/fscache/fscache.go:22-112 | In every state the cache is, key by key, the last complete contents changed as far as the update in progress has got, and while no reload is pending what an update has read is what the volume holds. |
| FsCache.VisibleExactly | pkg/fscache/fscache.go:86-94 | The names an update lists are those of the entries that are no directory and whose name does not contain ".."; the files it is to end up with are those among them that can be read, with their contents. |
| FsCache.QuiescentAgreement | pkg/fscache/fscache.go:38-109 | Whenever the watcher is idle with no reloading event queued, the last update succeeded and nothing changed unannounced since its listing, the cache equals the filtered directory. |
| FsCache.QuiescentContents | pkg/fscache/fscache.go:38-109 | Such a cache has a key if and only if it is the name, without "..", of a file of the volume as the last swap or edit of the schedule left it, and with that file's content. |
| FsCache.VolumeFollowed | pkg/fscache/fscache.go:53-69 | The volume is as the last change of the schedule left it, and counts as changed unannounced if and only if an edit has changed it since the last listing. |
| FsCache.EventsInOrder | pkg/fscache/fscache.go:39-59 | The events come off the queue in the order of the changes, none lost, and none of them from before the registration. |
| FsCache.EditUnnoticed | pkg/fscache/fscache.go:60-69 | A change of visible files announced by any other event leaves the cache different from the volume whatever the watcher does until a reloading event comes. |
| FsCache.NoticedExactly | pkg/fscache/fscache.go:55-74 | After a change of visible files the watcher, once at rest, has the volume in its cache if and only if the event of the change was a Create event of `..data`. |
| FsCache.WatcherTerminates | pkg/fscache/fscache.go:55-112 | Every watcher step decreases the queue, the stage of the update or the names outstanding, lexicographically. |
| FsCache.WatcherNotStuck | pkg/fscache/fscache.go:55-112 | A watcher that is not at rest has a step to take. |
| FsCache.CatchesUp | pkg/fscache/fscache.go:55-112 | With a reload pending, beginning or going well, a still and readable volume and no failing I/O, the cache equals the volume whenever the watcher comes to rest. |
| FsCache.InevitablyCatchesUp | pkg/fscache/fscache.go:55-112 | And it does come to rest: no run of the watcher without failures is endless, and where it ends nothing is left to do and the cache equals the volume. |
| FsCache.FailedUpdateKeepsCache | pkg/fscache/fscache.go:79-95 | A failed listing or read ends the update with the cache as the last complete update left it. |
| FsCache.CompletedUpdateIsExact | pkg/fscache/fscache.go:97-111 | A completed update leaves exactly the files it read. |
| FsCache.OnlyReloadsWrite | pkg/fscache/fscache.go:97-109 | No other step than those of the two last loops changes the cache. |
| FsCache.RemovedBeforeAdded | pkg/fscache/fscache.go:97-109 | No intermediate cache holds a key only of the old contents together with a key only of the new. |
| FsCache.InternalNamesHidden | pkg/fscache/fscache.go:86-95 | No name containing ".." is ever in the cache, nor handled by an update on the way. |
| FsCache.NewWatchFailsExactly | pkg/fscache/fscache.go:22-51 | NewWatch fails if and only if, before its first update is complete, registering or listing fails, or the reading of a name does, be it that the name is no longer a file of the volume. |
| FsCache.NewWatchSucceeds | pkg/fscache/fscache.go:22-51 | Without failing I/O and with every listed name a file until it is read, NewWatch does not fail, whatever else is swapped or edited. |
| FsCache.FirstUpdateTorn | pkg/fscache/fscache.go:44-48 | A witness of the failing case: a swap that takes away a listed file during the first update; the cache then stays empty under every later schedule. |
| FsCache.ViewOfReloads | pkg/api/http/configs.go:9-15 | A Range during any number of reloads returns each key as in the contents complete at its beginning or in one of those brought in before its end. |
| FsCache.ViewOfOneReload | pkg/api/http/configs.go:9-15 | During one reload the possible results are exactly the maps with each key as in the old or as in the new contents. |
| FsCache.Watcher.NewWatch | pkg/fscache/fscache.go:22-51 | Registration, then the first update under interference: a schedule of the transition system that ends idle with complete contents, or failed with an empty cache, and then for a reason in the I/O or in the volume. |
| FsCache.Watcher.HandleEvent | pkg/fscache/fscache.go:55-74 | One turn of the event loop: a Create event of `..data` brings in complete contents, or leaves the cache as it was for a reason in the I/O or in the volume; any other event changes nothing. |
| FsCache.Watcher.UpdateCache | pkg/fscache/fscache.go:78-112 | The three loops under interference are a schedule of the transition system; it fails only with the listing or with the read of a name that is unreadable or no file, and then the cache is unchanged; on success it is complete, and equal to the volume unless a reload is pending or a change went unannounced. |
| FsCache.Watcher.ReadDir | pkg/fscache/fscache.go:79-83 | The listing of the names to read, unless it fails. |
| FsCache.Watcher.ReadFiles | pkg/fscache/fscache.go:79-95 | The listing and the reads: abandoned at the first failure, and at nothing else. |
| FsCache.Watcher.ReadNames | pkg/fscache/fscache.go:86-95 | The reading loop, with the volume replaced at will between two reads. |
| FsCache.Watcher.ReadFile | pkg/fscache/fscache.go:89-93 | One file read into the new contents if it is readable and a file of the volume, and a failure otherwise. |
| FsCache.Watcher.PruneCache | pkg/fscache/fscache.go:97-104 | The Range that deletes stale keys, one atomic step a key. |
| FsCache.Watcher.StoreFiles | pkg/fscache/fscache.go:106-109 | The loop that stores the files read, in any order. |
| FsCache.ConfigReader.ConfigRead | pkg/api/http/configs.go:5-18 | The handler's Range, with watcher and volume running on, returns one of the views that the two theorems above describe. |
| FanOut.Safety | pkg/api/http/echo.go:40-99 | In every state each goroutine's context, slot and cancellation are as its progress says, the WaitGroup counts the goroutines not yet returned, and the shared context has trace wrappers only. |
| FanOut.ScheduleIndependence | pkg/api/http/echo.go:40-102 | For any number of backends and any interleaving the response lists the backends' own outcomes in their order; only after the client has gone can a slot hold its cancellation instead, of the call or of the reading of the body. |
| FanOut.AnswersExactly | pkg/api/http/echo.go:57-97 | The text of each slot when the client stays: nothing for a URL that makes no request, "backend URL call failed ERROR" for a failing call or body, "backend URL response status code N" from 400 on, and the body otherwise. |
| FanOut.SlotsExactly | pkg/api/http/echo.go:57-97 | The text of each slot in any schedule: what the goroutine's own call and body read put there, and their cancellation exactly if the client had gone by then. |
| FanOut.DecimalExactly | pkg/api/http/echo.go:76 | The status code is printed in decimal digits, without a leading zero, and stands for the number. |
| FanOut.ContextsExactly | pkg/api/http/echo.go:48-49 | What a goroutine writes back is a trace around the shared context as its first load found it, made from it as its second load did; its timeout goes around the shared context as it finds it after that. |
| FanOut.SharedExactly | pkg/api/http/echo.go:48 | The shared context is the trace last written back. |
| FanOut.WaitExactly | pkg/api/http/echo.go:42-99 | The WaitGroup is at zero exactly when every goroutine has returned, and by then every timeout context has been cancelled. |
| FanOut.Isolation | pkg/api/http/echo.go:45-50 | A goroutine's context can be cancelled by that goroutine and by the client only; no step of another one reaches its context, its state or its slot. |
| FanOut.OwnersExactly | pkg/api/http/echo.go:48-50 | A cancel reaches exactly the contexts with that goroutine's timeout among their ancestors, through any number of traces and other timeouts. |
| FanOut.Terminates | pkg/api/http/echo.go:44-102 | At most eight steps a backend and two more take effect in any schedule, and something can always move before the answer. |
| FanOut.Wrappers | pkg/api/http/echo.go:48 | At the answer the shared context has between one trace wrapper and one for each backend, and one for each if and only if every goroutine found the context as it had loaded it when it wrote it back. |
| FanOut.WrapperLost | pkg/api/http/echo.go:48 | A witness of the losing case: two goroutines that read before either writes leave one wrapper. |
| FanOut.Handler.Step | pkg/api/http/echo.go:45-97 | One step of a goroutine in place, on the shared slice, context and WaitGroup. |
| FanOut.Handler.Serve | pkg/api/http/echo.go:41-99 | Under any scheduler the result slice in place ends as the list of outcomes, if the client stays. |
| CacheHandlers.Safety | pkg/api/http/cache.go:26-177 | In every state the effects so far form a history that a sequential map with expiry allows, which ends in the live part of the store; every operation is in it at most once, and every reply without failing command is accounted for at a point in the request's lifetime. |
| CacheHandlers.ReadReplies | pkg/api/http/cache.go:95-125 | Every answered read has an EXISTS in the schedule and, if that found the key, a GET after it. Without failing commands it answers 404 if and only if the key is not live at the first, 200 if and only if it is live at both, with its value at the second, and 500 if and only if it is live at the first and not at the second. |
| CacheHandlers.LastWordWins | pkg/api/http/cache.go:41-177 | After any schedule a key is live if and only if the last command on it that took effect is a client's write, whose value it then has for good, or a heartbeat less than 60 seconds ago. |
| CacheHandlers.ReadsLastWord | pkg/api/http/cache.go:95-125 | An answered read replies by the last such command at its own EXISTS and at its own GET. |
| CacheHandlers.AskedExactly | pkg/api/http/cache.go:35-111 | A request is known exactly from its first arrival in the schedule on, and keeps the operation it arrived with. |
| CacheHandlers.OneExists | pkg/api/http/cache.go:109-115 | That EXISTS is the only one of the read to take effect. |
| CacheHandlers.MutationReplies | pkg/api/http/cache.go:26-84 | A write or delete answers 202 if and only if neither its command nor the reading of its body failed, and then it took effect at one moment of its lifetime; if something failed it took effect at one such moment, or nowhere in the history. |
| CacheHandlers.RealTimeOrder | pkg/api/http/cache.go:26-125 | A request answered before another came in comes before it in the history. |
| CacheHandlers.ErrorsAs200 | pkg/api/http/http.go:66-88 | A request is answered with status 200 and an error in the body, of another code, if and only if there is no cache server or it is a write whose body or command failed; a failing delete answers 400 and a failing read 404 or 500. |
| CacheHandlers.OfflineStoresNothing | pkg/api/http/cache.go:144-147 | Without a cache server neither a client nor the heartbeat ever stores anything. |
| CacheHandlers.ReadLosesRace | pkg/api/http/cache.go:109-121 | A schedule in which a key expires between EXISTS and GET and the read answers 500. |
| CacheHandlers.Lease | pkg/api/http/cache.go:158-165 | With no client writing or deleting it, the version key is there exactly in the 60 seconds after a refresh that took effect. |
| CacheHandlers.LeaseHolds | pkg/api/http/cache.go:158-176 | In every schedule in which clients leave the version key alone and attempts come at least every 30 seconds, the key is there while 30 seconds for each failure since the last success, and the time since the last attempt, are below 60 together. |
| CacheHandlers.LeaseExactly | pkg/api/http/cache.go:158-176 | With attempts exactly every 30 seconds, if and only if they are. |
| CacheHandlers.GapAfterOneFailure | pkg/api/http/cache.go:158-176 | After one failure the key is gone at the moment the next attempt is due. |
| CacheHandlers.Server.CacheRead | pkg/api/http/cache.go:95-125 | The handler in place, whatever others do before and between its commands and however these end: which commands it sends, and its reply by what it found at each. |
| CacheHandlers.Server.CacheWrite | pkg/api/http/cache.go:26-52 | The same for writes: an unreadable body is refused without a SET, a readable one is sent and answered 202 if and only if the SET ends well; and the write is in the history of effects if and only if a SET was sent and not lost on its way. |
| CacheHandlers.Server.CacheDelete | pkg/api/http/cache.go:63-84 | The same for deletes. |
| Labels.Split | pkg/api/http/metrics.go:87-97 | Every path splits into maximal alphanumeric words and the gaps between them. |
| Labels.LabelSpecification | pkg/api/http/metrics.go:90-97 | The label of any such path is its words in lower case joined with single underscores, or "root". |
| Labels.Collisions | pkg/api/http/metrics.go:90-97 | Two paths share a label if and only if their words agree up to case, no words counting as the word "root". |
| Labels.Idempotent | pkg/api/http/metrics.go:90-97 | A label is its own label. |
| Labels.LabelsAreWellShaped | pkg/api/http/metrics.go:89-97 | Labels are not empty, hold lower-case letters, digits and underscores only, and underscores neither at the ends nor doubled. |
| Labels.LettersKept | pkg/api/http/metrics.go:87-97 | A label keeps every letter and digit of its path, in order and in lower case, and no other; a path without any is "root". |
| StatusRecorder.AgreesExactly | pkg/api/http/metrics.go:60-64 | The recorded status is the one on the wire if and only if the handler writes no header, or its first header is final and precedes every Write and Flush, or is final and says 200. |
| StatusRecorder.WireExactly | pkg/api/http/metrics.go:57-64 | The status on the wire is that of the first Write or Flush, which say 200, or header of code 101 or at least 200, whichever comes first, and 200 if there is none. |
| StatusRecorder.RecordedExactly | pkg/api/http/metrics.go:113-119 | The recorded status is the code of the first header, and 200 if there is none. |
| StatusRecorder.LaterCallsChangeNothing | pkg/api/http/metrics.go:113-119 | Once a header has been written later calls do not change the recorded status, and once the response is committed they do not change the one on the wire. |
| StatusRecorder.SettledExactly | pkg/api/http/metrics.go:113-119 | No later call can change either status if and only if a header has been written and the response is committed. |
| StatusRecorder.Interceptor.WriteHeader | pkg/api/http/metrics.go:113-119 | The first code is recorded, and every code is passed on. |
| StatusRecorder.Interceptor.Serve | pkg/api/http/metrics.go:60-64 | A handler's calls through the interceptor leave the recorded and the committed status that the theorems speak of. |
| Metrics.Conservation | pkg/api/http/metrics.go:57-70 | In every state of any number of concurrent requests each series of the histogram counts the requests observed under it, the histogram summed over methods and paths equals the counter plus the requests between the two updates, status by status, and the counters add up to the completed requests. |
| Metrics.SamplesExactly | pkg/api/http/metrics.go:57-70 | The samples of a series are as many as the requests that, in the schedule, arrived with its method and path, returned with its status and were observed; and the counter of a status as many as those that returned with it and were counted. |
| Metrics.StagesTell | pkg/api/http/metrics.go:57-70 | What a state says of a request, its method, path and status and how far it has come, is what has happened to it in the schedule. |
| Metrics.RouteName | pkg/api/http/metrics.go:73-85 | The path label is that of the route's name, if it has one, else of its template, if it has one, else of the request URI, and well shaped. |
| Metrics.PrometheusMiddleware.Handler | pkg/api/http/metrics.go:57-70 | Whatever others do while its handler is at work, before the two updates and between them, a request adds to the schedule its arrival with its method and label, its return with the recorded status and one update of each metric, in this order, and nothing else, and is counted under that series. |
| Metrics.PrometheusMiddleware.Count | pkg/api/http/metrics.go:67-68 | The two updates, of the histogram under the request's series and of the counter under its status. |
| Lifecycle.Safety | pkg/signals/shutdown.go:32-83 | Flags, signals and servers are in step with the main goroutine in every state. |
| Lifecycle.MainInOrder | cmd/podinfo/main.go:160-166 | main is at the statement that the number of its steps in the schedule says, and its last step ends the process. |
| Lifecycle.HandlerInOrder | pkg/signals/signal.go:19-24 | The signal goroutine closes the stop channel with its second step and ends the process with its fourth, and no one else does. |
| Lifecycle.SignalsExactly | pkg/signals/signal.go:16-18 | Each signal of the schedule after the registration is delivered, and one before it kills the process. |
| Lifecycle.TwoSignals | pkg/signals/signal.go:13-27 | The stop channel is closed at most once and only after a first signal, exit code 1 takes a second, at most two signals are buffered, consumed and buffered ones are at least min(2, delivered), and a signal not yet acted on leaves the handler a step. |
| Lifecycle.SecondSignalExits | pkg/signals/signal.go:19-24 | After two signals at most four handler steps lead to exit code 1, wherever the shutdown is. |
| Lifecycle.ClearedFirst | pkg/signals/shutdown.go:36-83 | After the health flag is cleared healthz fails in every later state; no server stops, and main does not return, before both flags are cleared; main returns with every started server stopped. |
| Lifecycle.ReadyExactly | pkg/api/http/server.go:194-200 | In every state of every schedule readyz succeeds if and only if the last to touch its flag raised it: the start-up unless configured unready, the shutdown, and the requests that enable and disable it. |
| Lifecycle.ReadyAfterClearing | pkg/api/http/health.go:32-64 | After the ready flag is cleared readyz succeeds if and only if the last later request to touch the flag enabled it. |
| Lifecycle.HealthyExactly | pkg/api/http/server.go:194-200 | In every state of every schedule healthz succeeds if and only if the start-up has raised its flag, not configured down, and the shutdown has not cleared it. |
| Lifecycle.TimesExactly | pkg/signals/shutdown.go:36-83 | From the moment of the stop the schedules that return take exactly these times: the pause, gRPC without a bound if there is such a server, then HTTP and HTTPS, each if there is one, and both by the one deadline, or at once if that has passed. |
| Lifecycle.TimeoutMetExactly | pkg/signals/shutdown.go:37-83 | Every schedule that returns does so within the timeout if and only if there is no gRPC server and the timeout is no shorter than the pause; with a gRPC server no bound holds. |
| Lifecycle.BoundedByDeadline | pkg/signals/shutdown.go:37-83 | In every schedule that returns, Graceful ended by the deadline if and only if the gRPC phase did, and otherwise together with it. |
| Lifecycle.SharedDeadline | pkg/signals/shutdown.go:71-83 | HTTPS can have its seconds after HTTP has had its own if and only if the deadline has room for both. |
| Lifecycle.Process.Graceful | pkg/signals/shutdown.go:32-84 | Graceful in place, with signals, requests and time going on between its statements, takes the steps of main only, and returns, unless the process ends or the stop channel stays open, with healthz failing, the servers stopped, and in one of the possible times. |
| Lifecycle.Process.ClearFlags | pkg/signals/shutdown.go:40-42 | The two atomic stores, interrupted at will. |
| Lifecycle.Process.StopServers | pkg/signals/shutdown.go:65-83 | gRPC, HTTP and HTTPS, one after the other. |
| SizeFormat.FmtContentLength | cmd/podcli/check.go:252-263 | For every int64 the loop ends without overflow; from 1000 on the divisor is the power of 1000 with div <= b < 1000 div, its letter is at an index of at most 5. |
| SizeFormat.PowerUnique | cmd/podcli/check.go:257-262 | There is only one such power. |

## Left out

* Sockets, TLS, the Redis wire protocol, OpenTelemetry, logging, flags and configuration files: they appear as nondeterministic outcomes or as steps of the surroundings.
* The Go memory model below single loads and stores: a torn read of an interface value is not modelled.
* The choice among several senders waiting on `in` is free; the channel's queue is not modelled, so nothing is said about how often one sender overtakes the other.
* kubelet's swap is one atomic step that enqueues its event; the events queue is unbounded, where the kernel's may overflow, and the error channel of the notifier, which is only logged, is not modelled.
* `sync.Map.Range` is modelled by what its documentation guarantees: each key as it was at some moment during the call.
* The directory listing is a set: the order in which files are read is free, where the source has the sorted one.
* What a backend does with a call (its reply, a failing connection, the expiry of the call's own timeout) is one outcome given with the backend; the tracing headers copied to it are not modelled.
* The time a SET takes to reach Redis, ticks dropped by a slow ticker, and expiry of keys with a resolution below a second.
* Codes that net/http refuses with a panic, and Hijack, after which there is no status line to compare.
* The signal goroutine, the start-up and the health handlers are steps of the transition system only, without a method beside them; the atomic flags are booleans.
* The cache pool and the tracer that `Graceful` would stop are never set by `NewShutdown`, so both branches are dead and not modelled; the time the clearing of a flag or a delay of the scheduler takes is zero, and seconds are the unit of time.
* The quoting of the URL inside the text of a cancelled call.
* `wrappedResponseWriter`: 32 combinations of optional interfaces, settled by enumeration.
* The rounding to one decimal in the formatter; it may print 1000.0 of a unit just below the next.
* JWT, the SHA-1 store, the environment, header, status, delay and panic handlers, the gRPC services and podcli's retry loops: one branch or one expression each.
