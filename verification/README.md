# VibeSDK: supervisor, session and store proofs

A Dafny model of the parts of VibeSDK whose correctness depends on interleavings,
on where a stream is cut, or on what survives a run of many calls. `dafny verify
dfyconfig.toml` checks everything.

* **Log files** (`LogProtocol`, `LogDrain`, `DrainProgress`). The process monitor appends to a log
  that monitors and the CLI read under a lock file; a drain renames the log
  away, recreates it, reads the renamed file and returns it. Every file-system
  call is one step of a transition system, any number of processes interleave,
  die, and steal locks. `DrainConserves` holds in every run, even when the lock
  fails: each piece renamed away is with one process or in one return, unchanged,
  and the pieces in order plus the current log are what was appended.
  `DrainFromStart` adds the order of the returns when holders are timely, and
  `DrainReturnsLog` and `DrainFinishes` that a drain takes the log and returns it.
* **Process life cycle** (`Monitor`, `MonitorRuns`, `MonitorRestarts`,
  `MonitorProgress`, `Health`).
  Handlers are methods on the fields, each proved equal to a step function; the
  theorems are about every sequence of steps. Exit events carry the generation of
  their child, because listeners of earlier children stay attached.
* **Output framing** (`RingBuffer`, `Framing`). The line readers of the monitor
  and of `parseNdjsonStream` are compared with `Lines`, which splits the whole
  text at once.
* **SDK session** (`Connection`, `ConnectionRuns`, `ConnectionProgress`,
  `Timeline`, `FileTree`, `FileTreePaths`, `FileTreeOrder`, `Retry`). A
  reconnecting connection with a bounded queue, a phase timeline replicated
  through its change events, a directory tree built path by path, and the HTTP
  retry loops with their backoff.
* **Stores and transformations** (`ErrorStore`, `ErrorContents`, `LogStore`,
  `LogContents`, `DevVars`, `DevVarsFile`, `DevVarsLayout`, `Migration`).
  Counted errors, numbered logs with paging, the `.dev.vars` reader and writer,
  and the conversation clean-up.
* `Text`, `Sorting` and `Wrappers` hold the string, sorting and option laws the
  others need.

Where the source is imperative the model has a class or a method with the source's
loop, and its `ensures` ties the new state to a specification function; the
theorems are lemmas about those functions over all runs.

## What does not hold, and exactly when

Several expectations are false of the code in some family of cases. The code is
modelled as it is; a lemma shows a case, another gives the exact condition.

* Two processes can hold the lock at once after both judged a dead holder's lock
  stale (`StaleRecoveryRace`); a step breaks mutual exclusion exactly when it
  unlinks a live holder's lock (`ExclusionExactly`).
* A successful `stop()` can leave a restart timer pending exactly when the monitor
  was already stopped with it pending (`StopTimerExactly`, `PendingAfterStop`). It
  then fires without effect (`StoppedStays`).
* A late exit of an earlier child is taken for a crash of the current one, and two
  children can run (`LateExitRestartsBesideLiveChild`). Exactly two kinds of steps
  lead there (`SingleExactly`, `BreakMakesTwo`).
* `isOpen` can be true while the current socket is still connecting. A send then
  throws and the message is neither handed over nor queued (`RefusedBeforeOpen`,
  `LossExactly`), and an open event leaves the queue full (`FlushRefusedExactly`).
  With sockets that keep to the WebSocket standard neither happens
  (`StandardFromStart`).
* A socket can be made after `close()` exactly when a `getUrl` call was in flight
  (`SocketAfterCloseExactly`).
* A change of a phase's file paths alone emits no event (`PathChangeIsSilent`,
  `ReplicaExactly`).
* Two errors of different messages and levels can share a hash, exactly when one
  level begins with digits that end the other message (`LevelsShareHashInput`,
  `HashInputExactly`).
* A log number can be given out twice around a reopen (`NumberReused`); the next
  number stays above every earlier one exactly when the last log stored is still in
  the table (`ReopenExactly`).
* An unmanaged `.dev.vars` value comes back with quotes around it exactly when it
  holds a line terminator such as a carriage return (`CarriageReturnBreaks`,
  `ForeignRoundTripExactly`).
* `USE_TUNNEL_FOR_PREVIEW` is written by the setup but is not among its managed
  names: an old value of it wins over the new choice (`OldTunnelWins`), and it is
  the only decided value that can lose (`DecidedTakesEffectExactly`).
* The flush of `stop()` splits a line exactly when it falls inside one
  (`FlushSplitsExactly`).
* A message without an id can displace one whose id looks like its made-up key
  (`MadeUpKeyDisplaces`, `IdReportedExactly`).
* The throw behind the retry loop is reached for a `maxRetries` that is not
  negative exactly when retries are on, `maxRetries` is not whole and every attempt
  gets a retryable reply; the last sleep is then wasted (`HalfRetry`,
  `TrailingThrowExactly`).

## Main results

`LogDrain.DrainConserves` and `DrainFromStart`, `DrainProgress.DrainReturnsLog`,
`DrainFinishes` and `NoLineLost`, `LogProtocol.MutualExclusion` and
`ExclusionExactly`, `MonitorRuns.TerminalEvents` and `OncePerRun`,
`MonitorRestarts.RestartBound`, `StopThenStopped`, `SoloExactly` and `SingleExactly`,
`MonitorProgress.RestartAfterLongRun`, `CleanExitExactly` and `StopWaitsExactly`,
`Health.KillExactly`, `Framing.ChunkIndependence`, `FlushSplitsExactly` and
`ParseNdjsonStream`, `ConnectionRuns.SendConservation`, `LossExactly`,
`OrderExactly`, `StandardFromStart`, `ReconnectBound` and `CloseEnds`,
`ConnectionProgress.ReconnectExactly`, `AlwaysOnward` and `CanReopen`,
`Timeline.ReplicaTracks` and `ReplicaExactly`, `FileTree.TreeExact` and `TreeInPlace`,
`FileTreePaths.SegmentsJoin` and `FilesAtDepth`,
`FileTreeOrder.OrderFreeExactly`, `Retry.BackoffExactly`, `TotalDelayWithin` and `TrailingThrowExactly`,
`ErrorStore.TotalConserves`, `ErrorContents.RowTells`, `LogContents.RowLives`,
`LogStore.IssuedIncrease` and `PagingComplete`,
`DevVarsFile.ForeignRoundTripExactly` and `WholeFile`,
`Migration.MigrationIdempotent`, `SurvivesExactly` and `TiesInInputOrder`.
The other rows are the methods and the steps that lead to these.

## Model

| member | source | states |
|---|---|---|
| RingBuffer.CircularBuffer.Push | container/process-monitor.ts:64-105 | after a push the ring holds exactly the newest `capacity` elements of what it held plus the new one, for every capacity including 0 |
| RingBuffer.CircularBuffer.ToArray | container/process-monitor.ts:64-105 | the array read out is the contents, oldest first, across the wrap-around |
| RingBuffer.CircularBuffer.Clear | container/process-monitor.ts:64-105 | clearing leaves an empty ring of the same capacity |
| RingBuffer.NewestStep | container/process-monitor.ts:64-105 | keeping the newest n after each push keeps the newest n of everything pushed |
| Framing.StreamMonitor.ProcessStreamData | container/process-monitor.ts:759-794 | one data event closes the lines of the open part plus the chunk, pushes the trimmed non-empty ones in order, and keeps the new open part; the ring stays the newest lines of all pushed |
| Framing.StreamMonitor.PushLines | container/process-monitor.ts:773-794 | the loop over the closed lines pushes the trimmed non-empty ones in order |
| Framing.StreamMonitor.FlushStreamBuffers | container/process-monitor.ts:600-625 | flushing pushes each non-empty open part as a last line and empties both buffers |
| Framing.StreamMonitor.RecentLogs | container/process-monitor.ts:1274-1277 | the recent logs are the last `limit` of the last `errorBufferSize` lines pushed since start; a limit of 0 gives all of them, a negative one all but the first |
| Framing.StreamMonitor.ClearBuffers | container/process-monitor.ts:400-406 | a new start forgets the previous run's lines and open parts |
| Framing.ChunkIndependence | container/process-monitor.ts:600-625 | the lines emitted by any chunking plus a final flush are the trimmed non-empty lines of the stream's whole text |
| Framing.FlushesEndSections | container/process-monitor.ts:600-625 | for every interleaving of chunks and flushes, such as the flush of stop() while the child still writes, the lines are those of the texts between flushes, each taken as a whole |
| Framing.FlushSplitsExactly | container/process-monitor.ts:600-625 | a flush changes the lines of a text if and only if it falls inside a line, with something other than white space on both sides |
| Framing.WrittenLines | container/process-monitor.ts:759-794 | texts without newlines that neither begin nor end with white space are read back one for one when they are written below each other, with or without a final newline |
| Framing.Resume | container/process-monitor.ts:759-794 | splitting can be resumed from the open part alone |
| Framing.ParseAllExactly | sdk/src/ndjson.ts:1-25 | every line before the first that is not JSON yields its value, and that one ends the stream |
| Framing.ParseNdjsonStream | sdk/src/ndjson.ts:1-25 | for every chunking the values yielded, and whether a line that is not JSON ended the stream, are those of parsing the non-empty lines of the concatenation |
| LogProtocol.Acquire | container/process-monitor.ts:121-152 | for every file system `acquire` makes at most MAX_RETRIES attempts, succeeds or throws at the first answer that is not EEXIST, and unlinks exactly the locks it read as stale |
| LogProtocol.AcquireLock | container/cli-tools.ts:804-838 | the CLI's loop: the same attempts and unlinks, with every failure answered by false |
| LogProtocol.AcquireBound | container/process-monitor.ts:121-152 | in any interleaving a process makes at most MAX_RETRIES creation attempts for each acquisition it begins |
| LogProtocol.MutualExclusion | container/process-monitor.ts:121-162 | from every orderly state, if every holder unlinks within LOCK_STALE_MS of its timestamp, no two processes ever hold the lock and the lock file names the holder |
| LogProtocol.MutualExclusionFromStart | container/process-monitor.ts:121-162 | the same for every such run from the start |
| LogProtocol.ExclusionExactly | container/cli-tools.ts:804-846 | without any timing assumption, a step keeps mutual exclusion if and only if it does not unlink a live holder's lock after judging an earlier one stale |
| LogProtocol.ExclusionRun | container/cli-tools.ts:804-846 | a run in which no step does that keeps mutual exclusion throughout |
| LogProtocol.ExclusionFromStart | container/cli-tools.ts:804-846 | the same from the start: no two processes hold the lock |
| LogProtocol.ExclusiveMeansOne | container/process-monitor.ts:121-162 | the invariant of ExclusionExactly allows at most one holder |
| LogProtocol.StaleRecoveryRace | container/process-monitor.ts:121-152 | a run in which two timely processes hold the lock at once after recovering a dead holder's lock |
| LogDrain.DrainConserves | container/process-monitor.ts:180-258 | from every accounted state, in every run, with crashes, stolen locks and several drainers inside at once, the renamed pieces in order plus the current log are what was appended, and each piece is unchanged in exactly one place |
| LogDrain.DrainFromStartConserves | container/process-monitor.ts:180-258 | the same for every run from the start |
| LogDrain.NothingTwice | container/process-monitor.ts:210-258 | no two returns carry the same piece, what was returned is with no process, and no two processes carry the same piece |
| LogDrain.DrainFromStart | container/process-monitor.ts:180-258 | with timely holders, the returned texts in order of return, the piece in flight and the log file concatenate to exactly what was appended |
| LogDrain.DrainInOrder | container/process-monitor.ts:180-258 | the same from every accounted state |
| DrainProgress.RenameTakesLog | container/process-monitor.ts:210-226 | the rename of a drain that holds the lock empties the log and takes exactly its text; it finds nothing to take exactly when there is no log file |
| DrainProgress.DrainReturnsLog | container/process-monitor.ts:210-258 | in every reachable state: what a drain takes is the log's text at its rename, and whatever any process does then, as long as the drain does not crash, its release returns that text; it says that there was no log exactly when there was none |
| DrainProgress.DrainFinishes | container/process-monitor.ts:217-258 | after the rename two further steps of its own bring the drain to its return, with anything of anybody in between |
| DrainProgress.AppendedLines | container/process-monitor.ts:180-200 | what was appended in a run is the lines of its append calls, one after the other |
| DrainProgress.NoLineLost | container/process-monitor.ts:180-258 | with timely holders, the lines of all append calls are the returned texts in order of return, the piece in flight and the log file, one after the other |
| DrainProgress.FreeLockIsTaken | container/process-monitor.ts:121-152 | a free lock is taken at the first attempt and its file names the process |
| DrainProgress.StaleLockIsTaken | container/process-monitor.ts:121-152 | a lock in the way is removed and taken if and only if it can be read and is older than 30 s; otherwise it stays |
| DrainProgress.GivesUpAfterTen | container/process-monitor.ts:121-152 | meeting a lock it may not remove, a process makes exactly ten creation attempts and then gives up |
| DrainProgress.FailureEndsAcquire | container/process-monitor.ts:121-152 | any other failure of a creation ends the acquisition at once |
| DrainProgress.SoloDrain | container/process-monitor.ts:210-258 | from any state with a free lock, a drain left alone returns the whole log and leaves an empty one, no temporary file and a free lock |
| DrainProgress.SoloRead | container/cli-tools.ts:855-880 | a reader left alone gets the log's text and changes no file |
| Monitor.ProcessMonitor.StartProcess | container/process-monitor.ts:383-498 | start is refused unless stopped or crashed, resets the counter after a stable run, and ends running or, when the spawn fails, stopped; a spawn without a process id replaces the current child, one that throws keeps it |
| Monitor.ProcessMonitor.ResetStableCounter | container/process-monitor.ts:414-424 | the restart counter is reset exactly when the last run lasted longer than five minutes |
| Monitor.ProcessMonitor.SpawnChild | container/process-monitor.ts:426-480 | a spawned child becomes the current one while earlier children stay alive and attached |
| Monitor.ProcessMonitor.StopProcess | container/process-monitor.ts:513-553 | stop cancels both timers and waits only for a live child that could be signalled |
| Monitor.ProcessMonitor.FinishStopping | container/process-monitor.ts:546-581 | after the wait the monitor goes to stopped, with its event, only if the exit handler has not done so |
| Monitor.ProcessMonitor.ResumeStop | container/process-monitor.ts:990-1078 | the wait in killProcess ends by exit or timeout and stop then finishes |
| Monitor.ProcessMonitor.HandleExit | container/process-monitor.ts:630-704 | the exit handler's state change, terminal event and restart, for a child of any generation |
| Monitor.ProcessMonitor.RecordExit | container/process-monitor.ts:637-643 | the exit is recorded, and the current child marked as exited only if it is the one |
| Monitor.ProcessMonitor.Crash | container/process-monitor.ts:656-682 | a crash is announced and, if it is to be restarted, scheduled |
| Monitor.ProcessMonitor.StopAfterExit | container/process-monitor.ts:683-703 | a clean exit stops the monitor and says so, unless stop() already did |
| Monitor.ProcessMonitor.DecideRestart | container/process-monitor.ts:880-914 | an exit is restarted only below the bound and not while stopping, and then if it was by signal, failed, or was clean after more than 30 s of silence |
| Monitor.ExitDecision | container/process-monitor.ts:650-703 | an exit of a running child schedules a restart exactly when restarts are on, the bound is not reached and the exit was not clean and recent; it is a crash exactly when it was not clean or is restarted |
| Monitor.ProcessMonitor.ScheduleRestartTimer | container/process-monitor.ts:919-976 | scheduling counts one restart and leaves one timer pending |
| Monitor.ProcessMonitor.HandleError | container/process-monitor.ts:706-739 | an error event crashes a starting or running monitor and touches nothing else |
| Monitor.ProcessMonitor.FireRestartTimer | container/process-monitor.ts:935-975 | the timer does nothing when stopped or stopping, otherwise it is a start |
| Monitor.ProcessMonitor.Change | container/process-monitor.ts:1250-1264 | a state change is announced exactly when the state differs |
| MonitorRuns.SoundRun | container/process-monitor.ts:383-739 | in every reachable state the state is the one its trace announces, no terminal event is outstanding, the monitor is never left in starting, and a stopping monitor has a stop waiting |
| MonitorRuns.LegalRun | container/process-monitor.ts:383-739 | every transition in every run is an edge of the five-state machine and continues from the state announced last |
| MonitorRuns.TerminalEvents | container/process-monitor.ts:554-703 | in every run crashed is entered only from running, stopped is left only by start, process_stopped directly follows each entry into stopped from a state other than starting and occurs nowhere else, process_crashed directly follows an entry into crashed |
| MonitorRuns.OncePerRun | container/process-monitor.ts:554-703 | two process_stopped, and two process_crashed, are always separated by an entry into running, even with late exits after the kill timeout |
| MonitorRestarts.RestartBound | container/process-monitor.ts:880-926 | in every reachable state the counter is at most maxRestarts, and between two stability resets at most maxRestarts restarts are scheduled |
| MonitorRestarts.CountedRun | container/process-monitor.ts:414-424 | the counter is always the number of restarts scheduled since the last stability reset |
| MonitorRestarts.ShortRunsFromStart | container/process-monitor.ts:414-424 | in every run in which no child lasts beyond five minutes, all automatic restarts together are at most maxRestarts |
| MonitorRestarts.StopQuiets | container/process-monitor.ts:513-553 | a stop of a monitor that is not stopped or starting leaves no timer pending |
| MonitorRestarts.StopWins | container/process-monitor.ts:513-595 | from there on, whatever exits, errors, timeouts, timers and stops interleave, nothing is spawned, no restart is pending, and once a waiting stop resumed the monitor stays stopped until start is called |
| MonitorRestarts.StoppedStays | container/process-monitor.ts:513-530 | a stopped monitor, with a restart pending or not, stays stopped until start is called: nothing is spawned and no restart is scheduled, and a timer that was pending fires without effect |
| MonitorRestarts.StopThenStopped | container/process-monitor.ts:513-595 | stop in any reachable state, an already stopped one too, and the whole run after it up to the next start: nothing is spawned, the monitor is stopping or stopped, and stopped once the stop is not waiting any more; a restart is pending only if the monitor was already stopped with one pending that has not fired since |
| MonitorRestarts.StopTimerExactly | container/process-monitor.ts:513-530 | a stop leaves a restart pending if and only if the monitor was already stopped with one pending |
| MonitorRestarts.PendingAfterStop | container/process-monitor.ts:483-530 | a run in which stop succeeds and a restart is still pending |
| MonitorRestarts.SoloExactly | container/process-monitor.ts:426-451 | a step keeps "only the current child lives, and no restart fires beside it" if and only if it is not a start accepted beside a live child, unless its spawn throws, nor an error event on a running child while a restart is pending |
| MonitorRestarts.SoloRun | container/process-monitor.ts:426-451 | a run without those steps never has two live children, and every crash is the current child's own |
| MonitorRestarts.SingleExactly | container/process-monitor.ts:426-451 | a step keeps "at most one child lives, and no restart fires beside it" if and only if it is not a successful start beside a live child nor an error event on a running child while a restart is pending |
| MonitorRestarts.BreakMakesTwo | container/process-monitor.ts:935-975 | each such step leads to two live children, at once or when the pending restart fires |
| MonitorRestarts.NeverTwo | container/process-monitor.ts:426-451 | a run from the start without such a step never has two live children |
| MonitorRestarts.LateExitRestartsBesideLiveChild | container/process-monitor.ts:630-704 | a run in which an old child's late exit makes the monitor run two children |
| MonitorProgress.StartResetsExactly | container/process-monitor.ts:414-424 | after an accepted start, by a call or by the timer, the restart counter is 0 if the last finished run was longer than 300000 ms, otherwise what it was |
| MonitorProgress.StartRuns | container/process-monitor.ts:426-480 | an accepted start with a spawned child is running it, with its start and first activity recorded and no end |
| MonitorProgress.FailedStart | container/process-monitor.ts:483-498 | a start whose spawn fails leaves the monitor stopped, and a restart that failed is announced |
| MonitorProgress.FailureIsRestarted | container/process-monitor.ts:650-704 | with restarts on and one left, every failure of a running child crashes the monitor, counts one restart and leaves a timer that starts the next child |
| MonitorProgress.RestartAfterLongRun | container/process-monitor.ts:414-424 | over whole runs: after a child that ran for more than five minutes, however it ended and whatever came in between, the next child's first failure is restarted, if maxRestarts is positive |
| MonitorProgress.CleanExitExactly | container/process-monitor.ts:880-914 | a child that ends cleanly is started again if and only if its last output, or its start, is more than 30 s ago, restarts are on and one is left; otherwise the monitor stops |
| MonitorProgress.StopWaitsExactly | container/process-monitor.ts:513-553 | in every reachable state stop waits if and only if the child spawned last is alive and could be signalled; otherwise the monitor is stopped when it returns |
| MonitorProgress.WaitEnds | container/process-monitor.ts:546-581 | a waiting stop ends stopped, announced by the state change, process_stopped and its own return |
| Health.HealthMonitor.PortProbe | container/process-monitor.ts:1121-1174 | one probe updates the confirmation, the failure count and the in-progress flag, and kills at most once |
| Health.FieldsFollow | container/process-monitor.ts:1121-1174 | the fields always equal what the history of probes says: a success so far, and the counted failures since the last success |
| Health.KillExactly | container/process-monitor.ts:1121-1171 | a probe kills if and only if it is the one whose counted failure brings the current streak to PORT_FAILURE_THRESHOLD; failures before confirmation or grace never count |
| Health.KillsNeedSuccess | container/process-monitor.ts:1121-1171 | between two kills of one run the port has answered |
| Health.SilenceKillsOnce | container/process-monitor.ts:1121-1171 | with a clock that does not go back, a port that stays silent gets its process killed at probe PORT_FAILURE_THRESHOLD of the silence, counted from the first failure that counts, and at no other |
| Health.NoAutoRestartNoKill | container/process-monitor.ts:1121-1171 | without autoRestart there is no kill |
| Connection.AgentConnection.SendMessage | sdk/src/ws.ts:232-246 | a send goes to the current socket when isOpen, and throws exactly if that socket is still connecting; otherwise it is queued, dropping the oldest beyond 1000 |
| Connection.AgentConnection.Flush | sdk/src/ws.ts:51-57 | a flush hands every queued message to the socket in order and empties the queue, or throws at the first and leaves the queue as it was, exactly if the socket is still connecting |
| Connection.AgentConnection.Schedule | sdk/src/ws.ts:59-77 | a reconnect is scheduled only when not closed, enabled, within the limit and none is pending |
| Connection.AgentConnection.Connect | sdk/src/ws.ts:200-227 | an attempt clears the pending timer and asks for the URL, unless closed |
| Connection.AgentConnection.UrlArrives | sdk/src/ws.ts:200-227 | the continuation after getUrl installs a new socket without looking at the closed flag, or schedules a reconnect |
| Connection.AgentConnection.FireTimer | sdk/src/ws.ts:59-77 | a firing timer forgets itself and connects |
| Connection.AgentConnection.HandleOpen | sdk/src/ws.ts:79-84 | an open event of any socket, also after close, marks the connection open, resets the attempts and flushes |
| Connection.AgentConnection.HandleClose | sdk/src/ws.ts:86-90 | a close event of any socket marks the connection closed and schedules |
| Connection.AgentConnection.HandleError | sdk/src/ws.ts:92-95 | an error event only schedules |
| Connection.AgentConnection.CloseConnection | sdk/src/ws.ts:248-255 | close drops the queue, the timer and the socket |
| ConnectionRuns.SendConservation | sdk/src/ws.ts:51-57 | in every run from the start, whatever the sockets do, each message has exactly one fate of handed, queued, dropped, refused and discarded by close; those handed over went out once and with their own text; the queue is the newest 1000 queued since it was last emptied, in order, and is empty while the current socket is open |
| ConnectionRuns.LossExactly | sdk/src/ws.ts:232-255 | a queued message is dropped if and only if it is the oldest of a full queue and another is sent while closed, discarded if and only if close is called; a send is refused if and only if isOpen is true and the current socket is still connecting; every other fate is final |
| ConnectionRuns.FlushRefusedExactly | sdk/src/ws.ts:51-84 | an open event leaves the queued messages where they are if and only if there is no current socket, as after close, or it is another one that is still connecting; otherwise it leaves none |
| ConnectionRuns.OrderExactly | sdk/src/ws.ts:51-57 | a step keeps hand-offs in the order of the sends if and only if it does not hand a message over while older ones are queued |
| ConnectionRuns.OrderRun | sdk/src/ws.ts:51-57 | a run without such a step hands messages over in the order of the sends |
| ConnectionRuns.OvertakenByFailure | sdk/src/ws.ts:86-95 | overtaking takes a current socket that is neither open nor connecting, so one that failed without a close event |
| ConnectionRuns.StandardFromStart | sdk/src/ws.ts:79-95 | with sockets that open once while connecting and close directly after an error, before close: nothing is ever refused, hand-offs are in the order of the sends, the queue is empty whenever isOpen, and isOpen is about the current socket |
| ConnectionRuns.MissesOpenSocketExactly | sdk/src/ws.ts:79-95 | a step makes isOpen true of another socket than an open current one if and only if a new socket replaces an open one, or an open event comes while the current socket is closed, missing or another that has not opened |
| ConnectionRuns.RefusedBeforeOpen | sdk/src/ws.ts:92-95 | a run in which a send is refused while isOpen is true |
| ConnectionRuns.ReconnectBound | sdk/src/ws.ts:59-95 | in every run there is at most one reconnect timer, and with k opens at most 1 + (k + 1) * maxRetries attempts, for any order of close, error and stale-socket events |
| ConnectionRuns.CloseEnds | sdk/src/ws.ts:248-255 | close, called at any moment of any run, leaves no timer; after it no attempt begins, for any order of later events, and no more sockets are made than getUrl calls were in flight |
| ConnectionRuns.SocketAfterCloseExactly | sdk/src/ws.ts:200-227 | a socket can still be made after close if and only if a getUrl call was in flight |
| ConnectionProgress.ReconnectExactly | sdk/src/ws.ts:59-95 | after a close or error event or a failed getUrl a reconnect timer runs if and only if one ran before, or retries are on, close() was not called and the limit is not reached; exactly then one more attempt is counted |
| ConnectionProgress.OpenRestoresRetries | sdk/src/ws.ts:79-84 | an open event gives all retries back |
| ConnectionProgress.TimerAttempts | sdk/src/ws.ts:59-77 | a reconnect timer that fires begins one attempt |
| ConnectionProgress.UrlMakesSocket | sdk/src/ws.ts:200-227 | a URL that arrives makes a new socket the current one |
| ConnectionProgress.AlwaysOnward | sdk/src/ws.ts:59-95 | with sockets that keep to the standard, before close(): in every reachable state there is exactly one of a getUrl call, a timer and an unclosed socket, unless retries are off or used up since the last open |
| ConnectionProgress.CanReopen | sdk/src/ws.ts:51-95 | from every such state that has not given up, the timer, the URL and the open event, as far as they are still to come, make the connection open with nothing left queued |
| ConnectionProgress.SilentAfterClose | sdk/src/ws.ts:248-255 | after close with no getUrl call in flight there is never a current socket again and nothing is handed over, whatever is sent and whatever old sockets do |
| Timeline.PhaseIdInjective | sdk/src/state.ts:115-159 | phase ids are equal exactly for equal positions |
| Timeline.NumberedStep | sdk/src/state.ts:450-486 | every message keeps phase i at id `phase-i` |
| Timeline.PhaseMessageEffect | sdk/src/state.ts:450-486 | a phase message changes the first phase of its name and no other, or appends one, with the status its type leads to, and keeps the file list when it brings none |
| Timeline.FileMessageEffect | sdk/src/state.ts:438-445 | file messages change the status of exactly the files at their path, in every phase, and the last message about a path decides |
| Timeline.RebuiltTimeline | sdk/src/state.ts:115-159 | a timeline rebuilt from the agent state completes exactly what the state says is complete and shows activity only while the agent should be generating |
| Timeline.DeliveredTwice | sdk/src/state.ts:185-433 | a message delivered twice changes the timeline only once |
| Timeline.HasPhaseChanged | sdk/src/state.ts:528-535 | the change check is false exactly for equal status, file count and file statuses |
| Timeline.SessionStateStore.EmitPhaseChanges | sdk/src/state.ts:503-523 | the events emitted are one for each new or changed phase, in order |
| Timeline.SessionStateStore.ApplyWsMessage | sdk/src/state.ts:488-498 | a message replaces the timeline and emits the difference |
| Timeline.ReplicaTracks | sdk/src/state.ts:488-535 | after every run of messages a listener that only applies phaseChange events agrees with the store on status and file statuses of every phase |
| Timeline.EventsExactly | sdk/src/state.ts:503-523 | there is exactly one event for each phase that is new or differs in status or file statuses, `added` exactly for those the old timeline does not have, each with the new phase and the whole new timeline |
| Timeline.ReplicaExactly | sdk/src/state.ts:503-535 | over every run from the start, the replica equals the store at every moment, names, descriptions, purposes and paths included, if and only if no message changes a kept phase in these alone |
| Timeline.EqualStep | sdk/src/state.ts:503-535 | a replica equal to the store stays equal over one change if and only if that change is not such a silent one |
| Timeline.PathChangeIsSilent | sdk/src/state.ts:528-535 | two messages after which the listener holds a path the store no longer has |
| FileTree.BuildTrie | sdk/src/session.ts:49-68 | the loop over the paths builds the fold of insertions over those with a non-empty segment |
| FileTree.BuildFileTree | sdk/src/session.ts:39-87 | the result is the tree of the paths |
| FileTree.TreeExact | sdk/src/session.ts:39-87 | flattening the tree gives back the multiset of input paths with a non-empty segment |
| FileTree.TreeInPlace | sdk/src/session.ts:70-84 | at every level directories come first, siblings are sorted, directory names are unique, directories are non-empty with the slash-join of the names above as path, and every file is where its segments say |
| FileTree.FoldShape | sdk/src/session.ts:49-68 | below a directory the trie has, for each name, exactly the trie of the paths that go through it |
| FileTreePaths.SegmentsClean | sdk/src/session.ts:50-50 | no segment is empty or holds a slash |
| FileTreePaths.SegmentsAppend | sdk/src/session.ts:50-50 | the segments of two paths with a slash between are those of the one, then those of the other, so leading, trailing and doubled slashes do not matter |
| FileTreePaths.SegmentsJoin | sdk/src/session.ts:50-50 | joining non-empty names without slashes by slashes gives a path with exactly these segments |
| FileTreePaths.SegmentsAreRuns | sdk/src/session.ts:50-50 | a path has as many segments as maximal runs of characters other than the slash |
| FileTreePaths.FilesAtDepth | sdk/src/session.ts:39-87 | a file is k directories down if and only if its path has k + 1 such runs, and each input path is there as often as it was given |
| FileTreeOrder.SameTree | sdk/src/session.ts:39-87 | permuting inputs without two paths of the same segments gives the same tree |
| FileTreeOrder.OrderMatters | sdk/src/session.ts:70-84 | swapping two different paths with the same segments changes the tree, at any depth |
| FileTreeOrder.OrderFreeExactly | sdk/src/session.ts:39-87 | for a total order on names the tree is independent of input order if and only if no two different paths have the same segments |
| Retry.BackoffBounds | sdk/src/retry.ts:22-27 | a delay is never negative, lies between floor(0.8 b) and 1.2 b for its base b, and is 0 for a base that is not positive |
| Retry.BackoffExactly | sdk/src/retry.ts:22-27 | for settings that are not negative, delay i is the whole part of b * (0.8 + 0.4 * draw), where b is the initial delay doubled i times and capped at the largest |
| Retry.FirstDelays | sdk/src/retry.ts:22-27 | attempts below 0 wait as the first one |
| Retry.TotalDelay | sdk/src/retry.ts:22-27 | n delays sum to at most 1.2 * min(n * max, init * (2^n - 1)) for non-negative settings and to 0 otherwise |
| Retry.TotalDelayWithin | sdk/src/retry.ts:22-27 | n delays sum to at least 0.8 and at most 1.2 times the sum of the doubled, capped delays, less one millisecond each for rounding |
| Retry.CappedSumIs | sdk/src/retry.ts:22-27 | that sum is init * (2^n - 1) until the largest delay is reached, and grows by the largest delay from then on |
| Retry.ClientSettings | sdk/src/http.ts:16-33 | settings given to a client win over the defaults, an explicit 0 and an explicit false too; without a given maxRetries a call makes 1 to 4 requests |
| Retry.HttpClient.FetchJson | sdk/src/http.ts:100-130 | the number of requests, the delays slept, the outcome and whether the call left through the throw behind the loop, for every sequence of replies; a type error while decoding a successful reply is retried too |
| Retry.HttpClient.FetchRaw | sdk/src/http.ts:132-162 | the same for raw responses, whose body is never decoded |
| Retry.RetryableExactly | sdk/src/http.ts:100-162 | worth another attempt are exactly status 500 to 599, a failed connection, and a success whose body fails to decode with a type error |
| Retry.FirstSettled | sdk/src/http.ts:100-162 | the first reply that is not, or the last one allowed, decides the call, with one sleep before each request but the first: a success gives its value, any other status and any other failure its error |
| Retry.RequestsExactly | sdk/src/http.ts:100-162 | every reply before the last request was retryable, the last was not unless the retries were used up, and there is no request exactly for a negative maxRetries |
| Retry.TrailingThrowExactly | sdk/src/http.ts:104-129 | for every configuration and all replies, every request made is retried, so that the throw behind the loop is reached, if and only if maxRetries is negative, or retries are on, maxRetries is not whole and every attempt up to its floor gets a retryable reply |
| Retry.HalfRetry | sdk/src/http.ts:104-129 | an input at which it is reached although maxRetries is not negative: half a retry and a server that always fails |
| Retry.DefaultBudget | sdk/src/http.ts:16-21 | with the defaults a call makes at most 4 requests and sleeps at most 8.4 s |
| Retry.DefaultRetriesTake | sdk/src/http.ts:16-21 | three retries with the defaults sleep at least 5.6 and at most 8.4 s |
| ErrorStore.HashInputExactly | container/storage.ts:321-328 | two errors are hashed alike if and only if one level begins with digits that end the other message and goes on as the other level; with levels of equally many digits, if and only if they are the same |
| ErrorStore.LevelsShareHashInput | container/storage.ts:321-328 | two reported errors of different messages and levels, cleaned, with the same hash input |
| ErrorStore.ErrorStorage.StoreOnce | container/storage.ts:321-357 | a store counts one more occurrence in the row of its hash or adds a row; a failed one changes nothing |
| ErrorStore.ErrorStorage.StoreError | container/storage.ts:126-136 | at most three calls are made, the first success ends them, and the error is then stored exactly once |
| ErrorStore.ErrorStorage.ClearErrors | container/storage.ts:412-423 | clearing removes the instance's rows and reports how many |
| ErrorStore.ErrorStorage.GetErrorSummary | container/storage.ts:368-409 | total is the sum of occurrences and of the level counts, unique the number of groups, repeated their difference |
| ErrorStore.CountsConserve | container/storage.ts:321-357 | in every run there is at most one row per instance and hash, and its count is the number of successful stores since the instance's last clear |
| ErrorStore.TotalConserves | container/storage.ts:368-409 | the reported total is the number of successful stores since the last clear |
| ErrorContents.LevelsExactly | container/storage.ts:368-409 | after any run a summary reports for each level the occurrences in the instance's rows of that level |
| ErrorStore.GroupsConserve | container/storage.ts:275-305 | grouping by hash loses no occurrence |
| ErrorStore.UniqueErrorsAreRows | container/storage.ts:275-305 | in every reachable table the unique errors of an instance are its rows |
| ErrorContents.RowTells | container/storage.ts:321-357 | after any run an error has a row if and only if it was stored since its instance's last clear; process, level and message are those of the first such store, time and raw output those of the latest |
| ErrorContents.IdsIncrease | container/storage.ts:246-258 | in every run row ids are never repeated and increase with the order of the rows |
| LogStore.LogStorage.constructor | container/storage.ts:530-533 | opening starts the counter one past the highest number in the table |
| LogStore.LogStorage.StoreLog | container/storage.ts:535-554 | the counter moves even when the insert fails |
| LogStore.LogStorage.StoreLogs | container/storage.ts:556-580 | the loop inside the transaction computes the batch specification, and on success returns the consecutive numbers given |
| LogStore.BatchEffect | container/storage.ts:556-580 | a batch is in the table, in order and under consecutive numbers, exactly when every statement succeeds; otherwise the rows are untouched and only the counter has moved |
| LogContents.AppendExactly | container/storage.ts:535-554 | in every reachable table one stored log is added under the counter's number if and only if its statement succeeds; the counter moves by one either way |
| LogContents.FailedBatch | container/storage.ts:556-580 | a failed batch leaves the rows, and the counter moves past the insert that failed, past all of them if the commit failed, and not at all if the transaction did not begin |
| LogContents.PageDefaults | container/storage.ts:582-617 | a missing or zero limit is 100, a missing offset 0, and a negative limit gives everything from the offset on |
| LogStore.LogStorage.GetLogs | container/storage.ts:582-617 | the page, its cursor, hasMore and the total, for missing, zero and negative limits and offsets |
| LogStore.LogStorage.ClearLogs | container/storage.ts:620-634 | clearing removes exactly the instance's rows and reports how many |
| LogStore.LogStorage.CleanupOldLogs | container/storage.ts:698-708 | retention removes exactly the rows before the cutoff and reports how many |
| LogStore.LogStorage.Reopen | container/storage.ts:530-533 | a later run starts its counter from the table alone |
| LogStore.OrderedRun | container/storage.ts:530-580 | in every reachable table numbers are unique and increase with insertion order, across failed batches, clears, retention and reopening; the UNIQUE constraint never fires |
| LogContents.RowLives | container/storage.ts:556-708 | after any run a log is in the table, with its time and number, if and only if a batch all of whose statements succeeded stored it and since then its instance was not cleared and no retention cutoff passed its time |
| LogStore.IssuedIncrease | container/storage.ts:530-580 | no number is ever given out twice in a run that reopens only while the last log stored is in the table |
| LogStore.ReopenExactly | container/storage.ts:530-533 | reopening keeps the next number above every earlier one if and only if the last log stored is still in the table |
| LogStore.NumberReused | container/storage.ts:530-533 | a run in which a number is given out twice |
| LogContents.SelectedExactly | container/storage.ts:505-510 | the query returns the logs of the instance and no others |
| LogStore.SelectedNewestFirst | container/storage.ts:505-510 | the query returns the instance's logs, last stored first |
| LogStore.PagingComplete | container/storage.ts:582-617 | stepping by the number returned until hasMore is false terminates and visits every log of the instance exactly once, newest first, for every limit |
| LogStore.PageFacts | container/storage.ts:582-617 | a page is full unless logs run out, hasMore says whether an older log is left, and the cursor names the page's newest log |
| LogStore.StoringShiftsPages | container/storage.ts:582-617 | logs stored between page requests push the rest back by their number: logs may be seen again, none is missed |
| DevVars.ReadVars | scripts/setup.ts:1187-1200 | the reading loop computes the fold over the lines |
| DevVars.ReadReadable | scripts/setup.ts:1187-1200 | reading any text gives distinct names that can be written back, and values without newlines |
| DevVars.ReadResume | scripts/setup.ts:1190-1199 | text that ends its last line can be read on its own, so later lines override earlier ones |
| DevVars.ReadAssign | scripts/setup.ts:1194-1196 | a written assignment is read as its name and the value between the quotes, with any `=` and quotes in it |
| DevVars.ReadIgnores | scripts/setup.ts:1190-1199 | blank lines, comments and lines without a name or without `=` are skipped |
| DevVars.UnquoteOnlyPairs | scripts/setup.ts:1195-1195 | quotes are removed only in pairs at both ends |
| DevVars.RereadExactly | scripts/setup.ts:1195-1195 | a value written between quotes reads the same if and only if it has no line terminator, otherwise with the quotes |
| DevVars.ReadRendered | scripts/setup.ts:1190-1199 | reading written lines has the effect of their assignments |
| DevVarsFile.CollectWorkerVars | scripts/setup.ts:1221-1226 | the loop keeps the old values of worker variables that the setup does not manage |
| DevVarsFile.CollectPreservedVars | scripts/setup.ts:1213-1218 | the loop keeps exactly the variables nobody manages, in order |
| DevVarsFile.WriteEntries | scripts/setup.ts:1287-1295 | a non-empty block is written under its heading, one assignment a line |
| DevVarsLayout.BlocksSorted | scripts/setup.ts:1287-1316 | for a total collation the two blocks of kept variables stand under their headings, sorted by name, and a block without variables is not written at all |
| DevVarsFile.WriteUnset | scripts/setup.ts:1298-1307 | unset worker variables are written as comments under their heading |
| DevVarsLayout.PlaceholdersExactly | scripts/setup.ts:1298-1307 | of the worker's variables exactly those are offered as comments that the setup does not manage and the old file did not have |
| DevVarsLayout.PlaceholdersSorted | scripts/setup.ts:1298-1307 | if there are any they stand under their heading, sorted by code units |
| DevVarsLayout.ProvidedPlaceholders | scripts/setup.ts:1248-1258 | of the setup's optional variables exactly those without a value are offered as comments |
| DevVarsLayout.PlaceholderUncomments | scripts/setup.ts:1298-1307 | an offered line is skipped by the reader, and without its `#` sets the name to nothing |
| DevVarsFile.WriteProvided | scripts/setup.ts:1248-1258 | configured variables are written as assignments, others as comments |
| DevVarsFile.WriteHead | scripts/setup.ts:1228-1285 | the part of the file that the setup decides |
| DevVarsFile.GenerateDevVarsFile | scripts/setup.ts:1178-1318 | the whole generation computes the specified file |
| DevVarsFile.ForeignRoundTripExactly | scripts/setup.ts:1187-1318 | a variable of the old file that the setup does not manage reads the same in the new file if and only if its value has no line terminator; otherwise it gains a pair of quotes |
| DevVarsFile.CarriageReturnBreaks | scripts/setup.ts:1195-1195 | a file whose value comes back quoted |
| DevVarsFile.FileSays | scripts/setup.ts:1287-1318 | for every name the new file says the old value if the name is unmanaged and was there, otherwise what the setup's own part says, whatever the configuration contains |
| DevVarsFile.HeadWrites | scripts/setup.ts:1228-1285 | the setup's own part assigns each name exactly the value decided for it |
| DevVarsFile.WholeFile | scripts/setup.ts:1178-1318 | for a single-line configuration, reading the new file gives every name its old value if unmanaged, its decided value otherwise, and no other name |
| DevVarsFile.DecidedTakesEffectExactly | scripts/setup.ts:1203-1218 | a value the setup decides, as it is read back from between the quotes it is written in, is what the new file says if and only if the name is not USE_TUNNEL_FOR_PREVIEW with another value in the old file; a decided value without a line terminator is then exactly what the file says, and one with a carriage return comes back with the quotes |
| DevVarsFile.OldTunnelWins | scripts/setup.ts:1283-1285 | an old file and a configuration for which the new file keeps the old tunnel setting |
| Migration.TimestampOfId | debug-tools/migration_tester.py:34-43 | the timestamp of an id `conv-{timestamp}-{random}` is read back |
| Migration.TimestampOtherwise | debug-tools/migration_tester.py:34-43 | a missing random part does not matter; ids of another form and times that are no number count as 0 |
| Migration.MadeUpKeyExactly | debug-tools/migration_tester.py:57-66 | two messages without an id and of the same role have the same key if and only if the first 100 characters of their texts agree |
| Migration.ApplyMigrationAlgorithm | debug-tools/migration_tester.py:45-121 | the loops compute the specified messages and counts; original = final + duplicates removed + memos removed |
| Migration.Partition | debug-tools/migration_tester.py:79-106 | the filtering loop splits into real messages and memos, in order, losing none |
| Migration.DedupeFirsts | debug-tools/migration_tester.py:53-71 | deduplication keeps exactly the first message of each key, in input order |
| Migration.MigrationIdempotent | debug-tools/migration_tester.py:45-121 | migrating twice is migrating once |
| Migration.MigratedOrdered | debug-tools/migration_tester.py:45-121 | the result has no key twice and is ordered by extracted timestamp |
| Migration.SurvivesExactly | debug-tools/migration_tester.py:45-121 | a message is in the result if and only if it is the first of its key and, with more than 25 unique messages, no memo |
| Migration.MemoExactly | debug-tools/migration_tester.py:85-98 | a memo is exactly a message whose text, or whose JSON if it is not a string, holds one of the two markers |
| Migration.TiesInInputOrder | debug-tools/migration_tester.py:73-73 | the result is a rearrangement of the kept messages in which equal timestamps stay in input order |
| Migration.IdReportedExactly | debug-tools/migration_tester.py:57-71 | an id of the input is reported if and only if the first message with that key carries it |
| Migration.MadeUpKeyDisplaces | debug-tools/migration_tester.py:57-71 | a message whose made-up key removes another message with that id |

## Left out

- Real files, SQLite, `spawn`, signals, `fetch` and `WebSocket` are events, oracles or steps on abstract state.
- UTF-8 decoding, `JSON.parse`, SHA-256, Python's `int` and `localeCompare` are arbitrary functions; the tree theorems assume the comparison is a total preorder or total order, the file theorems assume nothing of it.
- The CLI's own reset path (container/cli-tools.ts:855-880) recreates the log with a truncating write, so a line appended in between is lost; the drain theorems are about `getAllLogsAndReset`.
- Log trimming, `SimpleLogManager.cleanup` and failing reads of the temporary file discard content on purpose or on errors.
- LogProtocol.MutualExclusion: assumes that reading the lock file and comparing it with the clock is one step, and one clock for all processes.
- Awaits on monitor log writes take no time and handlers are atomic; a listener that calls back into an emitting object is not modelled.
- The monitor's timers are modelled by whether they are pending, not by their delays; the restart delay and the kill timeout are left to the interleaving.
- Health.KillExactly: is about the probes of one run, where the process does not come back to running; probes that outlive their run are not modelled, and neither are the other checks of `performHealthCheck`.
- RingBuffer.CircularBuffer.Push: with capacity 0 the source's `head` and `tail` become NaN; nothing is ever read then, and the model leaves them at 0.
- Timestamps and process ids of log lines, and JSON detection of error lines in `processStreamData`, do not affect framing.
- Connection.AgentConnection.SendMessage: `ws.send` on a socket that is closing or closed discards the message silently; the model records the hand-off, as the source cannot tell.
- The branch for a missing global `WebSocket` and the routing of incoming messages in `ws.ts`.
- SessionStateStore's other fields and `clear()` are left out, as they do not touch the timeline.
- FileTree.BuildTrie: the trie is a value rebuilt along the path, so updating shared `Map`s in place and aliasing are not captured.
- `maxRetries: Infinity` in `HttpClient`: an endless loop while replies stay retryable; access tokens and URL building are left out.
- Floating-point rounding of delays: reals are used, and the random draw is a parameter in [0, 1).
- `cleanMessageForHashing` is an arbitrary function; the dates and the ordering of error rows in summaries are left out.
- LogStore: two stores open on one database at once are not modelled, and neither are `getLogStats` and filters that `getLogs` ignores.
- DevVarsFile.WholeFile: requires that nothing in the configuration contains a newline, as it is typed at a prompt; DevVarsFile.FileSays and DevVarsFile.ForeignRoundTripExactly do not.
- `parseWorkerConfiguration` is a list of distinct names without newlines, which its pattern guarantees.
- The longest message of a migration result, and roles that are not strings.
- `WorkspaceStore`, `TypedEmitter`, `shared/constants/limits.ts`, React code, Hono routing, OAuth, Cloudflare calls and deployment would add easy members or are I/O.
