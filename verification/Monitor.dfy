// The life cycle of ProcessMonitor (container/process-monitor.ts): start, stop,
// the child's exit and error events and the restart timer.
//
// Each handler is one step; the awaits on monitor log writes take no time, and
// stop()'s wait in killProcess is a real suspension. The old child's listeners
// are never removed, so exit events carry the generation of their child and
// all of them reach the same handler.
module Monitor {

  const STABILITY_THRESHOLD_MS := 300000
  const INACTIVITY_THRESHOLD_MS := 30000

  datatype PState = Stopped | Starting | Running | Stopping | Crashed

  datatype Options = Options(autoRestart: bool, maxRestarts: int, healthCheckInterval: int)

  datatype Time = Never | At(ms: int)

  // `childProcess`; `exited` says that its exit code or signal is set.
  datatype Child = NoChild | Child(gen: nat, exited: bool)

  datatype ExitCode = Null | Code(code: int)

  // What spawn does: a child, a child process object without a process, or an
  // exception.
  datatype Spawn = Spawned | NoPid | Throws

  // Emitted events, and the log entries that count restarts.
  datatype Note =
    | StateChanged(from: PState, to: PState)
    | ProcessStarted(gen: nat)
    | ProcessStopped
    | ProcessCrashed(gen: nat, willRestart: bool)
    | RestartScheduled(attempt: nat)
    | CounterReset
    | RestartFailed
    | StopReturned(success: bool)
    | StartRefused

  // The fields of the monitor, the children alive in the system, and the stop
  // calls that wait in killProcess.
  datatype MonitorState = MonitorState(
    state: PState,
    restartCount: nat,
    restartTimer: bool,
    healthTimer: bool,
    child: Child,
    lastActivity: int,
    lastSuccessfulStart: Time,
    endTime: Time,
    trace: seq<Note>,
    live: set<nat>,
    spawned: nat,
    stopsWaiting: nat)

  const INITIAL := MonitorState(Stopped, 0, false, false, NoChild, 0, Never, Never, [], {}, 0, 0)

  datatype Event =
    | Start(now: int, spawn: Spawn)
    | Stop(signalSent: bool)
    | StopResumes                      // by the child's exit or by the kill timeout
    | Exit(gen: nat, code: ExitCode, signal: bool, at: int)
    | ErrorEvent
    | TimerFires(now: int, spawn: Spawn)
    | Output(at: int)

  function Emit(m: MonitorState, n: Note): MonitorState {
    m.(trace := m.trace + [n])
  }

  function SetState(m: MonitorState, to: PState): MonitorState {
    if m.state == to then m else Emit(m.(state := to), StateChanged(m.state, to))
  }

  // setState touches the state and the trace alone.
  lemma SetStateFrame(m: MonitorState, to: PState)
    ensures SetState(m, to) == m.(state := to, trace := SetState(m, to).trace)
  {
  }

  // ------------------------------------------------------------------
  // The handlers as functions
  // ------------------------------------------------------------------

  predicate WasStable(m: MonitorState) {
    m.lastSuccessfulStart.At? && m.endTime.At? && m.endTime.ms - m.lastSuccessfulStart.ms > STABILITY_THRESHOLD_MS
  }

  function ResetCounter(m: MonitorState): MonitorState {
    if WasStable(m) then Emit(m.(restartCount := 0), CounterReset) else m
  }

  function OnSpawned(m: MonitorState, o: Options, now: int): MonitorState {
    var m1 := m.(
      child := Child(m.spawned, false), spawned := m.spawned + 1, live := m.live + {m.spawned},
      endTime := Never, healthTimer := m.healthTimer || o.healthCheckInterval > 0);
    Emit(SetState(m1, Running).(lastActivity := now, lastSuccessfulStart := At(now)), ProcessStarted(m.spawned))
  }

  // Without a process id the new object replaces the child; an exception keeps it.
  function Unspawned(m: MonitorState, spawn: Spawn): MonitorState {
    if spawn.NoPid? then m.(child := Child(m.spawned, true), spawned := m.spawned + 1) else m
  }

  function OnStart(m: MonitorState, o: Options, now: int, spawn: Spawn): MonitorState {
    if m.state != Stopped && m.state != Crashed then Emit(m, StartRefused)
    else
      var m1 := ResetCounter(SetState(m, Starting));
      match spawn
      case Spawned => OnSpawned(m1, o, now)
      case _ => SetState(Unspawned(m1, spawn), Stopped)
  }

  // The end of stop(), after killProcess.
  function FinishStop(m: MonitorState): MonitorState {
    var m1 := if m.state == Stopping then Emit(SetState(m, Stopped), ProcessStopped) else m;
    Emit(m1, StopReturned(true))
  }

  function OnStop(m: MonitorState, signalSent: bool): MonitorState {
    if m.state == Stopped then Emit(m, StopReturned(true))
    else if m.state == Starting then Emit(m, StopReturned(false))
    else
      var m1 := SetState(m, Stopping).(restartTimer := false, healthTimer := false);
      if m.child.NoChild? || m.child.exited || !signalSent then FinishStop(m1)
      else m1.(stopsWaiting := m.stopsWaiting + 1)
  }

  function OnStopResumes(m: MonitorState): MonitorState {
    if m.stopsWaiting == 0 then m else FinishStop(m.(stopsWaiting := m.stopsWaiting - 1))
  }

  function ShouldRestartAfterExit(m: MonitorState, o: Options, code: ExitCode, signal: bool, wasStopping: bool, at: int): bool {
    if wasStopping then false
    else if m.restartCount >= o.maxRestarts then false
    else if signal then true
    else if code == Code(0) then at - m.lastActivity > INACTIVITY_THRESHOLD_MS
    else true
  }

  function ScheduleRestart(m: MonitorState): MonitorState {
    Emit(m.(restartCount := m.restartCount + 1, restartTimer := true), RestartScheduled(m.restartCount + 1))
  }

  function Exited(m: MonitorState, gen: nat, at: int): MonitorState {
    m.(endTime := At(at), live := m.live - {gen},
       child := if m.child.Child? && m.child.gen == gen then Child(gen, true) else m.child)
  }

  function OnCrash(m: MonitorState, gen: nat, shouldRestart: bool): MonitorState {
    var crashed := Emit(SetState(m, Crashed), ProcessCrashed(gen, shouldRestart));
    if shouldRestart then ScheduleRestart(crashed) else crashed
  }

  function OnCleanExit(m: MonitorState): MonitorState {
    if m.state != Stopped then Emit(SetState(m, Stopped), ProcessStopped) else m
  }

  function OnExit(m: MonitorState, o: Options, gen: nat, code: ExitCode, signal: bool, at: int): MonitorState {
    if gen !in m.live then m
    else
      var shouldRestart := m.state == Running && o.autoRestart
        && ShouldRestartAfterExit(m, o, code, signal, m.state == Stopping, at);
      if m.state == Running && (code != Code(0) || shouldRestart) then OnCrash(Exited(m, gen, at), gen, shouldRestart)
      else OnCleanExit(Exited(m, gen, at))
  }

  function OnError(m: MonitorState): MonitorState {
    if m.state == Running || m.state == Starting then SetState(m, Crashed) else m
  }

  function OnTimer(m: MonitorState, o: Options, now: int, spawn: Spawn): MonitorState {
    if !m.restartTimer then m
    else
      var m1 := m.(restartTimer := false);
      if m.state == Stopped || m.state == Stopping then m1
      else
        var m2 := OnStart(m1, o, now, spawn);
        if m2.state == Running && m2.spawned > m1.spawned then m2 else Emit(m2, RestartFailed)
  }

  function Step(m: MonitorState, o: Options, e: Event): MonitorState {
    match e
    case Start(now, spawn) => OnStart(m, o, now, spawn)
    case Stop(signalSent) => OnStop(m, signalSent)
    case StopResumes => OnStopResumes(m)
    case Exit(gen, code, signal, at) => OnExit(m, o, gen, code, signal, at)
    case ErrorEvent => OnError(m)
    case TimerFires(now, spawn) => OnTimer(m, o, now, spawn)
    case Output(at) => m.(lastActivity := at)
  }

  function Run(m: MonitorState, o: Options, events: seq<Event>): MonitorState
    decreases |events|
  {
    if events == [] then m else Run(Step(m, o, events[0]), o, events[1..])
  }

  // ------------------------------------------------------------------
  // The handlers as methods on the fields
  // ------------------------------------------------------------------

  class ProcessMonitor {
    const options: Options
    var state: PState
    var restartCount: nat
    var restartTimer: bool
    var healthCheckTimer: bool
    var childProcess: Child
    var lastActivity: int
    var lastSuccessfulStart: Time
    var endTime: Time
    var emitted: seq<Note>
    ghost var live: set<nat>
    var spawned: nat
    var stopsWaiting: nat

    ghost function View(): MonitorState
      reads this
    {
      MonitorState(state, restartCount, restartTimer, healthCheckTimer, childProcess, lastActivity, lastSuccessfulStart,
        endTime, emitted, live, spawned, stopsWaiting)
    }

    constructor (options: Options)
      ensures View() == INITIAL && this.options == options
    {
      this.options := options;
      state, restartCount, restartTimer, healthCheckTimer := Stopped, 0, false, false;
      childProcess, lastActivity, lastSuccessfulStart, endTime := NoChild, 0, Never, Never;
      emitted, live, spawned, stopsWaiting := [], {}, 0, 0;
    }

    method Change(newState: PState)
      modifies this`state, this`emitted
      ensures View() == SetState(old(View()), newState)
    {
      var oldState := state;
      state := newState;
      if oldState != newState {
        emitted := emitted + [StateChanged(oldState, newState)];
      }
    }

    method StartProcess(now: int, spawn: Spawn) returns (success: bool)
      modifies this
      ensures View() == OnStart(old(View()), options, now, spawn)
      ensures success <==> spawn.Spawned? && (old(state) == Stopped || old(state) == Crashed)
    {
      hide SetState;
      ghost var m := View();
      if state != Stopped && state != Crashed {
        emitted := emitted + [StartRefused];
        return false;
      }
      SetStateFrame(m, Starting);
      Change(Starting);
      ResetStableCounter();
      success := spawn.Spawned?;
      ghost var m2 := View();
      assert m2 == ResetCounter(SetState(m, Starting));
      if spawn.Spawned? {
        SpawnChild(now);
      } else {
        if spawn.NoPid? {
          childProcess := Child(spawned, true);
          spawned := spawned + 1;
        }
        Change(Stopped);
      }
    }

    method ResetStableCounter()
      modifies this`restartCount, this`emitted
      ensures View() == ResetCounter(old(View()))
      ensures restartCount ==
        if lastSuccessfulStart.At? && endTime.At? && endTime.ms - lastSuccessfulStart.ms > 300000 then 0
        else old(restartCount)
    {
      if lastSuccessfulStart.At? && endTime.At? {
        var runDuration := endTime.ms - lastSuccessfulStart.ms;
        if runDuration > STABILITY_THRESHOLD_MS {
          emitted := emitted + [CounterReset];
          restartCount := 0;
        }
      }
    }

    method SpawnChild(now: int)
      modifies this
      ensures View() == OnSpawned(old(View()), options, now)
    {
      hide SetState;
      ghost var m := View();
      childProcess := Child(spawned, false);
      live := live + {spawned};
      spawned := spawned + 1;
      endTime := Never;
      if options.healthCheckInterval > 0 {
        healthCheckTimer := true;
      }
      ghost var m1 := View();
      assert m1 == m.(
        child := Child(m.spawned, false), spawned := m.spawned + 1, live := m.live + {m.spawned},
        endTime := Never, healthTimer := m.healthTimer || options.healthCheckInterval > 0);
      SetStateFrame(m1, Running);
      Change(Running);
      assert View() == SetState(m1, Running);
      lastActivity, lastSuccessfulStart := now, At(now);
      emitted := emitted + [ProcessStarted(childProcess.gen)];
    }

    // stop() up to its wait; `waits` says that it is now waiting.
    method StopProcess(signalSent: bool) returns (waits: bool)
      modifies this
      ensures View() == OnStop(old(View()), signalSent)
    {
      waits := false;
      if state == Stopped {
        emitted := emitted + [StopReturned(true)];
        return;
      }
      if state == Starting {
        emitted := emitted + [StopReturned(false)];
        return;
      }
      Change(Stopping);
      if restartTimer {
        restartTimer := false;
      }
      if healthCheckTimer {
        healthCheckTimer := false;
      }
      if childProcess.Child? && !childProcess.exited && signalSent {
        stopsWaiting := stopsWaiting + 1;
        waits := true;
      } else {
        FinishStopping();
      }
    }

    method FinishStopping()
      modifies this`state, this`emitted
      ensures View() == FinishStop(old(View()))
    {
      if state == Stopping {
        Change(Stopped);
        emitted := emitted + [ProcessStopped];
      }
      emitted := emitted + [StopReturned(true)];
    }

    method ResumeStop()
      modifies this
      ensures View() == OnStopResumes(old(View()))
    {
      if stopsWaiting > 0 {
        stopsWaiting := stopsWaiting - 1;
        FinishStopping();
      }
    }

    method HandleExit(gen: nat, code: ExitCode, signal: bool, at: int)
      requires gen in live
      modifies this
      ensures View() == OnExit(old(View()), options, gen, code, signal, at)
    {
      hide SetState, ShouldRestartAfterExit, ScheduleRestart;
      var wasRunning := state == Running;
      var wasStopping := state == Stopping;
      var shouldRestart := false;
      if wasRunning && options.autoRestart {
        shouldRestart := DecideRestart(code, signal, wasStopping, at);
      }
      RecordExit(gen, at);
      if wasRunning && (code != Code(0) || shouldRestart) {
        Crash(gen, shouldRestart);
      } else {
        StopAfterExit();
      }
    }

    method RecordExit(gen: nat, at: int)
      modifies this`endTime, this`live, this`childProcess
      ensures View() == Exited(old(View()), gen, at)
    {
      endTime := At(at);
      live := live - {gen};
      if childProcess.Child? && childProcess.gen == gen {
        childProcess := Child(gen, true);
      }
    }

    // The exit was a crash.
    method Crash(gen: nat, shouldRestart: bool)
      modifies this`state, this`emitted, this`restartTimer, this`restartCount
      ensures View() == OnCrash(old(View()), gen, shouldRestart)
    {
      hide SetState;
      Change(Crashed);
      emitted := emitted + [ProcessCrashed(gen, shouldRestart)];
      if shouldRestart {
        ScheduleRestartTimer();
      }
    }

    // The exit was clean or asked for.
    method StopAfterExit()
      modifies this`state, this`emitted
      ensures View() == OnCleanExit(old(View()))
    {
      hide SetState;
      if state != Stopped {
        Change(Stopped);
        emitted := emitted + [ProcessStopped];
      }
    }

    // shouldRestartAfterExit
    method DecideRestart(code: ExitCode, signal: bool, wasStopping: bool, at: int) returns (again: bool)
      ensures again == ShouldRestartAfterExit(View(), options, code, signal, wasStopping, at)
    {
      if wasStopping { return false; }
      if restartCount >= options.maxRestarts { return false; }
      if signal { return true; }
      if code == Code(0) {
        var timeSinceLastActivity := at - lastActivity;
        return timeSinceLastActivity > INACTIVITY_THRESHOLD_MS;
      }
      return true;
    }

    method ScheduleRestartTimer()
      modifies this`restartTimer, this`restartCount, this`emitted
      ensures View() == ScheduleRestart(old(View()))
    {
      if restartTimer {
        restartTimer := false;
      }
      restartCount := restartCount + 1;
      emitted := emitted + [RestartScheduled(restartCount)];
      restartTimer := true;
    }

    method HandleError()
      modifies this
      ensures View() == OnError(old(View()))
    {
      if state == Running || state == Starting {
        Change(Crashed);
      }
    }

    method FireRestartTimer(now: int, spawn: Spawn)
      requires restartTimer
      modifies this
      ensures View() == OnTimer(old(View()), options, now, spawn)
    {
      restartTimer := false;
      if state == Stopped || state == Stopping { return; }
      var success := StartProcess(now, spawn);
      if !success {
        emitted := emitted + [RestartFailed];
      }
    }
  }

  // ------------------------------------------------------------------
  // When a child is restarted
  // ------------------------------------------------------------------

  // An exit of a running child schedules a restart exactly when restarts are
  // on, the bound is not reached and the exit was not a clean, recent one; it
  // counts as a crash exactly when it was not clean or is restarted.
  lemma ExitDecision(m: MonitorState, o: Options, gen: nat, code: ExitCode, signal: bool, at: int)
    requires m.state == Running && gen in m.live
    ensures
      var t := OnExit(m, o, gen, code, signal, at);
      var idle := at - m.lastActivity > INACTIVITY_THRESHOLD_MS;
      var again := o.autoRestart && m.restartCount < o.maxRestarts && (signal || code != Code(0) || idle);
      && t.state == (if code != Code(0) || again then Crashed else Stopped)
      && t.restartCount == m.restartCount + (if again then 1 else 0)
      && (t.restartTimer <==> m.restartTimer || again)
  {
  }
}
