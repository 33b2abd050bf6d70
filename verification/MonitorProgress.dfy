// What the supervisor (container/process-monitor.ts) does for its process: a
// child that fails is started again, and a long run earns a new allowance.
module MonitorProgress {
  import opened Monitor

  predicate CanStart(m: MonitorState) {
    m.state == Stopped || m.state == Crashed
  }

  // A start that is accepted, by a call or by the restart timer.
  predicate Accepted(m: MonitorState, e: Event) {
    (e.Start? && CanStart(m)) || (e.TimerFires? && m.restartTimer && m.state == Crashed)
  }

  // The allowance after a start: a full one if the last finished run was longer
  // than five minutes, otherwise what is left of the old one.
  lemma StartResetsExactly(m: MonitorState, o: Options, e: Event)
    requires Accepted(m, e)
    ensures
      var t := Step(m, o, e);
      t.restartCount ==
        if m.lastSuccessfulStart.At? && m.endTime.At? && m.endTime.ms - m.lastSuccessfulStart.ms > 300000 then 0
        else m.restartCount
  {
    hide SetState;
    SetStateFrame(m, Starting);
    SetStateFrame(m.(restartTimer := false), Starting);
    forall s: MonitorState, to: PState ensures SetState(s, to).restartCount == s.restartCount {
      SetStateFrame(s, to);
    }
  }

  ghost predicate Started(m: MonitorState, t: MonitorState, now: int) {
    && t.state == Running && t.child == Child(m.spawned, false) && t.spawned == m.spawned + 1
    && t.live == m.live + {m.spawned}
    && t.lastSuccessfulStart == At(now) && t.endTime == Never && t.lastActivity == now
  }

  lemma SpawnStarts(m: MonitorState, o: Options, now: int)
    ensures Started(m, OnSpawned(m, o, now), now)
  {
    hide SetState;
    SetStateFrame(m.(
      child := Child(m.spawned, false), spawned := m.spawned + 1, live := m.live + {m.spawned},
      endTime := Never, healthTimer := m.healthTimer || o.healthCheckInterval > 0), Running);
  }

  lemma StartStarts(m: MonitorState, o: Options, now: int)
    requires CanStart(m)
    ensures Started(m, OnStart(m, o, now, Spawned), now)
  {
    hide SetState, OnSpawned;
    SetStateFrame(m, Starting);
    SpawnStarts(ResetCounter(SetState(m, Starting)), o, now);
  }

  // A started child runs, is the current one and has its start recorded.
  lemma StartRuns(m: MonitorState, o: Options, e: Event)
    requires Accepted(m, e) && e.spawn.Spawned?
    ensures Started(m, Step(m, o, e), e.now)
  {
    hide OnStart;
    if e.Start? {
      StartStarts(m, o, e.now);
    } else {
      StartStarts(m.(restartTimer := false), o, e.now);
    }
  }

  lemma StartFails(m: MonitorState, o: Options, now: int, spawn: Spawn)
    requires CanStart(m) && !spawn.Spawned?
    ensures OnStart(m, o, now, spawn).state == Stopped
  {
    hide SetState;
    SetStateFrame(m, Starting);
    SetStateFrame(Unspawned(ResetCounter(SetState(m, Starting)), spawn), Stopped);
  }

  // A start that fails leaves the monitor stopped; a failed restart says so.
  lemma FailedStart(m: MonitorState, o: Options, e: Event)
    requires Accepted(m, e)
    ensures
      var t := Step(m, o, e);
      && t.state == (if e.spawn.Spawned? then Running else Stopped)
      && (e.TimerFires? && !e.spawn.Spawned? ==> t.trace != [] && t.trace[|t.trace| - 1] == RestartFailed)
      && (e.TimerFires? && e.spawn.Spawned? ==> t.trace != [] && t.trace[|t.trace| - 1] == ProcessStarted(m.spawned))
  {
    hide OnStart;
    var m1 := if e.TimerFires? then m.(restartTimer := false) else m;
    if e.spawn.Spawned? {
      StartStarts(m1, o, e.now);
      StartSaysSo(m1, o, e.now);
    } else {
      StartFails(m1, o, e.now, e.spawn);
    }
  }

  lemma StartSaysSo(m: MonitorState, o: Options, now: int)
    requires CanStart(m)
    ensures
      var trace := OnStart(m, o, now, Spawned).trace;
      trace != [] && trace[|trace| - 1] == ProcessStarted(m.spawned)
  {
    hide SetState;
    SetStateFrame(m, Starting);
  }

  // ------------------------------------------------------------------
  // A run of the child
  // ------------------------------------------------------------------

  // The monitor stays running throughout.
  predicate Uninterrupted(m: MonitorState, o: Options, events: seq<Event>)
    decreases |events|
  {
    m.state == Running && (events == [] || Uninterrupted(Step(m, o, events[0]), o, events[1..]))
  }

  // An exit of a live child ends the run and records when.
  lemma ExitEndsRun(m: MonitorState, o: Options, gen: nat, code: ExitCode, signal: bool, at: int)
    requires m.state == Running && gen in m.live
    ensures
      var t := Step(m, o, Exit(gen, code, signal, at));
      && CanStart(t) && t.endTime == At(at) && t.lastSuccessfulStart == m.lastSuccessfulStart
      && t.live == m.live - {gen}
  {
    hide ShouldRestartAfterExit;
  }

  lemma RunningStep(m: MonitorState, o: Options, e: Event)
    requires m.state == Running && Step(m, o, e).state == Running
    ensures
      var t := Step(m, o, e);
      && t.restartCount == m.restartCount && t.lastSuccessfulStart == m.lastSuccessfulStart
      && t.live == m.live && t.spawned == m.spawned && t.child == m.child
      && t.lastActivity == if e.Output? then e.at else m.lastActivity
  {
    hide OnExit;
    if e.Exit? {
      if e.gen in m.live {
        ExitEndsRun(m, o, e.gen, e.code, e.signal, e.at);
      } else {
        ForeignExit(m, o, e);
      }
    }
  }

  lemma ForeignExit(m: MonitorState, o: Options, e: Event)
    requires e.Exit? && e.gen !in m.live
    ensures Step(m, o, e) == m
  {
  }

  // When the child last wrote something, or was started.
  function LastOutput(events: seq<Event>, since: int): int {
    if events == [] then since else LastOutput(events[1..], if events[0].Output? then events[0].at else since)
  }

  lemma {:induction false} RunningRun(m: MonitorState, o: Options, events: seq<Event>)
    requires Uninterrupted(m, o, events)
    ensures
      var t := Run(m, o, events);
      && t.state == Running
      && t.restartCount == m.restartCount && t.lastSuccessfulStart == m.lastSuccessfulStart
      && t.live == m.live && t.spawned == m.spawned && t.child == m.child
      && t.lastActivity == LastOutput(events, m.lastActivity)
    decreases |events|
  {
    hide Step;
    if events != [] {
      RunningStep(m, o, events[0]);
      RunningRun(Step(m, o, events[0]), o, events[1..]);
    }
  }

  // ------------------------------------------------------------------
  // Between two runs
  // ------------------------------------------------------------------

  // Nothing ends and nothing is spawned: the times of the last run stay.
  predicate Pause(m: MonitorState, o: Options, events: seq<Event>)
    decreases |events|
  {
    events == [] || (
      && (events[0].Exit? ==> events[0].gen !in m.live)
      && !(Accepted(m, events[0]) && events[0].spawn.Spawned?)
      && Pause(Step(m, o, events[0]), o, events[1..]))
  }

  lemma PauseStart(m: MonitorState, o: Options, now: int, spawn: Spawn)
    requires !(CanStart(m) && spawn.Spawned?) && m.state != Starting
    ensures
      var t := OnStart(m, o, now, spawn);
      t.endTime == m.endTime && t.lastSuccessfulStart == m.lastSuccessfulStart && t.state != Starting
  {
    hide SetState;
    SetStateFrame(m, Starting);
    SetStateFrame(Unspawned(ResetCounter(SetState(m, Starting)), spawn), Stopped);
  }

  lemma PauseStep(m: MonitorState, o: Options, e: Event)
    requires (e.Exit? ==> e.gen !in m.live) && !(Accepted(m, e) && e.spawn.Spawned?) && m.state != Starting
    ensures
      var t := Step(m, o, e);
      t.endTime == m.endTime && t.lastSuccessfulStart == m.lastSuccessfulStart && t.state != Starting
  {
    hide OnStart, OnExit;
    match e
    case Start(now, spawn) => PauseStart(m, o, now, spawn);
    case TimerFires(now, spawn) =>
      if m.restartTimer && m.state != Stopped && m.state != Stopping {
        PauseStart(m.(restartTimer := false), o, now, spawn);
      }
    case Exit(gen, code, signal, at) => ForeignExit(m, o, e);
    case _ =>
  }

  lemma {:induction false} PauseRun(m: MonitorState, o: Options, events: seq<Event>)
    requires Pause(m, o, events) && m.state != Starting
    ensures
      var t := Run(m, o, events);
      t.endTime == m.endTime && t.lastSuccessfulStart == m.lastSuccessfulStart && t.state != Starting
    decreases |events|
  {
    hide Step, Accepted;
    if events != [] {
      PauseStep(m, o, events[0]);
      PauseRun(Step(m, o, events[0]), o, events[1..]);
    }
  }

  // ------------------------------------------------------------------
  // Restarts
  // ------------------------------------------------------------------

  // A failure: a signal, an exit code other than 0, or a clean exit after more
  // than 30 seconds of silence.
  predicate Fails(m: MonitorState, e: Event) {
    e.Exit? && e.gen in m.live && (e.signal || e.code != Code(0) || e.at - m.lastActivity > 30000)
  }

  // With allowance left, a failure crashes the monitor, and its timer starts a
  // new child.
  lemma FailureIsRestarted(m: MonitorState, o: Options, e: Event, now: int)
    requires m.state == Running && Fails(m, e) && o.autoRestart && m.restartCount < o.maxRestarts
    ensures
      var t := Step(m, o, e);
      var u := Step(t, o, TimerFires(now, Spawned));
      && t.state == Crashed && t.restartTimer && t.restartCount == m.restartCount + 1
      && u.state == Running && u.child == Child(m.spawned, false) && u.live == t.live + {m.spawned}
  {
    var t := Step(m, o, e);
    assert t.state == Crashed && t.restartTimer && t.spawned == m.spawned && t.restartCount == m.restartCount + 1;
    hide Step;
    StartRuns(t, o, TimerFires(now, Spawned));
  }

  // Over whole runs: a child starts at `first.now` and runs for more than five
  // minutes; however it ends, the next child's first failure is restarted.
  lemma RestartAfterLongRun(m: MonitorState, o: Options, first: Event, a: seq<Event>, end: Event, b: seq<Event>,
                            second: Event, c: seq<Event>, failure: Event, now: int)
    requires o.autoRestart && o.maxRestarts > 0
    requires Accepted(m, first) && first.spawn.Spawned? && Uninterrupted(Step(m, o, first), o, a)
    requires
      var m1 := Run(Step(m, o, first), o, a);
      && end.Exit? && end.gen in m1.live && end.at - first.now > 300000
      && Pause(Step(m1, o, end), o, b)
      && var m2 := Run(Step(m1, o, end), o, b);
      && Accepted(m2, second) && second.spawn.Spawned? && Uninterrupted(Step(m2, o, second), o, c)
      && Fails(Run(Step(m2, o, second), o, c), failure)
    ensures
      var m3 := Run(Step(Run(Step(Run(Step(m, o, first), o, a), o, end), o, b), o, second), o, c);
      var t := Step(m3, o, failure);
      && t.state == Crashed && t.restartTimer
      && Step(t, o, TimerFires(now, Spawned)).state == Running
  {
    hide Step, Run, Accepted, Fails, CanStart;
    StartRuns(m, o, first);
    RunningRun(Step(m, o, first), o, a);
    var m1 := Run(Step(m, o, first), o, a);
    ExitEndsRun(m1, o, end.gen, end.code, end.signal, end.at);
    assert Step(m1, o, end).state != Starting by { CanStartMeans(Step(m1, o, end)); }
    PauseRun(Step(m1, o, end), o, b);
    var m2 := Run(Step(m1, o, end), o, b);
    StartResetsExactly(m2, o, second);
    StartRuns(m2, o, second);
    RunningRun(Step(m2, o, second), o, c);
    FailureIsRestarted(Run(Step(m2, o, second), o, c), o, failure, now);
  }

  // A child that ends cleanly is started again exactly when it had been silent
  // for more than 30 seconds, restarts are on and one is left; otherwise the
  // monitor stops.
  lemma CleanExitExactly(m: MonitorState, o: Options, first: Event, events: seq<Event>, gen: nat, at: int)
    requires Accepted(m, first) && first.spawn.Spawned? && Uninterrupted(Step(m, o, first), o, events)
    requires gen in Run(Step(m, o, first), o, events).live
    ensures
      var u := Run(Step(m, o, first), o, events);
      var t := Step(u, o, Exit(gen, Code(0), false, at));
      var again := o.autoRestart && u.restartCount < o.maxRestarts && at - LastOutput(events, first.now) > 30000;
      && t.state == (if again then Crashed else Stopped)
      && t.restartCount == (if again then u.restartCount + 1 else u.restartCount)
      && (again ==> t.restartTimer)
  {
    var start := Step(m, o, first);
    StartRuns(m, o, first);
    hide Step, Run;
    RunningRun(start, o, events);
    CleanExit(Run(start, o, events), o, gen, at);
  }

  lemma CleanExit(m: MonitorState, o: Options, gen: nat, at: int)
    requires m.state == Running && gen in m.live
    ensures
      var t := Step(m, o, Exit(gen, Code(0), false, at));
      var again := o.autoRestart && m.restartCount < o.maxRestarts && at - m.lastActivity > 30000;
      && t.state == (if again then Crashed else Stopped)
      && t.restartCount == (if again then m.restartCount + 1 else m.restartCount)
      && (again ==> t.restartTimer)
  {
  }

  lemma CanStartMeans(m: MonitorState)
    ensures CanStart(m) <==> m.state == Stopped || m.state == Crashed
  {
  }

  // ------------------------------------------------------------------
  // Stopping
  // ------------------------------------------------------------------

  // The current child is the last one made, and is marked as exited exactly when
  // it is not alive.
  predicate Tracked(m: MonitorState) {
    && (m.child.Child? ==> m.child.gen == m.spawned - 1 && (!m.child.exited <==> m.child.gen in m.live))
    && (m.child.NoChild? ==> m.spawned == 0)
    && (forall g :: g in m.live ==> g < m.spawned)
  }

  lemma TrackedStart(m: MonitorState, o: Options, now: int, spawn: Spawn)
    requires Tracked(m)
    ensures Tracked(OnStart(m, o, now, spawn))
  {
    hide SetState, OnSpawned;
    SetStateFrame(m, Starting);
    var m1 := ResetCounter(SetState(m, Starting));
    SpawnStarts(m1, o, now);
    SetStateFrame(Unspawned(m1, spawn), Stopped);
  }

  lemma TrackedExit(m: MonitorState, o: Options, gen: nat, code: ExitCode, signal: bool, at: int)
    requires Tracked(m)
    ensures Tracked(OnExit(m, o, gen, code, signal, at))
  {
    hide ShouldRestartAfterExit, SetState;
    var m1 := Exited(m, gen, at);
    SetStateFrame(m1, Crashed);
    SetStateFrame(m1, Stopped);
  }

  lemma TrackedStep(m: MonitorState, o: Options, e: Event)
    requires Tracked(m)
    ensures Tracked(Step(m, o, e))
  {
    hide OnStart, OnExit, SetState;
    SetStateFrame(m, Stopping);
    SetStateFrame(m, Stopped);
    SetStateFrame(m, Crashed);
    SetStateFrame(m.(stopsWaiting := if m.stopsWaiting > 0 then m.stopsWaiting - 1 else 0), Stopped);
    SetStateFrame(SetState(m, Stopping).(restartTimer := false, healthTimer := false), Stopped);
    match e
    case Exit(gen, code, signal, at) => TrackedExit(m, o, gen, code, signal, at);
    case Start(now, spawn) => TrackedStart(m, o, now, spawn);
    case TimerFires(now, spawn) => TrackedStart(m.(restartTimer := false), o, now, spawn);
    case _ =>
  }

  lemma {:induction false} TrackedRun(m: MonitorState, o: Options, events: seq<Event>)
    requires Tracked(m)
    ensures Tracked(Run(m, o, events))
    decreases |events|
  {
    hide Step, Tracked;
    if events != [] {
      TrackedStep(m, o, events[0]);
      TrackedRun(Step(m, o, events[0]), o, events[1..]);
    }
  }

  // In every reachable state stop() waits exactly when the last child is alive
  // and could be signalled; otherwise the monitor is stopped when it returns.
  lemma StopWaitsExactly(o: Options, before: seq<Event>, signalSent: bool)
    ensures
      var m := Run(INITIAL, o, before);
      var t := Step(m, o, Stop(signalSent));
      m.state == Running || m.state == Crashed || m.state == Stopping ==>
        if signalSent && m.spawned > 0 && m.spawned - 1 in m.live then t.state == Stopping && t.stopsWaiting == m.stopsWaiting + 1
        else t.state == Stopped && t.stopsWaiting == m.stopsWaiting
  {
    TrackedRun(INITIAL, o, before);
    hide Run;
  }

  // The waiting stop ends, by the child's exit or by the kill timeout, stopped.
  lemma WaitEnds(m: MonitorState, o: Options)
    requires m.state == Stopping && m.stopsWaiting > 0
    ensures
      var t := Step(m, o, StopResumes);
      && t.state == Stopped && t.stopsWaiting == m.stopsWaiting - 1
      && t.trace == m.trace + [StateChanged(Stopping, Stopped), ProcessStopped, StopReturned(true)]
  {
  }
}
