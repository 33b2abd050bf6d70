// The restart bound, the victory of stop() over restarts, and when automatic
// restarts never run beside a live child.
module MonitorRestarts {
  import opened Text
  import opened Monitor
  import opened MonitorRuns

  // ------------------------------------------------------------------
  // Restarts are bounded
  // ------------------------------------------------------------------

  // Restarts scheduled since the last stability reset.
  function SinceReset(trace: seq<Note>): nat {
    if trace == [] then 0
    else match Last(trace)
      case CounterReset => 0
      case RestartScheduled(_) => SinceReset(Init(trace)) + 1
      case _ => SinceReset(Init(trace))
  }

  function Bound(o: Options): nat {
    if o.maxRestarts < 0 then 0 else o.maxRestarts
  }

  // At every moment of the trace.
  predicate Bounded(trace: seq<Note>, bound: nat) {
    SinceReset(trace) <= bound && (trace == [] || Bounded(Init(trace), bound))
  }

  ghost predicate Counted(m: MonitorState, o: Options) {
    SinceReset(m.trace) == m.restartCount <= Bound(o) && Bounded(m.trace, Bound(o))
  }

  lemma EmitCounted(m: MonitorState, o: Options, n: Note)
    requires Bounded(m.trace, Bound(o)) && m.restartCount <= Bound(o)
    requires match n
      case CounterReset => m.restartCount == 0
      case RestartScheduled(_) => m.restartCount == SinceReset(m.trace) + 1
      case _ => m.restartCount == SinceReset(m.trace)
    ensures Counted(Emit(m, n), o)
  {
    assert Init(m.trace + [n]) == m.trace && Last(m.trace + [n]) == n;
  }

  lemma SetStateCounted(m: MonitorState, o: Options, to: PState)
    requires Counted(m, o)
    ensures Counted(SetState(m, to), o)
  {
    hide Bounded, SinceReset;
    if m.state != to {
      EmitCounted(m.(state := to), o, StateChanged(m.state, to));
    }
  }

  lemma CountedStart(m: MonitorState, o: Options, now: int, spawn: Spawn)
    requires Counted(m, o)
    ensures Counted(OnStart(m, o, now, spawn), o)
  {
    hide Bounded, SinceReset, SetState;
    if m.state != Stopped && m.state != Crashed {
      EmitCounted(m, o, StartRefused);
    } else {
      SetStateCounted(m, o, Starting);
      SetStateFrame(m, Starting);
      var m1 := SetState(m, Starting);
      if WasStable(m1) {
        EmitCounted(m1.(restartCount := 0), o, CounterReset);
      }
      var m2 := ResetCounter(m1);
      if spawn.Spawned? {
        var m3 := m2.(
          child := Child(m2.spawned, false), spawned := m2.spawned + 1, live := m2.live + {m2.spawned},
          endTime := Never, healthTimer := m2.healthTimer || o.healthCheckInterval > 0);
        SetStateCounted(m3, o, Running);
        SetStateFrame(m3, Running);
        EmitCounted(SetState(m3, Running).(lastActivity := now, lastSuccessfulStart := At(now)), o, ProcessStarted(m2.spawned));
      } else {
        SetStateCounted(Unspawned(m2, spawn), o, Stopped);
      }
    }
  }

  lemma CountedFinish(m: MonitorState, o: Options)
    requires Counted(m, o)
    ensures Counted(FinishStop(m), o)
  {
    hide Bounded, SinceReset, SetState;
    var m1 := m;
    if m.state == Stopping {
      SetStateCounted(m, o, Stopped);
      SetStateFrame(m, Stopped);
      EmitCounted(SetState(m, Stopped), o, ProcessStopped);
      m1 := Emit(SetState(m, Stopped), ProcessStopped);
    }
    EmitCounted(m1, o, StopReturned(true));
  }

  lemma CountedCrash(m: MonitorState, o: Options, gen: nat, shouldRestart: bool)
    requires Counted(m, o) && (shouldRestart ==> m.restartCount < o.maxRestarts)
    ensures Counted(OnCrash(m, gen, shouldRestart), o)
  {
    hide Bounded, SinceReset, SetState;
    SetStateCounted(m, o, Crashed);
    SetStateFrame(m, Crashed);
    EmitCounted(SetState(m, Crashed), o, ProcessCrashed(gen, shouldRestart));
    if shouldRestart {
      var m1 := Emit(SetState(m, Crashed), ProcessCrashed(gen, shouldRestart));
      EmitCounted(m1.(restartCount := m1.restartCount + 1, restartTimer := true), o, RestartScheduled(m1.restartCount + 1));
    }
  }

  lemma CountedCleanExit(m: MonitorState, o: Options)
    requires Counted(m, o)
    ensures Counted(OnCleanExit(m), o)
  {
    hide Bounded, SinceReset, SetState;
    if m.state != Stopped {
      SetStateCounted(m, o, Stopped);
      SetStateFrame(m, Stopped);
      EmitCounted(SetState(m, Stopped), o, ProcessStopped);
    }
  }

  lemma CountedExit(m: MonitorState, o: Options, gen: nat, code: ExitCode, signal: bool, at: int)
    requires Counted(m, o)
    ensures Counted(OnExit(m, o, gen, code, signal, at), o)
  {
    hide Bounded, SinceReset, SetState, OnCrash, OnCleanExit;
    if gen in m.live {
      var m1 := Exited(m, gen, at);
      CountedCleanExit(m1, o);
      CountedCrash(m1, o, gen, false);
      if m.restartCount < o.maxRestarts {
        CountedCrash(m1, o, gen, true);
      }
    }
  }

  lemma CountedStep(m: MonitorState, o: Options, e: Event)
    requires Counted(m, o)
    ensures Counted(Step(m, o, e), o)
  {
    hide Bounded, SinceReset, SetState, OnStart, OnExit, FinishStop;
    match e
    case Start(now, spawn) => CountedStart(m, o, now, spawn);
    case Stop(signalSent) =>
      if m.state == Stopped {
        EmitCounted(m, o, StopReturned(true));
      } else if m.state == Starting {
        EmitCounted(m, o, StopReturned(false));
      } else {
        SetStateCounted(m, o, Stopping);
        SetStateFrame(m, Stopping);
        CountedFinish(SetState(m, Stopping).(restartTimer := false, healthTimer := false), o);
      }
    case StopResumes =>
      if m.stopsWaiting > 0 {
        CountedFinish(m.(stopsWaiting := m.stopsWaiting - 1), o);
      }
    case Exit(gen, code, signal, at) => CountedExit(m, o, gen, code, signal, at);
    case ErrorEvent => SetStateCounted(m, o, Crashed);
    case TimerFires(now, spawn) =>
      CountedStart(m.(restartTimer := false), o, now, spawn);
      EmitCounted(OnStart(m.(restartTimer := false), o, now, spawn), o, RestartFailed);
    case Output(at) =>
  }

  lemma {:induction false} CountedRun(m: MonitorState, o: Options, events: seq<Event>)
    requires Counted(m, o)
    ensures Counted(Run(m, o, events), o)
    decreases |events|
  {
    hide Counted, Step;
    if events != [] {
      CountedStep(m, o, events[0]);
      CountedRun(Step(m, o, events[0]), o, events[1..]);
    }
  }

  function Schedules(trace: seq<Note>): nat {
    if trace == [] then 0
    else (if Last(trace).RestartScheduled? then 1 else 0) + Schedules(Init(trace))
  }

  lemma {:induction false} SchedulesSinceReset(trace: seq<Note>, i: nat, j: nat)
    requires i <= j <= |trace|
    requires forall k :: i <= k < j ==> trace[k] != CounterReset
    ensures Schedules(trace[i..j]) <= SinceReset(trace[..j])
  {
    if i < j {
      assert Init(trace[i..j]) == trace[i..j - 1] && Init(trace[..j]) == trace[..j - 1];
      assert Last(trace[i..j]) == trace[j - 1] == Last(trace[..j]);
      SchedulesSinceReset(trace, i, j - 1);
    }
  }

  lemma {:induction false} BoundedAt(trace: seq<Note>, bound: nat, j: nat)
    requires j <= |trace| && Bounded(trace, bound)
    ensures SinceReset(trace[..j]) <= bound
  {
    if j < |trace| {
      BoundedAt(Init(trace), bound, j);
      assert Init(trace)[..j] == trace[..j];
    } else {
      assert trace[..j] == trace;
    }
  }

  // In every run the counter stays within maxRestarts, and between two
  // stability resets at most maxRestarts restarts are scheduled.
  lemma RestartBound(o: Options, events: seq<Event>, i: nat, j: nat)
    requires i <= j <= |Run(INITIAL, o, events).trace|
    requires forall k :: i <= k < j ==> Run(INITIAL, o, events).trace[k] != CounterReset
    ensures Run(INITIAL, o, events).restartCount <= Bound(o)
    ensures Schedules(Run(INITIAL, o, events).trace[i..j]) <= Bound(o)
  {
    CountedRun(INITIAL, o, events);
    BoundedAt(Run(INITIAL, o, events).trace, Bound(o), j);
    SchedulesSinceReset(Run(INITIAL, o, events).trace, i, j);
  }

  // A child whose every run ends within the stability threshold.
  predicate ShortRuns(m: MonitorState, o: Options, events: seq<Event>)
    decreases |events|
  {
    events == [] || (
      && (events[0].Exit? && m.lastSuccessfulStart.At? ==> events[0].at - m.lastSuccessfulStart.ms <= STABILITY_THRESHOLD_MS)
      && ShortRuns(Step(m, o, events[0]), o, events[1..]))
  }

  ghost predicate NoReset(trace: seq<Note>) {
    forall k :: 0 <= k < |trace| ==> trace[k] != CounterReset
  }

  // No finished run was long enough to reset the counter.
  predicate Short(m: MonitorState) {
    && !WasStable(m)
    && (m.endTime.At? || m.live != {} ==> m.lastSuccessfulStart.At?)
  }

  ghost predicate Unstable(m: MonitorState) {
    Short(m) && NoReset(m.trace)
  }

  lemma EmitNoReset(m: MonitorState, n: Note)
    requires NoReset(m.trace) && n != CounterReset
    ensures NoReset(Emit(m, n).trace)
  {
  }

  lemma SetStateNoReset(m: MonitorState, to: PState)
    requires NoReset(m.trace)
    ensures NoReset(SetState(m, to).trace)
  {
  }

  lemma UnstableStart(m: MonitorState, o: Options, now: int, spawn: Spawn)
    requires Unstable(m)
    ensures Unstable(OnStart(m, o, now, spawn))
  {
    hide NoReset, SetState;
    EmitNoReset(m, StartRefused);
    SetStateNoReset(m, Starting);
    SetStateFrame(m, Starting);
    var m1 := ResetCounter(SetState(m, Starting));
    if spawn.Spawned? {
      var m2 := m1.(
        child := Child(m1.spawned, false), spawned := m1.spawned + 1, live := m1.live + {m1.spawned},
        endTime := Never, healthTimer := m1.healthTimer || o.healthCheckInterval > 0);
      SetStateNoReset(m2, Running);
      SetStateFrame(m2, Running);
      EmitNoReset(SetState(m2, Running).(lastActivity := now, lastSuccessfulStart := At(now)), ProcessStarted(m1.spawned));
    } else {
      var m2 := Unspawned(m1, spawn);
      SetStateNoReset(m2, Stopped);
      SetStateFrame(m2, Stopped);
    }
  }

  lemma UnstableFinish(m: MonitorState)
    requires Unstable(m)
    ensures Unstable(FinishStop(m))
  {
    hide NoReset, SetState;
    SetStateNoReset(m, Stopped);
    SetStateFrame(m, Stopped);
    EmitNoReset(SetState(m, Stopped), ProcessStopped);
    EmitNoReset(m, StopReturned(true));
    EmitNoReset(Emit(SetState(m, Stopped), ProcessStopped), StopReturned(true));
  }

  lemma UnstableCrash(m: MonitorState, gen: nat, shouldRestart: bool)
    requires Unstable(m)
    ensures Unstable(OnCrash(m, gen, shouldRestart)) && Unstable(OnCleanExit(m))
  {
    hide NoReset, SetState;
    SetStateFrame(m, Crashed);
    SetStateFrame(m, Stopped);
    SetStateNoReset(m, Crashed);
    SetStateNoReset(m, Stopped);
    EmitNoReset(SetState(m, Stopped), ProcessStopped);
    EmitNoReset(SetState(m, Crashed), ProcessCrashed(gen, shouldRestart));
    var m1 := Emit(SetState(m, Crashed), ProcessCrashed(gen, shouldRestart));
    EmitNoReset(m1.(restartCount := m1.restartCount + 1, restartTimer := true), RestartScheduled(m1.restartCount + 1));
  }

  lemma UnstableExit(m: MonitorState, o: Options, gen: nat, code: ExitCode, signal: bool, at: int)
    requires Unstable(m)
    requires m.lastSuccessfulStart.At? ==> at - m.lastSuccessfulStart.ms <= STABILITY_THRESHOLD_MS
    ensures Unstable(OnExit(m, o, gen, code, signal, at))
  {
    hide NoReset, OnCrash, OnCleanExit, ShouldRestartAfterExit;
    if gen in m.live {
      assert Short(Exited(m, gen, at));
      UnstableCrash(Exited(m, gen, at), gen, true);
      UnstableCrash(Exited(m, gen, at), gen, false);
    }
  }

  lemma UnstableStep(m: MonitorState, o: Options, e: Event)
    requires Unstable(m)
    requires e.Exit? && m.lastSuccessfulStart.At? ==> e.at - m.lastSuccessfulStart.ms <= STABILITY_THRESHOLD_MS
    ensures Unstable(Step(m, o, e))
  {
    hide NoReset, OnStart, OnExit, FinishStop, SetState;
    match e
    case Start(now, spawn) => UnstableStart(m, o, now, spawn);
    case Stop(signalSent) =>
      EmitNoReset(m, StopReturned(true));
      EmitNoReset(m, StopReturned(false));
      SetStateNoReset(m, Stopping);
      SetStateFrame(m, Stopping);
      UnstableFinish(SetState(m, Stopping).(restartTimer := false, healthTimer := false));
    case StopResumes =>
      if m.stopsWaiting > 0 {
        UnstableFinish(m.(stopsWaiting := m.stopsWaiting - 1));
      }
    case Exit(gen, code, signal, at) => UnstableExit(m, o, gen, code, signal, at);
    case ErrorEvent =>
      SetStateNoReset(m, Crashed);
      SetStateFrame(m, Crashed);
    case TimerFires(now, spawn) =>
      UnstableStart(m.(restartTimer := false), o, now, spawn);
      EmitNoReset(OnStart(m.(restartTimer := false), o, now, spawn), RestartFailed);
    case Output(at) =>
  }

  // Then all automatic restarts together are at most maxRestarts.
  lemma {:induction false} ShortRunsEnd(m: MonitorState, o: Options, events: seq<Event>)
    requires Unstable(m) && Counted(m, o) && ShortRuns(m, o, events)
    ensures Schedules(Run(m, o, events).trace) <= Bound(o)
    decreases |events|
  {
    hide Unstable, Counted, Step;
    if events == [] {
      assert Schedules(m.trace) <= Bound(o) by { UnstableSchedules(m, o); }
    } else {
      UnstableStep(m, o, events[0]);
      CountedStep(m, o, events[0]);
      ShortRunsEnd(Step(m, o, events[0]), o, events[1..]);
    }
  }

  lemma ShortRunsFromStart(o: Options, events: seq<Event>)
    requires ShortRuns(INITIAL, o, events)
    ensures Schedules(Run(INITIAL, o, events).trace) <= Bound(o)
  {
    ShortRunsEnd(INITIAL, o, events);
  }

  lemma UnstableSchedules(m: MonitorState, o: Options)
    requires Unstable(m) && Counted(m, o)
    ensures Schedules(m.trace) <= Bound(o)
  {
    SchedulesSinceReset(m.trace, 0, |m.trace|);
    assert m.trace[0..|m.trace|] == m.trace && m.trace[..|m.trace|] == m.trace;
  }

  // ------------------------------------------------------------------
  // Stop wins
  // ------------------------------------------------------------------

  // A stop is under way or done, and nothing is scheduled to undo it.
  predicate Quiet(m: MonitorState) {
    (m.state == Stopping || m.state == Stopped) && !m.restartTimer && !m.healthTimer
  }

  // The only call that ends the quiet.
  predicate Restarts(m: MonitorState, e: Event) {
    e.Start? && m.state == Stopped
  }

  predicate NoStart(m: MonitorState, o: Options, events: seq<Event>)
    decreases |events|
  {
    events == [] || (!Restarts(m, events[0]) && NoStart(Step(m, o, events[0]), o, events[1..]))
  }

  lemma StopQuiets(m: MonitorState, signalSent: bool)
    requires m.state == Running || m.state == Crashed || m.state == Stopping
    ensures Quiet(OnStop(m, signalSent))
    ensures OnStop(m, signalSent).state == Stopping <==> OnStop(m, signalSent).stopsWaiting == m.stopsWaiting + 1
  {
  }

  lemma QuietStep(m: MonitorState, o: Options, e: Event)
    requires Quiet(m) && Sound(m) && !Restarts(m, e)
    ensures Quiet(Step(m, o, e))
    ensures e.StopResumes? || m.state == Stopped ==> Step(m, o, e).state == Stopped
    ensures Step(m, o, e).spawned == m.spawned && Step(m, o, e).restartCount == m.restartCount
  {
  }

  // From stop() on, whatever exits, errors, timeouts, timers and further stops
  // interleave with its wait, nothing is spawned and no restart is pending; once
  // a waiting stop has resumed the monitor is stopped, and it stays so until
  // start() is called in that state.
  lemma {:induction false} StopWins(m: MonitorState, o: Options, events: seq<Event>)
    requires Quiet(m) && Sound(m) && NoStart(m, o, events)
    ensures Quiet(Run(m, o, events)) && Run(m, o, events).spawned == m.spawned
    ensures m.state == Stopped || StopResumes in events ==> Run(m, o, events).state == Stopped
    decreases |events|
  {
    hide Step, Sound, Quiet;
    if events != [] {
      QuietStep(m, o, events[0]);
      SoundStep(m, o, events[0]);
      assert events == [events[0]] + events[1..];
      StopWins(Step(m, o, events[0]), o, events[1..]);
    }
  }

  // A stopped monitor stays so until start() is called: nothing is spawned, also
  // by a timer that was pending, and no restart is scheduled.
  lemma StoppedStep(m: MonitorState, o: Options, e: Event)
    requires m.state == Stopped && !Restarts(m, e)
    ensures
      var t := Step(m, o, e);
      && t.state == Stopped && t.spawned == m.spawned && t.restartCount == m.restartCount
      && (t.restartTimer ==> m.restartTimer)
      && (e.TimerFires? ==> !t.restartTimer)
  {
  }

  lemma {:induction false} StoppedStays(m: MonitorState, o: Options, events: seq<Event>)
    requires m.state == Stopped && NoStart(m, o, events)
    ensures
      var t := Run(m, o, events);
      && t.state == Stopped && t.spawned == m.spawned && t.restartCount == m.restartCount
      && (t.restartTimer ==> m.restartTimer && forall i :: 0 <= i < |events| ==> !events[i].TimerFires?)
    decreases |events|
  {
    hide Step;
    if events != [] {
      StoppedStep(m, o, events[0]);
      var n := Step(m, o, events[0]);
      StoppedStays(n, o, events[1..]);
      assert forall i :: 0 < i < |events| ==> events[i] == events[1..][i - 1];
    }
  }

  // From every reachable state, a stopped one too: stop() and the whole run after
  // it, up to the next start(). A restart is pending afterwards only if the monitor
  // was already stopped with one pending that has not fired since; when it fires
  // nothing is spawned.
  lemma StopThenStopped(o: Options, before: seq<Event>, signalSent: bool, after: seq<Event>)
    requires NoStart(OnStop(Run(INITIAL, o, before), signalSent), o, after)
    ensures
      var m := Run(INITIAL, o, before);
      var t := Run(OnStop(m, signalSent), o, after);
      && t.spawned == m.spawned
      && (t.state == Stopping || t.state == Stopped)
      && (OnStop(m, signalSent).state == Stopped || StopResumes in after ==> t.state == Stopped)
      && (t.restartTimer ==> m.state == Stopped && m.restartTimer && forall i :: 0 <= i < |after| ==> !after[i].TimerFires?)
  {
    SoundRun(INITIAL, o, before);
    var m := Run(INITIAL, o, before);
    SoundStop(m, signalSent);
    if m.state == Stopped {
      StoppedStays(OnStop(m, signalSent), o, after);
    } else {
      StopQuiets(m, signalSent);
      StopWins(OnStop(m, signalSent), o, after);
    }
  }

  // stop() on a monitor that is already stopped returns at once and does not
  // look at the timer: exactly then a restart can stay pending.
  lemma StopTimerExactly(m: MonitorState, signalSent: bool)
    requires m.state != Starting
    ensures OnStop(m, signalSent).restartTimer <==> m.state == Stopped && m.restartTimer
  {
  }

  // It happens: a crash schedules a restart, a manual start fails, stop()
  // succeeds, and the timer is still pending.
  lemma PendingAfterStop()
    ensures
      var o := Options(true, 3, 0);
      var m := OnStop(OnStart(OnExit(OnStart(INITIAL, o, 0, Spawned), o, 0, Code(1), false, 5), o, 6, Throws), true);
      m.state == Stopped && m.restartTimer
  {
  }

  // ------------------------------------------------------------------
  // Never two children
  // ------------------------------------------------------------------

  // Only the current child may be alive, and no automatic restart can begin
  // beside it.
  predicate Solo(m: MonitorState) {
    && (forall g :: g in m.live ==> m.child.Child? && m.child.gen == g && !m.child.exited)
    && (m.restartTimer && m.state == Crashed ==> m.live == {})
    && (forall g :: g in m.live ==> g < m.spawned)
  }

  // The calls and events that break it: a start that is accepted while the
  // previous child lives, and an error event on a running child while the
  // timer of an earlier crash is pending.
  predicate BreaksSolo(m: MonitorState, e: Event) {
    || (e.Start? && (m.state == Stopped || m.state == Crashed) && !e.spawn.Throws? && m.live != {})
    || (e.ErrorEvent? && m.state == Running && m.restartTimer && m.live != {})
  }

  lemma StartEffect(m: MonitorState, o: Options, now: int, spawn: Spawn)
    ensures
      var t := OnStart(m, o, now, spawn);
      if m.state != Stopped && m.state != Crashed then t == Emit(m, StartRefused)
      else
        && t.state == (if spawn.Spawned? then Running else Stopped)
        && t.live == (if spawn.Spawned? then m.live + {m.spawned} else m.live)
        && t.child == (if spawn.Throws? then m.child else Child(m.spawned, spawn.NoPid?))
        && t.spawned == (if spawn.Throws? then m.spawned else m.spawned + 1) && t.restartTimer == m.restartTimer
  {
    hide SetState;
    SetStateFrame(m, Starting);
    var m1 := ResetCounter(SetState(m, Starting));
    SetStateFrame(Unspawned(m1, spawn), Stopped);
    SetStateFrame(m1.(
      child := Child(m1.spawned, false), spawned := m1.spawned + 1, live := m1.live + {m1.spawned},
      endTime := Never, healthTimer := m1.healthTimer || o.healthCheckInterval > 0), Running);
  }

  lemma SoloStart(m: MonitorState, o: Options, now: int, spawn: Spawn)
    requires Solo(m) && m.state != Starting
    ensures Solo(OnStart(m, o, now, spawn)) <==>
      !((m.state == Stopped || m.state == Crashed) && !spawn.Throws? && m.live != {})
  {
    hide OnStart;
    StartEffect(m, o, now, spawn);
    if m.live != {} {
      var g :| g in m.live;
      assert (m.state == Stopped || m.state == Crashed) ==> g in OnStart(m, o, now, spawn).live;
    }
  }

  // Exactly what breaks it, in one step.
  lemma SoloExactly(m: MonitorState, o: Options, e: Event)
    requires Solo(m) && m.state != Starting
    ensures Solo(Step(m, o, e)) <==> !BreaksSolo(m, e)
  {
    match e
    case Start(now, spawn) => SoloStart(m, o, now, spawn);
    case TimerFires(now, spawn) =>
      hide OnStart;
      SoloStart(m.(restartTimer := false), o, now, spawn);
    case Exit(gen, code, signal, at) => SoloExit(m, o, gen, code, signal, at);
    case _ =>
  }

  lemma SoloExit(m: MonitorState, o: Options, gen: nat, code: ExitCode, signal: bool, at: int)
    requires Solo(m)
    ensures Solo(OnExit(m, o, gen, code, signal, at))
  {
    hide SetState, ShouldRestartAfterExit;
    if gen in m.live {
      var m1 := Exited(m, gen, at);
      assert m1.live == {};
      SetStateFrame(m1, Crashed);
      SetStateFrame(m1, Stopped);
    }
  }

  // Over a whole run: when nothing breaks it, at most one child is ever alive,
  // every crash is the current child's own, and automatic restarts are safe.
  predicate Careful(m: MonitorState, o: Options, events: seq<Event>)
    decreases |events|
  {
    events == [] || (!BreaksSolo(m, events[0]) && Careful(Step(m, o, events[0]), o, events[1..]))
  }

  lemma {:induction false} SoloRun(m: MonitorState, o: Options, events: seq<Event>)
    requires Solo(m) && Sound(m) && Careful(m, o, events)
    ensures Solo(Run(m, o, events)) && |Run(m, o, events).live| <= 1
    decreases |events|
  {
    hide Step, Sound, BreaksSolo;
    if events != [] {
      assert m.state != Starting by { NotStarting(m); }
      SoloExactly(m, o, events[0]);
      SoundStep(m, o, events[0]);
      SoloRun(Step(m, o, events[0]), o, events[1..]);
    } else if m.live != {} {
      var g :| g in m.live;
      assert m.live == {g};
    }
  }

  lemma NotStarting(m: MonitorState)
    requires Sound(m)
    ensures m.state != Starting
  {
  }

  // At most one child lives, and no automatic restart can begin beside it.
  predicate Single(m: MonitorState) {
    && (forall g, h :: g in m.live && h in m.live ==> g == h)
    && (m.restartTimer && m.state == Crashed ==> m.live == {})
    && (forall g :: g in m.live ==> g < m.spawned)
  }

  // A second child: a successful start beside a live one, or an error event that
  // lets the pending timer of an earlier crash start one.
  predicate BreaksSingle(m: MonitorState, e: Event) {
    || (e.Start? && (m.state == Stopped || m.state == Crashed) && e.spawn.Spawned? && m.live != {})
    || (e.ErrorEvent? && m.state == Running && m.restartTimer && m.live != {})
  }

  lemma SingleStart(m: MonitorState, o: Options, now: int, spawn: Spawn)
    requires Single(m) && m.state != Starting
    ensures Single(OnStart(m, o, now, spawn)) <==>
      !((m.state == Stopped || m.state == Crashed) && spawn.Spawned? && m.live != {})
  {
    hide OnStart;
    StartEffect(m, o, now, spawn);
    if m.live != {} {
      var g :| g in m.live;
      assert (m.state == Stopped || m.state == Crashed) && spawn.Spawned? ==>
        g in OnStart(m, o, now, spawn).live && m.spawned in OnStart(m, o, now, spawn).live;
    }
  }

  // Exactly these steps end it.
  lemma SingleExactly(m: MonitorState, o: Options, e: Event)
    requires Single(m) && m.state != Starting
    ensures Single(Step(m, o, e)) <==> !BreaksSingle(m, e)
  {
    match e
    case Start(now, spawn) => SingleStart(m, o, now, spawn);
    case TimerFires(now, spawn) =>
      hide OnStart;
      SingleStart(m.(restartTimer := false), o, now, spawn);
    case Exit(gen, code, signal, at) => SingleExit(m, o, gen, code, signal, at);
    case _ =>
  }

  lemma SingleExit(m: MonitorState, o: Options, gen: nat, code: ExitCode, signal: bool, at: int)
    requires Single(m)
    ensures Single(OnExit(m, o, gen, code, signal, at))
  {
    hide SetState, ShouldRestartAfterExit;
    if gen in m.live {
      var m1 := Exited(m, gen, at);
      assert m1.live == {};
      SetStateFrame(m1, Crashed);
      SetStateFrame(m1, Stopped);
    }
  }

  // And each of them leads to two live children, at once or when the timer fires.
  lemma BreakMakesTwo(m: MonitorState, o: Options, e: Event, now: int)
    requires Single(m) && BreaksSingle(m, e)
    ensures
      var t := Step(m, o, e);
      |t.live| == 2 || (t.restartTimer && |Step(t, o, TimerFires(now, Spawned)).live| == 2)
  {
    hide OnStart;
    var g :| g in m.live;
    assert m.live == {g};
    if e.Start? {
      StartEffect(m, o, e.now, e.spawn);
      assert Step(m, o, e).live == {g, m.spawned};
    } else {
      var t := Step(m, o, e);
      StartEffect(t.(restartTimer := false), o, now, Spawned);
      assert Step(t, o, TimerFires(now, Spawned)).live == {g, m.spawned};
    }
  }

  predicate NoSecond(m: MonitorState, o: Options, events: seq<Event>)
    decreases |events|
  {
    events == [] || (!BreaksSingle(m, events[0]) && NoSecond(Step(m, o, events[0]), o, events[1..]))
  }

  lemma {:induction false} SingleRun(m: MonitorState, o: Options, events: seq<Event>)
    requires Single(m) && Sound(m) && NoSecond(m, o, events)
    ensures Single(Run(m, o, events))
    decreases |events|
  {
    hide Step, Sound, BreaksSingle, Single;
    if events != [] {
      assert m.state != Starting by { NotStarting(m); }
      SingleExactly(m, o, events[0]);
      SoundStep(m, o, events[0]);
      SingleRun(Step(m, o, events[0]), o, events[1..]);
    }
  }

  // From the start: without such a step there are never two live children.
  lemma NeverTwo(o: Options, events: seq<Event>)
    requires NoSecond(INITIAL, o, events)
    ensures |Run(INITIAL, o, events).live| <= 1
  {
    SingleRun(INITIAL, o, events);
    var m := Run(INITIAL, o, events);
    if m.live != {} {
      var g :| g in m.live;
      assert m.live == {g};
    }
  }

  // The listeners of a previous child are never removed: after a kill timeout
  // and a new start, the old child's late exit is taken for a crash of the new
  // one, and the automatic restart then runs two live children.
  lemma LateExitRestartsBesideLiveChild()
    ensures
      var o := Options(true, 3, 0);
      var stopped := OnStopResumes(OnStop(OnStart(INITIAL, o, 0, Spawned), true));
      var crashed := OnExit(OnStart(stopped, o, 10, Spawned), o, 0, Null, true, 20);
      && crashed.state == Crashed && crashed.restartTimer && crashed.live == {1}
      && OnTimer(crashed, o, 30, Spawned).live == {1, 2}
  {
    var o := Options(true, 3, 0);
    var running := OnStart(INITIAL, o, 0, Spawned);
    assert running.state == Running && running.live == {0} && running.child == Child(0, false);
    var stopped := OnStopResumes(OnStop(running, true));
    assert stopped.state == Stopped && stopped.live == {0} && stopped.spawned == 1 && stopped.restartCount == 0;
    var again := OnStart(stopped, o, 10, Spawned);
    assert again.state == Running && again.live == {0, 1} && again.spawned == 2 && again.restartCount == 0;
    var crashed := OnExit(again, o, 0, Null, true, 20);
    assert crashed.live == {1};
  }
}
