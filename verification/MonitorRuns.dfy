// What every run of the monitor's life cycle keeps.
module MonitorRuns {
  import opened Text
  import opened Monitor

  // ------------------------------------------------------------------
  // Every run emits a legal trace
  // ------------------------------------------------------------------

  // The state after the transitions of a trace.
  function Cur(trace: seq<Note>): PState {
    if trace == [] then Stopped
    else match Last(trace)
      case StateChanged(_, to) => to
      case _ => Cur(Init(trace))
  }

  predicate Edge(from: PState, to: PState) {
    match to
    case Starting => from == Stopped || from == Crashed
    case Running => from == Starting
    case Crashed => from == Running
    case Stopping => from == Running || from == Crashed
    case Stopped => from != Stopped
  }

  predicate EntersStopped(n: Note) {
    n.StateChanged? && n.to == Stopped && n.from != Starting
  }

  // A process_stopped is due at once.
  predicate Owed(trace: seq<Note>) {
    trace != [] && EntersStopped(Last(trace))
  }

  predicate LegalNext(trace: seq<Note>, n: Note) {
    match n
    case StateChanged(from, to) => from == Cur(trace) && Edge(from, to) && !Owed(trace)
    case ProcessStopped => Owed(trace)
    case ProcessCrashed(_, _) => trace != [] && Last(trace) == StateChanged(Running, Crashed)
    case ProcessStarted(_) => trace != [] && Last(trace) == StateChanged(Starting, Running)
    case _ => !Owed(trace)
  }

  ghost predicate Legal(trace: seq<Note>) {
    forall i :: 0 <= i < |trace| ==> LegalNext(trace[..i], trace[i])
  }

  lemma CurSnoc(trace: seq<Note>, n: Note)
    ensures Cur(trace + [n]) == if n.StateChanged? then n.to else Cur(trace)
    ensures Owed(trace + [n]) == EntersStopped(n)
    ensures Last(trace + [n]) == n
  {
    assert Init(trace + [n]) == trace;
  }

  lemma LegalSnoc(trace: seq<Note>, n: Note)
    requires Legal(trace) && LegalNext(trace, n)
    ensures Legal(trace + [n])
  {
    hide LegalNext;
    var more := trace + [n];
    forall i | 0 <= i < |more| ensures LegalNext(more[..i], more[i]) {
      assert i < |trace| ==> more[..i] == trace[..i];
      assert more[..|trace|] == trace;
    }
  }

  // The monitor's state is what its trace says.
  ghost predicate Mid(m: MonitorState) {
    Legal(m.trace) && Cur(m.trace) == m.state
  }

  // Between handlers nothing is due, and a stopping monitor has a stop call
  // waiting, so it cannot be stuck there.
  ghost predicate Sound(m: MonitorState) {
    && Mid(m) && !Owed(m.trace) && m.state != Starting
    && (m.state == Stopping ==> m.stopsWaiting > 0)
  }

  lemma EmitLegal(m: MonitorState, n: Note)
    requires Mid(m) && LegalNext(m.trace, n) && !n.StateChanged?
    ensures Mid(Emit(m, n)) && !Owed(Emit(m, n).trace)
  {
    hide Legal, LegalNext, Cur;
    LegalSnoc(m.trace, n);
    CurSnoc(m.trace, n);
  }

  lemma SetStateLegal(m: MonitorState, to: PState)
    requires Mid(m) && !Owed(m.trace) && (m.state == to || Edge(m.state, to))
    ensures Mid(SetState(m, to))
    ensures Owed(SetState(m, to).trace) <==> m.state != to && to == Stopped && m.state != Starting
    ensures m.state != to ==> SetState(m, to).trace != [] && Last(SetState(m, to).trace) == StateChanged(m.state, to)
  {
    hide Legal, Cur;
    if m.state != to {
      LegalSnoc(m.trace, StateChanged(m.state, to));
      CurSnoc(m.trace, StateChanged(m.state, to));
    }
  }

  lemma SoundFinish(m: MonitorState)
    requires Mid(m) && !Owed(m.trace) && m.state != Starting
    ensures Sound(FinishStop(m)) && FinishStop(m).state != Stopping
  {
    hide Legal, Cur;
    var m1 := m;
    if m.state == Stopping {
      SetStateLegal(m, Stopped);
      m1 := SetState(m, Stopped);
      EmitLegal(m1, ProcessStopped);
      m1 := Emit(m1, ProcessStopped);
    }
    EmitLegal(m1, StopReturned(true));
  }

  lemma SoundStop(m: MonitorState, signalSent: bool)
    requires Sound(m)
    ensures Sound(OnStop(m, signalSent))
  {
    hide Legal, Cur, SetState, FinishStop;
    if m.state == Stopped {
      EmitLegal(m, StopReturned(true));
    } else {
      SetStateFrame(m, Stopping);
      SetStateLegal(m, Stopping);
      SoundFinish(SetState(m, Stopping).(restartTimer := false, healthTimer := false));
    }
  }

  lemma SoundStart(m: MonitorState, o: Options, now: int, spawn: Spawn)
    requires Sound(m)
    ensures Sound(OnStart(m, o, now, spawn))
  {
    hide Legal, Cur, SetState, Owed;
    if m.state != Stopped && m.state != Crashed {
      EmitLegal(m, StartRefused);
    } else {
      SetStateFrame(m, Starting);
      SetStateLegal(m, Starting);
      var m1 := SetState(m, Starting);
      if WasStable(m1) {
        EmitLegal(m1.(restartCount := 0), CounterReset);
      }
      var m2 := ResetCounter(m1);
      if spawn.Spawned? {
        SoundSpawned(m2, o, now);
      } else {
        var m3 := Unspawned(m2, spawn);
        SetStateFrame(m3, Stopped);
        SetStateLegal(m3, Stopped);
      }
    }
  }

  lemma SoundSpawned(m: MonitorState, o: Options, now: int)
    requires Mid(m) && !Owed(m.trace) && m.state == Starting
    ensures Sound(OnSpawned(m, o, now)) && OnSpawned(m, o, now).state == Running
  {
    hide Legal, Cur, SetState, Owed;
    var m1 := m.(
      child := Child(m.spawned, false), spawned := m.spawned + 1, live := m.live + {m.spawned},
      endTime := Never, healthTimer := m.healthTimer || o.healthCheckInterval > 0);
    SetStateFrame(m1, Running);
    SetStateLegal(m1, Running);
    EmitLegal(SetState(m1, Running).(lastActivity := now, lastSuccessfulStart := At(now)), ProcessStarted(m.spawned));
  }

  lemma SoundCrash(m: MonitorState, gen: nat, shouldRestart: bool)
    requires Mid(m) && !Owed(m.trace) && m.state == Running
    ensures Sound(OnCrash(m, gen, shouldRestart))
  {
    hide Legal, Cur, SetState, Owed;
    SetStateFrame(m, Crashed);
    SetStateLegal(m, Crashed);
    EmitLegal(SetState(m, Crashed), ProcessCrashed(gen, shouldRestart));
    if shouldRestart {
      var m1 := Emit(SetState(m, Crashed), ProcessCrashed(gen, shouldRestart));
      EmitLegal(m1.(restartCount := m1.restartCount + 1, restartTimer := true), RestartScheduled(m1.restartCount + 1));
    }
  }

  lemma SoundCleanExit(m: MonitorState)
    requires Mid(m) && !Owed(m.trace) && m.state != Starting
    ensures Sound(OnCleanExit(m))
  {
    hide Legal, Cur, SetState, Owed;
    if m.state != Stopped {
      SetStateFrame(m, Stopped);
      SetStateLegal(m, Stopped);
      EmitLegal(SetState(m, Stopped), ProcessStopped);
    }
  }

  lemma SoundExit(m: MonitorState, o: Options, gen: nat, code: ExitCode, signal: bool, at: int)
    requires Sound(m)
    ensures Sound(OnExit(m, o, gen, code, signal, at))
  {
    hide Legal, Cur, SetState, ShouldRestartAfterExit, OnCrash, OnCleanExit;
    if gen in m.live {
      var m1 := Exited(m, gen, at);
      SoundCleanExit(m1);
      if m.state == Running {
        SoundCrash(m1, gen, true);
        SoundCrash(m1, gen, false);
      }
    }
  }

  lemma SoundStep(m: MonitorState, o: Options, e: Event)
    requires Sound(m)
    ensures Sound(Step(m, o, e))
  {
    hide Legal, Cur, OnStart, OnStop, OnExit, SetState, FinishStop;
    match e
    case Start(now, spawn) => SoundStart(m, o, now, spawn);
    case Stop(signalSent) => SoundStop(m, signalSent);
    case StopResumes =>
      if m.stopsWaiting > 0 {
        SoundFinish(m.(stopsWaiting := m.stopsWaiting - 1));
      }
    case Exit(gen, code, signal, at) => SoundExit(m, o, gen, code, signal, at);
    case ErrorEvent =>
      if m.state == Running {
        SetStateFrame(m, Crashed);
        SetStateLegal(m, Crashed);
      }
    case TimerFires(now, spawn) =>
      var m1 := m.(restartTimer := false);
      SoundStart(m1, o, now, spawn);
      var m2 := OnStart(m1, o, now, spawn);
      EmitLegal(m2, RestartFailed);
    case Output(at) =>
  }

  // Every run's trace is legal and its state is the trace's.
  lemma {:induction false} SoundRun(m: MonitorState, o: Options, events: seq<Event>)
    requires Sound(m)
    ensures Sound(Run(m, o, events))
    decreases |events|
  {
    hide Sound, Step;
    if events != [] {
      SoundStep(m, o, events[0]);
      SoundRun(Step(m, o, events[0]), o, events[1..]);
    }
  }

  lemma LegalRun(o: Options, events: seq<Event>)
    ensures Legal(Run(INITIAL, o, events).trace)
  {
    SoundRun(INITIAL, o, events);
  }

  // ------------------------------------------------------------------
  // Terminal events
  // ------------------------------------------------------------------

  // In every run: crashed is entered only from running and stopped is left only
  // by start; process_stopped is emitted right after each entry into stopped
  // from a state other than starting, and at no other place; process_crashed
  // only right after an entry into crashed.
  lemma TerminalEvents(o: Options, events: seq<Event>, i: nat)
    requires i < |Run(INITIAL, o, events).trace|
    ensures
      var trace := Run(INITIAL, o, events).trace;
      && (trace[i].StateChanged? && trace[i].to == Crashed ==> trace[i].from == Running)
      && (trace[i].StateChanged? && trace[i].from == Stopped ==> trace[i].to == Starting)
      && (EntersStopped(trace[i]) ==> i + 1 < |trace| && trace[i + 1] == ProcessStopped)
      && (trace[i] == ProcessStopped ==> i > 0 && EntersStopped(trace[i - 1]))
      && (trace[i].ProcessCrashed? ==> i > 0 && trace[i - 1] == StateChanged(Running, Crashed))
  {
    SoundRun(INITIAL, o, events);
    var trace := Run(INITIAL, o, events).trace;
    assert LegalNext(trace[..i], trace[i]);
    if i + 1 < |trace| {
      assert LegalNext(trace[..i + 1], trace[i + 1]);
      assert Last(trace[..i + 1]) == trace[i];
    } else {
      assert Last(trace) == trace[i];
    }
    assert i > 0 ==> Last(trace[..i]) == trace[i - 1];
  }

  predicate Runs(n: Note) {
    n == StateChanged(Starting, Running)
  }

  // Between two positions without an entry into running the monitor cannot get
  // from stopped, starting (or crashed) to a state that only running leads to.
  lemma {:induction false} NoReturn(trace: seq<Note>, i: nat, j: nat)
    requires Legal(trace) && i <= j <= |trace|
    requires forall k :: i <= k < j ==> !Runs(trace[k])
    requires Cur(trace[..i]) != Running
    ensures Cur(trace[..j]) != Running
    ensures Cur(trace[..i]) == Stopped || Cur(trace[..i]) == Starting ==>
      Cur(trace[..j]) == Stopped || Cur(trace[..j]) == Starting
  {
    if i < j {
      NoReturn(trace, i, j - 1);
      assert trace[..j] == trace[..j - 1] + [trace[j - 1]];
      CurSnoc(trace[..j - 1], trace[j - 1]);
      assert LegalNext(trace[..j - 1], trace[j - 1]);
    }
  }

  predicate Terminal(n: Note) {
    n == ProcessStopped || n.ProcessCrashed?
  }

  // Around a terminal event: where the entry came from, and where it leads.
  lemma AroundTerminal(trace: seq<Note>, i: nat)
    requires Legal(trace) && i < |trace| && Terminal(trace[i])
    ensures i > 0 && trace[i - 1].StateChanged?
    ensures trace[i] == ProcessStopped ==>
      Cur(trace[..i + 1]) == Stopped && Cur(trace[..i - 1]) != Stopped && Cur(trace[..i - 1]) != Starting
    ensures trace[i].ProcessCrashed? ==> Cur(trace[..i + 1]) == Crashed && Cur(trace[..i - 1]) == Running
  {
    hide Legal;
    assert LegalNext(trace[..i], trace[i]) by { LegalAt(trace, i); }
    assert i > 0 && Last(trace[..i]) == trace[i - 1];
    assert LegalNext(trace[..i - 1], trace[i - 1]) by { LegalAt(trace, i - 1); }
    assert trace[..i] == trace[..i - 1] + [trace[i - 1]];
    assert trace[..i + 1] == trace[..i] + [trace[i]];
    CurSnoc(trace[..i - 1], trace[i - 1]);
    CurSnoc(trace[..i], trace[i]);
  }

  lemma LegalAt(trace: seq<Note>, i: nat)
    requires Legal(trace) && i < |trace|
    ensures LegalNext(trace[..i], trace[i])
  {
  }

  // In every run: two process_stopped, and two process_crashed, always have an
  // entry into running between them, so each fires at most once a run.
  lemma OncePerRun(o: Options, events: seq<Event>, i: nat, j: nat)
    requires i < j < |Run(INITIAL, o, events).trace|
    requires
      var trace := Run(INITIAL, o, events).trace;
      (trace[i] == ProcessStopped && trace[j] == ProcessStopped) || (trace[i].ProcessCrashed? && trace[j].ProcessCrashed?)
    ensures exists k :: i < k < j && Runs(Run(INITIAL, o, events).trace[k])
  {
    hide Legal, Cur, Run;
    var trace := Run(INITIAL, o, events).trace;
    assert Legal(trace) by { LegalRun(o, events); }
    AroundTerminal(trace, i);
    AroundTerminal(trace, j);
    if forall k :: i < k < j ==> !Runs(trace[k]) {
      NoReturn(trace, i + 1, j - 1);
      assert false;
    }
  }
}
