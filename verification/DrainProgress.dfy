// What getAllLogsAndReset (container/process-monitor.ts) does for its caller: a
// drain takes the log and returns it.
module DrainProgress {
  import opened Wrappers
  import opened Text
  import opened LogProtocol
  import opened LogDrain

  // ------------------------------------------------------------------
  // What was taken is returned
  // ------------------------------------------------------------------

  // `p` has taken `text` and will return it: it is in its temporary file or is
  // its result. `batch` says whether there was a log file at all.
  ghost predicate WillReturn(s: State, p: Pid, text: string, batch: Option<nat>) {
    match s.Ctl(p)
    case Renamed(_, u) => batch == Some(u) && TempPath(u) in s.files && s.files[TempPath(u)] == text
    case Recreated(_, u) => batch == Some(u) && TempPath(u) in s.files && s.files[TempPath(u)] == text
    case Done(role, _, result, b) => role.Drainer? && result == text && b == batch
    case _ => false
  }

  // The next steps of a drain, counted down.
  function StepsLeft(c: Control): nat {
    match c
    case Renamed(_, _) => 2
    case Recreated(_, _) => 1
    case _ => 0
  }

  predicate Leaves(e: Event, p: Pid) {
    e == Crash(p) || e == Release(p)
  }

  // The rename empties the log and takes all of it.
  lemma RenameTakesLog(s: State, p: Pid)
    requires s.Ctl(p).Locked? && s.Ctl(p).role.Drainer?
    ensures
      var t := Step(s, Rename(p));
      && LogPath !in t.files && t.Log() == ""
      && WillReturn(t, p, s.Log(), if LogPath in s.files then Some(|s.taken|) else None)
      && (t.Ctl(p).Done? <==> LogPath !in s.files)
  {
  }

  lemma WillReturnOther(s: State, e: Event, p: Pid, text: string, batch: Option<nat>)
    requires Accounted(s) && WillReturn(s, p, text, batch) && !Acts(e, p)
    ensures WillReturn(Step(s, e), p, text, batch) && Step(s, e).Ctl(p) == s.Ctl(p)
  {
    hide Concat, Step, Placed, Returned, Books;
    assert Carrier(s, p);
    ControlKept(s, e, p);
    if !s.Ctl(p).Done? {
      if !(e.Tick? || e.Append?) {
        assert Carrier(s, e.pid);
      }
      TempKept(s, e, s.Ctl(p).temp);
    }
  }

  lemma WillReturnSelf(s: State, e: Event, p: Pid, text: string, batch: Option<nat>)
    requires WillReturn(s, p, text, batch) && Acts(e, p) && !Leaves(e, p)
    ensures
      var t := Step(s, e);
      && WillReturn(t, p, text, batch)
      && StepsLeft(t.Ctl(p)) ==
         if (e.Recreate? && s.Ctl(p).Renamed?) || (e.ReadTemp? && s.Ctl(p).Recreated?) then StepsLeft(s.Ctl(p)) - 1
         else StepsLeft(s.Ctl(p))
  {
  }

  ghost predicate Stays(events: seq<Event>, p: Pid) {
    forall i :: 0 <= i < |events| ==> !Leaves(events[i], p)
  }

  // Whatever the others do in between, crashes and stolen locks included.
  lemma {:induction false} WillReturnRun(s: State, events: seq<Event>, p: Pid, text: string, batch: Option<nat>)
    requires Accounted(s) && WillReturn(s, p, text, batch) && Stays(events, p)
    ensures WillReturn(Run(s, events), p, text, batch) && Accounted(Run(s, events))
    ensures StepsLeft(Run(s, events).Ctl(p)) <= StepsLeft(s.Ctl(p))
    decreases |events|
  {
    hide Step, Accounted, WillReturn, StepsLeft;
    if events != [] {
      AccountedStep(s, events[0]);
      if Acts(events[0], p) {
        WillReturnSelf(s, events[0], p, text, batch);
      } else {
        WillReturnOther(s, events[0], p, text, batch);
      }
      WillReturnRun(Step(s, events[0]), events[1..], p, text, batch);
    }
  }

  lemma ReleaseReturns(s: State, p: Pid, text: string, batch: Option<nat>)
    requires WillReturn(s, p, text, batch) && s.Ctl(p).Done?
    ensures Step(s, Release(p)).returned == s.returned + [Return(text, batch)]
    ensures Step(s, Release(p)).Ctl(p) == Idle
  {
  }

  // From every reachable state: a drain that holds the lock and renames takes
  // exactly the log's text, leaves the log empty, and whatever follows, as long as
  // it does not crash, its release returns that text. It says that there was no
  // log exactly when there was none.
  lemma DrainReturnsLog(before: seq<Event>, p: Pid, events: seq<Event>)
    requires
      var s := Run(INITIAL, before);
      s.Ctl(p).Locked? && s.Ctl(p).role.Drainer? && Stays(events, p)
    ensures
      var s := Run(INITIAL, before);
      var batch := if LogPath in s.files then Some(|s.taken|) else None;
      var t := Run(Step(s, Rename(p)), events);
      && Step(s, Rename(p)).Log() == ""
      && WillReturn(t, p, s.Log(), batch)
      && (t.Ctl(p).Done? ==> Step(t, Release(p)).returned == t.returned + [Return(s.Log(), batch)])
  {
    DrainConserves(INITIAL, before);
    var s := Run(INITIAL, before);
    var batch := if LogPath in s.files then Some(|s.taken|) else None;
    hide Run, Accounted, WillReturn, Step, StepsLeft;
    RenameTakesLog(s, p);
    AccountedStep(s, Rename(p));
    WillReturnRun(Step(s, Rename(p)), events, p, s.Log(), batch);
    var t := Run(Step(s, Rename(p)), events);
    if t.Ctl(p).Done? {
      ReleaseReturns(t, p, s.Log(), batch);
    }
  }

  // And it gets there: two steps of its own after the rename, with anything of
  // anybody else before, between and after them.
  lemma DrainFinishes(s: State, p: Pid, text: string, batch: Option<nat>, a: seq<Event>, b: seq<Event>, c: seq<Event>)
    requires Accounted(s) && WillReturn(s, p, text, batch) && Stays(a, p) && Stays(b, p) && Stays(c, p)
    ensures
      var t := Run(Step(Run(Step(Run(s, a), Recreate(p)), b), ReadTemp(p)), c);
      t.Ctl(p).Done? && Step(t, Release(p)).returned == t.returned + [Return(text, batch)]
  {
    hide Step, Run, Accounted;
    WillReturnRun(s, a, p, text, batch);
    var s1 := Run(s, a);
    WillReturnSelf(s1, Recreate(p), p, text, batch);
    AccountedStep(s1, Recreate(p));
    var s2 := Step(s1, Recreate(p));
    assert StepsLeft(s2.Ctl(p)) <= 1;
    WillReturnRun(s2, b, p, text, batch);
    var s3 := Run(s2, b);
    WillReturnSelf(s3, ReadTemp(p), p, text, batch);
    AccountedStep(s3, ReadTemp(p));
    var s4 := Step(s3, ReadTemp(p));
    assert StepsLeft(s4.Ctl(p)) == 0;
    WillReturnRun(s4, c, p, text, batch);
    ReleaseReturns(Run(s4, c), p, text, batch);
  }

  // ------------------------------------------------------------------
  // What was appended
  // ------------------------------------------------------------------

  // The lines appended in a run, one after the other.
  function Lines(events: seq<Event>): string {
    if events == [] then "" else (if events[0].Append? then events[0].line else "") + Lines(events[1..])
  }

  lemma {:induction false} AppendedLines(s: State, events: seq<Event>)
    ensures Run(s, events).appended == s.appended + Lines(events)
    decreases |events|
  {
    if events == [] {
      assert s.appended + "" == s.appended;
    } else {
      var e := events[0];
      var line := if e.Append? then e.line else "";
      AppendedStep(s, e);
      hide Step;
      AppendedLines(Step(s, e), events[1..]);
      assert (s.appended + line) + Lines(events[1..]) == s.appended + (line + Lines(events[1..]));
    }
  }

  lemma AppendedStep(s: State, e: Event)
    ensures Step(s, e).appended == s.appended + (if e.Append? then e.line else "")
  {
    assert s.appended + "" == s.appended;
  }

  // Every line appended in a run is in exactly one of: the texts returned, in
  // order of return, the text a drain holds, and the log, in the order of the
  // appends; if holders are timely.
  lemma NoLineLost(events: seq<Event>)
    requires TimelyRun(INITIAL, events)
    ensures
      var t := Run(INITIAL, events);
      Lines(events) == Concat(Texts(t.returned)) + InFlight(t) + t.Log()
  {
    DrainFromStart(events);
    AppendedLines(INITIAL, events);
    hide *;
    assert INITIAL.appended + Lines(events) == Lines(events);
  }

  // ------------------------------------------------------------------
  // Undisturbed processes
  // ------------------------------------------------------------------

  lemma RunTwo(s: State, e: Event, f: Event)
    ensures Run(s, [e, f]) == Step(Step(s, e), f)
  {
    hide Step;
    assert [e, f][1..] == [f] && [f][1..] == [];
    assert Run(Step(s, e), [f]) == Run(Step(Step(s, e), f), []);
  }

  // A free lock is taken at the first attempt, and its file names the process.
  lemma FreeLockIsTaken(s: State, p: Pid, role: Role)
    requires s.lock.None? && s.Ctl(p).Idle?
    ensures
      var t := Run(s, [Begin(p, role), Create(p, s.now)]);
      t == s.Go(p, Locked(role, s.now)).(lock := Some(LockFile(p, s.now)))
  {
    RunTwo(s, Begin(p, role), Create(p, s.now));
    hide Run;
    var first := Step(s, Begin(p, role));
    assert first == s.Go(p, Trying(role, 0));
    assert s.procs[p := Trying(role, 0)][p := Locked(role, s.now)] == s.procs[p := Locked(role, s.now)];
  }

  ghost predicate OthersSame(s: State, t: State, p: Pid) {
    forall q: Pid :: q != p ==> t.Ctl(q) == s.Ctl(q)
  }

  lemma SoloTake(s: State, p: Pid)
    requires s.Ctl(p).Locked? && s.Ctl(p).role.Drainer?
    ensures
      var t := Step(Step(s, Rename(p)), Recreate(p));
      var u := |s.taken|;
      && t.lock == s.lock && t.returned == s.returned && OthersSame(s, t, p)
      && if LogPath in s.files then
           t.Ctl(p) == Recreated(s.Ctl(p).stamp, u) && t.files == s.files[LogPath := ""][TempPath(u) := s.files[LogPath]]
         else t.Ctl(p) == Done(Drainer, s.Ctl(p).stamp, "", None) && t.files == s.files
  {
    var t := Step(s, Rename(p));
    assert LogPath in s.files ==> t.Ctl(p) == Renamed(s.Ctl(p).stamp, |s.taken|);
    assert LogPath !in t.files;
  }

  lemma SoloReturn(s: State, p: Pid)
    requires s.Ctl(p).Recreated? || (s.Ctl(p).Done? && s.Ctl(p).role.Drainer?)
    ensures
      var t := Step(Step(s, ReadTemp(p)), Release(p));
      var c := s.Ctl(p);
      && t.lock.None? && t.Ctl(p).Idle? && OthersSame(s, t, p)
      && if c.Done? then t.files == s.files && t.returned == s.returned + [Return(c.text, c.batch)]
         else
           var f := TempPath(c.temp);
           && t.files == s.files - {f}
           && t.returned == s.returned + [Return(if f in s.files then s.files[f] else "", Some(c.temp))]
  {
  }

  // Left alone, a drain returns the whole log and leaves none of it, no
  // temporary file and a free lock.
  lemma SoloDrain(s: State, p: Pid)
    requires s.lock.None? && s.Ctl(p).Idle?
    ensures
      var s1 := Run(s, [Begin(p, Drainer), Create(p, s.now)]);
      var s2 := Run(s1, [Rename(p), Recreate(p)]);
      var t := Run(s2, [ReadTemp(p), Release(p)]);
      && t.returned == s.returned + [Return(s.Log(), if LogPath in s.files then Some(|s.taken|) else None)]
      && t.Log() == "" && t.lock.None? && t.Ctl(p).Idle?
      && (LogPath in t.files <==> LogPath in s.files)
      && (forall f :: f in t.files && f.TempPath? ==> f in s.files && t.files[f] == s.files[f])
      && (forall q: Pid :: q != p ==> t.Ctl(q) == s.Ctl(q))
  {
    FreeLockIsTaken(s, p, Drainer);
    var s1 := s.Go(p, Locked(Drainer, s.now)).(lock := Some(LockFile(p, s.now)));
    hide Step, Run;
    SoloTake(s1, p);
    RunTwo(s1, Rename(p), Recreate(p));
    var s2 := Step(Step(s1, Rename(p)), Recreate(p));
    SoloReturn(s2, p);
    RunTwo(s2, ReadTemp(p), Release(p));
    assert forall q: Pid :: q != p ==> s1.Ctl(q) == s.Ctl(q);
  }

  // A reader gets the log's text and changes no file.
  lemma SoloRead(s: State, p: Pid)
    requires s.lock.None? && s.Ctl(p).Idle?
    ensures
      var s1 := Run(s, [Begin(p, Reader), Create(p, s.now)]);
      var s2 := Step(s1, ReadLog(p));
      var t := Step(s2, Release(p));
      && s2.Ctl(p) == Done(Reader, s.now, s.Log(), None)
      && t.files == s.files && t.returned == s.returned && t.lock.None? && t.Ctl(p).Idle?
  {
    FreeLockIsTaken(s, p, Reader);
    hide Run;
    var s1 := s.Go(p, Locked(Reader, s.now)).(lock := Some(LockFile(p, s.now)));
    var s2 := Step(s1, ReadLog(p));
    assert s1.Log() == s.Log() && s2.Ctl(p) == Done(Reader, s.now, s.Log(), None);
    assert s2.files == s.files && s2.returned == s.returned;
  }

  // A dead holder's lock is removed and taken, exactly when it is readable and
  // older than LOCK_STALE_MS; a younger one is left where it is.
  lemma StaleLockIsTaken(s: State, p: Pid, role: Role, readable: bool)
    requires s.lock.Some? && s.Ctl(p).Idle?
    ensures
      var s1 := Run(s, [Begin(p, role), Create(p, s.now)]);
      var s2 := Run(s1, [Inspect(p, readable), Unlink(p)]);
      var t := Step(s2, Create(p, s.now));
      && (t.Ctl(p) == Locked(role, s.now) <==> readable && s.now - s.lock.value.stamp > 30000)
      && t.lock == (if readable && s.now - s.lock.value.stamp > 30000 then Some(LockFile(p, s.now)) else s.lock)
      && t.files == s.files
  {
    RunTwo(s, Begin(p, role), Create(p, s.now));
    var s1 := Step(Step(s, Begin(p, role)), Create(p, s.now));
    assert s1.Ctl(p) == Contended(role, 0);
    RunTwo(s1, Inspect(p, readable), Unlink(p));
  }

  // ------------------------------------------------------------------
  // Giving up
  // ------------------------------------------------------------------

  // `n` attempts that meet a lock which cannot be read.
  function Refusals(p: Pid, n: nat): seq<Event> {
    if n == 0 then [] else [Create(p, 0), Inspect(p, false)] + Refusals(p, n - 1)
  }

  lemma OneRefusal(s: State, p: Pid, role: Role, attempt: nat)
    requires s.lock.Some? && s.Ctl(p) == Trying(role, attempt)
    ensures Attempts(s, Create(p, 0), p) && !Attempts(Step(s, Create(p, 0)), Inspect(p, false), p)
    ensures
      var t := Step(Step(s, Create(p, 0)), Inspect(p, false));
      t.lock == s.lock && t.Ctl(p) == if attempt + 1 < 10 then Trying(role, attempt + 1) else Idle
  {
    var s1 := Step(s, Create(p, 0));
    assert s1.Ctl(p) == Contended(role, attempt) && s1.lock == s.lock;
  }

  // Each of them is one creation, and after the tenth the process gives up.
  lemma {:induction false} GivesUpAfterTen(s: State, p: Pid, role: Role, attempt: nat, n: nat)
    requires s.lock.Some? && s.Ctl(p) == Trying(role, attempt) && attempt < 10 && attempt + n <= 10
    ensures Run(s, Refusals(p, n)).Ctl(p) == if attempt + n < 10 then Trying(role, attempt + n) else Idle
    ensures Count(s, Refusals(p, n), p) == n
    decreases n
  {
    hide Step, Attempts;
    if n > 0 {
      var events := Refusals(p, n);
      OneRefusal(s, p, role, attempt);
      var s1 := Step(s, events[0]);
      var s2 := Step(s1, events[1]);
      assert events[1..] == [events[1]] + Refusals(p, n - 1) && events[1..][1..] == Refusals(p, n - 1);
      assert Run(s, events) == Run(s1, events[1..]) == Run(s2, Refusals(p, n - 1));
      assert Count(s, events, p) == 1 + Count(s1, events[1..], p) == 1 + Count(s2, Refusals(p, n - 1), p);
      if attempt + 1 < 10 {
        GivesUpAfterTen(s2, p, role, attempt + 1, n - 1);
      } else {
        assert Refusals(p, n - 1) == [];
      }
    }
  }

  // Any other failure of a creation ends the acquisition at once.
  lemma FailureEndsAcquire(s: State, p: Pid)
    requires s.Ctl(p).Trying?
    ensures Step(s, CreateFails(p)) == s.Go(p, Idle)
  {
  }
}
