// The log file shared by the process monitor and the CLI: the lock file, and
// the rename-and-drain of the log (container/process-monitor.ts FileLock and
// SimpleLogManager, container/cli-tools.ts acquireLock and releaseLock).
//
// Every file-system call is one step of a transition system; any number of
// processes take steps in any order. An event that its process is not ready
// for changes nothing, so every sequence of events is a run.
module LogProtocol {
  import opened Wrappers

  const MAX_RETRIES: nat := 10
  const LOCK_STALE_MS: nat := 30000

  type Pid = nat

  // The lock file's content, `pid:timestamp`.
  datatype LockFile = LockFile(owner: Pid, stamp: nat)

  datatype Path = LogPath | TempPath(uuid: nat)

  // A drainer runs getAllLogsAndReset, a reader is the CLI's get without reset.
  datatype Role = Drainer | Reader

  // Where a process is. `stamp` is the time it wrote into the lock file.
  datatype Control =
    | Idle
    | Trying(role: Role, attempt: nat)
    | Contended(role: Role, attempt: nat)        // EEXIST; about to read the lock file
    | Removing(role: Role, attempt: nat)         // judged it stale; about to unlink it
    | Locked(role: Role, stamp: nat)
    | Renamed(stamp: nat, temp: nat)
    | Recreated(stamp: nat, temp: nat)
    | Done(role: Role, stamp: nat, text: string, batch: Option<nat>)  // about to release
    | Crashed(last: Control)

  datatype Return = Return(text: string, batch: Option<nat>)

  // Where the content of one rename is now.
  datatype Place = WithProcess(pid: Pid) | AtReturn(index: nat)

  // `appended`, `taken` (the renamed contents in order) and `place` are history.
  datatype State = State(
    now: nat,
    lock: Option<LockFile>,
    files: map<Path, string>,
    procs: map<Pid, Control>,
    returned: seq<Return>,
    appended: string,
    taken: seq<string>,
    place: seq<Place>)
  {
    function Ctl(p: Pid): Control {
      if p in procs then procs[p] else Idle
    }

    function Go(p: Pid, c: Control): State {
      this.(procs := procs[p := c])
    }

    function Log(): string {
      if LogPath in files then files[LogPath] else ""
    }
  }

  const INITIAL := State(0, None, map[], map[], [], "", [], [])

  datatype Event =
    | Tick(ms: nat)
    | Append(line: string)
    | Begin(pid: Pid, role: Role)
    | Create(pid: Pid, stamp: nat)        // writeFile with flag wx; `stamp` was read before it
    | CreateFails(pid: Pid)               // any error but EEXIST
    | Inspect(pid: Pid, readable: bool)   // readFile and the comparison with the clock
    | Unlink(pid: Pid)
    | Rename(pid: Pid)
    | Recreate(pid: Pid)
    | ReadTemp(pid: Pid)                  // and unlink the temporary file
    | ReadLog(pid: Pid)
    | Release(pid: Pid)
    | Crash(pid: Pid)

  // The next turn of the retry loop, or giving up.
  function Retry(role: Role, attempt: nat): Control {
    if attempt + 1 < MAX_RETRIES then Trying(role, attempt + 1) else Idle
  }

  function Step(s: State, e: Event): State {
    match e
    case Tick(ms) => s.(now := s.now + ms)
    case Append(line) => s.(files := s.files[LogPath := s.Log() + line], appended := s.appended + line)
    case Begin(p, role) => if s.Ctl(p).Idle? then s.Go(p, Trying(role, 0)) else s
    case Create(p, stamp) =>
      if !(s.Ctl(p).Trying? && stamp <= s.now) then s
      else if s.lock.None? then s.Go(p, Locked(s.Ctl(p).role, stamp)).(lock := Some(LockFile(p, stamp)))
      else s.Go(p, Contended(s.Ctl(p).role, s.Ctl(p).attempt))
    case CreateFails(p) => if s.Ctl(p).Trying? then s.Go(p, Idle) else s
    case Inspect(p, readable) =>
      if !s.Ctl(p).Contended? then s
      else if readable && s.lock.Some? && s.now - s.lock.value.stamp > LOCK_STALE_MS then
        s.Go(p, Removing(s.Ctl(p).role, s.Ctl(p).attempt))
      else s.Go(p, Retry(s.Ctl(p).role, s.Ctl(p).attempt))
    case Unlink(p) =>
      if s.Ctl(p).Removing? then s.Go(p, Retry(s.Ctl(p).role, s.Ctl(p).attempt)).(lock := None) else s
    case Rename(p) =>
      if !(s.Ctl(p).Locked? && s.Ctl(p).role.Drainer?) then s
      else if LogPath !in s.files then s.Go(p, Done(Drainer, s.Ctl(p).stamp, "", None))
      else
        var u := |s.taken|;
        s.Go(p, Renamed(s.Ctl(p).stamp, u)).(
          files := (s.files - {LogPath})[TempPath(u) := s.files[LogPath]],
          taken := s.taken + [s.files[LogPath]],
          place := s.place + [WithProcess(p)])
    case Recreate(p) =>
      if !s.Ctl(p).Renamed? then s
      else
        s.Go(p, Recreated(s.Ctl(p).stamp, s.Ctl(p).temp)).(
          files := if LogPath in s.files then s.files else s.files[LogPath := ""])
    case ReadTemp(p) =>
      if !s.Ctl(p).Recreated? then s
      else
        var t := TempPath(s.Ctl(p).temp);
        s.Go(p, Done(Drainer, s.Ctl(p).stamp, if t in s.files then s.files[t] else "", Some(s.Ctl(p).temp))).(
          files := s.files - {t})
    case ReadLog(p) =>
      if s.Ctl(p).Locked? && s.Ctl(p).role.Reader? then s.Go(p, Done(Reader, s.Ctl(p).stamp, s.Log(), None)) else s
    case Release(p) =>
      if !s.Ctl(p).Done? then s
      else
        var c := s.Ctl(p);
        var freed := s.Go(p, Idle).(lock := None);
        if c.role.Reader? then freed
        else
          freed.(
            returned := s.returned + [Return(c.text, c.batch)],
            place := if c.batch.Some? && c.batch.value < |s.place|
                     then s.place[c.batch.value := AtReturn(|s.returned|)] else s.place)
    case Crash(p) => if s.Ctl(p).Crashed? then s else s.Go(p, Crashed(s.Ctl(p)))
  }

  function Run(s: State, events: seq<Event>): State
    decreases |events|
  {
    if events == [] then s else Run(Step(s, events[0]), events[1..])
  }

  // ------------------------------------------------------------------
  // The lock
  // ------------------------------------------------------------------

  // Inside the critical section, alive.
  predicate Holds(c: Control) {
    c.Locked? || c.Renamed? || c.Recreated? || c.Done?
  }

  // Inside it, alive or not: a crashed holder never unlinks.
  predicate Owes(c: Control) {
    Holds(c) || (c.Crashed? && Holds(c.last))
  }

  function Stamp(c: Control): nat
    requires Owes(c)
  {
    if c.Crashed? then c.last.stamp else c.stamp
  }

  // The lock file always names the process that holds the lock.
  ghost predicate Exclusive(s: State) {
    forall p: Pid :: Holds(s.Ctl(p)) ==> s.lock == Some(LockFile(p, s.Ctl(p).stamp))
  }

  lemma ExclusiveMeansOne(s: State, p: Pid, q: Pid)
    requires Exclusive(s) && Holds(s.Ctl(p)) && Holds(s.Ctl(q))
    ensures p == q
  {
    assert s.lock == Some(LockFile(p, s.Ctl(p).stamp));
  }

  // The one dangerous step: a process that judged an earlier lock file stale
  // unlinks whatever is there now, and that belongs to a live holder.
  predicate StealsLiveLock(s: State, e: Event) {
    e.Unlink? && s.Ctl(e.pid).Removing? && s.lock.Some? && Holds(s.Ctl(s.lock.value.owner))
  }

  // Exactly when a step keeps mutual exclusion.
  lemma ExclusionExactly(s: State, e: Event)
    requires Exclusive(s)
    ensures Exclusive(Step(s, e)) <==> !StealsLiveLock(s, e)
  {
    var t := Step(s, e);
    if StealsLiveLock(s, e) {
      var q := s.lock.value.owner;
      assert Holds(t.Ctl(q)) && t.lock.None?;
    } else {
      forall p: Pid | Holds(t.Ctl(p)) ensures t.lock == Some(LockFile(p, t.Ctl(p).stamp)) {
        assert Holds(s.Ctl(p)) || (e.Create? && e.pid == p);
      }
    }
  }

  predicate NoSteal(s: State, events: seq<Event>)
    decreases |events|
  {
    events == [] || (!StealsLiveLock(s, events[0]) && NoSteal(Step(s, events[0]), events[1..]))
  }

  // Over whole runs and with no timing assumption: as long as nobody unlinks a
  // live holder's lock, at most one process holds it.
  lemma {:induction false} ExclusionRun(s: State, events: seq<Event>)
    requires Exclusive(s) && NoSteal(s, events)
    ensures Exclusive(Run(s, events))
    decreases |events|
  {
    hide Step, Exclusive, StealsLiveLock;
    if events != [] {
      ExclusionExactly(s, events[0]);
      ExclusionRun(Step(s, events[0]), events[1..]);
    }
  }

  lemma ExclusionFromStart(events: seq<Event>, p: Pid, q: Pid)
    requires NoSteal(INITIAL, events)
    ensures
      var s := Run(INITIAL, events);
      Holds(s.Ctl(p)) && Holds(s.Ctl(q)) ==> p == q
  {
    ExclusionRun(INITIAL, events);
    hide Run;
  }

  // Every holder unlinks within LOCK_STALE_MS of its timestamp.
  ghost predicate Timely(s: State) {
    forall p: Pid :: Owes(s.Ctl(p)) ==> s.now - Stamp(s.Ctl(p)) <= LOCK_STALE_MS
  }

  ghost predicate TimelyRun(s: State, events: seq<Event>)
    decreases |events|
  {
    Timely(s) && (events == [] || TimelyRun(Step(s, events[0]), events[1..]))
  }

  // Nobody is about to remove a lock, and the lock file is exactly the
  // holder's.
  ghost predicate Orderly(s: State) {
    && (forall p: Pid :: !s.Ctl(p).Removing?)
    && (forall p: Pid :: Owes(s.Ctl(p)) ==> s.lock == Some(LockFile(p, Stamp(s.Ctl(p)))))
    && (s.lock.Some? ==> Owes(s.Ctl(s.lock.value.owner)))
  }

  lemma NotStale(s: State)
    requires Orderly(s) && Timely(s) && s.lock.Some?
    ensures s.now - s.lock.value.stamp <= LOCK_STALE_MS
  {
    assert Owes(s.Ctl(s.lock.value.owner));
  }

  // A process that does not act keeps its place, and its lock is not removed.
  lemma OrderlyOther(s: State, e: Event, p: Pid)
    requires Orderly(s) && Timely(s)
    requires e.Tick? || e.Append? || e.pid != p
    ensures var t := Step(s, e);
      !t.Ctl(p).Removing? && (Owes(t.Ctl(p)) ==> t.lock == Some(LockFile(p, Stamp(t.Ctl(p)))))
  {
    assert !s.Ctl(p).Removing? && Step(s, e).Ctl(p) == s.Ctl(p);
    if !e.Tick? && !e.Append? {
      assert !s.Ctl(e.pid).Removing?;
      assert Owes(s.Ctl(e.pid)) ==> s.lock == Some(LockFile(e.pid, Stamp(s.Ctl(e.pid))));
    }
  }

  // The one that acts judges no lock stale, and holds the lock when it is done
  // only if it did before or has just created the file.
  lemma OrderlySelf(s: State, e: Event)
    requires Orderly(s) && Timely(s) && !e.Tick? && !e.Append?
    ensures var t := Step(s, e);
      !t.Ctl(e.pid).Removing? && (Owes(t.Ctl(e.pid)) ==> t.lock == Some(LockFile(e.pid, Stamp(t.Ctl(e.pid)))))
  {
    assert !s.Ctl(e.pid).Removing?;
    if e.Inspect? && s.lock.Some? {
      NotStale(s);
    }
  }

  lemma OrderlyLock(s: State, e: Event)
    requires Orderly(s)
    ensures Step(s, e).lock.Some? ==> Owes(Step(s, e).Ctl(Step(s, e).lock.value.owner))
  {
    if !e.Tick? && !e.Append? {
      assert !s.Ctl(e.pid).Removing?;
      assert Owes(s.Ctl(e.pid)) ==> s.lock == Some(LockFile(e.pid, Stamp(s.Ctl(e.pid))));
    }
  }

  lemma OrderlyStep(s: State, e: Event)
    requires Orderly(s) && Timely(s)
    ensures Orderly(Step(s, e))
  {
    hide Step, Timely;
    var t := Step(s, e);
    forall p: Pid ensures
      && !t.Ctl(p).Removing?
      && (Owes(t.Ctl(p)) ==> t.lock == Some(LockFile(p, Stamp(t.Ctl(p)))))
    {
      if e.Tick? || e.Append? || e.pid != p { OrderlyOther(s, e, p); } else { OrderlySelf(s, e); }
    }
    OrderlyLock(s, e);
  }

  // Mutual exclusion over whole runs, with the file's owner the holder.
  lemma {:induction false} MutualExclusion(s: State, events: seq<Event>)
    requires Orderly(s) && TimelyRun(s, events)
    ensures Orderly(Run(s, events)) && Exclusive(Run(s, events))
    ensures forall p: Pid, q: Pid :: Holds(Run(s, events).Ctl(p)) && Holds(Run(s, events).Ctl(q)) ==> p == q
    decreases |events|
  {
    if events != [] {
      OrderlyStep(s, events[0]);
      MutualExclusion(Step(s, events[0]), events[1..]);
    }
  }

  lemma MutualExclusionFromStart(events: seq<Event>, p: Pid, q: Pid)
    requires TimelyRun(INITIAL, events)
    ensures
      var s := Run(INITIAL, events);
      && (Holds(s.Ctl(p)) ==> s.lock == Some(LockFile(p, s.Ctl(p).stamp)))
      && (Holds(s.Ctl(p)) && Holds(s.Ctl(q)) ==> p == q)
  {
    MutualExclusion(INITIAL, events);
  }

  // The lock of a holder that died, 30001 milliseconds old, and where the two
  // contenders are.
  function Contest(procs: map<Pid, Control>): State {
    INITIAL.(now := LOCK_STALE_MS + 1, lock := Some(LockFile(0, 0)),
             procs := map[0 := Crashed(Locked(Drainer, 0))] + procs)
  }

  lemma HolderDies() returns (events: seq<Event>, s: State)
    ensures s == Run(INITIAL, events) && s == Contest(map[])
  {
    events, s := Extend([], INITIAL, Begin(0, Drainer));
    events, s := Extend(events, s, Create(0, 0));
    assert s.procs == map[0 := Locked(Drainer, 0)];
    events, s := Extend(events, s, Crash(0));
    events, s := Extend(events, s, Tick(LOCK_STALE_MS + 1));
  }

  lemma TwoBegin() returns (events: seq<Event>, s: State)
    ensures s == Run(INITIAL, events) && s == Contest(map[1 := Trying(Drainer, 0), 2 := Trying(Drainer, 0)])
  {
    hide Run;
    events, s := HolderDies();
    events, s := Extend(events, s, Begin(1, Drainer));
    events, s := Extend(events, s, Begin(2, Drainer));
  }

  lemma TwoContend() returns (events: seq<Event>, s: State)
    ensures s == Run(INITIAL, events) && s == Contest(map[1 := Contended(Drainer, 0), 2 := Contended(Drainer, 0)])
  {
    hide Run;
    events, s := TwoBegin();
    events, s := Extend(events, s, Create(1, 30001));
    events, s := Extend(events, s, Create(2, 30001));
  }

  // Two contenders both judge the dead holder's lock stale.
  lemma TwoJudgeStale() returns (events: seq<Event>, s: State)
    ensures s == Run(INITIAL, events) && s == Contest(map[1 := Removing(Drainer, 0), 2 := Removing(Drainer, 0)])
  {
    hide Run;
    events, s := TwoContend();
    events, s := Extend(events, s, Inspect(1, true));
    events, s := Extend(events, s, Inspect(2, true));
  }

  // Without the timing assumption mutual exclusion fails: the slower of the two
  // unlinks the faster one's new lock. At the end both hold it and both are timely.
  lemma StaleRecoveryRace() returns (events: seq<Event>, s: State)
    ensures s == Run(INITIAL, events)
    ensures s.Ctl(1) == Locked(Drainer, 30001) && s.Ctl(2) == Locked(Drainer, 30001) && s.now == 30001
  {
    hide Run;
    events, s := TwoJudgeStale();
    events, s := Extend(events, s, Unlink(1));
    events, s := Extend(events, s, Create(1, 30001));
    assert s.procs[1] == Locked(Drainer, 30001) && s.procs[2] == Removing(Drainer, 0);
    events, s := Extend(events, s, Unlink(2));
    events, s := Extend(events, s, Create(2, 30001));
  }

  lemma Extend(events: seq<Event>, s: State, e: Event) returns (more: seq<Event>, t: State)
    requires s == Run(INITIAL, events)
    ensures more == events + [e] && t == Step(s, e) && t == Run(INITIAL, more)
  {
    more, t := events + [e], Step(s, e);
    RunAppend(INITIAL, events, [e]);
  }

  lemma {:induction false} RunAppend(s: State, a: seq<Event>, b: seq<Event>)
    ensures Run(s, a + b) == Run(Run(s, a), b)
    decreases |a|
  {
    if a == [] {
      assert a + b == b;
    } else {
      assert (a + b)[0] == a[0] && (a + b)[1..] == a[1..] + b;
      RunAppend(Step(s, a[0]), a[1..], b);
    }
  }

  // ------------------------------------------------------------------
  // The retry loop
  // ------------------------------------------------------------------

  // What the file system answers to one attempt.
  datatype Answer = Created | Exists(readable: bool, age: int) | OtherError

  datatype Outcome = Acquired | GaveUp | Threw

  // FileLock.acquire: for every file system it ends within MAX_RETRIES
  // attempts. It succeeds at the first answer that is not EEXIST, if that is a
  // creation, and unlinks exactly the lock files it judged stale before.
  method Acquire(answers: nat -> Answer) returns (r: Outcome, attempts: nat, unlinked: set<nat>)
    ensures attempts <= MAX_RETRIES
    ensures forall i :: 0 <= i < attempts ==> answers(i).Exists?
    ensures r == if attempts == MAX_RETRIES then GaveUp else if answers(attempts).Created? then Acquired else Threw
    ensures attempts < MAX_RETRIES ==> !answers(attempts).Exists?
    ensures forall i: nat :: i in unlinked <==>
      i < attempts && answers(i).readable && answers(i).age > LOCK_STALE_MS
  {
    attempts, unlinked := 0, {};
    while attempts < MAX_RETRIES
      invariant attempts <= MAX_RETRIES
      invariant forall i :: 0 <= i < attempts ==> answers(i).Exists?
      invariant forall i: nat :: i in unlinked <==>
        i < attempts && answers(i).readable && answers(i).age > LOCK_STALE_MS
    {
      match answers(attempts) {
        case Created => return Acquired, attempts, unlinked;
        case OtherError => return Threw, attempts, unlinked;
        case Exists(readable, age) =>
          if readable && age > LOCK_STALE_MS {
            unlinked := unlinked + {attempts};
          }
      }
      attempts := attempts + 1;
    }
    return GaveUp, attempts, unlinked;
  }

  // The CLI's acquireLock: the same attempts and the same unlinks, but every
  // failure is the answer false.
  method AcquireLock(answers: nat -> Answer) returns (acquired: bool, attempts: nat, unlinked: set<nat>)
    ensures attempts <= MAX_RETRIES
    ensures forall i :: 0 <= i < attempts ==> answers(i).Exists?
    ensures attempts < MAX_RETRIES ==> !answers(attempts).Exists?
    ensures acquired <==> attempts < MAX_RETRIES && answers(attempts).Created?
    ensures forall i: nat :: i in unlinked <==>
      i < attempts && answers(i).readable && answers(i).age > LOCK_STALE_MS
  {
    attempts, unlinked := 0, {};
    while attempts < MAX_RETRIES
      invariant attempts <= MAX_RETRIES
      invariant forall i :: 0 <= i < attempts ==> answers(i).Exists?
      invariant forall i: nat :: i in unlinked <==>
        i < attempts && answers(i).readable && answers(i).age > LOCK_STALE_MS
    {
      if answers(attempts).Created? { return true, attempts, unlinked; }
      if answers(attempts).OtherError? { return false, attempts, unlinked; }
      if answers(attempts).readable && answers(attempts).age > LOCK_STALE_MS {
        unlinked := unlinked + {attempts};
      }
      attempts := attempts + 1;
    }
    return false, attempts, unlinked;
  }

  // In the transition system: creation attempts left to a process that does
  // not begin again.
  function Budget(c: Control): nat {
    match c
    case Trying(_, a) => if a < MAX_RETRIES then MAX_RETRIES - a else 0
    case Contended(_, a) => if a + 1 < MAX_RETRIES then MAX_RETRIES - a - 1 else 0
    case Removing(_, a) => if a + 1 < MAX_RETRIES then MAX_RETRIES - a - 1 else 0
    case _ => 0
  }

  predicate Attempts(s: State, e: Event, p: Pid) {
    e.Create? && e.pid == p && Step(s, e) != s
  }

  function Count(s: State, events: seq<Event>, p: Pid): nat
    decreases |events|
  {
    if events == [] then 0
    else (if Attempts(s, events[0], p) then 1 else 0) + Count(Step(s, events[0]), events[1..], p)
  }

  function Begins(events: seq<Event>, p: Pid): nat {
    if events == [] then 0
    else (if events[0].Begin? && events[0].pid == p then 1 else 0) + Begins(events[1..], p)
  }

  ghost predicate AttemptsBounded(s: State) {
    forall p: Pid :: s.Ctl(p).Trying? ==> s.Ctl(p).attempt < MAX_RETRIES
  }

  lemma BudgetStep(s: State, e: Event, p: Pid)
    requires AttemptsBounded(s)
    ensures AttemptsBounded(Step(s, e))
    ensures (if Attempts(s, e, p) then 1 else 0) + Budget(Step(s, e).Ctl(p))
         <= Budget(s.Ctl(p)) + (if e.Begin? && e.pid == p then MAX_RETRIES else 0)
  {
    var t := Step(s, e);
    forall q: Pid | t.Ctl(q).Trying? ensures t.Ctl(q).attempt < MAX_RETRIES {
      assert s.Ctl(q).Trying? ==> s.Ctl(q).attempt < MAX_RETRIES;
    }
  }

  // Any interleaving: at most MAX_RETRIES creation attempts an acquisition.
  lemma {:induction false} AcquireBound(s: State, events: seq<Event>, p: Pid)
    requires AttemptsBounded(s)
    ensures Count(s, events, p) <= Budget(s.Ctl(p)) + MAX_RETRIES * Begins(events, p)
    decreases |events|
  {
    hide Step, Budget, Attempts, AttemptsBounded;
    if events != [] {
      BudgetStep(s, events[0], p);
      AcquireBound(Step(s, events[0]), events[1..], p);
    }
  }
}
