// What getAllLogsAndReset (container/process-monitor.ts) promises: no appended
// line is lost, returned twice or reordered.
module LogDrain {
  import opened Wrappers
  import opened Text
  import opened LogProtocol

  // A process's position, also if it died there.
  function Base(c: Control): Control {
    if c.Crashed? then c.last else c
  }

  // The rename whose content a process is carrying to its caller.
  function Carries(c: Control): Option<nat> {
    match Base(c)
    case Renamed(_, temp) => Some(temp)
    case Recreated(_, temp) => Some(temp)
    case Done(_, _, _, batch) => batch
    case _ => None
  }

  // What was appended is what was renamed away, in order, and the current log.
  ghost predicate Books(s: State) {
    |s.place| == |s.taken| && s.appended == Concat(s.taken) + s.Log()
  }

  // A process that carries piece `u` has it unchanged, in its temporary file
  // or as its result.
  ghost predicate Carrier(s: State, p: Pid) {
    var c := Base(s.Ctl(p));
    && (Carries(s.Ctl(p)).Some? ==>
          var u := Carries(s.Ctl(p)).value;
          && u < |s.taken| && u < |s.place| && s.place[u] == WithProcess(p)
          && (if c.Done? then c.text == s.taken[u] else TempPath(u) in s.files && s.files[TempPath(u)] == s.taken[u]))
    && (c.Done? && c.batch.None? && c.role.Drainer? ==> c.text == "")
    && (c.Done? && c.role.Reader? ==> c.batch.None?)
  }

  // Piece `u` is where its history says.
  ghost predicate Placed(s: State, u: nat)
    requires u < |s.place| == |s.taken|
  {
    match s.place[u]
    case WithProcess(p) => Carries(s.Ctl(p)) == Some(u)
    case AtReturn(i) => i < |s.returned| && s.returned[i] == Return(s.taken[u], Some(u))
  }

  ghost predicate Returned(s: State, i: nat)
    requires i < |s.returned|
  {
    match s.returned[i].batch
    case None => s.returned[i].text == ""
    case Some(u) => u < |s.place| && s.place[u] == AtReturn(i)
  }

  // The books balance, and each piece is in exactly one place, unchanged: with
  // one process or at one return.
  ghost predicate Accounted(s: State) {
    && Books(s)
    && (forall p: Pid :: Carrier(s, p))
    && (forall u: nat :: u < |s.place| ==> Placed(s, u))
    && (forall i: nat :: i < |s.returned| ==> Returned(s, i))
  }

  lemma BooksStep(s: State, e: Event)
    requires Accounted(s)
    ensures Books(Step(s, e))
  {
    hide Concat;
    var t := Step(s, e);
    if e.Append? {
      assert s.appended + e.line == Concat(s.taken) + (s.Log() + e.line);
    } else if t.taken != s.taken {
      ConcatOne(s.taken, s.Log());
      assert t.Log() == "" && Concat(t.taken) + "" == Concat(t.taken);
    }
  }

  predicate Acts(e: Event, p: Pid) {
    !e.Tick? && !e.Append? && e.pid == p
  }

  // What a step leaves alone of a piece that the acting process does not carry.
  lemma TempKept(s: State, e: Event, u: nat)
    requires u < |s.taken| && TempPath(u) in s.files
    requires e.ReadTemp? ==> Carries(s.Ctl(e.pid)) != Some(u)
    ensures TempPath(u) in Step(s, e).files && Step(s, e).files[TempPath(u)] == s.files[TempPath(u)]
  {
  }

  lemma PlaceKept(s: State, e: Event, u: nat)
    requires u < |s.taken| == |s.place|
    requires e.Release? ==> Carries(s.Ctl(e.pid)) != Some(u)
    ensures var t := Step(s, e);
      u < |t.taken| && u < |t.place| && t.taken[u] == s.taken[u] && t.place[u] == s.place[u]
  {
  }

  lemma ControlKept(s: State, e: Event, p: Pid)
    requires !Acts(e, p)
    ensures Step(s, e).Ctl(p) == s.Ctl(p)
  {
  }

  lemma CarrierOther(s: State, e: Event, p: Pid)
    requires Accounted(s) && !Acts(e, p)
    ensures Carrier(Step(s, e), p)
  {
    hide Concat, Step, Placed, Returned, Carries;
    assert Carrier(s, p);
    ControlKept(s, e, p);
    if Carries(s.Ctl(p)).Some? {
      var u := Carries(s.Ctl(p)).value;
      if !(e.Tick? || e.Append?) {
        assert Carrier(s, e.pid);
      }
      PlaceKept(s, e, u);
      if TempPath(u) in s.files {
        TempKept(s, e, u);
      }
    }
  }

  lemma CarrierSelf(s: State, e: Event, p: Pid)
    requires Accounted(s) && Acts(e, p)
    ensures Carrier(Step(s, e), p)
  {
    hide Concat;
    assert Carrier(s, p);
  }

  lemma PlacedRelease(s: State, p: Pid, u: nat)
    requires Accounted(s) && u < |s.place|
    ensures |Step(s, Release(p)).place| == |s.place| == |Step(s, Release(p)).taken|
    ensures Placed(Step(s, Release(p)), u)
  {
    hide Concat;
    assert Placed(s, u) && Carrier(s, p);
  }

  lemma CarriesKept(s: State, e: Event, p: Pid)
    requires !e.Release? && Carrier(s, p) && Carries(s.Ctl(p)).Some?
    ensures Carries(Step(s, e).Ctl(p)) == Carries(s.Ctl(p))
  {
  }

  lemma HistoryKept(s: State, e: Event)
    requires !e.Release? && |s.place| == |s.taken|
    ensures var t := Step(s, e);
      && t.returned == s.returned && s.place <= t.place && s.taken <= t.taken && |t.place| == |t.taken|
      && (|t.place| > |s.place| ==> t.place == s.place + [WithProcess(e.pid)] && Carries(t.Ctl(e.pid)) == Some(|s.place|))
  {
  }

  lemma PlacedStep(s: State, e: Event, u: nat)
    requires Accounted(s) && |Step(s, e).place| == |Step(s, e).taken|
    requires u < |Step(s, e).place|
    ensures Placed(Step(s, e), u)
  {
    hide Concat, Step, Carries;
    if e.Release? {
      assert |s.place| == |Step(s, e).place| by { PlacedReleaseSize(s, e.pid); }
      PlacedRelease(s, e.pid, u);
    } else {
      HistoryKept(s, e);
      if u < |s.place| {
        assert Placed(s, u);
        if s.place[u].WithProcess? {
          CarriesKept(s, e, s.place[u].pid);
        }
      }
    }
  }

  lemma PlacedReleaseSize(s: State, p: Pid)
    ensures |Step(s, Release(p)).place| == |s.place|
  {
  }

  lemma ReturnedStep(s: State, e: Event, i: nat)
    requires Accounted(s) && i < |Step(s, e).returned|
    ensures Returned(Step(s, e), i)
  {
    hide Concat;
    if i < |s.returned| {
      assert Returned(s, i);
    }
    if !(e.Tick? || e.Append?) {
      assert Carrier(s, e.pid);
    }
  }

  lemma AccountedStep(s: State, e: Event)
    requires Accounted(s)
    ensures Accounted(Step(s, e))
  {
    hide Concat, Step, Placed, Carrier, Returned;
    var t := Step(s, e);
    BooksStep(s, e);
    forall p: Pid ensures Carrier(t, p) {
      if Acts(e, p) { CarrierSelf(s, e, p); } else { CarrierOther(s, e, p); }
    }
    forall u: nat | u < |t.place| ensures Placed(t, u) { PlacedStep(s, e, u); }
    forall i: nat | i < |t.returned| ensures Returned(t, i) { ReturnedStep(s, e, i); }
  }

  lemma ConcatOne(parts: seq<string>, x: string)
    ensures Concat(parts + [x]) == Concat(parts) + x
  {
    ConcatAppend(parts, [x]);
    assert [x][1..] == [] && x + "" == x;
  }

  // In every run, with crashes, stolen locks and any number of drainers inside
  // at once, the books balance.
  lemma {:induction false} DrainConserves(s: State, events: seq<Event>)
    requires Accounted(s)
    ensures Accounted(Run(s, events))
    decreases |events|
  {
    hide Step, Accounted;
    if events != [] {
      AccountedStep(s, events[0]);
      DrainConserves(Step(s, events[0]), events[1..]);
    }
  }

  lemma DrainFromStartConserves(events: seq<Event>)
    ensures
      var s := Run(INITIAL, events);
      Accounted(s) && s.appended == Concat(s.taken) + s.Log()
  {
    DrainConserves(INITIAL, events);
  }

  // What that means for the callers: two returns never carry the same piece,
  // and what is with a process has not been returned.
  lemma NothingTwice(events: seq<Event>, i: nat, j: nat, p: Pid, q: Pid)
    ensures
      var s := Run(INITIAL, events);
      && (i < j < |s.returned| && s.returned[i].batch.Some? ==> s.returned[i].batch != s.returned[j].batch)
      && (i < |s.returned| && s.returned[i].batch.Some? ==> Carries(s.Ctl(p)) != s.returned[i].batch)
      && (p != q && Carries(s.Ctl(p)).Some? ==> Carries(s.Ctl(p)) != Carries(s.Ctl(q)))
  {
    DrainConserves(INITIAL, events);
    var s := Run(INITIAL, events);
    assert i < |s.returned| ==> Returned(s, i);
    assert j < |s.returned| ==> Returned(s, j);
    assert Carrier(s, p) && Carrier(s, q);
  }

  // ------------------------------------------------------------------
  // With the lock doing its work, the pieces also come back in order
  // ------------------------------------------------------------------

  function Texts(returned: seq<Return>): seq<string> {
    seq(|returned|, i requires 0 <= i < |returned| => returned[i].text)
  }

  // The content the lock's owner has taken and not yet returned.
  function InFlight(s: State): string {
    if s.lock.None? then ""
    else match Base(s.Ctl(s.lock.value.owner))
      case Renamed(_, u) => if TempPath(u) in s.files then s.files[TempPath(u)] else ""
      case Recreated(_, u) => if TempPath(u) in s.files then s.files[TempPath(u)] else ""
      case Done(role, _, text, _) => if role.Drainer? then text else ""
      case _ => ""
  }

  ghost predicate InOrder(s: State) {
    Concat(s.taken) == Concat(Texts(s.returned)) + InFlight(s)
  }

  lemma InOrderRename(s: State, p: Pid)
    requires Accounted(s) && Orderly(s) && InOrder(s) && Step(s, Rename(p)) != s
    ensures InOrder(Step(s, Rename(p)))
  {
    hide Concat;
    var t := Step(s, Rename(p));
    assert Owes(s.Ctl(p));
    assert InFlight(s) == "" && Concat(Texts(s.returned)) + "" == Concat(Texts(s.returned));
    if t.taken != s.taken {
      ConcatOne(s.taken, s.files[LogPath]);
      assert InFlight(t) == s.files[LogPath];
    }
  }

  lemma InOrderRelease(s: State, p: Pid)
    requires Accounted(s) && Orderly(s) && InOrder(s) && Step(s, Release(p)) != s
    ensures InOrder(Step(s, Release(p)))
  {
    hide Concat;
    var t := Step(s, Release(p));
    assert Owes(s.Ctl(p));
    if s.Ctl(p).role.Drainer? {
      assert Texts(t.returned) == Texts(s.returned) + [s.Ctl(p).text];
      ConcatOne(Texts(s.returned), s.Ctl(p).text);
    }
    assert InFlight(t) == "" && Concat(Texts(t.returned)) + "" == Concat(Texts(t.returned));
  }

  // The owner's own steps: the text moves from its temporary file to its result.
  lemma InFlightOwner(s: State, e: Event)
    requires Accounted(s) && Orderly(s) && !e.Rename? && !e.Release?
    requires s.lock.Some? && Acts(e, s.lock.value.owner)
    ensures InFlight(Step(s, e)) == InFlight(s)
  {
    hide Concat;
    assert Owes(s.Ctl(e.pid)) && Carrier(s, e.pid);
  }

  lemma InFlightOther(s: State, e: Event)
    requires Accounted(s) && Orderly(s) && !e.Rename? && !e.Release?
    requires s.lock.Some? ==> !Acts(e, s.lock.value.owner)
    ensures InFlight(Step(s, e)) == InFlight(s)
  {
    hide Concat, Placed, Returned;
    if !(e.Tick? || e.Append?) {
      assert !s.Ctl(e.pid).Removing?;
      assert !Owes(s.Ctl(e.pid));
    }
    if s.lock.Some? {
      var q := s.lock.value.owner;
      assert Owes(s.Ctl(q)) && Carrier(s, q);
      ControlKept(s, e, q);
    }
  }

  lemma InFlightKept(s: State, e: Event)
    requires Accounted(s) && Orderly(s) && !e.Rename? && !e.Release?
    ensures InFlight(Step(s, e)) == InFlight(s)
  {
    hide *;
    if s.lock.Some? && Acts(e, s.lock.value.owner) { InFlightOwner(s, e); } else { InFlightOther(s, e); }
  }

  lemma InOrderStep(s: State, e: Event)
    requires Accounted(s) && Orderly(s) && InOrder(s)
    ensures InOrder(Step(s, e))
  {
    hide Concat, InFlight;
    if Step(s, e) != s {
      if e.Rename? {
        InOrderRename(s, e.pid);
      } else if e.Release? {
        InOrderRelease(s, e.pid);
      } else {
        InFlightKept(s, e);
      }
    }
  }

  // In every run where each holder unlinks within LOCK_STALE_MS of its
  // timestamp, the returned texts in order of return, then the piece in
  // flight, then the log file are exactly what was appended.
  lemma {:induction false} DrainInOrder(s: State, events: seq<Event>)
    requires Accounted(s) && Orderly(s) && InOrder(s) && TimelyRun(s, events)
    ensures
      var t := Run(s, events);
      t.appended == Concat(Texts(t.returned)) + InFlight(t) + t.Log()
    decreases |events|
  {
    hide Step, Orderly, Concat, InFlight;
    if events != [] {
      AccountedStep(s, events[0]);
      OrderlyStep(s, events[0]);
      InOrderStep(s, events[0]);
      DrainInOrder(Step(s, events[0]), events[1..]);
    }
  }

  lemma DrainFromStart(events: seq<Event>)
    requires TimelyRun(INITIAL, events)
    ensures
      var t := Run(INITIAL, events);
      t.appended == Concat(Texts(t.returned)) + InFlight(t) + t.Log()
  {
    DrainInOrder(INITIAL, events);
  }
}
