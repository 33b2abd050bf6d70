// What the connection (sdk/src/ws.ts) does to get back: when a reconnect is
// scheduled, and that a client that has not given up can always reopen.
module ConnectionProgress {
  import opened Wrappers
  import opened Connection
  import opened ConnectionRuns

  // A socket that fails, or could not be had.
  predicate Failure(c: ConnState, e: Event) {
    || (e.SocketCloses? && e.socket < c.net.sockets)
    || (e.SocketErrors? && e.socket < c.net.sockets)
    || (e.UrlFails? && c.net.urlsPending > 0)
  }

  // After each of them a reconnect is pending exactly when one was already, or
  // reconnects are on and neither close() nor the limit forbids one more.
  lemma ReconnectExactly(c: ConnState, cfg: RetryCfg, e: Event)
    requires Timers(c) && Failure(c, e)
    ensures
      var d := Step(c, cfg, e);
      var more := !c.closedByUser && cfg.enabled && (cfg.maxRetries.Infinite? || c.reconnectAttempts < cfg.maxRetries.n);
      && (d.net.liveTimers != {} <==> c.net.liveTimers != {} || more)
      && (d.reconnectTimer.Some? <==> d.net.liveTimers != {})
      && d.reconnectAttempts == c.reconnectAttempts + if c.net.liveTimers == {} && more then 1 else 0
  {
  }

  // A close event ends isOpen; the others leave it.
  lemma FailureOpen(c: ConnState, cfg: RetryCfg, e: Event)
    requires Failure(c, e)
    ensures Step(c, cfg, e).isOpen <==> c.isOpen && !e.SocketCloses?
  {
  }

  // An open event gives the full number of retries back.
  lemma OpenRestoresRetries(c: ConnState, cfg: RetryCfg, s: nat)
    requires s < c.net.sockets
    ensures Step(c, cfg, SocketOpens(s)).reconnectAttempts == 0 && Step(c, cfg, SocketOpens(s)).isOpen
  {
  }

  // A pending reconnect becomes an attempt when its timer fires, and an attempt
  // a new current socket when the URL is there.
  lemma TimerAttempts(c: ConnState, cfg: RetryCfg, t: nat)
    requires Timers(c) && t in c.net.liveTimers
    ensures
      var d := Step(c, cfg, TimerFires(t));
      d.net.liveTimers == {} && d.net.attempts == c.net.attempts + 1 && d.net.urlsPending == c.net.urlsPending + 1
  {
  }

  lemma UrlMakesSocket(c: ConnState, cfg: RetryCfg)
    requires c.net.urlsPending > 0
    ensures
      var d := Step(c, cfg, UrlReady);
      d.ws == Some(c.net.sockets) && d.net.sockets == c.net.sockets + 1 && d.net.urlsPending == c.net.urlsPending - 1
  {
  }

  // ------------------------------------------------------------------
  // Standard sockets
  // ------------------------------------------------------------------

  predicate GaveUp(c: ConnState, cfg: RetryCfg) {
    !cfg.enabled || (cfg.maxRetries.Finite? && c.reconnectAttempts >= cfg.maxRetries.n)
  }

  // Ways forward: a getUrl call, a timer, a socket that is not closed.
  function Ways(c: ConnState): nat {
    c.net.urlsPending + |c.net.liveTimers| + if Live(c) then 1 else 0
  }

  ghost predicate Onward(c: ConnState, cfg: RetryCfg) {
    Ways(c) == 1 || GaveUp(c, cfg)
  }

  lemma ScheduleOnward(c: ConnState, cfg: RetryCfg)
    requires OneAtATime(c) && Timers(c) && c.net.urlsPending == 0 && !Live(c)
    ensures Onward(ScheduleReconnect(c, cfg), cfg)
  {
  }

  lemma OnwardClose(c: ConnState, cfg: RetryCfg, s: nat)
    requires OneAtATime(c) && Timers(c) && Numbered(c) && Onward(c, cfg) && s !in c.net.hadClose
    ensures Onward(Step(c, cfg, SocketCloses(s)), cfg)
    ensures Onward(Step(Step(c, cfg, SocketErrors(s)), cfg, SocketCloses(s)), cfg)
  {
    hide ScheduleReconnect;
    if s < c.net.sockets {
      assert s == c.net.sockets - 1;
      var closed := c.(isOpen := false, net := c.net.(hadClose := c.net.hadClose + {s}));
      var failed := c.(isOpen := false, net := c.net.(hadError := c.net.hadError + {s}, hadClose := c.net.hadClose + {s}));
      FailureIsClose(c, cfg, s);
      ScheduleOnward(closed, cfg);
      ScheduleOnward(failed, cfg);
    }
  }

  lemma OnwardStep(c: ConnState, cfg: RetryCfg, e: Event)
    requires OneAtATime(c) && Timers(c) && Numbered(c) && Onward(c, cfg) && !e.Close? && !e.SocketErrors?
    requires e.SocketOpens? ==> c.net.Connecting(e.socket)
    requires e.SocketCloses? ==> e.socket !in c.net.hadClose
    ensures Onward(Step(c, cfg, e), cfg)
  {
    hide LogFlush, LogDirect, LogRefuse, LogEnqueue, LogDropOldest, FlushPendingSends, OnSend, ScheduleReconnect;
    match e
    case Send(text) => QueueFrame(c, text);
    case UrlFails =>
      if c.net.urlsPending > 0 {
        ScheduleOnward(c.(net := c.net.(urlsPending := c.net.urlsPending - 1)), cfg);
      }
    case SocketCloses(s) => OnwardClose(c, cfg, s);
    case SocketOpens(s) =>
      QueueFrame(c.(isOpen := true, reconnectAttempts := 0,
        net := c.net.(hadOpen := c.net.hadOpen + {s}, opens := c.net.opens + 1)), "");
    case _ =>
  }

  ghost predicate Good(c: ConnState, cfg: RetryCfg) {
    OneAtATime(c) && Timers(c) && WithinRetries(c, cfg) && Conserved(c) && Onward(c, cfg)
  }

  lemma GoodStep(c: ConnState, cfg: RetryCfg, e: Event)
    requires Good(c, cfg) && !e.Close? && !e.SocketErrors?
    requires e.SocketOpens? ==> c.net.Connecting(e.socket)
    requires e.SocketCloses? ==> e.socket !in c.net.hadClose
    ensures Good(Step(c, cfg, e), cfg)
  {
    assert Numbered(c);
    hide Numbered, Step, OneAtATime, Conserved, Timers, WithinRetries, Onward;
    ConservedStep(c, cfg, e);
    RetryStep(c, cfg, e);
    OneAtATimeStep(c, cfg, e);
    OnwardStep(c, cfg, e);
  }

  lemma GoodFailure(c: ConnState, cfg: RetryCfg, s: nat)
    requires Good(c, cfg) && s !in c.net.hadClose
    ensures Good(Step(Step(c, cfg, SocketErrors(s)), cfg, SocketCloses(s)), cfg)
  {
    assert Numbered(c);
    hide Numbered, Step, OneAtATime, Conserved, Timers, WithinRetries, Onward;
    var d := Step(c, cfg, SocketErrors(s));
    ConservedStep(c, cfg, SocketErrors(s));
    RetryStep(c, cfg, SocketErrors(s));
    ConservedStep(d, cfg, SocketCloses(s));
    RetryStep(d, cfg, SocketCloses(s));
    OneAtATimeFailure(c, cfg, s);
    OnwardClose(c, cfg, s);
  }

  lemma {:induction false} GoodRun(c: ConnState, cfg: RetryCfg, events: seq<Event>)
    requires Good(c, cfg) && Standard(c, cfg, events) && forall i :: 0 <= i < |events| ==> !events[i].Close?
    ensures Good(Run(c, cfg, events), cfg)
    decreases |events|
  {
    hide Step, Good;
    if events != [] {
      var e := events[0];
      if e.SocketErrors? {
        GoodFailure(c, cfg, e.socket);
        assert events[1..][1..] == events[2..];
        GoodRun(Step(Step(c, cfg, e), cfg, events[1]), cfg, events[2..]);
      } else {
        GoodStep(c, cfg, e);
        GoodRun(Step(c, cfg, e), cfg, events[1..]);
      }
    }
  }

  lemma GoodStart(cfg: RetryCfg)
    ensures Good(INITIAL, cfg)
  {
  }

  // Before close(), with sockets that keep to the standard: there is always
  // exactly one of a getUrl call, a timer and an unclosed socket, unless retries
  // are off or used up since the last open.
  lemma AlwaysOnward(cfg: RetryCfg, events: seq<Event>)
    requires Standard(INITIAL, cfg, events) && forall i :: 0 <= i < |events| ==> !events[i].Close?
    ensures
      var c := Run(INITIAL, cfg, events);
      && (c.net.urlsPending + |c.net.liveTimers| + (if Live(c) then 1 else 0) == 1
          || !cfg.enabled || (cfg.maxRetries.Finite? && c.reconnectAttempts >= cfg.maxRetries.n))
  {
    GoodStart(cfg);
    GoodRun(INITIAL, cfg, events);
  }

  // What it takes to be open again.
  function Recovery(c: ConnState): seq<Event> {
    if c.isOpen then []
    else if Live(c) then [SocketOpens(c.net.sockets - 1)]
    else if c.net.urlsPending > 0 then [UrlReady, SocketOpens(c.net.sockets)]
    else if c.reconnectTimer.Some? then [TimerFires(c.reconnectTimer.value), UrlReady, SocketOpens(c.net.sockets)]
    else []
  }

  lemma RecoverConnecting(c: ConnState, cfg: RetryCfg, s: nat)
    requires s < c.net.sockets && c.net.Connecting(s)
    ensures Standard(c, cfg, [SocketOpens(s)]) && Run(c, cfg, [SocketOpens(s)]).isOpen
  {
    OpenRestoresRetries(c, cfg, s);
    hide Step;
    assert [SocketOpens(s)][1..] == [];
  }

  lemma RecoverPending(c: ConnState, cfg: RetryCfg)
    requires Numbered(c) && c.net.urlsPending > 0
    ensures
      var way := [UrlReady, SocketOpens(c.net.sockets)];
      Standard(c, cfg, way) && Run(c, cfg, way).isOpen
  {
    var s := c.net.sockets;
    UrlMakesSocket(c, cfg);
    assert Step(c, cfg, UrlReady).net.Connecting(s);
    hide Step;
    RecoverConnecting(Step(c, cfg, UrlReady), cfg, s);
    assert [UrlReady, SocketOpens(s)][1..] == [SocketOpens(s)];
  }

  lemma RecoverTimer(c: ConnState, cfg: RetryCfg)
    requires Numbered(c) && Timers(c) && c.reconnectTimer.Some?
    ensures
      var way := [TimerFires(c.reconnectTimer.value), UrlReady, SocketOpens(c.net.sockets)];
      Standard(c, cfg, way) && Run(c, cfg, way).isOpen
  {
    var e := TimerFires(c.reconnectTimer.value);
    TimerAttempts(c, cfg, c.reconnectTimer.value);
    var d := Step(c, cfg, e);
    assert Numbered(d) && d.net.sockets == c.net.sockets;
    hide Step;
    RecoverPending(d, cfg);
    assert [e, UrlReady, SocketOpens(c.net.sockets)][1..] == [UrlReady, SocketOpens(c.net.sockets)];
  }

  lemma Recovers(c: ConnState, cfg: RetryCfg)
    requires Good(c, cfg) && Ways(c) == 1
    ensures Standard(c, cfg, Recovery(c)) && Run(c, cfg, Recovery(c)).isOpen
  {
    hide Step, Run, Standard, Conserved, WithinRetries;
    assert Numbered(c) by { ConservedNumbers(c); }
    if c.isOpen {
      RunNothing(c, cfg);
    } else if Live(c) {
      RecoverConnecting(c, cfg, c.net.sockets - 1);
    } else if c.net.urlsPending > 0 {
      RecoverPending(c, cfg);
    } else {
      RecoverTimer(c, cfg);
    }
  }

  lemma RunNothing(c: ConnState, cfg: RetryCfg)
    ensures Run(c, cfg, []) == c && Standard(c, cfg, [])
  {
  }

  lemma ConservedNumbers(c: ConnState)
    requires Conserved(c)
    ensures Numbered(c)
    ensures OneAtATime(c) && c.isOpen ==> c.pendingSends == []
  {
    hide Bookkeeping, WireAgrees;
  }

  // And it can always get back: the timer, the URL and the socket's open event,
  // those of them that are still to come, make it open with nothing queued.
  lemma CanReopen(cfg: RetryCfg, events: seq<Event>)
    requires Standard(INITIAL, cfg, events) && forall i :: 0 <= i < |events| ==> !events[i].Close?
    requires !GaveUp(Run(INITIAL, cfg, events), cfg)
    ensures
      var c := Run(INITIAL, cfg, events);
      && Standard(c, cfg, Recovery(c))
      && Run(c, cfg, Recovery(c)).isOpen && Run(c, cfg, Recovery(c)).pendingSends == []
  {
    GoodStart(cfg);
    GoodRun(INITIAL, cfg, events);
    var c := Run(INITIAL, cfg, events);
    assert Ways(c) == 1;
    Recovers(c, cfg);
    GoodRun(c, cfg, Recovery(c));
    ConservedNumbers(Run(c, cfg, Recovery(c)));
  }

  // ------------------------------------------------------------------
  // After close()
  // ------------------------------------------------------------------

  predicate Ended(c: ConnState) {
    c.closedByUser && c.net.liveTimers == {} && c.net.urlsPending == 0 && c.ws.None?
  }

  lemma EndedStep(c: ConnState, cfg: RetryCfg, e: Event)
    requires Ended(c)
    ensures Ended(Step(c, cfg, e)) && Step(c, cfg, e).log.wire == c.log.wire && Step(c, cfg, e).net.sockets == c.net.sockets
  {
  }

  lemma {:induction false} EndedRun(c: ConnState, cfg: RetryCfg, events: seq<Event>)
    requires Ended(c)
    ensures Ended(Run(c, cfg, events)) && Run(c, cfg, events).log.wire == c.log.wire
    decreases |events|
  {
    hide Step, Ended;
    if events != [] {
      EndedStep(c, cfg, events[0]);
      EndedRun(Step(c, cfg, events[0]), cfg, events[1..]);
    }
  }

  // After close() with no getUrl call in flight there is no current socket again
  // and nothing is handed over, whatever is sent and whatever old sockets do.
  lemma SilentAfterClose(cfg: RetryCfg, before: seq<Event>, after: seq<Event>)
    requires Run(INITIAL, cfg, before).net.urlsPending == 0
    ensures
      var c := Run(INITIAL, cfg, before);
      var d := Run(OnClose(c), cfg, after);
      d.ws.None? && d.log.wire == c.log.wire && d.net.urlsPending == 0 && d.net.liveTimers == {}
  {
    TimersRun(INITIAL, cfg, before);
    var c := Run(INITIAL, cfg, before);
    hide Run;
    assert Ended(OnClose(c)) && OnClose(c).log.wire == c.log.wire;
    EndedRun(OnClose(c), cfg, after);
  }
}
