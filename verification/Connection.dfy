// createAgentConnection (sdk/src/ws.ts): a reconnecting WebSocket with a
// bounded queue for messages sent while it is not open.
//
// Socket events arrive in any order and from any socket ever created, because
// the listeners of a replaced socket are never removed.
module Connection {
  import opened Wrappers

  const MAX_PENDING_SENDS: nat := 1000

  datatype Limit = Infinite | Finite(n: int)

  datatype RetryCfg = RetryCfg(enabled: bool, maxRetries: Limit)

  // What became of a message, by its number. A refused one made `ws.send` throw;
  // a discarded one was queued when close() was called.
  datatype Fate = Handed(socket: nat) | Queued | Dropped | Refused | Discarded

  datatype Handoff = Handoff(socket: nat, text: string)

  // History of the messages; `queue` are the numbers of those in pendingSends,
  // `closedSince` of all queued since the queue was last emptied.
  datatype Log = Log(
    sent: seq<string>, fate: seq<Fate>, handed: seq<nat>, wire: seq<Handoff>, queue: seq<nat>, closedSince: seq<nat>)

  // The surroundings: running timers, getUrl calls in flight, sockets made and
  // the events they have had, and counts of attempts, opens and scheduled
  // reconnects.
  datatype Net = Net(
    liveTimers: set<nat>, timersMade: nat, urlsPending: nat,
    sockets: nat, hadOpen: set<nat>, hadError: set<nat>, hadClose: set<nat>,
    attempts: nat, opens: nat, schedules: nat)
  {
    // readyState CONNECTING: no open, error or close event yet.
    predicate Connecting(socket: nat) {
      socket !in hadOpen && socket !in hadError && socket !in hadClose
    }

    predicate IsOpen(socket: nat) {
      socket in hadOpen && socket !in hadClose
    }
  }

  datatype ConnState = ConnState(
    ws: Option<nat>, isOpen: bool, closedByUser: bool, reconnectAttempts: nat, reconnectTimer: Option<nat>,
    pendingSends: seq<string>, net: Net, log: Log)
  {
    // `ws.send` throws.
    predicate Refuses() {
      ws.Some? && net.Connecting(ws.value)
    }
  }

  // After the call of connectNow that starts the first connection.
  const INITIAL :=
    ConnState(None, false, false, 0, None, [], Net({}, 0, 1, 0, {}, {}, {}, 1, 0, 0), Log([], [], [], [], [], []))

  datatype Event =
    | Send(text: string)
    | UrlReady            // getUrl resolves and a socket is made
    | UrlFails            // getUrl rejects, or the constructor throws
    | TimerFires(timer: nat)
    | SocketOpens(socket: nat)
    | SocketCloses(socket: nat)
    | SocketErrors(socket: nat)
    | Close

  function ScheduleReconnect(c: ConnState, cfg: RetryCfg): ConnState {
    if c.closedByUser then c
    else if !cfg.enabled then c
    else if cfg.maxRetries.Finite? && c.reconnectAttempts >= cfg.maxRetries.n then c
    else if c.reconnectTimer.Some? then c
    else
      c.(reconnectAttempts := c.reconnectAttempts + 1, reconnectTimer := Some(c.net.timersMade),
         net := c.net.(liveTimers := c.net.liveTimers + {c.net.timersMade}, timersMade := c.net.timersMade + 1,
                       schedules := c.net.schedules + 1))
  }

  function ClearReconnectTimer(c: ConnState): ConnState {
    if c.reconnectTimer.None? then c
    else c.(reconnectTimer := None, net := c.net.(liveTimers := c.net.liveTimers - {c.reconnectTimer.value}))
  }

  function ConnectNow(c: ConnState): ConnState {
    if c.closedByUser then c
    else
      var c1 := ClearReconnectTimer(c);
      c1.(net := c1.net.(attempts := c1.net.attempts + 1, urlsPending := c1.net.urlsPending + 1))
  }

  function SetFate(fate: seq<Fate>, ids: seq<nat>, now: Fate): seq<Fate> {
    seq(|fate|, i requires 0 <= i < |fate| => if i in ids then now else fate[i])
  }

  function Handoffs(texts: seq<string>, socket: nat): seq<Handoff> {
    seq(|texts|, i requires 0 <= i < |texts| => Handoff(socket, texts[i]))
  }

  // Everything queued is handed to `socket`, in order.
  function LogFlush(l: Log, texts: seq<string>, socket: nat): Log {
    l.(fate := SetFate(l.fate, l.queue, Handed(socket)), handed := l.handed + l.queue,
       wire := l.wire + Handoffs(texts, socket), queue := [], closedSince := [])
  }

  function LogDirect(l: Log, text: string, socket: nat): Log {
    l.(sent := l.sent + [text], fate := l.fate + [Handed(socket)], handed := l.handed + [|l.sent|],
       wire := l.wire + [Handoff(socket, text)])
  }

  function LogRefuse(l: Log, text: string): Log {
    l.(sent := l.sent + [text], fate := l.fate + [Refused])
  }

  function LogEnqueue(l: Log, text: string): Log {
    l.(sent := l.sent + [text], fate := l.fate + [Queued], queue := l.queue + [|l.sent|],
       closedSince := l.closedSince + [|l.sent|])
  }

  function LogDropOldest(l: Log): Log {
    if l.queue == [] || l.queue[0] >= |l.fate| then l
    else l.(fate := l.fate[l.queue[0] := Dropped], queue := l.queue[1..])
  }

  function LogDiscard(l: Log): Log {
    l.(fate := SetFate(l.fate, l.queue, Discarded), queue := [], closedSince := [])
  }

  // A flush that throws at its first message leaves the queue as it was.
  function FlushPendingSends(c: ConnState): ConnState {
    if c.ws.None? || !c.isOpen then c
    else if c.Refuses() && c.pendingSends != [] then c
    else c.(pendingSends := [], log := LogFlush(c.log, c.pendingSends, c.ws.value))
  }

  function OnSend(c: ConnState, text: string): ConnState {
    if c.isOpen && c.ws.Some? then
      c.(log := if c.Refuses() then LogRefuse(c.log, text) else LogDirect(c.log, text, c.ws.value))
    else
      var queued := c.(pendingSends := c.pendingSends + [text], log := LogEnqueue(c.log, text));
      if |queued.pendingSends| > MAX_PENDING_SENDS then
        queued.(pendingSends := queued.pendingSends[1..], log := LogDropOldest(queued.log))
      else queued
  }

  function OnClose(c: ConnState): ConnState {
    var c1 := ClearReconnectTimer(
      c.(closedByUser := true, isOpen := false, pendingSends := [], log := LogDiscard(c.log)));
    c1.(ws := None)
  }

  function Step(c: ConnState, cfg: RetryCfg, e: Event): ConnState {
    match e
    case Send(text) => OnSend(c, text)
    case UrlReady =>
      if c.net.urlsPending == 0 then c
      else c.(ws := Some(c.net.sockets), net := c.net.(urlsPending := c.net.urlsPending - 1, sockets := c.net.sockets + 1))
    case UrlFails =>
      if c.net.urlsPending == 0 then c
      else ScheduleReconnect(c.(net := c.net.(urlsPending := c.net.urlsPending - 1)), cfg)
    case TimerFires(t) =>
      if t !in c.net.liveTimers then c
      else ConnectNow(c.(reconnectTimer := None, net := c.net.(liveTimers := c.net.liveTimers - {t})))
    case SocketOpens(s) =>
      if s >= c.net.sockets then c
      else
        FlushPendingSends(c.(isOpen := true, reconnectAttempts := 0,
          net := c.net.(hadOpen := c.net.hadOpen + {s}, opens := c.net.opens + 1)))
    case SocketCloses(s) =>
      if s >= c.net.sockets then c
      else ScheduleReconnect(c.(isOpen := false, net := c.net.(hadClose := c.net.hadClose + {s})), cfg)
    case SocketErrors(s) =>
      if s >= c.net.sockets then c
      else ScheduleReconnect(c.(net := c.net.(hadError := c.net.hadError + {s})), cfg)
    case Close => OnClose(c)
  }

  function Run(c: ConnState, cfg: RetryCfg, events: seq<Event>): ConnState
    decreases |events|
  {
    if events == [] then c else Run(Step(c, cfg, events[0]), cfg, events[1..])
  }

  // ------------------------------------------------------------------
  // The closure's variables and handlers
  // ------------------------------------------------------------------

  class AgentConnection {
    const retryCfg: RetryCfg
    var ws: Option<nat>
    var isOpen: bool
    var closedByUser: bool
    var reconnectAttempts: nat
    var reconnectTimer: Option<nat>
    var pendingSends: seq<string>
    var net: Net
    ghost var log: Log

    ghost function View(): ConnState
      reads this
    {
      ConnState(ws, isOpen, closedByUser, reconnectAttempts, reconnectTimer, pendingSends, net, log)
    }

    // The history has a number for each queued message.
    ghost predicate Valid()
      reads this
    {
      && |pendingSends| == |log.queue| && |log.fate| == |log.sent|
      && forall i :: 0 <= i < |log.queue| ==> log.queue[i] < |log.fate|
    }

    constructor (retryCfg: RetryCfg)
      ensures Valid() && View() == INITIAL && this.retryCfg == retryCfg
    {
      this.retryCfg := retryCfg;
      ws, isOpen, closedByUser, reconnectAttempts, reconnectTimer := None, false, false, 0, None;
      pendingSends, net, log := [], INITIAL.net, INITIAL.log;
    }

    method Schedule()
      modifies this`reconnectAttempts, this`reconnectTimer, this`net
      ensures View() == ScheduleReconnect(old(View()), retryCfg)
    {
      if closedByUser { return; }
      if !retryCfg.enabled { return; }
      if retryCfg.maxRetries.Finite? && reconnectAttempts >= retryCfg.maxRetries.n { return; }
      if reconnectTimer.Some? { return; }
      reconnectAttempts := reconnectAttempts + 1;
      reconnectTimer := Some(net.timersMade);
      net := net.(liveTimers := net.liveTimers + {net.timersMade}, timersMade := net.timersMade + 1,
                  schedules := net.schedules + 1);
    }

    method ClearTimer()
      modifies this`reconnectTimer, this`net
      ensures View() == ClearReconnectTimer(old(View()))
    {
      if reconnectTimer.Some? {
        net := net.(liveTimers := net.liveTimers - {reconnectTimer.value});
        reconnectTimer := None;
      }
    }

    // `threw` says that ws.send threw, so that the loop did not end.
    method Flush() returns (threw: bool)
      requires Valid()
      modifies this`pendingSends, this`log
      ensures Valid() && View() == FlushPendingSends(old(View()))
      ensures threw <==> isOpen && old(View()).Refuses() && old(pendingSends) != []
    {
      if ws.None? || !isOpen { return false; }
      ghost var start := log;
      var i := 0;
      while i < |pendingSends|
        invariant 0 <= i <= |pendingSends| && pendingSends == old(pendingSends)
        invariant i > 0 ==> !net.Connecting(ws.value)
        invariant log == start.(fate := SetFate(start.fate, start.queue[..i], Handed(ws.value)),
          handed := start.handed + start.queue[..i], wire := start.wire + Handoffs(pendingSends[..i], ws.value))
      {
        if net.Connecting(ws.value) { return true; }
        // ws.send
        log := log.(
          fate := SetFate(log.fate, [start.queue[i]], Handed(ws.value)),
          handed := log.handed + [start.queue[i]],
          wire := log.wire + [Handoff(ws.value, pendingSends[i])]);
        i := i + 1;
      }
      assert start.queue[..i] == start.queue && pendingSends[..i] == pendingSends;
      pendingSends := [];
      log := log.(queue := [], closedSince := []);
      return false;
    }

    method SendMessage(text: string) returns (threw: bool)
      requires Valid()
      modifies this`pendingSends, this`log
      ensures Valid() && View() == OnSend(old(View()), text)
      ensures threw <==> isOpen && old(View()).Refuses()
    {
      if isOpen && ws.Some? {
        if net.Connecting(ws.value) {
          log := LogRefuse(log, text);
          return true;
        }
        log := LogDirect(log, text, ws.value);
        return false;
      }
      pendingSends := pendingSends + [text];
      log := LogEnqueue(log, text);
      if |pendingSends| > MAX_PENDING_SENDS {
        pendingSends := pendingSends[1..];
        log := LogDropOldest(log);
      }
      return false;
    }

    method Connect()
      modifies this`reconnectTimer, this`net
      ensures View() == ConnectNow(old(View()))
    {
      if closedByUser { return; }
      ClearTimer();
      net := net.(attempts := net.attempts + 1, urlsPending := net.urlsPending + 1);
    }

    // The continuation of connectNow after getUrl.
    method UrlArrives(ok: bool)
      requires net.urlsPending > 0
      modifies this
      ensures View() == Step(old(View()), retryCfg, if ok then UrlReady else UrlFails)
    {
      net := net.(urlsPending := net.urlsPending - 1);
      if ok {
        ws := Some(net.sockets);
        net := net.(sockets := net.sockets + 1);
      } else {
        Schedule();
      }
    }

    method FireTimer(timer: nat)
      requires timer in net.liveTimers
      modifies this
      ensures View() == Step(old(View()), retryCfg, TimerFires(timer))
    {
      net := net.(liveTimers := net.liveTimers - {timer});
      reconnectTimer := None;
      Connect();
    }

    method HandleOpen(socket: nat) returns (threw: bool)
      requires Valid() && socket < net.sockets
      modifies this
      ensures Valid() && View() == Step(old(View()), retryCfg, SocketOpens(socket))
    {
      net := net.(hadOpen := net.hadOpen + {socket}, opens := net.opens + 1);
      isOpen := true;
      reconnectAttempts := 0;
      threw := Flush();
    }

    method HandleClose(socket: nat)
      requires socket < net.sockets
      modifies this
      ensures View() == Step(old(View()), retryCfg, SocketCloses(socket))
      ensures !isOpen
      ensures reconnectTimer.Some? <==>
        || old(reconnectTimer).Some?
        || (!closedByUser && retryCfg.enabled
            && (retryCfg.maxRetries.Infinite? || old(reconnectAttempts) < retryCfg.maxRetries.n))
    {
      net := net.(hadClose := net.hadClose + {socket});
      isOpen := false;
      Schedule();
    }

    method HandleError(socket: nat)
      requires socket < net.sockets
      modifies this
      ensures View() == Step(old(View()), retryCfg, SocketErrors(socket))
    {
      net := net.(hadError := net.hadError + {socket});
      Schedule();
    }

    method CloseConnection()
      requires Valid()
      modifies this
      ensures Valid() && View() == OnClose(old(View()))
    {
      closedByUser := true;
      isOpen := false;
      pendingSends := [];
      log := LogDiscard(log);
      ClearTimer();
      ws := None;
    }
  }
}
