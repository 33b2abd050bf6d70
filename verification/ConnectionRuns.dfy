// What every run of the connection keeps: messages are conserved and ordered,
// reconnects are bounded.
module ConnectionRuns {
  import opened Wrappers
  import opened Connection
  import RingBuffer

  // ------------------------------------------------------------------
  // Messages
  // ------------------------------------------------------------------

  ghost predicate Increasing(ids: seq<nat>) {
    forall i, j :: 0 <= i < j < |ids| ==> ids[i] < ids[j]
  }

  ghost predicate Distinct(ids: seq<nat>) {
    forall i, j :: 0 <= i < j < |ids| ==> ids[i] != ids[j]
  }

  // The history agrees with itself: each message has one fate, the queue and
  // the hand-offs are those with that fate, none twice, and the queue is in the
  // order of the sends.
  ghost predicate Bookkeeping(l: Log) {
    && |l.fate| == |l.sent|
    && Distinct(l.handed) && Increasing(l.queue)
    && (forall id: nat :: id in l.handed <==> id < |l.fate| && l.fate[id].Handed?)
    && (forall id: nat :: id in l.queue <==> id < |l.fate| && l.fate[id].Queued?)
  }

  // What went over the wire is each handed message's own text, to the socket
  // recorded in its fate.
  ghost predicate WireAgrees(l: Log) {
    && |l.wire| == |l.handed|
    && (forall k :: 0 <= k < |l.handed| ==>
          l.handed[k] < |l.fate| == |l.sent| && l.fate[l.handed[k]] == Handed(l.wire[k].socket)
          && l.wire[k].text == l.sent[l.handed[k]])
  }

  // The queue holds the newest messages queued since it was last emptied, and
  // nothing while the connection is open and its current socket is.
  ghost predicate QueueAgrees(c: ConnState) {
    var l := c.log;
    && QueueTexts(l, c.pendingSends)
    && l.queue == RingBuffer.Newest(l.closedSince, MAX_PENDING_SENDS)
    && (c.isOpen && c.ws.Some? && c.net.IsOpen(c.ws.value) ==> l.queue == [])
    && Numbered(c)
  }

  ghost predicate QueueTexts(l: Log, pendingSends: seq<string>) {
    && |pendingSends| == |l.queue|
    && (forall i :: 0 <= i < |l.queue| ==> l.queue[i] < |l.sent| && pendingSends[i] == l.sent[l.queue[i]])
  }

  // Only sockets that were made have had events.
  ghost predicate Numbered(c: ConnState) {
    && (c.ws.Some? ==> c.ws.value < c.net.sockets)
    && (forall s :: s in c.net.hadOpen ==> s < c.net.sockets)
    && (forall s :: s in c.net.hadError ==> s < c.net.sockets)
    && (forall s :: s in c.net.hadClose ==> s < c.net.sockets)
  }

  ghost predicate Conserved(c: ConnState) {
    Bookkeeping(c.log) && WireAgrees(c.log) && QueueAgrees(c)
  }

  lemma LogDirectKeeps(l: Log, text: string, socket: nat)
    requires Bookkeeping(l) && WireAgrees(l)
    ensures Bookkeeping(LogDirect(l, text, socket)) && WireAgrees(LogDirect(l, text, socket))
  {
    var m := LogDirect(l, text, socket);
    assert forall id: nat :: id in m.handed <==> id in l.handed || id == |l.sent|;
    assert forall k :: 0 <= k < |l.handed| ==> l.handed[k] in l.handed;
  }

  lemma LogEnqueueKeeps(l: Log, text: string)
    requires Bookkeeping(l) && WireAgrees(l)
    ensures Bookkeeping(LogEnqueue(l, text)) && WireAgrees(LogEnqueue(l, text))
  {
    var m := LogEnqueue(l, text);
    assert forall id: nat :: id in m.queue <==> id in l.queue || id == |l.sent|;
    assert forall i :: 0 <= i < |l.queue| ==> l.queue[i] in l.queue;
    assert forall k :: 0 <= k < |l.handed| ==> l.handed[k] in l.handed;
  }

  lemma LogDropKeeps(l: Log)
    requires Bookkeeping(l) && WireAgrees(l)
    ensures Bookkeeping(LogDropOldest(l)) && WireAgrees(LogDropOldest(l))
  {
    if l.queue != [] {
      assert l.queue[0] in l.queue && l.queue == [l.queue[0]] + l.queue[1..];
      assert forall id: nat :: id in l.queue[1..] <==> id in l.queue && id != l.queue[0];
      assert forall k :: 0 <= k < |l.handed| ==> l.handed[k] in l.handed;
    }
  }

  lemma LogLossKeeps(l: Log, text: string)
    requires Bookkeeping(l) && WireAgrees(l)
    ensures Bookkeeping(LogRefuse(l, text)) && WireAgrees(LogRefuse(l, text))
    ensures Bookkeeping(LogDiscard(l)) && WireAgrees(LogDiscard(l))
  {
    assert forall k :: 0 <= k < |l.handed| ==> l.handed[k] in l.handed;
  }

  lemma LogFlushKeeps(l: Log, texts: seq<string>, socket: nat)
    requires Bookkeeping(l) && WireAgrees(l) && QueueTexts(l, texts)
    ensures Bookkeeping(LogFlush(l, texts, socket)) && WireAgrees(LogFlush(l, texts, socket))
  {
    var m := LogFlush(l, texts, socket);
    FlushBooks(l, texts, socket);
    forall k | 0 <= k < |m.handed| ensures
      && m.handed[k] < |m.fate| == |m.sent| && m.fate[m.handed[k]] == Handed(m.wire[k].socket)
      && m.wire[k].text == m.sent[m.handed[k]]
    {
      assert m.handed[k] in m.handed;
      if k < |l.handed| {
        assert l.handed[k] in l.handed && l.handed[k] !in l.queue;
      } else {
        assert m.handed[k] == l.queue[k - |l.handed|] && l.queue[k - |l.handed|] in l.queue;
      }
    }
  }

  lemma FlushBooks(l: Log, texts: seq<string>, socket: nat)
    requires Bookkeeping(l)
    ensures Bookkeeping(LogFlush(l, texts, socket))
  {
    var m := LogFlush(l, texts, socket);
    assert forall id: nat :: id in m.handed <==> id in l.handed || id in l.queue;
    assert forall i :: 0 <= i < |l.handed| ==> l.handed[i] in l.handed;
    assert forall j :: 0 <= j < |l.queue| ==> l.queue[j] in l.queue;
    assert forall id: nat :: id in l.queue ==> id < |l.fate|;
  }

  lemma QueuedSend(c: ConnState, text: string)
    requires Conserved(c) && !(c.isOpen && c.ws.Some?)
    ensures Conserved(OnSend(c, text))
  {
    hide Bookkeeping, WireAgrees;
    var l := LogEnqueue(c.log, text);
    LogEnqueueKeeps(c.log, text);
    RingBuffer.NewestStep(c.log.closedSince, |c.log.sent|, MAX_PENDING_SENDS);
    if |l.queue| > MAX_PENDING_SENDS {
      LogDropKeeps(l);
      assert l.queue[0] < |l.fate| by { QueueInRange(l); }
      assert l.queue[1..] == RingBuffer.Newest(l.queue, MAX_PENDING_SENDS);
    } else {
      assert l.queue == RingBuffer.Newest(l.queue, MAX_PENDING_SENDS);
    }
  }

  lemma QueueInRange(l: Log)
    requires Bookkeeping(l)
    ensures |l.fate| == |l.sent|
    ensures forall i :: 0 <= i < |l.queue| ==> l.queue[i] < |l.fate| && l.fate[l.queue[i]].Queued?
  {
    assert forall i :: 0 <= i < |l.queue| ==> l.queue[i] in l.queue;
  }

  lemma ConservedStep(c: ConnState, cfg: RetryCfg, e: Event)
    requires Conserved(c)
    ensures Conserved(Step(c, cfg, e))
  {
    hide Bookkeeping, WireAgrees, LogFlush, LogDirect, LogRefuse, LogEnqueue, LogDropOldest, LogDiscard;
    match e
    case Send(text) =>
      if c.isOpen && c.ws.Some? {
        LogDirectKeeps(c.log, text, c.ws.value);
        LogLossKeeps(c.log, text);
        QueueAfter(c.log, text, c.pendingSends, c.ws.value);
      } else {
        QueuedSend(c, text);
      }
    case SocketOpens(s) =>
      if s < c.net.sockets && c.ws.Some? {
        LogFlushKeeps(c.log, c.pendingSends, c.ws.value);
        QueueAfter(c.log, "", c.pendingSends, c.ws.value);
      }
    case Close =>
      LogLossKeeps(c.log, "");
      QueueAfter(c.log, "", c.pendingSends, 0);
    case _ =>
  }

  lemma QueueAfter(l: Log, text: string, texts: seq<string>, socket: nat)
    ensures LogDirect(l, text, socket).queue == LogRefuse(l, text).queue == l.queue
    ensures LogDirect(l, text, socket).closedSince == LogRefuse(l, text).closedSince == l.closedSince
    ensures l.sent <= LogDirect(l, text, socket).sent == LogRefuse(l, text).sent
    ensures LogFlush(l, texts, socket).queue == LogFlush(l, texts, socket).closedSince == []
    ensures LogDiscard(l).queue == LogDiscard(l).closedSince == []
  {
  }

  // In every run, whatever the sockets do and also after close(): every message
  // sent has exactly one fate; those handed over went out once and with their own
  // text; the queue is the newest MAX_PENDING_SENDS queued since it was last
  // emptied, in order, and is empty while the current socket is open.
  lemma {:induction false} ConservedRun(c: ConnState, cfg: RetryCfg, events: seq<Event>)
    requires Conserved(c)
    ensures Conserved(Run(c, cfg, events))
    decreases |events|
  {
    hide Conserved, Step;
    if events != [] {
      ConservedStep(c, cfg, events[0]);
      ConservedRun(Step(c, cfg, events[0]), cfg, events[1..]);
    }
  }

  lemma SendConservation(cfg: RetryCfg, events: seq<Event>)
    ensures Conserved(Run(INITIAL, cfg, events))
  {
    ConservedRun(INITIAL, cfg, events);
  }

  // How a message is lost: to overflow, exactly when it is the oldest of a full
  // queue and another is sent while closed; to close(), exactly when it is queued
  // then; and to a throw, exactly when it is sent while isOpen is true and the
  // current socket is still connecting. A fate other than queued is final.
  lemma LossExactly(c: ConnState, cfg: RetryCfg, e: Event, id: nat)
    requires Conserved(c) && id < |Step(c, cfg, e).log.fate|
    ensures |c.log.fate| <= |Step(c, cfg, e).log.fate| <= |c.log.fate| + 1
    ensures
      var was := if id < |c.log.fate| then c.log.fate[id] else Queued;
      var now := Step(c, cfg, e).log.fate[id];
      && (!was.Queued? ==> now == was)
      && (now.Dropped? && was.Queued? <==>
            e.Send? && !(c.isOpen && c.ws.Some?) && |c.pendingSends| == MAX_PENDING_SENDS && id == c.log.queue[0])
      && (now.Discarded? && was.Queued? <==> e.Close? && was.Queued?)
      && (now.Refused? && was.Queued? <==> e.Send? && c.isOpen && c.Refuses() && id == |c.log.fate|)
  {
    QueueInRange(c.log);
    assert id in c.log.queue <==> id < |c.log.fate| && c.log.fate[id].Queued?;
    hide Bookkeeping, WireAgrees, Numbered;
    match e
    case Send(text) => SendFate(c, text, id);
    case _ =>
  }

  lemma SendFate(c: ConnState, text: string, id: nat)
    requires Conserved(c) && id < |OnSend(c, text).log.fate|
    ensures |OnSend(c, text).log.fate| == |c.log.fate| + 1
    ensures
      var now := OnSend(c, text).log.fate[id];
      if id == |c.log.fate| then
        now == if !(c.isOpen && c.ws.Some?) then Queued
               else if c.Refuses() then Refused else Handed(c.ws.value)
      else if !(c.isOpen && c.ws.Some?) && |c.pendingSends| == MAX_PENDING_SENDS && id == c.log.queue[0] then now == Dropped
      else now == c.log.fate[id]
    ensures |c.pendingSends| == MAX_PENDING_SENDS ==> c.log.queue[0] < |c.log.fate| && c.log.fate[c.log.queue[0]].Queued?
  {
    QueueInRange(c.log);
    hide Bookkeeping, WireAgrees, Numbered;
    if !(c.isOpen && c.ws.Some?) && |c.pendingSends| == MAX_PENDING_SENDS {
      assert LogEnqueue(c.log, text).queue[0] == c.log.queue[0];
    }
  }

  // An open event leaves messages in the queue exactly when there is no current
  // socket (after close()), or when it is another one that is still connecting:
  // then the first ws.send throws.
  lemma FlushRefusedExactly(c: ConnState, cfg: RetryCfg, s: nat)
    requires Conserved(c) && s < c.net.sockets
    ensures
      var d := Step(c, cfg, SocketOpens(s));
      && (d.pendingSends != [] <==> c.pendingSends != [] && (c.ws.None? || (c.ws != Some(s) && c.Refuses())))
      && (d.pendingSends != [] ==> d.isOpen && d.pendingSends == c.pendingSends && d.log == c.log)
  {
    hide Bookkeeping, WireAgrees;
  }

  // ------------------------------------------------------------------
  // The order of the hand-offs
  // ------------------------------------------------------------------

  // Hand-offs are in the order of the sends, before everything queued.
  ghost predicate InOrder(l: Log) {
    && Increasing(l.handed)
    && (forall i, j :: 0 <= i < |l.handed| && 0 <= j < |l.queue| ==> l.handed[i] < l.queue[j])
  }

  // A message is handed over while older ones are queued.
  predicate Overtakes(c: ConnState, e: Event) {
    e.Send? && c.isOpen && c.ws.Some? && !c.Refuses() && c.log.queue != []
  }

  // Exactly that breaks the order.
  lemma OrderExactly(c: ConnState, cfg: RetryCfg, e: Event)
    requires Conserved(c) && InOrder(c.log)
    ensures InOrder(Step(c, cfg, e).log) <==> !Overtakes(c, e)
  {
    hide WireAgrees, Numbered, Bookkeeping, InOrder, LogFlush, LogDirect, LogRefuse, LogEnqueue, LogDropOldest, LogDiscard;
    match e
    case Send(text) =>
      if c.isOpen && c.ws.Some? {
        DirectOrder(c.log, text, c.ws.value);
        assert InOrder(LogRefuse(c.log, text)) by { QueuedOrder(c.log, text); }
      } else {
        QueuedOrder(c.log, text);
      }
    case SocketOpens(s) =>
      if c.ws.Some? {
        assert InOrder(LogFlush(c.log, c.pendingSends, c.ws.value)) by { EmptiedOrder(c.log, c.pendingSends, c.ws.value); }
      }
    case Close => EmptiedOrder(c.log, c.pendingSends, 0);
    case _ =>
  }

  lemma DirectOrder(l: Log, text: string, socket: nat)
    requires Bookkeeping(l) && InOrder(l)
    ensures InOrder(LogDirect(l, text, socket)) <==> l.queue == []
  {
    QueueInRange(l);
    HandedInRange(l);
    var m := LogDirect(l, text, socket);
    if l.queue != [] {
      assert m.handed[|l.handed|] == |l.sent| > m.queue[0];
    }
  }

  lemma QueuedOrder(l: Log, text: string)
    requires Bookkeeping(l) && InOrder(l)
    ensures InOrder(LogRefuse(l, text)) && InOrder(LogEnqueue(l, text)) && InOrder(LogDropOldest(LogEnqueue(l, text)))
  {
    HandedInRange(l);
  }

  lemma EmptiedOrder(l: Log, texts: seq<string>, socket: nat)
    requires Bookkeeping(l) && InOrder(l)
    ensures InOrder(LogFlush(l, texts, socket)) && InOrder(LogDiscard(l))
  {
  }

  lemma HandedInRange(l: Log)
    requires Bookkeeping(l)
    ensures forall i :: 0 <= i < |l.handed| ==> l.handed[i] < |l.fate|
  {
    assert forall i :: 0 <= i < |l.handed| ==> l.handed[i] in l.handed;
  }

  // It takes a current socket that failed without a close event.
  lemma OvertakenByFailure(c: ConnState, e: Event)
    requires Conserved(c) && Overtakes(c, e)
    ensures !c.net.IsOpen(c.ws.value) && !c.net.Connecting(c.ws.value)
  {
    hide Bookkeeping, WireAgrees;
  }

  predicate NoOvertaking(c: ConnState, cfg: RetryCfg, events: seq<Event>)
    decreases |events|
  {
    events == [] || (!Overtakes(c, events[0]) && NoOvertaking(Step(c, cfg, events[0]), cfg, events[1..]))
  }

  lemma {:induction false} OrderRun(c: ConnState, cfg: RetryCfg, events: seq<Event>)
    requires Conserved(c) && InOrder(c.log) && NoOvertaking(c, cfg, events)
    ensures InOrder(Run(c, cfg, events).log)
    decreases |events|
  {
    hide Conserved, InOrder, Overtakes, Step;
    if events != [] {
      ConservedStep(c, cfg, events[0]);
      OrderExactly(c, cfg, events[0]);
      OrderRun(Step(c, cfg, events[0]), cfg, events[1..]);
    }
  }

  // ------------------------------------------------------------------
  // Sends while another socket is current
  // ------------------------------------------------------------------

  // isOpen is about the current socket.
  predicate TargetsOpenSocket(c: ConnState) {
    c.isOpen ==> c.ws.Some? && c.net.IsOpen(c.ws.value)
  }

  // It stops being so exactly when a new socket is installed over an open
  // connection (an error schedules a reconnect without closing), or when another
  // socket than an open current one opens, or a closed one does.
  lemma MissesOpenSocketExactly(c: ConnState, cfg: RetryCfg, e: Event)
    requires TargetsOpenSocket(c) && Numbered(c)
    ensures TargetsOpenSocket(Step(c, cfg, e)) <==>
      && !(e.UrlReady? && c.net.urlsPending > 0 && c.isOpen)
      && !(e.SocketOpens? && e.socket < c.net.sockets
           && (c.ws.None? || c.ws.value in c.net.hadClose || (c.ws.value != e.socket && c.ws.value !in c.net.hadOpen)))
  {
  }

  // It happens: an error on the open socket 0 leads to socket 1, and the next
  // message is refused, because socket 1 has not opened.
  lemma RefusedBeforeOpen()
    ensures
      var cfg := RetryCfg(true, Infinite);
      var c := Run(INITIAL, cfg, [UrlReady, SocketOpens(0), SocketErrors(0), TimerFires(0), UrlReady, Send("m")]);
      c.log.fate == [Refused] && c.isOpen && c.pendingSends == []
  {
    var cfg := RetryCfg(true, Infinite);
    var c2 := Step(Step(INITIAL, cfg, UrlReady), cfg, SocketOpens(0));
    assert c2.isOpen && c2.ws == Some(0) && c2.net.sockets == 1 && c2.net.urlsPending == 0 && c2.net.hadOpen == {0};
    var c4 := Step(Step(c2, cfg, SocketErrors(0)), cfg, TimerFires(0));
    assert c4.isOpen && c4.net.urlsPending == 1 && c4.net.sockets == 1 && c4.log.fate == [];
    var c6 := Step(Step(c4, cfg, UrlReady), cfg, Send("m"));
    assert c6.log.fate == [] + [Refused];
    RunOfSix(INITIAL, cfg, UrlReady, SocketOpens(0), SocketErrors(0), TimerFires(0), UrlReady, Send("m"));
  }

  lemma RunOfSix(c: ConnState, cfg: RetryCfg, e0: Event, e1: Event, e2: Event, e3: Event, e4: Event, e5: Event)
    ensures Run(c, cfg, [e0, e1, e2, e3, e4, e5])
         == Step(Step(Step(Step(Step(Step(c, cfg, e0), cfg, e1), cfg, e2), cfg, e3), cfg, e4), cfg, e5)
  {
    hide Step;
    var c1 := Step(c, cfg, e0);
    var c2 := Step(c1, cfg, e1);
    var c3 := Step(c2, cfg, e2);
    var c4 := Step(c3, cfg, e3);
    var c5 := Step(c4, cfg, e4);
    assert [e0, e1, e2, e3, e4, e5][1..] == [e1, e2, e3, e4, e5];
    assert [e1, e2, e3, e4, e5][1..] == [e2, e3, e4, e5];
    assert [e2, e3, e4, e5][1..] == [e3, e4, e5];
    assert [e3, e4, e5][1..] == [e4, e5];
    assert [e4, e5][1..] == [e5];
    assert Run(c5, cfg, [e5]) == Step(c5, cfg, e5);
    assert Run(c4, cfg, [e4, e5]) == Run(c5, cfg, [e5]);
    assert Run(c3, cfg, [e3, e4, e5]) == Run(c4, cfg, [e4, e5]);
    assert Run(c2, cfg, [e2, e3, e4, e5]) == Run(c3, cfg, [e3, e4, e5]);
    assert Run(c1, cfg, [e1, e2, e3, e4, e5]) == Run(c2, cfg, [e2, e3, e4, e5]);
  }

  // ------------------------------------------------------------------
  // Reconnects
  // ------------------------------------------------------------------

  // The limit on retries, none when it is negative.
  function Retries(cfg: RetryCfg): nat
    requires cfg.maxRetries.Finite?
  {
    if cfg.maxRetries.n < 0 then 0 else cfg.maxRetries.n
  }

  // The running timers are exactly the one in the variable, so never two; each
  // attempt but the first used up a scheduled reconnect; and after close() no
  // timer runs.
  ghost predicate Timers(c: ConnState) {
    && c.net.liveTimers == (if c.reconnectTimer.Some? then {c.reconnectTimer.value} else {})
    && (forall t :: t in c.net.liveTimers ==> t < c.net.timersMade)
    && c.net.attempts + |c.net.liveTimers| <= 1 + c.net.schedules
    && (c.closedByUser ==> c.net.liveTimers == {})
  }

  ghost predicate WithinRetries(c: ConnState, cfg: RetryCfg) {
    cfg.maxRetries.Finite? ==>
      && c.reconnectAttempts <= Retries(cfg)
      && c.net.schedules <= c.net.opens * Retries(cfg) + c.reconnectAttempts
  }

  lemma ScheduleKeeps(c: ConnState, cfg: RetryCfg)
    requires Timers(c) && WithinRetries(c, cfg)
    ensures Timers(ScheduleReconnect(c, cfg)) && WithinRetries(ScheduleReconnect(c, cfg), cfg)
  {
  }

  lemma RetryStep(c: ConnState, cfg: RetryCfg, e: Event)
    requires Timers(c) && WithinRetries(c, cfg)
    ensures Timers(Step(c, cfg, e)) && WithinRetries(Step(c, cfg, e), cfg)
  {
    hide ScheduleReconnect;
    match e
    case UrlFails =>
      if c.net.urlsPending > 0 {
        ScheduleKeeps(c.(net := c.net.(urlsPending := c.net.urlsPending - 1)), cfg);
      }
    case SocketCloses(s) =>
      ScheduleKeeps(c.(isOpen := false, net := c.net.(hadClose := c.net.hadClose + {s})), cfg);
    case SocketErrors(s) =>
      ScheduleKeeps(c.(net := c.net.(hadError := c.net.hadError + {s})), cfg);
    case SocketOpens(s) =>
      if cfg.maxRetries.Finite? {
        var k := Retries(cfg);
        assert (c.net.opens + 1) * k == c.net.opens * k + k;
      }
    case _ =>
  }

  lemma {:induction false} TimersRun(c: ConnState, cfg: RetryCfg, events: seq<Event>)
    requires Timers(c) && WithinRetries(c, cfg)
    ensures Timers(Run(c, cfg, events)) && WithinRetries(Run(c, cfg, events), cfg)
    decreases |events|
  {
    hide Step, Timers, WithinRetries;
    if events != [] {
      RetryStep(c, cfg, events[0]);
      TimersRun(Step(c, cfg, events[0]), cfg, events[1..]);
    }
  }

  // For any order of close, error and stale-socket events: never two reconnect
  // timers, and with k opens at most 1 + (k + 1) * maxRetries attempts.
  lemma ReconnectBound(cfg: RetryCfg, events: seq<Event>)
    ensures
      var c := Run(INITIAL, cfg, events);
      && |c.net.liveTimers| <= 1
      && (cfg.maxRetries.Finite? ==> c.net.attempts <= 1 + (c.net.opens + 1) * Retries(cfg))
  {
    TimersRun(INITIAL, cfg, events);
    hide Run;
    var c := Run(INITIAL, cfg, events);
    if cfg.maxRetries.Finite? {
      var k := Retries(cfg);
      assert (c.net.opens + 1) * k == c.net.opens * k + k;
    }
  }

  lemma ClosedStep(c: ConnState, cfg: RetryCfg, e: Event)
    requires c.closedByUser && c.net.liveTimers == {}
    ensures
      var d := Step(c, cfg, e);
      && d.closedByUser && d.net.liveTimers == {}
      && d.net.attempts == c.net.attempts
      && d.net.sockets + d.net.urlsPending <= c.net.sockets + c.net.urlsPending
  {
  }

  // After close() no attempt begins.
  lemma {:induction false} NoAttemptAfterClose(c: ConnState, cfg: RetryCfg, events: seq<Event>)
    requires c.closedByUser && c.net.liveTimers == {}
    ensures Run(c, cfg, events).net.attempts == c.net.attempts && Run(c, cfg, events).net.liveTimers == {}
    ensures Run(c, cfg, events).net.sockets + Run(c, cfg, events).net.urlsPending <= c.net.sockets + c.net.urlsPending
    decreases |events|
  {
    hide Step;
    if events != [] {
      ClosedStep(c, cfg, events[0]);
      NoAttemptAfterClose(Step(c, cfg, events[0]), cfg, events[1..]);
    }
  }

  // After close(), called at any moment of any run, no attempt begins, for any
  // order of later events.
  lemma CloseEnds(cfg: RetryCfg, before: seq<Event>, after: seq<Event>)
    ensures
      var c := Run(INITIAL, cfg, before);
      var d := Run(OnClose(c), cfg, after);
      && d.net.attempts == c.net.attempts && d.net.liveTimers == {}
      && d.net.sockets <= c.net.sockets + c.net.urlsPending
  {
    TimersRun(INITIAL, cfg, before);
    var c := Run(INITIAL, cfg, before);
    assert OnClose(c).net.liveTimers == {} && OnClose(c).closedByUser by {
      hide Run;
    }
    hide Run, OnClose;
    NoAttemptAfterClose(OnClose(c), cfg, after);
    CloseKeepsNet(c);
  }

  lemma CloseKeepsNet(c: ConnState)
    ensures OnClose(c).net == c.net.(liveTimers := OnClose(c).net.liveTimers)
  {
  }

  // A run from `c` that makes a socket.
  predicate MakesSocket(c: ConnState, cfg: RetryCfg, events: seq<Event>) {
    Run(c, cfg, events).net.sockets > c.net.sockets
  }

  // But connectNow does not look again after getUrl: after close() a socket can
  // still be made exactly when a getUrl call was in flight.
  lemma SocketAfterCloseExactly(c: ConnState, cfg: RetryCfg)
    requires Timers(c)
    ensures (exists events :: MakesSocket(OnClose(c), cfg, events)) <==> c.net.urlsPending > 0
  {
    var d := OnClose(c);
    forall events | MakesSocket(d, cfg, events) ensures c.net.urlsPending > 0 {
      NoAttemptAfterClose(d, cfg, events);
    }
    if c.net.urlsPending > 0 {
      assert [UrlReady][1..] == [];
      assert Run(d, cfg, [UrlReady]) == Step(d, cfg, UrlReady);
      assert MakesSocket(d, cfg, [UrlReady]);
    }
  }

  // ------------------------------------------------------------------
  // Sockets that behave as the WebSocket standard says
  // ------------------------------------------------------------------

  // A socket opens only while connecting, an error is followed at once by the
  // socket's close, and nothing follows a close.
  predicate Standard(c: ConnState, cfg: RetryCfg, events: seq<Event>)
    decreases |events|
  {
    if events == [] then true
    else match events[0]
      case SocketOpens(s) => c.net.Connecting(s) && Standard(Step(c, cfg, events[0]), cfg, events[1..])
      case SocketErrors(s) =>
        && s !in c.net.hadClose && |events| > 1 && events[1] == SocketCloses(s)
        && Standard(Step(Step(c, cfg, events[0]), cfg, events[1]), cfg, events[2..])
      case SocketCloses(s) => s !in c.net.hadClose && Standard(Step(c, cfg, events[0]), cfg, events[1..])
      case _ => Standard(Step(c, cfg, events[0]), cfg, events[1..])
  }

  // Then the newest socket is the current one, all others are closed, and there
  // is one way forward at most: that socket, a getUrl call or a timer.
  ghost predicate OneAtATime(c: ConnState) {
    && !c.closedByUser
    && (c.ws == if c.net.sockets == 0 then None else Some(c.net.sockets - 1))
    && (forall s: nat :: s + 1 < c.net.sockets ==> s in c.net.hadClose)
    && (c.isOpen <==> c.net.sockets > 0 && c.net.IsOpen(c.net.sockets - 1))
    && c.net.urlsPending + |c.net.liveTimers| + (if Live(c) then 1 else 0) <= 1
    && c.net.hadError <= c.net.hadClose
  }

  predicate Live(c: ConnState) {
    c.net.sockets > 0 && c.net.sockets - 1 !in c.net.hadClose
  }

  // Nothing was refused, and the queue is empty while open.
  ghost predicate Delivered(c: ConnState) {
    && (forall i :: 0 <= i < |c.log.fate| ==> !c.log.fate[i].Refused?)
    && (c.isOpen ==> c.pendingSends == [])
    && InOrder(c.log)
  }

  lemma DeliveredStep(c: ConnState, cfg: RetryCfg, e: Event)
    requires Conserved(c) && Delivered(c) && (c.isOpen ==> c.ws.Some? && !c.Refuses()) && !e.Close?
    requires e.SocketOpens? && e.socket < c.net.sockets ==> c.ws == Some(e.socket)
    ensures Delivered(Step(c, cfg, e))
  {
    var d := Step(c, cfg, e);
    assert c.isOpen ==> c.log.queue == [];
    OrderExactly(c, cfg, e);
    forall id | 0 <= id < |d.log.fate| ensures !d.log.fate[id].Refused? {
      LossExactly(c, cfg, e, id);
    }
    if e.SocketOpens? && e.socket < c.net.sockets {
      FlushRefusedExactly(c, cfg, e.socket);
    }
    hide InOrder, Conserved;
  }

  lemma OneAtATimeOpen(c: ConnState, cfg: RetryCfg, s: nat)
    requires OneAtATime(c) && Numbered(c) && c.net.Connecting(s)
    ensures OneAtATime(Step(c, cfg, SocketOpens(s))) && (s < c.net.sockets ==> c.ws == Some(s))
  {
    hide LogFlush, FlushPendingSends;
    QueueFrame(c.(isOpen := true, reconnectAttempts := 0,
      net := c.net.(hadOpen := c.net.hadOpen + {s}, opens := c.net.opens + 1)), "");
  }

  lemma OneAtATimeClose(c: ConnState, cfg: RetryCfg, s: nat)
    requires OneAtATime(c) && Timers(c) && Numbered(c) && s !in c.net.hadClose
    ensures OneAtATime(Step(c, cfg, SocketCloses(s)))
  {
    hide ScheduleReconnect;
    if s < c.net.sockets {
      assert s == c.net.sockets - 1;
      ScheduleOne(c.(isOpen := false, net := c.net.(hadClose := c.net.hadClose + {s})), cfg);
    }
  }

  lemma OneAtATimeStep(c: ConnState, cfg: RetryCfg, e: Event)
    requires OneAtATime(c) && Timers(c) && Numbered(c) && !e.Close? && !e.SocketErrors?
    requires e.SocketOpens? ==> c.net.Connecting(e.socket)
    requires e.SocketCloses? ==> e.socket !in c.net.hadClose
    ensures OneAtATime(Step(c, cfg, e))
    ensures e.SocketOpens? && e.socket < c.net.sockets ==> c.ws == Some(e.socket)
  {
    hide LogFlush, LogDirect, LogRefuse, LogEnqueue, LogDropOldest, FlushPendingSends, OnSend, ScheduleReconnect;
    match e
    case Send(text) => QueueFrame(c, text);
    case UrlFails =>
      if c.net.urlsPending > 0 {
        ScheduleOne(c.(net := c.net.(urlsPending := c.net.urlsPending - 1)), cfg);
      }
    case SocketCloses(s) => OneAtATimeClose(c, cfg, s);
    case SocketOpens(s) => OneAtATimeOpen(c, cfg, s);
    case _ =>
  }

  lemma ScheduleOne(c: ConnState, cfg: RetryCfg)
    requires OneAtATime(c) && Timers(c) && c.net.urlsPending == 0 && !Live(c)
    ensures OneAtATime(ScheduleReconnect(c, cfg))
  {
  }

  // Sending and flushing touch the queue and the history alone.
  lemma QueueFrame(c: ConnState, text: string)
    ensures OnSend(c, text) == c.(pendingSends := OnSend(c, text).pendingSends, log := OnSend(c, text).log)
    ensures FlushPendingSends(c) == c.(pendingSends := FlushPendingSends(c).pendingSends, log := FlushPendingSends(c).log)
  {
  }

  // An error and its close are one close.
  lemma FailureIsClose(c: ConnState, cfg: RetryCfg, s: nat)
    requires s < c.net.sockets
    ensures
      var failed := c.(isOpen := false, net := c.net.(hadError := c.net.hadError + {s}, hadClose := c.net.hadClose + {s}));
      Step(Step(c, cfg, SocketErrors(s)), cfg, SocketCloses(s)) == ScheduleReconnect(failed, cfg)
  {
  }

  lemma OneAtATimeFailure(c: ConnState, cfg: RetryCfg, s: nat)
    requires OneAtATime(c) && Timers(c) && Numbered(c) && s !in c.net.hadClose
    ensures OneAtATime(Step(Step(c, cfg, SocketErrors(s)), cfg, SocketCloses(s)))
  {
    hide ScheduleReconnect;
    if s < c.net.sockets {
      assert s == c.net.sockets - 1;
      FailureIsClose(c, cfg, s);
      hide Step;
      ScheduleOne(c.(isOpen := false, net := c.net.(hadError := c.net.hadError + {s}, hadClose := c.net.hadClose + {s})), cfg);
    }
  }

  lemma OpenMeansCurrent(c: ConnState)
    requires OneAtATime(c)
    ensures TargetsOpenSocket(c) && (c.isOpen ==> c.ws.Some? && !c.Refuses())
  {
  }

  // With such sockets, before close(), no send is ever refused, every message is
  // handed over in the order of the sends, the queue is empty whenever the
  // connection is open, and isOpen is about the current socket.
  lemma {:induction false} StandardRun(c: ConnState, cfg: RetryCfg, events: seq<Event>)
    requires OneAtATime(c) && Delivered(c) && Conserved(c) && Timers(c) && WithinRetries(c, cfg)
    requires Standard(c, cfg, events) && forall i :: 0 <= i < |events| ==> !events[i].Close?
    ensures Delivered(Run(c, cfg, events)) && TargetsOpenSocket(Run(c, cfg, events))
    decreases |events|
  {
    OpenMeansCurrent(c);
    assert Numbered(c);
    hide Numbered, Step, OneAtATime, Delivered, Conserved, Timers, WithinRetries, TargetsOpenSocket;
    if events != [] {
      var e := events[0];
      var d := Step(c, cfg, e);
      ConservedStep(c, cfg, e);
      RetryStep(c, cfg, e);
      if e.SocketErrors? {
        var f := Step(d, cfg, events[1]);
        OneAtATimeFailure(c, cfg, e.socket);
        FailureDelivers(c, cfg, e.socket);
        ConservedStep(d, cfg, events[1]);
        RetryStep(d, cfg, events[1]);
        assert events[1..][1..] == events[2..];
        StandardRun(f, cfg, events[2..]);
      } else {
        OneAtATimeStep(c, cfg, e);
        DeliveredStep(c, cfg, e);
        StandardRun(d, cfg, events[1..]);
      }
    }
  }

  lemma FailureDelivers(c: ConnState, cfg: RetryCfg, s: nat)
    requires Delivered(c)
    ensures Delivered(Step(Step(c, cfg, SocketErrors(s)), cfg, SocketCloses(s)))
  {
    hide InOrder;
  }

  lemma StandardFromStart(cfg: RetryCfg, events: seq<Event>)
    requires Standard(INITIAL, cfg, events) && forall i :: 0 <= i < |events| ==> !events[i].Close?
    ensures
      var c := Run(INITIAL, cfg, events);
      && Delivered(c) && TargetsOpenSocket(c)
  {
    StandardRun(INITIAL, cfg, events);
  }
}
