/** The rounds of the websocket loop: what one round does in every state of the session,
    how the queue drains, and how a device signs on. */
module LampSession {
  import opened Options
  import opened MachineIntegers
  import opened LampModel
  import opened LampRuns

  // ----- one round -----

  // What one call of the loop observes from outside.
  datatype Call = Call(network: bool, tick: int)

  function Calls(w: Socket, calls: seq<Call>): Socket
    decreases |calls|
  {
    if calls == [] then w else Calls(TaskStep(w, calls[0].network, calls[0].tick), calls[1..])
  }

  // How many calls a round makes until one of them fails or the last one is done.
  function RoundLength(w: Socket, network: bool): nat {
    if !network || !w.connected then 1 else if !w.registered then 2 else if !w.logged then 3 else 4
  }

  // The calls of one round, beginning with the one that looks at the network.
  predicate IsRound(w: Socket, calls: seq<Call>) {
    calls != [] && |calls| == RoundLength(w, calls[0].network)
  }

  predicate MayRequest(last: int, tick: int) {
    tick >= S32(last + 30000)
  }

  // What a round hands to the client: the order to start, one request, or the oldest report.
  function RoundSends(w: Socket, calls: seq<Call>): seq<Item>
    requires IsRound(w, calls)
  {
    if !calls[0].network then []
    else if !w.connected then (if w.started then [] else [StartItem])
    else if !w.registered then (if MayRequest(w.loop.lastRegister, calls[1].tick) then [RegisterItem(calls[1].tick)] else [])
    else if !w.logged then (if MayRequest(w.loop.lastLogin, calls[2].tick) then [LoginItem(calls[2].tick)] else [])
    else if w.outbox.queue == [] then []
    else [w.outbox.queue[0]]
  }

  function LoopAfter(w: Socket, calls: seq<Call>): Loop
    requires IsRound(w, calls)
  {
    var sends := RoundSends(w, calls);
    Loop(AtPrepare, false, false,
         if sends != [] && sends[0].RegisterItem? then S32(calls[1].tick) else w.loop.lastRegister,
         if sends != [] && sends[0].LoginItem? then S32(calls[2].tick) else w.loop.lastLogin)
  }

  predicate AtStart(w: Socket) {
    w.loop.pc == AtPrepare && !w.loop.sawConnected && !w.loop.sawLogged
  }

  lemma OneCall(w: Socket, calls: seq<Call>)
    requires calls != []
    ensures Calls(w, calls) == Calls(TaskStep(w, calls[0].network, calls[0].tick), calls[1..])
    ensures Calls(w, []) == w
  {
  }

  // Without the network or a connection a round is one call, which starts the client once.
  lemma OfflineRound(w: Socket, calls: seq<Call>)
    requires AtStart(w) && IsRound(w, calls) && (!calls[0].network || !w.connected)
    ensures Calls(w, calls) ==
            w.(loop := LoopAfter(w, calls), started := w.started || calls[0].network,
               outbox := w.outbox.(sent := w.outbox.sent + RoundSends(w, calls)))
  {
    OneCall(w, calls);
    assert calls[1..] == [];
    assert w.outbox.sent + [] == w.outbox.sent;
  }

  lemma Prepared(w: Socket, calls: seq<Call>)
    requires AtStart(w) && IsRound(w, calls) && calls[0].network && w.connected
    ensures Calls(w, calls) == Calls(w.(loop := w.loop.(pc := AtRegister, sawConnected := true)), calls[1..])
  {
  }

  lemma RegisterRound(w: Socket, calls: seq<Call>)
    requires AtStart(w) && IsRound(w, calls) && calls[0].network && w.connected && !w.registered
    ensures Calls(w, calls) ==
            w.(loop := LoopAfter(w, calls), outbox := w.outbox.(sent := w.outbox.sent + RoundSends(w, calls)))
  {
    Prepared(w, calls);
    var v := w.(loop := w.loop.(pc := AtRegister, sawConnected := true));
    OneCall(v, calls[1..]);
    assert calls[1..][0] == calls[1] && calls[1..][1..] == [];
    assert w.outbox.sent + [] == w.outbox.sent;
  }

  lemma Registered(w: Socket, calls: seq<Call>)
    requires AtStart(w) && IsRound(w, calls) && calls[0].network && w.connected && w.registered
    ensures Calls(w, calls) == Calls(w.(loop := w.loop.(pc := AtLogin, sawConnected := true)), calls[2..])
  {
    Prepared(w, calls);
    OneCall(w.(loop := w.loop.(pc := AtRegister, sawConnected := true)), calls[1..]);
    assert calls[1..][1..] == calls[2..];
  }

  lemma LoginRound(w: Socket, calls: seq<Call>)
    requires AtStart(w) && IsRound(w, calls) && calls[0].network && w.connected && w.registered && !w.logged
    ensures Calls(w, calls) ==
            w.(loop := LoopAfter(w, calls), outbox := w.outbox.(sent := w.outbox.sent + RoundSends(w, calls)))
  {
    Registered(w, calls);
    var v := w.(loop := w.loop.(pc := AtLogin, sawConnected := true));
    OneCall(v, calls[2..]);
    assert calls[2..][0] == calls[2] && calls[2..][1..] == [];
    assert w.outbox.sent + [] == w.outbox.sent;
  }

  lemma SendRound(w: Socket, calls: seq<Call>)
    requires AtStart(w) && IsRound(w, calls) && calls[0].network && w.connected && w.registered && w.logged
    ensures Calls(w, calls) ==
            w.(loop := LoopAfter(w, calls),
               outbox := w.outbox.(sent := w.outbox.sent + RoundSends(w, calls),
                                   queue := if w.outbox.queue == [] then [] else w.outbox.queue[1..]))
  {
    Registered(w, calls);
    var v := w.(loop := w.loop.(pc := AtLogin, sawConnected := true));
    OneCall(v, calls[2..]);
    assert calls[2..][1..] == calls[3..];
    var u := v.(loop := v.loop.(pc := AtSend, sawLogged := true));
    OneCall(u, calls[3..]);
    assert calls[3..][1..] == [];
    assert w.outbox.sent + [] == w.outbox.sent;
  }

  // What a round leaves of the session.
  function RoundAfter(w: Socket, calls: seq<Call>): Socket
    requires IsRound(w, calls)
  {
    var sends := RoundSends(w, calls);
    w.(loop := LoopAfter(w, calls),
       started := w.started || (calls[0].network && !w.connected),
       outbox := w.outbox.(sent := w.outbox.sent + sends,
                           queue := if sends != [] && sends[0].IsReport() then w.outbox.queue[1..] else w.outbox.queue))
  }

  // One round in every state of the session and with any ticks: without the network
  // nothing; not connected the order to start, once; not registered or not logged in the
  // request, unless the timeout holds it back; and otherwise the oldest report.
  lemma EveryRound(w: Socket, calls: seq<Call>)
    requires AtStart(w) && IsRound(w, calls)
    ensures Calls(w, calls) == RoundAfter(w, calls) && AtStart(Calls(w, calls))
  {
    if !calls[0].network || !w.connected {
      OfflineRound(w, calls);
    } else if !w.registered {
      RegisterRound(w, calls);
    } else if !w.logged {
      LoginRound(w, calls);
    } else {
      SendRound(w, calls);
    }
  }

  // ----- rounds of a run -----

  function Events(calls: seq<Call>): seq<Event> {
    if calls == [] then [] else [SocketStep(calls[0].network, calls[0].tick)] + Events(calls[1..])
  }

  lemma {:induction false} RunOfCalls(s: Lamp, calls: seq<Call>)
    ensures Run(s, Events(calls)) == s.(socket := Calls(s.socket, calls))
    decreases |calls|
  {
    if calls != [] {
      var es := Events(calls);
      assert es[0] == SocketStep(calls[0].network, calls[0].tick) && es[1..] == Events(calls[1..]);
      RunOfCalls(Step(s, es[0]), calls[1..]);
    }
  }

  lemma {:induction false} CallsAppend(w: Socket, a: seq<Call>, b: seq<Call>)
    ensures Calls(w, a + b) == Calls(Calls(w, a), b)
    decreases |a|
  {
    if a == [] {
      assert a + b == b;
    } else {
      assert (a + b)[1..] == a[1..] + b;
      CallsAppend(TaskStep(w, a[0].network, a[0].tick), a[1..], b);
    }
  }

  // Four calls for each of the given ticks, with the network up.
  function SendCalls(ticks: seq<int>): seq<Call> {
    if ticks == [] then []
    else
      var c := Call(true, ticks[0]);
      [c, c, c, c] + SendCalls(ticks[1..])
  }

  // As long as the session stays logged in, n rounds hand over the n oldest reports in
  // order: every report that is queued gets out.
  lemma {:induction false} RoundsDrain(w: Socket, ticks: seq<int>)
    requires AtStart(w) && w.connected && w.registered && w.logged && |ticks| <= |w.outbox.queue|
    ensures Calls(w, SendCalls(ticks)).outbox.sent == w.outbox.sent + w.outbox.queue[..|ticks|]
    ensures Calls(w, SendCalls(ticks)).outbox.queue == w.outbox.queue[|ticks|..]
    decreases |ticks|
  {
    if ticks == [] {
      assert w.outbox.sent + w.outbox.queue[..0] == w.outbox.sent;
    } else {
      var c, q := Call(true, ticks[0]), w.outbox.queue;
      var round := [c, c, c, c];
      EveryRound(w, round);
      var v := Calls(w, round);
      CallsAppend(w, round, SendCalls(ticks[1..]));
      RoundsDrain(v, ticks[1..]);
      SendsInOrder(w.outbox.sent, q, |ticks|);
    }
  }

  lemma SendsInOrder(sent: seq<Item>, q: seq<Report>, n: nat)
    requires 0 < n <= |q|
    ensures sent + [q[0]] + q[1..][..n - 1] == sent + q[..n]
    ensures q[1..][n - 1..] == q[n..]
  {
    assert [q[0]] + q[1..][..n - 1] == q[..n];
  }

  // ----- signing on -----

  // The client is started, connects, registers, logs in, and reports.
  function SignOnEvents(tick: int): seq<Event> {
    var c := Call(true, tick);
    Events([c]) + [Connected] + Events([c, c]) + [Received(RegisterResponse(true, true))]
    + Events([c, c, c]) + [Received(LoginResponse(true))] + Events(SendCalls([tick, tick, tick]))
  }

  lemma RunOne(s: Lamp, e: Event)
    ensures Run(s, [e]) == Step(s, e)
  {
    assert [e][1..] == [];
    assert Run(Step(s, e), []) == Step(s, e);
  }

  lemma RunAnd(s: Lamp, a: seq<Event>, e: Event)
    ensures Run(s, a + [e]) == Step(Run(s, a), e)
  {
    RunAppends(s, a, [e]);
    RunOne(Run(s, a), e);
  }

  lemma RunAndRound(s: Lamp, a: seq<Event>, calls: seq<Call>)
    requires AtStart(Run(s, a).socket) && IsRound(Run(s, a).socket, calls)
    ensures Run(s, a + Events(calls)) == Run(s, a).(socket := RoundAfter(Run(s, a).socket, calls))
  {
    RunAppends(s, a, Events(calls));
    RunOfCalls(Run(s, a), calls);
    EveryRound(Run(s, a).socket, calls);
  }

  // A session as it is while the device signs on: nothing queued, the ring free.
  predicate Fresh(w: Socket) {
    AtStart(w) && w.outbox.queue == [] && w.outbox.answers == []
    && w.loop.lastLogin == -30000 && !w.power && w.mode == Off
  }

  lemma ToConnected(blob: Option<StorageData>, tick: int) returns (es: seq<Event>)
    ensures es == Events([Call(true, tick)]) + [Connected]
    ensures var w := Run(Boot(blob), es).socket;
            && Fresh(w) && w.connected && !w.registered && !w.logged && w.time == LoadStorage(blob).ram.time
            && w.loop.lastRegister == -30000 && w.outbox.sent == [StartItem]
  {
    var b, c := Boot(blob), Call(true, tick);
    assert [] + Events([c]) == Events([c]) && Run(b, []) == b;
    RunAndRound(b, [], [c]);
    RunAnd(b, Events([c]), Connected);
    es := Events([c]) + [Connected];
  }

  lemma ToRegistered(blob: Option<StorageData>, tick: int) returns (es: seq<Event>)
    requires tick >= 0
    ensures es == Events([Call(true, tick)]) + [Connected] + Events([Call(true, tick), Call(true, tick)])
                  + [Received(RegisterResponse(true, true))]
    ensures var w := Run(Boot(blob), es).socket;
            && Fresh(w) && w.connected && w.registered && !w.logged && w.time == LoadStorage(blob).ram.time
            && w.outbox.sent == [StartItem, RegisterItem(tick)]
  {
    var b, c := Boot(blob), Call(true, tick);
    var before := ToConnected(blob, tick);
    RunAndRound(b, before, [c, c]);
    RunAnd(b, before + Events([c, c]), Received(RegisterResponse(true, true)));
    es := before + Events([c, c]) + [Received(RegisterResponse(true, true))];
  }

  lemma ToLoggedIn(blob: Option<StorageData>, tick: int) returns (es: seq<Event>)
    requires tick >= 0
    ensures es == Events([Call(true, tick)]) + [Connected] + Events([Call(true, tick), Call(true, tick)])
                  + [Received(RegisterResponse(true, true))]
                  + Events([Call(true, tick), Call(true, tick), Call(true, tick)]) + [Received(LoginResponse(true))]
    ensures var w := Run(Boot(blob), es).socket;
            && AtStart(w) && w.connected && w.registered && w.logged
            && w.outbox.sent == [StartItem, RegisterItem(tick), LoginItem(tick)]
            && w.outbox.queue == [PowerItem(false), ModeItem(Off), TimeItem(LoadStorage(blob).ram.time)]
  {
    var b, c := Boot(blob), Call(true, tick);
    var before := ToRegistered(blob, tick);
    RunAndRound(b, before, [c, c, c]);
    RunAnd(b, before + Events([c, c, c]), Received(LoginResponse(true)));
    es := before + Events([c, c, c]) + [Received(LoginResponse(true))];
  }

  // From any flash contents and at any tick, a device whose requests are granted signs on
  // and tells the server its state: exactly these items, in this order.
  lemma SignsOn(blob: Option<StorageData>, tick: int)
    requires tick >= 0
    ensures var w := Run(Boot(blob), SignOnEvents(tick)).socket;
            && w.logged && w.outbox.queue == []
            && w.outbox.sent == [StartItem, RegisterItem(tick), LoginItem(tick),
                                 PowerItem(false), ModeItem(Off), TimeItem(LoadStorage(blob).ram.time)]
  {
    var b := Boot(blob);
    var before := ToLoggedIn(blob, tick);
    var s := Run(b, before);
    var ticks := [tick, tick, tick];
    RunAppends(b, before, Events(SendCalls(ticks)));
    RunOfCalls(s, SendCalls(ticks));
    RoundsDrain(s.socket, ticks);
    CallsKeepLogin(s.socket, SendCalls(ticks));
    assert SignOnEvents(tick) == before + Events(SendCalls(ticks));
  }

  lemma {:induction false} CallsKeepLogin(w: Socket, calls: seq<Call>)
    ensures Calls(w, calls).logged == w.logged
    decreases |calls|
  {
    if calls != [] {
      TaskKeepsCopies(w, calls[0].network, calls[0].tick);
      CallsKeepLogin(TaskStep(w, calls[0].network, calls[0].tick), calls[1..]);
    }
  }

  // ----- nothing leaves while the session is down -----

  predicate StaysDown(s: Lamp, es: seq<Event>)
    decreases |es|
  {
    es == [] || (!es[0].Connected? && !Restarts(s, es[0]) && StaysDown(Step(s, es[0]), es[1..]))
  }

  lemma DownStep(s: Lamp, e: Event)
    requires !s.socket.connected && s.socket.loop.pc == AtPrepare && !e.Connected? && !Restarts(s, e)
    ensures var t := Step(s, e).socket;
            && !t.connected && t.loop.pc == AtPrepare && s.socket.outbox.queue <= t.outbox.queue
            && (s.socket.started ==> t.started && t.outbox.sent == s.socket.outbox.sent)
            && (t.outbox.sent == s.socket.outbox.sent || (t.started && t.outbox.sent == s.socket.outbox.sent + [StartItem]))
  {
    if !e.SocketStep? {
      OnlyTaskTouchesTask(s, e);
      DownStays(s, e);
    }
  }

  lemma RelayKeepsConnection(s: Lamp, on: bool)
    ensures ControlRelay(s, on).socket.connected == s.socket.connected
  {
  }

  lemma ModeKeepsConnection(s: Lamp, mode: Mode)
    ensures ChangeMode(s, mode).socket.connected == s.socket.connected
  {
  }

  lemma DownStays(s: Lamp, e: Event)
    requires !s.socket.connected && !e.Connected? && !Restarts(s, e) && !e.SocketStep?
    ensures !Step(s, e).socket.connected
  {
    match e
    case SwitchPoll(manualPin, autoPin) =>
      var now := SwitchMode(manualPin, autoPin);
      ModeKeepsConnection(s.(controller := s.controller.(seen := now, mode := now)), now);
    case ScheduleTick(hour, minute, second) =>
      RelayKeepsConnection(s, Active(StartMinute(s.schedule), EndMinute(s.schedule), hour * 60 + minute));
    case Received(PowerControl(on)) =>
      ModeKeepsConnection(s, Manual);
      RelayKeepsConnection(ForceManual(s, false), on);
    case Received(Release) => ModeKeepsConnection(s, s.controller.mode);
    case ScreenManual(on) => RelayKeepsConnection(s, on);
    case _ =>
  }

  // While the session is down nothing leaves the queue, and nothing reaches the client but
  // the one order to start.
  lemma {:induction false} NothingLeavesWhileDown(s: Lamp, es: seq<Event>)
    requires !s.socket.connected && s.socket.loop.pc == AtPrepare && StaysDown(s, es)
    ensures var t := Run(s, es).socket;
            && s.socket.outbox.queue <= t.outbox.queue
            && (s.socket.started ==> t.outbox.sent == s.socket.outbox.sent)
            && (t.outbox.sent == s.socket.outbox.sent || t.outbox.sent == s.socket.outbox.sent + [StartItem])
    decreases |es|
  {
    if es != [] {
      DownStep(s, es[0]);
      NothingLeavesWhileDown(Step(s, es[0]), es[1..]);
    }
  }
}
