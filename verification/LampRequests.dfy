/** How often the websocket loop asks the server to register and to log in. The time of
    the last request is kept in 32 bits, so that the spacing is lost after 24 days. */
module LampRequests {
  import opened Options
  import opened MachineIntegers
  import opened LampModel
  import opened LampRuns
  import LampSession

  // ----- the guard of a request -----

  const TIMEOUT: int := 30000

  // From this tick on the spacing is lost.
  const LIMIT: int := TWO_31 - TIMEOUT

  // A request at tick u passes the guard that a request at tick t has left behind.
  predicate Passes(t: int, u: int) {
    u >= S32(S32(t) + TIMEOUT)
  }

  // The guard keeps the timeout after requests before the limit, and never holds a request
  // back after later ones.
  lemma PassesIff(t: int, u: int)
    requires 0 <= t <= u
    ensures Passes(t, u) <==> t >= LIMIT || u >= t + TIMEOUT
  {
  }

  // ----- requests of every run -----

  // Requests to register are the timeout apart, the last one not after `last`.
  ghost predicate RegisterSpaced(sent: seq<Item>, last: int) {
    && (forall i :: 0 <= i < |sent| && sent[i].RegisterItem? ==> sent[i].tick <= last)
    && (forall i, j :: 0 <= i < j < |sent| && sent[i].RegisterItem? && sent[j].RegisterItem? ==>
          sent[i].tick + TIMEOUT <= sent[j].tick)
  }

  ghost predicate LoginSpaced(sent: seq<Item>, last: int) {
    && (forall i :: 0 <= i < |sent| && sent[i].LoginItem? ==> sent[i].tick <= last)
    && (forall i, j :: 0 <= i < j < |sent| && sent[i].LoginItem? && sent[j].LoginItem? ==>
          sent[i].tick + TIMEOUT <= sent[j].tick)
  }

  ghost predicate StartedOnce(sent: seq<Item>, started: bool) {
    && (forall i :: 0 <= i < |sent| && sent[i].StartItem? ==> started)
    && (forall i, j :: 0 <= i < j < |sent| ==> !(sent[i].StartItem? && sent[j].StartItem?))
  }

  lemma OneMoreItem(sent: seq<Item>, item: Item, register: int, login: int)
    requires RegisterSpaced(sent, register) && LoginSpaced(sent, login)
    ensures item.RegisterItem? && register + TIMEOUT <= item.tick ==> RegisterSpaced(sent + [item], item.tick)
    ensures !item.RegisterItem? ==> RegisterSpaced(sent + [item], register)
    ensures item.LoginItem? && login + TIMEOUT <= item.tick ==> LoginSpaced(sent + [item], item.tick)
    ensures !item.LoginItem? ==> LoginSpaced(sent + [item], login)
  {
  }

  lemma OneMoreStart(sent: seq<Item>, item: Item, started: bool)
    requires StartedOnce(sent, started)
    ensures item.StartItem? && !started ==> StartedOnce(sent + [item], true)
    ensures !item.StartItem? ==> StartedOnce(sent + [item], started)
  {
  }

  ghost predicate StartsOnce(w: Socket) {
    StartedOnce(w.outbox.sent, w.started)
  }

  lemma RequestsStartOnce(w: Socket, tick: int)
    requires StartsOnce(w)
    ensures StartsOnce(RegisterStep(w, tick)) && StartsOnce(LoginStep(w, tick))
  {
    OneMoreStart(w.outbox.sent, RegisterItem(tick), w.started);
    OneMoreStart(w.outbox.sent, LoginItem(tick), w.started);
  }

  lemma OthersStartOnce(w: Socket, network: bool)
    requires StartsOnce(w)
    ensures StartsOnce(PrepareStep(w, network)) && StartsOnce(SendStep(w))
  {
    OneMoreStart(w.outbox.sent, StartItem, w.started);
    if w.outbox.queue != [] {
      OneMoreStart(w.outbox.sent, w.outbox.queue[0], w.started);
    }
  }

  lemma TaskStartsOnce(w: Socket, network: bool, tick: int)
    requires StartsOnce(w)
    ensures StartsOnce(TaskStep(w, network, tick))
  {
    RequestsStartOnce(w, tick);
    OthersStartOnce(w, network);
  }

  lemma StepStartsOnce(s: Lamp, e: Event)
    requires StartsOnce(s.socket)
    ensures StartsOnce(Step(s, e).socket)
  {
    if Restarts(s, e) {
      assert Step(s, e) == Boot(s.storage.blob);
    } else if e.SocketStep? {
      TaskStartsOnce(s.socket, e.network, e.tick);
    } else {
      OnlyTaskTouchesTask(s, e);
    }
  }

  lemma {:induction false} RunStartsOnce(s: Lamp, es: seq<Event>)
    requires StartsOnce(s.socket)
    ensures StartsOnce(Run(s, es).socket)
    decreases |es|
  {
    if es != [] {
      StepStartsOnce(s, es[0]);
      RunStartsOnce(Step(s, es[0]), es[1..]);
    }
  }

  // On every run, whatever the ticks, the client is started at most once since start-up.
  lemma EveryRunStartsOnce(blob: Option<StorageData>, es: seq<Event>, i: nat, j: nat)
    requires i < j < |Run(Boot(blob), es).socket.outbox.sent|
    ensures !(Run(Boot(blob), es).socket.outbox.sent[i].StartItem?
              && Run(Boot(blob), es).socket.outbox.sent[j].StartItem?)
  {
    RunStartsOnce(Boot(blob), es);
  }

  // ----- exactly as long as the spacing is kept -----

  // The clock starts at zero with the device, does not go back, and stays within `most`.
  predicate Clocked(s: Lamp, es: seq<Event>, since: int, most: int)
    decreases |es|
  {
    || es == []
    || (&& (es[0].SocketStep? ==> since <= es[0].tick <= most)
        && Clocked(Step(s, es[0]), es[1..],
                   if Restarts(s, es[0]) then 0 else if es[0].SocketStep? then es[0].tick else since, most))
  }

  ghost predicate Spaced(w: Socket, most: int) {
    && RegisterSpaced(w.outbox.sent, w.loop.lastRegister) && -TIMEOUT <= w.loop.lastRegister <= most
    && LoginSpaced(w.outbox.sent, w.loop.lastLogin) && -TIMEOUT <= w.loop.lastLogin <= most
  }

  lemma SmallTicks(tick: int)
    requires -TIMEOUT <= tick < LIMIT
    ensures S32(tick) == tick && S32(tick + TIMEOUT) == tick + TIMEOUT
  {
  }

  lemma RegisterKeepsSpaced(w: Socket, tick: int, most: int)
    requires Spaced(w, most) && 0 <= tick <= most < LIMIT
    ensures Spaced(RegisterStep(w, tick), most)
  {
    SmallTicks(tick);
    SmallTicks(w.loop.lastRegister);
    OneMoreItem(w.outbox.sent, RegisterItem(tick), w.loop.lastRegister, w.loop.lastLogin);
  }

  lemma LoginKeepsSpaced(w: Socket, tick: int, most: int)
    requires Spaced(w, most) && 0 <= tick <= most < LIMIT
    ensures Spaced(LoginStep(w, tick), most)
  {
    SmallTicks(tick);
    SmallTicks(w.loop.lastLogin);
    OneMoreItem(w.outbox.sent, LoginItem(tick), w.loop.lastRegister, w.loop.lastLogin);
  }

  lemma OthersKeepSpaced(w: Socket, network: bool, most: int)
    requires Spaced(w, most)
    ensures Spaced(PrepareStep(w, network), most) && Spaced(SendStep(w), most)
  {
    OneMoreItem(w.outbox.sent, StartItem, w.loop.lastRegister, w.loop.lastLogin);
    if w.outbox.queue != [] {
      OneMoreItem(w.outbox.sent, w.outbox.queue[0], w.loop.lastRegister, w.loop.lastLogin);
    }
  }

  lemma TaskKeepsSpaced(w: Socket, network: bool, tick: int, most: int)
    requires Spaced(w, most) && 0 <= tick <= most < LIMIT
    ensures Spaced(TaskStep(w, network, tick), most)
  {
    OthersKeepSpaced(w, network, most);
    RegisterKeepsSpaced(w, tick, most);
    LoginKeepsSpaced(w, tick, most);
  }

  lemma StepKeepsSpaced(s: Lamp, e: Event, most: int)
    requires Spaced(s.socket, most) && 0 <= most < LIMIT && (e.SocketStep? ==> 0 <= e.tick <= most)
    ensures Spaced(Step(s, e).socket, most)
  {
    if Restarts(s, e) {
      assert Step(s, e) == Boot(s.storage.blob);
    } else if e.SocketStep? {
      TaskKeepsSpaced(s.socket, e.network, e.tick, most);
    } else {
      OnlyTaskTouchesTask(s, e);
    }
  }

  lemma {:induction false} RunKeepsSpaced(s: Lamp, es: seq<Event>, since: int, most: int)
    requires Spaced(s.socket, most) && 0 <= since && 0 <= most < LIMIT && Clocked(s, es, since, most)
    ensures Spaced(Run(s, es).socket, most)
    decreases |es|
  {
    if es != [] {
      StepKeepsSpaced(s, es[0], most);
      RunKeepsSpaced(Step(s, es[0]), es[1..],
                     if Restarts(s, es[0]) then 0 else if es[0].SocketStep? then es[0].tick else since, most);
    }
  }

  // What the timeouts are for: two requests of a kind are thirty seconds apart.
  ghost predicate RequestsApart(sent: seq<Item>) {
    forall i, j :: 0 <= i < j < |sent| ==>
      && (sent[i].RegisterItem? && sent[j].RegisterItem? ==> sent[j].tick - sent[i].tick >= TIMEOUT)
      && (sent[i].LoginItem? && sent[j].LoginItem? ==> sent[j].tick - sent[i].tick >= TIMEOUT)
  }

  ghost predicate AlwaysApart(most: int) {
    forall blob, es :: Clocked(Boot(blob), es, 0, most) ==> RequestsApart(Run(Boot(blob), es).socket.outbox.sent)
  }

  // ----- the limit is reached -----

  function LostSpacing(tick: int): seq<Event> {
    [SocketStep(true, 0), Connected] + [SocketStep(true, tick), SocketStep(true, tick)]
    + [SocketStep(true, tick), SocketStep(true, tick)]
  }

  lemma RunPair(s: Lamp, a: Event, b: Event, es: seq<Event>)
    ensures Run(s, [a, b] + es) == Run(Step(Step(s, a), b), es)
  {
    RunAppends(s, [a, b], es);
    RunTwo(s, a, b);
  }

  // Connected and at the beginning of the loop, without a device id.
  predicate Unregistered(w: Socket) {
    w.loop.pc == AtPrepare && w.connected && !w.registered
  }

  // One round of the loop that sends a request.
  lemma RequestRound(s: Lamp, tick: int) returns (t: Lamp)
    requires Unregistered(s.socket) && tick >= S32(s.socket.loop.lastRegister + TIMEOUT)
    ensures t == Step(Step(s, SocketStep(true, tick)), SocketStep(true, tick))
    ensures Unregistered(t.socket) && t.socket.loop.lastRegister == S32(tick)
    ensures t.socket.outbox.sent == s.socket.outbox.sent + [RegisterItem(tick)]
  {
    t := Step(Step(s, SocketStep(true, tick)), SocketStep(true, tick));
    assert TaskStep(s.socket, true, tick).loop.pc == AtRegister;
  }

  // Once a request has been made at the limit or later, every round makes another one.
  lemma EveryRoundRequests(s: Lamp, t: int, tick: int) returns (u: Lamp)
    requires Unregistered(s.socket) && LIMIT <= t <= tick && s.socket.loop.lastRegister == S32(t)
    ensures u == Step(Step(s, SocketStep(true, tick)), SocketStep(true, tick))
    ensures Unregistered(u.socket) && u.socket.loop.lastRegister == S32(tick)
    ensures u.socket.outbox.sent == s.socket.outbox.sent + [RegisterItem(tick)]
  {
    PassesIff(t, tick);
    u := RequestRound(s, tick);
  }

  // The same of requests to log in: at the beginning of a round, with a device id, a request
  // at the limit or later is followed by another one in every round.
  lemma EveryRoundLogsIn(w: Socket, t: int, tick: int) returns (u: Socket)
    requires LampSession.AtStart(w) && w.connected && w.registered && !w.logged
    requires LIMIT <= t <= tick && w.loop.lastLogin == S32(t)
    ensures u == TaskStep(TaskStep(TaskStep(w, true, tick), true, tick), true, tick)
    ensures LampSession.AtStart(u) && !u.logged && u.loop.lastLogin == S32(tick)
    ensures u.outbox.sent == w.outbox.sent + [LoginItem(tick)]
  {
    PassesIff(t, tick);
    var c := LampSession.Call(true, tick);
    LampSession.EveryRound(w, [c, c, c]);
    u := LampSession.Calls(w, [c, c, c]);
    assert [c, c, c][1..] == [c, c] && [c, c][1..] == [c] && [c][1..] == [];
    assert u == LampSession.Calls(TaskStep(w, true, tick), [c, c]);
  }

  lemma ClockedSteps(s: Lamp, tick: int, since: int, most: int, es: seq<Event>)
    requires since <= tick <= most
    requires Clocked(Step(Step(s, SocketStep(true, tick)), SocketStep(true, tick)), es, tick, most)
    ensures Clocked(s, [SocketStep(true, tick), SocketStep(true, tick)] + es, since, most)
  {
    var e := SocketStep(true, tick);
    assert ([e, e] + es)[1..] == [e] + es && ([e] + es)[1..] == es;
    assert Clocked(Step(s, e), [e] + es, tick, most);
  }

  // Two requests at one tick, after 24 days.
  lemma SpacingIsLost(blob: Option<StorageData>, most: int)
    requires most >= LIMIT
    ensures Clocked(Boot(blob), LostSpacing(LIMIT), 0, most)
    ensures Run(Boot(blob), LostSpacing(LIMIT)).socket.outbox.sent == [StartItem, RegisterItem(LIMIT), RegisterItem(LIMIT)]
  {
    var e := SocketStep(true, LIMIT);
    var twice := [e, e];
    var b := Boot(blob);
    var s := Step(Step(b, SocketStep(true, 0)), Connected);
    assert b.socket.loop.pc == AtPrepare && !b.socket.connected && b.socket.outbox.sent == [];
    assert Step(b, SocketStep(true, 0)).socket.outbox.sent == [StartItem];
    assert Unregistered(s.socket) && s.socket.loop.lastRegister == -TIMEOUT;
    var t := RequestRound(s, LIMIT);
    var u := EveryRoundRequests(t, LIMIT, LIMIT);
    ClockedSteps(t, LIMIT, LIMIT, most, []);
    assert twice + [] == twice;
    ClockedSteps(s, LIMIT, 0, most, twice);
    RunPair(b, SocketStep(true, 0), Connected, twice + twice);
    RunPair(s, e, e, twice);
    RunPair(t, e, e, []);
    var es := LostSpacing(LIMIT);
    assert es == [SocketStep(true, 0), Connected] + (twice + twice);
    assert es[1..] == [Connected] + (twice + twice) && ([Connected] + (twice + twice))[1..] == twice + twice;
    assert Clocked(Step(b, SocketStep(true, 0)), es[1..], 0, most);
  }

  // On every run with a clock up to `most`, requests of a kind are thirty seconds apart: if
  // and only if `most` is below the limit.
  lemma AlwaysApartIff(most: int)
    requires 0 <= most
    ensures AlwaysApart(most) <==> most < LIMIT
  {
    if most < LIMIT {
      forall blob, es | Clocked(Boot(blob), es, 0, most)
        ensures RequestsApart(Run(Boot(blob), es).socket.outbox.sent)
      {
        RunKeepsSpaced(Boot(blob), es, 0, most);
      }
    } else {
      SpacingIsLost(None, most);
      var sent := Run(Boot(None), LostSpacing(LIMIT)).socket.outbox.sent;
      assert sent[1].RegisterItem? && sent[2].RegisterItem? && sent[2].tick - sent[1].tick == 0;
      assert !RequestsApart(sent);
    }
  }
}
