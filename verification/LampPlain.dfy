/** The lamp as its owner sees it: one switch position, one mode, one relay, one window
    and one log of reports. The firmware with its copies in five modules and its nested
    callbacks behaves as this plain machine on every run. */
module LampPlain {
  import opened Options
  import opened LampModel
  import opened LampRuns

  // `log` are the reports handed to the client or waiting for it since start-up, `answers`
  // the coming answers of the outgoing ring.
  datatype Plain = Plain(
    position: Mode, mode: Mode, lit: bool, data: StorageData, flash: Option<StorageData>,
    connected: bool, registered: bool, online: bool, log: seq<Item>, answers: seq<bool>)

  // ----- what an event changes, one field at a time -----

  predicate RestartsPlain(p: Plain, e: Event) {
    || e.Restart?
    || (e.ScheduleTick? && Scheduled(p) && NoonSeconds(e.hour, e.minute, e.second))
  }

  // The first three seconds after noon, if hour, minute and second are those of a clock.
  predicate NoonSeconds(hour: int, minute: int, second: int) {
    43200 <= hour * 3600 + minute * 60 + second <= 43202
  }

  predicate Scheduled(p: Plain) {
    p.mode == Auto && p.data.enableStart && p.data.enableEnd
  }

  predicate Within(t: ActiveTime, minute: int) {
    Active(t.startHour * 60 + t.startMinute, t.endHour * 60 + t.endMinute, minute)
  }

  // The switch is active low: AUTO and MANUAL each pull their own input down.
  predicate ReadsAuto(e: Event) { e.SwitchPoll? && e.manualPin && !e.autoPin }
  predicate ReadsManual(e: Event) { e.SwitchPoll? && !e.manualPin && e.autoPin }
  predicate ReadsOff(e: Event) { e.SwitchPoll? && e.manualPin == e.autoPin }

  function PositionAfter(p: Plain, e: Event): Mode {
    if ReadsAuto(e) then Auto else if ReadsManual(e) then Manual else if ReadsOff(e) then Off else p.position
  }

  predicate Commands(p: Plain, e: Event) {
    e.Received? && e.msg.PowerControl? && p.position != Off
  }

  predicate Releases(e: Event) {
    e.Received? && e.msg.Release?
  }

  // A movement of the switch and a release put the position of the switch into force, a
  // command from the server MANUAL.
  function ModeAfter(p: Plain, e: Event): Mode {
    if PositionAfter(p, e) != p.position || Releases(e) then PositionAfter(p, e)
    else if Commands(p, e) then Manual
    else p.mode
  }

  predicate PutsOut(p: Plain, e: Event) {
    (PositionAfter(p, e) != p.position || Releases(e)) && PositionAfter(p, e) == Off
  }

  function LitAfter(p: Plain, e: Event): bool {
    if PutsOut(p, e) then false
    else if Commands(p, e) then e.msg.on
    else if e.ScreenManual? then e.on
    else if e.ScheduleTick? && Scheduled(p) then Within(p.data.time, e.hour * 60 + e.minute)
    else p.lit
  }

  // The times an event sets: anything from the server, and from the screen unless an hour
  // is over 23 or a minute over 59.
  function TimesSet(e: Event): Option<ActiveTime> {
    match e
    case Received(SetActiveTime(time, _)) => Some(time)
    case ScreenTime(time, _) =>
      if time.startHour > 23 || time.startMinute > 59 || time.endHour > 23 || time.endMinute > 59 then None
      else Some(time)
    case _ => None
  }

  function DataAfter(p: Plain, e: Event): StorageData {
    match TimesSet(e)
    case None => p.data
    case Some(time) => StorageData(time, true, true)
  }

  function FlashAfter(p: Plain, e: Event): Option<StorageData> {
    if TimesSet(e).Some? && Saved(e) then Some(DataAfter(p, e)) else p.flash
  }

  function ConnectedAfter(p: Plain, e: Event): bool {
    e.Connected? || (p.connected && !e.Disconnected?)
  }

  // Only an accepted registration touches the device id.
  function RegisteredAfter(p: Plain, e: Event): bool {
    if e.Received? && e.msg.RegisterResponse? && e.msg.ok then e.msg.hasId else p.registered
  }

  predicate LogsIn(e: Event) {
    e == Received(LoginResponse(true))
  }

  // Every connection event ends the session, only an accepted login begins one.
  function OnlineAfter(p: Plain, e: Event): bool {
    LogsIn(e) || (p.online && !e.Connected? && !e.Disconnected?)
  }

  // ----- what the server is told -----

  function IfElse(b: bool, items: seq<Item>): seq<Item> {
    if b then items else []
  }

  // A login tells everything; otherwise each change of the relay, each mode put into force
  // and each time set is told once, in the order in which they happen.
  function Reports(p: Plain, e: Event): seq<Item> {
    var power := IfElse(LitAfter(p, e) != p.lit, [PowerItem(LitAfter(p, e))]);
    var mode := IfElse(PositionAfter(p, e) != p.position || Releases(e) || Commands(p, e), [ModeItem(ModeAfter(p, e))]);
    if LogsIn(e) then [PowerItem(p.lit), ModeItem(p.mode), TimeItem(p.data.time)]
    else if Commands(p, e) then mode + power
    else power + mode + IfElse(TimesSet(e).Some?, [TimeItem(DataAfter(p, e).time)])
  }

  // The reports that find room.
  function Taken(items: seq<Item>, answers: seq<bool>): seq<Item>
    decreases |items|
  {
    if items == [] then []
    else if answers == [] then items
    else IfElse(answers[0], [items[0]]) + Taken(items[1..], answers[1..])
  }

  function Remaining(answers: seq<bool>, n: nat): seq<bool> {
    if n >= |answers| then [] else answers[n..]
  }

  function Told(p: Plain, e: Event): seq<Item> {
    if p.online || LogsIn(e) then Reports(p, e) else []
  }

  function Restarted(flash: Option<StorageData>): Plain {
    var data := if flash.Some? then flash.value else StorageData(ActiveTime(0, 0, 0, 0), false, false);
    Plain(Off, Off, false, data, Some(data), false, false, false, [], [])
  }

  function PlainStep(p: Plain, e: Event): Plain {
    if RestartsPlain(p, e) then Restarted(p.flash)
    else
      Plain(PositionAfter(p, e), ModeAfter(p, e), LitAfter(p, e), DataAfter(p, e), FlashAfter(p, e),
            ConnectedAfter(p, e), RegisteredAfter(p, e), OnlineAfter(p, e),
            p.log + Taken(Told(p, e), p.answers),
            if e.RingAnswers? then e.answers else Remaining(p.answers, |Told(p, e)|))
  }

  function PlainRun(p: Plain, es: seq<Event>): Plain
    decreases |es|
  {
    if es == [] then p else PlainRun(PlainStep(p, es[0]), es[1..])
  }

  // ----- the firmware seen as the plain machine -----

  function ReportsAmong(items: seq<Item>): seq<Item> {
    if items == [] then []
    else ReportsAmong(items[..|items| - 1]) + IfElse(items[|items| - 1].IsReport(), [items[|items| - 1]])
  }

  function Log(o: Outbox): seq<Item> {
    ReportsAmong(o.sent) + o.queue
  }

  function View(s: Lamp): Plain {
    Plain(s.controller.mode, s.socket.mode, s.controller.relay, s.storage.ram, s.storage.blob,
          s.socket.connected, s.socket.registered, s.socket.logged, Log(s.socket.outbox), s.socket.outbox.answers)
  }

  lemma ReportsAmongAppend(items: seq<Item>, item: Item)
    ensures ReportsAmong(items + [item]) == ReportsAmong(items) + IfElse(item.IsReport(), [item])
  {
    assert (items + [item])[..|items|] == items;
  }

  // One report more, if there is room.
  lemma EnqueueLogs(o: Outbox, kind: Kind, item: Report)
    ensures Log(Enqueue(o, kind, item)) == Log(o) + Taken([item], o.answers)
    ensures Enqueue(o, kind, item).answers == Remaining(o.answers, 1)
  {
    assert [item][1..] == [];
    if HasRoom(o) {
      assert ReportsAmong(o.sent) + (o.queue + [item]) == (ReportsAmong(o.sent) + o.queue) + [item];
    }
  }

  lemma RemainingTwice(answers: seq<bool>, m: nat, n: nat)
    ensures Remaining(Remaining(answers, m), n) == Remaining(answers, m + n)
  {
  }

  lemma {:induction false} TakenJoin(a: seq<Item>, b: seq<Item>, answers: seq<bool>)
    ensures Taken(a + b, answers) == Taken(a, answers) + Taken(b, Remaining(answers, |a|))
    decreases |a|
  {
    if a == [] {
      assert a + b == b && Remaining(answers, 0) == answers;
    } else if answers != [] {
      var rest := answers[1..];
      assert (a + b)[1..] == a[1..] + b;
      TakenJoin(a[1..], b, rest);
      RemainingTwice(answers, 1, |a| - 1);
      JoinThree(IfElse(answers[0], [a[0]]), Taken(a[1..], rest), Taken(b, Remaining(rest, |a| - 1)));
    }
  }

  lemma JoinThree(a: seq<Item>, b: seq<Item>, c: seq<Item>)
    ensures a + b + c == a + (b + c)
  {
  }

  function Announce(p: Plain, items: seq<Item>): Plain {
    if p.online then p.(log := p.log + Taken(items, p.answers), answers := Remaining(p.answers, |items|)) else p
  }

  lemma AnnounceNothing(p: Plain)
    ensures Announce(p, []) == p
  {
    assert p.log + [] == p.log;
  }

  lemma AnnounceTwice(p: Plain, a: seq<Item>, b: seq<Item>)
    ensures Announce(Announce(p, a), b) == Announce(p, a + b)
  {
    TakenJoin(a, b, p.answers);
    RemainingTwice(p.answers, |a|, |b|);
    JoinThree(p.log, Taken(a, p.answers), Taken(b, Remaining(p.answers, |a|)));
  }

  lemma ViewRelay(s: Lamp, on: bool)
    ensures View(ControlRelay(s, on)) ==
            Announce(View(s).(lit := on), IfElse(s.controller.relay != on, [PowerItem(on)]))
  {
    AnnounceNothing(View(s));
    EnqueueLogs(s.socket.outbox, PowerKind, PowerItem(on));
  }

  lemma ViewModeUpdate(s: Lamp, mode: Mode)
    ensures View(s.(socket := UpdateMode(s.socket, mode))) == Announce(View(s).(mode := mode), [ModeItem(mode)])
  {
    EnqueueLogs(s.socket.outbox, ModeKind, ModeItem(mode));
  }

  lemma ViewChangeMode(s: Lamp, mode: Mode)
    ensures View(ChangeMode(s, mode)) ==
            Announce(View(s).(mode := mode, lit := s.controller.relay && mode != Off),
                     IfElse(s.controller.relay && mode == Off, [PowerItem(false)]) + [ModeItem(mode)])
  {
    var told := s.(screen := s.screen.(mode := mode), schedule := s.schedule.(mode := mode));
    var off := if mode == Off then ControlRelay(told, false) else told;
    var power := IfElse(s.controller.relay && mode == Off, [PowerItem(false)]);
    var p := View(s).(lit := s.controller.relay && mode != Off);
    assert View(off) == Announce(p, power) by {
      ViewRelay(told, false);
      AnnounceNothing(p);
    }
    ViewModeUpdate(off, mode);
    assert Announce(p, power).(mode := mode) == Announce(p.(mode := mode), power);
    AnnounceTwice(p.(mode := mode), power, [ModeItem(mode)]);
  }

  lemma ViewSetTimes(s: Lamp, time: ActiveTime, saved: bool)
    ensures View(SetTimeRemotely(s, time, saved)) ==
            Announce(View(s).(data := StorageData(time, true, true),
                              flash := if saved then Some(StorageData(time, true, true)) else s.storage.blob),
                     [TimeItem(time)])
    ensures ScreenAccepts(time) ==> View(SetTimeOnScreen(s, time, saved)) == View(SetTimeRemotely(s, time, saved))
  {
    EnqueueLogs(s.socket.outbox, TimeKind, TimeItem(time));
  }

  lemma TakenThree(x: Item, y: Item, z: Item, answers: seq<bool>)
    ensures Taken([x, y, z], answers) ==
            Taken([x], answers) + Taken([y], Remaining(answers, 1)) + Taken([z], Remaining(answers, 2))
  {
    TakenJoin([x], [y], answers);
    TakenJoin([x] + [y], [z], answers);
    assert [x, y, z] == [x] + [y] + [z];
  }

  lemma ViewLogin(w: Socket)
    ensures LoggedIn(w) == w.(logged := true, outbox := LoggedIn(w).outbox)
    ensures var items := [PowerItem(w.power), ModeItem(w.mode), TimeItem(w.time)];
            && Log(LoggedIn(w).outbox) == Log(w.outbox) + Taken(items, w.outbox.answers)
            && LoggedIn(w).outbox.answers == Remaining(w.outbox.answers, 3)
  {
    var o, a := w.outbox, w.outbox.answers;
    var o1 := Enqueue(o, PowerKind, PowerItem(w.power));
    var o2 := Enqueue(o1, ModeKind, ModeItem(w.mode));
    EnqueueLogs(o, PowerKind, PowerItem(w.power));
    EnqueueLogs(o1, ModeKind, ModeItem(w.mode));
    EnqueueLogs(o2, TimeKind, TimeItem(w.time));
    RemainingTwice(a, 1, 1);
    RemainingTwice(a, 2, 1);
    TakenThree(PowerItem(w.power), ModeItem(w.mode), TimeItem(w.time), a);
    var x, y := Taken([PowerItem(w.power)], a), Taken([ModeItem(w.mode)], o1.answers);
    var z := Taken([TimeItem(w.time)], o2.answers);
    JoinThree(Log(o), x, y);
    JoinThree(Log(o), x + y, z);
  }

  lemma HandKeepsLog(o: Outbox, item: Item)
    requires !item.IsReport()
    ensures Log(Hand(o, item)) == Log(o)
  {
    ReportsAmongAppend(o.sent, item);
  }

  lemma SendKeepsLog(o: Outbox)
    ensures Log(SendOldest(o)) == Log(o)
  {
    if o.queue != [] {
      ReportsAmongAppend(o.sent, o.queue[0]);
      assert ReportsAmong(o.sent) + [o.queue[0]] + o.queue[1..] == ReportsAmong(o.sent) + o.queue;
    }
  }

  predicate SameSession(w: Socket, t: Socket) {
    && Log(t.outbox) == Log(w.outbox) && t.outbox.answers == w.outbox.answers
    && t.connected == w.connected && t.registered == w.registered
  }

  lemma PrepareKeepsSession(w: Socket, network: bool)
    ensures SameSession(w, PrepareStep(w, network))
  {
    HandKeepsLog(w.outbox, StartItem);
  }

  lemma RegisterKeepsSession(w: Socket, tick: int)
    ensures SameSession(w, RegisterStep(w, tick))
  {
    HandKeepsLog(w.outbox, RegisterItem(tick));
  }

  lemma LoginKeepsSession(w: Socket, tick: int)
    ensures SameSession(w, LoginStep(w, tick))
  {
    HandKeepsLog(w.outbox, LoginItem(tick));
  }

  lemma SendKeepsSession(w: Socket)
    ensures SameSession(w, SendStep(w))
  {
    SendKeepsLog(w.outbox);
  }

  // The websocket loop hands reports on without changing what is told.
  lemma TaskKeepsSession(w: Socket, network: bool, tick: int)
    ensures SameSession(w, TaskStep(w, network, tick))
  {
    PrepareKeepsSession(w, network);
    RegisterKeepsSession(w, tick);
    LoginKeepsSession(w, tick);
    SendKeepsSession(w);
  }

  // ----- one event -----

  // An event that is neither a restart nor a login, by what it changes and tells.
  lemma PlainByParts(p: Plain, e: Event, mode: Mode, lit: bool, data: StorageData, flash: Option<StorageData>,
                     items: seq<Item>)
    requires !RestartsPlain(p, e) && !LogsIn(e) && !e.RingAnswers? && !e.Connected? && !e.Disconnected?
    requires e.Received? ==> !e.msg.RegisterResponse?
    requires mode == ModeAfter(p, e) && lit == LitAfter(p, e) && data == DataAfter(p, e) && flash == FlashAfter(p, e)
    requires items == Reports(p, e)
    ensures PlainStep(p, e) ==
            Announce(p.(position := PositionAfter(p, e), mode := mode, lit := lit, data := data, flash := flash), items)
  {
    AnnounceNothing(p);
    assert Taken([], p.answers) == [] && Remaining(p.answers, 0) == p.answers;
  }

  // The switch.
  lemma MoveReports(p: Plain, e: Event, now: Mode)
    requires e.SwitchPoll? && now == PositionAfter(p, e) != p.position
    ensures LitAfter(p, e) == (p.lit && now != Off)
    ensures Reports(p, e) == IfElse(p.lit && now == Off, [PowerItem(false)]) + [ModeItem(now)]
  {
    var power := IfElse(p.lit && now == Off, [PowerItem(false)]);
    assert power + [ModeItem(now)] + [] == power + [ModeItem(now)];
  }

  lemma MoveIsPlain(s: Lamp, e: Event, now: Mode)
    requires ModesAgree(s) && e.SwitchPoll? && now == SwitchMode(e.manualPin, e.autoPin) != s.controller.mode
    ensures View(Step(s, e)) == PlainStep(View(s), e)
  {
    var p := View(s);
    MoveReports(p, e, now);
    PlainByParts(p, e, now, p.lit && now != Off, p.data, p.flash, Reports(p, e));
    var t := s.(controller := s.controller.(seen := now, mode := now));
    assert View(t) == p.(position := now);
    ViewChangeMode(t, now);
    assert Step(s, e) == ChangeMode(t, now);
  }

  lemma PollIsPlain(s: Lamp, e: Event)
    requires ModesAgree(s) && e.SwitchPoll?
    ensures View(Step(s, e)) == PlainStep(View(s), e)
  {
    var p, now := View(s), SwitchMode(e.manualPin, e.autoPin);
    if now == p.position {
      assert now == PositionAfter(p, e);
      AnnounceNothing(p);
      PlainByParts(p, e, p.mode, p.lit, p.data, p.flash, []);
    } else {
      MoveIsPlain(s, e, now);
    }
  }

  // The schedule.
  lemma WindowTickIsPlain(s: Lamp, e: Event)
    requires ModesAgree(s) && TimesAgree(s) && e.ScheduleTick? && Scheduled(View(s)) && !RestartsPlain(View(s), e)
    ensures View(Step(s, e)) == PlainStep(View(s), e)
  {
    var p := View(s);
    var on := Within(p.data.time, e.hour * 60 + e.minute);
    ViewRelay(s, on);
    var power := IfElse(p.lit != on, [PowerItem(on)]);
    assert power + [] + [] == power;
    PlainByParts(p, e, p.mode, on, p.data, p.flash, power);
  }

  lemma TickIsPlain(s: Lamp, e: Event)
    requires ModesAgree(s) && TimesAgree(s) && e.ScheduleTick?
    ensures View(Step(s, e)) == PlainStep(View(s), e)
  {
    var p := View(s);
    if !Scheduled(p) {
      AnnounceNothing(p);
      PlainByParts(p, e, p.mode, p.lit, p.data, p.flash, []);
    } else if RestartsPlain(p, e) {
      BootIsPlain(s.storage.blob);
    } else {
      WindowTickIsPlain(s, e);
    }
  }

  lemma BootIsPlain(blob: Option<StorageData>)
    ensures View(Boot(blob)) == Restarted(blob)
  {
  }

  // A command from the server, and its release.
  lemma CommandIsPlain(s: Lamp, on: bool)
    requires ModesAgree(s)
    ensures View(Receive(s, PowerControl(on))) == PlainStep(View(s), Received(PowerControl(on)))
  {
    var p, e := View(s), Received(PowerControl(on));
    if p.position == Off {
      AnnounceNothing(p);
      PlainByParts(p, e, p.mode, p.lit, p.data, p.flash, []);
    } else {
      var power := IfElse(p.lit != on, [PowerItem(on)]);
      ViewChangeMode(s, Manual);
      assert [] + [ModeItem(Manual)] == [ModeItem(Manual)];
      var m := ForceManual(s, false);
      ViewRelay(m, on);
      assert Announce(p.(mode := Manual), [ModeItem(Manual)]).(lit := on)
          == Announce(p.(mode := Manual, lit := on), [ModeItem(Manual)]);
      AnnounceTwice(p.(mode := Manual, lit := on), [ModeItem(Manual)], power);
      PlainByParts(p, e, Manual, on, p.data, p.flash, [ModeItem(Manual)] + power);
    }
  }

  lemma ReleaseIsPlain(s: Lamp)
    requires ModesAgree(s)
    ensures View(Receive(s, Release)) == PlainStep(View(s), Received(Release))
  {
    var p, e := View(s), Received(Release);
    var power := IfElse(p.lit && p.position == Off, [PowerItem(false)]);
    ViewChangeMode(s, p.position);
    assert power + [ModeItem(p.position)] + [] == power + [ModeItem(p.position)];
    PlainByParts(p, e, p.position, p.lit && p.position != Off, p.data, p.flash, power + [ModeItem(p.position)]);
  }

  lemma TimeIsPlain(s: Lamp, e: Event)
    requires e.ScreenTime? || (e.Received? && e.msg.SetActiveTime?)
    ensures View(Step(s, e)) == PlainStep(View(s), e)
  {
    var p := View(s);
    if TimesSet(e).Some? {
      var time := TimesSet(e).value;
      var data := StorageData(time, true, true);
      ViewSetTimes(s, time, if e.ScreenTime? then e.saved else e.msg.saved);
      assert [] + [] + [TimeItem(time)] == [TimeItem(time)];
      PlainByParts(p, e, p.mode, p.lit, data, if Saved(e) then Some(data) else p.flash, [TimeItem(time)]);
    } else {
      AnnounceNothing(p);
      PlainByParts(p, e, p.mode, p.lit, p.data, p.flash, []);
    }
  }

  lemma ButtonIsPlain(s: Lamp, on: bool)
    ensures View(Step(s, ScreenManual(on))) == PlainStep(View(s), ScreenManual(on))
  {
    var p := View(s);
    var power := IfElse(p.lit != on, [PowerItem(on)]);
    ViewRelay(s, on);
    assert power + [] + [] == power;
    PlainByParts(p, ScreenManual(on), p.mode, on, p.data, p.flash, power);
  }

  // Nothing is told of the session's own events, except by a login.
  lemma TaskIsPlain(s: Lamp, e: Event)
    requires e.SocketStep?
    ensures View(Step(s, e)) == PlainStep(View(s), e)
  {
    var p := View(s);
    TaskKeepsCopies(s.socket, e.network, e.tick);
    TaskKeepsSession(s.socket, e.network, e.tick);
    AnnounceNothing(p);
    PlainByParts(p, e, p.mode, p.lit, p.data, p.flash, []);
  }

  lemma LoginIsPlain(s: Lamp)
    requires Consistent(s)
    ensures View(Receive(s, LoginResponse(true))) == PlainStep(View(s), Received(LoginResponse(true)))
  {
    ViewLogin(s.socket);
    assert Told(View(s), Received(LoginResponse(true))) ==
           [PowerItem(s.socket.power), ModeItem(s.socket.mode), TimeItem(s.socket.time)];
  }

  predicate IsSession(e: Event) {
    || e.Connected? || e.Disconnected? || e.RingAnswers?
    || (e.Received? && (e.msg.RegisterResponse? || e.msg == LoginResponse(false) || e.msg.Other?))
  }

  lemma SessionIsPlain(s: Lamp, e: Event)
    requires IsSession(e)
    ensures View(Step(s, e)) == PlainStep(View(s), e)
  {
    var p := View(s);
    assert Told(p, e) == [] && p.log + [] == p.log && Remaining(p.answers, 0) == p.answers;
  }

  // One event changes the firmware, seen from outside, as it changes the plain machine.
  lemma StepIsPlain(s: Lamp, e: Event)
    requires Consistent(s)
    ensures View(Step(s, e)) == PlainStep(View(s), e)
  {
    match e
    case SwitchPoll(_, _) => PollIsPlain(s, e);
    case ScheduleTick(_, _, _) => TickIsPlain(s, e);
    case Received(PowerControl(on)) => CommandIsPlain(s, on);
    case Received(Release) => ReleaseIsPlain(s);
    case Received(SetActiveTime(_, _)) => TimeIsPlain(s, e);
    case ScreenTime(_, _) => TimeIsPlain(s, e);
    case ScreenManual(on) => ButtonIsPlain(s, on);
    case Restart => BootIsPlain(s.storage.blob);
    case SocketStep(_, _) => TaskIsPlain(s, e);
    case Received(LoginResponse(true)) => LoginIsPlain(s);
    case _ => SessionIsPlain(s, e);
  }

  lemma {:induction false} RunFromIsPlain(s: Lamp, es: seq<Event>)
    requires Consistent(s)
    ensures View(Run(s, es)) == PlainRun(View(s), es)
    decreases |es|
  {
    if es != [] {
      StepIsPlain(s, es[0]);
      StepKeepsConsistent(s, es[0]);
      RunFromIsPlain(Step(s, es[0]), es[1..]);
    }
  }

  // On every run, from any flash contents, restarts included, position, mode, relay, active
  // time, flash, session and the reports that found room are those of the plain machine;
  // and every copy in the firmware is the one value.
  lemma EveryRunIsPlain(blob: Option<StorageData>, es: seq<Event>)
    ensures View(Run(Boot(blob), es)) == PlainRun(Restarted(blob), es)
    ensures Consistent(Run(Boot(blob), es))
  {
    BootIsPlain(blob);
    EveryRunIsConsistent(blob, []);
    RunFromIsPlain(Boot(blob), es);
    EveryRunIsConsistent(blob, es);
  }
}
