/** What holds of the lamp controller on every run: the copies of mode, power and active
    time agree, the server is told the truth, and commands are not overridden. */
module LampRuns {
  import opened Options
  import opened LampModel

  // ----- the copies of the mode -----

  // Screen, schedule and websocket hold the same mode: the switch position or a forced
  // MANUAL, and OFF exactly when the switch is OFF.
  predicate ModesAgree(s: Lamp) {
    && s.screen.mode == s.schedule.mode == s.socket.mode
    && s.controller.seen == s.controller.mode
    && (s.socket.mode == s.controller.mode || s.socket.mode == Manual)
    && (s.socket.mode == Off <==> s.controller.mode == Off)
  }

  lemma ControlRelayKeepsModes(s: Lamp, on: bool)
    requires ModesAgree(s)
    ensures ModesAgree(ControlRelay(s, on))
  {
  }

  // Telling everybody the switch position, or a forced MANUAL while the switch is not OFF.
  lemma ChangeModeSetsModes(s: Lamp, mode: Mode)
    requires s.controller.seen == s.controller.mode
    requires mode == s.controller.mode || (mode == Manual && s.controller.mode != Off)
    ensures ModesAgree(ChangeMode(s, mode))
  {
  }

  lemma ReceiveKeepsModes(s: Lamp, msg: Message)
    requires ModesAgree(s)
    ensures ModesAgree(Receive(s, msg))
  {
  }

  predicate SameCopies(w: Socket, t: Socket) {
    t.mode == w.mode && t.time == w.time && t.power == w.power && t.logged == w.logged
  }

  lemma TaskKeepsCopies(w: Socket, network: bool, tick: int)
    ensures SameCopies(w, TaskStep(w, network, tick))
  {
    match w.loop.pc
    case AtPrepare => assert SameCopies(w, PrepareStep(w, network));
    case AtRegister => assert SameCopies(w, RegisterStep(w, tick));
    case AtLogin => assert SameCopies(w, LoginStep(w, tick));
    case AtSend => assert SameCopies(w, SendStep(w));
  }

  lemma StepKeepsModes(s: Lamp, e: Event)
    requires ModesAgree(s)
    ensures ModesAgree(Step(s, e))
  {
    match e
    case SwitchPoll(manualPin, autoPin) =>
      var now := SwitchMode(manualPin, autoPin);
      ChangeModeSetsModes(s.(controller := s.controller.(seen := now, mode := now)), now);
    case ScheduleTick(hour, minute, second) =>
      ControlRelayKeepsModes(s, Active(StartMinute(s.schedule), EndMinute(s.schedule), hour * 60 + minute));
    case Received(msg) => ReceiveKeepsModes(s, msg);
    case SocketStep(network, tick) => TaskKeepsCopies(s.socket, network, tick);
    case ScreenManual(on) => ControlRelayKeepsModes(s, on);
    case _ =>
  }

  // ----- relay, power state and power events -----

  // Both relay pins and the reported power state follow the relay; the power events
  // since start-up strictly alternate, starting with "on", one for each change.
  ghost predicate PowerAgrees(s: Lamp) {
    && s.controller.relay == s.socket.power == s.controller.pin1 == s.controller.pin2
    && (s.controller.relay <==> |s.powerEvents| % 2 == 1)
    && Alternates(s.powerEvents)
  }

  ghost predicate Alternates(events: seq<bool>) {
    forall i :: 0 <= i < |events| ==> (events[i] <==> i % 2 == 0)
  }

  lemma ControlRelayKeepsPower(s: Lamp, on: bool)
    requires PowerAgrees(s)
    ensures PowerAgrees(ControlRelay(s, on))
  {
  }

  lemma ChangeModeKeepsPower(s: Lamp, mode: Mode)
    requires PowerAgrees(s)
    ensures PowerAgrees(ChangeMode(s, mode))
  {
  }

  lemma ReceiveKeepsPower(s: Lamp, msg: Message)
    requires PowerAgrees(s)
    ensures PowerAgrees(Receive(s, msg))
  {
  }

  lemma StepKeepsPower(s: Lamp, e: Event)
    requires PowerAgrees(s)
    ensures PowerAgrees(Step(s, e))
  {
    match e
    case SwitchPoll(manualPin, autoPin) =>
      var now := SwitchMode(manualPin, autoPin);
      ChangeModeKeepsPower(s.(controller := s.controller.(seen := now, mode := now)), now);
    case ScheduleTick(hour, minute, second) =>
      ControlRelayKeepsPower(s, Active(StartMinute(s.schedule), EndMinute(s.schedule), hour * 60 + minute));
    case Received(msg) => ReceiveKeepsPower(s, msg);
    case SocketStep(network, tick) => TaskKeepsCopies(s.socket, network, tick);
    case ScreenManual(on) => ControlRelayKeepsPower(s, on);
    case _ =>
  }

  // ----- the copies of the active time -----

  predicate AlarmAgrees(a: Alarm, enable: bool, hour: int, minute: int) {
    a.enable == enable && (enable ==> a.hour == hour && a.minute == minute)
  }

  // Screen, websocket and storage hold the same times; so does the schedule once enabled.
  predicate TimesAgree(s: Lamp) {
    var data := s.storage.ram;
    && s.screen.time == s.socket.time == data.time
    && AlarmAgrees(s.schedule.start, data.enableStart, data.time.startHour, data.time.startMinute)
    && AlarmAgrees(s.schedule.end, data.enableEnd, data.time.endHour, data.time.endMinute)
  }

  // The flash holds what RAM holds.
  predicate FlashAgrees(s: Lamp) {
    s.storage.blob == Some(s.storage.ram)
  }

  predicate Saved(e: Event) {
    && (e.ScreenTime? ==> e.saved)
    && (e.Received? && e.msg.SetActiveTime? ==> e.msg.saved)
  }

  // The parts of the state that hold times.
  predicate SameTimes(s: Lamp, t: Lamp) {
    && t.storage == s.storage && t.screen.time == s.screen.time && t.socket.time == s.socket.time
    && t.schedule.start == s.schedule.start && t.schedule.end == s.schedule.end
  }

  lemma ControlRelaySameTimes(s: Lamp, on: bool)
    ensures SameTimes(s, ControlRelay(s, on))
  {
  }

  lemma ChangeModeSameTimes(s: Lamp, mode: Mode)
    ensures SameTimes(s, ChangeMode(s, mode))
  {
  }

  lemma BootTimes(blob: Option<StorageData>)
    ensures TimesAgree(Boot(blob)) && FlashAgrees(Boot(blob))
    ensures Boot(blob).storage.ram == if blob.Some? then blob.value else EMPTY
  {
  }

  lemma ReceiveKeepsTimes(s: Lamp, msg: Message)
    requires TimesAgree(s)
    ensures TimesAgree(Receive(s, msg))
    ensures FlashAgrees(s) && (msg.SetActiveTime? ==> msg.saved) ==> FlashAgrees(Receive(s, msg))
  {
  }

  lemma StepKeepsTimes(s: Lamp, e: Event)
    requires TimesAgree(s)
    ensures TimesAgree(Step(s, e))
    ensures FlashAgrees(s) && Saved(e) ==> FlashAgrees(Step(s, e))
  {
    match e
    case SwitchPoll(manualPin, autoPin) =>
      var now := SwitchMode(manualPin, autoPin);
      ChangeModeSameTimes(s.(controller := s.controller.(seen := now, mode := now)), now);
    case ScheduleTick(hour, minute, second) =>
      ControlRelaySameTimes(s, Active(StartMinute(s.schedule), EndMinute(s.schedule), hour * 60 + minute));
      BootTimes(s.storage.blob);
    case Received(msg) => ReceiveKeepsTimes(s, msg);
    case SocketStep(network, tick) => TaskKeepsCopies(s.socket, network, tick);
    case ScreenManual(on) => ControlRelaySameTimes(s, on);
    case Restart => BootTimes(s.storage.blob);
    case _ =>
  }

  // ----- a restart in the middle of an update -----

  // The k-th assignment of an update that came from the server.
  function RemoteAssignment(s: Lamp, time: ActiveTime, k: nat): Lamp {
    match k
    case 0 => s.(storage := s.storage.(ram := StorageData(time, true, true)))
    case 1 => s.(storage := s.storage.(blob := Some(s.storage.ram)))
    case 2 => s.(schedule := s.schedule.(start := Alarm(true, time.startHour, time.startMinute)))
    case 3 => s.(schedule := s.schedule.(end := Alarm(true, time.endHour, time.endMinute)))
    case 4 => s.(screen := s.screen.(time := time))
    case _ => s.(socket := UpdateTime(s.socket, time))
  }

  // The state after the first k of its six assignments.
  function RemoteUpdateStep(s: Lamp, time: ActiveTime, k: nat): Lamp
    requires k <= 6
  {
    if k == 0 then s else RemoteAssignment(RemoteUpdateStep(s, time, k - 1), time, k - 1)
  }

  // The same for the screen's own update, which begins with its four fields.
  function ScreenAssignment(s: Lamp, time: ActiveTime, k: nat): Lamp {
    match k
    case 0 => s.(screen := s.screen.(time := s.screen.time.(startHour := time.startHour)))
    case 1 => s.(screen := s.screen.(time := s.screen.time.(startMinute := time.startMinute)))
    case 2 => s.(screen := s.screen.(time := s.screen.time.(endHour := time.endHour)))
    case 3 => s.(screen := s.screen.(time := s.screen.time.(endMinute := time.endMinute)))
    case 4 => s.(storage := s.storage.(ram := StorageData(time, true, true)))
    case 5 => s.(storage := s.storage.(blob := Some(s.storage.ram)))
    case 6 => s.(schedule := s.schedule.(start := Alarm(true, time.startHour, time.startMinute)))
    case 7 => s.(schedule := s.schedule.(end := Alarm(true, time.endHour, time.endMinute)))
    case _ => s.(socket := UpdateTime(s.socket, time))
  }

  function ScreenUpdateStep(s: Lamp, time: ActiveTime, k: nat): Lamp
    requires k <= 9
  {
    if k == 0 then s else ScreenAssignment(ScreenUpdateStep(s, time, k - 1), time, k - 1)
  }

  // Every copy, the flash included, holds exactly this data.
  predicate EveryCopyHolds(s: Lamp, data: StorageData) {
    TimesAgree(s) && FlashAgrees(s) && s.storage.ram == data
  }

  lemma {:induction false} RemoteStepsKeepFlash(s: Lamp, time: ActiveTime, k: nat)
    requires k <= 6
    ensures RemoteUpdateStep(s, time, k).storage.ram == if k < 1 then s.storage.ram else StorageData(time, true, true)
    ensures RemoteUpdateStep(s, time, k).storage.blob ==
            if k < 2 then s.storage.blob else Some(StorageData(time, true, true))
  {
    if k > 0 {
      RemoteStepsKeepFlash(s, time, k - 1);
    }
  }

  lemma {:induction false} ScreenStepsKeepFlash(s: Lamp, time: ActiveTime, k: nat)
    requires k <= 9
    ensures ScreenUpdateStep(s, time, k).storage.ram == if k < 5 then s.storage.ram else StorageData(time, true, true)
    ensures ScreenUpdateStep(s, time, k).storage.blob ==
            if k < 6 then s.storage.blob else Some(StorageData(time, true, true))
  {
    if k > 0 {
      ScreenStepsKeepFlash(s, time, k - 1);
    }
  }

  // Carried through, the assignments are the event.
  lemma RemoteStepsAddUp(s: Lamp, time: ActiveTime)
    ensures RemoteUpdateStep(s, time, 6) == SetTimeRemotely(s, time, true)
  {
    var t2 := RemoteUpdateStep(s, time, 2);
    assert t2 == s.(storage := Store(s.storage, StorageData(time, true, true), true)) by {
      assert RemoteUpdateStep(s, time, 1) == RemoteAssignment(s, time, 0);
    }
    var t4 := RemoteUpdateStep(s, time, 4);
    assert t4 == t2.(schedule := SetAlarms(s.schedule, time)) by {
      assert RemoteUpdateStep(s, time, 3) == RemoteAssignment(t2, time, 2);
    }
    assert RemoteUpdateStep(s, time, 5) == RemoteAssignment(t4, time, 4);
  }

  lemma ScreenStepsAddUp(s: Lamp, time: ActiveTime)
    requires ScreenAccepts(time)
    ensures ScreenUpdateStep(s, time, 9) == SetTimeOnScreen(s, time, true)
  {
    var t4 := ScreenUpdateStep(s, time, 4);
    assert t4 == s.(screen := s.screen.(time := time)) by {
      var t2 := ScreenUpdateStep(s, time, 2);
      assert ScreenUpdateStep(s, time, 1) == ScreenAssignment(s, time, 0);
      assert ScreenUpdateStep(s, time, 3) == ScreenAssignment(t2, time, 2);
    }
    var t6 := ScreenUpdateStep(s, time, 6);
    assert t6 == t4.(storage := Store(s.storage, StorageData(time, true, true), true)) by {
      assert ScreenUpdateStep(s, time, 5) == ScreenAssignment(t4, time, 4);
    }
    assert ScreenUpdateStep(s, time, 7) == ScreenAssignment(t6, time, 6);
    assert ScreenUpdateStep(s, time, 8) == t6.(schedule := SetAlarms(s.schedule, time));
  }

  // A restart at any point of an update leaves every copy on the old value or every
  // copy on the new value.
  lemma {:induction false} RestartDuringRemoteUpdate(s: Lamp, time: ActiveTime, k: nat)
    requires TimesAgree(s) && FlashAgrees(s) && k <= 6
    ensures EveryCopyHolds(Boot(RemoteUpdateStep(s, time, k).storage.blob),
                           if k < 2 then s.storage.ram else StorageData(time, true, true))
  {
    RemoteStepsKeepFlash(s, time, k);
  }

  lemma {:induction false} RestartDuringScreenUpdate(s: Lamp, time: ActiveTime, k: nat)
    requires TimesAgree(s) && FlashAgrees(s) && k <= 9
    ensures EveryCopyHolds(Boot(ScreenUpdateStep(s, time, k).storage.blob),
                           if k < 6 then s.storage.ram else StorageData(time, true, true))
  {
    ScreenStepsKeepFlash(s, time, k);
  }

  // After a restart every copy holds an update if and only if its save succeeded or the
  // flash held these times already.
  lemma RestartRecoversIff(s: Lamp, time: ActiveTime, saved: bool)
    ensures EveryCopyHolds(Boot(SetTimeRemotely(s, time, saved).storage.blob), StorageData(time, true, true))
            <==> saved || s.storage.blob == Some(StorageData(time, true, true))
  {
    BootTimes(SetTimeRemotely(s, time, saved).storage.blob);
  }

  // ----- the session outbox -----

  ghost function LastPower(items: seq<Item>): Option<bool> {
    if items == [] then None
    else if items[|items| - 1].PowerItem? then Some(items[|items| - 1].on)
    else LastPower(items[..|items| - 1])
  }

  ghost function LastMode(items: seq<Item>): Option<Mode> {
    if items == [] then None
    else if items[|items| - 1].ModeItem? then Some(items[|items| - 1].mode)
    else LastMode(items[..|items| - 1])
  }

  ghost function LastTime(items: seq<Item>): Option<ActiveTime> {
    if items == [] then None
    else if items[|items| - 1].TimeItem? then Some(items[|items| - 1].time)
    else LastTime(items[..|items| - 1])
  }

  ghost function Items(o: Outbox): seq<Item> {
    o.sent + o.queue
  }

  // The last report of each kind among what was sent and what is still queued is the
  // given value, unless the ring was full for the latest one.
  ghost predicate PowerTold(o: Outbox, power: bool) {
    PowerKind !in o.lost ==> LastPower(o.sent + o.queue) == Some(power)
  }

  ghost predicate ModeTold(o: Outbox, mode: Mode) {
    ModeKind !in o.lost ==> LastMode(o.sent + o.queue) == Some(mode)
  }

  ghost predicate TimeTold(o: Outbox, time: ActiveTime) {
    TimeKind !in o.lost ==> LastTime(o.sent + o.queue) == Some(time)
  }

  // While logged in, the server has been or will be told the cached values.
  ghost predicate OutboxAgrees(w: Socket) {
    w.logged ==> PowerTold(w.outbox, w.power) && ModeTold(w.outbox, w.mode) && TimeTold(w.outbox, w.time)
  }

  lemma LastOfAppend(items: seq<Item>, item: Item)
    ensures LastPower(items + [item]) == if item.PowerItem? then Some(item.on) else LastPower(items)
    ensures LastMode(items + [item]) == if item.ModeItem? then Some(item.mode) else LastMode(items)
    ensures LastTime(items + [item]) == if item.TimeItem? then Some(item.time) else LastTime(items)
  {
  }

  // Requests that are sent past the queue do not count as reports.
  lemma {:induction false} RequestsDoNotTell(a: seq<Item>, b: seq<Item>, item: Item)
    requires !item.IsReport()
    ensures LastPower(a + [item] + b) == LastPower(a + b)
    ensures LastMode(a + [item] + b) == LastMode(a + b)
    ensures LastTime(a + [item] + b) == LastTime(a + b)
    decreases |b|
  {
    if b == [] {
      assert a + [item] + b == a + [item] && a + b == a;
      LastOfAppend(a, item);
    } else {
      var c, x := b[..|b| - 1], b[|b| - 1];
      assert a + [item] + b == (a + [item] + c) + [x] && a + b == (a + c) + [x];
      RequestsDoNotTell(a, c, item);
      LastOfAppend(a + [item] + c, x);
      LastOfAppend(a + c, x);
    }
  }

  lemma EnqueueAppends(o: Outbox, kind: Kind, item: Report)
    requires HasRoom(o)
    ensures Enqueue(o, kind, item).sent + Enqueue(o, kind, item).queue == (o.sent + o.queue) + [item]
  {
  }

  // A report, whether the ring takes it or not, settles its kind and leaves the others.
  lemma PowerReportTells(o: Outbox, power: bool, mode: Mode, time: ActiveTime)
    ensures PowerTold(Enqueue(o, PowerKind, PowerItem(power)), power)
    ensures ModeTold(o, mode) ==> ModeTold(Enqueue(o, PowerKind, PowerItem(power)), mode)
    ensures TimeTold(o, time) ==> TimeTold(Enqueue(o, PowerKind, PowerItem(power)), time)
  {
    if HasRoom(o) {
      EnqueueAppends(o, PowerKind, PowerItem(power));
      LastOfAppend(o.sent + o.queue, PowerItem(power));
    }
  }

  lemma ModeReportTells(o: Outbox, power: bool, mode: Mode, time: ActiveTime)
    ensures ModeTold(Enqueue(o, ModeKind, ModeItem(mode)), mode)
    ensures PowerTold(o, power) ==> PowerTold(Enqueue(o, ModeKind, ModeItem(mode)), power)
    ensures TimeTold(o, time) ==> TimeTold(Enqueue(o, ModeKind, ModeItem(mode)), time)
  {
    if HasRoom(o) {
      EnqueueAppends(o, ModeKind, ModeItem(mode));
      LastOfAppend(o.sent + o.queue, ModeItem(mode));
    }
  }

  lemma TimeReportTells(o: Outbox, power: bool, mode: Mode, time: ActiveTime)
    ensures TimeTold(Enqueue(o, TimeKind, TimeItem(time)), time)
    ensures PowerTold(o, power) ==> PowerTold(Enqueue(o, TimeKind, TimeItem(time)), power)
    ensures ModeTold(o, mode) ==> ModeTold(Enqueue(o, TimeKind, TimeItem(time)), mode)
  {
    if HasRoom(o) {
      EnqueueAppends(o, TimeKind, TimeItem(time));
      LastOfAppend(o.sent + o.queue, TimeItem(time));
    }
  }

  lemma UpdatesKeepOutbox(w: Socket, power: bool, mode: Mode, time: ActiveTime)
    requires OutboxAgrees(w)
    ensures OutboxAgrees(UpdatePower(w, power))
    ensures OutboxAgrees(UpdateMode(w, mode))
    ensures OutboxAgrees(UpdateTime(w, time))
  {
    PowerReportTells(w.outbox, power, w.mode, w.time);
    ModeReportTells(w.outbox, w.power, mode, w.time);
    TimeReportTells(w.outbox, w.power, w.mode, time);
  }

  lemma LoginEstablishesOutbox(w: Socket)
    ensures OutboxAgrees(LoggedIn(w))
  {
    var p := Enqueue(w.outbox, PowerKind, PowerItem(w.power));
    var m := Enqueue(p, ModeKind, ModeItem(w.mode));
    PowerReportTells(w.outbox, w.power, w.mode, w.time);
    ModeReportTells(p, w.power, w.mode, w.time);
    TimeReportTells(m, w.power, w.mode, w.time);
  }

  // Exactly when an update made while logged in leaves the right last report.
  lemma ReportArrivesIff(w: Socket, power: bool, mode: Mode, time: ActiveTime)
    requires w.logged
    ensures LastPower(Items(UpdatePower(w, power).outbox)) == Some(power) <==>
            HasRoom(w.outbox) || LastPower(Items(w.outbox)) == Some(power)
    ensures LastMode(Items(UpdateMode(w, mode).outbox)) == Some(mode) <==>
            HasRoom(w.outbox) || LastMode(Items(w.outbox)) == Some(mode)
    ensures LastTime(Items(UpdateTime(w, time).outbox)) == Some(time) <==>
            HasRoom(w.outbox) || LastTime(Items(w.outbox)) == Some(time)
  {
    if HasRoom(w.outbox) {
      EnqueueAppends(w.outbox, PowerKind, PowerItem(power));
      EnqueueAppends(w.outbox, ModeKind, ModeItem(mode));
      EnqueueAppends(w.outbox, TimeKind, TimeItem(time));
      LastOfAppend(Items(w.outbox), PowerItem(power));
      LastOfAppend(Items(w.outbox), ModeItem(mode));
      LastOfAppend(Items(w.outbox), TimeItem(time));
    }
  }

  // A relay change that finds the ring full leaves the server with the opposite state.
  lemma DroppedChangeMisleads(s: Lamp, on: bool)
    requires s.socket.logged && PowerAgrees(s) && OutboxAgrees(s.socket) && PowerKind !in s.socket.outbox.lost
    requires !HasRoom(s.socket.outbox) && s.controller.relay != on
    ensures ControlRelay(s, on).controller.relay == on && ControlRelay(s, on).socket.logged
    ensures LastPower(Items(ControlRelay(s, on).socket.outbox)) == Some(!on)
  {
    ReportArrivesIff(s.socket, on, Off, NO_TIME);
  }

  lemma {:induction false} RunAppends(s: Lamp, a: seq<Event>, b: seq<Event>)
    ensures Run(s, a + b) == Run(Run(s, a), b)
    decreases |a|
  {
    if a == [] {
      assert a + b == b;
    } else {
      assert (a + b)[1..] == a[1..] + b;
      RunAppends(Step(s, a[0]), a[1..], b);
    }
  }

  lemma RunTwo(s: Lamp, a: Event, b: Event)
    ensures Run(s, [a, b]) == Step(Step(s, a), b)
  {
    assert [a, b][1..] == [b] && [b][1..] == [];
    assert Run(s, [a, b]) == Run(Step(s, a), [b]);
    assert Run(Step(s, a), [b]) == Run(Step(Step(s, a), b), []);
  }

  // The lamp is dark, the device is logged in and every report so far was accepted.
  ghost predicate DarkSession(s: Lamp) {
    && s.socket.connected && s.socket.registered && s.socket.logged && !s.controller.relay
    && s.socket.outbox.lost == {} && s.socket.outbox.answers == []
    && PowerAgrees(s) && OutboxAgrees(s.socket)
  }

  const SIGN_ON: seq<Event> :=
    [SocketStep(true, 0), Connected] + [Received(RegisterResponse(true, true)), Received(LoginResponse(true))]

  lemma SignOn(blob: Option<StorageData>)
    ensures DarkSession(Run(Boot(blob), SIGN_ON))
  {
    var b := Boot(blob);
    var c := Step(Step(b, SocketStep(true, 0)), Connected);
    var r := Step(c, Received(RegisterResponse(true, true)));
    var l := Step(r, Received(LoginResponse(true)));
    RunAppends(b, [SocketStep(true, 0), Connected], [Received(RegisterResponse(true, true)), Received(LoginResponse(true))]);
    RunTwo(b, SocketStep(true, 0), Connected);
    RunTwo(c, Received(RegisterResponse(true, true)), Received(LoginResponse(true)));
    assert b.socket.loop.pc == AtPrepare && !b.socket.connected && !b.controller.relay;
    assert r.socket.connected && r.socket.registered && r.socket.outbox.answers == [] && r.socket.outbox.lost == {};
    assert PowerAgrees(r) && !r.controller.relay;
    LoginEstablishesOutbox(r.socket);
    StepLosesNothing(r, Received(LoginResponse(true)));
  }

  // The screen's buttons pressed n times in turn while the websocket loop does not get on.
  function Presses(n: nat): seq<Event> {
    if n == 0 then [] else [ScreenManual(true), ScreenManual(false)] + Presses(n - 1)
  }

  lemma PressQueues(s: Lamp, on: bool)
    requires s.socket.logged && s.socket.outbox.answers == [] && s.socket.outbox.lost == {}
    requires PowerAgrees(s) && OutboxAgrees(s.socket) && s.controller.relay != on
    ensures var t := Step(s, ScreenManual(on));
            && |t.socket.outbox.queue| == |s.socket.outbox.queue| + 1 && t.controller.relay == on
            && t.socket.outbox.answers == [] && t.socket.outbox.lost == {} && PowerAgrees(t) && OutboxAgrees(t.socket)
            && t.socket.logged && t.socket.connected == s.socket.connected && t.socket.registered == s.socket.registered
  {
    ControlRelayKeepsOutbox(s, on);
    ControlRelayKeepsPower(s, on);
  }

  lemma PressTwice(s: Lamp) returns (t: Lamp)
    requires DarkSession(s)
    ensures t == Step(Step(s, ScreenManual(true)), ScreenManual(false))
    ensures DarkSession(t) && |t.socket.outbox.queue| == |s.socket.outbox.queue| + 2
  {
    t := Step(Step(s, ScreenManual(true)), ScreenManual(false));
    PressQueues(s, true);
    PressQueues(Step(s, ScreenManual(true)), false);
  }

  lemma {:induction false} PressesFill(s: Lamp, n: nat)
    requires DarkSession(s)
    ensures DarkSession(Run(s, Presses(n)))
    ensures |Run(s, Presses(n)).socket.outbox.queue| == |s.socket.outbox.queue| + 2 * n
    decreases n
  {
    if n > 0 {
      var t := PressTwice(s);
      RunAppends(s, [ScreenManual(true), ScreenManual(false)], Presses(n - 1));
      RunTwo(s, ScreenManual(true), ScreenManual(false));
      PressesFill(t, n - 1);
    }
  }

  // From every flash contents and for every size of the ring: the device signs on, fills
  // the ring and is refused; the lamp is lit and the server holds it dark.
  lemma FullRingMisleads(blob: Option<StorageData>, size: nat) returns (es: seq<Event>)
    ensures var t := Run(Boot(blob), es);
            && t.socket.connected && t.socket.registered && t.socket.logged && |t.socket.outbox.queue| >= size
            && t.controller.relay && LastPower(Items(t.socket.outbox)) == Some(false)
  {
    var s := Run(Boot(blob), SIGN_ON);
    var f := Run(s, Presses(size));
    var last := [RingAnswers([false]), ScreenManual(true)];
    es := SIGN_ON + (Presses(size) + last);
    RunAppends(Boot(blob), SIGN_ON, Presses(size) + last);
    RunAppends(s, Presses(size), last);
    RunTwo(f, RingAnswers([false]), ScreenManual(true));
    SignOn(blob);
    PressesFill(s, size);
    ButtonWhileFull(f);
  }

  lemma ButtonWhileFull(s: Lamp)
    requires DarkSession(s)
    ensures var t := Step(Step(s, RingAnswers([false])), ScreenManual(true));
            && t.socket.connected && t.socket.registered && t.socket.logged
            && t.socket.outbox.queue == s.socket.outbox.queue
            && t.controller.relay && LastPower(Items(t.socket.outbox)) == Some(false)
  {
    var f := Step(s, RingAnswers([false]));
    assert !HasRoom(f.socket.outbox) && Items(f.socket.outbox) == Items(s.socket.outbox);
    DroppedChangeMisleads(f, true);
  }

  lemma SendKeepsOutbox(o: Outbox)
    ensures SendOldest(o).sent + SendOldest(o).queue == o.sent + o.queue
  {
  }

  lemma HandTellsNothing(w: Socket, item: Item)
    requires !item.IsReport()
    ensures PowerTold(Hand(w.outbox, item), w.power) <==> PowerTold(w.outbox, w.power)
    ensures ModeTold(Hand(w.outbox, item), w.mode) <==> ModeTold(w.outbox, w.mode)
    ensures TimeTold(Hand(w.outbox, item), w.time) <==> TimeTold(w.outbox, w.time)
  {
    RequestsDoNotTell(w.outbox.sent, w.outbox.queue, item);
  }

  lemma TaskKeepsOutbox(w: Socket, network: bool, tick: int)
    requires OutboxAgrees(w)
    ensures OutboxAgrees(TaskStep(w, network, tick))
  {
    match w.loop.pc
    case AtPrepare => HandTellsNothing(w, StartItem);
    case AtRegister => HandTellsNothing(w, RegisterItem(tick));
    case AtLogin => HandTellsNothing(w, LoginItem(tick));
    case AtSend => SendKeepsOutbox(w.outbox);
  }

  lemma ControlRelayKeepsOutbox(s: Lamp, on: bool)
    requires OutboxAgrees(s.socket)
    ensures OutboxAgrees(ControlRelay(s, on).socket)
  {
    UpdatesKeepOutbox(s.socket, on, Off, NO_TIME);
  }

  lemma ChangeModeKeepsOutbox(s: Lamp, mode: Mode)
    requires OutboxAgrees(s.socket)
    ensures OutboxAgrees(ChangeMode(s, mode).socket)
  {
    var told := s.(screen := s.screen.(mode := mode), schedule := s.schedule.(mode := mode));
    ControlRelayKeepsOutbox(told, false);
    var off := if mode == Off then ControlRelay(told, false) else told;
    UpdatesKeepOutbox(off.socket, false, mode, NO_TIME);
  }

  lemma ReceiveKeepsOutbox(s: Lamp, msg: Message)
    requires OutboxAgrees(s.socket)
    ensures OutboxAgrees(Receive(s, msg).socket)
  {
    match msg
    case LoginResponse(ok) => LoginEstablishesOutbox(s.socket);
    case PowerControl(on) =>
      ChangeModeKeepsOutbox(s, Manual);
      ControlRelayKeepsOutbox(ForceManual(s, false), on);
    case SetActiveTime(time, saved) => UpdatesKeepOutbox(s.socket, false, Off, time);
    case Release => ChangeModeKeepsOutbox(s, s.controller.mode);
    case _ =>
  }

  lemma StepKeepsOutbox(s: Lamp, e: Event)
    requires OutboxAgrees(s.socket)
    ensures OutboxAgrees(Step(s, e).socket)
  {
    match e
    case SwitchPoll(manualPin, autoPin) =>
      var now := SwitchMode(manualPin, autoPin);
      ChangeModeKeepsOutbox(s.(controller := s.controller.(seen := now, mode := now)), now);
    case ScheduleTick(hour, minute, second) =>
      ControlRelayKeepsOutbox(s, Active(StartMinute(s.schedule), EndMinute(s.schedule), hour * 60 + minute));
    case Received(msg) => ReceiveKeepsOutbox(s, msg);
    case SocketStep(network, tick) => TaskKeepsOutbox(s.socket, network, tick);
    case ScreenManual(on) => ControlRelayKeepsOutbox(s, on);
    case ScreenTime(time, saved) => UpdatesKeepOutbox(s.socket, false, Off, time);
    case _ =>
  }

  // ----- what a sending round has observed -----

  predicate ObservedInOrder(l: Loop) {
    (l.pc != AtPrepare ==> l.sawConnected) && (l.pc == AtSend ==> l.sawLogged)
  }

  // What the websocket loop alone changes, and a queue that only grows.
  predicate TaskUntouched(w: Socket, t: Socket) {
    t.loop == w.loop && t.started == w.started && t.outbox.sent == w.outbox.sent && w.outbox.queue <= t.outbox.queue
  }

  lemma UpdatesLeaveTask(w: Socket, power: bool, mode: Mode, time: ActiveTime)
    ensures TaskUntouched(w, UpdatePower(w, power))
    ensures TaskUntouched(w, UpdateMode(w, mode))
    ensures TaskUntouched(w, UpdateTime(w, time))
  {
  }

  lemma LoginLeavesTask(w: Socket)
    ensures TaskUntouched(w, LoggedIn(w))
  {
  }

  lemma ControlRelayLeavesTask(s: Lamp, on: bool)
    ensures TaskUntouched(s.socket, ControlRelay(s, on).socket)
  {
  }

  lemma ChangeModeLeavesTask(s: Lamp, mode: Mode)
    ensures TaskUntouched(s.socket, ChangeMode(s, mode).socket)
  {
  }

  lemma ReceiveLeavesTask(s: Lamp, msg: Message)
    ensures TaskUntouched(s.socket, Receive(s, msg).socket)
  {
    match msg
    case LoginResponse(ok) => LoginLeavesTask(s.socket);
    case PowerControl(on) =>
      ChangeModeLeavesTask(s, Manual);
      ControlRelayLeavesTask(ForceManual(s, false), on);
    case SetActiveTime(time, saved) => UpdatesLeaveTask(s.socket, false, Off, time);
    case Release => ChangeModeLeavesTask(s, s.controller.mode);
    case _ =>
  }

  predicate Restarts(s: Lamp, e: Event) {
    e == Restart || (e.ScheduleTick? && ScheduleRuns(s.schedule) && RestartsAt(e.hour, e.minute, e.second))
  }

  lemma OnlyTaskTouchesTask(s: Lamp, e: Event)
    requires !e.SocketStep? && !Restarts(s, e)
    ensures TaskUntouched(s.socket, Step(s, e).socket)
  {
    match e
    case SwitchPoll(manualPin, autoPin) =>
      var now := SwitchMode(manualPin, autoPin);
      ChangeModeLeavesTask(s.(controller := s.controller.(seen := now, mode := now)), now);
    case ScheduleTick(hour, minute, second) =>
      ControlRelayLeavesTask(s, Active(StartMinute(s.schedule), EndMinute(s.schedule), hour * 60 + minute));
    case Received(msg) => ReceiveLeavesTask(s, msg);
    case ScreenManual(on) => ControlRelayLeavesTask(s, on);
    case ScreenTime(time, saved) => UpdatesLeaveTask(s.socket, false, Off, time);
    case _ =>
  }

  lemma StepKeepsObserved(s: Lamp, e: Event)
    requires ObservedInOrder(s.socket.loop)
    ensures ObservedInOrder(Step(s, e).socket.loop)
  {
    if Restarts(s, e) {
      assert Step(s, e) == Boot(s.storage.blob);
    } else if !e.SocketStep? {
      OnlyTaskTouchesTask(s, e);
    }
  }

  // A queued item leaves, restarts apart, only in a round of the websocket loop that found the
  // session connected and logged in; it then is the next item sent.
  lemma ItemsLeaveWhenLoggedIn(s: Lamp, e: Event)
    requires ObservedInOrder(s.socket.loop) && !Restarts(s, e)
    requires !(s.socket.outbox.queue <= Step(s, e).socket.outbox.queue)
    ensures e.SocketStep? && s.socket.loop.sawConnected && s.socket.loop.sawLogged
    ensures Step(s, e).socket.outbox.sent == s.socket.outbox.sent + [s.socket.outbox.queue[0]]
    ensures Step(s, e).socket.outbox.queue == s.socket.outbox.queue[1..]
  {
    if !e.SocketStep? {
      OnlyTaskTouchesTask(s, e);
    }
  }

  // ----- the screen's connection state -----

  // The screen shows the device online exactly while it is logged in.
  predicate OnlineAgrees(s: Lamp) {
    s.screen.online == s.socket.logged
  }

  lemma ChangeModeKeepsOnline(s: Lamp, mode: Mode)
    requires OnlineAgrees(s)
    ensures OnlineAgrees(ChangeMode(s, mode))
  {
  }

  lemma ReceiveKeepsOnline(s: Lamp, msg: Message)
    requires OnlineAgrees(s)
    ensures OnlineAgrees(Receive(s, msg))
  {
  }

  lemma StepKeepsOnline(s: Lamp, e: Event)
    requires OnlineAgrees(s)
    ensures OnlineAgrees(Step(s, e))
  {
    match e
    case SwitchPoll(manualPin, autoPin) =>
      var now := SwitchMode(manualPin, autoPin);
      ChangeModeKeepsOnline(s.(controller := s.controller.(seen := now, mode := now)), now);
    case Received(msg) => ReceiveKeepsOnline(s, msg);
    case SocketStep(network, tick) => TaskKeepsCopies(s.socket, network, tick);
    case _ =>
  }

  // ----- every run -----

  ghost predicate Consistent(s: Lamp) {
    && ModesAgree(s) && PowerAgrees(s) && TimesAgree(s) && OnlineAgrees(s)
    && OutboxAgrees(s.socket) && ObservedInOrder(s.socket.loop)
  }

  lemma StepKeepsConsistent(s: Lamp, e: Event)
    requires Consistent(s)
    ensures Consistent(Step(s, e))
  {
    StepKeepsModes(s, e);
    StepKeepsPower(s, e);
    StepKeepsTimes(s, e);
    StepKeepsOnline(s, e);
    StepKeepsOutbox(s, e);
    StepKeepsObserved(s, e);
  }

  lemma {:induction false} RunKeepsConsistent(s: Lamp, es: seq<Event>)
    requires Consistent(s)
    ensures Consistent(Run(s, es))
    decreases |es|
  {
    if es != [] {
      StepKeepsConsistent(s, es[0]);
      RunKeepsConsistent(Step(s, es[0]), es[1..]);
    }
  }

  // From any flash contents, after any events, restarts included, all copies agree.
  lemma EveryRunIsConsistent(blob: Option<StorageData>, es: seq<Event>)
    ensures Consistent(Run(Boot(blob), es))
  {
    RunKeepsConsistent(Boot(blob), es);
  }

  // ----- runs on which the outgoing ring always has room -----

  predicate Roomy(answers: seq<bool>) {
    forall i :: 0 <= i < |answers| ==> answers[i]
  }

  predicate NothingLost(o: Outbox) {
    o.lost == {} && Roomy(o.answers)
  }

  lemma EnqueueLosesNothing(o: Outbox, kind: Kind, item: Report)
    requires NothingLost(o)
    ensures NothingLost(Enqueue(o, kind, item))
  {
  }

  lemma UpdatesLoseNothing(w: Socket, power: bool, mode: Mode, time: ActiveTime)
    requires NothingLost(w.outbox)
    ensures NothingLost(UpdatePower(w, power).outbox)
    ensures NothingLost(UpdateMode(w, mode).outbox)
    ensures NothingLost(UpdateTime(w, time).outbox)
  {
    EnqueueLosesNothing(w.outbox, PowerKind, PowerItem(power));
    EnqueueLosesNothing(w.outbox, ModeKind, ModeItem(mode));
    EnqueueLosesNothing(w.outbox, TimeKind, TimeItem(time));
  }

  lemma ChangeModeLosesNothing(s: Lamp, mode: Mode)
    requires NothingLost(s.socket.outbox)
    ensures NothingLost(ChangeMode(s, mode).socket.outbox)
  {
    UpdatesLoseNothing(s.socket, false, mode, NO_TIME);
    UpdatesLoseNothing(UpdatePower(s.socket, false), false, mode, NO_TIME);
  }

  lemma ReceiveLosesNothing(s: Lamp, msg: Message)
    requires NothingLost(s.socket.outbox)
    ensures NothingLost(Receive(s, msg).socket.outbox)
  {
    match msg
    case LoginResponse(ok) =>
      var w := s.socket;
      var p := Enqueue(w.outbox, PowerKind, PowerItem(w.power));
      EnqueueLosesNothing(w.outbox, PowerKind, PowerItem(w.power));
      EnqueueLosesNothing(p, ModeKind, ModeItem(w.mode));
      EnqueueLosesNothing(Enqueue(p, ModeKind, ModeItem(w.mode)), TimeKind, TimeItem(w.time));
    case PowerControl(on) =>
      ChangeModeLosesNothing(s, Manual);
      UpdatesLoseNothing(ForceManual(s, false).socket, on, Off, NO_TIME);
    case SetActiveTime(time, saved) => UpdatesLoseNothing(s.socket, false, Off, time);
    case Release => ChangeModeLosesNothing(s, s.controller.mode);
    case _ =>
  }

  lemma TaskLosesNothing(w: Socket, network: bool, tick: int)
    requires NothingLost(w.outbox)
    ensures NothingLost(TaskStep(w, network, tick).outbox)
  {
  }

  lemma StepLosesNothing(s: Lamp, e: Event)
    requires NothingLost(s.socket.outbox) && (e.RingAnswers? ==> Roomy(e.answers))
    ensures NothingLost(Step(s, e).socket.outbox)
  {
    match e
    case SwitchPoll(manualPin, autoPin) =>
      var now := SwitchMode(manualPin, autoPin);
      ChangeModeLosesNothing(s.(controller := s.controller.(seen := now, mode := now)), now);
    case ScheduleTick(hour, minute, second) =>
      UpdatesLoseNothing(s.socket, true, Off, NO_TIME);
      UpdatesLoseNothing(s.socket, false, Off, NO_TIME);
    case Received(msg) => ReceiveLosesNothing(s, msg);
    case SocketStep(network, tick) => TaskLosesNothing(s.socket, network, tick);
    case ScreenManual(on) => UpdatesLoseNothing(s.socket, on, Off, NO_TIME);
    case ScreenTime(time, saved) => UpdatesLoseNothing(s.socket, false, Off, time);
    case _ =>
  }

  predicate AlwaysRoom(es: seq<Event>) {
    forall i :: 0 <= i < |es| ==> (es[i].RingAnswers? ==> Roomy(es[i].answers))
  }

  lemma {:induction false} RunLosesNothing(s: Lamp, es: seq<Event>)
    requires NothingLost(s.socket.outbox) && AlwaysRoom(es)
    ensures NothingLost(Run(s, es).socket.outbox)
    decreases |es|
  {
    if es != [] {
      StepLosesNothing(s, es[0]);
      RunLosesNothing(Step(s, es[0]), es[1..]);
    }
  }

  // If no enqueue ever fails, then in every reachable state that is logged in the last
  // power, mode and active-time reports are the cached values.
  lemma EveryRunTellsTheServer(blob: Option<StorageData>, es: seq<Event>)
    requires AlwaysRoom(es) && Run(Boot(blob), es).socket.logged
    ensures LastPower(Run(Boot(blob), es).socket.outbox.sent + Run(Boot(blob), es).socket.outbox.queue)
            == Some(Run(Boot(blob), es).controller.relay)
    ensures LastMode(Run(Boot(blob), es).socket.outbox.sent + Run(Boot(blob), es).socket.outbox.queue)
            == Some(Run(Boot(blob), es).schedule.mode)
    ensures LastTime(Run(Boot(blob), es).socket.outbox.sent + Run(Boot(blob), es).socket.outbox.queue)
            == Some(Run(Boot(blob), es).storage.ram.time)
  {
    EveryRunIsConsistent(blob, es);
    RunLosesNothing(Boot(blob), es);
  }

  predicate AllSaved(es: seq<Event>) {
    forall i :: 0 <= i < |es| ==> Saved(es[i])
  }

  lemma {:induction false} RunKeepsFlash(s: Lamp, es: seq<Event>)
    requires TimesAgree(s) && FlashAgrees(s) && AllSaved(es)
    ensures FlashAgrees(Run(s, es))
    decreases |es|
  {
    if es != [] {
      StepKeepsTimes(s, es[0]);
      RunKeepsFlash(Step(s, es[0]), es[1..]);
    }
  }

  // If every save succeeds, the flash agrees with all the copies after every event.
  lemma EveryRunKeepsFlash(blob: Option<StorageData>, es: seq<Event>)
    requires AllSaved(es)
    ensures FlashAgrees(Run(Boot(blob), es)) && TimesAgree(Run(Boot(blob), es))
  {
    RunKeepsFlash(Boot(blob), es);
    EveryRunIsConsistent(blob, es);
  }
}
