/** The lamp controller firmware as one event system: the state of the controller, the
    schedule, the websocket session, the screen and the storage, and what one event of
    `event_callback` or one round of a loop does to it. Every module holds its own
    copy of mode, power and active time. */
module LampModel {
  import opened Options
  import opened MachineIntegers

  datatype Mode = Off | Auto | Manual

  datatype ActiveTime = ActiveTime(startHour: int, startMinute: int, endHour: int, endMinute: int)

  // app_storage_data_t
  datatype StorageData = StorageData(time: ActiveTime, enableStart: bool, enableEnd: bool)

  // The part of app_schedule_job_t that is read.
  datatype Alarm = Alarm(enable: bool, hour: int, minute: int)

  // What is handed to the websocket client: reports, requests with the tick they are made
  // at, and the order to start.
  datatype Item =
    | PowerItem(on: bool) | ModeItem(mode: Mode) | TimeItem(time: ActiveTime)
    | RegisterItem(tick: int) | LoginItem(tick: int) | StartItem
  {
    predicate IsReport() { PowerItem? || ModeItem? || TimeItem? }
  }

  type Report = i: Item | i.IsReport() witness PowerItem(false)

  datatype Kind = PowerKind | ModeKind | TimeKind

  // Which call _websocket_task makes next in its loop.
  datatype TaskPc = AtPrepare | AtRegister | AtLogin | AtSend

  // `seen` is the position of the switch that _gpio_task last acted on.
  datatype Controller = Controller(seen: Mode, mode: Mode, relay: bool, pin1: bool, pin2: bool)

  datatype Schedule = Schedule(mode: Mode, start: Alarm, end: Alarm)

  // `sent` is everything handed to the client so far; `answers` are the coming answers of
  // xRingbufferSend (true once exhausted) and `lost` the kinds of report whose latest one
  // found the ring full.
  datatype Outbox = Outbox(queue: seq<Report>, sent: seq<Item>, answers: seq<bool>, lost: set<Kind>)

  // Where _websocket_task is in its loop and what this round has observed. The ticks of
  // the last requests are 32-bit longs, while the clock they are read from has 64 bits.
  datatype Loop = Loop(pc: TaskPc, sawConnected: bool, sawLogged: bool, lastRegister: int, lastLogin: int)

  datatype Socket = Socket(
    connected: bool, started: bool, registered: bool, logged: bool,
    power: bool, mode: Mode, time: ActiveTime, outbox: Outbox, loop: Loop)

  datatype Screen = Screen(mode: Mode, time: ActiveTime, online: bool)

  // `blob` is what the flash holds under the key, if anything of the right size.
  datatype Storage = Storage(ram: StorageData, blob: Option<StorageData>)

  // `powerEvents` are the CHANGE_POWER callbacks since start-up.
  datatype Lamp = Lamp(
    controller: Controller, schedule: Schedule, socket: Socket, screen: Screen, storage: Storage,
    powerEvents: seq<bool>)

  const REGISTER_TIMEOUT_MS: int := 30000
  const LOGIN_TIMEOUT_MS: int := 30000

  // ----- the websocket session -----

  predicate HasRoom(o: Outbox) {
    o.answers == [] || o.answers[0]
  }

  // A report for the server; a full ring drops it.
  function Enqueue(o: Outbox, kind: Kind, item: Report): Outbox {
    Outbox(if HasRoom(o) then o.queue + [item] else o.queue,
           o.sent,
           if o.answers == [] then [] else o.answers[1..],
           if HasRoom(o) then o.lost - {kind} else o.lost + {kind})
  }

  function UpdatePower(w: Socket, on: bool): Socket {
    w.(power := on, outbox := if w.logged then Enqueue(w.outbox, PowerKind, PowerItem(on)) else w.outbox)
  }

  function UpdateMode(w: Socket, mode: Mode): Socket {
    w.(mode := mode, outbox := if w.logged then Enqueue(w.outbox, ModeKind, ModeItem(mode)) else w.outbox)
  }

  function UpdateTime(w: Socket, time: ActiveTime): Socket {
    w.(time := time, outbox := if w.logged then Enqueue(w.outbox, TimeKind, TimeItem(time)) else w.outbox)
  }

  // A successful login reports the cached values.
  function ReportCached(w: Socket): Socket {
    var o := Enqueue(w.outbox, PowerKind, PowerItem(w.power));
    w.(outbox := Enqueue(Enqueue(o, ModeKind, ModeItem(w.mode)), TimeKind, TimeItem(w.time)))
  }

  function LoggedIn(w: Socket): Socket {
    ReportCached(w.(logged := true))
  }

  // The calls of the websocket loop; a failed call starts the loop over.
  function StartOver(l: Loop): Loop {
    l.(pc := AtPrepare, sawConnected := false, sawLogged := false)
  }

  function Hand(o: Outbox, item: Item): Outbox {
    o.(sent := o.sent + [item])
  }

  function PrepareStep(w: Socket, network: bool): Socket {
    if network && w.connected then w.(loop := w.loop.(pc := AtRegister, sawConnected := true))
    else if network && !w.started then w.(loop := StartOver(w.loop), started := true, outbox := Hand(w.outbox, StartItem))
    else w.(loop := StartOver(w.loop))
  }

  function RegisterStep(w: Socket, tick: int): Socket {
    if w.registered then w.(loop := w.loop.(pc := AtLogin))
    else if tick < S32(w.loop.lastRegister + REGISTER_TIMEOUT_MS) then w.(loop := StartOver(w.loop))
    else w.(loop := StartOver(w.loop).(lastRegister := S32(tick)), outbox := Hand(w.outbox, RegisterItem(tick)))
  }

  function LoginStep(w: Socket, tick: int): Socket {
    if w.logged then w.(loop := w.loop.(pc := AtSend, sawLogged := true))
    else if tick < S32(w.loop.lastLogin + LOGIN_TIMEOUT_MS) then w.(loop := StartOver(w.loop))
    else w.(loop := StartOver(w.loop).(lastLogin := S32(tick)), outbox := Hand(w.outbox, LoginItem(tick)))
  }

  function SendOldest(o: Outbox): Outbox {
    if o.queue == [] then o else Hand(o, o.queue[0]).(queue := o.queue[1..])
  }

  function SendStep(w: Socket): Socket {
    w.(loop := StartOver(w.loop), outbox := SendOldest(w.outbox))
  }

  function TaskStep(w: Socket, network: bool, tick: int): Socket {
    match w.loop.pc
    case AtPrepare => PrepareStep(w, network)
    case AtRegister => RegisterStep(w, tick)
    case AtLogin => LoginStep(w, tick)
    case AtSend => SendStep(w)
  }

  // ----- events, without the re-entrant callbacks -----

  function ControlRelay(s: Lamp, on: bool): Lamp {
    if s.controller.relay == on then s
    else s.(controller := s.controller.(relay := on, pin1 := on, pin2 := on),
            powerEvents := s.powerEvents + [on],
            socket := UpdatePower(s.socket, on))
  }

  function ChangeMode(s: Lamp, mode: Mode): Lamp {
    var told := s.(screen := s.screen.(mode := mode), schedule := s.schedule.(mode := mode));
    var off := if mode == Off then ControlRelay(told, false) else told;
    off.(socket := UpdateMode(off.socket, mode))
  }

  function ForceManual(s: Lamp, release: bool): Lamp {
    ChangeMode(s, if release then s.controller.mode else Manual)
  }

  // WEBSOCKET_ON_CONTROL
  function Control(s: Lamp, on: bool): Lamp {
    if s.controller.mode == Off then s else ControlRelay(ForceManual(s, false), on)
  }

  function SetAlarms(c: Schedule, time: ActiveTime): Schedule {
    c.(start := Alarm(true, time.startHour, time.startMinute), end := Alarm(true, time.endHour, time.endMinute))
  }

  // set_data followed by save_data; `saved` says whether the flash took it.
  function Store(g: Storage, data: StorageData, saved: bool): Storage {
    Storage(data, if saved then Some(data) else g.blob)
  }

  // WEBSOCKET_ON_SETTING_ACTIVE_TIME
  function SetTimeRemotely(s: Lamp, time: ActiveTime, saved: bool): Lamp {
    s.(storage := Store(s.storage, StorageData(time, true, true), saved),
       schedule := SetAlarms(s.schedule, time),
       screen := s.screen.(time := time),
       socket := UpdateTime(s.socket, time))
  }

  // The @up_time command of the screen, which refuses hours over 23 and minutes over 59.
  predicate ScreenAccepts(time: ActiveTime) {
    time.startHour <= 23 && time.startMinute <= 59 && time.endHour <= 23 && time.endMinute <= 59
  }

  function SetTimeOnScreen(s: Lamp, time: ActiveTime, saved: bool): Lamp {
    if ScreenAccepts(time) then
      s.(screen := s.screen.(time := time),
         storage := Store(s.storage, StorageData(time, true, true), saved),
         schedule := SetAlarms(s.schedule, time),
         socket := UpdateTime(s.socket, time))
    else s
  }

  // What the two switch inputs (pulled up, active low) stand for.
  function SwitchMode(manualPin: bool, autoPin: bool): Mode {
    if !autoPin && manualPin then Auto
    else if autoPin && !manualPin then Manual
    else Off
  }

  // One round of _gpio_task.
  function Poll(s: Lamp, manualPin: bool, autoPin: bool): Lamp {
    var now := SwitchMode(manualPin, autoPin);
    if now == s.controller.seen then s
    else ChangeMode(s.(controller := s.controller.(seen := now, mode := now)), now)
  }

  // ----- the schedule -----

  // The two-branch comparison of _schedule_task, in minutes of the day.
  predicate Active(start: int, end: int, now: int) {
    if start <= end then now >= start && now <= end else now >= start || now <= end
  }

  const RESTART_SECOND: int := 12 * 60 * 60

  predicate RestartsAt(hour: int, minute: int, second: int) {
    RESTART_SECOND <= (hour * 60 + minute) * 60 + second <= RESTART_SECOND + 2
  }

  predicate ScheduleRuns(c: Schedule) {
    c.mode == Auto && c.start.enable && c.end.enable
  }

  function StartMinute(c: Schedule): int { c.start.hour * 60 + c.start.minute }
  function EndMinute(c: Schedule): int { c.end.hour * 60 + c.end.minute }

  // One round of _schedule_task with a synchronised clock.
  function Tick(s: Lamp, hour: int, minute: int, second: int): Lamp {
    if !ScheduleRuns(s.schedule) then s
    else
      var on := Active(StartMinute(s.schedule), EndMinute(s.schedule), hour * 60 + minute);
      var switched := ControlRelay(s, on);
      if RestartsAt(hour, minute, second) then Boot(s.storage.blob) else switched
  }

  // ----- start-up -----

  const NO_TIME: ActiveTime := ActiveTime(0, 0, 0, 0)
  const EMPTY: StorageData := StorageData(NO_TIME, false, false)

  // A missing or ill-sized blob is replaced by zeros.
  function LoadStorage(blob: Option<StorageData>): Storage {
    match blob
    case None => Storage(EMPTY, Some(EMPTY))
    case Some(data) => Storage(data, blob)
  }

  // app_websocket_init
  function FreshSocket(time: ActiveTime): Socket {
    Socket(false, false, false, false, false, Off, time, Outbox([], [], [], {}),
           Loop(AtPrepare, false, false, -REGISTER_TIMEOUT_MS, -LOGIN_TIMEOUT_MS))
  }

  // The schedule after app_main has added the stored alarms.
  function BootSchedule(data: StorageData): Schedule {
    Schedule(Off,
             if data.enableStart then Alarm(true, data.time.startHour, data.time.startMinute) else Alarm(false, 0, 0),
             if data.enableEnd then Alarm(true, data.time.endHour, data.time.endMinute) else Alarm(false, 0, 0))
  }

  // app_main; fields the modules leave unset are taken as zero.
  function Boot(blob: Option<StorageData>): Lamp {
    var storage := LoadStorage(blob);
    var data := storage.ram;
    Lamp(Controller(Off, Off, false, false, false), BootSchedule(data), FreshSocket(data.time),
         Screen(Off, data.time, false), storage, [])
  }

  // ----- one step of the whole system -----

  // Messages of the server, as far as they matter.
  datatype Message =
    | RegisterResponse(ok: bool, hasId: bool) | LoginResponse(ok: bool)
    | PowerControl(on: bool) | SetActiveTime(time: ActiveTime, saved: bool) | Release | Other

  datatype Event =
    | SwitchPoll(manualPin: bool, autoPin: bool)
    | ScheduleTick(hour: int, minute: int, second: int)
    | Received(msg: Message)
    | Connected | Disconnected
    | SocketStep(network: bool, tick: int)
    | RingAnswers(answers: seq<bool>)
    | ScreenManual(on: bool)
    | ScreenTime(time: ActiveTime, saved: bool)
    | Restart

  function Connect(s: Lamp): Lamp {
    s.(socket := s.socket.(connected := true, logged := false), screen := s.screen.(online := false))
  }

  function Disconnect(s: Lamp): Lamp {
    s.(socket := s.socket.(connected := false, logged := false), screen := s.screen.(online := false))
  }

  function Receive(s: Lamp, msg: Message): Lamp {
    match msg
    case RegisterResponse(ok, hasId) => if ok then s.(socket := s.socket.(registered := hasId)) else s
    case LoginResponse(ok) =>
      if ok then s.(socket := LoggedIn(s.socket), screen := s.screen.(online := true)) else s
    case PowerControl(on) => Control(s, on)
    case SetActiveTime(time, saved) => SetTimeRemotely(s, time, saved)
    case Release => ForceManual(s, true)
    case Other => s
  }

  function Step(s: Lamp, e: Event): Lamp {
    match e
    case SwitchPoll(manualPin, autoPin) => Poll(s, manualPin, autoPin)
    case ScheduleTick(hour, minute, second) => Tick(s, hour, minute, second)
    case Received(msg) => Receive(s, msg)
    case Connected => Connect(s)
    case Disconnected => Disconnect(s)
    case SocketStep(network, tick) => s.(socket := TaskStep(s.socket, network, tick))
    case RingAnswers(answers) => s.(socket := s.socket.(outbox := s.socket.outbox.(answers := answers)))
    case ScreenManual(on) => ControlRelay(s, on)
    case ScreenTime(time, saved) => SetTimeOnScreen(s, time, saved)
    case Restart => Boot(s.storage.blob)
  }

  function Run(s: Lamp, es: seq<Event>): Lamp
    decreases |es|
  {
    if es == [] then s else Run(Step(s, es[0]), es[1..])
  }
}
