/** The firmware modules as objects. `event_callback` is re-entered from the operations
    it calls: changing the mode may switch the relay, and switching the relay reports the
    new power state. Every operation is proved to have exactly the effect that LampModel
    states without re-entrance. */
module LampFirmware {
  import opened Options
  import opened MachineIntegers
  import opened LampModel

  // app_controller.c
  class AppController {
    var seen: Mode
    var mode: Mode
    var relayState: bool
    var pin1: bool
    var pin2: bool

    ghost function State(): Controller
      reads this
    {
      Controller(seen, mode, relayState, pin1, pin2)
    }

    constructor ()
      ensures State() == Controller(Off, Off, false, false, false)
    {
      seen, mode, relayState, pin1, pin2 := Off, Off, false, false, false;
    }

    method SetRelay(on: bool)
      modifies this
      ensures State() == old(State()).(relay := on, pin1 := on, pin2 := on)
    {
      relayState := on;
      pin1 := relayState;
      pin2 := relayState;
    }

    method SetSwitch(now: Mode)
      modifies this
      ensures State() == old(State()).(seen := now, mode := now)
    {
      seen := now;
      mode := seen;
    }
  }

  // app_schedule.c
  class AppSchedule {
    var mode: Mode
    var start: Alarm
    var end: Alarm

    ghost function State(): Schedule
      reads this
    {
      Schedule(mode, start, end)
    }

    constructor ()
      ensures State() == Schedule(Off, Alarm(false, 0, 0), Alarm(false, 0, 0))
    {
      mode, start, end := Off, Alarm(false, 0, 0), Alarm(false, 0, 0);
    }

    method SetMode(m: Mode)
      modifies this
      ensures State() == old(State()).(mode := m)
    {
      mode := m;
    }

    method Runs() returns (runs: bool)
      ensures runs <==> ScheduleRuns(State())
    {
      runs := mode == Auto && start.enable && end.enable;
    }

    // The window decision of _schedule_task.
    method Decide(check: int) returns (on: bool)
      ensures on <==> Active(StartMinute(State()), EndMinute(State()), check)
    {
      var first := start.hour * 60 + start.minute;
      var last := end.hour * 60 + end.minute;
      if first <= last {
        on := check >= first && check <= last;
      } else {
        on := check >= first || check <= last;
      }
    }

    // app_schedule_add_alarm
    method AddAlarm(hour: int, minute: int, isStart: bool)
      modifies this
      ensures State() == if isStart then old(State()).(start := Alarm(true, hour, minute))
                         else old(State()).(end := Alarm(true, hour, minute))
    {
      if isStart {
        start := Alarm(true, hour, minute);
      } else {
        end := Alarm(true, hour, minute);
      }
    }
  }

  // app_nextion.c
  class AppNextion {
    var mode: Mode
    var time: ActiveTime
    var online: bool

    ghost function State(): Screen
      reads this
    {
      Screen(mode, time, online)
    }

    constructor (initial: ActiveTime)
      ensures State() == Screen(Off, initial, false)
    {
      mode, time, online := Off, initial, false;
    }

    method SetMode(m: Mode)
      modifies this
      ensures State() == old(State()).(mode := m)
    {
      mode := m;
    }

    method SetActiveTime(t: ActiveTime)
      modifies this
      ensures State() == old(State()).(time := t)
    {
      time := t;
    }

    method SetConnectionState(isConnected: bool)
      modifies this
      ensures State() == old(State()).(online := isConnected)
    {
      online := isConnected;
    }
  }

  // app_storage.c; the flash is the last field.
  class AppStorage {
    var ram: StorageData
    var blob: Option<StorageData>

    ghost function State(): Storage
      reads this
    {
      Storage(ram, blob)
    }

    constructor (flash: Option<StorageData>)
      ensures State() == Storage(EMPTY, flash)
    {
      ram, blob := EMPTY, flash;
    }

    method LoadData()
      modifies this
      ensures State() == LoadStorage(old(blob))
    {
      ram := EMPTY;
      if blob == None {
        blob := Some(ram);
      } else {
        ram := blob.value;
      }
    }

    method SetData(data: StorageData)
      modifies this
      ensures State() == Storage(data, old(blob))
    {
      ram := data;
    }

    method SaveData(saved: bool)
      modifies this
      ensures State() == Storage(old(ram), if saved then Some(old(ram)) else old(blob))
    {
      if saved {
        blob := Some(ram);
      }
    }
  }

  // app_websocket.c
  class AppWebsocket {
    var connected: bool
    var started: bool
    var registered: bool
    var logged: bool
    var power: bool
    var mode: Mode
    var time: ActiveTime
    var queue: seq<Report>
    var sent: seq<Item>
    var answers: seq<bool>
    var lost: set<Kind>
    var lastRegister: int
    var lastLogin: int
    var pc: TaskPc
    var sawConnected: bool
    var sawLogged: bool

    ghost function State(): Socket
      reads this
    {
      Socket(connected, started, registered, logged, power, mode, time, Outgoing(),
             Loop(pc, sawConnected, sawLogged, lastRegister, lastLogin))
    }

    ghost function Outgoing(): Outbox
      reads this
    {
      Outbox(queue, sent, answers, lost)
    }

    constructor (initial: ActiveTime)
      ensures State() == FreshSocket(initial)
    {
      connected, started, registered, logged := false, false, false, false;
      power, mode, time := false, Off, initial;
      queue, sent, answers, lost := [], [], [], {};
      lastRegister, lastLogin := -REGISTER_TIMEOUT_MS, -LOGIN_TIMEOUT_MS;
      pc, sawConnected, sawLogged := AtPrepare, false, false;
    }

    method SetConnected(isConnected: bool)
      modifies this
      ensures State() == old(State()).(connected := isConnected, logged := false)
    {
      connected := isConnected;
      logged := false;
    }

    // xRingbufferSend on the outgoing ring.
    method Send(kind: Kind, item: Report)
      modifies this`queue, this`answers, this`lost
      ensures Outgoing() == Enqueue(old(Outgoing()), kind, item)
    {
      var ok := true;
      if answers != [] {
        ok := answers[0];
        answers := answers[1..];
      }
      if ok {
        queue := queue + [item];
        lost := lost - {kind};
      } else {
        lost := lost + {kind};
      }
    }

    method UpdatePowerState(on: bool)
      modifies this
      ensures State() == UpdatePower(old(State()), on)
    {
      power := on;
      if logged {
        Send(PowerKind, PowerItem(on));
      }
    }

    method UpdateModeTo(m: Mode)
      modifies this
      ensures State() == UpdateMode(old(State()), m)
    {
      mode := m;
      if logged {
        Send(ModeKind, ModeItem(m));
      }
    }

    method UpdateActiveTime(t: ActiveTime)
      modifies this
      ensures State() == UpdateTime(old(State()), t)
    {
      time := t;
      if logged {
        Send(TimeKind, TimeItem(t));
      }
    }

    method SetLogged()
      modifies this`logged
      ensures State() == old(State()).(logged := true)
    {
      logged := true;
    }

    method SetAnswers(coming: seq<bool>)
      modifies this`answers
      ensures Outgoing() == old(Outgoing()).(answers := coming)
    {
      answers := coming;
    }

    // After a login the cached values are reported.
    method ReportAll()
      modifies this`queue, this`answers, this`lost
      ensures State() == ReportCached(old(State()))
    {
      Send(PowerKind, PowerItem(power));
      Send(ModeKind, ModeItem(mode));
      Send(TimeKind, TimeItem(time));
    }

    // AWAIT after a failed call.
    method BeginAgain()
      modifies this`pc, this`sawConnected, this`sawLogged
      ensures pc == AtPrepare && !sawConnected && !sawLogged
    {
      pc, sawConnected, sawLogged := AtPrepare, false, false;
    }

    // _app_ws_prepare
    method Prepare(network: bool)
      modifies this
      ensures State() == PrepareStep(old(State()), network)
    {
      if network && connected {
        pc, sawConnected := AtRegister, true;
      } else {
        if network && !started {
          sent := sent + [StartItem];
          started := true;
        }
        BeginAgain();
      }
    }

    // _app_ws_register
    method Register(tick: int)
      modifies this
      ensures State() == RegisterStep(old(State()), tick)
    {
      if registered {
        pc := AtLogin;
      } else {
        if tick >= S32(lastRegister + REGISTER_TIMEOUT_MS) {
          lastRegister := S32(tick);
          sent := sent + [RegisterItem(tick)];
        }
        BeginAgain();
      }
    }

    // _app_ws_login
    method Login(tick: int)
      modifies this
      ensures State() == LoginStep(old(State()), tick)
    {
      if logged {
        pc, sawLogged := AtSend, true;
      } else {
        if tick >= S32(lastLogin + LOGIN_TIMEOUT_MS) {
          lastLogin := S32(tick);
          sent := sent + [LoginItem(tick)];
        }
        BeginAgain();
      }
    }

    // _app_ws_sending_data
    method SendData()
      modifies this
      ensures State() == SendStep(old(State()))
    {
      if queue != [] {
        sent := sent + [queue[0]];
        queue := queue[1..];
      }
      BeginAgain();
    }

    // One call inside the loop of _websocket_task.
    method RunTask(network: bool, tick: int)
      modifies this
      ensures State() == TaskStep(old(State()), network, tick)
    {
      match pc {
        case AtPrepare => Prepare(network);
        case AtRegister => Register(tick);
        case AtLogin => Login(tick);
        case AtSend => SendData();
      }
    }
  }

  // The events event_callback dispatches on; `saved` is the flash's answer to the save.
  datatype Callback =
    | OnConnected | OnDisconnected | OnOnline
    | OnControl(on: bool) | OnFree
    | OnSettingActiveTime(time: ActiveTime, saved: bool)
    | OnSetSchedule(time: ActiveTime, saved: bool)
    | OnManual(on: bool)
    | OnChangeMode(mode: Mode)
    | OnChangePower(on: bool)
    | OnTrigger(isStart: bool)

  // Callbacks are re-entered only with events of lower rank.
  function Rank(e: Callback): nat {
    match e
    case OnChangePower(_) => 0
    case OnChangeMode(_) => 2
    case OnManual(_) => 2
    case OnTrigger(_) => 2
    case _ => 4
  }

  function Dispatch(s: Lamp, e: Callback): Lamp {
    match e
    case OnConnected => s.(screen := s.screen.(online := false))
    case OnDisconnected => s.(screen := s.screen.(online := false))
    case OnOnline => s.(screen := s.screen.(online := true))
    case OnControl(on) => Control(s, on)
    case OnFree => ForceManual(s, true)
    case OnSettingActiveTime(time, saved) => SetTimeRemotely(s, time, saved)
    case OnSetSchedule(time, saved) =>
      s.(storage := Store(s.storage, StorageData(time, true, true), saved),
         schedule := SetAlarms(s.schedule, time),
         socket := UpdateTime(s.socket, time))
    case OnManual(on) => ControlRelay(s, on)
    case OnChangeMode(mode) => ChangeMode(s, mode)
    case OnChangePower(on) => s.(powerEvents := s.powerEvents + [on], socket := UpdatePower(s.socket, on))
    case OnTrigger(isStart) => ControlRelay(s, isStart)
  }

  method StartStorage(flash: Option<StorageData>) returns (g: AppStorage)
    ensures fresh(g) && g.State() == LoadStorage(flash)
  {
    g := new AppStorage(flash);
    g.LoadData();
  }

  method StartSchedule(data: StorageData) returns (c: AppSchedule)
    ensures fresh(c) && c.State() == BootSchedule(data)
  {
    c := new AppSchedule();
    if data.enableStart {
      c.AddAlarm(data.time.startHour, data.time.startMinute, true);
    }
    if data.enableEnd {
      c.AddAlarm(data.time.endHour, data.time.endMinute, false);
    }
  }

  method StartModules(flash: Option<StorageData>)
    returns (g: AppStorage, c: AppSchedule, w: AppWebsocket, n: AppNextion)
    ensures fresh({g, c, w, n}) && g.State() == LoadStorage(flash)
    ensures c.State() == Boot(flash).schedule && w.State() == Boot(flash).socket && n.State() == Boot(flash).screen
  {
    g := StartStorage(flash);
    w := new AppWebsocket(g.ram.time);
    n := new AppNextion(g.ram.time);
    c := StartSchedule(g.ram);
  }

  // app_main.c and the module operations that call back into it.
  class Firmware {
    var controller: AppController
    var schedule: AppSchedule
    var websocket: AppWebsocket
    var nextion: AppNextion
    var storage: AppStorage
    var powerEvents: seq<bool>

    ghost function Parts(): set<object>
      reads this
    {
      {this, controller, schedule, websocket, nextion, storage}
    }

    ghost function State(): Lamp
      reads Parts()
    {
      Lamp(controller.State(), schedule.State(), websocket.State(), nextion.State(), storage.State(), powerEvents)
    }

    // app_main up to its idle loop.
    constructor (flash: Option<StorageData>)
      ensures State() == Boot(flash)
      ensures fresh(Parts())
    {
      var g, c, w, n := StartModules(flash);
      var r := new AppController();
      controller, schedule, websocket, nextion, storage, powerEvents := r, c, w, n, g, [];
    }

    // app_controller_control_relay
    method ControlRelay(on: bool)
      modifies this`powerEvents, controller, schedule, websocket, nextion, storage
      ensures State() == LampModel.ControlRelay(old(State()), on)
      decreases 1
    {
      if controller.relayState == on {
        return;
      }
      controller.SetRelay(on);
      EventCallback(OnChangePower(on));
    }

    // app_controller_force_manual
    method ForceManual(release: bool)
      modifies this`powerEvents, controller, schedule, websocket, nextion, storage
      ensures State() == LampModel.ForceManual(old(State()), release)
      decreases 3
    {
      var mode := if !release then Manual else controller.mode;
      EventCallback(OnChangeMode(mode));
    }

    method StoreAndSchedule(time: ActiveTime, saved: bool)
      modifies storage, schedule
      ensures storage.State() == Store(old(storage.State()), StorageData(time, true, true), saved)
      ensures schedule.State() == SetAlarms(old(schedule.State()), time)
    {
      storage.SetData(StorageData(time, true, true));
      storage.SaveData(saved);
      schedule.AddAlarm(time.startHour, time.startMinute, true);
      schedule.AddAlarm(time.endHour, time.endMinute, false);
    }

    // The branches of event_callback that do more than forward.

    method OnModeChanged(mode: Mode)
      modifies this`powerEvents, controller, schedule, websocket, nextion, storage
      ensures State() == ChangeMode(old(State()), mode)
      decreases 2, 0
    {
      nextion.SetMode(mode);
      schedule.SetMode(mode);
      if mode == Off {
        ControlRelay(false);
      }
      websocket.UpdateModeTo(mode);
    }

    method OnRemoteControl(on: bool)
      modifies this`powerEvents, controller, schedule, websocket, nextion, storage
      ensures State() == Control(old(State()), on)
      decreases 4, 0
    {
      if controller.mode == Off {
        return;
      }
      ForceManual(false);
      ControlRelay(on);
    }

    method OnTimeFromServer(time: ActiveTime, saved: bool)
      modifies this`powerEvents, controller, schedule, websocket, nextion, storage
      ensures State() == SetTimeRemotely(old(State()), time, saved)
    {
      StoreAndSchedule(time, saved);
      nextion.SetActiveTime(time);
      websocket.UpdateActiveTime(time);
    }

    method OnTimeFromScreen(time: ActiveTime, saved: bool)
      modifies this`powerEvents, controller, schedule, websocket, nextion, storage
      ensures State() == Dispatch(old(State()), OnSetSchedule(time, saved))
    {
      StoreAndSchedule(time, saved);
      websocket.UpdateActiveTime(time);
    }

    method OnPowerChanged(on: bool)
      modifies this`powerEvents, controller, schedule, websocket, nextion, storage
      ensures State() == Dispatch(old(State()), OnChangePower(on))
    {
      powerEvents := powerEvents + [on];
      websocket.UpdatePowerState(on);
    }

    method EventCallback(e: Callback)
      modifies this`powerEvents, controller, schedule, websocket, nextion, storage
      ensures State() == Dispatch(old(State()), e)
      decreases Rank(e), 1
    {
      match e {
        case OnConnected => nextion.SetConnectionState(false);
        case OnDisconnected => nextion.SetConnectionState(false);
        case OnOnline => nextion.SetConnectionState(true);
        case OnControl(on) => OnRemoteControl(on);
        case OnFree => ForceManual(true);
        case OnSettingActiveTime(time, saved) => OnTimeFromServer(time, saved);
        case OnSetSchedule(time, saved) => OnTimeFromScreen(time, saved);
        case OnManual(on) => ControlRelay(on);
        case OnChangeMode(mode) => OnModeChanged(mode);
        case OnChangePower(on) => OnPowerChanged(on);
        case OnTrigger(isStart) => ControlRelay(isStart);
      }
    }

    // ----- the loops and handlers, one round or message at a time -----

    // _gpio_task
    method PollSwitch(manualPin: bool, autoPin: bool)
      modifies this`powerEvents, controller, schedule, websocket, nextion, storage
      ensures State() == Poll(old(State()), manualPin, autoPin)
    {
      var now := Off;
      if !autoPin && manualPin {
        now := Auto;
      } else if autoPin && !manualPin {
        now := Manual;
      }
      if now != controller.seen {
        controller.SetSwitch(now);
        EventCallback(OnChangeMode(now));
      }
    }

    // The @up_time command in _nextion_read_task.
    method ReadScreenTime(time: ActiveTime, saved: bool)
      modifies this`powerEvents, controller, schedule, websocket, nextion, storage
      ensures State() == SetTimeOnScreen(old(State()), time, saved)
    {
      if time.startHour > 23 || time.startMinute > 59 || time.endHour > 23 || time.endMinute > 59 {
        return;
      }
      nextion.SetActiveTime(time);
      EventCallback(OnSetSchedule(time, saved));
    }

    // websocket_event_handler
    method ConnectionEvent(isConnected: bool)
      modifies this`powerEvents, controller, schedule, websocket, nextion, storage
      ensures State() == if isConnected then Connect(old(State())) else Disconnect(old(State()))
    {
      websocket.SetConnected(isConnected);
      if isConnected {
        EventCallback(OnConnected);
      } else {
        EventCallback(OnDisconnected);
      }
    }

    // _process_data
    method ProcessData(msg: Message)
      modifies this`powerEvents, controller, schedule, websocket, nextion, storage
      ensures State() == Receive(old(State()), msg)
    {
      match msg {
        case RegisterResponse(ok, hasId) =>
          if ok {
            websocket.registered := hasId;
          }
        case LoginResponse(ok) =>
          if ok {
            LoginSucceeded();
          }
        case PowerControl(on) => EventCallback(OnControl(on));
        case SetActiveTime(time, saved) => EventCallback(OnSettingActiveTime(time, saved));
        case Release => EventCallback(OnFree);
        case Other =>
      }
    }

    method LoginSucceeded()
      modifies this`powerEvents, controller, schedule, websocket, nextion, storage
      ensures State() == Receive(old(State()), LoginResponse(true))
    {
      websocket.SetLogged();
      EventCallback(OnOnline);
      websocket.ReportAll();
    }

    // _schedule_task; a restart replaces every object by a new one.
    method RunSchedule(hour: int, minute: int, second: int)
      modifies Parts()
      ensures State() == Tick(old(State()), hour, minute, second)
      ensures fresh(Parts() - old(Parts()))
    {
      var runs := schedule.Runs();
      if !runs {
        return;
      }
      Trigger(hour * 60 + minute);
      var due := RestartDue(hour * 60 + minute, second);
      if due {
        RestartDevice();
      }
    }

    method Trigger(check: int)
      modifies this`powerEvents, controller, schedule, websocket, nextion, storage
      ensures State() == LampModel.ControlRelay(
                old(State()), Active(StartMinute(old(State()).schedule), EndMinute(old(State()).schedule), check))
    {
      var on := schedule.Decide(check);
      EventCallback(OnTrigger(on));
    }

    method RestartDue(check: int, second: int) returns (due: bool)
      ensures due <==> RESTART_SECOND <= check * 60 + second <= RESTART_SECOND + 2
    {
      due := check * 60 + second >= 12 * 60 * 60 && check * 60 + second <= 12 * 60 * 60 + 2;
    }

    // esp_restart: only the flash survives.
    method RestartDevice()
      modifies this
      ensures State() == Boot(old(storage.blob))
      ensures fresh(Parts() - {this})
    {
      var again := new Firmware(storage.blob);
      controller, schedule, websocket := again.controller, again.schedule, again.websocket;
      nextion, storage, powerEvents := again.nextion, again.storage, again.powerEvents;
    }

    method HandleSession(e: Event)
      requires e.Received? || e.Connected? || e.Disconnected? || e.SocketStep? || e.RingAnswers?
      modifies this`powerEvents, controller, schedule, websocket, nextion, storage
      ensures State() == Step(old(State()), e)
    {
      match e {
        case Received(msg) => ProcessData(msg);
        case Connected => ConnectionEvent(true);
        case Disconnected => ConnectionEvent(false);
        case SocketStep(network, tick) => websocket.RunTask(network, tick);
        case RingAnswers(answers) => websocket.SetAnswers(answers);
      }
    }

    // Every event the system reacts to.
    method Handle(e: Event)
      modifies Parts()
      ensures State() == Step(old(State()), e)
      ensures fresh(Parts() - old(Parts()))
    {
      match e {
        case SwitchPoll(manualPin, autoPin) => PollSwitch(manualPin, autoPin);
        case ScheduleTick(hour, minute, second) => RunSchedule(hour, minute, second);
        case ScreenManual(on) => EventCallback(OnManual(on));
        case ScreenTime(time, saved) => ReadScreenTime(time, saved);
        case Restart => RestartDevice();
        case _ => HandleSession(e);
      }
    }
  }
}
