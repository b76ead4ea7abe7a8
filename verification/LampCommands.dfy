/** How long commands last: the relay while the switch is OFF, and a remote command under
    schedule ticks. */
module LampCommands {
  import opened Options
  import opened LampModel
  import opened LampRuns

  // ----- the relay while the switch is OFF -----

  // What an event orders the relay to while the switch is OFF.
  function OffCommand(e: Event): Option<bool> {
    match e
    case ScreenManual(on) => Some(on)
    case Received(msg) => if msg == Release then Some(false) else None
    case _ => None
  }

  function LastOffCommand(es: seq<Event>, relay: bool): bool
    decreases |es|
  {
    if es == [] then relay
    else LastOffCommand(es[1..], if OffCommand(es[0]).Some? then OffCommand(es[0]).value else relay)
  }

  // The switch reads `mode` whenever it is read, and the device is not restarted.
  predicate LeavesSwitch(e: Event, mode: Mode) {
    e != Restart && (e.SwitchPoll? ==> SwitchMode(e.manualPin, e.autoPin) == mode)
  }

  predicate AllLeaveSwitch(es: seq<Event>, mode: Mode) {
    forall i :: 0 <= i < |es| ==> LeavesSwitch(es[i], mode)
  }

  predicate SwitchedOff(s: Lamp) {
    ModesAgree(s) && s.controller.mode == Off
  }

  lemma ReceiveWhileOff(s: Lamp, msg: Message)
    requires SwitchedOff(s)
    ensures Receive(s, msg).controller.mode == Off
    ensures Receive(s, msg).controller.relay == if msg == Release then false else s.controller.relay
  {
  }

  lemma StepWhileOff(s: Lamp, e: Event)
    requires SwitchedOff(s) && LeavesSwitch(e, Off)
    ensures SwitchedOff(Step(s, e))
    ensures Step(s, e).controller.relay == if OffCommand(e).Some? then OffCommand(e).value else s.controller.relay
  {
    StepKeepsModes(s, e);
    match e
    case Received(msg) => ReceiveWhileOff(s, msg);
    case _ =>
  }

  lemma {:induction false} RunWhileOff(s: Lamp, es: seq<Event>)
    requires SwitchedOff(s) && AllLeaveSwitch(es, Off)
    ensures SwitchedOff(Run(s, es))
    ensures Run(s, es).controller.relay == LastOffCommand(es, s.controller.relay)
    decreases |es|
  {
    if es != [] {
      StepWhileOff(s, es[0]);
      RunWhileOff(Step(s, es[0]), es[1..]);
    }
  }

  // From the moment the switch goes OFF and for as long as it stays there, the relay is
  // on if and only if the screen switched it on by hand and nothing switched it off since.
  lemma RelayWhileSwitchOff(s: Lamp, manualPin: bool, autoPin: bool, es: seq<Event>)
    requires ModesAgree(s) && s.controller.mode != Off
    requires SwitchMode(manualPin, autoPin) == Off && AllLeaveSwitch(es, Off)
    ensures var t := Run(Poll(s, manualPin, autoPin), es);
            SwitchedOff(t) && (t.controller.relay <==> LastOffCommand(es, false))
  {
    StepKeepsModes(s, SwitchPoll(manualPin, autoPin));
    var t := Step(s, SwitchPoll(manualPin, autoPin));
    assert t == Poll(s, manualPin, autoPin);
    PollOffDarkens(s, manualPin, autoPin);
    RunWhileOff(t, es);
  }

  lemma PollOffDarkens(s: Lamp, manualPin: bool, autoPin: bool)
    requires ModesAgree(s) && s.controller.mode != Off && SwitchMode(manualPin, autoPin) == Off
    ensures Poll(s, manualPin, autoPin).controller.mode == Off && !Poll(s, manualPin, autoPin).controller.relay
  {
  }

  // ----- dark whenever OFF, over whole runs -----

  predicate DarkWhenOff(s: Lamp) {
    s.controller.mode == Off ==> !s.controller.relay
  }

  // The screen's manual button is not pressed while the switch is OFF.
  predicate NoManualOnWhileOff(s: Lamp, es: seq<Event>)
    decreases |es|
  {
    es == [] || (!(s.controller.mode == Off && es[0] == ScreenManual(true)) && NoManualOnWhileOff(Step(s, es[0]), es[1..]))
  }

  lemma StepKeepsDark(s: Lamp, e: Event)
    requires ModesAgree(s) && DarkWhenOff(s) && !(s.controller.mode == Off && e == ScreenManual(true))
    ensures DarkWhenOff(Step(s, e))
  {
  }

  // On every run on which the manual button is not pressed while the switch is OFF, the
  // relay is off whenever the switch is.
  lemma {:induction false} RunStaysDark(s: Lamp, es: seq<Event>)
    requires ModesAgree(s) && DarkWhenOff(s) && NoManualOnWhileOff(s, es)
    ensures DarkWhenOff(Run(s, es))
    decreases |es|
  {
    if es != [] {
      StepKeepsModes(s, es[0]);
      StepKeepsDark(s, es[0]);
      RunStaysDark(Step(s, es[0]), es[1..]);
    }
  }

  // A start-up before the switch has moved is dark in the same sense.
  lemma RelayAfterBoot(blob: Option<StorageData>, es: seq<Event>)
    requires AllLeaveSwitch(es, Off)
    ensures Run(Boot(blob), es).controller.relay <==> LastOffCommand(es, false)
  {
    RunWhileOff(Boot(blob), es);
  }

  // ----- an accepted remote command -----

  // Everybody has been told MANUAL, the relay obeys, the switch is where it was.
  predicate Held(s: Lamp, on: bool, switch: Mode) {
    && s.screen.mode == s.schedule.mode == s.socket.mode == Manual
    && s.controller.seen == s.controller.mode == switch
    && s.controller.relay == on
  }

  // Neither a release, nor another command, nor a movement of the switch.
  predicate NoOtherCommand(e: Event, switch: Mode) {
    && LeavesSwitch(e, switch) && !e.ScreenManual?
    && (e.Received? ==> e.msg != Release && !e.msg.PowerControl?)
  }

  predicate NoOtherCommands(es: seq<Event>, switch: Mode) {
    forall i :: 0 <= i < |es| ==> NoOtherCommand(es[i], switch)
  }

  lemma ControlHolds(s: Lamp, on: bool)
    requires ModesAgree(s) && s.controller.mode != Off
    ensures Held(Control(s, on), on, s.controller.mode)
  {
  }

  lemma StepKeepsHeld(s: Lamp, e: Event, on: bool, switch: Mode)
    requires Held(s, on, switch) && NoOtherCommand(e, switch)
    ensures Held(Step(s, e), on, switch)
  {
    match e
    case SocketStep(network, tick) => TaskKeepsCopies(s.socket, network, tick);
    case Received(msg) => ReceiveKeepsHeld(s, msg, on, switch);
    case _ =>
  }

  lemma ReceiveKeepsHeld(s: Lamp, msg: Message, on: bool, switch: Mode)
    requires Held(s, on, switch) && msg != Release && !msg.PowerControl?
    ensures Held(Receive(s, msg), on, switch)
  {
  }

  lemma {:induction false} RunKeepsHeld(s: Lamp, es: seq<Event>, on: bool, switch: Mode)
    requires Held(s, on, switch) && NoOtherCommands(es, switch)
    ensures Held(Run(s, es), on, switch)
    decreases |es|
  {
    if es != [] {
      StepKeepsHeld(s, es[0], on, switch);
      RunKeepsHeld(Step(s, es[0]), es[1..], on, switch);
    }
  }

  // A remote command accepted in any mode but OFF stays in force whatever the schedule,
  // the session and time updates do, until a release, another command, a movement of the
  // switch or a restart.
  lemma CommandStaysInForce(s: Lamp, on: bool, es: seq<Event>)
    requires ModesAgree(s) && s.controller.mode != Off && NoOtherCommands(es, s.controller.mode)
    ensures Held(Run(Control(s, on), es), on, s.controller.mode)
  {
    ControlHolds(s, on);
    RunKeepsHeld(Control(s, on), es, on, s.controller.mode);
  }

  // ----- a release -----

  // What the two inputs of the switch stand for: only one of them low is AUTO or MANUAL.
  lemma SwitchReads(manualPin: bool, autoPin: bool)
    ensures SwitchMode(manualPin, autoPin) == Auto <==> manualPin && !autoPin
    ensures SwitchMode(manualPin, autoPin) == Manual <==> !manualPin && autoPin
    ensures SwitchMode(manualPin, autoPin) == Off <==> manualPin == autoPin
  {
  }

  // A release gives the mode back to the switch, whatever was in force, and leaves the
  // relay alone unless the switch is OFF.
  lemma ReleaseGivesBack(s: Lamp)
    requires ModesAgree(s)
    ensures var t := Step(s, Received(Release));
            && t.screen.mode == t.schedule.mode == t.socket.mode == t.controller.mode == s.controller.mode
            && t.controller.relay == (s.controller.relay && s.controller.mode != Off)
  {
  }

  predicate Enabled(s: Lamp) {
    s.schedule.start.enable && s.schedule.end.enable
  }

  lemma StepKeepsEnabled(s: Lamp, e: Event, on: bool, switch: Mode)
    requires Held(s, on, switch) && NoOtherCommand(e, switch) && Enabled(s)
    ensures Enabled(Step(s, e))
  {
    match e
    case Received(msg) =>
    case _ =>
  }

  lemma {:induction false} RunKeepsEnabled(s: Lamp, es: seq<Event>, on: bool, switch: Mode)
    requires Held(s, on, switch) && NoOtherCommands(es, switch) && Enabled(s)
    ensures Enabled(Run(s, es))
    decreases |es|
  {
    if es != [] {
      StepKeepsHeld(s, es[0], on, switch);
      StepKeepsEnabled(s, es[0], on, switch);
      RunKeepsEnabled(Step(s, es[0]), es[1..], on, switch);
    }
  }

  // With the switch at AUTO and a window set, a command holds the relay until the release,
  // and the tick after it sets the relay by the window again.
  lemma ScheduleTakesOver(s: Lamp, on: bool, es: seq<Event>, hour: int, minute: int, second: int)
    requires ModesAgree(s) && s.controller.mode == Auto && Enabled(s) && NoOtherCommands(es, Auto)
    requires !RestartsAt(hour, minute, second)
    ensures var t := Run(Step(s, Received(PowerControl(on))), es);
            var u := Step(t, Received(Release));
            && t.controller.relay == on && t.schedule.mode == Manual
            && u.controller.relay == on && u.schedule == t.schedule.(mode := Auto)
            && Step(u, ScheduleTick(hour, minute, second)).controller.relay ==
               Active(StartMinute(t.schedule), EndMinute(t.schedule), hour * 60 + minute)
  {
    var c := Control(s, on);
    assert Step(s, Received(PowerControl(on))) == c;
    ControlHolds(s, on);
    RunKeepsHeld(c, es, on, Auto);
    RunKeepsEnabled(c, es, on, Auto);
  }
}
