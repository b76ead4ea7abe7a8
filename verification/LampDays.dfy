/** The daily window of the schedule: when its two-branch comparison is membership in a
    cyclic interval, and how often a day of ticks switches the relay, the noon restart
    included. */
module LampDays {
  import opened Options
  import opened LampModel
  import opened LampRuns

  // ----- the comparison as a cyclic interval -----

  const DAY: int := 1440

  predicate InDay(minute: int) { 0 <= minute < DAY }

  // Counting on from `start`, `now` comes no later than `end`.
  predicate InCycle(start: int, end: int, now: int) {
    (now - start) % DAY <= (end - start) % DAY
  }

  ghost predicate CyclicAllDay(start: int, end: int) {
    forall now :: InDay(now) ==> (Active(start, end, now) <==> InCycle(start, end, now))
  }

  // The two-branch comparison is membership in the cyclic interval from start to end.
  lemma ActiveIsCyclic(start: int, end: int, now: int)
    requires InDay(start) && InDay(end) && InDay(now)
    ensures Active(start, end, now) <==> InCycle(start, end, now)
  {
  }

  lemma Remainders(start: int, now: int)
    ensures (now - start) % DAY == (now - start % DAY) % DAY
  {
  }

  // Only the remainders of the times matter to the cyclic interval.
  lemma CycleOfRemainders(start: int, end: int, now: int)
    requires InDay(now)
    ensures InCycle(start, end, now) <==> Active(start % DAY, end % DAY, now)
  {
    var a, b := start % DAY, end % DAY;
    Remainders(start, now);
    Remainders(start, end);
    assert (end - a) % DAY == (b - a) % DAY by {
      var q := end / DAY;
      assert end - a == (b - a) + q * DAY;
    }
    ActiveIsCyclic(a, b, now);
  }

  // Both times are outside the day, and the comparison then holds at every minute of it.
  predicate AlwaysOn(start: int, end: int) {
    && !InDay(start) && !InDay(end)
    && ((start < 0 && end >= DAY) || (start > end && (start < 0 || end >= DAY)))
  }

  // The times that the comparison treats as cyclic.
  predicate CyclicTimes(start: int, end: int) {
    || (InDay(start) && InDay(end))
    || (!InDay(start) && InDay(end) && start % DAY == 0)
    || (InDay(start) && !InDay(end) && end % DAY == DAY - 1)
    || (AlwaysOn(start, end) && (start - end - 1) % DAY == 0)
  }

  // A minute at which the comparison is not cyclic.
  function Exception(start: int, end: int): int {
    var a, b := start % DAY, end % DAY;
    if InDay(start) then (if a <= b then DAY - 1 else 0)
    else if InDay(end) then (if a <= b then 0 else a)
    else if !AlwaysOn(start, end) then a
    else if a > b then b + 1
    else if a > 0 then 0
    else DAY - 1
  }

  lemma ExceptionIsOne(start: int, end: int)
    requires !CyclicTimes(start, end)
    ensures InDay(Exception(start, end))
    ensures Active(start, end, Exception(start, end)) != Active(start % DAY, end % DAY, Exception(start, end))
  {
  }

  lemma CyclicTimesAgree(start: int, end: int, now: int)
    requires CyclicTimes(start, end) && InDay(now)
    ensures Active(start, end, now) <==> Active(start % DAY, end % DAY, now)
  {
  }

  // Hours and minutes from the server are not checked, those from the screen only against
  // upper bounds. For all times whatever: the comparison is cyclic throughout the day if
  // and only if both times are in the day, or one of the three cases outside it applies.
  lemma CyclicAllDayIff(start: int, end: int)
    ensures CyclicAllDay(start, end) <==> CyclicTimes(start, end)
  {
    if CyclicTimes(start, end) {
      forall now | InDay(now) ensures Active(start, end, now) <==> InCycle(start, end, now) {
        CyclicTimesAgree(start, end, now);
        CycleOfRemainders(start, end, now);
      }
    } else {
      ExceptionIsOne(start, end);
      CycleOfRemainders(start, end, Exception(start, end));
      assert InDay(Exception(start, end));
    }
  }

  // 25:00 to 25:10 from the server and -1:00 to 6:00 from the screen are accepted and
  // not cyclic; 24:00 to 6:00 is.
  lemma UncheckedTimesAreNotCyclic(s: Lamp)
    ensures var t := SetTimeRemotely(s, ActiveTime(25, 0, 25, 10), true);
            !CyclicAllDay(StartMinute(t.schedule), EndMinute(t.schedule))
    ensures var t := SetTimeOnScreen(s, ActiveTime(-1, 0, 6, 0), true);
            !CyclicAllDay(StartMinute(t.schedule), EndMinute(t.schedule))
    ensures var t := SetTimeRemotely(s, ActiveTime(24, 0, 6, 0), true);
            CyclicAllDay(StartMinute(t.schedule), EndMinute(t.schedule))
  {
    CyclicAllDayIff(1500, 1510);
    CyclicAllDayIff(-60, 360);
    CyclicAllDayIff(1440, 360);
  }

  // ----- a day in AUTO -----

  // The three stretches of the day between which the window switches.
  function Phase(start: int, end: int, now: int): nat {
    if start <= end then (if now < start then 0 else if now <= end then 1 else 2)
    else (if now <= end then 0 else if now < start then 1 else 2)
  }

  lemma PhaseIsMonotone(start: int, end: int, now: int, later: int)
    requires now <= later
    ensures Phase(start, end, now) <= Phase(start, end, later) <= 2
    ensures Phase(start, end, now) == Phase(start, end, later) ==>
              Active(start, end, now) == Active(start, end, later)
  {
  }

  function Minute(e: Event): int
    requires e.ScheduleTick?
  {
    e.hour * 60 + e.minute
  }

  predicate TickAt(e: Event, since: int) {
    && e.ScheduleTick? && 0 <= e.hour < 24 && 0 <= e.minute < 60 && 0 <= e.second < 60
    && since <= Minute(e)
  }

  // Session traffic that carries no command, and polls that find the switch at AUTO.
  predicate Quiet(e: Event) {
    || e.SocketStep? || e.RingAnswers? || e.Connected? || e.Disconnected?
    || (e.Received? && (e.msg.RegisterResponse? || e.msg.LoginResponse? || e.msg.Other?))
    || (e.SwitchPoll? && SwitchMode(e.manualPin, e.autoPin) == Auto)
  }

  // The ticks of one day in order, some possibly missing, the noon restart included.
  predicate AutoDay(es: seq<Event>, since: int)
    decreases |es|
  {
    || es == []
    || (Quiet(es[0]) && AutoDay(es[1..], since))
    || (TickAt(es[0], since) && AutoDay(es[1..], Minute(es[0])))
  }

  predicate Window(c: Schedule, start: int, end: int) {
    c.start.enable && c.end.enable && StartMinute(c) == start && EndMinute(c) == end
  }

  // The schedule holds the window, and a restart brings it back.
  predicate FixedWindow(s: Lamp, start: int, end: int) {
    && Window(s.schedule, start, end)
    && s.storage.blob.Some? && Window(BootSchedule(s.storage.blob.value), start, end)
  }

  // On every run whose saves succeed, an enabled window is fixed.
  lemma SavedWindowIsFixed(s: Lamp)
    requires TimesAgree(s) && FlashAgrees(s) && s.schedule.start.enable && s.schedule.end.enable
    ensures FixedWindow(s, StartMinute(s.schedule), EndMinute(s.schedule))
  {
  }

  // How often an event switches the relay; a restart at noon first obeys the window and
  // then drops the relay.
  function Switchings(s: Lamp, e: Event): nat {
    if e.ScheduleTick? && Restarts(s, e) then
      var on := Active(StartMinute(s.schedule), EndMinute(s.schedule), Minute(e));
      (if s.controller.relay != on then 1 else 0) + (if on then 1 else 0)
    else if Step(s, e).controller.relay != s.controller.relay then 1 else 0
  }

  // Restarts apart, these are the power events.
  lemma SwitchingsAreEvents(s: Lamp, e: Event)
    requires !Restarts(s, e)
    ensures |Step(s, e).powerEvents| == |s.powerEvents| + Switchings(s, e)
  {
  }

  function Changes(s: Lamp, es: seq<Event>): nat
    decreases |es|
  {
    if es == [] then 0 else Switchings(s, es[0]) + Changes(Step(s, es[0]), es[1..])
  }

  function RestartCount(s: Lamp, es: seq<Event>): nat
    decreases |es|
  {
    if es == [] then 0 else (if Restarts(s, es[0]) then 1 else 0) + RestartCount(Step(s, es[0]), es[1..])
  }

  const NOON: int := 720

  // ----- one event of such a day -----

  lemma QuietSwitchesNothing(s: Lamp, e: Event, start: int, end: int)
    requires FixedWindow(s, start, end) && Quiet(e)
    ensures FixedWindow(Step(s, e), start, end) && Step(s, e).controller.relay == s.controller.relay
    ensures Switchings(s, e) == 0 && !Restarts(s, e)
  {
  }

  lemma IdleTick(s: Lamp, e: Event)
    requires e.ScheduleTick? && !ScheduleRuns(s.schedule)
    ensures Step(s, e) == s && Switchings(s, e) == 0 && !Restarts(s, e)
  {
  }

  lemma TickSets(s: Lamp, e: Event, start: int, end: int)
    requires FixedWindow(s, start, end) && ScheduleRuns(s.schedule)
    requires e.ScheduleTick? && !RestartsAt(e.hour, e.minute, e.second)
    ensures FixedWindow(Step(s, e), start, end) && ScheduleRuns(Step(s, e).schedule)
    ensures Step(s, e).controller.relay == Active(start, end, Minute(e))
    ensures Switchings(s, e) == (if s.controller.relay == Active(start, end, Minute(e)) then 0 else 1)
    ensures !Restarts(s, e)
  {
  }

  // Just started, with the switch not read yet.
  predicate Started(s: Lamp, start: int, end: int) {
    FixedWindow(s, start, end) && !s.controller.relay && s.controller.seen == Off
  }

  lemma TickRestarts(s: Lamp, e: Event, start: int, end: int)
    requires FixedWindow(s, start, end) && ScheduleRuns(s.schedule)
    requires TickAt(e, 0) && RestartsAt(e.hour, e.minute, e.second)
    ensures Started(Step(s, e), start, end) && Restarts(s, e) && Minute(e) == NOON
    ensures Switchings(s, e) == (if s.controller.relay == Active(start, end, NOON) then 0 else 1)
                                + (if Active(start, end, NOON) then 1 else 0)
  {
  }

  // ----- the bound -----

  function Late(s: Lamp, start: int, end: int, now: int): nat {
    if s.controller.relay == Active(start, end, now) then 0 else 1
  }

  // What restarts add.
  function Extra(start: int, end: int, restarts: nat): nat {
    if Active(start, end, NOON) then 2 * restarts else 0
  }

  lemma TickPays(s: Lamp, e: Event, start: int, end: int, now: int)
    requires FixedWindow(s, start, end) && TickAt(e, now) && 0 <= now
    ensures FixedWindow(Step(s, e), start, end)
    ensures Switchings(s, e) + 2 - Phase(start, end, Minute(e)) + Late(Step(s, e), start, end, Minute(e))
            <= 2 - Phase(start, end, now) + Late(s, start, end, now)
               + Extra(start, end, if Restarts(s, e) then 1 else 0)
  {
    PhaseIsMonotone(start, end, now, Minute(e));
    if !ScheduleRuns(s.schedule) {
      IdleTick(s, e);
    } else if RestartsAt(e.hour, e.minute, e.second) {
      TickRestarts(s, e, start, end);
    } else {
      TickSets(s, e, start, end);
    }
  }

  lemma {:induction false} ChangesFollowPhases(s: Lamp, es: seq<Event>, start: int, end: int, now: int)
    requires FixedWindow(s, start, end) && AutoDay(es, now) && 0 <= now
    ensures Changes(s, es) <= 2 - Phase(start, end, now) + Late(s, start, end, now)
                              + Extra(start, end, RestartCount(s, es))
    decreases |es|
  {
    PhaseIsMonotone(start, end, now, now);
    if es != [] && Quiet(es[0]) {
      QuietSwitchesNothing(s, es[0], start, end);
      ChangesFollowPhases(Step(s, es[0]), es[1..], start, end, now);
    } else if es != [] {
      TickPays(s, es[0], start, end, now);
      ChangesFollowPhases(Step(s, es[0]), es[1..], start, end, Minute(es[0]));
    }
  }

  // A day that begins with a tick of the running schedule.
  predicate DayFrom(s: Lamp, es: seq<Event>, start: int, end: int) {
    FixedWindow(s, start, end) && ScheduleRuns(s.schedule) && es != [] && es[0].ScheduleTick? && AutoDay(es, 0)
  }

  function LaterChanges(s: Lamp, es: seq<Event>): nat
    requires es != []
  {
    Changes(Step(s, es[0]), es[1..])
  }

  // In AUTO with a fixed window, after the first tick the ticks of a day switch the relay
  // at most twice, and twice more for every restart if the window contains noon.
  lemma ChangesADay(s: Lamp, es: seq<Event>, start: int, end: int)
    requires DayFrom(s, es, start, end)
    ensures LaterChanges(s, es) <= 2 + Extra(start, end, RestartCount(s, es))
  {
    var e := es[0];
    PhaseIsMonotone(start, end, Minute(e), Minute(e));
    if RestartsAt(e.hour, e.minute, e.second) {
      TickRestarts(s, e, start, end);
    } else {
      TickSets(s, e, start, end);
    }
    ChangesFollowPhases(Step(s, e), es[1..], start, end, Minute(e));
  }

  // ----- exactly when two changes are enough -----

  ghost predicate TwoADay(start: int, end: int) {
    forall s, es :: DayFrom(s, es, start, end) ==> LaterChanges(s, es) <= 2
  }

  ghost predicate TwoADayWithOneRestart(start: int, end: int) {
    forall s, es :: DayFrom(s, es, start, end) && RestartCount(s, es) <= 1 ==> LaterChanges(s, es) <= 2
  }

  const AUTO_POLL: Event := SwitchPoll(true, false)

  lemma PollStarts(s: Lamp, start: int, end: int)
    requires Started(s, start, end)
    ensures FixedWindow(Step(s, AUTO_POLL), start, end) && ScheduleRuns(Step(s, AUTO_POLL).schedule)
    ensures !Step(s, AUTO_POLL).controller.relay && Switchings(s, AUTO_POLL) == 0 && !Restarts(s, AUTO_POLL)
  {
  }

  // A device that was started with this window and has read the switch.
  lemma Running(start: int, end: int) returns (s: Lamp)
    ensures FixedWindow(s, start, end) && ScheduleRuns(s.schedule)
  {
    var b := Boot(Some(StorageData(ActiveTime(0, start, 0, end), true, true)));
    PollStarts(b, start, end);
    s := Step(b, AUTO_POLL);
  }

  // Starting up again and reading the switch before the restart seconds are over.
  lemma RestartRound(s: Lamp, second: int, start: int, end: int) returns (t: Lamp)
    requires Started(s, start, end) && Active(start, end, NOON) && 0 <= second <= 2
    ensures var e := ScheduleTick(12, 0, second);
            && Started(t, start, end) && t == Step(Step(s, AUTO_POLL), e)
            && Switchings(s, AUTO_POLL) == 0 && Switchings(Step(s, AUTO_POLL), e) == 2
  {
    PollStarts(s, start, end);
    t := Step(Step(s, AUTO_POLL), ScheduleTick(12, 0, second));
    TickRestarts(Step(s, AUTO_POLL), ScheduleTick(12, 0, second), start, end);
  }

  lemma {:induction false} ChangesOfTwo(s: Lamp, a: Event, b: Event, rest: seq<Event>)
    ensures Changes(s, [a, b] + rest) ==
            Switchings(s, a) + Switchings(Step(s, a), b) + Changes(Step(Step(s, a), b), rest)
    ensures RestartCount(s, [a, b] + rest) ==
            (if Restarts(s, a) then 1 else 0) + (if Restarts(Step(s, a), b) then 1 else 0)
            + RestartCount(Step(Step(s, a), b), rest)
  {
    assert ([a, b] + rest)[1..] == [b] + rest && ([b] + rest)[1..] == rest;
  }

  lemma NoonRestartsAdd(start: int, end: int) returns (s: Lamp, es: seq<Event>)
    requires Active(start, end, NOON)
    ensures DayFrom(s, es, start, end) && LaterChanges(s, es) == 4
  {
    s := Running(start, end);
    var first := ScheduleTick(12, 0, 0);
    var one, two := ScheduleTick(12, 0, 1), ScheduleTick(12, 0, 2);
    es := [first] + ([AUTO_POLL, one] + [AUTO_POLL, two]);
    assert es[1..] == [AUTO_POLL, one] + [AUTO_POLL, two];
    TickRestarts(s, first, start, end);
    var t := RestartRound(Step(s, first), 1, start, end);
    var u := RestartRound(t, 2, start, end);
    ChangesOfTwo(Step(s, first), AUTO_POLL, one, [AUTO_POLL, two]);
    ChangesOfTwo(t, AUTO_POLL, two, []);
    assert [AUTO_POLL, two] + [] == [AUTO_POLL, two];
    assert AutoDay([AUTO_POLL, two], NOON) by { assert [AUTO_POLL, two][1..] == [two] && [two][1..] == []; }
    assert es[1..][1..] == [one] + [AUTO_POLL, two] && ([one] + [AUTO_POLL, two])[1..] == [AUTO_POLL, two];
    assert AutoDay(es[1..], NOON);
  }

  // Every day in AUTO with this window switches the relay at most twice after its first
  // tick if and only if the window does not contain noon.
  lemma TwoADayIff(start: int, end: int)
    ensures TwoADay(start, end) <==> !Active(start, end, NOON)
  {
    if Active(start, end, NOON) {
      var s, es := NoonRestartsAdd(start, end);
    } else {
      forall s, es | DayFrom(s, es, start, end) ensures LaterChanges(s, es) <= 2 {
        ChangesADay(s, es, start, end);
      }
    }
  }

  // ----- the same for days with at most one restart -----

  // Where every minute is active, only restarts switch the relay.
  lemma {:induction false} AlwaysActiveChanges(s: Lamp, es: seq<Event>, start: int, end: int, now: int)
    requires FixedWindow(s, start, end) && AutoDay(es, now) && 0 <= now
    requires forall m :: InDay(m) ==> Active(start, end, m)
    ensures Changes(s, es) <= (if s.controller.relay then 0 else 1) + 2 * RestartCount(s, es)
    decreases |es|
  {
    if es != [] && Quiet(es[0]) {
      QuietSwitchesNothing(s, es[0], start, end);
      AlwaysActiveChanges(Step(s, es[0]), es[1..], start, end, now);
    } else if es != [] {
      var e := es[0];
      assert InDay(Minute(e));
      if !ScheduleRuns(s.schedule) {
        IdleTick(s, e);
      } else if RestartsAt(e.hour, e.minute, e.second) {
        TickRestarts(s, e, start, end);
      } else {
        TickSets(s, e, start, end);
      }
      AlwaysActiveChanges(Step(s, e), es[1..], start, end, Minute(e));
    }
  }

  lemma AlwaysActiveDay(s: Lamp, es: seq<Event>, start: int, end: int)
    requires DayFrom(s, es, start, end) && RestartCount(s, es) <= 1
    requires forall m :: InDay(m) ==> Active(start, end, m)
    ensures LaterChanges(s, es) <= 2
  {
    var e := es[0];
    if RestartsAt(e.hour, e.minute, e.second) {
      TickRestarts(s, e, start, end);
    } else {
      TickSets(s, e, start, end);
      assert InDay(Minute(e));
    }
    AlwaysActiveChanges(Step(s, e), es[1..], start, end, Minute(e));
  }

  function TickOf(minute: int): Event {
    ScheduleTick(minute / 60, minute % 60, 3)
  }

  lemma TickOfMinute(m: int)
    requires InDay(m)
    ensures TickAt(TickOf(m), m) && Minute(TickOf(m)) == m
    ensures !RestartsAt(TickOf(m).hour, TickOf(m).minute, TickOf(m).second)
  {
  }

  // Noon: the restart, the switch read again, and the next tick; the relay ends up on.
  lemma OverNoon(s: Lamp, start: int, end: int, rest: seq<Event>) returns (t: Lamp, noon: seq<Event>)
    requires FixedWindow(s, start, end) && ScheduleRuns(s.schedule) && Active(start, end, NOON)
    requires AutoDay(rest, NOON)
    ensures forall now :: now <= NOON ==> AutoDay(noon, now)
    ensures FixedWindow(t, start, end) && ScheduleRuns(t.schedule) && t.controller.relay
    ensures Changes(s, noon) == (if s.controller.relay then 2 else 3) + Changes(t, rest)
    ensures RestartCount(s, noon) == 1 + RestartCount(t, rest)
  {
    var restart, next := ScheduleTick(12, 0, 0), TickOf(NOON);
    TickOfMinute(NOON);
    var b := Step(s, restart);
    TickRestarts(s, restart, start, end);
    PollStarts(b, start, end);
    var r := Step(b, AUTO_POLL);
    TickSets(r, next, start, end);
    t := Step(r, next);
    noon := [restart, AUTO_POLL] + ([next] + rest);
    ChangesOfTwo(s, restart, AUTO_POLL, [next] + rest);
    assert ([next] + rest)[1..] == rest;
    assert AutoDay([next] + rest, NOON);
    assert noon[1..] == [AUTO_POLL] + ([next] + rest) && ([AUTO_POLL] + ([next] + rest))[1..] == [next] + rest;
    assert AutoDay(noon[1..], NOON);
  }

  lemma DayWithNoon(start: int, end: int, m: int, rest: seq<Event>) returns (s: Lamp, es: seq<Event>, t: Lamp)
    requires InDay(m) && m < NOON && Active(start, end, NOON) && AutoDay(rest, NOON)
    ensures DayFrom(s, es, start, end) && RestartCount(s, es) == 1 + RestartCount(t, rest)
    ensures LaterChanges(s, es) == (if Active(start, end, m) then 2 else 3) + Changes(t, rest)
    ensures FixedWindow(t, start, end) && ScheduleRuns(t.schedule) && t.controller.relay
  {
    s := Running(start, end);
    TickOfMinute(m);
    TickSets(s, TickOf(m), start, end);
    var noon;
    t, noon := OverNoon(Step(s, TickOf(m)), start, end, rest);
    es := [TickOf(m)] + noon;
    assert es[1..] == noon;
  }

  // Noon inside the window and an inactive minute on either side of it: three changes.
  lemma NoonRestartAddsOne(start: int, end: int, m: int) returns (s: Lamp, es: seq<Event>)
    requires Active(start, end, NOON) && InDay(m) && !Active(start, end, m)
    ensures DayFrom(s, es, start, end) && RestartCount(s, es) <= 1 && LaterChanges(s, es) > 2
  {
    var t;
    if m < NOON {
      s, es, t := DayWithNoon(start, end, m, []);
    } else {
      TickOfMinute(m);
      var rest := [TickOf(m)];
      assert rest[1..] == [];
      s, es, t := DayWithNoon(start, end, NOON - 1, rest);
      TickSets(t, TickOf(m), start, end);
    }
  }

  // If the device restarts at most once a day: two changes are enough if and only if the
  // window does not contain noon or contains every minute of the day.
  lemma TwoADayWithOneRestartIff(start: int, end: int)
    ensures TwoADayWithOneRestart(start, end) <==>
            !Active(start, end, NOON) || forall m :: InDay(m) ==> Active(start, end, m)
  {
    if !Active(start, end, NOON) {
      TwoADayIff(start, end);
    } else if exists m :: InDay(m) && !Active(start, end, m) {
      var m :| InDay(m) && !Active(start, end, m);
      var s, es := NoonRestartAddsOne(start, end, m);
    } else {
      forall s, es | DayFrom(s, es, start, end) && RestartCount(s, es) <= 1 ensures LaterChanges(s, es) <= 2 {
        AlwaysActiveDay(s, es, start, end);
      }
    }
  }

  // From 10:00 to 20:00, an ordinary day switches four times: on, off and on at noon, off.
  lemma FourChangesADay() returns (s: Lamp, es: seq<Event>)
    ensures DayFrom(s, es, 600, 1200) && RestartCount(s, es) == 1 && LaterChanges(s, es) == 4
  {
    var t;
    TickOfMinute(1201);
    var rest := [TickOf(1201)];
    assert rest[1..] == [];
    s, es, t := DayWithNoon(600, 1200, 540, rest);
    TickSets(t, TickOf(1201), 600, 1200);
  }
}
