# Lamp controller and ESP-IDF tools: a verification model

This project models the parts of the lighting gateway repository whose behaviour is hardest to
see from the code, and proves what they do on every input, run or reachable state:

- **The lamp controller firmware** (`LampModel`, `LampFirmware`, `LampRuns`, `LampPlain`,
  `LampCommands`, `LampDays`, `LampSession`, `LampRequests`):
  `event_callback`, the controller, the schedule, the websocket session, the screen and the
  storage as one event system. `LampFirmware` has one class per C module, with the re-entrant
  callbacks of the firmware; each of its operations is proved equal to a flat transition of
  `LampModel`. `LampRuns` proves that the copies of mode, power and active time agree on every
  run, restarts included, and `LampPlain` that the firmware behaves as a machine with one mode, one
  relay, one active time and one log of reports; `LampCommands` says how long commands last and what
  a release gives back, `LampDays` what the daily window means and how often it switches the relay,
  `LampSession` what each round of the websocket loop does, and `LampRequests` how long the requests
  of the session stay apart.
- **The bit-banged serial port** (`SwSerialRing`, `SwSerialFraming`): the receive ring under
  every interleaving of interrupts with the reader, and the framing round trip, of one byte and
  of whole streams, with its exact timing window.
- **The serial monitor** (`LineMonitor`, `LineStreams`, `AddressScan`, `AddressCuts`): line
  reassembly against a split of the whole stream, conservation under timer flushes, and exactly
  which cuts of a line keep its address lookups.
- **The idf.py command resolver** (`TaskResolver`, `TaskOrder`, `TaskGraph`, `TaskTermination`):
  exactly when the loop ends, for all requests of a registry and for one request, the exact
  dependency closure, topological order, the order of commands that do not need each other, and which
  duplicate of a command is run.
- **Checkers**: the Kconfig indentation and prefix checker (`KconfigChecker`, `KconfigNesting`,
  `KconfigPrefixes`, `KconfigLines`), the order of error items (`ErrItemOrder`) and the known-warning matcher
  (`WarningMatcher`).

Code that updates fields or lists in place is modelled by classes and loops whose `ensures` tie
them to specification functions; the theorems are about those functions. The setters and
single-branch handlers of `LampFirmware` are verified in the same way and have no row of their own:
`LampFirmware.Firmware.Handle` sums them up. Inputs the programs read
from outside (pins, clock, network state, the flash's answer to a save, received messages and
chunks, tokenised lines) are parameters or events.

## What turned out not to hold as promised

- idf.py warns that of a repeated command "only first occurence will be executed". A command that
  something depends on is pulled by its last occurrence instead. `TaskGraph.FirstOccurrenceRunsIff`
  states exactly for which commands the promise holds.
- The carried nine characters of the monitor do not always keep lookups intact.
  `AddressCuts.RepeatedLookup` shows one cut that looks an address up that is not in the line;
  `AddressCuts.CutKeepsLookupsIff` says exactly after which flushed texts that can happen, and
  `AddressScan.CutKeepsPositionsIff` which cuts keep the positions found.
  `AddressScan.ShortMiddleLosesAddress` is a loss after two cuts and `AddressCuts.LengthsKeepIff`
  the exact condition on the lengths of the fragments.
- A newline that arrives alone after a flush is dropped and leaves the carry to the next line, which
  is printed whatever the filter says (`LineStreams.NextLineStep`).
  `LineStreams.AddressOfNeitherLine` is an address looked up that is in neither line, and
  `LineStreams.NextLineIsCleanIff` says exactly after which flushed texts that can happen.
- A flush prints the beginning of a line that the filter refuses, and then all of it, if the filter
  lets that beginning through: `LineStreams.FlushKeepsLookups`. `LineMonitor.PartDecidesIff` says
  exactly which filters are safe from that.
- The error-item comparator is not a total order in general: `ErrItemOrder.HarmGivesCycle` gives
  three items in a circle, and `ErrItemOrder.TotalOrderIff` the exact condition on the paths of the
  headers.
- The receiver's configured waits do not suit a handler that starts at once and waits exactly:
  `SwSerialFraming.LatencyNeededAt115200` and `SwSerialFraming.LatencyNeededElsewhere` give the
  exact range of start latencies with which every byte arrives.
- With `invert` the receiver is attached to the rising edge, but the start cell is low. Only a
  first byte sent from a low line can be received (`SwSerialFraming.RoundTripIffInWindow`); once
  the line is high nothing is, `SwSerialFraming.InvertedSilentIff`.
- A report that finds the outgoing ring full is dropped without a retry.
  `LampRuns.FullRingMisleads` is a run after which the lamp is lit and the server holds it dark;
  `LampRuns.ReportArrivesIff` says exactly when an update leaves the right last report.
- Requests to register and to log in are meant to be 30 s apart. The tick of the last one is kept in
  32 bits, and after 24 days of uptime every round of the loop makes a request:
  `LampRequests.SpacingIsLost`. `LampRequests.AlwaysApartIff` gives the exact limit of the clock.
- The resolver can hang on a request although nothing that is requested closes a circle:
  `TaskTermination.OrderOnlyCircle`. `TaskTermination.DrainsIffNeverCircular` is the exact condition
  on the lists the loop goes through; `TaskTermination.DrainsIffNoCycle` the one on the registry.
- The relay can be on while the switch is OFF, by the screen's manual button:
  `LampCommands.RelayWhileSwitchOff` says exactly when.
- Active times from the server are not range-checked, those from the screen only upwards, and the
  window comparison is not cyclic for all of them: `LampDays.UncheckedTimesAreNotCyclic` gives
  inputs and `LampDays.CyclicAllDayIff` the exact condition.
- A day in AUTO can switch the relay more than twice, because the device restarts at noon and drops
  the relay: `LampDays.FourChangesADay`. `LampDays.TwoADayIff` and
  `LampDays.TwoADayWithOneRestartIff` say exactly for which windows two changes are enough.

- At the end of a file the Kconfig checker is meant to report a menu or choice that was not closed. A
  single one goes unnoticed: `KconfigLines.UnclosedMenuIsAccepted`.
  `KconfigLines.UnclosedIsRefusedIff` says exactly which unclosed files are refused.

## Model

| member | source | states |
|---|---|---|
| LampFirmware.AppWebsocket.RunTask | main/app_websocket.c:389-399 | one call of the loop is one transition of the session, with the request ticks in 32 bits |
| LampFirmware.Firmware.constructor | main/app_main.c:240-412 | start-up yields the boot state of the flash contents: every copy of the active time comes from the flash |
| LampFirmware.Firmware.ControlRelay | main/app_controller.c:106-124 | through the re-entrant power callback: one power event and one report if the relay changes, no effect at all otherwise |
| LampFirmware.Firmware.OnModeChanged | main/app_main.c:197-208 | all copies take the mode, and OFF switches the relay off through the nested callback |
| LampFirmware.Firmware.EventCallback | main/app_main.c:54-231 | the re-entrant dispatcher terminates and has the flat effect of each event |
| LampFirmware.Firmware.ProcessData | main/app_websocket.c:401-487 | each message of the server has its one transition |
| LampFirmware.Firmware.RunSchedule | main/app_schedule.c:264-301 | a tick sets the relay by the window in AUTO with both alarms enabled, and restarts in the restart seconds |
| LampFirmware.Firmware.Handle | main/app_main.c:54-231 | the object system takes exactly the transitions of the event system |
| LampRuns.ChangeModeSetsModes | main/app_main.c:197-208 | a mode change makes all copies agree |
| LampRuns.StepKeepsModes | main/app_main.c:197-208 | every event keeps the mode copies equal, equal to the switch or MANUAL, and OFF exactly when the switch is OFF |
| LampRuns.StepKeepsPower | main/app_controller.c:106-124 | every event keeps pins, reported power and relay equal and the power events strictly alternating, one per change |
| LampRuns.BootTimes | main/app_main.c:257-263 | after start-up every copy of the active time is the flash contents |
| LampRuns.StepKeepsTimes | main/app_main.c:95-119 | every event keeps the copies of the active time equal, and the flash too if the save succeeds |
| LampRuns.RestartRecoversIff | main/app_storage.c:91-110 | after a restart every copy holds an update if and only if its save succeeded or the flash held these times already |
| LampRuns.RemoteStepsAddUp | main/app_main.c:102-117 | the six assignments of a server update together are the event |
| LampRuns.ScreenStepsAddUp | main/app_nextion.c:143-148 | the nine assignments of a screen update together are the event |
| LampRuns.RestartDuringRemoteUpdate | main/app_main.c:95-119 | a restart between any two assignments of a server update leaves every copy on the old value or every copy on the new value |
| LampRuns.RestartDuringScreenUpdate | main/app_nextion.c:143-148 | the same for an update from the screen |
| LampRuns.UpdatesKeepOutbox | main/app_websocket.c:526-567 | updates, online or offline, keep: while logged in, the last report of each kind is the cached value unless the latest of that kind found the ring full |
| LampRuns.LoginEstablishesOutbox | main/app_websocket.c:430-436 | a login establishes this agreement, whatever was queued before |
| LampRuns.ReportArrivesIff | main/app_websocket.c:526-567 | for each kind: after an update while logged in the last report is the new value if and only if the ring had room or the last report already was that value |
| LampRuns.DroppedChangeMisleads | main/app_websocket.c:145-147 | a relay change that finds the ring full leaves the opposite state as the last report |
| LampRuns.FullRingMisleads | main/app_websocket.c:145-147 | from any flash contents and for any size of the ring, a connected and registered device fills it and is refused: the relay is on and the last report says off |
| LampRuns.TaskKeepsOutbox | main/app_websocket.c:377-399 | sending and the register and login requests keep the agreement |
| LampRuns.StepKeepsOutbox | main/app_websocket.c:90-107 | every event keeps: while logged in, the last power, mode and time report among sent and queued items is the cached value, for each kind whose latest report did not find the ring full |
| LampRuns.OnlyTaskTouchesTask | main/app_websocket.c:389-399 | no other event removes queued items or moves the loop |
| LampRuns.ItemsLeaveWhenLoggedIn | main/app_websocket.c:389-399 | an item leaves the queue only in a round that observed a connected and logged-in session, in order |
| LampRuns.EveryRunIsConsistent | main/app_main.c:54-231 | from any flash contents, after any events and restarts, modes, power, times and outbox agree |
| LampRuns.StepLosesNothing | main/app_websocket.c:145-147 | while the ring has room, no event loses a report |
| LampRuns.EveryRunTellsTheServer | main/app_websocket.c:377-399 | if no enqueue fails, in every reachable logged-in state the last reports among sent and queued items are the relay, the mode of the schedule and the stored active time, across disconnects, restarts and offline updates |
| LampRuns.EveryRunKeepsFlash | main/app_storage.c:38-110 | if all saves succeed, the flash agrees with every copy after every event |
| LampRuns.StepKeepsOnline | main/app_main.c:57-72 | every event keeps: the screen shows the device online exactly while it is logged in |
| LampPlain.StepIsPlain | main/app_main.c:54-231 | every event changes position, mode, relay, active time, flash, connection, registration, login and the reports told as it changes a machine that has each of them once |
| LampPlain.EveryRunIsPlain | main/app_main.c:54-231 | on every run from any flash contents, restarts and full rings included, the firmware is that machine and all its copies agree with it |
| LampPlain.TaskKeepsSession | main/app_websocket.c:377-399 | the websocket loop hands reports on without dropping, adding or reordering any |
| LampSession.EveryRound | main/app_websocket.c:251-399 | one round in every state of the session, with any ticks: nothing without the network; the order to start, once, without a connection; the register or login request unless the timeout holds it back; else the oldest report |
| LampSession.RoundsDrain | main/app_websocket.c:377-399 | n rounds of a logged-in session hand over the n oldest reports in order |
| LampSession.SignsOn | main/app_websocket.c:251-437 | from any flash contents a device whose requests are granted starts, registers, logs in and tells power, mode and stored time, exactly these items in this order |
| LampSession.NothingLeavesWhileDown | main/app_websocket.c:90-107 | while the session is down, whatever happens, nothing leaves the queue and only the one order to start reaches the client |
| LampRequests.PassesIff | main/app_websocket.c:322-326 | after a request at tick t one at tick u >= t is let through if and only if 30 s have passed or t is at least 2^31 - 30000 |
| LampRequests.EveryRunStartsOnce | main/app_websocket.c:251-280 | on every run, whatever the ticks, the client is started at most once since start-up |
| LampRequests.RunKeepsSpaced | main/app_websocket.c:282-347 | below the limit every run keeps the requests of a kind 30 s apart |
| LampRequests.EveryRoundRequests | main/app_websocket.c:282-315 | once a request was made at the limit or later, every round makes another one |
| LampRequests.EveryRoundLogsIn | main/app_websocket.c:317-347 | the same of requests to log in |
| LampRequests.SpacingIsLost | main/app_websocket.c:282-315 | a run with two requests to register at one tick |
| LampRequests.AlwaysApartIff | main/app_websocket.c:282-347 | on all runs with a clock up to N requests of a kind are 30 s apart if and only if N < 2^31 - 30000 |
| LampCommands.StepWhileOff | main/app_main.c:172-183 | while the switch is OFF only the screen's buttons and a release move the relay |
| LampCommands.RelayWhileSwitchOff | main/app_main.c:197-208 | from the moment the switch goes OFF, the relay is on if and only if the last of those orders was the manual button |
| LampCommands.RunStaysDark | main/app_main.c:202-204 | on every run without a manual-on while OFF, the relay is off whenever the switch is OFF |
| LampCommands.RelayAfterBoot | main/app_controller.c:64-104 | the same from start-up until the switch moves |
| LampCommands.CommandStaysInForce | main/app_main.c:73-86 | an accepted remote command is not overridden by ticks, session traffic or time updates |
| LampCommands.SwitchReads | main/app_controller.c:36-45 | AUTO and MANUAL each by their own input low alone, two equal inputs are OFF |
| LampCommands.ReleaseGivesBack | main/app_controller.c:126-135 | a release puts the position of the switch into force in every module and leaves the relay alone unless the switch is OFF |
| LampCommands.ScheduleTakesOver | main/app_main.c:73-90 | with the switch at AUTO and a window set, a command holds the relay until the release, and the tick after it sets the relay by the window |
| LampDays.ActiveIsCyclic | main/app_schedule.c:276-295 | for times in the day the two-branch comparison is membership in the cyclic interval from start to end |
| LampDays.CyclicAllDayIff | main/app_schedule.c:276-295 | for all integer times: the comparison is cyclic at every minute of the day if and only if both times are in the day or one of three cases outside it applies |
| LampDays.UncheckedTimesAreNotCyclic | main/app_websocket.c:453-469 | accepted times from the server and from the screen that break the cyclic reading, and one outside the day that does not |
| LampDays.SavedWindowIsFixed | main/app_storage.c:38-110 | after successful saves a restart brings the same window back |
| LampDays.SwitchingsAreEvents | main/app_controller.c:106-124 | restarts apart, an event switches the relay as often as it raises power events |
| LampDays.ChangesADay | main/app_schedule.c:264-301 | in AUTO with a fixed window, with switch polls, session traffic and the noon restart, the ticks of a day after the first one switch the relay at most twice, plus twice per restart if the window contains noon |
| LampDays.FourChangesADay | main/app_schedule.c:297-301 | an ordinary day with the window 10:00 to 20:00 switches the relay four times |
| LampDays.TwoADayIff | main/app_schedule.c:264-301 | two changes are enough on every day if and only if the window does not contain noon |
| LampDays.TwoADayWithOneRestartIff | main/app_schedule.c:264-301 | with at most one restart a day: if and only if the window does not contain noon or contains the whole day |
| SwSerialRing.StoreAppends | main/include/sw_serial.h:112-124 | storing appends to the buffered sequence, or flags the overflow exactly when size - 1 bytes are buffered |
| SwSerialRing.AdvanceDropsFirst | main/include/sw_serial.h:187-196 | reading takes the oldest byte |
| SwSerialRing.SwSerial.constructor | main/include/sw_serial.h:29-62 | a new port has an empty ring of the given size |
| SwSerialRing.SwSerial.StoreReceived | main/include/sw_serial.h:112-124 | the end of the interrupt handler, in place, with inversion |
| SwSerialRing.SwSerial.Read | main/include/sw_serial.h:187-196 | the oldest byte and the rest of the sequence, or -1 and no change when empty |
| SwSerialRing.SwSerial.Any | main/include/sw_serial.h:235-239 | in 32-bit arithmetic the result is the number of buffered bytes, at most size - 1 |
| SwSerialRing.SwSerial.Flush | main/include/sw_serial.h:241-245 | flushing empties the sequence and clears the overflow |
| SwSerialRing.StepKeepsFifo | main/include/sw_serial.h:187-196 | an interrupt between any two steps of a read keeps the FIFO invariant and the byte being read |
| SwSerialRing.EveryInterleavingIsFifo | main/include/sw_serial.h:112-124 | on every interleaving, bytes read followed by bytes buffered are the bytes accepted, and the overflow flag is set exactly when one was dropped |
| SwSerialRing.ThreeStepsAreOneRead | main/include/sw_serial.h:187-196 | the reader's three steps without interrupts are one read |
| SwSerialFraming.Write | main/include/sw_serial.h:153-185 | the pin levels are start cell, eight data cells from the least significant bit, stop cell |
| SwSerialFraming.FrameCells | main/include/sw_serial.h:153-185 | a low start cell, the eight bits of the byte from the lowest on, complemented with `invert`, and a high stop cell |
| SwSerialFraming.ReceiveBits | main/include/sw_serial.h:99-107 | the shift loop assembles the eight samples taken at the drifting instants |
| SwSerialFraming.Receive | main/include/sw_serial.h:83-117 | a byte is delivered exactly with a low start sample and a high stop sample |
| SwSerialFraming.AssembleInvertsLsb | main/include/sw_serial.h:99-107 | shifting in the bits in sending order restores the byte |
| SwSerialFraming.WindowRoundTrips | main/include/sw_serial.h:83-117 | inside the timing window a handler started by the start cell receives the byte as sent, whatever follows |
| SwSerialFraming.RoundTripIffInWindow | main/include/sw_serial.h:83-139 | every byte is received for every following line activity if and only if the last data sample is less than a bit time late, the stop sample falls in the stop cell and, with `invert`, the line was low before |
| SwSerialFraming.StreamRoundTrips | main/include/sw_serial.h:83-185 | if every run of the handler is inside the window, each with its own latency and overshoots, any sequence of bytes with any gaps is delivered |
| SwSerialFraming.StreamRoundTripsIff | main/include/sw_serial.h:83-185 | every sequence of bytes with any gaps is delivered if and only if every run of the handler is inside the window |
| SwSerialFraming.InvertedSilentIff | main/include/sw_serial.h:97-139 | with `invert`, from a high line, nothing is ever delivered whatever is on the line if and only if every start check falls in the cell of its edge |
| SwSerialFraming.LatencyNeededAt115200 | main/include/sw_serial.h:199-221 | with exact waits the timing configured for 115200 is inside the window if and only if the handler's latency lies between about half a bit time and one; zero latency never does |
| SwSerialFraming.LatencyNeededElsewhere | main/include/sw_serial.h:199-221 | at other rates exact waits are inside the window if and only if the latency is below about eight ninths of a bit time, and not zero unless nine divides the bit time |
| SwSerialFraming.WaitBitTime | main/include/sw_serial.h:79-80 | the wait ends at the first poll at least `wait` cycles on, across wraparound of the 32-bit counter |
| LineMonitor.EntryRulesItsTag | esp-idf/tools/idf_monitor.py:430-443 | a filter entry decides the lines of its tag by their level and leaves all other lines alone |
| LineMonitor.StarRulesTheRest | esp-idf/tools/idf_monitor.py:430-443 | the `*` entry decides lines whose tag has no entry, and lines without a header by being above N |
| LineMonitor.WithoutStar | esp-idf/tools/idf_monitor.py:430-443 | a filter without `*` prints exactly the lines whose tag has an entry of at least their level, and no line without a header |
| LineMonitor.PartDecidesIff | esp-idf/tools/idf_monitor.py:430-443 | a part the filter lets through is let through when it goes on, if and only if the filter prints nothing without a header or prints everything |
| LineMonitor.Monitor.HandlePossiblePcAddress | esp-idf/tools/idf_monitor.py:607-611 | the carry is scanned in front of the line and used up |
| LineMonitor.Monitor.HandleOne | esp-idf/tools/idf_monitor.py:573-583 | an empty line is skipped; another one is printed and scanned if forced or matched, and ends forcing |
| LineMonitor.Monitor.TakePieces | esp-idf/tools/idf_monitor.py:565-572 | pending part and data are split into complete lines and the unterminated tail |
| LineMonitor.Monitor.HandleLastPart | esp-idf/tools/idf_monitor.py:588-603 | a pending part is printed, scanned and carried exactly when forced or finalized and matched |
| LineMonitor.Monitor.HandleSerialInput | esp-idf/tools/idf_monitor.py:564-605 | the call has the effect of splitting pending part and data together |
| LineMonitor.JoinOfSplit | esp-idf/tools/idf_monitor.py:565-565 | the pieces of a split, joined by newlines, are the text |
| LineStreams.ChunkExtendsStream | esp-idf/tools/idf_monitor.py:564-583 | one more chunk takes the monitor's state from one stream to the longer one, for every filter |
| LineStreams.ChunkingDoesNotMatter | esp-idf/tools/idf_monitor.py:564-583 | for every cutting into chunks, handled lines, output, lookups and pending part are those of the whole stream |
| LineStreams.DefaultFilterMatchesAll | esp-idf/tools/idf_monitor.py:430-443 | the default filter matches every line, with or without a log header |
| LineStreams.HandleConserves | esp-idf/tools/idf_monitor.py:564-605 | one call keeps: printed plus pending is the input, newlines aside |
| LineStreams.NothingIsLost | esp-idf/tools/idf_monitor.py:564-605 | the same for any mix of chunks and timer flushes |
| LineStreams.FlushKeepsLookups | esp-idf/tools/idf_monitor.py:588-611 | for every filter: a line cut once by a flush is printed as the uncut one if and only if the filter does not let the first part of a refused line through; a printed line looks up the same addresses in the same order exactly when the cut keeps them |
| LineStreams.ChunksAfterFlushKeepLookups | esp-idf/tools/idf_monitor.py:588-611 | so does a flushed line that goes on in chunks of nine or more characters, without overlapping addresses |
| LineStreams.LoneNewlineIsDropped | esp-idf/tools/idf_monitor.py:573-583 | a newline alone after a flush changes nothing: it is not printed and the carry stays |
| LineStreams.NextLineStep | esp-idf/tools/idf_monitor.py:573-611 | the line after it is printed whatever the filter says and is searched behind the carry |
| LineStreams.NextLineIsCleanIff | esp-idf/tools/idf_monitor.py:573-611 | every such line is looked up by its own text if and only if no carried end of the flushed part could be the beginning of an address |
| LineStreams.AddressOfNeitherLine | esp-idf/tools/idf_monitor.py:573-611 | a concrete address that is looked up and in neither line |
| AddressScan.AddressPattern | esp-idf/tools/idf_monitor.py:112-113 | an address is 0x4 or 0X4 followed by seven hexadecimal digits of either case |
| AddressScan.OverlapByOne | esp-idf/tools/idf_monitor.py:112-113 | two address occurrences overlap by at most one character |
| AddressScan.ScanIsLeftmost | esp-idf/tools/idf_monitor.py:607-611 | the search finds addresses in order that do not overlap, and passes over none but those that overlap one found before |
| AddressScan.CutKeepsPositionsIff | esp-idf/tools/idf_monitor.py:594-611 | a cut finds the same positions as the uncut line if and only if no found address near it ends with the first digit of another one |
| AddressCuts.CutKeepsLookupsIff | esp-idf/tools/idf_monitor.py:594-611 | whatever follows, the flushed text keeps the lookups if and only if the carried last digit of its last address is not the beginning of what could be another address |
| AddressCuts.OpenEndRepeats | esp-idf/tools/idf_monitor.py:594-611 | otherwise there is a continuation with more lookups than the uncut line |
| AddressCuts.RepeatedLookup | esp-idf/tools/idf_monitor.py:594-611 | a concrete line and cut with an additional lookup |
| AddressScan.CutKeepsAddresses | esp-idf/tools/idf_monitor.py:594-611 | without that, the two scans look up the addresses of the uncut line |
| AddressScan.NoOverlapNeverStraddles | esp-idf/tools/idf_monitor.py:594-611 | a line without overlapping occurrences is never straddled |
| AddressScan.FragmentsKeepAddresses | esp-idf/tools/idf_monitor.py:594-611 | any number of cuts keeps all addresses if no occurrences overlap and the middle fragments have nine characters |
| AddressScan.ShortMiddleLosesAddress | esp-idf/tools/idf_monitor.py:597-599 | a shorter middle fragment can lose an address |
| AddressCuts.LengthsKeepIff | esp-idf/tools/idf_monitor.py:594-611 | cutting at given positive lengths keeps the lookups of every line without overlapping addresses if and only if the line is too short for an address or every middle fragment has nine characters |
| TaskResolver.PullToFront | esp-idf/tools/idf.py:573-573 | the named object is moved to the front, the order of the others is kept |
| TaskResolver.PullAllDependencies | esp-idf/tools/idf.py:568-589 | dependencies that are not queued are pulled by the snapshot's last entry or invented; the flag says whether there was none |
| TaskResolver.PullAllOrderDependencies | esp-idf/tools/idf.py:591-595 | order-only dependencies are pulled only if listed |
| TaskResolver.Turn | esp-idf/tools/idf.py:562-603 | one turn of the loop |
| TaskResolver.PullPulls | esp-idf/tools/idf.py:568-595 | a task that is not ready gives way to one of its targets; nothing is lost and only missing dependencies are invented |
| TaskResolver.IterateKeepsInv | esp-idf/tools/idf.py:562-603 | every turn keeps the queue duplicate-free, ordered and drawn from the closure |
| TaskResolver.IterateDecreases | esp-idf/tools/idf.py:562-603 | every turn decreases (names not queued, stale entries, rank of the head), although the list may grow |
| TaskResolver.ResolveIsGood | esp-idf/tools/idf.py:561-603 | the loop terminates on every request and yields a good queue |
| TaskResolver.TurnServesLead | esp-idf/tools/idf.py:562-603 | a turn keeps the leading entries of a set that holds all its targets in the lead or queues them, and queues nothing outside the set |
| TaskResolver.ResolveIsInOrder | esp-idf/tools/idf.py:562-603 | the request is served from its beginning: its first p commands are queued before any command outside a set that holds them and all they may wait for |
| TaskResolver.ExecuteTasks | esp-idf/tools/idf.py:561-603 | the queue has no repeated name, holds exactly what is reachable by dependencies, orders every command after its dependencies and its requested order-only dependencies, serves the request from its beginning, and runs requested commands with their own options |
| TaskOrder.EarlierRequestRunsFirst | esp-idf/tools/idf.py:597-603 | a command among the first p requests runs before every command that none of these may wait for |
| TaskOrder.UntargetedKeepsItsPlace | esp-idf/tools/idf.py:597-603 | of two requests, the later one targeted by nothing, the one that appears first runs first |
| TaskOrder.ReadyIffNothingWanted | esp-idf/tools/idf.py:568-595 | a task is removed from the list exactly when it has no missing dependency and no listed, missing order-only dependency |
| TaskOrder.LastTargetComesFirst | esp-idf/tools/idf.py:568-595 | a task that waits gives way to the target named last, by the last listed entry of that name or by a new one |
| TaskOrder.LastNamedIsLast | esp-idf/tools/idf.py:564-564 | no later entry of the list has that name |
| TaskOrder.LaterTargetRunsFirst | esp-idf/tools/idf.py:568-603 | of the targets a task waits for, each runs before every command that neither it nor a target named after it may wait for: the last one first |
| TaskGraph.AcyclicIffNoCycle | esp-idf/tools/idf.py:562-603 | the commands can be ranked below their targets if and only if the combined graph has no cycle |
| TaskTermination.CycleNeverDrains | esp-idf/tools/idf.py:562-603 | a request that reaches a cycle of dependencies and requested order-only dependencies never drains its list |
| TaskTermination.DrainsIffNoCycle | esp-idf/tools/idf.py:562-603 | the loop ends on every request if and only if the combined dependency and order-only graph has no cycle |
| TaskTermination.DrainsIffNeverCircular | esp-idf/tools/idf.py:562-603 | the loop ends on one request if and only if its list never holds commands that wait for each other in a circle |
| TaskTermination.OrderOnlyCircle | esp-idf/tools/idf.py:591-595 | a request that never ends because two invented commands follow each other by order-only edges |
| TaskGraph.QueueForbidsCycles | esp-idf/tools/idf.py:568-570 | no queue in dependency order exists over a dependency cycle |
| TaskGraph.UntargetedKeepsFirst | esp-idf/tools/idf.py:517-525 | of a repeated command nothing depends on, the first occurrence is run |
| TaskGraph.TargetedLosesFirst | esp-idf/tools/idf.py:565-573 | for every other command there is a request whose first occurrence is not run |
| TaskGraph.FirstOccurrenceRunsIff | esp-idf/tools/idf.py:517-525 | the warning's promise holds of a command on all requests if and only if nothing names it as a dependency |
| KconfigChecker.CommonPrefix | esp-idf/tools/check_kconfigs.py:267-267 | the result is a prefix of both strings |
| KconfigChecker.IndentAndNameChecker.UpdateLevelForIncPattern | esp-idf/tools/check_kconfigs.py:210-230 | entries are put under the innermost open block; the level is their depth |
| KconfigChecker.IndentAndNameChecker.UpdateLevelForDecPattern | esp-idf/tools/check_kconfigs.py:232-248 | a closer removes the stack from its last opener on |
| KconfigChecker.IndentAndNameChecker.CheckNameAndUpdatePrefix | esp-idf/tools/check_kconfigs.py:250-274 | names over 40 characters are refused without effect, others reach the top level before a new one is pushed |
| KconfigChecker.IndentAndNameChecker.CheckCommonPrefix | esp-idf/tools/check_kconfigs.py:276-303 | the popped prefix is checked and handed to an empty parent |
| KconfigChecker.IndentAndNameChecker.ProcessKeyword | esp-idf/tools/check_kconfigs.py:341-364 | keyword handling, expected indentation and wrapping |
| KconfigChecker.IndentAndNameChecker.ProcessLine | esp-idf/tools/check_kconfigs.py:305-364 | every line, refused or not, has its one outcome and state change |
| KconfigChecker.IndentAndNameChecker.Exit | esp-idf/tools/check_kconfigs.py:195-202 | at the end one level is checked and more than one is an error |
| KconfigNesting.LevelsAreOpenBlocks | esp-idf/tools/check_kconfigs.py:204-248 | for every well-nested keyword sequence the level stack is the list of open blocks followed only by leaves |
| KconfigNesting.ExpectedLevelIsDepth | esp-idf/tools/check_kconfigs.py:210-248 | an entry is expected one level per open block, a closer at the depth left after it |
| KconfigNesting.CloserMatchesOpener | esp-idf/tools/check_kconfigs.py:232-248 | a closer is expected at the level of its opener |
| KconfigNesting.UnwindKeepsLastBlock | esp-idf/tools/check_kconfigs.py:215-224 | whatever the level stack holds, it is cut behind its last block |
| KconfigNesting.LevelsOfFile | esp-idf/tools/check_kconfigs.py:305-354 | over a whole file the level stack depends only on the keywords that are not help text, continuations or refused |
| KconfigNesting.AcceptedIndentation | esp-idf/tools/check_kconfigs.py:354-364 | an entry line of a file is accepted exactly at four spaces per open block |
| KconfigPrefixes.CommonPrefixIsLongest | esp-idf/tools/check_kconfigs.py:267-267 | no longer string is a prefix of both |
| KconfigPrefixes.LongestCommonPrefixIsUnique | esp-idf/tools/check_kconfigs.py:250-274 | the prefix of a level does not depend on the order of its names |
| KconfigPrefixes.PrefixesAreLongest | esp-idf/tools/check_kconfigs.py:250-303 | in every file each entry of the prefix stack is the longest common prefix of all strings its level received |
| KconfigPrefixes.AcceptedCloseSharesPrefix | esp-idf/tools/check_kconfigs.py:276-288 | an accepted close of a non-empty level means its strings share at least three leading characters |
| KconfigPrefixes.StacksInStep | esp-idf/tools/check_kconfigs.py:250-303 | in a well-nested file the prefix stack has one level per open menu, mainmenu and choice, and at most one more |
| KconfigPrefixes.WellNestedNeverUnderflows | esp-idf/tools/check_kconfigs.py:276-277 | a well-nested file never pops an empty prefix stack |
| KconfigPrefixes.ClosedFileIsBalanced | esp-idf/tools/check_kconfigs.py:195-202 | a well-nested file whose blocks are closed never fails the emptiness check at its end |
| KconfigLines.LevelsAreDepth | esp-idf/tools/check_kconfigs.py:204-248 | the level stack of a well-nested sequence has one level per open block, one for the config, menuconfig or source after it and one per help |
| KconfigLines.OptionIndentation | esp-idf/tools/check_kconfigs.py:305-364 | a line without a keyword is accepted exactly at that depth; after a help everything from that depth on is help text and nothing else is accepted |
| KconfigLines.OptionsUnderEntry | esp-idf/tools/check_kconfigs.py:354-364 | under an entry: exactly one level deeper than the blocks open before it |
| KconfigLines.TextUnderHelp | esp-idf/tools/check_kconfigs.py:317-321 | under the help of an entry: two levels deeper or more |
| KconfigLines.KeywordIndentation | esp-idf/tools/check_kconfigs.py:341-364 | every keyword line of a well-nested file: a complaint about prefixes first, then exactly one indentation is accepted, and a backslash asks for four spaces more |
| KconfigLines.Continuation | esp-idf/tools/check_kconfigs.py:323-332 | behind a backslash only the asked indentation is accepted, and keywords do not count |
| KconfigLines.Ignored | esp-idf/tools/check_kconfigs.py:306-321 | blank lines and help text end a continuation and change nothing else |
| KconfigLines.RefusedIff | esp-idf/tools/check_kconfigs.py:334-339 | exactly which lines are refused for a backslash behind a name or a name over 40 characters; they change nothing |
| KconfigLines.ClosingErrorIff | esp-idf/tools/check_kconfigs.py:276-303 | exactly when each complaint about prefixes is made |
| KconfigLines.MismatchIff | esp-idf/tools/check_kconfigs.py:289-303 | a mismatch is reported exactly for a closer outside of menus whose common prefix of three or more characters does not begin with the common prefix of the level around it |
| KconfigLines.PrefixLevels | esp-idf/tools/check_kconfigs.py:250-303 | the prefix stack of a well-nested file has one level per open menu, mainmenu and choice, and one more exactly if a name stands outside all of them |
| KconfigLines.EofIff | esp-idf/tools/check_kconfigs.py:195-202 | exactly when the end of a file is accepted, refused for its prefix, or found not closed |
| KconfigLines.UnclosedIsRefusedIff | esp-idf/tools/check_kconfigs.py:195-202 | an unclosed file is accepted if and only if a single menu, mainmenu or choice is open, no name stands outside and its names, if any, share three leading characters |
| KconfigLines.UnclosedMenuIsAccepted | esp-idf/tools/check_kconfigs.py:195-202 | a menu that is never closed and not reported |
| ErrItemOrder.CmpIsLexicographic | esp-idf/tools/gen_esp_err_to_name.py:88-109 | without clashing paths the comparator is the lexicographic order on priority, file, base flag and name |
| ErrItemOrder.HarmGivesCycle | esp-idf/tools/gen_esp_err_to_name.py:96-109 | a header path that goes on behind another one with a text among the names gives three error macros that precede each other in a circle |
| ErrItemOrder.TotalOrderIff | esp-idf/tools/gen_esp_err_to_name.py:88-109 | on the macros a set of headers can define, the comparator is a strict total order if and only if no path goes on behind another one of the same priority with a text between the lowest and the highest name |
| ErrItemOrder.HarmlessPaths | esp-idf/tools/gen_esp_err_to_name.py:88-109 | prefix-free paths are harmless; a clash that is harmless and one that is not |
| ErrItemOrder.SortIsUnique | esp-idf/tools/gen_esp_err_to_name.py:278-281 | then a list of a code that has no item followed by a smaller one does not depend on the order in which the items were found |
| WarningMatcher.IndexFrom | esp-idf/docs/build_docs.py:301-301 | the first position from `start` on that holds the text, or the end |
| WarningMatcher.ExplainedIsMatched | esp-idf/docs/build_docs.py:295-303 | the exchange step: a log some map explains is matched greedily |
| WarningMatcher.NoNewMessagesIff | esp-idf/docs/build_docs.py:295-303 | nothing is reported if and only if some non-decreasing index map sends each message to an equal known warning |
| WarningMatcher.FirstReportIsFirstUnexplained | esp-idf/docs/build_docs.py:299-303 | the first message reported is the one at which the log stops being explainable |
| WarningMatcher.ReportsAreUnexplained | esp-idf/docs/build_docs.py:295-303 | a message is reported if and only if it cannot follow the messages explained before it |
| WarningMatcher.CheckDocs | esp-idf/docs/build_docs.py:295-312 | the loop reports exactly the messages that cannot follow those explained before them, none if and only if the log is explainable |

## Left out

- Multi-task races inside one event: each event, poll, tick, message and call of the websocket loop is one atomic step; the reader of the serial ring is the exception.
- Fields the firmware leaves unset after `malloc` (`is_logged`, the controller's `mode`, the schedule's `start` and `end`, relay pins before the first write) are taken as zero.
- Overflow of the schedule's 32-bit `hour * 60 + minute`, which unchecked hours can bring about; minutes are integers.
- The size of the outgoing ring in bytes: whether an enqueue finds room is an input. What "sent" means ends at the websocket client.
- `nvs_commit` is never called by the firmware; a successful `nvs_set_blob` is taken as durable. A blob of the wrong size is taken as missing, and opening the flash at start-up as successful.
- The clock synchronisation of the schedule (SNTP, RTC, GPS), the restart by OTA, meter data (disabled in this build), screen pages and texts, and the device id inside reports.
- The transmitter's own overshoot: cells on the wire last exactly one bit time, and the pulse before a start cell takes no time. Edges while the handler runs are not remembered. Pin setup and allocation failures of the serial port.
- LampFirmware.Firmware.EventCallback: does not model the branches for OTA, clock setting and synchronisation, GPS and meter data, which hold no copy of mode, power or active time.
- LineMonitor.Monitor.HandleOne: does not model the exit key, core-dump decoding and the gdb-stub trigger; core-dump decoding is taken as off.
- LineMonitor.Monitor.HandleLastPart: does not model the buffer for a split gdb-stub trigger.
- The monitor's log file and output toggle; decoding of bytes, which can drop invalid ones, is the identity.
- Aliases of commands: dependencies are canonical names. A dependency given by an alias never appears under the name that is looked up, so the loop would not end. Options, callbacks and the help text for an empty request are not modelled.
- Regular expressions, file walking and the generated C and RST text of the Python tools; lines and keywords come tokenised. `NOERROR` suppression and the line rules of the Kconfig checker.
- Error macros with parameters: names are identifiers that begin with ESP_ERR_, ESP_OK or ESP_FAIL.
- Reading and evaluating error definitions (`process`, `process_remaining_errors`) and the remaining repository: modem, network, OTA, Modbus, protobuf and the ESP-IDF components.
