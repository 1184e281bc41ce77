# WiFi station connection state machine

A Dafny model of how the device firmware joins a WiFi network at boot
(`main/wifi_helper.c`). Two event handlers react to station-start,
station-disconnected and got-IP events. They update a file-scope retry
counter (`retry_num`) and raise one of two flags in a FreeRTOS event
group: `WIFI_CONNECTED_BIT` and `WIFI_FAIL_BIT`. A disconnect triggers a
reconnect while fewer than `WIFI_CONNECT_MAX_RETRY` (5) retries have been
used. After that, the next disconnect raises the fail flag instead.
`start_station` waits on the event group, reads the flag word it gets
back, and switches on the green LED (connected) or the red LED (failed).

Modules:

- `WifiTypes` (`wifi_types.dfy`): the constants, event identifiers, flag
  word (`bv32`) and the abstract state `Station`. `Station` holds the
  counter, the two event-group flags and the number of
  `esp_wifi_connect()` calls.
- `WifiHandlers` (`wifi_station.dfy`):
  - `WifiStep` and `IpStep` specify the two handlers as functions on a
    `Station`. `RunFrom` specifies handling a sequence of deliveries in
    order, stopping at the first abort.
  - The class `WifiStation` holds the same state in mutable fields. It has
    one method per handler and a loop (`RunEvents`) that feeds it events.
    Each method is proved to change the state exactly as the functions say.
- `WifiOutcome` (`wifi_outcome.dfy`): the outcome chosen from the flag
  word, the LED written for it, and `start_station` from the first event on.
- `WifiProperties` (`wifi_properties.dfy`): the lemmas.

Two consequences of the code that are easy to misread:

- The guard `retry_num < 5` comes before the increment. So the first five
  consecutive disconnects all retry and take the counter to 5, and only the
  sixth raises the fail flag (`StartThenFiveDisconnects`,
  `StartThenSixDisconnects`).
- The handlers set bits unconditionally. So when no wait has consumed the
  fail flag, a got-IP event after it leaves both flags set in the group
  (`FailThenGotIpSetsBothFlags`). A wait entered before any flag is raised
  returns when the first flag is raised, with exactly that flag in its
  word (`WaitSeesOneFlag`), and clears the awaited bits as it returns. So a
  later got-IP then leaves only the connected flag. The selection prefers
  the connected bit, but that preference decides only for a wait entered
  after both flags were raised.

The handlers only ever set `WIFI_CONNECTED_BIT` and `WIFI_FAIL_BIT` in the
event group. The model therefore keeps the group as those two flags, and
`FlagWord` rebuilds the 32-bit word the wait hands back from them.

The event identifiers use ESP-IDF's numbering: `WIFI_EVENT_STA_START` = 2,
`WIFI_EVENT_STA_DISCONNECTED` = 5, `IP_EVENT_STA_GOT_IP` = 0. ESP-IDF's
headers are not part of this model. No proof depends on these values beyond
the two WiFi ids being distinct. The LED pins are GPIO 19 (`LED_GREEN2`)
and GPIO 20 (`LED_RED0`), from `main/include/pin_definitions.h`.

## Model

| member | source | states |
|---|---|---|
| WifiTypes.FlagWord | main/wifi_helper.c:30-31 | the event group's word as the wait returns it: bit 0 (`WIFI_CONNECTED_BIT`) is set exactly when the connected flag is, bit 1 (`WIFI_FAIL_BIT`) exactly when the fail flag is, and no other bit is set |
| WifiHandlers.WifiStep | main/wifi_helper.c:40-70 | `event_handler_wifi` as a function: it aborts exactly on a non-WiFi base; it never touches the connected flag; every connect it issues is either for a station start or counted by a one-step rise of `retry_num`; it keeps the counter within 0..5 |
| WifiHandlers.IpStep | main/wifi_helper.c:74-94 | `event_handler_ip` as a function: it aborts exactly on a non-IP base; it issues no connect and leaves the fail flag alone; it either changes nothing or leaves the counter at 0 with the connected flag set; it keeps the counter within 0..5 |
| WifiHandlers.DeliverStep | main/wifi_helper.c:116-125 | one event given to the handler registered for it: at most one connect is issued, and neither flag is lowered |
| WifiHandlers.RunFrom | main/wifi_helper.c:116-125 | events handled one at a time, in order, stopping at the first abort: a run issues at most one connect per event |
| WifiHandlers.WifiStation.constructor | main/wifi_helper.c:26-29 | the boot state: `retry_num` is 0, both event-group flags are clear, no connect has been issued; the state is consistent |
| WifiHandlers.WifiStation.IssueConnect | main/wifi_helper.c:57 | `esp_wifi_connect()` as an abstract effect: the count of connect attempts goes up by exactly one |
| WifiHandlers.WifiStation.SetBits | main/wifi_helper.c:62 | `xEventGroupSetBits`: each flag whose bit is in the argument is raised, and a raised flag stays raised |
| WifiHandlers.WifiStation.HandleWifiEvent | main/wifi_helper.c:40-70 | `event_handler_wifi` on the object's fields: it aborts with the state unchanged exactly on a non-WiFi base; otherwise the new state is the one `WifiStep` gives (start: connect; disconnect: retry under the bound, else the fail flag; other ids: nothing); a consistent state stays consistent |
| WifiHandlers.WifiStation.HandleIpEvent | main/wifi_helper.c:74-94 | `event_handler_ip` on the object's fields: it aborts with the state unchanged exactly on a non-IP base; otherwise the new state is the one `IpStep` gives (got-IP: counter reset and the connected flag; other ids: nothing); a consistent state stays consistent |
| WifiHandlers.WifiStation.Deliver | main/wifi_helper.c:116-125 | one event delivered to the handler it was registered for; the state changes as `DeliverStep` says, and a consistent state stays consistent |
| WifiHandlers.WifiStation.RunEvents | main/wifi_helper.c:116-125 | events delivered one at a time, in order, until one aborts; the final state and the abort are those of `RunFrom`, and a consistent state stays consistent |
| WifiHandlers.RunSplit | main/wifi_helper.c:116-125 | handling `xs` and then `ys` is handling `xs + ys`, and a run that aborts in `xs` never reaches `ys` |
| WifiHandlers.OneEventRaisesOneFlag | main/wifi_helper.c:62-88 | from a word with neither flag, one handled event raises at most one of them |
| WifiHandlers.StepPreservesConsistent | main/wifi_helper.c:56-58 | each handled event keeps 0 <= `retry_num` <= 5 |
| WifiOutcome.SelectOutcome | main/wifi_helper.c:161-172 | Connected exactly when the connected bit is set; Failed exactly when only the fail bit is set; the unexpected branch exactly when neither flag is in the word (so Connected wins when both are set) |
| WifiOutcome.Indicator | main/wifi_helper.c:165-169 | an LED is written, at level 1, exactly for the Connected and Failed outcomes: the green LED (GPIO 19) exactly for Connected, the red LED (GPIO 20) exactly for Failed |
| WifiOutcome.WaitSeesOneFlag | main/wifi_helper.c:153-160 | when no earlier event raised a flag and the last one raised one, the word the wait returns holds exactly one of the two flags |
| WifiOutcome.StartStation | main/wifi_helper.c:151-172 | the events handled from the boot state are those up to the first that raises a flag (the wait returns there), or up to an abort. Then the word holds exactly one flag; the outcome is the one `SelectOutcome` reads off it, Failed exactly when that flag is the fail flag, never the unexpected branch; the LED for it is written. After an abort no LED is written |
| WifiProperties.StartIssuesOneConnect | main/wifi_helper.c:50-53 | station start issues exactly one connect and leaves the counter and both flags unchanged |
| WifiProperties.DisconnectBelowBoundRetries | main/wifi_helper.c:55-59 | a disconnect with `retry_num` < 5 issues exactly one connect, raises the counter by exactly one and changes neither flag |
| WifiProperties.DisconnectAtBoundFails | main/wifi_helper.c:61-63 | a disconnect with `retry_num` >= 5 sets the fail flag, issues no connect and leaves the counter unchanged |
| WifiProperties.GotIpResets | main/wifi_helper.c:84-89 | got-IP resets the counter to 0 and sets the connected flag, whatever the counter was, issuing no connect |
| WifiProperties.OtherEventsInert | main/wifi_helper.c:67-68 | every other WiFi event id (and every other IP event id, lines 91-92), given to its own handler, changes nothing |
| WifiProperties.ForeignBaseAborts | main/wifi_helper.c:43-46 | a handler aborts exactly when the event base is not its own (the WiFi handler here; the IP handler at lines 77-80) |
| WifiProperties.FailFlagOnlyAtBound | main/wifi_helper.c:56-63 | the fail flag first appears on a disconnect with the counter at the bound, and only there |
| WifiProperties.RunPreservesConsistent | main/wifi_helper.c:55-88 | from a consistent state, any sequence of events leaves the counter within 0..5 |
| WifiProperties.RetryBoundFromBoot | main/wifi_helper.c:29-35 | from boot, any sequence of events keeps 0 <= `retry_num` <= `WIFI_CONNECT_MAX_RETRY` |
| WifiProperties.FlagsNeverCleared | main/wifi_helper.c:62-88 | the handlers only set flags: a raised connected or fail flag stays raised through any sequence of events |
| WifiProperties.WellRoutedNeverAborts | main/wifi_helper.c:116-125 | events routed as the two registrations route them never reach an abort |
| WifiProperties.DisconnectRun | main/wifi_helper.c:55-64 | with no got-IP, after n disconnects the counter is min(start + n, 5); the fail flag is raised exactly when n exceeds the retries left; every connect attempt is a station start or one of the counted retries |
| WifiProperties.DisconnectsFromBoot | main/wifi_helper.c:56-63 | from boot, n <= 5 disconnects give counter n, n connects and no flag; from the sixth on, counter 5, the fail flag and no further connects |
| WifiProperties.GotIpIsFinal | main/wifi_helper.c:84-88 | once a got-IP event has been handled, the run ends with the connected flag set |
| WifiProperties.OutcomeFromBoot | main/wifi_helper.c:161-172 | from boot, the selection applied to the flag word after the whole run (a wait entered only then) gives Connected if any got-IP came; otherwise Failed exactly when more than five disconnects came; otherwise unexpected (no flag yet) |
| WifiProperties.StartThenFiveDisconnects | main/wifi_helper.c:50-63 | start and five disconnects: counter 5, six connects, no flag set |
| WifiProperties.StartThenSixDisconnects | main/wifi_helper.c:50-63 | start and six disconnects: counter 5, six connects, fail flag; outcome Failed, red LED |
| WifiProperties.WaitEndsAtSixthDisconnect | main/wifi_helper.c:50-63 | start and six disconnects is a whole run of `start_station`: no event before the sixth disconnect raises a flag |
| WifiProperties.StartDisconnectGotIp | main/wifi_helper.c:50-88 | start, disconnect, got-IP: counter 0, two connects, connected flag; outcome Connected, green LED |
| WifiProperties.WaitEndsAtGotIp | main/wifi_helper.c:50-88 | start, disconnect, got-IP is a whole run of `start_station`: no event before the got-IP raises a flag |
| WifiProperties.FailThenGotIpSetsBothFlags | main/wifi_helper.c:56-88 | six disconnects then got-IP: both flags set in the group, and the selection on that word gives Connected. The wait has already returned at the sixth disconnect with the fail flag alone, so this is not a run `start_station` reports |

## Left out

- The blocking `xEventGroupWaitBits` wait (main/wifi_helper.c:153-157) and its cross-task behaviour. `StartStation` takes as input the events delivered before the wait returns. It requires that no event before the last raised a flag, and that the run ends with a flag raised or an abort. It then applies the outcome selection to the flag word. The model assumes the wait is entered before any flag is raised. The code does not guarantee this, because the station-start event that `esp_wifi_start()` posts at line 147 may be handled before line 153 is reached. The model ends when the wait returns. The clearing of the awaited bits on exit (`pdTRUE`) is not modelled, and neither are events handled between that return and the unregistration at lines 176-177.
- Concurrency between the event-dispatch context and the waiting task. Each handler invocation is one atomic step.
- Handler registration and unregistration, and event-group creation and deletion (main/wifi_helper.c:102, 114-125, 176-178). Registration appears only as the routing assumption `WellRouted`, which gives every WiFi-base event to the WiFi handler and every IP-base event to the IP handler. That admits more than the registrations route, since the IP handler is registered for got-IP only.
- The `wifi_config_t` setup, the `esp_wifi_*` and `esp_netif_*` initialisation calls, and `ESP_ERROR_CHECK` failures (main/wifi_helper.c:105-147).
- All `ESP_LOGx` logging, and the IP address carried by the got-IP event.
- `abort()`: a handler given a foreign base reports an abort, and the run stops there with the state unchanged. Process termination itself is not modelled.
- `esp_wifi_connect()` and `gpio_set_level()`: modelled only as an attempt counter and a `GpioWrite` value.
- `retry_num`: modelled as an unbounded integer. It is proved to stay within 0..5, so the C `int` width never matters.
- main/mqtt_helper.c: the broker session handler and publishing loop. Its effects are calls into the MQTT client and FreeRTOS tasks, plus floating-point formatting.
- main/main.cpp: boot sequencing, NVS, GPIO setup and task creation. All of these are platform calls.
