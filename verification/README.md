# Smart plug controller — a Dafny model

This project models the controller of the Kasa smart-plug desktop app (`SmartPlugApp` in
`smart_plug_gui.py`). The app switches one socket of a networked power strip on or off.
It decides from the laptop's battery level and from whether a monitored application is
running. The user can also flip the socket by hand.

What is modelled:

- **The automation tick** (`control_smart_plug`). One pass of the `while self.running` loop
  is `Controller.TickStep`, and the loop is `Controller.Run`. The tick can be skipped for
  four reasons: monitoring has stopped, a manual override is set, the socket refresh raised,
  or there is no battery reading. Otherwise the tick works out a desired state. The app
  check comes first, then the threshold, then a full battery, then the hold band
  (`Policy.DesiredState`). A command is sent only when the desired state differs from the
  socket's state AND from `last_plug_state`, the last state the automation itself set. Only a
  command that does not raise updates `last_plug_state`.
- **The session start**. This is the part of `control_smart_plug` before the loop: discovery,
  the child-socket check, the Python list index `children[plug_number]` (negative indices
  included) and the first recording of `last_plug_state`.
- **The manual toggle** (`toggle_manual`). It is split at its first `await` into
  `BeginToggleStep` (the in-flight guard and setting both flags) and `FinishToggleStep` (the
  device part and the `finally`). This lets ticks and a second click come in between, as they
  can on the event loop. `ToggleStep` is a whole call with nothing interleaved.
- **`start_monitoring` / `stop_monitoring`**.
- **The helpers**: the default merge of `load_config`, the comma-separated app list of
  `save_config` with its round trip through the `",".join` shown in the settings field, and the
  case-insensitive process match of `is_app_running`.

Each state-changing operation is a function on a `State` value. The class
`Controller.SmartPlugApp` holds the same fields, and its methods update them in place. Each
method is proved to follow its function. The class invariant `Inv` says that a manual override
is only set while a toggle is in flight.

Behaviour of the code worth knowing, each captured by the model:

- A session that fails to start (no device, a plug number that is not an integer, no child
  sockets, or an index out of range) leaves `running` set, so a second "start" does nothing
  until monitoring is stopped (smart_plug_gui.py:343-352, 402; `OpenStep` keeps `running`).
- With no battery reading the tick skips the whole decision, even when a monitored app is
  running (smart_plug_gui.py:363-367).
- A failed socket refresh is simply retried on the next tick with the same handle. There is
  no re-discovery within a session.
- The debounce compares with the last state the automation set, and a manual toggle never
  updates that state. So the automation never confirms the same state twice in a row
  (`ConfirmedCommandsAlternate`), and it does not undo a manual flip back to that state
  (`Scenarios.ManualOffIsNotUndone`).
- `stop_monitoring` clears `manual_override` even while a toggle is in flight. After a restart,
  a tick can then send a command while the toggle is still running
  (`Scenarios.StopDuringToggle`). The automation is kept out only while the override is set
  (`OverrideSuspendsTicks`).

## Model

| member | source | states |
|---|---|---|
| Policy.DesiredState | smart_plug_gui.py:378-385 | A running monitored app gives ON whatever the battery level. With no app: battery below the threshold gives ON, a battery of 100 or more gives OFF, and the hold band keeps the socket's state. Equivalently, ON iff an app runs, or the battery is below the threshold, or the battery is below 100 and the socket is on. |
| Policy.DesiredAntitone | smart_plug_gui.py:380-385 | More charge never asks for more power: if a level gives ON, every lower level gives ON too. |
| Controller.HoldBandSendsNothing | smart_plug_gui.py:378-394 | Over any run whose ticks all read a battery in the hold band with no monitored app, no command is sent and `last_plug_state` is unchanged. |
| Controller.TickStep | smart_plug_gui.py:357-398 | A tick changes no state when monitoring has stopped, an override is set, the refresh raised or there is no battery. It reports each skip by its own reason, checked in that order: Stopped iff monitoring has stopped, then Suspended, RefreshFailed, NoBattery. Otherwise it records the app status, and it sends a command iff the decision differs both from the socket's state and from the recorded state; the command carries the decision. Only a successful command records its state; otherwise the record is unchanged. A tick never touches the flags, and it keeps the flag invariant. |
| Controller.SessionSurvivesFailures | smart_plug_gui.py:396-398 | Failed refreshes, missing battery readings and failed commands never end a session. A running session runs every tick, none reports Stopped, and `running` is still set afterwards. |
| Controller.OverrideSuspendsTicks | smart_plug_gui.py:358-360 | While `manual_override` is set, every tick reports Suspended, sends nothing and leaves the state unchanged. |
| Controller.RecordedStateIsLastConfirmed | smart_plug_gui.py:387-394 | After any run of ticks, `last_plug_state` is the state of the last command that succeeded. If no command succeeded, it is the value it had before. |
| Controller.ConfirmedCommandsAlternate | smart_plug_gui.py:387 | The successful commands of a run alternate ON/OFF, and the first differs from the recorded state: the debounce never confirms the same state twice in a row. |
| Controller.Run | smart_plug_gui.py:357-398 | The loop gives at most one result per tick and stops early only when `running` is false; a stopped controller runs no tick and changes nothing. |
| Controller.RunKeepsInv | smart_plug_gui.py:357-398 | A run of ticks keeps "override only while a toggle is in flight" and does not change `_toggle_in_progress`. |
| Controller.StartStep | smart_plug_gui.py:400-405 | Only a stopped controller starts a session, and afterwards `running` is set; nothing else changes. |
| Controller.StopStep | smart_plug_gui.py:407-411 | Stopping clears `running` and `manual_override`. It leaves `_toggle_in_progress` and the recorded states alone, and it keeps the flag invariant. |
| Controller.PyIndex | smart_plug_gui.py:282 | Python list indexing: an element is found iff the index lies in -len..len-1; a found element belongs to the list; a non-negative index counts from the front and a negative one from the end. |
| Controller.OpenStep | smart_plug_gui.py:343-356 | A session reaches its socket iff discovery found a device, the plug number field parses as an integer, the device has child sockets and the number is a valid Python index; it then reports that socket's state. Each failure has its own outcome, reported iff its condition holds: NotFound iff discovery found nothing; BadNumber iff a device was found and the number does not parse; NoSockets iff it parses and the device has no child sockets; BadIndex iff there are child sockets and the number is not a valid Python index. The state is recorded only when nothing was recorded yet. Every other outcome leaves the state unchanged, and no outcome clears `running`. |
| Controller.BeginToggleStep | smart_plug_gui.py:269-273 | A toggle is accepted iff none is in flight. A rejected call changes nothing; an accepted one sets both `_toggle_in_progress` and `manual_override`. |
| Controller.Target | smart_plug_gui.py:280-282 | A toggle addresses a socket iff the device was reached, the plug number parses and it is a valid Python index into the child sockets. |
| Controller.ToggleReportOf | smart_plug_gui.py:275-297 | The requested state is always the negation of the socket's state read at the start. Switched is reported iff a socket was addressed and every step succeeded. NoChildren is reported iff the number parsed and the device has no child sockets. A failed command or a failed refresh after it reports exactly the command asked for; an unreachable device, an unparsable number, a bad index or a failed first refresh reports a failure with no command. |
| Controller.FinishToggleStep | smart_plug_gui.py:298-305 | On every path (success, failure, no child sockets) both `_toggle_in_progress` and `manual_override` end false, and `last_plug_state` is untouched. |
| Controller.ToggleStep | smart_plug_gui.py:263-305 | A call while a toggle is in flight is rejected and changes nothing. Otherwise both flags end false and the report is that of the device run. `running`, `last_plug_state` and the recorded app status are never changed. |
| Controller.SmartPlugApp.constructor | smart_plug_gui.py:95-102 | A new controller is stopped, has no override and no toggle in flight, and has recorded nothing. |
| Controller.SmartPlugApp.StartMonitoring | smart_plug_gui.py:400-405 | The fields change as StartStep says, and the result says whether a session was started. |
| Controller.SmartPlugApp.StopMonitoring | smart_plug_gui.py:407-411 | The fields change as StopStep says. |
| Controller.SmartPlugApp.OpenSession | smart_plug_gui.py:343-356 | The fields change and the outcome is reported as OpenStep says. |
| Controller.SmartPlugApp.Tick | smart_plug_gui.py:357-398 | The fields change and the result is reported as TickStep says. The app check is computed by IsAppRunning. |
| Controller.SmartPlugApp.Monitor | smart_plug_gui.py:357 | The loop runs ticks while `running` holds; its results and final fields are those of Run. |
| Controller.SmartPlugApp.BeginToggle | smart_plug_gui.py:269-273 | The fields change as BeginToggleStep says. |
| Controller.SmartPlugApp.FinishToggle | smart_plug_gui.py:274-305 | The fields change and the report is given as FinishToggleStep says. |
| Controller.SmartPlugApp.ToggleManual | smart_plug_gui.py:263-305 | The fields change and the report is given as ToggleStep says. |
| Apps.IsAppRunning | smart_plug_gui.py:422-429 | True iff some process has a non-empty name that, lower-cased, equals some configured app name, lower-cased. |
| Apps.Strip | smart_plug_gui.py:223 | The result has no whitespace at either end and is a piece of the input with only whitespace before and after it, so exactly the surrounding whitespace is removed. An input already without surrounding whitespace is returned unchanged. |
| Apps.StripInfix | smart_plug_gui.py:223 | Every character of a stripped name occurs in the original text, so stripping never brings in a comma. |
| Apps.Join | smart_plug_gui.py:142 | An empty list shows as an empty field, and the first name begins the field; Split and SplitJoin give the inverse. |
| Apps.Split | smart_plug_gui.py:223 | Splitting at commas yields at least one piece, and no piece holds a comma. Joining the pieces with commas gives the text back. |
| Apps.SplitJoin | smart_plug_gui.py:142 | Splitting the comma-joined list of comma-free names gives the names back. |
| Apps.Clean | smart_plug_gui.py:223 | At most one name per piece; every piece that is not blank once stripped appears, stripped, in the result; every result entry is a non-empty stripped piece. Order and count are fixed by CleanOne and CleanAppend. |
| Apps.CleanOne | smart_plug_gui.py:223 | A single piece gives its stripped name, or nothing when it is blank once stripped. |
| Apps.CleanAppend | smart_plug_gui.py:223 | Cleaning two runs of pieces one after the other gives the two results one after the other: the filter keeps the pieces' order and drops only blank ones. |
| Apps.SplitAppend | smart_plug_gui.py:223 | Splitting two texts joined by a comma gives the pieces of the first followed by the pieces of the second. |
| Apps.CleanNonBlank | smart_plug_gui.py:223 | When no piece is blank, each piece is kept, stripped, in its own position. |
| Apps.ParseApps | smart_plug_gui.py:223 | Every parsed app name is non-empty, has no surrounding whitespace and contains no comma. Every comma-separated piece that is not blank appears stripped in the list, and every entry comes from such a piece. Order and count are fixed by ParseField and ParseAppend. |
| Apps.ParseField | smart_plug_gui.py:223 | A field with no comma saves its stripped text as one name, or nothing when it is blank. |
| Apps.ParseAppend | smart_plug_gui.py:223 | The list saved from two texts joined by a comma is the list from the first followed by the list from the second, so the names keep the order typed and each non-blank field gives exactly one name. |
| Apps.BlankFieldsDropped | smart_plug_gui.py:223 | For well-formed names a and b, empty fields between commas and a trailing comma add nothing: "a,,b," saves exactly [a, b]. |
| Apps.ParsePaddedNames | smart_plug_gui.py:223 | Names typed between commas with whitespace around them are saved stripped, in the order typed, with none lost. |
| Apps.ParseJoinRoundTrip | smart_plug_gui.py:223 | The settings field shows the list joined with commas (line 142). Parsing that text gives the same list back when every name is non-empty, stripped and comma-free. |
| Apps.ParseIdempotent | smart_plug_gui.py:223 | Parsing, showing and parsing again gives the same list as parsing once. |
| Config.LoadConfig | smart_plug_gui.py:20-42 | A missing or malformed file gives the defaults. Otherwise the result is the defaults overridden by the user's dictionary: every default key is present, every user key keeps its value, missing keys take the default value, and no other key appears. |
| Config.SaveConfig | smart_plug_gui.py:217-229 | The saved dictionary has exactly the default keys. It holds the IP address as typed, the converted plug number and threshold, the app list that ParseApps gives for the typed field (so its names are well-formed), and a check interval of 10. |
| Config.LoadAfterSave | smart_plug_gui.py:32-35 | Loading a file that save_config wrote adds nothing and changes nothing. |
| Config.SaveShownApps | smart_plug_gui.py:142 | Saving the settings form with the app list as shown (comma-joined) stores the same list. |
| Scenarios.TypedAppList | smart_plug_gui.py:223 | The field "chrome.exe, notepad.exe" saves the two names "chrome.exe" and "notepad.exe". |
| Scenarios.BatteryCycle | smart_plug_gui.py:378-398 | With threshold 20 and no app: 15% switches on, then 100% switches off. An app at 50% switches on again, inside the hold band. A failed refresh is reported, and the next tick still runs. |
| Scenarios.ManualOffIsNotUndone | smart_plug_gui.py:387 | After the automation switched the socket on and the user switched it off by hand, a low battery does not make the automation switch it on again. |
| Scenarios.StopDuringToggle | smart_plug_gui.py:407-411 | Stop and start while a toggle is in flight: the next tick sends a command although the toggle has not finished. |

## Left out

- `autostart_helper.py` is not part of this model. It only registers the app with the operating system (the Windows registry or a macOS plist) and holds no decision logic.
- The tkinter window, the collapsible settings pane, the status log, the tray icon and `info_update_loop` are display only. The model keeps no log messages, including the "apps running/closed" message. Of that message it keeps only the recorded app status (`lastAppRunning`).
- The asyncio thread, `run_coroutine_threadsafe`, `root.after` and the sleeps between ticks are left out. Each tick is one atomic step. In the source, a manual toggle can also begin at a tick's own `await` points, after the tick has checked the override; the model does not capture that interleaving. It also does not capture a loop whose pending sleep outlives a stop followed by a quick restart.
- Kasa network calls (`discover_single`, `update`, `turn_on`/`turn_off`, `close`) are inputs: the socket states found, whether each call raised, and the number of child sockets. The `self.plug` handle and its closing are not modelled. Errors while closing are only logged.
- psutil readings are inputs: the battery is an integer percentage or absent, and the process list is a list of optional names. The charging flag is not used by any decision.
- Apps.IsAppRunning: lower-casing covers ASCII letters only, where Python's `str.lower()` is Unicode-aware.
- Apps.Strip: the whitespace set is the one `str.strip()` uses within the first 256 code points. Other Unicode spaces are not stripped.
- Config.LoadConfig: reading and writing `config.json` (including the write-back of the merged dictionary) is left out. A file whose top level is not a JSON object is not modelled. JSON values other than integers, strings and string lists are one opaque value, and floating-point numbers are not modelled.
- Config.SaveConfig: it takes the plug number and threshold already converted. The `ValueError` that `int()` raises on a non-numeric field is not modelled.
- The reset of `last_app_names` when it is `None` (smart_plug_gui.py:355-356) is left out. That field is never `None`, so the reset never runs.
