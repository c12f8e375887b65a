# Virtual joystick: press, hold, repeat

This project models the `VirtualJoystick` React component (components/virtual-joystick.tsx). The component is a four-button direction pad. Pressing a button (by touch or by mouse) highlights its direction. The press hands the direction to the optional `onDirectionChange` observer once, then again on every firing of a 100 ms interval. Releasing hands the observer `null` and clears the interval. When the component unmounts, its cleanup clears the interval the ref holds.

The project has two modules:

- `JoystickMachine` (joystick_machine.dfy) holds the state machine as values. A `Machine` has five parts:
  - `active`: the `activeDirection` state.
  - `ref`: the handle in `intervalRef.current`.
  - `live`: the host's running intervals, by handle, each with the direction its callback captured.
  - `issued`: the next handle the host will give out.
  - `torn`: the cleanup has run.

  `setInterval` adds an interval to `live` and does not stop any other. Only `clearInterval` on the handle in the ref (`Cancel`) stops one. The proved invariant `Consistent` says that at most one interval runs, and that when one runs, the ref holds it and it repeats the active direction. For a press it rests on the clearing at line 22. For one `Input`, `Next` gives the new state and `Emits` gives what is handed to the observer. `Tick(h)` is one firing of interval h. `Final` and `Trace` extend these to sequences of inputs. `Route` is the table from each button's DOM events to handlers.
- `VirtualJoystick` (joystick.dfy) holds two classes. `Timers` is the host's interval table, with `SetInterval` and `ClearInterval`. `Joystick` is the component:
  - fields `active` and `ref`;
  - `log`, the values the observer received;
  - `const observed`, whether an observer was passed;
  - a ghost flag `torn`.

  Each handler is proved to move the object and the interval table exactly as `Next` and `Emits` say. The object also keeps a ghost record `inputs` of every input since mount. Its invariant `Valid()` says that its state is `Final(Idle, inputs)` and that the observer has heard `Trace(Idle, inputs)`, so the lemmas of `JoystickMachine` about runs apply to the object's own history. Without an observer, emissions are dropped and the state moves the same way.

The handlers have no guard against running after the unmount cleanup, so `Press` and `Release` may follow `Teardown`. The cleanup clears the interval but leaves `activeDirection` and `intervalRef.current` as they are. So an active direction and a live interval coincide only before the cleanup (`LiveTimerIffActive`). After it, `Consistent` still holds.

## Model

| member | source | states |
|---|---|---|
| JoystickMachine.Route | components/virtual-joystick.tsx:54-58 | on every button, the result is `Press(zone)` exactly when the event is touch-start or mouse-down; every other event goes to `Release` |
| JoystickMachine.Cancel | components/virtual-joystick.tsx:22 | clearing the ref's interval if it holds one: the interval the ref holds stops running and every other interval runs on with the direction it captured; with a null ref nothing stops (the same test recurs at lines 31-32 and 39) |
| JoystickMachine.Next | components/virtual-joystick.tsx:17-41 | the state after each handler. A press (17-26) highlights d, stops the ref's interval and stores a fresh handle whose interval carries d. A release (28-35) nulls the highlight and the ref and stops the ref's interval. A firing (23-25) changes nothing. The cleanup (37-41) stops the ref's interval, keeps `active` and the ref, and sets the torn flag. No handler stops any interval but the ref's, and only a press starts one |
| JoystickMachine.Emits | components/virtual-joystick.tsx:17-35 | what each handler hands the observer: at most one value; null exactly on a release (line 30); a direction only from a press of it (line 19) or from a firing of a running interval that captured it (line 24); nothing from the cleanup or from a firing of a stopped interval |
| JoystickMachine.ModalitiesConverge | components/virtual-joystick.tsx:68-72 | for every zone, touch-start and mouse-down give the same `Press(zone)`; touch-end, mouse-up and mouse-leave all give `Release` (the same table as the up button, for every zone) |
| JoystickMachine.PressRestartsTimer | components/virtual-joystick.tsx:17-26 | from a consistent state, `Press(d)` sets `active` to d and emits exactly one d. The interval the ref held stops running. The only live interval is then a fresh one, stored in the ref, carrying d |
| JoystickMachine.ReleaseStopsTimer | components/virtual-joystick.tsx:28-35 | from a consistent state, `Release` clears `active` and the ref, emits exactly one null and leaves no interval running. In any idle state before the cleanup (at mount or after earlier presses and releases) it changes nothing but still emits null. A second release changes nothing further |
| JoystickMachine.TickEmitsCaptured | components/virtual-joystick.tsx:23-25 | a firing of interval h emits the direction h captured, whatever `active` holds, and changes no state; a handle that no longer runs emits nothing |
| JoystickMachine.IntervalKeepsCapture | components/virtual-joystick.tsx:23-25 | from a consistent state, no input changes the direction an interval captured while it keeps running, and firing any handle other than the one in the ref emits nothing |
| JoystickMachine.TeardownIdempotent | components/virtual-joystick.tsx:37-41 | the cleanup emits nothing, stops the interval the ref holds and keeps `active` and the ref; a second cleanup changes nothing and emits nothing |
| JoystickMachine.TeardownStopsTimers | components/virtual-joystick.tsx:37-41 | from a consistent state, no interval runs after the cleanup |
| JoystickMachine.NextKeepsConsistent | components/virtual-joystick.tsx:17-41 | every input preserves `Consistent`: either no interval runs, or exactly one runs, held by the ref and repeating the active direction. For a press this needs the clearing at line 22 |
| JoystickMachine.FinalKeepsConsistent | components/virtual-joystick.tsx:17-41 | `Consistent` holds after any sequence of inputs from a consistent state |
| JoystickMachine.NoTeardownKeepsTorn | components/virtual-joystick.tsx:37-41 | only the cleanup sets the torn flag: a sequence with no `Teardown` leaves it as it was |
| JoystickMachine.LiveTimerIffActive | components/virtual-joystick.tsx:14-35 | in every state reachable from mount before the cleanup, an interval runs exactly when a direction is active. It is then the only one, the ref holds it and it repeats that direction; otherwise the ref is null |
| JoystickMachine.TicksKeepState | components/virtual-joystick.tsx:23-25 | any sequence of firings leaves the state unchanged |
| JoystickMachine.QuietTicks | components/virtual-joystick.tsx:31-34 | with no interval running, firings of any handles emit nothing and change nothing |
| JoystickMachine.HeldTicks | components/virtual-joystick.tsx:23-25 | while interval h runs, n firings of it emit its captured direction exactly n times and change no state |
| JoystickMachine.PressThenHold | components/virtual-joystick.tsx:17-26 | from a consistent state, `Press(d)` followed by n firings of its interval emits exactly n + 1 copies of d and leaves d held |
| JoystickMachine.ReleaseThenTicks | components/virtual-joystick.tsx:28-35 | from a consistent state, after `Release` no firing emits anything until the next press: the whole run emits one null |
| JoystickMachine.PressReleaseThenTicks | components/virtual-joystick.tsx:17-35 | `Press(d)`, then `Release`, then any firings emit exactly d then null, and end with nothing active and no interval running |
| JoystickMachine.TeardownThenTicks | components/virtual-joystick.tsx:37-41 | from a consistent state, after the cleanup no firing emits anything; no interval runs and `active` is unchanged |
| JoystickMachine.TeardownTwiceIsOnce | components/virtual-joystick.tsx:37-41 | two cleanups followed by any inputs give the same final state and the same emissions as one cleanup followed by those inputs |
| JoystickMachine.StepSources | components/virtual-joystick.tsx:17-35 | one input adds no direction to the running intervals or to the emissions except the direction it presses |
| JoystickMachine.TraceSources | components/virtual-joystick.tsx:17-26 | every direction the observer hears in a run comes from an interval running at its start or from a press of that direction within the run |
| JoystickMachine.Preemption | components/virtual-joystick.tsx:22-25 | from a consistent state, after `Press(d')` a different direction d is never emitted again in any continuation that does not press d |
| JoystickMachine.LastPressWins | components/virtual-joystick.tsx:18-25 | for any run from a consistent state whose last press is at index j and is followed only by firings: `active` is that press's direction, and the ref holds the only running interval, which repeats it |
| JoystickMachine.PressPressThenHold | components/virtual-joystick.tsx:17-26 | `Press(d)`, then `Press(d')`, then n firings of the new interval emit d once, then d' exactly n + 1 times. The first press's interval never fires again |
| JoystickMachine.HoldUpScenario | components/virtual-joystick.tsx:17-35 | press up, two firings, release, one more firing: the observer hears up three times then null, and no interval runs |
| JoystickMachine.ReleaseFromIdleScenario | components/virtual-joystick.tsx:28-35 | a release with no prior press emits null once and leaves the idle state unchanged |
| VirtualJoystick.Timers.constructor | components/virtual-joystick.tsx:15 | the host starts with no running interval |
| VirtualJoystick.Timers.SetInterval | components/virtual-joystick.tsx:23-25 | `setInterval` returns a fresh handle and adds an interval carrying the captured direction; every other interval keeps running |
| VirtualJoystick.Timers.ClearInterval | components/virtual-joystick.tsx:22 | `clearInterval(h)` stops interval h and no other |
| VirtualJoystick.Joystick.constructor | components/virtual-joystick.tsx:13-15 | at mount nothing is active, the ref is null, no interval runs, nothing has been emitted, the input history is empty, and the invariant holds |
| VirtualJoystick.Joystick.Emit | components/virtual-joystick.tsx:19 | `onDirectionChange?.(s)`: `log` grows by s when an observer was given and stays the same otherwise |
| VirtualJoystick.Joystick.Press | components/virtual-joystick.tsx:17-26 | `active` becomes d, the ref holds a fresh handle, and the only running interval is that one, carrying d. The observer hears d once. The new state and emissions are exactly `Next` and `Emits` of `Press(d)`. The invariant is kept, which needs the clearing at line 22. The input is appended to the history, so `Valid()` ties the state and the log to `Final` and `Trace` of every input since mount |
| VirtualJoystick.Joystick.Release | components/virtual-joystick.tsx:28-35 | `active` and the ref become null and no interval runs. The observer hears null once. This is exactly `Next` and `Emits` of `Release`, and the invariant is kept. The input is appended to the history, so `Valid()` ties the state and the log to `Final` and `Trace` of every input since mount |
| VirtualJoystick.Joystick.Tick | components/virtual-joystick.tsx:23-25 | the fields are unchanged. The observer hears interval h's captured direction if h still runs, else nothing. This is exactly `Next` and `Emits` of `Tick(h)`. The input is appended to the history, so `Valid()` ties the state and the log to `Final` and `Trace` of every input since mount |
| VirtualJoystick.Joystick.Teardown | components/virtual-joystick.tsx:37-41 | no interval runs. `active` and the ref are unchanged, and nothing is emitted. This is exactly `Next` and `Emits` of `Teardown`, and the invariant is kept. The input is appended to the history, so `Valid()` ties the state and the log to `Final` and `Trace` of every input since mount |
| VirtualJoystick.Joystick.Dispatch | components/virtual-joystick.tsx:99-103 | a DOM event on a zone's button moves the object exactly as the handler `Route` picks for it (the same wiring as the other three buttons). It appends that handler's input to the history |
| VirtualJoystick.HoldUpByTouch | components/virtual-joystick.tsx:54-58 | a client of the class. A touch press on up, two firings, a touch-end and one more firing make the observer hear up three times then null. No interval is left running |

## Left out

- Layout, styling and icons (components/virtual-joystick.tsx:43-110) are not modelled. That includes `buttonClass`, which highlights the button whose zone equals `activeDirection`.
- The 100 ms period and the relative timing of intervals are not modelled. Each firing of an interval is an explicit `Tick(h)`, so "held for T ms" becomes "n firings".
- React's batching and asynchronous `setActiveDirection` are not modelled. State updates are immediate assignments.
- `useRef` identity and `useEffect` scheduling are not modelled. The unmount cleanup is an explicit `Teardown` call.
- `observed` is fixed for the component's life. In the code, `onDirectionChange` is read from each render's props (line 13). An interval keeps calling the `onDirectionChange` of the render in which its press ran (lines 23-25), while later presses and releases call the current prop (lines 19 and 30). A change of that prop while a direction is held is not modelled: for example, mounting without an observer, pressing up, then re-rendering with one loses every firing but delivers the release's null, whereas the model logs nothing or everything.
- What the observer does with the values is not modelled. It is foreign code; only the sequence of values passed to it is kept.
- The observer is assumed to return normally. The code calls it before touching the interval (line 19 before lines 22-25, line 30 before lines 31-34). If it throws in `handleRelease`, the interval is never cleared: it keeps firing while `activeDirection` is null. If it throws in `handlePress`, the old interval keeps running with the old direction while `activeDirection` holds the new one. Either way `Consistent` no longer holds. Neither case is modelled.
- `handlePress` accepts `null` by its type, but no button ever passes it. `Press` takes one of the four directions only.
- The test `if (intervalRef.current)` is modelled as "the ref holds a handle". Browsers return positive integers and Node returns objects, so a handle is never falsy.
- React delivers no events to an unmounted component. The model does not forbid `Press` or `Release` after `Teardown`, because the handlers themselves have no guard.
- Multi-touch and simultaneous zones are not modelled. The component has one shared ref and no combination logic.
