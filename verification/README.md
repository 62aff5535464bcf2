# Deep sleep component of ESPHome, modelled in Dafny

This project models `DeepSleepComponent`, the ESPHome component that puts a
node into deep sleep. The component holds:

- an optional sleep duration in microseconds;
- an optional wake-up pin;
- a declared but unused run duration;
- a `prevent_` hold;
- a `next_enter_deep_sleep_` pending flag.

It also owns the process-wide `global_has_deep_sleep` flag.

The model is a functional state machine. `DeepSleep.State` is an immutable
record of those fields. Each public operation is a pure function from a state
to a new state. The two operations that can reach the platform (`begin_sleep`
and `loop`) also return the platform calls they make, as a sequence of
`Backend.Event`s. The platform routines are opaque. Each one is recorded as an
event and is never given an effect:

- `esp_sleep_enable_timer_wakeup` becomes `TimerWakeup(us)`;
- `esp_deep_sleep_start` becomes `DeepSleepStart`;
- `ESP.deepSleep` and `lt_deep_sleep_start` become `DeepSleep(us)`;
- `lt_enable_gpio_wakeup` becomes `GpioWakeup(pin, level)`.

The build-time `#ifdef` branches become an explicit `Backend.Platform` value:
`Esp32`, `Esp8266`, `LibreTiny`, or `Host` (none of the three, where
`begin_sleep` makes no platform call).

Files:

- `types.dfy`: `u32`/`u64`, `Option`, and the C wrap-around and truncating cast.
- `backend.dfy`: platforms, events, and the calls each platform branch makes.
- `deep_sleep_component.dfy`: the component's state and operations.
- `session.dfy`: sequences of calls on one component, and what holds over all of them.

### Behaviour worth noting

- The pending flag is never cleared. A deferred request is retried on every
  `loop` tick, and `loop` itself never changes the state.
- On LibreTiny the wake-up pin is armed after the sleep call, as the code does it.
  The reordered version appears only as the corrected half of the finding below.
- A stored zero duration means "no timer" on ESP8266 and LibreTiny, but arms a zero-length timer on ESP32.
- On a platform with no backend, `begin_sleep` returns without making a call.

## Model

| member | source | states |
|---|---|---|
| Types.WrapU64 | esphome/components/deep_sleep/deep_sleep_component.cpp:32 | unsigned 64-bit product: equal to the mathematical value when it is below 2^64 |
| Types.TruncU32 | esphome/components/deep_sleep/deep_sleep_component.cpp:19 | the `(uint32_t)` cast keeps a value below 2^32 unchanged |
| Backend.WakeLevel | esphome/components/deep_sleep/deep_sleep_component.cpp:63 | the wake level is the opposite of the pin's inversion flag |
| Backend.SleepArgument | esphome/components/deep_sleep/deep_sleep_component.cpp:49-61 | ESP8266/LibreTiny sleep argument: the stored duration when present, 0 when absent; 0 exactly for absent or an explicit zero |
| Backend.ReadSleepArgument | esphome/components/deep_sleep/deep_sleep_component.cpp:53 | the backend's reading of that argument: a timer is read iff the argument is non-zero, and then it lasts that many microseconds |
| Backend.SleepArgumentRoundTrip | esphome/components/deep_sleep/deep_sleep_component.cpp:50-53 | encoding then reading recovers every duration except an explicit zero |
| Backend.ReadSleepArgumentRoundTrip | esphome/components/deep_sleep/deep_sleep_component.cpp:57-61 | reading then encoding recovers every argument |
| Backend.ZeroDurationIsIndefinite | esphome/components/deep_sleep/deep_sleep_component.cpp:49-61 | on ESP8266 and LibreTiny a configured zero is passed exactly like an absent duration, i.e. as "sleep until another wake source" |
| Backend.Esp32ZeroIsNotIndefinite | esphome/components/deep_sleep/deep_sleep_component.cpp:43-47 | on ESP32 a configured zero arms the timer with 0, while an absent duration arms no timer |
| Backend.PinWakeup | esphome/components/deep_sleep/deep_sleep_component.cpp:62-65 | a GPIO wake-up request on pin n at level l exists iff the pin is set, its number is n and it is inverted iff l is low |
| Backend.Esp32Request | esphome/components/deep_sleep/deep_sleep_component.cpp:43-47 | ESP32: the timer is armed with d iff the duration is present and equal to d, at most once (two calls with a duration, one without); the trace ends in the one sleep-start call |
| Backend.LibreTinyAsWritten | esphome/components/deep_sleep/deep_sleep_component.cpp:56-66 | LibreTiny as written: the first call is the sleep call with the encoded duration, followed by the pin request |
| Backend.LibreTinyAsWrittenArmsPinTooLate | esphome/components/deep_sleep/deep_sleep_component.cpp:56-66 | with a wake-up pin, the as-written order puts the GPIO request after the call that enters sleep |
| Backend.LibreTinyRequest | esphome/components/deep_sleep/deep_sleep_component.cpp:56-66 | LibreTiny corrected: the same calls (as a multiset) with the sleep call last and unique |
| Backend.SleepRequest | esphome/components/deep_sleep/deep_sleep_component.cpp:43-66 | per platform, in the code's order, no call repeated: no call on Host; otherwise exactly one sleep-entering call, which is last except on LibreTiny with a pin, where the GPIO request follows it; timer only on ESP32 and only with a duration; encoded duration on ESP8266/LibreTiny; GPIO request only on LibreTiny with a pin, at level `!inverted` |
| DeepSleep.Setup | esphome/components/deep_sleep/deep_sleep_component.cpp:11-14 | `setup` raises the global flag and changes nothing else |
| DeepSleep.DumpConfig | esphome/components/deep_sleep/deep_sleep_component.cpp:16-21 | a duration line is printed iff a duration is stored; the printed ms is the stored microseconds rounded down to whole ms |
| DeepSleep.SetSleepDuration | esphome/components/deep_sleep/deep_sleep_component.cpp:31-33 | stores exactly `ms * 1000` microseconds (no wrap), a whole number of ms equal to `ms`, and changes nothing else |
| DeepSleep.SetWakeupPin | esphome/components/deep_sleep/deep_sleep_component.h:25 | replaces only the wake-up pin |
| DeepSleep.PreventDeepSleep | esphome/components/deep_sleep/deep_sleep_component.cpp:69 | sets the hold and changes nothing else |
| DeepSleep.AllowDeepSleep | esphome/components/deep_sleep/deep_sleep_component.cpp:70 | clears the hold and changes nothing else |
| DeepSleep.BeginSleep | esphome/components/deep_sleep/deep_sleep_component.cpp:35-67 | held and non-manual: only the pending flag is set and no call is made; otherwise the state is unchanged and the calls are exactly the platform's request sequence for the stored duration and pin; a call is made iff not deferred and the platform has a backend, and then exactly one call enters sleep |
| DeepSleep.BeginSleepDefault | esphome/components/deep_sleep/deep_sleep_component.h:33 | with no argument: held means only the pending flag is set and no call is made; not held means the state is unchanged and the calls are exactly the platform's request sequence |
| DeepSleep.Loop | esphome/components/deep_sleep/deep_sleep_component.cpp:23-26 | never changes the state; calls reach the platform iff an entry is pending, not held, and the platform has a backend; when pending it is `begin_sleep(false)` |
| DeepSleep.InitialState | esphome/components/deep_sleep/deep_sleep_component.h:38-42 | initially not held, not pending, no pin, no sleep or run duration (h:38-42), and the global flag low (its initialiser is at deep_sleep_component.cpp:9) |
| DeepSleep.InitialBeginSleepDoesNotDefer | esphome/components/deep_sleep/deep_sleep_component.h:41-42 | from the initial state a non-manual request is not deferred and goes to the backend with no timer and no pin |
| DeepSleep.ManualOverridesHold | esphome/components/deep_sleep/deep_sleep_component.cpp:36-39 | a manual request makes the same platform calls whether or not the hold is set, and leaves the state unchanged |
| DeepSleep.PreventAllowLastWins | esphome/components/deep_sleep/deep_sleep_component.cpp:69-70 | prevent and allow are idempotent and the last one wins; two prevents then one allow leave no hold |
| DeepSleep.SetSleepDurationDumpRoundTrip | esphome/components/deep_sleep/deep_sleep_component.cpp:16-33 | after `set_sleep_duration(ms)`, `dump_config` prints exactly `ms` |
| Session.Apply | esphome/components/deep_sleep/deep_sleep_component.h:24-35 | of the public calls, only `loop` and `begin_sleep` reach the platform; only prevent/allow change the hold; no call clears the global flag or sets the run duration |
| Session.Run | esphome/components/deep_sleep/deep_sleep_component.h:40 | over any sequence of calls the run duration is unchanged and a raised global flag stays raised |
| Session.RunDurationNeverSet | esphome/components/deep_sleep/deep_sleep_component.h:40 | from the initial state the run duration stays absent for ever |
| Session.SetupRaisesGlobalFlag | esphome/components/deep_sleep/deep_sleep_component.cpp:9-14 | any sequence of calls containing `setup` ends with the global flag raised |
| Session.PreventedNeverReachesBackend | esphome/components/deep_sleep/deep_sleep_component.cpp:36-39 | while held, calls that neither allow nor request manually never reach the platform, and the hold stays |
| Session.PendingNeverCleared | esphome/components/deep_sleep/deep_sleep_component.cpp:23-39 | once an entry is pending it stays pending through any calls |
| Session.DrainOnFirstTickAfterAllow | esphome/components/deep_sleep/deep_sleep_component.cpp:23-39 | a deferred entry, held through any holding calls, reaches the platform with exactly the stored duration and pin on the first tick after `allow_deep_sleep` |
| Session.SetWakeupPinThenSleep | esphome/components/deep_sleep/deep_sleep_component.cpp:62-64 | after `set_wakeup_pin(q)`, a manual LibreTiny request makes the sleep call and then the GPIO request on q's number at level `!inverted` |
| Session.PreventTwiceAllowOnce | esphome/components/deep_sleep/deep_sleep_component.cpp:69-70 | prevent, prevent, allow leaves no hold and makes no platform call |
| Session.RunPreservesWellFormed | esphome/components/deep_sleep/deep_sleep_component.cpp:31-33 | every call keeps the stored duration absent or a whole number of ms below 2^32 |
| Session.ReachableDumpIsExact | esphome/components/deep_sleep/deep_sleep_component.cpp:16-33 | in every reachable state the printed ms times 1000 equals the stored microseconds exactly |

## Left out

- Logging (`ESP_LOGCONFIG`, `ESP_LOGI`): no effect on state or platform calls. `dump_config` is modelled only as the value it prints.
- `get_loop_priority` and `get_setup_priority`: float constants with no part in the state machine.
- The platform routines themselves: they are foreign calls, recorded as events only. The calls that enter sleep (`esp_deep_sleep_start`, `ESP.deepSleep`, `lt_deep_sleep_start`) do not return on hardware, while the wake-source calls do; the model gives no call an effect, so a trace may go on after a sleep-entering call.
- `InternalGPIOPin` beyond `get_pin()` and `is_inverted()`. The pin number is an unbounded natural, because its C type is declared outside these files. The code keeps a pointer and reads the pin when `begin_sleep` runs; the model stores the pin as a value when `set_wakeup_pin` is called, treating the pin as immutable, since nothing in these files changes it.
- The component framework, which decides when `setup` and `loop` are called. `Session.Run` takes any order of calls.
- Configuration validation and code generation (`__init__.py`). The duration validator is defined outside these files, so the model lets `set_sleep_duration` receive any 32-bit value, 0 included.
- Cause-mapped run durations, wake-pin conflict modes (keep awake, invert wake-up), shutdown and powerdown hooks, and the time-of-day `until` trigger: none of them appears in the modelled source files.
- The automation actions declared in the configuration code (enter, prevent, allow): their C++ classes are not part of this model.

## Findings

| source | as written | input that shows it | evidently intended | confidence | as-written member | corrected member |
|---|---|---|---|---|---|---|
| esphome/components/deep_sleep/deep_sleep_component.cpp:56-66 | on LibreTiny, `lt_enable_gpio_wakeup` is called after `lt_deep_sleep_start` | LibreTiny build with a wake-up pin set: the sleep call comes first and does not return, so the pin is never armed | arm the GPIO wake-up before entering sleep, so the sleep call is the last one | medium; not executed | Backend.LibreTinyAsWritten (shown by Backend.LibreTinyAsWrittenArmsPinTooLate) | Backend.LibreTinyRequest (the component model keeps the code's order through Backend.SleepRequest) |
