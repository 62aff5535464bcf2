/**
 * `DeepSleepComponent`: the fields of the component plus the process-wide
 * `global_has_deep_sleep` flag, and each public operation as a pure
 * transition. Operations that may call the platform return the calls they
 * make as a trace of `Backend.Event`s.
 */
module DeepSleep {
  import opened Types
  import opened Backend

  datatype State = State(
    sleepDuration: Option<u64>,   // microseconds; absent = no timer wake-up
    wakeupPin: Option<Pin>,       // the `wakeup_pin_` pointer; None is nullptr
    runDuration: Option<u32>,     // declared, never written or read
    nextEnterDeepSleep: bool,     // an entry was deferred and is retried by `loop`
    prevent: bool,                // the hold set by `prevent_deep_sleep`
    globalHasDeepSleep: bool)     // process-wide: a deep-sleep component has been set up

  /** The state after an operation and the platform calls it made, in order. */
  datatype Step = Step(state: State, events: seq<Event>)

  /** Field initialisers of the component and of the global flag. */
  function Initial(): State {
    State(None, None, None, false, false, false)
  }

  /** `setup`: raises the global flag and touches nothing else. */
  function Setup(s: State): (r: State)
    ensures r.globalHasDeepSleep
    ensures r.(globalHasDeepSleep := s.globalHasDeepSleep) == s
  {
    s.(globalHasDeepSleep := true)
  }

  /**
   * The millisecond value `dump_config` prints, `(uint32_t)(sleep_duration_ / 1000)`,
   * or None when it prints no duration line.
   */
  function DumpConfig(s: State): (reported: Option<u32>)
    ensures reported.Some? <==> s.sleepDuration.Some?
    ensures reported.Some? && s.sleepDuration.value < 1000 * U32_LIMIT ==>
              reported.value * 1000 <= s.sleepDuration.value < reported.value * 1000 + 1000
  {
    match s.sleepDuration
    case Some(us) => Some(TruncU32(us / 1000))
    case None => None
  }

  /**
   * `set_sleep_duration(ms)`: stores the duration in microseconds, computed as a
   * 64-bit product that never wraps.
   */
  function SetSleepDuration(s: State, ms: u32): (r: State)
    ensures r.sleepDuration.Some? && r.sleepDuration.value == ms * 1000
    ensures r.sleepDuration.value % 1000 == 0 && r.sleepDuration.value / 1000 == ms
    ensures r.(sleepDuration := s.sleepDuration) == s
  {
    s.(sleepDuration := Some(WrapU64(ms * 1000)))
  }

  /** `set_wakeup_pin(pin)`: replaces the pin (possibly with nullptr) and nothing else. */
  function SetWakeupPin(s: State, pin: Option<Pin>): (r: State)
    ensures r.wakeupPin == pin
    ensures r.(wakeupPin := s.wakeupPin) == s
  {
    s.(wakeupPin := pin)
  }

  /** `prevent_deep_sleep`: holds off non-manual entry. */
  function PreventDeepSleep(s: State): (r: State)
    ensures r.prevent
    ensures r.(prevent := s.prevent) == s
  {
    s.(prevent := true)
  }

  /** `allow_deep_sleep`: releases the hold. */
  function AllowDeepSleep(s: State): (r: State)
    ensures !r.prevent
    ensures r.(prevent := s.prevent) == s
  {
    s.(prevent := false)
  }

  /** A `begin_sleep` call is deferred exactly when the hold is on and the call is not manual. */
  predicate Defers(s: State, manual: bool) {
    s.prevent && !manual
  }

  /**
   * `begin_sleep(manual)`: either records a pending entry and returns, or makes the
   * platform's sleep calls with the stored duration and pin. No field other than
   * the pending flag is ever changed, and the pending flag is never cleared.
   */
  function BeginSleep(s: State, p: Platform, manual: bool): (r: Step)
    ensures Defers(s, manual) ==> r.state == s.(nextEnterDeepSleep := true) && r.events == []
    ensures !Defers(s, manual) ==> r.state == s
    ensures r.events != [] <==> !Defers(s, manual) && p != Host
    ensures r.events != [] ==> EntersSleepOnce(r.events)
    ensures !Defers(s, manual) ==> r.events == SleepRequest(p, s.sleepDuration, s.wakeupPin)
  {
    if Defers(s, manual) then
      Step(s.(nextEnterDeepSleep := true), [])
    else
      Step(s, SleepRequest(p, s.sleepDuration, s.wakeupPin))
  }

  /** `begin_sleep()` with its default argument `manual = false`. */
  function BeginSleepDefault(s: State, p: Platform): (r: Step)
    ensures s.prevent ==> r.state == s.(nextEnterDeepSleep := true) && r.events == []
    ensures !s.prevent ==> r.state == s && r.events == SleepRequest(p, s.sleepDuration, s.wakeupPin)
    ensures !s.prevent ==> (r.events != [] <==> p != Host)
  {
    BeginSleep(s, p, false)
  }

  /**
   * `loop`: retries a pending entry through `begin_sleep()`. It never changes the
   * state, so a pending entry stays pending and is retried on every tick.
   */
  function Loop(s: State, p: Platform): (r: Step)
    ensures r.state == s
    ensures r.events != [] <==> s.nextEnterDeepSleep && !s.prevent && p != Host
    ensures s.nextEnterDeepSleep ==> r == BeginSleep(s, p, false)
  {
    if s.nextEnterDeepSleep then BeginSleepDefault(s, p) else Step(s, [])
  }

  /** In the initial state nothing is held, pending, configured or set up. */
  lemma InitialState()
    ensures !Initial().prevent && !Initial().nextEnterDeepSleep
    ensures Initial().wakeupPin.None? && Initial().sleepDuration.None? && Initial().runDuration.None?
    ensures !Initial().globalHasDeepSleep
  {
  }

  /** From the initial state a non-manual request goes straight to the backend, with no timer and no pin. */
  lemma InitialBeginSleepDoesNotDefer(p: Platform)
    ensures !Defers(Initial(), false)
    ensures BeginSleep(Initial(), p, false) == Step(Initial(), SleepRequest(p, None, None))
    ensures p != Host ==> EndsInSleep(BeginSleep(Initial(), p, false).events)
  {
  }

  /** A manual request makes the same calls and leaves the same state whatever the hold. */
  lemma ManualOverridesHold(s: State, p: Platform)
    ensures BeginSleep(s.(prevent := true), p, true).events == SleepRequest(p, s.sleepDuration, s.wakeupPin)
    ensures BeginSleep(s.(prevent := true), p, true).events == BeginSleep(s.(prevent := false), p, true).events
    ensures BeginSleep(s, p, true).state == s
  {
  }

  /** Prevent and allow are each idempotent, and the later of the two wins. */
  lemma PreventAllowLastWins(s: State)
    ensures PreventDeepSleep(PreventDeepSleep(s)) == PreventDeepSleep(s)
    ensures AllowDeepSleep(AllowDeepSleep(s)) == AllowDeepSleep(s)
    ensures AllowDeepSleep(PreventDeepSleep(s)) == AllowDeepSleep(s)
    ensures PreventDeepSleep(AllowDeepSleep(s)) == PreventDeepSleep(s)
    ensures !AllowDeepSleep(PreventDeepSleep(PreventDeepSleep(s))).prevent
  {
  }

  /** What `dump_config` prints after `set_sleep_duration(ms)` is exactly `ms`. */
  lemma SetSleepDurationDumpRoundTrip(s: State, ms: u32)
    ensures DumpConfig(SetSleepDuration(s, ms)) == Some(ms)
  {
  }
}
