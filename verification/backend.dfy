/**
 * The platform sleep routines, seen from the component as opaque calls.
 * Each call is recorded as an event; on hardware the call that enters deep
 * sleep does not return, so nothing after it in a trace would take effect.
 */
module Backend {
  import opened Types

  /** Which of the mutually exclusive `USE_*` build branches is compiled in; `Host` is none of them. */
  datatype Platform = Esp32 | Esp8266 | LibreTiny | Host

  /** The wake-up pin, reduced to what the component asks of it: `get_pin()` and `is_inverted()`. */
  datatype Pin = Pin(number: nat, inverted: bool)

  datatype Event =
    | TimerWakeup(us: u64)               // esp_sleep_enable_timer_wakeup(us)
    | DeepSleepStart                     // esp_deep_sleep_start()
    | DeepSleep(us: u64)                 // ESP.deepSleep(us) / lt_deep_sleep_start(us); 0 means no timer
    | GpioWakeup(pin: nat, level: bool)  // lt_enable_gpio_wakeup(pin, level)

  /** The calls after which execution does not continue on hardware. */
  predicate EntersSleep(e: Event) {
    e.DeepSleepStart? || e.DeepSleep?
  }

  /** A trace that enters sleep exactly once, as its final call. */
  predicate EndsInSleep(events: seq<Event>) {
    && |events| > 0
    && EntersSleep(events[|events| - 1])
    && forall i :: 0 <= i < |events| - 1 ==> !EntersSleep(events[i])
  }

  /** A trace that makes exactly one call entering sleep, wherever it stands. */
  predicate EntersSleepOnce(events: seq<Event>) {
    exists i :: 0 <= i < |events| && EntersSleep(events[i]) &&
      forall j :: 0 <= j < |events| && j != i ==> !EntersSleep(events[j])
  }

  /** The level that wakes the device: high unless the pin is inverted. */
  function WakeLevel(pin: Pin): (level: bool)
    ensures level != pin.inverted
  {
    !pin.inverted
  }

  /**
   * The argument handed to `ESP.deepSleep` and `lt_deep_sleep_start`: the
   * configured microseconds, or 0 (sleep until another wake source) when absent.
   */
  function SleepArgument(d: Option<u64>): (us: u64)
    ensures us == 0 <==> d.None? || d == Some(0)
    ensures d.Some? ==> us == d.value
  {
    match d
    case Some(v) => v
    case None => 0
  }

  /** How the backend reads that argument: 0 is "no timer", anything else a timer of that length. */
  function ReadSleepArgument(us: u64): (d: Option<u64>)
    ensures d.Some? <==> us != 0
    ensures d.Some? ==> d.value == us
  {
    if us == 0 then None else Some(us)
  }

  /** Encoding then reading gives back every duration except an explicit zero. */
  lemma SleepArgumentRoundTrip(d: Option<u64>)
    requires d != Some(0)
    ensures ReadSleepArgument(SleepArgument(d)) == d
  {
  }

  /** Reading then encoding is the identity on every argument. */
  lemma ReadSleepArgumentRoundTrip(us: u64)
    ensures SleepArgument(ReadSleepArgument(us)) == us
  {
  }

  /**
   * On ESP8266 and LibreTiny, whose sleep call takes the duration as its argument,
   * a configured zero cannot be told apart from an absent duration.
   */
  lemma ZeroDurationIsIndefinite()
    ensures SleepArgument(Some(0)) == SleepArgument(None)
    ensures ReadSleepArgument(SleepArgument(Some(0))) == None
  {
  }

  /** The GPIO wake-up request for the configured pin, if any. */
  function PinWakeup(pin: Option<Pin>): (r: seq<Event>)
    ensures |r| <= 1
    ensures forall n, l :: GpioWakeup(n, l) in r <==> pin == Some(Pin(n, !l))
    ensures forall i :: 0 <= i < |r| ==> r[i].GpioWakeup?
  {
    match pin
    case Some(p) => [GpioWakeup(p.number, WakeLevel(p))]
    case None => []
  }

  /** The ESP32 branch: arm the timer only when a duration is present, then start deep sleep. */
  function Esp32Request(d: Option<u64>): (r: seq<Event>)
    ensures |r| == (if d.Some? then 2 else 1)
    ensures EndsInSleep(r) && r[|r| - 1] == DeepSleepStart
    ensures EntersSleepOnce(r)
    ensures forall us: u64 :: TimerWakeup(us) in r <==> d == Some(us)
  {
    var r := (if d.Some? then [TimerWakeup(d.value)] else []) + [DeepSleepStart];
    assert EntersSleep(r[|r| - 1]);
    r
  }

  /** The LibreTiny branch in the order the code has it: the pin is armed after the sleep call. */
  function LibreTinyAsWritten(d: Option<u64>, pin: Option<Pin>): (r: seq<Event>)
    ensures |r| >= 1 && r[0] == DeepSleep(SleepArgument(d))
    ensures r[1..] == PinWakeup(pin)
    ensures EntersSleepOnce(r)
  {
    var r := [DeepSleep(SleepArgument(d))] + PinWakeup(pin);
    assert EntersSleep(r[0]);
    r
  }

  /** With a wake-up pin, the as-written LibreTiny trace arms the pin only after the call that does not return. */
  lemma LibreTinyAsWrittenArmsPinTooLate(d: Option<u64>, pin: Pin)
    ensures var r := LibreTinyAsWritten(d, Some(pin));
            EntersSleep(r[0]) && r[|r| - 1] == GpioWakeup(pin.number, !pin.inverted) && !EndsInSleep(r)
  {
  }

  /** The LibreTiny branch with the wake-up pin armed before the sleep call. */
  function LibreTinyRequest(d: Option<u64>, pin: Option<Pin>): (r: seq<Event>)
    ensures EndsInSleep(r) && r[|r| - 1] == DeepSleep(SleepArgument(d))
    ensures forall n, l :: GpioWakeup(n, l) in r <==> pin == Some(Pin(n, !l))
    ensures multiset(r) == multiset(LibreTinyAsWritten(d, pin))
  {
    PinWakeup(pin) + [DeepSleep(SleepArgument(d))]
  }

  /**
   * The backend calls `begin_sleep` makes once it decides to sleep, in the order
   * the code makes them. The sleep-entering call is last except on LibreTiny with
   * a wake-up pin, where the pin is armed after it.
   */
  function SleepRequest(p: Platform, d: Option<u64>, pin: Option<Pin>): (r: seq<Event>)
    ensures r == [] <==> p == Host
    ensures p != Host ==> EntersSleepOnce(r)
    ensures forall i, j :: 0 <= i < j < |r| ==> r[i] != r[j]
    ensures p != Host && !(p == LibreTiny && pin.Some?) ==> EndsInSleep(r)
    ensures p == LibreTiny && pin.Some? ==> |r| == 2 && EntersSleep(r[0]) && r[1].GpioWakeup?
    ensures forall us: u64 :: TimerWakeup(us) in r <==> p == Esp32 && d == Some(us)
    ensures forall us: u64 :: DeepSleep(us) in r <==> (p == Esp8266 || p == LibreTiny) && us == SleepArgument(d)
    ensures DeepSleepStart in r <==> p == Esp32
    ensures forall n, l :: GpioWakeup(n, l) in r <==> p == LibreTiny && pin == Some(Pin(n, !l))
  {
    match p
    case Esp32 => Esp32Request(d)
    case Esp8266 => var r := [DeepSleep(SleepArgument(d))]; assert EntersSleep(r[0]); r
    case LibreTiny => LibreTinyAsWritten(d, pin)
    case Host => []
  }

  /**
   * On ESP32 a configured zero is not indefinite: it arms the timer with 0, while an
   * absent duration arms no timer.
   */
  lemma Esp32ZeroIsNotIndefinite(pin: Option<Pin>)
    ensures SleepRequest(Esp32, Some(0), pin) == [TimerWakeup(0), DeepSleepStart]
    ensures SleepRequest(Esp32, None, pin) == [DeepSleepStart]
  {
  }
}
