/**
 * Sequences of calls on one component: the configuration setters, `setup`,
 * `loop` ticks and the automation-facing operations, applied in order. The
 * lemmas here state what holds over any such sequence.
 */
module Session {
  import opened Types
  import opened Backend
  import DS = DeepSleep

  /** One public call on the component. */
  datatype Call =
    | SetSleepDuration(ms: u32)
    | SetWakeupPin(pin: Option<Pin>)
    | Setup
    | Loop
    | BeginSleep(manual: bool)
    | PreventDeepSleep
    | AllowDeepSleep

  /** Performs one call. Only `loop` and `begin_sleep` ever reach the platform. */
  function Apply(s: DS.State, p: Platform, c: Call): (r: DS.Step)
    ensures r.events != [] ==> c.Loop? || c.BeginSleep?
    ensures r.state.runDuration == s.runDuration
    ensures s.globalHasDeepSleep ==> r.state.globalHasDeepSleep
    ensures c.Setup? ==> r.state.globalHasDeepSleep
    ensures r.state.prevent != s.prevent ==> c.PreventDeepSleep? || c.AllowDeepSleep?
  {
    match c
    case SetSleepDuration(ms) => DS.Step(DS.SetSleepDuration(s, ms), [])
    case SetWakeupPin(pin) => DS.Step(DS.SetWakeupPin(s, pin), [])
    case Setup => DS.Step(DS.Setup(s), [])
    case Loop => DS.Loop(s, p)
    case BeginSleep(manual) => DS.BeginSleep(s, p, manual)
    case PreventDeepSleep => DS.Step(DS.PreventDeepSleep(s), [])
    case AllowDeepSleep => DS.Step(DS.AllowDeepSleep(s), [])
  }

  /**
   * Performs the calls in order, collecting the platform calls. `run_duration_` is
   * never changed and the global flag, once raised, is never lowered.
   */
  function Run(s: DS.State, p: Platform, calls: seq<Call>): (r: DS.Step)
    ensures r.state.runDuration == s.runDuration
    ensures s.globalHasDeepSleep ==> r.state.globalHasDeepSleep
    decreases |calls|
  {
    if calls == [] then
      DS.Step(s, [])
    else
      var first := Apply(s, p, calls[0]);
      var rest := Run(first.state, p, calls[1..]);
      DS.Step(rest.state, first.events + rest.events)
  }

  /** Running two call sequences back to back is running their concatenation. */
  lemma {:induction false} RunAppend(s: DS.State, p: Platform, a: seq<Call>, b: seq<Call>)
    ensures var ra := Run(s, p, a);
            var rb := Run(ra.state, p, b);
            Run(s, p, a + b) == DS.Step(rb.state, ra.events + rb.events)
    decreases |a|
  {
    if a == [] {
      assert a + b == b;
    } else {
      var first := Apply(s, p, a[0]);
      assert (a + b)[0] == a[0];
      assert (a + b)[1..] == a[1..] + b;
      RunAppend(first.state, p, a[1..], b);
      var rest := Run(first.state, p, a[1..]);
      var rb := Run(rest.state, p, b);
      calc {
        Run(s, p, a + b);
        DS.Step(Run(first.state, p, a[1..] + b).state, first.events + Run(first.state, p, a[1..] + b).events);
        DS.Step(rb.state, first.events + (rest.events + rb.events));
        { assert first.events + (rest.events + rb.events) == (first.events + rest.events) + rb.events; }
        DS.Step(rb.state, Run(s, p, a).events + rb.events);
      }
    }
  }

  /** Every state reachable from the initial one has run `run_duration_` absent. */
  lemma RunDurationNeverSet(p: Platform, calls: seq<Call>)
    ensures Run(DS.Initial(), p, calls).state.runDuration.None?
  {
  }

  /** Any sequence that contains `setup` leaves the global flag raised. */
  lemma {:induction false} SetupRaisesGlobalFlag(s: DS.State, p: Platform, calls: seq<Call>)
    requires Setup in calls
    ensures Run(s, p, calls).state.globalHasDeepSleep
    decreases |calls|
  {
    if calls[0] != Setup {
      assert Setup in calls[1..];
      SetupRaisesGlobalFlag(Apply(s, p, calls[0]).state, p, calls[1..]);
    }
  }

  /** A call that can neither release the hold nor override it. */
  predicate Holding(c: Call) {
    !c.AllowDeepSleep? && c != BeginSleep(true)
  }

  /**
   * While prevented, no sequence of calls without `allow_deep_sleep` and without a
   * manual `begin_sleep` ever reaches the platform, and the hold stays on.
   */
  lemma {:induction false} PreventedNeverReachesBackend(s: DS.State, p: Platform, calls: seq<Call>)
    requires s.prevent
    requires forall i :: 0 <= i < |calls| ==> Holding(calls[i])
    ensures Run(s, p, calls).events == []
    ensures Run(s, p, calls).state.prevent
    decreases |calls|
  {
    if calls != [] {
      var first := Apply(s, p, calls[0]);
      assert Holding(calls[0]);
      assert first.events == [] && first.state.prevent;
      PreventedNeverReachesBackend(first.state, p, calls[1..]);
    }
  }

  /** A deferred request, once made, stays pending through any later calls. */
  lemma {:induction false} PendingNeverCleared(s: DS.State, p: Platform, calls: seq<Call>)
    requires s.nextEnterDeepSleep
    ensures Run(s, p, calls).state.nextEnterDeepSleep
    decreases |calls|
  {
    if calls != [] {
      PendingNeverCleared(Apply(s, p, calls[0]).state, p, calls[1..]);
    }
  }

  /**
   * A deferred request is drained on the first tick after `allow_deep_sleep`: the
   * platform receives exactly the calls a direct request would have made.
   */
  lemma DrainOnFirstTickAfterAllow(s: DS.State, p: Platform, holding: seq<Call>)
    requires s.prevent && s.nextEnterDeepSleep
    requires forall i :: 0 <= i < |holding| ==> Holding(holding[i])
    ensures var r := Run(s, p, holding + [AllowDeepSleep, Loop]);
            var held := Run(s, p, holding).state;
            r.events == SleepRequest(p, held.sleepDuration, held.wakeupPin)
  {
    PreventedNeverReachesBackend(s, p, holding);
    PendingNeverCleared(s, p, holding);
    RunAppend(s, p, holding, [AllowDeepSleep, Loop]);
    var held := Run(s, p, holding).state;
    assert [AllowDeepSleep, Loop][1..] == [Loop];
    assert Run(held, p, [AllowDeepSleep, Loop]).events == SleepRequest(p, held.sleepDuration, held.wakeupPin);
  }

  /** Two prevents and one allow leave the device eligible for sleep: the hold is a flag, not a counter. */
  lemma PreventTwiceAllowOnce(s: DS.State, p: Platform)
    ensures !Run(s, p, [PreventDeepSleep, PreventDeepSleep, AllowDeepSleep]).state.prevent
    ensures Run(s, p, [PreventDeepSleep, PreventDeepSleep, AllowDeepSleep]).events == []
  {
    assert [PreventDeepSleep, PreventDeepSleep, AllowDeepSleep][1..] == [PreventDeepSleep, AllowDeepSleep];
    assert [PreventDeepSleep, AllowDeepSleep][1..] == [AllowDeepSleep];
  }

  /** The stored duration is either absent or a whole number of milliseconds that fits in 32 bits. */
  predicate WellFormed(s: DS.State) {
    s.sleepDuration.Some? ==> s.sleepDuration.value % 1000 == 0 && s.sleepDuration.value / 1000 < U32_LIMIT
  }

  /** Every call keeps the stored duration well formed. */
  lemma {:induction false} RunPreservesWellFormed(s: DS.State, p: Platform, calls: seq<Call>)
    requires WellFormed(s)
    ensures WellFormed(Run(s, p, calls).state)
    decreases |calls|
  {
    if calls != [] {
      var first := Apply(s, p, calls[0]);
      assert WellFormed(first.state);
      RunPreservesWellFormed(first.state, p, calls[1..]);
    }
  }

  /** In every reachable state, the value `dump_config` prints times 1000 is exactly the stored duration. */
  lemma ReachableDumpIsExact(p: Platform, calls: seq<Call>)
    ensures var s := Run(DS.Initial(), p, calls).state;
            s.sleepDuration.Some? ==> DS.DumpConfig(s).Some? && DS.DumpConfig(s).value * 1000 == s.sleepDuration.value
  {
    RunPreservesWellFormed(DS.Initial(), p, calls);
  }

  /** The pin given to `set_wakeup_pin` is the one a later LibreTiny sleep request arms, at its wake level. */
  lemma SetWakeupPinThenSleep(s: DS.State, q: Pin)
    ensures Run(s, LibreTiny, [SetWakeupPin(Some(q)), BeginSleep(true)]).events ==
            [DeepSleep(SleepArgument(s.sleepDuration)), GpioWakeup(q.number, !q.inverted)]
  {
    var calls := [SetWakeupPin(Some(q)), BeginSleep(true)];
    assert calls[1..] == [BeginSleep(true)];
    var t := DS.SetWakeupPin(s, Some(q));
    assert Run(t, LibreTiny, calls[1..]).events == DS.BeginSleep(t, LibreTiny, true).events;
  }
}
