/** The timers the app keeps on Kivy's clock: the geoip debounce
    (`_trigger_geoip_soon`), the periodic geoip lookup, and `StatePoller`.
    The clock is a class with an integer time in milliseconds and a map from
    event handles to pending timers; `Fire` is the clock running one timer. */
module Timers {
  import opened Wrappers

  /** What a timer's callback starts. */
  datatype Action = DebouncedGeoip | PeriodicGeoip | PollState

  /** A pending timer: when it is due, its period if it repeats, its action. */
  datatype Timer = Timer(due: int, period: Option<int>, action: Action)

  /** The debounce delay of the state-change triggers, 0.5 s. */
  const TriggerDelayMs := 500
  /** The default of `CONFIG.get("update_interval", 2)`, in seconds. */
  const DefaultUpdateIntervalSec: real := 2.0
  /** The default of `CONFIG.get("geoip_interval", 300)`, in seconds. */
  const DefaultGeoipIntervalSec := 300

  /** The total of a sequence of gaps. */
  function Sum(gaps: seq<int>): int {
    if gaps == [] then 0 else Sum(gaps[..|gaps| - 1]) + gaps[|gaps| - 1]
  }

  /** With no negative gap, a prefix never adds up to more than the whole. */
  lemma {:induction false} SumPrefix(gaps: seq<int>, i: nat)
    requires i <= |gaps|
    requires forall j :: 0 <= j < |gaps| ==> gaps[j] >= 0
    ensures Sum(gaps[..i]) <= Sum(gaps)
    decreases |gaps| - i
  {
    if i < |gaps| {
      var pre := gaps[..|gaps| - 1];
      assert gaps[..i] == pre[..i];
      SumPrefix(pre, i);
    } else {
      assert gaps[..i] == gaps;
    }
  }

  class Clock {
    var now: int
    var timers: map<nat, Timer>
    var next: nat

    /** Every pending handle was handed out already. */
    predicate Valid()
      reads this
    {
      forall h :: h in timers ==> h < next
    }

    constructor()
      ensures Valid() && now == 0 && timers == map[]
    {
      now := 0;
      timers := map[];
      next := 0;
    }

    /** `Clock.schedule_once(callback, delay)`. */
    method ScheduleOnce(action: Action, delay: int) returns (h: nat)
      requires Valid()
      modifies this
      ensures Valid() && now == old(now)
      ensures h == old(next) && next == h + 1 && h !in old(timers)
      ensures timers == old(timers)[h := Timer(now + delay, None, action)]
    {
      h := next;
      timers := timers[h := Timer(now + delay, None, action)];
      next := next + 1;
    }

    /** `Clock.schedule_interval(callback, period)`. */
    method ScheduleInterval(action: Action, period: int) returns (h: nat)
      requires Valid()
      modifies this
      ensures Valid() && now == old(now)
      ensures h == old(next) && next == h + 1 && h !in old(timers)
      ensures timers == old(timers)[h := Timer(now + period, Some(period), action)]
    {
      h := next;
      timers := timers[h := Timer(now + period, Some(period), action)];
      next := next + 1;
    }

    /** Time passes by `ms` while no timer falls due before its end. */
    method Advance(ms: int)
      requires Valid() && ms >= 0
      requires forall h :: h in timers ==> timers[h].due >= now + ms
      modifies this
      ensures Valid() && now == old(now) + ms && timers == old(timers) && next == old(next)
    {
      now := now + ms;
    }

    /** `event.cancel()`; cancelling an event that already ran does nothing. */
    method Cancel(h: nat)
      requires Valid()
      modifies this
      ensures Valid() && now == old(now) && next == old(next)
      ensures timers == old(timers) - {h}
    {
      timers := timers - {h};
    }

    /** The clock runs timer `h`: time moves on to its due time, a one-shot
        timer is dropped and a repeating one is due again one period later. */
    method Fire(h: nat) returns (action: Action)
      requires Valid() && h in timers
      modifies this
      ensures Valid() && next == old(next)
      ensures action == old(timers)[h].action
      ensures now == if old(now) < old(timers)[h].due then old(timers)[h].due else old(now)
      ensures timers == match old(timers)[h].period
        case None => old(timers) - {h}
        case Some(p) => old(timers)[h := Timer(now + p, Some(p), action)]
    {
      var t := timers[h];
      if now < t.due {
        now := t.due;
      }
      action := t.action;
      match t.period {
        case None =>
          timers := timers - {h};
        case Some(p) =>
          timers := timers[h := Timer(now + p, Some(p), action)];
      }
    }
  }

  /** Every pending timer that runs `a` is the one `field` holds, and the
      handle `field` holds, while pending, runs `a`. */
  predicate Tracks(timers: map<nat, Timer>, a: Action, field: Option<nat>) {
    (forall h :: h in timers && timers[h].action == a ==> field == Some(h)) &&
    (field.Some? && field.value in timers ==> timers[field.value].action == a)
  }

  /** The handle a field holds, as a set. */
  function Handles(field: Option<nat>): set<nat> {
    if field.Some? then {field.value} else {}
  }

  /** Every timer other than a debounced lookup is in `timers` exactly as
      in `before`, and none has come or gone. */
  predicate OthersAsBefore(timers: map<nat, Timer>, before: map<nat, Timer>) {
    (forall h :: h in timers && timers[h].action != DebouncedGeoip ==> h in before && before[h] == timers[h]) &&
    (forall h :: h in before && before[h].action != DebouncedGeoip ==> h in timers && timers[h] == before[h])
  }

  /** Replacing the debounced lookup leaves every other timer alone. */
  lemma RetriggerKeepsOthers(timers: map<nat, Timer>, prev: Option<nat>, h: nat, t: Timer)
    requires prev.Some? && prev.value in timers ==> timers[prev.value].action == DebouncedGeoip
    requires h !in timers && t.action == DebouncedGeoip
    ensures OthersAsBefore((timers - Handles(prev))[h := t], timers)
  {
  }

  lemma OthersAsBeforeTrans(a: map<nat, Timer>, b: map<nat, Timer>, c: map<nat, Timer>)
    requires OthersAsBefore(a, b) && OthersAsBefore(b, c)
    ensures OthersAsBefore(a, c)
  {
  }

  // ---------------------------------------------------------------------
  // StatePoller
  // ---------------------------------------------------------------------

  /** Python's `int()` of a number: truncation toward zero. */
  function Truncate(r: real): (n: int)
    ensures 0.0 <= r ==> n as real <= r < n as real + 1.0
    ensures r < 0.0 ==> n as real - 1.0 < r <= n as real
  {
    if r >= 0.0 then r.Floor else -((-r).Floor)
  }

  /** `max(1, int(interval_sec))`. */
  function PollInterval(intervalSec: real): (n: int)
    ensures n >= 1
    ensures n == 1 || n == Truncate(intervalSec)
    ensures intervalSec >= 1.0 ==> n as real <= intervalSec < n as real + 1.0
    ensures intervalSec < 2.0 ==> n == 1
  {
    var t := Truncate(intervalSec);
    if t > 1 then t else 1
  }

  class StatePoller {
    /** `self.interval`, in whole seconds. */
    const interval: int
    /** `self._event`. */
    var event: Option<nat>
    const clock: Clock

    /** The poller's handle is the one live polling timer, repeating every
        `interval` seconds. */
    predicate Valid()
      reads this, clock
    {
      clock.Valid() && Tracks(clock.timers, PollState, event) &&
      (event.Some? ==> event.value in clock.timers && clock.timers[event.value].period == Some(interval * 1000))
    }

    constructor(intervalSec: real, clock: Clock)
      requires clock.Valid()
      requires forall h :: h in clock.timers ==> clock.timers[h].action != PollState
      ensures this.clock == clock && interval == PollInterval(intervalSec) && event.None?
      ensures Valid()
    {
      interval := PollInterval(intervalSec);
      event := None;
      this.clock := clock;
    }

    /** `start`: does nothing when already running. */
    method Start()
      requires Valid()
      modifies this, clock
      ensures Valid() && event.Some?
      ensures old(event).Some? ==> event == old(event) && clock.timers == old(clock.timers)
      ensures clock.next >= old(clock.next)
      ensures old(event).None? ==>
        (event.value == old(clock.next) && event.value !in old(clock.timers) &&
         clock.timers == old(clock.timers)[event.value := Timer(clock.now + interval * 1000, Some(interval * 1000), PollState)])
      ensures clock.now == old(clock.now)
    {
      if event.Some? {
        return;
      }
      var h := clock.ScheduleInterval(PollState, interval * 1000);
      event := Some(h);
    }

    /** `stop`: cancels the timer and clears the handle. */
    method Stop()
      requires Valid()
      modifies this, clock
      ensures Valid() && event.None?
      ensures clock.timers == old(clock.timers) - Handles(old(event))
      ensures forall h :: h in clock.timers ==> clock.timers[h].action != PollState
      ensures clock.now == old(clock.now)
    {
      if event.Some? {
        clock.Cancel(event.value);
        event := None;
      }
    }
  }

  // ---------------------------------------------------------------------
  // The app's geoip timers
  // ---------------------------------------------------------------------

  class GeoipTimers {
    /** `self._geoip_pending`: never cleared when the lookup runs. */
    var pending: Option<nat>
    /** `self._geoip_periodic_ev`. */
    var periodic: Option<nat>
    const clock: Clock

    /** Each field's handle is the one live timer of its kind, and was
        handed out by the clock. */
    predicate Valid()
      reads this, clock
    {
      clock.Valid() && Tracks(clock.timers, DebouncedGeoip, pending) && Tracks(clock.timers, PeriodicGeoip, periodic) &&
      (pending.Some? ==> pending.value < clock.next) && (periodic.Some? ==> periodic.value < clock.next)
    }

    /** `build` sets both handles to `None`. */
    constructor(clock: Clock)
      requires clock.Valid()
      requires forall h :: h in clock.timers ==> clock.timers[h].action == PollState
      ensures this.clock == clock && pending.None? && periodic.None?
      ensures Valid()
    {
      pending := None;
      periodic := None;
      this.clock := clock;
    }

    /** `_trigger_geoip_soon(delay)`: cancel the pending lookup, schedule a new
        one. However many triggers come in a burst, one lookup stays pending:
        the one due `delay` after the last trigger. (Its default delay of
        0.75 s is never used: the only caller passes 0.5 s.) */
    method TriggerSoon(delay: int)
      requires Valid()
      modifies this, clock
      ensures Valid() && periodic == old(periodic) && clock.now == old(clock.now)
      ensures pending.Some? && pending.value !in old(clock.timers)
      ensures clock.timers == (old(clock.timers) - Handles(old(pending)))[pending.value := Timer(clock.now + delay, None, DebouncedGeoip)]
      ensures forall h :: h in clock.timers && clock.timers[h].action == DebouncedGeoip ==>
        h == pending.value && clock.timers[h].due == clock.now + delay
    {
      if pending.Some? {
        clock.Cancel(pending.value);
      }
      var h := clock.ScheduleOnce(DebouncedGeoip, delay);
      pending := Some(h);
    }

    /** The periodic lookup `on_start` schedules. */
    method StartPeriodic(intervalMs: int)
      requires Valid() && periodic.None?
      modifies this, clock
      ensures Valid() && pending == old(pending) && periodic.Some? && clock.now == old(clock.now)
      ensures periodic.value !in old(clock.timers)
      ensures clock.timers == old(clock.timers)[periodic.value := Timer(clock.now + intervalMs, Some(intervalMs), PeriodicGeoip)]
    {
      var h := clock.ScheduleInterval(PeriodicGeoip, intervalMs);
      periodic := Some(h);
    }

    /** `on_stop`: both timers cancelled and both handles cleared. */
    method Stop()
      requires Valid()
      modifies this, clock
      ensures Valid() && pending.None? && periodic.None? && clock.now == old(clock.now)
      ensures clock.timers == old(clock.timers) - Handles(old(periodic)) - Handles(old(pending))
      ensures forall h :: h in clock.timers ==> clock.timers[h].action != DebouncedGeoip && clock.timers[h].action != PeriodicGeoip
    {
      if periodic.Some? {
        clock.Cancel(periodic.value);
        periodic := None;
      }
      if pending.Some? {
        clock.Cancel(pending.value);
        pending := None;
      }
    }
  }

  /** The app's timers on one clock: the poller `on_start` creates and starts,
      and the two geoip timers. */
  class App {
    const clock: Clock
    const geoip: GeoipTimers
    var poller: StatePoller?

    predicate Valid()
      reads this, clock, geoip, poller
    {
      geoip.clock == clock && geoip.Valid() &&
      (poller != null ==> poller.clock == clock && poller.Valid()) &&
      (poller == null ==> forall h :: h in clock.timers ==> clock.timers[h].action != PollState)
    }

    /** The timer part of `build`: no timers yet and both geoip handles
        cleared. */
    constructor()
      ensures Valid() && poller == null && fresh(clock) && fresh(geoip)
      ensures clock.timers == map[] && geoip.pending.None? && geoip.periodic.None?
    {
      var c := new Clock();
      clock := c;
      geoip := new GeoipTimers(c);
      poller := null;
    }

    /** `on_start`: start polling every `max(1, int(update_interval))`
        seconds and look up geoip every `geoip_interval` seconds; each
        setting is the config's value or, when it is absent, its default.
        `geoipIntervalMs` is `geoip_interval` in milliseconds. */
    method OnStart(updateInterval: Option<real>, geoipIntervalMs: Option<int>)
      requires Valid() && poller == null && geoip.periodic.None?
      modifies this, clock, geoip
      ensures Valid() && poller != null && fresh(poller)
      ensures poller.interval == PollInterval(updateInterval.GetOr(DefaultUpdateIntervalSec))
      ensures geoip.pending == old(geoip.pending) && clock.now == old(clock.now)
      ensures poller.event.Some? && geoip.periodic.Some? && poller.event != geoip.periodic
      ensures poller.event.value !in old(clock.timers) && geoip.periodic.value !in old(clock.timers)
      ensures var pollMs := poller.interval * 1000;
        var geoipMs := geoipIntervalMs.GetOr(DefaultGeoipIntervalSec * 1000);
        clock.timers == old(clock.timers)
          [poller.event.value := Timer(clock.now + pollMs, Some(pollMs), PollState)]
          [geoip.periodic.value := Timer(clock.now + geoipMs, Some(geoipMs), PeriodicGeoip)]
    {
      var p := new StatePoller(updateInterval.GetOr(DefaultUpdateIntervalSec), clock);
      p.Start();
      poller := p;
      geoip.StartPeriodic(geoipIntervalMs.GetOr(DefaultGeoipIntervalSec * 1000));
    }

    /** A state change triggers `_trigger_geoip_soon(0.5)`: the pending
        lookup is replaced by one due 500 ms from now, and nothing else
        changes. */
    method OnStateChange()
      requires Valid()
      modifies clock, geoip
      ensures Valid() && geoip.periodic == old(geoip.periodic) && clock.now == old(clock.now)
      ensures geoip.pending.Some? && geoip.pending.value !in old(clock.timers)
      ensures clock.timers == (old(clock.timers) - Handles(old(geoip.pending)))
        [geoip.pending.value := Timer(clock.now + TriggerDelayMs, None, DebouncedGeoip)]
      ensures forall h :: h in clock.timers && clock.timers[h].action == DebouncedGeoip ==>
        geoip.pending == Some(h) && clock.timers[h].due == clock.now + TriggerDelayMs
    {
      geoip.TriggerSoon(TriggerDelayMs);
    }

    /** The pending lookup is due one debounce delay from now. */
    predicate LookupDueSoon()
      reads this, clock, geoip
    {
      geoip.pending.Some? && geoip.pending.value in clock.timers &&
      clock.timers[geoip.pending.value] == Timer(clock.now + TriggerDelayMs, None, DebouncedGeoip)
    }

    /** One step of a burst: `gap` ms pass, within the debounce delay and
        before any other timer falls due, then the state changes again. */
    method BurstStep(gap: int)
      requires Valid() && LookupDueSoon() && 0 <= gap <= TriggerDelayMs
      requires forall h :: h in clock.timers && clock.timers[h].action != DebouncedGeoip ==>
        clock.timers[h].due >= clock.now + gap
      modifies clock, geoip
      ensures Valid() && LookupDueSoon() && geoip.periodic == old(geoip.periodic)
      ensures clock.now == old(clock.now) + gap
      ensures OthersAsBefore(clock.timers, old(clock.timers))
    {
      clock.Advance(gap);
      ghost var before := clock.timers;
      OnStateChange();
      RetriggerKeepsOthers(before, old(geoip.pending), geoip.pending.value,
        Timer(clock.now + TriggerDelayMs, None, DebouncedGeoip));
    }

    /** A burst of state changes: one now, then one after each of `gaps`,
        none longer than the debounce delay, while no other timer falls due.
        A single lookup stays pending, due 500 ms after the last change, and
        every other timer is as it was. */
    method ChangeBurst(gaps: seq<int>)
      requires Valid()
      requires forall i :: 0 <= i < |gaps| ==> 0 <= gaps[i] <= TriggerDelayMs
      requires forall h :: h in clock.timers && clock.timers[h].action != DebouncedGeoip ==>
        clock.timers[h].due >= clock.now + Sum(gaps)
      modifies clock, geoip
      ensures Valid() && clock.now == old(clock.now) + Sum(gaps) && geoip.periodic == old(geoip.periodic)
      ensures geoip.pending.Some? && geoip.pending.value in clock.timers
      ensures clock.timers[geoip.pending.value] == Timer(old(clock.now) + Sum(gaps) + TriggerDelayMs, None, DebouncedGeoip)
      ensures forall h :: h in clock.timers && clock.timers[h].action == DebouncedGeoip ==> h == geoip.pending.value
      ensures OthersAsBefore(clock.timers, old(clock.timers))
    {
      ghost var start := clock.timers;
      ghost var end := clock.now + Sum(gaps);
      var p := geoip.pending;
      OnStateChange();
      RetriggerKeepsOthers(start, p, geoip.pending.value, Timer(clock.now + TriggerDelayMs, None, DebouncedGeoip));
      var i := 0;
      while i < |gaps|
        invariant 0 <= i <= |gaps|
        invariant Valid() && LookupDueSoon() && geoip.periodic == old(geoip.periodic)
        invariant clock.now == old(clock.now) + Sum(gaps[..i])
        invariant OthersAsBefore(clock.timers, start)
        invariant forall h :: h in clock.timers && clock.timers[h].action != DebouncedGeoip ==> clock.timers[h].due >= end
      {
        SumPrefix(gaps, i + 1);
        assert gaps[..i + 1][..i] == gaps[..i];
        ghost var mid := clock.timers;
        BurstStep(gaps[i]);
        OthersAsBeforeTrans(clock.timers, mid, start);
        i := i + 1;
      }
      assert gaps[..i] == gaps;
    }

    /** `on_stop`: the geoip timers are cancelled; the poller is left running. */
    method OnStop()
      requires Valid()
      modifies clock, geoip
      ensures Valid() && geoip.pending.None? && geoip.periodic.None? && clock.now == old(clock.now)
      ensures clock.timers == old(clock.timers) - Handles(old(geoip.periodic)) - Handles(old(geoip.pending))
      ensures poller != null && old(poller.event).Some? ==> poller.event.value in clock.timers
    {
      geoip.Stop();
    }

    /** The clock runs one pending timer; every handle stays truthful. */
    method Dispatch(h: nat) returns (action: Action)
      requires Valid() && h in clock.timers
      modifies clock
      ensures Valid() && action == old(clock.timers)[h].action
      ensures clock.now == if old(clock.now) < old(clock.timers)[h].due then old(clock.timers)[h].due else old(clock.now)
      ensures clock.timers == match old(clock.timers)[h].period
        case None => old(clock.timers) - {h}
        case Some(p) => old(clock.timers)[h := Timer(clock.now + p, Some(p), action)]
    {
      action := clock.Fire(h);
    }
  }
}
