/** watchdog/watchdog.py: the staleness check with its restart cap and backoff. */
module WatchdogCheck {
  import opened Prelude
  import opened Storage
  import opened Configuration
  import opened Scheduling
  import opened SchedulerRuns

  const STALE_AFTER := 90.0
  const MAX_RESTARTS: nat := 5
  const BACKOFF_SECONDS := 60.0

  datatype Limits = Limits(staleAfter: real, maxRestarts: nat, backoff: real)

  const DEFAULTS: Limits := Limits(STALE_AFTER, MAX_RESTARTS, BACKOFF_SECONDS)

  /** `failures` and `lastFailure` are what _record_failure leaves in agent_state. */
  datatype Counters = Counters(restarts: nat, lastRestart: Time, staleDetected: bool,
                               failures: Option<nat>, lastFailure: Option<Time>)

  const FRESH_COUNTERS: Counters := Counters(0, 0.0, false, None, None)

  predicate Stale(l: Limits, heartbeat: Option<Time>, now: Time) {
    heartbeat.Some? && now - heartbeat.value > l.staleAfter
  }

  /** The check calls for a restart: stale, below the cap, and past the backoff. */
  predicate Restarts(l: Limits, c: Counters, heartbeat: Option<Time>, now: Time) {
    Stale(l, heartbeat, now) && c.restarts < l.maxRestarts && now - c.lastRestart >= l.backoff
  }

  function Checked(l: Limits, c: Counters, heartbeat: Option<Time>, now: Time): Counters {
    if !Stale(l, heartbeat, now) then c
    else
      var noted := c.(staleDetected := true, failures := Some(c.restarts + 1), lastFailure := Some(now));
      if Restarts(l, c, heartbeat, now) then noted.(restarts := c.restarts + 1, lastRestart := now) else noted
  }

  class Watchdog {
    const limits: Limits
    var restarts: nat
    var lastRestart: Time
    var staleDetected: bool
    var failures: Option<nat>
    var lastFailure: Option<Time>

    ghost function View(): Counters
      reads this
    {
      Counters(restarts, lastRestart, staleDetected, failures, lastFailure)
    }

    constructor (limits: Limits)
      ensures this.limits == limits && View() == FRESH_COUNTERS
    {
      this.limits := limits;
      restarts, lastRestart, staleDetected, failures, lastFailure := 0, 0.0, false, None, None;
    }

    /** `restart` says whether on_restart is called. */
    method Check(heartbeat: Option<Time>, now: Time) returns (restart: bool)
      modifies this
      ensures View() == Checked(limits, old(View()), heartbeat, now)
      ensures restart == Restarts(limits, old(View()), heartbeat, now)
    {
      restart := false;
      if heartbeat.None? {
        return;
      }
      if now - heartbeat.value > limits.staleAfter {
        staleDetected := true;
        failures := Some(restarts + 1);
        lastFailure := Some(now);
        if restarts < limits.maxRestarts && now - lastRestart >= limits.backoff {
          restarts := restarts + 1;
          lastRestart := now;
          restart := true;
        }
      }
    }
  }

  /** The watchdog never restarts a live scheduler: with an interval of at most 60 seconds, a pause of one second and
      cycles that together take at most 29, no check made since the first heartbeat finds it stale. */
  lemma LiveSchedulerIsNeverStale(cfg: Config, st: LoopState, ticks: seq<Tick>, t: Time, end: Time, p: Pace)
    requires 0.0 <= cfg.interval <= 60.0 && p.pause == 1.0
    requires p.high >= 0.0 && p.low >= 0.0 && p.high + p.low <= 29.0
    requires Live(cfg, st, ticks, p) && InTime(cfg, st, ticks, end, p) && t <= end
    requires Beats(cfg, st, ticks) != [] && Beats(cfg, st, ticks)[0].written <= t
    ensures !Stale(DEFAULTS, HeartbeatAt(Beats(cfg, st, ticks), t), t)
    ensures HeartbeatAt(Beats(cfg, st, ticks), t).Some? && t - HeartbeatAt(Beats(cfg, st, ticks), t).value <= 90.0
  {
    HeartbeatAge(cfg, st, ticks, t, end, p);
  }
}
