/** agent/lifecycle.py: the startup phases, in the order the agent runs them. */
module Lifecycle {
  import opened Prelude
  import opened Storage
  import opened Configuration
  import opened BootDetector
  import opened EventTail
  import opened Diagnosis
  import opened Machine

  class Agent {
    const db: Database
    const cfg: Config
    var sessionId: Option<int>

    constructor (db: Database, cfg: Config)
      ensures this.db == db && this.cfg == cfg && SessionProvider() == 1
    {
      this.db, this.cfg, sessionId := db, cfg, None;
    }

    /** The session new rows are stamped with; 1 before any startup analysis. */
    function SessionProvider(): int
      reads this
    {
      if sessionId.Some? then sessionId.value else 1
    }

    /** Detect the boot, then collect events, then diagnose: one Startup step of the machine.
        The event collection is isolated: if it raises after `commits` of its commits, the analysis goes on;
        if the process dies there, it does not (`diagnosed` is false). */
    method StartupAnalysis(now: Time, boot: Time, log: seq<LogRecord>, sizes: seq<BatchSize>, commits: nat, diagnosed: bool)
      returns (result: BootResult, verdict: Option<Verdict>)
      requires cfg.interval > 0.0
      modifies this, db
      ensures db.View() == Started(cfg, old(db.View()), log, Startup(now, boot, sizes, commits, diagnosed))
      ensures result == DetectedResult(old(db.View()), boot) && SessionProvider() == result.sessionId
      ensures
        var tailed := AfterTailing(old(db.View()), log, Startup(now, boot, sizes, commits, diagnosed));
        verdict == if diagnosed then Some(Announced(tailed, Diagnosed(tailed, FactsOf(result), cfg))) else None
    {
      var detected := DetectBoot(db, now, boot, 3);
      result := detected.value;
      sessionId := Some(result.sessionId);
      Collect(db, log, sizes, result.sessionId, commits);
      verdict := None;
      if diagnosed {
        var v := RunDiagnosis(db, FactsOf(result), cfg, true);
        verdict := Some(v);
      }
    }
  }
}
