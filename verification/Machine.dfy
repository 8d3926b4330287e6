/** The agent over its database as one state machine, with the Windows log and the clock as its environment. */
module Machine {
  import opened Prelude
  import opened Storage
  import opened Configuration
  import opened BootDetector
  import opened EventTail
  import opened Diagnosis
  import Retention

  /** The database, the log it tails, and what an observer keeps count of.
      `written` counts the records the channel ever wrote;
      `reports` are the boot times the OS reported since the latest session row was opened;
      `lastCycle` is the scheduler's last high-frequency cycle and `starts` counts scheduler starts. */
  datatype World = World(store: Store, log: seq<LogRecord>, written: nat,
                         reports: seq<Time>, lastCycle: Option<Time>, starts: nat)

  const BEGINNING: World := World(EMPTY, [], 0, [], None, 0)

  /** One locked step of the agent, or one of its environment.
      `sizes` are the batches an event read gets and `commits` how many of its three commits take effect;
      `diagnosed` says whether a startup lived to its diagnosis.  The snapshot of a cycle is what it got to commit;
      `first` marks the first cycle of a scheduler, and `beat` says whether it got as far as its heartbeat. */
  datatype Step =
    | Append(records: seq<LogRecord>)
    | ClearLog
    | Startup(now: Time, boot: Time, sizes: seq<BatchSize>, commits: nat, diagnosed: bool)
    | HighCycle(now: Time, sessionId: int, snapshot: Snapshot, first: bool, beat: bool)
    | LowCycle(now: Time, sessionId: int, snapshot: Snapshot, sizes: seq<BatchSize>, commits: nat)
    | Prune(now: Time, hours: real, listed: bool, failed: set<Table>)

  /** startup_analysis: detect the boot, then tail the log, then diagnose. */
  function AfterDetection(st: Store, s: Step): Store
    requires s.Startup?
  {
    Detected(st, s.now, s.boot)
  }

  function AfterTailing(st: Store, log: seq<LogRecord>, s: Step): Store
    requires s.Startup?
  {
    Collected(AfterDetection(st, s), log, s.sizes, DetectedResult(st, s.boot).sessionId, s.commits)
  }

  function Started(cfg: Config, st: Store, log: seq<LogRecord>, s: Step): Store
    requires s.Startup?
  {
    var tailed := AfterTailing(st, log, s);
    if s.diagnosed then AfterDiagnosis(tailed, FactsOf(DetectedResult(st, s.boot)), cfg) else tailed
  }

  function Apply(cfg: Config, w: World, s: Step): World {
    match s
    case Append(records) => w.(log := w.log + records, written := w.written + |records|)
    case ClearLog => w.(log := [])
    case Startup(now, boot, sizes, commits, diagnosed) =>
      w.(store := Started(cfg, w.store, w.log, s),
         reports := if SameBoot(Highest(w.store.sessions, None), boot) then w.reports + [boot] else [boot])
    case HighCycle(now, sessionId, snapshot, first, beat) =>
      w.(store := w.store.(metrics := Inserted(w.store.metrics, snapshot, now, sessionId),
                           heartbeat := if beat then Some(now) else w.store.heartbeat),
         lastCycle := Some(now), starts := if first then w.starts + 1 else w.starts)
    case LowCycle(now, sessionId, snapshot, sizes, commits) =>
      var tailed := Collected(w.store, w.log, sizes, sessionId, commits);
      w.(store := tailed.(metrics := Inserted(tailed.metrics, snapshot, now, sessionId)))
    case Prune(now, hours, listed, failed) =>
      w.(store := Retention.PrunedStore(w.store, now, hours, listed, failed))
  }

  function Run(cfg: Config, w: World, steps: seq<Step>): World {
    if steps == [] then w
    else Apply(cfg, Run(cfg, w, steps[..|steps| - 1]), steps[|steps| - 1])
  }
}
