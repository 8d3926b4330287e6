/** The figures the agent works with, against the repository's own. */
module Figures {
  import opened Storage
  import BootDetector
  import Diagnosis
  import EventTail
  import Processes
  import Retention
  import Scenarios
  import Scheduling
  import WatchdogCheck

  lemma FiguresAreThese()
    ensures BootDetector.SAME_BOOT_SECONDS == 60.0 && BootDetector.BOOT_MARGIN_SECONDS == 120.0
    ensures Diagnosis.DEDUPLICATION_SECONDS == 5.0 && Diagnosis.ACTIVITY_TABLES == [Cpu, Memory, Uptime, Process]
    ensures EventTail.MAX_EVENTS_PER_RUN == 1000 && Processes.TOP_N == 10
    ensures Retention.PROTECTED_INCIDENTS == 200
    ensures Retention.MARGIN_BEFORE == 3600.0 && Retention.MARGIN_AFTER == 600.0
    ensures Scheduling.RETENTION_SECONDS == 300.0 && Scenarios.COLLECTION_INTERVAL == 30.0
    ensures WatchdogCheck.DEFAULTS == WatchdogCheck.Limits(90.0, 5, 60.0)
  {
  }
}
