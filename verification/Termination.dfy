/** diagnostics/crash_detector.py and diagnostics/hang_detector.py: how the previous session ended. */
module Termination {
  import opened Prelude
  import opened Storage
  import opened EventAnalyzer

  datatype CrashSignals = CrashSignals(bugcheck: bool, kernelPower: bool, unexpectedEvent: bool,
                                       clean: bool, unexpectedShutdown: bool)

  /** An unknown clean flag counts as "not clean". */
  predicate Clean(flag: Option<bool>) {
    flag == Some(true)
  }

  function DetectCrash(summary: Summary, previousSessionClean: Option<bool>): CrashSignals {
    var kernelPower := summary.Detected(KernelPower);
    var unexpected := summary.Detected(ShutdownUnexpected);
    var clean := Clean(previousSessionClean);
    CrashSignals(summary.Detected(BugCheck), kernelPower, unexpected, clean, !clean && (kernelPower || unexpected))
  }

  datatype Inference = Inference(normalShutdown: bool, crash: bool, hardHang: bool, powerLoss: bool,
                                 confidence: Level, gap: Option<real>)

  const NO_INFERENCE: Inference := Inference(false, false, false, false, Low, None)

  /** Seconds between the last sign of life and the reboot. */
  function Gap(lastActivity: Option<Time>, reboot: Time): Option<real> {
    if lastActivity.None? then None else Some(Max(0.0, reboot - lastActivity.value))
  }

  /** Neither explained by a shutdown nor by a blue screen. */
  predicate Unexplained(crash: CrashSignals) {
    !crash.clean && !crash.bugcheck && crash.unexpectedShutdown
  }

  /** The verdict field by field: what each flag of the inference means. */
  function Inferred(crash: CrashSignals, lastActivity: Option<Time>, reboot: Time, interval: real): Inference {
    var gap := Gap(lastActivity, reboot);
    var measured := Unexplained(crash) && crash.kernelPower && gap.Some?;
    Inference(
      crash.clean,
      !crash.clean && crash.bugcheck,
      Unexplained(crash) && !(measured && gap.value < 2.0 * interval),
      measured && gap.value < 2.0 * interval,
      if crash.clean || crash.bugcheck || (measured && gap.value >= 5.0 * interval) then High
      else if measured && gap.value >= 2.0 * interval then Medium
      else Low,
      if Unexplained(crash) then gap else None)
  }

  /** Intervals are positive by configuration. */
  method InferTermination(crash: CrashSignals, lastActivity: Option<Time>, reboot: Time, interval: real)
    returns (result: Inference)
    requires interval > 0.0
    ensures result == Inferred(crash, lastActivity, reboot, interval)
  {
    result := NO_INFERENCE;
    if crash.clean {
      result := result.(normalShutdown := true);
      result := result.(confidence := High);
      return;
    }
    if crash.bugcheck {
      result := result.(crash := true);
      result := result.(confidence := High);
      return;
    }
    if !crash.unexpectedShutdown {
      return;
    }
    var gap: Option<real> := None;
    if lastActivity.Some? {
      gap := Some(Max(0.0, reboot - lastActivity.value));
      result := result.(gap := gap);
    }
    if crash.kernelPower {
      if gap.None? {
        result := result.(hardHang := true, confidence := Low);
      } else if gap.value >= interval * 5.0 {
        result := result.(hardHang := true, confidence := High);
      } else if gap.value >= interval * 2.0 {
        result := result.(hardHang := true, confidence := Medium);
      } else {
        result := result.(powerLoss := true, confidence := Low);
      }
    } else {
      result := result.(hardHang := true, confidence := Low);
    }
  }
}
