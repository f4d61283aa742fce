/** Which tools may run, and how often. */
module Policy {
  const ALLOWED_TOOLS: seq<string> := ["nuclei", "tls"]
  const MAX_SCANS_PER_TARGET_PER_DAY: nat := 6
  const TRIAL_MAX_SCANS_PER_TARGET_PER_DAY: nat := 2

  predicate IsAllowedTool(tool: string) {
    tool in ALLOWED_TOOLS
  }

  predicate WithinScanBudget(scansInWindow: nat) {
    scansInWindow < MAX_SCANS_PER_TARGET_PER_DAY
  }

  /** What an account may do: whether its plan includes the full scan, and whether it is on a three-day trial. */
  datatype Access = Access(allowsFullScan: bool, trial: bool) {
    function ScansPerTargetPerDay(): nat {
      if trial then TRIAL_MAX_SCANS_PER_TARGET_PER_DAY else MAX_SCANS_PER_TARGET_PER_DAY
    }
  }
}
