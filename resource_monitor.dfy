/**
 * The job queue's resource monitor: an admission test and a worker-count rule, both computed
 * from one usage sample and the configured limits.
 */
module ResourceMonitor {
  import opened Wrappers
  import opened SystemUsage
  import Config

  /** The limits the monitor copies from the resource configuration. */
  datatype Thresholds = Thresholds(cpuThreshold: real, memoryThreshold: real, maxJobs: int)

  /**
   * `ResourceMonitor.__init__`: the CPU and memory limits and the job limit of the resource
   * section. A configuration that passed its check gives percentages in 1..100 and 1..20 jobs,
   * and then an idle machine with enough free memory and disk is always admitted.
   */
  function FromConfig(rc: Config.ResourceConfig): (t: Thresholds)
    ensures Config.ValidateResources(rc).Pass? ==>
      && 1.0 <= t.cpuThreshold <= 100.0 && 1.0 <= t.memoryThreshold <= 100.0 && 1 <= t.maxJobs <= 20
      && CanStartJob(t, Usage(0.0, 0.0, MinMemoryAvailableGb, 0.0, MinDiskFreeGb))
  {
    Thresholds(rc.cpuLimitPercent, rc.memoryLimitPercent, rc.maxConcurrentJobs)
  }

  const MinMemoryAvailableGb: real := 2.0
  const MinDiskFreeGb: real := 5.0

  /**
   * `can_start_job`: the checks run in order and the first one that fails refuses. It refuses
   * exactly when CPU or memory use is above its limit, or available memory or free disk is below
   * its floor; usage equal to a limit is admitted.
   */
  function CanStartJob(t: Thresholds, u: Usage): (ok: bool)
    ensures ok <==> !(u.cpuPercent > t.cpuThreshold || u.memoryPercent > t.memoryThreshold
                      || u.memoryAvailableGb < MinMemoryAvailableGb || u.diskFreeGb < MinDiskFreeGb)
  {
    if u.cpuPercent > t.cpuThreshold then false
    else if u.memoryPercent > t.memoryThreshold then false
    else if u.memoryAvailableGb < MinMemoryAvailableGb then false
    else if u.diskFreeGb < MinDiskFreeGb then false
    else true
  }

  /** Whatever the limits, a failed sample refuses admission: it reports 0 GB of available memory. */
  lemma SamplingFailureRefuses(t: Thresholds)
    ensures !CanStartJob(t, SampleOrZero(None))
  {
  }

  /** A host that is no busier and has no less free memory and disk than an admitted one is admitted too. */
  lemma CanStartJobMonotone(t: Thresholds, u: Usage, v: Usage)
    requires CanStartJob(t, u)
    requires v.cpuPercent <= u.cpuPercent && v.memoryPercent <= u.memoryPercent
    requires v.memoryAvailableGb >= u.memoryAvailableGb && v.diskFreeGb >= u.diskFreeGb
    ensures CanStartJob(t, v)
  {
  }

  /**
   * `get_optimal_job_count`: a quarter of the cores (at least 1) above 70% CPU, half of them (at
   * least 2) above 50%, otherwise the configured maximum capped by the number of cores.
   */
  function OptimalJobCount(cpuPercent: real, cpuCount: nat, maxJobs: int): (n: int)
    ensures cpuPercent > 50.0 ==> n >= 1
    ensures cpuCount >= 1 && maxJobs >= 1 ==> n >= 1
    ensures cpuPercent <= 50.0 ==> n <= maxJobs && n <= cpuCount
    ensures cpuPercent > 70.0 ==> n <= cpuCount || n == 1
  {
    if cpuPercent > 70.0 then Max(1, cpuCount / 4)
    else if cpuPercent > 50.0 then Max(2, cpuCount / 2)
    else Min(maxJobs, cpuCount)
  }

  function Max(a: int, b: int): int { if a >= b then a else b }
  function Min(a: int, b: int): int { if a <= b then a else b }

  /** Within the two throttled bands, a busier CPU never yields more workers. */
  lemma ThrottledBandsMonotone(cpuLow: real, cpuHigh: real, cpuCount: nat, maxJobs: int)
    requires 50.0 < cpuLow <= cpuHigh
    ensures OptimalJobCount(cpuHigh, cpuCount, maxJobs) <= OptimalJobCount(cpuLow, cpuCount, maxJobs)
  {
  }

  /** Above 50% CPU the configured maximum plays no part in the worker count. */
  lemma ThrottledCountIgnoresMaximum(cpuPercent: real, cpuCount: nat, maxJobs: int, otherMax: int)
    requires cpuPercent > 50.0
    ensures OptimalJobCount(cpuPercent, cpuCount, maxJobs) == OptimalJobCount(cpuPercent, cpuCount, otherMax)
  {
  }

  /**
   * So above 50% CPU the count exceeds any maximum below the band's share of the cores: half of
   * them up to 70%, a quarter above. With 32 cores and a maximum of 2, a host at 60% gets 16
   * workers and one at 80% gets 8.
   */
  lemma ThrottledCountExceedsMaximum(cpuPercent: real, cpuCount: nat, maxJobs: int)
    requires cpuPercent > 50.0
    requires maxJobs < (if cpuPercent > 70.0 then cpuCount / 4 else cpuCount / 2)
    ensures OptimalJobCount(cpuPercent, cpuCount, maxJobs) > maxJobs
  {
  }

  /** Between 50% and 70% CPU, even a maximum of 1 yields at least 2 workers: more than an idle host gets. */
  lemma MiddleBandExceedsIdle(cpuPercent: real, cpuCount: nat)
    requires 50.0 < cpuPercent <= 70.0 && cpuCount >= 1
    ensures OptimalJobCount(cpuPercent, cpuCount, 1) >= 2 > OptimalJobCount(0.0, cpuCount, 1)
  {
  }
}
