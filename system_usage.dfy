/**
 * The resource sample taken by `get_system_usage`. The three core files each carry an identical
 * copy of this function; it is defined once here. Memory and disk figures are already in GB.
 */
module SystemUsage {
  import opened Wrappers

  datatype Usage = Usage(
    cpuPercent: real,
    memoryPercent: real,
    memoryAvailableGb: real,
    diskPercent: real,
    diskFreeGb: real)

  /** The record returned when psutil raises: every figure is zero. */
  const ZeroUsage := Usage(0.0, 0.0, 0.0, 0.0, 0.0)

  /**
   * What `get_system_usage` returns, given what psutil produced (`None` when it raised).
   * A failed sample is indistinguishable from a completely idle, completely full host.
   */
  function SampleOrZero(sample: Option<Usage>): (u: Usage)
    ensures sample.None? ==> u.memoryAvailableGb == 0.0 && u.diskFreeGb == 0.0
    ensures sample.Some? ==> u == sample.value
  {
    match sample
    case Some(s) => s
    case None => ZeroUsage
  }
}
