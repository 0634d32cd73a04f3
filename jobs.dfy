/**
 * The conversion job shared by the job queue and both conversion services: its status
 * enumeration, its parameters, and the job object whose status, progress, error message and
 * retry counter are updated in place.
 */
module Jobs {
  import opened Wrappers

  datatype JobStatus = Pending | Running | Completed | Failed | Cancelled | Retrying

  /** The enumeration's `.value`, which is what `to_dict` and the stores record. */
  function StatusValue(s: JobStatus): string
  {
    match s
    case Pending => "pending"
    case Running => "running"
    case Completed => "completed"
    case Failed => "failed"
    case Cancelled => "cancelled"
    case Retrying => "retrying"
  }

  /** `JobStatus(value)`, used when a stored row is turned back into a job; `None` where it raises. */
  function StatusFromValue(v: string): (r: Option<JobStatus>)
    ensures r.Some? ==> StatusValue(r.value) == v
  {
    if v == "pending" then Some(Pending)
    else if v == "running" then Some(Running)
    else if v == "completed" then Some(Completed)
    else if v == "failed" then Some(Failed)
    else if v == "cancelled" then Some(Cancelled)
    else if v == "retrying" then Some(Retrying)
    else None
  }

  /** Every status survives being written as its value and read back. */
  lemma StatusValueRoundTrip(s: JobStatus)
    ensures StatusFromValue(StatusValue(s)) == Some(s)
  {
  }

  /** The transcoding parameters a job carries; the code never changes them after creation. */
  datatype JobParams = JobParams(quality: int, resolution: string, videoBitrate: int, audioBitrate: int)

  const DefaultParams := JobParams(23, "720x480", 1000, 96)
  const DefaultMaxRetries := 3

  /** The part of a job the code updates in place. Progress is a percentage. */
  datatype JobState = JobState(status: JobStatus, progress: real, errorMessage: string, retryCount: int)

  const InitialState := JobState(Pending, 0.0, "", 0)

  /** A value copy of a job: a row of a store, or the body of `to_dict` without its timestamps. */
  datatype JobRecord = JobRecord(
    id: string,
    inputPath: string,
    outputPath: string,
    params: JobParams,
    maxRetries: int,
    estimatedDuration: int,
    state: JobState)

  class ConversionJob {
    const id: string
    const inputPath: string
    const outputPath: string
    const params: JobParams
    const maxRetries: int
    const estimatedDuration: int
    var status: JobStatus
    var progress: real
    var errorMessage: string
    var retryCount: int

    function State(): JobState
      reads this
    {
      JobState(status, progress, errorMessage, retryCount)
    }

    function Record(): (r: JobRecord)
      reads this
      ensures r.id == id && r.state == State()
    {
      JobRecord(id, inputPath, outputPath, params, maxRetries, estimatedDuration, State())
    }

    /** A job with explicit parameters and retry budget; it starts pending, at 0%, with no retries. */
    constructor (id: string, inputPath: string, outputPath: string, params: JobParams, maxRetries: int)
      ensures this.id == id && this.inputPath == inputPath && this.outputPath == outputPath
      ensures this.params == params && this.maxRetries == maxRetries && estimatedDuration == 0
      ensures State() == InitialState
    {
      this.id := id;
      this.inputPath := inputPath;
      this.outputPath := outputPath;
      this.params := params;
      this.maxRetries := maxRetries;
      estimatedDuration := 0;
      status := Pending;
      progress := 0.0;
      errorMessage := "";
      retryCount := 0;
    }

    /** A job built from its identifier and paths alone: quality 23, 720x480, 1000/96 kbit/s, 3 retries. */
    constructor WithDefaults(id: string, inputPath: string, outputPath: string)
      ensures this.id == id && this.inputPath == inputPath && this.outputPath == outputPath
      ensures params == DefaultParams && maxRetries == DefaultMaxRetries && estimatedDuration == 0
      ensures State() == InitialState
    {
      this.id := id;
      this.inputPath := inputPath;
      this.outputPath := outputPath;
      params := DefaultParams;
      maxRetries := DefaultMaxRetries;
      estimatedDuration := 0;
      status := Pending;
      progress := 0.0;
      errorMessage := "";
      retryCount := 0;
    }
  }
}
