/**
 * What the two conversion services have in common: their admission test, the request handling of
 * `/convert`, the outcome of one HandBrake run, the responses of `/convert` and `/cancel`, and the
 * enumeration of a store's keys used for `/jobs`.
 */
module Service {
  import opened Wrappers
  import opened Text
  import opened SystemUsage
  import opened Jobs
  import ResourceMonitor

  /** `MAX_CONCURRENT_JOBS` when the environment does not set it. */
  const DefaultMaxConcurrentJobs := 8

  // ---------------------------------------------------------------- admission

  /** How many of the registered jobs are RUNNING; only those count against the limit. */
  function RunningCount(statuses: map<string, JobStatus>): nat
  {
    |RunningKeys(statuses)|
  }

  /** A service never counts more running jobs than it has registered. */
  lemma RunningCountBound(statuses: map<string, JobStatus>)
    ensures RunningCount(statuses) <= |statuses|
  {
    var running := RunningKeys(statuses);
    assert running <= statuses.Keys;
    SubsetCardinality(running, statuses.Keys);
  }

  lemma {:induction false} SubsetCardinality<T>(a: set<T>, b: set<T>)
    requires a <= b
    ensures |a| <= |b|
    decreases |b|
  {
    if a != {} {
      var x :| x in a;
      SubsetCardinality(a - {x}, b - {x});
    }
  }

  /**
   * Changing one registered status moves the count by at most one: it loses the entry if that was
   * RUNNING and gains it if the new status is RUNNING.
   */
  lemma RunningCountUpdate(statuses: map<string, JobStatus>, k: string, status: JobStatus)
    ensures RunningCount(statuses[k := status]) ==
      RunningCount(statuses) - (if k in statuses && statuses[k] == Running then 1 else 0)
                             + (if status == Running then 1 else 0)
  {
    var before := RunningKeys(statuses);
    var after := RunningKeys(statuses[k := status]);
    var others := before - {k};
    RunningKeysUpdate(statuses, k, status);
    assert k !in others;
    if k in before {
      assert before == others + {k};
      assert |before| == |others| + 1;
    } else {
      assert before == others;
    }
    if status == Running {
      assert |after| == |others| + 1;
    }
  }

  /** The keys of the RUNNING entries. */
  function RunningKeys(statuses: map<string, JobStatus>): set<string>
  {
    set k | k in statuses && statuses[k] == Running
  }

  /** Outside the updated key, the RUNNING keys stay the same. */
  lemma RunningKeysUpdate(statuses: map<string, JobStatus>, k: string, status: JobStatus)
    ensures RunningKeys(statuses[k := status]) - {k} == RunningKeys(statuses) - {k}
    ensures k in RunningKeys(statuses[k := status]) <==> status == Running
    ensures k in RunningKeys(statuses) <==> k in statuses && statuses[k] == Running
  {
    var updated := statuses[k := status];
    forall j | j != k
      ensures j in RunningKeys(updated) <==> j in RunningKeys(statuses)
    {
      assert j in updated <==> j in statuses;
      if j in statuses { assert updated[j] == statuses[j]; }
    }
  }

  /**
   * `can_start_job` of both services: CPU and memory use strictly below 80%, strictly more than
   * 5 GB of free disk, and fewer RUNNING jobs than the limit. Unlike the queue's monitor, usage
   * equal to a limit is refused.
   */
  function ServiceCanStart(u: Usage, runningCount: int, maxJobs: int): bool
  {
    u.cpuPercent < 80.0 && u.memoryPercent < 80.0 && u.diskFreeGb > 5.0 && runningCount < maxJobs
  }

  /** A failed usage sample reports 0 GB free, so nothing is admitted. */
  lemma ServiceSamplingFailureRefuses(runningCount: int, maxJobs: int)
    ensures !ServiceCanStart(SampleOrZero(None), runningCount, maxJobs)
  {
  }

  /** Once the limit's worth of registered jobs are RUNNING, nothing more is admitted. */
  lemma FullServiceRefuses(u: Usage, statuses: map<string, JobStatus>, maxJobs: int)
    requires RunningCount(statuses) >= maxJobs
    ensures !ServiceCanStart(u, RunningCount(statuses), maxJobs)
  {
  }

  /**
   * With queue limits of at least 80% and at least 2 GB of available memory, whatever a service
   * admits the queue's monitor admits too.
   */
  lemma ServiceStricterThanQueue(t: ResourceMonitor.Thresholds, u: Usage, runningCount: int, maxJobs: int)
    requires t.cpuThreshold >= 80.0 && t.memoryThreshold >= 80.0
    requires u.memoryAvailableGb >= ResourceMonitor.MinMemoryAvailableGb
    ensures ServiceCanStart(u, runningCount, maxJobs) ==> ResourceMonitor.CanStartJob(t, u)
  {
  }

  /** A host that is no busier, has no less free disk and runs no more jobs than an admitted one is admitted too. */
  lemma ServiceCanStartMonotone(u: Usage, v: Usage, running: int, fewer: int, maxJobs: int)
    requires ServiceCanStart(u, running, maxJobs)
    requires v.cpuPercent <= u.cpuPercent && v.memoryPercent <= u.memoryPercent && v.diskFreeGb >= u.diskFreeGb
    requires fewer <= running
    ensures ServiceCanStart(v, fewer, maxJobs)
  {
  }

  /**
   * The converse fails at the boundary: a host the queue's monitor admits under limits of at least
   * 80%, but whose CPU or memory use is exactly 80% or whose free disk is exactly 5 GB, is refused
   * by a service whatever its job count.
   */
  lemma AdmissionBoundariesDiffer(t: ResourceMonitor.Thresholds, u: Usage, runningCount: int, maxJobs: int)
    requires t.cpuThreshold >= 80.0 && t.memoryThreshold >= 80.0
    requires u.cpuPercent <= 80.0 && u.memoryPercent <= 80.0
    requires u.memoryAvailableGb >= ResourceMonitor.MinMemoryAvailableGb && u.diskFreeGb >= ResourceMonitor.MinDiskFreeGb
    requires u.cpuPercent == 80.0 || u.memoryPercent == 80.0 || u.diskFreeGb == 5.0
    ensures ResourceMonitor.CanStartJob(t, u) && !ServiceCanStart(u, runningCount, maxJobs)
  {
  }

  // ---------------------------------------------------------------- /convert

  /**
   * The JSON body of `/convert`: absent keys are `None`. Only strings and integers are modelled
   * for the fields that carry them.
   */
  datatype ConvertRequest = ConvertRequest(
    inputPath: Option<string>,
    outputPath: Option<string>,
    jobId: Option<string>,
    quality: Option<int>,
    resolution: Option<string>,
    videoBitrate: Option<int>,
    audioBitrate: Option<int>)

  /** `not value`: an absent key, or an empty string. */
  predicate Missing(field: Option<string>) { field.None? || field.value == "" }

  function OrElse<T>(o: Option<T>, default: T): (r: T)
    ensures o.Some? ==> r == o.value
    ensures o.None? ==> r == default
  {
    if o.Some? then o.value else default
  }

  const DefaultIdPrefix := "job_"

  /**
   * The job id a request gets: its own `job_id` when the key is present (even an empty one),
   * otherwise `job_` and the clock's whole seconds.
   */
  function RequestJobId(req: ConvertRequest, clockSeconds: nat): (id: string)
    ensures req.jobId.Some? ==> id == req.jobId.value
    ensures req.jobId.None? ==>
      && |id| > |DefaultIdPrefix| && id[..|DefaultIdPrefix|] == DefaultIdPrefix
      && ParseInt(id[|DefaultIdPrefix|..]) == Some(clockSeconds)
  {
    if req.jobId.Some? then req.jobId.value
    else
      var digits := NatToString(clockSeconds);
      NatToStringDigits(clockSeconds);
      ParseIntOfNatToString(clockSeconds);
      var id := DefaultIdPrefix + digits;
      assert id[..|DefaultIdPrefix|] == DefaultIdPrefix && id[|DefaultIdPrefix|..] == digits;
      id
  }

  /** The transcoding parameters of a request, each key falling back to the job defaults. */
  function RequestParams(req: ConvertRequest): (p: JobParams)
    ensures req.quality.None? ==> p.quality == DefaultParams.quality
    ensures req.resolution.None? ==> p.resolution == DefaultParams.resolution
    ensures req.videoBitrate.None? ==> p.videoBitrate == DefaultParams.videoBitrate
    ensures req.audioBitrate.None? ==> p.audioBitrate == DefaultParams.audioBitrate
    ensures req.quality.None? && req.resolution.None? && req.videoBitrate.None? && req.audioBitrate.None?
            ==> p == DefaultParams
    ensures req.quality.Some? ==> p.quality == req.quality.value
    ensures req.resolution.Some? ==> p.resolution == req.resolution.value
    ensures req.videoBitrate.Some? ==> p.videoBitrate == req.videoBitrate.value
    ensures req.audioBitrate.Some? ==> p.audioBitrate == req.audioBitrate.value
  {
    JobParams(
      OrElse(req.quality, DefaultParams.quality),
      OrElse(req.resolution, DefaultParams.resolution),
      OrElse(req.videoBitrate, DefaultParams.videoBitrate),
      OrElse(req.audioBitrate, DefaultParams.audioBitrate))
  }

  /** The answer of `/convert`; a started job is handed to the conversion thread. */
  datatype ConvertResponse = Started(job: ConversionJob) | MissingFields | Overloaded

  /** The HTTP status tells the three answers apart. */
  function ConvertStatusCode(r: ConvertResponse): (code: int)
    ensures code == 200 <==> r.Started?
    ensures code == 400 <==> r.MissingFields?
    ensures code == 503 <==> r.Overloaded?
  {
    match r
    case Started(_) => 200
    case MissingFields => 400
    case Overloaded => 503
  }

  /** The answer of `/cancel/<job_id>`. */
  datatype CancelResponse = CancelledOk | NotRunning | NotFound

  /** The HTTP status tells the three answers apart. */
  function CancelStatusCode(r: CancelResponse): (code: int)
    ensures code == 200 <==> r.CancelledOk?
    ensures code == 400 <==> r.NotRunning?
    ensures code == 404 <==> r.NotFound?
  {
    match r
    case CancelledOk => 200
    case NotRunning => 400
    case NotFound => 404
  }

  // ---------------------------------------------------------------- one HandBrake run

  /**
   * One line HandBrake wrote to its standard output, as the progress loop reads it: a JSON
   * progress update (already scaled to a percentage), a line it skips (empty, not JSON, or JSON without
   * `Progress`), or JSON of another shape whose lookup raises out of the loop.
   */
  datatype OutputLine = ProgressUpdate(percent: real) | Skipped | Malformed(message: string)

  /** What running HandBrake produced: its output lines and exit status, or the exception that stopped the launch. */
  datatype Execution = Spawned(output: seq<OutputLine>, returnCode: int) | SpawnFailed(message: string)

  predicate NoMalformed(lines: seq<OutputLine>) { forall i :: 0 <= i < |lines| ==> !lines[i].Malformed? }

  /**
   * The progress loop over `lines` from progress `p`: the progress of the last update read, and the
   * message of the first malformed line, where reading stops.
   */
  function ScanOutput(p: real, lines: seq<OutputLine>): (r: (real, Option<string>))
    ensures r.1.None? <==> NoMalformed(lines)
    ensures r.1.Some? ==> exists i :: 0 <= i < |lines| && lines[i] == Malformed(r.1.value) && NoMalformed(lines[..i])
    ensures r.0 == p || exists i :: 0 <= i < |lines| && lines[i] == ProgressUpdate(r.0) && NoMalformed(lines[..i])
    decreases |lines|
  {
    if lines == [] then (p, None)
    else
      var rest := lines[1..];
      assert forall i :: 0 <= i < |rest| ==> rest[i] == lines[i + 1];
      match lines[0]
      case Malformed(m) =>
        assert lines[..0] == [];
        (p, Some(m))
      case ProgressUpdate(q) =>
        var r := ScanOutput(q, rest);
        ScanOutputStep(lines, r.1);
        ScanOutputProgressStep(p, lines, q, r.0);
        r
      case Skipped =>
        var r := ScanOutput(p, rest);
        ScanOutputStep(lines, r.1);
        ScanOutputProgressStep(p, lines, p, r.0);
        r
  }

  /**
   * Reading is line by line: output without a malformed line can be read in two parts, the second
   * starting from the progress the first one reached.
   */
  lemma {:induction false} ScanOutputAppend(p: real, lines: seq<OutputLine>, rest: seq<OutputLine>)
    requires NoMalformed(lines)
    ensures ScanOutput(p, lines + rest) == ScanOutput(ScanOutput(p, lines).0, rest)
    decreases |lines|
  {
    if lines != [] {
      assert (lines + rest)[0] == lines[0];
      assert (lines + rest)[1..] == lines[1..] + rest;
      assert NoMalformed(lines[1..]) by {
        forall i | 0 <= i < |lines[1..]| ensures !lines[1..][i].Malformed? { assert lines[1..][i] == lines[i + 1]; }
      }
      var q := if lines[0].ProgressUpdate? then lines[0].percent else p;
      ScanOutputAppend(q, lines[1..], rest);
    } else {
      assert lines + rest == rest;
    }
  }

  /** The progress reported is that of the last update read. */
  lemma ScanOutputLastUpdate(p: real, lines: seq<OutputLine>, q: real)
    requires NoMalformed(lines)
    ensures ScanOutput(p, lines + [ProgressUpdate(q)]) == (q, None)
  {
    ScanOutputAppend(p, lines, [ProgressUpdate(q)]);
  }

  /** A skipped line leaves the progress and the outcome as they were. */
  lemma ScanOutputSkips(p: real, lines: seq<OutputLine>)
    requires NoMalformed(lines)
    ensures ScanOutput(p, lines + [Skipped]) == ScanOutput(p, lines)
  {
    ScanOutputAppend(p, lines, [Skipped]);
    assert ScanOutput(p, lines).1 == None;
  }

  /** The first malformed line stops reading with its message and the progress reached before it. */
  lemma ScanOutputMalformedStops(p: real, lines: seq<OutputLine>, m: string)
    requires NoMalformed(lines)
    ensures ScanOutput(p, lines + [Malformed(m)]) == (ScanOutput(p, lines).0, Some(m))
  {
    ScanOutputAppend(p, lines, [Malformed(m)]);
  }

  /** Once reading has stopped, no later line is read. */
  lemma {:induction false} ScanOutputIgnoresAfterStop(p: real, lines: seq<OutputLine>, rest: seq<OutputLine>)
    requires !NoMalformed(lines)
    ensures ScanOutput(p, lines + rest) == ScanOutput(p, lines)
    decreases |lines|
  {
    assert (lines + rest)[0] == lines[0];
    assert (lines + rest)[1..] == lines[1..] + rest;
    if !lines[0].Malformed? {
      assert !NoMalformed(lines[1..]) by {
        var i :| 0 <= i < |lines| && lines[i].Malformed?;
        assert lines[1..][i - 1] == lines[i];
      }
      var q := if lines[0].ProgressUpdate? then lines[0].percent else p;
      ScanOutputIgnoresAfterStop(q, lines[1..], rest);
    }
  }

  /** Where the progress reached came from carries over from the tail to the whole output. */
  lemma ScanOutputProgressStep(p: real, lines: seq<OutputLine>, q: real, reached: real)
    requires |lines| > 0 && (lines[0] == ProgressUpdate(q) || (lines[0] == Skipped && q == p))
    requires reached == q || exists i :: 0 <= i < |lines| - 1 && lines[1..][i] == ProgressUpdate(reached) && NoMalformed(lines[1..][..i])
    ensures reached == p || exists i :: 0 <= i < |lines| && lines[i] == ProgressUpdate(reached) && NoMalformed(lines[..i])
  {
    if reached != p {
      if reached == q {
        assert lines[..0] == [];
        assert lines[0] == ProgressUpdate(reached);
      } else {
        var i :| 0 <= i < |lines| - 1 && lines[1..][i] == ProgressUpdate(reached) && NoMalformed(lines[1..][..i]);
        assert lines[..i + 1] == [lines[0]] + lines[1..][..i];
        assert lines[i + 1] == ProgressUpdate(reached);
      }
    }
  }

  /** The shape of a malformed line's position carries over from the tail to the whole output. */
  lemma ScanOutputStep(lines: seq<OutputLine>, e: Option<string>)
    requires |lines| > 0 && !lines[0].Malformed?
    requires e.Some? ==> exists i :: 0 <= i < |lines| - 1 && lines[1..][i] == Malformed(e.value) && NoMalformed(lines[1..][..i])
    ensures e.Some? ==> exists i :: 0 <= i < |lines| && lines[i] == Malformed(e.value) && NoMalformed(lines[..i])
  {
    if e.Some? {
      var i :| 0 <= i < |lines| - 1 && lines[1..][i] == Malformed(e.value) && NoMalformed(lines[1..][..i]);
      assert lines[..i + 1] == [lines[0]] + lines[1..][..i];
      assert lines[i + 1] == Malformed(e.value);
    }
  }

  const FailureMessagePrefix := "HandBrake failed with return code "

  /** The error message of a nonzero exit. */
  function FailureMessage(returnCode: int): (m: string)
    ensures |m| > |FailureMessagePrefix| && m[..|FailureMessagePrefix|] == FailureMessagePrefix
  {
    var digits := IntToString(returnCode);
    assert |digits| > 0 by { NatToStringDigits(if returnCode < 0 then -returnCode else returnCode); }
    FailureMessagePrefix + digits
  }

  /** The exit status can be read back from the message: str of the code, after the fixed prefix. */
  lemma FailureMessageNamesCode(returnCode: int)
    ensures ParseInt(FailureMessage(returnCode)[|FailureMessagePrefix|..]) == Some(returnCode)
  {
    assert FailureMessage(returnCode)[|FailureMessagePrefix|..] == IntToString(returnCode);
    ParseIntOfIntToString(returnCode);
  }

  /** Different exit statuses give different messages. */
  lemma FailureMessageInjective(a: int, b: int)
    requires FailureMessage(a) == FailureMessage(b)
    ensures a == b
  {
    FailureMessageNamesCode(a);
    FailureMessageNamesCode(b);
  }

  /**
   * The job's state after `run_handbrake_conversion` has finished with `e`, from its state `s` when
   * the run began. Exit 0 with no malformed line completes the job at 100%; a nonzero exit fails it
   * with the return-code message; a malformed line or a failed launch fails it with the exception's
   * message. The status the job had, CANCELLED included, plays no part: it is overwritten.
   */
  function ServiceOutcome(s: JobState, e: Execution): (t: JobState)
    ensures t.status == Completed || t.status == Failed
    ensures t.status == Completed <==> e.Spawned? && e.returnCode == 0 && NoMalformed(e.output)
    ensures t.status == Completed ==> t.progress == 100.0 && t.errorMessage == s.errorMessage
    ensures e.SpawnFailed? ==> t == s.(status := Failed, errorMessage := e.message)
    ensures e.Spawned? && NoMalformed(e.output) && e.returnCode != 0 ==>
              t.errorMessage == FailureMessage(e.returnCode) && t.progress == ScanOutput(s.progress, e.output).0
    ensures e.Spawned? && !NoMalformed(e.output) ==>
              t == s.(progress := ScanOutput(s.progress, e.output).0, status := Failed,
                      errorMessage := ScanOutput(s.progress, e.output).1.value)
    ensures t.retryCount == s.retryCount
  {
    match e
    case SpawnFailed(message) => s.(status := Failed, errorMessage := message)
    case Spawned(output, returnCode) =>
      var (p, error) := ScanOutput(s.progress, output);
      if error.Some? then s.(progress := p, status := Failed, errorMessage := error.value)
      else if returnCode == 0 then s.(status := Completed, progress := 100.0)
      else s.(progress := p, status := Failed, errorMessage := FailureMessage(returnCode))
  }

  /** Whatever status the job was in when its run ends (RUNNING, or CANCELLED by `/cancel`), the result is the same. */
  lemma {:induction false} OutcomeOverwritesStatus(s: JobState, status: JobStatus, e: Execution)
    ensures ServiceOutcome(s.(status := status), e) == ServiceOutcome(s, e)
  {
    if e.Spawned? {
      assert s.(status := status).progress == s.progress;
    }
  }

  // ---------------------------------------------------------------- /jobs

  predicate NoDuplicates(order: seq<string>) { forall i, j :: 0 <= i < j < |order| ==> order[i] != order[j] }

  /** `order` lists every key of `keys` exactly once, in whatever order the store returns them. */
  predicate Enumerates(order: seq<string>, keys: set<string>)
  {
    && NoDuplicates(order)
    && (forall i :: 0 <= i < |order| ==> order[i] in keys)
    && (forall k :: k in keys ==> k in order)
  }

  /** An enumeration has as many entries as there are keys. */
  lemma {:induction false} EnumerationLength(order: seq<string>, keys: set<string>)
    requires Enumerates(order, keys)
    ensures |order| == |keys|
    decreases |order|
  {
    if order != [] {
      var k := order[|order| - 1];
      var front := order[..|order| - 1];
      assert k !in front by {
        forall i | 0 <= i < |front| ensures front[i] != k { assert front[i] == order[i]; }
      }
      forall i | 0 <= i < |front| ensures front[i] in keys - {k} {
        assert front[i] == order[i];
      }
      forall x | x in keys - {k} ensures x in front {
        var i :| 0 <= i < |order| && order[i] == x;
        assert i < |order| - 1 && front[i] == x;
      }
      EnumerationLength(front, keys - {k});
    }
  }

  /** The records of `store` in the given key order. */
  function Rows(store: map<string, JobRecord>, order: seq<string>): (rows: seq<JobRecord>)
    requires forall i :: 0 <= i < |order| ==> order[i] in store
    ensures |rows| == |order| && forall i :: 0 <= i < |order| ==> rows[i] == store[order[i]]
  {
    if order == [] then [] else [store[order[0]]] + Rows(store, order[1..])
  }

  /**
   * The body of `/jobs`: every stored record, then the record of every active job, and their
   * number. Nothing is merged: a job that is both stored and active is listed twice and counted
   * twice.
   */
  function Listing(stored: map<string, JobRecord>, storedOrder: seq<string>,
                   active: map<string, JobRecord>, activeOrder: seq<string>): (r: (seq<JobRecord>, int))
    requires Enumerates(storedOrder, stored.Keys) && Enumerates(activeOrder, active.Keys)
    ensures r.1 == |r.0| == |storedOrder| + |activeOrder| == |stored| + |active|
    ensures forall i :: 0 <= i < |storedOrder| ==> r.0[i] == stored[storedOrder[i]]
    ensures forall i :: 0 <= i < |activeOrder| ==> r.0[|storedOrder| + i] == active[activeOrder[i]]
    ensures forall k :: k in stored && k in active ==>
      exists i, j :: 0 <= i < |stored| <= j < |r.0| && r.0[i] == stored[k] && r.0[j] == active[k]
  {
    EnumerationLength(storedOrder, stored.Keys);
    EnumerationLength(activeOrder, active.Keys);
    var first, second := Rows(stored, storedOrder), Rows(active, activeOrder);
    var jobs := first + second;
    ListedTwice(stored, storedOrder, first, active, activeOrder, second, jobs);
    (jobs, |jobs|)
  }

  /**
   * The stored rows followed by the active records: each part in its own enumeration order, and a
   * job that is both stored and active appears once in each part.
   */
  lemma ListedTwice(stored: map<string, JobRecord>, storedOrder: seq<string>, first: seq<JobRecord>,
                    active: map<string, JobRecord>, activeOrder: seq<string>, second: seq<JobRecord>,
                    jobs: seq<JobRecord>)
    requires Enumerates(storedOrder, stored.Keys) && Enumerates(activeOrder, active.Keys)
    requires |first| == |storedOrder| == |stored| && |second| == |activeOrder|
    requires forall i :: 0 <= i < |storedOrder| ==> storedOrder[i] in stored && first[i] == stored[storedOrder[i]]
    requires forall i :: 0 <= i < |activeOrder| ==> activeOrder[i] in active && second[i] == active[activeOrder[i]]
    requires jobs == first + second
    ensures forall i :: 0 <= i < |storedOrder| ==> jobs[i] == stored[storedOrder[i]]
    ensures forall i :: 0 <= i < |activeOrder| ==> jobs[|storedOrder| + i] == active[activeOrder[i]]
    ensures forall k :: k in stored && k in active ==>
      exists i, j :: 0 <= i < |stored| <= j < |jobs| && jobs[i] == stored[k] && jobs[j] == active[k]
  {
    forall i | 0 <= i < |storedOrder| ensures jobs[i] == stored[storedOrder[i]] {
      assert jobs[i] == first[i];
    }
    forall i | 0 <= i < |activeOrder| ensures jobs[|storedOrder| + i] == active[activeOrder[i]] {
      assert jobs[|first| + i] == second[i];
    }
    forall k | k in stored && k in active
      ensures exists i, j :: 0 <= i < |stored| <= j < |jobs| && jobs[i] == stored[k] && jobs[j] == active[k]
    {
      var i :| 0 <= i < |storedOrder| && storedOrder[i] == k;
      var j :| 0 <= j < |activeOrder| && activeOrder[j] == k;
      assert jobs[i] == stored[k];
      assert jobs[|first| + j] == active[k];
    }
  }
}
