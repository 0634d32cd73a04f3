/**
 * The API gateway's job queue: a FIFO of job objects, the `running_jobs` and `completed_jobs`
 * dictionaries, a write-only job table, and the bounded retry applied when a conversion fails.
 * Worker threads are modelled as a sequence of single loop iterations.
 */
module Queue {
  import opened Wrappers
  import opened SystemUsage
  import opened Jobs
  import opened ResourceMonitor
  import Config

  /** What `subprocess.run` of the conversion script produced. */
  datatype ConversionResult =
    | Exited(returnCode: int, stderr: string)
    | TimedOut                  // the hard-coded 3600-second limit expired
    | Crashed(message: string)  // any other exception, e.g. the output directory could not be made

  predicate Succeeds(r: ConversionResult) { r.Exited? && r.returnCode == 0 }

  const TimeoutMessage := "Conversion timed out after 1 hour"

  /**
   * `_run_conversion`: `None` when the conversion succeeded, otherwise the error message it
   * stores on the job (the script's stderr, the fixed timeout text, or the exception's text).
   */
  function ConversionError(r: ConversionResult): (e: Option<string>)
    ensures e.None? <==> Succeeds(r)
    ensures r.TimedOut? ==> e == Some(TimeoutMessage)
  {
    match r
    case Exited(code, stderr) => if code == 0 then None else Some(stderr)
    case TimedOut => Some(TimeoutMessage)
    case Crashed(message) => Some(message)
  }

  /**
   * The job's state after `_process_job` has run the conversion. Success completes the job at
   * 100%; a failure with budget left bumps the retry counter and marks it RETRYING (the queue then
   * takes it again); a failure with no budget left marks it FAILED. Every failure stores its error
   * message; success leaves the old message in place.
   */
  function ProcessOutcome(s: JobState, maxRetries: int, r: ConversionResult): (t: JobState)
    ensures t.status == Completed || t.status == Retrying || t.status == Failed
    ensures t.status == Completed <==> Succeeds(r)
    ensures t.status == Retrying <==> !Succeeds(r) && s.retryCount < maxRetries
    ensures t.status == Completed ==> t == s.(status := Completed, progress := 100.0)
    ensures t.status == Retrying ==> t.retryCount == s.retryCount + 1 && t.progress == s.progress
    ensures t.status == Failed ==> t.retryCount == s.retryCount && t.progress == s.progress
    ensures !Succeeds(r) ==> t.errorMessage == (if r.Exited? then r.stderr else if r.TimedOut? then TimeoutMessage else r.message)
    ensures s.retryCount <= maxRetries ==> t.retryCount <= maxRetries
  {
    match ConversionError(r)
    case None => s.(status := Completed, progress := 100.0)
    case Some(message) =>
      if s.retryCount < maxRetries then
        s.(status := Retrying, retryCount := s.retryCount + 1, errorMessage := message)
      else
        s.(status := Failed, errorMessage := message)
  }

  /**
   * The state a job reaches when it is processed once per result in `rs`, for as long as each
   * attempt sends it back to the queue.
   */
  function Attempts(s: JobState, maxRetries: int, rs: seq<ConversionResult>): JobState
    decreases |rs|
  {
    if rs == [] then s
    else
      var t := ProcessOutcome(s, maxRetries, rs[0]);
      if t.status == Retrying then Attempts(t, maxRetries, rs[1..]) else t
  }

  /** However many attempts are made, the retry counter never passes the job's budget. */
  lemma {:induction false} AttemptsRetryBound(s: JobState, maxRetries: int, rs: seq<ConversionResult>)
    requires s.retryCount <= maxRetries
    ensures Attempts(s, maxRetries, rs).retryCount <= maxRetries
    decreases |rs|
  {
    if rs != [] {
      var t := ProcessOutcome(s, maxRetries, rs[0]);
      if t.status == Retrying {
        AttemptsRetryBound(t, maxRetries, rs[1..]);
      }
    }
  }

  /**
   * Given enough attempts (the first run and one per remaining retry), a job settles: it completes
   * exactly when one of those attempts succeeds, and otherwise it fails with its budget used up.
   */
  lemma {:induction false} AttemptsSettle(s: JobState, maxRetries: int, rs: seq<ConversionResult>)
    requires s.retryCount <= maxRetries
    requires |rs| > maxRetries - s.retryCount
    ensures var t := Attempts(s, maxRetries, rs);
      (t.status == Completed <==> exists i :: 0 <= i <= maxRetries - s.retryCount && Succeeds(rs[i]))
      && (t.status != Completed ==> t.status == Failed && t.retryCount == maxRetries)
    decreases maxRetries - s.retryCount
  {
    var t := ProcessOutcome(s, maxRetries, rs[0]);
    if t.status == Retrying {
      var rest := rs[1..];
      AttemptsSettle(t, maxRetries, rest);
      var u := Attempts(t, maxRetries, rest);
      if u.status == Completed {
        var i :| 0 <= i <= maxRetries - t.retryCount && Succeeds(rest[i]);
        assert Succeeds(rs[i + 1]);
      } else {
        forall i | 0 <= i <= maxRetries - s.retryCount ensures !Succeeds(rs[i]) {
          if i > 0 { assert rs[i] == rest[i - 1]; }
        }
      }
    }
  }

  /** A job with the default budget whose every run exits with status 1 ends FAILED after four runs. */
  lemma FourFailuresExhaustDefaultBudget()
    ensures var fail := Exited(1, "error");
      var t := Attempts(InitialState, DefaultMaxRetries, [fail, fail, fail, fail]);
      t.status == Failed && t.retryCount == 3 && t.errorMessage == "error"
  {
    var fail := Exited(1, "error");
    var s1 := ProcessOutcome(InitialState, 3, fail);
    var s2 := ProcessOutcome(s1, 3, fail);
    var s3 := ProcessOutcome(s2, 3, fail);
    var s4 := ProcessOutcome(s3, 3, fail);
    assert s3.status == Retrying && s3.retryCount == 3 && s4.status == Failed;
    assert [fail, fail, fail, fail][1..] == [fail, fail, fail];
    assert [fail, fail, fail][1..] == [fail, fail];
    assert [fail, fail][1..] == [fail];
    assert Attempts(s3, 3, [fail]) == s4;
    assert Attempts(s2, 3, [fail, fail]) == s4;
    assert Attempts(s1, 3, [fail, fail, fail]) == s4;
  }

  class JobQueue {
    const thresholds: Thresholds
    /** How many worker threads `_start_workers` launched. */
    const workerCount: int
    var fifo: seq<ConversionJob>
    var runningJobs: map<string, ConversionJob>
    var completedJobs: map<string, ConversionJob>
    /** The job table: written by `_update_job_in_db`, never read back by the queue. */
    var db: map<string, JobRecord>

    /** Every dictionary entry is keyed by its job's identifier. */
    ghost predicate Valid()
      reads this
    {
      && (forall k :: k in runningJobs ==> runningJobs[k].id == k)
      && (forall k :: k in completedJobs ==> completedJobs[k].id == k)
    }

    /** Every job object the queue holds, in the FIFO or in either dictionary. */
    ghost function Known(): set<ConversionJob>
      reads this
    {
      (set j | j in fifo) + runningJobs.Values + completedJobs.Values
    }

    /** Every job the queue holds is within its retry budget. */
    ghost predicate RetriesBounded()
      reads this, Known()
    {
      forall j :: j in Known() ==> j.retryCount <= j.maxRetries
    }

    /** A new queue: empty, with as many workers as `get_optimal_job_count` gives at start-up. */
    constructor (resources: Config.ResourceConfig, sample: Option<Usage>, cpuCount: nat)
      ensures Valid() && thresholds == FromConfig(resources)
      ensures workerCount == OptimalJobCount(SampleOrZero(sample).cpuPercent, cpuCount, resources.maxConcurrentJobs)
      ensures fifo == [] && runningJobs == map[] && completedJobs == map[] && db == map[]
    {
      thresholds := FromConfig(resources);
      workerCount := OptimalJobCount(SampleOrZero(sample).cpuPercent, cpuCount, resources.maxConcurrentJobs);
      fifo := [];
      runningJobs := map[];
      completedJobs := map[];
      db := map[];
    }

    /**
     * `get_job_status`: the running entry if there is one, else the completed entry, else `None`.
     */
    function GetJobStatus(jobId: string): (r: Option<ConversionJob>)
      reads this
      ensures r.None? <==> jobId !in runningJobs && jobId !in completedJobs
      ensures jobId in runningJobs ==> r == Some(runningJobs[jobId])
      ensures jobId !in runningJobs && jobId in completedJobs ==> r == Some(completedJobs[jobId])
      ensures Valid() && r.Some? ==> r.value.id == jobId
    {
      if jobId in runningJobs then Some(runningJobs[jobId])
      else if jobId in completedJobs then Some(completedJobs[jobId])
      else None
    }

    /**
     * `add_job`: refused, with nothing changed, when the identifier is running or completed;
     * otherwise the job joins the back of the FIFO and the running dictionary, and is saved.
     */
    method AddJob(job: ConversionJob) returns (added: bool)
      requires Valid()
      modifies this
      ensures Valid()
      ensures added <==> job.id !in old(runningJobs) && job.id !in old(completedJobs)
      ensures added ==> fifo == old(fifo) + [job] && runningJobs == old(runningJobs)[job.id := job]
      ensures added ==> completedJobs == old(completedJobs) && db == old(db)[job.id := job.Record()]
      ensures added ==> GetJobStatus(job.id) == Some(job)
      ensures !added ==> unchanged(this)
      ensures old(RetriesBounded()) && job.retryCount <= job.maxRetries ==> RetriesBounded()
    {
      if job.id in runningJobs || job.id in completedJobs {
        return false;
      }
      fifo := fifo + [job];
      runningJobs := runningJobs[job.id := job];
      db := db[job.id := job.Record()];
      added := true;
    }

    /**
     * `cancel_job`: a running entry is marked CANCELLED, saved and dropped from the running
     * dictionary; it stays in the FIFO. Any other identifier is refused with nothing changed.
     */
    method CancelJob(jobId: string) returns (cancelled: bool)
      requires Valid()
      modifies this, if jobId in runningJobs then {runningJobs[jobId]} else {}
      ensures Valid()
      ensures cancelled <==> jobId in old(runningJobs)
      ensures cancelled ==>
        var job := old(runningJobs[jobId]);
        && job.State() == old(job.State()).(status := Cancelled)
        && runningJobs == old(runningJobs) - {jobId}
        && fifo == old(fifo) && completedJobs == old(completedJobs)
        && db == old(db)[jobId := job.Record()]
      ensures cancelled ==> GetJobStatus(jobId) == (if jobId in completedJobs then Some(completedJobs[jobId]) else None)
      ensures !cancelled ==> unchanged(this)
      ensures Known() <= old(Known())
      ensures old(RetriesBounded()) ==> RetriesBounded()
    {
      if jobId !in runningJobs {
        return false;
      }
      var job := runningJobs[jobId];
      job.status := Cancelled;
      db := db[jobId := job.Record()];
      ghost var before := runningJobs;
      runningJobs := runningJobs - {jobId};
      assert runningJobs.Values <= before.Values by {
        forall j | j in runningJobs.Values ensures j in before.Values {
          var k :| k in runningJobs && runningJobs[k] == j;
          assert before[k] == j;
        }
      }
      cancelled := true;
    }

    /** The first half of `_process_job`: the job is marked RUNNING and saved. */
    method BeginProcessing(job: ConversionJob)
      modifies this, job
      ensures job.State() == old(job.State()).(status := Running)
      ensures db == old(db)[job.id := job.Record()]
      ensures fifo == old(fifo) && runningJobs == old(runningJobs) && completedJobs == old(completedJobs)
    {
      job.status := Running;
      db := db[job.id := job.Record()];
    }

    /**
     * The second half of `_process_job`: the outcome of the conversion is applied, the job is
     * saved, removed from the running dictionary, recorded as completed (also when it is only
     * RETRYING), and a RETRYING job goes back to the end of the FIFO.
     */
    method FinishProcessing(job: ConversionJob, r: ConversionResult)
      requires Valid()
      modifies this, job
      ensures Valid()
      ensures job.State() == ProcessOutcome(old(job.State()), job.maxRetries, r)
      ensures fifo == old(fifo) + (if job.status == Retrying then [job] else [])
      ensures runningJobs == old(runningJobs) - {job.id}
      ensures completedJobs == old(completedJobs)[job.id := job]
      ensures db == old(db)[job.id := job.Record()]
      ensures GetJobStatus(job.id) == Some(job)
    {
      var t := ProcessOutcome(job.State(), job.maxRetries, r);
      job.status, job.progress, job.errorMessage, job.retryCount := t.status, t.progress, t.errorMessage, t.retryCount;
      if t.status == Retrying {
        fifo := fifo + [job];
      }
      db := db[job.id := job.Record()];
      runningJobs := runningJobs - {job.id};
      completedJobs := completedJobs[job.id := job];
    }

    /** `_process_job` run without interruption. */
    method ProcessJob(job: ConversionJob, r: ConversionResult)
      requires Valid()
      modifies this, job
      ensures Valid()
      ensures job.State() == ProcessOutcome(old(job.State()), job.maxRetries, r)
      ensures fifo == old(fifo) + (if job.status == Retrying then [job] else [])
      ensures runningJobs == old(runningJobs) - {job.id}
      ensures completedJobs == old(completedJobs)[job.id := job]
      ensures db == old(db)[job.id := job.Record()]
    {
      BeginProcessing(job);
      FinishProcessing(job, r);
    }

    /**
     * One iteration of `_worker_loop`. An empty FIFO changes nothing. Otherwise the head is taken;
     * if the monitor refuses admission it goes straight back to the end of the FIFO, otherwise it is
     * processed with conversion result `r`.
     */
    method WorkerStep(sample: Option<Usage>, r: ConversionResult)
      requires Valid()
      modifies this, if fifo != [] then {fifo[0]} else {}
      ensures Valid()
      ensures old(fifo) == [] ==> unchanged(this)
      ensures old(fifo) != [] && !CanStartJob(thresholds, SampleOrZero(sample)) ==>
        && fifo == old(fifo)[1..] + [old(fifo)[0]]
        && runningJobs == old(runningJobs) && completedJobs == old(completedJobs) && db == old(db)
        && unchanged(old(fifo)[0])
      ensures old(fifo) != [] && CanStartJob(thresholds, SampleOrZero(sample)) ==>
        var job := old(fifo)[0];
        && job.State() == ProcessOutcome(old(job.State()), job.maxRetries, r)
        && fifo == old(fifo)[1..] + (if job.status == Retrying then [job] else [])
        && runningJobs == old(runningJobs) - {job.id}
        && completedJobs == old(completedJobs)[job.id := job]
        && db == old(db)[job.id := job.Record()]
      ensures Known() <= old(Known())
      ensures old(RetriesBounded()) ==> RetriesBounded()
    {
      if fifo == [] {
        return;
      }
      var job := fifo[0];
      ghost var before := fifo;
      fifo := fifo[1..];
      if !CanStartJob(thresholds, SampleOrZero(sample)) {
        fifo := fifo + [job];
        assert (set j | j in fifo) == (set j | j in before);
        return;
      }
      ProcessJob(job, r);
      assert (set j | j in fifo) <= (set j | j in before);
    }

    /**
     * `_worker_loop` run for as many iterations as `steps` has entries, each with the usage sample
     * and conversion result of that iteration. No job enters the queue and none exceeds its budget.
     */
    method RunWorker(steps: seq<(Option<Usage>, ConversionResult)>)
      requires Valid()
      modifies this, Known()
      ensures Valid()
      ensures Known() <= old(Known())
      ensures old(RetriesBounded()) ==> RetriesBounded()
    {
      var i := 0;
      while i < |steps|
        invariant 0 <= i <= |steps|
        invariant Valid()
        invariant Known() <= old(Known())
        invariant old(RetriesBounded()) ==> RetriesBounded()
      {
        WorkerStep(steps[i].0, steps[i].1);
        i := i + 1;
      }
    }
  }

  /**
   * A job cancelled while it waits is still taken from the FIFO and run: cancelling only removes it
   * from the running dictionary, and processing overwrites the CANCELLED status.
   */
  method CancelledJobStillRuns(rc: Config.ResourceConfig, u: Usage)
    requires CanStartJob(FromConfig(rc), u)
  {
    var q := new JobQueue(rc, Some(u), 4);
    var job := new ConversionJob.WithDefaults("a", "/in.mkv", "/out.mp4");
    var added := q.AddJob(job);
    assert added && q.fifo == [job];
    var cancelled := q.CancelJob("a");
    assert cancelled && job.status == Cancelled && q.GetJobStatus("a") == None;
    q.WorkerStep(Some(u), Exited(0, ""));
    assert job.status == Completed && q.GetJobStatus("a") == Some(job);
  }

  /** A failed attempt with budget left is both recorded as completed and queued again. */
  method RetryingJobIsRecordedAndQueued(rc: Config.ResourceConfig, u: Usage)
    requires CanStartJob(FromConfig(rc), u)
  {
    var q := new JobQueue(rc, Some(u), 4);
    var job := new ConversionJob.WithDefaults("b", "/in.mkv", "/out.mp4");
    var added := q.AddJob(job);
    q.WorkerStep(Some(u), Exited(1, "boom"));
    assert job.status == Retrying && job.retryCount == 1 && job.errorMessage == "boom";
    assert q.fifo == [job] && q.completedJobs == map["b" := job] && q.runningJobs == map[];
    var again := q.AddJob(job);
    assert !again;
  }
}
