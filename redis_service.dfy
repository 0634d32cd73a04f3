/**
 * The Redis-backed conversion service: the process-wide `active_jobs` dictionary and one Redis
 * hash per job under `job:<id>`, written at creation, on cancel and when a run ends, but not when
 * a run begins nor on progress updates. Reads prefer the stored hash over the in-memory job.
 */
module RedisService {
  import opened Wrappers
  import opened SystemUsage
  import opened Jobs
  import opened Service

  class HandBrakeService {
    /** `MAX_CONCURRENT_JOBS`. */
    const maxJobs: int
    /** Jobs whose run has begun, keyed by id; entries are never removed. */
    var activeJobs: map<string, ConversionJob>
    /** The hashes `job:<id>`, keyed by `<id>`. */
    var store: map<string, JobRecord>

    ghost predicate Valid()
      reads this
    {
      && (forall k :: k in activeJobs ==> activeJobs[k].id == k)
      && (forall k :: k in store ==> store[k].id == k)
    }

    /**
     * A service at start-up: no active job, and the hashes the external Redis server already holds
     * from earlier runs, each under its own `id`.
     */
    constructor (maxJobs: int, persisted: map<string, JobRecord>)
      requires forall k :: k in persisted ==> persisted[k].id == k
      ensures Valid() && this.maxJobs == maxJobs && activeJobs == map[] && store == persisted
    {
      this.maxJobs := maxJobs;
      activeJobs := map[];
      store := persisted;
    }

    /** The current status of every active job. */
    function ActiveStatuses(): (m: map<string, JobStatus>)
      reads this, activeJobs.Values
      ensures m.Keys == activeJobs.Keys && forall k :: k in m ==> m[k] == activeJobs[k].status
    {
      map k | k in activeJobs :: activeJobs[k].status
    }

    /** The record `to_dict` gives for every active job. */
    function ActiveRecords(): (m: map<string, JobRecord>)
      reads this, activeJobs.Values
      ensures m.Keys == activeJobs.Keys && forall k :: k in m ==> m[k] == activeJobs[k].Record()
    {
      map k | k in activeJobs :: activeJobs[k].Record()
    }

    /** `can_start_job` for one usage sample (`None` when sampling failed). */
    function CanStartJob(sample: Option<Usage>): (ok: bool)
      reads this, activeJobs.Values
      ensures ok <==> ServiceCanStart(SampleOrZero(sample), RunningCount(ActiveStatuses()), maxJobs)
      ensures sample.None? ==> !ok
    {
      ServiceSamplingFailureRefuses(RunningCount(ActiveStatuses()), maxJobs);
      ServiceCanStart(SampleOrZero(sample), RunningCount(ActiveStatuses()), maxJobs)
    }

    /**
     * `/convert`: 400 when either path is missing, then 503 when admission refuses, with nothing
     * created or stored; otherwise a fresh pending job with the request's parameters is stored
     * (but not yet made active) and handed to its conversion thread.
     */
    method StartConversion(req: ConvertRequest, sample: Option<Usage>, clockSeconds: nat) returns (resp: ConvertResponse)
      requires Valid()
      modifies this
      ensures Valid()
      ensures Missing(req.inputPath) || Missing(req.outputPath) ==> resp == MissingFields && unchanged(this)
      ensures !Missing(req.inputPath) && !Missing(req.outputPath) && !old(CanStartJob(sample)) ==>
                resp == Overloaded && unchanged(this)
      ensures resp.Started? <==> !Missing(req.inputPath) && !Missing(req.outputPath) && old(CanStartJob(sample))
      ensures resp.Started? ==>
        var job := resp.job;
        && fresh(job)
        && job.id == RequestJobId(req, clockSeconds)
        && job.inputPath == req.inputPath.value && job.outputPath == req.outputPath.value
        && job.params == RequestParams(req) && job.maxRetries == DefaultMaxRetries
        && job.State() == InitialState
        && store == old(store)[job.id := job.Record()] && activeJobs == old(activeJobs)
    {
      if Missing(req.inputPath) || Missing(req.outputPath) {
        return MissingFields;
      }
      if !CanStartJob(sample) {
        return Overloaded;
      }
      var job := new ConversionJob(RequestJobId(req, clockSeconds), req.inputPath.value, req.outputPath.value,
                                   RequestParams(req), DefaultMaxRetries);
      store := store[job.id := job.Record()];
      resp := Started(job);
    }

    /**
     * The start of `run_handbrake_conversion`: the job is marked RUNNING and registered as active
     * (replacing any other job with its id); nothing is written to Redis.
     */
    method BeginConversion(job: ConversionJob)
      requires Valid()
      modifies this, job
      ensures Valid()
      ensures job.State() == old(job.State()).(status := Running)
      ensures activeJobs == old(activeJobs)[job.id := job]
      ensures store == old(store)
      ensures ActiveStatuses() == old(ActiveStatuses())[job.id := Running]
      ensures RunningCount(ActiveStatuses()) <= old(RunningCount(ActiveStatuses())) + 1
    {
      ghost var before := ActiveStatuses();
      job.status := Running;
      activeJobs := activeJobs[job.id := job];
      assert ActiveStatuses() == before[job.id := Running] by {
        forall k | k in activeJobs && k != job.id ensures activeJobs[k] != job {
          assert activeJobs[k].id == k;
        }
      }
      RunningCountUpdate(before, job.id, Running);
    }

    /**
     * The progress loop of `run_handbrake_conversion`: each progress update is stored on the job
     * only, until a malformed line raises out of the loop or the output ends.
     */
    method ReadProgress(job: ConversionJob, output: seq<OutputLine>) returns (error: Option<string>)
      modifies job
      ensures (job.progress, error) == ScanOutput(old(job.progress), output)
      ensures job.State() == old(job.State()).(progress := job.progress)
    {
      var i := 0;
      error := None;
      while i < |output| && error.None?
        invariant 0 <= i <= |output|
        invariant job.State() == old(job.State()).(progress := job.progress)
        invariant error.None? ==> ScanOutput(old(job.progress), output) == ScanOutput(job.progress, output[i..])
        invariant error.Some? ==> ScanOutput(old(job.progress), output) == (job.progress, error)
      {
        assert output[i..][0] == output[i] && output[i..][1..] == output[i + 1..];
        match output[i] {
          case ProgressUpdate(percent) =>
            job.progress := percent;
          case Skipped =>
          case Malformed(message) =>
            error := Some(message);
        }
        i := i + 1;
      }
      assert error.None? ==> output[i..] == [];
    }

    /**
     * The rest of `run_handbrake_conversion`: after the progress loop the outcome of the run
     * overwrites the status, whatever it was by then, and the job's hash is written. It stays in
     * the active dictionary.
     */
    method FinishConversion(job: ConversionJob, e: Execution)
      requires Valid()
      modifies this, job
      ensures Valid()
      ensures job.State() == ServiceOutcome(old(job.State()), e)
      ensures activeJobs == old(activeJobs)
      ensures store == old(store)[job.id := job.Record()]
    {
      match e {
        case SpawnFailed(message) =>
          job.status, job.errorMessage := Failed, message;
        case Spawned(output, returnCode) =>
          var error := ReadProgress(job, output);
          if error.Some? {
            job.status, job.errorMessage := Failed, error.value;
          } else if returnCode == 0 {
            job.status, job.progress := Completed, 100.0;
          } else {
            job.status, job.errorMessage := Failed, FailureMessage(returnCode);
          }
      }
      store := store[job.id := job.Record()];
    }

    /** `run_handbrake_conversion` without a cancel in between. */
    method RunConversion(job: ConversionJob, e: Execution)
      requires Valid()
      modifies this, job
      ensures Valid()
      ensures job.State() == ServiceOutcome(old(job.State()).(status := Running), e)
      ensures activeJobs == old(activeJobs)[job.id := job]
      ensures store == old(store)[job.id := job.Record()]
    {
      BeginConversion(job);
      FinishConversion(job, e);
    }

    /**
     * `/cancel/<job_id>`: 404 for an id that is not active, 400 with nothing changed for an active
     * job that is not RUNNING, otherwise the job is marked CANCELLED and its hash written.
     * HandBrake is not stopped, so the job's run goes on and its end overwrites the status.
     */
    method CancelJob(jobId: string) returns (resp: CancelResponse)
      requires Valid()
      modifies this, if jobId in activeJobs then {activeJobs[jobId]} else {}
      ensures Valid()
      ensures resp == NotFound <==> jobId !in old(activeJobs)
      ensures resp == NotRunning <==> jobId in old(activeJobs) && old(activeJobs[jobId].status) != Running
      ensures resp != CancelledOk ==> unchanged(this) && (jobId in activeJobs ==> unchanged(activeJobs[jobId]))
      ensures resp == CancelledOk ==> activeJobs == old(activeJobs) && jobId in activeJobs
      ensures resp == CancelledOk ==>
        var job := activeJobs[jobId];
        && job.State() == old(job.State()).(status := Cancelled)
        && store == old(store)[jobId := job.Record()]
        && RunningCount(ActiveStatuses()) == old(RunningCount(ActiveStatuses())) - 1
    {
      if jobId !in activeJobs {
        return NotFound;
      }
      var job := activeJobs[jobId];
      if job.status != Running {
        return NotRunning;
      }
      ghost var before := ActiveStatuses();
      job.status := Cancelled;
      store := store[jobId := job.Record()];
      assert ActiveStatuses() == before[jobId := Cancelled] by {
        forall k | k in activeJobs && k != jobId ensures activeJobs[k] != job {
          assert activeJobs[k].id == k;
        }
      }
      RunningCountUpdate(before, jobId, Cancelled);
      resp := CancelledOk;
    }

    /**
     * `/job/<job_id>`: the stored hash if there is one, else the active job, else not found (404).
     */
    function GetJobStatus(jobId: string): (r: Option<JobRecord>)
      reads this, activeJobs.Values
      ensures r.None? <==> jobId !in store && jobId !in activeJobs
      ensures jobId in store ==> r == Some(store[jobId])
      ensures jobId !in store && jobId in activeJobs ==> r == Some(activeJobs[jobId].Record())
      ensures Valid() && r.Some? ==> r.value.id == jobId
    {
      if jobId in store then Some(store[jobId])
      else if jobId in activeJobs then Some(activeJobs[jobId].Record())
      else None
    }

    /**
     * `/jobs`: every stored hash (in the order `KEYS job:*` returns them) and then every active
     * job, with their count.
     */
    function ListJobs(storeOrder: seq<string>, activeOrder: seq<string>): (r: (seq<JobRecord>, int))
      reads this, activeJobs.Values
      requires Enumerates(storeOrder, store.Keys) && Enumerates(activeOrder, activeJobs.Keys)
      ensures r.1 == |r.0| == |storeOrder| + |activeOrder| == |store| + |activeJobs|
      ensures forall i :: 0 <= i < |storeOrder| ==> r.0[i] == store[storeOrder[i]]
      ensures forall i :: 0 <= i < |activeOrder| ==> r.0[|storeOrder| + i] == activeJobs[activeOrder[i]].Record()
      ensures forall k :: k in store && k in activeJobs ==>
        exists i, j :: 0 <= i < |store| <= j < |r.0| && r.0[i] == store[k] && r.0[j] == activeJobs[k].Record()
    {
      Listing(store, storeOrder, ActiveRecords(), activeOrder)
    }
  }

  /**
   * While a job runs, `/job/<id>` answers from the hash written at creation, which still says
   * pending at 0%; the running status only reaches Redis through a cancel or the end of the run.
   */
  method RunningJobReportsStoredState(u: Usage)
    requires ServiceCanStart(u, 0, DefaultMaxConcurrentJobs)
  {
    var service := new HandBrakeService(DefaultMaxConcurrentJobs, map[]);
    var req := ConvertRequest(Some("/in.mkv"), Some("/out.mp4"), Some("a"), None, None, None, None);
    assert RunningCount(service.ActiveStatuses()) == 0;
    var resp := service.StartConversion(req, Some(u), 1700000000);
    assert resp.Started?;
    var job := resp.job;
    service.BeginConversion(job);
    assert job.status == Running;
    assert service.GetJobStatus("a") == Some(service.store["a"]);
    assert service.store["a"].state == InitialState;
    service.FinishConversion(job, Spawned([ProgressUpdate(40.0)], 2));
    assert service.GetJobStatus("a").value.state.status == Failed;
    assert service.GetJobStatus("a").value.state.errorMessage == FailureMessage(2);
  }

  /**
   * RUNNING never reaches Redis: a run that dies before its final write leaves the hash written at
   * creation, so after a restart the job is reported as pending, is not active, and does not
   * count against the job limit.
   */
  method StalePendingHashIsReported(u: Usage)
    requires ServiceCanStart(u, 0, DefaultMaxConcurrentJobs)
  {
    var service := new HandBrakeService(DefaultMaxConcurrentJobs, map[]);
    var req := ConvertRequest(Some("/in.mkv"), Some("/out.mp4"), Some("a"), None, None, None, None);
    assert RunningCount(service.ActiveStatuses()) == 0;
    var resp := service.StartConversion(req, Some(u), 1700000000);
    assert resp.Started?;
    var job := resp.job;
    service.BeginConversion(job);
    assert job.status == Running && service.store["a"].state.status == Pending;
    var restarted := new HandBrakeService(DefaultMaxConcurrentJobs, service.store);
    assert restarted.GetJobStatus("a") == Some(service.store["a"]);
    assert restarted.GetJobStatus("a").value.state.status == Pending;
    assert restarted.ActiveStatuses() == map[];
    assert RunningCount(restarted.ActiveStatuses()) == 0;
    assert restarted.CanStartJob(Some(u));
  }
}
