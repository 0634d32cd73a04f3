/**
 * The simplified conversion service: the process-wide `active_jobs` dictionary and a SQLite job
 * table, written at creation, when a run begins, on every progress update, on cancel and when a
 * run ends. Reads prefer the in-memory job over the table row.
 */
module SqliteService {
  import opened Wrappers
  import opened SystemUsage
  import opened Jobs
  import opened Service

  class HandBrakeService {
    /** `MAX_CONCURRENT_JOBS`. */
    const maxJobs: int
    /** Jobs whose run has begun, keyed by id; entries are never removed. */
    var activeJobs: map<string, ConversionJob>
    /** The `jobs` table, keyed by its primary key. */
    var db: map<string, JobRecord>

    ghost predicate Valid()
      reads this
    {
      && (forall k :: k in activeJobs ==> activeJobs[k].id == k)
      && (forall k :: k in db ==> db[k].id == k)
    }

    /**
     * A service at start-up: no active job, and the rows the persistent SQLite file already holds
     * from earlier runs (`CREATE TABLE IF NOT EXISTS` keeps them), each under its own `id`.
     */
    constructor (maxJobs: int, persisted: map<string, JobRecord>)
      requires forall k :: k in persisted ==> persisted[k].id == k
      ensures Valid() && this.maxJobs == maxJobs && activeJobs == map[] && db == persisted
    {
      this.maxJobs := maxJobs;
      activeJobs := map[];
      db := persisted;
    }

    /** The current status of every active job. */
    function ActiveStatuses(): (m: map<string, JobStatus>)
      reads this, activeJobs.Values
      ensures m.Keys == activeJobs.Keys && forall k :: k in m ==> m[k] == activeJobs[k].status
    {
      map k | k in activeJobs :: activeJobs[k].status
    }

    /** The record `to_dict` gives for every active job. */
    function ActiveRecords(): (m: map<string, JobRecord>)
      reads this, activeJobs.Values
      ensures m.Keys == activeJobs.Keys && forall k :: k in m ==> m[k] == activeJobs[k].Record()
    {
      map k | k in activeJobs :: activeJobs[k].Record()
    }

    /** `can_start_job` for one usage sample (`None` when sampling failed). */
    function CanStartJob(sample: Option<Usage>): (ok: bool)
      reads this, activeJobs.Values
      ensures ok <==> ServiceCanStart(SampleOrZero(sample), RunningCount(ActiveStatuses()), maxJobs)
      ensures sample.None? ==> !ok
    {
      ServiceSamplingFailureRefuses(RunningCount(ActiveStatuses()), maxJobs);
      ServiceCanStart(SampleOrZero(sample), RunningCount(ActiveStatuses()), maxJobs)
    }

    /**
     * `/convert`: 400 when either path is missing, then 503 when admission refuses, with nothing
     * created or saved; otherwise a fresh pending job with the request's parameters is saved to the
     * table (but not yet made active) and handed to its conversion thread.
     */
    method StartConversion(req: ConvertRequest, sample: Option<Usage>, clockSeconds: nat) returns (resp: ConvertResponse)
      requires Valid()
      modifies this
      ensures Valid()
      ensures Missing(req.inputPath) || Missing(req.outputPath) ==> resp == MissingFields && unchanged(this)
      ensures !Missing(req.inputPath) && !Missing(req.outputPath) && !old(CanStartJob(sample)) ==>
                resp == Overloaded && unchanged(this)
      ensures resp.Started? <==> !Missing(req.inputPath) && !Missing(req.outputPath) && old(CanStartJob(sample))
      ensures resp.Started? ==>
        var job := resp.job;
        && fresh(job)
        && job.id == RequestJobId(req, clockSeconds)
        && job.inputPath == req.inputPath.value && job.outputPath == req.outputPath.value
        && job.params == RequestParams(req) && job.maxRetries == DefaultMaxRetries
        && job.State() == InitialState
        && db == old(db)[job.id := job.Record()] && activeJobs == old(activeJobs)
    {
      if Missing(req.inputPath) || Missing(req.outputPath) {
        return MissingFields;
      }
      if !CanStartJob(sample) {
        return Overloaded;
      }
      var job := new ConversionJob(RequestJobId(req, clockSeconds), req.inputPath.value, req.outputPath.value,
                                   RequestParams(req), DefaultMaxRetries);
      db := db[job.id := job.Record()];
      resp := Started(job);
    }

    /**
     * The start of `run_handbrake_conversion`: the job is marked RUNNING, registered as active
     * (replacing any other job with its id) and saved. The running count grows by at most one.
     */
    method BeginConversion(job: ConversionJob)
      requires Valid()
      modifies this, job
      ensures Valid()
      ensures job.State() == old(job.State()).(status := Running)
      ensures activeJobs == old(activeJobs)[job.id := job]
      ensures db == old(db)[job.id := job.Record()]
      ensures ActiveStatuses() == old(ActiveStatuses())[job.id := Running]
      ensures RunningCount(ActiveStatuses()) <= old(RunningCount(ActiveStatuses())) + 1
    {
      ghost var before := ActiveStatuses();
      job.status := Running;
      activeJobs := activeJobs[job.id := job];
      db := db[job.id := job.Record()];
      assert ActiveStatuses() == before[job.id := Running] by {
        forall k | k in activeJobs && k != job.id ensures activeJobs[k] != job {
          assert activeJobs[k].id == k;
        }
      }
      RunningCountUpdate(before, job.id, Running);
    }

    /**
     * The progress loop of `run_handbrake_conversion`: each progress update is stored on the job
     * and saved, until a malformed line raises out of the loop or the output ends.
     */
    method ReadProgress(job: ConversionJob, output: seq<OutputLine>) returns (error: Option<string>)
      requires Valid()
      modifies this, job
      ensures Valid()
      ensures (job.progress, error) == ScanOutput(old(job.progress), output)
      ensures job.State() == old(job.State()).(progress := job.progress)
      ensures activeJobs == old(activeJobs)
      ensures db == old(db) || db == old(db)[job.id := job.Record()]
    {
      var i := 0;
      error := None;
      while i < |output| && error.None?
        invariant 0 <= i <= |output|
        invariant job.State() == old(job.State()).(progress := job.progress)
        invariant error.None? ==> ScanOutput(old(job.progress), output) == ScanOutput(job.progress, output[i..])
        invariant error.Some? ==> ScanOutput(old(job.progress), output) == (job.progress, error)
        invariant activeJobs == old(activeJobs) && Valid()
        invariant db == old(db) || db == old(db)[job.id := job.Record()]
      {
        assert output[i..][0] == output[i] && output[i..][1..] == output[i + 1..];
        match output[i] {
          case ProgressUpdate(percent) =>
            job.progress := percent;
            db := db[job.id := job.Record()];
          case Skipped =>
          case Malformed(message) =>
            error := Some(message);
        }
        i := i + 1;
      }
      assert error.None? ==> output[i..] == [];
    }

    /**
     * The rest of `run_handbrake_conversion`: after the progress loop the outcome of the run
     * overwrites the status, whatever it was by then, and the job is saved again. It stays in the
     * active dictionary.
     */
    method FinishConversion(job: ConversionJob, e: Execution)
      requires Valid()
      modifies this, job
      ensures Valid()
      ensures job.State() == ServiceOutcome(old(job.State()), e)
      ensures activeJobs == old(activeJobs)
      ensures db == old(db)[job.id := job.Record()]
    {
      match e {
        case SpawnFailed(message) =>
          job.status, job.errorMessage := Failed, message;
        case Spawned(output, returnCode) =>
          var error := ReadProgress(job, output);
          if error.Some? {
            job.status, job.errorMessage := Failed, error.value;
          } else if returnCode == 0 {
            job.status, job.progress := Completed, 100.0;
          } else {
            job.status, job.errorMessage := Failed, FailureMessage(returnCode);
          }
      }
      assert db[job.id := job.Record()] == old(db)[job.id := job.Record()];
      db := db[job.id := job.Record()];
    }

    /** `run_handbrake_conversion` without a cancel in between. */
    method RunConversion(job: ConversionJob, e: Execution)
      requires Valid()
      modifies this, job
      ensures Valid()
      ensures job.State() == ServiceOutcome(old(job.State()).(status := Running), e)
      ensures activeJobs == old(activeJobs)[job.id := job]
      ensures db == old(db)[job.id := job.Record()]
    {
      BeginConversion(job);
      FinishConversion(job, e);
    }

    /**
     * `/cancel/<job_id>`: 404 for an id that is not active, 400 with nothing changed for an active
     * job that is not RUNNING, otherwise the job is marked CANCELLED and saved. HandBrake is not
     * stopped, so the job's run goes on and its end overwrites the status.
     */
    method CancelJob(jobId: string) returns (resp: CancelResponse)
      requires Valid()
      modifies this, if jobId in activeJobs then {activeJobs[jobId]} else {}
      ensures Valid()
      ensures resp == NotFound <==> jobId !in old(activeJobs)
      ensures resp == NotRunning <==> jobId in old(activeJobs) && old(activeJobs[jobId].status) != Running
      ensures resp != CancelledOk ==> unchanged(this) && (jobId in activeJobs ==> unchanged(activeJobs[jobId]))
      ensures resp == CancelledOk ==> activeJobs == old(activeJobs) && jobId in activeJobs
      ensures resp == CancelledOk ==>
        var job := activeJobs[jobId];
        && job.State() == old(job.State()).(status := Cancelled)
        && db == old(db)[jobId := job.Record()]
        && RunningCount(ActiveStatuses()) == old(RunningCount(ActiveStatuses())) - 1
    {
      if jobId !in activeJobs {
        return NotFound;
      }
      var job := activeJobs[jobId];
      if job.status != Running {
        return NotRunning;
      }
      ghost var before := ActiveStatuses();
      job.status := Cancelled;
      db := db[jobId := job.Record()];
      assert ActiveStatuses() == before[jobId := Cancelled] by {
        forall k | k in activeJobs && k != jobId ensures activeJobs[k] != job {
          assert activeJobs[k].id == k;
        }
      }
      RunningCountUpdate(before, jobId, Cancelled);
      resp := CancelledOk;
    }

    /**
     * `/job/<job_id>`: the active job if there is one, else the table row, else not found (404).
     */
    function GetJobStatus(jobId: string): (r: Option<JobRecord>)
      reads this, activeJobs.Values
      ensures r.None? <==> jobId !in activeJobs && jobId !in db
      ensures jobId in activeJobs ==> r == Some(activeJobs[jobId].Record())
      ensures jobId !in activeJobs && jobId in db ==> r == Some(db[jobId])
      ensures Valid() && r.Some? ==> r.value.id == jobId
    {
      if jobId in activeJobs then Some(activeJobs[jobId].Record())
      else if jobId in db then Some(db[jobId])
      else None
    }

    /**
     * `/jobs`: every table row (in the table's order) and then every active job, with their count.
     */
    function ListJobs(dbOrder: seq<string>, activeOrder: seq<string>): (r: (seq<JobRecord>, int))
      reads this, activeJobs.Values
      requires Enumerates(dbOrder, db.Keys) && Enumerates(activeOrder, activeJobs.Keys)
      ensures r.1 == |r.0| == |dbOrder| + |activeOrder| == |db| + |activeJobs|
      ensures forall i :: 0 <= i < |dbOrder| ==> r.0[i] == db[dbOrder[i]]
      ensures forall i :: 0 <= i < |activeOrder| ==> r.0[|dbOrder| + i] == activeJobs[activeOrder[i]].Record()
      ensures forall k :: k in db && k in activeJobs ==>
        exists i, j :: 0 <= i < |db| <= j < |r.0| && r.0[i] == db[k] && r.0[j] == activeJobs[k].Record()
    {
      Listing(db, dbOrder, ActiveRecords(), activeOrder)
    }
  }

  /**
   * A pending job cannot be cancelled (it is not active yet); once running it can, but the end of
   * its run still overwrites CANCELLED, in memory and in the table.
   */
  method CancelledJobIsOverwritten(u: Usage)
    requires ServiceCanStart(u, 0, DefaultMaxConcurrentJobs)
  {
    var service := new HandBrakeService(DefaultMaxConcurrentJobs, map[]);
    var req := ConvertRequest(Some("/in.mkv"), Some("/out.mp4"), Some("a"), None, None, None, None);
    assert RunningCount(service.ActiveStatuses()) == 0;
    var resp := service.StartConversion(req, Some(u), 1700000000);
    assert resp.Started?;
    var job := resp.job;
    assert job.id == "a" && service.db["a"].state.status == Pending;
    var early := service.CancelJob("a");
    assert early == NotFound;
    service.BeginConversion(job);
    var cancelled := service.CancelJob("a");
    assert cancelled == CancelledOk && job.status == Cancelled;
    assert service.GetJobStatus("a") == Some(job.Record());
    service.FinishConversion(job, Spawned([ProgressUpdate(50.0)], 0));
    assert job.status == Completed && job.progress == 100.0;
    assert service.db["a"].state.status == Completed;
  }

  /** A job whose run has begun is both a table row and active, so `/jobs` counts it twice. */
  method ActiveJobIsListedTwice()
  {
    var job := new ConversionJob.WithDefaults("b", "/in.mkv", "/out.mp4");
    var service := new HandBrakeService(DefaultMaxConcurrentJobs, map[]);
    service.BeginConversion(job);
    var id := job.id;
    assert service.db == map[id := job.Record()] && service.activeJobs == map[id := job];
    assert service.db.Keys == {id} && service.activeJobs.Keys == {id};
    var order := [id];
    assert Enumerates(order, service.db.Keys) && Enumerates(order, service.activeJobs.Keys);
    var listing := service.ListJobs(order, order);
    assert listing.1 == 2;
  }

  /**
   * A table row left RUNNING by an earlier run is reported as it is after a restart: nothing
   * re-evaluates it, and since it is not active it does not count against the job limit.
   */
  method StaleRunningRowIsReported(row: JobRecord, u: Usage)
    requires row.state.status == Running
    requires ServiceCanStart(u, 0, DefaultMaxConcurrentJobs)
  {
    var service := new HandBrakeService(DefaultMaxConcurrentJobs, map[row.id := row]);
    assert service.GetJobStatus(row.id) == Some(row);
    assert service.GetJobStatus(row.id).value.state.status == Running;
    assert service.ActiveStatuses() == map[];
    assert RunningCount(service.ActiveStatuses()) == 0;
    assert service.CanStartJob(Some(u));
  }
}
