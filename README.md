# Video conversion scheduler: a Dafny model

This project models the job-scheduling core of a video-conversion system in Dafny. Conversion
jobs are admitted according to host load, queued, run by an external transcoder and retried when
they fail. The model covers four Python files:

- `api-gateway/job_queue.py`. The job record and its six statuses; the resource monitor's
  admission test and worker-count rule; the `JobQueue`. The `JobQueue` holds a FIFO of job objects
  plus the `running_jobs` and `completed_jobs` dictionaries, and applies a bounded retry counter
  when a conversion fails.
- `config/config.py`. The `__post_init__` checks of every configuration section, including the
  `WIDTHxHEIGHT` resolution parser. The top-level configuration fills empty collections with
  defaults and checks the environment name. The security part of `to_dict` leaves out the JWT
  secret.
- `handbrake-service/handbrake_service_simple.py`. The SQLite-backed conversion service:
  admission, `/convert`, one HandBrake run, `/cancel`, `/job/<id>` and `/jobs`.
- `handbrake-service/handbrake_service.py`. The same service on Redis. It writes the store at
  different points and prefers the store over the in-memory job when it reads.

Layout, one module per file:

| file | module |
|---|---|
| `wrappers.dfy` | `Wrappers`: `Option`, `Outcome` (pass, or fail with a message), `Result` |
| `text.dfy` | `Text`: the pieces of Python's string handling that the core relies on. These are `str(n)`, `int(s)` (sign, surrounding whitespace, underscores between digits) and `s.split(c)`. |
| `system_usage.dfy` | `SystemUsage`: the usage sample, zeroed when sampling fails |
| `jobs.dfy` | `Jobs`: `JobStatus`, the parameters, the mutable job state and the `ConversionJob` class |
| `resource_monitor.dfy` | `ResourceMonitor`: the queue's admission test and worker count |
| `job_queue.dfy` | `Queue`: the retry policy as functions, and the `JobQueue` class |
| `config.dfy` | `Config`: validators as functions, and the `AppConfig` class for the top-level hook |
| `service_common.dfy` | `Service`: what both services share. This is the admission test, request handling, the outcome of a run, the response codes and the listing. |
| `sqlite_service.dfy` | `SqliteService.HandBrakeService`: `active_jobs` plus the SQLite table |
| `redis_service.dfy` | `RedisService.HandBrakeService`: `active_jobs` plus the Redis hashes |

How the model is built:

- **Jobs are objects.** The code updates a job's status in place and shares one job object between
  the queue and the dictionaries, so `ConversionJob` is a class. Its var fields are status,
  progress, error message and retry count. Its const fields are the fields the code never changes.
- **Stores are maps.** The `jobs` table and the Redis hashes are maps from a job id to a value
  copy of the job.
- **Threads become steps.**
  - A service's conversion thread is split into `BeginConversion` and `FinishConversion`, so a
    cancel can be placed between them.
  - `_process_job` is split into `BeginProcessing` and `FinishProcessing`.
  - One iteration of a worker thread is `WorkerStep`.
- **Quirks are kept, and shown.** Small scenario methods (no contract of their own) use the
  proved contracts to step through the code's quirks:
  - `Queue.CancelledJobStillRuns`: a cancelled queue job is still dequeued and run.
  - `Queue.RetryingJobIsRecordedAndQueued`: a retrying job is both recorded as completed and
    queued again.
  - `SqliteService.CancelledJobIsOverwritten`: the end of a run overwrites CANCELLED.
  - `SqliteService.ActiveJobIsListedTwice`: `/jobs` lists a running job twice.
  - `RedisService.RunningJobReportsStoredState`: the Redis service reports a running job as
    pending.
  - `SqliteService.StaleRunningRowIsReported`: a table row left RUNNING by an earlier run is
    reported as RUNNING after a restart, and it does not count against the job limit.
  - `RedisService.StalePendingHashIsReported`: the Redis service never writes RUNNING, so a run
    that dies before its final write leaves its hash PENDING; after a restart the job is reported
    as PENDING and does not count against the job limit.

Behaviour of the code that the model keeps as written:

- **Progress on retry.** A retry keeps the progress already reached: `_process_job` does not touch
  progress when it sets RETRYING (`Queue.ProcessOutcome`).
- **Cancelled jobs.** In both services, the end of a run overwrites CANCELLED
  (`Service.OutcomeOverwritesStatus`). In the queue, a cancelled job stays in the FIFO and is run
  later.
- **Cancellation.** Cancelling does not stop the process, in the queue or in either service.
- **Resolution errors.** A resolution failure gets one of two messages:
  - one for an empty text or a text without `x`;
  - one for everything else, including dimensions out of range, because the range error is raised
    inside the `try` whose handler replaces it.

  `Config.ParseResolution` states both messages, and `Config.DecimalOutOfRangeRejected` shows every
  out-of-range resolution getting the second one.
- **Worker count.** Above 50% CPU, `get_optimal_job_count` ignores the configured maximum and can
  exceed it (`ResourceMonitor.ThrottledCountIgnoresMaximum`,
  `ResourceMonitor.ThrottledCountExceedsMaximum`).

## Model

| member | source | states |
|---|---|---|
| Jobs.StatusFromValue | handbrake-service/handbrake_service_simple.py:193 | `JobStatus(value)` accepts only a status's own value, and returns that status |
| Jobs.StatusValueRoundTrip | api-gateway/job_queue.py:23-31 | writing a status as its value (as the stores do) and reading it back gives the same status, for all six statuses |
| Jobs.ConversionJob.constructor | api-gateway/job_queue.py:34-57 | a job built with explicit parameters keeps its id, paths, parameters and retry budget, and starts pending at 0% with no error and no retries |
| Jobs.ConversionJob.WithDefaults | api-gateway/job_queue.py:34-57 | a job built from an id and two paths gets quality 23, 720x480, 1000/96 kbit/s and 3 retries, and starts pending at 0% with 0 retries |
| SystemUsage.SampleOrZero | api-gateway/job_queue.py:80-102 | a failed sample is the all-zero record (0 GB of available memory and free disk); a successful one is passed through |
| ResourceMonitor.FromConfig | api-gateway/job_queue.py:74-78 | the monitor copies the CPU limit, memory limit and job limit; a resource section that passed its check gives limits in 1..100% and 1..20 jobs, and then an idle host with 2 GB of memory and 5 GB of disk free is admitted |
| ResourceMonitor.CanStartJob | api-gateway/job_queue.py:104-130 | the sequence of early returns refuses exactly when CPU or memory is above its limit, or available memory is below 2 GB, or free disk is below 5 GB; usage equal to a limit is admitted |
| ResourceMonitor.SamplingFailureRefuses | api-gateway/job_queue.py:94-123 | whatever the limits, a failed sample is refused, because it reports 0 GB available |
| ResourceMonitor.CanStartJobMonotone | api-gateway/job_queue.py:104-130 | a host that is no busier and has no less free memory and disk than an admitted host is also admitted |
| ResourceMonitor.OptimalJobCount | api-gateway/job_queue.py:132-148 | the result is at least 1 when there is a core and a maximum of at least 1, and always above 50% CPU; up to 50% it is capped by the maximum and the core count; above 70% it is capped by the core count unless it is the floor of 1 |
| ResourceMonitor.ThrottledBandsMonotone | api-gateway/job_queue.py:141-146 | above 50% CPU, a busier host never gets more workers |
| ResourceMonitor.ThrottledCountIgnoresMaximum | api-gateway/job_queue.py:141-146 | above 50% CPU the worker count is the same whatever the configured maximum |
| ResourceMonitor.ThrottledCountExceedsMaximum | api-gateway/job_queue.py:141-146 | above 50% CPU the count exceeds every maximum below half the cores (up to 70%) or a quarter of them (above 70%) |
| ResourceMonitor.MiddleBandExceedsIdle | api-gateway/job_queue.py:141-148 | between 50% and 70% CPU, with a maximum of 1, a host gets at least 2 workers, more than the same host gets when idle |
| Queue.ConversionError | api-gateway/job_queue.py:296-335 | `_run_conversion` reports failure exactly when the script did not exit 0; a timeout stores the fixed one-hour message |
| Queue.ProcessOutcome | api-gateway/job_queue.py:247-283 | success gives COMPLETED at 100%; a failure with budget left gives RETRYING with the counter incremented by one; a failure without budget gives FAILED with the counter unchanged; every failure stores stderr, the timeout text or the exception text; progress is kept on failure; a counter within budget stays within budget |
| Queue.AttemptsRetryBound | api-gateway/job_queue.py:258-279 | over any number of attempts, the retry counter never exceeds the job's budget |
| Queue.AttemptsSettle | api-gateway/job_queue.py:258-279 | with one attempt per remaining retry plus one, the job completes exactly when one of those attempts succeeds; otherwise it ends FAILED with the counter equal to the budget |
| Queue.FourFailuresExhaustDefaultBudget | api-gateway/job_queue.py:258-279 | a default job whose every run exits 1 ends FAILED after four runs, with 3 retries and the script's stderr as its message |
| Queue.JobQueue.constructor | api-gateway/job_queue.py:154-218 | a new queue is empty, copies the monitor limits from the resource section, and starts as many workers as `get_optimal_job_count` gives for the start-up sample |
| Queue.JobQueue.GetJobStatus | api-gateway/job_queue.py:423-431 | the running entry, else the completed entry, else nothing; nothing is returned exactly when the id is in neither dictionary |
| Queue.JobQueue.AddJob | api-gateway/job_queue.py:378-395 | refused with nothing changed exactly when the id is running or completed; otherwise the job joins the back of the FIFO and the running dictionary and is saved; the retry bound is preserved |
| Queue.JobQueue.CancelJob | api-gateway/job_queue.py:401-417 | succeeds exactly for a running id: the job becomes CANCELLED, is saved and leaves the running dictionary, but stays in the FIFO; any other id changes nothing; no job enters the queue and the retry bound is preserved |
| Queue.JobQueue.BeginProcessing | api-gateway/job_queue.py:247-253 | the job becomes RUNNING and is saved; the FIFO and the dictionaries are unchanged |
| Queue.JobQueue.FinishProcessing | api-gateway/job_queue.py:255-288 | the job takes `ProcessOutcome`'s state and is saved; a RETRYING job goes back to the end of the FIFO; the job leaves the running dictionary and is recorded as completed, even when it is RETRYING |
| Queue.JobQueue.ProcessJob | api-gateway/job_queue.py:247-294 | the whole of `_process_job`: the new state is `ProcessOutcome` of the old, with the same effects on the FIFO, the dictionaries and the table |
| Queue.JobQueue.WorkerStep | api-gateway/job_queue.py:220-245 | an empty FIFO changes nothing; a refused head moves, unchanged, from the front to the back of the FIFO; an admitted head is processed as `ProcessJob` states, store write included; no job enters the queue and the retry bound is preserved |
| Queue.JobQueue.RunWorker | api-gateway/job_queue.py:220-245 | any number of worker iterations keep the dictionaries keyed by id, add no job, and preserve the retry bound |
| Config.ValidateSecurity | config/config.py:30-37 | passes exactly when bcrypt rounds are 10..16, the JWT lifetime is 1..168 hours and login attempts are 1..10; the bcrypt check reports first, then the JWT check |
| Config.ValidateResources | config/config.py:54-63 | passes exactly when the CPU, memory and disk limits are 1..100% and the job limit is 1..20; a bad CPU limit is reported first |
| Config.FirstEmpty | config/config.py:80-88 | no result exactly when every listed path is nonempty; otherwise the name of an empty path with no empty path before it |
| Config.ValidateStorage | config/config.py:78-88 | passes exactly when all five paths are nonempty; otherwise the message names the first empty path in the order database, logs, temp, upload, backup |
| Config.ValidateNetwork | config/config.py:104-109 | passes exactly for a port in 1024..65535 and a size limit of at least 1 MiB; a bad port is reported first |
| Config.ParseResolution | config/config.py:135-151 | an empty text or one without `x` gets the shape message; every other failure gets the format message; an accepted resolution has dimensions in range |
| Config.ParseResolutionSound | config/config.py:141-143 | an accepted resolution is exactly one `x` between two pieces that `int()` reads as the width and the height |
| Config.ParseResolutionComplete | config/config.py:141-146 | conversely, two `int()`-readable pieces around one `x`, with dimensions in range, are accepted with those dimensions |
| Config.ResolutionOfPieces | config/config.py:141-151 | text with an `x` that splits into exactly two pieces is accepted exactly when `int()` reads both pieces and the dimensions are in range, and then with those dimensions; otherwise it gets the format message |
| Config.ResolutionRoundTrip | config/config.py:141-146 | any in-range width and height written in decimal as `WIDTHxHEIGHT` parse back to the same dimensions |
| Config.OutOfRangeRejected | config/config.py:143-151 | a well-formed resolution with a dimension out of range gets the format message, not a range message |
| Config.DefaultResolutionAccepted | config/config.py:117 | the default `720x480` is accepted as 720 by 480 |
| Config.DecimalOutOfRangeRejected | config/config.py:143-151 | any out-of-range width and height written in decimal as `WIDTHxHEIGHT` get the format message |
| Config.OutOfRangeReportsFormatError | config/config.py:143-151 | `100x100` is rejected with the format message |
| Config.ValidateVideo | config/config.py:124-151 | passes exactly for quality 0..51, video bitrate 100..10000, audio bitrate 32..320, duration 1..168 hours and an accepted resolution; a bad quality is reported first |
| Config.ValidateMonitoring | config/config.py:168-174 | passes exactly for one of the five log-level names and a metrics port in 1024..65535; a bad level is reported first |
| Config.DefaultsValid | config/config.py:19-174 | every section at its declared defaults passes its own check |
| Config.FilledNetwork | config/config.py:191-200 | origins are always nonempty afterwards; an empty list becomes the 6 default origins, and a nonempty one is untouched |
| Config.FilledVideo | config/config.py:202-233 | formats and presets are always nonempty afterwards; empty ones become the 7 default formats and the 4 default presets; nonempty ones and all other fields are untouched |
| Config.FillingIsIdempotent | config/config.py:189-233 | filling an already filled configuration changes nothing |
| Config.SecuritySection | config/config.py:240-251 | the security part of `to_dict` holds no `jwt_secret_key` entry, does hold `jwt_algorithm`, and no value in it is the secret (unless the secret equals the algorithm name) |
| Config.AppConfig.constructor | config/config.py:177-187 | the generated initialiser stores its seven arguments, the environment defaulting to `production` |
| Config.AppConfig.PostInit | config/config.py:189-238 | the network and video sections become their filled forms; the hook passes exactly when the environment is development, staging or production, and otherwise fails with the environment message after filling |
| Config.NewConfig | config/config.py:177-238 | a configuration object is produced exactly when the environment is valid, with its collections filled; otherwise there is the environment error; the default environment is accepted |
| Service.RunningCountBound | handbrake-service/handbrake_service_simple.py:122-125 | no more jobs are counted as running than are registered |
| Service.RunningCountUpdate | handbrake-service/handbrake_service_simple.py:122-125 | changing one registered status moves the running count by at most one, exactly as the old and new status say |
| Service.ServiceCanStartMonotone | handbrake-service/handbrake_service_simple.py:117-132 | a host that is no busier, has no less free disk and runs no more jobs than an admitted one is admitted too |
| Service.ServiceSamplingFailureRefuses | handbrake-service/handbrake_service_simple.py:106-114 | a failed sample reports 0 GB free, so nothing is admitted |
| Service.FullServiceRefuses | handbrake-service/handbrake_service_simple.py:117-132 | once the limit's number of registered jobs is RUNNING, nothing more is admitted |
| Service.ServiceStricterThanQueue | handbrake-service/handbrake_service_simple.py:127-132 | with queue limits of at least 80% and 2 GB of available memory, whatever a service admits the queue's monitor admits too |
| Service.AdmissionBoundariesDiffer | handbrake-service/handbrake_service_simple.py:127-132 | any host at exactly 80% CPU or memory, or exactly 5 GB free, that the queue's monitor admits under limits of at least 80% is refused by a service |
| Service.RequestJobId | handbrake-service/handbrake_service_simple.py:367 | a request's own `job_id` is used whenever the key is present; otherwise the id is `job_` followed by a decimal that reads back as the clock's seconds |
| Service.RequestParams | handbrake-service/handbrake_service_simple.py:366-374 | each parameter present in the request is used, and each absent one gets its own job default, whatever the other keys hold |
| Service.ConvertStatusCode | handbrake-service/handbrake_service_simple.py:342-392 | `/convert` answers 200 exactly when a job was started, 400 exactly for missing paths and 503 exactly when admission is refused |
| Service.CancelStatusCode | handbrake-service/handbrake_service_simple.py:440-478 | `/cancel` answers 200 exactly when the job was cancelled, 400 exactly for a job that is not running and 404 exactly for an unknown job |
| Service.ScanOutput | handbrake-service/handbrake_service_simple.py:270-283 | reading stops exactly at the first malformed line and reports its message; the progress reached is the starting value or an update read before that line |
| Service.ScanOutputAppend | handbrake-service/handbrake_service_simple.py:269-283 | output with no malformed line can be read in two parts, the second starting from the progress the first reached |
| Service.ScanOutputLastUpdate | handbrake-service/handbrake_service_simple.py:277-278 | the progress reported is that of the last update read |
| Service.ScanOutputSkips | handbrake-service/handbrake_service_simple.py:273-283 | a skipped line changes neither the progress nor the outcome |
| Service.ScanOutputMalformedStops | handbrake-service/handbrake_service_simple.py:274-278 | the first malformed line stops reading with its message and the progress reached before it |
| Service.ScanOutputIgnoresAfterStop | handbrake-service/handbrake_service_simple.py:274-278 | no line after the first malformed one is read |
| Service.FailureMessage | handbrake-service/handbrake_service_simple.py:292-294 | the message of a nonzero exit starts with the fixed `HandBrake failed with return code ` prefix |
| Service.FailureMessageNamesCode | handbrake-service/handbrake_service_simple.py:294 | the exit status can be read back from its message |
| Service.FailureMessageInjective | handbrake-service/handbrake_service_simple.py:294 | different exit statuses give different messages |
| Service.ServiceOutcome | handbrake-service/handbrake_service_simple.py:270-304 | a run ends COMPLETED (at 100%) exactly on exit 0 with no malformed output, and FAILED otherwise; a failed launch stores the exception text; a nonzero exit stores the return-code message and keeps the progress read; a malformed progress line fails the job with that line's exception message and the progress read before it; the retry counter is untouched |
| Service.OutcomeOverwritesStatus | handbrake-service/handbrake_service_simple.py:286-298 | the outcome does not depend on the status the job had when the run ended, so a CANCELLED job is overwritten |
| Service.EnumerationLength | handbrake-service/handbrake_service.py:295-301 | an enumeration of a store's keys without repeats has one entry per key |
| Service.Rows | handbrake-service/handbrake_service.py:295-301 | the records of the enumerated keys, one per key, in order |
| Service.Listing | handbrake-service/handbrake_service_simple.py:421-437 | `/jobs` lists every stored record and then every active job, and counts them all; a job that is both stored and active appears twice |
| Service.ListedTwice | handbrake-service/handbrake_service_simple.py:425-433 | the listing is the stored rows in their enumeration order followed by the active records in theirs, and a job that is both stored and active appears once among the stored rows and once among the active rows |
| SqliteService.HandBrakeService.constructor | handbrake-service/handbrake_service_simple.py:52-87 | the service starts with no active job and with whatever rows the persistent SQLite file already holds, each keyed by its id; `CREATE TABLE IF NOT EXISTS` keeps earlier rows, including one left RUNNING, which nothing re-evaluates |
| SqliteService.HandBrakeService.ActiveStatuses | handbrake-service/handbrake_service_simple.py:122-125 | the current status of every active job, keyed by id |
| SqliteService.HandBrakeService.ActiveRecords | handbrake-service/handbrake_service_simple.py:430-431 | the record of every active job, keyed by id |
| SqliteService.HandBrakeService.CanStartJob | handbrake-service/handbrake_service_simple.py:117-132 | the shared admission test over the RUNNING count of the active jobs; a failed sample always refuses |
| SqliteService.HandBrakeService.StartConversion | handbrake-service/handbrake_service_simple.py:332-392 | 400 when a path is missing, then 503 when admission refuses, with nothing changed in either case; otherwise a fresh pending job with the request's id and parameters and 3 retries is saved to the table but not yet made active |
| SqliteService.HandBrakeService.BeginConversion | handbrake-service/handbrake_service_simple.py:238-244 | the job becomes RUNNING, is registered as active and is saved; the running count grows by at most one |
| SqliteService.HandBrakeService.ReadProgress | handbrake-service/handbrake_service_simple.py:270-283 | the job's progress and the error are what `ScanOutput` gives for its output; nothing else about the job changes; at most the job's own row is rewritten |
| SqliteService.HandBrakeService.FinishConversion | handbrake-service/handbrake_service_simple.py:270-304 | the job's new state is `ServiceOutcome` of its state when the run ended; the row is saved; the job stays active |
| SqliteService.HandBrakeService.RunConversion | handbrake-service/handbrake_service_simple.py:232-304 | a whole run with no cancel in between: the job is registered, and its state becomes the outcome of running from RUNNING |
| SqliteService.HandBrakeService.CancelJob | handbrake-service/handbrake_service_simple.py:440-478 | 404 exactly for an id that is not active; 400, with nothing changed, exactly for an active job that is not RUNNING; otherwise the job becomes CANCELLED, is saved, and the running count drops by one |
| SqliteService.HandBrakeService.GetJobStatus | handbrake-service/handbrake_service_simple.py:395-418 | the active job, else the table row, else not found (404) exactly when the id is in neither |
| SqliteService.HandBrakeService.ListJobs | handbrake-service/handbrake_service_simple.py:421-437 | every table row and then every active job, with the count equal to the sum; an active job that has a row is listed twice |
| RedisService.HandBrakeService.constructor | handbrake-service/handbrake_service.py:47-57 | the service starts with no active job and with whatever hashes the external Redis server already holds, each keyed by its id |
| RedisService.HandBrakeService.ActiveStatuses | handbrake-service/handbrake_service.py:92-95 | the current status of every active job, keyed by id |
| RedisService.HandBrakeService.ActiveRecords | handbrake-service/handbrake_service.py:303-306 | the record of every active job, keyed by id |
| RedisService.HandBrakeService.CanStartJob | handbrake-service/handbrake_service.py:87-102 | the shared admission test over the RUNNING count of the active jobs; a failed sample always refuses |
| RedisService.HandBrakeService.StartConversion | handbrake-service/handbrake_service.py:201-261 | 400 when a path is missing, then 503 when admission refuses, with nothing stored in either case; otherwise a fresh pending job is stored only after both checks, but not yet made active |
| RedisService.HandBrakeService.BeginConversion | handbrake-service/handbrake_service.py:110-114 | the job becomes RUNNING and is registered as active; the store is not written |
| RedisService.HandBrakeService.ReadProgress | handbrake-service/handbrake_service.py:140-152 | the job's progress and the error are what `ScanOutput` gives for its output; only the job object changes |
| RedisService.HandBrakeService.FinishConversion | handbrake-service/handbrake_service.py:140-173 | the job's new state is `ServiceOutcome` of its state when the run ended; the hash is written; the job stays active |
| RedisService.HandBrakeService.RunConversion | handbrake-service/handbrake_service.py:105-173 | a whole run with no cancel in between: the job is registered, its state becomes the outcome of running from RUNNING, and its hash is written once, at the end |
| RedisService.HandBrakeService.CancelJob | handbrake-service/handbrake_service.py:315-353 | 404 exactly for an id that is not active; 400, with nothing changed, exactly for an active job that is not RUNNING; otherwise the job becomes CANCELLED, its hash is written, and the running count drops by one |
| RedisService.HandBrakeService.GetJobStatus | handbrake-service/handbrake_service.py:264-287 | the stored hash, else the active job, else not found (404) exactly when the id is in neither |
| RedisService.HandBrakeService.ListJobs | handbrake-service/handbrake_service.py:290-312 | every stored hash and then every active job, with the count equal to the list length; an active job that has a hash is listed twice |

`Text` holds only helpers that make `int()`, `str()` and `split` precise; its lemmas (for example
`Text.ParseIntOfIntToString`, `int(str(i)) == i`) support the rows above.

## Left out

- Sampling with psutil is an input: a usage record in GB, or `None` when psutil raises. The
  division by 1024³ is not modelled, and neither is the one-second CPU sampling interval.
- `psutil.cpu_count()` is a natural-number input. Its `None` result on hosts where it cannot be
  determined is not modelled.
- Threads, locks, `queue.get(timeout=1)`, the 5-, 30- and 1-second sleeps, daemon threads and
  `shutdown_event` are not modelled. Each thread is a sequence of steps; a cancel can fall
  between the begin and finish steps, but finer interleavings are not explored.
- Timestamps (`created_at`, `started_at`, `completed_at`, `datetime.utcnow`) and `time.time()` are
  not modelled. The clock is a whole-seconds input to `Service.RequestJobId`.
- The order in which SQLite (`ORDER BY created_at DESC`) and Redis (`KEYS job:*`) return keys is
  not modelled. Listing takes any duplicate-free enumeration of the keys.
- The stores are not modelled as SQL or as Redis hashes.
  - A row or hash is a value copy of the job.
  - Redis stores every field as a string, and the Redis client's handling of `None` values is a
    library matter; neither is modelled.
  - The `job:` key prefix is dropped.
  - A row holds the job's `JobStatus` itself. Rebuilding a job from a row with `JobStatus(value)`
    is modelled only by `Jobs.StatusFromValue` and its round trip with the stored value. A stored
    record is returned as stored, and the fresh timestamps it gets on rebuilding are not modelled.
- Failures of the stores themselves are not modelled. In the services, an exception from
  `save_job_to_db` or a Redis call, and the 500 answer of the endpoint, are left out. In the queue,
  `_update_job_in_db` catches and logs its own failure; the model's writes always succeed, so a
  write that is lost this way is not represented.
- `Queue.JobQueue.ProcessJob` does not model the `except` branch of `_process_job`. The conversion
  and the database update catch their own exceptions, so only a failure in logging, the clock,
  the sleep, the lock or the queue's `put` could reach it, and none of those is modelled.
- `add_job` and `cancel_job` catch exceptions and return `False`. Nothing in their modelled bodies
  raises, so this branch is not modelled.
- The arguments of the conversion script and of HandBrakeCLI are not modelled, and neither is
  `os.makedirs` of the output directory. A failure there is the `Crashed` conversion result, or the
  `SpawnFailed` execution.
- The JSON progress lines are abstracted.
  - Decoding and the `Progress * 100` arithmetic are not modelled; a line arrives already as a
    percentage (`ProgressUpdate`), as a skipped line, or as a malformed shape whose lookup raises
    (`Malformed`).
  - Progress is a `real` percentage; floating-point rounding is not modelled.
  - The loop's end is the end of the output; `process.poll()` is the given exit status.
- The 3600-second timeout is a `TimedOut` conversion result. No clock enforces it.
- `MAX_CONCURRENT_JOBS` is read from the environment on every call in the services. The model takes
  it as a constant of the service, at its default of 8 in the scenarios.
- `int()` is modelled for ASCII text only. Unicode digits and Unicode whitespace, which Python's
  `int()` also accepts, are not modelled.
- The request body is not modelled as JSON.
  - Fields are optional strings and integers, so a non-string path or a non-integer quality is not
    represented.
  - A body that is not a JSON object, which makes `data.get` raise and the endpoint answer 500, is
    not represented either.
- `get_queue_status`, `shutdown` and `init_job_queue` of the queue are not modelled: they only
  report or stop threads.
- The `/health` and `/` endpoints of both services are not modelled: they only report.
- The SQL of the database and table creation (`_init_database`, `init_job_database`) and the
  Redis client setup are not modelled. In the services their effect is the persisted table or
  store that the constructors take, as it stands at start-up.
- Queue.JobQueue.constructor: starts with an empty table. The queue only writes its SQLite file and
  never reads it back, so rows left by earlier runs change none of its behaviour.
- `load_config` and `validate_system_requirements` read the environment and the file system; they
  are not modelled.
- Only the security part of `Config.to_dict` is modelled. The others copy fields unchanged.
- Aliasing of a section object between two `Config` objects is not modelled. `Config.AppConfig`
  holds its network and video sections as values that post-initialisation reassigns.
- The resource limits are Python floats, modelled as `real`. A NaN limit, which passes the
  `< 1 or > 100` checks and then makes every `cpu_percent > limit` comparison false (switching the
  queue's CPU and memory throttling off), is not represented: `Config.ValidateResources` and
  `ResourceMonitor.FromConfig` hold for real numbers only.
- Quality presets are records of quality, resolution and video bitrate. Arbitrary dictionaries are
  not modelled.
- Queue.ProcessOutcome: progress is not reset on a retry, because `_process_job` does not reset it.
  The retry delay is a fixed 30-second sleep with no backoff.
