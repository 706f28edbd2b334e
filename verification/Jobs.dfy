/** Rules about a single job, from agent_api.go, scheduler.go and admin.go. */
module Jobs {
  import opened Model
  import opened Text

  const RUNNING_JOB_TIMEOUT := 20 * MINUTE
  const QUEUED_JOB_TIMEOUT := 10 * MINUTE

  /** The job that enqueueJob inserts. */
  function NewJob(id: JobId, nodeId: NodeId, domainId: DomainId, payload: Payload, now: Time): Job {
    Job(id, nodeId, domainId, payload, Queued, 0, 3, "", now, Some(now), None, None, None, None, None, None, None)
  }

  function QueueTime(job: Job): Time {
    if job.queuedAt.Some? then job.queuedAt.value else job.createdAt
  }

  function TimeoutForJob(payload: Payload): int {
    if payload.UpdateSystem? then 90 * MINUTE
    else if payload.UpdateAtlas? then 30 * MINUTE
    else RUNNING_JOB_TIMEOUT
  }

  /** Checksum failures of a self-update are final. */
  predicate NonRetryableUpdateError(job: Job) {
    job.payload.UpdateAtlas?
    && (job.error == "controller checksum does not match the trusted release manifest"
        || job.error == "release SHA-256 verification failed")
  }

  /** A job whose agent reported failure: back into the queue, or failed for good. */
  function AfterFailedResult(job: Job, error: string, now: Time): Job {
    var current := job.(error := Truncate(error, 2048));
    if current.attempts < current.maxAttempts && !NonRetryableUpdateError(current)
    then current.(status := Queued, queuedAt := Some(now), startedAt := None)
    else current.(status := Failed, finishedAt := Some(now))
  }

  /** Sending a job that is already running again: one more attempt while any are left. */
  function Redispatched(job: Job, now: Time): Job {
    job.(attempts := if job.attempts < job.maxAttempts then job.attempts + 1 else job.attempts,
         startedAt := if job.startedAt.None? then Some(now) else job.startedAt)
  }

  /** Taking a job out of the queue. */
  function Dispatched(job: Job, now: Time): Job {
    job.(status := Running, attempts := job.attempts + 1, startedAt := Some(now))
  }
}
