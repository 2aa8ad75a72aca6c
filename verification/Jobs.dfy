/** What one job publishes on behalf of its run. */
module Jobs {
  import opened Domain
  import opened Events
  import opened Bus
  import opened Runner

  function JobStartedEvent(job: Job, w: JobWorld, stage: string, pipeline: string, runId: string): Event {
    Event(JobStarted, w.startedAt, runId, pipeline, job.name, "", map[StageKey := stage])
  }

  function JobFinishedEvent(job: Job, w: JobWorld, status: Status, pipeline: string, runId: string): Event {
    Event(JobFinished, w.finishedAt, runId, pipeline, job.name, "", map[StatusKey := Slug(status)])
  }

  /** Everything one job publishes, in order. */
  function JobTrace(job: Job, w: JobWorld, stage: string, pipeline: string, runId: string): seq<Event> {
    var r := RunJob(job, w);
    [JobStartedEvent(job, w, stage, pipeline, runId)]
      + StampAll(r.events, pipeline, runId)
      + [JobFinishedEvent(job, w, JobStatus(r.result), pipeline, runId)]
  }
}
