/** The lifecycle event envelope that travels on the bus. */
module Events {

  /** A clock reading. Nothing in the model orders or compares readings. */
  type Timestamp = int

  datatype EventType =
    | PipelineStarted | PipelineFinished
    | JobStarted | JobFinished
    | StepStarted | StepFinished
    | OtherType(name: string)

  datatype PayloadKey = StatusKey | ExitCodeKey | DurationKey | StageKey | OtherKey(name: string)

  datatype Event = Event(
    kind: EventType, occurredAt: Timestamp, runId: string, pipeline: string, job: string, step: string,
    payload: map<PayloadKey, string>)
  {
    /** Reading an absent key of a string map gives the empty string. */
    function Read(key: PayloadKey): string {
      if key in payload then payload[key] else ""
    }
  }
}
