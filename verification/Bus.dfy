/** The event bus as its publishers see it. */
module Bus {
  import opened Events

  /** Off: no bus is configured (a nil sink). Flaky: any publication may fail, and a failed
      one may or may not have reached the stream. Cancelled: so may one under the run's own
      context, which may be cancelled at any time, but not one detached from it. Healthy: every
      publication succeeds. */
  datatype Mode = Off | Flaky | Cancelled | Healthy

  class Stream {
    const mode: Mode
    var events: seq<Event>

    constructor (mode: Mode)
      ensures events == [] && this.mode == mode
    {
      this.mode := mode;
      events := [];
    }

    method Publish(event: Event, detached: bool) returns (ok: bool)
      modifies this`events
      ensures events == old(events) + [event] || (mode != Healthy && events == old(events))
      ensures mode == Cancelled && detached ==> events == old(events) + [event]
      ensures mode == Off ==> events == old(events)
      ensures mode == Healthy ==> ok
    {
      ok := true;
      var reached := mode != Off;
      if mode == Flaky || (mode == Cancelled && !detached) {
        ok, reached := *, *;
      }
      if reached {
        events := events + [event];
      }
    }
  }

  function Stamp(event: Event, pipeline: string, runId: string): Event {
    event.(pipeline := pipeline, runId := runId)
  }

  function StampAll(events: seq<Event>, pipeline: string, runId: string): (stamped: seq<Event>)
    ensures |stamped| == |events|
  {
    seq(|events|, i requires 0 <= i < |events| => Stamp(events[i], pipeline, runId))
  }

  lemma NoStamps(pipeline: string, runId: string)
    ensures StampAll([], pipeline, runId) == []
  {
  }

  lemma StampConcat(a: seq<Event>, b: seq<Event>, pipeline: string, runId: string)
    ensures StampAll(a + b, pipeline, runId) == StampAll(a, pipeline, runId) + StampAll(b, pipeline, runId)
  {
  }

  /** The view of the bus handed to the runner: fills in the pipeline name and the run id. */
  class StampedSink {
    const sink: Stream
    const pipeline: string
    const runId: string

    constructor (sink: Stream, pipeline: string, runId: string)
      ensures this.sink == sink && this.pipeline == pipeline && this.runId == runId
    {
      this.sink := sink;
      this.pipeline := pipeline;
      this.runId := runId;
    }

    method Publish(event: Event) returns (ok: bool)
      modifies sink`events
      ensures sink.events == old(sink.events) + [Stamp(event, pipeline, runId)]
        || (sink.mode != Healthy && sink.events == old(sink.events))
      ensures sink.mode == Off ==> sink.events == old(sink.events)
    {
      ok := sink.Publish(event.(pipeline := pipeline, runId := runId), false);
    }
  }
}
